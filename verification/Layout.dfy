/** The layout of a loaded process: code, then the heap growing up, then the stack growing down from
    2 GB; and what it means for an address space to be up to date. */
module Layout {
  import opened Prelude
  import opened Kalloc
  import opened PageTable
  import opened Dealloc
  import opened X86Vm
  import opened CopyOnWrite
  import opened Regions
  import opened VspaceUpdate
  import opened VspaceState

  const STACK_TOP: nat := 524288  // SZ_2G, in pages
  const MAX_STACK: nat := 10      // pages

  /** Only pages inside its region are in use. */
  predicate InBoundsAt(s: Space, r: nat, idx: nat) {
    r < |s.regions| && At(s.regions[r], idx).used ==> idx < NumPages(s.regions[r])
  }

  /** The heap and the stack are mapped without gaps: exactly the pages covering [base, base + size). */
  predicate ExactAt(s: Space, r: nat, idx: nat) {
    (r == VR_HEAP || r == VR_USTACK) && r < |s.regions| && idx < NumPages(s.regions[r]) ==> At(s.regions[r], idx).used
  }

  /** The regions are fit to be written to the hardware table. */
  ghost predicate Ready(s: Space) {
    && SpaceOk(s)
    && s.regions[VR_CODE].dir.Up? && s.regions[VR_HEAP].dir.Up? && s.regions[VR_USTACK].dir.Down?
    && BotPage(s.regions[VR_CODE]) + NumPages(s.regions[VR_CODE]) <= STACK_TOP
    && s.regions[VR_USTACK].base == STACK_TOP * 4096
    && 1 <= NumPages(s.regions[VR_USTACK]) <= MAX_STACK
    && BotPage(s.regions[VR_HEAP]) <= STACK_TOP - MAX_STACK
    && (forall r: nat, idx: nat :: InBoundsAt(s, r, idx))
    && (forall r: nat, idx: nat :: ExactAt(s, r, idx))
  }

  /** And the hardware table is up to date: it holds what the regions say, no page is used twice, and
      there is no table without need. */
  ghost predicate Clean(m: Mem, s: Space) {
    && Ready(s) && Reflects(m.tables, s) && NoOverlap(s)
    && forall f: Frame :: JustifiedAt(m.pos, s, f)
  }

  /** Every address space is up to date. */
  ghost predicate AllClean(m: Mem) {
    forall pid: nat :: CleanAt(m, pid)
  }

  ghost predicate CleanAt(m: Mem, pid: nat) {
    pid in m.spaces ==> Clean(m, m.spaces[pid])
  }

  /** All but one. */
  ghost predicate OthersClean(m: Mem, pid: nat) {
    forall p: nat :: p != pid ==> CleanAt(m, p)
  }

  /** Growing into each other would use a page twice, so the heap ends at or below the stack. */
  lemma HeapBelowStack(s: Space)
    requires Ready(s) && NoOverlap(s)
    ensures BotPage(s.regions[VR_HEAP]) + NumPages(s.regions[VR_HEAP]) <= BotPage(s.regions[VR_USTACK])
  {
    var heap, stack := s.regions[VR_HEAP], s.regions[VR_USTACK];
    var v := BotPage(stack);
    if BotPage(heap) + NumPages(heap) > v {
      PageIndex(stack, v);
      PageIndex(heap, v);
      assert ExactAt(s, VR_USTACK, IdxOf(stack, v)) && ExactAt(s, VR_HEAP, IdxOf(heap, v));
      assert OnlyOneAt(s, v, VR_USTACK);
      assert UsedIn(s, VR_HEAP, v);
    }
  }

  /** So every page in use lies below 2 GB. */
  lemma UsedBelowTop(s: Space, v: nat)
    requires Ready(s) && NoOverlap(s) && FindUsed(s, v, NREGIONS).Some?
    ensures v < STACK_TOP
  {
    HeapBelowStack(s);
  }

  ghost predicate StaysCleanAt(m: Mem, m': Mem, p: nat) {
    CleanAt(m, p) ==> CleanAt(m', p)
  }

  /** An update of one address space's table leaves the others up to date, if they were. */
  lemma OtherStaysClean(m: Mem, m': Mem, pid: nat, p: nat)
    requires Shape(m) && pid in m.spaces && p != pid && m'.spaces == m.spaces
    requires Around(m.tables, m.pos, m.core, m'.tables, m'.pos, m'.core, m.spaces[pid])
    ensures StaysCleanAt(m, m', p)
  {
    if p in m.spaces && CleanAt(m, p) {
      assert ApartAt(m, p, pid) && SpaceAt(m, p);
      var s := m.spaces[p];
      forall v: nat ensures ReflectsAt(m'.tables, s, v) {
        assert ReflectsAt(m.tables, s, v) && KeptAt(m.tables, m.pos, m'.tables, m.spaces[pid].pgtbl, s.pgtbl, v);
      }
      forall f: Frame ensures JustifiedAt(m'.pos, s, f) {
        assert JustifiedAt(m.pos, s, f) && OtherPosAt(m.pos, m'.pos, m.spaces[pid].pgtbl, f);
      }
    }
  }

  lemma AllCleanAgain(m: Mem, m': Mem, pid: nat)
    requires OthersClean(m, pid) && CleanAt(m', pid) && forall p: nat :: p != pid ==> StaysCleanAt(m, m', p)
    ensures AllClean(m')
  {
    forall p: nat ensures CleanAt(m', p) {
      assert p != pid ==> StaysCleanAt(m, m', p) && CleanAt(m, p);
    }
  }

  /** Changes to the lists and frames of one process leave the others up to date. */
  lemma OthersUntouched(m: Mem, m': Mem, pid: nat)
    requires OthersClean(m, pid) && Geometry(m, m', pid) && m'.tables == m.tables && m'.pos == m.pos
    ensures OthersClean(m', pid)
  {
    forall p: nat | p != pid ensures CleanAt(m', p) {
      assert CleanAt(m, p) && GeometryAt(m, m', pid, p);
    }
  }

  lemma PresentInfos(m: Mem, pid: nat)
    requires MemOk(m) && pid in m.spaces && SpaceAt(m, pid)
    ensures AllPresent(m.spaces[pid])
  {
    var s := m.spaces[pid];
    forall i: nat, v: nat ensures PresentAt(s, i, v) {
      if UsedIn(s, i, v) {
        var k := Key(pid, i, IdxOf(s.regions[i], v));
        assert CoupledAt(m, k) && KeyOk(Cow(m), k);
      }
    }
  }

  lemma FramesInCore(m: Mem, pid: nat)
    requires MemOk(m) && pid in m.spaces && SpaceAt(m, pid)
    ensures forall i: nat, v: nat :: InCoreAt(m.spaces[pid], |m.core|, i, v)
  {
    var s := m.spaces[pid];
    forall i: nat, v: nat ensures InCoreAt(s, |m.core|, i, v) {
      if UsedIn(s, i, v) {
        var k := Key(pid, i, IdxOf(s.regions[i], v));
        assert CoupledAt(m, k) && KeyOk(Cow(m), k);
        assert FrameOk(Cow(m), m.vpis[k].ppn);
      }
    }
  }

  // ---- teardown finds its way ----

  /** A page directory is there only for pages below 2 GB. */
  lemma DirectoryBelowTop(m: Mem, s: Space, pgdir: Frame)
    requires Clean(m, s) && pgdir in m.pos && m.pos[pgdir].root == s.pgtbl && m.pos[pgdir].level == 2 && m.pos[pgdir].prefix < 512
    ensures m.pos[pgdir].prefix < 2
  {
    assert JustifiedAt(m.pos, s, pgdir);
    var u: nat :| u < PML4_PAGES && OnPath(m.pos[pgdir], u) && FindUsed(s, u, NREGIONS).Some?;
    UsedBelowTop(s, u);
  }

  /** A stuck page would be in the last 2 MB below the 2 GB mark. */
  lemma StuckIsUnderStack(m: Mem, s: Space, v: nat)
    requires Tree(m.tables, m.pos) && IsRoot(m.pos, s.pgtbl) && Clean(m, s) && v < USER_PAGES
    requires Stuck(m.tables, s.pgtbl, v)
    ensures v / 512 == (STACK_TOP - 1) / 512
  {
    var root := s.pgtbl;
    var pdpt := Child(m.tables, root, Index(4, v)).value;
    assert NodeOk(m.tables, m.pos, root) && EntryOk(m.tables, m.pos, root, Index(4, v));
    assert EntryOk(m.tables, m.pos, pdpt, Index(3, v)) && NodeOk(m.tables, m.pos, pdpt);
    DirectoryBelowTop(m, s, Child(m.tables, pdpt, Index(3, v)).value);
  }

  lemma SameTable(tables: Tables, root: Frame, u: nat, v: nat)
    requires u / 512 == v / 512
    ensures Walk(tables, root, u) == Walk(tables, root, v)
  {
    SameIndices(u, v);
  }

  /** The stack page just below 2 GB keeps the last directory slot of the second gigabyte populated,
      and nothing is mapped in the fourth: deallocuvm's cursor never gets stuck. */
  lemma NeverStuck(m: Mem, s: Space, v: nat)
    requires Tree(m.tables, m.pos) && IsRoot(m.pos, s.pgtbl) && Clean(m, s) && v < USER_PAGES
    ensures !Stuck(m.tables, s.pgtbl, v)
  {
    TopOfStackMapped(m, s);
    if Stuck(m.tables, s.pgtbl, v) {
      StuckIsUnderStack(m, s, v);
      SameTable(m.tables, s.pgtbl, v, STACK_TOP - 1);
    }
  }

  lemma TopOfStackMapped(m: Mem, s: Space)
    requires Clean(m, s)
    ensures Walk(m.tables, s.pgtbl, STACK_TOP - 1).Some?
  {
    var v := STACK_TOP - 1;
    var stack := s.regions[VR_USTACK];
    PageIndex(stack, v);
    assert ExactAt(s, VR_USTACK, IdxOf(stack, v));
    assert UsedIn(s, VR_USTACK, v);
    assert ReflectsAt(m.tables, s, v);
    WantedOfUsed(s, VR_USTACK, v);
  }

  // ---- where the regions lie ----

  predicate ElseSameAt(a: map<nat, Space>, b: map<nat, Space>, pid: nat, p: nat) {
    p != pid ==> (p in b <==> p in a) && (p in b ==> b[p] == a[p])
  }

  /** All address spaces but pid's are as they were. */
  ghost predicate ElseSame(a: map<nat, Space>, b: map<nat, Space>, pid: nat) {
    forall p: nat :: ElseSameAt(a, b, pid, p)
  }

  lemma ElseSites(a: map<nat, Space>, b: map<nat, Space>, pid: nat, sites: seq<Region>)
    requires ElseSame(a, b, pid) && pid in b && SitesOf(b[pid]) == sites
    ensures Sites(b) == Sites(a)[pid := sites]
  {
    var l := Sites(a)[pid := sites];
    forall p: nat ensures (p in b <==> p in l) && (p in l ==> Sites(b)[p] == l[p]) {
      assert ElseSameAt(a, b, pid, p);
    }
  }

  lemma NewSites(a: map<nat, Space>, b: map<nat, Space>, pid: nat, sites: seq<Region>)
    requires b.Keys == a.Keys + {pid} && forall p :: p in a && p != pid ==> b[p] == a[p]
    ensures Sites(b)[pid := sites] == Sites(a)[pid := sites]
  {
  }

  /** Where only lists grew, everything lies where it was. */
  lemma GeometrySites(m: Mem, m': Mem, pid: nat)
    requires Geometry(m, m', pid) && pid in m.spaces && |m.spaces[pid].regions| == NREGIONS
    ensures ElseSame(m.spaces, m'.spaces, pid) && pid in m'.spaces && SitesOf(m'.spaces[pid]) == SitesOf(m.spaces[pid])
    ensures Sites(m'.spaces) == Sites(m.spaces)
  {
    forall p: nat ensures ElseSameAt(m.spaces, m'.spaces, pid, p) {
      assert GeometryAt(m, m', pid, p);
    }
    assert GeometryAt(m, m', pid, pid);
    ElseSites(m.spaces, m'.spaces, pid, SitesOf(m.spaces[pid]));
    assert Sites(m.spaces)[pid := SitesOf(m.spaces[pid])] == Sites(m.spaces);
  }

  lemma WidenedNone(spaces: map<nat, Space>, pid: nat, r: nat)
    requires pid in spaces && r < |spaces[pid].regions|
    ensures Widened(Sites(spaces), pid, r, spaces[pid].regions[r].size) == Sites(spaces)
  {
    var l: map<nat, seq<Region>> := Sites(spaces);
    assert l[pid][r := l[pid][r].(size := l[pid][r].size)] == l[pid];
  }

  /** What that says of the region itself. */
  lemma WidenedAt(a: map<nat, Space>, b: map<nat, Space>, pid: nat, r: nat, size: nat)
    requires pid in a && r < |a[pid].regions| && pid in b && Sites(b) == Widened(Sites(a), pid, r, size)
    ensures |b[pid].regions| == |a[pid].regions| && Site(b[pid].regions[r]) == Site(a[pid].regions[r]).(size := size)
  {
    assert Sites(b)[pid] == SitesOf(b[pid]) && Sites(a)[pid] == SitesOf(a[pid]);
    assert SitesOf(b[pid])[r] == Site(b[pid].regions[r]) && SitesOf(a[pid])[r] == Site(a[pid].regions[r]);
  }

  lemma ResizedSites(m0: Mem, m: Mem, pid: nat, r: nat, size: nat)
    requires Geometry(m0, m, pid) && pid in m0.spaces && |m0.spaces[pid].regions| == NREGIONS && r < NREGIONS
    ensures pid in m.spaces && |m.spaces[pid].regions| == NREGIONS
    ensures Sites(m.spaces[pid := Resize(m.spaces[pid], r, size)]) == Widened(Sites(m0.spaces), pid, r, size)
  {
    GeometrySites(m0, m, pid);
    assert GeometryAt(m0, m, pid, pid);
    var b: map<nat, Space>, l: map<nat, seq<Region>> := m.spaces[pid := Resize(m.spaces[pid], r, size)], Sites(m0.spaces);
    forall p: nat ensures ElseSameAt(m0.spaces, b, pid, p) {
      assert ElseSameAt(m0.spaces, m.spaces, pid, p);
    }
    var sites: seq<Region> := l[pid][r := l[pid][r].(size := size)];
    forall i | 0 <= i < NREGIONS ensures SitesOf(b[pid])[i] == sites[i] {
      assert SitesOf(m.spaces[pid])[i] == SitesOf(m0.spaces[pid])[i];
    }
    assert SitesOf(b[pid]) == sites;
    ElseSites(m0.spaces, b, pid, sites);
  }

  // ---- a region grows ----

  function Resize(s: Space, r: nat, size: nat): Space
    requires r < |s.regions|
  {
    s.(regions := s.regions[r := s.regions[r].(size := size)])
  }

  lemma ResizeOk(m: Mem, m': Mem, pid: nat, r: nat, size: nat)
    requires MemOk(m) && pid in m.spaces && r < NREGIONS && SpaceAt(m, pid)
    requires m' == m.(spaces := m.spaces[pid := Resize(m.spaces[pid], r, size)])
    ensures MemOk(m') && SpaceAt(m', pid) && View(Cow(m')) == View(Cow(m))
  {
    PlaceRegionsOk(m, m', pid, Resize(m.spaces[pid], r, size).regions);
    assert SpaceAt(m', pid);
  }

  /** The pages added to region r are exactly those between its old size and its new one. */
  predicate FillsGapAt(reg: Region, size: nat, lo: nat, hi: nat, idx: nat) {
    lo <= VpnOf(reg, idx) < hi <==> NumPages(reg) <= idx < NumPages(reg.(size := size))
  }

  /** The infos of a process before and after pages were added to its region r. */
  lemma InfoAfterAdd(m0: Mem, m: Mem, pid: nat, r: nat, reg: Region, lo: nat, hi: nat, i: nat, idx: nat)
    requires MemOk(m0) && MemOk(m) && AddedRange(m0, m, pid, r, reg, true, lo, hi)
    requires pid in m0.spaces && pid in m.spaces && SpaceAt(m0, pid) && SpaceAt(m, pid) && i < NREGIONS
    ensures At(m.spaces[pid].regions[i], idx).used <==>
            At(m0.spaces[pid].regions[i], idx).used || (i == r && lo <= VpnOf(reg, idx) < hi)
  {
    var k := Key(pid, i, idx);
    assert AddedAt(m0, m, pid, r, reg, true, lo, hi, k) && CoupledAt(m0, k) && CoupledAt(m, k);
  }

  /** A page in use is within its list. */
  lemma UsedWithinCap(reg: Region, idx: nat)
    requires At(reg, idx).used
    ensures idx < Cap(reg)
  {
  }

  lemma GrowKeepsBounds(m0: Mem, m: Mem, pid: nat, r: nat, size: nat, lo: nat, hi: nat)
    requires MemOk(m0) && MemOk(m) && pid in m0.spaces && pid in m.spaces && SpaceAt(m0, pid) && SpaceAt(m, pid)
    requires (r == VR_HEAP || r == VR_USTACK) && size >= m0.spaces[pid].regions[r].size
    requires Geometry(m0, m, pid) && AddedRange(m0, m, pid, r, m0.spaces[pid].regions[r], true, lo, hi)
    requires forall idx: nat :: FillsGapAt(m0.spaces[pid].regions[r], size, lo, hi, idx)
    requires forall i: nat, idx: nat :: InBoundsAt(m0.spaces[pid], i, idx)
    requires forall i: nat, idx: nat :: ExactAt(m0.spaces[pid], i, idx)
    ensures forall i: nat, idx: nat :: InBoundsAt(Resize(m.spaces[pid], r, size), i, idx)
    ensures forall i: nat, idx: nat :: ExactAt(Resize(m.spaces[pid], r, size), i, idx)
  {
    var s0, s, reg := m0.spaces[pid], Resize(m.spaces[pid], r, size), m0.spaces[pid].regions[r];
    assert GeometryAt(m0, m, pid, pid);
    forall i: nat, idx: nat ensures InBoundsAt(s, i, idx) && ExactAt(s, i, idx) {
      if i < NREGIONS {
        InfoAfterAdd(m0, m, pid, r, reg, lo, hi, i, idx);
        assert InBoundsAt(s0, i, idx) && ExactAt(s0, i, idx) && FillsGapAt(reg, size, lo, hi, idx);
        assert At(s.regions[i], idx) == At(m.spaces[pid].regions[i], idx);
      }
    }
  }

  /** A grown heap or stack is fit for the table again. */
  lemma GrowReady(m0: Mem, m: Mem, pid: nat, r: nat, size: nat, lo: nat, hi: nat)
    requires MemOk(m0) && MemOk(m) && pid in m0.spaces && pid in m.spaces && SpaceAt(m0, pid) && SpaceAt(m, pid)
    requires Ready(m0.spaces[pid]) && (r == VR_HEAP || r == VR_USTACK) && size >= m0.spaces[pid].regions[r].size
    requires Geometry(m0, m, pid) && AddedRange(m0, m, pid, r, m0.spaces[pid].regions[r], true, lo, hi)
    requires forall idx: nat :: FillsGapAt(m0.spaces[pid].regions[r], size, lo, hi, idx)
    requires r == VR_HEAP ==> m0.spaces[pid].regions[r].base + size <= PML4_PAGES * 4096
    requires r == VR_USTACK ==> size % 4096 == 0 && size <= MAX_STACK * 4096
    ensures Ready(Resize(m.spaces[pid], r, size))
  {
    GrowKeepsBounds(m0, m, pid, r, size, lo, hi);
    var s := Resize(m.spaces[pid], r, size);
    assert GeometryAt(m0, m, pid, pid);
    var n := NumPages(s.regions[r]);
    if n > 0 {
      assert ExactAt(s, r, n - 1);
      UsedWithinCap(s.regions[r], n - 1);
    }
  }

  /** Page v is to be added to region r, and another region uses it. */
  predicate CollidesAt(s: Space, r: nat, lo: nat, hi: nat, i: nat, v: nat) {
    i != r && lo <= v < hi && UsedIn(s, i, v)
  }

  ghost predicate Collides(s: Space, r: nat, lo: nat, hi: nat) {
    exists i: nat, v: nat :: CollidesAt(s, r, lo, hi, i, v)
  }

  /** A page in use after growth was in use before, or was added. */
  lemma UsedAfterGrowth(m0: Mem, m: Mem, pid: nat, r: nat, size: nat, lo: nat, hi: nat, i: nat, v: nat)
    requires MemOk(m0) && MemOk(m) && pid in m0.spaces && pid in m.spaces && SpaceAt(m0, pid) && SpaceAt(m, pid)
    requires Ready(m0.spaces[pid]) && r < NREGIONS && Geometry(m0, m, pid)
    requires AddedRange(m0, m, pid, r, m0.spaces[pid].regions[r], true, lo, hi)
    requires UsedIn(Resize(m.spaces[pid], r, size), i, v)
    ensures UsedIn(m0.spaces[pid], i, v) || (i == r && lo <= v < hi)
  {
    var s0, reg := m0.spaces[pid], m0.spaces[pid].regions[i];
    assert GeometryAt(m0, m, pid, pid);
    var idx := IdxOf(reg, v);
    InfoAfterAdd(m0, m, pid, r, s0.regions[r], lo, hi, i, idx);
    assert InBoundsAt(s0, i, idx);
  }

  /** Growth makes two regions use a page only where it runs into another region. */
  lemma OverlapIsCollision(m0: Mem, m: Mem, pid: nat, r: nat, size: nat, lo: nat, hi: nat)
    requires MemOk(m0) && MemOk(m) && pid in m0.spaces && pid in m.spaces && SpaceAt(m0, pid) && SpaceAt(m, pid)
    requires Ready(m0.spaces[pid]) && NoOverlap(m0.spaces[pid]) && r < NREGIONS && Geometry(m0, m, pid)
    requires AddedRange(m0, m, pid, r, m0.spaces[pid].regions[r], true, lo, hi)
    requires !NoOverlap(Resize(m.spaces[pid], r, size))
    ensures Collides(m0.spaces[pid], r, lo, hi)
  {
    var s0, s := m0.spaces[pid], Resize(m.spaces[pid], r, size);
    var v: nat, i: nat :| !OnlyOneAt(s, v, i);
    var j := FindUsed(s, v, i).value;
    UsedAfterGrowth(m0, m, pid, r, size, lo, hi, i, v);
    UsedAfterGrowth(m0, m, pid, r, size, lo, hi, j, v);
    assert OnlyOneAt(s0, v, i);
    assert CollidesAt(s0, r, lo, hi, if i == r then j else i, v);
  }

  /** The page at a of region r is in use already. */
  predicate TakenAt(vpis: map<Key, Vpi>, pid: nat, r: nat, reg: Region, a: nat) {
    Va2VpiIdx(reg, a * 4096) >= 0 && Key(pid, r, Va2VpiIdx(reg, a * 4096)) in vpis
  }

  /** No page between a region's old end and its new one is. */
  lemma GapIsFree(m: Mem, pid: nat, r: nat, size: nat, lo: nat, hi: nat, a: nat)
    requires MemOk(m) && pid in m.spaces && SpaceAt(m, pid) && Ready(m.spaces[pid]) && r < NREGIONS
    requires HasSlots(m.spaces[pid].regions[r], lo, hi) && lo <= a < hi
    requires forall idx: nat :: FillsGapAt(m.spaces[pid].regions[r], size, lo, hi, idx)
    ensures !TakenAt(m.vpis, pid, r, m.spaces[pid].regions[r], a)
  {
    var s, reg := m.spaces[pid], m.spaces[pid].regions[r];
    SlotOf(reg, lo, hi, a);
    var idx := Va2VpiIdx(reg, a * 4096);
    assert FillsGapAt(reg, size, lo, hi, idx) && CoupledAt(m, Key(pid, r, idx)) && InBoundsAt(s, r, idx);
  }

  lemma GapNotTaken(m: Mem, pid: nat, r: nat, size: nat, lo: nat, hi: nat)
    requires MemOk(m) && pid in m.spaces && SpaceAt(m, pid) && Ready(m.spaces[pid]) && r < NREGIONS
    requires HasSlots(m.spaces[pid].regions[r], lo, hi)
    requires forall idx: nat :: FillsGapAt(m.spaces[pid].regions[r], size, lo, hi, idx)
    ensures forall a: nat :: lo <= a < hi ==> !TakenAt(m.vpis, pid, r, m.spaces[pid].regions[r], a)
  {
    forall a: nat | lo <= a < hi ensures !TakenAt(m.vpis, pid, r, m.spaces[pid].regions[r], a) {
      GapIsFree(m, pid, r, size, lo, hi, a);
    }
  }

  lemma OthersResized(m: Mem, m': Mem, pid: nat)
    requires OthersClean(m, pid) && m'.tables == m.tables && m'.pos == m.pos && m'.spaces.Keys == m.spaces.Keys
    requires forall p :: p in m.spaces && p != pid ==> m'.spaces[p] == m.spaces[p]
    ensures OthersClean(m', pid)
  {
    forall p: nat | p != pid ensures CleanAt(m', p) {
      assert CleanAt(m, p);
    }
  }

  /** The pages sbrk maps are the ones between the old heap end and the new. */
  lemma HeapGap(heap: Region, size: nat, lo: nat, hi: nat)
    requires heap.dir.Up? && heap.base % 4096 == 0 && size >= heap.size
    requires lo == FirstPage(heap.base + heap.size, 0) && hi == FirstPage(heap.base, size)
    ensures forall idx: nat :: FillsGapAt(heap, size, lo, hi, idx)
  {
    forall idx: nat ensures FillsGapAt(heap, size, lo, hi, idx) {
    }
  }

  lemma StackGap(stack: Region, size: nat, lo: nat, hi: nat)
    requires stack.dir.Down? && stack.base % 4096 == 0 && stack.size % 4096 == 0 && size % 4096 == 0
    requires stack.size <= size <= stack.base && lo == stack.base / 4096 - size / 4096 && hi == BotPage(stack)
    ensures forall idx: nat :: FillsGapAt(stack, size, lo, hi, idx)
  {
    forall idx: nat ensures FillsGapAt(stack, size, lo, hi, idx) {
    }
  }

  const KERNBASE: nat := 0xFFFF_FFFF_8000_0000

  /** Region r may grow by the sz bytes from fromVa, pages [lo, hi), to that size. */
  ghost predicate Growable(s: Space, r: nat, fromVa: nat, sz: nat, size: nat, lo: nat, hi: nat) {
    && |s.regions| == NREGIONS && (r == VR_HEAP || r == VR_USTACK) && 0 < sz && size == s.regions[r].size + sz
    && lo == FirstPage(fromVa, 0) && hi == FirstPage(fromVa, sz) && HasSlots(s.regions[r], lo, hi) && sz + fromVa < KERNBASE
    && (forall idx: nat :: FillsGapAt(s.regions[r], size, lo, hi, idx))
    && (r == VR_HEAP ==> s.regions[r].base + size <= PML4_PAGES * 4096)
    && (r == VR_USTACK ==> size % 4096 == 0 && size <= MAX_STACK * 4096)
  }

  lemma HeapGrowable(s: Space, n: nat)
    requires Ready(s) && NoOverlap(s) && 0 < n < 0x8000_0000
    ensures var heap := s.regions[VR_HEAP];
            var top := heap.base + heap.size;
            Growable(s, VR_HEAP, top, n, heap.size + n, FirstPage(top, 0), FirstPage(top, n))
  {
    var heap := s.regions[VR_HEAP];
    HeapBelowStack(s);
    HeapGap(heap, heap.size + n, FirstPage(heap.base + heap.size, 0), FirstPage(heap.base + heap.size, n));
  }

  lemma StackGrowable(s: Space, page: nat, fromVa: nat, sz: nat)
    requires Ready(s) && STACK_TOP - MAX_STACK <= page < BotPage(s.regions[VR_USTACK])
    requires fromVa == page * 4096 && sz == s.regions[VR_USTACK].base - s.regions[VR_USTACK].size - fromVa
    ensures Growable(s, VR_USTACK, fromVa, sz, s.regions[VR_USTACK].size + sz, page, BotPage(s.regions[VR_USTACK]))
  {
    var stack := s.regions[VR_USTACK];
    StackGap(stack, stack.size + sz, page, BotPage(stack));
  }

  /** A page of the stack always has its entry, so a missing one is below the stack. */
  lemma FaultBelowStack(m: Mem, s: Space, v: nat)
    requires MemOk(m) && Clean(m, s) && AllPresent(s) && v < STACK_TOP && !Entry(m.tables, s.pgtbl, v).present
    ensures v < BotPage(s.regions[VR_USTACK])
  {
    var stack := s.regions[VR_USTACK];
    assert ReflectsAt(m.tables, s, v) && PresentAt(s, VR_USTACK, v);
    if v >= BotPage(stack) {
      PageIndex(stack, v);
      assert ExactAt(s, VR_USTACK, IdxOf(stack, v));
      WantedOfUsed(s, VR_USTACK, v);
    }
  }

  lemma UsedListsNotEmpty(s: Space)
    requires Ready(s)
    ensures s.regions[VR_USTACK].pages != []
  {
    assert ExactAt(s, VR_USTACK, 0);
  }

  /** Longer lists with the same infos: everything stays up to date. */
  lemma ListsGrew(m0: Mem, m: Mem, pid: nat)
    requires MemOk(m0) && MemOk(m) && AllClean(m0) && Geometry(m0, m, pid) && m.vpis == m0.vpis
    requires m.tables == m0.tables && m.pos == m0.pos && OthersClean(m, pid) && pid in m0.spaces
    ensures AllClean(m)
  {
    assert CleanAt(m0, pid) && GeometryAt(m0, m, pid, pid) && SpaceAt(m0, pid) && SpaceAt(m, pid);
    var s0, s := m0.spaces[pid], m.spaces[pid];
    forall i: nat, idx: nat ensures i < NREGIONS ==> At(s.regions[i], idx) == At(s0.regions[i], idx) {
      assert CoupledAt(m0, Key(pid, i, idx)) && CoupledAt(m, Key(pid, i, idx));
    }
    SameInfos(m0, m, s0, s);
    forall p: nat ensures CleanAt(m, p) {
    }
  }

  lemma SameInfos(m0: Mem, m: Mem, s0: Space, s: Space)
    requires Clean(m0, s0) && |s.regions| == NREGIONS && s.pgtbl == s0.pgtbl && m.tables == m0.tables && m.pos == m0.pos
    requires forall i :: 0 <= i < NREGIONS ==> SameRegion(s0.regions[i], s.regions[i]) && ListOk(s.regions[i])
    requires forall i: nat, idx: nat :: i < NREGIONS ==> At(s.regions[i], idx) == At(s0.regions[i], idx)
    ensures Clean(m, s)
  {
    forall i: nat, idx: nat ensures InBoundsAt(s, i, idx) && ExactAt(s, i, idx) {
      assert InBoundsAt(s0, i, idx) && ExactAt(s0, i, idx);
    }
    forall v: nat, i: nat ensures SameUsedAt(s0, s, v, i) {
    }
    SameUses(m0, m, s0, s);
  }

  predicate SameUsedAt(s0: Space, s: Space, v: nat, i: nat) {
    UsedIn(s, i, v) == UsedIn(s0, i, v) && (UsedIn(s, i, v) ==> PteIn(s, i, v) == PteIn(s0, i, v))
  }

  /** The same pages in use for the same frames: the table and its needs are the same. */
  lemma SameUses(m0: Mem, m: Mem, s0: Space, s: Space)
    requires Reflects(m0.tables, s0) && NoOverlap(s0) && forall f: Frame :: JustifiedAt(m0.pos, s0, f)
    requires s.pgtbl == s0.pgtbl && m.tables == m0.tables && m.pos == m0.pos
    requires forall v: nat, i: nat :: SameUsedAt(s0, s, v, i)
    ensures Reflects(m.tables, s) && NoOverlap(s) && forall f: Frame :: JustifiedAt(m.pos, s, f)
  {
    forall v: nat, i: nat ensures OnlyOneAt(s, v, i) {
      assert OnlyOneAt(s0, v, i) && SameUsedAt(s0, s, v, i);
      SameFind(s0, s, v, i);
    }
    forall v: nat ensures ReflectsAt(m.tables, s, v) {
      assert ReflectsAt(m0.tables, s0, v);
      SameFind(s0, s, v, NREGIONS);
      var q := if FindUsed(s, v, NREGIONS).Some? then FindUsed(s, v, NREGIONS).value else 0;
      assert SameUsedAt(s0, s, v, q);
    }
    forall f: Frame ensures JustifiedAt(m.pos, s, f) {
      assert JustifiedAt(m0.pos, s0, f);
      if UnderTop(m0.pos, s0.pgtbl, 0, f) {
        var u: nat :| u < PML4_PAGES && OnPath(m0.pos[f], u) && FindUsed(s0, u, NREGIONS).Some?;
        SameFind(s0, s, u, NREGIONS);
      }
    }
  }

  lemma SameFind(s0: Space, s: Space, v: nat, n: nat)
    requires forall w: nat, i: nat :: SameUsedAt(s0, s, w, i)
    ensures FindUsed(s, v, n) == FindUsed(s0, v, n)
  {
    assert SameUsedAt(s0, s, v, 0) && SameUsedAt(s0, s, v, 1) && SameUsedAt(s0, s, v, 2);
  }

  // ---- the hardware's view is the process's ----

  /** The slot of an address whose page is in use. */
  function KeyOf(pid: nat, s: Space, va: nat): Key
    requires FindUsed(s, va / 4096, NREGIONS).Some?
  {
    var i := FindUsed(s, va / 4096, NREGIONS).value;
    Key(pid, i, IdxOf(s.regions[i], va / 4096))
  }

  /** What a load of va by pid yields: the byte in the frame its table names, or a fault. */
  function HardwareByte(m: Mem, pid: nat, va: nat): Option<byte> {
    if pid !in m.spaces then None
    else
      var e := Entry(m.tables, m.spaces[pid].pgtbl, va / 4096);
      if e.present && e.ppn in m.data && |m.data[e.ppn]| == PGSIZE then Some(m.data[e.ppn][va % 4096]) else None
  }

  /** What the page table yields for an address is the frame and permission of the page's own info, and
      the bytes there are the ones the process should see. */
  lemma HardwareView(m: Mem, pid: nat, va: nat)
    requires MemOk(m) && pid in m.spaces && CleanAt(m, pid) && va / 4096 < PML4_PAGES
    ensures var s := m.spaces[pid];
            var e := Entry(m.tables, s.pgtbl, va / 4096);
            && (e.present <==> FindUsed(s, va / 4096, NREGIONS).Some?)
            && (e.present ==>
                  var k := KeyOf(pid, s, va);
                  && k in m.vpis && e == X86Pte(m.vpis[k]) && e.ppn in m.data && |m.data[e.ppn]| == PGSIZE
                  && k in View(Cow(m)) && View(Cow(m))[k].bytes == m.data[e.ppn])
  {
    var s := m.spaces[pid];
    assert SpaceAt(m, pid) && ReflectsAt(m.tables, s, va / 4096);
    if FindUsed(s, va / 4096, NREGIONS).Some? {
      var k := KeyOf(pid, s, va);
      assert CoupledAt(m, k) && KeyOk(Cow(m), k) && RoleAt(m, m.vpis[k].ppn);
    }
  }

  /** Rewriting infos of pages in use, in place, leaves the regions fit for the table. */
  lemma ReadyKept(s0: Space, s: Space)
    requires Ready(s0) && |s.regions| == NREGIONS
    requires forall i :: 0 <= i < NREGIONS ==> SameRegion(s0.regions[i], s.regions[i]) && ListOk(s.regions[i])
    requires forall i: nat, idx: nat :: SameUseAt(s0, s, i, idx)
    ensures Ready(s)
  {
    forall i: nat, idx: nat ensures InBoundsAt(s, i, idx) && ExactAt(s, i, idx) {
      assert InBoundsAt(s0, i, idx) && ExactAt(s0, i, idx) && SameUseAt(s0, s, i, idx);
    }
  }

  predicate SameUseAt(s0: Space, s: Space, i: nat, idx: nat) {
    i < |s0.regions| == |s.regions| ==> At(s.regions[i], idx).used == At(s0.regions[i], idx).used
  }

  /** And makes no two regions use a page. */
  lemma OverlapKept(s0: Space, s: Space)
    requires NoOverlap(s0) && |s0.regions| == |s.regions| == NREGIONS
    requires forall i :: 0 <= i < NREGIONS ==> SameRegion(s0.regions[i], s.regions[i])
    requires forall i: nat, idx: nat :: SameUseAt(s0, s, i, idx)
    ensures NoOverlap(s)
  {
    forall v: nat, i: nat ensures OnlyOneAt(s, v, i) {
      UseKept(s0, s, i, v);
      UseKept(s0, s, 0, v);
      UseKept(s0, s, 1, v);
      UseKept(s0, s, 2, v);
      assert OnlyOneAt(s0, v, i);
    }
  }

  lemma UseKept(s0: Space, s: Space, i: nat, v: nat)
    requires |s0.regions| == |s.regions| == NREGIONS
    requires forall i :: 0 <= i < NREGIONS ==> SameRegion(s0.regions[i], s.regions[i])
    requires forall i: nat, idx: nat :: SameUseAt(s0, s, i, idx)
    ensures UsedIn(s, i, v) <==> UsedIn(s0, i, v)
  {
    if i < NREGIONS && IdxOf(s0.regions[i], v) >= 0 {
      assert SameUseAt(s0, s, i, IdxOf(s0.regions[i], v));
    }
  }

  /** A process whose set of used slots did not change is still fit for the table. */
  lemma ReadyAfterRewrite(m0: Mem, m: Mem, pid: nat)
    requires MemOk(m0) && MemOk(m) && pid in m0.spaces && pid in m.spaces && Ready(m0.spaces[pid])
    requires forall q: nat :: q == pid ==> GeometryAt(m0, m, pid, q)
    requires forall k: Key :: k.pid == pid ==> (k in m.vpis <==> k in m0.vpis)
    ensures Ready(m.spaces[pid])
    ensures CleanAt(m0, pid) && m.tables == m0.tables ==> NoOverlap(m.spaces[pid]) && WasMapped(m.tables, m.spaces[pid])
  {
    assert SpaceAt(m0, pid) && SpaceAt(m, pid) && GeometryAt(m0, m, pid, pid);
    var s0, s := m0.spaces[pid], m.spaces[pid];
    forall i: nat, idx: nat ensures SameUseAt(s0, s, i, idx) {
      var k := Key(pid, i, idx);
      assert CoupledAt(m0, k) && CoupledAt(m, k);
      assert k in m.vpis <==> k in m0.vpis;
    }
    ReadyKept(s0, s);
    if CleanAt(m0, pid) && m.tables == m0.tables {
      OverlapKept(s0, s);
      CleanIsMapped(m0, pid);
      MappedKept(m.tables, s0, s);
    }
  }

  lemma CleanIsMapped(m: Mem, pid: nat)
    requires MemOk(m) && pid in m.spaces && SpaceAt(m, pid) && CleanAt(m, pid)
    ensures WasMapped(m.tables, m.spaces[pid])
  {
    var s := m.spaces[pid];
    PresentInfos(m, pid);
    forall v: nat ensures WasMappedAt(m.tables, s, v) {
      assert ReflectsAt(m.tables, s, v);
      if FindUsed(s, v, NREGIONS).Some? {
        assert PresentAt(s, FindUsed(s, v, NREGIONS).value, v);
      }
    }
  }

  lemma MappedKept(tables: Tables, s0: Space, s: Space)
    requires WasMapped(tables, s0) && |s0.regions| == |s.regions| == NREGIONS && s.pgtbl == s0.pgtbl
    requires forall i :: 0 <= i < NREGIONS ==> SameRegion(s0.regions[i], s.regions[i])
    requires forall i: nat, idx: nat :: SameUseAt(s0, s, i, idx)
    ensures WasMapped(tables, s)
  {
    forall v: nat ensures WasMappedAt(tables, s, v) {
      UseKept(s0, s, 0, v);
      UseKept(s0, s, 1, v);
      UseKept(s0, s, 2, v);
      assert WasMappedAt(tables, s0, v);
    }
  }

  lemma SameClean(m: Mem, m': Mem)
    requires AllClean(m) && m'.spaces == m.spaces && m'.tables == m.tables && m'.pos == m.pos
    ensures AllClean(m')
  {
    forall p: nat ensures CleanAt(m', p) {
      assert CleanAt(m, p);
    }
  }

  /** After the copy the hardware lets the store through. */
  lemma NowWritable(m: Mem, k: Key, va: nat)
    requires MemOk(m) && k.pid in m.spaces && CleanAt(m, k.pid) && k.region < NREGIONS && |m.spaces[k.pid].regions| == NREGIONS
    requires k in m.vpis && m.vpis[k].writable
    requires InRegion(m.spaces[k.pid].regions[k.region], va / 4096) && IdxOf(m.spaces[k.pid].regions[k.region], va / 4096) == k.idx
    ensures Entry(m.tables, m.spaces[k.pid].pgtbl, va / 4096).writable
  {
    var s := m.spaces[k.pid];
    assert CoupledAt(m, k);
    PageIndex(s.regions[k.region], va / 4096);
    WantedOfUsed(s, k.region, va / 4096);
    assert ReflectsAt(m.tables, s, va / 4096);
  }

  /** The process may write the page of address va, shared or not. */
  ghost predicate OwnsPage(m: Mem, pid: nat, va: nat) {
    && pid in m.spaces && FindUsed(m.spaces[pid], va / 4096, NREGIONS).Some?
    && var k := KeyOf(pid, m.spaces[pid], va); k in View(Cow(m)) && View(Cow(m))[k].writable
  }

  /** Where va2vregion finds the region that uses the page, the info it leads to is the page's own. */
  lemma FaultIsOwn(m: Mem, pid: nat, va: nat)
    requires MemOk(m) && pid in m.spaces && CleanAt(m, pid)
    ensures var s := m.spaces[pid];
            FindUsed(s, va / 4096, NREGIONS).Some? && Va2Vregion(s, va) == FindUsed(s, va / 4096, NREGIONS) ==>
              var k := KeyOf(pid, s, va);
              && k in m.vpis && k.region < |s.regions| && k.idx == Va2VpiIdx(s.regions[k.region], va)
              && At(s.regions[k.region], k.idx) == m.vpis[k]
              && k in View(Cow(m)) && View(Cow(m))[k].writable == (m.vpis[k].writable || m.vpis[k].cow)
  {
    var s := m.spaces[pid];
    if FindUsed(s, va / 4096, NREGIONS).Some? && Va2Vregion(s, va) == FindUsed(s, va / 4096, NREGIONS) {
      var k := KeyOf(pid, s, va);
      assert SpaceAt(m, pid) && CoupledAt(m, k);
      ContainedPage(s.regions[k.region], va);
      assert KeyOk(Cow(m), k);
    }
  }

  /** After the stack grew to a page the hardware lets stores to it through. */
  lemma GrownIsWritable(m0: Mem, m: Mem, m': Mem, pid: nat, addr: nat)
    requires MemOk(m') && pid in m0.spaces && pid in m'.spaces && CleanAt(m', pid) && |m0.spaces[pid].regions| == NREGIONS
    requires m'.vpis == m.vpis && m'.spaces[pid].regions[VR_USTACK].base == m0.spaces[pid].regions[VR_USTACK].base
    requires m0.spaces[pid].regions[VR_USTACK].dir.Down? && BotPage(m'.spaces[pid].regions[VR_USTACK]) == addr / 4096
    requires addr / 4096 < BotPage(m0.spaces[pid].regions[VR_USTACK])
    requires AddedRange(m0, m, pid, VR_USTACK, m0.spaces[pid].regions[VR_USTACK], true, addr / 4096, BotPage(m0.spaces[pid].regions[VR_USTACK]))
    ensures Entry(m'.tables, m'.spaces[pid].pgtbl, addr / 4096).writable
  {
    var stack0, stack := m0.spaces[pid].regions[VR_USTACK], m'.spaces[pid].regions[VR_USTACK];
    var k := Key(pid, VR_USTACK, IdxOf(stack0, addr / 4096));
    assert AddedAt(m0, m, pid, VR_USTACK, stack0, true, addr / 4096, BotPage(stack0), k);
    NowWritable(m', k, addr);
  }

  /** A list of one page whose first info is v. */
  function OneInfo(f: Frame, v: Vpi): seq<VpiPage> {
    [VpiPage(f, seq(VPIPPAGE, i => if i == 0 then v else UNUSED))]
  }

  /** After sbrk(1) and fork: a heap of one byte, on a page that is shared. */
  function ShortHeap(): Space {
    Space([Region(Up, 0x10000, 0, []),
           Region(Up, 0x20000, 1, OneInfo(1, Vpi(true, 2, true, false, true))),
           Region(Down, STACK_TOP * 4096, 4096, OneInfo(3, Vpi(true, 4, true, false, true)))], 5)
  }

  /** On that page va2vregion finds no region for the second byte, whose write cowcopy should handle. */
  lemma RegionMissed() returns (s: Space, va: nat)
    ensures Ready(s) && NoOverlap(s) && UsedIn(s, VR_HEAP, va / 4096)
    ensures At(s.regions[VR_HEAP], IdxOf(s.regions[VR_HEAP], va / 4096)).cow && Va2Vregion(s, va) == None
  {
    s, va := ShortHeap(), 0x20001;
    forall r: nat, idx: nat ensures InBoundsAt(s, r, idx) && ExactAt(s, r, idx) {
    }
    forall v: nat, i: nat ensures OnlyOneAt(s, v, i) {
    }
  }
}
