/** The address space of a new program: vspaceinitcode for the first process, and vspaceloadcode with
    vspaceinitstack for exec. */
module Loading {
  import opened Prelude
  import opened Kalloc
  import opened X86Vm
  import opened CopyOnWrite
  import opened Regions
  import opened VspaceUpdate
  import opened VspaceState
  import opened Layout
  import opened Vspace

  /** A loadable segment of a program; `file` is the part of it the program's file holds. */
  datatype Segment = Segment(vaddr: nat, memsz: nat, writable: bool, file: seq<byte>)

  /** Page p of a segment: the bytes of the file that belong there, then zeroes. */
  function PageOf(seg: Segment, p: nat): Page {
    seq(PGSIZE, i => if seg.vaddr <= p * 4096 + i < seg.vaddr + |seg.file| then seg.file[p * 4096 + i - seg.vaddr] else 0)
  }

  /** The first page of the segment, and the first behind it. */
  function Low(seg: Segment): nat {
    FirstPage(seg.vaddr, 0)
  }

  function High(seg: Segment): nat {
    FirstPage(seg.vaddr, seg.memsz)
  }

  // ---- one segment ----

  /** What the processes see once pages [Low, p) of a segment are loaded. */
  predicate FilledAt(v1: Memory, v: Memory, pid: nat, reg: Region, seg: Segment, p: nat, k: Key) {
    if NewKey(pid, VR_CODE, reg, Low(seg), p, k)
    then k in v && v[k] == UserPage(PageOf(seg, VpnOf(reg, k.idx)), seg.writable)
    else (k in v <==> k in v1) && (k in v ==> v[k] == v1[k])
  }

  ghost predicate Filled(v1: Memory, v: Memory, pid: nat, reg: Region, seg: Segment, p: nat) {
    forall k: Key :: FilledAt(v1, v, pid, reg, seg, p, k)
  }

  /** And once the whole segment is there: its pages are new, and nobody sees anything else change. */
  predicate SegmentAt(v0: Memory, v: Memory, pid: nat, reg: Region, seg: Segment, k: Key) {
    if NewKey(pid, VR_CODE, reg, Low(seg), High(seg), k)
    then k !in v0 && k in v && v[k] == UserPage(PageOf(seg, VpnOf(reg, k.idx)), seg.writable)
    else (k in v <==> k in v0) && (k in v ==> v[k] == v0[k])
  }

  ghost predicate SegmentSeen(v0: Memory, v: Memory, pid: nat, reg: Region, seg: Segment) {
    forall k: Key :: SegmentAt(v0, v, pid, reg, seg, k)
  }

  /** The i'th page of the file's part, on a cleared page. */
  lemma PageBytes(seg: Segment, p: nat, i: nat, n: nat)
    requires i == p * 4096 - seg.vaddr && i < |seg.file| && n == (if |seg.file| - i < 4096 then |seg.file| - i else 4096)
    ensures seg.file[i..i + n] + ZeroPage()[n..] == PageOf(seg, p)
  {
  }

  /** Behind the file's part a page is all zeroes. */
  lemma PageZero(seg: Segment, p: nat)
    requires seg.vaddr + |seg.file| <= p * 4096
    ensures PageOf(seg, p) == ZeroPage()
  {
  }

  lemma FilledStep(v1: Memory, v: Memory, pid: nat, reg: Region, seg: Segment, p: nat, q: nat, k: Key, bytes: Page)
    requires Filled(v1, v, pid, reg, seg, p) && NewKey(pid, VR_CODE, reg, p, q, k) && Low(seg) <= p && q == p + 1
    requires k in v && v[k].writable == seg.writable && bytes == PageOf(seg, VpnOf(reg, k.idx))
    ensures Filled(v1, v[k := UserPage(bytes, v[k].writable)], pid, reg, seg, q)
  {
    var v' := v[k := UserPage(bytes, v[k].writable)];
    forall j: Key ensures FilledAt(v1, v', pid, reg, seg, q, j) {
      assert FilledAt(v1, v, pid, reg, seg, p, j);
      assert NewKey(pid, VR_CODE, reg, p, q, j) ==> j == k;
    }
  }

  lemma SegmentDone(v0: Memory, v1: Memory, v: Memory, pid: nat, reg: Region, seg: Segment, p: nat)
    requires GrownView(v0, v1, pid, VR_CODE, reg, seg.writable, Low(seg), High(seg)) && Filled(v1, v, pid, reg, seg, p)
    requires Low(seg) <= p <= High(seg) && seg.vaddr + |seg.file| <= p * 4096
    ensures SegmentSeen(v0, v, pid, reg, seg)
  {
    forall k: Key ensures SegmentAt(v0, v, pid, reg, seg, k) {
      assert GrownViewAt(v0, v1, pid, VR_CODE, reg, seg.writable, Low(seg), High(seg), k) && FilledAt(v1, v, pid, reg, seg, p, k);
      if NewKey(pid, VR_CODE, reg, p, High(seg), k) {
        PageZero(seg, VpnOf(reg, k.idx));
      }
    }
  }

  /** The segment's pages are being loaded: mapped in m1 and filled before page p. */
  ghost predicate Filling(m0: Mem, m1: Mem, m: Mem, pid: nat, reg: Region, seg: Segment, p: nat) {
    && MemOk(m1) && MemOk(m) && m == m1.(data := m.data) && pid in m.spaces && SpaceAt(m, pid)
    && reg.dir.Up? && reg.base % 4096 == 0 && reg.base <= seg.vaddr && SameRegion(reg, m.spaces[pid].regions[VR_CODE])
    && AddedRange(m0, m1, pid, VR_CODE, reg, seg.writable, Low(seg), High(seg))
    && Low(seg) <= p && Filled(View(Cow(m1)), View(Cow(m)), pid, reg, seg, p)
  }

  /** The next page to load is still clear, and on a frame of its own. */
  lemma NextToFill(m0: Mem, m1: Mem, m: Mem, pid: nat, reg: Region, seg: Segment, p: nat, k: Key)
    requires Filling(m0, m1, m, pid, reg, seg, p) && p < High(seg) && k == Key(pid, VR_CODE, p - reg.base / 4096)
    ensures NewKey(pid, VR_CODE, reg, p, p + 1, k) && k in m.vpis && At(m.spaces[pid].regions[VR_CODE], k.idx) == m.vpis[k]
    ensures m.vpis[k].ppn in m.data && m.data[m.vpis[k].ppn] == ZeroPage() && Refs(m.vpis, m.vpis[k].ppn) == {k}
    ensures k in View(Cow(m)) && View(Cow(m))[k].writable == seg.writable
  {
    assert AddedAt(m0, m1, pid, VR_CODE, reg, seg.writable, Low(seg), High(seg), k);
    assert CoupledAt(m, k) && KeyOk(Cow(m), k) && KeyOk(Cow(m1), k);
    assert FilledAt(View(Cow(m1)), View(Cow(m)), pid, reg, seg, p, k);
  }

  lemma FillOne(m0: Mem, m1: Mem, m: Mem, pid: nat, reg: Region, seg: Segment, p: nat, k: Key)
    requires Filling(m0, m1, m, pid, reg, seg, p) && p < High(seg) && k == Key(pid, VR_CODE, p - reg.base / 4096)
    requires k in m.vpis
    ensures Filling(m0, m1, m.(data := m.data[m.vpis[k].ppn := PageOf(seg, p)]), pid, reg, seg, p + 1)
  {
    NextToFill(m0, m1, m, pid, reg, seg, p, k);
    var bytes := PageOf(seg, p);
    FillMemOk(m, k, bytes);
    FilledStep(View(Cow(m1)), View(Cow(m)), pid, reg, seg, p, p + 1, k, bytes);
  }

  /** vrloaddata's and vradddata's loop body: the file's bytes for page p are moved in. */
  method LoadPage(v: Vspaces, pid: nat, seg: Segment, p: nat, ghost m0: Mem, ghost m1: Mem, ghost reg: Region)
    requires v.Valid() && Filling(m0, m1, v.Now(), pid, reg, seg, p) && p < High(seg)
    requires seg.vaddr % 4096 == 0 && p * 4096 < seg.vaddr + |seg.file|
    modifies v`data
    ensures v.Valid() && Filling(m0, m1, v.Now(), pid, reg, seg, p + 1)
  {
    ghost var m := v.Now();
    var code := v.spaces[pid].regions[VR_CODE];
    var k := Key(pid, VR_CODE, Va2VpiIdx(code, p * 4096));
    NextToFill(m0, m1, m, pid, reg, seg, p, k);
    FillOne(m0, m1, m, pid, reg, seg, p, k);
    var ppn, i := At(code, k.idx).ppn, p * 4096 - seg.vaddr;
    var n := if |seg.file| - i < 4096 then |seg.file| - i else 4096;
    PageBytes(seg, p, i, n);
    v.data := v.data[ppn := seg.file[i..i + n] + v.data[ppn][n..]];
    assert v.Now() == m.(data := m.data[m.vpis[k].ppn := PageOf(seg, p)]);
  }

  lemma FillingStart(m0: Mem, m1: Mem, pid: nat, reg: Region, seg: Segment)
    requires MemOk(m1) && pid in m1.spaces && SpaceAt(m1, pid)
    requires reg.dir.Up? && reg.base % 4096 == 0 && reg.base <= seg.vaddr && SameRegion(reg, m1.spaces[pid].regions[VR_CODE])
    requires AddedRange(m0, m1, pid, VR_CODE, reg, seg.writable, Low(seg), High(seg))
    ensures Filling(m0, m1, m1, pid, reg, seg, Low(seg))
  {
    var v1 := View(Cow(m1));
    forall k: Key ensures FilledAt(v1, v1, pid, reg, seg, Low(seg), k) {
    }
  }

  /** vrloaddata: the file's part of a segment that was mapped is moved in, page by page. */
  method LoadData(v: Vspaces, pid: nat, seg: Segment, ghost m0: Mem, ghost reg: Region)
    requires v.Valid() && pid in v.spaces && SpaceAt(v.Now(), pid) && MemOk(m0)
    requires reg.dir.Up? && reg.base % 4096 == 0 && reg.base <= seg.vaddr && SameRegion(reg, v.spaces[pid].regions[VR_CODE])
    requires AddedRange(m0, v.Now(), pid, VR_CODE, reg, seg.writable, Low(seg), High(seg))
    requires seg.vaddr % 4096 == 0 && |seg.file| <= seg.memsz
    modifies v`data
    ensures v.Valid() && SegmentSeen(View(Cow(m0)), View(Cow(v.Now())), pid, reg, seg)
  {
    ghost var m1 := v.Now();
    FillingStart(m0, m1, pid, reg, seg);
    AddedView(m0, m1, pid, VR_CODE, reg, seg.writable, Low(seg), High(seg));
    var p := seg.vaddr / 4096;
    while p * 4096 < seg.vaddr + |seg.file|
      invariant Low(seg) <= p <= High(seg) && v.Valid() && Filling(m0, m1, v.Now(), pid, reg, seg, p)
      decreases seg.vaddr + |seg.file| - p * 4096
    {
      LoadPage(v, pid, seg, p, m0, m1, reg);
      p := p + 1;
    }
    SegmentDone(View(Cow(m0)), View(Cow(m1)), View(Cow(v.Now())), pid, reg, seg, p);
  }

  /** Why a segment is not loaded: its file is longer than it, it is misplaced, or `free` frames are not
      enough for it. */
  predicate Refused(seg: Segment, free: nat) {
    seg.memsz < |seg.file| || seg.vaddr % 4096 != 0 || KERNBASE <= seg.memsz + seg.vaddr || free < High(seg) - Low(seg)
  }

  predicate RefusedOf(segs: seq<Segment>, n: nat, free: nat) {
    n < |segs| && Refused(segs[n], free)
  }

  /** One segment of a program: vregionaddmap, then vrloaddata. A segment that is not page aligned is
      refused, like one whose file is longer than itself. */
  method AddSegment(v: Vspaces, pid: nat, seg: Segment) returns (res: AddResult)
    requires v.Valid() && pid in v.spaces && SpaceAt(v.Now(), pid) && OthersClean(v.Now(), pid)
    requires var reg := v.spaces[pid].regions[VR_CODE]; reg.dir.Up? && reg.base % 4096 == 0 && reg.base <= seg.vaddr
    modifies v, v.pt.cm, v.pt.cm.core
    ensures v.Valid() && pid in v.spaces && SpaceAt(v.Now(), pid) && Geometry(old(v.Now()), v.Now(), pid) && OthersClean(v.Now(), pid)
    ensures res.Added? ==> SegmentSeen(View(Cow(old(v.Now()))), View(Cow(v.Now())), pid, old(v.spaces)[pid].regions[VR_CODE], seg)
    ensures res.Failed? || res.AddCrash? ==> Refused(seg, |Available(v.pt.cm.core[..])|)
    ensures res.Panicked? ==>
              exists a: nat :: Low(seg) <= a < High(seg) && TakenAt(old(v.vpis), pid, VR_CODE, old(v.spaces)[pid].regions[VR_CODE], a)
  {
    ghost var m0, reg := v.Now(), v.spaces[pid].regions[VR_CODE];
    if seg.memsz < |seg.file| {
      assert forall p: nat :: GeometryAt(m0, m0, pid, p);
      return Failed;
    }
    res := v.VregionAddMap(pid, VR_CODE, seg.vaddr, seg.memsz, seg.writable);
    ghost var m1 := v.Now();
    OthersUntouched(m0, m1, pid);
    if !res.Added? {
      return;
    }
    if seg.vaddr % 4096 != 0 {
      return Failed;
    }
    if seg.memsz == 0 {
      AddedNone(m0, pid, VR_CODE, reg, seg.writable, Low(seg));
      AddedSame(m0, m0, m1, pid, VR_CODE, reg, seg.writable, Low(seg), Low(seg));
    }
    assert GeometryAt(m0, m1, pid, pid);
    LoadData(v, pid, seg, m0, reg);
    SameSpaces(m0, m1, v.Now(), pid);
  }

  lemma SameSpaces(m0: Mem, m1: Mem, m: Mem, pid: nat)
    requires Geometry(m0, m1, pid) && OthersClean(m1, pid) && m == m1.(data := m.data)
    ensures Geometry(m0, m, pid) && OthersClean(m, pid)
  {
    forall p: nat ensures GeometryAt(m0, m, pid, p) && (p != pid ==> CleanAt(m, p)) {
      assert GeometryAt(m0, m1, pid, p) && (p != pid ==> CleanAt(m1, p));
    }
  }

  // ---- all segments ----

  /** The segment, of the first n, that covers page p. */
  function Covering(segs: seq<Segment>, n: nat, p: nat): (r: Option<nat>)
    requires n <= |segs|
    ensures r.Some? ==> r.value < n && Low(segs[r.value]) <= p < High(segs[r.value])
    ensures r.None? ==> forall i :: 0 <= i < n ==> !(Low(segs[i]) <= p < High(segs[i]))
  {
    if n == 0 then None
    else if Low(segs[n - 1]) <= p < High(segs[n - 1]) then Some(n - 1)
    else Covering(segs, n - 1, p)
  }

  predicate InOrder(segs: seq<Segment>, i: nat, j: nat) {
    i < j < |segs| ==> segs[i].vaddr <= segs[j].vaddr && High(segs[i]) <= Low(segs[j])
  }

  /** The segments follow each other, none on a page of another, and the last has a page and leaves room
      for the stack. */
  predicate Loadable(segs: seq<Segment>) {
    && (forall i, j :: 0 <= i < j < |segs| ==> InOrder(segs, i, j))
    && (segs != [] ==> Low(segs[|segs| - 1]) < High(segs[|segs| - 1]) < STACK_TOP - MAX_STACK)
  }

  /** Slot k once the first n segments are loaded from page `first` on. */
  predicate LoadedAt(v0: Memory, v: Memory, pid: nat, first: nat, segs: seq<Segment>, n: nat, k: Key)
    requires n <= |segs|
  {
    if k.pid == pid && k.region == VR_CODE && Covering(segs, n, first + k.idx).Some?
    then var seg := segs[Covering(segs, n, first + k.idx).value];
         k in v && v[k] == UserPage(PageOf(seg, first + k.idx), seg.writable)
    else (k in v <==> k in v0) && (k in v ==> v[k] == v0[k])
  }

  ghost predicate Loaded(v0: Memory, v: Memory, pid: nat, first: nat, segs: seq<Segment>, n: nat)
    requires n <= |segs|
  {
    forall k: Key :: LoadedAt(v0, v, pid, first, segs, n, k)
  }

  lemma LoadedStep(v0: Memory, v1: Memory, v: Memory, pid: nat, reg: Region, segs: seq<Segment>, n: nat)
    requires n < |segs| && reg.dir.Up? && Loaded(v0, v1, pid, reg.base / 4096, segs, n)
    requires SegmentSeen(v1, v, pid, reg, segs[n])
    ensures Loaded(v0, v, pid, reg.base / 4096, segs, n + 1)
  {
    var first, n' := reg.base / 4096, n + 1;
    forall k: Key ensures LoadedAt(v0, v, pid, first, segs, n', k) {
      assert LoadedAt(v0, v1, pid, first, segs, n, k) && SegmentAt(v1, v, pid, reg, segs[n], k);
    }
  }

  /** No page of the next segment is in use yet. */
  lemma NextIsFree(m: Mem, v0: Memory, pid: nat, reg: Region, segs: seq<Segment>, n: nat, a: nat)
    requires MemOk(m) && Loadable(segs) && n < |segs| && reg.dir.Up? && reg.base % 4096 == 0 && reg.base <= segs[n].vaddr
    requires Loaded(v0, View(Cow(m)), pid, reg.base / 4096, segs, n) && (forall k: Key :: k in v0 ==> k.pid != pid)
    requires Low(segs[n]) <= a < High(segs[n])
    ensures !TakenAt(m.vpis, pid, VR_CODE, reg, a)
  {
    var k := Key(pid, VR_CODE, a - reg.base / 4096);
    ViewKeys(Cow(m));
    assert LoadedAt(v0, View(Cow(m)), pid, reg.base / 4096, segs, n, k);
    forall i: nat | i < n ensures High(segs[i]) <= Low(segs[n]) {
      assert InOrder(segs, i, n);
    }
    assert TakenAt(m.vpis, pid, VR_CODE, reg, a) ==> k in m.vpis;
  }

  /** A program being loaded: n of its segments are there, and only this process's lists changed. */
  ghost predicate InLoad(m0: Mem, m: Mem, v0: Memory, pid: nat, segs: seq<Segment>, n: nat) {
    && pid in m.spaces && SpaceAt(m, pid) && OthersClean(m, pid) && Geometry(m0, m, pid)
    && (forall k: Key :: k in v0 ==> k.pid != pid) && Loadable(segs) && n <= |segs|
    && var reg := m.spaces[pid].regions[VR_CODE];
       && reg.dir.Up? && reg.base % 4096 == 0 && (segs != [] ==> reg.base <= segs[0].vaddr)
       && Loaded(v0, View(Cow(m)), pid, reg.base / 4096, segs, n)
  }

  /** The next segment. */
  method LoadNext(v: Vspaces, pid: nat, segs: seq<Segment>, n: nat, ghost m0: Mem, ghost v0: Memory) returns (res: AddResult)
    requires v.Valid() && InLoad(m0, v.Now(), v0, pid, segs, n) && n < |segs|
    modifies v, v.pt.cm, v.pt.cm.core
    ensures v.Valid() && !res.Panicked?
    ensures pid in v.spaces && SpaceAt(v.Now(), pid) && Geometry(m0, v.Now(), pid) && OthersClean(v.Now(), pid)
    ensures res.Added? ==> InLoad(m0, v.Now(), v0, pid, segs, n + 1)
    ensures !res.Added? ==> RefusedOf(segs, n, |Available(v.pt.cm.core[..])|)
  {
    ghost var m, reg := v.Now(), v.spaces[pid].regions[VR_CODE];
    assert InOrder(segs, 0, n);
    forall a: nat | Low(segs[n]) <= a < High(segs[n]) ensures !TakenAt(m.vpis, pid, VR_CODE, reg, a) {
      NextIsFree(m, v0, pid, reg, segs, n, a);
    }
    res := AddSegment(v, pid, segs[n]);
    GeometryTransitive(m0, m, v.Now(), pid);
    assert GeometryAt(m, v.Now(), pid, pid);
    if res.Added? {
      LoadedStep(v0, View(Cow(m)), View(Cow(v.Now())), pid, reg, segs, n);
    }
  }

  /** The loop over the segments. Only lack of memory, a file longer than its segment or a misplaced
      segment stops it. */
  method LoadSegments(v: Vspaces, pid: nat, segs: seq<Segment>, ghost v0: Memory) returns (res: AddResult)
    requires v.Valid() && InLoad(v.Now(), v.Now(), v0, pid, segs, 0)
    modifies v, v.pt.cm, v.pt.cm.core
    ensures v.Valid() && !res.Panicked?
    ensures pid in v.spaces && SpaceAt(v.Now(), pid) && Geometry(old(v.Now()), v.Now(), pid) && OthersClean(v.Now(), pid)
    ensures res.Added? ==> InLoad(old(v.Now()), v.Now(), v0, pid, segs, |segs|)
    ensures !res.Added? ==> exists n: nat :: RefusedOf(segs, n, |Available(v.pt.cm.core[..])|)
  {
    ghost var m0 := v.Now();
    var n := 0;
    while n < |segs|
      invariant 0 <= n <= |segs| && v.Valid() && InLoad(m0, v.Now(), v0, pid, segs, n)
    {
      res := LoadNext(v, pid, segs, n, m0, v0);
      if !res.Added? {
        return;
      }
      n := n + 1;
    }
    return Added;
  }

  // ---- the rest of the address space ----

  function Placed(s: Space, r: nat, base: nat, size: nat): Space
    requires r < |s.regions|
  {
    s.(regions := s.regions[r := s.regions[r].(base := base, size := size)])
  }

  /** A region gets its place. */
  method PlaceRegion(v: Vspaces, pid: nat, r: nat, base: nat, size: nat)
    requires v.Valid() && pid in v.spaces && SpaceAt(v.Now(), pid) && OthersClean(v.Now(), pid) && r < NREGIONS
    modifies v`spaces
    ensures v.Valid() && SpaceAt(v.Now(), pid) && OthersClean(v.Now(), pid)
    ensures v.spaces == old(v.spaces)[pid := Placed(old(v.spaces)[pid], r, base, size)]
    ensures View(Cow(v.Now())) == View(Cow(old(v.Now())))
  {
    ghost var m := v.Now();
    v.spaces := v.spaces[pid := Placed(v.spaces[pid], r, base, size)];
    PlaceRegionsOk(m, v.Now(), pid, v.spaces[pid].regions);
    OthersResized(m, v.Now(), pid);
    assert SpaceAt(v.Now(), pid);
  }

  /** vspaceinitstack: one cleared page below `start`. */
  method VspaceInitStack(v: Vspaces, pid: nat, start: nat) returns (res: AddResult)
    requires v.Valid() && pid in v.spaces && SpaceAt(v.Now(), pid) && OthersClean(v.Now(), pid)
    requires v.spaces[pid].regions[VR_USTACK].dir.Down? && forall k: Key :: k in v.vpis ==> !(k.pid == pid && k.region == VR_USTACK)
    requires start % 4096 == 0 && 4096 < start < KERNBASE
    modifies v, v.pt.cm, v.pt.cm.core
    ensures v.Valid() && pid in v.spaces && SpaceAt(v.Now(), pid) && OthersClean(v.Now(), pid) && v.spaces.Keys == old(v.spaces).Keys
    ensures SameAs(Placed(old(v.spaces)[pid], VR_USTACK, start, 4096), v.spaces[pid]) && ElseSame(old(v.spaces), v.spaces, pid)
    ensures res.Added? ==> GrownView(View(Cow(old(v.Now()))), View(Cow(v.Now())), pid, VR_USTACK,
                                     Placed(old(v.spaces)[pid], VR_USTACK, start, 4096).regions[VR_USTACK], true, start / 4096 - 1, start / 4096)
    ensures !res.Panicked? && (!res.Added? ==> Available(v.pt.cm.core[..]) == {})
  {
    PlaceRegion(v, pid, VR_USTACK, start, 4096);
    ghost var m0, reg := v.Now(), v.spaces[pid].regions[VR_USTACK];
    res := v.VregionAddMap(pid, VR_USTACK, start - 4096, 4096, true);
    OthersUntouched(m0, v.Now(), pid);
    assert GeometryAt(m0, v.Now(), pid, pid);
    forall p: nat ensures (p in v.spaces <==> p in m0.spaces) && ElseSameAt(old(v.spaces), v.spaces, pid, p) {
      assert GeometryAt(m0, v.Now(), pid, p);
    }
    if res.Added? {
      AddedView(m0, v.Now(), pid, VR_USTACK, reg, true, start / 4096 - 1, start / 4096);
    }
  }

  /** The same table and regions; only lists may have grown. */
  predicate SameAs(s: Space, s': Space) {
    && s'.pgtbl == s.pgtbl && |s.regions| == |s'.regions| == NREGIONS
    && SameRegion(s.regions[0], s'.regions[0]) && SameRegion(s.regions[1], s'.regions[1]) && SameRegion(s.regions[2], s'.regions[2])
  }

  // ---- a whole program ----

  /** What the processes see of a new program: its segments, one cleared page of stack, and nothing else. */
  predicate ProgramAt(v0: Memory, v: Memory, pid: nat, first: nat, segs: seq<Segment>, k: Key) {
    if k == Key(pid, VR_USTACK, 0) then k !in v0 && k in v && v[k] == UserPage(ZeroPage(), true)
    else LoadedAt(v0, v, pid, first, segs, |segs|, k)
  }

  ghost predicate ProgramSeen(v0: Memory, v: Memory, pid: nat, first: nat, segs: seq<Segment>) {
    forall k: Key :: ProgramAt(v0, v, pid, first, segs, k)
  }

  /** The regions of a program whose stack is not there yet, or is. */
  ghost predicate Laid(s: Space, segs: seq<Segment>) {
    && |s.regions| == NREGIONS && Loadable(segs) && segs != []
    && s.regions[VR_CODE].dir.Up? && s.regions[VR_CODE].base % 4096 == 0 && s.regions[VR_CODE].base <= segs[0].vaddr
    && s.regions[VR_CODE].base / 4096 + NumPages(s.regions[VR_CODE]) == High(segs[|segs| - 1])
    && s.regions[VR_HEAP].dir.Up? && s.regions[VR_HEAP].base % 4096 == 0 && s.regions[VR_HEAP].size == 0
    && s.regions[VR_HEAP].base / 4096 <= STACK_TOP - MAX_STACK
    && s.regions[VR_USTACK].dir.Down?
  }

  predicate SlotAt(m: Mem, pid: nat, first: nat, segs: seq<Segment>, k: Key) {
    k.pid == pid ==>
      (k in m.vpis <==>
         || (k.region == VR_CODE && Covering(segs, |segs|, first + k.idx).Some?)
         || (k.region == VR_USTACK && k.idx == 0))
  }

  lemma StackSeen(v0: Memory, v1: Memory, v: Memory, pid: nat, first: nat, segs: seq<Segment>, reg: Region)
    requires Loaded(v0, v1, pid, first, segs, |segs|) && (forall k: Key :: k in v0 ==> k.pid != pid)
    requires reg.dir.Down? && reg.base == STACK_TOP * 4096
    requires GrownView(v1, v, pid, VR_USTACK, reg, true, STACK_TOP - 1, STACK_TOP)
    ensures ProgramSeen(v0, v, pid, first, segs)
  {
    forall k: Key ensures ProgramAt(v0, v, pid, first, segs, k) {
      assert LoadedAt(v0, v1, pid, first, segs, |segs|, k);
      assert GrownViewAt(v1, v, pid, VR_USTACK, reg, true, STACK_TOP - 1, STACK_TOP, k);
    }
  }

  lemma ProgramSlots(m: Mem, v0: Memory, pid: nat, first: nat, segs: seq<Segment>)
    requires MemOk(m) && ProgramSeen(v0, View(Cow(m)), pid, first, segs) && forall k: Key :: k in v0 ==> k.pid != pid
    ensures forall k: Key :: SlotAt(m, pid, first, segs, k)
  {
    ViewKeys(Cow(m));
    forall k: Key ensures SlotAt(m, pid, first, segs, k) {
      assert ProgramAt(v0, View(Cow(m)), pid, first, segs, k);
    }
  }

  /** A covered page is within the code region. */
  lemma CoveredInBounds(segs: seq<Segment>, p: nat)
    requires Loadable(segs) && segs != [] && Covering(segs, |segs|, p).Some?
    ensures p < High(segs[|segs| - 1])
  {
    assert InOrder(segs, Covering(segs, |segs|, p).value, |segs| - 1);
  }

  lemma ProgramBounds(m: Mem, pid: nat, segs: seq<Segment>, r: nat, idx: nat)
    requires MemOk(m) && pid in m.spaces && SpaceAt(m, pid) && Laid(m.spaces[pid], segs)
    requires m.spaces[pid].regions[VR_USTACK].base == STACK_TOP * 4096 && m.spaces[pid].regions[VR_USTACK].size == 4096
    requires forall k: Key :: SlotAt(m, pid, m.spaces[pid].regions[VR_CODE].base / 4096, segs, k)
    ensures InBoundsAt(m.spaces[pid], r, idx) && ExactAt(m.spaces[pid], r, idx)
  {
    var s, k := m.spaces[pid], Key(pid, r, idx);
    var first := s.regions[VR_CODE].base / 4096;
    assert CoupledAt(m, k) && SlotAt(m, pid, first, segs, k);
    if r == VR_CODE && Covering(segs, |segs|, first + idx).Some? {
      CoveredInBounds(segs, first + idx);
    }
  }

  lemma ProgramCaps(m: Mem, pid: nat, segs: seq<Segment>)
    requires MemOk(m) && pid in m.spaces && SpaceAt(m, pid) && Laid(m.spaces[pid], segs)
    requires forall k: Key :: SlotAt(m, pid, m.spaces[pid].regions[VR_CODE].base / 4096, segs, k)
    ensures NumPages(m.spaces[pid].regions[VR_CODE]) <= Cap(m.spaces[pid].regions[VR_CODE])
    ensures 1 <= Cap(m.spaces[pid].regions[VR_USTACK])
  {
    var s, last := m.spaces[pid], |segs| - 1;
    var first, n := s.regions[VR_CODE].base / 4096, NumPages(s.regions[VR_CODE]);
    var k, stack := Key(pid, VR_CODE, if n == 0 then 0 else n - 1), Key(pid, VR_USTACK, 0);
    assert SlotAt(m, pid, first, segs, k) && SlotAt(m, pid, first, segs, stack) && InOrder(segs, 0, last);
    assert CoupledAt(m, k) && CoupledAt(m, stack);
    UsedWithinCap(s.regions[VR_USTACK], 0);
    if n > 0 {
      assert Covering(segs, |segs|, first + k.idx).Some?;
      UsedWithinCap(s.regions[VR_CODE], n - 1);
    }
  }

  /** The address space of a program is fit for the table. */
  lemma ProgramReady(m: Mem, pid: nat, segs: seq<Segment>)
    requires MemOk(m) && pid in m.spaces && SpaceAt(m, pid) && Laid(m.spaces[pid], segs)
    requires m.spaces[pid].regions[VR_USTACK].base == STACK_TOP * 4096 && m.spaces[pid].regions[VR_USTACK].size == 4096
    requires forall k: Key :: SlotAt(m, pid, m.spaces[pid].regions[VR_CODE].base / 4096, segs, k)
    ensures Ready(m.spaces[pid])
  {
    var s := m.spaces[pid];
    ProgramCaps(m, pid, segs);
    forall r: nat, idx: nat ensures InBoundsAt(s, r, idx) && ExactAt(s, r, idx) {
      ProgramBounds(m, pid, segs, r, idx);
    }
  }

  lemma ProgramApart(m: Mem, pid: nat, segs: seq<Segment>)
    requires MemOk(m) && pid in m.spaces && SpaceAt(m, pid) && Laid(m.spaces[pid], segs)
    requires m.spaces[pid].regions[VR_USTACK].base == STACK_TOP * 4096 && m.spaces[pid].regions[VR_USTACK].size == 4096
    ensures NoOverlap(m.spaces[pid])
  {
    var s := m.spaces[pid];
    forall v: nat, i: nat ensures OnlyOneAt(s, v, i) {
    }
  }

  /** Where the regions lie once the stack has its place. */
  function WithStack(s: Space): seq<Region>
    requires |s.regions| == NREGIONS
  {
    [Site(s.regions[VR_CODE]), Site(s.regions[VR_HEAP]), Site(s.regions[VR_USTACK]).(base := STACK_TOP * 4096, size := 4096)]
  }

  lemma StackedSites(s0: Space, s: Space)
    requires |s0.regions| == NREGIONS && SameAs(Placed(s0, VR_USTACK, STACK_TOP * 4096, 4096), s)
    ensures SitesOf(s) == WithStack(s0)
  {
  }

  /** The stack and the table of a program whose code is loaded. */
  method FinishProgram(v: Vspaces, pid: nat, ghost segs: seq<Segment>, ghost v0: Memory) returns (res: CallResult)
    requires v.Valid() && pid in v.spaces && SpaceAt(v.Now(), pid) && OthersClean(v.Now(), pid) && Laid(v.spaces[pid], segs)
    requires forall k: Key :: k in v0 ==> k.pid != pid
    requires Loaded(v0, View(Cow(v.Now())), pid, v.spaces[pid].regions[VR_CODE].base / 4096, segs, |segs|)
    modifies v, v.pt, v.pt.cm, v.pt.cm.core
    ensures res.Succeeded? ==> v.Valid() && AllClean(v.Now()) && v.spaces.Keys == old(v.spaces).Keys
    ensures res.Succeeded? ==> ElseSame(old(v.spaces), v.spaces, pid) && SitesOf(v.spaces[pid]) == WithStack(old(v.spaces)[pid])
    ensures res.Succeeded? ==> ProgramSeen(v0, View(Cow(v.Now())), pid, old(v.spaces)[pid].regions[VR_CODE].base / 4096, segs)
    ensures !res.Succeeded? ==> Available(v.pt.cm.core[..]) == {}
  {
    ghost var m := v.Now();
    NoStackYet(m, v0, pid, segs);
    var added := VspaceInitStack(v, pid, STACK_TOP * 4096);
    if !added.Added? {
      return if added.Failed? then OutOfFrames else Halted;
    }
    ghost var first := m.spaces[pid].regions[VR_CODE].base / 4096;
    StackSeen(v0, View(Cow(m)), View(Cow(v.Now())), pid, first, segs, Placed(m.spaces[pid], VR_USTACK, STACK_TOP * 4096, 4096).regions[VR_USTACK]);
    ProgramSlots(v.Now(), v0, pid, first, segs);
    ProgramReady(v.Now(), pid, segs);
    ProgramApart(v.Now(), pid, segs);
    StackedSites(m.spaces[pid], v.spaces[pid]);
    var ok := v.UpdateLast(pid);
    return if ok then Succeeded else Halted;
  }

  lemma NoStackYet(m: Mem, v0: Memory, pid: nat, segs: seq<Segment>)
    requires MemOk(m) && pid in m.spaces && |m.spaces[pid].regions| == NREGIONS && (forall k: Key :: k in v0 ==> k.pid != pid)
    requires Loaded(v0, View(Cow(m)), pid, m.spaces[pid].regions[VR_CODE].base / 4096, segs, |segs|)
    ensures forall k: Key :: k in m.vpis ==> !(k.pid == pid && k.region == VR_USTACK)
  {
    ViewKeys(Cow(m));
    forall k: Key | k in m.vpis ensures !(k.pid == pid && k.region == VR_USTACK) {
      assert LoadedAt(v0, View(Cow(m)), pid, m.spaces[pid].regions[VR_CODE].base / 4096, segs, |segs|, k);
    }
  }

  lemma StartLoad(m: Mem, pid: nat, segs: seq<Segment>)
    requires MemOk(m) && pid in m.spaces && SpaceAt(m, pid) && OthersClean(m, pid) && Loadable(segs)
    requires m.spaces[pid].regions[VR_CODE].dir.Up? && m.spaces[pid].regions[VR_CODE].base % 4096 == 0
    requires (segs != [] ==> m.spaces[pid].regions[VR_CODE].base <= segs[0].vaddr) && forall k: Key :: k in m.vpis ==> k.pid != pid
    ensures InLoad(m, m, View(Cow(m)), pid, segs, 0)
  {
    var v0 := View(Cow(m));
    forall p: nat ensures GeometryAt(m, m, pid, p) {
    }
    forall k: Key ensures LoadedAt(v0, v0, pid, m.spaces[pid].regions[VR_CODE].base / 4096, segs, 0, k) {
    }
  }

  /** vspaceinit for a program, when everybody else's table is up to date. */
  method NewSpace(v: Vspaces, pid: nat, kmap: seq<KMap>) returns (res: CallResult)
    requires v.Valid() && AllClean(v.Now()) && pid !in v.spaces && forall i :: 0 <= i < |kmap| ==> KernelRange(kmap[i])
    modifies v, v.pt, v.pt.cm, v.pt.cm.core
    ensures res.Succeeded? ==> v.Valid() && v.spaces.Keys == old(v.spaces).Keys + {pid} && SpaceAt(v.Now(), pid) && OthersClean(v.Now(), pid)
    ensures res.Succeeded? ==> ElseSame(old(v.spaces), v.spaces, pid)
    ensures res.Succeeded? ==> v.spaces[pid].regions == [Region(Up, 0, 0, []), Region(Up, 0, 0, []), Region(Down, 0, 0, [])]
    ensures res.Succeeded? ==> View(Cow(v.Now())) == View(Cow(old(v.Now()))) && v.vpis == old(v.vpis) && forall k: Key :: k in v.vpis ==> k.pid != pid
    ensures !res.Succeeded? ==> Available(v.pt.cm.core[..]) == {} || (res.Halted? && KMapOverlaps(kmap))
    ensures res.OutOfFrames? ==> v.Valid() && v.Now() == old(v.Now())
  {
    ghost var m := v.Now();
    res := v.VspaceInit(pid, kmap);
    if res.Succeeded? {
      assert SpaceAt(v.Now(), pid);
      forall p: nat ensures p != pid ==> CleanAt(v.Now(), p) && ElseSameAt(m.spaces, v.spaces, pid, p) {
        assert p != pid ==> CleanAt(m, p) && StaysCleanAt(m, v.Now(), p);
      }
    }
  }

  /** The first process's program: initcode's bytes at 64 KB, and five cleared pages behind them. */
  function InitSegments(init: seq<byte>): seq<Segment> {
    [Segment(0x10000, |init|, true, init), Segment(0x10000 + (|init| + 4095) / 4096 * 4096, 5 * 4096, true, [])]
  }

  /** And where its regions lie: the heap has no place yet. */
  function InitSites(init: seq<byte>): seq<Region> {
    [Region(Up, 0x10000, (|init| + 4095) / 4096 * 4096 + 5 * 4096, []), Region(Up, 0, 0, []), Region(Down, STACK_TOP * 4096, 4096, [])]
  }

  lemma InitLoadable(init: seq<byte>)
    requires (|init| + 4095) / 4096 + 21 < STACK_TOP - MAX_STACK
    ensures Loadable(InitSegments(init)) && High(InitSegments(init)[1]) == (|init| + 4095) / 4096 + 21
  {
    var segs := InitSegments(init);
    assert forall i, j :: 0 <= i < j < |segs| ==> InOrder(segs, i, j);
  }

  /** Why a program is not loaded: no frame is left, two ranges of the kernel map share a page, it has no
      segment, or one is refused. */
  ghost predicate CannotLoad(segs: seq<Segment>, kmap: seq<KMap>, free: nat) {
    free == 0 || KMapOverlaps(kmap) || segs == [] || exists n: nat :: RefusedOf(segs, n, free)
  }

  /** userinit's memory: vspaceinit and vspaceinitcode. From an empty machine it leads to one in which
      every table is up to date. */
  method InitCode(v: Vspaces, pid: nat, kmap: seq<KMap>, init: seq<byte>) returns (res: CallResult)
    requires v.Valid() && AllClean(v.Now()) && pid !in v.spaces && forall i :: 0 <= i < |kmap| ==> KernelRange(kmap[i])
    requires (|init| + 4095) / 4096 + 21 < STACK_TOP - MAX_STACK
    modifies v, v.pt, v.pt.cm, v.pt.cm.core
    ensures res.Succeeded? ==> v.Valid() && AllClean(v.Now()) && v.spaces.Keys == old(v.spaces).Keys + {pid}
    ensures res.Succeeded? ==> ProgramSeen(View(Cow(old(v.Now()))), View(Cow(v.Now())), pid, 16, InitSegments(init))
    ensures res.Succeeded? ==> Sites(v.spaces) == Sites(old(v.spaces))[pid := InitSites(init)]
    ensures !res.Succeeded? ==> CannotLoad(InitSegments(init), kmap, |Available(v.pt.cm.core[..])|)
  {
    res := NewSpace(v, pid, kmap);
    if !res.Succeeded? {
      return;
    }
    ghost var a, v0 := v.spaces, View(Cow(v.Now()));
    var added := InitRegion(v, pid, init, v0);
    if !added.Added? {
      return Halted;
    }
    ghost var b := v.spaces;
    res := FinishProgram(v, pid, InitSegments(init), v0);
    if res.Succeeded? {
      ElseSameChain(old(v.spaces), a, b, v.spaces, pid);
      ElseSites(old(v.spaces), v.spaces, pid, InitSites(init));
    }
  }

  /** vspaceinitcode's code region, in an address space that is still empty. */
  method InitRegion(v: Vspaces, pid: nat, init: seq<byte>, ghost v0: Memory) returns (res: AddResult)
    requires v.Valid() && pid in v.spaces && SpaceAt(v.Now(), pid) && OthersClean(v.Now(), pid)
    requires v.spaces[pid].regions == [Region(Up, 0, 0, []), Region(Up, 0, 0, []), Region(Down, 0, 0, [])]
    requires View(Cow(v.Now())) == v0 && forall k: Key :: k in v.vpis ==> k.pid != pid
    requires (|init| + 4095) / 4096 + 21 < STACK_TOP - MAX_STACK
    modifies v, v.pt.cm, v.pt.cm.core
    ensures v.Valid() && pid in v.spaces && SpaceAt(v.Now(), pid) && OthersClean(v.Now(), pid)
    ensures res.Added? ==> ElseSame(old(v.spaces), v.spaces, pid) && v.spaces.Keys == old(v.spaces).Keys
    ensures res.Added? ==> Laid(v.spaces[pid], InitSegments(init)) && WithStack(v.spaces[pid]) == InitSites(init)
    ensures res.Added? ==> v.spaces[pid].regions[VR_CODE].base == 0x10000 && forall k: Key :: k in v0 ==> k.pid != pid
    ensures res.Added? ==> Loaded(v0, View(Cow(v.Now())), pid, 16, InitSegments(init), 2)
    ensures !res.Added? ==> exists n: nat :: RefusedOf(InitSegments(init), n, |Available(v.pt.cm.core[..])|)
  {
    InitLoadable(init);
    var segs := InitSegments(init);
    PlaceRegion(v, pid, VR_CODE, 0x10000, (|init| + 4095) / 4096 * 4096 + 5 * 4096);
    ghost var m := v.Now();
    StartLoad(m, pid, segs);
    res := LoadSegments(v, pid, segs, v0);
    if res.Added? {
      assert GeometryAt(m, v.Now(), pid, pid);
      SameKeys(m, v.Now(), pid);
      GeometrySites(m, v.Now(), pid);
      forall p: nat ensures ElseSameAt(old(v.spaces), v.spaces, pid, p) {
        assert ElseSameAt(m.spaces, v.spaces, pid, p);
      }
    }
  }

  lemma ElseSameChain(a: map<nat, Space>, b: map<nat, Space>, c: map<nat, Space>, d: map<nat, Space>, pid: nat)
    requires ElseSame(a, b, pid) && ElseSame(b, c, pid) && ElseSame(c, d, pid)
    ensures ElseSame(a, d, pid)
  {
    forall p: nat ensures ElseSameAt(a, d, pid, p) {
      assert ElseSameAt(a, b, pid, p) && ElseSameAt(b, c, pid, p) && ElseSameAt(c, d, pid, p);
    }
  }

  lemma SameKeys(m: Mem, m': Mem, pid: nat)
    requires Geometry(m, m', pid)
    ensures m'.spaces.Keys == m.spaces.Keys
  {
    forall p: nat ensures p in m'.spaces <==> p in m.spaces {
      assert GeometryAt(m, m', pid, p);
    }
  }

  /** Where a program's regions lie: the code from its first page to its end, the heap one page behind. */
  function ExecSites(segs: seq<Segment>): seq<Region>
    requires segs != [] && InOrder(segs, 0, |segs| - 1)
  {
    var base, end := segs[0].vaddr / 4096 * 4096, segs[|segs| - 1].vaddr + segs[|segs| - 1].memsz;
    [Region(Up, base, end - base, []), Region(Up, (end + 4095) / 4096 * 4096 + 4096, 0, []), Region(Down, STACK_TOP * 4096, 4096, [])]
  }

  ghost predicate CodeAndHeap(s: Space, segs: seq<Segment>) {
    && segs != [] && InOrder(segs, 0, |segs| - 1) && |s.regions| == NREGIONS
    && Site(s.regions[VR_CODE]) == ExecSites(segs)[VR_CODE] && Site(s.regions[VR_HEAP]) == ExecSites(segs)[VR_HEAP]
  }

  /** vspaceloadcode, for the segments of a program file. The heap begins one page behind the code. */
  method VspaceLoadCode(v: Vspaces, pid: nat, segs: seq<Segment>, ghost v0: Memory) returns (res: AddResult)
    requires v.Valid() && pid in v.spaces && SpaceAt(v.Now(), pid) && OthersClean(v.Now(), pid) && Loadable(segs) && segs != []
    requires v.spaces[pid].regions[VR_CODE].dir.Up? && v.spaces[pid].regions[VR_HEAP].dir.Up? && v.spaces[pid].regions[VR_USTACK].dir.Down?
    requires View(Cow(v.Now())) == v0 && forall k: Key :: k in v.vpis ==> k.pid != pid
    modifies v, v.pt.cm, v.pt.cm.core
    ensures v.Valid() && pid in v.spaces && SpaceAt(v.Now(), pid) && OthersClean(v.Now(), pid) && v.spaces.Keys == old(v.spaces).Keys
    ensures res.Added? ==> Laid(v.spaces[pid], segs) && v.spaces[pid].regions[VR_CODE].base / 4096 == segs[0].vaddr / 4096
    ensures res.Added? ==> Loaded(v0, View(Cow(v.Now())), pid, segs[0].vaddr / 4096, segs, |segs|)
    ensures res.Added? ==> ElseSame(old(v.spaces), v.spaces, pid) && CodeAndHeap(v.spaces[pid], segs)
    ensures res.Added? ==> v.spaces[pid].regions[VR_USTACK].dir == old(v.spaces)[pid].regions[VR_USTACK].dir
    ensures !res.Panicked? && (!res.Added? ==> exists n: nat :: RefusedOf(segs, n, |Available(v.pt.cm.core[..])|))
  {
    var base := segs[0].vaddr / 4096 * 4096;
    PlaceRegion(v, pid, VR_CODE, base, 0);
    ghost var m := v.Now();
    StartLoad(m, pid, segs);
    res := LoadSegments(v, pid, segs, v0);
    SameKeys(m, v.Now(), pid);
    if !res.Added? {
      return;
    }
    assert GeometryAt(m, v.Now(), pid, pid);
    ghost var m1 := v.Now();
    PlaceProgram(v, pid, segs);
    GeometrySites(m, m1, pid);
    forall p: nat ensures ElseSameAt(old(v.spaces), v.spaces, pid, p) {
      assert ElseSameAt(m.spaces, m1.spaces, pid, p) && ElseSameAt(m1.spaces, v.spaces, pid, p);
    }
  }

  /** The code region ends with the last segment, and the heap begins a page later. */
  method PlaceProgram(v: Vspaces, pid: nat, segs: seq<Segment>)
    requires v.Valid() && pid in v.spaces && SpaceAt(v.Now(), pid) && OthersClean(v.Now(), pid) && Loadable(segs) && segs != []
    requires v.spaces[pid].regions[VR_CODE].dir.Up? && v.spaces[pid].regions[VR_HEAP].dir.Up? && v.spaces[pid].regions[VR_USTACK].dir.Down?
    requires v.spaces[pid].regions[VR_CODE].base == segs[0].vaddr / 4096 * 4096
    modifies v`spaces
    ensures v.Valid() && v.spaces.Keys == old(v.spaces).Keys && SpaceAt(v.Now(), pid) && OthersClean(v.Now(), pid)
    ensures Laid(v.spaces[pid], segs) && v.spaces[pid].regions[VR_CODE].base == old(v.spaces)[pid].regions[VR_CODE].base
    ensures ElseSame(old(v.spaces), v.spaces, pid) && CodeAndHeap(v.spaces[pid], segs)
    ensures v.spaces[pid].regions[VR_USTACK] == old(v.spaces)[pid].regions[VR_USTACK]
    ensures View(Cow(v.Now())) == View(Cow(old(v.Now())))
  {
    var base, end := v.spaces[pid].regions[VR_CODE].base, segs[|segs| - 1].vaddr + segs[|segs| - 1].memsz;
    assert InOrder(segs, 0, |segs| - 1);
    PlaceRegion(v, pid, VR_CODE, base, end - base);
    PlaceRegion(v, pid, VR_HEAP, (end + 4095) / 4096 * 4096 + 4096, 0);
  }

  /** exec's new address space: vspaceinit, vspaceloadcode, vspaceinitstack at 2 GB, and vspaceupdate. */
  method LoadProgram(v: Vspaces, pid: nat, kmap: seq<KMap>, segs: seq<Segment>) returns (res: CallResult)
    requires v.Valid() && AllClean(v.Now()) && pid !in v.spaces && forall i :: 0 <= i < |kmap| ==> KernelRange(kmap[i])
    requires Loadable(segs)
    modifies v, v.pt, v.pt.cm, v.pt.cm.core
    ensures res.Succeeded? ==> v.Valid() && AllClean(v.Now()) && v.spaces.Keys == old(v.spaces).Keys + {pid} && segs != []
    ensures res.Succeeded? ==> ProgramSeen(View(Cow(old(v.Now()))), View(Cow(v.Now())), pid, segs[0].vaddr / 4096, segs)
    ensures res.Succeeded? ==> InOrder(segs, 0, |segs| - 1) && Sites(v.spaces) == Sites(old(v.spaces))[pid := ExecSites(segs)]
    ensures !res.Succeeded? ==> CannotLoad(segs, kmap, |Available(v.pt.cm.core[..])|)
  {
    res := NewSpace(v, pid, kmap);
    if !res.Succeeded? {
      return;
    }
    if segs == [] {
      return Halted;
    }
    ghost var a, v0 := v.spaces, View(Cow(v.Now()));
    var added := VspaceLoadCode(v, pid, segs, v0);
    if !added.Added? {
      return if added.Failed? then OutOfFrames else Halted;
    }
    ghost var b := v.spaces;
    res := FinishProgram(v, pid, segs, v0);
    if res.Succeeded? {
      ElseSameChain(old(v.spaces), a, b, v.spaces, pid);
      ElseSites(old(v.spaces), v.spaces, pid, ExecSites(segs));
    }
  }
}
