/** Teardown of an address space: what vspacefree releases, counted. */
module Teardown {
  import opened Prelude
  import opened Kalloc
  import opened PageTable
  import opened Dealloc
  import opened X86Vm
  import opened CopyOnWrite
  import opened Regions
  import opened VspaceUpdate
  import opened VspaceState
  import opened Layout

  /** The pages below hi that the hardware maps to frame f. */
  ghost function PagesNaming(tables: Tables, root: Frame, hi: nat, f: Frame): set<nat> {
    set v: nat | v < hi && Entry(tables, root, v).present && Entry(tables, root, v).ppn == f
  }

  /** A process's slots that name frame f. */
  ghost function KeysNaming(vpis: map<Key, Vpi>, pid: nat, f: Frame): set<Key> {
    set k | k in vpis && k.pid == pid && vpis[k].ppn == f
  }

  /** deallocuvm releases a frame once for every page mapped to it. */
  lemma {:induction false} PpnsCount(tables: Tables, root: Frame, hi: nat, f: Frame)
    ensures multiset(Ppns(tables, root, 0, hi))[f] == |PagesNaming(tables, root, hi, f)|
  {
    if hi == 0 {
      assert PagesNaming(tables, root, hi, f) == {};
    } else {
      PpnsCount(tables, root, hi - 1, f);
      var e := Entry(tables, root, hi - 1);
      var before := PagesNaming(tables, root, hi - 1, f);
      assert PagesNaming(tables, root, hi, f) == if e.present && e.ppn == f then before + {hi - 1} else before;
    }
  }

  ghost function SlotOfPage(pid: nat, s: Space, v: nat): Key {
    if FindUsed(s, v, NREGIONS).Some? && IdxOf(s.regions[FindUsed(s, v, NREGIONS).value], v) >= 0
    then Key(pid, FindUsed(s, v, NREGIONS).value, IdxOf(s.regions[FindUsed(s, v, NREGIONS).value], v)) else Key(pid, 0, 0)
  }

  /** A mapped page belongs to the slot that names its frame. */
  lemma PageHasSlot(m: Mem, pid: nat, v: nat)
    requires MemOk(m) && pid in m.spaces && CleanAt(m, pid) && v < PML4_PAGES
    requires Entry(m.tables, m.spaces[pid].pgtbl, v).present
    ensures var k := SlotOfPage(pid, m.spaces[pid], v);
            && FindUsed(m.spaces[pid], v, NREGIONS).Some? && k.region == FindUsed(m.spaces[pid], v, NREGIONS).value
            && k in m.vpis && k.pid == pid && m.vpis[k].ppn == Entry(m.tables, m.spaces[pid].pgtbl, v).ppn
            && k.region < NREGIONS && InRegion(m.spaces[pid].regions[k.region], v) && IdxOf(m.spaces[pid].regions[k.region], v) == k.idx
  {
    var s := m.spaces[pid];
    assert ReflectsAt(m.tables, s, v) && SpaceAt(m, pid);
    assert CoupledAt(m, SlotOfPage(pid, s, v));
  }

  /** A slot in use belongs to the page it maps, below 4 GB. */
  lemma SlotHasPage(m: Mem, k: Key) returns (v: nat)
    requires MemOk(m) && k in m.vpis && k.pid in m.spaces && CleanAt(m, k.pid)
    ensures v < USER_PAGES && Entry(m.tables, m.spaces[k.pid].pgtbl, v).present
    ensures Entry(m.tables, m.spaces[k.pid].pgtbl, v).ppn == m.vpis[k].ppn && SlotOfPage(k.pid, m.spaces[k.pid], v) == k
  {
    var s := m.spaces[k.pid];
    assert CoupledAt(m, k) && SpaceAt(m, k.pid) && InBoundsAt(s, k.region, k.idx) && KeyOk(Cow(m), k);
    IndexPage(s.regions[k.region], k.idx);
    v := VpnOf(s.regions[k.region], k.idx);
    WantedOfUsed(s, k.region, v);
    UsedBelowTop(s, v);
    assert ReflectsAt(m.tables, s, v);
  }

  /** The hardware maps a frame as often as the process's slots name it. */
  lemma PagesAreSlots(m: Mem, pid: nat, f: Frame)
    requires MemOk(m) && pid in m.spaces && CleanAt(m, pid)
    ensures |PagesNaming(m.tables, m.spaces[pid].pgtbl, USER_PAGES, f)| == |KeysNaming(m.vpis, pid, f)|
  {
    var s := m.spaces[pid];
    var pages, keys := PagesNaming(m.tables, s.pgtbl, USER_PAGES, f), KeysNaming(m.vpis, pid, f);
    var there := (v: nat) => SlotOfPage(pid, s, v);
    forall v | v in pages ensures there(v) in keys {
      PageHasSlot(m, pid, v);
    }
    forall v, v' | v in pages && v' in pages && there(v) == there(v') ensures v == v' {
      PageHasSlot(m, pid, v);
      PageHasSlot(m, pid, v');
    }
    forall k | k in keys ensures exists v :: v in pages && there(v) == k {
      var v := SlotHasPage(m, k);
      assert v in pages && there(v) == k;
    }
    BijectionPreservesSize(pages, keys, there);
  }

  lemma CountsOfProcess(m: Mem, pid: nat, f: Frame)
    requires MemOk(m) && pid in m.spaces && CleanAt(m, pid)
    ensures multiset(Ppns(m.tables, m.spaces[pid].pgtbl, 0, USER_PAGES))[f] == |KeysNaming(m.vpis, pid, f)|
    ensures KeysNaming(m.vpis, pid, f) <= Refs(m.vpis, f) && |KeysNaming(m.vpis, pid, f)| <= |Refs(m.vpis, f)|
  {
    PpnsCount(m.tables, m.spaces[pid].pgtbl, USER_PAGES, f);
    PagesAreSlots(m, pid, f);
    SubsetSize(KeysNaming(m.vpis, pid, f), Refs(m.vpis, f));
  }

  // ---- what is left ----

  /** The frames of a process's vpi_pages. */
  ghost function ListFrames(owner: map<Frame, Slot>, pid: nat): set<Frame> {
    set f | f in owner && owner[f].pid == pid
  }

  /** After the lists are freed every frame the hardware maps may be released that often. */
  lemma ReleasableAfterLists(m: Mem, core: seq<CoreEntry>, pid: nat)
    requires MemOk(m) && pid in m.spaces && CleanAt(m, pid) && 0 < m.end && |core| == |m.core|
    requires TornTo(m.core, ListFrames(m.owner, pid), core)
    ensures Releasable(core, m.end, m.tables, Ppns(m.tables, m.spaces[pid].pgtbl, 0, USER_PAGES))
  {
    var fs := Ppns(m.tables, m.spaces[pid].pgtbl, 0, USER_PAGES);
    forall f: Frame ensures ReleasableAt(core, m.end, m.tables, fs, f) {
      CountsOfProcess(m, pid, f);
      if f in fs {
        assert f in multiset(fs);
        NamedIsData(m, pid, f);
        assert RoleAt(m, f) && FrameOk(Cow(m), f) && TornAt(m.core, ListFrames(m.owner, pid), core, f);
      }
    }
  }

  lemma NamedIsData(m: Mem, pid: nat, f: Frame)
    requires MemOk(m) && |KeysNaming(m.vpis, pid, f)| > 0
    ensures f in m.data
  {
    assert KeysNaming(m.vpis, pid, f) != {};
    var k :| k in KeysNaming(m.vpis, pid, f);
    assert KeyOk(Cow(m), k);
  }

  /** Frame f's entry in the core map once process pid is gone: its lists and tables are available, and
      a data frame has lost exactly the references the process held. */
  predicate GoneCoreAt(m: Mem, core: seq<CoreEntry>, pid: nat, f: Frame, lists: set<Frame>, roots: set<Frame>, n: nat) {
    f < |m.core| == |core| ==>
      if f in lists || f in roots then core[f] == CoreEntry(true, false, 0, 0)
      else if f in m.data then n <= m.core[f].refcount && core[f] == Dropped(m.core[f], n)
      else core[f] == m.core[f]
  }

  ghost predicate GoneAt(m: Mem, m': Mem, pid: nat, f: Frame)
    requires pid in m.spaces
  {
    && GoneCoreAt(m, m'.core, pid, f, ListFrames(m.owner, pid), RootSet(m.pos, m.spaces[pid].pgtbl), |KeysNaming(m.vpis, pid, f)|)
    && (f in m'.data <==> f in m.data && f < |m'.core| && !m'.core[f].available)
    && (f in m'.data && f in m.data ==> m'.data[f] == m.data[f])
  }

  predicate GoneKeyAt(m: Mem, m': Mem, pid: nat, k: Key) {
    (k in m'.vpis <==> k in m.vpis && k.pid != pid) && (k in m'.vpis && k in m.vpis ==> m'.vpis[k] == m.vpis[k])
  }

  /** Everything of process pid is gone, and nothing else. */
  ghost predicate Gone(m: Mem, m': Mem, pid: nat) {
    && pid in m.spaces && |m'.core| == |m.core| && m'.end == m.end
    && m'.spaces == m.spaces - {pid} && m'.owner == m.owner - ListFrames(m.owner, pid)
    && m'.pos == m.pos - RootSet(m.pos, m.spaces[pid].pgtbl)
    && (forall k: Key :: GoneKeyAt(m, m', pid, k))
    && (forall f: Frame :: GoneAt(m, m', pid, f))
  }

  /** The references left to a frame are those of the other processes. */
  lemma RefsLeft(m: Mem, m': Mem, pid: nat, f: Frame)
    requires forall k: Key :: GoneKeyAt(m, m', pid, k)
    ensures Refs(m'.vpis, f) == Refs(m.vpis, f) - KeysNaming(m.vpis, pid, f)
    ensures |Refs(m'.vpis, f)| == |Refs(m.vpis, f)| - |KeysNaming(m.vpis, pid, f)|
  {
    forall k: Key ensures k in Refs(m'.vpis, f) <==> k in Refs(m.vpis, f) && k !in KeysNaming(m.vpis, pid, f) {
      assert GoneKeyAt(m, m', pid, k);
    }
    assert Refs(m'.vpis, f) == Refs(m.vpis, f) - KeysNaming(m.vpis, pid, f);
    assert KeysNaming(m.vpis, pid, f) <= Refs(m.vpis, f);
  }

  /** Counts are exact after teardown as before. */
  lemma GoneInv(m: Mem, m': Mem, pid: nat)
    requires MemOk(m) && Tree(m.tables, m.pos) && Gone(m, m', pid)
    ensures Inv(Cow(m'))
  {
    forall f: Frame ensures FrameOk(Cow(m'), f) {
      assert FrameOk(Cow(m), f) && GoneAt(m, m', pid, f) && RoleAt(m, f) && NodeOk(m.tables, m.pos, f);
      RefsLeft(m, m', pid, f);
    }
    forall k: Key ensures KeyOk(Cow(m'), k) {
      assert KeyOk(Cow(m), k) && GoneKeyAt(m, m', pid, k);
      if k in m'.vpis {
        GoneKey(m, m', pid, k);
      }
    }
  }

  lemma GoneKey(m: Mem, m': Mem, pid: nat, k: Key)
    requires MemOk(m) && Tree(m.tables, m.pos) && Gone(m, m', pid) && k in m'.vpis && k in m.vpis && m'.vpis[k] == m.vpis[k]
    ensures m'.vpis[k].ppn in m'.data
    ensures m'.vpis[k].writable ==> Refs(m'.vpis, m'.vpis[k].ppn) == {k}
  {
    var f := m.vpis[k].ppn;
    assert KeyOk(Cow(m), k) && FrameOk(Cow(m), f) && GoneAt(m, m', pid, f) && RoleAt(m, f) && NodeOk(m.tables, m.pos, f);
    assert GoneKeyAt(m, m', pid, k);
    RefsLeft(m, m', pid, f);
    assert k in Refs(m'.vpis, f);
  }

  lemma GoneShape(m: Mem, m': Mem, pid: nat)
    requires MemOk(m) && Tree(m.tables, m.pos) && Tree(m'.tables, m'.pos) && Gone(m, m', pid)
    ensures Shape(m')
  {
    forall k: Key ensures CoupledAt(m', k) {
      assert CoupledAt(m, k) && GoneKeyAt(m, m', pid, k);
    }
    forall p: nat ensures SpaceAt(m', p) {
      assert SpaceAt(m, p);
      if p in m'.spaces {
        assert ApartAt(m, p, pid) && NodeOk(m.tables, m.pos, m.spaces[p].pgtbl);
      }
    }
    forall p: nat, p': nat ensures ApartAt(m', p, p') {
      assert ApartAt(m, p, p');
    }
    forall t: Slot ensures ListAt(m', t) {
      assert ListAt(m, t);
    }
    forall f: Frame ensures RoleAt(m', f) {
      assert RoleAt(m, f) && GoneAt(m, m', pid, f) && NodeOk(m.tables, m.pos, f) && NodeOk(m'.tables, m'.pos, f);
    }
  }

  /** The other processes see what they saw. */
  predicate ReapedAt(v0: Memory, v: Memory, pid: nat, k: Key) {
    (k in v <==> k in v0 && k.pid != pid) && (k in v ==> v[k] == v0[k])
  }

  ghost predicate Reaped(v0: Memory, v: Memory, pid: nat) {
    forall k: Key :: ReapedAt(v0, v, pid, k)
  }

  lemma GoneView(m: Mem, m': Mem, pid: nat)
    requires MemOk(m) && MemOk(m') && Gone(m, m', pid)
    ensures Reaped(View(Cow(m)), View(Cow(m')), pid)
  {
    var v0, v := View(Cow(m)), View(Cow(m'));
    forall k: Key ensures ReapedAt(v0, v, pid, k) {
      assert KeyOk(Cow(m), k) && KeyOk(Cow(m'), k) && GoneKeyAt(m, m', pid, k);
      if k in m'.vpis {
        assert GoneAt(m, m', pid, m'.vpis[k].ppn);
      }
    }
  }

  lemma GoneClean(m: Mem, m': Mem, pid: nat)
    requires MemOk(m) && AllClean(m) && Gone(m, m', pid)
    requires forall r: Frame, v: nat :: OthersKeptAt(m.tables, m.pos, m'.tables, m.spaces[pid].pgtbl, r, v)
    ensures AllClean(m')
  {
    forall p: nat ensures CleanAt(m', p) {
      if p in m'.spaces {
        assert CleanAt(m, p) && ApartAt(m, p, pid) && SpaceAt(m, p);
        var s := m.spaces[p];
        forall v: nat ensures ReflectsAt(m'.tables, s, v) {
          assert ReflectsAt(m.tables, s, v) && OthersKeptAt(m.tables, m.pos, m'.tables, m.spaces[pid].pgtbl, s.pgtbl, v);
        }
        forall f: Frame ensures JustifiedAt(m'.pos, s, f) {
          assert JustifiedAt(m.pos, s, f);
        }
      }
    }
  }

  /** The frames made available: the process's lists and tables, and the data frames nobody else had. */
  ghost function Reclaimed(m: Mem, pid: nat): set<Frame>
    requires pid in m.spaces
  {
    ListFrames(m.owner, pid) + RootSet(m.pos, m.spaces[pid].pgtbl)
    + (set f | f in m.data && Refs(m.vpis, f) == KeysNaming(m.vpis, pid, f))
  }

  lemma GoneAvailable(m: Mem, m': Mem, end: nat, pid: nat)
    requires MemOk(m) && Tree(m.tables, m.pos) && AllHeld(m.tables, m.core, end) && Gone(m, m', pid)
    ensures Available(m'.core) == Available(m.core) + Reclaimed(m, pid)
  {
    forall f: Frame ensures f in Available(m'.core) <==> f in Available(m.core) || f in Reclaimed(m, pid) {
      assert GoneAt(m, m', pid, f) && RoleAt(m, f) && FrameOk(Cow(m), f) && NodeOk(m.tables, m.pos, f) && Held(m.tables, m.core, end, f);
      if f in m.data {
        RefsLeft(m, m', pid, f);
        assert KeysNaming(m.vpis, pid, f) <= Refs(m.vpis, f);
      }
    }
  }

  /** The frames freed once the lists before region r, and region r's from its j'th page on, are. */
  ghost function DoneFrames(owner: map<Frame, Slot>, pid: nat, r: nat, j: nat): set<Frame> {
    set f | f in owner && owner[f].pid == pid && (owner[f].region < r || (owner[f].region == r && owner[f].j >= j))
  }

  /** The frames in `gone` became available, and no other entry changed. */
  ghost predicate TornTo(c0: seq<CoreEntry>, gone: set<Frame>, core: seq<CoreEntry>) {
    forall f: Frame :: TornAt(c0, gone, core, f)
  }

  /** Freeing the j'th page of region r's list. */
  lemma FreeOneOfList(m: Mem, core: seq<CoreEntry>, pid: nat, r: nat, j: nat)
    requires MemOk(m) && pid in m.spaces && SpaceAt(m, pid) && r < NREGIONS && j < |m.spaces[pid].regions[r].pages|
    requires |core| == |m.core| && TornTo(m.core, DoneFrames(m.owner, pid, r, j + 1), core)
    ensures var f := m.spaces[pid].regions[r].pages[j].frame;
            && m.end <= f < |core| && !core[f].available && f !in m.tables
            && TornTo(m.core, DoneFrames(m.owner, pid, r, j), core[f := Released(core[f])])
  {
    var f := m.spaces[pid].regions[r].pages[j].frame;
    var before, after := DoneFrames(m.owner, pid, r, j + 1), DoneFrames(m.owner, pid, r, j);
    assert ListAt(m, Slot(pid, r, j)) && RoleAt(m, f) && TornAt(m.core, before, core, f);
    var core' := core[f := Released(core[f])];
    forall g: Frame ensures TornAt(m.core, after, core', g) {
      assert TornAt(m.core, before, core, g) && RoleAt(m, g);
    }
  }

  /** A region's list is done: the next begins. */
  lemma NextList(m: Mem, pid: nat, r: nat, n: nat)
    requires MemOk(m) && pid in m.spaces && SpaceAt(m, pid)
    requires r + 1 < NREGIONS ==> n >= |m.spaces[pid].regions[r + 1].pages|
    ensures DoneFrames(m.owner, pid, r, 0) == DoneFrames(m.owner, pid, r + 1, n)
    ensures r + 1 == NREGIONS ==> DoneFrames(m.owner, pid, r, 0) == ListFrames(m.owner, pid)
  {
    forall f: Frame ensures f in DoneFrames(m.owner, pid, r, 0) <==> f in DoneFrames(m.owner, pid, r + 1, n) {
      assert RoleAt(m, f);
    }
    if r + 1 == NREGIONS {
      forall f: Frame ensures f in DoneFrames(m.owner, pid, r, 0) <==> f in ListFrames(m.owner, pid) {
        assert RoleAt(m, f);
      }
    }
  }

  lemma NoList(m: Mem, pid: nat, n: nat)
    requires MemOk(m) && pid in m.spaces && SpaceAt(m, pid) && n >= |m.spaces[pid].regions[0].pages|
    ensures TornTo(m.core, DoneFrames(m.owner, pid, 0, n), m.core)
  {
    forall f: Frame ensures TornAt(m.core, DoneFrames(m.owner, pid, 0, n), m.core, f) {
      assert RoleAt(m, f);
    }
  }

  /** Lists, then pages and tables: every frame's entry is what GoneCoreAt says. */
  lemma FreedCore(m: Mem, core1: seq<CoreEntry>, core2: seq<CoreEntry>, pid: nat, f: Frame)
    requires MemOk(m) && pid in m.spaces && CleanAt(m, pid) && |core1| == |core2| == |m.core|
    requires Tree(m.tables, m.pos)
    requires TornTo(m.core, ListFrames(m.owner, pid), core1)
    requires forall f: Frame :: TornAt(FreeAll(core1, Ppns(m.tables, m.spaces[pid].pgtbl, 0, USER_PAGES)),
                                       RootSet(m.pos, m.spaces[pid].pgtbl), core2, f)
    ensures GoneCoreAt(m, core2, pid, f, ListFrames(m.owner, pid), RootSet(m.pos, m.spaces[pid].pgtbl), |KeysNaming(m.vpis, pid, f)|)
  {
    var fs := Ppns(m.tables, m.spaces[pid].pgtbl, 0, USER_PAGES);
    var lists, roots := ListFrames(m.owner, pid), RootSet(m.pos, m.spaces[pid].pgtbl);
    assert TornAt(m.core, lists, core1, f) && TornAt(FreeAll(core1, fs), roots, core2, f);
    assert RoleAt(m, f) && FrameOk(Cow(m), f) && NodeOk(m.tables, m.pos, f);
    CountsOfProcess(m, pid, f);
    if f !in m.data && |KeysNaming(m.vpis, pid, f)| > 0 {
      NamedIsData(m, pid, f);
    }
    if f < |core1| && |KeysNaming(m.vpis, pid, f)| <= core1[f].refcount {
      FreeAllDropsCounts(core1, fs, f);
    }
  }
}
