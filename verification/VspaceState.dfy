/** All the kernel keeps about user memory, as a value: the address spaces with their `vpage_info`
    lists, the bytes of the data frames, the page tables and the core map; and what every operation on
    them keeps true. */
module VspaceState {
  import opened Prelude
  import opened Kalloc
  import opened PageTable
  import opened X86Vm
  import opened CopyOnWrite
  import opened Regions
  import opened VspaceUpdate

  /** The place of a vpi_page: the j'th of a region of a process. */
  datatype Slot = Slot(pid: nat, region: nat, j: nat)

  /** `vpis` lists the used infos of all address spaces by key, and `owner` the frames that hold
      vpi_pages; both are determined by `spaces`. */
  datatype Mem = Mem(
    spaces: map<nat, Space>, vpis: map<Key, Vpi>, owner: map<Frame, Slot>,
    data: map<Frame, Page>, core: seq<CoreEntry>, tables: Tables, pos: map<Frame, Pos>, end: nat)

  predicate InList(m: Mem, k: Key) {
    && k.pid in m.spaces && |m.spaces[k.pid].regions| == NREGIONS && k.region < NREGIONS
    && ListOk(m.spaces[k.pid].regions[k.region]) && k.idx < Cap(m.spaces[k.pid].regions[k.region])
  }

  function InfoAt(m: Mem, k: Key): Vpi {
    if k.pid in m.spaces && |m.spaces[k.pid].regions| == NREGIONS && k.region < NREGIONS
    then At(m.spaces[k.pid].regions[k.region], k.idx) else UNUSED
  }

  /** An info not in use is all zeroes. */
  predicate CoupledAt(m: Mem, k: Key) {
    InfoAt(m, k) == if k in m.vpis then m.vpis[k].(used := true) else UNUSED
  }

  predicate SpaceAt(m: Mem, pid: nat) {
    pid in m.spaces ==>
      && |m.spaces[pid].regions| == NREGIONS && IsRoot(m.pos, m.spaces[pid].pgtbl)
      && ListOk(m.spaces[pid].regions[0]) && ListOk(m.spaces[pid].regions[1]) && ListOk(m.spaces[pid].regions[2])
  }

  predicate ApartAt(m: Mem, pid: nat, pid': nat) {
    pid in m.spaces && pid' in m.spaces && m.spaces[pid].pgtbl == m.spaces[pid'].pgtbl ==> pid == pid'
  }

  predicate ListAt(m: Mem, s: Slot) {
    s.pid in m.spaces && |m.spaces[s.pid].regions| == NREGIONS && s.region < NREGIONS
    && s.j < |m.spaces[s.pid].regions[s.region].pages|
    ==> m.spaces[s.pid].regions[s.region].pages[s.j].frame in m.owner
        && m.owner[m.spaces[s.pid].regions[s.region].pages[s.j].frame] == s
  }

  predicate RoleAt(m: Mem, f: Frame) {
    && (f in m.owner ==>
          && m.end <= f < |m.core| && !m.core[f].available && m.core[f].refcount == 1
          && m.owner[f].pid in m.spaces && |m.spaces[m.owner[f].pid].regions| == NREGIONS && m.owner[f].region < NREGIONS
          && m.owner[f].j < |m.spaces[m.owner[f].pid].regions[m.owner[f].region].pages|
          && m.spaces[m.owner[f].pid].regions[m.owner[f].region].pages[m.owner[f].j].frame == f
          && f !in m.data && f !in m.tables)
    && (f in m.data ==> m.end <= f && f !in m.tables && |m.data[f]| == PGSIZE)
  }

  function Cow(m: Mem): State {
    State(m.vpis, m.data, m.core)
  }

  /** The lists hold what `vpis` says; every address space has its own PML4; and no frame is two of:
      data, a vpi_page, a page table. */
  ghost predicate Shape(m: Mem) {
    && (forall k: Key :: CoupledAt(m, k))
    && (forall pid: nat :: SpaceAt(m, pid))
    && (forall pid: nat, pid': nat :: ApartAt(m, pid, pid'))
    && (forall s: Slot :: ListAt(m, s))
    && (forall f: Frame :: RoleAt(m, f))
  }

  /** And counts are exact and sharing is safe. */
  ghost predicate MemOk(m: Mem) {
    Inv(Cow(m)) && Shape(m)
  }

  // ---- one info is written ----

  function PutInfo(m: Mem, k: Key, v: Vpi): map<nat, Space>
    requires InList(m, k)
  {
    var s := m.spaces[k.pid];
    m.spaces[k.pid := s.(regions := s.regions[k.region := SetAt(s.regions[k.region], k.idx, v)])]
  }

  lemma PutInfoAt(m: Mem, k: Key, v: Vpi, m': Mem, k': Key)
    requires InList(m, k) && m'.spaces == PutInfo(m, k, v)
    ensures InfoAt(m', k') == if k' == k then v else InfoAt(m, k')
  {
    SetAtOnly(m.spaces[k.pid].regions[k.region], k.idx, v, k'.idx);
  }

  predicate RoleKept(m: Mem, m': Mem, f: Frame) {
    && (f in m.owner && f < |m.core| == |m'.core| ==> SameCount(m.core[f], m'.core[f]) && f !in m'.data)
    && (f in m'.data ==> m.end <= f && f !in m.tables && |m'.data[f]| == PGSIZE)
  }

  /** Writing an info moves no list and no table. */
  lemma PutKeepsShape(m: Mem, k: Key, v: Vpi, m': Mem)
    requires Shape(m) && InList(m, k) && (v.used || v == UNUSED)
    requires m'.spaces == PutInfo(m, k, v) && m'.vpis == if v.used then m.vpis[k := v] else m.vpis - {k}
    requires m'.owner == m.owner && m'.pos == m.pos && m'.tables == m.tables && m'.end == m.end && |m'.core| == |m.core|
    requires forall f: Frame :: RoleKept(m, m', f)
    ensures Shape(m')
  {
    SetAtOnly(m.spaces[k.pid].regions[k.region], k.idx, v, k.idx);
    forall k': Key ensures CoupledAt(m', k') {
      assert CoupledAt(m, k');
      PutInfoAt(m, k, v, m', k');
    }
    forall pid: nat ensures SpaceAt(m', pid) {
      assert SpaceAt(m, pid);
    }
    forall pid: nat, pid': nat ensures ApartAt(m', pid, pid') {
      assert ApartAt(m, pid, pid');
    }
    forall s: Slot ensures ListAt(m', s) {
      assert ListAt(m, s) && SpaceAt(m, s.pid);
    }
    forall f: Frame ensures RoleAt(m', f) {
      assert RoleAt(m, f) && RoleKept(m, m', f);
    }
  }

  /** vregionaddmap gives a page a cleared frame. */
  function MapMem(m: Mem, k: Key, w: bool, f: Frame): Mem
    requires InList(m, k) && f < |m.core|
  {
    m.(spaces := PutInfo(m, k, Vpi(true, f, true, w, false)),
       vpis := MapPage(Cow(m), k, w, f).vpis, data := MapPage(Cow(m), k, w, f).data, core := MapPage(Cow(m), k, w, f).core)
  }

  lemma MapMemOk(m: Mem, k: Key, w: bool, f: Frame)
    requires MemOk(m) && InList(m, k) && !InfoAt(m, k).used
    requires m.end <= f < |m.core| && m.core[f].available && f !in m.tables
    ensures MemOk(MapMem(m, k, w, f)) && k !in m.vpis && f !in m.data
    ensures View(Cow(MapMem(m, k, w, f))) == Apply(View(Cow(m)), Map(k, w))
  {
    assert CoupledAt(m, k);
    var m' := MapMem(m, k, w, f);
    MapKeepsInv(Cow(m), k, w, f);
    MapRefines(Cow(m), k, w, f);
    forall g: Frame ensures RoleKept(m, m', g) {
      assert RoleAt(m, g);
    }
    PutKeepsShape(m, k, Vpi(true, f, true, w, false), m');
  }

  /** vregionaddmap's failure path takes it back. */
  function UnmapMem(m: Mem, k: Key): Mem
    requires InList(m, k) && k in m.vpis && m.vpis[k].ppn < |m.core|
  {
    var s := DropRef(State(m.vpis - {k}, m.data, m.core), m.vpis[k].ppn);
    m.(spaces := PutInfo(m, k, UNUSED), vpis := s.vpis, data := s.data, core := s.core)
  }

  lemma UnmapMemOk(m: Mem, k: Key)
    requires MemOk(m) && InList(m, k) && k in m.vpis
    ensures m.vpis[k].ppn < |m.core| && MemOk(UnmapMem(m, k))
    ensures View(Cow(UnmapMem(m, k))) == Apply(View(Cow(m)), Unmap(k))
  {
    assert KeyOk(Cow(m), k) && FrameOk(Cow(m), m.vpis[k].ppn);
    var m' := UnmapMem(m, k);
    UnmapKeepsInv(Cow(m), k);
    UnmapRefines(Cow(m), k);
    forall g: Frame ensures RoleKept(m, m', g) {
      assert RoleAt(m, g);
    }
    PutKeepsShape(m, k, UNUSED, m');
  }

  /** A write fault gives the page its own copy. */
  function BreakMem(m: Mem, k: Key, f: Frame): Mem
    requires InList(m, k) && CowEnabled(Cow(m), Fault(k), f)
  {
    var s := BreakSharing(Cow(m), k, f);
    m.(spaces := PutInfo(m, k, s.vpis[k]), vpis := s.vpis, data := s.data, core := s.core)
  }

  lemma BreakMemOk(m: Mem, k: Key, f: Frame)
    requires MemOk(m) && InList(m, k) && k in m.vpis && m.vpis[k].cow
    requires m.end <= f < |m.core| && m.core[f].available && f !in m.tables
    ensures CowEnabled(Cow(m), Fault(k), f) && MemOk(BreakMem(m, k, f))
    ensures View(Cow(BreakMem(m, k, f))) == View(Cow(m))
  {
    assert KeyOk(Cow(m), k) && FrameOk(Cow(m), m.vpis[k].ppn) && RoleAt(m, m.vpis[k].ppn);
    var m' := BreakMem(m, k, f);
    FaultKeepsInv(Cow(m), k, f);
    FaultRefines(Cow(m), k, f);
    forall g: Frame ensures RoleKept(m, m', g) {
      assert RoleAt(m, g);
    }
    PutKeepsShape(m, k, m'.vpis[k], m');
  }

  lemma BreakOnly(m: Mem, k: Key, f: Frame)
    requires InList(m, k) && CowEnabled(Cow(m), Fault(k), f)
    ensures var m' := BreakMem(m, k, f);
            && m'.vpis.Keys == m.vpis.Keys && m'.vpis[k].writable && !m'.vpis[k].cow
            && (forall k' :: k' in m.vpis && k' != k ==> m'.vpis[k'] == m.vpis[k'])
  {
  }

  /** Fork carries a page over: both sides read-only, one more reference. */
  function ShareMem(m: Mem, src: Key, dst: Key): Mem
    requires InList(m, src) && InList(m, dst) && src in m.vpis && m.vpis[src].ppn < |m.core|
  {
    var s := SharePage(Cow(m), src, dst);
    var m1 := m.(spaces := PutInfo(m, src, Shared(m.vpis[src])));
    SetAtOnly(m.spaces[src.pid].regions[src.region], src.idx, Shared(m.vpis[src]), 0);
    m.(spaces := PutInfo(m1, dst, Shared(m.vpis[src])), vpis := s.vpis, data := s.data, core := s.core)
  }

  lemma ShareMemOk(m: Mem, src: Key, dst: Key)
    requires MemOk(m) && InList(m, src) && InList(m, dst) && src in m.vpis && dst !in m.vpis
    ensures m.vpis[src].ppn < |m.core| && MemOk(ShareMem(m, src, dst))
    ensures View(Cow(ShareMem(m, src, dst))) == Apply(View(Cow(m)), Copy(src, dst))
  {
    assert KeyOk(Cow(m), src) && FrameOk(Cow(m), m.vpis[src].ppn);
    var v := Shared(m.vpis[src]);
    var m' := ShareMem(m, src, dst);
    CopyKeepsInv(Cow(m), src, dst);
    CopyRefines(Cow(m), src, dst);
    var m1 := m.(spaces := PutInfo(m, src, v), vpis := m.vpis[src := v]);
    forall g: Frame ensures RoleKept(m, m1, g) && RoleKept(m1, m', g) {
      assert RoleAt(m, g);
    }
    PutKeepsShape(m, src, v, m1);
    SetAtOnly(m.spaces[src.pid].regions[src.region], src.idx, v, 0);
    PutKeepsShape(m1, dst, v, m');
  }

  // ---- a vpi_page is added to a list ----

  function ExtendMem(m: Mem, pid: nat, r: nat, f: Frame): Mem
    requires pid in m.spaces && |m.spaces[pid].regions| == NREGIONS && r < NREGIONS && f < |m.core|
  {
    var s := m.spaces[pid];
    m.(spaces := m.spaces[pid := s.(regions := s.regions[r := Extend(s.regions[r], f)])],
       owner := m.owner[f := Slot(pid, r, |s.regions[r].pages|)],
       core := m.core[f := Allocated(m.core[f])])
  }

  lemma ExtendInfoAt(m: Mem, pid: nat, r: nat, f: Frame, k: Key)
    requires pid in m.spaces && SpaceAt(m, pid) && r < NREGIONS && f < |m.core|
    ensures InfoAt(ExtendMem(m, pid, r, f), k) == InfoAt(m, k)
  {
    ExtendAt(m.spaces[pid].regions[r], f, k.idx);
  }

  /** Taking an available frame out of the core map disturbs no data frame. */
  lemma TakeKeepsInv(s: State, f: Frame)
    requires Inv(s) && f < |s.core| && s.core[f].available
    ensures Inv(State(s.vpis, s.data, s.core[f := Allocated(s.core[f])])) && f !in s.data
    ensures View(State(s.vpis, s.data, s.core[f := Allocated(s.core[f])])) == View(s)
  {
    var s' := State(s.vpis, s.data, s.core[f := Allocated(s.core[f])]);
    assert FrameOk(s, f);
    forall g: Frame ensures FrameOk(s', g) {
      assert FrameOk(s, g);
    }
    forall k: Key ensures KeyOk(s', k) {
      assert KeyOk(s, k);
    }
  }

  lemma ExtendKeepsLists(m: Mem, pid: nat, r: nat, f: Frame)
    requires Shape(m) && pid in m.spaces && SpaceAt(m, pid) && r < NREGIONS && f < |m.core| && f !in m.owner
    ensures forall p: nat :: SpaceAt(ExtendMem(m, pid, r, f), p)
    ensures forall s: Slot :: ListAt(ExtendMem(m, pid, r, f), s)
  {
    var m' := ExtendMem(m, pid, r, f);
    ExtendAt(m.spaces[pid].regions[r], f, 0);
    forall p: nat ensures SpaceAt(m', p) {
      assert SpaceAt(m, p);
    }
    forall s: Slot ensures ListAt(m', s) {
      assert ListAt(m, s) && SpaceAt(m, s.pid);
    }
  }

  lemma ExtendMemOk(m: Mem, pid: nat, r: nat, f: Frame)
    requires MemOk(m) && pid in m.spaces && r < NREGIONS
    requires m.end <= f < |m.core| && m.core[f].available && f !in m.tables
    ensures SpaceAt(m, pid) && MemOk(ExtendMem(m, pid, r, f))
  {
    assert SpaceAt(m, pid) && RoleAt(m, f);
    var m' := ExtendMem(m, pid, r, f);
    TakeKeepsInv(Cow(m), f);
    ExtendKeepsLists(m, pid, r, f);
    forall k: Key ensures CoupledAt(m', k) {
      assert CoupledAt(m, k);
      ExtendInfoAt(m, pid, r, f, k);
    }
    forall p: nat, p': nat ensures ApartAt(m', p, p') {
      assert ApartAt(m, p, p');
    }
    forall g: Frame ensures RoleAt(m', g) {
      assert RoleAt(m, g);
    }
  }

  // ---- the page tables change ----

  /** When only the tables' frames change hands, user memory is as it was. */
  lemma TablesChange(m: Mem, m': Mem, s: Space)
    requires MemOk(m) && Around(m.tables, m.pos, m.core, m'.tables, m'.pos, m'.core, s)
    requires m' == m.(tables := m'.tables, pos := m'.pos, core := m'.core)
    requires forall f :: 0 <= f < |m'.core| && m'.core[f].available ==> m'.core[f].refcount == 0
    ensures MemOk(m') && View(Cow(m')) == View(Cow(m))
  {
    forall f: Frame ensures FrameOk(Cow(m'), f) && RoleAt(m', f) {
      assert FrameOk(Cow(m), f) && RoleAt(m, f);
      assert PtOnlyAt(m.tables, m.core, m'.tables, m'.core, f);
    }
    forall k: Key ensures KeyOk(Cow(m'), k) && CoupledAt(m', k) {
      assert KeyOk(Cow(m), k) && CoupledAt(m, k);
    }
    forall p: nat ensures SpaceAt(m', p) {
      assert SpaceAt(m, p);
      if p in m.spaces {
        assert RootKeptAt(m.pos, m'.pos, m.spaces[p].pgtbl);
      }
    }
    forall p: nat, p': nat ensures ApartAt(m', p, p') {
      assert ApartAt(m, p, p');
    }
    forall t: Slot ensures ListAt(m', t) {
      assert ListAt(m, t);
    }
  }

  /** Bytes of data frames are written. */
  lemma DataShape(m: Mem, data: map<Frame, Page>)
    requires Shape(m) && data.Keys == m.data.Keys && forall f :: f in data ==> |data[f]| == |m.data[f]|
    ensures Shape(m.(data := data))
  {
    var m' := m.(data := data);
    forall f: Frame ensures RoleAt(m', f) {
      assert RoleAt(m, f);
    }
    forall k: Key ensures CoupledAt(m', k) {
      assert CoupledAt(m, k);
    }
    forall p: nat ensures SpaceAt(m', p) {
      assert SpaceAt(m, p);
    }
    forall p: nat, p': nat ensures ApartAt(m', p, p') {
      assert ApartAt(m, p, p');
    }
    forall t: Slot ensures ListAt(m', t) {
      assert ListAt(m, t);
    }
  }

  /** A user byte is written. */
  lemma StoreMemOk(m: Mem, k: Key, off: nat, b: byte)
    requires MemOk(m) && CowEnabled(Cow(m), Store(k, off, b), 0)
    ensures MemOk(m.(data := StoreByte(Cow(m), k, off, b).data))
    ensures View(Cow(m.(data := StoreByte(Cow(m), k, off, b).data))) == Apply(View(Cow(m)), Store(k, off, b))
  {
    StoreKeepsInv(Cow(m), k, off, b);
    StoreRefines(Cow(m), k, off, b);
    DataShape(m, StoreByte(Cow(m), k, off, b).data);
  }

  /** The kernel loads a page that is on a frame of its own. */
  lemma FillMemOk(m: Mem, k: Key, bytes: Page)
    requires MemOk(m) && CowEnabled(Cow(m), Event.Fill(k, bytes), 0)
    ensures MemOk(m.(data := FillBytes(Cow(m), k, bytes).data))
    ensures View(Cow(m.(data := FillBytes(Cow(m), k, bytes).data))) == Apply(View(Cow(m)), Event.Fill(k, bytes))
  {
    FillKeepsInv(Cow(m), k, bytes);
    FillRefines(Cow(m), k, bytes);
    DataShape(m, FillBytes(Cow(m), k, bytes).data);
  }

  // ---- what does not change ----

  /** The same address spaces with the same regions, where only the lists of `pid` may have grown. */
  predicate GeometryAt(m: Mem, m': Mem, pid: nat, p: nat) {
    && (p in m.spaces <==> p in m'.spaces)
    && (p in m.spaces && p != pid ==> m'.spaces[p] == m.spaces[p])
    && (p in m.spaces && |m.spaces[p].regions| == NREGIONS ==>
          && m'.spaces[p].pgtbl == m.spaces[p].pgtbl && |m'.spaces[p].regions| == NREGIONS
          && SameRegion(m.spaces[p].regions[0], m'.spaces[p].regions[0])
          && SameRegion(m.spaces[p].regions[1], m'.spaces[p].regions[1])
          && SameRegion(m.spaces[p].regions[2], m'.spaces[p].regions[2]))
  }

  predicate SameRegion(r: Region, r': Region) {
    r'.dir == r.dir && r'.base == r.base && r'.size == r.size && |r.pages| <= |r'.pages|
  }

  ghost predicate Geometry(m: Mem, m': Mem, pid: nat) {
    forall p: nat :: GeometryAt(m, m', pid, p)
  }

  lemma GeometryTransitive(m: Mem, m1: Mem, m2: Mem, pid: nat)
    requires Geometry(m, m1, pid) && Geometry(m1, m2, pid)
    ensures Geometry(m, m2, pid)
  {
    forall p: nat ensures GeometryAt(m, m2, pid, p) {
      assert GeometryAt(m, m1, pid, p) && GeometryAt(m1, m2, pid, p);
    }
  }

  lemma PutGeometry(m: Mem, k: Key, v: Vpi, m': Mem)
    requires InList(m, k) && m'.spaces == PutInfo(m, k, v)
    ensures Geometry(m, m', k.pid)
  {
    SetAtOnly(m.spaces[k.pid].regions[k.region], k.idx, v, k.idx);
    forall p: nat ensures GeometryAt(m, m', k.pid, p) {
    }
  }

  lemma ExtendGeometry(m: Mem, pid: nat, r: nat, f: Frame)
    requires pid in m.spaces && |m.spaces[pid].regions| == NREGIONS && r < NREGIONS && f < |m.core|
    ensures Geometry(m, ExtendMem(m, pid, r, f), pid)
  {
    var m' := ExtendMem(m, pid, r, f);
    forall p: nat ensures GeometryAt(m, m', pid, p) {
    }
  }

  // ---- a range of pages is added to a region ----

  /** k is the slot of one of the pages [lo, hi) of region r. */
  predicate NewKey(pid: nat, r: nat, reg: Region, lo: nat, hi: nat, k: Key) {
    k.pid == pid && k.region == r && lo <= VpnOf(reg, k.idx) < hi
  }

  /** The pages [lo, hi) have slots: above the base of a region that grows up, below that of one that
      grows down. */
  predicate HasSlots(reg: Region, lo: nat, hi: nat) {
    reg.base % 4096 == 0 && if reg.dir.Up? then reg.base / 4096 <= lo else hi <= reg.base / 4096
  }

  lemma SlotOf(reg: Region, lo: nat, hi: nat, a: nat)
    requires HasSlots(reg, lo, hi) && lo <= a < hi
    ensures 0 <= Va2VpiIdx(reg, a * 4096) && VpnOf(reg, Va2VpiIdx(reg, a * 4096)) == a
    ensures forall i: nat :: VpnOf(reg, i) == a ==> i == Va2VpiIdx(reg, a * 4096)
  {
  }

  /** Slot k after the pages [lo, hi) of region r were added: they are in use, cleared, on frames of their
      own, with the given permission; everything that was in use is exactly as it was. */
  predicate AddedAt(m0: Mem, m: Mem, pid: nat, r: nat, reg: Region, w: bool, lo: nat, hi: nat, k: Key) {
    && (k in m.vpis <==> k in m0.vpis || NewKey(pid, r, reg, lo, hi, k))
    && (NewKey(pid, r, reg, lo, hi, k) ==> k !in m0.vpis)
    && (k in m0.vpis && k in m.vpis && m0.vpis[k].ppn in m0.data ==>
          m.vpis[k] == m0.vpis[k] && m.vpis[k].ppn in m.data && m.data[m.vpis[k].ppn] == m0.data[m0.vpis[k].ppn])
    && (k !in m0.vpis && k in m.vpis ==>
          && m.vpis[k] == Vpi(true, m.vpis[k].ppn, true, w, false) && Refs(m.vpis, m.vpis[k].ppn) == {k}
          && m.vpis[k].ppn in m.data && m.data[m.vpis[k].ppn] == ZeroPage())
  }

  ghost predicate AddedRange(m0: Mem, m: Mem, pid: nat, r: nat, reg: Region, w: bool, lo: nat, hi: nat) {
    forall k: Key :: AddedAt(m0, m, pid, r, reg, w, lo, hi, k)
  }

  lemma AddedNone(m0: Mem, pid: nat, r: nat, reg: Region, w: bool, lo: nat)
    requires MemOk(m0)
    ensures AddedRange(m0, m0, pid, r, reg, w, lo, lo)
  {
    forall k: Key ensures AddedAt(m0, m0, pid, r, reg, w, lo, lo, k) {
      assert KeyOk(Cow(m0), k);
    }
  }

  /** Growing a list changes no slot. */
  lemma AddedSame(m0: Mem, m: Mem, m': Mem, pid: nat, r: nat, reg: Region, w: bool, lo: nat, hi: nat)
    requires AddedRange(m0, m, pid, r, reg, w, lo, hi) && m'.vpis == m.vpis && m'.data == m.data
    ensures AddedRange(m0, m', pid, r, reg, w, lo, hi)
  {
    forall k: Key ensures AddedAt(m0, m', pid, r, reg, w, lo, hi, k) {
      assert AddedAt(m0, m, pid, r, reg, w, lo, hi, k);
    }
  }

  lemma AddedOneMore(m0: Mem, m: Mem, pid: nat, r: nat, reg: Region, w: bool, lo: nat, a: nat, hi: nat, k: Key, f: Frame)
    requires AddedRange(m0, m, pid, r, reg, w, lo, a) && lo <= a < hi && HasSlots(reg, lo, hi)
    requires k == Key(pid, r, Va2VpiIdx(reg, a * 4096)) && k !in m.vpis
    requires Inv(Cow(m)) && InList(m, k) && f < |m.core| && f !in m.data
    ensures AddedRange(m0, MapMem(m, k, w, f), pid, r, reg, w, lo, a + 1)
  {
    var m', a' := MapMem(m, k, w, f), a + 1;
    SlotOf(reg, lo, hi, a);
    forall k': Key ensures AddedAt(m0, m', pid, r, reg, w, lo, a', k') {
      assert AddedAt(m0, m, pid, r, reg, w, lo, a, k');
      if k' in m'.vpis {
        FreshRefs(Cow(m), k, m'.vpis[k], m'.vpis[k'].ppn);
      }
    }
  }

  lemma AddedOneLess(m0: Mem, m: Mem, pid: nat, r: nat, reg: Region, w: bool, lo: nat, a: nat, hi: nat, k: Key)
    requires AddedRange(m0, m, pid, r, reg, w, lo, a + 1) && lo <= a < hi && HasSlots(reg, lo, hi)
    requires k == Key(pid, r, Va2VpiIdx(reg, a * 4096)) && k in m.vpis && InList(m, k) && m.vpis[k].ppn < |m.core|
    requires MemOk(UnmapMem(m, k))
    ensures AddedRange(m0, UnmapMem(m, k), pid, r, reg, w, lo, a)
  {
    var m', a' := UnmapMem(m, k), a + 1;
    SlotOf(reg, lo, hi, a);
    forall k': Key ensures AddedAt(m0, m', pid, r, reg, w, lo, a, k') {
      assert AddedAt(m0, m, pid, r, reg, w, lo, a', k') && KeyOk(Cow(m'), k');
      if k' in m'.vpis {
        RefsAfterRemoval(m.vpis, k, m.vpis[k'].ppn);
      }
    }
  }

  /** A frame holds data only as long as something names it. */
  lemma DataIsNamed(s: State, f: Frame) returns (k: Key)
    requires Inv(s) && f in s.data
    ensures k in s.vpis && s.vpis[k].ppn == f
  {
    assert FrameOk(s, f);
    assert Refs(s.vpis, f) != {};
    k :| k in Refs(s.vpis, f);
  }

  /** Nothing added: nothing changed. */
  lemma AddedNothing(m0: Mem, m: Mem, pid: nat, r: nat, reg: Region, w: bool, lo: nat)
    requires MemOk(m0) && MemOk(m) && AddedRange(m0, m, pid, r, reg, w, lo, lo)
    ensures m.vpis == m0.vpis && m.data == m0.data
  {
    forall k: Key ensures (k in m.vpis <==> k in m0.vpis) && (k in m0.vpis ==> m.vpis[k] == m0.vpis[k]) {
      assert AddedAt(m0, m, pid, r, reg, w, lo, lo, k) && KeyOk(Cow(m0), k);
    }
    assert m.vpis == m0.vpis;
    forall f | f in m.data ensures f in m0.data && m.data[f] == m0.data[f] {
      var k := DataIsNamed(Cow(m), f);
      assert AddedAt(m0, m, pid, r, reg, w, lo, lo, k) && KeyOk(Cow(m0), k);
    }
    forall f | f in m0.data ensures f in m.data {
      var k := DataIsNamed(Cow(m0), f);
      assert KeyOk(Cow(m), k);
    }
  }

  /** What a process sees of an added range: zeroes at the new pages and nothing else new. */
  predicate GrownViewAt(v0: Memory, v: Memory, pid: nat, r: nat, reg: Region, w: bool, lo: nat, hi: nat, k: Key) {
    if NewKey(pid, r, reg, lo, hi, k) then k !in v0 && k in v && v[k] == UserPage(ZeroPage(), w)
    else (k in v <==> k in v0) && (k in v0 ==> v[k] == v0[k])
  }

  ghost predicate GrownView(v0: Memory, v: Memory, pid: nat, r: nat, reg: Region, w: bool, lo: nat, hi: nat) {
    forall k: Key :: GrownViewAt(v0, v, pid, r, reg, w, lo, hi, k)
  }

  lemma SameView(v: Memory, pid: nat, r: nat, reg: Region, w: bool, lo: nat)
    ensures GrownView(v, v, pid, r, reg, w, lo, lo)
  {
    forall k: Key ensures GrownViewAt(v, v, pid, r, reg, w, lo, lo, k) {
    }
  }

  lemma AddedView(m0: Mem, m: Mem, pid: nat, r: nat, reg: Region, w: bool, lo: nat, hi: nat)
    requires MemOk(m0) && MemOk(m) && AddedRange(m0, m, pid, r, reg, w, lo, hi)
    ensures GrownView(View(Cow(m0)), View(Cow(m)), pid, r, reg, w, lo, hi)
  {
    var v0, v := View(Cow(m0)), View(Cow(m));
    forall k: Key ensures GrownViewAt(v0, v, pid, r, reg, w, lo, hi, k) {
      assert AddedAt(m0, m, pid, r, reg, w, lo, hi, k) && KeyOk(Cow(m0), k) && KeyOk(Cow(m), k);
    }
  }

  /** An added page has its slot in the list. */
  lemma AddedSlot(m0: Mem, m: Mem, pid: nat, r: nat, reg: Region, w: bool, lo: nat, hi: nat, k: Key)
    requires MemOk(m) && AddedRange(m0, m, pid, r, reg, w, lo, hi) && NewKey(pid, r, reg, lo, hi, k)
    ensures k in m.vpis && InList(m, k)
  {
    assert AddedAt(m0, m, pid, r, reg, w, lo, hi, k);
    UsedIsInList(m, k);
  }

  lemma UsedIsInList(m: Mem, k: Key)
    requires Shape(m) && k in m.vpis
    ensures InList(m, k)
  {
    assert CoupledAt(m, k) && SpaceAt(m, k.pid);
  }

  // ---- an address space is added ----

  /** An address space without pages, on a PML4 nobody else has. */
  lemma NewSpaceOk(m: Mem, m': Mem, pid: nat, s: Space)
    requires MemOk(m) && pid !in m.spaces && m' == m.(spaces := m.spaces[pid := s])
    requires |s.regions| == NREGIONS && forall i :: 0 <= i < NREGIONS ==> s.regions[i].pages == []
    requires IsRoot(m.pos, s.pgtbl) && forall p :: p in m.spaces ==> m.spaces[p].pgtbl != s.pgtbl
    ensures MemOk(m') && View(Cow(m')) == View(Cow(m))
    ensures forall k: Key :: k in m.vpis ==> k.pid != pid
  {
    forall k: Key ensures CoupledAt(m', k) && (k in m.vpis ==> k.pid != pid) {
      assert CoupledAt(m, k);
    }
    forall p: nat ensures SpaceAt(m', p) {
      assert SpaceAt(m, p);
    }
    forall p: nat, p': nat ensures ApartAt(m', p, p') {
      assert ApartAt(m, p, p');
    }
    forall t: Slot ensures ListAt(m', t) {
      assert ListAt(m, t);
    }
    forall f: Frame ensures RoleAt(m', f) {
      assert RoleAt(m, f);
    }
  }

  /** The regions of an address space are moved; the lists stay. */
  lemma PlaceRegionsOk(m: Mem, m': Mem, pid: nat, regions: seq<Region>)
    requires MemOk(m) && pid in m.spaces && |m.spaces[pid].regions| == NREGIONS == |regions|
    requires forall i :: 0 <= i < NREGIONS ==> regions[i].pages == m.spaces[pid].regions[i].pages
    requires m' == m.(spaces := m.spaces[pid := m.spaces[pid].(regions := regions)])
    ensures MemOk(m') && View(Cow(m')) == View(Cow(m))
  {
    forall k: Key ensures CoupledAt(m', k) {
      assert CoupledAt(m, k);
      assert InfoAt(m', k) == InfoAt(m, k);
    }
    forall p: nat ensures SpaceAt(m', p) {
      assert SpaceAt(m, p);
    }
    forall p: nat, p': nat ensures ApartAt(m', p, p') {
      assert ApartAt(m, p, p');
    }
    forall t: Slot ensures ListAt(m', t) {
      assert ListAt(m, t);
    }
    forall f: Frame ensures RoleAt(m', f) {
      assert RoleAt(m, f);
    }
  }
}
