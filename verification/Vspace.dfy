/** Operations on address spaces: growing a region, the write fault, fork and teardown. */
module Vspace {
  import opened Prelude
  import opened Kalloc
  import opened PageTable
  import opened Dealloc
  import opened X86Vm
  import opened CopyOnWrite
  import opened Regions
  import opened VspaceUpdate
  import opened VspaceState
  import opened Layout
  import opened ForkState
  import opened Teardown

  /** What va2vpage_info does: find the info, run out of memory, or go on with a list at address 0. */
  datatype InfoResult = Found | NoMemory | NullList

  /** A crash is where the code goes on with a null pointer or a wrapped cursor. */
  datatype AddResult = Added | Failed | Panicked | AddCrash

  datatype SbrkResult = Moved(oldTop: nat) | SbrkError | SbrkPanic | SbrkCrash

  /** What a user load or store meets: done, or a page fault with the present bit of its error code. */
  datatype Access = Done | Trapped(present: bool)

  /** va2vregion finds a region for va, and the page there is marked copy-on-write. */
  ghost predicate CowAt(s: Space, va: nat) {
    Va2Vregion(s, va).Some? &&
    var reg := s.regions[Va2Vregion(s, va).value];
    Va2VpiIdx(reg, va) >= 0 && At(reg, Va2VpiIdx(reg, va)).cow
  }

  /** The entry for va lets a store through. */
  ghost predicate Writable(t: Tables, s: Space, va: nat) {
    Entry(t, s.pgtbl, va / 4096).present && Entry(t, s.pgtbl, va / 4096).writable
  }

  /** The stack of pid grew to the page of addr, with cleared pages, and nothing else changed for anybody. */
  ghost predicate StackGrown(m0: Mem, m: Mem, pid: nat, addr: nat) {
    pid in m0.spaces && |m0.spaces[pid].regions| == NREGIONS &&
    var stack := m0.spaces[pid].regions[VR_USTACK];
    && STACK_TOP - MAX_STACK <= addr / 4096 < BotPage(stack) && addr / 4096 * 4096 <= stack.base
    && GrownView(View(Cow(m0)), View(Cow(m)), pid, VR_USTACK, stack, true, addr / 4096, BotPage(stack))
    && Sites(m.spaces) == Widened(Sites(m0.spaces), pid, VR_USTACK, stack.base - addr / 4096 * 4096)
  }

  lemma NewBottom(stack: Region, stack': Region, page: nat)
    requires stack.dir.Down? && stack.base == STACK_TOP * 4096 && page <= STACK_TOP
    requires Site(stack') == Site(stack).(size := stack.base - page * 4096)
    ensures stack'.base == stack.base && BotPage(stack') == page
  {
  }

  lemma GrownStackIsWritable(m0: Mem, mid: Mem, m: Mem, pid: nat, addr: nat, stack: Region)
    requires MemOk(m) && pid in m0.spaces && pid in m.spaces && CleanAt(m, pid) && Ready(m0.spaces[pid]) && m.vpis == mid.vpis
    requires stack == m0.spaces[pid].regions[VR_USTACK] && addr / 4096 < BotPage(stack)
    requires Sites(m.spaces) == Widened(Sites(m0.spaces), pid, VR_USTACK, stack.base - addr / 4096 * 4096)
    requires AddedRange(m0, mid, pid, VR_USTACK, stack, true, addr / 4096, BotPage(stack))
    ensures Entry(m.tables, m.spaces[pid].pgtbl, addr / 4096).writable
  {
    WidenedAt(m0.spaces, m.spaces, pid, VR_USTACK, stack.base - addr / 4096 * 4096);
    NewBottom(stack, m.spaces[pid].regions[VR_USTACK], addr / 4096);
    GrownIsWritable(m0, mid, m, pid, addr);
  }

  /** What stops it: no frame is left for a table, or another region is in the way. */
  ghost predicate StackStopped(m0: Mem, m: Mem, pid: nat, addr: nat) {
    pid in m0.spaces && |m0.spaces[pid].regions| == NREGIONS &&
    var stack := m0.spaces[pid].regions[VR_USTACK];
    && STACK_TOP - MAX_STACK <= addr / 4096 < BotPage(stack)
    && (Available(m.core) == {} || Collides(m0.spaces[pid], VR_USTACK, addr / 4096, BotPage(stack)))
  }

  /** sbrk never shrinks the heap. */
  function More(n: int): nat {
    if n > 0 then n else 0
  }

  /** The heap of pid grew by that many bytes, with cleared pages, and nothing else changed for anybody. */
  ghost predicate HeapGrown(m0: Mem, m: Mem, pid: nat, more: nat) {
    pid in m0.spaces && |m0.spaces[pid].regions| == NREGIONS &&
    var heap := m0.spaces[pid].regions[VR_HEAP];
    var top := heap.base + heap.size;
    && GrownView(View(Cow(m0)), View(Cow(m)), pid, VR_HEAP, heap, true, FirstPage(top, 0), FirstPage(top, more))
    && Sites(m.spaces) == Widened(Sites(m0.spaces), pid, VR_HEAP, heap.size + more)
  }

  lemma HeapAsItWas(m: Mem, pid: nat)
    requires pid in m.spaces && |m.spaces[pid].regions| == NREGIONS
    ensures HeapGrown(m, m, pid, 0)
  {
    var heap := m.spaces[pid].regions[VR_HEAP];
    SameView(View(Cow(m)), pid, VR_HEAP, heap, true, FirstPage(heap.base + heap.size, 0));
    WidenedNone(m.spaces, pid, VR_HEAP);
  }

  /** Why it does not: too few frames are left. */
  predicate HeapDeclined(m0: Mem, m: Mem, pid: nat, n: int) {
    pid in m0.spaces && |m0.spaces[pid].regions| == NREGIONS && 0 < n &&
    var top := m0.spaces[pid].regions[VR_HEAP].base + m0.spaces[pid].regions[VR_HEAP].size;
    |Available(m.core)| < FirstPage(top, n) - FirstPage(top, 0)
  }

  /** What stops it: no frame is left, or another region is in the way. */
  ghost predicate HeapStopped(m0: Mem, m: Mem, pid: nat, n: int) {
    pid in m0.spaces && |m0.spaces[pid].regions| == NREGIONS && 0 < n &&
    var top := m0.spaces[pid].regions[VR_HEAP].base + m0.spaces[pid].regions[VR_HEAP].size;
    Available(m.core) == {} || Collides(m0.spaces[pid], VR_HEAP, FirstPage(top, 0), FirstPage(top, n))
  }

  /** All processes see the same memory at the same places. */
  ghost predicate SameSight(m0: Mem, m: Mem) {
    View(Cow(m)) == View(Cow(m0)) && Sites(m.spaces) == Sites(m0.spaces)
  }

  /** The store of b at va was legal and is all that anybody sees. */
  ghost predicate Stored(m0: Mem, m: Mem, pid: nat, va: nat, b: byte) {
    && pid in m0.spaces && m.spaces == m0.spaces && FindUsed(m0.spaces[pid], va / 4096, NREGIONS).Some?
    && var e := Store(KeyOf(pid, m0.spaces[pid], va), va % 4096, b);
       Legal(View(Cow(m0)), e) && View(Cow(m)) == Apply(View(Cow(m0)), e)
  }

  /** Not even the lists a process sees changed. */
  predicate SameMemory(m0: Mem, m: Mem) {
    m.vpis == m0.vpis && m.data == m0.data && Sites(m.spaces) == Sites(m0.spaces)
  }

  /** Why it does not grow: the address is out of its range, or too few frames are left. */
  predicate StackDeclined(m0: Mem, m: Mem, pid: nat, addr: nat) {
    pid in m0.spaces && |m0.spaces[pid].regions| == NREGIONS &&
    (|| !(STACK_TOP - MAX_STACK <= addr / 4096 < STACK_TOP)
     || |Available(m.core)| < BotPage(m0.spaces[pid].regions[VR_USTACK]) - addr / 4096)
  }

  /** A call that may run out of memory, or halt the kernel with a panic. */
  datatype CallResult = Succeeded | OutOfFrames | Halted

  datatype FaultResult = Handled | Unhandled | FaultPanic | FaultCrash

  lemma HeldAfterTake(tables: Tables, core: seq<CoreEntry>, end: nat, f: Frame)
    requires AllHeld(tables, core, end) && f < |core| && core[f].available
    ensures f !in tables && AllHeld(tables, core[f := Allocated(core[f])], end)
  {
    assert Held(tables, core, end, f);
    var core' := core[f := Allocated(core[f])];
    forall g: Frame ensures Held(tables, core', end, g) {
      assert Held(tables, core, end, g);
    }
  }

  predicate KernelHalfKeptAt(tables: Tables, tables': Tables, root: Frame, v: nat) {
    PML4_PAGES <= v < ALL_PAGES ==> Entry(tables', root, v) == Entry(tables, root, v)
  }

  /** Neither of fork's table updates touches the kernel half of the child's table. */
  lemma KernelHalfKept(m: Mem, m1: Mem, m2: Mem, dst: nat, src: nat)
    requires MemOk(m) && MemOk(m1) && dst in m.spaces && src in m.spaces && dst != src && m1.spaces == m.spaces
    requires forall r: Frame, v: nat :: KeptAt(m.tables, m.pos, m1.tables, m.spaces[dst].pgtbl, r, v)
    requires forall r: Frame, v: nat :: KeptAt(m1.tables, m1.pos, m2.tables, m.spaces[src].pgtbl, r, v)
    ensures forall v: nat :: KernelHalfKeptAt(m.tables, m2.tables, m.spaces[dst].pgtbl, v)
  {
    var root := m.spaces[dst].pgtbl;
    assert SpaceAt(m, dst) && SpaceAt(m1, dst);
    forall v: nat ensures KernelHalfKeptAt(m.tables, m2.tables, root, v) {
      assert KeptAt(m.tables, m.pos, m1.tables, root, root, v);
      assert KeptAt(m1.tables, m1.pos, m2.tables, m.spaces[src].pgtbl, root, v);
    }
  }

  lemma KernelMapKept(tables: Tables, tables': Tables, root: Frame, kmap: seq<KMap>)
    requires forall v: nat :: KernelAt(tables, root, kmap, |kmap|, v)
    requires forall v: nat :: KernelHalfKeptAt(tables, tables', root, v)
    ensures forall v: nat :: PML4_PAGES <= v ==> KernelAt(tables', root, kmap, |kmap|, v)
  {
    forall v: nat | PML4_PAGES <= v ensures KernelAt(tables', root, kmap, |kmap|, v) {
      assert KernelAt(tables, root, kmap, |kmap|, v) && KernelHalfKeptAt(tables, tables', root, v);
    }
  }

  lemma SameSeen(v: Memory, dst: nat)
    ensures OthersSee(v, v, dst)
  {
    forall k: Key ensures SameForAt(v, v, dst, k) {
    }
  }

  lemma RootIsNew(m: Mem, root: Frame)
    requires MemOk(m) && root !in m.pos
    ensures forall p :: p in m.spaces ==> m.spaces[p].pgtbl != root
  {
    forall p | p in m.spaces ensures m.spaces[p].pgtbl != root {
      assert SpaceAt(m, p);
    }
  }

  /** A new address space leaves the others up to date. */
  lemma NewSpaceStaysClean(m: Mem, m1: Mem, m': Mem, pid: nat, s: Space)
    requires MemOk(m) && pid !in m.spaces && m1.spaces == m.spaces && m' == m1.(spaces := m.spaces[pid := s])
    requires forall p :: p in m.spaces ==> m.spaces[p].pgtbl != s.pgtbl
    requires Around(m.tables, m.pos, m.core, m1.tables, m1.pos, m1.core, Space([], s.pgtbl))
    ensures forall p: nat :: p != pid ==> StaysCleanAt(m, m', p)
  {
    forall p: nat | p != pid ensures StaysCleanAt(m, m', p) {
      if p in m.spaces {
        KernelStaysClean(m, m1, Space([], s.pgtbl), p);
        assert StaysCleanAt(m, m1, p);
      }
    }
  }

  class Vspaces {
    const pt: PageTables
    var spaces: map<nat, Space>
    var data: map<Frame, Page>
    ghost var vpis: map<Key, Vpi>
    ghost var owner: map<Frame, Slot>

    ghost function Now(): Mem
      reads this, pt, pt.cm, pt.cm.core
    {
      Mem(spaces, vpis, owner, data, pt.cm.core[..], pt.tables, pt.pos, pt.cm.end)
    }

    ghost predicate Valid()
      reads this, pt, pt.cm, pt.cm.core
    {
      pt.Valid() && 0 < pt.cm.end && MemOk(Now())
    }

    /** No address space yet. */
    constructor (pt: PageTables)
      requires pt.Valid() && 0 < pt.cm.end
      ensures Valid() && this.pt == pt && spaces == map[] && data == map[] && vpis == map[]
    {
      this.pt := pt;
      spaces, data, vpis, owner := map[], map[], map[], map[];
      new;
      ghost var m := Now();
      forall f: Frame ensures FrameOk(Cow(m), f) && RoleAt(m, f) {
      }
      forall k: Key ensures KeyOk(Cow(m), k) && CoupledAt(m, k) {
      }
    }

    /** kalloc, seen from the address spaces: the frame was nobody's. */
    method Take() returns (r: Option<Frame>)
      requires Valid()
      modifies pt.cm, pt.cm.core
      ensures pt.Valid()
      ensures r.None? <==> Available(old(pt.cm.core[..])) == {}
      ensures r.None? ==> pt.cm.core[..] == old(pt.cm.core[..])
      ensures r.Some? ==>
                var f, core := r.value, old(pt.cm.core[..]);
                && pt.cm.end <= f < |core| && core[f].available && f !in pt.tables
                && pt.cm.core[..] == core[f := Allocated(core[f])]
    {
      ghost var core := pt.cm.core[..];
      r := pt.cm.Kalloc();
      if r.Some? {
        HeldAfterTake(pt.tables, core, pt.cm.end, r.value);
      }
    }

    /** A cleared vpi_page is put at the end of a region's list. */
    method AppendList(pid: nat, r: nat) returns (f: Option<Frame>)
      requires Valid() && pid in spaces && r < NREGIONS
      modifies this, pt.cm, pt.cm.core
      ensures Valid() && SpaceAt(old(Now()), pid)
      ensures f.None? ==> Now() == old(Now()) && Available(pt.cm.core[..]) == {}
      ensures f.Some? ==> f.value < |old(Now()).core| && Now() == ExtendMem(old(Now()), pid, r, f.value)
      ensures f.Some? ==> f.value in Available(old(pt.cm.core[..]))
    {
      ghost var m := Now();
      assert SpaceAt(m, pid);
      f := Take();
      if f.None? {
        return;
      }
      ExtendMemOk(m, pid, r, f.value);
      var s := spaces[pid];
      spaces := spaces[pid := s.(regions := s.regions[r := Extend(s.regions[r], f.value)])];
      owner := owner[f.value := Slot(pid, r, |s.regions[r].pages|)];
      assert Now() == ExtendMem(m, pid, r, f.value);
    }

    method ExtendList(pid: nat, r: nat) returns (ok: bool)
      requires Valid() && pid in spaces && r < NREGIONS
      modifies this, pt.cm, pt.cm.core
      ensures Valid() && Geometry(old(Now()), Now(), pid) && pid in spaces
      ensures vpis == old(vpis) && data == old(data)
      ensures SpaceAt(old(Now()), pid) && SpaceAt(Now(), pid)
      ensures !ok ==> Now() == old(Now()) && Available(pt.cm.core[..]) == {}
      ensures ok ==> |spaces[pid].regions[r].pages| == |old(spaces)[pid].regions[r].pages| + 1
      ensures ok ==> Available(old(pt.cm.core[..])) != {}
    {
      ghost var m := Now();
      var f := AppendList(pid, r);
      if f.None? {
        assert forall p: nat :: GeometryAt(m, m, pid, p);
        return false;
      }
      ExtendGeometry(m, pid, r, f.value);
      assert SpaceAt(Now(), pid);
      return true;
    }

    /** va2vpage_info: makes sure the list reaches index idx. Its first allocation is not checked. */
    method Va2VpageInfo(pid: nat, r: nat, idx: nat) returns (res: InfoResult)
      requires Valid() && pid in spaces && r < NREGIONS && SpaceAt(Now(), pid)
      modifies this, pt.cm, pt.cm.core
      ensures Valid() && Geometry(old(Now()), Now(), pid) && pid in spaces && SpaceAt(Now(), pid)
      ensures vpis == old(vpis) && data == old(data)
      ensures res.Found? ==> InList(Now(), Key(pid, r, idx))
      ensures res.NoMemory? ==> Available(pt.cm.core[..]) == {}
      ensures res.NullList? <==> old(spaces)[pid].regions[r].pages == [] && Available(old(pt.cm.core[..])) == {}
      ensures res.NullList? ==> Now() == old(Now())
      ensures !res.NullList? ==> spaces[pid].regions[r].pages != []
      ensures idx < Cap(old(spaces)[pid].regions[r]) ==> res.Found? && Now() == old(Now())
    {
      ghost var m := Now();
      assert forall p: nat :: GeometryAt(m, m, pid, p);
      if spaces[pid].regions[r].pages == [] {
        var first := ExtendList(pid, r);
        if !first {
          return NullList;
        }
      }
      var info, rest := 0, idx;
      while rest >= VPIPPAGE
        invariant idx == info * VPIPPAGE + rest && rest >= 0
        invariant Valid() && Geometry(m, Now(), pid) && pid in spaces && SpaceAt(Now(), pid)
        invariant vpis == old(vpis) && data == old(data)
        invariant info < |spaces[pid].regions[r].pages|
        invariant idx < Cap(m.spaces[pid].regions[r]) ==> Now() == m
        decreases rest
      {
        if info + 1 == |spaces[pid].regions[r].pages| {
          ghost var m1 := Now();
          var more := ExtendList(pid, r);
          GeometryTransitive(m, m1, Now(), pid);
          if !more {
            return NoMemory;
          }
        }
        info := info + 1;
        rest := rest - VPIPPAGE;
      }
      return Found;
    }

    /** vregionaddmap's loop body at page a. */
    method AddPage(pid: nat, r: nat, w: bool, a: nat, ghost m0: Mem, ghost reg: Region, ghost lo: nat, ghost hi: nat)
      returns (res: AddResult)
      requires Valid() && pid in spaces && r < NREGIONS && SpaceAt(Now(), pid) && Geometry(m0, Now(), pid)
      requires lo <= a < hi && HasSlots(reg, lo, hi) && SameRegion(reg, spaces[pid].regions[r])
      requires AddedRange(m0, Now(), pid, r, reg, w, lo, a)
      modifies this, pt.cm, pt.cm.core
      ensures Valid() && pid in spaces && SpaceAt(Now(), pid) && Geometry(m0, Now(), pid)
      ensures SameRegion(reg, spaces[pid].regions[r])
      ensures res.AddCrash? <==> old(spaces)[pid].regions[r].pages == [] && Available(old(pt.cm.core[..])) == {}
      ensures res.AddCrash? ==> Available(pt.cm.core[..]) == {}
      ensures !res.AddCrash? ==> spaces[pid].regions[r].pages != []
      ensures AddedRange(m0, Now(), pid, r, reg, w, lo, if res.Added? then a + 1 else a)
      ensures res.Failed? ==> Available(pt.cm.core[..]) == {}
      ensures res.Panicked? ==> TakenAt(m0.vpis, pid, r, reg, a)
    {
      SlotOf(reg, lo, hi, a);
      var k := Key(pid, r, Va2VpiIdx(spaces[pid].regions[r], a * 4096));
      ghost var m1 := Now();
      var found := Va2VpageInfo(pid, r, k.idx);
      ghost var m2 := Now();
      GeometryTransitive(m0, m1, m2, pid);
      assert GeometryAt(m1, m2, pid, pid);
      AddedSame(m0, m1, m2, pid, r, reg, w, lo, a);
      if !found.Found? {
        return if found.NullList? then AddCrash else Failed;
      }
      res := AddFound(k, w, a, m0, reg, lo, hi);
      assert GeometryAt(m2, Now(), pid, pid) && SpaceAt(Now(), pid);
    }

    method AddFound(k: Key, w: bool, a: nat, ghost m0: Mem, ghost reg: Region, ghost lo: nat, ghost hi: nat) returns (res: AddResult)
      requires Valid() && InList(Now(), k) && Geometry(m0, Now(), k.pid) && k.idx == Va2VpiIdx(reg, a * 4096)
      requires lo <= a < hi && HasSlots(reg, lo, hi) && SameRegion(reg, spaces[k.pid].regions[k.region])
      requires AddedRange(m0, Now(), k.pid, k.region, reg, w, lo, a)
      modifies this, pt.cm, pt.cm.core
      ensures Valid() && Geometry(m0, Now(), k.pid) && Geometry(old(Now()), Now(), k.pid)
      ensures AddedRange(m0, Now(), k.pid, k.region, reg, w, lo, if res.Added? then a + 1 else a)
      ensures !res.AddCrash? && (res.Failed? ==> Available(pt.cm.core[..]) == {})
      ensures k.pid in spaces && |spaces[k.pid].regions| == NREGIONS && spaces[k.pid].regions[k.region].pages != []
      ensures res.Panicked? ==> TakenAt(m0.vpis, k.pid, k.region, reg, a)
    {
      ghost var m2 := Now();
      assert CoupledAt(m2, k);
      assert forall p: nat :: GeometryAt(m2, m2, k.pid, p);
      if At(spaces[k.pid].regions[k.region], k.idx).used {
        SlotOf(reg, lo, hi, a);
        assert AddedAt(m0, m2, k.pid, k.region, reg, w, lo, a, k);
        return Panicked;
      }
      var f := FillPage(k, w);
      if f.None? {
        return Failed;
      }
      AddedOneMore(m0, m2, k.pid, k.region, reg, w, lo, a, hi, k, f.value);
      GeometryTransitive(m0, m2, Now(), k.pid);
      return Added;
    }

    /** The unused info k gets a cleared frame. */
    method FillPage(k: Key, w: bool) returns (f: Option<Frame>)
      requires Valid() && InList(Now(), k) && !InfoAt(Now(), k).used
      modifies this, pt.cm, pt.cm.core
      ensures Valid() && Geometry(old(Now()), Now(), k.pid)
      ensures f.None? ==> Now() == old(Now()) && Available(pt.cm.core[..]) == {}
      ensures f.Some? ==> f.value < |old(Now()).core| && f.value !in old(data) && k !in old(vpis)
      ensures f.Some? ==> Now() == MapMem(old(Now()), k, w, f.value)
    {
      ghost var m := Now();
      assert CoupledAt(m, k);
      f := Take();
      if f.None? {
        assert forall p: nat :: GeometryAt(m, m, k.pid, p);
        return;
      }
      MapMemOk(m, k, w, f.value);
      FillFrame(k, w, f.value, m);
      PutGeometry(m, k, Vpi(true, f.value, true, w, false), Now());
    }

    method FillFrame(k: Key, w: bool, f: Frame, ghost m: Mem)
      requires InList(m, k) && f < |m.core| && Now() == m.(core := m.core[f := Allocated(m.core[f])])
      requires !InfoAt(m, k).used && CoupledAt(m, k)
      modifies this`spaces, this`vpis, this`data
      ensures Now() == MapMem(m, k, w, f)
    {
      var v := At(spaces[k.pid].regions[k.region], k.idx).(used := true, present := true, writable := w, ppn := f);
      assert v == Vpi(true, f, true, w, false);
      WriteInfo(k, v, m);
      data := data[f := ZeroPage()];
    }

    /** *vpi = v, and the same in the list of used infos. */
    method WriteInfo(k: Key, v: Vpi, ghost m: Mem)
      requires InList(m, k) && m.spaces == spaces && v.used
      modifies this`spaces, this`vpis
      ensures spaces == PutInfo(m, k, v) && vpis == old(vpis)[k := v]
    {
      var s := spaces[k.pid];
      spaces := spaces[k.pid := s.(regions := s.regions[k.region := SetAt(s.regions[k.region], k.idx, v)])];
      vpis := vpis[k := v];
    }

    /** One turn of vregionaddmap's failure loop: page a is given back. */
    method DropPage(pid: nat, r: nat, w: bool, a: nat, ghost m0: Mem, ghost reg: Region, ghost lo: nat, ghost hi: nat)
      requires Valid() && pid in spaces && r < NREGIONS && SpaceAt(Now(), pid) && Geometry(m0, Now(), pid)
      requires lo <= a < hi && HasSlots(reg, lo, hi) && SameRegion(reg, spaces[pid].regions[r])
      requires AddedRange(m0, Now(), pid, r, reg, w, lo, a + 1)
      modifies this, pt.cm, pt.cm.core
      ensures Valid() && pid in spaces && SpaceAt(Now(), pid) && Geometry(m0, Now(), pid)
      ensures SameRegion(reg, spaces[pid].regions[r])
      ensures AddedRange(m0, Now(), pid, r, reg, w, lo, a)
      ensures pt.cm.freePages <= old(pt.cm.freePages) + 1
    {
      SlotOf(reg, lo, hi, a);
      ghost var m := Now();
      var k := Key(pid, r, Va2VpiIdx(spaces[pid].regions[r], a * 4096));
      AddedSlot(m0, m, pid, r, reg, w, lo, a + 1, k);
      FreePage(k);
      AddedOneLess(m0, m, pid, r, reg, w, lo, a, hi, k);
      GeometryTransitive(m0, m, Now(), pid);
      assert GeometryAt(m, Now(), pid, pid) && SpaceAt(Now(), pid);
    }

    /** The used info k is cleared and its frame freed. */
    method FreePage(k: Key)
      requires Valid() && InList(Now(), k) && k in vpis
      modifies this, pt.cm, pt.cm.core
      ensures Valid() && Geometry(old(Now()), Now(), k.pid)
      ensures old(vpis)[k].ppn < |old(Now()).core| && Now() == UnmapMem(old(Now()), k)
      ensures pt.cm.freePages <= old(pt.cm.freePages) + 1
    {
      ghost var m := Now();
      assert CoupledAt(m, k) && KeyOk(Cow(m), k);
      UnmapMemOk(m, k);
      var f := At(spaces[k.pid].regions[k.region], k.idx).ppn;
      assert RoleAt(m, f) && FrameOk(Cow(m), f);
      DropFrame(f);
      var s := spaces[k.pid];
      spaces := spaces[k.pid := s.(regions := s.regions[k.region := SetAt(s.regions[k.region], k.idx, UNUSED)])];
      vpis := vpis - {k};
      ghost var m' := UnmapMem(m, k);
      assert Now() == m';
      PutGeometry(m, k, UNUSED, m');
    }

    /** kfree of a data frame. */
    method DropFrame(f: Frame)
      requires pt.Valid() && pt.cm.end <= f < pt.cm.core.Length && f !in pt.tables && !pt.cm.core[f].available
      modifies this`data, pt.cm, pt.cm.core
      ensures pt.Valid() && pt.cm.core[..] == old(pt.cm.core[..])[f := Released(old(pt.cm.core[f]))]
      ensures data == if old(pt.cm.core[f].refcount) <= 1 then old(data) - {f} else old(data)
      ensures pt.cm.freePages <= old(pt.cm.freePages) + 1
    {
      ghost var core := pt.cm.core[..];
      HeldAfterFree(pt.tables, core, pt.cm.end, f, core[f := Released(core[f])]);
      if pt.cm.core[f].refcount <= 1 {
        data := data - {f};
      }
      var ok := pt.cm.Kfree(f);
    }

    /** vregionaddmap: all or nothing. On success exactly the pages that begin in
        [PGROUNDUP(from_va), from_va + sz) are in use that were not before, cleared; on failure every
        used page, its frame and its bytes are as they were, whatever the lists grew by, and too few
        frames are left for the pages asked for. Finding a page in use is a panic. The failure loop's
        unsigned cursor never gets below address 0. */
    method VregionAddMap(pid: nat, r: nat, fromVa: nat, sz: nat, w: bool) returns (res: AddResult)
      requires Valid() && pid in spaces && r < NREGIONS && SpaceAt(Now(), pid)
      requires HasSlots(spaces[pid].regions[r], FirstPage(fromVa, 0), FirstPage(fromVa, sz))
      modifies this, pt.cm, pt.cm.core
      ensures Valid() && pid in spaces && SpaceAt(Now(), pid) && Geometry(old(Now()), Now(), pid)
      ensures res.Added? ==> sz + fromVa < KERNBASE
      ensures res.Added? && sz > 0 ==>
                AddedRange(old(Now()), Now(), pid, r, old(spaces)[pid].regions[r], w, FirstPage(fromVa, 0), FirstPage(fromVa, sz))
      ensures res.Failed? || sz == 0 ==> vpis == old(vpis) && data == old(data)
      ensures res.Failed? ==>
                KERNBASE <= sz + fromVa || (0 < fromVa && pt.cm.freePages < FirstPage(fromVa, sz) - FirstPage(fromVa, 0))
      ensures res.Panicked? ==>
                exists a: nat :: FirstPage(fromVa, 0) <= a < FirstPage(fromVa, sz) && TakenAt(old(vpis), pid, r, old(spaces)[pid].regions[r], a)
      ensures res.AddCrash? ==>
                && FirstPage(fromVa, 0) < FirstPage(fromVa, sz) && pt.cm.freePages == 0
                && (old(spaces)[pid].regions[r].pages == [] || fromVa == 0)
    {
      ghost var m0, reg := Now(), spaces[pid].regions[r];
      assert forall p: nat :: GeometryAt(m0, m0, pid, p);
      if sz + fromVa >= KERNBASE {
        return Failed;
      }
      if sz == 0 {
        return Added;
      }
      ghost var lo, hi := FirstPage(fromVa, 0), FirstPage(fromVa, sz);
      AddedNone(m0, pid, r, reg, w, lo);
      var a := (fromVa + 4095) / 4096;
      while a * 4096 < fromVa + sz
        invariant lo <= a <= hi
        invariant Valid() && pid in spaces && SpaceAt(Now(), pid) && Geometry(m0, Now(), pid) && SameRegion(reg, spaces[pid].regions[r])
        invariant AddedRange(m0, Now(), pid, r, reg, w, lo, a)
        invariant spaces[pid].regions[r].pages == [] ==> Now() == m0
        decreases hi - a
      {
        res := AddPage(pid, r, w, a, m0, reg, lo, hi);
        if res.Panicked? {
          assert TakenAt(m0.vpis, pid, r, reg, a);
          return;
        }
        if res.AddCrash? {
          return;
        }
        if res.Failed? {
          if fromVa == 0 {
            return AddCrash;
          }
          Undo(pid, r, w, a, fromVa, m0, reg, hi);
          return;
        }
        a := a + 1;
      }
      return Added;
    }

    /** vregionaddmap's failure path: the pages before a are given back, last first. */
    method Undo(pid: nat, r: nat, w: bool, a: nat, fromVa: nat, ghost m0: Mem, ghost reg: Region, ghost hi: nat)
      requires Valid() && pid in spaces && r < NREGIONS && SpaceAt(Now(), pid) && Geometry(m0, Now(), pid) && MemOk(m0)
      requires FirstPage(fromVa, 0) <= a <= hi && 0 < fromVa
      requires HasSlots(reg, FirstPage(fromVa, 0), hi) && SameRegion(reg, spaces[pid].regions[r])
      requires AddedRange(m0, Now(), pid, r, reg, w, FirstPage(fromVa, 0), a)
      modifies this, pt.cm, pt.cm.core
      ensures Valid() && pid in spaces && SpaceAt(Now(), pid) && Geometry(m0, Now(), pid)
      ensures vpis == m0.vpis && data == m0.data
      ensures pt.cm.freePages <= old(pt.cm.freePages) + a - FirstPage(fromVa, 0)
    {
      ghost var lo := FirstPage(fromVa, 0);
      var b := a - 1;
      while b >= (fromVa + 4095) / 4096
        invariant lo - 1 <= b < a
        invariant Valid() && pid in spaces && SpaceAt(Now(), pid) && Geometry(m0, Now(), pid) && SameRegion(reg, spaces[pid].regions[r])
        invariant AddedRange(m0, Now(), pid, r, reg, w, lo, b + 1)
        invariant pt.cm.freePages <= old(pt.cm.freePages) + a - 1 - b
      {
        DropPage(pid, r, w, b, m0, reg, lo, hi);
        b := b - 1;
      }
      AddedNothing(m0, Now(), pid, r, reg, w, lo);
    }

    /** vspaceupdate of one process: its table is brought up to date, the others stay so, and no
        process sees any difference. Failure is a panic: because two regions use the same page, or for
        lack of memory, and then only if there is a page in use that was not mapped. */
    method Update(pid: nat) returns (ok: bool)
      requires Valid() && pid in spaces && Ready(spaces[pid])
      modifies pt, pt.cm, pt.cm.core
      ensures ok ==> Valid() && CleanAt(Now(), pid) && View(Cow(Now())) == View(Cow(old(Now())))
      ensures ok ==> forall p: nat :: p != pid ==> StaysCleanAt(old(Now()), Now(), p)
      ensures ok ==> forall r: Frame, v: nat :: KeptAt(old(pt.tables), old(pt.pos), pt.tables, spaces[pid].pgtbl, r, v)
      ensures !ok ==> (Available(pt.cm.core[..]) == {} && !WasMapped(old(pt.tables), spaces[pid])) || !NoOverlap(spaces[pid])
    {
      ghost var m := Now();
      assert SpaceAt(m, pid);
      PresentInfos(m, pid);
      FramesInCore(m, pid);
      ok := Rebuild(pt, spaces[pid]);
      if ok {
        TablesChange(m, Now(), spaces[pid]);
        forall p: nat | p != pid ensures StaysCleanAt(m, Now(), p) {
          OtherStaysClean(m, Now(), pid, p);
        }
      }
    }

    /** The same when every other address space is up to date. */
    method UpdateLast(pid: nat) returns (ok: bool)
      requires Valid() && pid in spaces && Ready(spaces[pid]) && OthersClean(Now(), pid)
      modifies pt, pt.cm, pt.cm.core
      ensures ok ==> Valid() && AllClean(Now()) && View(Cow(Now())) == View(Cow(old(Now())))
      ensures !ok ==> (Available(pt.cm.core[..]) == {} && !WasMapped(old(pt.tables), spaces[pid])) || !NoOverlap(spaces[pid])
    {
      ghost var m := Now();
      ok := Update(pid);
      if ok {
        AllCleanAgain(m, Now(), pid);
      }
    }

    /** Pages were added to the heap or the stack: its size is moved over them and the table rebuilt. */
    method FinishGrowth(pid: nat, r: nat, size: nat, ghost m0: Mem, ghost lo: nat, ghost hi: nat) returns (ok: bool)
      requires Valid() && MemOk(m0) && pid in m0.spaces && pid in spaces && SpaceAt(m0, pid) && SpaceAt(Now(), pid)
      requires Ready(m0.spaces[pid]) && NoOverlap(m0.spaces[pid]) && OthersClean(Now(), pid)
      requires (r == VR_HEAP || r == VR_USTACK) && size >= m0.spaces[pid].regions[r].size
      requires Geometry(m0, Now(), pid) && AddedRange(m0, Now(), pid, r, m0.spaces[pid].regions[r], true, lo, hi)
      requires forall idx: nat :: FillsGapAt(m0.spaces[pid].regions[r], size, lo, hi, idx)
      requires r == VR_HEAP ==> m0.spaces[pid].regions[r].base + size <= PML4_PAGES * 4096
      requires r == VR_USTACK ==> size % 4096 == 0 && size <= MAX_STACK * 4096
      modifies this`spaces, pt, pt.cm, pt.cm.core
      ensures ok ==> Valid() && AllClean(Now())
      ensures ok ==> spaces == old(spaces)[pid := Resize(old(spaces)[pid], r, size)]
      ensures ok ==> Sites(spaces) == Widened(Sites(m0.spaces), pid, r, size)
      ensures ok ==> GrownView(View(Cow(m0)), View(Cow(Now())), pid, r, m0.spaces[pid].regions[r], true, lo, hi)
      ensures !ok ==> Available(pt.cm.core[..]) == {} || Collides(m0.spaces[pid], r, lo, hi)
    {
      ghost var m := Now();
      GrowReady(m0, m, pid, r, size, lo, hi);
      var s := spaces[pid];
      spaces := spaces[pid := s.(regions := s.regions[r := s.regions[r].(size := size)])];
      ResizeOk(m, Now(), pid, r, size);
      ResizedSites(m0, m, pid, r, size);
      OthersResized(m, Now(), pid);
      AddedView(m0, m, pid, r, m0.spaces[pid].regions[r], true, lo, hi);
      ok := UpdateLast(pid);
      if !ok && !NoOverlap(spaces[pid]) {
        OverlapIsCollision(m0, m, pid, r, size, lo, hi);
      }
    }

    /** Region r, the heap or the stack, grows by the sz bytes from fromVa, which fill the gap between its
        old and its new end: vregionaddmap, the new size, and vspaceupdate. */
    method GrowRegion(pid: nat, r: nat, fromVa: nat, sz: nat, size: nat, ghost lo: nat, ghost hi: nat) returns (res: AddResult, ghost mid: Mem)
      requires Valid() && AllClean(Now()) && pid in spaces && CleanAt(Now(), pid) && Growable(spaces[pid], r, fromVa, sz, size, lo, hi)
      modifies this, pt, pt.cm, pt.cm.core
      ensures res.Added? || res.Failed? ==> Valid() && AllClean(Now()) && pid in spaces && CleanAt(Now(), pid)
      ensures res.Added? ==> Sites(spaces) == Widened(Sites(old(spaces)), pid, r, size)
      ensures res.Added? ==> GrownView(View(Cow(old(Now()))), View(Cow(Now())), pid, r, old(spaces)[pid].regions[r], true, lo, hi)
      ensures res.Added? ==> vpis == mid.vpis && AddedRange(old(Now()), mid, pid, r, old(spaces)[pid].regions[r], true, lo, hi)
      ensures res.Failed? ==> vpis == old(vpis) && data == old(data) && Sites(spaces) == Sites(old(spaces)) && pt.cm.freePages < hi - lo
      ensures res.Panicked? ==> Available(pt.cm.core[..]) == {} || Collides(old(spaces)[pid], r, lo, hi)
      ensures res.AddCrash? ==> Available(pt.cm.core[..]) == {} && (old(spaces)[pid].regions[r].pages == [] || fromVa == 0)
    {
      ghost var m0 := Now();
      assert SpaceAt(m0, pid);
      GapNotTaken(m0, pid, r, size, lo, hi);
      res := VregionAddMap(pid, r, fromVa, sz, true);
      mid := Now();
      OthersUntouched(m0, mid, pid);
      if res.Failed? {
        ListsGrew(m0, mid, pid);
        GeometrySites(m0, mid, pid);
        assert CleanAt(mid, pid);
      } else if res.Added? {
        var ok := FinishGrowth(pid, r, size, m0, lo, hi);
        if !ok {
          return Panicked, mid;
        }
        assert CleanAt(Now(), pid);
      }
    }

    /** sbrk: on success the heap covers exactly [base, base + size + n), the new pages read as zeroes
        and everything else is as it was; on failure nothing a process can see changed, and too few
        frames are left. It panics only when no frame is left for a table or the heap runs into another
        region, and crashes only for lack of memory, with a heap that has no list yet or begins at 0. */
    method Sbrk(pid: nat, n: int) returns (res: SbrkResult)
      requires Valid() && AllClean(Now()) && pid in spaces && n < 0x8000_0000
      requires CleanAt(Now(), pid)
      modifies this, pt, pt.cm, pt.cm.core
      ensures !res.SbrkPanic? && !res.SbrkCrash? ==> Valid() && AllClean(Now()) && pid in spaces && CleanAt(Now(), pid)
      ensures res.Moved? ==> HeapGrown(old(Now()), Now(), pid, More(n))
      ensures res.Moved? ==> res.oldTop == old(spaces)[pid].regions[VR_HEAP].base + old(spaces)[pid].regions[VR_HEAP].size
      ensures res.SbrkError? ==> SameMemory(old(Now()), Now()) && HeapDeclined(old(Now()), Now(), pid, n)
      ensures res.SbrkPanic? ==> HeapStopped(old(Now()), Now(), pid, n)
      ensures res.SbrkCrash? ==>
                var heap := old(spaces)[pid].regions[VR_HEAP];
                0 < n && Available(pt.cm.core[..]) == {} && (heap.pages == [] || heap.base + heap.size == 0)
    {
      assert SpaceAt(Now(), pid);
      var heap := spaces[pid].regions[VR_HEAP];
      var oldTop := heap.base + heap.size;
      if n <= 0 {
        HeapAsItWas(Now(), pid);
        return Moved(oldTop);
      }
      ghost var lo, hi := FirstPage(oldTop, 0), FirstPage(oldTop, n);
      HeapGrowable(spaces[pid], n);
      var added, mid := GrowRegion(pid, VR_HEAP, oldTop, n, heap.size + n, lo, hi);
      return match added case Added => Moved(oldTop) case Failed => SbrkError case Panicked => SbrkPanic case AddCrash => SbrkCrash;
    }

    /** growstack: adds the pages from the one holding `addr` up to the bottom of the stack, at most ten
        in all. The fault lies below the stack: a page of the stack is never missing. It declines only
        addresses out of reach, or for lack of memory. */
    method GrowStack(pid: nat, addr: nat) returns (res: FaultResult)
      requires Valid() && AllClean(Now()) && pid in spaces && CleanAt(Now(), pid)
      requires !Entry(pt.tables, spaces[pid].pgtbl, addr / 4096).present  // a not-present fault
      modifies this, pt, pt.cm, pt.cm.core
      ensures !res.FaultCrash? && (!res.FaultPanic? ==> Valid() && AllClean(Now()) && pid in spaces && CleanAt(Now(), pid))
      ensures res.Handled? ==> Entry(pt.tables, spaces[pid].pgtbl, addr / 4096).writable
      ensures res.Handled? ==> StackGrown(old(Now()), Now(), pid, addr)
      ensures res.Unhandled? ==> SameMemory(old(Now()), Now()) && StackDeclined(old(Now()), Now(), pid, addr)
      ensures res.FaultPanic? ==> StackStopped(old(Now()), Now(), pid, addr)
    {
      ghost var m0 := Now();
      assert SpaceAt(m0, pid);
      var stack := spaces[pid].regions[VR_USTACK];
      var page := addr / 4096 * 4096;
      if page >= stack.base || page < stack.base - 10 * 4096 {
        return Unhandled;
      }
      PresentInfos(m0, pid);
      FaultBelowStack(m0, spaces[pid], addr / 4096);
      res := StackTo(pid, addr);
    }

    /** The pages from that of `addr`, which is below the stack, up to the stack. */
    method StackTo(pid: nat, addr: nat) returns (res: FaultResult)
      requires Valid() && AllClean(Now()) && pid in spaces && CleanAt(Now(), pid)
      requires STACK_TOP - MAX_STACK <= addr / 4096 < BotPage(spaces[pid].regions[VR_USTACK])
      modifies this, pt, pt.cm, pt.cm.core
      ensures !res.FaultCrash? && (!res.FaultPanic? ==> Valid() && AllClean(Now()) && pid in spaces && CleanAt(Now(), pid))
      ensures res.Handled? ==> Entry(pt.tables, spaces[pid].pgtbl, addr / 4096).writable
      ensures res.Handled? ==> StackGrown(old(Now()), Now(), pid, addr)
      ensures res.Unhandled? ==> SameMemory(old(Now()), Now()) && StackDeclined(old(Now()), Now(), pid, addr)
      ensures res.FaultPanic? ==> StackStopped(old(Now()), Now(), pid, addr)
    {
      ghost var m0 := Now();
      assert SpaceAt(m0, pid);
      var stack, page := spaces[pid].regions[VR_USTACK], addr / 4096 * 4096;
      var sz := stack.base - stack.size - page;
      UsedListsNotEmpty(spaces[pid]);
      StackGrowable(spaces[pid], addr / 4096, page, sz);
      var added, mid := GrowRegion(pid, VR_USTACK, page, sz, stack.size + sz, addr / 4096, BotPage(stack));
      if added.Added? {
        GrownStackIsWritable(m0, mid, Now(), pid, addr, stack);
      }
      return match added case Added => Handled case Failed => Unhandled case _ => FaultPanic;
    }

    /** A user load through the hardware table reads the process's own byte. */
    method Load(pid: nat, va: nat) returns (r: Access, b: byte)
      requires Valid() && pid in spaces && CleanAt(Now(), pid) && va / 4096 < PML4_PAGES
      ensures HardwareByte(Now(), pid, va) == if r.Done? then Some(b) else None
      ensures r.Done? <==> FindUsed(spaces[pid], va / 4096, NREGIONS).Some?
      ensures r.Done? ==>
                var k := KeyOf(pid, spaces[pid], va);
                k in View(Cow(Now())) && |View(Cow(Now()))[k].bytes| == PGSIZE && b == View(Cow(Now()))[k].bytes[va % 4096]
    {
      HardwareView(Now(), pid, va);
      b := 0;
      var e := Entry(pt.tables, spaces[pid].pgtbl, va / 4096);
      if !e.present {
        return Trapped(false), b;
      }
      return Done, data[e.ppn][va % 4096];
    }

    /** A user store through the hardware table changes the process's own byte and no other process's.
        It faults on a page that is missing, read-only, or read-only for being shared. */
    method StoreUser(pid: nat, va: nat, b: byte) returns (r: Access)
      requires Valid() && AllClean(Now()) && pid in spaces && CleanAt(Now(), pid) && va / 4096 < PML4_PAGES
      modifies this`data
      ensures Valid() && AllClean(Now())
      ensures r.Done? <==> Writable(pt.tables, spaces[pid], va)
      ensures r.Trapped? ==> data == old(data)
      ensures r.Trapped? ==> (r.present <==> FindUsed(spaces[pid], va / 4096, NREGIONS).Some?)
      ensures r == Trapped(true) ==> KeyOf(pid, spaces[pid], va) in vpis && !vpis[KeyOf(pid, spaces[pid], va)].writable
      ensures r.Done? ==> FindUsed(spaces[pid], va / 4096, NREGIONS).Some?
      ensures r.Done? ==>
                View(Cow(Now())) == Apply(View(Cow(old(Now()))), Store(KeyOf(pid, spaces[pid], va), va % 4096, b))
      ensures r.Done? ==>
                KeyOf(pid, spaces[pid], va) in View(Cow(old(Now()))) && View(Cow(old(Now())))[KeyOf(pid, spaces[pid], va)].writable
    {
      ghost var m := Now();
      HardwareView(m, pid, va);
      var e := Entry(pt.tables, spaces[pid].pgtbl, va / 4096);
      if !(e.present && e.writable) {
        return Trapped(e.present);
      }
      ghost var k := KeyOf(pid, spaces[pid], va);
      StoreMemOk(m, k, va % 4096, b);
      data := data[e.ppn := data[e.ppn][va % 4096 := b]];
      assert Now() == m.(data := StoreByte(Cow(m), k, va % 4096, b).data);
      SameClean(m, Now());
      assert KeyOk(Cow(m), k);
      return Done;
    }

    /** The copy of cowcopy: k gets a frame of its own with the same bytes, writable, and the shared
        frame loses one reference. */
    method CopyShared(k: Key) returns (ok: bool)
      requires Valid() && k in vpis && vpis[k].cow
      modifies this, pt.cm, pt.cm.core
      ensures Valid() && Geometry(old(Now()), Now(), k.pid)
      ensures View(Cow(Now())) == View(Cow(old(Now())))
      ensures vpis.Keys == old(vpis).Keys && forall k' :: k' in vpis && k' != k ==> vpis[k'] == old(vpis)[k']
      ensures ok <==> Available(old(pt.cm.core[..])) != {}
      ensures !ok ==> Now() == old(Now())
      ensures ok ==> vpis[k].writable && !vpis[k].cow
    {
      ghost var m := Now();
      UsedIsInList(m, k);
      assert CoupledAt(m, k) && KeyOk(Cow(m), k) && FrameOk(Cow(m), vpis[k].ppn) && RoleAt(m, vpis[k].ppn);
      var f := Take();
      if f.None? {
        assert forall p: nat :: GeometryAt(m, m, k.pid, p);
        return false;
      }
      BreakMemOk(m, k, f.value);
      MoveToOwnFrame(k, f.value, m);
      BreakOnly(m, k, f.value);
      PutGeometry(m, k, vpis[k], Now());
      return true;
    }

    /** The bytes are copied to frame f, the shared frame is freed once, and the info names f. */
    method MoveToOwnFrame(k: Key, f: Frame, ghost m: Mem)
      requires pt.Valid() && InList(m, k) && CowEnabled(Cow(m), Event.Fault(k), f) && f != m.vpis[k].ppn
      requires Now() == m.(core := m.core[f := Allocated(m.core[f])])
      requires CoupledAt(m, k) && KeyOk(Cow(m), k) && RoleAt(m, m.vpis[k].ppn) && FrameOk(Cow(m), m.vpis[k].ppn)
      modifies this, pt.cm, pt.cm.core
      ensures pt.Valid() && Now() == BreakMem(m, k, f)
    {
      var v := At(spaces[k.pid].regions[k.region], k.idx);
      data := data[f := data[v.ppn]];
      DropFrame(v.ppn);
      WriteInfo(k, Vpi(v.used, f, v.present, true, false), m);
    }

    /** cowcopy: handles a write fault on a shared page, invisibly, so that the store then succeeds. It
        uses the region of the address unchecked, and crashes exactly when there is none. Rebuilding the
        table does not panic: it finds the frames of the old one. */
    method CowCopy(pid: nat, va: nat) returns (res: FaultResult)
      requires Valid() && AllClean(Now()) && pid in spaces && CleanAt(Now(), pid)
      modifies this, pt, pt.cm, pt.cm.core
      ensures !res.FaultPanic? && Valid() && AllClean(Now()) && pid in spaces && View(Cow(Now())) == View(Cow(old(Now())))
      ensures Sites(spaces) == Sites(old(spaces))
      ensures res.FaultCrash? <==> Va2Vregion(old(spaces)[pid], va).None?
      ensures !res.Handled? ==> Now() == old(Now())
      ensures res.Handled? <==> CowAt(old(spaces)[pid], va) && Available(old(pt.cm.core[..])) != {}
      ensures res.Handled? ==> Entry(pt.tables, spaces[pid].pgtbl, va / 4096).writable && GeometryAt(old(Now()), Now(), pid, pid)
    {
      ghost var m := Now();
      assert SpaceAt(m, pid);
      var region := Va2Vregion(spaces[pid], va);
      if region.None? {
        return FaultCrash;
      }
      var i := region.value;
      ContainedPage(spaces[pid].regions[i], va);
      PageIndex(spaces[pid].regions[i], va / 4096);
      var k := Key(pid, i, Va2VpiIdx(spaces[pid].regions[i], va));
      assert CoupledAt(m, k);
      if !At(spaces[pid].regions[i], k.idx).cow {
        return Unhandled;
      }
      res := BreakPage(k, va);
    }

    /** A marked page is copied and the table rebuilt. */
    method BreakPage(k: Key, va: nat) returns (res: FaultResult)
      requires Valid() && AllClean(Now()) && k in vpis && vpis[k].cow && k.pid in spaces && SpaceAt(Now(), k.pid) && CleanAt(Now(), k.pid)
      requires k.region < NREGIONS && InRegion(spaces[k.pid].regions[k.region], va / 4096)
      requires IdxOf(spaces[k.pid].regions[k.region], va / 4096) == k.idx
      modifies this, pt, pt.cm, pt.cm.core
      ensures (res.Handled? || res.Unhandled?) && Valid() && AllClean(Now()) && k.pid in spaces && View(Cow(Now())) == View(Cow(old(Now())))
      ensures Sites(spaces) == Sites(old(spaces))
      ensures res.Unhandled? <==> Available(old(pt.cm.core[..])) == {}
      ensures res.Unhandled? ==> Now() == old(Now())
      ensures res.Handled? ==> Entry(pt.tables, spaces[k.pid].pgtbl, va / 4096).writable && GeometryAt(old(Now()), Now(), k.pid, k.pid)
    {
      ghost var m := Now();
      var copied := CopyShared(k);
      if !copied {
        return Unhandled;
      }
      ghost var m1 := Now();
      OthersUntouched(m, m1, k.pid);
      assert GeometryAt(m, m1, k.pid, k.pid);
      ReadyAfterRewrite(m, m1, k.pid);
      GeometrySites(m, m1, k.pid);
      RefreshPage(k, va);
      return Handled;
    }

    /** The table is rebuilt after a page became writable. */
    method RefreshPage(k: Key, va: nat)
      requires Valid() && k in vpis && vpis[k].writable && k.pid in spaces && Ready(spaces[k.pid]) && OthersClean(Now(), k.pid)
      requires NoOverlap(spaces[k.pid]) && WasMapped(pt.tables, spaces[k.pid])
      requires SpaceAt(Now(), k.pid) && k.region < NREGIONS && InRegion(spaces[k.pid].regions[k.region], va / 4096)
      requires IdxOf(spaces[k.pid].regions[k.region], va / 4096) == k.idx
      modifies pt, pt.cm, pt.cm.core
      ensures Valid() && AllClean(Now()) && View(Cow(Now())) == View(Cow(old(Now())))
      ensures Entry(pt.tables, spaces[k.pid].pgtbl, va / 4096).writable
    {
      var ok := UpdateLast(k.pid);
      assert CleanAt(Now(), k.pid);
      NowWritable(Now(), k, va);
    }

    /** One info of shallow_copy_vpi_page's loop: src's page is made read-only and given to dst too. */
    method ShareInfo(ks: Key, kd: Key)
      requires Valid() && InList(Now(), ks) && InList(Now(), kd) && ks in vpis && kd !in vpis && ks != kd
      modifies this, pt.cm.core
      ensures Valid() && old(vpis)[ks].ppn < |old(Now()).core| && Now() == ShareMem(old(Now()), ks, kd)
    {
      ghost var m := Now();
      assert CoupledAt(m, ks) && KeyOk(Cow(m), ks) && FrameOk(Cow(m), vpis[ks].ppn) && RoleAt(m, vpis[ks].ppn);
      ShareMemOk(m, ks, kd);
      var f := At(spaces[ks.pid].regions[ks.region], ks.idx).ppn;
      ShareWrite(ks, kd, m);
      ghost var core := pt.cm.core[..];
      var ok := pt.cm.IncrementRefcount(f);
      HeldAfterShare(pt.tables, core, pt.cm.end, f);
      assert Now() == ShareMem(m, ks, kd);
    }

    method ShareWrite(ks: Key, kd: Key, ghost m: Mem)
      requires m.spaces == spaces && m.vpis == vpis && InList(m, ks) && InList(m, kd) && ks in vpis && kd !in vpis && ks != kd
      requires CoupledAt(m, ks) && vpis[ks].ppn < |m.core| && KeyOk(Cow(m), ks)
      modifies this`spaces, this`vpis
      ensures spaces == ShareMem(m, ks, kd).spaces && vpis == ShareMem(m, ks, kd).vpis
    {
      var v := At(spaces[ks.pid].regions[ks.region], ks.idx);
      var shared := v.(writable := false, cow := v.writable || v.cow);
      SetAtOnly(spaces[ks.pid].regions[ks.region], ks.idx, shared, 0);
      WriteInfo(ks, shared, m);
      ghost var m1 := m.(spaces := spaces, vpis := vpis);
      WriteInfo(kd, At(spaces[kd.pid].regions[kd.region], kd.idx).(
                  used := v.used, present := v.present, cow := v.writable || v.cow, writable := false, ppn := v.ppn), m1);
    }

    /** shallow_copy_vpi_page's loop over the infos of one vpi_page, the j'th. */
    method ShareInfos(src: nat, dst: nat, r: nat, j: nat, ghost m0: Mem)
      requires Valid() && Forking(m0, Now(), src, dst, r, j * VPIPPAGE, j + 1) && j < |m0.spaces[src].regions[r].pages|
      modifies this, pt.cm.core
      ensures Valid() && Forking(m0, Now(), src, dst, r, (j + 1) * VPIPPAGE, j + 1)
    {
      var i := 0;
      while i < VPIPPAGE
        invariant 0 <= i <= VPIPPAGE && Valid() && Forking(m0, Now(), src, dst, r, j * VPIPPAGE + i, j + 1)
      {
        ghost var m := Now();
        var n := j * VPIPPAGE + i;
        ForkingSlot(m0, m, src, dst, r, n, j + 1);
        if At(spaces[src].regions[r], n).used {
          ShareInfo(Key(src, r, n), Key(dst, r, n));
          ForkingShare(m0, m, src, dst, r, n, j + 1);
        } else {
          SharedSkip(m0, m, src, dst, r, n);
        }
        i := i + 1;
      }
    }

    /** shallow_copy_vpi_page: the list from its j'th page on. */
    method ShallowCopyVpiPage(src: nat, dst: nat, r: nat, j: nat, ghost m0: Mem) returns (ok: bool)
      requires Valid() && Forking(m0, Now(), src, dst, r, j * VPIPPAGE, j) && j <= |m0.spaces[src].regions[r].pages|
      modifies this, pt.cm, pt.cm.core
      ensures Valid()
      ensures ok ==> var n := |m0.spaces[src].regions[r].pages|; Forking(m0, Now(), src, dst, r, n * VPIPPAGE, n)
      ensures !ok ==> Available(pt.cm.core[..]) == {} && Halfway(m0, Now(), src, dst)
      decreases |m0.spaces[src].regions[r].pages| - j
    {
      assert ForkRegionAt(m0, Now(), src, dst, r);
      if j == |spaces[src].regions[r].pages| {
        return true;
      }
      ghost var m := Now();
      var f := AppendList(dst, r);
      if f.None? {
        return false;
      }
      ForkingExtend(m0, m, Now(), src, dst, r, j * VPIPPAGE, j, f.value);
      ShareInfos(src, dst, r, j, m0);
      ok := ShallowCopyVpiPage(src, dst, r, j + 1, m0);
    }

    /** vspaceinit: an address space with the kernel mapped and three empty regions. */
    method VspaceInit(pid: nat, kmap: seq<KMap>) returns (res: CallResult)
      requires Valid() && pid !in spaces && forall i :: 0 <= i < |kmap| ==> KernelRange(kmap[i])
      modifies this, pt, pt.cm, pt.cm.core
      ensures res.Succeeded? ==> Valid() && vpis == old(vpis) && data == old(data) && View(Cow(Now())) == View(Cow(old(Now())))
      ensures res.Succeeded? ==> spaces.Keys == old(spaces).Keys + {pid} && forall p :: p in old(spaces) ==> spaces[p] == old(spaces)[p]
      ensures res.Succeeded? ==> forall p: nat :: p != pid ==> StaysCleanAt(old(Now()), Now(), p)
      ensures res.Succeeded? ==> forall k: Key :: k in vpis ==> k.pid != pid
      ensures res.Succeeded? ==> forall v: nat :: KernelAt(pt.tables, spaces[pid].pgtbl, kmap, |kmap|, v)
      ensures !res.Succeeded? ==> Available(pt.cm.core[..]) == {} || (res.Halted? && KMapOverlaps(kmap))
      ensures res.OutOfFrames? ==> Valid() && Now() == old(Now())
      ensures res.Succeeded? ==> spaces[pid].regions == [Region(Up, 0, 0, []), Region(Up, 0, 0, []), Region(Down, 0, 0, [])]
    {
      ghost var m := Now();
      var root, panicked := SetupKvm(pt, kmap);
      if root.None? {
        return if panicked then Halted else OutOfFrames;
      }
      ghost var m1 := Now();
      TablesChange(m, m1, Space([], root.value));
      RootIsNew(m, root.value);
      var s := Space([Region(Up, 0, 0, []), Region(Up, 0, 0, []), Region(Down, 0, 0, [])], root.value);
      spaces := spaces[pid := s];
      NewSpaceOk(m1, Now(), pid, s);
      NewSpaceStaysClean(m, m1, Now(), pid, s);
      return Succeeded;
    }

    /** vspacecowcopy up to the table updates: dst gets src's regions and shares all its pages. */
    method ShareRegions(src: nat, dst: nat) returns (ok: bool, ghost m0: Mem)
      requires Valid() && src in spaces && dst in spaces && src != dst && Ready(spaces[src])
      requires |spaces[dst].regions| == NREGIONS && forall i :: 0 <= i < NREGIONS ==> spaces[dst].regions[i].pages == []
      requires forall k: Key :: k in vpis ==> k.pid != dst
      modifies this, pt.cm, pt.cm.core
      ensures Valid() && MemOk(m0) && View(Cow(m0)) == View(Cow(old(Now()))) && m0.data == old(data)
      ensures m0.spaces.Keys == old(spaces).Keys && forall p :: p in old(spaces) && p != dst ==> m0.spaces[p] == old(spaces)[p]
      ensures ok ==> SharedSoFar(m0, Now(), src, dst, NREGIONS, 0) && ForkGeom(m0, Now(), src, dst)
      ensures ok ==> src in spaces && dst in spaces && Ready(spaces[src]) && Ready(spaces[dst])
      ensures ok && NoOverlap(old(spaces)[src]) ==> NoOverlap(spaces[src]) && NoOverlap(spaces[dst])
      ensures ok ==> spaces[dst].pgtbl == old(spaces)[dst].pgtbl
      ensures !ok ==> Available(pt.cm.core[..]) == {} && Halfway(m0, Now(), src, dst)
    {
      ghost var m := Now();
      assert SpaceAt(m, src) && SpaceAt(m, dst);
      var from := spaces[src].regions;
      var regions := [from[0].(pages := []), from[1].(pages := []), from[2].(pages := [])];
      spaces := spaces[dst := spaces[dst].(regions := regions)];
      m0 := Now();
      PlaceRegionsOk(m, m0, dst, regions);
      ForkingStart(m0, src, dst);
      ok := ShareLists(src, dst, m0);
      if ok {
        ForkReady(m0, Now(), src, dst);
        assert ForkGeomAt(m0, Now(), src, dst, dst);
      }
    }

    /** vspacecowcopy's loop over the regions. */
    method ShareLists(src: nat, dst: nat, ghost m0: Mem) returns (ok: bool)
      requires Valid() && Forking(m0, Now(), src, dst, 0, 0, 0)
      modifies this, pt.cm, pt.cm.core
      ensures Valid()
      ensures ok ==> SharedSoFar(m0, Now(), src, dst, NREGIONS, 0) && ForkGeom(m0, Now(), src, dst)
      ensures ok ==> dst in spaces && |spaces[dst].regions| == NREGIONS
      ensures ok ==> forall i :: 0 <= i < NREGIONS ==> |spaces[dst].regions[i].pages| >= |m0.spaces[src].regions[i].pages|
      ensures !ok ==> Available(pt.cm.core[..]) == {} && Halfway(m0, Now(), src, dst)
    {
      var r := 0;
      while r < NREGIONS
        invariant 0 <= r <= NREGIONS && Valid()
        invariant r < NREGIONS ==> Forking(m0, Now(), src, dst, r, 0, 0)
        invariant r == NREGIONS ==> SharedSoFar(m0, Now(), src, dst, r, 0) && ForkGeom(m0, Now(), src, dst)
        invariant r == NREGIONS ==> dst in spaces && |spaces[dst].regions| == NREGIONS
        invariant r == NREGIONS ==> forall i :: 0 <= i < NREGIONS ==> |spaces[dst].regions[i].pages| >= |m0.spaces[src].regions[i].pages|
      {
        ok := ShallowCopyVpiPage(src, dst, r, 0, m0);
        if !ok {
          return;
        }
        ghost var n := |m0.spaces[src].regions[r].pages|;
        ForkingNext(m0, Now(), src, dst, r, n * VPIPPAGE, n);
        r := r + 1;
      }
      return true;
    }

    /** fork's memory: vspaceinit and vspacecowcopy. When it succeeds the child has the parent's pages,
        byte for byte and with the same right to write them, and the kernel in its table; no process
        sees anything else change; and not one data frame was copied. It fails only for lack of memory,
        and then every process but the unfinished child sees what it saw; it panics only for lack of
        memory or if two ranges of the kernel map share a page. */
    method Fork(parent: nat, child: nat, kmap: seq<KMap>) returns (res: CallResult)
      requires Valid() && AllClean(Now()) && parent in spaces && child !in spaces
      requires forall i :: 0 <= i < |kmap| ==> KernelRange(kmap[i])
      modifies this, pt, pt.cm, pt.cm.core
      ensures res.Succeeded? ==> Valid() && AllClean(Now()) && spaces.Keys == old(spaces).Keys + {child}
      ensures res.Succeeded? ==> Forked(View(Cow(old(Now()))), View(Cow(Now())), parent, child)
      ensures res.Succeeded? ==> Sites(spaces) == Sites(old(spaces))[child := SitesOf(old(spaces)[parent])]
      ensures res.Succeeded? ==> data == old(data)
      ensures res.Succeeded? ==> forall v: nat :: PML4_PAGES <= v ==> KernelAt(pt.tables, spaces[child].pgtbl, kmap, |kmap|, v)
      ensures !res.Succeeded? ==> Available(pt.cm.core[..]) == {} || (res.Halted? && KMapOverlaps(kmap))
      ensures res.OutOfFrames? ==> Valid() && OthersSee(View(Cow(old(Now()))), View(Cow(Now())), child) && data == old(data)
    {
      ghost var m := Now();
      assert CleanAt(m, parent);
      res := VspaceInit(child, kmap);
      if !res.Succeeded? {
        SameSeen(View(Cow(m)), child);
        return;
      }
      ghost var m1 := Now();
      assert parent in m1.spaces && StaysCleanAt(m, m1, parent);
      res := VspaceCowCopy(child, parent, m);
      if res.Succeeded? {
        KernelMapKept(m1.tables, pt.tables, spaces[child].pgtbl, kmap);
        NewSites(m.spaces, m1.spaces, child, SitesOf(m.spaces[parent]));
      }
    }

    /** vspacecowcopy: shares every page of src with dst, which has none, and updates both tables. */
    method VspaceCowCopy(dst: nat, src: nat, ghost m: Mem) returns (res: CallResult)
      requires Valid() && AllClean(m) && src != dst && src in spaces && dst in spaces && CleanAt(Now(), src)
      requires |spaces[dst].regions| == NREGIONS && forall i :: 0 <= i < NREGIONS ==> spaces[dst].regions[i].pages == []
      requires forall k: Key :: k in vpis ==> k.pid != dst
      requires spaces.Keys == m.spaces.Keys + {dst} && (forall p :: p in m.spaces ==> spaces[p] == m.spaces[p])
      requires forall p: nat :: p != dst ==> StaysCleanAt(m, Now(), p)
      modifies this, pt, pt.cm, pt.cm.core
      ensures res.Succeeded? ==> Valid() && AllClean(Now()) && spaces.Keys == old(spaces).Keys && spaces[dst].pgtbl == old(spaces)[dst].pgtbl
      ensures res.Succeeded? ==> Forked(View(Cow(old(Now()))), View(Cow(Now())), src, dst) && data == old(data)
      ensures res.Succeeded? ==> Sites(spaces) == Sites(old(spaces))[dst := SitesOf(old(spaces)[src])]
      ensures res.Succeeded? ==> forall v: nat :: KernelHalfKeptAt(old(pt.tables), pt.tables, spaces[dst].pgtbl, v)
      ensures !res.Succeeded? ==> Available(pt.cm.core[..]) == {}
      ensures res.OutOfFrames? ==> Valid() && OthersSee(View(Cow(old(Now()))), View(Cow(Now())), dst) && data == old(data)
    {
      ghost var m1 := Now();
      var ok, m0 := ShareRegions(src, dst);
      if !ok {
        HalfwaySeen(m0, Now(), src, dst);
        return OutOfFrames;
      }
      ghost var m2 := Now();
      SharedDone(m0, m2, src, dst);
      ok := UpdateBoth(dst, src);
      if !ok {
        return Halted;
      }
      ForkAllClean(m, m1, m0, m2, Now(), src, dst);
      ForkSites(m1, m0, m2, src, dst);
      return Succeeded;
    }

    /** vspacecowcopy's two table updates. */
    method UpdateBoth(dst: nat, src: nat) returns (ok: bool)
      requires Valid() && src in spaces && dst in spaces && src != dst && Ready(spaces[src]) && Ready(spaces[dst])
      modifies pt, pt.cm, pt.cm.core
      ensures ok ==> Valid() && CleanAt(Now(), src) && CleanAt(Now(), dst) && View(Cow(Now())) == View(Cow(old(Now())))
      ensures ok ==> forall p: nat :: p != src && p != dst ==> StaysCleanAt(old(Now()), Now(), p)
      ensures ok ==> forall v: nat :: KernelHalfKeptAt(old(pt.tables), pt.tables, spaces[dst].pgtbl, v)
      ensures !ok ==> Available(pt.cm.core[..]) == {} || !NoOverlap(spaces[src]) || !NoOverlap(spaces[dst])
    {
      ghost var m := Now();
      ok := Update(dst);
      if !ok {
        return;
      }
      ghost var m1 := Now();
      ok := Update(src);
      if ok {
        assert StaysCleanAt(m1, Now(), dst);
        forall p: nat | p != src && p != dst ensures StaysCleanAt(m, Now(), p) {
          assert StaysCleanAt(m, m1, p) && StaysCleanAt(m1, Now(), p);
        }
        KernelHalfKept(m, m1, Now(), dst, src);
      }
    }

    /** free_page_desc_list: the pages of region r's list from the j'th on are freed, last first. */
    method FreePageDescList(pid: nat, r: nat, j: nat, ghost m: Mem)
      requires MemOk(m) && pid in m.spaces && SpaceAt(m, pid) && r < NREGIONS && j <= |m.spaces[pid].regions[r].pages|
      requires pt.Valid() && pid in spaces && spaces[pid] == m.spaces[pid] && m.tables == pt.tables && m.end == pt.cm.end
      requires |m.core| == pt.cm.core.Length
      requires TornTo(m.core, DoneFrames(m.owner, pid, r, |m.spaces[pid].regions[r].pages|), pt.cm.core[..])
      modifies pt.cm, pt.cm.core
      ensures pt.Valid() && TornTo(m.core, DoneFrames(m.owner, pid, r, j), pt.cm.core[..])
      decreases |m.spaces[pid].regions[r].pages| - j
    {
      if j == |spaces[pid].regions[r].pages| {
        return;
      }
      FreePageDescList(pid, r, j + 1, m);
      ghost var core := pt.cm.core[..];
      FreeOneOfList(m, core, pid, r, j);
      var f := spaces[pid].regions[r].pages[j].frame;
      HeldAfterFree(pt.tables, core, pt.cm.end, f, core[f := Released(core[f])]);
      var ok := pt.cm.Kfree(f);
      assert pt.cm.core[..] == core[f := Released(core[f])];
    }

    /** vspacefree's loop over the regions. */
    method FreeLists(pid: nat, ghost m: Mem)
      requires Valid() && pid in spaces && m == Now() && SpaceAt(m, pid)
      modifies pt.cm, pt.cm.core
      ensures pt.Valid() && TornTo(m.core, ListFrames(m.owner, pid), pt.cm.core[..])
    {
      NoList(m, pid, |spaces[pid].regions[0].pages|);
      var r := 0;
      while r < NREGIONS
        invariant 0 <= r <= NREGIONS && pt.Valid()
        invariant r < NREGIONS ==>
                    TornTo(m.core, DoneFrames(m.owner, pid, r, |m.spaces[pid].regions[r].pages|), pt.cm.core[..])
        invariant r == NREGIONS ==> TornTo(m.core, ListFrames(m.owner, pid), pt.cm.core[..])
      {
        FreePageDescList(pid, r, 0, m);
        NextList(m, pid, r, if r + 1 < NREGIONS then |m.spaces[pid].regions[r + 1].pages| else 0);
        r := r + 1;
      }
    }

    /** vspacefree: the process's lists, pages and tables go; every frame that nothing else refers to
        becomes available, and no other; the other processes see what they saw. */
    method VspaceFree(pid: nat)
      requires Valid() && AllClean(Now()) && pid in spaces
      modifies this, pt, pt.cm, pt.cm.core
      ensures Valid() && AllClean(Now()) && spaces == old(spaces) - {pid}
      ensures Reaped(View(Cow(old(Now()))), View(Cow(Now())), pid)
      ensures Available(pt.cm.core[..]) == Available(old(pt.cm.core[..])) + Reclaimed(old(Now()), pid)
    {
      ghost var m := Now();
      assert CleanAt(m, pid) && SpaceAt(m, pid);
      FreeLists(pid, m);
      ghost var core1 := pt.cm.core[..];
      ReleasableAfterLists(m, core1, pid);
      var root := spaces[pid].pgtbl;
      forall v | 0 <= v < USER_PAGES ensures !Stuck(pt.tables, root, v) {
        NeverStuck(m, m.spaces[pid], v);
      }
      pt.Freevm(root);
      forall f: Frame
        ensures GoneCoreAt(m, pt.cm.core[..], pid, f, ListFrames(m.owner, pid), RootSet(m.pos, root), |KeysNaming(m.vpis, pid, f)|)
      {
        FreedCore(m, core1, pt.cm.core[..], pid, f);
      }
      Forget(pid, m);
      GoneInv(m, Now(), pid);
      GoneShape(m, Now(), pid);
      GoneView(m, Now(), pid);
      GoneClean(m, Now(), pid);
      GoneAvailable(m, Now(), pt.cm.end, pid);
    }

    /** The process has no regions any more, and an available frame no contents. */
    method Forget(pid: nat, ghost m: Mem)
      requires pid in m.spaces && Now() == m.(core := pt.cm.core[..], tables := pt.tables, pos := pt.pos)
      requires pt.pos == m.pos - RootSet(m.pos, m.spaces[pid].pgtbl) && |m.core| == pt.cm.core.Length && m.end == pt.cm.end
      requires forall f: Frame ::
                 GoneCoreAt(m, pt.cm.core[..], pid, f, ListFrames(m.owner, pid), RootSet(m.pos, m.spaces[pid].pgtbl), |KeysNaming(m.vpis, pid, f)|)
      modifies this
      ensures Gone(m, Now(), pid)
    {
      spaces := spaces - {pid};
      data := map f | f in data && f < pt.cm.core.Length && !pt.cm.core[f].available :: data[f];
      vpis := map k | k in vpis && k.pid != pid :: vpis[k];
      owner := owner - ListFrames(owner, pid);
      ghost var m' := Now();
      forall k: Key ensures GoneKeyAt(m, m', pid, k) {
      }
      forall f: Frame ensures GoneAt(m, m', pid, f) {
        assert GoneCoreAt(m, pt.cm.core[..], pid, f, ListFrames(m.owner, pid), RootSet(m.pos, m.spaces[pid].pgtbl), |KeysNaming(m.vpis, pid, f)|);
      }
    }

    /** A page fault, as trap dispatches it: a write to a present page may be a shared one, a user
        access to a missing page may be the stack growing. Anything else is not handled: the process is
        killed, or the kernel panics if the fault was its own. */
    method PageFault(pid: nat, addr: nat, present: bool, write: bool, user: bool) returns (res: FaultResult)
      requires Valid() && AllClean(Now()) && pid in spaces && CleanAt(Now(), pid)
      requires Entry(pt.tables, spaces[pid].pgtbl, addr / 4096).present == present
      modifies this, pt, pt.cm, pt.cm.core
      ensures !res.FaultPanic? ==> Valid() && AllClean(Now()) && pid in spaces && CleanAt(Now(), pid)
      ensures res.FaultCrash? <==> present && write && Va2Vregion(old(spaces)[pid], addr).None?
      ensures !res.Handled? && !res.FaultPanic? ==> SameMemory(old(Now()), Now())
      ensures present ==> Sites(spaces) == Sites(old(spaces))
      ensures present ==> !res.FaultPanic? && View(Cow(Now())) == View(Cow(old(Now())))
      ensures present && !res.Handled? ==> Now() == old(Now())
      ensures present && res.Handled? ==> GeometryAt(old(Now()), Now(), pid, pid)
      ensures res.Handled? ==> Entry(pt.tables, spaces[pid].pgtbl, addr / 4096).writable
      ensures !present && res.Handled? ==> user && StackGrown(old(Now()), Now(), pid, addr)
      ensures !present && user && res.Unhandled? ==> StackDeclined(old(Now()), Now(), pid, addr)
      ensures res.FaultPanic? ==> !present && user && StackStopped(old(Now()), Now(), pid, addr)
      ensures present ==> (res.Handled? <==> write && CowAt(old(spaces)[pid], addr) && Available(old(pt.cm.core[..])) != {})
    {
      if present && write {
        res := CowCopy(pid, addr);
        assert CleanAt(Now(), pid);
      } else if !present && user {
        res := GrowStack(pid, addr);
      } else {
        res := Unhandled;
      }
    }

    /** A user store instruction, which the hardware retries when its fault was handled. `mid` is the state
        in which it succeeds: what the processes see is then as it was, or with a longer stack. A page the
        process may write is written, if need be after one copy, for which one available frame is enough,
        unless the address is past the end of the region that uses its page; a page it may not write is
        not; and no other byte of any process changes. */
    method StoreInstruction(pid: nat, va: nat, b: byte) returns (r: FaultResult, ghost mid: Mem)
      requires Valid() && AllClean(Now()) && pid in spaces && CleanAt(Now(), pid) && va / 4096 < PML4_PAGES
      modifies this, pt, pt.cm, pt.cm.core
      ensures !r.FaultPanic? ==> Valid() && AllClean(Now()) && pid in spaces
      ensures r.Handled? ==> Stored(mid, Now(), pid, va, b)
      ensures FindUsed(old(spaces)[pid], va / 4096, NREGIONS).Some? ==> !r.FaultPanic? && SameSight(old(Now()), mid)
      ensures FindUsed(old(spaces)[pid], va / 4096, NREGIONS).None? ==> !r.FaultCrash?
      ensures FindUsed(old(spaces)[pid], va / 4096, NREGIONS).None? && r.Handled? ==> StackGrown(old(Now()), mid, pid, va)
      ensures r.Unhandled? || r.FaultCrash? ==> SameSight(old(Now()), Now())
      ensures r.FaultCrash? ==> Va2Vregion(old(spaces)[pid], va).None?
      ensures (&& OwnsPage(old(Now()), pid, va) && Available(old(pt.cm.core[..])) != {}
               && Va2Vregion(old(spaces)[pid], va) == FindUsed(old(spaces)[pid], va / 4096, NREGIONS)) ==> r.Handled?
    {
      ghost var m := Now();
      HardwareView(m, pid, va);
      mid := m;
      var first := StoreUser(pid, va, b);
      if first.Done? {
        return Handled, mid;
      }
      assert Now() == m;
      FaultIsOwn(m, pid, va);
      r := PageFault(pid, va, first.present, true, true);
      if !r.Handled? {
        return;
      }
      mid := Now();
      Retry(pid, va, b);
    }

    /** The store after its fault was handled. */
    method Retry(pid: nat, va: nat, b: byte)
      requires Valid() && AllClean(Now()) && pid in spaces && va / 4096 < PML4_PAGES
      requires Entry(pt.tables, spaces[pid].pgtbl, va / 4096).writable
      modifies this`data
      ensures Valid() && AllClean(Now()) && Stored(old(Now()), Now(), pid, va, b)
    {
      ghost var m := Now();
      assert CleanAt(m, pid);
      HardwareView(m, pid, va);
      assert ReflectsAt(m.tables, m.spaces[pid], va / 4096);
      var r := StoreUser(pid, va, b);
    }
  }

  lemma HeldAfterShare(tables: Tables, core: seq<CoreEntry>, end: nat, f: Frame)
    requires AllHeld(tables, core, end) && f < |core| && f !in tables
    ensures AllHeld(tables, core[f := Referenced(core[f])], end)
  {
    var core' := core[f := Referenced(core[f])];
    forall g: Frame ensures Held(tables, core', end, g) {
      assert Held(tables, core, end, g);
    }
  }
}
