/** Fork, page by page: how far shallow_copy_vpi_page has got, and what the processes see. */
module ForkState {
  import opened Kalloc
  import opened CopyOnWrite
  import opened Regions
  import opened VspaceUpdate
  import opened VspaceState
  import opened Layout

  /** The slot comes before slot n of region r. */
  predicate Before(k: Key, r: nat, n: nat) {
    k.region < r || (k.region == r && k.idx < n)
  }

  /** Slot k when the slots before n of region r have been carried over from src to dst. */
  predicate SharedAt(m0: Mem, m: Mem, src: nat, dst: nat, r: nat, n: nat, k: Key) {
    if k.pid == dst then
      && (k in m.vpis <==> Before(k, r, n) && Key(src, k.region, k.idx) in m0.vpis)
      && (k in m.vpis ==> m.vpis[k] == Shared(m0.vpis[Key(src, k.region, k.idx)]))
    else
      && (k in m.vpis <==> k in m0.vpis)
      && (k in m.vpis ==> m.vpis[k] == if k.pid == src && Before(k, r, n) then Shared(m0.vpis[k]) else m0.vpis[k])
  }

  ghost predicate SharedSoFar(m0: Mem, m: Mem, src: nat, dst: nat, r: nat, n: nat) {
    m.data == m0.data && forall k: Key :: SharedAt(m0, m, src, dst, r, n, k)
  }

  lemma SharedStep(m0: Mem, m: Mem, src: nat, dst: nat, r: nat, n: nat)
    requires src != dst && SharedSoFar(m0, m, src, dst, r, n)
    requires var ks, kd := Key(src, r, n), Key(dst, r, n);
             InList(m, ks) && InList(m, kd) && ks in m.vpis && m.vpis[ks].ppn < |m.core|
    ensures SharedSoFar(m0, ShareMem(m, Key(src, r, n), Key(dst, r, n)), src, dst, r, n + 1)
  {
    var ks, n' := Key(src, r, n), n + 1;
    var m' := ShareMem(m, ks, Key(dst, r, n));
    assert SharedAt(m0, m, src, dst, r, n, ks);
    forall k: Key ensures SharedAt(m0, m', src, dst, r, n', k) {
      assert SharedAt(m0, m, src, dst, r, n, k);
    }
  }

  lemma SharedSkip(m0: Mem, m: Mem, src: nat, dst: nat, r: nat, n: nat)
    requires SharedSoFar(m0, m, src, dst, r, n) && Key(src, r, n) !in m0.vpis
    ensures SharedSoFar(m0, m, src, dst, r, n + 1)
  {
    var n' := n + 1;
    forall k: Key ensures SharedAt(m0, m, src, dst, r, n', k) {
      assert SharedAt(m0, m, src, dst, r, n, k);
    }
  }

  lemma SharedSame(m0: Mem, m: Mem, m': Mem, src: nat, dst: nat, r: nat, n: nat)
    requires SharedSoFar(m0, m, src, dst, r, n) && m'.vpis == m.vpis && m'.data == m.data
    ensures SharedSoFar(m0, m', src, dst, r, n)
  {
    forall k: Key ensures SharedAt(m0, m', src, dst, r, n, k) {
      assert SharedAt(m0, m, src, dst, r, n, k);
    }
  }

  /** The list is done: on to the next region. */
  lemma SharedRegion(m0: Mem, m: Mem, src: nat, dst: nat, r: nat, n: nat)
    requires SharedSoFar(m0, m, src, dst, r, n)
    requires forall k: Key :: k in m0.vpis && k.pid == src && k.region == r ==> k.idx < n
    ensures SharedSoFar(m0, m, src, dst, r + 1, 0)
  {
    var r' := r + 1;
    forall k: Key ensures SharedAt(m0, m, src, dst, r', 0, k) {
      assert SharedAt(m0, m, src, dst, r, n, k);
      var ks := Key(src, k.region, k.idx);
      assert ks in m0.vpis && ks.region == r ==> ks.idx < n;
    }
  }

  lemma SharedStart(m0: Mem, m: Mem, src: nat, dst: nat)
    requires m.vpis == m0.vpis && m.data == m0.data
    requires forall k: Key :: k in m0.vpis ==> k.pid != dst
    ensures SharedSoFar(m0, m, src, dst, 0, 0)
  {
    forall k: Key ensures SharedAt(m0, m, src, dst, 0, 0, k) {
    }
  }

  /** Fork, as the processes see it: the child has the parent's pages, with the same bytes and the same
      right to write them, and nobody else notices. */
  predicate ForkedAt(v0: Memory, v: Memory, src: nat, dst: nat, k: Key) {
    var from := if k.pid == dst then Key(src, k.region, k.idx) else k;
    (k in v <==> from in v0) && (k in v ==> v[k] == v0[from])
  }

  ghost predicate Forked(v0: Memory, v: Memory, src: nat, dst: nat) {
    forall k: Key :: ForkedAt(v0, v, src, dst, k)
  }

  lemma SharedDone(m0: Mem, m: Mem, src: nat, dst: nat)
    requires MemOk(m0) && MemOk(m) && src != dst && SharedSoFar(m0, m, src, dst, NREGIONS, 0)
    ensures Forked(View(Cow(m0)), View(Cow(m)), src, dst)
  {
    var v0, v := View(Cow(m0)), View(Cow(m));
    forall k: Key ensures ForkedAt(v0, v, src, dst, k) {
      var from := if k.pid == dst then Key(src, k.region, k.idx) else k;
      assert SharedAt(m0, m, src, dst, NREGIONS, 0, k) && KeyOk(Cow(m0), from) && KeyOk(Cow(m), k);
      assert CoupledAt(m0, from);
    }
  }

  /** Sharing stopped somewhere on the way. */
  ghost predicate Halfway(m0: Mem, m: Mem, src: nat, dst: nat) {
    exists r: nat, n: nat :: SharedSoFar(m0, m, src, dst, r, n)
  }

  predicate SameForAt(v0: Memory, v: Memory, dst: nat, k: Key) {
    k.pid != dst ==> (k in v <==> k in v0) && (k in v ==> v[k] == v0[k])
  }

  /** Every process but dst sees what it saw. */
  ghost predicate OthersSee(v0: Memory, v: Memory, dst: nat) {
    forall k: Key :: SameForAt(v0, v, dst, k)
  }

  lemma HalfwaySeen(m0: Mem, m: Mem, src: nat, dst: nat)
    requires MemOk(m0) && MemOk(m) && Halfway(m0, m, src, dst)
    ensures OthersSee(View(Cow(m0)), View(Cow(m)), dst)
  {
    var r: nat, n: nat :| SharedSoFar(m0, m, src, dst, r, n);
    var v0, v := View(Cow(m0)), View(Cow(m));
    forall k: Key ensures SameForAt(v0, v, dst, k) {
      assert SharedAt(m0, m, src, dst, r, n, k) && KeyOk(Cow(m0), k) && KeyOk(Cow(m), k);
    }
  }

  // ---- the regions while the lists are built ----

  /** The child's regions are the parent's, but for lists not yet copied; nobody else's change. */
  predicate ForkGeomAt(m0: Mem, m: Mem, src: nat, dst: nat, p: nat) {
    && (p in m.spaces <==> p in m0.spaces)
    && (p in m0.spaces && p != src && p != dst ==> m.spaces[p] == m0.spaces[p])
    && (p in m0.spaces ==> m.spaces[p].pgtbl == m0.spaces[p].pgtbl && |m.spaces[p].regions| == NREGIONS)
  }

  predicate SamePlace(r: Region, r': Region) {
    r'.dir == r.dir && r'.base == r.base && r'.size == r.size
  }

  predicate ForkRegionAt(m0: Mem, m: Mem, src: nat, dst: nat, i: nat) {
    i < NREGIONS && src in m0.spaces && |m0.spaces[src].regions| == NREGIONS
    && src in m.spaces && |m.spaces[src].regions| == NREGIONS && dst in m.spaces && |m.spaces[dst].regions| == NREGIONS ==>
      && SamePlace(m0.spaces[src].regions[i], m.spaces[src].regions[i])
      && |m.spaces[src].regions[i].pages| == |m0.spaces[src].regions[i].pages|
      && SamePlace(m0.spaces[src].regions[i], m.spaces[dst].regions[i])
  }

  ghost predicate ForkGeom(m0: Mem, m: Mem, src: nat, dst: nat) {
    && (forall p: nat :: ForkGeomAt(m0, m, src, dst, p))
    && (forall i: nat :: ForkRegionAt(m0, m, src, dst, i))
  }

  lemma ShareGeom(m0: Mem, m: Mem, src: nat, dst: nat, ks: Key, kd: Key)
    requires ForkGeom(m0, m, src, dst) && ks.pid == src && kd.pid == dst && src != dst
    requires InList(m, ks) && InList(m, kd) && ks in m.vpis && m.vpis[ks].ppn < |m.core|
    requires src in m0.spaces && |m0.spaces[src].regions| == NREGIONS && dst in m0.spaces
    ensures ForkGeom(m0, ShareMem(m, ks, kd), src, dst)
    ensures forall i :: 0 <= i < NREGIONS ==>
              |ShareMem(m, ks, kd).spaces[dst].regions[i].pages| == |m.spaces[dst].regions[i].pages|
    ensures InList(ShareMem(m, ks, kd), ks) && InList(ShareMem(m, ks, kd), kd)
  {
    var m' := ShareMem(m, ks, kd);
    SetAtOnly(m.spaces[src].regions[ks.region], ks.idx, Shared(m.vpis[ks]), 0);
    SetAtOnly(m.spaces[dst].regions[kd.region], kd.idx, Shared(m.vpis[ks]), 0);
    forall p: nat ensures ForkGeomAt(m0, m', src, dst, p) {
      assert ForkGeomAt(m0, m, src, dst, p);
    }
    forall i: nat ensures ForkRegionAt(m0, m', src, dst, i) {
      assert ForkRegionAt(m0, m, src, dst, i);
    }
  }

  /** The used slots of the parent and of the child, once everything is carried over, are the ones the
      parent had, so both are fit for their tables. */
  lemma ForkReady(m0: Mem, m: Mem, src: nat, dst: nat)
    requires MemOk(m0) && MemOk(m) && src != dst && SharedSoFar(m0, m, src, dst, NREGIONS, 0) && ForkGeom(m0, m, src, dst)
    requires src in m0.spaces && dst in m0.spaces && Ready(m0.spaces[src])
    requires forall i :: 0 <= i < NREGIONS && dst in m.spaces && |m.spaces[dst].regions| == NREGIONS ==>
               |m.spaces[dst].regions[i].pages| >= |m0.spaces[src].regions[i].pages|
    ensures src in m.spaces && dst in m.spaces && Ready(m.spaces[src]) && Ready(m.spaces[dst])
    ensures NoOverlap(m0.spaces[src]) ==> NoOverlap(m.spaces[src]) && NoOverlap(m.spaces[dst])
  {
    assert SpaceAt(m0, src) && ForkGeomAt(m0, m, src, dst, src) && ForkGeomAt(m0, m, src, dst, dst);
    assert SpaceAt(m, src) && SpaceAt(m, dst);
    var s0 := m0.spaces[src];
    forall i: nat, idx: nat ensures SameUseAt(s0, m.spaces[src], i, idx) && SameUseAt(s0, m.spaces[dst], i, idx) {
      var ks, kd := Key(src, i, idx), Key(dst, i, idx);
      assert CoupledAt(m0, ks) && CoupledAt(m, ks) && CoupledAt(m, kd);
      assert SharedAt(m0, m, src, dst, NREGIONS, 0, ks) && SharedAt(m0, m, src, dst, NREGIONS, 0, kd);
    }
    forall i | 0 <= i < NREGIONS
      ensures SameRegion(s0.regions[i], m.spaces[src].regions[i]) && ListOk(m.spaces[src].regions[i])
      ensures SameRegion(s0.regions[i], m.spaces[dst].regions[i]) && ListOk(m.spaces[dst].regions[i])
    {
      assert ForkRegionAt(m0, m, src, dst, i);
    }
    ReadyKept(s0, m.spaces[src]);
    ReadyKept(s0, m.spaces[dst]);
    if NoOverlap(s0) {
      OverlapKept(s0, m.spaces[src]);
      OverlapKept(s0, m.spaces[dst]);
    }
  }

  /** Fork under way: region r has been carried over up to slot n, and dst's list for it has j pages. */
  ghost predicate Forking(m0: Mem, m: Mem, src: nat, dst: nat, r: nat, n: nat, j: nat) {
    && src != dst && src in m0.spaces && dst in m0.spaces && SpaceAt(m0, src)
    && MemOk(m0) && SharedSoFar(m0, m, src, dst, r, n) && ForkGeom(m0, m, src, dst)
    && src in m.spaces && dst in m.spaces && SpaceAt(m, src) && SpaceAt(m, dst)
    && r < NREGIONS && |m.spaces[dst].regions[r].pages| == j
    && (forall i :: 0 <= i < r ==> |m.spaces[dst].regions[i].pages| >= |m0.spaces[src].regions[i].pages|)
    && (forall i :: r < i < NREGIONS ==> m.spaces[dst].regions[i].pages == [])
  }

  /** What the loop finds at slot n. */
  lemma ForkingSlot(m0: Mem, m: Mem, src: nat, dst: nat, r: nat, n: nat, j: nat)
    requires Forking(m0, m, src, dst, r, n, j) && MemOk(m)
    requires n < |m0.spaces[src].regions[r].pages| * VPIPPAGE && n < j * VPIPPAGE
    ensures var ks, kd := Key(src, r, n), Key(dst, r, n);
            && InList(m, ks) && InList(m, kd) && kd !in m.vpis && (ks in m.vpis <==> ks in m0.vpis)
            && (At(m.spaces[src].regions[r], n).used <==> ks in m.vpis)
            && (ks in m.vpis ==> m.vpis[ks].ppn < |m.core|)
  {
    var ks, kd := Key(src, r, n), Key(dst, r, n);
    assert SharedAt(m0, m, src, dst, r, n, ks) && SharedAt(m0, m, src, dst, r, n, kd);
    assert ForkRegionAt(m0, m, src, dst, r) && CoupledAt(m, ks);
    if ks in m.vpis {
      assert KeyOk(Cow(m), ks) && FrameOk(Cow(m), m.vpis[ks].ppn);
    }
  }

  lemma ForkingShare(m0: Mem, m: Mem, src: nat, dst: nat, r: nat, n: nat, j: nat)
    requires Forking(m0, m, src, dst, r, n, j) && MemOk(m)
    requires InList(m, Key(src, r, n)) && InList(m, Key(dst, r, n)) && Key(src, r, n) in m.vpis && m.vpis[Key(src, r, n)].ppn < |m.core|
    requires MemOk(ShareMem(m, Key(src, r, n), Key(dst, r, n)))
    ensures Forking(m0, ShareMem(m, Key(src, r, n), Key(dst, r, n)), src, dst, r, n + 1, j)
  {
    SharedStep(m0, m, src, dst, r, n);
    ShareGeom(m0, m, src, dst, Key(src, r, n), Key(dst, r, n));
    var m' := ShareMem(m, Key(src, r, n), Key(dst, r, n));
    assert SpaceAt(m', src) && SpaceAt(m', dst);
  }

  lemma ForkingExtend(m0: Mem, m: Mem, m': Mem, src: nat, dst: nat, r: nat, n: nat, j: nat, f: Frame)
    requires Forking(m0, m, src, dst, r, n, j) && f < |m.core| && m' == ExtendMem(m, dst, r, f) && MemOk(m')
    ensures Forking(m0, m', src, dst, r, n, j + 1)
  {
    SharedSame(m0, m, m', src, dst, r, n);
    forall p: nat ensures ForkGeomAt(m0, m', src, dst, p) {
      assert ForkGeomAt(m0, m, src, dst, p);
    }
    forall i: nat ensures ForkRegionAt(m0, m', src, dst, i) {
      assert ForkRegionAt(m0, m, src, dst, i);
    }
    assert SpaceAt(m', src) && SpaceAt(m', dst);
  }

  /** On to the next region, whose list is still empty. */
  lemma ForkingNext(m0: Mem, m: Mem, src: nat, dst: nat, r: nat, n: nat, j: nat)
    requires Forking(m0, m, src, dst, r, n, j) && MemOk(m)
    requires j == |m0.spaces[src].regions[r].pages| && n == j * VPIPPAGE
    ensures SharedSoFar(m0, m, src, dst, r + 1, 0)
    ensures r + 1 < NREGIONS ==> Forking(m0, m, src, dst, r + 1, 0, 0)
  {
    forall k: Key | k in m0.vpis && k.pid == src && k.region == r ensures k.idx < n {
      UsedIsInList(m0, k);
    }
    SharedRegion(m0, m, src, dst, r, n);
  }

  lemma ForkingStart(m: Mem, src: nat, dst: nat)
    requires MemOk(m) && src != dst && src in m.spaces && dst in m.spaces && SpaceAt(m, src) && SpaceAt(m, dst)
    requires forall i :: 0 <= i < NREGIONS ==> SamePlace(m.spaces[src].regions[i], m.spaces[dst].regions[i])
    requires forall i :: 0 <= i < NREGIONS ==> m.spaces[dst].regions[i].pages == []
    requires forall k: Key :: k in m.vpis ==> k.pid != dst
    ensures Forking(m, m, src, dst, 0, 0, 0)
  {
    SharedStart(m, m, src, dst);
    forall p: nat ensures ForkGeomAt(m, m, src, dst, p) {
      assert SpaceAt(m, p);
    }
    forall i: nat ensures ForkRegionAt(m, m, src, dst, i) {
    }
  }

  /** Adding a PML4 disturbs no address space. */
  lemma KernelStaysClean(m: Mem, m': Mem, s: Space, p: nat)
    requires Shape(m) && p in m.spaces && m'.spaces == m.spaces && m.spaces[p].pgtbl != s.pgtbl
    requires Around(m.tables, m.pos, m.core, m'.tables, m'.pos, m'.core, s)
    ensures StaysCleanAt(m, m', p)
  {
    if CleanAt(m, p) {
      assert SpaceAt(m, p);
      var t := m.spaces[p];
      forall v: nat ensures ReflectsAt(m'.tables, t, v) {
        assert ReflectsAt(m.tables, t, v) && KeptAt(m.tables, m.pos, m'.tables, s.pgtbl, t.pgtbl, v);
      }
      forall f: Frame ensures JustifiedAt(m'.pos, t, f) {
        assert JustifiedAt(m.pos, t, f) && OtherPosAt(m.pos, m'.pos, s.pgtbl, f);
      }
    }
  }

  /** The child's regions lie where the parent's do, and everybody else's where they did. */
  lemma ForkSites(m1: Mem, m0: Mem, m: Mem, src: nat, dst: nat)
    requires src != dst && src in m1.spaces && dst in m1.spaces && |m1.spaces[src].regions| == NREGIONS
    requires m0.spaces.Keys == m1.spaces.Keys && forall p :: p in m1.spaces && p != dst ==> m0.spaces[p] == m1.spaces[p]
    requires ForkGeom(m0, m, src, dst)
    ensures Sites(m.spaces) == Sites(m1.spaces)[dst := SitesOf(m1.spaces[src])]
  {
    assert ForkGeomAt(m0, m, src, dst, src) && ForkGeomAt(m0, m, src, dst, dst);
    forall i | 0 <= i < NREGIONS
      ensures Site(m.spaces[dst].regions[i]) == Site(m.spaces[src].regions[i]) == Site(m1.spaces[src].regions[i])
    {
      assert ForkRegionAt(m0, m, src, dst, i);
    }
    assert SitesOf(m.spaces[dst]) == SitesOf(m.spaces[src]) == SitesOf(m1.spaces[src]);
    var l := Sites(m1.spaces)[dst := SitesOf(m1.spaces[src])];
    forall p: nat ensures (p in m.spaces <==> p in l) && (p in l ==> Sites(m.spaces)[p] == l[p]) {
      assert ForkGeomAt(m0, m, src, dst, p);
    }
  }

  /** Everybody is up to date again: the two processes because their tables were rebuilt, the others
      because nothing of theirs changed. */
  lemma ForkAllClean(m: Mem, m1: Mem, m0: Mem, m2: Mem, m3: Mem, src: nat, dst: nat)
    requires AllClean(m) && src != dst
    requires m1.spaces.Keys == m.spaces.Keys + {dst} && forall p :: p in m.spaces ==> m1.spaces[p] == m.spaces[p]
    requires forall p: nat :: p != dst ==> StaysCleanAt(m, m1, p)
    requires m0.spaces.Keys == m1.spaces.Keys && forall p :: p in m1.spaces && p != dst ==> m0.spaces[p] == m1.spaces[p]
    requires ForkGeom(m0, m2, src, dst) && m2.tables == m1.tables && m2.pos == m1.pos
    requires m3.spaces == m2.spaces && CleanAt(m3, src) && CleanAt(m3, dst)
    requires forall p: nat :: p != src && p != dst ==> StaysCleanAt(m2, m3, p)
    ensures AllClean(m3) && m3.spaces.Keys == m.spaces.Keys + {dst}
  {
    forall p: nat ensures CleanAt(m3, p) && (p in m3.spaces <==> p in m.spaces || p == dst) {
      assert ForkGeomAt(m0, m2, src, dst, p);
      if p != src && p != dst {
        assert CleanAt(m, p) && StaysCleanAt(m, m1, p) && StaysCleanAt(m2, m3, p);
      }
    }
  }
}
