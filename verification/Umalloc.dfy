/** The user heap allocator: malloc, free and morecore. */
module Umalloc {
  import opened Prelude
  import opened HeapRing

  // ---- free, step by step ----

  /** The heap after the live block bp was put behind the k'th node and joined with what it touches. */
  function JoinedRight(h: Heap, k: nat): Heap {
    if Touching(h, k + 1) && h.order[k + 1] in h.mem && h.order[k + 2] in h.mem then Merged(h, k + 1) else h
  }

  function JoinedLeft(h: Heap, k: nat): Heap {
    if Touching(h, k) && h.order[k] in h.mem && h.order[k + 1] in h.mem then Merged(h, k) else h
  }

  function Freed(h: Heap, k: nat, bp: nat): Heap
    requires k < |h.order| && h.order[k] in h.mem && bp in h.mem
  {
    JoinedLeft(JoinedRight(Inserted(h, k, bp), k), k)
  }

  predicate ApartBut(h: Heap, k: nat, i: nat) {
    i != k ==> ApartAt(h, i)
  }

  lemma JoinRightKeeps(h: Heap, k: nat)
    requires HeapOk(h) && k + 1 < |h.order| && forall i: nat :: i != k && i != k + 1 ==> ApartAt(h, i)
    ensures HeapOk(JoinedRight(h, k)) && JoinedRight(h, k).own.Keys == h.own.Keys && k + 1 < |JoinedRight(h, k).order|
    ensures forall i: nat :: ApartBut(JoinedRight(h, k), k, i)
    ensures forall i :: 0 <= i <= k + 1 ==> JoinedRight(h, k).order[i] == h.order[i]
    ensures JoinedRight(h, k).live == h.live && Size(JoinedRight(h, k), h.order[k + 1]) >= Size(h, h.order[k + 1])
  {
    var h' := JoinedRight(h, k);
    assert NodeAt(h, k + 1) && NodeAt(h, k + 2) && GapAt(h, k + 1);
    if Touching(h, k + 1) {
      MergeKeepsHeap(h, k + 1);
      MergedBlocks(h, k + 1, h.order[k + 1]);
      forall i: nat ensures ApartBut(h', k, i) {
        MergedNode(h, k + 1, i);
      }
    }
  }

  lemma JoinLeftKeeps(h: Heap, k: nat)
    requires HeapOk(h) && k + 1 < |h.order| && forall i: nat :: ApartBut(h, k, i)
    ensures HeapOk(JoinedLeft(h, k)) && JoinedLeft(h, k).own.Keys == h.own.Keys && Coalesced(JoinedLeft(h, k))
    ensures JoinedLeft(h, k).live == h.live && k < |JoinedLeft(h, k).order|
    ensures forall i :: 0 <= i <= k ==> JoinedLeft(h, k).order[i] == h.order[i]
    ensures Roomy(JoinedLeft(h, k), Size(h, h.order[k + 1]))
  {
    var h' := JoinedLeft(h, k);
    assert NodeAt(h, k) && NodeAt(h, k + 1) && GapAt(h, k);
    if Touching(h, k) {
      MergeKeepsHeap(h, k);
      MergedBlocks(h, k, h.order[k]);
      forall i: nat ensures ApartAt(h', i) {
        assert ApartBut(h, k, i) && ApartBut(h, k, i + 1);
        MergedNode(h, k, i);
      }
      assert RoomyAt(h', Size(h, h.order[k + 1]), k);
    } else {
      forall i: nat ensures ApartAt(h', i) {
        assert ApartBut(h, k, i);
      }
      assert RoomyAt(h', Size(h, h.order[k + 1]), k + 1);
    }
  }

  predicate RoomyAt(h: Heap, n: nat, k: nat) {
    0 < k < |h.order| && Size(h, h.order[k]) >= n
  }

  /** Some free block has n units. */
  ghost predicate Roomy(h: Heap, n: nat) {
    exists k: nat :: RoomyAt(h, n, k)
  }

  /** Freeing keeps the list sorted, linked and coalesced, every unit and every other block. */
  lemma FreeKeepsHeap(h: Heap, k: nat, bp: nat)
    requires HeapOk(h) && Coalesced(h) && Between(h, k, bp) && bp in h.live && bp in h.mem && h.order[k] in h.mem
    ensures HeapOk(Freed(h, k, bp)) && Coalesced(Freed(h, k, bp)) && Freed(h, k, bp).own.Keys == h.own.Keys
    ensures Freed(h, k, bp).live == h.live - {bp} && Roomy(Freed(h, k, bp), h.live[bp])
    ensures k < |Freed(h, k, bp).order| && forall i :: 0 <= i <= k ==> Freed(h, k, bp).order[i] == h.order[i]
  {
    var h1 := Inserted(h, k, bp);
    InsertKeepsHeap(h, k, bp);
    InsertedBlocks(h, k, bp, bp);
    assert LiveAt(h, bp);
    JoinRightKeeps(h1, k);
    JoinLeftKeeps(JoinedRight(h1, k), k);
    RoomyLess(Freed(h, k, bp), Size(JoinedRight(h1, k), bp), h.live[bp]);
  }

  lemma RoomyLess(h: Heap, n: nat, m: nat)
    requires Roomy(h, n) && m <= n
    ensures Roomy(h, m)
  {
    var k: nat :| RoomyAt(h, n, k);
    assert RoomyAt(h, m, k);
  }

  /** A live block has a place in the list. */
  lemma {:induction false} FindPlace(h: Heap, bp: nat, k: nat) returns (j: nat)
    requires HeapOk(h) && bp in h.live && k < |h.order| && h.order[k] < bp
    ensures Between(h, j, bp)
    decreases |h.order| - k
  {
    if k + 1 == |h.order| || bp < h.order[k + 1] {
      j := k;
    } else {
      assert LiveNotFree(h, bp, k + 1);
      j := FindPlace(h, bp, k + 1);
    }
  }

  lemma BehindBase(h: Heap, bp: nat)
    requires HeapOk(h) && bp in h.live
    ensures h.order[0] < bp
  {
    assert LiveAt(h, bp) && CoverAt(h, bp, bp) && UnitAt(h, bp);
  }

  /** Steps from place k on to place f. */
  function Dist(k: nat, f: nat, n: nat): int {
    if k <= f then f - k else f - k + n
  }

  /** free's search stops at the block's place, and only there. */
  lemma StopsAtPlace(h: Heap, bp: nat, k: nat, j: nat)
    requires HeapOk(h) && bp in h.live && k < |h.order| && Between(h, j, bp) && h.order[k] in h.mem
    ensures var p, next := h.order[k], h.mem[h.order[k]].ptr;
            (p < bp < next) || (p >= next && (bp > p || bp < next)) <==> k == j
  {
    assert NodeAt(h, k);
    BehindBase(h, bp);
    if k < j {
      Ascending(h, k, j);
      assert GapAt(h, k);
      if k + 1 < j {
        Ascending(h, k + 1, j);
      }
    } else if j < k {
      Ascending(h, j, k);
      if j + 1 < k {
        Ascending(h, j + 1, k);
      }
      if k + 1 < |h.order| {
        assert GapAt(h, k);
      } else {
        Ascending(h, 0, k);
      }
    } else if k + 1 == |h.order| && k > 0 {
      Ascending(h, 0, k);
    }
  }

  // ---- malloc's search ----

  /** Every place passed since the search left place f had fewer than n units. */
  predicate SmallAt(h: Heap, n: nat, k: nat, f: nat, i: nat) {
    i < |h.order| && Dist(i, f, |h.order|) > Dist(k, f, |h.order|) ==> Size(h, h.order[i]) < n
  }

  ghost predicate AllSmall(h: Heap, n: nat, k: nat, f: nat) {
    forall i: nat :: SmallAt(h, n, k, f, i)
  }

  lemma SearchBegins(h: Heap, n: nat, f: nat)
    requires f < |h.order|
    ensures AllSmall(h, n, Succ(f, |h.order|), f)
  {
    forall i: nat ensures SmallAt(h, n, Succ(f, |h.order|), f, i) {
    }
  }

  lemma SearchGoesOn(h: Heap, n: nat, k: nat, f: nat)
    requires f < |h.order| && k < |h.order| && k != f && AllSmall(h, n, k, f) && Size(h, h.order[k]) < n
    ensures AllSmall(h, n, Succ(k, |h.order|), f) && Dist(Succ(k, |h.order|), f, |h.order|) == Dist(k, f, |h.order|) - 1
  {
    forall i: nat ensures SmallAt(h, n, Succ(k, |h.order|), f, i) {
      assert SmallAt(h, n, k, f, i);
    }
  }

  /** All around the list and nothing large enough. */
  lemma SearchFails(h: Heap, n: nat, f: nat)
    requires f < |h.order| && AllSmall(h, n, f, f) && Size(h, h.order[f]) < n
    ensures !Roomy(h, n)
  {
    forall i: nat ensures !RoomyAt(h, n, i) {
      assert SmallAt(h, n, f, f, i);
    }
  }

  /** morecore asks for at least 4096 units. */
  function Request(nunits: nat): nat {
    if nunits < 4096 then 4096 else nunits
  }

  /** What sbrk returns when called: new units behind &base, or nothing. */
  ghost predicate SbrkOk(base: nat, own: map<nat, nat>, r: Option<nat>, n: nat) {
    r.Some? ==> base < r.value && forall u: nat :: r.value <= u < r.value + n ==> u !in own
  }

  function UnitsFor(nbytes: nat): nat {
    (nbytes + 16 - 1) / 16 + 1
  }

  /** Unit u behind the header of live block a holds what it held. */
  predicate PayloadAt(live: map<nat, nat>, mem0: map<nat, Header>, mem: map<nat, Header>, a: nat, u: nat) {
    a in live && a < u < a + live[a] ==> (u in mem <==> u in mem0) && (u in mem ==> mem[u] == mem0[u])
  }

  /** Nothing was written inside these blocks. */
  ghost predicate PayloadKept(live: map<nat, nat>, mem0: map<nat, Header>, mem: map<nat, Header>) {
    forall a: nat, u: nat :: PayloadAt(live, mem0, mem, a, u)
  }

  /** No header lies inside a live block. */
  lemma InsideIsNoHeader(h: Heap, a: nat, u: nat, b: nat)
    requires HeapOk(h) && a in h.live && a < u < a + h.live[a] && (b in h.order || b in h.live)
    ensures u != b && u in h.own && h.own[u] == a
  {
    assert LiveAt(h, a) && CoverAt(h, a, u) && UnitAt(h, u);
    if b in h.live {
      assert LiveAt(h, b) && CoverAt(h, b, b);
    } else {
      var k :| 0 <= k < |h.order| && h.order[k] == b;
      assert NodeAt(h, k) && CoverAt(h, b, b);
    }
  }

  predicate OnlyWrote(mem0: map<nat, Header>, mem: map<nat, Header>, x: nat, y: nat, u: nat) {
    u != x && u != y ==> (u in mem <==> u in mem0) && (u in mem ==> mem[u] == mem0[u])
  }

  /** Writing headers of the list or of blocks writes inside no block. */
  lemma HeadersOnly(h: Heap, live: map<nat, nat>, mem: map<nat, Header>, x: nat, y: nat)
    requires HeapOk(h) && (forall u: nat :: OnlyWrote(h.mem, mem, x, y, u))
    requires forall a :: a in live ==> a in h.live && h.live[a] == live[a]
    requires (x in h.order || x in h.live) && (y in h.order || y in h.live)
    ensures PayloadKept(live, h.mem, mem)
  {
    forall a: nat, u: nat ensures PayloadAt(live, h.mem, mem, a, u) {
      assert OnlyWrote(h.mem, mem, x, y, u);
      if a in live && a < u < a + live[a] {
        InsideIsNoHeader(h, a, u, x);
        InsideIsNoHeader(h, a, u, y);
      }
    }
  }

  lemma PayloadTwice(live: map<nat, nat>, mem0: map<nat, Header>, mem1: map<nat, Header>, mem: map<nat, Header>)
    requires PayloadKept(live, mem0, mem1) && PayloadKept(live, mem1, mem)
    ensures PayloadKept(live, mem0, mem)
  {
    forall a: nat, u: nat ensures PayloadAt(live, mem0, mem, a, u) {
      assert PayloadAt(live, mem0, mem1, a, u) && PayloadAt(live, mem1, mem, a, u);
    }
  }

  /** Nor does writing the header of units that are in no block, or of a new block inside a free one. */
  lemma NewHeader(h: Heap, mem: map<nat, Header>, x: nat)
    requires HeapOk(h) && (forall u: nat :: OnlyWrote(h.mem, mem, x, x, u)) && (x in h.own ==> h.own[x] !in h.live)
    ensures PayloadKept(h.live, h.mem, mem)
  {
    forall a: nat, u: nat ensures PayloadAt(h.live, h.mem, mem, a, u) {
      assert OnlyWrote(h.mem, mem, x, x, u) && LiveAt(h, a) && CoverAt(h, a, u);
    }
  }

  class Allocator {
    const base: nat
    var mem: map<nat, Header>
    var freep: Option<nat>
    ghost var order: seq<nat>
    ghost var live: map<nat, nat>
    ghost var own: map<nat, nat>

    ghost function Now(): Heap
      reads this
    {
      Heap(mem, order, live, own)
    }

    ghost predicate Valid()
      reads this
    {
      if freep.None? then order == [] && live == map[] && own == map[]
      else HeapOk(Now()) && Coalesced(Now()) && order[0] == base && freep.value in order
    }

    constructor (base: nat)
      ensures Valid() && this.base == base && live == map[] && own == map[]
    {
      this.base := base;
      mem, freep, order, live, own := map[], None, [], map[], map[];
    }

    /** free: the block goes back into the list at its place, joined with the free blocks it touches. No
        unit is lost, no other block changes, and nothing is written inside one. */
    method Free(bp: nat)
      requires Valid() && bp in live
      modifies this
      ensures Valid() && freep.Some? && live == old(live) - {bp} && own.Keys == old(own).Keys
      ensures Roomy(Now(), old(live)[bp]) && PayloadKept(live, old(mem), mem)
    {
      ghost var h := Now();
      assert LiveAt(h, bp);
      BehindBase(h, bp);
      ghost var j := FindPlace(h, bp, 0);
      var p := freep.value;
      ghost var k :| 0 <= k < |order| && order[k] == p;
      assert NodeAt(h, k);
      StopsAtPlace(h, bp, k, j);
      while !(bp > p && bp < mem[p].ptr)
        invariant Now() == h && freep == old(freep) && 0 <= k < |order| && order[k] == p && p in mem
        invariant (p < bp < mem[p].ptr) || (p >= mem[p].ptr && (bp > p || bp < mem[p].ptr)) <==> k == j
        decreases Dist(k, j, |order|)
      {
        if p >= mem[p].ptr && (bp > p || bp < mem[p].ptr) {
          break;
        }
        assert NodeAt(h, k);
        k := Succ(k, |order|);
        p := mem[p].ptr;
        assert NodeAt(h, k);
        StopsAtPlace(h, bp, k, j);
      }
      Splice(p, bp, k);
    }

    /** free's second half: the links are set and touching blocks joined. */
    method Splice(p: nat, bp: nat, ghost k: nat)
      requires Valid() && freep.Some? && bp in live && Between(Now(), k, bp) && order[k] == p
      modifies this
      ensures Valid() && freep.Some? && live == old(live) - {bp} && own.Keys == old(own).Keys
      ensures Roomy(Now(), old(live)[bp]) && PayloadKept(live, old(mem), mem)
    {
      ghost var h := Now();
      assert LiveAt(h, bp) && NodeAt(h, k);
      FreeKeepsHeap(h, k, bp);
      SpliceIsFreed(h, k, bp);
      SetLinks(p, bp);
      SplicePayload(h, k, bp);
      freep := Some(p);
      order, live, own := Freed(h, k, bp).order, Freed(h, k, bp).live, Freed(h, k, bp).own;
      assert Now() == Freed(h, k, bp);
      assert p == order[k];
    }

    method SetLinks(p: nat, bp: nat)
      requires p in mem && bp in mem && mem[p].ptr in mem && p != bp
      modifies this`mem
      ensures mem == Spliced(old(mem), p, bp)
    {
      if bp + mem[bp].size == mem[p].ptr {
        mem := mem[bp := Header(mem[mem[p].ptr].ptr, mem[bp].size + mem[mem[p].ptr].size)];
      } else {
        mem := mem[bp := mem[bp].(ptr := mem[p].ptr)];
      }
      if p + mem[p].size == bp {
        mem := mem[p := Header(mem[bp].ptr, mem[p].size + mem[bp].size)];
      } else {
        mem := mem[p := mem[p].(ptr := bp)];
      }
    }

    /** morecore: new units become a block that is freed at once. */
    method Morecore(nunits: nat, sbrk: Option<nat>) returns (ok: bool)
      requires Valid() && freep.Some? && SbrkOk(base, own, sbrk, Request(nunits))
      modifies this
      ensures Valid() && freep.Some? && ok == sbrk.Some?
      ensures !ok ==> Now() == old(Now())
      ensures ok ==> live == old(live) && Roomy(Now(), nunits)
      ensures PayloadKept(old(live), old(mem), mem)
      ensures Conserved(old(own), own, 1, sbrk, Request(nunits))
    {
      if sbrk.None? {
        return false;
      }
      var n := Request(nunits);
      var hp := sbrk.value;
      ghost var h := Now();
      forall u: nat ensures FreshAt(h, hp, n, u) {
      }
      ObtainKeepsHeap(h, hp, n);
      mem := SetSize(mem, hp, n);
      ghost var mem1 := mem;
      assert forall u: nat :: OnlyWrote(h.mem, mem, hp, hp, u);
      NewHeader(h, mem, hp);
      live, own := Obtained(h, hp, n).live, Obtained(h, hp, n).own;
      assert Now() == Obtained(h, hp, n);
      Free(hp);
      assert live == h.live;
      PayloadTwice(h.live, h.mem, mem1, mem);
      RoomyLess(Now(), n, nunits);
      forall u: nat ensures OwnedAt(h.own, own, hp, n, u) {
      }
      return true;
    }

    /** The first call makes the list of &base alone. */
    method Start()
      requires Valid()
      modifies this
      ensures Valid() && freep.Some? && live == old(live) && own == old(own)
      ensures old(freep).None? ==> order == [base]
      ensures old(freep).Some? ==> Now() == old(Now()) && freep == old(freep)
    {
      if freep.None? {
        mem := mem[base := Header(base, 0)];
        freep := Some(base);
        order := [base];
        ghost var h := Now();
        forall k: nat ensures NodeAt(h, k) && GapAt(h, k) && ApartAt(h, k) {
        }
        forall a: nat, u: nat ensures CoverAt(h, a, u) && LiveNotFree(h, a, u) {
        }
      }
    }

    /** malloc at a block that is large enough: all of it, or its tail. */
    method TakeFrom(prevp: nat, p: nat, nunits: nat, ghost k: nat) returns (a: nat)
      requires Valid() && freep.Some? && 0 < k < |order| && order[k] == p && order[k - 1] == prevp && p in mem
      requires 0 < nunits <= mem[p].size
      modifies this
      ensures Valid() && freep.Some? && a !in old(live) && live == old(live)[a := nunits] && own.Keys == old(own).Keys
      ensures PayloadKept(old(live), old(mem), mem)
    {
      if mem[p].size == nunits {
        TakeWhole(prevp, p, k);
        a := p;
      } else {
        a := TakeTail(p, nunits, k);
      }
      freep := Some(prevp);
      assert order[k - 1] == prevp;
    }

    method TakeWhole(prevp: nat, p: nat, ghost k: nat)
      requires Valid() && freep.Some? && 0 < k < |order| && order[k] == p && order[k - 1] == prevp && p in mem
      modifies this
      ensures HeapOk(Now()) && Coalesced(Now()) && p !in old(live) && live == old(live)[p := old(mem)[p].size] && own == old(own)
      ensures freep == old(freep) && k <= |order| && order[..k] == old(order)[..k]
      ensures PayloadKept(old(live), old(mem), mem)
    {
      ghost var h := Now();
      assert NodeAt(h, k) && NodeAt(h, k - 1) && LiveNotFree(h, p, k);
      TakeKeepsHeap(h, k);
      mem := mem[prevp := mem[prevp].(ptr := mem[p].ptr)];
      assert forall u: nat :: OnlyWrote(h.mem, mem, prevp, prevp, u);
      HeadersOnly(h, h.live, mem, prevp, prevp);
      order, live := Taken(h, k).order, Taken(h, k).live;
      assert Now() == Taken(h, k);
    }

    method TakeTail(p: nat, nunits: nat, ghost k: nat) returns (a: nat)
      requires Valid() && freep.Some? && 0 < k < |order| && order[k] == p && p in mem && 0 < nunits < mem[p].size
      modifies this
      ensures HeapOk(Now()) && Coalesced(Now()) && a !in old(live) && live == old(live)[a := nunits] && own.Keys == old(own).Keys
      ensures freep == old(freep) && order == old(order)
      ensures PayloadKept(old(live), old(mem), mem)
    {
      ghost var h := Now();
      SplitKeepsHeap(h, k, nunits);
      SplitIsNew(h, k, p + mem[p].size - nunits, 0);
      mem := mem[p := mem[p].(size := mem[p].size - nunits)];
      a := p + mem[p].size;
      mem := SetSize(mem, a, nunits);
      TailPayload(h, mem, k, a);
      live, own := Split(h, k, nunits).live, Split(h, k, nunits).own;
      assert Now() == Split(h, k, nunits);
    }

    /** malloc: a new block large enough, everything else as it was, with nothing written inside a block.
        morecore is called, once, exactly if no free block is large enough; null is returned exactly if
        sbrk fails then. */
    method Malloc(nbytes: nat, sbrk: Option<nat>) returns (r: Option<nat>, calls: nat)
      requires Valid() && UnitsFor(nbytes) * 16 < 0x8000_0000 && SbrkOk(base, own, sbrk, Request(UnitsFor(nbytes)))
      modifies this
      ensures Valid() && freep.Some? && calls <= 1
      ensures r.Some? ==> r.value !in old(live) && live == old(live)[r.value := UnitsFor(nbytes)]
      ensures r.Some? ==> nbytes + 16 <= UnitsFor(nbytes) * 16
      ensures r.None? ==> live == old(live) && !Roomy(Now(), UnitsFor(nbytes))
      ensures r.None? <==> !Roomy(old(Now()), UnitsFor(nbytes)) && sbrk.None?
      ensures calls == 1 <==> !Roomy(old(Now()), UnitsFor(nbytes))
      ensures PayloadKept(old(live), old(mem), mem)
      ensures Conserved(old(own), own, calls, sbrk, Request(UnitsFor(nbytes)))
    {
      var nunits := UnitsFor(nbytes);
      Start();
      ghost var mem1 := mem;
      r, calls := Search(nunits, sbrk);
      if old(freep).Some? {
        PayloadTwice(old(live), old(mem), mem1, mem);
      }
    }

    /** malloc's loop. */
    method Search(nunits: nat, sbrk: Option<nat>) returns (r: Option<nat>, calls: nat)
      requires Valid() && freep.Some? && 0 < nunits && SbrkOk(base, own, sbrk, Request(nunits))
      modifies this
      ensures Valid() && freep.Some? && calls <= 1
      ensures r.Some? ==> r.value !in old(live) && live == old(live)[r.value := nunits]
      ensures r.None? ==> live == old(live) && !Roomy(Now(), nunits)
      ensures r.None? <==> !Roomy(old(Now()), nunits) && sbrk.None?
      ensures calls == 1 <==> !Roomy(old(Now()), nunits)
      ensures PayloadKept(old(live), old(mem), mem)
      ensures Conserved(old(own), own, calls, sbrk, Request(nunits))
    {
      var prevp := freep.value;
      ghost var f := SearchStarts(Now(), prevp, nunits);
      var p := mem[prevp].ptr;
      ghost var k := Succ(f, |order|);
      calls := 0;
      while true
        invariant Valid() && freep.Some? && p in mem && Searching(Now(), freep.value, prevp, p, nunits, k, f)
        invariant calls <= 1 && live == old(live) && (calls == 0 ==> own == old(own))
        invariant calls == 0 ==> Now() == old(Now())
        invariant calls == 1 ==> Roomy(Now(), nunits) && sbrk.Some? && !Roomy(old(Now()), nunits)
        invariant PayloadKept(old(live), old(mem), mem)
        invariant Conserved(old(own), own, calls, sbrk, Request(nunits))
        decreases 1 - calls, Dist(k, f, |order|)
      {
        if mem[p].size >= nunits {
          NotBase(Now(), k);
          assert RoomyAt(Now(), nunits, k);
          ghost var own1, mem1 := own, mem;
          var a := TakeFrom(prevp, p, nunits, k);
          PayloadTwice(old(live), old(mem), mem1, mem);
          StillConserved(old(own), own1, own, calls, sbrk, Request(nunits));
          return Some(a), calls;
        }
        if p == freep.value {
          NothingLeft(Now(), freep.value, prevp, p, nunits, k, f);
          calls := 1;
          ghost var mem1 := mem;
          var ok := Morecore(nunits, sbrk);
          PayloadTwice(old(live), old(mem), mem1, mem);
          if !ok {
            return None, calls;
          }
          p := freep.value;
          f := SearchStarts(Now(), p, nunits);
          k := f;
        } else {
          SearchSteps(Now(), freep.value, prevp, p, nunits, k, f);
        }
        prevp := p;
        p := mem[p].ptr;
        k := Succ(k, |order|);
      }
    }
  }

  function Pred(k: nat, n: nat): nat
    requires n > 0
  {
    if k == 0 then n - 1 else k - 1
  }

  predicate OwnedAt(own0: map<nat, nat>, own: map<nat, nat>, addr: nat, n: nat, u: nat) {
    u in own <==> u in own0 || UnitOf(addr, n, u)
  }

  /** The units are those there were and, after a successful morecore, exactly the new ones. */
  ghost predicate Conserved(own0: map<nat, nat>, own: map<nat, nat>, calls: nat, sbrk: Option<nat>, n: nat) {
    if calls == 0 || sbrk.None? then own.Keys == own0.Keys else forall u: nat :: OwnedAt(own0, own, sbrk.value, n, u)
  }

  /** malloc's search is at place k, having left place f. */
  ghost predicate Searching(h: Heap, freep: nat, prevp: nat, p: nat, n: nat, k: nat, f: nat) {
    && f < |h.order| && k < |h.order| && h.order[f] == freep && h.order[k] == p && h.order[Pred(k, |h.order|)] == prevp
    && AllSmall(h, n, k, f)
  }

  lemma SearchStarts(h: Heap, freep: nat, n: nat) returns (f: nat)
    requires HeapOk(h) && freep in h.order
    ensures f < |h.order| && h.order[f] == freep && freep in h.mem && h.mem[freep].ptr in h.mem
    ensures Searching(h, freep, freep, h.mem[freep].ptr, n, Succ(f, |h.order|), f)
  {
    f :| f < |h.order| && h.order[f] == freep;
    assert NodeAt(h, f) && NodeAt(h, Succ(f, |h.order|));
    SearchBegins(h, n, f);
  }

  lemma SearchSteps(h: Heap, freep: nat, prevp: nat, p: nat, n: nat, k: nat, f: nat)
    requires HeapOk(h) && Searching(h, freep, prevp, p, n, k, f) && p != freep && Size(h, p) < n
    ensures p in h.mem && h.mem[p].ptr in h.mem && Searching(h, freep, p, h.mem[p].ptr, n, Succ(k, |h.order|), f)
    ensures 0 <= Dist(Succ(k, |h.order|), f, |h.order|) < Dist(k, f, |h.order|)
  {
    assert NodeAt(h, k) && NodeAt(h, Succ(k, |h.order|));
    SearchGoesOn(h, n, k, f);
  }

  lemma NotBase(h: Heap, k: nat)
    requires HeapOk(h) && k < |h.order| && Size(h, h.order[k]) > 0
    ensures 0 < k
  {
    assert NodeAt(h, k);
  }

  lemma StillConserved(own0: map<nat, nat>, own1: map<nat, nat>, own: map<nat, nat>, calls: nat, sbrk: Option<nat>, n: nat)
    requires Conserved(own0, own1, calls, sbrk, n) && own.Keys == own1.Keys
    ensures Conserved(own0, own, calls, sbrk, n)
  {
    if calls != 0 && sbrk.Some? {
      forall u: nat ensures OwnedAt(own0, own, sbrk.value, n, u) {
        assert OwnedAt(own0, own1, sbrk.value, n, u) && (u in own.Keys <==> u in own1.Keys);
      }
    }
  }

  lemma NothingLeft(h: Heap, freep: nat, prevp: nat, p: nat, n: nat, k: nat, f: nat)
    requires HeapOk(h) && Searching(h, freep, prevp, p, n, k, f) && p == freep && Size(h, p) < n
    ensures !Roomy(h, n)
  {
    if k != f {
      OnlyOnce(h, k, f);
    }
    SearchFails(h, n, f);
  }

  /** A new header in the tail of a free block, and that block's own. */
  lemma TailPayload(h: Heap, mem: map<nat, Header>, k: nat, a: nat)
    requires HeapOk(h) && 0 < k < |h.order| && h.order[k] < a < h.order[k] + Size(h, h.order[k])
    requires forall u: nat :: OnlyWrote(h.mem, mem, h.order[k], a, u)
    ensures PayloadKept(h.live, h.mem, mem)
  {
    var p := h.order[k];
    assert NodeAt(h, k) && CoverAt(h, p, a) && h.order[0] != p by {
      OnlyOnce(h, 0, k);
    }
    forall b: nat, u: nat ensures PayloadAt(h.live, h.mem, mem, b, u) {
      assert OnlyWrote(h.mem, mem, p, a, u);
      if b in h.live && b < u < b + h.live[b] {
        InsideIsNoHeader(h, b, u, p);
        assert LiveNotFree(h, b, k);
      }
    }
  }

  /** What the assignments of free do to memory. */
  function Spliced(mem: map<nat, Header>, p: nat, bp: nat): map<nat, Header>
    requires p in mem && bp in mem && mem[p].ptr in mem && p != bp
  {
    var next := mem[p].ptr;
    var mem1 := if bp + mem[bp].size == next then mem[bp := Header(mem[next].ptr, mem[bp].size + mem[next].size)]
                else mem[bp := mem[bp].(ptr := next)];
    if p + mem1[p].size == bp then mem1[p := Header(mem1[bp].ptr, mem1[p].size + mem1[bp].size)]
    else mem1[p := mem1[p].(ptr := bp)]
  }

  lemma SplicePayload(h: Heap, k: nat, bp: nat)
    requires HeapOk(h) && k < |h.order| && bp in h.live && bp in h.mem && h.order[k] in h.mem
    requires h.order[k] != bp && h.mem[h.order[k]].ptr in h.mem
    ensures PayloadKept(h.live - {bp}, h.mem, Spliced(h.mem, h.order[k], bp))
  {
    var p := h.order[k];
    var mem := Spliced(h.mem, p, bp);
    forall u: nat ensures OnlyWrote(h.mem, mem, p, bp, u) {
    }
    HeadersOnly(h, h.live - {bp}, mem, p, bp);
  }

  lemma SpliceIsFreed(h: Heap, k: nat, bp: nat)
    requires HeapOk(h) && Between(h, k, bp) && bp in h.live && bp in h.mem && h.order[k] in h.mem
    ensures h.order[k] != bp && h.mem[h.order[k]].ptr != bp && h.mem[h.order[k]].ptr in h.mem
    ensures Spliced(h.mem, h.order[k], bp) == Freed(h, k, bp).mem
  {
    SpliceFacts(h, k, bp);
    var h1 := Inserted(h, k, bp);
    var h2 := JoinedRight(h1, k);
    var p, next := h.order[k], h.mem[h.order[k]].ptr;
    assert h1.mem[bp] == h.mem[bp].(ptr := next) && h1.mem[p] == h.mem[p].(ptr := bp);
    if Touching(h1, k + 1) {
      assert h2.mem == h1.mem[bp := Header(h1.mem[next].ptr, h1.mem[bp].size + h1.mem[next].size)];
      assert h1.mem[next] == h.mem[next];
    }
    assert h2.order[k] == p && h2.order[k + 1] == bp;
  }

  /** The two tests of free decide exactly which blocks are joined. */
  lemma SpliceFacts(h: Heap, k: nat, bp: nat)
    requires HeapOk(h) && Between(h, k, bp) && bp in h.live && bp in h.mem && h.order[k] in h.mem
    ensures var p, next := h.order[k], h.mem[h.order[k]].ptr;
            var h1 := Inserted(h, k, bp);
            && p != bp && next != bp && next in h.mem && h1.order[k] == p && h1.order[k + 1] == bp
            && (bp + h.mem[bp].size == next <==> Touching(h1, k + 1))
            && (Touching(h1, k + 1) ==> h1.order[k + 2] == next && next != p)
            && (p + h.mem[p].size == bp <==> Touching(JoinedRight(h1, k), k))
  {
    var h1 := Inserted(h, k, bp);
    assert NodeAt(h, k) && NodeAt(h, 0) && LiveNotFree(h, bp, k) && LiveNotFree(h, bp, Succ(k, |h.order|)) && LiveAt(h, bp);
    assert NodeAt(h, Succ(k, |h.order|));
    BehindBase(h, bp);
  }
}
