/** The allocator's circular free list and the blocks of the heap. Addresses count header-sized units. */
module HeapRing {

  datatype Header = Header(ptr: nat, size: nat)

  /** `order` lists the free list from &base on; `live` gives the allocated blocks' sizes; `own` says for
      every unit ever obtained from sbrk which block it is in. */
  datatype Heap = Heap(mem: map<nat, Header>, order: seq<nat>, live: map<nat, nat>, own: map<nat, nat>)

  function Succ(k: nat, n: nat): nat {
    if k + 1 == n then 0 else k + 1
  }

  function Size(h: Heap, a: nat): nat {
    if a in h.mem then h.mem[a].size else 0
  }

  /** The list is linked in order; only &base is empty. */
  predicate NodeAt(h: Heap, k: nat) {
    k < |h.order| ==>
      && h.order[k] in h.mem && h.mem[h.order[k]].ptr == h.order[Succ(k, |h.order|)]
      && (h.mem[h.order[k]].size == 0 <==> k == 0)
  }

  /** Addresses ascend and blocks do not overlap. */
  predicate GapAt(h: Heap, k: nat) {
    k + 1 < |h.order| ==> h.order[k] < h.order[k + 1] && h.order[k] + Size(h, h.order[k]) <= h.order[k + 1]
  }

  /** The k'th free block does not touch the next: they would have been joined. */
  predicate ApartAt(h: Heap, k: nat) {
    k + 1 < |h.order| ==> h.order[k] + Size(h, h.order[k]) < h.order[k + 1]
  }

  predicate LiveAt(h: Heap, a: nat) {
    a in h.live ==> a in h.mem && h.mem[a].size == h.live[a] > 0
  }

  predicate LiveNotFree(h: Heap, a: nat, k: nat) {
    a in h.live && k < |h.order| ==> h.order[k] != a
  }

  predicate IsBlock(h: Heap, a: nat) {
    a in h.live || (a in h.order && |h.order| > 0 && a != h.order[0])
  }

  /** Unit u of block a is the block's. */
  predicate CoverAt(h: Heap, a: nat, u: nat) {
    IsBlock(h, a) && a <= u < a + Size(h, a) ==> u in h.own && h.own[u] == a
  }

  /** Every unit is in the block it is said to be in, and behind &base. */
  predicate UnitAt(h: Heap, u: nat) {
    u in h.own ==> IsBlock(h, h.own[u]) && h.own[u] <= u < h.own[u] + Size(h, h.own[u]) && |h.order| > 0 && h.order[0] < u
  }

  ghost predicate HeapOk(h: Heap) {
    && |h.order| > 0
    && (forall k: nat :: NodeAt(h, k)) && (forall k: nat :: GapAt(h, k))
    && (forall a: nat :: LiveAt(h, a)) && (forall a: nat, k: nat :: LiveNotFree(h, a, k))
    && (forall a: nat, u: nat :: CoverAt(h, a, u)) && (forall u: nat :: UnitAt(h, u))
  }

  /** Fully coalesced. */
  ghost predicate Coalesced(h: Heap) {
    forall k: nat :: ApartAt(h, k)
  }

  lemma {:induction false} Ascending(h: Heap, i: nat, j: nat)
    requires (forall k: nat :: GapAt(h, k)) && i < j < |h.order|
    ensures h.order[i] < h.order[j] && h.order[i] + Size(h, h.order[i]) <= h.order[j]
    decreases j - i
  {
    assert GapAt(h, i);
    if i + 1 < j {
      Ascending(h, i + 1, j);
    }
  }

  lemma OnlyOnce(h: Heap, i: nat, j: nat)
    requires (forall k: nat :: GapAt(h, k)) && i < |h.order| && j < |h.order| && i != j
    ensures h.order[i] != h.order[j]
  {
    if i < j {
      Ascending(h, i, j);
    } else {
      Ascending(h, j, i);
    }
  }

  /** Two blocks never overlap. */
  lemma BlocksAreDisjoint(h: Heap, a: nat, b: nat)
    requires HeapOk(h) && IsBlock(h, a) && IsBlock(h, b) && a < b && Size(h, b) > 0
    ensures a + Size(h, a) <= b
  {
    assert CoverAt(h, a, b) && CoverAt(h, b, b);
  }

  // ---- a live block enters the list behind the j'th node ----

  function Inserted(h: Heap, j: nat, bp: nat): Heap
    requires j < |h.order| && h.order[j] in h.mem && bp in h.mem
  {
    var p := h.order[j];
    var next := h.mem[p].ptr;
    h.(mem := h.mem[bp := h.mem[bp].(ptr := next)][p := h.mem[p].(ptr := bp)],
       order := h.order[..j + 1] + [bp] + h.order[j + 1..], live := h.live - {bp})
  }

  /** bp lies between the j'th node and the next, or behind the last. */
  predicate Between(h: Heap, j: nat, bp: nat) {
    j < |h.order| && h.order[j] < bp && (j + 1 < |h.order| ==> bp < h.order[j + 1])
  }

  lemma InsertedNode(h: Heap, j: nat, bp: nat, k: nat)
    requires HeapOk(h) && Between(h, j, bp) && bp in h.live && bp in h.mem && h.order[j] in h.mem
    ensures NodeAt(Inserted(h, j, bp), k)
  {
    assert LiveAt(h, bp) && NodeAt(h, j) && LiveNotFree(h, bp, j);
    if k != j && k != j + 1 {
      var i := if k < j then k else k - 1;
      assert NodeAt(h, i) && LiveNotFree(h, bp, i);
      if i < |h.order| {
        OnlyOnce(h, i, j);
      }
    }
  }

  lemma InsertedGap(h: Heap, j: nat, bp: nat, k: nat)
    requires HeapOk(h) && Between(h, j, bp) && bp in h.live && bp in h.mem && h.order[j] in h.mem
    ensures GapAt(Inserted(h, j, bp), k)
    ensures k != j && k != j + 1 && Coalesced(h) ==> ApartAt(Inserted(h, j, bp), k)
  {
    assert LiveAt(h, bp) && NodeAt(h, j) && LiveNotFree(h, bp, j);
    if k == j {
      if j > 0 {
        OnlyOnce(h, 0, j);
        BlocksAreDisjoint(h, h.order[j], bp);
      }
    } else if k == j + 1 {
      if j + 1 < |h.order| {
        OnlyOnce(h, 0, j + 1);
        assert NodeAt(h, j + 1);
        BlocksAreDisjoint(h, bp, h.order[j + 1]);
      }
    } else {
      var i := if k < j then k else k - 1;
      assert GapAt(h, i) && LiveNotFree(h, bp, i) && (Coalesced(h) ==> ApartAt(h, i));
    }
  }

  lemma InsertedBlocks(h: Heap, j: nat, bp: nat, a: nat)
    requires HeapOk(h) && Between(h, j, bp) && bp in h.live && bp in h.mem && h.order[j] in h.mem
    ensures IsBlock(Inserted(h, j, bp), a) <==> IsBlock(h, a)
    ensures Size(Inserted(h, j, bp), a) == Size(h, a)
  {
    var h' := Inserted(h, j, bp);
    assert h'.order[0] == h.order[0] && LiveNotFree(h, bp, 0);
    assert a in h'.order <==> a in h.order || a == bp;
  }

  /** A live block in the list: all blocks are as before. */
  lemma InsertKeepsHeap(h: Heap, j: nat, bp: nat)
    requires HeapOk(h) && Between(h, j, bp) && bp in h.live && bp in h.mem && h.order[j] in h.mem
    ensures HeapOk(Inserted(h, j, bp))
    ensures Coalesced(h) ==> forall k: nat :: k != j && k != j + 1 ==> ApartAt(Inserted(h, j, bp), k)
  {
    var h' := Inserted(h, j, bp);
    forall k: nat ensures NodeAt(h', k) && GapAt(h', k) {
      InsertedNode(h, j, bp, k);
      InsertedGap(h, j, bp, k);
    }
    forall k: nat | k != j && k != j + 1 && Coalesced(h) ensures ApartAt(h', k) {
      InsertedGap(h, j, bp, k);
    }
    forall a: nat ensures LiveAt(h', a) {
      assert LiveAt(h, a);
    }
    forall u: nat ensures UnitAt(h', u) {
      assert UnitAt(h, u);
      if u in h.own {
        InsertedBlocks(h, j, bp, h.own[u]);
      }
    }
    forall a: nat, u: nat ensures CoverAt(h', a, u) {
      assert CoverAt(h, a, u);
      InsertedBlocks(h, j, bp, a);
    }
    forall a: nat, k: nat ensures LiveNotFree(h', a, k) {
      assert LiveNotFree(h, a, k) && (k > 0 ==> LiveNotFree(h, a, k - 1));
    }
  }

  // ---- two neighbours in the list are joined ----

  predicate Touching(h: Heap, k: nat) {
    0 < k && k + 1 < |h.order| && h.order[k] + Size(h, h.order[k]) == h.order[k + 1]
  }

  function Merged(h: Heap, k: nat): Heap
    requires k + 1 < |h.order| && h.order[k] in h.mem && h.order[k + 1] in h.mem
  {
    var p, q := h.order[k], h.order[k + 1];
    Heap(h.mem[p := Header(h.mem[q].ptr, h.mem[p].size + h.mem[q].size)], h.order[..k + 1] + h.order[k + 2..], h.live,
         map u | u in h.own :: if h.own[u] == q then p else h.own[u])
  }

  /** The k'th place in the list before the join. */
  function Unmerged(i: nat, k: nat): nat {
    if i <= k then i else i + 1
  }

  lemma MergedNode(h: Heap, k: nat, i: nat)
    requires HeapOk(h) && Touching(h, k) && h.order[k] in h.mem && h.order[k + 1] in h.mem
    ensures NodeAt(Merged(h, k), i) && GapAt(Merged(h, k), i)
    ensures i < k - 1 && ApartAt(h, i) ==> ApartAt(Merged(h, k), i)
    ensures i == k - 1 && ApartAt(h, i) ==> ApartAt(Merged(h, k), i)
    ensures i >= k && ApartAt(h, i + 1) ==> ApartAt(Merged(h, k), i)
  {
    var m := Unmerged(i, k);
    assert NodeAt(h, m) && NodeAt(h, k) && NodeAt(h, k + 1) && GapAt(h, m) && GapAt(h, k) && GapAt(h, k + 1);
    if m < |h.order| && i != k {
      OnlyOnce(h, m, k);
      OnlyOnce(h, m, k + 1);
    }
  }

  lemma MergedBlocks(h: Heap, k: nat, a: nat)
    requires HeapOk(h) && Touching(h, k) && h.order[k] in h.mem && h.order[k + 1] in h.mem
    ensures IsBlock(Merged(h, k), a) <==> IsBlock(h, a) && a != h.order[k + 1]
    ensures a != h.order[k] ==> Size(Merged(h, k), a) == Size(h, a)
    ensures Size(Merged(h, k), h.order[k]) == Size(h, h.order[k]) + Size(h, h.order[k + 1])
  {
    var h', q := Merged(h, k), h.order[k + 1];
    assert LiveNotFree(h, a, k + 1) && LiveNotFree(h, a, k);
    OnlyOnce(h, 0, k + 1);
    forall i | 0 <= i < |h'.order| ensures h'.order[i] != q {
      OnlyOnce(h, Unmerged(i, k), k + 1);
    }
    assert a in h.order && a != q ==> a in h'.order by {
      if a in h.order && a != q {
        var i :| 0 <= i < |h.order| && h.order[i] == a;
        assert h'.order[if i <= k then i else i - 1] == a;
      }
    }
  }

  /** Joining two touching free blocks keeps every unit and every other block. */
  lemma MergeKeepsHeap(h: Heap, k: nat)
    requires HeapOk(h) && Touching(h, k) && h.order[k] in h.mem && h.order[k + 1] in h.mem
    ensures HeapOk(Merged(h, k)) && Merged(h, k).own.Keys == h.own.Keys
  {
    var h' := Merged(h, k);
    var p, q := h.order[k], h.order[k + 1];
    forall i: nat ensures NodeAt(h', i) && GapAt(h', i) {
      MergedNode(h, k, i);
    }
    forall a: nat ensures LiveAt(h', a) {
      assert LiveAt(h, a) && LiveNotFree(h, a, k);
    }
    forall a: nat, i: nat ensures LiveNotFree(h', a, i) {
      assert LiveNotFree(h, a, Unmerged(i, k));
    }
    OnlyOnce(h, 0, k);
    forall u: nat ensures UnitAt(h', u) {
      assert UnitAt(h, u);
      if u in h.own {
        MergedBlocks(h, k, h.own[u]);
        MergedBlocks(h, k, p);
      }
    }
    forall a: nat, u: nat ensures CoverAt(h', a, u) {
      MergedBlocks(h, k, a);
      assert CoverAt(h, a, u) && CoverAt(h, q, u) && CoverAt(h, p, u);
      OnlyOnce(h, 0, k + 1);
    }
  }

  // ---- a whole free block is allocated ----

  function Taken(h: Heap, k: nat): Heap
    requires 0 < k < |h.order| && h.order[k] in h.mem && h.order[k - 1] in h.mem
  {
    var a, prev := h.order[k], h.order[k - 1];
    h.(mem := h.mem[prev := h.mem[prev].(ptr := h.mem[a].ptr)], order := h.order[..k] + h.order[k + 1..],
       live := h.live[a := h.mem[a].size])
  }

  lemma TakenNode(h: Heap, k: nat, i: nat)
    requires HeapOk(h) && 0 < k < |h.order| && h.order[k] in h.mem && h.order[k - 1] in h.mem
    ensures NodeAt(Taken(h, k), i) && GapAt(Taken(h, k), i)
    ensures Coalesced(h) ==> ApartAt(Taken(h, k), i)
  {
    var m := if i < k then i else i + 1;
    assert NodeAt(h, m) && NodeAt(h, k) && NodeAt(h, k - 1) && GapAt(h, m) && GapAt(h, k) && GapAt(h, k - 1);
    assert Coalesced(h) ==> ApartAt(h, m) && ApartAt(h, k) && ApartAt(h, k - 1);
    if m < |h.order| && m != k - 1 {
      OnlyOnce(h, m, k - 1);
    }
  }

  lemma TakenBlocks(h: Heap, k: nat, a: nat)
    requires HeapOk(h) && 0 < k < |h.order| && h.order[k] in h.mem && h.order[k - 1] in h.mem
    ensures IsBlock(Taken(h, k), a) <==> IsBlock(h, a)
    ensures Size(Taken(h, k), a) == Size(h, a)
  {
    var h' := Taken(h, k);
    OnlyOnce(h, 0, k);
    assert a in h.order && a != h.order[k] ==> a in h'.order by {
      if a in h.order && a != h.order[k] {
        var i :| 0 <= i < |h.order| && h.order[i] == a;
        assert h'.order[if i < k then i else i - 1] == a;
      }
    }
  }

  lemma TakeKeepsHeap(h: Heap, k: nat)
    requires HeapOk(h) && 0 < k < |h.order| && h.order[k] in h.mem && h.order[k - 1] in h.mem
    ensures HeapOk(Taken(h, k)) && (Coalesced(h) ==> Coalesced(Taken(h, k)))
  {
    var h' := Taken(h, k);
    forall i: nat ensures NodeAt(h', i) && GapAt(h', i) && (Coalesced(h) ==> ApartAt(h', i)) {
      TakenNode(h, k, i);
    }
    assert NodeAt(h, k);
    OnlyOnce(h, k - 1, k);
    forall a: nat ensures LiveAt(h', a) {
      assert LiveAt(h, a) && LiveNotFree(h, a, k - 1);
    }
    forall a: nat, i: nat ensures LiveNotFree(h', a, i) {
      var m := if i < k then i else i + 1;
      assert LiveNotFree(h, a, m);
      if m < |h.order| {
        OnlyOnce(h, m, k);
      }
    }
    forall u: nat ensures UnitAt(h', u) {
      assert UnitAt(h, u);
      if u in h.own {
        TakenBlocks(h, k, h.own[u]);
      }
    }
    forall a: nat, u: nat ensures CoverAt(h', a, u) {
      assert CoverAt(h, a, u);
      TakenBlocks(h, k, a);
    }
  }

  // ---- the tail of a free block is allocated ----

  /** The header's size field is set; its other field keeps what was there. */
  function SetSize(mem: map<nat, Header>, a: nat, n: nat): map<nat, Header> {
    mem[a := Header(if a in mem then mem[a].ptr else 0, n)]
  }

  function Split(h: Heap, k: nat, n: nat): Heap
    requires 0 < k < |h.order| && h.order[k] in h.mem && n < h.mem[h.order[k]].size
  {
    var a := h.order[k];
    var b := a + h.mem[a].size - n;
    h.(mem := SetSize(h.mem[a := h.mem[a].(size := h.mem[a].size - n)], b, n), live := h.live[b := n],
       own := map u | u in h.own :: if h.own[u] == a && u >= b then b else h.own[u])
  }

  /** The new block starts inside the old one, where no other block is. */
  lemma SplitIsNew(h: Heap, k: nat, b: nat, i: nat)
    requires HeapOk(h) && 0 < k < |h.order| && h.order[k] < b < h.order[k] + Size(h, h.order[k])
    ensures b !in h.live && b !in h.order && (i < |h.order| ==> h.order[i] != b)
  {
    OnlyOnce(h, 0, k);
    assert CoverAt(h, h.order[k], b) && CoverAt(h, b, b) && LiveAt(h, b) && UnitAt(h, b);
    forall m | 0 <= m < |h.order| ensures h.order[m] != b {
      assert NodeAt(h, m);
    }
  }

  lemma SplitBlocks(h: Heap, k: nat, n: nat, c: nat)
    requires HeapOk(h) && 0 < k < |h.order| && h.order[k] in h.mem && 0 < n < h.mem[h.order[k]].size
    ensures var a := h.order[k]; var b := a + h.mem[a].size - n; var h' := Split(h, k, n);
            && (IsBlock(h', c) <==> IsBlock(h, c) || c == b)
            && Size(h', c) == if c == b then n else if c == a then Size(h, a) - n else Size(h, c)
  {
    var a := h.order[k];
    SplitIsNew(h, k, a + h.mem[a].size - n, 0);
  }

  lemma SplitKeepsHeap(h: Heap, k: nat, n: nat)
    requires HeapOk(h) && 0 < k < |h.order| && h.order[k] in h.mem && 0 < n < h.mem[h.order[k]].size
    ensures HeapOk(Split(h, k, n)) && Split(h, k, n).own.Keys == h.own.Keys && (Coalesced(h) ==> Coalesced(Split(h, k, n)))
  {
    var h' := Split(h, k, n);
    var a := h.order[k];
    var b := a + h.mem[a].size - n;
    forall i: nat ensures NodeAt(h', i) && GapAt(h', i) && (Coalesced(h) ==> ApartAt(h', i)) {
      assert NodeAt(h, i) && GapAt(h, i) && (Coalesced(h) ==> ApartAt(h, i));
      SplitIsNew(h, k, b, i);
      if i < |h.order| && i != k {
        OnlyOnce(h, i, k);
      }
    }
    forall c: nat ensures LiveAt(h', c) {
      assert LiveAt(h, c) && LiveNotFree(h, c, k);
    }
    forall c: nat, i: nat ensures LiveNotFree(h', c, i) {
      assert LiveNotFree(h, c, i);
      SplitIsNew(h, k, b, i);
    }
    OnlyOnce(h, 0, k);
    SplitIsNew(h, k, b, 0);
    SplitBlocks(h, k, n, b);
    forall u: nat ensures UnitAt(h', u) {
      assert UnitAt(h, u);
      if u in h.own {
        SplitBlocks(h, k, n, h.own[u]);
      }
    }
    forall c: nat, u: nat ensures CoverAt(h', c, u) {
      SplitBlocks(h, k, n, c);
      assert CoverAt(h, c, u) && CoverAt(h, a, u);
    }
  }

  // ---- new memory ----

  /** sbrk gave units [addr, addr + n), nobody's so far, behind &base. */
  predicate FreshAt(h: Heap, addr: nat, n: nat, u: nat) {
    addr <= u < addr + n ==> u !in h.own
  }

  ghost predicate Fresh(h: Heap, addr: nat, n: nat) {
    |h.order| > 0 && h.order[0] < addr && 0 < n && forall u: nat :: FreshAt(h, addr, n, u)
  }

  function Obtained(h: Heap, addr: nat, n: nat): Heap {
    h.(mem := SetSize(h.mem, addr, n), live := h.live[addr := n],
       own := h.own + (map u: nat | u < addr + n && UnitOf(addr, n, u) :: addr))
  }

  predicate UnitOf(addr: nat, n: nat, u: nat) {
    addr <= u < addr + n
  }

  lemma ObtainKeepsHeap(h: Heap, addr: nat, n: nat)
    requires HeapOk(h) && Fresh(h, addr, n)
    ensures HeapOk(Obtained(h, addr, n)) && (Coalesced(h) ==> Coalesced(Obtained(h, addr, n)))
    ensures addr !in h.live && forall u: nat :: u in Obtained(h, addr, n).own <==> u in h.own || addr <= u < addr + n
  {
    var h' := Obtained(h, addr, n);
    assert FreshAt(h, addr, n, addr) && CoverAt(h, addr, addr) && LiveAt(h, addr);
    forall i: nat ensures NodeAt(h', i) && GapAt(h', i) && (i < |h.order| ==> h.order[i] != addr) {
      assert NodeAt(h, i) && GapAt(h, i);
      if 0 < i < |h.order| {
        OnlyOnce(h, 0, i);
        assert CoverAt(h, h.order[i], h.order[i]);
      }
      assert i + 1 < |h.order| ==> NodeAt(h, i + 1);
    }
    forall i: nat | Coalesced(h) ensures ApartAt(h', i) {
      assert ApartAt(h, i) && NodeAt(h', i);
    }
    forall c: nat ensures LiveAt(h', c) {
      assert LiveAt(h, c);
    }
    forall c: nat, i: nat ensures LiveNotFree(h', c, i) {
      assert LiveNotFree(h, c, i);
    }
    forall u: nat ensures UnitAt(h', u) {
      assert UnitAt(h, u) && FreshAt(h, addr, n, u) && (UnitOf(addr, n, u) || !UnitOf(addr, n, u));
    }
    forall c: nat, u: nat ensures CoverAt(h', c, u) {
      assert CoverAt(h, c, u) && FreshAt(h, addr, n, u) && (UnitOf(addr, n, u) || !UnitOf(addr, n, u));
    }
  }
}
