/** The buffer cache's doubly linked list: binit, the searches of bget, and brelse's move to the front. */
module BufferRing {
  import opened Prelude

  const NBUF: nat := 30
  const HEAD: nat := 30  // the dummy node's index, after the buffers'

  /** flags holds B_VALID and B_DIRTY. */
  datatype Buf = Buf(dev: nat, blockno: nat, valid: bool, dirty: bool, refcnt: nat)

  /** The nodes in list order, the dummy first. */
  function Cycle(order: seq<nat>): seq<nat> {
    [HEAD] + order
  }

  function Succ(k: nat, n: nat): nat {
    if k + 1 == n then 0 else k + 1
  }

  predicate LinkAt(next: seq<nat>, prev: seq<nat>, order: seq<nat>, k: nat) {
    var c := Cycle(order);
    k < |c| ==>
      && c[k] < |next| == |prev| && c[Succ(k, |c|)] < |next|
      && next[c[k]] == c[Succ(k, |c|)] && prev[c[Succ(k, |c|)]] == c[k]
  }

  predicate ApartAt(order: seq<nat>, j: nat, k: nat) {
    var c := Cycle(order);
    j < |c| && k < |c| && j != k ==> c[j] != c[k]
  }

  /** next and prev link the dummy and the nodes of `order`, once each, into one ring, both ways. */
  ghost predicate Ring(next: seq<nat>, prev: seq<nat>, order: seq<nat>) {
    (forall k: nat :: LinkAt(next, prev, order, k)) && (forall j: nat, k: nat :: ApartAt(order, j, k))
  }

  function Without(order: seq<nat>, k: nat): seq<nat>
    requires k < |order|
  {
    order[..k] + order[k + 1..]
  }

  /** The place in the old ring of the j'th node of the ring without node k + 1. */
  function Before(j: nat, k: nat): nat {
    if j <= k then j else j + 1
  }

  lemma CycleWithout(order: seq<nat>, k: nat, j: nat)
    requires k < |order| && j < |order|
    ensures |Cycle(Without(order, k))| == |order| && Cycle(Without(order, k))[j] == Cycle(order)[Before(j, k)]
  {
  }

  lemma Neighbours(next: seq<nat>, prev: seq<nat>, order: seq<nat>, k: nat)
    requires Ring(next, prev, order) && k < |order|
    ensures var c, n := Cycle(order), |order| + 1;
            && c[k + 1] == order[k] && order[k] < |next| == |prev|
            && prev[order[k]] == c[k] < |next| && next[order[k]] == c[Succ(k + 1, n)] < |next|
  {
    assert LinkAt(next, prev, order, k) && LinkAt(next, prev, order, k + 1);
  }

  lemma UnlinkedLink(next: seq<nat>, prev: seq<nat>, order: seq<nat>, k: nat, next': seq<nat>, prev': seq<nat>, j: nat)
    requires Ring(next, prev, order) && k < |order| && j < |order| && order[k] < |next| == |prev|
    requires prev[order[k]] < |next| && next[order[k]] < |next|
    requires next' == next[prev[order[k]] := next[order[k]]] && prev' == prev[next[order[k]] := prev[order[k]]]
    ensures LinkAt(next', prev', Without(order, k), j)
  {
    var c, n, i := Cycle(order), |order| + 1, Before(j, k);
    Neighbours(next, prev, order, k);
    CycleWithout(order, k, j);
    CycleWithout(order, k, Succ(j, n - 1));
    assert LinkAt(next, prev, order, i);
    if j != k {
      assert ApartAt(order, i, k) && ApartAt(order, Succ(i, n), Succ(k + 1, n));
    }
  }

  /** Taking node b = order[k] out of the ring. */
  lemma UnlinkKeepsRing(next: seq<nat>, prev: seq<nat>, order: seq<nat>, k: nat)
    requires Ring(next, prev, order) && k < |order|
    ensures var b := order[k];
            && b < |next| == |prev| && next[b] < |next| && prev[b] < |prev|
            && Ring(next[prev[b] := next[b]], prev[next[b] := prev[b]], Without(order, k))
  {
    var b := order[k];
    Neighbours(next, prev, order, k);
    var next', prev', order' := next[prev[b] := next[b]], prev[next[b] := prev[b]], Without(order, k);
    forall j: nat ensures LinkAt(next', prev', order', j) {
      if j < |order| {
        UnlinkedLink(next, prev, order, k, next', prev', j);
      }
    }
    forall i: nat, j: nat ensures ApartAt(order', i, j) {
      if i < |order| && j < |order| {
        CycleWithout(order, k, i);
        CycleWithout(order, k, j);
        assert ApartAt(order, Before(i, k), Before(j, k));
      }
    }
  }

  /** Putting a new node b right behind the dummy. */
  lemma PushKeepsRing(next: seq<nat>, prev: seq<nat>, order: seq<nat>, b: nat)
    requires Ring(next, prev, order) && b !in Cycle(order) && b < |next|
    ensures |next| == |prev| && HEAD < |next| && next[HEAD] < |next|
    ensures Ring(next[b := next[HEAD]][HEAD := b], prev[b := HEAD][next[HEAD] := b], [b] + order)
  {
    var c, n := Cycle(order), |order| + 1;
    assert LinkAt(next, prev, order, 0);
    var next', prev' := next[b := next[HEAD]][HEAD := b], prev[b := HEAD][next[HEAD] := b];
    var c' := Cycle([b] + order);
    assert c' == [HEAD, b] + order;
    forall j: nat ensures LinkAt(next', prev', [b] + order, j) {
      if 2 <= j < n + 1 {
        assert LinkAt(next, prev, order, j - 1) && ApartAt(order, j - 1, 0) && ApartAt(order, Succ(j - 1, n), Succ(0, n));
      }
    }
    forall i: nat, j: nat ensures ApartAt([b] + order, i, j) {
      if i < n + 1 && j < n + 1 && i != 1 && j != 1 {
        assert ApartAt(order, if i == 0 then 0 else i - 1, if j == 0 then 0 else j - 1);
      }
    }
  }

  // ---- what bget looks for ----

  predicate IsBlock(bufs: seq<Buf>, order: seq<nat>, dev: nat, blockno: nat, k: nat) {
    k < |order| && order[k] < |bufs| && bufs[order[k]].dev == dev && bufs[order[k]].blockno == blockno
  }

  predicate IsUnused(bufs: seq<Buf>, order: seq<nat>, k: nat) {
    k < |order| && order[k] < |bufs| && bufs[order[k]].refcnt == 0 && !bufs[order[k]].dirty
  }

  /** The block is cached, most recently used at place k. */
  ghost predicate Hit(bufs: seq<Buf>, order: seq<nat>, dev: nat, blockno: nat, k: nat) {
    IsBlock(bufs, order, dev, blockno, k) && forall j: nat :: j < k ==> !IsBlock(bufs, order, dev, blockno, j)
  }

  /** The block is not cached, and place k is the least recently used that may be recycled. */
  ghost predicate Victim(bufs: seq<Buf>, order: seq<nat>, dev: nat, blockno: nat, k: nat) {
    && (forall j: nat :: !IsBlock(bufs, order, dev, blockno, j))
    && IsUnused(bufs, order, k) && forall j: nat :: k < j ==> !IsUnused(bufs, order, j)
  }

  predicate Listed(order: seq<nat>, b: nat) {
    b < NBUF ==> b in order
  }

  /** Every buffer once. */
  ghost predicate Permutation(order: seq<nat>) {
    && |order| == NBUF && (forall k :: 0 <= k < |order| ==> order[k] < NBUF)
    && (forall b: nat :: Listed(order, b))
  }

  function MovedToFront(order: seq<nat>, k: nat): seq<nat>
    requires k < |order|
  {
    [order[k]] + Without(order, k)
  }

  lemma MoveKeepsPermutation(order: seq<nat>, k: nat)
    requires Permutation(order) && k < |order|
    ensures Permutation(MovedToFront(order, k))
  {
    var order' := MovedToFront(order, k);
    forall b: nat ensures Listed(order', b) {
      assert Listed(order, b);
      if b < NBUF && b != order[k] {
        var j :| 0 <= j < |order| && order[j] == b;
        assert order'[if j < k then j + 1 else j] == b;
      }
    }
  }

  class Bcache {
    const next: array<nat>
    const prev: array<nat>
    const bufs: array<Buf>
    ghost var order: seq<nat>  // most recently used first

    ghost predicate Valid()
      reads this, next, prev, bufs
    {
      && next.Length == prev.Length == NBUF + 1 && bufs.Length == NBUF && next != prev
      && Ring(next[..], prev[..], order) && Permutation(order)
    }

    /** binit. The last buffer pushed is the most recently used. */
    constructor ()
      ensures fresh(next) && fresh(prev) && fresh(bufs) && Valid()
      ensures forall i :: 0 <= i < NBUF ==> bufs[i] == Buf(0, 0, false, false, 0) && order[i] == NBUF - 1 - i
    {
      next := new nat[NBUF + 1](_ => 0);
      prev := new nat[NBUF + 1](_ => 0);
      bufs := new Buf[NBUF](_ => Buf(0, 0, false, false, 0));
      order := [];
      new;
      prev[HEAD] := HEAD;
      next[HEAD] := HEAD;
      var b := 0;
      while b < NBUF
        invariant 0 <= b <= NBUF && |order| == b && forall i :: 0 <= i < b ==> order[i] == b - 1 - i
        invariant Ring(next[..], prev[..], order)
        invariant fresh(next) && fresh(prev) && fresh(bufs) && forall i :: 0 <= i < NBUF ==> bufs[i] == Buf(0, 0, false, false, 0)
      {
        PushFront(b);
        b := b + 1;
      }
      forall b: nat ensures Listed(order, b) {
        if b < NBUF {
          assert order[NBUF - 1 - b] == b;
        }
      }
    }

    /** b goes right behind the dummy. */
    method PushFront(b: nat)
      requires next.Length == prev.Length == NBUF + 1 && next != prev && b < NBUF
      requires Ring(next[..], prev[..], order) && b !in order
      modifies next, prev, `order
      ensures order == [b] + old(order) && Ring(next[..], prev[..], order)
    {
      ghost var n: seq<nat>, p: seq<nat> := next[..], prev[..];
      PushKeepsRing(n, p, order, b);
      next[b] := next[HEAD];
      prev[b] := HEAD;
      prev[next[HEAD]] := b;
      next[HEAD] := b;
      order := [b] + order;
      assert next[..] == n[b := n[HEAD]][HEAD := b];
      assert prev[..] == p[b := HEAD][n[HEAD] := b];
    }

    /** brelse under bcache.lock: a reference goes, and with the last one the buffer moves to the front. */
    method Unref(b: nat, ghost k: nat)
      requires Valid() && k < NBUF && order[k] == b && bufs[b].refcnt > 0
      modifies next, prev, bufs, `order
      ensures Valid() && bufs[..] == old(bufs[..])[b := old(bufs[b]).(refcnt := old(bufs[b]).refcnt - 1)]
      ensures order == if old(bufs[b]).refcnt == 1 then MovedToFront(old(order), k) else old(order)
    {
      bufs[b] := bufs[b].(refcnt := bufs[b].refcnt - 1);
      if bufs[b].refcnt == 0 {
        ghost var n: seq<nat>, p: seq<nat>, o := next[..], prev[..], order;
        MoveKeepsPermutation(o, k);
        UnlinkKeepsRing(n, p, o, k);
        var before, after := prev[b], next[b];
        prev[after] := before;
        next[before] := after;
        order := Without(o, k);
        assert next[..] == n[p[b] := n[b]] && prev[..] == p[n[b] := p[b]];
        NotInWithout(n, p, o, k);
        PushFront(b);
      }
    }

    /** bget under bcache.lock: the cached buffer, or else the least recently used one that is neither
        referenced nor dirty, renamed; none is a panic. */
    method Bget(dev: nat, blockno: nat) returns (r: Option<nat>, ghost k: nat)
      requires Valid()
      modifies bufs
      ensures Valid()
      ensures r.Some? ==> k < NBUF && order[k] == r.value && r.value < NBUF
      ensures r.Some? ==>
                var b := r.value;
                || (Hit(old(bufs[..]), order, dev, blockno, k)
                    && bufs[..] == old(bufs[..])[b := old(bufs[b]).(refcnt := old(bufs[b]).refcnt + 1)])
                || (Victim(old(bufs[..]), order, dev, blockno, k)
                    && bufs[..] == old(bufs[..])[b := Buf(dev, blockno, false, false, 1)])
      ensures r.None? ==> bufs[..] == old(bufs[..])
      ensures r.None? ==> forall j: nat :: !IsBlock(bufs[..], order, dev, blockno, j) && !IsUnused(bufs[..], order, j)
    {
      k := 0;
      assert LinkAt(next[..], prev[..], order, 0);
      var b := next[HEAD];
      while b != HEAD
        invariant k <= |order| && b == (if k < |order| then order[k] else HEAD)
        invariant forall j: nat :: j < k ==> !IsBlock(bufs[..], order, dev, blockno, j)
        decreases |order| - k
      {
        assert LinkAt(next[..], prev[..], order, k + 1);
        if bufs[b].dev == dev && bufs[b].blockno == blockno {
          bufs[b] := bufs[b].(refcnt := bufs[b].refcnt + 1);
          return Some(b), k;
        }
        b := next[b];
        k := k + 1;
      }
      r, k := Recycle(dev, blockno);
    }

    /** bget's second loop, from the least recently used. */
    method Recycle(dev: nat, blockno: nat) returns (r: Option<nat>, ghost k: nat)
      requires Valid() && forall j: nat :: !IsBlock(bufs[..], order, dev, blockno, j)
      modifies bufs
      ensures r.Some? ==> k < NBUF && order[k] == r.value && r.value < NBUF && Victim(old(bufs[..]), order, dev, blockno, k)
      ensures r.Some? ==> bufs[..] == old(bufs[..])[r.value := Buf(dev, blockno, false, false, 1)]
      ensures r.None? ==> bufs[..] == old(bufs[..]) && forall j: nat :: !IsUnused(bufs[..], order, j)
    {
      var rest := |order|;
      assert LinkAt(next[..], prev[..], order, |order|);
      var b := prev[HEAD];
      while b != HEAD
        invariant 0 <= rest <= |order| && b == (if rest > 0 then order[rest - 1] else HEAD)
        invariant forall j: nat :: rest <= j ==> !IsUnused(bufs[..], order, j)
        decreases rest
      {
        assert LinkAt(next[..], prev[..], order, rest - 1);
        if bufs[b].refcnt == 0 && !bufs[b].dirty {
          bufs[b] := bufs[b].(dev := dev, blockno := blockno, valid := false, dirty := false, refcnt := 1);
          return Some(b), rest - 1;
        }
        b := prev[b];
        rest := rest - 1;
      }
      return None, 0;
    }
  }

  lemma NotInWithout(next: seq<nat>, prev: seq<nat>, order: seq<nat>, k: nat)
    requires Ring(next, prev, order) && k < |order|
    ensures order[k] !in Without(order, k)
  {
    forall j | 0 <= j < |order| && j != k ensures order[j] != order[k] {
      assert ApartAt(order, j + 1, k + 1);
    }
  }
}
