/** The physical frame allocator: the core map, its reference counts and its two page counters. */
module Kalloc {
  import opened Prelude

  type Frame = nat

  /** One `core_map_entry`. */
  datatype CoreEntry = CoreEntry(available: bool, user: bool, va: nat, refcount: nat)

  /** The frames a scan of the core map finds available. */
  function Available(es: seq<CoreEntry>): set<Frame> {
    set f | 0 <= f < |es| && es[f].available
  }

  /** What one call of kfree does to the entry it is given. */
  function Released(e: CoreEntry): CoreEntry {
    if e.refcount <= 1 then CoreEntry(true, false, 0, 0) else e.(refcount := e.refcount - 1)
  }

  /** A sequence of kfree calls, in order. */
  function FreeAll(es: seq<CoreEntry>, fs: seq<Frame>): (r: seq<CoreEntry>)
    ensures |r| == |es|
  {
    if fs == [] then es
    else FreeOne(FreeAll(es, fs[..|fs| - 1]), fs[|fs| - 1])
  }

  function FreeOne(es: seq<CoreEntry>, f: Frame): seq<CoreEntry> {
    if f < |es| then es[f := Released(es[f])] else es
  }

  /** An entry after n references to it were dropped. */
  function Dropped(e: CoreEntry, n: nat): CoreEntry
    requires n <= e.refcount
  {
    if n == 0 then e
    else if n == e.refcount then CoreEntry(true, false, 0, 0)
    else e.(refcount := e.refcount - n)
  }

  /** Freeing a list of frames drops each one's count by exactly the times it is listed, and makes it
      available exactly when those were all the references it had. */
  lemma {:induction false} FreeAllDropsCounts(es: seq<CoreEntry>, fs: seq<Frame>, f: Frame)
    requires f < |es| && multiset(fs)[f] <= es[f].refcount
    ensures FreeAll(es, fs)[f] == Dropped(es[f], multiset(fs)[f])
  {
    if fs != [] {
      var init: seq<Frame> := fs[..|fs| - 1];
      var last: Frame := fs[|fs| - 1];
      assert fs == init + [last];
      assert multiset(fs) == multiset(init) + multiset{last};
      FreeAllDropsCounts(es, init, f);
    }
  }

  /** Changing one entry changes the available set by at most that frame. */
  lemma AvailableAfterUpdate(es: seq<CoreEntry>, f: Frame, e: CoreEntry)
    requires f < |es|
    ensures Available(es[f := e]) == if e.available then Available(es) + {f} else Available(es) - {f}
  {
  }

  class CoreMap {
    const core: array<CoreEntry>  // core_map; its length is npages
    const end: nat                // first frame not below the kernel's _end
    var freePages: int
    var pagesInUse: int

    /** `free_pages` counts the available entries, and an available frame lies above the kernel and has no
        references. */
    ghost predicate Valid()
      reads this, core
    {
      && freePages == |Available(core[..])|
      && (forall f :: 0 <= f < core.Length && core[f].available ==> end <= f && core[f].refcount == 0)
    }

    /** mem_init: clears the core map, frees every frame from `first` up, then sets the counters. */
    constructor MemInit(npages: nat, end: nat, first: nat)
      requires end <= first <= npages
      ensures Valid() && fresh(core)
      ensures core.Length == npages && this.end == end
      ensures forall f: Frame :: f in Available(core[..]) <==> first <= f < npages
      ensures forall f :: 0 <= f < npages ==> core[f].refcount == 0
      ensures freePages == npages - first && pagesInUse == 0
    {
      core := new CoreEntry[npages](_ => CoreEntry(false, false, 0, 0));
      this.end := end;
      freePages, pagesInUse := 0, 0;
      new;
      var p := first;
      while p < npages
        invariant first <= p <= npages
        invariant forall f :: 0 <= f < npages ==> core[f] == CoreEntry(first <= f < p, false, 0, 0)
        invariant freePages == |Available(core[..])| == p - first
        invariant p == first ==> Available(core[..]) == {}
      {
        AvailableAfterUpdate(core[..], p, CoreEntry(true, false, 0, 0));
        var ok := Kfree(p);
        p := p + 1;
      }
      freePages, pagesInUse := npages - first, 0;
    }

    /** kfree: panics outside [_end, npages); otherwise drops one reference, and makes the frame
        available when none is left. Freeing an allocated frame keeps the counters exact. */
    method Kfree(f: Frame) returns (ok: bool)
      modifies this, core
      ensures ok <==> end <= f < core.Length
      ensures !ok ==> unchanged(this) && unchanged(core)
      ensures ok ==> core[..] == old(core[..])[f := Released(old(core[f]))]
      ensures ok ==> freePages - old(freePages) == if old(core[f].refcount) <= 1 then 1 else 0
      ensures freePages + pagesInUse == old(freePages + pagesInUse)
      ensures ok && old(Valid()) && !old(core[f].available) ==> Valid()
    {
      if !(end <= f < core.Length) {
        return false;
      }
      AvailableAfterUpdate(core[..], f, Released(core[f]));
      var r := core[f];
      if r.refcount > 0 {
        r := r.(refcount := r.refcount - 1);
      }
      if r.refcount == 0 {
        pagesInUse := pagesInUse - 1;
        freePages := freePages + 1;
        r := CoreEntry(true, false, 0, 0);
      }
      core[f] := r;
      return true;
    }

    /** kalloc: hands out the lowest available frame with one reference; fails only when none is
        available. */
    method Kalloc() returns (r: Option<Frame>)
      requires Valid()
      modifies this, core
      ensures Valid()
      ensures r.None? <==> Available(old(core[..])) == {}
      ensures r.None? ==> unchanged(this) && unchanged(core)
      ensures r.Some? ==> r.value in Available(old(core[..]))
      ensures r.Some? ==> forall f :: f in Available(old(core[..])) ==> r.value <= f
      ensures r.Some? ==> core[..] == old(core[..])[r.value := old(core[r.value]).(available := false, refcount := 1)]
      ensures r.Some? ==> freePages == old(freePages) - 1
      ensures freePages + pagesInUse == old(freePages + pagesInUse)
    {
      var i := 0;
      while i < core.Length
        invariant 0 <= i <= core.Length
        invariant forall f :: 0 <= f < i ==> !core[f].available
      {
        if core[i].available {
          AvailableAfterUpdate(core[..], i, core[i].(available := false, refcount := 1));
          assert i in Available(core[..]);
          core[i] := core[i].(available := false, refcount := 1);
          pagesInUse := pagesInUse + 1;
          freePages := freePages - 1;
          return Some(i);
        }
        i := i + 1;
      }
      return None;
    }

    /** increment_refcount: panics outside [_end, npages). */
    method IncrementRefcount(f: Frame) returns (ok: bool)
      modifies core
      ensures ok <==> end <= f < core.Length
      ensures !ok ==> unchanged(core)
      ensures ok ==> core[..] == old(core[..])[f := old(core[f]).(refcount := old(core[f].refcount) + 1)]
      ensures ok && old(Valid()) && !old(core[f].available) ==> Valid()
    {
      if !(end <= f < core.Length) {
        return false;
      }
      AvailableAfterUpdate(core[..], f, core[f].(refcount := core[f].refcount + 1));
      core[f] := core[f].(refcount := core[f].refcount + 1);
      return true;
    }

    /** mark_user_mem: records the user address a frame is mapped at; panics past the core map. */
    method MarkUserMem(f: Frame, va: nat) returns (ok: bool)
      modifies core
      ensures ok <==> f < core.Length
      ensures !ok ==> unchanged(core)
      ensures ok ==> core[..] == old(core[..])[f := old(core[f]).(user := true, va := va)]
      ensures old(Valid()) ==> Valid()
    {
      if f >= core.Length {
        return false;
      }
      AvailableAfterUpdate(core[..], f, core[f].(user := true, va := va));
      core[f] := core[f].(user := true, va := va);
      return true;
    }
  }
}
