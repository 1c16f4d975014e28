/** Runs of system calls and faults against the machine whose fork copies every page. */
module MemoryRuns {
  import opened Prelude
  import opened Kalloc
  import opened CopyOnWrite
  import opened Regions
  import opened VspaceState
  import opened ForkState
  import opened Teardown
  import opened Loading

  /** What changes user memory: the calls and faults of the address-space operations. */
  datatype Call =
    | DoLoad(pid: nat, sites: seq<Region>, segs: seq<Segment>)                 // userinit, or exec's new program
    | DoFork(parent: nat, child: nat)
    | DoStore(k: Key, off: nat, b: byte)
    | DoFault(pid: nat, va: nat)                                               // the write fault on a shared page
    | DoGrow(pid: nat, region: nat, reg: Region, lo: nat, hi: nat, size: nat)  // sbrk or stack growth
    | DoExit(pid: nat)                                                         // the memory part of wait
    | DoNothing                                                                // one that changes no memory

  predicate NoPages(v: Memory, pid: nat) {
    forall k :: k in v ==> k.pid != pid
  }

  /** What each of them does to the memory the processes see. */
  ghost predicate Effect(v0: Memory, call: Call, v: Memory) {
    match call
    case DoLoad(pid, sites, segs) => NoPages(v0, pid) && sites != [] && ProgramSeen(v0, v, pid, sites[VR_CODE].base / 4096, segs)
    case DoFork(p, c) => p != c && NoPages(v0, c) && Forked(v0, v, p, c)
    case DoStore(k, off, b) => Legal(v0, Store(k, off, b)) && v == Apply(v0, Store(k, off, b))
    case DoFault(_, _) => v == v0
    case DoNothing => v == v0
    case DoGrow(pid, r, reg, lo, hi, _) => GrownView(v0, v, pid, r, reg, true, lo, hi)
    case DoExit(pid) => Reaped(v0, v, pid)
  }

  /** And to where the regions lie. */
  function Relaid(l: map<nat, seq<Region>>, call: Call): map<nat, seq<Region>> {
    match call
    case DoLoad(pid, sites, _) => l[pid := sites]
    case DoFork(p, c) => if p in l then l[c := l[p]] else l
    case DoGrow(pid, r, _, _, _, size) => Widened(l, pid, r, size)
    case DoExit(pid) => l - {pid}
    case _ => l
  }

  predicate ManyPages(call: Call) {
    call.DoLoad? || call.DoFork? || call.DoGrow? || call.DoExit?
  }

  // ---- as events of single pages ----

  /** The slots a call gives a page to or takes one from. */
  ghost function Touched(v0: Memory, call: Call, v: Memory): set<Key> {
    match call
    case DoLoad(pid, _, _) => set k | k in v && k.pid == pid
    case DoFork(p, c) => set k | k in v && k.pid == c
    case DoGrow(pid, r, reg, lo, hi, _) => set k | k in v && NewKey(pid, r, reg, lo, hi, k)
    case DoExit(pid) => set k | k in v0 && k.pid == pid
    case _ => {}
  }

  /** fork copies the parent's page, growth maps a cleared one, loading maps and fills one, and teardown
      unmaps. */
  function Edit(call: Call, v: Memory, k: Key): seq<Event> {
    match call
    case DoLoad(_, _, _) => if k in v then [Map(k, v[k].writable), Event.Fill(k, v[k].bytes)] else []
    case DoFork(p, c) => [Copy(Key(p, k.region, k.idx), k)]
    case DoExit(_) => [Unmap(k)]
    case _ => [Map(k, true)]
  }

  ghost function Pick(ks: set<Key>): Key
    requires ks != {}
  {
    var k :| k in ks; k
  }

  ghost function Edits(call: Call, v: Memory, ks: set<Key>): seq<Event>
    decreases |ks|
  {
    if ks == {} then [] else Edits(call, v, ks - {Pick(ks)}) + Edit(call, v, Pick(ks))
  }

  ghost function EventsOf(v0: Memory, call: Call, v: Memory): seq<Event> {
    match call
    case DoStore(k, off, b) => [Store(k, off, b)]
    case DoFault(_, _) => []
    case DoNothing => []
    case _ => Edits(call, v, Touched(v0, call, v))
  }

  /** Slot k once the slots in ks were edited. */
  predicate EditedAt(v0: Memory, v: Memory, ks: set<Key>, w: Memory, k: Key) {
    var goal := if k in ks then v else v0;
    (k in w <==> k in goal) && (k in w ==> w[k] == goal[k])
  }

  ghost predicate Edited(v0: Memory, v: Memory, ks: set<Key>, w: Memory) {
    forall k: Key :: EditedAt(v0, v, ks, w, k)
  }

  /** What one page's events do to memory w. */
  function EditOf(call: Call, v: Memory, w: Memory, k: Key): Memory {
    match call
    case DoExit(_) => w - {k}
    case _ => if k in v then w[k := v[k]] else w
  }

  lemma OneEvent(m: Memory, e: Event, total: nat)
    requires |m| <= total && Legal(m, e) && |Apply(m, e)| <= total
    ensures ApplyAll(m, [e]) == Apply(m, e) && Possible(m, [e], total)
  {
    var none: seq<Event> := [];
    NothingPossible(m, total);
    OneMoreEvent(m, none, e, total);
    assert none + [e] == [e];
  }

  lemma MapThenFill(w: Memory, k: Key, page: UserPage, total: nat)
    requires k !in w && |page.bytes| == PGSIZE && |w| <= total && |w[k := page]| <= total
    ensures ApplyAll(w, [Map(k, page.writable), Event.Fill(k, page.bytes)]) == w[k := page]
    ensures Possible(w, [Map(k, page.writable), Event.Fill(k, page.bytes)], total)
  {
    var w1 := w[k := UserPage(ZeroPage(), page.writable)];
    assert w1.Keys == w[k := page].Keys;
    assert |w1| == |w1.Keys| && |w[k := page]| == |w[k := page].Keys|;
    OneEvent(w, Map(k, page.writable), total);
    OneMoreEvent(w, [Map(k, page.writable)], Event.Fill(k, page.bytes), total);
    assert [Map(k, page.writable)] + [Event.Fill(k, page.bytes)] == [Map(k, page.writable), Event.Fill(k, page.bytes)];
    assert w1[k := page] == w[k := page];
  }

  /** One page's events are the right ones, whatever was edited before, and legal. */
  lemma EditStep(v0: Memory, call: Call, v: Memory, ks: set<Key>, k: Key, w: Memory, total: nat)
    requires Effect(v0, call, v) && ks <= Touched(v0, call, v) && k in ks && Edited(v0, v, ks - {k}, w) && ManyPages(call)
    requires |w| <= total && |EditOf(call, v, w, k)| <= total
    ensures ApplyAll(w, Edit(call, v, k)) == EditOf(call, v, w, k) && Possible(w, Edit(call, v, k), total)
  {
    assert EditedAt(v0, v, ks - {k}, w, k);
    match call {
      case DoLoad(pid, sites, segs) =>
        assert ProgramAt(v0, v, pid, sites[VR_CODE].base / 4096, segs, k);
        MapThenFill(w, k, v[k], total);
      case DoFork(p, c) =>
        var src := Key(p, k.region, k.idx);
        assert ForkedAt(v0, v, p, c, k) && EditedAt(v0, v, ks - {k}, w, src);
        OneEvent(w, Copy(src, k), total);
      case DoGrow(pid, r, reg, lo, hi, _) =>
        assert GrownViewAt(v0, v, pid, r, reg, true, lo, hi, k);
        OneEvent(w, Map(k, true), total);
      case DoExit(pid) =>
        OneEvent(w, Unmap(k), total);
      case _ =>
    }
  }

  lemma EditedOne(v0: Memory, call: Call, v: Memory, ks: set<Key>, k: Key, w: Memory)
    requires Effect(v0, call, v) && ks <= Touched(v0, call, v) && k in ks && Edited(v0, v, ks - {k}, w) && ManyPages(call)
    ensures Edited(v0, v, ks, EditOf(call, v, w, k))
  {
    var w' := EditOf(call, v, w, k);
    if call.DoExit? {
      assert ReapedAt(v0, v, call.pid, k);
    }
    forall j: Key ensures EditedAt(v0, v, ks, w', j) {
      assert EditedAt(v0, v, ks - {k}, w, j);
    }
  }

  /** There are never more pages on the way than before or after. */
  lemma EditedSize(v0: Memory, call: Call, v: Memory, ks: set<Key>, w: Memory, total: nat)
    requires Effect(v0, call, v) && ks <= Touched(v0, call, v) && Edited(v0, v, ks, w) && ManyPages(call)
    requires |v0| <= total && |v| <= total
    ensures |w| <= total
  {
    var most := if call.DoExit? then v0 else v;
    forall k | k in w ensures k in most {
      assert EditedAt(v0, v, ks, w, k);
      if k !in Touched(v0, call, v) {
        Untouched(v0, call, v, k);
      }
    }
    SubsetSize(w.Keys, most.Keys);
    assert |w| == |w.Keys| && |most| == |most.Keys|;
  }

  /** Outside the touched slots a page stays, or goes nowhere but in teardown. */
  lemma Untouched(v0: Memory, call: Call, v: Memory, k: Key)
    requires Effect(v0, call, v) && k !in Touched(v0, call, v) && ManyPages(call)
    ensures (k in v <==> k in v0) && (k in v ==> v[k] == v0[k])
  {
    match call
    case DoLoad(pid, sites, segs) => assert ProgramAt(v0, v, pid, sites[VR_CODE].base / 4096, segs, k);
    case DoFork(p, c) => assert ForkedAt(v0, v, p, c, k);
    case DoGrow(pid, r, reg, lo, hi, _) => assert GrownViewAt(v0, v, pid, r, reg, true, lo, hi, k);
    case DoExit(pid) => assert ReapedAt(v0, v, pid, k);
    case _ =>
  }

  /** Events a, which lead from m to m1, and then events b. */
  ghost predicate Chained(m: Memory, a: seq<Event>, m1: Memory, b: seq<Event>, total: nat) {
    ApplyAll(m, a + b) == ApplyAll(m1, b) && Possible(m, a + b, total)
  }

  lemma ChainedNone(m: Memory, a: seq<Event>, total: nat)
    requires Possible(m, a, total)
    ensures Chained(m, a, ApplyAll(m, a), [], total)
  {
    assert a + [] == a;
  }

  lemma ChainedOne(m: Memory, a: seq<Event>, m1: Memory, c: seq<Event>, e: Event, total: nat)
    requires Chained(m, a, m1, c, total) && Possible(m1, c + [e], total)
    ensures Chained(m, a, m1, c + [e], total)
  {
    PossiblePrefix(m1, c, e, total);
    ApplyOneMore(m1, c, e);
    OneMoreEvent(m, a + c, e, total);
    assert a + (c + [e]) == a + c + [e];
  }

  lemma {:induction false} ChainedAll(m: Memory, a: seq<Event>, m1: Memory, b: seq<Event>, total: nat)
    requires Chained(m, a, m1, [], total) && Possible(m1, b, total)
    ensures Chained(m, a, m1, b, total)
    decreases |b|
  {
    if b != [] {
      var c, e := b[..|b| - 1], b[|b| - 1];
      assert b == c + [e];
      PossiblePrefix(m1, c, e, total);
      ChainedAll(m, a, m1, c, total);
      ChainedOne(m, a, m1, c, e, total);
    }
  }

  lemma ApplyBoth(m: Memory, a: seq<Event>, b: seq<Event>, total: nat)
    requires Possible(m, a, total) && Possible(ApplyAll(m, a), b, total)
    ensures ApplyAll(m, a + b) == ApplyAll(ApplyAll(m, a), b) && Possible(m, a + b, total)
  {
    ChainedNone(m, a, total);
    ChainedAll(m, a, ApplyAll(m, a), b, total);
  }

  lemma {:induction false} EditsEdit(v0: Memory, call: Call, v: Memory, ks: set<Key>, total: nat)
    requires Effect(v0, call, v) && ks <= Touched(v0, call, v) && ManyPages(call) && |v0| <= total && |v| <= total
    ensures Edited(v0, v, ks, ApplyAll(v0, Edits(call, v, ks))) && Possible(v0, Edits(call, v, ks), total)
    decreases |ks|
  {
    if ks == {} {
      NothingPossible(v0, total);
      forall k: Key ensures EditedAt(v0, v, ks, v0, k) {
      }
    } else {
      var k := Pick(ks);
      EditsEdit(v0, call, v, ks - {k}, total);
      var es := Edits(call, v, ks - {k});
      var w := ApplyAll(v0, es);
      EditedOne(v0, call, v, ks, k, w);
      EditedSize(v0, call, v, ks, EditOf(call, v, w, k), total);
      EditedSize(v0, call, v, ks - {k}, w, total);
      EditStep(v0, call, v, ks, k, w, total);
      ApplyBoth(v0, es, Edit(call, v, k), total);
    }
  }

  lemma EditsAll(v0: Memory, call: Call, v: Memory, total: nat)
    requires Effect(v0, call, v) && ManyPages(call) && |v0| <= total && |v| <= total
    ensures ApplyAll(v0, Edits(call, v, Touched(v0, call, v))) == v && Possible(v0, Edits(call, v, Touched(v0, call, v)), total)
  {
    var ks := Touched(v0, call, v);
    EditsEdit(v0, call, v, ks, total);
    var w := ApplyAll(v0, Edits(call, v, ks));
    forall k: Key ensures (k in w <==> k in v) && (k in w ==> w[k] == v[k]) {
      assert EditedAt(v0, v, ks, w, k);
      if k !in ks {
        Untouched(v0, call, v, k);
      }
    }
  }

  /** A call does to memory what its page events do; fork's are copies of the parent's pages. */
  lemma {:induction false} CallIsEvents(v0: Memory, call: Call, v: Memory, total: nat)
    requires Effect(v0, call, v) && |v0| <= total && |v| <= total
    ensures ApplyAll(v0, EventsOf(v0, call, v)) == v && Possible(v0, EventsOf(v0, call, v), total)
  {
    if call.DoStore? {
      OneEvent(v0, Store(call.k, call.off, call.b), total);
    } else if !ManyPages(call) {
      NothingPossible(v0, total);
    } else {
      EditsAll(v0, call, v, total);
    }
  }

  // ---- whole runs ----

  ghost predicate CallAt(vs: seq<Memory>, calls: seq<Call>, i: nat) {
    i < |calls| && i + 1 < |vs| ==> Effect(vs[i], calls[i], vs[i + 1])
  }

  ghost predicate CallRun(vs: seq<Memory>, calls: seq<Call>) {
    |vs| == |calls| + 1 && forall i: nat :: CallAt(vs, calls, i)
  }

  ghost function RunEvents(vs: seq<Memory>, calls: seq<Call>, n: nat): seq<Event>
    requires |vs| == |calls| + 1 && n <= |calls|
  {
    if n == 0 then [] else RunEvents(vs, calls, n - 1) + EventsOf(vs[n - 1], calls[n - 1], vs[n])
  }

  lemma {:induction false} RunIsEvents(vs: seq<Memory>, calls: seq<Call>, n: nat, total: nat)
    requires CallRun(vs, calls) && n <= |calls| && forall i :: 0 <= i < |vs| ==> |vs[i]| <= total
    ensures ApplyAll(vs[0], RunEvents(vs, calls, n)) == vs[n] && Possible(vs[0], RunEvents(vs, calls, n), total)
  {
    if n == 0 {
      NothingPossible(vs[0], total);
    } else {
      RunIsEvents(vs, calls, n - 1, total);
      assert CallAt(vs, calls, n - 1);
      OneMoreCall(vs[0], RunEvents(vs, calls, n - 1), vs[n - 1], calls[n - 1], vs[n], total);
    }
  }

  lemma {:induction false} OneMoreCall(m: Memory, es: seq<Event>, v0: Memory, call: Call, v: Memory, total: nat)
    requires ApplyAll(m, es) == v0 && Possible(m, es, total) && Effect(v0, call, v) && |v0| <= total && |v| <= total
    ensures ApplyAll(m, es + EventsOf(v0, call, v)) == v && Possible(m, es + EventsOf(v0, call, v), total)
  {
    CallIsEvents(v0, call, v, total);
    ApplyBoth(m, es, EventsOf(v0, call, v), total);
  }

  /** An eager machine that looks like the first of these memories and has a frame for every page there
      ever is. */
  ghost predicate EagerStart(t: State, vs: seq<Memory>) {
    EagerInv(t) && |vs| > 0 && View(t) == vs[0] && forall i :: 0 <= i < |vs| ==> |vs[i]| <= Frames(t)
  }

  function FreeCore(n: nat): seq<CoreEntry> {
    seq(n, _ => CoreEntry(true, false, 0, 0))
  }

  lemma {:induction false} CountFree(n: nat)
    ensures |Available(FreeCore(n))| == n
  {
    if n == 0 {
      assert Available(FreeCore(0)) == {};
    } else {
      CountFree(n - 1);
      assert Available(FreeCore(n)) == Available(FreeCore(n - 1)) + {n - 1};
    }
  }

  /** A machine without pages and with n frames. */
  lemma FreshMachine(n: nat) returns (t: State)
    ensures EagerInv(t) && View(t) == map[] && Frames(t) == n
  {
    CountFree(n);
    t := State(map[], map[], FreeCore(n));
  }

  lemma {:induction false} Largest(vs: seq<Memory>) returns (n: nat)
    ensures forall i :: 0 <= i < |vs| ==> |vs[i]| <= n
  {
    if vs == [] {
      n := 0;
    } else {
      var last := |vs| - 1;
      var n' := Largest(vs[..last]);
      n := if n' < |vs[last]| then |vs[last]| else n';
      assert forall i :: 0 <= i < last ==> vs[i] == vs[..last][i];
    }
  }

  /** There is one, for any run that starts without pages. */
  lemma EagerExists(vs: seq<Memory>) returns (t: State)
    requires |vs| > 0 && vs[0] == map[]
    ensures EagerStart(t, vs)
  {
    var n := Largest(vs);
    t := FreshMachine(n);
  }

  /** After the events of the first i calls it shows memory vs[i]. */
  ghost predicate ShowsAt(vs: seq<Memory>, calls: seq<Call>, ts: seq<State>, i: nat) {
    |vs| == |calls| + 1 && i <= |calls| ==>
      |RunEvents(vs, calls, i)| < |ts| && View(ts[|RunEvents(vs, calls, i)|]) == vs[i]
  }

  ghost predicate Shows(t: State, vs: seq<Memory>, calls: seq<Call>, ts: seq<State>, ds: seq<Choice>)
    requires |vs| == |calls| + 1
  {
    Follows(t, RunEvents(vs, calls, |calls|), ts, ds) && forall i: nat :: ShowsAt(vs, calls, ts, i)
  }

  lemma {:induction false} EventsGrow(vs: seq<Memory>, calls: seq<Call>, i: nat, n: nat)
    requires |vs| == |calls| + 1 && i <= n <= |calls|
    ensures RunEvents(vs, calls, i) <= RunEvents(vs, calls, n)
  {
    if i < n {
      EventsGrow(vs, calls, i, n - 1);
      PrefixOfMore(RunEvents(vs, calls, i), RunEvents(vs, calls, n - 1), EventsOf(vs[n - 1], calls[n - 1], vs[n]));
    }
  }

  lemma PrefixOfMore<T>(a: seq<T>, b: seq<T>, c: seq<T>)
    requires a <= b
    ensures a <= b + c
  {
  }

  lemma ShowsOnTheWay(t: State, vs: seq<Memory>, calls: seq<Call>, ts: seq<State>, ds: seq<Choice>, i: nat)
    requires CallRun(vs, calls) && EagerStart(t, vs) && Follows(t, RunEvents(vs, calls, |calls|), ts, ds) && i <= |calls|
    ensures ShowsAt(vs, calls, ts, i)
  {
    EventsGrow(vs, calls, i, |calls|);
    EagerOnTheWay(ts, ds, RunEvents(vs, calls, i));
    RunIsEvents(vs, calls, i, Frames(t));
  }

  /** Copy-on-write fork refines eager copy, over whole runs: in every state of any run of loading, fork,
      user writes, write faults, sbrk, stack growth and teardown, every process sees the memory it sees on
      a machine that goes through the same pages but copies each of them at fork and never shares a frame. */
  lemma CallsRefineEager(vs: seq<Memory>, calls: seq<Call>, t: State) returns (ts: seq<State>, ds: seq<Choice>)
    requires CallRun(vs, calls) && EagerStart(t, vs)
    ensures Shows(t, vs, calls, ts, ds)
  {
    RunIsEvents(vs, calls, |calls|, Frames(t));
    ts, ds := EagerFollows(t, RunEvents(vs, calls, |calls|));
    forall i: nat ensures ShowsAt(vs, calls, ts, i) {
      if i <= |calls| {
        ShowsOnTheWay(t, vs, calls, ts, ds, i);
      }
    }
  }
}
