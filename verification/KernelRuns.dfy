/** The kernel's own operations, driven by any sequence of requests from the moment the machine has no
    process, and what such a run looks like to the processes. */
module KernelRuns {
  import opened Prelude
  import opened Kalloc
  import opened PageTable
  import opened X86Vm
  import opened CopyOnWrite
  import opened Regions
  import opened VspaceUpdate
  import opened VspaceState
  import opened Layout
  import opened Addresses
  import opened Vspace
  import opened Loading
  import opened MemoryRuns

  /** What may be asked of the kernel, or happen to it. `id` names an address space. */
  datatype Request =
    | First(id: nat, init: seq<byte>)                       // userinit
    | Exec(id: nat, segs: seq<Segment>)                     // exec's new address space
    | Fork(parent: nat, child: nat)
    | Write(id: nat, va: nat, b: byte)                      // a store instruction meets the hardware
    | Trap(id: nat, va: nat, write: bool, user: bool)       // a page fault
    | Sbrk(id: nat, n: int)
    | Free(id: nat)                                         // wait's or exec's vspacefree

  /** The request makes sense now: it names address spaces that are there, or not yet there. */
  predicate Sensible(spaces: map<nat, Space>, req: Request) {
    match req
    case First(id, init) => id !in spaces && (|init| + 4095) / 4096 + 21 < STACK_TOP - MAX_STACK
    case Exec(id, segs) => id !in spaces && Loadable(segs)
    case Fork(parent, child) => parent in spaces && child !in spaces
    case Write(id, va, _) => id in spaces && va / 4096 < PML4_PAGES
    case Trap(id, _, _, _) => id in spaces
    case Sbrk(id, n) => id in spaces && n < 0x8000_0000
    case Free(id) => id in spaces
  }

  /** Whether the page of va has an entry. */
  predicate Mapped(m: Mem, id: nat, va: nat)
    requires id in m.spaces
  {
    Entry(m.tables, m.spaces[id].pgtbl, va / 4096).present
  }

  /** The stack grows to the page of va. */
  ghost function StackCall(m: Mem, id: nat, va: nat): Call
    requires id in m.spaces && Ready(m.spaces[id]) && va / 4096 < BotPage(m.spaces[id].regions[VR_USTACK])
  {
    var stack := m.spaces[id].regions[VR_USTACK];
    DoGrow(id, VR_USTACK, stack, va / 4096, BotPage(stack), stack.base - va / 4096 * 4096)
  }

  /** The heap grows by that many bytes. */
  ghost function HeapCall(m: Mem, id: nat, more: nat): Call
    requires id in m.spaces && Ready(m.spaces[id])
  {
    var heap := m.spaces[id].regions[VR_HEAP];
    var top := heap.base + heap.size;
    DoGrow(id, VR_HEAP, heap, FirstPage(top, 0), FirstPage(top, more), heap.size + more)
  }

  /** How the page fault handler answers: a write to a shared page is copied if there is a frame, the stack
      grows to a user's access in its range if there are enough, and nothing else is handled. */
  ghost predicate AnswersTrap(m0: Mem, id: nat, va: nat, write: bool, user: bool, call: Call, m: Mem)
    requires id in m0.spaces
  {
    if Mapped(m0, id, va) then
      call == if write && CowAt(m0.spaces[id], va) && Available(m0.core) != {} then DoFault(id, va) else DoNothing
    else if call == DoNothing then user ==> StackDeclined(m0, m, id, va)
    else
      && user && Ready(m0.spaces[id]) && STACK_TOP - MAX_STACK <= va / 4096 < BotPage(m0.spaces[id].regions[VR_USTACK])
      && call == StackCall(m0, id, va)
  }

  /** How sbrk does: it grows the heap, unless too few frames are left. */
  ghost predicate AnswersSbrk(m0: Mem, id: nat, n: int, call: Call, m: Mem)
    requires id in m0.spaces
  {
    if call == DoNothing then HeapDeclined(m0, m, id, n) else Ready(m0.spaces[id]) && call == HeapCall(m0, id, More(n))
  }

  /** The call that answers a request in state m0 and leads to m. */
  ghost predicate Answers(m0: Mem, req: Request, call: Call, m: Mem)
    requires Sensible(m0.spaces, req)
  {
    match req
    case First(id, init) => call == DoLoad(id, InitSites(init), InitSegments(init))
    case Exec(id, segs) => segs != [] && InOrder(segs, 0, |segs| - 1) && call == DoLoad(id, ExecSites(segs), segs)
    case Fork(parent, child) => call == DoFork(parent, child)
    case Write(id, va, b) =>
      if !Writable(m0.tables, m0.spaces[id], va) then call == DoNothing
      else FindUsed(m0.spaces[id], va / 4096, NREGIONS).Some? && call == DoStore(KeyOf(id, m0.spaces[id], va), va % 4096, b)
    case Trap(id, va, write, user) => AnswersTrap(m0, id, va, write, user, call, m)
    case Sbrk(id, n) => AnswersSbrk(m0, id, n, call, m)
    case Free(id) => call == DoExit(id)
  }

  /** What a call does to the pages the processes see, and to where they lie. */
  ghost predicate Changed(m0: Mem, call: Call, m: Mem) {
    Effect(View(Cow(m0)), call, View(Cow(m))) && Sites(m.spaces) == Relaid(Sites(m0.spaces), call)
  }

  /** What one request did. */
  ghost predicate Did(m0: Mem, req: Request, call: Call, m: Mem)
    requires Sensible(m0.spaces, req)
  {
    Answers(m0, req, call, m) && Changed(m0, call, m)
  }

  /** Why the kernel may stop in state m0, having got to m: the request needs a frame and none is left, it
      grows one region into another, it is a write to a mapped page outside every region, or something is
      wrong with the program or the kernel map. */
  ghost predicate MayStop(m0: Mem, kmap: seq<KMap>, req: Request, m: Mem)
    requires Sensible(m0.spaces, req)
  {
    match req
    case First(_, init) => CannotLoad(InitSegments(init), kmap, |Available(m.core)|)
    case Exec(_, segs) => CannotLoad(segs, kmap, |Available(m.core)|)
    case Fork(_, _) => Available(m.core) == {} || KMapOverlaps(kmap)
    case Trap(id, va, write, user) =>
      if Mapped(m0, id, va) then write && Va2Vregion(m0.spaces[id], va).None? else user && StackStopped(m0, m, id, va)
    case Sbrk(id, n) => HeapStopped(m0, m, id, n)
    case _ => false
  }

  lemma NoPagesOf(m: Mem, pid: nat)
    requires MemOk(m) && pid !in m.spaces
    ensures NoPages(View(Cow(m)), pid)
  {
    forall k | k in View(Cow(m)) ensures k.pid != pid {
      assert CoupledAt(m, k) && KeyOk(Cow(m), k);
    }
  }

  lemma ChangedNothing(m0: Mem, m: Mem)
    requires SameMemory(m0, m)
    ensures Changed(m0, DoNothing, m)
  {
    assert View(Cow(m)) == View(Cow(m0));
  }

  lemma StackChanged(m0: Mem, m: Mem, id: nat, va: nat)
    requires id in m0.spaces && Ready(m0.spaces[id]) && StackGrown(m0, m, id, va)
    ensures Changed(m0, StackCall(m0, id, va), m)
  {
  }

  lemma HeapChanged(m0: Mem, m: Mem, id: nat, more: nat)
    requires id in m0.spaces && Ready(m0.spaces[id]) && HeapGrown(m0, m, id, more)
    ensures Changed(m0, HeapCall(m0, id, more), m)
  {
  }

  method DoTrap(v: Vspaces, id: nat, va: nat, write: bool, user: bool) returns (alive: bool, ghost call: Call)
    requires v.Valid() && AllClean(v.Now()) && id in v.spaces
    modifies v, v.pt, v.pt.cm, v.pt.cm.core
    ensures alive ==> v.Valid() && AllClean(v.Now()) && AnswersTrap(old(v.Now()), id, va, write, user, call, v.Now()) && Changed(old(v.Now()), call, v.Now())
    ensures !alive ==> MayStop(old(v.Now()), [], Trap(id, va, write, user), v.Now())
  {
    ghost var m0 := v.Now();
    assert CleanAt(m0, id);
    var present := Entry(v.pt.tables, v.spaces[id].pgtbl, va / 4096).present;
    var res := v.PageFault(id, va, present, write, user);
    alive := res.Handled? || res.Unhandled?;
    call := if res.Handled? && present then DoFault(id, va) else DoNothing;
    if res.Unhandled? {
      ChangedNothing(m0, v.Now());
    } else if res.Handled? && !present {
      call := StackCall(m0, id, va);
      StackChanged(m0, v.Now(), id, va);
    }
  }

  method DoSbrk(v: Vspaces, id: nat, n: int) returns (alive: bool, ghost call: Call)
    requires v.Valid() && AllClean(v.Now()) && id in v.spaces && n < 0x8000_0000
    modifies v, v.pt, v.pt.cm, v.pt.cm.core
    ensures alive ==> v.Valid() && AllClean(v.Now()) && AnswersSbrk(old(v.Now()), id, n, call, v.Now()) && Changed(old(v.Now()), call, v.Now())
    ensures !alive ==> MayStop(old(v.Now()), [], Request.Sbrk(id, n), v.Now())
  {
    ghost var m0 := v.Now();
    assert CleanAt(m0, id);
    var res := v.Sbrk(id, n);
    alive := res.Moved? || res.SbrkError?;
    call := DoNothing;
    if res.Moved? {
      call := HeapCall(m0, id, More(n));
      HeapChanged(m0, v.Now(), id, More(n));
    } else if res.SbrkError? {
      ChangedNothing(m0, v.Now());
    }
  }

  method DoWrite(v: Vspaces, id: nat, va: nat, b: byte) returns (ghost call: Call)
    requires v.Valid() && AllClean(v.Now()) && id in v.spaces && va / 4096 < PML4_PAGES
    modifies v`data
    ensures v.Valid() && AllClean(v.Now()) && Did(old(v.Now()), Write(id, va, b), call, v.Now())
  {
    ghost var m := v.Now();
    assert CleanAt(m, id);
    HardwareView(m, id, va);
    var r := v.StoreUser(id, va, b);
    call := DoNothing;
    if r.Done? {
      call := DoStore(KeyOf(id, v.spaces[id], va), va % 4096, b);
    } else {
      assert v.Now() == m;
    }
  }

  method DoExec(v: Vspaces, kmap: seq<KMap>, id: nat, segs: seq<Segment>) returns (alive: bool, ghost call: Call)
    requires v.Valid() && AllClean(v.Now()) && id !in v.spaces && Loadable(segs) && forall i :: 0 <= i < |kmap| ==> KernelRange(kmap[i])
    modifies v, v.pt, v.pt.cm, v.pt.cm.core
    ensures alive ==> v.Valid() && AllClean(v.Now()) && Did(old(v.Now()), Exec(id, segs), call, v.Now())
    ensures !alive ==> MayStop(old(v.Now()), kmap, Exec(id, segs), v.Now())
  {
    NoPagesOf(v.Now(), id);
    var res := LoadProgram(v, id, kmap, segs);
    alive, call := res.Succeeded?, DoNothing;
    if alive {
      call := DoLoad(id, ExecSites(segs), segs);
    }
  }

  /** The first process, exec's new address space and fork. */
  method DoNew(v: Vspaces, kmap: seq<KMap>, req: Request) returns (alive: bool, ghost call: Call)
    requires v.Valid() && AllClean(v.Now()) && Sensible(v.spaces, req) && forall i :: 0 <= i < |kmap| ==> KernelRange(kmap[i])
    requires req.First? || req.Exec? || req.Fork?
    modifies v, v.pt, v.pt.cm, v.pt.cm.core
    ensures alive ==> v.Valid() && AllClean(v.Now()) && Did(old(v.Now()), req, call, v.Now())
    ensures !alive ==> MayStop(old(v.Now()), kmap, req, v.Now())
  {
    match req {
      case First(id, init) =>
        NoPagesOf(v.Now(), id);
        var res := InitCode(v, id, kmap, init);
        alive, call := res.Succeeded?, DoLoad(id, InitSites(init), InitSegments(init));
      case Exec(id, segs) =>
        alive, call := DoExec(v, kmap, id, segs);
      case Fork(parent, child) =>
        NoPagesOf(v.Now(), child);
        var res := v.Fork(parent, child, kmap);
        alive, call := res.Succeeded?, DoFork(parent, child);
    }
  }

  /** One request. It is not alive any more if the kernel panicked or crashed, or if fork or loading failed,
      which leaves an address space unfinished. */
  method Perform(v: Vspaces, kmap: seq<KMap>, req: Request) returns (alive: bool, ghost call: Call)
    requires v.Valid() && AllClean(v.Now()) && Sensible(v.spaces, req) && forall i :: 0 <= i < |kmap| ==> KernelRange(kmap[i])
    modifies v, v.pt, v.pt.cm, v.pt.cm.core
    ensures alive ==> v.Valid() && AllClean(v.Now()) && Did(old(v.Now()), req, call, v.Now())
    ensures !alive ==> MayStop(old(v.Now()), kmap, req, v.Now())
  {
    match req {
      case Write(id, va, b) =>
        alive := true;
        call := DoWrite(v, id, va, b);
      case Trap(id, va, write, user) =>
        alive, call := DoTrap(v, id, va, write, user);
      case Sbrk(id, n) =>
        alive, call := DoSbrk(v, id, n);
      case Free(id) =>
        v.VspaceFree(id);
        alive, call := true, DoExit(id);
      case _ =>
        alive, call := DoNew(v, kmap, req);
    }
  }

  // ---- whole runs ----

  /** A request in a run: passed over if it makes no sense, and done otherwise. */
  ghost predicate Settled(m0: Mem, req: Request, call: Call, m: Mem) {
    if Sensible(m0.spaces, req) then Did(m0, req, call, m) else call == DoNothing && m == m0
  }

  ghost predicate ServedAt(ms: seq<Mem>, reqs: seq<Request>, calls: seq<Call>, i: nat) {
    i < |calls| && i < |reqs| && i + 1 < |ms| ==> Settled(ms[i], reqs[i], calls[i], ms[i + 1])
  }

  ghost predicate Served(ms: seq<Mem>, reqs: seq<Request>, calls: seq<Call>) {
    |ms| == |calls| + 1 && |calls| <= |reqs| && forall i: nat :: ServedAt(ms, reqs, calls, i)
  }

  lemma ServedStays(ms: seq<Mem>, reqs: seq<Request>, calls: seq<Call>, call: Call, m: Mem, i: nat)
    requires ServedAt(ms, reqs, calls, i) && |ms| == |calls| + 1 && i < |calls|
    ensures ServedAt(ms + [m], reqs, calls + [call], i)
  {
    assert (ms + [m])[i] == ms[i] && (ms + [m])[i + 1] == ms[i + 1] && (calls + [call])[i] == calls[i];
  }

  lemma ServedNext(ms: seq<Mem>, reqs: seq<Request>, calls: seq<Call>, call: Call, m: Mem, i: nat)
    requires |ms| == |calls| + 1 && i == |calls| < |reqs| && Settled(ms[i], reqs[i], call, m)
    ensures ServedAt(ms + [m], reqs, calls + [call], i)
  {
    assert (ms + [m])[i] == ms[i] && (ms + [m])[i + 1] == m && (calls + [call])[i] == call;
  }

  lemma ServedOn(ms: seq<Mem>, reqs: seq<Request>, calls: seq<Call>, call: Call, m: Mem)
    requires Served(ms, reqs, calls) && |calls| < |reqs|
    requires Settled(ms[|calls|], reqs[|calls|], call, m)
    ensures Served(ms + [m], reqs, calls + [call])
  {
    forall i: nat ensures ServedAt(ms + [m], reqs, calls + [call], i) {
      if i < |calls| {
        ServedStays(ms, reqs, calls, call, m, i);
      } else if i == |calls| {
        ServedNext(ms, reqs, calls, call, m, i);
      }
    }
  }

  ghost function Views(ms: seq<Mem>): seq<Memory> {
    seq(|ms|, i requires 0 <= i < |ms| => View(Cow(ms[i])))
  }

  /** What the processes see of such a run is a run of calls. */
  lemma ServedIsCallRun(ms: seq<Mem>, reqs: seq<Request>, calls: seq<Call>)
    requires Served(ms, reqs, calls)
    ensures CallRun(Views(ms), calls)
  {
    forall i: nat ensures CallAt(Views(ms), calls, i) {
      assert ServedAt(ms, reqs, calls, i);
    }
  }

  // ---- against eager copying, by address ----

  lemma {:induction false} SitesFollow(ms: seq<Mem>, reqs: seq<Request>, calls: seq<Call>, i: nat)
    requires Served(ms, reqs, calls) && i < |ms|
    ensures Sites(ms[i].spaces) == SitesAfter(Sites(ms[0].spaces), calls, i)
  {
    if i > 0 {
      SitesFollow(ms, reqs, calls, i - 1);
      assert ServedAt(ms, reqs, calls, i - 1);
    }
  }

  /** Where the regions lie after the first n calls, which the calls alone decide. */
  function SitesAfter(l: map<nat, seq<Region>>, calls: seq<Call>, n: nat): map<nat, seq<Region>>
    requires n <= |calls|
  {
    if n == 0 then l else Relaid(SitesAfter(l, calls, n - 1), calls[n - 1])
  }

  /** A load of va by pid in state i yields what the eager machine, in the states ts, has there after the
      same calls. */
  ghost predicate ReadsAt(ms: seq<Mem>, calls: seq<Call>, ts: seq<State>, i: nat, pid: nat, va: nat) {
    |ms| == |calls| + 1 && i < |ms| && va / 4096 < PML4_PAGES ==>
      var n := |RunEvents(Views(ms), calls, i)|;
      n < |ts| && HardwareByte(ms[i], pid, va) == ByteAt(View(ts[n]), SitesAfter(Sites(ms[0].spaces), calls, i), pid, va)
  }

  ghost predicate EagerReads(t: State, ms: seq<Mem>, calls: seq<Call>)
    requires |ms| == |calls| + 1
  {
    exists ts: seq<State>, ds: seq<Choice> ::
      && Shows(t, Views(ms), calls, ts, ds)
      && forall i: nat, pid: nat, va: nat :: ReadsAt(ms, calls, ts, i, pid, va)
  }

  /** Every machine that never shares a frame, looked the same at first and has a frame for every page
      there ever was can go the same way, and at every point of it every process reads the same byte at
      every address, and has the same right to write it. */
  ghost predicate EagerAgrees(ms: seq<Mem>, calls: seq<Call>)
    requires |ms| == |calls| + 1
  {
    forall t: State :: EagerStart(t, Views(ms)) ==> EagerReads(t, ms, calls)
  }

  ghost predicate AllSound(ms: seq<Mem>) {
    forall i :: 0 <= i < |ms| ==> Sound(ms[i])
  }

  lemma RunReads(ms: seq<Mem>, reqs: seq<Request>, calls: seq<Call>, ts: seq<State>, i: nat, pid: nat, va: nat)
    requires Served(ms, reqs, calls) && AllSound(ms) && ShowsAt(Views(ms), calls, ts, i) && i < |ms| && va / 4096 < PML4_PAGES
    ensures ReadsAt(ms, calls, ts, i, pid, va)
  {
    SitesFollow(ms, reqs, calls, i);
    LoadIsByte(ms[i], pid, va);
    assert Views(ms)[i] == View(Cow(ms[i]));
  }

  lemma RunAgrees(ms: seq<Mem>, reqs: seq<Request>, calls: seq<Call>)
    requires Served(ms, reqs, calls) && AllSound(ms)
    ensures EagerAgrees(ms, calls)
  {
    ServedIsCallRun(ms, reqs, calls);
    forall t: State | EagerStart(t, Views(ms)) ensures EagerReads(t, ms, calls) {
      var ts, ds := CallsRefineEager(Views(ms), calls, t);
      forall i: nat, pid: nat, va: nat ensures ReadsAt(ms, calls, ts, i, pid, va) {
        if i < |ms| && va / 4096 < PML4_PAGES {
          assert ShowsAt(Views(ms), calls, ts, i);
          RunReads(ms, reqs, calls, ts, i, pid, va);
        }
      }
    }
  }

  /** The kernel serves any requests, one after the other. In every state its tables are up to date and its
      counts exact; what stopped it, if anything did, is the next request; and what each process reads at
      each address, at every point, is what eager copying would have shown it. */
  method Serve(v: Vspaces, kmap: seq<KMap>, reqs: seq<Request>) returns (alive: bool, ghost ms: seq<Mem>, ghost calls: seq<Call>)
    requires v.Valid() && AllClean(v.Now()) && forall i :: 0 <= i < |kmap| ==> KernelRange(kmap[i])
    modifies v, v.pt, v.pt.cm, v.pt.cm.core
    ensures Served(ms, reqs, calls) && ms[0] == old(v.Now()) && AllSound(ms) && EagerAgrees(ms, calls)
    ensures alive ==> |calls| == |reqs| && v.Valid() && ms[|calls|] == v.Now()
    ensures !alive ==>
              && |calls| < |reqs| && Sensible(ms[|calls|].spaces, reqs[|calls|])
              && MayStop(ms[|calls|], kmap, reqs[|calls|], v.Now())
  {
    ms, calls, alive := [v.Now()], [], true;
    for n := 0 to |reqs|
      invariant alive && |calls| == n && Served(ms, reqs, calls) && ms[0] == old(v.Now()) && AllSound(ms)
      invariant v.Valid() && AllClean(v.Now()) && ms[|calls|] == v.Now()
    {
      ghost var call := DoNothing;
      if Sensible(v.spaces, reqs[n]) {
        alive, call := Perform(v, kmap, reqs[n]);
        if !alive {
          RunAgrees(ms, reqs, calls);
          return;
        }
      }
      ServedOn(ms, reqs, calls, call, v.Now());
      ms, calls := ms + [v.Now()], calls + [call];
    }
    RunAgrees(ms, reqs, calls);
  }

  /** From power-on: the core map is set up, there is no address space, and then requests come. */
  method PowerOn(npages: nat, end: nat, first: nat, kmap: seq<KMap>, reqs: seq<Request>)
    returns (v: Vspaces, alive: bool, ghost ms: seq<Mem>, ghost calls: seq<Call>)
    requires 0 < end <= first <= npages && forall i :: 0 <= i < |kmap| ==> KernelRange(kmap[i])
    ensures Served(ms, reqs, calls) && ms[0].spaces == map[] && AllSound(ms)
    ensures EagerAgrees(ms, calls) && exists t: State :: EagerStart(t, Views(ms))
    ensures alive ==> |calls| == |reqs| && v.Valid() && ms[|calls|] == v.Now()
    ensures !alive ==>
              && |calls| < |reqs| && Sensible(ms[|calls|].spaces, reqs[|calls|])
              && MayStop(ms[|calls|], kmap, reqs[|calls|], v.Now())
  {
    var cm := new CoreMap.MemInit(npages, end, first);
    var pt := new PageTables(cm);
    v := new Vspaces(pt);
    forall p: nat ensures CleanAt(v.Now(), p) {
    }
    assert View(Cow(v.Now())) == map[];
    alive, ms, calls := Serve(v, kmap, reqs);
    ghost var t := EagerExists(Views(ms));
  }
}
