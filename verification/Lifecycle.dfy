/** Process lifecycles over every run of the process table. */
module Lifecycle {
  import opened ProcTable

  /** A wait that returned a child. */
  datatype Reap = Reap(pid: nat, waiter: nat)

  /** `making` gives the slot a fork in progress allocated, `slotOf` the slot of each pid in use. */
  datatype State = State(t: seq<Proc>, nextpid: nat, init: nat, making: map<nat, nat>, slotOf: map<nat, nat>, reaped: seq<Reap>)

  datatype Step =
    | Alloc(p: nat, c: nat)       // fork: allocproc
    | AllocFails(p: nat)          // no kernel stack: the slot is given back
    | ForkFails(p: nat)           // no memory: fork returns, the slot stays EMBRYO
    | Adopt(p: nat)               // fork: the child's parent is set
    | Launch(p: nat)              // fork: the child becomes runnable
    | Exit(p: nat)
    | WaitReaps(p: nat, c: nat)
    | WaitSleeps(p: nat)
    | Sleep(p: nat, addr: nat)
    | Wakeup(addr: nat)
    | Kill(i: nat, pid: nat)
    | Yield(p: nat)
    | Dispatch(i: nat)
    | Tidy(p: nat)                // sleep returns: chan is cleared

  predicate Alive(p: Proc) {
    p.state == SLEEPING || p.state == RUNNABLE || p.state == RUNNING
  }

  predicate Started(p: Proc) {
    Alive(p) || p.state == ZOMBIE
  }

  predicate Free(s: State, p: nat) {
    p < |s.t| && s.t[p].state == RUNNING && p !in s.making
  }

  predicate Forking(s: State, p: nat) {
    p < |s.t| && s.t[p].state == RUNNING && p in s.making && s.making[p] < |s.t|
  }

  ghost predicate Enabled(s: State, step: Step) {
    match step
    case Alloc(p, c) => Free(s, p) && FirstUnused(s.t, c)
    case AllocFails(p) => Forking(s, p) && s.t[s.making[p]].parent != s.t[p].pid
    case ForkFails(p) => Forking(s, p) && s.t[s.making[p]].parent != s.t[p].pid
    case Adopt(p) => Forking(s, p) && s.t[s.making[p]].parent != s.t[p].pid
    case Launch(p) => Forking(s, p) && s.t[s.making[p]].parent == s.t[p].pid
    case Exit(p) => Free(s, p) && s.init < |s.t|  // any process, init too
    case WaitReaps(p, c) => Free(s, p) && ZombieChild(s.t, c, s.t[p].pid) && NoZombieChild(s.t, c, s.t[p].pid)
    case WaitSleeps(p) => Free(s, p) && HasChild(s.t, s.t[p].pid) && NoZombieChild(s.t, |s.t|, s.t[p].pid)
    case Sleep(p, _) => p < |s.t| && s.t[p].state == RUNNING
    case Wakeup(_) => true
    case Kill(i, pid) => FirstWithPid(s.t, i, pid)
    case Yield(p) => p < |s.t| && s.t[p].state == RUNNING
    case Dispatch(i) => i < |s.t| && s.t[i].state == RUNNABLE
    case Tidy(p) => p < |s.t| && s.t[p].state == RUNNING
  }

  function Set(s: State, i: nat, p: Proc): State
    requires i < |s.t|
  {
    s.(t := s.t[i := p])
  }

  ghost function Next(s: State, step: Step): State
    requires Enabled(s, step)
  {
    match step
    case Alloc(p, c) =>
      s.(t := Allocated(s.t, c, s.nextpid), nextpid := s.nextpid + 1,
        making := s.making[p := c], slotOf := s.slotOf[s.nextpid := c])
    case AllocFails(p) =>
      var c := s.making[p];
      Set(s, c, s.t[c].(state := UNUSED)).(making := s.making - {p}, slotOf := s.slotOf - {s.t[c].pid})
    case ForkFails(p) => s.(making := s.making - {p})
    case Adopt(p) => var c := s.making[p]; Set(s, c, s.t[c].(parent := s.t[p].pid))
    case Launch(p) =>
      var c := s.making[p];
      Set(s, c, s.t[c].(chan := OnPid(s.t[c].pid), state := RUNNABLE)).(making := s.making - {p})
    case Exit(p) => s.(t := Exited(s.t, p, s.t[s.init].pid))
    case WaitReaps(p, c) =>
      s.(t := Collected(s.t, c), slotOf := s.slotOf - {s.t[c].pid},
        reaped := s.reaped + [Reap(s.t[c].pid, s.t[p].pid)])
    case WaitSleeps(p) => s.(t := FallenAsleep(s.t, p, OnPid(s.t[p].pid)))
    case Sleep(p, c) => s.(t := FallenAsleep(s.t, p, OnAddr(c)))
    case Wakeup(c) => s.(t := Woken(s.t, OnAddr(c)))
    case Kill(i, _) => s.(t := Killed(s.t, i))
    case Yield(p) => Set(s, p, s.t[p].(state := RUNNABLE))
    case Dispatch(i) => Set(s, i, s.t[i].(state := RUNNING))
    case Tidy(p) => Set(s, p, s.t[p].(chan := NoChan))
  }

  /** After userinit: one runnable process, init. */
  predicate Init(s: State) {
    && 0 < |s.t| && s.init == 0 && s.t[0].state == RUNNABLE && s.t[0].pid == 1 && s.t[0].parent == 0 && s.nextpid == 2
    && (forall i :: 0 < i < |s.t| ==> s.t[i] == Proc(UNUSED, 0, 0, NoChan, false))
    && s.making == map[] && s.slotOf == map[1 := 0] && s.reaped == []
  }

  // ---- the invariant ----

  predicate SlotOk(s: State, i: nat) {
    i < |s.t| ==>
      var p := s.t[i];
      && p.pid < s.nextpid
      && (p.state == UNUSED ==> p.parent <= 0)
      && (p.state != UNUSED ==> 0 < p.pid && p.pid in s.slotOf && s.slotOf[p.pid] == i)
      && (Started(p) && i != s.init ==> p.parent > 0)
      && (i == s.init ==> Started(p) && p.parent == 0)
      && (p.state == SLEEPING && p.chan.OnPid? ==> p.chan.pid == p.pid && i !in s.making)
  }

  /** The parent of slot i, if it has one, is not gone, and it has not exited unless it is init. */
  predicate ParentOk(s: State, i: nat) {
    i < |s.t| && s.t[i].parent > 0 ==>
      && s.t[i].parent in s.slotOf && s.slotOf[s.t[i].parent] < |s.t| && s.slotOf[s.t[i].parent] != i
      && (Alive(s.t[s.slotOf[s.t[i].parent]]) || s.slotOf[s.t[i].parent] == s.init)
      && s.t[s.slotOf[s.t[i].parent]].pid == s.t[i].parent
  }

  predicate PidOk(s: State, q: nat) {
    q in s.slotOf ==> 0 < q < s.nextpid && s.slotOf[q] < |s.t| && s.t[s.slotOf[q]].pid == q && s.t[s.slotOf[q]].state != UNUSED
  }

  predicate MakingOk(s: State, p: nat) {
    p in s.making ==>
      var c := s.making[p];
      && p < |s.t| && Alive(s.t[p]) && c < |s.t| && c != p && s.t[c].state == EMBRYO
      && (s.t[c].parent <= 0 || s.t[c].parent == s.t[p].pid)
  }

  predicate MakingApart(s: State, p: nat, q: nat) {
    p in s.making && q in s.making && p != q ==> s.making[p] != s.making[q]
  }

  /** A process other than init asleep in wait has no zombie child. */
  predicate WaitOk(s: State, i: nat, j: nat) {
    i < |s.t| && j < |s.t| && i != s.init && s.t[i].state == SLEEPING && s.t[i].chan == OnPid(s.t[i].pid) && s.t[j].parent == s.t[i].pid
    ==> s.t[j].state != ZOMBIE
  }

  predicate ReapedOk(s: State, a: nat) {
    a < |s.reaped| ==> 0 < s.reaped[a].pid < s.nextpid && s.reaped[a].pid !in s.slotOf
  }

  predicate ReapedOnce(s: State, a: nat, b: nat) {
    a < b < |s.reaped| ==> s.reaped[a].pid != s.reaped[b].pid
  }

  ghost predicate Inv(s: State) {
    && s.init < |s.t|
    && (forall i: nat :: SlotOk(s, i)) && (forall i: nat :: ParentOk(s, i))
    && (forall q: nat :: PidOk(s, q)) && (forall p: nat :: MakingOk(s, p))
    && (forall p: nat, q: nat :: MakingApart(s, p, q))
    && (forall i: nat, j: nat :: WaitOk(s, i, j))
    && (forall a: nat :: ReapedOk(s, a)) && (forall a: nat, b: nat :: ReapedOnce(s, a, b))
  }

  // ---- every step keeps it ----

  /** Everything the invariant says about slots i and j and pid q. */
  predicate AllOk(s: State, i: nat, j: nat, q: nat) {
    && SlotOk(s, i) && ParentOk(s, i) && PidOk(s, q) && MakingOk(s, i) && MakingApart(s, i, j) && WaitOk(s, i, j)
    && ReapedOk(s, i) && ReapedOnce(s, i, j)
  }

  lemma FromAllOk(s: State)
    requires s.init < |s.t| && forall i: nat, j: nat, q: nat :: AllOk(s, i, j, q)
    ensures Inv(s)
  {
    forall i: nat ensures SlotOk(s, i) && ParentOk(s, i) && MakingOk(s, i) && ReapedOk(s, i) {
      assert AllOk(s, i, i, i);
    }
    forall q: nat ensures PidOk(s, q) {
      assert AllOk(s, q, q, q);
    }
    forall i: nat, j: nat ensures MakingApart(s, i, j) && WaitOk(s, i, j) && ReapedOnce(s, i, j) {
      assert AllOk(s, i, j, i);
    }
  }

  lemma ToAllOk(s: State, i: nat, j: nat, q: nat)
    requires Inv(s)
    ensures AllOk(s, i, j, q) && AllOk(s, j, i, q)
  {
    assert SlotOk(s, i) && ParentOk(s, i) && PidOk(s, q) && MakingOk(s, i) && MakingApart(s, i, j) && WaitOk(s, i, j);
    assert SlotOk(s, j) && ParentOk(s, j) && MakingOk(s, j) && MakingApart(s, j, i) && WaitOk(s, j, i);
    assert ReapedOk(s, i) && ReapedOnce(s, i, j) && ReapedOk(s, j) && ReapedOnce(s, j, i);
  }

  // Steps that only change how a live process is scheduled.

  /** What such a step may do to a slot. */
  predicate Rescheduled(s: State, p: Proc, p': Proc, i: nat) {
    && p'.pid == p.pid && p'.parent == p.parent
    && (p'.state == p.state || (Alive(p) && Alive(p')))
    && (p'.state == SLEEPING && p'.chan.OnPid? ==> p.state == SLEEPING && p.chan == p'.chan)
  }

  predicate RescheduledAt(s: State, t: seq<Proc>, i: nat) {
    |t| == |s.t| && (i < |t| ==> Rescheduled(s, s.t[i], t[i], i))
  }

  lemma RescheduleKeeps(s: State, s': State, i: nat, j: nat, q: nat)
    requires Inv(s) && s' == s.(t := s'.t) && forall k: nat :: RescheduledAt(s, s'.t, k)
    ensures AllOk(s', i, j, q)
  {
    ToAllOk(s, i, j, q);
    assert RescheduledAt(s, s'.t, i) && RescheduledAt(s, s'.t, j);
    assert q in s.slotOf ==> RescheduledAt(s, s'.t, s.slotOf[q]);
    if i < |s.t| && s.t[i].parent > 0 {
      assert RescheduledAt(s, s'.t, s.slotOf[s.t[i].parent]);
    }
    assert i in s.making ==> RescheduledAt(s, s'.t, s.making[i]);
  }

  lemma ScheduleAt(s: State, step: Step, i: nat, j: nat, q: nat)
    requires Inv(s) && Enabled(s, step)
    requires step.Sleep? || step.Wakeup? || step.Kill? || step.Yield? || step.Dispatch? || step.Tidy?
    ensures AllOk(Next(s, step), i, j, q)
  {
    var s' := Next(s, step);
    forall k: nat ensures RescheduledAt(s, s'.t, k) {
      assert SlotOk(s, k);
    }
    RescheduleKeeps(s, s', i, j, q);
  }

  // Fork.

  lemma AllocSlot(s: State, p: nat, c: nat, i: nat)
    requires Inv(s) && Enabled(s, Alloc(p, c))
    ensures SlotOk(Next(s, Alloc(p, c)), i) && ParentOk(Next(s, Alloc(p, c)), i)
  {
    assert SlotOk(s, i) && ParentOk(s, i) && SlotOk(s, p) && SlotOk(s, c) && PidOk(s, s.nextpid);
    assert i < |s.t| && s.t[i].parent > 0 ==> PidOk(s, s.t[i].parent);
  }

  lemma AllocAt(s: State, p: nat, c: nat, i: nat, j: nat, q: nat)
    requires Inv(s) && Enabled(s, Alloc(p, c))
    ensures AllOk(Next(s, Alloc(p, c)), i, j, q)
  {
    AllocSlot(s, p, c, i);
    assert SlotOk(s, p) && SlotOk(s, c) && PidOk(s, q) && PidOk(s, s.nextpid);
    assert MakingOk(s, i) && MakingOk(s, j) && MakingApart(s, i, j) && WaitOk(s, i, j) && ReapedOk(s, i) && ReapedOnce(s, i, j);
    assert SlotOk(s, i) && SlotOk(s, j);
  }

  lemma AllocFailsAt(s: State, p: nat, i: nat, j: nat, q: nat)
    requires Inv(s) && Enabled(s, AllocFails(p))
    ensures AllOk(Next(s, AllocFails(p)), i, j, q)
  {
    ToAllOk(s, i, j, q);
    assert MakingOk(s, p) && SlotOk(s, s.making[p]) && MakingApart(s, i, p) && MakingApart(s, j, p);
  }

  lemma AdoptAt(s: State, p: nat, i: nat, j: nat, q: nat)
    requires Inv(s) && Enabled(s, Adopt(p))
    ensures AllOk(Next(s, Adopt(p)), i, j, q)
  {
    ToAllOk(s, i, j, q);
    assert MakingOk(s, p) && SlotOk(s, p) && SlotOk(s, s.making[p]) && MakingApart(s, i, p) && MakingApart(s, j, p);
  }

  lemma LaunchAt(s: State, p: nat, i: nat, j: nat, q: nat)
    requires Inv(s) && Enabled(s, Launch(p))
    ensures AllOk(Next(s, Launch(p)), i, j, q)
  {
    ToAllOk(s, i, j, q);
    assert MakingOk(s, p) && SlotOk(s, p) && SlotOk(s, s.making[p]) && MakingApart(s, i, p) && MakingApart(s, j, p);
  }

  // Exit and wait.

  /** What exit does to the slot of somebody else. */
  predicate ExitedAt(s: State, p: nat, t: seq<Proc>, i: nat)
    requires p < |s.t| && s.init < |s.t|
  {
    |t| == |s.t| && (i < |t| ==>
      && t[i].pid == s.t[i].pid && t[i].chan == s.t[i].chan
      && t[i].parent == (if s.t[i].parent == s.t[p].pid then s.t[s.init].pid else s.t[i].parent)
      && t[i].state == (if i == p then ZOMBIE
                        else if s.t[i].state == SLEEPING && s.t[i].chan == OnPid(t[p].parent) then RUNNABLE
                        else s.t[i].state))
  }

  lemma ExitKeeps(s: State, p: nat, s': State, i: nat, j: nat, q: nat)
    requires Inv(s) && Free(s, p) && s' == s.(t := s'.t) && forall k: nat :: ExitedAt(s, p, s'.t, k)
    ensures AllOk(s', i, j, q)
  {
    ToAllOk(s, i, j, q);
    assert ExitedAt(s, p, s'.t, i) && ExitedAt(s, p, s'.t, j) && ExitedAt(s, p, s'.t, p) && ExitedAt(s, p, s'.t, s.init);
    assert SlotOk(s, p) && ParentOk(s, p) && SlotOk(s, s.init);
    assert q in s.slotOf ==> ExitedAt(s, p, s'.t, s.slotOf[q]);
    assert i in s.making ==> ExitedAt(s, p, s'.t, s.making[i]);
    if i < |s.t| && s.t[i].parent > 0 {
      assert ExitedAt(s, p, s'.t, s.slotOf[s.t[i].parent]) && SlotOk(s, s.slotOf[s.t[i].parent]);
    }
  }

  lemma ExitAt(s: State, p: nat, i: nat, j: nat, q: nat)
    requires Inv(s) && Enabled(s, Exit(p))
    ensures AllOk(Next(s, Exit(p)), i, j, q)
  {
    var s' := Next(s, Exit(p));
    forall k: nat ensures ExitedAt(s, p, s'.t, k) {
    }
    ExitKeeps(s, p, s', i, j, q);
  }

  lemma ReapAt(s: State, p: nat, c: nat, i: nat, j: nat, q: nat)
    requires Inv(s) && Enabled(s, WaitReaps(p, c))
    ensures AllOk(Next(s, WaitReaps(p, c)), i, j, q)
  {
    ToAllOk(s, i, j, q);
    assert SlotOk(s, p) && SlotOk(s, c) && PidOk(s, s.t[c].pid);
    assert MakingOk(s, c);
  }

  lemma WaitSleepsAt(s: State, p: nat, i: nat, j: nat, q: nat)
    requires Inv(s) && Enabled(s, WaitSleeps(p))
    ensures AllOk(Next(s, WaitSleeps(p)), i, j, q)
  {
    ToAllOk(s, i, j, q);
    assert SlotOk(s, p) && !ZombieChild(s.t, j, s.t[p].pid);
  }

  lemma StepAtPoint(s: State, step: Step, i: nat, j: nat, q: nat)
    requires Inv(s) && Enabled(s, step)
    ensures AllOk(Next(s, step), i, j, q)
  {
    match step
    case Alloc(p, c) => AllocAt(s, p, c, i, j, q);
    case AllocFails(p) => AllocFailsAt(s, p, i, j, q);
    case ForkFails(p) => ToAllOk(s, i, j, q);
    case Adopt(p) => AdoptAt(s, p, i, j, q);
    case Launch(p) => LaunchAt(s, p, i, j, q);
    case Exit(p) => ExitAt(s, p, i, j, q);
    case WaitReaps(p, c) => ReapAt(s, p, c, i, j, q);
    case WaitSleeps(p) => WaitSleepsAt(s, p, i, j, q);
    case _ => ScheduleAt(s, step, i, j, q);
  }

  /** Every step keeps the invariant. */
  lemma StepKeepsInv(s: State, step: Step)
    requires Inv(s) && Enabled(s, step)
    ensures Inv(Next(s, step))
  {
    var s' := Next(s, step);
    forall i: nat, j: nat, q: nat ensures AllOk(s', i, j, q) {
      StepAtPoint(s, step, i, j, q);
    }
    FromAllOk(s');
  }

  // ---- whole runs ----

  ghost predicate StepAt(ss: seq<State>, steps: seq<Step>, i: nat) {
    i < |steps| && i + 1 < |ss| ==> Enabled(ss[i], steps[i]) && ss[i + 1] == Next(ss[i], steps[i])
  }

  ghost predicate IsRun(ss: seq<State>, steps: seq<Step>) {
    |ss| == |steps| + 1 && Init(ss[0]) && forall i: nat :: StepAt(ss, steps, i)
  }

  lemma InitInv(s: State)
    requires Init(s)
    ensures Inv(s)
  {
    forall i: nat, j: nat, q: nat ensures AllOk(s, i, j, q) {
    }
    FromAllOk(s);
  }

  lemma {:induction false} RunKeepsInv(ss: seq<State>, steps: seq<Step>, i: nat)
    requires IsRun(ss, steps) && i < |ss|
    ensures Inv(ss[i])
  {
    if i == 0 {
      InitInv(ss[0]);
    } else {
      RunKeepsInv(ss, steps, i - 1);
      assert StepAt(ss, steps, i - 1);
      StepKeepsInv(ss[i - 1], steps[i - 1]);
    }
  }

  lemma {:induction false} PidsGrow(ss: seq<State>, steps: seq<Step>, i: nat, j: nat)
    requires IsRun(ss, steps) && i <= j < |ss|
    ensures ss[i].nextpid <= ss[j].nextpid && |ss[i].t| == |ss[j].t|
  {
    if i < j {
      PidsGrow(ss, steps, i, j - 1);
      assert StepAt(ss, steps, j - 1);
    }
  }

  /** Process ids are never reused: the one a fork takes is larger than any a slot ever had or a wait
      ever returned. */
  lemma PidsAreFresh(ss: seq<State>, steps: seq<Step>, i: nat, j: nat, k: nat, a: nat)
    requires IsRun(ss, steps) && i <= j < |steps| && steps[j].Alloc? && k < |ss[i].t|
    ensures steps[j].c < |ss[j + 1].t| && ss[j + 1].t[steps[j].c].pid > ss[i].t[k].pid
    ensures a < |ss[i].reaped| ==> ss[j + 1].t[steps[j].c].pid > ss[i].reaped[a].pid
  {
    RunKeepsInv(ss, steps, i);
    PidsGrow(ss, steps, i, j);
    assert StepAt(ss, steps, j) && SlotOk(ss[i], k) && ReapedOk(ss[i], a);
  }

  lemma PidsAreUnique(ss: seq<State>, steps: seq<Step>, n: nat, i: nat, j: nat)
    requires IsRun(ss, steps) && n < |ss| && i < |ss[n].t| && j < |ss[n].t| && i != j
    requires ss[n].t[i].state != UNUSED && ss[n].t[j].state != UNUSED
    ensures ss[n].t[i].pid != ss[n].t[j].pid
  {
    RunKeepsInv(ss, steps, n);
    assert SlotOk(ss[n], i) && SlotOk(ss[n], j);
  }

  /** Where a pid that was a zombie's is now: still that zombie, or returned by one wait. */
  ghost predicate Departed(s: State, k: nat, pid: nat) {
    if pid in s.slotOf then k < |s.t| && s.t[k].state == ZOMBIE && s.t[k].pid == pid
    else exists a: nat :: ReapedAs(s, a, pid)
  }

  predicate ReapedAs(s: State, a: nat, pid: nat) {
    a < |s.reaped| && s.reaped[a].pid == pid
  }

  /** A zombie is never scheduled again. It stays a zombie until exactly one wait returns its pid, after
      which no slot in use has that pid. */
  lemma {:induction false} ZombieStays(ss: seq<State>, steps: seq<Step>, i: nat, j: nat, k: nat)
    requires IsRun(ss, steps) && i <= j < |ss| && k < |ss[i].t| && ss[i].t[k].state == ZOMBIE
    ensures Departed(ss[j], k, ss[i].t[k].pid)
  {
    var pid := ss[i].t[k].pid;
    RunKeepsInv(ss, steps, i);
    assert SlotOk(ss[i], k);
    if i < j {
      ZombieStays(ss, steps, i, j - 1, k);
      RunKeepsInv(ss, steps, j - 1);
      assert StepAt(ss, steps, j - 1);
      PidsGrow(ss, steps, i, j - 1);
      DepartedStays(ss[j - 1], steps[j - 1], k, pid);
    }
  }

  lemma DepartedStays(s: State, step: Step, k: nat, pid: nat)
    requires Inv(s) && Enabled(s, step) && Departed(s, k, pid) && pid < s.nextpid
    ensures Departed(Next(s, step), k, pid)
  {
    var s' := Next(s, step);
    if pid in s.slotOf {
      assert SlotOk(s, k);
      ZombieOnlyReaped(s, step, k);
    } else {
      var a: nat :| ReapedAs(s, a, pid);
      assert ReapedAs(s', a, pid);
    }
  }

  lemma ZombieOnlyReaped(s: State, step: Step, k: nat)
    requires Inv(s) && Enabled(s, step) && k < |s.t| && s.t[k].state == ZOMBIE
    ensures Departed(Next(s, step), k, s.t[k].pid)
  {
    var s' := Next(s, step);
    assert SlotOk(s, k);
    if step.AllocFails? {
      assert MakingOk(s, step.p) && SlotOk(s, s.making[step.p]);
    } else if step.Adopt? || step.Launch? {
      assert MakingOk(s, step.p);
    } else if step.WaitReaps? {
      assert SlotOk(s, step.c);
      assert step.c == k ==> ReapedAs(s', |s.reaped|, s.t[k].pid);
    }
  }

  lemma ReapedByOneWait(ss: seq<State>, steps: seq<Step>, i: nat, a: nat, b: nat)
    requires IsRun(ss, steps) && i < |ss| && a < |ss[i].reaped| && b < |ss[i].reaped| && a != b
    ensures ss[i].reaped[a].pid != ss[i].reaped[b].pid
  {
    RunKeepsInv(ss, steps, i);
    assert ReapedOnce(ss[i], a, b) && ReapedOnce(ss[i], b, a);
  }

  // ---- parents ----

  /** The parent of every started process but init is a process that has not exited, or init; and when a
      process exits its children become init's. */
  lemma ParentsAreAlive(ss: seq<State>, steps: seq<Step>, n: nat, i: nat)
    requires IsRun(ss, steps) && n < |ss| && i < |ss[n].t| && i != ss[n].init && Started(ss[n].t[i])
    ensures exists j :: 0 <= j < |ss[n].t| && j != i && (Alive(ss[n].t[j]) || j == ss[n].init) && ss[n].t[j].pid == ss[n].t[i].parent
    ensures n < |steps| && steps[n].Exit? && steps[n].p < |ss[n].t| && ss[n].t[i].parent == ss[n].t[steps[n].p].pid ==>
              |ss[n + 1].t| == |ss[n].t| && ss[n].init < |ss[n].t| && ss[n + 1].t[i].parent == ss[n].t[ss[n].init].pid
  {
    RunKeepsInv(ss, steps, n);
    assert SlotOk(ss[n], i) && ParentOk(ss[n], i) && StepAt(ss, steps, n);
    if n < |steps| && steps[n].Exit? {
      assert SlotOk(ss[n], steps[n].p);
    }
  }

  /** Slot i holds a started process other than init, and no process that has not exited has its parent's pid. */
  ghost predicate Orphan(s: State, i: nat) {
    i < |s.t| && i != s.init && Started(s.t[i]) && forall j :: 0 <= j < |s.t| && Alive(s.t[j]) ==> s.t[j].pid != s.t[i].parent
  }

  predicate InitGone(s: State) {
    s.init < |s.t| && s.t[s.init].state == ZOMBIE
  }

  predicate StartedChild(s: State, i: nat, p: nat) {
    i < |s.t| && p < |s.t| && i != s.init && Started(s.t[i]) && s.t[i].parent == s.t[p].pid
  }

  /** The orphans are the children of init, once init has exited. */
  lemma OrphanIff(s: State, i: nat)
    requires Inv(s)
    ensures Orphan(s, i) <==> InitGone(s) && StartedChild(s, i, s.init)
  {
    assert SlotOk(s, i) && ParentOk(s, i) && SlotOk(s, s.init);
    if i < |s.t| && i != s.init && Started(s.t[i]) {
      var j := s.slotOf[s.t[i].parent];
      assert SlotOk(s, j);
      if InitGone(s) && StartedChild(s, i, s.init) {
        forall k | 0 <= k < |s.t| && Alive(s.t[k]) ensures s.t[k].pid != s.t[i].parent {
          assert SlotOk(s, k);
        }
      }
    }
  }

  /** A process with a started child exits, and it is init, or init has exited before. */
  ghost predicate Abandons(s: State, step: Step) {
    && step.Exit? && step.p < |s.t| && (step.p == s.init || InitGone(s))
    && exists i: nat :: StartedChild(s, i, step.p)
  }

  ghost predicate OrphanIn(ss: seq<State>, n: nat, i: nat) {
    n < |ss| && Orphan(ss[n], i)
  }

  ghost predicate AbandonsIn(ss: seq<State>, steps: seq<Step>, n: nat) {
    n < |steps| && n < |ss| && Abandons(ss[n], steps[n])
  }

  lemma AbandonedIsOrphan(s: State, step: Step, i: nat)
    requires Inv(s) && Enabled(s, step) && Abandons(s, step) && StartedChild(s, i, step.p)
    ensures Orphan(Next(s, step), i)
  {
    var s' := Next(s, step);
    StepKeepsInv(s, step);
    assert SlotOk(s, i) && SlotOk(s, step.p) && SlotOk(s, s.init);
    forall k: nat ensures ExitedAt(s, step.p, s'.t, k) {
    }
    assert ExitedAt(s, step.p, s'.t, i) && ExitedAt(s, step.p, s'.t, s.init);
    OrphanIff(s', i);
  }

  lemma ExitOrphansOnly(s: State, p: nat, i: nat)
    requires Inv(s) && Enabled(s, Exit(p)) && !Abandons(s, Exit(p)) && Orphan(Next(s, Exit(p)), i)
    ensures Orphan(s, i)
  {
    var s' := Next(s, Exit(p));
    StepKeepsInv(s, Exit(p));
    OrphanIff(s', i);
    OrphanIff(s, i);
    assert SlotOk(s, i) && SlotOk(s, p) && SlotOk(s, s.init);
    forall k: nat ensures ExitedAt(s, p, s'.t, k) {
    }
    assert ExitedAt(s, p, s'.t, i) && ExitedAt(s, p, s'.t, s.init);
    assert p == s.init || InitGone(s) ==> !StartedChild(s, i, p);
  }

  lemma OthersOrphanNone(s: State, step: Step, i: nat)
    requires Inv(s) && Enabled(s, step) && !step.Exit? && Orphan(Next(s, step), i)
    ensures Orphan(s, i)
  {
    var s' := Next(s, step);
    StepKeepsInv(s, step);
    OrphanIff(s', i);
    OrphanIff(s, i);
    assert SlotOk(s, i) && SlotOk(s, s.init);
    if step.AllocFails? || step.Adopt? || step.Launch? {
      assert MakingOk(s, step.p) && SlotOk(s, step.p);
    }
  }

  lemma {:induction false} NoOrphanYet(ss: seq<State>, steps: seq<Step>, n: nat, i: nat)
    requires IsRun(ss, steps) && forall k: nat :: !AbandonsIn(ss, steps, k)
    ensures !OrphanIn(ss, n, i)
  {
    if n < |ss| {
      RunKeepsInv(ss, steps, n);
      OrphanIff(ss[n], i);
      if n > 0 {
        NoOrphanYet(ss, steps, n - 1, i);
        RunKeepsInv(ss, steps, n - 1);
        assert StepAt(ss, steps, n - 1) && !AbandonsIn(ss, steps, n - 1) && !OrphanIn(ss, n - 1, i);
        if Orphan(ss[n], i) {
          if steps[n - 1].Exit? {
            ExitOrphansOnly(ss[n - 1], steps[n - 1].p, i);
          } else {
            OthersOrphanNone(ss[n - 1], steps[n - 1], i);
          }
        }
      }
    }
  }

  /** Somebody is orphaned in some state of a run exactly if, at some step, a process with a started child
      exits that is init, or exits when init has. */
  lemma OrphansIff(ss: seq<State>, steps: seq<Step>)
    requires IsRun(ss, steps)
    ensures (exists n: nat, i: nat :: OrphanIn(ss, n, i)) <==> (exists n: nat :: AbandonsIn(ss, steps, n))
  {
    if n: nat, i: nat :| OrphanIn(ss, n, i) {
      if forall k: nat :: !AbandonsIn(ss, steps, k) {
        NoOrphanYet(ss, steps, n, i);
      }
    }
    if n: nat :| AbandonsIn(ss, steps, n) {
      RunKeepsInv(ss, steps, n);
      assert StepAt(ss, steps, n);
      var i: nat :| StartedChild(ss[n], i, steps[n].p);
      AbandonedIsOrphan(ss[n], steps[n], i);
      var n' := n + 1;
      assert OrphanIn(ss, n', i);
    }
  }

  /** init is never reaped: from its exit on it is a zombie in every state. */
  lemma InitStaysZombie(ss: seq<State>, steps: seq<Step>, i: nat, j: nat)
    requires IsRun(ss, steps) && i <= j < |ss| && InitGone(ss[i])
    ensures InitGone(ss[j])
  {
    RunKeepsInv(ss, steps, i);
    RunKeepsInv(ss, steps, j);
    InitIsInit(ss, steps, i);
    InitIsInit(ss, steps, j);
    ZombieStays(ss, steps, i, j, ss[i].init);
    assert SlotOk(ss[j], ss[j].init);
  }

  lemma {:induction false} InitIsInit(ss: seq<State>, steps: seq<Step>, n: nat)
    requires IsRun(ss, steps) && n < |ss|
    ensures ss[n].init == 0 && 0 < |ss[n].t| && ss[n].t[0].pid == 1
  {
    if n > 0 {
      InitIsInit(ss, steps, n - 1);
      RunKeepsInv(ss, steps, n - 1);
      assert StepAt(ss, steps, n - 1) && SlotOk(ss[n - 1], 0);
    }
  }

  /** No process but init is asleep in wait while it has a zombie child. */
  lemma NoMissedExit(ss: seq<State>, steps: seq<Step>, n: nat, i: nat, j: nat)
    requires IsRun(ss, steps) && n < |ss| && i < |ss[n].t| && i != ss[n].init && j < |ss[n].t|
    requires ss[n].t[i].state == SLEEPING && ss[n].t[i].chan.OnPid? && ss[n].t[j].parent == ss[n].t[i].pid
    ensures ss[n].t[j].state != ZOMBIE
  {
    RunKeepsInv(ss, steps, n);
    assert SlotOk(ss[n], i) && WaitOk(ss[n], i, j);
  }

  // ---- init, exactly ----

  predicate InitWaits(s: State) {
    s.init < |s.t| && s.t[s.init].state == SLEEPING && s.t[s.init].chan == OnPid(s.t[s.init].pid)
  }

  /** init is asleep in wait while it has a zombie child. */
  ghost predicate Missed(s: State) {
    InitWaits(s) && exists c: nat :: ZombieChild(s.t, c, s.t[s.init].pid)
  }

  /** A process that is not init's child exits, and leaves a zombie to init while init is in wait. */
  ghost predicate Strands(s: State, step: Step) {
    && InitWaits(s) && step.Exit? && step.p < |s.t| && s.t[step.p].parent != s.t[s.init].pid
    && exists c: nat :: ZombieChild(s.t, c, s.t[step.p].pid)
  }

  lemma ExitStrands(s: State, p: nat)
    requires Inv(s) && Enabled(s, Exit(p)) && !Missed(s)
    ensures Missed(Next(s, Exit(p))) <==> Strands(s, Exit(p))
  {
    var s', w := Next(s, Exit(p)), s.t[s.init].pid;
    assert SlotOk(s, p) && SlotOk(s, s.init) && ParentOk(s, p);
    forall k: nat ensures ExitedAt(s, p, s'.t, k) {
    }
    assert ExitedAt(s, p, s'.t, s.init) && ExitedAt(s, p, s'.t, p);
    if Missed(s') {
      var c: nat :| ZombieChild(s'.t, c, w);
      assert ExitedAt(s, p, s'.t, c) && !ZombieChild(s.t, c, w);
      assert ZombieChild(s.t, c, s.t[p].pid);
    }
    if Strands(s, Exit(p)) {
      var c: nat :| ZombieChild(s.t, c, s.t[p].pid);
      assert ExitedAt(s, p, s'.t, c);
      assert ZombieChild(s'.t, c, w);
    }
  }

  /** Any other step leaves init as it was, or asleep without a zombie child. */
  lemma OthersDoNotStrand(s: State, step: Step)
    requires Inv(s) && Enabled(s, step) && !step.Exit? && !Missed(s)
    ensures !Missed(Next(s, step))
  {
    var s' := Next(s, step);
    assert SlotOk(s, s.init);
    if step.AllocFails? || step.Adopt? || step.Launch? {
      assert MakingOk(s, step.p);
    }
    forall c: nat ensures InitWaits(s') ==> !ZombieChild(s'.t, c, s'.t[s.init].pid) {
      assert InitWaits(s) ==> !ZombieChild(s.t, c, s.t[s.init].pid);
      assert step == WaitSleeps(s.init) ==> !ZombieChild(s.t, c, s.t[s.init].pid);
    }
  }

  ghost predicate MissedIn(ss: seq<State>, i: nat) {
    i < |ss| && Missed(ss[i])
  }

  ghost predicate StrandsIn(ss: seq<State>, steps: seq<Step>, i: nat) {
    i < |steps| && i < |ss| && Strands(ss[i], steps[i])
  }

  lemma {:induction false} NoStrandNoMiss(ss: seq<State>, steps: seq<Step>, n: nat)
    requires IsRun(ss, steps) && forall i: nat :: !StrandsIn(ss, steps, i)
    ensures !MissedIn(ss, n)
  {
    if 0 < n < |ss| {
      NoStrandNoMiss(ss, steps, n - 1);
      RunKeepsInv(ss, steps, n - 1);
      assert StepAt(ss, steps, n - 1) && !StrandsIn(ss, steps, n - 1) && !MissedIn(ss, n - 1);
      if steps[n - 1].Exit? {
        ExitStrands(ss[n - 1], steps[n - 1].p);
      } else {
        OthersDoNotStrand(ss[n - 1], steps[n - 1]);
      }
    }
  }

  /** init sleeps through an exit in some state of a run exactly if, at some step, a process that is not
      its child exits and leaves it a zombie while it is in wait. */
  lemma InitMissesIff(ss: seq<State>, steps: seq<Step>)
    requires IsRun(ss, steps)
    ensures (exists i: nat :: MissedIn(ss, i)) <==> (exists i: nat :: StrandsIn(ss, steps, i))
  {
    if i: nat :| MissedIn(ss, i) {
      if forall j: nat :: !StrandsIn(ss, steps, j) {
        NoStrandNoMiss(ss, steps, i);
      }
    }
    if i: nat :| StrandsIn(ss, steps, i) {
      RunKeepsInv(ss, steps, i);
      assert StepAt(ss, steps, i);
      var n := i + 1;
      if !MissedIn(ss, i) {
        ExitStrands(ss[i], steps[i].p);
        assert MissedIn(ss, n);
      }
    }
  }

  // ---- and it happens ----

  ghost predicate Reachable(s: State) {
    exists ss: seq<State>, steps: seq<Step> :: IsRun(ss, steps) && ss[|steps|] == s
  }

  lemma Reach(s: State, step: Step)
    requires Reachable(s) && Enabled(s, step)
    ensures Reachable(Next(s, step))
  {
    var ss, steps :| IsRun(ss, steps) && ss[|steps|] == s;
    var ss', steps' := ss + [Next(s, step)], steps + [step];
    forall i: nat ensures StepAt(ss', steps', i) {
      assert StepAt(ss, steps, i);
    }
    assert IsRun(ss', steps') && ss'[|steps'|] == Next(s, step);
  }

  function P(state: ProcState, pid: nat, parent: int, chan: Chan): Proc {
    Proc(state, pid, parent, chan, false)
  }

  const FREE: Proc := Proc(UNUSED, 0, 0, NoChan, false)

  /** A running process in slot p forks into slot c and the child starts to run. */
  lemma ForkAndRun(s: State, p: nat, c: nat, s': State)
    requires Reachable(s) && Free(s, p) && c < |s.t| && c != p && s.t[c] == FREE && forall i :: 0 <= i < c ==> s.t[i].state != UNUSED
    requires s.t[p].pid > 0 && s.making == map[]
    requires s' == State(s.t[c := P(RUNNING, s.nextpid, s.t[p].pid, OnPid(s.nextpid))], s.nextpid + 1, s.init, map[],
                         s.slotOf[s.nextpid := c], s.reaped)
    ensures Reachable(s')
  {
    Reach(s, Alloc(p, c));
    var s1 := Next(s, Alloc(p, c));
    Reach(s1, Adopt(p));
    var s2 := Next(s1, Adopt(p));
    Reach(s2, Launch(p));
    var s3 := Next(s2, Launch(p));
    Reach(s3, Dispatch(c));
    assert s3.making == map[];
    assert Next(s3, Dispatch(c)) == s';
  }

  lemma OnlyInit() returns (s: State)
    ensures Reachable(s)
    ensures s == State([P(RUNNING, 1, 0, NoChan), FREE, FREE, FREE], 2, 0, map[], map[1 := 0], [])
  {
    var s0 := State([P(RUNNABLE, 1, 0, NoChan), FREE, FREE, FREE], 2, 0, map[], map[1 := 0], []);
    var none: seq<Step> := [];
    assert IsRun([s0], none) && [s0][|none|] == s0;
    Reach(s0, Dispatch(0));
    s := Next(s0, Dispatch(0));
    assert s.t == [P(RUNNING, 1, 0, NoChan), FREE, FREE, FREE];
  }

  lemma TwoGenerations() returns (s: State)
    ensures Reachable(s) && s.nextpid == 3 && s.init == 0 && s.making == map[] && s.reaped == []
    ensures s.t == [P(RUNNING, 1, 0, NoChan), P(RUNNING, 2, 1, OnPid(2)), FREE, FREE]
  {
    var s1 := OnlyInit();
    s := State([P(RUNNING, 1, 0, NoChan), P(RUNNING, 2, 1, OnPid(2)), FREE, FREE], 3, 0, map[], s1.slotOf[2 := 1], []);
    ForkAndRun(s1, 0, 1, s);
  }

  /** init, which forked a process that forked one that forked one, all running. */
  lemma FourGenerations() returns (s: State)
    ensures Reachable(s) && s.init == 0 && s.making == map[] && s.reaped == []
    ensures s.t == [P(RUNNING, 1, 0, NoChan), P(RUNNING, 2, 1, OnPid(2)), P(RUNNING, 3, 2, OnPid(3)), P(RUNNING, 4, 3, OnPid(4))]
  {
    var s2 := TwoGenerations();
    var s3 := State([P(RUNNING, 1, 0, NoChan), P(RUNNING, 2, 1, OnPid(2)), P(RUNNING, 3, 2, OnPid(3)), FREE],
                    4, 0, map[], s2.slotOf[3 := 2], []);
    ForkAndRun(s2, 1, 2, s3);
    s := State([P(RUNNING, 1, 0, NoChan), P(RUNNING, 2, 1, OnPid(2)), P(RUNNING, 3, 2, OnPid(3)), P(RUNNING, 4, 3, OnPid(4))],
               5, 0, map[], s3.slotOf[4 := 3], []);
    ForkAndRun(s3, 2, 3, s);
  }

  /** init may sleep in wait while it has a zombie child: one it inherits from an exiting process does
      not wake it. */
  lemma InitMaySleepOnZombie() returns (s: State)
    ensures Reachable(s) && s.init < |s.t| && s.t[s.init].state == SLEEPING && s.t[s.init].chan == OnPid(s.t[s.init].pid)
    ensures exists c: nat :: ZombieChild(s.t, c, s.t[s.init].pid)
  {
    var s1 := FourGenerations();
    Reach(s1, Exit(3));
    var s2 := Next(s1, Exit(3));
    assert s2.t[3].state == ZOMBIE && s2.t[3].parent == 3 && s2.t[0] == s1.t[0] && s2.t[2] == s1.t[2] && s2.t[1].parent == 1;
    forall c: nat ensures !ZombieChild(s2.t, c, 1) {
    }
    Reach(s2, WaitSleeps(0));
    var s3 := Next(s2, WaitSleeps(0));
    Reach(s3, Exit(2));
    s := Next(s3, Exit(2));
    assert ZombieChild(s.t, 3, 1);
  }

  /** Nothing keeps init from exiting, and then its child runs on as an orphan. */
  lemma InitMayExit() returns (s: State)
    ensures Reachable(s) && s.init == 0 && |s.t| == 4 && s.t[0].state == ZOMBIE && s.t[0].pid == 1
    ensures s.t[1].state == RUNNING && s.t[1].parent == 1 && Orphan(s, 1)
  {
    var s1 := TwoGenerations();
    Reach(s1, Exit(0));
    s := Next(s1, Exit(0));
  }
}
