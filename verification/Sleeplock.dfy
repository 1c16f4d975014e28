/** Sleeping locks over spinlocks, sleep, wakeup, kill and the scheduler: any number of processes and
    locks, one step per stretch between lock operations. */
module Sleeplock {
  import opened Prelude

  datatype Chan = NoChan | OnLock(lock: nat) | Elsewhere(addr: nat)

  datatype Status = Running | Runnable | Sleeping

  /** Where a process is. Off: switched out by sched; On: dispatched again, holding ptable.lock. */
  datatype Pc =
    | Out
    | AInner(l: nat, first: bool)  // acquiresleep: wants the inner spinlock; not first: after a sleep
    | ATest(l: nat, first: bool)   // holds it; tests that it is not its own (first), then the loop condition
    | ASleep(l: nat)               // holds it; sleep wants ptable.lock
    | ARelease(l: nat)             // holds both; releases the inner one
    | ADoze(l: nat)                // holds ptable.lock; sets chan and state and enters sched
    | AOff(l: nat)
    | AOn(l: nat)
    | ADone(l: nat)                // took the sleeplock; still holds the inner spinlock
    | RInner(l: nat)               // releasesleep: wants the inner spinlock
    | RTest(l: nat)                // holds it
    | RWake(l: nat)                // unlocked; wakeup wants ptable.lock
    | RWaking(l: nat)              // holds both
    | RDone(l: nat)                // still holds the inner spinlock
    | YOff(back: Pc)               // yield, and a process not dispatched yet
    | YOn(back: Pc)
    | NOff(addr: nat)              // asleep on another channel
    | NOn(addr: nat)

  datatype Proc = Proc(status: Status, chan: Chan, pc: Pc, held: set<nat>)

  datatype Lock = Lock(locked: bool, pid: nat, inner: Option<nat>)

  /** Who has ptable.lock: nobody, a process, or a CPU's scheduler loop. */
  datatype Owner = Free | ByProc(p: nat) | ByScheduler

  datatype State = State(procs: map<nat, Proc>, locks: map<nat, Lock>, ptable: Owner, panicked: bool)

  datatype Step =
    | Birth(p: nat)                // fork makes a process runnable
    | Acquire(p: nat, l: nat)      // calls acquiresleep
    | Release(p: nat, l: nat)      // calls releasesleep
    | Yield(p: nat)                // the timer interrupts a process that holds no spinlock
    | Nap(p: nat, addr: nat)       // sleeps on some other channel
    | WakeOther(addr: nat)         // wakeup on some other channel
    | Kill(p: nat)
    | Dispatch(p: nat)             // the scheduler picks p
    | SchedulerIn                  // the scheduler takes ptable.lock
    | SchedulerOut                 // and gives it back
    | Run(p: nat)                  // p goes on

  predicate At(s: State, p: nat, pc: Pc) {
    p in s.procs && s.procs[p].pc == pc
  }

  function Goto(s: State, p: nat, pc: Pc): State
    requires p in s.procs
  {
    s.(procs := s.procs[p := s.procs[p].(pc := pc)])
  }

  function SetLock(s: State, l: nat, k: Lock): State {
    s.(locks := s.locks[l := k])
  }

  /** wakeup1: everyone asleep on the channel becomes runnable. */
  function WakeAll(procs: map<nat, Proc>, c: Chan): map<nat, Proc> {
    map p | p in procs :: if procs[p].status == Sleeping && procs[p].chan == c then procs[p].(status := Runnable) else procs[p]
  }

  predicate Init(s: State) {
    && (forall p :: p in s.procs ==> s.procs[p] == Proc(Runnable, NoChan, YOff(Out), {}))
    && (forall l :: l in s.locks ==> s.locks[l] == Lock(false, 0, None))
    && s.ptable == Free && !s.panicked
  }

  /** No spinlock is held here, so a timer interrupt may yield. */
  predicate Preemptible(pc: Pc) {
    pc.Out? || pc.AInner? || pc.RInner?
  }

  predicate Enabled(s: State, p: nat) {
    p in s.procs
    && match s.procs[p].pc
       case AInner(l, _) => l in s.locks && s.locks[l].inner == None
       case ASleep(_) => s.ptable == Free
       case RInner(l) => l in s.locks && s.locks[l].inner == None
       case RWake(_) => s.ptable == Free
       case Out => false
       case AOff(_) => false
       case YOff(_) => false
       case NOff(_) => false
       case _ => true
  }

  /** The lock a process works on exists. */
  predicate Defined(s: State, p: nat) {
    p in s.procs && (LockOf(s.procs[p].pc).Some? ==> LockOf(s.procs[p].pc).value in s.locks)
  }

  /** The next stretch of process p. */
  function Advance(s: State, p: nat): State
    requires Defined(s, p)
  {
    var me := s.procs[p];
    match me.pc
    case AInner(l, first) => SetLock(Goto(s, p, ATest(l, first)), l, s.locks[l].(inner := Some(p)))
    case ATest(l, first) =>
      if first && s.locks[l].locked && s.locks[l].pid == p then s.(panicked := true)
      else if s.locks[l].locked then Goto(s, p, ASleep(l))
      else SetLock(Goto(s, p, ADone(l)), l, s.locks[l].(locked := true, pid := p))
    case ASleep(l) => Goto(s, p, ARelease(l)).(ptable := ByProc(p))
    case ARelease(l) => SetLock(Goto(s, p, ADoze(l)), l, s.locks[l].(inner := None))
    case ADoze(l) => s.(procs := s.procs[p := me.(pc := AOff(l), chan := OnLock(l), status := Sleeping)], ptable := ByScheduler)
    case AOn(l) => s.(procs := s.procs[p := me.(pc := AInner(l, false), chan := NoChan)], ptable := Free)
    case ADone(l) =>
      SetLock(s.(procs := s.procs[p := me.(pc := Out, held := me.held + {l})]), l, s.locks[l].(inner := None))
    case RInner(l) => SetLock(Goto(s, p, RTest(l)), l, s.locks[l].(inner := Some(p)))
    case RTest(l) =>
      if !s.locks[l].locked || s.locks[l].pid != p then s.(panicked := true)
      else SetLock(s.(procs := s.procs[p := me.(pc := RWake(l), held := me.held - {l})]), l, s.locks[l].(locked := false, pid := 0))
    case RWake(l) => Goto(s, p, RWaking(l)).(ptable := ByProc(p))
    case RWaking(l) => var s1 := Goto(s, p, RDone(l)); s1.(procs := WakeAll(s1.procs, OnLock(l)), ptable := Free)
    case RDone(l) => SetLock(Goto(s, p, Out), l, s.locks[l].(inner := None))
    case YOn(back) => Goto(s, p, back).(ptable := Free)
    case NOn(_) => s.(procs := s.procs[p := me.(pc := Out, chan := NoChan)], ptable := Free)
    case _ => s
  }

  /** The lock a process is working on. */
  function LockOf(pc: Pc): Option<nat> {
    match pc
    case AInner(l, _) => Some(l)
    case ATest(l, _) => Some(l)
    case ASleep(l) => Some(l)
    case ARelease(l) => Some(l)
    case ADoze(l) => Some(l)
    case AOff(l) => Some(l)
    case AOn(l) => Some(l)
    case ADone(l) => Some(l)
    case RInner(l) => Some(l)
    case RTest(l) => Some(l)
    case RWake(l) => Some(l)
    case RWaking(l) => Some(l)
    case RDone(l) => Some(l)
    case YOff(back) => LockOf(back)
    case YOn(back) => LockOf(back)
    case _ => None
  }

  predicate Next(s: State, step: Step, s': State) {
    && !s.panicked
    && match step
       case Birth(p) => p !in s.procs && s' == s.(procs := s.procs[p := Proc(Runnable, NoChan, YOff(Out), {})])
       case Acquire(p, l) => l in s.locks && At(s, p, Out) && s' == Goto(s, p, AInner(l, true))
       case Release(p, l) => l in s.locks && At(s, p, Out) && s' == Goto(s, p, RInner(l))
       case Yield(p) =>
         && p in s.procs && Preemptible(s.procs[p].pc) && s.procs[p].status == Running && s.ptable == Free
         && s' == s.(procs := s.procs[p := s.procs[p].(pc := YOff(s.procs[p].pc), status := Runnable)], ptable := ByScheduler)
       case Nap(p, c) =>
         && At(s, p, Out) && s.procs[p].status == Running && s.ptable == Free
         && s' == s.(procs := s.procs[p := s.procs[p].(pc := NOff(c), chan := Elsewhere(c), status := Sleeping)], ptable := ByScheduler)
       case WakeOther(c) => s.ptable == Free && s' == s.(procs := WakeAll(s.procs, Elsewhere(c)))
       case Kill(p) =>
         && p in s.procs && s.ptable == Free
         && s' == if s.procs[p].status == Sleeping then s.(procs := s.procs[p := s.procs[p].(status := Runnable)]) else s
       case Dispatch(p) =>
         && p in s.procs && s.ptable == ByScheduler && s.procs[p].status == Runnable
         && s' == s.(procs := s.procs[p := s.procs[p].(status := Running, pc := Resumed(s.procs[p].pc))], ptable := ByProc(p))
       case SchedulerIn => s.ptable == Free && s' == s.(ptable := ByScheduler)
       case SchedulerOut => s.ptable == ByScheduler && s' == s.(ptable := Free)
       case Run(p) => Enabled(s, p) && (Defined(s, p) ==> s' == Advance(s, p))
  }

  function Resumed(pc: Pc): Pc {
    match pc
    case AOff(l) => AOn(l)
    case YOff(back) => YOn(back)
    case NOff(c) => NOn(c)
    case _ => pc
  }

  // ---- the invariant ----

  /** The lock whose inner spinlock a process holds. */
  function InnerOf(pc: Pc): Option<nat> {
    match pc
    case ATest(l, _) => Some(l)
    case ASleep(l) => Some(l)
    case ARelease(l) => Some(l)
    case ADone(l) => Some(l)
    case RTest(l) => Some(l)
    case RWake(l) => Some(l)
    case RWaking(l) => Some(l)
    case RDone(l) => Some(l)
    case _ => None
  }

  predicate HoldsTable(pc: Pc) {
    pc.ARelease? || pc.ADoze? || pc.AOn? || pc.RWaking? || pc.YOn? || pc.NOn?
  }

  predicate SwitchedOut(pc: Pc) {
    pc.AOff? || pc.YOff? || pc.NOff?
  }

  predicate ProcOk(s: State, p: nat) {
    p in s.procs ==>
      var me := s.procs[p];
      && (SwitchedOut(me.pc) <==> me.status != Running)
      && (me.status == Sleeping ==> me.pc.AOff? || me.pc.NOff?)
      && (me.pc.AOff? ==> me.chan == OnLock(me.pc.l)) && (me.pc.NOff? ==> me.chan == Elsewhere(me.pc.addr))
      && (me.pc.YOff? || me.pc.YOn? ==> Preemptible(me.pc.back))
      && (LockOf(me.pc).Some? ==> LockOf(me.pc).value in s.locks)
  }

  predicate TableOk(s: State, p: nat) {
    p in s.procs && HoldsTable(s.procs[p].pc) <==> s.ptable == ByProc(p)
  }

  predicate InnerOk(s: State, p: nat, l: nat) {
    l in s.locks ==> (p in s.procs && InnerOf(s.procs[p].pc) == Some(l) <==> s.locks[l].inner == Some(p))
  }

  /** A process holds the sleeplock: acquiresleep took it and releasesleep has not given it back. */
  predicate Holds(s: State, p: nat, l: nat) {
    p in s.procs && (l in s.procs[p].held || s.procs[p].pc == ADone(l))
  }

  /** In acquiresleep past the test that the lock is not the caller's own already. */
  predicate Queued(pc: Pc, l: nat) {
    match pc
    case AInner(k, first) => !first && k == l
    case ATest(k, first) => !first && k == l
    case ASleep(k) => k == l
    case ARelease(k) => k == l
    case ADoze(k) => k == l
    case AOff(k) => k == l
    case AOn(k) => k == l
    case YOff(back) => Queued(back, l)
    case YOn(back) => Queued(back, l)
    case _ => false
  }

  predicate HeldOk(s: State, p: nat, l: nat) {
    l in s.locks ==>
      && (Holds(s, p, l) <==> s.locks[l].locked && s.locks[l].pid == p)
      && (p in s.procs && (s.procs[p].pc == RWake(l) || s.procs[p].pc == RWaking(l)) ==> !s.locks[l].locked)
      && (p in s.procs && Queued(s.procs[p].pc, l) ==> l !in s.procs[p].held)
  }

  /** A process is asleep on lock l, or on its way there. */
  predicate Waiting(s: State, p: nat, l: nat) {
    p in s.procs
    && var me := s.procs[p];
       me.pc == ASleep(l) || me.pc == ARelease(l) || me.pc == ADoze(l) || (me.pc == AOff(l) && me.status == Sleeping)
  }

  /** Some process has unlocked l and not called wakeup1 yet. */
  predicate WakeupComing(s: State, l: nat) {
    l in s.locks && s.locks[l].inner.Some?
    && var q := s.locks[l].inner.value; At(s, q, RWake(l)) || At(s, q, RWaking(l))
  }

  predicate NoLostWakeup(s: State, p: nat, l: nat) {
    Waiting(s, p, l) ==> l in s.locks && (s.locks[l].locked || WakeupComing(s, l))
  }

  ghost predicate Inv(s: State) {
    && (forall p: nat :: ProcOk(s, p)) && (forall p: nat :: TableOk(s, p))
    && (forall p: nat, l: nat :: InnerOk(s, p, l))
    && (forall p: nat, l: nat :: HeldOk(s, p, l))
    && (forall p: nat, l: nat :: NoLostWakeup(s, p, l))
  }

  // ---- every step keeps it ----

  /** Everything the invariant says about one process and one lock. */
  predicate AllOk(s: State, u: nat, l: nat) {
    ProcOk(s, u) && TableOk(s, u) && InnerOk(s, u, l) && HeldOk(s, u, l) && NoLostWakeup(s, u, l)
  }

  /** What a step of p uses to keep it for process u and lock l. */
  predicate Known(s: State, p: nat, u: nat, l: nat) {
    && AllOk(s, p, l) && AllOk(s, u, l)
    && (l in s.locks && s.locks[l].inner.Some? ==> AllOk(s, s.locks[l].inner.value, l))
  }

  lemma InvGivesKnown(s: State, p: nat, u: nat, l: nat)
    requires Inv(s)
    ensures Known(s, p, u, l)
  {
    assert InnerOk(s, p, l) && HeldOk(s, p, l) && NoLostWakeup(s, p, l);
    assert InnerOk(s, u, l) && HeldOk(s, u, l) && NoLostWakeup(s, u, l);
    if l in s.locks && s.locks[l].inner.Some? {
      var q := s.locks[l].inner.value;
      assert ProcOk(s, q) && TableOk(s, q) && InnerOk(s, q, l) && HeldOk(s, q, l) && NoLostWakeup(s, q, l);
    }
  }

  lemma FromAllOk(s: State)
    requires forall u: nat, l: nat :: AllOk(s, u, l)
    ensures Inv(s)
  {
    forall p: nat ensures ProcOk(s, p) && TableOk(s, p) {
      assert AllOk(s, p, 0);
    }
    forall p: nat, l: nat ensures InnerOk(s, p, l) && HeldOk(s, p, l) && NoLostWakeup(s, p, l) {
      assert AllOk(s, p, l);
    }
  }

  lemma TakeInner(s: State, p: nat, s': State, u: nat, l: nat)
    requires Known(s, p, u, l) && Defined(s, p) && Enabled(s, p) && s' == Advance(s, p)
    requires var pc := s.procs[p].pc; pc.AInner? || pc.RInner?
    ensures AllOk(s', u, l)
  {
  }

  lemma FindLocked(s: State, p: nat, s': State, u: nat, l: nat)
    requires Known(s, p, u, l) && Defined(s, p) && Enabled(s, p) && s' == Advance(s, p)
    requires var pc := s.procs[p].pc; pc.ATest? && s.locks[pc.l].locked
    ensures AllOk(s', u, l)
  {
  }

  lemma TakeLock(s: State, p: nat, s': State, u: nat, l: nat)
    requires Known(s, p, u, l) && Defined(s, p) && Enabled(s, p) && s' == Advance(s, p)
    requires var pc := s.procs[p].pc; pc.ATest? && !s.locks[pc.l].locked
    ensures AllOk(s', u, l)
  {
  }

  lemma EnterSleep(s: State, p: nat, s': State, u: nat, l: nat)
    requires Known(s, p, u, l) && Defined(s, p) && Enabled(s, p) && s' == Advance(s, p)
    requires var pc := s.procs[p].pc; pc.ASleep? || pc.ARelease?
    ensures AllOk(s', u, l)
  {
  }

  lemma Doze(s: State, p: nat, s': State, u: nat, l: nat)
    requires Known(s, p, u, l) && Defined(s, p) && Enabled(s, p) && s' == Advance(s, p)
    requires var pc := s.procs[p].pc; pc.ADoze?
    ensures AllOk(s', u, l)
  {
  }

  lemma Resume(s: State, p: nat, s': State, u: nat, l: nat)
    requires Known(s, p, u, l) && Defined(s, p) && Enabled(s, p) && s' == Advance(s, p)
    requires var pc := s.procs[p].pc; pc.AOn? || pc.YOn? || pc.NOn?
    ensures AllOk(s', u, l)
  {
  }

  lemma GiveInner(s: State, p: nat, s': State, u: nat, l: nat)
    requires Known(s, p, u, l) && Defined(s, p) && Enabled(s, p) && s' == Advance(s, p)
    requires var pc := s.procs[p].pc; pc.ADone? || pc.RDone?
    ensures AllOk(s', u, l)
  {
  }

  lemma Unlock(s: State, p: nat, s': State, u: nat, l: nat)
    requires Known(s, p, u, l) && Defined(s, p) && s' == Advance(s, p)
    requires var pc := s.procs[p].pc; pc.RTest? && s.locks[pc.l].locked && s.locks[pc.l].pid == p
    ensures AllOk(s', u, l)
  {
    var k := s.procs[p].pc.l;
    assert l == k ==> s'.locks[l] == s.locks[l].(locked := false, pid := 0);
    assert s'.procs[p] == s.procs[p].(pc := RWake(k), held := s.procs[p].held - {k});
    assert u != p ==> (u in s'.procs <==> u in s.procs) && (u in s.procs ==> s'.procs[u] == s.procs[u]);
  }

  lemma EnterWakeup(s: State, p: nat, s': State, u: nat, l: nat)
    requires Known(s, p, u, l) && Defined(s, p) && Enabled(s, p) && s' == Advance(s, p)
    requires var pc := s.procs[p].pc; pc.RWake?
    ensures AllOk(s', u, l)
  {
  }

  lemma WakeUp(s: State, p: nat, s': State, u: nat, l: nat)
    requires Known(s, p, u, l) && Defined(s, p) && Enabled(s, p) && s' == Advance(s, p)
    requires var pc := s.procs[p].pc; pc.RWaking?
    ensures AllOk(s', u, l)
  {
  }

  lemma RunAt(s: State, p: nat, s': State, u: nat, l: nat)
    requires Known(s, p, u, l) && Defined(s, p) && Enabled(s, p) && s' == Advance(s, p)
    ensures AllOk(s', u, l)
  {
    match s.procs[p].pc
    case AInner(_, _) => TakeInner(s, p, s', u, l);
    case RInner(_) => TakeInner(s, p, s', u, l);
    case ATest(k, _) =>
      if s.locks[k].locked {
        FindLocked(s, p, s', u, l);
      } else {
        TakeLock(s, p, s', u, l);
      }
    case ASleep(_) => EnterSleep(s, p, s', u, l);
    case ARelease(_) => EnterSleep(s, p, s', u, l);
    case ADoze(_) => Doze(s, p, s', u, l);
    case ADone(_) => GiveInner(s, p, s', u, l);
    case RDone(_) => GiveInner(s, p, s', u, l);
    case RTest(k) =>
      if s.locks[k].locked && s.locks[k].pid == p {
        Unlock(s, p, s', u, l);
      } else {
        assert s' == s.(panicked := true);
      }
    case RWake(_) => EnterWakeup(s, p, s', u, l);
    case RWaking(_) => WakeUp(s, p, s', u, l);
    case _ => Resume(s, p, s', u, l);
  }

  /** A call begins. */
  lemma CallAt(s: State, step: Step, s': State, u: nat, l: nat)
    requires Next(s, step, s') && (step.Acquire? || step.Release?) && Known(s, step.p, u, l)
    ensures AllOk(s', u, l)
  {
  }

  /** A process leaves the CPU by itself. */
  lemma LeaveAt(s: State, step: Step, s': State, u: nat, l: nat)
    requires Next(s, step, s') && (step.Yield? || step.Nap?) && Known(s, step.p, u, l)
    ensures AllOk(s', u, l)
  {
  }

  /** A process is made or woken by somebody else. */
  lemma OtherAt(s: State, step: Step, s': State, u: nat, l: nat)
    requires Next(s, step, s') && (step.Birth? || step.Kill?) && Known(s, step.p, u, l)
    ensures AllOk(s', u, l)
  {
  }

  lemma DispatchAt(s: State, step: Step, s': State, u: nat, l: nat)
    requires Next(s, step, s') && (step.Dispatch?) && Known(s, step.p, u, l)
    ensures AllOk(s', u, l)
  {
  }

  lemma TableAt(s: State, step: Step, s': State, u: nat, l: nat)
    requires Next(s, step, s') && (step.WakeOther? || step.SchedulerIn? || step.SchedulerOut?) && Known(s, u, u, l)
    ensures AllOk(s', u, l)
  {
  }

  lemma StepAtPoint(s: State, step: Step, s': State, u: nat, l: nat)
    requires Inv(s) && Next(s, step, s')
    ensures AllOk(s', u, l)
  {
    match step
    case Run(p) =>
      assert ProcOk(s, p);
      InvGivesKnown(s, p, u, l);
      RunAt(s, p, s', u, l);
    case WakeOther(_) => InvGivesKnown(s, u, u, l); TableAt(s, step, s', u, l);
    case SchedulerIn => InvGivesKnown(s, u, u, l); TableAt(s, step, s', u, l);
    case SchedulerOut => InvGivesKnown(s, u, u, l); TableAt(s, step, s', u, l);
    case Birth(p) => InvGivesKnown(s, p, u, l); OtherAt(s, step, s', u, l);
    case Kill(p) => InvGivesKnown(s, p, u, l); OtherAt(s, step, s', u, l);
    case Dispatch(p) => InvGivesKnown(s, p, u, l); DispatchAt(s, step, s', u, l);
    case Yield(p) => InvGivesKnown(s, p, u, l); LeaveAt(s, step, s', u, l);
    case Nap(p, _) => InvGivesKnown(s, p, u, l); LeaveAt(s, step, s', u, l);
    case _ => InvGivesKnown(s, step.p, u, l); CallAt(s, step, s', u, l);
  }

  /** Every step, by any process or the scheduler, keeps the invariant. */
  lemma StepKeepsInv(s: State, step: Step, s': State)
    requires Inv(s) && Next(s, step, s')
    ensures Inv(s')
  {
    forall u: nat, l: nat ensures AllOk(s', u, l) {
      StepAtPoint(s, step, s', u, l);
    }
    FromAllOk(s');
  }

  // ---- whole runs ----

  predicate StepAt(ss: seq<State>, steps: seq<Step>, i: nat) {
    i < |steps| && i + 1 < |ss| ==> Next(ss[i], steps[i], ss[i + 1])
  }

  ghost predicate IsRun(ss: seq<State>, steps: seq<Step>) {
    |ss| == |steps| + 1 && Init(ss[0]) && forall i: nat :: StepAt(ss, steps, i)
  }

  lemma InitInv(s: State)
    requires Init(s)
    ensures Inv(s)
  {
    forall u: nat, l: nat ensures AllOk(s, u, l) {
    }
    FromAllOk(s);
  }

  lemma {:induction false} RunKeepsInv(ss: seq<State>, steps: seq<Step>, i: nat)
    requires IsRun(ss, steps) && i < |ss|
    ensures Inv(ss[i])
  {
    if i == 0 {
      InitInv(ss[0]);
    } else {
      RunKeepsInv(ss, steps, i - 1);
      assert StepAt(ss, steps, i - 1);
      StepKeepsInv(ss[i - 1], steps[i - 1], ss[i]);
    }
  }

  /** At most one process holds a sleeplock, and the lock's own fields say which. */
  lemma MutualExclusion(ss: seq<State>, steps: seq<Step>, i: nat, l: nat, p: nat, q: nat)
    requires IsRun(ss, steps) && i < |ss| && l in ss[i].locks && Holds(ss[i], p, l)
    ensures ss[i].locks[l].locked && ss[i].locks[l].pid == p
    ensures Holds(ss[i], q, l) ==> q == p
  {
    RunKeepsInv(ss, steps, i);
    assert HeldOk(ss[i], p, l) && HeldOk(ss[i], q, l);
  }

  /** No wakeup is lost: while the inner spinlock is free, somebody asleep on the lock means somebody
      holds it. */
  lemma SleeperMeansHolder(ss: seq<State>, steps: seq<Step>, i: nat, l: nat, p: nat)
    requires IsRun(ss, steps) && i < |ss| && l in ss[i].locks && ss[i].locks[l].inner == None
    requires p in ss[i].procs && ss[i].procs[p].status == Sleeping && ss[i].procs[p].chan == OnLock(l)
    ensures ss[i].locks[l].locked && Holds(ss[i], ss[i].locks[l].pid, l) && ss[i].locks[l].pid != p
  {
    RunKeepsInv(ss, steps, i);
    var s := ss[i];
    assert ProcOk(s, p) && NoLostWakeup(s, p, l) && HeldOk(s, s.locks[l].pid, l) && HeldOk(s, p, l);
  }
}
