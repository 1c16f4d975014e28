/** The process table, and what fork, exit, wait, wakeup and kill do to it under its lock. */
module ProcTable {
  import opened Prelude

  const NPROC: nat := 64

  datatype ProcState = UNUSED | EMBRYO | SLEEPING | RUNNABLE | RUNNING | ZOMBIE

  /** wait sleeps on a process id, everything else on a kernel address; the two never coincide. */
  datatype Chan = NoChan | OnPid(pid: int) | OnAddr(addr: nat)

  datatype Proc = Proc(state: ProcState, pid: nat, parent: int, chan: Chan, killed: bool)

  /** exit's loop: every child of `from` gets parent `to`. */
  function Reparented(t: seq<Proc>, from: int, to: int): (r: seq<Proc>)
    ensures |r| == |t|
  {
    seq(|t|, i requires 0 <= i < |t| => if t[i].parent == from then t[i].(parent := to) else t[i])
  }

  /** wakeup1: every process asleep on c becomes runnable. */
  function Woken(t: seq<Proc>, c: Chan): (r: seq<Proc>)
    ensures |r| == |t|
  {
    seq(|t|, i requires 0 <= i < |t| => if t[i].state == SLEEPING && t[i].chan == c then t[i].(state := RUNNABLE) else t[i])
  }

  /** exit under ptable.lock, for the process in slot `me`. */
  function Exited(t: seq<Proc>, me: nat, initPid: nat): seq<Proc>
    requires me < |t|
  {
    var orphaned := Reparented(t, t[me].pid, initPid);
    var dead := orphaned[me := orphaned[me].(state := ZOMBIE)];
    Woken(dead, OnPid(dead[me].parent))
  }

  predicate FirstUnused(t: seq<Proc>, c: nat) {
    c < |t| && t[c].state == UNUSED && forall i :: 0 <= i < c ==> t[i].state != UNUSED
  }

  /** allocproc under ptable.lock, in slot c. */
  function Allocated(t: seq<Proc>, c: nat, pid: nat): seq<Proc>
    requires c < |t|
  {
    t[c := t[c].(state := EMBRYO, pid := pid, killed := false)]
  }

  datatype WaitResult = NoChildren | Reaped(pid: nat) | Slept

  predicate ZombieChild(t: seq<Proc>, i: nat, pid: int) {
    i < |t| && t[i].parent == pid && t[i].state == ZOMBIE
  }

  predicate HasChild(t: seq<Proc>, pid: int) {
    exists i :: 0 <= i < |t| && t[i].parent == pid
  }

  predicate NoZombieChild(t: seq<Proc>, n: nat, pid: int) {
    forall i: nat :: i < n ==> !ZombieChild(t, i, pid)
  }

  /** wait gives the slot of its zombie child back. */
  function Collected(t: seq<Proc>, c: nat): seq<Proc>
    requires c < |t|
  {
    t[c := t[c].(state := UNUSED, parent := -1)]
  }

  /** sleep, up to sched. */
  function FallenAsleep(t: seq<Proc>, me: nat, c: Chan): seq<Proc>
    requires me < |t|
  {
    t[me := t[me].(chan := c, state := SLEEPING)]
  }

  predicate FirstWithPid(t: seq<Proc>, i: nat, pid: nat) {
    i < |t| && t[i].pid == pid && forall j :: 0 <= j < i ==> t[j].pid != pid
  }

  /** kill marks the process in slot i, and wakes it if it sleeps. */
  function Killed(t: seq<Proc>, i: nat): seq<Proc>
    requires i < |t|
  {
    t[i := t[i].(killed := true, state := if t[i].state == SLEEPING then RUNNABLE else t[i].state)]
  }

  class Ptable {
    const proc: array<Proc>
    var nextpid: nat

    constructor ()
      ensures fresh(proc) && proc.Length == NPROC && nextpid == 1
      ensures forall i :: 0 <= i < NPROC ==> proc[i] == Proc(UNUSED, 0, 0, NoChan, false)
    {
      proc := new Proc[NPROC](_ => Proc(UNUSED, 0, 0, NoChan, false));
      nextpid := 1;
    }

    /** allocproc under ptable.lock: the first UNUSED slot gets the next pid. */
    method Allocproc() returns (r: Option<nat>)
      modifies this, proc
      ensures r.None? ==> unchanged(this) && unchanged(proc) && forall i :: 0 <= i < proc.Length ==> proc[i].state != UNUSED
      ensures r.Some? ==>
                && FirstUnused(old(proc[..]), r.value) && nextpid == old(nextpid) + 1
                && proc[..] == Allocated(old(proc[..]), r.value, old(nextpid))
    {
      var i := 0;
      while i < proc.Length
        invariant 0 <= i <= proc.Length && unchanged(this) && unchanged(proc)
        invariant forall j :: 0 <= j < i ==> proc[j].state != UNUSED
      {
        if proc[i].state == UNUSED {
          proc[i] := proc[i].(state := EMBRYO, pid := nextpid, killed := false);
          nextpid := nextpid + 1;
          return Some(i);
        }
        i := i + 1;
      }
      return None;
    }

    /** wakeup1. */
    method Wakeup1(c: Chan)
      modifies proc
      ensures proc[..] == Woken(old(proc[..]), c)
    {
      var i := 0;
      while i < proc.Length
        invariant 0 <= i <= proc.Length
        invariant forall j :: 0 <= j < i ==> proc[j] == Woken(old(proc[..]), c)[j]
        invariant forall j :: i <= j < proc.Length ==> proc[j] == old(proc[j])
      {
        if proc[i].state == SLEEPING && proc[i].chan == c {
          proc[i] := proc[i].(state := RUNNABLE);
        }
        i := i + 1;
      }
    }

    /** exit from taking ptable.lock to sched: the children go to init, the process becomes a zombie,
        and its parent is woken. */
    method Exit(me: nat, init: nat)
      requires me < proc.Length && init < proc.Length
      modifies proc
      ensures proc[..] == Exited(old(proc[..]), me, old(proc[init].pid))
    {
      ghost var t := proc[..];
      var i := 0;
      while i < proc.Length
        invariant 0 <= i <= proc.Length
        invariant forall j :: 0 <= j < i ==> proc[j] == Reparented(t, t[me].pid, t[init].pid)[j]
        invariant forall j :: i <= j < proc.Length ==> proc[j] == t[j]
      {
        if proc[i].parent == proc[me].pid {
          proc[i] := proc[i].(parent := proc[init].pid);
        }
        i := i + 1;
      }
      assert proc[..] == Reparented(t, t[me].pid, t[init].pid);
      proc[me] := proc[me].(state := ZOMBIE);
      Wakeup1(OnPid(proc[me].parent));
    }

    /** One turn of wait's loop: the first zombie child is reaped, without children it fails, and otherwise the
        caller goes to sleep. */
    method Wait(me: nat) returns (r: WaitResult, child: nat)
      requires me < proc.Length
      modifies proc
      ensures r.NoChildren? ==> unchanged(proc) && !HasChild(old(proc[..]), old(proc[me]).pid)
      ensures r.Reaped? ==>
                && ZombieChild(old(proc[..]), child, old(proc[me]).pid) && r.pid == old(proc[child]).pid
                && NoZombieChild(old(proc[..]), child, old(proc[me]).pid) && proc[..] == Collected(old(proc[..]), child)
      ensures r.Slept? ==>
                && HasChild(old(proc[..]), old(proc[me]).pid) && NoZombieChild(old(proc[..]), proc.Length, old(proc[me]).pid)
                && proc[..] == FallenAsleep(old(proc[..]), me, OnPid(old(proc[me]).pid))
    {
      var childrenExist := false;
      var i := 0;
      child := 0;
      while i < proc.Length
        invariant 0 <= i <= proc.Length
        invariant childrenExist <==> exists j :: 0 <= j < i && proc[j].parent == proc[me].pid
        invariant NoZombieChild(proc[..], i, proc[me].pid)
      {
        if proc[i].parent == proc[me].pid {
          childrenExist := true;
          if proc[i].state == ZOMBIE {
            r := Reaped(proc[i].pid);
            child := i;
            proc[i] := proc[i].(state := UNUSED, parent := -1);
            return;
          }
        }
        i := i + 1;
      }
      if !childrenExist {
        return NoChildren, child;
      }
      proc[me] := proc[me].(chan := OnPid(proc[me].pid), state := SLEEPING);
      return Slept, child;
    }

    /** kill: the first slot with the pid is marked, and woken if it sleeps. */
    method Kill(pid: nat) returns (target: Option<nat>)
      modifies proc
      ensures target.None? ==> unchanged(proc) && forall i :: 0 <= i < proc.Length ==> proc[i].pid != pid
      ensures target.Some? ==> FirstWithPid(old(proc[..]), target.value, pid) && proc[..] == Killed(old(proc[..]), target.value)
    {
      var i := 0;
      while i < proc.Length
        invariant 0 <= i <= proc.Length && unchanged(proc) && forall j :: 0 <= j < i ==> proc[j].pid != pid
      {
        if proc[i].pid == pid {
          proc[i] := proc[i].(killed := true);
          if proc[i].state == SLEEPING {
            proc[i] := proc[i].(state := RUNNABLE);
          }
          return Some(i);
        }
        i := i + 1;
      }
      return None;
    }
  }
}
