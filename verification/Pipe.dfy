/** Pipes under concurrency: reads, writes, dup and close of one pipe by any number of processes, one
    step per stretch between lock operations. A sleeping process may be woken at any time, which covers
    wakeup, kill and every scheduling order. */
module Pipe {
  import opened Prelude
  import opened PipeRing

  datatype Fd = Fd(pid: nat, slot: nat)

  /** Where a process is in a pipe operation. `buf` and `idx` are a write's buffer and progress. */
  datatype Pc =
    | Idle
    | WFile(fd: Fd, buf: seq<byte>)                          // wants the write end's sleeplock
    | WPipe(fd: Fd, buf: seq<byte>, idx: nat)                // wants pipe_lock
    | WBody(fd: Fd, buf: seq<byte>, idx: nat)                // in the loop, holding both
    | WAsleep(fd: Fd, buf: seq<byte>, idx: nat)              // asleep on active_writer
    | WWake(fd: Fd, buf: seq<byte>, idx: nat)                // about to wake the readers
    | WRet(fd: Fd, buf: seq<byte>, idx: nat, ret: int)       // about to return
    | RFile(fd: Fd, n: nat)                                  // wants the read end's sleeplock
    | RPipe(fd: Fd, n: nat)                                  // wants pipe_lock
    | RBody(fd: Fd, n: nat)                                  // holding both
    | RSleep(fd: Fd, n: nat)                                 // about to sleep, holding pipe_lock
    | RAsleep(fd: Fd, n: nat)                                // asleep on active_readers
    | RAgain(fd: Fd, n: nat)                                 // woken, wants pipe_lock
    | RRelock(fd: Fd, n: nat)                                // holds pipe_lock, wants the sleeplock
    | RRet(fd: Fd, n: nat, got: seq<byte>)                   // about to return
    | CFile(fd: Fd, reader: bool)                            // close: wants the sleeplock
    | CPipe(fd: Fd, reader: bool)                            // wants pipe_lock
    | CBody(fd: Fd, reader: bool)                            // holding both
    | CRet(fd: Fd, reader: bool)                             // about to return

  /** A write or read that returned. */
  datatype Written = Written(pid: nat, buf: seq<byte>, idx: nat, ret: int)
  datatype ReadBack = ReadBack(pid: nat, n: nat, got: seq<byte>)

  /** `wlog` and `rlog` record the calls that returned, in the order they gave up their sleeplock. */
  datatype State = State(
    ring: Ring, readOpen: bool, writeOpen: bool, readRefs: nat, writeRefs: nat,
    readFds: set<Fd>, writeFds: set<Fd>,
    readLock: Option<nat>, writeLock: Option<nat>, pipeLock: Option<nat>,
    pcs: map<nat, Pc>, wlog: seq<Written>, rlog: seq<ReadBack>, panicked: bool)

  datatype Step =
    | CallWrite(fd: Fd, buf: seq<byte>)
    | CallRead(fd: Fd, n: nat)
    | CallClose(fd: Fd, reader: bool)
    | Dup(fd: Fd, copy: Fd, reader: bool)  // file_dup, or fork for the child's descriptor
    | Wake(pid: nat)
    | Run(pid: nat)

  function PcOf(s: State, p: nat): Pc {
    if p in s.pcs then s.pcs[p] else Idle
  }

  function Goto(s: State, p: nat, pc: Pc): State {
    s.(pcs := s.pcs[p := pc])
  }

  /** pipe_open gives its caller one descriptor for each end. */
  predicate Init(s: State, r: Fd, w: Fd) {
    && |s.ring.buffer| == CAPACITY && s.ring.readOffset == s.ring.writeOffset == s.ring.available == 0
    && s.readOpen && s.writeOpen && s.readRefs == 1 && s.writeRefs == 1
    && s.readFds == {r} && s.writeFds == {w}
    && s.readLock == s.writeLock == s.pipeLock == None
    && s.pcs == map[] && s.wlog == [] && s.rlog == [] && !s.panicked
  }

  /** A turn of pipe_write's outer loop. */
  function WriteBody(s: State, p: nat, pc: Pc): State
    requires pc.WBody? && pc.idx <= |pc.buf| && |s.ring.buffer| == CAPACITY && s.ring.writeOffset < CAPACITY
    requires s.ring.available <= CAPACITY
  {
    if pc.idx == |pc.buf| then
      Goto(s, p, WWake(pc.fd, pc.buf, pc.idx)).(pipeLock := None)
    else if !s.readOpen then
      if pc.idx == 0 then Goto(s, p, WRet(pc.fd, pc.buf, 0, -1)).(pipeLock := None)
      else Goto(s, p, WWake(pc.fd, pc.buf, pc.idx)).(pipeLock := None)
    else
      var next := pc.idx + Min(|pc.buf| - pc.idx, CAPACITY - s.ring.available);
      var filled := s.(ring := PutAll(s.ring, pc.buf[pc.idx..next]));
      if next < |pc.buf| then Goto(filled, p, WAsleep(pc.fd, pc.buf, next)).(pipeLock := None)
      else Goto(filled, p, WBody(pc.fd, pc.buf, next))
  }

  /** pipe_read from its wait loop to the release of pipe_lock, or to sleep. */
  ghost function ReadBody(s: State, p: nat, pc: Pc): State
    requires pc.RBody? && RingOk(s.ring)
  {
    if s.ring.available == 0 then
      if s.writeOpen then Goto(s, p, RSleep(pc.fd, pc.n)).(readLock := None)
      else Goto(s, p, RRet(pc.fd, pc.n, [])).(pipeLock := None)
    else
      var k := Min(pc.n, s.ring.available);
      Goto(s, p, RRet(pc.fd, pc.n, Contents(s.ring)[..k])).(ring := DropAll(s.ring, k), pipeLock := None)
  }

  /** pipe_close under pipe_lock. */
  function CloseBody(s: State, p: nat, pc: Pc): State
    requires pc.CBody? && (if pc.reader then s.readRefs > 0 else s.writeRefs > 0)
  {
    var s1 := Goto(s, p, CRet(pc.fd, pc.reader)).(pipeLock := None);
    if pc.reader then
      s1.(readRefs := s.readRefs - 1, readFds := s.readFds - {pc.fd}, readOpen := s.readOpen && s.readRefs != 1)
    else
      s1.(writeRefs := s.writeRefs - 1, writeFds := s.writeFds - {pc.fd}, writeOpen := s.writeOpen && s.writeRefs != 1)
  }

  predicate Enabled(s: State, p: nat) {
    match PcOf(s, p)
    case Idle => false
    case WFile(_, _) => s.writeLock == None
    case WPipe(_, _, _) => s.pipeLock == None
    case WAsleep(_, _, _) => false
    case RFile(_, _) => s.readLock == None
    case RPipe(_, _) => s.pipeLock == None
    case RAsleep(_, _) => false
    case RAgain(_, _) => s.pipeLock == None
    case CFile(_, reader) => if reader then s.readLock == None else s.writeLock == None
    case CPipe(_, _) => s.pipeLock == None
    case _ => true
  }

  predicate UsesWriteEnd(pc: Pc) {
    pc.WFile? || pc.WPipe? || pc.WBody? || pc.WAsleep? || pc.WWake? || pc.WRet?
    || ((pc.CFile? || pc.CPipe? || pc.CBody?) && !pc.reader)
  }

  predicate UsesReadEnd(pc: Pc) {
    pc.RFile? || pc.RPipe? || pc.RBody? || pc.RSleep? || pc.RAsleep? || pc.RAgain? || pc.RRelock? || pc.RRet?
    || ((pc.CFile? || pc.CPipe? || pc.CBody?) && pc.reader)
  }

  /** The descriptor a call uses is still open, and its end with it: the file still points to the pipe.
      The step reads and writes inside the ring and the buffer, and a count it decrements is not zero. */
  ghost predicate Defined(s: State, p: nat) {
    var pc := PcOf(s, p);
    && (UsesWriteEnd(pc) ==> pc.fd in s.writeFds && s.writeOpen)
    && (UsesReadEnd(pc) ==> pc.fd in s.readFds && s.readOpen)
    && RingOk(s.ring) && (pc.WBody? ==> pc.idx <= |pc.buf|)
    && (pc.CBody? ==> if pc.reader then s.readRefs > 0 else s.writeRefs > 0)
  }

  ghost function Advance(s: State, p: nat): State
    requires Defined(s, p)
  {
    var pc := PcOf(s, p);
    match pc
    case WFile(fd, buf) => Goto(s, p, WPipe(fd, buf, 0)).(writeLock := Some(p))
    case WPipe(fd, buf, idx) => Goto(s, p, WBody(fd, buf, idx)).(pipeLock := Some(p))
    case WBody(_, _, _) => WriteBody(s, p, pc)
    case WWake(fd, buf, idx) => Goto(s, p, WRet(fd, buf, idx, idx))
    case WRet(_, buf, idx, ret) => Goto(s, p, Idle).(writeLock := None, wlog := s.wlog + [Written(p, buf, idx, ret)])
    case RFile(fd, n) => Goto(s, p, RPipe(fd, n)).(readLock := Some(p))
    case RPipe(fd, n) => Goto(s, p, RBody(fd, n)).(pipeLock := Some(p))
    case RBody(_, _) => ReadBody(s, p, pc)
    case RSleep(fd, n) => Goto(s, p, RAsleep(fd, n)).(pipeLock := None)
    case RAgain(fd, n) => Goto(s, p, RRelock(fd, n)).(pipeLock := Some(p))
    case RRelock(fd, n) =>  // if the lock is taken, acquiresleep sleeps holding pipe_lock and sched panics
      if s.readLock == None then Goto(s, p, RBody(fd, n)).(readLock := Some(p)) else s.(panicked := true)
    case RRet(_, n, got) => Goto(s, p, Idle).(readLock := None, rlog := s.rlog + [ReadBack(p, n, got)])
    case CFile(fd, reader) =>
      if reader then Goto(s, p, CPipe(fd, reader)).(readLock := Some(p)) else Goto(s, p, CPipe(fd, reader)).(writeLock := Some(p))
    case CPipe(fd, reader) => Goto(s, p, CBody(fd, reader)).(pipeLock := Some(p))
    case CBody(_, _) => CloseBody(s, p, pc)
    case CRet(_, reader) => if reader then Goto(s, p, Idle).(readLock := None) else Goto(s, p, Idle).(writeLock := None)
    case _ => s
  }

  /** A panic halts the machine; a step that is not defined could do anything. */
  ghost predicate Next(s: State, step: Step, s': State) {
    && !s.panicked
    && match step
       case CallWrite(fd, buf) => fd in s.writeFds && PcOf(s, fd.pid).Idle? && s' == Goto(s, fd.pid, WFile(fd, buf))
       case CallRead(fd, n) => fd in s.readFds && PcOf(s, fd.pid).Idle? && s' == Goto(s, fd.pid, RFile(fd, n))
       case CallClose(fd, reader) =>
         && fd in (if reader then s.readFds else s.writeFds)
         && PcOf(s, fd.pid).Idle? && s' == Goto(s, fd.pid, CFile(fd, reader))
       case Dup(fd, copy, reader) =>
         && PcOf(s, fd.pid).Idle? && PcOf(s, copy.pid).Idle? && copy !in s.readFds && copy !in s.writeFds
         && if reader
            then fd in s.readFds && s.readLock == None && s' == s.(readRefs := s.readRefs + 1, readFds := s.readFds + {copy})
            else fd in s.writeFds && s.writeLock == None && s' == s.(writeRefs := s.writeRefs + 1, writeFds := s.writeFds + {copy})
       case Wake(p) =>
         match PcOf(s, p) {
           case WAsleep(fd, buf, idx) => s' == Goto(s, p, WPipe(fd, buf, idx))
           case RAsleep(fd, n) => s' == Goto(s, p, RAgain(fd, n))
           case _ => false
         }
       case Run(p) => Enabled(s, p) && (Defined(s, p) ==> s' == Advance(s, p))
  }

  // ---- the invariant ----

  predicate HoldsWrite(pc: Pc) {
    pc.WPipe? || pc.WBody? || pc.WAsleep? || pc.WWake? || pc.WRet? || ((pc.CPipe? || pc.CBody? || pc.CRet?) && !pc.reader)
  }

  predicate HoldsRead(pc: Pc) {
    pc.RPipe? || pc.RBody? || pc.RRet? || ((pc.CPipe? || pc.CBody? || pc.CRet?) && pc.reader)
  }

  predicate HoldsPipe(pc: Pc) {
    pc.WBody? || pc.RBody? || pc.RSleep? || pc.RRelock? || pc.CBody?
  }

  predicate Writing(pc: Pc) {
    pc.WPipe? || pc.WBody? || pc.WAsleep? || pc.WWake? || pc.WRet?
  }

  /** The bytes a write in progress has put in so far. */
  function Sent(pc: Pc): seq<byte> {
    if Writing(pc) && pc.idx <= |pc.buf| then pc.buf[..pc.idx] else []
  }

  /** The bytes a read took out and is about to return. */
  function Received(pc: Pc): seq<byte> {
    if pc.RRet? then pc.got else []
  }

  function Sending(s: State): seq<byte> {
    if s.writeLock.Some? then Sent(PcOf(s, s.writeLock.value)) else []
  }

  function Receiving(s: State): seq<byte> {
    if s.readLock.Some? then Received(PcOf(s, s.readLock.value)) else []
  }

  predicate PcOk(s: State, p: nat) {
    var pc := PcOf(s, p);
    && (HoldsWrite(pc) <==> s.writeLock == Some(p))
    && (HoldsRead(pc) <==> s.readLock == Some(p))
    && (HoldsPipe(pc) <==> s.pipeLock == Some(p))
    && (!pc.Idle? ==> pc.fd.pid == p)
    && (pc.WFile? || Writing(pc) ==> pc.fd in s.writeFds)
    && (Writing(pc) ==> pc.idx <= |pc.buf|)
    && (pc.WWake? || pc.WRet? ==> WriteOk(s, Written(p, pc.buf, pc.idx, if pc.WRet? then pc.ret else pc.idx)))
    && (pc.RFile? || pc.RPipe? || pc.RBody? || pc.RSleep? || pc.RAsleep? || pc.RAgain? || pc.RRelock? || pc.RRet? ==> pc.fd in s.readFds)
    && (pc.RRet? ==> ReadOk(s, ReadBack(p, pc.n, pc.got)))
    && (pc.CFile? || pc.CPipe? || pc.CBody? ==> pc.fd in (if pc.reader then s.readFds else s.writeFds))
  }

  /** A write is short only if the read end was closed, and fails only if nothing was written. */
  predicate WriteOk(s: State, w: Written) {
    && w.idx <= |w.buf| && (w.idx < |w.buf| ==> !s.readOpen)
    && w.ret == if w.idx == 0 && |w.buf| > 0 then -1 else w.idx
  }

  /** A read returns no bytes only if the write end was closed and the ring empty. */
  predicate ReadOk(s: State, r: ReadBack) {
    |r.got| <= r.n && (r.got == [] && r.n > 0 ==> !s.writeOpen && s.ring.available == 0)
  }

  function WrittenBytes(ws: seq<Written>): seq<byte> {
    if ws == [] then []
    else WrittenBytes(ws[..|ws| - 1]) + Sent(WRet(Fd(0, 0), ws[|ws| - 1].buf, ws[|ws| - 1].idx, 0))
  }

  function ReadBytes(rs: seq<ReadBack>): seq<byte> {
    if rs == [] then [] else ReadBytes(rs[..|rs| - 1]) + rs[|rs| - 1].got
  }

  /** First in, first out: what reads returned, then what the ring holds, is what writes put in, call
      after call. */
  ghost predicate Fifo(s: State)
    requires RingOk(s.ring)
  {
    ReadBytes(s.rlog) + Receiving(s) + Contents(s.ring) == WrittenBytes(s.wlog) + Sending(s)
  }

  predicate WrittenOk(s: State, i: nat) {
    i < |s.wlog| ==> WriteOk(s, s.wlog[i])
  }

  predicate ReadBackOk(s: State, i: nat) {
    i < |s.rlog| ==> ReadOk(s, s.rlog[i])
  }

  ghost predicate Inv(s: State) {
    && RingOk(s.ring) && Fifo(s)
    && s.readRefs == |s.readFds| && s.writeRefs == |s.writeFds|
    && (s.readOpen <==> s.readFds != {}) && (s.writeOpen <==> s.writeFds != {})
    && (forall p: nat :: PcOk(s, p))
    && (forall i: nat :: WrittenOk(s, i))
    && (forall i: nat :: ReadBackOk(s, i))
  }

  // ---- every step keeps it ----

  predicate LockFrame(before: Option<nat>, after: Option<nat>, p: nat) {
    before == after || (before == None && after == Some(p)) || (before == Some(p) && after == None)
  }

  predicate FdKept(s: State, s': State, p: nat, fd: Fd) {
    fd.pid != p ==> (fd in s.readFds ==> fd in s'.readFds) && (fd in s.writeFds ==> fd in s'.writeFds)
  }

  predicate PcKept(s: State, s': State, p: nat, u: nat) {
    u != p ==> PcOf(s', u) == PcOf(s, u)
  }

  /** Only process p moved, and nothing another process relies on was undone. */
  ghost predicate Frame(s: State, s': State, p: nat) {
    && (forall u: nat :: PcKept(s, s', p, u))
    && LockFrame(s.readLock, s'.readLock, p) && LockFrame(s.writeLock, s'.writeLock, p) && LockFrame(s.pipeLock, s'.pipeLock, p)
    && (forall fd: Fd :: FdKept(s, s', p, fd))
    && (!s.readOpen ==> !s'.readOpen)
    && (!s.writeOpen ==> !s'.writeOpen && (s.ring.available == 0 ==> s'.ring.available == 0))
  }

  lemma OthersOk(s: State, s': State, p: nat)
    requires Inv(s) && Frame(s, s', p)
    ensures forall u: nat :: u != p ==> PcOk(s', u)
    ensures forall i: nat :: i < |s.wlog| ==> WriteOk(s', s.wlog[i])
    ensures forall i: nat :: i < |s.rlog| ==> ReadOk(s', s.rlog[i])
  {
    forall u: nat | u != p ensures PcOk(s', u) {
      assert PcOk(s, u) && PcKept(s, s', p, u);
      var pc := PcOf(s, u);
      if !pc.Idle? {
        assert FdKept(s, s', p, pc.fd);
      }
    }
    forall i: nat | i < |s.wlog| ensures WriteOk(s', s.wlog[i]) {
      assert WrittenOk(s, i);
    }
    forall i: nat | i < |s.rlog| ensures ReadOk(s', s.rlog[i]) {
      assert ReadBackOk(s, i);
    }
  }

  /** What is on its way changes only through p. */
  lemma OnTheWay(s: State, s': State, p: nat)
    requires Frame(s, s', p) && PcOk(s, p) && PcOk(s', p)
    ensures Sending(s') == if s.writeLock == Some(p) || s'.writeLock == Some(p) then Sent(PcOf(s', p)) else Sending(s)
    ensures Receiving(s') == if s.readLock == Some(p) || s'.readLock == Some(p) then Received(PcOf(s', p)) else Receiving(s)
    ensures s.writeLock != Some(p) ==> Sent(PcOf(s, p)) == []
    ensures s.writeLock == Some(p) ==> Sending(s) == Sent(PcOf(s, p))
    ensures s.readLock == Some(p) ==> Receiving(s) == Received(PcOf(s, p))
  {
    assert s.writeLock.Some? ==> PcKept(s, s', p, s.writeLock.value);
    assert s.readLock.Some? ==> PcKept(s, s', p, s.readLock.value);
  }

  /** The global part of the invariant, given the moving process's own. */
  ghost predicate Rest(s: State, s': State, p: nat) {
    && RingOk(s'.ring) && PcOk(s', p)
    && s'.readRefs == |s'.readFds| && s'.writeRefs == |s'.writeFds|
    && (s'.readOpen <==> s'.readFds != {}) && (s'.writeOpen <==> s'.writeFds != {})
  }

  lemma Concluded(s: State, s': State, p: nat)
    requires Inv(s) && Frame(s, s', p) && Rest(s, s', p) && Fifo(s')
    requires s'.wlog == s.wlog || (|s'.wlog| == |s.wlog| + 1 && s'.wlog[..|s.wlog|] == s.wlog && WriteOk(s', s'.wlog[|s.wlog|]))
    requires s'.rlog == s.rlog || (|s'.rlog| == |s.rlog| + 1 && s'.rlog[..|s.rlog|] == s.rlog && ReadOk(s', s'.rlog[|s.rlog|]))
    ensures Inv(s')
  {
    OthersOk(s, s', p);
    forall u: nat ensures PcOk(s', u) {
    }
    forall i: nat ensures WrittenOk(s', i) {
      if i < |s.wlog| {
        assert s'.wlog[..|s.wlog|][i] == s.wlog[i];
      }
    }
    forall i: nat ensures ReadBackOk(s', i) {
      if i < |s.rlog| {
        assert s'.rlog[..|s.rlog|][i] == s.rlog[i];
      }
    }
  }

  /** A step that moves no byte. */
  lemma Quiet(s: State, s': State, p: nat)
    requires Inv(s) && Frame(s, s', p) && Rest(s, s', p) && s'.ring == s.ring && s'.wlog == s.wlog && s'.rlog == s.rlog
    requires Sent(PcOf(s', p)) == Sent(PcOf(s, p)) && Received(PcOf(s', p)) == Received(PcOf(s, p))
    ensures Inv(s')
  {
    assert PcOk(s, p);
    OnTheWay(s, s', p);
    Concluded(s, s', p);
  }

  /** Process p moves to pc, and locks pass to or from it. */
  function Moved(s: State, p: nat, pc: Pc, readLock: Option<nat>, writeLock: Option<nat>, pipeLock: Option<nat>): State {
    Goto(s, p, pc).(readLock := readLock, writeLock := writeLock, pipeLock := pipeLock)
  }

  lemma MoveKeepsInv(s: State, p: nat, pc: Pc, readLock: Option<nat>, writeLock: Option<nat>, pipeLock: Option<nat>)
    requires Inv(s) && PcOk(Moved(s, p, pc, readLock, writeLock, pipeLock), p)
    requires LockFrame(s.readLock, readLock, p) && LockFrame(s.writeLock, writeLock, p) && LockFrame(s.pipeLock, pipeLock, p)
    requires Sent(pc) == Sent(PcOf(s, p)) && Received(pc) == Received(PcOf(s, p))
    ensures Inv(Moved(s, p, pc, readLock, writeLock, pipeLock))
  {
    Quiet(s, Moved(s, p, pc, readLock, writeLock, pipeLock), p);
  }

  /** The bytes that went into the ring are those the write got further by. */
  lemma FillIsFifo(s: State, p: nat, s': State, more: seq<byte>)
    requires Inv(s) && Frame(s, s', p) && PcOk(s, p) && RingOk(s'.ring) && PcOk(s', p) && s'.wlog == s.wlog && s'.rlog == s.rlog
    requires s.writeLock == s'.writeLock == Some(p) && s'.readLock == s.readLock
    requires Contents(s'.ring) == Contents(s.ring) + more && Sent(PcOf(s', p)) == Sent(PcOf(s, p)) + more
    ensures Fifo(s')
  {
    OnTheWay(s, s', p);
    AppendBoth(ReadBytes(s.rlog) + Receiving(s), Contents(s.ring), WrittenBytes(s.wlog), Sending(s), more);
  }

  lemma AppendBoth(out: seq<byte>, c: seq<byte>, log: seq<byte>, now: seq<byte>, more: seq<byte>)
    requires out + c == log + now
    ensures out + (c + more) == log + (now + more)
  {
    assert out + (c + more) == (out + c) + more;
    assert log + (now + more) == (log + now) + more;
  }

  lemma FilledKeepsInv(s: State, p: nat, s': State, next: nat)
    requires Inv(s) && PcOf(s, p).WBody? && PcOk(s, p) && PcOf(s, p).idx <= next <= |PcOf(s, p).buf|
    requires RingOk(s'.ring) && Contents(s'.ring) == Contents(s.ring) + PcOf(s, p).buf[PcOf(s, p).idx..next]
    requires var pc := PcOf(s, p);
             if next < |pc.buf| then s' == Goto(s.(ring := s'.ring), p, WAsleep(pc.fd, pc.buf, next)).(pipeLock := None)
             else s' == Goto(s.(ring := s'.ring), p, WBody(pc.fd, pc.buf, next))
    ensures Inv(s')
  {
    var pc := PcOf(s, p);
    var more := pc.buf[pc.idx..next];
    assert pc.buf[..next] == pc.buf[..pc.idx] + more;
    FillIsFifo(s, p, s', more);
    Concluded(s, s', p);
  }

  lemma FillKeepsInv(s: State, p: nat, s': State)
    requires Inv(s) && PcOf(s, p).WBody? && PcOk(s, p) && s' == WriteBody(s, p, PcOf(s, p))
    requires PcOf(s, p).idx < |PcOf(s, p).buf| && s.readOpen
    ensures Inv(s')
  {
    var pc := PcOf(s, p);
    var next := pc.idx + Min(|pc.buf| - pc.idx, CAPACITY - s.ring.available);
    PutAllAppends(s.ring, pc.buf[pc.idx..next]);
    FilledKeepsInv(s, p, s', next);
  }

  lemma LeaveKeepsInv(s: State, p: nat, s': State)
    requires Inv(s) && PcOf(s, p).WBody? && PcOk(s, p) && s' == WriteBody(s, p, PcOf(s, p))
    requires PcOf(s, p).idx == |PcOf(s, p).buf| || !s.readOpen
    ensures Inv(s')
  {
    assert s' == Moved(s, p, PcOf(s', p), s.readLock, s.writeLock, None);
    MoveKeepsInv(s, p, PcOf(s', p), s.readLock, s.writeLock, None);
  }

  /** The bytes that left the ring are those the read returns. */
  lemma DrainIsFifo(s: State, p: nat, s': State, k: nat)
    requires Inv(s) && Frame(s, s', p) && PcOk(s, p) && RingOk(s'.ring) && PcOk(s', p) && s'.wlog == s.wlog && s'.rlog == s.rlog
    requires s.readLock == s'.readLock == Some(p) && s'.writeLock == s.writeLock && k <= s.ring.available
    requires Received(PcOf(s, p)) == [] && Received(PcOf(s', p)) == Contents(s.ring)[..k] && Contents(s'.ring) == Contents(s.ring)[k..]
    ensures Fifo(s')
  {
    OnTheWay(s, s', p);
    assert s.writeLock != Some(p);
    TakeFront(ReadBytes(s.rlog), Contents(s.ring), k);
  }

  lemma TakeFront(out: seq<byte>, c: seq<byte>, k: nat)
    requires k <= |c|
    ensures out + c[..k] + c[k..] == out + [] + c
  {
    assert c[..k] + c[k..] == c;
  }

  lemma DrainKeepsInv(s: State, p: nat, s': State)
    requires Inv(s) && PcOf(s, p).RBody? && PcOk(s, p) && s' == ReadBody(s, p, PcOf(s, p)) && s.ring.available > 0
    ensures Inv(s')
  {
    var pc := PcOf(s, p);
    var k := Min(pc.n, s.ring.available);
    DropAllRemoves(s.ring, k);
    DrainIsFifo(s, p, s', k);
    Concluded(s, s', p);
  }

  lemma EmptyKeepsInv(s: State, p: nat, s': State)
    requires Inv(s) && PcOf(s, p).RBody? && PcOk(s, p) && s' == ReadBody(s, p, PcOf(s, p)) && s.ring.available == 0
    ensures Inv(s')
  {
    assert s' == Moved(s, p, PcOf(s', p), s'.readLock, s.writeLock, s'.pipeLock);
    MoveKeepsInv(s, p, PcOf(s', p), s'.readLock, s.writeLock, s'.pipeLock);
  }

  lemma CloseBodyKeepsInv(s: State, p: nat, s': State)
    requires Inv(s) && PcOf(s, p).CBody? && PcOk(s, p) && (if PcOf(s, p).reader then s.readRefs > 0 else s.writeRefs > 0)
    requires s' == CloseBody(s, p, PcOf(s, p))
    ensures Inv(s')
  {
    var pc := PcOf(s, p);
    if pc.reader {
      assert |s.readFds - {pc.fd}| == |s.readFds| - 1;
    } else {
      assert |s.writeFds - {pc.fd}| == |s.writeFds| - 1;
    }
    Quiet(s, s', p);
  }

  lemma WriteReturns(s: State, p: nat, s': State)
    requires Inv(s) && Defined(s, p) && PcOf(s, p).WRet? && s' == Advance(s, p)
    ensures Inv(s')
  {
    assert PcOk(s, p);
    OnTheWay(s, s', p);
    assert s'.wlog[..|s.wlog|] == s.wlog;
    assert WrittenBytes(s'.wlog) + [] == WrittenBytes(s.wlog) + Sending(s);
    Concluded(s, s', p);
  }

  lemma ReadReturns(s: State, p: nat, s': State)
    requires Inv(s) && Defined(s, p) && PcOf(s, p).RRet? && s' == Advance(s, p)
    ensures Inv(s')
  {
    assert PcOk(s, p);
    OnTheWay(s, s', p);
    assert s'.rlog[..|s.rlog|] == s.rlog;
    assert ReadBytes(s'.rlog) + [] == ReadBytes(s.rlog) + Receiving(s);
    Concluded(s, s', p);
  }

  // The steps that only take or give back a lock.

  lemma WriterMove(s: State, p: nat, s': State)
    requires Inv(s) && Defined(s, p) && Enabled(s, p) && s' == Advance(s, p) && (PcOf(s, p).WFile? || PcOf(s, p).WPipe? || PcOf(s, p).WWake?)
    ensures Inv(s')
  {
    assert PcOk(s, p);
    assert s' == Moved(s, p, PcOf(s', p), s'.readLock, s'.writeLock, s'.pipeLock);
    MoveKeepsInv(s, p, PcOf(s', p), s'.readLock, s'.writeLock, s'.pipeLock);
  }

  lemma CloserMove(s: State, p: nat, s': State)
    requires Inv(s) && Defined(s, p) && Enabled(s, p) && s' == Advance(s, p) && (PcOf(s, p).CFile? || PcOf(s, p).CPipe?)
    ensures Inv(s')
  {
    assert PcOk(s, p);
    assert s' == Moved(s, p, PcOf(s', p), s'.readLock, s'.writeLock, s'.pipeLock);
    MoveKeepsInv(s, p, PcOf(s', p), s'.readLock, s'.writeLock, s'.pipeLock);
  }

  lemma ClosedMove(s: State, p: nat, s': State)
    requires Inv(s) && Defined(s, p) && Enabled(s, p) && s' == Advance(s, p) && PcOf(s, p).CRet?
    ensures Inv(s')
  {
    assert PcOk(s, p);
    assert s' == Moved(s, p, Idle, s'.readLock, s'.writeLock, s.pipeLock);
    MoveKeepsInv(s, p, Idle, s'.readLock, s'.writeLock, s.pipeLock);
  }

  lemma ReaderMove(s: State, p: nat, s': State)
    requires Inv(s) && Defined(s, p) && Enabled(s, p) && s' == Advance(s, p) && (PcOf(s, p).RFile? || PcOf(s, p).RPipe? || PcOf(s, p).RSleep?)
    ensures Inv(s')
  {
    assert PcOk(s, p);
    assert s' == Moved(s, p, PcOf(s', p), s'.readLock, s'.writeLock, s'.pipeLock);
    MoveKeepsInv(s, p, PcOf(s', p), s'.readLock, s'.writeLock, s'.pipeLock);
  }

  lemma WokenMove(s: State, p: nat, s': State)
    requires Inv(s) && Defined(s, p) && Enabled(s, p) && s' == Advance(s, p) && (PcOf(s, p).RAgain? || PcOf(s, p).RRelock?)
    ensures Inv(s')
  {
    assert PcOk(s, p);
    if PcOf(s, p).RRelock? && s.readLock != None {
      Quiet(s, s', p);
    } else {
      assert s' == Moved(s, p, PcOf(s', p), s'.readLock, s'.writeLock, s'.pipeLock);
      MoveKeepsInv(s, p, PcOf(s', p), s'.readLock, s'.writeLock, s'.pipeLock);
    }
  }

  lemma AdvanceKeepsInv(s: State, p: nat, s': State)
    requires Inv(s) && Defined(s, p) && Enabled(s, p) && s' == Advance(s, p)
    ensures Inv(s')
  {
    assert PcOk(s, p);
    var pc := PcOf(s, p);
    match pc {
      case WBody(_, _, _) =>
        if pc.idx == |pc.buf| || !s.readOpen {
          LeaveKeepsInv(s, p, s');
        } else {
          FillKeepsInv(s, p, s');
        }
      case RBody(_, _) =>
        if s.ring.available == 0 {
          EmptyKeepsInv(s, p, s');
        } else {
          DrainKeepsInv(s, p, s');
        }
      case CBody(_, _) => CloseBodyKeepsInv(s, p, s');
      case WRet(_, _, _, _) => WriteReturns(s, p, s');
      case RRet(_, _, _) => ReadReturns(s, p, s');
      case WFile(_, _) => WriterMove(s, p, s');
      case WPipe(_, _, _) => WriterMove(s, p, s');
      case WWake(_, _, _) => WriterMove(s, p, s');
      case CFile(_, _) => CloserMove(s, p, s');
      case CPipe(_, _) => CloserMove(s, p, s');
      case CRet(_, _) => ClosedMove(s, p, s');
      case RAgain(_, _) => WokenMove(s, p, s');
      case RRelock(_, _) => WokenMove(s, p, s');
      case _ => ReaderMove(s, p, s');
    }
  }

  lemma DupKeepsInv(s: State, fd: Fd, copy: Fd, reader: bool, s': State)
    requires Inv(s) && Next(s, Dup(fd, copy, reader), s')
    ensures Inv(s')
  {
    assert PcOk(s, fd.pid);
    Quiet(s, s', fd.pid);
  }

  /** A call begins, or a sleeper is woken. */
  lemma BeginKeepsInv(s: State, p: nat, pc: Pc)
    requires Inv(s) && PcOk(Goto(s, p, pc), p)
    requires Sent(pc) == Sent(PcOf(s, p)) && Received(pc) == Received(PcOf(s, p))
    ensures Inv(Goto(s, p, pc))
  {
    assert Goto(s, p, pc) == Moved(s, p, pc, s.readLock, s.writeLock, s.pipeLock);
    MoveKeepsInv(s, p, pc, s.readLock, s.writeLock, s.pipeLock);
  }

  lemma CallKeepsInv(s: State, step: Step, s': State)
    requires Inv(s) && Next(s, step, s') && (step.CallWrite? || step.CallRead? || step.CallClose?)
    ensures Inv(s')
  {
    assert PcOk(s, step.fd.pid);
    BeginKeepsInv(s, step.fd.pid, PcOf(s', step.fd.pid));
  }

  lemma WakeKeepsInv(s: State, p: nat, s': State)
    requires Inv(s) && Next(s, Wake(p), s')
    ensures Inv(s')
  {
    assert PcOk(s, p);
    BeginKeepsInv(s, p, PcOf(s', p));
  }

  /** No step of a reachable state is undefined. */
  lemma AlwaysDefined(s: State, p: nat)
    requires Inv(s)
    ensures Defined(s, p)
  {
    assert PcOk(s, p);
  }

  lemma StepKeepsInv(s: State, step: Step, s': State)
    requires Inv(s) && Next(s, step, s')
    ensures Inv(s')
  {
    match step
    case Dup(fd, copy, reader) => DupKeepsInv(s, fd, copy, reader, s');
    case Wake(p) => WakeKeepsInv(s, p, s');
    case Run(p) => AlwaysDefined(s, p); AdvanceKeepsInv(s, p, s');
    case _ => CallKeepsInv(s, step, s');
  }

  // ---- whole runs ----

  ghost predicate StepAt(ss: seq<State>, steps: seq<Step>, i: nat) {
    i < |steps| && i + 1 < |ss| ==> Next(ss[i], steps[i], ss[i + 1])
  }

  ghost predicate IsRun(ss: seq<State>, steps: seq<Step>, r: Fd, w: Fd) {
    |ss| == |steps| + 1 && Init(ss[0], r, w) && forall i: nat :: StepAt(ss, steps, i)
  }

  lemma {:induction false} RunKeepsInv(ss: seq<State>, steps: seq<Step>, r: Fd, w: Fd, i: nat)
    requires IsRun(ss, steps, r, w) && i < |ss|
    ensures Inv(ss[i])
  {
    if i == 0 {
      InitInv(ss[0], r, w);
    } else {
      RunKeepsInv(ss, steps, r, w, i - 1);
      assert StepAt(ss, steps, i - 1);
      StepKeepsInv(ss[i - 1], steps[i - 1], ss[i]);
    }
  }

  lemma InitInv(s: State, r: Fd, w: Fd)
    requires Init(s, r, w)
    ensures Inv(s)
  {
    forall p: nat ensures PcOk(s, p) {
    }
  }

  /** First in, first out, in every state of every run. */
  lemma PipeIsFifo(ss: seq<State>, steps: seq<Step>, r: Fd, w: Fd, i: nat)
    requires IsRun(ss, steps, r, w) && i < |ss|
    ensures RingOk(ss[i].ring)
    ensures ReadBytes(ss[i].rlog) + Receiving(ss[i]) + Contents(ss[i].ring) == WrittenBytes(ss[i].wlog) + Sending(ss[i])
  {
    RunKeepsInv(ss, steps, r, w, i);
  }

  /** A write that returned is complete unless the read end was closed. */
  lemma WritesAreComplete(ss: seq<State>, steps: seq<Step>, r: Fd, w: Fd, i: nat, k: nat)
    requires IsRun(ss, steps, r, w) && i < |ss| && k < |ss[i].wlog|
    ensures var c := ss[i].wlog[k];
            && c.idx <= |c.buf| && c.ret == (if c.idx == 0 && |c.buf| > 0 then -1 else c.idx)
            && (c.ret != |c.buf| ==> !ss[i].readOpen)
  {
    RunKeepsInv(ss, steps, r, w, i);
    assert WrittenOk(ss[i], k);
  }

  /** Every byte that went into the ring so far, in the order in which bytes come out. */
  ghost function Stream(s: State): seq<byte>
    requires RingOk(s.ring)
  {
    ReadBytes(s.rlog) + Receiving(s) + Contents(s.ring)
  }

  lemma {:induction false} LoggedIsPrefix(ws: seq<Written>, k: nat)
    requires k < |ws| && ws[k].idx <= |ws[k].buf|
    ensures WrittenBytes(ws[..k]) + ws[k].buf[..ws[k].idx] <= WrittenBytes(ws)
  {
    var init := ws[..|ws| - 1];
    if k < |ws| - 1 {
      LoggedIsPrefix(init, k);
      assert init[..k] == ws[..k];
    }
  }

  /** The bytes of a write that returned are adjacent in the stream, right behind those of the writes that
      returned before it: nothing comes in between, however often it slept. */
  lemma WritesAreContiguous(ss: seq<State>, steps: seq<Step>, r: Fd, w: Fd, i: nat, k: nat)
    requires IsRun(ss, steps, r, w) && i < |ss| && k < |ss[i].wlog|
    ensures RingOk(ss[i].ring) && ss[i].wlog[k].idx <= |ss[i].wlog[k].buf|
    ensures WrittenBytes(ss[i].wlog[..k]) + ss[i].wlog[k].buf[..ss[i].wlog[k].idx] <= Stream(ss[i])
  {
    RunKeepsInv(ss, steps, r, w, i);
    assert WrittenOk(ss[i], k);
    LoggedIsPrefix(ss[i].wlog, k);
  }

  /** And those of the write in progress are its tail, also while the writer sleeps. */
  lemma WriteInProgress(ss: seq<State>, steps: seq<Step>, r: Fd, w: Fd, i: nat, p: nat)
    requires IsRun(ss, steps, r, w) && i < |ss| && Writing(PcOf(ss[i], p))
    ensures RingOk(ss[i].ring) && PcOf(ss[i], p).idx <= |PcOf(ss[i], p).buf|
    ensures Stream(ss[i]) == WrittenBytes(ss[i].wlog) + PcOf(ss[i], p).buf[..PcOf(ss[i], p).idx]
  {
    RunKeepsInv(ss, steps, r, w, i);
    assert PcOk(ss[i], p);
  }

  // ---- the stream only grows ----

  /** The bytes written so far, seen from the writers. */
  function AllSent(s: State): seq<byte> {
    WrittenBytes(s.wlog) + Sending(s)
  }

  predicate SendsOn(s: State, s': State) {
    || (s'.wlog == s.wlog && Sending(s) <= Sending(s'))
    || (|s'.wlog| == |s.wlog| + 1 && s'.wlog[..|s.wlog|] == s.wlog && Sending(s') == []
        && Sending(s) == Sent(WRet(Fd(0, 0), s'.wlog[|s.wlog|].buf, s'.wlog[|s.wlog|].idx, 0)))
  }

  lemma WriterSends(s: State, p: nat)
    requires Defined(s, p) && Enabled(s, p) && PcOk(s, p)
    requires var pc := PcOf(s, p); pc.WFile? || pc.WPipe? || pc.WBody? || pc.WWake? || pc.WRet?
    ensures SendsOn(s, Advance(s, p))
  {
    var pc, s' := PcOf(s, p), Advance(s, p);
    assert PcOf(s', p) == s'.pcs[p];
    if pc.WRet? {
      assert s'.wlog == s.wlog + [Written(p, pc.buf, pc.idx, pc.ret)];
    }
  }

  lemma CloserSends(s: State, p: nat)
    requires Defined(s, p) && Enabled(s, p) && PcOk(s, p)
    requires var pc := PcOf(s, p); pc.CFile? || pc.CPipe? || pc.CBody? || pc.CRet?
    ensures SendsOn(s, Advance(s, p))
  {
    var pc, s' := PcOf(s, p), Advance(s, p);
    assert PcOf(s', p) == s'.pcs[p];
    assert forall u: nat :: u != p ==> PcOf(s', u) == PcOf(s, u);
  }

  lemma ReaderSends(s: State, p: nat)
    requires Defined(s, p) && Enabled(s, p) && PcOk(s, p)
    requires var pc := PcOf(s, p); pc.RFile? || pc.RPipe? || pc.RBody? || pc.RSleep? || pc.RAgain? || pc.RRelock? || pc.RRet?
    ensures SendsOn(s, Advance(s, p))
  {
    var pc, s' := PcOf(s, p), Advance(s, p);
    assert s'.wlog == s.wlog && s'.writeLock == s.writeLock && s.writeLock != Some(p);
    assert forall u: nat :: u != p ==> PcOf(s', u) == PcOf(s, u);
  }

  lemma StepSends(s: State, step: Step, s': State)
    requires Inv(s) && Next(s, step, s')
    ensures SendsOn(s, s')
  {
    if step.Run? {
      var p := step.pid;
      AlwaysDefined(s, p);
      assert PcOk(s, p);
      var pc := PcOf(s, p);
      if pc.WFile? || pc.WPipe? || pc.WBody? || pc.WWake? || pc.WRet? {
        WriterSends(s, p);
      } else if pc.CFile? || pc.CPipe? || pc.CBody? || pc.CRet? {
        CloserSends(s, p);
      } else {
        ReaderSends(s, p);
      }
    } else if !step.Dup? {
      var p := if step.Wake? then step.pid else step.fd.pid;
      assert PcOk(s, p);
      assert forall u: nat :: u != p ==> PcOf(s', u) == PcOf(s, u);
    }
  }

  lemma {:induction false} SendsOnPrefix(s: State, s': State)
    requires SendsOn(s, s')
    ensures AllSent(s) <= AllSent(s')
  {
  }

  lemma PrefixTransitive(a: seq<byte>, b: seq<byte>, c: seq<byte>)
    requires a <= b && b <= c
    ensures a <= c
  {
  }

  lemma {:induction false} SentGrows(ss: seq<State>, steps: seq<Step>, r: Fd, w: Fd, i: nat, j: nat)
    requires IsRun(ss, steps, r, w) && i <= j < |ss|
    ensures AllSent(ss[i]) <= AllSent(ss[j])
  {
    if i < j {
      SentGrows(ss, steps, r, w, i, j - 1);
      RunKeepsInv(ss, steps, r, w, j - 1);
      assert StepAt(ss, steps, j - 1);
      StepSends(ss[j - 1], steps[j - 1], ss[j]);
      SendsOnPrefix(ss[j - 1], ss[j]);
      PrefixTransitive(AllSent(ss[i]), AllSent(ss[j - 1]), AllSent(ss[j]));
    }
  }

  lemma StreamIsSent(s: State)
    requires Inv(s)
    ensures Stream(s) == AllSent(s)
  {
  }

  /** What was written stays where it is in the stream for the rest of the run. */
  lemma StreamGrows(ss: seq<State>, steps: seq<Step>, r: Fd, w: Fd, i: nat, j: nat)
    requires IsRun(ss, steps, r, w) && i <= j < |ss|
    ensures RingOk(ss[i].ring) && RingOk(ss[j].ring) && Stream(ss[i]) <= Stream(ss[j])
  {
    RunKeepsInv(ss, steps, r, w, i);
    RunKeepsInv(ss, steps, r, w, j);
    SentGrows(ss, steps, r, w, i, j);
    StreamIsSent(ss[i]);
    StreamIsSent(ss[j]);
  }

  lemma {:induction false} LogsGrow(ss: seq<State>, steps: seq<Step>, r: Fd, w: Fd, i: nat, j: nat)
    requires IsRun(ss, steps, r, w) && i <= j < |ss|
    ensures ss[i].wlog <= ss[j].wlog && ss[i].rlog <= ss[j].rlog
    ensures !ss[i].writeOpen ==> ss[j].writeOpen == false && ss[j].wlog == ss[i].wlog
  {
    if i < j {
      LogsGrow(ss, steps, r, w, i, j - 1);
      RunKeepsInv(ss, steps, r, w, j - 1);
      assert StepAt(ss, steps, j - 1);
      StepGrowsLogs(ss[j - 1], steps[j - 1], ss[j]);
    }
  }

  lemma StepGrowsLogs(s: State, step: Step, s': State)
    requires Inv(s) && Next(s, step, s')
    ensures s.wlog <= s'.wlog && s.rlog <= s'.rlog
    ensures !s.writeOpen ==> !s'.writeOpen && s'.wlog == s.wlog
  {
    if step.Run? {
      AlwaysDefined(s, step.pid);
      assert PcOk(s, step.pid);
      AdvanceGrowsLogs(s, step.pid);
    }
  }

  // Only a return changes a log, and only a close an open flag.

  predicate LogsKept(s: State, s': State, pc: Pc) {
    (pc.WRet? || s'.wlog == s.wlog) && (pc.RRet? || s'.rlog == s.rlog) && (pc.CBody? || s'.writeOpen == s.writeOpen)
  }

  lemma WriterLogs(s: State, p: nat)
    requires Defined(s, p)
    requires var pc := PcOf(s, p); pc.WFile? || pc.WPipe? || pc.WBody? || pc.WWake? || pc.WRet? || pc.WAsleep?
    ensures LogsKept(s, Advance(s, p), PcOf(s, p))
  {
  }

  lemma ReaderLogs(s: State, p: nat)
    requires Defined(s, p)
    requires var pc := PcOf(s, p); pc.RFile? || pc.RPipe? || pc.RBody? || pc.RSleep? || pc.RAsleep? || pc.RAgain? || pc.RRelock? || pc.RRet?
    ensures LogsKept(s, Advance(s, p), PcOf(s, p))
  {
  }

  lemma CloserLogs(s: State, p: nat)
    requires Defined(s, p)
    requires var pc := PcOf(s, p); pc.CFile? || pc.CPipe? || pc.CBody? || pc.CRet? || pc.Idle?
    ensures LogsKept(s, Advance(s, p), PcOf(s, p))
  {
  }

  lemma AdvanceKeeps(s: State, p: nat)
    requires Defined(s, p)
    ensures LogsKept(s, Advance(s, p), PcOf(s, p))
  {
    var pc := PcOf(s, p);
    if pc.WFile? || pc.WPipe? || pc.WBody? || pc.WWake? || pc.WRet? || pc.WAsleep? {
      WriterLogs(s, p);
    } else if pc.CFile? || pc.CPipe? || pc.CBody? || pc.CRet? || pc.Idle? {
      CloserLogs(s, p);
    } else {
      ReaderLogs(s, p);
    }
  }

  lemma AdvanceGrowsLogs(s: State, p: nat)
    requires Defined(s, p) && PcOk(s, p) && (s.writeOpen <==> s.writeFds != {})
    ensures var s' := Advance(s, p);
            s.wlog <= s'.wlog && s.rlog <= s'.rlog && (!s.writeOpen ==> !s'.writeOpen && s'.wlog == s.wlog)
  {
    AdvanceKeeps(s, p);
    var pc, s' := PcOf(s, p), Advance(s, p);
    if pc.WRet? {
      assert s'.wlog == s.wlog + [Written(p, pc.buf, pc.idx, pc.ret)];
    } else if pc.RRet? {
      assert s'.rlog == s.rlog + [ReadBack(p, pc.n, pc.got)];
    } else if pc.CBody? {
      assert s' == CloseBody(s, p, pc);
    }
  }

  /** A read for some bytes returns none only at the end of the stream: from then on the write end is
      closed, nothing more is written, and every byte written was or is being returned. */
  lemma EndOfFile(ss: seq<State>, steps: seq<Step>, r: Fd, w: Fd, i: nat, j: nat, k: nat)
    requires IsRun(ss, steps, r, w) && i <= j < |ss|
    requires k < |ss[i].rlog| && ss[i].rlog[k].got == [] && ss[i].rlog[k].n > 0
    ensures !ss[i].writeOpen && !ss[j].writeOpen && ss[j].wlog == ss[i].wlog
    ensures ReadBytes(ss[j].rlog) + Receiving(ss[j]) == WrittenBytes(ss[j].wlog)
  {
    RunKeepsInv(ss, steps, r, w, i);
    RunKeepsInv(ss, steps, r, w, j);
    assert ReadBackOk(ss[i], k);
    LogsGrow(ss, steps, r, w, i, j);
    assert ReadBackOk(ss[j], k);
    NothingSending(ss[j]);
    var out, log := ReadBytes(ss[j].rlog) + Receiving(ss[j]), WrittenBytes(ss[j].wlog);
    assert out + Contents(ss[j].ring) == out && log + [] == log;
  }

  lemma NothingSending(s: State)
    requires Inv(s) && !s.writeOpen
    ensures Sending(s) == []
  {
    assert s.writeLock.Some? ==> PcOk(s, s.writeLock.value);
  }

  /** At most one process is inside the ring, one in each end's calls. */
  lemma MutualExclusion(ss: seq<State>, steps: seq<Step>, r: Fd, w: Fd, i: nat, p: nat, q: nat)
    requires IsRun(ss, steps, r, w) && i < |ss| && p != q
    ensures !(HoldsPipe(PcOf(ss[i], p)) && HoldsPipe(PcOf(ss[i], q)))
    ensures !(HoldsWrite(PcOf(ss[i], p)) && HoldsWrite(PcOf(ss[i], q)))
    ensures !(HoldsRead(PcOf(ss[i], p)) && HoldsRead(PcOf(ss[i], q)))
  {
    RunKeepsInv(ss, steps, r, w, i);
    assert PcOk(ss[i], p) && PcOk(ss[i], q);
  }
}
