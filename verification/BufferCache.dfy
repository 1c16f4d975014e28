/** The buffer cache over a disk: bread, bwrite, brelse and the disk's interrupts by any number of
    clients, one step per stretch between lock operations. */
module BufferCache {
  import opened Prelude
  import opened BufferRing

  datatype Blk = Blk(dev: nat, blockno: nat)

  /** The block that buffers never used name. */
  const ZERO: Blk := Blk(0, 0)

  type Data = seq<byte>

  /** One use of a buffer, from bread to brelse. `changed`: the data was changed and the buffer neither
      written nor marked dirty since. */
  datatype Client =
    | Idle
    | Wants(b: nat, blk: Blk)                     // bget chose b; wants its sleeplock
    | Has(b: nat, blk: Blk)                       // has the lock; bread tests B_VALID
    | InIde(b: nat, blk: Blk)                     // in iderw
    | Holding(b: nat, blk: Blk, changed: bool)    // bread or bwrite returned
    | Unrefs(b: nat, blk: Blk)                    // brelse gave the lock back; wants bcache.lock

  /** `latest` is what a block was last changed to by a client. */
  datatype State = State(
    bufs: seq<Buf>, data: seq<Data>, locks: seq<Option<nat>>, order: seq<nat>,
    disk: map<Blk, Data>, queue: seq<nat>, clients: map<nat, Client>, latest: map<Blk, Data>)

  datatype Step =
    | Bread(p: nat, blk: Blk, k: nat)  // bget, finding its buffer at place k of the list
    | Lock(p: nat)
    | Check(p: nat)
    | Interrupt                        // the disk finished the first request
    | Finish(p: nat)                   // iderw sees its request done
    | Modify(p: nat, d: Data)
    | Mark(p: nat)                     // the client sets B_DIRTY, as bmark does
    | Bwrite(p: nat)
    | Brelse(p: nat)
    | Unref(p: nat, k: nat)

  function ClientOf(s: State, p: nat): Client {
    if p in s.clients then s.clients[p] else Idle
  }

  function Read(m: map<Blk, Data>, b: Blk): Data {
    if b in m then m[b] else []
  }

  predicate Locked(c: Client) {
    c.Has? || c.InIde? || c.Holding?
  }

  function BlkOf(b: Buf): Blk {
    Blk(b.dev, b.blockno)
  }

  predicate Shaped(s: State) {
    |s.bufs| == |s.data| == |s.locks| == NBUF
  }

  function Become(s: State, p: nat, c: Client): State {
    s.(clients := s.clients[p := c])
  }

  function SetBuf(s: State, b: nat, buf: Buf): State
    requires b < |s.bufs|
  {
    s.(bufs := s.bufs[b := buf])
  }

  /** There are two disks. A client gives a buffer back only when its changes are written or marked. */
  ghost predicate Enabled(s: State, step: Step) {
    && Shaped(s)
    && match step
       case Bread(p, blk, k) =>
         && ClientOf(s, p).Idle? && blk.dev < 2 && k < |s.order| && s.order[k] < NBUF
         && (Hit(s.bufs, s.order, blk.dev, blk.blockno, k) || Victim(s.bufs, s.order, blk.dev, blk.blockno, k))
       case Lock(p) => var c := ClientOf(s, p); c.Wants? && c.b < NBUF && s.locks[c.b] == None
       case Check(p) => var c := ClientOf(s, p); c.Has? && c.b < NBUF
       case Interrupt => s.queue != [] && s.queue[0] < NBUF
       case Finish(p) => var c := ClientOf(s, p); c.InIde? && c.b < NBUF && s.bufs[c.b].valid && !s.bufs[c.b].dirty
       case Modify(p, _) => var c := ClientOf(s, p); c.Holding? && c.b < NBUF
       case Mark(p) => var c := ClientOf(s, p); c.Holding? && c.b < NBUF
       case Bwrite(p) => var c := ClientOf(s, p); c.Holding? && c.b < NBUF
       case Brelse(p) => var c := ClientOf(s, p); c.Holding? && c.b < NBUF && !c.changed
       case Unref(p, k) =>
         var c := ClientOf(s, p); c.Unrefs? && c.b < NBUF && s.bufs[c.b].refcnt > 0 && k < |s.order| && s.order[k] == c.b
  }

  ghost function Next(s: State, step: Step): State
    requires Enabled(s, step)
  {
    match step
    case Bread(p, blk, k) =>
      var b := s.order[k];
      var buf := if Hit(s.bufs, s.order, blk.dev, blk.blockno, k) then s.bufs[b].(refcnt := s.bufs[b].refcnt + 1)
                 else Buf(blk.dev, blk.blockno, false, false, 1);
      SetBuf(Become(s, p, Wants(b, blk)), b, buf)
    case Lock(p) => var c := s.clients[p]; Become(s, p, Has(c.b, c.blk)).(locks := s.locks[c.b := Some(p)])
    case Check(p) =>
      var c := s.clients[p];
      if s.bufs[c.b].valid then Become(s, p, Holding(c.b, c.blk, false))
      else Become(s, p, InIde(c.b, c.blk)).(queue := s.queue + [c.b])
    case Interrupt =>
      var b := s.queue[0];
      var done := SetBuf(s, b, s.bufs[b].(valid := true, dirty := false)).(queue := s.queue[1..]);
      if s.bufs[b].dirty then done.(disk := s.disk[BlkOf(s.bufs[b]) := s.data[b]])
      else done.(data := s.data[b := Read(s.disk, BlkOf(s.bufs[b]))])
    case Finish(p) => var c := s.clients[p]; Become(s, p, Holding(c.b, c.blk, false))
    case Modify(p, d) =>
      var c := s.clients[p];
      Become(s, p, Holding(c.b, c.blk, true)).(data := s.data[c.b := d], latest := s.latest[c.blk := d])
    case Mark(p) =>
      var c := s.clients[p]; SetBuf(Become(s, p, Holding(c.b, c.blk, false)), c.b, s.bufs[c.b].(dirty := true))
    case Bwrite(p) =>
      var c := s.clients[p];
      SetBuf(Become(s, p, InIde(c.b, c.blk)), c.b, s.bufs[c.b].(dirty := true)).(queue := s.queue + [c.b])
    case Brelse(p) => var c := s.clients[p]; Become(s, p, Unrefs(c.b, c.blk)).(locks := s.locks[c.b := None])
    case Unref(p, k) =>
      var c := s.clients[p];
      SetBuf(Become(s, p, Idle), c.b, s.bufs[c.b].(refcnt := s.bufs[c.b].refcnt - 1)).(
        order := if s.bufs[c.b].refcnt == 1 then MovedToFront(s.order, k) else s.order)
  }

  predicate Init(s: State) {
    && Shaped(s) && Listing(s.order)
    && (forall b :: 0 <= b < NBUF ==> s.bufs[b] == Buf(0, 0, false, false, 0) && s.locks[b] == None)
    && s.queue == [] && s.clients == map[] && s.latest == s.disk
  }

  /** The list binit builds. */
  predicate Listing(order: seq<nat>) {
    |order| == NBUF && forall i :: 0 <= i < NBUF ==> order[i] == NBUF - 1 - i
  }

  // ---- the invariant ----

  ghost function Refs(s: State, b: nat): set<nat> {
    set p | p in s.clients && !s.clients[p].Idle? && s.clients[p].b == b
  }

  /** A client's buffer is the block it asked for, and valid once bread returned. */
  predicate ClientOk(s: State, p: nat)
    requires Shaped(s)
  {
    var c := ClientOf(s, p);
    !c.Idle? ==>
      && c.b < NBUF && BlkOf(s.bufs[c.b]) == c.blk && (c.Holding? ==> s.bufs[c.b].valid)
  }

  predicate LockOk(s: State, p: nat, b: nat)
    requires Shaped(s)
  {
    b < NBUF ==> (Locked(ClientOf(s, p)) && ClientOf(s, p).b == b <==> s.locks[b] == Some(p))
  }

  ghost predicate RefsOk(s: State, b: nat)
    requires Shaped(s)
  {
    b < NBUF ==> s.bufs[b].refcnt == |Refs(s, b)| && (s.bufs[b].dirty ==> s.bufs[b].valid)
  }

  predicate Changed(s: State, b: nat)
    requires b < |s.locks|
  {
    s.locks[b].Some? && var c := ClientOf(s, s.locks[b].value); c.Holding? && c.changed
  }

  /** A valid buffer holds its block's latest contents, and so does the disk unless the buffer is dirty
      or being changed. */
  predicate SyncOk(s: State, b: nat)
    requires Shaped(s)
  {
    b < NBUF && BlkOf(s.bufs[b]) != ZERO ==>
      && (s.bufs[b].valid ==> s.data[b] == Read(s.latest, BlkOf(s.bufs[b])))
      && (!s.bufs[b].dirty && !Changed(s, b) ==> Read(s.disk, BlkOf(s.bufs[b])) == Read(s.latest, BlkOf(s.bufs[b])))
      && (Changed(s, b) ==> s.bufs[b].valid)
  }

  predicate Caches(s: State, b: nat, blk: Blk) {
    b < |s.bufs| && BlkOf(s.bufs[b]) == blk
  }

  ghost predicate UncachedOk(s: State, blk: Blk) {
    blk != ZERO && (forall b: nat :: !Caches(s, b, blk)) ==> Read(s.disk, blk) == Read(s.latest, blk)
  }

  predicate Unique(s: State, a: nat, b: nat)
    requires Shaped(s)
  {
    a < NBUF && b < NBUF && a != b && BlkOf(s.bufs[a]) != ZERO ==> BlkOf(s.bufs[a]) != BlkOf(s.bufs[b])
  }

  predicate QueueOk(s: State, k: nat)
    requires Shaped(s)
  {
    k < |s.queue| ==>
      var b := s.queue[k];
      && b < NBUF && s.locks[b].Some? && ClientOf(s, s.locks[b].value).InIde? && (s.bufs[b].dirty || !s.bufs[b].valid)
  }

  predicate QueueApart(s: State, j: nat, k: nat) {
    j < |s.queue| && k < |s.queue| && j != k ==> s.queue[j] != s.queue[k]
  }

  ghost predicate Inv(s: State) {
    && Shaped(s) && Permutation(s.order)
    && (forall p: nat :: ClientOk(s, p)) && (forall p: nat, b: nat :: LockOk(s, p, b))
    && (forall b: nat :: RefsOk(s, b)) && (forall b: nat :: SyncOk(s, b))
    && (forall blk: Blk :: UncachedOk(s, blk)) && (forall a: nat, b: nat :: Unique(s, a, b))
    && (forall k: nat :: QueueOk(s, k)) && (forall j: nat, k: nat :: QueueApart(s, j, k))
  }

  // ---- every step keeps it ----

  /** Everything the invariant says about a client, a buffer, a block and two places in the queue. */
  ghost predicate AllOk(s: State, q: nat, b: nat, a: nat, blk: Blk, j: nat, k: nat)
    requires Shaped(s)
  {
    && ClientOk(s, q) && LockOk(s, q, b) && RefsOk(s, b) && SyncOk(s, b) && UncachedOk(s, blk) && Unique(s, a, b)
    && QueueOk(s, k) && QueueApart(s, j, k)
  }

  lemma FromAllOk(s: State)
    requires Shaped(s) && Permutation(s.order)
    requires forall q: nat, b: nat, a: nat, blk: Blk, j: nat, k: nat :: AllOk(s, q, b, a, blk, j, k)
    ensures Inv(s)
  {
    var blk0 := Blk(0, 0);
    forall p: nat ensures ClientOk(s, p) && RefsOk(s, p) && SyncOk(s, p) && QueueOk(s, p) {
      assert AllOk(s, p, p, 0, blk0, 0, p);
    }
    forall p: nat, b: nat ensures LockOk(s, p, b) && Unique(s, p, b) && QueueApart(s, p, b) {
      assert AllOk(s, p, b, p, blk0, p, b);
    }
    forall blk: Blk ensures UncachedOk(s, blk) {
      assert AllOk(s, 0, 0, 0, blk, 0, 0);
    }
  }

  lemma ToAllOk(s: State, q: nat, b: nat, a: nat, blk: Blk, j: nat, k: nat)
    requires Inv(s)
    ensures AllOk(s, q, b, a, blk, j, k)
  {
  }

  /** A step that renames no buffer leaves the same blocks uncached. */
  lemma SameBlocks(s: State, s': State, blk: Blk)
    requires Inv(s) && Shaped(s') && (forall b :: 0 <= b < NBUF ==> BlkOf(s'.bufs[b]) == BlkOf(s.bufs[b]))
    requires (exists b :: 0 <= b < NBUF && BlkOf(s.bufs[b]) == blk) || (Read(s'.disk, blk) == Read(s.disk, blk) && Read(s'.latest, blk) == Read(s.latest, blk))
    ensures UncachedOk(s', blk)
  {
    assert UncachedOk(s, blk);
    if exists b :: 0 <= b < NBUF && BlkOf(s.bufs[b]) == blk {
      var b: nat :| b < NBUF && BlkOf(s.bufs[b]) == blk;
      assert Caches(s', b, blk);
    } else if forall b: nat :: !Caches(s', b, blk) {
      forall b: nat ensures !Caches(s, b, blk) {
        assert !Caches(s', b, blk);
      }
    }
  }

  lemma NothingMoved(s: State, s': State, blk: Blk)
    requires Inv(s) && Shaped(s') && (forall b :: 0 <= b < NBUF ==> BlkOf(s'.bufs[b]) == BlkOf(s.bufs[b]))
    requires s'.disk == s.disk && s'.latest == s.latest
    ensures UncachedOk(s', blk)
  {
    assert UncachedOk(s, blk);
    if forall b: nat :: !Caches(s', b, blk) {
      forall b: nat ensures !Caches(s, b, blk) {
        assert !Caches(s', b, blk);
      }
    }
  }

  lemma SameRefs(s: State, s': State, p: nat, b: nat)
    requires s'.clients == s.clients[p := ClientOf(s', p)]
    requires (ClientOf(s, p).Idle? <==> ClientOf(s', p).Idle?) && (!ClientOf(s, p).Idle? ==> ClientOf(s, p).b == ClientOf(s', p).b)
    ensures Refs(s', b) == Refs(s, b)
  {
    forall q: nat ensures q in Refs(s', b) <==> q in Refs(s, b) {
    }
  }

  lemma LockAt(s: State, p: nat, s': State, q: nat, b: nat, a: nat, blk: Blk, j: nat, k: nat)
    requires Inv(s) && Enabled(s, Lock(p)) && s' == Next(s, Lock(p))
    ensures AllOk(s', q, b, a, blk, j, k)
  {
    ToAllOk(s, q, b, a, blk, j, k);
    NothingMoved(s, s', blk);
    SameRefs(s, s', p, b);
    assert ClientOk(s, p) && LockOk(s, p, b);
  }

  lemma CheckHitAt(s: State, p: nat, s': State, q: nat, b: nat, a: nat, blk: Blk, j: nat, k: nat)
    requires Inv(s) && Enabled(s, Check(p)) && s' == Next(s, Check(p)) && s.bufs[s.clients[p].b].valid
    ensures AllOk(s', q, b, a, blk, j, k)
  {
    ToAllOk(s, q, b, a, blk, j, k);
    NothingMoved(s, s', blk);
    SameRefs(s, s', p, b);
    assert ClientOk(s, p) && LockOk(s, p, b);
    var c := s.clients[p];
    assert LockOk(s, p, c.b) && RefsOk(s, c.b) && SyncOk(s, c.b) && Unique(s, c.b, b);
    assert k < |s.queue| ==> LockOk(s, p, s.queue[k]);
  }

  lemma CheckMissAt(s: State, p: nat, s': State, q: nat, b: nat, a: nat, blk: Blk, j: nat, k: nat)
    requires Inv(s) && Enabled(s, Check(p)) && s' == Next(s, Check(p)) && !s.bufs[s.clients[p].b].valid
    ensures AllOk(s', q, b, a, blk, j, k)
  {
    ToAllOk(s, q, b, a, blk, j, k);
    NothingMoved(s, s', blk);
    SameRefs(s, s', p, b);
    assert ClientOk(s, p) && LockOk(s, p, b);
    var c := s.clients[p];
    assert LockOk(s, p, c.b) && RefsOk(s, c.b) && SyncOk(s, c.b) && Unique(s, c.b, b);
    assert QueueOk(s, j) && (j < |s.queue| ==> s.queue[j] != c.b) && (k < |s.queue| ==> s.queue[k] != c.b);
  }

  lemma FinishAt(s: State, p: nat, s': State, q: nat, b: nat, a: nat, blk: Blk, j: nat, k: nat)
    requires Inv(s) && Enabled(s, Finish(p)) && s' == Next(s, Finish(p))
    ensures AllOk(s', q, b, a, blk, j, k)
  {
    ToAllOk(s, q, b, a, blk, j, k);
    NothingMoved(s, s', blk);
    SameRefs(s, s', p, b);
    assert ClientOk(s, p) && LockOk(s, p, b);
    var c := s.clients[p];
    assert LockOk(s, p, c.b) && RefsOk(s, c.b) && SyncOk(s, c.b) && Unique(s, c.b, b);
    assert k < |s.queue| ==> s.queue[k] != c.b && LockOk(s, p, s.queue[k]);
  }

  lemma ModifyAt(s: State, p: nat, d: Data, s': State, q: nat, b: nat, a: nat, blk: Blk, j: nat, k: nat)
    requires Inv(s) && Enabled(s, Modify(p, d)) && s' == Next(s, Modify(p, d))
    ensures AllOk(s', q, b, a, blk, j, k)
  {
    assert ClientOk(s, p) && LockOk(s, p, b);
    var c := s.clients[p];
    assert LockOk(s, p, c.b) && RefsOk(s, c.b) && SyncOk(s, c.b) && Unique(s, c.b, b);
    ToAllOk(s, q, b, a, blk, j, k);
    SameBlocks(s, s', blk);
    SameRefs(s, s', p, b);
  }

  lemma MarkAt(s: State, p: nat, s': State, q: nat, b: nat, a: nat, blk: Blk, j: nat, k: nat)
    requires Inv(s) && Enabled(s, Mark(p)) && s' == Next(s, Mark(p))
    ensures AllOk(s', q, b, a, blk, j, k)
  {
    ToAllOk(s, q, b, a, blk, j, k);
    NothingMoved(s, s', blk);
    SameRefs(s, s', p, b);
    assert ClientOk(s, p) && LockOk(s, p, b);
    var c := s.clients[p];
    assert LockOk(s, p, c.b) && RefsOk(s, c.b) && SyncOk(s, c.b) && Unique(s, c.b, b);
  }

  lemma BwriteAt(s: State, p: nat, s': State, q: nat, b: nat, a: nat, blk: Blk, j: nat, k: nat)
    requires Inv(s) && Enabled(s, Bwrite(p)) && s' == Next(s, Bwrite(p))
    ensures AllOk(s', q, b, a, blk, j, k)
  {
    ToAllOk(s, q, b, a, blk, j, k);
    NothingMoved(s, s', blk);
    SameRefs(s, s', p, b);
    assert ClientOk(s, p) && LockOk(s, p, b);
    var c := s.clients[p];
    assert LockOk(s, p, c.b) && RefsOk(s, c.b) && SyncOk(s, c.b) && Unique(s, c.b, b);
    assert QueueOk(s, j) && (j < |s.queue| ==> s.queue[j] != c.b) && (k < |s.queue| ==> s.queue[k] != c.b);
  }

  lemma BrelseAt(s: State, p: nat, s': State, q: nat, b: nat, a: nat, blk: Blk, j: nat, k: nat)
    requires Inv(s) && Enabled(s, Brelse(p)) && s' == Next(s, Brelse(p))
    ensures AllOk(s', q, b, a, blk, j, k)
  {
    ToAllOk(s, q, b, a, blk, j, k);
    NothingMoved(s, s', blk);
    SameRefs(s, s', p, b);
    assert ClientOk(s, p) && LockOk(s, p, b);
    var c := s.clients[p];
    assert LockOk(s, p, c.b) && RefsOk(s, c.b) && SyncOk(s, c.b) && Unique(s, c.b, b);
  }

  /** The disk has the latest contents again. */
  lemma WriteDoneAt(s: State, s': State, q: nat, b: nat, a: nat, blk: Blk, j: nat, k: nat)
    requires Inv(s) && Enabled(s, Interrupt) && s' == Next(s, Interrupt) && s.bufs[s.queue[0]].dirty
    ensures AllOk(s', q, b, a, blk, j, k)
  {
    var h := s.queue[0];
    assert QueueOk(s, 0) && SyncOk(s, h) && RefsOk(s, h) && Unique(s, h, b);
    ToAllOk(s, q, b, a, blk, j + 1, k + 1);
    assert QueueApart(s, 0, k + 1) && LockOk(s, s.locks[h].value, b);
    SameBlocks(s, s', blk);
    assert Refs(s', b) == Refs(s, b);
  }

  /** The buffer gets what the disk has, which is the latest. */
  lemma ReadDoneAt(s: State, s': State, q: nat, b: nat, a: nat, blk: Blk, j: nat, k: nat)
    requires Inv(s) && Enabled(s, Interrupt) && s' == Next(s, Interrupt) && !s.bufs[s.queue[0]].dirty
    ensures AllOk(s', q, b, a, blk, j, k)
  {
    var h := s.queue[0];
    assert QueueOk(s, 0) && SyncOk(s, h) && RefsOk(s, h) && Unique(s, h, b);
    ToAllOk(s, q, b, a, blk, j + 1, k + 1);
    assert QueueApart(s, 0, k + 1) && LockOk(s, s.locks[h].value, b);
    NothingMoved(s, s', blk);
    assert Refs(s', b) == Refs(s, b);
  }

  // bget and the end of brelse.

  lemma RefsGrow(s: State, s': State, p: nat, b: nat)
    requires ClientOf(s, p).Idle? && s'.clients == s.clients[p := ClientOf(s', p)] && !ClientOf(s', p).Idle?
    ensures Refs(s', b) == if ClientOf(s', p).b == b then Refs(s, b) + {p} else Refs(s, b)
    ensures p !in Refs(s, b)
  {
    forall q: nat ensures q in Refs(s', b) <==> q in Refs(s, b) || (q == p && ClientOf(s', p).b == b) {
    }
  }

  lemma HitClient(s: State, p: nat, h: nat, s': State, q: nat, b: nat)
    requires Inv(s) && ClientOf(s, p).Idle? && h < NBUF
    requires s' == SetBuf(Become(s, p, Wants(h, BlkOf(s.bufs[h]))), h, s.bufs[h].(refcnt := s.bufs[h].refcnt + 1))
    ensures ClientOk(s', q) && LockOk(s', q, b)
  {
    assert ClientOk(s, q) && LockOk(s, q, b);
  }

  lemma HitBuffer(s: State, p: nat, h: nat, s': State, b: nat, a: nat)
    requires Inv(s) && ClientOf(s, p).Idle? && h < NBUF
    requires s' == SetBuf(Become(s, p, Wants(h, BlkOf(s.bufs[h]))), h, s.bufs[h].(refcnt := s.bufs[h].refcnt + 1))
    ensures RefsOk(s', b) && SyncOk(s', b) && Unique(s', a, b)
  {
    RefsGrow(s, s', p, b);
    assert RefsOk(s, b) && SyncOk(s, b) && Unique(s, a, b) && LockOk(s, p, b);
    assert b < NBUF ==> Changed(s', b) == Changed(s, b);
  }

  lemma HitAt(s: State, p: nat, h: nat, s': State, q: nat, b: nat, a: nat, blk: Blk, j: nat, k: nat)
    requires Inv(s) && ClientOf(s, p).Idle? && h < NBUF
    requires s' == SetBuf(Become(s, p, Wants(h, BlkOf(s.bufs[h]))), h, s.bufs[h].(refcnt := s.bufs[h].refcnt + 1))
    ensures AllOk(s', q, b, a, blk, j, k)
  {
    HitClient(s, p, h, s', q, b);
    HitBuffer(s, p, h, s', b, a);
    NothingMoved(s, s', blk);
    assert QueueOk(s, k) && QueueApart(s, j, k) && (k < |s.queue| ==> LockOk(s, p, s.queue[k]));
  }

  /** The buffer recycled is nobody's and clean, so the disk has its block's latest contents. */
  lemma RecycleAt(s: State, p: nat, g: Blk, h: nat, s': State, q: nat, b: nat, a: nat, blk: Blk, j: nat, k: nat)
    requires Inv(s) && ClientOf(s, p).Idle? && h < NBUF && s.bufs[h].refcnt == 0 && !s.bufs[h].dirty
    requires forall b: nat :: !Caches(s, b, g)
    requires s' == SetBuf(Become(s, p, Wants(h, g)), h, Buf(g.dev, g.blockno, false, false, 1))
    ensures AllOk(s', q, b, a, blk, j, k)
  {
    NobodysBuffer(s, h, q);
    ToAllOk(s, q, b, a, blk, j, k);
    RefsGrow(s, s', p, b);
    RefsGrow(s, s', p, h);
    assert RefsOk(s, h) && UncachedOk(s, g) && !Caches(s, a, g) && !Caches(s, b, g);
    assert ClientOk(s, p) && LockOk(s, p, b) && LockOk(s, p, h) && (k < |s.queue| ==> LockOk(s, p, s.queue[k]));
    RecycledUncached(s, g, h, s', blk);
  }

  lemma NotAmong(s: State, h: nat, q: nat)
    requires Inv(s) && h < NBUF && Refs(s, h) == {}
    ensures s.locks[h] != Some(q) && !(!ClientOf(s, q).Idle? && ClientOf(s, q).b == h)
  {
    assert LockOk(s, q, h) && q !in Refs(s, h);
  }

  lemma NobodysBuffer(s: State, h: nat, q: nat)
    requires Inv(s) && h < NBUF && s.bufs[h].refcnt == 0
    ensures s.locks[h] == None && Refs(s, h) == {} && !(!ClientOf(s, q).Idle? && ClientOf(s, q).b == h)
  {
    assert RefsOk(s, h) && Refs(s, h) == {};
    NotAmong(s, h, q);
    if s.locks[h].Some? {
      NotAmong(s, h, s.locks[h].value);
    }
  }

  lemma RecycledUncached(s: State, g: Blk, h: nat, s': State, blk: Blk)
    requires Inv(s) && h < NBUF && s.locks[h] == None && !s.bufs[h].dirty && s'.disk == s.disk && s'.latest == s.latest
    requires Shaped(s') && s'.bufs == s.bufs[h := s'.bufs[h]]
    ensures UncachedOk(s', blk)
  {
    assert UncachedOk(s, blk) && SyncOk(s, h);
    if BlkOf(s.bufs[h]) != blk && forall b: nat :: !Caches(s', b, blk) {
      forall b: nat ensures !Caches(s, b, blk) {
        assert !Caches(s', b, blk);
      }
    }
  }

  lemma UnrefBuffer(s: State, p: nat, m: nat, s': State, b: nat, a: nat)
    requires Inv(s) && Enabled(s, Unref(p, m)) && s' == Next(s, Unref(p, m))
    ensures RefsOk(s', b) && SyncOk(s', b) && Unique(s', a, b)
  {
    RefsGrow(s', s, p, b);
    assert RefsOk(s, b) && SyncOk(s, b) && Unique(s, a, b) && LockOk(s, p, b);
    assert b < NBUF ==> Changed(s', b) == Changed(s, b);
  }

  lemma UnrefAt(s: State, p: nat, m: nat, s': State, q: nat, b: nat, a: nat, blk: Blk, j: nat, k: nat)
    requires Inv(s) && Enabled(s, Unref(p, m)) && s' == Next(s, Unref(p, m))
    ensures AllOk(s', q, b, a, blk, j, k)
  {
    UnrefBuffer(s, p, m, s', b, a);
    NothingMoved(s, s', blk);
    assert ClientOk(s, q) && LockOk(s, q, b) && LockOk(s, p, b);
    assert QueueOk(s, k) && QueueApart(s, j, k) && (k < |s.queue| ==> LockOk(s, p, s.queue[k]));
  }

  /** Every buffer is on the list, so a block not found there is not cached. */
  lemma NotFoundNotCached(s: State, blk: Blk)
    requires Inv(s) && forall k: nat :: !IsBlock(s.bufs, s.order, blk.dev, blk.blockno, k)
    ensures forall b: nat :: !Caches(s, b, blk)
  {
    forall b: nat ensures !Caches(s, b, blk) {
      assert Listed(s.order, b);
      if b < NBUF {
        var k: nat :| k < |s.order| && s.order[k] == b;
        assert !IsBlock(s.bufs, s.order, blk.dev, blk.blockno, k);
      }
    }
  }

  lemma BreadAt(s: State, p: nat, g: Blk, m: nat, s': State, q: nat, b: nat, a: nat, blk: Blk, j: nat, k: nat)
    requires Inv(s) && Enabled(s, Bread(p, g, m)) && s' == Next(s, Bread(p, g, m))
    ensures AllOk(s', q, b, a, blk, j, k)
  {
    var h := s.order[m];
    if Hit(s.bufs, s.order, g.dev, g.blockno, m) {
      HitAt(s, p, h, s', q, b, a, blk, j, k);
    } else {
      NotFoundNotCached(s, g);
      RecycleAt(s, p, g, h, s', q, b, a, blk, j, k);
    }
  }

  lemma StepAtPoint(s: State, step: Step, s': State, q: nat, b: nat, a: nat, blk: Blk, j: nat, k: nat)
    requires Inv(s) && Enabled(s, step) && s' == Next(s, step)
    ensures AllOk(s', q, b, a, blk, j, k)
  {
    match step
    case Bread(p, g, m) => BreadAt(s, p, g, m, s', q, b, a, blk, j, k);
    case Lock(p) => LockAt(s, p, s', q, b, a, blk, j, k);
    case Check(p) =>
      if s.bufs[s.clients[p].b].valid {
        CheckHitAt(s, p, s', q, b, a, blk, j, k);
      } else {
        CheckMissAt(s, p, s', q, b, a, blk, j, k);
      }
    case Interrupt =>
      if s.bufs[s.queue[0]].dirty {
        WriteDoneAt(s, s', q, b, a, blk, j, k);
      } else {
        ReadDoneAt(s, s', q, b, a, blk, j, k);
      }
    case Finish(p) => FinishAt(s, p, s', q, b, a, blk, j, k);
    case Modify(p, d) => ModifyAt(s, p, d, s', q, b, a, blk, j, k);
    case Mark(p) => MarkAt(s, p, s', q, b, a, blk, j, k);
    case Bwrite(p) => BwriteAt(s, p, s', q, b, a, blk, j, k);
    case Brelse(p) => BrelseAt(s, p, s', q, b, a, blk, j, k);
    case Unref(p, m) => UnrefAt(s, p, m, s', q, b, a, blk, j, k);
  }

  /** Every step keeps the invariant. */
  lemma StepKeepsInv(s: State, step: Step)
    requires Inv(s) && Enabled(s, step)
    ensures Inv(Next(s, step))
  {
    var s' := Next(s, step);
    OrderKept(s, step);
    forall q: nat, b: nat, a: nat, blk: Blk, j: nat, k: nat ensures AllOk(s', q, b, a, blk, j, k) {
      StepAtPoint(s, step, s', q, b, a, blk, j, k);
    }
    FromAllOk(s');
  }

  lemma OrderKept(s: State, step: Step)
    requires Inv(s) && Enabled(s, step)
    ensures Shaped(Next(s, step)) && Permutation(Next(s, step).order)
  {
    if step.Unref? {
      MoveKeepsPermutation(s.order, step.k);
    }
  }

  // ---- whole runs ----

  ghost predicate StepAt(ss: seq<State>, steps: seq<Step>, i: nat) {
    i < |steps| && i + 1 < |ss| ==> Enabled(ss[i], steps[i]) && ss[i + 1] == Next(ss[i], steps[i])
  }

  ghost predicate IsRun(ss: seq<State>, steps: seq<Step>) {
    |ss| == |steps| + 1 && Init(ss[0]) && forall i: nat :: StepAt(ss, steps, i)
  }

  lemma InitInv(s: State)
    requires Init(s)
    ensures Inv(s)
  {
    forall b: nat ensures Listed(s.order, b) {
      assert b < NBUF ==> s.order[NBUF - 1 - b] == b;
    }
    forall q: nat, b: nat, a: nat, blk: Blk, j: nat, k: nat ensures AllOk(s, q, b, a, blk, j, k) {
      assert Refs(s, b) == {};
    }
    FromAllOk(s);
  }

  lemma {:induction false} RunKeepsInv(ss: seq<State>, steps: seq<Step>, i: nat)
    requires IsRun(ss, steps) && i < |ss|
    ensures Inv(ss[i])
  {
    if i == 0 {
      InitInv(ss[0]);
    } else {
      RunKeepsInv(ss, steps, i - 1);
      assert StepAt(ss, steps, i - 1);
      StepKeepsInv(ss[i - 1], steps[i - 1]);
    }
  }

  /** The cache is transparent: whatever was recycled before, a client that bread returned to holds the
      block it asked for, with the contents the block was last changed to, and nobody else holds it. */
  lemma BreadReturnsLatest(ss: seq<State>, steps: seq<Step>, i: nat, p: nat, q: nat)
    requires IsRun(ss, steps) && i < |ss| && ClientOf(ss[i], p).Holding? && ClientOf(ss[i], p).blk != ZERO
    ensures var s, c := ss[i], ClientOf(ss[i], p);
            && Shaped(s) && c.b < NBUF && BlkOf(s.bufs[c.b]) == c.blk && s.bufs[c.b].valid
            && s.data[c.b] == Read(s.latest, c.blk)
            && (ClientOf(s, q).Holding? && ClientOf(s, q).blk == c.blk ==> q == p)
  {
    RunKeepsInv(ss, steps, i);
    var s, c := ss[i], ClientOf(ss[i], p);
    assert ClientOk(s, p) && SyncOk(s, c.b) && LockOk(s, p, c.b);
    if ClientOf(s, q).Holding? && ClientOf(s, q).blk == c.blk {
      assert ClientOk(s, q) && Unique(s, c.b, ClientOf(s, q).b) && LockOk(s, q, c.b);
    }
  }

  /** Once every buffer is clean and nobody is changing one, the disk itself is up to date. */
  lemma DiskIsLatest(ss: seq<State>, steps: seq<Step>, i: nat, blk: Blk)
    requires IsRun(ss, steps) && i < |ss| && blk != ZERO
    requires forall b: nat :: Caches(ss[i], b, blk) && b < |ss[i].locks| ==> !ss[i].bufs[b].dirty && !Changed(ss[i], b)
    ensures Read(ss[i].disk, blk) == Read(ss[i].latest, blk)
  {
    RunKeepsInv(ss, steps, i);
    if b: nat :| Caches(ss[i], b, blk) {
      assert SyncOk(ss[i], b);
    } else {
      assert UncachedOk(ss[i], blk);
    }
  }

  /** No two buffers hold the same block, but for the one the untouched buffers name. */
  lemma BlocksAreUnique(ss: seq<State>, steps: seq<Step>, i: nat, a: nat, b: nat)
    requires IsRun(ss, steps) && i < |ss| && a < NBUF && b < NBUF && a != b
    ensures Shaped(ss[i]) && (BlkOf(ss[i].bufs[a]) != ZERO ==> BlkOf(ss[i].bufs[a]) != BlkOf(ss[i].bufs[b]))
  {
    RunKeepsInv(ss, steps, i);
    assert Unique(ss[i], a, b);
  }

  /** A referenced buffer never changes identity, and the list is always every buffer once. */
  lemma IdentityIsStable(ss: seq<State>, steps: seq<Step>, i: nat, b: nat)
    requires IsRun(ss, steps) && i < |steps| && b < NBUF
    ensures Shaped(ss[i]) && Shaped(ss[i + 1]) && Permutation(ss[i].order)
    ensures ss[i].bufs[b].refcnt > 0 ==> BlkOf(ss[i + 1].bufs[b]) == BlkOf(ss[i].bufs[b])
  {
    RunKeepsInv(ss, steps, i);
    RunKeepsInv(ss, steps, i + 1);
    assert StepAt(ss, steps, i);
  }

  /** brelse always finds the reference it drops and the buffer's place in the list. */
  lemma UnrefIsEnabled(s: State, p: nat)
    requires Inv(s) && ClientOf(s, p).Unrefs?
    ensures exists k: nat :: Enabled(s, Unref(p, k))
  {
    var b := ClientOf(s, p).b;
    assert ClientOk(s, p) && RefsOk(s, b) && Listed(s.order, b);
    assert p in Refs(s, b);
    var k: nat :| k < |s.order| && s.order[k] == b;
    assert Enabled(s, Unref(p, k));
  }
}
