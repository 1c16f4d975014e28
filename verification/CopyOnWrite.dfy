/** Copy-on-write sharing of user pages, one page at a time, against a reference in which every
    process owns private pages.

    A machine state names, for every used `vpage_info` of every live address space, the frame behind
    it. `CowNext` is what the kernel does to that state; `EagerNext` is the machine whose fork is the
    deep copy of vspacecopy; `Apply` is the reference with no frames at all. */
module CopyOnWrite {
  import opened Prelude
  import opened Kalloc

  const PGSIZE: nat := 4096

  type Page = seq<byte>

  function ZeroPage(): Page {
    seq(PGSIZE, _ => 0)
  }

  /** A slot for one `vpage_info`: the idx'th page of a region of a process's address space. */
  datatype Key = Key(pid: nat, region: nat, idx: nat)

  datatype Vpi = Vpi(used: bool, ppn: Frame, present: bool, writable: bool, cow: bool)

  datatype State = State(vpis: map<Key, Vpi>, data: map<Frame, Page>, core: seq<CoreEntry>)

  /** What a process can observe of a page: its bytes, and whether it may write them. */
  datatype UserPage = UserPage(bytes: Page, writable: bool)

  type Memory = map<Key, UserPage>

  datatype Event =
    | Map(k: Key, writable: bool)        // a page is added, zeroed
    | Unmap(k: Key)                      // a reference to a page is dropped
    | Copy(src: Key, dst: Key)           // fork carries a page over to the child
    | Store(k: Key, off: nat, b: byte)   // a user instruction writes one byte
    | Fill(k: Key, bytes: Page)          // the kernel loads a page of a program
    | Fault(k: Key)                      // the write fault on a shared page

  // ---- the reference ----

  function Apply(m: Memory, e: Event): Memory {
    match e
    case Map(k, w) => m[k := UserPage(ZeroPage(), w)]
    case Unmap(k) => m - {k}
    case Copy(src, dst) => if src in m then m[dst := m[src]] else m
    case Store(k, off, b) =>
      if k in m && m[k].writable && off < |m[k].bytes| then m[k := UserPage(m[k].bytes[off := b], true)] else m
    case Fill(k, bytes) => if k in m then m[k := UserPage(bytes, m[k].writable)] else m
    case Fault(_) => m
  }

  function ApplyAll(m: Memory, es: seq<Event>): Memory {
    if es == [] then m else Apply(ApplyAll(m, es[..|es| - 1]), es[|es| - 1])
  }

  // ---- the kernel ----

  /** The `vpage_info`s that name frame f. */
  function Refs(vpis: map<Key, Vpi>, f: Frame): set<Key> {
    set k | k in vpis && vpis[k].ppn == f
  }

  /** Reference counts are exact, a writable page is the only reference to its frame, a page marked
      copy-on-write is not writable, and an available frame has no references. */
  ghost predicate Inv(s: State) {
    (forall k: Key :: KeyOk(s, k)) && (forall f: Frame :: FrameOk(s, f))
  }

  ghost predicate KeyOk(s: State, k: Key) {
    k in s.vpis ==>
      && s.vpis[k].used && s.vpis[k].present && (s.vpis[k].cow ==> !s.vpis[k].writable)
      && s.vpis[k].ppn in s.data
      && (s.vpis[k].writable ==> Refs(s.vpis, s.vpis[k].ppn) == {k})
  }

  ghost predicate FrameOk(s: State, f: Frame) {
    && (f in s.data ==> f < |s.core| && !s.core[f].available && 0 < s.core[f].refcount == |Refs(s.vpis, f)|)
    && (f < |s.core| && s.core[f].available ==> s.core[f].refcount == 0)
  }

  /** Every used page as its process sees it. A page the kernel made read-only for sharing is still a
      page its process may write. */
  ghost function View(s: State): Memory {
    map k | k in s.vpis && s.vpis[k].ppn in s.data ::
      UserPage(s.data[s.vpis[k].ppn], s.vpis[k].writable || s.vpis[k].cow)
  }

  function Allocated(e: CoreEntry): CoreEntry {
    e.(available := false, refcount := 1)
  }

  function Referenced(e: CoreEntry): CoreEntry {
    e.(refcount := e.refcount + 1)
  }

  /** kfree of a data frame: its bytes are gone once the last reference is. */
  function DropRef(s: State, f: Frame): State
    requires f < |s.core|
  {
    State(s.vpis,
          if s.core[f].refcount <= 1 then s.data - {f} else s.data,
          s.core[f := Released(s.core[f])])
  }

  /** Both sides of a page shared by fork: read-only, and marked if it had been writable. */
  function Shared(v: Vpi): Vpi {
    v.(writable := false, cow := v.writable || v.cow)
  }

  predicate CowEnabled(s: State, e: Event, f: Frame) {
    match e
    case Map(k, _) => k !in s.vpis && f < |s.core| && s.core[f].available
    case Unmap(k) => k in s.vpis && s.vpis[k].ppn < |s.core|
    case Copy(src, dst) => src in s.vpis && dst !in s.vpis && s.vpis[src].ppn < |s.core|
    case Store(k, off, _) => k in s.vpis && s.vpis[k].writable && s.vpis[k].ppn in s.data && off < |s.data[s.vpis[k].ppn]|
    case Fill(k, bytes) =>
      && k in s.vpis && s.vpis[k].ppn in s.data && Refs(s.vpis, s.vpis[k].ppn) == {k}
      && |bytes| == |s.data[s.vpis[k].ppn]|
    case Fault(k) =>
      && k in s.vpis && s.vpis[k].cow && f < |s.core| && s.core[f].available
      && s.vpis[k].ppn in s.data && s.vpis[k].ppn < |s.core|
  }

  /** vregionaddmap's loop body. */
  function MapPage(s: State, k: Key, w: bool, f: Frame): State
    requires f < |s.core|
  {
    State(s.vpis[k := Vpi(true, f, true, w, false)], s.data[f := ZeroPage()], s.core[f := Allocated(s.core[f])])
  }

  /** shallow_copy_vpi_page's loop body. */
  function SharePage(s: State, src: Key, dst: Key): State
    requires src in s.vpis && s.vpis[src].ppn < |s.core|
  {
    State(s.vpis[src := Shared(s.vpis[src])][dst := Shared(s.vpis[src])],
          s.data,
          s.core[s.vpis[src].ppn := Referenced(s.core[s.vpis[src].ppn])])
  }

  function StoreByte(s: State, k: Key, off: nat, b: byte): State
    requires k in s.vpis && s.vpis[k].ppn in s.data && off < |s.data[s.vpis[k].ppn]|
  {
    State(s.vpis, s.data[s.vpis[k].ppn := s.data[s.vpis[k].ppn][off := b]], s.core)
  }

  /** vrloaddata's loop body. */
  function FillBytes(s: State, k: Key, bytes: Page): State
    requires k in s.vpis
  {
    State(s.vpis, s.data[s.vpis[k].ppn := bytes], s.core)
  }

  /** cowcopy: a fresh copy for k, and one reference less to the frame it shared. */
  function BreakSharing(s: State, k: Key, f: Frame): State
    requires k in s.vpis && s.vpis[k].ppn in s.data && s.vpis[k].ppn < |s.core| && f < |s.core|
  {
    DropRef(State(s.vpis[k := Vpi(s.vpis[k].used, f, s.vpis[k].present, true, false)],
                  s.data[f := s.data[s.vpis[k].ppn]],
                  s.core[f := Allocated(s.core[f])]),
            s.vpis[k].ppn)
  }

  /** One step of the kernel; `f` is the frame kalloc hands out when the step allocates one. */
  function CowNext(s: State, e: Event, f: Frame): State
    requires CowEnabled(s, e, f)
  {
    match e
    case Map(k, w) => MapPage(s, k, w, f)
    case Unmap(k) => DropRef(State(s.vpis - {k}, s.data, s.core), s.vpis[k].ppn)
    case Copy(src, dst) => SharePage(s, src, dst)
    case Store(k, off, b) => StoreByte(s, k, off, b)
    case Fill(k, bytes) => FillBytes(s, k, bytes)
    case Fault(k) => BreakSharing(s, k, f)
  }

  lemma RefsAfterUpdate(vpis: map<Key, Vpi>, k: Key, v: Vpi, f: Frame)
    ensures Refs(vpis[k := v], f) == if v.ppn == f then Refs(vpis, f) + {k} else Refs(vpis, f) - {k}
  {
  }

  lemma RefsAfterRemoval(vpis: map<Key, Vpi>, k: Key, f: Frame)
    ensures Refs(vpis - {k}, f) == Refs(vpis, f) - {k}
  {
  }

  /** A frame without bytes has no references. */
  lemma NoRefs(s: State, f: Frame)
    requires Inv(s) && f !in s.data
    ensures Refs(s.vpis, f) == {}
  {
    forall k | k in s.vpis ensures s.vpis[k].ppn != f {
      assert KeyOk(s, k);
    }
  }

  /** A new page on a frame without bytes is that frame's only reference, and no other frame's. */
  lemma FreshRefs(s: State, k: Key, v: Vpi, g: Frame)
    requires Inv(s) && k !in s.vpis && v.ppn !in s.data
    ensures Refs(s.vpis[k := v], g) == if g == v.ppn then {k} else Refs(s.vpis, g)
  {
    NoRefs(s, v.ppn);
    RefsAfterUpdate(s.vpis, k, v, g);
  }

  lemma MapKeepsInv(s: State, k: Key, w: bool, f: Frame)
    requires Inv(s) && CowEnabled(s, Map(k, w), f)
    ensures Inv(MapPage(s, k, w, f)) && f !in s.data
  {
    assert FrameOk(s, f);
    var s' := MapPage(s, k, w, f);
    forall g: Frame ensures FrameOk(s', g) {
      assert FrameOk(s, g);
      FreshRefs(s, k, s'.vpis[k], g);
    }
    forall k': Key ensures KeyOk(s', k') {
      assert KeyOk(s, k');
      if k' in s'.vpis {
        FreshRefs(s, k, s'.vpis[k], s'.vpis[k'].ppn);
      }
    }
  }

  /** kfree after k stopped naming f: the count stays exact, and the frame goes away only with its
      last reference. */
  lemma DropKeepsInv(s: State, vpis: map<Key, Vpi>, k: Key, f: Frame)
    requires f in s.data && k in Refs(vpis, f)
    requires forall g: Frame :: g != f ==> FrameOk(s, g)
    requires FrameOk(State(vpis, s.data, s.core), f) && Refs(s.vpis, f) == Refs(vpis, f) - {k}
    requires forall k': Key :: KeyOk(s, k')
    ensures Inv(DropRef(s, f))
  {
    var s' := DropRef(s, f);
    assert |Refs(s.vpis, f)| == |Refs(vpis, f)| - 1;
    forall g: Frame ensures FrameOk(s', g) {
      assert g != f ==> FrameOk(s, g);
    }
    forall k': Key ensures KeyOk(s', k') {
      assert KeyOk(s, k');
      assert k' in s.vpis && s.vpis[k'].ppn == f ==> k' in Refs(s.vpis, f);
    }
  }

  lemma UnmapKeepsInv(s: State, k: Key)
    requires Inv(s) && CowEnabled(s, Unmap(k), 0)
    ensures Inv(DropRef(State(s.vpis - {k}, s.data, s.core), s.vpis[k].ppn))
  {
    var mid := State(s.vpis - {k}, s.data, s.core);
    var f := s.vpis[k].ppn;
    assert KeyOk(s, k);
    forall g: Frame | g != f ensures FrameOk(mid, g) {
      assert FrameOk(s, g);
      RefsAfterRemoval(s.vpis, k, g);
      assert Refs(mid.vpis, g) == Refs(s.vpis, g);
    }
    forall k': Key ensures KeyOk(mid, k') {
      assert KeyOk(s, k');
      if k' in mid.vpis {
        RefsAfterRemoval(s.vpis, k, s.vpis[k'].ppn);
      }
    }
    RefsAfterRemoval(s.vpis, k, f);
    assert FrameOk(s, f);
    DropKeepsInv(mid, s.vpis, k, f);
  }

  /** Fork adds the child's page to the references of the parent's frame. */
  lemma SharedRefs(s: State, src: Key, dst: Key, g: Frame)
    requires src in s.vpis && dst !in s.vpis && s.vpis[src].ppn < |s.core|
    ensures Refs(SharePage(s, src, dst).vpis, g) ==
            if g == s.vpis[src].ppn then Refs(s.vpis, g) + {dst} else Refs(s.vpis, g)
  {
    var v := Shared(s.vpis[src]);
    RefsAfterUpdate(s.vpis, src, v, g);
    RefsAfterUpdate(s.vpis[src := v], dst, v, g);
  }

  lemma CopyKeepsFrame(s: State, src: Key, dst: Key, g: Frame)
    requires Inv(s) && CowEnabled(s, Copy(src, dst), 0)
    ensures FrameOk(SharePage(s, src, dst), g)
  {
    assert KeyOk(s, src) && FrameOk(s, g);
    SharedRefs(s, src, dst, g);
  }

  lemma CopyKeepsKey(s: State, src: Key, dst: Key, k: Key)
    requires Inv(s) && CowEnabled(s, Copy(src, dst), 0)
    ensures KeyOk(SharePage(s, src, dst), k)
  {
    var s' := SharePage(s, src, dst);
    assert KeyOk(s, src) && KeyOk(s, k);
    if k in s'.vpis && s'.vpis[k].writable {
      SharedRefs(s, src, dst, s'.vpis[k].ppn);
      assert src in Refs(s.vpis, s.vpis[src].ppn);
    }
  }

  lemma CopyKeepsInv(s: State, src: Key, dst: Key)
    requires Inv(s) && CowEnabled(s, Copy(src, dst), 0)
    ensures Inv(SharePage(s, src, dst))
  {
    var s' := SharePage(s, src, dst);
    forall g: Frame ensures FrameOk(s', g) {
      CopyKeepsFrame(s, src, dst, g);
    }
    forall k: Key ensures KeyOk(s', k) {
      CopyKeepsKey(s, src, dst, k);
    }
  }

  /** The fault moves k's reference from the shared frame to the fresh one. */
  lemma MovedRefs(s: State, k: Key, v: Vpi, g: Frame)
    requires Inv(s) && k in s.vpis && v.ppn !in s.data
    ensures Refs(s.vpis[k := v], g) ==
            if g == v.ppn then {k} else if g == s.vpis[k].ppn then Refs(s.vpis, g) - {k} else Refs(s.vpis, g)
  {
    NoRefs(s, v.ppn);
    RefsAfterUpdate(s.vpis, k, v, g);
  }

  lemma FaultKeepsInv(s: State, k: Key, f: Frame)
    requires Inv(s) && CowEnabled(s, Fault(k), f)
    ensures Inv(BreakSharing(s, k, f)) && f !in s.data
  {
    assert FrameOk(s, f);
    assert KeyOk(s, k);
    var v := Vpi(s.vpis[k].used, f, s.vpis[k].present, true, false);
    var shared := s.vpis[k].ppn;
    var mid := State(s.vpis[k := v], s.data[f := s.data[shared]], s.core[f := Allocated(s.core[f])]);
    forall g: Frame | g != shared ensures FrameOk(mid, g) {
      assert FrameOk(s, g);
      MovedRefs(s, k, v, g);
    }
    forall k': Key ensures KeyOk(mid, k') {
      assert KeyOk(s, k');
      if k' in mid.vpis {
        MovedRefs(s, k, v, mid.vpis[k'].ppn);
        assert k in Refs(s.vpis, shared);
      }
    }
    MovedRefs(s, k, v, shared);
    assert FrameOk(s, shared);
    DropKeepsInv(mid, s.vpis, k, shared);
  }

  /** Every step keeps the reference counts exact and shared frames read-only. */
  lemma StepKeepsInv(s: State, e: Event, f: Frame)
    requires Inv(s) && CowEnabled(s, e, f)
    ensures Inv(CowNext(s, e, f))
  {
    match e
    case Map(k, w) => MapKeepsInv(s, k, w, f);
    case Unmap(k) => UnmapKeepsInv(s, k);
    case Copy(src, dst) => CopyKeepsInv(s, src, dst);
    case Store(k, off, b) => StoreKeepsInv(s, k, off, b);
    case Fill(k, bytes) => FillKeepsInv(s, k, bytes);
    case Fault(k) => FaultKeepsInv(s, k, f);
  }

  lemma FillKeepsInv(s: State, k: Key, bytes: Page)
    requires Inv(s) && CowEnabled(s, Fill(k, bytes), 0)
    ensures Inv(FillBytes(s, k, bytes))
  {
    var s' := FillBytes(s, k, bytes);
    forall g: Frame ensures FrameOk(s', g) {
      assert FrameOk(s, g);
    }
    forall k': Key ensures KeyOk(s', k') {
      assert KeyOk(s, k');
    }
  }

  lemma FillRefines(s: State, k: Key, bytes: Page)
    requires Inv(s) && CowEnabled(s, Fill(k, bytes), 0)
    ensures View(FillBytes(s, k, bytes)) == Apply(View(s), Fill(k, bytes))
  {
    assert KeyOk(s, k);
    forall k' | k' in s.vpis && s.vpis[k'].ppn == s.vpis[k].ppn ensures k' == k {
      assert k' in Refs(s.vpis, s.vpis[k].ppn);
    }
  }

  lemma StoreKeepsInv(s: State, k: Key, off: nat, b: byte)
    requires Inv(s) && CowEnabled(s, Store(k, off, b), 0)
    ensures Inv(StoreByte(s, k, off, b))
  {
    var s' := StoreByte(s, k, off, b);
    forall g: Frame ensures FrameOk(s', g) {
      assert FrameOk(s, g);
    }
    forall k': Key ensures KeyOk(s', k') {
      assert KeyOk(s, k');
    }
  }

  /** The write cannot be seen through any other page: a writable frame has one reference. */
  lemma StoreRefines(s: State, k: Key, off: nat, b: byte)
    requires Inv(s) && CowEnabled(s, Store(k, off, b), 0)
    ensures View(StoreByte(s, k, off, b)) == Apply(View(s), Store(k, off, b))
  {
    assert KeyOk(s, k);
    forall k' | k' in s.vpis && s.vpis[k'].ppn == s.vpis[k].ppn ensures k' == k {
      assert k' in Refs(s.vpis, s.vpis[k].ppn);
    }
  }

  lemma FaultRefines(s: State, k: Key, f: Frame)
    requires Inv(s) && CowEnabled(s, Fault(k), f)
    ensures View(BreakSharing(s, k, f)) == View(s)
  {
    FaultKeepsInv(s, k, f);
    var s' := BreakSharing(s, k, f);
    forall k' | k' in s.vpis ensures k' in View(s) && k' in View(s') && View(s')[k'] == View(s)[k'] {
      assert KeyOk(s, k') && KeyOk(s', k');
    }
  }

  lemma UnmapRefines(s: State, k: Key)
    requires Inv(s) && CowEnabled(s, Unmap(k), 0)
    ensures View(CowNext(s, Unmap(k), 0)) == Apply(View(s), Unmap(k))
  {
    UnmapKeepsInv(s, k);
    var s' := CowNext(s, Unmap(k), 0);
    forall k' | k' in s'.vpis ensures k' in View(s) && k' in View(s') && View(s')[k'] == View(s)[k'] {
      assert KeyOk(s, k') && KeyOk(s', k');
    }
  }

  /** Every step looks, to every process, like the same step on private pages. */
  lemma StepRefines(s: State, e: Event, f: Frame)
    requires Inv(s) && CowEnabled(s, e, f)
    ensures Inv(CowNext(s, e, f))
    ensures View(CowNext(s, e, f)) == Apply(View(s), e)
  {
    StepKeepsInv(s, e, f);
    match e
    case Map(k, w) => MapRefines(s, k, w, f);
    case Unmap(k) => UnmapRefines(s, k);
    case Copy(src, dst) => CopyRefines(s, src, dst);
    case Store(k, off, b) => StoreRefines(s, k, off, b);
    case Fill(k, bytes) => FillRefines(s, k, bytes);
    case Fault(k) => FaultRefines(s, k, f);
  }

  lemma MapRefines(s: State, k: Key, w: bool, f: Frame)
    requires Inv(s) && CowEnabled(s, Map(k, w), f)
    ensures View(MapPage(s, k, w, f)) == Apply(View(s), Map(k, w))
  {
    MapKeepsInv(s, k, w, f);
    forall k' | k' in s.vpis ensures k' in View(s) {
      assert KeyOk(s, k');
    }
  }

  lemma CopyRefines(s: State, src: Key, dst: Key)
    requires Inv(s) && CowEnabled(s, Copy(src, dst), 0)
    ensures View(SharePage(s, src, dst)) == Apply(View(s), Copy(src, dst))
  {
    assert KeyOk(s, src);
  }

  // ---- whole runs ----

  datatype Choice = Choice(event: Event, frame: Frame)

  function Events(cs: seq<Choice>): seq<Event> {
    if cs == [] then [] else Events(cs[..|cs| - 1]) + [cs[|cs| - 1].event]
  }

  ghost predicate CowStep(ss: seq<State>, cs: seq<Choice>, i: nat)
    requires i < |cs| < |ss|
  {
    CowEnabled(ss[i], cs[i].event, cs[i].frame) && ss[i + 1] == CowNext(ss[i], cs[i].event, cs[i].frame)
  }

  /** A run: the states it goes through, and the event and frame of each step. */
  ghost predicate CowRun(ss: seq<State>, cs: seq<Choice>) {
    |ss| == |cs| + 1 && forall i :: 0 <= i < |cs| ==> CowStep(ss, cs, i)
  }

  /** In every state of any run the counts are exact and every process sees exactly its private
      memory. */
  lemma {:induction false} RunRefines(ss: seq<State>, cs: seq<Choice>)
    requires CowRun(ss, cs) && Inv(ss[0])
    ensures Inv(ss[|cs|]) && View(ss[|cs|]) == ApplyAll(View(ss[0]), Events(cs))
    decreases |cs|
  {
    if cs != [] {
      var n := |cs| - 1;
      var ss', cs' := ss[..n + 1], cs[..n];
      forall i | 0 <= i < n ensures CowStep(ss', cs', i) {
        assert CowStep(ss, cs, i);
      }
      RunRefines(ss', cs');
      assert CowStep(ss, cs, n);
      StepRefines(ss[n], cs[n].event, cs[n].frame);
      assert Events(cs)[..|Events(cs)| - 1] == Events(cs');
    }
  }

  // ---- the eager machine ----

  /** No frame is shared and nothing is marked copy-on-write. */
  ghost predicate EagerInv(s: State) {
    Inv(s) && forall k: Key :: Unshared(s, k)
  }

  ghost predicate Unshared(s: State, k: Key) {
    k in s.vpis ==> !s.vpis[k].cow && Refs(s.vpis, s.vpis[k].ppn) == {k}
  }

  predicate EagerEnabled(s: State, e: Event, f: Frame) {
    match e
    case Copy(src, dst) =>
      && src in s.vpis && dst !in s.vpis && s.vpis[src].ppn in s.data
      && f < |s.core| && s.core[f].available
    case Fault(_) => true
    case _ => CowEnabled(s, e, f)
  }

  /** copy_vpi_page's loop body. */
  function CopyPage(s: State, src: Key, dst: Key, f: Frame): State
    requires src in s.vpis && s.vpis[src].ppn in s.data && f < |s.core|
  {
    State(s.vpis[dst := Vpi(s.vpis[src].used, f, s.vpis[src].present, s.vpis[src].writable, false)],
          s.data[f := s.data[s.vpis[src].ppn]],
          s.core[f := Allocated(s.core[f])])
  }

  /** The kernel with copy_vpi_page in place of shallow_copy_vpi_page. Nothing is ever read-only for
      sharing, so a write fault never has anything to do. */
  function EagerNext(s: State, e: Event, f: Frame): State
    requires EagerEnabled(s, e, f)
  {
    match e
    case Copy(src, dst) =>
      CopyPage(s, src, dst, f)
    case Fault(_) => s
    case _ => CowNext(s, e, f)
  }

  ghost predicate EagerStep(ss: seq<State>, cs: seq<Choice>, i: nat)
    requires i < |cs| < |ss|
  {
    EagerEnabled(ss[i], cs[i].event, cs[i].frame) && ss[i + 1] == EagerNext(ss[i], cs[i].event, cs[i].frame)
  }

  ghost predicate EagerRun(ss: seq<State>, cs: seq<Choice>) {
    |ss| == |cs| + 1 && forall i :: 0 <= i < |cs| ==> EagerStep(ss, cs, i)
  }

  lemma EagerCopyKeepsInv(s: State, src: Key, dst: Key, f: Frame)
    requires EagerInv(s) && EagerEnabled(s, Copy(src, dst), f)
    ensures EagerInv(CopyPage(s, src, dst, f)) && f !in s.data
  {
    var s' := CopyPage(s, src, dst, f);
    assert FrameOk(s, f);
    assert KeyOk(s, src);
    forall g: Frame ensures FrameOk(s', g) {
      assert FrameOk(s, g);
      FreshRefs(s, dst, s'.vpis[dst], g);
    }
    forall k: Key ensures KeyOk(s', k) && Unshared(s', k) {
      assert KeyOk(s, k) && Unshared(s, k);
      if k in s'.vpis {
        FreshRefs(s, dst, s'.vpis[dst], s'.vpis[k].ppn);
      }
    }
  }

  lemma EagerCopyRefines(s: State, src: Key, dst: Key, f: Frame)
    requires EagerInv(s) && EagerEnabled(s, Copy(src, dst), f)
    ensures View(CopyPage(s, src, dst, f)) == Apply(View(s), Copy(src, dst))
  {
    EagerCopyKeepsInv(s, src, dst, f);
    assert KeyOk(s, src) && Unshared(s, src);
    forall k | k in s.vpis ensures k in View(s) {
      assert KeyOk(s, k);
    }
  }

  /** Mapping, unmapping, loading and writing a page shares nothing. */
  lemma EagerKeepsUnshared(s: State, e: Event, f: Frame)
    requires EagerInv(s) && CowEnabled(s, e, f) && (e.Map? || e.Unmap? || e.Store? || e.Fill?)
    ensures EagerInv(CowNext(s, e, f))
  {
    StepKeepsInv(s, e, f);
    var s' := CowNext(s, e, f);
    forall k: Key ensures Unshared(s', k) {
      assert Unshared(s, k) && KeyOk(s, k) && FrameOk(s, f);
      if k in s'.vpis {
        match e
        case Map(k', w) => FreshRefs(s, k', s'.vpis[k'], s'.vpis[k].ppn);
        case Unmap(k') => RefsAfterRemoval(s.vpis, k', s.vpis[k].ppn);
        case _ =>
      }
    }
  }

  lemma EagerStepRefines(s: State, e: Event, f: Frame)
    requires EagerInv(s) && EagerEnabled(s, e, f)
    ensures EagerInv(EagerNext(s, e, f)) && View(EagerNext(s, e, f)) == Apply(View(s), e)
  {
    if e.Copy? {
      EagerCopyKeepsInv(s, e.src, e.dst, f);
      EagerCopyRefines(s, e.src, e.dst, f);
    } else if !e.Fault? {
      EagerKeepsUnshared(s, e, f);
      StepRefines(s, e, f);
    }
  }

  lemma {:induction false} EagerRunRefines(ss: seq<State>, cs: seq<Choice>)
    requires EagerRun(ss, cs) && EagerInv(ss[0])
    ensures EagerInv(ss[|cs|]) && View(ss[|cs|]) == ApplyAll(View(ss[0]), Events(cs))
    decreases |cs|
  {
    if cs != [] {
      var n := |cs| - 1;
      var ss', cs' := ss[..n + 1], cs[..n];
      forall i | 0 <= i < n ensures EagerStep(ss', cs', i) {
        assert EagerStep(ss, cs, i);
      }
      EagerRunRefines(ss', cs');
      assert EagerStep(ss, cs, n);
      EagerStepRefines(ss[n], cs[n].event, cs[n].frame);
      assert Events(cs)[..|Events(cs)| - 1] == Events(cs');
    }
  }

  // ---- what the eager machine can do ----

  /** What an event needs of the memory it meets. */
  predicate Legal(m: Memory, e: Event) {
    match e
    case Map(k, _) => k !in m
    case Unmap(k) => k in m
    case Copy(src, dst) => src in m && dst !in m
    case Store(k, off, _) => k in m && m[k].writable && off < |m[k].bytes|
    case Fill(k, bytes) => k in m && |bytes| == |m[k].bytes|
    case Fault(_) => true
  }

  predicate PossibleAt(m: Memory, es: seq<Event>, total: nat, i: nat) {
    i <= |es| ==> |ApplyAll(m, es[..i])| <= total && (i < |es| ==> Legal(ApplyAll(m, es[..i]), es[i]))
  }

  /** Every event is legal when its turn comes, and there are never more than `total` pages. */
  ghost predicate Possible(m: Memory, es: seq<Event>, total: nat) {
    forall i: nat :: PossibleAt(m, es, total, i)
  }

  lemma ApplyOneMore(m: Memory, es: seq<Event>, e: Event)
    ensures ApplyAll(m, es + [e]) == Apply(ApplyAll(m, es), e)
  {
    var all := es + [e];
    assert all[..|all| - 1] == es;
  }

  lemma OneMoreAt(m: Memory, es: seq<Event>, all: seq<Event>, e: Event, total: nat, i: nat)
    requires all == es + [e] && PossibleAt(m, es, total, i) && |ApplyAll(m, es)| <= total
    requires Legal(ApplyAll(m, es), e) && |ApplyAll(m, all)| <= total
    ensures PossibleAt(m, all, total, i)
  {
    if i < |es| {
      assert all[..i] == es[..i] && all[i] == es[i];
    } else if i == |es| {
      assert all[..i] == es && all[i] == e;
    } else if i == |all| {
      assert all[..i] == all;
    }
  }

  lemma OneMoreEvent(m: Memory, es: seq<Event>, e: Event, total: nat)
    requires Possible(m, es, total) && Legal(ApplyAll(m, es), e) && |Apply(ApplyAll(m, es), e)| <= total
    ensures ApplyAll(m, es + [e]) == Apply(ApplyAll(m, es), e) && Possible(m, es + [e], total)
  {
    ApplyOneMore(m, es, e);
    var all := es + [e];
    assert PossibleAt(m, es, total, |es|) && es[..|es|] == es;
    forall i: nat ensures PossibleAt(m, all, total, i) {
      assert PossibleAt(m, es, total, i);
      OneMoreAt(m, es, all, e, total, i);
    }
  }

  lemma PossiblePrefix(m: Memory, es: seq<Event>, e: Event, total: nat)
    requires Possible(m, es + [e], total)
    ensures Possible(m, es, total) && Legal(ApplyAll(m, es), e) && |Apply(ApplyAll(m, es), e)| <= total
  {
    ApplyOneMore(m, es, e);
    var all := es + [e];
    assert PossibleAt(m, all, total, |es|) && PossibleAt(m, all, total, |all|);
    assert all[..|es|] == es && all[..|all|] == all;
    forall i: nat ensures PossibleAt(m, es, total, i) {
      assert PossibleAt(m, all, total, i);
      assert i <= |es| ==> all[..i] == es[..i];
    }
  }

  lemma NothingPossible(m: Memory, total: nat)
    ensures Possible(m, [], total) <==> |m| <= total
  {
    var none: seq<Event> := [];
    assert none[..0] == none;
    assert PossibleAt(m, none, total, 0) ==> |m| <= total;
    if |m| <= total {
      forall i: nat ensures PossibleAt(m, none, total, i) {
      }
    }
  }

  /** The frames the eager machine has for user pages, in use or available. */
  ghost function Frames(s: State): nat {
    |Available(s.core)| + |s.vpis|
  }

  lemma ViewKeys(s: State)
    requires Inv(s)
    ensures View(s).Keys == s.vpis.Keys && |View(s)| == |s.vpis|
  {
    forall k | k in s.vpis ensures k in View(s) {
      assert KeyOk(s, k);
    }
    assert View(s).Keys == s.vpis.Keys;
    assert |View(s)| == |View(s).Keys| && |s.vpis| == |s.vpis.Keys|;
  }

  lemma AddKey(vpis: map<Key, Vpi>, k: Key, v: Vpi)
    ensures |vpis[k := v]| == if k in vpis then |vpis| else |vpis| + 1
  {
    assert vpis[k := v].Keys == vpis.Keys + {k};
    assert |vpis[k := v]| == |vpis[k := v].Keys| && |vpis| == |vpis.Keys|;
  }

  lemma RemoveKey(vpis: map<Key, Vpi>, k: Key)
    requires k in vpis
    ensures |vpis - {k}| == |vpis| - 1
  {
    assert (vpis - {k}).Keys == vpis.Keys - {k};
    assert |vpis - {k}| == |(vpis - {k}).Keys| && |vpis| == |vpis.Keys|;
  }

  lemma TakesOne(s: State, k: Key, v: Vpi, f: Frame)
    requires k !in s.vpis && f < |s.core| && s.core[f].available
    ensures |Available(s.core[f := Allocated(s.core[f])])| + |s.vpis[k := v]| == Frames(s)
  {
    AvailableAfterUpdate(s.core, f, Allocated(s.core[f]));
    AddKey(s.vpis, k, v);
  }

  lemma GivesOne(s: State, k: Key)
    requires EagerInv(s) && k in s.vpis && s.vpis[k].ppn < |s.core|
    ensures |Available(s.core[s.vpis[k].ppn := Released(s.core[s.vpis[k].ppn])])| + |s.vpis - {k}| == Frames(s)
  {
    var g := s.vpis[k].ppn;
    assert KeyOk(s, k) && Unshared(s, k) && FrameOk(s, g);
    AvailableAfterUpdate(s.core, g, Released(s.core[g]));
    RemoveKey(s.vpis, k);
  }

  /** One frame for one page, always: none is lost and none is shared. */
  lemma EagerConserves(s: State, e: Event, f: Frame)
    requires EagerInv(s) && EagerEnabled(s, e, f)
    ensures Frames(EagerNext(s, e, f)) == Frames(s)
  {
    var s' := EagerNext(s, e, f);
    match e
    case Map(k, w) => TakesOne(s, k, s'.vpis[k], f);
    case Copy(src, dst) => TakesOne(s, dst, s'.vpis[dst], f);
    case Unmap(k) => GivesOne(s, k);
    case _ =>
  }

  /** A machine whose pages leave a frame over has one available. */
  lemma SomeFrame(s: State, m: Memory, k: Key) returns (f: Frame)
    requires EagerInv(s) && k !in View(s) && m.Keys == View(s).Keys + {k} && |m| <= Frames(s)
    ensures f < |s.core| && s.core[f].available
  {
    ViewKeys(s);
    assert |m| == |m.Keys| && |View(s)| == |View(s).Keys|;
    assert Available(s.core) != {};
    f :| f in Available(s.core);
  }

  lemma EagerCanMap(s: State, k: Key, w: bool) returns (f: Frame)
    requires EagerInv(s) && k !in View(s) && |Apply(View(s), Map(k, w))| <= Frames(s)
    ensures EagerEnabled(s, Map(k, w), f)
  {
    ViewKeys(s);
    f := SomeFrame(s, Apply(View(s), Map(k, w)), k);
  }

  lemma EagerCanCopy(s: State, src: Key, dst: Key) returns (f: Frame)
    requires EagerInv(s) && src in View(s) && dst !in View(s) && |Apply(View(s), Copy(src, dst))| <= Frames(s)
    ensures EagerEnabled(s, Copy(src, dst), f)
  {
    ViewKeys(s);
    assert KeyOk(s, src);
    f := SomeFrame(s, Apply(View(s), Copy(src, dst)), dst);
  }

  lemma EagerCanWrite(s: State, e: Event, k: Key)
    requires EagerInv(s) && Legal(View(s), e) && (e.Unmap? || e.Store? || e.Fill?) && k == e.k
    ensures EagerEnabled(s, e, 0)
  {
    assert k in s.vpis && KeyOk(s, k) && Unshared(s, k) && FrameOk(s, s.vpis[k].ppn);
  }

  /** A legal event can be taken if it leaves no more pages than there are frames. */
  lemma EagerCan(s: State, e: Event) returns (f: Frame)
    requires EagerInv(s) && Legal(View(s), e) && |Apply(View(s), e)| <= Frames(s)
    ensures EagerEnabled(s, e, f)
  {
    f := 0;
    match e {
      case Map(k, w) => f := EagerCanMap(s, k, w);
      case Copy(src, dst) => f := EagerCanCopy(s, src, dst);
      case Fault(_) =>
      case _ => EagerCanWrite(s, e, e.k);
    }
  }

  /** An eager run from t of the events es, and where it ends. */
  ghost predicate Follows(t: State, es: seq<Event>, ts: seq<State>, ds: seq<Choice>) {
    && EagerRun(ts, ds) && ts[0] == t && Events(ds) == es
    && EagerInv(ts[|ds|]) && Frames(ts[|ds|]) == Frames(t) && View(ts[|ds|]) == ApplyAll(View(t), es)
  }

  lemma FollowOne(t: State, es: seq<Event>, ts: seq<State>, ds: seq<Choice>, e: Event) returns (last: State, d: Choice)
    requires Follows(t, es, ts, ds) && Possible(View(t), es + [e], Frames(t))
    ensures Follows(t, es + [e], ts + [last], ds + [d])
  {
    PossiblePrefix(View(t), es, e, Frames(t));
    ApplyOneMore(View(t), es, e);
    var now := ts[|ds|];
    var f := EagerCan(now, e);
    last, d := EagerNext(now, e, f), Choice(e, f);
    EagerStepRefines(now, e, f);
    EagerConserves(now, e, f);
    EagerRunOn(ts, ds, d);
  }

  /** The eager machine goes through any legal events, as long as it has a frame for every page. */
  lemma {:induction false} EagerFollows(t: State, es: seq<Event>) returns (ts: seq<State>, ds: seq<Choice>)
    requires EagerInv(t) && Possible(View(t), es, Frames(t))
    ensures Follows(t, es, ts, ds)
    decreases |es|
  {
    if es == [] {
      ts, ds := [t], [];
      FollowNone(t);
    } else {
      var es', e := es[..|es| - 1], es[|es| - 1];
      assert es == es' + [e];
      PossiblePrefix(View(t), es', e, Frames(t));
      ts, ds := EagerFollows(t, es');
      var last, d := FollowOne(t, es', ts, ds, e);
      ts, ds := ts + [last], ds + [d];
    }
  }

  lemma FollowNone(t: State)
    requires EagerInv(t)
    ensures Follows(t, [], [t], [])
  {
  }

  lemma EagerRunOn(ts: seq<State>, ds: seq<Choice>, d: Choice)
    requires EagerRun(ts, ds) && EagerEnabled(ts[|ds|], d.event, d.frame)
    ensures EagerRun(ts + [EagerNext(ts[|ds|], d.event, d.frame)], ds + [d]) && Events(ds + [d]) == Events(ds) + [d.event]
  {
    var ts', ds' := ts + [EagerNext(ts[|ds|], d.event, d.frame)], ds + [d];
    forall i | 0 <= i < |ds'| ensures EagerStep(ts', ds', i) {
      assert i < |ds| ==> EagerStep(ts, ds, i);
    }
    assert ds'[..|ds'| - 1] == ds;
  }

  lemma EagerIsLegal(s: State, e: Event, f: Frame)
    requires EagerInv(s) && EagerEnabled(s, e, f)
    ensures Legal(View(s), e)
  {
    match e
    case Map(k, w) =>
    case Unmap(k) => assert KeyOk(s, k);
    case Copy(src, dst) => assert KeyOk(s, src);
    case Store(k, _, _) => assert KeyOk(s, k);
    case Fill(k, _) => assert KeyOk(s, k);
    case Fault(_) =>
  }

  lemma EagerLast(ts: seq<State>, ds: seq<Choice>) returns (ts': seq<State>, ds': seq<Choice>)
    requires EagerRun(ts, ds) && ds != []
    ensures EagerRun(ts', ds') && |ds'| == |ds| - 1 && ts' <= ts
    ensures Events(ds) == Events(ds') + [ds[|ds'|].event]
    ensures EagerEnabled(ts[|ds'|], ds[|ds'|].event, ds[|ds'|].frame)
    ensures ts[|ds|] == EagerNext(ts[|ds'|], ds[|ds'|].event, ds[|ds'|].frame)
  {
    var n := |ds| - 1;
    ts', ds' := ts[..n + 1], ds[..n];
    forall i | 0 <= i < n ensures EagerStep(ts', ds', i) {
      assert EagerStep(ts, ds, i);
    }
    assert EagerStep(ts, ds, n);
  }

  lemma {:induction false} EventsLength(ds: seq<Choice>)
    ensures |Events(ds)| == |ds|
  {
    if ds != [] {
      EventsLength(ds[..|ds| - 1]);
    }
  }

  /** What it shows on the way, after the first of its events. */
  lemma {:induction false} EagerOnTheWay(ts: seq<State>, ds: seq<Choice>, es: seq<Event>)
    requires EagerRun(ts, ds) && EagerInv(ts[0]) && es <= Events(ds)
    ensures |es| < |ts| && View(ts[|es|]) == ApplyAll(View(ts[0]), es)
    decreases |ds|
  {
    EventsLength(ds);
    if |es| == |ds| {
      EagerRunRefines(ts, ds);
      assert es == Events(ds);
    } else {
      var ts', ds' := EagerLast(ts, ds);
      EventsLength(ds');
      assert es == Events(ds)[..|es|] == Events(ds')[..|es|];
      EagerOnTheWay(ts', ds', es);
    }
  }

  lemma EagerNeedsOne(m: Memory, es: seq<Event>, s: State, e: Event, f: Frame, total: nat)
    requires EagerInv(s) && View(s) == ApplyAll(m, es) && Possible(m, es, total) && Frames(s) == total && EagerEnabled(s, e, f)
    ensures Possible(m, es + [e], total) && Frames(EagerNext(s, e, f)) == total
  {
    EagerIsLegal(s, e, f);
    EagerConserves(s, e, f);
    EagerStepRefines(s, e, f);
    ViewKeys(EagerNext(s, e, f));
    OneMoreEvent(m, es, e, total);
  }

  /** And through no others. */
  lemma {:induction false} EagerNeeds(ts: seq<State>, ds: seq<Choice>)
    requires EagerRun(ts, ds) && EagerInv(ts[0])
    ensures Possible(View(ts[0]), Events(ds), Frames(ts[0])) && Frames(ts[|ds|]) == Frames(ts[0])
    decreases |ds|
  {
    if ds == [] {
      ViewKeys(ts[0]);
      NothingPossible(View(ts[0]), Frames(ts[0]));
    } else {
      var ts', ds' := EagerLast(ts, ds);
      EagerNeeds(ts', ds');
      EagerRunRefines(ts', ds');
      var d := ds[|ds'|];
      EagerNeedsOne(View(ts[0]), Events(ds'), ts[|ds'|], d.event, d.frame, Frames(ts[0]));
    }
  }

  /** The kernel's machine takes legal events only. */
  lemma CowIsLegal(s: State, e: Event, f: Frame)
    requires Inv(s) && CowEnabled(s, e, f)
    ensures Legal(View(s), e)
  {
    match e
    case Map(k, w) =>
    case Unmap(k) => assert KeyOk(s, k);
    case Copy(src, dst) => assert KeyOk(s, src);
    case Store(k, _, _) => assert KeyOk(s, k);
    case Fill(k, _) => assert KeyOk(s, k);
    case Fault(_) =>
  }

  lemma CowLast(ss: seq<State>, cs: seq<Choice>) returns (ss': seq<State>, cs': seq<Choice>)
    requires CowRun(ss, cs) && cs != []
    ensures CowRun(ss', cs') && |cs'| == |cs| - 1 && ss' <= ss
    ensures Events(cs) == Events(cs') + [cs[|cs'|].event]
    ensures CowEnabled(ss[|cs'|], cs[|cs'|].event, cs[|cs'|].frame)
    ensures ss[|cs|] == CowNext(ss[|cs'|], cs[|cs'|].event, cs[|cs'|].frame)
  {
    var n := |cs| - 1;
    ss', cs' := ss[..n + 1], cs[..n];
    forall i | 0 <= i < n ensures CowStep(ss', cs', i) {
      assert CowStep(ss, cs, i);
    }
    assert CowStep(ss, cs, n);
  }

  lemma CowNeedsOne(m: Memory, es: seq<Event>, s: State, e: Event, f: Frame, total: nat)
    requires Inv(s) && View(s) == ApplyAll(m, es) && Possible(m, es, total) && CowEnabled(s, e, f) && |CowNext(s, e, f).vpis| <= total
    ensures Possible(m, es + [e], total)
  {
    CowIsLegal(s, e, f);
    StepRefines(s, e, f);
    ViewKeys(CowNext(s, e, f));
    OneMoreEvent(m, es, e, total);
  }

  lemma {:induction false} CowIsPossible(ss: seq<State>, cs: seq<Choice>, total: nat)
    requires CowRun(ss, cs) && Inv(ss[0]) && forall i :: 0 <= i < |ss| ==> |ss[i].vpis| <= total
    ensures Possible(View(ss[0]), Events(cs), total)
    decreases |cs|
  {
    if cs == [] {
      ViewKeys(ss[0]);
      NothingPossible(View(ss[0]), total);
    } else {
      var ss', cs' := CowLast(ss, cs);
      CowIsPossible(ss', cs', total);
      RunRefines(ss', cs');
      var c := cs[|cs'|];
      CowNeedsOne(View(ss[0]), Events(cs'), ss[|cs'|], c.event, c.frame, total);
    }
  }

  /** Copy-on-write fork refines eager copy: whatever the kernel's machine does, one that looks the same
      at first, never shares a frame, and has a frame for every page there ever is can do too, and ends
      up showing every process the same bytes and the same write permissions. */
  lemma CowRefinesEager(ss: seq<State>, cs: seq<Choice>, t: State) returns (ts: seq<State>, ds: seq<Choice>)
    requires CowRun(ss, cs) && Inv(ss[0]) && EagerInv(t) && View(t) == View(ss[0])
    requires forall i :: 0 <= i < |ss| ==> |ss[i].vpis| <= Frames(t)
    ensures Follows(t, Events(cs), ts, ds) && View(ts[|ds|]) == View(ss[|cs|])
  {
    RunRefines(ss, cs);
    CowIsPossible(ss, cs, Frames(t));
    ts, ds := EagerFollows(t, Events(cs));
  }

  /** And so does every eager run of these events, whichever frames it was given. */
  lemma EveryEagerRunAgrees(ss: seq<State>, cs: seq<Choice>, ts: seq<State>, ds: seq<Choice>)
    requires CowRun(ss, cs) && EagerRun(ts, ds) && Events(cs) == Events(ds)
    requires Inv(ss[0]) && EagerInv(ts[0]) && View(ss[0]) == View(ts[0])
    ensures View(ss[|cs|]) == View(ts[|ds|])
  {
    RunRefines(ss, cs);
    EagerRunRefines(ts, ds);
  }

  /** A process may always write a page it owns: directly, or after one fault that gives it its own
      copy, which changes nothing any process can see. */
  lemma WriteMakesProgress(s: State, k: Key, off: nat, b: byte, f: Frame)
    requires Inv(s) && k in View(s) && View(s)[k].writable && off < |View(s)[k].bytes|
    requires f < |s.core| && s.core[f].available
    ensures CowEnabled(s, Store(k, off, b), f) || CowEnabled(s, Fault(k), f)
    ensures CowEnabled(s, Fault(k), f) ==>
              && Inv(CowNext(s, Fault(k), f))
              && View(CowNext(s, Fault(k), f)) == View(s)
              && CowEnabled(CowNext(s, Fault(k), f), Store(k, off, b), f)
  {
    assert KeyOk(s, k) && FrameOk(s, s.vpis[k].ppn);
    if CowEnabled(s, Fault(k), f) {
      FaultKeepsInv(s, k, f);
      FaultRefines(s, k, f);
    }
  }
}
