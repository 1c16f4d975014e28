/** What every request does to what every process reads, address by address: a machine in which each
    process has its own bytes, and nothing is said of pages, regions, tables or frames. */
module Reads {
  import opened Prelude
  import opened PageTable
  import opened CopyOnWrite
  import opened Regions
  import opened VspaceState
  import opened Layout
  import opened ForkState
  import opened Teardown
  import opened Addresses
  import opened Vspace
  import opened Loading
  import opened MemoryRuns
  import opened KernelRuns

  /** The byte of a new program at va: of the file, of the zeroes behind it, or of the stack's page. */
  function ProgramByte(segs: seq<Segment>, va: nat): Option<byte> {
    match Covering(segs, |segs|, va / 4096)
    case Some(i) => Some(if segs[i].vaddr <= va < segs[i].vaddr + |segs[i].file| then segs[i].file[va - segs[i].vaddr] else 0)
    case None => if va / 4096 == STACK_TOP - 1 then Some(0) else None
  }

  /** What q reads at va after a call that answered the request, given what everybody read before. */
  ghost function After(m0: Mem, req: Request, call: Call, q: nat, va: nat): Option<byte> {
    match call
    case DoLoad(pid, _, segs) => if q == pid then ProgramByte(segs, va) else HardwareByte(m0, q, va)
    case DoFork(p, c) => HardwareByte(m0, if q == c then p else q, va)
    case DoStore(_, _, b) => if req.Write? && q == req.id && va == req.va then Some(b) else HardwareByte(m0, q, va)
    case DoGrow(pid, _, _, lo, hi, _) => if q == pid && lo <= va / 4096 < hi then Some(0) else HardwareByte(m0, q, va)
    case DoExit(pid) => if q == pid then None else HardwareByte(m0, q, va)
    case _ => HardwareByte(m0, q, va)
  }

  /** The sites of one process, out of those of all. */
  lemma SitesAt(spaces: map<nat, Space>, l: map<nat, seq<Region>>, p: nat)
    requires Sites(spaces) == l
    ensures p in spaces <==> p in l
    ensures p in l ==> SitesOf(spaces[p]) == l[p]
  {
    assert p in Sites(spaces) <==> p in spaces;
  }

  lemma SiteAt(s: Space, sites: seq<Region>, r: nat)
    requires SitesOf(s) == sites && r < |sites|
    ensures |s.regions| == |sites| && Site(s.regions[r]) == sites[r]
  {
    assert SitesOf(s)[r] == Site(s.regions[r]);
  }

  // ---- call by call ----

  lemma ForkReads(m0: Mem, m: Mem, p: nat, c: nat, q: nat, va: nat)
    requires Sound(m0) && Sound(m) && va / 4096 < PML4_PAGES && p in m0.spaces && Changed(m0, DoFork(p, c), m)
    ensures HardwareByte(m, q, va) == HardwareByte(m0, if q == c then p else q, va)
  {
    var from, v0, v := if q == c then p else q, View(Cow(m0)), View(Cow(m));
    forall r: nat, idx: nat ensures SlotAlike(v0, from, v, q, r, idx) {
      assert ForkedAt(v0, v, p, c, Key(q, r, idx));
    }
    SitesAt(m0.spaces, Sites(m0.spaces), from);
    SitesAt(m0.spaces, Sites(m0.spaces), p);
    SitesAt(m.spaces, Relaid(Sites(m0.spaces), DoFork(p, c)), q);
    SeesAlike(m0, from, m, q, va);
  }

  lemma ExitReads(m0: Mem, m: Mem, pid: nat, q: nat, va: nat)
    requires Sound(m0) && Sound(m) && va / 4096 < PML4_PAGES
    requires Reaped(View(Cow(m0)), View(Cow(m)), pid) && Sites(m.spaces) == Sites(m0.spaces) - {pid}
    ensures HardwareByte(m, q, va) == if q == pid then None else HardwareByte(m0, q, va)
  {
    ExitSites(m0.spaces, m.spaces, pid, q);
    if q == pid {
      assert HardwareByte(m, q, va) == None;
    } else {
      OthersAfterExit(m0, m, pid, q, va);
    }
  }

  lemma OthersAfterExit(m0: Mem, m: Mem, pid: nat, q: nat, va: nat)
    requires Sound(m0) && Sound(m) && va / 4096 < PML4_PAGES && Reaped(View(Cow(m0)), View(Cow(m)), pid) && q != pid
    requires (q in m.spaces <==> q in m0.spaces) && (q in m.spaces ==> SitesOf(m.spaces[q]) == SitesOf(m0.spaces[q]))
    ensures HardwareByte(m, q, va) == HardwareByte(m0, q, va)
  {
    ExitLeaves(View(Cow(m0)), View(Cow(m)), pid, q);
    SeesAlike(m0, q, m, q, va);
  }

  lemma ExitSites(a: map<nat, Space>, b: map<nat, Space>, pid: nat, q: nat)
    requires Sites(b) == Sites(a) - {pid}
    ensures q in b <==> q in a && q != pid
    ensures q in b ==> SitesOf(b[q]) == SitesOf(a[q])
  {
    SitesAt(b, Sites(a) - {pid}, q);
    SitesAt(a, Sites(a), q);
  }

  lemma ExitLeaves(v0: Memory, v: Memory, pid: nat, q: nat)
    requires Reaped(v0, v, pid) && q != pid
    ensures forall r: nat, idx: nat :: SlotAlike(v0, q, v, q, r, idx)
  {
    forall r: nat, idx: nat ensures SlotAlike(v0, q, v, q, r, idx) {
      assert ReapedAt(v0, v, pid, Key(q, r, idx));
    }
  }

  /** Growth: the new pages read as zeroes, and nothing else changes. */
  lemma GrowthKeeps(m0: Mem, m: Mem, call: Call, q: nat, va: nat)
    requires Sound(m0) && Sound(m) && va / 4096 < PML4_PAGES && call.DoGrow? && Changed(m0, call, m)
    requires call.pid in m0.spaces && call.region < |m0.spaces[call.pid].regions| && call.reg == m0.spaces[call.pid].regions[call.region]
    requires !(q == call.pid && call.lo <= va / 4096 < call.hi)
    ensures HardwareByte(m, q, va) == HardwareByte(m0, q, va)
  {
    var v0, v, l := View(Cow(m0)), View(Cow(m)), Widened(Sites(m0.spaces), call.pid, call.region, call.size);
    SitesAt(m0.spaces, Sites(m0.spaces), q);
    SitesAt(m.spaces, l, q);
    forall r: nat, idx: nat ensures AlikeAt(m0, q, m, q, va / 4096, r, idx) {
      assert GrownViewAt(v0, v, call.pid, call.region, call.reg, true, call.lo, call.hi, Key(q, r, idx));
      if q in m0.spaces && r < |m0.spaces[q].regions| {
        SiteAt(m0.spaces[q], Sites(m0.spaces)[q], r);
        SiteAt(m.spaces[q], l[q], r);
      }
    }
    ReadAlike(m0, q, m, q, va);
  }

  lemma GrowthClears(m0: Mem, m: Mem, call: Call, va: nat)
    requires Sound(m0) && Sound(m) && va / 4096 < PML4_PAGES && call.DoGrow? && Changed(m0, call, m)
    requires call.pid in m0.spaces && call.region < |m0.spaces[call.pid].regions| && call.reg == m0.spaces[call.pid].regions[call.region]
    requires HasSlots(call.reg, call.lo, call.hi) && call.lo <= va / 4096 < call.hi
    ensures HardwareByte(m, call.pid, va) == Some(0)
  {
    var l := Widened(Sites(m0.spaces), call.pid, call.region, call.size);
    SitesAt(m0.spaces, Sites(m0.spaces), call.pid);
    SitesAt(m.spaces, l, call.pid);
    SiteAt(m0.spaces[call.pid], Sites(m0.spaces)[call.pid], call.region);
    SiteAt(m.spaces[call.pid], l[call.pid], call.region);
    var k := Key(call.pid, call.region, IdxOf(call.reg, va / 4096));
    assert GrownViewAt(View(Cow(m0)), View(Cow(m)), call.pid, call.region, call.reg, true, call.lo, call.hi, k);
    Lands(m, k, va);
  }

  /** A slot lies where it did. */
  lemma SameVpn(m0: Mem, m: Mem, pid: nat, r: nat, idx: nat)
    requires Sites(m.spaces) == Sites(m0.spaces) && pid in m0.spaces
    ensures pid in m.spaces && |m.spaces[pid].regions| == |m0.spaces[pid].regions|
    ensures r < |m0.spaces[pid].regions| ==> VpnOf(m.spaces[pid].regions[r], idx) == VpnOf(m0.spaces[pid].regions[r], idx)
  {
    SitesAt(m0.spaces, Sites(m0.spaces), pid);
    SitesAt(m.spaces, Sites(m0.spaces), pid);
    assert |SitesOf(m.spaces[pid])| == |SitesOf(m0.spaces[pid])|;
    if r < |m0.spaces[pid].regions| {
      SiteAt(m0.spaces[pid], Sites(m0.spaces)[pid], r);
      SiteAt(m.spaces[pid], Sites(m0.spaces)[pid], r);
    }
  }

  /** On the page of slot k, which lies at va in both states. */
  lemma StoredAt(m0: Mem, m: Mem, k0: Key, off: nat, b: byte, k: Key, va: nat)
    requires Sound(m0) && Sound(m) && va / 4096 < PML4_PAGES && k in View(Cow(m0))
    requires Legal(View(Cow(m0)), Store(k0, off, b)) && Changed(m0, DoStore(k0, off, b), m)
    requires k.pid in m0.spaces && k.region < |m0.spaces[k.pid].regions| && VpnOf(m0.spaces[k.pid].regions[k.region], k.idx) == va / 4096
    ensures HardwareByte(m, k.pid, va) == if k == k0 && va % 4096 == off then Some(b) else HardwareByte(m0, k.pid, va)
  {
    SameVpn(m0, m, k.pid, k.region, k.idx);
    Lands(m0, k, va);
    Lands(m, k, va);
  }

  /** What the store's own address has to do with its slot. */
  lemma StoreAddress(m: Mem, id: nat, at: nat, k: Key, va: nat)
    requires Sound(m) && va / 4096 < PML4_PAGES && id in m.spaces && FindUsed(m.spaces[id], at / 4096, NREGIONS).Some?
    requires k in View(Cow(m)) && k.pid in m.spaces && k.region < |m.spaces[k.pid].regions| && VpnOf(m.spaces[k.pid].regions[k.region], k.idx) == va / 4096
    ensures k == KeyOf(id, m.spaces[id], at) && va % 4096 == at % 4096 <==> k.pid == id && va == at
  {
    SlotOfAddress(m, k, va);
  }

  /** A store is read back at its address, and nowhere else. */
  lemma StoreReads(m0: Mem, m: Mem, id: nat, at: nat, b: byte, q: nat, va: nat)
    requires Sound(m0) && Sound(m) && va / 4096 < PML4_PAGES && id in m0.spaces && FindUsed(m0.spaces[id], at / 4096, NREGIONS).Some?
    requires Changed(m0, DoStore(KeyOf(id, m0.spaces[id], at), at % 4096, b), m)
    ensures HardwareByte(m, q, va) == if q == id && va == at then Some(b) else HardwareByte(m0, q, va)
  {
    var k0 := KeyOf(id, m0.spaces[id], at);
    SitesAt(m0.spaces, Sites(m0.spaces), q);
    SitesAt(m.spaces, Sites(m0.spaces), q);
    if HardwareByte(m, q, va).Some? || HardwareByte(m0, q, va).Some? || (q == id && va == at) {
      var k := k0;
      if HardwareByte(m, q, va).Some? {
        k := PageOfByte(m, q, va);
      } else if HardwareByte(m0, q, va).Some? {
        k := PageOfByte(m0, q, va);
      }
      SameVpn(m0, m, k.pid, k.region, k.idx);
      StoredAt(m0, m, k0, at % 4096, b, k, va);
      StoreAddress(m0, id, at, k, va);
    }
  }

  // ---- a new program ----

  /** The sites of a program: the code from the first segment on, and the stack below 2 GB. */
  predicate SitesFit(sites: seq<Region>, segs: seq<Segment>) {
    && |sites| == NREGIONS && segs != [] && Loadable(segs)
    && sites[VR_CODE].dir.Up? && sites[VR_CODE].base / 4096 <= Low(segs[0])
    && sites[VR_USTACK].dir.Down? && sites[VR_USTACK].base == STACK_TOP * 4096
  }

  lemma InitFits(init: seq<byte>)
    requires (|init| + 4095) / 4096 + 21 < STACK_TOP - MAX_STACK
    ensures SitesFit(InitSites(init), InitSegments(init))
  {
    InitLoadable(init);
  }

  lemma ExecFits(segs: seq<Segment>)
    requires segs != [] && Loadable(segs) && InOrder(segs, 0, |segs| - 1)
    ensures SitesFit(ExecSites(segs), segs)
  {
  }

  /** The segments lie above the first page. */
  lemma CoveredAbove(segs: seq<Segment>, p: nat)
    requires Loadable(segs) && Covering(segs, |segs|, p).Some?
    ensures Low(segs[0]) <= p
  {
    var i := Covering(segs, |segs|, p).value;
    assert i > 0 ==> InOrder(segs, 0, i);
  }

  lemma ByteOfPage(seg: Segment, va: nat)
    ensures PageOf(seg, va / 4096)[va % 4096]
         == if seg.vaddr <= va < seg.vaddr + |seg.file| then seg.file[va - seg.vaddr] else 0
  {
    assert va / 4096 * 4096 + va % 4096 == va;
  }

  /** Where slot k of the new program lies, and what is there. */
  lemma ProgramSlot(m0: Mem, m: Mem, pid: nat, sites: seq<Region>, segs: seq<Segment>, k: Key, va: nat)
    requires Sound(m) && va / 4096 < PML4_PAGES && SitesFit(sites, segs) && Changed(m0, DoLoad(pid, sites, segs), m)
    requires k.pid == pid && k.region < NREGIONS && VpnOf(sites[k.region], k.idx) == va / 4096
    ensures k in View(Cow(m)) ==> HardwareByte(m, pid, va) == ProgramByte(segs, va)
    ensures pid in m.spaces && |m.spaces[pid].regions| == NREGIONS
  {
    var v0, v, first := View(Cow(m0)), View(Cow(m)), sites[VR_CODE].base / 4096;
    SitesAt(m.spaces, Sites(m0.spaces)[pid := sites], pid);
    SiteAt(m.spaces[pid], sites, k.region);
    assert ProgramAt(v0, v, pid, first, segs, k);
    if k in v {
      Lands(m, k, va);
      if k.region == VR_CODE {
        ByteOfPage(segs[Covering(segs, |segs|, va / 4096).value], va);
      } else if Covering(segs, |segs|, va / 4096).Some? {
        CoveredInBounds(segs, va / 4096);
      }
    }
  }

  lemma LoadReads(m0: Mem, m: Mem, pid: nat, sites: seq<Region>, segs: seq<Segment>, va: nat)
    requires Sound(m) && va / 4096 < PML4_PAGES && SitesFit(sites, segs) && Changed(m0, DoLoad(pid, sites, segs), m)
    ensures HardwareByte(m, pid, va) == ProgramByte(segs, va)
  {
    var v0, v, first, vpn := View(Cow(m0)), View(Cow(m)), sites[VR_CODE].base / 4096, va / 4096;
    SitesAt(m.spaces, Sites(m0.spaces)[pid := sites], pid);
    if HardwareByte(m, pid, va).Some? {
      var k := PageOfByte(m, pid, va);
      assert |SitesOf(m.spaces[pid])| == |m.spaces[pid].regions|;
      SiteAt(m.spaces[pid], sites, k.region);
      ProgramSlot(m0, m, pid, sites, segs, k, va);
    } else if Covering(segs, |segs|, vpn).Some? {
      CoveredAbove(segs, vpn);
      var k := Key(pid, VR_CODE, vpn - first);
      assert ProgramAt(v0, v, pid, first, segs, k);
      ProgramSlot(m0, m, pid, sites, segs, k, va);
    } else if vpn == STACK_TOP - 1 {
      var k := Key(pid, VR_USTACK, 0);
      assert ProgramAt(v0, v, pid, first, segs, k);
      ProgramSlot(m0, m, pid, sites, segs, k, va);
    }
  }

  lemma LoadLeaves(m0: Mem, m: Mem, pid: nat, sites: seq<Region>, segs: seq<Segment>, q: nat, va: nat)
    requires Sound(m0) && Sound(m) && va / 4096 < PML4_PAGES && Changed(m0, DoLoad(pid, sites, segs), m) && q != pid
    ensures HardwareByte(m, q, va) == HardwareByte(m0, q, va)
  {
    var v0, v := View(Cow(m0)), View(Cow(m));
    forall r: nat, idx: nat ensures SlotAlike(v0, q, v, q, r, idx) {
      assert ProgramAt(v0, v, pid, sites[VR_CODE].base / 4096, segs, Key(q, r, idx));
    }
    SitesAt(m.spaces, Sites(m0.spaces)[pid := sites], q);
    SitesAt(m0.spaces, Sites(m0.spaces), q);
    SeesAlike(m0, q, m, q, va);
  }

  // ---- any request ----

  lemma SameReads(m0: Mem, m: Mem, q: nat, va: nat)
    requires Sound(m0) && Sound(m) && va / 4096 < PML4_PAGES && SameSight(m0, m)
    ensures HardwareByte(m, q, va) == HardwareByte(m0, q, va)
  {
    LoadIsByte(m0, q, va);
    LoadIsByte(m, q, va);
  }

  lemma GrowthReads(m0: Mem, m: Mem, req: Request, call: Call, q: nat, va: nat)
    requires Sound(m0) && Sound(m) && va / 4096 < PML4_PAGES && Changed(m0, call, m) && call.DoGrow?
    requires Sensible(m0.spaces, req) && (req.Trap? || req.Sbrk?) && Answers(m0, req, call, m)
    ensures HardwareByte(m, q, va) == After(m0, req, call, q, va)
  {
    GrowthSlots(m0, req, call, m);
    if q == call.pid && call.lo <= va / 4096 < call.hi {
      GrowthClears(m0, m, call, va);
    } else {
      GrowthKeeps(m0, m, call, q, va);
    }
  }

  lemma GrowthSlots(m0: Mem, req: Request, call: Call, m: Mem)
    requires Sensible(m0.spaces, req) && (req.Trap? || req.Sbrk?) && Answers(m0, req, call, m) && call.DoGrow?
    ensures call.pid in m0.spaces && call.region < |m0.spaces[call.pid].regions| && call.reg == m0.spaces[call.pid].regions[call.region]
    ensures HasSlots(call.reg, call.lo, call.hi)
  {
  }

  /** One request, address by address: what it did to what every process reads at every user address. */
  lemma RequestReads(m0: Mem, req: Request, call: Call, m: Mem, q: nat, va: nat)
    requires Sound(m0) && Sound(m) && Sensible(m0.spaces, req) && Did(m0, req, call, m) && va / 4096 < PML4_PAGES
    ensures HardwareByte(m, q, va) == After(m0, req, call, q, va)
  {
    if call.DoFault? || call.DoNothing? {
      SameReads(m0, m, q, va);
    } else {
      match req
      case First(id, init) =>
        if q == id {
          InitFits(init);
          LoadReads(m0, m, id, InitSites(init), InitSegments(init), va);
        } else {
          LoadLeaves(m0, m, id, InitSites(init), InitSegments(init), q, va);
        }
      case Exec(id, segs) =>
        if q == id {
          ExecFits(segs);
          LoadReads(m0, m, id, ExecSites(segs), segs, va);
        } else {
          LoadLeaves(m0, m, id, ExecSites(segs), segs, q, va);
        }
      case Fork(p, c) => ForkReads(m0, m, p, c, q, va);
      case Write(id, at, b) => StoreReads(m0, m, id, at, b, q, va);
      case Trap(_, _, _, _) => GrowthReads(m0, m, req, call, q, va);
      case Sbrk(_, _) => GrowthReads(m0, m, req, call, q, va);
      case Free(id) => ExitReads(m0, m, id, q, va);
    }
  }

  /** And in whole runs: what each process reads follows from what was read before and the calls alone. */
  lemma ServedReads(ms: seq<Mem>, reqs: seq<Request>, calls: seq<Call>, i: nat, q: nat, va: nat)
    requires Served(ms, reqs, calls) && AllSound(ms) && i < |calls| && va / 4096 < PML4_PAGES
    ensures HardwareByte(ms[i + 1], q, va) == After(ms[i], reqs[i], calls[i], q, va)
  {
    assert ServedAt(ms, reqs, calls, i);
    if Sensible(ms[i].spaces, reqs[i]) {
      RequestReads(ms[i], reqs[i], calls[i], ms[i + 1], q, va);
    }
  }
}
