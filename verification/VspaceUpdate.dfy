/** vspaceupdate: the hardware table is rebuilt from the regions. */
module VspaceUpdate {
  import opened Prelude
  import opened Kalloc
  import opened PageTable
  import opened X86Vm
  import opened CopyOnWrite
  import opened Regions

  /** Outside the tables no frame's count changes, and new tables come from available frames. */
  predicate PtOnlyAt(tables: Tables, core: seq<CoreEntry>, tables': Tables, core': seq<CoreEntry>, f: Frame) {
    && (f !in tables && f !in tables' && f < |core| == |core'| ==> SameCount(core[f], core'[f]))
    && (f in tables' && f !in tables ==> f < |core| && core[f].available)
  }

  /** Every page but the user pages of `root` keeps its entry; the kernel half of `root` included. */
  predicate KeptAt(tables: Tables, pos: map<Frame, Pos>, tables': Tables, root: Frame, r: Frame, v: nat) {
    IsRoot(pos, r) && v < ALL_PAGES && (r != root || v >= PML4_PAGES) ==> Entry(tables', r, v) == Entry(tables, r, v)
  }

  /** A table for user pages is there because some page the regions use needs it. */
  ghost predicate JustifiedAt(pos: map<Frame, Pos>, s: Space, f: Frame) {
    UnderTop(pos, s.pgtbl, 0, f) ==> OnUsedPath(pos[f], s)
  }

  ghost predicate OnUsedPath(p: Pos, s: Space) {
    exists v: nat :: v < PML4_PAGES && OnPath(p, v) && FindUsed(s, v, NREGIONS).Some?
  }

  predicate RootKeptAt(pos: map<Frame, Pos>, pos': map<Frame, Pos>, r: Frame) {
    IsRoot(pos, r) ==> IsRoot(pos', r)
  }

  predicate PresentAt(s: Space, i: nat, vpn: nat) {
    UsedIn(s, i, vpn) ==> PteIn(s, i, vpn).present
  }

  ghost predicate AllPresent(s: Space) {
    forall i: nat, vpn: nat :: PresentAt(s, i, vpn)
  }

  /** Every page in use has a frame of the core map. */
  predicate InCoreAt(s: Space, n: nat, i: nat, vpn: nat) {
    UsedIn(s, i, vpn) ==> PteIn(s, i, vpn).ppn < n
  }

  predicate WasMappedAt(t0: Tables, s: Space, v: nat) {
    v < PML4_PAGES && FindUsed(s, v, NREGIONS).Some? ==> Entry(t0, s.pgtbl, v).present
  }

  /** Every page in use had an entry already. */
  ghost predicate WasMapped(t0: Tables, s: Space) {
    forall v: nat :: WasMappedAt(t0, s, v)
  }

  /** Why vspaceupdate may panic: there is a new page to map and no frame is left for a table, two
      regions use a page, or a page's frame is not in the core map. */
  ghost predicate Excused(t0: Tables, s: Space, core: seq<CoreEntry>) {
    || (Available(core) == {} && !WasMapped(t0, s))
    || !NoOverlap(s)
    || exists i: nat, vpn: nat :: !InCoreAt(s, |core|, i, vpn)
  }

  // ---- half-built tables ----

  /** The entry for page v once regions before r, and the first i pages of region r, are mapped. */
  function Partial(s: Space, r: nat, i: nat, v: nat): Pte {
    match FindUsed(s, v, r)
    case Some(q) => PteIn(s, q, v)
    case None => if UsedIn(s, r, v) && v < BotPage(s.regions[r]) + i then PteIn(s, r, v) else NO_ENTRY
  }

  predicate BuiltAt(tables: Tables, s: Space, r: nat, i: nat, v: nat) {
    v < PML4_PAGES ==> Entry(tables, s.pgtbl, v) == Partial(s, r, i, v)
  }

  predicate OnlySoFarAt(s: Space, r: nat, i: nat, v: nat, q: nat) {
    q < r || (q == r < |s.regions| && v < BotPage(s.regions[r]) + i) ==> OnlyOneAt(s, v, q)
  }

  ghost predicate Built(tables: Tables, s: Space, r: nat, i: nat) {
    && (forall v: nat :: BuiltAt(tables, s, r, i, v))
    && (forall v: nat, q: nat :: OnlySoFarAt(s, r, i, v, q))
  }

  ghost predicate Around(t0: Tables, p0: map<Frame, Pos>, c0: seq<CoreEntry>,
                         tables: Tables, pos: map<Frame, Pos>, core: seq<CoreEntry>, s: Space) {
    && |core| == |c0|
    && (forall q: Frame, v: nat :: KeptAt(t0, p0, tables, s.pgtbl, q, v))
    && (forall f: Frame :: PtOnlyAt(t0, c0, tables, core, f))
    && (forall f: Frame :: JustifiedAt(pos, s, f))
    && (forall f: Frame :: RootKeptAt(p0, pos, f))
    && (forall f: Frame :: OtherPosAt(p0, pos, s.pgtbl, f))
  }

  /** The other address spaces have the tables they had. */
  predicate OtherPosAt(p0: map<Frame, Pos>, pos: map<Frame, Pos>, root: Frame, f: Frame) {
    f in pos && pos[f].root != root ==> f in p0 && p0[f] == pos[f]
  }

  /** After the user half is cleared nothing is built. */
  lemma BuiltStart(t0: Tables, p0: map<Frame, Pos>, c0: seq<CoreEntry>, end: nat,
                   tables: Tables, pos: map<Frame, Pos>, core: seq<CoreEntry>, s: Space)
    requires Tree(t0, p0) && Tree(tables, pos) && IsRoot(p0, s.pgtbl) && SpaceOk(s)
    requires pos == p0 - TopSet(p0, s.pgtbl, 0) && |core| == |c0|
    requires forall f: Frame :: TornAt(c0, TopSet(p0, s.pgtbl, 0), core, f)
    requires UserCleared(t0, p0, tables, s.pgtbl)
    ensures Built(tables, s, 0, 0) && Around(t0, p0, c0, tables, pos, core, s)
  {
    forall v: nat ensures BuiltAt(tables, s, 0, 0, v) {
      assert UserClearedAt(t0, p0, tables, s.pgtbl, s.pgtbl, v);
    }
    forall v: nat, q: nat ensures OnlySoFarAt(s, 0, 0, v, q) {
    }
    forall q: Frame, v: nat ensures KeptAt(t0, p0, tables, s.pgtbl, q, v) {
      assert UserClearedAt(t0, p0, tables, s.pgtbl, q, v);
    }
    forall f: Frame ensures PtOnlyAt(t0, c0, tables, core, f) && JustifiedAt(pos, s, f) && RootKeptAt(p0, pos, f) && OtherPosAt(p0, pos, s.pgtbl, f) {
      assert TornAt(c0, TopSet(p0, s.pgtbl, 0), core, f);
      assert NodeOk(t0, p0, f) && NodeOk(tables, pos, f);
    }
  }

  /** A page that is not in use leaves its entry clear. */
  lemma BuiltUnused(tables: Tables, s: Space, r: nat, i: nat, vpn: nat)
    requires Built(tables, s, r, i) && r < |s.regions| && vpn == BotPage(s.regions[r]) + i && !UsedIn(s, r, vpn)
    ensures Built(tables, s, r, i + 1)
  {
    var j := i + 1;
    forall v: nat ensures BuiltAt(tables, s, r, j, v) {
      assert BuiltAt(tables, s, r, i, v);
    }
    forall v: nat, q: nat ensures OnlySoFarAt(s, r, j, v, q) {
      assert OnlySoFarAt(s, r, i, v, q);
    }
  }

  /** A used page gets its entry, and was used by no earlier region. */
  lemma BuiltUsed(tables: Tables, pos: map<Frame, Pos>, tables': Tables, s: Space, r: nat, i: nat, vpn: nat)
    requires Built(tables, s, r, i) && r < |s.regions| && vpn == BotPage(s.regions[r]) + i && UsedIn(s, r, vpn)
    requires IsRoot(pos, s.pgtbl) && vpn < PML4_PAGES && AllPresent(s) && !Entry(tables, s.pgtbl, vpn).present
    requires RangeMapped(tables, pos, tables', s.pgtbl, vpn, 1, PteIn(s, r, vpn).ppn, PermOf(PteIn(s, r, vpn)))
    ensures Built(tables', s, r, i + 1)
  {
    var j, e := i + 1, PteIn(s, r, vpn);
    assert BuiltAt(tables, s, r, i, vpn);
    var q := if FindUsed(s, vpn, r).Some? then FindUsed(s, vpn, r).value else r;
    assert PresentAt(s, q, vpn);
    assert FindUsed(s, vpn, r).None?;
    forall v: nat ensures BuiltAt(tables', s, r, j, v) {
      assert BuiltAt(tables, s, r, i, v);
      assert RangeMappedAt(tables, pos, tables', s.pgtbl, vpn, 1, e.ppn, PermOf(e), s.pgtbl, v);
    }
    forall v: nat, q: nat ensures OnlySoFarAt(s, r, j, v, q) {
      assert OnlySoFarAt(s, r, i, v, q);
    }
  }

  /** An entry already there is another region's. */
  lemma RemapIsOverlap(tables: Tables, s: Space, r: nat, i: nat, vpn: nat)
    requires Built(tables, s, r, i) && r < |s.regions| && vpn == BotPage(s.regions[r]) + i && UsedIn(s, r, vpn)
    requires vpn < PML4_PAGES && Entry(tables, s.pgtbl, vpn).present
    ensures !NoOverlap(s)
  {
    assert BuiltAt(tables, s, r, i, vpn);
    assert !OnlyOneAt(s, vpn, r);
  }

  function PermOf(e: Pte): Perm {
    Perm(e.present, e.writable, e.user)
  }

  /** The region is done when all its pages are. */
  lemma BuiltRegion(tables: Tables, s: Space, r: nat)
    requires SpaceOk(s) && r < NREGIONS && Built(tables, s, r, NumPages(s.regions[r]))
    ensures Built(tables, s, r + 1, 0)
  {
    var n, r' := NumPages(s.regions[r]), r + 1;
    forall v: nat ensures BuiltAt(tables, s, r', 0, v) {
      assert BuiltAt(tables, s, r, n, v);
    }
    forall v: nat, q: nat ensures OnlySoFarAt(s, r', 0, v, q) {
      assert OnlySoFarAt(s, r, n, v, q);
    }
  }

  lemma BuiltAll(tables: Tables, s: Space)
    requires SpaceOk(s) && Built(tables, s, NREGIONS, 0)
    ensures Reflects(tables, s) && NoOverlap(s)
  {
    forall v: nat ensures ReflectsAt(tables, s, v) {
      assert BuiltAt(tables, s, NREGIONS, 0, v);
    }
    forall v: nat, i: nat ensures OnlyOneAt(s, v, i) {
      assert OnlySoFarAt(s, NREGIONS, 0, v, i);
    }
  }

  /** Mapping one used page keeps everything around the user half of this address space. */
  lemma AroundMapped(t0: Tables, p0: map<Frame, Pos>, c0: seq<CoreEntry>, tables: Tables, pos: map<Frame, Pos>, core: seq<CoreEntry>,
                     tables': Tables, pos': map<Frame, Pos>, core': seq<CoreEntry>, s: Space, vpn: nat, ppn: Frame, perm: Perm)
    requires Around(t0, p0, c0, tables, pos, core, s) && Tree(tables, pos) && Tree(tables', pos')
    requires vpn < PML4_PAGES && FindUsed(s, vpn, NREGIONS).Some? && |core'| == |core|
    requires Grown(pos, core, pos', core', s.pgtbl, vpn, vpn + 1)
    requires RangeMapped(tables, pos, tables', s.pgtbl, vpn, 1, ppn, perm)
    ensures Around(t0, p0, c0, tables', pos', core', s)
  {
    forall q: Frame, v: nat ensures KeptAt(t0, p0, tables', s.pgtbl, q, v) {
      assert KeptAt(t0, p0, tables, s.pgtbl, q, v) && RootKeptAt(p0, pos, q);
      assert RangeMappedAt(tables, pos, tables', s.pgtbl, vpn, 1, ppn, perm, q, v);
    }
    forall f: Frame ensures PtOnlyAt(t0, c0, tables', core', f) && RootKeptAt(p0, pos', f) && OtherPosAt(p0, pos', s.pgtbl, f) {
      assert PtOnlyAt(t0, c0, tables, core, f) && RootKeptAt(p0, pos, f) && OtherPosAt(p0, pos, s.pgtbl, f);
      assert GrownAt(pos, core, pos', core', s.pgtbl, vpn, vpn + 1, f);
      assert NodeOk(tables, pos, f) && NodeOk(tables', pos', f);
    }
    forall f: Frame ensures JustifiedAt(pos', s, f) {
      assert JustifiedAt(pos, s, f) && GrownAt(pos, core, pos', core', s.pgtbl, vpn, vpn + 1, f);
    }
  }

  // ---- the rebuilt table needs no more frames than the old one had ----

  /** A frame of an old table for user pages is such a table again, or available. */
  predicate RecycledAt(p0: map<Frame, Pos>, pos: map<Frame, Pos>, core: seq<CoreEntry>, root: Frame, f: Frame) {
    UnderTop(p0, root, 0, f) ==> if f in pos then UnderTop(pos, root, 0, f) else f < |core| && core[f].available
  }

  ghost predicate Recycled(p0: map<Frame, Pos>, pos: map<Frame, Pos>, core: seq<CoreEntry>, root: Frame) {
    forall f: Frame :: RecycledAt(p0, pos, core, root, f)
  }

  lemma RecycledStart(t0: Tables, p0: map<Frame, Pos>, c0: seq<CoreEntry>, end: nat, pos: map<Frame, Pos>, core: seq<CoreEntry>, root: Frame)
    requires Tree(t0, p0) && AllHeld(t0, c0, end) && pos == p0 - TopSet(p0, root, 0) && |core| == |c0|
    requires forall f: Frame :: TornAt(c0, TopSet(p0, root, 0), core, f)
    ensures Recycled(p0, pos, core, root)
  {
    forall f: Frame ensures RecycledAt(p0, pos, core, root, f) {
      assert TornAt(c0, TopSet(p0, root, 0), core, f) && Held(t0, c0, end, f) && NodeOk(t0, p0, f);
    }
  }

  /** Walking to a user page takes tables from the available frames. */
  lemma RecycledGrown(p0: map<Frame, Pos>, pos: map<Frame, Pos>, core: seq<CoreEntry>, pos': map<Frame, Pos>, core': seq<CoreEntry>,
                      root: Frame, vpn: nat)
    requires Recycled(p0, pos, core, root) && vpn < PML4_PAGES && Grown(pos, core, pos', core', root, vpn, vpn + 1)
    ensures Recycled(p0, pos', core', root)
  {
    forall f: Frame ensures RecycledAt(p0, pos', core', root, f) {
      assert RecycledAt(p0, pos, core, root, f) && GrownAt(pos, core, pos', core', root, vpn, vpn + 1, f);
    }
  }

  lemma JustifiedGrown(pos: map<Frame, Pos>, core: seq<CoreEntry>, pos': map<Frame, Pos>, core': seq<CoreEntry>, s: Space, vpn: nat)
    requires (forall f: Frame :: JustifiedAt(pos, s, f)) && vpn < PML4_PAGES && FindUsed(s, vpn, NREGIONS).Some?
    requires Grown(pos, core, pos', core', s.pgtbl, vpn, vpn + 1)
    ensures forall f: Frame :: JustifiedAt(pos', s, f)
  {
    forall f: Frame ensures JustifiedAt(pos', s, f) {
      assert JustifiedAt(pos, s, f) && GrownAt(pos, core, pos', core', s.pgtbl, vpn, vpn + 1, f);
    }
  }

  datatype Place = Place(level: nat, prefix: nat)

  function PlaceOf(p: Pos): Place {
    Place(p.level, p.prefix)
  }

  function Places(pos: map<Frame, Pos>, fs: set<Frame>): set<Place> {
    set f | f in fs && f in pos :: PlaceOf(pos[f])
  }

  /** Tables of one address space have different places. */
  lemma PlacesCount(tables: Tables, pos: map<Frame, Pos>, root: Frame)
    requires Tree(tables, pos)
    ensures |Places(pos, TopSet(pos, root, 0))| == |TopSet(pos, root, 0)|
  {
    var fs := TopSet(pos, root, 0);
    forall f, g | f in fs && g in fs && PlaceOf(pos[f]) == PlaceOf(pos[g]) ensures f == g {
      assert Unique(pos, f, g);
    }
    BijectionPreservesSize(fs, Places(pos, fs), f => if f in pos then PlaceOf(pos[f]) else Place(0, 0));
  }

  /** A mapped page has a table at every level of its path. */
  lemma PathIsThere(t0: Tables, p0: map<Frame, Pos>, root: Frame, v: nat, level: nat)
    requires Tree(t0, p0) && IsRoot(p0, root) && v < PML4_PAGES && 1 <= level <= 3 && Entry(t0, root, v).present
    ensures Place(level, Prefix(level, v)) in Places(p0, TopSet(p0, root, 0))
  {
    WalkSound(t0, p0, root, v);
    var t := Walk(t0, root, v).value;
    assert NodeOk(t0, p0, t);
    var pgdir := p0[t].parent;
    assert NodeOk(t0, p0, pgdir);
    var pdpt := p0[pgdir].parent;
    assert NodeOk(t0, p0, pdpt);
    assert v / 512 / 512 == v / 262144 && v / 262144 / 512 == v / 134217728;
    var f := if level == 1 then t else if level == 2 then pgdir else pdpt;
    assert UnderTop(p0, root, 0, f) && PlaceOf(p0[f]) == Place(level, Prefix(level, v));
  }

  /** The old frames cannot run out before every page that was mapped has its table. */
  lemma NeverOut(t0: Tables, p0: map<Frame, Pos>, tables: Tables, pos: map<Frame, Pos>, core: seq<CoreEntry>, s: Space, vpn: nat)
    requires Tree(t0, p0) && Tree(tables, pos) && IsRoot(p0, s.pgtbl) && IsRoot(pos, s.pgtbl)
    requires WasMapped(t0, s) && Recycled(p0, pos, core, s.pgtbl) && forall f: Frame :: JustifiedAt(pos, s, f)
    requires vpn < PML4_PAGES && FindUsed(s, vpn, NREGIONS).Some? && Walk(tables, s.pgtbl, vpn).None?
    ensures Available(core) != {}
  {
    var root := s.pgtbl;
    var held, now := TopSet(p0, root, 0), TopSet(pos, root, 0);
    var before, after := Places(p0, held), Places(pos, now);
    PlacesCount(t0, p0, root);
    PlacesCount(tables, pos, root);
    forall f | f in now ensures PlaceOf(pos[f]) in before && PlaceOf(pos[f]) != Place(1, vpn / 512) {
      assert JustifiedAt(pos, s, f) && NodeOk(tables, pos, f);
      var v: nat :| v < PML4_PAGES && OnPath(pos[f], v) && FindUsed(s, v, NREGIONS).Some?;
      assert WasMappedAt(t0, s, v);
      PathIsThere(t0, p0, root, v, pos[f].level);
      if PlaceOf(pos[f]) == Place(1, vpn / 512) {
        WalkComplete(tables, pos, root, vpn, f);
      }
    }
    assert WasMappedAt(t0, s, vpn);
    PathIsThere(t0, p0, root, vpn, 1);
    SubsetSize(after, before - {Place(1, vpn / 512)});
    if Available(core) == {} {
      forall f | f in held ensures f in now {
        assert RecycledAt(p0, pos, core, root, f);
        assert f !in Available(core);
      }
      SubsetSize(held, now);
    }
  }

  /** One page of vspaceupdate's rebuilding loop. Failure is one of mappages' panics, and says why. */
  method UpdatePage(pt: PageTables, s: Space, r: nat, i: nat,
                    ghost t0: Tables, ghost p0: map<Frame, Pos>, ghost c0: seq<CoreEntry>) returns (ok: bool)
    requires pt.Valid() && IsRoot(pt.pos, s.pgtbl) && SpaceOk(s) && AllPresent(s)
    requires r < NREGIONS && i < NumPages(s.regions[r])
    requires Built(pt.tables, s, r, i) && Around(t0, p0, c0, pt.tables, pt.pos, pt.cm.core[..], s)
    requires Tree(t0, p0) && IsRoot(p0, s.pgtbl) && Recycled(p0, pt.pos, pt.cm.core[..], s.pgtbl)
    modifies pt, pt.cm, pt.cm.core
    ensures pt.Valid() && IsRoot(pt.pos, s.pgtbl) && Recycled(p0, pt.pos, pt.cm.core[..], s.pgtbl)
    ensures ok ==> Built(pt.tables, s, r, i + 1) && Around(t0, p0, c0, pt.tables, pt.pos, pt.cm.core[..], s)
    ensures !ok ==> Excused(t0, s, pt.cm.core[..])
  {
    var vpn := BotPage(s.regions[r]) + i;
    PageIndex(s.regions[r], vpn);
    var vpi := At(s.regions[r], Va2VpiIdx(s.regions[r], vpn * 4096));
    ghost var t1, p1, c1 := pt.tables, pt.pos, pt.cm.core[..];
    if !vpi.used {
      BuiltUnused(t1, s, r, i, vpn);
      return true;
    }
    var e := X86Pte(vpi);
    assert UsedIn(s, r, vpn) && FindUsed(s, vpn, NREGIONS).Some?;
    var status := pt.MapPages(s.pgtbl, vpn, 1, e.ppn, PermOf(e), false);
    RecycledGrown(p0, p1, c1, pt.pos, pt.cm.core[..], s.pgtbl, vpn);
    if !status.Mapped? {
      if status.Remap? {
        RemapIsOverlap(t1, s, r, i, vpn);
      } else if status.OutOfMemory? && WasMapped(t0, s) {
        JustifiedGrown(p1, c1, pt.pos, pt.cm.core[..], s, vpn);
        NeverOut(t0, p0, pt.tables, pt.pos, pt.cm.core[..], s, vpn);
      }
      assert status.BadFrame? ==> !InCoreAt(s, |pt.cm.core[..]|, r, vpn);
      return false;
    }
    BuiltUsed(t1, p1, pt.tables, s, r, i, vpn);
    AroundMapped(t0, p0, c0, t1, p1, c1, pt.tables, pt.pos, pt.cm.core[..], s, vpn, e.ppn, PermOf(e));
    return true;
  }

  /** The rebuilding loop over one region. */
  method RebuildRegion(pt: PageTables, s: Space, r: nat, ghost t0: Tables, ghost p0: map<Frame, Pos>, ghost c0: seq<CoreEntry>)
    returns (ok: bool)
    requires pt.Valid() && IsRoot(pt.pos, s.pgtbl) && SpaceOk(s) && AllPresent(s) && r < NREGIONS
    requires Built(pt.tables, s, r, 0) && Around(t0, p0, c0, pt.tables, pt.pos, pt.cm.core[..], s)
    requires Tree(t0, p0) && IsRoot(p0, s.pgtbl) && Recycled(p0, pt.pos, pt.cm.core[..], s.pgtbl)
    modifies pt, pt.cm, pt.cm.core
    ensures pt.Valid() && IsRoot(pt.pos, s.pgtbl) && Recycled(p0, pt.pos, pt.cm.core[..], s.pgtbl)
    ensures ok ==> Built(pt.tables, s, r + 1, 0) && Around(t0, p0, c0, pt.tables, pt.pos, pt.cm.core[..], s)
    ensures !ok ==> Excused(t0, s, pt.cm.core[..])
  {
    var i := 0;
    while i < NumPages(s.regions[r])
      invariant 0 <= i <= NumPages(s.regions[r]) && pt.Valid() && IsRoot(pt.pos, s.pgtbl)
      invariant Recycled(p0, pt.pos, pt.cm.core[..], s.pgtbl)
      invariant Built(pt.tables, s, r, i) && Around(t0, p0, c0, pt.tables, pt.pos, pt.cm.core[..], s)
    {
      ok := UpdatePage(pt, s, r, i, t0, p0, c0);
      if !ok {
        return;
      }
      i := i + 1;
    }
    BuiltRegion(pt.tables, s, r);
    return true;
  }

  /** vspaceupdate. Unless it panics, which takes one of the three reasons, the hardware table afterwards holds, for every user page, exactly
      what the regions say, no page being used twice; every other entry of this and every other address
      space is as it was, and no frame but a table changed hands. */
  method Rebuild(pt: PageTables, s: Space) returns (ok: bool)
    requires pt.Valid() && IsRoot(pt.pos, s.pgtbl) && SpaceOk(s) && AllPresent(s)
    modifies pt, pt.cm, pt.cm.core
    ensures pt.Valid() && IsRoot(pt.pos, s.pgtbl)
    ensures ok ==> Reflects(pt.tables, s) && NoOverlap(s)
    ensures ok ==> Around(old(pt.tables), old(pt.pos), old(pt.cm.core[..]), pt.tables, pt.pos, pt.cm.core[..], s)
    ensures !ok ==> Excused(old(pt.tables), s, pt.cm.core[..])
  {
    ghost var t0, p0, c0 := pt.tables, pt.pos, pt.cm.core[..];
    pt.ClearUser(s.pgtbl);
    BuiltStart(t0, p0, c0, pt.cm.end, pt.tables, pt.pos, pt.cm.core[..], s);
    RecycledStart(t0, p0, c0, pt.cm.end, pt.pos, pt.cm.core[..], s.pgtbl);
    var r := 0;
    while r < NREGIONS
      invariant 0 <= r <= NREGIONS && pt.Valid() && IsRoot(pt.pos, s.pgtbl)
      invariant Recycled(p0, pt.pos, pt.cm.core[..], s.pgtbl)
      invariant Built(pt.tables, s, r, 0) && Around(t0, p0, c0, pt.tables, pt.pos, pt.cm.core[..], s)
    {
      ok := RebuildRegion(pt, s, r, t0, p0, c0);
      if !ok {
        return;
      }
      r := r + 1;
    }
    BuiltAll(pt.tables, s);
    return true;
  }

  // ---- the kernel half of a new table ----

  predicate UserEmptyAt(tables: Tables, root: Frame, v: nat) {
    v < PML4_PAGES ==> Entry(tables, root, v) == NO_ENTRY
  }

  /** A range of the kernel map: n pages from page vpn, to the frames from ppn. */
  datatype KMap = KMap(vpn: nat, n: nat, ppn: Frame, writable: bool)

  predicate KernelRange(k: KMap) {
    PML4_PAGES <= k.vpn && k.vpn + k.n <= ALL_PAGES
  }

  predicate InKMap(k: KMap, v: nat) {
    k.vpn <= v < k.vpn + k.n
  }

  function KPerm(k: KMap): Perm {
    Perm(true, k.writable, false)
  }

  /** The entry for page v in a table with just the first n ranges. */
  function KernelEntry(kmap: seq<KMap>, n: nat, v: nat): Pte
    requires n <= |kmap|
  {
    if n == 0 then NO_ENTRY
    else if InKMap(kmap[n - 1], v) then MakePte(kmap[n - 1].ppn + v - kmap[n - 1].vpn, KPerm(kmap[n - 1]))
    else KernelEntry(kmap, n - 1, v)
  }

  predicate KernelAt(tables: Tables, root: Frame, kmap: seq<KMap>, n: nat, v: nat) {
    n <= |kmap| && v < ALL_PAGES ==> Entry(tables, root, v) == KernelEntry(kmap, n, v)
  }

  predicate BothMap(kmap: seq<KMap>, i: nat, j: nat, v: nat) {
    i < j < |kmap| && InKMap(kmap[i], v) && InKMap(kmap[j], v)
  }

  /** Two ranges of the kernel map have a page in common. */
  ghost predicate KMapOverlaps(kmap: seq<KMap>) {
    exists i: nat, j: nat, v: nat :: BothMap(kmap, i, j, v)
  }

  /** An entry already there is another range's. */
  lemma {:induction false} KernelRemap(kmap: seq<KMap>, n: nat, j: nat, v: nat)
    requires n <= j < |kmap| && KernelEntry(kmap, n, v).present && InKMap(kmap[j], v)
    ensures KMapOverlaps(kmap)
  {
    if InKMap(kmap[n - 1], v) {
      assert BothMap(kmap, n - 1, j, v);
    } else {
      KernelRemap(kmap, n - 1, j, v);
    }
  }

  lemma KernelNext(tables: Tables, pos: map<Frame, Pos>, tables': Tables, root: Frame, kmap: seq<KMap>, n: nat, m: nat)
    requires IsRoot(pos, root) && n < |kmap| && m == n + 1
    requires forall v: nat :: KernelAt(tables, root, kmap, n, v)
    requires RangeMapped(tables, pos, tables', root, kmap[n].vpn, kmap[n].n, kmap[n].ppn, KPerm(kmap[n]))
    ensures forall v: nat :: KernelAt(tables', root, kmap, m, v)
  {
    var k := kmap[n];
    forall v: nat ensures KernelAt(tables', root, kmap, m, v) {
      assert KernelAt(tables, root, kmap, n, v);
      assert RangeMappedAt(tables, pos, tables', root, k.vpn, k.n, k.ppn, KPerm(k), root, v);
    }
  }

  /** A fresh PML4 touches nothing else. */
  lemma AroundNewRoot(t0: Tables, p0: map<Frame, Pos>, c0: seq<CoreEntry>, g: Frame, core: seq<CoreEntry>, s: Space)
    requires Tree(t0, p0) && g !in p0 && g !in t0 && g < |c0| && c0[g].available && core == c0[g := Allocated(c0[g])]
    requires s.pgtbl == g
    ensures Around(t0, p0, c0, NewRootTables(t0, g), NewRootPos(p0, g), core, s)
    ensures forall v: nat :: UserEmptyAt(NewRootTables(t0, g), g, v)
  {
    var tables, pos := NewRootTables(t0, g), NewRootPos(p0, g);
    forall q: Frame, v: nat ensures KeptAt(t0, p0, tables, g, q, v) {
      if IsRoot(p0, q) && v < ALL_PAGES {
        NewRootEntries(t0, p0, g, q, v);
      }
    }
    forall f: Frame
      ensures PtOnlyAt(t0, c0, tables, core, f) && JustifiedAt(pos, s, f) && RootKeptAt(p0, pos, f) && OtherPosAt(p0, pos, g, f)
    {
      assert NodeOk(t0, p0, f);
    }
    forall v: nat ensures UserEmptyAt(tables, g, v) {
    }
  }

  /** Mapping a kernel range adds no user entry and no table for user pages. */
  lemma AroundKernel(t0: Tables, p0: map<Frame, Pos>, c0: seq<CoreEntry>, tables: Tables, pos: map<Frame, Pos>, core: seq<CoreEntry>,
                     tables': Tables, pos': map<Frame, Pos>, core': seq<CoreEntry>, s: Space, k: KMap, perm: Perm)
    requires Around(t0, p0, c0, tables, pos, core, s) && Tree(tables, pos) && Tree(tables', pos')
    requires !IsRoot(p0, s.pgtbl) && IsRoot(pos, s.pgtbl) && KernelRange(k)
    requires forall v: nat :: UserEmptyAt(tables, s.pgtbl, v)
    requires Grown(pos, core, pos', core', s.pgtbl, k.vpn, k.vpn + k.n)
    requires RangeMapped(tables, pos, tables', s.pgtbl, k.vpn, k.n, k.ppn, perm)
    ensures Around(t0, p0, c0, tables', pos', core', s)
    ensures forall v: nat :: UserEmptyAt(tables', s.pgtbl, v)
  {
    var root, lo, hi := s.pgtbl, k.vpn, k.vpn + k.n;
    forall q: Frame, v: nat ensures KeptAt(t0, p0, tables', root, q, v) {
      assert KeptAt(t0, p0, tables, root, q, v) && RootKeptAt(p0, pos, q);
      assert RangeMappedAt(tables, pos, tables', root, k.vpn, k.n, k.ppn, perm, q, v);
    }
    forall f: Frame ensures PtOnlyAt(t0, c0, tables', core', f) && RootKeptAt(p0, pos', f) && OtherPosAt(p0, pos', root, f) {
      assert PtOnlyAt(t0, c0, tables, core, f) && RootKeptAt(p0, pos, f) && OtherPosAt(p0, pos, root, f);
      assert GrownAt(pos, core, pos', core', root, lo, hi, f);
      assert NodeOk(tables, pos, f) && NodeOk(tables', pos', f);
    }
    forall f: Frame ensures JustifiedAt(pos', s, f) {
      assert JustifiedAt(pos, s, f) && GrownAt(pos, core, pos', core', root, lo, hi, f);
      if f in pos' && f !in pos {
        var v: nat :| lo <= v < hi && OnPath(pos'[f], v);
        assert v / 512 / 262144 == v / 134217728 && v / 262144 / 512 == v / 134217728;
      }
    }
    forall v: nat ensures UserEmptyAt(tables', root, v) {
      assert UserEmptyAt(tables, root, v) && RangeMappedAt(tables, pos, tables', root, k.vpn, k.n, k.ppn, perm, root, v);
    }
  }

  /** setupkvm: a table with exactly the kernel's ranges. It fails, or mappages panics, only when no
      frame is left or two of the ranges share a page. */
  method SetupKvm(pt: PageTables, kmap: seq<KMap>) returns (r: Option<Frame>, panicked: bool)
    requires pt.Valid() && forall i :: 0 <= i < |kmap| ==> KernelRange(kmap[i])
    modifies pt, pt.cm, pt.cm.core
    ensures pt.Valid()
    ensures r.Some? ==>
              && IsRoot(pt.pos, r.value) && r.value !in old(pt.pos) && (forall v: nat :: UserEmptyAt(pt.tables, r.value, v))
              && Around(old(pt.tables), old(pt.pos), old(pt.cm.core[..]), pt.tables, pt.pos, pt.cm.core[..], Space([], r.value))
    ensures r.Some? ==> forall v: nat :: KernelAt(pt.tables, r.value, kmap, |kmap|, v)
    ensures r.None? ==> Available(pt.cm.core[..]) == {} || (panicked && KMapOverlaps(kmap))
    ensures r.None? && !panicked ==> pt.tables == old(pt.tables) && pt.pos == old(pt.pos) && pt.cm.core[..] == old(pt.cm.core[..])
  {
    panicked := false;
    ghost var t0, p0, c0 := pt.tables, pt.pos, pt.cm.core[..];
    r := pt.NewRoot();
    if r.None? {
      return;
    }
    ghost var s := Space([], r.value);
    assert NodeOk(t0, p0, r.value);
    AroundNewRoot(t0, p0, c0, r.value, pt.cm.core[..], s);
    assert forall v: nat :: KernelAt(pt.tables, r.value, kmap, 0, v);
    var i := 0;
    while i < |kmap|
      invariant 0 <= i <= |kmap| && pt.Valid() && IsRoot(pt.pos, r.value) && !IsRoot(p0, r.value)
      invariant Around(t0, p0, c0, pt.tables, pt.pos, pt.cm.core[..], s)
      invariant forall v: nat :: UserEmptyAt(pt.tables, r.value, v)
      invariant forall v: nat :: KernelAt(pt.tables, r.value, kmap, i, v)
    {
      ghost var t1, p1, c1 := pt.tables, pt.pos, pt.cm.core[..];
      var perm := KPerm(kmap[i]);
      var status := pt.MapPages(r.value, kmap[i].vpn, kmap[i].n, kmap[i].ppn, perm, true);
      if !status.Mapped? {
        if status.Remap? {
          ghost var v: nat :| kmap[i].vpn <= v < kmap[i].vpn + kmap[i].n && Entry(t1, r.value, v).present;
          assert KernelAt(t1, r.value, kmap, i, v);
          KernelRemap(kmap, i, i, v);
        }
        return None, true;
      }
      KernelNext(t1, p1, pt.tables, r.value, kmap, i, i + 1);
      AroundKernel(t0, p0, c0, t1, p1, c1, pt.tables, pt.pos, pt.cm.core[..], s, kmap[i], perm);
      i := i + 1;
    }
  }
}
