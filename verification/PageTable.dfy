/** The 4-level x86-64 page table, as tables in physical frames, refining a flat map from page number
    to entry. Addresses are page numbers: every address these functions take is page aligned. */
module PageTable {
  import opened Prelude
  import opened Kalloc

  const ENTRIES: nat := 512
  const PML4_PAGES: nat := 134217728        // pages under one PML4 entry (512 GB)
  const ALL_PAGES: nat := 68719476736       // pages under one PML4

  datatype Pte = Pte(present: bool, writable: bool, user: bool, ppn: Frame)

  const NO_ENTRY: Pte := Pte(false, false, false, 0)

  type Tables = map<Frame, seq<Pte>>

  /** Where a table sits: the PML4 it hangs under, its level (4 for the PML4 itself), the page-number
      bits that lead to it, and the table one level up. */
  datatype Pos = Pos(root: Frame, level: nat, prefix: nat, parent: Frame)

  /** PML4_INDEX, PDPT_INDEX, PD_INDEX and PT_INDEX. */
  function Index(level: nat, vpn: nat): (i: nat)
    ensures i < ENTRIES
  {
    if level == 4 then vpn / 134217728 % 512
    else if level == 3 then vpn / 262144 % 512
    else if level == 2 then vpn / 512 % 512
    else vpn % 512
  }

  /** The page-number bits that lead to the table of the given level on the way to a page. */
  function Prefix(level: nat, vpn: nat): nat {
    if level == 4 then 0
    else if level == 3 then vpn / 134217728
    else if level == 2 then vpn / 262144
    else vpn / 512
  }

  /** Dividing step by step. */
  lemma DivChain(vpn: nat)
    ensures vpn / 262144 == vpn / 512 / 512 && vpn / 134217728 == vpn / 512 / 512 / 512
  {
  }

  /** Pages under the same last-level table have the same indices above it. */
  lemma SameIndices(u: nat, v: nat)
    requires u / 512 == v / 512
    ensures Index(4, u) == Index(4, v) && Index(3, u) == Index(3, v) && Index(2, u) == Index(2, v)
  {
    DivChain(u);
    DivChain(v);
  }

  lemma PrefixOfChild(level: nat, vpn: nat)
    requires 2 <= level <= 4 && vpn < ALL_PAGES
    ensures Prefix(level, vpn) * 512 + Index(level, vpn) == Prefix(level - 1, vpn)
  {
  }

  // ---- the walk and the flat map ----

  function Child(tables: Tables, f: Frame, i: nat): Option<Frame> {
    if f in tables && i < |tables[f]| && tables[f][i].present then Some(tables[f][i].ppn) else None
  }

  /** walkpml4 without allocation: the last-level table that holds the page's entry. */
  function Walk(tables: Tables, root: Frame, vpn: nat): Option<Frame> {
    match Child(tables, root, Index(4, vpn))
    case None => None
    case Some(pdpt) =>
      match Child(tables, pdpt, Index(3, vpn))
      case None => None
      case Some(pgdir) => Child(tables, pgdir, Index(2, vpn))
  }

  /** The flat map: what the hardware finds for a page. */
  function Entry(tables: Tables, root: Frame, vpn: nat): Pte {
    match Walk(tables, root, vpn)
    case None => NO_ENTRY
    case Some(t) => if t in tables && |tables[t]| == ENTRIES then tables[t][vpn % 512] else NO_ENTRY
  }

  // ---- the tables form a tree ----

  predicate NodeOk(tables: Tables, pos: map<Frame, Pos>, f: Frame) {
    && (f in tables <==> f in pos)
    && (f in pos ==>
          && |tables[f]| == ENTRIES && 1 <= pos[f].level <= 4
          && IsRoot(pos, pos[f].root) && (pos[f].level == 4 <==> pos[f].root == f)
          && (pos[f].level == 4 ==> pos[f].prefix == 0)
          && (pos[f].level < 4 ==> HangsFromParent(tables, pos, f, pos[f])))
  }

  predicate HangsFromParent(tables: Tables, pos: map<Frame, Pos>, f: Frame, p: Pos) {
    && p.parent in pos && p.parent in tables && |tables[p.parent]| == ENTRIES
    && pos[p.parent].root == p.root && pos[p.parent].level == p.level + 1
    && pos[p.parent].prefix == p.prefix / 512
    && tables[p.parent][p.prefix % 512].present
    && tables[p.parent][p.prefix % 512].ppn == f
  }

  predicate EntryOk(tables: Tables, pos: map<Frame, Pos>, f: Frame, i: nat) {
    f in pos && f in tables && i < |tables[f]| && pos[f].level >= 2 && tables[f][i].present ==>
      && tables[f][i].ppn in pos
      && pos[tables[f][i].ppn] == Pos(pos[f].root, pos[f].level - 1, pos[f].prefix * 512 + i, f)
  }

  predicate Unique(pos: map<Frame, Pos>, f: Frame, g: Frame) {
    f in pos && g in pos && pos[f].root == pos[g].root && pos[f].level == pos[g].level && pos[f].prefix == pos[g].prefix
    ==> f == g
  }

  /** Every table but a PML4 hangs from exactly one entry, and every present entry above the last
      level leads to the one table for its page-number bits: a forest with no shared node. */
  ghost predicate Tree(tables: Tables, pos: map<Frame, Pos>) {
    && (forall f: Frame :: NodeOk(tables, pos, f))
    && (forall f: Frame, i: nat :: EntryOk(tables, pos, f, i))
    && (forall f: Frame, g: Frame :: Unique(pos, f, g))
  }

  predicate IsRoot(pos: map<Frame, Pos>, root: Frame) {
    root in pos && pos[root].level == 4
  }

  predicate Leads(pos: map<Frame, Pos>, root: Frame, level: nat, prefix: nat, t: Frame) {
    t in pos && pos[t].root == root && pos[t].level == level && pos[t].prefix == prefix
  }

  lemma WalkSound(tables: Tables, pos: map<Frame, Pos>, root: Frame, vpn: nat)
    requires Tree(tables, pos) && IsRoot(pos, root) && vpn < ALL_PAGES
    ensures Walk(tables, root, vpn).Some? ==> Leads(pos, root, 1, vpn / 512, Walk(tables, root, vpn).value)
  {
    assert NodeOk(tables, pos, root);
    PrefixOfChild(4, vpn);
    PrefixOfChild(3, vpn);
    PrefixOfChild(2, vpn);
    if Child(tables, root, Index(4, vpn)).Some? {
      var pdpt := Child(tables, root, Index(4, vpn)).value;
      ChildLeads(tables, pos, root, root, 4, Prefix(4, vpn), Index(4, vpn));
      if Child(tables, pdpt, Index(3, vpn)).Some? {
        var pgdir := Child(tables, pdpt, Index(3, vpn)).value;
        ChildLeads(tables, pos, root, pdpt, 3, Prefix(3, vpn), Index(3, vpn));
        if Child(tables, pgdir, Index(2, vpn)).Some? {
          ChildLeads(tables, pos, root, pgdir, 2, Prefix(2, vpn), Index(2, vpn));
        }
      }
    }
  }

  /** One step of a walk. */
  lemma ChildLeads(tables: Tables, pos: map<Frame, Pos>, root: Frame, t: Frame, level: nat, prefix: nat, i: nat)
    requires Tree(tables, pos) && Leads(pos, root, level, prefix, t) && level >= 2 && Child(tables, t, i).Some?
    ensures Leads(pos, root, level - 1, prefix * 512 + i, Child(tables, t, i).value)
  {
    assert NodeOk(tables, pos, t) && EntryOk(tables, pos, t, i);
  }

  lemma WalkComplete(tables: Tables, pos: map<Frame, Pos>, root: Frame, vpn: nat, t: Frame)
    requires Tree(tables, pos) && IsRoot(pos, root) && vpn < ALL_PAGES
    requires Leads(pos, root, 1, vpn / 512, t)
    ensures Walk(tables, root, vpn) == Some(t)
  {
    assert NodeOk(tables, pos, t);
    var pgdir := pos[t].parent;
    assert NodeOk(tables, pos, pgdir);
    var pdpt := pos[pgdir].parent;
    assert NodeOk(tables, pos, pdpt);
    var top := pos[pdpt].parent;
    assert NodeOk(tables, pos, top);
    assert top == root;
    assert vpn / 512 / 512 == vpn / 262144 && vpn / 262144 / 512 == vpn / 134217728;
  }

  // ---- a new table is linked in ----

  function EmptyTable(): seq<Pte> {
    seq(ENTRIES, _ => NO_ENTRY)
  }

  /** walkpml4's allocation step: table g, cleared, becomes entry i of table f. */
  function LinkTables(tables: Tables, f: Frame, i: nat, g: Frame): Tables
    requires f in tables && i < |tables[f]|
  {
    tables[g := EmptyTable()][f := tables[f][i := Pte(true, true, true, g)]]
  }

  ghost function LinkPos(pos: map<Frame, Pos>, f: Frame, i: nat, g: Frame): map<Frame, Pos>
    requires f in pos && pos[f].level >= 2
  {
    pos[g := Pos(pos[f].root, pos[f].level - 1, pos[f].prefix * 512 + i, f)]
  }

  ghost predicate Linkable(tables: Tables, pos: map<Frame, Pos>, f: Frame, i: nat, g: Frame) {
    && Tree(tables, pos) && f in pos && f in tables && pos[f].level >= 2
    && i < ENTRIES == |tables[f]| && !tables[f][i].present && g !in tables && g !in pos
  }

  /** No table had the new one's place: its parent would be f, and its entry present. */
  lemma LinkIsUnique(tables: Tables, pos: map<Frame, Pos>, f: Frame, i: nat, g: Frame, h: Frame)
    requires Linkable(tables, pos, f, i, g) && h in pos
    ensures !Leads(pos, pos[f].root, pos[f].level - 1, pos[f].prefix * 512 + i, h)
  {
    assert NodeOk(tables, pos, h) && NodeOk(tables, pos, f);
    assert Unique(pos, pos[h].parent, f);
  }

  lemma LinkKeepsTree(tables: Tables, pos: map<Frame, Pos>, f: Frame, i: nat, g: Frame)
    requires Linkable(tables, pos, f, i, g)
    ensures Tree(LinkTables(tables, f, i, g), LinkPos(pos, f, i, g))
  {
    var tables', pos' := LinkTables(tables, f, i, g), LinkPos(pos, f, i, g);
    assert NodeOk(tables, pos, f);
    forall h: Frame ensures NodeOk(tables', pos', h) {
      assert NodeOk(tables, pos, h);
    }
    forall h: Frame, j: nat ensures EntryOk(tables', pos', h, j) {
      assert EntryOk(tables, pos, h, j);
    }
    forall h: Frame, h': Frame ensures Unique(pos', h, h') {
      assert Unique(pos, h, h');
      if h in pos { LinkIsUnique(tables, pos, f, i, g, h); }
      if h' in pos { LinkIsUnique(tables, pos, f, i, g, h'); }
    }
  }

  /** The flat map does not see the new, empty table. */
  lemma LinkKeepsEntries(tables: Tables, pos: map<Frame, Pos>, f: Frame, i: nat, g: Frame, root: Frame, vpn: nat)
    requires Linkable(tables, pos, f, i, g) && IsRoot(pos, root) && vpn < ALL_PAGES
    ensures Entry(LinkTables(tables, f, i, g), root, vpn) == Entry(tables, root, vpn)
  {
    var tables', pos' := LinkTables(tables, f, i, g), LinkPos(pos, f, i, g);
    LinkKeepsTree(tables, pos, f, i, g);
    WalkSound(tables, pos, root, vpn);
    WalkSound(tables', pos', root, vpn);
    if Walk(tables, root, vpn).Some? {
      WalkComplete(tables', pos', root, vpn, Walk(tables, root, vpn).value);
    } else if Walk(tables', root, vpn).Some? && Walk(tables', root, vpn).value != g {
      WalkComplete(tables, pos, root, vpn, Walk(tables', root, vpn).value);
    }
  }

  // ---- an entry of a last-level table is written ----

  function SetEntry(tables: Tables, t: Frame, i: nat, e: Pte): Tables
    requires t in tables && i < |tables[t]|
  {
    tables[t := tables[t][i := e]]
  }

  lemma SetEntryKeepsTree(tables: Tables, pos: map<Frame, Pos>, t: Frame, i: nat, e: Pte)
    requires Tree(tables, pos) && t in pos && t in tables && pos[t].level == 1 && i < |tables[t]|
    ensures Tree(SetEntry(tables, t, i, e), pos)
  {
    var tables' := SetEntry(tables, t, i, e);
    forall h: Frame ensures NodeOk(tables', pos, h) {
      assert NodeOk(tables, pos, h);
    }
    forall h: Frame, j: nat ensures EntryOk(tables', pos, h, j) {
      assert EntryOk(tables, pos, h, j);
    }
  }

  /** Writing an entry changes the flat map at exactly one page of one address space. */
  lemma SetEntryAt(tables: Tables, pos: map<Frame, Pos>, t: Frame, i: nat, e: Pte, root: Frame, vpn: nat)
    requires Tree(tables, pos) && t in pos && t in tables && pos[t].level == 1 && i < |tables[t]|
    requires IsRoot(pos, root) && vpn < ALL_PAGES
    ensures Entry(SetEntry(tables, t, i, e), root, vpn) ==
            if root == pos[t].root && vpn == pos[t].prefix * 512 + i then e else Entry(tables, root, vpn)
    ensures Walk(SetEntry(tables, t, i, e), root, vpn) == Walk(tables, root, vpn)
  {
    var tables' := SetEntry(tables, t, i, e);
    SetEntryKeepsTree(tables, pos, t, i, e);
    assert NodeOk(tables, pos, t);
    WalkSound(tables, pos, root, vpn);
    WalkSound(tables', pos, root, vpn);
    if Walk(tables, root, vpn).Some? {
      WalkComplete(tables', pos, root, vpn, Walk(tables, root, vpn).value);
    } else if Walk(tables', root, vpn).Some? {
      WalkComplete(tables, pos, root, vpn, Walk(tables', root, vpn).value);
    }
    if root == pos[t].root && vpn / 512 == pos[t].prefix {
      WalkComplete(tables, pos, root, vpn, t);
    }
  }

  // ---- everything under one PML4 entry is removed ----

  /** The PML4 index a table below level 4 hangs under. */
  function TopIndex(p: Pos): nat {
    if p.level == 3 then p.prefix else if p.level == 2 then p.prefix / 512 else p.prefix / 262144
  }

  predicate UnderTop(pos: map<Frame, Pos>, root: Frame, i: nat, f: Frame) {
    f in pos && pos[f].root == root && pos[f].level < 4 && TopIndex(pos[f]) == i
  }

  ghost function TopSet(pos: map<Frame, Pos>, root: Frame, i: nat): set<Frame> {
    set f | f in pos && UnderTop(pos, root, i, f)
  }

  /** The last-level tables under the first i entries of a page directory. */
  ghost function PgdirSet(pos: map<Frame, Pos>, root: Frame, prefix: nat, i: nat): set<Frame> {
    set f | f in pos && pos[f].root == root && pos[f].level == 1 && pos[f].prefix / 512 == prefix && pos[f].prefix % 512 < i
  }

  predicate UnderPdpt(p: Pos, root: Frame, prefix: nat, i: nat) {
    && p.root == root
    && (|| (p.level == 2 && p.prefix / 512 == prefix && p.prefix % 512 < i)
        || (p.level == 1 && p.prefix / 262144 == prefix && p.prefix / 512 % 512 < i))
  }

  /** The tables under the first i entries of a page directory pointer table. */
  ghost function PdptSet(pos: map<Frame, Pos>, root: Frame, prefix: nat, i: nat): set<Frame> {
    set f | f in pos && UnderPdpt(pos[f], root, prefix, i)
  }

  /** The tables under the first i entries of a PML4. */
  ghost function Pml4Set(pos: map<Frame, Pos>, root: Frame, i: nat): set<Frame> {
    set f | f in pos && pos[f].root == root && pos[f].level < 4 && TopIndex(pos[f]) < i
  }

  lemma PgdirSetGrows(tables: Tables, pos: map<Frame, Pos>, pgdir: Frame, i: nat)
    requires Tree(tables, pos) && pgdir in pos && pos[pgdir].level == 2 && i < ENTRIES
    ensures PgdirSet(pos, pos[pgdir].root, pos[pgdir].prefix, i + 1) ==
            PgdirSet(pos, pos[pgdir].root, pos[pgdir].prefix, i) +
            if Child(tables, pgdir, i).Some? then {Child(tables, pgdir, i).value} else {}
    ensures Child(tables, pgdir, i).Some? ==>
              && Child(tables, pgdir, i).value in pos
              && Child(tables, pgdir, i).value !in PgdirSet(pos, pos[pgdir].root, pos[pgdir].prefix, i)
              && pos[Child(tables, pgdir, i).value].level == 1
  {
    assert NodeOk(tables, pos, pgdir) && EntryOk(tables, pos, pgdir, i);
    forall f | f in pos && pos[f].root == pos[pgdir].root && pos[f].level == 1 && pos[f].prefix == pos[pgdir].prefix * 512 + i
      ensures Child(tables, pgdir, i) == Some(f)
    {
      assert NodeOk(tables, pos, f) && Unique(pos, pos[f].parent, pgdir);
    }
  }

  lemma PdptSetGrows(tables: Tables, pos: map<Frame, Pos>, pdpt: Frame, i: nat)
    requires Tree(tables, pos) && pdpt in pos && pos[pdpt].level == 3 && i < ENTRIES
    ensures Child(tables, pdpt, i).None? ==>
              PdptSet(pos, pos[pdpt].root, pos[pdpt].prefix, i + 1) == PdptSet(pos, pos[pdpt].root, pos[pdpt].prefix, i)
    ensures Child(tables, pdpt, i).Some? ==>
              var c := Child(tables, pdpt, i).value;
              && Leads(pos, pos[pdpt].root, 2, pos[pdpt].prefix * 512 + i, c)
              && PdptSet(pos, pos[pdpt].root, pos[pdpt].prefix, i + 1) ==
                 PdptSet(pos, pos[pdpt].root, pos[pdpt].prefix, i) + PgdirSet(pos, pos[pdpt].root, pos[c].prefix, 512) + {c}
  {
    assert NodeOk(tables, pos, pdpt) && EntryOk(tables, pos, pdpt, i);
    forall f | f in pos && pos[f].root == pos[pdpt].root && pos[f].level == 2 && pos[f].prefix == pos[pdpt].prefix * 512 + i
      ensures Child(tables, pdpt, i) == Some(f)
    {
      assert NodeOk(tables, pos, f) && Unique(pos, pos[f].parent, pdpt);
    }
    forall f | f in pos && pos[f].root == pos[pdpt].root && pos[f].level == 1 && pos[f].prefix / 512 == pos[pdpt].prefix * 512 + i
      ensures Child(tables, pdpt, i).Some?
    {
      assert NodeOk(tables, pos, f) && NodeOk(tables, pos, pos[f].parent);
      assert Unique(pos, pos[pos[f].parent].parent, pdpt);
    }
  }

  /** A PDPT's set is everything under its PML4 entry but the PDPT itself. */
  lemma PdptSetIsTopSet(tables: Tables, pos: map<Frame, Pos>, pdpt: Frame)
    requires Tree(tables, pos) && pdpt in pos && pos[pdpt].level == 3
    ensures PdptSet(pos, pos[pdpt].root, pos[pdpt].prefix, 512) + {pdpt} == TopSet(pos, pos[pdpt].root, pos[pdpt].prefix)
  {
    forall f | f in TopSet(pos, pos[pdpt].root, pos[pdpt].prefix) && f != pdpt
      ensures f in PdptSet(pos, pos[pdpt].root, pos[pdpt].prefix, 512)
    {
      assert NodeOk(tables, pos, f) && Unique(pos, f, pdpt);
    }
  }

  lemma Pml4SetGrows(pos: map<Frame, Pos>, root: Frame, i: nat)
    ensures Pml4Set(pos, root, i + 1) == Pml4Set(pos, root, i) + TopSet(pos, root, i)
  {
  }

  /** With no table under it, a PML4 entry is clear. */
  lemma NoTopSet(tables: Tables, pos: map<Frame, Pos>, root: Frame, i: nat)
    requires Tree(tables, pos) && IsRoot(pos, root) && i < ENTRIES && Child(tables, root, i).None?
    ensures TopSet(pos, root, i) == {}
  {
    forall f | f in pos && UnderTop(pos, root, i, f) ensures false {
      RootChild(tables, pos, f);
    }
  }

  lemma RootChild(tables: Tables, pos: map<Frame, Pos>, f: Frame)
    requires Tree(tables, pos) && f in pos && pos[f].level < 4
    ensures TopIndex(pos[f]) < ENTRIES && Child(tables, pos[f].root, TopIndex(pos[f])).Some?
    decreases 4 - pos[f].level
  {
    assert NodeOk(tables, pos, f);
    assert NodeOk(tables, pos, pos[f].parent);
    if pos[f].level < 3 {
      RootChild(tables, pos, pos[f].parent);
      assert pos[f].prefix / 512 / 512 == pos[f].prefix / 262144;
    }
  }

  /** `gone` is what freevm_pdpt has freed; the PML4 entry is cleared after it. */
  lemma UnlinkKeepsTree(tables: Tables, pos: map<Frame, Pos>, root: Frame, i: nat)
    requires Tree(tables, pos) && IsRoot(pos, root) && root in tables && i < |tables[root]|
    ensures var gone := TopSet(pos, root, i);
            root !in gone && Tree(SetEntry(tables - gone, root, i, NO_ENTRY), pos - gone)
  {
    var gone := TopSet(pos, root, i);
    var tables', pos' := SetEntry(tables - gone, root, i, NO_ENTRY), pos - gone;
    assert NodeOk(tables, pos, root);
    forall h: Frame ensures NodeOk(tables', pos', h) {
      assert NodeOk(tables, pos, h);
      if h in pos' && pos[h].level < 4 {
        assert NodeOk(tables, pos, pos[h].parent);
        assert pos[h].prefix / 512 / 512 == pos[h].prefix / 262144;
      }
    }
    forall h: Frame, j: nat ensures EntryOk(tables', pos', h, j) {
      assert EntryOk(tables, pos, h, j) && NodeOk(tables, pos, h);
      if h in pos' && pos[h].level >= 2 && j < ENTRIES && tables'[h][j].present {
        assert (pos[h].prefix * 512 + j) / 512 == pos[h].prefix;
        assert (pos[h].prefix * 512 + j) / 262144 == pos[h].prefix / 512;
      }
    }
    forall h: Frame, h': Frame ensures Unique(pos', h, h') {
      assert Unique(pos, h, h');
    }
  }

  /** Removing it clears the pages under that entry and no others. */
  lemma UnlinkEntries(tables: Tables, pos: map<Frame, Pos>, root: Frame, i: nat, root': Frame, vpn: nat)
    requires Tree(tables, pos) && IsRoot(pos, root) && root in tables && i < |tables[root]|
    requires IsRoot(pos, root') && vpn < ALL_PAGES
    ensures root !in TopSet(pos, root, i)
    ensures Entry(SetEntry(tables - TopSet(pos, root, i), root, i, NO_ENTRY), root', vpn) ==
            if root' == root && vpn / PML4_PAGES == i then NO_ENTRY else Entry(tables, root', vpn)
  {
    var gone := TopSet(pos, root, i);
    UnlinkKeepsTree(tables, pos, root, i);
    var tables', pos' := SetEntry(tables - gone, root, i, NO_ENTRY), pos - gone;
    WalkSound(tables, pos, root', vpn);
    WalkSound(tables', pos', root', vpn);
    assert vpn / 512 / 262144 == vpn / 134217728;
    if Walk(tables', root', vpn).Some? {
      WalkComplete(tables, pos, root', vpn, Walk(tables', root', vpn).value);
    } else if Walk(tables, root', vpn).Some? && !(root' == root && vpn / PML4_PAGES == i) {
      WalkComplete(tables', pos', root', vpn, Walk(tables, root', vpn).value);
    }
  }

  // ---- a whole address space's tables are removed ----

  ghost function RootSet(pos: map<Frame, Pos>, root: Frame): set<Frame> {
    set f | f in pos && pos[f].root == root
  }

  lemma RootSetIsAll(tables: Tables, pos: map<Frame, Pos>, root: Frame)
    requires Tree(tables, pos) && IsRoot(pos, root)
    ensures RootSet(pos, root) == Pml4Set(pos, root, 512) + {root}
  {
    assert NodeOk(tables, pos, root);
    forall f | f in RootSet(pos, root) && f != root ensures f in Pml4Set(pos, root, 512) {
      assert NodeOk(tables, pos, f);
      RootChild(tables, pos, f);
    }
  }

  lemma RemoveRootKeepsTree(tables: Tables, pos: map<Frame, Pos>, root: Frame)
    requires Tree(tables, pos)
    ensures Tree(tables - RootSet(pos, root), pos - RootSet(pos, root))
  {
    var gone := RootSet(pos, root);
    var tables', pos' := tables - gone, pos - gone;
    forall h: Frame ensures NodeOk(tables', pos', h) {
      assert NodeOk(tables, pos, h);
      if h in pos' {
        assert NodeOk(tables, pos, pos[h].root);
      }
    }
    forall h: Frame, j: nat ensures EntryOk(tables', pos', h, j) {
      assert EntryOk(tables, pos, h, j);
    }
    forall h: Frame, h': Frame ensures Unique(pos', h, h') {
      assert Unique(pos, h, h');
    }
  }

  /** The other address spaces do not notice. */
  lemma RemoveRootEntries(tables: Tables, pos: map<Frame, Pos>, root: Frame, root': Frame, vpn: nat)
    requires Tree(tables, pos) && IsRoot(pos, root') && root' != root && vpn < ALL_PAGES
    ensures Entry(tables - RootSet(pos, root), root', vpn) == Entry(tables, root', vpn)
  {
    var gone := RootSet(pos, root);
    var tables', pos' := tables - gone, pos - gone;
    RemoveRootKeepsTree(tables, pos, root);
    assert NodeOk(tables, pos, root');
    WalkSound(tables, pos, root', vpn);
    WalkSound(tables', pos', root', vpn);
    if Walk(tables', root', vpn).Some? {
      WalkComplete(tables, pos, root', vpn, Walk(tables', root', vpn).value);
    } else if Walk(tables, root', vpn).Some? {
      WalkComplete(tables', pos', root', vpn, Walk(tables, root', vpn).value);
    }
  }

  // ---- a new address space's PML4 ----

  function NewRootTables(tables: Tables, g: Frame): Tables {
    tables[g := EmptyTable()]
  }

  ghost function NewRootPos(pos: map<Frame, Pos>, g: Frame): map<Frame, Pos> {
    pos[g := Pos(g, 4, 0, g)]
  }

  lemma NewRootKeepsTree(tables: Tables, pos: map<Frame, Pos>, g: Frame)
    requires Tree(tables, pos) && g !in tables && g !in pos
    ensures Tree(NewRootTables(tables, g), NewRootPos(pos, g))
  {
    var tables', pos' := NewRootTables(tables, g), NewRootPos(pos, g);
    forall h: Frame ensures NodeOk(tables', pos', h) {
      assert NodeOk(tables, pos, h);
    }
    forall h: Frame, j: nat ensures EntryOk(tables', pos', h, j) {
      assert EntryOk(tables, pos, h, j);
    }
    forall h: Frame, h': Frame ensures Unique(pos', h, h') {
      assert Unique(pos, h, h') && NodeOk(tables, pos, h) && NodeOk(tables, pos, h');
    }
  }

  lemma NewRootEntries(tables: Tables, pos: map<Frame, Pos>, g: Frame, root: Frame, vpn: nat)
    requires Tree(tables, pos) && g !in tables && g !in pos && IsRoot(pos, root) && vpn < ALL_PAGES
    ensures Entry(NewRootTables(tables, g), root, vpn) == Entry(tables, root, vpn)
  {
    var tables', pos' := NewRootTables(tables, g), NewRootPos(pos, g);
    NewRootKeepsTree(tables, pos, g);
    WalkSound(tables, pos, root, vpn);
    WalkSound(tables', pos', root, vpn);
    if Walk(tables, root, vpn).Some? {
      WalkComplete(tables', pos', root, vpn, Walk(tables, root, vpn).value);
    } else if Walk(tables', root, vpn).Some? {
      WalkComplete(tables, pos, root, vpn, Walk(tables', root, vpn).value);
    }
  }
}
