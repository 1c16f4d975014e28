/** The operations on page tables: the allocating walk, mapping pages, and teardown. */
module X86Vm {
  import opened Prelude
  import opened Kalloc
  import opened PageTable
  import opened Dealloc

  /** A table's frame is allocated, to the table alone. */
  predicate Held(tables: Tables, core: seq<CoreEntry>, end: nat, f: Frame) {
    f in tables ==> end <= f < |core| && !core[f].available && core[f].refcount == 1
  }

  /** The table at p is one a walk to page vpn goes through. */
  predicate OnPath(p: Pos, vpn: nat) {
    p.level < 4 && p.prefix == Prefix(p.level, vpn)
  }

  ghost predicate OnSomePath(p: Pos, lo: nat, hi: nat) {
    exists v: nat :: lo <= v < hi && OnPath(p, v)
  }

  /** Same availability and count; only the record of the user address may differ. */
  predicate SameCount(e: CoreEntry, e': CoreEntry) {
    e'.available == e.available && e'.refcount == e.refcount
  }

  /** Frame f across some walks: old tables stay where they were, new ones came from available frames
      and lie on the way to a page in [lo, hi), and no other frame's count changed. */
  ghost predicate GrownAt(pos: map<Frame, Pos>, core: seq<CoreEntry>, pos': map<Frame, Pos>, core': seq<CoreEntry>,
                          root: Frame, lo: nat, hi: nat, f: Frame) {
    && (f in pos ==> f in pos' && pos'[f] == pos[f])
    && (f in pos' && f !in pos ==>
          && f < |core| && core[f].available && pos'[f].root == root && OnSomePath(pos'[f], lo, hi))
    && (f < |core| == |core'| && !(f in pos' && f !in pos) ==> SameCount(core[f], core'[f]))
  }

  ghost predicate Grown(pos: map<Frame, Pos>, core: seq<CoreEntry>, pos': map<Frame, Pos>, core': seq<CoreEntry>,
                        root: Frame, lo: nat, hi: nat) {
    |core'| == |core| && forall f: Frame :: GrownAt(pos, core, pos', core', root, lo, hi, f)
  }

  predicate SameEntry(tables: Tables, pos: map<Frame, Pos>, tables': Tables, root: Frame, vpn: nat) {
    IsRoot(pos, root) && vpn < ALL_PAGES ==> Entry(tables', root, vpn) == Entry(tables, root, vpn)
  }

  /** The flat map of every address space is unchanged. */
  ghost predicate SameEntries(tables: Tables, pos: map<Frame, Pos>, tables': Tables) {
    forall root: Frame, vpn: nat :: SameEntry(tables, pos, tables', root, vpn)
  }

  ghost predicate AllHeld(tables: Tables, core: seq<CoreEntry>, end: nat) {
    forall f: Frame :: Held(tables, core, end, f)
  }

  /** Growth composes: what a second walk takes was not already a table of the first. */
  lemma GrowAgain(pos: map<Frame, Pos>, core: seq<CoreEntry>,
                  tables1: Tables, pos1: map<Frame, Pos>, core1: seq<CoreEntry>, end: nat,
                  pos2: map<Frame, Pos>, core2: seq<CoreEntry>, root: Frame, lo: nat, mid: nat, mid': nat, hi: nat)
    requires lo <= mid' && mid <= hi
    requires Grown(pos, core, pos1, core1, root, lo, mid)
    requires Tree(tables1, pos1) && AllHeld(tables1, core1, end)
    requires Grown(pos1, core1, pos2, core2, root, mid', hi)
    ensures Grown(pos, core, pos2, core2, root, lo, hi)
  {
    forall f: Frame ensures GrownAt(pos, core, pos2, core2, root, lo, hi, f) {
      assert Held(tables1, core1, end, f) && NodeOk(tables1, pos1, f);
      assert GrownAt(pos, core, pos1, core1, root, lo, mid, f) && GrownAt(pos1, core1, pos2, core2, root, mid', hi, f);
      if f in pos2 && f !in pos {
        if f in pos1 {
          var v :| lo <= v < mid && OnPath(pos1[f], v);
        } else {
          var v :| mid' <= v < hi && OnPath(pos2[f], v);
        }
      }
    }
  }

  lemma SameEntriesTransitive(tables: Tables, pos: map<Frame, Pos>, core: seq<CoreEntry>,
                              tables1: Tables, pos1: map<Frame, Pos>, core1: seq<CoreEntry>,
                              tables2: Tables, root: Frame, lo: nat, hi: nat)
    requires Grown(pos, core, pos1, core1, root, lo, hi)
    requires SameEntries(tables, pos, tables1) && SameEntries(tables1, pos1, tables2)
    ensures SameEntries(tables, pos, tables2)
  {
    forall r: Frame, v: nat ensures SameEntry(tables, pos, tables2, r, v) {
      assert SameEntry(tables, pos, tables1, r, v) && SameEntry(tables1, pos1, tables2, r, v);
      assert GrownAt(pos, core, pos1, core1, root, lo, hi, r);
    }
  }

  /** A link once present stays: the tables it joins keep their places. */
  lemma ChildKept(tables: Tables, pos: map<Frame, Pos>, core: seq<CoreEntry>,
                  tables': Tables, pos': map<Frame, Pos>, core': seq<CoreEntry>,
                  f: Frame, i: nat, root: Frame, lo: nat, hi: nat)
    requires Tree(tables, pos) && Tree(tables', pos') && Grown(pos, core, pos', core', root, lo, hi)
    requires f in pos && pos[f].level >= 2 && i < ENTRIES && Child(tables, f, i).Some?
    ensures Child(tables', f, i) == Child(tables, f, i) && f in pos' && pos'[f] == pos[f]
  {
    var g := Child(tables, f, i).value;
    assert NodeOk(tables, pos, f) && EntryOk(tables, pos, f, i);
    assert GrownAt(pos, core, pos', core', root, lo, hi, f) && GrownAt(pos, core, pos', core', root, lo, hi, g);
    assert NodeOk(tables', pos', g) && NodeOk(tables', pos', f);
    assert (pos[f].prefix * 512 + i) % 512 == i;
  }

  /** Linking in a frame that was available is growth towards the page walked to. */
  lemma LinkGrows(tables: Tables, pos: map<Frame, Pos>, core: seq<CoreEntry>, end: nat,
                  f: Frame, i: nat, g: Frame, core': seq<CoreEntry>, vpn: nat)
    requires Linkable(tables, pos, f, i, g) && pos[f].prefix * 512 + i == Prefix(pos[f].level - 1, vpn)
    requires AllHeld(tables, core, end)
    requires end <= g < |core| && core[g].available && core' == core[g := core[g].(available := false, refcount := 1)]
    ensures AllHeld(LinkTables(tables, f, i, g), core', end)
    ensures Grown(pos, core, LinkPos(pos, f, i, g), core', pos[f].root, vpn, vpn + 1)
    ensures SameEntries(tables, pos, LinkTables(tables, f, i, g))
  {
    var tables', pos' := LinkTables(tables, f, i, g), LinkPos(pos, f, i, g);
    forall h: Frame ensures Held(tables', core', end, h) {
      assert Held(tables, core, end, h);
    }
    assert NodeOk(tables, pos, f);
    assert OnPath(pos'[g], vpn);
    forall root: Frame, v: nat ensures SameEntry(tables, pos, tables', root, v) {
      if IsRoot(pos, root) && v < ALL_PAGES {
        LinkKeepsEntries(tables, pos, f, i, g, root, v);
      }
    }
  }

  // ---- mapping a range of pages ----

  datatype MapStatus = Mapped | OutOfMemory | Remap | BadFrame

  /** The permission bits of an entry. */
  datatype Perm = Perm(present: bool, writable: bool, user: bool)

  function MakePte(ppn: Frame, perm: Perm): Pte {
    Pte(perm.present, perm.writable, perm.user, ppn)
  }

  /** Address space r's entry for page v once [vpn, vpn + n) of `root` is mapped to frames from ppn. */
  function RangeEntry(tables: Tables, root: Frame, vpn: nat, n: nat, ppn: Frame, perm: Perm, r: Frame, v: nat): Pte {
    if r == root && vpn <= v < vpn + n then MakePte(ppn + v - vpn, perm) else Entry(tables, r, v)
  }

  predicate RangeMappedAt(tables: Tables, pos: map<Frame, Pos>, tables': Tables,
                          root: Frame, vpn: nat, n: nat, ppn: Frame, perm: Perm, r: Frame, v: nat) {
    IsRoot(pos, r) && v < ALL_PAGES ==> Entry(tables', r, v) == RangeEntry(tables, root, vpn, n, ppn, perm, r, v)
  }

  ghost predicate RangeMapped(tables: Tables, pos: map<Frame, Pos>, tables': Tables,
                              root: Frame, vpn: nat, n: nat, ppn: Frame, perm: Perm) {
    forall r: Frame, v: nat :: RangeMappedAt(tables, pos, tables', root, vpn, n, ppn, perm, r, v)
  }

  /** Writing the entry a walk found maps its page and nothing else. */
  lemma WriteMapsOne(tables: Tables, pos: map<Frame, Pos>, core: seq<CoreEntry>, tables1: Tables, pos1: map<Frame, Pos>,
                     core1: seq<CoreEntry>, root: Frame, vpn: nat, ppn: Frame, perm: Perm, t: Frame)
    requires Tree(tables1, pos1) && IsRoot(pos1, root) && vpn < ALL_PAGES
    requires Grown(pos, core, pos1, core1, root, vpn, vpn + 1) && SameEntries(tables, pos, tables1)
    requires t in tables1 && |tables1[t]| == ENTRIES && Leads(pos1, root, 1, vpn / 512, t)
    ensures RangeMapped(tables, pos, SetEntry(tables1, t, Index(1, vpn), MakePte(ppn, perm)), root, vpn, 1, ppn, perm)
  {
    var e := MakePte(ppn, perm);
    var tables' := SetEntry(tables1, t, Index(1, vpn), e);
    forall r: Frame, v: nat ensures RangeMappedAt(tables, pos, tables', root, vpn, 1, ppn, perm, r, v) {
      if IsRoot(pos, r) && v < ALL_PAGES {
        assert SameEntry(tables, pos, tables1, r, v);
        assert GrownAt(pos, core, pos1, core1, root, vpn, vpn + 1, r);
        SetEntryAt(tables1, pos1, t, Index(1, vpn), e, r, v);
      }
    }
  }

  lemma MapOneMore(tables: Tables, pos: map<Frame, Pos>, core: seq<CoreEntry>, tables1: Tables, pos1: map<Frame, Pos>,
                   core1: seq<CoreEntry>, tables2: Tables, root: Frame, vpn: nat, n: nat, ppn: Frame, perm: Perm)
    requires Grown(pos, core, pos1, core1, root, vpn, vpn + n)
    requires RangeMapped(tables, pos, tables1, root, vpn, n, ppn, perm)
    requires RangeMapped(tables1, pos1, tables2, root, vpn + n, 1, ppn + n, perm)
    ensures RangeMapped(tables, pos, tables2, root, vpn, n + 1, ppn, perm)
  {
    var m := n + 1;
    forall r: Frame, v: nat ensures RangeMappedAt(tables, pos, tables2, root, vpn, m, ppn, perm, r, v) {
      assert RangeMappedAt(tables, pos, tables1, root, vpn, n, ppn, perm, r, v);
      assert GrownAt(pos, core, pos1, core1, root, vpn, vpn + n, r);
      assert RangeMappedAt(tables1, pos1, tables2, root, vpn + n, 1, ppn + n, perm, r, v);
    }
  }

  class PageTables {
    const cm: CoreMap
    var tables: Tables
    ghost var pos: map<Frame, Pos>

    ghost predicate Valid()
      reads this, cm, cm.core
    {
      cm.Valid() && Tree(tables, pos) && AllHeld(tables, cm.core[..], cm.end)
    }

    constructor (cm: CoreMap)
      requires cm.Valid()
      ensures Valid() && this.cm == cm && tables == map[] && pos == map[]
    {
      this.cm := cm;
      tables := map[];
      pos := map[];
    }

    /** One level of walkpml4: follow entry i of table f, or make the table it should lead to. */
    method Descend(f: Frame, i: nat, alloc: bool, ghost vpn: nat) returns (r: Option<Frame>)
      requires Valid() && f in pos && pos[f].level >= 2 && vpn < ALL_PAGES
      requires i == Index(pos[f].level, vpn) && (pos[f].level < 4 ==> OnPath(pos[f], vpn))
      modifies this, cm, cm.core
      ensures Valid()
      ensures Grown(old(pos), old(cm.core[..]), pos, cm.core[..], old(pos)[f].root, vpn, vpn + 1)
      ensures SameEntries(old(tables), old(pos), tables)
      ensures f in pos && pos[f] == old(pos)[f]
      ensures r == Child(tables, f, i)
      ensures r.None? || !alloc ==> tables == old(tables) && pos == old(pos) && cm.core[..] == old(cm.core[..])
      ensures r.None? && alloc ==> Available(cm.core[..]) == {}
      ensures r.Some? ==> Leads(pos, pos[f].root, pos[f].level - 1, Prefix(pos[f].level - 1, vpn), r.value)
    {
      assert NodeOk(tables, pos, f) && EntryOk(tables, pos, f, i);
      PrefixOfChild(pos[f].level, vpn);
      if tables[f][i].present {
        return Some(tables[f][i].ppn);
      }
      if !alloc {
        return None;
      }
      ghost var core0 := cm.core[..];
      r := cm.Kalloc();
      if r.None? {
        return;
      }
      var g := r.value;
      assert NodeOk(tables, pos, g) && Held(tables, core0, cm.end, g);
      LinkKeepsTree(tables, pos, f, i, g);
      LinkGrows(tables, pos, core0, cm.end, f, i, g, cm.core[..], vpn);
      tables, pos := LinkTables(tables, f, i, g), LinkPos(pos, f, i, g);
    }

    /** walkpml4: the last-level table holding the page's entry, making the missing tables on the way
        if asked to. With `alloc` it fails only when memory has run out. */
    method WalkPml4(root: Frame, vpn: nat, alloc: bool) returns (r: Option<Frame>)
      requires Valid() && IsRoot(pos, root) && vpn < ALL_PAGES
      modifies this, cm, cm.core
      ensures Valid() && IsRoot(pos, root)
      ensures Grown(old(pos), old(cm.core[..]), pos, cm.core[..], root, vpn, vpn + 1)
      ensures SameEntries(old(tables), old(pos), tables)
      ensures r == Walk(tables, root, vpn)
      ensures !alloc ==> tables == old(tables) && pos == old(pos) && cm.core[..] == old(cm.core[..])
      ensures r.None? && alloc ==> Available(cm.core[..]) == {}
    {
      assert NodeOk(tables, pos, root);
      ghost var t0, p0, c0 := tables, pos, cm.core[..];
      r := Descend(root, Index(4, vpn), alloc, vpn);
      if r.None? { return; }
      var pdpt := r.value;
      ghost var t1, p1, c1 := tables, pos, cm.core[..];
      r := Descend(pdpt, Index(3, vpn), alloc, vpn);
      GrowAgain(p0, c0, t1, p1, c1, cm.end, pos, cm.core[..], root, vpn, vpn + 1, vpn, vpn + 1);
      SameEntriesTransitive(t0, p0, c0, t1, p1, c1, tables, root, vpn, vpn + 1);
      ChildKept(t1, p1, c1, tables, pos, cm.core[..], root, Index(4, vpn), root, vpn, vpn + 1);
      if r.None? { return; }
      var pgdir := r.value;
      ghost var t2, p2, c2 := tables, pos, cm.core[..];
      r := Descend(pgdir, Index(2, vpn), alloc, vpn);
      GrowAgain(p0, c0, t2, p2, c2, cm.end, pos, cm.core[..], root, vpn, vpn + 1, vpn, vpn + 1);
      SameEntriesTransitive(t0, p0, c0, t2, p2, c2, tables, root, vpn, vpn + 1);
      ChildKept(t2, p2, c2, tables, pos, cm.core[..], root, Index(4, vpn), root, vpn, vpn + 1);
      ChildKept(t2, p2, c2, tables, pos, cm.core[..], pdpt, Index(3, vpn), root, vpn, vpn + 1);
    }

    /** One turn of mappages' loop. */
    method MapPage(root: Frame, vpn: nat, ppn: Frame, perm: Perm, kern: bool) returns (status: MapStatus)
      requires Valid() && IsRoot(pos, root) && vpn < ALL_PAGES
      modifies this, cm, cm.core
      ensures Valid() && IsRoot(pos, root)
      ensures Grown(old(pos), old(cm.core[..]), pos, cm.core[..], root, vpn, vpn + 1)
      ensures status.Mapped? ==> RangeMapped(old(tables), old(pos), tables, root, vpn, 1, ppn, perm)
      ensures status.Mapped? ==> !Entry(old(tables), root, vpn).present
      ensures status.Remap? ==> Entry(old(tables), root, vpn).present
      ensures status.OutOfMemory? ==> Available(cm.core[..]) == {} && Walk(tables, root, vpn).None?
      ensures status.BadFrame? ==> !kern && cm.core.Length <= ppn
    {
      ghost var t0, p0, c0 := tables, pos, cm.core[..];
      var r := WalkPml4(root, vpn, true);
      if r.None? {
        return OutOfMemory;
      }
      var t, i, e := r.value, Index(1, vpn), MakePte(ppn, perm);
      WalkSound(tables, pos, root, vpn);
      assert NodeOk(tables, pos, t);
      assert SameEntry(t0, p0, tables, root, vpn);
      if tables[t][i].present {
        return Remap;
      }
      ghost var c1 := cm.core[..];
      WriteMapsOne(t0, p0, c0, tables, pos, c1, root, vpn, ppn, perm, t);
      SetEntryKeepsTree(tables, pos, t, i, e);
      HeldAfterSet(tables, c1, cm.end, t, i, e);
      tables := SetEntry(tables, t, i, e);
      if !kern {
        var ok := cm.MarkUserMem(ppn, vpn * 4096);
        MarkKeeps(p0, c0, tables, pos, c1, cm.end, cm.core[..], root, vpn, vpn + 1);
        if !ok {
          return BadFrame;
        }
      }
      return Mapped;
    }

    /** mappages: maps [vpn, vpn + n) to the frames from ppn. Running out of memory, finding a page
        already mapped, and a user frame outside the core map are panics; otherwise the flat map of
        `root` changes at exactly those pages and that of no other address space changes. */
    method MapPages(root: Frame, vpn: nat, n: nat, ppn: Frame, perm: Perm, kern: bool) returns (status: MapStatus)
      requires Valid() && IsRoot(pos, root) && vpn + n <= ALL_PAGES
      modifies this, cm, cm.core
      ensures Valid() && IsRoot(pos, root)
      ensures Grown(old(pos), old(cm.core[..]), pos, cm.core[..], root, vpn, vpn + n)
      ensures status.Mapped? ==> RangeMapped(old(tables), old(pos), tables, root, vpn, n, ppn, perm)
      ensures status.Mapped? ==> forall v :: vpn <= v < vpn + n ==> !Entry(old(tables), root, v).present
      ensures status.Remap? ==> exists v :: vpn <= v < vpn + n && Entry(old(tables), root, v).present
      ensures status.OutOfMemory? ==> Available(cm.core[..]) == {} && exists v :: vpn <= v < vpn + n && Walk(tables, root, v).None?
      ensures status.BadFrame? ==> !kern && cm.core.Length < ppn + n
    {
      ghost var t0, p0, c0 := tables, pos, cm.core[..];
      var i := 0;
      while i < n
        invariant 0 <= i <= n
        invariant Valid() && IsRoot(pos, root)
        invariant Grown(p0, c0, pos, cm.core[..], root, vpn, vpn + i)
        invariant RangeMapped(t0, p0, tables, root, vpn, i, ppn, perm)
        invariant forall v :: vpn <= v < vpn + i ==> !Entry(t0, root, v).present
      {
        ghost var t1, p1, c1 := tables, pos, cm.core[..];
        status := MapPage(root, vpn + i, ppn + i, perm, kern);
        assert RangeMappedAt(t0, p0, t1, root, vpn, i, ppn, perm, root, vpn + i);
        GrowAgain(p0, c0, t1, p1, c1, cm.end, pos, cm.core[..], root, vpn, vpn + i, vpn + i, vpn + i + 1);
        if !status.Mapped? {
          WidenGrowth(p0, c0, pos, cm.core[..], root, vpn, vpn + i + 1, vpn + n);
          return;
        }
        MapOneMore(t0, p0, c0, t1, p1, c1, tables, root, vpn, i, ppn, perm);
        i := i + 1;
      }
      return Mapped;
    }

    /** One present entry of deallocuvm's loop: the frame is freed and the entry cleared. `done` is
        what was freed before it, out of `fs` in all. */
    method ReleaseEntry(t: Frame, i: nat, ghost c0: seq<CoreEntry>, ghost fs: seq<Frame>, ghost done: seq<Frame>)
      requires Valid() && t in tables && i < ENTRIES && t in pos && pos[t].level == 1 && |tables[t]| == ENTRIES
      requires |c0| == cm.core.Length && Releasable(c0, cm.end, tables, fs) && done + [tables[t][i].ppn] <= fs
      requires cm.core[..] == FreeAll(c0, done)
      modifies this`tables, cm, cm.core
      ensures Valid()
      ensures cm.core[..] == FreeAll(c0, done + [old(tables)[t][i].ppn])
      ensures tables == SetEntry(old(tables), t, i, NO_ENTRY)
      ensures Releasable(c0, cm.end, tables, fs)
    {
      var f := tables[t][i].ppn;
      NextIsAllocated(c0, cm.end, tables, fs, done, f);
      ghost var core1 := cm.core[..];
      var ok := cm.Kfree(f);
      SetEntryKeepsTree(tables, pos, t, i, NO_ENTRY);
      HeldAfterFree(tables, core1, cm.end, f, cm.core[..]);
      HeldAfterSet(tables, cm.core[..], cm.end, t, i, NO_ENTRY);
      tables := SetEntry(tables, t, i, NO_ENTRY);
      forall g: Frame ensures ReleasableAt(c0, cm.end, tables, fs, g) {
        assert ReleasableAt(c0, cm.end, old(tables), fs, g);
      }
    }

    /** find_next_possible_page, where its panic cannot happen. */
    method FindNext(root: Frame, a: nat) returns (next: nat)
      requires a < PML4_PAGES && Walk(tables, root, a).None?  // the loop asks only after the walk failed
      ensures next + 1 == NextPage(tables, root, a)
    {
      FindNextLeadsToNextPage(tables, root, a);
      var r := FindNextPossiblePage(tables, root, a).value;
      PgAddrValues(a);
      next := r;
    }

    /** deallocuvm's loop body at a page that has a last-level table. */
    method ReleasePage(root: Frame, a: nat, t: Frame, ghost t0: Tables, ghost c0: seq<CoreEntry>, ghost from: nat, ghost hi: nat)
      requires Valid() && IsRoot(pos, root) && from <= a < hi <= PML4_PAGES && |c0| == cm.core.Length
      requires DeallocInv(t0, c0, pos, tables, cm.core[..], cm.end, root, from, a, hi)
      requires t in tables && |tables[t]| == ENTRIES && Leads(pos, root, 1, a / 512, t)
      requires tables[t][Index(1, a)] == Entry(t0, root, a)
      modifies this`tables, cm, cm.core
      ensures Valid()
      ensures DeallocInv(t0, c0, pos, tables, cm.core[..], cm.end, root, from, a + 1, hi)
    {
      ghost var t1, c1 := tables, cm.core[..];
      if tables[t][Index(1, a)].present {
        PpnsPrefix(t0, root, from, a + 1, hi);
        ReleaseEntry(t, Index(1, a), c0, Ppns(t0, root, from, hi), Ppns(t0, root, from, a));
        ReleaseStep(t0, c0, pos, t1, c1, cm.end, root, from, a, hi, t, tables, cm.core[..]);
      } else {
        SkipStep(t0, c0, pos, t1, c1, cm.end, root, from, a, a + 1, hi);
      }
    }

    /** One turn of deallocuvm's loop, up to the increment. */
    method DeallocStep(root: Frame, a: nat, ghost t0: Tables, ghost c0: seq<CoreEntry>, ghost from: nat, ghost hi: nat)
      returns (next: nat)
      requires Valid() && IsRoot(pos, root) && from <= a < hi <= PML4_PAGES && |c0| == cm.core.Length
      requires Tree(t0, pos) && DeallocInv(t0, c0, pos, tables, cm.core[..], cm.end, root, from, a, hi)
      requires !Stuck(t0, root, a)
      modifies this, cm, cm.core
      ensures Valid() && pos == old(pos)
      ensures a <= next < PML4_PAGES && next + 1 == NextPage(t0, root, a)
      ensures DeallocInv(t0, c0, pos, tables, cm.core[..], cm.end, root, from, next + 1, hi)
    {
      StepFacts(t0, pos, tables, root, from, a);
      var pte := WalkPml4(root, a, false);
      if pte.None? {
        next := FindNext(root, a);
        SkipStep(t0, c0, pos, tables, cm.core[..], cm.end, root, from, a, next + 1, hi);
      } else {
        next := a;
        ReleasePage(root, a, pte.value, t0, c0, from, hi);
      }
    }

    /** deallocuvm's loop, over the pages [from, hi). */
    method DeallocRange(root: Frame, from: nat, hi: nat)
      requires Valid() && IsRoot(pos, root) && from <= hi <= PML4_PAGES
      requires forall v :: from <= v < hi ==> !Stuck(tables, root, v)
      requires Releasable(cm.core[..], cm.end, tables, Ppns(tables, root, from, hi))
      modifies this, cm, cm.core
      ensures Valid() && pos == old(pos)
      ensures cm.core[..] == FreeAll(old(cm.core[..]), Ppns(old(tables), root, from, hi))
      ensures Cleared(old(tables), pos, tables, root, from, hi)
    {
      ghost var t0, c0, p0 := tables, cm.core[..], pos;
      var a := from;
      DeallocStart(t0, c0, pos, cm.end, root, from, hi);
      while a < hi
        invariant from <= a <= PML4_PAGES && Valid() && pos == p0 && |c0| == cm.core.Length
        invariant DeallocInv(t0, c0, pos, tables, cm.core[..], cm.end, root, from, a, hi)
        decreases PML4_PAGES - a
      {
        a := DeallocStep(root, a, t0, c0, from, hi);
        a := a + 1;
      }
      DeallocDone(t0, c0, pos, tables, cm.core[..], cm.end, root, from, a, hi);
    }

    /** deallocuvm: skips over missing tables, yet frees exactly what a loop over every page of the
        range would, in the same order, and clears those entries and no others. */
    method Deallocuvm(root: Frame, start: nat, oldsz: nat, newsz: nat) returns (sz: nat)
      requires Valid() && IsRoot(pos, root) && start + oldsz <= PML4_PAGES * 4096
      requires newsz < oldsz ==> forall v :: FirstPage(start, newsz) <= v < FirstPage(start, oldsz) ==> !Stuck(tables, root, v)
      requires newsz < oldsz ==>
                 Releasable(cm.core[..], cm.end, tables, Ppns(tables, root, FirstPage(start, newsz), FirstPage(start, oldsz)))
      modifies this, cm, cm.core
      ensures Valid() && pos == old(pos)
      ensures newsz >= oldsz ==> sz == oldsz && tables == old(tables) && cm.core[..] == old(cm.core[..])
      ensures newsz < oldsz ==>
                && sz == newsz
                && cm.core[..] == FreeAll(old(cm.core[..]), Ppns(old(tables), root, FirstPage(start, newsz), FirstPage(start, oldsz)))
                && Cleared(old(tables), pos, tables, root, FirstPage(start, newsz), FirstPage(start, oldsz))
    {
      if newsz >= oldsz {
        return oldsz;
      }
      DeallocRange(root, FirstPage(start, newsz), FirstPage(start, oldsz));
      return newsz;
    }

    /** kfree of a table: the frame is available again and the table is gone. */
    method FreeTable(f: Frame, ghost t0: Tables, ghost p0: map<Frame, Pos>, ghost c0: seq<CoreEntry>, ghost gone: set<Frame>)
      requires cm.Valid() && AllHeld(t0, c0, cm.end)
      requires Torn(t0, p0, c0, gone, tables, pos, cm.core[..]) && f in t0 && f !in gone
      modifies this, cm, cm.core
      ensures cm.Valid() && Torn(t0, p0, c0, gone + {f}, tables, pos, cm.core[..])
    {
      TearOne(t0, p0, c0, cm.end, gone, tables, pos, cm.core[..], f);
      var ok := cm.Kfree(f);
      tables := tables - {f};
      pos := pos - {f};
    }

    /** freevm_pgdir: frees the last-level tables of a page directory, then the directory. */
    method FreevmPgdir(pgdir: Frame, ghost t0: Tables, ghost p0: map<Frame, Pos>, ghost c0: seq<CoreEntry>, ghost gone: set<Frame>)
      requires cm.Valid() && AllHeld(t0, c0, cm.end) && Tree(t0, p0)
      requires Torn(t0, p0, c0, gone, tables, pos, cm.core[..])
      requires pgdir in p0 && p0[pgdir].level == 2 && pgdir !in gone
      requires PgdirSet(p0, p0[pgdir].root, p0[pgdir].prefix, 512) !! gone
      modifies this, cm, cm.core
      ensures cm.Valid()
      ensures Torn(t0, p0, c0, gone + PgdirSet(p0, p0[pgdir].root, p0[pgdir].prefix, 512) + {pgdir}, tables, pos, cm.core[..])
    {
      assert NodeOk(t0, p0, pgdir);
      ghost var root, prefix, cur := p0[pgdir].root, p0[pgdir].prefix, gone;
      assert gone == gone + PgdirSet(p0, root, prefix, 0);
      var i := 0;
      while i < ENTRIES
        invariant 0 <= i <= ENTRIES && cm.Valid() && cur == gone + PgdirSet(p0, root, prefix, i)
        invariant Torn(t0, p0, c0, cur, tables, pos, cm.core[..])
      {
        PgdirSetGrows(t0, p0, pgdir, i);
        if tables[pgdir][i].present {
          var c := tables[pgdir][i].ppn;
          assert NodeOk(t0, p0, c);
          assert c in PgdirSet(p0, root, prefix, 512);
          FreeTable(c, t0, p0, c0, cur);
          cur := cur + {c};
        }
        i := i + 1;
      }
      FreeTable(pgdir, t0, p0, c0, cur);
    }

    /** freevm_pdpt: frees every table under a page directory pointer table, and the table itself. */
    method FreevmPdpt(pdpt: Frame, ghost t0: Tables, ghost p0: map<Frame, Pos>, ghost c0: seq<CoreEntry>, ghost gone: set<Frame>)
      requires cm.Valid() && AllHeld(t0, c0, cm.end) && Tree(t0, p0)
      requires Torn(t0, p0, c0, gone, tables, pos, cm.core[..])
      requires pdpt in p0 && p0[pdpt].level == 3
      requires TopSet(p0, p0[pdpt].root, p0[pdpt].prefix) !! gone
      modifies this, cm, cm.core
      ensures cm.Valid()
      ensures Torn(t0, p0, c0, gone + TopSet(p0, p0[pdpt].root, p0[pdpt].prefix), tables, pos, cm.core[..])
    {
      assert NodeOk(t0, p0, pdpt);
      ghost var root, prefix, cur := p0[pdpt].root, p0[pdpt].prefix, gone;
      assert gone == gone + PdptSet(p0, root, prefix, 0);
      PdptSetIsTopSet(t0, p0, pdpt);
      var i := 0;
      while i < ENTRIES
        invariant 0 <= i <= ENTRIES && cm.Valid() && cur == gone + PdptSet(p0, root, prefix, i)
        invariant Torn(t0, p0, c0, cur, tables, pos, cm.core[..])
      {
        PdptSetGrows(t0, p0, pdpt, i);
        if tables[pdpt][i].present {
          var c := tables[pdpt][i].ppn;
          PgdirIsNext(t0, p0, pdpt, c, i, gone);
          FreevmPgdir(c, t0, p0, c0, cur);
          cur := cur + PgdirSet(p0, root, p0[c].prefix, 512) + {c};
        }
        i := i + 1;
      }
      FreeTable(pdpt, t0, p0, c0, cur);
      assert cur + {pdpt} == gone + TopSet(p0, root, prefix);
    }

    /** setupkvm's first step: a cleared PML4. */
    method NewRoot() returns (r: Option<Frame>)
      requires Valid()
      modifies this, cm, cm.core
      ensures Valid()
      ensures r.None? ==> tables == old(tables) && pos == old(pos) && cm.core[..] == old(cm.core[..])
      ensures r.None? ==> Available(cm.core[..]) == {}
      ensures r.Some? ==>
                && r.value < |old(cm.core[..])| && old(cm.core[..])[r.value].available && r.value !in old(tables)
                && tables == NewRootTables(old(tables), r.value) && pos == NewRootPos(old(pos), r.value)
                && cm.core[..] == old(cm.core[..])[r.value := old(cm.core[..])[r.value].(available := false, refcount := 1)]
    {
      ghost var core0 := cm.core[..];
      r := cm.Kalloc();
      if r.None? {
        return;
      }
      var g := r.value;
      assert Held(tables, core0, cm.end, g) && NodeOk(tables, pos, g);
      NewRootKeepsTree(tables, pos, g);
      forall h: Frame ensures Held(NewRootTables(tables, g), cm.core[..], cm.end, h) {
        assert Held(tables, core0, cm.end, h);
      }
      tables, pos := NewRootTables(tables, g), NewRootPos(pos, g);
    }

    /** The first loop of vspaceupdate, which frees the tables under the PML4 entries up to that of
        the 4 GB mark, which is the first: every user page below 512 GB loses its entry, no other page
        does, and the tables freed are exactly those. */
    method ClearUser(root: Frame)
      requires Valid() && IsRoot(pos, root)
      modifies this, cm, cm.core
      ensures Valid() && IsRoot(pos, root) && pos == old(pos) - TopSet(old(pos), root, 0)
      ensures forall f: Frame :: TornAt(old(cm.core[..]), TopSet(old(pos), root, 0), cm.core[..], f)
      ensures UserCleared(old(tables), old(pos), tables, root)
    {
      ghost var t0, p0, c0 := tables, pos, cm.core[..];
      assert NodeOk(tables, pos, root);
      assert EntryOk(tables, pos, root, 0);
      if tables[root][0].present {
        var pdpt := tables[root][0].ppn;
        TornStart(t0, p0, c0);
        FreevmPdpt(pdpt, t0, p0, c0, {});
        ghost var gone := TopSet(p0, root, 0);
        assert {} + gone == gone;
        UnlinkKeepsTree(t0, p0, root, 0);
        tables := SetEntry(tables, root, 0, NO_ENTRY);
        UserClearedAfter(t0, p0, c0, cm.end, root, cm.core[..]);
      } else {
        NoTopSet(t0, p0, root, 0);
        NothingToClear(t0, p0, c0, root);
      }
    }

    /** freevm: releases the data frames mapped below 4 GB, then frees every table of the address
        space once, the PML4 last. */
    method Freevm(root: Frame)
      requires Valid() && IsRoot(pos, root)
      requires forall v :: 0 <= v < USER_PAGES ==> !Stuck(tables, root, v)
      requires Releasable(cm.core[..], cm.end, tables, Ppns(tables, root, 0, USER_PAGES))
      modifies this, cm, cm.core
      ensures Valid() && pos == old(pos) - RootSet(old(pos), root)
      ensures forall f: Frame ::
                TornAt(FreeAll(old(cm.core[..]), Ppns(old(tables), root, 0, USER_PAGES)), RootSet(old(pos), root), cm.core[..], f)
      ensures forall r: Frame, v: nat :: OthersKeptAt(old(tables), old(pos), tables, root, r, v)
    {
      ghost var tt, p0 := tables, pos;
      var sz := Deallocuvm(root, 0, USER_PAGES * 4096, 0);
      ghost var t0, c0 := tables, cm.core[..];
      TornStart(t0, p0, c0);
      assert NodeOk(t0, p0, root);
      FreeTopTables(root, t0, p0, c0);
      FreeTable(root, t0, p0, c0, Pml4Set(p0, root, 512));
      RootSetIsAll(t0, p0, root);
      RemoveRootKeepsTree(t0, p0, root);
      FreevmDone(tt, t0, p0, c0, cm.end, root, cm.core[..]);
    }

    /** freevm's loop over the PML4. */
    method FreeTopTables(root: Frame, ghost t0: Tables, ghost p0: map<Frame, Pos>, ghost c0: seq<CoreEntry>)
      requires cm.Valid() && AllHeld(t0, c0, cm.end) && Tree(t0, p0) && IsRoot(p0, root)
      requires Torn(t0, p0, c0, {}, tables, pos, cm.core[..])
      modifies this, cm, cm.core
      ensures cm.Valid() && Torn(t0, p0, c0, Pml4Set(p0, root, 512), tables, pos, cm.core[..])
    {
      assert NodeOk(t0, p0, root);
      ghost var cur: set<Frame> := {};
      assert cur == Pml4Set(p0, root, 0);
      var i := 0;
      while i < ENTRIES
        invariant 0 <= i <= ENTRIES && cm.Valid() && cur == Pml4Set(p0, root, i)
        invariant Torn(t0, p0, c0, cur, tables, pos, cm.core[..])
      {
        Pml4SetGrows(p0, root, i);
        assert EntryOk(t0, p0, root, i);
        if tables[root][i].present {
          FreevmPdpt(tables[root][i].ppn, t0, p0, c0, cur);
          cur := cur + TopSet(p0, root, i);
        } else {
          NoTopSet(t0, p0, root, i);
        }
        i := i + 1;
      }
    }
  }

  const USER_PAGES: nat := 1048576  // SZ_4G, in pages

  predicate UserClearedAt(tables: Tables, pos: map<Frame, Pos>, tables': Tables, root: Frame, r: Frame, v: nat) {
    IsRoot(pos, r) && v < ALL_PAGES ==>
      Entry(tables', r, v) == if r == root && v < PML4_PAGES then NO_ENTRY else Entry(tables, r, v)
  }

  ghost predicate UserCleared(tables: Tables, pos: map<Frame, Pos>, tables': Tables, root: Frame) {
    forall r: Frame, v: nat :: UserClearedAt(tables, pos, tables', root, r, v)
  }

  predicate OthersKeptAt(tables: Tables, pos: map<Frame, Pos>, tables': Tables, root: Frame, r: Frame, v: nat) {
    IsRoot(pos, r) && r != root && v < ALL_PAGES ==> Entry(tables', r, v) == Entry(tables, r, v)
  }

  lemma TornStart(t0: Tables, p0: map<Frame, Pos>, c0: seq<CoreEntry>)
    ensures Torn(t0, p0, c0, {}, t0, p0, c0)
  {
    assert t0 - {} == t0 && p0 - {} == p0;
    forall f: Frame ensures TornAt(c0, {}, c0, f) {
    }
  }

  lemma HeldAfterTearing(t0: Tables, c0: seq<CoreEntry>, end: nat, gone: set<Frame>, core: seq<CoreEntry>)
    requires AllHeld(t0, c0, end) && |core| == |c0| && forall f: Frame :: TornAt(c0, gone, core, f)
    ensures AllHeld(t0 - gone, core, end)
  {
    forall f: Frame ensures Held(t0 - gone, core, end, f) {
      assert Held(t0, c0, end, f) && TornAt(c0, gone, core, f);
    }
  }

  lemma UserClearedAfter(t0: Tables, p0: map<Frame, Pos>, c0: seq<CoreEntry>, end: nat, root: Frame, core: seq<CoreEntry>)
    requires Tree(t0, p0) && IsRoot(p0, root) && root in t0 && |t0[root]| == ENTRIES
    requires AllHeld(t0, c0, end) && |core| == |c0| && forall f: Frame :: TornAt(c0, TopSet(p0, root, 0), core, f)
    ensures root !in TopSet(p0, root, 0)
    ensures UserCleared(t0, p0, SetEntry(t0 - TopSet(p0, root, 0), root, 0, NO_ENTRY), root)
    ensures AllHeld(SetEntry(t0 - TopSet(p0, root, 0), root, 0, NO_ENTRY), core, end)
  {
    var gone := TopSet(p0, root, 0);
    var tables := SetEntry(t0 - gone, root, 0, NO_ENTRY);
    forall r: Frame, v: nat ensures UserClearedAt(t0, p0, tables, root, r, v) {
      if IsRoot(p0, r) && v < ALL_PAGES {
        UnlinkEntries(t0, p0, root, 0, r, v);
      }
    }
    HeldAfterTearing(t0, c0, end, gone, core);
    HeldAfterSet(t0 - gone, core, end, root, 0, NO_ENTRY);
  }

  lemma NothingToClear(t0: Tables, p0: map<Frame, Pos>, c0: seq<CoreEntry>, root: Frame)
    requires Tree(t0, p0) && IsRoot(p0, root) && Child(t0, root, 0).None? && TopSet(p0, root, 0) == {}
    ensures UserCleared(t0, p0, t0, root) && p0 - TopSet(p0, root, 0) == p0
    ensures forall f: Frame :: TornAt(c0, TopSet(p0, root, 0), c0, f)
  {
    forall r: Frame, v: nat ensures UserClearedAt(t0, p0, t0, root, r, v) {
      assert v < PML4_PAGES ==> Index(4, v) == 0;
    }
  }

  lemma FreevmDone(tt: Tables, t0: Tables, p0: map<Frame, Pos>, c0: seq<CoreEntry>, end: nat, root: Frame, core: seq<CoreEntry>)
    requires Tree(t0, p0) && IsRoot(p0, root) && Cleared(tt, p0, t0, root, 0, USER_PAGES)
    requires AllHeld(t0, c0, end) && |core| == |c0| && forall f: Frame :: TornAt(c0, RootSet(p0, root), core, f)
    ensures AllHeld(t0 - RootSet(p0, root), core, end)
    ensures forall r: Frame, v: nat :: OthersKeptAt(tt, p0, t0 - RootSet(p0, root), root, r, v)
  {
    HeldAfterTearing(t0, c0, end, RootSet(p0, root), core);
    var tables := t0 - RootSet(p0, root);
    forall r: Frame, v: nat ensures OthersKeptAt(tt, p0, tables, root, r, v) {
      if IsRoot(p0, r) && r != root && v < ALL_PAGES {
        RemoveRootEntries(t0, p0, root, r, v);
        assert ClearedAt(tt, p0, t0, root, 0, USER_PAGES, r, v);
      }
    }
  }

  /** Teardown under way: the tables in `gone`, out of those in t0, have been freed, each once. */
  ghost predicate Torn(t0: Tables, p0: map<Frame, Pos>, c0: seq<CoreEntry>, gone: set<Frame>,
                       tables: Tables, pos: map<Frame, Pos>, core: seq<CoreEntry>) {
    && tables == t0 - gone && pos == p0 - gone && |core| == |c0|
    && forall f: Frame :: TornAt(c0, gone, core, f)
  }

  predicate TornAt(c0: seq<CoreEntry>, gone: set<Frame>, core: seq<CoreEntry>, f: Frame) {
    f < |c0| == |core| ==> core[f] == if f in gone then CoreEntry(true, false, 0, 0) else c0[f]
  }

  lemma TearOne(t0: Tables, p0: map<Frame, Pos>, c0: seq<CoreEntry>, end: nat, gone: set<Frame>,
                tables: Tables, pos: map<Frame, Pos>, core: seq<CoreEntry>, f: Frame)
    requires Torn(t0, p0, c0, gone, tables, pos, core) && AllHeld(t0, c0, end) && f in t0 && f !in gone
    ensures end <= f < |core| && !core[f].available
    ensures Torn(t0, p0, c0, gone + {f}, tables - {f}, pos - {f}, core[f := Released(core[f])])
  {
    assert Held(t0, c0, end, f) && TornAt(c0, gone, core, f);
    var gone', core' := gone + {f}, core[f := Released(core[f])];
    forall g: Frame ensures TornAt(c0, gone', core', g) {
      assert TornAt(c0, gone, core, g);
    }
    assert t0 - gone' == (t0 - gone) - {f} && p0 - gone' == (p0 - gone) - {f};
  }

  /** The directory at entry i has not been freed with the ones before it. */
  lemma PgdirIsNext(t0: Tables, p0: map<Frame, Pos>, pdpt: Frame, c: Frame, i: nat, gone: set<Frame>)
    requires Tree(t0, p0) && pdpt in p0 && p0[pdpt].level == 3 && i < ENTRIES
    requires Leads(p0, p0[pdpt].root, 2, p0[pdpt].prefix * 512 + i, c)
    requires TopSet(p0, p0[pdpt].root, p0[pdpt].prefix) !! gone
    ensures var before := gone + PdptSet(p0, p0[pdpt].root, p0[pdpt].prefix, i);
            c !in before && PgdirSet(p0, p0[c].root, p0[c].prefix, 512) !! before
  {
    var root, prefix := p0[pdpt].root, p0[pdpt].prefix;
    assert UnderTop(p0, root, prefix, c);
    forall f | f in PgdirSet(p0, root, p0[c].prefix, 512) ensures f !in gone && f !in PdptSet(p0, root, prefix, i) {
      assert p0[f].prefix / 512 / 512 == p0[f].prefix / 262144;
      assert UnderTop(p0, root, prefix, f);
    }
  }

  /** deallocuvm's loop invariant with the cursor at page a: what a loop over every page of [from, a)
      would have freed is freed and cleared, and nothing else. */
  ghost predicate DeallocInv(t0: Tables, c0: seq<CoreEntry>, pos: map<Frame, Pos>, tables: Tables, core: seq<CoreEntry>,
                             end: nat, root: Frame, from: nat, a: nat, hi: nat) {
    && tables.Keys == t0.Keys
    && (forall f: Frame :: UpperSame(t0, pos, tables, f))
    && Cleared(t0, pos, tables, root, from, a)
    && core == FreeAll(c0, Ppns(t0, root, from, a))
    && Releasable(c0, end, tables, Ppns(t0, root, from, hi))
    && (forall u :: hi <= u < a ==> !Entry(t0, root, u).present)
  }

  /** The first page that does not begin before byte start + sz: PGROUNDUP, as a page number. */
  function FirstPage(start: nat, sz: nat): nat {
    (start + sz + 4095) / 4096
  }

  lemma DeallocStart(t0: Tables, c0: seq<CoreEntry>, pos: map<Frame, Pos>, end: nat, root: Frame, from: nat, hi: nat)
    requires Tree(t0, pos) && Releasable(c0, end, t0, Ppns(t0, root, from, hi)) && from <= hi
    ensures DeallocInv(t0, c0, pos, t0, c0, end, root, from, from, hi)
  {
    forall f: Frame ensures UpperSame(t0, pos, t0, f) {
      assert NodeOk(t0, pos, f);
    }
    forall r: Frame, v: nat ensures ClearedAt(t0, pos, t0, root, from, from, r, v) {
    }
  }

  /** The walk in the changed tables goes where it went in the first place, and what it finds there is
      still what was there. */
  lemma StepFacts(t0: Tables, pos: map<Frame, Pos>, tables: Tables, root: Frame, from: nat, a: nat)
    requires Tree(t0, pos) && Tree(tables, pos) && IsRoot(pos, root) && from <= a < PML4_PAGES && !Stuck(t0, root, a)
    requires forall f: Frame :: UpperSame(t0, pos, tables, f)
    requires Cleared(t0, pos, tables, root, from, a)
    ensures NextPage(tables, root, a) == NextPage(t0, root, a) && a < NextPage(t0, root, a) <= PML4_PAGES
    ensures Walk(tables, root, a).None? ==> forall u :: a <= u < NextPage(t0, root, a) ==> !Entry(t0, root, u).present
    ensures Walk(tables, root, a).Some? ==>
              var t := Walk(tables, root, a).value;
              && NextPage(t0, root, a) == a + 1 && t in tables && |tables[t]| == ENTRIES
              && Leads(pos, root, 1, a / 512, t) && tables[t][Index(1, a)] == Entry(t0, root, a)
  {
    WalkKept(t0, pos, tables, root, a);
    NextPageSkipsNothing(t0, root, a);
    assert ClearedAt(t0, pos, tables, root, from, a, root, a);
    WalkSound(tables, pos, root, a);
    if Walk(tables, root, a).Some? {
      assert NodeOk(tables, pos, Walk(tables, root, a).value);
    }
  }

  lemma SkipStep(t0: Tables, c0: seq<CoreEntry>, pos: map<Frame, Pos>, tables: Tables, core: seq<CoreEntry>,
                 end: nat, root: Frame, from: nat, a: nat, a': nat, hi: nat)
    requires DeallocInv(t0, c0, pos, tables, core, end, root, from, a, hi) && from <= a <= a'
    requires forall u :: a <= u < a' ==> !Entry(t0, root, u).present
    ensures DeallocInv(t0, c0, pos, tables, core, end, root, from, a', hi)
  {
    ClearedSkip(t0, pos, tables, root, from, a, a');
    SkipKeepsPpns(t0, root, from, a, a');
  }

  lemma ReleaseStep(t0: Tables, c0: seq<CoreEntry>, pos: map<Frame, Pos>, tables: Tables, core: seq<CoreEntry>,
                    end: nat, root: Frame, from: nat, a: nat, hi: nat, t: Frame, tables': Tables, core': seq<CoreEntry>)
    requires DeallocInv(t0, c0, pos, tables, core, end, root, from, a, hi) && from <= a < hi <= PML4_PAGES
    requires Tree(tables, pos) && IsRoot(pos, root) && Leads(pos, root, 1, a / 512, t) && Entry(t0, root, a).present
    requires t in tables && |tables[t]| == ENTRIES && tables' == SetEntry(tables, t, Index(1, a), NO_ENTRY)
    requires core' == FreeAll(c0, Ppns(t0, root, from, a) + [Entry(t0, root, a).ppn])
    requires Releasable(c0, end, tables', Ppns(t0, root, from, hi))
    ensures DeallocInv(t0, c0, pos, tables', core', end, root, from, a + 1, hi)
  {
    ClearedOne(t0, pos, tables, root, from, a, t);
    UpperAfterSet(t0, pos, tables, t, Index(1, a), NO_ENTRY);
  }

  /** The cursor may end past the range, but only over pages without an entry. */
  lemma DeallocDone(t0: Tables, c0: seq<CoreEntry>, pos: map<Frame, Pos>, tables: Tables, core: seq<CoreEntry>,
                    end: nat, root: Frame, from: nat, a: nat, hi: nat)
    requires DeallocInv(t0, c0, pos, tables, core, end, root, from, a, hi) && from <= hi <= a
    ensures core == FreeAll(c0, Ppns(t0, root, from, hi)) && Cleared(t0, pos, tables, root, from, hi)
  {
    SkipKeepsPpns(t0, root, from, hi, a);
    forall r: Frame, v: nat ensures ClearedAt(t0, pos, tables, root, from, hi, r, v) {
      assert ClearedAt(t0, pos, tables, root, from, a, r, v);
    }
  }

  /** Freeing a frame that is no table's keeps the tables' frames allocated. */
  lemma HeldAfterFree(tables: Tables, core: seq<CoreEntry>, end: nat, f: Frame, core': seq<CoreEntry>)
    requires AllHeld(tables, core, end) && f < |core| && f !in tables && core' == core[f := Released(core[f])]
    ensures AllHeld(tables, core', end)
  {
    forall h: Frame ensures Held(tables, core', end, h) {
      assert Held(tables, core, end, h);
    }
  }

  lemma UpperAfterSet(tables: Tables, pos: map<Frame, Pos>, tables1: Tables, t: Frame, i: nat, e: Pte)
    requires forall f: Frame :: UpperSame(tables, pos, tables1, f)
    requires t in tables1 && i < |tables1[t]| && t in pos && pos[t].level == 1
    ensures forall f: Frame :: UpperSame(tables, pos, SetEntry(tables1, t, i, e), f)
  {
    var tables' := SetEntry(tables1, t, i, e);
    forall f: Frame ensures UpperSame(tables, pos, tables', f) {
      assert UpperSame(tables, pos, tables1, f);
    }
  }

  lemma WidenGrowth(pos: map<Frame, Pos>, core: seq<CoreEntry>, pos': map<Frame, Pos>, core': seq<CoreEntry>,
                    root: Frame, lo: nat, hi: nat, hi': nat)
    requires Grown(pos, core, pos', core', root, lo, hi) && hi <= hi'
    ensures Grown(pos, core, pos', core', root, lo, hi')
  {
    forall f: Frame ensures GrownAt(pos, core, pos', core', root, lo, hi', f) {
      assert GrownAt(pos, core, pos', core', root, lo, hi, f);
      if f in pos' && f !in pos {
        var v :| lo <= v < hi && OnPath(pos'[f], v);
      }
    }
  }

  lemma HeldAfterSet(tables: Tables, core: seq<CoreEntry>, end: nat, t: Frame, i: nat, e: Pte)
    requires AllHeld(tables, core, end) && t in tables && i < |tables[t]|
    ensures AllHeld(SetEntry(tables, t, i, e), core, end)
  {
    forall f: Frame ensures Held(SetEntry(tables, t, i, e), core, end, f) {
      assert Held(tables, core, end, f);
    }
  }

  /** mark_user_mem changes no count. */
  lemma MarkKeeps(pos: map<Frame, Pos>, core: seq<CoreEntry>, tables': Tables, pos': map<Frame, Pos>, core1: seq<CoreEntry>,
                  end: nat, core2: seq<CoreEntry>, root: Frame, lo: nat, hi: nat)
    requires Grown(pos, core, pos', core1, root, lo, hi) && AllHeld(tables', core1, end)
    requires |core2| == |core1| && forall f :: 0 <= f < |core1| ==> SameCount(core1[f], core2[f])
    ensures Grown(pos, core, pos', core2, root, lo, hi) && AllHeld(tables', core2, end)
  {
    forall f: Frame ensures GrownAt(pos, core, pos', core2, root, lo, hi, f) {
      assert GrownAt(pos, core, pos', core1, root, lo, hi, f);
    }
    forall f: Frame ensures Held(tables', core2, end, f) {
      assert Held(tables', core1, end, f);
    }
  }
}
