/** How deallocuvm's cursor moves: page by page where there is a last-level table, and by
    find_next_possible_page over what is missing. Addresses are page numbers. */
module Dealloc {
  import opened Prelude
  import opened Kalloc
  import opened PageTable

  // ---- PGADDR joins the indices with bitwise or ----

  function Shl(a: nat, k: nat): nat {
    if k == 0 then a else 2 * Shl(a, k - 1)
  }

  function Or(a: nat, b: nat): nat {
    if a == 0 then b
    else if b == 0 then a
    else 2 * Or(a / 2, b / 2) + if a % 2 == 1 || b % 2 == 1 then 1 else 0
  }

  /** PGADDR, without the byte offset. */
  function PgAddr(l4: nat, l3: nat, d: nat, t: nat): nat {
    Or(Or(Or(Shl(l4, 27), Shl(l3, 18)), Shl(d, 9)), t)
  }

  lemma {:induction false} ShlSum(a: nat, j: nat, k: nat)
    ensures Shl(Shl(a, j), k) == Shl(a, j + k)
  {
    if k > 0 { ShlSum(a, j, k - 1); }
  }

  lemma ShlNine(a: nat)
    ensures Shl(a, 9) == 512 * a
  {
    assert Shl(a, 1) == 2 * a;
    assert Shl(a, 2) == 4 * a;
    assert Shl(a, 3) == 8 * a;
    assert Shl(a, 4) == 16 * a;
    assert Shl(a, 5) == 32 * a;
    assert Shl(a, 6) == 64 * a;
    assert Shl(a, 7) == 128 * a;
    assert Shl(a, 8) == 256 * a;
  }

  lemma ShlValues(a: nat)
    ensures Shl(a, 9) == 512 * a && Shl(a, 18) == 262144 * a && Shl(a, 27) == 134217728 * a
  {
    ShlNine(a);
    ShlNine(512 * a);
    ShlSum(a, 9, 9);
    ShlNine(262144 * a);
    ShlSum(a, 18, 9);
  }

  lemma {:induction false} OrOfShifted(a: nat, b: nat, k: nat)
    ensures Or(Shl(a, k), Shl(b, k)) == Shl(Or(a, b), k)
  {
    if k > 0 { OrOfShifted(a, b, k - 1); }
  }

  lemma {:induction false} OrOfDisjoint(a: nat, b: nat, k: nat)
    requires b < Shl(1, k)
    ensures Or(Shl(a, k), b) == Shl(a, k) + b
  {
    if k > 0 { OrOfDisjoint(a, b / 2, k - 1); }
  }

  /** With every index in range the or is a sum. */
  lemma PgAddrInRange(l3: nat, d: nat)
    requires d < 512
    ensures PgAddr(0, l3, d, 0) == 262144 * l3 + 512 * d
  {
    ShlValues(0);
    ShlValues(l3);
    ShlValues(d);
    ShlValues(1);
    OrOfDisjoint(l3, Shl(d, 9), 18);
  }

  /** A directory index of 512 should carry into the index above it; the or carries only when that
      index is even. */
  lemma PgAddrCarry(l3: nat)
    ensures PgAddr(0, l3, 512, 0) == 262144 * (if l3 % 2 == 0 then l3 + 1 else l3)
  {
    ShlValues(0);
    ShlValues(l3);
    ShlValues(512);
    ShlValues(1);
    assert Shl(512, 9) == Shl(1, 18);
    OrOfShifted(l3, 1, 18);
    assert Or(l3 / 2, 0) == l3 / 2;
    assert Or(l3, 1) == if l3 % 2 == 0 then l3 + 1 else l3;
    ShlValues(Or(l3, 1));
  }

  lemma PgAddrNextPml4()
    ensures PgAddr(1, 0, 0, 0) == PML4_PAGES
  {
    ShlValues(0);
    ShlValues(1);
  }

  // ---- the cursor ----

  /** find_next_possible_page: one page before the next one that could be mapped; None is the panic
      when no level is missing. */
  function FindNextPossiblePage(tables: Tables, root: Frame, vpn: nat): (r: Option<int>)
    ensures r.None? <==> Walk(tables, root, vpn).Some?
  {
    match Child(tables, root, Index(4, vpn))
    case None => Some(PgAddr(Index(4, vpn) + 1, 0, 0, 0) - 1)
    case Some(pdpt) =>
      match Child(tables, pdpt, Index(3, vpn))
      case None => Some(PgAddr(Index(4, vpn), Index(3, vpn) + 1, 0, 0) - 1)
      case Some(pgdir) =>
        if Child(tables, pgdir, Index(2, vpn)).None?
        then Some(PgAddr(Index(4, vpn), Index(3, vpn), Index(2, vpn) + 1, 0) - 1)
        else None
  }

  /** The page sits under directory slot 511 of an odd page-directory-pointer entry that is present,
      and that slot is empty. */
  predicate Stuck(tables: Tables, root: Frame, vpn: nat) {
    && Child(tables, root, Index(4, vpn)).Some?
    && Child(tables, Child(tables, root, Index(4, vpn)).value, Index(3, vpn)).Some?
    && Index(3, vpn) % 2 == 1 && Index(2, vpn) == 511
    && Walk(tables, root, vpn).None?
  }

  /** Where deallocuvm's loop goes from page vpn: to the next page, or past the missing table, except
      that from a stuck page it goes back to the start of that table's gigabyte. */
  function NextPage(tables: Tables, root: Frame, vpn: nat): nat {
    if Walk(tables, root, vpn).Some? then vpn + 1
    else if Child(tables, root, Index(4, vpn)).None? then (vpn / PML4_PAGES + 1) * PML4_PAGES
    else if Child(tables, Child(tables, root, Index(4, vpn)).value, Index(3, vpn)).None? then (vpn / 262144 + 1) * 262144
    else if Stuck(tables, root, vpn) then vpn / 262144 * 262144
    else (vpn / 512 + 1) * 512
  }

  /** That is where find_next_possible_page and the loop's increment lead. */
  lemma FindNextLeadsToNextPage(tables: Tables, root: Frame, vpn: nat)
    requires vpn < PML4_PAGES && Walk(tables, root, vpn).None?
    ensures FindNextPossiblePage(tables, root, vpn).value + 1 == NextPage(tables, root, vpn)
  {
    PgAddrValues(vpn);
  }

  /** The digits of a page number under the first PML4 entry. */
  lemma Digits(vpn: nat)
    requires vpn < PML4_PAGES
    ensures Index(4, vpn) == 0 && Index(3, vpn) == vpn / 262144 && vpn / 512 == 512 * Index(3, vpn) + Index(2, vpn)
  {
    DivChain(vpn);
  }

  /** The three addresses find_next_possible_page can form for a page under the first PML4 entry. */
  lemma PgAddrValues(vpn: nat)
    requires vpn < PML4_PAGES
    ensures Index(4, vpn) == 0 && Index(3, vpn) == vpn / 262144
    ensures PgAddr(Index(4, vpn) + 1, 0, 0, 0) == PML4_PAGES
    ensures PgAddr(Index(4, vpn), Index(3, vpn) + 1, 0, 0) == (vpn / 262144 + 1) * 262144
    ensures PgAddr(Index(4, vpn), Index(3, vpn), Index(2, vpn) + 1, 0) ==
            if Index(3, vpn) % 2 == 1 && Index(2, vpn) == 511 then vpn / 262144 * 262144 else (vpn / 512 + 1) * 512
  {
    Digits(vpn);
    PgAddrNextPml4();
    var l3, l2 := Index(3, vpn), Index(2, vpn);
    PgAddrInRange(l3 + 1, 0);
    if l2 < 511 {
      PgAddrInRange(l3, l2 + 1);
    } else {
      PgAddrCarry(l3);
    }
  }

  /** Numbers below the next multiple have the same quotient. */
  lemma SameQuotient(v: nat, u: nat)
    ensures v < u < (v / 262144 + 1) * 262144 ==> u / 262144 == v / 262144
    ensures v < u < (v / 512 + 1) * 512 ==> u / 512 == v / 512
  {
  }

  /** Off the stuck pages the cursor moves forward, and past no page that has an entry. */
  lemma NextPageSkipsNothing(tables: Tables, root: Frame, vpn: nat)
    requires vpn < PML4_PAGES && !Stuck(tables, root, vpn)
    ensures vpn < NextPage(tables, root, vpn) <= PML4_PAGES
    ensures forall u :: vpn < u < NextPage(tables, root, vpn) ==> Walk(tables, root, u).None?
  {
    Digits(vpn);
    forall u | vpn < u < NextPage(tables, root, vpn) ensures Walk(tables, root, u).None? {
      SkippedIsMissing(tables, root, vpn, u);
    }
  }

  lemma SkippedIsMissing(tables: Tables, root: Frame, vpn: nat, u: nat)
    requires vpn < PML4_PAGES && !Stuck(tables, root, vpn) && vpn < u < NextPage(tables, root, vpn) && u < PML4_PAGES
    ensures Walk(tables, root, u).None?
  {
    Digits(vpn);
    Digits(u);
    SameQuotient(vpn, u);
    if u / 512 == vpn / 512 {
      SameIndices(u, vpn);
    }
  }

  /** The loop's cursor after k turns, from page `from`; it stays put once it has reached `to`. */
  function Cursor(tables: Tables, root: Frame, from: nat, to: nat, k: nat): nat {
    if k == 0 then from
    else
      var c := Cursor(tables, root, from, to, k - 1);
      if c < to then NextPage(tables, root, c) else c
  }

  ghost predicate LoopEnds(tables: Tables, root: Frame, from: nat, to: nat) {
    exists k: nat :: Cursor(tables, root, from, to, k) >= to
  }

  /** No step jumps over a stuck page from below its 2 MB block, or from inside it. */
  lemma NextStaysBelow(tables: Tables, root: Frame, c: nat, v: nat)
    requires c <= v < PML4_PAGES && Stuck(tables, root, v)
    ensures NextPage(tables, root, c) <= v
  {
    assert Index(4, c) == 0 && Index(4, v) == 0;
    if c / 512 == v / 512 {
      assert Index(3, c) == Index(3, v) && Index(2, c) == Index(2, v);
    }
  }

  lemma {:induction false} StuckForever(tables: Tables, root: Frame, from: nat, to: nat, v: nat, k: nat)
    requires from <= v < to <= PML4_PAGES && Stuck(tables, root, v)
    ensures Cursor(tables, root, from, to, k) <= v
  {
    if k > 0 {
      StuckForever(tables, root, from, to, v, k - 1);
      NextStaysBelow(tables, root, Cursor(tables, root, from, to, k - 1), v);
    }
  }

  lemma {:induction false} CursorArrives(tables: Tables, root: Frame, from: nat, to: nat, k: nat)
    requires to <= PML4_PAGES
    requires forall v :: from <= v < to ==> !Stuck(tables, root, v)
    requires from <= Cursor(tables, root, from, to, k)
    ensures LoopEnds(tables, root, from, to)
    decreases if Cursor(tables, root, from, to, k) < to then to - Cursor(tables, root, from, to, k) else 0
  {
    var c := Cursor(tables, root, from, to, k);
    if c < to {
      NextPageSkipsNothing(tables, root, c);
      assert Cursor(tables, root, from, to, k + 1) == NextPage(tables, root, c);
      CursorArrives(tables, root, from, to, k + 1);
    }
  }

  /** deallocuvm's loop over [from, to) ends exactly when no page of the range is stuck. */
  lemma LoopEndsIff(tables: Tables, root: Frame, from: nat, to: nat)
    requires to <= PML4_PAGES
    ensures LoopEnds(tables, root, from, to) <==> forall v :: from <= v < to ==> !Stuck(tables, root, v)
  {
    if v :| from <= v < to && Stuck(tables, root, v) {
      forall k: nat ensures Cursor(tables, root, from, to, k) < to {
        StuckForever(tables, root, from, to, v, k);
      }
    } else {
      assert Cursor(tables, root, from, to, 0) == from;
      CursorArrives(tables, root, from, to, 0);
    }
  }

  /** Such a table: the second gigabyte has a directory whose last slot is empty. */
  lemma StuckTable() returns (tables: Tables, pos: map<Frame, Pos>, v: nat)
    ensures Tree(tables, pos) && IsRoot(pos, 1) && v < PML4_PAGES && Stuck(tables, 1, v)
    ensures forall from: nat, to: nat :: from <= v < to <= PML4_PAGES ==> !LoopEnds(tables, 1, from, to)
  {
    NewRootKeepsTree(map[], map[], 1);
    tables, pos := NewRootTables(map[], 1), NewRootPos(map[], 1);
    LinkKeepsTree(tables, pos, 1, 0, 2);
    tables, pos := LinkTables(tables, 1, 0, 2), LinkPos(pos, 1, 0, 2);
    LinkKeepsTree(tables, pos, 2, 1, 3);
    tables, pos := LinkTables(tables, 2, 1, 3), LinkPos(pos, 2, 1, 3);
    v := 262144 + 511 * 512;
    assert Stuck(tables, 1, v);
    forall from: nat, to: nat | from <= v < to <= PML4_PAGES ensures !LoopEnds(tables, 1, from, to) {
      LoopEndsIff(tables, 1, from, to);
    }
  }

  // ---- what it releases ----

  /** The frames a loop over every page of [from, to) would release, in order. */
  function Ppns(tables: Tables, root: Frame, from: nat, to: nat): seq<Frame> {
    if to <= from then []
    else
      var e := Entry(tables, root, to - 1);
      Ppns(tables, root, from, to - 1) + if e.present then [e.ppn] else []
  }

  lemma {:induction false} SkipKeepsPpns(tables: Tables, root: Frame, from: nat, mid: nat, hi: nat)
    requires from <= mid <= hi
    requires forall u :: mid <= u < hi ==> !Entry(tables, root, u).present
    ensures Ppns(tables, root, from, hi) == Ppns(tables, root, from, mid)
    decreases hi
  {
    if mid < hi { SkipKeepsPpns(tables, root, from, mid, hi - 1); }
  }

  lemma {:induction false} PpnsPrefix(tables: Tables, root: Frame, from: nat, mid: nat, hi: nat)
    requires from <= mid <= hi
    ensures Ppns(tables, root, from, mid) <= Ppns(tables, root, from, hi)
    decreases hi
  {
    if mid < hi { PpnsPrefix(tables, root, from, mid, hi - 1); }
  }

  /** Frame f may be released once more: the core map holds a reference for each time it is listed. */
  predicate ReleasableAt(core: seq<CoreEntry>, end: nat, tables: Tables, fs: seq<Frame>, f: Frame) {
    f in fs ==>
      && 0 < f && end <= f < |core| && !core[f].available && f !in tables
      && multiset(fs)[f] <= core[f].refcount
  }

  ghost predicate Releasable(core: seq<CoreEntry>, end: nat, tables: Tables, fs: seq<Frame>) {
    forall f: Frame :: ReleasableAt(core, end, tables, fs, f)
  }

  /** The next frame listed is still allocated, however often it was released before. */
  lemma NextIsAllocated(core: seq<CoreEntry>, end: nat, tables: Tables, fs: seq<Frame>, done: seq<Frame>, f: Frame)
    requires Releasable(core, end, tables, fs) && done + [f] <= fs
    ensures 0 < f && end <= f < |core| && f !in tables
    ensures !FreeAll(core, done)[f].available && FreeAll(core, done)[f].refcount > 0
    ensures FreeAll(core, done + [f]) == FreeOne(FreeAll(core, done), f)
  {
    assert fs == (done + [f]) + fs[|done| + 1..];
    assert multiset(fs) == multiset(done) + multiset{f} + multiset(fs[|done| + 1..]);
    assert f in fs && ReleasableAt(core, end, tables, fs, f);
    FreeAllDropsCounts(core, done, f);
    assert (done + [f])[..|done|] == done;
  }

  // ---- the loop writes only last-level tables ----

  predicate UpperSame(tables: Tables, pos: map<Frame, Pos>, tables': Tables, f: Frame) {
    f in pos && pos[f].level >= 2 ==> f in tables && f in tables' && tables'[f] == tables[f]
  }

  /** So the walk, and with it the cursor, goes the same way throughout. */
  lemma WalkKept(tables: Tables, pos: map<Frame, Pos>, tables': Tables, root: Frame, vpn: nat)
    requires Tree(tables, pos) && IsRoot(pos, root) && vpn < ALL_PAGES
    requires forall f: Frame :: UpperSame(tables, pos, tables', f)
    ensures Walk(tables', root, vpn) == Walk(tables, root, vpn)
    ensures Stuck(tables', root, vpn) == Stuck(tables, root, vpn)
    ensures NextPage(tables', root, vpn) == NextPage(tables, root, vpn)
  {
    assert UpperSame(tables, pos, tables', root) && EntryOk(tables, pos, root, Index(4, vpn));
    assert NodeOk(tables, pos, root);
    if Child(tables, root, Index(4, vpn)).Some? {
      var pdpt := Child(tables, root, Index(4, vpn)).value;
      assert UpperSame(tables, pos, tables', pdpt) && EntryOk(tables, pos, pdpt, Index(3, vpn));
      assert NodeOk(tables, pos, pdpt);
      if Child(tables, pdpt, Index(3, vpn)).Some? {
        assert UpperSame(tables, pos, tables', Child(tables, pdpt, Index(3, vpn)).value);
      }
    }
  }

  /** The flat map once the present pages of [from, a) are released. */
  predicate ClearedAt(tables: Tables, pos: map<Frame, Pos>, tables': Tables, root: Frame, from: nat, a: nat, r: Frame, v: nat) {
    IsRoot(pos, r) && v < ALL_PAGES ==>
      Entry(tables', r, v) ==
      if r == root && from <= v < a && Entry(tables, r, v).present then NO_ENTRY else Entry(tables, r, v)
  }

  ghost predicate Cleared(tables: Tables, pos: map<Frame, Pos>, tables': Tables, root: Frame, from: nat, a: nat) {
    forall r: Frame, v: nat :: ClearedAt(tables, pos, tables', root, from, a, r, v)
  }

  /** Passing over pages without an entry. */
  lemma ClearedSkip(tables: Tables, pos: map<Frame, Pos>, tables': Tables, root: Frame, from: nat, a: nat, a': nat)
    requires Cleared(tables, pos, tables', root, from, a) && from <= a <= a'
    requires forall u :: a <= u < a' ==> !Entry(tables, root, u).present
    ensures Cleared(tables, pos, tables', root, from, a')
  {
    forall r: Frame, v: nat ensures ClearedAt(tables, pos, tables', root, from, a', r, v) {
      assert ClearedAt(tables, pos, tables', root, from, a, r, v);
    }
  }

  /** Clearing one more entry. */
  lemma ClearedOne(tables: Tables, pos: map<Frame, Pos>, tables1: Tables, root: Frame, from: nat, a: nat, t: Frame)
    requires Tree(tables1, pos) && IsRoot(pos, root) && from <= a < ALL_PAGES
    requires Cleared(tables, pos, tables1, root, from, a) && Entry(tables, root, a).present
    requires t in tables1 && |tables1[t]| == ENTRIES && Leads(pos, root, 1, a / 512, t)
    ensures Cleared(tables, pos, SetEntry(tables1, t, Index(1, a), NO_ENTRY), root, from, a + 1)
  {
    var tables', a' := SetEntry(tables1, t, Index(1, a), NO_ENTRY), a + 1;
    forall r: Frame, v: nat ensures ClearedAt(tables, pos, tables', root, from, a', r, v) {
      if IsRoot(pos, r) && v < ALL_PAGES {
        assert ClearedAt(tables, pos, tables1, root, from, a, r, v);
        SetEntryAt(tables1, pos, t, Index(1, a), NO_ENTRY, r, v);
      }
    }
  }
}
