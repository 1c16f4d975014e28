/** Regions of an address space and the lists of `vpage_info`s behind them. */
module Regions {
  import opened Prelude
  import opened Kalloc
  import opened PageTable
  import opened CopyOnWrite

  const VPIPPAGE: nat := 169  // 4096 / 24 - 1
  const NREGIONS: nat := 3
  const VR_CODE: nat := 0
  const VR_HEAP: nat := 1
  const VR_USTACK: nat := 2

  datatype Dir = Up | Down

  /** A `vpi_page`: the frame it was allocated in and the infos it holds. The list links are the order
      of the pages in the region. */
  datatype VpiPage = VpiPage(frame: Frame, infos: seq<Vpi>)

  datatype Region = Region(dir: Dir, base: nat, size: nat, pages: seq<VpiPage>)

  datatype Space = Space(regions: seq<Region>, pgtbl: Frame)

  /** Where a region lies: the region without its list. */
  function Site(r: Region): Region {
    r.(pages := [])
  }

  function SitesOf(s: Space): seq<Region> {
    seq(|s.regions|, i requires 0 <= i < |s.regions| => Site(s.regions[i]))
  }

  /** Where the regions of all address spaces lie. */
  function Sites(spaces: map<nat, Space>): map<nat, seq<Region>> {
    map p | p in spaces :: SitesOf(spaces[p])
  }

  /** The same with another size for region r of pid. */
  function Widened(l: map<nat, seq<Region>>, pid: nat, r: nat, size: nat): map<nat, seq<Region>> {
    if pid in l && r < |l[pid]| then l[pid := l[pid][r := l[pid][r].(size := size)]] else l
  }

  const UNUSED: Vpi := Vpi(false, 0, false, false, false)

  /** va2vpi_idx. */
  function Va2VpiIdx(r: Region, va: nat): int {
    if r.dir.Up? then (va - r.base) / 4096 else (r.base - 1 - va) / 4096
  }

  /** x86perms, as a page table entry. */
  function X86Pte(v: Vpi): Pte {
    Pte(v.present, v.writable, true, v.ppn)
  }

  /** Number of infos the list has room for. */
  function Cap(r: Region): nat {
    |r.pages| * VPIPPAGE
  }

  predicate ListOk(r: Region) {
    forall j :: 0 <= j < |r.pages| ==> |r.pages[j].infos| == VPIPPAGE
  }

  /** The idx'th info of the region; past the end of the list nothing is used. */
  function At(r: Region, idx: nat): Vpi {
    if idx / VPIPPAGE < |r.pages| && |r.pages[idx / VPIPPAGE].infos| == VPIPPAGE
    then r.pages[idx / VPIPPAGE].infos[idx % VPIPPAGE] else UNUSED
  }

  function SetAt(r: Region, idx: nat, v: Vpi): Region
    requires ListOk(r) && idx < Cap(r)
  {
    var j := idx / VPIPPAGE;
    r.(pages := r.pages[j := VpiPage(r.pages[j].frame, r.pages[j].infos[idx % VPIPPAGE := v])])
  }

  /** Distinct indices are distinct slots of the list. */
  lemma SetAtOnly(r: Region, idx: nat, v: Vpi, idx': nat)
    requires ListOk(r) && idx < Cap(r)
    ensures At(SetAt(r, idx, v), idx') == if idx' == idx then v else At(r, idx')
    ensures ListOk(SetAt(r, idx, v)) && Cap(SetAt(r, idx, v)) == Cap(r)
  {
  }

  function EmptyInfos(): seq<Vpi> {
    seq(VPIPPAGE, _ => UNUSED)
  }

  /** A fresh, cleared vpi_page at the end of the list. */
  function Extend(r: Region, f: Frame): Region {
    r.(pages := r.pages + [VpiPage(f, EmptyInfos())])
  }

  lemma ExtendAt(r: Region, f: Frame, idx: nat)
    requires ListOk(r)
    ensures At(Extend(r, f), idx) == At(r, idx)
    ensures ListOk(Extend(r, f)) && Cap(Extend(r, f)) == Cap(r) + VPIPPAGE
  {
  }

  // ---- pages of a region ----

  /** Pages the region covers: [bottom, top) rounded out to whole pages. */
  function NumPages(r: Region): nat {
    (r.size + 4095) / 4096
  }

  /** VRBOT, as a page number. */
  function BotPage(r: Region): int {
    if r.dir.Up? then r.base / 4096 else r.base / 4096 - r.size / 4096
  }

  predicate InRegion(r: Region, vpn: nat) {
    BotPage(r) <= vpn < BotPage(r) + NumPages(r)
  }

  function IdxOf(r: Region, vpn: nat): int {
    if r.dir.Up? then vpn - r.base / 4096 else r.base / 4096 - 1 - vpn
  }

  function VpnOf(r: Region, idx: nat): int {
    if r.dir.Up? then r.base / 4096 + idx else r.base / 4096 - 1 - idx
  }

  /** What the region needs for vspaceupdate: page-aligned ends, below 512 GB, and a list long enough
      for every page it covers. */
  predicate RegionOk(r: Region) {
    && ListOk(r) && r.base % 4096 == 0 && NumPages(r) <= Cap(r)
    && (r.dir.Down? ==> r.size % 4096 == 0 && r.size <= r.base && r.base <= PML4_PAGES * 4096)
    && (r.dir.Up? ==> r.base + r.size <= PML4_PAGES * 4096)
  }

  lemma PageIndex(r: Region, vpn: nat)
    requires RegionOk(r) && InRegion(r, vpn)
    ensures 0 <= IdxOf(r, vpn) < NumPages(r) && VpnOf(r, IdxOf(r, vpn)) == vpn && vpn < PML4_PAGES
    ensures Va2VpiIdx(r, vpn * 4096) == IdxOf(r, vpn)
  {
  }

  lemma IndexPage(r: Region, idx: nat)
    requires RegionOk(r) && idx < NumPages(r)
    ensures 0 <= VpnOf(r, idx) < PML4_PAGES && InRegion(r, VpnOf(r, idx)) && IdxOf(r, VpnOf(r, idx)) == idx
  {
  }

  predicate SpaceOk(s: Space) {
    |s.regions| == NREGIONS && forall i :: 0 <= i < NREGIONS ==> RegionOk(s.regions[i])
  }

  /** Page vpn lies in region i and its info is in use. */
  predicate UsedIn(s: Space, i: nat, vpn: nat) {
    i < |s.regions| && InRegion(s.regions[i], vpn) && IdxOf(s.regions[i], vpn) >= 0
    && At(s.regions[i], IdxOf(s.regions[i], vpn)).used
  }

  /** The first of the regions before n that uses page vpn. */
  function FindUsed(s: Space, vpn: nat, n: nat): (r: Option<nat>)
    ensures r.Some? ==> r.value < n && UsedIn(s, r.value, vpn)
  {
    if 0 < n && UsedIn(s, 0, vpn) then Some(0)
    else if 1 < n && UsedIn(s, 1, vpn) then Some(1)
    else if 2 < n && UsedIn(s, 2, vpn) then Some(2)
    else None
  }

  function PteIn(s: Space, i: nat, vpn: nat): Pte
    requires UsedIn(s, i, vpn)
  {
    X86Pte(At(s.regions[i], IdxOf(s.regions[i], vpn)))
  }

  /** The entry the regions call for at page vpn. */
  function Wanted(s: Space, vpn: nat): Pte {
    match FindUsed(s, vpn, NREGIONS)
    case None => NO_ENTRY
    case Some(i) => PteIn(s, i, vpn)
  }

  predicate ReflectsAt(tables: Tables, s: Space, vpn: nat) {
    vpn < PML4_PAGES ==> Entry(tables, s.pgtbl, vpn) == Wanted(s, vpn)
  }

  /** The hardware table holds exactly what the regions say, for every user page. */
  ghost predicate Reflects(tables: Tables, s: Space) {
    forall vpn: nat :: ReflectsAt(tables, s, vpn)
  }

  predicate OnlyOneAt(s: Space, vpn: nat, i: nat) {
    UsedIn(s, i, vpn) ==> FindUsed(s, vpn, i) == None
  }

  /** No page is used by two regions. */
  ghost predicate NoOverlap(s: Space) {
    forall vpn: nat, i: nat :: OnlyOneAt(s, vpn, i)
  }

  /** Without overlap, what the table holds for a used page is that page's own info. */
  lemma WantedOfUsed(s: Space, i: nat, vpn: nat)
    requires NoOverlap(s) && i < NREGIONS && |s.regions| == NREGIONS && UsedIn(s, i, vpn)
    ensures FindUsed(s, vpn, NREGIONS) == Some(i) && Wanted(s, vpn) == PteIn(s, i, vpn)
  {
    assert OnlyOneAt(s, vpn, i);
  }

  // ---- the region of a byte address ----

  predicate Contains(r: Region, va: nat) {
    if r.dir.Up? then r.base <= va < r.base + r.size else r.base - r.size <= va < r.base
  }

  /** va2vregion: the first region that contains the address. */
  function Va2Vregion(s: Space, va: nat): (r: Option<nat>)
    ensures r.Some? ==> r.value < |s.regions| && r.value < NREGIONS && Contains(s.regions[r.value], va)
  {
    if 0 < |s.regions| && Contains(s.regions[0], va) then Some(0)
    else if 1 < |s.regions| && Contains(s.regions[1], va) then Some(1)
    else if 2 < |s.regions| && Contains(s.regions[2], va) then Some(2)
    else None
  }

  /** A contained address is on one of the region's pages, with the index va2vpi_idx gives it. */
  lemma ContainedPage(r: Region, va: nat)
    requires RegionOk(r) && Contains(r, va)
    ensures InRegion(r, va / 4096) && IdxOf(r, va / 4096) == Va2VpiIdx(r, va) >= 0
  {
  }

  /** Regions are byte ranges and mappings are whole pages: on a page in use by region i and no other,
      va2vregion finds the region exactly for the addresses below the region's end. */
  lemma RegionFoundIff(s: Space, i: nat, va: nat)
    requires SpaceOk(s) && i < NREGIONS && InRegion(s.regions[i], va / 4096)
    requires forall j :: 0 <= j < NREGIONS && j != i ==> !InRegion(s.regions[j], va / 4096)
    ensures Va2Vregion(s, va) == if s.regions[i].dir.Down? || va < s.regions[i].base + s.regions[i].size then Some(i) else None
  {
    forall j | 0 <= j < NREGIONS && j != i ensures !Contains(s.regions[j], va) {
      if Contains(s.regions[j], va) { ContainedPage(s.regions[j], va); }
    }
  }
}
