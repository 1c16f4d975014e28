/** Memory by address: what a load of an address by a process yields, in terms of the pages the process
    sees and where its regions lie. */
module Addresses {
  import opened Prelude
  import opened PageTable
  import opened CopyOnWrite
  import opened Regions
  import opened VspaceState
  import opened Layout

  /** Counts are exact, and every table is up to date. */
  ghost predicate Sound(m: Mem) {
    MemOk(m) && AllClean(m)
  }

  // ---- the address of a page ----

  /** The slot that lies at an address is the one the address leads to. */
  lemma SlotOfAddress(m: Mem, k: Key, va: nat)
    requires Sound(m) && k in View(Cow(m)) && va / 4096 < PML4_PAGES
    requires k.pid in m.spaces && k.region < |m.spaces[k.pid].regions| && VpnOf(m.spaces[k.pid].regions[k.region], k.idx) == va / 4096
    ensures FindUsed(m.spaces[k.pid], va / 4096, NREGIONS).Some? && KeyOf(k.pid, m.spaces[k.pid], va) == k
  {
    var s := m.spaces[k.pid];
    ViewKeys(Cow(m));
    assert CleanAt(m, k.pid) && SpaceAt(m, k.pid) && CoupledAt(m, k) && InBoundsAt(s, k.region, k.idx);
    IndexPage(s.regions[k.region], k.idx);
    WantedOfUsed(s, k.region, va / 4096);
  }

  /** A page the process sees is what the hardware yields at the page's address. */
  lemma Lands(m: Mem, k: Key, va: nat)
    requires Sound(m) && k in View(Cow(m)) && va / 4096 < PML4_PAGES
    requires k.pid in m.spaces && k.region < |m.spaces[k.pid].regions| && VpnOf(m.spaces[k.pid].regions[k.region], k.idx) == va / 4096
    ensures |View(Cow(m))[k].bytes| == PGSIZE && HardwareByte(m, k.pid, va) == Some(View(Cow(m))[k].bytes[va % 4096])
  {
    assert CleanAt(m, k.pid);
    SlotOfAddress(m, k, va);
    HardwareView(m, k.pid, va);
  }

  /** And whatever the hardware yields is of such a page. */
  lemma PageOfByte(m: Mem, pid: nat, va: nat) returns (k: Key)
    requires Sound(m) && va / 4096 < PML4_PAGES && HardwareByte(m, pid, va).Some?
    ensures k.pid == pid && pid in m.spaces && k in View(Cow(m)) && k.region < |m.spaces[pid].regions|
    ensures VpnOf(m.spaces[pid].regions[k.region], k.idx) == va / 4096
  {
    assert CleanAt(m, pid) && SpaceAt(m, pid);
    HardwareView(m, pid, va);
    k := KeyOf(pid, m.spaces[pid], va);
  }

  /** Slot idx of region r, if it lies at page vpn, is the same page for p in m0 as for q in m. */
  ghost predicate AlikeAt(m0: Mem, p: nat, m: Mem, q: nat, vpn: nat, r: nat, idx: nat) {
    p in m0.spaces && q in m.spaces && r < |m0.spaces[p].regions| && r < |m.spaces[q].regions| ==>
      && VpnOf(m.spaces[q].regions[r], idx) == VpnOf(m0.spaces[p].regions[r], idx)
      && (VpnOf(m.spaces[q].regions[r], idx) == vpn ==>
            var k0, k, v0, v := Key(p, r, idx), Key(q, r, idx), View(Cow(m0)), View(Cow(m));
            (k in v <==> k0 in v0) && (k in v ==> v[k].bytes == v0[k0].bytes))
  }

  /** Then a load there yields the same. */
  lemma ReadAlike(m0: Mem, p: nat, m: Mem, q: nat, va: nat)
    requires Sound(m0) && Sound(m) && va / 4096 < PML4_PAGES && (q in m.spaces <==> p in m0.spaces)
    requires forall r: nat, idx: nat :: AlikeAt(m0, p, m, q, va / 4096, r, idx)
    ensures HardwareByte(m, q, va) == HardwareByte(m0, p, va)
  {
    assert SpaceAt(m0, p) && SpaceAt(m, q);
    if HardwareByte(m, q, va).Some? {
      var k := PageOfByte(m, q, va);
      assert AlikeAt(m0, p, m, q, va / 4096, k.region, k.idx);
      Lands(m, k, va);
      Lands(m0, Key(p, k.region, k.idx), va);
    } else if HardwareByte(m0, p, va).Some? {
      var k := PageOfByte(m0, p, va);
      assert AlikeAt(m0, p, m, q, va / 4096, k.region, k.idx);
      Lands(m, Key(q, k.region, k.idx), va);
    }
  }

  /** Slot idx of region r holds the same page for p in v0 as for q in v. */
  predicate SlotAlike(v0: Memory, p: nat, v: Memory, q: nat, r: nat, idx: nat) {
    var k0, k := Key(p, r, idx), Key(q, r, idx);
    (k in v <==> k0 in v0) && (k in v ==> v[k] == v0[k0])
  }

  /** Two processes with the same pages at the same places read the same everywhere. */
  lemma SeesAlike(m0: Mem, p: nat, m: Mem, q: nat, va: nat)
    requires Sound(m0) && Sound(m) && va / 4096 < PML4_PAGES && (q in m.spaces <==> p in m0.spaces)
    requires q in m.spaces ==> SitesOf(m.spaces[q]) == SitesOf(m0.spaces[p])
    requires forall r: nat, idx: nat :: SlotAlike(View(Cow(m0)), p, View(Cow(m)), q, r, idx)
    ensures HardwareByte(m, q, va) == HardwareByte(m0, p, va)
  {
    forall r: nat, idx: nat ensures AlikeAt(m0, p, m, q, va / 4096, r, idx) {
      assert SlotAlike(View(Cow(m0)), p, View(Cow(m)), q, r, idx);
      if p in m0.spaces && r < |m0.spaces[p].regions| && r < |m.spaces[q].regions| {
        assert SitesOf(m.spaces[q])[r] == SitesOf(m0.spaces[p])[r];
      }
    }
    ReadAlike(m0, p, m, q, va);
  }

  // ---- reading any machine by address ----

  /** Page vpn lies in region i, and its slot has a page. */
  predicate PageIn(v: Memory, sites: seq<Region>, pid: nat, vpn: nat, i: nat) {
    i < |sites| && InRegion(sites[i], vpn) && IdxOf(sites[i], vpn) >= 0 && Key(pid, i, IdxOf(sites[i], vpn)) in v
  }

  /** What a process sees at an address, given its pages and where the regions lie. */
  function ByteAt(v: Memory, sites: map<nat, seq<Region>>, pid: nat, va: nat): Option<byte> {
    if pid !in sites then None
    else
      var l, vpn := sites[pid], va / 4096;
      if PageIn(v, l, pid, vpn, 0) then ByteOf(v[Key(pid, 0, IdxOf(l[0], vpn))], va)
      else if PageIn(v, l, pid, vpn, 1) then ByteOf(v[Key(pid, 1, IdxOf(l[1], vpn))], va)
      else if PageIn(v, l, pid, vpn, 2) then ByteOf(v[Key(pid, 2, IdxOf(l[2], vpn))], va)
      else None
  }

  function ByteOf(page: UserPage, va: nat): Option<byte> {
    if |page.bytes| == PGSIZE then Some(page.bytes[va % 4096]) else None
  }

  lemma PageInIsUsedIn(m: Mem, pid: nat, vpn: nat, i: nat)
    requires MemOk(m) && pid in m.spaces && i < NREGIONS
    ensures PageIn(View(Cow(m)), SitesOf(m.spaces[pid]), pid, vpn, i) <==> UsedIn(m.spaces[pid], i, vpn)
  {
    var s := m.spaces[pid];
    ViewKeys(Cow(m));
    assert SpaceAt(m, pid) && SitesOf(s)[i] == Site(s.regions[i]);
    if IdxOf(s.regions[i], vpn) >= 0 {
      assert CoupledAt(m, Key(pid, i, IdxOf(s.regions[i], vpn)));
    }
  }

  /** The hardware's answer is the process's own byte, at its own address. */
  lemma LoadIsByte(m: Mem, pid: nat, va: nat)
    requires Sound(m) && va / 4096 < PML4_PAGES
    ensures HardwareByte(m, pid, va) == ByteAt(View(Cow(m)), Sites(m.spaces), pid, va)
  {
    if pid in m.spaces {
      var vpn := va / 4096;
      assert CleanAt(m, pid) && SpaceAt(m, pid) && Sites(m.spaces)[pid] == SitesOf(m.spaces[pid]);
      PageInIsUsedIn(m, pid, vpn, 0);
      PageInIsUsedIn(m, pid, vpn, 1);
      PageInIsUsedIn(m, pid, vpn, 2);
      HardwareView(m, pid, va);
    }
  }
}
