/** mkfs: building the file system image. */
module Mkfs {
  import opened Prelude
  import opened FsLayout

  /** Where everything goes: n inodes, the root directory's block, the files' blocks and contents. */
  datatype Layout = Layout(n: nat, tableBlocks: nat, root: nat, rootBlocks: nat, starts: seq<nat>, contents: seq<seq<byte>>)

  predicate FileFits(l: Layout, j: nat) {
    j < |l.contents| && j + 1 < |l.starts| ==>
      && l.starts[j] <= l.starts[j + 1] <= FSSIZE && |l.contents[j]| <= (l.starts[j + 1] - l.starts[j]) * 512
  }

  predicate Ascending(l: Layout, i: nat, j: nat) {
    i <= j < |l.starts| ==> l.starts[i] <= l.starts[j] <= FSSIZE
  }

  /** The extents follow each other behind the bitmap, each is large enough, and all are on the disk. */
  ghost predicate LayoutOk(l: Layout) {
    && 3 <= l.n <= 0x1_0000 && l.n == |l.contents| + 3 && |l.starts| == |l.contents| + 1
    && l.n * 64 <= l.tableBlocks * 512 && l.root == INODESTART + l.tableBlocks
    && l.n * 16 <= l.rootBlocks * 512 && l.starts[0] == l.root + l.rootBlocks
    && (forall j: nat :: FileFits(l, j)) && (forall i: nat, j: nat :: Ascending(l, i, j))
  }

  function RootInode(l: Layout, entries: nat): Dinode {
    Dinode(T_DIR, 0, entries * 16, l.root, l.rootBlocks)
  }

  /** Inode j of the finished image. */
  function Expected(l: Layout, j: nat): Dinode {
    if j == 0 then Dinode(T_FILE, 0, l.n * 64, INODESTART, l.tableBlocks)
    else if j == 1 then RootInode(l, l.n)
    else if j == 2 then Dinode(T_DEV, CONSOLE, 0, 0, 0)
    else if j - 3 < |l.contents| && j - 2 < |l.starts| && l.starts[j - 3] <= l.starts[j - 2] then
      Dinode(T_FILE, 0, |l.contents[j - 3]|, l.starts[j - 3], l.starts[j - 2] - l.starts[j - 3])
    else Dinode(0, 0, 0, 0, 0)
  }

  lemma ExpectedOk(l: Layout, j: nat)
    requires LayoutOk(l)
    ensures DinodeOk(Expected(l, j))
  {
    if j >= 3 {
      assert FileFits(l, j - 3);
    }
    assert Ascending(l, 0, 0);
  }

  // ---- what the image holds so far ----

  predicate InodeIs(d: Disk, inodes: seq<Dinode>, j: nat) {
    j < |inodes| ==> DinodeAt(d, j) == inodes[j]
  }

  predicate BytesAre(d: Disk, start: nat, bs: seq<byte>, p: nat) {
    p < |bs| ==> ByteAt(d, start, p) == bs[p]
  }

  /** The extent at `start` begins with bs. */
  ghost predicate Holds(d: Disk, start: nat, bs: seq<byte>) {
    forall p: nat :: BytesAre(d, start, bs, p)
  }

  ghost predicate FileIs(d: Disk, l: Layout, k: nat, j: nat) {
    j < k && j < |l.contents| && j < |l.starts| ==> Holds(d, l.starts[j], l.contents[j])
  }

  predicate FreeIs(d: Disk, b: nat, i: nat) {
    2 <= b < INODESTART ==> Byte(d, b, i) == 0
  }

  /** The boot block, the superblock and the empty bitmap. */
  ghost predicate MetaIs(d: Disk, super: seq<byte>) {
    |super| <= 512 && Holds(d, 1, super) && forall b: nat, i: nat :: FreeIs(d, b, i)
  }

  /** The image under construction: `inodes` allocated so far, `dir` in the root directory, k files
      complete and `cur` of the next. */
  ghost predicate Built(d: Disk, l: Layout, super: seq<byte>, inodes: seq<Dinode>, dir: seq<byte>, k: nat, cur: seq<byte>) {
    && DiskOk(d) && LayoutOk(l) && |inodes| <= l.n && |dir| <= l.n * 16 && k <= |l.contents|
    && (k < |l.contents| ==> |cur| <= |l.contents[k]|) && (k == |l.contents| ==> cur == [])
    && MetaIs(d, super) && (forall j: nat :: InodeIs(d, inodes, j)) && Holds(d, l.root, dir)
    && (forall j: nat :: FileIs(d, l, k, j)) && Holds(d, l.starts[k], cur)
  }

  // ---- an inode is written ----

  lemma HoldsBehindTable(d: Disk, d': Disk, l: Layout, inum: nat, din: Dinode, start: nat, bs: seq<byte>)
    requires InodeWritten(d, d', inum, din) && LayoutOk(l) && inum < l.n && start >= l.root && Holds(d, start, bs)
    ensures Holds(d', start, bs)
  {
    forall p: nat ensures BytesAre(d', start, bs, p) {
      assert BytesAre(d, start, bs, p) && OutsideSame(d, d', inum, start + p / 512, p % 512);
    }
  }

  lemma InodeKeepsMeta(d: Disk, d': Disk, super: seq<byte>, inum: nat, din: Dinode)
    requires InodeWritten(d, d', inum, din) && MetaIs(d, super)
    ensures MetaIs(d', super)
  {
    forall p: nat ensures BytesAre(d', 1, super, p) {
      assert BytesAre(d, 1, super, p);
      if p < |super| {
        InExtent(p, 512, 1);
        assert OutsideSame(d, d', inum, 1 + p / 512, p % 512);
      }
    }
    forall b: nat, i: nat ensures FreeIs(d', b, i) {
      assert FreeIs(d, b, i) && OutsideSame(d, d', inum, b, i);
    }
  }

  /** Writing inode inum, the next one or one already there. */
  lemma BuiltInode(d: Disk, d': Disk, l: Layout, super: seq<byte>, inodes: seq<Dinode>, dir: seq<byte>, k: nat, cur: seq<byte>, inum: nat, din: Dinode)
    requires Built(d, l, super, inodes, dir, k, cur) && inum <= |inodes| && inum < l.n && InodeWritten(d, d', inum, din)
    ensures Built(d', l, super, if inum == |inodes| then inodes + [din] else inodes[inum := din], dir, k, cur)
  {
    var inodes' := if inum == |inodes| then inodes + [din] else inodes[inum := din];
    forall j: nat ensures InodeIs(d', inodes', j) {
      assert InodeIs(d, inodes, j) && InodeSet(d, d', inum, din, j);
    }
    InodeKeepsMeta(d, d', super, inum, din);
    HoldsBehindTable(d, d', l, inum, din, l.root, dir);
    forall j: nat ensures FileIs(d', l, k, j) {
      assert FileIs(d, l, k, j);
      if j < k {
        assert Ascending(l, 0, j);
        HoldsBehindTable(d, d', l, inum, din, l.starts[j], l.contents[j]);
      }
    }
    assert Ascending(l, 0, k);
    HoldsBehindTable(d, d', l, inum, din, l.starts[k], cur);
  }

  // ---- data is written ----

  /** An extent that ends before the written one begins. */
  lemma HoldsBefore(d: Disk, d': Disk, start: nat, off: nat, more: seq<byte>, at: nat, blocks: nat, bs: seq<byte>)
    requires Wrote(d, d', start, off, more) && Holds(d, at, bs) && |bs| <= blocks * 512 && at + blocks <= start
    ensures Holds(d', at, bs)
  {
    forall p: nat ensures BytesAre(d', at, bs, p) {
      assert BytesAre(d, at, bs, p);
      if p < |bs| {
        InExtent(p, |bs|, blocks);
        WroteElsewhere(d, d', start, off, more, at, p);
      }
    }
  }

  /** An extent that begins behind the written one. */
  lemma HoldsBehind(d: Disk, d': Disk, start: nat, off: nat, more: seq<byte>, blocks: nat, at: nat, bs: seq<byte>)
    requires Wrote(d, d', start, off, more) && Holds(d, at, bs) && off + |more| <= blocks * 512 && start + blocks <= at
    ensures Holds(d', at, bs)
  {
    forall p: nat ensures BytesAre(d', at, bs, p) {
      assert BytesAre(d, at, bs, p);
      WroteElsewhere(d, d', start, off, more, at, p);
    }
  }

  lemma HoldsMore(d: Disk, d': Disk, start: nat, bs: seq<byte>, more: seq<byte>)
    requires Wrote(d, d', start, |bs|, more) && Holds(d, start, bs)
    ensures Holds(d', start, bs + more)
  {
    forall p: nat ensures BytesAre(d', start, bs + more, p) {
      assert BytesAre(d, start, bs, p);
      WroteHere(d, d', start, |bs|, more, p);
    }
  }

  lemma DataKeepsInode(d: Disk, d': Disk, l: Layout, start: nat, off: nat, more: seq<byte>, j: nat)
    requires LayoutOk(l) && Wrote(d, d', start, off, more) && start >= l.root && j < l.n
    ensures DinodeAt(d', j) == DinodeAt(d, j)
  {
    forall i | 0 <= i < 64 ensures Slice(d', INODESTART, j * 64, 64)[i] == Slice(d, INODESTART, j * 64, 64)[i] {
      InExtent(j * 64 + i, l.n * 64, l.tableBlocks);
      WroteElsewhere(d, d', start, off, more, INODESTART, j * 64 + i);
    }
    assert Slice(d', INODESTART, j * 64, 64) == Slice(d, INODESTART, j * 64, 64);
  }

  lemma DataKeepsMeta(d: Disk, d': Disk, super: seq<byte>, start: nat, off: nat, more: seq<byte>)
    requires Wrote(d, d', start, off, more) && start >= INODESTART && MetaIs(d, super)
    ensures MetaIs(d', super)
  {
    HoldsBefore(d, d', start, off, more, 1, 1, super);
    forall b: nat, i: nat ensures FreeIs(d', b, i) {
      assert FreeIs(d, b, i) && ByteWrote(d, d', start, off, more, b, i);
    }
  }

  lemma DataKeepsInodes(d: Disk, d': Disk, l: Layout, inodes: seq<Dinode>, start: nat, off: nat, more: seq<byte>)
    requires LayoutOk(l) && Wrote(d, d', start, off, more) && start >= l.root && |inodes| <= l.n && forall j: nat :: InodeIs(d, inodes, j)
    ensures forall j: nat :: InodeIs(d', inodes, j)
  {
    forall j: nat ensures InodeIs(d', inodes, j) {
      assert InodeIs(d, inodes, j);
      if j < |inodes| {
        DataKeepsInode(d, d', l, start, off, more, j);
      }
    }
  }

  lemma BuiltDir(d: Disk, d': Disk, l: Layout, super: seq<byte>, inodes: seq<Dinode>, dir: seq<byte>, k: nat, cur: seq<byte>, bs: seq<byte>)
    requires Built(d, l, super, inodes, dir, k, cur) && |dir| + |bs| <= l.n * 16 && Wrote(d, d', l.root, |dir|, bs)
    ensures Built(d', l, super, inodes, dir + bs, k, cur)
  {
    DataKeepsMeta(d, d', super, l.root, |dir|, bs);
    DataKeepsInodes(d, d', l, inodes, l.root, |dir|, bs);
    HoldsMore(d, d', l.root, dir, bs);
    forall j: nat ensures FileIs(d', l, k, j) {
      assert FileIs(d, l, k, j);
      if j < k {
        assert Ascending(l, 0, j);
        HoldsBehind(d, d', l.root, |dir|, bs, l.rootBlocks, l.starts[j], l.contents[j]);
      }
    }
    assert Ascending(l, 0, k);
    HoldsBehind(d, d', l.root, |dir|, bs, l.rootBlocks, l.starts[k], cur);
  }

  lemma BuiltData(d: Disk, d': Disk, l: Layout, super: seq<byte>, inodes: seq<Dinode>, dir: seq<byte>, k: nat, cur: seq<byte>, bs: seq<byte>)
    requires Built(d, l, super, inodes, dir, k, cur) && k < |l.contents| && |cur| + |bs| <= |l.contents[k]|
    requires Wrote(d, d', l.starts[k], |cur|, bs)
    ensures Built(d', l, super, inodes, dir, k, cur + bs)
  {
    assert Ascending(l, 0, k);
    DataKeepsMeta(d, d', super, l.starts[k], |cur|, bs);
    DataKeepsInodes(d, d', l, inodes, l.starts[k], |cur|, bs);
    HoldsBefore(d, d', l.starts[k], |cur|, bs, l.root, l.rootBlocks, dir);
    forall j: nat ensures FileIs(d', l, k, j) {
      assert FileIs(d, l, k, j);
      if j < k {
        assert FileFits(l, j) && Ascending(l, j + 1, k);
        HoldsBefore(d, d', l.starts[k], |cur|, bs, l.starts[j], l.starts[j + 1] - l.starts[j], l.contents[j]);
      }
    }
    HoldsMore(d, d', l.starts[k], cur, bs);
  }

  /** The k'th file is complete. */
  lemma BuiltFile(d: Disk, l: Layout, super: seq<byte>, inodes: seq<Dinode>, dir: seq<byte>, k: nat)
    requires LayoutOk(l) && k < |l.contents| && Built(d, l, super, inodes, dir, k, l.contents[k])
    ensures Built(d, l, super, inodes, dir, k + 1, [])
  {
    var k' := k + 1;
    forall j: nat ensures FileIs(d, l, k', j) {
      assert FileIs(d, l, k, j);
    }
    HoldsNothing(d, l.starts[k']);
  }

  lemma HoldsNothing(d: Disk, start: nat)
    ensures Holds(d, start, [])
  {
  }

  /** A dinode lies in one sector. */
  lemma SlotInSector(inum: nat, i: nat)
    requires i < 64
    ensures inum % 8 * 64 == inum * 64 % 512 <= 448
    ensures (inum * 64 + i) / 512 == inum * 64 / 512 && (inum * 64 + i) % 512 == inum % 8 * 64 + i
  {
    var q, r := inum / 8, inum % 8;
    assert inum * 64 == 512 * q + r * 64;
  }

  lemma TableOnDisk(l: Layout, inum: nat)
    requires LayoutOk(l) && inum < l.n
    ensures INODESTART + inum * 64 / 512 < FSSIZE
  {
    InExtent(inum * 64, l.n * 64, l.tableBlocks);
    assert Ascending(l, 0, 0);
  }

  // ---- the program ----

  class Image {
    const sectors: array<seq<byte>>
    var freeinode: nat
    var freeblock: nat

    ghost function Now(): Disk
      reads sectors
    {
      sectors[..]
    }

    /** The disk zeroed and the superblock written. */
    constructor (super: seq<byte>)
      requires |super| <= BSIZE
      ensures fresh(sectors) && DiskOk(Now()) && freeinode == 0 && freeblock == INODESTART && MetaIs(Now(), super)
    {
      sectors := new seq<byte>[FSSIZE](_ => []);
      freeinode, freeblock := 0, INODESTART;
      new;
      var i := 0;
      while i < FSSIZE
        invariant 0 <= i <= FSSIZE && fresh(sectors) && sectors.Length == FSSIZE && freeinode == 0 && freeblock == INODESTART
        invariant forall b :: 0 <= b < i ==> sectors[b] == Zeroes(BSIZE)
      {
        sectors[i] := Zeroes(BSIZE);
        i := i + 1;
      }
      sectors[1] := super + Zeroes(BSIZE - |super|);
      forall p: nat ensures BytesAre(Now(), 1, super, p) {
      }
    }

    /** winode: the inode's 64 bytes in the table. */
    method Winode(inum: nat, din: Dinode)
      requires DiskOk(Now()) && DinodeOk(din) && INODESTART + inum * 64 / 512 < FSSIZE
      modifies sectors
      ensures InodeWritten(old(Now()), Now(), inum, din)
    {
      ghost var d := Now();
      var enc := EncodeDinode(din);
      SlotInSector(inum, 0);
      PatchSector(INODESTART, inum * 64, enc);
      InodeIsWritten(d, Now(), inum, din);
    }

    /** rsect, bcopy, wsect: part of one sector of an extent. */
    method PatchSector(start: nat, off: nat, bs: seq<byte>)
      requires DiskOk(Now()) && off % 512 + |bs| <= 512 && start + off / 512 < FSSIZE
      modifies sectors
      ensures Wrote(old(Now()), Now(), start, off, bs)
    {
      ghost var d := Now();
      SectorWrite(d, start, off, bs);
      var b, at := start + off / 512, off % 512;
      var buf := sectors[b];
      sectors[b] := buf[..at] + bs + buf[at + |bs|..];
      assert Now() == d[b := buf[..at] + bs + buf[at + |bs|..]];
    }

    /** rinode. */
    method Rinode(inum: nat) returns (din: Dinode)
      requires DiskOk(Now()) && INODESTART + inum * 64 / 512 < FSSIZE
      ensures din == DinodeAt(Now(), inum)
    {
      var bn := INODESTART + inum * 64 / 512;
      var at := inum % 8 * 64;
      SlotInSector(inum, 0);
      var bytes := sectors[bn][at..at + 64];
      forall i | 0 <= i < 64 ensures bytes[i] == Slice(Now(), INODESTART, inum * 64, 64)[i] {
        SlotInSector(inum, i);
      }
      assert bytes == Slice(Now(), INODESTART, inum * 64, 64);
      din := DecodeDinode(bytes);
    }

    /** iappend: the bytes go to the end of the file, sector by sector, and its size grows by them. */
    method Iappend(inum: nat, xp: seq<byte>, ghost blocks: nat) returns (ghost mid: Disk)
      requires DiskOk(Now()) && INODESTART + inum * 64 / 512 < FSSIZE
      requires var din := DinodeAt(Now(), inum);
               din.start + blocks <= FSSIZE && din.size + |xp| <= blocks * 512
      modifies sectors
      ensures var din := DinodeAt(old(Now()), inum);
              && Wrote(old(Now()), mid, din.start, din.size, xp)
              && InodeWritten(mid, Now(), inum, din.(size := din.size + |xp|))
    {
      ghost var d := Now();
      var din := Rinode(inum);
      var off, p := din.size, 0;
      assert Wrote(d, Now(), din.start, din.size, []);
      while p < |xp|
        invariant 0 <= p <= |xp| && off == din.size + p
        invariant Wrote(d, Now(), din.start, din.size, xp[..p])
      {
        var fbn := off / 512;
        var n1 := if |xp| - p < (fbn + 1) * 512 - off then |xp| - p else (fbn + 1) * 512 - off;
        ghost var before: Disk := Now();
        InExtent(off, din.size + |xp|, blocks);
        PatchSector(din.start, off, xp[p..p + n1]);
        WriteContinues(d, before, Now(), din.start, din.size, xp[..p], xp[p..p + n1]);
        assert xp[..p] + xp[p..p + n1] == xp[..p + n1];
        off, p := off + n1, p + n1;
      }
      assert xp[..p] == xp;
      mid := Now();
      Winode(inum, din.(size := off));
    }

    /** winode, as a step of building the image. */
    method SetInode(inum: nat, din: Dinode, ghost l: Layout, ghost super: seq<byte>, ghost inodes: seq<Dinode>, ghost dir: seq<byte>, ghost k: nat, ghost cur: seq<byte>)
      requires Built(Now(), l, super, inodes, dir, k, cur) && DinodeOk(din) && inum <= |inodes| && inum < l.n
      modifies sectors
      ensures Built(Now(), l, super, if inum == |inodes| then inodes + [din] else inodes[inum := din], dir, k, cur)
    {
      TableOnDisk(l, inum);
      ghost var d := Now();
      Winode(inum, din);
      BuiltInode(d, Now(), l, super, inodes, dir, k, cur, inum, din);
    }

    /** rinode of one already there. */
    method GetInode(inum: nat, ghost l: Layout, ghost super: seq<byte>, ghost inodes: seq<Dinode>, ghost dir: seq<byte>, ghost k: nat, ghost cur: seq<byte>)
      returns (din: Dinode)
      requires Built(Now(), l, super, inodes, dir, k, cur) && inum < |inodes|
      ensures din == inodes[inum]
    {
      TableOnDisk(l, inum);
      assert InodeIs(Now(), inodes, inum);
      din := Rinode(inum);
    }

    /** ialloc: the next inode, of the given type and empty. */
    method Ialloc(kind: nat, ghost l: Layout, ghost super: seq<byte>, ghost inodes: seq<Dinode>, ghost dir: seq<byte>, ghost k: nat, ghost cur: seq<byte>)
      returns (inum: nat)
      requires Built(Now(), l, super, inodes, dir, k, cur) && freeinode == |inodes| < l.n && kind < 0x1_0000
      modifies this, sectors
      ensures inum == |inodes| && freeinode == inum + 1 && freeblock == old(freeblock)
      ensures Built(Now(), l, super, inodes + [Dinode(kind, 0, 0, 0, 0)], dir, k, cur)
    {
      inum := freeinode;
      freeinode := freeinode + 1;
      SetInode(inum, Dinode(kind, 0, 0, 0, 0), l, super, inodes, dir, k, cur);
    }

    /** iappend to the root directory. */
    method AppendDir(bs: seq<byte>, ghost l: Layout, ghost super: seq<byte>, ghost inodes: seq<Dinode>, ghost dir: seq<byte>, ghost j: nat, ghost k: nat)
      requires Built(Now(), l, super, inodes, dir, k, []) && 1 < |inodes| && inodes[1] == RootInode(l, j)
      requires |dir| == j * 16 && |bs| == 16 && j < l.n
      modifies sectors
      ensures Built(Now(), l, super, inodes[1 := RootInode(l, j + 1)], dir + bs, k, [])
    {
      TableOnDisk(l, 1);
      ghost var d := Now();
      assert InodeIs(d, inodes, 1) && Ascending(l, 0, 0);
      ghost var mid := Iappend(1, bs, l.rootBlocks);
      BuiltDir(d, mid, l, super, inodes, dir, k, [], bs);
      BuiltInode(mid, Now(), l, super, inodes, dir + bs, k, [], 1, RootInode(l, j + 1));
    }

    /** iappend to the file being added. */
    method AppendData(inum: nat, bs: seq<byte>, ghost l: Layout, ghost super: seq<byte>, ghost inodes: seq<Dinode>, ghost dir: seq<byte>, ghost k: nat, ghost cur: seq<byte>)
      requires Built(Now(), l, super, inodes, dir, k, cur) && k < |l.contents| && inum < |inodes|
      requires inodes[inum] == Dinode(T_FILE, 0, |cur|, l.starts[k], 0) && |cur| + |bs| <= |l.contents[k]|
      modifies sectors
      ensures Built(Now(), l, super, inodes[inum := Dinode(T_FILE, 0, |cur| + |bs|, l.starts[k], 0)], dir, k, cur + bs)
    {
      TableOnDisk(l, inum);
      ghost var d := Now();
      assert InodeIs(d, inodes, inum) && FileFits(l, k);
      ghost var mid := Iappend(inum, bs, l.starts[k + 1] - l.starts[k]);
      BuiltData(d, mid, l, super, inodes, dir, k, cur, bs);
      BuiltInode(mid, Now(), l, super, inodes, dir, k, cur + bs, inum, Dinode(T_FILE, 0, |cur| + |bs|, l.starts[k], 0));
    }
  }
}
