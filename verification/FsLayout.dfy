/** The on-disk format: sectors, dinodes, directory entries, and writes into an extent. */
module FsLayout {
  import opened Prelude

  const FSSIZE: nat := 50000
  const BSIZE: nat := 512
  const NBITMAP: nat := 13       // FSSIZE / (BSIZE * 8) + 1
  const INODESTART: nat := 15    // boot block, superblock, bitmap
  const DIRSIZ: nat := 14
  const T_DIR: nat := 1
  const T_FILE: nat := 2
  const T_DEV: nat := 3
  const CONSOLE: nat := 1

  type Disk = seq<seq<byte>>

  predicate DiskOk(d: Disk) {
    |d| == FSSIZE && forall b :: 0 <= b < |d| ==> |d[b]| == BSIZE
  }

  // ---- bytes of an extent ----

  function Byte(d: Disk, b: nat, i: nat): byte {
    if b < |d| && i < |d[b]| then d[b][i] else 0
  }

  /** Byte p of the extent that starts at block `start`. */
  function ByteAt(d: Disk, start: nat, p: nat): byte {
    Byte(d, start + p / 512, p % 512)
  }

  function Slice(d: Disk, start: nat, off: nat, n: nat): (r: seq<byte>)
    ensures |r| == n
  {
    seq(n, i requires 0 <= i < n => ByteAt(d, start, off + i))
  }

  predicate ByteWrote(d: Disk, d': Disk, start: nat, off: nat, bs: seq<byte>, b: nat, i: nat) {
    i < 512 ==>
      Byte(d', b, i) == if b >= start && off <= (b - start) * 512 + i < off + |bs| then bs[(b - start) * 512 + i - off] else Byte(d, b, i)
  }

  /** d' is d with bs written at offset off of the extent at `start`, and nothing else changed. */
  ghost predicate Wrote(d: Disk, d': Disk, start: nat, off: nat, bs: seq<byte>) {
    DiskOk(d') && forall b: nat, i: nat :: ByteWrote(d, d', start, off, bs, b, i)
  }

  lemma WroteHere(d: Disk, d': Disk, start: nat, off: nat, bs: seq<byte>, p: nat)
    requires Wrote(d, d', start, off, bs)
    ensures ByteAt(d', start, p) == if off <= p < off + |bs| then bs[p - off] else ByteAt(d, start, p)
  {
    assert ByteWrote(d, d', start, off, bs, start + p / 512, p % 512);
  }

  /** A byte of another extent is untouched if its block is. */
  lemma WroteElsewhere(d: Disk, d': Disk, start: nat, off: nat, bs: seq<byte>, start': nat, p: nat)
    requires Wrote(d, d', start, off, bs)
    requires var b := start' + p / 512; b < start || (b - start) * 512 >= off + |bs|
    ensures ByteAt(d', start', p) == ByteAt(d, start', p)
  {
    assert ByteWrote(d, d', start, off, bs, start' + p / 512, p % 512);
  }

  lemma SliceOfWrote(d: Disk, d': Disk, start: nat, off: nat, bs: seq<byte>)
    requires Wrote(d, d', start, off, bs)
    ensures Slice(d', start, off, |bs|) == bs
  {
    forall i | 0 <= i < |bs| ensures Slice(d', start, off, |bs|)[i] == bs[i] {
      WroteHere(d, d', start, off, bs, off + i);
    }
  }

  /** One sector of a longer write. */
  lemma WriteContinues(d0: Disk, d: Disk, d': Disk, start: nat, off: nat, done: seq<byte>, more: seq<byte>)
    requires Wrote(d0, d, start, off, done) && Wrote(d, d', start, off + |done|, more)
    ensures Wrote(d0, d', start, off, done + more)
  {
    forall b: nat, i: nat ensures ByteWrote(d0, d', start, off, done + more, b, i) {
      assert ByteWrote(d0, d, start, off, done, b, i) && ByteWrote(d, d', start, off + |done|, more, b, i);
    }
  }

  /** Replacing part of one sector is a write into the extent. */
  lemma SectorWrite(d: Disk, start: nat, off: nat, bs: seq<byte>)
    requires DiskOk(d) && off % 512 + |bs| <= 512 && start + off / 512 < FSSIZE
    ensures var b := start + off / 512; var s := d[b];
            && |s| == BSIZE
            && Wrote(d, d[b := s[..off % 512] + bs + s[off % 512 + |bs|..]], start, off, bs)
  {
    var b := start + off / 512;
    var s := d[b];
    var s' := s[..off % 512] + bs + s[off % 512 + |bs|..];
    var d' := d[b := s'];
    forall c: nat, i: nat ensures ByteWrote(d, d', start, off, bs, c, i) {
      if i < 512 && c == b {
        assert (b - start) * 512 + i - off == i - off % 512;
      } else if i < 512 && c >= start {
        NotInSector(start, off, |bs|, c, i);
      }
    }
  }

  lemma NotInSector(start: nat, off: nat, n: nat, c: nat, i: nat)
    requires off % 512 + n <= 512 && c >= start && c != start + off / 512 && i < 512
    ensures !(off <= (c - start) * 512 + i < off + n)
  {
  }

  // ---- little-endian fields ----

  function Le16(x: nat): (r: seq<byte>)
    requires x < 0x1_0000
    ensures |r| == 2
  {
    [(x % 256) as byte, (x / 256) as byte]
  }

  function Le32(x: nat): (r: seq<byte>)
    requires x < 0x1_0000_0000
    ensures |r| == 4
  {
    Le16(x % 0x1_0000) + Le16(x / 0x1_0000)
  }

  function From16(s: seq<byte>): (r: nat)
    requires |s| == 2
    ensures r < 0x1_0000
  {
    s[0] as nat + 256 * s[1] as nat
  }

  function From32(s: seq<byte>): (r: nat)
    requires |s| == 4
    ensures r < 0x1_0000_0000
  {
    From16(s[..2]) + 0x1_0000 * From16(s[2..])
  }

  lemma Le16RoundTrip(x: nat)
    requires x < 0x1_0000
    ensures From16(Le16(x)) == x
  {
  }

  lemma Le32RoundTrip(x: nat)
    requires x < 0x1_0000_0000
    ensures From32(Le32(x)) == x
  {
    assert Le32(x)[..2] == Le16(x % 0x1_0000) && Le32(x)[2..] == Le16(x / 0x1_0000);
  }

  /** struct dinode, 64 bytes with its padding. */
  datatype Dinode = Dinode(kind: nat, devid: nat, size: nat, start: nat, nblocks: nat)

  predicate DinodeOk(n: Dinode) {
    n.kind < 0x1_0000 && n.devid < 0x1_0000 && n.size < 0x1_0000_0000 && n.start < 0x1_0000_0000 && n.nblocks < 0x1_0000_0000
  }

  function Zeroes(n: nat): (r: seq<byte>)
    ensures |r| == n
  {
    seq(n, _ => 0)
  }

  function EncodeDinode(n: Dinode): (r: seq<byte>)
    requires DinodeOk(n)
    ensures |r| == 64
  {
    Le16(n.kind) + Le16(n.devid) + Le32(n.size) + Le32(n.start) + Le32(n.nblocks) + Zeroes(48)
  }

  function DecodeDinode(s: seq<byte>): (n: Dinode)
    requires |s| == 64
    ensures DinodeOk(n)
  {
    Dinode(From16(s[..2]), From16(s[2..4]), From32(s[4..8]), From32(s[8..12]), From32(s[12..16]))
  }

  lemma DinodeRoundTrip(n: Dinode)
    requires DinodeOk(n)
    ensures DecodeDinode(EncodeDinode(n)) == n
  {
    var s := EncodeDinode(n);
    assert s[..2] == Le16(n.kind) && s[2..4] == Le16(n.devid);
    assert s[4..8] == Le32(n.size) && s[8..12] == Le32(n.start) && s[12..16] == Le32(n.nblocks);
    Le16RoundTrip(n.kind);
    Le16RoundTrip(n.devid);
    Le32RoundTrip(n.size);
    Le32RoundTrip(n.start);
    Le32RoundTrip(n.nblocks);
  }

  function DinodeAt(d: Disk, inum: nat): Dinode {
    DecodeDinode(Slice(d, INODESTART, inum * 64, 64))
  }

  // ---- writing one inode ----

  predicate InodeSet(d: Disk, d': Disk, inum: nat, din: Dinode, j: nat) {
    DinodeAt(d', j) == if j == inum then din else DinodeAt(d, j)
  }

  predicate OutsideSame(d: Disk, d': Disk, inum: nat, b: nat, i: nat) {
    b < INODESTART || (b - INODESTART) * 512 >= inum * 64 + 64 ==> Byte(d', b, i) == Byte(d, b, i)
  }

  /** d' is d with inode inum set to din: no other inode changed, and no block before the inode's or
      behind it. */
  ghost predicate InodeWritten(d: Disk, d': Disk, inum: nat, din: Dinode) {
    && DiskOk(d') && (forall j: nat :: InodeSet(d, d', inum, din, j))
    && (forall b: nat, i: nat :: OutsideSame(d, d', inum, b, i))
  }

  lemma InodeIsWritten(d: Disk, d': Disk, inum: nat, din: Dinode)
    requires DiskOk(d) && DinodeOk(din) && Wrote(d, d', INODESTART, inum * 64, EncodeDinode(din))
    ensures InodeWritten(d, d', inum, din)
  {
    var enc := EncodeDinode(din);
    forall j: nat ensures InodeSet(d, d', inum, din, j) {
      if j == inum {
        SliceOfWrote(d, d', INODESTART, inum * 64, enc);
        DinodeRoundTrip(din);
      } else {
        OtherSlot(d, d', inum, enc, j);
      }
    }
    forall b: nat, i: nat ensures OutsideSame(d, d', inum, b, i) {
      assert ByteWrote(d, d', INODESTART, inum * 64, enc, b, i);
    }
  }

  lemma OtherSlot(d: Disk, d': Disk, inum: nat, enc: seq<byte>, j: nat)
    requires |enc| == 64 && Wrote(d, d', INODESTART, inum * 64, enc) && j != inum
    ensures Slice(d', INODESTART, j * 64, 64) == Slice(d, INODESTART, j * 64, 64)
  {
    forall i | 0 <= i < 64 ensures Slice(d', INODESTART, j * 64, 64)[i] == Slice(d, INODESTART, j * 64, 64)[i] {
      WroteHere(d, d', INODESTART, inum * 64, enc, j * 64 + i);
    }
  }

  /** A byte below `size` lies in the blocks that hold `size` bytes. */
  lemma InExtent(p: nat, size: nat, blocks: nat)
    requires p < size <= blocks * 512
    ensures p / 512 < blocks
  {
  }

  /** strncpy into the name field: at most 14 bytes, padded with zeroes. */
  function NameField(name: seq<byte>): (r: seq<byte>)
    ensures |r| == DIRSIZ
  {
    if |name| >= DIRSIZ then name[..DIRSIZ] else name + Zeroes(DIRSIZ - |name|)
  }

  function EncodeDirent(inum: nat, name: seq<byte>): (r: seq<byte>)
    requires inum < 0x1_0000
    ensures |r| == 16
  {
    Le16(inum) + NameField(name)
  }
}
