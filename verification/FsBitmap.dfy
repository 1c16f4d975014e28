/** mkfs's balloc: the free bitmap, and the finished image. */
module FsBitmap {
  import opened Prelude
  import opened FsLayout
  import opened Mkfs
  import opened MkfsMain

  function Pow2(k: nat): (r: nat)
    requires k < 8
    ensures r > 0
  {
    [1, 2, 4, 8, 16, 32, 64, 128][k]
  }

  predicate BitSet(x: byte, k: nat)
    requires k < 8
  {
    x as nat / Pow2(k) % 2 == 1
  }

  /** x | (1 << k) */
  function OrBit(x: byte, k: nat): byte
    requires k < 8
  {
    if BitSet(x, k) || x as nat + Pow2(k) > 255 then x else (x as nat + Pow2(k)) as byte
  }

  /** The k lowest bits. */
  function Mask(k: nat): byte
    requires k <= 8
  {
    match k
    case 0 => 0
    case 1 => 1
    case 2 => 3
    case 3 => 7
    case 4 => 15
    case 5 => 31
    case 6 => 63
    case 7 => 127
    case 8 => 255
  }

  function Clamp(x: int): nat {
    if x < 0 then 0 else if x > 8 then 8 else x
  }

  lemma MaskGrows(k: nat)
    requires k < 8
    ensures OrBit(Mask(k), k) == Mask(k + 1)
  {
  }

  lemma MaskBits(n: nat, k: nat)
    requires n <= 8 && k < 8
    ensures BitSet(Mask(n), k) <==> k < n
  {
  }

  /** Bit k of byte q of the m'th bitmap block, which is block 4096 * m + 8 * q + k's, is set exactly when
      that block is below `used`. */
  predicate BitAt(d: Disk, used: nat, m: nat, q: nat, k: nat) {
    m < NBITMAP && q < BSIZE && k < 8 ==> (BitSet(Byte(d, 2 + m, q), k) <==> 4096 * m + 8 * q + k < used)
  }

  ghost predicate BitmapIs(d: Disk, used: nat) {
    forall m: nat, q: nat, k: nat :: BitAt(d, used, m, q, k)
  }

  /** The same by block number, addressed as the kernel does. */
  lemma BlockBit(d: Disk, used: nat, b: nat)
    requires BitmapIs(d, used) && b < NBITMAP * 4096
    ensures BitSet(Byte(d, b / 4096 + 2, b % 4096 / 8), b % 8) <==> b < used
  {
    assert BitAt(d, used, b / 4096, b % 4096 / 8, b % 8);
  }

  /** A sector whose first `count` bits are set. */
  predicate Filled(s: seq<byte>, count: int) {
    |s| == BSIZE && forall q :: 0 <= q < BSIZE ==> s[q] == Mask(Clamp(count - 8 * q))
  }

  /** d' is d but for the bitmap. */
  ghost predicate OnlyBitmap(d: Disk, d': Disk) {
    DiskOk(d) && DiskOk(d') && forall b :: 0 <= b < FSSIZE && !(2 <= b < INODESTART) ==> d'[b] == d[b]
  }

  /** balloc's inner loop: the first `count` bits of a sector. */
  method BitmapSector(count: nat) returns (r: seq<byte>)
    requires count <= 4096
    ensures Filled(r, count)
  {
    var buf := new byte[BSIZE](_ => 0);
    var i := 0;
    while i < count
      invariant 0 <= i <= count && forall q :: 0 <= q < BSIZE ==> buf[q] == Mask(Clamp(i - 8 * q))
    {
      MaskGrows(i % 8);
      buf[i / 8] := OrBit(buf[i / 8], i % 8);
      i := i + 1;
    }
    r := buf[..];
  }

  /** balloc: exactly the first `used` bits are set, sector by sector. */
  method Balloc(img: Image, used: nat)
    requires DiskOk(img.Now()) && used <= FSSIZE && forall b: nat, i: nat :: FreeIs(img.Now(), b, i)
    modifies img.sectors
    ensures OnlyBitmap(old(img.Now()), img.Now()) && BitmapIs(img.Now(), used)
  {
    ghost var d := img.Now();
    var nbuf, remaining: int := 0, used;
    while remaining > 0
      invariant 0 <= nbuf <= NBITMAP && remaining == used - 4096 * nbuf && DiskOk(img.Now())
      invariant forall m: nat :: m < nbuf ==> Written(img.Now(), used, m)
      invariant forall b :: 0 <= b < FSSIZE && !(2 <= b < 2 + nbuf) ==> img.sectors[b] == d[b]
    {
      var buf := BitmapSector(if remaining < 4096 then remaining else 4096);
      FullIsFull(buf, remaining);
      ghost var before := img.Now();
      img.sectors[2 + nbuf] := buf;
      nbuf := nbuf + 1;
      forall m: nat | m < nbuf ensures Written(img.Now(), used, m) {
        assert m < nbuf - 1 ==> Written(before, used, m);
      }
      remaining := remaining - 4096;
    }
    forall m: nat, q: nat, k: nat ensures BitAt(img.Now(), used, m, q, k) {
      if m < NBITMAP && q < BSIZE && k < 8 {
        if m < nbuf {
          assert Written(img.Now(), used, m);
          MaskBits(Clamp(used - 4096 * m - 8 * q), k);
        } else {
          assert FreeIs(d, 2 + m, q);
          MaskBits(0, k);
        }
      }
    }
  }

  predicate Written(d: Disk, used: nat, m: nat) {
    2 + m < |d| && Filled(d[2 + m], used - 4096 * m)
  }

  /** A sector with all 4096 bits set is also one whose first `remaining` are, if that is more. */
  lemma FullIsFull(s: seq<byte>, remaining: int)
    requires Filled(s, if remaining < 4096 then remaining else 4096)
    ensures Filled(s, remaining)
  {
  }

  // ---- the finished image ----

  ghost predicate Finished(d: Disk, files: seq<File>) {
    && Fits(files) && DiskOk(d) && LayoutOk(LayoutOf(files))
    && Holds(d, 1, SuperBytes()) && BitmapIs(d, StartOf(files, |files|))
    && (forall j: nat :: InodeIs(d, Inodes(LayoutOf(files), |files|), j))
    && Holds(d, LayoutOf(files).root, Dir(files, |files| + 3))
    && (forall j: nat :: FileIs(d, LayoutOf(files), |files|, j))
  }

  lemma SameBytes(d: Disk, d': Disk, at: nat, bs: seq<byte>)
    requires OnlyBitmap(d, d') && (at >= INODESTART || (at == 1 && |bs| <= 512)) && Holds(d, at, bs)
    ensures Holds(d', at, bs)
  {
    forall p: nat ensures BytesAre(d', at, bs, p) {
      assert BytesAre(d, at, bs, p);
      if p < |bs| && at == 1 {
        InExtent(p, 512, 1);
      }
    }
  }

  lemma SameInode(d: Disk, d': Disk, j: nat)
    requires OnlyBitmap(d, d')
    ensures DinodeAt(d', j) == DinodeAt(d, j)
  {
    forall i | 0 <= i < 64 ensures Slice(d', INODESTART, j * 64, 64)[i] == Slice(d, INODESTART, j * 64, 64)[i] {
      SameByte(d, d', INODESTART, j * 64 + i);
    }
    assert Slice(d', INODESTART, j * 64, 64) == Slice(d, INODESTART, j * 64, 64);
  }

  lemma SameByte(d: Disk, d': Disk, at: nat, p: nat)
    requires OnlyBitmap(d, d') && at >= INODESTART
    ensures ByteAt(d', at, p) == ByteAt(d, at, p)
  {
  }

  /** The bitmap's sectors hold nothing else. */
  lemma Done(d: Disk, d': Disk, files: seq<File>, l: Layout, inodes: seq<Dinode>, dir: seq<byte>, sb: seq<byte>)
    requires |inodes| <= l.n && Built(d, l, sb, inodes, dir, |l.contents|, []) && OnlyBitmap(d, d')
    ensures Holds(d', 1, sb) && (forall j: nat :: InodeIs(d', inodes, j)) && Holds(d', l.root, dir)
    ensures forall j: nat :: FileIs(d', l, |l.contents|, j)
  {
    SameBytes(d, d', 1, sb);
    SameBytes(d, d', l.root, dir);
    forall j: nat ensures InodeIs(d', inodes, j) {
      assert InodeIs(d, inodes, j);
      SameInode(d, d', j);
    }
    forall j: nat ensures FileIs(d', l, |l.contents|, j) {
      assert FileIs(d, l, |l.contents|, j) && Ascending(l, 0, j);
      if j < |l.contents| {
        SameBytes(d, d', l.starts[j], l.contents[j]);
      }
    }
  }

  /** mkfs: for input files that fit, the image holds all of them. */
  method Build(files: seq<File>) returns (img: Image)
    requires Fits(files)
    ensures fresh(img) && fresh(img.sectors) && Finished(img.Now(), files) && img.freeblock == StartOf(files, |files|)
  {
    img := new Image(SuperBytes());
    LayoutOfOk(files);
    ghost var l := LayoutOf(files);
    HoldsNothing(img.Now(), l.root);
    HoldsNothing(img.Now(), l.starts[0]);
    MakeTable(img, |files| + 3, l, SuperBytes());
    MakeRoot(img, |files| + 3, l, SuperBytes());
    MakeEntries(img, files);
    AddFiles(img, files);
    ghost var d := img.Now();
    Balloc(img, img.freeblock);
    Done(d, img.Now(), files, l, Inodes(l, |files|), Dir(files, |files| + 3), SuperBytes());
  }

  method AddFiles(img: Image, files: seq<File>)
    requires Ready(img, files, Inodes(LayoutOf(files), 0), 3, 0) && img.freeblock == LayoutOf(files).starts[0]
    modifies img, img.sectors
    ensures Ready(img, files, Inodes(LayoutOf(files), |files|), |files| + 3, |files|) && img.freeblock == StartOf(files, |files|)
  {
    var i := 0;
    while i < |files|
      invariant 0 <= i <= |files| && img.freeblock == LayoutOf(files).starts[i]
      invariant Ready(img, files, Inodes(LayoutOf(files), i), i + 3, i)
    {
      AddFile(img, files[i], files, i);
      i := i + 1;
    }
  }
}
