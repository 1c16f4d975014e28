/** mkfs's main: layout arithmetic, the entries and files, and the free bitmap. */
module MkfsMain {
  import opened Prelude
  import opened FsLayout
  import opened Mkfs

  /** An input file: its name in the image, and its contents as successive reads return them. */
  datatype File = File(name: seq<byte>, chunks: seq<seq<byte>>)

  function Content(chunks: seq<seq<byte>>): seq<byte> {
    if chunks == [] then [] else Content(chunks[..|chunks| - 1]) + chunks[|chunks| - 1]
  }

  lemma {:induction false} ContentGrows(chunks: seq<seq<byte>>, k: nat)
    requires k <= |chunks|
    ensures |Content(chunks[..k])| <= |Content(chunks)|
  {
    if k < |chunks| {
      ContentGrows(chunks[..|chunks| - 1], k);
      assert chunks[..|chunks| - 1][..k] == chunks[..k];
    } else {
      assert chunks[..k] == chunks;
    }
  }

  // ---- layout arithmetic ----

  function Blocks(size: nat): nat {
    size / 512 + if size % 512 == 0 then 0 else 1
  }

  function TableBlocks(n: nat): nat {
    n / 8 + if n / 8 == 0 || n * 64 % 512 != 0 then 1 else 0
  }

  lemma BlocksHold(size: nat)
    ensures size <= Blocks(size) * 512
  {
  }

  lemma TableHolds(n: nat)
    ensures n * 64 <= TableBlocks(n) * 512
  {
  }

  /** The first block of the j'th file, and the first free one when j is their number. */
  function StartOf(files: seq<File>, j: nat): nat
    requires j <= |files|
  {
    if j == 0 then INODESTART + TableBlocks(|files| + 3) + Blocks((|files| + 3) * 16)
    else StartOf(files, j - 1) + Blocks(|Content(files[j - 1].chunks)|)
  }

  /** The inode numbers fit their 16 bits and the files the disk. */
  predicate Fits(files: seq<File>) {
    |files| + 3 <= 0x1_0000 && StartOf(files, |files|) <= FSSIZE
  }

  function LayoutOf(files: seq<File>): Layout {
    var n := |files| + 3;
    Layout(n, TableBlocks(n), INODESTART + TableBlocks(n), Blocks(n * 16),
           seq(|files| + 1, j requires 0 <= j < |files| + 1 => StartOf(files, j)),
           seq(|files|, j requires 0 <= j < |files| => Content(files[j].chunks)))
  }

  lemma {:induction false} StartsGrow(files: seq<File>, i: nat, j: nat)
    requires i <= j <= |files|
    ensures StartOf(files, i) <= StartOf(files, j)
    decreases j
  {
    if i < j {
      StartsGrow(files, i, j - 1);
    }
  }

  lemma LayoutOfOk(files: seq<File>)
    requires Fits(files)
    ensures LayoutOk(LayoutOf(files))
  {
    var l, n := LayoutOf(files), |files| + 3;
    TableHolds(n);
    BlocksHold(n * 16);
    forall i: nat, j: nat ensures Ascending(l, i, j) {
      if i <= j <= |files| {
        StartsGrow(files, i, j);
        StartsGrow(files, j, |files|);
      }
    }
    forall j: nat ensures FileFits(l, j) {
      if j < |files| {
        StartsGrow(files, j + 1, |files|);
        BlocksHold(|Content(files[j].chunks)|);
        assert l.starts[j + 1] == l.starts[j] + Blocks(|l.contents[j]|);
      }
    }
  }

  // ---- the root directory ----

  const DOT: seq<byte> := [46]
  const DOTDOT: seq<byte> := [46, 46]
  const CONSOLE_NAME: seq<byte> := [99, 111, 110, 115, 111, 108, 101]

  function Names(files: seq<File>, j: nat): seq<byte>
    requires j < |files| + 3
  {
    if j == 0 then DOT else if j == 1 then DOTDOT else if j == 2 then CONSOLE_NAME else files[j - 3].name
  }

  function EntryInum(j: nat): nat {
    if j == 0 then 1 else j
  }

  /** The first k entries. */
  function Dir(files: seq<File>, k: nat): (r: seq<byte>)
    requires k <= |files| + 3 <= 0x1_0000
    ensures |r| == k * 16
  {
    if k == 0 then [] else Dir(files, k - 1) + EncodeDirent(EntryInum(k - 1), Names(files, k - 1))
  }

  function SuperBytes(): (r: seq<byte>)
    ensures |r| == 16
  {
    Le32(FSSIZE) + Le32(FSSIZE - INODESTART) + Le32(2) + Le32(INODESTART)
  }

  /** The inodes once k files are complete: the root directory has k + 3 entries. */
  function Inodes(l: Layout, k: nat): (r: seq<Dinode>)
    ensures |r| == k + 3
  {
    seq(k + 3, j requires 0 <= j < k + 3 => if j == 1 then RootInode(l, k + 3) else Expected(l, j))
  }

  /** The state of the image between two of main's steps. */
  ghost predicate Ready(img: Image, files: seq<File>, inodes: seq<Dinode>, entries: nat, k: nat)
    reads img, img.sectors
  {
    && Fits(files) && entries <= |files| + 3 && img.freeinode == |inodes|
    && Built(img.Now(), LayoutOf(files), SuperBytes(), inodes, Dir(files, entries), k, [])
  }

  /** The next directory entry. */
  method AddEntry(img: Image, inum: nat, name: seq<byte>, ghost files: seq<File>, ghost inodes: seq<Dinode>, ghost j: nat, ghost k: nat)
    requires j < |files| + 3 && Ready(img, files, inodes, j, k) && 1 < |inodes| && inodes[1] == RootInode(LayoutOf(files), j)
    requires inum == EntryInum(j) && name == Names(files, j)
    modifies img.sectors
    ensures Ready(img, files, inodes[1 := RootInode(LayoutOf(files), j + 1)], j + 1, k)
  {
    ghost var l, dir := LayoutOf(files), Dir(files, j);
    var bs := EncodeDirent(inum, name);
    img.AppendDir(bs, l, SuperBytes(), inodes, dir, j, k);
    assert Dir(files, j + 1) == dir + bs;
  }

  /** The inode table's own inode, and the blocks it takes. */
  method MakeTable(img: Image, n: nat, ghost l: Layout, ghost sb: seq<byte>)
    requires n == l.n && l.tableBlocks == TableBlocks(n) && Built(img.Now(), l, sb, [], [], 0, [])
    requires img.freeinode == 0 && img.freeblock == INODESTART
    modifies img, img.sectors
    ensures img.freeinode == 1 && img.freeblock == l.root && Built(img.Now(), l, sb, [Expected(l, 0)], [], 0, [])
  {
    var inum := img.Ialloc(T_FILE, l, sb, [], [], 0, []);
    ghost var inodes := [Dinode(T_FILE, 0, 0, 0, 0)];
    assert [] + inodes == inodes;
    var din := img.GetInode(inum, l, sb, inodes, [], 0, []);
    var blocks := n / 8;
    if blocks == 0 || n * 64 % 512 != 0 {
      blocks := blocks + 1;
    }
    ExpectedOk(l, 0);
    img.SetInode(inum, din.(start := INODESTART, nblocks := blocks, size := n * 64), l, sb, inodes, [], 0, []);
    img.freeblock := img.freeblock + blocks;
    assert inodes[0 := Expected(l, 0)] == [Expected(l, 0)];
  }

  /** iallocblocks for the root directory. */
  method MakeRoot(img: Image, n: nat, ghost l: Layout, ghost sb: seq<byte>)
    requires n == l.n && l.rootBlocks == Blocks(n * 16) && Built(img.Now(), l, sb, [Expected(l, 0)], [], 0, [])
    requires img.freeinode == 1 && img.freeblock == l.root
    modifies img, img.sectors
    ensures img.freeinode == 2 && img.freeblock == l.starts[0] && Built(img.Now(), l, sb, [Expected(l, 0), RootInode(l, 0)], [], 0, [])
  {
    var inum := img.Ialloc(T_DIR, l, sb, [Expected(l, 0)], [], 0, []);
    ghost var inodes := [Expected(l, 0), Dinode(T_DIR, 0, 0, 0, 0)];
    assert [Expected(l, 0)] + [Dinode(T_DIR, 0, 0, 0, 0)] == inodes;
    var din := img.GetInode(inum, l, sb, inodes, [], 0, []);
    var size := n * 16;
    var blocks := size / 512;
    if size % 512 != 0 {
      blocks := blocks + 1;
    }
    ExpectedOk(l, 1);
    img.SetInode(inum, din.(start := img.freeblock, nblocks := blocks), l, sb, inodes, [], 0, []);
    img.freeblock := img.freeblock + blocks;
    assert inodes[1 := RootInode(l, 0)] == [Expected(l, 0), RootInode(l, 0)];
  }

  /** ".", ".." and the console. */
  method MakeEntries(img: Image, ghost files: seq<File>)
    requires Ready(img, files, [Expected(LayoutOf(files), 0), RootInode(LayoutOf(files), 0)], 0, 0)
    requires img.freeblock == LayoutOf(files).starts[0]
    modifies img, img.sectors
    ensures Ready(img, files, Inodes(LayoutOf(files), 0), 3, 0) && img.freeblock == LayoutOf(files).starts[0]
  {
    ghost var l, sb := LayoutOf(files), SuperBytes();
    ghost var t := Expected(l, 0);
    AddEntry(img, 1, DOT, files, [t, RootInode(l, 0)], 0, 0);
    assert [t, RootInode(l, 0)][1 := RootInode(l, 1)] == [t, RootInode(l, 1)];
    AddEntry(img, 1, DOTDOT, files, [t, RootInode(l, 1)], 1, 0);
    assert [t, RootInode(l, 1)][1 := RootInode(l, 2)] == [t, RootInode(l, 2)];
    var inum := MakeConsole(img, files);
    ghost var c := Expected(l, 2);
    AddEntry(img, inum, CONSOLE_NAME, files, [t, RootInode(l, 2), c], 2, 0);
    assert [t, RootInode(l, 2), c][1 := RootInode(l, 3)] == Inodes(l, 0);
  }

  method MakeConsole(img: Image, ghost files: seq<File>) returns (inum: nat)
    requires Ready(img, files, [Expected(LayoutOf(files), 0), RootInode(LayoutOf(files), 2)], 2, 0)
    modifies img, img.sectors
    ensures inum == 2 && img.freeblock == old(img.freeblock)
    ensures Ready(img, files, [Expected(LayoutOf(files), 0), RootInode(LayoutOf(files), 2), Expected(LayoutOf(files), 2)], 2, 0)
  {
    ghost var l, sb, dir := LayoutOf(files), SuperBytes(), Dir(files, 2);
    ghost var two := [Expected(l, 0), RootInode(l, 2)];
    inum := img.Ialloc(T_DEV, l, sb, two, dir, 0, []);
    ghost var three := two + [Dinode(T_DEV, 0, 0, 0, 0)];
    var din := img.GetInode(inum, l, sb, three, dir, 0, []);
    img.SetInode(inum, din.(devid := CONSOLE), l, sb, three, dir, 0, []);
    assert three[2 := Expected(l, 2)] == [Expected(l, 0), RootInode(l, 2), Expected(l, 2)];
  }

  // ---- one input file ----

  /** The inodes when the k'th file's start is known and `size` bytes of it are written. */
  function Started(l: Layout, k: nat, size: nat): (r: seq<Dinode>)
    requires k < |l.starts|
    ensures |r| == k + 4
  {
    Inodes(l, k)[1 := RootInode(l, k + 4)] + [Dinode(T_FILE, 0, size, l.starts[k], 0)]
  }

  lemma FinishedInodes(l: Layout, k: nat, size: nat)
    requires LayoutOk(l) && k < |l.contents|
    ensures Started(l, k, size)[k + 3 := Expected(l, k + 3)] == Inodes(l, k + 1)
  {
  }

  lemma StartedGrows(l: Layout, k: nat, size: nat, size': nat)
    requires k < |l.starts|
    ensures Started(l, k, size)[k + 3 := Dinode(T_FILE, 0, size', l.starts[k], 0)] == Started(l, k, size')
  {
  }

  /** Its inode and directory entry. */
  method StartFile(img: Image, file: File, ghost files: seq<File>, ghost k: nat) returns (inum: nat)
    requires k < |files| && file == files[k] && Ready(img, files, Inodes(LayoutOf(files), k), k + 3, k)
    requires img.freeblock == LayoutOf(files).starts[k]
    modifies img, img.sectors
    ensures inum == k + 3 && img.freeblock == LayoutOf(files).starts[k]
    ensures Ready(img, files, Started(LayoutOf(files), k, 0), k + 4, k)
  {
    ghost var l, sb := LayoutOf(files), SuperBytes();
    inum := img.Ialloc(T_FILE, l, sb, Inodes(l, k), Dir(files, k + 3), k, []);
    ghost var more := Inodes(l, k) + [Dinode(T_FILE, 0, 0, 0, 0)];
    AddEntry(img, inum, file.name, files, more, k + 3, k);
    ghost var all := more[1 := RootInode(l, k + 4)];
    SetStart(img, inum, l, sb, all, Dir(files, k + 4), k);
    assert all[inum := Dinode(T_FILE, 0, 0, l.starts[k], 0)] == Started(l, k, 0);
  }

  method SetStart(img: Image, inum: nat, ghost l: Layout, ghost sb: seq<byte>, ghost all: seq<Dinode>, ghost dir: seq<byte>, ghost k: nat)
    requires Built(img.Now(), l, sb, all, dir, k, []) && inum < |all| && all[inum] == Dinode(T_FILE, 0, 0, 0, 0)
    requires img.freeblock == l.starts[k]
    modifies img.sectors
    ensures Built(img.Now(), l, sb, all[inum := Dinode(T_FILE, 0, 0, l.starts[k], 0)], dir, k, [])
  {
    var din := img.GetInode(inum, l, sb, all, dir, k, []);
    assert Ascending(l, k, k);
    img.SetInode(inum, din.(start := img.freeblock), l, sb, all, dir, k, []);
  }

  /** The loop that reads the input and appends it. */
  method AddChunks(img: Image, inum: nat, file: File, ghost l: Layout, ghost sb: seq<byte>, ghost dir: seq<byte>, ghost k: nat)
    requires LayoutOk(l) && k < |l.contents| && inum == k + 3 && l.contents[k] == Content(file.chunks)
    requires Built(img.Now(), l, sb, Started(l, k, 0), dir, k, [])
    modifies img.sectors
    ensures Built(img.Now(), l, sb, Started(l, k, |l.contents[k]|), dir, k, l.contents[k])
  {
    var i := 0;
    while i < |file.chunks|
      invariant 0 <= i <= |file.chunks|
      invariant var c := Content(file.chunks[..i]); Built(img.Now(), l, sb, Started(l, k, |c|), dir, k, c)
    {
      ghost var c := Content(file.chunks[..i]);
      NextChunk(file.chunks, i);
      img.AppendData(inum, file.chunks[i], l, sb, Started(l, k, |c|), dir, k, c);
      StartedGrows(l, k, |c|, |c| + |file.chunks[i]|);
      i := i + 1;
    }
    assert file.chunks[..i] == file.chunks;
  }

  lemma NextChunk(chunks: seq<seq<byte>>, i: nat)
    requires i < |chunks|
    ensures Content(chunks[..i + 1]) == Content(chunks[..i]) + chunks[i]
    ensures |Content(chunks[..i])| + |chunks[i]| <= |Content(chunks)|
  {
    ContentGrows(chunks, i + 1);
    assert chunks[..i + 1][..i] == chunks[..i];
  }

  /** The number of blocks is set and the next file starts behind them. */
  method FinishFile(img: Image, inum: nat, ghost l: Layout, ghost sb: seq<byte>, ghost dir: seq<byte>, ghost k: nat)
    requires LayoutOk(l) && k < |l.contents| && inum == k + 3 && img.freeblock == l.starts[k]
    requires l.starts[k + 1] == l.starts[k] + Blocks(|l.contents[k]|)
    requires Built(img.Now(), l, sb, Started(l, k, |l.contents[k]|), dir, k, l.contents[k])
    modifies img, img.sectors
    ensures img.freeinode == old(img.freeinode) && img.freeblock == l.starts[k + 1]
    ensures Built(img.Now(), l, sb, Inodes(l, k + 1), dir, k + 1, [])
  {
    ghost var size := |l.contents[k]|;
    var din := img.GetInode(inum, l, sb, Started(l, k, size), dir, k, l.contents[k]);
    din := din.(nblocks := din.size / 512 + if din.size % 512 == 0 then 0 else 1);
    img.freeblock := img.freeblock + din.nblocks;
    ExpectedOk(l, k + 3);
    assert din == Expected(l, k + 3);
    img.SetInode(inum, din, l, sb, Started(l, k, size), dir, k, l.contents[k]);
    FinishedInodes(l, k, size);
    BuiltFile(img.Now(), l, sb, Inodes(l, k + 1), dir, k);
  }

  method AddFile(img: Image, file: File, ghost files: seq<File>, ghost k: nat)
    requires k < |files| && file == files[k] && Ready(img, files, Inodes(LayoutOf(files), k), k + 3, k)
    requires img.freeblock == LayoutOf(files).starts[k]
    modifies img, img.sectors
    ensures Ready(img, files, Inodes(LayoutOf(files), k + 1), k + 4, k + 1) && img.freeblock == LayoutOf(files).starts[k + 1]
  {
    ghost var l, sb, dir := LayoutOf(files), SuperBytes(), Dir(files, k + 4);
    var inum := StartFile(img, file, files, k);
    AddChunks(img, inum, file, l, sb, dir, k);
    FinishFile(img, inum, l, sb, dir, k);
  }
}
