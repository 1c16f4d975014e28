/** The kernel's reader: readi, directory lookup and absolute paths; and that it reads back what mkfs
    wrote. */
module FsRead {
  import opened Prelude
  import opened FsLayout
  import opened Mkfs
  import opened MkfsMain
  import opened FsBitmap

  const SLASH: byte := 47
  const ROOTINO: nat := 1

  datatype ReadResult = Bytes(bytes: seq<byte>) | ReadError

  function Min(a: nat, b: nat): nat {
    if a < b then a else b
  }

  // ---- readi ----

  /** A file's blocks are on the disk. */
  predicate OnDisk(d: Disk, ip: Dinode) {
    DiskOk(d) && ip.start + Blocks(ip.size) <= FSSIZE
  }

  /** The slice of the file that a read returns; offsets and lengths are 32-bit. */
  function ReadSpec(d: Disk, ip: Dinode, off: nat, n: nat): ReadResult {
    if off > ip.size || off + n >= 0x1_0000_0000 then ReadError
    else Bytes(Slice(d, ip.start, off, Min(n, ip.size - off)))
  }

  /** readi on a file or directory: block by block. */
  method Readi(d: Disk, ip: Dinode, off: nat, n: nat) returns (r: ReadResult)
    requires OnDisk(d, ip) && ip.kind != T_DEV
    ensures r == ReadSpec(d, ip, off, n)
  {
    if off > ip.size || off + n >= 0x1_0000_0000 {
      return ReadError;
    }
    var total := n;
    if off + n > ip.size {
      total := ip.size - off;
    }
    var dst, tot := [], 0;
    while tot < total
      invariant 0 <= tot <= total && dst == Slice(d, ip.start, off, tot)
    {
      var at := off + tot;
      BlocksHold(ip.size);
      InExtent(at, ip.size, Blocks(ip.size));
      var m := Min(total - tot, 512 - at % 512);
      SectorSlice(d, ip.start, at, m);
      dst := dst + d[ip.start + at / 512][at % 512..at % 512 + m];
      SliceAppend(d, ip.start, off, tot, m);
      tot := tot + m;
    }
    return Bytes(dst);
  }

  /** Part of one sector. */
  lemma SectorSlice(d: Disk, start: nat, at: nat, m: nat)
    requires DiskOk(d) && start + at / 512 < FSSIZE && at % 512 + m <= 512
    ensures d[start + at / 512][at % 512..at % 512 + m] == Slice(d, start, at, m)
  {
    var s := d[start + at / 512][at % 512..at % 512 + m];
    forall i | 0 <= i < m ensures s[i] == Slice(d, start, at, m)[i] {
      SameSector(at, i);
    }
  }

  lemma SameSector(at: nat, i: nat)
    requires at % 512 + i < 512
    ensures (at + i) / 512 == at / 512 && (at + i) % 512 == at % 512 + i
  {
  }

  lemma SliceAppend(d: Disk, start: nat, off: nat, n: nat, m: nat)
    ensures Slice(d, start, off, n) + Slice(d, start, off + n, m) == Slice(d, start, off, n + m)
  {
  }

  // ---- dirlookup ----

  /** strncmp(s, t, n) == 0 */
  predicate StrncmpEq(s: seq<byte>, t: seq<byte>, n: nat) {
    n == 0 || (s != [] && t != [] && s[0] == t[0] && (s[0] == 0 || StrncmpEq(s[1..], t[1..], n - 1)))
  }

  predicate NoNul(name: seq<byte>) {
    forall i :: 0 <= i < |name| ==> name[i] != 0
  }

  function Truncated(name: seq<byte>): seq<byte> {
    if |name| >= DIRSIZ then name[..DIRSIZ] else name
  }

  /** What skipelem leaves in the caller's buffer: the element and, if it is shorter, a terminator; the
      rest of the buffer is whatever was there. */
  function NameBuffer(name: seq<byte>, junk: seq<byte>): seq<byte> {
    if |name| >= DIRSIZ then name[..DIRSIZ] else name + [0] + junk
  }

  /** namecmp compares names up to 14 bytes, whatever follows the terminator. */
  lemma {:induction false} StrncmpIsEquality(a: seq<byte>, b: seq<byte>, junk: seq<byte>, pad: seq<byte>, n: nat)
    requires NoNul(a) && NoNul(b) && |a| <= n && |b| <= n
    requires |a| < n ==> |junk| > 0 && junk[0] == 0
    requires |b| < n ==> |pad| > 0 && pad[0] == 0
    ensures StrncmpEq(a + junk, b + pad, n) <==> a == b
  {
    if n > 0 {
      if a == [] || b == [] {
        assert a == [] ==> (a + junk)[0] == 0;
        assert b == [] ==> (b + pad)[0] == 0;
      } else {
        assert (a + junk)[1..] == a[1..] + junk && (b + pad)[1..] == b[1..] + pad;
        StrncmpIsEquality(a[1..], b[1..], junk, pad, n - 1);
        assert a == [a[0]] + a[1..] && b == [b[0]] + b[1..];
      }
    }
  }

  lemma NamecmpIsEquality(a: seq<byte>, b: seq<byte>, junk: seq<byte>)
    requires NoNul(a) && NoNul(b)
    ensures StrncmpEq(NameBuffer(a, junk), NameField(b), DIRSIZ) <==> Truncated(a) == Truncated(b)
  {
    var ta, tb := Truncated(a), Truncated(b);
    var ja := if |a| >= DIRSIZ then [] else [0] + junk;
    var pb := if |b| >= DIRSIZ then [] else Zeroes(DIRSIZ - |b|);
    assert NameBuffer(a, junk) == ta + ja && NameField(b) == tb + pb;
    StrncmpIsEquality(ta, tb, ja, pb, DIRSIZ);
  }

  /** The inode number of the first used entry from the j'th on that has the name. */
  function LookupFrom(d: Disk, dp: Dinode, name: seq<byte>, j: nat): Option<nat>
    decreases dp.size - j * 16
  {
    if j * 16 >= dp.size then None
    else
      var de := Slice(d, dp.start, j * 16, 16);
      if From16(de[..2]) != 0 && StrncmpEq(name, de[2..], DIRSIZ) then Some(From16(de[..2]))
      else LookupFrom(d, dp, name, j + 1)
  }

  /** dirlookup; None when the name is not there. The directory's size is a number of entries. */
  method Dirlookup(d: Disk, dp: Dinode, name: seq<byte>) returns (r: Option<nat>)
    requires OnDisk(d, dp) && dp.kind == T_DIR && dp.size % 16 == 0 && dp.size < 0x1_0000_0000 - 16
    ensures r == LookupFrom(d, dp, name, 0)
  {
    var j := 0;  // the entry at offset j * 16
    while j * 16 < dp.size
      invariant 0 <= j * 16 <= dp.size && LookupFrom(d, dp, name, j) == LookupFrom(d, dp, name, 0)
    {
      WholeEntry(dp.size, j);
      var got := Readi(d, dp, j * 16, 16);
      var de := got.bytes;
      if From16(de[..2]) != 0 && StrncmpEq(name, de[2..], DIRSIZ) {
        return Some(From16(de[..2]));
      }
      j := j + 1;
    }
    return None;
  }

  lemma WholeEntry(size: nat, j: nat)
    requires size % 16 == 0 && j * 16 < size
    ensures j * 16 + 16 <= size
  {
  }

  // ---- paths ----

  function Slashes(path: seq<byte>): (n: nat)
    ensures n <= |path| && (n < |path| ==> path[n] != SLASH)
  {
    if path == [] || path[0] != SLASH then 0 else 1 + Slashes(path[1..])
  }

  function ElemLength(path: seq<byte>): (n: nat)
    ensures n <= |path|
  {
    if path == [] || path[0] == SLASH then 0 else 1 + ElemLength(path[1..])
  }

  /** skipelem: the first element and what follows it, without slashes at either's front. */
  function SkipElem(path: seq<byte>): (r: Option<(seq<byte>, seq<byte>)>)
    ensures r.Some? ==> |r.value.1| < |path|
  {
    var s := path[Slashes(path)..];
    if s == [] then None
    else
      var rest := s[ElemLength(s)..];
      Some((s[..ElemLength(s)], rest[Slashes(rest)..]))
  }

  method Skipelem(path: seq<byte>) returns (r: Option<(seq<byte>, seq<byte>)>)
    ensures r == SkipElem(path)
  {
    assert path[0..] == path;
    var i := PastSlashes(path, 0);
    if i == |path| {
      return None;
    }
    var e := PastElement(path, i);
    var rest := PastSlashes(path, e);
    assert path[Slashes(path)..] == path[i..] != [];
    return Some((path[i..e], path[rest..]));
  }

  lemma CountStep(path: seq<byte>, i: nat)
    requires i < |path|
    ensures path[i] == SLASH ==> Slashes(path[i..]) == 1 + Slashes(path[i + 1..])
    ensures path[i] != SLASH ==> ElemLength(path[i..]) == 1 + ElemLength(path[i + 1..])
  {
    assert path[i..][1..] == path[i + 1..];
  }

  lemma CountEnds(path: seq<byte>, i: nat)
    requires i <= |path|
    ensures i == |path| || path[i] != SLASH ==> Slashes(path[i..]) == 0
    ensures i == |path| || path[i] == SLASH ==> ElemLength(path[i..]) == 0
  {
  }

  method PastSlashes(path: seq<byte>, from: nat) returns (i: nat)
    requires from <= |path|
    ensures from <= i <= |path| && i == from + Slashes(path[from..]) && path[from..][Slashes(path[from..])..] == path[i..]
  {
    i := from;
    while i < |path| && path[i] == SLASH
      invariant from <= i <= |path| && Slashes(path[from..]) == i - from + Slashes(path[i..])
    {
      CountStep(path, i);
      i := i + 1;
    }
    CountEnds(path, i);
  }

  method PastElement(path: seq<byte>, from: nat) returns (i: nat)
    requires from <= |path|
    ensures from <= i <= |path| && i == from + ElemLength(path[from..])
    ensures path[from..][..i - from] == path[from..i] && path[from..][i - from..] == path[i..]
  {
    i := from;
    while i < |path| && path[i] != SLASH
      invariant from <= i <= |path| && ElemLength(path[from..]) == i - from + ElemLength(path[i..])
    {
      CountStep(path, i);
      i := i + 1;
    }
    CountEnds(path, i);
  }

  /** namex on an absolute path, from inode ip. The name buffer's junk does not matter. */
  function NameSpec(d: Disk, ip: nat, path: seq<byte>): Option<nat>
    decreases |path|
  {
    match SkipElem(path)
    case None => Some(ip)
    case Some((elem, rest)) =>
      if DinodeAt(d, ip).kind != T_DIR then None
      else
        match LookupFrom(d, DinodeAt(d, ip), NameBuffer(elem, []), 0)
        case None => None
        case Some(next) => NameSpec(d, next, rest)
  }

  /** What follows the terminator in a name buffer does not matter. */
  lemma {:induction false} JunkIrrelevant(a: seq<byte>, x: seq<byte>, y: seq<byte>, t: seq<byte>, n: nat)
    ensures StrncmpEq(a + [0] + x, t, n) <==> StrncmpEq(a + [0] + y, t, n)
  {
    if n > 0 && t != [] && a != [] && a[0] != 0 {
      assert (a + [0] + x)[1..] == a[1..] + [0] + x && (a + [0] + y)[1..] == a[1..] + [0] + y;
      JunkIrrelevant(a[1..], x, y, t[1..], n - 1);
    }
  }

  lemma {:induction false} LookupIgnoresJunk(d: Disk, dp: Dinode, elem: seq<byte>, junk: seq<byte>, j: nat)
    ensures LookupFrom(d, dp, NameBuffer(elem, junk), j) == LookupFrom(d, dp, NameBuffer(elem, []), j)
    decreases dp.size - j * 16
  {
    if j * 16 < dp.size {
      if |elem| < DIRSIZ {
        JunkIrrelevant(elem, junk, [], Slice(d, dp.start, j * 16, 16)[2..], DIRSIZ);
      }
      LookupIgnoresJunk(d, dp, elem, junk, j + 1);
    }
  }

  // ---- an image mkfs finished ----

  predicate NameOk(name: seq<byte>) {
    name != [] && NoNul(name) && forall i :: 0 <= i < |name| ==> name[i] != SLASH
  }

  predicate NamesApart(files: seq<File>, i: nat, j: nat) {
    i < j < |files| + 3 ==> Truncated(Names(files, i)) != Truncated(Names(files, j))
  }

  /** File names without slashes, distinct in their first 14 bytes, also from the other entries'. */
  ghost predicate NamesOk(files: seq<File>) {
    NamesPlain(files) && forall i: nat, j: nat :: NamesApart(files, i, j)
  }

  predicate NamesPlain(files: seq<File>) {
    forall j :: 0 <= j < |files| ==> NameOk(files[j].name)
  }

  lemma SliceOfSum<T>(a: seq<T>, b: seq<T>, i: nat, j: nat)
    requires i <= j <= |a|
    ensures (a + b)[i..j] == a[i..j]
  {
  }

  lemma SliceBehind<T>(a: seq<T>, b: seq<T>, n: nat)
    requires n == |a|
    ensures (a + b)[n..n + |b|] == b
  {
  }

  lemma {:induction false} DirEntry(files: seq<File>, k: nat, j: nat)
    requires j < k <= |files| + 3 <= 0x1_0000
    ensures Dir(files, k)[j * 16..j * 16 + 16] == EncodeDirent(EntryInum(j), Names(files, j))
  {
    if j < k - 1 {
      DirEntry(files, k - 1, j);
      SliceOfSum(Dir(files, k - 1), EncodeDirent(EntryInum(k - 1), Names(files, k - 1)), j * 16, j * 16 + 16);
    } else {
      SliceBehind(Dir(files, j), EncodeDirent(EntryInum(j), Names(files, j)), j * 16);
    }
  }

  lemma SliceHeld(d: Disk, start: nat, bs: seq<byte>, off: nat, n: nat)
    requires Holds(d, start, bs) && off + n <= |bs|
    ensures Slice(d, start, off, n) == bs[off..off + n]
  {
    forall i | 0 <= i < n ensures Slice(d, start, off, n)[i] == bs[off..off + n][i] {
      assert BytesAre(d, start, bs, off + i);
    }
  }

  lemma EntrySlice(d: Disk, files: seq<File>, j: nat)
    requires Finished(d, files) && j < |files| + 3
    ensures Slice(d, LayoutOf(files).root, j * 16, 16) == EncodeDirent(EntryInum(j), Names(files, j))
  {
    DirEntry(files, |files| + 3, j);
    SliceHeld(d, LayoutOf(files).root, Dir(files, |files| + 3), j * 16, 16);
  }

  /** An entry matches exactly its own name, up to 14 bytes. */
  lemma DirentMatches(inum: nat, stored: seq<byte>, name: seq<byte>)
    requires inum < 0x1_0000 && NoNul(stored) && NoNul(name)
    ensures From16(EncodeDirent(inum, stored)[..2]) == inum
    ensures StrncmpEq(NameBuffer(name, []), EncodeDirent(inum, stored)[2..], DIRSIZ) <==> Truncated(name) == Truncated(stored)
  {
    var de := EncodeDirent(inum, stored);
    assert de[..2] == Le16(inum) && de[2..] == NameField(stored);
    Le16RoundTrip(inum);
    NamecmpIsEquality(name, stored, []);
  }

  predicate Matches(files: seq<File>, name: seq<byte>, j: nat) {
    j < |files| + 3 && Truncated(Names(files, j)) == Truncated(name)
  }

  lemma EntryNoNul(files: seq<File>, j: nat)
    requires NamesPlain(files) && j < |files| + 3
    ensures NoNul(Names(files, j))
  {
  }

  /** r is the inode of the entry from the j'th on that has the name, None if there is none. */
  ghost predicate LookupIs(files: seq<File>, name: seq<byte>, j: nat, r: Option<nat>) {
    && (forall m: nat :: j <= m && Matches(files, name, m) ==> r == Some(EntryInum(m)))
    && (r.Some? ==> exists m: nat :: j <= m && Matches(files, name, m) && r == Some(EntryInum(m)))
  }

  lemma LookupHere(files: seq<File>, name: seq<byte>, j: nat)
    requires NamesOk(files) && Matches(files, name, j)
    ensures LookupIs(files, name, j, Some(EntryInum(j)))
  {
    forall m: nat | j <= m && Matches(files, name, m) ensures m == j {
      assert NamesApart(files, j, m);
    }
  }

  lemma LookupLater(files: seq<File>, name: seq<byte>, j: nat, r: Option<nat>)
    requires !Matches(files, name, j) && LookupIs(files, name, j + 1, r)
    ensures LookupIs(files, name, j, r)
  {
  }

  lemma LookupStep(d: Disk, files: seq<File>, name: seq<byte>, j: nat, root: Dinode)
    requires Finished(d, files) && NamesPlain(files) && NoNul(name) && j < |files| + 3
    requires root.start == LayoutOf(files).root && root.size == (|files| + 3) * 16
    ensures LookupFrom(d, root, NameBuffer(name, []), j)
         == if Matches(files, name, j) then Some(EntryInum(j)) else LookupFrom(d, root, NameBuffer(name, []), j + 1)
  {
    EntryNoNul(files, j);
    EntrySlice(d, files, j);
    DirentMatches(EntryInum(j), Names(files, j), name);
  }

  /** Looking a name up in the root finds the entry with that name, if there is one. */
  lemma {:induction false} LookupRoot(d: Disk, files: seq<File>, name: seq<byte>, j: nat, root: Dinode)
    requires Finished(d, files) && NamesOk(files) && NoNul(name) && j <= |files| + 3
    requires root.start == LayoutOf(files).root && root.size == (|files| + 3) * 16
    ensures LookupIs(files, name, j, LookupFrom(d, root, NameBuffer(name, []), j))
    decreases |files| + 3 - j
  {
    if j == |files| + 3 {
      assert LookupFrom(d, root, NameBuffer(name, []), j) == None;
    } else {
      LookupStep(d, files, name, j, root);
      if Matches(files, name, j) {
        LookupHere(files, name, j);
      } else {
        LookupRoot(d, files, name, j + 1, root);
        LookupLater(files, name, j, LookupFrom(d, root, NameBuffer(name, []), j + 1));
      }
    }
  }

  lemma {:induction false} WholeElement(name: seq<byte>)
    requires forall i :: 0 <= i < |name| ==> name[i] != SLASH
    ensures ElemLength(name) == |name|
  {
    if name != [] {
      WholeElement(name[1..]);
    }
  }

  lemma OneElement(name: seq<byte>)
    requires NameOk(name)
    ensures SkipElem([SLASH] + name) == Some((name, []))
  {
    var path := [SLASH] + name;
    assert path[1..] == name;
    assert Slashes(name) == 0 && Slashes(path) == 1;
    WholeElement(name);
    assert name[|name|..] == [] && name[..|name|] == name && Slashes([]) == 0;
  }

  lemma InodeOf(d: Disk, files: seq<File>, j: nat)
    requires Finished(d, files) && j < |files| + 3
    ensures DinodeAt(d, j) == Expected(LayoutOf(files), j)
  {
    assert InodeIs(d, Inodes(LayoutOf(files), |files|), j);
  }

  /** An absolute path with one element is looked up in the root directory. */
  lemma OneElementPath(d: Disk, files: seq<File>, name: seq<byte>)
    requires Finished(d, files) && NameOk(name)
    ensures NameSpec(d, ROOTINO, [SLASH] + name) == LookupFrom(d, Expected(LayoutOf(files), 1), NameBuffer(name, []), 0)
  {
    OneElement(name);
    InodeOf(d, files, ROOTINO);
    assert SkipElem([]) == None;
  }

  predicate NoMatch(files: seq<File>, name: seq<byte>, j: nat, m: nat) {
    forall i: nat :: j <= i < m ==> !Matches(files, name, i)
  }

  /** The first entry that agrees with the name is the one found, whatever comes after it. */
  lemma {:induction false} LookupFirst(d: Disk, files: seq<File>, name: seq<byte>, j: nat, m: nat, root: Dinode)
    requires Finished(d, files) && NamesPlain(files) && NoNul(name) && j <= m && Matches(files, name, m) && NoMatch(files, name, j, m)
    requires root.start == LayoutOf(files).root && root.size == (|files| + 3) * 16
    ensures LookupFrom(d, root, NameBuffer(name, []), j) == Some(EntryInum(m))
    decreases m - j
  {
    LookupStep(d, files, name, j, root);
    if j < m {
      assert !Matches(files, name, j) && NoMatch(files, name, j + 1, m);
      LookupFirst(d, files, name, j + 1, m, root);
    }
  }

  lemma {:induction false} FirstMatch(files: seq<File>, name: seq<byte>, n: nat) returns (m: nat)
    requires Matches(files, name, n)
    ensures m <= n && Matches(files, name, m) && NoMatch(files, name, 0, m)
  {
    if i: nat :| i < n && Matches(files, name, i) {
      m := FirstMatch(files, name, i);
    } else {
      m := n;
    }
  }

  lemma FoundFirst(d: Disk, files: seq<File>, name: seq<byte>, m: nat)
    requires Finished(d, files) && NamesPlain(files) && NameOk(name) && Matches(files, name, m) && NoMatch(files, name, 0, m)
    ensures NameSpec(d, ROOTINO, [SLASH] + name) == Some(EntryInum(m))
  {
    OneElementPath(d, files, name);
    LookupFirst(d, files, name, 0, m, Expected(LayoutOf(files), 1));
  }

  /** A file is found under its name exactly if no earlier entry has the same first 14 bytes. */
  lemma FileFoundIff(d: Disk, files: seq<File>, j: nat)
    requires Finished(d, files) && NamesPlain(files) && j < |files|
    ensures NameSpec(d, ROOTINO, [SLASH] + files[j].name) == Some(j + 3) <==> NoMatch(files, files[j].name, 0, j + 3)
  {
    var m := OwnMatch(files, j);
    FoundFirst(d, files, files[j].name, m);
    SameTest(NameSpec(d, ROOTINO, [SLASH] + files[j].name), EntryInum(m), j + 3, NoMatch(files, files[j].name, 0, j + 3));
  }

  lemma SameTest(r: Option<nat>, inum: nat, n: nat, first: bool)
    requires r == Some(inum) && (inum == n <==> first)
    ensures r == Some(n) <==> first
  {
  }

  lemma OwnMatch(files: seq<File>, j: nat) returns (m: nat)
    requires j < |files|
    ensures Matches(files, files[j].name, m) && NoMatch(files, files[j].name, 0, m)
    ensures EntryInum(m) == j + 3 <==> NoMatch(files, files[j].name, 0, j + 3)
  {
    assert Matches(files, files[j].name, j + 3);
    m := FirstMatch(files, files[j].name, j + 3);
  }

  /** A read of n bytes at off returns that slice of the contents c, as far as they go. */
  predicate ReadsAs(d: Disk, ip: Dinode, c: seq<byte>, off: nat, n: nat) {
    ReadSpec(d, ip, off, n)
    == if off > |c| || off + n >= 0x1_0000_0000 then ReadError else Bytes(c[off..off + Min(n, |c| - off)])
  }

  lemma ReadsBack(d: Disk, ip: Dinode, c: seq<byte>, off: nat, n: nat)
    requires Holds(d, ip.start, c) && ip.size == |c|
    ensures ReadsAs(d, ip, c, off, n)
  {
    if off <= |c| {
      SliceHeld(d, ip.start, c, off, Min(n, |c| - off));
    }
  }

  /** A file's contents on the disk. */
  lemma FileOnDisk(d: Disk, l: Layout, k: nat, j: nat)
    requires DiskOk(d) && LayoutOk(l) && FileIs(d, l, k, j) && j < k && j < |l.contents|
    requires l.starts[j + 1] == l.starts[j] + Blocks(|l.contents[j]|)
    ensures OnDisk(d, Expected(l, j + 3)) && Expected(l, j + 3).kind == T_FILE && Expected(l, j + 3).size == |l.contents[j]|
    ensures Holds(d, Expected(l, j + 3).start, l.contents[j])
  {
    assert FileFits(l, j);
  }

  /** mkfs and the kernel's reader agree: for input files that fit, looking up "/name" gives the file's inode
      unless an entry before it has the same first 14 bytes, and reading it at any offset and length gives
      that slice. */
  lemma RoundTrip(d: Disk, files: seq<File>, j: nat, off: nat, n: nat)
    requires Finished(d, files) && NamesPlain(files) && j < |files|
    ensures NameSpec(d, ROOTINO, [SLASH] + files[j].name) == Some(j + 3) <==> NoMatch(files, files[j].name, 0, j + 3)
    ensures OnDisk(d, DinodeAt(d, j + 3)) && DinodeAt(d, j + 3).kind == T_FILE
    ensures ReadsAs(d, DinodeAt(d, j + 3), Content(files[j].chunks), off, n)
  {
    FileFoundIff(d, files, j);
    ReadsFile(d, files, j, off, n);
  }

  lemma ReadsFile(d: Disk, files: seq<File>, j: nat, off: nat, n: nat)
    requires Finished(d, files) && j < |files|
    ensures OnDisk(d, DinodeAt(d, j + 3)) && DinodeAt(d, j + 3).kind == T_FILE
    ensures ReadsAs(d, DinodeAt(d, j + 3), Content(files[j].chunks), off, n)
  {
    var l := LayoutOf(files);
    InodeOf(d, files, j + 3);
    assert FileIs(d, l, |files|, j) && l.contents[j] == Content(files[j].chunks);
    FileOnDisk(d, l, |files|, j);
    ReadsBack(d, Expected(l, j + 3), l.contents[j], off, n);
  }

  lemma SuperField(d: Disk, sb: seq<byte>, off: nat, x: nat)
    requires Holds(d, 1, sb) && off + 4 <= |sb| && x < 0x1_0000_0000 && sb[off..off + 4] == Le32(x)
    ensures From32(Slice(d, 1, off, 4)) == x
  {
    SliceHeld(d, 1, sb, off, 4);
    Le32RoundTrip(x);
  }

  lemma SuperLayout()
    ensures SuperBytes()[0..4] == Le32(FSSIZE) && SuperBytes()[8..12] == Le32(2) && SuperBytes()[12..16] == Le32(INODESTART)
  {
  }

  /** The kernel finds the bitmap and the inode table where mkfs put them. */
  lemma SuperblockReadsBack(d: Disk, files: seq<File>)
    requires Finished(d, files)
    ensures From32(Slice(d, 1, 0, 4)) == FSSIZE && From32(Slice(d, 1, 8, 4)) == 2 && From32(Slice(d, 1, 12, 4)) == INODESTART
  {
    SuperLayout();
    SuperField(d, SuperBytes(), 0, FSSIZE);
    SuperField(d, SuperBytes(), 8, 2);
    SuperField(d, SuperBytes(), 12, INODESTART);
  }

  /** read_dinode, a read of the inode table as a file, gives inode inum. */
  lemma DinodeReadsBack(d: Disk, files: seq<File>, inum: nat)
    requires Finished(d, files) && inum < |files| + 3
    ensures var table := Expected(LayoutOf(files), 0);
            && DinodeAt(d, 0) == table
            && ReadSpec(d, table, inum * 64, 64) == Bytes(Slice(d, INODESTART, inum * 64, 64))
            && DecodeDinode(Slice(d, INODESTART, inum * 64, 64)) == Expected(LayoutOf(files), inum)
  {
    InodeOf(d, files, 0);
    InodeOf(d, files, inum);
  }

  /** And a name that is not in the image is not found. */
  lemma UnknownName(d: Disk, files: seq<File>, name: seq<byte>)
    requires Finished(d, files) && NamesOk(files) && NameOk(name) && forall j: nat :: !Matches(files, name, j)
    ensures NameSpec(d, ROOTINO, [SLASH] + name) == None
  {
    OneElementPath(d, files, name);
    LookupRoot(d, files, name, 0, Expected(LayoutOf(files), 1));
  }

  // ---- any absolute path ----

  /** The elements of a path. */
  function Elements(path: seq<byte>): seq<seq<byte>>
    decreases |path|
  {
    match SkipElem(path)
    case None => []
    case Some((elem, rest)) => [elem] + Elements(rest)
  }

  predicate IsDot(name: seq<byte>) {
    name == DOT || name == DOTDOT
  }

  /** The only directory is the root: all elements but the last must stay in it. */
  predicate StaysInRoot(es: seq<seq<byte>>) {
    forall i :: 0 <= i < |es| - 1 ==> IsDot(es[i])
  }

  /** What a path with these elements leads to. */
  ghost predicate PathIs(files: seq<File>, es: seq<seq<byte>>, r: Option<nat>) {
    if es == [] then r == Some(ROOTINO)
    else if StaysInRoot(es) then LookupIs(files, es[|es| - 1], 0, r)
    else r == None
  }

  /** An element leads back to the root exactly if it is one of the two dots. */
  lemma DotsLeadToRoot(files: seq<File>, name: seq<byte>, r: Option<nat>)
    requires NamesOk(files) && LookupIs(files, name, 0, r)
    ensures r == Some(ROOTINO) <==> IsDot(name)
  {
    assert Names(files, 0) == DOT && Names(files, 1) == DOTDOT;
    assert IsDot(name) ==> Matches(files, name, 0) || Matches(files, name, 1);
    if r == Some(ROOTINO) {
      var m: nat :| 0 <= m && Matches(files, name, m) && r == Some(EntryInum(m));
      assert m < 2;
    }
  }

  lemma StaysStep(es: seq<seq<byte>>, elem: seq<byte>)
    requires es != []
    ensures StaysInRoot([elem] + es) <==> IsDot(elem) && StaysInRoot(es)
  {
    var all := [elem] + es;
    forall i | 0 <= i < |es| - 1 ensures all[i + 1] == es[i] {
    }
    if StaysInRoot(all) {
      assert IsDot(all[0]);
      forall i | 0 <= i < |es| - 1 ensures IsDot(es[i]) {
        assert IsDot(all[i + 1]);
      }
    }
  }

  lemma ElsewhereEnds(d: Disk, files: seq<File>, ip: nat, path: seq<byte>)
    requires Finished(d, files) && ip < |files| + 3 && ip != ROOTINO && SkipElem(path).Some?
    ensures NameSpec(d, ip, path) == None
  {
    InodeOf(d, files, ip);
    if Expected(LayoutOf(files), ip).kind == T_DIR {
      OnlyRootIsDir(d, LayoutOf(files), ip);
    }
  }

  /** One step of the walk, from the root. */
  lemma FromRoot(d: Disk, files: seq<File>, path: seq<byte>, elem: seq<byte>, rest: seq<byte>) returns (next: Option<nat>)
    requires Finished(d, files) && NamesOk(files) && NoNul(path) && SkipElem(path) == Some((elem, rest))
    ensures LookupIs(files, elem, 0, next) && (next.Some? ==> next.value < |files| + 3)
    ensures NameSpec(d, ROOTINO, path) == if next.None? then None else NameSpec(d, next.value, rest)
  {
    ElementNoNul(path);
    InodeOf(d, files, ROOTINO);
    var root := Expected(LayoutOf(files), 1);
    next := LookupFrom(d, root, NameBuffer(elem, []), 0);
    LookupRoot(d, files, elem, 0, root);
  }

  /** What the elements of a path add up to, given what those after the first do. */
  lemma PathStep(d: Disk, files: seq<File>, elem: seq<byte>, rest: seq<byte>, next: Option<nat>)
    requires Finished(d, files) && NamesOk(files) && LookupIs(files, elem, 0, next)
    requires next.Some? ==> next.value < |files| + 3
    requires PathIs(files, Elements(rest), NameSpec(d, ROOTINO, rest))
    ensures PathIs(files, [elem] + Elements(rest), if next.None? then None else NameSpec(d, next.value, rest))
  {
    DotsLeadToRoot(files, elem, next);
    if SkipElem(rest).Some? {
      StaysStep(Elements(rest), elem);
      if next.Some? && next.value != ROOTINO {
        ElsewhereEnds(d, files, next.value, rest);
      }
    }
  }

  /** namei, on every absolute path: dots stay in the root, the last element is looked up there, and
      anything else on the way is no directory. */
  lemma {:induction false} PathMeaning(d: Disk, files: seq<File>, path: seq<byte>)
    requires Finished(d, files) && NamesOk(files) && NoNul(path)
    ensures PathIs(files, Elements(path), NameSpec(d, ROOTINO, path))
    decreases |path|
  {
    if SkipElem(path).Some? {
      var elem, rest := SkipElem(path).value.0, SkipElem(path).value.1;
      ElementNoNul(path);
      var next := FromRoot(d, files, path, elem, rest);
      PathMeaning(d, files, rest);
      PathStep(d, files, elem, rest, next);
    }
  }

  /** The inode table, the root directory and the files lie in disjoint extents behind the bitmap, each
      large enough and on the disk. */
  lemma ExtentsAreDisjoint(d: Disk, files: seq<File>, a: nat, b: nat)
    requires Finished(d, files) && a < b < |files| + 3 && a != 2 && b != 2
    ensures INODESTART <= DinodeAt(d, a).start
    ensures DinodeAt(d, a).start + DinodeAt(d, a).nblocks <= DinodeAt(d, b).start
    ensures DinodeAt(d, b).start + DinodeAt(d, b).nblocks <= FSSIZE
    ensures DinodeAt(d, a).size <= DinodeAt(d, a).nblocks * 512 && DinodeAt(d, b).size <= DinodeAt(d, b).nblocks * 512
  {
    InodeOf(d, files, a);
    InodeOf(d, files, b);
    ExtentOrder(LayoutOf(files), a, b);
  }

  lemma ExtentOrder(l: Layout, a: nat, b: nat)
    requires LayoutOk(l) && a < b < l.n && a != 2 && b != 2
    ensures INODESTART <= Expected(l, a).start && Expected(l, a).start + Expected(l, a).nblocks <= Expected(l, b).start
    ensures Expected(l, b).start + Expected(l, b).nblocks <= FSSIZE
    ensures Expected(l, a).size <= Expected(l, a).nblocks * 512 && Expected(l, b).size <= Expected(l, b).nblocks * 512
  {
    assert Ascending(l, 0, 0);
    if b >= 3 {
      assert FileFits(l, b - 3) && Ascending(l, 0, b - 3);
      if a >= 3 {
        assert FileFits(l, a - 3) && Ascending(l, a - 2, b - 3) && Ascending(l, 0, a - 3);
      }
    }
  }

  /** namex's loop body behind skipelem: the element is looked up in inode ip. */
  method LookupIn(d: Disk, ip: nat, name: seq<byte>, ghost elem: seq<byte>, ghost junk: seq<byte>, ghost files: seq<File>) returns (r: Option<nat>)
    requires Finished(d, files) && NamesOk(files) && ip < |files| + 3 && NoNul(elem) && name == NameBuffer(elem, junk)
    ensures r == if DinodeAt(d, ip).kind != T_DIR then None else LookupFrom(d, DinodeAt(d, ip), NameBuffer(elem, []), 0)
    ensures r.Some? ==> r.value < |files| + 3
  {
    var dp := DecodeDinode(Slice(d, INODESTART, ip * 64, 64));
    InodeOf(d, files, ip);
    if dp.kind != T_DIR {
      return None;
    }
    OnlyRootIsDir(d, LayoutOf(files), ip);
    r := Dirlookup(d, dp, name);
    LookupIgnoresJunk(d, dp, elem, junk, 0);
    LookupRoot(d, files, elem, 0, dp);
  }

  lemma OnlyRootIsDir(d: Disk, l: Layout, ip: nat)
    requires DiskOk(d) && LayoutOk(l) && l.rootBlocks == Blocks(l.n * 16) && Expected(l, ip).kind == T_DIR
    ensures ip == 1 && OnDisk(d, Expected(l, ip))
    ensures Expected(l, ip).size % 16 == 0 && Expected(l, ip).size < 0x1_0000_0000 - 16
  {
    assert Ascending(l, 0, 0);
  }

  /** namei on an absolute path, in an image mkfs finished; `buffer` is the caller's name buffer. */
  method Namei(d: Disk, absolute: seq<byte>, buffer: seq<byte>, ghost files: seq<File>) returns (r: Option<nat>)
    requires Finished(d, files) && NamesOk(files) && NoNul(absolute) && |absolute| > 0 && absolute[0] == SLASH && |buffer| == DIRSIZ
    ensures r == NameSpec(d, ROOTINO, absolute)
  {
    var ip: nat, path, name := ROOTINO, absolute, buffer;
    while true
      invariant ip < |files| + 3 && NoNul(path) && |name| == DIRSIZ && NameSpec(d, ip, path) == NameSpec(d, ROOTINO, absolute)
      decreases |path|
    {
      var next := Skipelem(path);
      if next.None? {
        return Some(ip);
      }
      var elem, rest := next.value.0, next.value.1;
      ghost var junk := if |elem| >= DIRSIZ then [] else name[|elem| + 1..];
      name := if |elem| >= DIRSIZ then elem[..DIRSIZ] else elem + [0] + name[|elem| + 1..];
      ElementNoNul(path);
      var found := LookupIn(d, ip, name, elem, junk, files);
      if found.None? {
        return None;
      }
      ip, path := found.value, rest;
    }
  }

  lemma ElementNoNul(path: seq<byte>)
    requires NoNul(path) && SkipElem(path).Some?
    ensures NoNul(SkipElem(path).value.0) && NoNul(SkipElem(path).value.1)
  {
  }
}
