/** The words of a parsed command are in the input, and nulterminate makes C strings of them. */
module ShellWords {
  import opened Prelude
  import opened Shell
  import opened ShellParser

  predicate IsSuffix(r: string, s: string) {
    |r| <= |s| && s[|s| - |r|..] == r
  }

  lemma SuffixTransitive(a: string, b: string, c: string)
    requires IsSuffix(a, b) && IsSuffix(b, c)
    ensures IsSuffix(a, c)
  {
    assert c[|c| - |a|..] == c[|c| - |b|..][|b| - |a|..];
  }

  /** The word is where it says, whole: no character before its end could be left out, and the one
      behind it is not a word character. */
  predicate Placed(s: string, w: Word) {
    && w.text != "" && |w.text| + w.after <= |s|
    && s[|s| - w.after - |w.text|..|s| - w.after] == w.text
    && (forall i :: 0 <= i < |w.text| ==> IsWordChar(w.text[i]))
    && (w.after > 0 ==> !IsWordChar(s[|s| - w.after]))
  }

  lemma PlacedInMore(r: string, s: string, w: Word)
    requires IsSuffix(r, s) && Placed(r, w)
    ensures Placed(s, w)
  {
    var n, m := |s|, |r|;
    assert s[n - w.after - |w.text|..n - w.after] == r[m - w.after - |w.text|..m - w.after];
    assert w.after > 0 ==> s[n - w.after] == r[m - w.after];
  }

  // ---- tokens ----

  lemma {:induction false} SkipIsSuffix(r: string)
    ensures IsSuffix(SkipSpace(r), r)
  {
    if r != "" && IsSpace(r[0]) {
      SkipIsSuffix(r[1..]);
      SuffixTransitive(SkipSpace(r), r[1..], r);
    }
  }

  lemma {:induction false} WordLengthMeans(r: string)
    ensures forall i :: 0 <= i < WordLength(r) ==> IsWordChar(r[i])
    ensures WordLength(r) < |r| ==> !IsWordChar(r[WordLength(r)])
  {
    if r != "" && IsWordChar(r[0]) {
      WordLengthMeans(r[1..]);
      forall i | 0 <= i < WordLength(r) ensures IsWordChar(r[i]) {
        assert i > 0 ==> r[i] == r[1..][i - 1];
      }
    }
  }

  lemma TokenPlaced(r: string)
    ensures IsSuffix(GetToken(r).1, r)
    ensures GetToken(r).0.IsWord? ==> Placed(r, GetToken(r).0.word)
  {
    var s := SkipSpace(r);
    SkipIsSuffix(r);
    if s != "" {
      var n := if s[0] == '>' then (if |s| > 1 && s[1] == '>' then 2 else 1) else if IsSymbol(s[0]) then 1 else WordLength(s);
      SkipIsSuffix(s[n..]);
      assert IsSuffix(s[n..], s);
      SuffixTransitive(GetToken(r).1, s[n..], s);
      SuffixTransitive(GetToken(r).1, s, r);
      if IsWordChar(s[0]) {
        WordAtFront(s);
        PlacedInMore(s, r, GetToken(r).0.word);
      }
    }
  }

  lemma WordAtFront(s: string)
    requires s != "" && IsWordChar(s[0])
    ensures Placed(s, Word(s[..WordLength(s)], |s| - WordLength(s)))
  {
    WordLengthMeans(s);
    var n := WordLength(s);
    assert s[|s| - (|s| - n) - n..|s| - (|s| - n)] == s[..n];
  }

  // ---- trees ----

  predicate WordsPlaced(s: string, ws: seq<Word>) {
    forall i :: 0 <= i < |ws| ==> Placed(s, ws[i])
  }

  predicate TargetsPlaced(s: string, ts: seq<Target>) {
    forall i :: 0 <= i < |ts| ==> Placed(s, ts[i].file)
  }

  predicate TreePlaced(s: string, c: Cmd) {
    match c
    case Exec(args) => WordsPlaced(s, args)
    case Redir(sub, t) => TreePlaced(s, sub) && Placed(s, t.file)
    case Pipe(l, r) => TreePlaced(s, l) && TreePlaced(s, r)
    case List(l, r) => TreePlaced(s, l) && TreePlaced(s, r)
    case Back(sub) => TreePlaced(s, sub)
  }

  lemma TokenIn(s: string, r: string)
    requires IsSuffix(r, s)
    ensures IsSuffix(GetToken(r).1, s)
    ensures GetToken(r).0.IsWord? ==> Placed(s, GetToken(r).0.word)
  {
    TokenPlaced(r);
    SuffixTransitive(GetToken(r).1, r, s);
    if GetToken(r).0.IsWord? {
      PlacedInMore(r, s, GetToken(r).0.word);
    }
  }

  lemma SkipIn(s: string, r: string)
    requires IsSuffix(r, s)
    ensures IsSuffix(SkipSpace(r), s)
  {
    SkipIsSuffix(r);
    SuffixTransitive(SkipSpace(r), r, s);
  }

  lemma {:induction false} RedirsPlaced(s: string, r: string, acc: seq<Target>)
    requires IsSuffix(r, s) && TargetsPlaced(s, acc)
    ensures var p := ParseRedirs(r, acc); p.Ok? ==> TargetsPlaced(s, p.value) && IsSuffix(p.rest, s)
    decreases |r|
  {
    var t := SkipSpace(r);
    SkipIn(s, r);
    if Peek(t, {'<', '>'}) {
      var op := GetToken(t);
      TokenIn(s, t);
      var file := GetToken(op.1);
      TokenIn(s, op.1);
      if file.0.IsWord? {
        RedirsPlaced(s, file.1, acc + [Target(file.0.word, op.0 == Op('<'))]);
      }
    }
  }

  lemma {:induction false} WrapPlaced(s: string, c: Cmd, ts: seq<Target>)
    requires TreePlaced(s, c) && TargetsPlaced(s, ts)
    ensures TreePlaced(s, Wrap(c, ts))
    decreases |ts|
  {
    if ts != [] {
      WrapPlaced(s, Redir(c, ts[0]), ts[1..]);
    }
  }

  lemma {:induction false} ArgsPlaced(s: string, r: string, args: seq<Word>, ts: seq<Target>)
    requires IsSuffix(r, s) && WordsPlaced(s, args) && TargetsPlaced(s, ts)
    ensures var p := ParseArgs(r, args, ts); p.Ok? ==> TreePlaced(s, p.value) && IsSuffix(p.rest, s)
    decreases |r|
  {
    var t := SkipSpace(r);
    SkipIn(s, r);
    TokenIn(s, t);
    WrapPlaced(s, Exec(args), ts);
    var tok := GetToken(t);
    if tok.0.IsWord? {
      RedirsPlaced(s, tok.1, ts);
      var rs := ParseRedirs(tok.1, ts);
      if rs.Ok? {
        ArgsPlaced(s, rs.rest, args + [tok.0.word], rs.value);
      }
    }
  }

  lemma {:induction false} ExecPlaced(s: string, r: string)
    requires IsSuffix(r, s)
    ensures var p := ParseExec(r); p.Ok? ==> TreePlaced(s, p.value) && IsSuffix(p.rest, s)
    decreases |r|, 1
  {
    if Peek(r, {'('}) {
      SkipIn(s, r);
      BlockPlaced(s, SkipSpace(r));
    } else {
      RedirsPlaced(s, r, []);
      var rs := ParseRedirs(r, []);
      if rs.Ok? {
        ArgsPlaced(s, rs.rest, [], rs.value);
      }
    }
  }

  lemma {:induction false} BlockPlaced(s: string, r: string)
    requires IsSuffix(r, s)
    ensures var p := ParseBlock(r); p.Ok? ==> TreePlaced(s, p.value) && IsSuffix(p.rest, s)
    decreases |r|, 0
  {
    if Peek(r, {'('}) {
      TokenIn(s, r);
      LinePlaced(s, GetToken(r).1);
      var inner := ParseLine(GetToken(r).1);
      if inner.Ok? && Peek(inner.rest, {')'}) {
        TokenIn(s, inner.rest);
        RedirsPlaced(s, GetToken(inner.rest).1, []);
        var rs := ParseRedirs(GetToken(inner.rest).1, []);
        if rs.Ok? {
          WrapPlaced(s, inner.value, rs.value);
        }
      }
    }
  }

  lemma {:induction false} PipePlaced(s: string, r: string)
    requires IsSuffix(r, s)
    ensures var p := ParsePipe(r); p.Ok? ==> TreePlaced(s, p.value) && IsSuffix(p.rest, s)
    decreases |r|, 2
  {
    ExecPlaced(s, r);
    var left := ParseExec(r);
    if left.Ok? {
      SkipIn(s, left.rest);
      if Peek(left.rest, {'|'}) {
        TokenIn(s, left.rest);
        PipePlaced(s, GetToken(left.rest).1);
      }
    }
  }

  lemma {:induction false} BackPlaced(s: string, c: Cmd, r: string)
    requires IsSuffix(r, s) && TreePlaced(s, c)
    ensures var p := ParseBack(c, r); TreePlaced(s, p.0) && IsSuffix(p.1, s)
    decreases |r|
  {
    if Peek(r, {'&'}) {
      TokenIn(s, r);
      BackPlaced(s, Back(c), GetToken(r).1);
    } else {
      SkipIn(s, r);
    }
  }

  lemma {:induction false} LinePlaced(s: string, r: string)
    requires IsSuffix(r, s)
    ensures var p := ParseLine(r); p.Ok? ==> TreePlaced(s, p.value) && IsSuffix(p.rest, s)
    decreases |r|, 3
  {
    PipePlaced(s, r);
    var first := ParsePipe(r);
    if first.Ok? {
      BackPlaced(s, first.value, first.rest);
      var backed := ParseBack(first.value, first.rest);
      SkipIn(s, backed.1);
      if Peek(backed.1, {';'}) {
        TokenIn(s, backed.1);
        LinePlaced(s, GetToken(backed.1).1);
      }
    }
  }

  /** Every word of a successful parse, printed or not, is a whole word of the input. */
  lemma ParsedWordsArePlaced(s: string)
    ensures ParseCmd(s).Some? ==> TreePlaced(s, ParseCmd(s).value)
  {
    LinePlaced(s, s);
  }

  // ---- nulterminate ----

  /** Whether some word of the tree has `after` characters behind it. */
  predicate EndsAt(c: Cmd, after: nat) {
    match c
    case Exec(args) => exists i :: 0 <= i < |args| && args[i].after == after
    case Redir(sub, t) => EndsAt(sub, after) || t.file.after == after
    case Pipe(l, r) => EndsAt(l, after) || EndsAt(r, after)
    case List(l, r) => EndsAt(l, after) || EndsAt(r, after)
    case Back(sub) => EndsAt(sub, after)
  }

  /** buf is old with a NUL at the end of every word of c; n is the length of the input. */
  predicate TerminatedAt(old_: seq<char>, buf: seq<char>, n: nat, c: Cmd, i: nat) {
    i < |buf| == |old_| && i <= n ==> buf[i] == if EndsAt(c, n - i) then '\0' else old_[i]
  }

  ghost predicate Terminated(old_: seq<char>, buf: seq<char>, n: nat, c: Cmd) {
    |buf| == |old_| && forall i: nat :: TerminatedAt(old_, buf, n, c, i)
  }

  lemma {:induction false} EndsOutsideWords(s: string, c: Cmd, after: nat)
    requires TreePlaced(s, c) && EndsAt(c, after)
    ensures after <= |s| && (after > 0 ==> !IsWordChar(s[|s| - after]))
  {
    match c
    case Exec(args) =>
    case Redir(sub, t) => if EndsAt(sub, after) { EndsOutsideWords(s, sub, after); }
    case Pipe(l, r) => if EndsAt(l, after) { EndsOutsideWords(s, l, after); } else { EndsOutsideWords(s, r, after); }
    case List(l, r) => if EndsAt(l, after) { EndsOutsideWords(s, l, after); } else { EndsOutsideWords(s, r, after); }
    case Back(sub) => EndsOutsideWords(s, sub, after);
  }

  /** The characters from q up to the first NUL are text. */
  predicate CString(buf: seq<char>, q: nat, text: string) {
    && q + |text| < |buf| && buf[q..q + |text|] == text && buf[q + |text|] == '\0'
    && forall i :: 0 <= i < |text| ==> text[i] != '\0'
  }

  predicate HasWord(c: Cmd, w: Word) {
    match c
    case Exec(args) => w in args
    case Redir(sub, t) => HasWord(sub, w) || w == t.file
    case Pipe(l, r) => HasWord(l, w) || HasWord(r, w)
    case List(l, r) => HasWord(l, w) || HasWord(r, w)
    case Back(sub) => HasWord(sub, w)
  }

  lemma {:induction false} WordOfTree(s: string, c: Cmd, w: Word)
    requires TreePlaced(s, c) && HasWord(c, w)
    ensures Placed(s, w) && EndsAt(c, w.after)
  {
    match c
    case Exec(args) =>
    case Redir(sub, t) => if HasWord(sub, w) { WordOfTree(s, sub, w); }
    case Pipe(l, r) => if HasWord(l, w) { WordOfTree(s, l, w); } else { WordOfTree(s, r, w); }
    case List(l, r) => if HasWord(l, w) { WordOfTree(s, l, w); } else { WordOfTree(s, r, w); }
    case Back(sub) => WordOfTree(s, sub, w);
  }

  /** A character of a word is left as it was. */
  lemma {:induction false} CharKept(s: string, c: Cmd, buf: seq<char>, w: Word, i: nat)
    requires TreePlaced(s, c) && Placed(s, w) && Terminated(s + ['\0'], buf, |s|, c) && i < |w.text|
    ensures var q := |s| - w.after - |w.text|; q + i < |buf| && buf[q + i] == w.text[i] == s[q + i]
  {
    var n, q := |s|, |s| - w.after - |w.text|;
    assert TerminatedAt(s + ['\0'], buf, n, c, q + i);
    assert s[q + i] == s[q..q + |w.text|][i];
    if EndsAt(c, n - (q + i)) {
      EndsOutsideWords(s, c, n - (q + i));
    }
  }

  /** After nulterminate every argument and file name of a parsed command, read as a C string, is its
      token. */
  lemma {:induction false} WordsAreStrings(s: string, c: Cmd, buf: seq<char>, w: Word)
    requires TreePlaced(s, c) && HasWord(c, w) && (forall i :: 0 <= i < |s| ==> s[i] != '\0')
    requires Terminated(s + ['\0'], buf, |s|, c)
    ensures w.after + |w.text| <= |s| && CString(buf, |s| - w.after - |w.text|, w.text)
  {
    WordOfTree(s, c, w);
    var n, q := |s|, |s| - w.after - |w.text|;
    assert TerminatedAt(s + ['\0'], buf, n, c, n - w.after);
    forall i | 0 <= i < |w.text| ensures buf[q..q + |w.text|][i] == w.text[i] && w.text[i] != '\0' {
      CharKept(s, c, buf, w, i);
    }
  }

  /** nulterminate. */
  method Nulterminate(buf: array<char>, n: nat, c: Cmd, ghost s: string)
    requires buf.Length == n + 1 && |s| == n && TreePlaced(s, c)
    modifies buf
    ensures Terminated(old(buf[..]), buf[..], n, c)
    decreases c
  {
    ghost var b := buf[..];
    match c
    case Exec(args) =>
      TerminateArgs(buf, n, args, s);
      forall i: nat ensures TerminatedAt(b, buf[..], n, c, i) {
      }
    case Redir(sub, t) =>
      Nulterminate(buf, n, sub, s);
      ghost var m := buf[..];
      buf[n - t.file.after] := '\0';
      forall i: nat ensures TerminatedAt(b, buf[..], n, c, i) {
        assert TerminatedAt(b, m, n, sub, i);
      }
    case Pipe(l, r) =>
      Nulterminate(buf, n, l, s);
      ghost var m := buf[..];
      Nulterminate(buf, n, r, s);
      Both(b, m, buf[..], n, c, l, r);
    case List(l, r) =>
      Nulterminate(buf, n, l, s);
      ghost var m := buf[..];
      Nulterminate(buf, n, r, s);
      Both(b, m, buf[..], n, c, l, r);
    case Back(sub) =>
      Nulterminate(buf, n, sub, s);
      forall i: nat ensures TerminatedAt(b, buf[..], n, c, i) {
        assert TerminatedAt(b, buf[..], n, sub, i);
      }
  }

  lemma Both(b: seq<char>, m: seq<char>, e: seq<char>, n: nat, c: Cmd, l: Cmd, r: Cmd)
    requires (c == Pipe(l, r) || c == List(l, r)) && Terminated(b, m, n, l) && Terminated(m, e, n, r)
    ensures Terminated(b, e, n, c)
  {
    forall i: nat ensures TerminatedAt(b, e, n, c, i) {
      assert TerminatedAt(b, m, n, l, i) && TerminatedAt(m, e, n, r, i);
    }
  }

  /** nulterminate's loop over the arguments. */
  method TerminateArgs(buf: array<char>, n: nat, args: seq<Word>, ghost s: string)
    requires buf.Length == n + 1 && |s| == n && WordsPlaced(s, args)
    modifies buf
    ensures forall i :: 0 <= i <= n ==> buf[i] == if EndsAt(Exec(args), n - i) then '\0' else old(buf[i])
  {
    var k := 0;
    while k < |args|
      invariant 0 <= k <= |args|
      invariant forall i :: 0 <= i <= n ==> buf[i] == if EndsAt(Exec(args[..k]), n - i) then '\0' else old(buf[i])
    {
      assert Placed(s, args[k]);
      buf[n - args[k].after] := '\0';
      MoreArgs(args, k);
      k := k + 1;
    }
    assert args[..k] == args;
  }

  lemma MoreArgs(args: seq<Word>, k: nat)
    requires k < |args|
    ensures forall after: nat :: EndsAt(Exec(args[..k + 1]), after) <==> EndsAt(Exec(args[..k]), after) || args[k].after == after
  {
    forall after: nat ensures EndsAt(Exec(args[..k + 1]), after) <==> EndsAt(Exec(args[..k]), after) || args[k].after == after {
      var xs, ys := args[..k + 1], args[..k];
      assert forall i :: 0 <= i < k ==> xs[i] == ys[i];
      assert xs[k] == args[k];
      if EndsAt(Exec(ys), after) {
        var i :| 0 <= i < |ys| && ys[i].after == after;
        assert xs[i].after == after;
      }
    }
  }

  /** parsecmd, on a NUL-terminated buffer: a parsed command's words are C strings in it. */
  method ParseInPlace(buf: array<char>, n: nat) returns (r: Option<Cmd>)
    requires buf.Length == n + 1 && buf[n] == '\0' && forall i :: 0 <= i < n ==> buf[i] != '\0'
    modifies buf
    ensures r == ParseCmd(old(buf[..n]))
    ensures r.Some? ==> forall w: Word :: HasWord(r.value, w) ==>
                          w.after + |w.text| <= n && CString(buf[..], n - w.after - |w.text|, w.text)
  {
    var s := buf[..n];
    r := Parsecmd(s);
    if r.Some? {
      ParsedWordsArePlaced(s);
      assert buf[..] == s + ['\0'];
      Nulterminate(buf, n, r.value, s);
      forall w: Word | HasWord(r.value, w) ensures w.after + |w.text| <= n && CString(buf[..], n - w.after - |w.text|, w.text) {
        WordsAreStrings(s, r.value, buf[..], w);
      }
    }
  }
}
