/** A printer for the shell's command trees, and that parsing undoes it. */
module ShellPrint {
  import opened Shell

  // ---- printing ----

  function PrintWords(ws: seq<Word>): string {
    if ws == [] then "" else " " + ws[0].text + PrintWords(ws[1..])
  }

  function PrintTarget(t: Target): string {
    (if t.input then " <" else " >") + t.file.text
  }

  function PrintTargets(ts: seq<Target>): string {
    if ts == [] then "" else PrintTarget(ts[0]) + PrintTargets(ts[1..])
  }

  /** Everything below a pipe, a list, a background command or a redirection is in parentheses, unless
      it is a simple command or redirected itself. */
  function Print(c: Cmd): string {
    match c
    case Exec(args) => PrintWords(args)
    case Redir(sub, t) => (if sub.Exec? || sub.Redir? then Print(sub) else "(" + Print(sub) + ")") + PrintTarget(t)
    case Pipe(l, r) => "(" + Print(l) + ")|(" + Print(r) + ")"
    case List(l, r) => "(" + Print(l) + ");(" + Print(r) + ")"
    case Back(sub) => "(" + Print(sub) + ")&"
  }

  // ---- which trees ----

  predicate WordOk(w: Word) {
    w.text != "" && forall i :: 0 <= i < |w.text| ==> IsWordChar(w.text[i])
  }

  predicate WordsOk(ws: seq<Word>) {
    ws != [] ==> WordOk(ws[0]) && WordsOk(ws[1..])
  }

  /** Legal words and at most nine arguments per command. */
  predicate CmdOk(c: Cmd) {
    match c
    case Exec(args) => |args| < MAXARGS && WordsOk(args)
    case Redir(sub, t) => CmdOk(sub) && WordOk(t.file)
    case Pipe(l, r) => CmdOk(l) && CmdOk(r)
    case List(l, r) => CmdOk(l) && CmdOk(r)
    case Back(sub) => CmdOk(sub)
  }

  /** The same tree, wherever its words are. */
  predicate SameWord(w: Word, v: Word) {
    w.text == v.text
  }

  predicate SameWords(ws: seq<Word>, vs: seq<Word>) {
    if ws == [] then vs == [] else vs != [] && SameWord(ws[0], vs[0]) && SameWords(ws[1..], vs[1..])
  }

  predicate Same(c: Cmd, d: Cmd) {
    match c
    case Exec(args) => d.Exec? && SameWords(args, d.args)
    case Redir(sub, t) => d.Redir? && Same(sub, d.cmd) && SameWord(t.file, d.target.file) && t.input == d.target.input
    case Pipe(l, r) => d.Pipe? && Same(l, d.left) && Same(r, d.right)
    case List(l, r) => d.List? && Same(l, d.left) && Same(r, d.right)
    case Back(sub) => d.Back? && Same(sub, d.cmd)
  }

  // ---- tokens ----

  /** The next character ends a word. */
  predicate Ends(r: string) {
    r != "" ==> !IsWordChar(r[0])
  }

  /** End of input, or an operator that ends a simple command. */
  predicate Stops(r: string) {
    r != "" ==> r[0] in {'|', ')', '&', ';'}
  }

  lemma StopsEnds(r: string)
    requires Stops(r)
    ensures Ends(r) && SkipSpace(r) == r && !Peek(r, {'<', '>'}) && !Peek(r, {'('})
  {
  }

  lemma {:induction false} WordLengthIs(w: string, r: string)
    requires (forall i :: 0 <= i < |w| ==> IsWordChar(w[i])) && Ends(r)
    ensures WordLength(w + r) == |w|
  {
    if w == "" {
      assert w + r == r;
    } else {
      assert (w + r)[1..] == w[1..] + r;
      WordLengthIs(w[1..], r);
    }
  }

  lemma LeadingSpace(r: string)
    ensures SkipSpace(" " + r) == SkipSpace(r) && GetToken(" " + r) == GetToken(r)
  {
    assert (" " + r)[1..] == r;
  }

  lemma TokenAtWord(s: string, n: nat)
    requires s != "" && IsWordChar(s[0]) && n == WordLength(s)
    ensures SkipSpace(s) == s && GetToken(s) == (IsWord(Word(s[..n], |s| - n)), SkipSpace(s[n..]))
  {
  }

  /** A word. */
  lemma WordToken(w: string, r: string)
    requires WordOk(Word(w, 0)) && Ends(r)
    ensures GetToken(w + r) == (IsWord(Word(w, |r|)), SkipSpace(r)) && SkipSpace(w + r) == w + r
  {
    var s := w + r;
    WordLengthIs(w, r);
    assert s[0] == w[0] && s[..|w|] == w && s[|w|..] == r;
    TokenAtWord(s, |w|);
  }

  lemma OpToken(c: char, r: string)
    requires c in {'|', '(', ')', '&', ';', '<'} || (c == '>' && (r != "" ==> r[0] != '>'))
    ensures GetToken([c] + r) == (Op(c), SkipSpace(r)) && SkipSpace([c] + r) == [c] + r
  {
    assert ([c] + r)[1..] == r;
  }

  // ---- redirections ----

  lemma RedirHead(c: char, v: string)
    requires c == '<' || c == '>'
    requires v != "" && v[0] != '>' && !IsSpace(v[0])
    ensures SkipSpace(" " + ([c] + v)) == [c] + v && Peek([c] + v, {'<', '>'}) && GetToken([c] + v) == (Op(c), v)
  {
    LeadingSpace([c] + v);
    OpToken(c, v);
  }

  lemma PrintedTarget(t: Target, r: string)
    ensures PrintTarget(t) + r == " " + ([if t.input then '<' else '>'] + (t.file.text + r))
  {
  }

  /** One printed redirection is one turn of parseredirs. */
  lemma RedirStep(t: Target, r: string, acc: seq<Target>)
    requires WordOk(t.file) && Ends(r)
    ensures ParseRedirs(PrintTarget(t) + r, acc) == ParseRedirs(SkipSpace(r), acc + [Target(Word(t.file.text, |r|), t.input)])
  {
    var c, v := if t.input then '<' else '>', t.file.text + r;
    PrintedTarget(t, r);
    WordToken(t.file.text, r);
    assert v[0] == t.file.text[0];
    RedirHead(c, v);
  }

  predicate SameTargets(ts: seq<Target>, us: seq<Target>) {
    if ts == [] then us == []
    else us != [] && SameWord(ts[0].file, us[0].file) && ts[0].input == us[0].input && SameTargets(ts[1..], us[1..])
  }

  predicate TargetsOk(ts: seq<Target>) {
    ts != [] ==> WordOk(ts[0].file) && TargetsOk(ts[1..])
  }

  lemma {:induction false} PrintedTargets(ts: seq<Target>, r: string)
    requires Ends(r)
    ensures ts == [] ==> PrintTargets(ts) + r == r
    ensures ts != [] ==> PrintTargets(ts) + r == PrintTarget(ts[0]) + (PrintTargets(ts[1..]) + r)
    ensures Ends(PrintTargets(ts) + r)
  {
    if ts != [] {
      assert (PrintTargets(ts) + r)[0] == PrintTarget(ts[0])[0] == ' ';
    } else {
      assert PrintTargets(ts) + r == r;
    }
  }

  lemma SameCons(ts: seq<Target>, u: Target, us: seq<Target>)
    requires ts != [] && SameWord(ts[0].file, u.file) && ts[0].input == u.input && SameTargets(ts[1..], us)
    ensures SameTargets(ts, [u] + us)
  {
    assert ([u] + us)[1..] == us;
  }

  lemma Assoc<T>(a: seq<T>, b: seq<T>, c: seq<T>)
    ensures a + (b + c) == (a + b) + c
  {
  }

  lemma {:induction false} RedirsParse(ts: seq<Target>, r: string, acc: seq<Target>) returns (us: seq<Target>)
    requires TargetsOk(ts) && Ends(r) && !Peek(r, {'<', '>'})
    ensures ParseRedirs(PrintTargets(ts) + r, acc) == Ok(acc + us, SkipSpace(r)) && SameTargets(ts, us)
    decreases |ts|
  {
    PrintedTargets(ts, r);
    if ts == [] {
      us := [];
      NoRedirs(r, acc);
      assert acc + us == acc;
    } else {
      var rest := PrintTargets(ts[1..]) + r;
      PrintedTargets(ts[1..], r);
      var u := Target(Word(ts[0].file.text, |rest|), ts[0].input);
      RedirStep(ts[0], rest, acc);
      RedirsSkip(rest, acc + [u]);
      var more := RedirsParse(ts[1..], r, acc + [u]);
      us := [u] + more;
      SameCons(ts, u, more);
      Assoc(acc, [u], more);
    }
  }

  lemma NoRedirs(r: string, acc: seq<Target>)
    requires !Peek(r, {'<', '>'})
    ensures ParseRedirs(r, acc) == Ok(acc, SkipSpace(r))
  {
    SkipTwice(r);
  }

  // ---- simple commands ----

  lemma ArgsSkip(r: string, args: seq<Word>, ts: seq<Target>)
    ensures ParseArgs(SkipSpace(r), args, ts) == ParseArgs(r, args, ts)
  {
    SkipTwice(r);
  }

  /** One printed argument is one turn of parseexec's loop. */
  lemma ArgStep(w: Word, r: string, args: seq<Word>, ts: seq<Target>)
    requires WordOk(w) && Ends(r) && |args| + 1 < MAXARGS
    ensures ParseArgs(" " + (w.text + r), args, ts)
         == var rs := ParseRedirs(r, ts); if rs.Panic? then Panic else ParseArgs(rs.rest, args + [Word(w.text, |r|)], rs.value)
  {
    LeadingSpace(w.text + r);
    WordToken(w.text, r);
    RedirsSkip(r, ts);
    assert (w.text + r)[0] == w.text[0];
  }

  lemma {:induction false} PrintedWords(ws: seq<Word>, r: string)
    requires Ends(r)
    ensures ws == [] ==> PrintWords(ws) + r == r
    ensures ws != [] ==> PrintWords(ws) + r == " " + (ws[0].text + (PrintWords(ws[1..]) + r))
    ensures Ends(PrintWords(ws) + r)
  {
    if ws == [] {
      assert PrintWords(ws) + r == r;
    } else {
      assert PrintWords(ws) + r == " " + (ws[0].text + (PrintWords(ws[1..]) + r));
    }
  }

  lemma WordsHead(w: Word, r: string)
    requires WordOk(w) && Ends(r)
    ensures !Peek(" " + (w.text + r), {'<', '>'}) && !Peek(" " + (w.text + r), {'('})
  {
    LeadingSpace(w.text + r);
    WordToken(w.text, r);
    assert (w.text + r)[0] == w.text[0];
  }

  lemma SameWordsCons(ws: seq<Word>, v: Word, vs: seq<Word>)
    requires ws != [] && SameWord(ws[0], v) && SameWords(ws[1..], vs)
    ensures SameWords(ws, [v] + vs)
  {
    assert ([v] + vs)[1..] == vs;
  }

  lemma ArgsEnd(r: string, args: seq<Word>, ts: seq<Target>)
    requires Stops(r)
    ensures ParseArgs(r, args, ts) == Ok(Wrap(Exec(args), ts), r)
  {
    StopsEnds(r);
  }

  /** Printed arguments, then printed redirections. */
  lemma {:induction false} ArgsParse(ws: seq<Word>, ts: seq<Target>, r: string, args: seq<Word>, acc: seq<Target>)
    returns (vs: seq<Word>, us: seq<Target>)
    requires WordsOk(ws) && TargetsOk(ts) && Stops(r) && |args| + |ws| < MAXARGS && (ws == [] ==> ts == [])
    ensures ParseArgs(PrintWords(ws) + (PrintTargets(ts) + r), args, acc) == Ok(Wrap(Exec(args + vs), acc + us), r)
    ensures SameWords(ws, vs) && SameTargets(ts, us)
    decreases |ws|
  {
    StopsEnds(r);
    PrintedTargets(ts, r);
    var tail := PrintTargets(ts) + r;
    PrintedWords(ws, tail);
    if ws == [] {
      vs, us := [], [];
      ArgsEnd(r, args, acc);
      assert args + vs == args && acc + us == acc;
    } else {
      PrintedWords(ws[1..], tail);
      var rest := PrintWords(ws[1..]) + tail;
      var v := Word(ws[0].text, |rest|);
      ArgStep(ws[0], rest, args, acc);
      if ws[1..] == [] {
        us := RedirsParse(ts, r, acc);
        vs := [v];
        ArgsEnd(r, args + [v], acc + us);
        SameWordsCons(ws, v, []);
        assert [v] + [] == [v];
      } else {
        PrintedWords(ws[2..], tail);
        assert ws[1..][1..] == ws[2..];
        WordsHead(ws[1], PrintWords(ws[2..]) + tail);
        NoRedirs(rest, acc);
        ArgsSkip(rest, args + [v], acc);
        var vs';
        vs', us := ArgsParse(ws[1..], ts, r, args + [v], acc);
        vs := [v] + vs';
        SameWordsCons(ws, v, vs');
        Assoc(args, [v], vs');
      }
    }
  }

  lemma SimpleParse(ws: seq<Word>, ts: seq<Target>, r: string) returns (vs: seq<Word>, us: seq<Target>)
    requires WordsOk(ws) && TargetsOk(ts) && Stops(r) && |ws| < MAXARGS
    ensures ParseExec(PrintWords(ws) + (PrintTargets(ts) + r)) == Ok(Wrap(Exec(vs), us), r)
    ensures SameWords(ws, vs) && SameTargets(ts, us)
  {
    if ws == [] {
      vs := [];
      us := OnlyTargetsParse(ts, r);
      assert PrintWords(ws) + (PrintTargets(ts) + r) == PrintTargets(ts) + r;
    } else {
      vs, us := SomeWordsParse(ws, ts, r);
    }
  }

  lemma OnlyTargetsParse(ts: seq<Target>, r: string) returns (us: seq<Target>)
    requires TargetsOk(ts) && Stops(r)
    ensures ParseExec(PrintTargets(ts) + r) == Ok(Wrap(Exec([]), us), r) && SameTargets(ts, us)
  {
    StopsEnds(r);
    PrintedTargets(ts, r);
    NotBlock(ts, r);
    us := RedirsParse(ts, r, []);
    ArgsEnd(r, [], us);
    assert [] + us == us;
  }

  lemma SomeWordsParse(ws: seq<Word>, ts: seq<Target>, r: string) returns (vs: seq<Word>, us: seq<Target>)
    requires WordsOk(ws) && ws != [] && TargetsOk(ts) && Stops(r) && |ws| < MAXARGS
    ensures ParseExec(PrintWords(ws) + (PrintTargets(ts) + r)) == Ok(Wrap(Exec(vs), us), r)
    ensures SameWords(ws, vs) && SameTargets(ts, us)
  {
    StopsEnds(r);
    PrintedTargets(ts, r);
    var tail := PrintTargets(ts) + r;
    PrintedWords(ws, tail);
    PrintedWords(ws[1..], tail);
    WordsHead(ws[0], PrintWords(ws[1..]) + tail);
    NoRedirs(PrintWords(ws) + tail, []);
    ArgsSkip(PrintWords(ws) + tail, [], []);
    vs, us := ArgsParse(ws, ts, r, [], []);
    assert [] + vs == vs && [] + us == us;
  }

  lemma NotBlock(ts: seq<Target>, r: string)
    requires TargetsOk(ts) && Stops(r)
    ensures !Peek(PrintTargets(ts) + r, {'('})
  {
    StopsEnds(r);
    PrintedTargets(ts, r);
    if ts != [] {
      var rest := PrintTargets(ts[1..]) + r;
      PrintedTarget(ts[0], rest);
      LeadingSpace([if ts[0].input then '<' else '>'] + (ts[0].file.text + rest));
    }
  }

  // ---- a tree and its redirections ----

  function Base(c: Cmd): Cmd {
    if c.Redir? then Base(c.cmd) else c
  }

  function TargetsOf(c: Cmd): seq<Target> {
    if c.Redir? then TargetsOf(c.cmd) + [c.target] else []
  }

  function Head(b: Cmd): string {
    if b.Exec? then PrintWords(b.args) else "(" + Print(b) + ")"
  }

  lemma {:induction false} PrintAppends(ts: seq<Target>, t: Target)
    ensures PrintTargets(ts + [t]) == PrintTargets(ts) + PrintTarget(t)
  {
    if ts == [] {
      assert [t][1..] == [];
      assert PrintTargets([]) == "" && PrintTarget(t) + "" == PrintTarget(t) && "" + PrintTarget(t) == PrintTarget(t);
      assert [] + [t] == [t];
    } else {
      PrintAppends(ts[1..], t);
      assert (ts + [t])[1..] == ts[1..] + [t];
      Assoc(PrintTarget(ts[0]), PrintTargets(ts[1..]), PrintTarget(t));
    }
  }

  lemma {:induction false} WrapAppends(c: Cmd, ts: seq<Target>, t: Target)
    ensures Wrap(c, ts + [t]) == Redir(Wrap(c, ts), t)
    decreases |ts|
  {
    if ts == [] {
      assert [] + [t] == [t] && [t][1..] == [];
    } else {
      WrapAppends(Redir(c, ts[0]), ts[1..], t);
      assert (ts + [t])[1..] == ts[1..] + [t];
    }
  }

  lemma {:induction false} TargetsAppendOk(ts: seq<Target>, t: Target)
    requires TargetsOk(ts) && WordOk(t.file)
    ensures TargetsOk(ts + [t])
    decreases |ts|
  {
    if ts == [] {
      assert [] + [t] == [t] && [t][1..] == [];
    } else {
      TargetsAppendOk(ts[1..], t);
      assert (ts + [t])[1..] == ts[1..] + [t];
    }
  }

  /** A tree is its base with its redirections around it, and is printed so. */
  lemma {:induction false} Decompose(c: Cmd)
    requires CmdOk(c)
    ensures Wrap(Base(c), TargetsOf(c)) == c && CmdOk(Base(c)) && TargetsOk(TargetsOf(c)) && !Base(c).Redir?
    ensures c.Redir? || c.Exec? ==> Print(c) == Head(Base(c)) + PrintTargets(TargetsOf(c))
    ensures c.Redir? ==> Base(c) < c
  {
    if c.Redir? {
      Decompose(c.cmd);
      WrapAppends(Base(c), TargetsOf(c.cmd), c.target);
      TargetsAppendOk(TargetsOf(c.cmd), c.target);
      PrintAppends(TargetsOf(c.cmd), c.target);
      if c.cmd.Exec? || c.cmd.Redir? {
        Assoc(Head(Base(c)), PrintTargets(TargetsOf(c.cmd)), PrintTarget(c.target));
      } else {
        assert PrintTargets([]) == "" && "" + PrintTarget(c.target) == PrintTarget(c.target);
      }
    } else if c.Exec? {
      assert PrintTargets([]) == "" && PrintWords(c.args) + "" == PrintWords(c.args);
    }
  }

  lemma {:induction false} SameWrap(c: Cmd, d: Cmd, ts: seq<Target>, us: seq<Target>)
    requires Same(c, d) && SameTargets(ts, us)
    ensures Same(Wrap(c, ts), Wrap(d, us))
    decreases |ts|
  {
    if ts != [] {
      SameWrap(Redir(c, ts[0]), Redir(d, us[0]), ts[1..], us[1..]);
    }
  }

  // ---- blocks ----

  lemma ExecSkip(r: string)
    ensures ParseExec(SkipSpace(r)) == ParseExec(r)
  {
    SkipTwice(r);
    RedirsSkip(r, []);
  }

  lemma PipeSkip(r: string)
    ensures ParsePipe(SkipSpace(r)) == ParsePipe(r)
  {
    ExecSkip(r);
  }

  lemma LineSkip(r: string)
    ensures ParseLine(SkipSpace(r)) == ParseLine(r)
  {
    PipeSkip(r);
  }

  /** A parenthesised command followed by redirections. */
  lemma BlockParse(inner: string, d: Cmd, ts: seq<Target>, r: string) returns (us: seq<Target>)
    requires TargetsOk(ts) && Stops(r)
    requires ParseLine(inner + (")" + (PrintTargets(ts) + r))) == Ok(d, ")" + (PrintTargets(ts) + r))
    ensures ParseExec("(" + (inner + (")" + (PrintTargets(ts) + r)))) == Ok(Wrap(d, us), r) && SameTargets(ts, us)
  {
    StopsEnds(r);
    var tail := PrintTargets(ts) + r;
    var body := inner + (")" + tail);
    OpToken('(', body);
    LineSkip(body);
    OpToken(')', tail);
    RedirsSkip(tail, []);
    us := RedirsParse(ts, r, []);
    assert [] + us == us;
  }

  // ---- lines ----

  /** End of input or of a block. */
  predicate Closes(r: string) {
    r != "" ==> r[0] == ')'
  }

  lemma PipeDone(s: string, d: Cmd, r: string)
    requires ParseExec(s) == Ok(d, r) && Stops(r) && (r != "" ==> r[0] != '|')
    ensures ParsePipe(s) == Ok(d, r)
  {
    StopsEnds(r);
  }

  lemma LineDone(s: string, d: Cmd, r: string)
    requires ParsePipe(s) == Ok(d, r) && Closes(r)
    ensures ParseLine(s) == Ok(d, r)
  {
    StopsEnds(r);
  }

  lemma PipeJoins(s: string, d: Cmd, t: string, e: Cmd, r: string)
    requires ParseExec(s) == Ok(d, "|" + t) && ParsePipe(t) == Ok(e, r)
    ensures ParsePipe(s) == Ok(Pipe(d, e), r)
  {
    OpToken('|', t);
    PipeSkip(t);
  }

  lemma LineJoins(s: string, d: Cmd, t: string, e: Cmd, r: string)
    requires ParsePipe(s) == Ok(d, ";" + t) && ParseLine(t) == Ok(e, r)
    ensures ParseLine(s) == Ok(List(d, e), r)
  {
    OpToken(';', t);
    LineSkip(t);
  }

  lemma LineBacks(s: string, d: Cmd, r: string)
    requires ParsePipe(s) == Ok(d, "&" + r) && Closes(r)
    ensures ParseLine(s) == Ok(Back(d), r)
  {
    OpToken('&', r);
    StopsEnds(r);
    assert ParseBack(Back(d), r) == (Back(d), r);
    assert ParseBack(d, "&" + r) == (Back(d), r);
  }

  // ---- the round trip ----

  lemma Reassociate(a: string, b: string, r: string)
    ensures ("(" + a + ")" + b) + r == "(" + (a + (")" + (b + r)))
  {
  }

  lemma TwoBlocks(a: string, op: char, b: string, r: string)
    ensures ("(" + a + (")" + [op] + "(") + b + ")") + r == "(" + (a + (")" + ([op] + ("(" + (b + (")" + r))))))
  {
  }

  /** A tree in parentheses, where a simple command could stand. */
  lemma {:induction false} BlockOf(c: Cmd, r: string) returns (d: Cmd)
    requires CmdOk(c) && Stops(r)
    ensures ParseExec("(" + (Print(c) + (")" + r))) == Ok(d, r) && Same(c, d)
    decreases c, 2
  {
    d := LineParse(c, ")" + r);
    assert PrintTargets([]) + r == r;
    var us := BlockParse(Print(c), d, [], r);
  }

  lemma {:induction false} RedirectedParse(c: Cmd, r: string) returns (d: Cmd)
    requires CmdOk(c) && Closes(r) && (c.Redir? || c.Exec?)
    ensures ParseLine(Print(c) + r) == Ok(d, r) && Same(c, d)
    decreases c, 0
  {
    Decompose(c);
    var b, ts := Base(c), TargetsOf(c);
    Assoc(Head(b), PrintTargets(ts), r);
    var tail := PrintTargets(ts) + r;
    if b.Exec? {
      var vs, us := SimpleParse(b.args, ts, r);
      d := Wrap(Exec(vs), us);
      SameWrap(b, Exec(vs), ts, us);
    } else {
      var inner := LineParse(b, ")" + tail);
      var us := BlockParse(Print(b), inner, ts, r);
      d := Wrap(inner, us);
      SameWrap(b, inner, ts, us);
      Reassociate(Print(b), "", tail);
      assert "(" + Print(b) + ")" + "" == "(" + Print(b) + ")" && "" + tail == tail;
    }
    PipeDone(Print(c) + r, d, r);
    LineDone(Print(c) + r, d, r);
  }

  lemma {:induction false} PipeParse(l: Cmd, m: Cmd, r: string) returns (d: Cmd)
    requires CmdOk(l) && CmdOk(m) && Closes(r)
    ensures ParseLine(Print(Pipe(l, m)) + r) == Ok(d, r) && Same(Pipe(l, m), d)
    decreases Pipe(l, m), 0
  {
    var right := "(" + (Print(m) + (")" + r));
    var e := BlockOf(m, r);
    PipeDone(right, e, r);
    var f := BlockOf(l, "|" + right);
    var s := "(" + (Print(l) + (")" + ("|" + right)));
    PipeJoins(s, f, right, e, r);
    d := Pipe(f, e);
    LineDone(s, d, r);
    TwoBlocks(Print(l), '|', Print(m), r);
    assert ")" + "|" + "(" == ")|(";
  }

  lemma {:induction false} ListParse(l: Cmd, m: Cmd, r: string) returns (d: Cmd)
    requires CmdOk(l) && CmdOk(m) && Closes(r)
    ensures ParseLine(Print(List(l, m)) + r) == Ok(d, r) && Same(List(l, m), d)
    decreases List(l, m), 0
  {
    var right := "(" + (Print(m) + (")" + r));
    var e := BlockOf(m, r);
    PipeDone(right, e, r);
    LineDone(right, e, r);
    var f := BlockOf(l, ";" + right);
    var s := "(" + (Print(l) + (")" + (";" + right)));
    PipeDone(s, f, ";" + right);
    LineJoins(s, f, right, e, r);
    d := List(f, e);
    TwoBlocks(Print(l), ';', Print(m), r);
    assert ")" + ";" + "(" == ");(";
  }

  lemma {:induction false} BackParse(c: Cmd, r: string) returns (d: Cmd)
    requires CmdOk(c) && Closes(r)
    ensures ParseLine(Print(Back(c)) + r) == Ok(d, r) && Same(Back(c), d)
    decreases Back(c), 0
  {
    var f := BlockOf(c, "&" + r);
    var s := "(" + (Print(c) + (")" + ("&" + r)));
    PipeDone(s, f, "&" + r);
    LineBacks(s, f, r);
    d := Back(f);
    Reassociate(Print(c), "&", r);
    assert "(" + Print(c) + ")" + "&" == "(" + Print(c) + ")&" by {
      assert ")" + "&" == ")&";
      Assoc("(" + Print(c), ")", "&");
    }
  }

  /** A printed tree parses to itself, up to where its words are, and exactly its text is consumed. */
  lemma {:induction false} LineParse(c: Cmd, r: string) returns (d: Cmd)
    requires CmdOk(c) && Closes(r)
    ensures ParseLine(Print(c) + r) == Ok(d, r) && Same(c, d)
    decreases c, 1
  {
    match c
    case Pipe(l, m) => d := PipeParse(l, m, r);
    case List(l, m) => d := ListParse(l, m, r);
    case Back(sub) => d := BackParse(sub, r);
    case _ => d := RedirectedParse(c, r);
  }

  /** Parsing undoes printing, for every tree of legal words and at most nine arguments per command. */
  lemma ParseUndoesPrint(c: Cmd)
    requires CmdOk(c)
    ensures ParseCmd(Print(c)).Some? && Same(c, ParseCmd(Print(c)).value)
  {
    var d := LineParse(c, "");
    assert Print(c) + "" == Print(c);
  }

  // ---- every tree the parser makes can be printed ----

  lemma {:induction false} WordLengthOk(s: string, i: nat)
    requires i < WordLength(s)
    ensures IsWordChar(s[i])
  {
    if i > 0 {
      WordLengthOk(s[1..], i - 1);
    }
  }

  lemma TokenOk(r: string)
    ensures GetToken(r).0.IsWord? ==> WordOk(GetToken(r).0.word)
  {
    var s := SkipSpace(r);
    if s != "" && IsWordChar(s[0]) {
      var n := WordLength(s);
      forall i | 0 <= i < n ensures IsWordChar(s[..n][i]) {
        WordLengthOk(s, i);
      }
    }
  }

  lemma {:induction false} WrapOk(c: Cmd, ts: seq<Target>)
    requires CmdOk(c) && TargetsOk(ts)
    ensures CmdOk(Wrap(c, ts))
    decreases |ts|
  {
    if ts != [] {
      WrapOk(Redir(c, ts[0]), ts[1..]);
    }
  }

  lemma {:induction false} WordsOkMore(ws: seq<Word>, w: Word)
    requires WordsOk(ws) && WordOk(w)
    ensures WordsOk(ws + [w])
  {
    if ws == [] {
      assert ([w])[1..] == [];
    } else {
      WordsOkMore(ws[1..], w);
      assert (ws + [w])[1..] == ws[1..] + [w];
    }
  }

  lemma {:induction false} RedirsOk(r: string, acc: seq<Target>)
    requires TargetsOk(acc)
    ensures ParseRedirs(r, acc).Ok? ==> TargetsOk(ParseRedirs(r, acc).value)
    decreases |r|
  {
    var s := SkipSpace(r);
    if Peek(s, {'<', '>'}) {
      var op := GetToken(s);
      var file := GetToken(op.1);
      TokenOk(op.1);
      if file.0.IsWord? {
        TargetsAppendOk(acc, Target(file.0.word, op.0 == Op('<')));
        RedirsOk(file.1, acc + [Target(file.0.word, op.0 == Op('<'))]);
      }
    }
  }

  lemma {:induction false} ArgsOk(r: string, args: seq<Word>, ts: seq<Target>)
    requires |args| < MAXARGS && WordsOk(args) && TargetsOk(ts)
    ensures ParseArgs(r, args, ts).Ok? ==> CmdOk(ParseArgs(r, args, ts).value)
    decreases |r|
  {
    var s := SkipSpace(r);
    WrapOk(Exec(args), ts);
    if !Peek(s, {'|', ')', '&', ';'}) {
      var t := GetToken(s);
      TokenOk(s);
      if t.0.IsWord? && |args| + 1 < MAXARGS {
        RedirsOk(t.1, ts);
        WordsOkMore(args, t.0.word);
        var rs := ParseRedirs(t.1, ts);
        if rs.Ok? {
          ArgsOk(rs.rest, args + [t.0.word], rs.value);
        }
      }
    }
  }

  lemma {:induction false} ExecOk(r: string)
    ensures ParseExec(r).Ok? ==> CmdOk(ParseExec(r).value)
    decreases |r|, 1
  {
    if Peek(r, {'('}) {
      BlockOk(SkipSpace(r));
    } else {
      RedirsOk(r, []);
      var rs := ParseRedirs(r, []);
      if rs.Ok? {
        ArgsOk(rs.rest, [], rs.value);
      }
    }
  }

  lemma {:induction false} BlockOk(r: string)
    ensures ParseBlock(r).Ok? ==> CmdOk(ParseBlock(r).value)
    decreases |r|, 0
  {
    if Peek(r, {'('}) {
      LineOk(GetToken(r).1);
      var inner := ParseLine(GetToken(r).1);
      if inner.Ok? {
        RedirsOk(GetToken(inner.rest).1, []);
        var rs := ParseRedirs(GetToken(inner.rest).1, []);
        if rs.Ok? {
          WrapOk(inner.value, rs.value);
        }
      }
    }
  }

  lemma {:induction false} PipeOk(r: string)
    ensures ParsePipe(r).Ok? ==> CmdOk(ParsePipe(r).value)
    decreases |r|, 2
  {
    ExecOk(r);
    var left := ParseExec(r);
    if left.Ok? && Peek(left.rest, {'|'}) {
      PipeOk(GetToken(left.rest).1);
    }
  }

  lemma {:induction false} BackOk(c: Cmd, r: string)
    requires CmdOk(c)
    ensures CmdOk(ParseBack(c, r).0)
    decreases |r|
  {
    if Peek(r, {'&'}) {
      BackOk(Back(c), GetToken(r).1);
    }
  }

  lemma {:induction false} LineOk(r: string)
    ensures ParseLine(r).Ok? ==> CmdOk(ParseLine(r).value)
    decreases |r|, 3
  {
    PipeOk(r);
    var first := ParsePipe(r);
    if first.Ok? {
      BackOk(first.value, first.rest);
      var backed := ParseBack(first.value, first.rest);
      if Peek(backed.1, {';'}) {
        LineOk(GetToken(backed.1).1);
      }
    }
  }

  /** Whatever input is accepted, its tree printed and parsed again is the same tree. */
  lemma ParsePrintParse(s: string)
    requires ParseCmd(s).Some?
    ensures CmdOk(ParseCmd(s).value)
    ensures ParseCmd(Print(ParseCmd(s).value)).Some? && Same(ParseCmd(s).value, ParseCmd(Print(ParseCmd(s).value)).value)
  {
    LineOk(s);
    ParseUndoesPrint(ParseCmd(s).value);
  }
}
