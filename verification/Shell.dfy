/** The shell's grammar: what its parser computes, on the input from the cursor on. */
module Shell {
  import opened Prelude

  const MAXARGS: nat := 10

  /** A word of the input, and how many characters follow its end. */
  datatype Word = Word(text: string, after: nat)

  /** A redirection of standard input or output; the parser makes no difference between > and >>. */
  datatype Target = Target(file: Word, input: bool)

  datatype Cmd =
    | Exec(args: seq<Word>)
    | Redir(cmd: Cmd, target: Target)
    | Pipe(left: Cmd, right: Cmd)
    | List(left: Cmd, right: Cmd)
    | Back(cmd: Cmd)

  /** A parser's result: what it made and the input left, or a panic. */
  datatype Parsed<T> = Ok(value: T, rest: string) | Panic

  predicate IsSpace(c: char) {
    c == ' ' || c == '\t' || c == '\r' || c == '\n' || c == '\U{000B}'
  }

  predicate IsSymbol(c: char) {
    c == '<' || c == '|' || c == '>' || c == '&' || c == ';' || c == '(' || c == ')'
  }

  predicate IsWordChar(c: char) {
    !IsSpace(c) && !IsSymbol(c)
  }

  function SkipSpace(r: string): (s: string)
    ensures |s| <= |r| && (s != "" ==> !IsSpace(s[0]))
    ensures r != "" && !IsSpace(r[0]) ==> s == r
  {
    if r != "" && IsSpace(r[0]) then SkipSpace(r[1..]) else r
  }

  function WordLength(r: string): (n: nat)
    ensures n <= |r|
  {
    if r != "" && IsWordChar(r[0]) then 1 + WordLength(r[1..]) else 0
  }

  /** End of input, an operator (>> is '+'), or a word. */
  datatype Token = Eof | Op(c: char) | IsWord(word: Word)

  /** gettoken: the token, and the input behind it and the space that follows. */
  function GetToken(r: string): (t: (Token, string))
    ensures |t.1| <= |r| && (t.0 != Eof ==> |t.1| < |r|) && (t.0 == Eof ==> t.1 == "")
    ensures t.1 != "" ==> !IsSpace(t.1[0])
  {
    var s := SkipSpace(r);
    if s == "" then (Eof, "")
    else if s[0] == '>' then
      if |s| > 1 && s[1] == '>' then (Op('+'), SkipSpace(s[2..])) else (Op('>'), SkipSpace(s[1..]))
    else if IsSymbol(s[0]) then (Op(s[0]), SkipSpace(s[1..]))
    else
      var n := WordLength(s);
      (IsWord(Word(s[..n], |s| - n)), SkipSpace(s[n..]))
  }

  /** peek: whether the next character that is no space is one of toks. */
  predicate Peek(r: string, toks: set<char>) {
    var s := SkipSpace(r); s != "" && s[0] in toks
  }

  // ---- the grammar ----

  /** parseredirs, gathering the targets. */
  function ParseRedirs(r: string, acc: seq<Target>): (p: Parsed<seq<Target>>)
    ensures p.Ok? ==> |p.rest| <= |r|
    decreases |r|
  {
    var s := SkipSpace(r);
    if !Peek(s, {'<', '>'}) then Ok(acc, s)
    else
      var op := GetToken(s);
      var file := GetToken(op.1);
      if !file.0.IsWord? then Panic
      else ParseRedirs(file.1, acc + [Target(file.0.word, op.0 == Op('<'))])
  }

  function Wrap(cmd: Cmd, ts: seq<Target>): Cmd
    decreases |ts|
  {
    if ts == [] then cmd else Wrap(Redir(cmd, ts[0]), ts[1..])
  }

  /** parseexec's loop: arguments, each followed by redirections. */
  function ParseArgs(r: string, args: seq<Word>, ts: seq<Target>): (p: Parsed<Cmd>)
    ensures p.Ok? ==> |p.rest| <= |r|
    decreases |r|
  {
    var s := SkipSpace(r);
    if Peek(s, {'|', ')', '&', ';'}) then Ok(Wrap(Exec(args), ts), s)
    else
      var t := GetToken(s);
      if t.0.Eof? then Ok(Wrap(Exec(args), ts), t.1)
      else if !t.0.IsWord? || |args| + 1 >= MAXARGS then Panic
      else
        var rs := ParseRedirs(t.1, ts);
        if rs.Panic? then Panic else ParseArgs(rs.rest, args + [t.0.word], rs.value)
  }

  function ParseExec(r: string): (p: Parsed<Cmd>)
    ensures p.Ok? ==> |p.rest| <= |r|
    decreases |r|, 1
  {
    if Peek(r, {'('}) then ParseBlock(SkipSpace(r))
    else
      var rs := ParseRedirs(r, []);
      if rs.Panic? then Panic else ParseArgs(rs.rest, [], rs.value)
  }

  /** parseblock, at its opening parenthesis. */
  function ParseBlock(r: string): (p: Parsed<Cmd>)
    ensures p.Ok? ==> |p.rest| <= |r|
    decreases |r|, 0
  {
    if !Peek(r, {'('}) then Panic
    else
      var inner := ParseLine(GetToken(r).1);
      if inner.Panic? || !Peek(inner.rest, {')'}) then Panic
      else
        var rs := ParseRedirs(GetToken(inner.rest).1, []);
        if rs.Panic? then Panic else Ok(Wrap(inner.value, rs.value), rs.rest)
  }

  function ParsePipe(r: string): (p: Parsed<Cmd>)
    ensures p.Ok? ==> |p.rest| <= |r|
    decreases |r|, 2
  {
    var left := ParseExec(r);
    if left.Panic? then Panic
    else if !Peek(left.rest, {'|'}) then Ok(left.value, SkipSpace(left.rest))
    else
      var right := ParsePipe(GetToken(left.rest).1);
      if right.Panic? then Panic else Ok(Pipe(left.value, right.value), right.rest)
  }

  /** parseline's loop over &. */
  function ParseBack(cmd: Cmd, r: string): (p: (Cmd, string))
    ensures |p.1| <= |r|
    decreases |r|
  {
    if Peek(r, {'&'}) then ParseBack(Back(cmd), GetToken(r).1) else (cmd, SkipSpace(r))
  }

  function ParseLine(r: string): (p: Parsed<Cmd>)
    ensures p.Ok? ==> |p.rest| <= |r|
    decreases |r|, 3
  {
    var first := ParsePipe(r);
    if first.Panic? then Panic
    else
      var backed := ParseBack(first.value, first.rest);
      if !Peek(backed.1, {';'}) then Ok(backed.0, SkipSpace(backed.1))
      else
        var more := ParseLine(GetToken(backed.1).1);
        if more.Panic? then Panic else Ok(List(backed.0, more.value), more.rest)
  }

  /** parsecmd: all of the input, or a panic. */
  function ParseCmd(s: string): Option<Cmd> {
    var p := ParseLine(s);
    if p.Panic? || SkipSpace(p.rest) != "" then None else Some(p.value)
  }

  // ---- space does not matter ----

  lemma SkipTwice(r: string)
    ensures SkipSpace(SkipSpace(r)) == SkipSpace(r)
  {
  }

  lemma RedirsSkip(r: string, acc: seq<Target>)
    ensures ParseRedirs(SkipSpace(r), acc) == ParseRedirs(r, acc)
  {
    SkipTwice(r);
  }
}
