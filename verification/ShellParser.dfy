/** The shell's parser as it runs: a cursor into the input. */
module ShellParser {
  import opened Prelude
  import opened Shell

  /** A parser's result with the cursor it leaves, or a panic. */
  datatype Result<T> = Done(value: T, next: nat) | Panicked

  predicate Agrees<T(==)>(s: string, r: Result<T>, p: Parsed<T>) {
    match r
    case Done(v, next) => next <= |s| && p == Ok(v, s[next..])
    case Panicked => p == Panic
  }

  method SkipSpaces(s: string, ps: nat) returns (next: nat)
    requires ps <= |s|
    ensures ps <= next <= |s| && s[next..] == SkipSpace(s[ps..])
  {
    next := ps;
    while next < |s| && IsSpace(s[next])
      invariant ps <= next <= |s| && SkipSpace(s[next..]) == SkipSpace(s[ps..])
    {
      assert s[next..][1..] == s[next + 1..];
      next := next + 1;
    }
  }

  method SkipWord(s: string, ps: nat) returns (next: nat)
    requires ps <= |s|
    ensures ps <= next <= |s| && next - ps == WordLength(s[ps..])
  {
    next := ps;
    while next < |s| && !IsSpace(s[next]) && !IsSymbol(s[next])
      invariant ps <= next <= |s| && WordLength(s[ps..]) == next - ps + WordLength(s[next..])
    {
      assert s[next..][1..] == s[next + 1..];
      next := next + 1;
    }
  }

  /** gettoken. */
  method Gettoken(s: string, ps: nat) returns (tok: Token, next: nat)
    requires ps <= |s|
    ensures next <= |s| && GetToken(s[ps..]) == (tok, s[next..])
  {
    var q := SkipSpaces(s, ps);
    if q == |s| {
      return Eof, q;
    }
    var eq := q + 1;
    assert s[q..][1..] == s[eq..];
    if s[q] == '>' {
      tok := Op('>');
      if eq < |s| && s[eq] == '>' {
        assert s[q..][2..] == s[q + 2..];
        tok, eq := Op('+'), eq + 1;
      }
    } else if IsSymbol(s[q]) {
      tok := Op(s[q]);
    } else {
      eq := SkipWord(s, q);
      assert s[q..][..eq - q] == s[q..eq] && s[q..][eq - q..] == s[eq..];
      tok := IsWord(Word(s[q..eq], |s| - eq));
    }
    next := SkipSpaces(s, eq);
  }

  /** peek. */
  method PeekAt(s: string, ps: nat, toks: set<char>) returns (hit: bool, next: nat)
    requires ps <= |s|
    ensures hit == Peek(s[ps..], toks) && ps <= next <= |s| && s[next..] == SkipSpace(s[ps..])
  {
    next := SkipSpaces(s, ps);
    hit := next < |s| && s[next] in toks;
  }

  /** parseredirs. */
  method Parseredirs(s: string, ps: nat, acc: seq<Target>) returns (r: Result<seq<Target>>)
    requires ps <= |s|
    ensures Agrees(s, r, ParseRedirs(s[ps..], acc))
  {
    var at, ts := ps, acc;
    while true
      invariant at <= |s| && ParseRedirs(s[at..], ts) == ParseRedirs(s[ps..], acc)
      decreases |s| - at
    {
      var more, next := PeekAt(s, at, {'<', '>'});
      SkipTwice(s[at..]);
      if !more {
        return Done(ts, next);
      }
      var op, behind := Gettoken(s, next);
      var file, rest := Gettoken(s, behind);
      if !file.IsWord? {
        return Panicked;
      }
      ts := ts + [Target(file.word, op == Op('<'))];
      at := rest;
    }
  }

  /** parseexec. */
  method Parseexec(s: string, ps: nat) returns (r: Result<Cmd>)
    requires ps <= |s|
    ensures Agrees(s, r, ParseExec(s[ps..]))
    decreases |s| - ps, 1
  {
    var block, next := PeekAt(s, ps, {'('});
    if block {
      r := Parseblock(s, next);
      return;
    }
    RedirsSkip(s[ps..], []);
    var redirs := Parseredirs(s, next, []);
    if redirs.Panicked? {
      return Panicked;
    }
    r := Parseargs(s, redirs.next, redirs.value);
  }

  /** parseexec's loop. */
  method Parseargs(s: string, ps: nat, ts0: seq<Target>) returns (r: Result<Cmd>)
    requires ps <= |s|
    ensures Agrees(s, r, ParseArgs(s[ps..], [], ts0))
  {
    var at, args, ts := ps, [], ts0;
    while true
      invariant at <= |s| && ParseArgs(s[at..], args, ts) == ParseArgs(s[ps..], [], ts0)
      decreases |s| - at
    {
      var stop, next := PeekAt(s, at, {'|', ')', '&', ';'});
      SkipTwice(s[at..]);
      if stop {
        return Done(Wrap(Exec(args), ts), next);
      }
      var tok, rest := Gettoken(s, next);
      if tok.Eof? {
        return Done(Wrap(Exec(args), ts), rest);
      }
      if !tok.IsWord? || |args| + 1 >= MAXARGS {
        return Panicked;
      }
      var redirs := Parseredirs(s, rest, ts);
      if redirs.Panicked? {
        return Panicked;
      }
      args, ts, at := args + [tok.word], redirs.value, redirs.next;
    }
  }

  /** parseblock. */
  method Parseblock(s: string, ps: nat) returns (r: Result<Cmd>)
    requires ps <= |s|
    ensures Agrees(s, r, ParseBlock(s[ps..]))
    decreases |s| - ps, 0
  {
    var open, next := PeekAt(s, ps, {'('});
    if !open {
      return Panicked;
    }
    SkipTwice(s[ps..]);
    var op, behind := Gettoken(s, next);
    var inner := Parseline(s, behind);
    if inner.Panicked? {
      return Panicked;
    }
    var close, at := PeekAt(s, inner.next, {')'});
    if !close {
      return Panicked;
    }
    SkipTwice(s[inner.next..]);
    op, behind := Gettoken(s, at);
    var redirs := Parseredirs(s, behind, []);
    if redirs.Panicked? {
      return Panicked;
    }
    return Done(Wrap(inner.value, redirs.value), redirs.next);
  }

  /** parsepipe. */
  method Parsepipe(s: string, ps: nat) returns (r: Result<Cmd>)
    requires ps <= |s|
    ensures Agrees(s, r, ParsePipe(s[ps..]))
    decreases |s| - ps, 2
  {
    var left := Parseexec(s, ps);
    if left.Panicked? {
      return Panicked;
    }
    var bar, next := PeekAt(s, left.next, {'|'});
    if !bar {
      return Done(left.value, next);
    }
    SkipTwice(s[left.next..]);
    var op, behind := Gettoken(s, next);
    var right := Parsepipe(s, behind);
    if right.Panicked? {
      return Panicked;
    }
    return Done(Pipe(left.value, right.value), right.next);
  }

  /** parseline. */
  method Parseline(s: string, ps: nat) returns (r: Result<Cmd>)
    requires ps <= |s|
    ensures Agrees(s, r, ParseLine(s[ps..]))
    decreases |s| - ps, 3
  {
    var first := Parsepipe(s, ps);
    if first.Panicked? {
      return Panicked;
    }
    var cmd, at := Parseback(s, first.next, first.value);
    var semi, next := PeekAt(s, at, {';'});
    if !semi {
      return Done(cmd, next);
    }
    SkipTwice(s[at..]);
    var op, behind := Gettoken(s, next);
    var more := Parseline(s, behind);
    if more.Panicked? {
      return Panicked;
    }
    return Done(List(cmd, more.value), more.next);
  }

  /** parseline's loop over &. */
  method Parseback(s: string, ps: nat, cmd0: Cmd) returns (cmd: Cmd, at: nat)
    requires ps <= |s|
    ensures at <= |s| && ParseBack(cmd0, s[ps..]) == (cmd, s[at..])
  {
    cmd, at := cmd0, ps;
    while true
      invariant at <= |s| && ParseBack(cmd, s[at..]) == ParseBack(cmd0, s[ps..])
      decreases |s| - at
    {
      var amp, next := PeekAt(s, at, {'&'});
      if !amp {
        at := next;
        return;
      }
      SkipTwice(s[at..]);
      var op, behind := Gettoken(s, next);
      cmd, at := Back(cmd), behind;
    }
  }

  /** parsecmd before nulterminate; None is a panic. */
  method Parsecmd(s: string) returns (r: Option<Cmd>)
    ensures r == ParseCmd(s)
  {
    assert s[0..] == s;
    var line := Parseline(s, 0);
    if line.Panicked? {
      return None;
    }
    var hit, next := PeekAt(s, line.next, {});
    if next != |s| {
      return None;
    }
    return Some(line.value);
  }
}
