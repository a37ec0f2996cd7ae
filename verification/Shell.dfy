/** user/sh.c: the parser as it runs, moving its position along the line and then cutting the words off
    in the line itself. */
module Shell {
  import opened ShellLex
  import opened ShellParse
  import opened ShellPrint

  // ---- skipped blanks make no difference ----

  lemma SkipAgain(s: string, p: nat)
    requires p <= |s|
    ensures Skip(s, Skip(s, p)) == Skip(s, p) && GetToken(s, Skip(s, p)) == GetToken(s, p)
  {
    var q := Skip(s, p);
    assert Skip(s, q) == q;
    hide Skip;
    hide WordEnd;
  }

  // ---- cutting the words off ----

  function NullEnds(b: string, args: seq<Span>): (r: string)
    ensures |r| == |b|
  {
    if args == [] then b
    else
      var n := |args| - 1;
      var r := NullEnds(b, args[..n]);
      if args[n].eq < |b| then r[args[n].eq := '\0'] else r
  }

  function Nulled(b: string, c: Cmd<Span>): (r: string)
    ensures |r| == |b|
    decreases c
  {
    match c
    case Exec(args) => NullEnds(b, args)
    case Redir(d, file, _) => if file.eq < |b| then Nulled(b, d)[file.eq := '\0'] else Nulled(b, d)
    case Pipe(l, r) => Nulled(Nulled(b, l), r)
    case List(l, r) => Nulled(Nulled(b, l), r)
    case Back(d) => Nulled(b, d)
  }

  /** w is a word of the command. */
  ghost predicate HasWord(c: Cmd<Span>, w: Span) {
    match c
    case Exec(args) => w in args
    case Redir(d, file, _) => w == file || HasWord(d, w)
    case Pipe(l, r) => HasWord(l, w) || HasWord(r, w)
    case List(l, r) => HasWord(l, w) || HasWord(r, w)
    case Back(d) => HasWord(d, w)
  }

  ghost predicate EndsWord(c: Cmd<Span>, k: nat) {
    exists w {:trigger HasWord(c, w)} :: HasWord(c, w) && w.eq == k
  }

  lemma {:induction false} NullEndsAt(b: string, args: seq<Span>, k: nat)
    requires k < |b|
    ensures (forall i {:trigger args[i]} :: 0 <= i < |args| ==> args[i].eq != k) ==> NullEnds(b, args)[k] == b[k]
    ensures (exists i {:trigger args[i]} :: 0 <= i < |args| && args[i].eq == k) ==> NullEnds(b, args)[k] == '\0'
    decreases |args|
  {
    if args != [] {
      var n := |args| - 1;
      NullEndsAt(b, args[..n], k);
      if exists i {:trigger args[i]} :: 0 <= i < n && args[i].eq == k {
        var i :| 0 <= i < n && args[i].eq == k;
        assert args[..n][i].eq == k;
      }
    }
  }

  /** NULs are written at the ends of words and nowhere else. */
  lemma {:induction false} NulledAt(b: string, c: Cmd<Span>, k: nat)
    requires k < |b|
    ensures !EndsWord(c, k) ==> Nulled(b, c)[k] == b[k]
    ensures EndsWord(c, k) ==> Nulled(b, c)[k] == '\0'
    decreases c
  {
    match c
    case Exec(args) =>
      NullEndsAt(b, args, k);
      if EndsWord(c, k) {
        var w :| HasWord(c, w) && w.eq == k;
        assert w in args;
      } else {
        assert forall i {:trigger args[i]} :: 0 <= i < |args| ==> HasWord(c, args[i]);
      }
    case Redir(d, file, _) =>
      NulledAt(b, d, k);
      SubWords(c, d, k);
      assert HasWord(c, file);
    case Pipe(l, r) =>
      NulledAt(b, l, k);
      NulledAt(Nulled(b, l), r, k);
      SubWords(c, l, k);
      SubWords(c, r, k);
    case List(l, r) =>
      NulledAt(b, l, k);
      NulledAt(Nulled(b, l), r, k);
      SubWords(c, l, k);
      SubWords(c, r, k);
    case Back(d) =>
      NulledAt(b, d, k);
      SubWords(c, d, k);
  }

  lemma SubWords(c: Cmd<Span>, d: Cmd<Span>, k: nat)
    requires (c.Redir? && d == c.cmd) || (c.Back? && d == c.cmd) || (c.Pipe? && (d == c.left || d == c.right))
      || (c.List? && (d == c.left || d == c.right))
    ensures EndsWord(d, k) ==> EndsWord(c, k)
    ensures c.Back? && EndsWord(c, k) ==> EndsWord(d, k)
    ensures c.Redir? && EndsWord(c, k) ==> EndsWord(d, k) || c.file.eq == k
    ensures (c.Pipe? || c.List?) && EndsWord(c, k) ==> EndsWord(c.left, k) || EndsWord(c.right, k)
  {
    if EndsWord(d, k) {
      var w :| HasWord(d, w) && w.eq == k;
      assert HasWord(c, w);
    }
    if EndsWord(c, k) {
      var w :| HasWord(c, w) && w.eq == k;
      assert (c.Redir? || c.Back?) && HasWord(c.cmd, w) ==> EndsWord(c.cmd, k);
      assert (c.Pipe? || c.List?) ==> HasWord(c.left, w) || HasWord(c.right, w);
    }
  }

  lemma {:induction false} WordsCut(s: string, c: Cmd<Span>, w: Span)
    requires Sound(s, c) && HasWord(c, w)
    ensures Cut(s, w)
    decreases c
  {
    match c
    case Exec(args) =>
      var i :| 0 <= i < |args| && args[i] == w;
    case Redir(d, file, _) => if w != file { WordsCut(s, d, w); }
    case Pipe(l, r) => if HasWord(l, w) { WordsCut(s, l, w); } else { WordsCut(s, r, w); }
    case List(l, r) => if HasWord(l, w) { WordsCut(s, l, w); } else { WordsCut(s, r, w); }
    case Back(d) => WordsCut(s, d, w);
  }

  /** The C string that starts at q. */
  function CString(b: string, q: nat): string
    decreases |b| - q
  {
    if q >= |b| || b[q] == '\0' then "" else [b[q]] + CString(b, q + 1)
  }

  lemma {:induction false} CStringIs(b: string, q: nat, e: nat)
    requires q <= e < |b| && b[e] == '\0' && forall k {:trigger b[k]} :: q <= k < e ==> b[k] != '\0'
    ensures CString(b, q) == b[q..e]
    decreases e - q
  {
    if q < e {
      CStringIs(b, q + 1, e);
      assert b[q..e] == [b[q]] + b[q + 1..e];
    }
  }

  /** After nulterminate every argument and file name reads as exactly its token: no NUL lands inside
      another word. */
  lemma WordsReadBack(s: string, c: Cmd<Span>, w: Span)
    requires Sound(s, c) && HasWord(c, w) && forall k {:trigger s[k]} :: 0 <= k < |s| ==> s[k] != '\0'
    ensures CString(Nulled(s + ['\0'], c), w.q) == Text(s, w)
  {
    var b := s + ['\0'];
    var b' := Nulled(b, c);
    WordsCut(s, c, w);
    forall k | w.q <= k < w.eq
      ensures b'[k] == s[k]
    {
      if EndsWord(c, k) {
        var v :| HasWord(c, v) && v.eq == k;
        WordsCut(s, c, v);
      }
      NulledAt(b, c, k);
    }
    assert EndsWord(c, w.eq);
    NulledAt(b, c, w.eq);
    CStringIs(b', w.q, w.eq);
    assert b'[w.q..w.eq] == s[w.q..w.eq];
  }

  // ---- the parser ----

  class Parser {
    const s: string
    var ps: nat

    constructor (s: string)
      ensures this.s == s && ps == 0
    {
      this.s := s;
      ps := 0;
    }

    method SkipWhite(start: nat) returns (i: nat)
      requires start <= |s|
      ensures i == Skip(s, start)
    {
      i := start;
      while i < |s| && White(s[i])
        invariant start <= i <= |s| && Skip(s, i) == Skip(s, start)
      {
        i := i + 1;
      }
    }

    method Gettoken() returns (kind: char, q: nat, eq: nat)
      requires ps <= |s|
      modifies this
      ensures Token(kind, q, eq, ps) == GetToken(s, old(ps))
    {
      var i := SkipWhite(ps);
      q := i;
      if i == |s| {
        kind := END;
      } else if Symbol(s[i]) {
        kind := s[i];
        i := i + 1;
        if kind == '>' && i < |s| && s[i] == '>' {
          kind := '+';
          i := i + 1;
        }
      } else {
        kind := 'a';
        while i < |s| && Plain(s[i])
          invariant q <= i <= |s| && WordEnd(s, i) == WordEnd(s, q)
        {
          i := i + 1;
        }
      }
      eq := i;
      ps := SkipWhite(i);
    }

    method Peek(toks: string) returns (seen: bool)
      requires ps <= |s|
      modifies this
      ensures ps == Skip(s, old(ps)) && seen == Sees(s, old(ps), toks)
    {
      ps := SkipWhite(ps);
      seen := ps < |s| && s[ps] in toks;
    }

    /** What a parsing method has done: it gave the command and the position that the function gives, or
        the shell has panicked. */
    ghost predicate Did<T>(r: Res<T>, ok: bool, v: T)
      reads this
    {
      ps <= |s| && (ok <==> r.Ok?) && (ok ==> r == Ok(v, ps))
    }

    method Parseredirs(acc: seq<Rd>) returns (ok: bool, rs: seq<Rd>)
      requires ps <= |s|
      modifies this
      ensures Did(Redirs(s, old(ps), acc), ok, rs)
    {
      hide GetToken;
      hide Skip;
      ok, rs := true, acc;
      ghost var p0 := ps;
      var more := Peek("<>");
      ghost var p := p0;
      while more && ok
        invariant p0 <= p <= |s| && ps <= |s|
        invariant ok ==> ps == Skip(s, p) && more == Sees(s, p, "<>") && Redirs(s, p0, acc) == Redirs(s, p, rs)
        invariant !ok ==> Redirs(s, p0, acc).Panic?
        decreases ok, |s| - p
      {
        SkipAgain(s, p);
        ghost var p1 := p;
        var tok, q, eq, tok2;
        tok, q, eq := Gettoken();
        tok2, q, eq := Gettoken();
        if tok2 != 'a' {
          ok := false;
        } else {
          rs := rs + [Rd(Span(q, eq), ModeOf(tok))];
          p := ps;
          SkipToken(s, GetToken(s, p1).next);
          more := Peek("<>");
        }
      }
    }

    /** The loop of parseexec. */
    method ParseArgs(rs0: seq<Rd>) returns (ok: bool, c: Cmd<Span>)
      requires ps <= |s|
      modifies this
      ensures Did(Args(s, old(ps), [], rs0), ok, c)
    {
      hide GetToken;
      hide Skip;
      hide Redirs;
      var args: seq<Span>, rs := [], rs0;
      ok, c := true, Exec([]);
      ghost var p0, p := ps, ps;
      var stop := Peek("|)&;");
      while !stop && ok
        invariant p0 <= p <= |s| && ps <= |s|
        invariant ok ==> Args(s, p0, [], rs0) == Args(s, p, args, rs)
        invariant ok && stop ==> Args(s, p, args, rs) == Ok(Wrap(Exec(args), rs), ps)
        invariant ok && !stop ==> ps == Skip(s, p) && !Sees(s, p, "|)&;")
        invariant !ok ==> Args(s, p0, [], rs0).Panic?
        decreases ok, !stop, |s| - p
      {
        SkipAgain(s, p);
        SkipToken(s, p);
        ghost var p1 := p;
        var tok, q, eq := Gettoken();
        if tok == END {
          stop := true;
        } else if tok != 'a' || |args| + 1 >= MAXARGS {
          ok := false;
        } else {
          args := args + [Span(q, eq)];
          ok, rs := Parseredirs(rs);
          if ok {
            p := ps;
            stop := Peek("|)&;");
          }
        }
      }
      c := Wrap(Exec(args), rs);
    }

    method Parseexec() returns (ok: bool, c: Cmd<Span>)
      requires ps <= |s|
      modifies this
      ensures Did(ParseExec(s, old(ps)), ok, c)
      decreases |s| - ps, 1
    {
      ghost var p := ps;
      SkipAgain(s, p);
      hide GetToken;
      hide Skip;
      c := Exec([]);
      var open := Peek("(");
      if open {
        ok, c := Parseblock();
      } else {
        var rs;
        ok, rs := Parseredirs([]);
        if ok {
          ok, c := ParseArgs(rs);
        }
      }
    }

    method Parseblock() returns (ok: bool, c: Cmd<Span>)
      requires ps <= |s| && Sees(s, ps, "(")
      modifies this
      ensures Did(ParseBlock(s, old(ps)), ok, c)
      decreases |s| - ps, 0
    {
      hide Skip;
      var tok, q, eq := Gettoken();
      hide GetToken;
      ok, c := Parseline();
      if ok {
        SkipAgain(s, ps);
        ok := Peek(")");
        if ok {
          tok, q, eq := Gettoken();
          var rs;
          ok, rs := Parseredirs([]);
          if ok {
            c := Wrap(c, rs);
          }
        }
      }
    }

    method Parsepipe() returns (ok: bool, c: Cmd<Span>)
      requires ps <= |s|
      modifies this
      ensures Did(ParsePipe(s, old(ps)), ok, c)
      decreases |s| - ps, 2
    {
      hide Skip;
      hide GetToken;
      hide ParseExec;
      ok, c := Parseexec();
      if ok {
        SkipAgain(s, ps);
        var bar := Peek("|");
        if bar {
          var tok, q, eq := Gettoken();
          var r;
          ok, r := Parsepipe();
          c := Pipe(c, r);
        }
      }
    }

    method Parseline() returns (ok: bool, c: Cmd<Span>)
      requires ps <= |s|
      modifies this
      ensures Did(ParseLine(s, old(ps)), ok, c)
      decreases |s| - ps, 3
    {
      hide Skip;
      hide GetToken;
      hide ParsePipe;
      ok, c := Parsepipe();
      if ok {
        ghost var p0, p, c0 := ps, ps, c;
        var amp := Peek("&");
        while amp
          invariant p0 <= p <= |s| && ps == Skip(s, p) && amp == Sees(s, p, "&") && Backs(s, p0, c0) == Backs(s, p, c)
          decreases |s| - p
        {
          SkipAgain(s, p);
          var tok, q, eq := Gettoken();
          c := Back(c);
          SkipToken(s, p);
          p := ps;
          amp := Peek("&");
        }
        SkipAgain(s, p);
        var semi := Peek(";");
        if semi {
          var tok, q, eq := Gettoken();
          var r;
          ok, r := Parseline();
          c := List(c, r);
        }
      }
    }

    /** parsecmd up to nulterminate. */
    method ParseAll() returns (ok: bool, c: Cmd<Span>)
      requires ps == 0
      modifies this
      ensures ok <==> Parse(s).Ok?
      ensures ok ==> c == Parse(s).v && Sound(s, c)
    {
      ok, c := Parseline();
      if ok {
        var none := Peek("");
        ok := ps == |s|;
        ParseSound(s);
      }
    }
  }

  /** nulterminate, on the line as it stands in memory. */
  method Nulterminate(b: array<char>, c: Cmd<Span>)
    requires InLine(b.Length, c)
    modifies b
    ensures b[..] == Nulled(old(b[..]), c)
    decreases c
  {
    match c
    case Exec(args) =>
      var i := 0;
      while i < |args|
        invariant 0 <= i <= |args| && b[..] == NullEnds(old(b[..]), args[..i])
      {
        assert args[..i + 1][..i] == args[..i];
        b[args[i].eq] := '\0';
        i := i + 1;
      }
      assert args[..|args|] == args;
    case Redir(d, file, _) =>
      Nulterminate(b, d);
      b[file.eq] := '\0';
    case Pipe(l, r) =>
      Nulterminate(b, l);
      Nulterminate(b, r);
    case List(l, r) =>
      Nulterminate(b, l);
      Nulterminate(b, r);
    case Back(d) =>
      Nulterminate(b, d);
  }

  predicate InLine(n: nat, c: Cmd<Span>) {
    match c
    case Exec(args) => forall i {:trigger args[i]} :: 0 <= i < |args| ==> args[i].eq < n
    case Redir(d, file, _) => InLine(n, d) && file.eq < n
    case Pipe(l, r) => InLine(n, l) && InLine(n, r)
    case List(l, r) => InLine(n, l) && InLine(n, r)
    case Back(d) => InLine(n, d)
  }

  lemma SkipToken(s: string, p: nat)
    requires p <= |s|
    ensures Skip(s, GetToken(s, p).next) == GetToken(s, p).next
  {
    SkipAgain(s, GetToken(s, p).eq);
  }

  lemma {:induction false} SoundInLine(s: string, c: Cmd<Span>)
    requires Sound(s, c)
    ensures InLine(|s| + 1, c)
    decreases c
  {
    match c
    case Exec(args) =>
      forall i | 0 <= i < |args|
        ensures args[i].eq < |s| + 1
      {
        assert Cut(s, args[i]);
      }
    case Redir(d, file, _) => SoundInLine(s, d);
    case Pipe(l, r) =>
      SoundInLine(s, l);
      SoundInLine(s, r);
    case List(l, r) =>
      SoundInLine(s, l);
      SoundInLine(s, r);
    case Back(d) => SoundInLine(s, d);
  }

  /** parsecmd on a line in memory: it panics exactly on the lines that do not parse; otherwise each word
      of the command is, in memory, the C string that the line had there. */
  method Parsecmd(b: array<char>, s: string) returns (ok: bool, c: Cmd<Span>)
    requires b[..] == s + ['\0'] && forall k {:trigger s[k]} :: 0 <= k < |s| ==> s[k] != '\0'
    modifies b
    ensures ok <==> Parse(s).Ok?
    ensures ok ==> c == Parse(s).v && forall w {:trigger HasWord(c, w)} :: HasWord(c, w) ==>
      CString(b[..], w.q) == Text(s, w)
  {
    var p := new Parser(s);
    ok, c := p.ParseAll();
    if ok {
      SoundInLine(s, c);
      Nulterminate(b, c);
      forall w | HasWord(c, w)
        ensures CString(b[..], w.q) == Text(s, w)
      {
        WordsReadBack(s, c, w);
      }
    }
  }
}
