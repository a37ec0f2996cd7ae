/** The recursive-descent parser of user/sh.c as functions of the line and a position.  `Panic` is any of
    its syntax errors. */
module ShellParse {
  import opened ShellLex

  const MAXARGS: nat := 10

  datatype Mode = Read | Write | Append

  /** Commands over words that are stretches of the line (Span) or strings. */
  datatype Cmd<W> =
    | Exec(args: seq<W>)
    | Redir(cmd: Cmd<W>, file: W, mode: Mode)
    | Pipe(left: Cmd<W>, right: Cmd<W>)
    | List(left: Cmd<W>, right: Cmd<W>)
    | Back(cmd: Cmd<W>)

  datatype Span = Span(q: nat, eq: nat)
  datatype Rd = Rd(file: Span, mode: Mode)
  datatype Res<T> = Ok(v: T, next: nat) | Panic

  function ModeOf(kind: char): Mode {
    if kind == '<' then Read else if kind == '>' then Write else Append
  }

  /** The loop of parseredirs. */
  function Redirs(s: string, p: nat, acc: seq<Rd>): (r: Res<seq<Rd>>)
    requires p <= |s|
    ensures r.Ok? ==> p <= r.next <= |s|
    decreases |s| - p
  {
    if Sees(s, p, "<>") then
      var t := GetToken(s, p);
      var f := GetToken(s, t.next);
      if f.kind != 'a' then Panic else Redirs(s, f.next, acc + [Rd(Span(f.q, f.eq), ModeOf(t.kind))])
    else Ok(acc, Skip(s, p))
  }

  function Wrap(c: Cmd<Span>, rs: seq<Rd>): Cmd<Span> {
    if rs == [] then c else Redir(Wrap(c, rs[..|rs| - 1]), rs[|rs| - 1].file, rs[|rs| - 1].mode)
  }

  /** The loop of parseexec, with the redirections and arguments found so far. */
  function Args(s: string, p: nat, args: seq<Span>, rs: seq<Rd>): (r: Res<Cmd<Span>>)
    requires p <= |s|
    ensures r.Ok? ==> p <= r.next <= |s|
    decreases |s| - p
  {
    if Sees(s, p, "|)&;") then Ok(Wrap(Exec(args), rs), Skip(s, p))
    else
      var t := GetToken(s, p);
      if t.kind == END then Ok(Wrap(Exec(args), rs), t.next)
      else if t.kind != 'a' || |args| + 1 >= MAXARGS then Panic
      else
        var d := Redirs(s, t.next, rs);
        if d.Panic? then Panic else Args(s, d.next, args + [Span(t.q, t.eq)], d.v)
  }

  function ParseExec(s: string, p: nat): (r: Res<Cmd<Span>>)
    requires p <= |s|
    ensures r.Ok? ==> p <= r.next <= |s|
    decreases |s| - p, 1
  {
    if Sees(s, p, "(") then ParseBlock(s, p)
    else
      var d := Redirs(s, p, []);
      if d.Panic? then Panic else Args(s, d.next, [], d.v)
  }

  function ParseBlock(s: string, p: nat): (r: Res<Cmd<Span>>)
    requires p <= |s| && Sees(s, p, "(")
    ensures r.Ok? ==> p <= r.next <= |s|
    decreases |s| - p, 0
  {
    var c := ParseLine(s, GetToken(s, p).next);
    if c.Panic? || !Sees(s, c.next, ")") then Panic
    else
      var d := Redirs(s, GetToken(s, c.next).next, []);
      if d.Panic? then Panic else Ok(Wrap(c.v, d.v), d.next)
  }

  function ParsePipe(s: string, p: nat): (r: Res<Cmd<Span>>)
    requires p <= |s|
    ensures r.Ok? ==> p <= r.next <= |s|
    decreases |s| - p, 2
  {
    var l := ParseExec(s, p);
    if l.Panic? then Panic
    else if Sees(s, l.next, "|") then
      var r := ParsePipe(s, GetToken(s, l.next).next);
      if r.Panic? then Panic else Ok(Pipe(l.v, r.v), r.next)
    else Ok(l.v, Skip(s, l.next))
  }

  /** The & loop of parseline. */
  function Backs(s: string, p: nat, c: Cmd<Span>): (r: Res<Cmd<Span>>)
    requires p <= |s|
    ensures r.Ok? && p <= r.next <= |s|
    decreases |s| - p
  {
    if Sees(s, p, "&") then Backs(s, GetToken(s, p).next, Back(c)) else Ok(c, Skip(s, p))
  }

  function ParseLine(s: string, p: nat): (r: Res<Cmd<Span>>)
    requires p <= |s|
    ensures r.Ok? ==> p <= r.next <= |s|
    decreases |s| - p, 3
  {
    var l := ParsePipe(s, p);
    if l.Panic? then Panic
    else
      var b := Backs(s, l.next, l.v);
      if Sees(s, b.next, ";") then
        var r := ParseLine(s, GetToken(s, b.next).next);
        if r.Panic? then Panic else Ok(List(b.v, r.v), r.next)
      else b
  }

  /** parsecmd, before the words are cut off with NULs. */
  function Parse(s: string): (r: Res<Cmd<Span>>) {
    var c := ParseLine(s, 0);
    if c.Panic? || Skip(s, c.next) != |s| then Panic else Ok(c.v, |s|)
  }

  // ---- what is parsed is well formed ----

  /** A whole word of the line. */
  ghost predicate Cut(s: string, w: Span) {
    w.q < w.eq <= |s| && (forall k {:trigger s[k]} :: w.q <= k < w.eq ==> Plain(s[k])) && Ends(s, w.eq)
  }

  /** Every word is a whole word of the line, and no command has more than MAXARGS - 1 arguments. */
  ghost predicate Sound(s: string, c: Cmd<Span>) {
    match c
    case Exec(args) => |args| < MAXARGS && forall i {:trigger args[i]} :: 0 <= i < |args| ==> Cut(s, args[i])
    case Redir(d, file, _) => Sound(s, d) && Cut(s, file)
    case Pipe(l, r) => Sound(s, l) && Sound(s, r)
    case List(l, r) => Sound(s, l) && Sound(s, r)
    case Back(d) => Sound(s, d)
  }

  ghost predicate CutAll(s: string, rs: seq<Rd>) {
    forall i {:trigger rs[i]} :: 0 <= i < |rs| ==> Cut(s, rs[i].file)
  }

  lemma TokenCut(s: string, p: nat)
    requires p <= |s| && GetToken(s, p).kind == 'a'
    ensures Cut(s, Span(GetToken(s, p).q, GetToken(s, p).eq))
  {
  }

  lemma {:induction false} RedirsSound(s: string, p: nat, acc: seq<Rd>)
    requires p <= |s| && CutAll(s, acc)
    ensures Redirs(s, p, acc).Ok? ==> CutAll(s, Redirs(s, p, acc).v)
    decreases |s| - p
  {
    if Sees(s, p, "<>") {
      var t := GetToken(s, p);
      var f := GetToken(s, t.next);
      if f.kind == 'a' {
        TokenCut(s, t.next);
        RedirsSound(s, f.next, acc + [Rd(Span(f.q, f.eq), ModeOf(t.kind))]);
      }
    }
  }

  lemma {:induction false} WrapSound(s: string, c: Cmd<Span>, rs: seq<Rd>)
    requires Sound(s, c) && CutAll(s, rs)
    ensures Sound(s, Wrap(c, rs))
    decreases |rs|
  {
    if rs != [] {
      WrapSound(s, c, rs[..|rs| - 1]);
    }
  }

  lemma {:induction false} ArgsSound(s: string, p: nat, args: seq<Span>, rs: seq<Rd>)
    requires p <= |s| && Sound(s, Exec(args)) && CutAll(s, rs)
    ensures Args(s, p, args, rs).Ok? ==> Sound(s, Args(s, p, args, rs).v)
    decreases |s| - p
  {
    WrapSound(s, Exec(args), rs);
    if !Sees(s, p, "|)&;") {
      var t := GetToken(s, p);
      if t.kind == 'a' && |args| + 1 < MAXARGS {
        TokenCut(s, p);
        RedirsSound(s, t.next, rs);
        var d := Redirs(s, t.next, rs);
        if d.Ok? {
          ArgsSound(s, d.next, args + [Span(t.q, t.eq)], d.v);
        }
      }
    }
  }

  lemma {:induction false} BacksSound(s: string, p: nat, c: Cmd<Span>)
    requires p <= |s| && Sound(s, c)
    ensures Sound(s, Backs(s, p, c).v)
    decreases |s| - p
  {
    if Sees(s, p, "&") {
      BacksSound(s, GetToken(s, p).next, Back(c));
    }
  }

  lemma {:induction false} ExecSound(s: string, p: nat)
    requires p <= |s|
    ensures ParseExec(s, p).Ok? ==> Sound(s, ParseExec(s, p).v)
    decreases |s| - p, 1
  {
    if Sees(s, p, "(") {
      var c := ParseLine(s, GetToken(s, p).next);
      LineSound(s, GetToken(s, p).next);
      if c.Ok? && Sees(s, c.next, ")") {
        RedirsSound(s, GetToken(s, c.next).next, []);
        var d := Redirs(s, GetToken(s, c.next).next, []);
        if d.Ok? {
          WrapSound(s, c.v, d.v);
        }
      }
    } else {
      RedirsSound(s, p, []);
      var d := Redirs(s, p, []);
      if d.Ok? {
        ArgsSound(s, d.next, [], d.v);
      }
    }
  }

  lemma {:induction false} PipeSound(s: string, p: nat)
    requires p <= |s|
    ensures ParsePipe(s, p).Ok? ==> Sound(s, ParsePipe(s, p).v)
    decreases |s| - p, 2
  {
    ExecSound(s, p);
    var l := ParseExec(s, p);
    if l.Ok? && Sees(s, l.next, "|") {
      PipeSound(s, GetToken(s, l.next).next);
    }
  }

  lemma {:induction false} LineSound(s: string, p: nat)
    requires p <= |s|
    ensures ParseLine(s, p).Ok? ==> Sound(s, ParseLine(s, p).v)
    decreases |s| - p, 3
  {
    PipeSound(s, p);
    var l := ParsePipe(s, p);
    if l.Ok? {
      BacksSound(s, l.next, l.v);
      var b := Backs(s, l.next, l.v);
      if Sees(s, b.next, ";") {
        LineSound(s, GetToken(s, b.next).next);
      }
    }
  }

  /** Whatever parses is well formed. */
  lemma ParseSound(s: string)
    ensures Parse(s).Ok? ==> Sound(s, Parse(s).v)
  {
    LineSound(s, 0);
  }
}
