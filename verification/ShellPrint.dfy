/** Printing a command with every part in parentheses, and reading it back. */
module ShellPrint {
  import opened ShellLex
  import opened ShellParse

  /** Trees that a line can stand for: words are non-empty and free of white space and symbols, and no
      command has more than MAXARGS - 1 arguments. */
  predicate Legal(t: Cmd<string>) {
    match t
    case Exec(args) => |args| < MAXARGS && forall i {:trigger args[i]} :: 0 <= i < |args| ==> Word(args[i])
    case Redir(d, file, _) => Legal(d) && Word(file)
    case Pipe(l, r) => Legal(l) && Legal(r)
    case List(l, r) => Legal(l) && Legal(r)
    case Back(d) => Legal(d)
  }

  function Words(args: seq<string>): string {
    if args == [] then "" else args[0] + (if |args| == 1 then "" else " " + Words(args[1..]))
  }

  function Sign(m: Mode): string {
    match m case Read => "<" case Write => ">" case Append => ">>"
  }

  function Print(t: Cmd<string>): string {
    match t
    case Exec(args) => Words(args)
    case Redir(d, file, mode) => "(" + Print(d) + ")" + Sign(mode) + file
    case Pipe(l, r) => "(" + Print(l) + ")|(" + Print(r) + ")"
    case List(l, r) => "(" + Print(l) + ");(" + Print(r) + ")"
    case Back(d) => "(" + Print(d) + ")&"
  }

  /** The text of a word. */
  function Text(s: string, w: Span): string {
    if w.q <= w.eq <= |s| then s[w.q..w.eq] else ""
  }

  /** The tree with its words written out. */
  function TextOf(s: string, c: Cmd<Span>): Cmd<string> {
    match c
    case Exec(args) => Exec(seq(|args|, i requires 0 <= i < |args| => Text(s, args[i])))
    case Redir(d, file, mode) => Redir(TextOf(s, d), Text(s, file), mode)
    case Pipe(l, r) => Pipe(TextOf(s, l), TextOf(s, r))
    case List(l, r) => List(TextOf(s, l), TextOf(s, r))
    case Back(d) => Back(TextOf(s, d))
  }

  /** A printed command ends at e: at the end of the line or before a closing parenthesis. */
  predicate Closed(s: string, e: nat) {
    e == |s| || (e < |s| && s[e] == ')')
  }

  lemma ClosedSees(s: string, e: nat)
    requires Closed(s, e)
    ensures e <= |s| && Skip(s, e) == e && Ends(s, e)
    ensures !Sees(s, e, "<>") && !Sees(s, e, "|") && !Sees(s, e, "&") && !Sees(s, e, ";")
  {
  }

  // ---- simple commands ----

  ghost predicate Reads(s: string, spans: seq<Span>, args: seq<string>) {
    |spans| == |args| && forall i {:trigger spans[i]} :: 0 <= i < |args| ==> Text(s, spans[i]) == args[i]
  }

  lemma WordStarts(s: string, p: nat, w: string)
    requires At(s, p, w) && Word(w)
    ensures p < |s| && Plain(s[p]) && Skip(s, p) == p
    ensures !Sees(s, p, "<>") && !Sees(s, p, "|)&;") && !Sees(s, p, "(")
  {
    assert s[p] == s[p..p + |w|][0] == w[0];
  }

  /** Words that follow a blank start with a word. */
  lemma WordsStart(s: string, p: nat, args: seq<string>)
    requires args != [] && At(s, p, Words(args)) && Word(args[0])
    ensures p < |s| && Skip(s, p) == p && !Sees(s, p, "<>")
  {
    AtConcat(s, p, args[0], if |args| == 1 then "" else " " + Words(args[1..]));
    WordStarts(s, p, args[0]);
  }

  lemma SkipBlank(s: string, m: nat)
    requires m + 1 < |s| && s[m] == ' ' && Skip(s, m + 1) == m + 1
    ensures Skip(s, m) == m + 1
  {
  }

  lemma WordsCons(args: seq<string>)
    requires args != []
    ensures Words(args) == args[0] + (if |args| == 1 then "" else " " + Words(args[1..]))
    ensures |args| == 1 ==> Words(args[1..]) == ""
  {
  }

  /** The first of the words is the next token. */
  lemma NextWord(s: string, p: nat, args: seq<string>) returns (m: nat, next: nat)
    requires args != [] && At(s, p, Words(args)) && Closed(s, p + |Words(args)|)
    requires forall i {:trigger args[i]} :: 0 <= i < |args| ==> Word(args[i])
    ensures p <= m <= next <= |s| && GetToken(s, p) == Token('a', p, m, next)
    ensures s[p..m] == args[0] && !Sees(s, p, "|)&;")
    ensures Redirs(s, next, []) == Ok([], next)
    ensures At(s, next, Words(args[1..])) && next + |Words(args[1..])| == p + |Words(args)|
  {
    hide Words;
    hide GetToken;
    hide Skip;
    hide WordEnd;
    hide Word;
    var w, more := args[0], Words(args[1..]);
    ClosedSees(s, p + |Words(args)|);
    WordsCons(args);
    AtConcat(s, p, w, if |args| == 1 then "" else " " + more);
    WordStarts(s, p, w);
    m := p + |w|;
    if |args| == 1 {
      TokenWord(s, p, w);
      next := m;
    } else {
      AtConcat(s, m, " ", more);
      assert s[m] == s[m..m + 1][0] == ' ';
      TokenWord(s, p, w);
      next := m + 1;
      WordsStart(s, next, args[1..]);
      SkipBlank(s, m);
    }
  }

  lemma ArgsStep(s: string, p: nat, spans: seq<Span>, m: nat, next: nat)
    requires p <= m <= next <= |s| && GetToken(s, p) == Token('a', p, m, next)
    requires !Sees(s, p, "|)&;") && |spans| + 1 < MAXARGS
    requires Redirs(s, next, []) == Ok([], next)
    ensures Args(s, p, spans, []) == Args(s, next, spans + [Span(p, m)], [])
  {
  }

  /** The loop of parseexec reads back the words that remain. */
  lemma {:induction false} ArgsReadBack(s: string, p: nat, args: seq<string>, spans: seq<Span>, done: seq<string>)
    returns (all: seq<Span>)
    requires At(s, p, Words(args)) && Closed(s, p + |Words(args)|) && |done| + |args| < MAXARGS && Reads(s, spans, done)
    requires forall i {:trigger args[i]} :: 0 <= i < |args| ==> Word(args[i])
    ensures Args(s, p, spans, []) == Ok(Exec(all), p + |Words(args)|) && Reads(s, all, done + args)
    decreases |args|
  {
    hide At;
    hide GetToken;
    hide Skip;
    hide WordEnd;
    hide Word;
    hide Args;
    hide Redirs;
    hide Closed;
    if args == [] {
      all := spans;
      ClosedEnds(s, p, spans);
      assert done + args == done;
    } else {
      var m, next := NextWord(s, p, args);
      var spans' := spans + [Span(p, m)];
      ArgsStep(s, p, spans, m, next);
      assert Reads(s, spans', done + [args[0]]);
      all := ArgsReadBack(s, next, args[1..], spans', done + [args[0]]);
      assert done + [args[0]] + args[1..] == done + args;
    }
  }

  lemma ClosedEnds(s: string, p: nat, spans: seq<Span>)
    requires Closed(s, p)
    ensures Args(s, p, spans, []) == Ok(Exec(spans), p)
  {
    ClosedSees(s, p);
    assert Wrap(Exec(spans), []) == Exec(spans);
    assert p < |s| ==> Sees(s, p, "|)&;");
  }

  lemma ExecReadsBack(s: string, p: nat, args: seq<string>) returns (all: seq<Span>)
    requires Legal(Exec(args)) && At(s, p, Words(args)) && Closed(s, p + |Words(args)|)
    ensures ParseExec(s, p) == Ok(Exec(all), p + |Words(args)|) && Reads(s, all, args)
  {
    ClosedSees(s, p + |Words(args)|);
    if args == [] {
      assert !Sees(s, p, "(");
    } else {
      AtConcat(s, p, args[0], if |args| == 1 then "" else " " + Words(args[1..]));
      WordStarts(s, p, args[0]);
    }
    assert Redirs(s, p, []) == Ok([], p);
    all := ArgsReadBack(s, p, args, [], []);
    assert [] + args == args;
  }

  // ---- parentheses ----

  /** A printed command in parentheses stands from p up to e, where its closing parenthesis is. */
  ghost predicate Parens(s: string, p: nat, c: Cmd<Span>, e: nat) {
    && p < e < |s| && s[p] == '(' && s[e] == ')' && Skip(s, p + 1) == p + 1
    && ParseLine(s, p + 1) == Ok(c, e)
  }

  lemma BlockThen(s: string, p: nat, c: Cmd<Span>, e: nat, rs: seq<Rd>, next: nat)
    requires Parens(s, p, c, e) && Skip(s, e + 1) == e + 1 && Redirs(s, e + 1, []) == Ok(rs, next)
    ensures ParseExec(s, p) == Ok(Wrap(c, rs), next)
  {
    TokenSymbol(s, p, '(');
    TokenSymbol(s, e, ')');
    hide ParseLine;
    hide Redirs;
    hide GetToken;
    hide Wrap;
  }

  /** What follows the closing parenthesis is neither blank nor a redirection. */
  lemma BlockAlone(s: string, p: nat, c: Cmd<Span>, e: nat)
    requires Parens(s, p, c, e) && Skip(s, e + 1) == e + 1 && !Sees(s, e + 1, "<>")
    ensures ParseExec(s, p) == Ok(c, e + 1)
  {
    hide Parens;
    assert Redirs(s, e + 1, []) == Ok([], e + 1);
    BlockThen(s, p, c, e, [], e + 1);
  }

  lemma ExecThenClosed(s: string, p: nat, c: Cmd<Span>, e: nat)
    requires p <= |s| && ParseExec(s, p) == Ok(c, e) && Closed(s, e)
    ensures ParsePipe(s, p) == Ok(c, e) && ParseLine(s, p) == Ok(c, e)
  {
    hide ParseExec;
    hide Skip;
    hide GetToken;
    ClosedSees(s, e);
    assert ParsePipe(s, p) == Ok(c, e);
    PipeThenClosed(s, p, c, e);
  }

  lemma PipeThenClosed(s: string, p: nat, c: Cmd<Span>, e: nat)
    requires p <= |s| && ParsePipe(s, p) == Ok(c, e) && Closed(s, e)
    ensures ParseLine(s, p) == Ok(c, e)
  {
    hide ParsePipe;
    hide Skip;
    hide GetToken;
    ClosedSees(s, e);
    assert Backs(s, e, c) == Ok(c, e);
  }

  /** A printed command starts with no blank. */
  lemma PrintStarts(s: string, p: nat, t: Cmd<string>)
    requires Legal(t) && At(s, p, Print(t)) && Closed(s, p + |Print(t)|)
    ensures Skip(s, p) == p
  {
    ClosedSees(s, p + |Print(t)|);
    if t.Exec? {
      if t.args != [] {
        WordsStart(s, p, t.args);
      }
    } else {
      assert Print(t)[0] == '(';
      assert s[p] == s[p..p + |Print(t)|][0];
    }
  }

  /** "(" t ")" at p, once t itself is known to read back. */
  lemma ParensAt(s: string, p: nat, t: Cmd<string>, c: Cmd<Span>, e: nat)
    requires Legal(t) && At(s, p, "(" + Print(t) + ")") && e == p + 1 + |Print(t)|
    requires At(s, p + 1, Print(t)) && Closed(s, e) && ParseLine(s, p + 1) == Ok(c, e)
    ensures Parens(s, p, c, e)
  {
    AtConcat(s, p, "(" + Print(t), ")");
    AtConcat(s, p, "(", Print(t));
    assert s[p] == s[p..p + 1][0] == '(';
    assert s[e] == s[e..e + 1][0] == ')';
    PrintStarts(s, p + 1, t);
  }

  lemma ParensInner(s: string, p: nat, t: Cmd<string>)
    requires At(s, p, "(" + Print(t) + ")")
    ensures At(s, p + 1, Print(t)) && Closed(s, p + 1 + |Print(t)|)
  {
    AtConcat(s, p, "(" + Print(t), ")");
    AtConcat(s, p, "(", Print(t));
    var e := p + 1 + |Print(t)|;
    assert s[e] == s[e..e + 1][0] == ')';
  }

  lemma SignToken(s: string, x: nat, mode: Mode, file: string)
    requires At(s, x, Sign(mode) + file) && Word(file)
    ensures var q := x + |Sign(mode)|;
      && At(s, q, file) && q < |s| && Skip(s, x) == x && Sees(s, x, "<>")
      && GetToken(s, x).next == q && ModeOf(GetToken(s, x).kind) == mode
  {
    var q := x + |Sign(mode)|;
    AtConcat(s, x, Sign(mode), file);
    assert s[x] == s[x..q][0] == Sign(mode)[0];
    assert s[q] == s[q..q + |file|][0] == file[0];
    assert mode == Append ==> s[x + 1] == s[x..q][1] == '>';
    SkipNone(s, x);
    SkipNone(s, q);
  }

  lemma OneRedir(s: string, x: nat, mode: Mode, file: string)
    requires At(s, x, Sign(mode) + file) && Word(file) && Closed(s, x + |Sign(mode)| + |file|)
    ensures var q := x + |Sign(mode)|;
      Skip(s, x) == x && Redirs(s, x, []) == Ok([Rd(Span(q, q + |file|), mode)], q + |file|)
  {
    hide GetToken;
    hide Skip;
    hide At;
    hide Closed;
    hide Word;
    hide Sign;
    SignToken(s, x, mode, file);
    var q := x + |Sign(mode)|;
    ClosedSees(s, q + |file|);
    TokenWord(s, q, file);
    var rd := Rd(Span(q, q + |file|), mode);
    assert [] + [rd] == [rd];
    assert Redirs(s, q + |file|, [rd]) == Ok([rd], q + |file|);
  }

  lemma WrapOne(c: Cmd<Span>, rd: Rd)
    ensures Wrap(c, [rd]) == Redir(c, rd.file, rd.mode)
  {
    assert [rd][..0] == [];
    assert Wrap(c, []) == c;
  }

  lemma BlockRedir(s: string, p: nat, c: Cmd<Span>, e: nat, file: string, mode: Mode)
    requires Parens(s, p, c, e) && At(s, e + 1, Sign(mode) + file)
    requires Word(file) && Closed(s, e + 1 + |Sign(mode)| + |file|)
    ensures var q := e + 1 + |Sign(mode)|; ParseExec(s, p) == Ok(Redir(c, Span(q, q + |file|), mode), q + |file|)
  {
    hide Parens;
    hide ParseExec;
    hide Redirs;
    hide At;
    hide Closed;
    hide Word;
    hide Sign;
    hide Skip;
    hide Wrap;
    var q := e + 1 + |Sign(mode)|;
    OneRedir(s, e + 1, mode, file);
    BlockThen(s, p, c, e, [Rd(Span(q, q + |file|), mode)], q + |file|);
    WrapOne(c, Rd(Span(q, q + |file|), mode));
  }

  /** Two parts in parentheses with a symbol between them. */
  lemma TwoParts(s: string, p: nat, l: Cmd<string>, r: Cmd<string>, op: char)
    requires Symbol(op) && At(s, p, "(" + Print(l) + ")" + [op] + "(" + Print(r) + ")")
    ensures var m := p + 2 + |Print(l)|;
      At(s, p, "(" + Print(l) + ")") && m < |s| && s[m] == op && At(s, m + 1, "(" + Print(r) + ")")
  {
    hide Print;
    hide At;
    var x, y := Print(l), Print(r);
    OpenClose(s, p, x, op, y);
    AtChar(s, p + 2 + |x|, op);
  }

  lemma OpenClose(s: string, p: nat, x: string, op: char, y: string)
    requires At(s, p, "(" + x + ")" + [op] + "(" + y + ")")
    ensures At(s, p, "(" + x + ")") && At(s, p + 2 + |x|, [op]) && At(s, p + 3 + |x|, "(" + y + ")")
  {
    hide At;
    var a, b := "(" + x + ")", "(" + y + ")";
    assert a + [op] + "(" + y + ")" == (a + [op]) + b;
    AtConcat(s, p, a + [op], b);
    AtConcat(s, p, a, [op]);
  }

  lemma PipeReadsBack(s: string, p: nat, l: Cmd<Span>, e: nat, r: Cmd<Span>, f: nat)
    requires Parens(s, p, l, e) && e + 1 < |s| && s[e + 1] == '|' && Parens(s, e + 2, r, f) && Closed(s, f + 1)
    ensures ParseLine(s, p) == Ok(Pipe(l, r), f + 1)
  {
    hide ParseExec;
    hide GetToken;
    hide Skip;
    hide ParseLine;
    ClosedSees(s, f + 1);
    BlockAlone(s, e + 2, r, f);
    ExecThenClosed(s, e + 2, r, f + 1);
    SkipNone(s, e + 1);
    BlockAlone(s, p, l, e);
    SkipNone(s, e + 2);
    TokenSymbol(s, e + 1, '|');
    assert ParsePipe(s, p) == Ok(Pipe(l, r), f + 1);
    PipeThenClosed(s, p, Pipe(l, r), f + 1);
  }

  lemma ListReadsBack(s: string, p: nat, l: Cmd<Span>, e: nat, r: Cmd<Span>, f: nat)
    requires Parens(s, p, l, e) && e + 1 < |s| && s[e + 1] == ';' && Parens(s, e + 2, r, f) && Closed(s, f + 1)
    ensures ParseLine(s, p) == Ok(List(l, r), f + 1)
  {
    hide ParseExec;
    hide GetToken;
    hide Skip;
    hide ParsePipe;
    hide Parens;
    LastReadsBack(s, e + 2, r, f);
    PipeThenList(s, p, l, e);
    SkipNone(s, e + 1);
    SkipNone(s, e + 2);
    TokenSymbol(s, e + 1, ';');
    assert Backs(s, e + 1, l) == Ok(l, e + 1);
  }

  lemma LastReadsBack(s: string, p: nat, c: Cmd<Span>, e: nat)
    requires Parens(s, p, c, e) && Closed(s, e + 1)
    ensures p < |s| && !White(s[p]) && ParseLine(s, p) == Ok(c, e + 1)
  {
    hide ParseExec;
    hide ParseLine;
    hide ParsePipe;
    hide GetToken;
    hide Skip;
    ClosedSees(s, e + 1);
    BlockAlone(s, p, c, e);
    ExecThenClosed(s, p, c, e + 1);
  }

  lemma PipeThenList(s: string, p: nat, c: Cmd<Span>, e: nat)
    requires Parens(s, p, c, e) && e + 1 < |s| && s[e + 1] == ';'
    ensures p <= |s| && ParsePipe(s, p) == Ok(c, e + 1)
  {
    hide ParseExec;
    hide GetToken;
    hide Skip;
    SkipNone(s, e + 1);
    BlockAlone(s, p, c, e);
  }

  lemma BackReadsBack(s: string, p: nat, c: Cmd<Span>, e: nat)
    requires Parens(s, p, c, e) && e + 1 < |s| && s[e + 1] == '&' && Closed(s, e + 2)
    ensures ParseLine(s, p) == Ok(Back(c), e + 2)
  {
    hide ParseExec;
    hide GetToken;
    hide Skip;
    ClosedSees(s, e + 2);
    SkipNone(s, e + 1);
    TokenSymbol(s, e + 1, '&');
    BlockAlone(s, p, c, e);
    assert ParsePipe(s, p) == Ok(c, e + 1);
    OneBack(s, e + 1, c);
  }

  lemma OneBack(s: string, x: nat, c: Cmd<Span>)
    requires x < |s| && s[x] == '&' && GetToken(s, x).next == x + 1 && Closed(s, x + 1)
    ensures Backs(s, x, c) == Ok(Back(c), x + 1)
  {
    ClosedSees(s, x + 1);
    SkipNone(s, x);
    hide GetToken;
    hide Skip;
    assert Backs(s, x + 1, Back(c)) == Ok(Back(c), x + 1);
  }

  // ---- every tree ----

  lemma TextExec(s: string, all: seq<Span>, args: seq<string>)
    requires Reads(s, all, args)
    ensures TextOf(s, Exec(all)) == Exec(args)
  {
    assert TextOf(s, Exec(all)).args == args;
  }

  lemma RedirReadsBack(s: string, p: nat, d: Cmd<string>, file: string, mode: Mode, dc: Cmd<Span>)
    returns (c: Cmd<Span>)
    requires Legal(d) && Word(file) && At(s, p, Print(Redir(d, file, mode)))
    requires Closed(s, p + |Print(Redir(d, file, mode))|)
    requires ParseLine(s, p + 1) == Ok(dc, p + 1 + |Print(d)|) && TextOf(s, dc) == d
    ensures p <= |s| && ParseLine(s, p) == Ok(c, p + |Print(Redir(d, file, mode))|)
    ensures TextOf(s, c) == Redir(d, file, mode)
  {
    hide ParseLine;
    hide ParseExec;
    hide At;
    hide Closed;
    hide Word;
    hide Sign;
    hide Legal;
    var b, e := "(" + Print(d) + ")", p + 1 + |Print(d)|;
    assert Print(Redir(d, file, mode)) == b + (Sign(mode) + file);
    AtConcat(s, p, b, Sign(mode) + file);
    ParensInner(s, p, d);
    ParensAt(s, p, d, dc, e);
    var q := e + 1 + |Sign(mode)|;
    BlockRedir(s, p, dc, e, file, mode);
    AtConcat(s, e + 1, Sign(mode), file);
    AtText(s, q, file);
    c := Redir(dc, Span(q, q + |file|), mode);
    ExecThenClosed(s, p, c, q + |file|);
  }

  lemma AmpReadsBack(s: string, p: nat, d: Cmd<string>, dc: Cmd<Span>)
    requires Legal(d) && At(s, p, Print(Back(d))) && Closed(s, p + |Print(Back(d))|)
    requires ParseLine(s, p + 1) == Ok(dc, p + 1 + |Print(d)|)
    ensures p <= |s| && ParseLine(s, p) == Ok(Back(dc), p + |Print(Back(d))|)
  {
    hide ParseLine;
    hide At;
    hide Closed;
    hide Legal;
    var b, e := "(" + Print(d) + ")", p + 1 + |Print(d)|;
    assert Print(Back(d)) == b + "&";
    AtConcat(s, p, b, "&");
    ParensInner(s, p, d);
    ParensAt(s, p, d, dc, e);
    AtChar(s, e + 1, '&');
    BackReadsBack(s, p, dc, e);
  }

  /** The stretch between the first parenthesis and its partner. */
  lemma InnerPart(s: string, p: nat, d: Cmd<string>, rest: string)
    requires At(s, p, "(" + Print(d) + ")" + rest)
    ensures At(s, p + 1, Print(d)) && Closed(s, p + 1 + |Print(d)|)
  {
    hide Print;
    AtConcat(s, p, "(" + Print(d) + ")", rest);
    ParensInner(s, p, d);
  }

  /** A printed tree, wherever it stands, reads back as that tree. */
  lemma {:induction false} ReadsBack(s: string, p: nat, t: Cmd<string>) returns (c: Cmd<Span>)
    requires Legal(t) && At(s, p, Print(t)) && Closed(s, p + |Print(t)|)
    ensures p <= |s| && ParseLine(s, p) == Ok(c, p + |Print(t)|) && TextOf(s, c) == t
    decreases |Print(t)|, 1
  {
    hide ParseLine;
    hide ParseExec;
    hide At;
    hide Closed;
    hide Sign;
    hide Parens;
    hide Words;
    match t {
      case Exec(args) =>
        var all := ExecReadsBack(s, p, args);
        c := Exec(all);
        ExecThenClosed(s, p, c, p + |Words(args)|);
        TextExec(s, all, args);
      case Redir(d, file, mode) =>
        assert Print(t) == "(" + Print(d) + ")" + (Sign(mode) + file);
        InnerPart(s, p, d, Sign(mode) + file);
        var dc := ReadsBack(s, p + 1, d);
        c := RedirReadsBack(s, p, d, file, mode, dc);
      case Pipe(l, r) =>
        assert Print(t) == "(" + Print(l) + ")" + ['|'] + "(" + Print(r) + ")";
        var lc, rc, e, f := BothParts(s, p, l, r, '|');
        PipeReadsBack(s, p, lc, e, rc, f);
        c := Pipe(lc, rc);
      case List(l, r) =>
        assert Print(t) == "(" + Print(l) + ")" + [';'] + "(" + Print(r) + ")";
        var lc, rc, e, f := BothParts(s, p, l, r, ';');
        ListReadsBack(s, p, lc, e, rc, f);
        c := List(lc, rc);
      case Back(d) =>
        assert Print(t) == "(" + Print(d) + ")" + "&";
        InnerPart(s, p, d, "&");
        var dc := ReadsBack(s, p + 1, d);
        AmpReadsBack(s, p, d, dc);
        c := Back(dc);
    }
  }

  lemma {:induction false} BothParts(s: string, p: nat, l: Cmd<string>, r: Cmd<string>, op: char)
    returns (lc: Cmd<Span>, rc: Cmd<Span>, e: nat, f: nat)
    requires Legal(l) && Legal(r) && Symbol(op) && At(s, p, "(" + Print(l) + ")" + [op] + "(" + Print(r) + ")")
    ensures e == p + 1 + |Print(l)| && f == e + 3 + |Print(r)| && Parens(s, p, lc, e)
    ensures Parens(s, e + 2, rc, f) && e + 1 < |s| && s[e + 1] == op
    ensures TextOf(s, lc) == l && TextOf(s, rc) == r
    decreases |Print(l)| + |Print(r)| + 4, 0
  {
    hide ParseLine;
    hide At;
    hide Closed;
    hide Legal;
    hide Print;
    TwoParts(s, p, l, r, op);
    e := p + 1 + |Print(l)|;
    f := e + 3 + |Print(r)|;
    ParensInner(s, p, l);
    lc := ReadsBack(s, p + 1, l);
    ParensAt(s, p, l, lc, e);
    ParensInner(s, e + 2, r);
    rc := ReadsBack(s, e + 3, r);
    ParensAt(s, e + 2, r, rc, f);
  }

  lemma AtText(s: string, q: nat, w: string)
    requires At(s, q, w)
    ensures Text(s, Span(q, q + |w|)) == w
  {
  }

  lemma AtChar(s: string, x: nat, c: char)
    requires At(s, x, [c])
    ensures x < |s| && s[x] == c
  {
    assert s[x] == s[x..x + 1][0];
  }

  /** The round trip: parsing the printed form of a legal tree gives the tree. */
  lemma RoundTrip(t: Cmd<string>)
    requires Legal(t)
    ensures Parse(Print(t)).Ok? && TextOf(Print(t), Parse(Print(t)).v) == t
  {
    var s := Print(t);
    hide Print;
    hide ParseLine;
    hide TextOf;
    hide Legal;
    hide Skip;
    hide At;
    AtWhole(s);
    SkipEnd(s);
    var c := ReadsBack(s, 0, t);
  }

  lemma AtWhole(s: string)
    ensures At(s, 0, s) && Closed(s, |s|)
  {
    assert s[0..0 + |s|] == s;
  }

  lemma SkipEnd(s: string)
    ensures Skip(s, |s|) == |s|
  {
  }

  /** Conversely every line that parses stands for a legal tree .. */
  lemma {:induction false} SoundLegal(s: string, c: Cmd<Span>)
    requires Sound(s, c)
    ensures Legal(TextOf(s, c))
    decreases c
  {
    match c
    case Exec(args) =>
      forall i | 0 <= i < |args|
        ensures Word(Text(s, args[i]))
      {
        assert Cut(s, args[i]);
      }
    case Redir(d, file, _) => SoundLegal(s, d);
    case Pipe(l, r) =>
      SoundLegal(s, l);
      SoundLegal(s, r);
    case List(l, r) =>
      SoundLegal(s, l);
      SoundLegal(s, r);
    case Back(d) => SoundLegal(s, d);
  }

  /** .. so that printing what was parsed and parsing again changes nothing. */
  lemma Reparse(s: string)
    requires Parse(s).Ok?
    ensures var t := TextOf(s, Parse(s).v); Legal(t) && Parse(Print(t)).Ok? && TextOf(Print(t), Parse(Print(t)).v) == t
  {
    ParseSound(s);
    SoundLegal(s, Parse(s).v);
    RoundTrip(TextOf(s, Parse(s).v));
  }
}
