/** Tokens of user/sh.c.  Positions are offsets into the command line s, which holds no NUL. */
module ShellLex {
  predicate White(c: char) {
    c == ' ' || c == '\t' || c == '\r' || c == '\n' || c == 11 as char
  }

  predicate Symbol(c: char) {
    c == '<' || c == '|' || c == '>' || c == '&' || c == ';' || c == '(' || c == ')'
  }

  /** A character of a word. */
  predicate Plain(c: char) {
    !White(c) && !Symbol(c)
  }

  /** The first position from p on that is not white space. */
  function Skip(s: string, p: nat): (q: nat)
    requires p <= |s|
    ensures p <= q <= |s| && (q < |s| ==> !White(s[q])) && forall k :: p <= k < q ==> White(s[k])
    decreases |s| - p
  {
    if p < |s| && White(s[p]) then Skip(s, p + 1) else p
  }

  /** The end of the word that starts at p. */
  function WordEnd(s: string, p: nat): (q: nat)
    requires p <= |s|
    ensures p <= q <= |s| && (q < |s| ==> !Plain(s[q])) && forall k :: p <= k < q ==> Plain(s[k])
    decreases |s| - p
  {
    if p < |s| && Plain(s[p]) then WordEnd(s, p + 1) else p
  }

  /** kind: 'a' for a word, '+' for >>, NUL for the end, otherwise the symbol itself. */
  datatype Token = Token(kind: char, q: nat, eq: nat, next: nat)

  const END: char := '\0'

  function GetToken(s: string, p: nat): (t: Token)
    requires p <= |s|
    ensures p <= t.q <= t.eq <= t.next <= |s|
    ensures t.kind == END <==> t.q == |s|
    ensures t.kind != END ==> t.q < t.eq
    ensures t.kind == 'a' <==> t.q < |s| && Plain(s[t.q])
  {
    var q := Skip(s, p);
    if q == |s| then Token(END, q, q, q)
    else if s[q] == '>' && q + 1 < |s| && s[q + 1] == '>' then Token('+', q, q + 2, Skip(s, q + 2))
    else if Symbol(s[q]) then Token(s[q], q, q + 1, Skip(s, q + 1))
    else Token('a', q, WordEnd(s, q), Skip(s, WordEnd(s, q)))
  }

  predicate Sees(s: string, p: nat, toks: string)
    requires p <= |s|
  {
    Skip(s, p) < |s| && s[Skip(s, p)] in toks
  }

  // ---- looking at a known stretch of the line ----

  /** w stands at position p. */
  predicate At(s: string, p: nat, w: string) {
    p + |w| <= |s| && s[p..p + |w|] == w
  }

  lemma AtConcat(s: string, p: nat, a: string, b: string)
    ensures At(s, p, a + b) <==> At(s, p, a) && At(s, p + |a|, b)
  {
    if At(s, p, a + b) {
      assert s[p..p + |a|] == s[p..p + |a + b|][..|a|];
      assert s[p + |a|..p + |a| + |b|] == s[p..p + |a + b|][|a|..];
    }
    if At(s, p, a) && At(s, p + |a|, b) {
      assert s[p..p + |a + b|] == s[p..p + |a|] + s[p + |a|..p + |a| + |b|];
    }
  }

  predicate Word(w: string) {
    w != "" && forall k :: 0 <= k < |w| ==> Plain(w[k])
  }

  /** No word goes on at p. */
  predicate Ends(s: string, p: nat) {
    p == |s| || (p < |s| && !Plain(s[p]))
  }

  lemma {:induction false} WordEndAt(s: string, p: nat, w: string)
    requires At(s, p, w) && (forall k :: 0 <= k < |w| ==> Plain(w[k])) && Ends(s, p + |w|)
    ensures WordEnd(s, p) == p + |w|
    decreases |w|
  {
    if w != "" {
      assert s[p] == s[p..p + |w|][0];
      assert s[p + 1..p + |w|] == s[p..p + |w|][1..];
      WordEndAt(s, p + 1, w[1..]);
    }
  }

  lemma SkipNone(s: string, p: nat)
    requires p < |s| && !White(s[p])
    ensures Skip(s, p) == p
  {
  }

  lemma TokenWord(s: string, p: nat, w: string)
    requires At(s, p, w) && Word(w) && Ends(s, p + |w|)
    ensures GetToken(s, p) == Token('a', p, p + |w|, Skip(s, p + |w|))
  {
    assert s[p] == s[p..p + |w|][0] == w[0];
    SkipNone(s, p);
    WordEndAt(s, p, w);
  }

  lemma TokenSymbol(s: string, p: nat, c: char)
    requires p < |s| && s[p] == c && Symbol(c) && !(c == '>' && p + 1 < |s| && s[p + 1] == '>')
    ensures GetToken(s, p) == Token(c, p, p + 1, Skip(s, p + 1))
  {
    SkipNone(s, p);
  }
}
