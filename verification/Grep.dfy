/** The matcher of user/grep.c (chapter 9 of The Practice of Programming), proved against the language of
    its patterns.  Strings hold no NUL; the end of a string stands for it. */
module Grep {
  /** What a pattern consists of. */
  datatype Piece = One(c: char) | Star(c: char) | End

  predicate Fits(c: char, x: char) {
    c == '.' || c == x
  }

  /** A star binds the character before it, whatever that is; a dollar sign is special at the end only. */
  function Pieces(re: string): seq<Piece> {
    if re == "" then []
    else if |re| > 1 && re[1] == '*' then [Star(re[0])] + Pieces(re[2..])
    else if re == "$" then [End]
    else [One(re[0])] + Pieces(re[1..])
  }

  /** The strings that a piece stands for. */
  ghost predicate Stands(p: Piece, x: string) {
    match p
    case One(c) => |x| == 1 && Fits(c, x[0])
    case Star(c) => forall i {:trigger x[i]} :: 0 <= i < |x| ==> Fits(c, x[i])
    case End => x == ""
  }

  /** x can be cut into stretches, one for each piece in turn. */
  ghost predicate CutInto(ps: seq<Piece>, x: string, cuts: seq<nat>) {
    && |cuts| == |ps| + 1 && cuts[0] == 0 && cuts[|ps|] == |x|
    && forall i {:trigger CutAt(ps, x, cuts, i)} :: 0 <= i < |ps| ==> CutAt(ps, x, cuts, i)
  }

  ghost predicate CutAt(ps: seq<Piece>, x: string, cuts: seq<nat>, i: nat)
    requires |cuts| == |ps| + 1 && i < |ps|
  {
    cuts[i] <= cuts[i + 1] <= |x| && Stands(ps[i], x[cuts[i]..cuts[i + 1]])
  }

  ghost predicate InLanguage(ps: seq<Piece>, x: string) {
    exists cuts :: CutInto(ps, x, cuts)
  }

  predicate Anchored(ps: seq<Piece>) {
    ps != [] && ps[|ps| - 1] == End
  }

  /** The pieces match at the beginning of the text; with a final dollar sign, all of it. */
  ghost predicate Here(ps: seq<Piece>, text: string) {
    exists k {:trigger text[..k]} :: 0 <= k <= |text| && InLanguage(ps, text[..k]) && (Anchored(ps) ==> k == |text|)
  }

  /** What grep means by a match. */
  ghost predicate Matches(re: string, text: string) {
    if re != "" && re[0] == '^' then Here(Pieces(re[1..]), text)
    else exists i {:trigger text[i..]} :: 0 <= i <= |text| && Here(Pieces(re), text[i..])
  }

  // ---- the language, piece by piece ----

  lemma EmptyLanguage(x: string)
    ensures InLanguage([], x) <==> x == ""
  {
    assert x == "" ==> CutInto([], x, [0]);
  }

  lemma Prepend(p: Piece, ps: seq<Piece>, x: string, k: nat)
    requires k <= |x| && Stands(p, x[..k]) && InLanguage(ps, x[k..])
    ensures InLanguage([p] + ps, x)
  {
    var cuts :| CutInto(ps, x[k..], cuts);
    var all := [0] + seq(|cuts|, i requires 0 <= i < |cuts| => cuts[i] + k);
    var pps := [p] + ps;
    assert all[1] == cuts[0] + k && x[0..k] == x[..k];
    forall i | 0 <= i < |pps|
      ensures CutAt(pps, x, all, i)
    {
      if i > 0 {
        assert CutAt(ps, x[k..], cuts, i - 1);
        assert pps[i] == ps[i - 1] && all[i] == cuts[i - 1] + k && all[i + 1] == cuts[i] + k;
        assert x[all[i]..all[i + 1]] == x[k..][cuts[i - 1]..cuts[i]];
      }
    }
    assert CutInto(pps, x, all);
  }

  lemma Split(p: Piece, ps: seq<Piece>, x: string) returns (k: nat)
    requires InLanguage([p] + ps, x)
    ensures k <= |x| && Stands(p, x[..k]) && InLanguage(ps, x[k..])
  {
    var cuts :| CutInto([p] + ps, x, cuts);
    assert ([p] + ps)[0] == p && CutAt([p] + ps, x, cuts, 0);
    k := cuts[1];
    assert x[cuts[0]..cuts[1]] == x[..k];
    MonotoneCuts([p] + ps, x, cuts, 1);
    var rest := seq(|ps| + 1, i requires 0 <= i < |ps| + 1 => cuts[i + 1] - k);
    forall i | 0 <= i < |ps|
      ensures CutAt(ps, x[k..], rest, i)
    {
      assert ([p] + ps)[i + 1] == ps[i] && CutAt([p] + ps, x, cuts, i + 1);
      assert x[k..][rest[i]..rest[i + 1]] == x[cuts[i + 1]..cuts[i + 2]];
    }
    assert CutInto(ps, x[k..], rest);
  }

  lemma {:induction false} MonotoneCuts(ps: seq<Piece>, x: string, cuts: seq<nat>, i: nat)
    requires CutInto(ps, x, cuts) && i < |cuts|
    ensures forall j {:trigger cuts[j]} :: i <= j < |cuts| ==> cuts[i] <= cuts[j]
    decreases |cuts| - i
  {
    if i + 1 < |cuts| {
      assert CutAt(ps, x, cuts, i);
      MonotoneCuts(ps, x, cuts, i + 1);
    }
  }

  /** First piece, then the rest further on. */
  lemma HereCons(p: Piece, ps: seq<Piece>, text: string, j: nat)
    requires j <= |text| && Stands(p, text[..j]) && Here(ps, text[j..]) && (ps == [] ==> p != End)
    ensures Here([p] + ps, text)
  {
    var k :| 0 <= k <= |text[j..]| && InLanguage(ps, text[j..][..k]) && (Anchored(ps) ==> k == |text[j..]|);
    var x := text[..j + k];
    assert x[..j] == text[..j] && x[j..] == text[j..][..k];
    Prepend(p, ps, x, j);
    assert ([p] + ps)[|ps|] == if ps == [] then p else ps[|ps| - 1];
  }

  lemma HereSplit(p: Piece, ps: seq<Piece>, text: string) returns (j: nat)
    requires Here([p] + ps, text) && (ps == [] ==> p != End)
    ensures j <= |text| && Stands(p, text[..j]) && Here(ps, text[j..])
  {
    var all := [p] + ps;
    var k :| 0 <= k <= |text| && InLanguage(all, text[..k]) && (Anchored(all) ==> k == |text|);
    j := Split(p, ps, text[..k]);
    assert text[..k][..j] == text[..j] && text[..k][j..] == text[j..][..k - j];
    assert ps != [] ==> all[|ps|] == ps[|ps| - 1];
  }

  lemma HereEnd(text: string)
    ensures Here([End], text) <==> text == ""
  {
    if text == "" {
      EmptyLanguage("");
      assert text[..0] == "" && ""[..0] == "" && ""[0..] == "";
      Prepend(End, [], text[..0], 0);
      assert [End] + [] == [End];
    }
    if Here([End], text) {
      var k :| 0 <= k <= |text| && InLanguage([End], text[..k]) && (Anchored([End]) ==> k == |text|);
      assert [End] == [End] + [];
      var j := Split(End, [], text[..k]);
      EmptyLanguage(text[..k][j..]);
    }
  }

  lemma HereNothing(text: string)
    ensures Here([], text)
  {
    EmptyLanguage(text[..0]);
  }

  // ---- the matcher ----

  /** matchhere: does the pattern match at the beginning of the text? */
  method Matchhere(re: string, text: string) returns (r: bool)
    ensures r <==> Here(Pieces(re), text)
    decreases |re|, 1
  {
    if re == "" {
      HereNothing(text);
      return true;
    }
    if |re| > 1 && re[1] == '*' {
      r := Matchstar(re[0], re[2..], text);
    } else if re == "$" {
      HereEnd(text);
      r := text == "";
    } else {
      ghost var p, ps := One(re[0]), Pieces(re[1..]);
      NoEnd(re[1..]);
      if Here([p] + ps, text) {
        var j := HereSplit(p, ps, text);
        assert j == 1 && text[..1][0] == text[0];
      }
      if text != "" && Fits(re[0], text[0]) {
        r := Matchhere(re[1..], text[1..]);
        if r {
          HereCons(p, ps, text, 1);
        }
      } else {
        r := false;
      }
    }
  }

  lemma NoEnd(re: string)
    ensures Pieces(re) == [] <==> re == ""
  {
  }

  /** matchstar: zero or more c, then the pattern. */
  method Matchstar(c: char, re: string, text: string) returns (r: bool)
    ensures r <==> Here([Star(c)] + Pieces(re), text)
    decreases |re|, 2
  {
    ghost var p, ps := Star(c), Pieces(re);
    var i := 0;
    while true
      invariant 0 <= i <= |text|
      invariant forall j {:trigger text[j]} :: 0 <= j < i ==> Fits(c, text[j])
      invariant forall j {:trigger text[j..]} :: 0 <= j < i ==> !Here(ps, text[j..])
      decreases |text| - i
    {
      var m := Matchhere(re, text[i..]);
      if m {
        HereCons(p, ps, text, i);
        return true;
      }
      if i == |text| || !Fits(c, text[i]) {
        if Here([p] + ps, text) {
          var j := HereSplit(p, ps, text);
          assert false;
        }
        return false;
      }
      i := i + 1;
    }
  }

  /** match: does the pattern match anywhere, or at the beginning under a circumflex? */
  method Match(re: string, text: string) returns (r: bool)
    ensures r <==> Matches(re, text)
  {
    if re != "" && re[0] == '^' {
      r := Matchhere(re[1..], text);
      return;
    }
    var i := 0;
    while i <= |text|
      invariant 0 <= i <= |text| + 1
      invariant forall j {:trigger text[j..]} :: 0 <= j < i ==> !Here(Pieces(re), text[j..])
    {
      var m := Matchhere(re, text[i..]);
      if m {
        return true;
      }
      i := i + 1;
    }
    r := false;
  }
}
