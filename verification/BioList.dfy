/** The doubly linked list of kernel/bio.c: `next` and `prev` by buffer number, closed through the head h. */
module BioList {
  import opened Collections

  /** The circle h, o[0], o[1], .., h. */
  function R(h: nat, o: seq<nat>, i: nat): nat {
    if 0 < i <= |o| then o[i - 1] else h
  }

  ghost predicate Members(h: nat, o: seq<nat>, n: nat) {
    && h < n && (forall i {:trigger o[i]} :: 0 <= i < |o| ==> o[i] < n && o[i] != h)
    && (forall i, j {:trigger o[i], o[j]} :: 0 <= i < j < |o| ==> o[i] != o[j])
  }

  /** next and prev lead round the circle, each the inverse of the other. */
  ghost predicate Linked(next: seq<nat>, prev: seq<nat>, h: nat, o: seq<nat>) {
    && |prev| == |next| && Members(h, o, |next|)
    && (forall i {:trigger R(h, o, i)} :: 0 <= i <= |o| ==>
          next[R(h, o, i)] == R(h, o, i + 1) && prev[R(h, o, i + 1)] == R(h, o, i))
  }

  /** Entries of the circle are different. */
  lemma RDistinct(h: nat, o: seq<nat>, n: nat, i: nat, j: nat)
    requires Members(h, o, n) && i <= |o| && j <= |o|
    ensures R(h, o, i) < n && (R(h, o, i) == R(h, o, j) <==> i == j)
  {
    if 0 < i && 0 < j && i != j {
      assert o[i - 1] != o[j - 1];
    }
  }

  lemma LinkedAt(next: seq<nat>, prev: seq<nat>, h: nat, o: seq<nat>, i: nat)
    requires Linked(next, prev, h, o) && i <= |o|
    ensures R(h, o, i) < |next| && R(h, o, i + 1) < |next|
    ensures next[R(h, o, i)] == R(h, o, i + 1) && prev[R(h, o, i + 1)] == R(h, o, i)
  {
    RDistinct(h, o, |next|, i, i);
    RDistinct(h, o, |next|, if i < |o| then i + 1 else 0, 0);
    assert R(h, o, i + 1) == R(h, o, if i < |o| then i + 1 else 0);
  }

  lemma WithoutR(h: nat, o: seq<nat>, k: nat, i: nat)
    requires k < |o| && i <= |o|
    ensures R(h, Without(o, k), i) == R(h, o, if i <= k then i else i + 1)
  {
  }

  lemma WithoutMembers(h: nat, o: seq<nat>, n: nat, k: nat)
    requires Members(h, o, n) && k < |o|
    ensures Members(h, Without(o, k), n) && o[k] !in Without(o, k)
  {
    var w := Without(o, k);
    forall i | 0 <= i < |w|
      ensures w[i] == o[if i < k then i else i + 1] && w[i] < n && w[i] != h && w[i] != o[k]
    {
    }
    forall i, j | 0 <= i < j < |w|
      ensures w[i] != w[j]
    {
      assert o[if i < k then i else i + 1] != o[if j < k then j else j + 1];
    }
  }

  /** b->next->prev = b->prev; b->prev->next = b->next. */
  lemma Unlink(next: seq<nat>, prev: seq<nat>, h: nat, o: seq<nat>, k: nat)
    requires Linked(next, prev, h, o) && k < |o|
    ensures var b := o[k];
      && next[b] < |next| && prev[b] < |next|
      && Linked(next[prev[b] := next[b]], prev[next[b] := prev[b]], h, Without(o, k))
  {
    var b, w, n := o[k], Without(o, k), |next|;
    LinkedAt(next, prev, h, o, k);
    LinkedAt(next, prev, h, o, k + 1);
    WithoutMembers(h, o, n, k);
    var next', prev' := next[prev[b] := next[b]], prev[next[b] := prev[b]];
    forall i | 0 <= i <= |w|
      ensures next'[R(h, w, i)] == R(h, w, i + 1) && prev'[R(h, w, i + 1)] == R(h, w, i)
    {
      UnlinkAt(next, prev, h, o, k, i);
    }
    assert forall i {:trigger R(h, w, i)} :: 0 <= i <= |w| ==>
      next'[R(h, w, i)] == R(h, w, i + 1) && prev'[R(h, w, i + 1)] == R(h, w, i);
  }

  lemma LinkedMembers(next: seq<nat>, prev: seq<nat>, h: nat, o: seq<nat>)
    requires Linked(next, prev, h, o)
    ensures |prev| == |next| && Members(h, o, |next|)
  {
  }

  lemma UnlinkAt(next: seq<nat>, prev: seq<nat>, h: nat, o: seq<nat>, k: nat, i: nat)
    requires Linked(next, prev, h, o) && k < |o| && i < |o|
    ensures var b, w := o[k], Without(o, k);
      && next[b] < |next| && prev[b] < |next| && R(h, w, i) < |next| && R(h, w, i + 1) < |next|
      && next[prev[b] := next[b]][R(h, w, i)] == R(h, w, i + 1)
           && prev[next[b] := prev[b]][R(h, w, i + 1)] == R(h, w, i)
  {
    hide Linked;
    hide Members;
    hide Without;
    LinkedMembers(next, prev, h, o);
    var n := |next|;
    LinkedAt(next, prev, h, o, k);
    LinkedAt(next, prev, h, o, k + 1);
    WithoutR(h, o, k, i);
    WithoutR(h, o, k, i + 1);
    LinkedAt(next, prev, h, o, if i <= k then i else i + 1);
    RDistinct(h, o, n, if i <= k then i else i + 1, k);
    var j := if i + 1 <= k then i + 1 else i + 2;
    RDistinct(h, o, n, if j <= |o| then j else 0, if k + 2 <= |o| then k + 2 else 0);
  }

  lemma FrontMembers(h: nat, o: seq<nat>, n: nat, b: nat)
    requires Members(h, o, n) && b < n && b != h && b !in o
    ensures Members(h, [b] + o, n)
  {
    var f := [b] + o;
    forall i, j | 0 <= i < j < |f|
      ensures f[i] != f[j]
    {
      assert f[j] == o[j - 1] && (i > 0 ==> f[i] == o[i - 1]);
    }
  }

  lemma FrontR(h: nat, o: seq<nat>, b: nat, i: nat)
    ensures R(h, [b] + o, i) == if i == 0 then h else if i == 1 then b else R(h, o, i - 1)
  {
  }

  /** b->next = head.next; b->prev = &head; head.next->prev = b; head.next = b. */
  lemma PushFront(next: seq<nat>, prev: seq<nat>, h: nat, o: seq<nat>, b: nat)
    requires Linked(next, prev, h, o) && b < |next| && b != h && b !in o
    ensures next[h] < |next|
    ensures Linked(next[b := next[h]][h := b], prev[b := h][next[h] := b], h, [b] + o)
  {
    var f, n := [b] + o, |next|;
    LinkedAt(next, prev, h, o, 0);
    FrontMembers(h, o, n, b);
    var next', prev' := next[b := next[h]][h := b], prev[b := h][next[h] := b];
    forall i | 0 <= i <= |f|
      ensures next'[R(h, f, i)] == R(h, f, i + 1) && prev'[R(h, f, i + 1)] == R(h, f, i)
    {
      PushFrontAt(next, prev, h, o, b, i);
    }
    assert forall i {:trigger R(h, f, i)} :: 0 <= i <= |f| ==>
      next'[R(h, f, i)] == R(h, f, i + 1) && prev'[R(h, f, i + 1)] == R(h, f, i);
  }

  lemma PushFrontAt(next: seq<nat>, prev: seq<nat>, h: nat, o: seq<nat>, b: nat, i: nat)
    requires Linked(next, prev, h, o) && b < |next| && b != h && b !in o && i <= |o| + 1
    ensures var f := [b] + o;
      && next[h] < |next| && R(h, f, i) < |next| && R(h, f, i + 1) < |next|
      && next[b := next[h]][h := b][R(h, f, i)] == R(h, f, i + 1)
           && prev[b := h][next[h] := b][R(h, f, i + 1)] == R(h, f, i)
  {
    var n := |next|;
    LinkedAt(next, prev, h, o, 0);
    FrontR(h, o, b, i);
    FrontR(h, o, b, i + 1);
    if i > 0 {
      LinkedAt(next, prev, h, o, i - 1);
      RDistinct(h, o, n, i - 1, 0);
      RDistinct(h, o, n, if i <= |o| then i else 0, if 1 <= |o| then 1 else 0);
    }
    hide Linked;
  }

  // ---- the list holds every buffer ----

  lemma InList(h: nat, o: seq<nat>, n: nat, i: nat)
    requires Members(h, o, n) && i <= |o| && R(h, o, i + 1) != h
    ensures i < |o| && R(h, o, i + 1) == o[i] && o[i] < n
  {
  }

  lemma AtEnd(h: nat, o: seq<nat>, n: nat, i: nat)
    requires Members(h, o, n) && i <= |o| && R(h, o, i + 1) == h
    ensures i == |o|
  {
  }

  lemma AtStart(h: nat, o: seq<nat>, n: nat, i: nat)
    requires Members(h, o, n) && i <= |o| && R(h, o, i) == h
    ensures i == 0
  {
  }

  /** h different numbers below h are all the numbers below h. */
  lemma Holds(h: nat, o: seq<nat>, b: nat) returns (k: nat)
    requires Members(h, o, h + 1) && |o| == h && b < h
    ensures k < h && o[k] == b
  {
    if b !in o {
      var s := set i | 0 <= i < |o| :: o[i];
      Count(o, |o|);
      BelowSize(h);
      InBelow(h, b);
      forall x | x in s
        ensures x in Below(h) - {b}
      {
        InBelow(h, x);
      }
      SubsetSize(s, Below(h) - {b});
      assert false;
    }
    k :| 0 <= k < |o| && o[k] == b;
  }

  lemma {:induction false} Count(o: seq<nat>, m: nat)
    requires m <= |o| && forall i, j {:trigger o[i], o[j]} :: 0 <= i < j < |o| ==> o[i] != o[j]
    ensures |set i | 0 <= i < m :: o[i]| == m
  {
    if m > 0 {
      Count(o, m - 1);
      var t := set i | 0 <= i < m - 1 :: o[i];
      assert (set i | 0 <= i < m :: o[i]) == t + {o[m - 1]};
      assert o[m - 1] !in t;
    }
  }

  ghost function Below(h: nat): set<nat> {
    if h == 0 then {} else Below(h - 1) + {h - 1}
  }

  lemma {:induction false} InBelow(h: nat, x: nat)
    ensures x in Below(h) <==> x < h
  {
    if h > 0 {
      InBelow(h - 1, x);
    }
  }

  lemma {:induction false} BelowSize(h: nat)
    ensures |Below(h)| == h
  {
    if h > 0 {
      BelowSize(h - 1);
      InBelow(h - 1, h - 1);
    }
  }
}
