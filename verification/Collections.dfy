/** Options, sequences, sets and division, as several of the models use them. */
module Collections {
  datatype Opt<T> = None | Some(v: T)

  ghost predicate NoDup(q: seq<nat>) {
    forall i, j {:trigger q[i], q[j]} :: 0 <= i < j < |q| ==> q[i] != q[j]
  }

  /** The sequence without its element k. */
  function Without(o: seq<nat>, k: nat): seq<nat>
    requires k < |o|
  {
    o[..k] + o[k + 1..]
  }

  lemma SubsetSize(a: set<nat>, b: set<nat>)
    requires a <= b
    ensures |a| <= |b|
  {
    assert b == a + (b - a);
  }

  /** A multiple of d that is smaller than d is zero. */
  lemma Multiple(d: int, e: int)
    requires 0 < d
    ensures e >= 1 ==> d * e >= d
    ensures e <= -1 ==> d * e <= -d
  {
  }

  /** A quotient is determined by its remainder. */
  lemma Quotient(w: int, d: int, q: int, r: int)
    requires 0 <= r < d && w == d * q + r
    ensures w / d == q
  {
    var e := w / d - q;
    assert d * e == r - w % d;
    Multiple(d, e);
  }
}
