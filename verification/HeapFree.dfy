/** Putting a block on the free list: insertion at its place, then merging with the neighbours it
    touches (user/umalloc.c:27-50). */
module HeapFree {
  import opened Collections
  import opened HeapState

  /** Ordered, except that blocks may touch. */
  ghost predicate Ordered0(size: map<nat, nat>, fl: seq<nat>, brk: nat) {
    && fl != [] && fl[0] in size && size[fl[0]] == 0
    && (forall i {:trigger fl[i]} :: 0 < i < |fl| ==>
          fl[i] in size && 0 < size[fl[i]] && fl[0] < fl[i] && fl[i] + size[fl[i]] <= brk)
    && (forall i, j {:trigger fl[i], fl[j]} :: 0 < i < j < |fl| ==> fl[i] + size[fl[i]] <= fl[j])
  }

  /** Free blocks k and k+1 touch. */
  predicate Touch(size: map<nat, nat>, fl: seq<nat>, k: nat) {
    0 < k && k + 1 < |fl| && fl[k] in size && fl[k] + size[fl[k]] == fl[k + 1]
  }

  lemma NoTouchOrdered(size: map<nat, nat>, fl: seq<nat>, brk: nat)
    requires Ordered0(size, fl, brk) && forall k {:trigger Touch(size, fl, k)} :: 0 <= k ==> !Touch(size, fl, k)
    ensures Ordered(size, fl, brk)
  {
    forall i, j | 0 < i < j < |fl|
      ensures fl[i] + size[fl[i]] < fl[j]
    {
      assert !Touch(size, fl, i);
      if j > i + 1 {
        assert fl[i] + size[fl[i]] <= fl[i + 1] && fl[i + 1] + size[fl[i + 1]] <= fl[j];
      }
    }
  }

  ghost predicate Asc(fl: seq<nat>) {
    forall a, b {:trigger fl[a], fl[b]} :: 0 <= a < b < |fl| ==> fl[a] < fl[b]
  }

  lemma OrderedAsc(size: map<nat, nat>, fl: seq<nat>, brk: nat)
    requires Ordered0(size, fl, brk)
    ensures Asc(fl)
  {
  }

  /** A block that is neither free nor live. */
  ghost predicate Loose(size: map<nat, nat>, fl: seq<nat>, live: seq<Blk>, brk: nat, bp: nat) {
    && bp in size && 0 < size[bp] && bp + size[bp] <= brk && fl != [] && fl[0] < bp
    && (forall i {:trigger fl[i]} :: 0 < i < |fl| ==> fl[i] in size && Disjoint(fl[i], size[fl[i]], bp, size[bp]))
    && (forall j {:trigger live[j]} :: 0 <= j < |live| ==> Disjoint(live[j].a, live[j].n, bp, size[bp]))
  }

  /** bp belongs after entry i. */
  predicate Place(fl: seq<nat>, i: nat, bp: nat) {
    i < |fl| && fl[i] < bp && (i + 1 < |fl| ==> bp < fl[i + 1])
  }

  function Inserted(fl: seq<nat>, i: nat, bp: nat): seq<nat>
    requires i < |fl|
  {
    fl[..i + 1] + [bp] + fl[i + 1..]
  }

  lemma InsertCircle(ptr: map<nat, nat>, fl: seq<nat>, i: nat, bp: nat)
    requires Circle(ptr, fl) && i < |fl| && bp !in fl && Asc(fl)
    ensures Circle(ptr[bp := Succ(fl, i)][fl[i] := bp], Inserted(fl, i, bp))
  {
    var fl', ptr' := Inserted(fl, i, bp), ptr[bp := Succ(fl, i)][fl[i] := bp];
    forall j | 0 <= j < |fl'|
      ensures fl'[j] in ptr' && ptr'[fl'[j]] == Succ(fl', j)
    {
      if j > i + 1 {
        assert fl'[j] == fl[j - 1] && fl[i] < fl[j - 1] && ptr[fl[j - 1]] == Succ(fl, j - 1);
      } else if j < i {
        assert fl'[j] == fl[j] && fl[j] < fl[i] && ptr[fl[j]] == Succ(fl, j);
      }
    }
  }

  lemma InsertOrdered(size: map<nat, nat>, fl: seq<nat>, live: seq<Blk>, brk: nat, i: nat, bp: nat)
    requires Ordered(size, fl, brk) && Loose(size, fl, live, brk, bp) && Place(fl, i, bp)
    ensures Ordered0(size, Inserted(fl, i, bp), brk) && bp !in fl
    ensures forall k {:trigger Touch(size, Inserted(fl, i, bp), k)} :: 0 <= k && Touch(size, Inserted(fl, i, bp), k) ==>
      k == i || k == i + 1
  {
    hide Ordered;
    hide Loose;
    hide Inserted;
    InsertHead(size, fl, live, brk, i, bp);
    var fl' := Inserted(fl, i, bp);
    forall a | 0 < a < |fl'|
      ensures fl'[a] in size && 0 < size[fl'[a]] && fl'[0] < fl'[a] && fl'[a] + size[fl'[a]] <= brk
    {
      InsertEntry(size, fl, live, brk, i, bp, a);
    }
    forall a, b | 0 < a < b < |fl'|
      ensures fl'[a] + size[fl'[a]] <= fl'[b]
      ensures a != i && a != i + 1 ==> fl'[a] + size[fl'[a]] < fl'[b]
    {
      InsertPair(size, fl, live, brk, i, bp, a, b);
    }
  }

  lemma InsertHead(size: map<nat, nat>, fl: seq<nat>, live: seq<Blk>, brk: nat, i: nat, bp: nat)
    requires Ordered(size, fl, brk) && Loose(size, fl, live, brk, bp) && Place(fl, i, bp)
    ensures |Inserted(fl, i, bp)| == |fl| + 1 && Inserted(fl, i, bp)[0] == fl[0]
    ensures fl[0] in size && size[fl[0]] == 0 && bp !in fl
  {
  }

  lemma InsertEntry(size: map<nat, nat>, fl: seq<nat>, live: seq<Blk>, brk: nat, i: nat, bp: nat, a: nat)
    requires Ordered(size, fl, brk) && Loose(size, fl, live, brk, bp) && Place(fl, i, bp) && 0 < a <= |fl|
    ensures var x := Inserted(fl, i, bp)[a]; x in size && 0 < size[x] && fl[0] < x && x + size[x] <= brk
  {
    assert Inserted(fl, i, bp)[a] == if a <= i then fl[a] else if a == i + 1 then bp else fl[a - 1];
  }

  /** Two blocks of the list with bp in its place, in their order. */
  lemma InsertPair(size: map<nat, nat>, fl: seq<nat>, live: seq<Blk>, brk: nat, i: nat, bp: nat, a: nat, b: nat)
    requires Ordered(size, fl, brk) && Loose(size, fl, live, brk, bp) && Place(fl, i, bp) && 0 < a < b <= |fl|
    ensures var x, y := Inserted(fl, i, bp)[a], Inserted(fl, i, bp)[b];
      x in size && x + size[x] <= y && (a != i && a != i + 1 ==> x + size[x] < y)
  {
    var fl' := Inserted(fl, i, bp);
    assert fl'[a] == if a <= i then fl[a] else if a == i + 1 then bp else fl[a - 1];
    assert fl'[b] == if b <= i then fl[b] else if b == i + 1 then bp else fl[b - 1];
    hide Inserted;
    if b == i + 1 && a < i {
      assert fl[a] + size[fl[a]] < fl[i];
    }
    if a == i + 1 && b > i + 2 {
      assert fl[i + 1] + size[fl[i + 1]] < fl[b - 1];
    }
  }

  lemma InsertLive(size: map<nat, nat>, fl: seq<nat>, live: seq<Blk>, brk: nat, i: nat, bp: nat)
    requires LiveOk(size, fl, live, brk) && Loose(size, fl, live, brk, bp) && i < |fl|
    ensures LiveOk(size, Inserted(fl, i, bp), live, brk)
  {
    var fl' := Inserted(fl, i, bp);
    assert forall j {:trigger fl'[j]} :: 0 <= j < |fl'| ==>
      fl'[j] == if j <= i then fl[j] else if j == i + 1 then bp else fl[j - 1];
  }

  lemma InsertUnits(size: map<nat, nat>, fl: seq<nat>, i: nat, bp: nat)
    requires i < |fl|
    ensures FreeUnits(size, Inserted(fl, i, bp)) == FreeUnits(size, fl) + SizeAt(size, bp)
  {
    var a, b := fl[..i + 1], fl[i + 1..];
    assert fl == a + b;
    FreeUnitsConcat(size, a, b);
    FreeUnitsConcat(size, a + [bp], b);
    FreeUnitsConcat(size, a, [bp]);
    FreeUnitsOne(size, bp);
  }

  // ---- merging ----

  function Swollen(size: map<nat, nat>, fl: seq<nat>, k: nat): map<nat, nat>
    requires Touch(size, fl, k) && fl[k + 1] in size
  {
    size[fl[k] := size[fl[k]] + size[fl[k + 1]]]
  }

  lemma MergeCircle(ptr: map<nat, nat>, fl: seq<nat>, k: nat)
    requires Circle(ptr, fl) && k + 1 < |fl| && Asc(fl)
    ensures Circle(ptr[fl[k] := ptr[fl[k + 1]]], Without(fl, k + 1))
  {
    var fl', ptr' := Without(fl, k + 1), ptr[fl[k] := ptr[fl[k + 1]]];
    forall j | 0 <= j < |fl'|
      ensures fl'[j] in ptr' && ptr'[fl'[j]] == Succ(fl', j)
    {
      var o := if j <= k then j else j + 1;
      assert fl'[j] == fl[o] && ptr[fl[o]] == Succ(fl, o) && ptr[fl[k + 1]] == Succ(fl, k + 1);
      assert j < k ==> fl[j] < fl[k];
      assert j > k ==> fl[k] < fl[j + 1];
    }
  }

  /** Only the size of block k has changed. */
  lemma MergeSizes(size: map<nat, nat>, fl: seq<nat>, brk: nat, k: nat)
    requires Ordered0(size, fl, brk) && Touch(size, fl, k)
    ensures var fl', size' := Without(fl, k + 1), Swollen(size, fl, k);
      && |fl'| == |fl| - 1 && fl'[0] == fl[0]
      && forall j {:trigger fl'[j]} :: 0 <= j < |fl'| ==>
           var o := if j <= k then j else j + 1;
           fl'[j] == fl[o] && fl'[j] in size' && fl[o] in size
             && size'[fl'[j]] == if j == k then size[fl[k]] + size[fl[k + 1]] else size[fl[o]]
  {
    OrderedAsc(size, fl, brk);
    hide Ordered0;
    var fl', size' := Without(fl, k + 1), Swollen(size, fl, k);
    forall j | 0 <= j < |fl'|
      ensures var o := if j <= k then j else j + 1;
        fl'[j] == fl[o] && fl'[j] in size' && fl[o] in size
          && size'[fl'[j]] == if j == k then size[fl[k]] + size[fl[k + 1]] else size[fl[o]]
    {
      SizedEntry(size, fl, brk, if j <= k then j else j + 1);
      assert j < k ==> fl[j] < fl[k];
      assert j > k ==> fl[k] < fl[j + 1];
    }
  }

  lemma SizedEntry(size: map<nat, nat>, fl: seq<nat>, brk: nat, i: nat)
    requires Ordered0(size, fl, brk) && i < |fl|
    ensures fl[i] in size
  {
  }

  lemma MergeOrdered(size: map<nat, nat>, fl: seq<nat>, brk: nat, k: nat)
    requires Ordered0(size, fl, brk) && Touch(size, fl, k)
    ensures Ordered0(Swollen(size, fl, k), Without(fl, k + 1), brk)
    ensures forall j {:trigger Touch(Swollen(size, fl, k), Without(fl, k + 1), j)} ::
      0 <= j && Touch(Swollen(size, fl, k), Without(fl, k + 1), j) ==> Touch(size, fl, if j < k then j else j + 1)
  {
    MergeSizes(size, fl, brk, k);
    hide Swollen;
    hide Without;
    hide Touch;
    var fl', size' := Without(fl, k + 1), Swollen(size, fl, k);
    TouchIs(size, fl, k);
    forall a, b | 0 < a < b < |fl'|
      ensures fl'[a] + size'[fl'[a]] <= fl'[b]
    {
      var x, y := if a <= k then a else a + 1, if b <= k then b else b + 1;
      assert fl'[a] == fl[x] && fl'[b] == fl[y];
      if a == k {
        assert fl[k + 1] + size[fl[k + 1]] <= fl[y];
      } else {
        assert fl[x] + size[fl[x]] <= fl[y];
      }
    }
    forall j | 0 <= j && Touch(size', fl', j)
      ensures Touch(size, fl, if j < k then j else j + 1)
    {
      MergeTouch(size, fl, brk, k, size', fl', j);
    }
  }

  lemma TouchIs(size: map<nat, nat>, fl: seq<nat>, k: nat)
    requires Touch(size, fl, k)
    ensures 0 < k && k + 1 < |fl| && fl[k] in size && fl[k] + size[fl[k]] == fl[k + 1]
  {
  }

  /** Blocks that touch after the merge touched before. */
  lemma MergeTouch(size: map<nat, nat>, fl: seq<nat>, brk: nat, k: nat, size': map<nat, nat>, fl': seq<nat>, j: nat)
    requires Ordered0(size, fl, brk) && Touch(size, fl, k) && Touch(size', fl', j)
    requires fl' == Without(fl, k + 1) && size' == Swollen(size, fl, k)
    ensures Touch(size, fl, if j < k then j else j + 1)
  {
    MergeSizes(size, fl, brk, k);
    hide Ordered0;
    hide Swollen;
    hide Without;
    assert fl'[j] == fl[if j <= k then j else j + 1];
    assert fl'[j + 1] == fl[if j + 1 <= k then j + 1 else j + 2];
  }

  lemma MergeLive(size: map<nat, nat>, fl: seq<nat>, live: seq<Blk>, brk: nat, k: nat)
    requires LiveOk(size, fl, live, brk) && Ordered0(size, fl, brk) && Touch(size, fl, k)
    ensures LiveOk(Swollen(size, fl, k), Without(fl, k + 1), live, brk)
  {
    MergeSizes(size, fl, brk, k);
    var fl', size' := Without(fl, k + 1), Swollen(size, fl, k);
    forall j | 0 <= j < |live|
      ensures live[j].a != fl[k] && Disjoint(fl[k], size[fl[k]] + size[fl[k + 1]], live[j].a, live[j].n)
    {
      assert Disjoint(fl[k], size[fl[k]], live[j].a, live[j].n)
        && Disjoint(fl[k + 1], size[fl[k + 1]], live[j].a, live[j].n);
    }
    hide Ordered0;
    hide Without;
    forall i, j | 0 < i < |fl'| && 0 <= j < |live|
      ensures fl'[i] in size' && Disjoint(fl'[i], size'[fl'[i]], live[j].a, live[j].n)
    {
      assert fl'[i] == fl[if i <= k then i else i + 1];
    }
  }

  lemma MergeUnits(size: map<nat, nat>, fl: seq<nat>, brk: nat, k: nat)
    requires Ordered0(size, fl, brk) && Touch(size, fl, k)
    ensures FreeUnits(Swollen(size, fl, k), Without(fl, k + 1)) == FreeUnits(size, fl)
  {
    MergeSizes(size, fl, brk, k);
    var fl', size' := Without(fl, k + 1), Swollen(size, fl, k);
    WithoutUnits(size, fl, k + 1);
    FreeUnitsChange(size, size', fl', k);
  }

  lemma WithoutUnits(size: map<nat, nat>, fl: seq<nat>, i: nat)
    requires i < |fl|
    ensures FreeUnits(size, Without(fl, i)) == FreeUnits(size, fl) - SizeAt(size, fl[i])
  {
    var a, b := fl[..i], fl[i + 1..];
    assert fl == a + [fl[i]] + b;
    FreeUnitsConcat(size, a + [fl[i]], b);
    FreeUnitsConcat(size, a, [fl[i]]);
    FreeUnitsOne(size, fl[i]);
    FreeUnitsConcat(size, a, b);
  }

  // ---- the three together ----

  /** Everything but strict separation of the free blocks. */
  ghost predicate Shape(size: map<nat, nat>, ptr: map<nat, nat>, fl: seq<nat>, live: seq<Blk>, brk: nat, units: nat) {
    Circle(ptr, fl) && Ordered0(size, fl, brk) && LiveOk(size, fl, live, brk) && FreeUnits(size, fl) == units
  }

  lemma InsertShape(size: map<nat, nat>, ptr: map<nat, nat>, fl: seq<nat>, live: seq<Blk>, brk: nat, units: nat, i: nat,
                    bp: nat)
    requires Shape(size, ptr, fl, live, brk, units) && Ordered(size, fl, brk)
    requires Loose(size, fl, live, brk, bp) && Place(fl, i, bp)
    ensures Shape(size, ptr[bp := Succ(fl, i)][fl[i] := bp], Inserted(fl, i, bp), live, brk, units + size[bp])
    ensures forall k {:trigger Touch(size, Inserted(fl, i, bp), k)} :: 0 <= k && Touch(size, Inserted(fl, i, bp), k) ==>
      k == i || k == i + 1
  {
    OrderedAsc(size, fl, brk);
    hide Ordered;
    hide LiveOk;
    hide Ordered0;
    hide Circle;
    InsertOrdered(size, fl, live, brk, i, bp);
    InsertCircle(ptr, fl, i, bp);
    InsertLive(size, fl, live, brk, i, bp);
    InsertUnits(size, fl, i, bp);
  }

  lemma MergeShape(size: map<nat, nat>, ptr: map<nat, nat>, fl: seq<nat>, live: seq<Blk>, brk: nat, units: nat, k: nat)
    requires Shape(size, ptr, fl, live, brk, units) && Touch(size, fl, k)
    ensures fl[k + 1] in size && fl[k + 1] in ptr
    ensures Shape(Swollen(size, fl, k), ptr[fl[k] := ptr[fl[k + 1]]], Without(fl, k + 1), live, brk, units)
    ensures forall j {:trigger Touch(Swollen(size, fl, k), Without(fl, k + 1), j)} ::
      0 <= j && Touch(Swollen(size, fl, k), Without(fl, k + 1), j) ==> Touch(size, fl, if j < k then j else j + 1)
  {
    assert ptr[fl[k + 1]] == Succ(fl, k + 1);
    OrderedAsc(size, fl, brk);
    SizedEntry(size, fl, brk, k + 1);
    hide LiveOk;
    hide Ordered0;
    hide Circle;
    MergeCircle(ptr, fl, k);
    MergeOrdered(size, fl, brk, k);
    MergeLive(size, fl, live, brk, k);
    MergeUnits(size, fl, brk, k);
  }

  /** Every address above base has its place in the list. */
  lemma {:induction false} FindPlace(fl: seq<nat>, bp: nat, n: nat) returns (i: nat)
    requires Asc(fl) && fl != [] && fl[0] < bp && bp !in fl && 0 < n <= |fl| && (n < |fl| ==> bp < fl[n])
    ensures Place(fl, i, bp)
    decreases n
  {
    if fl[n - 1] < bp {
      i := n - 1;
    } else {
      assert fl[n - 1] != bp;
      i := FindPlace(fl, bp, n - 1);
    }
  }

  /** The test at the head of free's loop, or the one inside it, stops the search. */
  predicate Stops(fl: seq<nat>, k: nat, bp: nat)
    requires k < |fl|
  {
    (bp > fl[k] && bp < Succ(fl, k)) || (fl[k] >= Succ(fl, k) && (bp > fl[k] || bp < Succ(fl, k)))
  }

  /** The search stops exactly at the place of the block. */
  lemma StopsAtPlace(fl: seq<nat>, k: nat, bp: nat, i: nat)
    requires Asc(fl) && k < |fl| && fl[0] < bp && Place(fl, i, bp)
    ensures Stops(fl, k, bp) <==> k == i
  {
    if k + 1 < |fl| {
      assert fl[k] < fl[k + 1];
    }
    if k < i {
      assert fl[k] < fl[i] && (k + 1 < i ==> fl[k + 1] < fl[i]);
    } else if i < k {
      assert i + 1 < k ==> fl[i + 1] < fl[k];
      assert k > 0 ==> fl[0] < fl[k];
    }
  }
}
