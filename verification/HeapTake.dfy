/** Taking a block off the free list: whole, or its tail (user/umalloc.c:82-94). */
module HeapTake {
  import opened Collections
  import opened HeapState
  import opened HeapFree

  lemma TakeWholeOrder(size: map<nat, nat>, fl: seq<nat>, live: seq<Blk>, brk: nat, i: nat)
    requires Ordered(size, fl, brk) && LiveOk(size, fl, live, brk) && 0 < i < |fl|
    ensures Ordered(size, Without(fl, i), brk) && LiveOk(size, Without(fl, i), live + [Blk(fl[i], size[fl[i]])], brk)
  {
    var fl', live' := Without(fl, i), live + [Blk(fl[i], size[fl[i]])];
    assert forall j {:trigger fl'[j]} :: 0 <= j < |fl'| ==> fl'[j] == if j < i then fl[j] else fl[j + 1];
    assert forall j {:trigger live'[j]} :: 0 <= j < |live'| ==>
      live'[j] == if j < |live| then live[j] else Blk(fl[i], size[fl[i]]);
    forall a, b | 0 < a < |fl'| && 0 <= b < |live'|
      ensures fl'[a] in size && Disjoint(fl'[a], size[fl'[a]], live'[b].a, live'[b].n)
    {
      var o := if a < i then a else a + 1;
      assert fl'[a] == fl[o];
      if b == |live| {
        assert o < i ==> fl[o] + size[fl[o]] < fl[i];
        assert o > i ==> fl[i] + size[fl[i]] < fl[o];
      }
    }
  }

  lemma TakeWhole(size: map<nat, nat>, ptr: map<nat, nat>, fl: seq<nat>, live: seq<Blk>, brk: nat, i: nat)
    requires Circle(ptr, fl) && Ordered(size, fl, brk) && LiveOk(size, fl, live, brk) && 0 < i < |fl|
    ensures fl[i] in ptr && fl[i] in size
    ensures Circle(ptr[fl[i - 1] := ptr[fl[i]]], Without(fl, i))
    ensures Ordered(size, Without(fl, i), brk) && LiveOk(size, Without(fl, i), live + [Blk(fl[i], size[fl[i]])], brk)
    ensures FreeUnits(size, Without(fl, i)) == FreeUnits(size, fl) - size[fl[i]]
  {
    assert ptr[fl[i]] == Succ(fl, i);
    OrderedAsc(size, fl, brk);
    MergeCircle(ptr, fl, i - 1);
    TakeWholeOrder(size, fl, live, brk, i);
    WithoutUnits(size, fl, i);
  }

  function Cut(size: map<nat, nat>, p: nat, n: nat): map<nat, nat>
    requires p in size && n < size[p]
  {
    size[p := size[p] - n][p + size[p] - n := n]
  }

  /** Only the header of the block and the new header inside it change. */
  lemma CutSizes(size: map<nat, nat>, fl: seq<nat>, live: seq<Blk>, brk: nat, i: nat, n: nat)
    requires Ordered(size, fl, brk) && LiveOk(size, fl, live, brk) && 0 < i < |fl| && 0 < n < size[fl[i]]
    ensures var size' := Cut(size, fl[i], n);
      && (forall j {:trigger fl[j]} :: 0 <= j < |fl| ==>
            fl[j] in size && fl[j] in size' && size'[fl[j]] == if j == i then size[fl[i]] - n else size[fl[j]])
      && (forall j {:trigger live[j]} :: 0 <= j < |live| ==> live[j].a in size' && size'[live[j].a] == live[j].n)
  {
    var size', q := Cut(size, fl[i], n), fl[i] + size[fl[i]] - n;
    forall j | 0 <= j < |fl|
      ensures fl[j] in size && fl[j] in size' && size'[fl[j]] == if j == i then size[fl[i]] - n else size[fl[j]]
    {
      assert 0 < j < i ==> fl[j] + size[fl[j]] < fl[i];
      assert i < j ==> fl[i] + size[fl[i]] < fl[j];
    }
    forall j | 0 <= j < |live|
      ensures live[j].a in size' && size'[live[j].a] == live[j].n
    {
      assert Disjoint(fl[i], size[fl[i]], live[j].a, live[j].n);
    }
  }

  lemma TakeTailOrder(size: map<nat, nat>, fl: seq<nat>, live: seq<Blk>, brk: nat, i: nat, n: nat)
    requires Ordered(size, fl, brk) && LiveOk(size, fl, live, brk) && 0 < i < |fl| && 0 < n < size[fl[i]]
    ensures var q := fl[i] + size[fl[i]] - n;
      Ordered(Cut(size, fl[i], n), fl, brk) && LiveOk(Cut(size, fl[i], n), fl, live + [Blk(q, n)], brk)
  {
    CutSizes(size, fl, live, brk, i, n);
    var q, size' := fl[i] + size[fl[i]] - n, Cut(size, fl[i], n);
    assert size'[q] == n;
    hide Cut;
    var live' := live + [Blk(q, n)];
    assert forall j {:trigger live'[j]} :: 0 <= j < |live'| ==> live'[j] == if j < |live| then live[j] else Blk(q, n);
    forall a, b | 0 < a < |fl| && 0 <= b < |live'|
      ensures fl[a] in size' && Disjoint(fl[a], size'[fl[a]], live'[b].a, live'[b].n)
    {
      if b == |live| {
        assert a < i ==> fl[a] + size[fl[a]] < fl[i];
        assert a > i ==> fl[i] + size[fl[i]] < fl[a];
      } else {
        assert Disjoint(fl[a], size[fl[a]], live[b].a, live[b].n);
      }
    }
    forall j | 0 <= j < |live|
      ensures Disjoint(live[j].a, live[j].n, q, n)
    {
      assert Disjoint(fl[i], size[fl[i]], live[j].a, live[j].n);
    }
  }

  lemma TakeTailUnits(size: map<nat, nat>, fl: seq<nat>, live: seq<Blk>, brk: nat, i: nat, n: nat)
    requires Ordered(size, fl, brk) && LiveOk(size, fl, live, brk) && 0 < i < |fl| && 0 < n < size[fl[i]]
    ensures FreeUnits(Cut(size, fl[i], n), fl) == FreeUnits(size, fl) - n
  {
    CutSizes(size, fl, live, brk, i, n);
    FreeUnitsChange(size, Cut(size, fl[i], n), fl, i);
  }
}
