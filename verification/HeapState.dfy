/** The allocator of user/umalloc.c (section 8.7 of The C Programming Language, 2nd ed.) as values.

    Addresses count header-sized units of 16 bytes.  `size` and `ptr` are the two fields of the headers
    in memory.  The ghost `fl` lists the free blocks by address, with the empty `base` first, and
    `live` the blocks that malloc has handed out. */
module HeapState {
  datatype Blk = Blk(a: nat, n: nat)

  function Succ(fl: seq<nat>, i: nat): nat
    requires i < |fl|
  {
    if i + 1 < |fl| then fl[i + 1] else fl[0]
  }

  /** The free blocks form one circle in the order of fl. */
  ghost predicate Circle(ptr: map<nat, nat>, fl: seq<nat>) {
    fl != [] && forall i {:trigger Succ(fl, i)} {:trigger ptr[fl[i]]} {:trigger fl[i] in ptr} :: 0 <= i < |fl| ==>
      fl[i] in ptr && ptr[fl[i]] == Succ(fl, i)
  }

  /** .. in ascending order, non-empty except for base, none touching the next. */
  ghost predicate Ordered(size: map<nat, nat>, fl: seq<nat>, brk: nat) {
    && fl != [] && fl[0] in size && size[fl[0]] == 0
    && (forall i {:trigger fl[i]} :: 0 < i < |fl| ==>
          fl[i] in size && 0 < size[fl[i]] && fl[0] < fl[i] && fl[i] + size[fl[i]] <= brk)
    && (forall i, j {:trigger fl[i], fl[j]} :: 0 < i < j < |fl| ==> fl[i] + size[fl[i]] < fl[j])
  }

  predicate Disjoint(a: nat, n: nat, b: nat, m: nat) {
    a + n <= b || b + m <= a
  }

  /** Live blocks have their size in their header and overlap neither each other nor a free block. */
  ghost predicate LiveOk(size: map<nat, nat>, fl: seq<nat>, live: seq<Blk>, brk: nat) {
    && (forall j {:trigger live[j]} :: 0 <= j < |live| ==>
          live[j].a in size && size[live[j].a] == live[j].n && 0 < live[j].n && live[j].a + live[j].n <= brk)
    && (forall j {:trigger live[j]} :: 0 <= j < |live| && fl != [] ==> fl[0] < live[j].a)
    && (forall j, k {:trigger live[j], live[k]} :: 0 <= j < k < |live| ==>
          Disjoint(live[j].a, live[j].n, live[k].a, live[k].n))
    && (forall i, j {:trigger fl[i], live[j]} :: 0 < i < |fl| && 0 <= j < |live| ==>
          fl[i] in size && Disjoint(fl[i], size[fl[i]], live[j].a, live[j].n))
  }

  function LiveUnits(live: seq<Blk>): nat {
    if live == [] then 0 else LiveUnits(live[..|live| - 1]) + live[|live| - 1].n
  }

  function SizeAt(size: map<nat, nat>, a: nat): nat {
    if a in size then size[a] else 0
  }

  function FreeUnits(size: map<nat, nat>, fl: seq<nat>): nat {
    if fl == [] then 0 else FreeUnits(size, fl[..|fl| - 1]) + SizeAt(size, fl[|fl| - 1])
  }

  // ---- sums ----

  lemma {:induction false} FreeUnitsSame(size: map<nat, nat>, size': map<nat, nat>, fl: seq<nat>)
    requires forall i {:trigger fl[i]} :: 0 <= i < |fl| ==> SizeAt(size', fl[i]) == SizeAt(size, fl[i])
    ensures FreeUnits(size', fl) == FreeUnits(size, fl)
  {
    if fl != [] {
      FreeUnitsSame(size, size', fl[..|fl| - 1]);
    }
  }

  lemma {:induction false} FreeUnitsChange(size: map<nat, nat>, size': map<nat, nat>, fl: seq<nat>, i: nat)
    requires i < |fl| && forall j {:trigger fl[j]} :: 0 <= j < |fl| && j != i ==>
      SizeAt(size', fl[j]) == SizeAt(size, fl[j])
    ensures FreeUnits(size', fl) == FreeUnits(size, fl) + SizeAt(size', fl[i]) - SizeAt(size, fl[i])
  {
    var n := |fl| - 1;
    if i == n {
      FreeUnitsSame(size, size', fl[..n]);
    } else {
      FreeUnitsChange(size, size', fl[..n], i);
    }
  }

  lemma {:induction false} FreeUnitsConcat(size: map<nat, nat>, a: seq<nat>, b: seq<nat>)
    ensures FreeUnits(size, a + b) == FreeUnits(size, a) + FreeUnits(size, b)
  {
    if b == [] {
      assert a + b == a;
    } else {
      assert (a + b)[..|a + b| - 1] == a + b[..|b| - 1];
      FreeUnitsConcat(size, a, b[..|b| - 1]);
    }
  }

  lemma FreeUnitsOne(size: map<nat, nat>, x: nat)
    ensures FreeUnits(size, [x]) == SizeAt(size, x)
  {
    assert [x][..0] == [];
  }

  lemma {:induction false} LiveUnitsRemove(live: seq<Blk>, j: nat)
    requires j < |live|
    ensures LiveUnits(live[..j] + live[j + 1..]) == LiveUnits(live) - live[j].n
  {
    var r := live[..j] + live[j + 1..];
    if j == |live| - 1 {
      assert r == live[..j];
    } else {
      var n := |live| - 1;
      assert r[..|r| - 1] == live[..n][..j] + live[..n][j + 1..];
      LiveUnitsRemove(live[..n], j);
    }
  }

  lemma LiveUnitsAppend(live: seq<Blk>, b: Blk)
    ensures LiveUnits(live + [b]) == LiveUnits(live) + b.n
  {
    assert (live + [b])[..|live|] == live;
  }
}
