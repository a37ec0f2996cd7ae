/** Physical memory with its free list, as a value, and what the operations of kernel/vm.c may do
    to it. */
module VmPhys {
  import opened Collections
  import opened VmState

  datatype Phys = Phys(mem: Mem, free: seq<Frame>)

  ghost predicate FreeOk(ph: Phys) {
    NoDup(ph.free) && forall f {:trigger f in ph.free} :: f in ph.free ==> f in ph.mem
  }

  ghost predicate FreeApart(ph: Phys, s: Space) {
    forall f {:trigger f in ph.free} :: f in ph.free ==> f !in s.t.node && f !in s.back
  }

  /** A well-formed space beside a free list that has none of its frames. */
  ghost predicate Good(ph: Phys, s: Space) {
    Wf(ph.mem, s) && FreeOk(ph) && FreeApart(ph, s)
  }

  /** Frame f is free or belongs to the space. */
  predicate Has(ph: Phys, s: Space, f: Frame) {
    f in ph.free || f in s.t.node || f in s.back
  }

  /** No frame has been lost or gained. */
  ghost predicate SameFrames(ph: Phys, s: Space, ph': Phys, s': Space) {
    forall f {:trigger Has(ph', s', f)} :: Has(ph', s', f) <==> Has(ph, s, f)
  }

  /** Memory changed at most in the given frames. */
  ghost predicate ChangedIn(m: Mem, m': Mem, where: set<Frame>) {
    forall f {:trigger m'[f]} {:trigger f in m'} :: f in m && f !in where ==> f in m' && m'[f] == m[f]
  }

  /** kalloc took the first free frame. */
  function Taken(ph: Phys): Phys
    requires ph.free != []
  {
    Phys(ph.mem[ph.free[0] := Data(seq(PGSIZE, _ => 5))], ph.free[1..])
  }

  /** From (ph, s) to (ph', s') tables may have been added, and that is all. */
  ghost predicate Extended(ph: Phys, s: Space, ph': Phys, s': Space) {
    && s'.back == s.back && ROOT in s.t.at && ROOT in s'.t.at && s'.t.at[ROOT] == s.t.at[ROOT]
    && SameLeaves(ph.mem, s.t, ph'.mem, s'.t)
    && s.t.node.Keys <= s'.t.node.Keys
    && ChangedIn(ph.mem, ph'.mem, s'.t.node.Keys)
    && SameFrames(ph, s, ph', s') && |ph'.free| <= |ph.free|
  }

  lemma ExtendedRefl(ph: Phys, s: Space)
    requires ROOT in s.t.at
    ensures Extended(ph, s, ph, s)
  {
  }

  lemma ExtendedTrans(ph: Phys, s: Space, ph1: Phys, s1: Space, ph2: Phys, s2: Space)
    requires Extended(ph, s, ph1, s1) && Extended(ph1, s1, ph2, s2)
    ensures Extended(ph, s, ph2, s2)
  {
    forall v | 0 <= v < PAGES
      ensures Leaf(ph2.mem, s2.t, v) == Leaf(ph.mem, s.t, v)
    {
      assert Leaf(ph1.mem, s1.t, v) == Leaf(ph.mem, s.t, v);
    }
  }

  // ---- a new table from the free list ----

  ghost predicate CanGrowHere(ph: Phys, s: Space, nd: Node, i: nat, f: Frame) {
    Good(ph, s) && ph.free != [] && f == ph.free[0] && CanGrow(ph.mem, s.t, nd, i, f)
  }

  ghost function GrownPhys(ph: Phys, s: Space, nd: Node, i: nat, f: Frame): Phys
    requires CanGrowHere(ph, s, nd, i, f)
  {
    Phys(GrownMem(ph.mem, s.t, nd, i, f), ph.free[1..])
  }

  lemma FreeTail(ph: Phys)
    requires FreeOk(ph) && ph.free != []
    ensures ph.free[0] !in ph.free[1..] && NoDup(ph.free[1..])
    ensures forall f :: f in ph.free <==> f == ph.free[0] || f in ph.free[1..]
  {
    assert ph.free == [ph.free[0]] + ph.free[1..];
  }

  lemma PushFree(ph: Phys, m: Mem, f: Frame)
    requires FreeOk(ph) && f !in ph.free && f in m && forall g: Frame {:trigger g in m} :: g in ph.mem ==> g in m
    ensures FreeOk(Phys(m, [f] + ph.free))
    ensures forall g: Frame {:trigger g in [f] + ph.free} :: g in [f] + ph.free <==> g == f || g in ph.free
  {
  }

  lemma GrowGood(ph: Phys, s: Space, nd: Node, i: nat, f: Frame)
    requires CanGrowHere(ph, s, nd, i, f)
    ensures var ph', s' := GrownPhys(ph, s, nd, i, f), Space(GrownTree(s.t, nd, i, f), s.back);
      Good(ph', s') && Extended(ph, s, ph', s')
  {
    FreeTail(ph);
    GrowWf(ph.mem, s, nd, i, f);
    GrowLeaves(ph.mem, s.t, nd, i, f);
  }

  // ---- mapping pages ----

  /** Frames f .. f+n are data and belong to nobody. */
  ghost predicate Loose(ph: Phys, s: Space, f: Frame, n: nat) {
    forall g: Frame {:trigger Has(ph, s, g)} :: f <= g < f + n ==> IsData(ph.mem, g) && !Has(ph, s, g)
  }

  /** From (ph, s) to (ph', s') pages v .. v+n have been mapped to frames f .. f+n, tables may have
      been added, and that is all. */
  ghost predicate MappedRun(ph: Phys, s: Space, ph': Phys, s': Space, v: nat, f: Frame, n: nat, a: Attr)
    requires v + n <= PAGES
  {
    && ROOT in s.t.at && ROOT in s'.t.at && s'.t.at[ROOT] == s.t.at[ROOT]
    && (forall w {:trigger Leaf(ph'.mem, s'.t, w)} :: 0 <= w < PAGES ==>
          Leaf(ph'.mem, s'.t, w) == if v <= w < v + n then Link(f + (w - v), a) else Leaf(ph.mem, s.t, w))
    && s.t.node.Keys <= s'.t.node.Keys && |ph'.free| <= |ph.free|
    && ChangedIn(ph.mem, ph'.mem, s'.t.node.Keys)
    && (forall g: Frame {:trigger g in s'.back} :: g in s'.back <==> g in s.back || f <= g < f + n)
    && (forall g: Frame {:trigger Has(ph', s', g)} :: Has(ph', s', g) <==> Has(ph, s, g) || f <= g < f + n)
  }

  lemma MappedNone(ph: Phys, s: Space, v: nat, f: Frame, a: Attr)
    requires Good(ph, s) && v <= PAGES
    ensures MappedRun(ph, s, ph, s, v, f, 0, a)
  {
  }

  /** The entry of page v set to frame f. */
  ghost function SetPhys(ph: Phys, s: Space, v: nat, p: Pte): Phys
    requires HasSlot(ph.mem, s.t, v)
  {
    Phys(WithEntry(ph.mem, s.t, v, p), ph.free)
  }

  lemma MapGood(ph: Phys, s: Space, v: nat, f: Frame, a: Attr)
    requires Good(ph, s) && HasSlot(ph.mem, s.t, v) && Leaf(ph.mem, s.t, v) == Empty && Loose(ph, s, f, 1)
    ensures Good(SetPhys(ph, s, v, Link(f, a)), Mapped(s, v, f))
    ensures MappedRun(ph, s, SetPhys(ph, s, v, Link(f, a)), Mapped(s, v, f), v, f, 1, a)
  {
    hide InnerOk;
    hide LeavesOk;
    hide Leaf;
    assert !Has(ph, s, f);
    MapWf(ph.mem, s, v, f, a);
    WithEntryLeaves(ph.mem, s.t, v, Link(f, a));
  }

  /** Tables added, then one page mapped. */
  lemma ExtendThenMap(ph: Phys, s: Space, ph1: Phys, s1: Space, ph2: Phys, s2: Space, v: nat, f: Frame, a: Attr)
    requires v < PAGES && Extended(ph, s, ph1, s1) && MappedRun(ph1, s1, ph2, s2, v, f, 1, a)
    ensures MappedRun(ph, s, ph2, s2, v, f, 1, a)
  {
    forall w | 0 <= w < PAGES
      ensures Leaf(ph2.mem, s2.t, w) == if v <= w < v + 1 then Link(f + (w - v), a) else Leaf(ph.mem, s.t, w)
    {
      assert Leaf(ph1.mem, s1.t, w) == Leaf(ph.mem, s.t, w);
    }
  }

  lemma ExtendMapsNone(ph: Phys, s: Space, ph1: Phys, s1: Space, v: nat, f: Frame, a: Attr)
    requires v <= PAGES && Extended(ph, s, ph1, s1)
    ensures MappedRun(ph, s, ph1, s1, v, f, 0, a)
  {
  }

  /** Frames that nobody has are untouched by all this. */
  lemma LooseStays(ph: Phys, s: Space, ph': Phys, s': Space, v: nat, f: Frame, n: nat, a: Attr,
                   l: nat, g: Frame, k: nat)
    requires v + n <= PAGES && MappedRun(ph, s, ph', s', v, f, n, a) && f + n <= g && g + k <= f + l
    requires Loose(ph, s, f, l)
    requires Good(ph', s')
    ensures Loose(ph', s', g, k)
  {
    forall h: Frame | g <= h < g + k
      ensures IsData(ph'.mem, h) && !Has(ph', s', h)
    {
      assert !Has(ph, s, h) && !Has(ph', s', h);
      assert ph'.mem[h] == ph.mem[h];
    }
  }

  lemma MappedRunMore(ph: Phys, s: Space, ph1: Phys, s1: Space, ph2: Phys, s2: Space,
                      v: nat, f: Frame, n: nat, w: nat, g: Frame, k: nat, n': nat, a: Attr)
    requires v + n + k <= PAGES && w == v + n && g == f + n && n' == n + k
    requires MappedRun(ph, s, ph1, s1, v, f, n, a) && MappedRun(ph1, s1, ph2, s2, w, g, k, a)
    ensures MappedRun(ph, s, ph2, s2, v, f, n', a)
  {
    forall x | 0 <= x < PAGES
      ensures Leaf(ph2.mem, s2.t, x) == if v <= x < v + n' then Link(f + (x - v), a) else Leaf(ph.mem, s.t, x)
    {
      assert Leaf(ph1.mem, s1.t, x) == Leaf(ph1.mem, s1.t, x);
    }
    assert forall h: Frame {:trigger Has(ph2, s2, h)} :: Has(ph1, s1, h) <==> Has(ph, s, h) || f <= h < f + n;
  }

  /** walk, then the entry set: one page of mappages. */
  lemma MapOneDone(ph: Phys, s: Space, ph1: Phys, s1: Space, v: nat, f: Frame, a: Attr) returns (ph2: Phys, s2: Space)
    requires v < PAGES && Good(ph1, s1) && Extended(ph, s, ph1, s1) && Loose(ph, s, f, 1)
    requires HasSlot(ph1.mem, s1.t, v) && Leaf(ph1.mem, s1.t, v) == Empty
    ensures ph2 == SetPhys(ph1, s1, v, Link(f, a)) && s2 == Mapped(s1, v, f)
    ensures Good(ph2, s2) && MappedRun(ph, s, ph2, s2, v, f, 1, a)
  {
    ph2, s2 := SetPhys(ph1, s1, v, Link(f, a)), Mapped(s1, v, f);
    ExtendMapsNone(ph, s, ph1, s1, v, f, a);
    LooseStays(ph, s, ph1, s1, v, f, 0, a, 1, f, 1);
    MapGood(ph1, s1, v, f, a);
    ExtendThenMap(ph, s, ph1, s1, ph2, s2, v, f, a);
  }
}
