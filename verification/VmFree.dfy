/** Freeing the tables of a space: which tables lie below which, and what has been given back so
    far while kernel/vm.c's freewalk descends. */
module VmFree {
  import opened VmState
  import opened VmPhys
  import opened VmView

  /** Node d is nd or lies below it. */
  ghost predicate Below(nd: Node, d: Node)
    decreases d.l
  {
    if d.l <= nd.l then d == nd else Below(nd, Parent(d))
  }

  /** The entry of nd's table through which d is reached. */
  ghost function Branch(nd: Node, d: Node): nat
    decreases d.l
  {
    if d.l <= nd.l + 1 then d.n % 512 else Branch(nd, Parent(d))
  }

  lemma {:induction false} BelowChild(nd: Node, d: Node, i: nat)
    requires i < 512
    ensures Below(Child(nd, i), d) <==> d.l > nd.l && Below(nd, d) && Branch(nd, d) == i
    decreases d.l
  {
    if d.l == nd.l + 1 {
      assert d.n == Parent(d).n * 512 + d.n % 512;
      assert Below(nd, d) == Below(nd, Parent(d));
    } else if d.l > nd.l + 1 {
      BelowChild(nd, Parent(d), i);
    }
  }

  lemma {:induction false} BranchBound(nd: Node, d: Node)
    ensures Branch(nd, d) < 512
    decreases d.l
  {
    if d.l > nd.l + 1 {
      BranchBound(nd, Parent(d));
    }
  }

  ghost predicate TreeOk(t: Tree) {
    && (forall d {:trigger d in t.at} :: d in t.at ==> d.l < 4 && t.at[d] in t.node && t.node[t.at[d]] == d)
    && (forall d {:trigger Parent(d)} :: d in t.at && d.l > 0 ==> Parent(d) in t.at)
    && (forall f :: f in t.node ==> t.node[f] in t.at && t.at[t.node[f]] == f)
  }

  lemma {:induction false} AncestorIn(t: Tree, nd: Node, d: Node)
    requires TreeOk(t) && d in t.at && Below(nd, d)
    ensures nd in t.at
    decreases d.l
  {
    if d.l > nd.l {
      AncestorIn(t, nd, Parent(d));
    }
  }

  /** Frame g holds a table at or below nd. */
  ghost predicate InSub(t: Tree, nd: Node, g: Frame) {
    g in t.node && Below(nd, t.node[g])
  }

  /** .. one that is reached through the first i entries of nd. */
  ghost predicate Gone(t: Tree, nd: Node, i: nat, g: Frame) {
    InSub(t, nd, g) && t.node[g].l > nd.l && Branch(nd, t.node[g]) < i
  }

  /** The tables at and below nd link to each other as the tree says. */
  ghost predicate Tabled(m: Mem, t: Tree, nd: Node) {
    forall d {:trigger Below(nd, d)} :: d in t.at && Below(nd, d) ==> IsTable(m, t.at[d]) && TableOk(m, t, d)
  }

  ghost predicate TableOk(m: Mem, t: Tree, d: Node)
    requires d in t.at && IsTable(m, t.at[d])
  {
    forall i {:trigger Slot(m, t, d, i)} :: 0 <= i < ENTRIES ==>
      match Slot(m, t, d, i)
      case Empty => Child(d, i) !in t.at
      case Block => false
      case Link(f, a) => d.l < 3 ==> Child(d, i) in t.at && t.at[Child(d, i)] == f
  }

  /** No table at or below nd maps a page. */
  ghost predicate Clean(m: Mem, t: Tree, nd: Node) {
    forall d {:trigger Below(nd, d)} :: d in t.at && Below(nd, d) && d.l == 3 && IsTable(m, t.at[d]) ==>
      BlankTable(m, t, d)
  }

  ghost predicate BlankTable(m: Mem, t: Tree, d: Node)
    requires d in t.at && IsTable(m, t.at[d])
  {
    forall i {:trigger Slot(m, t, d, i)} :: 0 <= i < ENTRIES ==> Slot(m, t, d, i) == Empty
  }

  /** No page is mapped through entry i of nd. */
  ghost predicate CleanAt(m: Mem, t: Tree, nd: Node, i: nat)
    requires nd in t.at && IsTable(m, t.at[nd]) && i < ENTRIES
  {
    if nd.l == 3 then Slot(m, t, nd, i) == Empty else Child(nd, i) in t.at ==> Clean(m, t, Child(nd, i))
  }

  lemma CleanParts(m: Mem, t: Tree, nd: Node)
    requires TreeOk(t) && nd in t.at && IsTable(m, t.at[nd])
    ensures Clean(m, t, nd) <==> forall i {:trigger CleanAt(m, t, nd, i)} :: 0 <= i < ENTRIES ==> CleanAt(m, t, nd, i)
  {
    if Clean(m, t, nd) {
      forall i | 0 <= i < ENTRIES
        ensures CleanAt(m, t, nd, i)
      {
        CleanDown(m, t, nd, i);
      }
    } else {
      var d :| d in t.at && Below(nd, d) && d.l == 3 && IsTable(m, t.at[d]) && !BlankTable(m, t, d);
      if d.l == nd.l {
        var i :| 0 <= i < ENTRIES && Slot(m, t, d, i) != Empty;
        assert !CleanAt(m, t, nd, i);
      } else if nd.l < d.l {
        var i := Branch(nd, d);
        BranchBound(nd, d);
        BelowChild(nd, d, i);
        AncestorIn(t, Child(nd, i), d);
        assert !CleanAt(m, t, nd, i);
      }
    }
  }

  lemma CleanDown(m: Mem, t: Tree, nd: Node, i: nat)
    requires TreeOk(t) && nd in t.at && IsTable(m, t.at[nd]) && i < ENTRIES && Clean(m, t, nd)
    ensures CleanAt(m, t, nd, i)
  {
    assert Below(nd, nd);
    forall d | Below(Child(nd, i), d)
      ensures Below(nd, d)
    {
      BelowChild(nd, d, i);
    }
  }

  ghost predicate SubApart(ph: Phys, t: Tree, nd: Node) {
    forall g: Frame {:trigger InSub(t, nd, g)} :: InSub(t, nd, g) ==> g !in ph.free
  }

  ghost predicate Ready(ph: Phys, t: Tree, nd: Node) {
    TreeOk(t) && nd in t.at && Tabled(ph.mem, t, nd) && FreeOk(ph) && SubApart(ph, t, nd)
  }

  /** The tables at and below nd are on the free list now, each once, and nothing else has changed. */
  ghost predicate Freed(ph: Phys, ph': Phys, t: Tree, nd: Node) {
    && FreeOk(ph')
    && (forall g: Frame {:trigger g in ph'.free} :: g in ph'.free <==> g in ph.free || InSub(t, nd, g))
    && (forall g: Frame {:trigger ph'.mem[g]} {:trigger g in ph'.mem} :: g in ph.mem ==> g in ph'.mem)
    && (forall g: Frame {:trigger ph'.mem[g]} {:trigger g in ph'.mem} :: g in ph.mem && !InSub(t, nd, g) ==>
          ph'.mem[g] == ph.mem[g])
  }

  /** .. those that are reached through the first i entries of nd. */
  ghost predicate FreedUpTo(ph: Phys, ph': Phys, t: Tree, nd: Node, i: nat)
    requires nd in t.at
  {
    && FreeOk(ph') && IsTable(ph.mem, t.at[nd]) && IsTable(ph'.mem, t.at[nd])
    && (forall g: Frame {:trigger g in ph'.free} :: g in ph'.free <==> g in ph.free || Gone(t, nd, i, g))
    && (forall g: Frame {:trigger ph'.mem[g]} {:trigger g in ph'.mem} :: g in ph.mem ==> g in ph'.mem)
    && (forall g: Frame {:trigger ph'.mem[g]} {:trigger g in ph'.mem} ::
          g in ph.mem && !Gone(t, nd, i, g) && g != t.at[nd] ==> ph'.mem[g] == ph.mem[g])
    && (forall j {:trigger ph'.mem[t.at[nd]].e[j]} :: i <= j < ENTRIES ==>
          ph'.mem[t.at[nd]].e[j] == ph.mem[t.at[nd]].e[j])
  }

  lemma FreedNone(ph: Phys, t: Tree, nd: Node)
    requires Ready(ph, t, nd)
    ensures FreedUpTo(ph, ph, t, nd, 0)
  {
    assert Below(nd, nd);
  }

  lemma SubChild(t: Tree, nd: Node, i: nat, g: Frame)
    requires i < 512
    ensures InSub(t, Child(nd, i), g) <==> InSub(t, nd, g) && t.node[g].l > nd.l && Branch(nd, t.node[g]) == i
  {
    if g in t.node {
      BelowChild(nd, t.node[g], i);
    }
  }

  /** The next subtree is as it was. */
  lemma ChildReady(ph: Phys, ph': Phys, t: Tree, nd: Node, i: nat)
    requires Ready(ph, t, nd) && i < ENTRIES && FreedUpTo(ph, ph', t, nd, i) && Child(nd, i) in t.at
    ensures Ready(ph', t, Child(nd, i)) && (Clean(ph'.mem, t, Child(nd, i)) <==> Clean(ph.mem, t, Child(nd, i)))
  {
    var c := Child(nd, i);
    forall d | d in t.at && Below(c, d)
      ensures IsTable(ph'.mem, t.at[d]) && TableOk(ph'.mem, t, d)
      ensures IsTable(ph.mem, t.at[d]) && (BlankTable(ph'.mem, t, d) <==> BlankTable(ph.mem, t, d))
    {
      BelowChild(nd, d, i);
      var g := t.at[d];
      assert IsTable(ph.mem, g) && TableOk(ph.mem, t, d);
      assert !Gone(t, nd, i, g) && g != t.at[nd];
      assert ph'.mem[g] == ph.mem[g];
      assert forall j {:trigger Slot(ph'.mem, t, d, j)} {:trigger Slot(ph.mem, t, d, j)} ::
          0 <= j < ENTRIES ==> Slot(ph'.mem, t, d, j) == Slot(ph.mem, t, d, j);
    }
    forall g: Frame | InSub(t, c, g)
      ensures g !in ph'.free
    {
      SubChild(t, nd, i, g);
    }
  }

  /** No table hangs from an empty entry. */
  lemma EmptyBranch(ph: Phys, t: Tree, nd: Node, i: nat, g: Frame)
    requires TreeOk(t) && i < ENTRIES && Child(nd, i) !in t.at
    ensures Gone(t, nd, i + 1, g) <==> Gone(t, nd, i, g)
  {
    if Gone(t, nd, i + 1, g) && Branch(nd, t.node[g]) == i {
      BelowChild(nd, t.node[g], i);
      AncestorIn(t, Child(nd, i), t.node[g]);
      assert false;
    }
  }

  lemma SkipEmpty(ph: Phys, ph': Phys, t: Tree, nd: Node, i: nat)
    requires Ready(ph, t, nd) && i < ENTRIES && FreedUpTo(ph, ph', t, nd, i) && Child(nd, i) !in t.at
    ensures FreedUpTo(ph, ph', t, nd, i + 1)
  {
    forall g: Frame
      ensures Gone(t, nd, i + 1, g) <==> Gone(t, nd, i, g)
    {
      EmptyBranch(ph, t, nd, i, g);
    }
  }

  lemma GoneMore(t: Tree, nd: Node, i: nat, g: Frame)
    requires i < 512
    ensures Gone(t, nd, i + 1, g) <==> Gone(t, nd, i, g) || InSub(t, Child(nd, i), g)
  {
    SubChild(t, nd, i, g);
  }

  /** After the subtree of entry i is freed and the entry zeroed. */
  lemma FreedMore(ph: Phys, ph1: Phys, ph2: Phys, ph3: Phys, t: Tree, nd: Node, i: nat, f: Frame)
    requires Ready(ph, t, nd) && i < ENTRIES && FreedUpTo(ph, ph1, t, nd, i)
    requires Freed(ph1, ph2, t, Child(nd, i)) && f == t.at[nd] && f in ph2.mem && ph2.mem[f] == ph1.mem[f]
    requires ph3 == Phys(ph2.mem[f := Table(ph2.mem[f].e[i := Empty])], ph2.free)
    ensures FreedUpTo(ph, ph3, t, nd, i + 1)
  {
    hide Below;
    hide Branch;
    hide Tabled;
    hide TreeOk;
    hide InSub;
    hide Gone;
    forall g: Frame
      ensures Gone(t, nd, i + 1, g) <==> Gone(t, nd, i, g) || InSub(t, Child(nd, i), g)
    {
      GoneMore(t, nd, i, g);
    }
  }

  lemma NotYetFreed(ph: Phys, ph1: Phys, t: Tree, nd: Node)
    requires Ready(ph, t, nd) && FreedUpTo(ph, ph1, t, nd, 512)
    ensures t.at[nd] in ph1.mem && t.at[nd] !in ph1.free
  {
    assert Below(nd, nd) && InSub(t, nd, t.at[nd]);
  }

  /** The table of nd itself goes last. */
  lemma FreedAll(ph: Phys, ph1: Phys, ph2: Phys, t: Tree, nd: Node)
    requires Ready(ph, t, nd) && FreedUpTo(ph, ph1, t, nd, 512) && ph2 == Phys(ph1.mem, [t.at[nd]] + ph1.free)
    ensures Freed(ph, ph2, t, nd)
  {
    var f := t.at[nd];
    assert Below(nd, nd) && InSub(t, nd, f) && !Gone(t, nd, 512, f);
    forall g: Frame
      ensures InSub(t, nd, g) <==> Gone(t, nd, 512, g) || g == f
    {
      if g in t.node {
        BranchBound(nd, t.node[g]);
      }
    }
    assert f !in ph1.free;
    PushFree(ph1, ph1.mem, f);
  }

  // ---- a whole space ----

  lemma {:induction false} BelowRoot(m: Mem, t: Tree, d: Node)
    requires Nodes(m, t) && d in t.at
    ensures Below(ROOT, d)
    decreases d.l
  {
    if d.l > 0 {
      assert Parent(d) in t.at;
      BelowRoot(m, t, Parent(d));
    }
  }

  /** A last-level entry is the entry of some page. */
  lemma SlotIsLeaf(m: Mem, t: Tree, d: Node, i: nat) returns (v: nat)
    requires Nodes(m, t) && d in t.at && d.l == 3 && i < 512
    ensures v < PAGES && Leaf(m, t, v) == Slot(m, t, d, i)
  {
    var d2 := Parent(d);
    assert d2 in t.at;
    var d1 := Parent(d2);
    assert d1 in t.at;
    assert Parent(d1) in t.at;
    assert d1.n / 512 == 0 && d2.n / 512 == d1.n && d.n / 512 == d2.n;
    v := d.n * 512 + i;
    assert v / 512 == d.n && v % 512 == i;
  }

  /** In every space the tables are as freewalk expects them. */
  lemma GoodReady(ph: Phys, s: Space)
    requires Good(ph, s)
    ensures Ready(ph, s.t, ROOT)
  {
    forall d, i | d in s.t.at && 0 <= i < ENTRIES
      ensures match Slot(ph.mem, s.t, d, i)
        case Empty => Child(d, i) !in s.t.at
        case Block => false
        case Link(f, a) => d.l < 3 ==> Child(d, i) in s.t.at && s.t.at[Child(d, i)] == f
    {
      if d.l == 3 {
        var v := SlotIsLeaf(ph.mem, s.t, d, i);
      }
    }
  }

  /** What freewalk demands, said of the whole space: exactly that no page is mapped. */
  lemma CleanIffUnmapped(ph: Phys, s: Space)
    requires Good(ph, s)
    ensures Clean(ph.mem, s.t, ROOT) <==>
      forall v {:trigger Leaf(ph.mem, s.t, v)} :: 0 <= v < PAGES ==> Leaf(ph.mem, s.t, v) == Empty
  {
    if Clean(ph.mem, s.t, ROOT) {
      forall v | 0 <= v < PAGES
        ensures Leaf(ph.mem, s.t, v) == Empty
      {
        CleanMapsNothing(ph, s, v);
      }
    } else if forall v {:trigger Leaf(ph.mem, s.t, v)} :: 0 <= v < PAGES ==> Leaf(ph.mem, s.t, v) == Empty {
      forall d, i | d in s.t.at && d.l == 3 && 0 <= i < ENTRIES
        ensures Slot(ph.mem, s.t, d, i) == Empty
      {
        var v := SlotIsLeaf(ph.mem, s.t, d, i);
      }
    }
  }

  lemma CleanMapsNothing(ph: Phys, s: Space, v: nat)
    requires Good(ph, s) && Clean(ph.mem, s.t, ROOT) && v < PAGES
    ensures Leaf(ph.mem, s.t, v) == Empty
  {
    var d := OnPath(3, v);
    if d in s.t.at {
      BelowRoot(ph.mem, s.t, d);
      assert BlankTable(ph.mem, s.t, d);
      assert Slot(ph.mem, s.t, d, Px(3, v)) == Leaf(ph.mem, s.t, v);
    }
  }

  /** The panic "freewalk: leaf" is for an entry that is valid and has not the tag of a table.  No
      table of any space has one, whatever is mapped: a page carries the tag of a table. */
  lemma LeafPanicIsDead(ph: Phys, s: Space, d: Node, i: nat)
    requires Good(ph, s) && d in s.t.at && i < ENTRIES
    ensures Slot(ph.mem, s.t, d, i) == Empty || Slot(ph.mem, s.t, d, i).Link?
  {
    if d.l == 3 {
      var v := SlotIsLeaf(ph.mem, s.t, d, i);
    }
  }

  /** .. so at a page that is still mapped freewalk goes on into the bytes of the page as if they were a table. */
  lemma MappedPageIsWalked(ph: Phys, s: Space, v: nat)
    requires Good(ph, s) && v < PAGES && Leaf(ph.mem, s.t, v) != Empty
    ensures !Clean(ph.mem, s.t, ROOT)
    ensures OnPath(3, v) in s.t.at
    ensures var p := Slot(ph.mem, s.t, OnPath(3, v), Px(3, v)); p.Link? && IsData(ph.mem, p.frame)
  {
    if Clean(ph.mem, s.t, ROOT) {
      CleanMapsNothing(ph, s, v);
    }
  }

  // A space with a page mapped at 0: frames 0 to 3 are its tables, frame 4 is the page.

  ghost function FiveFrames(): Phys {
    var d := Data(seq(PGSIZE, _ => 0));
    Phys(map[0 := d, 1 := d, 2 := d, 3 := d, 4 := d], [0, 1, 2, 3])
  }

  /** The tables on the way to page 0 are there down to level l, the last one empty. */
  ghost predicate Down(ph: Phys, s: Space, l: nat)
    requires l < 4
  {
    && Good(ph, s) && ph.free == [0, 1, 2, 3][l + 1..] && Loose(ph, s, 4, 1)
    && OnPath(l, 0) in s.t.at && ph.mem[s.t.at[OnPath(l, 0)]] == EmptyTable()
  }

  lemma DownRoot() returns (ph: Phys, s: Space)
    ensures Down(ph, s, 0)
  {
    var ph0 := FiveFrames();
    ph, s := Phys(ph0.mem[0 := EmptyTable()], ph0.free[1..]), Fresh(0);
    FreshGood(ph0, 0, ph);
    assert IsData(ph.mem, 4) && 4 !in ph.free && !Has(ph, s, 4);
    forall g: Frame | 4 <= g < 5
      ensures IsData(ph.mem, g) && !Has(ph, s, g)
    {
      assert g == 4;
    }
  }

  lemma DownStep(ph: Phys, s: Space, l: nat) returns (ph': Phys, s': Space)
    requires l < 3 && Down(ph, s, l)
    ensures Down(ph', s', l + 1)
  {
    hide InnerOk;
    hide LeavesOk;
    hide Leaf;
    var nd, f := OnPath(l, 0), l + 1;
    PathSteps(l, 0);
    assert f == ph.free[0] && f in ph.free && s.t.at[nd] in s.t.node;
    assert Slot(ph.mem, s.t, nd, 0) == Empty;
    GrowGood(ph, s, nd, 0, f);
    ph', s' := GrownPhys(ph, s, nd, 0, f), Space(GrownTree(s.t, nd, 0, f), s.back);
    ExtendMapsNone(ph, s, ph', s', 0, 4, TABLE_ATTR);
    LooseStays(ph, s, ph', s', 0, 4, 0, TABLE_ATTR, 1, 4, 1);
  }

  /** Page 0 can be mapped to frame 4. */
  lemma DownReady(ph: Phys, s: Space)
    requires Down(ph, s, 3)
    ensures Good(ph, s) && HasSlot(ph.mem, s.t, 0) && Leaf(ph.mem, s.t, 0) == Empty && Loose(ph, s, 4, 1)
  {
  }

  /** There are such spaces: freewalk's panic does not catch a page that is still mapped. */
  lemma MappedPageEscapes() returns (ph: Phys, s: Space)
    ensures Good(ph, s) && Leaf(ph.mem, s.t, 0).Link? && !Clean(ph.mem, s.t, ROOT)
    ensures forall d, i {:trigger Slot(ph.mem, s.t, d, i)} :: d in s.t.at && 0 <= i < ENTRIES ==>
      !Slot(ph.mem, s.t, d, i).Block?
  {
    hide Clean;
    hide Wf;
    hide Down;
    hide Leaf;
    hide HasSlot;
    hide Loose;
    var ph1, s1 := DownRoot();
    ph1, s1 := DownStep(ph1, s1, 0);
    ph1, s1 := DownStep(ph1, s1, 1);
    ph1, s1 := DownStep(ph1, s1, 2);
    DownReady(ph1, s1);
    MapGood(ph1, s1, 0, 4, TABLE_ATTR);
    ph, s := SetPhys(ph1, s1, 0, Link(4, TABLE_ATTR)), Mapped(s1, 0, 4);
    MappedPageIsWalked(ph, s, 0);
    forall d, i | d in s.t.at && 0 <= i < ENTRIES {
      LeafPanicIsDead(ph, s, d, i);
    }
  }

  /** uvmfree returned every frame of the space. */
  ghost predicate Returned(ph: Phys, s: Space, ph': Phys) {
    && FreeOk(ph')
    && (forall g: Frame {:trigger g in ph'.free} :: g in ph'.free <==> Has(ph, s, g))
    && (forall g: Frame {:trigger g in ph'.mem} {:trigger ph'.mem[g]} ::
          g in ph.mem && !Has(ph, s, g) ==> g in ph'.mem && ph'.mem[g] == ph.mem[g])
  }

  lemma UnmapThenFree(ph: Phys, s: Space, ph1: Phys, s1: Space, ph2: Phys)
    requires Good(ph1, s1) && Kept(ph, s, ph1, s1) && Freed(ph1, ph2, s1.t, ROOT)
    requires forall v {:trigger Leaf(ph1.mem, s1.t, v)} :: 0 <= v < PAGES ==> Leaf(ph1.mem, s1.t, v) == Empty
    ensures Returned(ph, s, ph2)
  {
    forall g: Frame
      ensures InSub(s1.t, ROOT, g) <==> g in s1.t.node
      ensures g !in s1.back
      ensures Has(ph1, s1, g) <==> Has(ph, s, g)
    {
      if g in s1.t.node {
        BelowRoot(ph1.mem, s1.t, s1.t.node[g]);
      }
    }
    forall g: Frame
      ensures g in ph2.free <==> Has(ph, s, g)
      ensures g in ph.mem && !Has(ph, s, g) ==> g in ph2.mem && ph2.mem[g] == ph.mem[g]
    {
      assert Has(ph1, s1, g) <==> Has(ph, s, g);
    }
  }

  // ---- a space from its creation on ----

  /** Space s was created when ph.free were the free frames: they are still free or in s, and all other
      memory is as it was. */
  ghost predicate Begun(ph: Phys, ph': Phys, s: Space) {
    && (forall g: Frame {:trigger Has(ph', s, g)} :: Has(ph', s, g) <==> g in ph.free)
    && RestSame(ph, ph')
  }

  lemma BegunRest(ph: Phys, ph': Phys, s: Space)
    requires Begun(ph, ph', s)
    ensures RestSame(ph, ph')
  {
  }

  lemma BegunKept(ph: Phys, ph1: Phys, s1: Space, ph2: Phys, s2: Space)
    requires Begun(ph, ph1, s1) && Kept(ph1, s1, ph2, s2)
    ensures Begun(ph, ph2, s2)
  {
    hide Has;
    forall g: Frame
      ensures Has(ph2, s2, g) <==> g in ph.free
      ensures g in ph.mem && g !in ph.free ==> g in ph2.mem && ph2.mem[g] == ph.mem[g]
    {
      assert Has(ph2, s2, g) <==> Has(ph1, s1, g);
      assert g in ph.mem && g !in ph.free ==> g in ph1.mem && ph1.mem[g] == ph.mem[g];
    }
  }

  /** Freed, it leaves the frames that were free free and no others. */
  lemma BegunReturned(ph: Phys, ph1: Phys, s1: Space, ph2: Phys)
    requires Begun(ph, ph1, s1) && Returned(ph1, s1, ph2)
    ensures FreeOk(ph2) && RestSame(ph, ph2)
    ensures forall g: Frame {:trigger g in ph2.free} :: g in ph2.free <==> g in ph.free
  {
    hide Has;
    forall g: Frame
      ensures g in ph2.free <==> g in ph.free
      ensures g in ph.mem && g !in ph.free ==> g in ph2.mem && ph2.mem[g] == ph.mem[g]
    {
      assert Has(ph1, s1, g) <==> g in ph.free;
      assert g in ph.mem && g !in ph.free ==> g in ph1.mem && ph1.mem[g] == ph.mem[g];
    }
  }
}
