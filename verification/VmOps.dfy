/** kernel/vm.c and kernel/kalloc.c: walking, mapping, unmapping and freeing, over the physical
    frames and the free list. */
module VmOps {
  import opened VmState
  import opened VmPhys
  import opened VmView
  import opened VmFree
  import opened VmCopy

  /** A program segment, as exec sees it: where it ends, its flags, and whether reading it fails. */
  datatype Segment = Segment(end: nat, flags: Attr, fails: bool)

  /** What mappages did: everything, out of memory, or the panic "remap". */
  datatype MapResult = Mapped | NoMemory | Remap

  class Machine {
    var mem: Mem
    var free: seq<Frame>

    ghost function Ph(): Phys
      reads this
    {
      Phys(mem, free)
    }

    /** kfree of a frame that is not free yet keeps the free list free of duplicates; it panics exactly for
        a frame outside the memory it manages. */
    method Kfree(f: Frame) returns (panicked: bool)
      requires FreeOk(Ph()) && f !in free
      modifies this`free
      ensures panicked <==> f !in mem
      ensures FreeOk(Ph()) && free == if panicked then old(free) else [f] + old(free)
    {
      panicked := f !in mem;
      if !panicked {
        PushFree(Ph(), mem, f);
        free := [f] + free;
      }
    }

    method Kalloc() returns (ok: bool, f: Frame)
      modifies this
      ensures ok <==> old(free) != []
      ensures ok ==> f == old(free)[0] && Ph() == Taken(old(Ph()))
      ensures !ok ==> Ph() == old(Ph())
    {
      ok := free != [];
      f := 0;
      if ok {
        f := free[0];
        free := free[1..];
        mem := mem[f := Data(seq(PGSIZE, _ => 5))];
      }
    }

    /** One level of walk: from the table at level l to the next one, made if need be. */
    method Step(pde: Frame, l: nat, v: nat, alloc: bool, ghost s: Space)
      returns (ok: bool, next: Frame, ghost s': Space)
      requires Good(Ph(), s) && l < 3 && v < PAGES && OnPath(l, v) in s.t.at && pde == s.t.at[OnPath(l, v)]
      modifies this
      ensures Good(Ph(), s') && Extended(old(Ph()), s, Ph(), s')
      ensures ok ==> OnPath(l + 1, v) in s'.t.at && next == s'.t.at[OnPath(l + 1, v)]
      ensures !ok || !alloc ==> s' == s && Ph() == old(Ph())
      ensures !ok ==> OnPath(l + 1, v) !in s.t.at && (!alloc || free == [])
      ensures |free| >= |old(free)| - 1
    {
      PathSteps(l, v);
      ExtendedRefl(Ph(), s);
      s', next := s, 0;
      var pte := mem[pde].e[Px(l, v)];
      assert pte == Slot(mem, s.t, OnPath(l, v), Px(l, v));
      if pte.Link? {
        ok, next := true, pte.frame;
      } else if alloc {
        ok, next, s' := AddTable(pde, OnPath(l, v), Px(l, v), s);
      } else {
        ok := false;
      }
    }

    /** `pde = kalloc(); memset(pde, 0); *pte = pde | TABLE` */
    method AddTable(pde: Frame, nd: Node, i: nat, ghost s: Space) returns (ok: bool, f: Frame, ghost s': Space)
      requires Good(Ph(), s) && nd in s.t.at && pde == s.t.at[nd]
      requires nd.l < 3 && i < ENTRIES && Slot(mem, s.t, nd, i) == Empty
      modifies this
      ensures Good(Ph(), s') && Extended(old(Ph()), s, Ph(), s')
      ensures ok ==> Child(nd, i) in s'.t.at && f == s'.t.at[Child(nd, i)]
      ensures !ok ==> s' == s && Ph() == old(Ph()) && free == []
      ensures |free| >= |old(free)| - 1
    {
      ghost var ph := Ph();
      s' := s;
      ExtendedRefl(ph, s);
      ok, f := Kalloc();
      if ok {
        mem := mem[f := EmptyTable()];
        assert mem == ph.mem[f := EmptyTable()];
        assert f in ph.free && f != pde;
        mem := mem[pde := Table(mem[pde].e[i := Link(f, TABLE_ATTR)])];
        s' := Space(GrownTree(s.t, nd, i, f), s.back);
        GrowGood(ph, s, nd, i, f);
        assert Ph() == GrownPhys(ph, s, nd, i, f);
      }
    }

    /** walk: the table that holds the entry of page v.  It changes no mapping, and with alloc it
        fails only for lack of memory. */
    method Walk(root: Frame, v: nat, alloc: bool, ghost s: Space)
      returns (ok: bool, pde: Frame, ghost s': Space)
      requires Good(Ph(), s) && v < PAGES && root == s.t.at[ROOT]
      modifies this
      ensures Good(Ph(), s') && Extended(old(Ph()), s, Ph(), s')
      ensures ok ==> HasSlot(mem, s'.t, v) && pde == s'.t.at[OnPath(3, v)]
      ensures !alloc ==> s' == s && Ph() == old(Ph())
      ensures !ok ==> OnPath(3, v) !in s'.t.at && (alloc ==> free == [] && |old(free)| < 3)
      ensures |free| >= |old(free)| - 3
    {
      pde, s', ok := root, s, true;
      ghost var ph0 := Ph();
      ExtendedRefl(ph0, s);
      var l := 0;
      while l < 3
        invariant 0 <= l <= 3 && ok && Good(Ph(), s') && Extended(ph0, s, Ph(), s')
        invariant OnPath(l, v) in s'.t.at && pde == s'.t.at[OnPath(l, v)]
        invariant !alloc ==> s' == s && Ph() == ph0
        invariant |free| >= |ph0.free| - l
      {
        ghost var ph, s1 := Ph(), s';
        ok, pde, s' := Step(pde, l, v, alloc, s');
        ExtendedTrans(ph0, s, ph, s1, Ph(), s');
        if !ok {
          NoTableNoLeaf(mem, s'.t, l + 1, v);
          return;
        }
        l := l + 1;
      }
    }

    /** One turn of mappages's loop. */
    method MapOne(root: Frame, v: nat, f: Frame, a: Attr, ghost s: Space, ghost ph: Phys)
      returns (r: MapResult, ghost s': Space, ghost ph': Phys)
      requires ph == Ph() && Good(ph, s) && v < PAGES && root == s.t.at[ROOT] && Loose(ph, s, f, 1)
      modifies this
      ensures ph' == Ph() && Good(ph', s')
      ensures r.Mapped? ==> MappedRun(ph, s, ph', s', v, f, 1, a)
      ensures !r.Mapped? ==> Extended(ph, s, ph', s')
      ensures r.NoMemory? ==> |ph.free| < 3
      ensures r.Remap? <==> Leaf(ph.mem, s.t, v) != Empty
      ensures |ph'.free| >= |ph.free| - 3
    {
      var ok, pde;
      ok, pde, s' := Walk(root, v, true, s);
      ph' := Ph();
      assert Leaf(ph'.mem, s'.t, v) == Leaf(ph.mem, s.t, v);
      if !ok {
        r := NoMemory;
      } else if mem[pde].e[Px(3, v)] != Empty {
        r := Remap;
      } else {
        ghost var ph1, s1 := ph', s';
        ph', s' := MapOneDone(ph, s, ph1, s1, v, f, a);
        mem := mem[pde := Table(mem[pde].e[Px(3, v) := Link(f, a)])];
        assert Ph() == ph';
        r := MapResult.Mapped;
      }
    }

    /** mappages for n pages from v: maps them in order until memory runs out, or panics at a page
        that is already mapped.  The pages done so far stay mapped. */
    method Mappages(root: Frame, v: nat, f: Frame, n: nat, a: Attr, ghost s: Space, ghost ph: Phys)
      returns (r: MapResult, k: nat, ghost s': Space, ghost ph': Phys)
      requires ph == Ph() && Good(ph, s) && root == s.t.at[ROOT] && 0 < n && v + n <= PAGES && Loose(ph, s, f, n)
      modifies this
      ensures ph' == Ph() && Good(ph', s') && k <= n && MappedRun(ph, s, ph', s', v, f, k, a)
      ensures r.Mapped? <==> k == n
      ensures forall w {:trigger Leaf(ph.mem, s.t, w)} :: v <= w < v + k ==> Leaf(ph.mem, s.t, w) == Empty
      ensures r.Remap? ==> Leaf(ph.mem, s.t, v + k) != Empty
      ensures r.NoMemory? ==> Leaf(ph.mem, s.t, v + k) == Empty && |ph.free| < 3 * n
      ensures |ph'.free| >= |ph.free| - 3 * n
    {
      hide Wf;
      hide Leaf;
      k, s', ph', r := 0, s, ph, MapResult.Mapped;
      MappedNone(ph, s, v, f, a);
      while k < n && r.Mapped?
        invariant 0 <= k <= n && ph' == Ph() && Good(ph', s') && MappedRun(ph, s, ph', s', v, f, k, a)
        invariant forall w {:trigger Leaf(ph.mem, s.t, w)} :: v <= w < v + k ==> Leaf(ph.mem, s.t, w) == Empty
        invariant r.Remap? ==> k < n && Leaf(ph.mem, s.t, v + k) != Empty
        invariant r.NoMemory? ==> k < n && Leaf(ph.mem, s.t, v + k) == Empty && |ph.free| < 3 * k + 3
        invariant |ph'.free| >= |ph.free| - (if r.Mapped? then 3 * k else 3 * k + 3)
        decreases n - k, r.Mapped?
      {
        r, k, s', ph' := MapTurn(root, v, f, n, k, a, s, ph, s', ph');
      }
    }

    method MapTurn(root: Frame, v: nat, f: Frame, n: nat, k: nat, a: Attr,
                   ghost s: Space, ghost ph: Phys, ghost s1: Space, ghost ph1: Phys)
      returns (r: MapResult, k': nat, ghost s2: Space, ghost ph2: Phys)
      requires ph1 == Ph() && Good(ph1, s1) && k < n && v + n <= PAGES && Loose(ph, s, f, n)
      requires MappedRun(ph, s, ph1, s1, v, f, k, a) && root == s1.t.at[ROOT]
      modifies this
      ensures ph2 == Ph() && Good(ph2, s2) && k' == (if r.Mapped? then k + 1 else k)
      ensures MappedRun(ph, s, ph2, s2, v, f, k', a)
      ensures r.Remap? <==> Leaf(ph.mem, s.t, v + k) != Empty
      ensures r.NoMemory? ==> |ph1.free| < 3
      ensures |ph2.free| >= |ph1.free| - 3
    {
      hide Wf;
      hide Leaf;
      var w, g := v + k, f + k;
      assert Leaf(ph1.mem, s1.t, w) == Leaf(ph.mem, s.t, w);
      LooseStays(ph, s, ph1, s1, v, f, k, a, n, g, 1);
      r, s2, ph2 := MapOne(root, w, g, a, s1, ph1);
      k' := k;
      if r.Mapped? {
        k' := k + 1;
        MappedRunMore(ph, s, ph1, s1, ph2, s2, v, f, k, w, g, 1, k', a);
      } else {
        ExtendMapsNone(ph1, s1, ph2, s2, w, g, a);
        MappedRunMore(ph, s, ph1, s1, ph2, s2, v, f, k, w, g, 0, k', a);
      }
    }

    /** uvmcreate */
    method Uvmcreate(ghost ph: Phys) returns (ok: bool, root: Frame, ghost s: Space, ghost ph': Phys)
      requires ph == Ph() && FreeOk(ph)
      modifies this
      ensures ph' == Ph() && (ok <==> ph.free != [])
      ensures !ok ==> ph' == ph
      ensures ok ==> Good(ph', s) && ROOT in s.t.at && s.t.at[ROOT] == root && |ph'.free| == |ph.free| - 1
      ensures ok ==> Sized(ph', s, 0) && Begun(ph, ph', s)
    {
      ok, root := Kalloc();
      s, ph' := Fresh(root), ph;
      if ok {
        mem := mem[root := EmptyTable()];
        ph' := Ph();
        assert ph'.mem == ph.mem[root := EmptyTable()];
        FreshGood(ph, root, ph');
      }
    }

    // ---- unmapping ----

    /** One turn of uvmunmap's loop; it panics at a page that is not mapped. */
    method UnmapOne(root: Frame, v: nat, doFree: bool, ghost s: Space, ghost ph: Phys)
      returns (panicked: bool, ghost s': Space, ghost ph': Phys)
      requires ph == Ph() && Good(ph, s) && v < PAGES && root == s.t.at[ROOT]
      modifies this
      ensures ph' == Ph() && Good(ph', s')
      ensures panicked <==> See(ph.mem, s.t, v) == Hole
      ensures if panicked then s' == s && ph' == ph else Removed(ph, s, ph', s', v, 1, doFree)
    {
      var ok, pde;
      ok, pde, s' := Walk(root, v, false, s);
      ph' := ph;
      MappedIsShown(ph, s, v);
      panicked := true;
      if ok && mem[pde].e[Px(3, v)].Link? {
        panicked := false;
        var f := mem[pde].e[Px(3, v)].frame;
        s' := Unmapped(s, f);
        if doFree {
          ph' := ClearPhys(ph, s, v);
          ClearOne(ph, s, v, f, ph', s');
          var bad := Kfree(f);
        } else {
          ph' := SetPhys(ph, s, v, Empty);
          DetachOne(ph, s, v, f, ph', s');
        }
        mem := mem[pde := Table(mem[pde].e[Px(3, v) := Empty])];
      }
    }

    /** uvmunmap for the n pages from v: it clears them in order, with doFree returns their frames, and
        panics at the first page that is not mapped. */
    method Uvmunmap(root: Frame, v: nat, n: nat, doFree: bool, ghost s: Space, ghost ph: Phys)
      returns (panicked: bool, k: nat, ghost s': Space, ghost ph': Phys)
      requires ph == Ph() && Good(ph, s) && v + n <= PAGES && root == s.t.at[ROOT]
      modifies this
      ensures ph' == Ph() && Good(ph', s') && k <= n && Removed(ph, s, ph', s', v, k, doFree)
      ensures panicked <==> k < n
      ensures panicked ==> See(ph.mem, s.t, v + k) == Hole
      ensures forall w {:trigger See(ph.mem, s.t, w)} :: v <= w < v + k ==> See(ph.mem, s.t, w).Shown?
    {
      hide Good;
      hide See;
      hide Removed;
      panicked, k, s', ph' := false, 0, s, ph;
      RemovedNone(ph, s, v, doFree);
      while k < n && !panicked
        invariant 0 <= k <= n && ph' == Ph() && Good(ph', s') && Removed(ph, s, ph', s', v, k, doFree)
        invariant panicked ==> k < n && See(ph.mem, s.t, v + k) == Hole
        invariant forall w {:trigger See(ph.mem, s.t, w)} :: v <= w < v + k ==> See(ph.mem, s.t, w).Shown?
        decreases n - k, !panicked
      {
        ghost var ph1, s1 := ph', s';
        var w := v + k;
        RemovedElsewhere(ph, s, ph1, s1, v, k, doFree, w);
        panicked, s', ph' := UnmapOne(root, w, doFree, s1, ph1);
        if !panicked {
          var k' := k + 1;
          RemovedMore(ph, s, ph1, s1, ph', s', v, k, w, k', doFree);
          k := k';
        }
      }
    }

    // ---- growing, shrinking, copying ----

    /** kalloc, fill, mappages, and kfree if that fails: one page of uvmalloc and of uvmcopy.  It
        fails only when fewer than four frames are free, and panics only at a page that is mapped. */
    method FillPage(root: Frame, v: nat, a: Attr, b: seq<Byte>, ghost s: Space, ghost ph: Phys)
      returns (r: MapResult, ghost s': Space, ghost ph': Phys)
      requires ph == Ph() && Good(ph, s) && v < PAGES && root == s.t.at[ROOT] && |b| == PGSIZE
      modifies this
      ensures ph' == Ph() && Good(ph', s')
      ensures r.Mapped? ==> See(ph.mem, s.t, v) == Hole && Filled(ph, s, ph', s', v, [Content(a, b)])
      ensures r.Mapped? ==> |ph.free| - 4 <= |ph'.free| < |ph.free|
      ensures r.NoMemory? ==> Filled(ph, s, ph', s', v, []) && |ph.free| < 4
      ensures r.Remap? ==> See(ph.mem, s.t, v).Shown?
    {
      hide Wf;
      hide Leaf;
      hide See;
      s', ph', r := s, ph, NoMemory;
      var ok, f := Kalloc();
      if !ok {
        FilledNone(ph, s, v);
        return;
      }
      mem := mem[f := Data(b)];
      ghost var ph1 := Ph();
      assert ph1.mem == ph.mem[f := Data(b)];
      TakenGood(ph, s, b, f, ph1);
      assert See(ph1.mem, s.t, v) == See(ph.mem, s.t, v);
      MappedIsShown(ph1, s, v);
      var k;
      r, k, s', ph' := Mappages(root, v, f, 1, a, s, ph1);
      if r.Mapped? {
        FillOne(ph, s, b, f, ph1, ph', s', v, a);
      } else if r.NoMemory? {
        ghost var ph2 := ph';
        ph' := Phys(mem, [f] + free);
        PutBack(ph, s, b, f, ph1, ph2, s', ph', v, a);
        var bad := Kfree(f);
      }
    }

    /** uvmdealloc: unmaps the pages above newsz and frees them.  It panics when one of them is not
        mapped, whatever the comment in the source says of an oldsz that is too large; and the int
        npages makes it visit other pages than those when there are 2^31 of them or more. */
    method Uvmdealloc(root: Frame, oldsz: nat, newsz: nat, ghost s: Space, ghost ph: Phys)
      returns (panicked: bool, r: nat, ghost s': Space, ghost ph': Phys)
      requires ph == Ph() && Good(ph, s) && root == s.t.at[ROOT] && PgUp(oldsz) <= PAGES
      modifies this
      ensures ph' == Ph() && Good(ph', s')
      ensures r == if newsz < oldsz then newsz else oldsz
      ensures var n := Visited(PgUp(r), PgUp(oldsz) - PgUp(r));
        && (panicked <==> PgUp(r) + n > PAGES || exists w :: PgUp(r) <= w < PgUp(r) + n && See(ph.mem, s.t, w) == Hole)
        && (!panicked ==> Cleared(ph, s, ph', s', PgUp(r), n))
    {
      hide Good;
      hide See;
      hide Kept;
      s', ph', panicked := s, ph, false;
      r := if newsz < oldsz then newsz else oldsz;
      ClearedNone(ph, s, PgUp(r));
      if newsz < oldsz && PgUp(newsz) < PgUp(oldsz) {
        var k;
        var n := Visited(PgUp(newsz), PgUp(oldsz) - PgUp(newsz));
        if PgUp(newsz) + n > PAGES {
          panicked, k, s', ph' := Uvmunmap(root, PgUp(newsz), PAGES - PgUp(newsz), true, s, ph);
          panicked := true;
        } else {
          panicked, k, s', ph' := Uvmunmap(root, PgUp(newsz), n, true, s, ph);
        }
      }
    }

    /** uvmalloc: zeroed pages with flags a up to newsz; or, out of memory, everything as before.
        It gives up only when fewer than four frames per page were free, and panics only when one of
        the pages is mapped already.  Nothing keeps it below MAXVA, where walk drops the high bits of an
        address and comes back to page 0: that is `past`, and the model stops there.  Memory runs out
        first unless oldsz itself is within FRAMES pages of MAXVA. */
    method Uvmalloc(root: Frame, oldsz: nat, newsz: nat, a: Attr, ghost s: Space, ghost ph: Phys)
      returns (panicked: bool, past: bool, r: nat, ghost s': Space, ghost ph': Phys)
      requires ph == Ph() && Good(ph, s) && root == s.t.at[ROOT] && |ph.free| <= FRAMES
      modifies this
      ensures ph' == Ph() && Good(ph', s')
      ensures newsz < oldsz ==> !panicked && !past && r == oldsz && s' == s && ph' == ph
      ensures past ==> !panicked && PAGES < PgUp(newsz) && PAGES <= PgUp(oldsz) + |ph.free|
      ensures past ==> forall w {:trigger See(ph.mem, s.t, w)} :: PgUp(oldsz) <= w < PAGES ==>
        See(ph.mem, s.t, w) == Hole
      ensures panicked ==> exists w :: PgUp(oldsz) <= w < PgUp(newsz) && w < PAGES && See(ph.mem, s.t, w).Shown?
      ensures newsz >= oldsz && !panicked && !past ==>
        || (r == newsz && Grown(ph, s, ph', s', PgUp(oldsz), PgUp(newsz), a))
        || (r == 0 && Kept(ph, s, ph', s') && SameViews(ph, s, ph', s') && |ph.free| < 4 * (PgUp(newsz) - PgUp(oldsz)))
    {
      hide Good;
      hide See;
      hide Kept;
      s', ph', panicked, past := s, ph, false, false;
      if newsz < oldsz {
        return false, false, oldsz, s', ph';
      }
      var v, k, res := PgUp(oldsz), 0, MapResult.Mapped;
      FilledNone(ph, s, v);
      assert Zeroed(a, 0) == [];
      while (v + k) * 4096 < newsz
        invariant v + k <= PgUp(newsz) && ph' == Ph() && Good(ph', s') && Filled(ph, s, ph', s', v, Zeroed(a, k))
        invariant |ph.free| - 4 * k <= |ph'.free| <= |ph.free| - k
        invariant forall w {:trigger See(ph.mem, s.t, w)} :: v <= w < v + k && w < PAGES ==> See(ph.mem, s.t, w) == Hole
      {
        if v + k >= PAGES {
          return false, true, 0, s', ph';
        }
        ghost var ph1, s1 := ph', s';
        assert See(ph1.mem, s1.t, v + k) == See(ph.mem, s.t, v + k);
        res, s', ph' := FillPage(root, v + k, a, ZeroPage(), s1, ph1);
        if res.Remap? {
          return true, false, 0, s', ph';
        }
        if res.NoMemory? {
          s', ph' := GrowFails(root, v, k, s, ph, s1, ph1, s', ph', Zeroed(a, k));
          return false, false, 0, s', ph';
        }
        ZeroedMore(a, k);
        FilledMore(ph, s, ph1, s1, ph', s', v, Zeroed(a, k), v + k, [Content(a, ZeroPage())], Zeroed(a, k + 1));
        k := k + 1;
      }
      r := newsz;
    }

    /** uvmalloc without memory: uvmdealloc takes back the k pages from v on. */
    method GrowFails(root: Frame, v: nat, k: nat, ghost s: Space, ghost ph: Phys, ghost s1: Space, ghost ph1: Phys,
                     ghost s2: Space, ghost ph2: Phys, ghost want: seq<Content>)
      returns (ghost s': Space, ghost ph': Phys)
      requires ph2 == Ph() && v + k <= PAGES && k <= FRAMES && |want| == k
      requires Filled(ph, s, ph1, s1, v, want) && Filled(ph1, s1, ph2, s2, v + k, [])
      requires Good(ph2, s2) && ROOT in s2.t.at && root == s2.t.at[ROOT]
      requires forall w {:trigger See(ph.mem, s.t, w)} :: v <= w < v + k && w < PAGES ==> See(ph.mem, s.t, w) == Hole
      modifies this
      ensures ph' == Ph() && Good(ph', s') && Kept(ph, s, ph', s') && SameViews(ph, s, ph', s')
    {
      hide Good;
      hide See;
      hide Kept;
      VisitedAll(v, k);
      var panicked, r;
      FilledShown(ph, s, ph1, s1, ph2, s2, v, k, want);
      panicked, r, s', ph' := Uvmdealloc(root, (v + k) * 4096, v * 4096, s2, ph2);
      Reverted(ph, s, ph1, s1, ph2, s2, ph', s', v, want, v + k);
    }

    /** walk without alloc, and the entry it finds. */
    method Lookup(root: Frame, v: nat, ghost s: Space, ghost ph: Phys) returns (ok: bool, f: Frame, a: Attr)
      requires ph == Ph() && Good(ph, s) && v < PAGES && root == s.t.at[ROOT]
      modifies this
      ensures ph == Ph()
      ensures if ok then IsData(ph.mem, f) && See(ph.mem, s.t, v) == Shown(f, a, ph.mem[f].b)
        else See(ph.mem, s.t, v) == Hole
    {
      var pde;
      ghost var s';
      ok, pde, s' := Walk(root, v, false, s);
      MappedIsShown(ph, s, v);
      f, a := 0, TABLE_ATTR;
      ok := ok && mem[pde].e[Px(3, v)].Link?;
      if ok {
        f, a := mem[pde].e[Px(3, v)].frame, mem[pde].e[Px(3, v)].attr;
      }
    }

    /** uvmcopy: the child gets the parent's pages below size, with their permissions, on frames of
        its own; or, out of memory, the child is as before.  It panics only at a page that the parent
        has not mapped or the child has.  The parent never changes. */
    method Uvmcopy(parent: Frame, child: Frame, size: nat, ghost o: Space, ghost s: Space, ghost ph: Phys)
      returns (panicked: bool, ok: bool, ghost s': Space, ghost ph': Phys)
      requires ph == Ph() && Good(ph, o) && Good(ph, s) && Apart(ph, s, o)
      requires parent == o.t.at[ROOT] && child == s.t.at[ROOT] && PgUp(size) <= PAGES
      modifies this
      ensures ph' == Ph() && Good(ph', s')
      ensures panicked ==>
        exists w :: 0 <= w < PgUp(size) && (See(ph.mem, o.t, w) == Hole || See(ph.mem, s.t, w).Shown?)
      ensures !panicked ==> Kept(ph, s, ph', s') && Good(ph', o) && Apart(ph', s', o) && SameViews(ph, o, ph', o)
      ensures !panicked && ok ==> Duplicated(ph, o, ph', s', PgUp(size))
      ensures !panicked && ok ==>
        forall w {:trigger See(ph.mem, s.t, w)} {:trigger See(ph'.mem, s'.t, w)} :: 0 <= w < PAGES ==>
        if w < PgUp(size) then See(ph.mem, s.t, w) == Hole else See(ph'.mem, s'.t, w) == See(ph.mem, s.t, w)
      ensures !panicked && !ok ==> SameViews(ph, s, ph', s') && |ph.free| < 4 * PgUp(size)
    {
      hide Good;
      hide See;
      hide Kept;
      hide Apart;
      s', ph', panicked, ok := s, ph, false, true;
      var i := 0;
      ghost var want: seq<Content> := [];
      FilledNone(ph, s, 0);
      while i * 4096 < size
        invariant ok && !panicked && i <= PgUp(size) && ph' == Ph() && Good(ph', s') && Filled(ph, s, ph', s', 0, want)
        invariant |want| == i && Wants(ph, o, want)
        invariant Good(ph', o) && Apart(ph', s', o) && SameViews(ph, o, ph', o)
        invariant |ph'.free| >= |ph.free| - 4 * i
        invariant forall w {:trigger See(ph.mem, s.t, w)} :: 0 <= w < i ==> See(ph.mem, s.t, w) == Hole
      {
        ghost var ph1, s1 := ph', s';
        assert See(ph1.mem, o.t, i) == See(ph.mem, o.t, i);
        assert See(ph1.mem, s1.t, i) == See(ph.mem, s.t, i);
        var found, f, a := Lookup(parent, i, o, ph1);
        if !found {
          panicked := true;
          return;
        }
        var b := mem[f].b;
        var r;
        r, s', ph' := FillPage(child, i, a, b, s1, ph1);
        if r.Remap? {
          panicked := true;
          return;
        }
        OtherStays(ph, ph1, s1, ph', s', o);
        if r.NoMemory? {
          ok, s', ph' := CopyFails(child, i, o, s, ph, s1, ph1, s', ph', want);
          return;
        }
        FilledMore(ph, s, ph1, s1, ph', s', 0, want, i, [Content(a, b)], want + [Content(a, b)]);
        want, i := want + [Content(a, b)], i + 1;
      }
      FilledDuplicates(ph, s, o, ph', s', want);
    }

    /** uvmcopy's `err`: the i pages copied so far are taken back. */
    method CopyFails(child: Frame, i: nat, ghost o: Space, ghost s: Space, ghost ph: Phys, ghost s1: Space,
                     ghost ph1: Phys,
                     ghost s2: Space, ghost ph2: Phys, ghost want: seq<Content>)
      returns (ok: bool, ghost s': Space, ghost ph': Phys)
      requires ph2 == Ph() && i <= PAGES && |want| == i
      requires Filled(ph, s, ph1, s1, 0, want) && Filled(ph1, s1, ph2, s2, i, [])
      requires Good(ph2, s2) && child == s2.t.at[ROOT] && Good(ph2, o) && Apart(ph2, s2, o) && SameViews(ph, o, ph2, o)
      requires forall w {:trigger See(ph.mem, s.t, w)} :: 0 <= w < i ==> See(ph.mem, s.t, w) == Hole
      modifies this
      ensures !ok && ph' == Ph() && Good(ph', s') && Kept(ph, s, ph', s') && SameViews(ph, s, ph', s')
      ensures Good(ph', o) && Apart(ph', s', o) && SameViews(ph, o, ph', o)
    {
      hide Good;
      hide See;
      hide Kept;
      hide Apart;
      var panicked, k;
      ok := false;
      FilledShown(ph, s, ph1, s1, ph2, s2, 0, i, want);
      panicked, k, s', ph' := Uvmunmap(child, 0, i, true, s2, ph2);
      OtherStays(ph, ph2, s2, ph', s', o);
      Reverted(ph, s, ph1, s1, ph2, s2, ph', s', 0, want, i);
    }

    // ---- freeing a space ----

    /** freewalk: the tables at and below nd go to the free list, each once.  If a page is still mapped
        below nd it comes to it, takes it for a table and goes on into its bytes: that is `stray`, and
        the model stops there. */
    method Freewalk(f: Frame, ghost nd: Node, ghost t: Tree, l: nat, ghost ph: Phys)
      returns (stray: bool, ghost ph': Phys)
      requires ph == Ph() && Ready(ph, t, nd) && f == t.at[nd] && l == nd.l
      modifies this
      ensures ph' == Ph() && (stray <==> !Clean(ph.mem, t, nd))
      ensures !stray ==> Freed(ph, ph', t, nd)
      decreases 4 - nd.l
    {
      hide Tabled;
      hide Clean;
      hide CleanAt;
      FreedNone(ph, t, nd);
      CleanParts(ph.mem, t, nd);
      ph', stray := ph, false;
      var i := 0;
      while i < 512 && !stray
        invariant 0 <= i <= 512 && ph' == Ph()
        invariant if stray then !Clean(ph.mem, t, nd) else FreedUpTo(ph, ph', t, nd, i)
        invariant !stray ==> forall j {:trigger CleanAt(ph.mem, t, nd, j)} :: 0 <= j < i ==> CleanAt(ph.mem, t, nd, j)
        decreases 512 - i, !stray
      {
        stray, ph' := FreeEntry(f, i, nd, t, l, ph, ph');
        if !stray {
          i := i + 1;
        }
      }
      if !stray {
        ghost var ph1 := ph';
        NotYetFreed(ph, ph1, t, nd);
        var bad := Kfree(f);
        ph' := Ph();
        FreedAll(ph, ph1, ph', t, nd);
      }
    }

    /** One turn of its loop. */
    method FreeEntry(f: Frame, i: nat, ghost nd: Node, ghost t: Tree, l: nat, ghost ph: Phys, ghost ph1: Phys)
      returns (stray: bool, ghost ph': Phys)
      requires ph1 == Ph() && Ready(ph, t, nd) && f == t.at[nd] && l == nd.l && i < 512 && FreedUpTo(ph, ph1, t, nd, i)
      modifies this
      ensures ph' == Ph()
      ensures if stray then !Clean(ph.mem, t, nd) else FreedUpTo(ph, ph', t, nd, i + 1) && CleanAt(ph.mem, t, nd, i)
      decreases 4 - nd.l, 0
    {
      hide Clean;
      ph', stray := ph1, false;
      assert Below(nd, nd);
      CleanParts(ph.mem, t, nd);
      var pte := mem[f].e[i];
      assert pte == Slot(ph.mem, t, nd, i);
      if pte.Link? {
        if l == 3 {
          assert !CleanAt(ph.mem, t, nd, i);
          stray := true;
          return;
        }
        ChildReady(ph, ph1, t, nd, i);
        ghost var ph2;
        stray, ph2 := Freewalk(pte.frame, Child(nd, i), t, l + 1, ph1);
        if stray {
          assert !CleanAt(ph.mem, t, nd, i);
          ph' := ph2;
          return;
        }
        assert !InSub(t, Child(nd, i), f);
        mem := mem[f := Table(mem[f].e[i := Empty])];
        ph' := Ph();
        FreedMore(ph, ph1, ph2, ph', t, nd, i, f);
      } else {
        SkipEmpty(ph, ph1, t, nd, i);
      }
    }

    /** uvmfree: every frame of the space, data and tables, is on the free list afterwards, once.  It
        panics exactly when a page below size is not mapped, and freewalk goes astray exactly when one
        at or above size is. */
    method Uvmfree(root: Frame, size: nat, ghost s: Space, ghost ph: Phys)
      returns (panicked: bool, stray: bool, ghost ph': Phys)
      requires ph == Ph() && Good(ph, s) && root == s.t.at[ROOT] && PgUp(size) <= PAGES
      modifies this
      ensures ph' == Ph()
      ensures panicked <==> exists w :: 0 <= w < PgUp(size) && See(ph.mem, s.t, w) == Hole
      ensures stray <==> !panicked && exists w :: PgUp(size) <= w < PAGES && See(ph.mem, s.t, w).Shown?
      ensures !panicked && !stray ==> Returned(ph, s, ph')
    {
      hide Wf;
      hide Leaf;
      hide See;
      hide Kept;
      hide Ready;
      hide Clean;
      ghost var ph1, s1 := ph, s;
      ClearedNone(ph, s, 0);
      panicked, stray := false, false;
      if size > 0 {
        var k;
        panicked, k, s1, ph1 := Uvmunmap(root, 0, PgUp(size), true, s, ph);
      }
      if panicked {
        return true, false, ph1;
      }
      forall v | 0 <= v < PAGES
        ensures Leaf(ph1.mem, s1.t, v) != Empty <==> PgUp(size) <= v && See(ph.mem, s.t, v).Shown?
      {
        assert See(ph1.mem, s1.t, v) == if 0 <= v < PgUp(size) then Hole else See(ph.mem, s.t, v);
        MappedIsShown(ph1, s1, v);
      }
      GoodReady(ph1, s1);
      CleanIffUnmapped(ph1, s1);
      stray, ph' := Freewalk(root, ROOT, s1.t, 0, ph1);
      if !stray {
        UnmapThenFree(ph, s, ph1, s1, ph');
      }
    }

    // ---- exec ----

    /** exec's new address space: uvmcreate, then uvmalloc up to the end of each segment, each of which
        may also fail to load; a failure ends in uvmfree with the size reached.  A failed exec leaves
        free the frames that were free and changes no other, and none of the panics can occur. */
    method ExecSpace(segs: seq<Segment>, ghost ph: Phys)
      returns (ok: bool, root: Frame, size: nat, ghost s: Space, ghost ph': Phys)
      requires ph == Ph() && FreeOk(ph) && |ph.free| <= FRAMES
      modifies this
      ensures ph' == Ph() && FreeOk(ph')
      ensures ok ==> Good(ph', s) && ROOT in s.t.at && root == s.t.at[ROOT] && Sized(ph', s, PgUp(size))
      ensures ok ==> forall i {:trigger segs[i]} :: 0 <= i < |segs| ==> segs[i].end <= size && !segs[i].fails
      ensures !ok ==> forall g: Frame {:trigger g in ph'.free} :: g in ph'.free <==> g in ph.free
      ensures RestSame(ph, ph')
    {
      hide Good;
      hide See;
      hide Kept;
      hide Has;
      hide Begun;
      size := 0;
      ok, root, s, ph' := Uvmcreate(ph);
      if !ok {
        return;
      }
      GoodParts(ph', s);
      var i := 0;
      while i < |segs|
        invariant 0 <= i <= |segs| && ok && ph' == Ph() && Good(ph', s)
        invariant ROOT in s.t.at && root == s.t.at[ROOT] && Sized(ph', s, PgUp(size))
        invariant Begun(ph, ph', s) && PgUp(size) + |ph'.free| <= FRAMES
        invariant forall j {:trigger segs[j]} :: 0 <= j < i ==> segs[j].end <= size && !segs[j].fails
      {
        ok, size, s, ph' := ExecGrow(segs[i], root, size, s, ph, ph');
        if !ok {
          ph' := ExecFails(root, size, s, ph, ph');
          return;
        }
        i := i + 1;
      }
      GoodParts(ph', s);
      BegunRest(ph, ph', s);
    }

    /** exec's `bad`. */
    method ExecFails(root: Frame, size: nat, ghost s: Space, ghost ph: Phys, ghost ph1: Phys) returns (ghost ph': Phys)
      requires ph1 == Ph() && Good(ph1, s) && root == s.t.at[ROOT] && Sized(ph1, s, PgUp(size)) && PgUp(size) <= PAGES
      requires Begun(ph, ph1, s)
      modifies this
      ensures ph' == Ph() && FreeOk(ph') && forall g: Frame {:trigger g in ph'.free} :: g in ph'.free <==> g in ph.free
      ensures RestSame(ph, ph')
    {
      hide Good;
      hide See;
      hide Has;
      hide Returned;
      var panicked, stray;
      panicked, stray, ph' := Uvmfree(root, size, s, ph1);
      BegunReturned(ph, ph1, s, ph');
    }

    method ExecGrow(g: Segment, root: Frame, size: nat, ghost s: Space, ghost ph: Phys, ghost ph1: Phys)
      returns (ok: bool, size': nat, ghost s': Space, ghost ph': Phys)
      requires ph1 == Ph() && Good(ph1, s) && root == s.t.at[ROOT] && Sized(ph1, s, PgUp(size))
      requires Begun(ph, ph1, s) && PgUp(size) + |ph1.free| <= FRAMES
      modifies this
      ensures ph' == Ph() && Good(ph', s') && ROOT in s'.t.at && root == s'.t.at[ROOT]
      ensures Sized(ph', s', PgUp(size')) && Begun(ph, ph', s')
      ensures PgUp(size') <= FRAMES
      ensures ok ==> g.end <= size' && size <= size' && !g.fails && PgUp(size') + |ph'.free| <= FRAMES
    {
      hide Good;
      hide See;
      hide Kept;
      hide Has;
      var panicked, past, r;
      panicked, past, r, s', ph' := Uvmalloc(root, size, g.end, g.flags, s, ph1);
      size' := size;
      if g.end < size {
        ok := !g.fails;
        GoodParts(ph', s');
        return;
      }
      if Grown(ph1, s, ph', s', PgUp(size), PgUp(g.end), g.flags) {
        GrownSized(ph1, s, ph', s', PgUp(size), PgUp(g.end), g.flags);
      } else {
        SameSized(ph1, s, ph', s', PgUp(size));
      }
      BegunKept(ph, ph1, s, ph', s');
      KeptRoot(ph1, s, ph', s');
      ok := r != 0 && !g.fails;
      if r != 0 {
        size' := r;
      }
    }

    // ---- copying ----

    method Walkaddr(root: Frame, va: nat, ghost s: Space, ghost ph: Phys) returns (ok: bool, f: Frame)
      requires ph == Ph() && Good(ph, s) && root == s.t.at[ROOT]
      modifies this
      ensures ph == Ph()
      ensures ok <==> Accessible(ph, s, va)
      ensures ok ==> IsData(ph.mem, f) && See(ph.mem, s.t, va / 4096).frame == f
    {
      ok, f := false, 0;
      if va < MAXVA {
        var a;
        ok, f, a := Lookup(root, va / 4096, s, ph);
        ok := ok && a.user;
      }
    }

    /** copyout: writes src at va page by page, and stops with an error at the first page a user
        may not touch. */
    method Copyout(root: Frame, va: nat, src: seq<Byte>, ghost s: Space, ghost ph: Phys)
      returns (ok: bool, k: nat, ghost ph': Phys)
      requires ph == Ph() && Good(ph, s) && root == s.t.at[ROOT]
      modifies this
      ensures ph' == Ph() && Good(ph', s) && k <= |src| && Wrote(ph, s, ph', va, src[..k])
      ensures ok <==> k == |src|
      ensures AccessibleRange(ph, s, va, k)
      ensures !ok ==> !Accessible(ph, s, va + k)
    {
      hide Good;
      hide Leaf;
      hide At;
      hide Accessible;
      hide See;
      ok, k, ph' := true, 0, ph;
      WroteNone(ph, s, va);
      while k < |src| && ok
        invariant 0 <= k <= |src| && ph' == Ph() && Good(ph', s) && Wrote(ph, s, ph', va, src[..k])
        invariant AccessibleRange(ph, s, va, k)
        invariant !ok ==> k < |src| && !Accessible(ph, s, va + k)
        decreases |src| - k, ok
      {
        ghost var ph1 := ph';
        var w := va + k;
        assert Accessible(ph1, s, w) <==> Accessible(ph, s, w);
        var f;
        ok, f := Walkaddr(root, w, s, ph1);
        if ok {
          var off := w % 4096;
          var n := if 4096 - off > |src| - k then |src| - k else 4096 - off;
          mem := mem[f := Data(Spliced(mem[f].b, off, src[k..k + n]))];
          ph' := Ph();
          PokeWrote(ph1, s, w, f, src[k..k + n], ph');
          WroteMore(ph, s, ph1, ph', va, src[..k], w, src[k..k + n], src[..k + n]);
          OnePage(ph, s, va, k, n);
          k := k + n;
        }
      }
    }

    /** copyin: the bytes at va, up to the first page a user may not touch. */
    method Copyin(root: Frame, va: nat, len: nat, ghost s: Space, ghost ph: Phys) returns (ok: bool, dst: seq<Byte>)
      requires ph == Ph() && Good(ph, s) && root == s.t.at[ROOT]
      modifies this
      ensures ph == Ph()
      ensures |dst| <= len && Reads(ph, s, va, dst)
      ensures ok <==> |dst| == len
      ensures AccessibleRange(ph, s, va, |dst|)
      ensures !ok ==> !Accessible(ph, s, va + |dst|)
    {
      hide Good;
      hide At;
      hide Accessible;
      hide See;
      ok, dst := true, [];
      while |dst| < len && ok
        invariant |dst| <= len && ph == Ph() && Reads(ph, s, va, dst)
        invariant AccessibleRange(ph, s, va, |dst|)
        invariant !ok ==> |dst| < len && !Accessible(ph, s, va + |dst|)
        decreases len - |dst|, ok
      {
        var k := |dst|;
        var w := va + k;
        var f;
        ok, f := Walkaddr(root, w, s, ph);
        if ok {
          var off := w % 4096;
          var n := if 4096 - off > len - k then len - k else 4096 - off;
          PeekReads(ph, s, w, f, n, mem[f].b[off..off + n]);
          ReadsMore(ph, s, va, dst, w, mem[f].b[off..off + n]);
          OnePage(ph, s, va, k, n);
          dst := dst + mem[f].b[off..off + n];
        }
      }
    }
  }
}
