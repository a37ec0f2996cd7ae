/** Four-level page tables of kernel/vm.c in physical page frames (the 4KB granule of VMSAv8-64).

    A frame holds a table of 512 entries or 4096 bytes of data.  A valid entry that is not a block
    is a `Link`: tables and pages share that one tag, and only the level tells them apart.

    `Space` is the ghost view of one user address space: `at` gives the frame of each table node,
    `node` is its inverse, and `back` gives for each data frame the page that maps it.  Node (l, n)
    is the table at level l on the way to the pages whose number starts with n. */
module VmState {
  import opened Collections

  const ENTRIES: nat := 512
  const PGSIZE: nat := 4096
  const PAGES: nat := 0x10_0000_0000        // MAXVA / PGSIZE

  type Frame = nat
  type Byte = int

  /** The permission bits that vm.c sets and tests: AP_USER, AP_RO, PXN, UXN. */
  datatype Attr = Attr(user: bool, readonly: bool, pxn: bool, uxn: bool)
  datatype Pte = Empty | Block | Link(frame: Frame, attr: Attr)
  datatype Page = Table(e: seq<Pte>) | Data(b: seq<Byte>)
  type Mem = map<Frame, Page>

  datatype Node = Node(l: nat, n: nat)
  datatype Tree = Tree(at: map<Node, Frame>, node: map<Frame, Node>)
  datatype Space = Space(t: Tree, back: map<Frame, nat>)

  /** An entry for a table is V2P(pde) | MM_TYPE_TABLE: no permission bits. */
  const TABLE_ATTR: Attr := Attr(false, false, false, false)
  const ROOT: Node := Node(0, 0)

  // ---- indices ----

  /** PX(level, vaddr) for page number v. */
  function Px(l: nat, v: nat): (i: nat)
    requires l < 4 && v < PAGES
    ensures i < 512
  {
    if l == 0 then v / 134217728
    else if l == 1 then v / 262144 % 512
    else if l == 2 then v / 512 % 512
    else v % 512
  }

  /** The table that a walk for page v visits at level l. */
  function OnPath(l: nat, v: nat): Node
    requires l < 4 && v < PAGES
  {
    if l == 0 then ROOT
    else if l == 1 then Node(1, v / 134217728)
    else if l == 2 then Node(2, v / 262144)
    else Node(3, v / 512)
  }

  function Child(nd: Node, i: nat): Node {
    Node(nd.l + 1, nd.n * 512 + i)
  }

  function Parent(nd: Node): Node
    requires nd.l > 0
  {
    Node(nd.l - 1, nd.n / 512)
  }

  lemma PathSteps(l: nat, v: nat)
    requires l < 3 && v < PAGES
    ensures OnPath(l + 1, v) == Child(OnPath(l, v), Px(l, v))
  {
    var q3 := v / 512;
    var q2 := q3 / 512;
    var q1 := q2 / 512;
    assert v == 512 * q3 + v % 512 && q3 == 512 * q2 + q3 % 512 && q2 == 512 * q1 + q2 % 512;
    Quotient(v, 262144, q2, 512 * (q3 % 512) + v % 512);
    Quotient(v, 134217728, q1, 262144 * (q2 % 512) + 512 * (q3 % 512) + v % 512);
    assert q1 < 512;
  }

  lemma SlotDeterminesPage(v: nat, w: nat)
    requires v < PAGES && w < PAGES && OnPath(3, v) == OnPath(3, w) && Px(3, v) == Px(3, w)
    ensures v == w
  {
  }

  // ---- well-formed spaces ----

  predicate IsTable(m: Mem, f: Frame) {
    f in m && m[f].Table? && |m[f].e| == ENTRIES
  }

  predicate IsData(m: Mem, f: Frame) {
    f in m && m[f].Data? && |m[f].b| == PGSIZE
  }

  ghost predicate Nodes(m: Mem, t: Tree) {
    && ROOT in t.at
    && (forall nd :: nd in t.at ==>
          && nd.l < 4 && (nd.l == 0 ==> nd == ROOT)
          && t.at[nd] in t.node && t.node[t.at[nd]] == nd && IsTable(m, t.at[nd]))
    && (forall nd {:trigger Parent(nd)} :: nd in t.at && nd.l > 0 ==> Parent(nd) in t.at)
    && (forall f :: f in t.node ==> t.node[f] in t.at && t.at[t.node[f]] == f)
  }

  /** Entry i of the table at node nd. */
  function Slot(m: Mem, t: Tree, nd: Node, i: nat): Pte
    requires nd in t.at && IsTable(m, t.at[nd]) && i < ENTRIES
  {
    m[t.at[nd]].e[i]
  }

  /** An inner entry is empty or links to the table of its child. */
  ghost predicate InnerOk(m: Mem, t: Tree)
    requires Nodes(m, t)
  {
    forall nd, i {:trigger Slot(m, t, nd, i)} :: nd in t.at && nd.l < 3 && 0 <= i < ENTRIES ==>
      match Slot(m, t, nd, i)
      case Empty => Child(nd, i) !in t.at
      case Block => false
      case Link(f, a) => Child(nd, i) in t.at && t.at[Child(nd, i)] == f
  }

  /** What the space maps page v to. */
  function Leaf(m: Mem, t: Tree, v: nat): Pte
    requires v < PAGES
  {
    var nd := OnPath(3, v);
    if nd in t.at && IsTable(m, t.at[nd]) then m[t.at[nd]].e[Px(3, v)] else Empty
  }

  /** Each mapped page has a data frame of its own, and no other frames are counted as data. */
  ghost predicate LeavesOk(m: Mem, s: Space) {
    && (forall v {:trigger Leaf(m, s.t, v)} :: 0 <= v < PAGES ==>
          match Leaf(m, s.t, v)
          case Empty => true
          case Block => false
          case Link(f, a) => f in s.back && s.back[f] == v)
    && (forall f :: f in s.back ==>
          && s.back[f] < PAGES && Leaf(m, s.t, s.back[f]).Link? && Leaf(m, s.t, s.back[f]).frame == f
          && IsData(m, f) && f !in s.t.node)
  }

  ghost predicate Wf(m: Mem, s: Space) {
    Nodes(m, s.t) && InnerOk(m, s.t) && LeavesOk(m, s)
  }

  ghost predicate SameLeaves(m: Mem, t: Tree, m': Mem, t': Tree) {
    forall v {:trigger Leaf(m', t', v)} :: 0 <= v < PAGES ==> Leaf(m', t', v) == Leaf(m, t, v)
  }

  // ---- the hardware's view ----

  /** The entry the MMU reaches for page v from the table in frame f at level l. */
  function MmuWalk(m: Mem, f: Frame, l: nat, v: nat): Pte
    requires l < 4 && v < PAGES
    decreases 4 - l
  {
    if !IsTable(m, f) then Empty
    else if l == 3 then m[f].e[Px(3, v)]
    else if m[f].e[Px(l, v)].Link? then MmuWalk(m, m[f].e[Px(l, v)].frame, l + 1, v)
    else Empty
  }

  /** The ghost view is the hardware's: for every page the MMU finds what `Leaf` says. */
  lemma {:induction false} MmuFindsLeaf(m: Mem, t: Tree, l: nat, v: nat)
    requires Nodes(m, t) && InnerOk(m, t) && l < 4 && v < PAGES && OnPath(l, v) in t.at
    ensures MmuWalk(m, t.at[OnPath(l, v)], l, v) == Leaf(m, t, v)
    decreases 4 - l
  {
    if l < 3 {
      var nd, i := OnPath(l, v), Px(l, v);
      PathSteps(l, v);
      assert Slot(m, t, nd, i) == m[t.at[nd]].e[i];
      if Slot(m, t, nd, i).Link? {
        MmuFindsLeaf(m, t, l + 1, v);
      } else {
        NoTableNoLeaf(m, t, l + 1, v);
      }
    }
  }

  /** A missing table on the path leaves the page unmapped. */
  lemma {:induction false} NoTableNoLeaf(m: Mem, t: Tree, l: nat, v: nat)
    requires Nodes(m, t) && InnerOk(m, t) && 0 < l < 4 && v < PAGES && OnPath(l, v) !in t.at
    ensures OnPath(3, v) !in t.at && Leaf(m, t, v) == Empty
    decreases 4 - l
  {
    if l < 3 {
      PathSteps(l, v);
      Orphan(m, t, OnPath(l, v), Px(l, v));
      NoTableNoLeaf(m, t, l + 1, v);
    }
  }

  lemma Orphan(m: Mem, t: Tree, nd: Node, i: nat)
    requires Nodes(m, t) && InnerOk(m, t) && nd !in t.at && 0 < nd.l < 3 && i < ENTRIES
    ensures Child(nd, i) !in t.at
  {
    assert Parent(Child(nd, i)) == nd;
  }

  // ---- a new table ----

  predicate CanGrow(m: Mem, t: Tree, nd: Node, i: nat, f: Frame) {
    && nd in t.at && IsTable(m, t.at[nd]) && nd.l < 3 && i < ENTRIES && Slot(m, t, nd, i) == Empty
    && f !in t.node
  }

  function EmptyTable(): (p: Page)
    ensures p.Table? && |p.e| == ENTRIES && forall i :: 0 <= i < ENTRIES ==> p.e[i] == Empty
  {
    Table(seq(ENTRIES, _ => Empty))
  }

  function GrownMem(m: Mem, t: Tree, nd: Node, i: nat, f: Frame): Mem
    requires CanGrow(m, t, nd, i, f)
  {
    m[f := EmptyTable()][t.at[nd] := Table(m[t.at[nd]].e[i := Link(f, TABLE_ATTR)])]
  }

  function GrownTree(t: Tree, nd: Node, i: nat, f: Frame): Tree {
    Tree(t.at[Child(nd, i) := f], t.node[f := Child(nd, i)])
  }

  lemma GrowNodes(m: Mem, t: Tree, nd: Node, i: nat, f: Frame)
    requires Nodes(m, t) && InnerOk(m, t) && CanGrow(m, t, nd, i, f)
    ensures Nodes(GrownMem(m, t, nd, i, f), GrownTree(t, nd, i, f)) && Child(nd, i) !in t.at
  {
    assert Parent(Child(nd, i)) == nd;
  }

  lemma GrowInner(m: Mem, t: Tree, nd: Node, i: nat, f: Frame)
    requires Nodes(m, t) && InnerOk(m, t) && CanGrow(m, t, nd, i, f)
    ensures Nodes(GrownMem(m, t, nd, i, f), GrownTree(t, nd, i, f))
    ensures InnerOk(GrownMem(m, t, nd, i, f), GrownTree(t, nd, i, f))
  {
    GrowNodes(m, t, nd, i, f);
    var m', t' := GrownMem(m, t, nd, i, f), GrownTree(t, nd, i, f);
    forall nd', i' | nd' in t'.at && nd'.l < 3 && 0 <= i' < ENTRIES
      ensures match Slot(m', t', nd', i')
        case Empty => Child(nd', i') !in t'.at
        case Block => false
        case Link(g, a) => Child(nd', i') in t'.at && t'.at[Child(nd', i')] == g
    {
      if nd' == Child(nd, i) {
        Orphan(m, t, nd', i');
      } else {
        assert Slot(m, t, nd', i') == m[t.at[nd']].e[i'];
        assert Parent(Child(nd', i')) == nd';
      }
    }
  }

  /** Allocating a table changes no mapping. */
  lemma GrowLeaves(m: Mem, t: Tree, nd: Node, i: nat, f: Frame)
    requires Nodes(m, t) && InnerOk(m, t) && CanGrow(m, t, nd, i, f)
    ensures SameLeaves(m, t, GrownMem(m, t, nd, i, f), GrownTree(t, nd, i, f))
  {
    GrowNodes(m, t, nd, i, f);
  }

  lemma GrowWf(m: Mem, s: Space, nd: Node, i: nat, f: Frame)
    requires Wf(m, s) && CanGrow(m, s.t, nd, i, f) && f !in s.back
    ensures Wf(GrownMem(m, s.t, nd, i, f), Space(GrownTree(s.t, nd, i, f), s.back))
  {
    hide Nodes;
    hide InnerOk;
    hide Leaf;
    GrowInner(m, s.t, nd, i, f);
    GrowLeaves(m, s.t, nd, i, f);
  }

  // ---- changing the entry of one page ----

  predicate HasSlot(m: Mem, t: Tree, v: nat) {
    v < PAGES && OnPath(3, v) in t.at && IsTable(m, t.at[OnPath(3, v)])
  }

  function WithEntry(m: Mem, t: Tree, v: nat, p: Pte): Mem
    requires HasSlot(m, t, v)
  {
    var f := t.at[OnPath(3, v)];
    m[f := Table(m[f].e[Px(3, v) := p])]
  }

  /** Distinct pages have distinct slots: exactly page v changes. */
  lemma WithEntryLeaf(m: Mem, t: Tree, v: nat, p: Pte, w: nat)
    requires Nodes(m, t) && HasSlot(m, t, v) && w < PAGES
    ensures Leaf(WithEntry(m, t, v, p), t, w) == if w == v then p else Leaf(m, t, w)
  {
    if OnPath(3, w) in t.at && t.at[OnPath(3, w)] == t.at[OnPath(3, v)] && Px(3, w) == Px(3, v) {
      SlotDeterminesPage(v, w);
    }
  }

  lemma WithEntryLeaves(m: Mem, t: Tree, v: nat, p: Pte)
    requires Nodes(m, t) && HasSlot(m, t, v)
    ensures forall w {:trigger Leaf(WithEntry(m, t, v, p), t, w)} :: 0 <= w < PAGES ==>
      Leaf(WithEntry(m, t, v, p), t, w) == if w == v then p else Leaf(m, t, w)
  {
    forall w | 0 <= w < PAGES {
      WithEntryLeaf(m, t, v, p, w);
    }
  }

  lemma WithEntryTables(m: Mem, t: Tree, v: nat, p: Pte)
    requires Nodes(m, t) && InnerOk(m, t) && HasSlot(m, t, v)
    ensures Nodes(WithEntry(m, t, v, p), t) && InnerOk(WithEntry(m, t, v, p), t)
  {
    var m' := WithEntry(m, t, v, p);
    forall nd, i | nd in t.at && nd.l < 3 && 0 <= i < ENTRIES
      ensures Slot(m', t, nd, i) == Slot(m, t, nd, i)
    {
    }
  }

  /** The space after page v is mapped to f, and after it is unmapped. */
  function Mapped(s: Space, v: nat, f: Frame): Space {
    s.(back := s.back[f := v])
  }

  function Unmapped(s: Space, f: Frame): Space {
    s.(back := s.back - {f})
  }

  lemma MapWf(m: Mem, s: Space, v: nat, f: Frame, a: Attr)
    requires Wf(m, s) && HasSlot(m, s.t, v) && Leaf(m, s.t, v) == Empty
    requires IsData(m, f) && f !in s.t.node && f !in s.back
    ensures Wf(WithEntry(m, s.t, v, Link(f, a)), Mapped(s, v, f))
  {
    hide InnerOk;
    hide Leaf;
    WithEntryTables(m, s.t, v, Link(f, a));
    WithEntryLeaves(m, s.t, v, Link(f, a));
  }

  lemma UnmapWf(m: Mem, s: Space, v: nat)
    requires Wf(m, s) && HasSlot(m, s.t, v) && Leaf(m, s.t, v).Link?
    ensures Wf(WithEntry(m, s.t, v, Empty), Unmapped(s, Leaf(m, s.t, v).frame))
  {
    hide InnerOk;
    hide Leaf;
    WithEntryTables(m, s.t, v, Empty);
    WithEntryLeaves(m, s.t, v, Empty);
  }

  // ---- other spaces and free frames ----

  /** Memory that is the same on all frames of a space is the same space. */
  lemma Untouched(m: Mem, m': Mem, s: Space)
    requires Wf(m, s)
    requires forall f :: f in s.t.node || f in s.back ==> f in m' && f in m && m'[f] == m[f]
    ensures Wf(m', s) && SameLeaves(m, s.t, m', s.t)
  {
    assert forall nd, i {:trigger Slot(m', s.t, nd, i)} :: nd in s.t.at && 0 <= i < ENTRIES ==>
      Slot(m', s.t, nd, i) == Slot(m, s.t, nd, i);
    assert SameLeaves(m, s.t, m', s.t);
  }

  /** Writing the bytes of a mapped frame moves no page. */
  lemma WriteDataWf(m: Mem, s: Space, f: Frame, b: seq<Byte>)
    requires Wf(m, s) && f in s.back && |b| == PGSIZE
    ensures Wf(m[f := Data(b)], s) && SameLeaves(m, s.t, m[f := Data(b)], s.t)
  {
    var m' := m[f := Data(b)];
    assert forall nd, i {:trigger Slot(m', s.t, nd, i)} :: nd in s.t.at && 0 <= i < ENTRIES ==>
      Slot(m', s.t, nd, i) == Slot(m, s.t, nd, i);
    assert SameLeaves(m, s.t, m', s.t);
  }
}
