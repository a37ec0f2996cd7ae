/** The on-disk redo log of kernel/log.c.

    A disk is a sequence of blocks and a block a sequence of 32-bit words.  Blocks
    `start .. start + size` are the log: a header block (word 0 is `n`, words 1..n the home
    block numbers) followed by the logged copies.  Every other block is a home block.

    The central notion is `LogicalAt`: what a home block will hold once recovery has run.
    A crash leaves the disk alone, so it leaves the logical disk alone; the lemmas below say
    what each single block write of commit and of recovery does to it. */
module LogDisk {
  const MAXOPBLOCKS: nat := 10
  const LOGSIZE: nat := 3 * MAXOPBLOCKS
  const WORDS: nat := 256

  type Block = seq<int>
  type Disk = seq<Block>

  datatype Layout = Layout(start: nat, size: nat, nblocks: nat) {
    predicate Ok() {
      1 <= size && start + size <= nblocks
    }

    /** A block outside the log region. */
    predicate Home(b: int) {
      0 <= b < nblocks && !(start <= b < start + size)
    }
  }

  predicate Sized(l: Layout, d: Disk) {
    l.Ok() && |d| == l.nblocks && |d[l.start]| == WORDS
  }

  /** A list of home block numbers that a header may hold: what log_write builds. */
  predicate GoodHeader(l: Layout, h: seq<int>) {
    && |h| <= LOGSIZE && |h| + 1 <= l.size
    && (forall i :: 0 <= i < |h| ==> l.Home(h[i]))
    && (forall i, j :: 0 <= i < j < |h| ==> h[i] != h[j])
  }

  predicate HeadInRange(l: Layout, d: Disk) {
    Sized(l, d) && 0 <= d[l.start][0] <= LOGSIZE
  }

  function Header(l: Layout, d: Disk): (h: seq<int>)
    requires HeadInRange(l, d)
  {
    d[l.start][1..1 + d[l.start][0]]
  }

  predicate Formatted(l: Layout, d: Disk) {
    HeadInRange(l, d) && GoodHeader(l, Header(l, d))
  }

  /** Position of `b` in a header, or its length: the scan of log_write. */
  function Slot(h: seq<int>, b: int): (k: nat)
    ensures k <= |h|
    ensures k < |h| ==> h[k] == b
    ensures forall i :: 0 <= i < k ==> h[i] != b
  {
    if h == [] then 0 else if h[0] == b then 0 else 1 + Slot(h[1..], b)
  }

  /** What home block `b` holds after recovery. */
  function LogicalAt(l: Layout, d: Disk, b: int): Block
    requires Formatted(l, d) && l.Home(b)
  {
    var h := Header(l, d);
    var k := Slot(h, b);
    if k < |h| then d[l.start + 1 + k] else d[b]
  }

  /** Block `b` as the buffer cache shows it: the logged copy if there is one, else the disk's. */
  function Overlay(d: Disk, h: seq<int>, cached: seq<Block>, b: int): Block
    requires |cached| == |h| && 0 <= b < |d|
  {
    var k := Slot(h, b);
    if k < |h| then cached[k] else d[b]
  }

  ghost predicate SameLogical(l: Layout, d: Disk, d': Disk)
    requires Formatted(l, d) && Formatted(l, d')
  {
    forall b :: l.Home(b) ==> LogicalAt(l, d, b) == LogicalAt(l, d', b)
  }

  // ---- the single block writes ----

  /** write_head: words 0 and 1..n change, the rest of the block stays. */
  function WithHead(l: Layout, d: Disk, h: seq<int>): (d': Disk)
    requires Sized(l, d) && |h| <= LOGSIZE
    ensures Sized(l, d') && HeadInRange(l, d') && Header(l, d') == h
    ensures forall i :: 0 <= i < |d| && i != l.start ==> d'[i] == d[i]
  {
    d[l.start := [|h|] + h + d[l.start][1 + |h|..]]
  }

  /** One iteration of write_log: copy cached block `v` to log block k. */
  function WithLogged(l: Layout, d: Disk, k: nat, v: Block): (d': Disk)
    requires Sized(l, d) && k + 1 < l.size
    ensures Sized(l, d') && d'[l.start] == d[l.start]
  {
    d[l.start + 1 + k := v]
  }

  /** One iteration of install_trans: copy log block k to its home. */
  function WithInstalled(l: Layout, d: Disk, h: seq<int>, k: nat): (d': Disk)
    requires Sized(l, d) && GoodHeader(l, h) && k < |h|
    ensures Sized(l, d') && d'[l.start] == d[l.start]
  {
    d[h[k] := d[l.start + 1 + k]]
  }

  predicate InstalledTo(l: Layout, d: Disk, h: seq<int>, k: nat)
    requires Sized(l, d) && GoodHeader(l, h)
  {
    forall j :: 0 <= j < k && j < |h| ==> d[h[j]] == d[l.start + 1 + j]
  }

  predicate LoggedTo(l: Layout, d: Disk, k: nat, cached: seq<Block>)
    requires Sized(l, d) && |cached| < l.size
  {
    forall j :: 0 <= j < k && j < |cached| ==> d[l.start + 1 + j] == cached[j]
  }

  /** Filling log blocks under an empty header changes nothing logical. */
  lemma LoggingKeepsLogical(l: Layout, d: Disk, k: nat, v: Block)
    requires Formatted(l, d) && Header(l, d) == [] && k + 1 < l.size
    ensures var d' := WithLogged(l, d, k, v);
      Formatted(l, d') && Header(l, d') == [] && SameLogical(l, d, d')
  {
    var d' := WithLogged(l, d, k, v);
    assert Header(l, d') == Header(l, d);
  }

  /** The header write is the commit point: the logical disk jumps to the cached contents. */
  lemma HeadWriteCommits(l: Layout, d: Disk, h: seq<int>, cached: seq<Block>)
    requires Formatted(l, d) && Header(l, d) == []
    requires GoodHeader(l, h) && |cached| == |h| && LoggedTo(l, d, |h|, cached)
    ensures var d' := WithHead(l, d, h);
      && Formatted(l, d') && LoggedTo(l, d', |h|, cached)
      && forall b :: l.Home(b) ==> LogicalAt(l, d', b) == Overlay(d, h, cached, b)
  {
  }

  /** Installing a logged block changes no logical content and extends the installed prefix. */
  lemma InstallKeepsLogical(l: Layout, d: Disk, k: nat)
    requires Formatted(l, d) && k < |Header(l, d)|
    ensures var d' := WithInstalled(l, d, Header(l, d), k);
      && Formatted(l, d') && Header(l, d') == Header(l, d)
      && SameLogical(l, d, d')
      && (InstalledTo(l, d, Header(l, d), k) ==> InstalledTo(l, d', Header(l, d), k + 1))
  {
    hide Slot;
    var h := Header(l, d);
    var d' := WithInstalled(l, d, h, k);
    assert Header(l, d') == h;
    assert forall i :: l.start <= i < l.start + l.size ==> d'[i] == d[i];
    forall b | l.Home(b)
      ensures LogicalAt(l, d, b) == LogicalAt(l, d', b)
    {
      assert Slot(h, b) == |h| ==> b != h[k];
    }
  }

  /** Clearing the header after every block is installed changes nothing logical. */
  lemma ClearKeepsLogical(l: Layout, d: Disk)
    requires Formatted(l, d) && InstalledTo(l, d, Header(l, d), |Header(l, d)|)
    ensures var d' := WithHead(l, d, []);
      && Formatted(l, d') && SameLogical(l, d, d')
      && forall b :: l.Home(b) ==> d'[b] == LogicalAt(l, d, b)
  {
    var h := Header(l, d);
    var d' := WithHead(l, d, []);
    forall b | l.Home(b)
      ensures LogicalAt(l, d', b) == d'[b] == LogicalAt(l, d, b)
    {
      var k := Slot(h, b);
    }
  }

  // ---- recovery as a function of the disk ----

  function InstallFrom(l: Layout, d: Disk, h: seq<int>, k: nat): (d': Disk)
    requires Sized(l, d) && GoodHeader(l, h) && k <= |h|
    ensures Sized(l, d') && d'[l.start] == d[l.start]
    decreases |h| - k
  {
    if k == |h| then d else InstallFrom(l, WithInstalled(l, d, h, k), h, k + 1)
  }

  function Recover(l: Layout, d: Disk): (d': Disk)
    requires Formatted(l, d)
  {
    WithHead(l, InstallFrom(l, d, Header(l, d), 0), [])
  }

  lemma {:induction false} InstallFromKeepsLogical(l: Layout, d: Disk, k: nat)
    requires Formatted(l, d) && k <= |Header(l, d)| && InstalledTo(l, d, Header(l, d), k)
    ensures var d' := InstallFrom(l, d, Header(l, d), k);
      && Formatted(l, d') && Header(l, d') == Header(l, d) && SameLogical(l, d, d')
      && InstalledTo(l, d', Header(l, d), |Header(l, d)|)
    decreases |Header(l, d)| - k
  {
    hide SameLogical;
    hide InstalledTo;
    hide GoodHeader;
    var h := Header(l, d);
    if k < |h| {
      var d1 := WithInstalled(l, d, h, k);
      InstallKeepsLogical(l, d, k);
      InstallFromKeepsLogical(l, d1, k + 1);
      SameLogicalTrans(l, d, d1, InstallFrom(l, d1, h, k + 1));
    } else {
      SameLogicalTrans(l, d, d, d);
    }
  }

  lemma SameLogicalTrans(l: Layout, d: Disk, d1: Disk, d2: Disk)
    requires Formatted(l, d) && Formatted(l, d1) && Formatted(l, d2)
    requires d1 != d ==> SameLogical(l, d, d1)
    requires d2 != d1 ==> SameLogical(l, d1, d2)
    ensures SameLogical(l, d, d2)
  {
  }

  /** A completed recovery empties the log and puts every home block at its logical content. */
  lemma RecoverIsLogical(l: Layout, d: Disk)
    requires Formatted(l, d)
    ensures var d' := Recover(l, d);
      && Formatted(l, d') && Header(l, d') == [] && SameLogical(l, d, d')
      && forall b :: l.Home(b) ==> d'[b] == LogicalAt(l, d, b)
  {
    InstallFromKeepsLogical(l, d, 0);
    ClearKeepsLogical(l, InstallFrom(l, d, Header(l, d), 0));
  }

  /** Running recovery again changes nothing at all outside the log region, and keeps the header empty. */
  lemma RecoverIdempotent(l: Layout, d: Disk)
    requires Formatted(l, d)
    ensures Formatted(l, Recover(l, d))
    ensures Recover(l, Recover(l, d)) == Recover(l, d)
  {
    RecoverIsLogical(l, d);
    var r := Recover(l, d);
    var rr := WithHead(l, r, []);
    assert rr[l.start] == r[l.start];
    assert rr == r;
  }
}
