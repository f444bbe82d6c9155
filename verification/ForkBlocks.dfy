/** The blocks of a forked chain: remote ones up to a root, local ones above. */
module ForkBlocks {
  import opened Types
  import opened Keys
  import opened Tables
  import opened Storage
  import opened StoreQueries
  import opened Scheduled

  /** The remote chain's block headers. */
  type RemoteBlocks = nat -> Option<Block>

  /** A local chain on top of a remote block. */
  datatype View = View(root: nat, local: seq<Commit>) {
    function Tip(): (h: nat) { root + |local| }

    /** The chain's block at a height. Remote blocks come without payload. */
    function BlockAt(remote: RemoteBlocks, height: nat): (b: Option<Block>) {
      if height <= root then
        match remote(height)
        case None => None
        case Some(block) => Some(block.(guarantees := []))
      else if height <= Tip() then Some(LocalAt(height))
      else None
    }

    function LocalAt(height: nat): (b: Block)
      requires root < height <= Tip()
    {
      local[height - root - 1].block
    }

    function Committing(c: Commit): (v: View) { View(root, local + [c]) }

    /** Rolling back below the root moves the root down. */
    function RollingBack(height: nat): (v: View) {
      if height < root then View(height, [])
      else if height < Tip() then View(root, local[..height - root])
      else this
    }
  }

  const FORKED: Row := Row(FORKED_BLOCK_KEY, 0, 0)

  /** How far behind the remote tip a fork without a given height starts. */
  const BLOCK_BUFFER: nat := 10

  /** A store just forked: no blocks, but the fork height as latest height. */
  function Forked(height: nat): (db: Db) {
    Db(height, EMPTY_TABLES.(global := map[FORKED := HeightCell(height), LATEST := HeightCell(height)]))
  }

  /** The fork height the store remembers. */
  function Remembered(db: Db): (h: Option<nat>) {
    if FORKED in db.tables.global && db.tables.global[FORKED].HeightCell?
    then Some(db.tables.global[FORKED].height) else None
  }

  /** The fork height for a given height, 0 for none, and the remote tip, in
      unsigned 64-bit arithmetic. */
  function ChosenHeight(given: nat, tip: nat): (h: nat) {
    if given == 0 then (tip - BLOCK_BUFFER) % (MAX_UINT64 + 1) else given
  }

  /** A given height is taken; without one the fork is ten below the remote tip, and
      on a chain shorter than that the subtraction wraps around. */
  lemma ChosenHeightIs(given: nat, tip: nat)
    requires tip <= MAX_UINT64
    ensures given > 0 ==> ChosenHeight(given, tip) == given
    ensures tip >= 10 ==> ChosenHeight(0, tip) == tip - 10
    ensures tip < 10 ==> ChosenHeight(0, tip) == 0xFFFF_FFFF_FFFF_FFF6 + tip
  {
    if tip < 10 { assert tip - BLOCK_BUFFER == -1 * (MAX_UINT64 + 1) + (0xFFFF_FFFF_FFFF_FFF6 + tip); }
  }

  /** What a forked chain shows: up to the root the remote blocks, stripped of their
      payload, above it the local commits, and nothing above the tip. */
  lemma ForkedBlockIs(v: View, remote: RemoteBlocks, height: nat)
    ensures var b := v.BlockAt(remote, height);
            if height <= v.root then
              (b.None? <==> remote(height).None?)
              && (b.Some? ==> var h := remote(height).value;
                              b.value == Block(h.height, h.view, h.parentID, h.timestamp, []))
            else b == if height - v.root <= |v.local| then Some(v.local[height - v.root - 1].block) else None
  {}

  /** Setting up the start block: a remembered fork height wins, otherwise the
      chosen one is stored and becomes the latest height. */
  function Initialized(db: Db, given: nat, tip: nat): (r: (Db, nat)) {
    var stored := Remembered(db);
    if stored.Some? && stored.value > 0 then (db, stored.value)
    else
      var fork := ChosenHeight(given, tip);
      (Db(fork, db.tables.(global := db.tables.global[FORKED := HeightCell(fork)][LATEST := HeightCell(fork)])), fork)
  }

  /** Over an empty store, setting up the start block forks it. */
  lemma InitializedForks(given: nat, tip: nat)
    ensures Initialized(EMPTY_DB, given, tip) == (Forked(ChosenHeight(given, tip)), ChosenHeight(given, tip))
  {}

  /** Every row is a local block's. */
  ghost predicate RowsLocal(t: Table, v: View) {
    forall row | row in t :: row.version == 0 && v.root < row.height <= v.Tip() && row.key == HeightKey(row.height)
  }

  /** Every local block has its row. */
  ghost predicate LocalStored(t: Table, v: View) {
    forall h: nat | v.root < h <= v.Tip() :: StoredAt(t, v, h)
  }

  ghost predicate StoredAt(t: Table, v: View, h: nat)
    requires v.root < h <= v.Tip()
  {
    var row := Row(HeightKey(h), 0, h);
    row in t && t[row] == BlockCell(v.LocalAt(h))
  }

  ghost predicate ShowsBlocks(t: Table, v: View) { RowsLocal(t, v) && LocalStored(t, v) }

  /** The store holds the local part of the chain. */
  ghost predicate Shows(db: Db, v: View) {
    && db.current == v.Tip() && db.LatestHeight() == Some(v.Tip()) && db.GlobalFlat()
    && ShowsBlocks(db.tables.blocks, v)
  }

  lemma ForkedShows(height: nat)
    ensures Shows(Forked(height), View(height, []))
  {
    hide HeightKey;
    assert LATEST_BLOCK_KEY[0] == 'l' && FORKED_BLOCK_KEY[0] == 'f';
  }

  lemma OneMoreBlock(t: Table, v: View, c: Commit)
    requires ShowsBlocks(t, v) && c.block.height == v.Tip() + 1
    ensures var h := c.block.height; ShowsBlocks(t + map[Row(HeightKey(h), 0, h) := BlockCell(c.block)], v.Committing(c))
  {
    hide HeightKey, FromDecimal, LocalStored, RowsLocal;
    OneMoreRow(t, v, c);
    OneMoreStored(t, v, c);
  }

  lemma OneMoreRow(t: Table, v: View, c: Commit)
    requires RowsLocal(t, v) && c.block.height == v.Tip() + 1
    ensures var h := c.block.height; RowsLocal(t + map[Row(HeightKey(h), 0, h) := BlockCell(c.block)], v.Committing(c))
  {
    hide HeightKey, FromDecimal;
  }

  lemma OneMoreStored(t: Table, v: View, c: Commit)
    requires LocalStored(t, v) && c.block.height == v.Tip() + 1
    ensures var h := c.block.height; LocalStored(t + map[Row(HeightKey(h), 0, h) := BlockCell(c.block)], v.Committing(c))
  {
    hide HeightKey, FromDecimal;
    var w, n := v.Committing(c), c.block.height;
    var u := t + map[Row(HeightKey(n), 0, n) := BlockCell(c.block)];
    forall h: nat | w.root < h <= w.Tip() ensures StoredAt(u, w, h) {
      if h < n { assert StoredAt(t, v, h) && w.LocalAt(h) == v.LocalAt(h); }
    }
  }

  lemma CommitShows(ids: Hashes, db: Db, v: View, c: Commit)
    requires Shows(db, v) && c.block.height == v.Tip() + 1
    ensures Shows(Committed(ids, db, c), v.Committing(c))
  {
    hide HeightKey, FromDecimal, Committed, Layer, ShowsBlocks;
    CommittedRows(ids, db, c, Blocks);
    CommittedRows(ids, db, c, Global);
    BlockLayer(ids, c);
    OneMoreBlock(db.tables.blocks, v, c);
  }

  lemma BlockLayer(ids: Hashes, c: Commit)
    ensures var h := c.block.height; Layer(ids, c, Blocks) == map[Row(HeightKey(h), 0, h) := BlockCell(c.block)]
  {
    hide HeightKey;
  }

  lemma FewerBlocks(t: Table, v: View, height: nat)
    requires ShowsBlocks(t, v) && height < v.Tip()
    ensures ShowsBlocks(Below(t, height), v.RollingBack(height))
  {
    hide HeightKey, FromDecimal;
    var w, u := v.RollingBack(height), Below(t, height);
    forall h: nat | w.root < h <= w.Tip() ensures StoredAt(u, w, h) {
      assert StoredAt(t, v, h) && w.LocalAt(h) == v.LocalAt(h);
    }
  }

  lemma RollbackShows(db: Db, v: View, height: nat)
    requires Shows(db, v) && RollbackAllowed(db, height)
    ensures Shows(RolledBack(db, height), v.RollingBack(height))
  {
    hide ShowsBlocks, RolledBack, Below;
    RolledBackRows(db, height, Blocks);
    RolledBackRows(db, height, Global);
    FewerBlocks(db.tables.blocks, v, height);
  }

  /** The store finds exactly the local blocks. */
  lemma LocalBlockAnswer(db: Db, v: View, height: nat, r: Option<Cell>)
    requires Shows(db, v)
    ensures SqlAnswers(db, BlockByHeight(height), r) <==>
              r == if v.root < height <= v.Tip() then Some(BlockCell(v.LocalAt(height))) else None
  {
    hide HeightKey, FromDecimal;
    var t, key := db.tables.blocks, HeightKey(height);
    forall row | row in t && row.key == key ensures row == Row(key, 0, height) {
      assert FromDecimal(row.key) == row.height && FromDecimal(key) == height;
    }
    if v.root < height <= v.Tip() {
      var row := Row(key, 0, height);
      assert StoredAt(t, v, height);
      assert IsBest(t, row, key, 0);
    }
  }
}
