/** The store as a value: named tables of rows, what committing a block adds to
    them and what rolling back removes. */
module Storage {
  import opened Types
  import opened Keys
  import opened Tables

  datatype StoreName =
    | Global
    | BlockIndex
    | Blocks
    | SystemTransactionsOf
    | Collections
    | Transactions
    | TransactionResults
    | Events
    | Registers
    | ScheduledIndex
    | ScheduledBlockIndex

  /** The tables a rollback prunes; the system transaction list and the two
      scheduled-transaction indexes are not among them. */
  const ROLLED_BACK: seq<StoreName> :=
    [Registers, Blocks, BlockIndex, Events, Transactions, Collections, TransactionResults]

  predicate Covered(name: StoreName) {
    name.Registers? || name.Blocks? || name.BlockIndex? || name.Events? || name.Transactions?
    || name.Collections? || name.TransactionResults?
  }

  // ---------------------------------------------------------------- hashes

  /** The hash functions, each assumed injective on contents. */
  datatype Hashes = Hashes(
    transactionID: TransactionBody -> Identifier,
    blockID: Block -> Identifier,
    collectionID: seq<Identifier> -> Identifier)
  {
    ghost predicate Injective() {
      && (forall a, b :: transactionID(a) == transactionID(b) ==> a == b)
      && (forall a, b :: blockID(a) == blockID(b) ==> a == b)
      && (forall a, b :: collectionID(a) == collectionID(b) ==> a == b)
    }
  }

  lemma SameBody(ids: Hashes, a: TransactionBody, b: TransactionBody)
    requires ids.Injective() && ids.transactionID(a) == ids.transactionID(b)
    ensures a == b
  {}

  lemma SameBlock(ids: Hashes, a: Block, b: Block)
    requires ids.Injective() && ids.blockID(a) == ids.blockID(b)
    ensures a == b
  {}

  lemma SameCollection(ids: Hashes, a: seq<Identifier>, b: seq<Identifier>)
    requires ids.Injective() && ids.collectionID(a) == ids.collectionID(b)
    ensures a == b
  {}

  // ---------------------------------------------------------------- commits

  /** Everything handed to the store when a block is committed. */
  datatype Commit = Commit(
    block: Block,
    collections: seq<seq<Identifier>>,
    transactions: map<Identifier, TransactionBody>,
    results: map<Identifier, StorableResult>,
    systemIDs: seq<Identifier>,
    systemBodies: map<Identifier, TransactionBody>,
    systemResults: map<Identifier, StorableResult>,
    writes: Ledger,
    events: seq<Event>,
    scheduled: map<nat, Identifier>)

  function BodyRows(bodies: map<Identifier, TransactionBody>, height: nat): (t: Table) {
    hide IdKey, UnHex;
    map id | id in bodies :: Row(IdKey(id), 0, height) := BodyCell(bodies[id])
  }

  lemma BodyRowsAt(bodies: map<Identifier, TransactionBody>, height: nat, id: Identifier)
    ensures Row(IdKey(id), 0, height) in BodyRows(bodies, height) <==> id in bodies
    ensures id in bodies ==> BodyRows(bodies, height)[Row(IdKey(id), 0, height)] == BodyCell(bodies[id])
  {
    hide IdKey, UnHex;
    if id in bodies { assert Row(IdKey(id), 0, height) in BodyRows(bodies, height); }
  }

  lemma BodyRowsOf(bodies: map<Identifier, TransactionBody>, height: nat, row: Row) returns (id: Identifier)
    requires row in BodyRows(bodies, height)
    ensures id in bodies && row == Row(IdKey(id), 0, height)
    ensures BodyRows(bodies, height)[row] == BodyCell(bodies[id])
  {
    hide IdKey, UnHex;
    id :| id in bodies && row == Row(IdKey(id), 0, height);
  }

  function ResultRows(results: map<Identifier, StorableResult>, height: nat): (t: Table) {
    hide IdKey, UnHex;
    map id | id in results :: Row(IdKey(id), 0, height) := ResultCell(results[id])
  }

  lemma ResultRowsAt(results: map<Identifier, StorableResult>, height: nat, id: Identifier)
    ensures Row(IdKey(id), 0, height) in ResultRows(results, height) <==> id in results
    ensures id in results ==> ResultRows(results, height)[Row(IdKey(id), 0, height)] == ResultCell(results[id])
  {
    hide IdKey, UnHex;
    if id in results { assert Row(IdKey(id), 0, height) in ResultRows(results, height); }
  }

  lemma ResultRowsOf(results: map<Identifier, StorableResult>, height: nat, row: Row) returns (id: Identifier)
    requires row in ResultRows(results, height)
    ensures id in results && row == Row(IdKey(id), 0, height)
    ensures ResultRows(results, height)[row] == ResultCell(results[id])
  {
    hide IdKey, UnHex;
    id :| id in results && row == Row(IdKey(id), 0, height);
  }

  function SystemResultRows(blockID: Identifier, results: map<Identifier, StorableResult>, height: nat): (t: Table) {
    hide SystemResultKey, SystemKeyBlock, SystemKeyTransaction;
    map id | id in results :: Row(SystemResultKey(blockID, id), 0, height) := ResultCell(results[id])
  }

  lemma SystemResultRowsAt(blockID: Identifier, results: map<Identifier, StorableResult>, height: nat, id: Identifier)
    ensures Row(SystemResultKey(blockID, id), 0, height) in SystemResultRows(blockID, results, height) <==> id in results
    ensures id in results ==>
              SystemResultRows(blockID, results, height)[Row(SystemResultKey(blockID, id), 0, height)] ==
              ResultCell(results[id])
  {
    hide SystemResultKey, SystemKeyBlock, SystemKeyTransaction;
    if id in results { assert Row(SystemResultKey(blockID, id), 0, height) in SystemResultRows(blockID, results, height); }
  }

  lemma SystemResultRowsOf(blockID: Identifier, results: map<Identifier, StorableResult>, height: nat, row: Row)
    returns (id: Identifier)
    requires row in SystemResultRows(blockID, results, height)
    ensures id in results && row == Row(SystemResultKey(blockID, id), 0, height)
    ensures SystemResultRows(blockID, results, height)[row] == ResultCell(results[id])
  {
    hide SystemResultKey, SystemKeyBlock, SystemKeyTransaction;
    id :| id in results && row == Row(SystemResultKey(blockID, id), 0, height);
  }

  function CollectionRows(ids: Hashes, collections: seq<seq<Identifier>>, height: nat): (t: Table) {
    if collections == [] then map[]
    else
      var n := |collections| - 1;
      CollectionRows(ids, collections[..n], height)
        [Row(IdKey(ids.collectionID(collections[n])), 0, height) := CollectionCell(collections[n])]
  }

  lemma {:induction false} CollectionRowsOf(ids: Hashes, collections: seq<seq<Identifier>>, height: nat, row: Row)
    requires row in CollectionRows(ids, collections, height)
    ensures var cell := CollectionRows(ids, collections, height)[row];
            && cell.CollectionCell? && cell.collection in collections
            && row == Row(IdKey(ids.collectionID(cell.collection)), 0, height)
  {
    hide IdKey;
    var n := |collections| - 1;
    if row != Row(IdKey(ids.collectionID(collections[n])), 0, height) {
      CollectionRowsOf(ids, collections[..n], height, row);
    }
  }

  lemma {:induction false} CollectionRowsAt(ids: Hashes, collections: seq<seq<Identifier>>, height: nat, i: nat)
    requires i < |collections|
    ensures Row(IdKey(ids.collectionID(collections[i])), 0, height) in CollectionRows(ids, collections, height)
  {
    hide IdKey;
    var n := |collections| - 1;
    if i < n {
      CollectionRowsAt(ids, collections[..n], height, i);
    }
  }

  function RegisterRows(writes: Ledger, height: nat): (t: Table) {
    map id | id in writes :: Row(id, height, height) := RegisterCell(writes[id])
  }

  function SystemRows(ids: Hashes, c: Commit): (t: Table) {
    if |c.systemIDs| > 0 || |c.scheduled| > 0 then
      var id := ids.blockID(c.block);
      map[Row(IdKey(id), 0, c.block.height) := SystemCell(SystemTransactions(id, c.systemIDs, c.scheduled))]
    else map[]
  }

  /** The rows one commit adds to one table. */
  function Layer(ids: Hashes, c: Commit, name: StoreName): (t: Table) {
    var h := c.block.height;
    match name
    case Global => map[]
    case BlockIndex => map[Row(IdKey(ids.blockID(c.block)), 0, h) := HeightCell(h)]
    case Blocks => map[Row(HeightKey(h), 0, h) := BlockCell(c.block)]
    case SystemTransactionsOf => SystemRows(ids, c)
    case Collections => CollectionRows(ids, c.collections, h)
    case Transactions => BodyRows(c.transactions, h) + BodyRows(c.systemBodies, h)
    case TransactionResults => ResultRows(c.results, h) + SystemResultRows(ids.blockID(c.block), c.systemResults, h)
    case Events => map[Row(HeightKey(h), 0, h) := EventsCell(c.events)]
    case Registers => RegisterRows(c.writes, h)
    case ScheduledIndex => map[]
    case ScheduledBlockIndex => map[]
  }

  /** Unversioned rows of one height. */
  ghost predicate FlatAt(t: Table, height: nat) {
    forall row | row in t :: row.height == height && row.version == 0
  }

  lemma RecordsAreFlat(ids: Hashes, c: Commit)
    ensures var h := c.block.height;
            && FlatAt(BodyRows(c.transactions, h), h) && FlatAt(BodyRows(c.systemBodies, h), h)
            && FlatAt(ResultRows(c.results, h), h)
            && FlatAt(SystemResultRows(ids.blockID(c.block), c.systemResults, h), h)
  {
    hide IdKey, UnHex, SystemResultKey, SystemKeyBlock, SystemKeyTransaction;
  }

  lemma LayerHeight(ids: Hashes, c: Commit, name: StoreName)
    ensures forall row | row in Layer(ids, c, name) :: row.height == c.block.height
    ensures name != Registers ==> Unversioned(Layer(ids, c, name))
  {
    hide IdKey, HeightKey, SystemResultKey, CollectionRows, BodyRows, ResultRows, SystemResultRows;
    RecordsAreFlat(ids, c);
    match name {
      case Global => case BlockIndex => case Blocks => case SystemTransactionsOf =>
      case Collections =>
        forall row | row in Layer(ids, c, name) ensures row.height == c.block.height && row.version == 0 {
          CollectionRowsOf(ids, c.collections, c.block.height, row);
        }
      case Transactions => case TransactionResults => case Events =>
      case Registers => case ScheduledIndex => case ScheduledBlockIndex =>
    }
  }

  /** The layers, spelled out. */
  lemma LayerIs(ids: Hashes, c: Commit)
    ensures var h, b := c.block.height, ids.blockID(c.block);
            && Layer(ids, c, BlockIndex) == map[Row(IdKey(b), 0, h) := HeightCell(h)]
            && Layer(ids, c, Blocks) == map[Row(HeightKey(h), 0, h) := BlockCell(c.block)]
            && Layer(ids, c, SystemTransactionsOf) == SystemRows(ids, c)
            && Layer(ids, c, Collections) == CollectionRows(ids, c.collections, h)
            && Layer(ids, c, Transactions) == BodyRows(c.transactions, h) + BodyRows(c.systemBodies, h)
            && Layer(ids, c, TransactionResults) == ResultRows(c.results, h) + SystemResultRows(b, c.systemResults, h)
            && Layer(ids, c, Events) == map[Row(HeightKey(h), 0, h) := EventsCell(c.events)]
            && Layer(ids, c, Registers) == RegisterRows(c.writes, h)
  {
    hide IdKey, HeightKey, SystemRows, CollectionRows, BodyRows, ResultRows, SystemResultRows, RegisterRows;
  }

  // ---------------------------------------------------------------- the database

  datatype TableSet = TableSet(
    global: Table,
    blockIndex: Table,
    blocks: Table,
    systemTransactions: Table,
    collections: Table,
    transactions: Table,
    transactionResults: Table,
    events: Table,
    registers: Table,
    scheduledIndex: Table,
    scheduledBlockIndex: Table)
  {
    function Rows(name: StoreName): (t: Table) {
      match name
      case Global => global
      case BlockIndex => blockIndex
      case Blocks => blocks
      case SystemTransactionsOf => systemTransactions
      case Collections => collections
      case Transactions => transactions
      case TransactionResults => transactionResults
      case Events => events
      case Registers => registers
      case ScheduledIndex => scheduledIndex
      case ScheduledBlockIndex => scheduledBlockIndex
    }

    function With(name: StoreName, t: Table): (after: TableSet) {
      TableSet(
        if name.Global? then t else global,
        if name.BlockIndex? then t else blockIndex,
        if name.Blocks? then t else blocks,
        if name.SystemTransactionsOf? then t else systemTransactions,
        if name.Collections? then t else collections,
        if name.Transactions? then t else transactions,
        if name.TransactionResults? then t else transactionResults,
        if name.Events? then t else events,
        if name.Registers? then t else registers,
        if name.ScheduledIndex? then t else scheduledIndex,
        if name.ScheduledBlockIndex? then t else scheduledBlockIndex)
    }
  }

  lemma WithRows(t: TableSet, name: StoreName, rows: Table, other: StoreName)
    ensures t.With(name, rows).Rows(other) == if other == name then rows else t.Rows(other)
  {
    match other {
      case Global => case BlockIndex => case Blocks => case SystemTransactionsOf =>
      case Collections => case Transactions => case TransactionResults => case Events =>
      case Registers => case ScheduledIndex => case ScheduledBlockIndex =>
    }
  }

  const EMPTY_TABLES := TableSet(map[], map[], map[], map[], map[], map[], map[], map[], map[], map[], map[])

  const LATEST: Row := Row(LATEST_BLOCK_KEY, 0, 0)

  /** `current` is the height stamped on rows as they are written. */
  datatype Db = Db(current: nat, tables: TableSet) {
    function Rows(name: StoreName): (t: Table) { tables.Rows(name) }

    function LatestHeight(): (h: Option<nat>) {
      if LATEST in tables.global && tables.global[LATEST].HeightCell? then Some(tables.global[LATEST].height)
      else None
    }

    /** Rows of the global table carry neither version nor height. */
    ghost predicate GlobalFlat() {
      forall row | row in tables.global :: row.version == 0 && row.height == 0
    }
  }

  const EMPTY_DB := Db(0, EMPTY_TABLES)

  datatype CommitError = TransactionCount | SystemTransactionCount

  /** The two count checks that guard a commit. */
  function CommitCheck(c: Commit): (e: Option<CommitError>) {
    if |c.transactions| != |c.results| then Some(TransactionCount)
    else if |c.systemIDs| != |c.systemResults| then Some(SystemTransactionCount)
    else None
  }

  function GlobalAfter(db: Db, height: nat): (t: Table) {
    var latest := if db.LatestHeight().Some? then db.LatestHeight().value else 0;
    if height >= latest then db.tables.global[LATEST := HeightCell(height)] else db.tables.global
  }

  /** The database after a commit that passed its checks. */
  function Committed(ids: Hashes, db: Db, c: Commit): (after: Db) {
    var t := db.tables;
    Db(c.block.height,
       TableSet(GlobalAfter(db, c.block.height),
              t.blockIndex + Layer(ids, c, BlockIndex),
              t.blocks + Layer(ids, c, Blocks),
              t.systemTransactions + Layer(ids, c, SystemTransactionsOf),
              t.collections + Layer(ids, c, Collections),
              t.transactions + Layer(ids, c, Transactions),
              t.transactionResults + Layer(ids, c, TransactionResults),
              t.events + Layer(ids, c, Events),
              t.registers + Layer(ids, c, Registers),
              t.scheduledIndex,
              t.scheduledBlockIndex))
  }

  /** A rollback is refused unless it goes strictly below the current height. */
  predicate RollbackAllowed(db: Db, height: nat) { height < db.current }

  function RolledBack(db: Db, height: nat): (after: Db) {
    var t := db.tables;
    Db(height,
       TableSet(t.global[LATEST := HeightCell(height)],
                Below(t.blockIndex, height),
                Below(t.blocks, height),
                t.systemTransactions,
                Below(t.collections, height),
                Below(t.transactions, height),
                Below(t.transactionResults, height),
                Below(t.events, height),
                Below(t.registers, height),
                t.scheduledIndex,
                t.scheduledBlockIndex))
  }

  lemma EmptyLayers(ids: Hashes, c: Commit)
    ensures Layer(ids, c, ScheduledIndex) == Layer(ids, c, ScheduledBlockIndex) == map[]
  {}

  lemma CommittedRows(ids: Hashes, db: Db, c: Commit, name: StoreName)
    ensures Committed(ids, db, c).current == c.block.height
    ensures Committed(ids, db, c).Rows(name) ==
            if name == Global then GlobalAfter(db, c.block.height) else db.Rows(name) + Layer(ids, c, name)
  {
    hide GlobalAfter, Layer;
    assert Layer(ids, c, ScheduledIndex) == Layer(ids, c, ScheduledBlockIndex) == map[] by { EmptyLayers(ids, c); }
    match name {
      case Global => case BlockIndex => case Blocks => case SystemTransactionsOf =>
      case Collections => case Transactions => case TransactionResults => case Events =>
      case Registers => case ScheduledIndex => case ScheduledBlockIndex =>
    }
  }

  lemma RolledBackRows(db: Db, height: nat, name: StoreName)
    ensures RolledBack(db, height).current == height
    ensures RolledBack(db, height).Rows(name) ==
            if name == Global then db.Rows(Global)[LATEST := HeightCell(height)]
            else if Covered(name) then Below(db.Rows(name), height)
            else db.Rows(name)
  {
    hide Below;
    match name {
      case Global => case BlockIndex => case Blocks => case SystemTransactionsOf =>
      case Collections => case Transactions => case TransactionResults => case Events =>
      case Registers => case ScheduledIndex => case ScheduledBlockIndex =>
    }
  }

  // ---------------------------------------------------------------- rollback inverts commit

  /** Several commits one after the other. */
  function CommitAll(ids: Hashes, db: Db, commits: seq<Commit>): (after: Db) {
    if commits == [] then db
    else Committed(ids, CommitAll(ids, db, commits[..|commits| - 1]), commits[|commits| - 1])
  }

  ghost predicate ConsecutiveFrom(commits: seq<Commit>, height: nat) {
    forall i | 0 <= i < |commits| :: commits[i].block.height == height + i
  }

  ghost predicate NothingAbove(t: Table, height: nat) {
    forall row | row in t :: row.height <= height
  }

  lemma BelowAll(t: Table, height: nat)
    requires NothingAbove(t, height)
    ensures Below(t, height) == t
  {}

  lemma {:induction false} CommitsOnlyAddAbove(ids: Hashes, db: Db, commits: seq<Commit>, height: nat, name: StoreName)
    requires Covered(name) && NothingAbove(db.Rows(name), height)
    requires ConsecutiveFrom(commits, height + 1)
    ensures Below(CommitAll(ids, db, commits).Rows(name), height) == db.Rows(name)
    ensures CommitAll(ids, db, commits).current == if commits == [] then db.current else height + |commits|
  {
    hide Layer, Committed, Below;
    if commits == [] {
      BelowAll(db.Rows(name), height);
    } else {
      var n := |commits| - 1;
      var before, c := CommitAll(ids, db, commits[..n]), commits[n];
      CommitsOnlyAddAbove(ids, db, commits[..n], height, name);
      CommittedRows(ids, before, c, name);
      LayerHeight(ids, c, name);
      BelowIgnoresAbove(before.Rows(name), Layer(ids, c, name), height);
    }
  }

  lemma BelowIgnoresAbove(t: Table, layer: Table, height: nat)
    requires forall row | row in layer :: row.height > height
    ensures Below(t + layer, height) == Below(t, height)
  {}

  /** Rolling back to a height after any commits above it restores each covered
      table row for row, and the latest height with it. */
  lemma RollbackInvertsCommits(ids: Hashes, db: Db, commits: seq<Commit>, height: nat)
    requires commits != [] && ConsecutiveFrom(commits, height + 1)
    requires forall name | Covered(name) :: NothingAbove(db.Rows(name), height)
    ensures RollbackAllowed(CommitAll(ids, db, commits), height)
    ensures var after := RolledBack(CommitAll(ids, db, commits), height);
            && after.current == height && after.LatestHeight() == Some(height)
            && forall name | Covered(name) :: after.Rows(name) == db.Rows(name)
  {
    hide CommitAll, RolledBack, Below;
    var top := CommitAll(ids, db, commits);
    forall name | Covered(name)
      ensures RolledBack(top, height).Rows(name) == db.Rows(name)
    {
      CommitsOnlyAddAbove(ids, db, commits, height, name);
      RolledBackRows(top, height, name);
    }
    CommitsOnlyAddAbove(ids, db, commits, height, Blocks);
    RolledBackRows(top, height, Global);
  }

  lemma Overwritten(t: Table, row: Row, a: Cell, b: Cell)
    ensures t[row := a][row := b] == t[row := b]
  {}

  /** Two rollbacks are one rollback to the lower height. */
  lemma RollbackTwice(db: Db, high: nat, low: nat)
    requires low < high
    ensures RollbackAllowed(RolledBack(db, high), low)
    ensures RolledBack(RolledBack(db, high), low) == RolledBack(db, low)
  {
    hide Below;
    var t := db.tables;
    Overwritten(t.global, LATEST, HeightCell(high), HeightCell(low));
    BelowBelow(t.registers, high, low);
    BelowBelow(t.blocks, high, low);
    BelowBelow(t.blockIndex, high, low);
    BelowBelow(t.events, high, low);
    BelowBelow(t.transactions, high, low);
    BelowBelow(t.collections, high, low);
    BelowBelow(t.transactionResults, high, low);
  }

  /** A commit raises the latest height to its own, and never lowers it. */
  lemma LatestIsHighest(ids: Hashes, db: Db, c: Commit)
    requires db.LatestHeight().Some?
    ensures var before, after := db.LatestHeight().value, Committed(ids, db, c).LatestHeight();
            after.Some? && before <= after.value && c.block.height <= after.value
            && (after.value == before || after.value == c.block.height)
  {
    hide Layer;
  }
}
