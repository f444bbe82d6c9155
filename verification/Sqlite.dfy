/** The row store that the emulator uses by default: rows in SQLite tables,
    stamped with the current height, read newest version first. */
module Sqlite {
  import opened Types
  import opened Keys
  import opened Tables
  import opened Storage
  import opened StoreQueries

  /** The rows that one version and height give to keyed values. */
  function EntryRows(entries: map<string, Cell>, version: nat, height: nat): (t: Table) {
    map key | key in entries :: Row(key, version, height) := entries[key]
  }

  lemma AddEntry(t: Table, entries: map<string, Cell>, key: string, value: Cell, version: nat, height: nat)
    ensures t + EntryRows(entries[key := value], version, height) ==
            (t + EntryRows(entries, version, height))[Row(key, version, height) := value]
  {
    var more, fewer := EntryRows(entries[key := value], version, height), EntryRows(entries, version, height);
    assert more == fewer[Row(key, version, height) := value];
  }

  lemma NoEntries(t: Table, version: nat, height: nat)
    ensures t + EntryRows(map[], version, height) == t
  {}

  lemma NoCollections(ids: Hashes, t: Table, height: nat)
    ensures t + CollectionRows(ids, [], height) == t
  {}

  lemma AddCollection(ids: Hashes, t: Table, collections: seq<seq<Identifier>>, i: nat, height: nat)
    requires i < |collections|
    ensures t + CollectionRows(ids, collections[..i + 1], height) ==
            (t + CollectionRows(ids, collections[..i], height))
              [Row(IdKey(ids.collectionID(collections[i])), 0, height) := CollectionCell(collections[i])]
  {
    hide IdKey;
    assert collections[..i + 1][..i] == collections[..i];
  }

  function BodyEntries(bodies: map<Identifier, TransactionBody>): (e: map<string, Cell>) {
    hide IdKey, UnHex;
    map id | id in bodies :: IdKey(id) := BodyCell(bodies[id])
  }

  lemma BodyEntriesAre(bodies: map<Identifier, TransactionBody>, height: nat)
    ensures EntryRows(BodyEntries(bodies), 0, height) == BodyRows(bodies, height)
  {
    hide IdKey, UnHex;
  }

  function ResultEntries(results: map<Identifier, StorableResult>): (e: map<string, Cell>) {
    hide IdKey, UnHex;
    map id | id in results :: IdKey(id) := ResultCell(results[id])
  }

  lemma ResultEntriesAre(results: map<Identifier, StorableResult>, height: nat)
    ensures EntryRows(ResultEntries(results), 0, height) == ResultRows(results, height)
  {
    hide IdKey, UnHex;
  }

  function SystemResultEntries(b: Identifier, results: map<Identifier, StorableResult>): (e: map<string, Cell>) {
    hide SystemResultKey, SystemKeyBlock, SystemKeyTransaction;
    map id | id in results :: SystemResultKey(b, id) := ResultCell(results[id])
  }

  lemma SystemResultEntriesAre(b: Identifier, results: map<Identifier, StorableResult>, height: nat)
    ensures EntryRows(SystemResultEntries(b, results), 0, height) == SystemResultRows(b, results, height)
  {
    hide SystemResultKey, SystemKeyBlock, SystemKeyTransaction;
  }

  function RegisterEntries(writes: Ledger): (e: map<string, Cell>) {
    map id | id in writes :: RegisterCell(writes[id])
  }

  lemma RegisterEntriesAre(writes: Ledger, height: nat)
    ensures EntryRows(RegisterEntries(writes), height, height) == RegisterRows(writes, height)
  {}

  class Store {
    const ids: Hashes
    var current: nat
    var tables: TableSet

    ghost function Abs(): (db: Db)
      reads this
    {
      Db(current, tables)
    }

    /** The shape every operation keeps. */
    ghost predicate Valid()
      reads this
    {
      Sound(Abs())
    }

    constructor (ids: Hashes)
      ensures Valid() && Abs() == EMPTY_DB && this.ids == ids
    {
      this.ids := ids;
      current := 0;
      tables := EMPTY_TABLES;
    }

    method SetBytesWithVersion(store: StoreName, key: string, value: Cell, version: nat)
      modifies this`tables
      ensures tables == old(tables).With(store,
                old(tables).Rows(store)[Row(key, version, if store == Global then 0 else current) := value])
    {
      var height := current;
      if store == Global {
        height := 0;
      }
      tables := tables.With(store, tables.Rows(store)[Row(key, version, height) := value]);
    }

    method SetBytes(store: StoreName, key: string, value: Cell)
      modifies this`tables
      ensures tables == old(tables).With(store,
                old(tables).Rows(store)[Row(key, 0, if store == Global then 0 else current) := value])
    {
      SetBytesWithVersion(store, key, value, 0);
    }

    /** Any row of the newest admissible version may be the one returned. */
    method GetBytesAtVersion(store: StoreName, key: string, version: nat) returns (r: Option<Cell>)
      ensures Reads(Abs().Rows(store), key, version, r)
    {
      var t := tables.Rows(store);
      var rows := set row | row in t && row.key == key && row.version <= version;
      if rows == {} {
        assert forall row | row in t && row.key == key :: row !in rows;
        return None;
      }
      ghost var newest := NewestOf(rows);
      assert forall row | row in t && row.key == key && row.version <= version :: row in rows;
      assert IsBest(t, newest, key, version);
      var row :| row in t && IsBest(t, row, key, version);
      r := Some(t[row]);
    }

    method GetBytes(store: StoreName, key: string) returns (r: Option<Cell>)
      ensures Reads(Abs().Rows(store), key, 0, r)
    {
      r := GetBytesAtVersion(store, key, 0);
    }

    method LatestBlockHeight() returns (height: Option<nat>)
      requires Valid()
      ensures height == Abs().LatestHeight()
    {
      var cell := GetBytes(Global, LATEST_BLOCK_KEY);
      if cell.None? {
        assert LATEST !in tables.global;
        return None;
      }
      ghost var row :| IsBest(tables.global, row, LATEST_BLOCK_KEY, 0) && tables.global[row] == cell.value;
      assert row == LATEST;
      height := Some(cell.value.height);
    }

    method SetBlockHeight(height: nat)
      modifies this
      ensures current == height
      ensures tables == old(tables).(global := old(tables).global[LATEST := HeightCell(height)])
    {
      current := height;
      SetBytes(Global, LATEST_BLOCK_KEY, HeightCell(height));
    }

    method StoreBlock(block: Block)
      requires Valid()
      modifies this
      ensures current == block.height
      ensures var h, t := block.height, old(tables);
              tables == t.(blocks := t.blocks[Row(HeightKey(h), 0, h) := BlockCell(block)],
                           blockIndex := t.blockIndex[Row(IdKey(ids.blockID(block)), 0, h) := HeightCell(h)],
                           global := GlobalAfter(old(Abs()), h))
    {
      hide HeightKey, IdKey, Sound;
      var latest := LatestBlockHeight();
      current := block.height;
      SetBytes(Blocks, HeightKey(block.height), BlockCell(block));
      SetBytes(BlockIndex, IdKey(ids.blockID(block)), HeightCell(block.height));
      if block.height >= (if latest.Some? then latest.value else 0) {
        SetBytes(Global, LATEST_BLOCK_KEY, HeightCell(block.height));
      }
    }

    method StoreSystemTransactions(c: Commit)
      requires current == c.block.height
      modifies this`tables
      ensures tables == old(tables).(systemTransactions := old(tables).systemTransactions + SystemRows(ids, c))
    {
      hide IdKey;
      ghost var t := tables.systemTransactions;
      if |c.systemIDs| > 0 || |c.scheduled| > 0 {
        var id := ids.blockID(c.block);
        var cell := SystemCell(SystemTransactions(id, c.systemIDs, c.scheduled));
        OneRow(t, Row(IdKey(id), 0, current), cell);
        SetBytes(SystemTransactionsOf, IdKey(id), cell);
      } else {
        assert t + map[] == t;
      }
    }

    /** One upsert per entry, in any order. */
    method InsertAll(store: StoreName, entries: map<string, Cell>, version: nat)
      requires store != Global
      modifies this`tables
      ensures tables == old(tables).With(store, old(tables).Rows(store) + EntryRows(entries, version, current))
    {
      hide EntryRows, TableSet.With;
      var todo := entries.Keys;
      ghost var done: map<string, Cell> := map[];
      NoEntries(tables.Rows(store), version, current);
      WithItself(tables, store);
      while todo != {}
        invariant todo <= entries.Keys && done.Keys == entries.Keys - todo
        invariant forall k | k in done :: done[k] == entries[k]
        invariant tables == old(tables).With(store, old(tables).Rows(store) + EntryRows(done, version, current))
        decreases todo
      {
        var key :| key in todo;
        AddEntry(old(tables).Rows(store), done, key, entries[key], version, current);
        WithTwice(old(tables), store, tables.Rows(store), tables.Rows(store)[Row(key, version, current) := entries[key]]);
        WithRows(old(tables), store, old(tables).Rows(store) + EntryRows(done, version, current), store);
        SetBytesWithVersion(store, key, entries[key], version);
        todo := todo - {key};
        done := done[key := entries[key]];
      }
      assert done == entries;
    }

    method InsertCollections(collections: seq<seq<Identifier>>)
      modifies this`tables
      ensures tables == old(tables).(collections := old(tables).collections + CollectionRows(ids, collections, current))
    {
      hide IdKey, CollectionRows;
      NoCollections(ids, tables.collections, current);
      for i := 0 to |collections|
        invariant tables == old(tables).(collections :=
                    old(tables).collections + CollectionRows(ids, collections[..i], current))
      {
        AddCollection(ids, old(tables).collections, collections, i, current);
        SetBytes(Collections, IdKey(ids.collectionID(collections[i])), CollectionCell(collections[i]));
      }
      assert collections[..|collections|] == collections;
    }

    method InsertTransactions(bodies: map<Identifier, TransactionBody>)
      modifies this`tables
      ensures tables == old(tables).(transactions := old(tables).transactions + BodyRows(bodies, current))
    {
      hide EntryRows, BodyEntries, BodyRows;
      BodyEntriesAre(bodies, current);
      InsertAll(Transactions, BodyEntries(bodies), 0);
    }

    method InsertTransactionResults(results: map<Identifier, StorableResult>)
      modifies this`tables
      ensures tables == old(tables).(transactionResults :=
                old(tables).transactionResults + ResultRows(results, current))
    {
      hide EntryRows, ResultEntries, ResultRows;
      ResultEntriesAre(results, current);
      InsertAll(TransactionResults, ResultEntries(results), 0);
    }

    method InsertSystemTransactionResults(blockID: Identifier, results: map<Identifier, StorableResult>)
      modifies this`tables
      ensures tables == old(tables).(transactionResults :=
                old(tables).transactionResults + SystemResultRows(blockID, results, current))
    {
      hide EntryRows, SystemResultEntries, SystemResultRows;
      SystemResultEntriesAre(blockID, results, current);
      InsertAll(TransactionResults, SystemResultEntries(blockID, results), 0);
    }

    method InsertExecutionSnapshot(height: nat, writes: Ledger)
      requires height == current
      modifies this`tables
      ensures tables == old(tables).(registers := old(tables).registers + RegisterRows(writes, height))
    {
      hide EntryRows, RegisterEntries, RegisterRows;
      RegisterEntriesAre(writes, height);
      InsertAll(Registers, RegisterEntries(writes), height);
    }

    method InsertEvents(height: nat, events: seq<Event>)
      requires height == current
      modifies this`tables
      ensures tables == old(tables).(events :=
                old(tables).events[Row(HeightKey(height), 0, height) := EventsCell(events)])
    {
      SetBytes(Events, HeightKey(height), EventsCell(events));
    }

    /** Saves the results of a block, or refuses and changes nothing. */
    method CommitBlock(c: Commit) returns (error: Option<CommitError>)
      requires Valid()
      modifies this
      ensures Valid()
      ensures error == CommitCheck(c)
      ensures Abs() == if error.None? then Committed(ids, old(Abs()), c) else old(Abs())
    {
      hide Sound, Committed;
      if |c.transactions| != |c.results| {
        return Some(TransactionCount);
      }
      if |c.systemIDs| != |c.systemResults| {
        return Some(SystemTransactionCount);
      }
      InsertRecords(c);
      CommittedSound(ids, old(Abs()), c);
      error := None;
    }

    method InsertRecords(c: Commit)
      requires Valid()
      modifies this
      ensures Abs() == Committed(ids, old(Abs()), c)
    {
      hide HeightKey, IdKey, BodyRows, ResultRows, SystemResultRows, RegisterRows, CollectionRows, SystemRows,
           GlobalAfter, Sound, Committed;
      StoreBlock(c.block);
      StoreSystemTransactions(c);
      InsertCollections(c.collections);
      InsertTransactions(c.transactions);
      InsertTransactionResults(c.results);
      InsertTransactions(c.systemBodies);
      InsertSystemTransactionResults(ids.blockID(c.block), c.systemResults);
      InsertExecutionSnapshot(c.block.height, c.writes);
      InsertEvents(c.block.height, c.events);
      RecordsInserted(ids, old(Abs()), c, tables);
    }

    method BlockByHeight(height: nat) returns (r: Option<Cell>)
      ensures SqlAnswers(Abs(), Query.BlockByHeight(height), r)
    {
      r := GetBytes(Blocks, HeightKey(height));
    }

    method BlockByID(id: Identifier) returns (r: Option<Cell>)
      ensures SqlAnswers(Abs(), Query.BlockByID(id), r)
    {
      var height := GetBytes(BlockIndex, IdKey(id));
      if height.None? || !height.value.HeightCell? {
        return None;
      }
      r := BlockByHeight(height.value.height);
    }

    method LatestBlock() returns (r: Option<Cell>)
      ensures SqlAnswers(Abs(), Query.LatestBlock, r)
    {
      var height := GetBytes(Global, LATEST_BLOCK_KEY);
      if height.None? || !height.value.HeightCell? {
        return None;
      }
      r := BlockByHeight(height.value.height);
    }

    method CollectionByID(id: Identifier) returns (r: Option<Cell>)
      ensures SqlAnswers(Abs(), Query.CollectionByID(id), r)
    {
      r := GetBytes(Collections, IdKey(id));
    }

    method TransactionByID(id: Identifier) returns (r: Option<Cell>)
      ensures SqlAnswers(Abs(), Query.TransactionByID(id), r)
    {
      r := GetBytes(Transactions, IdKey(id));
    }

    method TransactionResultByID(id: Identifier) returns (r: Option<Cell>)
      ensures SqlAnswers(Abs(), Query.TransactionResultByID(id), r)
    {
      r := GetBytes(TransactionResults, IdKey(id));
    }

    method SystemTransactionResultByID(blockID: Identifier, id: Identifier) returns (r: Option<Cell>)
      ensures SqlAnswers(Abs(), Query.SystemTransactionResultByID(blockID, id), r)
    {
      r := GetBytes(TransactionResults, SystemResultKey(blockID, id));
    }

    method SystemTransactionsForBlockID(blockID: Identifier) returns (r: Option<Cell>)
      ensures SqlAnswers(Abs(), Query.SystemTransactionsForBlockID(blockID), r)
    {
      r := GetBytes(SystemTransactionsOf, IdKey(blockID));
    }

    method EventsByHeight(height: nat, kind: string) returns (r: Option<Cell>)
      ensures SqlAnswers(Abs(), Query.EventsByHeight(height, kind), r)
    {
      var stored := GetBytes(Events, HeightKey(height));
      if stored.None? {
        return Some(EventsCell([]));
      }
      if !stored.value.EventsCell? {
        return None;
      }
      var kept := SelectEvents(stored.value.events, kind);
      r := Some(EventsCell(kept));
    }

    method IndexScheduledTransactionID(number: nat, blockID: Identifier)
      modifies this`tables
      ensures tables == old(tables).(scheduledIndex :=
                old(tables).scheduledIndex[Row(ScheduledKey(number), 0, current) := IdCell(blockID)])
    {
      SetBytes(ScheduledIndex, ScheduledKey(number), IdCell(blockID));
    }

    method IndexScheduledTransactionBlockID(id: Identifier, blockID: Identifier)
      modifies this`tables
      ensures tables == old(tables).(scheduledBlockIndex :=
                old(tables).scheduledBlockIndex[Row(IdKey(id), 0, current) := IdCell(blockID)])
    {
      SetBytes(ScheduledBlockIndex, IdKey(id), IdCell(blockID));
    }

    /** Deletes what lies above a height from the covered tables, or refuses. */
    method RollbackToBlockHeight(height: nat) returns (ok: bool)
      requires Valid()
      modifies this
      ensures Valid()
      ensures ok == old(RollbackAllowed(Abs(), height))
      ensures Abs() == if ok then RolledBack(old(Abs()), height) else old(Abs())
    {
      hide Below, RolledBack, Sound;
      if current <= height {
        return false;
      }
      for i := 0 to |ROLLED_BACK|
        invariant current == old(current)
        invariant forall name: StoreName :: tables.Rows(name) ==
                    if name in ROLLED_BACK[..i] then Below(old(tables).Rows(name), height) else old(tables).Rows(name)
      {
        var store := ROLLED_BACK[i];
        ListedOnce(i);
        tables := tables.With(store, Below(tables.Rows(store), height));
      }
      Pruned(old(Abs()), tables, height);
      SetBlockHeight(height);
      ok := true;
    }
  }

  lemma ListedOnce(i: nat)
    requires i < |ROLLED_BACK|
    ensures ROLLED_BACK[i] !in ROLLED_BACK[..i]
    ensures forall name: StoreName :: name in ROLLED_BACK[..i + 1] <==> name == ROLLED_BACK[i] || name in ROLLED_BACK[..i]
  {
    assert ROLLED_BACK[..i + 1] == ROLLED_BACK[..i] + [ROLLED_BACK[i]];
  }

  lemma ListedIsCovered(name: StoreName)
    ensures name in ROLLED_BACK <==> Covered(name)
  {
    assert ROLLED_BACK[0] == Registers && ROLLED_BACK[1] == Blocks && ROLLED_BACK[2] == BlockIndex
           && ROLLED_BACK[3] == Events && ROLLED_BACK[4] == Transactions && ROLLED_BACK[5] == Collections
           && ROLLED_BACK[6] == TransactionResults;
  }

  lemma Pruned(db: Db, t: TableSet, height: nat)
    requires Sound(db)
    requires forall name: StoreName :: t.Rows(name) ==
               if name in ROLLED_BACK[..|ROLLED_BACK|] then Below(db.Rows(name), height) else db.Rows(name)
    ensures Db(height, t.(global := t.global[LATEST := HeightCell(height)])) == RolledBack(db, height)
    ensures Sound(RolledBack(db, height))
  {
    var after := t.(global := t.global[LATEST := HeightCell(height)]);
    assert ROLLED_BACK[..|ROLLED_BACK|] == ROLLED_BACK;
    forall name: StoreName ensures t.Rows(name) == if Covered(name) then Below(db.Rows(name), height) else db.Rows(name) {
      hide Below;
      ListedIsCovered(name);
    }
    SameRows(db, t, height);
  }

  lemma SameRows(db: Db, t: TableSet, height: nat)
    requires forall name: StoreName :: t.Rows(name) == if Covered(name) then Below(db.Rows(name), height) else db.Rows(name)
    ensures Db(height, t.(global := t.global[LATEST := HeightCell(height)])) == RolledBack(db, height)
  {
    hide Below, RolledBack;
    var after := Db(height, t.(global := t.global[LATEST := HeightCell(height)]));
    forall name: StoreName ensures after.tables.Rows(name) == RolledBack(db, height).tables.Rows(name) {
      RolledBackRows(db, height, name);
      assert t.Rows(Global) == db.Rows(Global);
    }
    RolledBackRows(db, height, Global);
    EqualByRows(after.tables, RolledBack(db, height).tables);
  }

  lemma EqualByRows(t: TableSet, u: TableSet)
    requires forall name: StoreName :: t.Rows(name) == u.Rows(name)
    ensures t == u
  {
    assert t.Rows(Global) == u.Rows(Global) && t.Rows(Blocks) == u.Rows(Blocks)
           && t.Rows(BlockIndex) == u.Rows(BlockIndex) && t.Rows(SystemTransactionsOf) == u.Rows(SystemTransactionsOf)
           && t.Rows(Collections) == u.Rows(Collections) && t.Rows(Transactions) == u.Rows(Transactions)
           && t.Rows(TransactionResults) == u.Rows(TransactionResults) && t.Rows(Events) == u.Rows(Events)
           && t.Rows(Registers) == u.Rows(Registers) && t.Rows(ScheduledIndex) == u.Rows(ScheduledIndex)
           && t.Rows(ScheduledBlockIndex) == u.Rows(ScheduledBlockIndex);
  }

  lemma RecordsInserted(ids: Hashes, db: Db, c: Commit, t: TableSet)
    requires var h, b, u := c.block.height, ids.blockID(c.block), db.tables;
             t == TableSet(
               GlobalAfter(db, h),
               u.blockIndex[Row(IdKey(b), 0, h) := HeightCell(h)],
               u.blocks[Row(HeightKey(h), 0, h) := BlockCell(c.block)],
               u.systemTransactions + SystemRows(ids, c),
               u.collections + CollectionRows(ids, c.collections, h),
               u.transactions + BodyRows(c.transactions, h) + BodyRows(c.systemBodies, h),
               u.transactionResults + ResultRows(c.results, h) + SystemResultRows(b, c.systemResults, h),
               u.events[Row(HeightKey(h), 0, h) := EventsCell(c.events)],
               u.registers + RegisterRows(c.writes, h),
               u.scheduledIndex,
               u.scheduledBlockIndex)
    ensures Db(c.block.height, t) == Committed(ids, db, c)
  {
    hide Layer, HeightKey, IdKey, BodyRows, ResultRows, SystemResultRows, RegisterRows, CollectionRows, SystemRows,
         GlobalAfter;
    var h, b, u := c.block.height, ids.blockID(c.block), db.tables;
    LayerIs(ids, c);
    Regroup(u.transactions, BodyRows(c.transactions, h), BodyRows(c.systemBodies, h));
    Regroup(u.transactionResults, ResultRows(c.results, h), SystemResultRows(b, c.systemResults, h));
    OneRow(u.blocks, Row(HeightKey(h), 0, h), BlockCell(c.block));
    OneRow(u.blockIndex, Row(IdKey(b), 0, h), HeightCell(h));
    OneRow(u.events, Row(HeightKey(h), 0, h), EventsCell(c.events));
  }

  lemma Regroup(a: Table, b: Table, c: Table)
    ensures a + b + c == a + (b + c)
  {}

  /** The global table is flat and holds a height, and ledger rows are versioned
      by their height. */
  ghost predicate Sound(db: Db) {
    && db.GlobalFlat()
    && (LATEST in db.tables.global ==> db.tables.global[LATEST].HeightCell?)
    && LedgerTable(db.tables.registers)
  }

  lemma CommittedSound(ids: Hashes, db: Db, c: Commit)
    requires Sound(db)
    ensures Sound(Committed(ids, db, c))
  {
    hide Layer;
    RegisterLayer(ids, c);
  }

  lemma RegisterLayer(ids: Hashes, c: Commit)
    ensures LedgerTable(Layer(ids, c, Registers))
  {}

  lemma OneRow(t: Table, row: Row, cell: Cell)
    ensures t + map[row := cell] == t[row := cell]
  {}

  lemma WithItself(t: TableSet, store: StoreName)
    ensures t.With(store, t.Rows(store)) == t
  {}

  lemma WithTwice(t: TableSet, store: StoreName, a: Table, b: Table)
    ensures t.With(store, a).With(store, b) == t.With(store, b)
  {}
}
