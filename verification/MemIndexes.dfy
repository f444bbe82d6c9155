/** The scheduled indexes of the two stores: the in-memory maps keep the last
    entry, the row tables keep one entry per height. */
module MemIndexes {
  import opened Types
  import opened Keys
  import opened Tables
  import opened Storage
  import opened Pending
  import opened Chain
  import opened ScheduledIndexes

  class Indexes {
    var scheduledIndex: map<nat, Identifier>
    var scheduledBlockIndex: map<Identifier, Identifier>

    constructor ()
      ensures scheduledIndex == map[] && scheduledBlockIndex == map[]
    {
      scheduledIndex, scheduledBlockIndex := map[], map[];
    }

    /** An entry replaces the one before. */
    method IndexScheduledTransactionID(number: nat, blockID: Identifier)
      modifies this`scheduledIndex
      ensures scheduledIndex == old(scheduledIndex)[number := blockID]
    {
      scheduledIndex := scheduledIndex[number := blockID];
    }

    method IndexScheduledTransactionBlockID(id: Identifier, blockID: Identifier)
      modifies this`scheduledBlockIndex
      ensures scheduledBlockIndex == old(scheduledBlockIndex)[id := blockID]
    {
      scheduledBlockIndex := scheduledBlockIndex[id := blockID];
    }

    /** Indexes the numbers of a committed block, in any order. */
    method IndexNumbers(numbers: set<nat>, blockID: Identifier)
      modifies this`scheduledIndex
      ensures scheduledIndex == old(scheduledIndex) + Pointing(numbers, blockID)
    {
      hide Pointing;
      NothingPointing(scheduledIndex, blockID);
      var todo := numbers;
      assert numbers - todo == {};
      while todo != {}
        invariant todo <= numbers && scheduledIndex == old(scheduledIndex) + Pointing(numbers - todo, blockID)
      {
        var n :| n in todo;
        IndexScheduledTransactionID(n, blockID);
        OneMorePointing(old(scheduledIndex), numbers - todo, n, blockID);
        assert numbers - todo + {n} == numbers - (todo - {n});
        todo := todo - {n};
      }
      assert numbers - {} == numbers;
    }

    /** Indexes those of its system transactions that are not static. */
    method IndexTransactions(e: Engine, ids: set<Identifier>, blockID: Identifier)
      modifies this`scheduledBlockIndex
      ensures scheduledBlockIndex == old(scheduledBlockIndex) + Pointing(ids - StaticIDs(e), blockID)
    {
      hide StaticIDs, Pointing;
      NothingPointing(scheduledBlockIndex, blockID);
      var todo := ids;
      assert ids - todo - StaticIDs(e) == {};
      while todo != {}
        invariant todo <= ids
        invariant scheduledBlockIndex == old(scheduledBlockIndex) + Pointing(ids - todo - StaticIDs(e), blockID)
      {
        var id :| id in todo;
        if id !in StaticIDs(e) {
          IndexScheduledTransactionBlockID(id, blockID);
          OneMorePointing(old(scheduledBlockIndex), ids - todo - StaticIDs(e), id, blockID);
          assert ids - todo - StaticIDs(e) + {id} == ids - (todo - {id}) - StaticIDs(e);
        } else {
          assert ids - todo - StaticIDs(e) == ids - (todo - {id}) - StaticIDs(e);
        }
        todo := todo - {id};
      }
      assert ids - {} - StaticIDs(e) == ids - StaticIDs(e);
    }
  }

  /** Every key set to one block. */
  function Pointing<K>(keys: set<K>, blockID: Identifier): (m: map<K, Identifier>) {
    map k | k in keys :: blockID
  }

  lemma NothingPointing<K>(m: map<K, Identifier>, blockID: Identifier)
    ensures m + Pointing({}, blockID) == m
  {}

  lemma OneMorePointing<K>(m: map<K, Identifier>, keys: set<K>, key: K, blockID: Identifier)
    ensures (m + Pointing(keys, blockID))[key := blockID] == m + Pointing(keys + {key}, blockID)
  {}

  lemma PointedAt<K>(m: map<K, Identifier>, keys: set<K>, blockID: Identifier, key: K)
    ensures var after := m + Pointing(keys, blockID);
            && (key in after <==> key in m || key in keys)
            && (key in after ==> after[key] == if key in keys then blockID else m[key])
  {}

  /** The in-memory index by number after the blocks of a chain. */
  function NumberMap(e: Engine, hist: seq<Commit>): (m: map<nat, Identifier>) {
    if hist == [] then map[]
    else
      var n := |hist| - 1;
      NumberMap(e, hist[..n]) + Pointing(hist[n].scheduled.Keys, e.ids.blockID(hist[n].block))
  }

  /** The in-memory index by transaction after the blocks of a chain. */
  function IdMap(e: Engine, hist: seq<Commit>): (m: map<Identifier, Identifier>) {
    if hist == [] then map[]
    else
      var n := |hist| - 1;
      IdMap(e, hist[..n]) + Pointing(hist[n].systemResults.Keys - StaticIDs(e), e.ids.blockID(hist[n].block))
  }

  /** Block i is the last one that ran the number. */
  ghost predicate LastWithNumber(hist: seq<Commit>, n: nat, i: nat) {
    i < |hist| && n in hist[i].scheduled && forall j | i < j < |hist| :: n !in hist[j].scheduled
  }

  ghost predicate LastWithID(hist: seq<Commit>, id: Identifier, i: nat) {
    i < |hist| && id in hist[i].systemResults && forall j | i < j < |hist| :: id !in hist[j].systemResults
  }

  /** The map points to the last block that ran the number. */
  lemma {:induction false} NumberMapIs(e: Engine, hist: seq<Commit>, n: nat) returns (i: nat)
    ensures var m := NumberMap(e, hist);
            if n in m then LastWithNumber(hist, n, i) && m[n] == e.ids.blockID(hist[i].block)
            else forall i: nat | i < |hist| :: n !in hist[i].scheduled
  {
    i := 0;
    if hist != [] {
      hide LastWithNumber, Pointing;
      var k := |hist| - 1;
      i := NumberMapIs(e, hist[..k], n);
      PointedAt(NumberMap(e, hist[..k]), hist[k].scheduled.Keys, e.ids.blockID(hist[k].block), n);
      StillLast(hist, n, [], i);
      if n in hist[k].scheduled { i := k; }
    }
  }

  /** The last block decides, and otherwise the blocks before it do. */
  lemma StillLast(hist: seq<Commit>, n: nat, id: Identifier, i: nat)
    requires hist != []
    ensures var k := |hist| - 1;
            && (n in hist[k].scheduled ==> LastWithNumber(hist, n, k))
            && (LastWithNumber(hist[..k], n, i) ==>
                  i < k && hist[..k][i] == hist[i] && (n !in hist[k].scheduled ==> LastWithNumber(hist, n, i)))
            && (id in hist[k].systemResults ==> LastWithID(hist, id, k))
            && (LastWithID(hist[..k], id, i) ==>
                  i < k && hist[..k][i] == hist[i] && (id !in hist[k].systemResults ==> LastWithID(hist, id, i)))
  {
    var k := |hist| - 1;
    assert forall j | 0 <= j < k :: hist[..k][j] == hist[j];
  }

  lemma {:induction false} IdMapIs(e: Engine, hist: seq<Commit>, id: Identifier) returns (i: nat)
    requires id !in StaticIDs(e)
    ensures var m := IdMap(e, hist);
            if id in m then LastWithID(hist, id, i) && m[id] == e.ids.blockID(hist[i].block)
            else forall i: nat | i < |hist| :: id !in hist[i].systemResults
  {
    hide StaticIDs;
    i := 0;
    if hist != [] {
      hide LastWithID, Pointing;
      var k := |hist| - 1;
      i := IdMapIs(e, hist[..k], id);
      PointedAt(IdMap(e, hist[..k]), hist[k].systemResults.Keys - StaticIDs(e), e.ids.blockID(hist[k].block), id);
      StillLast(hist, 0, id, i);
      if id in hist[k].systemResults { i := k; }
    }
  }

  function Entry<K>(m: map<K, Identifier>, key: K): (entry: Option<Cell>) {
    if key in m then Some(IdCell(m[key])) else None
  }

  lemma DistinctBlocks(e: Engine, hist: seq<Commit>, i: nat, j: nat)
    requires e.ids.Injective() && ConsecutiveFrom(hist, 0) && i < |hist| && j < |hist|
    ensures e.ids.blockID(hist[i].block) == e.ids.blockID(hist[j].block) <==> i == j
  {}

  /** A number run in two blocks has two readable entries. */
  lemma NumberClash(e: Engine, db: Db, hist: seq<Commit>, n: nat, i: nat, j: nat)
    requires e.ids.Injective() && ConsecutiveFrom(hist, 0) && IndexKept(e, db, hist) && i < j < |hist|
    requires n in hist[i].scheduled && n in hist[j].scheduled
    ensures exists x, y :: Reads(db.tables.scheduledIndex, ScheduledKey(n), 0, x)
                           && Reads(db.tables.scheduledIndex, ScheduledKey(n), 0, y) && x != y
  {
    hide IndexKept, Reads, ScheduledKey;
    var x, y := Some(IdCell(e.ids.blockID(hist[i].block))), Some(IdCell(e.ids.blockID(hist[j].block)));
    NumberEntry(e, db, hist, n, x);
    NumberEntry(e, db, hist, n, y);
    DistinctBlocks(e, hist, i, j);
    assert Reads(db.tables.scheduledIndex, ScheduledKey(n), 0, x) && Reads(db.tables.scheduledIndex, ScheduledKey(n), 0, y);
  }

  lemma IdClash(e: Engine, db: Db, hist: seq<Commit>, id: Identifier, i: nat, j: nat)
    requires e.ids.Injective() && ConsecutiveFrom(hist, 0) && IndexKept(e, db, hist) && i < j < |hist|
    requires id in hist[i].systemResults && id in hist[j].systemResults && id !in StaticIDs(e)
    ensures exists x, y :: Reads(db.tables.scheduledBlockIndex, IdKey(id), 0, x)
                           && Reads(db.tables.scheduledBlockIndex, IdKey(id), 0, y) && x != y
  {
    hide IndexKept, Reads, IdKey, StaticIDs;
    var x, y := Some(IdCell(e.ids.blockID(hist[i].block))), Some(IdCell(e.ids.blockID(hist[j].block)));
    IdEntry(e, db, hist, id, x);
    IdEntry(e, db, hist, id, y);
    DistinctBlocks(e, hist, i, j);
    assert Reads(db.tables.scheduledBlockIndex, IdKey(id), 0, x) && Reads(db.tables.scheduledBlockIndex, IdKey(id), 0, y);
  }

  /** Without rollbacks, the row store can give only what the in-memory index by
      number gives, exactly when no two standing blocks ran the number. */
  lemma NumberIndexesAgree(e: Engine, db: Db, hist: seq<Commit>, n: nat)
    requires e.ids.Injective() && ConsecutiveFrom(hist, 0) && IndexKept(e, db, hist)
    ensures (forall entry :: Reads(db.tables.scheduledIndex, ScheduledKey(n), 0, entry) <==>
                             entry == Entry(NumberMap(e, hist), n))
            <==> forall i, j | 0 <= i < j < |hist| && n in hist[i].scheduled :: n !in hist[j].scheduled
  {
    hide IndexKept, Reads, ScheduledKey, NumberMap;
    var t, key, mem := db.tables.scheduledIndex, ScheduledKey(n), Entry(NumberMap(e, hist), n);
    var last := NumberMapIs(e, hist, n);
    if forall entry :: Reads(t, key, 0, entry) <==> entry == mem {
      forall i, j | 0 <= i < j < |hist| && n in hist[i].scheduled ensures n !in hist[j].scheduled {
        if n in hist[j].scheduled { NumberClash(e, db, hist, n, i, j); }
      }
    }
    if forall i, j | 0 <= i < j < |hist| && n in hist[i].scheduled :: n !in hist[j].scheduled {
      forall entry ensures Reads(t, key, 0, entry) <==> entry == mem {
        NumberEntry(e, db, hist, n, entry);
      }
    }
  }

  /** The same for the index by transaction. */
  lemma TransactionIndexesAgree(e: Engine, db: Db, hist: seq<Commit>, id: Identifier)
    requires e.ids.Injective() && ConsecutiveFrom(hist, 0) && IndexKept(e, db, hist) && id !in StaticIDs(e)
    ensures (forall entry :: Reads(db.tables.scheduledBlockIndex, IdKey(id), 0, entry) <==>
                             entry == Entry(IdMap(e, hist), id))
            <==> forall i, j | 0 <= i < j < |hist| && id in hist[i].systemResults :: id !in hist[j].systemResults
  {
    hide IndexKept, Reads, IdKey, IdMap, StaticIDs;
    var t, key, mem := db.tables.scheduledBlockIndex, IdKey(id), Entry(IdMap(e, hist), id);
    var last := IdMapIs(e, hist, id);
    if forall entry :: Reads(t, key, 0, entry) <==> entry == mem {
      forall i, j | 0 <= i < j < |hist| && id in hist[i].systemResults ensures id !in hist[j].systemResults {
        if id in hist[j].systemResults { IdClash(e, db, hist, id, i, j); }
      }
    }
    if forall i, j | 0 <= i < j < |hist| && id in hist[i].systemResults :: id !in hist[j].systemResults {
      forall entry ensures Reads(t, key, 0, entry) <==> entry == mem {
        IdEntry(e, db, hist, id, entry);
      }
    }
  }
}
