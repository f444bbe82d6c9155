/** The chain of commits still standing, and the tables as a function of it. */
module History {
  import opened Types
  import opened Keys
  import opened Tables
  import opened Storage

  function Layers(ids: Hashes, hist: seq<Commit>, name: StoreName): (layers: seq<Table>)
    ensures |layers| == |hist|
    ensures forall i | 0 <= i < |hist| :: layers[i] == Layer(ids, hist[i], name)
  {
    seq(|hist|, i requires 0 <= i < |hist| => Layer(ids, hist[i], name))
  }

  /** One table after a chain of commits. */
  function Replayed(ids: Hashes, hist: seq<Commit>, name: StoreName): (t: Table) {
    Stack(Layers(ids, hist, name))
  }

  lemma ReplayedSnoc(ids: Hashes, hist: seq<Commit>, c: Commit, name: StoreName)
    ensures Replayed(ids, hist + [c], name) == Replayed(ids, hist, name) + Layer(ids, c, name)
  {
    hide Layer;
    var more := Layers(ids, hist + [c], name);
    assert more[..|hist|] == Layers(ids, hist, name);
    assert more[|hist|] == Layer(ids, c, name);
  }

  lemma LayersLayered(ids: Hashes, hist: seq<Commit>, name: StoreName)
    requires ConsecutiveFrom(hist, 0)
    ensures Layered(Layers(ids, hist, name))
  {
    hide Layer;
    forall i: nat, row: Row | i < |hist| && row in Layers(ids, hist, name)[i] ensures row.height == i {
      LayerHeight(ids, hist[i], name);
    }
  }

  /** A row is in a replayed table exactly when its own block put it there. */
  lemma ReplayedRow(ids: Hashes, hist: seq<Commit>, name: StoreName, row: Row)
    requires ConsecutiveFrom(hist, 0)
    ensures row in Replayed(ids, hist, name) <==>
              row.height < |hist| && row in Layer(ids, hist[row.height], name)
    ensures row in Replayed(ids, hist, name) ==>
              Replayed(ids, hist, name)[row] == Layer(ids, hist[row.height], name)[row]
  {
    hide Layer, Stack;
    LayersLayered(ids, hist, name);
    StackRows(Layers(ids, hist, name));
  }

  lemma ReplayedBelow(ids: Hashes, hist: seq<Commit>, name: StoreName, height: nat)
    requires ConsecutiveFrom(hist, 0) && height < |hist|
    ensures Below(Replayed(ids, hist, name), height) == Replayed(ids, hist[..height + 1], name)
  {
    hide Layer, Stack, Below;
    LayersLayered(ids, hist, name);
    StackBelow(Layers(ids, hist, name), height);
    assert Layers(ids, hist[..height + 1], name) == Layers(ids, hist, name)[..height + 1];
  }

  lemma ReplayedUnversioned(ids: Hashes, hist: seq<Commit>, name: StoreName)
    requires ConsecutiveFrom(hist, 0) && name != Registers
    ensures Unversioned(Replayed(ids, hist, name))
  {
    hide Layer, Replayed;
    forall row | row in Replayed(ids, hist, name) ensures row.version == 0 {
      ReplayedRow(ids, hist, name, row);
      LayerHeight(ids, hist[row.height], name);
    }
  }

  // ---------------------------------------------------------------- the store invariant

  /** The database holds exactly the chain `hist` from height 0 up. */
  ghost predicate Holds(ids: Hashes, db: Db, hist: seq<Commit>) {
    && hist != [] && ConsecutiveFrom(hist, 0)
    && db.current == |hist| - 1 && db.LatestHeight() == Some(|hist| - 1) && db.GlobalFlat()
    && forall name | Covered(name) :: db.Rows(name) == Replayed(ids, hist, name)
  }

  lemma GenesisHolds(ids: Hashes, c: Commit)
    requires c.block.height == 0
    ensures Holds(ids, Committed(ids, EMPTY_DB, c), [c])
  {
    hide Layer, Committed;
    var db := Committed(ids, EMPTY_DB, c);
    forall name | Covered(name) ensures db.Rows(name) == Replayed(ids, [c], name) {
      CommittedRows(ids, EMPTY_DB, c, name);
      ReplayedSnoc(ids, [], c, name);
      assert [] + [c] == [c];
      assert Replayed(ids, [], name) == map[] == EMPTY_DB.Rows(name);
    }
    CommittedRows(ids, EMPTY_DB, c, Global);
  }

  lemma CommitHolds(ids: Hashes, db: Db, hist: seq<Commit>, c: Commit)
    requires Holds(ids, db, hist) && c.block.height == |hist|
    ensures Holds(ids, Committed(ids, db, c), hist + [c])
  {
    hide Layer, Committed, Replayed;
    var after := Committed(ids, db, c);
    forall name | Covered(name) ensures after.Rows(name) == Replayed(ids, hist + [c], name) {
      CommittedRows(ids, db, c, name);
      ReplayedSnoc(ids, hist, c, name);
    }
    CommittedRows(ids, db, c, Global);
  }

  lemma RollbackHolds(ids: Hashes, db: Db, hist: seq<Commit>, height: nat)
    requires Holds(ids, db, hist) && RollbackAllowed(db, height)
    ensures Holds(ids, RolledBack(db, height), hist[..height + 1])
  {
    hide Below, RolledBack, Replayed;
    var after := RolledBack(db, height);
    forall name | Covered(name) ensures after.Rows(name) == Replayed(ids, hist[..height + 1], name) {
      RolledBackRows(db, height, name);
      ReplayedBelow(ids, hist, name, height);
    }
    RolledBackRows(db, height, Global);
  }

  // ---------------------------------------------------------------- unambiguous reads

  ghost predicate ContentAddressed(ids: Hashes, c: Commit) {
    && (forall id | id in c.transactions :: ids.transactionID(c.transactions[id]) == id)
    && (forall id | id in c.systemBodies :: ids.transactionID(c.systemBodies[id]) == id)
  }

  /** No user transaction has results in two blocks. */
  ghost predicate ResultsOnce(hist: seq<Commit>) {
    forall i, j, id | 0 <= i < |hist| && 0 <= j < |hist| && id in hist[i].results && id in hist[j].results :: i == j
  }

  ghost predicate Consistent(ids: Hashes, hist: seq<Commit>) {
    && ids.Injective() && ConsecutiveFrom(hist, 0) && ResultsOnce(hist)
    && forall i | 0 <= i < |hist| :: ContentAddressed(ids, hist[i])
  }

  lemma BodyLayer(ids: Hashes, c: Commit, row: Row)
    requires ContentAddressed(ids, c) && row in Layer(ids, c, Transactions)
    ensures Layer(ids, c, Transactions)[row].BodyCell?
    ensures row.key == IdKey(ids.transactionID(Layer(ids, c, Transactions)[row].body))
  {
    hide IdKey, BodyRows;
    var h := c.block.height;
    if row in BodyRows(c.systemBodies, h) {
      var id := BodyRowsOf(c.systemBodies, h, row);
    } else {
      var id := BodyRowsOf(c.transactions, h, row);
    }
  }

  /** A result row belongs either to a user transaction of its block or to a
      system transaction of its block, and the two kinds of key never clash. */
  lemma ResultLayer(ids: Hashes, c: Commit, row: Row)
    requires row in Layer(ids, c, TransactionResults)
    ensures Layer(ids, c, TransactionResults)[row].ResultCell?
    ensures !IsSystemKey(row.key) ==>
              exists id | id in c.results ::
                row == Row(IdKey(id), 0, c.block.height)
                && Layer(ids, c, TransactionResults)[row].result == c.results[id]
    ensures IsSystemKey(row.key) ==>
              exists id | id in c.systemResults ::
                row == Row(SystemResultKey(ids.blockID(c.block), id), 0, c.block.height)
                && Layer(ids, c, TransactionResults)[row].result == c.systemResults[id]
  {
    hide IdKey, SystemResultKey, SystemKeyBlock, SystemKeyTransaction, ResultRows, SystemResultRows;
    var h, b := c.block.height, ids.blockID(c.block);
    if row in SystemResultRows(b, c.systemResults, h) {
      var id := SystemResultRowsOf(b, c.systemResults, h, row);
    } else {
      var id := ResultRowsOf(c.results, h, row);
    }
  }

  /** In every table of a consistent chain, rows that tie hold the same
      value, so no read depends on the order of rows. */
  lemma TiesAgreeInReplay(ids: Hashes, hist: seq<Commit>, name: StoreName)
    requires Consistent(ids, hist)
    ensures TiesAgree(Replayed(ids, hist, name))
  {
    hide Layer, Replayed;
    var t := Replayed(ids, hist, name);
    forall a, b | a in t && b in t && a.key == b.key && a.version == b.version
      ensures t[a] == t[b]
    {
      ReplayedRow(ids, hist, name, a);
      ReplayedRow(ids, hist, name, b);
      RowsTie(ids, hist, name, a, b);
    }
  }

  lemma RowsTie(ids: Hashes, hist: seq<Commit>, name: StoreName, a: Row, b: Row)
    requires Consistent(ids, hist)
    requires a.height < |hist| && a in Layer(ids, hist[a.height], name)
    requires b.height < |hist| && b in Layer(ids, hist[b.height], name)
    requires a.key == b.key && a.version == b.version
    ensures Layer(ids, hist[a.height], name)[a] == Layer(ids, hist[b.height], name)[b]
  {
    hide IdKey, HeightKey, FromDecimal, UnHex, SystemResultKey, SystemKeyBlock, SystemKeyTransaction, CollectionRows;
    var c, d := hist[a.height], hist[b.height];
    match name {
      case Registers =>
      case Blocks =>
      case Events =>
      case Global => case ScheduledIndex => case ScheduledBlockIndex =>
      case BlockIndex =>
        SameBlock(ids, c.block, d.block);
      case SystemTransactionsOf =>
        SameBlock(ids, c.block, d.block);
      case Collections =>
        CollectionRowsOf(ids, c.collections, c.block.height, a);
        CollectionRowsOf(ids, d.collections, d.block.height, b);
        var x, y := Layer(ids, c, name)[a].collection, Layer(ids, d, name)[b].collection;
        assert ids.collectionID(x) == ids.collectionID(y);
        SameCollection(ids, x, y);
      case Transactions =>
        BodyLayer(ids, c, a);
        BodyLayer(ids, d, b);
        SameBody(ids, Layer(ids, c, name)[a].body, Layer(ids, d, name)[b].body);
      case TransactionResults =>
        ResultRowsTie(ids, hist, a, b);
    }
  }

  lemma ResultRowsTie(ids: Hashes, hist: seq<Commit>, a: Row, b: Row)
    requires Consistent(ids, hist)
    requires a.height < |hist| && a in Layer(ids, hist[a.height], TransactionResults)
    requires b.height < |hist| && b in Layer(ids, hist[b.height], TransactionResults)
    requires a.key == b.key
    ensures a == b
  {
    hide Layer, IdKey, UnHex, SystemResultKey, SystemKeyBlock, SystemKeyTransaction;
    var c, d := hist[a.height], hist[b.height];
    ResultLayer(ids, c, a);
    ResultLayer(ids, d, b);
    if !IsSystemKey(a.key) {
      var x :| x in c.results && a == Row(IdKey(x), 0, c.block.height);
      var y :| y in d.results && b == Row(IdKey(y), 0, d.block.height);
      assert x == y;
    } else {
      var x :| x in c.systemResults && a == Row(SystemResultKey(ids.blockID(c.block), x), 0, c.block.height);
      var y :| y in d.systemResults && b == Row(SystemResultKey(ids.blockID(d.block), y), 0, d.block.height);
      SameBlock(ids, c.block, d.block);
    }
  }

  // ---------------------------------------------------------------- newest-first answers

  /** The answer found by searching the layers from the top. */
  function Newest(layers: seq<Table>, key: string): (r: Option<Cell>) {
    if layers == [] then None
    else
      var n := |layers| - 1;
      if Row(key, 0, n) in layers[n] then Some(layers[n][Row(key, 0, n)])
      else Newest(layers[..n], key)
  }

  lemma {:induction false} NewestIsARow(layers: seq<Table>, key: string)
    requires Layered(layers) && forall i | 0 <= i < |layers| :: Unversioned(layers[i])
    ensures Newest(layers, key).Some? ==>
              exists row :: row in Stack(layers) && row.key == key && Stack(layers)[row] == Newest(layers, key).value
    ensures Newest(layers, key).None? ==> forall row | row in Stack(layers) :: row.key != key
  {
    if layers != [] {
      var n := |layers| - 1;
      var top := Row(key, 0, n);
      if top in layers[n] {
        assert top in Stack(layers);
      } else {
        NewestIsARow(layers[..n], key);
        assert forall row | row in layers[n] :: row.key != key by {
          forall row | row in layers[n] ensures row.key != key {
            assert row == Row(row.key, 0, n);
          }
        }
      }
    }
  }

  function Find(ids: Hashes, hist: seq<Commit>, name: StoreName, key: string): (r: Option<Cell>) {
    Newest(Layers(ids, hist, name), key)
  }

  /** Reading a table of the database is searching the chain from its
      newest block down. */
  lemma ReadIsFind(ids: Hashes, hist: seq<Commit>, name: StoreName, key: string, r: Option<Cell>)
    requires Consistent(ids, hist) && name != Registers
    ensures Reads(Replayed(ids, hist, name), key, 0, r) <==> r == Find(ids, hist, name, key)
  {
    hide Layer, Stack, Newest, Reads;
    TiesAgreeInReplay(ids, hist, name);
    ReplayedUnversioned(ids, hist, name);
    LayersLayered(ids, hist, name);
    forall i | 0 <= i < |hist| ensures Unversioned(Layers(ids, hist, name)[i]) {
      LayerHeight(ids, hist[i], name);
    }
    NewestIsARow(Layers(ids, hist, name), key);
    var t := Replayed(ids, hist, name);
    if Find(ids, hist, name, key).Some? {
      var row :| row in t && row.key == key && t[row] == Find(ids, hist, name, key).value;
      RowAnswers(t, row, 0, r);
    } else {
      NoRowAnswers(t, key, 0, r);
    }
  }

  lemma FindSnoc(ids: Hashes, hist: seq<Commit>, c: Commit, name: StoreName, key: string)
    ensures var row := Row(key, 0, |hist|);
            Find(ids, hist + [c], name, key) ==
              if row in Layer(ids, c, name) then Some(Layer(ids, c, name)[row]) else Find(ids, hist, name, key)
  {
    hide Layer;
    var more := Layers(ids, hist + [c], name);
    assert more[..|hist|] == Layers(ids, hist, name);
  }

  // ---------------------------------------------------------------- registers

  /** The registers as of a height: each block's writes over those before it. */
  function RegistersAt(hist: seq<Commit>, height: nat): (l: Ledger)
    requires height < |hist|
  {
    (if height == 0 then map[] else RegistersAt(hist, height - 1)) + hist[height].writes
  }

  lemma ReplayedLedger(ids: Hashes, hist: seq<Commit>)
    requires ConsecutiveFrom(hist, 0)
    ensures LedgerTable(Replayed(ids, hist, Registers))
  {
    hide Replayed;
    var t := Replayed(ids, hist, Registers);
    forall row | row in t ensures row.version == row.height && t[row].RegisterCell? {
      ReplayedRow(ids, hist, Registers, row);
    }
  }

  lemma WrittenInReplay(ids: Hashes, hist: seq<Commit>, height: nat)
    requires ConsecutiveFrom(hist, 0) && height < |hist|
    ensures WrittenAt(Replayed(ids, hist, Registers), height) == hist[height].writes
  {
    hide Replayed, WrittenAt;
    var t, w := Replayed(ids, hist, Registers), WrittenAt(Replayed(ids, hist, Registers), height);
    ReplayedLedger(ids, hist);
    forall id: RegisterID
      ensures id in w <==> id in hist[height].writes
      ensures id in w ==> w[id] == hist[height].writes[id]
    {
      WrittenAtRow(t, id, height);
      ReplayedRow(ids, hist, Registers, Row(id, height, height));
    }
  }

  lemma {:induction false} LedgerInReplay(ids: Hashes, hist: seq<Commit>, height: nat)
    requires ConsecutiveFrom(hist, 0) && height < |hist|
    ensures LedgerAt(Replayed(ids, hist, Registers), height) == RegistersAt(hist, height)
  {
    hide Replayed, WrittenAt;
    WrittenInReplay(ids, hist, height);
    if height > 0 {
      LedgerInReplay(ids, hist, height - 1);
    }
  }

  /** Registers read at a height depend only on the blocks up to it. */
  lemma {:induction false} RegistersAtPrefix(hist: seq<Commit>, more: seq<Commit>, height: nat)
    requires height < |hist| && hist <= more
    ensures RegistersAt(more, height) == RegistersAt(hist, height)
  {
    if height > 0 {
      RegistersAtPrefix(hist, more, height - 1);
    }
  }
}
