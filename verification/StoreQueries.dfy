/** What can be asked of a store: the answers of the row store, and the answers
    read straight off the chain of commits. */
module StoreQueries {
  import opened Types
  import opened Keys
  import opened Tables
  import opened Storage
  import opened History
  import opened Positions

  datatype Query =
    | LatestBlock
    | BlockByHeight(height: nat)
    | BlockByID(blockID: Identifier)
    | CollectionByID(collectionID: Identifier)
    | TransactionByID(txID: Identifier)
    | TransactionResultByID(txID: Identifier)
    | SystemTransactionResultByID(blockID: Identifier, txID: Identifier)
    | SystemTransactionsForBlockID(blockID: Identifier)
    | EventsByHeight(height: nat, kind: string)
    | RegisterAtHeight(register: RegisterID, height: nat)

  /** The events of one kind, or all of them for the empty kind. */
  function OfKind(events: seq<Event>, kind: string): (kept: seq<Event>) {
    if events == [] then []
    else
      var rest := OfKind(events[1..], kind);
      if kind != "" && events[0].kind != kind then rest else [events[0]] + rest
  }

  /** Filtering by kind, said without the recursion: the events at the positions of
      the kind, in order, and all events for the empty kind. */
  ghost predicate Filtered(events: seq<Event>, kind: string, kept: seq<Event>) {
    exists positions :: PositionsOf(positions, events, kind, kind == "") && Picked(events, positions, kept)
  }

  lemma {:induction false} OfKindSnoc(events: seq<Event>, event: Event, kind: string)
    ensures OfKind(events + [event], kind) ==
            if kind == "" || event.kind == kind then OfKind(events, kind) + [event] else OfKind(events, kind)
  {
    if events == [] {
      assert ([] + [event])[1..] == [];
    } else {
      assert (events + [event])[1..] == events[1..] + [event];
      OfKindSnoc(events[1..], event, kind);
    }
  }

  lemma {:induction false} OfKindIs(events: seq<Event>, kind: string) returns (positions: seq<nat>)
    ensures PositionsOf(positions, events, kind, kind == "") && Picked(events, positions, OfKind(events, kind))
  {
    positions := [];
    if events == [] {
      NoPositions(kind, kind == "");
    } else {
      hide PositionsOf, OfKind, Picked;
      var n := |events| - 1;
      positions := OfKindIs(events[..n], kind);
      assert events == events[..n] + [events[n]];
      OfKindSnoc(events[..n], events[n], kind);
      PickedSnoc(events[..n], positions, OfKind(events[..n], kind), events[n]);
      PositionsSnoc(positions, events[..n], events[n], kind, kind == "");
      if kind == "" || events[n].kind == kind { positions := positions + [n]; }
    }
  }

  /** The filter keeps exactly the events so described. */
  lemma OfKindExactly(events: seq<Event>, kind: string, kept: seq<Event>)
    ensures Filtered(events, kind, kept) <==> kept == OfKind(events, kind)
  {
    hide OfKind, PositionsOf;
    var mine := OfKindIs(events, kind);
    if positions :| PositionsOf(positions, events, kind, kind == "") && Picked(events, positions, kept) {
      PositionsUnique(mine, positions, events, kind, kind == "");
    }
  }

  method SelectEvents(all: seq<Event>, kind: string) returns (kept: seq<Event>)
    ensures Filtered(all, kind, kept) && kept == OfKind(all, kind)
  {
    hide Filtered;
    kept := [];
    for i := 0 to |all|
      invariant kept + OfKind(all[i..], kind) == OfKind(all, kind)
    {
      assert all[i..][1..] == all[i + 1..];
      if kind == "" || all[i].kind == kind {
        kept := kept + [all[i]];
      }
    }
    assert all[|all|..] == [] && kept + [] == kept;
    OfKindExactly(all, kind, kept);
  }

  function EventsAnswer(stored: Option<Cell>, kind: string): (r: Option<Cell>) {
    match stored
    case None => Some(EventsCell([]))
    case Some(cell) => if cell.EventsCell? then Some(EventsCell(OfKind(cell.events, kind))) else None
  }

  // ---------------------------------------------------------------- the row store

  ghost predicate ReadsBlock(db: Db, height: Option<Cell>, r: Option<Cell>) {
    if height.Some? && height.value.HeightCell?
    then Reads(db.Rows(Blocks), HeightKey(height.value.height), 0, r)
    else r == None
  }

  /** `r` is a possible answer of the row store. */
  ghost predicate SqlAnswers(db: Db, q: Query, r: Option<Cell>) {
    match q
    case LatestBlock =>
      exists h :: Reads(db.Rows(Global), LATEST_BLOCK_KEY, 0, h) && ReadsBlock(db, h, r)
    case BlockByHeight(height) => Reads(db.Rows(Blocks), HeightKey(height), 0, r)
    case BlockByID(id) =>
      exists h :: Reads(db.Rows(BlockIndex), IdKey(id), 0, h) && ReadsBlock(db, h, r)
    case CollectionByID(id) => Reads(db.Rows(Collections), IdKey(id), 0, r)
    case TransactionByID(id) => Reads(db.Rows(Transactions), IdKey(id), 0, r)
    case TransactionResultByID(id) => Reads(db.Rows(TransactionResults), IdKey(id), 0, r)
    case SystemTransactionResultByID(b, id) => Reads(db.Rows(TransactionResults), SystemResultKey(b, id), 0, r)
    case SystemTransactionsForBlockID(b) => Reads(db.Rows(SystemTransactionsOf), IdKey(b), 0, r)
    case EventsByHeight(height, kind) =>
      exists stored :: Reads(db.Rows(Events), HeightKey(height), 0, stored) && r == EventsAnswer(stored, kind)
    case RegisterAtHeight(id, height) => Reads(db.Rows(Registers), id, height, r)
  }

  // ---------------------------------------------------------------- the chain of commits

  function HeightOf(ids: Hashes, hist: seq<Commit>, blockID: Identifier): (h: Option<nat>)
    ensures h.Some? ==> h.value < |hist| && ids.blockID(hist[h.value].block) == blockID
  {
    if hist == [] then None
    else
      var n := |hist| - 1;
      if ids.blockID(hist[n].block) == blockID then Some(n) else HeightOf(ids, hist[..n], blockID)
  }

  function CollectionIn(ids: Hashes, hist: seq<Commit>, id: Identifier): (r: Option<Cell>) {
    Find(ids, hist, Collections, IdKey(id))
  }

  function BodyIn(hist: seq<Commit>, id: Identifier): (r: Option<Cell>) {
    if hist == [] then None
    else
      var n := |hist| - 1;
      if id in hist[n].systemBodies then Some(BodyCell(hist[n].systemBodies[id]))
      else if id in hist[n].transactions then Some(BodyCell(hist[n].transactions[id]))
      else BodyIn(hist[..n], id)
  }

  function ResultIn(hist: seq<Commit>, id: Identifier): (r: Option<Cell>) {
    if hist == [] then None
    else
      var n := |hist| - 1;
      if id in hist[n].results then Some(ResultCell(hist[n].results[id])) else ResultIn(hist[..n], id)
  }

  function SystemResultIn(ids: Hashes, hist: seq<Commit>, blockID: Identifier, id: Identifier): (r: Option<Cell>) {
    var h := HeightOf(ids, hist, blockID);
    if h.Some? && id in hist[h.value].systemResults then Some(ResultCell(hist[h.value].systemResults[id]))
    else None
  }

  function SystemListIn(ids: Hashes, hist: seq<Commit>, blockID: Identifier): (r: Option<Cell>) {
    var h := HeightOf(ids, hist, blockID);
    if h.Some? && (|hist[h.value].systemIDs| > 0 || |hist[h.value].scheduled| > 0)
    then Some(SystemCell(SystemTransactions(blockID, hist[h.value].systemIDs, hist[h.value].scheduled)))
    else None
  }

  /** The answer the chain of commits determines. Registers above the tip read
      as at the tip. */
  function ChainAnswer(ids: Hashes, hist: seq<Commit>, q: Query): (r: Option<Cell>)
    requires hist != []
  {
    match q
    case LatestBlock => Some(BlockCell(hist[|hist| - 1].block))
    case BlockByHeight(h) => if h < |hist| then Some(BlockCell(hist[h].block)) else None
    case BlockByID(id) =>
      var h := HeightOf(ids, hist, id);
      if h.Some? then Some(BlockCell(hist[h.value].block)) else None
    case CollectionByID(id) => CollectionIn(ids, hist, id)
    case TransactionByID(id) => BodyIn(hist, id)
    case TransactionResultByID(id) => ResultIn(hist, id)
    case SystemTransactionResultByID(b, id) => SystemResultIn(ids, hist, b, id)
    case SystemTransactionsForBlockID(b) => SystemListIn(ids, hist, b)
    case EventsByHeight(h, kind) => Some(EventsCell(if h < |hist| then OfKind(hist[h].events, kind) else []))
    case RegisterAtHeight(id, h) => Lookup(RegistersAt(hist, if h < |hist| then h else |hist| - 1), id)
  }

  // ---------------------------------------------------------------- searching each table

  lemma {:induction false} FindBlock(ids: Hashes, hist: seq<Commit>, height: nat)
    requires ConsecutiveFrom(hist, 0)
    ensures Find(ids, hist, Blocks, HeightKey(height)) ==
            if height < |hist| then Some(BlockCell(hist[height].block)) else None
    ensures Find(ids, hist, Events, HeightKey(height)) ==
            if height < |hist| then Some(EventsCell(hist[height].events)) else None
  {
    hide HeightKey, FromDecimal, Find;
    if hist == [] {
      FindNothing(ids, Blocks, HeightKey(height));
      FindNothing(ids, Events, HeightKey(height));
    } else {
      var n := |hist| - 1;
      assert hist == hist[..n] + [hist[n]];
      FindBlock(ids, hist[..n], height);
      FindSnoc(ids, hist[..n], hist[n], Blocks, HeightKey(height));
      FindSnoc(ids, hist[..n], hist[n], Events, HeightKey(height));
    }
  }

  lemma FindNothing(ids: Hashes, name: StoreName, key: string)
    ensures Find(ids, [], name, key) == None
  {}

  lemma {:induction false} FindHeight(ids: Hashes, hist: seq<Commit>, id: Identifier)
    requires ConsecutiveFrom(hist, 0)
    ensures Find(ids, hist, BlockIndex, IdKey(id)) ==
            match HeightOf(ids, hist, id) case None => None case Some(h) => Some(HeightCell(h))
  {
    hide IdKey, UnHex, Find;
    if hist == [] {
      FindNothing(ids, BlockIndex, IdKey(id));
    } else {
      var n := |hist| - 1;
      assert hist == hist[..n] + [hist[n]];
      FindHeight(ids, hist[..n], id);
      FindSnoc(ids, hist[..n], hist[n], BlockIndex, IdKey(id));
    }
  }

  lemma BodyAt(ids: Hashes, c: Commit, id: Identifier)
    ensures var row, t := Row(IdKey(id), 0, c.block.height), Layer(ids, c, Transactions);
            && (row in t <==> id in c.transactions || id in c.systemBodies)
            && (row in t ==> t[row] == BodyCell(if id in c.systemBodies then c.systemBodies[id] else c.transactions[id]))
  {
    hide IdKey, UnHex, BodyRows;
    BodyRowsAt(c.transactions, c.block.height, id);
    BodyRowsAt(c.systemBodies, c.block.height, id);
  }

  lemma {:induction false} FindBody(ids: Hashes, hist: seq<Commit>, id: Identifier)
    requires ConsecutiveFrom(hist, 0)
    ensures Find(ids, hist, Transactions, IdKey(id)) == BodyIn(hist, id)
  {
    hide IdKey, UnHex, Find, Layer;
    if hist == [] {
      FindNothing(ids, Transactions, IdKey(id));
    } else {
      var n := |hist| - 1;
      assert hist == hist[..n] + [hist[n]];
      FindBody(ids, hist[..n], id);
      FindSnoc(ids, hist[..n], hist[n], Transactions, IdKey(id));
      BodyAt(ids, hist[n], id);
    }
  }

  lemma ResultAt(ids: Hashes, c: Commit, id: Identifier)
    ensures var row, t := Row(IdKey(id), 0, c.block.height), Layer(ids, c, TransactionResults);
            && (row in t <==> id in c.results)
            && (row in t ==> t[row] == ResultCell(c.results[id]))
  {
    hide IdKey, UnHex, SystemResultKey, SystemKeyBlock, SystemKeyTransaction, ResultRows, SystemResultRows;
    var h, b := c.block.height, ids.blockID(c.block);
    ResultRowsAt(c.results, h, id);
    if Row(IdKey(id), 0, h) in SystemResultRows(b, c.systemResults, h) {
      var x := SystemResultRowsOf(b, c.systemResults, h, Row(IdKey(id), 0, h));
      assert false;
    }
  }

  lemma {:induction false} FindResult(ids: Hashes, hist: seq<Commit>, id: Identifier)
    requires ConsecutiveFrom(hist, 0)
    ensures Find(ids, hist, TransactionResults, IdKey(id)) == ResultIn(hist, id)
  {
    hide IdKey, UnHex, Find, Layer;
    if hist == [] {
      FindNothing(ids, TransactionResults, IdKey(id));
    } else {
      var n := |hist| - 1;
      assert hist == hist[..n] + [hist[n]];
      FindResult(ids, hist[..n], id);
      FindSnoc(ids, hist[..n], hist[n], TransactionResults, IdKey(id));
      ResultAt(ids, hist[n], id);
    }
  }

  /** A block's identifier occurs nowhere below it. */
  lemma BlockIsFresh(ids: Hashes, hist: seq<Commit>, c: Commit)
    requires ids.Injective() && ConsecutiveFrom(hist, 0) && c.block.height == |hist|
    ensures HeightOf(ids, hist, ids.blockID(c.block)) == None
  {}

  lemma SystemResultAt(ids: Hashes, c: Commit, blockID: Identifier, id: Identifier)
    ensures var row, t := Row(SystemResultKey(blockID, id), 0, c.block.height), Layer(ids, c, TransactionResults);
            && (row in t <==> ids.blockID(c.block) == blockID && id in c.systemResults)
            && (row in t ==> t[row] == ResultCell(c.systemResults[id]))
  {
    hide IdKey, UnHex, SystemResultKey, SystemKeyBlock, SystemKeyTransaction, ResultRows, SystemResultRows;
    var h, b := c.block.height, ids.blockID(c.block);
    var row := Row(SystemResultKey(blockID, id), 0, h);
    SystemResultRowsAt(b, c.systemResults, h, id);
    if row in SystemResultRows(b, c.systemResults, h) {
      var x := SystemResultRowsOf(b, c.systemResults, h, row);
      assert SystemKeyBlock(row.key) == b == blockID;
    }
    if row in ResultRows(c.results, h) {
      var x := ResultRowsOf(c.results, h, row);
      assert false;
    }
  }

  lemma {:induction false} FindSystemResult(ids: Hashes, hist: seq<Commit>, blockID: Identifier, id: Identifier)
    requires ids.Injective() && ConsecutiveFrom(hist, 0)
    ensures Find(ids, hist, TransactionResults, SystemResultKey(blockID, id)) == SystemResultIn(ids, hist, blockID, id)
  {
    hide SystemResultKey, SystemKeyBlock, SystemKeyTransaction, Find, Layer;
    var key := SystemResultKey(blockID, id);
    if hist == [] {
      FindNothing(ids, TransactionResults, key);
    } else {
      var n := |hist| - 1;
      assert hist == hist[..n] + [hist[n]];
      FindSystemResult(ids, hist[..n], blockID, id);
      FindSnoc(ids, hist[..n], hist[n], TransactionResults, key);
      SystemResultAt(ids, hist[n], blockID, id);
      BlockIsFresh(ids, hist[..n], hist[n]);
    }
  }

  lemma SystemListAt(ids: Hashes, c: Commit, blockID: Identifier)
    ensures var row, t := Row(IdKey(blockID), 0, c.block.height), Layer(ids, c, SystemTransactionsOf);
            && (row in t <==> ids.blockID(c.block) == blockID && (|c.systemIDs| > 0 || |c.scheduled| > 0))
            && (row in t ==> t[row] == SystemCell(SystemTransactions(blockID, c.systemIDs, c.scheduled)))
  {
    hide IdKey, UnHex;
  }

  lemma {:induction false} FindSystemList(ids: Hashes, hist: seq<Commit>, blockID: Identifier)
    requires ids.Injective() && ConsecutiveFrom(hist, 0)
    ensures Find(ids, hist, SystemTransactionsOf, IdKey(blockID)) == SystemListIn(ids, hist, blockID)
  {
    hide IdKey, UnHex, Find, Layer;
    if hist == [] {
      FindNothing(ids, SystemTransactionsOf, IdKey(blockID));
    } else {
      var n := |hist| - 1;
      assert hist == hist[..n] + [hist[n]];
      FindSystemList(ids, hist[..n], blockID);
      FindSnoc(ids, hist[..n], hist[n], SystemTransactionsOf, IdKey(blockID));
      SystemListAt(ids, hist[n], blockID);
      BlockIsFresh(ids, hist[..n], hist[n]);
    }
  }

  // ---------------------------------------------------------------- the row store answers for the chain

  lemma LatestIsUnique(db: Db, r: Option<Cell>)
    requires db.GlobalFlat() && db.LatestHeight().Some?
    ensures Reads(db.Rows(Global), LATEST_BLOCK_KEY, 0, r) <==> r == Some(HeightCell(db.LatestHeight().value))
  {
    var t := db.Rows(Global);
    assert TiesAgree(t) by {
      forall a, b | a in t && b in t && a.key == b.key && a.version == b.version ensures t[a] == t[b] {
        assert a == b;
      }
    }
    RowAnswers(t, LATEST, 0, r);
  }

  lemma ReadsStoredBlock(ids: Hashes, db: Db, hist: seq<Commit>, height: nat, r: Option<Cell>)
    requires Holds(ids, db, hist) && Consistent(ids, hist)
    ensures Reads(db.Rows(Blocks), HeightKey(height), 0, r) <==>
              r == if height < |hist| then Some(BlockCell(hist[height].block)) else None
  {
    hide Replayed, Reads, HeightKey, FromDecimal, Find;
    ReadIsFind(ids, hist, Blocks, HeightKey(height), r);
    FindBlock(ids, hist, height);
  }

  lemma LatestBlockAnswer(ids: Hashes, db: Db, hist: seq<Commit>, r: Option<Cell>)
    requires Holds(ids, db, hist) && Consistent(ids, hist)
    ensures SqlAnswers(db, LatestBlock, r) <==> r == ChainAnswer(ids, hist, LatestBlock)
  {
    hide Replayed, Reads, HeightKey, FromDecimal;
    var tip := Some(HeightCell(|hist| - 1));
    ReadsStoredBlock(ids, db, hist, |hist| - 1, r);
    forall h ensures Reads(db.Rows(Global), LATEST_BLOCK_KEY, 0, h) <==> h == tip {
      LatestIsUnique(db, h);
    }
    assert Reads(db.Rows(Global), LATEST_BLOCK_KEY, 0, tip);
  }

  lemma BlockByIDAnswer(ids: Hashes, db: Db, hist: seq<Commit>, id: Identifier, r: Option<Cell>)
    requires Holds(ids, db, hist) && Consistent(ids, hist)
    ensures SqlAnswers(db, BlockByID(id), r) <==> r == ChainAnswer(ids, hist, BlockByID(id))
  {
    hide Replayed, Reads, HeightKey, FromDecimal, IdKey, UnHex, Find;
    FindHeight(ids, hist, id);
    var found := Find(ids, hist, BlockIndex, IdKey(id));
    forall h ensures Reads(db.Rows(BlockIndex), IdKey(id), 0, h) <==> h == found {
      ReadIsFind(ids, hist, BlockIndex, IdKey(id), h);
    }
    assert Reads(db.Rows(BlockIndex), IdKey(id), 0, found);
    if found.Some? { ReadsStoredBlock(ids, db, hist, found.value.height, r); }
  }

  lemma EventsByHeightAnswer(ids: Hashes, db: Db, hist: seq<Commit>, height: nat, kind: string, r: Option<Cell>)
    requires Holds(ids, db, hist) && Consistent(ids, hist)
    ensures SqlAnswers(db, EventsByHeight(height, kind), r) <==>
              r == ChainAnswer(ids, hist, EventsByHeight(height, kind))
  {
    hide Replayed, Reads, HeightKey, FromDecimal, Find, OfKind;
    FindBlock(ids, hist, height);
    var found := Find(ids, hist, Events, HeightKey(height));
    forall stored ensures Reads(db.Rows(Events), HeightKey(height), 0, stored) <==> stored == found {
      ReadIsFind(ids, hist, Events, HeightKey(height), stored);
    }
    assert Reads(db.Rows(Events), HeightKey(height), 0, found);
  }

  /** The events read at a height are those of its block that are of the kind, in
      order, and there is no other answer. */
  lemma EventsAreFiltered(ids: Hashes, db: Db, hist: seq<Commit>, height: nat, kind: string, r: Option<Cell>)
    requires Holds(ids, db, hist) && Consistent(ids, hist)
    ensures SqlAnswers(db, EventsByHeight(height, kind), r) <==>
              && r.Some? && r.value.EventsCell?
              && Filtered(if height < |hist| then hist[height].events else [], kind, r.value.events)
  {
    hide Holds, Consistent, SqlAnswers, Filtered, OfKind;
    EventsByHeightAnswer(ids, db, hist, height, kind, r);
    var events := if height < |hist| then hist[height].events else [];
    NothingOfKind(kind);
    if r.Some? && r.value.EventsCell? { OfKindExactly(events, kind, r.value.events); }
    InHistory(ids, db, hist);
  }

  lemma InHistory(ids: Hashes, db: Db, hist: seq<Commit>)
    requires Holds(ids, db, hist)
    ensures hist != []
  {}

  lemma NothingOfKind(kind: string)
    ensures OfKind([], kind) == []
  {}

  /** Every question about blocks, collections, transactions, results, events
      and registers has exactly one answer, the one the chain determines. */
  lemma SqlAnswersChain(ids: Hashes, db: Db, hist: seq<Commit>, q: Query, r: Option<Cell>)
    requires Holds(ids, db, hist) && Consistent(ids, hist)
    requires !q.SystemTransactionsForBlockID?
    ensures SqlAnswers(db, q, r) <==> r == ChainAnswer(ids, hist, q)
  {
    hide Replayed, Reads, HeightKey, FromDecimal, IdKey, UnHex, SystemResultKey, SystemKeyBlock,
         SystemKeyTransaction, Find;
    match q {
      case LatestBlock =>
        LatestBlockAnswer(ids, db, hist, r);
      case BlockByHeight(height) =>
        ReadsStoredBlock(ids, db, hist, height, r);
      case BlockByID(id) =>
        BlockByIDAnswer(ids, db, hist, id, r);
      case CollectionByID(id) =>
        ReadIsFind(ids, hist, Collections, IdKey(id), r);
      case TransactionByID(id) =>
        FindBody(ids, hist, id);
        ReadIsFind(ids, hist, Transactions, IdKey(id), r);
      case TransactionResultByID(id) =>
        FindResult(ids, hist, id);
        ReadIsFind(ids, hist, TransactionResults, IdKey(id), r);
      case SystemTransactionResultByID(b, id) =>
        FindSystemResult(ids, hist, b, id);
        ReadIsFind(ids, hist, TransactionResults, SystemResultKey(b, id), r);
      case EventsByHeight(height, kind) =>
        EventsByHeightAnswer(ids, db, hist, height, kind, r);
      case RegisterAtHeight(id, height) =>
        RegisterAnswer(ids, hist, id, height, r);
    }
  }

  lemma {:induction false} LedgerAboveTip(ids: Hashes, hist: seq<Commit>, height: nat)
    requires hist != [] && ConsecutiveFrom(hist, 0) && height >= |hist| - 1
    ensures LedgerAt(Replayed(ids, hist, Registers), height) == RegistersAt(hist, |hist| - 1)
  {
    hide Replayed, WrittenAt;
    var t := Replayed(ids, hist, Registers);
    if height == |hist| - 1 {
      LedgerInReplay(ids, hist, height);
    } else {
      LedgerAboveTip(ids, hist, height - 1);
      ReplayedLedger(ids, hist);
      forall id: RegisterID ensures id !in WrittenAt(t, height) {
        WrittenAtRow(t, id, height);
        ReplayedRow(ids, hist, Registers, Row(id, height, height));
      }
    }
  }

  lemma RegisterAnswer(ids: Hashes, hist: seq<Commit>, id: RegisterID, height: nat, r: Option<Cell>)
    requires hist != [] && ConsecutiveFrom(hist, 0)
    ensures Reads(Replayed(ids, hist, Registers), id, height, r) <==>
              r == Lookup(RegistersAt(hist, if height < |hist| then height else |hist| - 1), id)
  {
    hide Replayed, Reads, LedgerAt;
    ReplayedLedger(ids, hist);
    LedgerReadIsReplay(Replayed(ids, hist, Registers), id, height, r);
    if height < |hist| { LedgerInReplay(ids, hist, height); } else { LedgerAboveTip(ids, hist, height); }
  }
}
