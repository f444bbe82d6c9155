/** The ways of asking for a transaction's result, and what they promise even
    through indexes that rollbacks leave stale. */
module Lookups {
  import opened Types
  import opened Keys
  import opened Tables
  import opened Storage
  import opened History
  import opened StoreQueries
  import opened Pending
  import opened Chain
  import opened Invariants
  import opened Runs

  /** A result as clients see it. */
  datatype TransactionResult =
    | PendingResult
    | UnknownResult
    | SealedResult(
        txID: Identifier,
        blockID: Identifier,
        blockHeight: nat,
        collectionID: Identifier,
        events: seq<Event>,
        statusCode: nat,
        errorMessage: string)

  function ToResult(txID: Identifier, stored: StorableResult): (r: TransactionResult) {
    SealedResult(txID, stored.blockID, stored.blockHeight, stored.collectionID, stored.events,
                 if stored.errorCode > 0 then 1 else 0, stored.errorMessage)
  }

  function FromCell(txID: Identifier, cell: Option<Cell>): (r: TransactionResult) {
    if cell.Some? && cell.value.ResultCell? then ToResult(txID, cell.value.result) else UnknownResult
  }

  // ---------------------------------------------------------------- lookups as relations

  /** Possible answers for a system transaction in a given block. */
  ghost predicate SystemAnswers(c: Chain, blockID: Identifier, txID: Identifier, r: TransactionResult) {
    exists cell :: SqlAnswers(c.db, SystemTransactionResultByID(blockID, txID), cell) && r == FromCell(txID, cell)
  }

  /** Possible answers through the index from transaction to block. */
  ghost predicate IndexAnswers(c: Chain, txID: Identifier, r: TransactionResult) {
    exists entry :: Reads(c.db.tables.scheduledBlockIndex, IdKey(txID), 0, entry)
                    && if entry.Some? && entry.value.IdCell? then SystemAnswers(c, entry.value.id, txID, r)
                       else r == UnknownResult
  }

  /** Possible answers for a transaction identifier: pending first, then results
      of user transactions, then scheduled transactions. */
  ghost predicate ResultAnswers(c: Chain, txID: Identifier, r: TransactionResult) {
    if txID in c.pending.transactions then r == PendingResult
    else exists cell :: SqlAnswers(c.db, TransactionResultByID(txID), cell)
                        && if cell.Some? then r == FromCell(txID, cell) else IndexAnswers(c, txID, r)
  }

  /** Possible answers for a scheduled number in a block; None is "not found". */
  ghost predicate NumberInBlockAnswers(c: Chain, number: nat, blockID: Identifier, r: Option<TransactionResult>) {
    exists list :: SqlAnswers(c.db, SystemTransactionsForBlockID(blockID), list)
                   && if list.Some? && list.value.SystemCell? && number in list.value.system.scheduled
                      then r.Some? && SystemAnswers(c, blockID, list.value.system.scheduled[number], r.value)
                      else r == None
  }

  /** Possible answers for a scheduled number. */
  ghost predicate NumberAnswers(c: Chain, number: nat, r: Option<TransactionResult>) {
    exists entry :: Reads(c.db.tables.scheduledIndex, ScheduledKey(number), 0, entry)
                    && if entry.Some? && entry.value.IdCell? then NumberInBlockAnswers(c, number, entry.value.id, r)
                       else r == None
  }

  /** Possible answers for a system transaction that must be listed for a block;
      the zero identifier asks for the last one listed. */
  ghost predicate ListedSystemAnswers(c: Chain, txID: Identifier, blockID: Identifier, r: Option<TransactionResult>) {
    exists list :: SqlAnswers(c.db, SystemTransactionsForBlockID(blockID), list)
                   && if list.Some? && list.value.SystemCell?
                      then
                        var ids := list.value.system.transactions;
                        if txID == ZERO_ID then
                          if ids == [] then r == None
                          else r.Some? && SystemAnswers(c, blockID, ids[|ids| - 1], r.value)
                        else if txID in ids then r.Some? && SystemAnswers(c, blockID, txID, r.value)
                        else r == None
                      else r == None
  }

  datatype Lookup =
    | ByTransaction(txID: Identifier)
    | ByNumber(number: nat)
    | ByNumberInBlock(number: nat, blockID: Identifier)
    | BySystemTransaction(txID: Identifier, blockID: Identifier)

  ghost predicate LookupAnswers(c: Chain, l: Lookup, r: Option<TransactionResult>) {
    match l
    case ByTransaction(id) => r.Some? && ResultAnswers(c, id, r.value)
    case ByNumber(n) => NumberAnswers(c, n, r)
    case ByNumberInBlock(n, b) => NumberInBlockAnswers(c, n, b, r)
    case BySystemTransaction(id, b) => ListedSystemAnswers(c, id, b, r)
  }

  // ---------------------------------------------------------------- no dangling results

  /** The block a result names is stored, under that identifier and at that
      height. */
  ghost predicate NamesStoredBlock(e: Engine, c: Chain, r: TransactionResult)
    requires r.SealedResult?
  {
    && (forall x | SqlAnswers(c.db, BlockByID(r.blockID), x) ::
          x.Some? && x.value.BlockCell? && e.ids.blockID(x.value.block) == r.blockID
          && x.value.block.height == r.blockHeight)
    && (forall x | SqlAnswers(c.db, BlockByHeight(r.blockHeight), x) ::
          x.Some? && x.value.BlockCell? && e.ids.blockID(x.value.block) == r.blockID)
  }

  lemma NamesBlockOf(e: Engine, c: Chain, hist: seq<Commit>, r: TransactionResult, i: nat)
    requires Inv(e, c, hist) && i < |hist| && r.SealedResult?
    requires r.blockID == e.ids.blockID(hist[i].block) && r.blockHeight == i
    ensures NamesStoredBlock(e, c, r)
  {
    hide SqlAnswers, GoodHistory, Holds, SystemListsKept, PendingOn;
    GoodIsConsistent(e, hist);
    OwnHeight(e.ids, hist, i);
    HeightsMatch(hist, i);
    forall x
      ensures SqlAnswers(c.db, BlockByID(r.blockID), x) <==> x == Some(BlockCell(hist[i].block))
      ensures SqlAnswers(c.db, BlockByHeight(r.blockHeight), x) <==> x == Some(BlockCell(hist[i].block))
    {
      hide Consistent;
      SqlAnswersChain(e.ids, c.db, hist, BlockByID(r.blockID), x);
      SqlAnswersChain(e.ids, c.db, hist, BlockByHeight(r.blockHeight), x);
    }
  }

  lemma HeightsMatch(hist: seq<Commit>, i: nat)
    requires ConsecutiveFrom(hist, 0) && i < |hist|
    ensures hist[i].block.height == i
  {}

  lemma {:induction false} OwnHeight(ids: Hashes, hist: seq<Commit>, i: nat)
    requires ids.Injective() && ConsecutiveFrom(hist, 0) && i < |hist|
    ensures HeightOf(ids, hist, ids.blockID(hist[i].block)) == Some(i)
  {
    var n := |hist| - 1;
    if i < n {
      OwnHeight(ids, hist[..n], i);
    }
  }

  lemma {:induction false} ResultFromBlock(hist: seq<Commit>, id: Identifier) returns (i: nat)
    requires ResultIn(hist, id).Some?
    ensures i < |hist| && id in hist[i].results && ResultIn(hist, id) == Some(ResultCell(hist[i].results[id]))
  {
    var n := |hist| - 1;
    if id in hist[n].results { i := n; } else { i := ResultFromBlock(hist[..n], id); }
  }

  lemma NamedBlock(e: Engine, hist: seq<Commit>, i: nat, id: Identifier)
    requires GoodHistory(e, hist) && i < |hist|
    ensures id in hist[i].results ==>
              hist[i].results[id].blockID == e.ids.blockID(hist[i].block) && hist[i].results[id].blockHeight == i
    ensures id in hist[i].systemResults ==>
              hist[i].systemResults[id].blockID == e.ids.blockID(hist[i].block) && hist[i].systemResults[id].blockHeight == i
  {
    hide Follows, NeverReused;
    if i > 0 { assert Proper(e, hist[i]) && hist[i].block.height == i; }
  }

  lemma SystemResultNamesBlock(e: Engine, c: Chain, hist: seq<Commit>, b: Identifier, id: Identifier,
                               r: TransactionResult)
    requires Inv(e, c, hist) && SystemAnswers(c, b, id, r) && r.SealedResult?
    ensures NamesStoredBlock(e, c, r)
  {
    hide SqlAnswers, Consistent, NamesStoredBlock;
    hide GoodHistory, Holds, SystemListsKept, PendingOn;
    GoodIsConsistent(e, hist);
    var cell :| SqlAnswers(c.db, SystemTransactionResultByID(b, id), cell) && r == FromCell(id, cell);
    SqlAnswersChain(e.ids, c.db, hist, SystemTransactionResultByID(b, id), cell);
    var i := HeightOf(e.ids, hist, b).value;
    NamedBlock(e, hist, i, id);
    NamesBlockOf(e, c, hist, r, i);
  }

  lemma UserResultNamesBlock(e: Engine, c: Chain, hist: seq<Commit>, id: Identifier, cell: Option<Cell>)
    requires Inv(e, c, hist) && SqlAnswers(c.db, TransactionResultByID(id), cell) && FromCell(id, cell).SealedResult?
    ensures NamesStoredBlock(e, c, FromCell(id, cell))
  {
    hide SqlAnswers, Consistent, NamesStoredBlock;
    hide GoodHistory, Holds, SystemListsKept, PendingOn, ResultIn;
    GoodIsConsistent(e, hist);
    SqlAnswersChain(e.ids, c.db, hist, TransactionResultByID(id), cell);
    var i := ResultFromBlock(hist, id);
    NamedBlock(e, hist, i, id);
    NamesBlockOf(e, c, hist, FromCell(id, cell), i);
  }

  /** Whatever way a result is asked for, and however stale the indexes are, a
      sealed answer names a block that is stored now, by identifier and height. */
  lemma NoDanglingResults(e: Engine, c: Chain, hist: seq<Commit>, l: Lookup, r: Option<TransactionResult>)
    requires Inv(e, c, hist) && LookupAnswers(c, l, r) && r.Some? && r.value.SealedResult?
    ensures NamesStoredBlock(e, c, r.value)
  {
    hide Inv, SqlAnswers, Reads, NamesStoredBlock, SystemAnswers, ScheduledKey, IdKey;
    var result := r.value;
    match l
    case ByTransaction(id) =>
      var cell :| SqlAnswers(c.db, TransactionResultByID(id), cell)
                  && if cell.Some? then result == FromCell(id, cell) else IndexAnswers(c, id, result);
      if cell.Some? {
        UserResultNamesBlock(e, c, hist, id, cell);
      } else {
        var entry :| Reads(c.db.tables.scheduledBlockIndex, IdKey(id), 0, entry)
                     && if entry.Some? && entry.value.IdCell? then SystemAnswers(c, entry.value.id, id, result)
                        else result == UnknownResult;
        SystemResultNamesBlock(e, c, hist, entry.value.id, id, result);
      }
    case ByNumber(n) =>
      var entry :| Reads(c.db.tables.scheduledIndex, ScheduledKey(n), 0, entry)
                   && if entry.Some? && entry.value.IdCell? then NumberInBlockAnswers(c, n, entry.value.id, r)
                      else r == None;
      NumberInBlockNamesBlock(e, c, hist, n, entry.value.id, r);
    case ByNumberInBlock(n, b) =>
      NumberInBlockNamesBlock(e, c, hist, n, b, r);
    case BySystemTransaction(id, b) =>
      var x := ListedSystemIsSystem(c, id, b, r);
      SystemResultNamesBlock(e, c, hist, b, x, result);
  }

  lemma NumberInBlockNamesBlock(e: Engine, c: Chain, hist: seq<Commit>, n: nat, b: Identifier,
                                r: Option<TransactionResult>)
    requires Inv(e, c, hist) && NumberInBlockAnswers(c, n, b, r) && r.Some? && r.value.SealedResult?
    ensures NamesStoredBlock(e, c, r.value)
  {
    hide Inv, SqlAnswers, NamesStoredBlock, SystemAnswers;
    var list :| SqlAnswers(c.db, SystemTransactionsForBlockID(b), list)
                && if list.Some? && list.value.SystemCell? && n in list.value.system.scheduled
                   then r.Some? && SystemAnswers(c, b, list.value.system.scheduled[n], r.value)
                   else r == None;
    SystemResultNamesBlock(e, c, hist, b, list.value.system.scheduled[n], r.value);
  }

  lemma ListedSystemIsSystem(c: Chain, id: Identifier, b: Identifier, r: Option<TransactionResult>)
    returns (x: Identifier)
    requires ListedSystemAnswers(c, id, b, r) && r.Some?
    ensures SystemAnswers(c, b, x, r.value)
  {
    hide SqlAnswers, SystemAnswers;
    var list :| SqlAnswers(c.db, SystemTransactionsForBlockID(b), list)
                && if list.Some? && list.value.SystemCell?
                   then
                     var ids := list.value.system.transactions;
                     if id == ZERO_ID then
                       if ids == [] then r == None
                       else r.Some? && SystemAnswers(c, b, ids[|ids| - 1], r.value)
                     else if id in ids then r.Some? && SystemAnswers(c, b, id, r.value)
                     else r == None
                   else r == None;
    var ids := list.value.system.transactions;
    x := if id == ZERO_ID then ids[|ids| - 1] else id;
  }

  /** The same in every state of every run of adds, executions, commits, resets
      and rollbacks. */
  lemma NeverDangling(e: Engine, dice: nat, now: nat, steps: seq<Step>, l: Lookup, r: Option<TransactionResult>)
    requires e.ids.Injective()
    requires LookupAnswers(Run(e, dice, now, steps).0, l, r) && r.Some? && r.value.SealedResult?
    ensures NamesStoredBlock(e, Run(e, dice, now, steps).0, r.value)
  {
    hide Run, Inv, LookupAnswers, NamesStoredBlock, Standing;
    var (c, log) := Run(e, dice, now, steps);
    NoDanglingResults(e, c, Standing([GenesisCommit(e)], log), l, r);
  }

  // ---------------------------------------------------------------- lists of system transactions

  /** The list of system transactions read for a standing block above genesis is
      the one committed with it, even after other branches were rolled back. */
  lemma SystemListAnswer(e: Engine, c: Chain, hist: seq<Commit>, i: nat, r: Option<Cell>)
    requires Inv(e, c, hist) && 0 < i < |hist|
    ensures SqlAnswers(c.db, SystemTransactionsForBlockID(e.ids.blockID(hist[i].block)), r) <==>
              r == Some(SystemListOf(e, hist[i]))
  {
    hide PendingOn, NeverReused, Proper, Follows, Replayed, IdKey, UnHex;
    HeightsMatch(hist, i);
    ListAnswer(e, c.db.tables.systemTransactions, hist, i, r);
  }

  lemma ListAnswer(e: Engine, t: Table, hist: seq<Commit>, i: nat, r: Option<Cell>)
    requires e.ids.Injective() && SystemListsKept(e, t, hist) && 0 < i < |hist| && hist[i].block.height == i
    ensures Reads(t, IdKey(e.ids.blockID(hist[i].block)), 0, r) <==> r == Some(SystemListOf(e, hist[i]))
  {
    hide IdKey, UnHex;
    var key := IdKey(e.ids.blockID(hist[i].block));
    var row := Row(key, 0, i);
    assert row in t && t[row] == SystemListOf(e, hist[i]);
    forall other | other in t && other.key == key ensures other == row {
      var b: Block :| e.ids.blockID(b) == t[other].system.blockID && b.height == other.height;
      assert t[other].system.blockID == UnHex(other.key) == e.ids.blockID(hist[i].block);
      SameBlock(e.ids, b, hist[i].block);
    }
    assert IsBest(t, row, key, 0);
  }

  /** No list of system transactions is stored for genesis. */
  lemma GenesisHasNoList(e: Engine, c: Chain, hist: seq<Commit>, r: Option<Cell>)
    requires Inv(e, c, hist)
    ensures SqlAnswers(c.db, SystemTransactionsForBlockID(e.ids.blockID(hist[0].block)), r) <==> r == None
  {
    hide Inv, SystemListsKept, IdKey, UnHex, Reads;
    InvHistory(e, c, hist);
    InvLists(e, c, hist);
    HeightsMatch(hist, 0);
    NoListAtZero(e, c.db.tables.systemTransactions, hist, r);
  }

  lemma NoListAtZero(e: Engine, t: Table, hist: seq<Commit>, r: Option<Cell>)
    requires e.ids.Injective() && SystemListsKept(e, t, hist) && hist != [] && hist[0].block.height == 0
    ensures Reads(t, IdKey(e.ids.blockID(hist[0].block)), 0, r) <==> r == None
  {
    hide IdKey, UnHex;
    var key := IdKey(e.ids.blockID(hist[0].block));
    forall row | row in t ensures row.key != key {
      var b: Block :| e.ids.blockID(b) == t[row].system.blockID && b.height == row.height;
      assert UnHex(row.key) == e.ids.blockID(b) && UnHex(key) == e.ids.blockID(hist[0].block);
    }
    NoRowAnswers(t, key, 0, r);
  }
}
