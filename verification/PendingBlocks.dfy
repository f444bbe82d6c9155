/** The pending block as the object it is: taken-in transactions, a working
    ledger and an execution index, updated in place. */
module PendingBlocks {
  import opened Types
  import opened Storage
  import opened Pending

  class PendingBlock {
    const height: nat
    const view: nat
    const parentID: Identifier
    var timestamp: nat
    var transactions: map<Identifier, TransactionBody>
    var transactionIDs: seq<Identifier>
    var results: map<Identifier, IndexedResult>
    var writes: Ledger
    var events: seq<Event>
    var index: nat

    function Abs(): (p: Pending)
      reads this
    {
      Pending(height, view, parentID, timestamp, transactions, transactionIDs, results, Work(writes, events), index)
    }

    constructor (ids: Hashes, prev: Block, dice: nat, now: nat)
      ensures Abs() == Fresh(ids, prev, dice, now)
    {
      height := prev.height + 1;
      view := prev.view + (dice % MAX_VIEW_INCREASE + 1);
      parentID := ids.blockID(prev);
      timestamp := now;
      transactions, transactionIDs, results, writes, events, index := map[], [], map[], map[], [], 0;
    }

    method AddTransaction(ids: Hashes, tx: TransactionBody)
      modifies this`transactionIDs, this`transactions
      ensures Abs() == old(Abs()).Adding(ids, tx)
    {
      transactionIDs := transactionIDs + [ids.transactionID(tx)];
      transactions := transactions[ids.transactionID(tx) := tx];
    }

    method NextTransaction() returns (tx: Option<TransactionBody>)
      ensures tx == if index < |transactionIDs| && transactionIDs[index] in transactions
                    then Some(transactions[transactionIDs[index]]) else None
    {
      if index >= |transactionIDs| || transactionIDs[index] !in transactions {
        return None;
      }
      tx := Some(transactions[transactionIDs[index]]);
    }

    /** Runs the next transaction; without an output when the run or the merge of
        its writes fails. */
    method ExecuteNextTransaction(e: Engine, context: Context, base: Ledger) returns (output: Option<Output>)
      requires index < |transactionIDs| && transactionIDs[index] in transactions
      modifies this`index, this`events, this`writes, this`results
      ensures var (p, execution) := ExecuteNext(e, context, base, old(Abs()));
              Abs() == p && output == if execution == Failed then None else Some(execution.output)
    {
      var next := NextTransaction();
      var tx, txIndex := next.value, index;
      index := index + 1;
      var run := e.vm(context, tx, txIndex, base + writes);
      if run.Fatal? {
        return None;
      }
      events := events + run.output.events;
      if run.Unmerged? {
        return None;
      }
      writes := writes + run.writes;
      results := results[e.ids.transactionID(tx) := IndexedResult(run.output, txIndex)];
      output := Some(run.output);
    }

    method SetClock(now: nat)
      modifies this`timestamp
      ensures Abs() == old(Abs()).(timestamp := now)
    {
      timestamp := now;
    }
  }
}
