/** The emulator itself: an object over a store and a pending block, whose methods
    carry out the steps of the state machine, each taken to be atomic. */
module Blockchain {
  import opened Types
  import opened Keys
  import opened Tables
  import opened Storage
  import opened History
  import opened StoreQueries
  import opened Scheduled
  import opened Pending
  import opened PendingBlocks
  import opened Chain
  import opened Invariants
  import opened Runs
  import opened Execution
  import opened Lookups
  import opened ScheduledLookups
  import opened BlockQueries
  import opened Outcomes
  import Sqlite

  class Blockchain {
    const e: Engine
    const storage: Sqlite.Store
    var pendingBlock: PendingBlock
    var entropy: Identifier
    /** The blocks standing. */
    ghost var hist: seq<Commit>

    ghost function Abs(): (c: Chain)
      reads this, storage, pendingBlock
    {
      Chain(storage.Abs(), pendingBlock.Abs(), entropy)
    }

    ghost predicate Valid()
      reads this, storage, pendingBlock
    {
      && storage.ids == e.ids && storage.Valid() && pendingBlock.Abs().WellFormed(e.ids)
      && Inv(e, Abs(), hist)
    }

    /** A new emulator commits a genesis block to an empty store. */
    constructor (e: Engine, dice: nat, now: nat)
      requires e.ids.Injective()
      ensures Valid() && fresh(storage) && fresh(pendingBlock) && this.e == e
      ensures Abs() == Start(e, dice, now) && hist == [GenesisCommit(e)]
    {
      hide Inv, Committed, Sqlite.Sound;
      var store := new Sqlite.Store(e.ids);
      var error := store.CommitBlock(GenesisCommit(e));
      this.e, storage := e, store;
      pendingBlock := new PendingBlock(e.ids, GenesisBlock(e), dice, now);
      entropy := ZERO_ID;
      hist := [GenesisCommit(e)];
      new;
      StartInv(e, dice, now);
      InvPending(e, Abs(), hist);
    }

    // -------------------------------------------------------------- adding and executing

    method AddTransaction(tx: TransactionBody, valid: bool) returns (outcome: Outcome)
      requires Valid()
      modifies pendingBlock
      ensures Valid() && hist == Extend(old(hist), outcome)
      ensures (Abs(), outcome) == Add(e, old(Abs()), tx, valid)
      ensures outcome.Accepted? <==>
                valid && old(pendingBlock.index) == 0 && New(old(Abs()), hist, e.ids.transactionID(tx))
    {
      hide Inv, Sqlite.Sound, New;
      ghost var c := Abs();
      AcceptedExactly(e, c, hist, tx, valid);
      AddKeeps(e, c, hist, tx, valid);
      InvPending(e, Add(e, c, tx, valid).0, hist);
      var id := e.ids.transactionID(tx);
      if pendingBlock.index > 0 {
        return Refused(PendingBlockMidExecution);
      }
      if id in pendingBlock.transactions {
        return Refused(DuplicateTransaction);
      }
      var stored := storage.TransactionByID(id);
      OnlyAnswer(e, c, hist, TransactionByID(id), stored);
      if stored.Some? {
        return Refused(DuplicateTransaction);
      }
      if !valid {
        return Refused(InvalidTransaction);
      }
      pendingBlock.AddTransaction(e.ids, tx);
      outcome := Accepted(id);
    }

    method ExecuteNextTransaction() returns (outcome: Outcome)
      requires Valid()
      modifies pendingBlock
      ensures Valid() && hist == Extend(old(hist), outcome)
      ensures (Abs(), outcome) == RunOne(e, old(Abs()))
    {
      hide Inv, Sqlite.Sound, LedgerAt, ExecuteNext;
      ghost var c := Abs();
      RunOneKeeps(e, c, hist);
      InvPending(e, RunOne(e, c).0, hist);
      if pendingBlock.index >= |pendingBlock.transactionIDs| {
        return Refused(TransactionsExhausted);
      }
      var context := Context(pendingBlock.Abs().ToBlock(e.ids), entropy, UserTransaction);
      var base := LedgerUnder();
      ExecuteNextWellFormed(e, context, base, c.pending);
      var output := pendingBlock.ExecuteNextTransaction(e, context, base);
      NextConverts(e, context, base, c.pending);
      if output.None? || !e.converts(output.value) {
        return Halted(ExecutionFailed, []);
      }
      outcome := Executed([output.value]);
    }

    /** The registers under the pending block. */
    method LedgerUnder() returns (l: Ledger)
      ensures l == Abs().Base()
    {
      hide LedgerAt;
      var height := pendingBlock.height;
      l := LedgerAt(storage.tables.registers, if height == 0 then 0 else height - 1);
    }

    method ExecuteBlock() returns (outcome: Outcome)
      requires Valid()
      modifies pendingBlock
      ensures Valid() && hist == Extend(old(hist), outcome)
      ensures (Abs(), outcome) == RunAll(e, old(Abs()))
    {
      hide Inv, Sqlite.Sound, LedgerAt, ExecuteNext, ExecuteRest;
      ghost var c := Abs();
      RunAllKeeps(e, c, hist);
      InvPending(e, RunAll(e, c).0, hist);
      var context := Context(pendingBlock.Abs().ToBlock(e.ids), entropy, UserTransaction);
      if pendingBlock.index >= |pendingBlock.transactionIDs| && pendingBlock.transactionIDs != [] {
        return Refused(TransactionsExhausted);
      }
      var base := LedgerUnder();
      var outputs := [];
      ghost var (q, all, ok) := ExecuteRest(e, context, base, c.pending);
      while pendingBlock.index < |pendingBlock.transactionIDs|
        invariant pendingBlock.Abs().WellFormed(e.ids)
        invariant var (p, rest, fine) := ExecuteRest(e, context, base, pendingBlock.Abs());
                  p == q && fine == ok && outputs + rest == all
        decreases |pendingBlock.transactionIDs| - pendingBlock.index
      {
        ghost var before := pendingBlock.Abs();
        RestUnfolds(e, context, base, before);
        ExecuteNextWellFormed(e, context, base, before);
        NextConverts(e, context, base, before);
        var output := pendingBlock.ExecuteNextTransaction(e, context, base);
        if output.None? || !e.converts(output.value) {
          assert outputs + [] == outputs;
          return Halted(ExecutionFailed, outputs);
        }
        ghost var rest := ExecuteRest(e, context, base, pendingBlock.Abs()).1;
        assert outputs + ([output.value] + rest) == (outputs + [output.value]) + rest;
        outputs := outputs + [output.value];
      }
      RestUnfolds(e, context, base, pendingBlock.Abs());
      assert outputs + [] == outputs;
      outcome := Executed(outputs);
    }

    // -------------------------------------------------------------- committing

    /** Runs the process transaction and the callbacks it announces, each on top of
        the pending block's working ledger. */
    method ExecuteScheduledTransactions(context: Context, base: Ledger) returns (run: Option<SystemRun>)
      modifies pendingBlock`writes, pendingBlock`events
      ensures (pendingBlock.Abs().work, run) ==
              RunScheduled(e, context, base, |pendingBlock.transactions|, old(pendingBlock.Abs()).work)
    {
      hide Announced, Printed, ScanUint64;
      ghost var start := pendingBlock.Abs().work;
      var first := |pendingBlock.transactions|;
      var processID := e.ids.transactionID(e.process);
      var r := e.vm(context, e.process, first, base + pendingBlock.writes);
      if r.Fatal? {
        return None;
      }
      pendingBlock.events := pendingBlock.events + r.output.events;
      if r.Unmerged? {
        return None;
      }
      pendingBlock.writes := pendingBlock.writes + r.writes;
      var txs := e.callbacks(r.output.events);
      var numbers := ParseScheduledIDs(e.announcement, r.output.events);
      if txs.None? || numbers.None? {
        return None;
      }
      run := ExecuteCallbacks(context, base, first, txs.value, numbers.value,
                              NO_SYSTEM_RUN.Adding(processID, e.process, r.output, first));
    }

    method ExecuteCallbacks(context: Context, base: Ledger, first: nat, txs: seq<TransactionBody>,
                            numbers: seq<string>, start: SystemRun) returns (run: Option<SystemRun>)
      modifies pendingBlock`writes, pendingBlock`events
      ensures (pendingBlock.Abs().work, run) ==
              RunCallbacks(e, context, base, first, old(pendingBlock.Abs()).work, txs, numbers, 0, start)
    {
      hide ScanUint64;
      var order, bodies, results := start.order, start.bodies, start.results;
      var scheduled: map<nat, Identifier> := start.scheduled;
      for k := 0 to |txs|
        invariant RunCallbacks(e, context, base, first, old(pendingBlock.Abs()).work, txs, numbers, 0, start) ==
                  RunCallbacks(e, context, base, first, pendingBlock.Abs().work, txs, numbers, k,
                               SystemRun(order, bodies, results, scheduled))
      {
        var id, index := e.ids.transactionID(txs[k]), first + 1 + k;
        order := order + [id];
        var r := e.vm(context, txs[k], index, base + pendingBlock.writes);
        if r.Fatal? {
          return None;
        }
        results := results[id := IndexedResult(r.output, index)];
        bodies := bodies[id := txs[k]];
        if k < |numbers| {
          var number := ScanUint64(numbers[k]);
          if number.Some? {
            scheduled := scheduled[number.value := id];
          }
        }
        if !e.converts(r.output) {
          return None;
        }
        pendingBlock.events := pendingBlock.events + r.output.events;
        if r.Unmerged? {
          return None;
        }
        pendingBlock.writes := pendingBlock.writes + r.writes;
      }
      run := Some(SystemRun(order, bodies, results, scheduled));
    }

    method ExecuteSystemChunkTransaction(context: Context, base: Ledger, before: SystemRun)
      returns (run: Option<SystemRun>)
      modifies pendingBlock`writes, pendingBlock`events
      ensures (pendingBlock.Abs().work, run) ==
              RunChunk(e, context, base, |pendingBlock.transactions|, old(pendingBlock.Abs()).work, before)
    {
      var index := |pendingBlock.transactions| + |before.order|;
      var r := e.vm(context, e.chunk, index, base + pendingBlock.writes);
      if r.Fatal? || r.output.errorCode != 0 {
        return None;
      }
      pendingBlock.events := pendingBlock.events + r.output.events;
      if r.Unmerged? {
        return None;
      }
      pendingBlock.writes := pendingBlock.writes + r.writes;
      run := Some(before.Adding(e.ids.transactionID(e.chunk), e.chunk, r.output, index));
    }

    /** Runs all system transactions on top of the pending block. */
    method ExecuteSystemTransactions(base: Ledger) returns (run: Option<SystemRun>)
      modifies pendingBlock`writes, pendingBlock`events
      ensures (pendingBlock.Abs().work, run) ==
              RunSystem(e, pendingBlock.Abs().ToBlock(e.ids), entropy, base, |pendingBlock.transactions|,
                        old(pendingBlock.Abs()).work)
    {
      hide RunScheduled, RunChunk;
      var header := pendingBlock.Abs().ToBlock(e.ids);
      run := Some(NO_SYSTEM_RUN);
      if e.scheduledEnabled {
        run := ExecuteScheduledTransactions(Context(header, entropy, ScheduledTransaction), base);
        if run.None? {
          return;
        }
      }
      run := ExecuteSystemChunkTransaction(Context(header, entropy, SystemChunk), base, run.value);
    }

    method IndexNumbers(scheduled: map<nat, Identifier>, blockID: Identifier)
      modifies storage`tables
      ensures var t := old(storage.tables);
              storage.tables == t.(scheduledIndex := t.scheduledIndex + ScheduledRows(scheduled, blockID, storage.current))
    {
      hide ScheduledRows, ScheduledKey;
      var todo := scheduled.Keys;
      ghost var t, h := storage.tables, storage.current;
      assert scheduled - todo == map[];
      NoNumbers(t.scheduledIndex, blockID, h);
      while todo != {}
        invariant todo <= scheduled.Keys && storage.current == h
        invariant storage.tables ==
                  t.(scheduledIndex := t.scheduledIndex + ScheduledRows(scheduled - todo, blockID, h))
        decreases todo
      {
        var n :| n in todo;
        MoreNumbers(t.scheduledIndex, scheduled - todo, n, scheduled[n], blockID, h);
        assert (scheduled - todo)[n := scheduled[n]] == scheduled - (todo - {n});
        storage.IndexScheduledTransactionID(n, blockID);
        todo := todo - {n};
      }
      assert scheduled - {} == scheduled;
    }

    method IndexTransactions(ids: set<Identifier>, blockID: Identifier)
      modifies storage`tables
      ensures var t := old(storage.tables);
              storage.tables == t.(scheduledBlockIndex :=
                t.scheduledBlockIndex + ScheduledBlockRows(ids - StaticIDs(e), blockID, storage.current))
    {
      hide ScheduledBlockRows, IdKey;
      var todo := ids;
      ghost var t, h := storage.tables, storage.current;
      assert ids - todo - StaticIDs(e) == {};
      NoIDs(t.scheduledBlockIndex, blockID, h);
      while todo != {}
        invariant todo <= ids && storage.current == h
        invariant storage.tables == t.(scheduledBlockIndex :=
                    t.scheduledBlockIndex + ScheduledBlockRows(ids - todo - StaticIDs(e), blockID, h))
        decreases todo
      {
        var id :| id in todo;
        ghost var done, more := ids - todo - StaticIDs(e), ids - (todo - {id}) - StaticIDs(e);
        if id !in StaticIDs(e) {
          MoreIDs(t.scheduledBlockIndex, done, id, blockID, h);
          assert more == done + {id};
          storage.IndexScheduledTransactionBlockID(id, blockID);
        } else {
          assert more == done;
        }
        todo := todo - {id};
      }
      assert ids - {} - StaticIDs(e) == ids - StaticIDs(e);
    }

    method CommitBlock(dice: nat, now: nat) returns (outcome: Outcome)
      requires Valid()
      modifies this, storage, pendingBlock
      ensures Valid() && hist == Extend(old(hist), outcome)
      ensures (Abs(), outcome) == Seal(e, old(Abs()), dice, now)
    {
      hide Inv, Sqlite.Sound, LedgerAt, RunSystem, Finish;
      ghost var c := Abs();
      SealKeeps(e, c, hist, dice, now);
      InvPending(e, Seal(e, c, dice, now).0, Extend(hist, Seal(e, c, dice, now).1));
      if pendingBlock.index == 0 && pendingBlock.transactionIDs != [] {
        return Refused(CommitBeforeExecution);
      }
      if pendingBlock.index > 0 && pendingBlock.index < |pendingBlock.transactionIDs| {
        return Refused(PendingBlockMidExecution);
      }
      var base := LedgerUnder();
      var run := ExecuteSystemTransactions(base);
      FinishIgnoresWork(e, c, pendingBlock.Abs().work, run, dice, now);
      outcome := StoreBlock(run, dice, now);
    }

    /** Saves the executed pending block and starts the next one. */
    method StoreBlock(run: Option<SystemRun>, dice: nat, now: nat) returns (outcome: Outcome)
      requires storage.ids == e.ids && storage.Valid()
      modifies this, storage
      ensures storage.Valid() && hist == Extend(old(hist), outcome)
      ensures (Abs(), outcome) == Finish(e, old(Abs()), old(pendingBlock.Abs()).work, run, dice, now)
      ensures entropy == if outcome.Sealed? then e.ids.blockID(outcome.commit.block) else old(entropy)
    {
      hide Sqlite.Sound, Record, Committed, Indexed, CommitCheck;
      if run.None? {
        return Abandoned(SystemExecutionFailed);
      }
      var commit := Record(e.ids, pendingBlock.Abs(), pendingBlock.Abs().work, run.value);
      var error := SaveBlock(commit);
      if error.Some? {
        return Abandoned(CountMismatch(error.value));
      }
      pendingBlock := new PendingBlock(e.ids, commit.block, dice, now);
      entropy := e.ids.blockID(commit.block);
      hist := hist + [commit];
      outcome := Sealed(commit);
    }

    /** Hands a block to the store, and indexes its scheduled transactions. */
    method SaveBlock(commit: Commit) returns (error: Option<CommitError>)
      requires storage.ids == e.ids && storage.Valid()
      modifies storage
      ensures storage.Valid() && error == CommitCheck(commit)
      ensures storage.Abs() == if error.Some? then old(storage.Abs())
                               else Indexed(e, Committed(e.ids, old(storage.Abs()), commit), commit)
    {
      hide Sqlite.Sound, Committed, ScheduledRows, ScheduledBlockRows, StaticIDs, CommitCheck;
      IndexedIsSound(e, storage.Abs(), commit);
      error := storage.CommitBlock(commit);
      if error.None? {
        var blockID := e.ids.blockID(commit.block);
        IndexNumbers(commit.scheduled, blockID);
        IndexTransactions(commit.systemResults.Keys, blockID);
      }
    }

    method ExecuteAndCommitBlock(dice: nat, now: nat) returns (outcome: Outcome)
      requires Valid()
      modifies this, storage, pendingBlock
      ensures Valid() && hist == Extend(old(hist), outcome)
      ensures (Abs(), outcome) == RunAllAndSeal(e, old(Abs()), dice, now)
    {
      hide Inv, Sqlite.Sound, RunAll, Seal;
      ghost var c := Abs();
      RunAllOutcome(e, c);
      outcome := ExecuteBlock();
      if outcome.Executed? {
        outcome := CommitBlock(dice, now);
      } else if outcome.Halted? {
        outcome := Halted(outcome.error, []);
      }
    }

    /** Submitting a transaction; with auto-mining it is executed and committed at
        once. */
    method SendTransaction(tx: TransactionBody, valid: bool, autoMine: bool, dice: nat, now: nat)
      returns (outcome: Outcome)
      requires Valid()
      modifies this, storage, pendingBlock
      ensures Valid() && hist == Extend(old(hist), outcome)
      ensures var (added, accepted) := Add(e, old(Abs()), tx, valid);
              && added.pending.WellFormed(e.ids)
              && (Abs(), outcome) == if accepted.Accepted? && autoMine then RunAllAndSeal(e, added, dice, now)
                                     else (added, accepted)
    {
      hide Inv, Sqlite.Sound, Add, RunAllAndSeal;
      ghost var c := Abs();
      outcome := AddTransaction(tx, valid);
      if outcome.Accepted? && autoMine {
        outcome := ExecuteAndCommitBlock(dice, now);
      }
    }

    /** One tick of the block ticker. Each half takes the lock on its own; here
        nobody gets in between. */
    method Tick(dice: nat, now: nat) returns (outcome: Outcome)
      requires Valid()
      modifies this, storage, pendingBlock
      ensures Valid() && hist == Extend(old(hist), outcome)
      ensures (Abs(), outcome) == Seal(e, RunAll(e, old(Abs())).0, dice, now)
    {
      hide Inv, Sqlite.Sound, RunAll, Seal;
      RunAllOutcome(e, Abs());
      var executed := ExecuteBlock();
      outcome := CommitBlock(dice, now);
    }

    // -------------------------------------------------------------- replacing the pending block

    method ResetPendingBlock(dice: nat, now: nat) returns (outcome: Outcome)
      requires Valid()
      modifies this
      ensures Valid() && hist == Extend(old(hist), outcome)
      ensures (Abs(), outcome) == Renew(e, old(Abs()), dice, now)
    {
      hide Inv, Sqlite.Sound, SqlAnswers, ChainAnswer;
      ghost var c := Abs();
      RenewKeeps(e, c, hist, dice, now);
      InvPending(e, Renew(e, c, dice, now).0, hist);
      var latest := storage.LatestBlock();
      OnlyAnswer(e, c, hist, LatestBlock, latest);
      if latest.None? || !latest.value.BlockCell? {
        return Refused(NoLatestBlock);
      }
      pendingBlock := new PendingBlock(e.ids, latest.value.block, dice, now);
      outcome := Renewed;
    }

    method RollbackToBlockHeight(height: nat, dice: nat, now: nat) returns (outcome: Outcome)
      requires Valid()
      modifies this, storage
      ensures Valid() && hist == Extend(old(hist), outcome)
      ensures (Abs(), outcome) == Prune(e, old(Abs()), height, dice, now)
    {
      hide Inv, Sqlite.Sound, SqlAnswers, Latest, RolledBack;
      ghost var c := Abs();
      PruneKeeps(e, c, hist, height, dice, now);
      InvPending(e, Prune(e, c, height, dice, now).0, Extend(hist, Prune(e, c, height, dice, now).1));
      var ok := storage.RollbackToBlockHeight(height);
      if !ok {
        return Refused(RollbackTooHigh);
      }
      var latest := storage.LatestBlock();
      RolledBackTip(e, c, hist, height, latest);
      pendingBlock := new PendingBlock(e.ids, latest.value.block, dice, now);
      hist := hist[..height + 1];
      outcome := Pruned(height);
    }

    method SetClock(now: nat) returns (outcome: Outcome)
      requires Valid()
      modifies pendingBlock
      ensures Valid() && hist == Extend(old(hist), outcome)
      ensures (Abs(), outcome) == Next(e, old(Abs()), Step.SetClock(now))
    {
      hide Inv, Sqlite.Sound;
      ghost var c := Abs();
      RetimeKeeps(e, c, hist, now);
      InvPending(e, c.(pending := c.pending.(timestamp := now)), hist);
      pendingBlock.SetClock(now);
      outcome := Retimed(pendingBlock.index > 0);
    }

    // -------------------------------------------------------------- transactions and results

    /** Looks in the pending block, then in the store, then among the static system
        transactions. What it finds is the transaction with that identifier. */
    method GetTransaction(txID: Identifier) returns (tx: Option<TransactionBody>)
      requires Valid()
      ensures tx.Some? ==> e.ids.transactionID(tx.value) == txID
      ensures tx.Some? <==> txID in pendingBlock.transactions || BodyIn(hist, txID).Some? || txID in StaticIDs(e)
    {
      hide Inv, Sqlite.Sound, BodyIn, SqlAnswers;
      if txID in pendingBlock.transactions {
        return Some(pendingBlock.transactions[txID]);
      }
      var stored := storage.TransactionByID(txID);
      StoredBody(e, Abs(), hist, txID, stored);
      if stored.Some? && stored.value.BodyCell? {
        return Some(stored.value.body);
      }
      if txID == e.ids.transactionID(e.process) {
        return Some(e.process);
      }
      if txID == e.ids.transactionID(e.chunk) {
        return Some(e.chunk);
      }
      tx := None;
    }

    method SystemTransactionResult(blockID: Identifier, txID: Identifier) returns (r: TransactionResult)
      ensures SystemAnswers(Abs(), blockID, txID, r)
    {
      hide SqlAnswers;
      var stored := storage.SystemTransactionResultByID(blockID, txID);
      r := FromCell(txID, stored);
    }

    method GetTransactionResult(txID: Identifier) returns (r: TransactionResult)
      ensures LookupAnswers(Abs(), ByTransaction(txID), Some(r))
    {
      hide SqlAnswers, SystemAnswers, Reads, IdKey;
      if txID in pendingBlock.transactions {
        return PendingResult;
      }
      var stored := storage.TransactionResultByID(txID);
      if stored.Some? {
        return FromCell(txID, stored);
      }
      var entry := storage.GetBytes(ScheduledBlockIndex, IdKey(txID));
      if entry.Some? && entry.value.IdCell? {
        r := SystemTransactionResult(entry.value.id, txID);
      } else {
        r := UnknownResult;
      }
      assert IndexAnswers(Abs(), txID, r);
    }

    method GetScheduledTransactionResultByBlockID(number: nat, blockID: Identifier)
      returns (r: Option<TransactionResult>)
      ensures LookupAnswers(Abs(), ByNumberInBlock(number, blockID), r)
    {
      hide SqlAnswers, SystemAnswers;
      var list := storage.SystemTransactionsForBlockID(blockID);
      if list.None? || !list.value.SystemCell? || number !in list.value.system.scheduled {
        return None;
      }
      var result := SystemTransactionResult(blockID, list.value.system.scheduled[number]);
      r := Some(result);
    }

    method GetScheduledTransactionResult(number: nat) returns (r: Option<TransactionResult>)
      ensures LookupAnswers(Abs(), ByNumber(number), r)
    {
      hide NumberInBlockAnswers, Reads, ScheduledKey;
      var entry := storage.GetBytes(ScheduledIndex, ScheduledKey(number));
      if entry.None? || !entry.value.IdCell? {
        return None;
      }
      r := GetScheduledTransactionResultByBlockID(number, entry.value.id);
    }

    /** The zero identifier asks for the last system transaction, the system
        chunk. */
    method GetSystemTransactionResult(txID: Identifier, blockID: Identifier) returns (r: Option<TransactionResult>)
      ensures LookupAnswers(Abs(), BySystemTransaction(txID, blockID), r)
      ensures Valid() ==> forall h: nat | h < |hist| && blockID == e.ids.blockID(hist[h].block) ::
                r == AnswerIn(e, hist[h], txID)
    {
      hide Inv, SystemAnswers, SqlAnswers, AnswerIn, Sqlite.Sound;
      var list := storage.SystemTransactionsForBlockID(blockID);
      r := None;
      if list.Some? && list.value.SystemCell? {
        var ids, id := list.value.system.transactions, txID;
        if txID == ZERO_ID && ids != [] {
          id := ids[|ids| - 1];
        }
        if (txID == ZERO_ID && ids != []) || (txID != ZERO_ID && txID in ids) {
          var result := SystemTransactionResult(blockID, id);
          r := Some(result);
        }
      }
      assert LookupAnswers(Abs(), BySystemTransaction(txID, blockID), r);
      hide LookupAnswers;
      AllAnswered(e, Abs(), hist, txID, blockID, r);
    }

    // -------------------------------------------------------------- block queries

    method GetBlockByID(blockID: Identifier) returns (block: Option<Block>)
      requires Valid()
      ensures match HeightOf(e.ids, hist, blockID)
              case None => block == None
              case Some(h) => block == Some(hist[h].block)
    {
      hide Inv, Sqlite.Sound, SqlAnswers;
      var found := storage.BlockByID(blockID);
      OnlyAnswer(e, Abs(), hist, BlockByID(blockID), found);
      block := if found.Some? && found.value.BlockCell? then Some(found.value.block) else None;
    }

    /** The system transactions listed for a block; there is no list for genesis. */
    method SystemIDs(blockID: Identifier, ghost h: nat) returns (ids: Option<seq<Identifier>>)
      requires Valid() && h < |hist| && blockID == e.ids.blockID(hist[h].block)
      ensures ids == if h == 0 then None else Some(hist[h].systemIDs)
    {
      hide Inv, Sqlite.Sound, SqlAnswers;
      var list := storage.SystemTransactionsForBlockID(blockID);
      if h == 0 {
        GenesisHasNoList(e, Abs(), hist, list);
      } else {
        SystemListAnswer(e, Abs(), hist, h, list);
      }
      ids := if list.Some? && list.value.SystemCell? then Some(list.value.system.transactions) else None;
    }

    /** The transactions a guaranteed collection of a block names. */
    method CollectionIDs(collectionID: Identifier, ghost h: nat) returns (ids: Option<seq<Identifier>>)
      requires Valid() && h < |hist| && collectionID in hist[h].block.guarantees
      ensures h > 0 && |hist[h].block.guarantees| == 1 && ids == Some(UserIDs(hist[h]))
    {
      hide Inv, Sqlite.Sound, SqlAnswers, ChainAnswer;
      GenesisGuarantees(e, Abs(), hist);
      GuaranteesOf(e, Abs(), hist, h);
      var found := storage.CollectionByID(collectionID);
      OnlyAnswer(e, Abs(), hist, CollectionByID(collectionID), found);
      ids := if found.Some? && found.value.CollectionCell? then Some(found.value.collection) else None;
    }

    method Transactions(ids: seq<Identifier>) returns (txs: Option<seq<TransactionBody>>)
      requires Valid()
      ensures txs.Some? ==> BodiesFor(e.ids, txs.value, ids)
      ensures (forall id | id in ids :: BodyIn(hist, id).Some?) ==> txs.Some?
    {
      hide Inv, Sqlite.Sound, BodyIn;
      var found := [];
      for k := 0 to |ids|
        invariant BodiesFor(e.ids, found, ids[..k])
      {
        var tx := GetTransaction(ids[k]);
        if tx.None? {
          return None;
        }
        found := found + [tx.value];
      }
      assert ids[..|ids|] == ids;
      txs := Some(found);
    }

    /** The transactions of a standing block above genesis: exactly those listed,
        the user transactions in submission order and then the system transactions
        in execution order. */
    method GetTransactionsByBlockID(blockID: Identifier) returns (txs: Option<seq<TransactionBody>>)
      requires Valid()
      ensures match HeightOf(e.ids, hist, blockID)
              case None => txs == None
              case Some(h) =>
                if h == 0 then txs == None else txs.Some? && BodiesFor(e.ids, txs.value, Listed(hist[h]))
    {
      hide Inv, Sqlite.Sound, BodyIn, BodiesFor;
      var block := GetBlockByID(blockID);
      if block.None? {
        return None;
      }
      ghost var h := HeightOf(e.ids, hist, blockID).value;
      ghost var users := UserIDs(hist[h]);
      forall id | h > 0 && id in Listed(hist[h]) ensures BodyIn(hist, id).Some? {
        ListedIsStored(e, Abs(), hist, h, id);
      }
      var all := [];
      assert BodiesFor(e.ids, [], []) by { NoBodies(e.ids); }
      for i := 0 to |block.value.guarantees|
        invariant BodiesFor(e.ids, all, if i == 0 then [] else users)
      {
        var ids := CollectionIDs(block.value.guarantees[i], h);
        if ids.None? {
          return None;
        }
        var found := Transactions(ids.value);
        if found.None? {
          return None;
        }
        BodiesForJoin(e.ids, all, [], found.value, users);
        assert [] + users == users;
        all := all + found.value;
      }
      var ids := SystemIDs(blockID, h);
      if ids.None? {
        return None;
      }
      GuaranteesOf(e, Abs(), hist, h);
      var found := Transactions(ids.value);
      if found.None? {
        return None;
      }
      BodiesForJoin(e.ids, all, users, found.value, hist[h].systemIDs);
      txs := Some(all + found.value);
    }

    /** The results of a standing block above genesis: one per listed transaction,
        in the same order, all sealed. */
    method GetTransactionResultsByBlockID(blockID: Identifier) returns (results: Option<seq<TransactionResult>>)
      requires Valid()
      ensures match HeightOf(e.ids, hist, blockID)
              case None => results == None
              case Some(h) => if h == 0 then results == None else results.Some? && ResultsFor(hist[h], results.value)
    {
      hide Inv, Sqlite.Sound, ResultsFrom, ResultsFor;
      var block := GetBlockByID(blockID);
      if block.None? {
        return None;
      }
      ghost var h := HeightOf(e.ids, hist, blockID).value;
      ghost var users := UserIDs(hist[h]);
      var all := [];
      assert ResultsFrom(hist[h].results, [], []) by { NoResults(hist[h].results); }
      for i := 0 to |block.value.guarantees|
        invariant if i == 0 then all == [] else ResultsFrom(hist[h].results, users, all)
      {
        var ids := CollectionIDs(block.value.guarantees[i], h);
        if ids.None? {
          return None;
        }
        var found := UserResults(ids.value, h);
        all := all + found;
        assert all == found;
      }
      var ids := SystemIDs(blockID, h);
      if ids.None? {
        return None;
      }
      GuaranteesOf(e, Abs(), hist, h);
      var found := SystemResults(blockID, ids.value, h);
      ResultsJoin(hist[h], all, found);
      results := Some(all + found);
    }

    method UserResults(ids: seq<Identifier>, ghost h: nat) returns (results: seq<TransactionResult>)
      requires Valid() && 0 < h < |hist| && ids == UserIDs(hist[h])
      ensures ResultsFrom(hist[h].results, ids, results)
    {
      hide Inv, Sqlite.Sound, ResultAnswers, ResultsFrom;
      results := [];
      assert ResultsFrom(hist[h].results, ids[..0], []) by { NoResults(hist[h].results); }
      for k := 0 to |ids|
        invariant ResultsFrom(hist[h].results, ids[..k], results)
      {
        var result := GetTransactionResult(ids[k]);
        UserResultAnswer(e, Abs(), hist, h, ids[k], result);
        ResultsFromMore(hist[h].results, ids, results, k);
        results := results + [result];
      }
      assert ids[..|ids|] == ids;
    }

    method SystemResults(blockID: Identifier, ids: seq<Identifier>, ghost h: nat)
      returns (results: seq<TransactionResult>)
      requires Valid() && 0 < h < |hist| && ids == hist[h].systemIDs && blockID == e.ids.blockID(hist[h].block)
      ensures ResultsFrom(hist[h].systemResults, ids, results)
    {
      hide Inv, Sqlite.Sound, SystemAnswers, ResultsFrom;
      results := [];
      assert ResultsFrom(hist[h].systemResults, ids[..0], []) by { NoResults(hist[h].systemResults); }
      for k := 0 to |ids|
        invariant ResultsFrom(hist[h].systemResults, ids[..k], results)
      {
        var result := SystemTransactionResult(blockID, ids[k]);
        SystemIsRecorded(e, Abs(), hist, h, ids[k]);
        SystemAnswer(e, Abs(), hist, h, ids[k], result);
        ResultsFromMore(hist[h].systemResults, ids, results, k);
        results := results + [result];
      }
      assert ids[..|ids|] == ids;
    }

    // -------------------------------------------------------------- range queries

    method BlockEventsAt(height: nat, kind: string) returns (entry: Option<BlockEvents>)
      requires Valid()
      ensures entry == if height < |hist| then Some(EventsIn(e.ids, hist[height], kind)) else None
      ensures entry.Some? ==> EntryOf(e.ids, hist[height], kind, entry.value)
    {
      hide Inv, Sqlite.Sound, SqlAnswers, OfKind, EntryOf;
      var block := storage.BlockByHeight(height);
      OnlyAnswer(e, Abs(), hist, BlockByHeight(height), block);
      if block.None? || !block.value.BlockCell? {
        return None;
      }
      var events := storage.EventsByHeight(height, kind);
      OnlyAnswer(e, Abs(), hist, EventsByHeight(height, kind), events);
      var b := block.value.block;
      entry := Some(BlockEvents(e.ids.blockID(b), b.height, b.timestamp, events.value.events));
      EventsInIs(e.ids, hist[height], kind, entry.value);
    }

    /** Heights are unsigned 64-bit numbers, so the loop variable may wrap around;
        it never does, because the loop stops above the tip. */
    method GetEventsForHeightRange(kind: string, start: nat, end: nat) returns (entries: seq<BlockEvents>)
      requires Valid() && |hist| <= MAX_UINT64 && start <= MAX_UINT64 && end <= MAX_UINT64
      ensures entries == EventsFrom(e.ids, hist, kind, start, end)
      ensures forall k | 0 <= k < |entries| :: EntryOf(e.ids, hist[start + k], kind, entries[k])
    {
      hide Inv, Sqlite.Sound, EventsIn, EntryOf;
      entries := [];
      var height := start;
      while height <= end
        invariant start <= height && |entries| == height - start
        invariant start < height ==> height <= |hist| && height <= end + 1
        invariant forall k | 0 <= k < |entries| :: entries[k] == EventsIn(e.ids, hist[start + k], kind)
        invariant forall k | 0 <= k < |entries| :: EntryOf(e.ids, hist[start + k], kind, entries[k])
        decreases if height < |hist| then |hist| - height else 0
      {
        var entry := BlockEventsAt(height, kind);
        if entry.None? {
          break;
        }
        entries := entries + [entry.value];
        height := (height + 1) % (MAX_UINT64 + 1);
      }
    }

    /** Stops at the first unknown block. */
    method GetEventsForBlockIDs(kind: string, blockIDs: seq<Identifier>) returns (entries: seq<BlockEvents>)
      requires Valid()
      ensures var n := KnownPrefix(e.ids, hist, blockIDs);
              |entries| == n && forall k | 0 <= k < n ::
                entries[k] == EventsIn(e.ids, hist[HeightOf(e.ids, hist, blockIDs[k]).value], kind)
                && EntryOf(e.ids, hist[HeightOf(e.ids, hist, blockIDs[k]).value], kind, entries[k])
    {
      hide Inv, Sqlite.Sound, EventsIn, KnownPrefix, HeightOf, EntryOf;
      entries := [];
      for i := 0 to |blockIDs|
        invariant |entries| == i <= KnownPrefix(e.ids, hist, blockIDs)
        invariant forall k | 0 <= k < i ::
                    entries[k] == EventsIn(e.ids, hist[HeightOf(e.ids, hist, blockIDs[k]).value], kind)
                    && EntryOf(e.ids, hist[HeightOf(e.ids, hist, blockIDs[k]).value], kind, entries[k])
      {
        var block := GetBlockByID(blockIDs[i]);
        if block.None? {
          break;
        }
        ghost var h := HeightOf(e.ids, hist, blockIDs[i]).value;
        OwnBlock(e, Abs(), hist, h);
        var entry := BlockEventsAt(block.value.height, kind);
        entries := entries + [entry.value];
      }
    }
  }

  lemma NoResults(stored: map<Identifier, StorableResult>)
    ensures ResultsFrom(stored, [], [])
  {}

  lemma OwnBlock(e: Engine, c: Chain, hist: seq<Commit>, h: nat)
    requires Inv(e, c, hist) && h < |hist|
    ensures hist[h].block.height == h
  {
    InvHistory(e, c, hist);
    HeightsMatch(hist, h);
  }

  lemma NoBodies(ids: Hashes)
    ensures BodiesFor(ids, [], [])
  {}

  lemma StoredBody(e: Engine, c: Chain, hist: seq<Commit>, id: Identifier, stored: Option<Cell>)
    requires Inv(e, c, hist) && SqlAnswers(c.db, TransactionByID(id), stored)
    ensures stored == BodyIn(hist, id)
    ensures stored.Some? ==> stored.value.BodyCell? && e.ids.transactionID(stored.value.body) == id
  {
    hide Inv, SqlAnswers, BodyIn, ContentAddressed;
    OnlyAnswer(e, c, hist, TransactionByID(id), stored);
    InvHistory(e, c, hist);
    forall i | 0 <= i < |hist| ensures ContentAddressed(e.ids, hist[i]) { CommitIsGood(e, hist, i); }
    BodyIsAddressed(e, hist, id);
  }

  lemma RunAllOutcome(e: Engine, c: Chain)
    requires c.pending.WellFormed(e.ids)
    ensures forall hist: seq<Commit> :: Extend(hist, RunAll(e, c).1) == hist
    ensures RunAll(e, c).0.pending.WellFormed(e.ids)
  {
    hide ExecuteRest, LedgerAt;
    ExecuteRestKeeps(e, UserContext(e, c), c.Base(), c.pending);
  }

  lemma RolledBackTip(e: Engine, c: Chain, hist: seq<Commit>, height: nat, latest: Option<Cell>)
    requires Inv(e, c, hist) && RollbackAllowed(c.db, height)
    requires SqlAnswers(RolledBack(c.db, height), LatestBlock, latest)
    ensures height < |hist| && latest == Some(BlockCell(hist[height].block))
    ensures Latest(RolledBack(c.db, height)) == Some(hist[height].block)
  {
    hide SqlAnswers, GoodHistory, SystemListsKept, PendingOn, RolledBack, Replayed;
    var db, kept := RolledBack(c.db, height), hist[..height + 1];
    RollbackHolds(e.ids, c.db, hist, height);
    PrefixGood(e, hist, height + 1);
    hide Holds;
    GoodIsConsistent(e, kept);
    SqlAnswersChain(e.ids, db, kept, LatestBlock, latest);
    LatestIsTip(e, db, kept);
  }

  lemma FinishIgnoresWork(e: Engine, c: Chain, work: Work, run: Option<SystemRun>, dice: nat, now: nat)
    ensures Finish(e, c, work, run, dice, now) ==
            Finish(e, c.(pending := c.pending.(work := work)), work, run, dice, now)
  {
    hide Committed, Indexed, Fresh, CommitCheck, ToSealed;
  }

  lemma IndexedIsSound(e: Engine, db: Db, commit: Commit)
    requires Sqlite.Sound(db)
    ensures Sqlite.Sound(Indexed(e, Committed(e.ids, db, commit), commit))
  {
    hide Committed, ScheduledRows, ScheduledBlockRows;
    Sqlite.CommittedSound(e.ids, db, commit);
  }

  lemma NoNumbers(t: Table, blockID: Identifier, height: nat)
    ensures t + ScheduledRows(map[], blockID, height) == t
  {}

  lemma MoreNumbers(t: Table, scheduled: map<nat, Identifier>, n: nat, id: Identifier, blockID: Identifier, height: nat)
    ensures t + ScheduledRows(scheduled[n := id], blockID, height) ==
            (t + ScheduledRows(scheduled, blockID, height))[Row(ScheduledKey(n), 0, height) := IdCell(blockID)]
  {
    hide ScheduledKey, ScheduledKeyNumber;
    assert ScheduledRows(scheduled[n := id], blockID, height) ==
           ScheduledRows(scheduled, blockID, height)[Row(ScheduledKey(n), 0, height) := IdCell(blockID)];
  }

  lemma NoIDs(t: Table, blockID: Identifier, height: nat)
    ensures t + ScheduledBlockRows({}, blockID, height) == t
  {}

  lemma MoreIDs(t: Table, ids: set<Identifier>, id: Identifier, blockID: Identifier, height: nat)
    ensures t + ScheduledBlockRows(ids + {id}, blockID, height) ==
            (t + ScheduledBlockRows(ids, blockID, height))[Row(IdKey(id), 0, height) := IdCell(blockID)]
  {
    hide IdKey, UnHex;
    assert ScheduledBlockRows(ids + {id}, blockID, height) ==
           ScheduledBlockRows(ids, blockID, height)[Row(IdKey(id), 0, height) := IdCell(blockID)];
  }

  lemma OnlyAnswer(e: Engine, c: Chain, hist: seq<Commit>, q: Query, r: Option<Cell>)
    requires Inv(e, c, hist) && !q.SystemTransactionsForBlockID? && SqlAnswers(c.db, q, r)
    ensures r == Answer(c.db, q) == ChainAnswer(e.ids, hist, q)
  {
    hide SqlAnswers, ChainAnswer, GoodHistory, SystemListsKept, PendingOn, Holds, Consistent;
    GoodIsConsistent(e, hist);
    SqlAnswersChain(e.ids, c.db, hist, q, r);
    Answers(e, c, hist, q);
  }

  lemma NextConverts(e: Engine, context: Context, base: Ledger, p: Pending)
    requires p.index < |p.transactionIDs| && p.transactionIDs[p.index] in p.transactions
    ensures var execution := ExecuteNext(e, context, base, p).1;
            execution != Failed ==> (execution.Succeeded? <==> e.converts(execution.output))
  {}

  lemma RestUnfolds(e: Engine, context: Context, base: Ledger, p: Pending)
    requires p.WellFormed(e.ids)
    ensures p.ExecutionComplete() ==> ExecuteRest(e, context, base, p) == (p, [], true)
    ensures !p.ExecutionComplete() ==>
              && p.transactionIDs[p.index] in p.transactions
              && var (q, execution) := ExecuteNext(e, context, base, p);
                 && q.WellFormed(e.ids)
                 && if execution.Succeeded? then
                      var (end, outputs, ok) := ExecuteRest(e, context, base, q);
                      ExecuteRest(e, context, base, p) == (end, [execution.output] + outputs, ok)
                    else ExecuteRest(e, context, base, p) == (q, [], false)
  {
    if !p.ExecutionComplete() { ExecuteNextWellFormed(e, context, base, p); }
  }
}
