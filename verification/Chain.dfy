/** The emulator as a state machine. Every call that changes it is one step;
    clients and the block ticker interleave their steps freely. */
module Chain {
  import opened Types
  import opened Keys
  import opened Tables
  import opened Storage
  import opened StoreQueries
  import opened Pending

  /** The committed state, the block being formed, and the block identifier that
      seeds randomness. */
  datatype Chain = Chain(db: Db, pending: Pending, entropy: Identifier) {
    /** The registers under the pending block. */
    function Base(): (l: Ledger) {
      LedgerAt(db.tables.registers, if pending.height == 0 then 0 else pending.height - 1)
    }
  }

  datatype Error =
    | PendingBlockMidExecution
    | DuplicateTransaction
    | InvalidTransaction
    | TransactionsExhausted
    | CommitBeforeExecution
    | ExecutionFailed
    | SystemExecutionFailed
    | CountMismatch(error: CommitError)
    | RollbackTooHigh
    | NoLatestBlock

  /** What clients and the ticker can ask for. Randomness and time are given with
      the step, and so is the verdict of the transaction validator. */
  datatype Step =
    | AddTransaction(tx: TransactionBody, valid: bool)
    | ExecuteNextTransaction
    | ExecuteBlock
    | CommitBlock(dice: nat, now: nat)
    | ExecuteAndCommitBlock(dice: nat, now: nat)
    | ResetPendingBlock(dice: nat, now: nat)
    | RollbackToBlockHeight(height: nat, dice: nat, now: nat)
    | SetClock(now: nat)

  /** What a step did. */
  datatype Outcome =
    | Accepted(id: Identifier)        // a transaction joined the pending block
    | Executed(outputs: seq<Output>)  // transactions ran
    | Sealed(commit: Commit)          // the pending block was committed
    | Pruned(height: nat)             // the chain was rolled back
    | Renewed                         // the pending block was replaced
    | Retimed(started: bool)          // the pending block's timestamp changed
    | Refused(error: Error)           // nothing changed
    | Halted(error: Error, outputs: seq<Output>)  // execution stopped at a failure, after these
    | Abandoned(error: Error)         // committing failed after it began to run

  // ---------------------------------------------------------------- reading the store

  lemma HasAnswer(db: Db, q: Query)
    ensures exists r :: SqlAnswers(db, q, r)
  {
    hide Reads, HeightKey, IdKey, SystemResultKey;
    var r: Option<Cell>;
    match q {
    case LatestBlock =>
      var h := SomeAnswer(db.Rows(Global), LATEST_BLOCK_KEY, 0);
      r := BlockHasAnswer(db, h);
    case BlockByHeight(height) => r := SomeAnswer(db.Rows(Blocks), HeightKey(height), 0);
    case BlockByID(id) =>
      var h := SomeAnswer(db.Rows(BlockIndex), IdKey(id), 0);
      r := BlockHasAnswer(db, h);
    case CollectionByID(id) => r := SomeAnswer(db.Rows(Collections), IdKey(id), 0);
    case TransactionByID(id) => r := SomeAnswer(db.Rows(Transactions), IdKey(id), 0);
    case TransactionResultByID(id) => r := SomeAnswer(db.Rows(TransactionResults), IdKey(id), 0);
    case SystemTransactionResultByID(b, id) =>
      r := SomeAnswer(db.Rows(TransactionResults), SystemResultKey(b, id), 0);
    case SystemTransactionsForBlockID(b) => r := SomeAnswer(db.Rows(SystemTransactionsOf), IdKey(b), 0);
    case EventsByHeight(height, kind) =>
      var stored := SomeAnswer(db.Rows(Events), HeightKey(height), 0);
      r := EventsAnswer(stored, kind);
    case RegisterAtHeight(id, height) => r := SomeAnswer(db.Rows(Registers), id, height);
    }
    assert SqlAnswers(db, q, r);
  }

  lemma BlockHasAnswer(db: Db, height: Option<Cell>) returns (r: Option<Cell>)
    ensures ReadsBlock(db, height, r)
  {
    hide Reads, HeightKey;
    if height.Some? && height.value.HeightCell? {
      r := SomeAnswer(db.Rows(Blocks), HeightKey(height.value.height), 0);
    } else {
      r := None;
    }
  }

  /** An answer of the row store. */
  ghost function Answer(db: Db, q: Query): (r: Option<Cell>)
    ensures SqlAnswers(db, q, r)
  {
    HasAnswer(db, q);
    var r :| SqlAnswers(db, q, r);
    r
  }

  ghost function Latest(db: Db): (b: Option<Block>) {
    match Answer(db, LatestBlock)
    case None => None
    case Some(cell) => if cell.BlockCell? then Some(cell.block) else None
  }

  // ---------------------------------------------------------------- adding and executing

  ghost function Add(e: Engine, c: Chain, tx: TransactionBody, valid: bool): (r: (Chain, Outcome)) {
    var id := e.ids.transactionID(tx);
    if c.pending.ExecutionStarted() then (c, Refused(PendingBlockMidExecution))
    else if id in c.pending.transactions then (c, Refused(DuplicateTransaction))
    else if Answer(c.db, TransactionByID(id)).Some? then (c, Refused(DuplicateTransaction))
    else if !valid then (c, Refused(InvalidTransaction))
    else (c.(pending := c.pending.Adding(e.ids, tx)), Accepted(id))
  }

  function UserContext(e: Engine, c: Chain): (x: Context) {
    Context(c.pending.ToBlock(e.ids), c.entropy, UserTransaction)
  }

  function RunOne(e: Engine, c: Chain): (r: (Chain, Outcome))
    requires c.pending.WellFormed(e.ids)
  {
    if c.pending.ExecutionComplete() then (c, Refused(TransactionsExhausted))
    else
      ExecuteNextWellFormed(e, UserContext(e, c), c.Base(), c.pending);
      var (p, execution) := ExecuteNext(e, UserContext(e, c), c.Base(), c.pending);
      (c.(pending := p),
       if execution.Succeeded? then Executed([execution.output]) else Halted(ExecutionFailed, []))
  }

  function RunAll(e: Engine, c: Chain): (r: (Chain, Outcome))
    requires c.pending.WellFormed(e.ids)
  {
    if c.pending.ExecutionComplete() && !c.pending.Empty() then (c, Refused(TransactionsExhausted))
    else
      var (p, outputs, ok) := ExecuteRest(e, UserContext(e, c), c.Base(), c.pending);
      (c.(pending := p), if ok then Executed(outputs) else Halted(ExecutionFailed, outputs))
  }

  // ---------------------------------------------------------------- committing

  function ToStorable(output: Output, blockID: Identifier, height: nat, collectionID: Identifier): (r: StorableResult) {
    StorableResult(output.errorCode, if output.errorCode != 0 then output.errorMessage else "", output.logs,
                   output.events, blockID, height, collectionID)
  }

  function ToSealed(results: map<Identifier, IndexedResult>, blockID: Identifier, height: nat, collectionID: Identifier)
    : (r: map<Identifier, StorableResult>)
    ensures r.Keys == results.Keys
  {
    map id | id in results :: ToStorable(results[id].output, blockID, height, collectionID)
  }

  /** What a pending block hands to the store once its system run is done. */
  function Record(ids: Hashes, p: Pending, work: Work, run: SystemRun): (c: Commit) {
    var block := p.ToBlock(ids);
    var collectionID := if p.transactionIDs == [] then ZERO_ID else ids.collectionID(p.transactionIDs);
    Commit(block, p.Collections(), p.transactions,
           ToSealed(p.results, ids.blockID(block), p.height, collectionID),
           run.order, run.bodies, ToSealed(run.results, ids.blockID(block), p.height, ZERO_ID),
           work.writes, work.events, run.scheduled)
  }

  function ScheduledRows(scheduled: map<nat, Identifier>, blockID: Identifier, height: nat): (t: Table) {
    hide ScheduledKey, ScheduledKeyNumber;
    map n | n in scheduled :: Row(ScheduledKey(n), 0, height) := IdCell(blockID)
  }

  function ScheduledBlockRows(ids: set<Identifier>, blockID: Identifier, height: nat): (t: Table) {
    hide IdKey, UnHex;
    map id | id in ids :: Row(IdKey(id), 0, height) := IdCell(blockID)
  }

  function StaticIDs(e: Engine): (ids: set<Identifier>) {
    {e.ids.transactionID(e.process), e.ids.transactionID(e.chunk)}
  }

  /** Indexes the scheduled transactions of a committed block, by number and by
      transaction. */
  function Indexed(e: Engine, db: Db, c: Commit): (after: Db) {
    var b, h, t := e.ids.blockID(c.block), db.current, db.tables;
    Db(h, t.(scheduledIndex := t.scheduledIndex + ScheduledRows(c.scheduled, b, h),
             scheduledBlockIndex := t.scheduledBlockIndex
                                    + ScheduledBlockRows(c.systemResults.Keys - StaticIDs(e), b, h)))
  }

  /** Runs the system transactions on top of the pending block. */
  function Attempt(e: Engine, c: Chain): (r: (Work, Option<SystemRun>)) {
    RunSystem(e, c.pending.ToBlock(e.ids), c.entropy, c.Base(), |c.pending.transactions|, c.pending.work)
  }

  /** Hands the block to the store once its system transactions have run. */
  function Finish(e: Engine, c: Chain, work: Work, run: Option<SystemRun>, dice: nat, now: nat): (r: (Chain, Outcome)) {
    var left := c.(pending := c.pending.(work := work));
    if run.None? then (left, Abandoned(SystemExecutionFailed))
    else
      var commit := Record(e.ids, c.pending, work, run.value);
      var error := CommitCheck(commit);
      if error.Some? then (left, Abandoned(CountMismatch(error.value)))
      else
        (Chain(Indexed(e, Committed(e.ids, c.db, commit), commit),
               Fresh(e.ids, commit.block, dice, now),
               e.ids.blockID(commit.block)),
         Sealed(commit))
  }

  /** A block can be committed once all its transactions have been executed. */
  function CommitGuard(p: Pending): (error: Option<Error>) {
    if !p.ExecutionStarted() && !p.Empty() then Some(CommitBeforeExecution)
    else if p.ExecutionStarted() && !p.ExecutionComplete() then Some(PendingBlockMidExecution)
    else None
  }

  function Seal(e: Engine, c: Chain, dice: nat, now: nat): (r: (Chain, Outcome)) {
    var guard := CommitGuard(c.pending);
    if guard.Some? then (c, Refused(guard.value))
    else
      var (work, run) := Attempt(e, c);
      Finish(e, c, work, run, dice, now)
  }

  function RunAllAndSeal(e: Engine, c: Chain, dice: nat, now: nat): (r: (Chain, Outcome))
    requires c.pending.WellFormed(e.ids)
  {
    var (ran, outcome) := RunAll(e, c);
    if outcome.Executed? then Seal(e, ran, dice, now)
    else (ran, if outcome.Halted? then Halted(outcome.error, []) else outcome)
  }

  // ---------------------------------------------------------------- replacing the pending block

  ghost function Renew(e: Engine, c: Chain, dice: nat, now: nat): (r: (Chain, Outcome)) {
    match Latest(c.db)
    case None => (c, Refused(NoLatestBlock))
    case Some(block) => (c.(pending := Fresh(e.ids, block, dice, now)), Renewed)
  }

  ghost function Prune(e: Engine, c: Chain, height: nat, dice: nat, now: nat): (r: (Chain, Outcome)) {
    if !RollbackAllowed(c.db, height) then (c, Refused(RollbackTooHigh))
    else
      var db := RolledBack(c.db, height);
      match Latest(db)
      case None => (c.(db := db), Refused(NoLatestBlock))
      case Some(block) => (c.(db := db, pending := Fresh(e.ids, block, dice, now)), Pruned(height))
  }

  // ---------------------------------------------------------------- runs

  ghost function Next(e: Engine, c: Chain, step: Step): (r: (Chain, Outcome))
    requires c.pending.WellFormed(e.ids)
  {
    match step
    case AddTransaction(tx, valid) => Add(e, c, tx, valid)
    case ExecuteNextTransaction => RunOne(e, c)
    case ExecuteBlock => RunAll(e, c)
    case CommitBlock(dice, now) => Seal(e, c, dice, now)
    case ExecuteAndCommitBlock(dice, now) => RunAllAndSeal(e, c, dice, now)
    case ResetPendingBlock(dice, now) => Renew(e, c, dice, now)
    case RollbackToBlockHeight(height, dice, now) => Prune(e, c, height, dice, now)
    case SetClock(now) => (c.(pending := c.pending.(timestamp := now)), Retimed(c.pending.ExecutionStarted()))
  }

  function GenesisBlock(e: Engine): (b: Block) { Block(0, 0, ZERO_ID, e.genesisTime, []) }

  function GenesisCommit(e: Engine): (c: Commit) {
    Commit(GenesisBlock(e), [], map[], map[], [], map[], map[], e.genesisWrites, e.genesisEvents, map[])
  }

  /** A new emulator over an empty store. */
  function Start(e: Engine, dice: nat, now: nat): (c: Chain) {
    Chain(Committed(e.ids, EMPTY_DB, GenesisCommit(e)), Fresh(e.ids, GenesisBlock(e), dice, now), ZERO_ID)
  }
}
