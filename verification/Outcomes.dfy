/** What the steps answer: which transactions are accepted, what is refused and
    why, and the outputs that execution returns. */
module Outcomes {
  import opened Types
  import opened Tables
  import opened Storage
  import opened History
  import opened StoreQueries
  import opened Pending
  import opened Chain
  import opened Invariants
  import opened Runs
  import opened Safety

  /** The transaction is neither pending nor in any standing block, in any role. */
  ghost predicate New(c: Chain, hist: seq<Commit>, id: Identifier) {
    id !in c.pending.transactions && Unused(hist, id)
  }

  /** A transaction is accepted exactly when it is valid and new and execution has
      not started; it then joins the end of the pending block, and nothing else
      changes. Otherwise nothing changes, and the error says why. */
  lemma AcceptedExactly(e: Engine, c: Chain, hist: seq<Commit>, tx: TransactionBody, valid: bool)
    requires Inv(e, c, hist)
    ensures var id := e.ids.transactionID(tx);
            var (d, outcome) := Add(e, c, tx, valid);
            var started := c.pending.index > 0;
            && (outcome.Accepted? <==> valid && !started && New(c, hist, id))
            && (outcome.Accepted? ==>
                  && outcome.id == id
                  && d == c.(pending := c.pending.(transactionIDs := c.pending.transactionIDs + [id],
                                                   transactions := c.pending.transactions[id := tx])))
            && (!outcome.Accepted? ==> d == c)
            && (outcome == Refused(PendingBlockMidExecution) <==> started)
            && (outcome == Refused(DuplicateTransaction) <==> !started && !New(c, hist, id))
            && (outcome == Refused(InvalidTransaction) <==> !started && New(c, hist, id) && !valid)
  {
    hide Inv, Answer, Unused, BodyIn;
    var id := e.ids.transactionID(tx);
    InvPending(e, c, hist);
    Answers(e, c, hist, TransactionByID(id));
    UnusedHasNoBody(hist, id);
  }

  /** In every run, what was accepted came with the validator's approval. */
  lemma {:induction false} AcceptedWasValid(e: Engine, c: Chain, hist: seq<Commit>, steps: seq<Step>, k: nat)
    requires Inv(e, c, hist) && k < |steps| && Continue(e, c, hist, steps).1[k].Accepted?
    ensures steps[k].AddTransaction? && steps[k].valid
    ensures Continue(e, c, hist, steps).1[k].id == e.ids.transactionID(steps[k].tx)
  {
    hide Inv, Next, Standing;
    var n := |steps| - 1;
    LastStep(e, c, hist, steps);
    if k < n {
      AcceptedWasValid(e, c, hist, steps[..n], k);
    } else {
      var (d, log) := Continue(e, c, hist, steps[..n]);
      AcceptingStep(e, d, Standing(hist, log), steps[n]);
    }
  }

  lemma AcceptingStep(e: Engine, c: Chain, hist: seq<Commit>, step: Step)
    requires Inv(e, c, hist)
    ensures c.pending.WellFormed(e.ids)
    ensures Next(e, c, step).1.Accepted? ==>
              step.AddTransaction? && step.valid && Next(e, c, step).1.id == e.ids.transactionID(step.tx)
  {
    hide Inv, Add, RunOne, RunAll, Seal, Renew, Prune, New;
    InvPending(e, c, hist);
    NoneAccepts(e, c);
    match step
    case AddTransaction(tx, valid) => AcceptedExactly(e, c, hist, tx, valid);
    case ExecuteNextTransaction =>
    case ExecuteBlock =>
    case CommitBlock(dice, now) => SealNeverAccepts(e, c, dice, now);
    case ExecuteAndCommitBlock(dice, now) => SealNeverAccepts(e, RunAll(e, c).0, dice, now);
    case ResetPendingBlock(dice, now) => NeverAccepts(e, c, 0, dice, now);
    case RollbackToBlockHeight(height, dice, now) => NeverAccepts(e, c, height, dice, now);
    case SetClock(now) =>
  }

  lemma NoneAccepts(e: Engine, c: Chain)
    requires c.pending.WellFormed(e.ids)
    ensures !RunOne(e, c).1.Accepted? && !RunAll(e, c).1.Accepted?
  {
    hide ExecuteNext, ExecuteRest, LedgerAt;
  }

  lemma SealNeverAccepts(e: Engine, c: Chain, dice: nat, now: nat)
    ensures !Seal(e, c, dice, now).1.Accepted?
  {
    hide Attempt, Committed, Indexed, Fresh, CommitCheck, Record;
  }

  lemma NeverAccepts(e: Engine, c: Chain, height: nat, dice: nat, now: nat)
    ensures !Renew(e, c, dice, now).1.Accepted? && !Prune(e, c, height, dice, now).1.Accepted?
  {
    hide Latest, RolledBack;
  }

  // ---------------------------------------------------------------- refusals

  /** Why a step is refused, if it is. */
  ghost predicate RefusedFor(e: Engine, c: Chain, hist: seq<Commit>, step: Step, error: Error) {
    var p := c.pending;
    match step
    case AddTransaction(tx, valid) =>
      (match error
       case PendingBlockMidExecution => p.index > 0
       case DuplicateTransaction => p.index == 0 && !New(c, hist, e.ids.transactionID(tx))
       case InvalidTransaction => p.index == 0 && New(c, hist, e.ids.transactionID(tx)) && !valid
       case _ => false)
    case ExecuteNextTransaction => error == TransactionsExhausted && p.index == |p.transactionIDs|
    case ExecuteBlock => error == TransactionsExhausted && 0 < p.index == |p.transactionIDs|
    case ExecuteAndCommitBlock(_, _) => error == TransactionsExhausted && 0 < p.index == |p.transactionIDs|
    case CommitBlock(_, _) =>
      (match error
       case CommitBeforeExecution => 0 == p.index < |p.transactionIDs|
       case PendingBlockMidExecution => 0 < p.index < |p.transactionIDs|
       case _ => false)
    case RollbackToBlockHeight(height, _, _) => error == RollbackTooHigh && height >= |hist| - 1
    case ResetPendingBlock(_, _) => false
    case SetClock(_) => false
  }

  /** Each step is refused exactly for its own reasons, and then changes nothing. */
  lemma RefusedExactly(e: Engine, c: Chain, hist: seq<Commit>, step: Step)
    requires Inv(e, c, hist)
    ensures c.pending.WellFormed(e.ids)
    ensures var (d, outcome) := Next(e, c, step);
            && (forall error :: outcome == Refused(error) <==> RefusedFor(e, c, hist, step, error))
            && (outcome.Refused? ==> d == c)
  {
    hide Inv, Add, RunOne, RunAll, Seal, Renew, Prune, New;
    InvPending(e, c, hist);
    match step
    case AddTransaction(tx, valid) => AcceptedExactly(e, c, hist, tx, valid); AddOutcomes(e, c, tx, valid);
    case ExecuteNextTransaction => RunRefused(e, c);
    case ExecuteBlock => RunRefused(e, c);
    case CommitBlock(dice, now) => SealRefused(e, c, dice, now);
    case ExecuteAndCommitBlock(dice, now) =>
      RunRefused(e, c);
      SealRefused(e, RunAll(e, c).0, dice, now);
    case ResetPendingBlock(dice, now) => RenewNotRefused(e, c, hist, dice, now);
    case RollbackToBlockHeight(height, dice, now) =>
      PruneKeeps(e, c, hist, height, dice, now);
      PruneRefused(e, c, height, dice, now);
    case SetClock(now) =>
  }

  lemma AddOutcomes(e: Engine, c: Chain, tx: TransactionBody, valid: bool)
    ensures var o := Add(e, c, tx, valid).1;
            o.Accepted? || o in {Refused(PendingBlockMidExecution), Refused(DuplicateTransaction), Refused(InvalidTransaction)}
  {
    hide Answer;
  }

  lemma RunRefused(e: Engine, c: Chain)
    requires c.pending.WellFormed(e.ids)
    ensures var (d, o) := RunOne(e, c);
            && (o.Refused? ==> d == c && o.error == TransactionsExhausted)
            && (o.Refused? <==> c.pending.index == |c.pending.transactionIDs|)
    ensures var (d, o) := RunAll(e, c);
            && (o.Refused? ==> d == c && o.error == TransactionsExhausted)
            && (o.Refused? <==> 0 < c.pending.index == |c.pending.transactionIDs|)
            && (o.Executed? ==> d.pending.ExecutionComplete()) && (o.Refused? || o.Executed? || o.Halted?)
  {
    hide ExecuteNext, LedgerAt;
    RestCompletes(e, UserContext(e, c), c.Base(), c.pending);
    hide ExecuteRest;
  }

  lemma {:induction false} RestCompletes(e: Engine, context: Context, base: Ledger, p: Pending)
    requires p.WellFormed(e.ids)
    ensures var (q, _, ok) := ExecuteRest(e, context, base, p); ok ==> q.ExecutionComplete()
    decreases |p.transactionIDs| - p.index
  {
    hide ExecuteNext;
    if !p.ExecutionComplete() {
      ExecuteNextWellFormed(e, context, base, p);
      var (q, execution) := ExecuteNext(e, context, base, p);
      if execution.Succeeded? { RestCompletes(e, context, base, q); }
    }
  }

  lemma SealRefused(e: Engine, c: Chain, dice: nat, now: nat)
    ensures var (d, o) := Seal(e, c, dice, now);
            && (o.Refused? ==> d == c && (o.error == CommitBeforeExecution || o.error == PendingBlockMidExecution))
            && (o == Refused(CommitBeforeExecution) <==> 0 == c.pending.index < |c.pending.transactionIDs|)
            && (o == Refused(PendingBlockMidExecution) <==> 0 < c.pending.index < |c.pending.transactionIDs|)
  {
    hide Attempt, Committed, Indexed, Fresh, CommitCheck, Record;
  }

  lemma RenewNotRefused(e: Engine, c: Chain, hist: seq<Commit>, dice: nat, now: nat)
    requires Inv(e, c, hist)
    ensures Renew(e, c, dice, now).1 == Renewed
  {
    hide Latest, GoodHistory, Holds, SystemListsKept, PendingOn;
    LatestIsTip(e, c.db, hist);
  }

  lemma PruneRefused(e: Engine, c: Chain, height: nat, dice: nat, now: nat)
    ensures var (d, o) := Prune(e, c, height, dice, now); o == Refused(RollbackTooHigh) ==> d == c
  {
    hide Latest, RolledBack;
  }

  /** A commit that gets past its guards is abandoned exactly when the system run
      fails, a transaction lacks its result, or a system transaction repeats, in
      this order of precedence. */
  lemma AbandonedExactly(e: Engine, c: Chain, hist: seq<Commit>, dice: nat, now: nat)
    requires Inv(e, c, hist) && CommitGuard(c.pending) == None
    ensures var o, run := Seal(e, c, dice, now).1, Attempt(e, c).1;
            var recorded := c.pending.results.Keys == c.pending.transactions.Keys;
            && (o == Abandoned(SystemExecutionFailed) <==> run.None?)
            && (o == Abandoned(CountMismatch(TransactionCount)) <==> run.Some? && !recorded)
            && (o == Abandoned(CountMismatch(SystemTransactionCount)) <==>
                  run.Some? && recorded && !NoDuplicates(run.value.order))
  {
    hide Inv, RunSystem, Committed, Indexed, Fresh, LedgerAt, NoDuplicates, ToSealed;
    InvPending(e, c, hist);
    var p := c.pending;
    var (work, run) := Attempt(e, c);
    RunSystemComplete(e, p.ToBlock(e.ids), c.entropy, c.Base(), |p.transactions|, p.work);
    if run.Some? {
      CompleteIsWellFormed(e, run.value);
      CheckIs(e, p, work, run.value);
    }
  }

  lemma CheckIs(e: Engine, p: Pending, work: Work, run: SystemRun)
    requires p.WellFormed(e.ids) && run.WellFormed(e.ids)
    ensures var recorded := p.results.Keys == p.transactions.Keys;
            CommitCheck(Record(e.ids, p, work, run)) ==
            if !recorded then Some(TransactionCount)
            else if !NoDuplicates(run.order) then Some(SystemTransactionCount) else None
  {
    hide ToStorable, NoDuplicates;
    var c := Record(e.ids, p, work, run);
    DistinctByCardinality(run.order);
    assert |c.systemResults.Keys| == |c.systemResults| && c.systemResults.Keys == Elements(run.order);
    assert |c.results.Keys| == |c.results| && |p.transactions.Keys| == |p.transactions|;
    assert p.results.Keys <= p.transactions.Keys by {
      assert Elements(p.transactionIDs[..p.index]) <= Elements(p.transactionIDs);
    }
    if |p.results.Keys| == |p.transactions.Keys| { SubsetOfSameSize(p.results.Keys, p.transactions.Keys); }
  }

  // ---------------------------------------------------------------- outputs

  /** The outputs are, in order, those recorded for the transactions from an index
      on, each with its position. */
  ghost predicate RecordedFrom(q: Pending, index: nat, outputs: seq<Output>) {
    && index + |outputs| <= |q.transactionIDs|
    && forall k | 0 <= k < |outputs| :: RecordedAt(q, index + k, outputs[k])
  }

  ghost predicate RecordedAt(q: Pending, i: nat, output: Output) {
    && i < |q.transactionIDs| && q.transactionIDs[i] in q.results
    && q.results[q.transactionIDs[i]] == IndexedResult(output, i)
  }

  /** What was recorded up to an index stays. */
  ghost predicate KeepsRecorded(p: Pending, q: Pending) {
    && q.transactionIDs == p.transactionIDs && p.index <= |p.transactionIDs|
    && forall i | 0 <= i < p.index && p.transactionIDs[i] in p.results ::
         p.transactionIDs[i] in q.results && q.results[p.transactionIDs[i]] == p.results[p.transactionIDs[i]]
  }

  /** The transaction at a position has no result, or one that does not convert. */
  ghost predicate Unsuccessful(e: Engine, q: Pending, i: nat) {
    i < |q.transactionIDs|
    && var id := q.transactionIDs[i]; id in q.results ==> !e.converts(q.results[id].output)
  }

  lemma NextIsRecorded(e: Engine, context: Context, base: Ledger, p: Pending)
    requires p.WellFormed(e.ids) && p.index < |p.transactionIDs|
    ensures p.transactionIDs[p.index] in p.transactions
    ensures var (q, execution) := ExecuteNext(e, context, base, p);
            && q.index == p.index + 1 && KeepsRecorded(p, q)
            && (execution.Succeeded? ==> RecordedFrom(q, p.index, [execution.output]) && e.converts(execution.output))
            && (!execution.Succeeded? ==> Unsuccessful(e, q, p.index))
  {
    hide ExecuteNext, RecordedFrom, KeepsRecorded, Unsuccessful;
    ExecuteNextWellFormed(e, context, base, p);
    NotYetRecorded(e.ids, p);
    var id := p.transactionIDs[p.index];
    assert e.ids.transactionID(p.transactions[id]) == id;
    NextRecords(e, context, base, p, id);
  }

  lemma NextRecords(e: Engine, context: Context, base: Ledger, p: Pending, id: Identifier)
    requires p.index < |p.transactionIDs| && p.transactionIDs[p.index] == id && id in p.transactions
    requires e.ids.transactionID(p.transactions[id]) == id && id !in p.results
    requires forall i | 0 <= i < p.index :: p.transactionIDs[i] != id
    ensures var (q, execution) := ExecuteNext(e, context, base, p);
            && q.index == p.index + 1 && KeepsRecorded(p, q)
            && (execution.Succeeded? ==> RecordedFrom(q, p.index, [execution.output]) && e.converts(execution.output))
            && (!execution.Succeeded? ==> Unsuccessful(e, q, p.index))
  {}

  lemma NotYetRecorded(ids: Hashes, p: Pending)
    requires p.WellFormed(ids) && p.index < |p.transactionIDs|
    ensures p.transactionIDs[p.index] !in p.results
    ensures forall i | 0 <= i < p.index :: p.transactionIDs[i] != p.transactionIDs[p.index]
  {
    assert p.transactionIDs[p.index] !in p.transactionIDs[..p.index];
  }

  lemma RecordedThen(p: Pending, q: Pending, r: Pending, output: Output, outputs: seq<Output>)
    requires q.index == p.index + 1 && KeepsRecorded(p, q) && KeepsRecorded(q, r)
    requires RecordedFrom(q, p.index, [output]) && RecordedFrom(r, q.index, outputs)
    ensures KeepsRecorded(p, r) && RecordedFrom(r, p.index, [output] + outputs)
  {
    var all := [output] + outputs;
    assert RecordedAt(q, p.index + 0, [output][0]);
    forall k | 0 <= k < |all| ensures RecordedAt(r, p.index + k, all[k]) {
      if k > 0 { assert RecordedAt(r, q.index + (k - 1), outputs[k - 1]); }
    }
  }

  /** Executing a block returns the outputs of the transactions it ran, in order, as
      recorded in the results: all that were left, or those before the one that has
      no result, or whose output does not convert. */
  lemma {:induction false} OutputsRecorded(e: Engine, context: Context, base: Ledger, p: Pending)
    requires p.WellFormed(e.ids)
    ensures var (q, outputs, ok) := ExecuteRest(e, context, base, p);
            && KeepsRecorded(p, q) && RecordedFrom(q, p.index, outputs)
            && q.index == p.index + |outputs| + (if ok then 0 else 1) && (ok ==> q.index == |q.transactionIDs|)
            && (forall output | output in outputs :: e.converts(output)) && (!ok ==> Unsuccessful(e, q, q.index - 1))
    decreases |p.transactionIDs| - p.index
  {
    hide ExecuteNext;
    if !p.ExecutionComplete() {
      hide RecordedFrom, KeepsRecorded, Unsuccessful;
      ExecuteNextWellFormed(e, context, base, p);
      NextIsRecorded(e, context, base, p);
      var (q, execution) := ExecuteNext(e, context, base, p);
      if execution.Succeeded? {
        OutputsRecorded(e, context, base, q);
        var (end, outputs, ok) := ExecuteRest(e, context, base, q);
        RecordedThen(p, q, end, execution.output, outputs);
      } else {
        NothingRecorded(q, p.index);
      }
    }
  }

  lemma NothingRecorded(q: Pending, index: nat)
    requires index <= |q.transactionIDs|
    ensures RecordedFrom(q, index, [])
  {}

  /** The same of the two calls that execute. */
  lemma RunsReturnRecorded(e: Engine, c: Chain)
    requires c.pending.WellFormed(e.ids)
    ensures var (d, o) := RunOne(e, c);
            && (o.Executed? ==> |o.outputs| == 1 && RecordedFrom(d.pending, c.pending.index, o.outputs))
            && (o.Executed? ==> e.converts(o.outputs[0])) && (o.Halted? ==> Unsuccessful(e, d.pending, c.pending.index))
            && (o.Executed? || o.Halted? ==> d.pending.index == c.pending.index + 1)
    ensures var (d, o) := RunAll(e, c);
            && (o.Executed? || o.Halted? ==> RecordedFrom(d.pending, c.pending.index, o.outputs))
            && (o.Executed? ==> d.pending.index == c.pending.index + |o.outputs| == |d.pending.transactionIDs|)
            && (o.Halted? ==> d.pending.index == c.pending.index + |o.outputs| + 1)
            && (o.Executed? || o.Halted? ==> forall output | output in o.outputs :: e.converts(output))
            && (o.Halted? ==> Unsuccessful(e, d.pending, d.pending.index - 1))
  {
    hide ExecuteNext, ExecuteRest, LedgerAt, RecordedFrom, KeepsRecorded, Unsuccessful;
    if !c.pending.ExecutionComplete() { NextIsRecorded(e, UserContext(e, c), c.Base(), c.pending); }
    OutputsRecorded(e, UserContext(e, c), c.Base(), c.pending);
  }
}
