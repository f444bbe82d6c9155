/** The block ticker: each tick executes the pending block and then commits it.
    The two halves are separate steps, so clients can get in between. */
module Ticker {
  import opened Types
  import opened Tables
  import opened Storage
  import opened Pending
  import opened Chain
  import opened Invariants
  import opened Runs
  import opened Safety
  import opened Delivery

  // ---------------------------------------------------------------- an undisturbed tick

  /** Every transaction executed so far has its result. */
  ghost predicate AllRecorded(p: Pending) {
    p.index <= |p.transactionIDs| && p.results.Keys == Elements(p.transactionIDs[..p.index])
  }

  /** A pending block is either poisoned or has all results so far. */
  lemma PoisonedOrRecorded(ids: Hashes, p: Pending)
    requires p.WellFormed(ids)
    ensures AllRecorded(p) <==> !Poisoned(p)
  {
    if AllRecorded(p) {
      forall i | 0 <= i < p.index ensures p.transactionIDs[i] in p.results {
        assert p.transactionIDs[i] in p.transactionIDs[..p.index];
      }
    }
    if !Poisoned(p) {
      forall id | id in Elements(p.transactionIDs[..p.index]) ensures id in p.results {
        var i :| 0 <= i < p.index && p.transactionIDs[i] == id;
      }
    }
  }

  lemma NextRecords(e: Engine, context: Context, base: Ledger, p: Pending)
    requires p.WellFormed(e.ids) && p.index < |p.transactionIDs|
    ensures p.transactionIDs[p.index] in p.transactions
    ensures var (q, execution) := ExecuteNext(e, context, base, p);
            q.WellFormed(e.ids) && (Poisoned(q) <==> Poisoned(p) || execution == Failed)
  {
    ExecuteNextWellFormed(e, context, base, p);
    FailurePoisons(e, context, base, p);
    if Poisoned(p) { ExecutePoisoned(e, context, base, p); }
    var (q, execution) := ExecuteNext(e, context, base, p);
    if Poisoned(q) && execution != Failed {
      var i :| 0 <= i < q.index && q.transactionIDs[i] !in q.results;
      assert i < p.index && p.transactionIDs[i] !in p.results;
    }
  }

  /** Every transaction left runs and merges, and every one but the last converts. */
  predicate RunsThrough(e: Engine, context: Context, base: Ledger, p: Pending)
    requires p.WellFormed(e.ids)
    decreases |p.transactionIDs| - p.index
  {
    p.ExecutionComplete() ||
    (ExecuteNextWellFormed(e, context, base, p);
     var (q, execution) := ExecuteNext(e, context, base, p);
     match execution
     case Failed => false
     case Unconverted(_) => q.ExecutionComplete()
     case Succeeded(_) => RunsThrough(e, context, base, q))
  }

  /** Executing a block leaves it complete and with all results exactly when it was
      not poisoned before and runs through. */
  lemma {:induction false} RunsThroughExactly(e: Engine, context: Context, base: Ledger, p: Pending)
    requires p.WellFormed(e.ids)
    ensures var q := ExecuteRest(e, context, base, p).0;
            !Poisoned(q) && q.ExecutionComplete() <==> !Poisoned(p) && RunsThrough(e, context, base, p)
    decreases |p.transactionIDs| - p.index
  {
    hide ExecuteNext, Poisoned;
    if !p.ExecutionComplete() {
      ExecuteNextWellFormed(e, context, base, p);
      NextRecords(e, context, base, p);
      var (q, execution) := ExecuteNext(e, context, base, p);
      if execution.Succeeded? { RunsThroughExactly(e, context, base, q); }
    }
  }

  /** The system transactions run to the end and none is repeated. */
  ghost predicate SystemRuns(e: Engine, c: Chain) {
    Attempt(e, c).1.Some? && NoDuplicates(Attempt(e, c).1.value.order)
  }

  lemma GuardIsComplete(p: Pending)
    ensures CommitGuard(p) == None <==> p.ExecutionComplete()
  {}

  lemma AllHaveResults(ids: Hashes, p: Pending)
    requires p.WellFormed(ids) && p.ExecutionComplete()
    ensures p.results.Keys == p.transactions.Keys <==> !Poisoned(p)
  {
    hide Poisoned;
    PoisonedOrRecorded(ids, p);
    assert p.transactionIDs[..p.index] == p.transactionIDs;
  }

  /** A tick that nobody interrupts commits the block exactly when it was not
      poisoned before, runs through, and its system transactions run. Then all
      pending transactions are committed and the pending block is empty; otherwise
      the store is left as it was. */
  lemma TickCommits(e: Engine, c: Chain, hist: seq<Commit>, dice: nat, now: nat)
    requires Inv(e, c, hist)
    ensures c.pending.WellFormed(e.ids)
    ensures var (d, log) := Continue(e, c, hist, [ExecuteBlock, CommitBlock(dice, now)]);
            && (log[1].Sealed? <==>
                  && !Poisoned(c.pending) && RunsThrough(e, UserContext(e, c), c.Base(), c.pending)
                  && SystemRuns(e, RunAll(e, c).0))
            && (log[1].Sealed? ==>
                  && UserIDs(log[1].commit) == c.pending.transactionIDs
                  && log[1].commit.transactions == c.pending.transactions && d.pending.Empty())
            && (!log[1].Sealed? ==> d.db == c.db)
  {
    hide Inv, Poisoned, RunsThrough, SystemRuns, Seal, RunAll;
    var tick := [ExecuteBlock, CommitBlock(dice, now)];
    assert tick[..1] == [ExecuteBlock] && [ExecuteBlock][..0] == [];
    InvPending(e, c, hist);
    LastStep(e, c, hist, tick);
    LastStep(e, c, hist, tick[..1]);
    RunAllKeeps(e, c, hist);
    RunAllRuns(e, c);
    var ran := RunAll(e, c).0;
    TickSeals(e, ran, hist, dice, now);
  }

  lemma RunAllRuns(e: Engine, c: Chain)
    requires c.pending.WellFormed(e.ids)
    ensures var (ran, outcome) := RunAll(e, c);
            && ran == c.(pending := ran.pending) && ran.pending.transactionIDs == c.pending.transactionIDs
            && ran.pending.transactions == c.pending.transactions && !outcome.Sealed? && !outcome.Pruned?
            && (!Poisoned(ran.pending) && ran.pending.ExecutionComplete() <==>
                  !Poisoned(c.pending) && RunsThrough(e, UserContext(e, c), c.Base(), c.pending))
  {
    hide ExecuteRest, LedgerAt, Poisoned;
    RunsThroughExactly(e, UserContext(e, c), c.Base(), c.pending);
    ExecuteRestKeeps(e, UserContext(e, c), c.Base(), c.pending);
  }

  /** When the commit of a tick succeeds, and what it does. */
  lemma TickSeals(e: Engine, c: Chain, hist: seq<Commit>, dice: nat, now: nat)
    requires Inv(e, c, hist)
    ensures var (d, outcome) := Seal(e, c, dice, now);
            && (outcome.Sealed? <==> !Poisoned(c.pending) && c.pending.ExecutionComplete() && SystemRuns(e, c))
            && (outcome.Sealed? ==>
                  && UserIDs(outcome.commit) == c.pending.transactionIDs
                  && outcome.commit.transactions == c.pending.transactions && d.pending.Empty())
            && (!outcome.Sealed? ==> d.db == c.db)
  {
    hide Inv, Poisoned, Seal, Attempt, NoDuplicates, CommitGuard, Record;
    InvPending(e, c, hist);
    SealSucceeds(e, c, hist, dice, now);
    SealedTakesPending(e, c, dice, now);
    SealCases(e, c, dice, now);
    GuardIsComplete(c.pending);
    if c.pending.ExecutionComplete() { AllHaveResults(e.ids, c.pending); }
    if Attempt(e, c).1.Some? { RecordIs(e.ids, c.pending, Attempt(e, c).0, Attempt(e, c).1.value); }
  }

  // ---------------------------------------------------------------- the promised block

  /** The step keeps the pending block's timestamp and parent. */
  predicate KeepsPromise(step: Step) { Forward(step) && !step.SetClock? }

  /** The pending block is still the one promised, or it has been committed. */
  ghost predicate Promised(e: Engine, block: Block, r: (Chain, Outcome)) {
    if r.1.Sealed? then r.1.commit.block == block
    else r.0.pending.ExecutionStarted() && r.0.pending.ToBlock(e.ids) == block
  }

  lemma RunsKeepPromise(e: Engine, c: Chain, tx: TransactionBody, valid: bool)
    requires c.pending.WellFormed(e.ids) && c.pending.ExecutionStarted()
    ensures var block := c.pending.ToBlock(e.ids);
            && Promised(e, block, Add(e, c, tx, valid))
            && Promised(e, block, RunOne(e, c)) && Promised(e, block, RunAll(e, c))
    ensures !RunAll(e, c).1.Sealed?
  {
    hide ExecuteNext, ExecuteRest, LedgerAt, Answer;
    if !c.pending.ExecutionComplete() { ExecuteNextWellFormed(e, UserContext(e, c), c.Base(), c.pending); }
    ExecuteRestKeeps(e, UserContext(e, c), c.Base(), c.pending);
  }

  lemma SealKeepsPromise(e: Engine, c: Chain, dice: nat, now: nat)
    requires c.pending.ExecutionStarted()
    ensures Promised(e, c.pending.ToBlock(e.ids), Seal(e, c, dice, now))
  {
    hide Seal, Attempt;
    SealedTakesPending(e, c, dice, now);
    SealCases(e, c, dice, now);
  }

  lemma StepKeepsPromise(e: Engine, c: Chain, hist: seq<Commit>, step: Step)
    requires Inv(e, c, hist) && c.pending.ExecutionStarted() && KeepsPromise(step)
    ensures c.pending.WellFormed(e.ids) && Promised(e, c.pending.ToBlock(e.ids), Next(e, c, step))
  {
    hide Inv, Add, RunOne, RunAll, Seal;
    InvPending(e, c, hist);
    RunsKeepPromise(e, c, if step.AddTransaction? then step.tx else e.process, step.AddTransaction? && step.valid);
    match step
    case AddTransaction(_, _) =>
    case ExecuteNextTransaction =>
    case ExecuteBlock =>
    case CommitBlock(dice, now) => SealKeepsPromise(e, c, dice, now);
    case ExecuteAndCommitBlock(dice, now) => SealKeepsPromise(e, RunAll(e, c).0, dice, now);
  }

  function FirstSealed(log: seq<Outcome>): (commit: Option<Commit>) {
    if log == [] then None
    else
      var before := FirstSealed(log[..|log| - 1]);
      if before.Some? then before
      else if log[|log| - 1].Sealed? then Some(log[|log| - 1].commit) else None
  }

  /** Once execution has started, the identifier that transactions see for their
      block is the one it will have: whatever clients and the ticker do short of
      resets, rollbacks and setting the clock, the next block committed is that
      very block. */
  lemma {:induction false} PromiseHolds(e: Engine, c: Chain, hist: seq<Commit>, steps: seq<Step>)
    requires Inv(e, c, hist) && c.pending.ExecutionStarted() && forall s | s in steps :: KeepsPromise(s)
    ensures var (d, log) := Continue(e, c, hist, steps);
            match FirstSealed(log)
            case Some(commit) => commit.block == c.pending.ToBlock(e.ids)
            case None => d.pending.ExecutionStarted() && d.pending.ToBlock(e.ids) == c.pending.ToBlock(e.ids)
  {
    hide Inv, Next, KeepsPromise, Standing;
    if steps != [] {
      var n := |steps| - 1;
      PromiseHolds(e, c, hist, steps[..n]);
      LastStep(e, c, hist, steps);
      var (d, log) := Continue(e, c, hist, steps[..n]);
      var outcome := Next(e, d, steps[n]).1;
      assert (log + [outcome])[..|log|] == log;
      if FirstSealed(log).None? { StepKeepsPromise(e, d, Standing(hist, log), steps[n]); }
    }
  }

  /** Setting the clock is what can break the promise: it changes the identifier
      exactly when it changes the time. */
  lemma ClockBreaksPromise(e: Engine, c: Chain, hist: seq<Commit>, now: nat)
    requires Inv(e, c, hist)
    ensures c.pending.WellFormed(e.ids)
    ensures e.ids.blockID(Next(e, c, SetClock(now)).0.pending.ToBlock(e.ids)) == e.ids.blockID(c.pending.ToBlock(e.ids))
            <==> now == c.pending.timestamp
  {
    hide Inv, GoodHistory, Add, RunOne, RunAll, Seal, RunAllAndSeal, Renew, Prune;
    InvPending(e, c, hist);
    InvHistory(e, c, hist);
    var after := c.pending.(timestamp := now);
    assert Next(e, c, SetClock(now)).0.pending == after;
    if e.ids.blockID(after.ToBlock(e.ids)) == e.ids.blockID(c.pending.ToBlock(e.ids)) {
      SameBlock(e.ids, after.ToBlock(e.ids), c.pending.ToBlock(e.ids));
    }
  }
}
