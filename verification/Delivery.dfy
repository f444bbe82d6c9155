/** Where submitted transactions end up: each in exactly one place, none
    committed without a result, all committed by an undisturbed tick, and none
    from a block that execution has failed on. */
module Delivery {
  import opened Types
  import opened Tables
  import opened Storage
  import opened History
  import opened StoreQueries
  import opened Pending
  import opened Chain
  import opened Invariants
  import opened Runs
  import opened Safety

  // ---------------------------------------------------------------- when a commit succeeds

  /** A commit succeeds exactly when execution is complete, every transaction has
      a result, and the system transactions ran to the end without repeating an
      identifier. */
  lemma SealSucceeds(e: Engine, c: Chain, hist: seq<Commit>, dice: nat, now: nat)
    requires Inv(e, c, hist)
    ensures Seal(e, c, dice, now).1.Sealed? <==>
              && CommitGuard(c.pending) == None
              && c.pending.results.Keys == c.pending.transactions.Keys
              && Attempt(e, c).1.Some? && NoDuplicates(Attempt(e, c).1.value.order)
  {
    hide Inv, RunSystem, Committed, Indexed, Fresh, LedgerAt, ToSealed, NoDuplicates;
    InvPending(e, c, hist);
    var p := c.pending;
    var (work, run) := Attempt(e, c);
    RunSystemComplete(e, p.ToBlock(e.ids), c.entropy, c.Base(), |p.transactions|, p.work);
    if run.Some? {
      FinishSucceeds(e, c, work, run.value, dice, now);
    }
  }

  lemma FinishSucceeds(e: Engine, c: Chain, work: Work, run: SystemRun, dice: nat, now: nat)
    requires c.pending.WellFormed(e.ids) && run.WellFormed(e.ids)
    ensures Finish(e, c, work, Some(run), dice, now).1.Sealed? <==>
              c.pending.results.Keys == c.pending.transactions.Keys && NoDuplicates(run.order)
  {
    hide Committed, Indexed, Fresh, ToStorable, NoDuplicates;
    var p, commit := c.pending, Record(e.ids, c.pending, work, run);
    DistinctByCardinality(run.order);
    assert |commit.systemResults.Keys| == |commit.systemResults|;
    assert |commit.results.Keys| == |commit.results| && |p.transactions.Keys| == |p.transactions|;
    if CommitCheck(commit) == None {
      CountsMatch(e.ids, p, work, run);
    }
  }

  /** A commit either stores the record of the attempt, or leaves everything but
      the pending block's work as it was. */
  lemma SealCases(e: Engine, c: Chain, dice: nat, now: nat)
    ensures var (d, outcome) := Seal(e, c, dice, now);
            && (outcome.Sealed? ==>
                  && Attempt(e, c).1.Some?
                  && outcome.commit == Record(e.ids, c.pending, Attempt(e, c).0, Attempt(e, c).1.value)
                  && d.pending == Fresh(e.ids, outcome.commit.block, dice, now))
            && (!outcome.Sealed? ==> d == c.(pending := c.pending.(work := d.pending.work)))
            && (outcome.Refused? ==> d == c)
            && (outcome.Sealed? || outcome.Refused? || outcome.Abandoned?)
  {
    hide Attempt, Committed, Indexed, Fresh, CommitCheck, Record;
  }

  // ---------------------------------------------------------------- failures poison the block

  /** Some transaction was passed over without a result. */
  ghost predicate Poisoned(p: Pending) {
    exists i :: 0 <= i < p.index <= |p.transactionIDs| && p.transactionIDs[i] !in p.results
  }

  /** A fatal error, or a failed merge, poisons the pending block. */
  lemma FailurePoisons(e: Engine, context: Context, base: Ledger, p: Pending)
    requires p.WellFormed(e.ids) && p.index < |p.transactionIDs|
    ensures p.transactionIDs[p.index] in p.transactions
    ensures ExecuteNext(e, context, base, p).1 == Failed ==> Poisoned(ExecuteNext(e, context, base, p).0)
  {
    ExecuteNextWellFormed(e, context, base, p);
    var (q, execution) := ExecuteNext(e, context, base, p);
    if execution == Failed {
      var id := p.transactionIDs[p.index];
      assert id !in p.transactionIDs[..p.index];
      assert q.transactionIDs[p.index] !in q.results;
    }
  }

  lemma ExecutePoisoned(e: Engine, context: Context, base: Ledger, p: Pending)
    requires p.WellFormed(e.ids) && p.index < |p.transactionIDs| && Poisoned(p)
    ensures p.transactionIDs[p.index] in p.transactions
    ensures Poisoned(ExecuteNext(e, context, base, p).0)
  {
    ExecuteNextWellFormed(e, context, base, p);
    var i :| 0 <= i < p.index && p.transactionIDs[i] !in p.results;
    var id := p.transactionIDs[p.index];
    assert e.ids.transactionID(p.transactions[id]) == id != p.transactionIDs[i];
    var q := ExecuteNext(e, context, base, p).0;
    assert q.transactionIDs[i] !in q.results;
  }

  lemma {:induction false} ExecuteRestPoisoned(e: Engine, context: Context, base: Ledger, p: Pending)
    requires p.WellFormed(e.ids) && Poisoned(p)
    ensures Poisoned(ExecuteRest(e, context, base, p).0)
    decreases |p.transactionIDs| - p.index
  {
    hide ExecuteNext, Poisoned;
    if !p.ExecutionComplete() {
      ExecuteNextWellFormed(e, context, base, p);
      ExecutePoisoned(e, context, base, p);
      var (q, execution) := ExecuteNext(e, context, base, p);
      if execution.Succeeded? {
        ExecuteRestPoisoned(e, context, base, q);
      }
    }
  }

  /** The step neither resets the pending block nor rolls the chain back. */
  predicate Forward(step: Step) {
    !step.ResetPendingBlock? && !step.RollbackToBlockHeight?
  }

  lemma PoisonedLacksResult(ids: Hashes, p: Pending)
    requires p.WellFormed(ids) && Poisoned(p)
    ensures p.results.Keys != p.transactions.Keys && p.ExecutionStarted()
    ensures forall work :: Poisoned(p.(work := work))
    ensures forall now :: Poisoned(p.(timestamp := now))
  {
    var i :| 0 <= i < p.index && p.transactionIDs[i] !in p.results;
    assert p.transactionIDs[i] in Elements(p.transactionIDs);
    forall work ensures Poisoned(p.(work := work)) {
      assert p.(work := work).transactionIDs[i] !in p.results;
    }
    forall now ensures Poisoned(p.(timestamp := now)) {
      assert p.(timestamp := now).transactionIDs[i] !in p.results;
    }
  }

  lemma PoisonedHasNoSeal(e: Engine, c: Chain, hist: seq<Commit>, dice: nat, now: nat)
    requires Inv(e, c, hist) && Poisoned(c.pending)
    ensures var (d, outcome) := Seal(e, c, dice, now);
            !outcome.Sealed? && d.db == c.db && Poisoned(d.pending)
  {
    hide Poisoned, Inv, Seal, Attempt, NoDuplicates;
    InvPending(e, c, hist);
    PoisonedLacksResult(e.ids, c.pending);
    SealSucceeds(e, c, hist, dice, now);
    SealCases(e, c, dice, now);
  }

  /** The step committed nothing and left the block poisoned. */
  ghost predicate StillPoisoned(c: Chain, r: (Chain, Outcome)) {
    !r.1.Sealed? && r.0.db == c.db && Poisoned(r.0.pending)
  }

  lemma PoisonedRuns(e: Engine, c: Chain, tx: TransactionBody, valid: bool)
    requires c.pending.WellFormed(e.ids) && Poisoned(c.pending)
    ensures StillPoisoned(c, Add(e, c, tx, valid))
    ensures StillPoisoned(c, RunOne(e, c)) && StillPoisoned(c, RunAll(e, c))
  {
    hide Poisoned, ExecuteNext, ExecuteRest, LedgerAt, Answer;
    PoisonedLacksResult(e.ids, c.pending);
    if !c.pending.ExecutionComplete() { ExecutePoisoned(e, UserContext(e, c), c.Base(), c.pending); }
    ExecuteRestPoisoned(e, UserContext(e, c), c.Base(), c.pending);
  }

  lemma PoisonedStep(e: Engine, c: Chain, hist: seq<Commit>, step: Step)
    requires Inv(e, c, hist) && Poisoned(c.pending) && Forward(step)
    ensures c.pending.WellFormed(e.ids) && StillPoisoned(c, Next(e, c, step))
  {
    hide Poisoned, Inv, Add, RunOne, RunAll, Seal;
    InvPending(e, c, hist);
    PoisonedRuns(e, c, if step.AddTransaction? then step.tx else e.process, step.AddTransaction? && step.valid);
    PoisonedLacksResult(e.ids, c.pending);
    match step
    case AddTransaction(_, _) =>
    case ExecuteNextTransaction =>
    case ExecuteBlock =>
    case CommitBlock(dice, now) =>
      PoisonedHasNoSeal(e, c, hist, dice, now);
    case ExecuteAndCommitBlock(dice, now) =>
      RunAllKeeps(e, c, hist);
      PoisonedHasNoSeal(e, RunAll(e, c).0, hist, dice, now);
    case SetClock(now) =>
  }

  /** Once poisoned, a pending block is never committed by any later steps short
      of a reset or rollback, and the store stays as it is. */
  lemma {:induction false} PoisonedForever(e: Engine, c: Chain, hist: seq<Commit>, steps: seq<Step>)
    requires Inv(e, c, hist) && Poisoned(c.pending) && forall s | s in steps :: Forward(s)
    ensures var (d, log) := Continue(e, c, hist, steps);
            && (forall o | o in log :: !o.Sealed?)
            && d.db == c.db && Poisoned(d.pending)
  {
    hide Inv, Next, Poisoned, Forward, Standing;
    if steps != [] {
      var n := |steps| - 1;
      PoisonedForever(e, c, hist, steps[..n]);
      LastStep(e, c, hist, steps);
      var (d, log) := Continue(e, c, hist, steps[..n]);
      PoisonedStep(e, d, Standing(hist, log), steps[n]);
    }
  }

  // ---------------------------------------------------------------- no loss, no duplication

  /** The transactions accepted, in the order of submission. */
  function AcceptedIDs(log: seq<Outcome>): (ids: seq<Identifier>) {
    if log == [] then []
    else
      var n := |log| - 1;
      AcceptedIDs(log[..n]) + if log[n].Accepted? then [log[n].id] else []
  }

  /** The user transactions of a chain, block by block. */
  function CommittedIDs(hist: seq<Commit>): (ids: seq<Identifier>) {
    if hist == [] then [] else CommittedIDs(hist[..|hist| - 1]) + UserIDs(hist[|hist| - 1])
  }

  lemma CommittedSnoc(hist: seq<Commit>, c: Commit)
    ensures CommittedIDs(hist + [c]) == CommittedIDs(hist) + UserIDs(c)
  {
    assert (hist + [c])[..|hist|] == hist;
  }

  lemma SealedTakesPending(e: Engine, c: Chain, dice: nat, now: nat)
    ensures var (d, outcome) := Seal(e, c, dice, now);
            && (outcome.Sealed? ==> UserIDs(outcome.commit) == c.pending.transactionIDs && d.pending.transactionIDs == []
                                    && outcome.commit.block == c.pending.ToBlock(e.ids))
            && (!outcome.Sealed? ==> d.pending.transactionIDs == c.pending.transactionIDs
                                     && (outcome.Refused? || outcome.Abandoned?))
  {
    hide Attempt, Committed, Indexed, ToSealed, CommitCheck;
  }

  /** Transactions move only from submission to the pending block, and from the
      pending block, all together, to the chain. */
  ghost predicate Moves(hist: seq<Commit>, c: Chain, r: (Chain, Outcome)) {
    CommittedIDs(Extend(hist, r.1)) + r.0.pending.transactionIDs ==
    CommittedIDs(hist) + c.pending.transactionIDs + if r.1.Accepted? then [r.1.id] else []
  }

  lemma AddMoves(e: Engine, c: Chain, hist: seq<Commit>, tx: TransactionBody, valid: bool)
    ensures Moves(hist, c, Add(e, c, tx, valid))
  {
    hide Answer, CommittedIDs;
  }

  lemma RunsMove(e: Engine, c: Chain, hist: seq<Commit>)
    requires c.pending.WellFormed(e.ids)
    ensures Moves(hist, c, RunOne(e, c)) && Moves(hist, c, RunAll(e, c))
    ensures RunAll(e, c).0.pending.transactionIDs == c.pending.transactionIDs && !RunAll(e, c).1.Accepted?
  {
    hide ExecuteNext, ExecuteRest, LedgerAt, CommittedIDs;
    if !c.pending.ExecutionComplete() { ExecuteNextWellFormed(e, UserContext(e, c), c.Base(), c.pending); }
    ExecuteRestKeeps(e, UserContext(e, c), c.Base(), c.pending);
  }

  lemma SealMoves(e: Engine, c: Chain, hist: seq<Commit>, dice: nat, now: nat)
    ensures Moves(hist, c, Seal(e, c, dice, now)) && !Seal(e, c, dice, now).1.Accepted?
  {
    hide Seal, CommittedIDs, UserIDs;
    SealedTakesPending(e, c, dice, now);
    var outcome := Seal(e, c, dice, now).1;
    if outcome.Sealed? { CommittedSnoc(hist, outcome.commit); }
  }

  lemma RunAllAndSealMoves(e: Engine, c: Chain, hist: seq<Commit>, dice: nat, now: nat)
    requires c.pending.WellFormed(e.ids)
    ensures Moves(hist, c, RunAllAndSeal(e, c, dice, now))
  {
    hide RunAll, Seal, CommittedIDs;
    RunsMove(e, c, hist);
    SealMoves(e, RunAll(e, c).0, hist, dice, now);
  }

  lemma StepMoves(e: Engine, c: Chain, hist: seq<Commit>, step: Step)
    requires Inv(e, c, hist) && Forward(step)
    ensures c.pending.WellFormed(e.ids) && Moves(hist, c, Next(e, c, step))
  {
    hide Inv, CommittedIDs;
    InvPending(e, c, hist);
    var retimed := c.pending.(timestamp := if step.SetClock? then step.now else 0);
    assert Moves(hist, c, (c.(pending := retimed), Retimed(c.pending.ExecutionStarted())));
    hide Add, RunOne, RunAll, Seal, RunAllAndSeal, Moves;
    RunsMove(e, c, hist);
    match step
    case AddTransaction(tx, valid) => AddMoves(e, c, hist, tx, valid);
    case ExecuteNextTransaction =>
    case ExecuteBlock =>
    case CommitBlock(dice, now) => SealMoves(e, c, hist, dice, now);
    case ExecuteAndCommitBlock(dice, now) => RunAllAndSealMoves(e, c, hist, dice, now);
    case SetClock(now) =>
  }

  /** In a run without resets and rollbacks, the accepted transactions are, in
      order, those of the committed blocks followed by those pending. */
  lemma {:induction false} NothingLost(e: Engine, c: Chain, hist: seq<Commit>, steps: seq<Step>)
    requires Inv(e, c, hist) && forall s | s in steps :: Forward(s)
    ensures var (d, log) := Continue(e, c, hist, steps);
            CommittedIDs(Standing(hist, log)) + d.pending.transactionIDs ==
            CommittedIDs(hist) + c.pending.transactionIDs + AcceptedIDs(log)
  {
    hide Inv, Next, Forward, CommittedIDs;
    if steps != [] {
      var n := |steps| - 1;
      NothingLost(e, c, hist, steps[..n]);
      LastStep(e, c, hist, steps);
      var (d, log) := Continue(e, c, hist, steps[..n]);
      StepMoves(e, d, Standing(hist, log), steps[n]);
      var outcome := Next(e, d, steps[n]).1;
      assert (log + [outcome])[..|log|] == log;
    }
  }

  lemma {:induction false} UserIsInHistory(e: Engine, hist: seq<Commit>, id: Identifier)
    requires id in CommittedIDs(hist)
    ensures exists i :: 0 <= i < |hist| && id in UserIDs(hist[i])
  {
    var n := |hist| - 1;
    if id in UserIDs(hist[n]) {
      assert id in UserIDs(hist[n]);
    } else {
      UserIsInHistory(e, hist[..n], id);
      var i :| 0 <= i < |hist[..n]| && id in UserIDs(hist[..n][i]);
      assert id in UserIDs(hist[i]);
    }
  }

  lemma UserIsUsed(e: Engine, hist: seq<Commit>, i: nat, id: Identifier)
    requires GoodHistory(e, hist) && i < |hist|
    ensures id in UserIDs(hist[i]) <==> id in hist[i].transactions
    ensures NoDuplicates(UserIDs(hist[i]))
  {
    hide Follows, NeverReused, ConsecutiveFrom;
    if i > 0 {
      assert Proper(e, hist[i]);
      assert id in UserIDs(hist[i]) <==> id in Elements(UserIDs(hist[i]));
    }
  }

  lemma NoDuplicatesJoin<T>(a: seq<T>, b: seq<T>)
    requires NoDuplicates(a) && NoDuplicates(b) && forall x | x in b :: x !in a
    ensures NoDuplicates(a + b)
  {
    var s := a + b;
    forall i, j | 0 <= i < j < |s| ensures s[i] != s[j] {
      if i < |a| <= j { assert s[j] in b && s[i] in a; }
    }
  }

  /** No transaction is in two blocks of a chain. */
  lemma {:induction false} CommittedOnce(e: Engine, hist: seq<Commit>)
    requires GoodHistory(e, hist)
    ensures NoDuplicates(CommittedIDs(hist))
  {
    var n := |hist| - 1;
    var front := hist[..n];
    hide GoodHistory, NoDuplicates;
    UserIsUsed(e, hist, n, ZERO_ID);
    if n > 0 {
      PrefixGood(e, hist, n);
      CommittedOnce(e, front);
      forall id | id in UserIDs(hist[n]) ensures id !in CommittedIDs(front) {
        UserIsUsed(e, hist, n, id);
        if id in CommittedIDs(front) {
          UserIsInHistory(e, front, id);
          var i :| 0 <= i < n && id in UserIDs(front[i]);
          UserIsUsed(e, hist, i, id);
          NotReused(e, hist, i, n, id);
        }
      }
      NoDuplicatesJoin(CommittedIDs(front), UserIDs(hist[n]));
    } else {
      assert CommittedIDs(front) == [] && CommittedIDs(hist) == UserIDs(hist[n]);
    }
  }

  lemma NotReused(e: Engine, hist: seq<Commit>, i: nat, j: nat, id: Identifier)
    requires GoodHistory(e, hist) && i < j < |hist| && id in hist[j].transactions
    ensures id !in hist[i].transactions
  {
    hide Proper, Follows, ConsecutiveFrom;
  }

  /** Each accepted transaction is in exactly one place: one position in one
      committed block, or one position in the pending block. */
  lemma DeliveredOnce(e: Engine, dice: nat, now: nat, steps: seq<Step>)
    requires e.ids.Injective() && forall s | s in steps :: Forward(s)
    ensures var (c, log) := Run(e, dice, now, steps);
            var committed := CommittedIDs(Standing([GenesisCommit(e)], log));
            && AcceptedIDs(log) == committed + c.pending.transactionIDs
            && NoDuplicates(committed + c.pending.transactionIDs)
  {
    hide Inv, Continue, Start, AcceptedIDs, NoDuplicates, Forward;
    StartInv(e, dice, now);
    var g := [GenesisCommit(e)];
    assert Start(e, dice, now).pending.transactionIDs == [] by { StartIsEmpty(e, dice, now); }
    assert g[..0] == [] && CommittedIDs(g) == [];
    NothingLost(e, Start(e, dice, now), g, steps);
    var (c, log) := Run(e, dice, now, steps);
    AllDistinct(e, c, Standing(g, log));
  }

  lemma StartIsEmpty(e: Engine, dice: nat, now: nat)
    ensures Start(e, dice, now).pending.transactionIDs == []
  {
    hide Committed;
  }

  lemma AllDistinct(e: Engine, c: Chain, hist: seq<Commit>)
    requires Inv(e, c, hist)
    ensures NoDuplicates(CommittedIDs(hist) + c.pending.transactionIDs)
  {
    hide Holds, SystemListsKept, GoodHistory, Follows, CommittedIDs;
    CommittedOnce(e, hist);
    forall id | id in c.pending.transactionIDs ensures id !in CommittedIDs(hist) {
      assert id in Elements(c.pending.transactionIDs);
      assert Unused(hist, id);
      if id in CommittedIDs(hist) {
        UserIsInHistory(e, hist, id);
        var i :| 0 <= i < |hist| && id in UserIDs(hist[i]);
        UserIsUsed(e, hist, i, id);
      }
    }
    NoDuplicatesJoin(CommittedIDs(hist), c.pending.transactionIDs);
  }

  /** Every committed transaction has a sealed result, stored under its own
      identifier and naming the block that lists it. */
  lemma CommittedHasResult(e: Engine, c: Chain, hist: seq<Commit>, i: nat, id: Identifier, r: Option<Cell>)
    requires Inv(e, c, hist) && i < |hist| && id in UserIDs(hist[i])
    requires SqlAnswers(c.db, TransactionResultByID(id), r)
    ensures r.Some? && r.value.ResultCell?
    ensures r.value.result.blockHeight == i && r.value.result.blockID == e.ids.blockID(hist[i].block)
  {
    hide SqlAnswers, Holds, SystemListsKept, PendingOn, Consistent, GoodHistory, ResultIn;
    GoodIsConsistent(e, hist);
    SqlAnswersChain(e.ids, c.db, hist, TransactionResultByID(id), r);
    UserHasResult(e, hist, i, id);
    ResultOfBlock(e.ids, hist, i, id);
  }

  lemma UserHasResult(e: Engine, hist: seq<Commit>, i: nat, id: Identifier)
    requires GoodHistory(e, hist) && i < |hist| && id in UserIDs(hist[i])
    ensures id in hist[i].results && hist[i].results[id].blockHeight == i
    ensures hist[i].results[id].blockID == e.ids.blockID(hist[i].block)
  {
    hide Follows, NeverReused;
    assert i > 0 && Proper(e, hist[i]) && hist[i].block.height == i;
    assert id in Elements(UserIDs(hist[i]));
  }

  lemma {:induction false} ResultOfBlock(ids: Hashes, hist: seq<Commit>, i: nat, id: Identifier)
    requires Consistent(ids, hist) && i < |hist| && id in hist[i].results
    ensures ResultIn(hist, id) == Some(ResultCell(hist[i].results[id]))
  {
    var n := |hist| - 1;
    if i < n {
      assert id !in hist[n].results;
      var front := hist[..n];
      assert forall j | 0 <= j < n :: front[j] == hist[j];
      ResultOfBlock(ids, front, i, id);
    }
  }
}
