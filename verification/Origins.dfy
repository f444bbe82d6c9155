/** What the pending block inherits from the steps before it: the block that seeds
    its randomness, and its time. */
module Origins {
  import opened Types
  import opened Tables
  import opened Storage
  import opened History
  import opened Pending
  import opened Chain
  import opened Invariants
  import opened Runs
  import opened Safety

  // ---------------------------------------------------------------- randomness

  /** Outcome k is the last commit of the log. */
  ghost predicate LastSealed(log: seq<Outcome>, k: nat) {
    k < |log| && log[k].Sealed? && forall j | k < j < |log| :: !log[j].Sealed?
  }

  /** The identifier of the block committed last, standing or not, and the zero
      identifier if there was no commit. */
  function EntropyOf(ids: Hashes, log: seq<Outcome>): (id: Identifier)
    ensures (forall k | 0 <= k < |log| :: !log[k].Sealed?) ==> id == ZERO_ID
    ensures forall k: nat | LastSealed(log, k) :: id == ids.blockID(log[k].commit.block)
  {
    if log == [] then ZERO_ID
    else
      var n := |log| - 1;
      if log[n].Sealed? then ids.blockID(log[n].commit.block)
      else
        assert forall k: nat :: LastSealed(log, k) ==> LastSealed(log[..n], k) && log[..n][k] == log[k];
        EntropyOf(ids, log[..n])
  }

  lemma StepEntropy(e: Engine, c: Chain, step: Step)
    requires c.pending.WellFormed(e.ids)
    ensures var (d, outcome) := Next(e, c, step);
            d.entropy == if outcome.Sealed? then e.ids.blockID(outcome.commit.block) else c.entropy
  {
    hide LedgerAt, ExecuteNext, ExecuteRest, Answer, Latest, RolledBack, Attempt, Finish;
    match step
    case AddTransaction(_, _) =>
    case ExecuteNextTransaction =>
    case ExecuteBlock =>
    case CommitBlock(dice, now) => SealEntropy(e, c, dice, now);
    case ExecuteAndCommitBlock(dice, now) => SealEntropy(e, RunAll(e, c).0, dice, now);
    case ResetPendingBlock(_, _) =>
    case RollbackToBlockHeight(_, _, _) =>
    case SetClock(_) =>
  }

  lemma SealEntropy(e: Engine, c: Chain, dice: nat, now: nat)
    ensures var (d, outcome) := Seal(e, c, dice, now);
            d.entropy == if outcome.Sealed? then e.ids.blockID(outcome.commit.block) else c.entropy
  {
    hide Attempt, Committed, Indexed, Fresh, CommitCheck, Record;
  }

  /** In every run, rollbacks and resets included, transactions are seeded with the
      identifier of the block committed last. */
  lemma {:induction false} RunEntropy(e: Engine, dice: nat, now: nat, steps: seq<Step>)
    requires e.ids.Injective()
    ensures var (c, log) := Run(e, dice, now, steps); c.entropy == EntropyOf(e.ids, log)
  {
    hide Inv, Next, EntropyOf, Standing, Start;
    StartInv(e, dice, now);
    if steps == [] {
      StartEntropy(e, dice, now);
    } else {
      var n, c, g := |steps| - 1, Start(e, dice, now), [GenesisCommit(e)];
      RunEntropy(e, dice, now, steps[..n]);
      LastStep(e, c, g, steps);
      var (d, log) := Continue(e, c, g, steps[..n]);
      StepEntropy(e, d, steps[n]);
      EntropyThen(e.ids, log, Next(e, d, steps[n]).1);
    }
  }

  lemma StartEntropy(e: Engine, dice: nat, now: nat)
    ensures Start(e, dice, now).entropy == EntropyOf(e.ids, [])
  {
    hide Committed;
  }

  lemma EntropyThen(ids: Hashes, log: seq<Outcome>, outcome: Outcome)
    ensures EntropyOf(ids, log + [outcome]) ==
            if outcome.Sealed? then ids.blockID(outcome.commit.block) else EntropyOf(ids, log)
  {
    assert (log + [outcome])[..|log|] == log;
  }

  // ---------------------------------------------------------------- time

  /** The step gave the pending block its time. */
  predicate Timed(outcome: Outcome) {
    outcome.Sealed? || outcome.Pruned? || outcome.Renewed? || outcome.Retimed?
  }

  /** The time given with a step. */
  function TimeIn(step: Step): (t: Option<nat>) {
    match step
    case CommitBlock(_, now) => Some(now)
    case ExecuteAndCommitBlock(_, now) => Some(now)
    case ResetPendingBlock(_, now) => Some(now)
    case RollbackToBlockHeight(_, _, now) => Some(now)
    case SetClock(now) => Some(now)
    case _ => None
  }

  ghost predicate LastTimed(log: seq<Outcome>, k: nat) {
    k < |log| && Timed(log[k]) && forall j | k < j < |log| :: !Timed(log[j])
  }

  ghost predicate NoneTimed(log: seq<Outcome>) { forall j | 0 <= j < |log| :: !Timed(log[j]) }

  lemma TimedThen(log: seq<Outcome>, outcome: Outcome, k: nat)
    ensures NoneTimed(log + [outcome]) <==> NoneTimed(log) && !Timed(outcome)
    ensures LastTimed(log + [outcome], k) <==> if Timed(outcome) then k == |log| else LastTimed(log, k)
    ensures LastTimed(log, k) ==> k < |log|
  {
    hide Timed;
    var more := log + [outcome];
    assert forall j | 0 <= j < |log| :: more[j] == log[j];
    assert more[|log|] == outcome && Timed(more[|log|]) == Timed(outcome);
  }

  lemma StepTime(e: Engine, c: Chain, hist: seq<Commit>, step: Step)
    requires Inv(e, c, hist)
    ensures c.pending.WellFormed(e.ids)
    ensures var (d, outcome) := Next(e, c, step);
            if Timed(outcome) then TimeIn(step) == Some(d.pending.timestamp)
            else d.pending.timestamp == c.pending.timestamp
  {
    hide Inv, Add, RunOne, RunAll, Seal, Renew, Prune;
    InvPending(e, c, hist);
    RunTimes(e, c, if step.AddTransaction? then step.tx else e.process, step.AddTransaction? && step.valid);
    match step
    case AddTransaction(_, _) =>
    case ExecuteNextTransaction =>
    case ExecuteBlock =>
    case CommitBlock(dice, now) => SealTime(e, c, dice, now);
    case ExecuteAndCommitBlock(dice, now) => SealTime(e, RunAll(e, c).0, dice, now);
    case ResetPendingBlock(dice, now) => NewTime(e, c, hist, 0, dice, now);
    case RollbackToBlockHeight(height, dice, now) => NewTime(e, c, hist, height, dice, now);
    case SetClock(_) =>
  }

  lemma RunTimes(e: Engine, c: Chain, tx: TransactionBody, valid: bool)
    requires c.pending.WellFormed(e.ids)
    ensures var (d, o) := Add(e, c, tx, valid); d.pending.timestamp == c.pending.timestamp && !Timed(o)
    ensures var (d, o) := RunOne(e, c); d.pending.timestamp == c.pending.timestamp && !Timed(o)
    ensures var (d, o) := RunAll(e, c); d.pending.timestamp == c.pending.timestamp && !Timed(o)
  {
    hide ExecuteNext, ExecuteRest, LedgerAt, Answer;
    if !c.pending.ExecutionComplete() { ExecuteNextWellFormed(e, UserContext(e, c), c.Base(), c.pending); }
    ExecuteRestKeeps(e, UserContext(e, c), c.Base(), c.pending);
  }

  lemma SealTime(e: Engine, c: Chain, dice: nat, now: nat)
    ensures var (d, outcome) := Seal(e, c, dice, now);
            && (if outcome.Sealed? then d.pending.timestamp == now else d.pending.timestamp == c.pending.timestamp)
            && Timed(outcome) == outcome.Sealed?
  {
    hide Attempt, Committed, Indexed, CommitCheck, Record;
  }

  lemma NewTime(e: Engine, c: Chain, hist: seq<Commit>, height: nat, dice: nat, now: nat)
    requires Inv(e, c, hist)
    ensures Renew(e, c, dice, now).0.pending.timestamp == now && Renew(e, c, dice, now).1 == Renewed
    ensures var (d, outcome) := Prune(e, c, height, dice, now);
            if outcome.Pruned? then d.pending.timestamp == now else d == c && outcome.Refused?
  {
    hide Inv, Latest, RolledBack, GoodHistory, Holds, SystemListsKept, PendingOn;
    RenewKeeps(e, c, hist, dice, now);
    PruneKeeps(e, c, hist, height, dice, now);
    assert Latest(c.db).Some? by { LatestIs(e, c, hist); }
  }

  lemma LatestIs(e: Engine, c: Chain, hist: seq<Commit>)
    requires Inv(e, c, hist)
    ensures Latest(c.db) == Some(hist[|hist| - 1].block)
  {
    hide Latest, GoodHistory, Holds, SystemListsKept, PendingOn;
    LatestIsTip(e, c.db, hist);
  }

  /** In every run the time of the pending block is that given with the last step
      that committed, rolled back, reset or set the clock, and at first that of the
      start. */
  lemma {:induction false} RunTime(e: Engine, dice: nat, now: nat, steps: seq<Step>, k: nat)
    requires e.ids.Injective()
    ensures var (c, log) := Run(e, dice, now, steps);
            && (NoneTimed(log) ==> c.pending.timestamp == now)
            && (k < |steps| && LastTimed(log, k) ==> TimeIn(steps[k]) == Some(c.pending.timestamp))
  {
    hide Inv, Next, Standing, Start, Timed, TimeIn, LastTimed, NoneTimed;
    StartInv(e, dice, now);
    if steps == [] {
      StartTime(e, dice, now);
    } else {
      var n, c, g := |steps| - 1, Start(e, dice, now), [GenesisCommit(e)];
      RunTime(e, dice, now, steps[..n], k);
      LastStep(e, c, g, steps);
      var (d, log) := Continue(e, c, g, steps[..n]);
      StepTime(e, d, Standing(g, log), steps[n]);
      TimedThen(log, Next(e, d, steps[n]).1, k);
    }
  }

  lemma StartTime(e: Engine, dice: nat, now: nat)
    ensures Start(e, dice, now).pending.timestamp == now
  {
    hide Committed;
  }
}
