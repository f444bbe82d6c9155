/** Whole runs of the emulator seen as sequential execution. */
module Sequential {
  import opened Types
  import opened Tables
  import opened Storage
  import opened History
  import opened StoreQueries
  import opened Pending
  import opened Chain
  import opened Invariants
  import opened Runs
  import opened Safety
  import opened Delivery
  import opened Replay
  import opened Execution
  import opened Origins

  // ---------------------------------------------------------------- when the pending block is tidy

  /** The outcome leaves leftovers of a failed commit in the pending block, or
      changes the header under transactions already executed. */
  predicate Disturbs(outcome: Outcome) {
    outcome.Abandoned? || (outcome.Retimed? && outcome.started)
  }

  /** The outcome comes with a new pending block. */
  predicate Settles(outcome: Outcome) {
    outcome.Sealed? || outcome.Pruned? || outcome.Renewed?
  }

  /** Something has disturbed the present pending block. */
  predicate Disturbed(log: seq<Outcome>) {
    if log == [] then false
    else
      var last := log[|log| - 1];
      !Settles(last) && (Disturbs(last) || Disturbed(log[..|log| - 1]))
  }

  lemma FreshIsTidy(e: Engine, c: Chain)
    requires c.pending.index == 0 && c.pending.work == Work(map[], [])
    ensures Tidy(e, c)
  {
    hide LedgerAt, Poisoned;
    CleanAtStart(e, UserContext(e, c), c.Base(), c.pending);
  }

  lemma TidyBeforeStart(e: Engine, c: Chain, d: Chain)
    requires Tidy(e, c) && c.pending.index == 0
    requires d.pending.index == 0 && d.pending.work == c.pending.work
    ensures Tidy(e, d)
  {
    hide LedgerAt, Clean;
    CleanAtStart(e, UserContext(e, c), c.Base(), c.pending);
    CleanAtStart(e, UserContext(e, d), d.Base(), d.pending);
  }

  lemma AddIsTidy(e: Engine, c: Chain, tx: TransactionBody, valid: bool)
    requires Tidy(e, c)
    ensures Tidy(e, Add(e, c, tx, valid).0)
  {
    hide Tidy, Answer;
    var (d, outcome) := Add(e, c, tx, valid);
    if outcome.Accepted? { TidyBeforeStart(e, c, d); }
  }

  lemma RunOneIsTidy(e: Engine, c: Chain)
    requires Tidy(e, c) && c.pending.WellFormed(e.ids)
    ensures Tidy(e, RunOne(e, c).0)
  {
    hide LedgerAt, Poisoned, Clean, ExecuteNext;
    if !c.pending.ExecutionComplete() {
      ExecuteNextTidy(e, UserContext(e, c), c.Base(), c.pending);
      ExecuteNextWellFormed(e, UserContext(e, c), c.Base(), c.pending);
    }
  }

  lemma RunAllIsTidy(e: Engine, c: Chain)
    requires Tidy(e, c) && c.pending.WellFormed(e.ids)
    ensures Tidy(e, RunAll(e, c).0)
  {
    hide LedgerAt, Poisoned, Clean, ExecuteRest;
    ExecuteRestTidy(e, UserContext(e, c), c.Base(), c.pending);
    ExecuteRestKeeps(e, UserContext(e, c), c.Base(), c.pending);
  }

  lemma SealIsTidy(e: Engine, c: Chain, dice: nat, now: nat)
    requires Tidy(e, c)
    ensures var (d, outcome) := Seal(e, c, dice, now); outcome.Abandoned? || Tidy(e, d)
  {
    hide Seal, Attempt, LedgerAt, Tidy, Record;
    SealCases(e, c, dice, now);
    var (d, outcome) := Seal(e, c, dice, now);
    if outcome.Sealed? { FreshIsTidy(e, d); }
  }

  lemma NewPendingIsTidy(e: Engine, c: Chain, hist: seq<Commit>, height: nat, dice: nat, now: nat)
    requires Inv(e, c, hist)
    ensures Tidy(e, Renew(e, c, dice, now).0)
    ensures Prune(e, c, height, dice, now).1.Pruned? ==> Tidy(e, Prune(e, c, height, dice, now).0)
    ensures Prune(e, c, height, dice, now).1.Refused? ==> Prune(e, c, height, dice, now).0 == c
    ensures Prune(e, c, height, dice, now).1.Pruned? || Prune(e, c, height, dice, now).1.Refused?
  {
    hide Inv, Tidy, Latest, RolledBack;
    RenewKeeps(e, c, hist, dice, now);
    FreshIsTidy(e, Renew(e, c, dice, now).0);
    PruneKeeps(e, c, hist, height, dice, now);
    if Prune(e, c, height, dice, now).1.Pruned? { FreshIsTidy(e, Prune(e, c, height, dice, now).0); }
  }

  lemma StepIsTidy(e: Engine, c: Chain, hist: seq<Commit>, step: Step)
    requires Inv(e, c, hist) && Tidy(e, c)
    ensures c.pending.WellFormed(e.ids)
    ensures var (d, outcome) := Next(e, c, step); Disturbs(outcome) || Tidy(e, d)
  {
    hide Inv, Tidy, Add, RunOne, RunAll, Seal, Renew, Prune;
    InvPending(e, c, hist);
    RunAllIsTidy(e, c);
    match step
    case AddTransaction(tx, valid) => AddIsTidy(e, c, tx, valid);
    case ExecuteNextTransaction => RunOneIsTidy(e, c);
    case ExecuteBlock =>
    case CommitBlock(dice, now) => SealIsTidy(e, c, dice, now);
    case ExecuteAndCommitBlock(dice, now) => SealIsTidy(e, RunAll(e, c).0, dice, now);
    case ResetPendingBlock(dice, now) => NewPendingIsTidy(e, c, hist, 0, dice, now);
    case RollbackToBlockHeight(height, dice, now) => NewPendingIsTidy(e, c, hist, height, dice, now);
    case SetClock(now) =>
      var d := c.(pending := c.pending.(timestamp := now));
      if !c.pending.ExecutionStarted() { TidyBeforeStart(e, c, d); }
  }

  /** A step that brings a new pending block leaves it tidy, whatever came before. */
  lemma SettledIsTidy(e: Engine, c: Chain, hist: seq<Commit>, step: Step)
    requires Inv(e, c, hist)
    ensures c.pending.WellFormed(e.ids)
    ensures var (d, outcome) := Next(e, c, step); Settles(outcome) ==> Tidy(e, d)
  {
    hide Inv, Tidy, Add, RunOne, RunAll, Seal, Renew, Prune;
    InvPending(e, c, hist);
    OnlyThese(e, c, step);
    match step
    case AddTransaction(tx, valid) =>
    case ExecuteNextTransaction =>
    case ExecuteBlock =>
    case CommitBlock(dice, now) => SealSettles(e, c, dice, now);
    case ExecuteAndCommitBlock(dice, now) => SealSettles(e, RunAll(e, c).0, dice, now);
    case ResetPendingBlock(dice, now) => NewPendingIsTidy(e, c, hist, 0, dice, now);
    case RollbackToBlockHeight(height, dice, now) => NewPendingIsTidy(e, c, hist, height, dice, now);
    case SetClock(now) =>
  }

  lemma SealSettles(e: Engine, c: Chain, dice: nat, now: nat)
    ensures var (d, outcome) := Seal(e, c, dice, now); Settles(outcome) ==> Tidy(e, d)
  {
    hide Seal, Attempt, Tidy, Record;
    SealCases(e, c, dice, now);
    var (d, outcome) := Seal(e, c, dice, now);
    if outcome.Sealed? { FreshIsTidy(e, d); }
  }

  lemma OnlyThese(e: Engine, c: Chain, step: Step)
    requires c.pending.WellFormed(e.ids)
    ensures step.AddTransaction? ==> !Settles(Add(e, c, step.tx, step.valid).1)
    ensures !Settles(RunOne(e, c).1) && !Settles(RunAll(e, c).1)
  {
    hide LedgerAt, ExecuteNext, ExecuteRest, Answer;
  }

  /** An undisturbed pending block is tidy in every run. */
  lemma {:induction false} UndisturbedIsTidy(e: Engine, c: Chain, hist: seq<Commit>, steps: seq<Step>)
    requires Inv(e, c, hist) && Tidy(e, c)
    ensures var (d, log) := Continue(e, c, hist, steps); !Disturbed(log) ==> Tidy(e, d)
  {
    hide Inv, Tidy, Next, Standing;
    if steps != [] {
      var n := |steps| - 1;
      UndisturbedIsTidy(e, c, hist, steps[..n]);
      LastStep(e, c, hist, steps);
      var (d, log) := Continue(e, c, hist, steps[..n]);
      var outcome := Next(e, d, steps[n]).1;
      assert (log + [outcome])[..|log|] == log;
      SettledIsTidy(e, d, Standing(hist, log), steps[n]);
      if !Disturbed(log) { StepIsTidy(e, d, Standing(hist, log), steps[n]); }
    }
  }

  // ---------------------------------------------------------------- reading back what was executed

  /** Every register read at a height gives what `l` holds for it. */
  ghost predicate ReadsAs(db: Db, height: nat, l: Ledger) {
    forall id, r :: SqlAnswers(db, RegisterAtHeight(id, height), r) <==> r == Lookup(l, id)
  }

  lemma BaseIsTip(e: Engine, c: Chain, hist: seq<Commit>)
    requires Inv(e, c, hist)
    ensures c.Base() == RegistersAt(hist, |hist| - 1)
  {
    hide SystemListsKept, LedgerAt, RegistersAt, GoodHistory, Replayed, PendingOn;
    HeldHeight(e, c, hist);
    LedgerInReplay(e.ids, hist, |hist| - 1);
  }

  /** The state in which a step calls for the commit. */
  function AtCommit(e: Engine, c: Chain, step: Step): (ran: Chain)
    requires c.pending.WellFormed(e.ids)
  {
    if step.ExecuteAndCommitBlock? then RunAll(e, c).0 else c
  }

  lemma SealStep(e: Engine, c: Chain, hist: seq<Commit>, step: Step) returns (ran: Chain, dice: nat, now: nat)
    requires Inv(e, c, hist) && c.pending.WellFormed(e.ids) && Next(e, c, step).1.Sealed?
    ensures ran == AtCommit(e, c, step)
    ensures Inv(e, ran, hist) && ran.db == c.db && ran.entropy == c.entropy && ran.pending.height == c.pending.height
    ensures Next(e, c, step) == Seal(e, ran, dice, now)
    ensures Tidy(e, c) ==> Tidy(e, ran)
  {
    hide Inv, Tidy, Add, RunOne, RunAll, Seal, Renew, Prune;
    OnlyThese(e, c, step);
    RunAllKeeps(e, c, hist);
    if Tidy(e, c) { RunAllIsTidy(e, c); }
    if step.CommitBlock? {
      ran, dice, now := c, step.dice, step.now;
    } else {
      assert step.ExecuteAndCommitBlock? by { SealedByWhom(e, c, step); }
      ran, dice, now := RunAll(e, c).0, step.dice, step.now;
    }
  }

  lemma SealedByWhom(e: Engine, c: Chain, step: Step)
    requires c.pending.WellFormed(e.ids) && Next(e, c, step).1.Sealed?
    ensures step.CommitBlock? || step.ExecuteAndCommitBlock?
  {
    hide LedgerAt, ExecuteNext, ExecuteRest, Answer, Seal, Latest, RolledBack;
  }

  /** Whenever a pending block that replays its transactions is committed, in any
      run, the block is faithful, and the registers read back at its height are
      exactly those its transactions left when run one after the other from the
      registers of the height below, seeded with the block committed last. */
  lemma SequentialExecution(e: Engine, start: nat, time: nat, steps: seq<Step>, step: Step)
    returns (callbacks: seq<TransactionBody>, shots: seq<Shot>)
    requires e.ids.Injective()
    requires var c := Run(e, start, time, steps).0;
             c.pending.WellFormed(e.ids) && Replays(e, AtCommit(e, c, step)) && Next(e, c, step).1.Sealed?
    ensures var (c, log) := Run(e, start, time, steps);
            var (d, outcome) := Next(e, c, step);
            var h := outcome.commit.block.height;
            && Faithful(e, EntropyOf(e.ids, log), c.Base(), outcome.commit, callbacks, shots) && h > 0
            && ReadsAs(c.db, h - 1, c.Base()) && ReadsAs(d.db, h, StateAfter(c.Base(), shots))
  {
    hide Inv, Tidy, Replays, Next, Continue, Standing, Start, Faithful, LedgerAt, Seal, ReadsAs, StateAfter, EntropyOf;
    StartInv(e, start, time);
    RunEntropy(e, start, time, steps);
    var (c, log) := Run(e, start, time, steps);
    var hist := Standing([GenesisCommit(e)], log);
    var ran, dice, now := SealStep(e, c, hist, step);
    callbacks, shots := SealIsFaithful(e, ran, hist, dice, now);
    NextKeeps(e, c, hist, step);
    var (d, outcome) := Next(e, c, step);
    SealedHeight(e, ran, hist, dice, now);
    ReadBack(e, c, d, hist, outcome.commit, callbacks, shots);
  }

  /** Whatever the run, a pending block that no failed commit and no clock change
      has disturbed replays its transactions when it is committed. */
  lemma UndisturbedReplays(e: Engine, start: nat, time: nat, steps: seq<Step>, step: Step)
    requires e.ids.Injective()
    requires var (c, log) := Run(e, start, time, steps);
             c.pending.WellFormed(e.ids) && !Disturbed(log) && Next(e, c, step).1.Sealed?
    ensures Replays(e, AtCommit(e, Run(e, start, time, steps).0, step))
  {
    hide Inv, Tidy, Replays, Next, Continue, Standing, Start, Seal;
    StartInv(e, start, time);
    StartIsTidy(e, start, time);
    UndisturbedIsTidy(e, Start(e, start, time), [GenesisCommit(e)], steps);
    var (c, log) := Run(e, start, time, steps);
    var hist := Standing([GenesisCommit(e)], log);
    var ran, dice, now := SealStep(e, c, hist, step);
    TidyReplays(e, ran, hist, dice, now);
  }

  lemma StartIsTidy(e: Engine, start: nat, time: nat)
    ensures Tidy(e, Start(e, start, time))
  {
    hide Tidy, Committed;
    FreshIsTidy(e, Start(e, start, time));
  }

  lemma SealedHeight(e: Engine, c: Chain, hist: seq<Commit>, dice: nat, now: nat)
    requires Inv(e, c, hist) && Seal(e, c, dice, now).1.Sealed?
    ensures Seal(e, c, dice, now).1.commit.block.height == |hist| > 0
  {
    hide Inv, Seal, Attempt, Record;
    InvPending(e, c, hist);
    HeldHeight(e, c, hist);
    SealCases(e, c, dice, now);
    RecordIs(e.ids, c.pending, Attempt(e, c).0, Attempt(e, c).1.value);
  }

  lemma ReadBack(e: Engine, c: Chain, d: Chain, hist: seq<Commit>, commit: Commit,
                 callbacks: seq<TransactionBody>, shots: seq<Shot>)
    requires Inv(e, c, hist) && Inv(e, d, hist + [commit]) && hist != []
    requires Faithful(e, c.entropy, c.Base(), commit, callbacks, shots)
    ensures ReadsAs(c.db, |hist| - 1, c.Base()) && ReadsAs(d.db, |hist|, StateAfter(c.Base(), shots))
  {
    hide Inv, Faithful, StateAfter, LedgerAt, ReadsAs, RegistersAt;
    BaseIsTip(e, c, hist);
    TipAfter(e, c, hist, commit, callbacks, shots);
    RegistersRead(e, c, hist, |hist| - 1);
    RegistersRead(e, d, hist + [commit], |hist|);
  }

  lemma TipAfter(e: Engine, c: Chain, hist: seq<Commit>, commit: Commit,
                 callbacks: seq<TransactionBody>, shots: seq<Shot>)
    requires Inv(e, c, hist) && hist != [] && Faithful(e, c.entropy, c.Base(), commit, callbacks, shots)
    ensures RegistersAt(hist + [commit], |hist|) == StateAfter(c.Base(), shots)
  {
    hide Inv, LedgerAt, Faithful, StateAfter, RegistersAt;
    FaithfulWrites(e, c.entropy, c.Base(), commit, callbacks, shots);
    BaseIsTip(e, c, hist);
    RegistersAtNext(hist, commit);
    StateIsStartPlusWrites(c.Base(), shots);
  }

  lemma RegistersAtNext(hist: seq<Commit>, c: Commit)
    requires hist != []
    ensures RegistersAt(hist + [c], |hist|) == RegistersAt(hist, |hist| - 1) + c.writes
  {
    RegistersAtPrefix(hist, hist + [c], |hist| - 1);
  }

  lemma FaithfulWrites(e: Engine, entropy: Identifier, base: Ledger, c: Commit,
                       callbacks: seq<TransactionBody>, shots: seq<Shot>)
    requires Faithful(e, entropy, base, c, callbacks, shots)
    ensures c.writes == AllWrites(shots)
  {
    hide Sequentially, Matches, BlockJobs, StateAfter, AllEvents;
  }

  lemma RegistersRead(e: Engine, c: Chain, hist: seq<Commit>, height: nat)
    requires Inv(e, c, hist) && height < |hist|
    ensures ReadsAs(c.db, height, RegistersAt(hist, height))
  {
    hide SqlAnswers, Lookup, RegistersAt, GoodHistory, Holds, SystemListsKept, PendingOn, Consistent;
    GoodIsConsistent(e, hist);
    forall id, r
      ensures SqlAnswers(c.db, RegisterAtHeight(id, height), r) <==> r == Lookup(RegistersAt(hist, height), id)
    {
      SqlAnswersChain(e.ids, c.db, hist, RegisterAtHeight(id, height), r);
    }
  }
}
