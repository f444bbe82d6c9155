/** Transactions are numbered by their position in the block, in every block of
    every run, whatever failed before. */
module Indexes {
  import opened Types
  import opened Tables
  import opened Storage
  import opened Pending
  import opened Chain
  import opened Invariants
  import opened Runs
  import opened Safety
  import opened Delivery
  import opened Replay
  import opened Execution
  import opened Sequential

  /** In a sequential run each job is given its own position and exactly the
      registers its predecessors left. */
  lemma {:induction false} EachRun(e: Engine, start: Ledger, first: nat, jobs: seq<Job>, shots: seq<Shot>, i: nat)
    requires Sequentially(e, start, first, jobs) == Some(shots) && i < |jobs|
    ensures e.vm(jobs[i].context, jobs[i].tx, first + i, StateAfter(start, shots[..i])) ==
            Ran(shots[i].output, shots[i].writes)
  {
    hide StateAfter;
    var n := |jobs| - 1;
    SequentiallyUnsnoc(e, start, first, jobs, shots);
    if i < n {
      assert shots[..n][..i] == shots[..i];
      EachRun(e, start, first, jobs[..n], shots[..n], i);
    }
  }

  // ---------------------------------------------------------------- the pending block

  /** The output is one of running the transaction with this index. */
  ghost predicate RanAs(e: Engine, tx: TransactionBody, index: nat, output: Output) {
    exists context, ledger, writes :: e.vm(context, tx, index, ledger) == Ran(output, writes)
  }

  /** Every recorded result is of a run with its transaction's position as index. */
  ghost predicate Positioned(e: Engine, p: Pending) {
    forall i | 0 <= i < p.index && i < |p.transactionIDs| ::
      var id := p.transactionIDs[i];
      id in p.results && id in p.transactions ==>
        p.results[id].index == i && RanAs(e, p.transactions[id], i, p.results[id].output)
  }

  lemma UnstartedPositioned(e: Engine, p: Pending)
    requires p.index == 0
    ensures Positioned(e, p)
  {}

  lemma StillPositioned(e: Engine, p: Pending, q: Pending)
    requires Positioned(e, p) && q.index == p.index && q.transactionIDs == p.transactionIDs
    requires q.transactions == p.transactions && q.results == p.results
    ensures Positioned(e, q)
  {
    hide RanAs;
  }

  lemma NextPositioned(e: Engine, context: Context, base: Ledger, p: Pending)
    requires p.WellFormed(e.ids) && p.index < |p.transactionIDs| && Positioned(e, p)
    ensures p.transactionIDs[p.index] in p.transactions
    ensures Positioned(e, ExecuteNext(e, context, base, p).0)
  {
    ExecuteNextWellFormed(e, context, base, p);
    var q, ids, n := ExecuteNext(e, context, base, p).0, p.transactionIDs, p.index;
    var tx := p.transactions[ids[n]];
    var r := e.vm(context, tx, n, base + p.work.writes);
    if r.Ran? { assert RanAs(e, tx, n, r.output); }
    hide RanAs;
    forall i | 0 <= i < q.index && i < |ids| && ids[i] in q.results && ids[i] in q.transactions
      ensures q.results[ids[i]].index == i && RanAs(e, q.transactions[ids[i]], i, q.results[ids[i]].output)
    {
      if i < n { assert ids[i] != ids[n]; } else { assert ids[n] !in ids[..n]; }
    }
  }

  lemma {:induction false} RestPositioned(e: Engine, context: Context, base: Ledger, p: Pending)
    requires p.WellFormed(e.ids) && Positioned(e, p)
    ensures Positioned(e, ExecuteRest(e, context, base, p).0)
    decreases |p.transactionIDs| - p.index
  {
    hide Positioned, ExecuteNext;
    if !p.ExecutionComplete() {
      ExecuteNextWellFormed(e, context, base, p);
      NextPositioned(e, context, base, p);
      var (q, execution) := ExecuteNext(e, context, base, p);
      if execution.Succeeded? { RestPositioned(e, context, base, q); }
    }
  }

  lemma RunsPositioned(e: Engine, c: Chain, tx: TransactionBody, valid: bool)
    requires c.pending.WellFormed(e.ids) && Positioned(e, c.pending)
    ensures Positioned(e, Add(e, c, tx, valid).0.pending)
    ensures Positioned(e, RunOne(e, c).0.pending) && Positioned(e, RunAll(e, c).0.pending)
  {
    hide Positioned, ExecuteNext, ExecuteRest, LedgerAt, Answer;
    if !c.pending.ExecutionStarted() { UnstartedPositioned(e, Add(e, c, tx, valid).0.pending); }
    if !c.pending.ExecutionComplete() { NextPositioned(e, UserContext(e, c), c.Base(), c.pending); }
    RestPositioned(e, UserContext(e, c), c.Base(), c.pending);
  }

  lemma SealPositioned(e: Engine, c: Chain, dice: nat, now: nat)
    requires Positioned(e, c.pending)
    ensures Positioned(e, Seal(e, c, dice, now).0.pending)
  {
    hide Positioned, Seal, Attempt, Record;
    SealCases(e, c, dice, now);
    var (d, outcome) := Seal(e, c, dice, now);
    if outcome.Sealed? { UnstartedPositioned(e, d.pending); } else { StillPositioned(e, c.pending, d.pending); }
  }

  lemma NewPendingPositioned(e: Engine, c: Chain, hist: seq<Commit>, height: nat, dice: nat, now: nat)
    requires Inv(e, c, hist) && Positioned(e, c.pending)
    ensures Positioned(e, Renew(e, c, dice, now).0.pending) && Positioned(e, Prune(e, c, height, dice, now).0.pending)
  {
    hide Inv, Positioned, Latest, RolledBack;
    RenewKeeps(e, c, hist, dice, now);
    UnstartedPositioned(e, Renew(e, c, dice, now).0.pending);
    PruneKeeps(e, c, hist, height, dice, now);
    var (d, outcome) := Prune(e, c, height, dice, now);
    if outcome.Pruned? { UnstartedPositioned(e, d.pending); }
  }

  // ---------------------------------------------------------------- committed blocks

  /** The i-th stored result of the block is that of a run of the i-th listed
      transaction with index i. */
  ghost predicate NumberedAt(e: Engine, c: Commit, i: nat)
    requires i < |Listed(c)|
  {
    exists tx, output ::
      && e.ids.transactionID(tx) == Listed(c)[i] && RanAs(e, tx, i, output)
      && ListedResult(c, i) ==
         Some(ToStorable(output, e.ids.blockID(c.block), c.block.height,
                         if i < |UserIDs(c)| then e.ids.collectionID(UserIDs(c)) else ZERO_ID))
  }

  ghost predicate NumberedInOrder(e: Engine, c: Commit) {
    forall i: nat | i < |Listed(c)| :: NumberedAt(e, c, i)
  }

  lemma UserNumbered(e: Engine, p: Pending, work: Work, run: SystemRun, i: nat)
    requires p.WellFormed(e.ids) && Positioned(e, p) && p.index == |p.transactionIDs|
    requires i < |p.transactionIDs| && p.transactionIDs[i] in p.results
    ensures var commit := Record(e.ids, p, work, run); i < |Listed(commit)| && NumberedAt(e, commit, i)
  {
    hide Record, ToStorable, RanAs, Listed, ListedResult, UserIDs;
    RecordIs(e.ids, p, work, run);
    UserMatches(e, p, work, run, i);
    var tx, output := p.transactions[p.transactionIDs[i]], p.results[p.transactionIDs[i]].output;
    assert RanAs(e, tx, i, output);
  }

  lemma SystemNumbered(e: Engine, p: Pending, work: Work, run: SystemRun, start: Ledger, jobs: seq<Job>,
                       shots: seq<Shot>, k: nat)
    requires p.WellFormed(e.ids) && NoDuplicates(run.order) && Records(e.ids, run, |p.transactions|, jobs, shots)
    requires Sequentially(e, start, |p.transactions|, jobs) == Some(shots) && k < |jobs|
    ensures var commit := Record(e.ids, p, work, run);
            |p.transactionIDs| + k < |Listed(commit)| && NumberedAt(e, commit, |p.transactionIDs| + k)
  {
    hide Record, ToStorable, Listed, ListedResult, UserIDs, Sequentially, StateAfter;
    SizeOfTransactions(e.ids, p);
    RecordIs(e.ids, p, work, run);
    RecordLists(e, p, work, run);
    SystemMatchesRun(e, p, work, run, jobs, shots, k);
    EachRun(e, start, |p.transactions|, jobs, shots, k);
    assert RanAs(e, jobs[k].tx, |p.transactionIDs| + k, shots[k].output);
  }

  /** Every commit numbers its transactions by position, user and system alike. */
  lemma SealNumbered(e: Engine, c: Chain, hist: seq<Commit>, dice: nat, now: nat)
    requires Inv(e, c, hist) && Positioned(e, c.pending) && Seal(e, c, dice, now).1.Sealed?
    ensures NumberedInOrder(e, Seal(e, c, dice, now).1.commit)
  {
    hide Inv, Positioned, NumberedAt, Seal, RunSystem, LedgerAt, Adds, Records, Sequentially, NoDuplicates, Record, Listed;
    InvPending(e, c, hist);
    SealSucceeds(e, c, hist, dice, now);
    SealCases(e, c, dice, now);
    var p := c.pending;
    var (work, run) := Attempt(e, c);
    var commit := Record(e.ids, p, work, run.value);
    RecordLists(e, p, work, run.value);
    var callbacks, shots := SystemReplay(e, p.ToBlock(e.ids), c.entropy, c.Base(), |p.transactions|, p.work);
    var jobs := SystemJobs(e, p.ToBlock(e.ids), c.entropy, callbacks);
    RecordsLength(e.ids, run.value, |p.transactions|, jobs, shots);
    forall i: nat | i < |Listed(commit)| ensures NumberedAt(e, commit, i) {
      var n := |p.transactionIDs|;
      if i < n {
        assert p.transactionIDs[i] in Elements(p.transactionIDs);
        UserNumbered(e, p, work, run.value, i);
      } else {
        SystemNumbered(e, p, work, run.value, c.Base() + p.work.writes, jobs, shots, i - n);
      }
    }
  }

  // ---------------------------------------------------------------- every run

  /** All standing blocks above genesis, and the results pending, are numbered by
      position. */
  ghost predicate AllNumbered(e: Engine, c: Chain, hist: seq<Commit>) {
    Positioned(e, c.pending) && forall h | 0 < h < |hist| :: NumberedInOrder(e, hist[h])
  }

  lemma SealKeepsNumbers(e: Engine, c: Chain, hist: seq<Commit>, dice: nat, now: nat)
    requires Inv(e, c, hist) && AllNumbered(e, c, hist)
    ensures var (d, outcome) := Seal(e, c, dice, now); AllNumbered(e, d, Extend(hist, outcome))
  {
    hide Inv, Positioned, NumberedInOrder, Seal, Attempt, Record;
    SealPositioned(e, c, dice, now);
    SealCases(e, c, dice, now);
    var outcome := Seal(e, c, dice, now).1;
    if outcome.Sealed? { SealNumbered(e, c, hist, dice, now); }
  }

  lemma StepKeepsNumbers(e: Engine, c: Chain, hist: seq<Commit>, step: Step)
    requires Inv(e, c, hist) && AllNumbered(e, c, hist)
    ensures c.pending.WellFormed(e.ids)
    ensures var (d, outcome) := Next(e, c, step); AllNumbered(e, d, Extend(hist, outcome))
  {
    hide Inv, Positioned, NumberedInOrder, Add, RunOne, RunAll, Seal, Renew, Prune;
    InvPending(e, c, hist);
    OnlyThese(e, c, step);
    RunsPositioned(e, c, if step.AddTransaction? then step.tx else e.process, step.AddTransaction? && step.valid);
    match step
    case AddTransaction(_, _) =>
    case ExecuteNextTransaction =>
    case ExecuteBlock =>
    case CommitBlock(dice, now) => SealKeepsNumbers(e, c, hist, dice, now);
    case ExecuteAndCommitBlock(dice, now) =>
      RunAllKeeps(e, c, hist);
      SealKeepsNumbers(e, RunAll(e, c).0, hist, dice, now);
    case ResetPendingBlock(dice, now) =>
      NewPendingPositioned(e, c, hist, 0, dice, now);
      RenewOutcome(e, c, dice, now);
    case RollbackToBlockHeight(height, dice, now) =>
      NewPendingPositioned(e, c, hist, height, dice, now);
      PruneKeeps(e, c, hist, height, dice, now);
    case SetClock(now) => StillPositioned(e, c.pending, c.pending.(timestamp := now));
  }

  lemma RenewOutcome(e: Engine, c: Chain, dice: nat, now: nat)
    ensures var outcome := Renew(e, c, dice, now).1; !outcome.Sealed? && !outcome.Pruned?
  {
    hide Latest;
  }

  lemma {:induction false} RunKeepsNumbers(e: Engine, c: Chain, hist: seq<Commit>, steps: seq<Step>)
    requires Inv(e, c, hist) && AllNumbered(e, c, hist)
    ensures var (d, log) := Continue(e, c, hist, steps); AllNumbered(e, d, Standing(hist, log))
  {
    hide Inv, AllNumbered, Next;
    if steps != [] {
      var n := |steps| - 1;
      RunKeepsNumbers(e, c, hist, steps[..n]);
      LastStep(e, c, hist, steps);
      var (d, log) := Continue(e, c, hist, steps[..n]);
      StepKeepsNumbers(e, d, Standing(hist, log), steps[n]);
    }
  }

  /** In every run, each block above genesis numbers its user, process, scheduled
      and system chunk transactions by their positions 0 to n - 1. */
  lemma IndexesInOrder(e: Engine, dice: nat, now: nat, steps: seq<Step>, h: nat)
    requires e.ids.Injective() && 0 < h < |Standing([GenesisCommit(e)], Run(e, dice, now, steps).1)|
    ensures NumberedInOrder(e, Standing([GenesisCommit(e)], Run(e, dice, now, steps).1)[h])
  {
    hide Inv, Positioned, NumberedInOrder, Start, Continue, Standing;
    StartInv(e, dice, now);
    assert Positioned(e, Start(e, dice, now).pending) by { StartPositioned(e, dice, now); }
    RunKeepsNumbers(e, Start(e, dice, now), [GenesisCommit(e)], steps);
  }

  lemma StartPositioned(e: Engine, dice: nat, now: nat)
    ensures Positioned(e, Start(e, dice, now).pending)
  {
    hide Positioned, Committed;
    UnstartedPositioned(e, Start(e, dice, now).pending);
  }

  /** The virtual machine stamps events with the index it is given. */
  ghost predicate Stamped(e: Engine) {
    forall context, tx, index, ledger {:trigger e.vm(context, tx, index, ledger)} ::
      var r := e.vm(context, tx, index, ledger);
      r.Ran? ==> forall event | event in r.output.events :: event.transactionIndex == index
  }

  /** So the events of the i-th transaction of any block of any run carry index i. */
  lemma EventsCarryIndexes(e: Engine, dice: nat, now: nat, steps: seq<Step>, h: nat, i: nat, event: Event)
    requires e.ids.Injective() && Stamped(e) && 0 < h < |Standing([GenesisCommit(e)], Run(e, dice, now, steps).1)|
    requires var c := Standing([GenesisCommit(e)], Run(e, dice, now, steps).1)[h];
             i < |Listed(c)| && ListedResult(c, i).Some? && event in ListedResult(c, i).value.events
    ensures event.transactionIndex == i
  {
    hide Run, Standing, ListedResult, Listed;
    var c := Standing([GenesisCommit(e)], Run(e, dice, now, steps).1)[h];
    IndexesInOrder(e, dice, now, steps, h);
    assert NumberedAt(e, c, i);
  }
}
