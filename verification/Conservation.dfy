/** Events: those stored for a block against those in its results. */
module Conservation {
  import opened Types
  import opened Tables
  import opened Storage
  import opened History
  import opened StoreQueries
  import opened Pending
  import opened Chain
  import opened Invariants
  import opened Runs
  import opened Safety
  import opened Delivery
  import opened Replay
  import opened Execution
  import opened Sequential

  function EventsOf(results: map<Identifier, StorableResult>, ids: seq<Identifier>): (events: seq<Event>) {
    if ids == [] then []
    else
      var n := |ids| - 1;
      EventsOf(results, ids[..n]) + if ids[n] in results then results[ids[n]].events else []
  }

  /** The events of a block's results, transaction by transaction. */
  function ListedEvents(c: Commit): (events: seq<Event>) {
    EventsOf(c.results, UserIDs(c)) + EventsOf(c.systemResults, c.systemIDs)
  }

  /** The events of the results recorded so far. */
  function RecordedEvents(results: map<Identifier, IndexedResult>, ids: seq<Identifier>): (events: seq<Event>) {
    if ids == [] then []
    else
      var n := |ids| - 1;
      RecordedEvents(results, ids[..n]) + if ids[n] in results then results[ids[n]].output.events else []
  }

  lemma {:induction false} SealingKeepsEvents(results: map<Identifier, IndexedResult>, ids: seq<Identifier>,
                                              blockID: Identifier, height: nat, collectionID: Identifier)
    ensures EventsOf(ToSealed(results, blockID, height, collectionID), ids) == RecordedEvents(results, ids)
  {
    if ids != [] {
      SealingKeepsEvents(results, ids[..|ids| - 1], blockID, height, collectionID);
    }
  }

  lemma {:induction false} RecordedEventsSame(a: map<Identifier, IndexedResult>, b: map<Identifier, IndexedResult>,
                                              ids: seq<Identifier>)
    requires forall id | id in ids :: (id in a <==> id in b) && (id in a ==> a[id] == b[id])
    ensures RecordedEvents(a, ids) == RecordedEvents(b, ids)
  {
    if ids != [] {
      RecordedEventsSame(a, b, ids[..|ids| - 1]);
      assert ids[|ids| - 1] in ids;
    }
  }

  /** A completed system run emits exactly the events of its results, in order. */
  lemma {:induction false} SystemEvents(ids: Hashes, run: SystemRun, first: nat, jobs: seq<Job>, shots: seq<Shot>,
                                        n: nat)
    requires Records(ids, run, first, jobs, shots) && NoDuplicates(run.order) && n <= |shots|
    ensures AllEvents(shots[..n]) == RecordedEvents(run.results, run.order[..n])
  {
    if n > 0 {
      SystemEvents(ids, run, first, jobs, shots, n - 1);
      assert shots[..n][..n - 1] == shots[..n - 1] && run.order[..n][..n - 1] == run.order[..n - 1];
    }
  }

  lemma CancelSuffix<T>(a: seq<T>, b: seq<T>, s: seq<T>)
    ensures a + s == b + s <==> a == b
  {
    if a + s == b + s {
      assert |a| == |b|;
      assert a == (a + s)[..|a|] && b == (b + s)[..|b|];
    }
  }

  /** The events stored for a committed block are those of its results in order if
      and only if, when the commit was called, the pending block held exactly the
      events of its recorded results. */
  lemma ConservedExactly(e: Engine, c: Chain, hist: seq<Commit>, dice: nat, now: nat)
    requires Inv(e, c, hist) && Seal(e, c, dice, now).1.Sealed?
    ensures var commit := Seal(e, c, dice, now).1.commit;
            commit.events == ListedEvents(commit) <==>
            c.pending.work.events == RecordedEvents(c.pending.results, c.pending.transactionIDs)
  {
    hide Inv, Seal, RunSystem, LedgerAt, Records, Sequentially, NoDuplicates, StateAfter, AllEvents, EventsOf,
         RecordedEvents, ToSealed;
    SealSucceeds(e, c, hist, dice, now);
    SealCases(e, c, dice, now);
    var p := c.pending;
    var (work, run) := Attempt(e, c);
    var commit := Record(e.ids, p, work, run.value);
    var callbacks, shots := SystemReplay(e, p.ToBlock(e.ids), c.entropy, c.Base(), |p.transactions|, p.work);
    var order := run.value.order;
    var jobs := SystemJobs(e, p.ToBlock(e.ids), c.entropy, callbacks);
    RecordsLength(e.ids, run.value, |p.transactions|, jobs, shots);
    SystemEvents(e.ids, run.value, |p.transactions|, jobs, shots, |shots|);
    assert shots[..|shots|] == shots && order[..|shots|] == order;
    SealingKeepsEvents(p.results, p.transactionIDs, e.ids.blockID(commit.block), p.height,
                       if p.transactionIDs == [] then ZERO_ID else e.ids.collectionID(p.transactionIDs));
    SealingKeepsEvents(run.value.results, order, e.ids.blockID(commit.block), p.height, ZERO_ID);
    RecordLists(e, p, work, run.value);
    CancelSuffix(p.work.events, RecordedEvents(p.results, p.transactionIDs), AllEvents(shots));
  }

  // ---------------------------------------------------------------- over whole runs

  /** The pending block holds exactly the events of the results it has recorded. */
  ghost predicate Balanced(p: Pending) {
    p.index <= |p.transactionIDs|
    && p.work.events == RecordedEvents(p.results, p.transactionIDs[..p.index])
  }

  lemma ExecuteNextBalanced(e: Engine, context: Context, base: Ledger, p: Pending)
    requires p.WellFormed(e.ids) && p.index < |p.transactionIDs| && (Poisoned(p) || Balanced(p))
    ensures p.transactionIDs[p.index] in p.transactions
    ensures var q := ExecuteNext(e, context, base, p).0; Poisoned(q) || Balanced(q)
  {
    ExecuteNextWellFormed(e, context, base, p);
    FailurePoisons(e, context, base, p);
    var (q, execution) := ExecuteNext(e, context, base, p);
    if Poisoned(p) {
      ExecutePoisoned(e, context, base, p);
    } else if execution != Failed {
      BalancedSnoc(e, context, base, p);
    }
  }

  lemma BalancedSnoc(e: Engine, context: Context, base: Ledger, p: Pending)
    requires p.WellFormed(e.ids) && p.index < |p.transactionIDs| && Balanced(p)
    requires p.transactionIDs[p.index] in p.transactions && ExecuteNext(e, context, base, p).1 != Failed
    ensures Balanced(ExecuteNext(e, context, base, p).0)
  {
    var n, ids, q := p.index, p.transactionIDs, ExecuteNext(e, context, base, p).0;
    assert ids[..n + 1][..n] == ids[..n];
    forall id | id in ids[..n]
      ensures (id in p.results <==> id in q.results) && (id in p.results ==> p.results[id] == q.results[id])
    {
      var i :| 0 <= i < n && ids[i] == id;
      assert ids[i] != ids[n];
    }
    RecordedEventsSame(p.results, q.results, ids[..n]);
  }

  lemma {:induction false} ExecuteRestBalanced(e: Engine, context: Context, base: Ledger, p: Pending)
    requires p.WellFormed(e.ids) && (Poisoned(p) || Balanced(p))
    ensures var q := ExecuteRest(e, context, base, p).0; Poisoned(q) || Balanced(q)
    decreases |p.transactionIDs| - p.index
  {
    hide ExecuteNext, Poisoned, Balanced;
    if !p.ExecutionComplete() {
      ExecuteNextWellFormed(e, context, base, p);
      ExecuteNextBalanced(e, context, base, p);
      var (q, execution) := ExecuteNext(e, context, base, p);
      if execution.Succeeded? { ExecuteRestBalanced(e, context, base, q); }
    }
  }

  ghost predicate Accounted(p: Pending) { Poisoned(p) || Balanced(p) }

  lemma FreshBalanced(p: Pending)
    requires p.index == 0 && p.work.events == []
    ensures Accounted(p)
  {
    assert p.transactionIDs[..0] == [];
  }

  lemma StillBalanced(p: Pending, q: Pending)
    requires Accounted(p) && p.index == 0 && q.index == 0 && q.work == p.work
    ensures Accounted(q)
  {
    assert p.transactionIDs[..0] == [] == q.transactionIDs[..0];
  }

  lemma RetimeBalanced(p: Pending, now: nat)
    requires Accounted(p)
    ensures Accounted(p.(timestamp := now))
  {
    if Poisoned(p) {
      var i :| 0 <= i < p.index <= |p.transactionIDs| && p.transactionIDs[i] !in p.results;
      assert p.(timestamp := now).transactionIDs[i] !in p.results;
    }
  }

  lemma RunsBalanced(e: Engine, c: Chain, tx: TransactionBody, valid: bool)
    requires c.pending.WellFormed(e.ids) && Accounted(c.pending)
    ensures Accounted(Add(e, c, tx, valid).0.pending)
    ensures Accounted(RunOne(e, c).0.pending) && Accounted(RunAll(e, c).0.pending)
  {
    hide LedgerAt, Answer, ExecuteNext, ExecuteRest, Poisoned, Balanced;
    var d := Add(e, c, tx, valid).0;
    if Add(e, c, tx, valid).1.Accepted? {
      hide Accounted;
      StillBalanced(c.pending, d.pending);
    }
    if !c.pending.ExecutionComplete() { ExecuteNextBalanced(e, UserContext(e, c), c.Base(), c.pending); }
    ExecuteRestBalanced(e, UserContext(e, c), c.Base(), c.pending);
  }

  lemma SealBalanced(e: Engine, c: Chain, dice: nat, now: nat)
    ensures var (d, outcome) := Seal(e, c, dice, now);
            && (outcome.Sealed? ==> Accounted(d.pending))
            && (outcome.Refused? ==> d == c)
            && (outcome.Sealed? || outcome.Refused? || outcome.Abandoned?)
  {
    hide Seal, Attempt, Record, Accounted;
    SealCases(e, c, dice, now);
    var (d, outcome) := Seal(e, c, dice, now);
    if outcome.Sealed? { FreshBalanced(d.pending); }
  }

  lemma NewPendingBalanced(e: Engine, c: Chain, hist: seq<Commit>, height: nat, dice: nat, now: nat)
    requires Inv(e, c, hist)
    ensures Accounted(Renew(e, c, dice, now).0.pending)
    ensures var (d, outcome) := Prune(e, c, height, dice, now); Accounted(d.pending) || (d == c && outcome.Refused?)
  {
    hide Inv, Accounted, Latest, RolledBack;
    RenewKeeps(e, c, hist, dice, now);
    FreshBalanced(Renew(e, c, dice, now).0.pending);
    PruneKeeps(e, c, hist, height, dice, now);
    if Prune(e, c, height, dice, now).1.Pruned? { FreshBalanced(Prune(e, c, height, dice, now).0.pending); }
  }

  /** A failed commit has left events in the present pending block. */
  predicate LeftOver(log: seq<Outcome>) {
    if log == [] then false
    else
      var last := log[|log| - 1];
      !Settles(last) && (last.Abandoned? || LeftOver(log[..|log| - 1]))
  }

  lemma StepBalanced(e: Engine, c: Chain, hist: seq<Commit>, step: Step)
    requires Inv(e, c, hist)
    ensures c.pending.WellFormed(e.ids)
    ensures var (d, outcome) := Next(e, c, step);
            && (Settles(outcome) ==> Accounted(d.pending))
            && (Accounted(c.pending) ==> outcome.Abandoned? || Accounted(d.pending))
  {
    hide Inv, Accounted, Add, RunOne, RunAll, Seal, Renew, Prune;
    InvPending(e, c, hist);
    OnlyThese(e, c, step);
    if Accounted(c.pending) {
      RunsBalanced(e, c, if step.AddTransaction? then step.tx else e.process, step.AddTransaction? && step.valid);
    }
    match step
    case AddTransaction(_, _) =>
    case ExecuteNextTransaction =>
    case ExecuteBlock =>
    case CommitBlock(dice, now) => SealBalanced(e, c, dice, now);
    case ExecuteAndCommitBlock(dice, now) => SealBalanced(e, RunAll(e, c).0, dice, now);
    case ResetPendingBlock(dice, now) => NewPendingBalanced(e, c, hist, 0, dice, now);
    case RollbackToBlockHeight(height, dice, now) => NewPendingBalanced(e, c, hist, height, dice, now);
    case SetClock(now) => if Accounted(c.pending) { RetimeBalanced(c.pending, now); }
  }

  lemma {:induction false} NothingLeftOver(e: Engine, c: Chain, hist: seq<Commit>, steps: seq<Step>)
    requires Inv(e, c, hist) && Accounted(c.pending)
    ensures var (d, log) := Continue(e, c, hist, steps); !LeftOver(log) ==> Accounted(d.pending)
  {
    hide Inv, Accounted, Next, Standing;
    if steps != [] {
      var n := |steps| - 1;
      NothingLeftOver(e, c, hist, steps[..n]);
      LastStep(e, c, hist, steps);
      var (d, log) := Continue(e, c, hist, steps[..n]);
      var outcome := Next(e, d, steps[n]).1;
      assert (log + [outcome])[..|log|] == log;
      StepBalanced(e, d, Standing(hist, log), steps[n]);
    }
  }

  /** Whenever a block is committed in any run without leftovers of a failed
      commit, the unfiltered events read back at its height are the events of its
      results in execution order. */
  lemma EventsConserved(e: Engine, start: nat, time: nat, steps: seq<Step>, step: Step, r: Option<Cell>)
    requires e.ids.Injective()
    requires var (c, log) := Run(e, start, time, steps);
             c.pending.WellFormed(e.ids) && !LeftOver(log) && Next(e, c, step).1.Sealed?
    ensures var (d, outcome) := Next(e, Run(e, start, time, steps).0, step);
            SqlAnswers(d.db, EventsByHeight(outcome.commit.block.height, ""), r) <==>
            r == Some(EventsCell(ListedEvents(outcome.commit)))
  {
    hide Inv, Accounted, Next, Continue, Standing, Start, Seal, SqlAnswers, ListedEvents, RecordedEvents;
    StartInv(e, start, time);
    StartBalanced(e, start, time);
    NothingLeftOver(e, Start(e, start, time), [GenesisCommit(e)], steps);
    var (c, log) := Run(e, start, time, steps);
    var hist := Standing([GenesisCommit(e)], log);
    var ran, dice, now := SealStepBalanced(e, c, hist, step);
    ConservedExactly(e, ran, hist, dice, now);
    SealedIsBalanced(e, ran, hist, dice, now);
    NextKeeps(e, c, hist, step);
    var (d, outcome) := Next(e, c, step);
    SealedHeight(e, ran, hist, dice, now);
    EventsReadBack(e, d, hist + [outcome.commit], |hist|, r);
  }

  lemma StartBalanced(e: Engine, start: nat, time: nat)
    ensures Accounted(Start(e, start, time).pending)
  {
    hide Accounted, Committed;
    FreshBalanced(Start(e, start, time).pending);
  }

  lemma SealStepBalanced(e: Engine, c: Chain, hist: seq<Commit>, step: Step) returns (ran: Chain, dice: nat, now: nat)
    requires Inv(e, c, hist) && c.pending.WellFormed(e.ids) && Accounted(c.pending) && Next(e, c, step).1.Sealed?
    ensures Inv(e, ran, hist) && Accounted(ran.pending)
    ensures Next(e, c, step) == Seal(e, ran, dice, now)
  {
    hide Inv, Accounted, Add, RunOne, RunAll, Seal, Renew, Prune;
    RunAllKeeps(e, c, hist);
    RunsBalanced(e, c, e.process, false);
    SealedByWhom(e, c, step);
    dice, now := step.dice, step.now;
    ran := if step.CommitBlock? then c else RunAll(e, c).0;
  }

  lemma SealedIsBalanced(e: Engine, c: Chain, hist: seq<Commit>, dice: nat, now: nat)
    requires Inv(e, c, hist) && Accounted(c.pending) && Seal(e, c, dice, now).1.Sealed?
    ensures c.pending.work.events == RecordedEvents(c.pending.results, c.pending.transactionIDs)
  {
    hide Inv, Seal, Attempt, Poisoned, NoDuplicates, RecordedEvents;
    var p := c.pending;
    InvPending(e, c, hist);
    SealSucceeds(e, c, hist, dice, now);
    if Poisoned(p) { PoisonedLacksResult(e.ids, p); }
    assert p.transactionIDs[..p.index] == p.transactionIDs;
  }

  lemma {:induction false} NoFilter(events: seq<Event>)
    ensures OfKind(events, "") == events
  {
    if events != [] { NoFilter(events[1..]); }
  }

  lemma EventsReadBack(e: Engine, c: Chain, hist: seq<Commit>, height: nat, r: Option<Cell>)
    requires Inv(e, c, hist) && height < |hist|
    ensures SqlAnswers(c.db, EventsByHeight(height, ""), r) <==> r == Some(EventsCell(hist[height].events))
  {
    hide SqlAnswers, GoodHistory, Holds, SystemListsKept, PendingOn, Consistent, OfKind;
    GoodIsConsistent(e, hist);
    SqlAnswersChain(e.ids, c.db, hist, EventsByHeight(height, ""), r);
    NoFilter(hist[height].events);
  }
}
