/** Every step keeps the invariant, so it holds in every state of every run. */
module Runs {
  import opened Types
  import opened Keys
  import opened Tables
  import opened Storage
  import opened History
  import opened StoreQueries
  import opened Pending
  import opened Chain
  import opened Invariants

  // ---------------------------------------------------------------- start

  lemma StartInv(e: Engine, dice: nat, now: nat)
    requires e.ids.Injective()
    ensures Inv(e, Start(e, dice, now), [GenesisCommit(e)])
  {
    hide Layer, Committed, Holds;
    var g := GenesisCommit(e);
    GenesisHolds(e.ids, g);
    CommittedRows(e.ids, EMPTY_DB, g, SystemTransactionsOf);
    NoSystemRows(e.ids, g);
    assert Start(e, dice, now).db.tables.systemTransactions == map[];
    FreshIsOn(e, [g], dice, now);
  }

  lemma NoSystemRows(ids: Hashes, c: Commit)
    requires c.systemIDs == [] && c.scheduled == map[]
    ensures Layer(ids, c, SystemTransactionsOf) == map[]
  {}

  lemma FreshIsOn(e: Engine, hist: seq<Commit>, dice: nat, now: nat)
    requires hist != []
    ensures PendingOn(e, Fresh(e.ids, hist[|hist| - 1].block, dice, now), hist)
  {
    var p := Fresh(e.ids, hist[|hist| - 1].block, dice, now);
    assert Elements(p.transactionIDs) == {};
  }

  lemma InvPending(e: Engine, c: Chain, hist: seq<Commit>)
    requires Inv(e, c, hist)
    ensures c.pending.WellFormed(e.ids) && hist != []
  {
    hide Holds, GoodHistory, SystemListsKept, Follows, Unused;
  }

  lemma InvHistory(e: Engine, c: Chain, hist: seq<Commit>)
    requires Inv(e, c, hist)
    ensures e.ids.Injective() && GoodHistory(e, hist) && hist != []
  {
    hide Holds, GoodHistory, SystemListsKept, PendingOn;
  }

  lemma InvLists(e: Engine, c: Chain, hist: seq<Commit>)
    requires Inv(e, c, hist)
    ensures SystemListsKept(e, c.db.tables.systemTransactions, hist)
  {
    hide Holds, GoodHistory, SystemListsKept, PendingOn;
  }

  // ---------------------------------------------------------------- adding

  lemma AddingKeeps(e: Engine, p: Pending, hist: seq<Commit>, tx: TransactionBody)
    requires hist != [] && PendingOn(e, p, hist) && p.index == 0
    requires e.ids.transactionID(tx) !in p.transactions && Unused(hist, e.ids.transactionID(tx))
    ensures PendingOn(e, p.Adding(e.ids, tx), hist)
  {
    hide Unused;
    var id, q := e.ids.transactionID(tx), p.Adding(e.ids, tx);
    assert Elements(q.transactionIDs) == Elements(p.transactionIDs) + {id};
    assert p.transactionIDs[..0] == [] == q.transactionIDs[..0];
    forall i, j | 0 <= i < j < |q.transactionIDs| ensures q.transactionIDs[i] != q.transactionIDs[j] {
      if j == |p.transactionIDs| { assert p.transactionIDs[i] in Elements(p.transactionIDs); }
    }
  }

  lemma AddKeeps(e: Engine, c: Chain, hist: seq<Commit>, tx: TransactionBody, valid: bool)
    requires Inv(e, c, hist)
    ensures var (d, outcome) := Add(e, c, tx, valid); Inv(e, d, Extend(hist, outcome))
  {
    hide Holds, GoodHistory, SystemListsKept, PendingOn, Answer;
    var id := e.ids.transactionID(tx);
    Answers(e, c, hist, TransactionByID(id));
    UnusedHasNoBody(hist, id);
    var (d, outcome) := Add(e, c, tx, valid);
    if outcome.Accepted? {
      AddingKeeps(e, c.pending, hist, tx);
    }
  }

  // ---------------------------------------------------------------- executing

  /** Execution changes only the index, the results and the work. */
  ghost predicate OnlyExecuted(p: Pending, q: Pending) {
    q == p.(index := q.index, results := q.results, work := q.work)
  }

  lemma ExecutedIsOn(e: Engine, p: Pending, q: Pending, hist: seq<Commit>)
    requires hist != [] && PendingOn(e, p, hist) && q.WellFormed(e.ids) && OnlyExecuted(p, q)
    ensures PendingOn(e, q, hist)
  {
    hide Unused;
  }

  lemma {:induction false} ExecuteRestKeeps(e: Engine, context: Context, base: Ledger, p: Pending)
    requires p.WellFormed(e.ids)
    ensures var q := ExecuteRest(e, context, base, p).0; q.WellFormed(e.ids) && OnlyExecuted(p, q) && p.index <= q.index
    decreases |p.transactionIDs| - p.index
  {
    hide ExecuteNext;
    if !p.ExecutionComplete() {
      ExecuteNextWellFormed(e, context, base, p);
      var (q, execution) := ExecuteNext(e, context, base, p);
      if execution.Succeeded? {
        ExecuteRestKeeps(e, context, base, q);
      }
    }
  }

  lemma RunOneKeeps(e: Engine, c: Chain, hist: seq<Commit>)
    requires Inv(e, c, hist)
    ensures var (d, outcome) := RunOne(e, c); Inv(e, d, Extend(hist, outcome))
  {
    hide Holds, GoodHistory, SystemListsKept, ExecuteNext, LedgerAt;
    if !c.pending.ExecutionComplete() {
      ExecuteNextWellFormed(e, UserContext(e, c), c.Base(), c.pending);
      ExecutedIsOn(e, c.pending, ExecuteNext(e, UserContext(e, c), c.Base(), c.pending).0, hist);
    }
  }

  lemma RunAllKeeps(e: Engine, c: Chain, hist: seq<Commit>)
    requires Inv(e, c, hist)
    ensures var (d, outcome) := RunAll(e, c);
            && Inv(e, d, hist) && Extend(hist, outcome) == hist
            && d == c.(pending := d.pending) && OnlyExecuted(c.pending, d.pending)
  {
    hide Holds, GoodHistory, SystemListsKept, ExecuteRest, LedgerAt;
    ExecuteRestKeeps(e, UserContext(e, c), c.Base(), c.pending);
    ExecutedIsOn(e, c.pending, ExecuteRest(e, UserContext(e, c), c.Base(), c.pending).0, hist);
  }

  // ---------------------------------------------------------------- committing

  lemma SubsetOfSameSize<T>(a: set<T>, b: set<T>)
    requires a <= b && |a| == |b|
    ensures a == b
  {
    if a != b {
      var x :| x in b && x !in a;
      assert a <= b - {x};
      SubsetIsNoLarger(a, b - {x});
    }
  }

  lemma {:induction false} SubsetIsNoLarger<T>(a: set<T>, b: set<T>)
    requires a <= b
    ensures |a| <= |b|
  {
    if a != {} {
      var x :| x in a;
      SubsetIsNoLarger(a - {x}, b - {x});
    }
  }

  /** The two counts compared at commit force every listed transaction to have
      exactly one result, and every system transaction to be listed once. */
  lemma CountsMatch(ids: Hashes, p: Pending, work: Work, run: SystemRun)
    requires p.WellFormed(ids) && run.WellFormed(ids)
    requires CommitCheck(Record(ids, p, work, run)) == None
    ensures p.results.Keys == p.transactions.Keys && NoDuplicates(run.order)
  {
    hide ToStorable;
    var c := Record(ids, p, work, run);
    assert |p.results.Keys| == |c.results.Keys| == |c.results| == |p.transactions| == |p.transactions.Keys|;
    assert p.results.Keys <= p.transactions.Keys by {
      assert Elements(p.transactionIDs[..p.index]) <= Elements(p.transactionIDs);
    }
    SubsetOfSameSize(p.results.Keys, p.transactions.Keys);
    assert |Elements(run.order)| == |run.results.Keys| == |c.systemResults.Keys| == |c.systemResults| == |run.order|;
    DistinctByCardinality(run.order);
  }

  lemma ScheduledIsListed(e: Engine, run: SystemRun, n: nat)
    requires Complete(e, run) && NoDuplicates(run.order) && n in run.scheduled
    ensures run.scheduled[n] in run.results && run.scheduled[n] !in StaticIDs(e)
  {
    var k :| 0 < k < |run.order| - 1 && run.order[k] == run.scheduled[n];
    assert run.order[k] in Elements(run.order);
    assert run.order[k] != run.order[0] && run.order[k] != run.order[|run.order| - 1];
  }

  lemma RecordProper(e: Engine, p: Pending, work: Work, run: SystemRun)
    requires p.WellFormed(e.ids) && Complete(e, run)
    requires CommitCheck(Record(e.ids, p, work, run)) == None
    ensures Proper(e, Record(e.ids, p, work, run))
  {
    hide Complete, ProperUsers, ProperSystem, NoDuplicates;
    CompleteIsWellFormed(e, run);
    CountsMatch(e.ids, p, work, run);
    RecordProperUsers(e, p, work, run);
    RecordProperSystem(e, p, work, run);
    RecordContent(e, p, work, run);
  }

  lemma RecordProperUsers(e: Engine, p: Pending, work: Work, run: SystemRun)
    requires p.WellFormed(e.ids) && p.results.Keys == p.transactions.Keys
    ensures ProperUsers(e, Record(e.ids, p, work, run))
  {}

  lemma RecordProperSystem(e: Engine, p: Pending, work: Work, run: SystemRun)
    requires Complete(e, run) && NoDuplicates(run.order)
    ensures ProperSystem(e, Record(e.ids, p, work, run))
  {
    hide Complete, StaticIDs;
    CompleteIsWellFormed(e, run);
    forall n | n in run.scheduled ensures run.scheduled[n] in run.results && run.scheduled[n] !in StaticIDs(e) {
      hide NoDuplicates;
      ScheduledIsListed(e, run, n);
    }
  }

  lemma RecordContent(e: Engine, p: Pending, work: Work, run: SystemRun)
    requires p.WellFormed(e.ids) && run.WellFormed(e.ids)
    ensures ContentAddressed(e.ids, Record(e.ids, p, work, run))
  {}

  lemma CompleteIsWellFormed(e: Engine, run: SystemRun)
    requires Complete(e, run)
    ensures run.WellFormed(e.ids) && run.order != []
    ensures run.order[|run.order| - 1] == e.ids.transactionID(e.chunk)
  {}

  lemma ExtendGood(e: Engine, hist: seq<Commit>, c: Commit)
    requires GoodHistory(e, hist) && Proper(e, c) && Follows(e, hist[|hist| - 1].block, c.block)
    requires c.block.height == |hist| && forall id | id in c.transactions :: Unused(hist, id)
    ensures GoodHistory(e, hist + [c])
  {
    hide Proper, Follows, NeverReused, Unused;
    var more := hist + [c];
    assert forall i | 0 <= i < |hist| :: more[i] == hist[i];
    StillNotReused(hist, c);
  }

  lemma StillNotReused(hist: seq<Commit>, c: Commit)
    requires NeverReused(hist) && forall id | id in c.transactions :: Unused(hist, id)
    ensures NeverReused(hist + [c])
  {
    var more := hist + [c];
    forall i, j, id | 0 <= i < j < |more| && id in more[j].transactions
      ensures id !in more[i].transactions && id !in more[i].systemBodies
    {
      if j == |hist| { assert Unused(hist, id); }
    }
  }

  lemma IndexingHolds(e: Engine, db: Db, c: Commit, hist: seq<Commit>)
    requires Holds(e.ids, db, hist)
    ensures Holds(e.ids, Indexed(e, db, c), hist)
  {
    hide Replayed, ScheduledRows, ScheduledBlockRows;
    forall name | Covered(name) ensures Indexed(e, db, c).Rows(name) == db.Rows(name) {}
  }

  lemma ListsExtend(e: Engine, t: Table, hist: seq<Commit>, c: Commit)
    requires e.ids.Injective() && ConsecutiveFrom(hist, 0) && hist != []
    requires SystemListsKept(e, t, hist) && c.block.height == |hist| && c.systemIDs != []
    ensures SystemListsKept(e, t + SystemRows(e.ids, c), hist + [c])
  {
    hide IdKey, UnHex;
    var b, more := e.ids.blockID(c.block), hist + [c];
    var row := Row(IdKey(b), 0, |hist|);
    assert SystemRows(e.ids, c) == map[row := SystemListOf(e, c)];
    assert IdentifiesBlockAt(e.ids, b, |hist|);
    var u := t + SystemRows(e.ids, c);
    hide IdentifiesBlockAt, SystemRows;
    forall i | 0 < i < |more|
      ensures var r := Row(IdKey(e.ids.blockID(more[i].block)), 0, i); r in u && u[r] == SystemListOf(e, more[i])
    {
      if i < |hist| { assert more[i] == hist[i]; }
    }
  }

  lemma SealedKeeps(e: Engine, c: Chain, hist: seq<Commit>, commit: Commit, dice: nat, now: nat)
    requires Inv(e, c, hist) && Proper(e, commit) && commit.block == c.pending.ToBlock(e.ids)
    requires commit.transactions == c.pending.transactions
    ensures Inv(e, Chain(Indexed(e, Committed(e.ids, c.db, commit), commit),
                         Fresh(e.ids, commit.block, dice, now), e.ids.blockID(commit.block)),
                hist + [commit])
  {
    HeldHeight(e, c, hist);
    GoodIsConsecutive(e, hist);
    hide Layer, Committed, Holds, SystemListsKept, GoodHistory, ScheduledRows, ScheduledBlockRows, Unused, Proper, Follows,
         Fresh;
    ExtendGood(e, hist, commit);
    CommitHolds(e.ids, c.db, hist, commit);
    IndexingHolds(e, Committed(e.ids, c.db, commit), commit, hist + [commit]);
    CommittedRows(e.ids, c.db, commit, SystemTransactionsOf);
    SystemLayer(e, commit);
    ListsExtend(e, c.db.tables.systemTransactions, hist, commit);
    FreshIsOn(e, hist + [commit], dice, now);
  }

  lemma SystemLayer(e: Engine, c: Commit)
    requires Proper(e, c)
    ensures Layer(e.ids, c, SystemTransactionsOf) == SystemRows(e.ids, c) && c.systemIDs != []
  {
    hide SystemRows, ProperUsers, ContentAddressed;
  }

  lemma GoodIsConsecutive(e: Engine, hist: seq<Commit>)
    requires GoodHistory(e, hist)
    ensures ConsecutiveFrom(hist, 0)
  {
    hide Proper, Follows, NeverReused;
  }

  /** The pending block is one above the tip. */
  lemma HeldHeight(e: Engine, c: Chain, hist: seq<Commit>)
    requires Inv(e, c, hist)
    ensures c.pending.height == |hist|
  {
    hide SystemListsKept, Unused, NeverReused;
    assert hist[|hist| - 1].block.height == |hist| - 1;
  }

  lemma RecordIs(ids: Hashes, p: Pending, work: Work, run: SystemRun)
    ensures Record(ids, p, work, run).block == p.ToBlock(ids)
    ensures Record(ids, p, work, run).transactions == p.transactions
  {}

  lemma FinishKeeps(e: Engine, c: Chain, hist: seq<Commit>, work: Work, run: Option<SystemRun>, dice: nat, now: nat)
    requires Inv(e, c, hist)
    requires run.Some? ==> Complete(e, run.value)
    ensures var (d, outcome) := Finish(e, c, work, run, dice, now); Inv(e, d, Extend(hist, outcome))
  {
    hide Inv, Committed, Proper, Record, Indexed, Fresh, Complete;
    var p := c.pending;
    InvPending(e, c, hist);
    WorkKeeps(e, c, hist, work);
    if run.Some? {
      var commit := Record(e.ids, p, work, run.value);
      RecordIs(e.ids, p, work, run.value);
      if CommitCheck(commit) == None {
        RecordProper(e, p, work, run.value);
        SealedKeeps(e, c, hist, commit, dice, now);
      }
    }
  }

  lemma SealKeeps(e: Engine, c: Chain, hist: seq<Commit>, dice: nat, now: nat)
    requires Inv(e, c, hist)
    ensures var (d, outcome) := Seal(e, c, dice, now); Inv(e, d, Extend(hist, outcome))
  {
    hide Inv, Finish, RunSystem, LedgerAt, Complete;
    var (work, run) := Attempt(e, c);
    RunSystemComplete(e, c.pending.ToBlock(e.ids), c.entropy, c.Base(), |c.pending.transactions|, c.pending.work);
    FinishKeeps(e, c, hist, work, run, dice, now);
  }

  lemma WorkKeeps(e: Engine, c: Chain, hist: seq<Commit>, work: Work)
    requires Inv(e, c, hist)
    ensures Inv(e, c.(pending := c.pending.(work := work)), hist)
  {
    hide Holds, GoodHistory, SystemListsKept, Unused;
  }

  // ---------------------------------------------------------------- replacing the pending block

  lemma LatestIsTip(e: Engine, db: Db, hist: seq<Commit>)
    requires e.ids.Injective() && GoodHistory(e, hist) && Holds(e.ids, db, hist)
    ensures Latest(db) == Some(hist[|hist| - 1].block)
  {
    hide SqlAnswers, GoodHistory, Holds, Consistent;
    GoodIsConsistent(e, hist);
    SqlAnswersChain(e.ids, db, hist, LatestBlock, Answer(db, LatestBlock));
  }

  lemma RenewKeeps(e: Engine, c: Chain, hist: seq<Commit>, dice: nat, now: nat)
    requires Inv(e, c, hist)
    ensures var (d, outcome) := Renew(e, c, dice, now);
            && Inv(e, d, Extend(hist, outcome))
            && d.pending == Fresh(e.ids, hist[|hist| - 1].block, dice, now)
  {
    hide Holds, SystemListsKept, GoodHistory, PendingOn, Latest, Fresh;
    LatestIsTip(e, c.db, hist);
    FreshIsOn(e, hist, dice, now);
  }

  lemma PrefixGood(e: Engine, hist: seq<Commit>, n: nat)
    requires GoodHistory(e, hist) && 0 < n <= |hist|
    ensures GoodHistory(e, hist[..n])
  {
    hide Proper, Follows;
    var short := hist[..n];
    assert forall i | 0 <= i < n :: short[i] == hist[i];
  }

  lemma ListsPrefix(e: Engine, t: Table, hist: seq<Commit>, n: nat)
    requires SystemListsKept(e, t, hist) && n <= |hist|
    ensures SystemListsKept(e, t, hist[..n])
  {
    hide IdKey, UnHex;
    var short := hist[..n];
    assert forall i | 0 <= i < n :: short[i] == hist[i];
  }

  lemma PruneKeeps(e: Engine, c: Chain, hist: seq<Commit>, height: nat, dice: nat, now: nat)
    requires Inv(e, c, hist)
    ensures var (d, outcome) := Prune(e, c, height, dice, now); Inv(e, d, Extend(hist, outcome))
    ensures Prune(e, c, height, dice, now).1 ==
            if height < |hist| - 1 then Pruned(height) else Refused(RollbackTooHigh)
    ensures height < |hist| - 1 ==>
              Prune(e, c, height, dice, now).0.pending == Fresh(e.ids, hist[height].block, dice, now)
  {
    hide SystemListsKept, PendingOn, GoodHistory, Latest, Fresh, RolledBack, Replayed;
    if RollbackAllowed(c.db, height) {
      var db, short := RolledBack(c.db, height), hist[..height + 1];
      RollbackHolds(e.ids, c.db, hist, height);
      PrefixGood(e, hist, height + 1);
      RolledBackRows(c.db, height, SystemTransactionsOf);
      ListsPrefix(e, c.db.tables.systemTransactions, hist, height + 1);
      LatestIsTip(e, db, short);
      FreshIsOn(e, short, dice, now);
    }
  }

  // ---------------------------------------------------------------- all steps

  lemma RetimeKeeps(e: Engine, c: Chain, hist: seq<Commit>, now: nat)
    requires Inv(e, c, hist)
    ensures Inv(e, c.(pending := c.pending.(timestamp := now)), hist)
  {
    hide Holds, GoodHistory, SystemListsKept, Unused;
  }

  lemma NextKeeps(e: Engine, c: Chain, hist: seq<Commit>, step: Step)
    requires Inv(e, c, hist)
    ensures c.pending.WellFormed(e.ids)
    ensures var (d, outcome) := Next(e, c, step); Inv(e, d, Extend(hist, outcome))
  {
    hide Inv, Add, RunOne, RunAll, Seal, Renew, Prune;
    InvPending(e, c, hist);
    match step
    case AddTransaction(tx, valid) => AddKeeps(e, c, hist, tx, valid);
    case ExecuteNextTransaction => RunOneKeeps(e, c, hist);
    case ExecuteBlock => RunAllKeeps(e, c, hist);
    case CommitBlock(dice, now) => SealKeeps(e, c, hist, dice, now);
    case ExecuteAndCommitBlock(dice, now) =>
      RunAllKeeps(e, c, hist);
      var (ran, outcome) := RunAll(e, c);
      if outcome.Executed? { SealKeeps(e, ran, hist, dice, now); }
    case ResetPendingBlock(dice, now) => RenewKeeps(e, c, hist, dice, now);
    case RollbackToBlockHeight(height, dice, now) => PruneKeeps(e, c, hist, height, dice, now);
    case SetClock(now) => RetimeKeeps(e, c, hist, now);
  }

  /** The state and the outcomes after any sequence of steps. The invariant holds
      again of the commits then standing. */
  ghost function Continue(e: Engine, c: Chain, hist: seq<Commit>, steps: seq<Step>): (r: (Chain, seq<Outcome>))
    requires Inv(e, c, hist)
    ensures |r.1| == |steps|
    ensures Inv(e, r.0, Standing(hist, r.1))
  {
    hide Inv, Next;
    if steps == [] then (c, [])
    else
      var n := |steps| - 1;
      var (d, log) := Continue(e, c, hist, steps[..n]);
      NextKeeps(e, d, Standing(hist, log), steps[n]);
      var (f, outcome) := Next(e, d, steps[n]);
      assert (log + [outcome])[..|log|] == log;
      (f, log + [outcome])
  }

  /** A run of the emulator from an empty store. */
  ghost function Run(e: Engine, dice: nat, now: nat, steps: seq<Step>): (r: (Chain, seq<Outcome>))
    requires e.ids.Injective()
    ensures |r.1| == |steps|
    ensures Inv(e, r.0, Standing([GenesisCommit(e)], r.1))
  {
    StartInv(e, dice, now);
    Continue(e, Start(e, dice, now), [GenesisCommit(e)], steps)
  }
}
