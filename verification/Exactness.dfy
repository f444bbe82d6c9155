/** Exactly when a commit is explained by running the block's transactions one
    after the other. */
module Exactness {
  import opened Types
  import opened Keys
  import opened Tables
  import opened Storage
  import opened History
  import opened Pending
  import opened Chain
  import opened Invariants
  import opened Runs
  import opened Delivery
  import opened Replay
  import opened Execution

  /** The two engines are the same chain and treat user transactions alike; they
      may differ in how they run system transactions. */
  ghost predicate Alike(e: Engine, f: Engine) {
    && f == e.(vm := f.vm, converts := f.converts, callbacks := f.callbacks, announcement := f.announcement,
               scheduledEnabled := f.scheduledEnabled)
    && forall context: Context, tx, index, ledger {:trigger f.vm(context, tx, index, ledger)} |
         context.kind == UserTransaction :: f.vm(context, tx, index, ledger) == e.vm(context, tx, index, ledger)
  }

  /** The guards of a commit let the block pass, and no transaction lacks a
      result. */
  ghost predicate Committable(p: Pending) {
    CommitGuard(p) == None && p.results.Keys == p.transactions.Keys
  }

  /** Some run of the block's transactions one after the other, from the registers
      under it, yields the commit. */
  ghost predicate Explained(e: Engine, c: Chain, commit: Commit) {
    exists callbacks, shots :: Faithful(e, c.entropy, c.Base(), commit, callbacks, shots)
  }

  // ---------------------------------------------------------------- engines that are alike

  lemma SameGood(e: Engine, f: Engine, hist: seq<Commit>)
    requires Alike(e, f) && GoodHistory(e, hist)
    ensures GoodHistory(f, hist)
  {
    hide NeverReused, ConsecutiveFrom;
    forall i | 0 < i < |hist| ensures Proper(f, hist[i]) && Follows(f, hist[i - 1].block, hist[i].block) {
      assert Proper(e, hist[i]) && Follows(e, hist[i - 1].block, hist[i].block);
    }
  }

  lemma SameLists(e: Engine, f: Engine, t: Table, hist: seq<Commit>)
    requires Alike(e, f) && SystemListsKept(e, t, hist)
    ensures SystemListsKept(f, t, hist)
  {
    hide IdKey;
    forall i | 0 < i < |hist|
      ensures var row := Row(IdKey(f.ids.blockID(hist[i].block)), 0, i); row in t && t[row] == SystemListOf(f, hist[i])
    {
      var row := Row(IdKey(e.ids.blockID(hist[i].block)), 0, i);
      assert row in t && t[row] == SystemListOf(e, hist[i]);
    }
  }

  lemma SameInv(e: Engine, f: Engine, c: Chain, hist: seq<Commit>)
    requires Alike(e, f) && Inv(e, c, hist)
    ensures Inv(f, c, hist)
  {
    hide Holds, GoodHistory, SystemListsKept, Unused;
    SameGood(e, f, hist);
    SameLists(e, f, c.db.tables.systemTransactions, hist);
  }

  lemma {:induction false} SameRuns(e: Engine, f: Engine, start: Ledger, first: nat, jobs: seq<Job>)
    requires Alike(e, f) && forall i | 0 <= i < |jobs| :: jobs[i].context.kind == UserTransaction
    ensures Sequentially(f, start, first, jobs) == Sequentially(e, start, first, jobs)
  {
    hide StateAfter;
    if jobs != [] { SameRuns(e, f, start, first, jobs[..|jobs| - 1]); }
  }

  lemma SameReplays(e: Engine, f: Engine, c: Chain)
    requires Alike(e, f) && Replays(e, c)
    ensures Replays(f, c)
  {
    hide Sequentially, StateAfter, AllEvents, LedgerAt, SameStored;
    var context, base, p := UserContext(e, c), c.Base(), c.pending;
    SameRuns(e, f, base, 0, JobsOf(context, BodiesOf(p.transactionIDs, p.transactions)));
    var users :| ReplayOf(e, context, base, p, users);
    assert ReplayOf(f, UserContext(f, c), base, p, users);
  }

  // ---------------------------------------------------------------- an engine with silent system transactions

  const SILENCE := Output(0, "", [], [])

  /** The engine with system transactions that do nothing. */
  function Silent(e: Engine): (f: Engine) {
    e.(vm := (context: Context, tx, index: nat, ledger) =>
         if context.kind == UserTransaction then e.vm(context, tx, index, ledger) else Ran(SILENCE, map[]),
       scheduledEnabled := false)
  }

  lemma SilentIsAlike(e: Engine)
    ensures Alike(e, Silent(e))
  {}

  function SilentRun(e: Engine, index: nat): (run: SystemRun) {
    NO_SYSTEM_RUN.Adding(e.ids.transactionID(e.chunk), e.chunk, SILENCE, index)
  }

  lemma SilentAttempt(e: Engine, c: Chain)
    ensures Attempt(Silent(e), c) == (c.pending.work, Some(SilentRun(e, |c.pending.transactions|)))
    ensures NoDuplicates(SilentRun(e, |c.pending.transactions|).order)
  {
    hide LedgerAt;
    var work := c.pending.work;
    assert work.writes + map[] == work.writes && work.events + [] == work.events;
  }

  /** With silent system transactions every committable block is committed. */
  lemma SilentSeals(e: Engine, c: Chain, hist: seq<Commit>)
    requires Inv(e, c, hist) && Committable(c.pending)
    ensures Seal(Silent(e), c, 0, 0).1 ==
            Sealed(Record(e.ids, c.pending, c.pending.work, SilentRun(e, |c.pending.transactions|)))
  {
    hide Inv, Seal, Attempt, Record, NoDuplicates, SilentRun;
    SilentIsAlike(e);
    SameInv(e, Silent(e), c, hist);
    SilentAttempt(e, c);
    SealSucceeds(Silent(e), c, hist, 0, 0);
    SealCases(Silent(e), c, 0, 0);
  }

  /** A run that explains a commit with a silent chunk is a run of the user
      transactions and the chunk's silence. */
  lemma SilentRuns(e: Engine, base: Ledger, jobs: seq<Job>, chunk: Job, shots: seq<Shot>)
    requires Sequentially(Silent(e), base, 0, jobs + [chunk]) == Some(shots) && chunk.context.kind == SystemChunk
    requires forall i | 0 <= i < |jobs| :: jobs[i].context.kind == UserTransaction
    ensures var n := |jobs|;
            && |shots| == n + 1 && Sequentially(e, base, 0, jobs) == Some(shots[..n])
            && AllWrites(shots) == AllWrites(shots[..n]) && AllEvents(shots) == AllEvents(shots[..n])
  {
    hide Sequentially, StateAfter, AllEvents;
    var n := |jobs|;
    SequentiallyUnsnoc(Silent(e), base, 0, jobs + [chunk], shots);
    assert (jobs + [chunk])[..n] == jobs;
    SilentIsAlike(e);
    SameRuns(e, Silent(e), base, 0, jobs);
    assert shots == shots[..n] + [shots[n]];
    StateAfterSnoc(map[], shots[..n], shots[n]);
    assert AllWrites(shots[..n]) + map[] == AllWrites(shots[..n]) && AllEvents(shots[..n]) + [] == AllEvents(shots[..n]);
  }

  lemma StoredAlike(a: Output, b: Output, blockID: Identifier, height: nat, collectionID: Identifier)
    requires ToStorable(a, blockID, height, collectionID) == ToStorable(b, blockID, height, collectionID)
    ensures SameStored(a, b)
  {}

  /** The commit of a silent run, taken apart. */
  lemma ExplainedRuns(e: Engine, c: Chain, callbacks: seq<TransactionBody>, shots: seq<Shot>)
    requires var commit := Record(e.ids, c.pending, c.pending.work, SilentRun(e, |c.pending.transactions|));
             Faithful(Silent(e), c.entropy, c.Base(), commit, callbacks, shots)
    ensures var p, n := c.pending, |c.pending.transactionIDs|;
            && |shots| == n + 1 && p.work == Work(AllWrites(shots[..n]), AllEvents(shots[..n]))
            && Sequentially(e, c.Base(), 0, JobsOf(UserContext(e, c), BodiesOf(p.transactionIDs, p.transactions)))
               == Some(shots[..n])
  {
    hide Sequentially, StateAfter, AllEvents, LedgerAt, Record, SilentRun, Silent, Matches, BlockJobs, BodiesOf;
    var p, run := c.pending, SilentRun(e, |c.pending.transactions|);
    var commit := Record(e.ids, p, p.work, run);
    var jobs := JobsOf(UserContext(e, c), BodiesOf(p.transactionIDs, p.transactions));
    SilentJobs(e, c, run, callbacks);
    SilentRuns(e, c.Base(), jobs, Job(Context(commit.block, c.entropy, SystemChunk), e.chunk), shots);
  }

  lemma ExplainedReplays(e: Engine, c: Chain, callbacks: seq<TransactionBody>, shots: seq<Shot>)
    requires c.pending.WellFormed(e.ids) && c.pending.results.Keys == c.pending.transactions.Keys
    requires var commit := Record(e.ids, c.pending, c.pending.work, SilentRun(e, |c.pending.transactions|));
             Faithful(Silent(e), c.entropy, c.Base(), commit, callbacks, shots)
    ensures Replays(e, c)
  {
    hide Sequentially, StateAfter, AllEvents, LedgerAt, Record, SilentRun, Silent, Faithful, SameStored, BodiesOf, JobsOf;
    var p, n := c.pending, |c.pending.transactionIDs|;
    ExplainedRuns(e, c, callbacks, shots);
    forall i | 0 <= i < n
      ensures p.transactionIDs[i] in p.results && SameStored(p.results[p.transactionIDs[i]].output, shots[..n][i].output)
    {
      ResultReplays(e, c, callbacks, shots, i);
    }
    assert ReplayOf(e, UserContext(e, c), c.Base(), p, shots[..n]);
  }

  lemma SilentJobs(e: Engine, c: Chain, run: SystemRun, callbacks: seq<TransactionBody>)
    ensures var p := c.pending;
            var commit := Record(e.ids, p, p.work, run);
            && commit.writes == p.work.writes && commit.events == p.work.events
            && BlockJobs(Silent(e), c.entropy, commit, callbacks) ==
               JobsOf(UserContext(e, c), BodiesOf(p.transactionIDs, p.transactions))
               + [Job(Context(commit.block, c.entropy, SystemChunk), e.chunk)]
  {
    hide ToSealed, BodiesOf;
    RecordLists(e, c.pending, c.pending.work, run);
  }

  lemma ResultReplays(e: Engine, c: Chain, callbacks: seq<TransactionBody>, shots: seq<Shot>, i: nat)
    requires c.pending.WellFormed(e.ids) && c.pending.results.Keys == c.pending.transactions.Keys
    requires i < |c.pending.transactionIDs| < |shots|
    requires var commit := Record(e.ids, c.pending, c.pending.work, SilentRun(e, |c.pending.transactions|));
             Faithful(Silent(e), c.entropy, c.Base(), commit, callbacks, shots)
    ensures var id := c.pending.transactionIDs[i];
            id in c.pending.results && SameStored(c.pending.results[id].output, shots[i].output)
  {
    hide Sequentially, StateAfter, AllEvents, LedgerAt, ToSealed, ListedResult, ToStorable, SameStored, BlockJobs;
    var p, run := c.pending, SilentRun(e, |c.pending.transactions|);
    var commit := Record(e.ids, p, p.work, run);
    assert p.transactionIDs[i] in Elements(p.transactionIDs);
    UserMatches(e, p, p.work, run, i);
    StoredAlike(p.results[p.transactionIDs[i]].output, shots[i].output, e.ids.blockID(commit.block), p.height,
                e.ids.collectionID(p.transactionIDs));
  }

  // ---------------------------------------------------------------- the exact condition

  /** Whatever the system transactions do, each commit of this pending block is
      explained by a sequential run, if and only if the block, when it can be
      committed at all, replays its user transactions under its present header. */
  lemma SequentialExactly(e: Engine, c: Chain, hist: seq<Commit>)
    requires Inv(e, c, hist)
    ensures (forall f, dice, now | Alike(e, f) && Seal(f, c, dice, now).1.Sealed? ::
               Explained(f, c, Seal(f, c, dice, now).1.commit))
            <==> (Committable(c.pending) ==> Replays(e, c))
  {
    hide Inv, Alike, Seal, Explained, Replays, Committable;
    if Committable(c.pending) ==> Replays(e, c) {
      forall f, dice, now | Alike(e, f) && Seal(f, c, dice, now).1.Sealed?
        ensures Explained(f, c, Seal(f, c, dice, now).1.commit)
      {
        SealedIsExplained(e, f, c, hist, dice, now);
      }
    }
    if Committable(c.pending) && forall f, dice, now | Alike(e, f) && Seal(f, c, dice, now).1.Sealed? ::
         Explained(f, c, Seal(f, c, dice, now).1.commit)
    {
      SilentIsAlike(e);
      SilentSeals(e, c, hist);
      assert Explained(Silent(e), c, Seal(Silent(e), c, 0, 0).1.commit);
      SilentReplays(e, c, hist);
    }
  }

  lemma SealedIsExplained(e: Engine, f: Engine, c: Chain, hist: seq<Commit>, dice: nat, now: nat)
    requires Inv(e, c, hist) && Alike(e, f) && Seal(f, c, dice, now).1.Sealed?
    requires Committable(c.pending) ==> Replays(e, c)
    ensures Explained(f, c, Seal(f, c, dice, now).1.commit)
  {
    hide Inv, Alike, Seal, Attempt, Replays, Faithful, NoDuplicates;
    SameInv(e, f, c, hist);
    SealSucceeds(f, c, hist, dice, now);
    SameReplays(e, f, c);
    var callbacks, shots := SealIsFaithful(f, c, hist, dice, now);
  }

  lemma SilentReplays(e: Engine, c: Chain, hist: seq<Commit>)
    requires Inv(e, c, hist) && Committable(c.pending)
    requires Explained(Silent(e), c, Record(e.ids, c.pending, c.pending.work, SilentRun(e, |c.pending.transactions|)))
    ensures Replays(e, c)
  {
    hide Inv, Faithful, Replays, Record, SilentRun, Silent;
    InvPending(e, c, hist);
    var commit := Record(e.ids, c.pending, c.pending.work, SilentRun(e, |c.pending.transactions|));
    var callbacks, shots :| Faithful(Silent(e), c.entropy, c.Base(), commit, callbacks, shots);
    ExplainedReplays(e, c, callbacks, shots);
  }
}
