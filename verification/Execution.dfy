/** A committed block is the sequential run of its transactions: registers,
    events and results all come from one replay. */
module Execution {
  import opened Types
  import opened Tables
  import opened Storage
  import opened Pending
  import opened Chain
  import opened Invariants
  import opened Runs
  import opened Delivery
  import opened Replay

  function BodiesOf(ids: seq<Identifier>, bodies: map<Identifier, TransactionBody>): (txs: seq<TransactionBody>)
    ensures |txs| == |ids|
    ensures forall i | 0 <= i < |ids| && ids[i] in bodies :: txs[i] == bodies[ids[i]]
  {
    seq(|ids|, i requires 0 <= i < |ids| => if ids[i] in bodies then bodies[ids[i]] else TransactionBody([]))
  }

  // ---------------------------------------------------------------- the pending block as a replay

  /** The pending block holds exactly what running its first `index` transactions
      from `base` produces. */
  ghost predicate CleanWith(e: Engine, context: Context, base: Ledger, p: Pending, shots: seq<Shot>) {
    && p.index <= |p.transactionIDs| && |shots| == p.index
    && Sequentially(e, base, 0, JobsOf(context, BodiesOf(p.transactionIDs[..p.index], p.transactions))) == Some(shots)
    && p.work == Work(AllWrites(shots), AllEvents(shots))
    && forall i | 0 <= i < p.index ::
         p.transactionIDs[i] in p.results && p.results[p.transactionIDs[i]] == IndexedResult(shots[i].output, i)
  }

  ghost predicate Clean(e: Engine, context: Context, base: Ledger, p: Pending) {
    exists shots :: CleanWith(e, context, base, p, shots)
  }

  /** Before execution starts, clean means that nothing was produced yet. */
  lemma CleanAtStart(e: Engine, context: Context, base: Ledger, p: Pending)
    requires p.index == 0
    ensures Clean(e, context, base, p) <==> p.work == Work(map[], [])
  {
    assert p.transactionIDs[..0] == [];
    assert JobsOf(context, BodiesOf([], p.transactions)) == [];
    if p.work == Work(map[], []) {
      assert CleanWith(e, context, base, p, []);
    }
    if Clean(e, context, base, p) {
      var shots :| CleanWith(e, context, base, p, shots);
      assert shots == [];
    }
  }

  lemma ExecuteNextClean(e: Engine, context: Context, base: Ledger, p: Pending)
    requires p.WellFormed(e.ids) && p.index < |p.transactionIDs| && Clean(e, context, base, p)
    ensures p.transactionIDs[p.index] in p.transactions
    ensures var (q, execution) := ExecuteNext(e, context, base, p);
            execution != Failed ==> Clean(e, context, base, q)
  {
    ExecuteNextWellFormed(e, context, base, p);
    var (q, execution) := ExecuteNext(e, context, base, p);
    if execution != Failed {
      var shots :| CleanWith(e, context, base, p, shots);
      CleanSnoc(e, context, base, p, shots);
    }
  }

  lemma OneMoreJob(context: Context, ids: seq<Identifier>, bodies: map<Identifier, TransactionBody>, n: nat)
    requires n < |ids| && ids[n] in bodies
    ensures JobsOf(context, BodiesOf(ids[..n], bodies)) + [Job(context, bodies[ids[n]])] ==
            JobsOf(context, BodiesOf(ids[..n + 1], bodies))
  {}

  lemma CleanSnoc(e: Engine, context: Context, base: Ledger, p: Pending, shots: seq<Shot>)
    requires p.WellFormed(e.ids) && p.index < |p.transactionIDs| && CleanWith(e, context, base, p, shots)
    requires p.transactionIDs[p.index] in p.transactions && ExecuteNext(e, context, base, p).1 != Failed
    ensures Clean(e, context, base, ExecuteNext(e, context, base, p).0)
  {
    hide Sequentially, StateAfter, AllEvents, JobsOf, BodiesOf;
    var n, ids := p.index, p.transactionIDs;
    var tx, q := p.transactions[ids[n]], ExecuteNext(e, context, base, p).0;
    var Ran(output, writes) := e.vm(context, tx, n, base + p.work.writes);
    var shot := Shot(output, writes);
    var jobs := JobsOf(context, BodiesOf(ids[..n], p.transactions));
    StateIsStartPlusWrites(base, shots);
    SequentiallySnoc(e, base, 0, jobs, shots, Job(context, tx), shot);
    StateAfterSnoc(map[], shots, shot);
    OneMoreJob(context, ids, p.transactions, n);
    forall i | 0 <= i < n + 1
      ensures ids[i] in q.results && q.results[ids[i]] == IndexedResult((shots + [shot])[i].output, i)
    {
      if i < n { assert ids[i] != ids[n]; }
    }
    assert CleanWith(e, context, base, q, shots + [shot]);
  }

  /** Two outputs that are stored alike: the message counts only for an error. */
  predicate SameStored(a: Output, b: Output) {
    && a.errorCode == b.errorCode && (a.errorCode != 0 ==> a.errorMessage == b.errorMessage)
    && a.logs == b.logs && a.events == b.events
  }

  /** The pending block holds the writes and events of running all its
      transactions from `base`, and results that are stored as theirs. */
  ghost predicate ReplayOf(e: Engine, context: Context, base: Ledger, p: Pending, users: seq<Shot>) {
    && |users| == |p.transactionIDs|
    && Sequentially(e, base, 0, JobsOf(context, BodiesOf(p.transactionIDs, p.transactions))) == Some(users)
    && p.work == Work(AllWrites(users), AllEvents(users))
    && forall i | 0 <= i < |users| ::
         p.transactionIDs[i] in p.results && SameStored(p.results[p.transactionIDs[i]].output, users[i].output)
  }

  /** The pending block replays its transactions under its present header. */
  ghost predicate Replays(e: Engine, c: Chain) {
    exists users :: ReplayOf(e, UserContext(e, c), c.Base(), c.pending, users)
  }

  lemma CleanReplays(e: Engine, context: Context, base: Ledger, p: Pending, shots: seq<Shot>)
    requires CleanWith(e, context, base, p, shots) && p.index == |p.transactionIDs|
    ensures ReplayOf(e, context, base, p, shots)
  {
    hide Sequentially, StateAfter, AllEvents;
    assert p.transactionIDs[..p.index] == p.transactionIDs;
  }

  /** A pending block holds a replay of its transactions, or is poisoned. */
  ghost predicate Tidy(e: Engine, c: Chain) {
    Poisoned(c.pending) || Clean(e, UserContext(e, c), c.Base(), c.pending)
  }

  lemma {:induction false} ExecuteRestTidy(e: Engine, context: Context, base: Ledger, p: Pending)
    requires p.WellFormed(e.ids) && (Poisoned(p) || Clean(e, context, base, p))
    ensures var q := ExecuteRest(e, context, base, p).0; Poisoned(q) || Clean(e, context, base, q)
    decreases |p.transactionIDs| - p.index
  {
    hide ExecuteNext, Poisoned, Clean;
    if !p.ExecutionComplete() {
      ExecuteNextTidy(e, context, base, p);
      var (q, execution) := ExecuteNext(e, context, base, p);
      if execution.Succeeded? {
        ExecuteRestTidy(e, context, base, q);
      }
    }
  }

  lemma ExecuteNextTidy(e: Engine, context: Context, base: Ledger, p: Pending)
    requires p.WellFormed(e.ids) && p.index < |p.transactionIDs| && (Poisoned(p) || Clean(e, context, base, p))
    ensures p.transactionIDs[p.index] in p.transactions
    ensures var q := ExecuteNext(e, context, base, p).0;
            && (Poisoned(q) || Clean(e, context, base, q))
            && q.WellFormed(e.ids) && q.index == p.index + 1 && q.transactionIDs == p.transactionIDs
  {
    hide ExecuteNext, Poisoned, Clean;
    ExecuteNextWellFormed(e, context, base, p);
    FailurePoisons(e, context, base, p);
    if Poisoned(p) { ExecutePoisoned(e, context, base, p); } else { ExecuteNextClean(e, context, base, p); }
  }

  // ---------------------------------------------------------------- a committed block as a replay

  /** Every transaction of a block, in execution order. */
  function Listed(c: Commit): (ids: seq<Identifier>) { UserIDs(c) + c.systemIDs }

  function BlockJobs(e: Engine, entropy: Identifier, c: Commit, callbacks: seq<TransactionBody>): (jobs: seq<Job>) {
    JobsOf(Context(c.block, entropy, UserTransaction), BodiesOf(UserIDs(c), c.transactions))
    + SystemJobs(e, c.block, entropy, callbacks)
  }

  /** The result stored for the i-th transaction of a block. */
  function ListedResult(c: Commit, i: nat): (r: Option<StorableResult>)
    requires i < |Listed(c)|
  {
    var id := Listed(c)[i];
    if i < |UserIDs(c)| then (if id in c.results then Some(c.results[id]) else None)
    else if id in c.systemResults then Some(c.systemResults[id]) else None
  }

  /** Position by position, the block lists the transaction that was run there
      and stores the result of that run. */
  ghost predicate Matches(e: Engine, c: Commit, jobs: seq<Job>, shots: seq<Shot>) {
    && |shots| == |jobs| == |Listed(c)|
    && (forall i | 0 <= i < |jobs| :: Listed(c)[i] == e.ids.transactionID(jobs[i].tx))
    && (forall i | 0 <= i < |jobs| ::
          ListedResult(c, i) ==
          Some(ToStorable(shots[i].output, e.ids.blockID(c.block), c.block.height,
                          if i < |UserIDs(c)| then e.ids.collectionID(UserIDs(c)) else ZERO_ID)))
  }

  /** Registers, events and results of the block are those of running its
      transactions one after the other from `base`: the user transactions in
      submission order, then the process transaction, the callbacks it announced
      and the system chunk, each given its position as index. */
  ghost predicate Faithful(e: Engine, entropy: Identifier, base: Ledger, c: Commit,
                           callbacks: seq<TransactionBody>, shots: seq<Shot>) {
    var jobs, n := BlockJobs(e, entropy, c, callbacks), |UserIDs(c)|;
    && Sequentially(e, base, 0, jobs) == Some(shots)
    && Matches(e, c, jobs, shots) && n < |shots|
    && (e.scheduledEnabled ==> e.callbacks(shots[n].output.events) == Some(callbacks))
    && c.writes == AllWrites(shots) && c.events == AllEvents(shots)
  }

  lemma UserMatches(e: Engine, p: Pending, work: Work, run: SystemRun, i: nat)
    requires p.WellFormed(e.ids) && i < |p.transactionIDs| && p.transactionIDs[i] in p.results
    ensures p.transactionIDs[i] in p.transactions
    ensures e.ids.transactionID(p.transactions[p.transactionIDs[i]]) == p.transactionIDs[i]
    ensures var commit := Record(e.ids, p, work, run);
            && UserIDs(commit) == p.transactionIDs && Listed(commit) == p.transactionIDs + run.order
            && ListedResult(commit, i) ==
               Some(ToStorable(p.results[p.transactionIDs[i]].output, e.ids.blockID(commit.block), p.height,
                               e.ids.collectionID(p.transactionIDs)))
  {
    hide ToStorable;
    assert p.transactionIDs[i] in Elements(p.transactionIDs);
  }

  lemma SystemMatches(e: Engine, p: Pending, work: Work, run: SystemRun, k: nat)
    requires k < |run.order| && run.order[k] in run.results
    ensures var commit := Record(e.ids, p, work, run);
            && UserIDs(commit) == p.transactionIDs && Listed(commit) == p.transactionIDs + run.order
            && ListedResult(commit, |p.transactionIDs| + k) ==
               Some(ToStorable(run.results[run.order[k]].output, e.ids.blockID(commit.block), p.height, ZERO_ID))
  {
    hide ToStorable;
  }

  lemma RecordMatches(e: Engine, context: Context, base: Ledger, p: Pending, work: Work, run: SystemRun,
                      users: seq<Shot>, b: seq<Job>, system: seq<Shot>)
    requires p.WellFormed(e.ids) && NoDuplicates(run.order)
    requires ReplayOf(e, context, base, p, users)
    requires Records(e.ids, run, |p.transactions|, b, system)
    ensures Matches(e, Record(e.ids, p, work, run),
                    JobsOf(context, BodiesOf(p.transactionIDs, p.transactions)) + b, users + system)
  {
    hide Sequentially, StateAfter, AllEvents, Record, ListedResult, ToStorable, Listed, UserIDs, Records, ReplayOf;
    var n, commit := |p.transactionIDs|, Record(e.ids, p, work, run);
    var jobs, shots := JobsOf(context, BodiesOf(p.transactionIDs, p.transactions)) + b, users + system;
    RecordIs(e.ids, p, work, run);
    RecordLists(e, p, work, run);
    RecordsLength(e.ids, run, |p.transactions|, b, system);
    assert |users| == n by { ReplayLength(e, context, base, p, users); }
    forall i | 0 <= i < |jobs|
      ensures Listed(commit)[i] == e.ids.transactionID(jobs[i].tx)
      ensures ListedResult(commit, i) ==
              Some(ToStorable(shots[i].output, e.ids.blockID(commit.block), commit.block.height,
                              if i < n then e.ids.collectionID(p.transactionIDs) else ZERO_ID))
    {
      if i < n {
        UserMatchesRun(e, context, base, p, work, run, users, i);
      } else {
        SystemMatchesRun(e, p, work, run, b, system, i - n);
      }
    }
  }

  lemma ReplayLength(e: Engine, context: Context, base: Ledger, p: Pending, users: seq<Shot>)
    requires ReplayOf(e, context, base, p, users)
    ensures |users| == |p.transactionIDs|
  {}

  lemma UserMatchesRun(e: Engine, context: Context, base: Ledger, p: Pending, work: Work, run: SystemRun,
                       users: seq<Shot>, i: nat)
    requires p.WellFormed(e.ids) && i < |p.transactionIDs| && ReplayOf(e, context, base, p, users)
    ensures var commit, jobs := Record(e.ids, p, work, run), JobsOf(context, BodiesOf(p.transactionIDs, p.transactions));
            && Listed(commit) == p.transactionIDs + run.order
            && p.transactionIDs[i] == e.ids.transactionID(jobs[i].tx)
            && ListedResult(commit, i) ==
               Some(ToStorable(users[i].output, e.ids.blockID(commit.block), p.height, e.ids.collectionID(p.transactionIDs)))
  {
    hide Sequentially, StateAfter, AllEvents, Record, ListedResult, Listed, UserIDs;
    UserMatches(e, p, work, run, i);
  }

  lemma SystemMatchesRun(e: Engine, p: Pending, work: Work, run: SystemRun, b: seq<Job>, system: seq<Shot>, k: nat)
    requires Records(e.ids, run, |p.transactions|, b, system) && NoDuplicates(run.order) && k < |b|
    ensures var commit := Record(e.ids, p, work, run);
            && Listed(commit) == p.transactionIDs + run.order
            && run.order[k] == e.ids.transactionID(b[k].tx)
            && ListedResult(commit, |p.transactionIDs| + k) ==
               Some(ToStorable(system[k].output, e.ids.blockID(commit.block), p.height, ZERO_ID))
  {
    hide Record, ListedResult, ToStorable, Listed, UserIDs;
    SystemMatches(e, p, work, run, k);
  }

  lemma RecordLists(e: Engine, p: Pending, work: Work, run: SystemRun)
    ensures UserIDs(Record(e.ids, p, work, run)) == p.transactionIDs
    ensures Listed(Record(e.ids, p, work, run)) == p.transactionIDs + run.order
  {
    hide ToSealed;
  }

  lemma RunsJoin(e: Engine, base: Ledger, a: seq<Job>, b: seq<Job>, users: seq<Shot>, system: seq<Shot>,
                 before: Work, after: Work)
    requires Sequentially(e, base, 0, a) == Some(users) && before == Work(AllWrites(users), AllEvents(users))
    requires Sequentially(e, base + before.writes, |a|, b) == Some(system) && Adds(before, after, system)
    ensures Sequentially(e, base, 0, a + b) == Some(users + system)
    ensures after == Work(AllWrites(users + system), AllEvents(users + system))
  {
    hide Sequentially, StateAfter, AllEvents;
    StateIsStartPlusWrites(base, users);
    SequentiallyJoin(e, base, 0, a, b, users, system);
    StateAfterJoin(map[], users, system);
    StateIsStartPlusWrites(AllWrites(users), system);
  }

  /** The jobs of a record are those of the pending block and of the system run. */
  lemma RecordJobs(e: Engine, c: Chain, work: Work, run: SystemRun, callbacks: seq<TransactionBody>)
    ensures var p, commit := c.pending, Record(e.ids, c.pending, work, run);
            && BlockJobs(e, c.entropy, commit, callbacks) ==
               JobsOf(UserContext(e, c), BodiesOf(p.transactionIDs, p.transactions))
               + SystemJobs(e, p.ToBlock(e.ids), c.entropy, callbacks)
            && UserIDs(commit) == p.transactionIDs && commit.writes == work.writes && commit.events == work.events
  {
    hide BodiesOf, JobsOf, SystemJobs, ToSealed;
  }

  /** The system transactions of a commit, run after its user transactions. */
  ghost predicate SystemPart(e: Engine, c: Chain, work: Work, run: SystemRun,
                             callbacks: seq<TransactionBody>, system: seq<Shot>) {
    var jobs := SystemJobs(e, c.pending.ToBlock(e.ids), c.entropy, callbacks);
    && |system| == |jobs|
    && (e.scheduledEnabled ==> e.callbacks(system[0].output.events) == Some(callbacks))
    && Sequentially(e, c.Base() + c.pending.work.writes, |c.pending.transactions|, jobs) == Some(system)
    && Adds(c.pending.work, work, system) && Records(e.ids, run, |c.pending.transactions|, jobs, system)
  }

  lemma RecordRuns(e: Engine, c: Chain, work: Work, run: SystemRun,
                   users: seq<Shot>, callbacks: seq<TransactionBody>, system: seq<Shot>)
    requires c.pending.WellFormed(e.ids) && ReplayOf(e, UserContext(e, c), c.Base(), c.pending, users)
    requires SystemPart(e, c, work, run, callbacks, system)
    ensures Sequentially(e, c.Base(), 0, BlockJobs(e, c.entropy, Record(e.ids, c.pending, work, run), callbacks)) ==
            Some(users + system)
    ensures work == Work(AllWrites(users + system), AllEvents(users + system))
  {
    hide LedgerAt, Sequentially, StateAfter, AllEvents, Adds, Records, BodiesOf, JobsOf, SystemJobs, BlockJobs, Record,
         UserIDs;
    var p := c.pending;
    SizeOfTransactions(e.ids, p);
    RecordJobs(e, c, work, run, callbacks);
    RunsJoin(e, c.Base(), JobsOf(UserContext(e, c), BodiesOf(p.transactionIDs, p.transactions)),
             SystemJobs(e, p.ToBlock(e.ids), c.entropy, callbacks), users, system, p.work, work);
  }

  lemma RecordIsFaithful(e: Engine, c: Chain, work: Work, run: SystemRun,
                         users: seq<Shot>, callbacks: seq<TransactionBody>, system: seq<Shot>)
    requires c.pending.WellFormed(e.ids) && NoDuplicates(run.order)
    requires ReplayOf(e, UserContext(e, c), c.Base(), c.pending, users)
    requires SystemPart(e, c, work, run, callbacks, system)
    ensures Faithful(e, c.entropy, c.Base(), Record(e.ids, c.pending, work, run), callbacks, users + system)
  {
    hide LedgerAt, Sequentially, StateAfter, AllEvents, Adds, Records, Matches, BodiesOf, JobsOf, BlockJobs, Record,
         UserIDs, ReplayOf, NoDuplicates;
    var p, context := c.pending, UserContext(e, c);
    var jobs := SystemJobs(e, p.ToBlock(e.ids), c.entropy, callbacks);
    ReplayLength(e, context, c.Base(), p, users);
    RecordJobs(e, c, work, run, callbacks);
    RecordRuns(e, c, work, run, users, callbacks, system);
    RecordMatches(e, context, c.Base(), p, work, run, users, jobs, system);
  }

  lemma SizeOfTransactions(ids: Hashes, p: Pending)
    requires p.WellFormed(ids)
    ensures |p.transactions| == |p.transactionIDs|
  {
    DistinctByCardinality(p.transactionIDs);
    assert |p.transactions| == |p.transactions.Keys|;
  }

  /** A tidy pending block that can be committed replays its transactions. */
  lemma TidyReplays(e: Engine, c: Chain, hist: seq<Commit>, dice: nat, now: nat)
    requires Inv(e, c, hist) && Tidy(e, c) && Seal(e, c, dice, now).1.Sealed?
    ensures Replays(e, c)
  {
    hide Inv, Seal, Attempt, LedgerAt, Poisoned, NoDuplicates, CleanWith, ReplayOf;
    var p := c.pending;
    InvPending(e, c, hist);
    SealSucceeds(e, c, hist, dice, now);
    if Poisoned(p) { PoisonedLacksResult(e.ids, p); }
    var users :| CleanWith(e, UserContext(e, c), c.Base(), p, users);
    CleanReplays(e, UserContext(e, c), c.Base(), p, users);
  }

  /** Committing a pending block that replays its transactions yields a faithful
      commit. */
  lemma SealIsFaithful(e: Engine, c: Chain, hist: seq<Commit>, dice: nat, now: nat)
    returns (callbacks: seq<TransactionBody>, shots: seq<Shot>)
    requires Inv(e, c, hist) && Replays(e, c) && Seal(e, c, dice, now).1.Sealed?
    ensures Faithful(e, c.entropy, c.Base(), Seal(e, c, dice, now).1.commit, callbacks, shots)
  {
    hide Inv, Seal, RunSystem, LedgerAt, Adds, Records, Sequentially, Faithful, NoDuplicates, ReplayOf, Record;
    InvPending(e, c, hist);
    SealSucceeds(e, c, hist, dice, now);
    SealCases(e, c, dice, now);
    var p := c.pending;
    var users :| ReplayOf(e, UserContext(e, c), c.Base(), p, users);
    var (work, run) := Attempt(e, c);
    var system;
    callbacks, system := SystemReplay(e, p.ToBlock(e.ids), c.entropy, c.Base(), |p.transactions|, p.work);
    RecordIsFaithful(e, c, work, run.value, users, callbacks, system);
    shots := users + system;
  }
}
