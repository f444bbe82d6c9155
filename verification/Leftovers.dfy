/** Two runs in which a committed block is not a sequential run: a commit retried
    after its system transactions failed, and a clock set during execution. */
module Leftovers {
  import opened Types
  import opened Tables
  import opened Storage
  import opened History
  import opened StoreQueries
  import opened Scheduled
  import opened Pending
  import opened Chain
  import opened Invariants
  import opened Runs
  import opened Safety
  import opened Delivery
  import opened Replay
  import opened Execution
  import opened Sequential
  import opened Conservation
  import opened Indexes

  // ---------------------------------------------------------------- a failed commit, retried

  const EMITTED := Event("emitted", 0, [])
  const PROCESS := TransactionBody([0])
  const CHUNK := TransactionBody([1])

  /** The process transaction emits an event and counts its runs in a register;
      the system chunk reverts after an odd first run. */
  function FlakyVM(context: Context, tx: TransactionBody, index: nat, ledger: Ledger): (r: RunResult) {
    if context.kind == SystemChunk then
      Ran(Output(if "runs" in ledger && ledger["runs"] == [1] then 1 else 0, "", [], []), map[])
    else
      Ran(Output(0, "", [], [EMITTED]), map["runs" := if "runs" in ledger then [2] else [1]])
  }

  function Flaky(ids: Hashes): (e: Engine) {
    Engine(ids, FlakyVM, output => true, PROCESS, CHUNK, events => Some([]),
           Announcement("scheduled", payload => None), true, 0, map[], [])
  }

  lemma FlakyAttempt(ids: Hashes, header: Block, entropy: Identifier, base: Ledger, work: Work)
    requires ids.transactionID(PROCESS) != ids.transactionID(CHUNK)
    ensures var (after, run) := RunSystem(Flaky(ids), header, entropy, base, 0, work);
            var again := "runs" in base + work.writes;
            && after == Work(work.writes + map["runs" := if again then [2] else [1]], work.events + [EMITTED])
            && run.Some? == again
            && (again ==> run.value.order == [ids.transactionID(PROCESS), ids.transactionID(CHUNK)]
                          && run.value.results == map[
                               ids.transactionID(PROCESS) := IndexedResult(Output(0, "", [], [EMITTED]), 0),
                               ids.transactionID(CHUNK) := IndexedResult(Output(0, "", [], []), 1)])
  {
    var e := Flaky(ids);
    assert Announced(e.announcement, [EMITTED]) == Some([]) by {
      assert [EMITTED][..0] == [] && Announced(e.announcement, []) == Some([]);
    }
    assert work.events + [EMITTED] + [] == work.events + [EMITTED];
    var w := work.writes + map["runs" := if "runs" in base + work.writes then [2] else [1]];
    assert w + map[] == w;
  }

  lemma FlakyRecord(ids: Hashes, p: Pending, work: Work, run: SystemRun)
    requires ids.transactionID(PROCESS) != ids.transactionID(CHUNK) && p.transactionIDs == [] && p.results == map[]
    requires run.order == [ids.transactionID(PROCESS), ids.transactionID(CHUNK)]
    requires run.results == map[
               ids.transactionID(PROCESS) := IndexedResult(Output(0, "", [], [EMITTED]), 0),
               ids.transactionID(CHUNK) := IndexedResult(Output(0, "", [], []), 1)]
    ensures ListedEvents(Record(ids, p, work, run)) == [EMITTED]
    ensures p.transactions == map[] ==> CommitCheck(Record(ids, p, work, run)) == None
    ensures var c := Record(ids, p, work, run); c.events == work.events && UserIDs(c) == [] && |c.systemIDs| == 2
  {
    var c := Record(ids, p, work, run);
    assert run.order[..1] == [run.order[0]] && run.order[..1][..0] == [];
    assert EventsOf(c.systemResults, run.order[..1]) == [EMITTED];
    assert EventsOf(c.systemResults, run.order) == [EMITTED];
    assert |c.systemResults.Keys| == |c.systemResults|;
    assert c.systemResults.Keys == {ids.transactionID(PROCESS), ids.transactionID(CHUNK)};
  }

  lemma FirstTryFails(ids: Hashes, c: Chain, dice: nat, now: nat)
    requires ids.transactionID(PROCESS) != ids.transactionID(CHUNK)
    requires c.pending.Empty() && c.pending.transactions == map[] && c.pending.index == 0
    requires "runs" !in c.Base() + c.pending.work.writes
    ensures var (d, outcome) := Seal(Flaky(ids), c, dice, now);
            && outcome.Abandoned? && d == c.(pending := c.pending.(work := d.pending.work))
            && d.pending.work == Work(c.pending.work.writes + map["runs" := [1]], c.pending.work.events + [EMITTED])
  {
    hide RunSystem, Flaky, LedgerAt, Committed, Indexed, Fresh, CommitCheck, Record;
    assert Flaky(ids).ids == ids by { FlakyIDs(ids); }
    assert |c.pending.transactions| == 0;
    FlakyAttempt(ids, c.pending.ToBlock(ids), c.entropy, c.Base(), c.pending.work);
    var (work, run) := RunSystem(Flaky(ids), c.pending.ToBlock(ids), c.entropy, c.Base(), 0, c.pending.work);
    assert run.None?;
    assert Attempt(Flaky(ids), c) == (work, run);
  }

  lemma FlakyIDs(ids: Hashes)
    ensures Flaky(ids).ids == ids && Flaky(ids).genesisWrites == map[]
  {}

  lemma SecondTrySeals(ids: Hashes, c: Chain, dice: nat, now: nat)
    requires ids.transactionID(PROCESS) != ids.transactionID(CHUNK)
    requires c.pending.Empty() && c.pending.transactions == map[] && c.pending.results == map[] && c.pending.index == 0
    requires "runs" in c.Base() + c.pending.work.writes
    ensures var outcome := Seal(Flaky(ids), c, dice, now).1;
            && outcome.Sealed? && outcome.commit.events == c.pending.work.events + [EMITTED]
            && ListedEvents(outcome.commit) == [EMITTED]
            && UserIDs(outcome.commit) == [] && |outcome.commit.systemIDs| == 2
  {
    hide RunSystem, Flaky, LedgerAt, Committed, Indexed, Fresh, CommitCheck, ListedEvents, Record, UserIDs;
    assert Flaky(ids).ids == ids by { FlakyIDs(ids); }
    assert |c.pending.transactions| == 0;
    FlakyAttempt(ids, c.pending.ToBlock(ids), c.entropy, c.Base(), c.pending.work);
    var (work, run) := RunSystem(Flaky(ids), c.pending.ToBlock(ids), c.entropy, c.Base(), 0, c.pending.work);
    FlakyRecord(ids, c.pending, work, run.value);
  }

  /** Conservation of events does fail after a failed commit, and sequential
      execution with it: a chain whose system chunk reverts once commits its first
      block with the process transaction's event stored twice and listed once, which
      no run of the block's transactions one after the other explains. */
  lemma RetryDuplicatesEvents(ids: Hashes, dice: nat, now: nat)
    requires ids.Injective()
    ensures var log := Run(Flaky(ids), dice, now, [CommitBlock(dice, now), CommitBlock(dice, now)]).1;
            && log[0].Abandoned? && log[1].Sealed?
            && log[1].commit.events == [EMITTED, EMITTED] && ListedEvents(log[1].commit) == [EMITTED]
            && forall entropy, base, callbacks, shots ::
                 !Faithful(Flaky(ids), entropy, base, log[1].commit, callbacks, shots)
  {
    var e, steps := Flaky(ids), [CommitBlock(dice, now), CommitBlock(dice, now)];
    hide Flaky, Inv, Seal, LedgerAt, ListedEvents, Start, Standing, Faithful;
    assert PROCESS != CHUNK;
    FlakyIDs(ids);
    StartInv(e, dice, now);
    var c, hist := Start(e, dice, now), [GenesisCommit(e)];
    FlakyStart(ids, dice, now);
    assert steps[..1] == [steps[0]] && [steps[0]][..0] == [];
    LastStep(e, c, hist, steps);
    LastStep(e, c, hist, steps[..1]);
    FirstTryFails(ids, c, dice, now);
    SecondTrySeals(ids, Seal(e, c, dice, now).0, dice, now);
    var commit := Seal(e, Seal(e, c, dice, now).0, dice, now).1.commit;
    forall entropy, base, callbacks, shots ensures !Faithful(e, entropy, base, commit, callbacks, shots) {
      RetryIsNotSequential(ids, entropy, base, commit, callbacks, shots);
    }
  }

  lemma FlakyStart(ids: Hashes, dice: nat, now: nat)
    requires ids.Injective()
    ensures var c := Start(Flaky(ids), dice, now);
            c.Base() == map[] && c.pending.Empty() && c.pending.transactions == map[] && c.pending.results == map[]
            && c.pending.index == 0 && c.pending.work == Work(map[], [])
  {
    var e := Flaky(ids);
    FlakyIDs(ids);
    hide Flaky, Inv, LedgerAt, Committed;
    StartInv(e, dice, now);
    BaseIsTip(e, Start(e, dice, now), [GenesisCommit(e)]);
    assert RegistersAt([GenesisCommit(e)], 0) == map[];
  }

  lemma RetryIsNotSequential(ids: Hashes, entropy: Identifier, base: Ledger, c: Commit,
                             callbacks: seq<TransactionBody>, shots: seq<Shot>)
    requires c.events == [EMITTED, EMITTED] && |Listed(c)| == 2 && UserIDs(c) == []
    ensures !Faithful(Flaky(ids), entropy, base, c, callbacks, shots)
  {
    hide StateAfter, Sequentially, AllWrites, ListedResult;
    var e := Flaky(ids);
    var jobs := BlockJobs(e, entropy, c, callbacks);
    if Faithful(e, entropy, base, c, callbacks, shots) {
      EachRun(e, base, 0, jobs, shots, 0);
      EachRun(e, base, 0, jobs, shots, 1);
      TwoShots(shots);
    }
  }

  lemma TwoShots(shots: seq<Shot>)
    requires |shots| == 2
    ensures AllEvents(shots) == shots[0].output.events + shots[1].output.events
  {
    assert shots[..1][..0] == [] && AllEvents(shots[..1]) == shots[0].output.events;
  }

  // ---------------------------------------------------------------- a clock set during execution

  const ASKING := TransactionBody([2])

  function Told(time: nat): (event: Event) { Event("time", 0, [if time == 0 then 0 else 1]) }

  function Telling(time: nat): (output: Output) { Output(0, "", [], [Told(time)]) }

  /** User transactions tell the time of their block; the system chunk does
      nothing. */
  function WatchVM(context: Context, tx: TransactionBody, index: nat, ledger: Ledger): (r: RunResult) {
    Ran(if context.kind == UserTransaction then Telling(context.header.timestamp) else Output(0, "", [], []), map[])
  }

  function Watch(ids: Hashes): (e: Engine) {
    Engine(ids, WatchVM, output => true, PROCESS, CHUNK, events => Some([]),
           Announcement("scheduled", payload => None), false, 0, map[], [])
  }

  lemma WatchIDs(ids: Hashes)
    ensures Watch(ids).ids == ids
  {}

  /** The pending block after one transaction was added and executed at time 0. */
  ghost predicate Asked(ids: Hashes, p: Pending) {
    var id := ids.transactionID(ASKING);
    && p.transactionIDs == [id] && p.transactions == map[id := ASKING] && p.index == 1
    && p.results == map[id := IndexedResult(Telling(0), 0)] && p.work.events == [Told(0)]
  }

  lemma AddsAndRuns(ids: Hashes, c: Chain, hist: seq<Commit>)
    requires var e := Watch(ids); Inv(e, c, hist) && hist == [GenesisCommit(e)]
    requires c.pending.timestamp == 0 && c.pending.transactionIDs == [] && c.pending.transactions == map[]
    requires c.pending.results == map[]
    requires c.pending.index == 0 && c.pending.work == Work(map[], [])
    ensures var (d, accepted) := Add(Watch(ids), c, ASKING, true);
            && accepted.Accepted? && d.pending.WellFormed(ids)
            && Asked(ids, RunOne(Watch(ids), d).0.pending)
  {
    var e := Watch(ids);
    hide Inv, Answer, LedgerAt, BodyIn;
    AddKeeps(e, c, hist, ASKING, true);
    Answers(e, c, hist, TransactionByID(ids.transactionID(ASKING)));
    GenesisHasNoBody(e, ids.transactionID(ASKING));
    var d := Add(e, c, ASKING, true).0;
    InvPending(e, d, hist);
    assert d.pending.transactionIDs == [ids.transactionID(ASKING)];
  }

  lemma GenesisHasNoBody(e: Engine, id: Identifier)
    ensures BodyIn([GenesisCommit(e)], id) == None
  {
    assert [GenesisCommit(e)][..0] == [];
  }

  lemma AskedSeals(ids: Hashes, c: Chain, hist: seq<Commit>, dice: nat, now: nat)
    requires Inv(Watch(ids), c, hist) && Asked(ids, c.pending)
    ensures var outcome := Seal(Watch(ids), c, dice, now).1;
            && outcome.Sealed? && outcome.commit.events == [Told(0)]
            && UserIDs(outcome.commit) == [ids.transactionID(ASKING)]
            && outcome.commit.block.timestamp == c.pending.timestamp
  {
    var e, p := Watch(ids), c.pending;
    WatchAttempt(ids, c);
    hide Inv, Seal, Attempt, Watch, ToSealed;
    WatchIDs(ids);
    SealSucceeds(e, c, hist, dice, now);
    SealCases(e, c, dice, now);
  }

  lemma WatchAttempt(ids: Hashes, c: Chain)
    ensures var (work, run) := Attempt(Watch(ids), c);
            && work.events == c.pending.work.events && run.Some? && NoDuplicates(run.value.order)
  {
    hide LedgerAt;
    assert c.pending.work.events + [] == c.pending.work.events;
  }

  /** In a sequential run the first event tells the time of the block itself. */
  lemma TellsOwnTime(ids: Hashes, entropy: Identifier, base: Ledger, c: Commit,
                     callbacks: seq<TransactionBody>, shots: seq<Shot>)
    requires Faithful(Watch(ids), entropy, base, c, callbacks, shots) && |UserIDs(c)| == 1
    ensures |c.events| > 0 && c.events[0] == Told(c.block.timestamp)
  {
    hide StateAfter, Sequentially, AllWrites, ListedResult, Told;
    var e := Watch(ids);
    var jobs := BlockJobs(e, entropy, c, callbacks);
    assert |jobs| == 2 && jobs[0].context == Context(c.block, entropy, UserTransaction);
    EachRun(e, base, 0, jobs, shots, 0);
    TwoShots(shots);
    assert shots[0].output.events == [Told(c.block.timestamp)];
  }

  lemma AskedIsNotSequential(ids: Hashes, entropy: Identifier, base: Ledger, c: Commit,
                             callbacks: seq<TransactionBody>, shots: seq<Shot>)
    requires c.events == [Told(0)] && |UserIDs(c)| == 1 && c.block.timestamp != 0
    ensures !Faithful(Watch(ids), entropy, base, c, callbacks, shots)
  {
    hide Faithful, Watch;
    assert Told(c.block.timestamp).payload[0] == 1 && Told(0).payload[0] == 0;
    if Faithful(Watch(ids), entropy, base, c, callbacks, shots) {
      TellsOwnTime(ids, entropy, base, c, callbacks, shots);
    }
  }

  /** Setting the clock after execution has started breaks sequential execution: a
      transaction runs at time 0, the clock is set to 1, and the block committed
      with time 1 holds an event that no run under its header emits. */
  lemma ClockBreaksSequence(ids: Hashes, dice: nat)
    requires ids.Injective()
    ensures var steps := [AddTransaction(ASKING, true), ExecuteNextTransaction, SetClock(1), CommitBlock(dice, 1)];
            var log := Run(Watch(ids), dice, 0, steps).1;
            && log[3].Sealed? && log[3].commit.events == [Told(0)] && log[3].commit.block.timestamp == 1
            && forall entropy, base, callbacks, shots ::
                 !Faithful(Watch(ids), entropy, base, log[3].commit, callbacks, shots)
  {
    var e, c, hist := Watch(ids), Start(Watch(ids), dice, 0), [GenesisCommit(Watch(ids))];
    var steps := [AddTransaction(ASKING, true), ExecuteNextTransaction, SetClock(1), CommitBlock(dice, 1)];
    WatchIDs(ids);
    hide Watch, Inv, Next, Seal, Start, Continue, Standing, Faithful, Asked;
    StartInv(e, dice, 0);
    assert steps[..3] == BEFORE_COMMIT;
    AskedAtCommit(ids, dice);
    LastStep(e, c, hist, steps);
    var (d, log) := Continue(e, c, hist, BEFORE_COMMIT);
    StepsAre(e, d, dice);
    AskedSeals(ids, d, Standing(hist, log), dice, 1);
    var commit := Seal(e, d, dice, 1).1.commit;
    forall entropy, base, callbacks, shots ensures !Faithful(e, entropy, base, commit, callbacks, shots) {
      AskedIsNotSequential(ids, entropy, base, commit, callbacks, shots);
    }
  }

  const BEFORE_COMMIT: seq<Step> := [AddTransaction(ASKING, true), ExecuteNextTransaction, SetClock(1)]

  lemma AskedAtCommit(ids: Hashes, dice: nat)
    requires ids.Injective()
    ensures Watch(ids).ids == ids && Inv(Watch(ids), Start(Watch(ids), dice, 0), [GenesisCommit(Watch(ids))])
    ensures var p := Continue(Watch(ids), Start(Watch(ids), dice, 0), [GenesisCommit(Watch(ids))], BEFORE_COMMIT).0.pending;
            Asked(ids, p) && p.timestamp == 1
  {
    var e, c, hist := Watch(ids), Start(Watch(ids), dice, 0), [GenesisCommit(Watch(ids))];
    WatchIDs(ids);
    hide Watch, Inv, RunOne, Add, Start, Continue, Standing, Asked;
    StartInv(e, dice, 0);
    WatchStart(ids, dice);
    AddsAndRuns(ids, c, hist);
    ThreeSteps(e, c, hist);
    RetimedIsAsked(ids, RunOne(e, Add(e, c, ASKING, true).0).0.pending);
  }

  lemma ThreeSteps(e: Engine, c: Chain, hist: seq<Commit>)
    requires Inv(e, c, hist)
    ensures var d := Add(e, c, ASKING, true).0;
            && d.pending.WellFormed(e.ids)
            && var ran := RunOne(e, d).0;
               Continue(e, c, hist, BEFORE_COMMIT).0 == ran.(pending := ran.pending.(timestamp := 1))
  {
    hide Inv, Next, RunOne, Add, Continue, Standing;
    var x, y, z := AddTransaction(ASKING, true), ExecuteNextTransaction, SetClock(1);
    assert [] + [x] == [x] && [x] + [y] == [x, y] && [x, y] + [z] == BEFORE_COMMIT;
    NoSteps(e, c, hist);
    Then(e, c, hist, [], x);
    StepsAre(e, c, 0);
    Then(e, c, hist, [x], y);
    StepsAre(e, Add(e, c, ASKING, true).0, 0);
    Then(e, c, hist, [x, y], z);
    StepsAre(e, RunOne(e, Add(e, c, ASKING, true).0).0, 0);
  }

  lemma Then(e: Engine, c: Chain, hist: seq<Commit>, steps: seq<Step>, step: Step)
    requires Inv(e, c, hist)
    ensures var d := Continue(e, c, hist, steps).0;
            d.pending.WellFormed(e.ids) && Continue(e, c, hist, steps + [step]).0 == Next(e, d, step).0
  {
    hide Inv, Next, Standing;
    assert (steps + [step])[..|steps|] == steps;
    LastStep(e, c, hist, steps + [step]);
  }

  lemma StepsAre(e: Engine, c: Chain, dice: nat)
    requires c.pending.WellFormed(e.ids)
    ensures Next(e, c, AddTransaction(ASKING, true)) == Add(e, c, ASKING, true)
    ensures Next(e, c, ExecuteNextTransaction) == RunOne(e, c)
    ensures Next(e, c, SetClock(1)).0 == c.(pending := c.pending.(timestamp := 1))
    ensures Next(e, c, CommitBlock(dice, 1)) == Seal(e, c, dice, 1)
  {
    hide Add, RunOne, Seal;
  }

  lemma NoSteps(e: Engine, c: Chain, hist: seq<Commit>)
    requires Inv(e, c, hist)
    ensures Continue(e, c, hist, []).0 == c
  {}

  lemma RetimedIsAsked(ids: Hashes, p: Pending)
    requires Asked(ids, p)
    ensures Asked(ids, p.(timestamp := 1))
  {}

  lemma WatchStart(ids: Hashes, dice: nat)
    ensures var p := Start(Watch(ids), dice, 0).pending;
            && p.timestamp == 0 && p.transactionIDs == [] && p.transactions == map[] && p.results == map[]
            && p.index == 0 && p.work == Work(map[], [])
  {
    hide Committed;
  }
}
