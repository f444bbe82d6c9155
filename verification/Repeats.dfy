/** Two runs in which scheduled lookups disagree: a number run in two standing
    blocks, and one whose stale entry hides the block that stands. */
module Repeats {
  import opened Types
  import opened Keys
  import opened Tables
  import opened Storage
  import opened StoreQueries
  import opened Scheduled
  import opened Pending
  import opened Chain
  import opened Invariants
  import opened Runs
  import opened Safety
  import opened Delivery
  import opened Lookups
  import opened ScheduledIndexes
  import opened ScheduledLookups
  import opened MemIndexes

  // ---------------------------------------------------------------- an engine that repeats itself

  const PROCESS := TransactionBody([0])
  const CHUNK := TransactionBody([1])
  const CALLBACK := TransactionBody([2])
  const ANNOUNCED := Event("scheduled", 0, [])
  const NUMBER: nat := 7

  /** The process transaction announces one callback; nothing else happens. */
  function RepeatVM(context: Context, tx: TransactionBody, index: nat, ledger: Ledger): (r: RunResult) {
    Ran(Output(0, "", [], if tx == PROCESS then [ANNOUNCED] else []), map[])
  }

  function Repeating(ids: Hashes): (e: Engine) {
    Engine(ids, RepeatVM, output => true, PROCESS, CHUNK, events => Some([CALLBACK]),
           Announcement("scheduled", payload => Some(NUMBER)), true, 0, map[], [])
  }

  lemma RepeatIDs(ids: Hashes)
    ensures Repeating(ids).ids == ids
  {}

  lemma RepeatScheduled(ids: Hashes, context: Context, base: Ledger, first: nat, work: Work)
    ensures var r := RunScheduled(Repeating(ids), context, base, first, work).1;
            && r.Some? && r.value.order == [ids.transactionID(PROCESS), ids.transactionID(CALLBACK)]
            && r.value.scheduled == map[NUMBER := ids.transactionID(CALLBACK)]
  {
    hide Decimal, FromDecimal, Announced, RunCallbacks;
    var e, output := Repeating(ids), Output(0, "", [], [ANNOUNCED]);
    OneAnnounced(ids);
    var start := NO_SYSTEM_RUN.Adding(ids.transactionID(PROCESS), PROCESS, output, first);
    OneCallback(ids, context, base, first, work.Merging(output, map[]), start);
  }

  lemma OneCallback(ids: Hashes, context: Context, base: Ledger, first: nat, work: Work, run: SystemRun)
    requires run.order == [ids.transactionID(PROCESS)] && run.scheduled == map[]
    ensures var r := RunCallbacks(Repeating(ids), context, base, first, work, [CALLBACK], Printed([NUMBER]), 0, run).1;
            && r.Some? && r.value.order == [ids.transactionID(PROCESS), ids.transactionID(CALLBACK)]
            && r.value.scheduled == map[NUMBER := ids.transactionID(CALLBACK)]
  {
    hide Decimal, FromDecimal, ScanUint64;
    var e, output := Repeating(ids), Output(0, "", [], []);
    ScanOfDecimal(NUMBER);
    assert CALLBACK != PROCESS;
    var added := run.Adding(ids.transactionID(CALLBACK), CALLBACK, output, first + 1);
    var end := added.Numbering(Printed([NUMBER])[0], ids.transactionID(CALLBACK));
    assert RunCallbacks(e, context, base, first, work.Merging(output, map[]), [CALLBACK], Printed([NUMBER]), 1, end).1 ==
           Some(end);
  }

  lemma OneAnnounced(ids: Hashes)
    ensures Announced(Repeating(ids).announcement, [ANNOUNCED]) == Some([NUMBER])
  {
    var a := Repeating(ids).announcement;
    assert [ANNOUNCED][..0] == [] && Announced(a, []) == Some([]);
    assert [] + [NUMBER] == [NUMBER];
  }

  lemma RepeatSystem(ids: Hashes, header: Block, entropy: Identifier, base: Ledger, first: nat, work: Work)
    ensures var r := RunSystem(Repeating(ids), header, entropy, base, first, work).1;
            && r.Some?
            && r.value.order == [ids.transactionID(PROCESS), ids.transactionID(CALLBACK), ids.transactionID(CHUNK)]
            && r.value.scheduled == map[NUMBER := ids.transactionID(CALLBACK)]
  {
    hide RunScheduled;
    RepeatScheduled(ids, Context(header, entropy, ScheduledTransaction), base, first, work);
  }

  /** The block runs the number and has no user transactions. */
  ghost predicate Repeat(ids: Hashes, c: Commit) {
    NUMBER in c.scheduled && c.scheduled[NUMBER] == ids.transactionID(CALLBACK) && c.results == map[]
  }

  lemma RepeatSeals(ids: Hashes, c: Chain, hist: seq<Commit>, dice: nat, now: nat)
    requires Inv(Repeating(ids), c, hist) && c.pending.Empty()
    ensures var (d, outcome) := Seal(Repeating(ids), c, dice, now);
            && outcome.Sealed? && d.pending.Empty() && Repeat(ids, outcome.commit)
            && outcome.commit.block.height == |hist|
  {
    var e, p := Repeating(ids), c.pending;
    RepeatIDs(ids);
    hide Repeating, Inv, Seal, RunSystem, LedgerAt, ToSealed, GoodHistory;
    InvPending(e, c, hist);
    InvHistory(e, c, hist);
    HeldHeight(e, c, hist);
    assert p.transactionIDs[..p.index] == [];
    RepeatSystem(ids, p.ToBlock(ids), c.entropy, c.Base(), |p.transactions|, p.work);
    assert PROCESS.content[0] == 0 && CHUNK.content[0] == 1 && CALLBACK.content[0] == 2;
    SealSucceeds(e, c, hist, dice, now);
    SealCases(e, c, dice, now);
    SealedTakesPending(e, c, dice, now);
  }

  // ---------------------------------------------------------------- running it

  /** One more commit after a run that left the pending block empty. */
  lemma OneMoreRepeat(ids: Hashes, c: Chain, hist: seq<Commit>, steps: seq<Step>, dice: nat, now: nat)
    returns (commit: Commit)
    requires Inv(Repeating(ids), c, hist) && Continue(Repeating(ids), c, hist, steps).0.pending.Empty()
    ensures var e, more := Repeating(ids), steps + [CommitBlock(dice, now)];
            var before, after := Continue(e, c, hist, steps).1, Continue(e, c, hist, more).1;
            && Continue(e, c, hist, more).0.pending.Empty() && Repeat(ids, commit)
            && commit.block.height == |Standing(hist, before)|
            && Standing(hist, after) == Standing(hist, before) + [commit]
            && Made(hist, after) == Made(hist, before) + [commit]
  {
    hide Repeating, Inv, Seal, Continue, Standing, Made, Repeat;
    var e, more := Repeating(ids), steps + [CommitBlock(dice, now)];
    assert more[..|steps|] == steps;
    LastStep(e, c, hist, more);
    var (d, log) := Continue(e, c, hist, steps);
    RepeatSeals(ids, d, Standing(hist, log), dice, now);
    commit := Seal(e, d, dice, now).1.commit;
    MadeThen(hist, log, Sealed(commit));
    MadeOne(Made(hist, log), Sealed(commit));
  }

  /** A rollback leaves an empty pending block, and forgets nothing made. */
  lemma Undone(e: Engine, c: Chain, hist: seq<Commit>, steps: seq<Step>, height: nat, dice: nat, now: nat)
    requires Inv(e, c, hist) && height < |Standing(hist, Continue(e, c, hist, steps).1)| - 1
    ensures var more := steps + [RollbackToBlockHeight(height, dice, now)];
            var before, after := Continue(e, c, hist, steps).1, Continue(e, c, hist, more).1;
            && Continue(e, c, hist, more).0.pending.Empty()
            && Standing(hist, after) == Standing(hist, before)[..height + 1] && Made(hist, after) == Made(hist, before)
  {
    hide Inv, Prune, Continue, Standing, Made;
    var step := RollbackToBlockHeight(height, dice, now);
    assert (steps + [step])[..|steps|] == steps;
    LastStep(e, c, hist, steps + [step]);
    var (d, log) := Continue(e, c, hist, steps);
    PruneKeeps(e, d, Standing(hist, log), height, dice, now);
    MadeThen(hist, log, Pruned(height));
    MadeOne(Made(hist, log), Pruned(height));
  }

  lemma RepeatStart(ids: Hashes, dice: nat, now: nat)
    requires ids.Injective()
    ensures var e := Repeating(ids);
            var c, hist := Start(e, dice, now), [GenesisCommit(e)];
            && e.ids.Injective() && Inv(e, c, hist)
            && Continue(e, c, hist, []) == (c, []) && Standing(hist, []) == hist == Made(hist, []) && c.pending.Empty()
  {
    var e := Repeating(ids);
    RepeatIDs(ids);
    hide Repeating, Inv, Start, GenesisCommit;
    StartInv(e, dice, now);
    StartIsEmpty(e, dice, now);
  }

  /** Two commits: both blocks run the number. */
  lemma TwoCommits(ids: Hashes, dice: nat, now: nat) returns (a: Commit, b: Commit)
    requires ids.Injective()
    ensures var e, steps := Repeating(ids), [CommitBlock(dice, now), CommitBlock(dice, now)];
            var g := GenesisCommit(e);
            && e.ids.Injective()
            && var (c, log) := Run(e, dice, now, steps);
               && c.pending.Empty() && Standing([g], log) == [g, a, b] == Made([g], log)
               && Repeat(ids, a) && Repeat(ids, b) && a.block.height == 1 && b.block.height == 2
  {
    hide Repeating, Inv, Start, Continue, Standing, Made, Repeat, GenesisCommit;
    var e := Repeating(ids);
    RepeatStart(ids, dice, now);
    var c, hist, step := Start(e, dice, now), [GenesisCommit(e)], CommitBlock(dice, now);
    a := OneMoreRepeat(ids, c, hist, [], dice, now);
    assert [] + [step] == [step] && [step] + [step] == [step, step];
    b := OneMoreRepeat(ids, c, hist, [step], dice, now);
  }

  lemma CallbackRuns(ids: Hashes, c: Chain, hist: seq<Commit>, i: nat)
    requires Inv(Repeating(ids), c, hist) && i < |hist| && Repeat(ids, hist[i])
    ensures 0 < i && ids.transactionID(CALLBACK) in hist[i].systemResults
    ensures ids.transactionID(CALLBACK) !in StaticIDs(Repeating(ids))
  {
    hide Inv, Repeating, GoodHistory, StaticIDs;
    InvHistory(Repeating(ids), c, hist);
    ScheduledIsSystem(Repeating(ids), hist, i, NUMBER);
  }

  // ---------------------------------------------------------------- the runs

  /** The result of the number in block i is not the only answer by number, nor the
      only one by transaction. */
  ghost predicate Ambiguous(c: Chain, hist: seq<Commit>, i: nat)
    requires i < |hist| && NUMBER in hist[i].scheduled
  {
    forall result | ResultOf(hist, i, hist[i].scheduled[NUMBER], result) ::
      !Gives(c, ByNumber(NUMBER), result) && !Gives(c, ByTransaction(hist[i].scheduled[NUMBER]), result)
  }

  lemma RanTwice(ids: Hashes, c: Chain, hist: seq<Commit>, i: nat, j: nat)
    requires Inv(Repeating(ids), c, hist) && IndexKept(Repeating(ids), c.db, hist)
    requires i < |hist| && j < |hist| && i != j && Repeat(ids, hist[i]) && Repeat(ids, hist[j])
    requires forall k | 0 <= k < |hist| :: hist[k].results == map[]
    ensures Ambiguous(c, hist, i)
  {
    hide Inv, Repeating, GoodHistory, IndexKept, Gives, ResultOf, StaticIDs;
    var e := Repeating(ids);
    InvHistory(e, c, hist);
    GoodIsConsecutive(e, hist);
    HeightsMatch(hist, j);
    CallbackRuns(ids, c, hist, i);
    CallbackRuns(ids, c, hist, j);
    var id := ids.transactionID(CALLBACK);
    SystemIsNotPending(e, c, hist, i, id);
    NoUserResult(hist, id);
    forall result | ResultOf(hist, i, id, result)
      ensures !Gives(c, ByNumber(NUMBER), result) && !Gives(c, ByTransaction(id), result)
    {
      OtherNumber(e, c, hist, hist, i, j, NUMBER, result);
      OtherTransaction(e, c, hist, hist, i, j, id, result);
    }
  }

  lemma GenesisHasNoResult(e: Engine)
    ensures GenesisCommit(e).results == map[]
  {}

  lemma {:induction false} NoUserResult(hist: seq<Commit>, id: Identifier)
    requires forall k | 0 <= k < |hist| :: hist[k].results == map[]
    ensures ResultIn(hist, id) == None
  {
    if hist != [] { NoUserResult(hist[..|hist| - 1], id); }
  }

  /** Scheduled lookups do disagree when a number is run in two standing blocks: the
      result in one block is as good an answer as that in the other, whether asked
      by number or by transaction. */
  lemma RepeatedNumberIsAmbiguous(ids: Hashes, dice: nat, now: nat)
    requires ids.Injective()
    ensures var e, steps := Repeating(ids), [CommitBlock(dice, now), CommitBlock(dice, now)];
            && e.ids.Injective()
            && var (c, log) := Run(e, dice, now, steps);
               var hist := Standing([GenesisCommit(e)], log);
               && |hist| == 3 && NUMBER in hist[1].scheduled && NUMBER in hist[2].scheduled
               && Ambiguous(c, hist, 1) && Ambiguous(c, hist, 2)
  {
    var e, steps := Repeating(ids), [CommitBlock(dice, now), CommitBlock(dice, now)];
    hide Repeating, Inv, Run, Standing, Made, GenesisCommit, Ambiguous, IndexKept, StandingLast;
    GenesisHasNoResult(e);
    var x, y := TwoCommits(ids, dice, now);
    RunsRemember(e, dice, now, steps);
    var (c, log) := Run(e, dice, now, steps);
    var hist := Standing([GenesisCommit(e)], log);
    RanTwice(ids, c, hist, 1, 2);
    RanTwice(ids, c, hist, 2, 1);
  }

  /** In the same run the scheduled indexes of the two stores differ, by number and
      by transaction. */
  lemma RepeatedIndexesDiffer(ids: Hashes, dice: nat, now: nat)
    requires ids.Injective()
    ensures var e, steps := Repeating(ids), [CommitBlock(dice, now), CommitBlock(dice, now)];
            && e.ids.Injective()
            && var (c, log) := Run(e, dice, now, steps);
               var hist, id := Standing([GenesisCommit(e)], log), ids.transactionID(CALLBACK);
               && (exists entry :: Reads(c.db.tables.scheduledIndex, ScheduledKey(NUMBER), 0, entry)
                                   && entry != Entry(NumberMap(e, hist), NUMBER))
               && exists entry :: Reads(c.db.tables.scheduledBlockIndex, IdKey(id), 0, entry)
                                  && entry != Entry(IdMap(e, hist), id)
  {
    hide Repeating, Inv, Run, Standing, Made, GenesisCommit, GoodHistory, IndexKept, StandingLast, NumberMap, IdMap, Reads,
         ScheduledKey, IdKey, StaticIDs;
    var e, steps := Repeating(ids), [CommitBlock(dice, now), CommitBlock(dice, now)];
    RepeatIDs(ids);
    var x, y := TwoCommits(ids, dice, now);
    RunsRemember(e, dice, now, steps);
    var (c, log) := Run(e, dice, now, steps);
    var hist := Standing([GenesisCommit(e)], log);
    InvHistory(e, c, hist);
    GoodIsConsecutive(e, hist);
    CallbackRuns(ids, c, hist, 1);
    CallbackRuns(ids, c, hist, 2);
    NumberClash(e, c.db, hist, NUMBER, 1, 2);
    IdClash(e, c.db, hist, ids.transactionID(CALLBACK), 1, 2);
  }

  /** Two commits, both undone, and one made anew. */
  lemma MadeAnew(ids: Hashes, dice: nat, now: nat) returns (a: Commit, b: Commit, d: Commit)
    requires ids.Injective()
    ensures var e, commit := Repeating(ids), CommitBlock(dice, now);
            var steps, g := [commit, commit, RollbackToBlockHeight(0, dice, now), commit], GenesisCommit(e);
            && e.ids.Injective()
            && var (c, log) := Run(e, dice, now, steps);
               && Standing([g], log) == [g, d] && Made([g], log) == [g, a, b, d] && Repeat(ids, b) && Repeat(ids, d)
               && b.block.height == 2 && d.block.height == 1
  {
    hide Repeating, Inv, Start, Continue, Standing, Made, Repeat, GenesisCommit;
    var e := Repeating(ids);
    RepeatStart(ids, dice, now);
    var c, hist, commit := Start(e, dice, now), [GenesisCommit(e)], CommitBlock(dice, now);
    var undo := RollbackToBlockHeight(0, dice, now);
    a, b := TwoCommits(ids, dice, now);
    assert [commit, commit] + [undo] == [commit, commit, undo];
    Undone(e, c, hist, [commit, commit], 0, dice, now);
    assert [hist[0], a, b][..1] == hist;
    assert [commit, commit, undo] + [commit] == [commit, commit, undo, commit];
    d := OneMoreRepeat(ids, c, hist, [commit, commit, undo], dice, now);
  }

  /** After a rollback a stale entry can hide the block that stands: a block made
      anew runs the number and has its result, and still "unknown" is an answer. */
  lemma StaleEntryHidesBlock(ids: Hashes, dice: nat, now: nat)
    requires ids.Injective()
    ensures var e, commit := Repeating(ids), CommitBlock(dice, now);
            && e.ids.Injective()
            && var (c, log) := Run(e, dice, now, [commit, commit, RollbackToBlockHeight(0, dice, now), commit]);
               var hist := Standing([GenesisCommit(e)], log);
               && |hist| == 2 && NUMBER in hist[1].scheduled && hist[1].scheduled[NUMBER] in hist[1].systemResults
               && LookupAnswers(c, ByNumber(NUMBER), Some(UnknownResult))
  {
    hide Repeating, Inv, Run, Standing, Made, GenesisCommit, GoodHistory, IndexKept, StandingLast, LookupAnswers, StaticIDs,
         LatestNumber, NumberResult;
    var e, commit := Repeating(ids), CommitBlock(dice, now);
    RepeatIDs(ids);
    var steps := [commit, commit, RollbackToBlockHeight(0, dice, now), commit];
    var x, y, z := MadeAnew(ids, dice, now);
    RunsRemember(e, dice, now, steps);
    var (c, log) := Run(e, dice, now, steps);
    var hist, made := Standing([GenesisCommit(e)], log), Made([GenesisCommit(e)], log);
    CallbackRuns(ids, c, hist, 1);
    InvHistory(e, c, hist);
    GoodIsConsecutive(e, hist);
    StaleAnswer(e.ids, hist, made, NUMBER);
    ByNumberExactly(e, c, hist, made, NUMBER, Some(UnknownResult));
  }

  /** An entry that points to a block above the tip answers "unknown". */
  lemma StaleAnswer(ids: Hashes, hist: seq<Commit>, made: seq<Commit>, n: nat)
    requires ids.Injective() && ConsecutiveFrom(hist, 0) && |hist| == 2 && |made| == 4
    requires n in made[2].scheduled && made[2].block.height == 2 && made[3].block.height == 1
    ensures LatestNumber(made, n, 2)
    ensures NumberResult(ids, hist, made, n, ids.blockID(made[2].block)) == Some(UnknownResult)
  {
    hide HeightOf;
    var b := ids.blockID(made[2].block);
    assert made[..3][..2] == made[..2];
    assert LastList(ids, made, b) == LastList(ids, made[..3], b);
    var h := HeightOf(ids, hist, b);
    if h.Some? {
      SameBlock(ids, made[2].block, hist[h.value].block);
    }
  }
}
