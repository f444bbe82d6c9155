/** Where the blocks that stand come from, and what that makes of their contents:
    headers, results, scheduled numbers and genesis. */
module Provenance {
  import opened Types
  import opened Tables
  import opened Storage
  import opened History
  import opened StoreQueries
  import opened Scheduled
  import opened Pending
  import opened Chain
  import opened Invariants
  import opened Runs
  import opened Safety
  import opened Delivery
  import opened Replay
  import opened Execution
  import opened Origins
  import opened Sequential
  import opened Indexes
  import opened Lookups
  import opened ScheduledLookups

  // ---------------------------------------------------------------- the commit of a standing block

  /** After these steps, the commit called in state `ran` makes block i of a chain. */
  ghost predicate MadeBy(e: Engine, dice: nat, now: nat, steps: seq<Step>, hist: seq<Commit>, i: nat, ran: Chain) {
    && e.ids.Injective() && i < |hist| && Inv(e, ran, hist[..i])
    && (exists d, t :: Seal(e, ran, d, t).1 == Sealed(hist[i]))
    && var (c, log) := Run(e, dice, now, steps);
       && Standing([GenesisCommit(e)], log) == hist[..i]
       && ran.db == c.db && ran.entropy == EntropyOf(e.ids, log)
       && hist[i].block.timestamp == c.pending.timestamp
  }

  lemma SealedBy(e: Engine, dice: nat, now: nat, steps: seq<Step>, step: Step) returns (ran: Chain)
    requires e.ids.Injective()
    requires var c := Run(e, dice, now, steps).0; c.pending.WellFormed(e.ids) && Next(e, c, step).1.Sealed?
    ensures var (c, log) := Run(e, dice, now, steps);
            var hist := Standing([GenesisCommit(e)], log);
            MadeBy(e, dice, now, steps, hist + [Next(e, c, step).1.commit], |hist|, ran)
  {
    hide Inv, Next, Run, Standing, Seal, EntropyOf;
    var (c, log) := Run(e, dice, now, steps);
    var hist := Standing([GenesisCommit(e)], log);
    var d, t;
    ran, d, t := SealStep(e, c, hist, step);
    RunEntropy(e, dice, now, steps);
    var commit := Next(e, c, step).1.commit;
    assert (hist + [commit])[..|hist|] == hist && (hist + [commit])[|hist|] == commit;
    SealedTakesPending(e, ran, d, t);
    AtCommitTime(e, c, step);
    assert Seal(e, ran, d, t).1 == Sealed(commit);
  }

  lemma AtCommitTime(e: Engine, c: Chain, step: Step)
    requires c.pending.WellFormed(e.ids)
    ensures AtCommit(e, c, step).pending.timestamp == c.pending.timestamp
  {
    hide RunAll;
    RunTimes(e, c, e.process, false);
  }

  /** Every block above genesis that stands after a run was made by a commit in it,
      on top of the blocks below it. */
  lemma {:induction false} BlockOrigin(e: Engine, dice: nat, now: nat, steps: seq<Step>, i: nat) returns (n: nat, ran: Chain)
    requires e.ids.Injective() && 0 < i < |Standing([GenesisCommit(e)], Run(e, dice, now, steps).1)|
    ensures n < |steps|
    ensures MadeBy(e, dice, now, steps[..n], Standing([GenesisCommit(e)], Run(e, dice, now, steps).1), i, ran)
  {
    hide Inv, Next, Start, Seal, EntropyOf, Continue;
    StartInv(e, dice, now);
    var c, g := Start(e, dice, now), [GenesisCommit(e)];
    NoStepsStand(e, c, g);
    var m := |steps| - 1;
    hide Standing;
    LastStep(e, c, g, steps);
    var (d, log) := Run(e, dice, now, steps[..m]);
    var before, outcome := Standing(g, log), Next(e, d, steps[m]).1;
    hide Run;
    if outcome.Sealed? && i == |before| {
      n := m;
      ran := SealedBy(e, dice, now, steps[..m], steps[m]);
    } else {
      n, ran := BlockOrigin(e, dice, now, steps[..m], i);
      assert steps[..m][..n] == steps[..n];
      StillMadeBy(e, dice, now, steps[..n], before, Extend(before, outcome), i, ran);
    }
  }

  lemma NoStepsStand(e: Engine, c: Chain, hist: seq<Commit>)
    requires Inv(e, c, hist)
    ensures Standing(hist, Continue(e, c, hist, []).1) == hist
  {
    hide Inv;
  }

  lemma StillMadeBy(e: Engine, dice: nat, now: nat, steps: seq<Step>, hist: seq<Commit>, more: seq<Commit>, i: nat,
                    ran: Chain)
    requires MadeBy(e, dice, now, steps, hist, i, ran) && i < |more| && more[..i + 1] == hist[..i + 1]
    ensures MadeBy(e, dice, now, steps, more, i, ran)
  {
    hide Inv, Run, Standing, Seal, EntropyOf;
    assert more[..i] == more[..i + 1][..i] && hist[..i] == hist[..i + 1][..i];
    assert more[i] == more[..i + 1][i] && hist[i] == hist[..i + 1][i];
  }

  // ---------------------------------------------------------------- scheduled numbers

  /** Number j, counted over the announcing events, is the last `n` among those that
      have a callback: the listed system transactions but the first and the last. */
  ghost predicate LastPaired(numbers: seq<nat>, listed: seq<Identifier>, n: nat, j: nat) {
    && j < |numbers| && j + 2 < |listed| && numbers[j] == n
    && forall k | j < k < |numbers| && k + 2 < |listed| :: numbers[k] != n
  }

  ghost predicate HasPlace(numbers: seq<nat>, listed: seq<Identifier>, n: nat) {
    exists j: nat :: LastPaired(numbers, listed, n, j)
  }

  /** The number finds the j-th callback. */
  predicate Finds(scheduled: map<nat, Identifier>, listed: seq<Identifier>, n: nat, j: nat) {
    j + 1 < |listed| && n in scheduled && scheduled[n] == listed[j + 1]
  }

  /** The recorded numbers are those with a place, and each finds the callback there. */
  ghost predicate PairsUp(numbers: seq<nat>, c: Commit) {
    && (forall n :: n in c.scheduled <==> HasPlace(numbers, c.systemIDs, n))
    && forall n, j: nat | LastPaired(numbers, c.systemIDs, n, j) :: Finds(c.scheduled, c.systemIDs, n, j)
  }

  /** The block's numbers are those that the stored events of its process transaction
      announce, in the order of the events, paired with the callbacks it lists. */
  ghost predicate Paired(e: Engine, c: Commit) {
    var process := e.ids.transactionID(e.process);
    process in c.systemResults
    && exists positions, numbers ::
         AnnouncedAt(e.announcement, c.systemResults[process].events, positions, numbers) && PairsUp(numbers, c)
  }

  /** Which callback a number finds, by its last occurrence. */
  lemma {:induction false} NumberAllIs(numbers: seq<nat>, ids: seq<Identifier>, k: nat, n: nat) returns (j: nat)
    requires k <= |ids|
    ensures var m := NumberAll(numbers, ids, k);
            if n in m then
              && j < k && j < |numbers| && numbers[j] == n && m[n] == ids[j]
              && forall i | j < i < |numbers| && i < k :: numbers[i] != n
            else forall i | 0 <= i < |numbers| && i < k :: numbers[i] != n
  {
    j := 0;
    if k > 0 {
      j := NumberAllIs(numbers, ids, k - 1, n);
      if k - 1 < |numbers| && numbers[k - 1] == n { j := k - 1; }
    }
  }

  lemma NumberPairs(numbers: seq<nat>, ids: seq<Identifier>, listed: seq<Identifier>, n: nat, j: nat)
    requires |listed| == |ids| + 2 && forall k | 0 <= k < |ids| :: listed[k + 1] == ids[k]
    ensures LastPaired(numbers, listed, n, j) ==> Finds(NumberAll(numbers, ids, |ids|), listed, n, j)
    ensures n in NumberAll(numbers, ids, |ids|) <==> HasPlace(numbers, listed, n)
  {
    hide NumberAll;
    var i := NumberAllIs(numbers, ids, |ids|, n);
    if n in NumberAll(numbers, ids, |ids|) { assert LastPaired(numbers, listed, n, i); }
    if LastPaired(numbers, listed, n, j) { assert i == j; }
  }

  lemma NumbersPairUp(numbers: seq<nat>, ids: seq<Identifier>, c: Commit, first: Identifier, last: Identifier)
    requires c.systemIDs == [first] + ids + [last] && c.scheduled == NumberAll(numbers, ids, |ids|)
    ensures PairsUp(numbers, c)
  {
    hide NumberAll, LastPaired, HasPlace, Finds;
    forall n ensures n in c.scheduled <==> HasPlace(numbers, c.systemIDs, n) {
      NumberPairs(numbers, ids, c.systemIDs, n, 0);
    }
    forall n, j: nat | LastPaired(numbers, c.systemIDs, n, j) ensures Finds(c.scheduled, c.systemIDs, n, j) {
      NumberPairs(numbers, ids, c.systemIDs, n, j);
    }
  }

  /** What a system run with scheduled transactions lists and records. */
  lemma ScheduledRun(e: Engine, header: Block, entropy: Identifier, base: Ledger, first: nat, work: Work)
    returns (ids: seq<Identifier>, events: seq<Event>)
    requires e.scheduledEnabled && e.announcement.Bounded()
    requires var run := RunSystem(e, header, entropy, base, first, work).1; run.Some? && NoDuplicates(run.value.order)
    ensures var run := RunSystem(e, header, entropy, base, first, work).1.value;
            var process := e.ids.transactionID(e.process);
            && run.order == [process] + ids + [e.ids.transactionID(e.chunk)]
            && process in run.results && run.results[process].output.events == events
            && Announced(e.announcement, events).Some?
            && run.scheduled == NumberAll(Announced(e.announcement, events).value, ids, |ids|)
  {
    hide Adds, Sequentially, StateAfter, AllEvents, RunScheduled, Announced, NumberAll, NoDuplicates;
    var context := Context(header, entropy, ScheduledTransaction);
    var callbacks, shots := SystemReplay(e, header, entropy, base, first, work);
    var jobs, run := SystemJobs(e, header, entropy, callbacks), RunSystem(e, header, entropy, base, first, work).1.value;
    ids, events := IdsOf(e.ids, callbacks), shots[0].output.events;
    EachRun(e, base + work.writes, first, jobs, shots, 0);
    assert shots[..0] == [] && StateAfter(base + work.writes, []) == base + work.writes by { NoShots(base + work.writes); }
    ScheduledEvents(e, context, base, first, work);
    NumbersAreKept(e, context, base, first, work);
    assert run.order == [e.ids.transactionID(e.process)] + ids + [e.ids.transactionID(e.chunk)];
  }

  lemma NoShots(start: Ledger)
    ensures StateAfter(start, []) == start
  {}

  lemma ScheduledEvents(e: Engine, context: Context, base: Ledger, first: nat, work: Work)
    requires RunScheduled(e, context, base, first, work).1.Some?
    ensures var r := e.vm(context, e.process, first, base + work.writes);
            r.Ran? && Announced(e.announcement, r.output.events).Some? && e.callbacks(r.output.events).Some?
  {
    hide RunCallbacks, Announced, Printed;
  }

  /** Every commit pairs the announced numbers with its callbacks. */
  lemma SealPairs(e: Engine, c: Chain, hist: seq<Commit>, dice: nat, now: nat)
    requires Inv(e, c, hist) && e.scheduledEnabled && e.announcement.Bounded() && Seal(e, c, dice, now).1.Sealed?
    ensures Paired(e, Seal(e, c, dice, now).1.commit)
  {
    hide Inv, Seal, RunSystem, LedgerAt, NoDuplicates, PairsUp, NumberAll, AnnouncedAt, Announced;
    SealSucceeds(e, c, hist, dice, now);
    SealCases(e, c, dice, now);
    var p := c.pending;
    var (work, run) := Attempt(e, c);
    var ids, events := ScheduledRun(e, p.ToBlock(e.ids), c.entropy, c.Base(), |p.transactions|, p.work);
    var commit := Record(e.ids, p, work, run.value);
    var numbers := Announced(e.announcement, events).value;
    var positions := AnnouncedIs(e.announcement, events);
    NumbersPairUp(numbers, ids, commit, e.ids.transactionID(e.process), e.ids.transactionID(e.chunk));
    assert commit.systemResults[e.ids.transactionID(e.process)].events == events;
  }

  /** In every run, in each block above genesis, the number of the j-th announcing
      event of the process transaction finds the j-th callback; of equal numbers the
      last one counts. */
  lemma NumbersFollowEvents(e: Engine, dice: nat, now: nat, steps: seq<Step>, i: nat)
    requires e.ids.Injective() && e.scheduledEnabled && e.announcement.Bounded()
    requires 0 < i < |Standing([GenesisCommit(e)], Run(e, dice, now, steps).1)|
    ensures Paired(e, Standing([GenesisCommit(e)], Run(e, dice, now, steps).1)[i])
  {
    hide Inv, Run, Standing, Seal, EntropyOf, Paired;
    var hist := Standing([GenesisCommit(e)], Run(e, dice, now, steps).1);
    var n, ran := BlockOrigin(e, dice, now, steps, i);
    var d, t :| Seal(e, ran, d, t).1 == Sealed(hist[i]);
    SealPairs(e, ran, hist[..i], d, t);
  }

  // ---------------------------------------------------------------- results

  /** What a client is told of a run. */
  ghost predicate Tells(r: TransactionResult, txID: Identifier, b: Identifier, height: nat, collectionID: Identifier,
                        output: Output) {
    && r.SealedResult? && r.txID == txID && r.blockID == b && r.blockHeight == height && r.collectionID == collectionID
    && r.events == output.events
    && r.statusCode == (if output.errorCode == 0 then 0 else 1)
    && r.errorMessage == (if output.errorCode == 0 then "" else output.errorMessage)
  }

  lemma ResultTells(txID: Identifier, output: Output, b: Identifier, height: nat, collectionID: Identifier)
    ensures Tells(ToResult(txID, ToStorable(output, b, height, collectionID)), txID, b, height, collectionID, output)
  {}

  /** In every run, the result of the k-th transaction of a block tells the events and
      the error of a run of that transaction with index k, in that block, and in the
      block's collection if it is a user transaction. */
  lemma ResultsTell(e: Engine, dice: nat, now: nat, steps: seq<Step>, h: nat, k: nat)
    returns (tx: TransactionBody, output: Output)
    requires e.ids.Injective() && 0 < h < |Standing([GenesisCommit(e)], Run(e, dice, now, steps).1)|
    requires k < |Listed(Standing([GenesisCommit(e)], Run(e, dice, now, steps).1)[h])|
    ensures var c := Standing([GenesisCommit(e)], Run(e, dice, now, steps).1)[h];
            && e.ids.transactionID(tx) == Listed(c)[k] && RanAs(e, tx, k, output) && ListedResult(c, k).Some?
            && Tells(ToResult(Listed(c)[k], ListedResult(c, k).value), Listed(c)[k], e.ids.blockID(c.block), h,
                     if k < |UserIDs(c)| then e.ids.collectionID(UserIDs(c)) else ZERO_ID, output)
  {
    hide Inv, Run, Standing, ListedResult, Listed, UserIDs, ToStorable, ToResult, RanAs, GoodHistory, Tells;
    var (chain, log) := Run(e, dice, now, steps);
    var hist := Standing([GenesisCommit(e)], log);
    var c := hist[h];
    InvHistory(e, chain, hist);
    GoodIsConsecutive(e, hist);
    HeightsMatch(hist, h);
    IndexesInOrder(e, dice, now, steps, h);
    assert NumberedAt(e, c, k);
    tx, output :| e.ids.transactionID(tx) == Listed(c)[k] && RanAs(e, tx, k, output)
                  && ListedResult(c, k) ==
                     Some(ToStorable(output, e.ids.blockID(c.block), c.block.height,
                                     if k < |UserIDs(c)| then e.ids.collectionID(UserIDs(c)) else ZERO_ID));
    ResultTells(Listed(c)[k], output, e.ids.blockID(c.block), h,
                if k < |UserIDs(c)| then e.ids.collectionID(UserIDs(c)) else ZERO_ID);
  }

  // ---------------------------------------------------------------- genesis

  /** In every state of every run, genesis reads back as it was given: a block without
      parent or payload, the given registers and the given events. */
  lemma GenesisReads(e: Engine, dice: nat, now: nat, steps: seq<Step>, id: RegisterID, kind: string, r: Option<Cell>)
    requires e.ids.Injective()
    ensures var db := Run(e, dice, now, steps).0.db;
            && (SqlAnswers(db, BlockByHeight(0), r) <==> r == Some(BlockCell(Block(0, 0, ZERO_ID, e.genesisTime, []))))
            && (SqlAnswers(db, RegisterAtHeight(id, 0), r) <==> r == Tables.Lookup(e.genesisWrites, id))
            && (SqlAnswers(db, EventsByHeight(0, kind), r) <==>
                  r.Some? && r.value.EventsCell? && Filtered(e.genesisEvents, kind, r.value.events))
  {
    hide Inv, Run, SqlAnswers, Standing, GoodHistory, Consistent, Holds, Filtered, Tables.Lookup;
    var (c, log) := Run(e, dice, now, steps);
    var hist := Standing([GenesisCommit(e)], log);
    InvHistory(e, c, hist);
    InvHolds(e, c, hist);
    GoodIsConsistent(e, hist);
    GenesisFirst(e, hist);
    SqlAnswersChain(e.ids, c.db, hist, BlockByHeight(0), r);
    SqlAnswersChain(e.ids, c.db, hist, RegisterAtHeight(id, 0), r);
    EventsAreFiltered(e.ids, c.db, hist, 0, kind, r);
  }

  lemma InvHolds(e: Engine, c: Chain, hist: seq<Commit>)
    requires Inv(e, c, hist)
    ensures Holds(e.ids, c.db, hist)
  {
    hide Holds, GoodHistory, SystemListsKept, PendingOn;
  }

  lemma GenesisFirst(e: Engine, hist: seq<Commit>)
    requires GoodHistory(e, hist)
    ensures hist[0].block == Block(0, 0, ZERO_ID, e.genesisTime, []) && hist[0].events == e.genesisEvents
    ensures RegistersAt(hist, 0) == e.genesisWrites
  {
    hide Proper, Follows, NeverReused, ConsecutiveFrom;
    assert map[] + hist[0].writes == hist[0].writes;
  }
}
