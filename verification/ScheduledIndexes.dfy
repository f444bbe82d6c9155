/** The tables that rollbacks leave alone: the two scheduled indexes and the lists
    of system transactions. They remember every block ever made. */
module ScheduledIndexes {
  import opened Types
  import opened Keys
  import opened Tables
  import opened Storage
  import opened StoreQueries
  import opened Pending
  import opened Chain
  import opened Invariants
  import opened Runs
  import opened Safety

  // ---------------------------------------------------------------- every block ever made

  /** The commits made so far, rolled back since or not. */
  function Made(hist: seq<Commit>, log: seq<Outcome>): (made: seq<Commit>) {
    if log == [] then hist
    else
      var n := |log| - 1;
      var before := Made(hist, log[..n]);
      if log[n].Sealed? then before + [log[n].commit] else before
  }

  function NumberLayers(e: Engine, made: seq<Commit>): (layers: seq<Table>)
    ensures |layers| == |made|
    ensures forall j | 0 <= j < |made| :: layers[j] == NumberLayer(e, made[j])
  {
    seq(|made|, j requires 0 <= j < |made| => NumberLayer(e, made[j]))
  }

  function NumberLayer(e: Engine, c: Commit): (t: Table) {
    ScheduledRows(c.scheduled, e.ids.blockID(c.block), c.block.height)
  }

  function IdLayers(e: Engine, made: seq<Commit>): (layers: seq<Table>)
    ensures |layers| == |made|
    ensures forall j | 0 <= j < |made| :: layers[j] == IdLayer(e, made[j])
  {
    seq(|made|, j requires 0 <= j < |made| => IdLayer(e, made[j]))
  }

  function IdLayer(e: Engine, c: Commit): (t: Table) {
    ScheduledBlockRows(c.systemResults.Keys - StaticIDs(e), e.ids.blockID(c.block), c.block.height)
  }

  function ListLayers(e: Engine, made: seq<Commit>): (layers: seq<Table>)
    ensures |layers| == |made|
    ensures forall j | 0 <= j < |made| :: layers[j] == SystemRows(e.ids, made[j])
  {
    seq(|made|, j requires 0 <= j < |made| => SystemRows(e.ids, made[j]))
  }

  /** The three tables hold what the blocks ever made put there, later ones over
      earlier ones, and nothing else. */
  ghost predicate IndexKept(e: Engine, db: Db, made: seq<Commit>) {
    && db.tables.scheduledIndex == Stack(NumberLayers(e, made))
    && db.tables.scheduledBlockIndex == Stack(IdLayers(e, made))
    && db.tables.systemTransactions == Stack(ListLayers(e, made))
  }

  /** Each standing block was made, and all made after it are higher. */
  ghost predicate StandingLast(hist: seq<Commit>, made: seq<Commit>) {
    forall i: nat | i < |hist| :: StandsLast(hist[i], made, i)
  }

  ghost predicate StandsLast(c: Commit, made: seq<Commit>, height: nat) {
    exists j: nat :: MadeLast(c, made, j, height)
  }

  ghost predicate MadeLast(c: Commit, made: seq<Commit>, j: nat, height: nat) {
    j < |made| && made[j] == c && forall k | j < k < |made| :: made[k].block.height > height
  }

  ghost predicate Remembers(e: Engine, db: Db, hist: seq<Commit>, made: seq<Commit>) {
    IndexKept(e, db, made) && StandingLast(hist, made)
  }

  // ---------------------------------------------------------------- kept by every step

  lemma StackSnoc(layers: seq<Table>, layer: Table)
    ensures Stack(layers + [layer]) == Stack(layers) + layer
  {
    assert (layers + [layer])[..|layers|] == layers;
  }

  lemma LayersSnoc(e: Engine, made: seq<Commit>, c: Commit)
    ensures Stack(NumberLayers(e, made + [c])) == Stack(NumberLayers(e, made)) + NumberLayer(e, c)
    ensures Stack(IdLayers(e, made + [c])) == Stack(IdLayers(e, made)) + IdLayer(e, c)
    ensures Stack(ListLayers(e, made + [c])) == Stack(ListLayers(e, made)) + SystemRows(e.ids, c)
  {
    hide Stack, NumberLayer, IdLayer, SystemRows;
    StackSnoc(NumberLayers(e, made), NumberLayer(e, c));
    StackSnoc(IdLayers(e, made), IdLayer(e, c));
    StackSnoc(ListLayers(e, made), SystemRows(e.ids, c));
    assert NumberLayers(e, made + [c]) == NumberLayers(e, made) + [NumberLayer(e, c)];
    assert IdLayers(e, made + [c]) == IdLayers(e, made) + [IdLayer(e, c)];
    assert ListLayers(e, made + [c]) == ListLayers(e, made) + [SystemRows(e.ids, c)];
  }

  /** What a commit adds to the three tables. */
  lemma CommitAdds(e: Engine, db: Db, c: Commit)
    ensures var t := Indexed(e, Committed(e.ids, db, c), c).tables;
            && t.scheduledIndex == db.tables.scheduledIndex + NumberLayer(e, c)
            && t.scheduledBlockIndex == db.tables.scheduledBlockIndex + IdLayer(e, c)
            && t.systemTransactions == db.tables.systemTransactions + SystemRows(e.ids, c)
  {
    hide Committed, SystemRows, ScheduledRows, ScheduledBlockRows, StaticIDs;
    CommitKeepsIndexes(e.ids, db, c);
  }

  lemma CommitKeepsIndexes(ids: Hashes, db: Db, c: Commit)
    ensures var after := Committed(ids, db, c);
            && after.current == c.block.height && after.tables.scheduledIndex == db.tables.scheduledIndex
            && after.tables.scheduledBlockIndex == db.tables.scheduledBlockIndex
            && after.tables.systemTransactions == db.tables.systemTransactions + SystemRows(ids, c)
  {
    hide Layer, SystemRows, GlobalAfter;
    ListLayer(ids, c);
  }

  lemma ListLayer(ids: Hashes, c: Commit)
    ensures Layer(ids, c, SystemTransactionsOf) == SystemRows(ids, c)
  {
    hide SystemRows;
  }

  lemma SealedKeepsIndex(e: Engine, db: Db, made: seq<Commit>, c: Commit)
    requires IndexKept(e, db, made)
    ensures IndexKept(e, Indexed(e, Committed(e.ids, db, c), c), made + [c])
  {
    hide Stack, NumberLayer, IdLayer, SystemRows, Indexed, Committed;
    LayersSnoc(e, made, c);
    CommitAdds(e, db, c);
  }

  lemma SealedStandsLast(hist: seq<Commit>, made: seq<Commit>, c: Commit)
    requires StandingLast(hist, made) && c.block.height == |hist|
    ensures StandingLast(hist + [c], made + [c])
  {
    var more := hist + [c];
    forall i: nat | i < |more| ensures StandsLast(more[i], made + [c], i) {
      if i < |hist| {
        assert StandsLast(hist[i], made, i);
        var j: nat :| MadeLast(hist[i], made, j, i);
        assert MadeLast(more[i], made + [c], j, i);
      } else {
        assert MadeLast(more[i], made + [c], |made|, i);
      }
    }
  }

  lemma FinishRemembers(e: Engine, c: Chain, hist: seq<Commit>, made: seq<Commit>, work: Work, run: Option<SystemRun>,
                        dice: nat, now: nat)
    requires Remembers(e, c.db, hist, made) && c.pending.height == |hist|
    ensures var (d, outcome) := Finish(e, c, work, run, dice, now);
            Remembers(e, d.db, Extend(hist, outcome), Made(made, [outcome]))
  {
    hide IndexKept, StandingLast, Record, Committed, Indexed, Fresh, CommitCheck;
    var outcome := Finish(e, c, work, run, dice, now).1;
    MadeOne(made, outcome);
    if run.Some? {
      var commit := Record(e.ids, c.pending, work, run.value);
      RecordIs(e.ids, c.pending, work, run.value);
      SealedKeepsIndex(e, c.db, made, commit);
      SealedStandsLast(hist, made, commit);
    }
  }

  lemma MadeOne(made: seq<Commit>, outcome: Outcome)
    ensures Made(made, [outcome]) == if outcome.Sealed? then made + [outcome.commit] else made
  {
    assert [outcome][..0] == [] && Made(made, []) == made;
  }

  lemma SealRemembers(e: Engine, c: Chain, hist: seq<Commit>, made: seq<Commit>, dice: nat, now: nat)
    requires Inv(e, c, hist) && Remembers(e, c.db, hist, made)
    ensures var (d, outcome) := Seal(e, c, dice, now); Remembers(e, d.db, Extend(hist, outcome), Made(made, [outcome]))
  {
    hide Inv, Remembers, Attempt, Finish, Made;
    HeldHeight(e, c, hist);
    var (work, run) := Attempt(e, c);
    FinishRemembers(e, c, hist, made, work, run, dice, now);
    if CommitGuard(c.pending).Some? { MadeOne(made, Refused(CommitGuard(c.pending).value)); }
  }

  lemma PruneRemembers(e: Engine, c: Chain, hist: seq<Commit>, made: seq<Commit>, height: nat, dice: nat, now: nat)
    requires Remembers(e, c.db, hist, made)
    ensures var (d, outcome) := Prune(e, c, height, dice, now);
            Remembers(e, d.db, Extend(hist, outcome), Made(made, [outcome]))
  {
    hide IndexKept, StandingLast, RolledBack, Latest, Fresh, Made;
    var (d, outcome) := Prune(e, c, height, dice, now);
    MadeOne(made, outcome);
    RolledBackKeepsIndex(e, c.db, made, height);
    FewerStandLast(hist, made, height);
  }

  lemma RolledBackKeepsIndex(e: Engine, db: Db, made: seq<Commit>, height: nat)
    requires IndexKept(e, db, made)
    ensures IndexKept(e, RolledBack(db, height), made)
  {
    hide Below, Stack, NumberLayers, IdLayers, ListLayers;
  }

  lemma FewerStandLast(hist: seq<Commit>, made: seq<Commit>, height: nat)
    requires StandingLast(hist, made)
    ensures height < |hist| ==> StandingLast(hist[..height + 1], made)
  {
    if height < |hist| {
      var less := hist[..height + 1];
      forall i: nat | i < |less| ensures StandsLast(less[i], made, i) {
        assert StandsLast(hist[i], made, i);
      }
    }
  }

  lemma SameStore(e: Engine, c: Chain, step: Step)
    requires c.pending.WellFormed(e.ids)
    ensures RunOne(e, c).0.db == c.db && RunAll(e, c).0.db == c.db
    ensures !RunOne(e, c).1.Sealed? && !RunOne(e, c).1.Pruned? && !RunAll(e, c).1.Sealed? && !RunAll(e, c).1.Pruned?
    ensures step.AddTransaction? ==>
              var (d, o) := Add(e, c, step.tx, step.valid); d.db == c.db && !o.Sealed? && !o.Pruned?
    ensures step.ResetPendingBlock? ==>
              var (d, o) := Renew(e, c, step.dice, step.now); d.db == c.db && !o.Sealed? && !o.Pruned?
  {
    hide LedgerAt, ExecuteNext, ExecuteRest, Answer, Latest;
  }

  lemma StepRemembers(e: Engine, c: Chain, hist: seq<Commit>, made: seq<Commit>, step: Step)
    requires Inv(e, c, hist) && Remembers(e, c.db, hist, made)
    ensures c.pending.WellFormed(e.ids)
    ensures var (d, outcome) := Next(e, c, step); Remembers(e, d.db, Extend(hist, outcome), Made(made, [outcome]))
  {
    hide Inv, Remembers, Add, RunOne, RunAll, Seal, Renew, Prune, Made;
    InvPending(e, c, hist);
    SameStore(e, c, step);
    var outcome := Next(e, c, step).1;
    MadeOne(made, outcome);
    match step
    case AddTransaction(tx, valid) =>
    case ExecuteNextTransaction =>
    case ExecuteBlock =>
    case CommitBlock(dice, now) => SealRemembers(e, c, hist, made, dice, now);
    case ExecuteAndCommitBlock(dice, now) =>
      RunAllKeeps(e, c, hist);
      SealRemembers(e, RunAll(e, c).0, hist, made, dice, now);
    case ResetPendingBlock(dice, now) =>
    case RollbackToBlockHeight(height, dice, now) => PruneRemembers(e, c, hist, made, height, dice, now);
    case SetClock(now) =>
  }

  lemma StartRemembers(e: Engine, dice: nat, now: nat)
    ensures Remembers(e, Start(e, dice, now).db, [GenesisCommit(e)], [GenesisCommit(e)])
  {
    hide Committed, Stack;
    var g := GenesisCommit(e);
    GenesisAdds(e);
    LayersSnoc(e, [], g);
    assert [] + [g] == [g];
    NoLayers(e);
    hide GenesisCommit;
    assert MadeLast(g, [g], 0, 0) && StandsLast(g, [g], 0);
  }

  lemma GenesisAdds(e: Engine)
    ensures var g := GenesisCommit(e);
            && NumberLayer(e, g) == IdLayer(e, g) == SystemRows(e.ids, g) == map[]
            && var t := Committed(e.ids, EMPTY_DB, g).tables;
               t.scheduledIndex == t.scheduledBlockIndex == t.systemTransactions == map[]
  {
    hide Layer, StaticIDs, GlobalAfter;
    ListLayer(e.ids, GenesisCommit(e));
  }

  lemma NoLayers(e: Engine)
    ensures Stack(NumberLayers(e, [])) == Stack(IdLayers(e, [])) == Stack(ListLayers(e, [])) == map[]
  {}

  /** In every run, rollbacks included, the three tables hold what the blocks ever
      made put there. */
  lemma {:induction false} RunRemembers(e: Engine, c: Chain, hist: seq<Commit>, made: seq<Commit>, steps: seq<Step>)
    requires Inv(e, c, hist) && Remembers(e, c.db, hist, made)
    ensures var (d, log) := Continue(e, c, hist, steps); Remembers(e, d.db, Standing(hist, log), Made(made, log))
  {
    hide Inv, Remembers, Next;
    if steps != [] {
      var n := |steps| - 1;
      RunRemembers(e, c, hist, made, steps[..n]);
      LastStep(e, c, hist, steps);
      var (d, log) := Continue(e, c, hist, steps[..n]);
      StepRemembers(e, d, Standing(hist, log), Made(made, log), steps[n]);
      MadeThen(made, log, Next(e, d, steps[n]).1);
    }
  }

  lemma MadeThen(made: seq<Commit>, log: seq<Outcome>, outcome: Outcome)
    ensures Made(made, log + [outcome]) == Made(Made(made, log), [outcome])
  {
    assert (log + [outcome])[..|log|] == log;
    MadeOne(Made(made, log), outcome);
  }

  /** Without rollbacks the blocks ever made are those that stand. */
  lemma {:induction false} NothingUndone(hist: seq<Commit>, log: seq<Outcome>)
    requires forall o | o in log :: !o.Pruned?
    ensures Made(hist, log) == Standing(hist, log)
  {
    if log != [] { NothingUndone(hist, log[..|log| - 1]); }
  }

  lemma OnlyRollbacksPrune(e: Engine, c: Chain, hist: seq<Commit>, step: Step)
    requires Inv(e, c, hist) && !step.RollbackToBlockHeight?
    ensures c.pending.WellFormed(e.ids) && !Next(e, c, step).1.Pruned?
  {
    hide Inv, Add, RunOne, RunAll, Renew, Attempt, Committed, Indexed, Record, CommitCheck;
    InvPending(e, c, hist);
    SameStore(e, c, step);
  }

  /** In a run without rollbacks the three tables match the chain. */
  lemma {:induction false} RunKeepsIndex(e: Engine, c: Chain, hist: seq<Commit>, steps: seq<Step>)
    requires Inv(e, c, hist) && Remembers(e, c.db, hist, hist) && forall s | s in steps :: !s.RollbackToBlockHeight?
    ensures var (d, log) := Continue(e, c, hist, steps); IndexKept(e, d.db, Standing(hist, log))
  {
    hide Inv, IndexKept, StandingLast, Continue, Standing, Made;
    RunRemembers(e, c, hist, hist, steps);
    NoRollbacks(e, c, hist, steps);
    NothingUndone(hist, Continue(e, c, hist, steps).1);
  }

  lemma {:induction false} NoRollbacks(e: Engine, c: Chain, hist: seq<Commit>, steps: seq<Step>)
    requires Inv(e, c, hist) && forall s | s in steps :: !s.RollbackToBlockHeight?
    ensures forall o | o in Continue(e, c, hist, steps).1 :: !o.Pruned?
  {
    hide Inv, Next;
    if steps != [] {
      var n := |steps| - 1;
      NoRollbacks(e, c, hist, steps[..n]);
      LastStep(e, c, hist, steps);
      var (d, log) := Continue(e, c, hist, steps[..n]);
      OnlyRollbacksPrune(e, d, Standing(hist, log), steps[n]);
    }
  }

  // ---------------------------------------------------------------- what the indexes answer

  lemma UnversionedReads(t: Table, key: string, r: Option<Cell>)
    requires Unversioned(t)
    ensures Reads(t, key, 0, r) <==>
              match r
              case None => forall row | row in t :: row.key != key
              case Some(cell) => exists row | row in t :: row.key == key && t[row] == cell
  {
    match r
    case None =>
    case Some(cell) =>
      if row :| row in t && row.key == key && t[row] == cell {
        assert IsBest(t, row, key, 0);
      }
  }

  /** Layer j is the uppermost one that has the row. */
  ghost predicate Uppermost(layers: seq<Table>, row: Row, j: nat) {
    j < |layers| && row in layers[j] && forall k | j < k < |layers| :: row !in layers[k]
  }

  /** A stack holds each row as its uppermost layer does. */
  lemma {:induction false} StackIs(layers: seq<Table>, row: Row) returns (j: nat)
    ensures if row in Stack(layers) then Uppermost(layers, row, j) && Stack(layers)[row] == layers[j][row]
            else forall k | 0 <= k < |layers| :: row !in layers[k]
  {
    j := 0;
    if layers != [] {
      var n := |layers| - 1;
      j := StackIs(layers[..n], row);
      assert forall k | 0 <= k < n :: layers[..n][k] == layers[k];
      if row in layers[n] { j := n; }
    }
  }

  lemma NumberRows(e: Engine, c: Commit, row: Row, n: nat)
    ensures row in NumberLayer(e, c) ==> row.version == 0 && NumberLayer(e, c)[row] == IdCell(e.ids.blockID(c.block))
    ensures row in NumberLayer(e, c) && row.key == ScheduledKey(n) <==>
              row == Row(ScheduledKey(n), 0, c.block.height) && n in c.scheduled
  {
    hide ScheduledKey, ScheduledKeyNumber;
    if n in c.scheduled { assert Row(ScheduledKey(n), 0, c.block.height) in NumberLayer(e, c); }
  }

  lemma IdRows(e: Engine, c: Commit, row: Row, id: Identifier)
    ensures row in IdLayer(e, c) ==> row.version == 0 && IdLayer(e, c)[row] == IdCell(e.ids.blockID(c.block))
    ensures row in IdLayer(e, c) && row.key == IdKey(id) <==>
              row == Row(IdKey(id), 0, c.block.height) && id in c.systemResults && id !in StaticIDs(e)
  {
    hide IdKey, UnHex, StaticIDs;
    if id in c.systemResults && id !in StaticIDs(e) { assert Row(IdKey(id), 0, c.block.height) in IdLayer(e, c); }
  }

  /** Commit j ran the number, and no later one at its height did. */
  ghost predicate LatestNumber(made: seq<Commit>, n: nat, j: nat) {
    && j < |made| && n in made[j].scheduled
    && forall k | j < k < |made| && made[k].block.height == made[j].block.height :: n !in made[k].scheduled
  }

  ghost predicate LatestID(made: seq<Commit>, id: Identifier, j: nat) {
    && j < |made| && id in made[j].systemResults
    && forall k | j < k < |made| && made[k].block.height == made[j].block.height :: id !in made[k].systemResults
  }

  /** Commit j has an entry for the number unless a later one replaced it. */
  lemma NumberStored(e: Engine, made: seq<Commit>, n: nat, j: nat)
    ensures LatestNumber(made, n, j) ==>
              var row, t := Row(ScheduledKey(n), 0, made[j].block.height), Stack(NumberLayers(e, made));
              row in t && t[row] == IdCell(e.ids.blockID(made[j].block))
  {
    hide Stack, NumberLayer, ScheduledKey;
    if LatestNumber(made, n, j) {
      var row := Row(ScheduledKey(n), 0, made[j].block.height);
      var i := StackIs(NumberLayers(e, made), row);
      forall k: nat | k < |made| ensures row in NumberLayers(e, made)[k] <==>
                                           made[k].block.height == made[j].block.height && n in made[k].scheduled
      {
        NumberRows(e, made[k], row, n);
      }
      assert row in NumberLayers(e, made)[j] && i == j;
      NumberRows(e, made[j], row, n);
    }
  }

  lemma NumberFound(e: Engine, made: seq<Commit>, n: nat, row: Row) returns (j: nat)
    requires row in Stack(NumberLayers(e, made)) && row.key == ScheduledKey(n)
    ensures LatestNumber(made, n, j) && Stack(NumberLayers(e, made))[row] == IdCell(e.ids.blockID(made[j].block))
  {
    hide Stack, NumberLayer, ScheduledKey;
    j := StackIs(NumberLayers(e, made), row);
    forall k: nat | k < |made| ensures row in NumberLayers(e, made)[k] <==>
                                         row == Row(ScheduledKey(n), 0, made[k].block.height) && n in made[k].scheduled
    {
      NumberRows(e, made[k], row, n);
    }
    NumberRows(e, made[j], row, n);
  }

  lemma NumbersUnversioned(e: Engine, made: seq<Commit>)
    ensures Unversioned(Stack(NumberLayers(e, made))) && Unversioned(Stack(IdLayers(e, made)))
  {
    hide Stack, NumberLayer, IdLayer;
    forall row | row in Stack(NumberLayers(e, made)) ensures row.version == 0 {
      var j := StackIs(NumberLayers(e, made), row);
      NumberRows(e, made[j], row, 0);
    }
    forall row | row in Stack(IdLayers(e, made)) ensures row.version == 0 {
      var j := StackIs(IdLayers(e, made), row);
      IdRows(e, made[j], row, []);
    }
  }

  /** The entries for a number are those of the blocks that ran it, the latest at
      each height, whether they stand or not. */
  lemma NumberEntry(e: Engine, db: Db, made: seq<Commit>, n: nat, entry: Option<Cell>)
    requires IndexKept(e, db, made)
    ensures Reads(db.tables.scheduledIndex, ScheduledKey(n), 0, entry) <==>
              match entry
              case None => forall j | 0 <= j < |made| :: n !in made[j].scheduled
              case Some(cell) =>
                exists j: nat | j < |made| && LatestNumber(made, n, j) :: cell == IdCell(e.ids.blockID(made[j].block))
  {
    hide Reads, Stack, NumberLayers, LatestNumber, ScheduledKey;
    var t, key := db.tables.scheduledIndex, ScheduledKey(n);
    NumbersUnversioned(e, made);
    UnversionedReads(t, key, entry);
    if entry.None? && forall j | 0 <= j < |made| :: n !in made[j].scheduled {
      forall row | row in t ensures row.key != key {
        if row.key == key {
          var j := NumberFound(e, made, n, row);
          RanIt(made, n, j);
        }
      }
    }
    if entry.None? && forall row | row in t :: row.key != key {
      forall j | 0 <= j < |made| ensures n !in made[j].scheduled {
        if n in made[j].scheduled {
          var k := LatestAt(made, n, j);
          NumberStored(e, made, n, k);
        }
      }
    }
    if entry.Some? {
      if row :| row in t && row.key == key && t[row] == entry.value {
        var j := NumberFound(e, made, n, row);
        RanIt(made, n, j);
      }
      if j: nat :| j < |made| && LatestNumber(made, n, j) && entry.value == IdCell(e.ids.blockID(made[j].block)) {
        RanIt(made, n, j);
        NumberStored(e, made, n, j);
      }
    }
  }

  lemma RanIt(made: seq<Commit>, n: nat, j: nat)
    requires LatestNumber(made, n, j)
    ensures j < |made| && n in made[j].scheduled
  {}

  /** Where a number was run at some height, there is a latest commit that did. */
  lemma {:induction false} LatestAt(made: seq<Commit>, n: nat, j: nat) returns (k: nat)
    requires j < |made| && n in made[j].scheduled
    ensures LatestNumber(made, n, k) && made[k].block.height == made[j].block.height
    decreases |made| - j
  {
    if later :| j < later < |made| && made[later].block.height == made[j].block.height && n in made[later].scheduled {
      k := LatestAt(made, n, later);
    } else {
      k := j;
    }
  }

  lemma {:induction false} LatestIDAt(made: seq<Commit>, id: Identifier, j: nat) returns (k: nat)
    requires j < |made| && id in made[j].systemResults
    ensures LatestID(made, id, k) && made[k].block.height == made[j].block.height
    decreases |made| - j
  {
    if later :| j < later < |made| && made[later].block.height == made[j].block.height && id in made[later].systemResults {
      k := LatestIDAt(made, id, later);
    } else {
      k := j;
    }
  }

  lemma IdStored(e: Engine, made: seq<Commit>, id: Identifier, j: nat)
    requires id !in StaticIDs(e)
    ensures LatestID(made, id, j) ==>
              var row, t := Row(IdKey(id), 0, made[j].block.height), Stack(IdLayers(e, made));
              row in t && t[row] == IdCell(e.ids.blockID(made[j].block))
  {
    hide Stack, IdLayer, IdKey, StaticIDs;
    if LatestID(made, id, j) {
      var row := Row(IdKey(id), 0, made[j].block.height);
      var i := StackIs(IdLayers(e, made), row);
      forall k: nat | k < |made| ensures row in IdLayers(e, made)[k] <==>
                                           made[k].block.height == made[j].block.height && id in made[k].systemResults
      {
        IdRows(e, made[k], row, id);
      }
      assert row in IdLayers(e, made)[j] && i == j;
      IdRows(e, made[j], row, id);
    }
  }

  lemma IdFound(e: Engine, made: seq<Commit>, id: Identifier, row: Row) returns (j: nat)
    requires row in Stack(IdLayers(e, made)) && row.key == IdKey(id)
    ensures LatestID(made, id, j) && Stack(IdLayers(e, made))[row] == IdCell(e.ids.blockID(made[j].block))
  {
    hide Stack, IdLayer, IdKey, StaticIDs;
    j := StackIs(IdLayers(e, made), row);
    IdRows(e, made[j], row, id);
    forall k: nat | k < |made| ensures row in IdLayers(e, made)[k] <==>
                                         row == Row(IdKey(id), 0, made[k].block.height) && id in made[k].systemResults
    {
      IdRows(e, made[k], row, id);
    }
  }

  lemma RanTransaction(made: seq<Commit>, id: Identifier, j: nat)
    requires LatestID(made, id, j)
    ensures j < |made| && id in made[j].systemResults
  {}

  /** The same for the entries of a transaction. */
  lemma IdEntry(e: Engine, db: Db, made: seq<Commit>, id: Identifier, entry: Option<Cell>)
    requires IndexKept(e, db, made) && id !in StaticIDs(e)
    ensures Reads(db.tables.scheduledBlockIndex, IdKey(id), 0, entry) <==>
              match entry
              case None => forall j | 0 <= j < |made| :: id !in made[j].systemResults
              case Some(cell) =>
                exists j: nat | j < |made| && LatestID(made, id, j) :: cell == IdCell(e.ids.blockID(made[j].block))
  {
    hide Reads, Stack, IdLayers, LatestID, IdKey, StaticIDs;
    var t, key := db.tables.scheduledBlockIndex, IdKey(id);
    NumbersUnversioned(e, made);
    UnversionedReads(t, key, entry);
    if entry.None? && forall j | 0 <= j < |made| :: id !in made[j].systemResults {
      forall row | row in t ensures row.key != key {
        if row.key == key {
          var j := IdFound(e, made, id, row);
          RanTransaction(made, id, j);
        }
      }
    }
    if entry.None? && forall row | row in t :: row.key != key {
      forall j | 0 <= j < |made| ensures id !in made[j].systemResults {
        if id in made[j].systemResults {
          var k := LatestIDAt(made, id, j);
          IdStored(e, made, id, k);
        }
      }
    }
    if entry.Some? {
      if row :| row in t && row.key == key && t[row] == entry.value {
        var j := IdFound(e, made, id, row);
        RanTransaction(made, id, j);
      }
      if j: nat :| j < |made| && LatestID(made, id, j) && entry.value == IdCell(e.ids.blockID(made[j].block)) {
        RanTransaction(made, id, j);
        IdStored(e, made, id, j);
      }
    }
  }

  /** The process transaction and the system chunk have no entry. */
  lemma StaticEntry(e: Engine, db: Db, made: seq<Commit>, id: Identifier, entry: Option<Cell>)
    requires IndexKept(e, db, made)
    requires id == e.ids.transactionID(e.process) || id == e.ids.transactionID(e.chunk)
    ensures Reads(db.tables.scheduledBlockIndex, IdKey(id), 0, entry) <==> entry == None
  {
    hide Reads, Stack, IdLayer, IdKey;
    var t := db.tables.scheduledBlockIndex;
    forall row | row in t ensures row.key != IdKey(id) {
      var j := StackIs(IdLayers(e, made), row);
      IdRows(e, made[j], row, id);
    }
    NoRowAnswers(t, IdKey(id), 0, entry);
  }

  // ---------------------------------------------------------------- what the lists answer

  /** The list of system transactions last stored for a block. */
  function LastList(ids: Hashes, made: seq<Commit>, b: Identifier): (list: Option<SystemTransactions>) {
    if made == [] then None
    else
      var c := made[|made| - 1];
      if ids.blockID(c.block) == b && (|c.systemIDs| > 0 || |c.scheduled| > 0)
      then Some(SystemTransactions(b, c.systemIDs, c.scheduled))
      else LastList(ids, made[..|made| - 1], b)
  }

  lemma ListRow(ids: Hashes, c: Commit, row: Row, b: Identifier)
    ensures row in SystemRows(ids, c) && row.key == IdKey(b) <==>
              && row == Row(IdKey(b), 0, c.block.height) && ids.blockID(c.block) == b
              && (|c.systemIDs| > 0 || |c.scheduled| > 0)
    ensures row in SystemRows(ids, c) ==> row.version == 0
    ensures row in SystemRows(ids, c) && row.key == IdKey(b) ==>
              SystemRows(ids, c)[row] == SystemCell(SystemTransactions(b, c.systemIDs, c.scheduled))
  {
    hide IdKey, UnHex;
  }

  /** The rows under a block's identifier: one at most, with its last list. */
  lemma {:induction false} ListStored(e: Engine, made: seq<Commit>, b: Identifier, block: Block)
    requires e.ids.Injective() && e.ids.blockID(block) == b
    ensures var t, row := Stack(ListLayers(e, made)), Row(IdKey(b), 0, block.height);
            && (forall other | other in t :: other.version == 0 && (other.key == IdKey(b) ==> other == row))
            && (row in t <==> LastList(e.ids, made, b).Some?)
            && (row in t ==> t[row] == SystemCell(LastList(e.ids, made, b).value))
  {
    hide IdKey, UnHex, SystemRows, NumberLayer, IdLayer;
    if made != [] {
      var n := |made| - 1;
      ListStored(e, made[..n], b, block);
      assert made == made[..n] + [made[n]];
      LayersSnoc(e, made[..n], made[n]);
      if e.ids.blockID(made[n].block) == b { SameBlock(e.ids, made[n].block, block); }
      forall row: Row
        ensures row in SystemRows(e.ids, made[n]) ==> row.version == 0
        ensures row in SystemRows(e.ids, made[n]) && row.key == IdKey(b) <==>
                  && row == Row(IdKey(b), 0, made[n].block.height) && e.ids.blockID(made[n].block) == b
                  && (|made[n].systemIDs| > 0 || |made[n].scheduled| > 0)
      {
        ListRow(e.ids, made[n], row, b);
      }
      ListRow(e.ids, made[n], Row(IdKey(b), 0, block.height), b);
    }
  }

  /** The list read for a block that was ever made is the one last stored for it. */
  lemma ListEntry(e: Engine, db: Db, made: seq<Commit>, block: Block, r: Option<Cell>)
    requires e.ids.Injective() && IndexKept(e, db, made)
    ensures SqlAnswers(db, SystemTransactionsForBlockID(e.ids.blockID(block)), r) <==>
              r == match LastList(e.ids, made, e.ids.blockID(block)) case None => None case Some(l) => Some(SystemCell(l))
  {
    hide Stack, IdKey, UnHex, LastList, Reads;
    var b, t := e.ids.blockID(block), db.tables.systemTransactions;
    ListStored(e, made, b, block);
    UnversionedReads(t, IdKey(b), r);
    var row := Row(IdKey(b), 0, block.height);
    if row in t {
      assert Reads(t, IdKey(b), 0, Some(t[row])) by { UnversionedReads(t, IdKey(b), Some(t[row])); }
    }
  }
}
