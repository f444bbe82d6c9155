/** What holds over whole runs: the shape of the chain, what rollback restores
    and what it cannot touch. */
module Safety {
  import opened Types
  import opened Tables
  import opened Storage
  import opened History
  import opened StoreQueries
  import opened Pending
  import opened Chain
  import opened Invariants
  import opened Runs

  // ---------------------------------------------------------------- unfolding a run

  lemma LastStep(e: Engine, c: Chain, hist: seq<Commit>, steps: seq<Step>)
    requires Inv(e, c, hist) && steps != []
    ensures var n := |steps| - 1;
            var (d, log) := Continue(e, c, hist, steps[..n]);
            && Inv(e, d, Standing(hist, log)) && d.pending.WellFormed(e.ids)
            && var (f, outcome) := Next(e, d, steps[n]);
               && Continue(e, c, hist, steps) == (f, log + [outcome])
               && Standing(hist, log + [outcome]) == Extend(Standing(hist, log), outcome)
  {
    hide Inv, Next;
    var n := |steps| - 1;
    var (d, log) := Continue(e, c, hist, steps[..n]);
    NextKeeps(e, d, Standing(hist, log), steps[n]);
    var (f, outcome) := Next(e, d, steps[n]);
    assert (log + [outcome])[..|log|] == log;
  }

  // ---------------------------------------------------------------- the shape of the chain

  /** Block h of a chain from genesis has a view between h and 3h. */
  lemma {:induction false} ViewBounds(e: Engine, hist: seq<Commit>, h: nat)
    requires GoodHistory(e, hist) && h < |hist|
    ensures h <= hist[h].block.view <= MAX_VIEW_INCREASE * h
  {
    hide Proper, NeverReused;
    if h > 0 {
      ViewBounds(e, hist, h - 1);
      assert Follows(e, hist[h - 1].block, hist[h].block);
    }
  }

  /** Blocks are stored at exactly the heights up to some tip; each is linked to
      its predecessor by identifier; views rise by 1 to 3 a block; and the pending
      block continues the same line. */
  ghost predicate Linked(e: Engine, c: Chain, tip: nat) {
    && (forall h: nat, r | SqlAnswers(c.db, BlockByHeight(h), r) ::
          if h > tip then r == None
          else r.Some? && r.value.BlockCell? && r.value.block.height == h
               && h <= r.value.block.view <= MAX_VIEW_INCREASE * h)
    && (forall h: nat, p, q | h < tip && SqlAnswers(c.db, BlockByHeight(h), Some(BlockCell(p)))
                         && SqlAnswers(c.db, BlockByHeight(h + 1), Some(BlockCell(q))) :: Follows(e, p, q))
    && (forall p | SqlAnswers(c.db, BlockByHeight(tip), Some(BlockCell(p))) ::
          Follows(e, p, c.pending.ToBlock(e.ids)))
    && (forall r | SqlAnswers(c.db, LatestBlock, r) :: SqlAnswers(c.db, BlockByHeight(tip), r))
  }

  lemma ChainShape(e: Engine, dice: nat, now: nat, steps: seq<Step>)
    requires e.ids.Injective()
    ensures var (c, log) := Run(e, dice, now, steps);
            var hist := Standing([GenesisCommit(e)], log);
            hist != [] && Linked(e, c, |hist| - 1)
  {
    hide Run, Inv, Linked, Standing;
    var (c, log) := Run(e, dice, now, steps);
    ShapeByInv(e, c, Standing([GenesisCommit(e)], log));
  }

  lemma BlockAnswers(e: Engine, c: Chain, hist: seq<Commit>, h: nat, r: Option<Cell>)
    requires Inv(e, c, hist)
    ensures SqlAnswers(c.db, BlockByHeight(h), r) <==> r == if h < |hist| then Some(BlockCell(hist[h].block)) else None
    ensures SqlAnswers(c.db, LatestBlock, r) <==> r == Some(BlockCell(hist[|hist| - 1].block))
  {
    hide SqlAnswers, GoodHistory, Holds, SystemListsKept, PendingOn, Consistent;
    GoodIsConsistent(e, hist);
    SqlAnswersChain(e.ids, c.db, hist, BlockByHeight(h), r);
    SqlAnswersChain(e.ids, c.db, hist, LatestBlock, r);
  }

  lemma BlocksFollow(e: Engine, c: Chain, hist: seq<Commit>, h: nat)
    requires Inv(e, c, hist) && h < |hist|
    ensures hist[h].block.height == h && h <= hist[h].block.view <= MAX_VIEW_INCREASE * h
    ensures Follows(e, hist[h].block, if h < |hist| - 1 then hist[h + 1].block else c.pending.ToBlock(e.ids))
  {
    hide Proper, NeverReused, Holds, SystemListsKept, Unused;
    ViewBounds(e, hist, h);
  }

  lemma ShapeByInv(e: Engine, c: Chain, hist: seq<Commit>)
    requires Inv(e, c, hist)
    ensures hist != [] && Linked(e, c, |hist| - 1)
  {
    hide Inv, SqlAnswers, Follows;
    InvPending(e, c, hist);
    forall h: nat, r
      ensures SqlAnswers(c.db, BlockByHeight(h), r) <==> r == if h < |hist| then Some(BlockCell(hist[h].block)) else None
    {
      BlockAnswers(e, c, hist, h, r);
    }
    forall r ensures SqlAnswers(c.db, LatestBlock, r) <==> r == Some(BlockCell(hist[|hist| - 1].block)) {
      BlockAnswers(e, c, hist, 0, r);
    }
    forall h: nat | h < |hist| ensures hist[h].block.height == h && h <= hist[h].block.view <= MAX_VIEW_INCREASE * h {
      BlocksFollow(e, c, hist, h);
    }
    forall h: nat, p, q | h < |hist| - 1 && SqlAnswers(c.db, BlockByHeight(h), Some(BlockCell(p)))
                          && SqlAnswers(c.db, BlockByHeight(h + 1), Some(BlockCell(q)))
      ensures Follows(e, p, q)
    {
      BlocksFollow(e, c, hist, h);
    }
    BlocksFollow(e, c, hist, |hist| - 1);
  }

  // ---------------------------------------------------------------- history is immutable

  /** No rollback in the log goes below `height`. */
  ghost predicate NotBelow(log: seq<Outcome>, height: nat) {
    forall i | 0 <= i < |log| && log[i].Pruned? :: log[i].height >= height
  }

  lemma {:induction false} PrefixStands(hist: seq<Commit>, log: seq<Outcome>, height: nat)
    requires height < |hist| && NotBelow(log, height)
    ensures hist[..height + 1] <= Standing(hist, log)
  {
    if log != [] {
      var n := |log| - 1;
      assert NotBelow(log[..n], height) by {
        forall i | 0 <= i < n && log[..n][i].Pruned? ensures log[..n][i].height >= height { assert log[..n][i] == log[i]; }
      }
      PrefixStands(hist, log[..n], height);
    }
  }

  /** Questions about one height. */
  function AboutHeight(q: Query): (h: Option<nat>) {
    match q
    case BlockByHeight(h) => Some(h)
    case EventsByHeight(h, kind) => Some(h)
    case RegisterAtHeight(id, h) => Some(h)
    case _ => None
  }

  lemma AnswerFromPrefix(ids: Hashes, hist: seq<Commit>, more: seq<Commit>, q: Query, height: nat)
    requires height < |hist| && hist[..height + 1] <= more
    requires AboutHeight(q).Some? && AboutHeight(q).value <= height
    ensures ChainAnswer(ids, hist, q) == ChainAnswer(ids, more, q)
  {
    var h := AboutHeight(q).value;
    assert hist[h] == hist[..height + 1][h] == more[h];
    if q.RegisterAtHeight? {
      RegistersAtPrefix(hist[..height + 1], hist, h);
      RegistersAtPrefix(hist[..height + 1], more, h);
    }
  }

  /** Once block `height` is committed, every register, block and event list read
      at or below it stays as it is, whatever is added, executed, committed or
      rolled back to that height or above. */
  lemma HistoryIsImmutable(e: Engine, c: Chain, hist: seq<Commit>, steps: seq<Step>, height: nat, q: Query,
                           r: Option<Cell>)
    requires Inv(e, c, hist) && height < |hist|
    requires NotBelow(Continue(e, c, hist, steps).1, height)
    requires AboutHeight(q).Some? && AboutHeight(q).value <= height
    ensures SqlAnswers(c.db, q, r) <==> SqlAnswers(Continue(e, c, hist, steps).0.db, q, r)
  {
    var (d, log) := Continue(e, c, hist, steps);
    var more := Standing(hist, log);
    hide Continue, SqlAnswers, ChainAnswer, GoodHistory, Holds, Consistent, SystemListsKept, PendingOn, Standing;
    PrefixStands(hist, log, height);
    GoodIsConsistent(e, hist);
    GoodIsConsistent(e, more);
    SqlAnswersChain(e.ids, c.db, hist, q, r);
    SqlAnswersChain(e.ids, d.db, more, q, r);
    AnswerFromPrefix(e.ids, hist, more, q, height);
  }

  // ---------------------------------------------------------------- rollback restores

  /** Take any state whose tip is block `height`, let anything happen on top of
      it, and roll back to `height`: the covered tables are row for row what they
      were, and the pending block is a new one on top of that tip. */
  lemma RollbackRestores(e: Engine, c: Chain, hist: seq<Commit>, steps: seq<Step>, dice: nat, now: nat)
    requires Inv(e, c, hist)
    requires NotBelow(Continue(e, c, hist, steps).1, |hist| - 1)
    requires |Standing(hist, Continue(e, c, hist, steps).1)| > |hist|
    ensures var height := |hist| - 1;
            var (d, outcome) := Prune(e, Continue(e, c, hist, steps).0, height, dice, now);
            && outcome == Pruned(height)
            && d.db.current == height && d.db.LatestHeight() == Some(height)
            && (forall name | Covered(name) :: d.db.Rows(name) == c.db.Rows(name))
            && d.pending == Fresh(e.ids, hist[height].block, dice, now)
  {
    hide Inv, Continue, Standing, Prune, Fresh;
    SameTables(e, c, c, hist);
    var height := |hist| - 1;
    var (mid, log) := Continue(e, c, hist, steps);
    var more := Standing(hist, log);
    PrefixStands(hist, log, height);
    assert more[..height + 1] == hist && more[height] == hist[height];
    PruneKeeps(e, mid, more, height, dice, now);
    SameTables(e, c, Prune(e, mid, height, dice, now).0, hist);
  }

  /** The covered tables are a function of the standing commits. */
  lemma SameTables(e: Engine, c: Chain, d: Chain, hist: seq<Commit>)
    requires Inv(e, c, hist) && Inv(e, d, hist)
    ensures hist != [] && d.db.current == |hist| - 1 && d.db.LatestHeight() == Some(|hist| - 1)
    ensures forall name | Covered(name) :: d.db.Rows(name) == c.db.Rows(name)
  {
    hide GoodHistory, SystemListsKept, PendingOn, Replayed;
  }
}
