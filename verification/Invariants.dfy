/** What every step keeps, and so what holds in every state of every run. */
module Invariants {
  import opened Types
  import opened Keys
  import opened Tables
  import opened Storage
  import opened History
  import opened StoreQueries
  import opened Pending
  import opened Chain

  // ---------------------------------------------------------------- good commits

  function UserIDs(c: Commit): (ids: seq<Identifier>) {
    if c.collections == [] then [] else c.collections[0]
  }

  ghost predicate Names(results: map<Identifier, StorableResult>, blockID: Identifier, height: nat) {
    forall id | id in results :: results[id].blockID == blockID && results[id].blockHeight == height
  }

  ghost predicate ProperUsers(e: Engine, c: Commit) {
    && (c.collections == if UserIDs(c) == [] then [] else [UserIDs(c)])
    && (c.block.guarantees == if UserIDs(c) == [] then [] else [e.ids.collectionID(UserIDs(c))])
    && NoDuplicates(UserIDs(c)) && c.transactions.Keys == c.results.Keys == Elements(UserIDs(c))
    && Names(c.results, e.ids.blockID(c.block), c.block.height)
  }

  ghost predicate ProperSystem(e: Engine, c: Commit) {
    && NoDuplicates(c.systemIDs) && c.systemBodies.Keys == c.systemResults.Keys == Elements(c.systemIDs)
    && c.systemIDs != [] && c.systemIDs[|c.systemIDs| - 1] == e.ids.transactionID(e.chunk)
    && (forall n | n in c.scheduled :: c.scheduled[n] in c.systemResults && c.scheduled[n] !in StaticIDs(e))
    && Names(c.systemResults, e.ids.blockID(c.block), c.block.height)
  }

  /** A commit as the engine makes them: each transaction listed once, under its
      own hash, with a result naming the block it was sealed in. */
  ghost predicate Proper(e: Engine, c: Commit) {
    ProperUsers(e, c) && ProperSystem(e, c) && ContentAddressed(e.ids, c)
  }

  ghost predicate Follows(e: Engine, prev: Block, next: Block) {
    && next.height == prev.height + 1 && next.parentID == e.ids.blockID(prev)
    && prev.view + 1 <= next.view <= prev.view + MAX_VIEW_INCREASE
  }

  ghost predicate Unused(hist: seq<Commit>, id: Identifier) {
    forall i | 0 <= i < |hist| :: id !in hist[i].transactions && id !in hist[i].systemBodies
  }

  /** A user transaction is in no block before its own, in any role. */
  ghost predicate NeverReused(hist: seq<Commit>) {
    forall i, j, id | 0 <= i < j < |hist| && id in hist[j].transactions ::
      id !in hist[i].transactions && id !in hist[i].systemBodies
  }

  ghost predicate GoodHistory(e: Engine, hist: seq<Commit>) {
    && hist != [] && hist[0] == GenesisCommit(e) && ConsecutiveFrom(hist, 0)
    && (forall i | 0 < i < |hist| :: Proper(e, hist[i]) && Follows(e, hist[i - 1].block, hist[i].block))
    && NeverReused(hist)
  }

  // ---------------------------------------------------------------- the invariant

  /** `id` is the identifier of a block of the given height. */
  ghost predicate IdentifiesBlockAt(ids: Hashes, id: Identifier, height: nat) {
    exists b: Block :: ids.blockID(b) == id && b.height == height
  }

  function SystemListOf(e: Engine, c: Commit): (cell: Cell) {
    SystemCell(SystemTransactions(e.ids.blockID(c.block), c.systemIDs, c.scheduled))
  }

  /** The lists of system transactions survive rollbacks, but each one stays
      under the identifier and height of its own block, above genesis. */
  ghost predicate SystemListsKept(e: Engine, t: Table, hist: seq<Commit>) {
    && (forall row | row in t :: row.version == 0 && row.height > 0 && t[row].SystemCell?
                                 && row.key == IdKey(t[row].system.blockID)
                                 && IdentifiesBlockAt(e.ids, t[row].system.blockID, row.height))
    && (forall i | 0 < i < |hist| ::
          var row := Row(IdKey(e.ids.blockID(hist[i].block)), 0, i);
          row in t && t[row] == SystemListOf(e, hist[i]))
  }

  ghost predicate PendingOn(e: Engine, p: Pending, hist: seq<Commit>)
    requires hist != []
  {
    && p.WellFormed(e.ids)
    && Follows(e, hist[|hist| - 1].block, p.ToBlock(e.ids))
    && forall id | id in p.transactions :: Unused(hist, id)
  }

  ghost predicate Inv(e: Engine, c: Chain, hist: seq<Commit>) {
    && e.ids.Injective() && hist != []
    && GoodHistory(e, hist)
    && Holds(e.ids, c.db, hist)
    && SystemListsKept(e, c.db.tables.systemTransactions, hist)
    && PendingOn(e, c.pending, hist)
  }

  /** The chain of commits after a step. */
  function Extend(hist: seq<Commit>, outcome: Outcome): (after: seq<Commit>) {
    match outcome
    case Sealed(commit) => hist + [commit]
    case Pruned(height) => if height < |hist| then hist[..height + 1] else hist
    case _ => hist
  }

  /** The commits still standing after steps with these outcomes. */
  function Standing(hist: seq<Commit>, log: seq<Outcome>): (after: seq<Commit>) {
    if log == [] then hist
    else Extend(Standing(hist, log[..|log| - 1]), log[|log| - 1])
  }

  // ---------------------------------------------------------------- consequences

  lemma CommitIsGood(e: Engine, hist: seq<Commit>, i: nat)
    requires GoodHistory(e, hist) && i < |hist|
    ensures ContentAddressed(e.ids, hist[i]) && hist[i].results.Keys == hist[i].transactions.Keys
  {
    hide Follows, NeverReused, ConsecutiveFrom;
  }

  lemma GoodIsConsistent(e: Engine, hist: seq<Commit>)
    requires e.ids.Injective() && GoodHistory(e, hist)
    ensures Consistent(e.ids, hist)
  {
    hide Proper, Follows, ContentAddressed;
    forall i | 0 <= i < |hist|
      ensures ContentAddressed(e.ids, hist[i]) && hist[i].results.Keys == hist[i].transactions.Keys
    {
      CommitIsGood(e, hist, i);
    }
    forall i, j, id | 0 <= i < |hist| && 0 <= j < |hist| && id in hist[i].results && id in hist[j].results
      ensures i == j
    {
      assert id in hist[i].transactions && id in hist[j].transactions;
    }
  }

  lemma {:induction false} UnusedHasNoBody(hist: seq<Commit>, id: Identifier)
    ensures Unused(hist, id) <==> BodyIn(hist, id) == None
  {
    if hist != [] {
      var n := |hist| - 1;
      UnusedHasNoBody(hist[..n], id);
      if Unused(hist, id) {
        forall i | 0 <= i < n ensures id !in hist[..n][i].transactions && id !in hist[..n][i].systemBodies {}
      }
      if BodyIn(hist, id) == None {
        forall i | 0 <= i < |hist| ensures id !in hist[i].transactions && id !in hist[i].systemBodies {
          if i < n { assert hist[..n][i] == hist[i]; }
        }
      }
    }
  }

  /** Under the invariant the store answers for the standing chain. */
  lemma Answers(e: Engine, c: Chain, hist: seq<Commit>, q: Query)
    requires Inv(e, c, hist) && !q.SystemTransactionsForBlockID?
    ensures Answer(c.db, q) == ChainAnswer(e.ids, hist, q)
  {
    hide SqlAnswers, ChainAnswer, GoodHistory, SystemListsKept, PendingOn, Holds, Consistent;
    GoodIsConsistent(e, hist);
    SqlAnswersChain(e.ids, c.db, hist, q, Answer(c.db, q));
  }
}
