/** Scheduled transactions: their numbers survive printing and parsing, and the
    three ways of asking for their results agree. */
module ScheduledLookups {
  import opened Types
  import opened Keys
  import opened Tables
  import opened Storage
  import opened History
  import opened StoreQueries
  import opened Scheduled
  import opened Pending
  import opened Chain
  import opened Invariants
  import opened Runs
  import opened Lookups
  import opened ScheduledIndexes

  // ---------------------------------------------------------------- no number is dropped

  /** The first k transactions under their numbers, as far as there are numbers. */
  function NumberAll(numbers: seq<nat>, ids: seq<Identifier>, k: nat): (m: map<nat, Identifier>)
    requires k <= |ids|
  {
    if k == 0 then map[]
    else
      var before := NumberAll(numbers, ids, k - 1);
      if k - 1 < |numbers| then before[numbers[k - 1] := ids[k - 1]] else before
  }

  lemma {:induction false} CallbacksKeepNumbers(
    e: Engine, context: Context, base: Ledger, first: nat, work: Work,
    txs: seq<TransactionBody>, numbers: seq<nat>, k: nat, run: SystemRun)
    requires k <= |txs| && forall n | n in numbers :: n <= MAX_UINT64
    requires run.scheduled == NumberAll(numbers, IdsOf(e.ids, txs), k)
    ensures var r := RunCallbacks(e, context, base, first, work, txs, Printed(numbers), k, run).1;
            r.Some? ==> r.value.scheduled == NumberAll(numbers, IdsOf(e.ids, txs), |txs|)
    decreases |txs| - k
  {
    hide Decimal, FromDecimal, ScanUint64;
    if k < |txs| {
      var id, index := e.ids.transactionID(txs[k]), first + 1 + k;
      match e.vm(context, txs[k], index, base + work.writes)
      case Fatal =>
      case Unmerged(output) =>
      case Ran(output, writes) =>
        if e.converts(output) {
          var added := run.Adding(id, txs[k], output, index);
          var numbered := if k < |numbers| then added.Numbering(Printed(numbers)[k], id) else added;
          if k < |numbers| {
            assert numbers[k] in numbers;
            ScanOfDecimal(numbers[k]);
          }
          CallbacksKeepNumbers(e, context, base, first, work.Merging(output, writes), txs, numbers, k + 1, numbered);
        }
    }
  }

  lemma {:induction false} AnnouncedBounded(a: Announcement, events: seq<Event>)
    requires a.Bounded()
    ensures Announced(a, events).Some? ==> forall n | n in Announced(a, events).value :: n <= MAX_UINT64
  {
    if events != [] { AnnouncedBounded(a, events[..|events| - 1]); }
  }

  /** The numbers recorded for a block are exactly those announced by the process
      transaction, paired in order with the callbacks: printing and parsing lose
      none of them. */
  lemma NumbersAreKept(e: Engine, context: Context, base: Ledger, first: nat, work: Work)
    requires e.announcement.Bounded() && RunScheduled(e, context, base, first, work).1.Some?
    ensures var events := e.vm(context, e.process, first, base + work.writes).output.events;
            var txs, numbers := e.callbacks(events).value, Announced(e.announcement, events).value;
            RunScheduled(e, context, base, first, work).1.value.scheduled ==
            NumberAll(numbers, IdsOf(e.ids, txs), |txs|)
  {
    hide RunCallbacks, Announced, Printed;
    var Ran(output, writes) := e.vm(context, e.process, first, base + work.writes);
    var txs, numbers := e.callbacks(output.events).value, Announced(e.announcement, output.events).value;
    AnnouncedBounded(e.announcement, output.events);
    CallbacksKeepNumbers(e, context, base, first, work.Merging(output, writes), txs, numbers, 0,
                         NO_SYSTEM_RUN.Adding(e.ids.transactionID(e.process), e.process, output, first));
  }

  /** With distinct numbers, the i-th number finds the i-th callback. */
  lemma {:induction false} NumberFinds(numbers: seq<nat>, ids: seq<Identifier>, k: nat, i: nat)
    requires k <= |ids| && i < k && i < |numbers| && NoDuplicates(numbers)
    ensures numbers[i] in NumberAll(numbers, ids, k) && NumberAll(numbers, ids, k)[numbers[i]] == ids[i]
  {
    if i < k - 1 {
      NumberFinds(numbers, ids, k - 1, i);
    }
  }

  // ---------------------------------------------------------------- the three lookups

  /** A system transaction has one result in a block that stands, and none in any
      other. */
  lemma AnySystemAnswer(e: Engine, c: Chain, hist: seq<Commit>, b: Identifier, id: Identifier, r: TransactionResult)
    requires Inv(e, c, hist)
    ensures SystemAnswers(c, b, id, r) <==> r == FromCell(id, SystemResultIn(e.ids, hist, b, id))
  {
    hide SqlAnswers, GoodHistory, Holds, SystemListsKept, PendingOn, Consistent, SystemResultIn, FromCell;
    GoodIsConsistent(e, hist);
    var stored := SystemResultIn(e.ids, hist, b, id);
    forall cell ensures SqlAnswers(c.db, SystemTransactionResultByID(b, id), cell) <==> cell == stored {
      SqlAnswersChain(e.ids, c.db, hist, SystemTransactionResultByID(b, id), cell);
    }
    assert SqlAnswers(c.db, SystemTransactionResultByID(b, id), stored);
  }

  lemma SystemAnswer(e: Engine, c: Chain, hist: seq<Commit>, i: nat, id: Identifier, r: TransactionResult)
    requires Inv(e, c, hist) && i < |hist| && id in hist[i].systemResults
    ensures SystemAnswers(c, e.ids.blockID(hist[i].block), id, r) <==> r == ToResult(id, hist[i].systemResults[id])
  {
    hide Inv, GoodHistory, SystemAnswers, HeightOf;
    InvHistory(e, c, hist);
    GoodIsConsecutive(e, hist);
    OwnHeight(e.ids, hist, i);
    AnySystemAnswer(e, c, hist, e.ids.blockID(hist[i].block), id, r);
  }

  lemma ScheduledIsSystem(e: Engine, hist: seq<Commit>, i: nat, n: nat)
    requires GoodHistory(e, hist) && i < |hist| && n in hist[i].scheduled
    ensures 0 < i && hist[i].scheduled[n] in hist[i].systemResults && hist[i].scheduled[n] !in StaticIDs(e)
  {
    hide Follows, NeverReused, ConsecutiveFrom, StaticIDs, ProperUsers;
    assert i > 0;
    assert Proper(e, hist[i]);
  }

  lemma NumberInBlockAnswer(e: Engine, c: Chain, hist: seq<Commit>, i: nat, n: nat, r: Option<TransactionResult>)
    requires Inv(e, c, hist) && i < |hist| && n in hist[i].scheduled
    ensures hist[i].scheduled[n] in hist[i].systemResults
    ensures var id := hist[i].scheduled[n];
            NumberInBlockAnswers(c, n, e.ids.blockID(hist[i].block), r) <==>
            r == Some(ToResult(id, hist[i].systemResults[id]))
  {
    hide Inv, GoodHistory, SqlAnswers, SystemAnswers, StaticIDs;
    InvHistory(e, c, hist);
    ScheduledIsSystem(e, hist, i, n);
    var b, id, list := e.ids.blockID(hist[i].block), hist[i].scheduled[n], Some(SystemListOf(e, hist[i]));
    forall x ensures SqlAnswers(c.db, SystemTransactionsForBlockID(b), x) <==> x == list {
      SystemListAnswer(e, c, hist, i, x);
    }
    assert SqlAnswers(c.db, SystemTransactionsForBlockID(b), list);
    if r.Some? { SystemAnswer(e, c, hist, i, id, r.value); }
  }

  /** `r` is the result of a system transaction in block i. */
  ghost predicate ResultOf(hist: seq<Commit>, i: nat, id: Identifier, r: TransactionResult)
    requires i < |hist|
  {
    id in hist[i].systemResults && r == ToResult(id, hist[i].systemResults[id])
  }

  /** What a block answers for a number: nothing unless its last list has it, and
      the result of the transaction listed there, unknown unless the block stands. */
  function NumberResult(ids: Hashes, hist: seq<Commit>, made: seq<Commit>, n: nat, b: Identifier)
    : (r: Option<TransactionResult>)
  {
    var list := LastList(ids, made, b);
    if list.Some? && n in list.value.scheduled then
      var id := list.value.scheduled[n];
      Some(FromCell(id, SystemResultIn(ids, hist, b, id)))
    else None
  }

  /** In every run, asking for a number in a block has one answer, whether the
      block stands, was rolled back or was never made. */
  lemma NumberInBlockExactly(e: Engine, c: Chain, hist: seq<Commit>, made: seq<Commit>, n: nat, block: Block,
                             r: Option<TransactionResult>)
    requires Inv(e, c, hist) && IndexKept(e, c.db, made)
    ensures var b := e.ids.blockID(block);
            LookupAnswers(c, ByNumberInBlock(n, b), r) <==> r == NumberResult(e.ids, hist, made, n, b)
  {
    hide Inv, GoodHistory, IndexKept, SqlAnswers, SystemAnswers, SystemResultIn, FromCell, LastList;
    InvHistory(e, c, hist);
    var b := e.ids.blockID(block);
    var last := LastList(e.ids, made, b);
    var list := match last case None => None case Some(l) => Some(SystemCell(l));
    forall x ensures SqlAnswers(c.db, SystemTransactionsForBlockID(b), x) <==> x == list {
      ListEntry(e, c.db, made, block, x);
    }
    assert SqlAnswers(c.db, SystemTransactionsForBlockID(b), list);
    if r.Some? && last.Some? && n in last.value.scheduled {
      AnySystemAnswer(e, c, hist, b, last.value.scheduled[n], r.value);
    }
  }

  /** In every run, asking by number can give exactly what is answered by the
      blocks ever made that ran the number, the latest at each height, and "not
      found" when none did. */
  lemma ByNumberExactly(e: Engine, c: Chain, hist: seq<Commit>, made: seq<Commit>, n: nat, r: Option<TransactionResult>)
    requires Inv(e, c, hist) && IndexKept(e, c.db, made)
    ensures LookupAnswers(c, ByNumber(n), r) <==>
              || (r == None && forall j | 0 <= j < |made| :: n !in made[j].scheduled)
              || exists j: nat | j < |made| && LatestNumber(made, n, j) ::
                   r == NumberResult(e.ids, hist, made, n, e.ids.blockID(made[j].block))
  {
    hide Inv, IndexKept, NumberInBlockAnswers, NumberResult, LatestNumber, Reads, ScheduledKey;
    var t, key := c.db.tables.scheduledIndex, ScheduledKey(n);
    if NumberAnswers(c, n, r) {
      var entry :| Reads(t, key, 0, entry)
                   && if entry.Some? && entry.value.IdCell? then NumberInBlockAnswers(c, n, entry.value.id, r)
                      else r == None;
      NumberEntry(e, c.db, made, n, entry);
      if entry.Some? {
        var j: nat :| j < |made| && LatestNumber(made, n, j) && entry.value == IdCell(e.ids.blockID(made[j].block));
        NumberInBlockExactly(e, c, hist, made, n, made[j].block, r);
      }
    }
    if r == None && forall j | 0 <= j < |made| :: n !in made[j].scheduled {
      NumberEntry(e, c.db, made, n, None);
      assert Reads(t, key, 0, None);
    }
    if j: nat :| j < |made| && LatestNumber(made, n, j) && r == NumberResult(e.ids, hist, made, n, e.ids.blockID(made[j].block)) {
      var entry := Some(IdCell(e.ids.blockID(made[j].block)));
      NumberEntry(e, c.db, made, n, entry);
      NumberInBlockExactly(e, c, hist, made, n, made[j].block, r);
      assert Reads(t, key, 0, entry) && NumberInBlockAnswers(c, n, entry.value.id, r);
    }
  }

  lemma IndexExactly(e: Engine, c: Chain, hist: seq<Commit>, made: seq<Commit>, id: Identifier, r: TransactionResult)
    requires Inv(e, c, hist) && IndexKept(e, c.db, made) && id !in StaticIDs(e)
    ensures IndexAnswers(c, id, r) <==>
              || (r == UnknownResult && forall j | 0 <= j < |made| :: id !in made[j].systemResults)
              || exists j: nat | j < |made| && LatestID(made, id, j) ::
                   r == FromCell(id, SystemResultIn(e.ids, hist, e.ids.blockID(made[j].block), id))
  {
    hide Inv, IndexKept, SystemAnswers, SystemResultIn, FromCell, LatestID, Reads, IdKey, StaticIDs;
    var t, key := c.db.tables.scheduledBlockIndex, IdKey(id);
    if IndexAnswers(c, id, r) {
      var entry :| Reads(t, key, 0, entry)
                   && if entry.Some? && entry.value.IdCell? then SystemAnswers(c, entry.value.id, id, r)
                      else r == UnknownResult;
      IdEntry(e, c.db, made, id, entry);
      if entry.Some? {
        var j: nat :| j < |made| && LatestID(made, id, j) && entry.value == IdCell(e.ids.blockID(made[j].block));
        AnySystemAnswer(e, c, hist, entry.value.id, id, r);
      }
    }
    if r == UnknownResult && forall j | 0 <= j < |made| :: id !in made[j].systemResults {
      IdEntry(e, c.db, made, id, None);
      assert Reads(t, key, 0, None);
    }
    if j: nat :| j < |made| && LatestID(made, id, j)
                 && r == FromCell(id, SystemResultIn(e.ids, hist, e.ids.blockID(made[j].block), id)) {
      var entry := Some(IdCell(e.ids.blockID(made[j].block)));
      IdEntry(e, c.db, made, id, entry);
      AnySystemAnswer(e, c, hist, entry.value.id, id, r);
      assert Reads(t, key, 0, entry) && SystemAnswers(c, entry.value.id, id, r);
    }
  }

  lemma TransactionAnswer(e: Engine, c: Chain, hist: seq<Commit>, id: Identifier, r: TransactionResult)
    requires Inv(e, c, hist) && id !in c.pending.transactions && ResultIn(hist, id) == None
    ensures ResultAnswers(c, id, r) <==> IndexAnswers(c, id, r)
  {
    hide Inv, SqlAnswers, IndexAnswers, ResultIn;
    forall cell ensures SqlAnswers(c.db, TransactionResultByID(id), cell) <==> cell == None {
      ResultAnswer(e, c, hist, id, cell);
    }
    assert SqlAnswers(c.db, TransactionResultByID(id), None);
  }

  /** The same by transaction identifier, for one that is neither pending, nor a
      user transaction, nor static. */
  lemma ByTransactionExactly(e: Engine, c: Chain, hist: seq<Commit>, made: seq<Commit>, id: Identifier,
                             r: TransactionResult)
    requires Inv(e, c, hist) && IndexKept(e, c.db, made)
    requires id !in c.pending.transactions && ResultIn(hist, id) == None && id !in StaticIDs(e)
    ensures LookupAnswers(c, ByTransaction(id), Some(r)) <==>
              || (r == UnknownResult && forall j | 0 <= j < |made| :: id !in made[j].systemResults)
              || exists j: nat | j < |made| && LatestID(made, id, j) ::
                   r == FromCell(id, SystemResultIn(e.ids, hist, e.ids.blockID(made[j].block), id))
  {
    hide Inv, IndexKept, StaticIDs, IndexAnswers, ResultAnswers, ResultIn, SystemResultIn, FromCell, LatestID;
    TransactionAnswer(e, c, hist, id, r);
    IndexExactly(e, c, hist, made, id, r);
  }

  // ---------------------------------------------------------------- system transactions of a block

  /** Which listed system transaction is asked for: the last one for the zero
      identifier, and otherwise the one with the identifier, if it is listed. */
  function Asked(listed: seq<Identifier>, txID: Identifier): (id: Option<Identifier>) {
    if txID == ZERO_ID then (if listed == [] then None else Some(listed[|listed| - 1]))
    else if txID in listed then Some(txID) else None
  }

  /** What a block answers for a system transaction, by its last list. */
  function ListedAnswer(ids: Hashes, hist: seq<Commit>, made: seq<Commit>, txID: Identifier, b: Identifier)
    : (r: Option<TransactionResult>)
  {
    var list := LastList(ids, made, b);
    if list.None? then None
    else
      var id := Asked(list.value.transactions, txID);
      if id.None? then None else Some(FromCell(id.value, SystemResultIn(ids, hist, b, id.value)))
  }

  /** In every run, asking a block for a system transaction has one answer, whether
      the block stands, was rolled back or was never made. */
  lemma BySystemExactly(e: Engine, c: Chain, hist: seq<Commit>, made: seq<Commit>, txID: Identifier, block: Block,
                        r: Option<TransactionResult>)
    requires Inv(e, c, hist) && IndexKept(e, c.db, made)
    ensures var b := e.ids.blockID(block);
            LookupAnswers(c, BySystemTransaction(txID, b), r) <==> r == ListedAnswer(e.ids, hist, made, txID, b)
  {
    hide Inv, GoodHistory, IndexKept, SqlAnswers, SystemAnswers, SystemResultIn, FromCell, LastList;
    InvHistory(e, c, hist);
    var b := e.ids.blockID(block);
    var last := LastList(e.ids, made, b);
    var list := match last case None => None case Some(l) => Some(SystemCell(l));
    forall x ensures SqlAnswers(c.db, SystemTransactionsForBlockID(b), x) <==> x == list {
      ListEntry(e, c.db, made, block, x);
    }
    assert SqlAnswers(c.db, SystemTransactionsForBlockID(b), list);
    if r.Some? && last.Some? && Asked(last.value.transactions, txID).Some? {
      AnySystemAnswer(e, c, hist, b, Asked(last.value.transactions, txID).value, r.value);
    }
  }

  /** A standing block above genesis answers for what it lists and nothing else: the
      zero identifier stands for the system chunk. */
  lemma SystemGives(e: Engine, c: Chain, hist: seq<Commit>, i: nat, txID: Identifier)
    requires Inv(e, c, hist) && 0 < i < |hist|
    ensures var b, chunk := e.ids.blockID(hist[i].block), e.ids.transactionID(e.chunk);
            var stored, l := hist[i].systemResults, BySystemTransaction(txID, b);
            if txID == ZERO_ID then chunk in stored && Gives(c, l, ToResult(chunk, stored[chunk]))
            else if txID in hist[i].systemIDs then txID in stored && Gives(c, l, ToResult(txID, stored[txID]))
            else forall r :: LookupAnswers(c, l, r) <==> r == None
  {
    hide Inv, GoodHistory, SqlAnswers, SystemAnswers, ToResult;
    InvHistory(e, c, hist);
    var b, list := e.ids.blockID(hist[i].block), Some(SystemListOf(e, hist[i]));
    forall x ensures SqlAnswers(c.db, SystemTransactionsForBlockID(b), x) <==> x == list {
      SystemListAnswer(e, c, hist, i, x);
    }
    assert SqlAnswers(c.db, SystemTransactionsForBlockID(b), list);
    ChunkIsLast(e, hist, i, txID);
    var id := if txID == ZERO_ID then e.ids.transactionID(e.chunk) else txID;
    if id in hist[i].systemResults {
      forall r { SystemAnswer(e, c, hist, i, id, r); }
    }
  }

  lemma ChunkIsLast(e: Engine, hist: seq<Commit>, i: nat, txID: Identifier)
    requires GoodHistory(e, hist) && 0 < i < |hist|
    ensures var listed := hist[i].systemIDs;
            && listed != [] && listed[|listed| - 1] == e.ids.transactionID(e.chunk)
            && e.ids.transactionID(e.chunk) in hist[i].systemResults
            && (txID in listed ==> txID in hist[i].systemResults)
  {
    hide Follows, NeverReused, ConsecutiveFrom, ProperUsers;
    assert Proper(e, hist[i]);
    var listed := hist[i].systemIDs;
    assert listed[|listed| - 1] in Elements(listed);
    if txID in listed { assert txID in Elements(listed); }
  }

  /** Genesis answers for no system transaction. */
  lemma GenesisGivesNone(e: Engine, c: Chain, hist: seq<Commit>, txID: Identifier, r: Option<TransactionResult>)
    requires Inv(e, c, hist)
    ensures LookupAnswers(c, BySystemTransaction(txID, e.ids.blockID(hist[0].block)), r) <==> r == None
  {
    hide Inv, SqlAnswers, SystemAnswers;
    InvPending(e, c, hist);
    var b := e.ids.blockID(hist[0].block);
    forall x ensures SqlAnswers(c.db, SystemTransactionsForBlockID(b), x) <==> x == None {
      GenesisHasNoList(e, c, hist, x);
    }
    assert SqlAnswers(c.db, SystemTransactionsForBlockID(b), None);
  }

  /** The result recorded in a block for a system transaction it lists, the system
      chunk for the zero identifier; nothing in genesis. */
  function AnswerIn(e: Engine, c: Commit, txID: Identifier): (r: Option<TransactionResult>) {
    var id := if txID == ZERO_ID then e.ids.transactionID(e.chunk) else txID;
    if id in c.systemIDs && id in c.systemResults then Some(ToResult(id, c.systemResults[id])) else None
  }

  lemma AnsweredIn(e: Engine, c: Chain, hist: seq<Commit>, i: nat, txID: Identifier, r: Option<TransactionResult>)
    requires Inv(e, c, hist) && i < |hist|
    ensures LookupAnswers(c, BySystemTransaction(txID, e.ids.blockID(hist[i].block)), r) <==> r == AnswerIn(e, hist[i], txID)
  {
    hide Inv, GoodHistory, LookupAnswers, ToResult;
    InvHistory(e, c, hist);
    if i == 0 {
      GenesisGivesNone(e, c, hist, txID, r);
      GenesisLists(e, hist);
    } else {
      ChunkIsLast(e, hist, i, txID);
      SystemGives(e, c, hist, i, txID);
    }
  }

  lemma AllAnswered(e: Engine, c: Chain, hist: seq<Commit>, txID: Identifier, b: Identifier, r: Option<TransactionResult>)
    requires LookupAnswers(c, BySystemTransaction(txID, b), r)
    ensures Inv(e, c, hist) ==> forall h: nat | h < |hist| && b == e.ids.blockID(hist[h].block) :: r == AnswerIn(e, hist[h], txID)
  {
    hide Inv, LookupAnswers, AnswerIn;
    if Inv(e, c, hist) {
      forall h: nat | h < |hist| && b == e.ids.blockID(hist[h].block) ensures r == AnswerIn(e, hist[h], txID) {
        AnsweredIn(e, c, hist, h, txID, r);
      }
    }
  }

  lemma GenesisLists(e: Engine, hist: seq<Commit>)
    requires GoodHistory(e, hist)
    ensures hist[0].systemIDs == []
  {
    hide Proper, Follows, NeverReused, ConsecutiveFrom;
  }

  /** The same over every run. */
  lemma SystemRunsGive(e: Engine, dice: nat, now: nat, steps: seq<Step>, i: nat, txID: Identifier)
    requires e.ids.Injective() && i < |Standing([GenesisCommit(e)], Run(e, dice, now, steps).1)|
    ensures var (c, log) := Run(e, dice, now, steps);
            var hist := Standing([GenesisCommit(e)], log);
            var l, stored := BySystemTransaction(txID, e.ids.blockID(hist[i].block)), hist[i].systemResults;
            var id := if txID == ZERO_ID then e.ids.transactionID(e.chunk) else txID;
            if i > 0 && id in hist[i].systemIDs then id in stored && Gives(c, l, ToResult(id, stored[id]))
            else forall r :: LookupAnswers(c, l, r) <==> r == None
  {
    hide Inv, Run, Standing, GoodHistory, Gives, LookupAnswers, ToResult;
    var (c, log) := Run(e, dice, now, steps);
    var hist := Standing([GenesisCommit(e)], log);
    if i == 0 {
      forall r { GenesisGivesNone(e, c, hist, txID, r); }
    } else {
      InvHistory(e, c, hist);
      ChunkIsLast(e, hist, i, txID);
      SystemGives(e, c, hist, i, txID);
    }
  }

  /** Asked by its identifier, a static system transaction is unknown, however often
      it was run, unless a user transaction has the same content. */
  lemma StaticIsUnknown(e: Engine, c: Chain, hist: seq<Commit>, made: seq<Commit>, id: Identifier, r: TransactionResult)
    requires Inv(e, c, hist) && IndexKept(e, c.db, made)
    requires id == e.ids.transactionID(e.process) || id == e.ids.transactionID(e.chunk)
    requires id !in c.pending.transactions && ResultIn(hist, id) == None
    ensures LookupAnswers(c, ByTransaction(id), Some(r)) <==> r == UnknownResult
  {
    hide Inv, IndexKept, ResultAnswers, ResultIn, SystemAnswers, Reads, IdKey;
    TransactionAnswer(e, c, hist, id, r);
    var t, key := c.db.tables.scheduledBlockIndex, IdKey(id);
    forall entry ensures Reads(t, key, 0, entry) <==> entry == None { StaticEntry(e, c.db, made, id, entry); }
    assert Reads(t, key, 0, None);
  }

  // ---------------------------------------------------------------- without rollbacks

  /** Each height was made once, so each block that ran a number is the latest. */
  lemma OnceEach(hist: seq<Commit>, i: nat, n: nat, id: Identifier)
    requires ConsecutiveFrom(hist, 0) && i < |hist|
    ensures LatestNumber(hist, n, i) <==> n in hist[i].scheduled
    ensures LatestID(hist, id, i) <==> id in hist[i].systemResults
  {}

  /** A standing block answers with the result recorded in it. */
  lemma StandingResult(e: Engine, c: Chain, hist: seq<Commit>, made: seq<Commit>, i: nat, n: nat)
    requires Inv(e, c, hist) && IndexKept(e, c.db, made) && i < |hist| && n in hist[i].scheduled
    ensures hist[i].scheduled[n] in hist[i].systemResults
    ensures var id := hist[i].scheduled[n];
            NumberResult(e.ids, hist, made, n, e.ids.blockID(hist[i].block)) == Some(ToResult(id, hist[i].systemResults[id]))
  {
    hide Inv, IndexKept, NumberInBlockAnswers, NumberResult, ToResult;
    var r := NumberResult(e.ids, hist, made, n, e.ids.blockID(hist[i].block));
    NumberInBlockExactly(e, c, hist, made, n, hist[i].block, r);
    NumberInBlockAnswer(e, c, hist, i, n, r);
  }

  /** Without rollbacks, asking by number can give the result of exactly the
      standing blocks that ran the number, and "not found" exactly when none did. */
  lemma ForwardNumbers(e: Engine, c: Chain, hist: seq<Commit>, n: nat, r: Option<TransactionResult>)
    requires Inv(e, c, hist) && IndexKept(e, c.db, hist)
    ensures LookupAnswers(c, ByNumber(n), r) <==>
              match r
              case None => forall i: nat | i < |hist| :: n !in hist[i].scheduled
              case Some(result) =>
                exists i: nat | i < |hist| && n in hist[i].scheduled :: ResultOf(hist, i, hist[i].scheduled[n], result)
  {
    hide Inv, GoodHistory, IndexKept, LookupAnswers, NumberResult, LatestNumber, LatestID, ToResult;
    InvHistory(e, c, hist);
    GoodIsConsecutive(e, hist);
    ByNumberExactly(e, c, hist, hist, n, r);
    forall i: nat | i < |hist| ensures LatestNumber(hist, n, i) <==> n in hist[i].scheduled {
      OnceEach(hist, i, n, []);
    }
    forall i: nat | i < |hist| && n in hist[i].scheduled
      ensures hist[i].scheduled[n] in hist[i].systemResults
      ensures var id := hist[i].scheduled[n];
              NumberResult(e.ids, hist, hist, n, e.ids.blockID(hist[i].block)) == Some(ToResult(id, hist[i].systemResults[id]))
    {
      StandingResult(e, c, hist, hist, i, n);
    }
  }

  /** The same by transaction identifier. */
  lemma ForwardTransactions(e: Engine, c: Chain, hist: seq<Commit>, id: Identifier, r: TransactionResult)
    requires Inv(e, c, hist) && IndexKept(e, c.db, hist)
    requires id !in c.pending.transactions && ResultIn(hist, id) == None && id !in StaticIDs(e)
    ensures LookupAnswers(c, ByTransaction(id), Some(r)) <==>
              || (exists i: nat | i < |hist| :: ResultOf(hist, i, id, r))
              || (r == UnknownResult && forall i: nat | i < |hist| :: id !in hist[i].systemResults)
  {
    hide Inv, GoodHistory, IndexKept, LookupAnswers, ResultIn, SystemResultIn, LatestNumber, LatestID, FromCell, ToResult,
         StaticIDs;
    InvHistory(e, c, hist);
    GoodIsConsecutive(e, hist);
    ByTransactionExactly(e, c, hist, hist, id, r);
    forall i: nat | i < |hist|
      ensures LatestID(hist, id, i) <==> id in hist[i].systemResults
      ensures id in hist[i].systemResults ==>
                FromCell(id, SystemResultIn(e.ids, hist, e.ids.blockID(hist[i].block), id)) ==
                ToResult(id, hist[i].systemResults[id])
    {
      OnceEach(hist, i, 0, id);
      if id in hist[i].systemResults { StandingAnswer(e, hist, i, id, ToResult(id, hist[i].systemResults[id])); }
    }
    if i: nat :| i < |hist| && ResultOf(hist, i, id, r) { assert LatestID(hist, id, i); }
    if j: nat :| j < |hist| && LatestID(hist, id, j)
                 && r == FromCell(id, SystemResultIn(e.ids, hist, e.ids.blockID(hist[j].block), id)) {
      assert ResultOf(hist, j, id, r);
    }
  }

  // ---------------------------------------------------------------- when the three lookups agree

  /** A transaction that a standing block ran as a system transaction is not
      pending. */
  lemma SystemIsNotPending(e: Engine, c: Chain, hist: seq<Commit>, i: nat, id: Identifier)
    requires Inv(e, c, hist) && 0 < i < |hist| && id in hist[i].systemResults
    ensures id !in c.pending.transactions
  {
    InvHistory(e, c, hist);
    assert id in hist[i].systemBodies by {
      hide Inv, Follows, NeverReused, ConsecutiveFrom, ProperUsers;
      assert Proper(e, hist[i]);
    }
    hide Holds, GoodHistory, SystemListsKept, Follows;
  }

  /** A result of a standing block is no answer of a block at another height. */
  lemma NotFromOther(e: Engine, hist: seq<Commit>, i: nat, id: Identifier, result: TransactionResult,
                     block: Block, x: Identifier)
    requires e.ids.Injective() && GoodHistory(e, hist) && i < |hist| && ResultOf(hist, i, id, result)
    requires block.height != i
    ensures FromCell(x, SystemResultIn(e.ids, hist, e.ids.blockID(block), x)) != result
  {
    hide GoodHistory, HeightOf;
    GoodIsConsecutive(e, hist);
    NamedBlock(e, hist, i, id);
    var h := HeightOf(e.ids, hist, e.ids.blockID(block));
    if h.Some? {
      SameBlock(e.ids, block, hist[h.value].block);
      HeightsMatch(hist, h.value);
      NamedBlock(e, hist, h.value, x);
    }
  }

  /** The lookup can give `result` and nothing else. */
  ghost predicate Gives(c: Chain, l: Lookup, result: TransactionResult) {
    forall r :: LookupAnswers(c, l, r) <==> r == Some(result)
  }

  /** No block of another height ever ran the number, standing or not. */
  ghost predicate NumberOnlyAt(made: seq<Commit>, n: nat, height: nat) {
    forall j | 0 <= j < |made| && n in made[j].scheduled :: made[j].block.height == height
  }

  ghost predicate TransactionOnlyAt(made: seq<Commit>, id: Identifier, height: nat) {
    forall j | 0 <= j < |made| && id in made[j].systemResults :: made[j].block.height == height
  }

  /** Scheduled number `n` was run at no height but i. Its transaction was run at no
      other either, or has a user result that is this very result. */
  ghost predicate RanOnce(hist: seq<Commit>, made: seq<Commit>, i: nat, n: nat, result: TransactionResult)
    requires i < |hist| && n in hist[i].scheduled
  {
    var id := hist[i].scheduled[n];
    && NumberOnlyAt(made, n, i)
    && match ResultIn(hist, id)
       case None => TransactionOnlyAt(made, id, i)
       case Some(cell) => FromCell(id, Some(cell)) == result
  }

  /** At the height of a standing block, its entries are the latest. */
  lemma LatestStands(hist: seq<Commit>, made: seq<Commit>, i: nat, n: nat, id: Identifier) returns (j: nat)
    requires StandingLast(hist, made) && i < |hist| && hist[i].block.height == i
    ensures j < |made| && made[j] == hist[i]
    ensures n in hist[i].scheduled ==> LatestNumber(made, n, j)
    ensures n in hist[i].scheduled && NumberOnlyAt(made, n, i) ==> forall k | LatestNumber(made, n, k) :: k == j
    ensures id in hist[i].systemResults ==> LatestID(made, id, j)
    ensures id in hist[i].systemResults && TransactionOnlyAt(made, id, i) ==> forall k | LatestID(made, id, k) :: k == j
  {
    assert StandsLast(hist[i], made, i);
    j :| MadeLast(hist[i], made, j, i);
  }

  lemma OnlyNumber(e: Engine, c: Chain, hist: seq<Commit>, made: seq<Commit>, i: nat, n: nat, result: TransactionResult)
    requires Inv(e, c, hist) && Remembers(e, c.db, hist, made) && i < |hist| && n in hist[i].scheduled
    requires ResultOf(hist, i, hist[i].scheduled[n], result) && NumberOnlyAt(made, n, i)
    ensures Gives(c, ByNumber(n), result)
  {
    hide Inv, GoodHistory, IndexKept, StandingLast, LookupAnswers, NumberResult, LatestNumber, LatestID, NumberOnlyAt,
         TransactionOnlyAt;
    InvHistory(e, c, hist);
    GoodIsConsecutive(e, hist);
    HeightsMatch(hist, i);
    var k := LatestStands(hist, made, i, n, []);
    RanIt(made, n, k);
    StandingResult(e, c, hist, made, i, n);
    forall r ensures LookupAnswers(c, ByNumber(n), r) <==> r == Some(result) {
      ByNumberExactly(e, c, hist, made, n, r);
    }
  }

  /** A number ever run at a second height has a second answer. */
  lemma OtherNumber(e: Engine, c: Chain, hist: seq<Commit>, made: seq<Commit>, i: nat, j: nat, n: nat,
                    result: TransactionResult)
    requires Inv(e, c, hist) && IndexKept(e, c.db, made) && i < |hist| && n in hist[i].scheduled
    requires j < |made| && n in made[j].scheduled && made[j].block.height != i
    requires ResultOf(hist, i, hist[i].scheduled[n], result)
    ensures !Gives(c, ByNumber(n), result)
  {
    hide Inv, GoodHistory, IndexKept, LookupAnswers, LatestNumber, FromCell, SystemResultIn, LastList;
    InvHistory(e, c, hist);
    var k := LatestAt(made, n, j);
    RanIt(made, n, k);
    var b := e.ids.blockID(made[k].block);
    var other := NumberResult(e.ids, hist, made, n, b);
    ByNumberExactly(e, c, hist, made, n, other);
    if other.Some? {
      NotFromOther(e, hist, i, hist[i].scheduled[n], result, made[k].block, LastList(e.ids, made, b).value.scheduled[n]);
    }
    assert LookupAnswers(c, ByNumber(n), other) && other != Some(result);
  }

  lemma NumberGives(e: Engine, c: Chain, hist: seq<Commit>, made: seq<Commit>, i: nat, n: nat, result: TransactionResult)
    requires Inv(e, c, hist) && Remembers(e, c.db, hist, made) && i < |hist| && n in hist[i].scheduled
    requires ResultOf(hist, i, hist[i].scheduled[n], result)
    ensures Gives(c, ByNumber(n), result) <==> NumberOnlyAt(made, n, i)
  {
    hide Inv, IndexKept, StandingLast, Gives, ResultOf;
    if NumberOnlyAt(made, n, i) {
      OnlyNumber(e, c, hist, made, i, n, result);
    } else {
      var j :| 0 <= j < |made| && n in made[j].scheduled && made[j].block.height != i;
      OtherNumber(e, c, hist, made, i, j, n, result);
    }
  }

  lemma TransactionGives(e: Engine, c: Chain, hist: seq<Commit>, made: seq<Commit>, i: nat, id: Identifier,
                         result: TransactionResult)
    requires Inv(e, c, hist) && Remembers(e, c.db, hist, made) && 0 < i < |hist| && id !in StaticIDs(e)
    requires ResultOf(hist, i, id, result)
    ensures Gives(c, ByTransaction(id), result) <==>
              match ResultIn(hist, id)
              case None => TransactionOnlyAt(made, id, i)
              case Some(cell) => FromCell(id, Some(cell)) == result
  {
    hide Inv, IndexKept, StandingLast, ResultIn, StaticIDs, ResultOf, FromCell, Gives;
    IsResult(hist, i, id);
    SystemIsNotPending(e, c, hist, i, id);
    match ResultIn(hist, id)
    case Some(cell) =>
      UserGives(e, c, hist, id, result);
    case None =>
      if TransactionOnlyAt(made, id, i) {
        OnlyTransaction(e, c, hist, made, i, id, result);
      } else {
        var j :| 0 <= j < |made| && id in made[j].systemResults && made[j].block.height != i;
        OtherTransaction(e, c, hist, made, i, j, id, result);
      }
  }

  /** A pending transaction is answered as pending and nothing else. */
  lemma PendingGives(e: Engine, c: Chain, hist: seq<Commit>, id: Identifier)
    requires Inv(e, c, hist)
    ensures Gives(c, ByTransaction(id), PendingResult) <==> id in c.pending.transactions
  {
    hide Inv, SqlAnswers, IndexAnswers;
    if id in c.pending.transactions {
      assert ResultAnswers(c, id, PendingResult);
    } else {
      if Gives(c, ByTransaction(id), PendingResult) {
        assert LookupAnswers(c, ByTransaction(id), Some(PendingResult));
        NeverPending(e, c, hist, id);
      }
    }
  }

  lemma NeverPending(e: Engine, c: Chain, hist: seq<Commit>, id: Identifier)
    requires Inv(e, c, hist) && id !in c.pending.transactions
    ensures !ResultAnswers(c, id, PendingResult)
  {
    hide Inv, SqlAnswers, Reads, IdKey;
  }

  lemma UserGives(e: Engine, c: Chain, hist: seq<Commit>, id: Identifier, result: TransactionResult)
    requires Inv(e, c, hist) && id !in c.pending.transactions && ResultIn(hist, id).Some?
    ensures Gives(c, ByTransaction(id), result) <==> FromCell(id, ResultIn(hist, id)) == result
  {
    hide Inv, ResultIn, LookupAnswers, FromCell;
    var stored := Some(FromCell(id, ResultIn(hist, id)));
    forall r ensures LookupAnswers(c, ByTransaction(id), r) <==> r == stored {
      UserResultOnly(e, c, hist, id, r);
    }
    assert LookupAnswers(c, ByTransaction(id), stored);
  }

  lemma IsResult(hist: seq<Commit>, i: nat, id: Identifier)
    requires i < |hist|
    ensures id in hist[i].systemResults ==> ResultOf(hist, i, id, ToResult(id, hist[i].systemResults[id]))
    ensures forall r :: ResultOf(hist, i, id, r) ==> id in hist[i].systemResults
  {}

  lemma UserResultOnly(e: Engine, c: Chain, hist: seq<Commit>, id: Identifier, r: Option<TransactionResult>)
    requires Inv(e, c, hist) && id !in c.pending.transactions && ResultIn(hist, id).Some?
    ensures LookupAnswers(c, ByTransaction(id), r) <==> r == Some(FromCell(id, ResultIn(hist, id)))
  {
    hide Inv, SqlAnswers, IndexAnswers, ResultIn, FromCell;
    var stored := ResultIn(hist, id);
    forall cell ensures SqlAnswers(c.db, TransactionResultByID(id), cell) <==> cell == stored {
      ResultAnswer(e, c, hist, id, cell);
    }
    assert SqlAnswers(c.db, TransactionResultByID(id), stored);
  }

  /** A transaction ever run at a second height has a second answer. */
  lemma OtherTransaction(e: Engine, c: Chain, hist: seq<Commit>, made: seq<Commit>, i: nat, j: nat, id: Identifier,
                         result: TransactionResult)
    requires Inv(e, c, hist) && IndexKept(e, c.db, made) && i < |hist|
    requires id !in c.pending.transactions && ResultIn(hist, id) == None && id !in StaticIDs(e)
    requires j < |made| && id in made[j].systemResults && made[j].block.height != i && ResultOf(hist, i, id, result)
    ensures !Gives(c, ByTransaction(id), result)
  {
    hide Inv, GoodHistory, IndexKept, LookupAnswers, LatestID, FromCell, SystemResultIn, ResultIn, StaticIDs;
    InvHistory(e, c, hist);
    var k := LatestIDAt(made, id, j);
    RanTransaction(made, id, k);
    var other := FromCell(id, SystemResultIn(e.ids, hist, e.ids.blockID(made[k].block), id));
    ByTransactionExactly(e, c, hist, made, id, other);
    NotFromOther(e, hist, i, id, result, made[k].block, id);
    assert LookupAnswers(c, ByTransaction(id), Some(other));
  }

  /** A standing block answers for its system transactions. */
  lemma StandingAnswer(e: Engine, hist: seq<Commit>, i: nat, id: Identifier, result: TransactionResult)
    requires e.ids.Injective() && ConsecutiveFrom(hist, 0) && i < |hist| && ResultOf(hist, i, id, result)
    ensures FromCell(id, SystemResultIn(e.ids, hist, e.ids.blockID(hist[i].block), id)) == result
  {
    OwnHeight(e.ids, hist, i);
  }

  lemma OnlyTransaction(e: Engine, c: Chain, hist: seq<Commit>, made: seq<Commit>, i: nat, id: Identifier,
                        result: TransactionResult)
    requires Inv(e, c, hist) && Remembers(e, c.db, hist, made) && i < |hist|
    requires id !in c.pending.transactions && ResultIn(hist, id) == None && id !in StaticIDs(e)
    requires ResultOf(hist, i, id, result) && TransactionOnlyAt(made, id, i)
    ensures Gives(c, ByTransaction(id), result)
  {
    hide Inv, GoodHistory, IndexKept, StandingLast, StaticIDs, ResultIn, ResultAnswers, LatestNumber, LatestID, NumberOnlyAt,
         TransactionOnlyAt, FromCell, SystemResultIn;
    InvHistory(e, c, hist);
    GoodIsConsecutive(e, hist);
    HeightsMatch(hist, i);
    var k := LatestStands(hist, made, i, 0, id);
    RanTransaction(made, id, k);
    StandingAnswer(e, hist, i, id, result);
    forall r ensures LookupAnswers(c, ByTransaction(id), r) <==> r == Some(result) {
      if r.Some? { ByTransactionExactly(e, c, hist, made, id, r.value); }
    }
  }

  lemma NumberInBlockGives(e: Engine, c: Chain, hist: seq<Commit>, i: nat, n: nat)
    requires Inv(e, c, hist) && i < |hist| && n in hist[i].scheduled
    ensures hist[i].scheduled[n] in hist[i].systemResults
    ensures var id := hist[i].scheduled[n];
            Gives(c, ByNumberInBlock(n, e.ids.blockID(hist[i].block)), ToResult(id, hist[i].systemResults[id]))
  {
    hide Inv, NumberInBlockAnswers, ToResult;
    NumberInBlockAnswer(e, c, hist, i, n, None);
    forall r { NumberInBlockAnswer(e, c, hist, i, n, r); }
  }

  /** In every run, asked by number and block the store can only give the result
      recorded in a standing block. The lookups by number and by transaction agree
      with it exactly when the number and the transaction were run at no other
      height, not even in blocks rolled back since. */
  lemma ScheduledLookupsAgree(e: Engine, c: Chain, hist: seq<Commit>, made: seq<Commit>, i: nat, n: nat)
    requires Inv(e, c, hist) && Remembers(e, c.db, hist, made) && i < |hist| && n in hist[i].scheduled
    ensures hist[i].scheduled[n] in hist[i].systemResults
    ensures var b, id := e.ids.blockID(hist[i].block), hist[i].scheduled[n];
            var result := ToResult(id, hist[i].systemResults[id]);
            && Gives(c, ByNumberInBlock(n, b), result)
            && (Gives(c, ByNumber(n), result) && Gives(c, ByTransaction(id), result) <==>
                  RanOnce(hist, made, i, n, result))
  {
    hide Inv, GoodHistory, Remembers, StaticIDs, ResultIn, ResultOf, FromCell, ToResult, Gives, NumberOnlyAt,
         TransactionOnlyAt;
    InvHistory(e, c, hist);
    ScheduledIsSystem(e, hist, i, n);
    var id := hist[i].scheduled[n];
    var result := ToResult(id, hist[i].systemResults[id]);
    IsResult(hist, i, id);
    NumberInBlockGives(e, c, hist, i, n);
    NumberGives(e, c, hist, made, i, n, result);
    TransactionGives(e, c, hist, made, i, id, result);
  }

  lemma ResultAnswer(e: Engine, c: Chain, hist: seq<Commit>, id: Identifier, cell: Option<Cell>)
    requires Inv(e, c, hist)
    ensures SqlAnswers(c.db, TransactionResultByID(id), cell) <==> cell == ResultIn(hist, id)
  {
    hide SqlAnswers, GoodHistory, Holds, SystemListsKept, PendingOn, Consistent, ResultIn;
    GoodIsConsistent(e, hist);
    SqlAnswersChain(e.ids, c.db, hist, TransactionResultByID(id), cell);
  }

  /** What the tables remember after a run of the emulator. */
  lemma RunsRemember(e: Engine, dice: nat, now: nat, steps: seq<Step>)
    requires e.ids.Injective()
    ensures var (c, log) := Run(e, dice, now, steps);
            Remembers(e, c.db, Standing([GenesisCommit(e)], log), Made([GenesisCommit(e)], log))
  {
    hide Inv, Remembers, Start, Continue, Standing, Made;
    StartInv(e, dice, now);
    StartRemembers(e, dice, now);
    RunRemembers(e, Start(e, dice, now), [GenesisCommit(e)], [GenesisCommit(e)], steps);
  }

  /** The same over every run. */
  lemma ScheduledRunsAgree(e: Engine, dice: nat, now: nat, steps: seq<Step>, i: nat, n: nat)
    requires e.ids.Injective()
    requires var hist := Standing([GenesisCommit(e)], Run(e, dice, now, steps).1);
             i < |hist| && n in hist[i].scheduled
    ensures var (c, log) := Run(e, dice, now, steps);
            var hist, made := Standing([GenesisCommit(e)], log), Made([GenesisCommit(e)], log);
            var b, id := e.ids.blockID(hist[i].block), hist[i].scheduled[n];
            && id in hist[i].systemResults
            && var result := ToResult(id, hist[i].systemResults[id]);
               && Gives(c, ByNumberInBlock(n, b), result)
               && (Gives(c, ByNumber(n), result) && Gives(c, ByTransaction(id), result) <==>
                     RanOnce(hist, made, i, n, result))
  {
    hide Inv, Remembers, Gives, RanOnce, ToResult, Run, Standing, Made;
    RunsRemember(e, dice, now, steps);
    var (c, log) := Run(e, dice, now, steps);
    ScheduledLookupsAgree(e, c, Standing([GenesisCommit(e)], log), Made([GenesisCommit(e)], log), i, n);
  }
}
