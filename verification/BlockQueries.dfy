/** What block and range queries should answer, read off the chain of commits. */
module BlockQueries {
  import opened Types
  import opened Keys
  import opened Tables
  import opened Storage
  import opened History
  import opened StoreQueries
  import opened Pending
  import opened Chain
  import opened Invariants
  import opened Runs
  import opened Delivery
  import opened Execution
  import opened Lookups
  import opened ScheduledLookups

  // ---------------------------------------------------------------- transactions of a block

  /** Position by position the transactions with the listed identifiers. */
  ghost predicate BodiesFor(ids: Hashes, txs: seq<TransactionBody>, listed: seq<Identifier>) {
    |txs| == |listed| && forall k | 0 <= k < |txs| :: ids.transactionID(txs[k]) == listed[k]
  }

  lemma BodiesForJoin(ids: Hashes, a: seq<TransactionBody>, x: seq<Identifier>, b: seq<TransactionBody>,
                      y: seq<Identifier>)
    requires BodiesFor(ids, a, x) && BodiesFor(ids, b, y)
    ensures BodiesFor(ids, a + b, x + y)
  {}

  lemma {:induction false} BodyIsAddressed(e: Engine, hist: seq<Commit>, id: Identifier)
    requires forall i | 0 <= i < |hist| :: ContentAddressed(e.ids, hist[i])
    ensures var r := BodyIn(hist, id); r.Some? ==> r.value.BodyCell? && e.ids.transactionID(r.value.body) == id
  {
    if hist != [] {
      var n := |hist| - 1;
      assert ContentAddressed(e.ids, hist[n]);
      BodyIsAddressed(e, hist[..n], id);
    }
  }

  lemma ListedIsUsed(e: Engine, hist: seq<Commit>, i: nat, id: Identifier)
    requires GoodHistory(e, hist) && 0 < i < |hist| && id in Listed(hist[i])
    ensures !Unused(hist, id)
  {
    hide Follows, NeverReused, ConsecutiveFrom;
    assert Proper(e, hist[i]);
    if id in UserIDs(hist[i]) {
      assert id in Elements(UserIDs(hist[i]));
    } else {
      assert id in Elements(hist[i].systemIDs);
    }
  }

  /** A transaction listed in a standing block is not pending, and is stored. */
  lemma ListedIsStored(e: Engine, c: Chain, hist: seq<Commit>, i: nat, id: Identifier)
    requires Inv(e, c, hist) && 0 < i < |hist| && id in Listed(hist[i])
    ensures id !in c.pending.transactions && BodyIn(hist, id).Some?
  {
    InvHistory(e, c, hist);
    ListedIsUsed(e, hist, i, id);
    UnusedHasNoBody(hist, id);
    hide Holds, GoodHistory, SystemListsKept, Unused, BodyIn, Follows;
  }

  lemma {:induction false} CollectionFound(e: Engine, hist: seq<Commit>, i: nat)
    requires e.ids.Injective() && ConsecutiveFrom(hist, 0) && i < |hist| && hist[i].collections != []
    ensures CollectionIn(e.ids, hist, e.ids.collectionID(UserIDs(hist[i]))) == Some(CollectionCell(UserIDs(hist[i])))
  {
    hide IdKey, Find, CollectionRows;
    var n := |hist| - 1;
    var key := IdKey(e.ids.collectionID(UserIDs(hist[i])));
    var row, t := Row(key, 0, n), CollectionRows(e.ids, hist[n].collections, n);
    assert hist == hist[..n] + [hist[n]];
    FindSnoc(e.ids, hist[..n], hist[n], Collections, key);
    if row in t {
      CollectionRowsOf(e.ids, hist[n].collections, n, row);
      assert e.ids.collectionID(t[row].collection) == UnHex(key);
    } else {
      if i == n { CollectionRowsAt(e.ids, hist[n].collections, n, 0); }
      CollectionFound(e, hist[..n], i);
    }
  }

  /** The payload of a block above genesis guarantees its user transactions. */
  lemma GuaranteesOf(e: Engine, c: Chain, hist: seq<Commit>, i: nat)
    requires Inv(e, c, hist) && 0 < i < |hist|
    ensures var users := UserIDs(hist[i]);
            && hist[i].block.guarantees == (if users == [] then [] else [e.ids.collectionID(users)])
            && (users != [] ==>
                  ChainAnswer(e.ids, hist, CollectionByID(e.ids.collectionID(users))) == Some(CollectionCell(users)))
  {
    hide Inv, CollectionIn, Proper, Follows, NeverReused;
    InvHistory(e, c, hist);
    UsersOf(e, hist, i);
    if UserIDs(hist[i]) != [] { CollectionFound(e, hist, i); }
  }

  lemma UsersOf(e: Engine, hist: seq<Commit>, i: nat)
    requires GoodHistory(e, hist) && 0 < i < |hist|
    ensures var users := UserIDs(hist[i]);
            && hist[i].block.guarantees == (if users == [] then [] else [e.ids.collectionID(users)])
            && (users != [] ==> hist[i].collections != [])
  {
    hide ProperSystem, Follows, NeverReused, ConsecutiveFrom;
    assert Proper(e, hist[i]);
  }

  lemma GenesisGuarantees(e: Engine, c: Chain, hist: seq<Commit>)
    requires Inv(e, c, hist)
    ensures hist[0].block.guarantees == []
  {
    InvHistory(e, c, hist);
    hide Inv, Proper, Follows, NeverReused, ConsecutiveFrom;
  }

  // ---------------------------------------------------------------- results of a block

  /** Position by position the stored results of some transactions. */
  ghost predicate ResultsFrom(stored: map<Identifier, StorableResult>, ids: seq<Identifier>,
                              results: seq<TransactionResult>) {
    && |results| == |ids|
    && forall k | 0 <= k < |ids| :: ids[k] in stored && results[k] == ToResult(ids[k], stored[ids[k]])
  }

  /** Position by position the sealed results of a block's transactions. */
  ghost predicate ResultsFor(c: Commit, results: seq<TransactionResult>) {
    && |results| == |Listed(c)|
    && forall k | 0 <= k < |results| ::
         ListedResult(c, k).Some? && results[k] == ToResult(Listed(c)[k], ListedResult(c, k).value)
  }

  lemma ResultsJoin(c: Commit, a: seq<TransactionResult>, b: seq<TransactionResult>)
    requires ResultsFrom(c.results, UserIDs(c), a) && ResultsFrom(c.systemResults, c.systemIDs, b)
    ensures ResultsFor(c, a + b)
  {}

  /** The transaction list and the result list of a block are aligned: equally
      long, with the same transaction at each position, every result sealed. */
  lemma ListsAligned(ids: Hashes, c: Commit, txs: seq<TransactionBody>, results: seq<TransactionResult>)
    requires BodiesFor(ids, txs, Listed(c)) && ResultsFor(c, results)
    ensures |txs| == |results|
    ensures forall k | 0 <= k < |txs| :: results[k].SealedResult? && results[k].txID == ids.transactionID(txs[k])
    ensures forall k | 0 <= k < |txs| ::
              results[k].txID == if k < |UserIDs(c)| then UserIDs(c)[k] else c.systemIDs[k - |UserIDs(c)|]
  {}

  lemma ResultsFromMore(stored: map<Identifier, StorableResult>, ids: seq<Identifier>,
                        results: seq<TransactionResult>, k: nat)
    requires k < |ids| && ids[k] in stored && ResultsFrom(stored, ids[..k], results)
    ensures ResultsFrom(stored, ids[..k + 1], results + [ToResult(ids[k], stored[ids[k]])])
  {}

  /** The one answer for a user transaction of a standing block. */
  lemma UserResultAnswer(e: Engine, c: Chain, hist: seq<Commit>, h: nat, id: Identifier, r: TransactionResult)
    requires Inv(e, c, hist) && 0 < h < |hist| && id in UserIDs(hist[h]) && ResultAnswers(c, id, r)
    ensures id in hist[h].results && r == ToResult(id, hist[h].results[id])
  {
    hide Inv, SqlAnswers, IndexAnswers, GoodHistory, Consistent, ResultIn, BodyIn;
    InvHistory(e, c, hist);
    ListedIsStored(e, c, hist, h, id);
    UserHasResult(e, hist, h, id);
    GoodIsConsistent(e, hist);
    ResultOfBlock(e.ids, hist, h, id);
    forall cell | SqlAnswers(c.db, TransactionResultByID(id), cell) ensures cell == ResultIn(hist, id) {
      ResultAnswer(e, c, hist, id, cell);
    }
  }

  lemma SystemIsRecorded(e: Engine, c: Chain, hist: seq<Commit>, h: nat, id: Identifier)
    requires Inv(e, c, hist) && 0 < h < |hist| && id in hist[h].systemIDs
    ensures id in hist[h].systemResults
  {
    InvHistory(e, c, hist);
    hide Inv, Follows, NeverReused, ConsecutiveFrom, ProperUsers;
    assert Proper(e, hist[h]) && id in Elements(hist[h].systemIDs);
  }

  // ---------------------------------------------------------------- events

  datatype BlockEvents = BlockEvents(blockID: Identifier, height: nat, timestamp: nat, events: seq<Event>)

  /** The entry holds the block's identifier, height and time, and those of its
      events that are of the kind, in order. */
  ghost predicate EntryOf(ids: Hashes, c: Commit, kind: string, entry: BlockEvents) {
    && entry.blockID == ids.blockID(c.block) && entry.height == c.block.height && entry.timestamp == c.block.timestamp
    && Filtered(c.events, kind, entry.events)
  }

  lemma EventsInIs(ids: Hashes, c: Commit, kind: string, entry: BlockEvents)
    ensures entry == EventsIn(ids, c, kind) <==> EntryOf(ids, c, kind, entry)
  {
    hide Filtered, OfKind;
    OfKindExactly(c.events, kind, entry.events);
  }

  function EventsIn(ids: Hashes, c: Commit, kind: string): (r: BlockEvents) {
    BlockEvents(ids.blockID(c.block), c.block.height, c.block.timestamp, OfKind(c.events, kind))
  }

  /** One entry per height from `start` to the smaller of `end` and the tip. */
  function EventsFrom(ids: Hashes, hist: seq<Commit>, kind: string, start: nat, end: nat): (r: seq<BlockEvents>)
    ensures |r| == (var last := if end < |hist| then end + 1 else |hist|; if start < last then last - start else 0)
    ensures forall k | 0 <= k < |r| :: r[k] == EventsIn(ids, hist[start + k], kind)
  {
    var last := if end < |hist| then end + 1 else |hist|;
    if start >= last then []
    else seq(last - start, k requires 0 <= k < last - start => EventsIn(ids, hist[start + k], kind))
  }

  /** The length of the longest prefix of identifiers of standing blocks. */
  function KnownPrefix(ids: Hashes, hist: seq<Commit>, blockIDs: seq<Identifier>): (n: nat)
    ensures n <= |blockIDs|
    ensures forall k | 0 <= k < n :: HeightOf(ids, hist, blockIDs[k]).Some?
    ensures n < |blockIDs| ==> HeightOf(ids, hist, blockIDs[n]).None?
  {
    if blockIDs == [] || HeightOf(ids, hist, blockIDs[0]).None? then 0
    else 1 + KnownPrefix(ids, hist, blockIDs[1..])
  }
}
