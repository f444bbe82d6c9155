/** The in-memory store: plain maps, and one layered snapshot of the registers
    per height. It answers every question as the row store does. */
module Memstore {
  import opened Types
  import opened Keys
  import opened Tables
  import opened Storage
  import opened History
  import opened StoreQueries
  import opened Scheduled

  /** A layered snapshot: the writes of successive blocks, the newest last. */
  type SnapshotTree = seq<Ledger>

  function TreeGet(tree: SnapshotTree, id: RegisterID): (value: Option<RegisterValue>) {
    if tree == [] then None
    else
      var n := |tree| - 1;
      if id in tree[n] then Some(tree[n][id]) else TreeGet(tree[..n], id)
  }

  datatype State = State(
    heights: map<Identifier, nat>,
    blocks: map<nat, Block>,
    collections: map<Identifier, seq<Identifier>>,
    transactions: map<Identifier, TransactionBody>,
    systemTransactions: map<Identifier, SystemTransactions>,
    results: map<Identifier, StorableResult>,
    systemResults: map<string, StorableResult>,
    ledger: map<nat, SnapshotTree>,
    events: map<nat, seq<Event>>,
    tip: nat)
  {
    /** A missing snapshot is the empty one. */
    function Tree(height: nat): (tree: SnapshotTree) {
      if height in ledger then ledger[height] else []
    }

    function EventsAt(height: nat): (list: seq<Event>) {
      if height in events then events[height] else []
    }
  }

  const EMPTY_STATE := State(map[], map[], map[], map[], map[], map[], map[], map[], map[], 0)

  /** Unsigned 64-bit `height - 1`: below height 0 it wraps around. */
  function Before(height: nat): (h: nat) { if height == 0 then MAX_UINT64 else height - 1 }

  function CollectionEntries(ids: Hashes, collections: seq<seq<Identifier>>): (m: map<Identifier, seq<Identifier>>) {
    if collections == [] then map[]
    else
      var n := |collections| - 1;
      CollectionEntries(ids, collections[..n])[ids.collectionID(collections[n]) := collections[n]]
  }

  function SystemEntries(blockID: Identifier,
                         results: map<Identifier, StorableResult>): (m: map<string, StorableResult>) {
    hide SystemResultKey, SystemKeyBlock, SystemKeyTransaction;
    map id | id in results :: SystemResultKey(blockID, id) := results[id]
  }

  /** A block with neither system nor scheduled transactions gets no list. */
  predicate HasList(c: Commit) { |c.systemIDs| > 0 || |c.scheduled| > 0 }

  function ListEntry(ids: Hashes, c: Commit): (m: map<Identifier, SystemTransactions>) {
    if HasList(c) then
      var id := ids.blockID(c.block);
      map[id := SystemTransactions(id, c.systemIDs, c.scheduled)]
    else map[]
  }

  /** The store after a commit that passed its checks. */
  function Stored(ids: Hashes, m: State, c: Commit): (after: State) {
    var b, h := ids.blockID(c.block), c.block.height;
    State(
      m.heights[b := h],
      m.blocks[h := c.block],
      m.collections + CollectionEntries(ids, c.collections),
      m.transactions + c.transactions + c.systemBodies,
      m.systemTransactions + ListEntry(ids, c),
      m.results + c.results,
      m.systemResults + SystemEntries(b, c.systemResults),
      m.ledger[h := m.Tree(Before(h)) + [c.writes]],
      m.events[h := m.EventsAt(h) + c.events],
      if h > m.tip then h else m.tip)
  }

  function StoredAll(ids: Hashes, hist: seq<Commit>): (m: State) {
    if hist == [] then EMPTY_STATE
    else Stored(ids, StoredAll(ids, hist[..|hist| - 1]), hist[|hist| - 1])
  }

  function BlockAt(m: State, height: nat): (r: Option<Cell>) {
    if height in m.blocks then Some(BlockCell(m.blocks[height])) else None
  }

  function MemAnswer(m: State, q: Query): (r: Option<Cell>) {
    match q
    case LatestBlock => BlockAt(m, m.tip)
    case BlockByHeight(h) => BlockAt(m, h)
    case BlockByID(id) => if id in m.heights then BlockAt(m, m.heights[id]) else None
    case CollectionByID(id) => if id in m.collections then Some(CollectionCell(m.collections[id])) else None
    case TransactionByID(id) => if id in m.transactions then Some(BodyCell(m.transactions[id])) else None
    case TransactionResultByID(id) => if id in m.results then Some(ResultCell(m.results[id])) else None
    case SystemTransactionResultByID(b, id) =>
      var key := SystemResultKey(b, id);
      if key in m.systemResults then Some(ResultCell(m.systemResults[key])) else None
    case SystemTransactionsForBlockID(b) =>
      if b in m.systemTransactions then Some(SystemCell(m.systemTransactions[b])) else None
    case EventsByHeight(h, kind) => Some(EventsCell(OfKind(m.EventsAt(h), kind)))
    case RegisterAtHeight(id, h) =>
      match TreeGet(m.Tree(h), id)
      case None => None
      case Some(value) => Some(RegisterCell(value))
  }

  // ---------------------------------------------------------------- the store

  class Store {
    const ids: Hashes
    var heights: map<Identifier, nat>
    var blocks: map<nat, Block>
    var collections: map<Identifier, seq<Identifier>>
    var transactions: map<Identifier, TransactionBody>
    var systemTransactions: map<Identifier, SystemTransactions>
    var results: map<Identifier, StorableResult>
    var systemResults: map<string, StorableResult>
    var ledger: map<nat, SnapshotTree>
    var events: map<nat, seq<Event>>
    var tip: nat

    function Abs(): (m: State)
      reads this
    {
      State(heights, blocks, collections, transactions, systemTransactions, results, systemResults, ledger, events, tip)
    }

    constructor (ids: Hashes)
      ensures this.ids == ids && Abs() == EMPTY_STATE
    {
      this.ids := ids;
      heights, blocks, collections, transactions, systemTransactions := map[], map[], map[], map[], map[];
      results, systemResults, ledger, events, tip := map[], map[], map[], map[], 0;
    }

    method StoreBlock(block: Block)
      modifies this`heights, this`blocks, this`tip
      ensures Abs() == old(Abs()).(
                blocks := old(blocks)[block.height := block],
                heights := old(heights)[ids.blockID(block) := block.height],
                tip := if block.height > old(tip) then block.height else old(tip))
    {
      blocks := blocks[block.height := block];
      heights := heights[ids.blockID(block) := block.height];
      if block.height > tip {
        tip := block.height;
      }
    }

    method InsertCollections(list: seq<seq<Identifier>>)
      modifies this`collections
      ensures Abs() == old(Abs()).(collections := old(collections) + CollectionEntries(ids, list))
    {
      for i := 0 to |list|
        invariant collections == old(collections) + CollectionEntries(ids, list[..i])
      {
        assert list[..i + 1][..i] == list[..i];
        collections := collections[ids.collectionID(list[i]) := list[i]];
      }
      assert list[..|list|] == list;
    }

    method InsertTransactions(bodies: map<Identifier, TransactionBody>)
      modifies this`transactions
      ensures Abs() == old(Abs()).(transactions := old(transactions) + bodies)
    {
      var left := bodies.Keys;
      while left != {}
        invariant left <= bodies.Keys
        invariant transactions == old(transactions) + (bodies - left)
      {
        var id :| id in left;
        transactions := transactions[id := bodies[id]];
        left := left - {id};
      }
      assert bodies - left == bodies;
    }

    method InsertTransactionResults(entries: map<Identifier, StorableResult>)
      modifies this`results
      ensures Abs() == old(Abs()).(results := old(results) + entries)
    {
      var left := entries.Keys;
      while left != {}
        invariant left <= entries.Keys
        invariant results == old(results) + (entries - left)
      {
        var id :| id in left;
        results := results[id := entries[id]];
        left := left - {id};
      }
      assert entries - left == entries;
    }

    method InsertSystemTransactionResults(blockID: Identifier, entries: map<Identifier, StorableResult>)
      modifies this`systemResults
      ensures Abs() == old(Abs()).(systemResults := old(systemResults) + SystemEntries(blockID, entries))
    {
      hide SystemResultKey, SystemEntries;
      SystemEntriesNone(blockID);
      var left := entries.Keys;
      assert entries - left == map[];
      while left != {}
        invariant left <= entries.Keys
        invariant systemResults == old(systemResults) + SystemEntries(blockID, entries - left)
      {
        var id :| id in left;
        SystemEntriesMore(blockID, entries - left, id, entries[id]);
        systemResults := systemResults[SystemResultKey(blockID, id) := entries[id]];
        assert (entries - left)[id := entries[id]] == entries - (left - {id});
        left := left - {id};
      }
      assert entries - left == entries;
    }

    method InsertExecutionSnapshot(height: nat, writes: Ledger)
      modifies this`ledger
      ensures Abs() == old(Abs()).(ledger := old(ledger)[height := old(Abs()).Tree(Before(height)) + [writes]])
    {
      var before := Abs().Tree(Before(height));
      ledger := ledger[height := before + [writes]];
    }

    method InsertEvents(height: nat, list: seq<Event>)
      modifies this`events
      ensures Abs() == old(Abs()).(events := old(events)[height := old(Abs()).EventsAt(height) + list])
    {
      if height !in events {
        assert [] + list == list;
        events := events[height := list];
      } else {
        events := events[height := events[height] + list];
      }
    }

    /** A commit that fails its checks leaves the store as it was. */
    method CommitBlock(c: Commit) returns (error: Option<CommitError>)
      modifies this
      ensures error == CommitCheck(c)
      ensures Abs() == if error.None? then Stored(ids, old(Abs()), c) else old(Abs())
    {
      hide CollectionEntries, SystemEntries, ListEntry, Stored;
      if |c.transactions| != |c.results| {
        return Some(TransactionCount);
      }
      if |c.systemIDs| != |c.systemResults| {
        return Some(SystemTransactionCount);
      }
      InsertAll(c);
      error := None;
    }

    method InsertAll(c: Commit)
      modifies this
      ensures Abs() == Stored(ids, old(Abs()), c)
    {
      hide CollectionEntries, SystemEntries, ListEntry;
      StoreBlock(c.block);
      InsertCollections(c.collections);
      InsertSystemTransactions(c);
      InsertRecords(c);
      InsertExecutionSnapshot(c.block.height, c.writes);
      InsertEvents(c.block.height, c.events);
    }

    method InsertSystemTransactions(c: Commit)
      modifies this`systemTransactions
      ensures Abs() == old(Abs()).(systemTransactions := old(systemTransactions) + ListEntry(ids, c))
    {
      hide HasList;
      if HasList(c) {
        var b := ids.blockID(c.block);
        var list := SystemTransactions(b, c.systemIDs, c.scheduled);
        OneEntry(systemTransactions, b, list);
        systemTransactions := systemTransactions[b := list];
      } else {
        assert systemTransactions + map[] == systemTransactions;
      }
    }

    /** User transactions and their results first, then those of the system. */
    method InsertRecords(c: Commit)
      modifies this`transactions, this`results, this`systemResults
      ensures Abs() == old(Abs()).(
                transactions := old(transactions) + c.transactions + c.systemBodies,
                results := old(results) + c.results,
                systemResults := old(systemResults) + SystemEntries(ids.blockID(c.block), c.systemResults))
    {
      hide SystemEntries;
      InsertTransactions(c.transactions);
      InsertTransactionResults(c.results);
      InsertTransactions(c.systemBodies);
      InsertSystemTransactionResults(ids.blockID(c.block), c.systemResults);
    }

    method LatestBlock() returns (r: Option<Block>)
      ensures MemAnswer(Abs(), Query.LatestBlock) == match r case None => None case Some(b) => Some(BlockCell(b))
    {
      if tip !in blocks {
        return None;
      }
      r := Some(blocks[tip]);
    }

    method BlockByID(id: Identifier) returns (r: Option<Block>)
      ensures MemAnswer(Abs(), Query.BlockByID(id)) == match r case None => None case Some(b) => Some(BlockCell(b))
    {
      if id !in heights || heights[id] !in blocks {
        return None;
      }
      r := Some(blocks[heights[id]]);
    }

    method EventsByHeight(height: nat, kind: string) returns (list: seq<Event>)
      ensures MemAnswer(Abs(), Query.EventsByHeight(height, kind)) == Some(EventsCell(list))
      ensures Filtered(if height in events then events[height] else [], kind, list)
    {
      list := SelectEvents(if height in events then events[height] else [], kind);
    }

    /** Reads a register through the layers of the snapshot at a height. */
    method Register(id: RegisterID, height: nat) returns (value: Option<RegisterValue>)
      ensures MemAnswer(Abs(), RegisterAtHeight(id, height)) ==
              match value case None => None case Some(v) => Some(RegisterCell(v))
    {
      var tree := if height in ledger then ledger[height] else [];
      var i := |tree|;
      assert tree[..i] == tree;
      while i > 0
        invariant 0 <= i <= |tree| && TreeGet(tree, id) == TreeGet(tree[..i], id)
      {
        i := i - 1;
        assert tree[..i + 1][..i] == tree[..i];
        if id in tree[i] {
          return Some(tree[i][id]);
        }
      }
      value := None;
    }
  }

  lemma OneEntry<K, V>(m: map<K, V>, key: K, value: V)
    ensures m + map[key := value] == m[key := value]
  {}

  lemma SystemEntriesNone(blockID: Identifier)
    ensures SystemEntries(blockID, map[]) == map[]
  {}

  lemma SystemEntriesMore(blockID: Identifier, entries: map<Identifier, StorableResult>, id: Identifier,
                          result: StorableResult)
    ensures SystemEntries(blockID, entries[id := result]) ==
            SystemEntries(blockID, entries)[SystemResultKey(blockID, id) := result]
  {
    hide SystemResultKey, SystemKeyBlock, SystemKeyTransaction;
    var more, less := SystemEntries(blockID, entries[id := result]), SystemEntries(blockID, entries);
    forall key: string
      ensures key in more <==> key in less || key == SystemResultKey(blockID, id)
      ensures key in more ==> more[key] == if key == SystemResultKey(blockID, id) then result else less[key]
    {
      SystemEntryAt(blockID, entries[id := result], key);
      SystemEntryAt(blockID, entries, key);
      SystemEntryOf(blockID, entries[id := result], id);
    }
  }

  lemma SystemEntryOf(blockID: Identifier, entries: map<Identifier, StorableResult>, id: Identifier)
    ensures SystemResultKey(blockID, id) in SystemEntries(blockID, entries) <==> id in entries
    ensures id in entries ==> SystemEntries(blockID, entries)[SystemResultKey(blockID, id)] == entries[id]
  {
    hide SystemResultKey, SystemKeyBlock, SystemKeyTransaction;
    if id in entries { assert SystemResultKey(blockID, id) in SystemEntries(blockID, entries); }
  }

  lemma SystemEntryAt(blockID: Identifier, entries: map<Identifier, StorableResult>, key: string)
    ensures key in SystemEntries(blockID, entries) <==>
              SystemKeyTransaction(key) in entries && key == SystemResultKey(blockID, SystemKeyTransaction(key))
    ensures key in SystemEntries(blockID, entries) ==>
              SystemEntries(blockID, entries)[key] == entries[SystemKeyTransaction(key)]
  {
    hide SystemResultKey, SystemKeyBlock, SystemKeyTransaction;
    if SystemKeyTransaction(key) in entries && key == SystemResultKey(blockID, SystemKeyTransaction(key)) {
      SystemEntryOf(blockID, entries, SystemKeyTransaction(key));
    }
  }

  // ---------------------------------------------------------------- what the maps hold

  /** The writes of the blocks up to a height, oldest first. */
  function WritesUpTo(hist: seq<Commit>, height: nat): (tree: SnapshotTree)
    requires height < |hist|
    ensures |tree| == height + 1 && forall i | 0 <= i <= height :: tree[i] == hist[i].writes
  {
    seq(height + 1, i requires 0 <= i <= height => hist[i].writes)
  }

  function BlocksOf(hist: seq<Commit>): (s: seq<Block>)
    ensures |s| == |hist| && forall i | 0 <= i < |hist| :: s[i] == hist[i].block
  {
    seq(|hist|, i requires 0 <= i < |hist| => hist[i].block)
  }

  function EventLists(hist: seq<Commit>): (s: seq<seq<Event>>)
    ensures |s| == |hist| && forall i | 0 <= i < |hist| :: s[i] == hist[i].events
  {
    seq(|hist|, i requires 0 <= i < |hist| => hist[i].events)
  }

  function Trees(hist: seq<Commit>): (s: seq<SnapshotTree>)
    ensures |s| == |hist| && forall i | 0 <= i < |hist| :: s[i] == WritesUpTo(hist, i)
  {
    seq(|hist|, i requires 0 <= i < |hist| => WritesUpTo(hist, i))
  }

  function ByHeight<T>(s: seq<T>): (m: map<nat, T>)
  {
    map i: nat | i < |s| :: s[i]
  }

  lemma ByHeightSnoc<T>(s: seq<T>, x: T)
    ensures ByHeight(s + [x]) == ByHeight(s)[|s| := x]
  {}

  /** Blocks, events and snapshots are kept per height, for exactly the heights
      of the chain. */
  ghost predicate HeldPerHeight(m: State, hist: seq<Commit>) {
    && m.tip == (if hist == [] then 0 else |hist| - 1)
    && m.blocks == ByHeight(BlocksOf(hist)) && m.events == ByHeight(EventLists(hist)) && m.ledger == ByHeight(Trees(hist))
  }

  lemma NewTree(m: State, hist: seq<Commit>, c: Commit)
    requires HeldPerHeight(m, hist)
    ensures m.EventsAt(|hist|) + c.events == c.events
    ensures m.Tree(Before(|hist|)) + [c.writes] == WritesUpTo(hist + [c], |hist|)
  {
    var n := |hist|;
    assert n !in m.events;
    if n > 0 { assert m.ledger[n - 1] == WritesUpTo(hist, n - 1); }
  }

  lemma TreesSnoc(hist: seq<Commit>, c: Commit)
    ensures Trees(hist + [c]) == Trees(hist) + [WritesUpTo(hist + [c], |hist|)]
  {
    forall i | 0 <= i < |hist| ensures Trees(hist + [c])[i] == Trees(hist)[i] {
      assert WritesUpTo(hist + [c], i) == WritesUpTo(hist, i);
    }
  }

  lemma MapsSnoc(hist: seq<Commit>, c: Commit)
    ensures var n, more := |hist|, hist + [c];
            && ByHeight(BlocksOf(more)) == ByHeight(BlocksOf(hist))[n := c.block]
            && ByHeight(EventLists(more)) == ByHeight(EventLists(hist))[n := c.events]
            && ByHeight(Trees(more)) == ByHeight(Trees(hist))[n := WritesUpTo(more, n)]
  {
    hide ByHeight;
    ByHeightSnoc(BlocksOf(hist), c.block);
    ByHeightSnoc(EventLists(hist), c.events);
    ByHeightSnoc(Trees(hist), WritesUpTo(hist + [c], |hist|));
    assert BlocksOf(hist + [c]) == BlocksOf(hist) + [c.block];
    assert EventLists(hist + [c]) == EventLists(hist) + [c.events];
    TreesSnoc(hist, c);
  }

  lemma PerHeightStep(ids: Hashes, m: State, hist: seq<Commit>, c: Commit)
    requires HeldPerHeight(m, hist) && c.block.height == |hist|
    ensures HeldPerHeight(Stored(ids, m, c), hist + [c])
  {
    hide CollectionEntries, SystemEntries, ListEntry, ByHeight;
    NewTree(m, hist, c);
    MapsSnoc(hist, c);
  }

  lemma {:induction false} PerHeight(ids: Hashes, hist: seq<Commit>)
    requires ConsecutiveFrom(hist, 0)
    ensures HeldPerHeight(StoredAll(ids, hist), hist)
  {
    hide Stored;
    if hist != [] {
      hide HeldPerHeight;
      var n := |hist| - 1;
      PerHeight(ids, hist[..n]);
      PerHeightStep(ids, StoredAll(ids, hist[..n]), hist[..n], hist[n]);
      assert hist == hist[..n] + [hist[n]];
    }
  }

  lemma {:induction false} TreeIsRegisters(hist: seq<Commit>, height: nat, id: RegisterID)
    requires height < |hist|
    ensures TreeGet(WritesUpTo(hist, height), id) ==
            if id in RegistersAt(hist, height) then Some(RegistersAt(hist, height)[id]) else None
  {
    var tree := WritesUpTo(hist, height);
    if height > 0 {
      TreeIsRegisters(hist, height - 1, id);
      assert tree[..height] == WritesUpTo(hist, height - 1);
    } else {
      assert tree[..0] == [];
    }
  }

  lemma {:induction false} HeightsHeld(ids: Hashes, hist: seq<Commit>, id: Identifier)
    requires ConsecutiveFrom(hist, 0)
    ensures var m := StoredAll(ids, hist).heights;
            HeightOf(ids, hist, id) == if id in m then Some(m[id]) else None
  {
    hide CollectionEntries, SystemEntries, ListEntry;
    if hist != [] { HeightsHeld(ids, hist[..|hist| - 1], id); }
  }

  lemma {:induction false} CollectionEntryAt(ids: Hashes, collections: seq<seq<Identifier>>, height: nat,
                                             id: Identifier)
    ensures var m, t := CollectionEntries(ids, collections), CollectionRows(ids, collections, height);
            var row := Row(IdKey(id), 0, height);
            (id in m <==> row in t) && (id in m ==> t[row] == CollectionCell(m[id]))
  {
    hide IdKey, UnHex;
    if collections != [] { CollectionEntryAt(ids, collections[..|collections| - 1], height, id); }
  }

  lemma CollectionStep(ids: Hashes, m: State, c: Commit, id: Identifier)
    ensures var entries := CollectionEntries(ids, c.collections);
            MemAnswer(Stored(ids, m, c), CollectionByID(id)) ==
            if id in entries then Some(CollectionCell(entries[id])) else MemAnswer(m, CollectionByID(id))
  {
    hide CollectionEntries, SystemEntries, ListEntry;
  }

  lemma {:induction false} CollectionsHeld(ids: Hashes, hist: seq<Commit>, id: Identifier)
    requires ConsecutiveFrom(hist, 0)
    ensures MemAnswer(StoredAll(ids, hist), CollectionByID(id)) == CollectionIn(ids, hist, id)
  {
    hide Stored, CollectionEntries, CollectionRows, IdKey, Find;
    if hist == [] {
      FindNothing(ids, Collections, IdKey(id));
    } else {
      hide MemAnswer;
      var n := |hist| - 1;
      CollectionsHeld(ids, hist[..n], id);
      CollectionStep(ids, StoredAll(ids, hist[..n]), hist[n], id);
      assert hist == hist[..n] + [hist[n]];
      FindSnoc(ids, hist[..n], hist[n], Collections, IdKey(id));
      CollectionEntryAt(ids, hist[n].collections, n, id);
    }
  }

  lemma BodyStep(ids: Hashes, m: State, c: Commit, id: Identifier)
    ensures MemAnswer(Stored(ids, m, c), TransactionByID(id)) ==
            if id in c.systemBodies then Some(BodyCell(c.systemBodies[id]))
            else if id in c.transactions then Some(BodyCell(c.transactions[id]))
            else MemAnswer(m, TransactionByID(id))
    ensures MemAnswer(Stored(ids, m, c), TransactionResultByID(id)) ==
            if id in c.results then Some(ResultCell(c.results[id])) else MemAnswer(m, TransactionResultByID(id))
  {
    hide CollectionEntries, SystemEntries, ListEntry;
  }

  lemma {:induction false} BodiesHeld(ids: Hashes, hist: seq<Commit>, id: Identifier)
    ensures MemAnswer(StoredAll(ids, hist), TransactionByID(id)) == BodyIn(hist, id)
    ensures MemAnswer(StoredAll(ids, hist), TransactionResultByID(id)) == ResultIn(hist, id)
  {
    hide Stored;
    if hist != [] {
      hide MemAnswer;
      var n := |hist| - 1;
      BodiesHeld(ids, hist[..n], id);
      BodyStep(ids, StoredAll(ids, hist[..n]), hist[n], id);
    }
  }

  lemma SystemResultStep(ids: Hashes, m: State, c: Commit, b: Identifier, id: Identifier)
    ensures MemAnswer(Stored(ids, m, c), SystemTransactionResultByID(b, id)) ==
            if b == ids.blockID(c.block) && id in c.systemResults then Some(ResultCell(c.systemResults[id]))
            else MemAnswer(m, SystemTransactionResultByID(b, id))
  {
    hide CollectionEntries, SystemEntries, ListEntry, SystemResultKey, SystemKeyBlock, SystemKeyTransaction;
    SystemEntryAt(ids.blockID(c.block), c.systemResults, SystemResultKey(b, id));
  }

  lemma SystemListStep(ids: Hashes, m: State, c: Commit, b: Identifier)
    ensures MemAnswer(Stored(ids, m, c), SystemTransactionsForBlockID(b)) ==
            if b == ids.blockID(c.block) && HasList(c)
            then Some(SystemCell(SystemTransactions(b, c.systemIDs, c.scheduled)))
            else MemAnswer(m, SystemTransactionsForBlockID(b))
  {
    hide Stored, HasList;
    StoredLists(ids, m, c);
  }

  lemma StoredLists(ids: Hashes, m: State, c: Commit)
    ensures Stored(ids, m, c).systemTransactions == m.systemTransactions + ListEntry(ids, c)
  {
    hide CollectionEntries, SystemEntries, ListEntry;
  }

  lemma {:induction false} SystemResultsHeld(ids: Hashes, hist: seq<Commit>, b: Identifier, id: Identifier)
    requires ids.Injective() && ConsecutiveFrom(hist, 0)
    ensures MemAnswer(StoredAll(ids, hist), SystemTransactionResultByID(b, id)) == SystemResultIn(ids, hist, b, id)
  {
    hide Stored, SystemResultKey;
    if hist != [] {
      hide MemAnswer;
      var n := |hist| - 1;
      SystemResultsHeld(ids, hist[..n], b, id);
      SystemResultStep(ids, StoredAll(ids, hist[..n]), hist[n], b, id);
      BlockIsFresh(ids, hist[..n], hist[n]);
    }
  }

  lemma {:induction false} SystemListsHeld(ids: Hashes, hist: seq<Commit>, b: Identifier)
    requires ids.Injective() && ConsecutiveFrom(hist, 0)
    ensures MemAnswer(StoredAll(ids, hist), SystemTransactionsForBlockID(b)) == SystemListIn(ids, hist, b)
  {
    hide Stored;
    if hist != [] {
      hide MemAnswer;
      var n := |hist| - 1;
      SystemListsHeld(ids, hist[..n], b);
      SystemListStep(ids, StoredAll(ids, hist[..n]), hist[n], b);
      BlockIsFresh(ids, hist[..n], hist[n]);
    }
  }

  // ---------------------------------------------------------------- both stores agree

  predicate AboveTip(hist: seq<Commit>, q: Query) { q.RegisterAtHeight? && q.height >= |hist| }

  /** The in-memory store answers for the chain, but has no registers above the
      tip. */
  lemma MemAnswersChain(ids: Hashes, hist: seq<Commit>, q: Query)
    requires ids.Injective() && ConsecutiveFrom(hist, 0) && hist != []
    ensures MemAnswer(StoredAll(ids, hist), q) == if AboveTip(hist, q) then None else ChainAnswer(ids, hist, q)
  {
    hide StoredAll, SystemResultKey, SystemResultIn, SystemListIn, CollectionIn, BodyIn, ResultIn, HeightOf, OfKind, TreeGet;
    match q {
      case LatestBlock => PerHeight(ids, hist);
      case BlockByHeight(h) => PerHeight(ids, hist);
      case BlockByID(id) =>
        PerHeight(ids, hist);
        HeightsHeld(ids, hist, id);
      case CollectionByID(id) => CollectionsHeld(ids, hist, id);
      case TransactionByID(id) => BodiesHeld(ids, hist, id);
      case TransactionResultByID(id) => BodiesHeld(ids, hist, id);
      case SystemTransactionResultByID(b, id) => SystemResultsHeld(ids, hist, b, id);
      case SystemTransactionsForBlockID(b) => SystemListsHeld(ids, hist, b);
      case EventsByHeight(h, kind) =>
        PerHeight(ids, hist);
        NothingOfKind(kind);
      case RegisterAtHeight(id, h) =>
        PerHeight(ids, hist);
        if h < |hist| { TreeIsRegisters(hist, h, id); } else { NoLayers(id); }
    }
  }

  lemma NoLayers(id: RegisterID)
    ensures TreeGet([], id) == None
  {}

  lemma {:induction false} RowsHeld(ids: Hashes, hist: seq<Commit>)
    requires ConsecutiveFrom(hist, 0) && hist != []
    ensures Holds(ids, CommitAll(ids, EMPTY_DB, hist), hist)
  {
    hide Committed, Holds;
    var n := |hist| - 1;
    assert hist == hist[..n] + [hist[n]];
    if n == 0 {
      GenesisHolds(ids, hist[0]);
      assert hist == [hist[0]];
    } else {
      RowsHeld(ids, hist[..n]);
      CommitHolds(ids, CommitAll(ids, EMPTY_DB, hist[..n]), hist[..n], hist[n]);
    }
  }

  lemma {:induction false} ListRowsHeld(ids: Hashes, hist: seq<Commit>)
    ensures CommitAll(ids, EMPTY_DB, hist).Rows(SystemTransactionsOf) == Replayed(ids, hist, SystemTransactionsOf)
  {
    hide Committed, Layer;
    if hist != [] {
      var n := |hist| - 1;
      ListRowsHeld(ids, hist[..n]);
      assert hist == hist[..n] + [hist[n]];
      CommittedRows(ids, CommitAll(ids, EMPTY_DB, hist[..n]), hist[n], SystemTransactionsOf);
      ReplayedSnoc(ids, hist[..n], hist[n], SystemTransactionsOf);
    }
  }

  lemma SqlAnswersCommits(ids: Hashes, hist: seq<Commit>, q: Query, r: Option<Cell>)
    requires Consistent(ids, hist) && hist != []
    ensures SqlAnswers(CommitAll(ids, EMPTY_DB, hist), q, r) <==> r == ChainAnswer(ids, hist, q)
  {
    hide CommitAll, ChainAnswer, Holds, Reads, Replayed, Find;
    RowsHeld(ids, hist);
    if q.SystemTransactionsForBlockID? {
      ListRowsHeld(ids, hist);
      FindSystemList(ids, hist, q.blockID);
      ReadIsFind(ids, hist, SystemTransactionsOf, IdKey(q.blockID), r);
      ListChainAnswer(ids, hist, q.blockID);
    } else {
      hide SqlAnswers;
      SqlAnswersChain(ids, CommitAll(ids, EMPTY_DB, hist), hist, q, r);
    }
  }

  lemma ListChainAnswer(ids: Hashes, hist: seq<Commit>, b: Identifier)
    requires hist != []
    ensures ChainAnswer(ids, hist, SystemTransactionsForBlockID(b)) == SystemListIn(ids, hist, b)
  {}

  /** After any commits at consecutive heights from 0, the layered maps and the
      versioned rows give the same answer to every question. For registers above
      the tip, where the maps have nothing and the rows still answer as at the
      tip, they agree exactly when the register was never written. */
  lemma StoresAgree(ids: Hashes, hist: seq<Commit>, q: Query, r: Option<Cell>)
    requires Consistent(ids, hist) && hist != [] && SqlAnswers(CommitAll(ids, EMPTY_DB, hist), q, r)
    ensures MemAnswer(StoredAll(ids, hist), q) == r <==>
              (AboveTip(hist, q) ==> q.register !in RegistersAt(hist, |hist| - 1))
  {
    hide CommitAll, MemAnswer, StoredAll, SqlAnswers;
    hide RegistersAt, SystemResultIn, SystemListIn, CollectionIn, BodyIn, ResultIn, HeightOf, OfKind;
    SqlAnswersCommits(ids, hist, q, r);
    MemAnswersChain(ids, hist, q);
  }

  const WRITTEN := Commit(Block(0, 0, ZERO_ID, 0, []), [], map[], map[], [], map[], map[], map["r" := [1]], [], map[])

  /** The stores do differ above the tip: after one block that writes a register,
      the rows answer at the next height and the maps do not. */
  lemma DifferAboveTip(ids: Hashes)
    requires ids.Injective()
    ensures SqlAnswers(CommitAll(ids, EMPTY_DB, [WRITTEN]), RegisterAtHeight("r", 1), Some(RegisterCell([1])))
    ensures MemAnswer(StoredAll(ids, [WRITTEN]), RegisterAtHeight("r", 1)) == None
  {
    hide CommitAll, MemAnswer, StoredAll, SqlAnswers;
    var q := RegisterAtHeight("r", 1);
    assert Consistent(ids, [WRITTEN]);
    assert RegistersAt([WRITTEN], 0) == map["r" := [1]];
    SqlAnswersCommits(ids, [WRITTEN], q, Some(RegisterCell([1])));
    MemAnswersChain(ids, [WRITTEN], q);
  }

  /** Snapshots of committed heights are not touched by later commits. */
  lemma SnapshotsAreImmutable(ids: Hashes, hist: seq<Commit>, more: seq<Commit>, id: RegisterID, height: nat)
    requires ids.Injective() && ConsecutiveFrom(more, 0) && hist <= more && height < |hist|
    ensures MemAnswer(StoredAll(ids, more), RegisterAtHeight(id, height)) ==
            MemAnswer(StoredAll(ids, hist), RegisterAtHeight(id, height))
  {
    hide MemAnswer, StoredAll, RegistersAt;
    MemAnswersChain(ids, hist, RegisterAtHeight(id, height));
    MemAnswersChain(ids, more, RegisterAtHeight(id, height));
    RegistersAtPrefix(hist, more, height);
  }

  lemma StoredTip(ids: Hashes, m: State, c: Commit)
    ensures Stored(ids, m, c).tip == if c.block.height > m.tip then c.block.height else m.tip
    ensures forall h :: Stored(ids, m, c).EventsAt(h) == m.EventsAt(h) + if h == c.block.height then c.events else []
  {
    hide CollectionEntries, SystemEntries, ListEntry;
  }

  /** The tip is the highest height ever stored. */
  lemma {:induction false} TipIsHighest(ids: Hashes, hist: seq<Commit>, i: nat)
    ensures i < |hist| ==> hist[i].block.height <= StoredAll(ids, hist).tip
    ensures StoredAll(ids, hist).tip == 0 || exists k | 0 <= k < |hist| :: hist[k].block.height == StoredAll(ids, hist).tip
  {
    hide Stored;
    if hist != [] {
      var n := |hist| - 1;
      TipIsHighest(ids, hist[..n], i);
      StoredTip(ids, StoredAll(ids, hist[..n]), hist[n]);
      var before := StoredAll(ids, hist[..n]).tip;
      if k :| 0 <= k < n && hist[..n][k].block.height == before { assert hist[k].block.height == before; }
      if hist[n].block.height > before { assert hist[n].block.height == StoredAll(ids, hist).tip; }
    }
  }

  /** Storing a second block at a height is where the stores part: the maps append its
      events to those of the first, the rows replace them. */
  lemma SecondBlockDiffers(ids: Hashes, a: Commit, b: Commit, kind: string, r: Option<Cell>)
    requires a.block.height == b.block.height
    ensures var h := a.block.height;
            && MemAnswer(Stored(ids, Stored(ids, EMPTY_STATE, a), b), EventsByHeight(h, kind)) ==
               Some(EventsCell(OfKind(a.events + b.events, kind)))
            && (SqlAnswers(Committed(ids, Committed(ids, EMPTY_DB, a), b), EventsByHeight(h, kind), r) <==>
                  r == Some(EventsCell(OfKind(b.events, kind))))
  {
    hide Stored, Committed, Reads, OfKind, HeightKey, Layer;
    var h, db := a.block.height, Committed(ids, Committed(ids, EMPTY_DB, a), b);
    StoredTip(ids, EMPTY_STATE, a);
    StoredTip(ids, Stored(ids, EMPTY_STATE, a), b);
    assert [] + a.events == a.events;
    EventRow(ids, a, b);
    OneRowAnswers(db.Rows(Events), Row(HeightKey(h), 0, h));
    assert Reads(db.Rows(Events), HeightKey(h), 0, Some(EventsCell(b.events)));
  }

  lemma EventRow(ids: Hashes, a: Commit, b: Commit)
    requires a.block.height == b.block.height
    ensures var row := Row(HeightKey(a.block.height), 0, a.block.height);
            Committed(ids, Committed(ids, EMPTY_DB, a), b).Rows(Events) == map[row := EventsCell(b.events)]
  {
    hide Committed, HeightKey;
    CommittedRows(ids, EMPTY_DB, a, Events);
    CommittedRows(ids, Committed(ids, EMPTY_DB, a), b, Events);
  }

  lemma OneRowAnswers(t: Table, row: Row)
    requires t.Keys == {row} && row.version == 0
    ensures forall r :: Reads(t, row.key, 0, r) <==> r == Some(t[row])
  {
    forall r ensures Reads(t, row.key, 0, r) <==> r == Some(t[row]) { RowAnswers(t, row, 0, r); }
  }
}
