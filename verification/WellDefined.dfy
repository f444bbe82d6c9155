/** Reads are well defined: distinct records never share a key, rows that tie
    agree, and the assumption on hashes can be met. */
module WellDefined {
  import opened Types
  import opened Keys
  import opened Tables
  import opened Storage
  import opened History
  import opened Pending
  import opened Chain
  import opened Invariants
  import opened Runs

  // ---------------------------------------------------------------- keys

  /** What the stores keep, by the question it answers. */
  datatype Entry =
    | LatestHeight
    | ForkedHeight
    | BlockAt(height: nat)
    | HeightOfBlock(blockID: Identifier)
    | CollectionOf(collectionID: Identifier)
    | BodyOf(txID: Identifier)
    | UserResultOf(txID: Identifier)
    | SystemResultOf(blockID: Identifier, txID: Identifier)
    | SystemListAt(blockID: Identifier)
    | EventsAt(height: nat)
    | ValueOf(register: RegisterID)
    | BlockOfNumber(number: nat)
    | BlockOfTransaction(txID: Identifier)

  function StoreOf(entry: Entry): (name: StoreName) {
    match entry
    case LatestHeight => Global
    case ForkedHeight => Global
    case BlockAt(_) => Blocks
    case HeightOfBlock(_) => BlockIndex
    case CollectionOf(_) => Collections
    case BodyOf(_) => Transactions
    case UserResultOf(_) => TransactionResults
    case SystemResultOf(_, _) => TransactionResults
    case SystemListAt(_) => SystemTransactionsOf
    case EventsAt(_) => Events
    case ValueOf(_) => Registers
    case BlockOfNumber(_) => ScheduledIndex
    case BlockOfTransaction(_) => ScheduledBlockIndex
  }

  function KeyOf(entry: Entry): (key: string) {
    match entry
    case LatestHeight => LATEST_BLOCK_KEY
    case ForkedHeight => FORKED_BLOCK_KEY
    case BlockAt(h) => HeightKey(h)
    case HeightOfBlock(b) => IdKey(b)
    case CollectionOf(c) => IdKey(c)
    case BodyOf(t) => IdKey(t)
    case UserResultOf(t) => IdKey(t)
    case SystemResultOf(b, t) => SystemResultKey(b, t)
    case SystemListAt(b) => IdKey(b)
    case EventsAt(h) => HeightKey(h)
    case ValueOf(r) => r
    case BlockOfNumber(n) => ScheduledKey(n)
    case BlockOfTransaction(t) => IdKey(t)
  }

  /** Distinct entries of one store have distinct keys. */
  lemma KeysDistinct(a: Entry, b: Entry)
    requires StoreOf(a) == StoreOf(b) && KeyOf(a) == KeyOf(b)
    ensures a == b
  {
    hide HeightKey, FromDecimal, IdKey, UnHex, SystemResultKey, SystemKeyBlock, SystemKeyTransaction, ScheduledKey,
         ScheduledKeyNumber;
    assert LATEST_BLOCK_KEY[0] == 'l' && FORKED_BLOCK_KEY[0] == 'f';
  }

  // ---------------------------------------------------------------- ties

  /** In every state of every run, rows of the seven covered tables that tie on key
      and version hold the same value, so no read depends on the order of rows. */
  lemma TiesAlwaysAgree(e: Engine, dice: nat, now: nat, steps: seq<Step>, name: StoreName)
    requires e.ids.Injective() && Covered(name)
    ensures TiesAgree(Run(e, dice, now, steps).0.db.Rows(name))
  {
    hide Run, Inv, TiesAgree, Standing;
    var (c, log) := Run(e, dice, now, steps);
    InvTies(e, c, Standing([GenesisCommit(e)], log), name);
  }

  lemma InvTies(e: Engine, c: Chain, hist: seq<Commit>, name: StoreName)
    requires Inv(e, c, hist) && Covered(name)
    ensures TiesAgree(c.db.Rows(name))
  {
    hide GoodHistory, SystemListsKept, PendingOn, Consistent, Replayed, TiesAgree;
    GoodIsConsistent(e, hist);
    TiesAgreeInReplay(e.ids, hist, name);
  }

  // ---------------------------------------------------------------- injective hashes exist

  function Unary(n: nat): (s: seq<byte>) {
    if n == 0 then [0] else [1] + Unary(n - 1)
  }

  function Marked(id: Identifier): (s: seq<byte>) {
    if id == [] then [0] else [1, id[0]] + Marked(id[1..])
  }

  function MarkedAll(ids: seq<Identifier>): (s: seq<byte>) {
    if ids == [] then [0] else [1] + (Marked(ids[0]) + MarkedAll(ids[1..]))
  }

  lemma {:induction false} UnarySplits(m: nat, n: nat, x: seq<byte>, y: seq<byte>)
    requires Unary(m) + x == Unary(n) + y
    ensures m == n && x == y
  {
    var s := Unary(m) + x;
    assert s[0] == (if m == 0 then 0 else 1) && s[0] == (if n == 0 then 0 else 1);
    if m > 0 {
      assert s[1..] == Unary(m - 1) + x && s[1..] == Unary(n - 1) + y;
      UnarySplits(m - 1, n - 1, x, y);
    } else {
      assert s[1..] == x && s[1..] == y;
    }
  }

  lemma {:induction false} MarkedSplits(a: Identifier, b: Identifier, x: seq<byte>, y: seq<byte>)
    requires Marked(a) + x == Marked(b) + y
    ensures a == b && x == y
  {
    var s := Marked(a) + x;
    assert s[0] == (if a == [] then 0 else 1) && s[0] == (if b == [] then 0 else 1);
    if a != [] {
      assert s[1] == a[0] && s[1] == b[0];
      assert s[2..] == Marked(a[1..]) + x && s[2..] == Marked(b[1..]) + y;
      MarkedSplits(a[1..], b[1..], x, y);
      assert a == [a[0]] + a[1..] && b == [b[0]] + b[1..];
    } else {
      assert s[1..] == x && s[1..] == y;
    }
  }

  lemma {:induction false} MarkedAllSplits(a: seq<Identifier>, b: seq<Identifier>)
    requires MarkedAll(a) == MarkedAll(b)
    ensures a == b
  {
    hide Marked;
    var s := MarkedAll(a);
    assert s[0] == (if a == [] then 0 else 1) && s[0] == (if b == [] then 0 else 1);
    if a != [] {
      assert s[1..] == Marked(a[0]) + MarkedAll(a[1..]) && s[1..] == Marked(b[0]) + MarkedAll(b[1..]);
      MarkedSplits(a[0], b[0], MarkedAll(a[1..]), MarkedAll(b[1..]));
      MarkedAllSplits(a[1..], b[1..]);
      assert a == [a[0]] + a[1..] && b == [b[0]] + b[1..];
    }
  }

  function BlockCode(b: Block): (s: seq<byte>) {
    Unary(b.height) + (Unary(b.view) + (Marked(b.parentID) + (Unary(b.timestamp) + MarkedAll(b.guarantees))))
  }

  lemma BlockCodeInjective(a: Block, b: Block)
    requires BlockCode(a) == BlockCode(b)
    ensures a == b
  {
    hide Unary, Marked, MarkedAll;
    var a4, b4 := MarkedAll(a.guarantees), MarkedAll(b.guarantees);
    var a3, b3 := Unary(a.timestamp) + a4, Unary(b.timestamp) + b4;
    var a2, b2 := Marked(a.parentID) + a3, Marked(b.parentID) + b3;
    UnarySplits(a.height, b.height, Unary(a.view) + a2, Unary(b.view) + b2);
    UnarySplits(a.view, b.view, a2, b2);
    MarkedSplits(a.parentID, b.parentID, a3, b3);
    UnarySplits(a.timestamp, b.timestamp, a4, b4);
    MarkedAllSplits(a.guarantees, b.guarantees);
  }

  /** Hashes that are injective on contents exist, so nothing that assumes them is
      vacuous. */
  lemma InjectiveHashesExist() returns (ids: Hashes)
    ensures ids.Injective()
  {
    ids := Hashes((tx: TransactionBody) => tx.content, BlockCode, MarkedAll);
    forall a, b | ids.blockID(a) == ids.blockID(b) ensures a == b { BlockCodeInjective(a, b); }
    forall a, b | ids.collectionID(a) == ids.collectionID(b) ensures a == b { MarkedAllSplits(a, b); }
  }
}
