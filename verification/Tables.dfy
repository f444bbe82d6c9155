/** Rows of a SQLite table as the store uses it: unique on (key, version,
    height), read by "newest version not above the one asked for", pruned by
    height. */
module Tables {
  import opened Types

  /** A stored value, decoded. */
  datatype Cell =
    | BlockCell(block: Block)
    | HeightCell(height: nat)
    | SystemCell(system: SystemTransactions)
    | CollectionCell(collection: seq<Identifier>)
    | BodyCell(body: TransactionBody)
    | ResultCell(result: StorableResult)
    | EventsCell(events: seq<Event>)
    | RegisterCell(register: RegisterValue)
    | IdCell(id: Identifier)

  datatype Row = Row(key: string, version: nat, height: nat)

  type Table = map<Row, Cell>

  // ---------------------------------------------------------------- reading

  predicate IsBest(t: Table, row: Row, key: string, version: nat) {
    && row in t && row.key == key && row.version <= version
    && forall o | o in t && o.key == key && o.version <= version :: o.version <= row.version
  }

  /** `r` is a possible answer of
        SELECT value WHERE key = ? AND version <= ? ORDER BY version DESC LIMIT 1.
      When several rows tie on the newest version the database may pick any. */
  ghost predicate Reads(t: Table, key: string, version: nat, r: Option<Cell>) {
    match r
    case None => forall row | row in t && row.key == key :: row.version > version
    case Some(cell) => exists row | IsBest(t, row, key, version) :: t[row] == cell
  }

  /** A non-empty set of rows has one of newest version. */
  lemma {:induction false} NewestOf(rows: set<Row>) returns (best: Row)
    requires rows != {}
    ensures best in rows && forall o | o in rows :: o.version <= best.version
    decreases rows
  {
    best :| best in rows;
    var rest := rows - {best};
    if rest != {} {
      var other := NewestOf(rest);
      if best.version < other.version {
        forall o | o in rows ensures o.version <= other.version {
          if o != best { assert o in rest; }
        }
        best := other;
      } else {
        forall o | o in rows ensures o.version <= best.version {
          if o != best { assert o in rest; }
        }
      }
    } else {
      assert rows == {best};
    }
  }

  /** The query always has an answer. */
  lemma SomeAnswer(t: Table, key: string, version: nat) returns (r: Option<Cell>)
    ensures Reads(t, key, version, r)
  {
    var rows := set row | row in t && row.key == key && row.version <= version;
    if rows == {} {
      forall row | row in t && row.key == key ensures row.version > version {
        assert row !in rows;
      }
      r := None;
    } else {
      var best := NewestOf(rows);
      assert IsBest(t, best, key, version) by {
        forall o | o in t && o.key == key && o.version <= version ensures o.version <= best.version {
          assert o in rows;
        }
      }
      r := Some(t[best]);
    }
  }

  /** Rows that tie on key and version hold the same value. */
  ghost predicate TiesAgree(t: Table) {
    forall a, b | a in t && b in t && a.key == b.key && a.version == b.version :: t[a] == t[b]
  }

  ghost predicate Unversioned(t: Table) {
    forall row | row in t :: row.version == 0
  }

  /** When ties agree the answer does not depend on the order of rows. */
  lemma AnswerUnique(t: Table, key: string, version: nat, r: Option<Cell>, s: Option<Cell>)
    requires TiesAgree(t)
    requires Reads(t, key, version, r) && Reads(t, key, version, s)
    ensures r == s
  {
    if r.Some? && s.Some? {
      var a :| IsBest(t, a, key, version) && t[a] == r.value;
      var b :| IsBest(t, b, key, version) && t[b] == s.value;
      assert a.version == b.version;
    }
  }

  /** In an unversioned table whose ties agree, a row answers for its key. */
  lemma RowAnswers(t: Table, row: Row, version: nat, r: Option<Cell>)
    requires TiesAgree(t) && Unversioned(t) && row in t
    ensures Reads(t, row.key, version, r) <==> r == Some(t[row])
  {
    assert IsBest(t, row, row.key, version);
    assert Reads(t, row.key, version, Some(t[row]));
    if Reads(t, row.key, version, r) {
      AnswerUnique(t, row.key, version, r, Some(t[row]));
    }
  }

  lemma NoRowAnswers(t: Table, key: string, version: nat, r: Option<Cell>)
    requires forall row | row in t :: row.key != key
    ensures Reads(t, key, version, r) <==> r == None
  {
  }

  // ---------------------------------------------------------------- layers

  /** The rows at or below a height: what DELETE ... WHERE height > h leaves. */
  function Below(t: Table, height: nat): (b: Table) {
    map row | row in t && row.height <= height :: t[row]
  }

  /** Tables laid on top of each other, the last one uppermost. */
  function Stack(layers: seq<Table>): (t: Table) {
    if layers == [] then map[]
    else Stack(layers[..|layers| - 1]) + layers[|layers| - 1]
  }

  /** Layer i holds only rows of height i. */
  ghost predicate Layered(layers: seq<Table>) {
    forall i, row | 0 <= i < |layers| && row in layers[i] :: row.height == i
  }

  lemma {:induction false} StackRows(layers: seq<Table>)
    requires Layered(layers)
    ensures forall row :: row in Stack(layers) <==> row.height < |layers| && row in layers[row.height]
    ensures forall row | row in Stack(layers) :: Stack(layers)[row] == layers[row.height][row]
  {
    if layers != [] {
      var n := |layers| - 1;
      var front := layers[..n];
      StackRows(front);
      assert forall i | 0 <= i < n :: front[i] == layers[i];
    }
  }

  /** Cutting a stack at a height undoes every layer above it, row for row. */
  lemma StackBelow(layers: seq<Table>, height: nat)
    requires Layered(layers) && height < |layers|
    ensures Below(Stack(layers), height) == Stack(layers[..height + 1])
  {
    hide Stack, Below;
    var kept := layers[..height + 1];
    assert forall i | 0 <= i <= height :: kept[i] == layers[i];
    StackRows(layers);
    StackRows(kept);
    BelowByRows(Stack(layers), Stack(kept), layers, height);
  }

  lemma BelowByRows(t: Table, u: Table, layers: seq<Table>, height: nat)
    requires height < |layers|
    requires forall row :: row in t <==> row.height < |layers| && row in layers[row.height]
    requires forall row | row in t :: t[row] == layers[row.height][row]
    requires forall row :: row in u <==> row.height <= height && row in layers[row.height]
    requires forall row | row in u :: u[row] == layers[row.height][row]
    ensures Below(t, height) == u
  {
  }

  lemma BelowBelow(t: Table, high: nat, low: nat)
    requires low <= high
    ensures Below(Below(t, high), low) == Below(t, low)
  {
    assert Below(Below(t, high), low).Keys == Below(t, low).Keys;
  }

  // ---------------------------------------------------------------- the ledger table

  /** Ledger rows are written with the block height both as version and as
      height. */
  ghost predicate LedgerTable(t: Table) {
    forall row | row in t :: row.version == row.height && t[row].RegisterCell?
  }

  lemma LedgerTiesAgree(t: Table)
    requires LedgerTable(t)
    ensures TiesAgree(t)
  {
    forall a, b | a in t && b in t && a.key == b.key && a.version == b.version
      ensures t[a] == t[b]
    {
      assert a == b;
    }
  }

  /** What one block wrote. */
  function WrittenAt(t: Table, height: nat): (l: Ledger) {
    map row | row in t && row.version == height && row.height == height && t[row].RegisterCell?
      :: row.key := t[row].register
  }

  /** The registers as of a height, by replaying the blocks up to it. */
  function LedgerAt(t: Table, height: nat): (l: Ledger) {
    (if height == 0 then map[] else LedgerAt(t, height - 1)) + WrittenAt(t, height)
  }

  function Lookup(l: Ledger, id: RegisterID): (r: Option<Cell>) {
    if id in l then Some(RegisterCell(l[id])) else None
  }

  lemma WrittenAtRow(t: Table, id: RegisterID, height: nat)
    requires LedgerTable(t)
    ensures id in WrittenAt(t, height) <==> Row(id, height, height) in t
    ensures id in WrittenAt(t, height) ==>
              t[Row(id, height, height)] == RegisterCell(WrittenAt(t, height)[id])
  {
    var here := Row(id, height, height);
    if here in t { assert here.key in WrittenAt(t, height); }
  }

  lemma {:induction false} LedgerAtReads(t: Table, id: RegisterID, height: nat)
    requires LedgerTable(t)
    ensures Reads(t, id, height, Lookup(LedgerAt(t, height), id))
  {
    hide WrittenAt;
    WrittenAtRow(t, id, height);
    var here := Row(id, height, height);
    if here in t {
      assert IsBest(t, here, id, height);
    } else {
      assert forall row | row in t && row.key == id :: row.version != height;
      if height > 0 {
        LedgerAtReads(t, id, height - 1);
        NothingWritten(t, id, height, Lookup(LedgerAt(t, height - 1), id));
      }
    }
  }

  /** A height at which a register was not written reads like the one before. */
  lemma NothingWritten(t: Table, id: RegisterID, height: nat, r: Option<Cell>)
    requires height > 0 && Reads(t, id, height - 1, r)
    requires forall row | row in t && row.key == id :: row.version != height
    ensures Reads(t, id, height, r)
  {
    if r.Some? {
      var row :| IsBest(t, row, id, height - 1) && t[row] == r.value;
      assert IsBest(t, row, id, height);
    }
  }

  /** The versioned-row query and the replay of the blocks agree on every
      register at every height. */
  lemma LedgerReadIsReplay(t: Table, id: RegisterID, height: nat, r: Option<Cell>)
    requires LedgerTable(t)
    ensures Reads(t, id, height, r) <==> r == Lookup(LedgerAt(t, height), id)
  {
    LedgerAtReads(t, id, height);
    LedgerTiesAgree(t);
    if Reads(t, id, height, r) {
      AnswerUnique(t, id, height, r, Lookup(LedgerAt(t, height), id));
    }
  }
}
