/** The values that flow between the chain engine, the stores and the virtual
    machine: identifiers, transactions, blocks, events, results. */
module Types {

  datatype Option<+T> = None | Some(value: T)

  newtype byte = x: int | 0 <= x < 256

  /** A hash. The emulator's are 32 bytes long; the model leaves the length open,
      because hashes are assumed to be injective on contents and no function into
      32 bytes is. */
  type Identifier = seq<byte>

  const ZERO_ID: Identifier :=
    [0, 0, 0, 0, 0, 0, 0, 0, 0, 0, 0, 0, 0, 0, 0, 0, 0, 0, 0, 0, 0, 0, 0, 0, 0, 0, 0, 0, 0, 0, 0, 0]

  /** A register is named by its printed form, which is what the stores key on. */
  type RegisterID = string
  type RegisterValue = seq<byte>

  /** Registers with a known value; a register that was never written is absent,
      one that was cleared is present with an empty value. */
  type Ledger = map<RegisterID, RegisterValue>

  datatype TransactionBody = TransactionBody(content: seq<byte>)

  datatype Event = Event(kind: string, transactionIndex: nat, payload: seq<byte>)

  datatype Block = Block(
    height: nat,
    view: nat,
    parentID: Identifier,
    timestamp: nat,
    guarantees: seq<Identifier>)

  /** What running one procedure yields; errorCode is 0 when it did not revert. */
  datatype Output = Output(
    errorCode: nat,
    errorMessage: string,
    logs: seq<string>,
    events: seq<Event>)

  datatype IndexedResult = IndexedResult(output: Output, index: nat)

  datatype StorableResult = StorableResult(
    errorCode: nat,
    errorMessage: string,
    logs: seq<string>,
    events: seq<Event>,
    blockID: Identifier,
    blockHeight: nat,
    collectionID: Identifier)

  /** Per block: its system transactions in execution order, and which scheduled
      number each scheduled transaction had. */
  datatype SystemTransactions = SystemTransactions(
    blockID: Identifier,
    transactions: seq<Identifier>,
    scheduled: map<nat, Identifier>)

  ghost predicate NoDuplicates<T>(s: seq<T>) {
    forall i, j :: 0 <= i < j < |s| ==> s[i] != s[j]
  }

  function Elements<T>(s: seq<T>): (e: set<T>) {
    set x | x in s
  }

  /** A sequence is free of duplicates exactly when it is as long as the set of
      its elements is large. */
  lemma {:induction false} DistinctByCardinality<T>(s: seq<T>)
    ensures |Elements(s)| <= |s|
    ensures NoDuplicates(s) <==> |Elements(s)| == |s|
  {
    if s != [] {
      var n := |s| - 1;
      var front := s[..n];
      DistinctByCardinality(front);
      assert s == front + [s[n]];
      if s[n] in front {
        assert Elements(s) == Elements(front);
        var i :| 0 <= i < n && front[i] == s[n];
        assert s[i] == s[n];
      } else {
        assert Elements(s) == Elements(front) + {s[n]};
        if NoDuplicates(front) {
          forall i, j | 0 <= i < j < |s| ensures s[i] != s[j] {
            if j == n { assert front[i] == s[i]; } else { assert front[i] == s[i] && front[j] == s[j]; }
          }
        }
        if NoDuplicates(s) {
          forall i, j | 0 <= i < j < |front| ensures front[i] != front[j] {
            assert front[i] == s[i] && front[j] == s[j];
          }
        }
      }
    }
  }
}
