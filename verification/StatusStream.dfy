/** The stream of status updates for one transaction: a closure, polled once per
    block height, that remembers the last status it sent. */
module StatusStream {
  import opened Types
  import opened Scheduled

  /** Status codes, in the order a transaction passes through them. */
  const UNKNOWN: nat := 0
  const PENDING: nat := 1
  const FINALIZED: nat := 2
  const EXECUTED: nat := 3
  const SEALED: nat := 4
  const EXPIRED: nat := 5

  /** Number of blocks after which a transaction without a result expires. */
  const EXPIRY: nat := 600

  /** The parts of a transaction result that the stream passes on. */
  datatype Result = Result(
    txID: Identifier,
    blockID: Identifier,
    blockHeight: nat,
    collectionID: Identifier,
    events: seq<Event>,
    errorMessage: string)

  datatype Update = Update(
    status: nat,
    txID: Identifier,
    block: Option<(Identifier, nat, Identifier)>,
    execution: Option<(seq<Event>, string)>)

  /** One poll: the height asked for, whether its block is there, what the
      emulator answers (None is an error), and the events re-encoded, if that is
      asked for (None is an error again). */
  datatype Poll = Poll(height: nat, ready: bool, answer: Option<Result>, encoded: Option<seq<Event>>)

  datatype Reply =
    | NotReady
    | EndOfData
    | ConversionFailed
    | Updates(updates: seq<Update>)

  /** Unsigned 64-bit subtraction. */
  function Distance(from: nat, to: nat): (d: nat)
    ensures from <= to <= MAX_UINT64 ==> d == to - from
  {
    (to - from) % (MAX_UINT64 + 1)
  }

  /** When a height without a result counts as expired. Below the start the
      subtraction wraps around, so that all but the EXPIRY - 1 heights furthest
      below it in 64-bit arithmetic count as expired too. */
  lemma ExpiredExactly(start: nat, height: nat)
    requires start <= MAX_UINT64 && height <= MAX_UINT64
    ensures Distance(start, height) >= EXPIRY <==>
              if height >= start then height - start >= EXPIRY
              else start - height <= MAX_UINT64 + 1 - EXPIRY
  {
    if height < start { assert Distance(start, height) == MAX_UINT64 + 1 - (start - height); }
  }

  /** Block details come with finalization, execution details with execution. */
  function UpdateAt(result: Result, status: nat): (u: Update) {
    Update(status, result.txID,
           if status >= FINALIZED then Some((result.blockID, result.blockHeight, result.collectionID)) else None,
           if status >= EXECUTED then Some((result.events, result.errorMessage)) else None)
  }

  /** The updates for every status after `prev` up to `current`. */
  function Progress(result: Result, prev: nat, current: nat): (updates: seq<Update>)
    ensures |updates| == if prev < current then current - prev else 0
    ensures forall i | 0 <= i < |updates| :: updates[i] == UpdateAt(result, prev + 1 + i)
  {
    if prev < current then seq(current - prev, i requires i >= 0 => UpdateAt(result, prev + 1 + i)) else []
  }

  method GenerateUpdates(result: Result, prev: nat, current: nat) returns (updates: seq<Update>)
    ensures updates == Progress(result, prev, current)
  {
    updates := [];
    if prev == current {
      return;
    }
    var status := prev + 1;
    while status <= current
      invariant prev < status && |updates| == status - prev - 1 && (prev < current ==> status <= current + 1)
      invariant prev > current ==> updates == []
      invariant forall i | 0 <= i < |updates| :: updates[i] == UpdateAt(result, prev + 1 + i)
    {
      var block, execution := None, None;
      if status >= FINALIZED {
        block := Some((result.blockID, result.blockHeight, result.collectionID));
      }
      if status >= EXECUTED {
        execution := Some((result.events, result.errorMessage));
      }
      updates := updates + [Update(status, result.txID, block, execution)];
      status := status + 1;
    }
  }

  class Stream {
    const txID: Identifier
    const startHeight: nat
    const reencodes: bool
    var lastStatus: nat

    constructor (txID: Identifier, startHeight: nat, reencodes: bool)
      ensures this.txID == txID && this.startHeight == startHeight && this.reencodes == reencodes
      ensures lastStatus == UNKNOWN
    {
      this.txID, this.startHeight, this.reencodes := txID, startHeight, reencodes;
      lastStatus := UNKNOWN;
    }

    method Next(p: Poll) returns (reply: Reply)
      modifies this
      ensures (lastStatus, reply) == Answer(txID, startHeight, reencodes, old(lastStatus), p)
    {
      if !p.ready {
        return NotReady;
      }
      if lastStatus == SEALED || lastStatus == EXPIRED {
        return EndOfData;
      }
      if p.answer.None? {
        if Distance(startHeight, p.height) >= EXPIRY {
          lastStatus := EXPIRED;
          return Updates([Update(EXPIRED, txID, None, None)]);
        }
        return Updates([]);
      }
      var result := p.answer.value;
      if reencodes {
        if p.encoded.None? {
          return ConversionFailed;
        }
        result := result.(events := p.encoded.value);
      }
      var current := SEALED;
      if current != lastStatus {
        var updates := GenerateUpdates(result, lastStatus, current);
        lastStatus := current;
        return Updates(updates);
      }
      reply := Updates([]);
    }
  }

  function Answer(txID: Identifier, start: nat, reencodes: bool, last: nat, p: Poll): (r: (nat, Reply)) {
    if !p.ready then (last, NotReady)
    else if last == SEALED || last == EXPIRED then (last, EndOfData)
    else if p.answer.None? then
      if Distance(start, p.height) >= EXPIRY then (EXPIRED, Updates([Update(EXPIRED, txID, None, None)]))
      else (last, Updates([]))
    else if reencodes && p.encoded.None? then (last, ConversionFailed)
    else (SEALED, Updates(Progress(Delivered(reencodes, p), last, SEALED)))
  }

  function Delivered(reencodes: bool, p: Poll): (r: Result)
    requires p.answer.Some? && (reencodes ==> p.encoded.Some?)
  {
    if reencodes then p.answer.value.(events := p.encoded.value) else p.answer.value
  }

  // ---------------------------------------------------------------- whole streams

  /** The status and all updates sent after a sequence of polls. */
  function Streamed(txID: Identifier, start: nat, reencodes: bool, polls: seq<Poll>): (r: (nat, seq<Update>)) {
    if polls == [] then (UNKNOWN, [])
    else
      var n := |polls| - 1;
      var (last, sent) := Streamed(txID, start, reencodes, polls[..n]);
      var (next, reply) := Answer(txID, start, reencodes, last, polls[n]);
      (next, if reply.Updates? then sent + reply.updates else sent)
  }

  /** A poll that settles the stream. */
  predicate Settles(start: nat, reencodes: bool, p: Poll) {
    p.ready && if p.answer.None? then Distance(start, p.height) >= EXPIRY else reencodes ==> p.encoded.Some?
  }

  function FirstSettling(start: nat, reencodes: bool, polls: seq<Poll>): (p: Option<Poll>)
    ensures p.Some? ==> p.value in polls && Settles(start, reencodes, p.value)
    ensures p.None? ==> forall q | q in polls :: !Settles(start, reencodes, q)
  {
    if polls == [] then None
    else if Settles(start, reencodes, polls[0]) then Some(polls[0])
    else FirstSettling(start, reencodes, polls[1..])
  }

  lemma {:induction false} FirstSettlingSnoc(start: nat, reencodes: bool, polls: seq<Poll>, p: Poll)
    ensures FirstSettling(start, reencodes, polls + [p]) ==
            var first := FirstSettling(start, reencodes, polls);
            if first.Some? then first else if Settles(start, reencodes, p) then Some(p) else None
  {
    if polls == [] {
      assert (polls + [p])[1..] == [];
    } else {
      assert (polls + [p])[1..] == polls[1..] + [p];
      FirstSettlingSnoc(start, reencodes, polls[1..], p);
    }
  }

  function Statuses(updates: seq<Update>): (s: seq<nat>)
    ensures |s| == |updates| && forall i | 0 <= i < |s| :: s[i] == updates[i].status
  {
    seq(|updates|, i requires 0 <= i < |updates| => updates[i].status)
  }

  /** Whatever the emulator answers, what a stream has sent is decided by the first
      poll that settles it: nothing before it, the whole progress of that one
      result or a single expiry at it, and nothing after it. */
  lemma {:induction false} StreamIsItsFirstSettlingPoll(txID: Identifier, start: nat, reencodes: bool, polls: seq<Poll>)
    ensures Streamed(txID, start, reencodes, polls) ==
            match FirstSettling(start, reencodes, polls)
            case None => (UNKNOWN, [])
            case Some(p) =>
              if p.answer.None? then (EXPIRED, [Update(EXPIRED, txID, None, None)])
              else (SEALED, Progress(Delivered(reencodes, p), UNKNOWN, SEALED))
  {
    hide Distance, Progress;
    if polls != [] {
      var n := |polls| - 1;
      StreamIsItsFirstSettlingPoll(txID, start, reencodes, polls[..n]);
      FirstSettlingSnoc(start, reencodes, polls[..n], polls[n]);
      assert polls == polls[..n] + [polls[n]];
      hide FirstSettling;
      var (last, sent) := Streamed(txID, start, reencodes, polls[..n]);
      var (next, reply) := Answer(txID, start, reencodes, last, polls[n]);
      assert sent + [] == sent;
      if reply.Updates? { assert [] + reply.updates == reply.updates; }
    }
  }

  lemma {:induction false} FirstSettlingIs(start: nat, reencodes: bool, polls: seq<Poll>, k: nat)
    requires k < |polls| && Settles(start, reencodes, polls[k])
    requires forall j | 0 <= j < k :: !Settles(start, reencodes, polls[j])
    ensures FirstSettling(start, reencodes, polls) == Some(polls[k])
  {
    hide Settles;
    if k > 0 { FirstSettlingIs(start, reencodes, polls[1..], k - 1); }
  }

  /** A stream whose first settling poll has a result sends four updates about that
      one result, block details from the second on and execution details from the
      third: the emulator's events, or the re-encoded ones if that is asked for. */
  lemma SealedStream(txID: Identifier, start: nat, reencodes: bool, polls: seq<Poll>, k: nat)
    requires k < |polls| && Settles(start, reencodes, polls[k]) && polls[k].answer.Some?
    requires forall j | 0 <= j < k :: !Settles(start, reencodes, polls[j])
    ensures reencodes ==> polls[k].encoded.Some?
    ensures var r := polls[k].answer.value;
            var block := Some((r.blockID, r.blockHeight, r.collectionID));
            var execution := Some((if reencodes then polls[k].encoded.value else r.events, r.errorMessage));
            Streamed(txID, start, reencodes, polls).1 == [
              Update(PENDING, r.txID, None, None),
              Update(FINALIZED, r.txID, block, None),
              Update(EXECUTED, r.txID, block, execution),
              Update(SEALED, r.txID, block, execution)]
  {
    hide Distance, Streamed, FirstSettling;
    FirstSettlingIs(start, reencodes, polls, k);
    StreamIsItsFirstSettlingPoll(txID, start, reencodes, polls);
  }

  /** One whose first settling poll has none sends a single expiry. */
  lemma ExpiredStream(txID: Identifier, start: nat, reencodes: bool, polls: seq<Poll>, k: nat)
    requires k < |polls| && Settles(start, reencodes, polls[k]) && polls[k].answer.None?
    requires forall j | 0 <= j < k :: !Settles(start, reencodes, polls[j])
    ensures Streamed(txID, start, reencodes, polls).1 == [Update(EXPIRED, txID, None, None)]
  {
    FirstSettlingIs(start, reencodes, polls, k);
    StreamIsItsFirstSettlingPoll(txID, start, reencodes, polls);
  }

  /** A poll one below the start expires the stream, one at height 0 for the
      largest start does not. */
  lemma ExpiresBelowStart(txID: Identifier, reencodes: bool)
    ensures var p := Poll(0, true, None, None);
            && Answer(txID, 1, reencodes, UNKNOWN, p) == (EXPIRED, Updates([Update(EXPIRED, txID, None, None)]))
            && Answer(txID, MAX_UINT64, reencodes, UNKNOWN, p) == (UNKNOWN, Updates([]))
  {
    ExpiredExactly(1, 0);
    ExpiredExactly(MAX_UINT64, 0);
  }

  /** The statuses sent are none, exactly pending to sealed, or exactly expired,
      and once one of the last two is sent every ready poll ends the stream. */
  lemma StreamRuns(txID: Identifier, start: nat, reencodes: bool, polls: seq<Poll>, p: Poll)
    ensures var (last, sent) := Streamed(txID, start, reencodes, polls);
            var statuses := Statuses(sent);
            && (statuses == [] || statuses == [PENDING, FINALIZED, EXECUTED, SEALED] || statuses == [EXPIRED])
            && (statuses != [] && p.ready ==> Answer(txID, start, reencodes, last, p) == (last, EndOfData))
  {
    StreamIsItsFirstSettlingPoll(txID, start, reencodes, polls);
  }

  /** What a poll is told: not ready, the end of the data once the stream has settled,
      an error when re-encoding failed, and updates otherwise; only updates that
      settle the stream change its status. */
  lemma ReplyExactly(txID: Identifier, start: nat, reencodes: bool, last: nat, p: Poll)
    ensures var (next, reply) := Answer(txID, start, reencodes, last, p);
            var settled := last == SEALED || last == EXPIRED;
            && (reply == NotReady <==> !p.ready)
            && (reply == EndOfData <==> p.ready && settled)
            && (reply == ConversionFailed <==> p.ready && !settled && p.answer.Some? && reencodes && p.encoded.None?)
            && (next != last ==> reply.Updates? && Settles(start, reencodes, p) && !settled)
            && (next == last || next == if p.answer.Some? then SEALED else EXPIRED)
  {
    hide Distance, Progress;
  }
}
