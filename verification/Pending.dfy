/** The block being formed: the transactions taken in so far, and what running
    them has produced. */
module Pending {
  import opened Types
  import opened Storage
  import opened Scheduled

  const MAX_VIEW_INCREASE: nat := 3

  /** Which of the three ways of running a transaction is used. */
  datatype Kind = UserTransaction | ScheduledTransaction | SystemChunk

  /** What the virtual machine can see besides the registers. */
  datatype Context = Context(header: Block, entropy: Identifier, kind: Kind)

  /** A run fails fatally, or yields an output whose writes may fail to merge. */
  datatype RunResult =
    | Fatal
    | Unmerged(output: Output)
    | Ran(output: Output, writes: Ledger)

  /** The parts of the emulator that are taken as given: hashing, the virtual
      machine, and the system transactions of the chain. */
  datatype Engine = Engine(
    ids: Hashes,
    vm: (Context, TransactionBody, nat, Ledger) -> RunResult,
    converts: Output -> bool,
    process: TransactionBody,
    chunk: TransactionBody,
    callbacks: seq<Event> -> Option<seq<TransactionBody>>,
    announcement: Announcement,
    scheduledEnabled: bool,
    genesisTime: nat,
    genesisWrites: Ledger,
    genesisEvents: seq<Event>)

  /** What execution has produced so far: registers written and events emitted. */
  datatype Work = Work(writes: Ledger, events: seq<Event>) {
    function Emitting(output: Output): (w: Work) {
      Work(writes, events + output.events)
    }

    function Merging(output: Output, more: Ledger): (w: Work) {
      Work(writes + more, events + output.events)
    }
  }

  datatype Pending = Pending(
    height: nat,
    view: nat,
    parentID: Identifier,
    timestamp: nat,
    transactions: map<Identifier, TransactionBody>,
    transactionIDs: seq<Identifier>,
    results: map<Identifier, IndexedResult>,
    work: Work,
    index: nat)
  {
    function Collections(): (c: seq<seq<Identifier>>) {
      if transactionIDs == [] then [] else [transactionIDs]
    }

    function ToBlock(ids: Hashes): (b: Block) {
      Block(height, view, parentID, timestamp,
            if transactionIDs == [] then [] else [ids.collectionID(transactionIDs)])
    }

    predicate ExecutionStarted() { index > 0 }

    predicate ExecutionComplete() { index >= |transactionIDs| }

    predicate Empty() { transactionIDs == [] }

    function Adding(ids: Hashes, tx: TransactionBody): (p: Pending) {
      this.(transactionIDs := transactionIDs + [ids.transactionID(tx)],
            transactions := transactions[ids.transactionID(tx) := tx])
    }

    /** The listed transactions are the known ones, each listed once under its
        own hash, and only executed ones have results. */
    ghost predicate WellFormed(ids: Hashes) {
      && index <= |transactionIDs|
      && NoDuplicates(transactionIDs)
      && transactions.Keys == Elements(transactionIDs)
      && (forall id | id in transactions :: ids.transactionID(transactions[id]) == id)
      && results.Keys <= Elements(transactionIDs[..index])
    }
  }

  /** A new pending block on top of `prev`. The view rises by 1 to 3, as `dice`
      falls. */
  function Fresh(ids: Hashes, prev: Block, dice: nat, now: nat): (p: Pending) {
    Pending(prev.height + 1, prev.view + dice % MAX_VIEW_INCREASE + 1, ids.blockID(prev), now,
            map[], [], map[], Work(map[], []), 0)
  }

  // ---------------------------------------------------------------- user transactions

  datatype Execution =
    | Succeeded(output: Output)
    | Unconverted(output: Output)
    | Failed

  /** Runs the next listed transaction on top of the registers `base`. The index
      moves on whether or not the run succeeds. */
  function ExecuteNext(e: Engine, context: Context, base: Ledger, p: Pending): (r: (Pending, Execution))
    requires p.index < |p.transactionIDs| && p.transactionIDs[p.index] in p.transactions
  {
    var tx := p.transactions[p.transactionIDs[p.index]];
    var moved := p.(index := p.index + 1);
    match e.vm(context, tx, p.index, base + p.work.writes)
    case Fatal => (moved, Failed)
    case Unmerged(output) => (moved.(work := p.work.Emitting(output)), Failed)
    case Ran(output, writes) =>
      (moved.(work := p.work.Merging(output, writes),
              results := p.results[e.ids.transactionID(tx) := IndexedResult(output, p.index)]),
       if e.converts(output) then Succeeded(output) else Unconverted(output))
  }

  lemma ExecuteNextWellFormed(e: Engine, context: Context, base: Ledger, p: Pending)
    requires p.WellFormed(e.ids) && p.index < |p.transactionIDs|
    ensures p.transactionIDs[p.index] in p.transactions
    ensures var q := ExecuteNext(e, context, base, p).0;
            && q.WellFormed(e.ids) && q.index == p.index + 1
            && q == p.(index := q.index, results := q.results, work := q.work)
  {
    hide NoDuplicates;
    var id := p.transactionIDs[p.index];
    assert id in Elements(p.transactionIDs);
    ElementsTake(p.transactionIDs, p.index);
  }

  lemma ElementsTake<T>(s: seq<T>, i: nat)
    requires i < |s|
    ensures Elements(s[..i + 1]) == Elements(s[..i]) + {s[i]}
  {
    assert s[..i + 1] == s[..i] + [s[i]];
  }

  /** Runs what is left, stopping at the first failure. */
  function ExecuteRest(e: Engine, context: Context, base: Ledger, p: Pending): (r: (Pending, seq<Output>, bool))
    requires p.WellFormed(e.ids)
    decreases |p.transactionIDs| - p.index
  {
    if p.ExecutionComplete() then (p, [], true)
    else
      ExecuteNextWellFormed(e, context, base, p);
      var (q, execution) := ExecuteNext(e, context, base, p);
      if !execution.Succeeded? then (q, [], false)
      else
        var (end, outputs, ok) := ExecuteRest(e, context, base, q);
        (end, [execution.output] + outputs, ok)
  }

  // ---------------------------------------------------------------- system transactions

  function IdsOf(ids: Hashes, txs: seq<TransactionBody>): (r: seq<Identifier>)
    ensures |r| == |txs| && forall i | 0 <= i < |txs| :: r[i] == ids.transactionID(txs[i])
  {
    seq(|txs|, i requires 0 <= i < |txs| => ids.transactionID(txs[i]))
  }

  /** The system transactions run so far for a block. */
  datatype SystemRun = SystemRun(
    order: seq<Identifier>,
    bodies: map<Identifier, TransactionBody>,
    results: map<Identifier, IndexedResult>,
    scheduled: map<nat, Identifier>)
  {
    function Adding(id: Identifier, tx: TransactionBody, output: Output, index: nat): (r: SystemRun) {
      SystemRun(order + [id], bodies[id := tx], results[id := IndexedResult(output, index)], scheduled)
    }

    /** Records which scheduled number `id` had, if its printed form scans. */
    function Numbering(number: string, id: Identifier): (r: SystemRun) {
      var n := ScanUint64(number);
      if n.None? then this else this.(scheduled := scheduled[n.value := id])
    }

    ghost predicate WellFormed(ids: Hashes) {
      && bodies.Keys == results.Keys == Elements(order)
      && forall id | id in bodies :: ids.transactionID(bodies[id]) == id
    }
  }

  const NO_SYSTEM_RUN := SystemRun([], map[], map[], map[])

  /** Runs the callbacks from number k on, each on top of its predecessors.
      `first` is the number of user transactions in the block. */
  function RunCallbacks(e: Engine, context: Context, base: Ledger, first: nat, work: Work,
                        txs: seq<TransactionBody>, numbers: seq<string>, k: nat, run: SystemRun)
    : (r: (Work, Option<SystemRun>))
    requires k <= |txs|
    decreases |txs| - k
  {
    if k == |txs| then (work, Some(run))
    else
      var id := e.ids.transactionID(txs[k]);
      var index := first + 1 + k;
      match e.vm(context, txs[k], index, base + work.writes)
      case Fatal => (work, None)
      case Unmerged(output) => (if e.converts(output) then work.Emitting(output) else work, None)
      case Ran(output, writes) =>
        if !e.converts(output) then (work, None)
        else
          var added := run.Adding(id, txs[k], output, index);
          var numbered := if k < |numbers| then added.Numbering(numbers[k], id) else added;
          RunCallbacks(e, context, base, first, work.Merging(output, writes), txs, numbers, k + 1, numbered)
  }

  /** Runs the process transaction and the callbacks it announces. */
  function RunScheduled(e: Engine, context: Context, base: Ledger, first: nat, work: Work)
    : (r: (Work, Option<SystemRun>))
  {
    match e.vm(context, e.process, first, base + work.writes)
    case Fatal => (work, None)
    case Unmerged(output) => (work.Emitting(output), None)
    case Ran(output, writes) =>
      var merged := work.Merging(output, writes);
      var txs, numbers := e.callbacks(output.events), Announced(e.announcement, output.events);
      if txs.None? || numbers.None? then (merged, None)
      else
        RunCallbacks(e, context, base, first, merged, txs.value, Printed(numbers.value), 0,
                     NO_SYSTEM_RUN.Adding(e.ids.transactionID(e.process), e.process, output, first))
  }

  /** Runs the system chunk transaction, which must not revert. */
  function RunChunk(e: Engine, context: Context, base: Ledger, first: nat, work: Work, run: SystemRun)
    : (r: (Work, Option<SystemRun>))
  {
    var index := first + |run.order|;
    match e.vm(context, e.chunk, index, base + work.writes)
    case Fatal => (work, None)
    case Unmerged(output) => (if output.errorCode != 0 then work else work.Emitting(output), None)
    case Ran(output, writes) =>
      if output.errorCode != 0 then (work, None)
      else (work.Merging(output, writes),
            Some(run.Adding(e.ids.transactionID(e.chunk), e.chunk, output, index)))
  }

  /** Everything that runs when a block is committed. */
  function RunSystem(e: Engine, header: Block, entropy: Identifier, base: Ledger, first: nat, work: Work)
    : (r: (Work, Option<SystemRun>))
  {
    var (done, run) :=
      if e.scheduledEnabled then RunScheduled(e, Context(header, entropy, ScheduledTransaction), base, first, work)
      else (work, Some(NO_SYSTEM_RUN));
    if run.None? then (done, None)
    else RunChunk(e, Context(header, entropy, SystemChunk), base, first, done, run.value)
  }

  // ---------------------------------------------------------------- what a system run records

  lemma AddingWellFormed(ids: Hashes, run: SystemRun, tx: TransactionBody, output: Output, index: nat)
    requires run.WellFormed(ids)
    ensures run.Adding(ids.transactionID(tx), tx, output, index).WellFormed(ids)
  {
    var id := ids.transactionID(tx);
    assert Elements(run.order + [id]) == Elements(run.order) + {id};
  }

  /** Scheduled numbers belong to transactions run after the process transaction. */
  ghost predicate Numbered(e: Engine, run: SystemRun) {
    && (run.order != [] ==> run.order[0] == e.ids.transactionID(e.process))
    && forall n | n in run.scheduled :: exists k :: 0 < k < |run.order| && run.order[k] == run.scheduled[n]
  }

  lemma AddingNumbered(e: Engine, run: SystemRun, tx: TransactionBody, output: Output, index: nat,
                       number: Option<string>)
    requires Numbered(e, run) && run.order != []
    ensures var id := e.ids.transactionID(tx);
            var added := run.Adding(id, tx, output, index);
            Numbered(e, if number.Some? then added.Numbering(number.value, id) else added)
  {
    hide ScanUint64;
    var id := e.ids.transactionID(tx);
    var added := run.Adding(id, tx, output, index);
    var end := if number.Some? then added.Numbering(number.value, id) else added;
    forall n | n in end.scheduled ensures exists k :: 0 < k < |end.order| && end.order[k] == end.scheduled[n] {
      if n in run.scheduled && end.scheduled[n] == run.scheduled[n] {
        var k :| 0 < k < |run.order| && run.order[k] == run.scheduled[n];
        assert end.order[k] == end.scheduled[n];
      } else {
        assert end.order[|run.order|] == id == end.scheduled[n];
      }
    }
  }

  lemma {:induction false} RunCallbacksWellFormed(
    e: Engine, context: Context, base: Ledger, first: nat, work: Work,
    txs: seq<TransactionBody>, numbers: seq<string>, k: nat, run: SystemRun)
    requires k <= |txs| && run.WellFormed(e.ids) && Numbered(e, run) && run.order != []
    ensures var r := RunCallbacks(e, context, base, first, work, txs, numbers, k, run).1;
            r.Some? ==> r.value.WellFormed(e.ids) && Numbered(e, r.value) && r.value.order != []
    decreases |txs| - k
  {
    hide Numbered;
    if k < |txs| {
      var id, index := e.ids.transactionID(txs[k]), first + 1 + k;
      match e.vm(context, txs[k], index, base + work.writes)
      case Fatal =>
      case Unmerged(output) =>
      case Ran(output, writes) =>
        if e.converts(output) {
          var added := run.Adding(id, txs[k], output, index);
          AddingWellFormed(e.ids, run, txs[k], output, index);
          AddingNumbered(e, run, txs[k], output, index, if k < |numbers| then Some(numbers[k]) else None);
          var numbered := if k < |numbers| then added.Numbering(numbers[k], id) else added;
          RunCallbacksWellFormed(e, context, base, first, work.Merging(output, writes), txs, numbers, k + 1, numbered);
        }
    }
  }

  lemma RunScheduledWellFormed(e: Engine, context: Context, base: Ledger, first: nat, work: Work)
    ensures var r := RunScheduled(e, context, base, first, work).1;
            r.Some? ==> r.value.WellFormed(e.ids) && Numbered(e, r.value) && r.value.order != []
  {
    hide RunCallbacks, Announced, Printed;
    match e.vm(context, e.process, first, base + work.writes)
    case Fatal =>
    case Unmerged(output) =>
    case Ran(output, writes) =>
      var txs, numbers := e.callbacks(output.events), Announced(e.announcement, output.events);
      if txs.Some? && numbers.Some? {
        AddingWellFormed(e.ids, NO_SYSTEM_RUN, e.process, output, first);
        RunCallbacksWellFormed(e, context, base, first, work.Merging(output, writes), txs.value,
                               Printed(numbers.value), 0,
                               NO_SYSTEM_RUN.Adding(e.ids.transactionID(e.process), e.process, output, first));
      }
  }

  /** A system run that reached the end: it lists the transactions it has bodies
      and results for, the system chunk last, and every scheduled number belongs
      to a transaction strictly between the process transaction and the chunk. */
  ghost predicate Complete(e: Engine, run: SystemRun) {
    var n := |run.order| - 1;
    && run.WellFormed(e.ids) && n >= 0 && run.order[n] == e.ids.transactionID(e.chunk)
    && forall s | s in run.scheduled ::
         run.order[0] == e.ids.transactionID(e.process)
         && exists k :: 0 < k < n && run.order[k] == run.scheduled[s]
  }

  lemma RunSystemComplete(e: Engine, header: Block, entropy: Identifier, base: Ledger, first: nat, work: Work)
    ensures var r := RunSystem(e, header, entropy, base, first, work).1; r.Some? ==> Complete(e, r.value)
  {
    hide RunScheduled, Numbered, Complete;
    var context := Context(header, entropy, ScheduledTransaction);
    RunScheduledWellFormed(e, context, base, first, work);
    var (done, run) :=
      if e.scheduledEnabled then RunScheduled(e, context, base, first, work) else (work, Some(NO_SYSTEM_RUN));
    if run.Some? {
      assert Numbered(e, NO_SYSTEM_RUN) by { NothingNumbered(e); }
      match e.vm(Context(header, entropy, SystemChunk), e.chunk, first + |run.value.order|, base + done.writes)
      case Fatal =>
      case Unmerged(output) =>
      case Ran(output, writes) =>
        ChunkCompletes(e, run.value, output, first + |run.value.order|);
    }
  }

  lemma NothingNumbered(e: Engine)
    ensures Numbered(e, NO_SYSTEM_RUN)
  {}

  lemma ChunkCompletes(e: Engine, run: SystemRun, output: Output, index: nat)
    requires run.WellFormed(e.ids) && Numbered(e, run)
    ensures Complete(e, run.Adding(e.ids.transactionID(e.chunk), e.chunk, output, index))
  {
    AddingWellFormed(e.ids, run, e.chunk, output, index);
    var end := run.Adding(e.ids.transactionID(e.chunk), e.chunk, output, index);
    forall s | s in end.scheduled
      ensures end.order[0] == e.ids.transactionID(e.process)
      ensures exists k :: 0 < k < |run.order| && end.order[k] == end.scheduled[s]
    {
      var k :| 0 < k < |run.order| && run.order[k] == run.scheduled[s];
      assert end.order[k] == end.scheduled[s];
    }
  }
}
