/** A simple account of execution: transactions one after the other, each given
    its position and exactly the registers its predecessors left. */
module Replay {
  import opened Types
  import opened Storage
  import opened Scheduled
  import opened Pending

  datatype Job = Job(context: Context, tx: TransactionBody)

  datatype Shot = Shot(output: Output, writes: Ledger)

  /** The registers after some runs. */
  function StateAfter(start: Ledger, shots: seq<Shot>): (l: Ledger) {
    if shots == [] then start else StateAfter(start, shots[..|shots| - 1]) + shots[|shots| - 1].writes
  }

  function AllWrites(shots: seq<Shot>): (l: Ledger) { StateAfter(map[], shots) }

  function AllEvents(shots: seq<Shot>): (events: seq<Event>) {
    if shots == [] then [] else AllEvents(shots[..|shots| - 1]) + shots[|shots| - 1].output.events
  }

  /** Runs the jobs in order from `start`, numbering them from `first`. */
  function Sequentially(e: Engine, start: Ledger, first: nat, jobs: seq<Job>): (shots: Option<seq<Shot>>)
    ensures shots.Some? ==> |shots.value| == |jobs|
  {
    if jobs == [] then Some([])
    else
      var n := |jobs| - 1;
      var before := Sequentially(e, start, first, jobs[..n]);
      if before.None? then None
      else
        match e.vm(jobs[n].context, jobs[n].tx, first + n, StateAfter(start, before.value))
        case Ran(output, writes) => Some(before.value + [Shot(output, writes)])
        case _ => None
  }

  lemma StateAfterSnoc(start: Ledger, shots: seq<Shot>, shot: Shot)
    ensures StateAfter(start, shots + [shot]) == StateAfter(start, shots) + shot.writes
    ensures AllEvents(shots + [shot]) == AllEvents(shots) + shot.output.events
  {
    assert (shots + [shot])[..|shots|] == shots;
  }

  lemma {:induction false} StateIsStartPlusWrites(start: Ledger, shots: seq<Shot>)
    ensures StateAfter(start, shots) == start + AllWrites(shots)
  {
    if shots != [] {
      var n := |shots| - 1;
      StateIsStartPlusWrites(start, shots[..n]);
      assert (start + AllWrites(shots[..n])) + shots[n].writes == start + (AllWrites(shots[..n]) + shots[n].writes);
    }
  }

  lemma {:induction false} StateAfterJoin(start: Ledger, a: seq<Shot>, b: seq<Shot>)
    ensures StateAfter(start, a + b) == StateAfter(StateAfter(start, a), b)
    ensures AllEvents(a + b) == AllEvents(a) + AllEvents(b)
  {
    if b == [] {
      assert a + b == a;
    } else {
      hide StateAfter, AllEvents;
      var n := |b| - 1;
      var front, last := b[..n], b[n];
      assert b == front + [last] && a + b == (a + front) + [last];
      StateAfterJoin(start, a, front);
      StateAfterSnoc(start, a + front, last);
      StateAfterSnoc(StateAfter(start, a), front, last);
      ConcatAssociates(AllEvents(a), AllEvents(front), last.output.events);
    }
  }

  lemma MergeAssociates(a: Ledger, b: Ledger, c: Ledger)
    ensures (a + b) + c == a + (b + c)
  {}

  lemma ConcatAssociates<T>(a: seq<T>, b: seq<T>, c: seq<T>)
    ensures (a + b) + c == a + (b + c)
  {}

  lemma SequentiallySnoc(e: Engine, start: Ledger, first: nat, jobs: seq<Job>, shots: seq<Shot>, job: Job, shot: Shot)
    requires Sequentially(e, start, first, jobs) == Some(shots)
    requires e.vm(job.context, job.tx, first + |jobs|, StateAfter(start, shots)) == Ran(shot.output, shot.writes)
    ensures Sequentially(e, start, first, jobs + [job]) == Some(shots + [shot])
  {
    assert (jobs + [job])[..|jobs|] == jobs;
  }

  lemma SequentiallyUnsnoc(e: Engine, start: Ledger, first: nat, jobs: seq<Job>, shots: seq<Shot>)
    requires jobs != [] && Sequentially(e, start, first, jobs) == Some(shots)
    ensures var n := |jobs| - 1;
            && |shots| == |jobs| && Sequentially(e, start, first, jobs[..n]) == Some(shots[..n])
            && e.vm(jobs[n].context, jobs[n].tx, first + n, StateAfter(start, shots[..n]))
               == Ran(shots[n].output, shots[n].writes)
  {
    hide StateAfter;
    var n := |jobs| - 1;
    var before := Sequentially(e, start, first, jobs[..n]).value;
    assert shots == before + [shots[n]] && shots[..n] == before;
  }

  /** Running a list is running its first part and then, from where that ended,
      its second part. */
  lemma {:induction false} SequentiallyJoin(e: Engine, start: Ledger, first: nat, a: seq<Job>, b: seq<Job>,
                                            x: seq<Shot>, y: seq<Shot>)
    requires Sequentially(e, start, first, a) == Some(x)
    requires Sequentially(e, StateAfter(start, x), first + |a|, b) == Some(y)
    ensures Sequentially(e, start, first, a + b) == Some(x + y)
  {
    hide StateAfter, Sequentially;
    if b == [] {
      assert Sequentially(e, StateAfter(start, x), first + |a|, []) == Some([]) by {
        NothingAdded(e, StateAfter(start, x), first + |a|, Work(map[], []));
      }
      assert a + b == a && x + y == x;
    } else {
      var n := |b| - 1;
      SequentiallyUnsnoc(e, StateAfter(start, x), first + |a|, b, y);
      SequentiallyJoin(e, start, first, a, b[..n], x, y[..n]);
      StateAfterJoin(start, x, y[..n]);
      SequentiallySnoc(e, start, first, a + b[..n], x + y[..n], b[n], y[n]);
      assert a + b == (a + b[..n]) + [b[n]] && x + y == (x + y[..n]) + [y[n]];
    }
  }

  // ---------------------------------------------------------------- system transactions, replayed

  function JobsOf(context: Context, txs: seq<TransactionBody>): (jobs: seq<Job>)
    ensures |jobs| == |txs| && forall i | 0 <= i < |txs| :: jobs[i] == Job(context, txs[i])
  {
    seq(|txs|, i requires 0 <= i < |txs| => Job(context, txs[i]))
  }

  /** The results recorded for identifiers are those of the runs, in order. */
  ghost predicate Records(ids: Hashes, run: SystemRun, first: nat, jobs: seq<Job>, shots: seq<Shot>) {
    && |run.order| == |jobs| == |shots|
    && (forall k | 0 <= k < |jobs| :: run.order[k] == ids.transactionID(jobs[k].tx))
    && (NoDuplicates(run.order) ==>
          forall k | 0 <= k < |jobs| ::
            run.order[k] in run.results && run.results[run.order[k]] == IndexedResult(shots[k].output, first + k))
  }

  /** `after` is `before` plus what the runs produced. */
  ghost predicate Adds(before: Work, after: Work, shots: seq<Shot>) {
    after == Work(before.writes + AllWrites(shots), before.events + AllEvents(shots))
  }

  lemma RecordsSnoc(e: Engine, run: SystemRun, first: nat, jobs: seq<Job>, shots: seq<Shot>, job: Job, shot: Shot)
    requires Records(e.ids, run, first, jobs, shots)
    ensures Records(e.ids, run.Adding(e.ids.transactionID(job.tx), job.tx, shot.output, first + |jobs|),
                    first, jobs + [job], shots + [shot])
  {
    var id := e.ids.transactionID(job.tx);
    var next := run.Adding(id, job.tx, shot.output, first + |jobs|);
    if NoDuplicates(next.order) {
      assert NoDuplicates(run.order) by {
        forall i, j | 0 <= i < j < |run.order| ensures run.order[i] != run.order[j] {
          assert next.order[i] == run.order[i] && next.order[j] == run.order[j];
        }
      }
      forall k | 0 <= k < |jobs| + 1
        ensures next.order[k] in next.results
        ensures next.results[next.order[k]] == IndexedResult((shots + [shot])[k].output, first + k)
      {
        if k < |jobs| { assert next.order[k] == run.order[k] && next.order[k] != next.order[|jobs|]; }
      }
    }
  }

  lemma AddsSnoc(before: Work, after: Work, shots: seq<Shot>, output: Output, writes: Ledger)
    requires Adds(before, after, shots)
    ensures Adds(before, after.Merging(output, writes), shots + [Shot(output, writes)])
  {
    hide StateAfter, AllEvents;
    StateAfterSnoc(map[], shots, Shot(output, writes));
    MergeAssociates(before.writes, AllWrites(shots), writes);
    ConcatAssociates(before.events, AllEvents(shots), output.events);
  }

  /** What the virtual machine is given is what the replay would give it. */
  lemma SameState(base: Ledger, before: Work, after: Work, shots: seq<Shot>)
    requires Adds(before, after, shots)
    ensures base + after.writes == StateAfter(base + before.writes, shots)
  {
    hide StateAfter, AllEvents;
    StateIsStartPlusWrites(base + before.writes, shots);
    MergeAssociates(base, before.writes, AllWrites(shots));
  }

  lemma JobsTail(context: Context, txs: seq<TransactionBody>, k: nat, jobs: seq<Job>)
    requires k < |txs|
    ensures (jobs + [Job(context, txs[k])]) + JobsOf(context, txs[k + 1..]) == jobs + JobsOf(context, txs[k..])
  {}

  /** One more callback on top of a replay. */
  lemma CallbackReplay(e: Engine, context: Context, base: Ledger, first: nat, work: Work, tx: TransactionBody,
                       number: Option<string>, run: SystemRun, before: Work, jobs: seq<Job>, shots: seq<Shot>,
                       output: Output, writes: Ledger)
    requires Sequentially(e, base + before.writes, first, jobs) == Some(shots)
    requires Adds(before, work, shots) && Records(e.ids, run, first, jobs, shots)
    requires e.vm(context, tx, first + |jobs|, base + work.writes) == Ran(output, writes)
    ensures var id := e.ids.transactionID(tx);
            var added := run.Adding(id, tx, output, first + |jobs|);
            var numbered := if number.Some? then added.Numbering(number.value, id) else added;
            var more, job := shots + [Shot(output, writes)], Job(context, tx);
            && Sequentially(e, base + before.writes, first, jobs + [job]) == Some(more)
            && Adds(before, work.Merging(output, writes), more) && Records(e.ids, numbered, first, jobs + [job], more)
  {
    hide Adds, Records, Sequentially, StateAfter, ScanUint64;
    var job, shot, id := Job(context, tx), Shot(output, writes), e.ids.transactionID(tx);
    SameState(base, before, work, shots);
    SequentiallySnoc(e, base + before.writes, first, jobs, shots, job, shot);
    AddsSnoc(before, work, shots, output, writes);
    RecordsSnoc(e, run, first, jobs, shots, job, shot);
    var added := run.Adding(id, tx, output, first + |jobs|);
    var numbered := if number.Some? then added.Numbering(number.value, id) else added;
    NumberingRecords(e.ids, added, numbered, first, jobs + [job], shots + [shot]);
  }

  /** The callbacks from number k on, run by the emulator, extend a replay. */
  lemma {:induction false} CallbacksReplay(
    e: Engine, context: Context, base: Ledger, first: nat, work: Work,
    txs: seq<TransactionBody>, numbers: seq<string>, k: nat, run: SystemRun,
    before: Work, jobs: seq<Job>, shots: seq<Shot>) returns (more: seq<Shot>)
    requires k <= |txs| && |jobs| == 1 + k
    requires Sequentially(e, base + before.writes, first, jobs) == Some(shots)
    requires Adds(before, work, shots) && Records(e.ids, run, first, jobs, shots)
    requires RunCallbacks(e, context, base, first, work, txs, numbers, k, run).1.Some?
    ensures var (after, end) := RunCallbacks(e, context, base, first, work, txs, numbers, k, run);
            var all := jobs + JobsOf(context, txs[k..]);
            && |more| == |all|
            && Sequentially(e, base + before.writes, first, all) == Some(more) && shots <= more
            && Adds(before, after, more) && Records(e.ids, end.value, first, all, more)
    decreases |txs| - k
  {
    hide Adds, Records, Sequentially, StateAfter, ScanUint64;
    if k == |txs| {
      assert jobs + JobsOf(context, txs[k..]) == jobs;
      SequentiallyLength(e, base + before.writes, first, jobs);
      more := shots;
    } else {
      var job, id, index := Job(context, txs[k]), e.ids.transactionID(txs[k]), first + 1 + k;
      var Ran(output, writes) := e.vm(context, txs[k], index, base + work.writes);
      var shot, number := Shot(output, writes), if k < |numbers| then Some(numbers[k]) else None;
      CallbackReplay(e, context, base, first, work, txs[k], number, run, before, jobs, shots, output, writes);
      var added := run.Adding(id, txs[k], output, index);
      var numbered := if k < |numbers| then added.Numbering(numbers[k], id) else added;
      more := CallbacksReplay(e, context, base, first, work.Merging(output, writes), txs, numbers, k + 1, numbered,
                              before, jobs + [job], shots + [shot]);
      JobsTail(context, txs, k, jobs);
    }
  }

  lemma SequentiallyLength(e: Engine, start: Ledger, first: nat, jobs: seq<Job>)
    ensures Sequentially(e, start, first, jobs).Some? ==> |Sequentially(e, start, first, jobs).value| == |jobs|
  {}

  lemma NumberingRecords(ids: Hashes, run: SystemRun, numbered: SystemRun, first: nat, jobs: seq<Job>, shots: seq<Shot>)
    requires Records(ids, run, first, jobs, shots)
    requires numbered.order == run.order && numbered.results == run.results
    ensures Records(ids, numbered, first, jobs, shots)
  {}

  /** The system transactions of a block: the process transaction and the
      callbacks it announced, if enabled, and the system chunk. */
  function SystemJobs(e: Engine, header: Block, entropy: Identifier,
                      callbacks: seq<TransactionBody>): (jobs: seq<Job>) {
    (if e.scheduledEnabled then JobsOf(Context(header, entropy, ScheduledTransaction), [e.process] + callbacks) else [])
    + [Job(Context(header, entropy, SystemChunk), e.chunk)]
  }

  lemma ScheduledReplay(e: Engine, context: Context, base: Ledger, first: nat, work: Work)
    returns (callbacks: seq<TransactionBody>, shots: seq<Shot>)
    requires RunScheduled(e, context, base, first, work).1.Some?
    ensures var (after, run) := RunScheduled(e, context, base, first, work);
            var jobs := JobsOf(context, [e.process] + callbacks);
            && |shots| == |jobs| && e.callbacks(shots[0].output.events) == Some(callbacks)
            && Sequentially(e, base + work.writes, first, jobs) == Some(shots)
            && Adds(work, after, shots) && Records(e.ids, run.value, first, jobs, shots)
  {
    hide RunCallbacks, StateAfter, AllEvents, Announced, Printed, Adds, Records, Sequentially;
    var Ran(output, writes) := e.vm(context, e.process, first, base + work.writes);
    callbacks := e.callbacks(output.events).value;
    var numbers := Printed(Announced(e.announcement, output.events).value);
    OneShot(e, Job(context, e.process), base, first, work, output, writes);
    shots := CallbacksReplay(e, context, base, first, work.Merging(output, writes), callbacks, numbers, 0,
                             NO_SYSTEM_RUN.Adding(e.ids.transactionID(e.process), e.process, output, first),
                             work, [Job(context, e.process)], [Shot(output, writes)]);
    assert [Job(context, e.process)] + JobsOf(context, callbacks[0..]) == JobsOf(context, [e.process] + callbacks);
    assert shots[0] == Shot(output, writes);
  }

  lemma NothingAdded(e: Engine, start: Ledger, first: nat, work: Work)
    ensures Adds(work, work, []) && Records(e.ids, NO_SYSTEM_RUN, first, [], [])
    ensures Sequentially(e, start, first, []) == Some([])
  {
    assert work.writes + map[] == work.writes;
  }

  lemma OneShot(e: Engine, job: Job, base: Ledger, first: nat, work: Work, output: Output, writes: Ledger)
    requires e.vm(job.context, job.tx, first, base + work.writes) == Ran(output, writes)
    ensures var shot := Shot(output, writes);
            && Sequentially(e, base + work.writes, first, [job]) == Some([shot])
            && Adds(work, work.Merging(output, writes), [shot])
            && Records(e.ids, NO_SYSTEM_RUN.Adding(e.ids.transactionID(job.tx), job.tx, output, first), first, [job], [shot])
  {
    hide Adds, Records, Sequentially;
    var shot := Shot(output, writes);
    assert [] + [job] == [job] && [] + [shot] == [shot];
    NothingAdded(e, base + work.writes, first, work);
    SequentiallySnoc(e, base + work.writes, first, [], [], job, shot);
    AddsSnoc(work, work, [], output, writes);
    RecordsSnoc(e, NO_SYSTEM_RUN, first, [], [], job, shot);
  }

  /** A completed system run is a sequential run of the block's system jobs from
      the registers the user transactions left, numbered on from them. */
  lemma SystemReplay(e: Engine, header: Block, entropy: Identifier, base: Ledger, first: nat, work: Work)
    returns (callbacks: seq<TransactionBody>, shots: seq<Shot>)
    requires RunSystem(e, header, entropy, base, first, work).1.Some?
    ensures var (after, run) := RunSystem(e, header, entropy, base, first, work);
            var jobs := SystemJobs(e, header, entropy, callbacks);
            && |shots| == |jobs|
            && (e.scheduledEnabled ==> e.callbacks(shots[0].output.events) == Some(callbacks))
            && Sequentially(e, base + work.writes, first, jobs) == Some(shots)
            && Adds(work, after, shots) && Records(e.ids, run.value, first, jobs, shots)
  {
    hide Adds, Records, Sequentially, RunScheduled, StateAfter, AllEvents;
    var context := Context(header, entropy, ScheduledTransaction);
    var mid, run, jobs, done := work, NO_SYSTEM_RUN, [], [];
    if e.scheduledEnabled {
      callbacks, done := ScheduledReplay(e, context, base, first, work);
      mid, run := RunScheduled(e, context, base, first, work).0, RunScheduled(e, context, base, first, work).1.value;
      jobs := JobsOf(context, [e.process] + callbacks);
    } else {
      callbacks := [];
      NothingAdded(e, base + work.writes, first, work);
    }
    var shot := ChunkReplay(e, Context(header, entropy, SystemChunk), base, first, work, mid, run, jobs, done);
    shots := done + [shot];
  }

  lemma ChunkReplay(e: Engine, context: Context, base: Ledger, first: nat, before: Work, work: Work, run: SystemRun,
                    jobs: seq<Job>, done: seq<Shot>) returns (shot: Shot)
    requires Sequentially(e, base + before.writes, first, jobs) == Some(done)
    requires Adds(before, work, done) && Records(e.ids, run, first, jobs, done)
    requires RunChunk(e, context, base, first, work, run).1.Some?
    ensures var (after, end) := RunChunk(e, context, base, first, work, run);
            var all, shots := jobs + [Job(context, e.chunk)], done + [shot];
            && Sequentially(e, base + before.writes, first, all) == Some(shots)
            && Adds(before, after, shots) && Records(e.ids, end.value, first, all, shots)
  {
    hide Adds, Records, Sequentially, StateAfter;
    var job := Job(context, e.chunk);
    SameState(base, before, work, done);
    RecordsLength(e.ids, run, first, jobs, done);
    var Ran(output, writes) := e.vm(context, e.chunk, first + |jobs|, base + work.writes);
    shot := Shot(output, writes);
    SequentiallySnoc(e, base + before.writes, first, jobs, done, job, shot);
    AddsSnoc(before, work, done, output, writes);
    RecordsSnoc(e, run, first, jobs, done, job, shot);
  }

  lemma RecordsLength(ids: Hashes, run: SystemRun, first: nat, jobs: seq<Job>, shots: seq<Shot>)
    requires Records(ids, run, first, jobs, shots)
    ensures |run.order| == |jobs| == |shots|
  {}
}
