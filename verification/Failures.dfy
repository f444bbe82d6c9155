/** How running the system transactions of a block ends, and what a run that fails
    leaves in the pending block. */
module Failures {
  import opened Types
  import opened Tables
  import opened Storage
  import opened Scheduled
  import opened Pending
  import opened Chain
  import opened Replay

  /** The jobs have run one after the other and left `work`. */
  ghost predicate Done(e: Engine, base: Ledger, first: nat, before: Work, work: Work, jobs: seq<Job>, shots: seq<Shot>) {
    Sequentially(e, base + before.writes, first, jobs) == Some(shots) && Adds(before, work, shots)
  }

  lemma DoneSnoc(e: Engine, base: Ledger, first: nat, before: Work, work: Work, jobs: seq<Job>, shots: seq<Shot>,
                 job: Job, output: Output, writes: Ledger)
    requires Done(e, base, first, before, work, jobs, shots)
    requires e.vm(job.context, job.tx, first + |jobs|, base + work.writes) == Ran(output, writes)
    ensures Done(e, base, first, before, work.Merging(output, writes), jobs + [job], shots + [Shot(output, writes)])
  {
    hide Sequentially, StateAfter, AllEvents, Adds;
    SameState(base, before, work, shots);
    SequentiallySnoc(e, base + before.writes, first, jobs, shots, job, Shot(output, writes));
    AddsSnoc(before, work, shots, output, writes);
  }

  lemma DoneNone(e: Engine, base: Ledger, first: nat, work: Work)
    ensures Done(e, base, first, work, work, [], [])
  {
    hide Sequentially;
    NothingAdded(e, base + work.writes, first, work);
  }

  /** Why a system transaction stops the run: it does not run or its writes do not
      merge, a callback's output does not convert, or the system chunk reverts. */
  predicate Stops(e: Engine, job: Job, process: bool, r: RunResult) {
    || !r.Ran?
    || (!process && job.context.kind == ScheduledTransaction && !e.converts(r.output))
    || (job.context.kind == SystemChunk && r.output.errorCode != 0)
  }

  /** The events it leaves all the same: those of an output whose writes do not merge,
      if a callback's converts and the system chunk did not revert. */
  function Residue(e: Engine, job: Job, process: bool, r: RunResult): (events: seq<Event>) {
    if r.Unmerged? && (process || (if job.context.kind == SystemChunk then r.output.errorCode == 0 else e.converts(r.output)))
    then r.output.events else []
  }

  /** The jobs ran, and then one more stopped the run and left its residue: no write
      of it, and none of its events but those. */
  ghost predicate StoppedAt(e: Engine, base: Ledger, first: nat, before: Work, after: Work, jobs: seq<Job>,
                            shots: seq<Shot>, job: Job, process: bool) {
    exists work ::
      && Done(e, base, first, before, work, jobs, shots)
      && var r := e.vm(job.context, job.tx, first + |jobs|, base + work.writes);
         Stops(e, job, process, r) && after == Work(work.writes, work.events + Residue(e, job, process, r))
  }

  lemma StopHere(e: Engine, base: Ledger, first: nat, before: Work, work: Work, jobs: seq<Job>, shots: seq<Shot>,
                 job: Job, process: bool, r: RunResult, after: Work)
    requires Done(e, base, first, before, work, jobs, shots)
    requires e.vm(job.context, job.tx, first + |jobs|, base + work.writes) == r && Stops(e, job, process, r)
    requires after == if Residue(e, job, process, r) == [] then work
                      else Work(work.writes, work.events + Residue(e, job, process, r))
    ensures StoppedAt(e, base, first, before, after, jobs, shots, job, process)
  {
    hide Done;
    assert work.events + [] == work.events;
  }

  // ---------------------------------------------------------------- callbacks

  /** All outputs but the first convert. */
  ghost predicate Converted(e: Engine, shots: seq<Shot>) {
    forall i | 1 <= i < |shots| :: e.converts(shots[i].output)
  }

  lemma {:induction false} CallbacksEnd(
    e: Engine, context: Context, base: Ledger, first: nat, before: Work, work: Work,
    txs: seq<TransactionBody>, numbers: seq<string>, k: nat, run: SystemRun, jobs: seq<Job>, shots: seq<Shot>)
    returns (m: nat, all: seq<Job>, more: seq<Shot>)
    requires context.kind == ScheduledTransaction && k <= |txs| && |jobs| == |shots| == 1 + k
    requires Done(e, base, first, before, work, jobs, shots) && Converted(e, shots)
    ensures k <= m <= |txs| && all == jobs + JobsOf(context, txs[k..m]) && |more| == |all| && Converted(e, more)
    ensures more[0] == shots[0]
    ensures var (after, end) := RunCallbacks(e, context, base, first, work, txs, numbers, k, run);
            if end.Some? then m == |txs| && Done(e, base, first, before, after, all, more)
            else m < |txs| && StoppedAt(e, base, first, before, after, all, more, Job(context, txs[m]), false)
    decreases |txs| - k
  {
    hide Done, StoppedAt, Stops, Residue, Converted, RunCallbacks, JobsOf;
    m, all, more := k, jobs, shots;
    assert txs[k..k] == [] && jobs + JobsOf(context, []) == jobs;
    var (after, end) := RunCallbacks(e, context, base, first, work, txs, numbers, k, run);
    if k == |txs| {
      NoCallbackLeft(e, context, base, first, work, txs, numbers, run);
    } else {
      var job, r := Job(context, txs[k]), e.vm(context, txs[k], first + 1 + k, base + work.writes);
      CallbackUnfolds(e, context, base, first, work, txs, numbers, k, run);
      if r.Ran? && e.converts(r.output) {
        DoneSnoc(e, base, first, before, work, jobs, shots, job, r.output, r.writes);
        OneMoreConverted(e, shots, Shot(r.output, r.writes));
        m, all, more := CallbacksEnd(e, context, base, first, before, work.Merging(r.output, r.writes), txs, numbers, k + 1,
                                     Recording(e, run, txs[k], r.output, first + 1 + k, numbers, k),
                                     jobs + [job], shots + [Shot(r.output, r.writes)]);
        JobsBetween(context, txs, k, m, jobs);
      } else {
        StopHere(e, base, first, before, work, jobs, shots, job, false, r, after);
      }
    }
  }

  lemma OneMoreConverted(e: Engine, shots: seq<Shot>, shot: Shot)
    requires Converted(e, shots) && e.converts(shot.output)
    ensures Converted(e, shots + [shot])
  {}

  lemma NoCallbackLeft(e: Engine, context: Context, base: Ledger, first: nat, work: Work, txs: seq<TransactionBody>,
                       numbers: seq<string>, run: SystemRun)
    ensures RunCallbacks(e, context, base, first, work, txs, numbers, |txs|, run) == (work, Some(run))
  {}

  /** The record after one more callback. */
  function Recording(e: Engine, run: SystemRun, tx: TransactionBody, output: Output, index: nat, numbers: seq<string>,
                     k: nat): (r: SystemRun) {
    var id := e.ids.transactionID(tx);
    var added := run.Adding(id, tx, output, index);
    if k < |numbers| then added.Numbering(numbers[k], id) else added
  }

  lemma CallbackUnfolds(e: Engine, context: Context, base: Ledger, first: nat, work: Work, txs: seq<TransactionBody>,
                        numbers: seq<string>, k: nat, run: SystemRun)
    requires context.kind == ScheduledTransaction && k < |txs|
    ensures var (after, end) := RunCallbacks(e, context, base, first, work, txs, numbers, k, run);
            var job, r := Job(context, txs[k]), e.vm(context, txs[k], first + 1 + k, base + work.writes);
            if r.Ran? && e.converts(r.output) then
              (after, end) == RunCallbacks(e, context, base, first, work.Merging(r.output, r.writes), txs, numbers, k + 1,
                                           Recording(e, run, txs[k], r.output, first + 1 + k, numbers, k))
            else
              && end == None && Stops(e, job, false, r)
              && after == if Residue(e, job, false, r) == [] then work
                          else Work(work.writes, work.events + Residue(e, job, false, r))
  {
    hide ScanUint64;
    assert work.events + [] == work.events;
  }

  lemma JobsBetween(context: Context, txs: seq<TransactionBody>, k: nat, m: nat, jobs: seq<Job>)
    requires k < m <= |txs|
    ensures (jobs + [Job(context, txs[k])]) + JobsOf(context, txs[k + 1..m]) == jobs + JobsOf(context, txs[k..m])
  {}

  lemma {:induction false} OrderGrows(e: Engine, context: Context, base: Ledger, first: nat, work: Work,
                                      txs: seq<TransactionBody>, numbers: seq<string>, k: nat, run: SystemRun)
    requires k <= |txs|
    ensures var end := RunCallbacks(e, context, base, first, work, txs, numbers, k, run).1;
            end.Some? ==> |end.value.order| == |run.order| + |txs| - k
    decreases |txs| - k
  {
    hide ScanUint64;
    if k < |txs| {
      var r := e.vm(context, txs[k], first + 1 + k, base + work.writes);
      if r.Ran? && e.converts(r.output) {
        var added := run.Adding(e.ids.transactionID(txs[k]), txs[k], r.output, first + 1 + k);
        var numbered := if k < |numbers| then added.Numbering(numbers[k], e.ids.transactionID(txs[k])) else added;
        OrderGrows(e, context, base, first, work.Merging(r.output, r.writes), txs, numbers, k + 1, numbered);
      }
    }
  }

  // ---------------------------------------------------------------- the whole system run

  /** The events of the process transaction decode to these callbacks and to numbers. */
  ghost predicate Decodes(e: Engine, events: seq<Event>, callbacks: seq<TransactionBody>) {
    e.callbacks(events) == Some(callbacks) && !Undecodable(e.announcement, events)
  }

  ghost predicate Undecoded(e: Engine, events: seq<Event>) {
    e.callbacks(events).None? || Undecodable(e.announcement, events)
  }

  /** How the process transaction and its callbacks end: all run and all convert; or
      the process transaction stops the run; or its events do not decode; or a
      callback stops the run. */
  ghost predicate ScheduledEnd(e: Engine, context: Context, base: Ledger, first: nat, before: Work, after: Work, ok: bool,
                               callbacks: seq<TransactionBody>, shots: seq<Shot>) {
    var jobs, n := JobsOf(context, [e.process] + callbacks), |shots|;
    if ok then
      && n == |jobs| && Done(e, base, first, before, after, jobs, shots)
      && Decodes(e, shots[0].output.events, callbacks) && Converted(e, shots)
    else if n == 1 && Undecoded(e, shots[0].output.events) then
      Done(e, base, first, before, after, jobs[..1], shots)
    else
      && n < |jobs| && (n > 0 ==> Decodes(e, shots[0].output.events, callbacks) && Converted(e, shots))
      && StoppedAt(e, base, first, before, after, jobs[..n], shots, jobs[n], n == 0)
  }

  lemma ScheduledEnds(e: Engine, context: Context, base: Ledger, first: nat, work: Work)
    returns (callbacks: seq<TransactionBody>, shots: seq<Shot>)
    requires context.kind == ScheduledTransaction
    ensures var (after, run) := RunScheduled(e, context, base, first, work);
            && ScheduledEnd(e, context, base, first, work, after, run.Some?, callbacks, shots)
            && (run.Some? ==> |run.value.order| == 1 + |callbacks|)
  {
    hide Done, StoppedAt, Undecodable, Announced, Printed, RunCallbacks;
    var job := Job(context, e.process);
    var r := e.vm(context, e.process, first, base + work.writes);
    var after := RunScheduled(e, context, base, first, work).0;
    DoneNone(e, base, first, work);
    callbacks, shots := [], [];
    assert JobsOf(context, [e.process] + []) == [job] && [job][..0] == [];
    if !r.Ran? {
      StopHere(e, base, first, work, work, [], [], job, true, r, after);
    } else {
      var merged := work.Merging(r.output, r.writes);
      DoneSnoc(e, base, first, work, work, [], [], job, r.output, r.writes);
      shots := [Shot(r.output, r.writes)];
      assert [] + [job] == [job] && [] + shots == shots && [job][..1] == [job];
      AnnouncedExactly(e.announcement, r.output.events, []);
      if !Undecoded(e, r.output.events) {
        callbacks := e.callbacks(r.output.events).value;
        var numbers := Printed(Announced(e.announcement, r.output.events).value);
        var start := NO_SYSTEM_RUN.Adding(e.ids.transactionID(e.process), e.process, r.output, first);
        var m, all, more := CallbacksEnd(e, context, base, first, work, merged, callbacks, numbers, 0, start, [job], shots);
        OrderGrows(e, context, base, first, merged, callbacks, numbers, 0, start);
        JobsUpTo(context, e.process, callbacks, m);
        shots := more;
      }
    }
  }

  lemma JobsUpTo(context: Context, tx: TransactionBody, txs: seq<TransactionBody>, m: nat)
    requires m <= |txs|
    ensures var jobs := JobsOf(context, [tx] + txs);
            && [Job(context, tx)] + JobsOf(context, txs[0..m]) == jobs[..m + 1]
            && (m < |txs| ==> jobs[m + 1] == Job(context, txs[m])) && (m == |txs| ==> jobs[..m + 1] == jobs)
  {}

  /** How a system run ends: all system transactions run, the callbacks convert and
      the system chunk does not revert; or the events of the process transaction do
      not decode, which leaves its work; or one of them stops the run, which leaves
      the work of those before it and the residue of that one. */
  ghost predicate SystemEnd(e: Engine, header: Block, entropy: Identifier, base: Ledger, first: nat, before: Work,
                            after: Work, ok: bool, callbacks: seq<TransactionBody>, shots: seq<Shot>) {
    var jobs, n := SystemJobs(e, header, entropy, callbacks), |shots|;
    if ok then
      && n == |jobs| && Done(e, base, first, before, after, jobs, shots) && shots[n - 1].output.errorCode == 0
      && (e.scheduledEnabled ==> Decodes(e, shots[0].output.events, callbacks) && Converted(e, shots[..n - 1]))
    else if e.scheduledEnabled && n == 1 && Undecoded(e, shots[0].output.events) then
      Done(e, base, first, before, after, jobs[..1], shots)
    else
      && n < |jobs|
      && (e.scheduledEnabled && n > 0 ==> Decodes(e, shots[0].output.events, callbacks) && Converted(e, shots))
      && StoppedAt(e, base, first, before, after, jobs[..n], shots, jobs[n], e.scheduledEnabled && n == 0)
  }

  lemma SystemEnds(e: Engine, header: Block, entropy: Identifier, base: Ledger, first: nat, work: Work)
    returns (callbacks: seq<TransactionBody>, shots: seq<Shot>)
    ensures var (after, run) := RunSystem(e, header, entropy, base, first, work);
            SystemEnd(e, header, entropy, base, first, work, after, run.Some?, callbacks, shots)
  {
    hide Done, StoppedAt, Undecodable, Converted, RunScheduled;
    var context := Context(header, entropy, ScheduledTransaction);
    var mid, run, before := work, NO_SYSTEM_RUN, [];
    callbacks, shots := [], [];
    if e.scheduledEnabled {
      callbacks, shots := ScheduledEnds(e, context, base, first, work);
      before := JobsOf(context, [e.process] + callbacks);
    } else {
      DoneNone(e, base, first, work);
    }
    var jobs, chunk := SystemJobs(e, header, entropy, callbacks), Job(Context(header, entropy, SystemChunk), e.chunk);
    assert jobs == before + [chunk] && forall n | 0 <= n <= |before| :: jobs[..n] == before[..n];
    if e.scheduledEnabled && RunScheduled(e, context, base, first, work).1.Some? {
      mid, run := RunScheduled(e, context, base, first, work).0, RunScheduled(e, context, base, first, work).1.value;
    }
    if !e.scheduledEnabled || RunScheduled(e, context, base, first, work).1.Some? {
      assert before[..|before|] == before && jobs[..|before|] == before;
      shots := ChunkEnds(e, chunk, base, first, work, mid, run, before, shots);
    }
  }

  lemma ChunkEnds(e: Engine, chunk: Job, base: Ledger, first: nat, before: Work, work: Work, run: SystemRun,
                  jobs: seq<Job>, shots: seq<Shot>) returns (more: seq<Shot>)
    requires chunk.tx == e.chunk && chunk.context.kind == SystemChunk && |run.order| == |jobs| == |shots|
    requires Done(e, base, first, before, work, jobs, shots)
    ensures var (after, end) := RunChunk(e, chunk.context, base, first, work, run);
            if end.Some? then
              && |more| == |jobs| + 1 && more[..|jobs|] == shots && more[|jobs|].output.errorCode == 0
              && Done(e, base, first, before, after, jobs + [chunk], more)
            else more == shots && StoppedAt(e, base, first, before, after, jobs, shots, chunk, false)
  {
    hide Done, StoppedAt;
    more := shots;
    var r := e.vm(chunk.context, e.chunk, first + |jobs|, base + work.writes);
    var after := RunChunk(e, chunk.context, base, first, work, run).0;
    if r.Ran? && r.output.errorCode == 0 {
      DoneSnoc(e, base, first, before, work, jobs, shots, chunk, r.output, r.writes);
      more := shots + [Shot(r.output, r.writes)];
    } else {
      StopHere(e, base, first, before, work, jobs, shots, chunk, false, r, after);
    }
  }

  // ---------------------------------------------------------------- commits

  /** A commit leaves the store and the pending block as they were unless it succeeds,
      but for the pending block's work, which is what the system run left. */
  lemma FailedCommitLeaves(e: Engine, c: Chain, dice: nat, now: nat)
    returns (callbacks: seq<TransactionBody>, shots: seq<Shot>)
    requires Seal(e, c, dice, now).1.Abandoned?
    ensures var (d, outcome) := Seal(e, c, dice, now);
            && d == c.(pending := c.pending.(work := d.pending.work))
            && SystemEnd(e, c.pending.ToBlock(e.ids), c.entropy, c.Base(), |c.pending.transactions|, c.pending.work,
                         d.pending.work, outcome.error != SystemExecutionFailed, callbacks, shots)
  {
    hide RunSystem, SystemEnd, LedgerAt, Committed, Indexed, Fresh, CommitCheck, Record;
    callbacks, shots := SystemEnds(e, c.pending.ToBlock(e.ids), c.entropy, c.Base(), |c.pending.transactions|, c.pending.work);
    var (d, outcome) := Seal(e, c, dice, now);
    assert (outcome.error != SystemExecutionFailed) == Attempt(e, c).1.Some? && d.pending.work == Attempt(e, c).0;
  }

  /** A user transaction that fails leaves its position behind and, if only its writes
      failed to merge, its events; no write and no result. */
  lemma FailedTransactionLeaves(e: Engine, context: Context, base: Ledger, p: Pending)
    requires p.WellFormed(e.ids) && p.index < |p.transactionIDs|
    ensures p.transactionIDs[p.index] in p.transactions
    ensures var (q, execution) := ExecuteNext(e, context, base, p);
            var r := e.vm(context, p.transactions[p.transactionIDs[p.index]], p.index, base + p.work.writes);
            && (execution == Failed <==> !r.Ran?) && (execution.Succeeded? <==> r.Ran? && e.converts(r.output))
            && q == p.(index := p.index + 1, results := q.results, work := q.work)
            && (execution == Failed ==>
                  && q.results == p.results && q.work.writes == p.work.writes
                  && q.work.events == p.work.events + if r.Unmerged? then r.output.events else [])
  {
    ExecuteNextWellFormed(e, context, base, p);
    assert p.work.events + [] == p.work.events;
  }
}
