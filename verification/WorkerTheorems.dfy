/**
 * What the worker guarantees: at-least-once delivery leaves one terminal answer, and
 * over the in-memory queue a sweep followed by a drain settles every row the sweep found.
 */
module WorkerTheorems {
  import opened Wrappers
  import opened JobQueue
  import opened Rows
  import opened Worker

  // ------------------------------------------- at-least-once, seen by one run

  /** One delivery of a job; a worker that crashes leaves the row as its work left it. */
  datatype Delivery = Delivery(job: Job, outcome: Outcome, crashes: bool)

  function DeliverOne(run: Run, d: Delivery, maxAttempts: nat): Run
  {
    if d.crashes then ExecuteRow(run, d.outcome).0 else DeliverRun(run, d.job, d.outcome, maxAttempts)
  }

  /** Deliveries of any jobs for one run, in order, with any outcomes and crashes. */
  function DeliverAll(run: Run, deliveries: seq<Delivery>, maxAttempts: nat): Run
    decreases |deliveries|
  {
    if deliveries == [] then run
    else DeliverAll(DeliverOne(run, deliveries[0], maxAttempts), deliveries[1..], maxAttempts)
  }

  lemma DeliverKeepsSound(run: Run, d: Delivery, maxAttempts: nat)
    requires Sound(run)
    ensures Sound(DeliverOne(run, d, maxAttempts))
  {
    var o := d.outcome;
    if !Terminal(run.status) {
      MarksKeepSound(run, o.answer, o.citations, RunFailure, o.now);
      var marked := MarkRunning(run, o.now);
      EmitKeepsSound(marked, o.progress);
      MarksKeepSound(Emit(marked, o.progress), o.answer, o.citations, RunFailure, o.now);
      MarksKeepSound(Emit(marked, o.progress), o.answer, o.citations, ProviderFailure, o.now);
      MarksKeepSound(run, o.answer, o.citations, ProviderFailure, o.now);
    }
  }

  /** A terminal run is never touched again: status, answer, citations and log stay. */
  lemma {:induction false} TerminalIsFinal(run: Run, deliveries: seq<Delivery>, maxAttempts: nat)
    requires Terminal(run.status)
    ensures DeliverAll(run, deliveries, maxAttempts) == run
    decreases |deliveries|
  {
    if deliveries != [] {
      TerminalIsFinal(run, deliveries[1..], maxAttempts);
    }
  }

  /**
   * However often a run's jobs are delivered, retried, left unacknowledged or lost to a
   * crash, its row stays sound: at most one terminal entry, in last place, citations
   * written once.
   */
  lemma {:induction false} DeliveriesKeepSound(run: Run, deliveries: seq<Delivery>, maxAttempts: nat)
    requires Sound(run)
    ensures Sound(DeliverAll(run, deliveries, maxAttempts))
    decreases |deliveries|
  {
    if deliveries != [] {
      DeliverKeepsSound(run, deliveries[0], maxAttempts);
      DeliveriesKeepSound(DeliverOne(run, deliveries[0], maxAttempts), deliveries[1..], maxAttempts);
    }
  }

  lemma {:induction false} DeliverAllAppend(run: Run, a: seq<Delivery>, b: seq<Delivery>, maxAttempts: nat)
    ensures DeliverAll(run, a + b, maxAttempts) == DeliverAll(DeliverAll(run, a, maxAttempts), b, maxAttempts)
    decreases |a|
  {
    if a == [] {
      assert a + b == b;
    } else {
      assert (a + b)[1..] == a[1..] + b;
      DeliverAllAppend(DeliverOne(run, a[0], maxAttempts), a[1..], b, maxAttempts);
    }
  }

  /** The log a run had when it became terminal is its log after any further deliveries. */
  lemma TerminalLogIsFrozen(run: Run, a: seq<Delivery>, b: seq<Delivery>, maxAttempts: nat)
    requires Terminal(DeliverAll(run, a, maxAttempts).status)
    ensures DeliverAll(run, a + b, maxAttempts) == DeliverAll(run, a, maxAttempts)
  {
    DeliverAllAppend(run, a, b, maxAttempts);
    TerminalIsFinal(DeliverAll(run, a, maxAttempts), b, maxAttempts);
  }

  /**
   * The reader's view: once a created run is settled, its log holds one terminal entry,
   * in last place, and log, answer and citations stay whatever is delivered afterwards.
   */
  lemma OneAnswerForever(now: Time, a: seq<Delivery>, b: seq<Delivery>, maxAttempts: nat)
    requires Terminal(DeliverAll(CreateRun(now), a, maxAttempts).status)
    ensures var run, end := DeliverAll(CreateRun(now), a, maxAttempts), DeliverAll(CreateRun(now), a + b, maxAttempts);
            && end.log == run.log && end.answer == run.answer && end.citations == run.citations
            && TerminalEntries(end.log) == 1 && IsTerminalEntry(end.log[|end.log| - 1])
  {
    CreatedIsSound(now);
    DeliveriesKeepSound(CreateRun(now), a, maxAttempts);
    TerminalLogIsFrozen(CreateRun(now), a, b, maxAttempts);
    NeverCancelled(CreateRun(now), a, maxAttempts);
  }

  /** The worker settles runs as completed or failed, never as cancelled. */
  lemma {:induction false} NeverCancelled(run: Run, deliveries: seq<Delivery>, maxAttempts: nat)
    requires run.status != Cancelled
    ensures DeliverAll(run, deliveries, maxAttempts).status != Cancelled
    decreases |deliveries|
  {
    if deliveries != [] {
      NeverCancelled(DeliverOne(run, deliveries[0], maxAttempts), deliveries[1..], maxAttempts);
    }
  }

  // ------------------------------------------------------------------ drain

  /** The worker over the in-memory queue: nothing is in flight, no call fails. */
  datatype World = World(rows: Store, queue: Memory)

  function HandleMemory(q: Memory, job: Job, verdict: Verdict, maxAttempts: nat): Memory
  {
    if verdict == Retried || verdict == GivenUp(false) then Requeue(q, job, maxAttempts) else q
  }

  /** Claim a job, if one waits, and handle it. */
  function Tick(w: World, o: Outcome, maxAttempts: nat): World
  {
    if w.queue.pending == [] then w
    else
      var job, rest := w.queue.pending[0], w.queue.(pending := w.queue.pending[1..]);
      World(HandleRows(w.rows, job, o, maxAttempts),
            HandleMemory(rest, job, HandleVerdict(w.rows, job, o, maxAttempts), maxAttempts))
  }

  function Budget(jobs: seq<Job>, maxAttempts: nat): nat
  {
    if jobs == [] then 0 else Budget(jobs[..|jobs| - 1], maxAttempts) + Left(jobs[|jobs| - 1], maxAttempts)
  }

  lemma {:induction false} BudgetOfTail(jobs: seq<Job>, maxAttempts: nat)
    requires jobs != []
    ensures Budget(jobs, maxAttempts) == Left(jobs[0], maxAttempts) + Budget(jobs[1..], maxAttempts)
    decreases |jobs|
  {
    if |jobs| > 1 {
      var init := jobs[..|jobs| - 1];
      BudgetOfTail(init, maxAttempts);
      assert jobs[1..][..|jobs| - 2] == init[1..];
    }
  }

  /** Deletions, then one claim-and-handle. */
  function OneTurn(w: World, turn: Turn, maxAttempts: nat): World
  {
    Tick(w.(rows := Delete(w.rows, turn.deleted, turn.outcome.now)), turn.outcome, maxAttempts)
  }

  /** Every claim-and-settle lowers the number of deliveries still possible. */
  lemma TurnLowersBudget(w: World, turn: Turn, maxAttempts: nat)
    requires w.queue.pending != []
    ensures Budget(OneTurn(w, turn, maxAttempts).queue.pending, maxAttempts) < Budget(w.queue.pending, maxAttempts)
  {
    var job, rest := w.queue.pending[0], w.queue.pending[1..];
    BudgetOfTail(w.queue.pending, maxAttempts);
    var again := job.(attempts := job.attempts + 1);
    assert (rest + [again])[..|rest|] == rest;
  }

  /** The worker runs until nothing waits; `n` counts the jobs handled. */
  function Drain(w: World, turns: nat -> Turn, i: nat, maxAttempts: nat): (r: (World, nat))
    ensures r.0.queue.pending == []
    ensures r.1 <= Budget(w.queue.pending, maxAttempts)
    decreases Budget(w.queue.pending, maxAttempts)
  {
    if w.queue.pending == [] then (w, 0)
    else
      TurnLowersBudget(w, turns(i), maxAttempts);
      var (end, n) := Drain(OneTurn(w, turns(i), maxAttempts), turns, i + 1, maxAttempts);
      (end, n + 1)
  }

  // --------------------------------------------------- sweep, then drain

  /** The run is settled, or a job for it waits. */
  ghost predicate RunTracked(w: World, id: RowId)
  {
    id in w.rows.runs
    && (Terminal(w.rows.runs[id].status)
        || exists i :: 0 <= i < |w.queue.pending| && w.queue.pending[i].work == ExecuteRun(Some(id)))
  }

  ghost predicate DocumentTracked(w: World, id: RowId)
  {
    id in w.rows.documents
    && (Settled(w.rows.documents[id].status)
        || exists i :: 0 <= i < |w.queue.pending| && w.queue.pending[i].work == IngestDocument(Some(id)))
  }

  /** The failure branch ends well: the job is put back, or the failure is written. */
  predicate FailureHandled(job: Job, o: Outcome, maxAttempts: nat)
    requires o.attempt.Raises?
  {
    o.settle == Works && (o.recorded || (!o.attempt.refused && job.attempts + 1 < maxAttempts))
  }

  /**
   * Handling a run's job settles the run or puts the job back if and only if the run was
   * settled before, or the work succeeds, or the failure branch ends well.
   */
  lemma DeliverySettlesOrRetries(run: Run, job: Job, o: Outcome, maxAttempts: nat)
    ensures Terminal(DeliverRun(run, job, o, maxAttempts).status)
            || VerdictOf(job, ExecuteRow(run, o).1, o, maxAttempts) == Retried
            <==> Terminal(run.status) || o.attempt == Done || FailureHandled(job, o, maxAttempts)
  {
  }

  /** The same for documents; one that had failed stays so if the work raises at once. */
  lemma IngestionSettlesOrRetries(d: Document, job: Job, o: Outcome, maxAttempts: nat)
    ensures Settled(DeliverDocument(d, job, o, maxAttempts).status)
            || VerdictOf(job, IngestRow(d, o).1, o, maxAttempts) == Retried
            <==> d.status == Ready || d.status == Deleted || o.attempt == Done
                 || FailureHandled(job, o, maxAttempts) || (o.attempt.early && d.status == DocumentFailed)
  {
  }

  /** The queue gives the job up after this delivery, and can write so. */
  predicate GivesUp(job: Job, o: Outcome, maxAttempts: nat)
    requires o.attempt.Raises?
  {
    o.settle == Works && o.recorded && (o.attempt.refused || job.attempts + 1 >= maxAttempts)
  }

  /**
   * What one delivery makes of a live run: completed, with exactly the work's answer and
   * citations, if and only if the work was done; failed, with the message for its cause,
   * if and only if the job was given up; otherwise `running`, or as it was when the
   * exception came before the row was marked.
   */
  lemma RunEndsAs(run: Run, job: Job, o: Outcome, maxAttempts: nat)
    requires Sound(run) && !Terminal(run.status)
    ensures var end := DeliverRun(run, job, o, maxAttempts);
            && (end.status == Completed <==> o.attempt == Done)
            && (o.attempt == Done ==> end.answer == Some(o.answer) && end.citations == o.citations)
            && (end.status == RunFailed <==> o.attempt.Raises? && GivesUp(job, o, maxAttempts))
            && (end.status == RunFailed ==>
                  end.error == Some(if o.attempt.refused then ProviderFailure else RunFailure))
            && (o.attempt.Raises? && !GivesUp(job, o, maxAttempts) ==>
                  if o.attempt.early then end == run
                  else end.status == Running && end.attempts == run.attempts + 1)
  {
  }

  /**
   * What one delivery makes of a document that is neither ready nor deleted: ready, with
   * its chunk count and no reason, if and only if the work was done and the file could be
   * read; failed for its extraction when it could not; failed for indexing when the job
   * was given up; otherwise `processing`, or as it was.
   */
  lemma DocumentEndsAs(d: Document, job: Job, o: Outcome, maxAttempts: nat)
    requires d.status != Ready && d.status != Deleted
    ensures var end := DeliverDocument(d, job, o, maxAttempts);
            && (end.status == Ready <==> o.attempt == Done && !o.unreadable)
            && (end.status == Ready ==> end.chunks == o.chunks && end.reason == None)
            && (o.attempt == Done && o.unreadable ==> end.status == DocumentFailed)
            && (o.attempt == Done && o.unreadable && o.ack == Works ==> end.reason == Some(Extraction))
            && (o.attempt.Raises? && GivesUp(job, o, maxAttempts) ==>
                  end.status == DocumentFailed && end.reason == Some(Indexing))
            && (o.attempt.Raises? && !GivesUp(job, o, maxAttempts) ==>
                  if o.attempt.early then end == d else end.status == Processing)
  {
  }

  /** A run that is completed, failed or cancelled is never touched again. */
  lemma SettledRunStays(run: Run, d: Delivery, maxAttempts: nat)
    requires run.status == Completed || run.status == RunFailed || run.status == Cancelled
    ensures DeliverOne(run, d, maxAttempts) == run && run.status !in {Queued, Running} && Terminal(run.status)
  {
  }

  /** A document that is ready or deleted is never touched again. */
  lemma SettledDocumentStays(d: Document, job: Job, o: Outcome, maxAttempts: nat)
    requires d.status == Ready || d.status == Deleted
    ensures DeliverDocument(d, job, o, maxAttempts) == d
  {
  }

  /**
   * Jobs without work: one of an unknown type, or for a row that is gone, is acknowledged
   * and changes no row; one without a usable row id is retried until it is given up.
   */
  lemma JobsWithoutWork(s: Store, job: Job, o: Outcome, maxAttempts: nat)
    requires match job.work
             case ExecuteRun(Some(id)) => id !in s.runs
             case IngestDocument(Some(id)) => id !in s.documents
             case _ => true
    requires o.ack == Works && o.settle == Works && o.attempt == Done
    ensures HandleRows(s, job, o, maxAttempts) == s
    ensures var nameless := job.work == ExecuteRun(None) || job.work == IngestDocument(None);
            HandleVerdict(s, job, o, maxAttempts)
            == if !nameless then Acked else if job.attempts + 1 < maxAttempts then Retried else GivenUp(false)
  {
    HandleDelivers(s, job, o, maxAttempts);
  }

  /** A job that waits behind the handled one still waits, one place nearer. */
  lemma StillWaiting(w: World, turn: Turn, maxAttempts: nat, i: nat)
    requires 0 < i < |w.queue.pending|
    ensures var after := OneTurn(w, turn, maxAttempts).queue.pending;
            i - 1 < |after| && after[i - 1] == w.queue.pending[i]
  {
  }

  /** A retried job waits at the end of the queue. */
  lemma RetriedWaits(q: Memory, job: Job, maxAttempts: nat)
    requires job.attempts + 1 < maxAttempts
    ensures var after := HandleMemory(q, job, Retried, maxAttempts).pending;
            after != [] && after[|after| - 1].work == job.work
  {
  }

  /** No crash: the queue's calls work in the exception branch, and final failures are written. */
  predicate Calm(o: Outcome)
  {
    o.settle == Works && o.recorded
  }

  lemma TurnKeepsRunTracked(w: World, turn: Turn, maxAttempts: nat, id: RowId)
    requires w.queue.pending != [] && Calm(turn.outcome) && RunTracked(w, id)
    ensures RunTracked(OneTurn(w, turn, maxAttempts), id)
  {
    var job, o := w.queue.pending[0], turn.outcome;
    var run := w.rows.runs[id];
    HandleDelivers(Delete(w.rows, turn.deleted, o.now), job, o, maxAttempts);
    if Terminal(run.status) {
    } else if job.work == ExecuteRun(Some(id)) {
      DeliverySettlesOrRetries(run, job, o, maxAttempts);
      if VerdictOf(job, ExecuteRow(run, o).1, o, maxAttempts) == Retried {
        RetriedWaits(w.queue.(pending := w.queue.pending[1..]), job, maxAttempts);
      }
    } else {
      var i :| 0 <= i < |w.queue.pending| && w.queue.pending[i].work == ExecuteRun(Some(id));
      StillWaiting(w, turn, maxAttempts, i);
    }
  }

  lemma TurnKeepsDocumentTracked(w: World, turn: Turn, maxAttempts: nat, id: RowId)
    requires w.queue.pending != [] && Calm(turn.outcome) && DocumentTracked(w, id)
    ensures DocumentTracked(OneTurn(w, turn, maxAttempts), id)
  {
    var job, o := w.queue.pending[0], turn.outcome;
    var rows := Delete(w.rows, turn.deleted, o.now);
    var d := rows.documents[id];
    HandleDelivers(rows, job, o, maxAttempts);
    if job.work == IngestDocument(Some(id)) {
      IngestionSettlesOrRetries(d, job, o, maxAttempts);
      if VerdictOf(job, IngestRow(d, o).1, o, maxAttempts) == Retried {
        RetriedWaits(w.queue.(pending := w.queue.pending[1..]), job, maxAttempts);
      }
    } else if !Settled(d.status) {
      var i :| 0 <= i < |w.queue.pending| && w.queue.pending[i].work == IngestDocument(Some(id));
      StillWaiting(w, turn, maxAttempts, i);
    }
  }

  /** A run in the store that was not cancelled. */
  predicate Uncancelled(s: Store, id: RowId)
  {
    id in s.runs && s.runs[id].status != Cancelled
  }

  lemma HandleNeverCancels(s: Store, job: Job, o: Outcome, maxAttempts: nat, id: RowId)
    requires Uncancelled(s, id)
    ensures Uncancelled(HandleRows(s, job, o, maxAttempts), id)
  {
    HandleDelivers(s, job, o, maxAttempts);
  }

  /** A drain settles what is settled or has a job waiting, and cancels nothing. */
  lemma {:induction false} DrainSettles(w: World, turns: nat -> Turn, i: nat, maxAttempts: nat)
    requires forall k :: Calm(turns(k).outcome)
    ensures var end := Drain(w, turns, i, maxAttempts).0;
            && (forall id :: RunTracked(w, id) ==> id in end.rows.runs && Terminal(end.rows.runs[id].status))
            && (forall id :: DocumentTracked(w, id) ==>
                  id in end.rows.documents && Settled(end.rows.documents[id].status))
            && (forall id :: Uncancelled(w.rows, id) ==> Uncancelled(end.rows, id))
    decreases Budget(w.queue.pending, maxAttempts)
  {
    if w.queue.pending != [] {
      var next := OneTurn(w, turns(i), maxAttempts);
      TurnLowersBudget(w, turns(i), maxAttempts);
      DrainSettles(next, turns, i + 1, maxAttempts);
      forall id | RunTracked(w, id) ensures RunTracked(next, id) {
        TurnKeepsRunTracked(w, turns(i), maxAttempts, id);
      }
      forall id | DocumentTracked(w, id) ensures DocumentTracked(next, id) {
        TurnKeepsDocumentTracked(w, turns(i), maxAttempts, id);
      }
      forall id | Uncancelled(w.rows, id) ensures Uncancelled(next.rows, id) {
        var o := turns(i).outcome;
        HandleNeverCancels(Delete(w.rows, turns(i).deleted, o.now), w.queue.pending[0], o, maxAttempts, id);
      }
    }
  }

  /** The sweep over the in-memory queue: what was there, plus a job per stale row. */
  function Sweep(w: World, documents: seq<RowId>, runs: seq<RowId>, uuid: nat -> JobId): World
  {
    w.(queue := w.queue.(pending := w.queue.pending + SweepJobs(documents, runs, uuid)))
  }

  /**
   * Whatever the queue held, even nothing: after the sweep and a drain under any
   * outcomes and deletions, every run the sweep found is completed or failed and every
   * document it found is ready, failed or deleted.
   */
  lemma SweepThenDrainSettles(
    w: World, olderThan: Time, documents: seq<RowId>, runs: seq<RowId>, uuid: nat -> JobId,
    turns: nat -> Turn, maxAttempts: nat)
    requires forall id :: id in StaleDocuments(w.rows, olderThan) <==> id in documents
    requires forall id :: id in StaleRuns(w.rows, olderThan) <==> id in runs
    requires forall k :: Calm(turns(k).outcome)
    ensures var end := Drain(Sweep(w, documents, runs, uuid), turns, 0, maxAttempts).0;
            && (forall id :: id in StaleRuns(w.rows, olderThan) ==>
                  id in end.rows.runs
                  && (end.rows.runs[id].status == Completed || end.rows.runs[id].status == RunFailed))
            && (forall id :: id in StaleDocuments(w.rows, olderThan) ==>
                  id in end.rows.documents && Settled(end.rows.documents[id].status))
  {
    var swept := Sweep(w, documents, runs, uuid);
    var jobs, before := SweepJobs(documents, runs, uuid), |w.queue.pending|;
    forall id | id in StaleDocuments(w.rows, olderThan) ensures DocumentTracked(swept, id) {
      var k :| 0 <= k < |documents| && documents[k] == id;
      assert swept.queue.pending[before + k] == jobs[k];
    }
    forall id | id in StaleRuns(w.rows, olderThan) ensures RunTracked(swept, id) && Uncancelled(swept.rows, id) {
      var k :| 0 <= k < |runs| && runs[k] == id;
      assert swept.queue.pending[before + |documents| + k] == jobs[|documents| + k];
    }
    DrainSettles(swept, turns, 0, maxAttempts);
  }

  /** The one way out without a crash: a last attempt whose failure cannot be written. */
  lemma UnrecordedFailureStrands(run: Run, id: RowId, job: Job, o: Outcome, maxAttempts: nat)
    requires run.status == Queued && job.work == ExecuteRun(Some(id)) && job.attempts + 1 >= maxAttempts
    requires o.attempt == Raises(false, false) && o.settle == Works && !o.recorded
    ensures var w := World(Store(map[id := run], map[]), Memory([job], []));
            var after := OneTurn(w, Turn({}, o), maxAttempts);
            after.queue.pending == [] && after.rows.runs[id].status == Running
  {
    var w := World(Store(map[id := run], map[]), Memory([job], []));
    assert w.queue.pending[1..] == [];
  }
}
