/**
 * The durable rows of a run and of a document, with the status transitions of
 * backend/app/services/run_store.py and backend/app/services/document_store.py.
 */
module Rows {
  import opened Wrappers

  // ------------------------------------------------------------------- runs

  datatype RunStatus = Queued | Running | Completed | RunFailed | Cancelled

  /** One row of the run's event log; `Progress` is anything the workflow emits. */
  datatype Entry = Started | Progress(kind: string) | CompletedEntry(citations: nat) | FailedEntry(message: Message)

  datatype Message = RunFailure | ProviderFailure

  datatype Run = Run(
    status: RunStatus, answer: Option<string>, error: Option<Message>, attempts: nat,
    log: seq<Entry>, citations: seq<string>, updatedAt: Time)

  predicate Terminal(status: RunStatus)
  {
    status == Completed || status == RunFailed || status == Cancelled
  }

  function CreateRun(now: Time): Run
  {
    Run(Queued, None, None, 0, [Started], [], now)
  }

  function MarkRunning(run: Run, now: Time): Run
  {
    run.(status := Running, attempts := run.attempts + 1, updatedAt := now)
  }

  /** Progress events are rows of their own; they do not touch the run's row. */
  function Emit(run: Run, kinds: seq<string>): Run
  {
    run.(log := run.log + seq(|kinds|, i requires 0 <= i < |kinds| => Progress(kinds[i])))
  }

  function MarkCompleted(run: Run, answer: string, citations: seq<string>, now: Time): Run
  {
    run.(status := Completed, answer := Some(answer), citations := run.citations + citations,
         log := run.log + [CompletedEntry(|citations|)], updatedAt := now)
  }

  function MarkRunFailed(run: Run, message: Message, now: Time): Run
  {
    run.(status := RunFailed, error := Some(message), log := run.log + [FailedEntry(message)], updatedAt := now)
  }

  predicate StaleRun(run: Run, olderThan: Time)
  {
    (run.status == Queued || run.status == Running) && run.updatedAt < olderThan
  }

  predicate IsTerminalEntry(e: Entry)
  {
    e.CompletedEntry? || e.FailedEntry?
  }

  function TerminalEntries(log: seq<Entry>): nat
  {
    if log == [] then 0
    else TerminalEntries(log[..|log| - 1]) + if IsTerminalEntry(log[|log| - 1]) then 1 else 0
  }

  /**
   * A run as a reader may find it: a terminal entry exactly when the run completed
   * or failed, then exactly one and in last place; an answer and citations exactly
   * when it completed, and the entry counts them.
   */
  ghost predicate Sound(run: Run)
  {
    && TerminalEntries(run.log) == (if run.status == Completed || run.status == RunFailed then 1 else 0)
    && run.log != []
    && var last := run.log[|run.log| - 1];
    && (run.status == Completed <==> last.CompletedEntry?)
    && (run.status == RunFailed <==> last.FailedEntry?)
    && (run.status == Completed <==> run.answer.Some?)
    && (run.status == RunFailed <==> run.error.Some?)
    && (run.status == Completed ==> last.citations == |run.citations|)
    && (run.status != Completed ==> run.citations == [])
    && (run.status == RunFailed ==> run.error == Some(last.message))
  }

  lemma CreatedIsSound(now: Time)
    ensures Sound(CreateRun(now))
  {
    assert [Started][..0] == [];
  }

  lemma {:induction false} EmitCounts(log: seq<Entry>, more: seq<Entry>)
    requires forall i :: 0 <= i < |more| ==> more[i].Progress?
    ensures TerminalEntries(log + more) == TerminalEntries(log)
    decreases |more|
  {
    if more == [] {
      assert log + more == log;
    } else {
      assert (log + more)[..|log + more| - 1] == log + more[..|more| - 1];
      EmitCounts(log, more[..|more| - 1]);
    }
  }

  lemma EmitKeepsSound(run: Run, kinds: seq<string>)
    requires Sound(run) && !Terminal(run.status)
    ensures Sound(Emit(run, kinds))
  {
    EmitCounts(run.log, seq(|kinds|, i requires 0 <= i < |kinds| => Progress(kinds[i])));
  }

  lemma MarksKeepSound(run: Run, answer: string, citations: seq<string>, message: Message, now: Time)
    requires Sound(run) && !Terminal(run.status)
    ensures Sound(MarkRunning(run, now))
    ensures Sound(MarkCompleted(run, answer, citations, now))
    ensures Sound(MarkRunFailed(run, message, now))
  {
    var a, b := MarkCompleted(run, answer, citations, now), MarkRunFailed(run, message, now);
    assert a.log[..|a.log| - 1] == run.log && b.log[..|b.log| - 1] == run.log;
  }

  // -------------------------------------------------------------- documents

  datatype DocumentStatus = Pending | Processing | Ready | DocumentFailed | Deleted
  datatype Reason = Extraction | Indexing | Storage

  datatype Document = Document(status: DocumentStatus, chunks: nat, reason: Option<Reason>, updatedAt: Time)

  function CreateDocument(now: Time): Document
  {
    Document(Pending, 0, None, now)
  }

  predicate Settled(status: DocumentStatus)
  {
    status == Ready || status == DocumentFailed || status == Deleted
  }

  function MarkProcessing(d: Document, now: Time): Document
  {
    d.(status := Processing, updatedAt := now)
  }

  function MarkReady(d: Document, chunks: nat, now: Time): Document
  {
    Document(Ready, chunks, None, now)
  }

  function MarkDocumentFailed(d: Document, reason: Reason, now: Time): Document
  {
    d.(status := DocumentFailed, reason := Some(reason), updatedAt := now)
  }

  function MarkDeleted(d: Document, now: Time): Document
  {
    d.(status := Deleted, chunks := 0, updatedAt := now)
  }

  predicate StaleDocument(d: Document, olderThan: Time)
  {
    (d.status == Pending || d.status == Processing) && d.updatedAt < olderThan
  }

  // ------------------------------------------------------------------- staleness

  /**
   * The sweep's first query: a run is stale when its last change, which left it queued or
   * running, lies before the cutoff; never once it completed, failed or was cancelled.
   */
  lemma StaleRunsAre(run: Run, now: Time, answer: string, citations: seq<string>, message: Message, cutoff: Time)
    ensures StaleRun(CreateRun(now), cutoff) <==> now < cutoff
    ensures StaleRun(MarkRunning(run, now), cutoff) <==> now < cutoff
    ensures !StaleRun(MarkCompleted(run, answer, citations, now), cutoff)
    ensures !StaleRun(MarkRunFailed(run, message, now), cutoff)
    ensures !StaleRun(run.(status := Cancelled), cutoff)
  {
  }

  /** Reporting progress does not keep a run from going stale. */
  lemma ProgressKeepsStale(run: Run, kinds: seq<string>, cutoff: Time)
    ensures StaleRun(Emit(run, kinds), cutoff) <==> StaleRun(run, cutoff)
  {
  }

  /** The sweep's second query, over documents. */
  lemma StaleDocumentsAre(d: Document, now: Time, chunks: nat, reason: Reason, cutoff: Time)
    ensures StaleDocument(CreateDocument(now), cutoff) <==> now < cutoff
    ensures StaleDocument(MarkProcessing(d, now), cutoff) <==> now < cutoff
    ensures !StaleDocument(MarkReady(d, chunks, now), cutoff)
    ensures !StaleDocument(MarkDocumentFailed(d, reason, now), cutoff)
    ensures !StaleDocument(MarkDeleted(d, now), cutoff)
  {
  }

  /** What each mark says to a reader of the run's row. */
  lemma RunMarksSay(run: Run, now: Time, answer: string, citations: seq<string>, message: Message)
    ensures CreateRun(now).status == Queued && CreateRun(now).attempts == 0 && CreateRun(now).log == [Started]
    ensures var r := MarkRunning(run, now);
            r == run.(status := Running, attempts := run.attempts + 1, updatedAt := r.updatedAt)
    ensures var r := MarkCompleted(run, answer, citations, now);
            && r.status == Completed && r.answer == Some(answer) && r.citations == run.citations + citations
            && r.attempts == run.attempts && r.error == run.error
    ensures var r := MarkRunFailed(run, message, now);
            && r.status == RunFailed && r.error == Some(message)
            && r.answer == run.answer && r.citations == run.citations && r.attempts == run.attempts
  {
  }

  /** And of the document's. */
  lemma DocumentMarksSay(d: Document, now: Time, chunks: nat, reason: Reason)
    ensures CreateDocument(now).status == Pending
    ensures MarkProcessing(d, now).status == Processing && MarkProcessing(d, now).chunks == d.chunks
    ensures var r := MarkReady(d, chunks, now); r.status == Ready && r.chunks == chunks && r.reason == None
    ensures var r := MarkDocumentFailed(d, reason, now); r.status == DocumentFailed && r.reason == Some(reason)
    ensures var r := MarkDeleted(d, now); r.status == Deleted && r.chunks == 0
  {
  }
}
