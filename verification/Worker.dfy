/** The background worker of backend/app/worker.py over the Redis queue: `handle`, the sweep, the loop. */
module Worker {
  import opened Wrappers
  import opened JobQueue
  import opened Rows

  // ------------------------------------------------------------- one delivery

  /** How the work itself goes: done, or an exception before or after the row is marked. */
  datatype Attempt = Done | Raises(early: bool, refused: bool)

  /** A call to the queue: it works, or raises with or without having been carried out. */
  datatype Call = Works | Fails(carriedOut: bool)

  /**
   * The environment's choices for one call of `handle`: the clock, how the work goes
   * and what it yields, how the acknowledgement goes, how the queue call of the
   * exception branch goes, and whether the final failure can be written.
   */
  datatype Outcome = Outcome(
    now: Time, attempt: Attempt, progress: seq<string>, answer: string, citations: seq<string>,
    unreadable: bool, chunks: nat, ack: Call, settle: Call, recorded: bool)

  /** Whether an exception reaches `handle`, and whether it is a permanent refusal. */
  datatype Raised = Nothing | Transient | Refused

  function RaisedBy(o: Outcome): Raised
  {
    match o.attempt
    case Done => Nothing
    case Raises(_, refused) => if refused then Refused else Transient
  }

  /** `_execute_run` on the row it finds. */
  function ExecuteRow(run: Run, o: Outcome): (Run, Raised)
  {
    if o.attempt.Raises? && o.attempt.early then (run, RaisedBy(o))
    else if Terminal(run.status) then (run, Nothing)
    else
      var running := Emit(MarkRunning(run, o.now), o.progress);
      if o.attempt.Raises? then (running, RaisedBy(o))
      else (MarkCompleted(running, o.answer, o.citations, o.now), Nothing)
  }

  /** `_ingest_document` on the row it finds. */
  function IngestRow(d: Document, o: Outcome): (Document, Raised)
  {
    if o.attempt.Raises? && o.attempt.early then (d, RaisedBy(o))
    else if d.status == Ready || d.status == Deleted then (d, Nothing)
    else
      var processing := MarkProcessing(d, o.now);
      if o.attempt.Raises? then (processing, RaisedBy(o))
      else if o.unreadable then (MarkDocumentFailed(processing, Extraction, o.now), Nothing)
      else (MarkReady(processing, o.chunks, o.now), Nothing)
  }

  /** What `handle` does with the job; when the exception branch raises the worker dies. */
  datatype Verdict = Acked | Retried | GivenUp(refused: bool) | Crashed

  function VerdictOf(job: Job, raised: Raised, o: Outcome, maxAttempts: nat): Verdict
  {
    if raised == Nothing && o.ack == Works then Acked
    else if o.settle != Works then Crashed
    else if raised == Refused then GivenUp(true)
    else if job.attempts + 1 < maxAttempts then Retried
    else GivenUp(false)
  }

  /** `_mark_permanently_failed` for a run; a write that fails is only logged. */
  function GiveUpRun(run: Run, refused: bool, o: Outcome): Run
  {
    if Terminal(run.status) || !o.recorded then run
    else MarkRunFailed(run, if refused then ProviderFailure else RunFailure, o.now)
  }

  function GiveUpDocument(d: Document, o: Outcome): Document
  {
    if d.status == Ready || d.status == Deleted || !o.recorded then d
    else MarkDocumentFailed(d, Indexing, o.now)
  }

  /** A run's row after one delivery of a job for it. */
  function DeliverRun(run: Run, job: Job, o: Outcome, maxAttempts: nat): Run
  {
    var (after, raised) := ExecuteRow(run, o);
    match VerdictOf(job, raised, o, maxAttempts)
    case GivenUp(refused) => GiveUpRun(after, refused, o)
    case _ => after
  }

  function DeliverDocument(d: Document, job: Job, o: Outcome, maxAttempts: nat): Document
  {
    var (after, raised) := IngestRow(d, o);
    match VerdictOf(job, raised, o, maxAttempts)
    case GivenUp(_) => GiveUpDocument(after, o)
    case _ => after
  }

  // --------------------------------------------------- the worker's whole state

  datatype Store = Store(runs: map<RowId, Run>, documents: map<RowId, Document>)

  /** What an exception does when the job names no row to work on. */
  function RaisedWithoutRow(work: Work, o: Outcome): Raised
  {
    if work == ExecuteRun(None) || work == IngestDocument(None) then Transient
    else if work != UnknownType && o.attempt.Raises? && o.attempt.early then RaisedBy(o)
    else Nothing
  }

  /** The exception that reaches `handle`. */
  function WorkRaises(s: Store, job: Job, o: Outcome): Raised
  {
    match job.work
    case ExecuteRun(Some(id)) => if id in s.runs then ExecuteRow(s.runs[id], o).1 else RaisedWithoutRow(job.work, o)
    case IngestDocument(Some(id)) =>
      if id in s.documents then IngestRow(s.documents[id], o).1 else RaisedWithoutRow(job.work, o)
    case _ => RaisedWithoutRow(job.work, o)
  }

  function HandleVerdict(s: Store, job: Job, o: Outcome, maxAttempts: nat): Verdict
  {
    VerdictOf(job, WorkRaises(s, job, o), o, maxAttempts)
  }

  /** The rows after the work itself. */
  function WorkRows(s: Store, job: Job, o: Outcome): Store
  {
    match job.work
    case ExecuteRun(Some(id)) =>
      if id in s.runs then s.(runs := s.runs[id := ExecuteRow(s.runs[id], o).0]) else s
    case IngestDocument(Some(id)) =>
      if id in s.documents then s.(documents := s.documents[id := IngestRow(s.documents[id], o).0]) else s
    case _ => s
  }

  /** The rows after `_mark_permanently_failed`. */
  function GiveUpRows(s: Store, job: Job, refused: bool, o: Outcome): Store
  {
    match job.work
    case ExecuteRun(Some(id)) =>
      if id in s.runs then s.(runs := s.runs[id := GiveUpRun(s.runs[id], refused, o)]) else s
    case IngestDocument(Some(id)) =>
      if id in s.documents then s.(documents := s.documents[id := GiveUpDocument(s.documents[id], o)]) else s
    case _ => s
  }

  /** The rows after `handle`. */
  function HandleRows(s: Store, job: Job, o: Outcome, maxAttempts: nat): Store
  {
    match HandleVerdict(s, job, o, maxAttempts)
    case GivenUp(refused) => GiveUpRows(WorkRows(s, job, o), job, refused, o)
    case _ => WorkRows(s, job, o)
  }

  /** `handle` delivers its job to the row it names, and touches no other. */
  lemma HandleDelivers(s: Store, job: Job, o: Outcome, maxAttempts: nat)
    ensures var r := HandleRows(s, job, o, maxAttempts);
            match job.work
            case ExecuteRun(Some(id)) =>
              r == if id in s.runs then s.(runs := s.runs[id := DeliverRun(s.runs[id], job, o, maxAttempts)]) else s
            case IngestDocument(Some(id)) =>
              r == if id in s.documents
                   then s.(documents := s.documents[id := DeliverDocument(s.documents[id], job, o, maxAttempts)])
                   else s
            case _ => r == s
  {
  }

  /** The queue after `handle`: acknowledged, put back, dead-lettered, or as a failed call left it. */
  function HandleQueue(q: Redis, job: Job, raised: Raised, o: Outcome, maxAttempts: nat): Redis
  {
    var acked := if raised == Nothing && o.ack != Fails(false) then Settle(q, job) else q;
    if (raised == Nothing && o.ack == Works) || o.settle == Fails(false) then acked
    else if raised == Refused then Settle(acked, job)
    else PutBack(acked, job, maxAttempts)
  }

  // ------------------------------------------------------------------ sweep

  function StaleRuns(s: Store, olderThan: Time): set<RowId>
  {
    set id | id in s.runs && StaleRun(s.runs[id], olderThan)
  }

  function StaleDocuments(s: Store, olderThan: Time): set<RowId>
  {
    set id | id in s.documents && StaleDocument(s.documents[id], olderThan)
  }

  function SweepJobs(documents: seq<RowId>, runs: seq<RowId>, uuid: nat -> JobId): (jobs: seq<Job>)
    ensures |jobs| == |documents| + |runs|
  {
    seq(|documents| + |runs|, i requires 0 <= i < |documents| + |runs| =>
      Job(uuid(i),
          if i < |documents| then IngestDocument(Some(documents[i])) else ExecuteRun(Some(runs[i - |documents|])),
          0))
  }

  function PutAll(q: Redis, jobs: seq<Job>): Redis
  {
    if jobs == [] then q else PutNew(PutAll(q, jobs[..|jobs| - 1]), jobs[|jobs| - 1])
  }

  /**
   * A worker's start: the rows as they are, the queue with a job per stale row behind
   * it, or with `cut` of those jobs when the sweep raises there and is given up.
   */
  function SweepOf(
    rows: Store, q: Redis, documents: seq<RowId>, runs: seq<RowId>, uuid: nat -> JobId, cut: Option<nat>): Platform
  {
    Platform(rows, PutAll(q, Upto(SweepJobs(documents, runs, uuid), cut)), false)
  }

  lemma PutAllNext(q: Redis, jobs: seq<Job>, i: nat)
    requires i < |jobs|
    ensures PutAll(q, jobs[..i + 1]) == PutNew(PutAll(q, jobs[..i]), jobs[i])
  {
    assert jobs[..i + 1][..i] == jobs[..i];
  }

  // ------------------------------------------------------------------ passes

  /** Documents deleted through the API since the last pass, and how this one goes. */
  datatype Turn = Turn(deleted: set<RowId>, outcome: Outcome)

  /** A queue outage: during recovery, or during the claim. */
  datatype Outage = NoOutage | AtRecovery(cut: nat) | AtClaim(failure: ClaimFailure)

  datatype Pass = Pass(turn: Turn, outage: Outage)

  datatype Settings = Settings(maxAttempts: nat, visibility: Time, lapsed: Query)

  datatype Platform = Platform(rows: Store, queue: Redis, crashed: bool)

  function Delete(s: Store, deleted: set<RowId>, now: Time): Store
  {
    s.(documents := map id | id in s.documents ::
         if id in deleted then MarkDeleted(s.documents[id], now) else s.documents[id])
  }

  function Recovery(q: Redis, now: Time, cut: Option<nat>, settings: Settings): Redis
  {
    Recover(q, Upto(settings.lapsed(q.inflight, now), cut), settings.maxAttempts)
  }

  function ClaimAndHandle(rows: Store, q: Redis, o: Outcome, settings: Settings): Platform
  {
    var (r, claimed) := TakeNext(q, o.now + settings.visibility);
    match claimed
    case None => Platform(rows, r, false)
    case Some(job) =>
      Platform(HandleRows(rows, job, o, settings.maxAttempts),
               HandleQueue(r, job, WorkRaises(rows, job, o), o, settings.maxAttempts),
               HandleVerdict(rows, job, o, settings.maxAttempts) == Crashed)
  }

  /** Recovery, claim and handling. */
  function RunPass(rows: Store, q: Redis, pass: Pass, settings: Settings): Platform
  {
    var o := pass.turn.outcome;
    match pass.outage
    case AtRecovery(cut) => Platform(rows, Recovery(q, o.now, Some(cut), settings), false)
    case AtClaim(failure) =>
      var recovered := Recovery(q, o.now, None, settings);
      Platform(rows, LoseClaim(recovered, failure, o.now + settings.visibility), false)
    case NoOutage => ClaimAndHandle(rows, Recovery(q, o.now, None, settings), o, settings)
  }

  /** One pass of `run_forever`; a crashed worker makes no more. */
  function OnePass(p: Platform, pass: Pass, settings: Settings): Platform
  {
    if p.crashed then p
    else RunPass(Delete(p.rows, pass.turn.deleted, pass.turn.outcome.now), p.queue, pass, settings)
  }

  function Passes(p: Platform, passes: seq<Pass>, settings: Settings): Platform
  {
    if passes == [] then p else OnePass(Passes(p, passes[..|passes| - 1], settings), passes[|passes| - 1], settings)
  }

  lemma PassesNext(p: Platform, passes: seq<Pass>, i: nat, settings: Settings)
    requires i < |passes|
    ensures Passes(p, passes[..i + 1], settings) == OnePass(Passes(p, passes[..i], settings), passes[i], settings)
  {
    assert passes[..i + 1][..i] == passes[..i];
  }

  lemma {:induction false} CrashedStays(p: Platform, passes: seq<Pass>, i: nat, settings: Settings)
    requires i <= |passes| && Passes(p, passes[..i], settings).crashed
    ensures Passes(p, passes, settings) == Passes(p, passes[..i], settings)
    decreases |passes|
  {
    if i < |passes| {
      assert passes[..|passes| - 1][..i] == passes[..i];
      CrashedStays(p, passes[..|passes| - 1], i, settings);
    } else {
      assert passes[..i] == passes;
    }
  }

  // --------------------------------------------------------------- the class

  class BackgroundWorker {
    var runs: map<RowId, Run>
    var documents: map<RowId, Document>
    const queue: RedisJobQueue

    constructor (runs: map<RowId, Run>, documents: map<RowId, Document>, queue: RedisJobQueue)
      ensures this.queue == queue && Rows() == Store(runs, documents)
    {
      this.runs, this.documents, this.queue := runs, documents, queue;
    }

    function Rows(): Store
      reads this
    {
      Store(runs, documents)
    }

    /** The body of the `try`: the row work, ending in an exception or not. */
    method Work(job: Job, o: Outcome) returns (raised: Raised)
      modifies this
      ensures Rows() == WorkRows(old(Rows()), job, o) && raised == WorkRaises(old(Rows()), job, o)
    {
      match job.work {
        case ExecuteRun(Some(id)) =>
          if o.attempt.Raises? && o.attempt.early {
            return RaisedBy(o);
          }
          if id !in runs || Terminal(runs[id].status) {
            return Nothing;
          }
          runs := runs[id := MarkRunning(runs[id], o.now)];
          runs := runs[id := Emit(runs[id], o.progress)];
          if o.attempt.Raises? {
            return RaisedBy(o);
          }
          runs := runs[id := MarkCompleted(runs[id], o.answer, o.citations, o.now)];
          return Nothing;
        case IngestDocument(Some(id)) =>
          if o.attempt.Raises? && o.attempt.early {
            return RaisedBy(o);
          }
          if id !in documents || documents[id].status == Ready || documents[id].status == Deleted {
            return Nothing;
          }
          documents := documents[id := MarkProcessing(documents[id], o.now)];
          if o.attempt.Raises? {
            return RaisedBy(o);
          }
          if o.unreadable {
            documents := documents[id := MarkDocumentFailed(documents[id], Extraction, o.now)];
            return Nothing;
          }
          documents := documents[id := MarkReady(documents[id], o.chunks, o.now)];
          return Nothing;
        case UnknownType => return Nothing;
        case _ => return Transient;
      }
    }

    method MarkPermanentlyFailed(job: Job, refused: bool, o: Outcome)
      modifies this
      ensures Rows() == GiveUpRows(old(Rows()), job, refused, o)
    {
      if !o.recorded {
        assert Rows().runs == GiveUpRows(Rows(), job, refused, o).runs;
        assert Rows().documents == GiveUpRows(Rows(), job, refused, o).documents;
        return;
      }
      match job.work {
        case ExecuteRun(Some(id)) =>
          if id in runs && !Terminal(runs[id].status) {
            runs := runs[id := MarkRunFailed(runs[id], if refused then ProviderFailure else RunFailure, o.now)];
          }
        case IngestDocument(Some(id)) =>
          if id in documents && documents[id].status != Ready && documents[id].status != Deleted {
            documents := documents[id := MarkDocumentFailed(documents[id], Indexing, o.now)];
          }
        case _ =>
      }
    }

    function Config(): Settings
    {
      Settings(queue.maxAttempts, queue.visibility, queue.lapsed)
    }

    /** The queue calls of `handle`, in its `try` and in its exception branch. */
    method SettleJob(job: Job, raised: Raised, o: Outcome) returns (verdict: Verdict)
      modifies queue
      ensures verdict == VerdictOf(job, raised, o, queue.maxAttempts)
      ensures queue.State() == HandleQueue(old(queue.State()), job, raised, o, queue.maxAttempts)
    {
      if raised == Nothing {
        if o.ack != Fails(false) {
          queue.Ack(job);
        }
        if o.ack == Works {
          return Acked;
        }
      }
      if o.settle == Fails(false) {
        return Crashed;
      }
      var again := false;
      if raised == Refused {
        queue.Ack(job);
      } else {
        again := queue.Retry(job);
      }
      if o.settle != Works {
        return Crashed;
      }
      return if again then Retried else GivenUp(raised == Refused);
    }

    method Handle(job: Job, o: Outcome) returns (crashed: bool)
      modifies this, queue
      ensures Rows() == HandleRows(old(Rows()), job, o, queue.maxAttempts)
      ensures queue.State()
           == HandleQueue(old(queue.State()), job, WorkRaises(old(Rows()), job, o), o, queue.maxAttempts)
      ensures crashed <==> HandleVerdict(old(Rows()), job, o, queue.maxAttempts) == Crashed
    {
      var raised := Work(job, o);
      var verdict := SettleJob(job, raised, o);
      if verdict.GivenUp? {
        MarkPermanentlyFailed(job, verdict.refused, o);
      }
      return verdict == Crashed;
    }

    /**
     * `staleDocuments` and `staleRuns` are the answers of the two queries. An exception
     * after `cut` jobs, if there is one, ends the sweep but not the worker.
     */
    method RecoverStrandedRows(
      staleDocuments: seq<RowId>, staleRuns: seq<RowId>, uuid: nat -> JobId, cut: Option<nat>)
      modifies queue
      ensures queue.State()
           == PutAll(old(queue.State()), Upto(SweepJobs(staleDocuments, staleRuns, uuid), cut))
    {
      ghost var jobs, was := SweepJobs(staleDocuments, staleRuns, uuid), queue.State();
      for i := 0 to |staleDocuments|
        invariant queue.State() == PutAll(was, jobs[..i]) && (cut.Some? ==> cut.value >= i)
      {
        if cut == Some(i) {
          return;
        }
        PutAllNext(was, jobs, i);
        assert jobs[i] == Job(uuid(i), IngestDocument(Some(staleDocuments[i])), 0);
        queue.Enqueue(uuid(i), IngestDocument(Some(staleDocuments[i])));
      }
      EnqueueStaleRuns(staleRuns, |staleDocuments|, uuid, cut, was, jobs);
    }

    /** The second loop of the sweep, after the first has enqueued `n` documents. */
    method EnqueueStaleRuns(
      staleRuns: seq<RowId>, n: nat, uuid: nat -> JobId, cut: Option<nat>, ghost was: Redis, ghost jobs: seq<Job>)
      requires |jobs| == n + |staleRuns| && (cut.Some? ==> cut.value >= n)
      requires forall i :: 0 <= i < |staleRuns| ==> jobs[n + i] == Job(uuid(n + i), ExecuteRun(Some(staleRuns[i])), 0)
      requires queue.State() == PutAll(was, jobs[..n])
      modifies queue
      ensures queue.State() == PutAll(was, Upto(jobs, cut))
    {
      for i := 0 to |staleRuns|
        invariant queue.State() == PutAll(was, jobs[..n + i]) && (cut.Some? ==> cut.value >= n + i)
      {
        if cut == Some(n + i) {
          return;
        }
        PutAllNext(was, jobs, n + i);
        queue.Enqueue(uuid(n + i), ExecuteRun(Some(staleRuns[i])));
      }
      assert jobs[..|jobs|] == jobs;
    }

    /** Recovery, claim and handling; an outage in either of the first ends the pass. */
    method RunOnce(pass: Pass) returns (crashed: bool)
      modifies this, queue
      ensures Platform(Rows(), queue.State(), crashed) == RunPass(old(Rows()), old(queue.State()), pass, Config())
    {
      var o := pass.turn.outcome;
      var _ := queue.RecoverExpired(o.now, if pass.outage.AtRecovery? then Some(pass.outage.cut) else None);
      if pass.outage.AtRecovery? {
        return false;
      }
      if pass.outage.AtClaim? {
        queue.FailClaim(o.now, pass.outage.failure);
        return false;
      }
      crashed := ClaimOne(o);
    }

    method ClaimOne(o: Outcome) returns (crashed: bool)
      modifies this, queue
      ensures Platform(Rows(), queue.State(), crashed) == ClaimAndHandle(old(Rows()), old(queue.State()), o, Config())
    {
      var job := queue.Claim(o.now);
      if job == None {
        return false;
      }
      crashed := Handle(job.value, o);
    }

    /** Deletions reach the rows through the API while the worker waits. */
    method WaitAndRun(pass: Pass) returns (crashed: bool)
      modifies this, queue
      ensures Platform(Rows(), queue.State(), crashed)
           == OnePass(old(Platform(Rows(), queue.State(), false)), pass, Config())
    {
      documents := Delete(Rows(), pass.turn.deleted, pass.turn.outcome.now).documents;
      crashed := RunOnce(pass);
    }

    /** The sweep, then the loop until `stop` is called, or a crash; one pass per turn. */
    method RunForever(
      staleDocuments: seq<RowId>, staleRuns: seq<RowId>, uuid: nat -> JobId, cut: Option<nat>, passes: seq<Pass>)
      returns (crashed: bool)
      modifies this, queue
      ensures Platform(Rows(), queue.State(), crashed)
           == Passes(SweepOf(old(Rows()), old(queue.State()), staleDocuments, staleRuns, uuid, cut), passes,
                     Config())
    {
      RecoverStrandedRows(staleDocuments, staleRuns, uuid, cut);
      ghost var swept := Platform(Rows(), queue.State(), false);
      crashed := false;
      for i := 0 to |passes|
        invariant !crashed && Platform(Rows(), queue.State(), false) == Passes(swept, passes[..i], Config())
      {
        PassesNext(swept, passes, i, Config());
        crashed := WaitAndRun(passes[i]);
        if crashed {
          CrashedStays(swept, passes, i + 1, Config());
          return;
        }
      }
      assert passes[..|passes|] == passes;
    }
  }
}
