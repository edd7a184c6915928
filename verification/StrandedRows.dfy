/**
 * Redis may hold anything when a worker starts: ids without data, unreadable data, ids
 * twice in line, jobs in flight of workers long gone. Whatever it holds, the sweep and
 * then enough passes of `run_forever` settle every stranded row.
 */
module StrandedRows {
  import opened Wrappers
  import opened JobQueue
  import opened QueueProtocol
  import opened QueueDrain
  import opened QueueOverlap
  import opened Rows
  import opened Worker
  import opened WorkerTheorems

  /** Every id filed in the data hash is below `n`. */
  ghost predicate Under(q: Redis, n: nat)
  {
    forall id :: id in q.data ==> id < n
  }

  // ------------------------------------------------ what one pass does to the queue

  /** A job waits in line, is not in flight, and asks for `work`. */
  ghost predicate Waits(q: Redis, k: JobId, work: Work)
  {
    && k in q.pending && k !in q.inflight
    && k in q.data && q.data[k].Dumped? && q.data[k].job.id == k && q.data[k].job.work == work
  }

  /** Every job that waited in `q`, but for `id`, still waits in `r`. */
  ghost predicate KeepsOthers(q: Redis, r: Redis, id: JobId)
  {
    forall k, work :: k != id && Waits(q, k, work) ==> Waits(r, k, work)
  }

  lemma KeepsOthersTwice(q: Redis, r: Redis, s: Redis, id: JobId)
    requires KeepsOthers(q, r, id) && KeepsOthers(r, s, id)
    ensures KeepsOthers(q, s, id)
  {
  }

  /** Data is filed under its job's own id, as every run of the queue leaves it. */
  ghost predicate Filed(q: Redis, n: nat)
  {
    Keyed(q) && Under(q, n)
  }

  lemma RecoverOneIsSafe(q: Redis, id: JobId, maxAttempts: nat, n: nat)
    requires Filed(q, n)
    ensures var r := RecoverOne(q, id, maxAttempts);
            && Filed(r, n) && Weight(r, maxAttempts, n) <= Weight(q, maxAttempts, n)
            && r.inflight.Keys <= q.inflight.Keys
            && KeepsOthers(q, r, id)
  {
    if id in q.data {
      match q.data[id]
      case Dumped(job) => PutBackLowersWeight(q, job, maxAttempts, n);
      case Unreadable => OneShareChanges(q.data, RecoverOne(q, id, maxAttempts).data, id, maxAttempts, n);
    }
  }

  /** Recovery adds no weight and disturbs no job that is not in flight. */
  lemma {:induction false} RecoverIsSafe(q: Redis, expired: seq<JobId>, maxAttempts: nat, n: nat)
    requires Filed(q, n)
    ensures var r := Recover(q, expired, maxAttempts);
            && Filed(r, n) && Weight(r, maxAttempts, n) <= Weight(q, maxAttempts, n)
            && forall k, work :: k !in expired && Waits(q, k, work) ==> Waits(r, k, work)
    decreases |expired|
  {
    if expired != [] {
      var init, id := expired[..|expired| - 1], expired[|expired| - 1];
      RecoverIsSafe(q, init, maxAttempts, n);
      RecoverOneIsSafe(Recover(q, init, maxAttempts), id, maxAttempts, n);
      assert forall k :: k in init ==> k in expired;
    }
  }

  lemma RecoveryIsSafe(q: Redis, now: Time, cut: Option<nat>, settings: Settings, n: nat)
    requires Filed(q, n) && Answers(settings.lapsed)
    ensures var r := Recovery(q, now, cut, settings);
            && Filed(r, n) && Weight(r, settings.maxAttempts, n) <= Weight(q, settings.maxAttempts, n)
            && forall k, work :: Waits(q, k, work) ==> Waits(r, k, work)
  {
    var ids := settings.lapsed(q.inflight, now);
    assert IsLapsed(ids, q.inflight, now);
    RecoverIsSafe(q, Upto(ids, cut), settings.maxAttempts, n);
    assert forall k :: k in Upto(ids, cut) ==> k in ids;
  }

  lemma {:induction false} RecoverLeavesInflight(q: Redis, expired: seq<JobId>, maxAttempts: nat)
    requires Keyed(q)
    ensures var r := Recover(q, expired, maxAttempts);
            && Keyed(r)
            && (forall id :: id in r.inflight <==> id in q.inflight && id !in expired)
            && (forall id :: id in r.inflight ==> r.inflight[id] == q.inflight[id])
    decreases |expired|
  {
    if expired != [] {
      var n := |expired| - 1;
      RecoverLeavesInflight(q, expired[..n], maxAttempts);
      assert forall id :: id in expired <==> id in expired[..n] || id == expired[n];
    }
  }

  /** After a whole recovery exactly the jobs whose deadline is still to come are in flight. */
  lemma RecoveryClearsLapsed(q: Redis, now: Time, settings: Settings)
    requires Keyed(q) && Answers(settings.lapsed)
    ensures var r := Recovery(q, now, None, settings);
            && (forall id :: id in r.inflight <==> id in q.inflight && q.inflight[id] > now)
            && (forall id :: id in r.inflight ==> r.inflight[id] == q.inflight[id])
  {
    var ids := settings.lapsed(q.inflight, now);
    assert IsLapsed(ids, q.inflight, now);
    RecoverLeavesInflight(q, ids, settings.maxAttempts);
  }

  /** A claim that hands out nothing costs weight and disturbs no waiting job. */
  lemma EmptyClaimIsSafe(q: Redis, deadline: Time, maxAttempts: nat, n: nat)
    requires Filed(q, n) && q.pending != [] && TakeNext(q, deadline).1 == None
    ensures var r := TakeNext(q, deadline).0;
            && Filed(r, n) && Weight(r, maxAttempts, n) < Weight(q, maxAttempts, n)
            && forall k, work :: Waits(q, k, work) ==> Waits(r, k, work)
  {
    var id, r := q.pending[0], TakeNext(q, deadline).0;
    assert forall k :: k in q.pending && k != id ==> k in q.pending[1..];
    if id in q.data {
      OneShareChanges(q.data, r.data, id, maxAttempts, n);
    }
  }

  /** The job in hand, after a claim: in flight, and filed under its id. */
  ghost predicate InHand(q: Redis, job: Job)
  {
    job.id in q.inflight && job.id in q.data && q.data[job.id] == Dumped(job)
  }

  lemma ClaimIsSafe(q: Redis, deadline: Time, maxAttempts: nat, n: nat)
    requires Filed(q, n) && q.pending != [] && TakeNext(q, deadline).1.Some?
    ensures var (r, claimed) := TakeNext(q, deadline);
            && Filed(r, n) && Weight(r, maxAttempts, n) < Weight(q, maxAttempts, n)
            && claimed.value.id == q.pending[0] && InHand(r, claimed.value)
            && KeepsOthers(q, r, claimed.value.id)
  {
    var id := q.pending[0];
    assert forall k :: k in q.pending && k != id ==> k in q.pending[1..];
  }

  lemma PutBackAfterSettle(q: Redis, job: Job, maxAttempts: nat)
    ensures PutBack(Settle(q, job), job, maxAttempts) == PutBack(q, job, maxAttempts)
  {
  }

  /** The queue after `handle`, if the worker did not crash: settled, or put back. */
  lemma HandledQueue(q: Redis, job: Job, raised: Raised, o: Outcome, maxAttempts: nat)
    requires o.settle == Works
    ensures var r := HandleQueue(q, job, raised, o, maxAttempts);
            match VerdictOf(job, raised, o, maxAttempts)
            case Acked => r == Settle(q, job)
            case Retried => r == PutBack(q, job, maxAttempts)
            case GivenUp(refused) => r == if refused then Settle(q, job) else PutBack(q, job, maxAttempts)
            case Crashed => false
  {
    PutBackAfterSettle(q, job, maxAttempts);
  }

  lemma HandlingIsSafe(q: Redis, job: Job, raised: Raised, o: Outcome, maxAttempts: nat, n: nat)
    requires Filed(q, n) && InHand(q, job) && o.settle == Works
    ensures var r := HandleQueue(q, job, raised, o, maxAttempts);
            && Filed(r, n) && Weight(r, maxAttempts, n) < Weight(q, maxAttempts, n)
            && KeepsOthers(q, r, job.id)
            && (VerdictOf(job, raised, o, maxAttempts) == Retried ==> Waits(r, job.id, job.work))
  {
    HandledQueue(q, job, raised, o, maxAttempts);
    PutBackLowersWeight(q, job, maxAttempts, n);
    SettleLowersWeight(q, job, maxAttempts, n);
  }

  // -------------------------------------------------------------- tracked rows

  predicate Answered(s: Store, id: RowId)
  {
    id in s.runs && (s.runs[id].status == Completed || s.runs[id].status == RunFailed)
  }

  predicate DocumentSettled(s: Store, id: RowId)
  {
    id in s.documents && Settled(s.documents[id].status)
  }

  /** `work` names a run that was not cancelled, or a document. */
  predicate NamesRow(s: Store, work: Work)
  {
    match work
    case ExecuteRun(Some(id)) => Uncancelled(s, id)
    case IngestDocument(Some(id)) => id in s.documents
    case _ => false
  }

  predicate RowSettled(s: Store, work: Work)
  {
    match work
    case ExecuteRun(Some(id)) => Answered(s, id)
    case IngestDocument(Some(id)) => DocumentSettled(s, id)
    case _ => false
  }

  /** The row is settled, or a job for it waits. */
  ghost predicate Tracked(s: Store, q: Redis, work: Work)
  {
    NamesRow(s, work) && (RowSettled(s, work) || exists k :: Waits(q, k, work))
  }

  lemma HandlingKeepsRow(s: Store, job: Job, o: Outcome, maxAttempts: nat, work: Work)
    requires NamesRow(s, work)
    ensures var r := HandleRows(s, job, o, maxAttempts);
            NamesRow(r, work) && (job.work != work && RowSettled(s, work) ==> RowSettled(r, work))
  {
    HandleDelivers(s, job, o, maxAttempts);
  }

  /** Handling a row's job without putting it back settles the row. */
  lemma HandlingSettles(s: Store, job: Job, o: Outcome, maxAttempts: nat)
    requires NamesRow(s, job.work) && Calm(o) && HandleVerdict(s, job, o, maxAttempts) != Retried
    ensures RowSettled(HandleRows(s, job, o, maxAttempts), job.work)
  {
    HandleDelivers(s, job, o, maxAttempts);
    HandlingKeepsRow(s, job, o, maxAttempts, job.work);
    match job.work
    case ExecuteRun(Some(id)) => DeliverySettlesOrRetries(s.runs[id], job, o, maxAttempts);
    case IngestDocument(Some(id)) => IngestionSettlesOrRetries(s.documents[id], job, o, maxAttempts);
    case _ =>
  }

  /** An answered run stays answered, whatever is handled. */
  lemma HandlingKeepsAnswered(s: Store, job: Job, o: Outcome, maxAttempts: nat, id: RowId)
    requires Answered(s, id)
    ensures Answered(HandleRows(s, job, o, maxAttempts), id)
  {
    HandleDelivers(s, job, o, maxAttempts);
  }

  // ------------------------------------------------------------------ one pass

  /** No crash, no claimed job lost to an outage, and final failures are written. */
  predicate Undisturbed(pass: Pass)
  {
    Calm(pass.turn.outcome) && (pass.outage.AtClaim? ==> pass.outage.failure == BeforePop)
  }

  lemma ClaimAndHandleIsSafe(rows: Store, q: Redis, o: Outcome, settings: Settings, n: nat)
    requires Calm(o) && Filed(q, n)
    ensures var end := ClaimAndHandle(rows, q, o, settings);
            && !end.crashed && Filed(end.queue, n)
            && if q.pending == [] then end.queue == q
               else Weight(end.queue, settings.maxAttempts, n) < Weight(q, settings.maxAttempts, n)
  {
    var deadline := o.now + settings.visibility;
    var (r, claimed) := TakeNext(q, deadline);
    if q.pending != [] {
      match claimed
      case None => EmptyClaimIsSafe(q, deadline, settings.maxAttempts, n);
      case Some(job) =>
        ClaimIsSafe(q, deadline, settings.maxAttempts, n);
        HandlingIsSafe(r, job, WorkRaises(rows, job, o), o, settings.maxAttempts, n);
    }
  }

  /** Rows and queue before and after a job of `q` was handled. */
  lemma TrackedAfter(s: Store, t: Store, q: Redis, r: Redis, job: Job, work: Work, retried: bool)
    requires Tracked(s, q, work) && NamesRow(t, work)
    requires job.id in q.data && q.data[job.id] == Dumped(job)
    requires if job.work == work then retried || RowSettled(t, work) else RowSettled(s, work) ==> RowSettled(t, work)
    requires retried ==> Waits(r, job.id, job.work)
    requires KeepsOthers(q, r, job.id)
    ensures Tracked(t, r, work)
  {
    if job.work != work && !RowSettled(s, work) {
      var k :| Waits(q, k, work);
      assert k != job.id;
    }
  }

  lemma HandleTracks(rows: Store, q: Redis, o: Outcome, settings: Settings, n: nat, work: Work)
    requires Calm(o) && Filed(q, n) && q.pending != [] && Tracked(rows, q, work)
    requires TakeNext(q, o.now + settings.visibility).1.Some?
    ensures var end := ClaimAndHandle(rows, q, o, settings); Tracked(end.rows, end.queue, work)
  {
    var maxAttempts := settings.maxAttempts;
    var (r, claimed) := TakeNext(q, o.now + settings.visibility);
    var job := claimed.value;
    ClaimIsSafe(q, o.now + settings.visibility, maxAttempts, n);
    HandlingIsSafe(r, job, WorkRaises(rows, job, o), o, maxAttempts, n);
    HandlingKeepsRow(rows, job, o, maxAttempts, work);
    var retried := HandleVerdict(rows, job, o, maxAttempts) == Retried;
    if job.work == work && !retried {
      HandlingSettles(rows, job, o, maxAttempts);
    }
    var end := ClaimAndHandle(rows, q, o, settings);
    KeepsOthersTwice(q, r, end.queue, job.id);
    TrackedAfter(rows, end.rows, q, end.queue, job, work, retried);
  }

  lemma EmptyClaimTracks(rows: Store, q: Redis, o: Outcome, settings: Settings, n: nat, work: Work)
    requires Filed(q, n) && q.pending != [] && Tracked(rows, q, work)
    requires TakeNext(q, o.now + settings.visibility).1 == None
    ensures var end := ClaimAndHandle(rows, q, o, settings); Tracked(end.rows, end.queue, work)
  {
    EmptyClaimIsSafe(q, o.now + settings.visibility, settings.maxAttempts, n);
    if !RowSettled(rows, work) {
      var k :| Waits(q, k, work);
      assert Waits(TakeNext(q, o.now + settings.visibility).0, k, work);
    }
  }

  lemma ClaimAndHandleTracks(rows: Store, q: Redis, o: Outcome, settings: Settings, n: nat, work: Work)
    requires Calm(o) && Filed(q, n) && q.pending != [] && Tracked(rows, q, work)
    ensures var end := ClaimAndHandle(rows, q, o, settings); Tracked(end.rows, end.queue, work)
  {
    if TakeNext(q, o.now + settings.visibility).1 == None {
      EmptyClaimTracks(rows, q, o, settings, n, work);
    } else {
      HandleTracks(rows, q, o, settings, n, work);
    }
  }

  lemma DeletionTracks(s: Store, q: Redis, deleted: set<RowId>, now: Time, work: Work)
    requires Tracked(s, q, work)
    ensures Tracked(Delete(s, deleted, now), q, work)
  {
  }

  /**
   * An undisturbed pass: the worker survives; if it claims, the weight falls or nothing
   * is left in line.
   */
  lemma PassIsSafe(p: Platform, pass: Pass, settings: Settings, n: nat)
    requires Answers(settings.lapsed) && Undisturbed(pass) && !p.crashed && Filed(p.queue, n)
    ensures var end := OnePass(p, pass, settings);
            var fallen := if pass.outage == NoOutage && end.queue.pending != [] then 1 else 0;
            && !end.crashed && Filed(end.queue, n)
            && Weight(end.queue, settings.maxAttempts, n) + fallen <= Weight(p.queue, settings.maxAttempts, n)
  {
    var o := pass.turn.outcome;
    var cut := if pass.outage.AtRecovery? then Some(pass.outage.cut) else None;
    RecoveryIsSafe(p.queue, o.now, cut, settings, n);
    if pass.outage == NoOutage {
      var rows := Delete(p.rows, pass.turn.deleted, o.now);
      ClaimAndHandleIsSafe(rows, Recovery(p.queue, o.now, None, settings), o, settings, n);
    }
  }

  lemma PassTracks(p: Platform, pass: Pass, settings: Settings, n: nat, work: Work)
    requires Answers(settings.lapsed) && Undisturbed(pass) && !p.crashed && Filed(p.queue, n)
    requires Tracked(p.rows, p.queue, work)
    ensures var end := OnePass(p, pass, settings); Tracked(end.rows, end.queue, work)
  {
    var o := pass.turn.outcome;
    var cut := if pass.outage.AtRecovery? then Some(pass.outage.cut) else None;
    var q := Recovery(p.queue, o.now, cut, settings);
    RecoveryIsSafe(p.queue, o.now, cut, settings, n);
    DeletionTracks(p.rows, p.queue, pass.turn.deleted, o.now, work);
    var rows := Delete(p.rows, pass.turn.deleted, o.now);
    assert Tracked(rows, q, work);
    if pass.outage == NoOutage && q.pending != [] {
      ClaimAndHandleTracks(rows, q, o, settings, n, work);
    }
  }

  lemma PassKeepsAnswered(p: Platform, pass: Pass, settings: Settings, id: RowId)
    requires Answered(p.rows, id)
    ensures Answered(OnePass(p, pass, settings).rows, id)
  {
    var o := pass.turn.outcome;
    if !p.crashed && pass.outage == NoOutage {
      var rows := Delete(p.rows, pass.turn.deleted, o.now);
      var (_, claimed) := TakeNext(Recovery(p.queue, o.now, None, settings), o.now + settings.visibility);
      if claimed.Some? {
        HandlingKeepsAnswered(rows, claimed.value, o, settings.maxAttempts, id);
      }
    }
  }

  /** The job first in line once this pass has recovered what lapsed. */
  ghost predicate FirstInLine(p: Platform, pass: Pass, settings: Settings, job: Job)
  {
    var q := Recovery(p.queue, pass.turn.outcome.now, None, settings);
    !p.crashed && pass.outage == NoOutage
    && q.pending != [] && q.pending[0] in q.data && q.data[q.pending[0]] == Dumped(job)
  }

  lemma PassHandlesFirst(p: Platform, pass: Pass, settings: Settings, job: Job)
    requires FirstInLine(p, pass, settings, job)
    ensures var rows := Delete(p.rows, pass.turn.deleted, pass.turn.outcome.now);
            OnePass(p, pass, settings).rows == HandleRows(rows, job, pass.turn.outcome, settings.maxAttempts)
  {
  }

  /** A pass of the worker over a document's job: what becomes of the document. */
  lemma PassEndsDocument(p: Platform, pass: Pass, settings: Settings, job: Job, id: RowId)
    requires FirstInLine(p, pass, settings, job) && job.work == IngestDocument(Some(id))
    requires id in p.rows.documents && id !in pass.turn.deleted
    requires p.rows.documents[id].status != Ready && p.rows.documents[id].status != Deleted
    ensures var end, o := OnePass(p, pass, settings).rows, pass.turn.outcome;
            && id in end.documents
            && var d := end.documents[id];
            && (d.status == Ready <==> o.attempt == Done && !o.unreadable)
            && (d.status == Ready ==> d.chunks == o.chunks && d.reason == None)
            && (o.attempt == Done && o.unreadable && o.ack == Works ==>
                  d.status == DocumentFailed && d.reason == Some(Extraction))
            && (o.attempt.Raises? && GivesUp(job, o, settings.maxAttempts) ==>
                  d.status == DocumentFailed && d.reason == Some(Indexing))
  {
    var o := pass.turn.outcome;
    var rows := Delete(p.rows, pass.turn.deleted, o.now);
    PassHandlesFirst(p, pass, settings, job);
    HandleDelivers(rows, job, o, settings.maxAttempts);
    DocumentEndsAs(rows.documents[id], job, o, settings.maxAttempts);
  }

  /** A pass of the worker over a run's job: what becomes of the run. */
  lemma PassEndsRun(p: Platform, pass: Pass, settings: Settings, job: Job, id: RowId)
    requires FirstInLine(p, pass, settings, job) && job.work == ExecuteRun(Some(id))
    requires id in p.rows.runs && Sound(p.rows.runs[id]) && !Terminal(p.rows.runs[id].status)
    ensures var end, o := OnePass(p, pass, settings).rows, pass.turn.outcome;
            && id in end.runs
            && var run := end.runs[id];
            && (run.status == Completed <==> o.attempt == Done)
            && (run.status == Completed ==> run.answer == Some(o.answer) && run.citations == o.citations)
            && (run.status == RunFailed <==> o.attempt.Raises? && GivesUp(job, o, settings.maxAttempts))
  {
    var o := pass.turn.outcome;
    var rows := Delete(p.rows, pass.turn.deleted, o.now);
    PassHandlesFirst(p, pass, settings, job);
    HandleDelivers(rows, job, o, settings.maxAttempts);
    RunEndsAs(rows.runs[id], job, o, settings.maxAttempts);
  }

  /** A deletion marks the documents named, forgets their chunks, and touches no other row. */
  lemma DeletionDeletes(s: Store, deleted: set<RowId>, now: Time)
    ensures var r := Delete(s, deleted, now);
            && r.runs == s.runs && r.documents.Keys == s.documents.Keys
            && forall id :: id in s.documents ==>
                 if id in deleted then r.documents[id].status == Deleted && r.documents[id].chunks == 0
                 else r.documents[id] == s.documents[id]
  {
  }

  /**
   * A claimed job is its holder's until its deadline: recovery at any earlier moment
   * leaves it in flight, recovery at that moment or later takes it back.
   */
  lemma ClaimHoldsUntilDeadline(q: Redis, now: Time, later: Time, settings: Settings)
    requires Keyed(q) && Answers(settings.lapsed)
    requires TakeNext(q, now + settings.visibility).1.Some?
    ensures var (r, claimed) := TakeNext(q, now + settings.visibility);
            claimed.value.id in Recovery(r, later, None, settings).inflight <==> later < now + settings.visibility
  {
    RecoveryClearsLapsed(TakeNext(q, now + settings.visibility).0, later, settings);
  }

  /** Data that cannot be read is cleared by a claim and by recovery, and handed to nobody. */
  lemma UnreadableIsCleared(q: Redis, id: JobId, deadline: Time, maxAttempts: nat)
    requires id in q.data && q.data[id] == Unreadable
    ensures q.pending != [] && q.pending[0] == id ==>
              var (r, claimed) := TakeNext(q, deadline);
              claimed == None && id !in r.data && r.inflight == q.inflight && r.pending == q.pending[1..]
    ensures var r := RecoverOne(q, id, maxAttempts);
            id !in r.data && id !in r.inflight && r.pending == q.pending && r.dead == q.dead
  {
  }

  // ---------------------------------------------------------------- many passes

  /** How many passes got as far as their claim. */
  function Claims(passes: seq<Pass>): nat
  {
    if passes == [] then 0
    else Claims(passes[..|passes| - 1]) + if passes[|passes| - 1].outage == NoOutage then 1 else 0
  }

  ghost predicate AllUndisturbed(passes: seq<Pass>)
  {
    forall i :: 0 <= i < |passes| ==> Undisturbed(passes[i])
  }

  /** After these passes, or fewer of them, nothing was left in line. */
  ghost predicate Idled(p: Platform, passes: seq<Pass>, settings: Settings)
  {
    Passes(p, passes, settings).queue.pending == []
    || (passes != [] && Idled(p, passes[..|passes| - 1], settings))
  }

  lemma {:induction false} IdledAt(p: Platform, passes: seq<Pass>, settings: Settings) returns (i: nat)
    requires Idled(p, passes, settings)
    ensures i <= |passes| && Passes(p, passes[..i], settings).queue.pending == []
    decreases |passes|
  {
    i := |passes|;
    assert passes[..i] == passes;
    if Passes(p, passes, settings).queue.pending != [] {
      i := IdledAt(p, passes[..|passes| - 1], settings);
      assert passes[..|passes| - 1][..i] == passes[..i];
    }
  }

  /** Passes that claim use up the weight, unless the line was empty in between. */
  lemma {:induction false} PassesAreSafe(p: Platform, passes: seq<Pass>, settings: Settings, n: nat)
    requires Answers(settings.lapsed) && AllUndisturbed(passes) && !p.crashed && Filed(p.queue, n)
    ensures var end := Passes(p, passes, settings);
            && !end.crashed && Filed(end.queue, n)
            && (Idled(p, passes, settings)
                || Weight(end.queue, settings.maxAttempts, n) + Claims(passes)
                   <= Weight(p.queue, settings.maxAttempts, n))
    decreases |passes|
  {
    if passes != [] {
      var m := |passes| - 1;
      PassesAreSafe(p, passes[..m], settings, n);
      PassIsSafe(Passes(p, passes[..m], settings), passes[m], settings, n);
    }
  }

  lemma {:induction false} PassesTrack(p: Platform, passes: seq<Pass>, settings: Settings, n: nat, work: Work)
    requires Answers(settings.lapsed) && AllUndisturbed(passes) && !p.crashed && Filed(p.queue, n)
    requires Tracked(p.rows, p.queue, work)
    ensures var end := Passes(p, passes, settings); Tracked(end.rows, end.queue, work)
    decreases |passes|
  {
    if passes != [] {
      var m := |passes| - 1;
      PassesTrack(p, passes[..m], settings, n, work);
      PassesAreSafe(p, passes[..m], settings, n);
      PassTracks(Passes(p, passes[..m], settings), passes[m], settings, n, work);
    }
  }

  lemma {:induction false} AnsweredStays(p: Platform, passes: seq<Pass>, i: nat, settings: Settings, id: RowId)
    requires i <= |passes| && Answered(Passes(p, passes[..i], settings).rows, id)
    ensures Answered(Passes(p, passes, settings).rows, id)
    decreases |passes| - i
  {
    if i < |passes| {
      PassesNext(p, passes, i, settings);
      PassKeepsAnswered(Passes(p, passes[..i], settings), passes[i], settings, id);
      AnsweredStays(p, passes, i + 1, settings, id);
    } else {
      assert passes[..i] == passes;
    }
  }

  // ------------------------------------------------------------------ the sweep

  /** The new ids are distinct and occur nowhere in the queue. */
  ghost predicate Fresh(q: Redis, jobs: seq<Job>)
  {
    && (forall i, j :: 0 <= i < j < |jobs| ==> jobs[i].id != jobs[j].id)
    && (forall i :: 0 <= i < |jobs| ==>
          jobs[i].id !in q.data && jobs[i].id !in q.inflight && jobs[i].id !in q.pending)
  }

  lemma {:induction false} SweptJobsWait(q: Redis, jobs: seq<Job>, n: nat)
    requires Filed(q, n) && Fresh(q, jobs) && forall i :: 0 <= i < |jobs| ==> jobs[i].id < n
    ensures var r := PutAll(q, jobs);
            && Filed(r, n) && r.inflight == q.inflight
            && (forall i :: 0 <= i < |jobs| ==> Waits(r, jobs[i].id, jobs[i].work))
    decreases |jobs|
  {
    if jobs != [] {
      var m := |jobs| - 1;
      SweptJobsWait(q, jobs[..m], n);
      var r, s := PutAll(q, jobs[..m]), PutAll(q, jobs);
      forall i | 0 <= i < |jobs| ensures Waits(s, jobs[i].id, jobs[i].work) {
        if i < m {
          assert jobs[..m][i] == jobs[i];
          assert Waits(r, jobs[i].id, jobs[i].work);
        } else {
          assert s.pending[|r.pending|] == jobs[m].id;
        }
      }
    }
  }

  lemma {:induction false} PutAllFiles(q: Redis, jobs: seq<Job>, id: JobId)
    ensures id in PutAll(q, jobs).data ==> id in q.data || exists i :: 0 <= i < |jobs| && jobs[i].id == id
    decreases |jobs|
  {
    if jobs != [] {
      var m := |jobs| - 1;
      PutAllFiles(q, jobs[..m], id);
      assert forall i :: 0 <= i < m ==> jobs[..m][i] == jobs[i];
    }
  }

  lemma UnsweptIsFresh(q: Redis, jobs: seq<Job>)
    requires jobs != [] && Fresh(q, jobs)
    ensures var m := |jobs| - 1; jobs[m].id !in PutAll(q, jobs[..m]).data
  {
    var m := |jobs| - 1;
    PutAllFiles(q, jobs[..m], jobs[m].id);
    assert forall i :: 0 <= i < m ==> jobs[..m][i] == jobs[i];
  }

  /** A new job's weight: one place in line, and as many deliveries as it may have. */
  function JobWeight(maxAttempts: nat): nat
  {
    3 * (if maxAttempts > 0 then maxAttempts else 1) + 2
  }

  lemma PutNewWeight(q: Redis, job: Job, maxAttempts: nat, n: nat)
    requires job.id < n && job.id !in q.data && job.attempts == 0
    ensures Weight(PutNew(q, job), maxAttempts, n) == Weight(q, maxAttempts, n) + JobWeight(maxAttempts)
  {
    OneShareChanges(q.data, PutNew(q, job).data, job.id, maxAttempts, n);
  }

  /** What the sweep adds to the weight. */
  lemma {:induction false} SweptWeight(q: Redis, jobs: seq<Job>, maxAttempts: nat, n: nat)
    requires Fresh(q, jobs)
    requires forall i :: 0 <= i < |jobs| ==> jobs[i].id < n && jobs[i].attempts == 0
    ensures Weight(PutAll(q, jobs), maxAttempts, n) == Weight(q, maxAttempts, n) + |jobs| * JobWeight(maxAttempts)
    decreases |jobs|
  {
    if jobs != [] {
      var m, each := |jobs| - 1, JobWeight(maxAttempts);
      SweptWeight(q, jobs[..m], maxAttempts, n);
      UnsweptIsFresh(q, jobs);
      PutNewWeight(PutAll(q, jobs[..m]), jobs[m], maxAttempts, n);
      assert (m + 1) * each == m * each + each;
    }
  }

  /** The two queries of the sweep found exactly the stale rows. */
  ghost predicate Found(s: Store, olderThan: Time, documents: seq<RowId>, runs: seq<RowId>)
  {
    && (forall id :: id in StaleDocuments(s, olderThan) <==> id in documents)
    && (forall id :: id in StaleRuns(s, olderThan) <==> id in runs)
  }

  /** The jobs of the rows found. */
  ghost predicate IsSwept(work: Work, documents: seq<RowId>, runs: seq<RowId>)
  {
    match work
    case ExecuteRun(Some(id)) => id in runs
    case IngestDocument(Some(id)) => id in documents
    case _ => false
  }

  lemma SweptJobFor(documents: seq<RowId>, runs: seq<RowId>, uuid: nat -> JobId, work: Work) returns (i: nat)
    requires IsSwept(work, documents, runs)
    ensures var jobs := SweepJobs(documents, runs, uuid); i < |jobs| && jobs[i].work == work
  {
    match work
    case ExecuteRun(Some(id)) =>
      var k: nat :| k < |runs| && runs[k] == id;
      i := |documents| + k;
    case IngestDocument(Some(id)) =>
      var k: nat :| k < |documents| && documents[k] == id;
      i := k;
  }

  lemma SweptRowsAreTracked(
    s: Store, q: Redis, olderThan: Time, documents: seq<RowId>, runs: seq<RowId>, uuid: nat -> JobId, n: nat,
    work: Work)
    requires Filed(q, n) && Found(s, olderThan, documents, runs) && IsSwept(work, documents, runs)
    requires var jobs := SweepJobs(documents, runs, uuid);
             Fresh(q, jobs) && forall i :: 0 <= i < |jobs| ==> jobs[i].id < n
    ensures Tracked(s, PutAll(q, SweepJobs(documents, runs, uuid)), work)
  {
    var jobs := SweepJobs(documents, runs, uuid);
    SweptJobsWait(q, jobs, n);
    var i := SweptJobFor(documents, runs, uuid, work);
    assert Waits(PutAll(q, jobs), jobs[i].id, work);
    match work
    case ExecuteRun(Some(id)) => assert id in StaleRuns(s, olderThan);
    case IngestDocument(Some(id)) => assert id in StaleDocuments(s, olderThan);
  }

  /** Every row the sweep found is settled: completed or failed; ready, failed or deleted. */
  ghost predicate AllSettled(s: Store, documents: seq<RowId>, runs: seq<RowId>)
  {
    (forall id :: id in runs ==> Answered(s, id)) && (forall id :: id in documents ==> DocumentSettled(s, id))
  }

  lemma EmptyLineMeansSettled(s: Store, q: Redis, documents: seq<RowId>, runs: seq<RowId>)
    requires q.pending == []
    requires forall work :: IsSwept(work, documents, runs) ==> Tracked(s, q, work)
    ensures AllSettled(s, documents, runs)
  {
    forall id | id in runs ensures Answered(s, id) {
      assert IsSwept(ExecuteRun(Some(id)), documents, runs);
    }
    forall id | id in documents ensures DocumentSettled(s, id) {
      assert IsSwept(IngestDocument(Some(id)), documents, runs);
    }
  }

  /**
   * From any filed Redis value, with fresh job ids below `n`: at each moment with
   * nothing in line every row the sweep found is settled; such a moment comes within as
   * many claims as the queue weighs, and one more; and the runs then stay answered.
   */
  lemma SweepThenPassesSettle(
    rows: Store, q: Redis, olderThan: Time, documents: seq<RowId>, runs: seq<RowId>, uuid: nat -> JobId,
    passes: seq<Pass>, settings: Settings, n: nat)
    requires Filed(q, n) && Found(rows, olderThan, documents, runs)
    requires var jobs := SweepJobs(documents, runs, uuid);
             Fresh(q, jobs) && forall i :: 0 <= i < |jobs| ==> jobs[i].id < n
    requires Answers(settings.lapsed) && AllUndisturbed(passes)
    ensures var p := SweepOf(rows, q, documents, runs, uuid, None);
            && (forall i :: 0 <= i <= |passes| && Passes(p, passes[..i], settings).queue.pending == [] ==>
                  AllSettled(Passes(p, passes[..i], settings).rows, documents, runs))
            && (Claims(passes) > Weight(p.queue, settings.maxAttempts, n) ==>
                  && Idled(p, passes, settings)
                  && forall id :: id in StaleRuns(rows, olderThan) ==>
                       Answered(Passes(p, passes, settings).rows, id))
  {
    var p := SweepOf(rows, q, documents, runs, uuid, None);
    SweptJobsWait(q, SweepJobs(documents, runs, uuid), n);
    forall i | 0 <= i <= |passes| && Passes(p, passes[..i], settings).queue.pending == []
      ensures AllSettled(Passes(p, passes[..i], settings).rows, documents, runs)
    {
      EmptyLineSettles(rows, q, olderThan, documents, runs, uuid, passes[..i], settings, n);
    }
    if Claims(passes) > Weight(p.queue, settings.maxAttempts, n) {
      PassesAreSafe(p, passes, settings, n);
      var i := IdledAt(p, passes, settings);
      forall id | id in StaleRuns(rows, olderThan) ensures Answered(Passes(p, passes, settings).rows, id) {
        AnsweredStays(p, passes, i, settings, id);
      }
    }
  }

  /** With nothing in line after these passes, every row the sweep found is settled. */
  lemma EmptyLineSettles(
    rows: Store, q: Redis, olderThan: Time, documents: seq<RowId>, runs: seq<RowId>, uuid: nat -> JobId,
    passes: seq<Pass>, settings: Settings, n: nat)
    requires Filed(q, n) && Found(rows, olderThan, documents, runs)
    requires var jobs := SweepJobs(documents, runs, uuid);
             Fresh(q, jobs) && forall i :: 0 <= i < |jobs| ==> jobs[i].id < n
    requires Answers(settings.lapsed) && AllUndisturbed(passes)
    requires Passes(SweepOf(rows, q, documents, runs, uuid, None), passes, settings).queue.pending == []
    ensures AllSettled(Passes(SweepOf(rows, q, documents, runs, uuid, None), passes, settings).rows, documents, runs)
  {
    var p := SweepOf(rows, q, documents, runs, uuid, None);
    var end := Passes(p, passes, settings);
    SweptJobsWait(q, SweepJobs(documents, runs, uuid), n);
    forall work | IsSwept(work, documents, runs) ensures Tracked(end.rows, end.queue, work) {
      SweptRowsAreTracked(rows, q, olderThan, documents, runs, uuid, n, work);
      PassesTrack(p, passes, settings, n, work);
    }
    EmptyLineMeansSettled(end.rows, end.queue, documents, runs);
  }
}
