/**
 * Jobs that die with their workers. `recover_expired` gives up a job whose last holder
 * crashed without failing its row; this is when that happens, and what becomes of the row.
 */
module DeadLetters {
  import opened Wrappers
  import opened JobQueue
  import opened QueueProtocol
  import opened QueueOverlap
  import opened Rows
  import opened Worker
  import opened WorkerTheorems
  import opened StrandedRows

  // ------------------------------------------------- crashes alone use a job up

  /** What runs of one worker are, one event at a time. */
  ghost predicate IsRun(run: seq<Event> -> Option<System>, maxAttempts: nat)
  {
    && run([]) == Some(INITIAL)
    && (forall events, e {:trigger run(events + [e])} :: run(events).Some? && Sole(run(events).value, e) ==>
          run(events + [e]) == Some(Step(run(events).value, e, maxAttempts)))
  }

  lemma RunSoleIsRun(maxAttempts: nat)
    ensures IsRun(events => RunSole(INITIAL, events, maxAttempts), maxAttempts)
  {
    forall events, e |
      RunSole(INITIAL, events, maxAttempts).Some? && Sole(RunSole(INITIAL, events, maxAttempts).value, e)
      ensures RunSole(INITIAL, events + [e], maxAttempts)
           == Some(Step(RunSole(INITIAL, events, maxAttempts).value, e, maxAttempts))
    {
      assert (events + [e])[..|events|] == events;
    }
  }

  /** A job enqueued, then `n` times claimed by a worker that dies, and recovered. */
  function Crashes(id: JobId, work: Work, deadline: Time, n: nat): seq<Event>
  {
    if n == 0 then [Enqueue(id, work)]
    else Crashes(id, work, deadline, n - 1) + [Claim(deadline)] + [Crash(0)] + [RecoverExpired([id])]
  }

  /** The job waits after `n` deliveries. */
  function Waiting(id: JobId, work: Work, n: nat): System
  {
    System(Redis(map[id := Dumped(Job(id, work, n))], [id], map[], []), [], {id}, {}, {}, map[id := n])
  }

  /** The job is dead: nothing is filed, pending or in flight, and nobody was told. */
  function GivenUpOn(id: JobId, work: Work, n: nat): System
  {
    System(Redis(map[], [], map[], [Job(id, work, n)]), [], {id}, {}, {}, map[id := n])
  }

  /** The job in flight after its holder died. */
  function Abandoned(id: JobId, work: Work, deadline: Time, n: nat): System
  {
    System(Redis(map[id := Dumped(Job(id, work, n))], [], map[id := deadline], []), [],
           {id}, {}, {}, map[id := n + 1])
  }

  /** The job in the hands of a worker. */
  function InHands(id: JobId, work: Work, deadline: Time, n: nat): System
  {
    Abandoned(id, work, deadline, n).(held := [Job(id, work, n)])
  }

  lemma ClaimOfWaiting(id: JobId, work: Work, deadline: Time, n: nat, maxAttempts: nat)
    ensures Step(Waiting(id, work, n), Claim(deadline), maxAttempts) == InHands(id, work, deadline, n)
  {
    var claimed := Step(Waiting(id, work, n), Claim(deadline), maxAttempts);
    assert claimed.held == [Job(id, work, n)] && claimed.q.pending == [];
    assert claimed.q.inflight == map[id := deadline] && claimed.deliveries == map[id := n + 1];
  }

  lemma CrashOfHolder(id: JobId, work: Work, deadline: Time, n: nat, maxAttempts: nat)
    ensures Step(InHands(id, work, deadline, n), Crash(0), maxAttempts) == Abandoned(id, work, deadline, n)
  {
    assert Without([Job(id, work, n)], 0) == [];
  }

  lemma RecoverAbandoned(id: JobId, work: Work, deadline: Time, n: nat, maxAttempts: nat)
    ensures Possible(Abandoned(id, work, deadline, n), RecoverExpired([id]))
    ensures Step(Abandoned(id, work, deadline, n), RecoverExpired([id]), maxAttempts)
         == if n + 1 < maxAttempts then Waiting(id, work, n + 1) else GivenUpOn(id, work, n + 1)
  {
    RecoverOfOne(Abandoned(id, work, deadline, n).q, id, maxAttempts);
  }

  lemma EnqueueFirst(id: JobId, work: Work, maxAttempts: nat)
    ensures Step(INITIAL, Enqueue(id, work), maxAttempts) == Waiting(id, work, 0)
  {
  }

  lemma EnqueueOnly(run: seq<Event> -> Option<System>, id: JobId, work: Work, maxAttempts: nat)
    requires IsRun(run, maxAttempts)
    ensures run([Enqueue(id, work)]) == Some(Waiting(id, work, 0))
  {
    EnqueueFirst(id, work, maxAttempts);
    assert run([] + [Enqueue(id, work)]) == Some(Waiting(id, work, 0));
    assert [] + [Enqueue(id, work)] == [Enqueue(id, work)];
  }

  lemma OneMoreCrash(
    run: seq<Event> -> Option<System>, events: seq<Event>,
    id: JobId, work: Work, deadline: Time, n: nat, maxAttempts: nat)
    requires IsRun(run, maxAttempts) && run(events) == Some(Waiting(id, work, n))
    ensures run(events + [Claim(deadline)] + [Crash(0)] + [RecoverExpired([id])])
         == Some(if n + 1 < maxAttempts then Waiting(id, work, n + 1) else GivenUpOn(id, work, n + 1))
  {
    var claimed := events + [Claim(deadline)];
    ClaimOfWaiting(id, work, deadline, n, maxAttempts);
    assert run(events + [Claim(deadline)]) == Some(InHands(id, work, deadline, n));
    CrashOfHolder(id, work, deadline, n, maxAttempts);
    assert run(claimed + [Crash(0)]) == Some(Abandoned(id, work, deadline, n));
    RecoverAbandoned(id, work, deadline, n, maxAttempts);
  }

  lemma {:induction false} CrashesLeaveWaiting(
    run: seq<Event> -> Option<System>, id: JobId, work: Work, deadline: Time, n: nat, maxAttempts: nat)
    requires IsRun(run, maxAttempts) && n < maxAttempts
    ensures run(Crashes(id, work, deadline, n)) == Some(Waiting(id, work, n))
    decreases n
  {
    if n == 0 {
      EnqueueOnly(run, id, work, maxAttempts);
    } else {
      CrashesLeaveWaiting(run, id, work, deadline, n - 1, maxAttempts);
      OneMoreCrash(run, Crashes(id, work, deadline, n - 1), id, work, deadline, n - 1, maxAttempts);
    }
  }

  lemma LastCrashGivesUp(
    run: seq<Event> -> Option<System>, events: seq<Event>, id: JobId, work: Work, deadline: Time, n: nat)
    requires IsRun(run, n + 1) && events == Crashes(id, work, deadline, n + 1)
    ensures run(events) == Some(GivenUpOn(id, work, n + 1))
  {
    var before := Crashes(id, work, deadline, n);
    CrashesLeaveWaiting(run, id, work, deadline, n, n + 1);
    OneMoreCrash(run, before, id, work, deadline, n, n + 1);
    assert events == before + [Claim(deadline)] + [Crash(0)] + [RecoverExpired([id])];
  }

  /** One worker at a time, `n + 1` attempts: as many crashes, and the job is given up. */
  lemma CrashesAloneDeadLetter(id: JobId, work: Work, deadline: Time, n: nat, events: seq<Event>)
    requires events == Crashes(id, work, deadline, n + 1)
    ensures RunSole(INITIAL, events, n + 1) == Some(GivenUpOn(id, work, n + 1))
  {
    RunSoleIsRun(n + 1);
    LastCrashGivesUp(e => RunSole(INITIAL, e, n + 1), events, id, work, deadline, n);
  }

  // ---------------------------------------------------- exactly which jobs survive

  /** What recovery makes of one of the jobs it lists. */
  lemma {:induction false} RecoverListed(q: Redis, expired: seq<JobId>, maxAttempts: nat, k: JobId)
    requires Keyed(q) && Distinct(expired) && k in expired && k in q.data && q.data[k].Dumped?
    ensures var r := Recover(q, expired, maxAttempts);
            var attempted := q.data[k].job.(attempts := q.data[k].job.attempts + 1);
            if attempted.attempts < maxAttempts then k in r.data && r.data[k] == Dumped(attempted)
            else k !in r.data && attempted in r.dead
    decreases |expired|
  {
    var n := |expired| - 1;
    LastIsNew(expired);
    RecoverPutsBack(q, expired[..n], maxAttempts);
    if expired[n] != k {
      RecoverListed(q, expired[..n], maxAttempts, k);
    }
  }

  /** Recovery files no new work. */
  lemma {:induction false} RecoverKeepsWork(q: Redis, expired: seq<JobId>, maxAttempts: nat)
    requires Keyed(q)
    ensures var r := Recover(q, expired, maxAttempts);
            && Keyed(r)
            && forall id :: id in r.data && r.data[id].Dumped? ==>
                 id in q.data && q.data[id].Dumped? && q.data[id].job.work == r.data[id].job.work
    decreases |expired|
  {
    if expired != [] {
      RecoverKeepsWork(q, expired[..|expired| - 1], maxAttempts);
    }
  }

  /** A readable job in flight whose deadline has passed. */
  ghost predicate Lapses(q: Redis, now: Time, k: JobId)
  {
    k in q.inflight && q.inflight[k] <= now && k in q.data && q.data[k].Dumped?
  }

  /** A lapsed job waits again if and only if it has an attempt left; otherwise it is dead. */
  lemma RecoveryKeepsExactlyWhen(q: Redis, now: Time, settings: Settings, k: JobId)
    requires Keyed(q) && Answers(settings.lapsed) && Lapses(q, now, k)
    ensures var r, job := Recovery(q, now, None, settings), q.data[k].job;
            && (Waits(r, k, job.work) <==> job.attempts + 1 < settings.maxAttempts)
            && (!Waits(r, k, job.work) ==> k !in r.data && job.(attempts := job.attempts + 1) in r.dead)
  {
    var ids := settings.lapsed(q.inflight, now);
    assert IsLapsed(ids, q.inflight, now);
    RecoverListed(q, ids, settings.maxAttempts, k);
    RecoverPutsBack(q, ids, settings.maxAttempts);
    RequeuedAre(q, ids, settings.maxAttempts);
    RecoverLeavesInflight(q, ids, settings.maxAttempts);
  }

  /** `k` is the only job filed for its work. */
  ghost predicate OnlyJob(q: Redis, k: JobId, work: Work)
  {
    forall id :: id in q.data && q.data[id].Dumped? && q.data[id].job.work == work ==> id == k
  }

  /**
   * The row of a lapsed job: recovery loses track of an unsettled row, whose only job
   * this was, if and only if the crash was the job's last attempt.
   */
  lemma RecoveryTracksExactlyWhen(rows: Store, q: Redis, now: Time, settings: Settings, k: JobId)
    requires Keyed(q) && Answers(settings.lapsed) && Lapses(q, now, k)
    requires var work := q.data[k].job.work;
             NamesRow(rows, work) && !RowSettled(rows, work) && OnlyJob(q, k, work)
    ensures Tracked(rows, Recovery(q, now, None, settings), q.data[k].job.work)
            <==> q.data[k].job.attempts + 1 < settings.maxAttempts
  {
    var r, work := Recovery(q, now, None, settings), q.data[k].job.work;
    RecoveryKeepsExactlyWhen(q, now, settings, k);
    RecoverKeepsWork(q, settings.lapsed(q.inflight, now), settings.maxAttempts);
    forall id | Waits(r, id, work) ensures id == k {
      assert id in q.data && q.data[id].job.work == work;
    }
  }

  /** The input: a run left `running` by its last holder's crash, and the next worker's pass. */
  lemma LastCrashStrandsRun(
    run: Run, id: RowId, k: JobId, attempts: nat, deadline: Time, pass: Pass, settings: Settings)
    requires run.status == Running && attempts + 1 >= settings.maxAttempts
    requires Answers(settings.lapsed) && deadline <= pass.turn.outcome.now
    requires pass.outage == NoOutage && pass.turn.deleted == {}
    ensures var job := Job(k, ExecuteRun(Some(id)), attempts);
            var q := Redis(map[k := Dumped(job)], [], map[k := deadline], []);
            var end := OnePass(Platform(Store(map[id := run], map[]), q, false), pass, settings);
            && end.rows.runs == map[id := run] && !end.crashed
            && end.queue.data == map[] && end.queue.pending == [] && end.queue.inflight == map[]
  {
    var job := Job(k, ExecuteRun(Some(id)), attempts);
    var q := Redis(map[k := Dumped(job)], [], map[k := deadline], []);
    OnlyLapsed(q.inflight, pass.turn.outcome.now, settings.lapsed, k);
    RecoverOfOne(q, k, settings.maxAttempts);
    assert RecoverOne(q, k, settings.maxAttempts).data == map[];
    assert Recovery(q, pass.turn.outcome.now, None, settings) == RecoverOne(q, k, settings.maxAttempts);
  }

  /** With one job in flight the query lists it, once, when it has lapsed. */
  lemma OnlyLapsed(inflight: map<JobId, Time>, now: Time, query: Query, k: JobId)
    requires Answers(query) && inflight.Keys == {k} && inflight[k] <= now
    ensures query(inflight, now) == [k]
  {
    var ids := query(inflight, now);
    assert IsLapsed(ids, inflight, now);
    assert k in ids;
    TwoMembers(ids);
  }

  lemma TwoMembers(ids: seq<JobId>)
    ensures |ids| > 1 && Distinct(ids) ==> exists a, b :: a in ids && b in ids && a != b
  {
    if |ids| > 1 {
      assert ids[0] in ids && ids[1] in ids;
    }
  }
}
