/**
 * The in-memory queue is an abstraction of the Redis queue: a worker over Redis, with
 * nothing left in flight and no outage, does to its rows and its jobs exactly what a
 * worker over the in-memory queue does, over whole runs, sweep included.
 */
module QueueRefinement {
  import opened Wrappers
  import opened JobQueue
  import opened QueueProtocol
  import opened Rows
  import opened Worker
  import opened WorkerTheorems
  import opened StrandedRows

  predicate Readable(q: Redis)
  {
    forall i :: 0 <= i < |q.pending| ==> q.pending[i] in q.data && q.data[q.pending[i]].Dumped?
  }

  /** The in-memory queue a Redis queue stands for when nothing is in flight. */
  function Abstract(q: Redis): Memory
    requires Readable(q)
  {
    Memory(seq(|q.pending|, i requires 0 <= i < |q.pending| => q.data[q.pending[i]].job), q.dead)
  }

  lemma ShapeIsReadable(q: Redis, orphaned: set<JobId>, maxAttempts: nat)
    requires Shape(q, orphaned, maxAttempts)
    ensures Readable(q)
  {
    assert forall i :: 0 <= i < |q.pending| ==> q.pending[i] in PendingIds(q);
  }

  /**
   * Claim-then-settle on Redis is claim-then-settle on the in-memory queue: the two
   * implementations hand out the same jobs in the same order.
   */
  lemma RedisRefinesMemory(q: Redis, orphaned: set<JobId>, deadline: Time, maxAttempts: nat)
    requires Shape(q, orphaned, maxAttempts) && q.pending != []
    ensures Readable(q)
    ensures var (r, claimed) := TakeNext(q, deadline);
            var m := Abstract(q);
            && claimed == Some(m.pending[0])
            && var job, rest := claimed.value, m.(pending := m.pending[1..]);
            && Readable(Settle(r, job)) && Abstract(Settle(r, job)) == rest
            && Readable(PutBack(r, job, maxAttempts))
            && Abstract(PutBack(r, job, maxAttempts)) == Requeue(rest, job, maxAttempts)
  {
    ShapeIsReadable(q, orphaned, maxAttempts);
    var (r, claimed) := TakeNext(q, deadline);
    var job := claimed.value;
    assert forall i :: 0 < i < |q.pending| ==> q.pending[i] != job.id;
  }

  // ------------------------------------------------------------------ one pass

  /** Nothing in flight, nothing orphaned, every id readable and in one place. */
  ghost predicate Resting(q: Redis, maxAttempts: nat)
  {
    Shape(q, {}, maxAttempts) && q.inflight == map[]
  }

  lemma TakeKeepsShape(q: Redis, deadline: Time, maxAttempts: nat)
    requires Resting(q, maxAttempts) && q.pending != []
    ensures var (r, claimed) := TakeNext(q, deadline);
            claimed.Some? && Shape(r, {}, maxAttempts) && r.inflight.Keys == {claimed.value.id}
            && r.data[claimed.value.id] == Dumped(claimed.value)
  {
    PopShrinks(q);
    assert q.pending[0] in PendingIds(q);
    assert TakeNext(q, deadline).0.dead == q.dead;
  }

  lemma SettleRests(q: Redis, job: Job, maxAttempts: nat)
    requires Shape(q, {}, maxAttempts) && q.inflight.Keys == {job.id} && q.data[job.id] == Dumped(job)
    ensures Resting(Settle(q, job), maxAttempts)
  {
    var r := Settle(q, job);
    assert PendingIds(r) == PendingIds(q) && DeadIds(r) == DeadIds(q) && r.inflight == map[];
  }

  lemma PutBackRests(q: Redis, job: Job, maxAttempts: nat)
    requires Shape(q, {}, maxAttempts) && q.inflight.Keys == {job.id} && q.data[job.id] == Dumped(job)
    ensures Resting(PutBack(q, job, maxAttempts), maxAttempts)
  {
    PutBackKeepsShape(q, {}, job, maxAttempts);
    assert PutBack(q, job, maxAttempts).inflight.Keys == {};
  }

  /** What becomes of the job in hand is the same on both queues. */
  lemma JobRefines(q: Redis, deadline: Time, raised: Raised, o: Outcome, maxAttempts: nat)
    requires o.settle == Works && Resting(q, maxAttempts) && q.pending != []
    ensures Readable(q) && TakeNext(q, deadline).1 == Some(Abstract(q).pending[0])
    ensures var job := Abstract(q).pending[0];
            var s := HandleQueue(TakeNext(q, deadline).0, job, raised, o, maxAttempts);
            && Resting(s, maxAttempts) && Readable(s)
            && Abstract(s) == HandleMemory(Abstract(q).(pending := Abstract(q).pending[1..]), job,
                                           VerdictOf(job, raised, o, maxAttempts), maxAttempts)
  {
    TakeKeepsShape(q, deadline, maxAttempts);
    RedisRefinesMemory(q, {}, deadline, maxAttempts);
    var (r, claimed) := TakeNext(q, deadline);
    var job := claimed.value;
    HandledQueue(r, job, raised, o, maxAttempts);
    SettleRests(r, job, maxAttempts);
    PutBackRests(r, job, maxAttempts);
  }

  lemma TickOfJob(w: World, job: Job, o: Outcome, maxAttempts: nat)
    requires w.queue.pending != [] && w.queue.pending[0] == job
    ensures Tick(w, o, maxAttempts)
         == World(HandleRows(w.rows, job, o, maxAttempts),
                  HandleMemory(w.queue.(pending := w.queue.pending[1..]), job,
                               VerdictOf(job, WorkRaises(w.rows, job, o), o, maxAttempts), maxAttempts))
  {
  }

  lemma ClaimOfJob(rows: Store, q: Redis, job: Job, o: Outcome, settings: Settings)
    requires o.settle == Works && TakeNext(q, o.now + settings.visibility).1 == Some(job)
    ensures ClaimAndHandle(rows, q, o, settings)
         == Platform(HandleRows(rows, job, o, settings.maxAttempts),
                     HandleQueue(TakeNext(q, o.now + settings.visibility).0, job, WorkRaises(rows, job, o), o,
                                 settings.maxAttempts),
                     false)
  {
  }

  /** The platform stands for `w`: nothing in flight, and the same rows and jobs. */
  ghost predicate StandsFor(p: Platform, w: World, maxAttempts: nat)
  {
    !p.crashed && Resting(p.queue, maxAttempts) && Readable(p.queue) && w == World(p.rows, Abstract(p.queue))
  }

  lemma JobHandled(rows: Store, q: Redis, o: Outcome, settings: Settings, w: World)
    requires Calm(o) && StandsFor(Platform(rows, q, false), w, settings.maxAttempts) && q.pending != []
    ensures StandsFor(ClaimAndHandle(rows, q, o, settings), Tick(w, o, settings.maxAttempts), settings.maxAttempts)
  {
    var job := Abstract(q).pending[0];
    JobRefines(q, o.now + settings.visibility, WorkRaises(rows, job, o), o, settings.maxAttempts);
    ClaimOfJob(rows, q, job, o, settings);
    TickOfJob(w, job, o, settings.maxAttempts);
  }

  /** Claim and handle on Redis is claim and handle on the in-memory queue. */
  lemma HandleRefines(rows: Store, q: Redis, o: Outcome, settings: Settings, w: World)
    requires Calm(o) && StandsFor(Platform(rows, q, false), w, settings.maxAttempts)
    ensures StandsFor(ClaimAndHandle(rows, q, o, settings), Tick(w, o, settings.maxAttempts), settings.maxAttempts)
  {
    if q.pending != [] {
      JobHandled(rows, q, o, settings, w);
    }
  }

  lemma EmptyOrMember(ids: seq<JobId>)
    ensures ids == [] || exists id :: id in ids
  {
    if ids != [] {
      assert ids[0] in ids;
    }
  }

  lemma NothingLapsed(query: Query, now: Time)
    requires Answers(query)
    ensures query(map[], now) == []
  {
    var ids := query(map[], now);
    assert IsLapsed(ids, map[], now);
    EmptyOrMember(ids);
  }

  lemma PassRefinesTurn(p: Platform, pass: Pass, settings: Settings, w: World)
    requires Answers(settings.lapsed) && Undisturbed(pass) && pass.outage == NoOutage
    requires StandsFor(p, w, settings.maxAttempts)
    ensures StandsFor(OnePass(p, pass, settings), OneTurn(w, pass.turn, settings.maxAttempts), settings.maxAttempts)
  {
    var o := pass.turn.outcome;
    var rows := Delete(p.rows, pass.turn.deleted, o.now);
    NothingLapsed(settings.lapsed, o.now);
    HandleRefines(rows, p.queue, o, settings, World(rows, w.queue));
  }

  // ------------------------------------------------------------------ whole runs

  function Turns(w: World, passes: seq<Pass>, maxAttempts: nat): World
  {
    if passes == [] then w
    else OneTurn(Turns(w, passes[..|passes| - 1], maxAttempts), passes[|passes| - 1].turn, maxAttempts)
  }

  /** No crash and no outage. */
  ghost predicate Smooth(passes: seq<Pass>)
  {
    AllUndisturbed(passes) && forall i :: 0 <= i < |passes| ==> passes[i].outage == NoOutage
  }

  lemma {:induction false} PassesRefineTurns(p: Platform, passes: seq<Pass>, settings: Settings, w: World)
    requires Answers(settings.lapsed) && Smooth(passes) && StandsFor(p, w, settings.maxAttempts)
    ensures StandsFor(Passes(p, passes, settings), Turns(w, passes, settings.maxAttempts), settings.maxAttempts)
    decreases |passes|
  {
    if passes != [] {
      var m := |passes| - 1;
      PassesRefineTurns(p, passes[..m], settings, w);
      var before := Turns(w, passes[..m], settings.maxAttempts);
      PassRefinesTurn(Passes(p, passes[..m], settings), passes[m], settings, before);
    }
  }

  /** A new job on Redis is a new job on the in-memory queue. */
  lemma PutNewRefines(q: Redis, job: Job, maxAttempts: nat)
    requires Resting(q, maxAttempts) && job.attempts == 0 < maxAttempts
    requires job.id !in q.data && job.id !in DeadIds(q)
    ensures var r := PutNew(q, job);
            && Resting(r, maxAttempts) && Readable(q) && Readable(r) && r.dead == q.dead
            && Abstract(r) == Abstract(q).(pending := Abstract(q).pending + [job])
  {
    var r := PutNew(q, job);
    ShapeIsReadable(q, {}, maxAttempts);
    assert PendingIds(r) == PendingIds(q) + {job.id} by {
      assert r.pending[|q.pending|] == job.id;
      assert forall i :: 0 <= i < |q.pending| ==> r.pending[i] == q.pending[i];
    }
    assert forall i :: 0 <= i < |q.pending| ==> q.pending[i] in PendingIds(q);
    assert DeadIds(r) == DeadIds(q);
    ShapeIsReadable(r, {}, maxAttempts);
  }

  /** Ids the queue does not file, and jobs it has not given up. */
  ghost predicate Unfiled(q: Redis, jobs: seq<Job>)
  {
    Fresh(q, jobs) && forall i :: 0 <= i < |jobs| ==> jobs[i].attempts == 0 && jobs[i].id !in DeadIds(q)
  }

  lemma UnfiledInit(q: Redis, jobs: seq<Job>)
    requires jobs != [] && Unfiled(q, jobs)
    ensures Unfiled(q, jobs[..|jobs| - 1])
  {
  }

  lemma {:induction false} PutAllRefines(q: Redis, jobs: seq<Job>, maxAttempts: nat)
    requires Resting(q, maxAttempts) && Unfiled(q, jobs) && maxAttempts > 0
    ensures var r := PutAll(q, jobs);
            && Resting(r, maxAttempts) && Readable(q) && Readable(r) && r.dead == q.dead
            && Abstract(r) == Abstract(q).(pending := Abstract(q).pending + jobs)
    decreases |jobs|
  {
    if jobs == [] {
      ShapeIsReadable(q, {}, maxAttempts);
      assert Abstract(q).pending + jobs == Abstract(q).pending;
    } else {
      var m := |jobs| - 1;
      var r := PutAll(q, jobs[..m]);
      UnfiledInit(q, jobs);
      PutAllRefines(q, jobs[..m], maxAttempts);
      UnsweptIsFresh(q, jobs);
      assert DeadIds(r) == DeadIds(q);
      PutNewRefines(r, jobs[m], maxAttempts);
      assert jobs[..m] + [jobs[m]] == jobs;
      Associative(Abstract(q).pending, jobs[..m], [jobs[m]]);
    }
  }

  /**
   * A worker over Redis, from its sweep through any smooth run, is a worker over the
   * in-memory queue: same rows, same jobs in the same order, same dead letters.
   */
  lemma RedisWorkerRefinesMemory(
    rows: Store, q: Redis, documents: seq<RowId>, runs: seq<RowId>, uuid: nat -> JobId,
    passes: seq<Pass>, settings: Settings)
    requires Answers(settings.lapsed) && Smooth(passes)
    requires Resting(q, settings.maxAttempts) && settings.maxAttempts > 0
    requires Unfiled(q, SweepJobs(documents, runs, uuid))
    ensures Readable(q)
    ensures StandsFor(Passes(SweepOf(rows, q, documents, runs, uuid, None), passes, settings),
                      Turns(Sweep(World(rows, Abstract(q)), documents, runs, uuid), passes, settings.maxAttempts),
                      settings.maxAttempts)
  {
    PutAllRefines(q, SweepJobs(documents, runs, uuid), settings.maxAttempts);
    PassesRefineTurns(SweepOf(rows, q, documents, runs, uuid, None), passes, settings,
                      Sweep(World(rows, Abstract(q)), documents, runs, uuid));
  }
}
