/**
 * Runs of the Redis queue under workers that crash: conservation of jobs and the
 * attempt bounds.
 */
module QueueProtocol {
  import opened Wrappers
  import opened JobQueue

  /**
   * The queue, the jobs workers hold, and an account of every id ever enqueued:
   * acknowledged, lost to a crash between `blpop` and `zadd`, and how often each was
   * handed to a worker.
   */
  datatype System = System(
    q: Redis, held: seq<Job>,
    enqueued: set<JobId>, acked: set<JobId>, orphaned: set<JobId>, deliveries: map<JobId, nat>)

  datatype Event =
    | Enqueue(id: JobId, work: Work)
    | Claim(deadline: Time)
    | CrashInClaim
    | Ack(holder: nat)
    | Retry(holder: nat)
    | Crash(holder: nat)
    | RecoverExpired(expired: seq<JobId>)

  const INITIAL := System(Redis(map[], [], map[], []), [], {}, {}, {}, map[])

  function Without<T>(s: seq<T>, i: nat): seq<T>
    requires i < |s|
  {
    s[..i] + s[i + 1..]
  }

  /** Fresh ids, holders that exist, distinct lapsed ids: what any run respects. */
  predicate Possible(s: System, e: Event)
  {
    match e
    case Enqueue(id, _) => id !in s.enqueued
    case Ack(h) => h < |s.held|
    case Retry(h) => h < |s.held|
    case Crash(h) => h < |s.held|
    case RecoverExpired(expired) =>
      (forall i :: 0 <= i < |expired| ==> expired[i] in s.q.inflight)
      && forall i, j :: 0 <= i < j < |expired| ==> expired[i] != expired[j]
    case _ => true
  }

  /** One worker at a time: it claims, and recovers, only with nothing in hand. */
  predicate Sole(s: System, e: Event)
  {
    Possible(s, e) && (e.Claim? || e.CrashInClaim? || e.RecoverExpired? ==> s.held == [])
  }

  function Step(s: System, e: Event, maxAttempts: nat): System
    requires Possible(s, e)
  {
    match e
    case Enqueue(id, work) =>
      s.(q := PutNew(s.q, Job(id, work, 0)), enqueued := s.enqueued + {id}, deliveries := s.deliveries[id := 0])
    case Claim(deadline) =>
      var (q, claimed) := TakeNext(s.q, deadline);
      if claimed == None then s.(q := q)
      else
        var job := claimed.value;
        var before := if job.id in s.deliveries then s.deliveries[job.id] else 0;
        s.(q := q, held := s.held + [job], deliveries := s.deliveries[job.id := before + 1])
    case CrashInClaim =>
      if s.q.pending == [] then s
      else s.(q := s.q.(pending := s.q.pending[1..]), orphaned := s.orphaned + {s.q.pending[0]})
    case Ack(h) =>
      s.(q := Settle(s.q, s.held[h]), held := Without(s.held, h), acked := s.acked + {s.held[h].id})
    case Retry(h) =>
      s.(q := PutBack(s.q, s.held[h], maxAttempts), held := Without(s.held, h))
    case Crash(h) =>
      s.(held := Without(s.held, h))
    case RecoverExpired(expired) =>
      s.(q := Recover(s.q, expired, maxAttempts))
  }

  // ------------------------------------------------------------ attempt bounds

  /** Live and held jobs have attempts left; dead ones have used exactly all. */
  ghost predicate Bounded(s: System, maxAttempts: nat)
  {
    && BoundedQueue(s.q, maxAttempts)
    && (forall i :: 0 <= i < |s.held| ==> s.held[i].attempts < maxAttempts)
  }

  ghost predicate BoundedQueue(q: Redis, maxAttempts: nat)
  {
    && (forall id :: id in q.data && q.data[id].Dumped? ==> q.data[id].job.attempts < maxAttempts)
    && (forall i :: 0 <= i < |q.dead| ==> q.dead[i].attempts == maxAttempts)
  }

  lemma {:induction false} RecoverKeepsBounds(q: Redis, expired: seq<JobId>, maxAttempts: nat)
    requires BoundedQueue(q, maxAttempts)
    ensures BoundedQueue(Recover(q, expired, maxAttempts), maxAttempts)
    decreases |expired|
  {
    if expired != [] {
      RecoverKeepsBounds(q, expired[..|expired| - 1], maxAttempts);
    }
  }

  /** The attempt bounds survive any step, even with several workers holding one job. */
  lemma StepKeepsBounds(s: System, e: Event, maxAttempts: nat)
    requires maxAttempts >= 1 && Possible(s, e) && Bounded(s, maxAttempts)
    ensures Bounded(Step(s, e, maxAttempts), maxAttempts)
  {
    if e.RecoverExpired? {
      RecoverKeepsBounds(s.q, e.expired, maxAttempts);
    }
  }

  // ------------------------------------------------------------ conservation

  predicate Distinct<T(==)>(s: seq<T>)
  {
    forall i, j :: 0 <= i < j < |s| ==> s[i] != s[j]
  }

  function Ids(s: seq<JobId>): set<JobId>
  {
    set id | id in s
  }

  function PendingIds(q: Redis): set<JobId>
  {
    Ids(q.pending)
  }

  function DeadIds(q: Redis): set<JobId>
  {
    set i | 0 <= i < |q.dead| :: q.dead[i].id
  }

  /** The queue's own shape: every live id is in the hash, in one place, readable. */
  ghost predicate Shape(q: Redis, orphaned: set<JobId>, maxAttempts: nat)
  {
    && Distinct(q.pending)
    && PendingIds(q) !! q.inflight.Keys !! orphaned !! DeadIds(q)
    && q.data.Keys == PendingIds(q) + q.inflight.Keys + orphaned
    && (forall id :: id in q.data ==>
          q.data[id].Dumped? && q.data[id].job.id == id && q.data[id].job.attempts < maxAttempts)
    && (forall i, j :: 0 <= i < j < |q.dead| ==> q.dead[i].id != q.dead[j].id)
    && (forall i :: 0 <= i < |q.dead| ==> q.dead[i].attempts == maxAttempts)
  }

  /** A job has been handed out once per recorded attempt, once more while in flight. */
  ghost predicate Counted(q: Redis, deliveries: map<JobId, nat>, maxAttempts: nat)
  {
    && (forall id :: id in q.data && q.data[id].Dumped? ==>
          id in deliveries
          && deliveries[id] == q.data[id].job.attempts + if id in q.inflight then 1 else 0)
    && (forall i :: 0 <= i < |q.dead| ==>
          q.dead[i].id in deliveries && deliveries[q.dead[i].id] == maxAttempts)
  }

  /**
   * With one worker at a time: each enqueued job is exactly one of acknowledged,
   * dead, pending, in flight, or orphaned by a crash inside `claim`.
   */
  ghost predicate Conserved(s: System, maxAttempts: nat)
  {
    && Shape(s.q, s.orphaned, maxAttempts)
    && s.acked !! s.q.data.Keys + DeadIds(s.q)
    && s.enqueued == s.acked + DeadIds(s.q) + s.q.data.Keys
    && |s.held| <= 1
    && (forall i :: 0 <= i < |s.held| ==>
          s.held[i].id in s.q.inflight && s.q.data[s.held[i].id] == Dumped(s.held[i]))
    && Counted(s.q, s.deliveries, maxAttempts)
    && (forall id :: id in s.acked ==> id in s.deliveries && s.deliveries[id] <= maxAttempts)
  }

  /** `r` is `q` with `job` moved from in flight to pending or to the dead letters. */
  ghost predicate Moved(q: Redis, r: Redis, job: Job)
  {
    && r.inflight.Keys == q.inflight.Keys - {job.id}
    && r.data.Keys + DeadIds(r) == q.data.Keys + DeadIds(q)
    && (forall id :: id in r.inflight ==> id in r.data && id in q.data && r.data[id] == q.data[id])
  }

  lemma DeadOfMore(q: Redis, r: Redis, job: Job)
    requires r.dead == q.dead + [job]
    ensures DeadIds(r) == DeadIds(q) + {job.id}
  {
    assert r.dead[|q.dead|].id == job.id;
    assert forall i :: 0 <= i < |q.dead| ==> r.dead[i] == q.dead[i];
  }

  lemma DeadLetterKeepsShape(q: Redis, orphaned: set<JobId>, job: Job, maxAttempts: nat)
    requires Shape(q, orphaned, maxAttempts) && job.attempts + 1 >= maxAttempts
    requires job.id in q.inflight && q.data[job.id] == Dumped(job)
    ensures var r := PutBack(q, job, maxAttempts); Shape(r, orphaned, maxAttempts) && Moved(q, r, job)
  {
    DeadOfMore(q, PutBack(q, job, maxAttempts), job.(attempts := job.attempts + 1));
    assert forall i :: 0 <= i < |q.dead| ==> q.dead[i].id in DeadIds(q);
  }

  /** Putting an in-flight job back keeps the shape, whichever way it goes. */
  lemma PutBackKeepsShape(q: Redis, orphaned: set<JobId>, job: Job, maxAttempts: nat)
    requires Shape(q, orphaned, maxAttempts)
    requires job.id in q.inflight && q.data[job.id] == Dumped(job)
    ensures var r := PutBack(q, job, maxAttempts); Shape(r, orphaned, maxAttempts) && Moved(q, r, job)
  {
    if job.attempts + 1 >= maxAttempts {
      DeadLetterKeepsShape(q, orphaned, job, maxAttempts);
    } else {
      var r := PutBack(q, job, maxAttempts);
      assert PendingIds(r) == PendingIds(q) + {job.id} by {
        assert r.pending[|q.pending|] == job.id;
        assert forall i :: 0 <= i < |q.pending| ==> r.pending[i] == q.pending[i];
      }
      assert forall i :: 0 <= i < |q.pending| ==> q.pending[i] in PendingIds(q);
    }
  }

  lemma PutBackKeepsCount(q: Redis, orphaned: set<JobId>, job: Job, deliveries: map<JobId, nat>, maxAttempts: nat)
    requires Shape(q, orphaned, maxAttempts) && Counted(q, deliveries, maxAttempts)
    requires job.id in q.inflight && q.data[job.id] == Dumped(job)
    ensures Counted(PutBack(q, job, maxAttempts), deliveries, maxAttempts)
  {
  }

  lemma RecoverOneKeepsShape(
    q: Redis, orphaned: set<JobId>, id: JobId, deliveries: map<JobId, nat>, maxAttempts: nat)
    requires Shape(q, orphaned, maxAttempts) && Counted(q, deliveries, maxAttempts) && id in q.inflight
    ensures var r := RecoverOne(q, id, maxAttempts);
            && Shape(r, orphaned, maxAttempts) && Counted(r, deliveries, maxAttempts)
            && r.inflight.Keys == q.inflight.Keys - {id}
            && r.data.Keys + DeadIds(r) == q.data.Keys + DeadIds(q)
  {
    PutBackKeepsShape(q, orphaned, q.data[id].job, maxAttempts);
    PutBackKeepsCount(q, orphaned, q.data[id].job, deliveries, maxAttempts);
  }

  /** Recovery removed exactly these ids from the in-flight set, and lost no job. */
  ghost predicate Recovered(q: Redis, r: Redis, expired: seq<JobId>)
  {
    && (forall id :: id in r.inflight <==> id in q.inflight && id !in expired)
    && r.data.Keys + DeadIds(r) == q.data.Keys + DeadIds(q)
  }

  lemma RecoveredOneMore(q: Redis, r: Redis, s: Redis, expired: seq<JobId>, id: JobId)
    requires Recovered(q, r, expired)
    requires s.inflight.Keys == r.inflight.Keys - {id} && s.data.Keys + DeadIds(s) == r.data.Keys + DeadIds(r)
    ensures Recovered(q, s, expired + [id])
  {
    assert forall k :: k in s.inflight <==> k in r.inflight && k != id;
  }

  lemma LastIsNew(ids: seq<JobId>)
    requires ids != [] && Distinct(ids)
    ensures var init, id := ids[..|ids| - 1], ids[|ids| - 1];
            id !in init && Distinct(init) && init + [id] == ids
  {
  }

  lemma {:induction false} RecoverKeepsShape(
    q: Redis, orphaned: set<JobId>, expired: seq<JobId>, deliveries: map<JobId, nat>, maxAttempts: nat)
    requires Shape(q, orphaned, maxAttempts) && Counted(q, deliveries, maxAttempts)
    requires Distinct(expired) && forall i :: 0 <= i < |expired| ==> expired[i] in q.inflight
    ensures var r := Recover(q, expired, maxAttempts);
            && Shape(r, orphaned, maxAttempts) && Counted(r, deliveries, maxAttempts)
            && Recovered(q, r, expired)
    decreases |expired|
  {
    if expired != [] {
      var init, id := expired[..|expired| - 1], expired[|expired| - 1];
      LastIsNew(expired);
      RecoverKeepsShape(q, orphaned, init, deliveries, maxAttempts);
      var r := Recover(q, init, maxAttempts);
      RecoverOneKeepsShape(r, orphaned, id, deliveries, maxAttempts);
      RecoveredOneMore(q, r, RecoverOne(r, id, maxAttempts), init, id);
    }
  }

  lemma PopShrinks(q: Redis)
    requires q.pending != [] && Distinct(q.pending)
    ensures var r := q.(pending := q.pending[1..]);
            Distinct(r.pending) && PendingIds(r) == PendingIds(q) - {q.pending[0]}
  {
    assert q.pending == [q.pending[0]] + q.pending[1..];
  }

  lemma EnqueueConserves(s: System, e: Event, maxAttempts: nat)
    requires maxAttempts >= 1 && e.Enqueue? && Sole(s, e) && Conserved(s, maxAttempts)
    ensures Conserved(Step(s, e, maxAttempts), maxAttempts)
  {
    var r := Step(s, e, maxAttempts).q;
    assert PendingIds(r) == PendingIds(s.q) + {e.id} by {
      assert r.pending[|s.q.pending|] == e.id;
      assert forall i :: 0 <= i < |s.q.pending| ==> r.pending[i] == s.q.pending[i];
    }
    assert forall i :: 0 <= i < |s.q.pending| ==> s.q.pending[i] in PendingIds(s.q);
    assert forall i :: 0 <= i < |r.dead| ==> r.dead[i].id in DeadIds(s.q);
  }

  lemma ClaimConserves(s: System, e: Event, maxAttempts: nat)
    requires e.Claim? && Sole(s, e) && Conserved(s, maxAttempts)
    ensures Conserved(Step(s, e, maxAttempts), maxAttempts)
  {
    if s.q.pending != [] {
      PopShrinks(s.q);
      assert s.q.pending[0] in PendingIds(s.q);
      assert forall i :: 0 <= i < |s.q.dead| ==> s.q.dead[i].id in DeadIds(s.q);
    }
  }

  lemma CrashInClaimConserves(s: System, e: Event, maxAttempts: nat)
    requires e.CrashInClaim? && Sole(s, e) && Conserved(s, maxAttempts)
    ensures Conserved(Step(s, e, maxAttempts), maxAttempts)
  {
    if s.q.pending != [] {
      PopShrinks(s.q);
      assert s.q.pending[0] in PendingIds(s.q);
    }
  }

  lemma RetryConserves(s: System, e: Event, maxAttempts: nat)
    requires e.Retry? && Sole(s, e) && Conserved(s, maxAttempts)
    ensures Conserved(Step(s, e, maxAttempts), maxAttempts)
  {
    PutBackKeepsShape(s.q, s.orphaned, s.held[0], maxAttempts);
    PutBackKeepsCount(s.q, s.orphaned, s.held[0], s.deliveries, maxAttempts);
  }

  lemma AckConserves(s: System, e: Event, maxAttempts: nat)
    requires e.Ack? && Sole(s, e) && Conserved(s, maxAttempts)
    ensures Conserved(Step(s, e, maxAttempts), maxAttempts)
  {
    var q := Settle(s.q, s.held[0]);
    assert PendingIds(q) == PendingIds(s.q) && DeadIds(q) == DeadIds(s.q);
  }

  lemma CrashConserves(s: System, e: Event, maxAttempts: nat)
    requires e.Crash? && Sole(s, e) && Conserved(s, maxAttempts)
    ensures Conserved(Step(s, e, maxAttempts), maxAttempts)
  {
  }

  lemma RecoverConserves(s: System, e: Event, maxAttempts: nat)
    requires e.RecoverExpired? && Sole(s, e) && Conserved(s, maxAttempts)
    ensures Conserved(Step(s, e, maxAttempts), maxAttempts)
  {
    RecoverKeepsShape(s.q, s.orphaned, e.expired, s.deliveries, maxAttempts);
  }

  /** One step of one worker, with any crash, keeps every job accounted for. */
  lemma StepConserves(s: System, e: Event, maxAttempts: nat)
    requires maxAttempts >= 1 && Sole(s, e) && Conserved(s, maxAttempts)
    ensures Conserved(Step(s, e, maxAttempts), maxAttempts)
  {
    match e
    case Enqueue(_, _) => EnqueueConserves(s, e, maxAttempts);
    case Claim(_) => ClaimConserves(s, e, maxAttempts);
    case CrashInClaim => CrashInClaimConserves(s, e, maxAttempts);
    case RecoverExpired(_) => RecoverConserves(s, e, maxAttempts);
    case Ack(_) => AckConserves(s, e, maxAttempts);
    case Retry(_) => RetryConserves(s, e, maxAttempts);
    case Crash(_) => CrashConserves(s, e, maxAttempts);
  }

  // ------------------------------------------------------------------- runs

  /** The state after a run, or `None` if some event was not possible for one worker. */
  function RunSole(s: System, events: seq<Event>, maxAttempts: nat): Option<System>
  {
    if events == [] then Some(s)
    else
      match RunSole(s, events[..|events| - 1], maxAttempts)
      case None => None
      case Some(t) =>
        if Sole(t, events[|events| - 1]) then Some(Step(t, events[|events| - 1], maxAttempts)) else None
  }

  /** The five places a job can be in. */
  function Places(s: System, id: JobId): nat
  {
    (if id in s.acked then 1 else 0)
    + (if id in DeadIds(s.q) then 1 else 0)
    + (if id in s.q.pending then 1 else 0)
    + (if id in s.q.inflight then 1 else 0)
    + (if id in s.orphaned then 1 else 0)
  }

  /** Conservation and the delivery bound over every run of one worker at a time. */
  lemma {:induction false} EveryRunConserves(events: seq<Event>, maxAttempts: nat)
    requires maxAttempts >= 1 && RunSole(INITIAL, events, maxAttempts).Some?
    ensures var s := RunSole(INITIAL, events, maxAttempts).value;
            && Conserved(s, maxAttempts)
            && (forall id :: id in s.enqueued ==>
                  Places(s, id) == 1 && id in s.deliveries && s.deliveries[id] <= maxAttempts)
            && (forall id :: id !in s.enqueued ==> Places(s, id) == 0)
    decreases |events|
  {
    if events != [] {
      EveryRunConserves(events[..|events| - 1], maxAttempts);
      StepConserves(RunSole(INITIAL, events[..|events| - 1], maxAttempts).value, events[|events| - 1], maxAttempts);
    }
    var s := RunSole(INITIAL, events, maxAttempts).value;
    forall id | id in s.enqueued
      ensures Places(s, id) == 1 && id in s.deliveries && s.deliveries[id] <= maxAttempts
    {
      assert id in s.q.pending <==> id in PendingIds(s.q);
    }
    forall id | id !in s.enqueued ensures Places(s, id) == 0 {
      assert id in s.q.pending <==> id in PendingIds(s.q);
    }
  }
}
