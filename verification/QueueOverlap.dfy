/**
 * Any number of workers: a job whose visibility lapses can have two holders. What still
 * holds then, what does not, and exactly which step breaks it.
 */
module QueueOverlap {
  import opened Wrappers
  import opened JobQueue
  import opened QueueProtocol

  /** Data is filed under its job's own id. */
  ghost predicate Keyed(q: Redis)
  {
    forall id :: id in q.data && q.data[id].Dumped? ==> q.data[id].job.id == id
  }

  ghost predicate Known(s: System)
  {
    && Keyed(s.q)
    && s.q.data.Keys <= s.enqueued
    && (forall i :: 0 <= i < |s.q.pending| ==> s.q.pending[i] in s.enqueued)
    && (forall i :: 0 <= i < |s.held| ==> s.held[i].id in s.enqueued)
  }

  /** A run of any number of workers. */
  function RunAny(s: System, events: seq<Event>, maxAttempts: nat): Option<System>
  {
    if events == [] then Some(s)
    else
      match RunAny(s, events[..|events| - 1], maxAttempts)
      case None => None
      case Some(t) =>
        if Possible(t, events[|events| - 1]) then Some(Step(t, events[|events| - 1], maxAttempts)) else None
  }

  predicate Again(q: Redis, id: JobId, maxAttempts: nat)
  {
    id in q.data && q.data[id].Dumped? && q.data[id].job.attempts + 1 < maxAttempts
  }

  /** The ids that recovery puts back. */
  function Requeued(q: Redis, expired: seq<JobId>, maxAttempts: nat): seq<JobId>
  {
    if expired == [] then []
    else
      var n := |expired| - 1;
      Requeued(q, expired[..n], maxAttempts) + if Again(q, expired[n], maxAttempts) then [expired[n]] else []
  }

  lemma {:induction false} RecoverPutsBack(q: Redis, expired: seq<JobId>, maxAttempts: nat)
    requires Keyed(q) && Distinct(expired)
    ensures var r := Recover(q, expired, maxAttempts);
            && Keyed(r) && r.data.Keys <= q.data.Keys
            && r.pending == q.pending + Requeued(q, expired, maxAttempts)
            && (forall id :: id !in expired ==>
                  (id in r.data <==> id in q.data) && (id in q.data ==> r.data[id] == q.data[id]))
    decreases |expired|
  {
    if expired != [] {
      var n := |expired| - 1;
      RecoverPutsBack(q, expired[..n], maxAttempts);
      LastIsNew(expired);
    }
  }

  lemma {:induction false} RequeuedAre(q: Redis, expired: seq<JobId>, maxAttempts: nat)
    requires Distinct(expired)
    ensures var ids := Requeued(q, expired, maxAttempts);
            && Distinct(ids)
            && (forall id :: id in ids <==> id in expired && Again(q, id, maxAttempts))
    decreases |expired|
  {
    if expired != [] {
      var n := |expired| - 1;
      RequeuedAre(q, expired[..n], maxAttempts);
      LastIsNew(expired);
    }
  }

  lemma StepKeepsKnown(s: System, e: Event, maxAttempts: nat)
    requires Possible(s, e) && Known(s)
    ensures Known(Step(s, e, maxAttempts))
  {
    if e.RecoverExpired? {
      RecoverPutsBack(s.q, e.expired, maxAttempts);
      RequeuedAre(s.q, e.expired, maxAttempts);
      var ids := Requeued(s.q, e.expired, maxAttempts);
      assert forall i :: 0 <= i < |ids| ==> ids[i] in ids;
    }
  }

  /** In every run of any number of workers: the attempt bounds, and ids known. */
  lemma {:induction false} EveryRunIsBounded(events: seq<Event>, maxAttempts: nat)
    requires maxAttempts >= 1 && RunAny(INITIAL, events, maxAttempts).Some?
    ensures var s := RunAny(INITIAL, events, maxAttempts).value; Bounded(s, maxAttempts) && Known(s)
    decreases |events|
  {
    if events != [] {
      var n := |events| - 1;
      EveryRunIsBounded(events[..n], maxAttempts);
      var before := RunAny(INITIAL, events[..n], maxAttempts).value;
      StepKeepsBounds(before, events[n], maxAttempts);
      StepKeepsKnown(before, events[n], maxAttempts);
    }
  }

  /** The step puts an id back, with attempts left, that is already pending. */
  predicate PutsBackPending(s: System, e: Event, maxAttempts: nat)
    requires Possible(s, e)
  {
    match e
    case Retry(h) => s.held[h].attempts + 1 < maxAttempts && s.held[h].id in s.q.pending
    case RecoverExpired(expired) =>
      exists i :: 0 <= i < |expired| && Again(s.q, expired[i], maxAttempts) && expired[i] in s.q.pending
    case _ => false
  }

  lemma DistinctAppend<T>(a: seq<T>, b: seq<T>)
    requires Distinct(a) && Distinct(b)
    ensures Distinct(a + b) <==> forall x :: x in b ==> x !in a
  {
    if x :| x in b && x in a {
      var i :| 0 <= i < |a| && a[i] == x;
      var j :| 0 <= j < |b| && b[j] == x;
      assert (a + b)[i] == (a + b)[|a| + j];
    } else {
      forall i, j | 0 <= i < j < |a + b| ensures (a + b)[i] != (a + b)[j] {
        if i < |a| <= j {
          assert b[j - |a|] in b && a[i] in a;
        }
      }
    }
  }

  /** Pending ids stay distinct in a step exactly when no pending id is put back. */
  lemma StepKeepsDistinctExactlyWhen(s: System, e: Event, maxAttempts: nat)
    requires Possible(s, e) && Known(s) && Distinct(s.q.pending)
    ensures Distinct(Step(s, e, maxAttempts).q.pending) <==> !PutsBackPending(s, e, maxAttempts)
  {
    match e
    case Enqueue(id, _) =>
      DistinctAppend(s.q.pending, [id]);
      assert id !in s.q.pending;
    case Retry(h) => DistinctAppend(s.q.pending, [s.held[h].id]);
    case RecoverExpired(expired) =>
      RecoverPutsBack(s.q, expired, maxAttempts);
      RequeuedAre(s.q, expired, maxAttempts);
      DistinctAppend(s.q.pending, Requeued(s.q, expired, maxAttempts));
    case Ack(_) =>
    case Crash(_) =>
    case _ =>
      if s.q.pending != [] {
        PopShrinks(s.q);
      }
  }

  lemma RunAnyNext(s: System, events: seq<Event>, e: Event, more: seq<Event>, maxAttempts: nat)
    requires RunAny(s, events, maxAttempts).Some? && Possible(RunAny(s, events, maxAttempts).value, e)
    requires more == events + [e]
    ensures RunAny(s, more, maxAttempts) == Some(Step(RunAny(s, events, maxAttempts).value, e, maxAttempts))
  {
    assert more[..|events|] == events;
  }

  /** One job, claimed by a worker that still has it. */
  function Claimed(id: JobId, work: Work, deadline: Time): System
  {
    System(Redis(map[id := Dumped(Job(id, work, 0))], [], map[id := deadline], []), [Job(id, work, 0)],
           {id}, {}, {}, map[id := 1])
  }

  /** The same job lapsed: its holder still has it, and it waits again. */
  function Lapsed(id: JobId, work: Work): System
  {
    System(Redis(map[id := Dumped(Job(id, work, 1))], [id], map[], []), [Job(id, work, 0)],
           {id}, {}, {}, map[id := 1])
  }

  lemma ReachesClaimed(id: JobId, work: Work, deadline: Time)
    ensures RunAny(INITIAL, [Enqueue(id, work), Claim(deadline)], 3) == Some(Claimed(id, work, deadline))
  {
    var e, c := Enqueue(id, work), Claim(deadline);
    RunAnyNext(INITIAL, [], e, [e], 3);
    RunAnyNext(INITIAL, [e], c, [e, c], 3);
    assert RunAny(INITIAL, [e, c], 3).value == Claimed(id, work, deadline);
  }

  lemma RecoverOfOne(q: Redis, id: JobId, maxAttempts: nat)
    ensures Recover(q, [id], maxAttempts) == RecoverOne(q, id, maxAttempts)
  {
    assert [id][..0] == [];
  }

  lemma LapseOfClaimed(id: JobId, work: Work, deadline: Time)
    ensures var r := RecoverExpired([id]);
            Possible(Claimed(id, work, deadline), r)
            && Step(Claimed(id, work, deadline), r, 3) == Lapsed(id, work)
  {
    RecoverOfOne(Claimed(id, work, deadline).q, id, 3);
  }

  lemma ReachesLapsed(id: JobId, work: Work, deadline: Time)
    ensures RunAny(INITIAL, [Enqueue(id, work), Claim(deadline), RecoverExpired([id])], 3)
         == Some(Lapsed(id, work))
  {
    var e, c, r := Enqueue(id, work), Claim(deadline), RecoverExpired([id]);
    ReachesClaimed(id, work, deadline);
    LapseOfClaimed(id, work, deadline);
    RunAnyNext(INITIAL, [e, c], r, [e, c, r], 3);
  }

  lemma BothPutBack(id: JobId, work: Work, deadline: Time)
    ensures var both := Step(Lapsed(id, work), Claim(deadline), 3);
            && both.held == [Job(id, work, 0), Job(id, work, 1)]
            && var first := Step(both, Retry(0), 3);
               first.held == [Job(id, work, 1)] && Step(first, Retry(0), 3).q.pending == [id, id]
  {
    var both := Step(Lapsed(id, work), Claim(deadline), 3);
    assert both.held == [Job(id, work, 0), Job(id, work, 1)] && both.q.pending == [];
    var first := Step(both, Retry(0), 3);
    assert first.held == [Job(id, work, 1)] && first.q.pending == [id];
  }

  /** A run in which a job lapses, is claimed again, and both holders put it back. */
  lemma OverlapDuplicatesPending(id: JobId, work: Work, deadline: Time)
    ensures var events := [Enqueue(id, work), Claim(deadline), RecoverExpired([id]), Claim(deadline),
                           Retry(0), Retry(0)];
            var end := RunAny(INITIAL, events, 3);
            end.Some? && end.value.q.pending == [id, id]
  {
    var e, c, r := Enqueue(id, work), Claim(deadline), RecoverExpired([id]);
    ReachesLapsed(id, work, deadline);
    BothPutBack(id, work, deadline);
    RunAnyNext(INITIAL, [e, c, r], c, [e, c, r, c], 3);
    RunAnyNext(INITIAL, [e, c, r, c], Retry(0), [e, c, r, c, Retry(0)], 3);
    RunAnyNext(INITIAL, [e, c, r, c, Retry(0)], Retry(0), [e, c, r, c, Retry(0), Retry(0)], 3);
  }
}
