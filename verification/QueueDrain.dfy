/**
 * The Redis queue runs dry: with no new jobs, one worker at a time and crashes
 * anywhere, a number that every effective step lowers bounds the length of a run.
 */
module QueueDrain {
  import opened Wrappers
  import opened JobQueue
  import opened QueueProtocol

  /** The deliveries one id has left. */
  function Share(data: map<JobId, Raw>, id: JobId, maxAttempts: nat): nat
  {
    if id in data && data[id].Dumped? then Left(data[id].job, maxAttempts) else 0
  }

  /** The deliveries left over all ids below `n`. */
  function AttemptsLeft(data: map<JobId, Raw>, maxAttempts: nat, n: nat): nat
  {
    if n == 0 then 0 else AttemptsLeft(data, maxAttempts, n - 1) + Share(data, n - 1, maxAttempts)
  }

  /** Changing one id changes the sum by that id's share. */
  lemma {:induction false} OneShareChanges(
    before: map<JobId, Raw>, after: map<JobId, Raw>, id: JobId, maxAttempts: nat, n: nat)
    requires forall k :: k != id ==> Share(after, k, maxAttempts) == Share(before, k, maxAttempts)
    ensures AttemptsLeft(after, maxAttempts, n)
         == AttemptsLeft(before, maxAttempts, n)
            + if id < n then Share(after, id, maxAttempts) - Share(before, id, maxAttempts) else 0
  {
    if n > 0 {
      OneShareChanges(before, after, id, maxAttempts, n - 1);
    }
  }

  /** A waiting job weighs two, a held one one, an attempt left three. */
  function Weight(q: Redis, maxAttempts: nat, n: nat): nat
  {
    3 * AttemptsLeft(q.data, maxAttempts, n) + 2 * |q.pending|
  }

  function Measure(s: System, maxAttempts: nat, n: nat): nat
  {
    Weight(s.q, maxAttempts, n) + |s.held|
  }

  lemma PutBackLowersWeight(q: Redis, job: Job, maxAttempts: nat, n: nat)
    requires job.id < n
    requires job.id in q.data && q.data[job.id] == Dumped(job)
    ensures Weight(PutBack(q, job, maxAttempts), maxAttempts, n) < Weight(q, maxAttempts, n)
  {
    OneShareChanges(q.data, PutBack(q, job, maxAttempts).data, job.id, maxAttempts, n);
  }

  lemma SettleLowersWeight(q: Redis, job: Job, maxAttempts: nat, n: nat)
    requires job.id < n
    requires job.id in q.data && q.data[job.id] == Dumped(job)
    ensures Weight(Settle(q, job), maxAttempts, n) < Weight(q, maxAttempts, n)
  {
    OneShareChanges(q.data, Settle(q, job).data, job.id, maxAttempts, n);
  }

  /** Each recovered job costs an attempt. */
  lemma {:induction false} RecoverLowersWeight(
    q: Redis, orphaned: set<JobId>, expired: seq<JobId>, deliveries: map<JobId, nat>, maxAttempts: nat, n: nat)
    requires Shape(q, orphaned, maxAttempts) && Counted(q, deliveries, maxAttempts)
    requires Distinct(expired) && forall i :: 0 <= i < |expired| ==> expired[i] in q.inflight
    requires forall id :: id in q.data ==> id < n
    ensures Weight(Recover(q, expired, maxAttempts), maxAttempts, n) + |expired| <= Weight(q, maxAttempts, n)
    ensures forall id :: id in Recover(q, expired, maxAttempts).data ==> id < n
    decreases |expired|
  {
    if expired != [] {
      var init, id := expired[..|expired| - 1], expired[|expired| - 1];
      var r := Recover(q, init, maxAttempts);
      LastIsNew(expired);
      RecoverLowersWeight(q, orphaned, init, deliveries, maxAttempts, n);
      RecoverKeepsShape(q, orphaned, init, deliveries, maxAttempts);
      PutBackLowersWeight(r, r.data[id].job, maxAttempts, n);
    }
  }

  /** Something to claim or to recover; every settling and every crash is effective. */
  predicate Effective(s: System, e: Event)
  {
    match e
    case Enqueue(_, _) => false
    case Claim(_) => s.q.pending != []
    case CrashInClaim => s.q.pending != []
    case RecoverExpired(expired) => expired != []
    case _ => true
  }

  /** What a worker does of its own accord. */
  predicate Voluntary(e: Event)
  {
    !e.CrashInClaim? && !e.Crash?
  }

  ghost predicate Below(s: System, n: nat)
  {
    forall id :: id in s.enqueued ==> id < n
  }

  /** Every effective step of one worker, crashes included, lowers the measure. */
  lemma StepLowersMeasure(s: System, e: Event, maxAttempts: nat, n: nat)
    requires Sole(s, e) && Effective(s, e) && Conserved(s, maxAttempts) && Below(s, n)
    ensures Measure(Step(s, e, maxAttempts), maxAttempts, n) < Measure(s, maxAttempts, n)
  {
    match e
    case Ack(_) => SettleLowersWeight(s.q, s.held[0], maxAttempts, n);
    case Retry(_) => PutBackLowersWeight(s.q, s.held[0], maxAttempts, n);
    case RecoverExpired(expired) =>
      RecoverLowersWeight(s.q, s.orphaned, expired, s.deliveries, maxAttempts, n);
    case _ =>
  }

  /** Every event of the run was effective when it happened. */
  ghost predicate AllEffective(s: System, events: seq<Event>, maxAttempts: nat)
    decreases |events|
  {
    events == []
    || var init := events[..|events| - 1];
       && AllEffective(s, init, maxAttempts)
       && RunSole(s, init, maxAttempts).Some?
       && Effective(RunSole(s, init, maxAttempts).value, events[|events| - 1])
  }

  /** From any reachable state, no run without new jobs is longer than its measure. */
  lemma {:induction false} RunsAreShort(s: System, events: seq<Event>, maxAttempts: nat, n: nat)
    requires maxAttempts >= 1 && Conserved(s, maxAttempts) && Below(s, n)
    requires RunSole(s, events, maxAttempts).Some? && AllEffective(s, events, maxAttempts)
    ensures var end := RunSole(s, events, maxAttempts).value;
            && Conserved(end, maxAttempts) && Below(end, n)
            && |events| + Measure(end, maxAttempts, n) <= Measure(s, maxAttempts, n)
    decreases |events|
  {
    if events != [] {
      var init, last := events[..|events| - 1], events[|events| - 1];
      RunsAreShort(s, init, maxAttempts, n);
      var before := RunSole(s, init, maxAttempts).value;
      StepConserves(before, last, maxAttempts);
      StepLowersMeasure(before, last, maxAttempts, n);
    }
  }

  ghost predicate Drained(s: System)
  {
    s.q.pending == [] && s.held == [] && s.q.inflight == map[]
  }

  ghost predicate CanProgress(s: System)
  {
    exists e :: Sole(s, e) && Effective(s, e) && Voluntary(e)
  }

  /** Without a crash a run can go on exactly while something is pending, held or in flight. */
  lemma ProgressUnlessDrained(s: System, maxAttempts: nat)
    requires Conserved(s, maxAttempts)
    ensures CanProgress(s) <==> !Drained(s)
    ensures Drained(s) ==> s.enqueued == s.acked + DeadIds(s.q) + s.orphaned
  {
    if s.held != [] {
      assert Sole(s, Ack(0)) && Effective(s, Ack(0));
    } else if s.q.pending != [] {
      assert Sole(s, Claim(0.0)) && Effective(s, Claim(0.0));
    } else if s.q.inflight != map[] {
      var id :| id in s.q.inflight;
      var e := RecoverExpired([id]);
      assert Sole(s, e) && Effective(s, e);
    } else {
      forall e ensures !(Sole(s, e) && Effective(s, e)) {
        if e.RecoverExpired? && e.expired != [] {
          assert e.expired[0] !in s.q.inflight;
        }
      }
    }
  }
}
