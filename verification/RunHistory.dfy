/**
 * One run's log, written by the worker and read by the stream: the commits of its
 * deliveries, the events they append, and what polls between any two commits see.
 */
module RunHistory {
  import opened Wrappers
  import opened RunEvents
  import opened Rows
  import opened Worker
  import opened WorkerTheorems
  import opened EventStream

  // ------------------------------------------------------------------- commits

  /** What one transaction of a delivery writes. */
  datatype Commit =
    | Runs(now: Time)
    | Reports(kind: string)
    | Completes(answer: string, citations: seq<string>, now: Time)
    | FailsWith(message: Message, now: Time)

  /** No delivery writes to a run it finds terminal. */
  function Apply(run: Run, c: Commit): Run
  {
    if Terminal(run.status) then run
    else
      match c
      case Runs(now) => MarkRunning(run, now)
      case Reports(kind) => Emit(run, [kind])
      case Completes(answer, citations, now) => MarkCompleted(run, answer, citations, now)
      case FailsWith(message, now) => MarkRunFailed(run, message, now)
  }

  function ApplyAll(run: Run, commits: seq<Commit>): Run
  {
    if commits == [] then run else Apply(ApplyAll(run, commits[..|commits| - 1]), commits[|commits| - 1])
  }

  lemma {:induction false} ApplyAllAppend(run: Run, a: seq<Commit>, b: seq<Commit>)
    ensures ApplyAll(run, a + b) == ApplyAll(ApplyAll(run, a), b)
    decreases |b|
  {
    if b == [] {
      assert a + b == a;
    } else {
      assert (a + b)[..|a + b| - 1] == a + b[..|b| - 1];
      ApplyAllAppend(run, a, b[..|b| - 1]);
    }
  }

  lemma ApplyOne(run: Run, c: Commit)
    ensures ApplyAll(run, [c]) == Apply(run, c)
  {
    assert [c][..0] == [];
  }

  function ReportsOf(kinds: seq<string>): seq<Commit>
  {
    seq(|kinds|, i requires 0 <= i < |kinds| => Reports(kinds[i]))
  }

  lemma {:induction false} EmitIsCommits(run: Run, kinds: seq<string>)
    requires !Terminal(run.status)
    ensures ApplyAll(run, ReportsOf(kinds)) == Emit(run, kinds)
    decreases |kinds|
  {
    if kinds == [] {
      assert Emit(run, kinds).log == run.log;
    } else {
      var init, last := kinds[..|kinds| - 1], kinds[|kinds| - 1];
      EmitIsCommits(run, init);
      assert ReportsOf(kinds)[..|kinds| - 1] == ReportsOf(init);
      assert Emit(Emit(run, init), [last]).log == Emit(run, kinds).log;
    }
  }

  /** The commits of the work of one delivery, in order. */
  function WorkCommits(run: Run, o: Outcome): seq<Commit>
  {
    if (o.attempt.Raises? && o.attempt.early) || Terminal(run.status) then []
    else
      [Runs(o.now)] + ReportsOf(o.progress)
      + if o.attempt.Raises? then [] else [Completes(o.answer, o.citations, o.now)]
  }

  lemma WorkIsCommits(run: Run, o: Outcome)
    ensures ApplyAll(run, WorkCommits(run, o)) == ExecuteRow(run, o).0
  {
    if !(o.attempt.Raises? && o.attempt.early) && !Terminal(run.status) {
      var running := MarkRunning(run, o.now);
      var start, rest := [Runs(o.now)], ReportsOf(o.progress);
      ApplyOne(run, Runs(o.now));
      ApplyAllAppend(run, start, rest);
      EmitIsCommits(running, o.progress);
      var last := Completes(o.answer, o.citations, o.now);
      ApplyAllAppend(run, start + rest, [last]);
      ApplyOne(Emit(running, o.progress), last);
      assert start + rest + [] == start + rest;
    }
  }

  /** The commits of one delivery: its work's, and the failure if the job is given up. */
  function CommitsOf(run: Run, d: Delivery, maxAttempts: nat): seq<Commit>
  {
    var o := d.outcome;
    var verdict := VerdictOf(d.job, ExecuteRow(run, o).1, o, maxAttempts);
    WorkCommits(run, o)
    + if !d.crashes && verdict.GivenUp? && o.recorded
      then [FailsWith(if verdict.refused then ProviderFailure else RunFailure, o.now)] else []
  }

  /** A delivery, crashed or not, is its commits one after the other. */
  lemma DeliveryIsCommits(run: Run, d: Delivery, maxAttempts: nat)
    ensures ApplyAll(run, CommitsOf(run, d, maxAttempts)) == DeliverOne(run, d, maxAttempts)
  {
    var o := d.outcome;
    var work := WorkCommits(run, o);
    var (after, raised) := ExecuteRow(run, o);
    WorkIsCommits(run, o);
    var verdict := VerdictOf(d.job, raised, o, maxAttempts);
    if !d.crashes && verdict.GivenUp? && o.recorded {
      var c := FailsWith(if verdict.refused then ProviderFailure else RunFailure, o.now);
      ApplyAllAppend(run, work, [c]);
      ApplyOne(after, c);
    } else {
      assert work + [] == work;
    }
  }

  function AllCommits(run: Run, deliveries: seq<Delivery>, maxAttempts: nat): seq<Commit>
    decreases |deliveries|
  {
    if deliveries == [] then []
    else
      CommitsOf(run, deliveries[0], maxAttempts)
      + AllCommits(DeliverOne(run, deliveries[0], maxAttempts), deliveries[1..], maxAttempts)
  }

  /** So the states a reader may find between deliveries' commits are those of `ApplyAll`. */
  lemma {:induction false} DeliveriesAreCommits(run: Run, deliveries: seq<Delivery>, maxAttempts: nat)
    ensures ApplyAll(run, AllCommits(run, deliveries, maxAttempts)) == DeliverAll(run, deliveries, maxAttempts)
    decreases |deliveries|
  {
    if deliveries != [] {
      var next := DeliverOne(run, deliveries[0], maxAttempts);
      DeliveryIsCommits(run, deliveries[0], maxAttempts);
      DeliveriesAreCommits(next, deliveries[1..], maxAttempts);
      ApplyAllAppend(run, CommitsOf(run, deliveries[0], maxAttempts), AllCommits(next, deliveries[1..], maxAttempts));
    }
  }

  // ---------------------------------------------------------- the log as events

  function EventType(e: Entry): string
  {
    match e
    case Started => "run_started"
    case Progress(kind) => kind
    case CompletedEntry(_) => "completed"
    case FailedEntry(_) => "failed"
  }

  /** The rows of the event table a log stands for; `json` prints an entry's data. */
  function EventsOf(log: seq<Entry>, org: OrganizationId, run: RunId, json: Entry -> string): (events: seq<RunEvent>)
    ensures |events| == |log|
  {
    seq(|log|, i requires 0 <= i < |log| => RunEvent(run, org, i + 1, EventType(log[i]), json(log[i])))
  }

  /** A longer log is what `append_event` makes of a shorter one: the next number, last. */
  lemma EventsAreAppended(log: seq<Entry>, e: Entry, org: OrganizationId, run: RunId, json: Entry -> string)
    ensures EventsOf(log + [e], org, run, json)
         == EventsOf(log, org, run, json) + [RunEvent(run, org, |log| + 1, EventType(e), json(e))]
    ensures Numbered(EventsOf(log, org, run, json))
  {
  }

  /** What the log's ends are called: a reader tells a settled run by its last event. */
  lemma EventsAreNamed(run: Run, now: Time, org: OrganizationId, id: RunId, json: Entry -> string)
    requires Sound(run)
    ensures var first := EventsOf(CreateRun(now).log, org, id, json);
            |first| == 1 && first[0].sequence == 1 && first[0].eventType == "run_started"
    ensures var events := EventsOf(run.log, org, id, json);
            && events != []
            && (run.status == Completed ==> events[|events| - 1].eventType == "completed")
            && (run.status == RunFailed ==> events[|events| - 1].eventType == "failed")
  {
  }

  // --------------------------------------------------------------- polls between

  /** Later commits only append to the log, and nothing at all once the run is terminal. */
  lemma {:induction false} HistoryGrows(run: Run, commits: seq<Commit>, i: nat, j: nat)
    requires i <= j <= |commits|
    ensures var a, b := ApplyAll(run, commits[..i]), ApplyAll(run, commits[..j]);
            a.log <= b.log && (Terminal(a.status) ==> b == a)
    decreases j - i
  {
    if i < j {
      HistoryGrows(run, commits, i, j - 1);
      assert commits[..j][..j - 1] == commits[..j - 1];
    }
  }

  /** After which commits the two queries of a tick look. */
  datatype Moment = Moment(atEvents: nat, atStatus: nat)

  ghost predicate InOrder(moments: seq<Moment>, n: nat)
  {
    && (forall k :: 0 <= k < |moments| ==> moments[k].atEvents <= moments[k].atStatus <= n)
    && (forall k, l :: 0 <= k < l < |moments| ==> moments[k].atStatus <= moments[l].atEvents)
  }

  function TickAt(run: Run, commits: seq<Commit>, m: Moment): LogTick
    requires m.atEvents <= |commits| && m.atStatus <= |commits|
  {
    var status := ApplyAll(run, commits[..m.atStatus]);
    LogTick(|ApplyAll(run, commits[..m.atEvents]).log|, |status.log|, Terminal(status.status))
  }

  function TicksAt(run: Run, commits: seq<Commit>, moments: seq<Moment>): (ticks: seq<LogTick>)
    requires forall k :: 0 <= k < |moments| ==>
               moments[k].atEvents <= |commits| && moments[k].atStatus <= |commits|
    ensures |ticks| == |moments|
  {
    seq(|moments|, k requires 0 <= k < |moments| => TickAt(run, commits, moments[k]))
  }

  /** Polls of a run's history are legal, and one that sees a terminal run sees its whole log. */
  lemma PollsAreLegal(run: Run, commits: seq<Commit>, moments: seq<Moment>)
    requires InOrder(moments, |commits|)
    ensures var ticks, n := TicksAt(run, commits, moments), |ApplyAll(run, commits).log|;
            && LegalTicks(ticks, n)
            && forall k :: 0 <= k < |ticks| && ticks[k].finished ==> ticks[k].seen == n
  {
    var ticks, n := TicksAt(run, commits, moments), |ApplyAll(run, commits).log|;
    assert commits[..|commits|] == commits;
    forall k | 0 <= k < |ticks|
      ensures ticks[k].read <= ticks[k].seen <= n && (ticks[k].finished ==> ticks[k].seen == n)
    {
      HistoryGrows(run, commits, moments[k].atEvents, moments[k].atStatus);
      HistoryGrows(run, commits, moments[k].atStatus, |commits|);
    }
    forall k, l | 0 <= k < l < |ticks| ensures ticks[k].seen <= ticks[l].read {
      HistoryGrows(run, commits, moments[k].atStatus, moments[l].atEvents);
    }
  }

  /**
   * From the worker's commits to the reader: a stream that the server ends while polling
   * a run's history is the run's whole log if and only if the first poll that saw the
   * run terminal read something new, or all had been sent before it.
   */
  lemma StreamOfHistoryIsWhole(run: Run, commits: seq<Commit>, moments: seq<Moment>, after: nat)
    requires InOrder(moments, |commits|)
    requires Follow(TicksAt(run, commits, moments), 0, after, 0.0).end == Finished
    ensures var ticks, n := TicksAt(run, commits, moments), |ApplyAll(run, commits).log|;
            var j := FirstFinished(ticks, 0);
            && j < |ticks|
            && (Follow(ticks, 0, after, 0.0).cursor >= n
                <==> ticks[j].read > ReadBefore(ticks, after, j) || ReadBefore(ticks, after, j) >= n)
  {
    PollsAreLegal(run, commits, moments);
    FinishedStreamIsWhole(TicksAt(run, commits, moments), |ApplyAll(run, commits).log|, after);
  }

  /** The race, in the worker's terms: a run completes between the two queries of a poll. */
  lemma CompletionBetweenQueries(run: Run, answer: string, citations: seq<string>, now: Time)
    requires !Terminal(run.status)
    ensures var commits, moments := [Completes(answer, citations, now)], [Moment(0, 1)];
            var n := |ApplyAll(run, commits).log|;
            && n == |run.log| + 1
            && InOrder(moments, |commits|)
            && TicksAt(run, commits, moments) == [LogTick(n - 1, n, true)]
            && Follow(TicksAt(run, commits, moments), 0, n - 1, 0.0) == Transcript(n - 1, 1, Finished)
  {
    var c := Completes(answer, citations, now);
    ApplyOne(run, c);
    assert [c][..1] == [c] && [c][..0] == [];
    SplitReadLosesTerminalEvent(|run.log| + 1);
  }
}
