/**
 * The durable event log of a run: `append_event` and `events_since` of
 * backend/app/services/run_store.py over one table shared by every run.
 */
module RunEvents {
  type RunId = nat
  type OrganizationId = nat

  /** `data` is the JSON text of the payload. */
  datatype RunEvent = RunEvent(
    runId: RunId,
    organizationId: OrganizationId,
    sequence: nat,
    eventType: string,
    data: string)

  // ------------------------------------------------------------- the table

  /** `coalesce(max(sequence), 0)` over the rows of one run. */
  function MaxSequence(rows: seq<RunEvent>, run: RunId): nat
  {
    if rows == [] then 0
    else
      var m, last := MaxSequence(rows[..|rows| - 1], run), rows[|rows| - 1];
      if last.runId == run && last.sequence > m then last.sequence else m
  }

  /** The `where` clause of `events_since`, in table order. */
  function Matching(rows: seq<RunEvent>, org: OrganizationId, run: RunId, after: int): seq<RunEvent>
  {
    if rows == [] then []
    else
      var last := rows[|rows| - 1];
      Matching(rows[..|rows| - 1], org, run, after)
      + if last.runId == run && last.organizationId == org && last.sequence > after then [last] else []
  }

  function Insert(sorted: seq<RunEvent>, e: RunEvent): seq<RunEvent>
  {
    var n := |sorted|;
    if n == 0 || sorted[n - 1].sequence <= e.sequence then sorted + [e]
    else Insert(sorted[..n - 1], e) + [sorted[n - 1]]
  }

  /** `order_by(sequence asc)`. */
  function OrderBySequence(rows: seq<RunEvent>): seq<RunEvent>
  {
    if rows == [] then [] else Insert(OrderBySequence(rows[..|rows| - 1]), rows[|rows| - 1])
  }

  function EventsSince(rows: seq<RunEvent>, org: OrganizationId, run: RunId, after: int): seq<RunEvent>
  {
    OrderBySequence(Matching(rows, org, run, after))
  }

  // ------------------------------------------------------------- one run's log

  /** The rows of one run in the order they were appended. */
  function Log(rows: seq<RunEvent>, run: RunId): seq<RunEvent>
  {
    if rows == [] then []
    else
      var last := rows[|rows| - 1];
      Log(rows[..|rows| - 1], run) + if last.runId == run then [last] else []
  }

  /** Sequences are contiguous from 1. */
  predicate Numbered(log: seq<RunEvent>)
  {
    forall i :: 0 <= i < |log| ==> log[i].sequence == i + 1
  }

  /** Everything after the first `k` elements, for any integer `k`. */
  function Drop<T>(s: seq<T>, k: int): seq<T>
  {
    if k <= 0 then s else if k <= |s| then s[k..] else []
  }

  lemma NumberedInit(rows: seq<RunEvent>, run: RunId)
    requires rows != [] && Numbered(Log(rows, run))
    ensures var log, before := Log(rows, run), Log(rows[..|rows| - 1], run);
            Numbered(before)
            && (rows[|rows| - 1].runId == run ==> rows[|rows| - 1].sequence == |before| + 1)
  {
    var log, before := Log(rows, run), Log(rows[..|rows| - 1], run);
    assert forall i :: 0 <= i < |before| ==> before[i] == log[i];
    assert rows[|rows| - 1].runId == run ==> log[|before|] == rows[|rows| - 1];
  }

  lemma {:induction false} MaxSequenceOfLog(rows: seq<RunEvent>, run: RunId)
    requires Numbered(Log(rows, run))
    ensures MaxSequence(rows, run) == |Log(rows, run)|
  {
    if rows != [] {
      NumberedInit(rows, run);
      MaxSequenceOfLog(rows[..|rows| - 1], run);
    }
  }

  lemma {:induction false} MatchingIsDrop(rows: seq<RunEvent>, org: OrganizationId, run: RunId, after: int)
    requires Numbered(Log(rows, run))
    requires forall e :: e in rows && e.runId == run ==> e.organizationId == org
    ensures Matching(rows, org, run, after) == Drop(Log(rows, run), after)
  {
    if rows != [] {
      NumberedInit(rows, run);
      MatchingIsDrop(rows[..|rows| - 1], org, run, after);
    }
  }

  lemma {:induction false} OrderOfOrdered(rows: seq<RunEvent>)
    requires forall i :: 0 < i < |rows| ==> rows[i - 1].sequence <= rows[i].sequence
    ensures OrderBySequence(rows) == rows
  {
    if rows != [] {
      var init, last := rows[..|rows| - 1], rows[|rows| - 1];
      OrderOfOrdered(init);
      InsertLast(init, last);
    }
  }

  lemma InsertLast(sorted: seq<RunEvent>, e: RunEvent)
    requires sorted == [] || sorted[|sorted| - 1].sequence <= e.sequence
    ensures Insert(sorted, e) == sorted + [e]
  {
  }

  predicate Sorted(rows: seq<RunEvent>)
  {
    forall i, j :: 0 <= i < j < |rows| ==> rows[i].sequence <= rows[j].sequence
  }

  lemma {:induction false} InsertIsBounded(sorted: seq<RunEvent>, e: RunEvent, bound: nat)
    requires e.sequence <= bound && forall i :: 0 <= i < |sorted| ==> sorted[i].sequence <= bound
    ensures forall i :: 0 <= i < |Insert(sorted, e)| ==> Insert(sorted, e)[i].sequence <= bound
    decreases |sorted|
  {
    if sorted != [] {
      InsertIsBounded(sorted[..|sorted| - 1], e, bound);
    }
  }

  lemma {:induction false} InsertAdds(sorted: seq<RunEvent>, e: RunEvent)
    ensures multiset(Insert(sorted, e)) == multiset(sorted) + multiset{e}
    decreases |sorted|
  {
    if sorted != [] {
      assert sorted == sorted[..|sorted| - 1] + [sorted[|sorted| - 1]];
      InsertAdds(sorted[..|sorted| - 1], e);
    }
  }

  lemma {:induction false} InsertSorts(sorted: seq<RunEvent>, e: RunEvent)
    requires Sorted(sorted)
    ensures Sorted(Insert(sorted, e))
    decreases |sorted|
  {
    var n := |sorted|;
    if n > 0 && sorted[n - 1].sequence > e.sequence {
      InsertSorts(sorted[..n - 1], e);
      InsertIsBounded(sorted[..n - 1], e, sorted[n - 1].sequence);
    }
  }

  /** Whatever order the table gives its rows in, the query's are the same rows, in order. */
  lemma {:induction false} OrderSorts(rows: seq<RunEvent>)
    ensures Sorted(OrderBySequence(rows)) && multiset(OrderBySequence(rows)) == multiset(rows)
  {
    if rows != [] {
      var init, last := rows[..|rows| - 1], rows[|rows| - 1];
      OrderSorts(init);
      InsertSorts(OrderBySequence(init), last);
      InsertAdds(OrderBySequence(init), last);
      assert rows == init + [last];
    }
  }

  /**
   * Resumption is exact: a query from any cursor returns the log without its
   * first `after` events, in order.
   */
  lemma EventsSinceIsSuffix(rows: seq<RunEvent>, org: OrganizationId, run: RunId, after: int)
    requires Numbered(Log(rows, run))
    requires forall e :: e in rows && e.runId == run ==> e.organizationId == org
    ensures EventsSince(rows, org, run, after) == Drop(Log(rows, run), after)
  {
    MatchingIsDrop(rows, org, run, after);
    OrderOfOrdered(Drop(Log(rows, run), after));
  }

  /** No query made for another organization sees a run's events. */
  lemma {:induction false} EventsSinceIsScoped(rows: seq<RunEvent>, org: OrganizationId, run: RunId, after: int)
    requires forall e :: e in rows && e.runId == run ==> e.organizationId != org
    ensures Matching(rows, org, run, after) == [] == EventsSince(rows, org, run, after)
  {
    if rows != [] {
      EventsSinceIsScoped(rows[..|rows| - 1], org, run, after);
    }
  }

  lemma LogAppend(rows: seq<RunEvent>, e: RunEvent)
    ensures forall run :: Log(rows + [e], run) == if run == e.runId then Log(rows, run) + [e] else Log(rows, run)
  {
    assert (rows + [e])[..|rows|] == rows;
  }

  /** The table; `owner` is the immutable `organization_id` of each run row. */
  class EventTable {
    var rows: seq<RunEvent>
    const owner: RunId -> OrganizationId

    ghost predicate Valid()
      reads this
    {
      && (forall e :: e in rows ==> e.organizationId == owner(e.runId))
      && (forall run :: Numbered(Log(rows, run)))
    }

    constructor (owner: RunId -> OrganizationId)
      ensures Valid() && rows == [] && this.owner == owner
    {
      this.owner := owner;
      rows := [];
    }

    method AppendEvent(run: RunId, eventType: string, data: string) returns (event: RunEvent)
      requires Valid()
      modifies this
      ensures Valid()
      ensures event == RunEvent(run, owner(run), |old(Log(rows, run))| + 1, eventType, data)
      ensures rows == old(rows) + [event] && Log(rows, run) == old(Log(rows, run)) + [event]
      ensures forall other :: other != run ==> Log(rows, other) == old(Log(rows, other))
    {
      MaxSequenceOfLog(rows, run);
      var nextSequence := MaxSequence(rows, run) + 1;
      event := RunEvent(run, owner(run), nextSequence, eventType, data);
      rows := rows + [event];
      LogAppend(old(rows), event);
    }
  }
}
