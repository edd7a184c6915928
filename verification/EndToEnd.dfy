/**
 * From the worker's commits to the browser: commits are written through the event
 * table, polls look at the table as it grows, and the client reads what they print.
 */
module EndToEnd {
  import opened Wrappers
  import opened RunEvents
  import opened Rows
  import opened EventStream
  import opened RunStream
  import opened RunHistory

  // ------------------------------------------------- commits become table rows

  /** One transaction of the worker: the row's change, with the event it appends. */
  method Write(table: EventTable, id: RunId, row: Run, c: Commit, json: Entry -> string) returns (next: Run)
    requires table.Valid() && Log(table.rows, id) == EventsOf(row.log, table.owner(id), id, json)
    modifies table
    ensures table.Valid() && next == Apply(row, c)
    ensures Log(table.rows, id) == EventsOf(next.log, table.owner(id), id, json)
    ensures old(table.rows) <= table.rows
    ensures forall other :: other != id ==> Log(table.rows, other) == old(Log(table.rows, other))
  {
    next := Apply(row, c);
    if Terminal(row.status) || c.Runs? {
      return;
    }
    var entry := match c
      case Reports(kind) => Entry.Progress(kind)
      case Completes(_, citations, _) => CompletedEntry(|citations|)
      case FailsWith(message, _) => FailedEntry(message)
      case Runs(_) => Started;
    AppendsOne(row, c, entry);
    Append(table, id, row.log, entry, json);
  }

  /** The entry a commit adds to its row's log. */
  lemma AppendsOne(row: Run, c: Commit, entry: Entry)
    requires !Terminal(row.status) && !c.Runs?
    requires match c
             case Reports(kind) => entry == Entry.Progress(kind)
             case Completes(_, citations, _) => entry == CompletedEntry(|citations|)
             case FailsWith(message, _) => entry == FailedEntry(message)
             case Runs(_) => true
    ensures Apply(row, c).log == row.log + [entry]
  {
  }

  method Append(table: EventTable, id: RunId, ghost log: seq<Entry>, entry: Entry, json: Entry -> string)
    requires table.Valid() && Log(table.rows, id) == EventsOf(log, table.owner(id), id, json)
    modifies table
    ensures table.Valid() && old(table.rows) <= table.rows
    ensures Log(table.rows, id) == EventsOf(log + [entry], table.owner(id), id, json)
    ensures forall other :: other != id ==> Log(table.rows, other) == old(Log(table.rows, other))
  {
    EventsAreAppended(log, entry, table.owner(id), id, json);
    var _ := table.AppendEvent(id, EventType(entry), json(entry));
  }

  // ----------------------------------------------------------------- a history

  /**
   * A run's commits, and the whole table at successive times: `done[t]` of the commits
   * have been made at time `t`, and other runs' events come in between.
   */
  datatype History = History(run: Run, commits: seq<Commit>, tables: seq<seq<RunEvent>>, done: seq<nat>)

  function RowAt(h: History, t: nat): Run
    requires t < |h.done| && h.done[t] <= |h.commits|
  {
    ApplyAll(h.run, h.commits[..h.done[t]])
  }

  ghost predicate IsHistory(h: History, org: OrganizationId, id: RunId, json: Entry -> string)
  {
    && |h.tables| == |h.done| > 0 && h.done[|h.done| - 1] == |h.commits|
    && (forall s, t :: 0 <= s <= t < |h.tables| ==> h.tables[s] <= h.tables[t] && h.done[s] <= h.done[t])
    && (forall t :: 0 <= t < |h.tables| ==>
          h.done[t] <= |h.commits| && Log(h.tables[t], id) == EventsOf(RowAt(h, t).log, org, id, json))
    && (forall e :: e in h.tables[|h.tables| - 1] && e.runId == id ==> e.organizationId == org)
  }

  /** The first table of a history, before any commit is written. */
  lemma HistoryBegins(table: EventTable, id: RunId, row: Run, json: Entry -> string)
    requires table.Valid() && Log(table.rows, id) == EventsOf(row.log, table.owner(id), id, json)
    ensures IsHistory(History(row, [], [table.rows], [0]), table.owner(id), id, json)
  {
    assert row == ApplyAll(row, []);
  }

  /** A history goes on with one more commit of the run, or with none, as the table grows. */
  lemma HistoryGoesOn(
    h: History, c: Option<Commit>, rows: seq<RunEvent>, next: History,
    org: OrganizationId, id: RunId, json: Entry -> string)
    requires IsHistory(h, org, id, json) && h.tables[|h.tables| - 1] <= rows
    requires forall e :: e in rows && e.runId == id ==> e.organizationId == org
    requires next == History(h.run, h.commits + c.ToSeq(), h.tables + [rows], h.done + [|h.commits| + |c.ToSeq()|])
    requires Log(rows, id) == EventsOf(ApplyAll(h.run, next.commits).log, org, id, json)
    ensures IsHistory(next, org, id, json)
  {
    forall t | 0 <= t < |next.tables|
      ensures next.done[t] <= |next.commits|
           && Log(next.tables[t], id) == EventsOf(RowAt(next, t).log, org, id, json)
    {
      if t < |h.tables| {
        assert h.done[t] <= |h.commits|;
        assert next.commits[..next.done[t]] == h.commits[..h.done[t]];
        assert RowAt(next, t) == RowAt(h, t);
      } else {
        assert next.commits[..next.done[t]] == next.commits;
      }
    }
    Grows(h.tables, rows, h.done, |next.commits|);
  }

  lemma Grows(tables: seq<seq<RunEvent>>, rows: seq<RunEvent>, done: seq<nat>, n: nat)
    requires |tables| == |done| > 0 && tables[|tables| - 1] <= rows && done[|done| - 1] <= n
    requires forall s, t :: 0 <= s <= t < |tables| ==> tables[s] <= tables[t] && done[s] <= done[t]
    ensures forall s, t :: 0 <= s <= t <= |tables| ==>
              (tables + [rows])[s] <= (tables + [rows])[t] && (done + [n])[s] <= (done + [n])[t]
  {
    var last := |tables| - 1;
    forall s, t | 0 <= s <= t <= |tables|
      ensures (tables + [rows])[s] <= (tables + [rows])[t] && (done + [n])[s] <= (done + [n])[t]
    {
      if s <= last && t > last {
        assert tables[s] <= tables[last] <= rows && done[s] <= done[last] <= n;
      }
    }
  }

  function SourceOf(h: History, org: OrganizationId, id: RunId): Source
    requires h.tables != []
  {
    Source(h.tables[|h.tables| - 1], org, id)
  }

  /** The log of a run's last table is its row's log, numbered. */
  lemma HistoryIsSource(h: History, org: OrganizationId, id: RunId, json: Entry -> string)
    requires IsHistory(h, org, id, json)
    requires AllPrintable(EventsOf(ApplyAll(h.run, h.commits).log, org, id, json))
    ensures var source := SourceOf(h, org, id);
            && source.Valid()
            && source.Events() == EventsOf(ApplyAll(h.run, h.commits).log, org, id, json)
  {
    assert h.commits[..|h.commits|] == h.commits;
    assert RowAt(h, |h.tables| - 1) == ApplyAll(h.run, h.commits);
  }

  // ------------------------------------------------------------------- polling

  /** What a query at time `t` sees: the table, and whether the run is terminal. */
  function Look(h: History, t: nat): Snapshot
    requires t < |h.tables| && t < |h.done| && h.done[t] <= |h.commits|
  {
    Snapshot(h.tables[t], Terminal(RowAt(h, t).status))
  }

  ghost predicate Within(h: History, moments: seq<Moment>)
  {
    && |h.tables| == |h.done| > 0 && (forall t :: 0 <= t < |h.done| ==> h.done[t] <= |h.commits|)
    && InOrder(moments, |h.tables| - 1)
  }

  function Polls(h: History, moments: seq<Moment>): (ticks: seq<Tick>)
    requires Within(h, moments)
    ensures |ticks| == |moments|
  {
    seq(|moments|, k requires 0 <= k < |moments| => Tick(Look(h, moments[k].atEvents), Look(h, moments[k].atStatus)))
  }

  /** The same moments counted in the run's own commits. */
  function InCommits(h: History, moments: seq<Moment>): (counted: seq<Moment>)
    requires Within(h, moments)
    ensures |counted| == |moments|
    ensures forall k :: 0 <= k < |moments| ==>
              counted[k].atEvents <= |h.commits| && counted[k].atStatus <= |h.commits|
  {
    seq(|moments|, k requires 0 <= k < |moments| =>
      Moment(h.done[moments[k].atEvents], h.done[moments[k].atStatus]))
  }

  lemma PollsAreAppendOnly(
    h: History, moments: seq<Moment>, org: OrganizationId, id: RunId, json: Entry -> string)
    requires IsHistory(h, org, id, json) && Within(h, moments)
    ensures AppendOnly(Polls(h, moments), h.tables[|h.tables| - 1])
    ensures InOrder(InCommits(h, moments), |h.commits|)
  {
    var ticks, last := Polls(h, moments), |h.tables| - 1;
    forall k | 0 <= k < |ticks|
      ensures ticks[k].atEvents.rows <= ticks[k].atStatus.rows <= h.tables[last]
    {
      assert h.tables[moments[k].atEvents] <= h.tables[moments[k].atStatus] <= h.tables[last];
    }
    forall k, l | 0 <= k < l < |ticks| ensures ticks[k].atStatus.rows <= ticks[l].atEvents.rows {
      assert h.tables[moments[k].atStatus] <= h.tables[moments[l].atEvents];
    }
  }

  /** Seen as numbers, polls of the table are polls of the run's history. */
  lemma PollsAreTicksAt(
    h: History, moments: seq<Moment>, org: OrganizationId, id: RunId, json: Entry -> string)
    requires IsHistory(h, org, id, json) && Within(h, moments)
    ensures Views(Polls(h, moments), id) == TicksAt(h.run, h.commits, InCommits(h, moments))
  {
    var views, ticks := Views(Polls(h, moments), id), TicksAt(h.run, h.commits, InCommits(h, moments));
    forall k | 0 <= k < |views| ensures views[k] == ticks[k] {
      assert Log(h.tables[moments[k].atEvents], id) == EventsOf(RowAt(h, moments[k].atEvents).log, org, id, json);
      assert Log(h.tables[moments[k].atStatus], id) == EventsOf(RowAt(h, moments[k].atStatus).log, org, id, json);
    }
  }

  // ---------------------------------------------------------------- the reader

  /** A connection to a run while the worker writes it. */
  ghost predicate Reads(
    c: Connection, h: History, moments: seq<Moment>, org: OrganizationId, id: RunId, json: Entry -> string)
  {
    && IsHistory(h, org, id, json) && Within(h, moments)
    && AllPrintable(EventsOf(ApplyAll(h.run, h.commits).log, org, id, json))
    && c.ticks == Polls(h, moments)
  }

  /** Whatever the worker commits meanwhile, the client's theorems apply to its connection. */
  lemma ReaderIsServed(
    c: Connection, h: History, moments: seq<Moment>, org: OrganizationId, id: RunId, json: Entry -> string)
    requires Reads(c, h, moments, org, id, json)
    ensures var source := SourceOf(h, org, id); source.Valid() && Serves(c, source)
  {
    HistoryIsSource(h, org, id, json);
    PollsAreAppendOnly(h, moments, org, id, json);
  }

  /**
   * From the worker's commits to the frames the client processes: a connection that is
   * open, is not cut short and is ended by the server brings the client from event `a`
   * to the end of the run's log if and only if the first poll that saw the run terminal
   * read something new, or all had been sent before.
   */
  lemma ReaderGetsWholeRun(
    c: Connection, h: History, moments: seq<Moment>, org: OrganizationId, id: RunId, json: Entry -> string, a: nat)
    requires Reads(c, h, moments, org, id, json) && a <= |ApplyAll(h.run, h.commits).log|
    requires Opens(c) && c.arrives == None
    requires Follow(TicksAt(h.run, h.commits, InCommits(h, moments)), 0, a, 0.0).end == Finished
    ensures var ticks, n := TicksAt(h.run, h.commits, InCommits(h, moments)), |ApplyAll(h.run, h.commits).log|;
            var j := FirstFinished(ticks, 0);
            && j < |ticks|
            && (a + Delivered(c, SourceOf(h, org, id), a) == n
                <==> ticks[j].read > ReadBefore(ticks, a, j) || ReadBefore(ticks, a, j) >= n)
  {
    OpenMeans(c);
    ReaderIsServed(c, h, moments, org, id, json);
    HistoryIsSource(h, org, id, json);
    PollsAreTicksAt(h, moments, org, id, json);
    PollsAreAppendOnly(h, moments, org, id, json);
    StreamOfHistoryIsWhole(h.run, h.commits, InCommits(h, moments), a);
    ReachedWithinLog(c, SourceOf(h, org, id), a);
  }
}
