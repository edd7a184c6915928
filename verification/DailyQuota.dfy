/**
 * The daily run quota under concurrency: `consume_daily_quota` and `_ensure_usage_row`
 * of backend/app/services/run_store.py, for one organization and one day. A step is
 * one SQL statement; the guarded UPDATE holds its row lock until commit or rollback.
 */
module DailyQuota {
  import opened Wrappers

  /** Where one call stands between two statements. */
  datatype Place =
    | Selecting
    | Inserting
    | Updating
    | Committing
    | Accepted
    | Exceeded

  /**
   * `rows` are the committed rows for the day, `holder` the call whose UPDATE has the
   * row locked with an increment not yet committed.
   */
  datatype Database = Database(rows: seq<nat>, holder: Option<nat>, calls: seq<Place>)

  /** A call can take a step unless it is done, or waits for another's row lock. */
  predicate CanStep(d: Database, call: nat)
  {
    && call < |d.calls|
    && d.calls[call] != Accepted && d.calls[call] != Exceeded
    && (d.calls[call] == Updating ==> d.holder == None)
  }

  function Step(d: Database, call: nat, limit: int): Database
    requires CanStep(d, call)
  {
    match d.calls[call]
    case Selecting => d.(calls := d.calls[call := if d.rows == [] then Inserting else Updating])
    case Inserting =>
      // INSERT and COMMIT; the unique constraint turns a second row into a rollback.
      d.(rows := if d.rows == [] then [0] else d.rows, calls := d.calls[call := Updating])
    case Updating =>
      if d.rows != [] && d.rows[0] < limit then d.(holder := Some(call), calls := d.calls[call := Committing])
      else d.(calls := d.calls[call := Exceeded])
    case Committing =>
      d.(rows := if d.rows == [] then [] else d.rows[0 := d.rows[0] + 1], holder := None,
         calls := d.calls[call := Accepted])
    case _ => d
  }

  lemma {:induction false} CountUpdate(calls: seq<Place>, i: nat, to: Place, place: Place)
    requires i < |calls|
    ensures Count(calls[i := to], place)
         == Count(calls, place) - (if calls[i] == place then 1 else 0) + if to == place then 1 else 0
    decreases |calls|
  {
    var n := |calls| - 1;
    if i < n {
      assert calls[i := to][..n] == calls[..n][i := to];
      CountUpdate(calls[..n], i, to, place);
    } else {
      assert calls[i := to][..n] == calls[..n];
    }
  }

  /** The committed count of the day; no row counts as none. */
  function Runs(d: Database): nat
  {
    if d.rows == [] then 0 else d.rows[0]
  }

  function Cap(before: nat, limit: int): nat
  {
    if limit > before then limit else before
  }

  /**
   * One row at most; the count is what the day began with plus the accepted calls;
   * it never passes the limit; a call is refused only once the limit is reached; and
   * only the lock's holder is between its UPDATE and its commit.
   */
  ghost predicate Inv(d: Database, before: nat, limit: int)
  {
    && |d.rows| <= 1
    && Runs(d) == before + Count(d.calls, Accepted)
    && Runs(d) <= Cap(before, limit)
    && (Count(d.calls, Exceeded) > 0 ==> Runs(d) >= limit)
    && (forall i :: 0 <= i < |d.calls| ==>
          (d.calls[i] == Committing <==> d.holder == Some(i))
          && (d.rows == [] ==> d.calls[i] == Selecting || d.calls[i] == Inserting))
    && (d.holder.Some? ==> d.holder.value < |d.calls| && Runs(d) < limit)
  }

  lemma StepKeepsInv(d: Database, call: nat, before: nat, limit: int)
    requires CanStep(d, call) && Inv(d, before, limit)
    ensures Inv(Step(d, call, limit), before, limit)
  {
    var to := Step(d, call, limit).calls[call];
    CountUpdate(d.calls, call, to, Accepted);
    CountUpdate(d.calls, call, to, Exceeded);
  }

  /** A schedule of statements; `None` if it asks for a step that cannot be taken. */
  function Run(d: Database, schedule: seq<nat>, limit: int): Option<Database>
  {
    if schedule == [] then Some(d)
    else
      match Run(d, schedule[..|schedule| - 1], limit)
      case None => None
      case Some(e) =>
        var call := schedule[|schedule| - 1];
        if CanStep(e, call) then Some(Step(e, call, limit)) else None
  }

  /** `k` calls about to begin, on a day without a row or with `before` runs counted. */
  function Fresh(k: nat, row: Option<nat>): Database
  {
    Database(row.ToSeq(), None, seq(k, _ => Selecting))
  }

  lemma {:induction false} CountOfFresh(k: nat, place: Place)
    requires place != Selecting
    ensures Count(seq(k, _ => Selecting), place) == 0
    decreases k
  {
    if k > 0 {
      var calls := seq(k, _ => Selecting);
      assert calls[..k - 1] == seq(k - 1, _ => Selecting);
      CountOfFresh(k - 1, place);
    }
  }

  lemma {:induction false} EveryScheduleKeepsInv(k: nat, row: Option<nat>, schedule: seq<nat>, limit: int)
    requires Run(Fresh(k, row), schedule, limit).Some?
    ensures var d := Run(Fresh(k, row), schedule, limit).value;
            |d.calls| == k && Inv(d, Runs(Fresh(k, row)), limit)
    decreases |schedule|
  {
    if schedule == [] {
      CountOfFresh(k, Accepted);
      CountOfFresh(k, Exceeded);
    } else {
      EveryScheduleKeepsInv(k, row, schedule[..|schedule| - 1], limit);
      var d := Run(Fresh(k, row), schedule[..|schedule| - 1], limit).value;
      StepKeepsInv(d, schedule[|schedule| - 1], Runs(Fresh(k, row)), limit);
    }
  }

  lemma {:induction false} CountedOccurs(calls: seq<Place>, place: Place) returns (i: nat)
    requires Count(calls, place) > 0
    ensures i < |calls| && calls[i] == place
  {
    i := |calls| - 1;
    if calls[i] != place {
      i := CountedOccurs(calls[..i], place);
    }
  }

  lemma {:induction false} DoneCallsAddUp(calls: seq<Place>)
    requires forall i :: 0 <= i < |calls| ==> calls[i] == Accepted || calls[i] == Exceeded
    ensures Count(calls, Accepted) + Count(calls, Exceeded) == |calls|
  {
    if calls != [] {
      DoneCallsAddUp(calls[..|calls| - 1]);
    }
  }

  /**
   * Any interleaving: one row at most, exactly one once a call is done, the count is exactly the accepted calls on top
   * of what was there and never passes the limit, and when all are done as many were
   * accepted as there was allowance.
   */
  lemma QuotaIsExact(k: nat, row: Option<nat>, schedule: seq<nat>, limit: int)
    requires Run(Fresh(k, row), schedule, limit).Some?
    ensures var d := Run(Fresh(k, row), schedule, limit).value;
            var before := Runs(Fresh(k, row));
            && |d.calls| == k && |d.rows| <= 1
            && (Count(d.calls, Accepted) + Count(d.calls, Exceeded) > 0 ==> |d.rows| == 1)
            && Runs(d) == before + Count(d.calls, Accepted) <= Cap(before, limit)
            && ((forall i :: 0 <= i < k ==> d.calls[i] == Accepted || d.calls[i] == Exceeded) ==>
                  Count(d.calls, Accepted) == Min(k, Cap(before, limit) - before))
  {
    EveryScheduleKeepsInv(k, row, schedule, limit);
    var d := Run(Fresh(k, row), schedule, limit).value;
    if Count(d.calls, Accepted) > 0 {
      var i := CountedOccurs(d.calls, Accepted);
    } else if Count(d.calls, Exceeded) > 0 {
      var i := CountedOccurs(d.calls, Exceeded);
    }
    if forall i :: 0 <= i < k ==> d.calls[i] == Accepted || d.calls[i] == Exceeded {
      DoneCallsAddUp(d.calls);
    }
  }

  /** No deadlock: until every call is done, some call can take a step. */
  lemma SomeCallCanStep(d: Database, before: nat, limit: int, i: nat) returns (call: nat)
    requires Inv(d, before, limit)
    requires i < |d.calls| && d.calls[i] != Accepted && d.calls[i] != Exceeded
    ensures CanStep(d, call)
  {
    call := if d.holder.Some? then d.holder.value else i;
  }
}
