/**
 * Two deliveries of one run at once: a job lapses while its worker lives and another
 * worker takes it. Neither looks at the row again after its first check, so both may
 * write a terminal event; this is exactly when, for deliveries whose work succeeds.
 */
module RunOverlap {
  import opened Wrappers
  import opened Rows

  /** Where a delivery stands; `Raised` when its completion broke a unique constraint. */
  datatype Stage = Unchecked | Passed | Working | Refused | Finished | Raised

  datatype Event =
    | Checks(w: nat)
    | Starts(w: nat, now: Time)
    | Reports(w: nat, kind: string)
    | Completes(w: nat, answer: string, citations: seq<string>, now: Time)

  datatype State = State(run: Run, stages: seq<Stage>)

  predicate Possible(s: State, e: Event)
  {
    && e.w < |s.stages|
    && match e
       case Checks(w) => s.stages[w] == Unchecked
       case Starts(w, _) => s.stages[w] == Passed
       case Reports(w, _) => s.stages[w] == Working
       case Completes(w, _, _, _) => s.stages[w] == Working
  }

  /** Citations are unique by run and position, so only one delivery's can be stored. */
  function Step(s: State, e: Event): State
    requires Possible(s, e)
  {
    match e
    case Checks(w) => s.(stages := s.stages[w := if Terminal(s.run.status) then Refused else Passed])
    case Starts(w, now) => State(MarkRunning(s.run, now), s.stages[w := Working])
    case Reports(w, kind) => s.(run := Emit(s.run, [kind]))
    case Completes(w, answer, citations, now) =>
      if s.run.citations != [] && citations != [] then s.(stages := s.stages[w := Raised])
      else State(MarkCompleted(s.run, answer, citations, now), s.stages[w := Finished])
  }

  function RunAll(s: State, events: seq<Event>): Option<State>
  {
    if events == [] then Some(s)
    else
      match RunAll(s, events[..|events| - 1])
      case None => None
      case Some(t) => if Possible(t, events[|events| - 1]) then Some(Step(t, events[|events| - 1])) else None
  }

  // ------------------------------------------------- what a schedule says of itself

  /** How many completions are attempted. */
  function Completions(events: seq<Event>): nat
  {
    if events == [] then 0
    else Completions(events[..|events| - 1]) + if events[|events| - 1].Completes? then 1 else 0
  }

  /** How many of them carry citations. */
  function Citing(events: seq<Event>): nat
  {
    if events == [] then 0
    else
      var last := events[|events| - 1];
      Citing(events[..|events| - 1]) + if last.Completes? && last.citations != [] then 1 else 0
  }

  /** A delivery looked at the row only after the other had completed. */
  predicate LateCheck(events: seq<Event>)
  {
    events != []
    && (LateCheck(events[..|events| - 1])
        || (events[|events| - 1].Checks? && Completions(events[..|events| - 1]) > 0))
  }

  // ----------------------------------------------------------------- the invariant

  predicate Before(stage: Stage)
  {
    stage == Unchecked || stage == Passed || stage == Working
  }

  function Written(stages: seq<Stage>): nat
    requires |stages| == 2
  {
    (if stages[0] == Finished then 1 else 0) + if stages[1] == Finished then 1 else 0
  }

  /** After `n` attempted completions, `citing` with citations: none yet, one, or two, `a` first. */
  ghost predicate Inv(s: State, n: nat, citing: nat, late: bool, a: nat)
  {
    && |s.stages| == 2 && a < 2 && n <= 2 && citing <= n
    && var first, second := s.stages[a], s.stages[1 - a];
    && TerminalEntries(s.run.log) == Written(s.stages)
    && if n == 0 then
         Before(first) && Before(second) && !Terminal(s.run.status) && s.run.citations == [] && !late
       else if n == 1 then
         && first == Finished && (Before(second) || second == Refused)
         && (second == Unchecked ==> Terminal(s.run.status))
         && (late <==> second == Refused)
         && (s.run.citations != [] <==> citing == 1)
       else first == Finished && !late && second == if citing == 2 then Raised else Finished
  }

  lemma ReportCounts(run: Run, kind: string)
    ensures TerminalEntries(Emit(run, [kind]).log) == TerminalEntries(run.log)
  {
    var more := seq(1, i requires 0 <= i < 1 => Progress([kind][i]));
    EmitCounts(run.log, more);
  }

  lemma CompletionCounts(run: Run, answer: string, citations: seq<string>, now: Time)
    ensures TerminalEntries(MarkCompleted(run, answer, citations, now).log) == TerminalEntries(run.log) + 1
  {
    assert (run.log + [CompletedEntry(|citations|)])[..|run.log|] == run.log;
  }

  lemma CheckKeepsInv(s: State, n: nat, citing: nat, late: bool, e: Event, a: nat)
    requires Inv(s, n, citing, late, a) && e.Checks? && Possible(s, e)
    ensures Inv(Step(s, e), n, citing, late || n > 0, a)
  {
  }

  lemma WorkKeepsInv(s: State, n: nat, citing: nat, late: bool, e: Event, a: nat)
    requires Inv(s, n, citing, late, a) && (e.Starts? || e.Reports?) && Possible(s, e)
    ensures Inv(Step(s, e), n, citing, late, a)
  {
    if e.Reports? {
      ReportCounts(s.run, e.kind);
    }
  }

  /** The first completion settles who was first. */
  lemma CompletionKeepsInv(s: State, n: nat, citing: nat, late: bool, e: Event, a: nat)
    requires Inv(s, n, citing, late, a) && e.Completes? && Possible(s, e)
    ensures Inv(Step(s, e), n + 1, citing + (if e.citations != [] then 1 else 0), late, if n == 0 then e.w else a)
  {
    CompletionCounts(s.run, e.answer, e.citations, e.now);
  }

  lemma StepKeepsInv(s: State, n: nat, citing: nat, late: bool, e: Event, a: nat) returns (b: nat)
    requires Inv(s, n, citing, late, a) && Possible(s, e)
    ensures Inv(Step(s, e), n + (if e.Completes? then 1 else 0),
                citing + (if e.Completes? && e.citations != [] then 1 else 0), late || (e.Checks? && n > 0), b)
  {
    b := a;
    match e {
      case Checks(_) => CheckKeepsInv(s, n, citing, late, e, a);
      case Completes(w, _, _, _) =>
        CompletionKeepsInv(s, n, citing, late, e, a);
        b := if n == 0 then w else a;
      case _ => WorkKeepsInv(s, n, citing, late, e, a);
    }
  }

  lemma {:induction false} EveryScheduleKeepsInv(s: State, events: seq<Event>) returns (a: nat)
    requires Inv(s, 0, 0, false, 0) && RunAll(s, events).Some?
    ensures Inv(RunAll(s, events).value, Completions(events), Citing(events), LateCheck(events), a)
    decreases |events|
  {
    if events == [] {
      a := 0;
    } else {
      var init, e := events[..|events| - 1], events[|events| - 1];
      var before := EveryScheduleKeepsInv(s, init);
      a := StepKeepsInv(RunAll(s, init).value, Completions(init), Citing(init), LateCheck(init), e, before);
    }
  }

  const UNCHECKED := [Unchecked, Unchecked]

  /** No delivery has a step left. */
  predicate Through(s: State)
  {
    forall w :: 0 <= w < |s.stages| ==> !Before(s.stages[w])
  }

  /**
   * Once both deliveries are through, the run's log has two terminal entries if both had
   * checked the row before either completed, unless both carried citations; otherwise
   * it has one.
   */
  lemma TwoTerminalEntriesExactlyWhen(run: Run, events: seq<Event>)
    requires Sound(run) && !Terminal(run.status)
    requires RunAll(State(run, UNCHECKED), events).Some? && Through(RunAll(State(run, UNCHECKED), events).value)
    ensures TerminalEntries(RunAll(State(run, UNCHECKED), events).value.run.log)
         == if !LateCheck(events) && Citing(events) < 2 then 2 else 1
  {
    var a := EveryScheduleKeepsInv(State(run, UNCHECKED), events);
    var s := RunAll(State(run, UNCHECKED), events).value;
    assert !Before(s.stages[a]) && !Before(s.stages[1 - a]);
  }

  /** `t` is reached by `events`, one event after `s`. */
  lemma RunAllNext(start: State, events: seq<Event>, s: State, e: Event, t: State)
    requires RunAll(start, events) == Some(s) && Possible(s, e) && Step(s, e) == t
    ensures RunAll(start, events + [e]) == Some(t)
  {
    assert (events + [e])[..|events|] == events;
  }

  lemma ChecksPass(run: Run)
    requires !Terminal(run.status)
    ensures var s := State(run, UNCHECKED);
            && Possible(s, Checks(0)) && Step(s, Checks(0)) == State(run, [Passed, Unchecked])
            && Possible(State(run, [Passed, Unchecked]), Checks(1))
            && Step(State(run, [Passed, Unchecked]), Checks(1)) == State(run, [Passed, Passed])
  {
    assert UNCHECKED[0 := Passed] == [Passed, Unchecked] && [Passed, Unchecked][1 := Passed] == [Passed, Passed];
  }

  lemma StartsGoOn(run: Run, now: Time)
    ensures var one := MarkRunning(run, now);
            && Step(State(run, [Passed, Passed]), Starts(0, now)) == State(one, [Working, Passed])
            && Step(State(one, [Working, Passed]), Starts(1, now)) == State(MarkRunning(one, now), [Working, Working])
  {
    assert [Passed, Passed][0 := Working] == [Working, Passed];
    assert [Working, Passed][1 := Working] == [Working, Working];
  }

  lemma CompletionsGoThrough(run: Run, now: Time)
    requires run.citations == []
    ensures var once := MarkCompleted(run, "first", [], now);
            && Step(State(run, [Working, Working]), Completes(0, "first", [], now)) == State(once, [Finished, Working])
            && Step(State(once, [Finished, Working]), Completes(1, "second", [], now))
            == State(MarkCompleted(once, "second", [], now), [Finished, Finished])
  {
    assert [Working, Working][0 := Finished] == [Finished, Working];
    assert [Finished, Working][1 := Finished] == [Finished, Finished];
  }

  /** Two workers take turns with a run's two deliveries. */
  function InTurn(now: Time): seq<Event>
  {
    [] + [Checks(0)] + [Checks(1)] + [Starts(0, now)] + [Starts(1, now)]
    + [Completes(0, "first", [], now)] + [Completes(1, "second", [], now)]
  }

  /** The input: a run answered twice, its first answer overwritten. */
  lemma AnsweredTwice(run: Run, now: Time)
    requires Sound(run) && !Terminal(run.status)
    ensures var end := RunAll(State(run, UNCHECKED), InTurn(now));
            && end.Some? && TerminalEntries(end.value.run.log) == 2
            && end.value.run.answer == Some("second")
  {
    var s, one := State(run, UNCHECKED), MarkRunning(run, now);
    var both := MarkRunning(one, now);
    var once := MarkCompleted(both, "first", [], now);
    ChecksPass(run);
    StartsGoOn(run, now);
    CompletionsGoThrough(both, now);
    CompletionCounts(both, "first", [], now);
    CompletionCounts(once, "second", [], now);
    RunTurns(run, now, State(MarkCompleted(once, "second", [], now), [Finished, Finished]));
  }

  lemma RunTurns(run: Run, now: Time, end: State)
    requires !Terminal(run.status) && run.citations == []
    requires var both := MarkRunning(MarkRunning(run, now), now);
             var once := MarkCompleted(both, "first", [], now);
             end == State(MarkCompleted(once, "second", [], now), [Finished, Finished])
    ensures RunAll(State(run, UNCHECKED), InTurn(now)) == Some(end)
  {
    var s, one := State(run, UNCHECKED), MarkRunning(run, now);
    var both := MarkRunning(one, now);
    var once := MarkCompleted(both, "first", [], now);
    ChecksPass(run);
    StartsGoOn(run, now);
    CompletionsGoThrough(both, now);
    var none: seq<Event> := [];
    assert RunAll(s, none) == Some(s);
    RunAllNext(s, none, s, Checks(0), State(run, [Passed, Unchecked]));
    var checked := none + [Checks(0)] + [Checks(1)];
    RunAllNext(s, none + [Checks(0)], State(run, [Passed, Unchecked]), Checks(1), State(run, [Passed, Passed]));
    RunAllNext(s, checked, State(run, [Passed, Passed]), Starts(0, now), State(one, [Working, Passed]));
    var started := checked + [Starts(0, now)];
    RunAllNext(s, started, State(one, [Working, Passed]), Starts(1, now), State(both, [Working, Working]));
    started := started + [Starts(1, now)];
    var first, second := Completes(0, "first", [], now), Completes(1, "second", [], now);
    RunAllNext(s, started, State(both, [Working, Working]), first, State(once, [Finished, Working]));
    RunAllNext(s, started + [first], State(once, [Finished, Working]), second, end);
  }
}
