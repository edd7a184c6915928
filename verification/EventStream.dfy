/**
 * The server's end of the stream, backend/app/api/routes/runs.py: the printer
 * `_sse`, the resume header `_parse_cursor`, and the polling loop `_event_stream`.
 */
module EventStream {
  import opened Wrappers
  import opened Text
  import opened RunEvents
  import opened SseFraming

  // ------------------------------------------------------ decimal numbers

  function DigitChar(d: nat): char
    requires d < 10
  {
    ('0' as int + d) as char
  }

  /** `str(n)`. */
  function Decimal(n: nat): (s: string)
    ensures s != "" && forall k :: 0 <= k < |s| ==> '0' <= s[k] <= '9'
  {
    if n < 10 then [DigitChar(n)] else Decimal(n / 10) + [DigitChar(n % 10)]
  }

  /** Decimal digits with single underscores between them. */
  function ParseDigits(s: string): Option<nat>
  {
    if s == "" || !('0' <= s[|s| - 1] <= '9') then None
    else
      var n: nat, digit: nat := |s| - 1, s[|s| - 1] as int - '0' as int;
      if n == 0 then Some(digit)
      else
        match ParseDigits(if s[n - 1] == '_' then s[..n - 1] else s[..n])
        case None => None
        case Some(high) => Some(10 * high + digit)
  }

  /** The integer a trimmed text is, with its sign. */
  function IntOf(t: string): Option<int>
  {
    var signed := t != "" && (t[0] == '+' || t[0] == '-');
    match ParseDigits(if signed then t[1..] else t)
    case None => None
    case Some(n) =>
      var magnitude: int := n;
      Some(if signed && t[0] == '-' then -magnitude else magnitude)
  }

  /** `int(s)` on ASCII digits; `None` is `ValueError`. */
  function PyInt(s: string): Option<int>
  {
    IntOf(Trim(Python, s))
  }

  function ParseCursor(lastEventId: Option<string>): (after: nat)
  {
    if lastEventId.None? || lastEventId.value == "" then 0
    else
      match PyInt(lastEventId.value)
      case None => 0
      case Some(n) => if n > 0 then n else 0
  }

  lemma {:induction false} ParseDigitsOfDecimal(n: nat)
    ensures ParseDigits(Decimal(n)) == Some(n)
  {
    if n >= 10 {
      ParseDigitsOfDecimal(n / 10);
      var s := Decimal(n);
      assert s[..|s| - 1] == Decimal(n / 10);
    }
  }

  lemma DecimalIsTrimmed(n: nat, w: Whitespace)
    ensures Trimmed(w, Decimal(n))
  {
    var s := Decimal(n);
    assert '0' <= s[0] <= '9' && '0' <= s[|s| - 1] <= '9';
  }

  /** A printed id, sent back as `Last-Event-ID`, is the number it was. */
  lemma CursorRoundTrip(n: nat)
    ensures ParseCursor(Some(Decimal(n))) == n
  {
    DecimalIsTrimmed(n, Python);
    TrimOfTrimmed(Python, Decimal(n));
    ParseDigitsOfDecimal(n);
  }

  /** Digits with single underscores between them. */
  predicate IsNumeral(s: string)
  {
    && s != "" && '0' <= s[0] <= '9' && '0' <= s[|s| - 1] <= '9'
    && (forall k :: 0 <= k < |s| ==> '0' <= s[k] <= '9' || s[k] == '_')
    && (forall k :: 0 < k < |s| && s[k] == '_' ==> s[k - 1] != '_')
  }

  /** `int` accepts numerals and nothing else. */
  lemma {:induction false} ParsesExactlyNumerals(s: string)
    ensures ParseDigits(s).Some? <==> IsNumeral(s)
    decreases |s|
  {
    var n := |s| - 1;
    if n > 0 && '0' <= s[n] <= '9' {
      var high := if s[n - 1] == '_' then s[..n - 1] else s[..n];
      ParsesExactlyNumerals(high);
      NumeralOfHigh(s, high);
    }
  }

  lemma NumeralOfHigh(s: string, high: string)
    requires |s| > 1 && '0' <= s[|s| - 1] <= '9'
    requires var n := |s| - 1; high == if s[n - 1] == '_' then s[..n - 1] else s[..n]
    ensures IsNumeral(s) <==> IsNumeral(high)
  {
    var n := |s| - 1;
    if IsNumeral(high) {
      assert high[0] == s[0] && high[|high| - 1] == s[|high| - 1];
      forall k | 0 <= k < |s| ensures '0' <= s[k] <= '9' || s[k] == '_' {
        assert k < |high| ==> s[k] == high[k];
      }
      forall k | 0 < k < |s| && s[k] == '_' ensures s[k - 1] != '_' {
        assert k < |high| ==> s[k] == high[k];
        assert k - 1 < |high| ==> s[k - 1] == high[k - 1];
      }
    }
    if IsNumeral(s) {
      assert forall k :: 0 <= k < |high| ==> high[k] == s[k];
      assert s[n - 1] == '_' ==> s[n - 2] != '_';
    }
  }

  /** What `_parse_cursor` makes of no header, an empty one, and one that is not a number. */
  lemma CursorOfOthers(header: string)
    ensures ParseCursor(None) == 0 && ParseCursor(Some("")) == 0
    ensures var t := Trim(Python, header);
            !IsNumeral(t) && !(t != "" && (t[0] == '+' || t[0] == '-') && IsNumeral(t[1..])) ==>
              ParseCursor(Some(header)) == 0
  {
    var t := Trim(Python, header);
    ParsesExactlyNumerals(t);
    if t != "" {
      ParsesExactlyNumerals(t[1..]);
    }
  }

  lemma IntOfDecimal(n: nat)
    ensures IntOf(Decimal(n)) == Some(n) && Trimmed(Python, Decimal(n))
  {
    DecimalIsTrimmed(n, Python);
    ParseDigitsOfDecimal(n);
  }

  lemma SignedIsTrimmed(sign: char, n: nat)
    requires sign == '+' || sign == '-'
    ensures Trimmed(Python, [sign] + Decimal(n))
  {
    var s, t := Decimal(n), [sign] + Decimal(n);
    assert t[0] == sign && t[|t| - 1] == s[|s| - 1];
  }

  lemma IntOfSigned(sign: char, s: string, n: nat, m: int)
    requires (sign == '+' && m == n) || (sign == '-' && m + n == 0)
    requires ParseDigits(s) == Some(n)
    ensures IntOf([sign] + s) == Some(m)
  {
    var t := [sign] + s;
    assert t[0] == sign && t[1..] == s;
  }

  lemma CursorOfPadded(pre: string, t: string, post: string, n: int)
    requires Blank(Python, pre) && Blank(Python, post) && t != "" && Trimmed(Python, t) && IntOf(t) == Some(n)
    ensures ParseCursor(Some(pre + t + post)) == if n > 0 then n else 0
  {
    TrimOfPadded(Python, pre, t, post);
  }

  /** A number may have whitespace around it. */
  lemma CursorOfNumber(n: nat, pre: string, post: string)
    requires Blank(Python, pre) && Blank(Python, post)
    ensures ParseCursor(Some(pre + Decimal(n) + post)) == n
  {
    IntOfDecimal(n);
    CursorOfPadded(pre, Decimal(n), post, n);
  }

  /** It may carry a sign too; a negative one starts over. */
  lemma CursorOfSigned(sign: char, n: nat, m: int, pre: string, post: string)
    requires (sign == '+' && m == n) || (sign == '-' && m + n == 0)
    requires Blank(Python, pre) && Blank(Python, post)
    ensures ParseCursor(Some(pre + ([sign] + Decimal(n)) + post)) == if m > 0 then m else 0
  {
    ParseDigitsOfDecimal(n);
    IntOfSigned(sign, Decimal(n), n, m);
    SignedIsTrimmed(sign, n);
    CursorOfPadded(pre, [sign] + Decimal(n), post, m);
  }

  // ------------------------------------------------------------ the printer

  function FieldLine(name: string, value: string): string
  {
    name + ": " + value
  }

  /** The three lines of a frame; a blank line follows them. */
  function SseLines(e: RunEvent): string
  {
    FieldLine("id", Decimal(e.sequence)) + [LF] + FieldLine("event", e.eventType) + [LF]
    + FieldLine("data", e.data)
  }

  function Sse(e: RunEvent): string
  {
    SseLines(e) + [LF, LF]
  }

  predicate NoBreak(s: string)
  {
    LF !in s && CR !in s
  }

  /** What the writers of events guarantee: bare names and single-line JSON. */
  predicate Printable(e: RunEvent)
  {
    NoBreak(e.eventType) && Trimmed(JavaScript, e.eventType) && NoBreak(e.data)
  }

  ghost predicate AllPrintable(events: seq<RunEvent>)
  {
    forall i {:trigger Printable(events[i])} :: 0 <= i < |events| ==> Printable(events[i])
  }

  lemma SlicePrintable(events: seq<RunEvent>, a: nat, b: nat)
    requires AllPrintable(events) && a <= b <= |events|
    ensures AllPrintable(events[a..b])
  {
    forall i | 0 <= i < |events[a..b]| ensures Printable(events[a..b][i]) {
      assert Printable(events[a + i]);
    }
  }

  function PrintAll(events: seq<RunEvent>): string
  {
    if events == [] then "" else Sse(events[0]) + PrintAll(events[1..])
  }

  /** The frame a reader should see for an event. */
  function FrameFor(e: RunEvent): SseFrame
  {
    SseFrame(Some(e.eventType), e.data, Some(Decimal(e.sequence)))
  }

  function FramesFor(events: seq<RunEvent>): (frames: seq<SseFrame>)
    ensures |frames| == |events|
  {
    seq(|events|, i requires 0 <= i < |events| => FrameFor(events[i]))
  }

  // --------------------------------------------------- print, then parse

  /** A line `name: value` applies the field it names, value untouched. */
  lemma ApplyFieldLine(f: Fields, name: string, value: string)
    requires name != "" && ':' !in name
    ensures ApplyLine(f, FieldLine(name, value)) == ApplyField(f, name, value)
  {
    var line := FieldLine(name, value);
    assert line == name + [':'] + ([' '] + value);
    assert line[..|name|] == name && line[|name| + 1..] == [' '] + value;
    IndexOfFirst(name, ':', [' '] + value);
    assert ([' '] + value)[1..] == value;
  }

  lemma ApplyIdField(f: Fields, value: string)
    requires Trimmed(JavaScript, value)
    ensures ApplyLine(f, FieldLine("id", value)) == f.(id := Some(value))
  {
    assert ':' !in "id" && "id" != "event" && "id" != "data";
    ApplyFieldLine(f, "id", value);
    TrimOfTrimmed(JavaScript, value);
  }

  lemma ApplyEventField(f: Fields, value: string)
    requires Trimmed(JavaScript, value)
    ensures ApplyLine(f, FieldLine("event", value)) == f.(event := Some(value))
  {
    assert ':' !in "event";
    ApplyFieldLine(f, "event", value);
    TrimOfTrimmed(JavaScript, value);
  }

  lemma ApplyDataField(f: Fields, value: string)
    ensures ApplyLine(f, FieldLine("data", value)) == f.(data := f.data + [value])
  {
    ApplyFieldLine(f, "data", value);
    assert "event" != "data";
  }

  lemma FrameOfLines(a: string, b: string, c: string)
    requires LF !in a && LF !in b && LF !in c
    ensures FrameOf(a + [LF] + b + [LF] + c)
         == Finish(ApplyLine(ApplyLine(ApplyLine(NO_FIELDS, a), b), c))
  {
    assert a + [LF] + b + [LF] + c == a + [LF] + (b + [LF] + c);
    LinesCons(a, b + [LF] + c);
    LinesCons(b, c);
    LinesOfLine(c);
    assert [c] == [c] + [];
    var f := ApplyLine(NO_FIELDS, a);
    FoldLinesCons(NO_FIELDS, a, [b] + ([c] + []));
    FoldLinesCons(f, b, [c] + []);
    FoldLinesCons(ApplyLine(f, b), c, []);
  }

  lemma FieldLineNoBreak(name: string, value: string)
    requires NoBreak(name) && NoBreak(value)
    ensures NoBreak(FieldLine(name, value)) && FieldLine(name, value) != ""
  {
  }

  /** None of the three lines is empty or broken. */
  lemma PrintedLines(e: RunEvent)
    requires Printable(e)
    ensures NoBreak(FieldLine("id", Decimal(e.sequence)))
    ensures NoBreak(FieldLine("event", e.eventType)) && FieldLine("event", e.eventType) != ""
    ensures NoBreak(FieldLine("data", e.data)) && FieldLine("data", e.data) != ""
  {
    FieldLineNoBreak("id", Decimal(e.sequence));
    FieldLineNoBreak("event", e.eventType);
    FieldLineNoBreak("data", e.data);
  }

  lemma FrameOfPrinted(e: RunEvent)
    requires Printable(e)
    ensures FrameOf(SseLines(e)) == Some(FrameFor(e))
  {
    var id := Decimal(e.sequence);
    PrintedLines(e);
    FrameOfLines(FieldLine("id", id), FieldLine("event", e.eventType), FieldLine("data", e.data));
    var f := NO_FIELDS.(id := Some(id));
    DecimalIsTrimmed(e.sequence, JavaScript);
    ApplyIdField(NO_FIELDS, id);
    ApplyEventField(f, e.eventType);
    ApplyDataField(f.(event := Some(e.eventType)), e.data);
  }

  lemma BlankLineOfThree(a: string, b: string, c: string, s: string)
    requires LF !in a && LF !in b && LF !in c && b != "" && c != ""
    ensures BlankLine(a + [LF] + b + [LF] + c + [LF, LF] + s) == |a| + |b| + |c| + 2
  {
    var t := a + [LF] + b + [LF] + c + [LF, LF] + s;
    assert BlankAt(t, |a| + |b| + |c| + 2);
    forall k | 0 <= k < |a| + |b| + |c| + 2 ensures !BlankAt(t, k) {
      if k < |a| {
        assert t[k] == a[k] && a[k] in a;
      } else if k == |a| {
        assert t[k + 1] == b[0] && b[0] in b;
      } else if k < |a| + 1 + |b| {
        assert t[k] == b[k - |a| - 1] && b[k - |a| - 1] in b;
      } else if k == |a| + 1 + |b| {
        assert t[k + 1] == c[0] && c[0] in c;
      } else {
        assert t[k] == c[k - |a| - |b| - 2] && c[k - |a| - |b| - 2] in c;
      }
    }
  }

  lemma BlankLineOfSse(e: RunEvent, s: string)
    requires Printable(e)
    ensures BlankLine(Sse(e) + s) == |SseLines(e)|
  {
    PrintedLines(e);
    BlankLineOfThree(
      FieldLine("id", Decimal(e.sequence)), FieldLine("event", e.eventType), FieldLine("data", e.data), s);
  }

  lemma ScanOfSse(e: RunEvent, s: string)
    requires Printable(e)
    ensures Scan(Sse(e) + s) == SseParseResult([FrameFor(e)] + Scan(s).frames, Scan(s).rest)
  {
    BlankLineOfSse(e, s);
    FrameOfPrinted(e);
    var i := |SseLines(e)|;
    assert (Sse(e) + s)[..i] == SseLines(e) && (Sse(e) + s)[i + 2..] == s;
    ScanNext([], Sse(e) + s, i);
  }

  lemma FramesForCons(events: seq<RunEvent>)
    requires events != []
    ensures FramesFor(events) == [FrameFor(events[0])] + FramesFor(events[1..])
  {
  }

  lemma {:induction false} ScanOfPrinted(events: seq<RunEvent>)
    requires AllPrintable(events)
    ensures CR !in PrintAll(events)
    ensures Scan(PrintAll(events)) == SseParseResult(FramesFor(events), "")
    decreases |events|
  {
    if events != [] {
      var e, tail := events[0], events[1..];
      assert Printable(e);
      SlicePrintable(events, 1, |events|);
      ScanOfPrinted(tail);
      PrintedLines(e);
      ScanOfSse(e, PrintAll(tail));
      FramesForCons(events);
    }
  }

  /** Round trip: the client's parser inverts the server's printer. */
  lemma ParseOfPrinted(events: seq<RunEvent>)
    requires AllPrintable(events)
    ensures Parse(PrintAll(events)) == SseParseResult(FramesFor(events), "")
  {
    ScanOfPrinted(events);
    NormalizeIsIdentity(PrintAll(events));
  }

  // ------------------------------------------------------- the polling loop

  const STREAM_MAX_SECONDS := 1800.0
  const STREAM_POLL_SECONDS := 0.5

  /** What one query sees: the event table and whether the run is terminal (or gone). */
  datatype Snapshot = Snapshot(rows: seq<RunEvent>, finished: bool)

  /** A tick reads the events, then the status; a commit may land between the two. */
  datatype Tick = Tick(atEvents: Snapshot, atStatus: Snapshot)

  /** The same tick as numbers: how much of the run's final log each query sees. */
  datatype LogTick = LogTick(read: nat, seen: nat, finished: bool)

  function View(tick: Tick, run: RunId): LogTick
  {
    LogTick(|Log(tick.atEvents.rows, run)|, |Log(tick.atStatus.rows, run)|, tick.atStatus.finished)
  }

  function Views(ticks: seq<Tick>, run: RunId): (views: seq<LogTick>)
    ensures |views| == |ticks|
  {
    seq(|ticks|, i requires 0 <= i < |ticks| => View(ticks[i], run))
  }

  datatype StreamEnd = Finished | TimedOut | Interrupted

  /** The final cursor, the number of ticks read, and why the loop ended. */
  datatype Transcript = Transcript(cursor: nat, polls: nat, end: StreamEnd)

  function Max(a: nat, b: nat): nat
  {
    if a < b then b else a
  }

  /** The loop from tick `i` on; running out of ticks is the connection going away. */
  function Follow(ticks: seq<LogTick>, i: nat, cursor: nat, elapsed: real): (t: Transcript)
    requires i <= |ticks|
    ensures i <= t.polls <= |ticks| && cursor <= t.cursor
    decreases |ticks| - i
  {
    if elapsed >= STREAM_MAX_SECONDS then Transcript(cursor, i, TimedOut)
    else if i == |ticks| then Transcript(cursor, i, Interrupted)
    else if ticks[i].finished && ticks[i].read <= cursor then Transcript(cursor, i + 1, Finished)
    else Follow(ticks, i + 1, Max(cursor, ticks[i].read), elapsed + STREAM_POLL_SECONDS)
  }

  lemma FollowStep(ticks: seq<LogTick>, i: nat, cursor: nat, elapsed: real)
    requires i < |ticks| && elapsed < STREAM_MAX_SECONDS
    ensures Follow(ticks, i, cursor, elapsed)
         == if ticks[i].finished && ticks[i].read <= cursor then Transcript(cursor, i + 1, Finished)
            else Follow(ticks, i + 1, Max(cursor, ticks[i].read), elapsed + STREAM_POLL_SECONDS)
  {
  }

  /** Events `a + 1` to `b` of a log; none when `a` is already past `b`. */
  function Between<T>(log: seq<T>, a: nat, b: nat): seq<T>
  {
    if a < b <= |log| then log[a..b] else []
  }

  /** One run of the table: numbered and owned by one organization. */
  ghost predicate ValidRun(rows: seq<RunEvent>, org: OrganizationId, run: RunId)
  {
    && Numbered(Log(rows, run))
    && (forall e :: e in rows && e.runId == run ==> e.organizationId == org)
  }

  /** Each query of each tick sees a prefix of the final table, never less than before. */
  ghost predicate AppendOnly(ticks: seq<Tick>, rows: seq<RunEvent>)
  {
    && (forall i :: 0 <= i < |ticks| ==> ticks[i].atEvents.rows <= ticks[i].atStatus.rows <= rows)
    && (forall i, j :: 0 <= i < j < |ticks| ==> ticks[i].atStatus.rows <= ticks[j].atEvents.rows)
  }

  lemma {:induction false} LogOfPrefix(a: seq<RunEvent>, b: seq<RunEvent>, run: RunId)
    requires a <= b
    ensures Log(a, run) <= Log(b, run)
  {
    if |a| < |b| {
      LogOfPrefix(a, b[..|b| - 1], run);
    } else {
      assert a == b;
    }
  }

  lemma PrefixIsValid(a: seq<RunEvent>, b: seq<RunEvent>, org: OrganizationId, run: RunId)
    requires a <= b && ValidRun(b, org, run)
    ensures Log(a, run) <= Log(b, run) && ValidRun(a, org, run)
  {
    LogOfPrefix(a, b, run);
    var la, lb := Log(a, run), Log(b, run);
    assert forall k :: 0 <= k < |la| ==> la[k] == lb[k];
    assert forall e :: e in a ==> e in b;
  }

  lemma DropOfPrefix<T>(a: seq<T>, b: seq<T>, k: nat)
    requires a <= b
    ensures Drop(a, k) == Between(b, k, |a|)
  {
  }

  /** What `events_since` returns in a tick, as a piece of the final log. */
  lemma EventsOfTick(tick: Tick, rows: seq<RunEvent>, org: OrganizationId, run: RunId, cursor: nat)
    requires ValidRun(rows, org, run) && tick.atEvents.rows <= rows
    ensures View(tick, run).read <= |Log(rows, run)|
    ensures EventsSince(tick.atEvents.rows, org, run, cursor) == Between(Log(rows, run), cursor, View(tick, run).read)
  {
    PrefixIsValid(tick.atEvents.rows, rows, org, run);
    EventsSinceIsSuffix(tick.atEvents.rows, org, run, cursor);
    DropOfPrefix(Log(tick.atEvents.rows, run), Log(rows, run), cursor);
  }

  lemma BetweenJoin<T>(log: seq<T>, a: nat, b: nat, c: nat)
    requires a <= b && c <= |log| && (b <= |log| || c <= b)
    requires a <= b <= |log| || a == b
    ensures Between(log, a, b) + Between(log, b, c) == Between(log, a, Max(b, c))
  {
  }

  /** The strings the generator yields for some events, one each. */
  function Yields(events: seq<RunEvent>): (texts: seq<string>)
    ensures |texts| == |events|
  {
    seq(|events|, i requires 0 <= i < |events| => Sse(events[i]))
  }

  lemma {:induction false} TextOfYields(events: seq<RunEvent>)
    ensures Concat(Yields(events)) == PrintAll(events)
    decreases |events|
  {
    if events != [] {
      var init, last := events[..|events| - 1], events[|events| - 1];
      TextOfYields(init);
      assert Yields(events)[..|init|] == Yields(init);
      PrintAllAppend(init, [last]);
      assert init + [last] == events;
      assert [last][1..] == [] && PrintAll([last]) == Sse(last);
    }
  }

  lemma {:induction false} PrintAllAppend(a: seq<RunEvent>, b: seq<RunEvent>)
    ensures PrintAll(a + b) == PrintAll(a) + PrintAll(b)
    decreases |a|
  {
    if a == [] {
      assert a + b == b;
    } else {
      assert (a + b)[1..] == a[1..] + b;
      PrintAllAppend(a[1..], b);
      Associative(Sse(a[0]), PrintAll(a[1..]), PrintAll(b));
    }
  }

  /** The inner loop of a tick: one frame per event, the cursor on the last one. */
  method SendEvents(events: seq<RunEvent>, after: int) returns (output: seq<string>, cursor: int)
    ensures output == Yields(events)
    ensures cursor == if events == [] then after else events[|events| - 1].sequence
  {
    output, cursor := [], after;
    for n := 0 to |events|
      invariant output == Yields(events[..n])
      invariant cursor == if n == 0 then after else events[n - 1].sequence
    {
      var event := events[n];
      cursor := event.sequence;
      output := output + [Sse(event)];
    }
    assert events[..|events|] == events;
  }

  /** One tick's frames extend what was yielded up to the last event it read. */
  method OneTick(org: OrganizationId, run: RunId, tick: Tick, after: nat, cursor: nat, ghost rows: seq<RunEvent>)
    returns (frames: seq<string>, next: nat, quiet: bool)
    requires ValidRun(rows, org, run) && tick.atEvents.rows <= rows
    requires after <= cursor && (cursor == after || cursor <= |Log(rows, run)|)
    ensures next == Max(cursor, View(tick, run).read) && (next == after || next <= |Log(rows, run)|)
    ensures quiet <==> View(tick, run).read <= cursor
    ensures Yields(Between(Log(rows, run), after, cursor)) + frames == Yields(Between(Log(rows, run), after, next))
  {
    ghost var log, read := Log(rows, run), View(tick, run).read;
    EventsOfTick(tick, rows, org, run, cursor);
    BetweenJoin(log, after, cursor, read);
    var events := EventsSince(tick.atEvents.rows, org, run, cursor);
    frames, next := SendEvents(events, cursor);
    quiet := events == [];
  }

  /**
   * Whatever is committed between any two queries, a stream is the log from the
   * cursor to the last event read: nothing twice, no gap.
   */
  method EventStream(org: OrganizationId, run: RunId, after: nat, ticks: seq<Tick>, ghost rows: seq<RunEvent>)
    returns (output: seq<string>, end: StreamEnd)
    requires ValidRun(rows, org, run)
    requires forall i :: 0 <= i < |ticks| ==> ticks[i].atEvents.rows <= rows
    ensures var t := Follow(Views(ticks, run), 0, after, 0.0);
            && (t.cursor == after || t.cursor <= |Log(rows, run)|)
            && output == Yields(Between(Log(rows, run), after, t.cursor))
            && end == t.end
  {
    output := [];
    var cursor: nat, elapsed, i := after, 0.0, 0;
    ghost var log, views := Log(rows, run), Views(ticks, run);
    while elapsed < STREAM_MAX_SECONDS
      invariant i <= |ticks| && after <= cursor
      invariant cursor == after || cursor <= |log|
      invariant output == Yields(Between(log, after, cursor))
      invariant Follow(views, 0, after, 0.0) == Follow(views, i, cursor, elapsed)
      decreases |ticks| - i
    {
      if i == |ticks| {
        return output, Interrupted;
      }
      FollowStep(views, i, cursor, elapsed);
      var frames, next, quiet := OneTick(org, run, ticks[i], after, cursor, rows);
      output := output + frames;
      cursor := next;
      if ticks[i].atStatus.finished && quiet {
        return output, Finished;
      }
      i, elapsed := i + 1, elapsed + STREAM_POLL_SECONDS;
    }
    end := TimedOut;
  }

  // ------------------------------------------------ when a stream is whole

  /** Reads only grow, and never past the final log of `n` events. */
  ghost predicate LegalTicks(ticks: seq<LogTick>, n: nat)
  {
    && (forall i :: 0 <= i < |ticks| ==> ticks[i].read <= ticks[i].seen <= n)
    && (forall i, j :: 0 <= i < j < |ticks| ==> ticks[i].seen <= ticks[j].read)
  }

  lemma AppendOnlyIsLegal(ticks: seq<Tick>, rows: seq<RunEvent>, run: RunId)
    requires AppendOnly(ticks, rows)
    ensures LegalTicks(Views(ticks, run), |Log(rows, run)|)
  {
    forall i | 0 <= i < |ticks|
      ensures View(ticks[i], run).read <= View(ticks[i], run).seen <= |Log(rows, run)|
    {
      LogOfPrefix(ticks[i].atEvents.rows, ticks[i].atStatus.rows, run);
      LogOfPrefix(ticks[i].atStatus.rows, rows, run);
    }
    forall i, j | 0 <= i < j < |ticks| ensures View(ticks[i], run).seen <= View(ticks[j], run).read {
      LogOfPrefix(ticks[i].atStatus.rows, ticks[j].atEvents.rows, run);
    }
  }

  /** What the last tick polled says of the end of a loop that stood at `cursor`. */
  ghost predicate EndsAtLastRead(ticks: seq<LogTick>, cursor: nat, t: Transcript)
  {
    && t.polls <= |ticks|
    && t.cursor == (if t.polls == 0 then cursor else Max(cursor, ticks[t.polls - 1].read))
    && (t.end == Finished ==> t.polls > 0 && ticks[t.polls - 1].finished)
  }

  lemma LastReadIsLater(ticks: seq<LogTick>, n: nat, i: nat, cursor: nat, t: Transcript)
    requires LegalTicks(ticks, n) && i < t.polls
    requires EndsAtLastRead(ticks, Max(cursor, if i < |ticks| then ticks[i].read else 0), t)
    ensures EndsAtLastRead(ticks, cursor, t)
  {
    assert t.polls > i + 1 ==> ticks[i].read <= ticks[i].seen <= ticks[t.polls - 1].read;
  }

  /** The final cursor is the last read, unless the cursor was past it from the start. */
  lemma {:induction false} FollowReachesLastRead(ticks: seq<LogTick>, n: nat, i: nat, cursor: nat, elapsed: real)
    requires i <= |ticks| && LegalTicks(ticks, n)
    requires i > 0 ==> cursor >= ticks[i - 1].read
    ensures var t := Follow(ticks, i, cursor, elapsed);
            EndsAtLastRead(ticks, cursor, t) && (t.end == Finished ==> t.polls > i)
    decreases |ticks| - i
  {
    if elapsed < STREAM_MAX_SECONDS && i < |ticks| {
      FollowStep(ticks, i, cursor, elapsed);
      if !(ticks[i].finished && ticks[i].read <= cursor) {
        var next := Max(cursor, ticks[i].read);
        FollowReachesLastRead(ticks, n, i + 1, next, elapsed + STREAM_POLL_SECONDS);
        LastReadIsLater(ticks, n, i, cursor, Follow(ticks, i, cursor, elapsed));
      }
    }
  }

  /** The first tick from `i` on whose status query sees a terminal run. */
  function FirstFinished(ticks: seq<LogTick>, i: nat): (j: nat)
    requires i <= |ticks|
    ensures i <= j <= |ticks|
    ensures j < |ticks| ==> ticks[j].finished
    ensures forall k :: i <= k < j ==> !ticks[k].finished
    decreases |ticks| - i
  {
    if i == |ticks| || ticks[i].finished then i else FirstFinished(ticks, i + 1)
  }

  /** The last event read before tick `j`, for a client that asked for what follows `after`. */
  function ReadBefore(ticks: seq<LogTick>, after: nat, j: nat): nat
    requires j <= |ticks|
  {
    if j == 0 then after else Max(after, ticks[j - 1].read)
  }

  /** A tick that sees a terminal run and reads nothing new. */
  predicate Quiet(ticks: seq<LogTick>, after: nat, i: nat)
    requires i < |ticks|
  {
    ticks[i].finished && ticks[i].read <= ReadBefore(ticks, after, i)
  }

  /** How long the loop runs from tick `i`, which begins after `i` half seconds. */
  lemma {:induction false} FollowEndsFrom(ticks: seq<LogTick>, n: nat, after: nat, i: nat)
    requires LegalTicks(ticks, n) && i <= |ticks| && i <= 3600
    requires forall k :: 0 <= k < i ==> !Quiet(ticks, after, k)
    ensures EndsRight(ticks, after, Follow(ticks, i, ReadBefore(ticks, after, i), i as real * STREAM_POLL_SECONDS))
    decreases |ticks| - i
  {
    var cursor, elapsed := ReadBefore(ticks, after, i), i as real * STREAM_POLL_SECONDS;
    assert elapsed >= STREAM_MAX_SECONDS <==> i == 3600;
    if i < 3600 && i < |ticks| {
      FollowStep(ticks, i, cursor, elapsed);
      if !Quiet(ticks, after, i) {
        assert i > 0 ==> ticks[i - 1].read <= ticks[i - 1].seen <= ticks[i].read;
        assert (i + 1) as real * STREAM_POLL_SECONDS == elapsed + STREAM_POLL_SECONDS;
        FollowEndsFrom(ticks, n, after, i + 1);
      }
    }
  }

  /** The loop ended with the first quiet tick, after 3600 polls, or with its connection. */
  ghost predicate EndsRight(ticks: seq<LogTick>, after: nat, t: Transcript)
  {
    && t.polls <= |ticks| && t.polls <= 3600
    && match t.end
       case Finished =>
         && t.polls > 0 && Quiet(ticks, after, t.polls - 1)
         && (forall k :: 0 <= k < t.polls - 1 ==> !Quiet(ticks, after, k))
       case TimedOut => t.polls == 3600 && forall k :: 0 <= k < t.polls ==> !Quiet(ticks, after, k)
       case Interrupted =>
         t.polls == |ticks| < 3600 && forall k :: 0 <= k < t.polls ==> !Quiet(ticks, after, k)
  }

  /**
   * When a stream ends: with the first poll that sees the run terminal and nothing new,
   * otherwise after half an hour of half-second polls, otherwise with its connection.
   */
  lemma FollowEndsExactlyWhen(ticks: seq<LogTick>, n: nat, after: nat)
    requires LegalTicks(ticks, n)
    ensures EndsRight(ticks, after, Follow(ticks, 0, after, 0.0))
  {
    FollowEndsFrom(ticks, n, after, 0);
  }

  /** Until a tick sees a terminal run the loop only polls and moves its cursor. */
  lemma {:induction false} FollowSkips(
    ticks: seq<LogTick>, n: nat, after: nat, i: nat, j: nat, elapsed: real)
    requires LegalTicks(ticks, n) && i <= j <= |ticks| && (forall k :: i <= k < j ==> !ticks[k].finished)
    requires Follow(ticks, i, ReadBefore(ticks, after, i), elapsed).end == Finished
    ensures exists later: real :: later < STREAM_MAX_SECONDS
              && Follow(ticks, i, ReadBefore(ticks, after, i), elapsed)
              == Follow(ticks, j, ReadBefore(ticks, after, j), later)
    decreases j - i
  {
    if i < j {
      assert i > 0 ==> ticks[i - 1].read <= ticks[i - 1].seen <= ticks[i].read;
      FollowSkips(ticks, n, after, i + 1, j, elapsed + STREAM_POLL_SECONDS);
    }
  }

  /** From a tick after which the log is complete, the loop ends only with the whole log. */
  lemma FollowFromWholeLog(ticks: seq<LogTick>, n: nat, i: nat, cursor: nat, elapsed: real)
    requires LegalTicks(ticks, n) && 0 < i <= |ticks| && ticks[i - 1].seen == n && cursor >= ticks[i - 1].read
    requires Follow(ticks, i, cursor, elapsed).end == Finished
    ensures Follow(ticks, i, cursor, elapsed).cursor >= n
  {
    FollowReachesLastRead(ticks, n, i, cursor, elapsed);
    var polls := Follow(ticks, i, cursor, elapsed).polls;
    assert ticks[i - 1].seen <= ticks[polls - 1].read;
  }

  /**
   * When the server ends a stream, its completeness was decided at the first tick that
   * saw a terminal run, and nowhere else: the stream is the whole log of `n` events if
   * and only if that tick's first query found something new, however little, or all was
   * sent before. A terminal status is committed with the last event, hence the second
   * requires.
   */
  lemma FinishedStreamIsWhole(ticks: seq<LogTick>, n: nat, after: nat)
    requires LegalTicks(ticks, n)
    requires forall i :: 0 <= i < |ticks| && ticks[i].finished ==> ticks[i].seen == n
    requires Follow(ticks, 0, after, 0.0).end == Finished
    ensures var j := FirstFinished(ticks, 0);
            && j < |ticks|
            && (Follow(ticks, 0, after, 0.0).cursor >= n
                <==> ticks[j].read > ReadBefore(ticks, after, j) || ReadBefore(ticks, after, j) >= n)
  {
    var j := FirstFinished(ticks, 0);
    FollowReachesLastRead(ticks, n, 0, after, 0.0);
    FollowSkips(ticks, n, after, 0, j, 0.0);
    var cursor := ReadBefore(ticks, after, j);
    var later: real :| later < STREAM_MAX_SECONDS && Follow(ticks, 0, after, 0.0) == Follow(ticks, j, cursor, later);
    FollowStep(ticks, j, cursor, later);
    if ticks[j].read > cursor {
      FollowFromWholeLog(ticks, n, j + 1, ticks[j].read, later + STREAM_POLL_SECONDS);
    }
  }

  /** The race: a commit between the two queries closes a stream before its last event. */
  lemma SplitReadLosesTerminalEvent(n: nat)
    requires n > 0
    ensures var ticks := [LogTick(n - 1, n, true)];
            && LegalTicks(ticks, n)
            && Follow(ticks, 0, n - 1, 0.0) == Transcript(n - 1, 1, Finished)
  {
    assert |[LogTick(n - 1, n, true)]| == 1;
  }
}
