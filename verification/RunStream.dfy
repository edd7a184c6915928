/**
 * The browser's end of the stream: `streamRunEvents` of frontend/src/lib/api.ts.
 * Connections open, deliver part of what the server prints in chunks cut anywhere,
 * and end, drop or are aborted; the client resumes from the last id it parsed.
 */
module RunStream {
  import opened Wrappers
  import opened Text
  import opened RunEvents
  import opened SseFraming
  import opened EventStream

  const MAX_STREAM_RECONNECTS := 4

  // ---------------------------------------------------- one connection

  /** What `fetch` gives: a network failure, or a status with or without a body. */
  datatype Response = Rejected | Answer(status: nat, hasBody: bool)

  datatype Ending = Done | Dropped | Aborted

  /**
   * The environment's choices for one connection: the opening response, the refresh
   * after a 401 and the response after it, the tables the server's polls see, how many
   * characters arrive (`None`: all), how they are cut, and how reading ends.
   */
  datatype Connection = Connection(
    first: Response, refreshed: bool, second: Response,
    ticks: seq<Tick>, arrives: Option<nat>, cuts: seq<nat>, ending: Ending)

  /** The event table as it will finally be, and the run of the organization streamed. */
  datatype Source = Source(rows: seq<RunEvent>, org: OrganizationId, run: RunId) {
    function Events(): seq<RunEvent>
    {
      Log(rows, run)
    }

    ghost predicate Valid()
    {
      ValidRun(rows, org, run) && AllPrintable(Events())
    }
  }

  /** Every poll of the connection sees the table at some point of its growth. */
  ghost predicate Serves(c: Connection, source: Source)
  {
    AppendOnly(c.ticks, source.rows)
  }

  ghost predicate AllServe(connections: seq<Connection>, source: Source)
  {
    forall i :: 0 <= i < |connections| ==> Serves(connections[i], source)
  }

  /** The table that `append_event` builds is a valid source for each of its runs. */
  lemma TableIsSource(table: EventTable, run: RunId)
    requires table.Valid() && AllPrintable(Log(table.rows, run))
    ensures Source(table.rows, table.owner(run), run).Valid()
  {
  }

  /** Status 0 stands for a failure that carries no HTTP status. */
  datatype Opening = Streaming | Refused(status: nat)

  function Open(c: Connection): Opening
  {
    if c.first == Rejected then Refused(0)
    else if c.first.status == 401 && !c.refreshed then Refused(401)
    else
      var response := if c.first.status == 401 then c.second else c.first;
      if response == Rejected then Refused(0)
      else if 200 <= response.status < 300 && response.hasBody then Streaming
      else Refused(response.status)
  }

  // ------------------------------------------------ what a connection's fields say

  /** A response whose body is read: any 2xx status, with a body. */
  predicate Readable(response: Response)
  {
    response.Answer? && response.status / 100 == 2 && response.hasBody
  }

  /** The page refreshes its session after a 401, and only then asks again. */
  predicate AsksAgain(c: Connection)
  {
    c.first.Answer? && c.first.status == 401 && c.refreshed
  }

  function Final(c: Connection): Response
  {
    if AsksAgain(c) then c.second else c.first
  }

  predicate Opens(c: Connection)
  {
    Readable(Final(c))
  }

  /** The status of the answer that was not read; 0 for a failure without one. */
  function FailureStatus(c: Connection): nat
  {
    match Final(c)
    case Rejected => 0
    case Answer(status, _) => status
  }

  /** Which connections are read, and with what status the others fail. */
  lemma OpenMeans(c: Connection)
    ensures Open(c) == if Opens(c) then Streaming else Refused(FailureStatus(c))
  {
  }

  /** An ordinary answer is read: the first, or the one after a refreshed 401. */
  lemma OrdinaryAnswerIsRead(c: Connection, status: nat)
    requires 200 <= status < 300
    requires c.first == Answer(status, true)
             || (c.first == Answer(401, true) && c.refreshed && c.second == Answer(status, true))
    ensures Opens(c) && Open(c) == Streaming
  {
  }

  /** How far the server gets when asked to resume at `after`. */
  function Reached(c: Connection, source: Source, after: nat): nat
  {
    Follow(Views(c.ticks, source.run), 0, after, 0.0).cursor
  }

  function Sent(c: Connection, source: Source, after: nat): seq<RunEvent>
  {
    Between(source.Events(), after, Reached(c, source, after))
  }

  function ServerText(c: Connection, source: Source, after: nat): string
  {
    PrintAll(Sent(c, source, after))
  }

  /** A connection ends between its cursor and the end of the log. */
  lemma ReachedWithinLog(c: Connection, source: Source, after: nat)
    requires Serves(c, source)
    ensures var reached := Reached(c, source, after); reached == after || after < reached <= |source.Events()|
  {
    AppendOnlyIsLegal(c.ticks, source.rows, source.run);
    FollowReachesLastRead(Views(c.ticks, source.run), |source.Events()|, 0, after, 0.0);
  }

  /** What the polling loop yields on a connection, put together. */
  method Serve(c: Connection, source: Source, after: nat) returns (text: string)
    requires Serves(c, source) && source.Valid()
    ensures text == ServerText(c, source, after)
  {
    var output, _ := EventStream.EventStream(source.org, source.run, after, c.ticks, source.rows);
    TextOfYields(Sent(c, source, after));
    text := Concat(output);
  }

  function Arriving(c: Connection, text: string): string
  {
    match c.arrives
    case None => text
    case Some(n) => if n < |text| then text[..n] else text
  }

  /** Decoded text in network chunks; a cut beyond the end takes what is left. */
  function Chunks(text: string, cuts: seq<nat>): seq<string>
    decreases |cuts|
  {
    if cuts == [] then [text]
    else
      var n := if cuts[0] < |text| then cuts[0] else |text|;
      [text[..n]] + Chunks(text[n..], cuts[1..])
  }

  lemma {:induction false} ConcatCons(part: string, parts: seq<string>)
    ensures Concat([part] + parts) == part + Concat(parts)
    decreases |parts|
  {
    var all := [part] + parts;
    if parts == [] {
      assert all[..|all| - 1] == [];
    } else {
      assert all[..|all| - 1] == [part] + parts[..|parts| - 1];
      ConcatCons(part, parts[..|parts| - 1]);
      Associative(part, Concat(parts[..|parts| - 1]), parts[|parts| - 1]);
    }
  }

  lemma {:induction false} ConcatOfChunks(text: string, cuts: seq<nat>)
    ensures Concat(Chunks(text, cuts)) == text
    decreases |cuts|
  {
    if cuts == [] {
      assert Concat([text]) == Concat([]) + text;
    } else {
      var n := if cuts[0] < |text| then cuts[0] else |text|;
      ConcatOfChunks(text[n..], cuts[1..]);
      ConcatCons(text[..n], Chunks(text[n..], cuts[1..]));
    }
  }

  // ------------------------------------------- what a prefix of text parses to

  /** How many leading frames the first `n` characters of a printed log contain whole. */
  function WholeFrames(events: seq<RunEvent>, n: nat): (m: nat)
    ensures m <= |events|
  {
    if events == [] || n < |Sse(events[0])| then 0
    else 1 + WholeFrames(events[1..], n - |Sse(events[0])|)
  }

  lemma ScanOfPartialSse(e: RunEvent, n: nat)
    requires Printable(e) && n < |Sse(e)|
    ensures Scan(Sse(e)[..n]).frames == []
  {
    BlankLineOfSse(e, "");
    assert Sse(e) + "" == Sse(e);
    forall k | BlankAt(Sse(e)[..n], k) ensures false {
      assert BlankAt(Sse(e), k);
    }
  }

  lemma FramesForTake(events: seq<RunEvent>, m: nat)
    requires 0 < m <= |events|
    ensures FramesFor(events[..m]) == [FrameFor(events[0])] + FramesFor(events[1..][..m - 1])
  {
    assert events[..m][1..] == events[1..][..m - 1];
    FramesForCons(events[..m]);
  }

  lemma PrefixOfPrinted(events: seq<RunEvent>, n: nat)
    requires events != [] && n <= |PrintAll(events)|
    ensures var e, k := events[0], n - |Sse(events[0])|;
            PrintAll(events)[..n] == if k < 0 then Sse(e)[..n] else Sse(e) + PrintAll(events[1..])[..k]
  {
  }

  /** A reader that takes whole printed frames one by one and makes nothing of part of one. */
  ghost predicate ReadsFrames(read: string -> seq<SseFrame>)
  {
    && read("") == []
    && (forall e, t :: Printable(e) ==> read(Sse(e) + t) == [FrameFor(e)] + read(t))
    && (forall e, n :: Printable(e) && 0 <= n < |Sse(e)| ==> read(Sse(e)[..n]) == [])
  }

  function ScannedFrames(s: string): seq<SseFrame>
  {
    Scan(s).frames
  }

  lemma ScanReadsFrames()
    ensures ReadsFrames(ScannedFrames)
  {
    forall e, t | Printable(e) ensures ScannedFrames(Sse(e) + t) == [FrameFor(e)] + ScannedFrames(t) {
      ScanOfSse(e, t);
    }
    forall e, n | Printable(e) && 0 <= n < |Sse(e)| ensures ScannedFrames(Sse(e)[..n]) == [] {
      ScanOfPartialSse(e, n);
    }
  }

  lemma ReadOfPart(read: string -> seq<SseFrame>, events: seq<RunEvent>, n: nat)
    requires ReadsFrames(read) && AllPrintable(events) && n <= |PrintAll(events)|
    requires events == [] || n < |Sse(events[0])|
    ensures read(PrintAll(events)[..n]) == [] && WholeFrames(events, n) == 0
  {
    if events == [] {
      assert PrintAll(events)[..n] == "";
    } else {
      assert Printable(events[0]);
      PrefixOfPrinted(events, n);
    }
  }

  lemma ReadOfFirst(read: string -> seq<SseFrame>, events: seq<RunEvent>, t: string, m: nat)
    requires ReadsFrames(read) && events != [] && Printable(events[0]) && m <= |events| - 1
    requires read(t) == FramesFor(events[1..][..m])
    ensures read(Sse(events[0]) + t) == FramesFor(events[..m + 1])
  {
    FramesForTake(events, m + 1);
  }

  /** Of the first `n` characters of a printed log such a reader makes the frames that fit. */
  lemma {:induction false} ReadOfPrefix(read: string -> seq<SseFrame>, events: seq<RunEvent>, n: nat)
    requires ReadsFrames(read) && AllPrintable(events) && n <= |PrintAll(events)|
    ensures read(PrintAll(events)[..n]) == FramesFor(events[..WholeFrames(events, n)])
    decreases |events|
  {
    if events == [] || n < |Sse(events[0])| {
      ReadOfPart(read, events, n);
    } else {
      var k := n - |Sse(events[0])|;
      assert Printable(events[0]);
      PrefixOfPrinted(events, n);
      SlicePrintable(events, 1, |events|);
      ReadOfPrefix(read, events[1..], k);
      ReadOfFirst(read, events, PrintAll(events[1..])[..k], WholeFrames(events[1..], k));
    }
  }

  /** A dropped connection yields exactly the frames that arrived whole. */
  lemma ParseOfPrefix(events: seq<RunEvent>, n: nat)
    requires AllPrintable(events) && n <= |PrintAll(events)|
    ensures Parse(PrintAll(events)[..n]).frames == FramesFor(events[..WholeFrames(events, n)])
  {
    ScanReadsFrames();
    ReadOfPrefix(ScannedFrames, events, n);
    PrintedWithoutCr(events, n);
  }

  /** The printed text is its own normal form. */
  lemma PrintedWithoutCr(events: seq<RunEvent>, n: nat)
    requires AllPrintable(events) && n <= |PrintAll(events)|
    ensures var text := PrintAll(events)[..n]; Parse(text).frames == ScannedFrames(text)
  {
    ScanOfPrinted(events);
    NormalizeIsIdentity(PrintAll(events)[..n]);
  }

  lemma {:induction false} AllFramesFit(events: seq<RunEvent>)
    ensures WholeFrames(events, |PrintAll(events)|) == |events|
  {
    if events != [] {
      AllFramesFit(events[1..]);
    }
  }

  /** How many of the events sent arrive whole. */
  function Arrived(c: Connection, sent: seq<RunEvent>): (m: nat)
    ensures m <= |sent|
  {
    if c.arrives == None then |sent| else WholeFrames(sent, |Arriving(c, PrintAll(sent))|)
  }

  /** How many events a connection resumed at `a` delivers whole. */
  function Delivered(c: Connection, source: Source, a: nat): nat
  {
    if Open(c) == Streaming then Arrived(c, Sent(c, source, a)) else 0
  }

  /** Frames `p` for events `a + 1` to `b`. */
  ghost predicate Exactly(p: seq<SseFrame>, log: seq<RunEvent>, a: nat, b: nat)
  {
    b == a + |p| && (p == [] || b <= |log|) && p == FramesFor(Between(log, a, b))
  }

  lemma BetweenTake<T>(log: seq<T>, a: nat, b: nat, m: nat)
    requires (a == b || a < b <= |log|) && a + m <= b
    ensures Between(log, a, b)[..m] == Between(log, a, a + m)
  {
  }

  lemma FramesOfTake(log: seq<RunEvent>, a: nat, b: nat, m: nat)
    requires (a == b || a < b <= |log|) && a + m <= b
    ensures Exactly(FramesFor(Between(log, a, b)[..m]), log, a, a + m)
  {
    BetweenTake(log, a, b, m);
  }

  /** What arrives of a printed log parses to its first events, as many as fit. */
  lemma ArrivingFrames(c: Connection, sent: seq<RunEvent>)
    requires AllPrintable(sent)
    ensures Parse(Arriving(c, PrintAll(sent))).frames == FramesFor(sent[..Arrived(c, sent)])
  {
    var text := PrintAll(sent);
    var n := |Arriving(c, text)|;
    assert Arriving(c, text) == text[..n];
    ParseOfPrefix(sent, n);
    AllFramesFit(sent);
  }

  /** The events that arrive whole are the next ones of the log. */
  lemma ArrivedAreNext(c: Connection, log: seq<RunEvent>, a: nat, b: nat)
    requires AllPrintable(log) && (a == b || a < b <= |log|)
    ensures var sent := Between(log, a, b);
            && AllPrintable(sent)
            && Exactly(FramesFor(sent[..Arrived(c, sent)]), log, a, a + Arrived(c, sent))
  {
    if a < b {
      SlicePrintable(log, a, b);
    }
    FramesOfTake(log, a, b, Arrived(c, Between(log, a, b)));
  }

  // ------------------------------------------------------ the client's fold

  /** `if (frame.id) cursor = frame.id`. */
  function CursorAfter(cursor: Option<string>, frames: seq<SseFrame>): Option<string>
  {
    if frames == [] then cursor
    else
      var last := frames[|frames| - 1];
      if last.id.Some? && last.id.value != "" then last.id else CursorAfter(cursor, frames[..|frames| - 1])
  }

  /** The types handed to `onEvent`, given `RUN_EVENT_TYPES`: unknown names are ignored. */
  function Recognized(frames: seq<SseFrame>, known: set<string>): seq<string>
  {
    if frames == [] then []
    else
      var last := frames[|frames| - 1];
      Recognized(frames[..|frames| - 1], known)
      + if last.event.Some? && last.event.value in known then [last.event.value] else []
  }

  lemma {:induction false} RecognizedAppend(a: seq<SseFrame>, b: seq<SseFrame>, known: set<string>)
    ensures Recognized(a + b, known) == Recognized(a, known) + Recognized(b, known)
    decreases |b|
  {
    if b == [] {
      assert a + b == a;
    } else {
      assert (a + b)[..|a + b| - 1] == a + b[..|b| - 1];
      RecognizedAppend(a, b[..|b| - 1], known);
    }
  }

  lemma {:induction false} CursorAfterAppend(cursor: Option<string>, a: seq<SseFrame>, b: seq<SseFrame>)
    ensures CursorAfter(cursor, a + b) == CursorAfter(CursorAfter(cursor, a), b)
    decreases |b|
  {
    if b == [] {
      assert a + b == a;
    } else {
      assert (a + b)[..|a + b| - 1] == a + b[..|b| - 1];
      CursorAfterAppend(cursor, a, b[..|b| - 1]);
    }
  }

  /** The cursor is the last id that is not empty. */
  lemma {:induction false} CursorIsLastId(cursor: Option<string>, frames: seq<SseFrame>, k: nat)
    requires k < |frames| && frames[k].id.Some? && frames[k].id.value != ""
    requires forall i :: k < i < |frames| ==> frames[i].id == None || frames[i].id == Some("")
    ensures CursorAfter(cursor, frames) == frames[k].id
    decreases |frames|
  {
    if k < |frames| - 1 {
      assert frames[|frames| - 1].id.None? || frames[|frames| - 1].id.value == "";
      CursorIsLastId(cursor, frames[..|frames| - 1], k);
    }
  }

  /** Without one it stays. */
  lemma {:induction false} CursorStays(cursor: Option<string>, frames: seq<SseFrame>)
    requires forall i :: 0 <= i < |frames| ==> frames[i].id == None || frames[i].id == Some("")
    ensures CursorAfter(cursor, frames) == cursor
    decreases |frames|
  {
    if frames != [] {
      assert frames[|frames| - 1].id.None? || frames[|frames| - 1].id.value == "";
      CursorStays(cursor, frames[..|frames| - 1]);
    }
  }

  /** The frame names an event type the client knows. */
  predicate Known(frame: SseFrame, known: set<string>)
  {
    frame.event.Some? && frame.event.value in known
  }

  /** Increasing positions of `frames`, one for each of `events`, and all that are known. */
  ghost predicate Picks(at: seq<nat>, events: seq<string>, frames: seq<SseFrame>, known: set<string>)
  {
    && |at| == |events|
    && (forall i :: 0 <= i < |at| ==>
          at[i] < |frames| && Known(frames[at[i]], known) && frames[at[i]].event.value == events[i])
    && (forall i, j :: 0 <= i < j < |at| ==> at[i] < at[j])
    && (forall k: nat :: k < |frames| && Known(frames[k], known) ==> k in at)
  }

  /** The handler hears exactly of the frames whose type is known, in order, each once. */
  lemma {:induction false} RecognizedAreKnown(frames: seq<SseFrame>, known: set<string>) returns (at: seq<nat>)
    ensures Picks(at, Recognized(frames, known), frames, known)
    decreases |frames|
  {
    at := [];
    if frames != [] {
      var n := |frames| - 1;
      var before := RecognizedAreKnown(frames[..n], known);
      at := before + if Known(frames[n], known) then [n] else [];
      PicksNext(before, Recognized(frames[..n], known), frames, known, at);
    }
  }

  lemma PicksNext(
    before: seq<nat>, events: seq<string>, frames: seq<SseFrame>, known: set<string>, at: seq<nat>)
    requires frames != [] && Picks(before, events, frames[..|frames| - 1], known)
    requires at == before + if Known(frames[|frames| - 1], known) then [|frames| - 1] else []
    ensures var last := frames[|frames| - 1];
            Picks(at, events + (if Known(last, known) then [last.event.value] else []), frames, known)
  {
    var n := |frames| - 1;
    var init := frames[..n];
    assert forall k :: 0 <= k < n ==> init[k] == frames[k];
    forall k: nat | k < |frames| && Known(frames[k], known) ensures k in at {
      if k < n {
        assert Known(init[k], known);
        var i :| 0 <= i < |before| && before[i] == k;
        assert at[i] == k;
      } else {
        assert at[|at| - 1] == n;
      }
    }
  }

  /** The loop over the frames of one parse. */
  method HandleFrames(frames: seq<SseFrame>, from: Option<string>, known: set<string>)
    returns (cursor: Option<string>, events: seq<string>)
    ensures cursor == CursorAfter(from, frames) && events == Recognized(frames, known)
  {
    cursor, events := from, [];
    for i := 0 to |frames|
      invariant cursor == CursorAfter(from, frames[..i]) && events == Recognized(frames[..i], known)
    {
      var frame := frames[i];
      assert frames[..i + 1][..i] == frames[..i];
      if frame.id.Some? && frame.id.value != "" {
        cursor := frame.id;
      }
      if frame.event.Some? && frame.event.value in known {
        events := events + [frame.event.value];
      }
    }
    assert frames[..|frames|] == frames;
  }

  /** The read loop of `consume`: decode, parse, carry `rest`, move the cursor. */
  method ReadChunks(chunks: seq<string>, from: Option<string>, known: set<string>)
    returns (frames: seq<SseFrame>, cursor: Option<string>, events: seq<string>)
    ensures frames == Parse(Concat(chunks)).frames
    ensures cursor == CursorAfter(from, frames) && events == Recognized(frames, known)
  {
    frames, cursor, events := [], from, [];
    var buffer := "";
    for i := 0 to |chunks|
      invariant SseParseResult(frames, buffer) == Feed(chunks[..i])
      invariant cursor == CursorAfter(from, frames) && events == Recognized(frames, known)
    {
      assert chunks[..i + 1][..i] == chunks[..i];
      buffer := buffer + chunks[i];
      var parsed, rest := ParseSseBuffer(buffer);
      buffer := rest;
      CursorAfterAppend(from, frames, parsed);
      RecognizedAppend(frames, parsed, known);
      var handled: seq<string>;
      cursor, handled := HandleFrames(parsed, cursor, known);
      frames, events := frames + parsed, events + handled;
    }
    assert chunks[..|chunks|] == chunks;
    FeedIsParse(chunks);
  }

  // ---------------------------------------------------------- one connection

  /** The ids of consecutive events, read back from the cursor they leave. */
  lemma CursorOfFrames(cursor: Option<string>, log: seq<RunEvent>, a: nat, b: nat, frames: seq<SseFrame>)
    requires Numbered(log) && ParseCursor(cursor) == a && Exactly(frames, log, a, b)
    ensures ParseCursor(CursorAfter(cursor, frames)) == b == a + |frames|
  {
    if a < b {
      assert frames[|frames| - 1] == FrameFor(log[b - 1]);
      assert CursorAfter(cursor, frames) == Some(Decimal(b));
      CursorRoundTrip(b);
    }
  }

  lemma SentIsNext(c: Connection, source: Source, a: nat)
    requires Serves(c, source) && source.Valid() && Open(c) == Streaming
    ensures var sent := Sent(c, source, a);
            && AllPrintable(sent)
            && Exactly(FramesFor(sent[..Arrived(c, sent)]), source.Events(), a, a + Delivered(c, source, a))
  {
    ReachedWithinLog(c, source, a);
    ArrivedAreNext(c, source.Events(), a, Reached(c, source, a));
  }

  /** The client's half of a connection: the chunks of what arrives, read one by one. */
  method Receive(
    c: Connection, text: string, from: Option<string>, known: set<string>, ghost sent: seq<RunEvent>)
    returns (frames: seq<SseFrame>, cursor: Option<string>, events: seq<string>)
    requires AllPrintable(sent) && text == PrintAll(sent)
    ensures frames == FramesFor(sent[..Arrived(c, sent)])
    ensures cursor == CursorAfter(from, frames) && events == Recognized(frames, known)
  {
    var arriving := Arriving(c, text);
    ConcatOfChunks(arriving, c.cuts);
    ArrivingFrames(c, sent);
    frames, cursor, events := ReadChunks(Chunks(arriving, c.cuts), from, known);
  }

  /**
   * One open connection, the server's loop at one end and the client's at the other:
   * exactly the frames that arrived whole are processed, and the cursor to resume from
   * has moved past exactly those.
   */
  method Consume(c: Connection, from: Option<string>, source: Source, known: set<string>)
    returns (frames: seq<SseFrame>, cursor: Option<string>, events: seq<string>)
    requires Serves(c, source) && source.Valid() && Open(c) == Streaming
    ensures var a := ParseCursor(from);
            && Exactly(frames, source.Events(), a, a + Delivered(c, source, a))
            && ParseCursor(cursor) == a + |frames|
    ensures events == Recognized(frames, known)
  {
    var after := ParseCursor(from);
    SentIsNext(c, source, after);
    var text := Serve(c, source, after);
    frames, cursor, events := Receive(c, text, from, known, Sent(c, source, after));
    CursorOfFrames(from, source.Events(), after, after + Delivered(c, source, after), frames);
  }

  // ------------------------------------------------------- the reconnect loop

  datatype Outcome = Closed | Failed(status: nat) | Cancelled

  /** How a connection ends for the client, read off its fields. */
  function OutcomeOf(c: Connection): Outcome
  {
    if c.ending == Aborted then Cancelled
    else if !Opens(c) then Failed(FailureStatus(c))
    else if c.ending == Done then Closed
    else Failed(0)
  }

  /** Network failures and everything but a 4xx may succeed on another try. */
  predicate Retryable(outcome: Outcome)
  {
    outcome.Failed? && !(400 <= outcome.status < 500)
  }

  /** One pass of the retry loop: open, read if open, and how it went. */
  method Attempt(c: Connection, from: Option<string>, source: Source, known: set<string>)
    returns (frames: seq<SseFrame>, cursor: Option<string>, events: seq<string>, result: Outcome)
    requires Serves(c, source) && source.Valid()
    ensures var a := ParseCursor(from);
            && Exactly(frames, source.Events(), a, a + Delivered(c, source, a))
            && ParseCursor(cursor) == a + |frames|
    ensures events == Recognized(frames, known)
    ensures result == OutcomeOf(c)
  {
    OpenMeans(c);
    match Open(c) {
      case Streaming =>
        frames, cursor, events := Consume(c, from, source, known);
        result := match c.ending case Done => Closed case Dropped => Failed(0) case Aborted => Cancelled;
      case Refused(status) =>
        frames, cursor, events := [], from, [];
        result := if c.ending == Aborted then Cancelled else Failed(status);
    }
  }

  /** Where the first `k` connections take a client that starts at `start`. */
  function Position(connections: seq<Connection>, source: Source, start: nat, k: nat): nat
    requires k <= |connections|
  {
    if k == 0 then start
    else
      var a := Position(connections, source, start, k - 1);
      a + Delivered(connections[k - 1], source, a)
  }

  /** Each connection asks to resume where the ones before it left the client. */
  ghost predicate At(headers: seq<Option<string>>, connections: seq<Connection>, source: Source, start: nat)
    requires |headers| <= |connections|
    decreases |headers|
  {
    headers == []
    || var k := |headers| - 1;
       ParseCursor(headers[k]) == Position(connections, source, start, k)
       && At(headers[..k], connections, source, start)
  }

  lemma AtNext(
    headers: seq<Option<string>>, connections: seq<Connection>, source: Source, start: nat, cursor: Option<string>)
    requires |headers| < |connections|
    requires At(headers, connections, source, start)
    requires ParseCursor(cursor) == Position(connections, source, start, |headers|)
    ensures At(headers + [cursor], connections, source, start)
  {
    assert (headers + [cursor])[..|headers|] == headers;
  }

  lemma JoinFrames(log: seq<RunEvent>, a: nat, b: nat, c: nat, p: seq<SseFrame>, q: seq<SseFrame>)
    requires Exactly(p, log, a, b) && Exactly(q, log, b, c)
    ensures Exactly(p + q, log, a, c)
  {
    assert p == [] ==> p + q == q;
    assert q == [] ==> p + q == p;
  }

  /** What the client has done: requests sent, frames processed, handler calls. */
  datatype Progress = Progress(
    headers: seq<Option<string>>, cursor: Option<string>, frames: seq<SseFrame>, events: seq<string>)

  /**
   * The frames processed are events `start + 1` to the client's position in order,
   * each once; the position counts exactly the frames that arrived whole on each
   * connection; every request resumed from the position of its time.
   */
  ghost predicate Exact(
    p: Progress, connections: seq<Connection>, source: Source, start: nat, known: set<string>)
  {
    && |p.headers| <= |connections|
    && ParseCursor(p.cursor) == Position(connections, source, start, |p.headers|)
    && Exactly(p.frames, source.Events(), start, Position(connections, source, start, |p.headers|))
    && p.events == Recognized(p.frames, known)
    && At(p.headers, connections, source, start)
  }

  lemma TurnIsExact(
    p: Progress, next: Progress, connections: seq<Connection>, source: Source, start: nat, known: set<string>,
    parsed: seq<SseFrame>)
    requires |p.headers| < |connections|
    requires Exact(p, connections, source, start, known)
    requires var a := ParseCursor(p.cursor);
             && Exactly(parsed, source.Events(), a, a + Delivered(connections[|p.headers|], source, a))
             && ParseCursor(next.cursor) == a + |parsed|
    requires next == Progress(
               p.headers + [p.cursor], next.cursor, p.frames + parsed, p.events + Recognized(parsed, known))
    ensures Exact(next, connections, source, start, known)
  {
    var a := Position(connections, source, start, |p.headers|);
    var b := a + Delivered(connections[|p.headers|], source, a);
    assert b == Position(connections, source, start, |p.headers| + 1);
    JoinFrames(source.Events(), start, a, b, p.frames, parsed);
    RecognizedAppend(p.frames, parsed, known);
    AtNext(p.headers, connections, source, start, p.cursor);
  }

  /** One turn of the retry loop. */
  method Turn(p: Progress, connections: seq<Connection>, source: Source, ghost start: nat, known: set<string>)
    returns (next: Progress, outcome: Outcome)
    requires source.Valid() && |p.headers| < |connections| && AllServe(connections, source)
    requires Exact(p, connections, source, start, known)
    ensures Exact(next, connections, source, start, known) && next.headers == p.headers + [p.cursor]
    ensures outcome == OutcomeOf(connections[|p.headers|])
  {
    var c := connections[|p.headers|];
    var parsed, cursor, handled;
    parsed, cursor, handled, outcome := Attempt(c, p.cursor, source, known);
    next := Progress(p.headers + [p.cursor], cursor, p.frames + parsed, p.events + handled);
    TurnIsExact(p, next, connections, source, start, known, parsed);
  }

  ghost predicate AllRetryable(n: nat, connections: seq<Connection>)
    requires n <= |connections|
  {
    n == 0 || (AllRetryable(n - 1, connections) && Retryable(OutcomeOf(connections[n - 1])))
  }

  lemma {:induction false} EachIsRetryable(n: nat, connections: seq<Connection>, k: nat)
    requires k < n <= |connections| && AllRetryable(n, connections)
    ensures Retryable(OutcomeOf(connections[k]))
  {
    if k < n - 1 {
      EachIsRetryable(n - 1, connections, k);
    }
  }

  /** Retryable failures up to the last request; after it the client gives up or is done. */
  ghost predicate EndsAfter(n: nat, outcome: Outcome, connections: seq<Connection>)
  {
    && 1 <= n <= MAX_STREAM_RECONNECTS + 1 && n <= |connections|
    && outcome == OutcomeOf(connections[n - 1])
    && AllRetryable(n - 1, connections)
    && (Retryable(outcome) ==> n == MAX_STREAM_RECONNECTS + 1)
  }

  /** After `n` requests, all failed in a way worth another try. */
  ghost predicate Trying(n: nat, outcome: Outcome, connections: seq<Connection>)
  {
    && n <= MAX_STREAM_RECONNECTS + 1 && n <= |connections| && AllRetryable(n, connections)
    && Retryable(outcome) && (n > 0 ==> outcome == OutcomeOf(connections[n - 1]))
    && (n == MAX_STREAM_RECONNECTS + 1 ==> EndsAfter(n, outcome, connections))
  }

  lemma TryNext(n: nat, outcome: Outcome, connections: seq<Connection>)
    requires n <= MAX_STREAM_RECONNECTS < |connections| && AllRetryable(n, connections)
    requires outcome == OutcomeOf(connections[n])
    ensures if Retryable(outcome) then Trying(n + 1, outcome, connections) else EndsAfter(n + 1, outcome, connections)
  {
  }

  /** A turn, and whether the client tries again after it. */
  method TakeTurn(p: Progress, connections: seq<Connection>, source: Source, ghost start: nat, known: set<string>)
    returns (next: Progress, outcome: Outcome, more: bool)
    requires source.Valid() && |p.headers| <= MAX_STREAM_RECONNECTS < |connections| && AllServe(connections, source)
    requires Exact(p, connections, source, start, known) && AllRetryable(|p.headers|, connections)
    ensures Exact(next, connections, source, start, known) && next.headers == p.headers + [p.cursor]
    ensures if more then Trying(|next.headers|, outcome, connections)
            else EndsAfter(|next.headers|, outcome, connections)
  {
    next, outcome := Turn(p, connections, source, start, known);
    TryNext(|p.headers|, outcome, connections);
    more := outcome.Failed? && !(400 <= outcome.status < 500);
  }

  /**
   * End to end: exact delivery over any number of drops and reconnects, while the log
   * grows under the server's polls.
   */
  method StreamRunEvents(
    lastEventId: Option<string>, connections: seq<Connection>, source: Source, known: set<string>)
    returns (p: Progress, outcome: Outcome)
    requires |connections| > MAX_STREAM_RECONNECTS
    requires source.Valid() && AllServe(connections, source)
    ensures Exact(p, connections, source, ParseCursor(lastEventId), known)
    ensures p.headers != [] && p.headers[0] == lastEventId
    ensures EndsAfter(|p.headers|, outcome, connections)
  {
    ghost var start := ParseCursor(lastEventId);
    p := Progress([], lastEventId, [], []);
    outcome := Failed(0);
    var attempt := 0;
    while attempt <= MAX_STREAM_RECONNECTS
      invariant attempt == |p.headers| <= MAX_STREAM_RECONNECTS + 1
      invariant Exact(p, connections, source, start, known)
      invariant if attempt == 0 then p.cursor == lastEventId else p.headers[0] == lastEventId
      invariant Trying(attempt, outcome, connections)
    {
      var more;
      p, outcome, more := TakeTurn(p, connections, source, start, known);
      if !more {
        break;
      }
      attempt := attempt + 1;
    }
  }

  /** The usual run: the first answer is read to its end, so one request is made. */
  lemma ReadToItsEnd(n: nat, outcome: Outcome, connections: seq<Connection>)
    requires EndsAfter(n, outcome, connections)
    requires Opens(connections[0]) && connections[0].ending == Done
    ensures outcome == Closed && n == 1
  {
    if n > 1 {
      EachIsRetryable(n - 1, connections, 0);
    }
  }

  /** A 4xx that a refresh does not mend ends the run after one request, with its status. */
  lemma RefusedAtOnce(n: nat, outcome: Outcome, connections: seq<Connection>, status: nat)
    requires EndsAfter(n, outcome, connections) && connections[0].ending != Aborted
    requires connections[0].first.Answer? && connections[0].first.status == status && 400 <= status < 500
    requires !AsksAgain(connections[0])
    ensures outcome == Failed(status) && n == 1
  {
    if n > 1 {
      EachIsRetryable(n - 1, connections, 0);
    }
  }

  /** After one request the frames are the events sent, if all arrived, or none, if it was refused. */
  lemma FramesOfOneRequest(
    p: Progress, connections: seq<Connection>, source: Source, start: nat, known: set<string>)
    requires Exact(p, connections, source, start, known) && |p.headers| == 1
    ensures !Opens(connections[0]) ==> p.frames == []
    ensures Opens(connections[0]) && connections[0].arrives == None ==>
              p.frames == FramesFor(Sent(connections[0], source, start))
  {
    var c := connections[0];
    OpenMeans(c);
    assert Position(connections, source, start, 0) == start;
    assert Position(connections, source, start, 1) == start + Delivered(c, source, start);
    SentIsBetween(c, source, start);
  }

  lemma SentIsBetween(c: Connection, source: Source, a: nat)
    ensures var sent := Sent(c, source, a); Between(source.Events(), a, a + |sent|) == sent
  {
  }

  /**
   * A connection that delivers all that was printed brings the client to the end of
   * the log, when the server ended it because the run was terminal and each of its
   * polls saw one snapshot. A terminal status is committed with the last event.
   */
  lemma WholeConnectionReachesEnd(c: Connection, source: Source, a: nat)
    requires Serves(c, source) && a <= |source.Events()|
    requires Opens(c) && c.arrives == None
    requires forall i :: 0 <= i < |c.ticks| && c.ticks[i].atStatus.finished ==>
               |Log(c.ticks[i].atStatus.rows, source.run)| == |source.Events()|
    requires forall i :: 0 <= i < |c.ticks| ==> c.ticks[i].atEvents == c.ticks[i].atStatus
    requires Follow(Views(c.ticks, source.run), 0, a, 0.0).end == Finished
    ensures a + Delivered(c, source, a) == |source.Events()| && Reached(c, source, a) == |source.Events()|
  {
    OpenMeans(c);
    AppendOnlyIsLegal(c.ticks, source.rows, source.run);
    ReachedWithinLog(c, source, a);
    FinishedStreamIsWhole(Views(c.ticks, source.run), |source.Events()|, a);
  }
}
