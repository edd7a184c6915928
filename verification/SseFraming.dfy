/**
 * Server-Sent Events framing: the incremental parser of frontend/src/lib/sse.ts.
 *
 * `ParseSseBuffer` and `ParseFrame` are the two loops of that file. The function
 * `Parse` they are proved against has three independent readings:
 *  - any cutting of a stream into network chunks gives one result (`FeedIsParse`);
 *  - it emits what a line-at-a-time automaton over the raw characters emits, with
 *    CR, LF and CRLF all ending a line (`ParseIsAutomaton`);
 *  - it is a left inverse of the server's printer (module EventStream).
 */
module SseFraming {
  import opened Wrappers
  import opened Text

  datatype SseFrame = SseFrame(event: Option<string>, data: string, id: Option<string>)
  datatype SseParseResult = SseParseResult(frames: seq<SseFrame>, rest: string)

  // ------------------------------------------------------------- one frame

  /** The three variables `parseFrame` updates line by line. */
  datatype Fields = Fields(event: Option<string>, id: Option<string>, data: seq<string>)

  const NO_FIELDS := Fields(None, None, [])

  function FieldName(line: string): string
  {
    var separator := IndexOf(line, ':');
    if separator == -1 then line else line[..separator]
  }

  /** The text after the colon, less exactly one optional space. */
  function FieldValue(line: string): string
  {
    var separator := IndexOf(line, ':');
    var value := if separator == -1 then "" else line[separator + 1..];
    if value != "" && value[0] == ' ' then value[1..] else value
  }

  function ApplyField(f: Fields, field: string, value: string): Fields
  {
    if field == "event" then f.(event := Some(Trim(JavaScript, value)))
    else if field == "data" then f.(data := f.data + [value])
    else if field == "id" then f.(id := Some(Trim(JavaScript, value)))
    else f
  }

  function ApplyLine(f: Fields, line: string): Fields
  {
    if line == "" || line[0] == ':' then f
    else ApplyField(f, FieldName(line), FieldValue(line))
  }

  function FoldLines(f: Fields, lines: seq<string>): Fields
    decreases |lines|
  {
    if lines == [] then f else FoldLines(ApplyLine(f, lines[0]), lines[1..])
  }

  function JoinLines(parts: seq<string>): string
  {
    if parts == [] then ""
    else if |parts| == 1 then parts[0]
    else parts[0] + "\n" + JoinLines(parts[1..])
  }

  function Finish(f: Fields): Option<SseFrame>
  {
    if f == NO_FIELDS then None else Some(SseFrame(f.event, JoinLines(f.data), f.id))
  }

  function FrameOf(raw: string): Option<SseFrame>
  {
    Finish(FoldLines(NO_FIELDS, Lines(raw)))
  }

  lemma FoldLinesNext(f: Fields, lines: seq<string>, i: nat)
    requires i < |lines|
    ensures FoldLines(f, lines[i..]) == FoldLines(ApplyLine(f, lines[i]), lines[i + 1..])
  {
    assert lines[i..][1..] == lines[i + 1..];
  }

  method ParseFrame(raw: string) returns (frame: Option<SseFrame>)
    ensures frame == FrameOf(raw)
  {
    var event: Option<string>, id: Option<string> := None, None;
    var data: seq<string> := [];
    var lines := Lines(raw);
    for i := 0 to |lines|
      invariant FoldLines(Fields(event, id, data), lines[i..]) == FoldLines(NO_FIELDS, lines)
    {
      var line := lines[i];
      ghost var before := Fields(event, id, data);
      FoldLinesNext(before, lines, i);
      if line == "" || line[0] == ':' {
        continue;
      }
      var separator := IndexOf(line, ':');
      var field := FieldName(line);
      var value := if separator == -1 then "" else line[separator + 1..];
      if value != "" && value[0] == ' ' {
        value := value[1..];
      }
      if field == "event" {
        event := Some(Trim(JavaScript, value));
      } else if field == "data" {
        data := data + [value];
      } else if field == "id" {
        id := Some(Trim(JavaScript, value));
      }
      assert Fields(event, id, data) == ApplyLine(before, line);
    }
    if event == None && data == [] && id == None {
      return None;
    }
    return Some(SseFrame(event, JoinLines(data), id));
  }

  // ------------------------------------------------------------ the buffer

  predicate EndsWithCr(s: string)
  {
    s != "" && s[|s| - 1] == CR
  }

  /** The buffer less a trailing lone CR, which may be half of a CRLF. */
  function Body(s: string): string
  {
    if EndsWithCr(s) then s[..|s| - 1] else s
  }

  /** `replace(/\r\n|\r/g, "\n")`. */
  function Normalize(s: string): (n: string)
    ensures CR !in n
  {
    if s == "" then ""
    else if s[0] == CR then
      [LF] + Normalize(if |s| > 1 && s[1] == LF then s[2..] else s[1..])
    else [s[0]] + Normalize(s[1..])
  }

  predicate BlankAt(s: string, k: int)
  {
    0 <= k < |s| - 1 && s[k] == LF && s[k + 1] == LF
  }

  /** `indexOf("\n\n")`: the leftmost blank line, or -1. */
  function BlankLine(s: string): (i: int)
    ensures i == -1 || BlankAt(s, i)
    ensures forall k :: BlankAt(s, k) ==> 0 <= i <= k
  {
    if |s| < 2 then -1
    else if s[0] == LF && s[1] == LF then 0
    else
      var i := BlankLine(s[1..]);
      assert forall k :: BlankAt(s, k) ==> BlankAt(s[1..], k - 1);
      if i == -1 then -1 else i + 1
  }

  /** Every complete frame of a text without CR, and what follows the last one. */
  function Scan(s: string): SseParseResult
    decreases |s|
  {
    var i := BlankLine(s);
    if i == -1 then SseParseResult([], s)
    else
      var tail := Scan(s[i + 2..]);
      SseParseResult(FrameOf(s[..i]).ToSeq() + tail.frames, tail.rest)
  }

  function Parse(buffer: string): SseParseResult
  {
    var r := Scan(Normalize(Body(buffer)));
    if EndsWithCr(buffer) then r.(rest := r.rest + [CR]) else r
  }

  lemma ScanNext(before: seq<SseFrame>, s: string, i: nat)
    requires i == BlankLine(s)
    ensures before + Scan(s).frames == before + FrameOf(s[..i]).ToSeq() + Scan(s[i + 2..]).frames
    ensures Scan(s).rest == Scan(s[i + 2..]).rest
  {
    ScanStep(s, i);
    Associative(before, FrameOf(s[..i]).ToSeq(), Scan(s[i + 2..]).frames);
  }

  method ParseSseBuffer(buffer: string) returns (frames: seq<SseFrame>, rest: string)
    ensures SseParseResult(frames, rest) == Parse(buffer)
  {
    var pendingCr := EndsWithCr(buffer);
    var body := if pendingCr then buffer[..|buffer| - 1] else buffer;
    var normalized := Normalize(body);

    frames := [];
    var remainder := normalized;
    var boundary := BlankLine(remainder);
    while boundary != -1
      invariant boundary == BlankLine(remainder)
      invariant Scan(normalized).frames == frames + Scan(remainder).frames
      invariant Scan(normalized).rest == Scan(remainder).rest
      decreases |remainder|
    {
      var frame := ParseFrame(remainder[..boundary]);
      ScanNext(frames, remainder, boundary);
      assert frame.None? ==> frames + frame.ToSeq() == frames;
      if frame.Some? {
        frames := frames + [frame.value];
      }
      remainder := remainder[boundary + 2..];
      boundary := BlankLine(remainder);
    }
    rest := if pendingCr then remainder + [CR] else remainder;
  }

  // ------------------------------------------------- chunking invariance

  /** The read loop: parse `rest + chunk` for each chunk, carrying `rest`. */
  function Feed(chunks: seq<string>): SseParseResult
  {
    if chunks == [] then SseParseResult([], "")
    else
      var before := Feed(chunks[..|chunks| - 1]);
      var now := Parse(before.rest + chunks[|chunks| - 1]);
      SseParseResult(before.frames + now.frames, now.rest)
  }

  lemma {:induction false} NormalizeAppend(a: string, b: string)
    requires EndsWithCr(a) && b != "" ==> b[0] != LF
    ensures Normalize(a + b) == Normalize(a) + Normalize(b)
    decreases |a|
  {
    if a == "" {
      assert a + b == b;
    } else {
      var k := if a[0] == CR && |a| > 1 && a[1] == LF then 2 else 1;
      var c, rest := if a[0] == CR then [LF] else [a[0]], a[k..];
      assert (a + b)[k..] == rest + b;
      NormalizeAppend(rest, b);
      Associative(c, Normalize(rest), Normalize(b));
    }
  }

  lemma {:induction false} NormalizeIsIdentity(s: string)
    requires CR !in s
    ensures Normalize(s) == s
  {
    if s != "" {
      NormalizeIsIdentity(s[1..]);
    }
  }

  /** The leftmost search works on a prefix as it does on the whole text. */
  lemma {:induction false} ScanAppend(a: string, b: string)
    ensures var p := Scan(a);
            var q := Scan(p.rest + b);
            Scan(a + b) == SseParseResult(p.frames + q.frames, q.rest)
    decreases |a|
  {
    var i := BlankLine(a);
    if i != -1 {
      var c := a[i + 2..];
      ScanAppend(c, b);
      ScanStepAppend(a, b, i, Scan(c), Scan(Scan(c).rest + b));
    }
  }

  lemma ScanStepAppend(a: string, b: string, i: nat, p: SseParseResult, q: SseParseResult)
    requires i == BlankLine(a) && p == Scan(a[i + 2..])
    requires Scan(a[i + 2..] + b) == SseParseResult(p.frames + q.frames, q.rest)
    ensures Scan(a).rest == p.rest
    ensures Scan(a + b) == SseParseResult(Scan(a).frames + q.frames, q.rest)
  {
    BlankLineOfAppend(a, b);
    SplitOfAppend(a, b, i);
    var frame := FrameOf(a[..i]).ToSeq();
    ScanStep(a, i);
    ScanStep(a + b, i);
    Associative(frame, p.frames, q.frames);
  }

  lemma SplitOfAppend(a: string, b: string, i: nat)
    requires i + 2 <= |a|
    ensures (a + b)[..i] == a[..i] && (a + b)[i + 2..] == a[i + 2..] + b
  {
  }

  lemma ScanStep(s: string, i: nat)
    requires i == BlankLine(s)
    ensures Scan(s).frames == FrameOf(s[..i]).ToSeq() + Scan(s[i + 2..]).frames
    ensures Scan(s).rest == Scan(s[i + 2..]).rest
  {
  }

  lemma BlankLineOfAppend(a: string, b: string)
    requires BlankLine(a) != -1
    ensures BlankLine(a + b) == BlankLine(a)
  {
    var i, j := BlankLine(a), BlankLine(a + b);
    assert BlankAt(a + b, i);
    assert BlankAt(a, j);
  }

  lemma {:induction false} RestIsScanned(s: string)
    requires CR !in s
    ensures BlankLine(Scan(s).rest) == -1 && CR !in Scan(s).rest
    decreases |s|
  {
    var i := BlankLine(s);
    if i != -1 {
      RestIsScanned(s[i + 2..]);
    }
  }

  /** A prefix that does not split a CRLF from `t` is normalised on its own. */
  lemma ParseAfter(x: string, t: string)
    requires EndsWithCr(x) ==> t != "" && t[0] != LF
    ensures var r := Scan(Normalize(x) + Normalize(Body(t)));
            Parse(x + t) == if EndsWithCr(t) then r.(rest := r.rest + [CR]) else r
  {
    NormalizeAppend(x, Body(t));
    BodyOfAppend(x, t);
  }

  lemma BodyOfAppend(x: string, t: string)
    requires t != "" || !EndsWithCr(x)
    ensures EndsWithCr(x + t) == EndsWithCr(t) && Body(x + t) == x + Body(t)
  {
  }

  lemma ParseResume(x: string, t: string)
    requires EndsWithCr(x) ==> t != "" && t[0] != LF
    ensures var p := Scan(Normalize(x));
            var q := Parse(p.rest + t);
            Parse(x + t) == SseParseResult(p.frames + q.frames, q.rest)
  {
    var n, m := Normalize(x), Normalize(Body(t));
    var rest := Scan(n).rest;
    RestIsScanned(n);
    NormalizeIsIdentity(rest);
    ParseAfter(x, t);
    ParseAfter(rest, t);
    ScanAppend(n, m);
  }

  /** The carriage return held back comes first when parsing resumes. */
  lemma HeldBack(a: string, b: string)
    ensures var held := if EndsWithCr(a) then [CR] else "";
            && a + b == Body(a) + (held + b)
            && Parse(a).frames == Scan(Normalize(Body(a))).frames
            && Parse(a).rest + b == Scan(Normalize(Body(a))).rest + (held + b)
            && (EndsWithCr(Body(a)) ==> held + b != "" && (held + b)[0] != LF)
  {
    var x, rest := Body(a), Scan(Normalize(Body(a))).rest;
    if EndsWithCr(a) {
      assert x + [CR] == a;
      Associative(x, [CR], b);
      Associative(rest, [CR], b);
    } else {
      assert "" + b == b;
    }
  }

  /** Parsing may stop anywhere, even inside a CRLF, and resume from `rest`. */
  lemma ParseAppend(a: string, b: string)
    ensures var p := Parse(a);
            var q := Parse(p.rest + b);
            Parse(a + b) == SseParseResult(p.frames + q.frames, q.rest)
  {
    HeldBack(a, b);
    ParseResume(Body(a), (if EndsWithCr(a) then [CR] else "") + b);
  }

  /** Chunking invariance: only the concatenation of the chunks matters. */
  lemma {:induction false} FeedIsParse(chunks: seq<string>)
    ensures Feed(chunks) == Parse(Concat(chunks))
  {
    if chunks != [] {
      var init := chunks[..|chunks| - 1];
      FeedIsParse(init);
      ParseAppend(Concat(init), chunks[|chunks| - 1]);
    }
  }

  // ------------------------------------------- the line-at-a-time automaton

  /**
   * A reader of one raw character at a time, in the manner of sections 9.2.5 and
   * 9.2.6 of the HTML standard: CR, LF and CRLF each end a line, an empty line
   * dispatches the fields gathered so far, any other line updates them.
   */
  datatype Automaton = Automaton(fields: Fields, line: string, afterCr: bool, out: seq<SseFrame>)

  const FRESH_READER := Automaton(NO_FIELDS, "", false, [])

  function EndLine(a: Automaton): Automaton
  {
    if a.line == "" then a.(fields := NO_FIELDS, out := a.out + Finish(a.fields).ToSeq())
    else a.(fields := ApplyLine(a.fields, a.line), line := "")
  }

  function Read(a: Automaton, c: char): Automaton
  {
    if c == LF && a.afterCr then a.(afterCr := false)
    else if c == CR || c == LF then EndLine(a).(afterCr := c == CR)
    else a.(line := a.line + [c], afterCr := false)
  }

  function Run(a: Automaton, s: string): Automaton
    decreases |s|
  {
    if s == "" then a else Run(Read(a, s[0]), s[1..])
  }

  lemma {:induction false} RunAppend(a: Automaton, s: string, t: string)
    ensures Run(a, s + t) == Run(Run(a, s), t)
    decreases |s|
  {
    if s == "" {
      assert s + t == t;
    } else {
      assert (s + t)[1..] == s[1..] + t;
      RunAppend(Read(a, s[0]), s[1..], t);
    }
  }

  lemma {:induction false} RunNormalized(a: Automaton, s: string)
    requires !(a.afterCr && s != "" && s[0] == LF)
    ensures Run(a, s).(afterCr := false) == Run(a.(afterCr := false), Normalize(s))
    decreases |s|
  {
    if s == "" {
    } else if s[0] == CR && |s| > 1 && s[1] == LF {
      var b := Read(Read(a, s[0]), s[1]);
      assert Run(a, s) == Run(Read(a, s[0]), s[1..]);
      assert s[1..][1..] == s[2..];
      RunNormalized(b, s[2..]);
      assert Normalize(s)[1..] == Normalize(s[2..]);
    } else {
      RunNormalized(Read(a, s[0]), s[1..]);
      assert Normalize(s)[1..] == Normalize(s[1..]);
    }
  }

  /** `FoldLines` over `Lines`, read one character at a time. */
  function FoldText(f: Fields, line: string, t: string): Fields
    decreases |t|
  {
    if t == "" then ApplyLine(f, line)
    else if t[0] == LF then FoldText(ApplyLine(f, line), "", t[1..])
    else FoldText(f, line + [t[0]], t[1..])
  }

  lemma FoldLinesCons(f: Fields, line: string, lines: seq<string>)
    ensures FoldLines(f, [line] + lines) == FoldLines(ApplyLine(f, line), lines)
  {
    assert ([line] + lines)[1..] == lines;
  }

  lemma {:induction false} FoldTextIsFoldLines(f: Fields, line: string, t: string)
    requires LF !in line
    ensures FoldText(f, line, t) == FoldLines(f, Lines(line + t))
    decreases |t|
  {
    if t == "" {
      LinesOfLine(line);
      assert line + t == line && [line] == [line] + [];
      FoldLinesCons(f, line, []);
    } else {
      assert t == [t[0]] + t[1..];
      Associative(line, [t[0]], t[1..]);
      if t[0] == LF {
        LinesCons(line, t[1..]);
        assert "" + t[1..] == t[1..];
        FoldTextIsFoldLines(ApplyLine(f, line), "", t[1..]);
        FoldLinesCons(f, line, Lines(t[1..]));
      } else {
        FoldTextIsFoldLines(f, line + [t[0]], t[1..]);
      }
    }
  }

  /** No empty line follows the fields gathered in `a` before `s` ends. */
  ghost predicate Quiet(a: Automaton, s: string)
  {
    CR !in s && !a.afterCr && (forall k :: !BlankAt(s, k))
    && (a.line == "" && s != "" && s[0] == LF ==> a.fields == NO_FIELDS)
  }

  lemma QuietStep(a: Automaton, s: string)
    requires Quiet(a, s) && s != ""
    ensures Quiet(Read(a, s[0]), s[1..]) && Read(a, s[0]).out == a.out
  {
    forall k ensures !BlankAt(s[1..], k) {
      assert !BlankAt(s, k + 1);
    }
    assert !BlankAt(s, 0);
  }

  lemma {:induction false} RunQuiet(a: Automaton, s: string)
    requires Quiet(a, s)
    ensures Run(a, s).out == a.out
    decreases |s|
  {
    if s != "" {
      QuietStep(a, s);
      RunQuiet(Read(a, s[0]), s[1..]);
    }
  }

  /** A block closed by a blank line dispatches its fields and starts afresh. */
  lemma {:induction false} RunBlock(a: Automaton, t: string)
    requires Quiet(a, t + [LF])
    ensures Run(a, t + "\n\n")
         == FRESH_READER.(out := a.out + Finish(FoldText(a.fields, a.line, t)).ToSeq())
    decreases |t|
  {
    var s := t + "\n\n";
    if t == "" {
      var b := Read(a, LF);
      assert s[1..] == [LF] && [LF][1..] == "";
      assert Run(a, s) == Run(b, [LF]) == Run(Read(b, LF), "");
    } else {
      assert (t + [LF])[1..] == t[1..] + [LF] && s[1..] == t[1..] + "\n\n";
      QuietStep(a, t + [LF]);
      RunBlock(Read(a, t[0]), t[1..]);
    }
  }

  lemma RunFrame(a: Automaton, s: string, i: nat)
    requires CR !in s && i == BlankLine(s) && a == FRESH_READER.(out := a.out)
    ensures Run(a, s) == Run(a.(out := a.out + FrameOf(s[..i]).ToSeq()), s[i + 2..])
  {
    var raw := s[..i];
    assert s == (raw + "\n\n") + s[i + 2..];
    forall k ensures !BlankAt(raw + [LF], k) {
      if BlankAt(raw + [LF], k) { assert BlankAt(s, k); }
    }
    RunBlock(a, raw);
    FoldTextIsFoldLines(NO_FIELDS, "", raw);
    assert "" + raw == raw;
    RunAppend(a, raw + "\n\n", s[i + 2..]);
  }

  lemma {:induction false} RunIsScan(a: Automaton, s: string)
    requires CR !in s && a == FRESH_READER.(out := a.out)
    ensures Run(a, s).out == a.out + Scan(s).frames
    decreases |s|
  {
    var i := BlankLine(s);
    if i == -1 {
      RunQuiet(a, s);
    } else {
      RunFrame(a, s, i);
      RunIsScan(a.(out := a.out + FrameOf(s[..i]).ToSeq()), s[i + 2..]);
      ScanNext(a.out, s, i);
    }
  }

  /** Refinement: the buffer search emits exactly what the automaton dispatches. */
  lemma ParseIsAutomaton(buffer: string)
    ensures Parse(buffer).frames == Run(FRESH_READER, Body(buffer)).out
  {
    RunNormalized(FRESH_READER, Body(buffer));
    RunIsScan(FRESH_READER, Normalize(Body(buffer)));
  }
}
