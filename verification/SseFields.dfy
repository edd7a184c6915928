/**
 * What a frame of lines means, whatever its sender wrote: `parseFrame` of
 * frontend/src/lib/sse.ts on comments, fields with and without the optional space,
 * fields without a colon, repeated fields and data of several lines.
 */
module SseFields {
  import opened Wrappers
  import opened Text
  import opened SseFraming

  /** The forms a line can take. */
  datatype Line =
    | Empty
    | Comment(text: string)
    | Field(name: string, spaced: bool, value: string)
    | Bare(name: string)

  predicate OneLine(s: string)
  {
    LF !in s
  }

  predicate Name(s: string)
  {
    s != "" && ':' !in s && OneLine(s)
  }

  /** Without the optional space a value cannot begin with one. */
  predicate Legal(line: Line)
  {
    match line
    case Empty => true
    case Comment(text) => OneLine(text)
    case Field(name, spaced, value) => Name(name) && OneLine(value) && (!spaced && value != "" ==> value[0] != ' ')
    case Bare(name) => Name(name)
  }

  function Written(line: Line): string
  {
    match line
    case Empty => ""
    case Comment(text) => [':'] + text
    case Field(name, spaced, value) => name + [':'] + (if spaced then [' '] else "") + value
    case Bare(name) => name
  }

  /** The value a line gives to the field of that name, if it names it. */
  function ValueFor(line: Line, name: string): seq<string>
  {
    match line
    case Field(n, _, value) => if n == name then [value] else []
    case Bare(n) => if n == name then [""] else []
    case _ => []
  }

  /** All values given to a field, in order. */
  function Values(lines: seq<Line>, name: string): seq<string>
  {
    if lines == [] then [] else Values(lines[..|lines| - 1], name) + ValueFor(lines[|lines| - 1], name)
  }

  function LastTrimmed(values: seq<string>): Option<string>
  {
    if values == [] then None else Some(Trim(JavaScript, values[|values| - 1]))
  }

  // ----------------------------------------------------- every text is such lines

  /** Every line has one of the forms. */
  lemma FormOf(s: string) returns (line: Line)
    requires OneLine(s)
    ensures Legal(line) && Written(line) == s
  {
    if s == "" {
      line := Empty;
    } else if s[0] == ':' {
      line := Comment(s[1..]);
    } else {
      var i := IndexOf(s, ':');
      if i == -1 {
        NotFoundIsAbsent(s, ':');
        line := Bare(s);
      } else {
        line := FieldOf(s, i);
      }
    }
  }

  lemma FieldOf(s: string, i: nat) returns (line: Line)
    requires OneLine(s) && s != "" && s[0] != ':' && i == IndexOf(s, ':')
    ensures Legal(line) && Written(line) == s
  {
    FirstIsFirst(s, ':');
    assert s[..i][0] == s[0];
    line := FieldFrom(s[..i], s[i + 1..]);
    assert s == s[..i] + [':'] + s[i + 1..];
  }

  lemma FieldFrom(name: string, rest: string) returns (line: Line)
    requires Name(name) && OneLine(rest)
    ensures Legal(line) && Written(line) == name + [':'] + rest
  {
    if rest != "" && rest[0] == ' ' {
      line := Field(name, true, rest[1..]);
      assert rest == [' '] + rest[1..];
      Associative(name + [':'], [' '], rest[1..]);
    } else {
      line := Field(name, false, rest);
    }
  }

  lemma {:induction false} NotFoundIsAbsent(s: string, c: char)
    requires IndexOf(s, c) == -1
    ensures c !in s
  {
    if s != "" {
      NotFoundIsAbsent(s[1..], c);
    }
  }

  lemma {:induction false} FirstIsFirst(s: string, c: char)
    requires IndexOf(s, c) >= 0
    ensures c !in s[..IndexOf(s, c)]
  {
    if s[0] != c {
      FirstIsFirst(s[1..], c);
      assert s[..IndexOf(s, c)] == [s[0]] + s[1..][..IndexOf(s[1..], c)];
    }
  }

  // ------------------------------------------------------------ what a line does

  lemma ApplyComment(f: Fields, text: string)
    ensures ApplyLine(f, [':'] + text) == f
  {
  }

  lemma ApplyBare(f: Fields, name: string)
    requires Name(name)
    ensures ApplyLine(f, name) == ApplyField(f, name, "")
  {
    IndexOfAbsent(name, ':');
    assert name[0] in name;
  }

  lemma ApplyWritten(f: Fields, name: string, spaced: bool, value: string)
    requires Legal(Field(name, spaced, value))
    ensures ApplyLine(f, Written(Field(name, spaced, value))) == ApplyField(f, name, value)
  {
    var rest := (if spaced then [' '] else "") + value;
    var line := Written(Field(name, spaced, value));
    assert line == name + [':'] + rest;
    assert name[0] in name && line[0] == name[0];
    IndexOfFirst(name, ':', rest);
    assert line[..|name|] == name && line[|name| + 1..] == rest;
    assert spaced ==> rest[1..] == value;
    assert !spaced ==> rest == value;
  }

  /** The fields hold the last event and id, and all data, of the lines so far. */
  ghost predicate Gathered(f: Fields, lines: seq<Line>)
  {
    && f.event == LastTrimmed(Values(lines, "event"))
    && f.id == LastTrimmed(Values(lines, "id"))
    && f.data == Values(lines, "data")
  }

  lemma NamesDiffer()
    ensures "event" != "data" && "event" != "id" && "data" != "id"
  {
    assert "event"[0] == 'e' && "data"[0] == 'd' && "id"[0] == 'i';
  }

  lemma ValuesNext(lines: seq<Line>, line: Line, name: string)
    ensures Values(lines + [line], name) == Values(lines, name) + ValueFor(line, name)
    ensures ValueFor(line, name) == [] ==> Values(lines + [line], name) == Values(lines, name)
  {
    assert (lines + [line])[..|lines|] == lines;
  }

  /** A value given to a field, and to no other. */
  lemma FieldGathers(f: Fields, lines: seq<Line>, more: seq<Line>, name: string, value: string)
    requires Gathered(f, lines)
    requires Values(more, "event") == Values(lines, "event") + if name == "event" then [value] else []
    requires Values(more, "data") == Values(lines, "data") + if name == "data" then [value] else []
    requires Values(more, "id") == Values(lines, "id") + if name == "id" then [value] else []
    ensures Gathered(ApplyField(f, name, value), more)
  {
    NamesDiffer();
  }

  lemma NothingGathers(f: Fields, lines: seq<Line>, more: seq<Line>)
    requires Gathered(f, lines)
    requires Values(more, "event") == Values(lines, "event")
    requires Values(more, "data") == Values(lines, "data")
    requires Values(more, "id") == Values(lines, "id")
    ensures Gathered(f, more)
  {
  }

  lemma ApplyGathers(f: Fields, lines: seq<Line>, line: Line)
    requires Gathered(f, lines) && Legal(line)
    ensures Gathered(ApplyLine(f, Written(line)), lines + [line])
  {
    ValuesNext(lines, line, "event");
    ValuesNext(lines, line, "data");
    ValuesNext(lines, line, "id");
    match line {
      case Empty => NothingGathers(f, lines, lines + [line]);
      case Comment(text) =>
        ApplyComment(f, text);
        NothingGathers(f, lines, lines + [line]);
      case Bare(name) =>
        ApplyBare(f, name);
        FieldGathers(f, lines, lines + [line], name, "");
      case Field(name, spaced, value) =>
        ApplyWritten(f, name, spaced, value);
        FieldGathers(f, lines, lines + [line], name, value);
    }
  }

  function Texts(lines: seq<Line>): (texts: seq<string>)
    ensures |texts| == |lines|
  {
    seq(|lines|, i requires 0 <= i < |lines| => Written(lines[i]))
  }

  lemma {:induction false} FoldLinesLast(f: Fields, lines: seq<string>, last: string)
    ensures FoldLines(f, lines + [last]) == ApplyLine(FoldLines(f, lines), last)
    decreases |lines|
  {
    var more := lines + [last];
    if lines == [] {
      assert more == [last] && more[1..] == [];
    } else {
      assert more[1..] == lines[1..] + [last];
      FoldLinesLast(ApplyLine(f, lines[0]), lines[1..], last);
    }
  }

  lemma {:induction false} FoldGathers(lines: seq<Line>)
    requires forall i :: 0 <= i < |lines| ==> Legal(lines[i])
    ensures Gathered(FoldLines(NO_FIELDS, Texts(lines)), lines)
    decreases |lines|
  {
    if lines != [] {
      var init, last := lines[..|lines| - 1], lines[|lines| - 1];
      FoldGathers(init);
      assert Texts(lines) == Texts(init) + [Written(last)];
      assert lines == init + [last];
      FoldLinesLast(NO_FIELDS, Texts(init), Written(last));
      ApplyGathers(FoldLines(NO_FIELDS, Texts(init)), init, last);
    }
  }

  // ------------------------------------------------------------------ the frame

  /** Joining with line feeds is undone by splitting at them. */
  lemma {:induction false} LinesOfJoined(parts: seq<string>)
    requires parts != [] && forall i :: 0 <= i < |parts| ==> OneLine(parts[i])
    ensures Lines(JoinLines(parts)) == parts
    decreases |parts|
  {
    if |parts| == 1 {
      LinesOfLine(parts[0]);
    } else {
      LinesOfJoined(parts[1..]);
      LinesCons(parts[0], JoinLines(parts[1..]));
      assert parts[0] + "\n" + JoinLines(parts[1..]) == parts[0] + [LF] + JoinLines(parts[1..]);
    }
  }

  lemma WrittenIsOneLine(line: Line)
    requires Legal(line)
    ensures OneLine(Written(line))
  {
  }

  lemma FrameOfWritten(lines: seq<Line>)
    requires lines != [] && forall i :: 0 <= i < |lines| ==> Legal(lines[i])
    ensures FrameOf(JoinLines(Texts(lines))) == Finish(FoldLines(NO_FIELDS, Texts(lines)))
  {
    forall i | 0 <= i < |lines| ensures OneLine(Texts(lines)[i]) {
      WrittenIsOneLine(lines[i]);
    }
    LinesOfJoined(Texts(lines));
  }

  /** What a frame shows of the values gathered. */
  ghost predicate Shows(frame: Option<SseFrame>, events: seq<string>, ids: seq<string>, data: seq<string>)
  {
    && (frame == None <==> events == [] && ids == [] && data == [])
    && (frame.Some? ==>
          && frame.value.event == LastTrimmed(events) && frame.value.id == LastTrimmed(ids)
          && (data == [] ==> frame.value.data == "")
          && (data != [] ==> Lines(frame.value.data) == data))
  }

  lemma FinishShows(f: Fields, events: seq<string>, ids: seq<string>, data: seq<string>)
    requires f == Fields(LastTrimmed(events), LastTrimmed(ids), data)
    requires forall i :: 0 <= i < |data| ==> OneLine(data[i])
    ensures Shows(Finish(f), events, ids, data)
  {
    if data != [] {
      LinesOfJoined(data);
    }
  }

  /**
   * The frame of any legal lines: none if and only if no line names `event`, `id` or
   * `data`; otherwise the last event and the last id, trimmed, and the data lines in
   * order, with a line feed between one and the next.
   */
  lemma FrameMeans(lines: seq<Line>, raw: string)
    requires lines != [] && raw == JoinLines(Texts(lines)) && forall i :: 0 <= i < |lines| ==> Legal(lines[i])
    ensures Shows(FrameOf(raw), Values(lines, "event"), Values(lines, "id"), Values(lines, "data"))
  {
    FrameOfWritten(lines);
    FoldGathers(lines);
    ValuesAreOneLine(lines, "data");
    FinishShows(FoldLines(NO_FIELDS, Texts(lines)), Values(lines, "event"), Values(lines, "id"), Values(lines, "data"));
  }

  lemma {:induction false} ValuesAreOneLine(lines: seq<Line>, name: string)
    requires forall i :: 0 <= i < |lines| ==> Legal(lines[i])
    ensures forall i :: 0 <= i < |Values(lines, name)| ==> OneLine(Values(lines, name)[i])
    decreases |lines|
  {
    if lines != [] {
      ValuesAreOneLine(lines[..|lines| - 1], name);
    }
  }

  /** What splitting makes of a text is lines, which join to the text. */
  ghost predicate SplitsWell(s: string, parts: seq<string>)
  {
    parts != [] && JoinLines(parts) == s && forall i :: 0 <= i < |parts| ==> OneLine(parts[i])
  }

  lemma SplitsWellCons(line: string, s: string, parts: seq<string>)
    requires OneLine(line) && SplitsWell(s, parts)
    ensures SplitsWell(line + [LF] + s, [line] + parts)
  {
    assert ([line] + parts)[1..] == parts;
    assert line + "\n" + s == line + [LF] + s;
  }

  lemma {:induction false} SplitIsOneLine(s: string)
    ensures SplitsWell(s, Lines(s))
    decreases |s|
  {
    var i := IndexOf(s, LF);
    if i == -1 {
      NotFoundIsAbsent(s, LF);
    } else {
      FirstIsFirst(s, LF);
      SplitIsOneLine(s[i + 1..]);
      SplitsWellCons(s[..i], s[i + 1..], Lines(s[i + 1..]));
      assert s == s[..i] + [LF] + s[i + 1..];
    }
  }

  /** Every raw frame is legal lines, so `FrameMeans` covers every input of the parser. */
  lemma {:induction false} EveryFrameIsLines(parts: seq<string>) returns (lines: seq<Line>)
    requires forall i :: 0 <= i < |parts| ==> OneLine(parts[i])
    ensures Texts(lines) == parts && forall i :: 0 <= i < |lines| ==> Legal(lines[i])
    decreases |parts|
  {
    if parts == [] {
      lines := [];
    } else {
      var line := FormOf(parts[0]);
      var rest := EveryFrameIsLines(parts[1..]);
      lines := [line] + rest;
      assert Texts(lines) == [Written(line)] + Texts(rest);
    }
  }

  lemma EveryRawFrame(raw: string) returns (lines: seq<Line>)
    ensures lines != [] && JoinLines(Texts(lines)) == raw && forall i :: 0 <= i < |lines| ==> Legal(lines[i])
  {
    SplitIsOneLine(raw);
    lines := EveryFrameIsLines(Lines(raw));
  }
}
