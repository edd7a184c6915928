/**
 * Overlapping text chunks: `chunk_text` of backend/app/ingestion/chunking.py.
 *
 * `Spans` is the sequence of [start, end) pairs the loop visits; `ChunkText` is the
 * loop. The theorems are about every legal `chunk_size` and `chunk_overlap`.
 */
module Chunking {
  import opened Wrappers
  import opened Text

  const SPACE := ' '

  // ------------------------------------------------------- normalisation

  /** `text.split()`: the maximal runs of non-whitespace; `word` is the run being read. */
  function WordsFrom(word: string, text: string): seq<string>
    decreases |text|
  {
    var flush := if word == "" then [] else [word];
    if text == "" then flush
    else if IsSpace(Python, text[0]) then flush + WordsFrom("", text[1..])
    else WordsFrom(word + [text[0]], text[1..])
  }

  function Words(text: string): seq<string>
  {
    WordsFrom("", text)
  }

  /** `" ".join(words)`. */
  function Join(words: seq<string>): string
  {
    if words == [] then ""
    else if |words| == 1 then words[0]
    else words[0] + [SPACE] + Join(words[1..])
  }

  function NormalizeText(text: string): string
  {
    Join(Words(text))
  }

  predicate IsWord(word: string)
  {
    word != "" && forall k :: 0 <= k < |word| ==> !IsSpace(Python, word[k])
  }

  /** Words separated by single spaces, and no other whitespace. */
  predicate Normalized(s: string)
  {
    && (s != "" ==> s[0] != SPACE && s[|s| - 1] != SPACE)
    && (forall k :: 0 < k < |s| && s[k] == SPACE ==> s[k - 1] != SPACE)
    && (forall k :: 0 <= k < |s| && IsSpace(Python, s[k]) ==> s[k] == SPACE)
  }

  // --------------------------------------------------------------- the loop

  /** `rfind(" ", lo, hi + 1)`: the last space at an index in [lo, hi], or -1. */
  function LastSpace(s: string, lo: nat, hi: int): (b: int)
    requires hi < |s|
    ensures b == -1 || (lo <= b <= hi && s[b] == SPACE)
    ensures forall k :: lo <= k <= hi && s[k] == SPACE ==> k <= b
    decreases hi + 1
  {
    if hi < lo then -1 else if s[hi] == SPACE then hi else LastSpace(s, lo, hi - 1)
  }

  /** A window's end: the last space in reach, otherwise `size` characters on. */
  function EndOf(s: string, size: nat, start: nat): (end: nat)
    requires size > 0 && start < |s|
    ensures start < end <= |s| && end <= start + size
    ensures end < start + size && end < |s| ==> s[end] == SPACE
  {
    var end := if start + size < |s| then start + size else |s|;
    if end < |s| then
      var boundary := LastSpace(s, start + 1, end);
      if boundary > start then boundary else end
    else end
  }

  /** Python indexing: a negative index counts from the end. */
  function PyAt(s: string, i: int): char
    requires -|s| <= i < |s|
  {
    if i < 0 then s[|s| + i] else s[i]
  }

  /** The inner loop: back to the beginning of the word, but not past `start`. */
  function WalkBack(s: string, start: nat, next: int): (n: int)
    requires next <= |s|
    ensures n <= next && (next >= start ==> n >= start)
    ensures n > start ==> s[n - 1] == SPACE
    ensures next > start ==> forall k :: n <= k < next ==> s[k] != SPACE
    decreases next - start
  {
    if next > start && s[next - 1] != SPACE then WalkBack(s, start, next - 1) else next
  }

  /** Where the next window starts when this one ended short of the text. */
  function NextStart(s: string, overlap: nat, start: nat, end: nat): (next: nat)
    requires start < end < |s| && overlap < |s|
    ensures start < next <= end + 1
  {
    var back := end - overlap;
    var next := if PyAt(s, back) == SPACE then back + 1 else WalkBack(s, start, back);
    if next > start then next else end
  }

  datatype Span = Span(start: nat, end: nat)

  function Spans(s: string, size: nat, overlap: nat, start: nat): seq<Span>
    requires overlap < size
    decreases |s| - start
  {
    if start >= |s| then []
    else
      var end := EndOf(s, size, start);
      [Span(start, end)]
      + if end >= |s| then [] else Spans(s, size, overlap, NextStart(s, overlap, start, end))
  }

  /** `s[start:end].strip()`, dropped when empty. */
  function ChunkOf(s: string, span: Span): seq<string>
    requires span.start <= span.end <= |s|
  {
    var chunk := Trim(Python, s[span.start..span.end]);
    if chunk == "" then [] else [chunk]
  }

  function ChunksOf(s: string, spans: seq<Span>): seq<string>
    requires InText(s, spans)
  {
    if spans == [] then []
    else ChunksOf(s, spans[..|spans| - 1]) + ChunkOf(s, spans[|spans| - 1])
  }

  predicate InText(s: string, spans: seq<Span>)
  {
    forall i :: 0 <= i < |spans| ==> spans[i].start < spans[i].end <= |s|
  }

  lemma {:induction false} SpansInText(s: string, size: nat, overlap: nat, start: nat)
    requires overlap < size
    ensures InText(s, Spans(s, size, overlap, start))
    decreases |s| - start
  {
    if start < |s| {
      var end := EndOf(s, size, start);
      if end < |s| {
        SpansInText(s, size, overlap, NextStart(s, overlap, start, end));
      }
    }
  }

  datatype ChunkError = SizeNotPositive | OverlapOutOfRange
  datatype ChunkResult = Chunks(chunks: seq<string>) | ValueError(error: ChunkError)

  /** The branch that pulls a window's end back to a space. */
  method FindEnd(normalized: string, chunkSize: nat, start: nat) returns (end: nat)
    requires chunkSize > 0 && start < |normalized|
    ensures end == EndOf(normalized, chunkSize, start)
  {
    end := if start + chunkSize < |normalized| then start + chunkSize else |normalized|;
    if end < |normalized| {
      var boundary := LastSpace(normalized, start + 1, end);
      if boundary > start {
        end := boundary;
      }
    }
  }

  /** The overlap, pulled back to a word's beginning, or no overlap at all. */
  method FindNextStart(normalized: string, chunkOverlap: nat, start: nat, end: nat) returns (next: nat)
    requires start < end < |normalized| && chunkOverlap < |normalized|
    ensures next == NextStart(normalized, chunkOverlap, start, end)
  {
    var nextStart := end - chunkOverlap;
    if PyAt(normalized, nextStart) == SPACE {
      nextStart := nextStart + 1;
    } else {
      while nextStart > start && normalized[nextStart - 1] != SPACE
        invariant nextStart <= end - chunkOverlap
        invariant WalkBack(normalized, start, nextStart) == WalkBack(normalized, start, end - chunkOverlap)
        decreases nextStart - start
      {
        nextStart := nextStart - 1;
      }
    }
    next := if nextStart > start then nextStart else end;
  }

  lemma ChunksOfNext(s: string, spans: seq<Span>, n: nat)
    requires n < |spans| && InText(s, spans)
    ensures ChunksOf(s, spans[..n + 1]) == ChunksOf(s, spans[..n]) + ChunkOf(s, spans[n])
  {
    assert spans[..n + 1][..n] == spans[..n];
  }

  method ChunkText(text: string, chunkSize: int, chunkOverlap: int) returns (r: ChunkResult)
    ensures r == ValueError(SizeNotPositive) <==> chunkSize <= 0
    ensures r == ValueError(OverlapOutOfRange) <==> chunkSize > 0 && !(0 <= chunkOverlap < chunkSize)
    ensures r.Chunks? ==>
              var s := NormalizeText(text);
              var spans := Spans(s, chunkSize, chunkOverlap, 0);
              InText(s, spans) && r.chunks == ChunksOf(s, spans)
  {
    if chunkSize <= 0 {
      return ValueError(SizeNotPositive);
    }
    if chunkOverlap < 0 || chunkOverlap >= chunkSize {
      return ValueError(OverlapOutOfRange);
    }
    var normalized := NormalizeText(text);
    if normalized == "" {
      return Chunks([]);
    }
    var chunks: seq<string> := [];
    var start := 0;
    ghost var spans := Spans(normalized, chunkSize, chunkOverlap, 0);
    SpansInText(normalized, chunkSize, chunkOverlap, 0);
    ghost var n := 0;
    while start < |normalized|
      invariant n <= |spans| && spans[n..] == Spans(normalized, chunkSize, chunkOverlap, start)
      invariant InText(normalized, spans[..n]) && chunks == ChunksOf(normalized, spans[..n])
      decreases |normalized| - start
    {
      var end := FindEnd(normalized, chunkSize, start);
      assert spans[n] == spans[n..][0] == Span(start, end);
      var chunk := Trim(Python, normalized[start..end]);
      assert chunk == "" ==> chunks + ChunkOf(normalized, spans[n]) == chunks;
      if chunk != "" {
        chunks := chunks + [chunk];
      }
      ChunksOfNext(normalized, spans, n);
      assert spans[n..][1..] == spans[n + 1..];
      n := n + 1;
      if end >= |normalized| {
        break;
      }
      start := FindNextStart(normalized, chunkOverlap, start, end);
    }
    assert spans[..n] == spans;
    return Chunks(chunks);
  }
}
