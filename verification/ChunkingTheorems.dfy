/** What `chunk_text` guarantees, for every text and every legal size and overlap. */
module ChunkingTheorems {
  import opened Wrappers
  import opened Text
  import opened Chunking

  // ---------------------------------------------- normalising keeps the words

  lemma {:induction false} WordsAreWords(word: string, text: string)
    requires word == "" || IsWord(word)
    ensures forall w :: w in WordsFrom(word, text) ==> IsWord(w)
    decreases |text|
  {
    if text != "" {
      if IsSpace(Python, text[0]) {
        WordsAreWords("", text[1..]);
      } else {
        WordsAreWords(word + [text[0]], text[1..]);
      }
    }
  }

  /** Reading a word's letters only extends the word in hand. */
  lemma {:induction false} WordsFromWord(before: string, word: string, rest: string)
    requires forall k :: 0 <= k < |word| ==> !IsSpace(Python, word[k])
    ensures WordsFrom(before, word + rest) == WordsFrom(before + word, rest)
    decreases |word|
  {
    if word == "" {
      assert word + rest == rest && before + word == before;
    } else {
      assert (word + rest)[1..] == word[1..] + rest;
      WordsFromWord(before + [word[0]], word[1..], rest);
      assert before + [word[0]] + word[1..] == before + word;
    }
  }

  /** Splitting undoes joining: the normalised text has exactly the words of the text. */
  lemma {:induction false} WordsOfJoin(words: seq<string>)
    requires forall i :: 0 <= i < |words| ==> IsWord(words[i])
    ensures Words(Join(words)) == words
    decreases |words|
  {
    if words == [] {
    } else if |words| == 1 {
      WordsFromWord("", words[0], "");
      assert words[0] + "" == words[0] && "" + words[0] == words[0];
    } else {
      var tail := Join(words[1..]);
      WordsOfJoin(words[1..]);
      WordsFromWord("", words[0], [SPACE] + tail);
      assert words[0] + ([SPACE] + tail) == Join(words) && "" + words[0] == words[0];
      assert ([SPACE] + tail)[1..] == tail;
    }
  }

  // ------------------------------------------- the words of a text, by position

  /** A maximal run of non-whitespace at [a, b) of the raw text. */
  ghost predicate RunAt(text: string, a: nat, b: nat)
  {
    && a < b <= |text|
    && (forall k :: a <= k < b ==> !IsSpace(Python, text[k]))
    && (a == 0 || IsSpace(Python, text[a - 1]))
    && (b == |text| || IsSpace(Python, text[b]))
  }

  /** Reading stops at whitespace and starts afresh. */
  lemma {:induction false} WordsFromSplit(word: string, x: string, y: string)
    requires y == "" || IsSpace(Python, y[0])
    ensures WordsFrom(word, x + y) == WordsFrom(word, x) + WordsFrom("", y)
    decreases |x|
  {
    if x == "" {
      assert x + y == y;
    } else {
      assert (x + y)[1..] == x[1..] + y;
      if IsSpace(Python, x[0]) {
        WordsFromSplit("", x[1..], y);
      } else {
        WordsFromSplit(word + [x[0]], x[1..], y);
      }
    }
  }

  /** A text may be split after whitespace. */
  lemma WordsAfterSpace(x: string, c: char, y: string)
    requires IsSpace(Python, c)
    ensures Words(x + [c] + y) == Words(x + [c]) + Words(y)
  {
    WordsFromSplit("", x, [c] + y);
    WordsFromSplit("", x, [c]);
    assert x + [c] + y == x + ([c] + y) && ([c] + y)[1..] == y && [c][1..] == "";
  }

  lemma WordsOfRunFirst(word: string, rest: string)
    requires IsWord(word) && (rest == "" || IsSpace(Python, rest[0]))
    ensures Words(word + rest) == [word] + Words(rest)
  {
    WordsFromWord("", word, rest);
    assert "" + word == word;
    WordsFromSplit(word, "", rest);
    assert "" + rest == rest && WordsFrom(word, "") == [word];
  }

  /** Each maximal run is a word, between the words before it and the words after it. */
  lemma RunIsWord(text: string, a: nat, b: nat)
    requires RunAt(text, a, b)
    ensures Words(text) == Words(text[..a]) + [text[a..b]] + Words(text[b..])
  {
    var word, rest := text[a..b], text[b..];
    assert text[a..] == word + rest;
    WordsOfRunFirst(word, rest);
    if a == 0 {
      assert text[..a] == "" && text[a..] == text;
    } else {
      var x := text[..a - 1];
      WordsAfterSpace(x, text[a - 1], text[a..]);
      assert x + [text[a - 1]] == text[..a] && text[..a] + text[a..] == text;
    }
  }

  /** The text without its whitespace. */
  function Letters(text: string): string
  {
    if text == "" then ""
    else Letters(text[..|text| - 1]) + if IsSpace(Python, text[|text| - 1]) then "" else [text[|text| - 1]]
  }

  lemma {:induction false} LettersAppend(x: string, y: string)
    ensures Letters(x + y) == Letters(x) + Letters(y)
    decreases |y|
  {
    if y == "" {
      assert x + y == x;
    } else {
      assert (x + y)[..|x + y| - 1] == x + y[..|y| - 1];
      LettersAppend(x, y[..|y| - 1]);
    }
  }

  lemma {:induction false} ConcatFirst(part: string, parts: seq<string>)
    ensures Concat([part] + parts) == part + Concat(parts)
    decreases |parts|
  {
    var all := [part] + parts;
    if parts == [] {
      assert all[..|all| - 1] == [];
    } else {
      assert all[..|all| - 1] == [part] + parts[..|parts| - 1];
      ConcatFirst(part, parts[..|parts| - 1]);
      Associative(part, Concat(parts[..|parts| - 1]), parts[|parts| - 1]);
    }
  }

  lemma LettersCons(c: char, rest: string)
    ensures Letters([c] + rest) == (if IsSpace(Python, c) then "" else [c]) + Letters(rest)
  {
    LettersAppend([c], rest);
    assert [c][..0] == "";
  }

  lemma {:induction false} WordsFromHoldLetters(word: string, text: string)
    ensures Concat(WordsFrom(word, text)) == word + Letters(text)
    decreases |text|
  {
    if text == "" {
      var none: seq<string> := [];
      ConcatFirst(word, none);
      assert [word] + none == [word];
    } else {
      var c, rest := text[0], text[1..];
      assert text == [c] + rest;
      LettersCons(c, rest);
      if IsSpace(Python, c) {
        WordsFromHoldLetters("", rest);
        FlushFirst(word, WordsFrom("", rest));
      } else {
        WordsFromHoldLetters(word + [c], rest);
        Associative(word, [c], Letters(rest));
      }
    }
  }

  lemma FlushFirst(word: string, words: seq<string>)
    ensures Concat((if word == "" then [] else [word]) + words) == word + Concat(words)
  {
    ConcatFirst(word, words);
    assert [] + words == words;
  }

  /** No letter is lost, added or moved: the words put together are the text's letters. */
  lemma WordsHoldLetters(text: string)
    ensures Concat(Words(text)) == Letters(text)
  {
    WordsFromHoldLetters("", text);
  }

  lemma NormalizingKeepsWords(text: string)
    ensures Words(NormalizeText(text)) == Words(text)
  {
    WordsAreWords("", text);
    WordsOfJoin(Words(text));
  }

  lemma WordBeforeText(word: string, text: string)
    requires IsWord(word) && Normalized(text) && text != ""
    ensures Normalized(word + [SPACE] + text)
  {
    var s := word + [SPACE] + text;
    assert forall k :: 0 <= k < |word| ==> s[k] == word[k];
    assert forall k :: |word| < k < |s| ==> s[k] == text[k - |word| - 1];
  }

  lemma {:induction false} JoinIsNormalized(words: seq<string>)
    requires forall i :: 0 <= i < |words| ==> IsWord(words[i])
    ensures Normalized(Join(words)) && (words != [] ==> Join(words) != "")
    decreases |words|
  {
    if |words| > 1 {
      JoinIsNormalized(words[1..]);
      WordBeforeText(words[0], Join(words[1..]));
    } else if |words| == 1 {
      assert forall k :: 0 <= k < |words[0]| ==> !IsSpace(Python, words[0][k]);
    }
  }

  lemma NormalizeTextIsNormalized(text: string)
    ensures Normalized(NormalizeText(text))
  {
    WordsAreWords("", text);
    JoinIsNormalized(Words(text));
  }

  // ------------------------------------------------------ one step of the loop

  /** A maximal run of non-spaces: the word at [a, b). */
  ghost predicate WordAt(s: string, a: nat, b: nat)
  {
    && a < b <= |s|
    && (forall k :: a <= k < b ==> s[k] != SPACE)
    && (a == 0 || s[a - 1] == SPACE)
    && (b == |s| || s[b] == SPACE)
  }

  /** A window ends with the text, at the last space in reach, or, with none, in a word. */
  lemma EndIsLastSpace(s: string, size: nat, start: nat)
    requires size > 0 && start < |s|
    ensures var end := EndOf(s, size, start);
            if start + size >= |s| then end == |s|
            else (s[end] == SPACE || end == start + size)
                 && forall k :: start < k <= start + size && s[k] == SPACE ==> k <= end
  {
  }

  /** A window cut inside a word holds no space after its first position. */
  lemma CutWindowIsSolid(s: string, size: nat, start: nat)
    requires size > 0 && start < |s|
    requires var end := EndOf(s, size, start); end < |s| && s[end] != SPACE
    ensures EndOf(s, size, start) == start + size
    ensures forall k :: start < k <= start + size ==> s[k] != SPACE
  {
  }

  /** Such a window, if it began on a space, is retried from the word's first letter. */
  lemma CutWindowAfterSpace(s: string, size: nat, overlap: nat, start: nat)
    requires overlap < size && start < |s| && s[start] == SPACE
    requires var end := EndOf(s, size, start); end < |s| && s[end] != SPACE
    ensures NextStart(s, overlap, start, EndOf(s, size, start)) == start + 1
  {
    CutWindowIsSolid(s, size, start);
  }

  /** The next window starts where this one ended, or shares `overlap - 1` positions or more. */
  lemma NextStartOverlaps(s: string, size: nat, overlap: nat, start: nat)
    requires overlap < size && start < |s| && EndOf(s, size, start) < |s|
    ensures var end := EndOf(s, size, start);
            var next := NextStart(s, overlap, start, end);
            && start < next
            && (next == end || end - next >= overlap - 1)
            && (next == end + 1 ==> s[end] == SPACE)
            && EndOf(s, size, start) <= if next < |s| then EndOf(s, size, next) else next
  {
    var end := EndOf(s, size, start);
    var next := NextStart(s, overlap, start, end);
    if s[end] != SPACE {
      CutWindowIsSolid(s, size, start);
    }
    if next < end {
      assert s[end] == SPACE && end <= next + size < |s| ==> LastSpace(s, next + 1, next + size) >= end;
    }
  }

  /** The next window may start at `p`: a word begins there, or begins after the space there. */
  predicate WordStart(s: string, p: nat)
  {
    0 < p <= |s| && s[p - 1] == SPACE
  }

  /**
   * The next window starts at the last place after a space that keeps the overlap, when
   * there is one beyond this window's start, and otherwise where this window ended.
   */
  lemma NextStartIsLastWordStart(s: string, size: nat, overlap: nat, start: nat)
    requires overlap < size && start < |s| && EndOf(s, size, start) < |s|
    ensures var end := EndOf(s, size, start);
            var next := NextStart(s, overlap, start, end);
            var keeps := (p: nat) => start < p <= end - overlap + 1 && WordStart(s, p);
            && (keeps(next) || next == end)
            && (forall p: nat :: keeps(p) ==> keeps(next) && p <= next)
  {
    var end := EndOf(s, size, start);
    var back := end - overlap;
    if back >= 0 && s[back] != SPACE {
      WalkFindsLast(s, start, back);
    }
  }

  lemma {:induction false} WalkFindsLast(s: string, start: nat, back: nat)
    requires back < |s| && s[back] != SPACE
    ensures var n := WalkBack(s, start, back);
            && (n > start ==> WordStart(s, n))
            && (forall p: nat :: start < p <= back + 1 && WordStart(s, p) ==> n > start && p <= n)
  {
    var n := WalkBack(s, start, back);
    forall p: nat | start < p <= back + 1 && WordStart(s, p) ensures n > start && p <= n {
      assert p - 1 != back;
      assert back > start;
      assert forall k :: n <= k < back ==> s[k] != SPACE;
    }
  }

  lemma NextStartInsideWord(s: string, size: nat, overlap: nat, start: nat, a: nat, b: nat)
    requires overlap < size && start < |s| && EndOf(s, size, start) < |s|
    requires WordAt(s, a, b) && a < NextStart(s, overlap, start, EndOf(s, size, start)) < b
    ensures b - a > size
  {
    var end := EndOf(s, size, start);
    var next := NextStart(s, overlap, start, end);
    assert s[next - 1] != SPACE;
    assert next == end;
    CutWindowIsSolid(s, size, start);
    if s[start] == SPACE {
      CutWindowAfterSpace(s, size, overlap, start);
    }
    WordBegins(s, a, b);
  }

  lemma WordBegins(s: string, a: nat, b: nat)
    requires WordAt(s, a, b)
    ensures a > 0 ==> s[a - 1] == SPACE
  {
  }

  /** A short word that begins in this window ends in it, unless the next window has it. */
  lemma WordInWindow(s: string, size: nat, overlap: nat, start: nat, a: nat, b: nat)
    requires overlap < size && start <= a && WordAt(s, a, b) && b - a <= size
    ensures var end := EndOf(s, size, start);
            b <= end || (end < |s| && NextStart(s, overlap, start, end) <= a)
  {
    var end := EndOf(s, size, start);
    if end < |s| && a <= end < b {
      assert s[end] != SPACE;
      CutWindowIsSolid(s, size, start);
      assert s[a - 1] == SPACE && a - 1 == start;
      CutWindowAfterSpace(s, size, overlap, start);
    }
  }

  // -------------------------------------------------- all windows of a text

  lemma SpansTail(s: string, size: nat, overlap: nat, start: nat)
    requires overlap < size && |Spans(s, size, overlap, start)| > 1
    ensures start < |s| && EndOf(s, size, start) < |s|
    ensures Spans(s, size, overlap, start)[1..]
         == Spans(s, size, overlap, NextStart(s, overlap, start, EndOf(s, size, start)))
  {
  }

  /** Progress: starts strictly increase, ends never decrease, the overlap is kept. */
  lemma {:induction false} SpansProgress(s: string, size: nat, overlap: nat, start: nat, i: nat)
    requires overlap < size && i + 1 < |Spans(s, size, overlap, start)|
    ensures var spans := Spans(s, size, overlap, start);
            var p, q := spans[i], spans[i + 1];
            && p.start < q.start && p.end <= q.end
            && (q.start == p.end || p.end - q.start >= overlap - 1)
    decreases i
  {
    var end := EndOf(s, size, start);
    var next := NextStart(s, overlap, start, end);
    var tail := Spans(s, size, overlap, next);
    assert Spans(s, size, overlap, start) == [Span(start, end)] + tail;
    if i == 0 {
      NextStartOverlaps(s, size, overlap, start);
      assert tail[0] == Span(next, EndOf(s, size, next));
    } else {
      SpansProgress(s, size, overlap, next, i - 1);
    }
  }

  /** A window starts strictly inside a word only if that word exceeds `chunk_size`. */
  lemma {:induction false} StartsInsideLongWordsOnly(
    s: string, size: nat, overlap: nat, start: nat, i: nat, a: nat, b: nat)
    requires overlap < size && i < |Spans(s, size, overlap, start)|
    requires WordAt(s, a, b) && a < Spans(s, size, overlap, start)[i].start < b
    requires a < start < b ==> b - a > size
    ensures b - a > size
    decreases i
  {
    if i > 0 {
      SpansTail(s, size, overlap, start);
      var next := NextStart(s, overlap, start, EndOf(s, size, start));
      if a < next < b {
        NextStartInsideWord(s, size, overlap, start, a, b);
      }
      assert Spans(s, size, overlap, start)[i] == Spans(s, size, overlap, start)[1..][i - 1];
      StartsInsideLongWordsOnly(s, size, overlap, next, i - 1, a, b);
    }
  }

  /** Word integrity: a word of at most `chunk_size` letters lies whole in some window. */
  lemma {:induction false} WordInSomeSpan(s: string, size: nat, overlap: nat, start: nat, a: nat, b: nat)
    returns (i: nat)
    requires overlap < size && start <= a && WordAt(s, a, b) && b - a <= size
    ensures var spans := Spans(s, size, overlap, start);
            i < |spans| && spans[i].start <= a && b <= spans[i].end
    decreases |s| - start
  {
    var end := EndOf(s, size, start);
    WordInWindow(s, size, overlap, start, a, b);
    if b <= end {
      i := 0;
    } else {
      var next := NextStart(s, overlap, start, end);
      var j := WordInSomeSpan(s, size, overlap, next, a, b);
      i := j + 1;
    }
  }

  /** Coverage: every position that is not a space lies in some window. */
  lemma {:induction false} PositionInSomeSpan(s: string, size: nat, overlap: nat, start: nat, p: nat) returns (i: nat)
    requires overlap < size && start <= p < |s| && s[p] != SPACE
    ensures var spans := Spans(s, size, overlap, start);
            i < |spans| && spans[i].start <= p < spans[i].end
    decreases |s| - start
  {
    var end := EndOf(s, size, start);
    if p < end {
      i := 0;
    } else {
      NextStartOverlaps(s, size, overlap, start);
      var j := PositionInSomeSpan(s, size, overlap, NextStart(s, overlap, start, end), p);
      i := j + 1;
    }
  }

  lemma {:induction false} SpansAreShort(s: string, size: nat, overlap: nat, start: nat, i: nat)
    requires overlap < size && i < |Spans(s, size, overlap, start)|
    ensures var span := Spans(s, size, overlap, start)[i]; span.start < span.end <= |s| && span.end - span.start <= size
    decreases i
  {
    var end := EndOf(s, size, start);
    if i > 0 {
      SpansAreShort(s, size, overlap, NextStart(s, overlap, start, end), i - 1);
    }
  }

  // ------------------------------------------------------- windows to chunks

  /** A chunk with the offset at which it stands in the normalised text. */
  datatype Piece = Piece(offset: nat, chunk: string)

  function SkipLeft(s: string, a: nat, b: nat): (c: nat)
    requires a <= b <= |s|
    ensures a <= c <= b
    ensures forall k :: a <= k < c ==> IsSpace(Python, s[k])
    ensures c < b ==> !IsSpace(Python, s[c])
    decreases b - a
  {
    if a < b && IsSpace(Python, s[a]) then SkipLeft(s, a + 1, b) else a
  }

  function SkipRight(s: string, a: nat, b: nat): (c: nat)
    requires a <= b <= |s|
    ensures a <= c <= b
    ensures forall k :: c <= k < b ==> IsSpace(Python, s[k])
    ensures c > a ==> !IsSpace(Python, s[c - 1])
    decreases b - a
  {
    if a < b && IsSpace(Python, s[b - 1]) then SkipRight(s, a, b - 1) else b
  }

  lemma {:induction false} TrimStartIsSkip(s: string, a: nat, b: nat)
    requires a <= b <= |s|
    ensures TrimStart(Python, s[a..b]) == s[SkipLeft(s, a, b)..b]
    decreases b - a
  {
    if a < b && IsSpace(Python, s[a]) {
      assert s[a..b][1..] == s[a + 1..b];
      TrimStartIsSkip(s, a + 1, b);
    }
  }

  lemma {:induction false} TrimEndIsSkip(s: string, a: nat, b: nat)
    requires a <= b <= |s|
    ensures TrimEnd(Python, s[a..b]) == s[a..SkipRight(s, a, b)]
    decreases b - a
  {
    if a < b && IsSpace(Python, s[b - 1]) {
      assert s[a..b][..b - a - 1] == s[a..b - 1];
      TrimEndIsSkip(s, a, b - 1);
    }
  }

  function PieceOf(s: string, span: Span): seq<Piece>
    requires span.start <= span.end <= |s|
  {
    var a := SkipLeft(s, span.start, span.end);
    var b := SkipRight(s, a, span.end);
    if a == b then [] else [Piece(a, s[a..b])]
  }

  function PiecesOf(s: string, spans: seq<Span>): seq<Piece>
    requires InText(s, spans)
  {
    if spans == [] then []
    else PiecesOf(s, spans[..|spans| - 1]) + PieceOf(s, spans[|spans| - 1])
  }

  function ChunkStrings(pieces: seq<Piece>): (chunks: seq<string>)
    ensures |chunks| == |pieces|
  {
    seq(|pieces|, i requires 0 <= i < |pieces| => pieces[i].chunk)
  }

  /** A piece is a non-empty trimmed substring within its window. */
  lemma PieceOfSpan(s: string, span: Span)
    requires span.start < span.end <= |s|
    ensures ChunkOf(s, span) == ChunkStrings(PieceOf(s, span))
    ensures forall piece :: piece in PieceOf(s, span) ==> ValidPiece(s, piece, span.end - span.start)
  {
    var a := SkipLeft(s, span.start, span.end);
    var b := SkipRight(s, a, span.end);
    TrimStartIsSkip(s, span.start, span.end);
    TrimEndIsSkip(s, a, span.end);
    assert Trim(Python, s[span.start..span.end]) == s[a..b];
    if a < b {
      assert s[a..b][0] == s[a] && s[a..b][b - a - 1] == s[b - 1];
      assert PieceOf(s, span) == [Piece(a, s[a..b])];
    }
  }

  ghost predicate ValidPiece(s: string, piece: Piece, size: int)
  {
    && piece.offset + |piece.chunk| <= |s|
    && piece.chunk == s[piece.offset..piece.offset + |piece.chunk|]
    && 1 <= |piece.chunk| <= size
    && Trimmed(Python, piece.chunk)
  }

  /** The chunks returned are the pieces' texts; each piece is short, trimmed and in place. */
  lemma {:induction false} ChunksArePieces(s: string, spans: seq<Span>, size: int)
    requires InText(s, spans)
    requires forall i :: 0 <= i < |spans| ==> spans[i].end - spans[i].start <= size
    ensures ChunksOf(s, spans) == ChunkStrings(PiecesOf(s, spans))
    ensures forall piece :: piece in PiecesOf(s, spans) ==> ValidPiece(s, piece, size)
    decreases |spans|
  {
    if spans != [] {
      var init, last := spans[..|spans| - 1], spans[|spans| - 1];
      ChunksArePieces(s, init, size);
      PieceOfSpan(s, last);
      assert ChunkStrings(PiecesOf(s, init) + PieceOf(s, last))
          == ChunkStrings(PiecesOf(s, init)) + ChunkStrings(PieceOf(s, last));
    }
  }

  /** What lies in a window and begins and ends with non-spaces lies in its piece. */
  lemma {:induction false} PieceHolds(s: string, spans: seq<Span>, i: nat, a: nat, b: nat) returns (piece: Piece)
    requires InText(s, spans) && i < |spans|
    requires spans[i].start <= a < b <= spans[i].end
    requires !IsSpace(Python, s[a]) && !IsSpace(Python, s[b - 1])
    ensures piece in PiecesOf(s, spans) && piece.offset <= a && b <= piece.offset + |piece.chunk|
    decreases |spans|
  {
    if i == |spans| - 1 {
      piece := PieceOf(s, spans[i])[0];
    } else {
      piece := PieceHolds(s, spans[..|spans| - 1], i, a, b);
    }
  }

  // ------------------------------------------------------------- rebuilding

  predicate Covers(piece: Piece, p: nat)
  {
    piece.offset <= p < piece.offset + |piece.chunk|
  }

  predicate FitIn(n: nat, pieces: seq<Piece>)
  {
    forall i :: 0 <= i < |pieces| ==> pieces[i].offset + |pieces[i].chunk| <= n
  }

  /** `n` spaces with each chunk written over them at its offset. */
  function Paint(n: nat, pieces: seq<Piece>): (text: string)
    requires FitIn(n, pieces)
    ensures |text| == n
  {
    if pieces == [] then seq(n, _ => SPACE)
    else
      var p, before := pieces[|pieces| - 1], Paint(n, pieces[..|pieces| - 1]);
      before[..p.offset] + p.chunk + before[p.offset + |p.chunk|..]
  }

  lemma {:induction false} PaintShows(s: string, pieces: seq<Piece>, p: nat)
    requires p < |s| && FitIn(|s|, pieces)
    requires forall i :: 0 <= i < |pieces| ==> ValidPiece(s, pieces[i], |s|)
    ensures Paint(|s|, pieces)[p] == s[p]
         || (Paint(|s|, pieces)[p] == SPACE
             && forall i :: 0 <= i < |pieces| ==> !Covers(pieces[i], p))
    decreases |pieces|
  {
    if pieces != [] {
      var init, last := pieces[..|pieces| - 1], pieces[|pieces| - 1];
      PaintShows(s, init, p);
      assert ValidPiece(s, last, |s|);
      var before, after := Paint(|s|, init), Paint(|s|, pieces);
      if Covers(last, p) {
        assert after[p] == last.chunk[p - last.offset] == s[p];
      } else {
        assert after[p] == before[p];
        assert forall i :: 0 <= i < |init| ==> pieces[i] == init[i];
      }
    }
  }

  // ---------------------------------------------------------------- theorems

  /** The windows of a normalised text from its beginning. */
  function AllSpans(text: string, size: nat, overlap: nat): seq<Span>
    requires overlap < size
  {
    Spans(NormalizeText(text), size, overlap, 0)
  }

  function AllPieces(text: string, size: nat, overlap: nat): seq<Piece>
    requires overlap < size
  {
    SpansInText(NormalizeText(text), size, overlap, 0);
    PiecesOf(NormalizeText(text), AllSpans(text, size, overlap))
  }

  function AllChunks(text: string, size: nat, overlap: nat): seq<string>
    requires overlap < size
  {
    SpansInText(NormalizeText(text), size, overlap, 0);
    ChunksOf(NormalizeText(text), AllSpans(text, size, overlap))
  }

  /** Every chunk is a trimmed piece of the normalised text, 1 to `chunk_size` long. */
  lemma ChunksAreValid(text: string, size: nat, overlap: nat)
    requires overlap < size
    ensures AllChunks(text, size, overlap) == ChunkStrings(AllPieces(text, size, overlap))
    ensures forall piece :: piece in AllPieces(text, size, overlap) ==> ValidPiece(NormalizeText(text), piece, size)
  {
    var s, spans := NormalizeText(text), AllSpans(text, size, overlap);
    SpansInText(s, size, overlap, 0);
    forall i | 0 <= i < |spans| ensures spans[i].end - spans[i].start <= size {
      SpansAreShort(s, size, overlap, 0, i);
    }
    ChunksArePieces(s, spans, size);
  }

  /** The chunks written back at their offsets rebuild the normalised text exactly. */
  lemma ChunksRebuildText(text: string, size: nat, overlap: nat)
    requires overlap < size
    ensures var s, pieces := NormalizeText(text), AllPieces(text, size, overlap);
            FitIn(|s|, pieces) && Paint(|s|, pieces) == s
  {
    var s, pieces := NormalizeText(text), AllPieces(text, size, overlap);
    ChunksAreValid(text, size, overlap);
    NormalizeTextIsNormalized(text);
    forall i | 0 <= i < |pieces| ensures ValidPiece(s, pieces[i], |s|) {
      assert pieces[i] in pieces && ValidPiece(s, pieces[i], size);
    }
    forall p | 0 <= p < |s| ensures Paint(|s|, pieces)[p] == s[p] {
      PaintShows(s, pieces, p);
      if s[p] != SPACE {
        var piece := LetterInSomePiece(text, size, overlap, p);
        assert Covers(piece, p);
      }
    }
  }

  /** Coverage: every letter of the normalised text lies in some chunk. */
  lemma LetterInSomePiece(text: string, size: nat, overlap: nat, p: nat) returns (piece: Piece)
    requires overlap < size && p < |NormalizeText(text)| && NormalizeText(text)[p] != SPACE
    ensures piece in AllPieces(text, size, overlap) && Covers(piece, p)
  {
    var s := NormalizeText(text);
    NormalizeTextIsNormalized(text);
    SpansInText(s, size, overlap, 0);
    var i := PositionInSomeSpan(s, size, overlap, 0, p);
    piece := PieceHolds(s, AllSpans(text, size, overlap), i, p, p + 1);
  }

  /** `w` stands in `c` as a whole word. */
  ghost predicate WholeWordIn(w: string, c: string)
  {
    exists o: nat :: StandsAt(w, c, o)
  }

  ghost predicate StandsAt(w: string, c: string, o: nat)
  {
    && o + |w| <= |c| && c[o..o + |w|] == w
    && (o == 0 || c[o - 1] == SPACE)
    && (o + |w| == |c| || c[o + |w|] == SPACE)
  }

  /** A word keeps standing when text that ends in a space is put before it. */
  lemma StandsAfter(w: string, c: string, o: nat, before: string)
    requires StandsAt(w, c, o)
    requires before != "" && before[|before| - 1] == SPACE
    ensures StandsAt(w, before + c, |before| + o)
  {
    assert (before + c)[|before| + o..|before| + o + |w|] == c[o..o + |w|];
  }

  lemma {:induction false} WordStandsInJoin(words: seq<string>, i: nat) returns (a: nat)
    requires i < |words| && forall k :: 0 <= k < |words| ==> IsWord(words[k])
    ensures StandsAt(words[i], Join(words), a)
    decreases |words|
  {
    if i == 0 {
      a := 0;
      assert Join(words)[..|words[0]|] == words[0];
    } else {
      var b := WordStandsInJoin(words[1..], i - 1);
      var before := words[0] + [SPACE];
      StandsAfter(words[i], Join(words[1..]), b, before);
      assert before + Join(words[1..]) == Join(words);
      a := |before| + b;
    }
  }

  lemma StandingWordAt(s: string, w: string, a: nat)
    requires IsWord(w) && StandsAt(w, s, a)
    ensures WordAt(s, a, a + |w|)
  {
    forall k | a <= k < a + |w| ensures !IsSpace(Python, s[k]) {
      var j := k - a;
      assert w[j] == s[a..a + |w|][j] == s[a + j];
    }
  }

  lemma PieceShowsWord(s: string, w: string, a: nat, piece: Piece, size: int)
    requires StandsAt(w, s, a) && ValidPiece(s, piece, size)
    requires piece.offset <= a && a + |w| <= piece.offset + |piece.chunk|
    ensures WholeWordIn(w, piece.chunk)
  {
    var o, c := a - piece.offset, piece.chunk;
    SliceOfSlice(s, piece.offset, piece.offset + |c|, o, o + |w|);
    assert StandsAt(w, c, o);
  }

  lemma ChunkOfPiece(pieces: seq<Piece>, piece: Piece)
    requires piece in pieces
    ensures piece.chunk in ChunkStrings(pieces)
  {
    var j :| 0 <= j < |pieces| && pieces[j] == piece;
    assert ChunkStrings(pieces)[j] == piece.chunk;
  }

  lemma WordInSomePiece(text: string, size: nat, overlap: nat, a: nat, b: nat) returns (piece: Piece)
    requires overlap < size && WordAt(NormalizeText(text), a, b) && b - a <= size
    ensures piece in AllPieces(text, size, overlap) && piece.offset <= a && b <= piece.offset + |piece.chunk|
  {
    var s := NormalizeText(text);
    NormalizeTextIsNormalized(text);
    SpansInText(s, size, overlap, 0);
    var i := WordInSomeSpan(s, size, overlap, 0, a, b);
    piece := PieceHolds(s, AllSpans(text, size, overlap), i, a, b);
  }

  /** A word of the text that fits in a chunk appears whole, as a word, in some chunk. */
  lemma ShortWordInSomeChunk(text: string, size: nat, overlap: nat, w: string)
    requires overlap < size && w in Words(text) && |w| <= size
    ensures exists c :: c in AllChunks(text, size, overlap) && WholeWordIn(w, c)
  {
    var s := NormalizeText(text);
    WordsAreWords("", text);
    var k :| 0 <= k < |Words(text)| && Words(text)[k] == w;
    var a := WordStandsInJoin(Words(text), k);
    StandingWordAt(s, w, a);
    var piece := WordInSomePiece(text, size, overlap, a, a + |w|);
    ChunksAreValid(text, size, overlap);
    PieceShowsWord(s, w, a, piece, size);
    ChunkOfPiece(AllPieces(text, size, overlap), piece);
  }

  /**
   * Word integrity: every maximal run of non-whitespace in the raw text that is no
   * longer than `chunk_size` appears whole, as a word, in at least one chunk.
   */
  lemma EveryShortWordInSomeChunk(text: string, size: nat, overlap: nat, a: nat, b: nat)
    requires overlap < size && RunAt(text, a, b) && b - a <= size
    ensures exists c :: c in AllChunks(text, size, overlap) && WholeWordIn(text[a..b], c)
  {
    RunIsWord(text, a, b);
    ShortWordInSomeChunk(text, size, overlap, text[a..b]);
  }

  /** Put together, the words of the normalised text are the letters of the raw text. */
  lemma NormalizingKeepsLetters(text: string)
    ensures Letters(NormalizeText(text)) == Letters(text)
  {
    NormalizingKeepsWords(text);
    WordsHoldLetters(text);
    WordsHoldLetters(NormalizeText(text));
  }
}
