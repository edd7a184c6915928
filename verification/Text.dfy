/** String primitives shared by the TypeScript parser and the Python printer. */
module Text {

  const LF := '\n'
  const CR := '\r'

  /** Index of the first `c` in `s`, or -1 (`indexOf` in both source languages). */
  function IndexOf(s: string, c: char): (i: int)
    ensures -1 <= i < |s|
    ensures i >= 0 ==> s[i] == c
  {
    if s == "" then -1
    else if s[0] == c then 0
    else
      var i := IndexOf(s[1..], c);
      if i == -1 then -1 else i + 1
  }

  lemma {:induction false} IndexOfAbsent(s: string, c: char)
    requires c !in s
    ensures IndexOf(s, c) == -1
  {
    if s != "" {
      IndexOfAbsent(s[1..], c);
    }
  }

  /** The first occurrence ends a prefix without the character. */
  lemma {:induction false} IndexOfFirst(a: string, c: char, b: string)
    requires c !in a
    ensures IndexOf(a + [c] + b, c) == |a|
    decreases |a|
  {
    var s := a + [c] + b;
    if a != "" {
      assert s[1..] == a[1..] + [c] + b;
      IndexOfFirst(a[1..], c, b);
    }
  }

  /** `s.split("\n")`: the pieces between line feeds, never an empty list. */
  function Lines(s: string): (lines: seq<string>)
    ensures |lines| >= 1
    decreases |s|
  {
    var i := IndexOf(s, LF);
    if i == -1 then [s] else [s[..i]] + Lines(s[i + 1..])
  }

  lemma LinesCons(line: string, s: string)
    requires LF !in line
    ensures Lines(line + [LF] + s) == [line] + Lines(s)
  {
    var t := line + [LF] + s;
    assert t[..|line|] == line && t[|line| + 1..] == s;
    IndexOfFirst(line, LF, s);
  }

  lemma LinesOfLine(line: string)
    requires LF !in line
    ensures Lines(line) == [line]
  {
    IndexOfAbsent(line, LF);
  }

  lemma SliceOfSlice(s: string, a: nat, b: nat, c: nat, d: nat)
    requires a <= b <= |s| && c <= d <= b - a
    ensures s[a..b][c..d] == s[a + c..a + d]
  {
    var t, u := s[a..b][c..d], s[a + c..a + d];
    forall k | 0 <= k < d - c ensures t[k] == u[k] {
      assert t[k] == s[a..b][c + k];
    }
  }

  /** Concatenation of a list of strings. */
  function Concat(parts: seq<string>): string
  {
    if parts == [] then "" else Concat(parts[..|parts| - 1]) + parts[|parts| - 1]
  }

  // ------------------------------------------------------------ whitespace

  /** What ECMAScript's `trim` and Python's `strip` and `split` remove. */
  datatype Whitespace = JavaScript | Python

  predicate IsSpace(w: Whitespace, c: char)
  {
    var n := c as int;
    9 <= n <= 13 || n == 32 || n == 0xA0 || n == 0x1680 || 0x2000 <= n <= 0x200A
    || n == 0x2028 || n == 0x2029 || n == 0x202F || n == 0x205F || n == 0x3000
    || match w
       case JavaScript => n == 0xFEFF
       case Python => 28 <= n <= 31 || n == 0x85
  }

  function TrimStart(w: Whitespace, s: string): string
  {
    if s == "" || !IsSpace(w, s[0]) then s else TrimStart(w, s[1..])
  }

  function TrimEnd(w: Whitespace, s: string): string
  {
    if s == "" || !IsSpace(w, s[|s| - 1]) then s else TrimEnd(w, s[..|s| - 1])
  }

  /** Strip whitespace at both ends. */
  function Trim(w: Whitespace, s: string): string
  {
    TrimEnd(w, TrimStart(w, s))
  }

  /** Nothing to strip at either end. */
  predicate Trimmed(w: Whitespace, s: string)
  {
    s != "" ==> !IsSpace(w, s[0]) && !IsSpace(w, s[|s| - 1])
  }

  lemma TrimOfTrimmed(w: Whitespace, s: string)
    requires Trimmed(w, s)
    ensures Trim(w, s) == s
  {
  }

  /** All whitespace. */
  predicate Blank(w: Whitespace, s: string)
  {
    forall k :: 0 <= k < |s| ==> IsSpace(w, s[k])
  }

  lemma {:induction false} TrimStartOf(w: Whitespace, pre: string, s: string)
    requires Blank(w, pre) && (s == "" || !IsSpace(w, s[0]))
    ensures TrimStart(w, pre + s) == s
    decreases |pre|
  {
    if pre == "" {
      assert pre + s == s;
    } else {
      assert (pre + s)[1..] == pre[1..] + s;
      TrimStartOf(w, pre[1..], s);
    }
  }

  lemma {:induction false} TrimEndOf(w: Whitespace, s: string, post: string)
    requires Blank(w, post) && (s == "" || !IsSpace(w, s[|s| - 1]))
    ensures TrimEnd(w, s + post) == s
    decreases |post|
  {
    if post == "" {
      assert s + post == s;
    } else {
      assert (s + post)[..|s + post| - 1] == s + post[..|post| - 1];
      TrimEndOf(w, s, post[..|post| - 1]);
    }
  }

  /** Trimming removes whitespace put around a text that neither begins nor ends with any. */
  lemma TrimOfPadded(w: Whitespace, pre: string, s: string, post: string)
    requires Blank(w, pre) && Blank(w, post) && Trimmed(w, s) && s != ""
    ensures Trim(w, pre + s + post) == s
  {
    assert pre + s + post == pre + (s + post);
    TrimStartOf(w, pre, s + post);
    TrimEndOf(w, s, post);
  }

  /** Where the two languages differ: the byte order mark, and four separators and NEL. */
  lemma WhitespaceDiffers(c: char)
    ensures IsSpace(JavaScript, c) && !IsSpace(Python, c) <==> c as int == 0xFEFF
    ensures IsSpace(Python, c) && !IsSpace(JavaScript, c) <==> 28 <= c as int <= 31 || c as int == 0x85
  {
  }

  /** Both languages strip the ASCII separators, and no printing ASCII character. */
  lemma AsciiWhitespace(w: Whitespace, c: char)
    requires c as int < 127
    ensures c == ' ' || c == '\t' || c == '\n' || c == '\r' ==> IsSpace(w, c)
    ensures '!' <= c <= '~' ==> !IsSpace(w, c)
  {
  }
}
