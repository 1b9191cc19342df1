/**
 * The pieces of Python's string library the program relies on: `str.strip()`,
 * `str.split(sep)`, `str.split()`, `str.splitlines()`, `int(...)` in base 10,
 * `str(n)` and `f"{n:02d}"`, substring tests and `str.rstrip(c)`.
 * Strings are sequences of code points.
 */
module Text {
  import opened Wrappers

  predicate IsDigit(c: char) { '0' <= c <= '9' }

  /** The characters for which Python's `str.isspace()` holds; `strip()`, `split()` and `int()` skip them. */
  predicate IsSpace(c: char) {
    c == ' ' || ('\t' <= c <= '\r') || ('\U{1C}' <= c <= '\U{1F}') || c == '\U{85}' || c == '\U{A0}'
    || c == '\U{1680}' || ('\U{2000}' <= c <= '\U{200A}') || c == '\U{2028}' || c == '\U{2029}'
    || c == '\U{202F}' || c == '\U{205F}' || c == '\U{3000}'
  }

  /** The line boundaries of `str.splitlines()` (a "\r\n" pair counts as one). */
  predicate IsLineBreak(c: char) {
    ('\n' <= c <= '\r') || ('\U{1C}' <= c <= '\U{1E}') || c == '\U{85}' || c == '\U{2028}' || c == '\U{2029}'
  }

  predicate AllDigits(s: string) { forall i :: 0 <= i < |s| ==> IsDigit(s[i]) }

  function DigitValue(c: char): nat requires IsDigit(c) { c as int - '0' as int }

  function DigitChar(d: nat): (c: char)
    requires d < 10
    ensures IsDigit(c) && DigitValue(c) == d
  {
    ('0' as int + d) as char
  }

  /** The number a string of decimal digits denotes, most significant digit first. */
  function DecValue(s: string): nat
    requires AllDigits(s)
  {
    if s == [] then 0 else 10 * DecValue(s[..|s| - 1]) + DigitValue(s[|s| - 1])
  }

  /** `str(n)` for a non-negative `n`: the canonical decimal numeral. */
  function NatToString(n: nat): (s: string)
    ensures |s| >= 1 && AllDigits(s) && DecValue(s) == n
    ensures |s| > 1 ==> s[0] != '0'
  {
    if n < 10 then [DigitChar(n)]
    else
      var s := NatToString(n / 10) + [DigitChar(n % 10)];
      assert s[..|s| - 1] == NatToString(n / 10);
      s
  }

  lemma NatToStringInjective(a: nat, b: nat)
    requires NatToString(a) == NatToString(b)
    ensures a == b
  {
  }

  /** `str(i)` for any integer. */
  function IntToString(i: int): (s: string)
    ensures |s| >= 1
    ensures i >= 0 <==> s[0] != '-'
  {
    if i < 0 then "-" + NatToString(-i) else NatToString(i)
  }

  /**
   * `f"{n:02d}"` for a non-negative `n`: the decimal numeral, left-padded with
   * zeros to two digits; a longer result has no leading zero.
   */
  function Pad2(n: nat): (s: string)
    ensures |s| >= 2 && AllDigits(s) && DecValue(s) == n
    ensures |s| > 2 ==> s[0] != '0'
  {
    if n < 10 then
      var s := "0" + NatToString(n);
      assert s[..1] == "0";
      s
    else NatToString(n)
  }

  /** Proof helper: a concatenation of four pieces, regrouped with the last three taken together. */
  lemma Regroup(w: string, a: string, s: string, b: string)
    ensures w + a + s + b == w + (a + s + b)
  {
  }

  lemma Pad2Injective(a: nat, b: nat)
    requires Pad2(a) == Pad2(b)
    ensures a == b
  {
  }

  /** `s.lstrip()` */
  function StripStart(s: string): (r: string)
    ensures |r| <= |s|
    ensures r == [] || !IsSpace(r[0])
  {
    if s != [] && IsSpace(s[0]) then StripStart(s[1..]) else s
  }

  /** `StripStart` keeps a suffix and removes only whitespace. */
  lemma {:induction false} StripStartSpaces(s: string)
    ensures StripStart(s) == s[|s| - |StripStart(s)|..]
    ensures forall i :: 0 <= i < |s| - |StripStart(s)| ==> IsSpace(s[i])
  {
    if s != [] && IsSpace(s[0]) {
      StripStartSpaces(s[1..]);
    }
  }

  /** `s.rstrip()` */
  function StripEnd(s: string): (r: string)
    ensures |r| <= |s|
    ensures r == [] || !IsSpace(r[|r| - 1])
  {
    if s != [] && IsSpace(s[|s| - 1]) then StripEnd(s[..|s| - 1]) else s
  }

  /** `StripEnd` keeps a prefix and removes only whitespace. */
  lemma {:induction false} StripEndSpaces(s: string)
    ensures StripEnd(s) == s[..|StripEnd(s)|]
    ensures forall i :: |StripEnd(s)| <= i < |s| ==> IsSpace(s[i])
  {
    if s != [] && IsSpace(s[|s| - 1]) {
      StripEndSpaces(s[..|s| - 1]);
    }
  }

  /** Number of whitespace characters `s.strip()` removes at the front. */
  function StripOffset(s: string): nat { |s| - |StripStart(s)| }

  /** `s.strip()`: `s` without the whitespace at either end (`StripInfix` says which infix that is). */
  function Strip(s: string): (r: string)
    ensures |r| <= |s|
    ensures r == [] || (!IsSpace(r[0]) && !IsSpace(r[|r| - 1]))
  {
    StripEndSpaces(StripStart(s));
    StripEnd(StripStart(s))
  }

  /** `Strip(s)` is the infix of `s` at `StripOffset(s)`, and everything around it is whitespace. */
  lemma StripInfix(s: string)
    ensures StripOffset(s) + |Strip(s)| <= |s| && Strip(s) == s[StripOffset(s)..StripOffset(s) + |Strip(s)|]
    ensures forall j :: 0 <= j < StripOffset(s) ==> IsSpace(s[j])
    ensures forall j :: StripOffset(s) + |Strip(s)| <= j < |s| ==> IsSpace(s[j])
  {
    var t := StripStart(s);
    var r := StripEnd(t);
    var i := |s| - |t|;
    StripStartSpaces(s);
    StripEndSpaces(t);
    assert r == s[i..i + |r|];
  }

  lemma StripUnchanged(s: string)
    requires s == [] || (!IsSpace(s[0]) && !IsSpace(s[|s| - 1]))
    ensures Strip(s) == s
  {
  }

  /** How often `c` occurs in `s`. */
  function Occurrences(s: string, c: char): nat
  {
    if s == [] then 0 else (if s[0] == c then 1 else 0) + Occurrences(s[1..], c)
  }

  /** Joins pieces with a separator between each two: the inverse of `Split`. */
  function Join(parts: seq<string>, sep: char): string
  {
    if parts == [] then [] else if |parts| == 1 then parts[0] else parts[0] + [sep] + Join(parts[1..], sep)
  }

  /**
   * `s.split(sep)` for a one-character separator: the pieces between separators,
   * empty pieces included, so there is always one more piece than separators.
   */
  function Split(s: string, sep: char): (parts: seq<string>)
    ensures |parts| >= 1
  {
    if s == [] then [[]]
    else
      var rest := Split(s[1..], sep);
      if s[0] == sep then [[]] + rest
      else [[s[0]] + rest[0]] + rest[1..]
  }

  /** There is one more piece than separators. */
  lemma {:induction false} SplitCount(s: string, sep: char)
    ensures |Split(s, sep)| == Occurrences(s, sep) + 1
  {
    if s != [] {
      SplitCount(s[1..], sep);
    }
  }

  /** `Split` and `Join` are inverse: the pieces hold no separator and joining them restores the string. */
  lemma {:induction false} SplitJoin(s: string, sep: char)
    ensures forall i :: 0 <= i < |Split(s, sep)| ==> sep !in Split(s, sep)[i]
    ensures Join(Split(s, sep), sep) == s
  {
    if s != [] {
      var rest := Split(s[1..], sep);
      SplitJoin(s[1..], sep);
      if s[0] == sep {
        assert ([[]] + rest)[1..] == rest;
      } else {
        var parts := [[s[0]] + rest[0]] + rest[1..];
        if |rest| > 1 {
          assert parts[1..] == rest[1..];
        }
      }
    }
  }

  lemma {:induction false} SplitNoSeparator(s: string, sep: char)
    requires sep !in s
    ensures Split(s, sep) == [s]
  {
    if s != [] {
      SplitNoSeparator(s[1..], sep);
      assert [s[0]] + s[1..] == s;
    }
  }

  lemma {:induction false} SplitAtSeparator(a: string, sep: char, b: string)
    requires sep !in a
    ensures Split(a + [sep] + b, sep) == [a] + Split(b, sep)
  {
    var s := a + [sep] + b;
    if a == [] {
      assert s[1..] == b;
    } else {
      assert s[1..] == a[1..] + [sep] + b;
      SplitAtSeparator(a[1..], sep, b);
      assert [a[0]] + a[1..] == a;
    }
  }

  lemma SplitTwo(a: string, b: string, sep: char)
    requires sep !in a && sep !in b
    ensures Split(a + [sep] + b, sep) == [a, b]
  {
    SplitNoSeparator(b, sep);
    SplitAtSeparator(a, sep, b);
  }

  lemma SplitThree(a: string, b: string, c: string, sep: char)
    requires sep !in a && sep !in b && sep !in c
    ensures Split(a + [sep] + b + [sep] + c, sep) == [a, b, c]
  {
    SplitTwo(b, c, sep);
    SplitAtSeparator(a, sep, b + [sep] + c);
    assert a + [sep] + b + [sep] + c == a + [sep] + (b + [sep] + c);
  }

  /**
   * The value of a base-10 literal as `int()` reads it once the sign is gone:
   * digits with single `_` allowed between two digits (`\d(_?\d)*`); `None` for
   * anything else.
   */
  function LiteralValue(s: string): (r: Option<nat>)
  {
    if s == [] || !IsDigit(s[|s| - 1]) then None
    else if |s| == 1 then Some(DigitValue(s[0]))
    else
      var init := if s[|s| - 2] == '_' then s[..|s| - 2] else s[..|s| - 1];
      match LiteralValue(init)
      case None => None
      case Some(v) => Some(10 * v + DigitValue(s[|s| - 1]))
  }

  lemma {:induction false} LiteralValueOfDigits(s: string)
    requires |s| >= 1 && AllDigits(s)
    ensures LiteralValue(s) == Some(DecValue(s))
  {
    if |s| > 1 {
      LiteralValueOfDigits(s[..|s| - 1]);
    }
  }

  /** `int(s)` in base 10: surrounding whitespace and one sign allowed; `None` where Python raises ValueError. */
  function ParseInt(s: string): (r: Option<int>)
  {
    var t := Strip(s);
    var signed := |t| >= 1 && (t[0] == '-' || t[0] == '+');
    var v := LiteralValue(if signed then t[1..] else t);
    if v.None? then None
    else if signed && t[0] == '-' then Some(-(v.value as int))
    else Some(v.value as int)
  }

  lemma ParseIntDigits(s: string)
    requires |s| >= 1 && AllDigits(s)
    ensures ParseInt(s) == Some(DecValue(s))
  {
    assert IsDigit(s[0]) && IsDigit(s[|s| - 1]);
    StripUnchanged(s);
    assert Strip(s) == s;
    LiteralValueOfDigits(s);
  }

  /** `pat in s` */
  predicate Contains(s: string, pat: string)
  {
    |pat| <= |s| && (s[..|pat|] == pat || Contains(s[1..], pat))
  }

  lemma {:induction false} ContainsAt(s: string, pat: string, i: nat)
    requires i + |pat| <= |s| && s[i..i + |pat|] == pat
    ensures Contains(s, pat)
  {
    if i > 0 {
      assert s[1..][i - 1..i - 1 + |pat|] == pat;
      ContainsAt(s[1..], pat, i - 1);
    }
  }

  lemma {:induction false} ContainsWhere(s: string, pat: string) returns (i: nat)
    requires Contains(s, pat)
    ensures i + |pat| <= |s| && s[i..i + |pat|] == pat
  {
    if s[..|pat|] == pat {
      i := 0;
    } else {
      var j := ContainsWhere(s[1..], pat);
      i := j + 1;
      assert s[i..i + |pat|] == s[1..][j..j + |pat|];
    }
  }

  predicate IsWord(w: string) { w != [] && forall j :: 0 <= j < |w| ==> !IsSpace(w[j]) }

  /** The non-whitespace characters of `s`, in order. */
  function NonSpace(s: string): string
  {
    if s == [] then [] else (if IsSpace(s[0]) then [] else [s[0]]) + NonSpace(s[1..])
  }

  function Concat(ws: seq<string>): string
  {
    if ws == [] then [] else ws[0] + Concat(ws[1..])
  }

  /** Length of the run of non-whitespace characters at the start of `s`. */
  function WordLength(s: string): (n: nat)
    ensures n <= |s| && (n < |s| ==> IsSpace(s[n]))
    ensures forall j :: 0 <= j < n ==> !IsSpace(s[j])
  {
    if s == [] || IsSpace(s[0]) then 0 else 1 + WordLength(s[1..])
  }

  lemma {:induction false} NonSpaceAppend(a: string, b: string)
    ensures NonSpace(a + b) == NonSpace(a) + NonSpace(b)
  {
    if a == [] {
      assert a + b == b;
    } else {
      assert (a + b)[0] == a[0];
      assert (a + b)[1..] == a[1..] + b;
      NonSpaceAppend(a[1..], b);
    }
  }

  lemma {:induction false} NonSpaceOfWord(w: string)
    requires forall j :: 0 <= j < |w| ==> !IsSpace(w[j])
    ensures NonSpace(w) == w
  {
    if w != [] {
      NonSpaceOfWord(w[1..]);
    }
  }

  lemma {:induction false} NonSpaceOfSpaces(w: string)
    requires forall j :: 0 <= j < |w| ==> IsSpace(w[j])
    ensures NonSpace(w) == []
  {
    if w != [] {
      NonSpaceOfSpaces(w[1..]);
    }
  }

  /**
   * `s.split()`: the maximal runs of non-whitespace characters, in order; together
   * they hold exactly the non-whitespace characters of `s`.
   */
  function Words(s: string): (ws: seq<string>)
    ensures forall i :: 0 <= i < |ws| ==> IsWord(ws[i])
    ensures Concat(ws) == NonSpace(s)
    decreases |s|
  {
    var t := StripStart(s);
    NonSpaceOfStripStart(s);
    if t == [] then []
    else
      var n := WordLength(t);
      NonSpaceOfFirstWord(t);
      var w := t[..n];
      assert IsWord(w);
      var rest := Words(t[n..]);
      assert Concat([w] + rest) == w + Concat(rest) by {
        assert ([w] + rest)[1..] == rest;
      }
      [w] + rest
  }

  lemma NonSpaceOfStripStart(s: string)
    ensures NonSpace(s) == NonSpace(StripStart(s))
  {
    var t := StripStart(s);
    StripStartSpaces(s);
    NonSpaceOfSpaces(s[..|s| - |t|]);
    NonSpaceAppend(s[..|s| - |t|], t);
    assert s == s[..|s| - |t|] + t;
  }

  lemma NonSpaceOfFirstWord(t: string)
    ensures NonSpace(t) == t[..WordLength(t)] + NonSpace(t[WordLength(t)..])
  {
    var n := WordLength(t);
    NonSpaceOfWord(t[..n]);
    NonSpaceAppend(t[..n], t[n..]);
    assert t == t[..n] + t[n..];
  }

  lemma WordsOfNonSpace(s: string, i: nat)
    requires i < |s| && !IsSpace(s[i])
    ensures Words(s) != []
  {
    NonSpaceOfWord([s[i]]);
    NonSpaceAppend(s[..i], s[i..]);
    assert s == s[..i] + s[i..];
    NonSpaceAppend([s[i]], s[i + 1..]);
    assert s[i..] == [s[i]] + s[i + 1..];
  }

  /** White space only. */
  predicate AllSpace(g: string) { forall j :: 0 <= j < |g| ==> IsSpace(g[j]) }

  /** `gaps[0] + ws[0] + gaps[1] + ... + ws[n - 1] + gaps[n]` */
  function Interleave(gaps: seq<string>, ws: seq<string>): string
    requires |gaps| == |ws| + 1
  {
    if ws == [] then gaps[0] else gaps[0] + ws[0] + Interleave(gaps[1..], ws[1..])
  }

  /**
   * `s` is the words `ws` with runs of white space around them: a run before
   * the first word, after the last, and a non-empty run between each two.
   */
  predicate SeparatedBy(s: string, ws: seq<string>, gaps: seq<string>)
  {
    |gaps| == |ws| + 1 && s == Interleave(gaps, ws)
    && (forall i :: 0 <= i < |gaps| ==> AllSpace(gaps[i]))
    && (forall i :: 0 < i < |ws| ==> gaps[i] != [])
  }

  /**
   * The words of `s` are its maximal runs of non-whitespace characters: `s`
   * is the words with white space, non-empty between two words, around them.
   */
  lemma {:induction false} WordsSeparated(s: string) returns (gaps: seq<string>)
    ensures SeparatedBy(s, Words(s), gaps)
    ensures s != [] && IsSpace(s[0]) ==> gaps[0] != []
    decreases |s|
  {
    if StripStart(s) == [] {
      var g := LeadingGap(s);
      WordsNone(s);
      assert g == s;
      SeparatedNone(s);
      gaps := [s];
    } else {
      var g, w, u := WordsSplit(s);
      var gs := WordsSeparated(u);
      SeparatedCons(g, w, u, Words(u), gs);
      gaps := [g] + gs;
    }
  }

  /** The white space in front, the first word, and the rest of `s`. */
  lemma WordsSplit(s: string) returns (g: string, w: string, u: string)
    requires StripStart(s) != []
    ensures AllSpace(g) && s == g + w + u && |u| < |s|
    ensures Words(s) == [w] + Words(u)
    ensures Words(u) != [] ==> u != [] && IsSpace(u[0])
    ensures s != [] && IsSpace(s[0]) ==> g != []
  {
    var t := StripStart(s);
    g := LeadingGap(s);
    var n := WordLength(t);
    w, u := t[..n], t[n..];
    WordsFront(s, t, n);
  }

  /** The white space `lstrip()` removes, in front of what it keeps. */
  lemma LeadingGap(s: string) returns (g: string)
    ensures AllSpace(g) && s == g + StripStart(s)
    ensures s != [] && IsSpace(s[0]) ==> g != []
  {
    StripStartSpaces(s);
    g := s[..|s| - |StripStart(s)|];
    assert s == g + StripStart(s);
  }

  /** White space alone is no word and one gap. */
  lemma SeparatedNone(g: string)
    requires AllSpace(g)
    ensures SeparatedBy(g, [], [g])
  {
  }

  lemma WordsNone(s: string)
    requires StripStart(s) == []
    ensures Words(s) == []
  {
  }

  /** The first word and the text after it, which is empty or starts with white space. */
  lemma WordsFront(s: string, t: string, n: nat)
    requires t == StripStart(s) && t != [] && n == WordLength(t)
    ensures t == t[..n] + t[n..]
    ensures Words(s) == [t[..n]] + Words(t[n..])
    ensures Words(t[n..]) != [] ==> t[n..] != [] && IsSpace(t[n..][0])
  {
  }

  /** One more word in front, after a run of white space. */
  lemma SeparatedCons(g: string, w: string, u: string, rest: seq<string>, gs: seq<string>)
    requires AllSpace(g) && SeparatedBy(u, rest, gs) && (rest != [] ==> gs[0] != [])
    ensures SeparatedBy(g + w + u, [w] + rest, [g] + gs)
  {
    var gaps, ws := [g] + gs, [w] + rest;
    assert ws[1..] == rest && gaps[1..] == gs;
    assert Interleave(gaps, ws) == g + w + Interleave(gs, rest);
    forall i | 0 < i < |gaps|
      ensures AllSpace(gaps[i])
    {
      assert gaps[i] == gs[i - 1];
    }
    forall i | 0 < i < |ws|
      ensures gaps[i] != []
    {
      assert gaps[i] == gs[i - 1];
    }
  }

  /** Index of the first line boundary in `s`, or `|s|` when there is none. */
  function LineLength(s: string): (n: nat)
    ensures n <= |s| && (n < |s| ==> IsLineBreak(s[n]))
    ensures forall j :: 0 <= j < n ==> !IsLineBreak(s[j])
  {
    if s == [] || IsLineBreak(s[0]) then 0 else 1 + LineLength(s[1..])
  }

  /**
   * `s.splitlines()`: the lines of `s` without their boundaries; a final boundary
   * does not start an empty last line.
   */
  function SplitLines(s: string): (lines: seq<string>)
    ensures forall i, j :: 0 <= i < |lines| && 0 <= j < |lines[i]| ==> !IsLineBreak(lines[i][j])
    ensures s == [] <==> lines == []
    decreases |s|
  {
    if s == [] then []
    else
      var n := LineLength(s);
      if n == |s| then [s]
      else
        var skip := if s[n] == '\r' && n + 1 < |s| && s[n + 1] == '\n' then 2 else 1;
        [s[..n]] + SplitLines(s[n + skip..])
  }

  /** The lines, each followed by its boundary. */
  function Unsplit(lines: seq<string>, breaks: seq<string>): string
    requires |breaks| == |lines|
  {
    if lines == [] then [] else lines[0] + breaks[0] + Unsplit(lines[1..], breaks[1..])
  }

  /** A line boundary of `str.splitlines()`: one boundary character, or the pair "\r\n". */
  predicate IsBoundary(b: string)
  {
    (|b| == 1 && IsLineBreak(b[0])) || b == "\r\n"
  }

  /**
   * `s` is `lines` with their boundaries: every line but the last is followed
   * by a boundary, the last by a boundary or by nothing (and is then not
   * empty), and a "\r" stands alone only when no '\n' follows it.
   */
  predicate LinesOf(s: string, lines: seq<string>, breaks: seq<string>)
  {
    |breaks| == |lines| && s == Unsplit(lines, breaks)
    && (forall i :: 0 <= i < |lines| - 1 ==> IsBoundary(breaks[i]))
    && (lines != [] ==> IsBoundary(breaks[|lines| - 1]) || (breaks[|lines| - 1] == [] && lines[|lines| - 1] != []))
    && (forall i :: 0 <= i < |lines| && breaks[i] == "\r" ==> !StartsWithNewline(Unsplit(lines[i + 1..], breaks[i + 1..])))
  }

  predicate StartsWithNewline(s: string) { |s| >= 1 && s[0] == '\n' }

  /** `splitlines()` cuts `s` at its line boundaries: rejoining the lines with them gives `s` back. */
  lemma {:induction false} SplitLinesUnsplit(s: string) returns (breaks: seq<string>)
    ensures LinesOf(s, SplitLines(s), breaks)
    decreases |s|
  {
    if s == [] {
      breaks := [];
    } else {
      var n := LineLength(s);
      if n == |s| {
        breaks := [[]];
        assert SplitLines(s) == [s];
        assert Unsplit([s], [[]]) == s + [] + Unsplit([], []);
      } else {
        var skip := if s[n] == '\r' && n + 1 < |s| && s[n + 1] == '\n' then 2 else 1;
        var rest := s[n + skip..];
        var b := s[n..n + skip];
        assert SplitLines(s) == [s[..n]] + SplitLines(rest);
        var bs := SplitLinesUnsplit(rest);
        BoundaryAt(s, n, skip);
        LinesOfCons(s[..n], b, rest, SplitLines(rest), bs);
        breaks := [b] + bs;
      }
    }
  }

  /** What `splitlines()` skips at a boundary character is a boundary, and a lone "\r" has no '\n' after it. */
  lemma BoundaryAt(s: string, n: nat, skip: nat)
    requires n < |s| && IsLineBreak(s[n])
    requires skip == if s[n] == '\r' && n + 1 < |s| && s[n + 1] == '\n' then 2 else 1
    ensures n + skip <= |s| && IsBoundary(s[n..n + skip])
    ensures s == s[..n] + s[n..n + skip] + s[n + skip..]
    ensures s[n..n + skip] == "\r" ==> !StartsWithNewline(s[n + skip..])
  {
    if skip == 2 {
      assert s[n..n + skip] == [s[n], s[n + 1]];
    } else {
      assert s[n..n + skip] == [s[n]];
      if n + 1 < |s| {
        assert s[n + skip..][0] == s[n + 1];
      }
    }
  }

  /** One more line in front, with its boundary. */
  lemma LinesOfCons(line: string, b: string, rest: string, ls: seq<string>, bs: seq<string>)
    requires IsBoundary(b) && LinesOf(rest, ls, bs)
    requires b == "\r" ==> !StartsWithNewline(rest)
    ensures LinesOf(line + b + rest, [line] + ls, [b] + bs)
  {
    var lines, breaks := [line] + ls, [b] + bs;
    assert lines[1..] == ls && breaks[1..] == bs;
    assert Unsplit(lines, breaks) == line + b + Unsplit(ls, bs);
    forall i | 0 < i < |lines|
      ensures breaks[i] == bs[i - 1] && lines[i] == ls[i - 1]
      ensures lines[i + 1..] == ls[i..] && breaks[i + 1..] == bs[i..]
    {
    }
  }

  predicate EndsWith(s: string, c: char) { |s| >= 1 && s[|s| - 1] == c }

  /** `s.rstrip(c)`: `s` without the run of `c` that ends it. */
  function RStrip(s: string, c: char): (r: string)
    ensures |r| <= |s| && r == s[..|r|] && !EndsWith(r, c)
    ensures forall i :: |r| <= i < |s| ==> s[i] == c
  {
    if EndsWith(s, c) then RStrip(s[..|s| - 1], c) else s
  }
}
