/**
 * The two line patterns of `extract_timestamps`, as `re.findall` runs them in
 * MULTILINE mode.
 *
 * Neither pattern can match across a '\n' (`.`, `[ \t]` and `\d` never match
 * one), and each match starts at a line start (through `^` or by consuming the
 * '\n' before it) and ends at a line end (the lookahead `(?=\n|$)`), so
 * `findall` yields at most one match per '\n'-separated line, in line order.
 * Each pattern is therefore modelled as a matcher of one line, and the
 * matcher reports the parse the backtracking engine reaches first.
 *
 * Time-first:  `(?:\()?(TOKEN)(?:\))?(?:[ \t]*[-:][ \t]*)?(.+?)` to the line end
 * Title-first: `(.+?)(?:[ \t]*[-:][ \t]*)(TOKEN)` to the line end
 * with TOKEN = `\d{1,2}:(?:\d{1,2}:)?\d{1,2}`.
 */
module LinePattern {
  import opened Wrappers
  import opened Text

  /** `\d{1,2}` */
  predicate IsField(f: string) { 1 <= |f| <= 2 && AllDigits(f) }

  /** TOKEN: two or three ':'-separated fields of one or two digits. */
  predicate IsToken(t: string)
  {
    var fs := Split(t, ':');
    (|fs| == 2 || |fs| == 3) && forall i :: 0 <= i < |fs| ==> IsField(fs[i])
  }

  /** `[ \t]` */
  predicate IsBlank(c: char) { c == ' ' || c == '\t' }

  /** `[-:]` */
  predicate IsSep(c: char) { c == '-' || c == ':' }

  predicate AllBlank(s: string) { forall i :: 0 <= i < |s| ==> IsBlank(s[i]) }

  lemma AllBlankCons(s: string)
    requires |s| >= 1 && IsBlank(s[0]) && AllBlank(s[1..])
    ensures AllBlank(s)
  {
    assert forall i :: 1 <= i < |s| ==> s[i] == s[1..][i - 1];
  }

  /** Length of the run of blanks at `p` (what greedy `[ \t]*` takes). */
  function BlankRun(line: string, p: nat): (n: nat)
    requires p <= |line|
    ensures p + n <= |line| && AllBlank(line[p..p + n])
    ensures p + n < |line| ==> !IsBlank(line[p + n])
    decreases |line| - p
  {
    if p < |line| && IsBlank(line[p]) then
      var n := BlankRun(line, p + 1);
      assert line[p..p + 1 + n][1..] == line[p + 1..p + 1 + n];
      AllBlankCons(line[p..p + 1 + n]);
      1 + n
    else 0
  }

  /** `[ \t]*[-:][ \t]*`, recognised character by character. */
  predicate IsSepGap(g: string)
  {
    var b := BlankRun(g, 0);
    b < |g| && IsSep(g[b]) && AllBlank(g[b + 1..])
  }

  /** `(?:\))?(?:[ \t]*[-:][ \t]*)?`: what may stand between a time-first token and its title. */
  predicate IsCloseGap(g: string)
  {
    g == [] || g == ")" || IsSepGap(g) || (g[0] == ')' && IsSepGap(g[1..]))
  }

  /** One match: the captured time token and the captured (not yet stripped) title. */
  datatype RawMatch = RawMatch(time: string, title: string)

  // ---------------------------------------------------------------------------
  // The token, in the order the engine tries its alternatives
  // ---------------------------------------------------------------------------

  /** Where `\d{1,2}` starting at `p` can end: two digits first (greedy), then one. */
  function FieldEnds(line: string, p: nat): seq<nat>
  {
    (if p + 2 <= |line| && IsDigit(line[p]) && IsDigit(line[p + 1]) then [p + 2] else [])
    + (if p + 1 <= |line| && IsDigit(line[p]) then [p + 1] else [])
  }

  /** Where `:\d{1,2}` can end after a field that ended at `e`. */
  function ColonField(line: string, e: nat): seq<nat>
  {
    if e < |line| && line[e] == ':' then FieldEnds(line, e + 1) else []
  }

  /** For each end of the middle field in turn, the ends of the last field after it. */
  function LastAfterMiddle(line: string, mids: seq<nat>): seq<nat>
  {
    if mids == [] then [] else ColonField(line, mids[0]) + LastAfterMiddle(line, mids[1..])
  }

  /**
   * The token ends after a first field ending at `a`: first with the optional
   * middle group `(?:\d{1,2}:)?` taken, then without it.
   */
  function AfterFirst(line: string, a: nat): seq<nat>
  {
    var mids := ColonField(line, a);
    LastAfterMiddle(line, mids) + mids
  }

  /** For each end of the first field in turn, the token ends after it. */
  function EndsAfterFirst(line: string, firsts: seq<nat>): seq<nat>
  {
    if firsts == [] then [] else AfterFirst(line, firsts[0]) + EndsAfterFirst(line, firsts[1..])
  }

  /** Every end of a TOKEN starting at `p`, in backtracking order. */
  function TokenEnds(line: string, p: nat): seq<nat>
  {
    EndsAfterFirst(line, FieldEnds(line, p))
  }

  predicate Decreasing(s: seq<nat>) { forall i, j :: 0 <= i < j < |s| ==> s[i] > s[j] }

  /** The first element of `s` below `bound`. */
  function FirstBelow(s: seq<nat>, bound: nat): (r: Option<nat>)
    ensures r.Some? ==> r.value in s && r.value < bound
    ensures r.None? ==> forall x :: x in s ==> x >= bound
  {
    if s == [] then None
    else if s[0] < bound then Some(s[0])
    else
      assert forall x :: x in s ==> x == s[0] || x in s[1..];
      FirstBelow(s[1..], bound)
  }

  /** In a decreasing sequence the first element below a bound is the largest one below it. */
  lemma {:induction false} FirstBelowIsMax(s: seq<nat>, bound: nat, x: nat)
    requires Decreasing(s) && x in s && x < bound
    ensures FirstBelow(s, bound).Some? && FirstBelow(s, bound).value >= x
  {
    if s[0] >= bound {
      assert x in s[1..];
      FirstBelowIsMax(s[1..], bound, x);
    }
  }

  lemma NoColonInField(f: string)
    requires IsField(f)
    ensures ':' !in f
  {
    forall i | 0 <= i < |f|
      ensures f[i] != ':'
    {
      assert IsDigit(f[i]);
    }
  }

  lemma TokenOfTwo(a: string, b: string)
    requires IsField(a) && IsField(b)
    ensures IsToken(a + ":" + b)
  {
    NoColonInField(a);
    NoColonInField(b);
    SplitTwo(a, b, ':');
    assert Split(a + ":" + b, ':') == [a, b];
  }

  lemma TokenOfThree(a: string, b: string, c: string)
    requires IsField(a) && IsField(b) && IsField(c)
    ensures IsToken(a + ":" + b + ":" + c)
  {
    NoColonInField(a);
    NoColonInField(b);
    NoColonInField(c);
    SplitThree(a, b, c, ':');
    assert Split(a + ":" + b + ":" + c, ':') == [a, b, c];
  }

  /** A token is its fields joined by ':'. */
  lemma TokenFields(t: string)
    requires IsToken(t)
    ensures var fs := Split(t, ':');
      t == if |fs| == 2 then fs[0] + ":" + fs[1] else fs[0] + ":" + fs[1] + ":" + fs[2]
  {
    var fs := Split(t, ':');
    SplitJoin(t, ':');
    if |fs| == 2 {
      assert Join(fs[1..], ':') == fs[1];
    } else {
      assert fs[1..][1..] == fs[2..];
      assert Join(fs[2..], ':') == fs[2];
      assert Join(fs[1..], ':') == fs[1] + [':'] + fs[2];
    }
  }

  lemma FieldEndsSpec(line: string, p: nat, q: nat)
    ensures q in FieldEnds(line, p) <==> p < q <= |line| && IsField(line[p..q])
  {
    if p < q <= |line| && IsField(line[p..q]) {
      assert IsDigit(line[p..q][0]);
      if q == p + 2 {
        assert IsDigit(line[p..q][1]);
      }
    }
    if q == p + 2 && q in FieldEnds(line, p) {
      assert line[p..q] == [line[p], line[p + 1]];
    }
    if q == p + 1 && q in FieldEnds(line, p) {
      assert line[p..q] == [line[p]];
    }
  }

  /** A greedy field end that is followed by ':' is the first one tried. */
  lemma FieldEndsFirst(line: string, p: nat, q: nat)
    requires p < q < |line| && IsField(line[p..q]) && line[q] == ':'
    ensures FieldEnds(line, p) != [] && FieldEnds(line, p)[0] == q
  {
    FieldEndsSpec(line, p, q);
    assert IsDigit(line[p..q][0]);
  }

  /** The two ends `[x + 2, x + 1]` cannot both be followed by ':'. */
  lemma ColonAfterSecond(line: string, x: nat)
    requires |FieldEnds(line, x)| == 2
    ensures ColonField(line, FieldEnds(line, x)[1]) == []
  {
  }

  lemma AfterFirstNormal(line: string, a: nat)
    ensures var mids := ColonField(line, a);
      AfterFirst(line, a) == (if mids == [] then [] else ColonField(line, mids[0])) + mids
  {
    var mids := ColonField(line, a);
    if |mids| == 2 {
      ColonAfterSecond(line, a + 1);
      assert mids[1..][1..] == [];
      assert LastAfterMiddle(line, mids[1..]) == ColonField(line, mids[1]) + LastAfterMiddle(line, []);
    } else if |mids| == 1 {
      assert mids[1..] == [];
      assert LastAfterMiddle(line, mids) == ColonField(line, mids[0]) + LastAfterMiddle(line, []);
    }
  }

  /**
   * Only the greedy first field can be followed by ':', so the token ends are
   * those after the first alternative of the first field.
   */
  lemma TokenEndsNormal(line: string, p: nat)
    ensures var firsts := FieldEnds(line, p);
      TokenEnds(line, p) == if firsts == [] then [] else AfterFirst(line, firsts[0])
  {
    var firsts := FieldEnds(line, p);
    if |firsts| == 2 {
      ColonAfterSecond(line, p);
      assert LastAfterMiddle(line, []) == [];
      assert firsts[1..][1..] == [];
      assert AfterFirst(line, firsts[1]) == [];
      assert EndsAfterFirst(line, firsts[1..]) == AfterFirst(line, firsts[1]) + EndsAfterFirst(line, []);
    } else if |firsts| == 1 {
      assert firsts[1..] == [];
      assert EndsAfterFirst(line, firsts) == AfterFirst(line, firsts[0]) + EndsAfterFirst(line, []);
    }
  }

  lemma SliceOfSlice(line: string, p: nat, q: nat, i: nat, j: nat)
    requires p <= q <= |line| && i <= j <= q - p
    ensures line[p..q][i..j] == line[p + i..p + j]
  {
    assert forall k :: 0 <= k < j - i ==> line[p..q][i..j][k] == line[p + i + k];
  }

  lemma SliceSplit(line: string, i: nat, j: nat, k: nat)
    requires i <= j <= k <= |line|
    ensures line[i..k] == line[i..j] + line[j..k]
  {
  }

  /** `line[i..k]` is two pieces around a ':' at `j`. */
  lemma SliceAtColon(line: string, i: nat, j: nat, k: nat)
    requires i <= j < k <= |line| && line[j] == ':'
    ensures line[i..k] == line[i..j] + ":" + line[j + 1..k]
  {
    SliceSplit(line, i, j, k);
    SliceSplit(line, j, j + 1, k);
    assert line[j..j + 1] == ":";
  }

  lemma TokenEndsSoundTwo(line: string, p: nat, a: nat, q: nat)
    requires a in FieldEnds(line, p) && q in ColonField(line, a)
    ensures p < q <= |line| && IsToken(line[p..q])
  {
    FieldEndsSpec(line, p, a);
    FieldEndsSpec(line, a + 1, q);
    TokenOfTwo(line[p..a], line[a + 1..q]);
    SliceAtColon(line, p, a, q);
  }

  lemma TokenEndsSoundThree(line: string, p: nat, a: nat, m: nat, q: nat)
    requires a in FieldEnds(line, p) && m in ColonField(line, a) && q in ColonField(line, m)
    ensures p < q <= |line| && IsToken(line[p..q])
  {
    FieldEndsSpec(line, p, a);
    FieldEndsSpec(line, a + 1, m);
    FieldEndsSpec(line, m + 1, q);
    TokenOfThree(line[p..a], line[a + 1..m], line[m + 1..q]);
    SliceAtColon(line, p, m, q);
    SliceAtColon(line, p, a, m);
  }

  /** Every end the engine tries delimits a TOKEN. */
  lemma TokenEndsSound(line: string, p: nat, q: nat)
    requires q in TokenEnds(line, p)
    ensures p < q <= |line| && IsToken(line[p..q])
  {
    TokenEndsNormal(line, p);
    var a := FieldEnds(line, p)[0];
    AfterFirstNormal(line, a);
    var mids := ColonField(line, a);
    if q in mids {
      TokenEndsSoundTwo(line, p, a, q);
    } else {
      TokenEndsSoundThree(line, p, a, mids[0], q);
    }
  }

  lemma TokenEndsCompleteTwo(line: string, p: nat, a: nat, q: nat)
    requires p < a < q <= |line| && IsField(line[p..a]) && line[a] == ':' && IsField(line[a + 1..q])
    ensures q in TokenEnds(line, p)
  {
    assert FieldEnds(line, p) != [] && FieldEnds(line, p)[0] == a by {
      FieldEndsFirst(line, p, a);
    }
    var mids := ColonField(line, a);
    assert q in mids by {
      FieldEndsSpec(line, a + 1, q);
    }
    TokenEndsNormal(line, p);
    AfterFirstNormal(line, a);
    assert TokenEnds(line, p) == (if mids == [] then [] else ColonField(line, mids[0])) + mids;
  }

  lemma TokenEndsCompleteThree(line: string, p: nat, a: nat, m: nat, q: nat)
    requires p < a < m < q <= |line| && IsField(line[p..a]) && line[a] == ':'
    requires IsField(line[a + 1..m]) && line[m] == ':' && IsField(line[m + 1..q])
    ensures q in TokenEnds(line, p)
  {
    assert FieldEnds(line, p) != [] && FieldEnds(line, p)[0] == a by {
      FieldEndsFirst(line, p, a);
    }
    assert ColonField(line, a) != [] && ColonField(line, a)[0] == m by {
      FieldEndsFirst(line, a + 1, m);
    }
    assert q in ColonField(line, m) by {
      FieldEndsSpec(line, m + 1, q);
    }
    TokenEndsNormal(line, p);
    AfterFirstNormal(line, a);
  }

  /** Every TOKEN at `p` is among the ends the engine tries. */
  lemma TokenEndsComplete(line: string, p: nat, q: nat)
    requires p < q <= |line| && IsToken(line[p..q])
    ensures q in TokenEnds(line, p)
  {
    var t := line[p..q];
    var fs := Split(t, ':');
    TokenFields(t);
    assert IsField(fs[0]) && IsField(fs[1]);
    var a := p + |fs[0]|;
    assert line[p..a] == fs[0] && line[a] == ':';
    if |fs| == 2 {
      assert line[a + 1..q] == fs[1];
      TokenEndsCompleteTwo(line, p, a, q);
    } else {
      assert IsField(fs[2]);
      var u := fs[0] + ":" + fs[1];
      var m := p + |u|;
      assert t == u + ":" + fs[2];
      assert t[..|u|] == u && t[|u|] == ':' && t[|u| + 1..] == fs[2];
      assert t[|fs[0]| + 1..|u|] == fs[1] by {
        assert t[|fs[0]| + 1..|u|] == u[|fs[0]| + 1..];
      }
      SliceOfSlice(line, p, q, |fs[0]| + 1, |u|);
      assert line[m] == t[|u|];
      assert line[m + 1..q] == t[|u| + 1..];
      TokenEndsCompleteThree(line, p, a, m, q);
    }
  }

  /** The token ends are exactly the ends of the prefixes at `p` that TOKEN matches. */
  lemma TokenEndsSpec(line: string, p: nat, q: nat)
    ensures q in TokenEnds(line, p) <==> p < q <= |line| && IsToken(line[p..q])
  {
    if q in TokenEnds(line, p) {
      TokenEndsSound(line, p, q);
    }
    if p < q <= |line| && IsToken(line[p..q]) {
      TokenEndsComplete(line, p, q);
    }
  }

  lemma ColonFieldDecreasing(line: string, e: nat)
    ensures Decreasing(ColonField(line, e))
    ensures forall q :: q in ColonField(line, e) ==> e + 2 <= q <= e + 3
  {
  }

  /** The engine tries longer tokens before shorter ones. */
  lemma TokenEndsDecreasing(line: string, p: nat)
    ensures Decreasing(TokenEnds(line, p))
  {
    TokenEndsNormal(line, p);
    var firsts := FieldEnds(line, p);
    if firsts != [] {
      var a := firsts[0];
      AfterFirstNormal(line, a);
      var mids := ColonField(line, a);
      ColonFieldDecreasing(line, a);
      if mids != [] {
        ColonFieldDecreasing(line, mids[0]);
        DecreasingAppend(ColonField(line, mids[0]), mids);
      }
    }
  }

  lemma DecreasingAppend(a: seq<nat>, b: seq<nat>)
    requires Decreasing(a) && Decreasing(b)
    requires forall x, y :: x in a && y in b ==> x > y
    ensures Decreasing(a + b)
  {
    forall i, j | 0 <= i < j < |a + b|
      ensures (a + b)[i] > (a + b)[j]
    {
      if j < |a| {
      } else if i < |a| {
        assert (a + b)[i] in a && (a + b)[j] in b;
      } else {
        assert (a + b)[i] == b[i - |a|] && (a + b)[j] == b[j - |a|];
      }
    }
  }

  // ---------------------------------------------------------------------------
  // The time-first pattern
  // ---------------------------------------------------------------------------

  /** Where the token starts: after the optional '(' (greedy, and '(' is not a digit). */
  function Open(line: string): nat { if |line| > 0 && line[0] == '(' then 1 else 0 }

  /**
   * Where `(?:[ \t]*[-:][ \t]*)?` leaves the title when tried at `p`: the group
   * is taken if it matches and leaves a non-empty title, its trailing blanks
   * giving one back when they reach the line end; otherwise it is skipped.
   */
  function AfterSep(line: string, p: nat): (r: nat)
    requires p < |line|
    ensures p <= r < |line|
  {
    var s := p + BlankRun(line, p);
    if s < |line| && IsSep(line[s]) then
      var e := s + 1 + BlankRun(line, s + 1);
      if e < |line| then e else if e > s + 1 then e - 1 else p
    else p
  }

  /**
   * Where the title starts after a token ending at `q`: the optional ')' is
   * taken unless that would leave nothing for the title.
   */
  function TitleStart(line: string, q: nat): (r: nat)
    requires q < |line|
    ensures q <= r < |line|
  {
    AfterSep(line, if line[q] == ')' && q + 1 < |line| then q + 1 else q)
  }

  /** The time-first pattern on one line. */
  function MatchTimeFirst(line: string): Option<RawMatch>
  {
    var p := Open(line);
    var ends := TokenEnds(line, p);
    match FirstBelow(ends, |line|)
    case None => None
    case Some(q) =>
      TokenEndsSpec(line, p, q);
      Some(RawMatch(line[p..q], line[TitleStart(line, q)..]))
  }

  // ---------------------------------------------------------------------------
  // The title-first pattern
  // ---------------------------------------------------------------------------

  /**
   * Where the token starts if the title is `line[..k]`: the required separator
   * group must follow, then a token that runs to the end of the line.
   */
  function TokenStart(line: string, k: nat): (r: Option<nat>)
    requires k <= |line|
    ensures r.Some? ==> k < r.value <= |line|
  {
    match SepEnd(line, k)
    case None => None
    case Some(j) => if IsToken(line[j..]) then Some(j) else None
  }

  /** Where `[ \t]*[-:][ \t]*` tried at `k` ends, both blank runs taken greedily. */
  function SepEnd(line: string, k: nat): (r: Option<nat>)
    requires k <= |line|
    ensures r.Some? ==> k < r.value <= |line|
  {
    SepAt(line, k + BlankRun(line, k))
  }

  /** The separator and trailing blanks of the group, when the separator is at `s`. */
  function SepAt(line: string, s: nat): (r: Option<nat>)
    requires s <= |line|
    ensures r.Some? ==> s < r.value <= |line|
  {
    if s < |line| && IsSep(line[s]) then Some(s + 1 + BlankRun(line, s + 1)) else None
  }

  /** Where the lazy search stops: the title end `k`, and `j`, what the test answered there. */
  datatype Stop = Stop(k: nat, j: nat)

  /**
   * The lazy `.+?`: the title ends `k, k + 1, ...` below `n` are tried in turn,
   * and the first at which `test` answers ends the search.
   */
  function FirstStop(test: nat -> Option<nat>, k: nat, n: nat): Option<Stop>
    decreases n - k
  {
    if k >= n then None
    else
      match test(k)
      case Some(j) => Some(Stop(k, j))
      case None => FirstStop(test, k + 1, n)
  }

  /** `test` answers at no title end in `[k0, k)`. */
  predicate NoStopIn(test: nat -> Option<nat>, k0: nat, k: nat)
  {
    forall k' :: k0 <= k' < k ==> test(k').None?
  }

  /** The search stops where the test answers, and the test answered at no earlier end. */
  lemma {:induction false} FirstStopSound(test: nat -> Option<nat>, k0: nat, n: nat, s: Stop)
    requires FirstStop(test, k0, n) == Some(s)
    ensures k0 <= s.k < n && test(s.k) == Some(s.j) && NoStopIn(test, k0, s.k)
    decreases n - k0
  {
    if test(k0).None? {
      FirstStopSound(test, k0 + 1, n, s);
    }
  }

  /** If the test answers at `k`, the search stops there or earlier. */
  lemma {:induction false} FirstStopComplete(test: nat -> Option<nat>, k0: nat, k: nat, n: nat)
    requires k0 <= k < n && test(k).Some?
    ensures FirstStop(test, k0, n).Some? && FirstStop(test, k0, n).value.k <= k
    decreases k - k0
  {
    if k0 < k && test(k0).None? {
      FirstStopComplete(test, k0 + 1, k, n);
    }
  }

  /** The first end at which the test answers is where the search stops. */
  lemma FirstStopIs(test: nat -> Option<nat>, k0: nat, k: nat, n: nat)
    requires k0 <= k < n && test(k).Some? && NoStopIn(test, k0, k)
    ensures FirstStop(test, k0, n) == Some(Stop(k, test(k).value))
  {
    FirstStopComplete(test, k0, k, n);
    var s := FirstStop(test, k0, n).value;
    FirstStopSound(test, k0, n, s);
  }

  /** The test of the title-first search on `line`: the token start after a title of `k` characters. */
  function TitleTest(line: string): nat -> Option<nat>
  {
    (k: nat) => if k <= |line| then TokenStart(line, k) else None
  }

  lemma TitleTestAt(line: string, k: nat)
    requires k <= |line|
    ensures TitleTest(line)(k) == TokenStart(line, k)
  {
  }

  /** The title-first pattern on one line: the shortest non-empty title that lets the rest match. */
  function MatchTitleFirst(line: string): Option<RawMatch>
  {
    match FirstStop(TitleTest(line), 1, |line|)
    case None => None
    case Some(s) =>
      FirstStopSound(TitleTest(line), 1, |line|, s);
      Some(RawMatch(line[s.j..], line[..s.k]))
  }

  // ---------------------------------------------------------------------------
  // What the two matchers recognise
  // ---------------------------------------------------------------------------

  /** `BlankRun` stops exactly at the first non-blank. */
  lemma {:induction false} BlankRunIs(s: string, i: nat, n: nat)
    requires i + n <= |s| && AllBlank(s[i..i + n]) && (i + n == |s| || !IsBlank(s[i + n]))
    ensures BlankRun(s, i) == n
    decreases n
  {
    if n > 0 {
      assert IsBlank(s[i..i + n][0]);
      assert s[i + 1..i + n] == s[i..i + n][1..];
      BlankRunIs(s, i + 1, n - 1);
    }
  }

  lemma TokenStartsWithDigit(t: string)
    requires IsToken(t)
    ensures |t| >= 1 && IsDigit(t[0])
  {
    TokenFields(t);
    var fs := Split(t, ':');
    assert IsField(fs[0]);
    assert t[0] == fs[0][0];
  }

  /** Where `AfterSep` lets the title start, what it skipped is a separator group (or nothing). */
  lemma AfterSepGap(line: string, p: nat)
    requires p < |line|
    ensures AfterSep(line, p) == p || IsSepGap(line[p..AfterSep(line, p)])
  {
    var r := AfterSep(line, p);
    if r != p {
      var b := BlankRun(line, p);
      var s := p + b;
      var g := line[p..r];
      assert g[..b] == line[p..s];
      assert g[b] == line[s];
      BlankRunIs(g, 0, b);
      assert g[b + 1..] == line[s + 1..r];
      var e := s + 1 + BlankRun(line, s + 1);
      assert forall i :: s + 1 <= i < r ==> line[i] == line[s + 1..e][i - s - 1];
    }
  }

  /**
   * `m` is a parse of its line by the time-first pattern: an optional '(', the
   * token, an optional ')' with an optional separator group, then a non-empty
   * title that runs to the line end.
   */
  predicate TimeFirstParse(line: string, m: RawMatch)
  {
    var p, q, r := Open(line), Open(line) + |m.time|, |line| - |m.title|;
    p < q <= r < |line| && line[..p] in {"", "("} && line[p..q] == m.time && IsToken(m.time)
    && IsCloseGap(line[q..r]) && line[r..] == m.title
  }

  /** A time-first match is a parse of its line. */
  lemma MatchTimeFirstSound(line: string)
    requires MatchTimeFirst(line).Some?
    ensures TimeFirstParse(line, MatchTimeFirst(line).value)
  {
    var m := MatchTimeFirst(line).value;
    var p := Open(line);
    var q := FirstBelow(TokenEnds(line, p), |line|).value;
    var r := TitleStart(line, q);
    TimeFirstParts(line, p, q, r);
    assert m == RawMatch(line[p..q], line[r..]);
    TimeFirstParseOf(line, p, q, r, m);
  }

  lemma TimeFirstParseOf(line: string, p: nat, q: nat, r: nat, m: RawMatch)
    requires p == Open(line) && p < q <= r < |line| && line[..p] in {"", "("} && IsToken(line[p..q])
    requires IsCloseGap(line[q..r]) && m == RawMatch(line[p..q], line[r..])
    ensures TimeFirstParse(line, m)
  {
  }

  lemma TimeFirstParts(line: string, p: nat, q: nat, r: nat)
    requires p == Open(line) && q in TokenEnds(line, p) && q < |line| && r == TitleStart(line, q)
    ensures p < q <= r < |line| && line[..p] in {"", "("} && IsToken(line[p..q]) && IsCloseGap(line[q..r])
  {
    TokenEndsSpec(line, p, q);
    TitleStartGap(line, q);
    assert line[..p] in {"", "("} by {
      if p == 1 {
        assert line[..p] == "(";
      }
    }
  }

  /** What `TitleStart` skips after the token is the optional ')' and separator group. */
  lemma TitleStartGap(line: string, q: nat)
    requires q < |line|
    ensures IsCloseGap(line[q..TitleStart(line, q)])
  {
    var pos := if line[q] == ')' && q + 1 < |line| then q + 1 else q;
    var r := TitleStart(line, q);
    AfterSepGap(line, pos);
    if pos == q + 1 && r != pos {
      assert line[q..r][1..] == line[pos..r];
    }
  }

  /**
   * The time-first token is the longest the line allows: any TOKEN after the
   * optional '(' that leaves at least one character for the title is no longer
   * than the captured one. In particular the line matches exactly when such a
   * TOKEN exists.
   */
  lemma MatchTimeFirstLongest(line: string, q: nat)
    requires Open(line) < q < |line| && IsToken(line[Open(line)..q])
    ensures MatchTimeFirst(line).Some? && Open(line) + |MatchTimeFirst(line).value.time| >= q
  {
    var p := Open(line);
    TokenEndsSpec(line, p, q);
    TokenEndsDecreasing(line, p);
    FirstBelowIsMax(TokenEnds(line, p), |line|, q);
  }

  /** A time-first line starts with a digit, or with '(' and a digit. */
  lemma MatchTimeFirstStartsWithDigit(line: string)
    requires MatchTimeFirst(line).Some?
    ensures Open(line) < |line| && IsDigit(line[Open(line)])
  {
    var p := Open(line);
    var q := FirstBelow(TokenEnds(line, p), |line|).value;
    TokenEndsSpec(line, p, q);
    TokenStartsWithDigit(line[p..q]);
  }

  lemma TokenStartSound(line: string, k: nat)
    requires k <= |line| && TokenStart(line, k).Some?
    ensures var j := TokenStart(line, k).value;
      k < j <= |line| && IsSepGap(line[k..j]) && IsToken(line[j..])
  {
    SepEndSound(line, k);
  }

  /** What `SepEnd` passes over is a separator group. */
  lemma SepEndSound(line: string, k: nat)
    requires k <= |line| && SepEnd(line, k).Some?
    ensures IsSepGap(line[k..SepEnd(line, k).value])
  {
    var b := BlankRun(line, k);
    var s := k + b;
    var j := SepEnd(line, k).value;
    var g := line[k..j];
    assert g[..b] == line[k..s];
    assert g[b] == line[s];
    BlankRunIs(g, 0, b);
    assert g[b + 1..] == line[s + 1..j];
  }

  /** A separator group read inside a line: its separator sits after the line's blank run. */
  lemma SepGapInLine(line: string, k: nat, j: nat)
    requires k <= j <= |line| && IsSepGap(line[k..j])
    ensures k + BlankRun(line, k) < j && IsSep(line[k + BlankRun(line, k)])
    ensures AllBlank(line[k + BlankRun(line, k) + 1..j])
  {
    var g := line[k..j];
    var b := BlankRun(g, 0);
    var s := k + b;
    assert AllBlank(line[k..s]) by {
      SliceOfSlice(line, k, j, 0, b);
    }
    assert line[s] == g[b];
    BlankRunIs(line, k, b);
    assert AllBlank(line[s + 1..j]) by {
      SliceOfSlice(line, k, j, b + 1, j - k);
      assert g[b + 1..] == g[b + 1..j - k];
    }
  }

  /** A separator group followed by a non-blank (or the line end) is exactly what `SepEnd` takes. */
  lemma SepEndExact(line: string, k: nat, j: nat)
    requires k <= j <= |line| && IsSepGap(line[k..j]) && (j == |line| || !IsBlank(line[j]))
    ensures SepEnd(line, k) == Some(j)
  {
    SepGapInLine(line, k, j);
    var s := k + BlankRun(line, k);
    BlankRunIs(line, s + 1, j - s - 1);
    SepEndIs(line, k, s, j);
  }

  /** `SepEnd` unfolded: a separator at `s` after the first blank run, blanks up to `j` after it. */
  lemma SepEndIs(line: string, k: nat, s: nat, j: nat)
    requires k <= s < |line| && s == k + BlankRun(line, k) && IsSep(line[s]) && j == s + 1 + BlankRun(line, s + 1)
    ensures SepEnd(line, k) == Some(j)
  {
    assert SepEnd(line, k) == SepAt(line, s);
  }

  /** The separator group and token after a title are determined by where the title ends. */
  lemma TokenStartExact(line: string, k: nat, j: nat)
    requires k <= j <= |line| && IsSepGap(line[k..j]) && IsToken(line[j..])
    ensures TokenStart(line, k) == Some(j)
  {
    TokenStartsWithDigit(line[j..]);
    assert line[j] == line[j..][0];
    SepEndExact(line, k, j);
  }

  /**
   * A title-first match is a parse of its line: a non-empty title, a
   * separator group, then a token that ends the line.
   */
  predicate TitleFirstParse(line: string, m: RawMatch)
  {
    var k, j := |m.title|, |line| - |m.time|;
    1 <= k < j <= |line| && line[..k] == m.title && IsSepGap(line[k..j])
    && line[j..] == m.time && IsToken(m.time)
  }

  /** A title-first match is a parse of its line. */
  lemma MatchTitleFirstSound(line: string)
    requires MatchTitleFirst(line).Some?
    ensures TitleFirstParse(line, MatchTitleFirst(line).value)
  {
    var s := FirstStop(TitleTest(line), 1, |line|).value;
    FirstStopSound(TitleTest(line), 1, |line|, s);
    TitleTestAt(line, s.k);
    TokenStartSound(line, s.k);
    var m := MatchTitleFirst(line).value;
    assert |m.title| == s.k && |line| - |m.time| == s.j;
  }

  /**
   * The title-first title is the shortest one (the lazy `.+?`): every other
   * parse of the line into title, separator group and token has a title at
   * least as long. In particular the line matches exactly when such a parse
   * exists.
   */
  lemma MatchTitleFirstShortest(line: string, k: nat, j: nat)
    requires 1 <= k <= j <= |line| && IsSepGap(line[k..j]) && IsToken(line[j..])
    ensures MatchTitleFirst(line).Some? && |MatchTitleFirst(line).value.title| <= k
  {
    TokenStartExact(line, k, j);
    TokenStartsWithDigit(line[j..]);
    TitleTestAt(line, k);
    FirstStopComplete(TitleTest(line), 1, k, |line|);
  }

  // ---------------------------------------------------------------------------
  // findall over the lines
  // ---------------------------------------------------------------------------

  datatype Pattern = TimeFirst | TitleFirst

  function MatchLine(pat: Pattern, line: string): Option<RawMatch>
  {
    match pat
    case TimeFirst => MatchTimeFirst(line)
    case TitleFirst => MatchTitleFirst(line)
  }

  /** What the pattern makes of each line, in line order. */
  function LineMatches(pat: Pattern, lines: seq<string>): (os: seq<Option<RawMatch>>)
    ensures |os| == |lines|
  {
    if lines == [] then [] else [MatchLine(pat, lines[0])] + LineMatches(pat, lines[1..])
  }

  lemma {:induction false} LineMatchesAt(pat: Pattern, lines: seq<string>, i: nat)
    requires i < |lines|
    ensures LineMatches(pat, lines)[i] == MatchLine(pat, lines[i])
  {
    if i > 0 {
      LineMatchesAt(pat, lines[1..], i - 1);
    }
  }

  /** The matches of the lines, in line order. */
  function MatchLines(pat: Pattern, lines: seq<string>): seq<RawMatch>
  {
    Present(LineMatches(pat, lines))
  }

  /** `re.findall(pattern, description, re.MULTILINE)` */
  function FindAll(pat: Pattern, description: string): seq<RawMatch>
  {
    MatchLines(pat, Split(description, '\n'))
  }

  /** A match is the match of one of the lines, and every line's match is one. */
  lemma MatchLinesMember(pat: Pattern, lines: seq<string>, m: RawMatch)
    ensures m in MatchLines(pat, lines) <==> exists i :: 0 <= i < |lines| && MatchLine(pat, lines[i]) == Some(m)
  {
    var os := LineMatches(pat, lines);
    PresentMember(os, m);
    forall i | 0 <= i < |lines|
      ensures os[i] == MatchLine(pat, lines[i])
    {
      LineMatchesAt(pat, lines, i);
    }
  }

  /** There is no match exactly when none of the lines matches. */
  lemma MatchLinesEmpty(pat: Pattern, lines: seq<string>)
    ensures MatchLines(pat, lines) == [] <==> forall i :: 0 <= i < |lines| ==> MatchLine(pat, lines[i]).None?
  {
    var os := LineMatches(pat, lines);
    PresentEmpty(os);
    forall i | 0 <= i < |lines|
      ensures os[i] == MatchLine(pat, lines[i])
    {
      LineMatchesAt(pat, lines, i);
    }
  }

  /** The matches of a text are those of its first line followed by those of the rest. */
  lemma FindAllLine(pat: Pattern, line: string, rest: string)
    requires '\n' !in line
    ensures FindAll(pat, line + "\n" + rest) == Present([MatchLine(pat, line)]) + FindAll(pat, rest)
  {
    SplitAtSeparator(line, '\n', rest);
    var ls := Split(rest, '\n');
    assert ([line] + ls)[1..] == ls;
    PresentAppend([MatchLine(pat, line)], LineMatches(pat, ls));
  }

  /** A text of one line has at most the match of that line. */
  lemma FindAllSingle(pat: Pattern, line: string)
    requires '\n' !in line
    ensures FindAll(pat, line) == Present([MatchLine(pat, line)])
  {
    SplitNoSeparator(line, '\n');
  }

  // ---------------------------------------------------------------------------
  // Worked lines
  // ---------------------------------------------------------------------------

  /** A blank run cannot pass a non-blank character. */
  lemma BlankRunBefore(line: string, p: nat, x: nat)
    requires p <= x < |line| && !IsBlank(line[x])
    ensures p + BlankRun(line, p) <= x
  {
  }

  /**
   * "Title - M:SS": a title with no '-' or ':' in it and no blank at its end,
   * " - " and a token is read by the title-first pattern as exactly that title
   * and that token.
   */
  lemma TitleDashToken(title: string, tok: string)
    requires |title| >= 1 && !IsBlank(title[|title| - 1])
    requires forall i :: 0 <= i < |title| ==> !IsSep(title[i])
    requires IsToken(tok)
    ensures MatchTitleFirst(title + " - " + tok) == Some(RawMatch(tok, title))
  {
    var line := title + " - " + tok;
    var k := |title|;
    var j := k + 3;
    assert line[..k] == title;
    assert line[j..] == tok;
    var g := line[k..j];
    assert g == " - ";
    assert BlankRun(g, 0) == 1 by {
      BlankRunIs(g, 0, 1);
    }
    assert g[2..] == " ";
    TokenStartExact(line, k, j);
    TitleTestAt(line, k);
    forall k' | 1 <= k' < k
      ensures TitleTest(line)(k').None?
    {
      assert line[k - 1] == title[k - 1];
      BlankRunBefore(line, k', k - 1);
      var s := k' + BlankRun(line, k');
      assert line[s] == title[s];
      assert SepEnd(line, k').None?;
      TitleTestAt(line, k');
    }
    FirstStopIs(TitleTest(line), 1, k, |line|);
  }

  /**
   * A line that is only a token: the title must be non-empty, so the engine
   * gives up the token's last digit, and "1:23" is read as "1:2" titled "3".
   */
  lemma TimeFirstBareToken()
    ensures MatchTimeFirst("1:23") == Some(RawMatch("1:2", "3"))
  {
    var line := "1:23";
    var t := "1:2";
    assert t == "1" + [':'] + "2";
    SplitTwo("1", "2", ':');
    assert IsToken(t);
    assert line[0..3] == t;
    MatchTimeFirstLongest(line, 3);
    MatchTimeFirstSound(line);
    assert TitleStart(line, 3) == 3;
  }
}
