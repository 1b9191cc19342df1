/**
 * `extract_timestamps` (and its copy `extract_timestamps_enhanced`): both
 * line patterns are run over the description, every match whose token
 * `time_to_ms` accepts becomes a candidate (time, stripped title) — all
 * time-first candidates first, then all title-first ones — the candidates are
 * sorted by time with Python's stable `sorted`, and the first candidate of
 * each time is kept. `extract_timestamps_current` runs the time-first pattern
 * only and keeps duplicate times. Its lookahead `(?=\n\d{1,2}:|$)` admits
 * the same matches as `(?=\n|$)`: in MULTILINE mode `$` already holds before
 * every '\n', and the lazy `.+?` cannot cross one.
 */
module Extractor {
  import opened Wrappers
  import opened Text
  import opened TimeParse
  import opened LinePattern

  /** One track start: the time in milliseconds and the stripped title. */
  datatype Track = Track(time: int, title: string)

  // ---------------------------------------------------------------------------
  // Tokens never raise
  // ---------------------------------------------------------------------------

  /** A captured token always converts: its fields are digits, so `time_to_ms` gives the field formula. */
  lemma TokenTime(t: string)
    requires IsToken(t)
    ensures var fs := Split(t, ':');
      TimeToMs(t).Ms? && TimeToMs(t).ms >= 0
      && TimeToMs(t).ms == if |fs| == 2 then DecValue(fs[0]) * 60 * 1000 + DecValue(fs[1]) * 1000
                           else DecValue(fs[0]) * 3600 * 1000 + DecValue(fs[1]) * 60 * 1000 + DecValue(fs[2]) * 1000
  {
    var fs := Split(t, ':');
    TokenFields(t);
    assert IsField(fs[0]) && IsField(fs[1]);
    if |fs| == 2 {
      TwoFields(fs[0], fs[1]);
    } else {
      assert IsField(fs[2]);
      ThreeFields(fs[0], fs[1], fs[2]);
    }
  }

  /** In particular a captured token never makes `time_to_ms` fail, and its time is not negative. */
  lemma TokenConverts(t: string)
    requires IsToken(t)
    ensures TimeToMs(t).Ms? && TimeToMs(t).ms >= 0
  {
    TokenTime(t);
  }

  // ---------------------------------------------------------------------------
  // Candidates
  // ---------------------------------------------------------------------------

  /** The parse loop over one pattern's matches: a rejected token is skipped, a title is stripped. */
  function Candidates(ms: seq<RawMatch>): (r: seq<Track>)
    ensures |r| <= |ms|
  {
    if ms == [] then []
    else
      match TimeToMs(ms[0].time)
      case ValueError => Candidates(ms[1..])
      case Ms(t) => [Track(t, Strip(ms[0].title))] + Candidates(ms[1..])
  }

  lemma {:induction false} CandidatesAppend(a: seq<RawMatch>, b: seq<RawMatch>)
    ensures Candidates(a + b) == Candidates(a) + Candidates(b)
  {
    if a == [] {
      assert a + b == b;
    } else {
      assert (a + b)[0] == a[0] && (a + b)[1..] == a[1..] + b;
      CandidatesAppend(a[1..], b);
    }
  }

  /** The loop body for one match: a candidate when its token converts, nothing otherwise. */
  lemma CandidatesOne(m: RawMatch)
    ensures var t := TimeToMs(m.time);
      Candidates([m]) == if t.Ms? then [Track(t.ms, Strip(m.title))] else []
  {
    assert [m][1..] == [];
  }

  lemma CandidatesSnoc(ms: seq<RawMatch>, i: nat)
    requires i < |ms|
    ensures var t := TimeToMs(ms[i].time);
      Candidates(ms[..i + 1]) == Candidates(ms[..i]) + if t.Ms? then [Track(t.ms, Strip(ms[i].title))] else []
  {
    assert ms[..i + 1] == ms[..i] + [ms[i]];
    CandidatesAppend(ms[..i], [ms[i]]);
    CandidatesOne(ms[i]);
  }

  /** `t` is the candidate of match `m`: its converted token and its stripped title. */
  predicate CandidateOf(m: RawMatch, t: Track)
  {
    TimeToMs(m.time) == Ms(t.time) && t.title == Strip(m.title)
  }

  /** `c` holds one candidate per match of `ms`, in match order. */
  predicate CandidatesOfRun(ms: seq<RawMatch>, c: seq<Track>)
  {
    |c| == |ms| && forall i :: 0 <= i < |ms| ==> CandidateOf(ms[i], c[i])
  }

  /** When every token converts, there is one candidate per match, in match order. */
  lemma {:induction false} CandidatesOfTokens(ms: seq<RawMatch>)
    requires forall i :: 0 <= i < |ms| ==> IsToken(ms[i].time)
    ensures CandidatesOfRun(ms, Candidates(ms))
    ensures forall i :: 0 <= i < |ms| ==> Candidates(ms)[i].time >= 0
  {
    if ms != [] {
      var rest := ms[1..];
      assert forall i :: 1 <= i < |ms| ==> rest[i - 1] == ms[i];
      CandidatesOfTokens(rest);
      TokenConverts(ms[0].time);
      var t := TimeToMs(ms[0].time);
      var c := Candidates(ms);
      assert c == [Track(t.ms, Strip(ms[0].title))] + Candidates(rest);
      forall i | 0 <= i < |ms|
        ensures CandidateOf(ms[i], c[i]) && c[i].time >= 0
      {
        if i > 0 {
          assert c[i] == Candidates(rest)[i - 1];
        }
      }
    }
  }

  /** Every match either pattern finds carries a token. */
  lemma FoundTokens(pat: Pattern, description: string)
    ensures var ms := FindAll(pat, description);
      forall i :: 0 <= i < |ms| ==> IsToken(ms[i].time)
  {
    var lines := Split(description, '\n');
    var ms := FindAll(pat, description);
    forall i | 0 <= i < |ms|
      ensures IsToken(ms[i].time)
    {
      MatchLinesMember(pat, lines, ms[i]);
      var k :| 0 <= k < |lines| && MatchLine(pat, lines[k]) == Some(ms[i]);
      if pat == TimeFirst {
        MatchTimeFirstSound(lines[k]);
      } else {
        MatchTitleFirstSound(lines[k]);
      }
    }
  }

  /** The candidates of a description: its time-first ones, then its title-first ones. */
  function AllCandidates(description: string): seq<Track>
  {
    Candidates(FindAll(TimeFirst, description)) + Candidates(FindAll(TitleFirst, description))
  }

  // ---------------------------------------------------------------------------
  // Python's stable `sorted(..., key=lambda x: x[0])`
  // ---------------------------------------------------------------------------

  predicate Sorted(s: seq<Track>)
  {
    forall i, j :: 0 <= i < j < |s| ==> s[i].time <= s[j].time
  }

  /** Insertion in front of the first entry that is not earlier: equal times keep their order. */
  function Insert(t: Track, s: seq<Track>): (r: seq<Track>)
    ensures |r| == |s| + 1
  {
    if s == [] || t.time <= s[0].time then [t] + s else [s[0]] + Insert(t, s[1..])
  }

  function SortByTime(s: seq<Track>): (r: seq<Track>)
    ensures |r| == |s|
  {
    if s == [] then [] else Insert(s[0], SortByTime(s[1..]))
  }

  /** The entries of a given time, in order. */
  function WithTime(s: seq<Track>, v: int): (r: seq<Track>)
    ensures forall i :: 0 <= i < |r| ==> r[i].time == v
  {
    if s == [] then [] else if s[0].time == v then [s[0]] + WithTime(s[1..], v) else WithTime(s[1..], v)
  }

  lemma {:induction false} InsertSorted(t: Track, s: seq<Track>)
    requires Sorted(s)
    ensures Sorted(Insert(t, s))
  {
    if s != [] && t.time > s[0].time {
      InsertSorted(t, s[1..]);
      InsertMembers(t, s[1..]);
      var r := Insert(t, s[1..]);
      forall j | 0 <= j < |r|
        ensures s[0].time <= r[j].time
      {
        assert r[j] in multiset(r);
        if r[j] != t {
          assert r[j] in s[1..];
        }
      }
    }
  }

  lemma {:induction false} InsertMembers(t: Track, s: seq<Track>)
    ensures multiset(Insert(t, s)) == multiset(s) + multiset{t}
  {
    if s != [] && t.time > s[0].time {
      InsertMembers(t, s[1..]);
      assert s == [s[0]] + s[1..];
    }
  }

  /** The result is ordered by time. */
  lemma {:induction false} SortByTimeSorted(s: seq<Track>)
    ensures Sorted(SortByTime(s))
  {
    if s != [] {
      SortByTimeSorted(s[1..]);
      InsertSorted(s[0], SortByTime(s[1..]));
    }
  }

  /** The result is a permutation of the input. */
  lemma {:induction false} SortByTimePermutation(s: seq<Track>)
    ensures multiset(SortByTime(s)) == multiset(s)
  {
    if s != [] {
      SortByTimePermutation(s[1..]);
      InsertMembers(s[0], SortByTime(s[1..]));
      assert s == [s[0]] + s[1..];
    }
  }

  lemma {:induction false} InsertWithTime(t: Track, s: seq<Track>, v: int)
    ensures WithTime(Insert(t, s), v) == if t.time == v then [t] + WithTime(s, v) else WithTime(s, v)
  {
    if s != [] && t.time > s[0].time {
      InsertWithTime(t, s[1..], v);
    }
  }

  /** The sort is stable: the entries of any one time keep their input order. */
  lemma {:induction false} SortByTimeStable(s: seq<Track>, v: int)
    ensures WithTime(SortByTime(s), v) == WithTime(s, v)
  {
    if s != [] {
      SortByTimeStable(s[1..], v);
      InsertWithTime(s[0], SortByTime(s[1..]), v);
    }
  }

  // ---------------------------------------------------------------------------
  // First-wins deduplication through `seen_times`
  // ---------------------------------------------------------------------------

  function Times(s: seq<Track>): set<int>
  {
    set t | t in s :: t.time
  }

  /** The entries kept when the times in `seen` are already taken. */
  function DedupFrom(s: seq<Track>, seen: set<int>): (r: seq<Track>)
    ensures |r| <= |s|
  {
    if s == [] then []
    else if s[0].time in seen then DedupFrom(s[1..], seen)
    else [s[0]] + DedupFrom(s[1..], seen + {s[0].time})
  }

  function Dedup(s: seq<Track>): seq<Track>
  {
    DedupFrom(s, {})
  }

  /** Each kept entry is an entry of the input whose time was not taken, and it is the first of its time. */
  lemma {:induction false} DedupFromFirst(s: seq<Track>, seen: set<int>, x: Track)
    requires x in DedupFrom(s, seen)
    ensures x in s && x.time !in seen
    ensures WithTime(s, x.time) != [] && WithTime(s, x.time)[0] == x
  {
    if s[0].time in seen {
      DedupFromFirst(s[1..], seen, x);
    } else if x != s[0] {
      DedupFromFirst(s[1..], seen + {s[0].time}, x);
    }
  }

  /** The kept times are exactly the input's times not taken before. */
  lemma {:induction false} DedupFromTimes(s: seq<Track>, seen: set<int>)
    ensures Times(DedupFrom(s, seen)) == Times(s) - seen
  {
    if s != [] {
      var seen' := if s[0].time in seen then seen else seen + {s[0].time};
      DedupFromTimes(s[1..], seen');
      assert Times(s) == {s[0].time} + Times(s[1..]) by {
        assert s == [s[0]] + s[1..];
      }
      if s[0].time !in seen {
        var r := DedupFrom(s, seen);
        assert r == [s[0]] + DedupFrom(s[1..], seen');
        assert Times(r) == {s[0].time} + Times(DedupFrom(s[1..], seen'));
      }
    }
  }

  /** Strictly increasing in time. */
  predicate Increasing(s: seq<Track>)
  {
    forall i, j :: 0 <= i < j < |s| ==> s[i].time < s[j].time
  }

  /** On sorted input the kept entries are strictly increasing in time. */
  lemma {:induction false} DedupFromIncreasing(s: seq<Track>, seen: set<int>)
    requires Sorted(s)
    ensures Increasing(DedupFrom(s, seen))
  {
    if s != [] {
      var seen' := if s[0].time in seen then seen else seen + {s[0].time};
      assert Sorted(s[1..]);
      DedupFromIncreasing(s[1..], seen');
      var rest := DedupFrom(s[1..], seen');
      if s[0].time !in seen {
        forall j | 0 <= j < |rest|
          ensures s[0].time < rest[j].time
        {
          DedupFromFirst(s[1..], seen', rest[j]);
        }
        var r := DedupFrom(s, seen);
        assert r == [s[0]] + rest;
        forall i, j | 0 <= i < j < |r|
          ensures r[i].time < r[j].time
        {
          if i > 0 {
            assert r[i] == rest[i - 1] && r[j] == rest[j - 1];
          }
        }
      }
    }
  }

  // ---------------------------------------------------------------------------
  // The extractors
  // ---------------------------------------------------------------------------

  /** What `extract_timestamps` returns for a description. */
  function Timestamps(description: string): seq<Track>
  {
    Dedup(SortByTime(AllCandidates(description)))
  }

  /** What `extract_timestamps_current` returns for a description. */
  function CurrentTimestamps(description: string): seq<Track>
  {
    SortByTime(Candidates(FindAll(TimeFirst, description)))
  }

  /**
   * The output is strictly increasing in time; its times are exactly the
   * candidates' times; and the entry of each time is the first candidate of
   * that time, time-first matches before title-first ones.
   */
  lemma TimestampsSpec(description: string)
    ensures Increasing(Timestamps(description))
    ensures Times(Timestamps(description)) == Times(AllCandidates(description))
    ensures FirstOfEachTime(AllCandidates(description), Timestamps(description))
  {
    DedupSortSpec(AllCandidates(description));
  }

  /** Sorting by time, then keeping the first entry of each time, on any candidate list. */
  lemma DedupSortSpec(c: seq<Track>)
    ensures Increasing(Dedup(SortByTime(c)))
    ensures Times(Dedup(SortByTime(c))) == Times(c)
    ensures FirstOfEachTime(c, Dedup(SortByTime(c)))
  {
    var s := SortByTime(c);
    var r := Dedup(s);
    SortByTimeSorted(c);
    DedupFromIncreasing(s, {});
    DedupFromTimes(s, {});
    SortByTimeTimes(c);
    forall i | 0 <= i < |r|
      ensures WithTime(c, r[i].time) != [] && r[i] == WithTime(c, r[i].time)[0]
    {
      DedupFromFirst(s, {}, r[i]);
      SortByTimeStable(c, r[i].time);
    }
  }

  /** Sorting keeps the set of times. */
  lemma SortByTimeTimes(c: seq<Track>)
    ensures Times(SortByTime(c)) == Times(c)
  {
    var s := SortByTime(c);
    SortByTimePermutation(c);
    assert forall t :: t in s <==> t in multiset(s);
    assert forall t :: t in c <==> t in multiset(c);
  }

  /**
   * `c` holds one candidate per match of `m1` and then one per match of `m2`,
   * each the converted token and the stripped title of its match.
   */
  predicate CandidatesInRunOrder(m1: seq<RawMatch>, m2: seq<RawMatch>, c: seq<Track>)
  {
    |c| == |m1| + |m2| && CandidatesOfRun(m1, c[..|m1|]) && CandidatesOfRun(m2, c[|m1|..])
  }

  /** Each entry of `r` is the first entry of `c` with its time. */
  predicate FirstOfEachTime(c: seq<Track>, r: seq<Track>)
  {
    forall i :: 0 <= i < |r| ==> WithTime(c, r[i].time) != [] && r[i] == WithTime(c, r[i].time)[0]
  }

  /** Every match gives a candidate, and all time-first ones come before all title-first ones. */
  lemma AllCandidatesOrder(description: string)
    ensures CandidatesInRunOrder(FindAll(TimeFirst, description), FindAll(TitleFirst, description), AllCandidates(description))
  {
    var m1, m2 := FindAll(TimeFirst, description), FindAll(TitleFirst, description);
    FoundTokens(TimeFirst, description);
    FoundTokens(TitleFirst, description);
    CandidatesOfTokens(m1);
    CandidatesOfTokens(m2);
    CandidateRuns(m1, m2, Candidates(m1), Candidates(m2));
  }

  /** Two runs of candidates, one after the other. */
  lemma CandidateRuns(m1: seq<RawMatch>, m2: seq<RawMatch>, c1: seq<Track>, c2: seq<Track>)
    requires CandidatesOfRun(m1, c1) && CandidatesOfRun(m2, c2)
    ensures CandidatesInRunOrder(m1, m2, c1 + c2)
  {
    assert (c1 + c2)[..|m1|] == c1 && (c1 + c2)[|m1|..] == c2;
  }

  lemma DedupSortEmpty(c: seq<Track>)
    ensures Dedup(SortByTime(c)) == [] <==> c == []
  {
    DedupFromTimes(SortByTime(c), {});
    SortByTimePermutation(c);
    if c != [] {
      assert c[0] in multiset(SortByTime(c));
      assert c[0].time in Times(SortByTime(c));
    }
  }

  /** A description with no line of either shape yields `[]`, and only such a description does. */
  lemma TimestampsEmpty(description: string)
    ensures Timestamps(description) == [] <==> NoTimestampLines(Split(description, '\n'))
  {
    var lines := Split(description, '\n');
    var m1, m2 := FindAll(TimeFirst, description), FindAll(TitleFirst, description);
    AllCandidatesOrder(description);
    DedupSortEmpty(AllCandidates(description));
    MatchLinesEmpty(TimeFirst, lines);
    MatchLinesEmpty(TitleFirst, lines);
    assert Timestamps(description) == [] <==> m1 == [] && m2 == [];
    if m1 == [] && m2 == [] {
      forall i | 0 <= i < |lines|
        ensures MatchTimeFirst(lines[i]).None? && MatchTitleFirst(lines[i]).None?
      {
        assert MatchLine(TimeFirst, lines[i]).None? && MatchLine(TitleFirst, lines[i]).None?;
      }
    } else {
      var pat := if m1 != [] then TimeFirst else TitleFirst;
      var i :| 0 <= i < |lines| && MatchLine(pat, lines[i]).Some?;
      assert !(MatchTimeFirst(lines[i]).None? && MatchTitleFirst(lines[i]).None?);
    }
  }

  /** No line has the shape of either pattern. */
  predicate NoTimestampLines(lines: seq<string>)
  {
    forall i :: 0 <= i < |lines| ==> MatchTimeFirst(lines[i]).None? && MatchTitleFirst(lines[i]).None?
  }

  /**
   * `extract_timestamps_current`: sorted by time, and with one entry per
   * time-first line, so that repeated times all survive.
   */
  lemma CurrentTimestampsSpec(description: string)
    ensures var r := CurrentTimestamps(description);
      Sorted(r) && multiset(r) == multiset(Candidates(FindAll(TimeFirst, description)))
      && |r| == |FindAll(TimeFirst, description)|
  {
    var c := Candidates(FindAll(TimeFirst, description));
    SortByTimeSorted(c);
    SortByTimePermutation(c);
    FoundTokens(TimeFirst, description);
    CandidatesOfTokens(FindAll(TimeFirst, description));
  }

  /**
   * One pattern's parse loop: each match whose token converts is appended to
   * `result` as (time, stripped title); a ValueError skips the match.
   */
  method AppendCandidates(result: seq<Track>, matches: seq<RawMatch>) returns (r: seq<Track>)
    ensures r == result + Candidates(matches)
  {
    r := result;
    for i := 0 to |matches|
      invariant r == result + Candidates(matches[..i])
    {
      var t := TimeToMs(matches[i].time);
      CandidatesSnoc(matches, i);
      if t.Ms? {
        r := r + [Track(t.ms, Strip(matches[i].title))];
      }
    }
    assert matches[..|matches|] == matches;
  }

  /** The `seen_times` loop over the sorted candidates: an entry is kept when its time is new. */
  method KeepFirstPerTime(sorted: seq<Track>) returns (unique: seq<Track>)
    ensures unique == Dedup(sorted)
  {
    unique := [];
    var seenTimes: set<int> := {};
    for i := 0 to |sorted|
      invariant unique + DedupFrom(sorted[i..], seenTimes) == Dedup(sorted)
      invariant seenTimes == Times(unique)
    {
      assert sorted[i..][1..] == sorted[i + 1..];
      if sorted[i].time !in seenTimes {
        unique := unique + [sorted[i]];
        seenTimes := seenTimes + {sorted[i].time};
      }
    }
    assert sorted[|sorted|..] == [];
  }

  /** `extract_timestamps` (and `extract_timestamps_enhanced`). */
  method ExtractTimestamps(description: string) returns (unique: seq<Track>)
    ensures unique == Timestamps(description)
  {
    var matches1 := FindAll(TimeFirst, description);
    var matches2 := FindAll(TitleFirst, description);
    var result := AppendCandidates([], matches1);
    assert result == Candidates(matches1);
    result := AppendCandidates(result, matches2);
    assert result == AllCandidates(description);
    var sorted := SortByTime(result);
    unique := KeepFirstPerTime(sorted);
  }

  /** `extract_timestamps_current`: no match gives `[]`, otherwise the sorted candidates. */
  method ExtractTimestampsCurrent(description: string) returns (r: seq<Track>)
    ensures r == CurrentTimestamps(description)
  {
    var matches := FindAll(TimeFirst, description);
    if |matches| == 0 {
      assert Candidates(matches) == [];
      return [];
    }
    var result := AppendCandidates([], matches);
    assert result == Candidates(matches);
    r := SortByTime(result);
  }
}
