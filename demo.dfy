/**
 * The worked example at the bottom of `test_timestamps.py`: a tracklist in
 * "Title - M:SS" form, what the two extractors make of it, and the report
 * loops that print each result as `{i+1:2d}. {name} - {minutes}:{seconds:02d}`.
 * The printed lines are returned as a sequence of strings.
 */
module TimestampDemo {
  import opened Wrappers
  import opened Text
  import opened TimeParse
  import opened LinePattern
  import opened Extractor

  // ---------------------------------------------------------------------------
  // Title-first tracklists
  // ---------------------------------------------------------------------------

  /** One row of a tracklist: a title and the time token written after it. */
  datatype Entry = Entry(title: string, token: string)

  function Row(e: Entry): string
  {
    e.title + " - " + e.token
  }

  /** The rows, one per line. */
  function Tracklist(es: seq<Entry>): string
    requires es != []
  {
    if |es| == 1 then Row(es[0]) else Row(es[0]) + "\n" + Tracklist(es[1..])
  }

  /**
   * A title the title-first pattern reads as written: it starts with neither
   * a digit nor '(', has no separator or line feed, and neither end of it is
   * white space.
   */
  predicate PlainTitle(t: string)
  {
    |t| >= 1 && !IsDigit(t[0]) && t[0] != '(' && !IsSpace(t[0]) && !IsSpace(t[|t| - 1])
    && forall i :: 0 <= i < |t| ==> !IsSep(t[i]) && t[i] != '\n'
  }

  predicate PlainRow(e: Entry)
  {
    PlainTitle(e.title) && IsToken(e.token)
  }

  /** The matches the title-first pattern should find, in row order. */
  function RowMatches(es: seq<Entry>): (r: seq<RawMatch>)
    ensures |r| == |es|
  {
    if es == [] then [] else [RawMatch(es[0].token, es[0].title)] + RowMatches(es[1..])
  }

  /** The tracks the rows denote. */
  function EntryTracks(es: seq<Entry>): (r: seq<Track>)
    ensures |r| == |es|
  {
    if es == [] then []
    else
      var t := TimeToMs(es[0].token);
      [Track(if t.Ms? then t.ms else 0, es[0].title)] + EntryTracks(es[1..])
  }

  lemma TokenNoLineBreak(t: string)
    requires IsToken(t)
    ensures '\n' !in t
  {
    var fs := Split(t, ':');
    SplitJoin(t, ':');
    forall i | 0 <= i < |fs|
      ensures '\n' !in fs[i]
    {
      assert IsField(fs[i]);
      NoNewlineInDigits(fs[i]);
    }
    JoinNoNewline(fs);
  }

  lemma NoNewlineInDigits(s: string)
    requires AllDigits(s)
    ensures '\n' !in s
  {
    forall i | 0 <= i < |s|
      ensures s[i] != '\n'
    {
      assert IsDigit(s[i]);
    }
  }

  lemma {:induction false} JoinNoNewline(fs: seq<string>)
    requires forall i :: 0 <= i < |fs| ==> '\n' !in fs[i]
    ensures '\n' !in Join(fs, ':')
  {
    if |fs| > 1 {
      JoinNoNewline(fs[1..]);
    }
  }

  /** A plain row is one line. */
  lemma PlainRowOneLine(e: Entry)
    requires PlainRow(e)
    ensures '\n' !in Row(e)
  {
    TokenNoLineBreak(e.token);
    assert '\n' !in e.title by {
      forall i | 0 <= i < |e.title|
        ensures e.title[i] != '\n'
      {
      }
    }
    assert '\n' !in " - ";
  }

  /** A line that starts with neither a digit nor '(' has no time-first match. */
  lemma NotTimeFirst(line: string)
    requires |line| >= 1 && !IsDigit(line[0]) && line[0] != '('
    ensures MatchTimeFirst(line) == None
  {
    assert Open(line) == 0;
    if MatchTimeFirst(line).Some? {
      MatchTimeFirstStartsWithDigit(line);
    }
  }

  /** A plain row is one line; the title-first pattern reads it as written and the time-first pattern not at all. */
  lemma PlainRowMatches(e: Entry)
    requires PlainRow(e)
    ensures '\n' !in Row(e)
    ensures MatchLine(TitleFirst, Row(e)) == Some(RawMatch(e.token, e.title))
    ensures MatchLine(TimeFirst, Row(e)) == None
  {
    PlainRowOneLine(e);
    TitleDashToken(e.title, e.token);
    assert Row(e)[0] == e.title[0];
    NotTimeFirst(Row(e));
  }

  /** A plain row followed by more lines: one title-first match and no time-first match from the row. */
  lemma {:induction false} PlainRowThen(e: Entry, rest: string)
    requires PlainRow(e)
    ensures FindAll(TitleFirst, Row(e) + "\n" + rest) == [RawMatch(e.token, e.title)] + FindAll(TitleFirst, rest)
    ensures FindAll(TimeFirst, Row(e) + "\n" + rest) == FindAll(TimeFirst, rest)
  {
    PlainRowMatches(e);
    FindAllLine(TitleFirst, Row(e), rest);
    FindAllLine(TimeFirst, Row(e), rest);
    assert Present([MatchLine(TimeFirst, Row(e))]) == [];
  }

  /** A plain row on its own. */
  lemma {:induction false} PlainRowAlone(e: Entry)
    requires PlainRow(e)
    ensures FindAll(TitleFirst, Row(e)) == [RawMatch(e.token, e.title)]
    ensures FindAll(TimeFirst, Row(e)) == []
  {
    PlainRowMatches(e);
    FindAllSingle(TitleFirst, Row(e));
    FindAllSingle(TimeFirst, Row(e));
    assert Present([MatchLine(TimeFirst, Row(e))]) == [];
  }

  /** On a tracklist of plain rows the title-first pattern finds every row and the time-first pattern none. */
  lemma {:induction false} TracklistMatches(es: seq<Entry>)
    requires es != [] && forall i :: 0 <= i < |es| ==> PlainRow(es[i])
    ensures FindAll(TitleFirst, Tracklist(es)) == RowMatches(es)
    ensures FindAll(TimeFirst, Tracklist(es)) == []
  {
    if |es| == 1 {
      PlainRowAlone(es[0]);
    } else {
      assert forall i :: 1 <= i < |es| ==> es[1..][i - 1] == es[i];
      TracklistMatches(es[1..]);
      PlainRowThen(es[0], Tracklist(es[1..]));
    }
  }

  lemma TitleUnstripped(title: string)
    requires |title| >= 1 && !IsSpace(title[0]) && !IsSpace(title[|title| - 1])
    ensures Strip(title) == title
  {
    StripUnchanged(title);
  }

  /** A plain row's match is a candidate with the token's time and the title as written. */
  lemma {:induction false} PlainRowCandidate(e: Entry)
    requires PlainRow(e)
    ensures TimeToMs(e.token).Ms?
    ensures Candidates([RawMatch(e.token, e.title)]) == [Track(TimeToMs(e.token).ms, e.title)]
  {
    TokenConverts(e.token);
    TitleUnstripped(e.title);
    var m := RawMatch(e.token, e.title);
    assert [m][1..] == [];
  }

  lemma {:induction false} RowCandidates(es: seq<Entry>)
    requires forall i :: 0 <= i < |es| ==> PlainRow(es[i])
    ensures Candidates(RowMatches(es)) == EntryTracks(es)
  {
    if es != [] {
      PlainRowCandidate(es[0]);
      assert forall i :: 1 <= i < |es| ==> es[1..][i - 1] == es[i];
      RowCandidates(es[1..]);
      assert RowMatches(es) == [RawMatch(es[0].token, es[0].title)] + RowMatches(es[1..]);
      CandidatesAppend([RawMatch(es[0].token, es[0].title)], RowMatches(es[1..]));
    }
  }

  lemma {:induction false} SortByTimeOfSorted(s: seq<Track>)
    requires Sorted(s)
    ensures SortByTime(s) == s
  {
    if s != [] {
      assert Sorted(s[1..]);
      SortByTimeOfSorted(s[1..]);
      assert s == [s[0]] + s[1..];
    }
  }

  lemma {:induction false} DedupFromOfIncreasing(s: seq<Track>, seen: set<int>)
    requires Increasing(s)
    requires forall t :: t in seen ==> s == [] || t < s[0].time
    ensures DedupFrom(s, seen) == s
  {
    if s != [] {
      assert Increasing(s[1..]);
      DedupFromOfIncreasing(s[1..], seen + {s[0].time});
      assert s == [s[0]] + s[1..];
    }
  }

  /**
   * A tracklist of plain rows whose times increase strictly from top to
   * bottom: the enhanced extractor returns exactly its rows, and the current
   * one finds nothing, since no line starts with a time.
   */
  lemma {:induction false} TracklistTimestamps(es: seq<Entry>)
    requires es != [] && forall i :: 0 <= i < |es| ==> PlainRow(es[i])
    requires Increasing(EntryTracks(es))
    ensures Timestamps(Tracklist(es)) == EntryTracks(es)
    ensures CurrentTimestamps(Tracklist(es)) == []
  {
    var d := Tracklist(es);
    TracklistMatches(es);
    RowCandidates(es);
    assert AllCandidates(d) == EntryTracks(es) by {
      assert Candidates(FindAll(TimeFirst, d)) == [];
      assert [] + EntryTracks(es) == EntryTracks(es);
    }
    SortByTimeOfSorted(EntryTracks(es));
    DedupFromOfIncreasing(EntryTracks(es), {});
  }

  // ---------------------------------------------------------------------------
  // Printing times as M:SS
  // ---------------------------------------------------------------------------

  /**
   * `f"{minutes}:{seconds:02d}"` after `seconds = ms // 1000`,
   * `minutes = seconds // 60`, `seconds %= 60`.  The divisors are positive,
   * where Dafny's `/` and `%` agree with Python's floor division.
   */
  function MinSecText(ms: int): string
  {
    IntToString(ms / 1000 / 60) + ":" + Pad2(ms / 1000 % 60)
  }

  lemma NatToStringShort(n: nat)
    requires n < 100
    ensures |NatToString(n)| <= 2
  {
    if n >= 10 {
      assert NatToString(n) == NatToString(n / 10) + [DigitChar(n % 10)];
    }
  }

  lemma Pad2Short(n: nat)
    requires n < 100
    ensures |Pad2(n)| == 2
  {
    NatToStringShort(n);
  }

  /** A printed time reads back as the time truncated to whole seconds. */
  lemma MinSecTime(ms: int)
    requires ms >= 0
    ensures TimeToMs(MinSecText(ms)) == Ms(ms / 1000 * 1000)
  {
    var q := ms / 1000;
    var m, sec := q / 60, q % 60;
    assert q == m * 60 + sec;
    assert MinSecText(ms) == NatToString(m) + ":" + Pad2(sec);
    TwoFields(NatToString(m), Pad2(sec));
  }

  /** Below 100 minutes a printed time is a time token the patterns recognise. */
  lemma MinSecToken(ms: int)
    requires 0 <= ms < 6000000
    ensures IsToken(MinSecText(ms))
  {
    var q := ms / 1000;
    NatToStringShort(q / 60);
    Pad2Short(q % 60);
    TokenOfTwo(IntToString(q / 60), Pad2(q % 60));
  }

  /** A numeral without a leading zero is the canonical numeral of its value. */
  lemma {:induction false} CanonicalNumeral(m: string)
    requires |m| >= 1 && AllDigits(m) && (|m| > 1 ==> m[0] != '0')
    ensures NatToString(DecValue(m)) == m
  {
    var d := m[|m| - 1];
    if |m| == 1 {
      assert DecValue(m) == DigitValue(d);
      assert [DigitChar(DigitValue(d))] == m;
    } else {
      var init := m[..|m| - 1];
      assert init[0] == m[0];
      CanonicalNumeral(init);
      assert DecValue(m) == 10 * DecValue(init) + DigitValue(d);
      assert NatToString(0) == "0";
      assert DecValue(init) >= 1;
      assert DecValue(m) / 10 == DecValue(init) && DecValue(m) % 10 == DigitValue(d);
      assert NatToString(DecValue(m)) == NatToString(DecValue(init)) + [DigitChar(DigitValue(d))];
      assert m == init + [d];
    }
  }

  /** Two digits are the zero-padded numeral of their value. */
  lemma Pad2OfDigits(s: string)
    requires |s| == 2 && AllDigits(s)
    ensures Pad2(DecValue(s)) == s
  {
    assert s[..1][..0] == [] && s[..1][0] == s[0];
    assert DecValue(s[..1]) == DigitValue(s[0]);
    assert DecValue(s) == 10 * DigitValue(s[0]) + DigitValue(s[1]);
    if DigitValue(s[0]) == 0 {
      assert Pad2(DecValue(s)) == "0" + [DigitChar(DigitValue(s[1]))];
    } else {
      CanonicalNumeral(s);
    }
  }

  /**
   * Printing the time of a token written `M:SS` (minutes without a leading
   * zero, seconds under 60) gives the token back.
   */
  lemma TokenRoundTrip(m: string, s: string)
    requires |m| >= 1 && AllDigits(m) && (|m| > 1 ==> m[0] != '0')
    requires |s| == 2 && AllDigits(s) && DecValue(s) < 60
    ensures TimeToMs(m + ":" + s).Ms?
    ensures MinSecText(TimeToMs(m + ":" + s).ms) == m + ":" + s
  {
    TwoFields(m, s);
    var q := DecValue(m) * 60 + DecValue(s);
    assert TimeToMs(m + ":" + s).ms == q * 1000;
    assert q * 1000 / 1000 == q;
    assert q / 60 == DecValue(m) && q % 60 == DecValue(s);
    CanonicalNumeral(m);
    Pad2OfDigits(s);
  }

  // ---------------------------------------------------------------------------
  // Tracklists printed from tracks, and back
  // ---------------------------------------------------------------------------

  /** The tracklist rows for tracks: each title followed by its time as M:SS. */
  function Rows(ts: seq<Track>): (r: seq<Entry>)
    ensures |r| == |ts|
  {
    if ts == [] then [] else [Entry(ts[0].title, MinSecText(ts[0].time))] + Rows(ts[1..])
  }

  lemma {:induction false} RowsAt(ts: seq<Track>, i: nat)
    requires i < |ts|
    ensures Rows(ts)[i] == Entry(ts[i].title, MinSecText(ts[i].time))
  {
    if i > 0 {
      RowsAt(ts[1..], i - 1);
    }
  }

  /** A track that prints as a plain row: a plain title and whole seconds below 100 minutes. */
  predicate Printable(t: Track)
  {
    PlainTitle(t.title) && 0 <= t.time < 6000000 && t.time % 1000 == 0
  }

  /** Times strictly increasing from each track to the next. */
  predicate Ascending(ts: seq<Track>)
  {
    forall i :: 0 <= i < |ts| - 1 ==> ts[i].time < ts[i + 1].time
  }

  lemma {:induction false} AscendingIncreasing(ts: seq<Track>)
    requires Ascending(ts)
    ensures Increasing(ts)
  {
    if |ts| >= 2 {
      var rest := ts[1..];
      assert forall j :: 0 <= j < |rest| ==> rest[j] == ts[j + 1];
      AscendingIncreasing(rest);
      forall i, j | 0 <= i < j < |ts|
        ensures ts[i].time < ts[j].time
      {
        if i > 0 {
          assert rest[i - 1].time < rest[j - 1].time;
        } else if j > 1 {
          assert rest[0].time < rest[j - 1].time;
        }
      }
    }
  }

  lemma {:induction false} PrintableRow(t: Track)
    requires Printable(t)
    ensures PlainRow(Entry(t.title, MinSecText(t.time)))
    ensures TimeToMs(MinSecText(t.time)) == Ms(t.time)
  {
    assert IsToken(MinSecText(t.time)) by { MinSecToken(t.time); }
    assert TimeToMs(MinSecText(t.time)) == Ms(t.time) by {
      MinSecTime(t.time);
      assert t.time / 1000 * 1000 == t.time;
    }
  }

  /** A row denotes a track: the same title, and a token `time_to_ms` reads as the track's time. */
  predicate Denotes(e: Entry, t: Track)
  {
    e.title == t.title && TimeToMs(e.token) == Ms(t.time)
  }

  /** Rows that each denote their track denote the tracks. */
  lemma {:induction false} EntryTracksOf(es: seq<Entry>, ts: seq<Track>)
    requires |es| == |ts|
    requires forall i :: 0 <= i < |es| ==> Denotes(es[i], ts[i])
    ensures EntryTracks(es) == ts
  {
    if es != [] {
      assert Denotes(es[0], ts[0]);
      var t := TimeToMs(es[0].token);
      assert Track(if t.Ms? then t.ms else 0, es[0].title) == ts[0];
      forall i | 0 <= i < |es| - 1
        ensures Denotes(es[1..][i], ts[1..][i])
      {
        assert es[1..][i] == es[i + 1] && ts[1..][i] == ts[i + 1];
        assert Denotes(es[i + 1], ts[i + 1]);
      }
      EntryTracksOf(es[1..], ts[1..]);
      assert ts == [ts[0]] + ts[1..];
    }
  }

  /**
   * Printing tracks as a "Title - M:SS" tracklist and extracting it again:
   * the enhanced extractor gives back exactly the tracks, and the current one
   * finds nothing.
   */
  lemma {:induction false} PrintedTracklist(ts: seq<Track>)
    requires ts != [] && Ascending(ts)
    requires forall i :: 0 <= i < |ts| ==> Printable(ts[i])
    ensures Timestamps(Tracklist(Rows(ts))) == ts
    ensures CurrentTimestamps(Tracklist(Rows(ts))) == []
  {
    var es := Rows(ts);
    forall i | 0 <= i < |ts|
      ensures PlainRow(es[i]) && Denotes(es[i], ts[i])
    {
      RowsAt(ts, i);
      PrintableRow(ts[i]);
    }
    EntryTracksOf(es, ts);
    AscendingIncreasing(ts);
    TracklistTimestamps(es);
  }

  // ---------------------------------------------------------------------------
  // The example and the report loops
  // ---------------------------------------------------------------------------

  /** A row "title - m:ss" is plain, denotes `ms`, and prints back as it was written. */
  lemma LiteralRow(title: string, m: string, s: string, ms: int)
    requires PlainTitle(title) && IsField(m) && (|m| > 1 ==> m[0] != '0')
    requires |s| == 2 && AllDigits(s) && DecValue(s) < 60
    requires ms == DecValue(m) * 60 * 1000 + DecValue(s) * 1000
    ensures PlainRow(Entry(title, m + ":" + s))
    ensures TimeToMs(m + ":" + s) == Ms(ms)
    ensures MinSecText(ms) == m + ":" + s
  {
    assert IsToken(m + ":" + s) by { TokenOfTwo(m, s); }
    assert TimeToMs(m + ":" + s) == Ms(ms) by { TwoFields(m, s); }
    assert MinSecText(ms) == m + ":" + s by {
      TwoFields(m, s);
      TokenRoundTrip(m, s);
    }
  }

  /** Rows "title - m:ss" from columns of titles, minutes and seconds. */
  function MinSecEntries(titles: seq<string>, minutes: seq<string>, seconds: seq<string>): (r: seq<Entry>)
    requires |minutes| == |titles| && |seconds| == |titles|
    ensures |r| == |titles|
  {
    if titles == [] then []
    else [Entry(titles[0], minutes[0] + ":" + seconds[0])] + MinSecEntries(titles[1..], minutes[1..], seconds[1..])
  }

  lemma {:induction false} MinSecEntriesAt(titles: seq<string>, minutes: seq<string>, seconds: seq<string>, i: nat)
    requires |minutes| == |titles| && |seconds| == |titles| && i < |titles|
    ensures MinSecEntries(titles, minutes, seconds)[i] == Entry(titles[i], minutes[i] + ":" + seconds[i])
  {
    if i > 0 {
      MinSecEntriesAt(titles[1..], minutes[1..], seconds[1..], i - 1);
    }
  }

  /** Tracks from columns of times and titles. */
  function TracksOf(times: seq<int>, titles: seq<string>): (r: seq<Track>)
    requires |titles| == |times|
    ensures |r| == |times|
  {
    if times == [] then [] else [Track(times[0], titles[0])] + TracksOf(times[1..], titles[1..])
  }

  lemma {:induction false} TracksOfAt(times: seq<int>, titles: seq<string>, i: nat)
    requires |titles| == |times| && i < |times|
    ensures TracksOf(times, titles)[i] == Track(times[i], titles[i])
  {
    if i > 0 {
      TracksOfAt(times[1..], titles[1..], i - 1);
    }
  }

  /**
   * Columns for rows written "title - m:ss": plain titles, minutes of one or
   * two digits without a leading zero, seconds of two digits below 60, and the
   * time each row denotes in milliseconds.
   */
  predicate MinSecColumns(titles: seq<string>, minutes: seq<string>, seconds: seq<string>, times: seq<int>)
  {
    && |minutes| == |titles| && |seconds| == |titles| && |times| == |titles|
    && (forall i :: 0 <= i < |titles| ==> PlainTitle(titles[i]))
    && forall i :: 0 <= i < |titles| ==>
      && IsField(minutes[i]) && (|minutes[i]| > 1 ==> minutes[i][0] != '0') && |seconds[i]| == 2 && AllDigits(seconds[i])
      && DecValue(seconds[i]) < 60 && times[i] == DecValue(minutes[i]) * 60 * 1000 + DecValue(seconds[i]) * 1000
  }

  /** Such rows are plain, denote the tracks, and each time prints back as its token. */
  lemma MinSecRowsDenote(titles: seq<string>, minutes: seq<string>, seconds: seq<string>, times: seq<int>)
    requires MinSecColumns(titles, minutes, seconds, times)
    ensures forall i :: 0 <= i < |titles| ==> PlainRow(MinSecEntries(titles, minutes, seconds)[i])
    ensures EntryTracks(MinSecEntries(titles, minutes, seconds)) == TracksOf(times, titles)
    ensures forall i :: 0 <= i < |times| ==> MinSecText(times[i]) == minutes[i] + ":" + seconds[i]
  {
    var es := MinSecEntries(titles, minutes, seconds);
    var ts := TracksOf(times, titles);
    forall i | 0 <= i < |es|
      ensures PlainRow(es[i]) && Denotes(es[i], ts[i])
      ensures MinSecText(times[i]) == minutes[i] + ":" + seconds[i]
    {
      MinSecEntriesAt(titles, minutes, seconds, i);
      TracksOfAt(times, titles, i);
      assert PlainTitle(titles[i]);
      LiteralRow(titles[i], minutes[i], seconds[i], times[i]);
    }
    EntryTracksOf(es, ts);
  }

  lemma TracksOfAscending(times: seq<int>, titles: seq<string>)
    requires |titles| == |times|
    requires forall i :: 0 <= i < |times| - 1 ==> times[i] < times[i + 1]
    ensures Ascending(TracksOf(times, titles))
  {
    forall i | 0 <= i < |times| - 1
      ensures TracksOf(times, titles)[i].time < TracksOf(times, titles)[i + 1].time
    {
      TracksOfAt(times, titles, i);
      TracksOfAt(times, titles, i + 1);
    }
  }

  /**
   * A tracklist of rows written "title - m:ss" with strictly increasing
   * times: the enhanced extractor finds exactly the rows' tracks and the
   * current one finds nothing.
   */
  lemma {:induction false} MinSecTracklist(titles: seq<string>, minutes: seq<string>, seconds: seq<string>, times: seq<int>)
    requires titles != [] && MinSecColumns(titles, minutes, seconds, times)
    requires forall i :: 0 <= i < |times| - 1 ==> times[i] < times[i + 1]
    ensures Timestamps(Tracklist(MinSecEntries(titles, minutes, seconds))) == TracksOf(times, titles)
    ensures CurrentTimestamps(Tracklist(MinSecEntries(titles, minutes, seconds))) == []
  {
    MinSecRowsDenote(titles, minutes, seconds, times);
    TracksOfAscending(times, titles);
    AscendingIncreasing(TracksOf(times, titles));
    TracklistTimestamps(MinSecEntries(titles, minutes, seconds));
  }

  /** The example's titles, and the minutes and seconds written after each. */
  const ExampleTitles := ["Predlude", "Ichthus", "The Serpent's Kiss", "Mountain", "Theocracy",
    "The Healing Hand", "Sinner", "New Jerusalem", "The Victory Dance", "Twist of Fate"]
  const ExampleMinutes := ["0", "1", "6", "18", "23", "29", "40", "46", "51", "56"]
  const ExampleSeconds := ["00", "37", "16", "13", "01", "02", "38", "47", "57", "59"]

  /** The example's rows: "Predlude - 0:00", "Ichthus - 1:37", ..., "Twist of Fate - 56:59". */
  const ExampleEntries := MinSecEntries(ExampleTitles, ExampleMinutes, ExampleSeconds)

  /** The example tracklist: its rows one per line. */
  const Example := Tracklist(ExampleEntries)

  /** The times the rows denote, in milliseconds, and the tracks. */
  const ExampleTimes := [0, 97000, 376000, 1093000, 1381000, 1742000, 2438000, 2807000, 3117000, 3419000]
  const ExampleTracks := TracksOf(ExampleTimes, ExampleTitles)

  lemma ExampleTitlesPlainFirst()
    ensures forall i :: 0 <= i < 5 ==> PlainTitle(ExampleTitles[i])
  {
  }

  lemma ExampleTitlesPlainLast()
    ensures forall i :: 5 <= i < 10 ==> PlainTitle(ExampleTitles[i])
  {
  }

  lemma ExampleFields()
    ensures forall i :: 0 <= i < |ExampleTitles| ==>
      && IsField(ExampleMinutes[i]) && (|ExampleMinutes[i]| > 1 ==> ExampleMinutes[i][0] != '0')
      && |ExampleSeconds[i]| == 2 && AllDigits(ExampleSeconds[i])
  {
  }

  lemma ExampleTimesDenotedFirst()
    ensures forall i :: 0 <= i < 5 ==>
      DecValue(ExampleSeconds[i]) < 60 && ExampleTimes[i] == DecValue(ExampleMinutes[i]) * 60 * 1000 + DecValue(ExampleSeconds[i]) * 1000
  {
    ExampleFields();
  }

  lemma ExampleTimesDenotedLast()
    ensures forall i :: 5 <= i < 10 ==>
      DecValue(ExampleSeconds[i]) < 60 && ExampleTimes[i] == DecValue(ExampleMinutes[i]) * 60 * 1000 + DecValue(ExampleSeconds[i]) * 1000
  {
    ExampleFields();
  }

  /** The example's columns describe rows written "title - m:ss" with increasing times. */
  lemma ExampleColumns()
    ensures MinSecColumns(ExampleTitles, ExampleMinutes, ExampleSeconds, ExampleTimes)
    ensures forall i :: 0 <= i < |ExampleTimes| - 1 ==> ExampleTimes[i] < ExampleTimes[i + 1]
  {
    ExampleTitlesPlainFirst();
    ExampleTitlesPlainLast();
    ExampleFields();
    ExampleTimesDenotedFirst();
    ExampleTimesDenotedLast();
  }

  /**
   * On the example the current extractor finds nothing and the enhanced one
   * finds all ten tracks in order.
   */
  lemma ExampleTimestamps()
    ensures CurrentTimestamps(Example) == []
    ensures Timestamps(Example) == ExampleTracks
  {
    ExampleColumns();
    MinSecTracklist(ExampleTitles, ExampleMinutes, ExampleSeconds, ExampleTimes);
  }

  /** Each of the example's times prints back as the token it was read from. */
  lemma ExampleTimesPrintBack()
    ensures forall i :: 0 <= i < |ExampleTimes| ==> MinSecText(ExampleTimes[i]) == ExampleMinutes[i] + ":" + ExampleSeconds[i]
  {
    ExampleColumns();
    MinSecRowsDenote(ExampleTitles, ExampleMinutes, ExampleSeconds, ExampleTimes);
  }

  /** `f"{n:2d}"` for a non-negative `n`. */
  function Width2(n: nat): (s: string)
    ensures |s| >= 2
  {
    if n < 10 then " " + NatToString(n) else NatToString(n)
  }

  function ReportLine(i: nat, t: Track): string
  {
    Width2(i + 1) + ". " + t.title + " - " + MinSecText(t.time)
  }

  function ReportLines(ts: seq<Track>): (r: seq<string>)
    ensures |r| == |ts|
  {
    if ts == [] then [] else ReportLines(ts[..|ts| - 1]) + [ReportLine(|ts| - 1, ts[|ts| - 1])]
  }

  lemma {:induction false} ReportLinesAt(ts: seq<Track>, i: nat)
    requires i < |ts|
    ensures ReportLines(ts)[i] == ReportLine(i, ts[i])
  {
    if i < |ts| - 1 {
      ReportLinesAt(ts[..|ts| - 1], i);
    }
  }

  lemma ReportLinesSnoc(ts: seq<Track>, i: nat)
    requires i < |ts|
    ensures ReportLines(ts[..i + 1]) == ReportLines(ts[..i]) + [ReportLine(i, ts[i])]
  {
    assert ts[..i + 1][..i] == ts[..i];
  }

  /** What one report block prints after its heading: the numbered tracks, or the given line when there are none. */
  function Report(noneLine: string, results: seq<Track>): seq<string>
  {
    if results == [] then [noneLine] else ReportLines(results)
  }

  /** A report line numbers a track and echoes the row that printed it. */
  lemma {:induction false} ReportLineOfRow(i: nat, t: Track, e: Entry)
    requires e.title == t.title && e.token == MinSecText(t.time)
    ensures ReportLine(i, t) == Width2(i + 1) + ". " + Row(e)
  {
    Regroup(Width2(i + 1) + ". ", t.title, " - ", MinSecText(t.time));
  }

  /** Each line of the report of printed tracks numbers one of the printed rows. */
  lemma {:induction false} ReportEchoesRows(ts: seq<Track>, i: nat)
    requires i < |ts|
    ensures ReportLines(ts)[i] == Width2(i + 1) + ". " + Row(Rows(ts)[i])
  {
    ReportLinesAt(ts, i);
    RowsAt(ts, i);
    ReportLineOfRow(i, ts[i], Rows(ts)[i]);
  }

  /** One report block: the numbered tracks, or the line saying there were none. */
  method PrintResults(noneLine: string, results: seq<Track>) returns (lines: seq<string>)
    ensures lines == Report(noneLine, results)
  {
    if |results| == 0 {
      return [noneLine];
    }
    lines := [];
    for i := 0 to |results|
      invariant lines == ReportLines(results[..i])
    {
      var t := results[i];
      var seconds := t.time / 1000;
      var minutes := seconds / 60;
      seconds := seconds % 60;
      var line := Width2(i + 1) + ". " + t.title + " - " + (IntToString(minutes) + ":" + Pad2(seconds));
      ReportLinesSnoc(results, i);
      lines := lines + [line];
    }
    assert results[..|results|] == results;
  }

  const CurrentHeading := "Testing with current extraction function:"
  const CurrentNone := "Current function found no timestamps"
  const EnhancedHeading := "\nTesting with enhanced extraction function:"
  const EnhancedNone := "Enhanced function found no timestamps"

  /** Everything the script prints, line by line, given the two extractors' results. */
  function Output(current: seq<Track>, enhanced: seq<Track>): seq<string>
  {
    [CurrentHeading] + Report(CurrentNone, current) + [EnhancedHeading] + Report(EnhancedNone, enhanced)
  }

  /** What the script prints on the example. */
  function DemoOutput(): seq<string>
  {
    Output(CurrentTimestamps(Example), Timestamps(Example))
  }

  method Demo() returns (output: seq<string>)
    ensures output == DemoOutput()
  {
    var currentResults := ExtractTimestampsCurrent(Example);
    var current := PrintResults(CurrentNone, currentResults);
    var enhancedResults := ExtractTimestamps(Example);
    var enhanced := PrintResults(EnhancedNone, enhancedResults);
    output := [CurrentHeading] + current + [EnhancedHeading] + enhanced;
  }

  /** With nothing from the current extractor, its block is the one "found no timestamps" line. */
  lemma OutputNoCurrent(enhanced: seq<Track>)
    requires enhanced != []
    ensures Output([], enhanced) == [CurrentHeading, CurrentNone, EnhancedHeading] + ReportLines(enhanced)
  {
    assert Report(CurrentNone, []) == [CurrentNone];
    ThreeLines(CurrentHeading, CurrentNone, EnhancedHeading);
  }

  /** Proof helper: three one-line sequences in a row are the three-line display. */
  lemma ThreeLines(a: string, b: string, c: string)
    ensures [a] + [b] + [c] == [a, b, c]
  {
  }

  /** The enhanced block on the example numbers its ten rows as they were written. */
  lemma ExampleReportLines()
    ensures forall i :: 0 <= i < |ExampleTracks| ==> ReportLines(ExampleTracks)[i] == Width2(i + 1) + ". " + Row(ExampleEntries[i])
  {
    ExampleTimesPrintBack();
    forall i | 0 <= i < |ExampleTracks|
      ensures ReportLines(ExampleTracks)[i] == Width2(i + 1) + ". " + Row(ExampleEntries[i])
    {
      MinSecEntriesAt(ExampleTitles, ExampleMinutes, ExampleSeconds, i);
      TracksOfAt(ExampleTimes, ExampleTitles, i);
      ReportLinesAt(ExampleTracks, i);
      ReportLineOfRow(i, ExampleTracks[i], ExampleEntries[i]);
    }
  }

  /**
   * The script's output on the example: the current block reports no
   * timestamps, and the enhanced block lists the ten rows.
   */
  lemma ExampleOutput()
    ensures DemoOutput() == [CurrentHeading, CurrentNone, EnhancedHeading] + ReportLines(ExampleTracks)
  {
    ExampleTimestamps();
    OutputNoCurrent(ExampleTracks);
  }
}
