/**
 * The planning part of `split_audio_by_timestamps`: the caller's list of
 * (time, title) pairs gets an `(len(audio), "End")` sentinel appended, and
 * segment `i` runs from entry `i`'s time to entry `i + 1`'s time and is
 * exported as `{i+1:02d} - {sanitized title}.mp3` in the output directory.
 * The audio is its length in milliseconds (or a load failure), and an export
 * is the record of what was written where.
 */
module Splitter {
  import opened Wrappers
  import opened Text
  import opened Filename
  import opened Extractor

  /** The caller's `timestamps` list, which the split mutates. */
  class TrackList {
    var items: seq<Track>

    constructor(items: seq<Track>)
      ensures this.items == items
    {
      this.items := items;
    }
  }

  /** `segment.export(path, format="mp3", bitrate=bitrate)` for `audio[start:end]`. */
  datatype Export = Export(path: string, start: int, end: int, bitrate: string)

  /** Everything exported so far, in order. */
  class Exporter {
    var exported: seq<Export>

    constructor()
      ensures exported == []
    {
      exported := [];
    }

    method ExportSegment(path: string, start: int, end: int, bitrate: string)
      modifies this
      ensures exported == old(exported) + [Export(path, start, end, bitrate)]
    {
      exported := exported + [Export(path, start, end, bitrate)];
    }
  }

  /** `f"{i+1:02d} - {sanitize_filename(title)}.mp3"` */
  function TrackFileName(i: nat, title: string): string
  {
    Pad2(i + 1) + " - " + Sanitize(title) + ".mp3"
  }

  /** `str(Path(output_dir) / name)` */
  function OutputPath(outputDir: string, name: string): string
  {
    outputDir + "/" + name
  }

  /** The path of track `i`. */
  function TrackPath(outputDir: string, i: nat, title: string): string
  {
    OutputPath(outputDir, TrackFileName(i, title))
  }

  /** The paths of the first `n` tracks, in index order. */
  function TrackPaths(timestamps: seq<Track>, outputDir: string, n: nat): (r: seq<string>)
    requires n <= |timestamps|
    ensures |r| == n
  {
    if n == 0 then [] else TrackPaths(timestamps, outputDir, n - 1) + [TrackPath(outputDir, n - 1, timestamps[n - 1].title)]
  }

  lemma {:induction false} TrackPathsAt(timestamps: seq<Track>, outputDir: string, n: nat, i: nat)
    requires i < n <= |timestamps|
    ensures TrackPaths(timestamps, outputDir, n)[i] == TrackPath(outputDir, i, timestamps[i].title)
  {
    if i < n - 1 {
      TrackPathsAt(timestamps, outputDir, n - 1, i);
    }
  }

  /** The export of segment `i` of the list with its sentinel, to the `i`-th path. */
  function Segment(bounds: seq<Track>, paths: seq<string>, i: nat, bitrate: string): Export
    requires i + 1 < |bounds| && i < |paths|
  {
    Export(paths[i], bounds[i].time, bounds[i + 1].time, bitrate)
  }

  /** The exports of the first `n` segments, in index order. */
  function Segments(bounds: seq<Track>, paths: seq<string>, n: nat, bitrate: string): (r: seq<Export>)
    requires n < |bounds| && n <= |paths|
    ensures |r| == n
  {
    if n == 0 then [] else Segments(bounds, paths, n - 1, bitrate) + [Segment(bounds, paths, n - 1, bitrate)]
  }

  lemma SegmentsSnoc(before: seq<Export>, bounds: seq<Track>, paths: seq<string>, n: nat, bitrate: string)
    requires n + 1 < |bounds| && n < |paths|
    ensures before + Segments(bounds, paths, n + 1, bitrate)
         == (before + Segments(bounds, paths, n, bitrate)) + [Export(paths[n], bounds[n].time, bounds[n + 1].time, bitrate)]
  {
  }

  lemma PrefixSnoc<T>(s: seq<T>, n: nat)
    requires n < |s|
    ensures s[..n + 1] == s[..n] + [s[n]]
  {
  }

  lemma {:induction false} SegmentsAt(bounds: seq<Track>, paths: seq<string>, n: nat, bitrate: string, i: nat)
    requires i < n < |bounds| && n <= |paths|
    ensures Segments(bounds, paths, n, bitrate)[i] == Segment(bounds, paths, i, bitrate)
  {
    if i < n - 1 {
      SegmentsAt(bounds, paths, n - 1, bitrate, i);
    }
  }

  function Paths(es: seq<Export>): (r: seq<string>)
    ensures |r| == |es| && forall i :: 0 <= i < |es| ==> r[i] == es[i].path
  {
    if es == [] then [] else Paths(es[..|es| - 1]) + [es[|es| - 1].path]
  }

  lemma PathsSnoc(es: seq<Export>, e: Export)
    ensures Paths(es + [e]) == Paths(es) + [e.path]
  {
    assert (es + [e])[..|es|] == es;
  }

  /** The exports of a successful split: one per timestamp, the last ending at the audio's length. */
  function Plan(timestamps: seq<Track>, audioLength: nat, outputDir: string, bitrate: string): seq<Export>
  {
    var bounds := timestamps + [Track(audioLength, "End")];
    Segments(bounds, TrackPaths(timestamps, outputDir, |timestamps|), |timestamps|, bitrate)
  }

  /** One pass of the split loop: name the track's file and export its segment there. */
  method ExportTrack(exporter: Exporter, outputDir: string, i: nat, startTime: int, endTime: int, trackName: string,
                     bitrate: string) returns (outputFile: string)
    modifies exporter
    ensures outputFile == TrackPath(outputDir, i, trackName)
    ensures exporter.exported == old(exporter.exported) + [Export(outputFile, startTime, endTime, bitrate)]
  {
    var safeTrackName := Sanitize(trackName);
    var trackNumber := Pad2(i + 1);
    outputFile := OutputPath(outputDir, trackNumber + " - " + safeTrackName + ".mp3");
    exporter.ExportSegment(outputFile, startTime, endTime, bitrate);
  }

  /**
   * `split_audio_by_timestamps(audio_file, timestamps, output_dir, bitrate)`;
   * `audio` is `None` when the file cannot be loaded.
   */
  method SplitAudioByTimestamps(audio: Option<nat>, timestamps: TrackList, outputDir: string, bitrate: string,
                                exporter: Exporter) returns (createdFiles: seq<string>)
    modifies timestamps, exporter
    ensures old(timestamps.items) == [] || audio.None? ==>
      createdFiles == [] && timestamps.items == old(timestamps.items) && exporter.exported == old(exporter.exported)
    ensures old(timestamps.items) != [] && audio.Some? ==>
      timestamps.items == old(timestamps.items) + [Track(audio.value, "End")]
      && exporter.exported == old(exporter.exported) + Plan(old(timestamps.items), audio.value, outputDir, bitrate)
      && createdFiles == TrackPaths(old(timestamps.items), outputDir, |old(timestamps.items)|)
  {
    if timestamps.items == [] {
      return [];
    }
    if audio.None? {
      return [];
    }
    ghost var before := exporter.exported;
    ghost var ts := timestamps.items;
    ghost var paths := TrackPaths(ts, outputDir, |ts|);
    timestamps.items := timestamps.items + [Track(audio.value, "End")];
    createdFiles := [];
    var i := 0;
    while i < |timestamps.items| - 1
      invariant 0 <= i <= |ts| && timestamps.items == ts + [Track(audio.value, "End")]
      invariant exporter.exported == before + Segments(timestamps.items, paths, i, bitrate)
      invariant createdFiles == paths[..i]
    {
      var startTime := timestamps.items[i].time;
      var endTime := timestamps.items[i + 1].time;
      var trackName := timestamps.items[i].title;
      var outputFile := ExportTrack(exporter, outputDir, i, startTime, endTime, trackName, bitrate);
      assert outputFile == paths[i] by {
        TrackPathsAt(ts, outputDir, |ts|, i);
        assert ts[i] == timestamps.items[i];
      }
      SegmentsSnoc(before, timestamps.items, paths, i, bitrate);
      createdFiles := createdFiles + [outputFile];
      PrefixSnoc(paths, i);
      i := i + 1;
    }
    assert createdFiles == paths;
    assert exporter.exported == before + Plan(ts, audio.value, outputDir, bitrate) by {
      assert Segments(timestamps.items, paths, i, bitrate) == Plan(ts, audio.value, outputDir, bitrate);
    }
  }

  // ---------------------------------------------------------------------------
  // What the plan promises
  // ---------------------------------------------------------------------------

  /**
   * One export per timestamp, in index order: export `i` is named after entry
   * `i`, starts at its time and carries the requested bitrate.
   */
  lemma PlanSegments(timestamps: seq<Track>, audioLength: nat, outputDir: string, bitrate: string)
    ensures var p := Plan(timestamps, audioLength, outputDir, bitrate);
      |p| == |timestamps|
      && forall i :: 0 <= i < |p| ==>
           p[i].path == outputDir + "/" + TrackFileName(i, timestamps[i].title)
           && p[i].start == timestamps[i].time && p[i].bitrate == bitrate
  {
    var bounds := timestamps + [Track(audioLength, "End")];
    var paths := TrackPaths(timestamps, outputDir, |timestamps|);
    var p := Plan(timestamps, audioLength, outputDir, bitrate);
    forall i | 0 <= i < |p|
      ensures p[i].path == TrackPath(outputDir, i, timestamps[i].title)
      ensures p[i].start == timestamps[i].time && p[i].bitrate == bitrate
    {
      SegmentsAt(bounds, paths, |timestamps|, bitrate, i);
      TrackPathsAt(timestamps, outputDir, |timestamps|, i);
      assert bounds[i] == timestamps[i];
    }
  }

  /**
   * Each export ends where the next one starts, and the last one ends at the
   * audio's length; empty or backwards spans are kept.
   */
  lemma PlanBoundaries(timestamps: seq<Track>, audioLength: nat, outputDir: string, bitrate: string)
    ensures var p := Plan(timestamps, audioLength, outputDir, bitrate);
      |p| == |timestamps|
      && (forall i :: 0 <= i < |p| ==> p[i].start == timestamps[i].time)
      && (forall i :: 0 <= i < |p| - 1 ==> p[i].end == p[i + 1].start)
      && (|p| > 0 ==> p[|p| - 1].end == audioLength)
  {
    var bounds := timestamps + [Track(audioLength, "End")];
    var paths := TrackPaths(timestamps, outputDir, |timestamps|);
    var p := Plan(timestamps, audioLength, outputDir, bitrate);
    forall i | 0 <= i < |p|
      ensures p[i].start == bounds[i].time && p[i].end == bounds[i + 1].time && bounds[i] == timestamps[i]
    {
      SegmentsAt(bounds, paths, |timestamps|, bitrate, i);
    }
    forall i | 0 <= i < |p| - 1
      ensures p[i].end == p[i + 1].start
    {
      assert bounds[i + 1] == timestamps[i + 1];
    }
  }

  /** Sum of the spans' lengths. */
  function TotalLength(es: seq<Export>): int
  {
    if es == [] then 0 else TotalLength(es[..|es| - 1]) + (es[|es| - 1].end - es[|es| - 1].start)
  }

  /** The spans of consecutive exports telescope: together they cover from the first start to the last end. */
  lemma {:induction false} TotalLengthContiguous(es: seq<Export>)
    requires |es| > 0
    requires forall i :: 0 <= i < |es| - 1 ==> es[i].end == es[i + 1].start
    ensures TotalLength(es) == es[|es| - 1].end - es[0].start
  {
    if |es| > 1 {
      var init := es[..|es| - 1];
      assert forall i :: 0 <= i < |init| - 1 ==> init[i].end == init[i + 1].start;
      TotalLengthContiguous(init);
    }
  }

  /** The exported spans add up to the audio from the first timestamp to its end. */
  lemma PlanTotalLength(timestamps: seq<Track>, audioLength: nat, outputDir: string, bitrate: string)
    requires timestamps != []
    ensures TotalLength(Plan(timestamps, audioLength, outputDir, bitrate)) == audioLength - timestamps[0].time
  {
    PlanBoundaries(timestamps, audioLength, outputDir, bitrate);
    TotalLengthContiguous(Plan(timestamps, audioLength, outputDir, bitrate));
  }

  /**
   * With strictly increasing times that all come before the audio's end, each
   * instant from the first timestamp to the end falls in exactly one segment.
   */
  lemma PlanPartition(timestamps: seq<Track>, audioLength: nat, outputDir: string, bitrate: string, x: int)
    requires forall i, j :: 0 <= i < j < |timestamps| ==> timestamps[i].time < timestamps[j].time
    requires timestamps != [] && timestamps[|timestamps| - 1].time < audioLength
    requires timestamps[0].time <= x < audioLength
    ensures var p := Plan(timestamps, audioLength, outputDir, bitrate);
      exists i :: 0 <= i < |p| && p[i].start <= x < p[i].end
    ensures var p := Plan(timestamps, audioLength, outputDir, bitrate);
      forall i, j :: 0 <= i < |p| && 0 <= j < |p| && p[i].start <= x < p[i].end && p[j].start <= x < p[j].end ==> i == j
  {
    var p := Plan(timestamps, audioLength, outputDir, bitrate);
    PlanBoundaries(timestamps, audioLength, outputDir, bitrate);
    var k := LastStartAtOrBefore(p, x);
    assert forall i, j :: 0 <= i < j < |p| ==> p[i].start <= p[j].start;
    UniqueSegment(p, x);
  }

  /** With contiguous segments and ordered starts, no instant lies in two segments. */
  lemma UniqueSegment(p: seq<Export>, x: int)
    requires forall k :: 0 <= k < |p| - 1 ==> p[k].end == p[k + 1].start
    requires forall k, l :: 0 <= k < l < |p| ==> p[k].start <= p[l].start
    ensures forall i, j :: 0 <= i < |p| && 0 <= j < |p| && p[i].start <= x < p[i].end && p[j].start <= x < p[j].end ==> i == j
  {
    forall i, j | 0 <= i < |p| && 0 <= j < |p| && p[i].start <= x < p[i].end && p[j].start <= x < p[j].end
      ensures i == j
    {
      if i < j {
        EndBeforeLaterStart(p, i, j);
      } else if j < i {
        EndBeforeLaterStart(p, j, i);
      }
    }
  }

  /** With contiguous segments and ordered starts, a segment ends before any later one starts. */
  lemma EndBeforeLaterStart(p: seq<Export>, i: nat, j: nat)
    requires i < j < |p|
    requires forall k :: 0 <= k < |p| - 1 ==> p[k].end == p[k + 1].start
    requires forall k, l :: 0 <= k < l < |p| ==> p[k].start <= p[l].start
    ensures p[i].end <= p[j].start
  {
    assert p[i].end == p[i + 1].start;
  }

  /** The last segment starting at or before `x`, which then also ends after it. */
  lemma LastStartAtOrBefore(p: seq<Export>, x: int) returns (k: nat)
    requires |p| > 0 && p[0].start <= x < p[|p| - 1].end
    requires forall i :: 0 <= i < |p| - 1 ==> p[i].end == p[i + 1].start
    ensures k < |p| && p[k].start <= x < p[k].end
  {
    k := 0;
    while k < |p| - 1 && p[k].end <= x
      invariant k < |p| && p[k].start <= x
    {
      k := k + 1;
    }
  }

  // ---------------------------------------------------------------------------
  // File names
  // ---------------------------------------------------------------------------

  /** The leading run of digits of a string. */
  function LeadingDigits(s: string): (r: string)
    ensures |r| <= |s| && r == s[..|r|] && AllDigits(r)
  {
    if s == [] || !IsDigit(s[0]) then [] else [s[0]] + LeadingDigits(s[1..])
  }

  lemma {:induction false} LeadingDigitsOf(d: string, rest: string)
    requires AllDigits(d) && rest != [] && !IsDigit(rest[0])
    ensures LeadingDigits(d + rest) == d
  {
    if d != [] {
      assert (d + rest)[1..] == d[1..] + rest;
      LeadingDigitsOf(d[1..], rest);
      assert [d[0]] + d[1..] == d;
    } else {
      assert d + rest == rest;
    }
  }

  /** Two strings that start with different digit runs, each followed by a non-digit, differ. */
  lemma DigitRunsDistinct(d1: string, r1: string, d2: string, r2: string)
    requires AllDigits(d1) && r1 != [] && !IsDigit(r1[0])
    requires AllDigits(d2) && r2 != [] && !IsDigit(r2[0])
    requires d1 != d2
    ensures d1 + r1 != d2 + r2
  {
    LeadingDigitsOf(d1, r1);
    LeadingDigitsOf(d2, r2);
  }

  /** The track number leads the file name, so different numbers give different names. */
  lemma TrackFileNamesDistinct(i: nat, j: nat, a: string, b: string)
    requires i != j
    ensures TrackFileName(i, a) != TrackFileName(j, b)
  {
    var ra := " - " + Sanitize(a) + ".mp3";
    var rb := " - " + Sanitize(b) + ".mp3";
    Regroup(Pad2(i + 1), " - ", Sanitize(a), ".mp3");
    Regroup(Pad2(j + 1), " - ", Sanitize(b), ".mp3");
    assert ra[0] == ' ' && rb[0] == ' ';
    DigitRunsDistinct(Pad2(i + 1), ra, Pad2(j + 1), rb);
  }

  /** A file name is a single path component: it holds no '/', whatever the title. */
  lemma TrackFileNameNoSlash(i: nat, title: string)
    ensures '/' !in TrackFileName(i, title)
  {
    var d, s := Pad2(i + 1), Sanitize(title);
    assert '/' !in d by {
      forall k | 0 <= k < |d|
        ensures d[k] != '/'
      {
        assert IsDigit(d[k]);
      }
    }
    assert '/' !in s by {
      SanitizeValid(title);
      forall k | 0 <= k < |s|
        ensures s[k] != '/'
      {
        assert !IsInvalid(s[k]);
      }
    }
    assert '/' !in " - " && '/' !in ".mp3";
  }

  /** The created files are pairwise distinct. */
  lemma PlanPathsDistinct(timestamps: seq<Track>, audioLength: nat, outputDir: string, bitrate: string)
    ensures var ps := Paths(Plan(timestamps, audioLength, outputDir, bitrate));
      forall i, j :: 0 <= i < j < |ps| ==> ps[i] != ps[j]
  {
    var p := Plan(timestamps, audioLength, outputDir, bitrate);
    PlanSegments(timestamps, audioLength, outputDir, bitrate);
    forall i, j | 0 <= i < j < |p|
      ensures p[i].path != p[j].path
    {
      var prefix := outputDir + "/";
      TrackFileNamesDistinct(i, j, timestamps[i].title, timestamps[j].title);
      assert p[i].path == prefix + TrackFileName(i, timestamps[i].title);
      assert p[j].path == prefix + TrackFileName(j, timestamps[j].title);
      assert p[i].path[|prefix|..] == TrackFileName(i, timestamps[i].title);
      assert p[j].path[|prefix|..] == TrackFileName(j, timestamps[j].title);
    }
  }
}
