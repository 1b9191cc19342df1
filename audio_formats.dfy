/**
 * The line parser of `get_best_audio_format`: the rows of yt-dlp's `-F`
 * listing that say "audio only" become candidate formats (id, bitrate and a
 * details string), and the candidate with the highest bitrate is chosen, a
 * missing bitrate counting as 0 and ties going to the row listed first.
 * The listing is a parameter; `None` stands for the failed process.
 */
module AudioFormats {
  import opened Wrappers
  import opened Text

  datatype AudioFormat = AudioFormat(id: string, bitrate: Option<int>, details: string)

  /** Word `i` is a `k`-suffixed integer followed by the word "https" or "m3u8". */
  predicate IsBitrateAt(parts: seq<string>, i: nat)
    requires i < |parts|
  {
    EndsWith(parts[i], 'k') && i + 1 < |parts| && (parts[i + 1] == "https" || parts[i + 1] == "m3u8")
    && ParseInt(RStrip(parts[i], 'k')).Some?
  }

  /** The bitrate of the first bitrate word at or after `i`. */
  function BitrateFrom(parts: seq<string>, i: nat): Option<int>
    requires i <= |parts|
    decreases |parts| - i
  {
    if i == |parts| then None
    else if IsBitrateAt(parts, i) then ParseInt(RStrip(parts[i], 'k'))
    else BitrateFrom(parts, i + 1)
  }

  /** Word `i` is "audio", right after the word "only" and followed by another word. */
  predicate IsCodecAt(parts: seq<string>, i: nat)
    requires i < |parts|
  {
    parts[i] == "audio" && i >= 1 && parts[i - 1] == "only" && i + 1 < |parts|
  }

  /** The word after the first codec marker at or after `i`, or "unknown". */
  function CodecFrom(parts: seq<string>, i: nat): string
    requires i <= |parts|
    decreases |parts| - i
  {
    if i == |parts| then "unknown"
    else if IsCodecAt(parts, i) then parts[i + 1]
    else CodecFrom(parts, i + 1)
  }

  /** `{bitrate}` in an f-string: the integer, or "None". */
  function BitrateText(bitrate: Option<int>): string
  {
    if bitrate.Some? then IntToString(bitrate.value) else "None"
  }

  function Details(id: string, ext: string, codec: string, bitrate: Option<int>): string
  {
    id + " - " + ext + " - " + codec + " - " + BitrateText(bitrate) + "k"
  }

  /** The candidate a row yields, if it yields one. */
  function LineFormat(line: string): Option<AudioFormat>
  {
    if !Contains(line, "audio only") then None
    else
      var parts := Words(line);
      if |parts| >= 1 then
        var ext := if |parts| > 1 then parts[1] else "unknown";
        var bitrate := BitrateFrom(parts, 0);
        Some(AudioFormat(parts[0], bitrate, Details(parts[0], ext, CodecFrom(parts, 0), bitrate)))
      else None
  }

  /** Each row's candidate or its absence, row by row. */
  function RowFormats(lines: seq<string>): (os: seq<Option<AudioFormat>>)
    ensures |os| == |lines|
  {
    if lines == [] then [] else RowFormats(lines[..|lines| - 1]) + [LineFormat(lines[|lines| - 1])]
  }

  lemma {:induction false} RowFormatsAt(lines: seq<string>, i: nat)
    requires i < |lines|
    ensures RowFormats(lines)[i] == LineFormat(lines[i])
  {
    if i < |lines| - 1 {
      RowFormatsAt(lines[..|lines| - 1], i);
    }
  }

  /** The candidates of the rows, in row order. */
  function LineFormats(lines: seq<string>): seq<AudioFormat>
  {
    Present(RowFormats(lines))
  }

  /** The sort key: the bitrate, 0 when it is missing. */
  function Key(f: AudioFormat): int
  {
    if f.bitrate.Some? then f.bitrate.value else 0
  }

  /** Insertion in front of the first entry whose key is not larger: equal keys keep their order. */
  function InsertByBitrate(f: AudioFormat, s: seq<AudioFormat>): (r: seq<AudioFormat>)
    ensures |r| == |s| + 1
  {
    if s == [] || Key(f) >= Key(s[0]) then [f] + s else [s[0]] + InsertByBitrate(f, s[1..])
  }

  /** `list.sort(key=..., reverse=True)`: stable, highest key first. */
  function SortByBitrate(s: seq<AudioFormat>): (r: seq<AudioFormat>)
    ensures |r| == |s|
  {
    if s == [] then [] else InsertByBitrate(s[0], SortByBitrate(s[1..]))
  }

  predicate Descending(s: seq<AudioFormat>)
  {
    forall i, j :: 0 <= i < j < |s| ==> Key(s[i]) >= Key(s[j])
  }

  /** A row yields a candidate exactly when it contains "audio only". */
  lemma LineFormatCandidate(line: string)
    ensures LineFormat(line).Some? <==> Contains(line, "audio only")
  {
    if Contains(line, "audio only") {
      var i := ContainsWhere(line, "audio only");
      assert line[i] == "audio only"[0] == 'a';
      WordsOfNonSpace(line, i);
    }
  }

  /** A candidate's id is the row's first word and its bitrate is that of the first bitrate word. */
  lemma LineFormatFields(line: string)
    requires Contains(line, "audio only")
    ensures LineFormat(line).Some? && Words(line) != []
    ensures LineFormat(line).value.id == Words(line)[0]
    ensures LineFormat(line).value.bitrate == BitrateFrom(Words(line), 0)
  {
    LineFormatCandidate(line);
  }

  /** The bitrate found is that of the first bitrate word. */
  lemma {:induction false} BitrateFirst(parts: seq<string>, k: nat, i: nat)
    requires k <= i < |parts| && IsBitrateAt(parts, i)
    requires forall j :: k <= j < i ==> !IsBitrateAt(parts, j)
    ensures BitrateFrom(parts, k) == ParseInt(RStrip(parts[i], 'k'))
    decreases i - k
  {
    if k < i {
      BitrateFirst(parts, k + 1, i);
    }
  }

  /** No bitrate is found exactly when no word is a bitrate word. */
  lemma {:induction false} BitrateNone(parts: seq<string>, k: nat)
    requires k <= |parts|
    ensures BitrateFrom(parts, k).None? <==> forall j :: k <= j < |parts| ==> !IsBitrateAt(parts, j)
    decreases |parts| - k
  {
    if k < |parts| {
      BitrateNone(parts, k + 1);
    }
  }

  /** A found bitrate comes from a bitrate word with none before it. */
  lemma {:induction false} BitrateSound(parts: seq<string>, k: nat) returns (i: nat)
    requires k <= |parts| && BitrateFrom(parts, k).Some?
    ensures k <= i < |parts| && IsBitrateAt(parts, i)
    ensures BitrateFrom(parts, k) == ParseInt(RStrip(parts[i], 'k'))
    ensures forall j :: k <= j < i ==> !IsBitrateAt(parts, j)
    decreases |parts| - k
  {
    if IsBitrateAt(parts, k) {
      i := k;
    } else {
      i := BitrateSound(parts, k + 1);
    }
  }

  /** With no "only audio" pair the codec is "unknown". */
  lemma {:induction false} CodecUnknown(parts: seq<string>, k: nat)
    requires k <= |parts|
    requires forall j :: k <= j < |parts| ==> !IsCodecAt(parts, j)
    ensures CodecFrom(parts, k) == "unknown"
    decreases |parts| - k
  {
    if k < |parts| {
      CodecUnknown(parts, k + 1);
    }
  }

  /** Otherwise it is the word after the first such pair. */
  lemma {:induction false} CodecFirst(parts: seq<string>, k: nat, i: nat)
    requires k <= i < |parts| && IsCodecAt(parts, i)
    requires forall j :: k <= j < i ==> !IsCodecAt(parts, j)
    ensures CodecFrom(parts, k) == parts[i + 1]
    decreases i - k
  {
    if k < i {
      CodecFirst(parts, k + 1, i);
    }
  }

  /** Every candidate comes from a row, and every row's candidate is kept. */
  lemma LineFormatsMember(lines: seq<string>, f: AudioFormat)
    ensures f in LineFormats(lines) <==> exists i :: 0 <= i < |lines| && LineFormat(lines[i]) == Some(f)
  {
    var os := RowFormats(lines);
    PresentMember(os, f);
    if f in LineFormats(lines) {
      var i :| 0 <= i < |os| && os[i] == Some(f);
      RowFormatsAt(lines, i);
    }
    if exists i :: 0 <= i < |lines| && LineFormat(lines[i]) == Some(f) {
      var i :| 0 <= i < |lines| && LineFormat(lines[i]) == Some(f);
      RowFormatsAt(lines, i);
    }
  }

  /** No candidate at all exactly when no row contains "audio only". */
  lemma LineFormatsEmpty(lines: seq<string>)
    ensures LineFormats(lines) == [] <==> forall i :: 0 <= i < |lines| ==> !Contains(lines[i], "audio only")
  {
    var os := RowFormats(lines);
    PresentEmpty(os);
    forall i | 0 <= i < |lines|
      ensures os[i].None? <==> !Contains(lines[i], "audio only")
    {
      RowFormatsAt(lines, i);
      LineFormatCandidate(lines[i]);
    }
  }

  lemma {:induction false} InsertByBitrateMembers(f: AudioFormat, s: seq<AudioFormat>)
    ensures multiset(InsertByBitrate(f, s)) == multiset(s) + multiset{f}
  {
    if s != [] && Key(f) < Key(s[0]) {
      InsertByBitrateMembers(f, s[1..]);
      assert s == [s[0]] + s[1..];
    }
  }

  lemma {:induction false} InsertByBitrateDescending(f: AudioFormat, s: seq<AudioFormat>)
    requires Descending(s)
    ensures Descending(InsertByBitrate(f, s))
  {
    if s != [] && Key(f) < Key(s[0]) {
      InsertByBitrateDescending(f, s[1..]);
      InsertByBitrateMembers(f, s[1..]);
      var r := InsertByBitrate(f, s[1..]);
      forall j | 0 <= j < |r|
        ensures Key(s[0]) >= Key(r[j])
      {
        assert r[j] in multiset(r);
        if r[j] != f {
          assert r[j] in s[1..];
        }
      }
    }
  }

  /** The sorted list runs from the highest bitrate down. */
  lemma {:induction false} SortByBitrateDescending(s: seq<AudioFormat>)
    ensures Descending(SortByBitrate(s))
  {
    if s != [] {
      SortByBitrateDescending(s[1..]);
      InsertByBitrateDescending(s[0], SortByBitrate(s[1..]));
    }
  }

  /** The sorted list is a permutation of the candidates. */
  lemma {:induction false} SortByBitratePermutation(s: seq<AudioFormat>)
    ensures multiset(SortByBitrate(s)) == multiset(s)
  {
    if s != [] {
      SortByBitratePermutation(s[1..]);
      InsertByBitrateMembers(s[0], SortByBitrate(s[1..]));
      assert s == [s[0]] + s[1..];
    }
  }

  /**
   * The head of the sorted list is the first candidate of maximal key: no
   * candidate has a larger key and every candidate before it a smaller one.
   */
  lemma {:induction false} SortByBitrateHead(s: seq<AudioFormat>) returns (b: nat)
    requires s != []
    ensures b < |s| && SortByBitrate(s)[0] == s[b]
    ensures forall j :: 0 <= j < |s| ==> Key(s[j]) <= Key(s[b])
    ensures forall j :: 0 <= j < b ==> Key(s[j]) < Key(s[b])
  {
    if |s| == 1 {
      b := 0;
    } else {
      var t := SortByBitrate(s[1..]);
      var b' := SortByBitrateHead(s[1..]);
      assert t[0] == s[1 + b'];
      if Key(s[0]) >= Key(t[0]) {
        b := 0;
        forall j | 1 <= j < |s|
          ensures Key(s[j]) <= Key(s[0])
        {
          assert s[j] == s[1..][j - 1];
        }
      } else {
        b := 1 + b';
        forall j | 1 <= j < |s|
          ensures Key(s[j]) <= Key(s[b]) && (j < b ==> Key(s[j]) < Key(s[b]))
        {
          assert s[j] == s[1..][j - 1];
        }
      }
    }
  }

  /** The bitrate loop: the first `k`-suffixed word before "https" or "m3u8" that `int()` accepts. */
  method FindBitrate(parts: seq<string>) returns (bitrate: Option<int>)
    ensures bitrate == BitrateFrom(parts, 0)
  {
    bitrate := None;
    var i := 0;
    while i < |parts|
      invariant 0 <= i <= |parts|
      invariant BitrateFrom(parts, i) == BitrateFrom(parts, 0)
    {
      var part := parts[i];
      if EndsWith(part, 'k') && i + 1 < |parts| && (parts[i + 1] == "https" || parts[i + 1] == "m3u8") {
        var value := ParseInt(RStrip(part, 'k'));
        if value.Some? {
          bitrate := value;
          break;
        }
      }
      i := i + 1;
    }
  }

  /** The codec loop: the word after the first "audio" that follows "only". */
  method FindCodec(parts: seq<string>) returns (codec: string)
    ensures codec == CodecFrom(parts, 0)
  {
    codec := "unknown";
    var i := 0;
    while i < |parts|
      invariant 0 <= i <= |parts|
      invariant CodecFrom(parts, i) == CodecFrom(parts, 0)
    {
      if parts[i] == "audio" && i - 1 >= 0 && parts[i - 1] == "only" && i + 1 < |parts| {
        codec := parts[i + 1];
        break;
      }
      i := i + 1;
    }
  }

  /** The body of `for line in lines:` for one row. */
  method ParseFormatLine(line: string) returns (format: Option<AudioFormat>)
    ensures format == LineFormat(line)
  {
    if !Contains(line, "audio only") {
      return None;
    }
    var parts := Words(line);
    if |parts| >= 1 {
      var formatId := parts[0];
      var formatExt := if |parts| > 1 then parts[1] else "unknown";
      var bitrate := FindBitrate(parts);
      var codec := FindCodec(parts);
      var formatDetails := Details(formatId, formatExt, codec, bitrate);
      format := Some(AudioFormat(formatId, bitrate, formatDetails));
    } else {
      format := None;
    }
  }

  /** The candidates of the first `i + 1` rows: those of the first `i`, then row `i`'s if it has one. */
  lemma LineFormatsStep(lines: seq<string>, i: nat)
    requires i < |lines|
    ensures LineFormats(lines[..i + 1]) == LineFormats(lines[..i]) + Present([LineFormat(lines[i])])
  {
    assert lines[..i + 1][..i] == lines[..i];
    assert RowFormats(lines[..i + 1]) == RowFormats(lines[..i]) + [LineFormat(lines[i])];
    PresentAppend(RowFormats(lines[..i]), [LineFormat(lines[i])]);
  }

  /** The `for line in lines:` loop: it collects exactly the rows' candidates, in row order. */
  method CollectFormats(lines: seq<string>) returns (audioFormats: seq<AudioFormat>)
    ensures audioFormats == LineFormats(lines)
  {
    audioFormats := [];
    for i := 0 to |lines|
      invariant audioFormats == LineFormats(lines[..i])
    {
      var format := ParseFormatLine(lines[i]);
      LineFormatsStep(lines, i);
      if format.Some? {
        audioFormats := audioFormats + [format.value];
      }
    }
    assert lines[..|lines|] == lines;
  }

  /**
   * `get_best_audio_format` from the listing on: collect the candidates row by
   * row, sort them by bitrate and answer the id and details of the first.
   */
  method GetBestAudioFormat(stdout: Option<string>) returns (formatId: Option<string>, formatDetails: Option<string>)
    ensures stdout.None? || LineFormats(SplitLines(stdout.value)) == [] ==> formatId.None? && formatDetails.None?
    ensures stdout.Some? && LineFormats(SplitLines(stdout.value)) != [] ==>
      formatId == Some(SortByBitrate(LineFormats(SplitLines(stdout.value)))[0].id) &&
      formatDetails == Some(SortByBitrate(LineFormats(SplitLines(stdout.value)))[0].details)
  {
    if stdout.None? {
      return None, None;
    }
    var lines := SplitLines(stdout.value);
    var audioFormats := CollectFormats(lines);
    if audioFormats != [] {
      audioFormats := SortByBitrate(audioFormats);
      var bestFormat := audioFormats[0];
      return Some(bestFormat.id), Some(bestFormat.details);
    }
    return None, None;
  }
}
