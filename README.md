# ytd: timestamp extraction, format choice and track splitting

A Dafny model of the core of `ytd`, a command-line tool. It downloads the audio
of a YouTube video with yt-dlp, reads the track list out of the video's
description, and cuts the audio into one MP3 file per track. The model covers
these parts:

- **`time_to_ms`**: an `"M:SS"` or `"H:MM:SS"` token in milliseconds, or a ValueError.
- **`sanitize_filename`**: the nine characters not allowed in file names become `_`.
- **`extract_timestamps`**:
  - Two regular expressions run over the description: time-first (`"0:00 Title"`, `"(0:00) - Title"`) and title-first (`"Title - 0:00"`).
  - Each accepted match becomes a (time, stripped title) candidate.
  - The candidates are sorted by time with a stable sort, and the first candidate of each time is kept.
- **`get_best_audio_format`**:
  - The rows of yt-dlp's `-F` listing that say "audio only" become candidates, each with an id, a bitrate and a details string.
  - Candidates are sorted by bitrate, highest first, and the first one is chosen.
- **`split_audio_by_timestamps`**:
  - An end sentinel `(len(audio), "End")` is appended to the caller's list.
  - Segment `i` runs from time `i` to time `i + 1` and is exported as `NN - title.mp3`.
- **The argument loop of `main`**: the url, the output directory, `--no-split` and `--bitrate`.
- **`test_timestamps.py`**:
  - Its copies of `time_to_ms` and of the extractor.
  - The older time-first-only extractor `extract_timestamps_current`.
  - Its example tracklist and the two report loops that print the results.

Modules, one file each:

- `wrappers.dfy` (Wrappers): the Option type and the present values of a sequence of options.
- `text.dfy` (Text): the Python string operations the program uses: `strip`, `split(sep)`, `split()`, `splitlines`, `int()`, `str()`, `{:02d}`, `in` and `rstrip`.
- `time_parse.dfy` (TimeParse): `time_to_ms`.
- `filename.dfy` (Filename): `sanitize_filename`.
- `line_pattern.dfy` (LinePattern):
  - the two patterns as one-line matchers that reproduce the backtracking engine's choice;
  - `re.findall` as the matches of the '\n'-separated lines.
- `extractor.dfy` (Extractor): both extractors. `ExtractTimestamps` is the imperative loop, proved against the functional `Timestamps`.
- `audio_formats.dfy` (AudioFormats): the row parser and the choice of `get_best_audio_format`.
- `splitter.dfy` (Splitter):
  - the split as a method over a mutable `TrackList` and an `Exporter` that records every export;
  - the plan of exports it produces, and lemmas about that plan.
- `cli.dfy` (Cli): `main`'s argument loop, proved against a scan-and-apply specification.
- `demo.dfy` (TimestampDemo): the example tracklist and the script's report, plus tracklists of `"Title - M:SS"` rows in general.

### Behaviour of the code worth knowing

- **Codec lookup.** It looks for the word "audio" right after the word "only". In the rows that say "audio only", that pair never occurs ("only" comes after "audio"), so those rows normally get the codec "unknown". `AudioFormats.CodecUnknown` and `AudioFormats.CodecFirst` state this as written.
- **No range check.** `time_to_ms` checks no field range: "99:99" is 6039000 ms (`TimeParse.NoRangeCheck`).
- **Degenerate segments.** The times passed to the split are not checked, so an empty or backwards segment is exported as given (`Splitter.PlanBoundaries`).
- **Bare tokens.** A line holding only a token gets a title: the time-first title must be non-empty, so "1:23" is read as the token "1:2" titled "3" (`LinePattern.TimeFirstBareToken`).
- **Same matches for both extractors.** The lookahead of `extract_timestamps_current` is `(?=\n\d{1,2}:|$)`, but MULTILINE `$` already matches before every '\n'. Both extractors' time-first patterns therefore find the same matches, so one matcher serves both.

## Model

| member | source | states |
|---|---|---|
| TimeParse.TwoFields | ytd/ytd.py:40-42 | two digit fields `m:s` give `Ms(m*60000 + s*1000)` |
| TimeParse.ThreeFields | ytd/ytd.py:40-44 | three digit fields `h:m:s` give `Ms(h*3600000 + m*60000 + s*1000)` |
| TimeParse.FieldCountError | ytd/ytd.py:40-46 | any field count other than two or three (one more than the ':' count of the stripped string) is a ValueError |
| TimeParse.NoRangeCheck | test_timestamps.py:17-19 | no field range check: "99:99" is 6039000 ms |
| Text.SplitCount | ytd/ytd.py:40 | the number of pieces is the number of separators plus one |
| Text.SplitJoin | ytd/ytd.py:40 | the pieces hold no separator, and joining them restores the string |
| Text.StripInfix | ytd/ytd.py:40 | `strip()` returns the infix between leading and trailing white space, all of which is removed |
| Text.ParseIntDigits | ytd/ytd.py:42 | `int()` of a string of decimal digits is its decimal value |
| Text.Words | ytd/ytd.py:136 | `split()` yields non-empty white-space-free words that together hold exactly the non-white-space characters, in order |
| Text.WordsSeparated | ytd/ytd.py:136 | the words of `split()` are the maximal runs of non-white-space: the string is the words with runs of white space around them, a non-empty run between each two words |
| Text.SplitLines | ytd/ytd.py:130 | `splitlines()` yields lines without boundary characters, and none for an empty string |
| Text.SplitLinesUnsplit | ytd/ytd.py:130 | the string is the lines of `splitlines()`, each followed by its boundary (one boundary character, or "\r\n" taken together, never a "\r" cut from its "\n"); only the last boundary may be missing, and then the last line is non-empty |
| Text.NatToString | ytd/ytd.py:305 | `str(n)` is a canonical decimal numeral of value `n` |
| Text.Pad2 | ytd/ytd.py:305 | `{n:02d}` is at least two decimal digits of value `n`, and when longer than two it has no leading zero |
| Text.RStrip | ytd/ytd.py:147 | `rstrip('k')` removes exactly the run of 'k' at the end, and nothing else |
| Filename.Sanitize | ytd/ytd.py:59 | same length; each invalid character becomes '_' and every other character stays in place |
| Filename.SanitizeValid | ytd/ytd.py:59 | the result holds none of the nine invalid characters |
| Filename.SanitizeUnchanged | ytd/ytd.py:59 | a name without invalid characters is returned unchanged |
| Filename.SanitizeIdempotent | ytd/ytd.py:59 | sanitising twice is the same as sanitising once |
| Filename.SanitizeAppend | ytd/ytd.py:59 | sanitising acts character by character, so it commutes with concatenation |
| LinePattern.TokenEndsSpec | ytd/ytd.py:72 | the ends the engine tries for TOKEN at `p` are exactly the ends `q` for which `line[p..q]` is a token |
| LinePattern.TokenEndsDecreasing | ytd/ytd.py:72 | the greedy engine tries longer tokens before shorter ones |
| LinePattern.FirstBelowIsMax | ytd/ytd.py:72 | in a decreasing list, the first end below a bound is the largest end below it |
| LinePattern.TokenFields | ytd/ytd.py:72 | a token is its two or three fields joined by ':' |
| LinePattern.MatchTimeFirstSound | ytd/ytd.py:72 | a time-first match parses its line: optional '(', a token, optional ')' and separator group, then a non-empty title to the line end |
| LinePattern.MatchTimeFirstLongest | ytd/ytd.py:72 | the token captured is the longest one that leaves a non-empty title |
| LinePattern.MatchTimeFirstStartsWithDigit | ytd/ytd.py:72 | a line with a time-first match starts with a digit, or with '(' and a digit |
| LinePattern.TimeFirstBareToken | ytd/ytd.py:72 | the line "1:23" is read as the token "1:2" with the title "3" |
| LinePattern.MatchTitleFirstSound | ytd/ytd.py:75 | a title-first match parses its line: a non-empty title, a separator group, then a token that ends the line |
| LinePattern.MatchTitleFirstShortest | ytd/ytd.py:75 | the lazy title is the shortest one: every parse of the line into title, separator group and token has a title at least as long as the captured one |
| LinePattern.FirstStopSound | ytd/ytd.py:75 | the lazy search stops where the test first succeeds, and the test failed at every earlier end |
| LinePattern.FirstStopComplete | ytd/ytd.py:75 | if the test succeeds at `k`, the search stops at `k` or earlier |
| LinePattern.FirstStopIs | ytd/ytd.py:75 | the first end where the test succeeds is where the search stops |
| LinePattern.TitleDashToken | ytd/ytd.py:75 | "Title - TOKEN", whose title has no separator and does not end in a blank, is read as exactly that title and token |
| LinePattern.MatchLinesMember | ytd/ytd.py:78-79 | a `findall` match is the match of one line, and every line's match is found |
| LinePattern.MatchLinesEmpty | ytd/ytd.py:78-79 | `findall` finds nothing exactly when no line matches |
| LinePattern.FindAllLine | ytd/ytd.py:78-79 | the matches of a text are those of its first line, then those of the rest |
| LinePattern.FindAllSingle | ytd/ytd.py:78-79 | a one-line text has at most the match of that line |
| Extractor.TokenTime | ytd/ytd.py:84-89 | a captured token always converts, to the field formula of `time_to_ms`, so the ValueError branch is never taken on a match |
| Extractor.TokenConverts | ytd/ytd.py:92-97 | a captured token converts to a non-negative time |
| Extractor.FoundTokens | ytd/ytd.py:78-79 | every match of either pattern carries a token |
| Extractor.CandidatesAppend | ytd/ytd.py:84-97 | the candidates of two match lists in a row are those of the first, then those of the second |
| Extractor.CandidatesOfTokens | ytd/ytd.py:84-89 | when every token converts, there is one candidate per match, in match order: the converted time and the stripped title |
| Extractor.AllCandidatesOrder | ytd/ytd.py:78-97 | the candidate list holds one candidate per time-first match, then one per title-first match, each its converted token and stripped title |
| Extractor.SortByTimeSorted | ytd/ytd.py:103 | `sorted(result, key=time)` is ordered by time |
| Extractor.SortByTimePermutation | ytd/ytd.py:103 | the sorted list is a permutation of the candidates |
| Extractor.SortByTimeStable | ytd/ytd.py:103 | the sort is stable: the candidates of each time keep their order |
| Extractor.SortByTimeTimes | ytd/ytd.py:103 | sorting keeps the set of times |
| Extractor.DedupFromFirst | ytd/ytd.py:100-106 | a kept entry is an input entry whose time was not yet seen, and the first entry with that time |
| Extractor.DedupFromTimes | ytd/ytd.py:100-106 | the kept times are exactly the input's times minus those already seen |
| Extractor.DedupFromIncreasing | ytd/ytd.py:100-106 | on sorted input, the kept entries are strictly increasing in time |
| Extractor.DedupSortSpec | ytd/ytd.py:99-108 | sort then dedup on any list gives strictly increasing times, the same set of times, and the first entry of each time |
| Extractor.TimestampsSpec | ytd/ytd.py:61-108 | the output is strictly increasing, has exactly the candidates' times, and for each time keeps the first candidate (time-first before title-first) |
| Extractor.TimestampsEmpty | ytd/ytd.py:61-108 | the result is empty exactly when no line has either shape |
| Extractor.CurrentTimestampsSpec | test_timestamps.py:25-45 | the current extractor's output is sorted, is a permutation of its candidates, and has one entry per time-first match (duplicate times survive) |
| Extractor.AppendCandidates | ytd/ytd.py:84-97 | the parse loop appends exactly the candidates of the matches to `result` |
| Extractor.KeepFirstPerTime | ytd/ytd.py:100-108 | the `seen_times` loop returns exactly the deduplication of the sorted list |
| Extractor.ExtractTimestamps | ytd/ytd.py:61-108 | the imperative extractor equals `Timestamps`, whose properties `TimestampsSpec` states |
| Extractor.ExtractTimestampsCurrent | test_timestamps.py:25-45 | the current extractor returns `[]` when nothing matches, and otherwise its sorted candidates (`CurrentTimestamps`) |
| AudioFormats.LineFormatCandidate | ytd/ytd.py:134-137 | a row yields a candidate exactly when it contains "audio only" |
| AudioFormats.LineFormatFields | ytd/ytd.py:136-147 | a candidate's id is the row's first word, and its bitrate is that of the first bitrate word |
| AudioFormats.RowFormatsAt | ytd/ytd.py:134-159 | row `i`'s entry is that row's own candidate or nothing |
| AudioFormats.BitrateFirst | ytd/ytd.py:144-150 | the bitrate found is that of the first word that ends in 'k', is followed by "https" or "m3u8", and that `int()` accepts after `rstrip('k')` |
| AudioFormats.BitrateNone | ytd/ytd.py:144-150 | no bitrate is found exactly when no word qualifies |
| AudioFormats.BitrateSound | ytd/ytd.py:144-150 | a found bitrate comes from a qualifying word, and no word before it qualifies |
| AudioFormats.CodecUnknown | ytd/ytd.py:141-156 | without an "only audio" word pair followed by another word, the codec is "unknown" |
| AudioFormats.CodecFirst | ytd/ytd.py:153-156 | otherwise the codec is the word after the first such pair |
| AudioFormats.FindBitrate | ytd/ytd.py:140-150 | the bitrate loop with its `break` and its skipped ValueError computes `BitrateFrom` |
| AudioFormats.FindCodec | ytd/ytd.py:141-156 | the codec loop computes `CodecFrom` |
| AudioFormats.ParseFormatLine | ytd/ytd.py:135-159 | one pass of the row loop yields that row's candidate (`LineFormat`), with the details string of line 158 |
| AudioFormats.LineFormatsStep | ytd/ytd.py:134-159 | one more row contributes its candidate, if any, at the end |
| AudioFormats.CollectFormats | ytd/ytd.py:133-160 | the row loop collects exactly the rows' candidates, in row order |
| AudioFormats.LineFormatsMember | ytd/ytd.py:133-160 | every candidate comes from a row, and every row's candidate is collected |
| AudioFormats.LineFormatsEmpty | ytd/ytd.py:133-160 | there are no candidates exactly when no row contains "audio only" |
| AudioFormats.InsertByBitrateMembers | ytd/ytd.py:164 | insertion adds exactly the one element |
| AudioFormats.InsertByBitrateDescending | ytd/ytd.py:164 | insertion keeps the list descending |
| AudioFormats.SortByBitrateDescending | ytd/ytd.py:164 | the sorted list runs from the highest key down, counting a missing bitrate as 0 |
| AudioFormats.SortByBitratePermutation | ytd/ytd.py:164 | the sorted list is a permutation of the candidates |
| AudioFormats.SortByBitrateHead | ytd/ytd.py:164-165 | the chosen format is the first candidate with the maximal key: no candidate has a larger key, and every earlier one has a smaller key |
| AudioFormats.GetBestAudioFormat | ytd/ytd.py:127-174 | a failed process, or a listing without candidates, gives `(None, None)`; otherwise the id and details of the head of the bitrate-sorted candidates |
| Splitter.TrackList.constructor | ytd/ytd.py:261 | the list holds exactly the caller's items |
| Splitter.Exporter.constructor | ytd/ytd.py:290 | nothing is exported yet |
| Splitter.Exporter.ExportSegment | ytd/ytd.py:299-309 | one export of `audio[start:end]` to the path at the bitrate is recorded, after the earlier ones |
| Splitter.ExportTrack | ytd/ytd.py:294-310 | one loop pass names the file `dir/NN - sanitized.mp3` and records exactly one export of `[start, end)` there |
| Splitter.SplitAudioByTimestamps | ytd/ytd.py:261-314 | with no timestamps or a failed load, nothing changes and `[]` is returned; otherwise the sentinel is appended to the caller's list, the plan's exports are recorded in order, and the planned paths are returned |
| Splitter.PlanSegments | ytd/ytd.py:293-310 | one export per timestamp: export `i` goes to `dir/` plus track file name `i`, starts at entry `i`'s time and carries the bitrate |
| Splitter.PlanBoundaries | ytd/ytd.py:288-299 | each export ends where the next starts, and the last ends at the audio's length |
| Splitter.TotalLengthContiguous | ytd/ytd.py:293-299 | the lengths of contiguous spans add up to the distance from the first start to the last end |
| Splitter.PlanTotalLength | ytd/ytd.py:288-299 | the exported spans add up to the audio's length minus the first timestamp |
| Splitter.PlanPartition | ytd/ytd.py:288-299 | with strictly increasing times before the end, every instant from the first timestamp to the end lies in exactly one segment |
| Splitter.UniqueSegment | ytd/ytd.py:293-299 | with contiguous segments and ordered starts, no instant lies in two segments |
| Splitter.TrackFileNamesDistinct | ytd/ytd.py:302-306 | different track numbers give different file names, whatever the titles |
| Splitter.TrackFileNameNoSlash | ytd/ytd.py:302-306 | a track file name holds no '/', so it stays inside the output directory |
| Splitter.PlanPathsDistinct | ytd/ytd.py:293-310 | the created files are pairwise distinct |
| Cli.RunSplit | ytd/ytd.py:335-337 | the split flag survives exactly when it was set and no `--no-split` occurs |
| Cli.RunBitrate | ytd/ytd.py:338-340 | the last `--bitrate` value wins, otherwise the bitrate is unchanged |
| Cli.RunUrl | ytd/ytd.py:341-344 | a url, once set, is kept; otherwise it is the first positional argument |
| Cli.RunOutputDir | ytd/ytd.py:345-347 | the output directory is the positional argument after the url |
| Cli.ParsedSpec | ytd/ytd.py:326-351 | from the defaults: the url and the output directory are the first two positionals, the bitrate is the last `--bitrate` value (else "320k"), and splitting is on exactly when `--no-split` is absent |
| Cli.ScanPositional | ytd/ytd.py:341 | a positional argument is an argument that does not start with "--" and was not taken as a `--bitrate` value |
| Cli.TrailingBitrate | ytd/ytd.py:338-351 | a final `--bitrate` with nothing after it is skipped |
| Cli.CommandLineExample | ytd/ytd.py:318-356 | `URL out --no-split --bitrate 192k extra` downloads URL to `out`, unsplit, at 192k; `extra` is ignored |
| Cli.BitrateValueNotUrl | ytd/ytd.py:338-356 | the word after `--bitrate` is its value, so `--bitrate URL` alone exits with status 1 |
| Cli.ParseCommandLine | ytd/ytd.py:318-356 | the imperative loop, with its two exits, computes `Outcome` |
| TimestampDemo.PlainRowMatches | test_timestamps.py:91-100 | a plain `"Title - M:SS"` row is one line: the title-first pattern reads it as written, and the time-first pattern not at all |
| TimestampDemo.NotTimeFirst | test_timestamps.py:31 | a line starting with neither a digit nor '(' has no time-first match |
| TimestampDemo.TracklistMatches | test_timestamps.py:52-59 | on a tracklist of plain rows, the title-first pattern finds every row in order, and the time-first pattern finds none |
| TimestampDemo.PlainRowCandidate | test_timestamps.py:72-77 | a plain row's match becomes the candidate with the token's time and the title as written |
| TimestampDemo.TracklistTimestamps | test_timestamps.py:25-88 | on plain rows with strictly increasing times, the enhanced extractor returns exactly the rows' tracks, and the current one returns `[]` |
| TimestampDemo.MinSecTime | test_timestamps.py:106-109 | a printed `m:ss` time reads back through `time_to_ms` as the time truncated to whole seconds |
| TimestampDemo.MinSecToken | test_timestamps.py:106-109 | below 100 minutes, a printed time is a token the patterns accept |
| TimestampDemo.TokenRoundTrip | test_timestamps.py:106-109 | printing a token `M:SS` (no leading zero in M, SS below 60) gives the token back, so the format reproduces the token up to leading zeros |
| TimestampDemo.PrintedTracklist | test_timestamps.py:47-88 | printing tracks as a `"Title - M:SS"` tracklist and extracting it again gives back exactly the tracks (enhanced); the current extractor finds nothing |
| TimestampDemo.MinSecRowsDenote | test_timestamps.py:91-100 | rows written `title - m:ss` are plain, denote their tracks, and print back as written |
| TimestampDemo.MinSecTracklist | test_timestamps.py:91-122 | a tracklist of such rows with increasing times: enhanced gives exactly its tracks, current gives `[]` |
| TimestampDemo.ExampleColumns | test_timestamps.py:91-100 | the example's rows have plain titles, valid `m:ss` tokens and strictly increasing times 0 … 3419000 |
| TimestampDemo.ExampleTimestamps | test_timestamps.py:91-122 | on the example, the current extractor finds nothing, and the enhanced one finds the ten tracks |
| TimestampDemo.ExampleTimesPrintBack | test_timestamps.py:116-120 | each of the example's times prints back as the token it was read from |
| TimestampDemo.ReportLineOfRow | test_timestamps.py:109 | a report line is the number, ". " and the row that printed the track |
| TimestampDemo.ReportEchoesRows | test_timestamps.py:116-120 | each report line of printed tracks numbers one printed row |
| TimestampDemo.PrintResults | test_timestamps.py:104-111 | a report block lists the numbered tracks, or the single "found no timestamps" line |
| TimestampDemo.Demo | test_timestamps.py:102-122 | the script's printed lines are `Output` of the two extractors' results on the example |
| TimestampDemo.OutputNoCurrent | test_timestamps.py:102-113 | with nothing from the current extractor, its block is the one "Current function found no timestamps" line |
| TimestampDemo.ExampleReportLines | test_timestamps.py:113-120 | the enhanced block numbers the example's ten rows exactly as written |
| TimestampDemo.ExampleOutput | test_timestamps.py:102-122 | the script prints the current heading, "Current function found no timestamps", the enhanced heading, then the ten numbered rows |

## Left out

- The yt-dlp availability check at module load (`ytd/ytd.py:25-28`) is left out: it inspects the file system and exits.
- `get_best_audio_format`: running yt-dlp is left out. Its standard output is a parameter, and `None` stands for a CalledProcessError. The progress prints are left out.
- `download_audio_with_info` (`ytd/ytd.py:176-259`) is not part of this model: it only drives yt-dlp and reads its JSON.
- `split_audio_by_timestamps`:
  - pydub's loading is replaced by the audio's length, or `None` when loading fails;
  - `segment.export` is recorded by the `Exporter` class rather than encoding audio;
  - `mkdir` is left out;
  - `Path` joining is modelled as `dir + "/" + name`;
  - the "Created:" prints are left out.
- `main` after the argument loop is left out, as are the usage and error messages. Its exit status is modelled as `Exit(1)`.
- Regular expressions are not run by a general engine. Each pattern is written out as the one-line matcher that the backtracking engine's first success amounts to, so a pattern's other possible parses are not modelled. `MatchTimeFirstLongest` and `MatchTitleFirstShortest` state which parse is chosen.
- `int()` is modelled for ASCII digits, an optional sign, surrounding white space and single underscores. Other Unicode decimal digits are not accepted.
- LinePattern.IsField: `\d` in both timestamp patterns is modelled, like `Text.IsDigit`, as the ASCII digits `0`-`9` only. Python's `re` without `re.ASCII` also matches every other Unicode decimal digit, so a description written with, say, Arabic-Indic digits yields timestamps in the program and none in the model.
- Python's `sorted` and `list.sort` are modelled as stable insertion sorts: the same result, not the same algorithm.
- The demo's `print` calls are modelled as the returned list of lines.
- `debug_path.py` is not part of this model.
