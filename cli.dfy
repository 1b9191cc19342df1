/**
 * The argument loop of `main`: `argv` (program name first) is scanned left to
 * right into a url, an optional output directory, the split flag and the MP3
 * bitrate; with fewer than two arguments, or with no url, the program exits
 * with status 1.
 */
module Cli {
  import opened Wrappers

  /** What the scan sees at one position, with the arguments it consumes. */
  datatype Arg = NoSplit | Bitrate(value: string) | Positional(arg: string) | Skipped(arg: string)

  /** The variables the loop updates. */
  datatype Settings = Settings(url: Option<string>, outputDir: Option<string>, splitTracks: bool, bitrate: string)

  datatype Invocation = Exit(status: int) | Download(url: string, outputDir: Option<string>, splitTracks: bool, bitrate: string)

  const Defaults := Settings(None, None, true, "320k")

  predicate IsOption(arg: string)
  {
    |arg| >= 2 && arg[0] == '-' && arg[1] == '-'
  }

  /** The arguments from position `i` on, as the loop reads them: `--bitrate` takes the next one when there is one. */
  function Scan(argv: seq<string>, i: nat): (r: seq<Arg>)
    requires i <= |argv|
    ensures |r| <= |argv| - i
    decreases |argv| - i
  {
    if i == |argv| then []
    else if argv[i] == "--no-split" then [NoSplit] + Scan(argv, i + 1)
    else if argv[i] == "--bitrate" && i + 1 < |argv| then [Bitrate(argv[i + 1])] + Scan(argv, i + 2)
    else if !IsOption(argv[i]) then [Positional(argv[i])] + Scan(argv, i + 1)
    else [Skipped(argv[i])] + Scan(argv, i + 1)
  }

  /** The effect of one scanned argument on the settings. */
  function Apply(s: Settings, a: Arg): Settings
  {
    match a
    case NoSplit => s.(splitTracks := false)
    case Bitrate(v) => s.(bitrate := v)
    case Positional(arg) =>
      if s.url.None? then s.(url := Some(arg))
      else if s.outputDir.None? then s.(outputDir := Some(arg))
      else s
    case Skipped(_) => s
  }

  function Run(s: Settings, args: seq<Arg>): Settings
    decreases |args|
  {
    if args == [] then s else Run(Apply(s, args[0]), args[1..])
  }

  /** The settings after the whole loop. */
  function Parsed(argv: seq<string>): Settings
    requires |argv| >= 1
  {
    Run(Defaults, Scan(argv, 1))
  }

  /** The outcome of `main` up to the download call. */
  function Outcome(argv: seq<string>): Invocation
  {
    if |argv| < 2 then Exit(1)
    else
      var s := Parsed(argv);
      if s.url.None? then Exit(1) else Download(s.url.value, s.outputDir, s.splitTracks, s.bitrate)
  }

  function Positionals(args: seq<Arg>): (r: seq<string>)
    ensures |r| <= |args|
  {
    if args == [] then []
    else if args[0].Positional? then [args[0].arg] + Positionals(args[1..])
    else Positionals(args[1..])
  }

  function BitrateValues(args: seq<Arg>): (r: seq<string>)
    ensures |r| <= |args|
  {
    if args == [] then []
    else if args[0].Bitrate? then [args[0].value] + BitrateValues(args[1..])
    else BitrateValues(args[1..])
  }

  /** `--no-split` anywhere clears the flag for good. */
  lemma {:induction false} RunSplit(s: Settings, args: seq<Arg>)
    ensures Run(s, args).splitTracks <==> s.splitTracks && NoSplit !in args
    decreases |args|
  {
    if args != [] {
      RunSplit(Apply(s, args[0]), args[1..]);
      assert args == [args[0]] + args[1..];
    }
  }

  /** The last `--bitrate` value wins. */
  lemma {:induction false} RunBitrate(s: Settings, args: seq<Arg>)
    ensures var b := BitrateValues(args); Run(s, args).bitrate == if b == [] then s.bitrate else b[|b| - 1]
    decreases |args|
  {
    if args != [] {
      RunBitrate(Apply(s, args[0]), args[1..]);
    }
  }

  /** The url is kept once set; otherwise it is the first positional argument. */
  lemma {:induction false} RunUrl(s: Settings, args: seq<Arg>)
    ensures var p := Positionals(args);
      Run(s, args).url == if s.url.Some? then s.url else if p == [] then None else Some(p[0])
    decreases |args|
  {
    if args != [] {
      RunUrl(Apply(s, args[0]), args[1..]);
    }
  }

  /** The output directory is the positional argument that comes after the url. */
  lemma {:induction false} RunOutputDir(s: Settings, args: seq<Arg>)
    requires s.url.None? ==> s.outputDir.None?
    ensures var p := Positionals(args);
      Run(s, args).outputDir ==
        if s.outputDir.Some? then s.outputDir
        else if s.url.Some? then (if p == [] then None else Some(p[0]))
        else if |p| < 2 then None else Some(p[1])
    decreases |args|
  {
    if args != [] {
      RunOutputDir(Apply(s, args[0]), args[1..]);
    }
  }

  /**
   * From the defaults: the first two positional arguments are the url and the
   * output directory, the last `--bitrate` value (else "320k") is the bitrate,
   * and tracks are split unless `--no-split` was given.
   */
  lemma ParsedSpec(argv: seq<string>)
    requires |argv| >= 1
    ensures var args := Scan(argv, 1); var p := Positionals(args); var b := BitrateValues(args);
      var s := Parsed(argv);
      && s.url == (if p == [] then None else Some(p[0]))
      && s.outputDir == (if |p| < 2 then None else Some(p[1]))
      && s.bitrate == (if b == [] then "320k" else b[|b| - 1])
      && (s.splitTracks <==> NoSplit !in args)
  {
    var args := Scan(argv, 1);
    RunUrl(Defaults, args);
    RunOutputDir(Defaults, args);
    RunBitrate(Defaults, args);
    RunSplit(Defaults, args);
  }

  /** Only arguments not starting with "--", and not taken as a `--bitrate` value, are positional. */
  lemma {:induction false} ScanPositional(argv: seq<string>, i: nat, a: string)
    requires i <= |argv|
    ensures a in Positionals(Scan(argv, i)) ==> a in argv[i..] && !IsOption(a)
    decreases |argv| - i
  {
    if i < |argv| {
      if argv[i] == "--bitrate" && i + 1 < |argv| {
        ScanPositional(argv, i + 2, a);
        assert argv[i + 2..] == argv[i..][2..];
      } else {
        ScanPositional(argv, i + 1, a);
        assert argv[i + 1..] == argv[i..][1..];
      }
    }
  }

  /** A `--bitrate` with no argument after it changes nothing. */
  lemma TrailingBitrate(argv: seq<string>)
    requires |argv| >= 1
    ensures Scan(argv + ["--bitrate"], |argv|) == [Skipped("--bitrate")]
  {
    var a := argv + ["--bitrate"];
    assert a[|argv|] == "--bitrate";
    assert "--bitrate"[2] != "--no-split"[2];
    assert Scan(a, |argv| + 1) == [];
  }

  /** A full command line: url, output directory, both options, and a third positional argument that is ignored. */
  lemma CommandLineExample()
    ensures Outcome(["ytd.py", "URL", "out", "--no-split", "--bitrate", "192k", "extra"])
         == Download("URL", Some("out"), false, "192k")
  {
    var argv := ["ytd.py", "URL", "out", "--no-split", "--bitrate", "192k", "extra"];
    assert !IsOption("URL") && !IsOption("out") && !IsOption("extra");
    assert Scan(argv, 1) == [Positional("URL"), Positional("out"), NoSplit, Bitrate("192k"), Positional("extra")];
  }

  /** The word after `--bitrate` is its value even when it looks like a url, so there is no url. */
  lemma BitrateValueNotUrl()
    ensures Outcome(["ytd.py", "--bitrate", "URL"]) == Exit(1)
  {
    var argv := ["ytd.py", "--bitrate", "URL"];
    assert Scan(argv, 1) == [Bitrate("URL")];
  }

  /** `main`'s checks and its argument loop. */
  method ParseCommandLine(argv: seq<string>) returns (outcome: Invocation)
    ensures outcome == Outcome(argv)
  {
    if |argv| < 2 {
      return Exit(1);
    }
    var url: Option<string> := None;
    var outputDir: Option<string> := None;
    var splitTracks := true;
    var bitrate := "320k";
    var i := 1;
    while i < |argv|
      invariant 1 <= i <= |argv|
      invariant Run(Settings(url, outputDir, splitTracks, bitrate), Scan(argv, i)) == Parsed(argv)
      decreases |argv| - i
    {
      var arg := argv[i];
      if arg == "--no-split" {
        splitTracks := false;
        i := i + 1;
      } else if arg == "--bitrate" && i + 1 < |argv| {
        bitrate := argv[i + 1];
        i := i + 2;
      } else if !IsOption(arg) {
        if url.None? {
          url := Some(arg);
          i := i + 1;
        } else if outputDir.None? {
          outputDir := Some(arg);
          i := i + 1;
        } else {
          i := i + 1;
        }
      } else {
        i := i + 1;
      }
    }
    if url.None? {
      return Exit(1);
    }
    return Download(url.value, outputDir, splitTracks, bitrate);
  }
}
