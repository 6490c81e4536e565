/** The command line of `webcapture`: the six options `main` registers, and
    how the parsed options become the parameters of a capture.  Qt's number
    parsing is an abstract oracle: a string either reads as an `int` or is
    malformed, and a malformed one reads as 0. */
module Cli {
  import opened OptParse
  import opened UrlGuess
  import opened Capture

  const Usage := "webcapture 1.0, Captures images of web pages.\nUsage: webcapture [OPTIONS] URL\n"

  const ZoomOption := Option("-z", "--zoom-factor", "zoom", "the percentage factor to zoom the page by")
  const ScaleOption := Option("-s", "--scale-factor", "scale", "the percentage factor to scale the final image by")
  const OutputOption := Option("-o", "--output", "output", "the output filepath to save to (MUST have an extension e.g. .png)")
  const WidthOption := Option("-w", "--width", "width", "width of the viewport")
  const HeightOption := Option("-h", "--height", "height", "height of the viewport")
  const PauseOption := Option("-p", "--pause", "pause", "pause for X seconds before taking the screenshot (allows javascript etc to kick in)")

  /** The options as the parser holds them once `main` has registered them:
      the last registered first, the built-in help option last. */
  const MainOptions: seq<Option> :=
    [PauseOption, HeightOption, WidthOption, OutputOption, ScaleOption, ZoomOption, HelpOption]

  /** The list is what six registrations build, each putting its option in
      front of the list built so far. */
  lemma MainOptionsRegistered()
    ensures MainOptions
         == [PauseOption] + ([HeightOption] + ([WidthOption] + ([OutputOption] + ([ScaleOption] + ([ZoomOption] + [HelpOption])))))
  {
  }

  /** The defaults `main` registers. */
  const MainDefaults: map<string, string> :=
    map["zoom" := "100", "scale" := "100", "output" := "image.png", "width" := "0", "height" := "0", "pause" := "0"]

  /** What `QString::toInt` makes of a string. */
  datatype Number = Number(value: Int32) | Malformed

  /** The integer a string reads as: 0 when it is malformed. */
  function ToInt(toInt: string -> Number, s: string): (n: Int32)
    ensures toInt(s).Malformed? ==> n == 0
    ensures toInt(s).Number? ==> n == toInt(s).value
  {
    match toInt(s)
    case Number(v) => v
    case Malformed => 0
  }

  /** `qMax(10, n)`. */
  function AtLeast10(n: Int32): (r: Int32)
    ensures r >= 10 && r >= n
    ensures r == n || r == 10
  {
    if n < 10 then 10 else n
  }

  /** `options[key]` on the dictionary: "" for a missing key. */
  function Lookup(options: map<string, string>, key: string): (v: string)
    ensures key in options ==> v == options[key]
    ensures key !in options ==> v == ""
  {
    if key in options then options[key] else ""
  }

  /** The parameters `main` passes to `WebCapture::load`. */
  datatype Request = Request(url: Url, zoom: Int32, scale: Int32, fileName: string,
                             width: Int32, height: Int32, pause: Int32)

  /** How `main` ends: an exit status, or a capture started with a request. */
  datatype Invocation = Exit(code: int) | Start(request: Request)

  /** What `main` does with a finished parse: the help and error outcomes
      exit with 0 and 1; with no positional argument the help message is
      shown (exit 0); otherwise the first argument is the URL, zoom and scale
      are raised to at least 10, and width, height and pause are taken as
      they read. */
  function Decide(p: Parse, toInt: string -> Number, isValid: string -> bool,
                  fileExists: string -> bool): (inv: Invocation)
    requires p.outcome != MissingValue
    ensures inv.Exit? ==> inv.code == 0 || inv.code == 1
    ensures inv.Start? ==>
      && p.outcome == Continue && |p.arguments| > 0
      && inv.request.zoom >= 10 && inv.request.scale >= 10
  {
    if p.outcome != Continue then Exit(ExitStatus(p.outcome))
    else if |p.arguments| == 0 then Exit(ExitStatus(Help))
    else
      Start(Request(GuessUrl(p.arguments[0], isValid, fileExists),
                    AtLeast10(ToInt(toInt, Lookup(p.options, "zoom"))),
                    AtLeast10(ToInt(toInt, Lookup(p.options, "scale"))),
                    Lookup(p.options, "output"),
                    ToInt(toInt, Lookup(p.options, "width")),
                    ToInt(toInt, Lookup(p.options, "height")),
                    ToInt(toInt, Lookup(p.options, "pause"))))
  }

  /** The parse `main` runs on `argv`. */
  function MainParse(argv: seq<string>): Parse {
    Scan(MainOptions, Tokens(argv), MainDefaults, [])
  }

  /** The parser `main` builds: the usage message and the six options with
      their defaults. */
  method NewMainParser() returns (opts: OptionParser)
    ensures fresh(opts) && opts.Valid()
    ensures opts.opts == MainOptions && opts.options == MainDefaults && opts.arguments == []
    ensures opts.useMsg == Usage && opts.helpMsgShowOpts
  {
    opts := new OptionParser(Usage);
    opts.AddOption("-z", "--zoom-factor", "zoom", ZoomOption.help, "100");
    opts.AddOption("-s", "--scale-factor", "scale", ScaleOption.help, "100");
    opts.AddOption("-o", "--output", "output", OutputOption.help, "image.png");
    opts.AddOption("-w", "--width", "width", WidthOption.help, "0");
    opts.AddOption("-h", "--height", "height", HeightOption.help, "0");
    opts.AddOption("-p", "--pause", "pause", PauseOption.help, "0");
    MainOptionsRegistered();
  }

  /** `main` up to the start of the event loop: registers the six options,
      parses `argv` and decides. */
  method RunMain(argv: seq<string>, toInt: string -> Number, isValid: string -> bool,
                 fileExists: string -> bool) returns (inv: Invocation)
    requires MainParse(argv).outcome != MissingValue
    ensures inv == Decide(MainParse(argv), toInt, isValid, fileExists)
  {
    var opts := NewMainParser();
    var outcome := opts.ParseArgs(argv);
    inv := Decide(Parse(outcome, opts.options, opts.arguments), toInt, isValid, fileExists);
  }

  /** The end of `main`: a new controller loads the request. */
  method Launch(r: Request) returns (capture: WebCapture)
    ensures fresh(capture)
    ensures capture.State() == LoadSpec(Initial, r.url, r.zoom, r.scale, r.fileName, r.width, r.height, r.pause)
  {
    capture := new WebCapture();
    capture.Load(r.url, r.zoom, r.scale, r.fileName, r.width, r.height, r.pause);
  }

  /** `main` exits with 1 exactly on an unknown flag and with 0 exactly on
      the help flag or a missing URL; otherwise it starts a capture. */
  lemma ExitCodes(p: Parse, toInt: string -> Number, isValid: string -> bool, fileExists: string -> bool)
    requires p.outcome != MissingValue
    ensures var inv := Decide(p, toInt, isValid, fileExists);
      && (inv == Exit(1) <==> p.outcome == Invalid)
      && (inv == Exit(0) <==> p.outcome == Help || (p.outcome == Continue && p.arguments == []))
      && (inv.Start? <==> p.outcome == Continue && p.arguments != [])
  {
  }

  /** Zoom and scale are never below 10: a malformed value, read as 0, and
      any value below 10 become 10, and a value of 10 or more is kept.  The
      output path is passed on as stored; width, height and pause as they
      read, even when negative. */
  lemma ZoomAndScaleClamped(p: Parse, toInt: string -> Number, isValid: string -> bool,
                            fileExists: string -> bool)
    requires p.outcome == Continue && |p.arguments| > 0
    ensures var inv := Decide(p, toInt, isValid, fileExists);
      && inv.Start?
      && inv.request.url == GuessUrl(p.arguments[0], isValid, fileExists)
      && inv.request.zoom >= 10 && inv.request.scale >= 10
      && (toInt(Lookup(p.options, "zoom")).Malformed? ==> inv.request.zoom == 10)
      && (toInt(Lookup(p.options, "scale")).Malformed? ==> inv.request.scale == 10)
      && (toInt(Lookup(p.options, "zoom")) == Number(inv.request.zoom) <==>
            toInt(Lookup(p.options, "zoom")).Number? && toInt(Lookup(p.options, "zoom")).value >= 10)
      && (toInt(Lookup(p.options, "scale")) == Number(inv.request.scale) <==>
            toInt(Lookup(p.options, "scale")).Number? && toInt(Lookup(p.options, "scale")).value >= 10)
      && inv.request.fileName == Lookup(p.options, "output")
      && (toInt(Lookup(p.options, "width")).Number? ==> inv.request.width == toInt(Lookup(p.options, "width")).value)
      && (toInt(Lookup(p.options, "height")).Number? ==> inv.request.height == toInt(Lookup(p.options, "height")).value)
      && (toInt(Lookup(p.options, "pause")).Number? ==> inv.request.pause == toInt(Lookup(p.options, "pause")).value)
  {
  }

  /** The destinations of the six options. */
  predicate HasMainKeys(options: map<string, string>) {
    forall key :: key in MainDefaults ==> key in options
  }

  /** The options that a flag can select write exactly the six keys that
      have defaults; the built-in help option writes none. */
  lemma MainDestinations()
    ensures Destinations(MainOptions) == MainDefaults.Keys
  {
    var opts := MainOptions;
    forall d | d in Destinations(opts)
      ensures d in MainDefaults
    {
      var j :| 0 <= j < |opts| && !(IsHelpToken(opts[j].shrtFlag) && IsHelpToken(opts[j].lngFlag))
               && opts[j].destination == d;
    }
    forall d | d in MainDefaults
      ensures d in Destinations(opts)
    {
      var j := if d == "pause" then 0 else if d == "height" then 1 else if d == "width" then 2
               else if d == "output" then 3 else if d == "scale" then 4 else 5;
      assert opts[j].destination == d;
    }
  }

  /** Every parse of `main` leaves all six keys in the dictionary, so no
      lookup falls back to the empty string, and writes no other key. */
  lemma MainKeysPresent(argv: seq<string>)
    ensures HasMainKeys(MainParse(argv).options)
    ensures MainParse(argv).options.Keys == MainDefaults.Keys
  {
    ScanFrame(MainOptions, Tokens(argv), MainDefaults, []);
    MainDestinations();
  }

  /** With no argument after the program name, `main` shows the help
      message and exits with 0, whatever the oracles say. */
  lemma NoUrlShowsHelp(argv: seq<string>, toInt: string -> Number,
                       isValid: string -> bool, fileExists: string -> bool)
    requires |argv| <= 1
    ensures MainParse(argv) == Parse(Continue, MainDefaults, [])
    ensures Decide(MainParse(argv), toInt, isValid, fileExists) == Exit(0)
  {
  }

  /** A bare URL takes every default: zoom and scale 100, "image.png", no
      size override and no pause. */
  lemma {:induction false} DefaultsForBareUrl(argv: seq<string>, toInt: string -> Number,
                                              isValid: string -> bool, fileExists: string -> bool)
    requires |argv| == 2 && !IsFlag(argv[1])
    requires toInt("100") == Number(100) && toInt("0") == Number(0)
    ensures MainParse(argv) == Parse(Continue, MainDefaults, [argv[1]])
    ensures Decide(MainParse(argv), toInt, isValid, fileExists)
         == Start(Request(GuessUrl(argv[1], isValid, fileExists), 100, 100, "image.png", 0, 0, 0))
  {
    assert Tokens(argv) == [argv[1]];
    ScanWithoutFlags(MainOptions, [argv[1]], MainDefaults, []);
    DecideOnDefaults(argv[1], toInt, isValid, fileExists);
  }

  /** The request `main` makes from the defaults and one URL. */
  lemma DecideOnDefaults(u: string, toInt: string -> Number, isValid: string -> bool, fileExists: string -> bool)
    requires toInt("100") == Number(100) && toInt("0") == Number(0)
    ensures Decide(Parse(Continue, MainDefaults, [u]), toInt, isValid, fileExists)
         == Start(Request(GuessUrl(u, isValid, fileExists), 100, 100, "image.png", 0, 0, 0))
  {
    assert Lookup(MainDefaults, "zoom") == "100" && Lookup(MainDefaults, "scale") == "100";
    assert Lookup(MainDefaults, "width") == "0" && Lookup(MainDefaults, "height") == "0";
    assert Lookup(MainDefaults, "pause") == "0";
  }

  /** A zoom flag given last wins over every earlier one, in either
      spelling. */
  lemma LastZoomWins(xs: seq<string>, f: string, v: string)
    requires f == "-z" || f == "--zoom-factor"
    requires Scan(MainOptions, xs, MainDefaults, []).outcome == Continue
    ensures var r := Scan(MainOptions, xs + [f, v], MainDefaults, []);
      r.outcome == Continue && Lookup(r.options, "zoom") == v
  {
    FirstMatchIs(MainOptions, f, 5);
    LastStoreWins(MainOptions, xs, f, v, MainDefaults, []);
  }

  /** The value of the output flag is consumed with it and never taken for
      the URL: `webcapture -o shot.png URL` stores shot.png as the output and
      URL as the one argument, and so does the long spelling. */
  lemma OutputFlagParse(argv: seq<string>, f: string, out: string, u: string)
    requires f == "-o" || f == "--output"
    requires |argv| == 4 && argv[1] == f && argv[2] == out && argv[3] == u && !IsFlag(u)
    ensures MainParse(argv) == Parse(Continue, MainDefaults["output" := out], [u])
  {
    FirstMatchIs(MainOptions, f, 3);
    assert Tokens(argv) == [f, out] + [u];
    StoreConsumesValue(MainOptions, f, out, [u], MainDefaults, []);
    ScanWithoutFlags(MainOptions, [u], MainDefaults["output" := out], []);
  }

  /** Such a command line captures URL to shot.png. */
  lemma OutputValueIsNotUrl(argv: seq<string>, f: string, out: string, u: string, toInt: string -> Number,
                            isValid: string -> bool, fileExists: string -> bool)
    requires f == "-o" || f == "--output"
    requires |argv| == 4 && argv[1] == f && argv[2] == out && argv[3] == u && !IsFlag(u)
    ensures var p := MainParse(argv);
      && p == Parse(Continue, MainDefaults["output" := out], [u])
      && var inv := Decide(p, toInt, isValid, fileExists);
         inv.Start? && inv.request.fileName == out && inv.request.url == GuessUrl(u, isValid, fileExists)
  {
    OutputFlagParse(argv, f, out, u);
  }
}
