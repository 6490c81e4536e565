/** A model of the command-line option parser: `Option`, the flag record, and
    `OptionParser`, which holds the registered options, the option dictionary
    and the positional arguments and fills them by one left-to-right scan of
    `argv`.  `help()` and `error()` end the process; here they become the
    outcomes `Help` (exit status 0) and `Invalid` (exit status 1). */
module OptParse {

  /** What an option stores when its flag is seen.  The source's enum numbers
      them 0, 1, 2 in this order. */
  datatype Action = StoreFalse | StoreTrue | Store

  /** The enum value of an action. */
  function ActionCode(a: Action): (n: nat)
    ensures n < 3
  {
    match a
    case StoreFalse => 0
    case StoreTrue => 1
    case Store => 2
  }

  /** The action whose enum value is `n`, if there is one. */
  function ActionOfCode(n: int): (r: seq<Action>)
    ensures |r| <= 1
  {
    if n == 0 then [StoreFalse] else if n == 1 then [StoreTrue] else if n == 2 then [Store] else []
  }

  /** The enum has exactly three members, numbered 0, 1 and 2, and the
      numbering is a bijection onto {0, 1, 2}. */
  lemma ActionCodeBijective(a: Action, n: int)
    ensures ActionOfCode(ActionCode(a)) == [a]
    ensures 0 <= n < 3 <==> |ActionOfCode(n)| == 1
    ensures |ActionOfCode(n)| == 1 ==> ActionCode(ActionOfCode(n)[0]) == n
  {
  }

  /** A registered option.  A help text and an action that are not given
      default to "" and `Store`. */
  datatype Option = Option(shrtFlag: string, lngFlag: string, destination: string,
                           help: string := "", action: Action := Store)
  {
    /** `Option == s`: the string is the short flag or the long flag. */
    predicate Matches(s: string) {
      shrtFlag == s || lngFlag == s
    }
  }

  /** An `Option` built without help or action gets help "" and action `Store`. */
  lemma OptionDefaults(shrt: string, lng: string, dest: string)
    ensures Option(shrt, lng, dest).help == ""
    ensures Option(shrt, lng, dest).action == Store
    ensures Option(shrt, lng, dest).Matches(shrt) && Option(shrt, lng, dest).Matches(lng)
  {
  }

  /** The built-in help option; it has no destination. */
  const HelpOption := Option("-?", "--help", "", "display this message")

  /** The value a switch stores: booleans are stored as strings. */
  function SwitchValue(a: Action): (v: string)
    requires a != Store
    ensures v == "0" <==> a == StoreFalse
    ensures v == "1" <==> a == StoreTrue
  {
    var r := if a == StoreFalse then "0" else "1";
    assert r[0] == '0' <==> a == StoreFalse;
    r
  }

  /** A token that `parse_args` hands to `find_opt`: its first character is '-'. */
  predicate IsFlag(tok: string) {
    |tok| > 0 && tok[0] == '-'
  }

  /** The two tokens `find_opt` answers with the help message before any lookup. */
  predicate IsHelpToken(tok: string) {
    tok == "-?" || tok == "--help"
  }

  /** The index of the first option in `opts` that matches `s`, or -1. */
  function FirstMatch(opts: seq<Option>, s: string): (k: int)
    ensures -1 <= k < |opts|
    ensures k == -1 <==> forall j :: 0 <= j < |opts| ==> !opts[j].Matches(s)
    ensures 0 <= k ==> opts[k].Matches(s) && forall j :: 0 <= j < k ==> !opts[j].Matches(s)
  {
    if opts == [] then -1
    else if opts[0].Matches(s) then 0
    else
      var k := FirstMatch(opts[1..], s);
      if k == -1 then -1 else k + 1
  }

  /** The option added last shadows every earlier option with the same flag,
      and for other flags the lookup is that of the earlier list. */
  lemma {:induction false} FirstMatchAfterAdd(o: Option, opts: seq<Option>, s: string)
    ensures o.Matches(s) ==> FirstMatch([o] + opts, s) == 0
    ensures !o.Matches(s) ==>
      FirstMatch([o] + opts, s) == (if FirstMatch(opts, s) == -1 then -1 else FirstMatch(opts, s) + 1)
  {
    assert ([o] + opts)[0] == o;
    assert ([o] + opts)[1..] == opts;
  }

  /** The first match is at `k` when the option there matches and none
      before it does. */
  lemma FirstMatchIs(opts: seq<Option>, s: string, k: nat)
    requires k < |opts| && opts[k].Matches(s)
    requires forall j :: 0 <= j < k ==> !opts[j].Matches(s)
    ensures FirstMatch(opts, s) == k
  {
  }

  /** How a parse ended: the scan ran to the end, the help message was
      requested (exit 0), an unknown flag was met (exit 1), or a `Store` flag
      was the last token, so that its value would be read past the end of
      `argv` (undefined in the source). */
  datatype Outcome = Continue | Help | Invalid | MissingValue

  /** The exit status of an outcome that ends the process. */
  function ExitStatus(o: Outcome): (code: int)
    requires o == Help || o == Invalid
    ensures code == 0 <==> o == Help
    ensures code == 1 <==> o == Invalid
  {
    if o == Help then 0 else 1
  }

  /** The effect of `find_opt` on the flag token `toks[0]`: how it ends, how
      many tokens it consumes (the flag and, for `Store`, its value) and the
      new option dictionary. */
  datatype Step = Step(outcome: Outcome, consumed: nat, options: map<string, string>)

  function FindOptSpec(opts: seq<Option>, toks: seq<string>, options: map<string, string>): (r: Step)
    requires |toks| > 0
    ensures r.outcome == Continue ==> 1 <= r.consumed <= |toks|
    ensures r.outcome != Continue ==> r.consumed == 0 && r.options == options
  {
    var tok := toks[0];
    if IsHelpToken(tok) then Step(Help, 0, options)
    else
      var k := FirstMatch(opts, tok);
      if k == -1 then Step(Invalid, 0, options)
      else
        var o := opts[k];
        match o.action
        case StoreFalse => Step(Continue, 1, options[o.destination := "0"])
        case StoreTrue => Step(Continue, 1, options[o.destination := "1"])
        case Store =>
          if |toks| < 2 then Step(MissingValue, 0, options)
          else Step(Continue, 2, options[o.destination := toks[1]])
  }

  /** A flag that `find_opt` accepts names a registered option, and it
      consumes two tokens when that option stores a value and one otherwise. */
  lemma FindOptConsumes(opts: seq<Option>, toks: seq<string>, options: map<string, string>)
    requires |toks| > 0
    ensures var r := FindOptSpec(opts, toks, options);
      r.outcome == Continue ==>
        && !IsHelpToken(toks[0]) && FirstMatch(opts, toks[0]) >= 0
        && r.consumed == (if opts[FirstMatch(opts, toks[0])].action == Store then 2 else 1)
  {
  }

  /** What a parse produced. */
  datatype Parse = Parse(outcome: Outcome, options: map<string, string>, arguments: seq<string>)

  /** The scan of `parse_args` over the tokens after `argv[0]`: a flag goes
      to `find_opt`, any other token is appended to the arguments. */
  function Scan(opts: seq<Option>, toks: seq<string>, options: map<string, string>,
                arguments: seq<string>): Parse
    decreases |toks|
  {
    if toks == [] then Parse(Continue, options, arguments)
    else if IsFlag(toks[0]) then
      var s := FindOptSpec(opts, toks, options);
      if s.outcome == Continue then Scan(opts, toks[s.consumed..], s.options, arguments)
      else Parse(s.outcome, options, arguments)
    else Scan(opts, toks[1..], options, arguments + [toks[0]])
  }

  /** The tokens `parse_args` looks at: never `argv[0]`. */
  function Tokens(argv: seq<string>): (toks: seq<string>)
    ensures |argv| > 0 ==> toks == argv[1..]
    ensures |argv| == 0 ==> toks == []
  {
    if |argv| == 0 then [] else argv[1..]
  }

  /** The tokens from index `i` on; none once `i` is past the end. */
  function Rest(argv: seq<string>, i: nat): (toks: seq<string>)
    ensures |toks| == if i <= |argv| then |argv| - i else 0
  {
    if i <= |argv| then argv[i..] else []
  }

  /** One step of the scan at a flag at index `i` of `argv`: it ends the
      scan, or the scan goes on after the tokens `find_opt` consumed. */
  lemma ScanFlagStep(opts: seq<Option>, argv: seq<string>, i: nat,
                     options: map<string, string>, arguments: seq<string>)
    requires i < |argv| && IsFlag(argv[i])
    ensures var s := FindOptSpec(opts, Rest(argv, i), options);
      Scan(opts, Rest(argv, i), options, arguments)
        == if s.outcome == Continue then Scan(opts, Rest(argv, i + s.consumed), s.options, arguments)
           else Parse(s.outcome, options, arguments)
  {
    var s := FindOptSpec(opts, Rest(argv, i), options);
    if s.outcome == Continue {
      assert Rest(argv, i)[s.consumed..] == Rest(argv, i + s.consumed);
    }
  }

  /** One step of the scan at a positional argument at index `i`. */
  lemma ScanArgumentStep(opts: seq<Option>, argv: seq<string>, i: nat,
                         options: map<string, string>, arguments: seq<string>)
    requires i < |argv| && !IsFlag(argv[i])
    ensures Scan(opts, Rest(argv, i), options, arguments) == Scan(opts, Rest(argv, i + 1), options, arguments + [argv[i]])
  {
    assert Rest(argv, i)[1..] == Rest(argv, i + 1);
  }

  /** The scan of `parse_args` from index `i` of `argv`, as its loop walks
      the indices. */
  function ScanFrom(opts: seq<Option>, argv: seq<string>, i: nat,
                    options: map<string, string>, arguments: seq<string>): Parse
    decreases |argv| - i
  {
    if i >= |argv| then Parse(Continue, options, arguments)
    else if IsFlag(argv[i]) then
      var s := FindOptSpec(opts, Rest(argv, i), options);
      if s.outcome == Continue then ScanFrom(opts, argv, i + s.consumed, s.options, arguments)
      else Parse(s.outcome, options, arguments)
    else ScanFrom(opts, argv, i + 1, options, arguments + [argv[i]])
  }

  /** Walking the indices is the same scan as walking the token list: the
      loop of `parse_args` computes `Scan` of the tokens after `argv[0]`. */
  lemma {:induction false} ScanFromIsScan(opts: seq<Option>, argv: seq<string>, i: nat,
                                          options: map<string, string>, arguments: seq<string>)
    ensures ScanFrom(opts, argv, i, options, arguments) == Scan(opts, Rest(argv, i), options, arguments)
    decreases |argv| - i
  {
    if i < |argv| {
      if IsFlag(argv[i]) {
        ScanFlagStep(opts, argv, i, options, arguments);
        var s := FindOptSpec(opts, Rest(argv, i), options);
        if s.outcome == Continue {
          ScanFromIsScan(opts, argv, i + s.consumed, s.options, arguments);
        }
      } else {
        ScanArgumentStep(opts, argv, i, options, arguments);
        ScanFromIsScan(opts, argv, i + 1, options, arguments + [argv[i]]);
      }
    }
  }

  /** The destinations of the registered options that some flag other than
      the two help tokens selects; the built-in help option has none. */
  function Destinations(opts: seq<Option>): set<string> {
    set j | 0 <= j < |opts| && !(IsHelpToken(opts[j].shrtFlag) && IsHelpToken(opts[j].lngFlag)) :: opts[j].destination
  }

  /** Parsing keeps every key it finds, writes only keys that are destinations
      of registered options, and only ever appends to the arguments tokens of
      the input that do not start with '-'. */
  lemma {:induction false} ScanFrame(opts: seq<Option>, toks: seq<string>,
                                     options: map<string, string>, arguments: seq<string>)
    ensures var r := Scan(opts, toks, options, arguments);
      && options.Keys <= r.options.Keys
      && (forall k :: k in r.options && (k !in options || r.options[k] != options[k]) ==> k in Destinations(opts))
      && |arguments| <= |r.arguments| && r.arguments[..|arguments|] == arguments
      && (forall j :: |arguments| <= j < |r.arguments| ==> !IsFlag(r.arguments[j]) && r.arguments[j] in toks)
    decreases |toks|
  {
    if toks == [] {
    } else if IsFlag(toks[0]) {
      var s := FindOptSpec(opts, toks, options);
      if s.outcome == Continue {
        var k := FirstMatch(opts, toks[0]);
        assert opts[k].destination in Destinations(opts);
        ScanFrame(opts, toks[s.consumed..], s.options, arguments);
        var r := Scan(opts, toks[s.consumed..], s.options, arguments);
        forall j | |arguments| <= j < |r.arguments|
          ensures r.arguments[j] in toks
        {
          assert r.arguments[j] in toks[s.consumed..];
        }
      }
    } else {
      var args' := arguments + [toks[0]];
      ScanFrame(opts, toks[1..], options, args');
      var r := Scan(opts, toks[1..], options, args');
      assert r.arguments[..|arguments|] == args'[..|arguments|];
      forall j | |arguments| <= j < |r.arguments|
        ensures !IsFlag(r.arguments[j]) && r.arguments[j] in toks
      {
        if j == |arguments| {
          assert r.arguments[j] == args'[j];
        } else {
          assert r.arguments[j] in toks[1..];
        }
      }
    }
  }

  /** With no token starting with '-', every token becomes an argument, in
      order, and the dictionary is untouched. */
  lemma {:induction false} ScanWithoutFlags(opts: seq<Option>, toks: seq<string>,
                                            options: map<string, string>, arguments: seq<string>)
    requires forall j :: 0 <= j < |toks| ==> !IsFlag(toks[j])
    ensures Scan(opts, toks, options, arguments) == Parse(Continue, options, arguments + toks)
    decreases |toks|
  {
    if toks != [] {
      ScanWithoutFlags(opts, toks[1..], options, arguments + [toks[0]]);
      assert arguments + [toks[0]] + toks[1..] == arguments + toks;
    }
  }

  /** A scan that runs to the end of one block of tokens goes on with the next
      block from the state it reached. */
  lemma {:induction false} ScanAppend(opts: seq<Option>, xs: seq<string>, ys: seq<string>,
                                      options: map<string, string>, arguments: seq<string>)
    requires Scan(opts, xs, options, arguments).outcome == Continue
    ensures var r := Scan(opts, xs, options, arguments);
      Scan(opts, xs + ys, options, arguments) == Scan(opts, ys, r.options, r.arguments)
    decreases |xs|
  {
    if xs == [] {
      assert xs + ys == ys;
    } else {
      var zs := xs + ys;
      assert zs[0] == xs[0];
      if IsFlag(xs[0]) {
        var s := FindOptSpec(opts, xs, options);
        if |xs| >= 2 {
          assert zs[1] == xs[1];
        }
        assert FindOptSpec(opts, zs, options) == s;
        assert zs[s.consumed..] == xs[s.consumed..] + ys;
        ScanAppend(opts, xs[s.consumed..], ys, s.options, arguments);
      } else {
        assert zs[1..] == xs[1..] + ys;
        ScanAppend(opts, xs[1..], ys, options, arguments + [xs[0]]);
      }
    }
  }

  /** The value that follows a `Store` flag is consumed with it: it is stored
      even when it starts with '-', and is never an argument or a flag. */
  lemma StoreConsumesValue(opts: seq<Option>, f: string, v: string, rest: seq<string>,
                           options: map<string, string>, arguments: seq<string>)
    requires IsFlag(f) && !IsHelpToken(f)
    requires FirstMatch(opts, f) >= 0 && opts[FirstMatch(opts, f)].action == Store
    ensures Scan(opts, [f, v] + rest, options, arguments)
         == Scan(opts, rest, options[opts[FirstMatch(opts, f)].destination := v], arguments)
  {
    assert ([f, v] + rest)[2..] == rest;
  }

  /** A repeated `Store` flag leaves the last value: whatever came before,
      a final `f v` stores `v` under the destination of the option that `f`
      selects and adds no argument. */
  lemma LastStoreWins(opts: seq<Option>, xs: seq<string>, f: string, v: string,
                      options: map<string, string>, arguments: seq<string>)
    requires IsFlag(f) && !IsHelpToken(f)
    requires FirstMatch(opts, f) >= 0 && opts[FirstMatch(opts, f)].action == Store
    requires Scan(opts, xs, options, arguments).outcome == Continue
    ensures var r := Scan(opts, xs + [f, v], options, arguments);
      && r.outcome == Continue
      && r.options == Scan(opts, xs, options, arguments).options[opts[FirstMatch(opts, f)].destination := v]
      && r.arguments == Scan(opts, xs, options, arguments).arguments
  {
    ScanAppend(opts, xs, [f, v], options, arguments);
    var r := Scan(opts, xs, options, arguments);
    StoreConsumesValue(opts, f, v, [], r.options, r.arguments);
    assert [f, v] + [] == [f, v];
  }

  /** The same for a switch: a final `StoreTrue` flag leaves "1" and a final
      `StoreFalse` flag leaves "0", whatever came before. */
  lemma LastSwitchWins(opts: seq<Option>, xs: seq<string>, f: string,
                       options: map<string, string>, arguments: seq<string>)
    requires IsFlag(f) && !IsHelpToken(f)
    requires FirstMatch(opts, f) >= 0 && opts[FirstMatch(opts, f)].action != Store
    requires Scan(opts, xs, options, arguments).outcome == Continue
    ensures var r := Scan(opts, xs + [f], options, arguments);
      && r.outcome == Continue
      && r.options == Scan(opts, xs, options, arguments).options[
           opts[FirstMatch(opts, f)].destination := SwitchValue(opts[FirstMatch(opts, f)].action)]
      && r.arguments == Scan(opts, xs, options, arguments).arguments
  {
    ScanAppend(opts, xs, [f], options, arguments);
    assert [f][1..] == [];
  }

  /** A help token ends the parse with the help outcome before any lookup,
      even when a registered option uses the same flag; an unknown flag ends
      it with the error outcome. Either way the dictionary is left as it was. */
  lemma FlagThatStops(opts: seq<Option>, f: string, rest: seq<string>,
                      options: map<string, string>, arguments: seq<string>)
    requires IsFlag(f)
    ensures IsHelpToken(f) ==> Scan(opts, [f] + rest, options, arguments) == Parse(Help, options, arguments)
    ensures !IsHelpToken(f) && FirstMatch(opts, f) == -1 ==>
      Scan(opts, [f] + rest, options, arguments) == Parse(Invalid, options, arguments)
  {
    assert ([f] + rest)[0] == f;
  }

  /** The length of the longest long flag, 0 for no options. */
  function MaxLngFlag(opts: seq<Option>): nat {
    if opts == [] then 0
    else if |opts[0].lngFlag| > MaxLngFlag(opts[1..]) then |opts[0].lngFlag|
    else MaxLngFlag(opts[1..])
  }

  /** The length of the longest short flag, 0 for no options. */
  function MaxShrtFlag(opts: seq<Option>): nat {
    if opts == [] then 0
    else if |opts[0].shrtFlag| > MaxShrtFlag(opts[1..]) then |opts[0].shrtFlag|
    else MaxShrtFlag(opts[1..])
  }

  /** The two maxima are bounds reached by some option. */
  lemma {:induction false} MaxFlagsAreMaxima(opts: seq<Option>)
    ensures forall j :: 0 <= j < |opts| ==> |opts[j].lngFlag| <= MaxLngFlag(opts) && |opts[j].shrtFlag| <= MaxShrtFlag(opts)
    ensures opts != [] ==> exists j :: 0 <= j < |opts| && |opts[j].lngFlag| == MaxLngFlag(opts)
    ensures opts != [] ==> exists j :: 0 <= j < |opts| && |opts[j].shrtFlag| == MaxShrtFlag(opts)
  {
    if opts != [] {
      MaxFlagsAreMaxima(opts[1..]);
      forall j | 1 <= j < |opts|
        ensures |opts[j].lngFlag| <= MaxLngFlag(opts) && |opts[j].shrtFlag| <= MaxShrtFlag(opts)
      {
        assert opts[j] == opts[1..][j - 1];
      }
      if opts[1..] != [] && MaxLngFlag(opts) == MaxLngFlag(opts[1..]) {
        var w :| 0 <= w < |opts[1..]| && |opts[1..][w].lngFlag| == MaxLngFlag(opts[1..]);
        assert opts[w + 1] == opts[1..][w];
      }
      if opts[1..] != [] && MaxShrtFlag(opts) == MaxShrtFlag(opts[1..]) {
        var w :| 0 <= w < |opts[1..]| && |opts[1..][w].shrtFlag| == MaxShrtFlag(opts[1..]);
        assert opts[w + 1] == opts[1..][w];
      }
    }
  }

  /** The parser.  `opts` lists the registered options, newest first, with
      the built-in help option last; `options` is the dictionary of values and
      `arguments` the positional arguments.  The two maximum lengths are kept
      for the layout of the help message. */
  class OptionParser {
    var options: map<string, string>
    var arguments: seq<string>
    var lngFlagMaxLen: nat
    var shrtFlagMaxLen: nat
    var helpMsgShowOpts: bool
    var useMsg: string
    var opts: seq<Option>

    /** The built-in help option stays last, every other option's destination
        has an entry in the dictionary, and each maximum length is the length
        of the longest flag of its kind. */
    ghost predicate Valid()
      reads this
    {
      && |opts| > 0 && opts[|opts| - 1] == HelpOption
      && (forall j :: 0 <= j < |opts| - 1 ==> opts[j].destination in options)
      && lngFlagMaxLen == MaxLngFlag(opts)
      && shrtFlagMaxLen == MaxShrtFlag(opts)
    }

    constructor (usage: string := "", showOpts: bool := true)
      ensures Valid()
      ensures opts == [HelpOption] && options == map[] && arguments == []
      ensures lngFlagMaxLen == 6 && shrtFlagMaxLen == 2
      ensures useMsg == usage && helpMsgShowOpts == showOpts
    {
      helpMsgShowOpts := showOpts;
      useMsg := usage;
      lngFlagMaxLen := |"--help"|;
      shrtFlagMaxLen := |"-?"|;
      options := map[];
      arguments := [];
      opts := [HelpOption];
      new;
      assert opts[0] == HelpOption;
    }

    /** Registers an option at the front of the list and stores its default. */
    method AddOption(shrtFlag: string, lngFlag: string, destination: string,
                     help: string := "", dfault: string := "", act: Action := Store)
      requires Valid()
      modifies this
      ensures Valid()
      ensures opts == [Option(shrtFlag, lngFlag, destination, help, act)] + old(opts)
      ensures options == old(options)[destination := dfault]
      ensures lngFlagMaxLen == if |lngFlag| > old(lngFlagMaxLen) then |lngFlag| else old(lngFlagMaxLen)
      ensures shrtFlagMaxLen == if |shrtFlag| > old(shrtFlagMaxLen) then |shrtFlag| else old(shrtFlagMaxLen)
      ensures arguments == old(arguments) && useMsg == old(useMsg) && helpMsgShowOpts == old(helpMsgShowOpts)
    {
      var o := Option(shrtFlag, lngFlag, destination, help, act);
      opts := [o] + opts;
      options := options[destination := dfault];
      if |lngFlag| > lngFlagMaxLen {
        lngFlagMaxLen := |lngFlag|;
      }
      if |shrtFlag| > shrtFlagMaxLen {
        shrtFlagMaxLen := |shrtFlag|;
      }
      assert opts[0] == o && opts[1..] == old(opts);
    }

    /** `find_opt`: looks `argv[index]` up and runs the action of the first
        option that matches it.  `next` is the index of the last token used,
        `index + 1` when a `Store` option consumed its value. */
    method FindOpt(argv: seq<string>, index: nat) returns (next: nat, outcome: Outcome)
      requires index < |argv|
      requires FindOptSpec(opts, Rest(argv, index), options).outcome != MissingValue
      modifies this
      ensures old(Valid()) ==> Valid()
      ensures var s := FindOptSpec(old(opts), Rest(argv, index), old(options));
        && outcome == s.outcome && options == s.options
        && next == (if outcome == Continue then index + s.consumed - 1 else index)
      ensures opts == old(opts) && arguments == old(arguments)
      ensures lngFlagMaxLen == old(lngFlagMaxLen) && shrtFlagMaxLen == old(shrtFlagMaxLen)
      ensures useMsg == old(useMsg) && helpMsgShowOpts == old(helpMsgShowOpts)
    {
      var tok := argv[index];
      if IsHelpToken(tok) {
        return index, Help;
      }
      var i := 0;
      while i < |opts|
        invariant 0 <= i <= |opts|
        invariant forall j :: 0 <= j < i ==> !opts[j].Matches(tok)
        invariant options == old(options)
      {
        if opts[i].Matches(tok) {
          assert FirstMatch(opts, tok) == i;
          var d := opts[i].destination;
          match opts[i].action {
            case StoreFalse =>
              options := options[d := "0"];
            case StoreTrue =>
              options := options[d := "1"];
            case Store =>
              options := options[d := argv[index + 1]];
              return index + 1, Continue;
          }
          return index, Continue;
        }
        i := i + 1;
      }
      return index, Invalid;
    }

    /** `parse_args`: sorts the tokens after `argv[0]` into options and
        arguments, or stops at the help or error outcome.  The parser stays
        valid, so options can still be added after a parse. */
    method ParseArgs(argv: seq<string>) returns (outcome: Outcome)
      requires Valid()
      requires Scan(opts, Tokens(argv), options, arguments).outcome != MissingValue
      modifies this
      ensures Valid()
      ensures var r := Scan(old(opts), Tokens(argv), old(options), old(arguments));
        outcome == r.outcome && options == r.options && arguments == r.arguments
      ensures opts == old(opts)
      ensures lngFlagMaxLen == old(lngFlagMaxLen) && shrtFlagMaxLen == old(shrtFlagMaxLen)
      ensures useMsg == old(useMsg) && helpMsgShowOpts == old(helpMsgShowOpts)
    {
      outcome := ScanArgv(argv);
      ParseKeepsValid(opts, Tokens(argv), old(options), old(arguments));
    }

    /** The loop of `parse_args`: a token that starts with '-' goes to
        `find_opt`, which may consume the next token too; any other token is
        appended to the arguments. */
    method ScanArgv(argv: seq<string>) returns (outcome: Outcome)
      requires Scan(opts, Tokens(argv), options, arguments).outcome != MissingValue
      modifies this
      ensures var r := Scan(old(opts), Tokens(argv), old(options), old(arguments));
        outcome == r.outcome && options == r.options && arguments == r.arguments
      ensures opts == old(opts)
      ensures lngFlagMaxLen == old(lngFlagMaxLen) && shrtFlagMaxLen == old(shrtFlagMaxLen)
      ensures useMsg == old(useMsg) && helpMsgShowOpts == old(helpMsgShowOpts)
    {
      ghost var os := opts;
      ghost var target := ScanFrom(os, argv, 1, options, arguments);
      ScanFromIsScan(os, argv, 1, options, arguments);
      outcome := Continue;
      var i := 1;
      while i < |argv|
        invariant 1 <= i <= |argv| || (i == 1 && |argv| == 0)
        invariant target == ScanFrom(os, argv, i, options, arguments)
        invariant opts == os && lngFlagMaxLen == old(lngFlagMaxLen) && shrtFlagMaxLen == old(shrtFlagMaxLen)
        invariant useMsg == old(useMsg) && helpMsgShowOpts == old(helpMsgShowOpts)
        decreases |argv| - i
      {
        if IsFlag(argv[i]) {
          var next, o := FindOpt(argv, i);
          if o != Continue {
            outcome := o;
            break;
          }
          i := next;
        } else {
          arguments := arguments + [argv[i]];
        }
        i := i + 1;
      }
      assert target == Parse(outcome, options, arguments);
    }
  }

  /** Parsing keeps the parser's invariant: it changes neither the option list
      nor the lengths, and removes no key from the dictionary. */
  lemma ParseKeepsValid(opts: seq<Option>, toks: seq<string>,
                        options: map<string, string>, arguments: seq<string>)
    requires forall j :: 0 <= j < |opts| - 1 ==> opts[j].destination in options
    ensures var r := Scan(opts, toks, options, arguments);
      forall j :: 0 <= j < |opts| - 1 ==> opts[j].destination in r.options
  {
    ScanFrame(opts, toks, options, arguments);
  }
}
