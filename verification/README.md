# webcapture in Dafny

`webcapture` is a command-line tool. It loads a web page with QtWebKit, paints it onto an image and saves the image to a file. This project models its core in four modules:

- `OptParse` (`optparse.dfy`) models the small option parser the tool ships, the `Option` record and the `OptionParser` class. `OptionParser` is a class whose methods update its option list, its option dictionary and its positional arguments in place. `parse_args` is proved against `Scan`, a pure left-to-right scan of the tokens after `argv[0]`. The parser's `help()` and `error()` end the process. Here they become the outcomes `Help` (exit status 0) and `Invalid` (exit status 1).
- `UrlGuess` (`urlguess.dfy`) models `guessUrlFromString`, which turns the positional argument into the URL to load. It covers trimming, the `^[a-zA-Z]+\:.*` scheme test, the existing-file case and the short-URL guess of `ftp://` or `http://`.
- `Capture` (`capture.dfy`) models the `WebCapture` controller as a class with the source's fields and a log of effects: page load, '#' progress marks, painting at a size, saving, and the `finished` signal. Each slot is proved against a pure function on a `Session` value. The pure functions are tied together by lemmas over whole event sequences: progress reports, the load result and the pause timer.
- `Cli` (`cli.dfy`) models `main` up to the event loop. It registers the six options with their defaults, parses, and exits with the help message when there is no URL. Otherwise it reads the options, raises zoom and scale to at least 10, and starts the capture.

Three library calls are parameters of the model rather than code:

- `isValid` stands for the validity of a tolerant `QUrl` parse.
- `fileExists` stands for `QFile::exists`.
- `toInt` stands for `QString::toInt`; a malformed string reads as 0.

## Model

| member | source | states |
|---|---|---|
| OptParse.ActionCodeBijective | optparse.h:25 | the three actions are numbered 0, 1 and 2, and the numbering is a bijection onto {0, 1, 2} |
| OptParse.OptionDefaults | optparse.h:30-31 | an option built without help or action gets help "" and action `Store`, and its `==` accepts both of its flags |
| OptParse.SwitchValue | optparse.cpp:136-141 | a false switch stores "0" and a true switch stores "1", and only those |
| OptParse.FirstMatch | optparse.cpp:130-134 | the lookup finds the first registered option whose short or long flag equals the token, or reports that none does |
| OptParse.FirstMatchAfterAdd | optparse.cpp:60 | an option added later shadows every earlier option with the same flag, and leaves the lookup of other flags unchanged |
| OptParse.ExitStatus | optparse.cpp:100-118 | the help outcome exits with 0 and the error outcome with 1 |
| OptParse.FindOptSpec | optparse.cpp:120-156 | a flag that is found consumes at least one token and no more than remain; help and error consume none and leave the dictionary as it was |
| OptParse.FindOptConsumes | optparse.cpp:130-150 | an accepted flag is not a help token and names a registered option, and it consumes two tokens when that option stores a value and one otherwise |
| OptParse.ScanFromIsScan | optparse.cpp:83-97 | walking `argv` by index from 1, as the loop does, gives the same parse as the token-list scan |
| OptParse.ScanFrame | optparse.cpp:62-66 | parsing keeps every key, writes only destinations of registered options, and only appends input tokens that do not start with '-' to the arguments |
| OptParse.ScanWithoutFlags | optparse.cpp:95-96 | without flags every token becomes an argument, in order, and the dictionary is untouched |
| OptParse.ScanAppend | optparse.cpp:83-97 | a scan of two blocks of tokens is the scan of the second block from the state the first one reached |
| OptParse.StoreConsumesValue | optparse.cpp:142-146 | a `Store` flag stores the next token even when it starts with '-', and that token is never taken as a flag or an argument |
| OptParse.LastStoreWins | optparse.cpp:142-146 | after any successful prefix, a final `f v` leaves `v` under the destination of `f` and adds no argument |
| OptParse.LastSwitchWins | optparse.cpp:136-141 | after any successful prefix, a final switch leaves "1" or "0" under its destination and adds no argument |
| OptParse.FlagThatStops | optparse.cpp:126-127 | "-?" and "--help" end the parse with help before any lookup, an unknown flag ends it with the error, and neither changes the dictionary |
| OptParse.MaxFlagsAreMaxima | optparse.cpp:68-74 | the recorded lengths bound every flag of their kind and are reached by one of them |
| OptParse.ParseKeepsValid | optparse.cpp:62-66 | parsing never removes the entry of a registered option's destination |
| OptParse.OptionParser.constructor | optparse.cpp:39-49 | a new parser knows only the help option, keeps the usage text and the show-options switch, and starts with maximum lengths 6 and 2 |
| OptParse.OptionParser.AddOption | optparse.cpp:55-75 | the option goes in front of the list, its default is stored under its destination, the maximum lengths grow to its flags, and the parser invariant holds |
| OptParse.OptionParser.FindOpt | optparse.cpp:120-156 | the dictionary, the outcome and the index of the last token used are those of `FindOptSpec`, nothing else changes, and a valid parser stays valid |
| OptParse.OptionParser.ParseArgs | optparse.cpp:77-98 | the outcome, the dictionary and the arguments are those of `Scan` over the tokens after `argv[0]`, nothing else changes, and the parser stays valid, so options can still be added |
| OptParse.OptionParser.ScanArgv | optparse.cpp:83-97 | the loop over `argv` from index 1 leaves the outcome, dictionary and arguments of `Scan`, and changes no other field |
| UrlGuess.Trimmed | webcapture.cpp:187 | the trimmed string is the slice from the first non-space character, it neither starts nor ends with white space, and everything outside it is white space |
| UrlGuess.TrimmedKeepsUnpadded | webcapture.cpp:187 | a string with no white space at either end is its own trimmed form |
| UrlGuess.HasSchemaMeans | webcapture.cpp:188-191 | the scheme test holds exactly when one or more ASCII letters are followed by ':' |
| UrlGuess.IndexOf | webcapture.cpp:204 | the index is that of the first '.', or -1 exactly when there is none |
| UrlGuess.LowerChar | webcapture.cpp:206 | a lower-cased character is never upper-case; an upper-case letter moves up by 32 and any other character is kept |
| UrlGuess.ToLowerIdempotent | webcapture.cpp:206 | lower-casing leaves no upper-case letter, changes nothing but upper-case letters, and a second pass changes nothing |
| UrlGuess.GuessedSchemeIsFtpIff | webcapture.cpp:206-207 | the guessed scheme is "ftp" exactly when the text before the first '.' spells ftp in any mix of cases, and "http" otherwise |
| UrlGuess.GuessUrl | webcapture.cpp:185-216 | a URL the guess builds itself is valid, and a local-file URL names an existing file given by the trimmed text; only the untrimmed fallback can be invalid |
| UrlGuess.GuessUrlCases | webcapture.cpp:185-216 | the four outcomes in their order of precedence: a valid string with a scheme, an existing file, a short URL with a guessed scheme, and the untrimmed fallback; only the fallback can be invalid |
| UrlGuess.GuessShortUrl | webcapture.cpp:203-211 | when the trimmed text has no scheme, names no file and has a '.', the result is the guessed scheme and "://" in front of the trimmed text, whenever that is valid |
| UrlGuess.GuessKeepsQualifiedUrl | webcapture.cpp:191-195 | "http://example.com" is kept as it is when valid |
| UrlGuess.GuessFindsLocalFile | webcapture.cpp:199-200 | "./local/page.html" becomes a local-file URL when the file exists |
| UrlGuess.GuessAddsHttp | webcapture.cpp:203-210 | "example.com/page" gets "http://" |
| UrlGuess.GuessAddsFtp | webcapture.cpp:203-210 | "ftp.example.com" gets "ftp://", and "FTP.x" gets the lower-case scheme "ftp" with its own spelling kept after it |
| Capture.WrappedPauseLosesDelay | webcapture.cpp:92 | the 32-bit product as written turns a pause of 2^29 seconds into no delay and a pause of 2147484 seconds into a negative one |
| Capture.PauseMillis | webcapture.cpp:92 | the pause in milliseconds is zero, positive or negative exactly when the pause is, and equals the written product and converts back to the pause wherever that product fits |
| Capture.CaptureSize | webcapture.cpp:150-158 | each axis of the capture is the requested one when that is not 0, and the content size's otherwise |
| Capture.ProgressOnlyPrints | webcapture.cpp:115-122 | progress reports never lower the recorded progress, add only '#' marks, and change nothing else |
| Capture.HashesPrinted | webcapture.cpp:115-122 | for reports at least two apart, the marks printed add up to the last report minus the start, less one per later report, and the progress ends one above the last report |
| Capture.SingleFinishedSignal | webcapture.cpp:124-182 | whatever progress comes before, between or after, one load result (and the timer when there is a pause) yields `finished` exactly once; a successful load is painted at the capture size and saved once, a failed one neither; no timer stays scheduled |
| Capture.DelayGating | webcapture.cpp:128-133 | with a pause, nothing is painted, saved or signalled before the timer fires, and the timer stays scheduled |
| Capture.CaptureAtContentSize | webcapture.cpp:77-182 | with no size override and no pause, an 800x600 page is loaded, painted at 800x600, saved to the requested file, and then `finished` is signalled |
| Capture.WebCapture.constructor | webcapture.cpp:62-66 | a new controller has zoom 100 and progress 0 |
| Capture.WebCapture.Load | webcapture.cpp:77-112 | the request is stored with the pause in milliseconds, the load result and the progress are cleared, and the page load starts |
| Capture.WebCapture.ShowProgress | webcapture.cpp:115-122 | the post-increment loop has the effect of `ProgressSpec`, one '#' per point gained, and the progress never decreases |
| Capture.WebCapture.SaveImage | webcapture.cpp:136-182 | the result is that of `SaveImageSpec`: only `finished` after a failed load, else paint at the capture size, save, then `finished` |
| Capture.WebCapture.SaveResult | webcapture.cpp:124-134 | the load result is recorded, then the image is saved at once without a pause, or the timer is scheduled |
| Capture.WebCapture.TimerFires | webcapture.cpp:132 | the scheduled timer clears and runs the save |
| Cli.NewMainParser | webcapture.cpp:225-235 | the parser `main` builds holds the usage text, the six options before the help option, and their defaults |
| Cli.AtLeast10 | webcapture.cpp:261-262 | the result is the larger of 10 and the value |
| Cli.Decide | webcapture.cpp:256-266 | `main` exits only with 0 or 1, and it starts a capture only after a complete parse with a positional argument, with zoom and scale at least 10 |
| Cli.RunMain | webcapture.cpp:222-266 | building the parser, parsing `argv` and deciding yields `Decide` of the parse `main` makes |
| Cli.Launch | webcapture.cpp:268-271 | a new controller is loaded with the request |
| Cli.ExitCodes | webcapture.cpp:256-257 | `main` exits with 1 exactly on an unknown flag, with 0 exactly on help or a missing URL, and otherwise starts a capture |
| Cli.ZoomAndScaleClamped | webcapture.cpp:260-266 | the first argument is the URL; zoom and scale are at least 10, a malformed one becomes 10, and a well-formed one is kept exactly when it is 10 or more; the output path passes through as stored, and width, height and pause as they read |
| Cli.MainDestinations | webcapture.cpp:230-235 | the keys the flags of `main` write are exactly the six keys with defaults |
| Cli.MainKeysPresent | webcapture.cpp:238-246 | after any parse the dictionary holds exactly the six keys, so no lookup falls back to "" |
| Cli.NoUrlShowsHelp | webcapture.cpp:256-257 | with nothing after the program name the parse keeps the defaults, and `main` exits with 0 |
| Cli.DefaultsForBareUrl | webcapture.cpp:230-266 | a bare URL is captured with zoom and scale 100, "image.png", no size override and no pause |
| Cli.DecideOnDefaults | webcapture.cpp:260-266 | the defaults read as zoom and scale 100, "image.png", size 0 by 0 and pause 0 |
| Cli.LastZoomWins | webcapture.cpp:230 | a zoom flag given last, in either spelling, wins over every earlier one |
| Cli.OutputFlagParse | webcapture.cpp:232 | `-o out URL` and `--output out URL` store out as the output and keep URL as the only argument |
| Cli.OutputValueIsNotUrl | webcapture.cpp:260-263 | such a command line captures the guess from URL into the file out |

## Left out

- OptParse.OptionParser.ParseArgs: requires that the parse does not end with a `Store` flag as the last token. The source then reads `argv[argc]`, which is null, into a string, which is undefined behaviour. `OptParse.OptionParser.FindOpt` and `OptParse.OptionParser.ScanArgv` have the same precondition for the same reason. The outcome `MissingValue` marks such a parse in `Scan`.
- Capture.WebCapture.Load: converts the pause with `PauseMillis` rather than the wrapping product; see Findings.
- Help and error output: the layout of the option table, `printf` padding, and the text on the standard streams are not modelled. Only the exit status is.
- Console messages other than the '#' marks are not modelled: "Loading ...", the newline before saving, and "Failed loading ...".
- Floating point is not modelled: the zoom factor, the scale factor, the viewport size `load` sets, and the scaling of the image before saving. Zoom and scale are stored as integers only.
- Qt rendering is not modelled, nor are the painter's hints, the image format and the result of `QImage::save`. Painting and saving are effects in a log.
- Signals, slots, `QTimer` and the event loop are not modelled as code. They appear as explicit event sequences delivered in order, and `finished` quitting the application is the `Finished` effect.
- `QUrl` parsing, `QUrl::fromLocalFile`, `QFile::exists` and `QString::toInt` are oracles given as parameters. Their results are not modelled.
- Characters are assumed to be Latin-1, since the argument reaches the code through `QString::fromLatin1`. Case and white space follow Qt for that range only.
- Capture.Initial: the source's constructor leaves the scale, size, pause and load result uninitialised. The model starts them at 0 / false. The file name is an empty string, as a default-constructed `QString` is. `load` always sets them before they are read.
- The unsigned maximum flag lengths are natural numbers in the model. A flag of 2^32 characters is out of scope.
- The `default:` branch of the action switch cannot be reached with the three actions, so it is left out.
- The destructors, the copy assignment of the parser in `main`, the debug block and the commented-out older `main` are not modelled.
- The header comment says `-h` is the built-in help flag. The code uses `-?`, and `main` registers `-h` for the height. The model follows the code.
- A missing URL is sometimes described as an error exiting with 1. The code calls `help()`, which exits with 0, and the model follows the code.

## Findings

| source | as written | input that shows it | evidently intended | confidence | as-written member | corrected member |
|---|---|---|---|---|---|---|
| webcapture.cpp:92 | `m_pause = pause * 1000` is an `int` product that overflows for pauses above 2147483 seconds | `-p 536870912` gives a delay of 0 ms, so the image is saved at once; `-p 2147484` gives a negative delay | the pause in milliseconds, with the sign of the request kept, saturating at the `int` range | not executed | Capture.WrappedPauseLosesDelay | Capture.PauseMillis |
