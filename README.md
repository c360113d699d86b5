# alive-server option resolution, modelled in Dafny

The command-line entry point of alive-server builds one options object before
it hands it to the server. The steps are:

1. It starts from a literal set of defaults.
2. It layers the user's and then the project's `.alive-server.json` on top, one top-level key at a time.
3. It compiles `ignorePattern` and splits comma-joined `ignore`/`watch` strings.
4. It walks the command line from the last token back to index 2, applying one branch of a long if-chain per token.
5. It sets `root` to the first token after the script and joins every `watch`/`ignore` entry onto it.

This project models that pipeline and proves what it does.

Modules:

- **`JsValues`** (`values.dfy`): JavaScript values as the resolver sees them. The options object is a `map<string, Value>`, and a missing property reads as `undefined`.
- **`Text`** (`text.dfy`): the string operations the resolver calls:
  - `indexOf`, `substring`, `split(",")`;
  - the `parseInt(S, 10) === +S` guard;
  - `replace(/'/g, '"')`;
  - the route splitter `match(/([^:]+):(.+)$/)`.
- **`FlagGrammar`** (`flags.dfy`): which branch of the if-chain a token selects, and the value that branch extracts.
  - Valued flags are recognised by substring containment, not by prefix.
  - The value is the token minus a fixed number of leading characters.
  - The first branch that passes wins.
  - The chain is proved equal to a table form of the chain: the first rule of a rule table, in source order, that the token passes.
- **`Resolution`** (`resolution.dfy`): the specification functions.
  - `Defaults`, `Layer`, `Normalize`.
  - `ApplyFlag`/`ApplyArg`, which is one loop iteration.
  - `Scan`, which is the reverse loop.
  - `Patch` and `Resolve`, which is the whole pipeline.
  - A run ends `Running(opts, timers)`, `Exited` (help, version) or `Crashed(fault)`. A crash is an uncaught `TypeError`/`SyntaxError` of the script.
- **`ScanProperties`** (`scan_properties.dfy`): what the reverse scan guarantees.
  - Each token writes one property.
  - The earliest scalar assignment wins.
  - Appended lists come out in reverse invocation order.
  - The `open` state machine and the earliest `--no-browser`.
  - Mimetypes merging.
  - Help and version hide every earlier token.
  - One timer per `--test`.
- **`PipelineProperties`** (`pipeline_properties.dfy`): config precedence, normalisation, the path patch, and whole runs on small invocations.
- **`Launcher`** (`launcher.dfy`): the script as it runs.
  - A class `OptionResolver` holds the options object and the timer count and updates them in place.
  - Its methods, including the reverse `while` loop, are proved to compute the specification functions above.
  - `Start` chains them and is proved equal to `Resolve`.

Two behaviours of the code that a reader of the usage text might not expect, both modelled as the code has them:

- **`--no-browser` and earlier `--open=` flags.** `--no-browser` does not override an `--open=` that appears *earlier* in the invocation. The scan reaches that `--open=` later and turns `false` into the string, so `open` becomes `"a"` for `site --open=a --no-browser`. `OpenFollowsStateMachine` states the exact rule and `NoBrowserYieldsToEarlierOpen` shows the example.
- **The token after the script.** It goes through the flag chain like any other token, and it also becomes `root`. With `--port=80` in that position, `port` is 80 and `root` is `"--port=80"` (`RootTakesFlagToken`).

## Model

| member | source | states |
|---|---|---|
| Text.IndexOfFrom | alive-server.js:40 | `indexOf` returns -1 or the first position at or after the start where the flag text occurs; no occurrence lies before it |
| Text.IndexOfFindsOccurrence | alive-server.js:40 | `indexOf(p) > -1` holds exactly when `p` occurs somewhere in the token |
| Text.Substring | alive-server.js:41 | `substring(n)` is the token with its first `n` characters dropped, or empty when the token is shorter |
| Text.Split | alive-server.js:66 | `split(",")` yields at least one piece, one more than the commas, and no piece holds a comma |
| Text.JoinSplit | alive-server.js:32 | joining the pieces of a split with commas gives the text back |
| Text.SplitJoin | alive-server.js:66 | splitting a comma-join of comma-free pieces gives the pieces back (empty pieces are kept) |
| Text.StrictInt | alive-server.js:42-43 | the port/wait guard accepts exactly an optionally signed, non-empty run of decimal digits |
| Text.StrictIntRoundTrip | alive-server.js:42-44 | every integer's decimal text passes the guard with its own value |
| Text.StrictIntExamples | alive-server.js:107-110 | `80` and `-5` pass; `12px`, `8o80`, the empty text and a lone sign are rejected |
| Text.ReplaceQuotes | alive-server.js:140 | every single quote becomes a double quote, nothing else changes, and no single quote is left |
| Text.RouteMatchShape | alive-server.js:102 | a match gives a non-empty, colon-free route and a non-empty target without line terminators, which end the text as `route:target` |
| Text.RouteMatchIsSplitRoute | alive-server.js:101-102 | on one-line text, the regex split equals the reference: skip leading colons, then split at the first colon, with both parts non-empty |
| Text.RouteMatchJoined | alive-server.js:101-104 | `route:target` with a non-empty colon-free route (line terminators allowed) and a non-empty one-line target splits back into exactly that route and target |
| Text.MultiLineRouteExample | alive-server.js:101-102 | a line terminator inside the route does not stop the split: `a\nb:c` gives route `a\nb` and target `c` |
| Text.MountSplitExample | alive-server.js:99-104 | a Windows drive path keeps its colon in the mount target |
| Text.ProxySplitExample | alive-server.js:130-133 | a proxy URL keeps its scheme and port colons in the target |
| Text.EmptyTargetExample | alive-server.js:102-103 | `route:` has no match, the case in which the script crashes |
| FlagGrammar.ClassifyIsFirstRule | alive-server.js:39-154 | the if-chain selects the first rule of the table, in source order, that the token passes |
| FlagGrammar.ValueIsSuffix | alive-server.js:40-145 | each valued branch's fixed `substring` offset equals the length of the flag text it tests |
| FlagGrammar.InfixExample | alive-server.js:47-48 | containment, not prefix: `x--host=a` selects the host branch with value `=a` |
| FlagGrammar.OpenToken | alive-server.js:50-51 | `--open=v` with no `--` in `v` selects the open branch with value `v` |
| FlagGrammar.MountToken | alive-server.js:99-101 | `--mount=v` with no `--` in `v` (hyphens allowed) selects the mount branch with value `v` |
| FlagGrammar.ProxyToken | alive-server.js:130-132 | `--proxy=v` with no `--` in `v` (hyphens allowed) selects the proxy branch with value `v` |
| FlagGrammar.NoBrowserToken | alive-server.js:78-79 | `--no-browser` selects its switch |
| FlagGrammar.DashFreeUnmatched | alive-server.js:38-155 | every token without a dash, of any length (a directory name such as `project`), selects no branch |
| FlagGrammar.NoValueWithoutEquals | alive-server.js:40-144 | a token without `=` passes no containment test |
| Resolution.JoinAll | alive-server.js:161-163 | the `map` succeeds exactly when every entry is a string, and then keeps the length and joins each entry onto the root |
| ScanProperties.StepTouchesOnlyTarget | alive-server.js:38-155 | one iteration exits exactly on help/version, counts a timer only for `--test`, and leaves every property other than its branch's target unchanged |
| ScanProperties.PortFlag | alive-server.js:40-46 | `--port=s` sets `port` to the integer when `s` passes the guard, and otherwise changes nothing |
| ScanProperties.StepAssigns | alive-server.js:40-146 | a scalar branch replaces its target with the value it assigns |
| ScanProperties.FirstWriteIsEarliest | alive-server.js:38 | the reference picks the assignment of the earliest assigning token in invocation order, and finds one exactly when some token assigns |
| ScanProperties.FirstOccurrenceWins | alive-server.js:38-155 | after the reverse loop every non-accumulating property holds the value of its earliest assignment in the invocation, or its old value |
| ScanProperties.StepAppends | alive-server.js:90-92 | an append branch adds its item at the end of its list |
| ScanProperties.AppendsInReverse | alive-server.js:99-137 | `mount`, `proxy` and `middleware` end as their old items followed by the pushed items in reverse invocation order |
| ScanProperties.OpenFoldList | alive-server.js:59-61 | from a list, each `--open=` value is pushed at the end |
| ScanProperties.OpenAccumulates | alive-server.js:50-63 | from a boolean, no `--open=` value is lost: one gives the string, two or more give the list of all of them in order |
| ScanProperties.FirstNoBrowser | alive-server.js:78-80 | the position found is a `--no-browser` with none before it, or there is none at all |
| ScanProperties.StepOpen | alive-server.js:50-80 | `--no-browser` sets `open` to false, `--open=` moves it one step of the state machine, other tokens leave it |
| ScanProperties.OpenFollowsStateMachine | alive-server.js:50-80 | final `open`: the earliest `--no-browser` resets it to false, and the `--open=` values before it in the invocation are applied in reverse from there |
| ScanProperties.StepMimetypes | alive-server.js:138-143 | only `--mimetypes=` touches `mimetypes`, by one merge step |
| ScanProperties.MimetypesFollowFold | alive-server.js:138-143 | the loop merges the `--mimetypes=` objects from the last token to the first |
| ScanProperties.MimeFoldLastWins | alive-server.js:141-142 | merging into an object gives each key the value of the last object merged that defines it, or its old value |
| ScanProperties.MimeFreshStart | alive-server.js:141 | from a `mimetypes` that is unset or not a plain object (and not null), merging starts from `{}` |
| ScanProperties.MimeFoldFromUnset | alive-server.js:138-142 | merging into an unset `mimetypes` gives an object holding exactly the keys the texts define, each with the value of the last text that defines it |
| ScanProperties.MimeTwoTypesExample | alive-server.js:138-142 | two texts defining `a/b` and `c/d`, merged into an unset value, keep both types |
| ScanProperties.RouteStep | alive-server.js:99-134 | `--mount=`/`--proxy=` crash exactly on a null match, then exactly when the list is not an array, and otherwise push (route, target), the mount target resolved |
| ScanProperties.MiddlewareStep | alive-server.js:90-137 | `--spa` and `--middleware=` crash exactly when `middleware` is not an array, and otherwise push their item |
| ScanProperties.OpenStep | alive-server.js:50-63 | `--open=` crashes exactly when `open` is null, a plain object or a compiled pattern, and never exits |
| ScanProperties.MimetypesStep | alive-server.js:138-143 | `--mimetypes=` crashes exactly on text that does not parse, then exactly on a null `mimetypes`, and otherwise stores the merge into the old object or into `{}` |
| ScanProperties.RouteTokenCrashes | alive-server.js:99-134 | for every `v` without `--` (single hyphens allowed), a `--mount=v` or `--proxy=v` token crashes on a null match exactly when `v` has no `route:target` split |
| ScanProperties.ProxyHyphenExample | alive-server.js:130-134 | `--proxy=/api:http://my-host:1234` pushes `/api` with the hyphenated URL as its target |
| ScanProperties.MountWithoutTargetCrashes | alive-server.js:99-103 | `--mount=/a:` crashes whatever the options hold |
| ScanProperties.ExitHidesEarlierTokens | alive-server.js:113-117 | a help or version token ends the run (exit, or an earlier crash), and the tokens before it are never read |
| ScanProperties.OneTimerPerTestToken | alive-server.js:151-154 | every `--test` token schedules exactly one shutdown timer |
| PipelineProperties.LayerPrecedence | alive-server.js:21-29 | the project file beats the user file, which beats the defaults, key by key |
| PipelineProperties.NormalizeSpec | alive-server.js:30-36 | a non-empty string `ignore`/`watch` becomes its comma pieces, a truthy `ignorePattern` is compiled, and nothing else changes |
| PipelineProperties.NormalizedPiecesRejoin | alive-server.js:31-36 | the pieces join back to the configured text, number one more than its commas, and hold no comma |
| PipelineProperties.PatchUpdateSpec | alive-server.js:160-169 | the patch of one list crashes exactly when the value is truthy but not a list of strings, and otherwise rebases it or skips it |
| PipelineProperties.PatchSpec | alive-server.js:157-169 | `root` is set, `watch` then `ignore` are rebased onto it, and nothing else changes; it crashes exactly when one of the two is truthy but not a list of strings, on `watch` first |
| PipelineProperties.ResolvedRoot | alive-server.js:158 | `root` is the first token after the script, or empty |
| PipelineProperties.NormalizeDefaults | alive-server.js:8-17 | the defaults hold nothing that normalisation rewrites |
| PipelineProperties.DefaultsWhenNothingGiven | alive-server.js:8-17 | with no config and no arguments the result is the defaults with an empty `root` |
| PipelineProperties.ResolveWithoutConfig | alive-server.js:21-36 | without config files the scan starts from the defaults as written |
| PipelineProperties.PatchRootOnly | alive-server.js:158-169 | when `watch` and `ignore` are unset the patch only sets `root` |
| PipelineProperties.RepeatedOpenReversed | alive-server.js:50-58 | `site --open=a --open=b` gives `open` the list `["b", "a"]` |
| PipelineProperties.ScanOpenTwice | alive-server.js:50-58 | the scan alone turns `open: true` into `["b", "a"]` for those tokens |
| PipelineProperties.NoBrowserYieldsToEarlierOpen | alive-server.js:50-80 | `site --open=a --no-browser` gives `open` the string `"a"` |
| PipelineProperties.ScanOpenAfterNoBrowser | alive-server.js:50-80 | the scan alone sets `open` to false and then to `"a"` for those tokens |
| PipelineProperties.RootTakesFlagToken | alive-server.js:40-46 | with `--port=80` as the first token, `port` is 80 and `root` is `"--port=80"` |
| PipelineProperties.ScanPortToken | alive-server.js:40-46 | the scan alone sets `port` to 80 for that token |
| Launcher.OptionResolver.constructor | alive-server.js:8-17 | the options object starts as the defaults, with no timers |
| Launcher.OptionResolver.MergeConfig | alive-server.js:21-29 | one config file's keys are assigned over the options, and no key is lost |
| Launcher.OptionResolver.NormalizeLists | alive-server.js:30-36 | the in-place normalisation computes `Normalize` |
| Launcher.OptionResolver.ApplyToken | alive-server.js:39-154 | the in-place loop body computes one step of `Scan`, and the object holds the new options |
| Launcher.OptionResolver.ParseArgs | alive-server.js:38-155 | the reverse loop computes `Scan` over all tokens from the last down to index 2 |
| Launcher.OptionResolver.Rebase | alive-server.js:160-169 | the in-place `map` over one list computes its patch step |
| Launcher.OptionResolver.PatchPaths | alive-server.js:157-169 | the in-place patch computes `Patch` and leaves the timer count unchanged |
| Launcher.Start | alive-server.js:8-171 | the whole script computes `Resolve`, the object given to the server or how the run ended |

Generic helpers such as `ScanProperties.ReverseAppend` (reversing `s + [x]` puts `x` first) and `Resolution.Commit` (the run after a branch's update) carry no row.

The specification functions have no contracts of their own. The lemmas and
methods above state their properties. The functions are:

- `Resolution.Defaults` (alive-server.js:8-17);
- `Resolution.Layer` (21-29);
- `Resolution.Normalize` (30-36);
- `FlagGrammar.Branch` and `FlagGrammar.Classify` (38-154), with the rule table `FlagGrammar.Rule`;
- `Resolution.ApplyFlag` (39-154), with:
  - `NextOpen` (52-62);
  - `RouteUpdate` (99-105, 130-134);
  - `MimetypesUpdate` (138-143);
- `Resolution.Scan` (38-155);
- `Resolution.Patch` (157-169);
- `Resolution.Resolve` (8-171).

## Left out

- Reading files, `JSON.parse` of the config files, the `HOME`/`USERPROFILE` lookup and `process.cwd()` are not modelled. The two config files arrive as already-parsed maps, or as absent, and `IP`/`PORT` arrive as optional strings.
- `path.resolve` (mount targets), `path.join` (patch) and `JSON.parse` of a `--mimetypes=` text are parameters of the model. They are the fields of `Resolution.Platform`, not implementations.
- `new RegExp` is kept as a tag holding its source value. A pattern that fails to compile is not modelled.
- `console.log`, `process.exit`, `require("./package.json")`, `setTimeout(liveServer.shutdown, 500)` and `liveServer.start` are not modelled. Help and version become `Exited`, and `--test` becomes a timer count.
- Text.StrictInt: floating point is not modelled. JavaScript's guard `parseInt(S, 10) === +S` accepts every text whose Number value equals the value of its leading sign and digits, so it also accepts:
  - whitespace-padded texts such as ` 80 `;
  - fractional zeros such as `8.`, `8.0` and `8.00`;
  - exponent forms whose value is unchanged, such as `80e0` and `0e5`;
  - `0x0`, `0b0` and `0o0`, where both sides are 0.

  The model rejects all of these. It accepts texts with more digits than a double holds exactly, at their exact value, where JavaScript stores the rounded double, and a digit run too long for a double makes JavaScript store `Infinity`. It stores `-0` as 0.
- Text.Substring: Dafny strings count Unicode scalar values, while JavaScript's `substring` and `indexOf` count UTF-16 code units. Offsets therefore differ from JavaScript when a character outside the Basic Multilingual Plane precedes them: for `\u{1F600}--host=a` JavaScript sets `host` to `t=a`, where the model gives `=a`. Lone surrogates cannot be represented.
- `Resolution.MimetypesUpdate`: a `mimetypes` value that is a compiled regular expression is treated as a non-object, so it is replaced by a fresh object instead of having the parsed keys assigned onto it.
- A `--mimetypes=` text that parses to a JSON value other than an object is not modelled. The parser parameter either yields an object or fails.
- Config-file values are JSON values. Numbers are modelled as integers only, because no branch of the resolver reads a fractional number.
