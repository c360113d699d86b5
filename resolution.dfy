/** The option resolution pipeline of alive-server.js as specification
    functions: defaults, config layers, string-to-list normalisation, the
    effect of each command-line flag, the reverse scan over the tokens and
    the final path patch. */
module Resolution {
  import opened JsValues
  import opened Text
  import opened FlagGrammar

  /** Why the scan stopped early with a clean exit. */
  datatype Halt = ShowVersion | ShowHelp

  /** The uncaught exceptions the script can raise while resolving options. */
  datatype Fault =
    | NoRouteMatch(key: string)   // `match[2]` read from a null match
    | NotAnArray(key: string)     // `push` or `map` on a value that is not an array
    | NullMimetypes               // `assign(null, ...)` on a null `mimetypes`
    | MalformedJson               // `JSON.parse` of the `--mimetypes=` text throws
    | NotAString(key: string)     // `path.join` given a non-string entry

  /** State of a run: still resolving (the options object and the number of
      shutdown timers `--test` has scheduled), exited, or crashed. */
  datatype Run = Running(opts: Opts, timers: nat) | Exited(why: Halt) | Crashed(fault: Fault)

  /** What the script takes from its surroundings: `path.resolve` against
      the working directory, `path.join`, and `JSON.parse` of an object text
      (None when it throws). */
  datatype Platform = Platform(
    resolve: string -> string,
    join: (string, string) -> string,
    parseJson: string -> Option<map<string, Value>>)

  /** The effect of one branch on the one property it writes. */
  datatype Update = Set(v: Value) | Keep | Fail(fault: Fault)

  /** The run after a branch has made its update to `key`. */
  function Commit(o: Opts, t: nat, key: string, u: Update): Run {
    match u
    case Set(v) => Running(o[key := v], t)
    case Keep => Running(o, t)
    case Fail(f) => Crashed(f)
  }

  // ---------------------------------------------------------------------
  // Defaults and config layers
  // ---------------------------------------------------------------------

  /** An environment variable: a string, or undefined when it is unset. */
  function EnvValue(v: Option<string>): Value {
    match v
    case Some(s) => Str(s)
    case None => Undefined
  }

  /** The literal options object, with `host` and `port` from the
      environment variables IP and PORT. */
  function Defaults(ip: Option<string>, port: Option<string>): Opts {
    map[
      "host" := EnvValue(ip),
      "port" := EnvValue(port),
      "open" := Bool(true),
      "mount" := Arr([]),
      "proxy" := Arr([]),
      "middleware" := Arr([]),
      "index" := Str("index.html"),
      "logLevel" := Num(2)
    ]
  }

  /** `assign(opts, parsed)` for a config file that exists (shallow: every
      top-level key of the file replaces the same key). */
  function Layer(o: Opts, file: Option<Opts>): Opts {
    match file
    case None => o
    case Some(m) => o + m
  }

  /** A non-empty string property becomes the list of its comma pieces. */
  function SplitIfString(o: Opts, key: string): Opts {
    match Lookup(o, key)
    case Str(s) => if s != [] then o[key := Arr(Strs(Split(s)))] else o
    case _ => o
  }

  /** The post-config normalisation: a truthy `ignorePattern` is compiled,
      and string `ignore` and `watch` values are split on commas. */
  function Normalize(o: Opts): Opts {
    var compiled :=
      if Truthy(Lookup(o, "ignorePattern")) then o["ignorePattern" := Regex(o["ignorePattern"])]
      else o;
    SplitIfString(SplitIfString(compiled, "ignore"), "watch")
  }

  // ---------------------------------------------------------------------
  // The effect of one flag
  // ---------------------------------------------------------------------

  /** `push(item)` on the current value of `key`. */
  function Push(cur: Value, item: Value, key: string): Update {
    match cur
    case Arr(xs) => Set(Arr(xs + [item]))
    case _ => Fail(NotAnArray(key))
  }

  /** The `--open=` switch on `typeof opts.open`: a boolean becomes the
      string, a string becomes a two-element list, a list grows, and any
      other object (null included) has no `push`; numbers and undefined fall
      through the switch unchanged. */
  function NextOpen(cur: Value, v: string): Update {
    match cur
    case Bool(_) => Set(Str(v))
    case Str(s) => Set(Arr([Str(s), Str(v)]))
    case Arr(xs) => Set(Arr(xs + [Str(v)]))
    case Null => Fail(NotAnArray("open"))
    case Obj(_) => Fail(NotAnArray("open"))
    case Regex(_) => Fail(NotAnArray("open"))
    case Num(_) => Keep
    case Undefined => Keep
  }

  /** `--mount=`/`--proxy=`: split the text, crash on a null match, and push
      the pair (route, target), the target passed through `finish`. */
  function RouteUpdate(cur: Value, x: string, key: string, finish: string -> string): Update {
    match RouteMatch(x)
    case None => Fail(NoRouteMatch(key))
    case Some((route, target)) => Push(cur, Arr([Str(route), Str(finish(target))]), key)
  }

  /** `--mimetypes=`: parse the text with quotes normalised, then merge into
      the current value when it is a non-array object, else into `{}`. */
  function MimetypesUpdate(cur: Value, text: string, parse: string -> Option<map<string, Value>>): Update {
    match parse(ReplaceQuotes(text))
    case None => Fail(MalformedJson)
    case Some(parsed) =>
      match cur
      case Obj(m) => Set(Obj(m + parsed))
      case Null => Fail(NullMimetypes)
      case _ => Set(Obj(parsed))
  }

  /** The property a flag's branch writes, if any. */
  function Target(f: Flag): Option<string> {
    match f
    case Port(_) => Some("port")
    case HostName(_) => Some("host")
    case Open(_) => Some("open")
    case Watch(_) => Some("watch")
    case Ignore(_) => Some("ignore")
    case IgnorePattern(_) => Some("ignorePattern")
    case NoCssInject => Some("noCssInject")
    case NoBrowser => Some("open")
    case Browser(_) => Some("browser")
    case EntryFile(_) => Some("file")
    case Spa => Some("middleware")
    case Quiet => Some("logLevel")
    case Verbose => Some("logLevel")
    case Mount(_) => Some("mount")
    case Wait(_) => Some("wait")
    case Htpasswd(_) => Some("htpasswd")
    case Cors => Some("cors")
    case Https(_) => Some("https")
    case HttpsModule(_) => Some("httpsModule")
    case Proxy(_) => Some("proxy")
    case Middleware(_) => Some("middleware")
    case Mimetypes(_) => Some("mimetypes")
    case Index(_) => Some("index")
    case _ => None
  }

  /** The properties whose new value depends on their old one. */
  predicate Accumulating(key: string) {
    key == "open" || key == "mount" || key == "proxy" || key == "middleware" || key == "mimetypes"
  }

  /** For a branch that assigns a value independent of the current options,
      the value it assigns (None when its guard leaves the property alone). */
  function Assignment(f: Flag): Option<Value> {
    match f
    case Port(s) => (match StrictInt(s) case Some(n) => Some(Num(n)) case None => None)
    case HostName(s) => Some(Str(s))
    case Watch(s) => Some(Arr(Strs(Split(s))))
    case Ignore(s) => Some(Arr(Strs(Split(s))))
    case IgnorePattern(s) => Some(Regex(Str(s)))
    case NoCssInject => Some(Bool(true))
    case NoBrowser => Some(Bool(false))
    case Browser(s) => Some(Arr(Strs(Split(s))))
    case EntryFile(s) => if s != [] then Some(Str(s)) else None
    case Quiet => Some(Num(0))
    case Verbose => Some(Num(3))
    case Wait(s) => (match StrictInt(s) case Some(n) => Some(Num(n)) case None => None)
    case Htpasswd(s) => Some(Str(s))
    case Cors => Some(Bool(true))
    case Https(s) => Some(Str(s))
    case HttpsModule(s) => Some(Str(s))
    case Index(s) => Some(Str(s))
    case _ => None
  }

  /** The update a writing branch makes to its target's current value. */
  function UpdateFor(f: Flag, cur: Value, pf: Platform): Update {
    match f
    case Open(v) => NextOpen(cur, v)
    case Spa => Push(cur, Str("spa"), "middleware")
    case Middleware(v) => Push(cur, Str(v), "middleware")
    case Mount(x) => RouteUpdate(cur, x, "mount", pf.resolve)
    case Proxy(x) => RouteUpdate(cur, x, "proxy", t => t)
    case Mimetypes(x) => MimetypesUpdate(cur, x, pf.parseJson)
    case _ =>
      match Assignment(f)
      case Some(v) => Set(v)
      case None => Keep
  }

  /** One branch of the loop body. */
  function ApplyFlag(o: Opts, t: nat, f: Flag, pf: Platform): Run {
    match Target(f)
    case Some(key) => Commit(o, t, key, UpdateFor(f, Lookup(o, key), pf))
    case None =>
      match f
      case Version => Exited(ShowVersion)
      case Help => Exited(ShowHelp)
      case Test => Running(o, t + 1)
      case _ => Running(o, t)
  }

  /** The loop body for one token. */
  function ApplyArg(o: Opts, t: nat, arg: string, pf: Platform): Run {
    ApplyFlag(o, t, Classify(arg), pf)
  }

  /** The loop `for (i = argv.length - 1; i >= 2; --i)`: the tokens below
      index `hi` are applied from `argv[hi - 1]` down to `argv[2]`. */
  function Scan(r: Run, argv: seq<string>, hi: nat, pf: Platform): Run
    requires hi <= |argv|
    decreases hi
  {
    if hi <= 2 || !r.Running? then r
    else Scan(ApplyArg(r.opts, r.timers, argv[hi - 1], pf), argv, hi - 1, pf)
  }

  // ---------------------------------------------------------------------
  // Path patch and the whole pipeline
  // ---------------------------------------------------------------------

  /** `process.argv[2] || ""`. */
  function Root(argv: seq<string>): string {
    if |argv| > 2 then argv[2] else ""
  }

  /** `items.map(p => path.join(dir, p))`, None when an entry is not a string. */
  function JoinAll(dir: string, items: seq<Value>, join: (string, string) -> string): (r: Option<seq<Value>>)
    ensures r.Some? <==> forall i :: 0 <= i < |items| ==> items[i].Str?
    ensures r.Some? ==> |r.value| == |items|
    ensures r.Some? ==> forall i :: 0 <= i < |items| ==> r.value[i] == Str(join(dir, items[i].s))
  {
    if items == [] then Some([])
    else if !items[0].Str? then None
    else match JoinAll(dir, items[1..], join)
      case None => None
      case Some(rest) => Some([Str(join(dir, items[0].s))] + rest)
  }

  /** `if (opts[key]) opts[key] = opts[key].map(...)`. */
  function PatchUpdate(cur: Value, key: string, dir: string, join: (string, string) -> string): Update {
    if !Truthy(cur) then Keep
    else match cur
      case Arr(xs) =>
        (match JoinAll(dir, xs, join)
         case Some(ys) => Set(Arr(ys))
         case None => Fail(NotAString(key)))
      case _ => Fail(NotAnArray(key))
  }

  /** Set `root`, then rewrite `watch` and `ignore` relative to it. */
  function Patch(o: Opts, t: nat, argv: seq<string>, join: (string, string) -> string): Run {
    var dir := Root(argv);
    var rooted := o["root" := Str(dir)];
    match Commit(rooted, t, "watch", PatchUpdate(Lookup(rooted, "watch"), "watch", dir, join))
    case Running(watched, _) =>
      Commit(watched, t, "ignore", PatchUpdate(Lookup(watched, "ignore"), "ignore", dir, join))
    case stopped => stopped
  }

  /** The options object handed to `liveServer.start`, or how the script
      ended before reaching it. */
  function Resolve(
    ip: Option<string>, port: Option<string>,
    user: Option<Opts>, project: Option<Opts>,
    argv: seq<string>, pf: Platform): Run
  {
    var o := Normalize(Layer(Layer(Defaults(ip, port), user), project));
    match Scan(Running(o, 0), argv, |argv|, pf)
    case Running(scanned, t) => Patch(scanned, t, argv, pf.join)
    case stopped => stopped
  }
}
