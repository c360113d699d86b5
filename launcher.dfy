/** The top level of alive-server.js as the script runs it: one options
    object built from the defaults, updated in place by the config files,
    the normalisation, the reverse loop over the command line and the path
    patch.  Each step is proved to compute what the specification functions
    of `Resolution` say. */
module Launcher {
  import opened JsValues
  import opened Text
  import opened FlagGrammar
  import opened Resolution

  class OptionResolver {
    /** The options object. */
    var opts: Opts
    /** Shutdown timers scheduled by `--test`. */
    var shutdownTimers: nat

    /** The defaults literal, with `host` and `port` from the environment. */
    constructor (ip: Option<string>, port: Option<string>)
      ensures opts == Defaults(ip, port) && shutdownTimers == 0
    {
      opts := Defaults(ip, port);
      shutdownTimers := 0;
    }

    /** `assign(opts, parsed)` for a config file, when one was found. */
    method MergeConfig(file: Option<Opts>)
      modifies this
      ensures opts == Layer(old(opts), file)
      ensures shutdownTimers == old(shutdownTimers)
      ensures forall k :: k in old(opts) ==> k in opts
    {
      if file.Some? {
        opts := opts + file.value;
      }
    }

    /** Compile `ignorePattern` and split string `ignore`/`watch` values. */
    method NormalizeLists()
      modifies this
      ensures opts == Normalize(old(opts))
      ensures shutdownTimers == old(shutdownTimers)
    {
      hide Split, Strs;
      if Truthy(Lookup(opts, "ignorePattern")) {
        opts := opts["ignorePattern" := Regex(opts["ignorePattern"])];
      }
      ghost var compiled := opts;
      var ignore := Lookup(opts, "ignore");
      if ignore.Str? && ignore.s != [] {
        opts := opts["ignore" := Arr(Strs(Split(ignore.s)))];
      }
      assert opts == SplitIfString(compiled, "ignore");
      var watch := Lookup(opts, "watch");
      if watch.Str? && watch.s != [] {
        opts := opts["watch" := Arr(Strs(Split(watch.s)))];
      }
    }

    /** The body of the loop for one token: update the one property its
        branch writes, count a `--test` timer, or stop. */
    method ApplyToken(arg: string, pf: Platform) returns (r: Run)
      modifies this
      ensures r == ApplyArg(old(opts), old(shutdownTimers), arg, pf)
      ensures r.Running? ==> opts == r.opts && shutdownTimers == r.timers
    {
      var f := Classify(arg);
      match Target(f)
      case Some(key) => {
        match UpdateFor(f, Lookup(opts, key), pf)
        case Set(v) =>
          opts := opts[key := v];
          r := Running(opts, shutdownTimers);
        case Keep =>
          r := Running(opts, shutdownTimers);
        case Fail(fault) =>
          r := Crashed(fault);
      }
      case None =>
        if f == Version {
          r := Exited(ShowVersion);
        } else if f == Help {
          r := Exited(ShowHelp);
        } else if f == Test {
          shutdownTimers := shutdownTimers + 1;
          r := Running(opts, shutdownTimers);
        } else {
          r := Running(opts, shutdownTimers);
        }
    }

    /** The loop from the last token down to index 2; it ends early when a
        token exits or crashes. */
    method ParseArgs(argv: seq<string>, pf: Platform) returns (r: Run)
      modifies this
      ensures r == Scan(Running(old(opts), old(shutdownTimers)), argv, |argv|, pf)
      ensures r.Running? ==> opts == r.opts && shutdownTimers == r.timers
    {
      hide Classify, ApplyFlag;
      r := Running(opts, shutdownTimers);
      var i := |argv| - 1;
      while i >= 2 && r.Running?
        invariant -1 <= i < |argv|
        invariant r.Running? ==> r == Running(opts, shutdownTimers)
        invariant Scan(r, argv, i + 1, pf) == Scan(Running(old(opts), old(shutdownTimers)), argv, |argv|, pf)
        decreases i
      {
        r := ApplyToken(argv[i], pf);
        i := i - 1;
      }
    }

    /** Set `root` and rewrite `watch`, then `ignore`, against it. */
    method PatchPaths(argv: seq<string>, join: (string, string) -> string) returns (r: Run)
      modifies this
      ensures r == Patch(old(opts), old(shutdownTimers), argv, join)
      ensures r.Running? ==> opts == r.opts
      ensures shutdownTimers == old(shutdownTimers)
    {
      var dir := Root(argv);
      opts := opts["root" := Str(dir)];
      r := Rebase("watch", dir, join);
      if r.Running? {
        r := Rebase("ignore", dir, join);
      }
    }

    /** `if (opts[key]) opts[key] = opts[key].map(p => path.join(dir, p))`. */
    method Rebase(key: string, dir: string, join: (string, string) -> string) returns (r: Run)
      modifies this
      ensures r == Commit(old(opts), shutdownTimers, key, PatchUpdate(Lookup(old(opts), key), key, dir, join))
      ensures r.Running? ==> opts == r.opts
      ensures shutdownTimers == old(shutdownTimers)
    {
      match PatchUpdate(Lookup(opts, key), key, dir, join)
      case Set(v) =>
        opts := opts[key := v];
        r := Running(opts, shutdownTimers);
      case Keep =>
        r := Running(opts, shutdownTimers);
      case Fail(fault) =>
        r := Crashed(fault);
    }
  }

  /** The script from the defaults to the object handed to
      `liveServer.start`: the user's config file, then the project's, then
      normalisation, the command line and the path patch. */
  method Start(
    ip: Option<string>, port: Option<string>,
    user: Option<Opts>, project: Option<Opts>,
    argv: seq<string>, pf: Platform) returns (r: Run)
    ensures r == Resolve(ip, port, user, project, argv, pf)
  {
    var resolver := new OptionResolver(ip, port);
    resolver.MergeConfig(user);
    resolver.MergeConfig(project);
    resolver.NormalizeLists();
    r := resolver.ParseArgs(argv, pf);
    if r.Running? {
      r := resolver.PatchPaths(argv, pf.join);
    }
  }
}
