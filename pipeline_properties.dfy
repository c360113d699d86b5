/** Properties of the stages around the scan: config layering, the
    string-to-list normalisation, the final path patch, and whole runs of
    the pipeline on small invocations. */
module PipelineProperties {
  import opened JsValues
  import opened Text
  import opened FlagGrammar
  import opened Resolution
  import opened ScanProperties

  // ---------------------------------------------------------------------
  // Config layers
  // ---------------------------------------------------------------------

  /** The project file beats the user file, which beats the defaults, key by
      key: each top-level key takes the value of the last layer holding it. */
  lemma LayerPrecedence(d: Opts, user: Option<Opts>, project: Option<Opts>, key: string)
    ensures Lookup(Layer(Layer(d, user), project), key) ==
      if project.Some? && key in project.value then project.value[key]
      else if user.Some? && key in user.value then user.value[key]
      else Lookup(d, key)
  {
  }

  // ---------------------------------------------------------------------
  // Normalisation
  // ---------------------------------------------------------------------

  /** How normalisation leaves `ignore` or `watch`: a non-empty string
      becomes the list of its comma pieces, anything else is kept. */
  predicate SplitsTo(before: Value, after: Value) {
    if before.Str? && before.s != [] then after == Arr(Strs(Split(before.s)))
    else after == before
  }

  /** Normalisation splits non-empty `ignore`/`watch` strings into pieces
      that join back to the original text, compiles a truthy
      `ignorePattern`, and touches nothing else. */
  lemma NormalizeSpec(o: Opts)
    ensures var n := Normalize(o);
      && SplitsTo(Lookup(o, "ignore"), Lookup(n, "ignore"))
      && SplitsTo(Lookup(o, "watch"), Lookup(n, "watch"))
      && Lookup(n, "ignorePattern") ==
           (if Truthy(Lookup(o, "ignorePattern")) then Regex(Lookup(o, "ignorePattern"))
            else Lookup(o, "ignorePattern"))
      && forall k :: k != "ignore" && k != "watch" && k != "ignorePattern" ==>
           (k in n <==> k in o) && Lookup(n, k) == Lookup(o, k)
  {
    hide Split, Strs;
  }

  /** The pieces normalisation produces join back to the configured text,
      one more piece than there are commas, none holding a comma. */
  lemma NormalizedPiecesRejoin(o: Opts, key: string, s: string)
    requires key == "ignore" || key == "watch"
    requires Lookup(o, key) == Str(s) && s != []
    ensures Lookup(Normalize(o), key) == Arr(Strs(Split(s)))
    ensures Join(Split(s)) == s
    ensures |Split(s)| == Commas(s) + 1
    ensures forall i :: 0 <= i < |Split(s)| ==> ',' !in Split(s)[i]
  {
    NormalizeSpec(o);
    JoinSplit(s);
  }

  // ---------------------------------------------------------------------
  // The path patch
  // ---------------------------------------------------------------------

  /** What `opts[key].map(...)` accepts: a falsy value (skipped) or a list
      of strings. */
  predicate Joinable(v: Value) {
    !Truthy(v) || (v.Arr? && forall i :: 0 <= i < |v.items| ==> v.items[i].Str?)
  }

  /** `after` is `before` with every entry joined onto `dir`, or `before`
      itself when it is falsy. */
  predicate Rebased(before: Value, after: Value, dir: string, join: (string, string) -> string) {
    if !Truthy(before) then after == before
    else
      && before.Arr? && after.Arr?
      && |after.items| == |before.items|
      && forall i :: 0 <= i < |before.items| ==>
           before.items[i].Str? && after.items[i] == Str(join(dir, before.items[i].s))
  }

  lemma PatchUpdateSpec(cur: Value, key: string, dir: string, join: (string, string) -> string)
    ensures var u := PatchUpdate(cur, key, dir, join);
      && (u.Fail? <==> !Joinable(cur))
      && (u.Fail? ==> u.fault.key == key)
      && (u.Set? ==> Rebased(cur, u.v, dir, join))
      && (u.Keep? ==> !Truthy(cur))
  {
  }

  /** The patch sets `root` to the first token after the script, rewrites
      `watch` and then `ignore` against it, and changes nothing else; it
      crashes exactly when one of the two is truthy but not a list of
      strings, on `watch` first. */
  lemma PatchSpec(o: Opts, t: nat, argv: seq<string>, join: (string, string) -> string)
    ensures var r := Patch(o, t, argv, join);
      && (r.Running? <==> Joinable(Lookup(o, "watch")) && Joinable(Lookup(o, "ignore")))
      && (!Joinable(Lookup(o, "watch")) ==> r.Crashed? && r.fault.key == "watch")
      && (Joinable(Lookup(o, "watch")) && !Joinable(Lookup(o, "ignore")) ==>
            r.Crashed? && r.fault.key == "ignore")
      && (r.Running? ==>
            && r.timers == t
            && Lookup(r.opts, "root") == Str(Root(argv))
            && Rebased(Lookup(o, "watch"), Lookup(r.opts, "watch"), Root(argv), join)
            && Rebased(Lookup(o, "ignore"), Lookup(r.opts, "ignore"), Root(argv), join)
            && forall k :: k != "root" && k != "watch" && k != "ignore" ==>
                 (k in r.opts <==> k in o) && Lookup(r.opts, k) == Lookup(o, k))
  {
    var dir := Root(argv);
    var rooted := o["root" := Str(dir)];
    PatchUpdateSpec(Lookup(rooted, "watch"), "watch", dir, join);
    var w := Commit(rooted, t, "watch", PatchUpdate(Lookup(rooted, "watch"), "watch", dir, join));
    if w.Running? {
      PatchUpdateSpec(Lookup(w.opts, "ignore"), "ignore", dir, join);
    }
  }

  // ---------------------------------------------------------------------
  // Whole runs
  // ---------------------------------------------------------------------

  /** The root is the first token after the script, or empty. */
  lemma ResolvedRoot(ip: Option<string>, port: Option<string>, user: Option<Opts>, project: Option<Opts>, argv: seq<string>, pf: Platform)
    requires Resolve(ip, port, user, project, argv, pf).Running?
    ensures Lookup(Resolve(ip, port, user, project, argv, pf).opts, "root") ==
      Str(if |argv| > 2 then argv[2] else "")
  {
    hide Classify, ApplyFlag;
    var o := Normalize(Layer(Layer(Defaults(ip, port), user), project));
    var s := Scan(Running(o, 0), argv, |argv|, pf);
    PatchSpec(s.opts, s.timers, argv, pf.join);
  }

  /** With no config file and no arguments the server starts on the
      defaults, rooted at the working directory. */
  lemma DefaultsWhenNothingGiven(ip: Option<string>, port: Option<string>, argv: seq<string>, pf: Platform)
    requires |argv| <= 2
    ensures Resolve(ip, port, None, None, argv, pf) == Running(Defaults(ip, port)["root" := Str("")], 0)
  {
    hide Classify, ApplyFlag;
    ResolveWithoutConfig(ip, port, argv, pf);
  }

  /** The defaults hold nothing that normalisation rewrites. */
  lemma NormalizeDefaults(ip: Option<string>, port: Option<string>)
    ensures Normalize(Defaults(ip, port)) == Defaults(ip, port)
  {
    var d := Defaults(ip, port);
    assert "ignorePattern" !in d && "ignore" !in d && "watch" !in d;
  }

  /** Without config files the scan starts from the defaults as written. */
  lemma ResolveWithoutConfig(ip: Option<string>, port: Option<string>, argv: seq<string>, pf: Platform)
    ensures Resolve(ip, port, None, None, argv, pf) ==
      match Scan(Running(Defaults(ip, port), 0), argv, |argv|, pf)
      case Running(o, t) => Patch(o, t, argv, pf.join)
      case stopped => stopped
  {
    hide Classify, ApplyFlag, Defaults, Normalize, Scan, Patch;
    NormalizeDefaults(ip, port);
  }

  /** When neither `watch` nor `ignore` is set, the patch only sets `root`. */
  lemma PatchRootOnly(o: Opts, t: nat, argv: seq<string>, join: (string, string) -> string)
    requires !Truthy(Lookup(o, "watch")) && !Truthy(Lookup(o, "ignore"))
    ensures Patch(o, t, argv, join) == Running(o["root" := Str(Root(argv))], t)
  {
  }

  /** Two `--open=` flags: the later one is applied first, so the list comes
      out in reverse invocation order. */
  lemma RepeatedOpenReversed(ip: Option<string>, port: Option<string>, node: string, script: string, pf: Platform)
    ensures var r := Resolve(ip, port, None, None, [node, script, "site", "--open=a", "--open=b"], pf);
      r.Running? && Lookup(r.opts, "open") == Arr([Str("b"), Str("a")])
  {
    hide Classify, ApplyFlag, Normalize, Scan, Resolve, Patch;
    var argv := [node, script, "site", "--open=a", "--open=b"];
    var d := Defaults(ip, port);
    ResolveWithoutConfig(ip, port, argv, pf);
    var o2 := d["open" := Arr([Str("b"), Str("a")])];
    ScanOpenTwice(d, argv, pf);
    PatchRootOnly(o2, 0, argv, pf.join);
  }

  lemma ScanOpenTwice(o: Opts, argv: seq<string>, pf: Platform)
    requires |argv| == 5 && argv[2..] == ["site", "--open=a", "--open=b"]
    requires Lookup(o, "open") == Bool(true)
    ensures Scan(Running(o, 0), argv, 5, pf) == Running(o["open" := Arr([Str("b"), Str("a")])], 0)
  {
    hide Classify;
    OpenToken("a");
    OpenToken("b");
    assert argv[3] == "--open=" + "a" && argv[4] == "--open=" + "b" by {
      assert argv[3] == argv[2..][1] && argv[4] == argv[2..][2];
    }
    assert argv[2] == argv[2..][0];
    DashFreeUnmatched("site");
    var o1 := o["open" := Str("b")];
    var o2 := o["open" := Arr([Str("b"), Str("a")])];
    assert ApplyArg(o, 0, argv[4], pf) == Running(o1, 0);
    assert ApplyArg(o1, 0, argv[3], pf) == Running(o2, 0);
    assert ApplyArg(o2, 0, argv[2], pf) == Running(o2, 0);
  }

  /** `--no-browser` does not override an `--open=` written before it: the
      scan reaches the open flag last and turns the false into a string. */
  lemma NoBrowserYieldsToEarlierOpen(ip: Option<string>, port: Option<string>, node: string, script: string, pf: Platform)
    ensures var r := Resolve(ip, port, None, None, [node, script, "site", "--open=a", "--no-browser"], pf);
      r.Running? && Lookup(r.opts, "open") == Str("a")
  {
    hide Classify, ApplyFlag, Normalize, Scan, Resolve, Patch;
    var argv := [node, script, "site", "--open=a", "--no-browser"];
    var d := Defaults(ip, port);
    ResolveWithoutConfig(ip, port, argv, pf);
    var o2 := d["open" := Str("a")];
    ScanOpenAfterNoBrowser(d, argv, pf);
    PatchRootOnly(o2, 0, argv, pf.join);
  }

  lemma ScanOpenAfterNoBrowser(o: Opts, argv: seq<string>, pf: Platform)
    requires |argv| == 5 && argv[2..] == ["site", "--open=a", "--no-browser"]
    ensures Scan(Running(o, 0), argv, 5, pf) == Running(o["open" := Str("a")], 0)
  {
    hide Classify;
    OpenToken("a");
    assert argv[3] == "--open=" + "a" by {
      assert argv[3] == argv[2..][1];
    }
    assert argv[2] == argv[2..][0] && argv[4] == argv[2..][2];
    NoBrowserToken();
    DashFreeUnmatched("site");
    var o1 := o["open" := Bool(false)];
    var o2 := o["open" := Str("a")];
    assert ApplyArg(o, 0, argv[4], pf) == Running(o1, 0);
    assert ApplyArg(o1, 0, argv[3], pf) == Running(o2, 0);
    assert ApplyArg(o2, 0, argv[2], pf) == Running(o2, 0);
  }

  /** The root is taken from the first token even when it is a flag, which
      the scan also applies. */
  lemma RootTakesFlagToken(ip: Option<string>, port: Option<string>, node: string, script: string, pf: Platform)
    ensures var r := Resolve(ip, port, None, None, [node, script, "--port=80"], pf);
      && r.Running?
      && Lookup(r.opts, "root") == Str("--port=80")
      && Lookup(r.opts, "port") == Num(80)
  {
    hide Classify, ApplyFlag, Normalize, Scan, Resolve, Patch;
    var argv := [node, script, "--port=80"];
    var d := Defaults(ip, port);
    ResolveWithoutConfig(ip, port, argv, pf);
    ScanPortToken(d, argv, pf);
    PatchRootOnly(d["port" := Num(80)], 0, argv, pf.join);
  }

  lemma ScanPortToken(o: Opts, argv: seq<string>, pf: Platform)
    requires |argv| == 3 && argv[2] == "--port=80"
    ensures Scan(Running(o, 0), argv, 3, pf) == Running(o["port" := Num(80)], 0)
  {
    hide Classify, ApplyFlag;
    StrictIntExamples();
    PortFlag(o, 0, "80", pf);
    assert argv[2] == "--port=" + "80";
  }
}
