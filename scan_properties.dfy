/** What the reverse scan over the command-line tokens guarantees: each
    token touches at most one property, the earliest occurrence of a scalar
    flag wins, appended items come out in reverse invocation order, `open`
    follows its state machine from the earliest `--no-browser` on, and a
    help or version token hides every token before it. */
module ScanProperties {
  import opened JsValues
  import opened Text
  import opened FlagGrammar
  import opened Resolution

  // ---------------------------------------------------------------------
  // One token
  // ---------------------------------------------------------------------

  /** A token writes only the property its branch targets, counts a timer
      only for `--test`, and exits exactly on help and version. */
  lemma StepTouchesOnlyTarget(o: Opts, t: nat, f: Flag, pf: Platform)
    ensures var r := ApplyFlag(o, t, f, pf);
      && (r.Exited? <==> f == Help || f == Version)
      && (r.Running? ==>
            && r.timers == (if f == Test then t + 1 else t)
            && forall k :: Target(f) != Some(k) ==>
                 (k in r.opts <==> k in o) && Lookup(r.opts, k) == Lookup(o, k))
  {
    hide UpdateFor;
    match Target(f)
    case Some(key) =>
      var u := UpdateFor(f, Lookup(o, key), pf);
      assert ApplyFlag(o, t, f, pf) == Commit(o, t, key, u);
    case None =>
  }

  /** A writing branch commits the update it computes for its target. */
  lemma WritingStep(o: Opts, t: nat, f: Flag, pf: Platform)
    requires Target(f).Some?
    ensures ApplyFlag(o, t, f, pf) ==
      Commit(o, t, Target(f).value, UpdateFor(f, Lookup(o, Target(f).value), pf))
  {
    hide UpdateFor;
  }

  /** A token that contains `--port=` at its start sets `port` exactly when
      the rest is an integer text, and otherwise changes nothing. */
  lemma PortFlag(o: Opts, t: nat, s: string, pf: Platform)
    ensures ApplyArg(o, t, "--port=" + s, pf) ==
      match StrictInt(s)
      case Some(n) => Running(o["port" := Num(n)], t)
      case None => Running(o, t)
  {
    var arg := "--port=" + s;
    assert OccursAt(arg, "--port=", 0);
    assert Branch(arg) == 0;
    assert Substring(arg, 7) == s;
  }

  // ---------------------------------------------------------------------
  // Scalars: the earliest occurrence wins
  // ---------------------------------------------------------------------

  /** The value a branch assigns to a property, if it assigns one. */
  function WriteOf(f: Flag, key: string): Option<Value> {
    if Target(f) == Some(key) then Assignment(f) else None
  }

  /** Reference precedence, read in invocation order: the value assigned by
      the earliest of `argv[2..hi]` that assigns `key`. */
  function FirstWrite(argv: seq<string>, hi: nat, key: string): Option<Value>
    requires hi <= |argv|
  {
    if hi <= 2 then None
    else match FirstWrite(argv, hi - 1, key)
      case Some(v) => Some(v)
      case None => WriteOf(Classify(argv[hi - 1]), key)
  }

  /** `FirstWrite` is the earliest assignment: it finds a value exactly when
      some token assigns one, and then it is the value of a token with no
      assigning token before it. */
  lemma {:induction false} FirstWriteIsEarliest(argv: seq<string>, hi: nat, key: string)
    requires hi <= |argv|
    ensures FirstWrite(argv, hi, key).Some? <==>
      exists j :: 2 <= j < hi && WriteOf(Classify(argv[j]), key).Some?
    ensures FirstWrite(argv, hi, key).Some? ==>
      exists j :: 2 <= j < hi && WriteOf(Classify(argv[j]), key) == FirstWrite(argv, hi, key) &&
        forall i :: 2 <= i < j ==> WriteOf(Classify(argv[i]), key).None?
  {
    hide Classify, ApplyFlag;
    if hi > 2 {
      FirstWriteIsEarliest(argv, hi - 1, key);
    }
  }

  /** A step on a non-accumulating property: the token's assignment, if any,
      replaces the old value. */
  lemma StepAssigns(o: Opts, t: nat, f: Flag, key: string, pf: Platform)
    requires !Accumulating(key)
    requires ApplyFlag(o, t, f, pf).Running?
    ensures Lookup(ApplyFlag(o, t, f, pf).opts, key) ==
      match WriteOf(f, key)
      case Some(v) => v
      case None => Lookup(o, key)
  {
    if Target(f) != Some(key) {
      StepTouchesOnlyTarget(o, t, f, pf);
    }
  }

  /** Scanning from the last token to the first leaves every
      non-accumulating property with the value of its EARLIEST assignment
      in the invocation, or its old value when no token assigns it. */
  lemma {:induction false} FirstOccurrenceWins(o: Opts, t: nat, argv: seq<string>, hi: nat, key: string, pf: Platform)
    requires hi <= |argv|
    requires !Accumulating(key)
    requires Scan(Running(o, t), argv, hi, pf).Running?
    ensures Lookup(Scan(Running(o, t), argv, hi, pf).opts, key) ==
      match FirstWrite(argv, hi, key)
      case Some(v) => v
      case None => Lookup(o, key)
    decreases hi
  {
    if hi > 2 {
      var r := ApplyArg(o, t, argv[hi - 1], pf);
      assert r.Running?;
      StepAssigns(o, t, Classify(argv[hi - 1]), key, pf);
      FirstOccurrenceWins(r.opts, r.timers, argv, hi - 1, key, pf);
    }
  }

  // ---------------------------------------------------------------------
  // Appended lists come out reversed
  // ---------------------------------------------------------------------

  function Reverse<T>(s: seq<T>): (r: seq<T>)
    ensures |r| == |s|
  {
    if s == [] then [] else Reverse(s[1..]) + [s[0]]
  }

  lemma {:induction false} ReverseAppend<T>(s: seq<T>, x: T)
    ensures Reverse(s + [x]) == [x] + Reverse(s)
  {
    if s != [] {
      assert (s + [x])[1..] == s[1..] + [x];
      ReverseAppend(s[1..], x);
    }
  }

  /** The properties the scan only ever appends to. */
  predicate AppendOnly(key: string) {
    key == "mount" || key == "proxy" || key == "middleware"
  }

  /** The item a branch appends to `key`, if it appends one. */
  function PushOf(f: Flag, key: string, pf: Platform): Option<Value> {
    if Target(f) != Some(key) then None
    else match f
      case Spa => Some(Str("spa"))
      case Middleware(v) => Some(Str(v))
      case Mount(x) =>
        (match RouteMatch(x)
         case Some((route, target)) => Some(Arr([Str(route), Str(pf.resolve(target))]))
         case None => None)
      case Proxy(x) =>
        (match RouteMatch(x)
         case Some((route, target)) => Some(Arr([Str(route), Str(target)]))
         case None => None)
      case _ => None
  }

  /** The items `argv[2..hi]` append to `key`, in invocation order. */
  function Pushed(argv: seq<string>, hi: nat, key: string, pf: Platform): seq<Value>
    requires hi <= |argv|
  {
    if hi <= 2 then []
    else
      var last := match PushOf(Classify(argv[hi - 1]), key, pf) case Some(v) => [v] case None => [];
      Pushed(argv, hi - 1, key, pf) + last
  }

  lemma StepAppends(o: Opts, t: nat, f: Flag, key: string, pf: Platform, xs: seq<Value>)
    requires AppendOnly(key) && Lookup(o, key) == Arr(xs)
    requires ApplyFlag(o, t, f, pf).Running?
    ensures Lookup(ApplyFlag(o, t, f, pf).opts, key) ==
      match PushOf(f, key, pf)
      case Some(v) => Arr(xs + [v])
      case None => Arr(xs)
  {
    if Target(f) != Some(key) {
      StepTouchesOnlyTarget(o, t, f, pf);
    } else {
      WritingStep(o, t, f, pf);
    }
  }

  /** After the scan, an appended list holds its old items followed by the
      pushed items in REVERSE invocation order. */
  lemma {:induction false} AppendsInReverse(o: Opts, t: nat, argv: seq<string>, hi: nat, key: string, pf: Platform, xs: seq<Value>)
    requires hi <= |argv|
    requires AppendOnly(key) && Lookup(o, key) == Arr(xs)
    requires Scan(Running(o, t), argv, hi, pf).Running?
    ensures Lookup(Scan(Running(o, t), argv, hi, pf).opts, key) ==
      Arr(xs + Reverse(Pushed(argv, hi, key, pf)))
    decreases hi
  {
    hide Classify, ApplyFlag;
    if hi > 2 {
      var r := ApplyArg(o, t, argv[hi - 1], pf);
      assert r.Running?;
      StepAppends(o, t, Classify(argv[hi - 1]), key, pf, xs);
      var earlier := Pushed(argv, hi - 1, key, pf);
      match PushOf(Classify(argv[hi - 1]), key, pf)
      case Some(v) =>
        AppendsInReverse(r.opts, r.timers, argv, hi - 1, key, pf, xs + [v]);
        ReverseAppend(earlier, v);
        assert xs + [v] + Reverse(earlier) == xs + Reverse(earlier + [v]);
      case None =>
        assert Lookup(r.opts, key) == Arr(xs);
        AppendsInReverse(r.opts, r.timers, argv, hi - 1, key, pf, xs);
        assert Pushed(argv, hi, key, pf) == earlier;
        assert Scan(Running(o, t), argv, hi, pf) == Scan(r, argv, hi - 1, pf);
    }
  }

  // ---------------------------------------------------------------------
  // The open state machine
  // ---------------------------------------------------------------------

  /** The value `open` holds after one `--open=v` that did not crash. */
  function OpenValue(cur: Value, v: string): Value {
    match NextOpen(cur, v)
    case Set(x) => x
    case _ => cur
  }

  /** `open` after `--open=` values applied in the order given. */
  function OpenFold(cur: Value, vs: seq<string>): Value
    decreases |vs|
  {
    if vs == [] then cur else OpenFold(OpenValue(cur, vs[0]), vs[1..])
  }

  lemma {:induction false} OpenFoldList(xs: seq<Value>, vs: seq<string>)
    ensures OpenFold(Arr(xs), vs) == Arr(xs + Strs(vs))
    decreases |vs|
  {
    if vs != [] {
      OpenFoldList(xs + [Str(vs[0])], vs[1..]);
      assert Strs(vs) == [Str(vs[0])] + Strs(vs[1..]);
    }
  }

  lemma StrsCons(vs: seq<string>)
    requires vs != []
    ensures Strs(vs) == [Str(vs[0])] + Strs(vs[1..])
  {
  }

  lemma OpenFoldString(s: string, vs: seq<string>)
    requires vs != []
    ensures OpenFold(Str(s), vs) == Arr([Str(s)] + Strs(vs))
  {
    var pair := [Str(s), Str(vs[0])];
    calc {
      OpenFold(Str(s), vs);
      OpenFold(OpenValue(Str(s), vs[0]), vs[1..]);
      OpenFold(Arr(pair), vs[1..]);
      { OpenFoldList(pair, vs[1..]); }
      Arr(pair + Strs(vs[1..]));
      { assert pair + Strs(vs[1..]) == [Str(s)] + ([Str(vs[0])] + Strs(vs[1..])); }
      Arr([Str(s)] + ([Str(vs[0])] + Strs(vs[1..])));
      { StrsCons(vs); }
      Arr([Str(s)] + Strs(vs));
    }
  }

  /** From a boolean, `open` never loses a value: one `--open=` gives that
      string, two or more give the list of all of them in application order. */
  lemma OpenAccumulates(b: bool, vs: seq<string>)
    ensures OpenFold(Bool(b), vs) ==
      if |vs| == 0 then Bool(b)
      else if |vs| == 1 then Str(vs[0])
      else Arr(Strs(vs))
  {
    if |vs| >= 2 {
      OpenFoldString(vs[0], vs[1..]);
      assert Strs(vs) == [Str(vs[0])] + Strs(vs[1..]);
    }
  }

  /** The `--open=` values among `argv[2..hi]`, in invocation order. */
  function OpenTexts(argv: seq<string>, hi: nat): seq<string>
    requires hi <= |argv|
  {
    if hi <= 2 then []
    else
      var f := Classify(argv[hi - 1]);
      OpenTexts(argv, hi - 1) + if f.Open? then [f.text] else []
  }

  /** Index of the earliest `--no-browser` among `argv[2..hi]`, or `hi`. */
  function FirstNoBrowser(argv: seq<string>, hi: nat): (j: nat)
    requires hi <= |argv|
    ensures j <= hi
    ensures j < hi ==> 2 <= j && Classify(argv[j]) == NoBrowser
    ensures forall i :: 2 <= i < j ==> Classify(argv[i]) != NoBrowser
  {
    if hi <= 2 then hi
    else
      var j := FirstNoBrowser(argv, hi - 1);
      if j < hi - 1 then j
      else if Classify(argv[hi - 1]) == NoBrowser then hi - 1
      else hi
  }

  /** Reference value of `open` after the scan: the earliest `--no-browser`
      (if any) resets it to false, and the `--open=` values before it in
      the invocation are applied in reverse order from there. */
  function OpenAfterScan(init: Value, argv: seq<string>, hi: nat): Value
    requires hi <= |argv|
  {
    var j := FirstNoBrowser(argv, hi);
    OpenFold(if j < hi then Bool(false) else init, Reverse(OpenTexts(argv, j)))
  }

  lemma StepOpen(o: Opts, t: nat, f: Flag, pf: Platform)
    requires ApplyFlag(o, t, f, pf).Running?
    ensures Lookup(ApplyFlag(o, t, f, pf).opts, "open") ==
      match f
      case NoBrowser => Bool(false)
      case Open(v) => OpenValue(Lookup(o, "open"), v)
      case _ => Lookup(o, "open")
  {
    if f.Open? || f == NoBrowser {
      WritingStep(o, t, f, pf);
    } else {
      StepTouchesOnlyTarget(o, t, f, pf);
    }
  }

  /** The scan leaves `open` as the reference says. */
  lemma {:induction false} OpenFollowsStateMachine(o: Opts, t: nat, argv: seq<string>, hi: nat, pf: Platform)
    requires hi <= |argv|
    requires Scan(Running(o, t), argv, hi, pf).Running?
    ensures Lookup(Scan(Running(o, t), argv, hi, pf).opts, "open") ==
      OpenAfterScan(Lookup(o, "open"), argv, hi)
    decreases hi
  {
    hide Classify, ApplyFlag;
    if hi > 2 {
      var arg := argv[hi - 1];
      var r := ApplyArg(o, t, arg, pf);
      assert r.Running?;
      StepOpen(o, t, Classify(arg), pf);
      OpenFollowsStateMachine(r.opts, r.timers, argv, hi - 1, pf);
      var j := FirstNoBrowser(argv, hi - 1);
      var cur := Lookup(o, "open");
      if j == hi - 1 {
        var earlier := OpenTexts(argv, hi - 1);
        match Classify(arg)
        case NoBrowser =>
        case Open(v) =>
          assert OpenTexts(argv, hi) == earlier + [v];
          ReverseAppend(earlier, v);
          assert ([v] + Reverse(earlier))[1..] == Reverse(earlier);
        case _ =>
          assert OpenTexts(argv, hi) == earlier;
          assert FirstNoBrowser(argv, hi) == hi;
      }
    }
  }

  // ---------------------------------------------------------------------
  // Mimetypes merge
  // ---------------------------------------------------------------------

  /** `mimetypes` after one `--mimetypes=` that did not crash. */
  function MimeValue(cur: Value, text: string, parse: string -> Option<map<string, Value>>): Value {
    match MimetypesUpdate(cur, text, parse)
    case Set(x) => x
    case _ => cur
  }

  /** `mimetypes` after `--mimetypes=` texts applied in the order given. */
  function MimeFold(cur: Value, texts: seq<string>, parse: string -> Option<map<string, Value>>): Value
    decreases |texts|
  {
    if texts == [] then cur else MimeFold(MimeValue(cur, texts[0], parse), texts[1..], parse)
  }

  /** The `--mimetypes=` texts among `argv[2..hi]`, in invocation order. */
  function MimeTexts(argv: seq<string>, hi: nat): seq<string>
    requires hi <= |argv|
  {
    if hi <= 2 then []
    else
      var f := Classify(argv[hi - 1]);
      MimeTexts(argv, hi - 1) + if f.Mimetypes? then [f.text] else []
  }

  lemma StepMimetypes(o: Opts, t: nat, f: Flag, pf: Platform)
    requires ApplyFlag(o, t, f, pf).Running?
    ensures Lookup(ApplyFlag(o, t, f, pf).opts, "mimetypes") ==
      match f
      case Mimetypes(x) => MimeValue(Lookup(o, "mimetypes"), x, pf.parseJson)
      case _ => Lookup(o, "mimetypes")
  {
    if f.Mimetypes? {
      WritingStep(o, t, f, pf);
    } else {
      StepTouchesOnlyTarget(o, t, f, pf);
    }
  }

  /** The scan merges the `--mimetypes=` objects from the last token to the
      first. */
  lemma {:induction false} MimetypesFollowFold(o: Opts, t: nat, argv: seq<string>, hi: nat, pf: Platform)
    requires hi <= |argv|
    requires Scan(Running(o, t), argv, hi, pf).Running?
    ensures Lookup(Scan(Running(o, t), argv, hi, pf).opts, "mimetypes") ==
      MimeFold(Lookup(o, "mimetypes"), Reverse(MimeTexts(argv, hi)), pf.parseJson)
    decreases hi
  {
    hide Classify, ApplyFlag;
    if hi > 2 {
      var arg := argv[hi - 1];
      var r := ApplyArg(o, t, arg, pf);
      assert r.Running?;
      StepMimetypes(o, t, Classify(arg), pf);
      MimetypesFollowFold(r.opts, r.timers, argv, hi - 1, pf);
      var earlier := MimeTexts(argv, hi - 1);
      match Classify(arg)
      case Mimetypes(x) =>
        assert MimeTexts(argv, hi) == earlier + [x];
        ReverseAppend(earlier, x);
        assert ([x] + Reverse(earlier))[1..] == Reverse(earlier);
      case _ =>
        assert MimeTexts(argv, hi) == earlier;
    }
  }

  /** The object a `--mimetypes=` text parses to, once quotes are fixed. */
  function Parsed(text: string, parse: string -> Option<map<string, Value>>): map<string, Value>
    requires parse(ReplaceQuotes(text)).Some?
  {
    parse(ReplaceQuotes(text)).value
  }

  /** Merging into an object: every key ends up with the value of the LAST
      text applied that defines it, or keeps its old value when none does.
      The scan applies the texts in reverse, so on the command line the
      earliest definition of a MIME type wins. */
  lemma {:induction false} MimeFoldLastWins(m: map<string, Value>, texts: seq<string>, parse: string -> Option<map<string, Value>>, k: string)
    requires forall i :: 0 <= i < |texts| ==> parse(ReplaceQuotes(texts[i])).Some?
    ensures MimeFold(Obj(m), texts, parse).Obj?
    ensures var r := MimeFold(Obj(m), texts, parse).fields;
      && ((forall i :: 0 <= i < |texts| ==> k !in Parsed(texts[i], parse)) ==>
            (k in r <==> k in m) && (k in m ==> r[k] == m[k]))
      && ((exists i :: 0 <= i < |texts| && k in Parsed(texts[i], parse)) ==>
            exists i :: 0 <= i < |texts| && k in Parsed(texts[i], parse) && k in r &&
              r[k] == Parsed(texts[i], parse)[k] &&
              forall j :: i < j < |texts| ==> k !in Parsed(texts[j], parse))
    decreases |texts|
  {
    if texts != [] {
      var p := Parsed(texts[0], parse);
      var rest := texts[1..];
      assert MimeValue(Obj(m), texts[0], parse) == Obj(m + p);
      assert forall i :: 0 <= i < |rest| ==> rest[i] == texts[i + 1];
      MimeFoldLastWins(m + p, rest, parse, k);
      var r := MimeFold(Obj(m), texts, parse).fields;
      if exists i :: 0 <= i < |rest| && k in Parsed(rest[i], parse) {
        var i :| 0 <= i < |rest| && k in Parsed(rest[i], parse) && k in r &&
          r[k] == Parsed(rest[i], parse)[k] &&
          forall j :: i < j < |rest| ==> k !in Parsed(rest[j], parse);
        assert texts[i + 1] == rest[i];
        assert forall j :: i + 1 < j < |texts| ==> texts[j] == rest[j - 1];
      } else if k in p {
        assert k in Parsed(texts[0], parse);
        assert forall j :: 0 < j < |texts| ==> texts[j] == rest[j - 1];
      } else {
        forall i | 0 <= i < |texts| ensures k !in Parsed(texts[i], parse) {
          if i > 0 { assert texts[i] == rest[i - 1]; }
        }
      }
    }
  }

  /** Starting from a `mimetypes` that is unset or not a plain object (and
      not null), the first merge starts from `{}`: the fold is the one from
      an empty object. */
  lemma MimeFreshStart(cur: Value, texts: seq<string>, parse: string -> Option<map<string, Value>>)
    requires !cur.Obj? && !cur.Null?
    requires texts != [] && parse(ReplaceQuotes(texts[0])).Some?
    ensures MimeFold(cur, texts, parse) == MimeFold(Obj(map[]), texts, parse)
  {
    var p := Parsed(texts[0], parse);
    assert map[] + p == p;
    assert MimeValue(cur, texts[0], parse) == Obj(p);
    assert MimeValue(Obj(map[]), texts[0], parse) == Obj(p);
  }

  /** Merging into an unset `mimetypes`: the result is an object whose keys
      are exactly the keys the texts define, each with the value of the
      last text that defines it. */
  lemma MimeFoldFromUnset(cur: Value, texts: seq<string>, parse: string -> Option<map<string, Value>>, k: string)
    requires !cur.Obj? && !cur.Null?
    requires texts != []
    requires forall i :: 0 <= i < |texts| ==> parse(ReplaceQuotes(texts[i])).Some?
    ensures MimeFold(cur, texts, parse).Obj?
    ensures var r := MimeFold(cur, texts, parse).fields;
      && (k in r <==> exists i :: 0 <= i < |texts| && k in Parsed(texts[i], parse))
      && (k in r ==>
            exists i :: 0 <= i < |texts| && k in Parsed(texts[i], parse) &&
              r[k] == Parsed(texts[i], parse)[k] &&
              forall j :: i < j < |texts| ==> k !in Parsed(texts[j], parse))
  {
    MimeFreshStart(cur, texts, parse);
    MimeFoldLastWins(map[], texts, parse, k);
  }

  /** Two `--mimetypes=` texts defining different types, merged into an
      unset value, keep both types. */
  lemma MimeTwoTypesExample(first: string, second: string, parse: string -> Option<map<string, Value>>, x: Value, y: Value)
    requires parse(ReplaceQuotes(first)) == Some(map["c/d" := y])
    requires parse(ReplaceQuotes(second)) == Some(map["a/b" := x])
    ensures MimeFold(Undefined, [first, second], parse) == Obj(map["c/d" := y, "a/b" := x])
  {
    var c, a := map["c/d" := y], map["a/b" := x];
    assert [first, second][1..] == [second];
    assert MimeValue(Undefined, first, parse) == Obj(c);
    assert MimeValue(Obj(c), second, parse) == Obj(c + a);
    assert MimeFold(Obj(c), [second], parse) == MimeFold(Obj(c + a), [], parse);
    assert c + a == map["c/d" := y, "a/b" := x];
  }

  // ---------------------------------------------------------------------
  // Crashes of one token
  // ---------------------------------------------------------------------

  /** `--mount=`/`--proxy=` crash on a null match, then crash when the list
      is not an array, and otherwise push the pair (route, target), the mount
      target resolved against the working directory. */
  lemma RouteStep(o: Opts, t: nat, arg: string, pf: Platform)
    requires Classify(arg).Mount? || Classify(arg).Proxy?
    ensures var f := Classify(arg);
      var key := if f.Mount? then "mount" else "proxy";
      var r := ApplyArg(o, t, arg, pf);
      && (r == Crashed(NoRouteMatch(key)) <==> RouteMatch(f.text).None?)
      && (r == Crashed(NotAnArray(key)) <==> RouteMatch(f.text).Some? && !Lookup(o, key).Arr?)
      && (r.Running? <==> RouteMatch(f.text).Some? && Lookup(o, key).Arr?)
      && (r.Running? ==>
            var (route, target) := RouteMatch(f.text).value;
            var dest := if f.Mount? then pf.resolve(target) else target;
            r == Running(o[key := Arr(Lookup(o, key).items + [Arr([Str(route), Str(dest)])])], t))
  {
    hide Classify;
    var f := Classify(arg);
    assert ApplyArg(o, t, arg, pf) == ApplyFlag(o, t, f, pf);
  }

  /** `--spa` and `--middleware=` crash exactly when `middleware` is not an
      array, and otherwise push their item. */
  lemma MiddlewareStep(o: Opts, t: nat, arg: string, pf: Platform)
    requires Classify(arg) == Spa || Classify(arg).Middleware?
    ensures var f := Classify(arg);
      var item := if f == Spa then Str("spa") else Str(f.text);
      var cur := Lookup(o, "middleware");
      var r := ApplyArg(o, t, arg, pf);
      && (r == Crashed(NotAnArray("middleware")) <==> !cur.Arr?)
      && (cur.Arr? ==> r == Running(o["middleware" := Arr(cur.items + [item])], t))
  {
    hide Classify;
    var f := Classify(arg);
    assert ApplyArg(o, t, arg, pf) == ApplyFlag(o, t, f, pf);
  }

  /** `--open=` crashes exactly when `open` is an object without `push`
      (null, a plain object or a compiled pattern). */
  lemma OpenStep(o: Opts, t: nat, arg: string, pf: Platform)
    requires Classify(arg).Open?
    ensures var cur := Lookup(o, "open");
      var r := ApplyArg(o, t, arg, pf);
      && (r == Crashed(NotAnArray("open")) <==> cur.Null? || cur.Obj? || cur.Regex?)
      && (r.Crashed? || r.Running?)
  {
    hide Classify;
    var f := Classify(arg);
    assert ApplyArg(o, t, arg, pf) == ApplyFlag(o, t, f, pf);
  }

  /** `--mimetypes=` crashes on text that does not parse, then on a null
      `mimetypes`, and otherwise stores the merged object: merged into the
      old one when that is a plain object, into `{}` otherwise. */
  lemma MimetypesStep(o: Opts, t: nat, arg: string, pf: Platform)
    requires Classify(arg).Mimetypes?
    ensures var parsed := pf.parseJson(ReplaceQuotes(Classify(arg).text));
      var cur := Lookup(o, "mimetypes");
      var r := ApplyArg(o, t, arg, pf);
      && (r == Crashed(MalformedJson) <==> parsed.None?)
      && (r == Crashed(NullMimetypes) <==> parsed.Some? && cur.Null?)
      && (parsed.Some? && cur.Obj? ==> r == Running(o["mimetypes" := Obj(cur.fields + parsed.value)], t))
      && (parsed.Some? && !cur.Obj? && !cur.Null? ==> r == Running(o["mimetypes" := Obj(parsed.value)], t))
  {
    hide Classify;
    var f := Classify(arg);
    assert ApplyArg(o, t, arg, pf) == ApplyFlag(o, t, f, pf);
  }

  /** A `--mount=` or `--proxy=` token whose value holds no `--` (so that
      no earlier branch's flag text occurs in it) crashes on a null match
      exactly when its value has no `route:target` split. */
  lemma RouteTokenCrashes(o: Opts, t: nat, v: string, pf: Platform)
    requires NoDoubleDash(v)
    ensures ApplyArg(o, t, "--mount=" + v, pf) == Crashed(NoRouteMatch("mount")) <==> RouteMatch(v).None?
    ensures ApplyArg(o, t, "--proxy=" + v, pf) == Crashed(NoRouteMatch("proxy")) <==> RouteMatch(v).None?
  {
    MountToken(v);
    RouteStep(o, t, "--mount=" + v, pf);
    ProxyToken(v);
    RouteStep(o, t, "--proxy=" + v, pf);
  }

  /** A hyphenated host name does not stop `--proxy=` from selecting its
      branch and splitting at the first colon. */
  lemma ProxyHyphenExample(o: Opts, t: nat, pf: Platform)
    requires Lookup(o, "proxy").Arr?
    ensures ApplyArg(o, t, "--proxy=" + "/api:http://my-host:1234", pf) ==
      Running(o["proxy" := Arr(Lookup(o, "proxy").items + [Arr([Str("/api"), Str("http://my-host:1234")])])], t)
  {
    hide Classify, RouteMatch, ApplyArg;
    var v := "/api:http://my-host:1234";
    assert NoDoubleDash(v) by {
      forall i | 0 <= i < |v| - 1 ensures !(v[i] == '-' && v[i + 1] == '-') {
        if v[i] == '-' { assert i == 14; }
      }
    }
    var arg := "--proxy=" + v;
    ProxyToken(v);
    assert v == "/api" + [':'] + "http://my-host:1234";
    RouteMatchJoined("/api", "http://my-host:1234");
    RouteStep(o, t, arg, pf);
    var item := Arr([Str("/api"), Str("http://my-host:1234")]);
    assert ApplyArg(o, t, arg, pf) == Running(o["proxy" := Arr(Lookup(o, "proxy").items + [item])], t);
  }

  /** `--mount=/a:` has nothing after the colon: the match is null and the
      script crashes, whatever the options hold. */
  lemma MountWithoutTargetCrashes(o: Opts, t: nat, pf: Platform)
    ensures ApplyArg(o, t, "--mount=/a:", pf) == Crashed(NoRouteMatch("mount"))
  {
    RouteTokenCrashes(o, t, "/a:", pf);
    assert "--mount=" + "/a:" == "--mount=/a:";
    EmptyTargetExample();
  }

  // ---------------------------------------------------------------------
  // Help and version
  // ---------------------------------------------------------------------

  /** A help or version token at `j` ends the run with an exit or an
      earlier crash, and whatever stands before it in the invocation is
      never looked at. */
  lemma {:induction false} ExitHidesEarlierTokens(r: Run, argv: seq<string>, other: seq<string>, hi: nat, j: nat, pf: Platform)
    requires hi <= |argv| && hi <= |other|
    requires 2 <= j < hi
    requires Classify(argv[j]) == Help || Classify(argv[j]) == Version
    requires argv[j..hi] == other[j..hi]
    ensures Scan(r, argv, hi, pf) == Scan(r, other, hi, pf)
    ensures !Scan(r, argv, hi, pf).Running?
    decreases hi
  {
    hide Classify, ApplyFlag;
    assert argv[hi - 1] == argv[j..hi][hi - 1 - j] == other[hi - 1];
    if r.Running? {
      var next := ApplyArg(r.opts, r.timers, argv[hi - 1], pf);
      if hi - 1 > j {
        assert argv[j..hi - 1] == argv[j..hi][..hi - 1 - j];
        assert other[j..hi - 1] == other[j..hi][..hi - 1 - j];
        ExitHidesEarlierTokens(next, argv, other, hi - 1, j, pf);
      } else {
        StepTouchesOnlyTarget(r.opts, r.timers, Classify(argv[j]), pf);
      }
    }
  }

  // ---------------------------------------------------------------------
  // --test
  // ---------------------------------------------------------------------

  /** Number of `--test` tokens among `argv[2..hi]`. */
  function TestTokens(argv: seq<string>, hi: nat): nat
    requires hi <= |argv|
  {
    if hi <= 2 then 0
    else TestTokens(argv, hi - 1) + if Classify(argv[hi - 1]) == Test then 1 else 0
  }

  /** Every `--test` token schedules one shutdown timer. */
  lemma {:induction false} OneTimerPerTestToken(o: Opts, t: nat, argv: seq<string>, hi: nat, pf: Platform)
    requires hi <= |argv|
    requires Scan(Running(o, t), argv, hi, pf).Running?
    ensures Scan(Running(o, t), argv, hi, pf).timers == t + TestTokens(argv, hi)
    decreases hi
  {
    hide Classify, ApplyFlag;
    if hi > 2 {
      var r := ApplyArg(o, t, argv[hi - 1], pf);
      StepTouchesOnlyTarget(o, t, Classify(argv[hi - 1]), pf);
      OneTimerPerTestToken(r.opts, r.timers, argv, hi - 1, pf);
    }
  }
}
