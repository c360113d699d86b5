/** Which branch of the command-line if-chain a token selects.

    Valued flags are recognised by substring containment (`indexOf(...) > -1`),
    not by prefix, and the value is the token with a fixed number of leading
    characters dropped; switches are recognised by equality.  The first
    branch that matches, in the order of the chain, wins. */
module FlagGrammar {
  import opened Text

  /** The branches of the chain, in source order. */
  datatype Flag =
    | Port(text: string)
    | HostName(text: string)
    | Open(text: string)
    | Watch(text: string)
    | Ignore(text: string)
    | IgnorePattern(text: string)
    | NoCssInject
    | NoBrowser
    | Browser(text: string)
    | EntryFile(text: string)
    | Spa
    | Quiet
    | Verbose
    | Mount(text: string)
    | Wait(text: string)
    | Version
    | Htpasswd(text: string)
    | Cors
    | Https(text: string)
    | HttpsModule(text: string)
    | Proxy(text: string)
    | Middleware(text: string)
    | Mimetypes(text: string)
    | Index(text: string)
    | Help
    | Test
    | Unmatched

  /** The tests of the if-chain, in order: the position of the branch
      `arg` selects (26 when none does). */
  function Branch(arg: string): nat {
    if Contains(arg, "--port=") then 0
    else if Contains(arg, "--host=") then 1
    else if Contains(arg, "--open=") then 2
    else if Contains(arg, "--watch=") then 3
    else if Contains(arg, "--ignore=") then 4
    else if Contains(arg, "--ignorePattern=") then 5
    else if arg == "--no-css-inject" then 6
    else if arg == "--no-browser" then 7
    else if Contains(arg, "--browser=") then 8
    else if Contains(arg, "--entry-file=") then 9
    else if arg == "--spa" then 10
    else if arg == "--quiet" || arg == "-q" then 11
    else if arg == "--verbose" || arg == "-V" then 12
    else if Contains(arg, "--mount=") then 13
    else if Contains(arg, "--wait=") then 14
    else if arg == "--version" || arg == "-v" then 15
    else if Contains(arg, "--htpasswd=") then 16
    else if arg == "--cors" then 17
    else if Contains(arg, "--https=") then 18
    else if Contains(arg, "--https-module=") then 19
    else if Contains(arg, "--proxy=") then 20
    else if Contains(arg, "--middleware=") then 21
    else if Contains(arg, "--mimetypes=") then 22
    else if Contains(arg, "--index=") then 23
    else if arg == "--help" || arg == "-h" then 24
    else if arg == "--test" then 25
    else 26
  }

  /** The branch `arg` selects, with the value its body extracts by
      `arg.substring(n)` for the branch's fixed `n`. */
  function Classify(arg: string): Flag {
    var k := Branch(arg);
    if k == 0 then Port(Substring(arg, 7))
    else if k == 1 then HostName(Substring(arg, 7))
    else if k == 2 then Open(Substring(arg, 7))
    else if k == 3 then Watch(Substring(arg, 8))
    else if k == 4 then Ignore(Substring(arg, 9))
    else if k == 5 then IgnorePattern(Substring(arg, 16))
    else if k == 6 then NoCssInject
    else if k == 7 then NoBrowser
    else if k == 8 then Browser(Substring(arg, 10))
    else if k == 9 then EntryFile(Substring(arg, 13))
    else if k == 10 then Spa
    else if k == 11 then Quiet
    else if k == 12 then Verbose
    else if k == 13 then Mount(Substring(arg, 8))
    else if k == 14 then Wait(Substring(arg, 7))
    else if k == 15 then Version
    else if k == 16 then Htpasswd(Substring(arg, 11))
    else if k == 17 then Cors
    else if k == 18 then Https(Substring(arg, 8))
    else if k == 19 then HttpsModule(Substring(arg, 15))
    else if k == 20 then Proxy(Substring(arg, 8))
    else if k == 21 then Middleware(Substring(arg, 13))
    else if k == 22 then Mimetypes(Substring(arg, 12))
    else if k == 23 then Index(Substring(arg, 8))
    else if k == 24 then Help
    else if k == 25 then Test
    else Unmatched
  }

  /** The test of one branch: containment of a flag text, or equality with
      one of two spellings. */
  datatype RuleTest = Has(flag: string) | Is(long: string, short: string)

  predicate Passes(arg: string, t: RuleTest) {
    match t
    case Has(p) => Contains(arg, p)
    case Is(a, b) => arg == a || arg == b
  }

  /** The branch tests as a table, in chain order. */
  const RuleCount: nat := 26

  function Rule(k: nat): RuleTest
    requires k < RuleCount
  {
    if k == 0 then Has("--port=")
    else if k == 1 then Has("--host=")
    else if k == 2 then Has("--open=")
    else if k == 3 then Has("--watch=")
    else if k == 4 then Has("--ignore=")
    else if k == 5 then Has("--ignorePattern=")
    else if k == 6 then Is("--no-css-inject", "--no-css-inject")
    else if k == 7 then Is("--no-browser", "--no-browser")
    else if k == 8 then Has("--browser=")
    else if k == 9 then Has("--entry-file=")
    else if k == 10 then Is("--spa", "--spa")
    else if k == 11 then Is("--quiet", "-q")
    else if k == 12 then Is("--verbose", "-V")
    else if k == 13 then Has("--mount=")
    else if k == 14 then Has("--wait=")
    else if k == 15 then Is("--version", "-v")
    else if k == 16 then Has("--htpasswd=")
    else if k == 17 then Is("--cors", "--cors")
    else if k == 18 then Has("--https=")
    else if k == 19 then Has("--https-module=")
    else if k == 20 then Has("--proxy=")
    else if k == 21 then Has("--middleware=")
    else if k == 22 then Has("--mimetypes=")
    else if k == 23 then Has("--index=")
    else if k == 24 then Is("--help", "-h")
    else Is("--test", "--test")
  }

  /** The value a valued flag carries, or [] for a switch. */
  function ValueText(f: Flag): string {
    match f
    case Port(s) => s
    case HostName(s) => s
    case Open(s) => s
    case Watch(s) => s
    case Ignore(s) => s
    case IgnorePattern(s) => s
    case Browser(s) => s
    case EntryFile(s) => s
    case Mount(s) => s
    case Wait(s) => s
    case Htpasswd(s) => s
    case Https(s) => s
    case HttpsModule(s) => s
    case Proxy(s) => s
    case Middleware(s) => s
    case Mimetypes(s) => s
    case Index(s) => s
    case _ => []
  }

  /** Reference reading of the chain: the index of the first rule the
      token passes at or after `k`, or `RuleCount` when none does. */
  function FirstRule(arg: string, k: nat): nat
    requires k <= RuleCount
    decreases RuleCount - k
  {
    if k == RuleCount then k
    else if Passes(arg, Rule(k)) then k
    else FirstRule(arg, k + 1)
  }

  /** `FirstRule` finds the first passing rule: `r` is its result exactly
      when no rule in between passes and rule `r` (if any) does. */
  lemma {:induction false} FirstRuleIsFirst(arg: string, k: nat, r: nat)
    requires k <= r <= RuleCount
    requires forall j :: k <= j < r ==> !Passes(arg, Rule(j))
    requires r < RuleCount ==> Passes(arg, Rule(r))
    ensures FirstRule(arg, k) == r
    decreases r - k
  {
    if k < r {
      FirstRuleIsFirst(arg, k + 1, r);
    }
  }

  /** One step of the chain, for its first half: the branch at position
      `k` fires only if its test passes, and is passed over only if its
      test fails. */
  lemma ChainStepEarly(arg: string, k: nat)
    requires k < 13
    ensures Branch(arg) == k ==> Passes(arg, Rule(k))
    ensures Branch(arg) > k ==> !Passes(arg, Rule(k))
  {
    if k == 0 {
    } else if k == 1 {
    } else if k == 2 {
    } else if k == 3 {
    } else if k == 4 {
    } else if k == 5 {
    } else if k == 6 {
    } else if k == 7 {
    } else if k == 8 {
    } else if k == 9 {
    } else if k == 10 {
    } else if k == 11 {
    } else if k == 12 {
    }
  }

  /** The same for the second half of the chain. */
  lemma ChainStepLate(arg: string, k: nat)
    requires 13 <= k < RuleCount
    ensures Branch(arg) == k ==> Passes(arg, Rule(k))
    ensures Branch(arg) > k ==> !Passes(arg, Rule(k))
  {
    if k == 13 {
    } else if k == 14 {
    } else if k == 15 {
    } else if k == 16 {
    } else if k == 17 {
    } else if k == 18 {
    } else if k == 19 {
    } else if k == 20 {
    } else if k == 21 {
    } else if k == 22 {
    } else if k == 23 {
    } else if k == 24 {
    } else if k == 25 {
    }
  }

  /** The chain selects the first rule the token passes. */
  lemma ClassifyIsFirstRule(arg: string)
    ensures Branch(arg) == FirstRule(arg, 0)
  {
    forall j | 0 <= j < RuleCount
      ensures Branch(arg) == j ==> Passes(arg, Rule(j))
      ensures Branch(arg) > j ==> !Passes(arg, Rule(j))
    {
      if j < 13 { ChainStepEarly(arg, j); } else { ChainStepLate(arg, j); }
    }
    FirstRuleIsFirst(arg, 0, Branch(arg));
  }

  /** The fixed offsets of the chain match the tested flag texts: a valued
      flag's value is the token with exactly its flag text's length dropped
      from the front (the token, containing the text, is long enough). */
  lemma ValueIsSuffix(arg: string)
    ensures var k := Branch(arg);
      k < RuleCount && Rule(k).Has? ==>
        && |Rule(k).flag| <= |arg|
        && ValueText(Classify(arg)) == arg[|Rule(k).flag|..]
  {
    var k := Branch(arg);
    if k < 13 {
      ChainStepEarly(arg, k);
      ValueIsSuffixEarly(arg, k);
    } else if k < RuleCount {
      ChainStepLate(arg, k);
      ValueIsSuffixLate(arg, k);
    }
  }

  lemma ValueIsSuffixEarly(arg: string, k: nat)
    requires k < 13 && k == Branch(arg)
    requires Rule(k).Has? ==> Contains(arg, Rule(k).flag)
    ensures Rule(k).Has? ==>
      && |Rule(k).flag| <= |arg|
      && ValueText(Classify(arg)) == arg[|Rule(k).flag|..]
  {
    if k == 0 {
    } else if k == 1 {
    } else if k == 2 {
    } else if k == 3 {
    } else if k == 4 {
    } else if k == 5 {
    } else if k == 6 {
    } else if k == 7 {
    } else if k == 8 {
    } else if k == 9 {
    } else if k == 10 {
    } else if k == 11 {
    } else if k == 12 {
    }
  }

  lemma ValueIsSuffixLate(arg: string, k: nat)
    requires 13 <= k < RuleCount && k == Branch(arg)
    requires Rule(k).Has? ==> Contains(arg, Rule(k).flag)
    ensures Rule(k).Has? ==>
      && |Rule(k).flag| <= |arg|
      && ValueText(Classify(arg)) == arg[|Rule(k).flag|..]
  {
    if k == 13 {
    } else if k == 14 {
    } else if k == 15 {
    } else if k == 16 {
    } else if k == 17 {
    } else if k == 18 {
    } else if k == 19 {
    } else if k == 20 {
    } else if k == 21 {
    } else if k == 22 {
    } else if k == 23 {
    } else if k == 24 {
    } else if k == 25 {
    }
  }

  /** Containment, not prefix: text before the flag is kept in the value. */
  lemma InfixExample()
    ensures Classify("x--host=a") == HostName("=a")
  {
    var arg := "x--host=a";
    assert !Contains(arg, "--port=") by {
      forall k | 0 <= k <= |arg| - 7 ensures !OccursAt(arg, "--port=", k) {
        assert arg[k + 2] != "--port="[2];
      }
    }
    assert OccursAt(arg, "--host=", 1);
    assert Branch(arg) == 1;
  }

  /** Every valued flag text ends in `=`, so a token without `=` selects a
      switch or nothing. */
  lemma NoValueWithoutEquals(arg: string)
    requires '=' !in arg
    ensures forall p :: '=' in p ==> !Contains(arg, p)
  {
    forall p, k | '=' in p && 0 <= k <= |arg| - |p|
      ensures !OccursAt(arg, p, k)
    {
      assert '=' !in arg[k..k + |p|];
    }
  }

  /** `s` holds no `--`. */
  predicate NoDoubleDash(s: string) {
    forall i :: 0 <= i < |s| - 1 ==> !(s[i] == '-' && s[i + 1] == '-')
  }

  /** A token that starts with `--` and holds no other `--` contains a flag
      text (which starts with `--`) only at its start. */
  lemma OnlyLeadingDashes(arg: string, p: string)
    requires |arg| >= 2 && arg[0] == '-' && arg[1] == '-'
    requires forall i :: 1 <= i < |arg| - 1 ==> !(arg[i] == '-' && arg[i + 1] == '-')
    requires |p| >= 2 && p[0] == '-' && p[1] == '-'
    ensures Contains(arg, p) <==> OccursAt(arg, p, 0)
  {
    if Contains(arg, p) {
      var k :| 0 <= k <= |arg| - |p| && OccursAt(arg, p, k);
      assert arg[k..k + |p|][0] == '-' && arg[k..k + |p|][1] == '-';
      assert k == 0;
    } else {
      assert !OccursAt(arg, p, 0);
    }
  }

  /** A flag text `--name=` followed by a value without `--` holds no `--`
      after its leading one. */
  lemma FlagThenValue(flag: string, v: string)
    requires |flag| >= 3 && flag[0] == '-' && flag[1] == '-'
    requires forall i :: 2 <= i < |flag| ==> flag[i] != '-'
    requires NoDoubleDash(v)
    ensures var arg := flag + v;
      forall i :: 1 <= i < |arg| - 1 ==> !(arg[i] == '-' && arg[i + 1] == '-')
  {
    var arg := flag + v;
    forall i | 1 <= i < |arg| - 1 ensures !(arg[i] == '-' && arg[i + 1] == '-') {
      if i + 1 < |flag| {
        assert arg[i + 1] == flag[i + 1];
      } else if i + 1 == |flag| {
        assert arg[i] == flag[i];
      } else {
        assert arg[i] == v[i - |flag|] && arg[i + 1] == v[i - |flag| + 1];
      }
    }
  }

  /** `--open=v` with no `--` in `v` selects the open branch with value `v`. */
  lemma OpenToken(v: string)
    requires NoDoubleDash(v)
    ensures Classify("--open=" + v) == Open(v)
  {
    var arg := "--open=" + v;
    FlagThenValue("--open=", v);
    OnlyLeadingDashes(arg, "--port=");
    OnlyLeadingDashes(arg, "--host=");
    OnlyLeadingDashes(arg, "--open=");
    assert arg[2] != "--port="[2];
    assert arg[2] != "--host="[2];
    assert arg[..7] == "--open=";
    assert Branch(arg) == 2;
    assert Substring(arg, 7) == v;
  }

  /** Every flag text and every switch spelling starts with a dash, so a
      token without a dash, such as a directory name, selects no branch. */
  lemma DashFreeUnmatched(arg: string)
    requires '-' !in arg
    ensures Classify(arg) == Unmatched
  {
    forall j | 0 <= j < RuleCount ensures !Passes(arg, Rule(j)) {
      match Rule(j)
      case Has(p) =>
        assert p[0] == '-';
        forall k | 0 <= k <= |arg| - |p| ensures !OccursAt(arg, p, k) {
          assert arg[k] in arg;
          assert arg[k..k + |p|][0] == arg[k];
        }
      case Is(a, b) => assert a[0] == '-' && b[0] == '-';
    }
    FirstRuleIsFirst(arg, 0, RuleCount);
    ClassifyIsFirstRule(arg);
  }

  /** `--mount=v` with no `--` in `v` selects the mount branch with value
      `v`: no earlier test passes. */
  lemma MountToken(v: string)
    requires NoDoubleDash(v)
    ensures Classify("--mount=" + v) == Mount(v)
  {
    var arg := "--mount=" + v;
    FlagThenValue("--mount=", v);
    assert arg[2] == 'm';
    forall j | 0 <= j < 13 ensures !Passes(arg, Rule(j)) {
      match Rule(j)
      case Has(p) =>
        OnlyLeadingDashes(arg, p);
        assert p[2] != 'm';
      case Is(a, b) => assert |a| > 2 && a[2] != 'm' && (|b| < 3 || b[2] != 'm');
    }
    assert arg[..8] == "--mount=";
    assert OccursAt(arg, "--mount=", 0);
    FirstRuleIsFirst(arg, 0, 13);
    ClassifyIsFirstRule(arg);
    assert Substring(arg, 8) == v;
  }

  /** `--proxy=v` with no `--` in `v` selects the proxy branch with value
      `v` (`--port=` shares its first letter, not its second). */
  lemma ProxyToken(v: string)
    requires NoDoubleDash(v)
    ensures Classify("--proxy=" + v) == Proxy(v)
  {
    var arg := "--proxy=" + v;
    FlagThenValue("--proxy=", v);
    assert arg[2] == 'p' && arg[3] == 'r';
    forall j | 0 <= j < 20 ensures !Passes(arg, Rule(j)) {
      match Rule(j)
      case Has(p) =>
        OnlyLeadingDashes(arg, p);
        assert p[2] != 'p' || p[3] != 'r';
      case Is(a, b) => assert |a| > 2 && a[2] != 'p' && (|b| < 3 || b[2] != 'p');
    }
    assert arg[..8] == "--proxy=";
    assert OccursAt(arg, "--proxy=", 0);
    FirstRuleIsFirst(arg, 0, 20);
    ClassifyIsFirstRule(arg);
    assert Substring(arg, 8) == v;
  }

  /** `--no-browser` selects its switch. */
  lemma NoBrowserToken()
    ensures Classify("--no-browser") == NoBrowser
  {
    NoValueWithoutEquals("--no-browser");
  }
}
