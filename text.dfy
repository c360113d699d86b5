/** The string operations the resolver applies to flag values: substring
    search, `substring`, comma splitting, the strict integer check, quote
    replacement and the route/target split of `--mount=` and `--proxy=`. */
module Text {
  import opened JsValues

  // ---------------------------------------------------------------------
  // indexOf and substring
  // ---------------------------------------------------------------------

  /** `p` occurs in `s` at position `k`. */
  predicate OccursAt(s: string, p: string, k: int) {
    0 <= k && k + |p| <= |s| && s[k..k + |p|] == p
  }

  /** `s.indexOf(p, i)`: the first position at or after `i` where `p`
      occurs, or -1. */
  function IndexOfFrom(s: string, p: string, i: nat): (r: int)
    requires i <= |s|
    decreases |s| - i
    ensures r == -1 || (i <= r && OccursAt(s, p, r))
    ensures r == -1 ==> forall k :: i <= k ==> !OccursAt(s, p, k)
    ensures forall k :: i <= k < r ==> !OccursAt(s, p, k)
  {
    if i + |p| > |s| then -1
    else if s[i..i + |p|] == p then i
    else IndexOfFrom(s, p, i + 1)
  }

  function IndexOf(s: string, p: string): int {
    IndexOfFrom(s, p, 0)
  }

  /** `p` occurs somewhere in `s`. */
  predicate Contains(s: string, p: string) {
    exists k :: 0 <= k <= |s| - |p| && OccursAt(s, p, k)
  }

  /** The test every valued flag branch uses, `s.indexOf(p) > -1`, holds
      exactly when `p` occurs in `s`. */
  lemma IndexOfFindsOccurrence(s: string, p: string)
    ensures IndexOf(s, p) > -1 <==> Contains(s, p)
  {
    if IndexOf(s, p) > -1 {
      assert OccursAt(s, p, IndexOf(s, p));
    }
  }

  /** `s.substring(k)` for a non-negative start: past the end it is empty. */
  function Substring(s: string, k: nat): (r: string)
    ensures k <= |s| ==> s == s[..k] + r
    ensures k >= |s| ==> r == []
  {
    if k <= |s| then s[k..] else []
  }

  // ---------------------------------------------------------------------
  // split(",") and its inverse join(",")
  // ---------------------------------------------------------------------

  /** `s.split(",")`: no trimming, empty pieces kept, `"".split(",")` is `[""]`. */
  function Split(s: string): (pieces: seq<string>)
    ensures |pieces| >= 1
    ensures forall i :: 0 <= i < |pieces| ==> ',' !in pieces[i]
    ensures |pieces| == Commas(s) + 1
  {
    if s == [] then [[]]
    else
      var rest := Split(s[1..]);
      if s[0] == ',' then [[]] + rest
      else [[s[0]] + rest[0]] + rest[1..]
  }

  /** Number of commas in `s`. */
  function Commas(s: string): nat {
    if s == [] then 0 else (if s[0] == ',' then 1 else 0) + Commas(s[1..])
  }

  /** `pieces.join(",")`. */
  function Join(pieces: seq<string>): string
    requires |pieces| >= 1
  {
    if |pieces| == 1 then pieces[0] else pieces[0] + [','] + Join(pieces[1..])
  }

  /** Joining the pieces of a split gives the input back. */
  lemma {:induction false} JoinSplit(s: string)
    ensures Join(Split(s)) == s
  {
    if s != [] {
      var rest := Split(s[1..]);
      JoinSplit(s[1..]);
      if s[0] == ',' {
        assert Split(s) == [[]] + rest;
        assert Split(s)[1..] == rest;
        assert Join(Split(s)) == [] + [','] + Join(rest);
      } else {
        var pieces := Split(s);
        assert pieces == [[s[0]] + rest[0]] + rest[1..];
        if |rest| == 1 {
          assert Join(pieces) == [s[0]] + rest[0];
          assert Join(rest) == rest[0];
        } else {
          assert pieces[1..] == rest[1..];
          assert Join(rest) == rest[0] + [','] + Join(rest[1..]);
          assert Join(pieces) == [s[0]] + rest[0] + [','] + Join(rest[1..]);
        }
        assert s == [s[0]] + s[1..];
      }
    }
  }

  /** Splitting a join of comma-free pieces gives the pieces back. */
  lemma {:induction false} SplitJoin(pieces: seq<string>)
    requires |pieces| >= 1
    requires forall i :: 0 <= i < |pieces| ==> ',' !in pieces[i]
    ensures Split(Join(pieces)) == pieces
  {
    if |pieces| == 1 {
      SplitCommaFree(pieces[0]);
    } else {
      SplitJoin(pieces[1..]);
      SplitAppend(pieces[0], Join(pieces[1..]));
    }
  }

  /** A comma-free string splits into itself. */
  lemma {:induction false} SplitCommaFree(s: string)
    requires ',' !in s
    ensures Split(s) == [s]
  {
    if s != [] {
      SplitCommaFree(s[1..]);
      assert [s[0]] + s[1..] == s;
    }
  }

  /** Splitting `a + "," + b` for a comma-free `a`. */
  lemma {:induction false} SplitAppend(a: string, b: string)
    requires ',' !in a
    ensures Split(a + [','] + b) == [a] + Split(b)
  {
    if a == [] {
      assert a + [','] + b == [','] + b;
      assert ([','] + b)[1..] == b;
    } else {
      SplitAppend(a[1..], b);
      assert (a + [','] + b)[1..] == a[1..] + [','] + b;
      assert [a[0]] + a[1..] == a;
    }
  }

  // ---------------------------------------------------------------------
  // The strict integer check `parseInt(S, 10) === +S`
  // ---------------------------------------------------------------------

  predicate IsDigit(c: char) { '0' <= c <= '9' }

  predicate AllDigits(s: string) {
    forall i :: 0 <= i < |s| ==> IsDigit(s[i])
  }

  /** Value of a string of decimal digits. */
  function DigitsValue(d: string): nat
    requires AllDigits(d)
  {
    if d == [] then 0
    else DigitsValue(d[..|d| - 1]) * 10 + (d[|d| - 1] as int - '0' as int)
  }

  /** An optionally signed, non-empty run of decimal digits: the texts on
      which `parseInt(S, 10)` and `+S` agree on an integer. */
  predicate IsIntegerText(s: string) {
    if |s| > 0 && (s[0] == '-' || s[0] == '+') then |s| > 1 && AllDigits(s[1..])
    else |s| > 0 && AllDigits(s)
  }

  /** The value the guard of a `--port=`/`--wait=` branch accepts, if any.
      `parseInt` reads an optional sign and the longest digit prefix; `+S`
      converts the whole text; they are equal exactly on integer texts, so
      `"12px"` (parseInt 12, +S NaN) and `""` (parseInt NaN, +S 0) fail. */
  function StrictInt(s: string): (r: Option<int>)
    ensures r.Some? <==> IsIntegerText(s)
  {
    if !IsIntegerText(s) then None
    else if s[0] == '-' then Some(0 - DigitsValue(s[1..]))
    else if s[0] == '+' then Some(DigitsValue(s[1..]))
    else Some(DigitsValue(s))
  }

  /** Canonical decimal text of a natural number. */
  function NatText(n: nat): (d: string)
    ensures |d| > 0 && AllDigits(d)
  {
    if n < 10 then [('0' as int + n) as char]
    else NatText(n / 10) + [('0' as int + n % 10) as char]
  }

  /** `String(n)` for an integer. */
  function IntText(n: int): string {
    if n < 0 then ['-'] + NatText(-n) else NatText(n)
  }

  lemma {:induction false} NatTextValue(n: nat)
    ensures DigitsValue(NatText(n)) == n
  {
    if n >= 10 {
      NatTextValue(n / 10);
      var d := NatText(n);
      assert d[..|d| - 1] == NatText(n / 10);
    }
  }

  /** Every integer's own decimal text passes the check with its value. */
  lemma StrictIntRoundTrip(n: int)
    ensures StrictInt(IntText(n)) == Some(n)
  {
    if n < 0 {
      NatTextValue(-n);
      assert IntText(n)[1..] == NatText(-n);
    } else {
      NatTextValue(n);
    }
  }

  /** The guard's documented cases. */
  lemma StrictIntExamples()
    ensures StrictInt("80") == Some(80)
    ensures StrictInt("-5") == Some(-5)
    ensures StrictInt("12px") == None
    ensures StrictInt("8o80") == None
    ensures StrictInt("") == None
    ensures StrictInt("-") == None
  {
    assert DigitsValue("8") == 8 by { assert "8"[..0] == []; }
    assert "80"[..1] == "8";
    assert "-5"[1..] == "5" && "5"[..0] == [];
    assert !IsDigit("12px"[2]);
    assert !IsDigit("8o80"[1]);
  }

  // ---------------------------------------------------------------------
  // replace(/'/g, '"')
  // ---------------------------------------------------------------------

  /** Every single quote becomes a double quote; nothing else changes. */
  function ReplaceQuotes(s: string): (r: string)
    ensures |r| == |s|
    ensures forall i :: 0 <= i < |s| && s[i] != '\'' ==> r[i] == s[i]
    ensures forall i :: 0 <= i < |s| && s[i] == '\'' ==> r[i] == '"'
    ensures '\'' !in r
  {
    if s == [] then []
    else [if s[0] == '\'' then '"' else s[0]] + ReplaceQuotes(s[1..])
  }

  // ---------------------------------------------------------------------
  // match(/([^:]+):(.+)$/)
  // ---------------------------------------------------------------------

  /** The characters `.` does not match in a JavaScript regular expression. */
  predicate IsLineTerminator(c: char) {
    c == '\n' || c == '\r' || c == '\U{2028}' || c == '\U{2029}'
  }

  predicate NoLineTerminator(s: string) {
    forall i :: 0 <= i < |s| ==> !IsLineTerminator(s[i])
  }

  /** End of the run of non-colon characters that starts at `i`. */
  function RunEnd(x: string, i: nat): (j: nat)
    requires i <= |x|
    decreases |x| - i
    ensures i <= j <= |x|
    ensures j < |x| ==> x[j] == ':'
    ensures forall k :: i <= k < j ==> x[k] != ':'
  {
    if i == |x| || x[i] == ':' then i else RunEnd(x, i + 1)
  }

  /** The pattern tried at position `i`: `[^:]+` can only end at the colon
      closing the run (a shorter run is followed by a non-colon), and then
      `(.+)$` needs a non-empty rest free of line terminators. */
  function MatchAt(x: string, i: nat): Option<(string, string)>
    requires i <= |x|
  {
    var j := RunEnd(x, i);
    if i < j && j + 1 < |x| && NoLineTerminator(x[j + 1..])
    then Some((x[i..j], x[j + 1..]))
    else None
  }

  /** Leftmost match at or after `i`, as `String.prototype.match` searches. */
  function SearchFrom(x: string, i: nat): Option<(string, string)>
    requires i <= |x|
    decreases |x| - i
  {
    if i == |x| then None
    else match MatchAt(x, i)
      case Some(m) => Some(m)
      case None => SearchFrom(x, i + 1)
  }

  /** `x.match(/([^:]+):(.+)$/)` as the pair (group 1, group 2), or None for null. */
  function RouteMatch(x: string): Option<(string, string)> {
    SearchFrom(x, 0)
  }

  /** A match is a colon-free route, a colon, and a non-empty target that
      runs to the end of the text. */
  lemma {:induction false} SearchFromShape(x: string, i: nat)
    requires i <= |x|
    requires SearchFrom(x, i).Some?
    decreases |x| - i
    ensures var (route, target) := SearchFrom(x, i).value;
      && route != [] && ':' !in route
      && target != [] && NoLineTerminator(target)
      && |route| + 1 + |target| <= |x|
      && x[|x| - |target| - 1 - |route|..] == route + [':'] + target
  {
    if MatchAt(x, i).None? {
      SearchFromShape(x, i + 1);
    } else {
      var j := RunEnd(x, i);
      assert x[i..] == x[i..j] + [':'] + x[j + 1..];
      assert |x| - |x[j + 1..]| - 1 - |x[i..j]| == i;
    }
  }

  lemma RouteMatchShape(x: string)
    requires RouteMatch(x).Some?
    ensures var (route, target) := RouteMatch(x).value;
      && route != [] && ':' !in route
      && target != [] && NoLineTerminator(target)
      && |route| + 1 + |target| <= |x|
      && x[|x| - |target| - 1 - |route|..] == route + [':'] + target
  {
    SearchFromShape(x, 0);
  }

  /** Number of colons `x` starts with. */
  function LeadingColons(x: string): (k: nat)
    ensures k <= |x|
    ensures forall i :: 0 <= i < k ==> x[i] == ':'
    ensures k < |x| ==> x[k] != ':'
  {
    if x != [] && x[0] == ':' then 1 + LeadingColons(x[1..]) else 0
  }

  /** Reference reading of the split: skip the leading colons, then the
      route runs up to the next colon and the target is everything after
      it; both must be non-empty. */
  function SplitRoute(x: string): Option<(string, string)> {
    var y := x[LeadingColons(x)..];
    var j := RunEnd(y, 0);
    if 0 < j && j + 1 < |y| then Some((y[..j], y[j + 1..])) else None
  }

  /** Once the run starting at `i` cannot be followed by a non-empty target,
      no later position matches either (for text without line terminators). */
  lemma {:induction false} NoLaterMatch(x: string, i: nat, j: nat)
    requires i <= |x| && NoLineTerminator(x)
    requires j == RunEnd(x, i) && (j == |x| || j + 1 == |x|)
    ensures SearchFrom(x, i) == None
    decreases |x| - i
  {
    if i < |x| {
      assert MatchAt(x, i).None?;
      if i < j {
        NoLaterMatch(x, i + 1, j);
      } else {
        assert x[i] == ':' && i == j;
        assert RunEnd(x, i + 1) == |x|;
        NoLaterMatch(x, i + 1, |x|);
      }
    }
  }

  /** Positions that hold a colon never start a match. */
  lemma {:induction false} SkipColons(x: string, i: nat)
    requires i <= LeadingColons(x)
    ensures SearchFrom(x, i) == SearchFrom(x, LeadingColons(x))
    decreases LeadingColons(x) - i
  {
    if i < LeadingColons(x) {
      assert RunEnd(x, i) == i;
      SkipColons(x, i + 1);
    }
  }

  lemma RunEndShift(x: string, k: nat, i: nat)
    requires k <= i <= |x|
    ensures RunEnd(x, i) == k + RunEnd(x[k..], i - k)
    decreases |x| - i
  {
    if i < |x| && x[i] != ':' {
      RunEndShift(x, k, i + 1);
    }
  }

  /** On text without line terminators the regular expression splits
      exactly as the reference: leading colons skipped, route up to the
      first colon after them, target the whole rest. */
  lemma RouteMatchIsSplitRoute(x: string)
    requires NoLineTerminator(x)
    ensures RouteMatch(x) == SplitRoute(x)
  {
    var k := LeadingColons(x);
    SkipColons(x, 0);
    var y := x[k..];
    RunEndShift(x, k, k);
    var j := RunEnd(x, k);
    assert j == k + RunEnd(y, 0);
    if k < j && j + 1 < |x| {
      assert NoLineTerminator(x[j + 1..]);
      assert x[k..j] == y[..j - k];
      assert x[j + 1..] == y[j - k + 1..];
    } else if k == |x| {
    } else if k == j {
      assert false;
    } else {
      NoLaterMatch(x, k, j);
    }
  }

  /** A colon-free route, a colon and a non-empty target without line
      terminators split back into that route and target (the route may hold
      any other character, since `[^:]` also matches line terminators). */
  lemma RouteMatchJoined(route: string, target: string)
    requires route != [] && ':' !in route
    requires target != [] && NoLineTerminator(target)
    ensures RouteMatch(route + [':'] + target) == Some((route, target))
  {
    var x := route + [':'] + target;
    assert x[|route|] == ':';
    assert forall k :: 0 <= k < |route| ==> x[k] == route[k];
    assert RunEnd(x, 0) == |route| by {
      RunEndOfRun(x, 0, |route|);
    }
    assert x[..|route|] == route;
    assert x[|route| + 1..] == target;
    assert MatchAt(x, 0) == Some((route, target));
  }

  /** A run of non-colons closed by a colon ends at that colon. */
  lemma {:induction false} RunEndOfRun(x: string, i: nat, j: nat)
    requires i <= j < |x| && x[j] == ':'
    requires forall k :: i <= k < j ==> x[k] != ':'
    ensures RunEnd(x, i) == j
    decreases j - i
  {
    if i < j {
      RunEndOfRun(x, i + 1, j);
    }
  }

  /** A line terminator inside the route does not stop the split. */
  lemma MultiLineRouteExample()
    ensures RouteMatch("a\nb:c") == Some(("a\nb", "c"))
  {
    assert "a\nb:c" == "a\nb" + [':'] + "c";
    RouteMatchJoined("a\nb", "c");
  }

  /** A Windows path keeps its drive colon. */
  lemma MountSplitExample()
    ensures RouteMatch("/docs:C:\\files") == Some(("/docs", "C:\\files"))
  {
    assert "/docs:C:\\files" == "/docs" + [':'] + "C:\\files";
    RouteMatchJoined("/docs", "C:\\files");
  }

  /** A URL target keeps its scheme and port colons. */
  lemma ProxySplitExample()
    ensures RouteMatch("/api:http://host:1234") == Some(("/api", "http://host:1234"))
  {
    assert "/api:http://host:1234" == "/api" + [':'] + "http://host:1234";
    RouteMatchJoined("/api", "http://host:1234");
  }

  /** A route with nothing after its colon does not match (null). */
  lemma EmptyTargetExample()
    ensures RouteMatch("/a:") == None
  {
    var x := "/a:";
    RouteMatchIsSplitRoute(x);
    assert LeadingColons(x) == 0;
    assert x[0..] == x;
    assert RunEnd(x, 0) == 2;
  }
}
