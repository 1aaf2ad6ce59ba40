/**
  Cache control rules: `CheckForMatch` of `include/proxy/ControlBase.h`, the result of
  `include/proxy/CacheControl.h` and `UpdateMatch` of `src/proxy/CacheControl.cc`.

  The rules that select a request reach `UpdateMatch` in the order of the tables
  that found them (host, regex, url, address, host regex), not in the order of the
  configuration file.  Each parameter remembers the line that set it, so that an
  earlier line can still override; ttl-in-cache and never-cache also look at
  each other.
 */
module CacheControl {
  import opened Options

  datatype Directive =
    | RevalidateAfter | NeverCache | StandardCache | IgnoreNoCache
    | IgnoreClientNoCache | IgnoreServerNoCache | PinInCache | TtlInCache

  /** A rule: its line, its directive and argument, whether its modifiers accept the request, and its
      cookie tweak, negative when it has none. */
  datatype Rule = Rule(line: nat, directive: Directive, time: int, accepts: bool, cookies: int)

  const UNSET: int := -1

  /** The result's fields. */
  datatype View = View(
    revalidateAfter: int, pinInCacheFor: int, ttlInCache: int,
    neverCache: bool, ignoreClient: bool, ignoreServer: bool, cookies: int,
    revalLine: int, neverLine: int, pinLine: int, ttlLine: int, ignoreClientLine: int, ignoreServerLine: int)

  const INITIAL := View(UNSET, UNSET, UNSET, false, false, false, -1, -1, -1, -1, -1, -1, -1)

  predicate CheckForMatch(rule: Rule, last: int) {
    (last < 0 || last > rule.line) && rule.accepts
  }

  /** Fields after the client half of the two ignore directives. */
  function SetIgnoreClient(v: View, rule: Rule): View {
    if CheckForMatch(rule, v.ignoreClientLine) then v.(ignoreClient := true, ignoreClientLine := rule.line) else v
  }

  function SetIgnoreServer(v: View, rule: Rule): View {
    if CheckForMatch(rule, v.ignoreServerLine) then v.(ignoreServer := true, ignoreServerLine := rule.line) else v
  }

  function SetDirective(v: View, rule: Rule): View {
    match rule.directive
    case RevalidateAfter =>
      if CheckForMatch(rule, v.revalLine) then v.(revalidateAfter := rule.time, revalLine := rule.line) else v
    case NeverCache =>
      if CheckForMatch(rule, v.neverLine) && v.ttlLine == -1 then v.(neverCache := true, neverLine := rule.line) else v
    case StandardCache =>
      if CheckForMatch(rule, v.neverLine) then v.(neverCache := false, neverLine := rule.line) else v
    case IgnoreNoCache => SetIgnoreServer(SetIgnoreClient(v, rule), rule)
    case IgnoreClientNoCache => SetIgnoreClient(v, rule)
    case IgnoreServerNoCache => SetIgnoreServer(v, rule)
    case PinInCache =>
      if CheckForMatch(rule, v.pinLine) then v.(pinInCacheFor := rule.time, pinLine := rule.line) else v
    case TtlInCache =>
      if CheckForMatch(rule, v.ttlLine) then
        v.(ttlInCache := rule.time, ttlLine := rule.line, neverCache := false, neverLine := rule.line)
      else v
  }

  function Update(v: View, rule: Rule): View {
    var v' := SetDirective(v, rule);
    if rule.cookies >= 0 then v'.(cookies := rule.cookies) else v'
  }

  function UpdateAll(rules: seq<Rule>): View {
    if rules == [] then INITIAL else Update(UpdateAll(rules[..|rules| - 1]), rules[|rules| - 1])
  }

  /** The object that the rules update. */
  class CacheControlResult {
    var revalidateAfter: int
    var pinInCacheFor: int
    var ttlInCache: int
    var neverCache: bool
    var ignoreClientNoCache: bool
    var ignoreServerNoCache: bool
    var cacheResponsesToCookies: int
    var revalLine: int
    var neverLine: int
    var pinLine: int
    var ttlLine: int
    var ignoreClientLine: int
    var ignoreServerLine: int

    ghost function Current(): View
      reads this
    {
      View(revalidateAfter, pinInCacheFor, ttlInCache, neverCache, ignoreClientNoCache, ignoreServerNoCache,
           cacheResponsesToCookies, revalLine, neverLine, pinLine, ttlLine, ignoreClientLine, ignoreServerLine)
    }

    constructor ()
      ensures Current() == INITIAL
    {
      revalidateAfter, pinInCacheFor, ttlInCache := UNSET, UNSET, UNSET;
      neverCache, ignoreClientNoCache, ignoreServerNoCache, cacheResponsesToCookies := false, false, false, -1;
      revalLine, neverLine, pinLine, ttlLine, ignoreClientLine, ignoreServerLine := -1, -1, -1, -1, -1, -1;
    }

    method UpdateMatch(rule: Rule)
      modifies this
      ensures Current() == Update(old(Current()), rule)
    {
      match rule.directive {
        case RevalidateAfter =>
          if CheckForMatch(rule, revalLine) {
            revalidateAfter, revalLine := rule.time, rule.line;
          }
        case NeverCache =>
          if CheckForMatch(rule, neverLine) {
            if ttlLine == -1 {
              neverCache, neverLine := true, rule.line;
            }
          }
        case StandardCache =>
          if CheckForMatch(rule, neverLine) {
            neverCache, neverLine := false, rule.line;
          }
        case IgnoreNoCache =>
          if CheckForMatch(rule, ignoreClientLine) {
            ignoreClientNoCache, ignoreClientLine := true, rule.line;
          }
          if CheckForMatch(rule, ignoreServerLine) {
            ignoreServerNoCache, ignoreServerLine := true, rule.line;
          }
        case IgnoreClientNoCache =>
          if CheckForMatch(rule, ignoreClientLine) {
            ignoreClientNoCache, ignoreClientLine := true, rule.line;
          }
        case IgnoreServerNoCache =>
          if CheckForMatch(rule, ignoreServerLine) {
            ignoreServerNoCache, ignoreServerLine := true, rule.line;
          }
        case PinInCache =>
          if CheckForMatch(rule, pinLine) {
            pinInCacheFor, pinLine := rule.time, rule.line;
          }
        case TtlInCache =>
          if CheckForMatch(rule, ttlLine) {
            ttlInCache, ttlLine := rule.time, rule.line;
            neverCache, neverLine := false, rule.line;
          }
      }
      if rule.cookies >= 0 {
        cacheResponsesToCookies := rule.cookies;
      }
    }

    /** The tables hand over the rules that select the request, one after the other. */
    method Match(rules: seq<Rule>)
      requires Current() == INITIAL
      modifies this
      ensures Current() == UpdateAll(rules)
    {
      var i := 0;
      while i < |rules|
        invariant 0 <= i <= |rules| && Current() == UpdateAll(rules[..i])
      {
        UpdateMatch(rules[i]);
        assert rules[..i + 1][..i] == rules[..i];
        i := i + 1;
      }
      assert rules[..i] == rules;
    }
  }

  // ---------------------------------------------------------------------------
  // What the configuration file means: for each parameter, the first line that applies.

  datatype Parameter = Revalidate | Pin | Ttl | IgnoreClient | IgnoreServer | Never

  /** The rule applies to the request and sets the parameter. */
  predicate Applies(rule: Rule, p: Parameter) {
    rule.accepts &&
    match p
    case Revalidate => rule.directive.RevalidateAfter?
    case Pin => rule.directive.PinInCache?
    case Ttl => rule.directive.TtlInCache?
    case IgnoreClient => rule.directive.IgnoreNoCache? || rule.directive.IgnoreClientNoCache?
    case IgnoreServer => rule.directive.IgnoreNoCache? || rule.directive.IgnoreServerNoCache?
    case Never => rule.directive.NeverCache? || rule.directive.StandardCache?
  }

  ghost predicate SomeApplies(rules: seq<Rule>, p: Parameter) {
    exists i :: 0 <= i < |rules| && Applies(rules[i], p)
  }

  /** `first` is the applicable rule on the earliest line. */
  ghost predicate IsFirst(rules: seq<Rule>, p: Parameter, first: Rule) {
    && first in rules && Applies(first, p)
    && forall i :: 0 <= i < |rules| && Applies(rules[i], p) ==> first.line <= rules[i].line
  }

  /** Each line of the file holds one rule. */
  ghost predicate OneRulePerLine(rules: seq<Rule>) {
    forall i, j :: 0 <= i < |rules| && 0 <= j < |rules| && rules[i].line == rules[j].line ==> rules[i] == rules[j]
  }

  /** The earliest applicable rule, looking at the rules in the given order. */
  function First(rules: seq<Rule>, p: Parameter): Option<Rule> {
    if rules == [] then None
    else
      Earlier(First(rules[..|rules| - 1], p), rules[|rules| - 1], p)
  }

  function Earlier(f: Option<Rule>, rule: Rule, p: Parameter): Option<Rule> {
    if Applies(rule, p) && (f.None? || f.value.line > rule.line) then Some(rule) else f
  }

  function LineOf(f: Option<Rule>): int {
    if f.None? then -1 else f.value.line
  }

  function TimeOf(f: Option<Rule>): int {
    if f.None? then UNSET else f.value.time
  }

  lemma {:induction false} FirstIsFirst(rules: seq<Rule>, p: Parameter)
    ensures First(rules, p).None? ==> !SomeApplies(rules, p)
    ensures First(rules, p).Some? ==> IsFirst(rules, p, First(rules, p).value)
    decreases |rules|
  {
    if rules != [] {
      FirstIsFirst(rules[..|rules| - 1], p);
    }
  }

  lemma FirstIsUnique(rules: seq<Rule>, p: Parameter, a: Rule, b: Rule)
    requires OneRulePerLine(rules) && IsFirst(rules, p, a) && IsFirst(rules, p, b)
    ensures a == b
  {
    var i :| 0 <= i < |rules| && rules[i] == a;
    var j :| 0 <= j < |rules| && rules[j] == b;
  }

  /** What the fields hold after any rules, in terms of the earliest applicable ones. */
  ghost predicate Summary(v: View, rules: seq<Rule>) {
    && TimedSummary(v, First(rules, Revalidate), First(rules, Pin), First(rules, Ttl))
    && IgnoreSummary(v, First(rules, IgnoreClient), First(rules, IgnoreServer))
    && NeverSummary(v, First(rules, Ttl), First(rules, Never))
  }

  ghost predicate TimedSummary(v: View, reval: Option<Rule>, pin: Option<Rule>, ttl: Option<Rule>) {
    && v.revalLine == LineOf(reval) && v.revalidateAfter == TimeOf(reval)
    && v.pinLine == LineOf(pin) && v.pinInCacheFor == TimeOf(pin)
    && v.ttlLine == LineOf(ttl) && v.ttlInCache == TimeOf(ttl)
  }

  ghost predicate IgnoreSummary(v: View, client: Option<Rule>, server: Option<Rule>) {
    && v.ignoreClientLine == LineOf(client) && v.ignoreClient == client.Some?
    && v.ignoreServerLine == LineOf(server) && v.ignoreServer == server.Some?
  }

  /** Any ttl rule overrules every never-cache rule; without one, the earliest of the never-cache and
      standard-cache rules decides. */
  ghost predicate NeverSummary(v: View, ttl: Option<Rule>, never: Option<Rule>) {
    && v.ttlLine == LineOf(ttl)
    && if ttl.Some? then !v.neverCache
       else v.neverLine == LineOf(never) && v.neverCache == (never.Some? && never.value.directive.NeverCache?)
  }

  lemma RevalidateStep(v: View, rule: Rule, f: Option<Rule>)
    requires v.revalLine == LineOf(f) && v.revalidateAfter == TimeOf(f)
    ensures
      var v', f' := Update(v, rule), Earlier(f, rule, Revalidate);
      v'.revalLine == LineOf(f') && v'.revalidateAfter == TimeOf(f')
  {
  }

  lemma PinStep(v: View, rule: Rule, f: Option<Rule>)
    requires v.pinLine == LineOf(f) && v.pinInCacheFor == TimeOf(f)
    ensures
      var v', f' := Update(v, rule), Earlier(f, rule, Pin);
      v'.pinLine == LineOf(f') && v'.pinInCacheFor == TimeOf(f')
  {
  }

  lemma TtlStep(v: View, rule: Rule, f: Option<Rule>)
    requires v.ttlLine == LineOf(f) && v.ttlInCache == TimeOf(f)
    ensures
      var v', f' := Update(v, rule), Earlier(f, rule, Ttl);
      v'.ttlLine == LineOf(f') && v'.ttlInCache == TimeOf(f')
  {
  }

  lemma IgnoreStep(v: View, rule: Rule, client: Option<Rule>, server: Option<Rule>)
    requires IgnoreSummary(v, client, server)
    ensures IgnoreSummary(Update(v, rule), Earlier(client, rule, IgnoreClient), Earlier(server, rule, IgnoreServer))
  {
  }

  lemma NeverStep(v: View, rule: Rule, ttl: Option<Rule>, never: Option<Rule>)
    requires NeverSummary(v, ttl, never)
    ensures NeverSummary(Update(v, rule), Earlier(ttl, rule, Ttl), Earlier(never, rule, Never))
  {
  }

  lemma {:induction false} SummaryHolds(rules: seq<Rule>)
    ensures Summary(UpdateAll(rules), rules)
    decreases |rules|
  {
    if rules != [] {
      var front, rule := rules[..|rules| - 1], rules[|rules| - 1];
      var v := UpdateAll(front);
      SummaryHolds(front);
      RevalidateStep(v, rule, First(front, Revalidate));
      PinStep(v, rule, First(front, Pin));
      TtlStep(v, rule, First(front, Ttl));
      IgnoreStep(v, rule, First(front, IgnoreClient), First(front, IgnoreServer));
      NeverStep(v, rule, First(front, Ttl), First(front, Never));
    }
  }

  // ---------------------------------------------------------------------------
  // Main results

  /** Whatever the order in which the rules arrive: each timed parameter has the argument of the earliest
      rule that applies, the ignore flags say whether any rule applies, and never-cache is off if any ttl
      rule applies and otherwise decided by the earliest never-cache or standard-cache rule. */
  lemma FirstLineWins(rules: seq<Rule>, r: Rule)
    requires OneRulePerLine(rules)
    ensures
      var v := UpdateAll(rules);
      && (IsFirst(rules, Revalidate, r) ==> v.revalidateAfter == r.time)
      && (IsFirst(rules, Pin, r) ==> v.pinInCacheFor == r.time)
      && (IsFirst(rules, Ttl, r) ==> v.ttlInCache == r.time)
      && (!SomeApplies(rules, Revalidate) ==> v.revalidateAfter == UNSET)
      && (!SomeApplies(rules, Pin) ==> v.pinInCacheFor == UNSET)
      && (!SomeApplies(rules, Ttl) ==> v.ttlInCache == UNSET)
      && (v.ignoreClient <==> SomeApplies(rules, IgnoreClient))
      && (v.ignoreServer <==> SomeApplies(rules, IgnoreServer))
      && (SomeApplies(rules, Ttl) || !SomeApplies(rules, Never) ==> !v.neverCache)
      && (!SomeApplies(rules, Ttl) && IsFirst(rules, Never, r) ==> v.neverCache == r.directive.NeverCache?)
  {
    SummaryHolds(rules);
    forall p: Parameter
      ensures First(rules, p).None? <==> !SomeApplies(rules, p)
      ensures IsFirst(rules, p, r) ==> First(rules, p) == Some(r)
    {
      FirstIsFirst(rules, p);
      if IsFirst(rules, p, r) {
        FirstIsUnique(rules, p, r, First(rules, p).value);
      }
    }
  }

  lemma SameMembers(a: seq<Rule>, b: seq<Rule>)
    requires multiset(a) == multiset(b)
    ensures forall i :: 0 <= i < |a| ==> a[i] in b
    ensures forall i :: 0 <= i < |b| ==> b[i] in a
  {
    forall i | 0 <= i < |a|
      ensures a[i] in b
    {
      assert a[i] in multiset(a);
    }
    forall i | 0 <= i < |b|
      ensures b[i] in a
    {
      assert b[i] in multiset(b);
    }
  }

  lemma FirstInOtherOrder(a: seq<Rule>, b: seq<Rule>, p: Parameter, r: Rule)
    requires multiset(a) == multiset(b) && IsFirst(a, p, r)
    ensures IsFirst(b, p, r)
  {
    SameMembers(a, b);
    assert exists i :: 0 <= i < |a| && a[i] == r;
    forall i | 0 <= i < |b| && Applies(b[i], p)
      ensures r.line <= b[i].line
    {
      var k :| 0 <= k < |a| && a[k] == b[i];
    }
  }

  lemma FirstInAnyOrder(a: seq<Rule>, b: seq<Rule>, p: Parameter)
    requires OneRulePerLine(a) && multiset(a) == multiset(b)
    ensures First(a, p) == First(b, p)
  {
    FirstIsFirst(a, p);
    FirstIsFirst(b, p);
    if First(b, p).Some? {
      FirstInOtherOrder(b, a, p, First(b, p).value);
      FirstIsUnique(a, p, First(a, p).value, First(b, p).value);
    }
    if First(a, p).Some? {
      FirstInOtherOrder(a, b, p, First(a, p).value);
    }
  }

  /** The settings a request gets, without the trackers. */
  function Settings(v: View): (int, int, int, bool, bool, bool) {
    (v.revalidateAfter, v.pinInCacheFor, v.ttlInCache, v.neverCache, v.ignoreClient, v.ignoreServer)
  }

  /** The settings do not depend on the order in which the tables hand the rules over. */
  lemma OrderDoesNotMatter(a: seq<Rule>, b: seq<Rule>)
    requires OneRulePerLine(a) && multiset(a) == multiset(b)
    ensures Settings(UpdateAll(a)) == Settings(UpdateAll(b))
  {
    SummaryHolds(a);
    SummaryHolds(b);
    forall p: Parameter
      ensures First(a, p) == First(b, p)
    {
      FirstInAnyOrder(a, b, p);
    }
  }

  // ---------------------------------------------------------------------------
  // The cookie tweak has no tracker: the rule handed over last wins, even if it does not apply.

  ghost predicate TweaksAgree(rules: seq<Rule>) {
    forall i, j :: 0 <= i < |rules| && 0 <= j < |rules| && rules[i].cookies >= 0 && rules[j].cookies >= 0 ==>
      rules[i].cookies == rules[j].cookies
  }

  ghost predicate Carries(rules: seq<Rule>, c: int) {
    c >= 0 && exists i :: 0 <= i < |rules| && rules[i].cookies == c
  }

  lemma {:induction false} CookiesAreCarried(rules: seq<Rule>, d: int)
    ensures UpdateAll(rules).cookies == -1 || Carries(rules, UpdateAll(rules).cookies)
    ensures Carries(rules, d) ==> UpdateAll(rules).cookies >= 0
    decreases |rules|
  {
    if rules != [] {
      var n := |rules| - 1;
      CookiesAreCarried(rules[..n], d);
      assert forall i :: 0 <= i < n ==> rules[..n][i] == rules[i];
      if Carries(rules, d) && rules[n].cookies < 0 {
        var i :| 0 <= i < |rules| && rules[i].cookies == d;
        assert rules[..n][i].cookies == d;
      }
    }
  }

  /** The rules with rule `i` moved to the end. */
  function MovedLast(rules: seq<Rule>, i: nat): seq<Rule>
    requires i < |rules|
  {
    rules[..i] + rules[i + 1..] + [rules[i]]
  }

  lemma MovedLastIsPermutation(rules: seq<Rule>, i: nat)
    requires i < |rules|
    ensures multiset(MovedLast(rules, i)) == multiset(rules)
  {
    assert rules == rules[..i] + [rules[i]] + rules[i + 1..];
  }

  /** The cookie tweak is independent of the order if and only if all rules that carry one carry the same. */
  lemma CookieOrderMatters(rules: seq<Rule>)
    ensures TweaksAgree(rules) <==>
      forall other :: multiset(other) == multiset(rules) ==> UpdateAll(other).cookies == UpdateAll(rules).cookies
  {
    if TweaksAgree(rules) {
      forall other | multiset(other) == multiset(rules)
        ensures UpdateAll(other).cookies == UpdateAll(rules).cookies
      {
        SameTweaks(rules, other);
      }
    } else {
      var i, j :| 0 <= i < |rules| && 0 <= j < |rules| && rules[i].cookies >= 0 && rules[j].cookies >= 0 &&
        rules[i].cookies != rules[j].cookies;
      LastTweakWins(rules, i);
      LastTweakWins(rules, j);
      MovedLastIsPermutation(rules, i);
      MovedLastIsPermutation(rules, j);
    }
  }

  lemma LastTweakWins(rules: seq<Rule>, i: nat)
    requires i < |rules| && rules[i].cookies >= 0
    ensures UpdateAll(MovedLast(rules, i)).cookies == rules[i].cookies
  {
    var m := MovedLast(rules, i);
    assert m[|m| - 1] == rules[i];
  }

  /** The tweak is that of the last rule that carries one, applicable or not. */
  lemma {:induction false} LastCarriedTweak(rules: seq<Rule>, i: nat)
    requires i < |rules| && rules[i].cookies >= 0 && forall j :: i < j < |rules| ==> rules[j].cookies < 0
    ensures UpdateAll(rules).cookies == rules[i].cookies
    decreases |rules|
  {
    if i < |rules| - 1 {
      LastCarriedTweak(rules[..|rules| - 1], i);
    }
  }

  lemma CarriedInOtherOrder(a: seq<Rule>, b: seq<Rule>, c: int)
    requires multiset(a) == multiset(b) && Carries(a, c)
    ensures Carries(b, c)
  {
    SameMembers(a, b);
    var i :| 0 <= i < |a| && a[i].cookies == c;
    var k :| 0 <= k < |b| && b[k] == a[i];
  }

  lemma SameTweaks(rules: seq<Rule>, other: seq<Rule>)
    requires TweaksAgree(rules) && multiset(other) == multiset(rules)
    ensures UpdateAll(other).cookies == UpdateAll(rules).cookies
  {
    var c, d := UpdateAll(rules).cookies, UpdateAll(other).cookies;
    CookiesAreCarried(rules, d);
    CookiesAreCarried(other, c);
    if Carries(other, d) {
      CarriedInOtherOrder(other, rules, d);
    }
    if Carries(rules, c) {
      CarriedInOtherOrder(rules, other, c);
    }
  }
}
