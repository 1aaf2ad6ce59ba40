/**
  The Doxygen name escape of `doc/ext/doxygen.py`: 23 whole-string replacements
  applied one after the other.
 */
module NameEscape {

  /** One replacement: every occurrence of a character becomes a string. */
  datatype Rule = Rule(from: char, code: string)

  /** Python's `str.replace` for a one-character pattern. */
  function Replace(s: string, rule: Rule): string {
    if s == [] then [] else (if s[0] == rule.from then rule.code else [s[0]]) + Replace(s[1..], rule)
  }

  function Chain(s: string, rules: seq<Rule>): string
    decreases |rules|
  {
    if rules == [] then s else Chain(Replace(s, rules[0]), rules[1..])
  }

  const RULES: seq<Rule> := [
    Rule('_', "__"), Rule(':', "_1"), Rule('/', "_2"), Rule('<', "_3"), Rule('>', "_4"), Rule('*', "_5"),
    Rule('&', "_6"), Rule('|', "_7"), Rule('.', "_8"), Rule('!', "_9"), Rule(',', "_00"), Rule(' ', "_01"),
    Rule('{', "_02"), Rule('}', "_03"), Rule('?', "_04"), Rule('^', "_05"), Rule('%', "_06"), Rule('(', "_07"),
    Rule(')', "_08"), Rule('+', "_09"), Rule('=', "_0A"), Rule('$', "_0B"), Rule('\\', "_0C")]

  function Escape(name: string): string {
    Chain(name, RULES)
  }

  // ---------------------------------------------------------------------------
  // The simple form: each character on its own.

  /** The code of `c`: that of the first rule for it, or `c` itself. */
  function Code(c: char, rules: seq<Rule>): string {
    if rules == [] then [c] else if rules[0].from == c then rules[0].code else Code(c, rules[1..])
  }

  function EachCoded(s: string, rules: seq<Rule>): string {
    if s == [] then [] else Code(s[0], rules) + EachCoded(s[1..], rules)
  }

  /** No rule rewrites what an earlier rule has written. */
  ghost predicate Settled(rules: seq<Rule>) {
    forall i, j, k :: 0 <= i < j < |rules| && 0 <= k < |rules[i].code| ==> rules[i].code[k] != rules[j].from
  }

  ghost predicate Untouched(s: string, rules: seq<Rule>) {
    forall j, k :: 0 <= j < |rules| && 0 <= k < |s| ==> s[k] != rules[j].from
  }

  lemma {:induction false} UncodedChar(c: char, rules: seq<Rule>)
    requires forall j :: 0 <= j < |rules| ==> c != rules[j].from
    ensures Code(c, rules) == [c]
    decreases |rules|
  {
    if rules != [] {
      UncodedChar(c, rules[1..]);
    }
  }

  lemma {:induction false} UntouchedStays(s: string, rules: seq<Rule>)
    requires Untouched(s, rules)
    ensures EachCoded(s, rules) == s
    decreases |s|
  {
    if s != [] {
      UncodedChar(s[0], rules);
      UntouchedStays(s[1..], rules);
    }
  }

  lemma {:induction false} EachCodedConcat(a: string, b: string, rules: seq<Rule>)
    ensures EachCoded(a + b, rules) == EachCoded(a, rules) + EachCoded(b, rules)
    decreases |a|
  {
    if a == [] {
      assert a + b == b;
    } else {
      EachCodedConcat(a[1..], b, rules);
      assert (a + b)[1..] == a[1..] + b;
    }
  }

  /** Applying the first rule to the whole string and the others to each character is applying them
      all to each character. */
  lemma {:induction false} FirstRuleFirst(s: string, rules: seq<Rule>)
    requires rules != [] && Settled(rules)
    ensures EachCoded(Replace(s, rules[0]), rules[1..]) == EachCoded(s, rules)
    decreases |s|
  {
    if s != [] {
      var r, rest := rules[0], rules[1..];
      FirstRuleFirst(s[1..], rules);
      if s[0] == r.from {
        EachCodedConcat(r.code, Replace(s[1..], r), rest);
        UntouchedStays(r.code, rest);
      } else {
        EachCodedConcat([s[0]], Replace(s[1..], r), rest);
        assert EachCoded([s[0]], rest) == Code(s[0], rest);
      }
    }
  }

  lemma {:induction false} ChainIsEachCoded(s: string, rules: seq<Rule>)
    requires Settled(rules)
    ensures Chain(s, rules) == EachCoded(s, rules)
    decreases |rules|
  {
    if rules == [] {
      UntouchedStays(s, rules);
    } else {
      FirstRuleFirst(s, rules);
      ChainIsEachCoded(Replace(s, rules[0]), rules[1..]);
    }
  }

  // ---------------------------------------------------------------------------
  // Decoding

  /** No code is the beginning of another, all begin with the first rule's character, which is itself coded. */
  ghost predicate PrefixCode(rules: seq<Rule>) {
    && rules != []
    && (forall i :: 0 <= i < |rules| ==> rules[i].code != [] && rules[i].code[0] == rules[0].from)
    && (forall i, j :: 0 <= i < |rules| && 0 <= j < |rules| && i != j ==> !(rules[i].code <= rules[j].code))
  }

  /** The first rule whose code begins `s`, or the number of rules. */
  function Match(s: string, rules: seq<Rule>): (i: nat)
    ensures i <= |rules|
    ensures i < |rules| ==> rules[i].code <= s
    ensures forall j :: 0 <= j < i ==> !(rules[j].code <= s)
  {
    if rules == [] || rules[0].code <= s then 0 else 1 + Match(s, rules[1..])
  }

  /** Read codes off the front; a character that begins no code stands for itself. */
  function Unescape(s: string, rules: seq<Rule>): string
    decreases |s|
  {
    if s == [] then []
    else
      var i := Match(s, rules);
      if i < |rules| && rules[i].code != [] then [rules[i].from] + Unescape(s[|rules[i].code|..], rules)
      else [s[0]] + Unescape(s[1..], rules)
  }

  /** The rule that codes `c`, or the number of rules. */
  lemma {:induction false} CodeIsRule(c: char, rules: seq<Rule>) returns (i: nat)
    ensures i <= |rules|
    ensures i < |rules| ==> rules[i].from == c && Code(c, rules) == rules[i].code
    ensures i == |rules| ==> Code(c, rules) == [c] && forall j :: 0 <= j < |rules| ==> c != rules[j].from
    decreases |rules|
  {
    if rules == [] || rules[0].from == c {
      i := 0;
    } else {
      i := CodeIsRule(c, rules[1..]);
      i := i + 1;
    }
  }

  lemma PrefixesCompare(a: string, b: string, s: string)
    requires a <= s && b <= s
    ensures a <= b || b <= a
  {
    assert a == s[..|a|] && b == s[..|b|];
  }

  /** Decoding what begins with the code of `c` yields `c` and goes on after the code. */
  lemma DecodeOne(c: char, rest: string, rules: seq<Rule>)
    requires PrefixCode(rules)
    ensures Unescape(Code(c, rules) + rest, rules) == [c] + Unescape(rest, rules)
  {
    var i := CodeIsRule(c, rules);
    var s := Code(c, rules) + rest;
    if i < |rules| {
      var m := Match(s, rules);
      var code := rules[i].code;
      assert code <= s;
      PrefixesCompare(rules[m].code, code, s);
      assert m == i;
      assert s[|code|..] == rest;
    } else {
      assert rules[0].from != c && s[0] == c;
      assert s[1..] == rest;
    }
  }

  lemma {:induction false} DecodeAll(s: string, rules: seq<Rule>)
    requires PrefixCode(rules)
    ensures Unescape(EachCoded(s, rules), rules) == s
    decreases |s|
  {
    if s != [] {
      DecodeOne(s[0], EachCoded(s[1..], rules), rules);
      DecodeAll(s[1..], rules);
    }
  }

  // ---------------------------------------------------------------------------
  // The 23 rules

  /** The characters that codes are written with. */
  predicate CodeChar(c: char) {
    c == '_' || '0' <= c <= '9' || 'A' <= c <= 'C'
  }

  lemma RulesAreSettled()
    ensures Settled(RULES)
  {
    assert forall i, k :: 0 <= i < |RULES| && 0 <= k < |RULES[i].code| ==> CodeChar(RULES[i].code[k]);
    assert forall j :: 1 <= j < |RULES| ==> !CodeChar(RULES[j].from);
  }

  /** Which rule a code belongs to, read off its second and, after a zero, its third character. */
  function Slot(code: string): int
    requires |code| >= 2
  {
    if code[1] == '_' then 0
    else if code[1] != '0' then code[1] as int - '0' as int
    else if |code| < 3 then -1
    else if code[2] <= '9' then 10 + (code[2] as int - '0' as int)
    else 20 + (code[2] as int - 'A' as int)
  }

  lemma RuleHasItsSlot(i: nat)
    requires i < |RULES|
    ensures
      var code := RULES[i].code;
      && 2 <= |code| <= 3 && code[0] == '_' && Slot(code) == i
      && (|code| == 3 <==> code[1] == '0')
  {
  }

  lemma RulesArePrefixCode()
    ensures PrefixCode(RULES)
  {
    forall i | 0 <= i < |RULES|
      ensures RULES[i].code != [] && RULES[i].code[0] == RULES[0].from
    {
      RuleHasItsSlot(i);
    }
    forall i, j | 0 <= i < |RULES| && 0 <= j < |RULES| && i != j
      ensures !(RULES[i].code <= RULES[j].code)
    {
      RuleHasItsSlot(i);
      RuleHasItsSlot(j);
      SlotOfPrefix(RULES[i].code, RULES[j].code);
    }
  }

  lemma SlotOfPrefix(a: string, b: string)
    requires 2 <= |a| <= 3 && 2 <= |b| <= 3 && (|a| == 3 <==> a[1] == '0')
    ensures a <= b ==> Slot(a) == Slot(b)
  {
  }

  /** The chain of replacements is one pass that codes each character. */
  lemma EscapeIsOnePass(name: string)
    ensures Escape(name) == EachCoded(name, RULES)
  {
    RulesAreSettled();
    ChainIsEachCoded(name, RULES);
  }

  /** The codes one by one. */
  function CodeOf(c: char): string {
    match c
    case '_' => "__" case ':' => "_1" case '/' => "_2" case '<' => "_3" case '>' => "_4" case '*' => "_5"
    case '&' => "_6" case '|' => "_7" case '.' => "_8" case '!' => "_9" case ',' => "_00" case ' ' => "_01"
    case '{' => "_02" case '}' => "_03" case '?' => "_04" case '^' => "_05" case '%' => "_06" case '(' => "_07"
    case ')' => "_08" case '+' => "_09" case '=' => "_0A" case '$' => "_0B" case '\\' => "_0C"
    case _ => [c]
  }

  lemma RuleSpells(i: nat)
    requires i < |RULES|
    ensures RULES[i].code == CodeOf(RULES[i].from)
  {
  }

  lemma {:induction false} CodeOfRule(c: char, rules: seq<Rule>, i: nat)
    requires i < |rules| && rules[i].from == c && forall j :: 0 <= j < i ==> rules[j].from != c
    ensures Code(c, rules) == rules[i].code
    decreases i
  {
    if i > 0 {
      CodeOfRule(c, rules[1..], i - 1);
    }
  }

  lemma OneRulePerChar(i: nat, j: nat)
    requires i < j < |RULES|
    ensures RULES[i].from != RULES[j].from
  {
  }

  lemma CodeSpells(c: char)
    ensures Code(c, RULES) == CodeOf(c)
  {
    if i :| 0 <= i < |RULES| && RULES[i].from == c {
      forall j | 0 <= j < i ensures RULES[j].from != c {
        OneRulePerChar(j, i);
      }
      CodeOfRule(c, RULES, i);
      RuleSpells(i);
    } else {
      UncodedChar(c, RULES);
      NoCode(c);
    }
  }

  lemma NoCode(c: char)
    requires forall i :: 0 <= i < |RULES| ==> RULES[i].from != c
    ensures CodeOf(c) == [c]
  {
    assert c != RULES[0].from && c != RULES[1].from && c != RULES[2].from && c != RULES[3].from && c != RULES[4].from && c != RULES[5].from;
    assert c != RULES[6].from && c != RULES[7].from && c != RULES[8].from && c != RULES[9].from && c != RULES[10].from && c != RULES[11].from;
    assert c != RULES[12].from && c != RULES[13].from && c != RULES[14].from && c != RULES[15].from && c != RULES[16].from && c != RULES[17].from;
    assert c != RULES[18].from && c != RULES[19].from && c != RULES[20].from && c != RULES[21].from && c != RULES[22].from;
  }

  function Spelled(name: string): string {
    if name == [] then [] else CodeOf(name[0]) + Spelled(name[1..])
  }

  lemma {:induction false} EachSpelled(name: string)
    ensures EachCoded(name, RULES) == Spelled(name)
  {
    if name != [] {
      CodeSpells(name[0]);
      EachSpelled(name[1..]);
    }
  }

  /** A name is escaped by these codes, character by character. */
  lemma EscapeSpells(name: string)
    ensures Escape(name) == Spelled(name)
  {
    EscapeIsOnePass(name);
    EachSpelled(name);
  }

  lemma UnescapeUndoesEscape(name: string)
    ensures Unescape(Escape(name), RULES) == name
  {
    EscapeIsOnePass(name);
    RulesArePrefixCode();
    DecodeAll(name, RULES);
  }

  /** Distinct names never escape to the same string. */
  lemma EscapeIsInjective(a: string, b: string)
    requires Escape(a) == Escape(b)
    ensures a == b
  {
    UnescapeUndoesEscape(a);
    UnescapeUndoesEscape(b);
  }
}
