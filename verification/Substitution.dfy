/**
 What the sanitizer does to a text, told by where it cuts: the regular expressions of the six passes
 written out, the spans each of them replaces, and the text in between, which stays as it is.
 */
module Substitution {
  import opened Wrappers
  import opened Sequences
  import opened Patterns
  import opened Rewriting
  import opened Regex
  import opened Sanitization

  // ---- cutting a text ----

  /** The span t[from..to]. */
  datatype Cut = Cut(from: nat, to: nat)

  /** No match starts in a..b. */
  ghost predicate NoMatch(m: (nat, nat) -> bool, a: nat, b: nat) {
    forall x: nat, y: nat | a <= x < b :: !m(x, y)
  }

  /** From position i on: the cuts are matches, one after the other, and no match starts in the text
      before, between and after them. */
  ghost predicate CutsFrom(m: (nat, nat) -> bool, t: string, i: nat, cuts: seq<Cut>)
    decreases |cuts|
  {
    if cuts == [] then NoMatch(m, i, |t| + 1)
    else
      && i <= cuts[0].from < cuts[0].to <= |t| && m(cuts[0].from, cuts[0].to)
      && NoMatch(m, i, cuts[0].from)
      && CutsFrom(m, t, cuts[0].to, cuts[1..])
  }

  /** t[i..] with `repl` in the place of every cut, and the text between the cuts as it is. */
  function Replaced(t: string, i: nat, cuts: seq<Cut>, repl: string): string
    decreases |cuts|
  {
    if cuts == [] then (if i <= |t| then t[i..] else "")
    else (if i <= cuts[0].from <= |t| then t[i..cuts[0].from] else "") + repl + Replaced(t, cuts[0].to, cuts[1..], repl)
  }

  // ---- the substitution of one pattern ----

  /** `m` tells where the pattern matches. */
  ghost predicate Tells(m: (nat, nat) -> bool, ct: CharTable, q: Pattern, t: string) {
    forall x: nat, y: nat :: m(x, y) <==> MatchEnd(ct, q, t, x) == Some(y)
  }

  lemma ReplacedCut(t: string, i: nat, e: nat, rest: seq<Cut>, repl: string)
    requires i < e <= |t|
    ensures Replaced(t, i, [Cut(i, e)] + rest, repl) == repl + Replaced(t, e, rest, repl)
  {
    var cuts := [Cut(i, e)] + rest;
    assert cuts[1..] == rest && t[i..i] == "";
    assert "" + repl == repl;
  }

  lemma ReplacedCopy(t: string, i: nat, cuts: seq<Cut>, repl: string)
    requires i < |t| && (cuts != [] ==> i < cuts[0].from <= |t|)
    ensures Replaced(t, i, cuts, repl) == [t[i]] + Replaced(t, i + 1, cuts, repl)
  {
    if cuts == [] {
      assert t[i..] == [t[i]] + t[i + 1..];
    } else {
      var more := Replaced(t, cuts[0].to, cuts[1..], repl);
      assert t[i..cuts[0].from] == [t[i]] + t[i + 1..cuts[0].from];
      Associative([t[i]], t[i + 1..cuts[0].from], repl);
      Associative([t[i]], t[i + 1..cuts[0].from] + repl, more);
    }
  }

  lemma CutHere(m: (nat, nat) -> bool, t: string, i: nat, e: nat, rest: seq<Cut>)
    requires i < e <= |t| && m(i, e) && CutsFrom(m, t, e, rest)
    ensures CutsFrom(m, t, i, [Cut(i, e)] + rest)
  {
    assert ([Cut(i, e)] + rest)[1..] == rest;
  }

  lemma CopyHere(m: (nat, nat) -> bool, t: string, i: nat, cuts: seq<Cut>)
    requires i < |t| && NoMatch(m, i, i + 1) && CutsFrom(m, t, i + 1, cuts)
    ensures CutsFrom(m, t, i, cuts)
  {
  }

  /** Where a substitution cuts. */
  lemma {:induction false} SubCuts(m: (nat, nat) -> bool, ct: CharTable, q: Pattern, repl: string, t: string, i: nat)
    returns (cuts: seq<Cut>)
    requires Proper(q) && i <= |t| && Tells(m, ct, q, t)
    ensures CutsFrom(m, t, i, cuts) && Sub(ct, q, repl, t, i) == Replaced(t, i, cuts, repl)
    decreases |t| - i
  {
    if MatchEnd(ct, q, t, i).Some? {
      SubReplaces(ct, q, repl, t, i);
      var e := MatchEnd(ct, q, t, i).value;
      var rest := SubCuts(m, ct, q, repl, t, e);
      cuts := [Cut(i, e)] + rest;
      CutHere(m, t, i, e, rest);
      ReplacedCut(t, i, e, rest, repl);
    } else if i == |t| {
      cuts := [];
    } else {
      cuts := SubCuts(m, ct, q, repl, t, i + 1);
      CopyHere(m, t, i, cuts);
      ReplacedCopy(t, i, cuts, repl);
    }
  }

  // ---- there is only one way to cut ----

  ghost predicate OneEnd(m: (nat, nat) -> bool) {
    forall x, y, z | m(x, y) && m(x, z) :: y == z
  }

  lemma {:induction false} CutsUnique(m: (nat, nat) -> bool, t: string, i: nat, a: seq<Cut>, b: seq<Cut>)
    requires CutsFrom(m, t, i, a) && CutsFrom(m, t, i, b) && OneEnd(m)
    ensures a == b
    decreases |a|
  {
    if a != [] && b != [] {
      assert m(a[0].from, a[0].to) && m(b[0].from, b[0].to);
      CutsUnique(m, t, a[0].to, a[1..], b[1..]);
      assert a == [a[0]] + a[1..] && b == [b[0]] + b[1..];
    }
  }

  /** A substitution is determined by where its pattern matches. */
  lemma SubstitutionIs(m: (nat, nat) -> bool, ct: CharTable, q: Pattern, repl: string, t: string)
    returns (cuts: seq<Cut>)
    requires Proper(q) && Tells(m, ct, q, t)
    ensures CutsFrom(m, t, 0, cuts) && Sub(ct, q, repl, t, 0) == Replaced(t, 0, cuts, repl)
    ensures forall other | CutsFrom(m, t, 0, other) :: other == cuts
  {
    cuts := SubCuts(m, ct, q, repl, t, 0);
    forall other | CutsFrom(m, t, 0, other) ensures other == cuts {
      CutsUnique(m, t, 0, cuts, other);
    }
  }

  // ---- the six passes ----

  /** The expressions of src/shared/sanitization.py, in the order of the passes. */
  function PassRegex(n: nat): seq<Atom> {
    match n
    case 0 => [Text("<|im_start|>"), Anything, Text("<|im_end|>")]
    case 1 => [Text("<|"), Anything, Text("|>")]
    case 2 => [Text("[INST]"), Anything, Text("[/INST]")]
    case 3 => [Text("<<SYS>>"), Anything, Text("<</SYS>>")]
    case 4 => [Text("```system"), WordBoundary, Anything, Text("```")]
    case _ => [Text("<"), Maybe("/"), OneOf(["system", "instruction", "tool_call", "function_call"]), WordBoundary,
               NoneOf('>'), Text(">")]
  }

  function PassReplacement(n: nat): string { if n < 5 then "[CONTENT_REMOVED]" else "[TAG_REMOVED]" }

  /** t[x..y] is what the expression of pass n matches at x: its shortest span there; the only one, for
      the tag expression. */
  ghost predicate PassMatch(ct: CharTable, n: nat, t: string, x: nat, y: nat) {
    if n < 5 then ShortestSpan(ct, false, PassRegex(n), t, x, y) else InLanguage(ct, true, PassRegex(n), t, x, y)
  }

  ghost function PassMatches(ct: CharTable, n: nat, t: string): (nat, nat) -> bool {
    (x: nat, y: nat) => PassMatch(ct, n, t, x, y)
  }

  /** The cuts of pass n. */
  ghost predicate PassCuts(ct: CharTable, n: nat, t: string, cuts: seq<Cut>) {
    CutsFrom(PassMatches(ct, n, t), t, 0, cuts)
  }

  lemma PassRegexIs(n: nat)
    requires n < 5
    ensures |INJECTION_PATTERNS| == 5 && |INJECTION_PATTERNS[n].opens| == 1
    ensures var q := INJECTION_PATTERNS[n]; SpanRegex(q.opens[0], q.wordEdge, q.close) == PassRegex(n)
  {
    var q := INJECTION_PATTERNS[n];
    assert n == 0 || n == 1 || n == 2 || n == 3 || n == 4;
    assert SpanRegex(q.opens[0], false, q.close) == [Text(q.opens[0]), Anything, Text(q.close)];
    assert SpanRegex(q.opens[0], true, q.close) == [Text(q.opens[0]), WordBoundary, Anything, Text(q.close)];
  }

  lemma RuleAt(n: nat)
    requires n < 6
    ensures |Rules()| == 6
    ensures Rules()[n] == if n < 5 then Rule(INJECTION_PATTERNS[n], "[CONTENT_REMOVED]") else Rule(XML, "[TAG_REMOVED]")
  {
  }

  lemma SpanTells(ct: CharTable, n: nat, t: string)
    requires n < 5
    ensures |INJECTION_PATTERNS| == 5 && Tells(PassMatches(ct, n, t), ct, INJECTION_PATTERNS[n], t)
  {
    PassRegexIs(n);
    forall x: nat, y: nat ensures PassMatches(ct, n, t)(x, y) <==> MatchEnd(ct, INJECTION_PATTERNS[n], t, x) == Some(y) {
      SpanPatternsAreRegexes(ct, n, t, x);
    }
  }

  lemma TagRegexIs()
    ensures PassRegex(5) == TagRegex(TAG_KEYWORDS)
  {
  }

  lemma TagTells(ct: CharTable, t: string)
    requires ct.Valid()
    ensures Tells(PassMatches(ct, 5, t), ct, XML, t)
  {
    TagRegexIs();
    var re := TagRegex(TAG_KEYWORDS);
    assert forall x: nat, y: nat :: PassMatches(ct, 5, t)(x, y) <==> InLanguage(ct, true, re, t, x, y);
    TagTellsBy(ct, t, re, PassMatches(ct, 5, t));
  }

  lemma TagTellsBy(ct: CharTable, t: string, re: seq<Atom>, m: (nat, nat) -> bool)
    requires ct.Valid() && re == TagRegex(TAG_KEYWORDS)
    requires forall x: nat, y: nat :: m(x, y) <==> InLanguage(ct, true, re, t, x, y)
    ensures Tells(m, ct, XML, t)
  {
    forall x: nat, y: nat ensures m(x, y) <==> MatchEnd(ct, XML, t, x) == Some(y) {
      TagPatternIsRegex(ct, t, x);
    }
  }

  lemma PassTells(ct: CharTable, n: nat, t: string)
    requires ct.Valid() && n < 6
    ensures |Rules()| == 6 && Tells(PassMatches(ct, n, t), ct, Rules()[n].pattern, t)
  {
    RuleAt(n);
    if n < 5 {
      SpanTells(ct, n, t);
    } else {
      TagTells(ct, t);
    }
  }

  /** The rules are the six passes. */
  ghost predicate ArePasses(ct: CharTable, rules: seq<Rule>) {
    && |rules| == 6 && AllProper(rules)
    && (forall n: nat | n < 6 :: rules[n].replacement == PassReplacement(n))
    && (forall n: nat, t | n < 6 :: Tells(PassMatches(ct, n, t), ct, rules[n].pattern, t))
  }

  lemma RulesArePasses(ct: CharTable)
    requires ct.Valid()
    ensures ArePasses(ct, Rules())
  {
    RulesGood();
    forall n: nat | n < 6 ensures |Rules()| == 6 && Rules()[n].replacement == PassReplacement(n) {
      RuleAt(n);
    }
    forall n: nat, t | n < 6 ensures Tells(PassMatches(ct, n, t), ct, Rules()[n].pattern, t) {
      PassTells(ct, n, t);
    }
  }

  /** Every pass cuts the text at the matches of its expression, leftmost first, keeps everything in
      between, and puts its replacement for each cut; and there is only one way to cut. */
  lemma PassReplacesMatches(ct: CharTable, rules: seq<Rule>, n: nat, t: string) returns (cuts: seq<Cut>)
    requires ArePasses(ct, rules) && n < 6
    ensures PassCuts(ct, n, t, cuts) && forall other | PassCuts(ct, n, t, other) :: other == cuts
    ensures Sub(ct, rules[n].pattern, rules[n].replacement, t, 0) == Replaced(t, 0, cuts, PassReplacement(n))
  {
    cuts := SubstitutionIs(PassMatches(ct, n, t), ct, rules[n].pattern, rules[n].replacement, t);
  }

  // ---- the sanitizer ----

  /** `r` is `t` with the matches of pass n replaced. */
  ghost predicate Substituted(ct: CharTable, n: nat, t: string, r: string) {
    exists cuts :: PassCuts(ct, n, t, cuts) && r == Replaced(t, 0, cuts, PassReplacement(n))
  }

  /** The text before and after each of the six passes. */
  ghost predicate AreStages(ct: CharTable, text: string, stages: seq<string>) {
    && |stages| == 7 && stages[0] == text
    && forall n: nat | n < 6 :: Substituted(ct, n, stages[n], stages[n + 1])
  }

  /** How many of the passes from n on changed the text. */
  function Changes(stages: seq<string>, n: nat): nat
    requires n < |stages|
    decreases |stages| - n
  {
    if n == |stages| - 1 then 0 else Changes(stages, n + 1) + if stages[n + 1] != stages[n] then 1 else 0
  }

  lemma SubstitutedIff(ct: CharTable, rules: seq<Rule>, n: nat, t: string, r: string)
    requires ArePasses(ct, rules) && n < 6
    ensures Substituted(ct, n, t, r) <==> r == Sub(ct, rules[n].pattern, rules[n].replacement, t, 0)
  {
    var cuts := PassReplacesMatches(ct, rules, n, t);
  }

  /** One rule after the other gives what the passes over the list give. */
  lemma {:induction false} StagesFrom(ct: CharTable, rules: seq<Rule>, stages: seq<string>, n: nat)
    requires AllProper(rules) && |stages| == |rules| + 1 && n <= |rules|
    requires forall k: nat | k < |rules| :: stages[k + 1] == Sub(ct, rules[k].pattern, rules[k].replacement, stages[k], 0)
    ensures ApplyRules(ct, rules[n..], stages[n]) == (stages[|rules|], Changes(stages, n))
    decreases |rules| - n
  {
    if n < |rules| {
      StagesFrom(ct, rules, stages, n + 1);
      FirstRule(ct, rules, n, stages[n], stages[n + 1]);
    }
  }

  lemma FirstRule(ct: CharTable, rules: seq<Rule>, n: nat, t: string, next: string)
    requires AllProper(rules) && n < |rules| && next == Sub(ct, rules[n].pattern, rules[n].replacement, t, 0)
    ensures var (result, hits) := ApplyRules(ct, rules[n + 1..], next);
            ApplyRules(ct, rules[n..], t) == (result, hits + if next != t then 1 else 0)
  {
    assert rules[n..][1..] == rules[n + 1..] && rules[n..][0] == rules[n];
  }

  /** The text after the first n rules. */
  function StageAt(ct: CharTable, rules: seq<Rule>, text: string, n: nat): string
    requires n <= |rules| && AllProper(rules)
  {
    if n == 0 then text
    else Sub(ct, rules[n - 1].pattern, rules[n - 1].replacement, StageAt(ct, rules, text, n - 1), 0)
  }

  lemma StagesExist(ct: CharTable, rules: seq<Rule>, text: string) returns (stages: seq<string>)
    requires ArePasses(ct, rules)
    ensures AreStages(ct, text, stages)
  {
    stages := seq(7, n requires 0 <= n < 7 => StageAt(ct, rules, text, n));
    forall n: nat | n < 6 ensures Substituted(ct, n, stages[n], stages[n + 1]) {
      StageNext(ct, rules, text, n);
    }
  }

  lemma StageNext(ct: CharTable, rules: seq<Rule>, text: string, n: nat)
    requires ArePasses(ct, rules) && n < 6
    ensures Substituted(ct, n, StageAt(ct, rules, text, n), StageAt(ct, rules, text, n + 1))
  {
    SubstitutedIff(ct, rules, n, StageAt(ct, rules, text, n), StageAt(ct, rules, text, n + 1));
  }

  /** For every text: the sanitized text and the hits are those of the six substitutions made one after
      the other, each as its expression says. */
  lemma SanitizeIsSixSubstitutions(ct: CharTable, text: string)
    requires ct.Valid()
    ensures exists stages :: AreStages(ct, text, stages)
    ensures forall stages | AreStages(ct, text, stages) ::
              SanitizeText(ct, text) == SanitizationResult(stages[6], Changes(stages, 0), 0, 0)
  {
    RulesArePasses(ct);
    var rules := Rules();
    var some := StagesExist(ct, rules, text);
    forall stages | AreStages(ct, text, stages)
      ensures SanitizeText(ct, text) == SanitizationResult(stages[6], Changes(stages, 0), 0, 0)
    {
      forall k: nat | k < 6 ensures stages[k + 1] == Sub(ct, rules[k].pattern, rules[k].replacement, stages[k], 0) {
        SubstitutedIff(ct, rules, k, stages[k], stages[k + 1]);
      }
      StagesFrom(ct, rules, stages, 0);
      assert rules[0..] == rules;
    }
  }

  lemma FoundIff(m: (nat, nat) -> bool, ct: CharTable, q: Pattern, t: string)
    requires Proper(q) && Tells(m, ct, q, t)
    ensures Found(ct, q, t, 0) <==> exists x: nat, y: nat :: m(x, y)
  {
    if x: nat, y: nat :| m(x, y) {
      MatchBounds(ct, q, t, x);
      FoundAt(ct, q, t, 0, x);
    }
    if Found(ct, q, t, 0) {
      var x := FoundWhere(ct, q, t, 0);
      assert m(x, MatchEnd(ct, q, t, x).value);
    }
  }

  /** The expression of pass n matches somewhere in the text. */
  ghost predicate Matches(ct: CharTable, n: nat, t: string) {
    exists x: nat, y: nat :: PassMatches(ct, n, t)(x, y)
  }

  /** The detector fires exactly when one of the six expressions matches somewhere. */
  lemma DetectsIff(ct: CharTable, text: string)
    requires ct.Valid()
    ensures DetectInjection(ct, text) <==> exists n: nat :: n < 6 && Matches(ct, n, text)
  {
    RulesArePasses(ct);
    var rules := Rules();
    DetectsRules(ct, text);
    forall n: nat | n < 6 ensures Found(ct, rules[n].pattern, text, 0) <==> Matches(ct, n, text) {
      FoundIff(PassMatches(ct, n, text), ct, rules[n].pattern, text);
    }
    if text == "" {
      forall n: nat | n < 6 ensures !Found(ct, rules[n].pattern, text, 0) {
        NothingInEmpty(ct, rules[n].pattern);
      }
    }
  }

  lemma {:induction false} FoundAt(ct: CharTable, q: Pattern, t: string, i: nat, x: nat)
    requires i <= x < |t| && MatchEnd(ct, q, t, x).Some?
    ensures Found(ct, q, t, i)
    decreases x - i
  {
    if i < x {
      FoundAt(ct, q, t, i + 1, x);
    }
  }

  lemma {:induction false} FoundWhere(ct: CharTable, q: Pattern, t: string, i: nat) returns (x: nat)
    requires Found(ct, q, t, i)
    ensures i <= x && MatchEnd(ct, q, t, x).Some?
    decreases |t| - i
  {
    if MatchEnd(ct, q, t, i).Some? {
      x := i;
    } else {
      x := FoundWhere(ct, q, t, i + 1);
    }
  }

  // ---- what the atoms mean ----

  /** A literal stands where the text has its characters; without regard to case, where they fold alike. */
  lemma {:induction false} LitAtIs(ct: CharTable, caseless: bool, lit: string, t: string, i: nat)
    ensures LitAt(ct, caseless, lit, t, i) <==>
              i + |lit| <= |t| && forall k: nat | k < |lit| ::
                if caseless then ct.fold(t[i + k]) == ct.fold(lit[k]) else t[i + k] == lit[k]
    decreases |lit|
  {
    if lit != "" {
      LitAtIs(ct, caseless, lit[1..], t, i + 1);
      if LitAt(ct, caseless, lit, t, i) {
        forall k: nat | k < |lit| ensures if caseless then ct.fold(t[i + k]) == ct.fold(lit[k]) else t[i + k] == lit[k] {
          if k > 0 {
            assert lit[k] == lit[1..][k - 1] && t[i + k] == t[i + 1 + (k - 1)];
          }
        }
      } else if i + |lit| <= |t| && SameChar(ct, caseless, t[i], lit[0]) {
        var k: nat :| k < |lit[1..]| &&
          !(if caseless then ct.fold(t[i + 1 + k]) == ct.fold(lit[1..][k]) else t[i + 1 + k] == lit[1..][k]);
        assert lit[1..][k] == lit[k + 1] && t[i + 1 + k] == t[i + (k + 1)];
      }
    }
  }
}
