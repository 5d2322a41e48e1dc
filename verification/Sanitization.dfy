/**
 Layer-1 prompt-injection sanitizer: six delimiter patterns, a detector that searches for any
 of them, and a sanitizer that rewrites them one after the other.
 */
module Sanitization {
  import opened Wrappers
  import opened Patterns
  import opened Rewriting
  import opened Regex

  datatype Rule = Rule(pattern: Pattern, replacement: string)

  const CONTENT_REMOVED := "[CONTENT_REMOVED]"
  const TAG_REMOVED := "[TAG_REMOVED]"
  const TAG_KEYWORDS := ["system", "instruction", "tool_call", "function_call"]

  function SpanPattern(open: string, edge: bool, close: string): Pattern {
    Pattern([open], false, edge, close)
  }

  const CHAT := SpanPattern("<|im_start|>", false, "<|im_end|>")
  const BAR := SpanPattern("<|", false, "|>")
  const INST := SpanPattern("[INST]", false, "[/INST]")
  const SYS := SpanPattern("<<SYS>>", false, "<</SYS>>")
  const FENCE := SpanPattern("```system", true, "```")
  const XML := Pattern(["<system", "<instruction", "<tool_call", "<function_call",
                        "</system", "</instruction", "</tool_call", "</function_call"], true, true, ">")

  const INJECTION_PATTERNS := [CHAT, BAR, INST, SYS, FENCE]
  const XML_INJECTION_PATTERNS := [XML]

  function RulesOf(ps: seq<Pattern>, replacement: string): seq<Rule> {
    seq(|ps|, i requires 0 <= i < |ps| => Rule(ps[i], replacement))
  }

  /** The passes of the sanitizer, in order. */
  function Rules(): seq<Rule> {
    RulesOf(INJECTION_PATTERNS, CONTENT_REMOVED) + RulesOf(XML_INJECTION_PATTERNS, TAG_REMOVED)
  }

  predicate AnyFound(ct: CharTable, ps: seq<Pattern>, text: string) {
    exists i | 0 <= i < |ps| :: Found(ct, ps[i], text, 0)
  }

  predicate DetectInjection(ct: CharTable, text: string) {
    text != "" && (AnyFound(ct, INJECTION_PATTERNS, text) || AnyFound(ct, XML_INJECTION_PATTERNS, text))
  }

  predicate AllProper(rules: seq<Rule>) {
    forall i | 0 <= i < |rules| :: Proper(rules[i].pattern)
  }

  /** The passes one after the other: the rewritten text and how many of them changed it. */
  function ApplyRules(ct: CharTable, rules: seq<Rule>, text: string): (string, nat)
    requires AllProper(rules)
  {
    if rules == [] then (text, 0)
    else
      var next := Sub(ct, rules[0].pattern, rules[0].replacement, text, 0);
      var (result, hits) := ApplyRules(ct, rules[1..], next);
      (result, hits + if next != text then 1 else 0)
  }

  datatype SanitizationResult = SanitizationResult(text: string, regexHits: nat, classifierHits: nat, chunksScanned: nat)

  function SanitizeText(ct: CharTable, text: string): SanitizationResult {
    var (sanitized, hits) := ApplyRules(ct, Rules(), text);
    SanitizationResult(sanitized, hits, 0, 0)
  }

  // ---- the concrete delimiters are inert for the concrete replacements ----

  lemma {:induction false} AvoidsAll(ct: CharTable, caseless: bool, c: char, lit: string)
    requires forall m | 0 <= m < |lit| :: !SameChar(ct, caseless, c, lit[m])
    ensures Avoids(ct, caseless, c, lit)
  {
    if lit != "" {
      AvoidsAll(ct, caseless, c, lit[1..]);
    }
  }

  predicate Bracketed(repl: string) {
    && |repl| > 2 && repl[0] == '['
    && (forall b | 0 <= b < |repl| :: repl[b] < 128 as char && repl[b] !in "<|`>/")
    && (forall b | 1 <= b < |repl| :: repl[b] != '[')
    && repl[1] != 'I' && repl[1] != '/'
  }

  lemma ReplacementsBracketed()
    ensures Bracketed(CONTENT_REMOVED) && Bracketed(TAG_REMOVED)
  {
  }

  /** The literal delimiters: a sign first, and an opening bracket nowhere else. */
  predicate Delimiter(lit: string) {
    && lit != "" && lit[0] in "<|`>["
    && (forall m | 1 <= m < |lit| :: lit[m] < 128 as char && lit[m] != '[')
    && (lit[0] == '[' ==> |lit| > 1 && (lit[1] == 'I' || lit[1] == '/'))
  }

  lemma DelimiterInert(ct: CharTable, caseless: bool, lit: string, repl: string)
    requires ct.Valid() && Delimiter(lit) && Bracketed(repl) && (caseless ==> lit[0] != '[')
    ensures Inert(ct, caseless, lit, repl)
  {
    forall m | 1 <= m < |lit| ensures !SameChar(ct, caseless, repl[0], lit[m]) {
      assert ct.fold(lit[m]) != '[' && ct.fold('[') == '[';
    }
    AvoidsAll(ct, caseless, repl[0], lit[1..]);
    forall b: nat | b < |repl| ensures Clash(ct, caseless, lit, repl, b) {
      assert ct.fold(lit[0]) == lit[0];
      assert ct.fold(repl[b]) != lit[0] || repl[b] == lit[0];
      if lit[0] == '[' && b == 0 {
        assert Clash(ct, caseless, lit[1..], repl, 1);
      }
    }
  }

  predicate DelimiterPattern(q: Pattern) {
    && Proper(q) && Delimiter(q.close)
    && forall k | 0 <= k < |q.opens| :: Delimiter(q.opens[k]) && SignChar(q.opens[k][0])
                                        && (q.caseless ==> q.opens[k][0] != '[')
  }

  lemma XmlIsDelimiterPattern()
    ensures DelimiterPattern(XML)
  {
    forall k | 0 <= k < |XML.opens| ensures Delimiter(XML.opens[k]) && XML.opens[k][0] == '<' {}
  }

  lemma AngleSpansAreDelimiters()
    ensures DelimiterPattern(CHAT) && DelimiterPattern(BAR)
  {
  }

  lemma SquareSpanIsDelimiter()
    ensures DelimiterPattern(INST)
  {
  }

  lemma SysSpanIsDelimiter()
    ensures DelimiterPattern(SYS)
  {
  }

  lemma FenceIsDelimiter()
    ensures DelimiterPattern(FENCE)
  {
  }

  predicate AllDelimiters(ps: seq<Pattern>) {
    forall i | 0 <= i < |ps| :: DelimiterPattern(ps[i])
  }

  lemma FiveDelimiters(a: Pattern, b: Pattern, c: Pattern, d: Pattern, e: Pattern)
    requires DelimiterPattern(a) && DelimiterPattern(b) && DelimiterPattern(c) && DelimiterPattern(d) && DelimiterPattern(e)
    ensures AllDelimiters([a, b, c, d, e])
  {
  }

  lemma PatternsAreDelimiters()
    ensures AllDelimiters(INJECTION_PATTERNS) && AllDelimiters(XML_INJECTION_PATTERNS)
  {
    AngleSpansAreDelimiters();
    SquareSpanIsDelimiter();
    SysSpanIsDelimiter();
    FenceIsDelimiter();
    FiveDelimiters(CHAT, BAR, INST, SYS, FENCE);
    XmlIsDelimiterPattern();
  }

  lemma RulePair(ct: CharTable, q: Pattern, repl: string)
    requires ct.Valid() && DelimiterPattern(q) && Bracketed(repl)
    ensures InertFor(ct, q, repl) && BoundaryNeutral(ct, q, repl)
  {
    DelimiterInert(ct, false, q.close, repl);
    forall k | 0 <= k < |q.opens| ensures Inert(ct, q.caseless, q.opens[k], repl) {
      DelimiterInert(ct, q.caseless, q.opens[k], repl);
    }
  }

  // ---- the passes together ----

  predicate GoodRules(rules: seq<Rule>) {
    forall i | 0 <= i < |rules| :: DelimiterPattern(rules[i].pattern) && Bracketed(rules[i].replacement)
  }

  lemma RulesGood()
    ensures GoodRules(Rules()) && AllProper(Rules())
  {
    PatternsAreDelimiters();
    ReplacementsBracketed();
  }

  /** A pattern that is absent stays absent through all later passes. */
  lemma {:induction false} AbsentStays(ct: CharTable, rules: seq<Rule>, q: Pattern, text: string)
    requires ct.Valid() && GoodRules(rules) && AllProper(rules) && DelimiterPattern(q) && !Found(ct, q, text, 0)
    ensures !Found(ct, q, ApplyRules(ct, rules, text).0, 0)
  {
    if rules != [] {
      RulePair(ct, rules[0].pattern, rules[0].replacement);
      RulePair(ct, q, rules[0].replacement);
      SubKeepsAbsent(ct, rules[0].pattern, rules[0].replacement, q, text);
      AbsentStays(ct, rules[1..], q, Sub(ct, rules[0].pattern, rules[0].replacement, text, 0));
    }
  }

  /** After the last pass, none of the patterns of the passes occurs. */
  lemma {:induction false} PassesClean(ct: CharTable, rules: seq<Rule>, text: string, i: nat)
    requires ct.Valid() && GoodRules(rules) && AllProper(rules) && i < |rules|
    ensures !Found(ct, rules[i].pattern, ApplyRules(ct, rules, text).0, 0)
  {
    var next := Sub(ct, rules[0].pattern, rules[0].replacement, text, 0);
    RulePair(ct, rules[0].pattern, rules[0].replacement);
    if i == 0 {
      SubRemovesOwn(ct, rules[0].pattern, rules[0].replacement, text);
      AbsentStays(ct, rules[1..], rules[0].pattern, next);
    } else {
      PassesClean(ct, rules[1..], next, i - 1);
    }
  }

  /** The passes hit exactly the texts in which one of their patterns occurs. */
  lemma {:induction false} HitsIffFound(ct: CharTable, rules: seq<Rule>, text: string)
    requires ct.Valid() && GoodRules(rules) && AllProper(rules)
    ensures ApplyRules(ct, rules, text).1 <= |rules|
    ensures ApplyRules(ct, rules, text).1 > 0 <==> exists i | 0 <= i < |rules| :: Found(ct, rules[i].pattern, text, 0)
    ensures ApplyRules(ct, rules, text).1 == 0 ==> ApplyRules(ct, rules, text).0 == text
  {
    if rules != [] {
      var q, repl := rules[0].pattern, rules[0].replacement;
      RulePair(ct, q, repl);
      SubChangesIffFound(ct, q, repl, text, 0);
      assert text[0..] == text;
      HitsIffFound(ct, rules[1..], Sub(ct, q, repl, text, 0));
      if ApplyRules(ct, rules, text).1 == 0 {
        forall i | 0 <= i < |rules| ensures !Found(ct, rules[i].pattern, text, 0) {
          if i > 0 {
            assert rules[i] == rules[1..][i - 1];
          }
        }
      }
    }
  }

  lemma DetectsRules(ct: CharTable, text: string)
    ensures DetectInjection(ct, text)
            <==> text != "" && exists i | 0 <= i < |Rules()| :: Found(ct, Rules()[i].pattern, text, 0)
  {
    var n := |INJECTION_PATTERNS|;
    forall i | 0 <= i < n ensures Rules()[i].pattern == INJECTION_PATTERNS[i] {}
    forall i | 0 <= i < |XML_INJECTION_PATTERNS| ensures Rules()[n + i].pattern == XML_INJECTION_PATTERNS[i] {}
    if i :| 0 <= i < |INJECTION_PATTERNS| && Found(ct, INJECTION_PATTERNS[i], text, 0) {
      assert Found(ct, Rules()[i].pattern, text, 0);
    } else if i :| 0 <= i < |XML_INJECTION_PATTERNS| && Found(ct, XML_INJECTION_PATTERNS[i], text, 0) {
      assert Found(ct, Rules()[n + i].pattern, text, 0);
    }
    if i :| 0 <= i < |Rules()| && Found(ct, Rules()[i].pattern, text, 0) {
      if i < n {
        assert Found(ct, INJECTION_PATTERNS[i], text, 0);
      } else {
        assert Found(ct, XML_INJECTION_PATTERNS[i - n], text, 0);
      }
    }
  }

  lemma NothingInEmpty(ct: CharTable, q: Pattern)
    requires Proper(q)
    ensures !Found(ct, q, "", 0)
  {
    if MatchEnd(ct, q, "", 0).Some? {
      MatchBounds(ct, q, "", 0);
    }
  }

  /** The sanitizer is complete for the detector: nothing it returns is detected. */
  lemma {:induction false} SanitizedIsUndetected(ct: CharTable, text: string)
    requires ct.Valid()
    ensures !DetectInjection(ct, SanitizeText(ct, text).text)
  {
    RulesGood();
    var result := SanitizeText(ct, text).text;
    DetectsRules(ct, result);
    forall i | 0 <= i < |Rules()| ensures !Found(ct, Rules()[i].pattern, result, 0) {
      PassesClean(ct, Rules(), text, i);
    }
  }

  /** The hit count agrees with the detector, and undetected text comes back as it was. */
  lemma HitsAgreeWithDetector(ct: CharTable, text: string)
    requires ct.Valid()
    ensures SanitizeText(ct, text).regexHits > 0 <==> DetectInjection(ct, text)
    ensures SanitizeText(ct, text).text == text <==> !DetectInjection(ct, text)
    ensures SanitizeText(ct, text).regexHits <= 6
  {
    RulesGood();
    HitsIffFound(ct, Rules(), text);
    DetectsRules(ct, text);
    forall i | 0 <= i < |Rules()| && text == "" ensures !Found(ct, Rules()[i].pattern, text, 0) {
      NothingInEmpty(ct, Rules()[i].pattern);
    }
    if SanitizeText(ct, text).text == text {
      SanitizedIsUndetected(ct, text);
    }
  }

  /** A second run changes nothing and reports no hit. */
  lemma SanitizeIdempotent(ct: CharTable, text: string)
    requires ct.Valid()
    ensures SanitizeText(ct, SanitizeText(ct, text).text)
            == SanitizationResult(SanitizeText(ct, text).text, 0, 0, 0)
  {
    SanitizedIsUndetected(ct, text);
    HitsAgreeWithDetector(ct, SanitizeText(ct, text).text);
  }

  /** The passes still to come turn what the loop has into the final answer. */
  predicate Remaining(ct: CharTable, rules: seq<Rule>, k: nat, text: string, hits: nat, answer: (string, nat))
    requires AllProper(rules) && k <= |rules|
  {
    answer == (ApplyRules(ct, rules[k..], text).0, hits + ApplyRules(ct, rules[k..], text).1)
  }

  /** The passes of one pattern list, which stand in the rules from `from` on. */
  method ApplyList(ct: CharTable, patterns: seq<Pattern>, replacement: string, text: string, before: nat,
                   ghost rules: seq<Rule>, ghost from: nat, ghost answer: (string, nat))
    returns (result: string, hits: nat)
    requires AllProper(rules) && from + |patterns| <= |rules|
    requires forall n | 0 <= n < |patterns| :: rules[from + n] == Rule(patterns[n], replacement)
    requires Remaining(ct, rules, from, text, before, answer)
    ensures Remaining(ct, rules, from + |patterns|, result, hits, answer)
  {
    result, hits := text, before;
    var n := 0;
    while n < |patterns|
      invariant n <= |patterns| && Remaining(ct, rules, from + n, result, hits, answer)
    {
      assert rules[from + n].pattern == patterns[n];
      var next := Sub(ct, patterns[n], replacement, result, 0);
      if next != result {
        hits := hits + 1;
      }
      result := next;
      n := n + 1;
    }
  }

  /** Two pattern lists, one after the other. */
  method ApplyLists(ct: CharTable, spans: seq<Pattern>, tags: seq<Pattern>, text: string)
    returns (result: string, hits: nat)
    requires AllProper(RulesOf(spans, CONTENT_REMOVED) + RulesOf(tags, TAG_REMOVED))
    ensures (result, hits) == ApplyRules(ct, RulesOf(spans, CONTENT_REMOVED) + RulesOf(tags, TAG_REMOVED), text)
  {
    ghost var rules := RulesOf(spans, CONTENT_REMOVED) + RulesOf(tags, TAG_REMOVED);
    ghost var answer := ApplyRules(ct, rules, text);
    assert rules[0..] == rules;
    result, hits := ApplyList(ct, spans, CONTENT_REMOVED, text, 0, rules, 0, answer);
    result, hits := ApplyList(ct, tags, TAG_REMOVED, result, hits, rules, |spans|, answer);
    assert rules[|rules|..] == [];
  }

  /** The two loops of the sanitizer: pass after pass over one text, counting the changing ones. */
  method ApplyRegex(ct: CharTable, text: string) returns (result: string, hits: nat)
    ensures AllProper(Rules()) && (result, hits) == ApplyRules(ct, Rules(), text)
  {
    result, hits := ApplyLists(ct, INJECTION_PATTERNS, XML_INJECTION_PATTERNS, text);
  }

  // ---- the patterns are the regular expressions they stand for ----

  /** The five span patterns match what their regexes match, shortest span first. */
  lemma {:induction false} SpanPatternsAreRegexes(ct: CharTable, n: nat, t: string, i: nat)
    requires n < |INJECTION_PATTERNS|
    ensures var q := INJECTION_PATTERNS[n];
            forall j: nat :: MatchEnd(ct, q, t, i) == Some(j)
                             <==> ShortestSpan(ct, false, SpanRegex(q.opens[0], q.wordEdge, q.close), t, i, j)
  {
    var q := INJECTION_PATTERNS[n];
    SpanMatchIsRegexMatch(ct, q, q.opens[0], t, i);
  }

  lemma TagOpensAre()
    ensures XML.opens == TagOpens(TAG_KEYWORDS)
  {
    var o, w := TagOpens(TAG_KEYWORDS), TAG_KEYWORDS;
    assert |o| == 8 && o[0] == "<" + w[0] && o[1] == "<" + w[1] && o[2] == "<" + w[2] && o[3] == "<" + w[3];
    assert o[4] == "</" + w[0] && o[5] == "</" + w[1] && o[6] == "</" + w[2] && o[7] == "</" + w[3];
    assert "<" + w[0] == "<system" && "<" + w[1] == "<instruction";
    assert "<" + w[2] == "<tool_call" && "<" + w[3] == "<function_call";
    assert "</" + w[0] == "</system" && "</" + w[1] == "</instruction";
    assert "</" + w[2] == "</tool_call" && "</" + w[3] == "</function_call";
  }

  lemma LitChar(ct: CharTable, caseless: bool, lit: string, t: string, i: nat, m: nat)
    requires LitAt(ct, caseless, lit, t, i) && m < |lit|
    ensures SameChar(ct, caseless, t[i + m], lit[m])
    decreases m
  {
    if m > 0 {
      LitChar(ct, caseless, lit[1..], t, i + 1, m - 1);
    }
  }

  /** The second and third character of an opening tag fix its length. */
  function TagLength(c: char, d: char): nat {
    if c == '/' then (if d == 's' then 8 else if d == 'i' then 13 else if d == 't' then 11 else 15)
    else if c == 's' then 7 else if c == 'i' then 12 else if c == 't' then 10 else 14
  }

  predicate PlainTag(u: string) {
    && |u| > 2 && |u| == TagLength(u[1], u[2])
    && u[1] < 128 as char && !('A' <= u[1] <= 'Z')
    && u[2] < 128 as char && !('A' <= u[2] <= 'Z')
  }

  lemma TagLengths(k: nat)
    requires k < |XML.opens|
    ensures PlainTag(XML.opens[k])
  {
    assert k == 0 || k == 1 || k == 2 || k == 3 || k == 4 || k == 5 || k == 6 || k == 7;
  }

  lemma TagsPrefixFree(ct: CharTable)
    requires ct.Valid()
    ensures PrefixFree(ct, XML)
  {
    forall k, l, t: string, i: nat | 0 <= k < |XML.opens| && 0 <= l < |XML.opens|
      && OpenAt(ct, XML, t, i, k) && OpenAt(ct, XML, t, i, l)
      ensures |XML.opens[k]| == |XML.opens[l]|
    {
      TagLengths(k);
      TagLengths(l);
      SameTagLength(ct, XML.opens[k], XML.opens[l], t, i);
    }
  }

  lemma SameTagLength(ct: CharTable, u: string, v: string, t: string, i: nat)
    requires ct.Valid() && PlainTag(u) && PlainTag(v)
    requires LitAt(ct, true, u, t, i) && LitAt(ct, true, v, t, i)
    ensures |u| == |v|
  {
    LitChar(ct, true, u, t, i, 1);
    LitChar(ct, true, v, t, i, 1);
    assert ct.fold(u[1]) == u[1] && ct.fold(v[1]) == v[1];
    LitChar(ct, true, u, t, i, 2);
    LitChar(ct, true, v, t, i, 2);
    assert ct.fold(u[2]) == u[2] && ct.fold(v[2]) == v[2];
  }

  /** The tag pattern matches exactly the one span its regex has at a position. */
  lemma TagPatternIsRegex(ct: CharTable, t: string, i: nat)
    requires ct.Valid()
    ensures forall j: nat :: MatchEnd(ct, XML, t, i) == Some(j)
                             <==> InLanguage(ct, true, TagRegex(TAG_KEYWORDS), t, i, j)
  {
    TagOpensAre();
    TagsPrefixFree(ct);
    TagMatchIsRegexMatch(ct, XML, TAG_KEYWORDS, t, i);
  }
}
