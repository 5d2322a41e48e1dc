/**
 A denotational reading of the regular-expression syntax the scan uses, independent of the
 matcher in `Patterns`: a concatenation of atoms relates the two ends of a span.
 */
module Regex {
  import opened Wrappers
  import opened Patterns

  datatype Atom =
    | Text(s: string)              // a literal
    | Maybe(s: string)             // (literal)?
    | OneOf(alts: seq<string>)     // (a|b|...)
    | WordBoundary                 // \b
    | Anything                     // .*? under DOTALL
    | NoneOf(c: char)              // [^c]*

  predicate AtomSpan(ct: CharTable, caseless: bool, a: Atom, t: string, i: nat, j: nat) {
    i <= j <= |t| &&
    match a
    case Text(s) => j == i + |s| && LitAt(ct, caseless, s, t, i)
    case Maybe(s) => j == i || (j == i + |s| && LitAt(ct, caseless, s, t, i))
    case OneOf(alts) => exists k | 0 <= k < |alts| :: j == i + |alts[k]| && LitAt(ct, caseless, alts[k], t, i)
    case WordBoundary => j == i && (0 < i && ct.word(t[i - 1])) != (i < |t| && ct.word(t[i]))
    case Anything => true
    case NoneOf(c) => forall x | i <= x < j :: !SameChar(ct, caseless, t[x], c)
  }

  /** The span `t[i..j]` belongs to the language of the concatenation `re`. */
  predicate InLanguage(ct: CharTable, caseless: bool, re: seq<Atom>, t: string, i: nat, j: nat)
    decreases |re|
  {
    if re == [] then i == j
    else exists m: nat :: i <= m <= j && AtomSpan(ct, caseless, re[0], t, i, m)
                          && InLanguage(ct, caseless, re[1..], t, m, j)
  }

  /** `j` ends the shortest span of `re` that starts at `i`. */
  ghost predicate ShortestSpan(ct: CharTable, caseless: bool, re: seq<Atom>, t: string, i: nat, j: nat) {
    && InLanguage(ct, caseless, re, t, i, j)
    && forall j': nat :: j' < j ==> !InLanguage(ct, caseless, re, t, i, j')
  }

  lemma AtomThen(ct: CharTable, caseless: bool, re: seq<Atom>, t: string, i: nat, m: nat, j: nat)
    requires re != [] && i <= m <= j
    requires AtomSpan(ct, caseless, re[0], t, i, m) && InLanguage(ct, caseless, re[1..], t, m, j)
    ensures InLanguage(ct, caseless, re, t, i, j)
  {
  }

  lemma AtomSplit(ct: CharTable, caseless: bool, re: seq<Atom>, t: string, i: nat, j: nat) returns (m: nat)
    requires re != [] && InLanguage(ct, caseless, re, t, i, j)
    ensures i <= m <= j
    ensures AtomSpan(ct, caseless, re[0], t, i, m) && InLanguage(ct, caseless, re[1..], t, m, j)
  {
    m :| i <= m <= j && AtomSpan(ct, caseless, re[0], t, i, m) && InLanguage(ct, caseless, re[1..], t, m, j);
  }

  lemma LastText(ct: CharTable, caseless: bool, s: string, t: string, i: nat, j: nat)
    ensures InLanguage(ct, caseless, [Text(s)], t, i, j) <==> j == i + |s| && LitAt(ct, caseless, s, t, i)
  {
    var re := [Text(s)];
    assert re[1..] == [];
    if j == i + |s| && LitAt(ct, caseless, s, t, i) {
      AtomThen(ct, caseless, re, t, i, j, j);
    }
  }

  /** The literal `close` stands in front of `j`, at or after `m`. */
  predicate ClosedBy(ct: CharTable, close: string, t: string, m: nat, j: nat) {
    m + |close| <= j && LitAt(ct, false, close, t, j - |close|)
  }

  /** `open (\b)? .*? close` */
  function SpanRegex(open: string, edge: bool, close: string): seq<Atom> {
    [Text(open)] + (if edge then [WordBoundary] else []) + [Anything, Text(close)]
  }

  lemma SpanTail(ct: CharTable, close: string, t: string, m: nat, j: nat)
    ensures InLanguage(ct, false, [Anything, Text(close)], t, m, j) <==> ClosedBy(ct, close, t, m, j)
  {
    var re := [Anything, Text(close)];
    assert re[1..] == [Text(close)];
    if InLanguage(ct, false, re, t, m, j) {
      var b := AtomSplit(ct, false, re, t, m, j);
      LastText(ct, false, close, t, b, j);
    }
    if ClosedBy(ct, close, t, m, j) {
      LastText(ct, false, close, t, j - |close|, j);
      AtomThen(ct, false, re, t, m, j - |close|, j);
    }
  }

  lemma SpanLanguage(ct: CharTable, q: Pattern, open: string, t: string, i: nat, j: nat)
    requires q.opens == [open] && !q.caseless
    ensures InLanguage(ct, false, SpanRegex(open, q.wordEdge, q.close), t, i, j)
            <==> OpenAt(ct, q, t, i, 0) && ClosedBy(ct, q.close, t, i + |open|, j)
  {
    var re, tail, m := SpanRegex(open, q.wordEdge, q.close), [Anything, Text(q.close)], i + |open|;
    var after := if q.wordEdge then [WordBoundary] + tail else tail;
    assert re[0] == Text(open) && re[1..] == after;
    assert q.wordEdge ==> after[0] == WordBoundary && after[1..] == tail;
    SpanTail(ct, q.close, t, m, j);
    if InLanguage(ct, false, re, t, i, j) {
      var m0 := AtomSplit(ct, false, re, t, i, j);
      if q.wordEdge {
        var m1 := AtomSplit(ct, false, after, t, m, j);
      }
    }
    if OpenAt(ct, q, t, i, 0) && InLanguage(ct, false, tail, t, m, j) {
      if q.wordEdge {
        AtomThen(ct, false, after, t, m, m, j);
      }
      AtomThen(ct, false, re, t, i, m, j);
    }
  }

  /** The matcher finds the shortest span of the regex it stands for, and finds one if there is any. */
  lemma SpanMatchIsRegexMatch(ct: CharTable, q: Pattern, open: string, t: string, i: nat)
    requires q.opens == [open] && !q.caseless
    ensures forall j: nat :: MatchEnd(ct, q, t, i) == Some(j)
                             <==> ShortestSpan(ct, false, SpanRegex(open, q.wordEdge, q.close), t, i, j)
  {
    var re := SpanRegex(open, q.wordEdge, q.close);
    var first := FindClose(ct, q.close, t, i + |open|);
    assert MatchFrom(ct, q, t, i, 1).None?;
    forall j: nat | InLanguage(ct, false, re, t, i, j)
      ensures OpenAt(ct, q, t, i, 0) && first.Some? && first.value + |q.close| <= j
    {
      SpanLanguage(ct, q, open, t, i, j);
      FindCloseFirst(ct, q.close, t, i + |open|, j - |q.close|);
    }
    if OpenAt(ct, q, t, i, 0) && first.Some? {
      FindCloseSound(ct, q.close, t, i + |open|);
      SpanLanguage(ct, q, open, t, i, first.value + |q.close|);
      assert ShortestSpan(ct, false, re, t, i, first.value + |q.close|);
    }
  }

  /** `</?(kw|...)\b[^>]*>` */
  function TagRegex(keywords: seq<string>): seq<Atom> {
    [Text("<"), Maybe("/"), OneOf(keywords), WordBoundary, NoneOf('>'), Text(">")]
  }

  /** The opening literals of a tag pattern: with and without the slash. */
  function TagOpens(keywords: seq<string>): seq<string> {
    seq(|keywords|, k requires 0 <= k < |keywords| => "<" + keywords[k])
    + seq(|keywords|, k requires 0 <= k < |keywords| => "</" + keywords[k])
  }

  lemma {:induction false} LitConcat(ct: CharTable, caseless: bool, u: string, v: string, t: string, i: nat)
    ensures LitAt(ct, caseless, u + v, t, i)
            <==> LitAt(ct, caseless, u, t, i) && LitAt(ct, caseless, v, t, i + |u|)
    decreases |u|
  {
    if u == "" {
      assert u + v == v;
    } else {
      assert (u + v)[1..] == u[1..] + v;
      if i < |t| {
        LitConcat(ct, caseless, u[1..], v, t, i + 1);
      }
    }
  }

  /** `[^>]*>` from `m` reaches exactly one end: the first `>`. */
  lemma TagTail(ct: CharTable, t: string, m: nat, j: nat)
    requires ct.Valid() && m <= |t|
    ensures InLanguage(ct, true, [NoneOf('>'), Text(">")], t, m, j)
            <==> FindClose(ct, ">", t, m).Some? && j == FindClose(ct, ">", t, m).value + 1
  {
    var re, first := [NoneOf('>'), Text(">")], FindClose(ct, ">", t, m);
    assert re[1..] == [Text(">")];
    assert forall b: nat :: LitAt(ct, false, ">", t, b) <==> b < |t| && t[b] == '>';
    assert forall b: nat :: LitAt(ct, true, ">", t, b) <==> b < |t| && t[b] == '>';
    if InLanguage(ct, true, re, t, m, j) {
      var b := AtomSplit(ct, true, re, t, m, j);
      LastText(ct, true, ">", t, b, j);
      FindCloseFirst(ct, ">", t, m, b);
      FindCloseSound(ct, ">", t, m);
      assert forall x | m <= x < b :: t[x] != '>';
    }
    if first.Some? && j == first.value + 1 {
      FindCloseSound(ct, ">", t, m);
      forall x | m <= x < first.value ensures !SameChar(ct, true, t[x], '>') {
        if t[x] == '>' {
          FindCloseFirst(ct, ">", t, m, x);
        }
      }
      LastText(ct, true, ">", t, first.value, j);
      AtomThen(ct, true, re, t, m, first.value, j);
    }
  }

  /** The opening part `</?(kw|...)\b` spans `i..m`, the slash ending at `a`. */
  predicate TagHead(ct: CharTable, keywords: seq<string>, t: string, i: nat, a: nat, m: nat) {
    && LitAt(ct, true, "<", t, i)
    && AtomSpan(ct, true, Maybe("/"), t, i + 1, a)
    && AtomSpan(ct, true, OneOf(keywords), t, a, m)
    && WordEdge(ct, t, m)
  }

  lemma HeadOfOpen(ct: CharTable, q: Pattern, keywords: seq<string>, t: string, i: nat, k: nat) returns (a: nat)
    requires q.opens == TagOpens(keywords) && q.caseless && q.wordEdge
    requires k < |q.opens| && OpenAt(ct, q, t, i, k)
    ensures TagHead(ct, keywords, t, i, a, i + |q.opens[k]|)
  {
    var n := |keywords|;
    if k < n {
      a := i + 1;
      assert q.opens[k] == "<" + keywords[k];
      LitConcat(ct, true, "<", keywords[k], t, i);
    } else {
      a := i + 2;
      var w := keywords[k - n];
      assert q.opens[k] == "</" + w == "<" + ("/" + w);
      LitConcat(ct, true, "<", "/" + w, t, i);
      LitConcat(ct, true, "/", w, t, i + 1);
    }
  }

  lemma OpenOfHead(ct: CharTable, q: Pattern, keywords: seq<string>, t: string, i: nat, a: nat, m: nat) returns (k: nat)
    requires q.opens == TagOpens(keywords) && q.caseless && q.wordEdge
    requires TagHead(ct, keywords, t, i, a, m)
    ensures k < |q.opens| && OpenAt(ct, q, t, i, k) && m == i + |q.opens[k]|
  {
    k :| 0 <= k < |keywords| && m == a + |keywords[k]| && LitAt(ct, true, keywords[k], t, a);
    var w := keywords[k];
    if a == i + 1 {
      LitConcat(ct, true, "<", w, t, i);
      assert q.opens[k] == "<" + w;
    } else {
      LitConcat(ct, true, "/", w, t, i + 1);
      LitConcat(ct, true, "<", "/" + w, t, i);
      k := |keywords| + k;
      assert q.opens[k] == "</" + w == "<" + ("/" + w);
    }
  }

  /** The tag matches from `i` with its `k`-th opening literal, and ends at `j`. */
  predicate TagSpan(ct: CharTable, q: Pattern, t: string, i: nat, k: nat, j: nat)
    requires k < |q.opens|
  {
    && OpenAt(ct, q, t, i, k)
    && FindClose(ct, ">", t, i + |q.opens[k]|).Some?
    && j == FindClose(ct, ">", t, i + |q.opens[k]|).value + 1
  }

  lemma TagRegexParts(ct: CharTable, keywords: seq<string>, t: string, i: nat, j: nat) returns (a: nat, m: nat)
    requires InLanguage(ct, true, TagRegex(keywords), t, i, j)
    ensures TagHead(ct, keywords, t, i, a, m)
    ensures InLanguage(ct, true, [NoneOf('>'), Text(">")], t, m, j)
  {
    var r := TagRegex(keywords);
    var m1 := AtomSplit(ct, true, r, t, i, j);
    assert LitAt(ct, true, "<", t, i) && m1 == i + 1;
    a := AtomSplit(ct, true, r[1..], t, m1, j);
    m := AtomSplit(ct, true, r[2..], t, a, j);
    var m' := AtomSplit(ct, true, r[3..], t, m, j);
  }

  lemma TagSpanOfLanguage(ct: CharTable, q: Pattern, keywords: seq<string>, t: string, i: nat, j: nat)
    returns (k: nat)
    requires ct.Valid() && q.opens == TagOpens(keywords) && q.caseless && q.wordEdge
    requires InLanguage(ct, true, TagRegex(keywords), t, i, j)
    ensures k < |q.opens| && TagSpan(ct, q, t, i, k, j)
  {
    var a, m := TagRegexParts(ct, keywords, t, i, j);
    TagTail(ct, t, m, j);
    k := TagSpanOfParts(ct, q, keywords, t, i, a, m, j);
  }

  lemma TagSpanOfParts(ct: CharTable, q: Pattern, keywords: seq<string>, t: string, i: nat, a: nat, m: nat, j: nat)
    returns (k: nat)
    requires q.opens == TagOpens(keywords) && q.caseless && q.wordEdge && TagHead(ct, keywords, t, i, a, m)
    requires FindClose(ct, ">", t, m).Some? && j == FindClose(ct, ">", t, m).value + 1
    ensures k < |q.opens| && TagSpan(ct, q, t, i, k, j)
  {
    k := OpenOfHead(ct, q, keywords, t, i, a, m);
  }

  lemma TagPartsJoin(ct: CharTable, keywords: seq<string>, t: string, i: nat, a: nat, m: nat, j: nat)
    requires TagHead(ct, keywords, t, i, a, m) && m <= j && InLanguage(ct, true, [NoneOf('>'), Text(">")], t, m, j)
    ensures InLanguage(ct, true, TagRegex(keywords), t, i, j)
  {
    var r := TagRegex(keywords);
    assert r[4..] == [NoneOf('>'), Text(">")];
    AtomThen(ct, true, r[3..], t, m, m, j);
    AtomThen(ct, true, r[2..], t, a, m, j);
    AtomThen(ct, true, r[1..], t, i + 1, a, j);
    AtomThen(ct, true, r, t, i, i + 1, j);
  }

  lemma LanguageOfTagSpan(ct: CharTable, q: Pattern, keywords: seq<string>, t: string, i: nat, k: nat, j: nat)
    requires ct.Valid() && q.opens == TagOpens(keywords) && q.caseless && q.wordEdge
    requires k < |q.opens| && TagSpan(ct, q, t, i, k, j)
    ensures InLanguage(ct, true, TagRegex(keywords), t, i, j)
  {
    var m := i + |q.opens[k]|;
    var a := HeadOfOpen(ct, q, keywords, t, i, k);
    FindCloseSound(ct, ">", t, m);
    TagTail(ct, t, m, j);
    TagPartsJoin(ct, keywords, t, i, a, m, j);
  }

  /** No opening literal is the beginning of another, so an opening part has one possible end. */
  ghost predicate PrefixFree(ct: CharTable, q: Pattern) {
    forall k, l, t: string, i: nat | 0 <= k < |q.opens| && 0 <= l < |q.opens|
      && OpenAt(ct, q, t, i, k) && OpenAt(ct, q, t, i, l) :: |q.opens[k]| == |q.opens[l]|
  }

  lemma TagMatchIsRegexMatch(ct: CharTable, q: Pattern, keywords: seq<string>, t: string, i: nat)
    requires ct.Valid() && q.opens == TagOpens(keywords) && q.caseless && q.wordEdge && q.close == ">"
    requires PrefixFree(ct, q)
    ensures forall j: nat :: MatchEnd(ct, q, t, i) == Some(j)
                             <==> InLanguage(ct, true, TagRegex(keywords), t, i, j)
  {
    forall j: nat | InLanguage(ct, true, TagRegex(keywords), t, i, j)
      ensures MatchEnd(ct, q, t, i) == Some(j)
    {
      var k := TagSpanOfLanguage(ct, q, keywords, t, i, j);
      MatchExists(ct, q, t, i, 0, k);
      var a := MatchUses(ct, q, t, i, 0);
    }
    if MatchEnd(ct, q, t, i).Some? {
      var a := MatchUses(ct, q, t, i, 0);
      LanguageOfTagSpan(ct, q, keywords, t, i, a, MatchEnd(ct, q, t, i).value);
    }
  }
}
