/**
 What one substitution pass can and cannot do to the delimiters of the other patterns.
 The replacement texts are inert: no delimiter can be created inside one, or straddle one.
 */
module Rewriting {
  import opened Wrappers
  import opened Patterns

  /** No character of `lit` can be read as `c`. */
  predicate Avoids(ct: CharTable, caseless: bool, c: char, lit: string) {
    lit == "" || (!SameChar(ct, caseless, c, lit[0]) && Avoids(ct, caseless, c, lit[1..]))
  }

  /** `lit`, laid over `repl` from offset `b` on, differs from it within `repl`. */
  predicate Clash(ct: CharTable, caseless: bool, lit: string, repl: string, b: nat) {
    lit != "" && b < |repl| &&
    (!SameChar(ct, caseless, repl[b], lit[0]) || Clash(ct, caseless, lit[1..], repl, b + 1))
  }

  /** `lit` can neither start inside `repl` nor reach into it from the left. */
  predicate Inert(ct: CharTable, caseless: bool, lit: string, repl: string) {
    && lit != "" && repl != ""
    && Avoids(ct, caseless, repl[0], lit[1..])
    && forall b: nat :: b < |repl| ==> Clash(ct, caseless, lit, repl, b)
  }

  predicate InertFor(ct: CharTable, q: Pattern, repl: string) {
    && Inert(ct, false, q.close, repl)
    && forall k | 0 <= k < |q.opens| :: Inert(ct, q.caseless, q.opens[k], repl)
  }

  predicate SignChar(c: char) { c == '<' || c == '[' || c == '`' }

  /** The replaced spans and the replacement both start with a non-word character. */
  predicate BoundaryNeutral(ct: CharTable, q: Pattern, repl: string) {
    && repl != "" && SignChar(repl[0])
    && forall k | 0 <= k < |q.opens| :: q.opens[k] != "" && SignChar(q.opens[k][0])
  }

  /** A match of `r`: opening alternative `k` at `a`, closing literal at `b`. */
  predicate Span(ct: CharTable, r: Pattern, t: string, a: nat, k: nat, b: nat) {
    && k < |r.opens|
    && OpenAt(ct, r, t, a, k)
    && a + |r.opens[k]| <= b
    && LitAt(ct, false, r.close, t, b)
  }

  lemma {:induction false} FoundGivesSpan(ct: CharTable, r: Pattern, t: string, i: nat)
    returns (a: nat, k: nat, b: nat)
    requires Found(ct, r, t, i)
    ensures i <= a && Span(ct, r, t, a, k, b)
    decreases |t| - i
  {
    if MatchEnd(ct, r, t, i).Some? {
      a := i;
      k := MatchUses(ct, r, t, i, 0);
      FindCloseSound(ct, r.close, t, i + |r.opens[k]|);
      b := FindClose(ct, r.close, t, i + |r.opens[k]|).value;
    } else {
      a, k, b := FoundGivesSpan(ct, r, t, i + 1);
    }
  }

  lemma {:induction false} SpanGivesFound(ct: CharTable, r: Pattern, t: string, i: nat, a: nat, k: nat, b: nat)
    requires Proper(r) && i <= a && Span(ct, r, t, a, k, b)
    ensures Found(ct, r, t, i)
    decreases a - i
  {
    if i == a {
      FindCloseFirst(ct, r.close, t, a + |r.opens[k]|, b);
      MatchExists(ct, r, t, i, 0, k);
    } else {
      SpanGivesFound(ct, r, t, i + 1, a, k, b);
    }
  }

  /** A literal occurrence after the first piece of a text is one of the rest. */
  lemma {:induction false} LitShift(ct: CharTable, caseless: bool, lit: string, piece: string, rest: string, b: nat)
    requires |piece| <= b
    ensures LitAt(ct, caseless, lit, piece + rest, b) <==> LitAt(ct, caseless, lit, rest, b - |piece|)
    decreases |lit|
  {
    if lit != "" && b < |piece + rest| {
      LitShift(ct, caseless, lit[1..], piece, rest, b + 1);
    }
  }

  lemma {:induction false} NotInReplacement(ct: CharTable, caseless: bool, lit: string, repl: string, rest: string, b: nat)
    requires Clash(ct, caseless, lit, repl, b)
    ensures !LitAt(ct, caseless, lit, repl + rest, b)
    decreases |lit|
  {
    assert (repl + rest)[b] == repl[b];
    if SameChar(ct, caseless, repl[b], lit[0]) {
      NotInReplacement(ct, caseless, lit[1..], repl, rest, b + 1);
    }
  }

  /** What `Sub` leaves at a position where a match starts. */
  lemma SubReplaces(ct: CharTable, q: Pattern, repl: string, t: string, i: nat)
    requires Proper(q) && MatchEnd(ct, q, t, i).Some?
    ensures i < MatchEnd(ct, q, t, i).value <= |t|
    ensures Sub(ct, q, repl, t, i) == repl + Sub(ct, q, repl, t, MatchEnd(ct, q, t, i).value)
  {
    MatchBounds(ct, q, t, i);
  }

  /** Where the pass copies a character, a literal whose tail avoids the replacement is original. */
  lemma {:induction false} PrefixBack(ct: CharTable, q: Pattern, repl: string, t: string, i: nat,
                                      caseless: bool, lit: string)
    requires Proper(q) && i < |t| && repl != "" && lit != ""
    requires MatchEnd(ct, q, t, i).None? && Avoids(ct, caseless, repl[0], lit[1..])
    requires LitAt(ct, caseless, lit, Sub(ct, q, repl, t, i), 0)
    ensures LitAt(ct, caseless, lit, t, i)
    ensures Sub(ct, q, repl, t, i) == t[i..i + |lit|] + Sub(ct, q, repl, t, i + |lit|)
    decreases |lit|
  {
    var s, rest, tail := Sub(ct, q, repl, t, i), Sub(ct, q, repl, t, i + 1), lit[1..];
    LitShift(ct, caseless, tail, [t[i]], rest, 1);
    assert LitAt(ct, caseless, tail, rest, 0);
    if tail == "" {
      assert t[i..i + 1] == [t[i]];
    } else {
      assert i + 1 < |t| by { assert rest != ""; }
      PrefixBack(ct, q, repl, t, i + 1, caseless, tail);
      assert t[i..i + |lit|] == [t[i]] + t[i + 1..i + 1 + |tail|];
    }
  }

  /** Every inert literal of the rewritten text stood in the original text. */
  lemma {:induction false} LitBack(ct: CharTable, q: Pattern, repl: string, t: string, i: nat, lit: string, b: nat)
    returns (b': nat)
    requires Proper(q) && i <= |t| && Inert(ct, false, lit, repl)
    requires LitAt(ct, false, lit, Sub(ct, q, repl, t, i), b)
    ensures i <= b' && LitAt(ct, false, lit, t, b')
    decreases |t| - i
  {
    if MatchEnd(ct, q, t, i).Some? {
      MatchBounds(ct, q, t, i);
      var rest := Sub(ct, q, repl, t, MatchEnd(ct, q, t, i).value);
      if b < |repl| {
        NotInReplacement(ct, false, lit, repl, rest, b);
      }
      LitShift(ct, false, lit, repl, rest, b);
      b' := LitBack(ct, q, repl, t, MatchEnd(ct, q, t, i).value, lit, b - |repl|);
    } else if b == 0 {
      PrefixBack(ct, q, repl, t, i, false, lit);
      b' := i;
    } else {
      LitShift(ct, false, lit, [t[i]], Sub(ct, q, repl, t, i + 1), b);
      b' := LitBack(ct, q, repl, t, i + 1, lit, b - 1);
    }
  }

  /** The first character of a match is a delimiter sign, so no word character. */
  lemma MatchStartsAtSign(ct: CharTable, q: Pattern, repl: string, t: string, i: nat)
    requires ct.Valid() && BoundaryNeutral(ct, q, repl) && MatchEnd(ct, q, t, i).Some?
    ensures i < |t| && !ct.word(t[i])
  {
    var k := MatchUses(ct, q, t, i, 0);
    assert SameChar(ct, q.caseless, t[i], q.opens[k][0]);
    assert ct.fold(q.opens[k][0]) == q.opens[k][0];
  }

  /** Where the pass starts, it leaves a word character exactly where there was one. */
  lemma HeadWordBack(ct: CharTable, q: Pattern, repl: string, t: string, j: nat)
    requires ct.Valid() && Proper(q) && BoundaryNeutral(ct, q, repl) && j <= |t|
    ensures WordAt(ct, Sub(ct, q, repl, t, j), 0) == WordAt(ct, t, j)
  {
    if j < |t| {
      if MatchEnd(ct, q, t, j).Some? {
        SubReplaces(ct, q, repl, t, j);
        MatchStartsAtSign(ct, q, repl, t, j);
      }
    }
  }

  /** Both sides of a word edge in a copied stretch are what they were. */
  lemma EdgeBack(ct: CharTable, q: Pattern, repl: string, t: string, i: nat, n: nat, s: string)
    requires ct.Valid() && Proper(q) && BoundaryNeutral(ct, q, repl) && 0 < n && i + n <= |t|
    requires s == t[i..i + n] + Sub(ct, q, repl, t, i + n)
    ensures WordEdge(ct, s, n) == WordEdge(ct, t, i + n)
  {
    HeadWordBack(ct, q, repl, t, i + n);
  }

  /** An opening delimiter at the head of the rewritten text opens the original text as well. */
  lemma OpenBack(ct: CharTable, q: Pattern, repl: string, r: Pattern, t: string, i: nat, k: nat, s: string)
    requires ct.Valid() && Proper(q) && BoundaryNeutral(ct, q, repl) && InertFor(ct, r, repl)
    requires i < |t| && MatchEnd(ct, q, t, i).None? && k < |r.opens|
    requires s == Sub(ct, q, repl, t, i) && OpenAt(ct, r, s, 0, k)
    ensures OpenAt(ct, r, t, i, k)
    ensures s == t[i..i + |r.opens[k]|] + Sub(ct, q, repl, t, i + |r.opens[k]|)
  {
    PrefixBack(ct, q, repl, t, i, r.caseless, r.opens[k]);
    EdgeBack(ct, q, repl, t, i, |r.opens[k]|, s);
  }

  lemma OpenShift(ct: CharTable, r: Pattern, piece: string, rest: string, a: nat, k: nat)
    requires |piece| <= a && k < |r.opens| && r.opens[k] != ""
    ensures OpenAt(ct, r, piece + rest, a, k) <==> OpenAt(ct, r, rest, a - |piece|, k)
  {
    LitShift(ct, r.caseless, r.opens[k], piece, rest, a);
  }

  lemma SpanShift(ct: CharTable, r: Pattern, piece: string, rest: string, a: nat, k: nat, b: nat)
    requires Proper(r) && |piece| <= a && Span(ct, r, piece + rest, a, k, b)
    ensures Span(ct, r, rest, a - |piece|, k, b - |piece|)
  {
    OpenShift(ct, r, piece, rest, a, k);
    LitShift(ct, false, r.close, piece, rest, b);
  }

  /** A span of the rewritten text does not start inside a replacement. */
  lemma SpanPastReplacement(ct: CharTable, q: Pattern, repl: string, r: Pattern, t: string, i: nat, a: nat, k: nat, b: nat)
    requires Proper(q) && Proper(r) && InertFor(ct, r, repl) && MatchEnd(ct, q, t, i).Some?
    requires Span(ct, r, Sub(ct, q, repl, t, i), a, k, b)
    ensures i < MatchEnd(ct, q, t, i).value <= |t| && |repl| <= a && |repl| <= b
    ensures Span(ct, r, Sub(ct, q, repl, t, MatchEnd(ct, q, t, i).value), a - |repl|, k, b - |repl|)
  {
    SubReplaces(ct, q, repl, t, i);
    var rest := Sub(ct, q, repl, t, MatchEnd(ct, q, t, i).value);
    if a < |repl| {
      assert Clash(ct, r.caseless, r.opens[k], repl, a);
      NotInReplacement(ct, r.caseless, r.opens[k], repl, rest, a);
    }
    SpanShift(ct, r, repl, rest, a, k, b);
  }

  lemma SpanPastCopy(ct: CharTable, q: Pattern, repl: string, r: Pattern, t: string, i: nat, a: nat, k: nat, b: nat)
    requires Proper(q) && Proper(r) && MatchEnd(ct, q, t, i).None? && i < |t| && 0 < a
    requires Span(ct, r, Sub(ct, q, repl, t, i), a, k, b)
    ensures Span(ct, r, Sub(ct, q, repl, t, i + 1), a - 1, k, b - 1)
  {
    SpanShift(ct, r, [t[i]], Sub(ct, q, repl, t, i + 1), a, k, b);
  }

  lemma CloseBeyond(ct: CharTable, r: Pattern, piece: string, rest: string, k: nat, b: nat)
    requires k < |r.opens| && |piece| == |r.opens[k]| && Span(ct, r, piece + rest, 0, k, b)
    ensures |piece| <= b && LitAt(ct, false, r.close, rest, b - |piece|)
  {
    LitShift(ct, false, r.close, piece, rest, b);
  }

  /** A span at the head of the rewritten text was one of the original. */
  lemma SpanAtHead(ct: CharTable, q: Pattern, repl: string, r: Pattern, t: string, i: nat, k: nat, b: nat, s: string)
    returns (b': nat)
    requires ct.Valid() && Proper(q) && BoundaryNeutral(ct, q, repl) && InertFor(ct, r, repl)
    requires MatchEnd(ct, q, t, i).None? && i < |t| && s == Sub(ct, q, repl, t, i) && Span(ct, r, s, 0, k, b)
    ensures Span(ct, r, t, i, k, b')
  {
    OpenBack(ct, q, repl, r, t, i, k, s);
    b' := CloseBack(ct, q, repl, r, t, i, k, b, s);
  }

  /** Its closing literal lies further on in the original text as well. */
  lemma CloseBack(ct: CharTable, q: Pattern, repl: string, r: Pattern, t: string, i: nat, k: nat, b: nat, s: string)
    returns (b': nat)
    requires Proper(q) && InertFor(ct, r, repl) && k < |r.opens| && i + |r.opens[k]| <= |t| && Span(ct, r, s, 0, k, b)
    requires s == t[i..i + |r.opens[k]|] + Sub(ct, q, repl, t, i + |r.opens[k]|)
    ensures i + |r.opens[k]| <= b' && LitAt(ct, false, r.close, t, b')
  {
    var n := |r.opens[k]|;
    CloseBeyond(ct, r, t[i..i + n], Sub(ct, q, repl, t, i + n), k, b);
    b' := LitBack(ct, q, repl, t, i + n, r.close, b - n);
  }

  /** A pass creates no match of any pattern whose delimiters are inert for its replacement. */
  lemma {:induction false} SpanBack(ct: CharTable, q: Pattern, repl: string, r: Pattern, t: string, i: nat,
                                    a: nat, k: nat, b: nat)
    returns (a': nat, b': nat)
    requires ct.Valid() && Proper(q) && Proper(r) && BoundaryNeutral(ct, q, repl) && InertFor(ct, r, repl)
    requires i <= |t| && Span(ct, r, Sub(ct, q, repl, t, i), a, k, b)
    ensures i <= a' && Span(ct, r, t, a', k, b')
    ensures MatchEnd(ct, q, t, a').None?
    decreases |t| - i
  {
    if MatchEnd(ct, q, t, i).Some? {
      SpanPastReplacement(ct, q, repl, r, t, i, a, k, b);
      a', b' := SpanBack(ct, q, repl, r, t, MatchEnd(ct, q, t, i).value, a - |repl|, k, b - |repl|);
    } else {
      if a == 0 {
        a' := i;
        b' := SpanAtHead(ct, q, repl, r, t, i, k, b, Sub(ct, q, repl, t, i));
      } else {
        SpanPastCopy(ct, q, repl, r, t, i, a, k, b);
        a', b' := SpanBack(ct, q, repl, r, t, i + 1, a - 1, k, b - 1);
      }
    }
  }

  /** A pass keeps every other pattern absent ... */
  lemma SubKeepsAbsent(ct: CharTable, q: Pattern, repl: string, r: Pattern, t: string)
    requires ct.Valid() && Proper(q) && Proper(r) && BoundaryNeutral(ct, q, repl) && InertFor(ct, r, repl)
    requires !Found(ct, r, t, 0)
    ensures !Found(ct, r, Sub(ct, q, repl, t, 0), 0)
  {
    if Found(ct, r, Sub(ct, q, repl, t, 0), 0) {
      var a, k, b := FoundGivesSpan(ct, r, Sub(ct, q, repl, t, 0), 0);
      var a', b' := SpanBack(ct, q, repl, r, t, 0, a, k, b);
      SpanGivesFound(ct, r, t, 0, a', k, b');
    }
  }

  /** ... and removes its own pattern: an opening it leaves has no closing literal behind it. */
  lemma SubRemovesOwn(ct: CharTable, q: Pattern, repl: string, t: string)
    requires ct.Valid() && Proper(q) && BoundaryNeutral(ct, q, repl) && InertFor(ct, q, repl)
    ensures !Found(ct, q, Sub(ct, q, repl, t, 0), 0)
  {
    if Found(ct, q, Sub(ct, q, repl, t, 0), 0) {
      var a, k, b := FoundGivesSpan(ct, q, Sub(ct, q, repl, t, 0), 0);
      var a', b' := SpanBack(ct, q, repl, q, t, 0, a, k, b);
      FindCloseFirst(ct, q.close, t, a' + |q.opens[k]|, b');
      MatchExists(ct, q, t, a', 0, k);
    }
  }

  /** A pass changes the text exactly when its pattern occurs. */
  lemma {:induction false} SubChangesIffFound(ct: CharTable, q: Pattern, repl: string, t: string, i: nat)
    requires Proper(q) && InertFor(ct, q, repl) && i <= |t|
    ensures Sub(ct, q, repl, t, i) != t[i..] <==> Found(ct, q, t, i)
    decreases |t| - i
  {
    if MatchEnd(ct, q, t, i).Some? {
      MatchBounds(ct, q, t, i);
      var k := MatchUses(ct, q, t, i, 0);
      NotInReplacement(ct, q.caseless, q.opens[k], repl, Sub(ct, q, repl, t, MatchEnd(ct, q, t, i).value), 0);
      LitShift(ct, q.caseless, q.opens[k], t[..i], t[i..], i);
      assert t[..i] + t[i..] == t;
    } else if i < |t| {
      SubChangesIffFound(ct, q, repl, t, i + 1);
      assert t[i..] == [t[i]] + t[i + 1..];
      assert Sub(ct, q, repl, t, i)[1..] == Sub(ct, q, repl, t, i + 1);
    }
  }
}
