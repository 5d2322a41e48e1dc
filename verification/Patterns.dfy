/**
 The regular expressions of the layer-1 injection scan, as a leftmost,
 shortest-span matcher over `seq<char>`, together with the effect of one
 `pattern.sub(replacement, text)`.
 */
module Patterns {
  import opened Wrappers

  predicate AsciiLetter(c: char) { 'a' <= c <= 'z' || 'A' <= c <= 'Z' }

  predicate AsciiWord(c: char) { AsciiLetter(c) || '0' <= c <= '9' || c == '_' }

  /** Python's Unicode tables: `\w` membership and case folding. The theorems hold for every
      table that agrees with ASCII and folds no foreign character onto ASCII punctuation. */
  datatype CharTable = CharTable(word: char -> bool, fold: char -> char) {
    ghost predicate Valid() {
      && (forall c: char {:trigger word(c)} :: c < 128 as char ==> word(c) == AsciiWord(c))
      && (forall c: char {:trigger fold(c)} :: c < 128 as char ==>
            fold(c) == if 'A' <= c <= 'Z' then (c as int + 32) as char else c)
      && (forall c: char {:trigger fold(c)} :: 128 as char <= c ==>
            'a' <= fold(c) <= 'z' || 128 as char <= fold(c))
    }
  }

  /** One delimiter pattern: an opening literal (one of several), an optional `\b`, then the
      shortest span that ends with the closing literal. */
  datatype Pattern = Pattern(opens: seq<string>, caseless: bool, wordEdge: bool, close: string)

  predicate SameChar(ct: CharTable, caseless: bool, c: char, d: char) {
    if caseless then ct.fold(c) == ct.fold(d) else c == d
  }

  /** The literal `lit` stands in `t` at position `i`. */
  predicate LitAt(ct: CharTable, caseless: bool, lit: string, t: string, i: nat)
    ensures LitAt(ct, caseless, lit, t, i) ==> i + |lit| <= |t|
    decreases |lit|
  {
    if lit == "" then i <= |t|
    else i < |t| && SameChar(ct, caseless, t[i], lit[0]) && LitAt(ct, caseless, lit[1..], t, i + 1)
  }

  predicate WordAt(ct: CharTable, t: string, i: int) {
    0 <= i < |t| && ct.word(t[i])
  }

  /** `\b` at position `i`. */
  predicate WordEdge(ct: CharTable, t: string, i: nat) {
    WordAt(ct, t, i - 1) != WordAt(ct, t, i)
  }

  /** The `k`-th opening alternative of `q` matches at `i`. */
  predicate OpenAt(ct: CharTable, q: Pattern, t: string, i: nat, k: nat)
    requires k < |q.opens|
  {
    && LitAt(ct, q.caseless, q.opens[k], t, i)
    && (q.wordEdge ==> WordEdge(ct, t, i + |q.opens[k]|))
  }

  /** Position of the first `close` at or after `j`. */
  function FindClose(ct: CharTable, close: string, t: string, j: nat): Option<nat>
    decreases |t| - j
  {
    if LitAt(ct, false, close, t, j) then Some(j)
    else if j >= |t| then None
    else FindClose(ct, close, t, j + 1)
  }

  lemma FindCloseSound(ct: CharTable, close: string, t: string, j: nat)
    requires FindClose(ct, close, t, j).Some?
    ensures j <= FindClose(ct, close, t, j).value && LitAt(ct, false, close, t, FindClose(ct, close, t, j).value)
    decreases |t| - j
  {
  }

  lemma {:induction false} FindCloseFirst(ct: CharTable, close: string, t: string, j: nat, b: nat)
    requires j <= b && LitAt(ct, false, close, t, b)
    ensures FindClose(ct, close, t, j).Some? && FindClose(ct, close, t, j).value <= b
    decreases |t| - j
  {
    if !LitAt(ct, false, close, t, j) {
      FindCloseFirst(ct, close, t, j + 1, b);
    }
  }

  /** End of the match that starts at `i`, trying the alternatives from the `k`-th on. */
  function MatchFrom(ct: CharTable, q: Pattern, t: string, i: nat, k: nat): Option<nat>
    requires k <= |q.opens|
    decreases |q.opens| - k
  {
    if k == |q.opens| then None
    else if OpenAt(ct, q, t, i, k) && FindClose(ct, q.close, t, i + |q.opens[k]|).Some? then
      Some(FindClose(ct, q.close, t, i + |q.opens[k]|).value + |q.close|)
    else MatchFrom(ct, q, t, i, k + 1)
  }

  function MatchEnd(ct: CharTable, q: Pattern, t: string, i: nat): Option<nat> {
    MatchFrom(ct, q, t, i, 0)
  }

  /** The alternative that a match used. */
  lemma {:induction false} MatchUses(ct: CharTable, q: Pattern, t: string, i: nat, k: nat) returns (a: nat)
    requires k <= |q.opens| && MatchFrom(ct, q, t, i, k).Some?
    ensures a < |q.opens| && OpenAt(ct, q, t, i, a) && FindClose(ct, q.close, t, i + |q.opens[a]|).Some?
    ensures MatchFrom(ct, q, t, i, k).value == FindClose(ct, q.close, t, i + |q.opens[a]|).value + |q.close|
    decreases |q.opens| - k
  {
    if OpenAt(ct, q, t, i, k) && FindClose(ct, q.close, t, i + |q.opens[k]|).Some? {
      a := k;
    } else {
      a := MatchUses(ct, q, t, i, k + 1);
    }
  }

  lemma {:induction false} MatchExists(ct: CharTable, q: Pattern, t: string, i: nat, k: nat, a: nat)
    requires k <= a < |q.opens| && OpenAt(ct, q, t, i, a) && FindClose(ct, q.close, t, i + |q.opens[a]|).Some?
    ensures MatchFrom(ct, q, t, i, k).Some?
    decreases |q.opens| - k
  {
    if k < a {
      MatchExists(ct, q, t, i, k + 1, a);
    }
  }

  predicate Proper(q: Pattern) {
    q.close != "" && q.opens != [] && forall k | 0 <= k < |q.opens| :: q.opens[k] != ""
  }

  lemma MatchBounds(ct: CharTable, q: Pattern, t: string, i: nat)
    requires Proper(q) && MatchEnd(ct, q, t, i).Some?
    ensures i < MatchEnd(ct, q, t, i).value <= |t|
  {
    var a := MatchUses(ct, q, t, i, 0);
    FindCloseSound(ct, q.close, t, i + |q.opens[a]|);
  }

  /** `pattern.search(t[i:])` succeeds. */
  predicate Found(ct: CharTable, q: Pattern, t: string, i: nat)
    decreases |t| - i
  {
    MatchEnd(ct, q, t, i).Some? || (i < |t| && Found(ct, q, t, i + 1))
  }

  /** `pattern.sub(repl, t)`, from position `i` on: leftmost, non-overlapping. */
  function Sub(ct: CharTable, q: Pattern, repl: string, t: string, i: nat): string
    requires Proper(q)
    decreases |t| - i
  {
    if i >= |t| then ""
    else if MatchEnd(ct, q, t, i).Some? then
      MatchBounds(ct, q, t, i);
      repl + Sub(ct, q, repl, t, MatchEnd(ct, q, t, i).value)
    else [t[i]] + Sub(ct, q, repl, t, i + 1)
  }
}
