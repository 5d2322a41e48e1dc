/** Whitespace stripping of strings, as str.strip does it. */
module Text {
  /** Whitespace in the sense of str.strip. */
  predicate Space(c: char) {
    var n := c as int;
    0x9 <= n <= 0xD || 0x1C <= n <= 0x20 || n == 0x85 || n == 0xA0 || n == 0x1680
    || 0x2000 <= n <= 0x200A || n == 0x2028 || n == 0x2029 || n == 0x202F || n == 0x205F || n == 0x3000
  }

  function Lstrip(s: string): string {
    if s != "" && Space(s[0]) then Lstrip(s[1..]) else s
  }

  function Rstrip(s: string): string {
    if s != "" && Space(s[|s| - 1]) then Rstrip(s[..|s| - 1]) else s
  }

  function Strip(s: string): string { Rstrip(Lstrip(s)) }

  lemma {:induction false} RstripEnds(s: string)
    ensures Rstrip(s) != "" ==> !Space(Rstrip(s)[|Rstrip(s)| - 1])
  {
    if s != "" && Space(s[|s| - 1]) {
      RstripEnds(s[..|s| - 1]);
    }
  }

  lemma {:induction false} LstripIs(s: string) returns (a: nat)
    ensures a <= |s| && Lstrip(s) == s[a..] && forall i | 0 <= i < a :: Space(s[i])
    ensures a < |s| ==> !Space(s[a])
  {
    a := 0;
    if s != "" && Space(s[0]) {
      var b := LstripIs(s[1..]);
      a := b + 1;
      assert forall i | 0 < i < a :: s[i] == s[1..][i - 1];
    }
  }

  lemma {:induction false} RstripIs(s: string) returns (b: nat)
    ensures b <= |s| && Rstrip(s) == s[..b] && forall i | b <= i < |s| :: Space(s[i])
    ensures 0 < b ==> !Space(s[b - 1])
  {
    b := |s|;
    if s != "" && Space(s[|s| - 1]) {
      b := RstripIs(s[..|s| - 1]);
    }
  }

  /** Stripping takes white space off both ends, all of it, and nothing else. */
  lemma StripIs(s: string) returns (a: nat, b: nat)
    ensures a <= b <= |s| && Strip(s) == s[a..b]
    ensures forall i | 0 <= i < a || b <= i < |s| :: Space(s[i])
    ensures a < b ==> !Space(s[a]) && !Space(s[b - 1])
  {
    a := LstripIs(s);
    var n := RstripIs(s[a..]);
    b := a + n;
    forall i | b <= i < |s| ensures Space(s[i]) {
      assert s[i] == s[a..][i - a];
    }
  }
}
