/**
 The W3C traceparent codec that carries a trace across the outbox: format a span context, parse a
 header, rebuild a span context. Headers follow section 3.2 of W3C Trace Context.
 */
module TracePropagation {
  import opened Text
  import opened Wrappers

  const TRACE_ID_LIMIT: nat := 0x1_0000_0000_0000_0000_0000_0000_0000_0000
  const SPAN_ID_LIMIT: nat := 0x1_0000_0000_0000_0000

  datatype SpanContext = SpanContext(traceId: nat, spanId: nat, flags: nat)

  /** The named groups of a match. */
  datatype Fields = Fields(version: string, traceId: string, spanId: string, flags: string)

  predicate IsValid(c: SpanContext) {
    0 < c.traceId < TRACE_ID_LIMIT && 0 < c.spanId < SPAN_ID_LIMIT
  }

  // ---- hexadecimal ----

  function Digit(n: nat): char
    requires n < 16
  {
    "0123456789abcdef"[n]
  }

  predicate HexChar(c: char) { '0' <= c <= '9' || 'a' <= c <= 'f' }

  function DigitValue(c: char): nat
    requires HexChar(c)
  {
    if c <= '9' then c as int - '0' as int else c as int - 'a' as int + 10
  }

  /** Lower-case hex, zero-padded to at least `width` digits. */
  function Hex(n: nat, width: nat): string
    decreases n, width
  {
    if n < 16 && width <= 1 then [Digit(n)]
    else Hex(n / 16, if width == 0 then 0 else width - 1) + [Digit(n % 16)]
  }

  predicate AllHex(s: string) { forall i | 0 <= i < |s| :: HexChar(s[i]) }

  function FromHex(s: string): nat
    requires AllHex(s)
  {
    if s == "" then 0 else 16 * FromHex(s[..|s| - 1]) + DigitValue(s[|s| - 1])
  }

  function Pow16(n: nat): nat { if n == 0 then 1 else 16 * Pow16(n - 1) }

  lemma DigitInverse(n: nat)
    requires n < 16
    ensures HexChar(Digit(n)) && DigitValue(Digit(n)) == n
  {
  }

  lemma DigitOnto(c: char)
    requires HexChar(c)
    ensures DigitValue(c) < 16 && Digit(DigitValue(c)) == c
  {
    var v := DigitValue(c);
    assert v < 16;
    assert c as int == if v < 10 then '0' as int + v else 'a' as int + v - 10;
    assert Digit(v) as int == if v < 10 then '0' as int + v else 'a' as int + v - 10;
  }

  /** A number below 16^width is written with exactly width digits, which read back as the number. */
  lemma {:induction false} HexReadsBack(n: nat, width: nat)
    requires 1 <= width && n < Pow16(width)
    ensures |Hex(n, width)| == width && AllHex(Hex(n, width)) && FromHex(Hex(n, width)) == n
    decreases width
  {
    if width == 1 {
      assert Pow16(1) == 16 * Pow16(0);
      DigitInverse(n);
      assert Hex(n, width) == [Digit(n)] && [Digit(n)][..0] == "";
    } else {
      HexReadsBack(n / 16, width - 1);
      DigitInverse(n % 16);
      var h := Hex(n, width);
      assert h == Hex(n / 16, width - 1) + [Digit(n % 16)];
      assert h[..|h| - 1] == Hex(n / 16, width - 1);
    }
  }

  /** And every hex string is what its number is written as. */
  lemma {:induction false} HexWritesBack(s: string)
    requires s != "" && AllHex(s)
    ensures FromHex(s) < Pow16(|s|) && Hex(FromHex(s), |s|) == s
  {
    var f, c := s[..|s| - 1], s[|s| - 1];
    DigitOnto(c);
    assert s == f + [c];
    if f == "" {
      assert Pow16(1) == 16 * Pow16(0);
      assert FromHex(f) == 0;
    } else {
      HexWritesBack(f);
      assert FromHex(s) / 16 == FromHex(f) && FromHex(s) % 16 == DigitValue(c);
    }
  }

  predicate AllZero(s: string) { forall i | 0 <= i < |s| :: s[i] == '0' }

  lemma {:induction false} ZeroIsZeros(s: string)
    requires AllHex(s)
    ensures FromHex(s) == 0 <==> AllZero(s)
  {
    if s != "" {
      ZeroIsZeros(s[..|s| - 1]);
      assert s == s[..|s| - 1] + [s[|s| - 1]];
      assert DigitValue(s[|s| - 1]) == 0 <==> s[|s| - 1] == '0';
    }
  }

  // ---- the codec ----

  function FormatTraceparent(c: SpanContext): Option<string> {
    if IsValid(c) then Some("00-" + Hex(c.traceId, 32) + "-" + Hex(c.spanId, 16) + "-" + Hex(c.flags, 2)) else None
  }

  /** The pattern: four hyphen-separated groups of 2, 32, 16 and 2 hex digits; its end marker also
      accepts one trailing line feed. */
  predicate Matches(s: string) {
    && (|s| == 55 || (|s| == 56 && s[55] == '\n'))
    && AllHex(s[..2]) && s[2] == '-' && AllHex(s[3..35]) && s[35] == '-'
    && AllHex(s[36..52]) && s[52] == '-' && AllHex(s[53..55])
  }

  function ParseTraceparent(header: Option<string>): Option<Fields> {
    if header.None? || header.value == "" then None
    else
      var s := Strip(header.value);
      if Matches(s) then Some(Fields(s[..2], s[3..35], s[36..52], s[53..55])) else None
  }

  function SpanContextFrom(header: Option<string>): Option<SpanContext> {
    var f := ParseTraceparent(header);
    if f.None? then None
    else
      Some(SpanContext(FromHex(f.value.traceId), FromHex(f.value.spanId), FromHex(f.value.flags)))
  }

  lemma Limits()
    ensures Pow16(32) == TRACE_ID_LIMIT && Pow16(16) == SPAN_ID_LIMIT && Pow16(2) == 256
  {
    assert Pow16(2) == 256;
    assert Pow16(8) == 0x1_0000_0000;
    assert Pow16(16) == SPAN_ID_LIMIT;
    assert Pow16(24) == 0x1_0000_0000_0000_0000_0000_0000;
    assert Pow16(32) == TRACE_ID_LIMIT;
  }

  /** Where the four groups of an assembled header lie. */
  lemma Assembled(v: string, t: string, p: string, f: string)
    requires |v| == 2 && |t| == 32 && |p| == 16 && |f| == 2 && AllHex(v) && AllHex(t) && AllHex(p) && AllHex(f)
    ensures var s := v + "-" + t + "-" + p + "-" + f;
            && Matches(s) && s[..2] == v && s[3..35] == t && s[36..52] == p && s[53..55] == f && Strip(s) == s
  {
    var s := v + "-" + t + "-" + p + "-" + f;
    assert s[0] == v[0] && s[54] == f[1];
    assert HexChar(s[0]) && HexChar(s[54]);
    assert s[3..35] == t && s[36..52] == p && s[53..55] == f && s[..2] == v;
  }

  /** Every valid context with eight-bit flags survives format then parse; an invalid one is never
      formatted. */
  lemma FormatThenParse(c: SpanContext)
    requires c.flags < 256
    ensures FormatTraceparent(c).Some? <==> IsValid(c)
    ensures IsValid(c) ==> SpanContextFrom(FormatTraceparent(c)) == Some(c)
    ensures IsValid(c) ==> |FormatTraceparent(c).value| == 55 && ParseTraceparent(FormatTraceparent(c)).Some?
                           && ParseTraceparent(FormatTraceparent(c)).value.traceId == Hex(c.traceId, 32)
  {
    if IsValid(c) {
      Limits();
      HexReadsBack(c.traceId, 32);
      HexReadsBack(c.spanId, 16);
      HexReadsBack(c.flags, 2);
      var t, p, f := Hex(c.traceId, 32), Hex(c.spanId, 16), Hex(c.flags, 2);
      Assembled("00", t, p, f);
      assert "00-" == "00" + "-";
      assert FormatTraceparent(c).value == "00" + "-" + t + "-" + p + "-" + f;
    }
  }

  /** An accepted header is, stripped, its four groups. */
  lemma AcceptedIsGroups(header: Option<string>)
    requires ParseTraceparent(header).Some?
    ensures var f := ParseTraceparent(header).value;
            && |f.version| == 2 && |f.traceId| == 32 && |f.spanId| == 16 && |f.flags| == 2
            && AllHex(f.version) && AllHex(f.traceId) && AllHex(f.spanId) && AllHex(f.flags)
            && Strip(header.value) == f.version + "-" + f.traceId + "-" + f.spanId + "-" + f.flags
  {
    RstripEnds(Lstrip(header.value));
    var s := Strip(header.value);
    assert |s| == 55;
    assert s == s[..2] + [s[2]] + s[3..35] + [s[35]] + s[36..52] + [s[52]] + s[53..55];
  }

  /** The stripped header is four groups of 2, 32, 16 and 2 hex digits. */
  ghost predicate FourGroups(s: string) {
    exists v, t, p, f :: |v| == 2 && |t| == 32 && |p| == 16 && |f| == 2 && AllHex(v) && AllHex(t) && AllHex(p) && AllHex(f)
                         && s == v + "-" + t + "-" + p + "-" + f
  }

  /** Exactly those headers are accepted, of any version. */
  lemma AcceptedIff(header: string)
    ensures ParseTraceparent(Some(header)).Some? <==> FourGroups(Strip(header))
  {
    if ParseTraceparent(Some(header)).Some? {
      AcceptedIsGroups(Some(header));
      var f := ParseTraceparent(Some(header)).value;
      assert Strip(header) == f.version + "-" + f.traceId + "-" + f.spanId + "-" + f.flags;
    }
    if FourGroups(Strip(header)) {
      var v, t, p, f :| |v| == 2 && |t| == 32 && |p| == 16 && |f| == 2 && AllHex(v) && AllHex(t) && AllHex(p) && AllHex(f)
                        && Strip(header) == v + "-" + t + "-" + p + "-" + f;
      Assembled(v, t, p, f);
    }
  }

  /** What the groups of an accepted header are written back as. */
  lemma WrittenBack(t: string, p: string, f: string)
    requires |t| == 32 && |p| == 16 && |f| == 2 && AllHex(t) && AllHex(p) && AllHex(f)
    ensures FormatTraceparent(SpanContext(FromHex(t), FromHex(p), FromHex(f)))
            == if AllZero(t) || AllZero(p) then None else Some("00-" + t + "-" + p + "-" + f)
  {
    Limits();
    HexWritesBack(t);
    HexWritesBack(p);
    HexWritesBack(f);
    ZeroIsZeros(t);
    ZeroIsZeros(p);
  }

  lemma VersionDecides(v: string, t: string, p: string, f: string)
    requires |v| == 2
    ensures "00-" + t + "-" + p + "-" + f == v + "-" + t + "-" + p + "-" + f <==> v == "00"
  {
    assert ("00-" + t + "-" + p + "-" + f)[..2] == "00";
    assert (v + "-" + t + "-" + p + "-" + f)[..2] == v;
    assert "00" + "-" == "00-";
  }

  /** An accepted header re-formats to its stripped self exactly when it is of version 00 and neither
      identifier is all zeros. */
  lemma ParseThenFormatIff(header: Option<string>)
    requires ParseTraceparent(header).Some?
    ensures var f := ParseTraceparent(header).value;
            FormatTraceparent(SpanContextFrom(header).value) == Some(Strip(header.value))
            <==> f.version == "00" && !AllZero(f.traceId) && !AllZero(f.spanId)
  {
    var f := ParseTraceparent(header).value;
    AcceptedIsGroups(header);
    WrittenBack(f.traceId, f.spanId, f.flags);
    VersionDecides(f.version, f.traceId, f.spanId, f.flags);
  }

  /** The all-zero trace id, which section 3.2.2.3 forbids, is accepted whatever follows it, and is
      not written back. */
  lemma ZeroTraceIdAccepted(p: string, f: string)
    requires |p| == 16 && |f| == 2 && AllHex(p) && AllHex(f)
    ensures var h := Some("00" + "-" + seq(32, _ => '0') + "-" + p + "-" + f);
            SpanContextFrom(h).Some? && FormatTraceparent(SpanContextFrom(h).value) == None
  {
    var t := seq(32, _ => '0');
    Assembled("00", t, p, f);
    ZeroIsZeros(t);
  }
}
