/** Two digit loops: decimal output into a fixed buffer, and the fold of a big-endian
    byte string into a machine integer. */
module Digits {
  import opened Wrappers

  const TWO_63: int := 0x8000_0000_0000_0000
  const TWO_64: int := 0x1_0000_0000_0000_0000

  // ---------- Decimal ----------

  function Pow10(k: nat): (p: nat)
    ensures p > 0
  {
    if k == 0 then 1 else 10 * Pow10(k - 1)
  }

  function DigitValue(c: char): int {
    c as int - '0' as int
  }

  function DigitChar(n: int): (c: char)
    requires 0 <= n < 10
    ensures '0' <= c <= '9' && DigitValue(c) == n
  {
    ('0' as int + n) as char
  }

  predicate Numeral(s: string) {
    forall i | 0 <= i < |s| :: '0' <= s[i] <= '9'
  }

  /** What a decimal numeral denotes. */
  function Value(s: string): nat
    requires Numeral(s)
    decreases |s|
  {
    if s == "" then 0 else 10 * Value(s[..|s| - 1]) + DigitValue(s[|s| - 1])
  }

  /** No leading zero, except in "0" itself. */
  predicate Canonical(s: string) {
    s != "" && Numeral(s) && (s[0] == '0' ==> s == "0")
  }

  lemma TimesTen(d: int, p: int)
    ensures d * (10 * p) == 10 * (d * p)
  {
  }

  lemma {:induction false} ValueCons(c: char, s: string)
    requires '0' <= c <= '9' && Numeral(s)
    ensures Numeral([c] + s) && Value([c] + s) == DigitValue(c) * Pow10(|s|) + Value(s)
    decreases |s|
  {
    if s == "" {
      assert [c] + s == [c] && [c][..0] == "";
    } else {
      var n := |s| - 1;
      ConsPrefix(c, s);
      ValueCons(c, s[..n]);
      TimesTen(DigitValue(c), Pow10(n));
    }
  }

  lemma ConsPrefix(c: char, s: string)
    requires s != ""
    ensures |[c] + s| == |s| + 1 && ([c] + s)[..|s|] == [c] + s[..|s| - 1] && ([c] + s)[|s|] == s[|s| - 1]
  {
  }

  lemma {:induction false} ValueBelow(s: string)
    requires Numeral(s)
    ensures Value(s) < Pow10(|s|)
    decreases |s|
  {
    if s != "" {
      assert '0' <= s[|s| - 1] <= '9';
      ValueBelow(s[..|s| - 1]);
    }
  }

  lemma ValueAbove(s: string)
    requires Canonical(s) && |s| > 1
    ensures Value(s) >= Pow10(|s| - 1)
  {
    FirstDigit(s);
    ValueCons(s[0], s[1..]);
    AtLeastOnce(DigitValue(s[0]), Pow10(|s| - 1));
  }

  lemma FirstDigit(s: string)
    requires Canonical(s) && |s| > 1
    ensures s == [s[0]] + s[1..] && '1' <= s[0] <= '9' && Numeral(s[1..])
  {
    assert '0' <= s[0] <= '9';
  }

  lemma AtLeastOnce(d: int, p: int)
    requires d >= 1 && p >= 0
    ensures d * p >= p
  {
  }

  lemma {:induction false} Pow10Monotone(j: nat, k: nat)
    requires j <= k
    ensures Pow10(j) <= Pow10(k)
    decreases k
  {
    if j < k { Pow10Monotone(j, k - 1); }
  }

  lemma LengthFromValue(s: string, t: string)
    requires Canonical(s) && Canonical(t) && Value(s) == Value(t)
    ensures |s| <= |t|
  {
    if |s| > |t| {
      ValueAbove(s);
      ValueBelow(t);
      Pow10Monotone(|t|, |s| - 1);
    }
  }

  lemma LastDigit(a: nat, b: nat, d: int, e: int)
    requires 10 * a + d == 10 * b + e && 0 <= d <= 9 && 0 <= e <= 9
    ensures a == b && d == e
  {
  }

  lemma {:induction false} SameLengthSameValue(s: string, t: string)
    requires Numeral(s) && Numeral(t) && |s| == |t| && Value(s) == Value(t)
    ensures s == t
    decreases |s|
  {
    if s != "" {
      var n := |s| - 1;
      assert '0' <= s[n] <= '9' && '0' <= t[n] <= '9';
      LastDigit(Value(s[..n]), Value(t[..n]), DigitValue(s[n]), DigitValue(t[n]));
      SameLengthSameValue(s[..n], t[..n]);
      assert s == s[..n] + [s[n]] && t == t[..n] + [t[n]];
    }
  }

  /** A number has one canonical numeral, so the contract of Itoa leaves no choice. */
  lemma CanonicalUnique(s: string, t: string)
    requires Canonical(s) && Canonical(t) && Value(s) == Value(t)
    ensures s == t
  {
    LengthFromValue(s, t);
    LengthFromValue(t, s);
    SameLengthSameValue(s, t);
  }

  /** Moving a digit from the number to the numeral. */
  lemma DigitStep(n: nat, c: char, s: string)
    requires n > 0 && Numeral(s) && '0' <= c <= '9' && DigitValue(c) == n % 10
    ensures Numeral([c] + s) && n * Pow10(|s|) + Value(s) == n / 10 * Pow10(|s| + 1) + Value([c] + s)
  {
    ValueCons(c, s);
    SplitTens(n, Pow10(|s|));
  }

  lemma SplitTens(n: nat, p: int)
    ensures n * p == n / 10 * (10 * p) + n % 10 * p
  {
    var q, r := n / 10, n % 10;
    assert n == 10 * q + r;
    TimesTen(q, p);
    assert (10 * q + r) * p == 10 * (q * p) + r * p;
  }

  lemma NineteenDigits()
    ensures Pow10(19) == 10_000_000_000_000_000_000
  {
    assert Pow10(5) == 100_000;
    assert Pow10(10) == 10_000_000_000;
    assert Pow10(15) == 1_000_000_000_000_000;
  }

  /** The usual definition of a number's numeral. */
  function Decimal(n: nat): string {
    if n < 10 then [DigitChar(n)] else Decimal(n / 10) + [DigitChar(n % 10)]
  }

  function Signed(n: int): string {
    if n < 0 then "-" + Decimal(-n) else Decimal(n)
  }

  lemma {:induction false} DecimalIsCanonical(n: nat)
    ensures Canonical(Decimal(n)) && Value(Decimal(n)) == n && (n > 0 ==> Decimal(n)[0] != '0')
    decreases n
  {
    var s := Decimal(n);
    if n < 10 {
      assert s[..0] == "";
    } else {
      DecimalIsCanonical(n / 10);
      var t := Decimal(n / 10);
      assert s[..|t|] == t && s[0] == t[0];
    }
  }

  /** The contract of Itoa names the usual numeral. */
  lemma CanonicalIsDecimal(s: string)
    requires Canonical(s)
    ensures s == Decimal(Value(s))
  {
    DecimalIsCanonical(Value(s));
    CanonicalUnique(s, Decimal(Value(s)));
  }

  /** The loop of Itoa: what is left of the number, and the digits already written. */
  predicate Writing(number: int, n: int, written: string) {
    && 0 <= n && |written| <= 19 && n < Pow10(19 - |written|)
    && Numeral(written) && number == n * Pow10(|written|) + Value(written)
    && (n == 0 ==> written != "" && written[0] != '0')
  }

  lemma WritingStarts(number: int)
    requires 0 < number < TWO_63
    ensures Writing(number, number, "")
  {
    NineteenDigits();
    assert number * Pow10(0) == number;
  }

  lemma WritingStep(number: int, n: int, written: string)
    requires n > 0 && Writing(number, n, written)
    ensures Writing(number, n / 10, [DigitChar(n % 10)] + written)
  {
    DigitStep(n, DigitChar(n % 10), written);
  }

  lemma WritingEnds(number: int, written: string)
    requires Writing(number, 0, written)
    ensures Canonical(written) && Value(written) == number && |written| < 20
  {
  }

  lemma ZeroNumeral()
    ensures Canonical("0") && Value("0") == 0
  {
    assert "0"[..0] == "";
  }

  /** The result is parsed back to the number, for every int, and the buffer of twenty
      bytes is never overrun: at least one of them stays unused. */
  method Itoa(number: int) returns (s: string)
    requires -TWO_63 <= number < TWO_63
    ensures Canonical(s) && Value(s) == if number < 0 then 0 else number
    ensures |s| < 20
  {
    if number <= 0 {
      ZeroNumeral();
      return "0";
    }
    var n := number;
    var buf := new char[20];
    var i := buf.Length;
    assert buf[20..] == "";
    WritingStarts(number);
    while n > 0
      invariant buf.Length == 20 && 0 <= i <= 20 && Writing(number, n, buf[i..])
    {
      WritingStep(number, n, buf[i..]);
      ghost var before := buf[i..];
      i := i - 1;
      buf[i] := DigitChar(n % 10);
      assert buf[i..] == [buf[i]] + before;
      n := n / 10;
    }
    WritingEnds(number, buf[i..]);
    return buf[i..];
  }

  // ---------- The exponent ----------

  newtype Byte = b: int | 0 <= b < 256

  /** The value of a byte string, most significant byte first, as section 6.3.1.2 of
      RFC 7518 has it. */
  function BigEndian(bytes: seq<Byte>): nat
    decreases |bytes|
  {
    if bytes == [] then 0 else 256 * BigEndian(bytes[..|bytes| - 1]) + bytes[|bytes| - 1] as int
  }

  /** Two's complement in 64 bits. */
  function Wrap(x: int): (r: int)
    ensures -TWO_63 <= r < TWO_63
  {
    (x + TWO_63) % TWO_64 - TWO_63
  }

  /** Wrapping takes off a multiple of 2^64, and such multiples do not matter to it. */
  lemma WrapTakesOff(x: int) returns (k: int)
    ensures Wrap(x) == x - TWO_64 * k
  {
    k := (x + TWO_63) / TWO_64;
  }

  lemma WrapIgnores(x: int, k: int)
    ensures Wrap(x - TWO_64 * k) == Wrap(x)
  {
  }

  lemma WrapShift(x: int, b: int)
    ensures Wrap(Wrap(Wrap(x) * 256) + b) == Wrap(256 * x + b)
  {
    var k := WrapTakesOff(x);
    var m := WrapTakesOff(Wrap(x) * 256);
    WrapIgnores(256 * x + b, 256 * k + m);
  }

  /** The shift-and-add loop; an exponent that comes out zero is refused. */
  method Exponent(bytes: seq<Byte>) returns (e: Option<int>)
    ensures e == if Wrap(BigEndian(bytes)) == 0 then None else Some(Wrap(BigEndian(bytes)))
  {
    var sum := 0;
    for k := 0 to |bytes|
      invariant sum == Wrap(BigEndian(bytes[..k]))
    {
      assert bytes[..k + 1][..k] == bytes[..k];
      WrapShift(BigEndian(bytes[..k]), bytes[k] as int);
      sum := Wrap(Wrap(sum * 256) + bytes[k] as int);
    }
    assert bytes[..|bytes|] == bytes;
    if sum == 0 {
      return None;
    }
    return Some(sum);
  }

  lemma SameResidue(x: int, k: int)
    ensures (x - TWO_64 * k) % TWO_64 == x % TWO_64
  {
  }

  lemma WrapExactly(x: nat)
    ensures Wrap(x) == x <==> x < TWO_63
    ensures Wrap(x) == 0 <==> x % TWO_64 == 0
  {
    var k := WrapTakesOff(x);
    SameResidue(x, k);
  }

  /** The fold is the encoded number exactly below 2^63; beyond, it is congruent modulo
      2^64 and may be negative, and a multiple of 2^64 is refused like zero. */
  lemma ExponentExactly(bytes: seq<Byte>)
    ensures Wrap(BigEndian(bytes)) == BigEndian(bytes) <==> BigEndian(bytes) < TWO_63
    ensures Wrap(BigEndian(bytes)) % TWO_64 == BigEndian(bytes) % TWO_64
    ensures Wrap(BigEndian(bytes)) == 0 <==> BigEndian(bytes) % TWO_64 == 0
  {
    WrapExactly(BigEndian(bytes));
    var k := WrapTakesOff(BigEndian(bytes));
    SameResidue(BigEndian(bytes), k);
  }
}
