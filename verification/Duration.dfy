/** Probe durations: decimal seconds rounded up to whole milliseconds, without floating point. */
module Duration {
  import opened Basics

  predicate Digits(s: string) { forall i :: 0 <= i < |s| ==> Digit(s[i]) }

  function DigitOf(c: char): nat
    requires Digit(c)
  {
    (c as int) - ('0' as int)
  }

  function Pow10(n: nat): (p: nat)
    ensures p > 0
  {
    if n == 0 then 1 else 10 * Pow10(n - 1)
  }

  /** The number a string of digits denotes. */
  function Decimal(s: string): nat
    requires Digits(s)
  {
    if s == "" then 0 else Decimal(s[..|s| - 1]) * 10 + DigitOf(s[|s| - 1])
  }

  /** `split_once('.')`, with the whole text and no fraction when there is no dot. */
  function DotAt(s: string): (n: nat)
    ensures n <= |s| && '.' !in s[..n] && (n < |s| ==> s[n] == '.')
  {
    if s == "" then 0
    else if s[0] == '.' then 0
    else
      var n := DotAt(s[1..]);
      assert s[..n + 1] == [s[0]] + s[1..][..n];
      n + 1
  }

  function Seconds(s: string): string { s[..DotAt(s)] }

  function Fraction(s: string): string { if DotAt(s) < |s| then s[DotAt(s) + 1..] else "" }

  /** Digits, then optionally a dot and any digits, even none. */
  predicate WellFormed(s: string) {
    Seconds(s) != "" && Digits(Seconds(s)) && Digits(Fraction(s))
  }

  /** The duration in seconds is `Numerator / Pow10(|fraction|)`, exactly. */
  function Numerator(s: string): nat
    requires WellFormed(s)
  {
    Decimal(Seconds(s)) * Pow10(|Fraction(s)|) + Decimal(Fraction(s))
  }

  /** The exact value in milliseconds, rounded up. */
  function CeilMillis(s: string): nat
    requires WellFormed(s)
  {
    CeilDiv(1000 * Numerator(s), Pow10(|Fraction(s)|))
  }

  /** What the parser promises: every positive duration that fits, rounded up, and nothing else. */
  function Expected(s: string): Option<nat> {
    if WellFormed(s) && 0 < CeilMillis(s) <= U64_MAX then Some(CeilMillis(s)) else None
  }

  // ----- Decimal arithmetic -----

  lemma {:induction false} DecimalSplit(a: string, b: string)
    requires Digits(a) && Digits(b)
    ensures Digits(a + b) && Decimal(a + b) == Decimal(a) * Pow10(|b|) + Decimal(b)
    decreases |b|
  {
    if b == "" {
      assert a + b == a;
    } else {
      var front := b[..|b| - 1];
      DecimalSplit(a, front);
      assert (a + b)[..|a + b| - 1] == a + front;
      assert Pow10(|b|) == 10 * Pow10(|front|);
      assert Decimal(a) * Pow10(|b|) == Decimal(a) * Pow10(|front|) * 10;
    }
  }

  lemma {:induction false} DecimalBounded(s: string)
    requires Digits(s)
    ensures Decimal(s) < Pow10(|s|)
    ensures Decimal(s) > 0 <==> exists i :: 0 <= i < |s| && s[i] != '0'
    decreases |s|
  {
    if s != "" {
      var front := s[..|s| - 1];
      DecimalBounded(front);
      assert Pow10(|s|) == 10 * Pow10(|front|);
      assert forall i :: 0 <= i < |front| ==> front[i] == s[i];
      assert s[|s| - 1] != '0' <==> DigitOf(s[|s| - 1]) > 0;
      if Decimal(front) > 0 {
        var i :| 0 <= i < |front| && front[i] != '0';
        assert s[i] != '0';
      }
    }
  }

  lemma {:induction false} Pow10Adds(a: nat, b: nat)
    ensures Pow10(a + b) == Pow10(a) * Pow10(b)
    decreases a
  {
    if a > 0 {
      Pow10Adds(a - 1, b);
      assert Pow10(a) * Pow10(b) == 10 * (Pow10(a - 1) * Pow10(b));
    }
  }

  /** The first three fraction digits, as milliseconds. */
  function Leading(f: string): nat
    requires Digits(f)
  {
    var n := Min(3, |f|);
    Decimal(f[..n]) * Pow10(3 - n)
  }

  /** One more millisecond exactly when a later digit is not zero. */
  function Carry(f: string): nat {
    if |f| > 3 && exists i :: 3 <= i < |f| && f[i] != '0' then 1 else 0
  }

  /** `f` has the digits of `d` before and of `t` after the third place, with `p` the weight of the tail. */
  lemma RoundUpArithmetic(d: nat, t: nat, p: nat)
    requires t < p
    ensures 1000 * (d * p + t) <= (d + (if t > 0 then 1 else 0)) * (1000 * p) < 1000 * (d * p + t) + 1000 * p
  {
    assert d * (1000 * p) == 1000 * (d * p);
    assert (d + 1) * (1000 * p) == d * (1000 * p) + 1000 * p;
  }

  lemma Pow10Thousand()
    ensures Pow10(0) == 1 && Pow10(3) == 1000
  {
    assert Pow10(1) == 10 && Pow10(2) == 100;
  }

  lemma LongFraction(f: string)
    requires Digits(f) && |f| > 3
    ensures 1000 * Decimal(f) <= (Leading(f) + Carry(f)) * Pow10(|f|) < 1000 * Decimal(f) + Pow10(|f|)
  {
    var head, tail := f[..3], f[3..];
    assert f == head + tail;
    DecimalSplit(head, tail);
    DecimalBounded(tail);
    Pow10Adds(3, |f| - 3);
    Pow10Thousand();
    TailCarry(f);
    RoundUpArithmetic(Decimal(head), Decimal(tail), Pow10(|tail|));
  }

  lemma ShortFraction(f: string)
    requires Digits(f) && |f| <= 3
    ensures 1000 * Decimal(f) == (Leading(f) + Carry(f)) * Pow10(|f|)
  {
    assert f[..|f|] == f;
    Pow10Adds(3 - |f|, |f|);
    Pow10Thousand();
    Regroup(Decimal(f), Pow10(3 - |f|), Pow10(|f|));
  }

  lemma Regroup(d: nat, a: nat, b: nat)
    requires a * b == 1000
    ensures d * a * b == 1000 * d
  {
    assert d * a * b == d * (a * b);
  }

  /** Leading digits and carry are the fraction's milliseconds, rounded up. */
  lemma FractionRoundsUp(f: string)
    requires Digits(f)
    ensures 1000 * Decimal(f) <= (Leading(f) + Carry(f)) * Pow10(|f|) < 1000 * Decimal(f) + Pow10(|f|)
  {
    if |f| <= 3 { ShortFraction(f); } else { LongFraction(f); }
  }

  lemma TailCarry(f: string)
    requires Digits(f) && |f| > 3
    ensures Carry(f) == if Decimal(f[3..]) > 0 then 1 else 0
  {
    var tail := f[3..];
    DecimalBounded(tail);
    assert forall i :: 3 <= i < |f| ==> f[i] == tail[i - 3];
    if Decimal(tail) > 0 {
      var i :| 0 <= i < |tail| && tail[i] != '0';
      assert f[i + 3] != '0';
    }
  }

  lemma MillisExact(s: string)
    requires WellFormed(s)
    ensures CeilMillis(s) == 1000 * Decimal(Seconds(s)) + Leading(Fraction(s)) + Carry(Fraction(s))
  {
    var f, whole := Fraction(s), Decimal(Seconds(s));
    var b, m := Pow10(|f|), Leading(f) + Carry(f);
    FractionRoundsUp(f);
    WholeSeconds(whole, m, Decimal(f), b);
    CeilDivUnique(1000 * Numerator(s), b, 1000 * whole + m);
  }

  lemma WholeSeconds(whole: nat, m: nat, f: nat, b: nat)
    requires 1000 * f <= m * b < 1000 * f + b
    ensures 1000 * (whole * b + f) <= (1000 * whole + m) * b < 1000 * (whole * b + f) + b
  {
    assert (1000 * whole + m) * b == 1000 * (whole * b) + m * b;
  }

  lemma LeadingBounded(f: string)
    requires Digits(f)
    ensures Leading(f) <= 999
  {
    var n := Min(3, |f|);
    DecimalBounded(f[..n]);
    assert Pow10(0) == 1 && Pow10(1) == 10 && Pow10(2) == 100 && Pow10(3) == 1000;
  }

  // ----- The parser -----

  /** `str::parse::<u64>` on digits: fails exactly when the number does not fit. */
  method ParseSeconds(s: string) returns (r: Option<nat>)
    requires Digits(s)
    ensures r == if Decimal(s) <= U64_MAX then Some(Decimal(s)) else None
  {
    var total := 0;
    var i := 0;
    while i < |s|
      invariant 0 <= i <= |s| && total == Decimal(s[..i]) <= U64_MAX
    {
      assert s[..i + 1][..i] == s[..i];
      var scaled := CheckedMul(total, 10);
      var next := if scaled.Some? then CheckedAdd(scaled.value, DigitOf(s[i])) else None;
      if next.None? {
        assert Decimal(s[..i + 1]) > U64_MAX;
        PrefixSmaller(s, i + 1);
        return None;
      }
      total := next.value;
      i := i + 1;
    }
    assert s[..i] == s;
    r := Some(total);
  }

  lemma {:induction false} PrefixSmaller(s: string, n: nat)
    requires Digits(s) && n <= |s|
    ensures Decimal(s[..n]) <= Decimal(s)
    decreases |s|
  {
    if n == |s| {
      assert s[..n] == s;
    } else {
      PrefixSmaller(s[..|s| - 1], n);
      assert s[..|s| - 1][..n] == s[..n];
    }
  }

  /** The fraction loop and its rounding. */
  method FractionMillis(fraction: string) returns (millis: nat)
    requires Digits(fraction)
    ensures millis == Leading(fraction) + Carry(fraction)
  {
    millis := 0;
    var i := 0;
    while i < Min(3, |fraction|)
      invariant 0 <= i <= Min(3, |fraction|)
      invariant millis == Decimal(fraction[..i]) * Pow10(3 - i)
    {
      assert fraction[..i + 1][..i] == fraction[..i];
      DigitStep(Decimal(fraction[..i]), DigitOf(fraction[i]), 2 - i);
      millis := millis + DigitOf(fraction[i]) * Pow10(2 - i);
      i := i + 1;
    }
    if |fraction| >= 3 && exists j :: 3 <= j < |fraction| && fraction[j] != '0' {
      millis := millis + 1;
    }
  }

  lemma DigitStep(d: nat, digit: nat, n: nat)
    ensures d * Pow10(n + 1) + digit * Pow10(n) == (d * 10 + digit) * Pow10(n)
  {
    assert d * Pow10(n + 1) == d * 10 * Pow10(n);
  }

  /** `parse_duration_ms`: exactly the positive durations that fit, rounded up; no overflow is spurious. */
  method ParseDurationMs(value: string) returns (r: Option<nat>)
    ensures r == Expected(value)
  {
    var seconds, fraction := Seconds(value), Fraction(value);
    if seconds == "" || !Digits(seconds) || !Digits(fraction) {
      return None;
    }
    MillisExact(value);
    LeadingBounded(fraction);
    var parsed := ParseSeconds(seconds);
    if parsed.None? {
      return None;
    }
    var millis := FractionMillis(fraction);
    var base := CheckedMul(parsed.value, 1000);
    if base.None? {
      return None;
    }
    var total := CheckedAdd(base.value, millis);
    if total.None? || total.value == 0 {
      return None;
    }
    r := Some(total.value);
  }

  // ----- Printing -----

  function DigitChar(d: nat): (c: char)
    requires d < 10
    ensures Digit(c) && DigitOf(c) == d
  {
    (d + '0' as int) as char
  }

  function PrintNat(n: nat): (s: string)
    ensures Digits(s) && s != ""
  {
    if n < 10 then [DigitChar(n)] else PrintNat(n / 10) + [DigitChar(n % 10)]
  }

  lemma {:induction false} PrintNatInverts(n: nat)
    ensures Decimal(PrintNat(n)) == n
  {
    if n < 10 {
      assert [DigitChar(n)][..0] == "";
      assert Decimal("") == 0;
    } else {
      PrintNatInverts(n / 10);
      assert PrintNat(n)[..|PrintNat(n)| - 1] == PrintNat(n / 10);
    }
  }

  function Three(n: nat): (s: string)
    requires n < 1000
    ensures |s| == 3 && Digits(s)
  {
    [DigitChar(n / 100), DigitChar(n / 10 % 10), DigitChar(n % 10)]
  }

  lemma ThreeInverts(n: nat)
    requires n < 1000
    ensures Decimal(Three(n)) == n
  {
    var s := Three(n);
    assert s[..2][..1] == s[..1] && s[..1][..0] == "" && s[..2][1] == s[1];
    assert n / 10 == n / 100 * 10 + n / 10 % 10 && n == n / 10 * 10 + n % 10;
    assert Decimal("") == 0 && Decimal(s[..1]) == n / 100;
    assert Decimal(s[..2]) == n / 100 * 10 + n / 10 % 10;
  }

  /** A millisecond count as `seconds.mmm`. */
  function Print(ms: nat): string { PrintNat(ms / 1000) + "." + Three(ms % 1000) }

  lemma {:induction false} DotAfterDigits(a: string, b: string)
    requires Digits(a)
    ensures DotAt(a + "." + b) == |a|
    decreases a
  {
    if a != "" {
      DotAfterDigits(a[1..], b);
      assert (a + "." + b)[1..] == a[1..] + "." + b;
    } else {
      assert a + "." + b == "." + b;
    }
  }

  /** Parsing inverts printing for every positive 64-bit millisecond count. */
  lemma ParseInvertsPrint(ms: nat)
    requires 0 < ms <= U64_MAX
    ensures Expected(Print(ms)) == Some(ms)
  {
    var a, b, s := PrintNat(ms / 1000), Three(ms % 1000), Print(ms);
    DotAfterDigits(a, b);
    assert Seconds(s) == a && Fraction(s) == b;
    PrintNatInverts(ms / 1000);
    ThreeInverts(ms % 1000);
    MillisExact(s);
    assert b[..3] == b && Pow10(0) == 1;
  }

  /** A trailing dot with no digit after it is accepted. */
  lemma BareDotAccepted(a: string)
    requires Digits(a) && a != "" && 0 < Decimal(a) && 1000 * Decimal(a) <= U64_MAX
    ensures Expected(a + ".") == Some(1000 * Decimal(a))
  {
    DotAfterDigits(a, "");
    assert a + "." + "" == a + ".";
    assert Seconds(a + ".") == a && Fraction(a + ".") == "";
    MillisExact(a + ".");
    assert Decimal("") == 0;
  }
}
