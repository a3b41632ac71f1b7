/** Shared vocabulary: failure-carrying results, alphabets, and the machine integers of the Rust types. */
module Basics {

  datatype Option<+T> = None | Some(value: T)

  datatype Result<+T, +E> = Ok(value: T) | Err(error: E)

  const U16_MAX: nat := 0xFFFF
  const U32_MAX: nat := 0xFFFF_FFFF
  const U64_MAX: nat := 0xFFFF_FFFF_FFFF_FFFF
  const U128_MAX: nat := 0xFFFF_FFFF_FFFF_FFFF_FFFF_FFFF_FFFF_FFFF

  type Byte = x: int | 0 <= x < 256

  type Bytes = seq<Byte>

  /** A call answers, takes effect while its answer is lost, or is refused without effect. */
  datatype Answer = Done | AnswerLost | Refused

  predicate Digit(c: char) { '0' <= c <= '9' }

  predicate Alphanumeric(c: char) {
    Digit(c) || 'a' <= c <= 'z' || 'A' <= c <= 'Z'
  }

  predicate TokenChar(c: char) { Alphanumeric(c) || c == '-' || c == '_' }

  /** The narrow alphabet of tenants, presets, upload identifiers and workers. */
  predicate Token(s: string, maxLength: nat) {
    0 < |s| <= maxLength && forall i :: 0 <= i < |s| ==> TokenChar(s[i])
  }

  /** `checked_add` on `u64`. */
  function CheckedAdd(a: nat, b: nat): Option<nat> {
    if a + b <= U64_MAX then Some(a + b) else None
  }

  /** `checked_mul` on `u64`. */
  function CheckedMul(a: nat, b: nat): Option<nat> {
    if a * b <= U64_MAX then Some(a * b) else None
  }

  function Min(a: int, b: int): int {
    if a <= b then a else b
  }

  function Max(a: int, b: int): int {
    if a <= b then b else a
  }

  /** `div_ceil`. */
  function CeilDiv(a: nat, b: nat): nat
    requires b > 0
  {
    (a + b - 1) / b
  }

  /** `CeilDiv(a, b)` is the least multiplier that covers `a`. */
  lemma CeilDivBounds(a: nat, b: nat)
    requires b > 0
    ensures CeilDiv(a, b) * b >= a
    ensures CeilDiv(a, b) * b < a + b
  {
    var q := CeilDiv(a, b);
    assert (a + b - 1) == b * q + (a + b - 1) % b;
    assert q * b == b * q;
  }

  lemma CeilDivUnique(a: nat, b: nat, q: nat)
    requires b > 0
    requires a <= q * b < a + b
    ensures CeilDiv(a, b) == q
  {
    var c := CeilDiv(a, b);
    CeilDivBounds(a, b);
    assert (c + 1) * b == c * b + b && (q + 1) * b == q * b + b;
    if c < q {
      MulMonotone(c + 1, q, b);
    } else if q < c {
      MulMonotone(q + 1, c, b);
    }
  }

  lemma MulMonotone(a: nat, b: nat, m: nat)
    requires a <= b
    ensures a * m <= b * m
  {
  }

  /** Sum of a sequence of naturals. */
  function Sum(s: seq<nat>): nat {
    if s == [] then 0 else s[0] + Sum(s[1..])
  }

  lemma {:induction false} SumAppend(s: seq<nat>, t: seq<nat>)
    ensures Sum(s + t) == Sum(s) + Sum(t)
  {
    if s == [] {
      assert s + t == t;
    } else {
      SumAppend(s[1..], t);
      assert (s + t)[1..] == s[1..] + t;
    }
  }

  lemma {:induction false} SumUpdate(s: seq<nat>, i: nat, x: nat)
    requires i < |s|
    ensures Sum(s[i := x]) == Sum(s) - s[i] + x
    ensures Sum(s) >= s[i]
  {
    if i == 0 {
      assert s[i := x][1..] == s[1..];
    } else {
      SumUpdate(s[1..], i - 1, x);
      assert s[i := x][1..] == s[1..][i - 1 := x];
    }
  }

  // ----- Big-endian numbers -----

  function BigEndian(b: Bytes): nat {
    if b == [] then 0 else BigEndian(b[..|b| - 1]) * 256 + b[|b| - 1]
  }

  function ToBigEndian(n: nat, l: nat): (b: Bytes)
    ensures |b| == l
  {
    if l == 0 then [] else ToBigEndian(n / 256, l - 1) + [n % 256]
  }

  function Power256(l: nat): nat {
    if l == 0 then 1 else 256 * Power256(l - 1)
  }

  lemma {:induction false} BigEndianBounded(b: Bytes)
    ensures BigEndian(b) < Power256(|b|)
  {
    if b != [] {
      BigEndianBounded(b[..|b| - 1]);
      assert Power256(|b|) == 256 * Power256(|b| - 1);
    }
  }

  lemma {:induction false} BigEndianInverts(n: nat, l: nat)
    requires n < Power256(l)
    ensures BigEndian(ToBigEndian(n, l)) == n
    decreases l
  {
    if l > 0 {
      assert Power256(l) == 256 * Power256(l - 1);
      BigEndianInverts(n / 256, l - 1);
      assert ToBigEndian(n, l)[..l - 1] == ToBigEndian(n / 256, l - 1);
    }
  }

  lemma {:induction false} ToBigEndianInverts(b: Bytes)
    ensures ToBigEndian(BigEndian(b), |b|) == b
    decreases |b|
  {
    if b != [] {
      ToBigEndianInverts(b[..|b| - 1]);
      assert b == b[..|b| - 1] + [b[|b| - 1]];
    }
  }
}
