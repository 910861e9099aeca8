/** Base-10 mantissa/exponent coding of bandwidth values (elmi_api.c, elmi_uni_c.c). */
module Bandwidth {
  import opened Octets

  const MAX_EXPSIZE := 7
  const UINT16_MAXFRACT: u16 := 65535
  const UINT8_MAXFRACT: u8 := 255

  /** mul * 10^mag */
  function Value(mul: nat, mag: nat): nat {
    if mag == 0 then mul else 10 * Value(mul, mag - 1)
  }

  /** The pair reached by dividing by ten while the number exceeds `max`, at most MAX_EXPSIZE times. */
  function Scale(num: nat, max: nat, i: nat): (r: (nat, nat))
    decreases MAX_EXPSIZE - i, num
  {
    if i < MAX_EXPSIZE && num > max then Scale(num / 10, max, i + 1) else (num, i)
  }

  /** What the u16/u8 output parameters hold: the multiplier is truncated to the width of `max`. */
  function Code(num: u32, max: nat): (r: (nat, nat)) {
    var (m, k) := Scale(num, max, 0);
    (if max == UINT8_MAXFRACT then m % 0x100 else m % 0x1_0000, k)
  }

  /** A multiplier and magnitude read back: the result and each product are 32 bits wide. */
  function NumberOf(mul: u16, mag: u8): u32 {
    Value(mul, mag) % 0x1_0000_0000
  }

  method MantissaExponent16(num: u32) returns (multiplier: u16, magnitude: u8)
    ensures (multiplier, magnitude) == Code(num, UINT16_MAXFRACT)
  {
    if num < UINT16_MAXFRACT {
      magnitude := 0;
      multiplier := num;
    } else {
      var n: nat := num;
      var i := 0;
      while i < MAX_EXPSIZE && n > UINT16_MAXFRACT
        invariant 0 <= i <= MAX_EXPSIZE
        invariant Scale(num, UINT16_MAXFRACT, 0) == Scale(n, UINT16_MAXFRACT, i)
      {
        n := n / 10;
        i := i + 1;
      }
      magnitude := i;
      multiplier := n % 0x1_0000;
    }
  }

  method MantissaExponent8(num: u32) returns (multiplier: u8, magnitude: u8)
    ensures (multiplier, magnitude) == Code(num, UINT8_MAXFRACT)
  {
    if num < UINT8_MAXFRACT {
      magnitude := 0;
      multiplier := num;
    } else {
      var n: nat := num;
      var i := 0;
      while i < MAX_EXPSIZE && n > UINT8_MAXFRACT
        invariant 0 <= i <= MAX_EXPSIZE
        invariant Scale(num, UINT8_MAXFRACT, 0) == Scale(n, UINT8_MAXFRACT, i)
      {
        n := n / 10;
        i := i + 1;
      }
      magnitude := i;
      multiplier := n % 0x100;
    }
  }

  method NumberFromExponent(mul: u16, mag: u8) returns (result: u32)
    ensures result == NumberOf(mul, mag)
  {
    result := 1;
    var left := mag;
    while left > 0
      invariant 0 <= left <= mag
      invariant result == Value(1, mag - left) % 0x1_0000_0000
    {
      MulMod(Value(1, mag - left), 10);
      result := result * 10 % 0x1_0000_0000;
      left := left - 1;
    }
    MulMod(Value(1, mag), mul);
    ValueIsProduct(mul, mag);
    result := result * mul % 0x1_0000_0000;
  }

  lemma MulMod(a: nat, b: nat)
    ensures a % 0x1_0000_0000 * b % 0x1_0000_0000 == a * b % 0x1_0000_0000
  {
    var q, r := a / 0x1_0000_0000, a % 0x1_0000_0000;
    assert a * b == q * b * 0x1_0000_0000 + r * b by {
      assert a == q * 0x1_0000_0000 + r;
    }
    ModCancel(r * b, q * b);
  }

  lemma ModCancel(x: nat, k: nat)
    ensures (k * 0x1_0000_0000 + x) % 0x1_0000_0000 == x % 0x1_0000_0000
  {
  }

  lemma {:induction false} ValueIsProduct(mul: nat, mag: nat)
    ensures Value(mul, mag) == Value(1, mag) * mul
  {
    if mag > 0 {
      ValueIsProduct(mul, mag - 1);
    }
  }

  lemma {:induction false} ValueNext(m: nat, k: nat)
    ensures Value(m + 1, k) == Value(m, k) + Value(1, k)
    ensures 1 <= Value(1, k) && m <= Value(m, k)
  {
    if k > 0 {
      ValueNext(m, k - 1);
    }
  }

  /** A unit of the last place is small against a multiplier that has just been divided down. */
  lemma {:induction false} UnitIsSmall(m: nat, k: nat)
    ensures m >= 6553 ==> Value(1, k) * 6553 <= Value(m, k)
    ensures m >= 25 ==> Value(1, k) * 25 <= Value(m, k)
  {
    if k > 0 {
      UnitIsSmall(m, k - 1);
    }
  }

  /** The quotient and the exponent describe `num` up to one unit of the last place. */
  lemma {:induction false} ScaleBounds(num: nat, max: nat, i: nat)
    requires max >= 10 && i <= MAX_EXPSIZE
    ensures var (m, k) := Scale(num, max, i);
            && i <= k <= MAX_EXPSIZE
            && Value(m, k - i) <= num < Value(m + 1, k - i)
            && (k < MAX_EXPSIZE ==> m <= max)
            && (k > i ==> m >= (max + 1) / 10 && num >= Value(max + 1, k - i - 1))
    decreases MAX_EXPSIZE - i
  {
    if i < MAX_EXPSIZE && num > max {
      ScaleBounds(num / 10, max, i + 1);
    }
  }

  lemma ValueAt(m: nat, k: nat)
    requires k <= MAX_EXPSIZE
    ensures Value(m, k) == (if k == 0 then m else if k == 1 then 10 * m else if k == 2 then 100 * m
                            else if k == 3 then 1000 * m else if k == 4 then 10000 * m
                            else if k == 5 then 100000 * m else if k == 6 then 1000000 * m else 10000000 * m)
  {
    if k > 0 {
      ValueAt(m, k - 1);
    }
  }

  /** What Scale promises about its result, for a multiplier kept in `bits` values. */
  ghost predicate Scaled(n: nat, max: nat, m: nat, k: nat) {
    && k <= MAX_EXPSIZE
    && Value(m, k) <= n < Value(m + 1, k)
    && (k < MAX_EXPSIZE ==> m <= max)
    && (k > 0 ==> m >= (max + 1) / 10 && n >= Value(max + 1, k - 1))
  }

  lemma NoWrap(m: u16, k: u8)
    requires Value(m, k) < 0x1_0000_0000
    ensures NumberOf(m, k) == Value(m, k)
  {
  }

  /** How far n can be from the scaled value. */
  lemma Near(n: nat, max: nat, m: nat, k: nat)
    requires Scaled(n, max, m, k)
    ensures n < Value(m, k) + Value(1, k)
    ensures max == UINT16_MAXFRACT ==> (n - Value(m, k)) * 6553 <= Value(m, k)
    ensures max == UINT8_MAXFRACT ==> (n - Value(m, k)) * 25 <= Value(m, k)
  {
    ValueNext(m, k);
    UnitIsSmall(m, k);
  }

  lemma Range16(n: u32, m: nat, k: nat)
    requires Scaled(n, UINT16_MAXFRACT, m, k)
    ensures m <= 65535 && k <= 5
  {
    ValueAt(m, k);
  }

  lemma Range8(n: u32, m: nat, k: nat)
    requires Scaled(n, UINT8_MAXFRACT, m, k)
    ensures k <= 6 <==> n < 256_000_000
    ensures m <= 255 <==> n < 2_560_000_000
    ensures m > 255 ==> k == 7 && m <= 429
  {
    ValueAt(m, k);
    ValueAt(m + 1, k);
    if k > 0 {
      ValueAt(256, k - 1);
    }
  }

  lemma Wrapped8(n: u32, m: nat)
    requires 256 <= m <= 429 && Value(m, 7) <= n
    ensures m % 0x100 == m - 256 && NumberOf(m - 256, 7) + 2_560_000_000 <= n
  {
    ValueAt(m, 7);
    ValueAt(m - 256, 7);
    NoWrap(m - 256, 7);
  }

  lemma FitsWord(m: nat)
    ensures m <= 65535 ==> m % 0x1_0000 == m
  {
  }

  lemma CutToOctet(m: nat)
    ensures m % 0x100 <= 255 && (m <= 255 ==> m % 0x100 == m) && (256 <= m <= 429 ==> m % 0x100 == m - 256)
  {
  }

  /** 16-bit coding: never truncated, magnitude at most 5, and the value read back is within 1/6553. */
  lemma Code16Accurate(n: u32)
    ensures var (mul, mag) := Code(n, UINT16_MAXFRACT);
            && mul <= 65535 && mag <= 5
            && var v := NumberOf(mul, mag);
               v <= n < v + Value(1, mag) && (n - v) * 6553 <= v
  {
    hide Value, NumberOf, Scale;
    ScaleBounds(n, UINT16_MAXFRACT, 0);
    var (m, k) := Scale(n, UINT16_MAXFRACT, 0);
    Range16(n, m, k);
    FitsWord(m);
    Near(n, UINT16_MAXFRACT, m, k);
    NoWrap(m, k);
  }

  /** 8-bit coding is within 1/25 exactly for values below 2 560 000 000; above that the multiplier is cut to 8 bits. */
  lemma Code8Accurate(n: u32)
    ensures var (mul, mag) := Code(n, UINT8_MAXFRACT);
            && mul <= 255 && mag <= 7
            && (mag <= 6 <==> n < 256_000_000)
            && var v := NumberOf(mul, mag);
               (v <= n < v + Value(1, mag) && (n - v) * 25 <= v) <==> n < 2_560_000_000
  {
    hide Value, NumberOf, Scale;
    ScaleBounds(n, UINT8_MAXFRACT, 0);
    var (m, k) := Scale(n, UINT8_MAXFRACT, 0);
    CutToOctet(m);
    Range8(n, m, k);
    if m <= 255 {
      Near(n, UINT8_MAXFRACT, m, k);
      NoWrap(m, k);
    } else {
      Wrapped8(n, m);
      ValueAt(1, 7);
    }
  }

  /** A value read back: not above the one configured, and off by at most one part in `parts`. */
  predicate Within(v: u32, n: u32, parts: nat) {
    v <= n && (n - v) * parts <= v
  }

  /** The coded pair in the types of the message fields. */
  function Coded16(n: u32): (r: (u16, u8))
    ensures r == Code(n, UINT16_MAXFRACT)
  {
    Code16Accurate(n);
    Code(n, UINT16_MAXFRACT)
  }

  function Coded8(n: u32): (r: (u8, u8))
    ensures r == Code(n, UINT8_MAXFRACT)
  {
    Code8Accurate(n);
    Code(n, UINT8_MAXFRACT)
  }

  lemma Code16Within(n: u32)
    ensures Within(NumberOf(Coded16(n).0, Coded16(n).1), n, 6553)
  {
    hide Code, NumberOf, Value;
    Code16Accurate(n);
  }

  lemma Code8Within(n: u32)
    ensures Within(NumberOf(Coded8(n).0, Coded8(n).1), n, 25) <==> n < 2_560_000_000
  {
    hide Value, NumberOf, Scale;
    Code8Accurate(n);
    ScaleBounds(n, UINT8_MAXFRACT, 0);
    var (m, k) := Scale(n, UINT8_MAXFRACT, 0);
    CutToOctet(m);
    Range8(n, m, k);
    if n >= 2_560_000_000 {
      Wrapped8(n, m);
    }
  }

  /** Coding a value that was read back gives a pair that reads back as the same value. */
  lemma CodeIdempotent(n: u32, max: nat)
    requires max == UINT16_MAXFRACT || (max == UINT8_MAXFRACT && n < 2_560_000_000)
    ensures var (mul, mag) := Code(n, max);
            mul < 0x1_0000 && mag < 0x100 &&
            var v := NumberOf(mul, mag);
            var (mul2, mag2) := Code(v, max);
            mul2 < 0x1_0000 && mag2 < 0x100 && NumberOf(mul2, mag2) == v
  {
    ScaleBounds(n, max, 0);
    var (m, k) := Scale(n, max, 0);
    if max == UINT16_MAXFRACT {
      Range16(n, m, k);
    } else {
      Range8(n, m, k);
    }
    CodeIs(n, max, m, k);
    var v := Value(m, k);
    ScaleExact(v, m, k, max, 0);
    var (m2, k2) := Scale(v, max, 0);
    CodeIs(v, max, m2, k2);
  }

  lemma CodeIs(n: u32, max: nat, m: nat, k: nat)
    requires max == UINT16_MAXFRACT || max == UINT8_MAXFRACT
    requires (m, k) == Scale(n, max, 0) && m <= max && k <= MAX_EXPSIZE && Value(m, k) < 0x1_0000_0000
    ensures Code(n, max) == (m, k) && NumberOf(m, k) == Value(m, k)
  {
    NoWrap(m, k);
  }

  /** A multiple of a power of ten is coded without remainder. */
  lemma {:induction false} ScaleExact(v: nat, m: nat, k: nat, max: nat, i: nat)
    requires v == Value(m, k) && m <= max && i + k <= MAX_EXPSIZE
    ensures var (m2, k2) := Scale(v, max, i);
            m2 <= max && i <= k2 <= MAX_EXPSIZE && Value(m2, k2 - i) == v
    decreases k
  {
    if k > 0 && v > max {
      ScaleExact(v / 10, m, k - 1, max, i + 1);
    }
  }
}
