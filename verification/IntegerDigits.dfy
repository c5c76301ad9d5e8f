// Parsing a whole number from typed digits by way of a binary64 number.
module IntegerDigits {
  import opened Wrappers

  // ---- Decimal text ---------------------------------------------------------------------------

  predicate IsDigit(c: char) { '0' <= c <= '9' }

  function DigitValue(c: char): nat
    requires IsDigit(c)
  {
    c as int - '0' as int
  }

  predicate DigitsOnly(raw: string) {
    raw != "" && forall i | 0 <= i < |raw| :: IsDigit(raw[i])
  }

  /** The exact value of a string of digits. */
  function DecimalValue(raw: string): nat
    requires forall i | 0 <= i < |raw| :: IsDigit(raw[i])
  {
    if raw == "" then 0
    else 10 * DecimalValue(raw[..|raw| - 1]) + DigitValue(raw[|raw| - 1])
  }

  // ---- Rounding to binary64 -----------------------------------------------------------------------

  const TWO_53 := 0x20_0000_0000_0000
  const MAX_SAFE_INTEGER := TWO_53 - 1

  function Pow2(n: nat): (r: nat)
    ensures r >= 1
  {
    if n == 0 then 1 else 2 * Pow2(n - 1)
  }

  /** How many low bits of n do not fit into a 53-bit significand. */
  function ExcessBits(n: nat): nat {
    if n < TWO_53 then 0 else 1 + ExcessBits(n / 2)
  }

  function Ulp(n: nat): nat { Pow2(ExcessBits(n)) }

  /** roundTiesToEven, section 4.3.1 of IEEE 754-2019, on whole numbers and without an upper bound
      on the exponent. */
  function Round(n: nat): nat {
    var u := Ulp(n);
    var q, r := n / u, n % u;
    if 2 * r < u || (2 * r == u && q % 2 == 0) then q * u else (q + 1) * u
  }

  datatype Number = Finite(value: nat) | Infinity

  /** The largest exponent of a finite binary64 number is 971 above the ulp of 1 to 2^53. */
  const MAX_EXPONENT := 971

  /** `Number(raw)` on a string of digits. */
  function ToNumber(raw: string): Number
    requires DigitsOnly(raw)
  {
    var rounded := Round(DecimalValue(raw));
    if ExcessBits(rounded) > MAX_EXPONENT then Infinity else Finite(rounded)
  }

  predicate IsSafeInteger(n: Number) { n.Finite? && n.value <= MAX_SAFE_INTEGER }

  function ParseIntegerDigits(raw: string, min: int, max: int): Option<nat> {
    if !DigitsOnly(raw) then None
    else
      var value := ToNumber(raw);
      if !IsSafeInteger(value) || value.value < min || max < value.value then None else Some(value.value)
  }

  // ---- What rounding does ------------------------------------------------------------------------

  /** Zero excess bits below 2^53; above, the significand n / ulp keeps exactly 53 bits. */
  lemma {:induction false} SignificandFits(n: nat)
    ensures n < TWO_53 ==> Ulp(n) == 1
    ensures n < TWO_53 * Ulp(n)
    ensures n >= TWO_53 ==> TWO_53 * Ulp(n) <= 2 * n && Ulp(n) % 2 == 0
  {
    if n < TWO_53 {
    } else {
      SignificandFits(n / 2);
      assert Ulp(n) == 2 * Ulp(n / 2);
    }
  }

  ghost predicate IsScaled(v: nat, q: nat, e: nat) { v == q * Pow2(e) }

  /** The whole numbers that a binary64 significand of 53 bits can hold. */
  ghost predicate Representable(v: nat) {
    exists q: nat, e: nat :: q < TWO_53 && IsScaled(v, q, e)
  }

  function Distance(a: int, b: int): nat { if a < b then b - a else a - b }

  lemma {:induction false} Pow2Grows(small: nat, large: nat) returns (factor: nat)
    requires small <= large
    ensures Pow2(large) == factor * Pow2(small) && factor >= 1
    ensures small < large ==> factor >= 2
    decreases large
  {
    if small == large {
      factor := 1;
    } else {
      var f := Pow2Grows(small, large - 1);
      factor := 2 * f;
      assert Pow2(large) == 2 * (f * Pow2(small)) == (2 * f) * Pow2(small);
    }
  }

  lemma MulLe(a: int, b: int, c: nat)
    requires a <= b
    ensures a * c <= b * c
  {
    assert (b - a) * c >= 0;
    assert b * c - a * c == (b - a) * c;
  }

  /** A multiple of u is not strictly between q * u and (q + 1) * u. */
  lemma MultiplesAreApart(m: nat, q: nat, u: nat)
    ensures m * u <= q * u || (q + 1) * u <= m * u
  {
    if m <= q {
      MulLe(m, q, u);
    } else {
      MulLe(q + 1, m, u);
    }
  }

  /** A number with a finer scale than n's ulp is at most 2^52 ulps. */
  lemma FinerIsSmaller(p: nat, d: nat, e: nat)
    requires p < TWO_53 && d < e
    ensures p * Pow2(d) <= (TWO_53 / 2) * Pow2(e)
  {
    var f := Pow2Grows(d, e);
    MulLe(2, f, Pow2(d));
    MulLe(p, TWO_53, Pow2(d));
  }

  lemma CoarserIsMultiple(p: nat, d: nat, e: nat) returns (m: nat)
    requires e <= d
    ensures p * Pow2(d) == m * Pow2(e)
  {
    var f := Pow2Grows(e, d);
    m := p * f;
    MulAssociates(p, f, Pow2(e));
  }

  lemma MulAssociates(a: nat, b: nat, c: nat)
    ensures a * (b * c) == (a * b) * c
  {}

  /** From 2^53 on, the significand has its top bit set. */
  lemma SignificandIsFull(n: nat)
    requires ExcessBits(n) > 0
    ensures (TWO_53 / 2) * Ulp(n) <= (n / Ulp(n)) * Ulp(n)
  {
    SignificandFits(n);
    QuotientAtLeast(n, Ulp(n), TWO_53 / 2);
    MulLe(TWO_53 / 2, n / Ulp(n), Ulp(n));
  }

  /** Between two neighbouring multiples of n's ulp there is no representable number. */
  lemma NothingBetween(n: nat, v: nat)
    requires Representable(v)
    ensures v <= (n / Ulp(n)) * Ulp(n) || (n / Ulp(n) + 1) * Ulp(n) <= v
  {
    var p: nat, d: nat :| p < TWO_53 && IsScaled(v, p, d);
    if ExcessBits(n) <= d {
      var m := CoarserIsMultiple(p, d, ExcessBits(n));
      MultiplesAreApart(m, n / Ulp(n), Ulp(n));
    } else {
      FinerIsSmaller(p, d, ExcessBits(n));
      SignificandIsFull(n);
    }
  }

  lemma QuotientAtLeast(n: nat, u: nat, k: nat)
    requires u > 0 && k * u <= n
    ensures k <= n / u
  {
    assert n == (n / u) * u + n % u;
    if n / u < k {
      MulLe(n / u + 1, k, u);
    }
  }

  lemma SignificandBelow2To53(n: nat)
    ensures n / Ulp(n) < TWO_53
    ensures n == (n / Ulp(n)) * Ulp(n) + n % Ulp(n)
    ensures (n / Ulp(n) + 1) * Ulp(n) == (n / Ulp(n)) * Ulp(n) + Ulp(n)
  {
    SignificandFits(n);
    if n / Ulp(n) >= TWO_53 {
      MulLe(TWO_53, n / Ulp(n), Ulp(n));
    }
  }

  lemma RoundIsRepresentable(n: nat)
    ensures Representable(Round(n))
  {
    var u, e := Ulp(n), ExcessBits(n);
    var q := n / u;
    SignificandBelow2To53(n);
    if Round(n) == q * u {
      assert IsScaled(Round(n), q, e);
    } else if q + 1 < TWO_53 {
      assert IsScaled(Round(n), q + 1, e);
    } else {
      assert Pow2(e + 1) == 2 * u;
      assert IsScaled(Round(n), TWO_53 / 2, e + 1);
    }
  }

  /** Round returns a representable number, and no representable number is closer. */
  lemma RoundIsNearest(n: nat)
    ensures Representable(Round(n))
    ensures forall v: nat | Representable(v) :: Distance(n, Round(n)) <= Distance(n, v)
  {
    RoundIsRepresentable(n);
    SignificandBelow2To53(n);
    forall v: nat | Representable(v) ensures Distance(n, Round(n)) <= Distance(n, v) {
      NothingBetween(n, v);
      NearestOfNeighbours(n, v);
    }
  }

  lemma NearestOfNeighbours(n: nat, v: nat)
    requires v <= (n / Ulp(n)) * Ulp(n) || (n / Ulp(n) + 1) * Ulp(n) <= v
    ensures Distance(n, Round(n)) <= Distance(n, v)
  {
    SignificandBelow2To53(n);
  }

  /** Halfway between two neighbours the even significand wins. */
  lemma TiesGoToEven(n: nat)
    requires 2 * (n % Ulp(n)) == Ulp(n)
    ensures exists q: nat :: q % 2 == 0 && Round(n) == q * Ulp(n)
  {
    var q := n / Ulp(n);
    var even := if q % 2 == 0 then q else q + 1;
    assert even % 2 == 0 && Round(n) == even * Ulp(n);
  }

  lemma RoundIsMonotone(n: nat, m: nat)
    requires n <= m
    ensures Round(n) <= Round(m)
  {
    RoundIsNearest(n);
    RoundIsNearest(m);
    assert Distance(n, Round(n)) <= Distance(n, Round(m));
    assert Distance(m, Round(m)) <= Distance(m, Round(n));
  }

  lemma RoundExactBelow2To53(n: nat)
    ensures n < TWO_53 ==> Round(n) == n
    ensures n >= TWO_53 ==> Round(n) >= TWO_53
  {
    SignificandFits(n);
    if n >= TWO_53 {
      SignificandFits(TWO_53);
      assert Ulp(TWO_53) == 2 by {
        assert ExcessBits(TWO_53 / 2) == 0 && ExcessBits(TWO_53) == 1 && Pow2(1) == 2;
      }
      assert Round(TWO_53) == TWO_53;
      RoundIsMonotone(TWO_53, n);
    }
  }

  /** Overflow, said with magnitudes: more than e excess bits means at least 2^53 * 2^e. */
  lemma {:induction false} ExcessBitsMeasureMagnitude(n: nat, e: nat)
    ensures ExcessBits(n) > e <==> n >= TWO_53 * Pow2(e)
  {
    if n >= TWO_53 && e > 0 {
      ExcessBitsMeasureMagnitude(n / 2, e - 1);
      assert TWO_53 * Pow2(e) == 2 * (TWO_53 * Pow2(e - 1));
    } else if n < TWO_53 {
      MulLe(1, Pow2(e), TWO_53);
    }
  }

  /** A text overflows exactly when its rounded value has magnitude 2^1024. */
  lemma OverflowIff(raw: string)
    requires DigitsOnly(raw)
    ensures ToNumber(raw) == Infinity <==> Round(DecimalValue(raw)) >= TWO_53 * Pow2(1024 - 53)
    ensures ToNumber(raw) != Infinity ==> ToNumber(raw) == Finite(Round(DecimalValue(raw)))
  {
    ExcessBitsMeasureMagnitude(Round(DecimalValue(raw)), 1024 - 53);
  }

  /** The parser returns n exactly when the text is all digits, its exact decimal value is n, and n is
      in range and safe.  Length and leading zeros do not matter; no long text slips into range. */
  lemma ParseIsExact(raw: string, min: int, max: int, n: nat)
    ensures ParseIntegerDigits(raw, min, max) == Some(n) <==>
            DigitsOnly(raw) && DecimalValue(raw) == n && min <= n <= max && n <= MAX_SAFE_INTEGER
  {
    if DigitsOnly(raw) {
      RoundExactBelow2To53(DecimalValue(raw));
    }
  }
}
