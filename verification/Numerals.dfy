/**
 Decimal numerals as Go reads and prints them: `strconv.Atoi` on a platform whose `int` has 64
 bits, and the two forms that `%v` gives an integral float64.
 */
module Numerals {
  import opened Wrappers

  const INT64_MAX := 0x7FFF_FFFF_FFFF_FFFF
  const INT64_MIN := -0x8000_0000_0000_0000

  predicate IsInt64(n: int) {
    INT64_MIN <= n <= INT64_MAX
  }

  predicate IsDigit(c: char) {
    '0' <= c <= '9'
  }

  predicate AllDigits(s: string) {
    forall i :: 0 <= i < |s| ==> IsDigit(s[i])
  }

  function DigitOf(d: nat): (c: char)
    requires d < 10
    ensures IsDigit(c) && (c as int) - ('0' as int) == d
  {
    '0' + (d as char)
  }

  /** The digits of `n` without a leading zero. */
  function Decimal(n: nat): (s: string)
    ensures s != "" && AllDigits(s)
  {
    if n < 10 then [DigitOf(n)] else Decimal(n / 10) + [DigitOf(n % 10)]
  }

  function ValueOf(s: string): nat
    requires AllDigits(s)
  {
    if s == "" then 0 else 10 * ValueOf(s[..|s| - 1]) + (s[|s| - 1] as int - '0' as int)
  }

  function Itoa(n: int): string {
    if n < 0 then "-" + Decimal(-n) else Decimal(n)
  }

  /** strconv.Atoi: an optional sign and at least one digit, within int64. */
  function Atoi(s: string): Option<int> {
    var signed := s != "" && (s[0] == '-' || s[0] == '+');
    var digits := if signed then s[1..] else s;
    if digits == "" || !AllDigits(digits) then None
    else
      var v: int := ValueOf(digits);
      var n := if signed && s[0] == '-' then -v else v;
      if IsInt64(n) then Some(n) else None
  }

  function Pow10(k: nat): (p: nat)
    ensures p > 0
  {
    if k == 0 then 1 else 10 * Pow10(k - 1)
  }

  lemma OnePlaceMore(x: nat, k: nat)
    ensures x * Pow10(k + 1) == 10 * (x * Pow10(k))
  {
  }

  /** Digits count by their place, and a digit alone for itself. */
  lemma {:induction false} ValueIsPositional(a: string, b: string)
    requires AllDigits(a) && AllDigits(b)
    ensures AllDigits(a + b) && ValueOf(a + b) == ValueOf(a) * Pow10(|b|) + ValueOf(b)
    ensures |b| == 1 ==> ValueOf(b) == b[0] as int - '0' as int
    decreases |b|
  {
    if b == "" {
      assert a + b == a;
    } else {
      var front := b[..|b| - 1];
      ValueIsPositional(a, front);
      assert (a + b)[..|a + b| - 1] == a + front;
      OnePlaceMore(ValueOf(a), |front|);
    }
  }

  /** The text is an optional sign and at least one digit, and spells `n`. */
  predicate Spells(t: string, digits: string, n: int) {
    && digits != "" && AllDigits(digits)
    && ((t in {digits, "+" + digits} && n == ValueOf(digits)) || (t == "-" + digits && -n == ValueOf(digits)))
  }

  ghost predicate Numeral(t: string, n: int) {
    IsInt64(n) && exists digits: string :: Spells(t, digits, n)
  }

  /** Atoi accepts exactly the numerals within int64, each with its value. */
  lemma AtoiIff(t: string, n: int)
    ensures Atoi(t) == Some(n) <==> Numeral(t, n)
  {
    if Atoi(t) == Some(n) {
      if t[0] in {'-', '+'} {
        assert t == [t[0]] + t[1..];
        assert Spells(t, t[1..], n);
      } else {
        assert Spells(t, t, n);
      }
    }
    if Numeral(t, n) {
      var digits: string :| Spells(t, digits, n);
      assert IsDigit(digits[0]);
      if t != digits {
        assert t[1..] == digits;
      }
    }
  }

  /** A numeral in the one form that `Itoa` prints: no plus sign, no leading zero, no `-0`. */
  predicate Canonical(s: string) {
    var digits := if s != "" && s[0] == '-' then s[1..] else s;
    && digits != "" && AllDigits(digits)
    && (digits[0] == '0' ==> s == "0")
  }

  lemma {:induction false} ValueOfDecimal(n: nat)
    ensures ValueOf(Decimal(n)) == n
  {
    if n < 10 {
      assert Decimal(n)[..0] == "";
    } else {
      ValueOfDecimal(n / 10);
      var s := Decimal(n);
      assert s[..|s| - 1] == Decimal(n / 10);
    }
  }

  /** Reading back a printed integer gives the integer, over all of int64. */
  lemma AtoiOfItoa(n: int)
    requires IsInt64(n)
    ensures Atoi(Itoa(n)) == Some(n)
  {
    if n < 0 {
      ValueOfDecimal(-n);
      assert Itoa(n)[1..] == Decimal(-n);
    } else {
      ValueOfDecimal(n);
      assert IsDigit(Itoa(n)[0]);
    }
  }

  lemma {:induction false} DecimalHasNoLeadingZero(n: nat)
    ensures Decimal(n)[0] == '0' <==> n == 0
  {
    if n >= 10 {
      DecimalHasNoLeadingZero(n / 10);
      assert Decimal(n)[0] == Decimal(n / 10)[0];
    }
  }

  lemma {:induction false} DecimalOfValue(s: string)
    requires s != "" && AllDigits(s) && (s[0] == '0' ==> |s| == 1)
    ensures Decimal(ValueOf(s)) == s
    ensures s[0] != '0' ==> ValueOf(s) > 0
  {
    var front, last := s[..|s| - 1], s[|s| - 1] as int - '0' as int;
    assert s == front + [s[|s| - 1]];
    if front == "" {
      assert ValueOf(front) == 0;
    } else {
      DecimalOfValue(front);
      assert ValueOf(s) / 10 == ValueOf(front) && ValueOf(s) % 10 == last;
      assert DigitOf(last) == s[|s| - 1];
    }
  }

  lemma CanonicalIsPrinted(s: string)
    requires Atoi(s).Some? && Canonical(s)
    ensures Itoa(Atoi(s).value) == s
  {
    if s[0] == '-' {
      assert s[1..][0] != '0';
      DecimalOfValue(s[1..]);
      assert s == "-" + s[1..];
    } else {
      assert IsDigit(s[0]);
      DecimalOfValue(s);
    }
  }

  lemma PrintedIsCanonical(n: int)
    ensures Canonical(Itoa(n))
  {
    var m := if n < 0 then -n else n;
    DecimalHasNoLeadingZero(m);
    if n < 0 {
      assert Itoa(n)[1..] == Decimal(m);
    } else {
      assert IsDigit(Itoa(n)[0]);
    }
  }

  /** Printing a parsed numeral gives it back exactly when it was canonical. */
  lemma ItoaOfAtoi(s: string)
    requires Atoi(s).Some?
    ensures Itoa(Atoi(s).value) == s <==> Canonical(s)
  {
    if Canonical(s) {
      CanonicalIsPrinted(s);
    }
    PrintedIsCanonical(Atoi(s).value);
  }

  // ---------------------------------------------------------------- float64

  /** The smallest power of two whose multiples below `m` have a 53-bit significand. */
  function Ulp(m: nat): (u: nat)
    ensures u > 0
  {
    if m < 0x20_0000_0000_0000 then 1 else 2 * Ulp(m / 2)
  }

  /** The multiple of `u` next to `m`, of two the even one. */
  function RoundTo(m: nat, u: nat): nat
    requires u > 0
  {
    var q, r := m / u, m % u;
    if 2 * r < u || (2 * r == u && q % 2 == 0) then q * u else (q + 1) * u
  }

  /** The float64 next to `m`, ties to the even significand. */
  function RoundNat(m: nat): nat {
    RoundTo(m, Ulp(m))
  }

  lemma OneMore(q: nat, u: nat)
    ensures (q + 1) * u == q * u + u
  {
  }

  lemma QuotientIs(k: nat, u: nat)
    requires u > 0
    ensures k * u / u == k
  {
    MultipleHasNoRest(k, u);
    DivisionRest(k * u, u);
    var q := k * u / u;
    if q < k {
      ProductOrder(q, k, u);
    } else if k < q {
      ProductOrder(k, q, u);
    }
  }

  function Distance(a: nat, b: nat): nat {
    if a < b then b - a else a - b
  }

  lemma NearestIsEven(m: nat, u: nat, q: nat, low: nat, r: nat)
    requires m == low + r && r < u
    ensures var down := 2 * r < u || (2 * r == u && q % 2 == 0);
            var f, k := if down then low else low + u, if down then q else q + 1;
            2 * Distance(f, m) <= u && (2 * Distance(f, m) == u ==> k % 2 == 0)
  {
  }

  lemma RoundToMultiple(m: nat, u: nat) returns (k: nat, low: nat)
    requires u > 0
    ensures var r := m % u;
            var down := 2 * r < u || (2 * r == u && (m / u) % 2 == 0);
            && RoundTo(m, u) == k * u == (if down then low else low + u)
            && k == (if down then m / u else m / u + 1) && m == low + r && r < u
  {
    var q := m / u;
    low := q * u;
    DivisionRest(m, u);
    OneMore(q, u);
    k := if RoundTo(m, u) == low then q else q + 1;
  }

  lemma RoundToIsNearest(m: nat, u: nat)
    requires u > 0
    ensures var f := RoundTo(m, u);
            && f % u == 0 && 2 * Distance(f, m) <= u
            && (2 * Distance(f, m) == u ==> f / u % 2 == 0)
  {
    var k, low := RoundToMultiple(m, u);
    NearestIsEven(m, u, m / u, low, m % u);
    MultipleHasNoRest(k, u);
    QuotientIs(k, u);
  }

  /** The float64 is the nearest multiple of the spacing, and of two the one with an even significand. */
  lemma RoundsToNearestEven(m: nat)
    ensures var u, f := Ulp(m), RoundNat(m);
            && f % u == 0 && 2 * Distance(f, m) <= u
            && (2 * Distance(f, m) == u ==> f / u % 2 == 0)
  {
    RoundToIsNearest(m, Ulp(m));
  }

  /** What a JSON integer becomes when it is decoded into a float64. */
  function ToFloat(n: int): int {
    var r: int := RoundNat(if n < 0 then -n else n);
    if n < 0 then -r else r
  }

  /** The Go conversion int64(f); out of range it gives the least int64, as on amd64. */
  function Int64OfFloat(f: int): int {
    if IsInt64(f) then f else INT64_MIN
  }

  /** A magnitude that float64 holds exactly. */
  predicate Exact(n: int) {
    var m := if n < 0 then -n else n;
    m % Ulp(m) == 0
  }

  lemma RoundNatExact(m: nat)
    ensures RoundNat(m) == m <==> m % Ulp(m) == 0
  {
    var u := Ulp(m);
    var q, r := m / u, m % u;
    assert m == q * u + r;
    assert (q + 1) * u == q * u + u;
  }

  /** An int64 attribute survives JSON and float64 exactly when float64 can hold it. */
  lemma IntegerTrip(n: int)
    requires IsInt64(n)
    ensures Int64OfFloat(ToFloat(n)) == n <==> Exact(n)
  {
    RoundNatExact(if n < 0 then -n else n);
    if !IsInt64(ToFloat(n)) && n == INT64_MIN {
      LeastInt64IsExact();
      assert false;
    }
  }

  /** The largest int64 rounds up out of range, and comes back as the least one. */
  lemma LargestComesBackLeast()
    ensures Int64OfFloat(ToFloat(INT64_MAX)) == INT64_MIN
  {
    assert Ulp(INT64_MAX) == 1024 by {
      assert Ulp(0x3FFF_FFFF_FFFF_FFFF) == 2 * Ulp(0x1FFF_FFFF_FFFF_FFFF);
    }
  }

  lemma LeastInt64IsExact()
    ensures Exact(INT64_MIN)
  {
    assert Ulp(0x8000_0000_0000_0000) == 2048;
  }

  lemma SmallIsExact(n: int)
    requires -0x20_0000_0000_0000 <= n <= 0x20_0000_0000_0000
    ensures Exact(n) && ToFloat(n) == n
  {
    RoundNatExact(if n < 0 then -n else n);
  }

  /** The bound 2^53 is sharp: the next integer is the first that does not survive. */
  lemma FirstInexact()
    ensures !Exact(0x20_0000_0000_0001)
  {
    assert Ulp(0x20_0000_0000_0001) == 2 * Ulp(0x10_0000_0000_0000);
  }

  lemma {:induction false} UlpIsSmall(m: nat)
    requires m >= 0x10_0000_0000_0000
    ensures Ulp(m) * 0x10_0000_0000_0000 <= m
  {
    if m >= 0x20_0000_0000_0000 {
      UlpIsSmall(m / 2);
    }
  }

  lemma {:induction false} UlpIsLarge(m: nat)
    ensures m < Ulp(m) * 0x20_0000_0000_0000
  {
    if m >= 0x20_0000_0000_0000 {
      UlpIsLarge(m / 2);
    }
  }

  /** A 53-bit significand at the spacing of `m` has that spacing, and one more has twice that. */
  lemma {:induction false} UlpOfMultiple(m: nat, q: nat)
    requires 0x10_0000_0000_0000 <= q <= 0x20_0000_0000_0000
    ensures Ulp(q * Ulp(m)) == if q < 0x20_0000_0000_0000 then Ulp(m) else 2 * Ulp(m)
  {
    if m < 0x20_0000_0000_0000 {
      assert q * Ulp(m) == q;
      assert q == 0x20_0000_0000_0000 ==> Ulp(q) == 2 * Ulp(0x10_0000_0000_0000);
    } else {
      UlpOfMultiple(m / 2, q);
      assert q * Ulp(m) == 2 * (q * Ulp(m / 2));
      assert Ulp(m / 2) >= 1 && q * Ulp(m / 2) >= q;
    }
  }

  lemma RoundNatIsExact(m: nat)
    ensures RoundNat(m) % Ulp(RoundNat(m)) == 0
  {
    var u := Ulp(m);
    if m < 0x20_0000_0000_0000 {
      RoundNatExact(m);
    } else {
      UlpIsSmall(m);
      UlpIsLarge(m);
      QuotientRange(m, u, 0x10_0000_0000_0000, 0x20_0000_0000_0000);
      MultipleIsExact(m, m / u);
      MultipleIsExact(m, m / u + 1);
    }
  }

  lemma MultipleIsExact(m: nat, q: nat)
    requires 0x10_0000_0000_0000 <= q <= 0x20_0000_0000_0000
    ensures (q * Ulp(m)) % Ulp(q * Ulp(m)) == 0
  {
    var u := Ulp(m);
    UlpOfMultiple(m, q);
    if q == 0x20_0000_0000_0000 {
      assert q * u == 0x10_0000_0000_0000 * (2 * u);
      MultipleHasNoRest(0x10_0000_0000_0000, 2 * u);
    } else {
      MultipleHasNoRest(q, u);
    }
  }

  lemma ProductOrder(a: int, b: int, u: nat)
    requires a < b
    ensures a * u + u <= b * u
  {
    assert b * u == a * u + (b - a) * u;
    assert (b - a) * u == (b - a - 1) * u + u;
  }

  lemma RestIsZero(q: nat, k: int, r: nat, u: nat)
    requires q * u == k * u + r && r < u
    ensures r == 0
  {
    if k < q {
      ProductOrder(k, q, u);
    } else if q < k {
      ProductOrder(q, k, u);
    }
  }

  lemma DivisionRest(x: nat, u: nat)
    requires u > 0
    ensures x == (x / u) * u + x % u
  {
  }

  lemma MultipleHasNoRest(q: nat, u: nat)
    requires u > 0
    ensures (q * u) % u == 0
  {
    DivisionRest(q * u, u);
    RestIsZero(q, (q * u) / u, (q * u) % u, u);
  }

  lemma QuotientRange(m: nat, u: nat, low: nat, high: nat)
    requires u > 0 && low * u <= m < high * u
    ensures low <= m / u < high
  {
    var q := m / u;
    DivisionRest(m, u);
    if q < low {
      ProductOrder(q, low, u);
    } else if q > high {
      ProductOrder(high, q, u);
    }
  }

  /** What an int64 attribute reads back as is held exactly: a second trip changes nothing. */
  lemma TripIsExact(n: int)
    ensures Exact(Int64OfFloat(ToFloat(n)))
  {
    RoundNatIsExact(if n < 0 then -n else n);
    LeastInt64IsExact();
  }

  /** Rounding to float64 never takes a large integer below a million. */
  lemma RoundingStaysLarge(n: int)
    requires n <= -EXPONENT_FROM || EXPONENT_FROM <= n
    ensures ToFloat(n) <= -EXPONENT_FROM || EXPONENT_FROM <= ToFloat(n)
  {
    var m: nat := if n < 0 then -n else n;
    if m < 0x20_0000_0000_0000 {
      SmallIsExact(n);
    } else {
      UlpIsSmall(m);
      var u := Ulp(m);
      var q := m / u;
      assert m < q * u + u;
      assert (q + 1) * u == q * u + u;
      assert RoundNat(m) >= q * u;
    }
  }

  function StripZeros(s: string): (t: string)
    requires s != ""
    ensures t != "" && t <= s
  {
    if |s| > 1 && s[|s| - 1] == '0' then StripZeros(s[..|s| - 1]) else s
  }

  const EXPONENT_FROM := 1_000_000

  /**
   fmt's `%v` of an integral float64. From 10^6 on it is the exponent form, with at least two digits of
   exponent. The significand holds every digit of the value: up to 2^53 that is the shortest one, beyond
   it Go may print fewer digits.
   */
  function FloatText(f: int): string {
    var m := if f < 0 then -f else f;
    if m < EXPONENT_FROM then Itoa(f)
    else
      var digits := StripZeros(Decimal(m));
      var exponent := |Decimal(m)| - 1;
      (if f < 0 then "-" else "") + digits[..1] + (if |digits| > 1 then "." + digits[1..] else "")
      + "e+" + (if exponent < 10 then "0" else "") + Decimal(exponent)
  }

  /** Dropping zeros at the end divides by a power of ten. */
  lemma {:induction false} StripZerosValue(s: string)
    requires s != "" && AllDigits(s)
    ensures var t := StripZeros(s);
            && AllDigits(t) && ValueOf(s) == ValueOf(t) * Pow10(|s| - |t|)
            && (|t| > 1 ==> t[|t| - 1] != '0')
  {
    if |s| > 1 && s[|s| - 1] == '0' {
      var front := s[..|s| - 1];
      StripZerosValue(front);
      var t := StripZeros(front);
      OnePlaceMore(ValueOf(t), |front| - |t|);
    } else {
      assert Pow10(0) == 1;
    }
  }

  lemma ExponentText(f: int, digits: string, exponent: nat)
    requires digits == StripZeros(Decimal(if f < 0 then -f else f))
    requires exponent == |Decimal(if f < 0 then -f else f)| - 1
    requires f <= -EXPONENT_FROM || EXPONENT_FROM <= f
    ensures var sign, point := if f < 0 then "-" else "", if |digits| == 1 then "" else ".";
            var places := if exponent < 10 then "0" + Itoa(exponent) else Itoa(exponent);
            FloatText(f) == sign + digits[..1] + point + digits[1..] + "e+" + places
  {
    var sign, point := if f < 0 then "-" else "", if |digits| == 1 then "" else ".";
    var more, zero := if |digits| > 1 then "." + digits[1..] else "", if exponent < 10 then "0" else "";
    var head := sign + digits[..1] + more;
    assert more == point + digits[1..];
    AppendTwice(sign + digits[..1], point, digits[1..]);
    AppendTwice(head + "e+", zero, Decimal(exponent));
    assert exponent >= 10 ==> zero + Decimal(exponent) == Decimal(exponent);
  }

  /**
   The exponent form in full: a sign, the first digit, the others behind a point unless there are none,
   and an exponent of at least two digits. The digits end in no zero and spell the value at that exponent.
   */
  lemma ExponentFormIs(f: int) returns (digits: string, exponent: nat)
    requires f <= -EXPONENT_FROM || EXPONENT_FROM <= f
    ensures digits != "" && AllDigits(digits) && (|digits| > 1 ==> digits[|digits| - 1] != '0')
    ensures |digits| <= exponent + 1
    ensures ValueOf(digits) * Pow10(exponent + 1 - |digits|) == if f < 0 then -f else f
    ensures var sign, point := if f < 0 then "-" else "", if |digits| == 1 then "" else ".";
            var places := if exponent < 10 then "0" + Itoa(exponent) else Itoa(exponent);
            FloatText(f) == sign + digits[..1] + point + digits[1..] + "e+" + places
  {
    var m := if f < 0 then -f else f;
    var text := Decimal(m);
    digits, exponent := StripZeros(text), |text| - 1;
    StripZerosValue(text);
    ValueOfDecimal(m);
    ExponentText(f, digits, exponent);
  }

  lemma LetterIsNoNumeral(t: string, k: nat)
    requires 0 < k < |t| && !IsDigit(t[k])
    ensures !Canonical(t) && Atoi(t).None?
  {
    assert t[1..][k - 1] == t[k];
  }

  lemma ExponentFormIsNoNumeral(f: int)
    requires f <= -EXPONENT_FROM || EXPONENT_FROM <= f
    ensures !Canonical(FloatText(f)) && Atoi(FloatText(f)).None?
  {
    var m := if f < 0 then -f else f;
    var digits := StripZeros(Decimal(m));
    var exponent := |Decimal(m)| - 1;
    var head := (if f < 0 then "-" else "") + digits[..1] + (if |digits| > 1 then "." + digits[1..] else "");
    var tail := (if exponent < 10 then "0" else "") + Decimal(exponent);
    var t := head + ("e+" + tail);
    assert FloatText(f) == t by {
      assert head + "e+" + tail == head + ("e+" + tail);
      assert FloatText(f) == head + "e+" + (if exponent < 10 then "0" else "") + Decimal(exponent);
      assert head + "e+" + (if exponent < 10 then "0" else "") + Decimal(exponent) == head + "e+" + tail;
    }
    assert t[|head|] == 'e';
    LetterIsNoNumeral(t, |head|);
  }
}
