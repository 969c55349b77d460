/**
 Numbers as JavaScript has them: the integers that are doubles (binary64 of IEEE 754), rounding to
 the nearest one, and the shortest digits that denote one (ECMA-262, Number::toString).
 */
module Doubles {
  import opened Prelude

  const TWO52: nat := 0x10_0000_0000_0000
  const TWO53: nat := 0x20_0000_0000_0000

  /** The distance between doubles from `v` on to the next power of two. */
  function Spacing(v: nat): (u: nat)
    ensures u > 0
  {
    if v < TWO53 then 1 else 2 * Spacing(v / 2)
  }

  /** The nearest multiple of `u`, the even one of two. */
  function RoundTo(v: nat, u: nat): nat
    requires u > 0
  {
    var q, r := v / u, v % u;
    if 2 * r < u || (2 * r == u && q % 2 == 0) then q * u else (q + 1) * u
  }

  /** The double that the integer `v` is read as. */
  function Nearest(v: nat): nat { RoundTo(v, Spacing(v)) }

  predicate IsDouble(n: nat) { n % Spacing(n) == 0 }

  // ---------------------------------------------------------------------
  // Division
  // ---------------------------------------------------------------------

  lemma {:induction false} DivParts(v: nat, u: nat)
    requires u > 0
    ensures v == u * (v / u) + v % u && u * (v / u) <= v < u * (v / u + 1)
  {}

  lemma {:induction false} MulMono(a: nat, b: nat, u: nat)
    requires a <= b
    ensures a * u <= b * u
  {}

  lemma {:induction false} MulCancel(a: nat, b: nat, u: nat)
    requires u > 0 && a * u < b * u
    ensures a < b
  {
    if a >= b {
      MulMono(b, a, u);
    }
  }

  /** What `v % u == 0` means, both ways. */
  lemma {:induction false} Multiple(v: nat, u: nat, k: nat)
    requires u > 0
    ensures v == k * u ==> v % u == 0 && v / u == k
    ensures v % u == 0 ==> v == (v / u) * u
  {
    DivParts(v, u);
    if v == k * u {
      var q := v / u;
      if q < k {
        MulMono(q + 1, k, u);
      } else if q > k {
        MulMono(k + 1, q, u);
      }
    }
  }

  lemma {:induction false} MultipleOfMultiple(a: nat, b: nat, c: nat)
    requires b > 0 && c > 0 && a % b == 0 && b % c == 0
    ensures a % c == 0
  {
    var k, j := a / b, b / c;
    Multiple(a, b, k);
    Multiple(b, c, j);
    assert a == k * (j * c) == (k * j) * c;
    Multiple(a, c, k * j);
  }

  // ---------------------------------------------------------------------
  // Spacing
  // ---------------------------------------------------------------------

  lemma {:induction false} SpacingRange(v: nat)
    ensures v < TWO53 * Spacing(v)
    ensures v >= TWO53 ==> TWO52 * Spacing(v) <= v && Spacing(v) >= 2
    ensures v < TWO53 ==> Spacing(v) == 1
  {
    if v >= TWO53 {
      SpacingRange(v / 2);
    }
  }

  lemma {:induction false} SpacingDivides(v: nat, w: nat)
    requires v <= w
    ensures Spacing(w) % Spacing(v) == 0 && Spacing(v) <= Spacing(w)
    ensures Spacing(v) < Spacing(w) ==> 2 * Spacing(v) <= Spacing(w)
    decreases w
  {
    if v >= TWO53 {
      SpacingDivides(v / 2, w / 2);
      var a, b := Spacing(w / 2), Spacing(v / 2);
      Multiple(a, b, a / b);
      assert 2 * a == (a / b) * (2 * b);
      Multiple(2 * a, 2 * b, a / b);
    } else {
      SpacingRange(w);
    }
  }

  /** A number between these bounds has the spacing of its neighbours. */
  lemma {:induction false} SpacingOf(x: nat, v: nat)
    requires Spacing(v) > 1
    requires TWO52 * Spacing(v) <= x < TWO53 * Spacing(v)
    ensures Spacing(x) == Spacing(v)
  {
    hide Spacing;
    SpacingRange(x);
    SpacingRange(v);
    if x <= v {
      SpacingDivides(x, v);
    } else {
      SpacingDivides(v, x);
    }
  }

  // ---------------------------------------------------------------------
  // Rounding
  // ---------------------------------------------------------------------

  lemma {:induction false} RoundBounds(v: nat, u: nat)
    requires u > 0
    ensures RoundTo(v, u) == (v / u) * u || RoundTo(v, u) == (v / u + 1) * u
    ensures (v / u) * u <= RoundTo(v, u) <= (v / u + 1) * u
    ensures v % u == 0 ==> RoundTo(v, u) == v
  {
    Multiple(v, u, v / u);
    MulMono(v / u, v / u + 1, u);
  }

  lemma {:induction false} SameQuotient(v: nat, w: nat, u: nat)
    requires u > 0 && v <= w && v / u == w / u
    ensures RoundTo(v, u) <= RoundTo(w, u)
  {
    DivParts(v, u);
    DivParts(w, u);
    var q := v / u;
    assert v % u <= w % u;
    assert (q + 1) * u == q * u + u;
  }

  lemma {:induction false} QuotientMono(v: nat, w: nat, u: nat)
    requires u > 0 && v <= w
    ensures v / u <= w / u
  {
    DivParts(v, u);
    DivParts(w, u);
    if w / u < v / u {
      MulMono(w / u + 1, v / u, u);
    }
  }

  lemma {:induction false} RoundMono(v: nat, w: nat, u: nat)
    requires u > 0 && v <= w
    ensures RoundTo(v, u) <= RoundTo(w, u)
  {
    hide RoundTo;
    QuotientMono(v, w, u);
    if v / u == w / u {
      SameQuotient(v, w, u);
    } else {
      RoundBounds(v, u);
      RoundBounds(w, u);
      MulMono(v / u + 1, w / u, u);
    }
  }

  /** Rounding stays on its side of a multiple. */
  lemma {:induction false} RoundBelow(v: nat, u: nat, m: nat)
    requires u > 0 && v <= m * u
    ensures RoundTo(v, u) <= m * u
  {
    RoundMono(v, m * u, u);
    Multiple(m * u, u, m);
    RoundBounds(m * u, u);
  }

  lemma {:induction false} RoundAbove(v: nat, u: nat, m: nat)
    requires u > 0 && v >= m * u
    ensures RoundTo(v, u) >= m * u
  {
    RoundMono(m * u, v, u);
    Multiple(m * u, u, m);
    RoundBounds(m * u, u);
  }

  lemma {:induction false} NearestMono(v: nat, w: nat)
    requires v <= w
    ensures Nearest(v) <= Nearest(w)
  {
    hide Spacing, RoundTo;
    var a, b := Spacing(v), Spacing(w);
    SpacingDivides(v, w);
    SpacingRange(v);
    SpacingRange(w);
    if a == b {
      RoundMono(v, w, a);
    } else {
      // A power of two stands between the two.
      var k := b / a;
      Multiple(b, a, k);
      assert TWO52 * b == TWO52 * (k * a) == (TWO52 * k) * a;
      RoundBelow(v, a, TWO52 * k);
      RoundAbove(w, b, TWO52);
    }
  }

  lemma {:induction false} DoublesStay(n: nat)
    requires IsDouble(n)
    ensures Nearest(n) == n
  {
    RoundBounds(n, Spacing(n));
  }

  lemma {:induction false} SmallIsDouble(n: nat)
    requires n <= TWO53
    ensures IsDouble(n) && Nearest(n) == n
  {
    if n == TWO53 {
      assert Spacing(n) == 2 * Spacing(TWO52);
    }
    DoublesStay(n);
  }

  /** Rounding gives a double, and no other double is nearer. */
  lemma {:induction false} NearestIsNearest(v: nat, y: nat)
    requires IsDouble(y)
    ensures IsDouble(Nearest(v))
    ensures var x := Nearest(v); (if x < v then v - x else x - v) <= (if y < v then v - y else y - v)
  {
    hide Spacing, RoundTo;
    var u := Spacing(v);
    SpacingRange(v);
    if u == 1 {
      RoundBounds(v, 1);
      assert v % 1 == 0;
      IsDoubleSmall(v);
    } else {
      RoundingIsDouble(v);
      NothingBetween(v, y);
      CloserMultiple(v, u, y);
    }
  }

  lemma {:induction false} IsDoubleSmall(v: nat)
    requires Spacing(v) == 1
    ensures IsDouble(v)
  {}

  lemma {:induction false} QuotientRange(v: nat)
    requires Spacing(v) > 1
    ensures TWO52 <= v / Spacing(v) < TWO53
  {
    hide Spacing;
    var u := Spacing(v);
    SpacingRange(v);
    DivParts(v, u);
    if v / u >= TWO53 {
      MulMono(TWO53, v / u, u);
    }
    if v / u + 1 <= TWO52 {
      MulMono(v / u + 1, TWO52, u);
    }
  }

  lemma {:induction false} RoundingIsDouble(v: nat)
    requires Spacing(v) > 1
    ensures IsDouble(Nearest(v))
  {
    hide Spacing, RoundTo;
    var u := Spacing(v);
    QuotientRange(v);
    RoundBounds(v, u);
    var q := v / u;
    var m := if Nearest(v) == q * u then q else q + 1;
    assert Nearest(v) == m * u && TWO52 <= m <= TWO53;
    MulMono(TWO52, m, u);
    if m < TWO53 {
      MulMono(m + 1, TWO53, u);
      SpacingOf(m * u, v);
      Multiple(m * u, u, m);
    } else {
      PowerIsDouble(v);
    }
  }

  lemma {:induction false} PowerIsDouble(v: nat)
    requires Spacing(v) > 1
    ensures IsDouble(TWO53 * Spacing(v))
  {
    var x := TWO53 * Spacing(v);
    var h := TWO52 * Spacing(v);
    assert x / 2 == h && x >= TWO53;
    MulMono(1, Spacing(v), TWO53);
    assert Spacing(x) == 2 * Spacing(h);
    SpacingOf(h, v);
    Multiple(x, 2 * Spacing(v), TWO52);
  }

  lemma {:induction false} NothingBetween(v: nat, y: nat)
    requires Spacing(v) > 1 && IsDouble(y)
    ensures var u := Spacing(v); y <= (v / u) * u || y >= (v / u + 1) * u
  {
    hide Spacing;
    var u := Spacing(v);
    var q := v / u;
    QuotientRange(v);
    if q * u < y < (q + 1) * u {
      MulMono(TWO52, q, u);
      MulMono(q + 1, TWO53, u);
      SpacingOf(y, v);
      Multiple(y, u, y / u);
      MulCancel(q, y / u, u);
      MulCancel(y / u, q + 1, u);
    }
  }

  lemma {:induction false} CloserMultiple(v: nat, u: nat, y: nat)
    requires u > 0 && (y <= (v / u) * u || y >= (v / u + 1) * u)
    ensures var x := RoundTo(v, u); (if x < v then v - x else x - v) <= (if y < v then v - y else y - v)
  {
    var q, r := v / u, v % u;
    DivParts(v, u);
    assert v == q * u + r && (q + 1) * u == q * u + u;
  }

  // ---------------------------------------------------------------------
  // The shortest digits
  // ---------------------------------------------------------------------

  function Pow10(k: nat): (p: nat)
    ensures p > 0
  {
    if k == 0 then 1 else 10 * Pow10(k - 1)
  }

  /** How many decimal digits `n` has. */
  function Digits(n: nat): nat { if n < 10 then 1 else 1 + Digits(n / 10) }

  /** The multiple of `p` at or below `n`. */
  function Down(n: nat, p: nat): nat
    requires p > 0
  {
    n / p * p
  }

  /**
   The multiple of 10^k that is read as the double `n`: the nearest one, which is next to `n` on
   either side, and of two equally near ones that with the even last digit.
   */
  function Pick(n: nat, k: nat): Option<nat> {
    var p := Pow10(k);
    var lo := Down(n, p);
    var hi := lo + p;
    if Nearest(lo) == n && (Nearest(hi) != n || 2 * n < lo + hi || (2 * n == lo + hi && n / p % 2 == 0)) then Some(lo)
    else if Nearest(hi) == n then Some(hi)
    else None
  }

  function ShortestFrom(n: nat, k: nat): nat {
    match Pick(n, k)
    case Some(v) => v
    case None => if k == 0 then n else ShortestFrom(n, k - 1)
  }

  /** The digits JavaScript prints for the double `n`, with the zeros it pads them with. */
  function Shortest(n: nat): nat { ShortestFrom(n, Digits(n)) }

  lemma {:induction false} PowSum(j: nat, k: nat)
    ensures Pow10(j + k) == Pow10(j) * Pow10(k)
  {
    if j > 0 {
      PowSum(j - 1, k);
      assert Pow10(j + k) == 10 * (Pow10(j - 1) * Pow10(k)) == (10 * Pow10(j - 1)) * Pow10(k);
    }
  }

  lemma {:induction false} FewerZeros(v: nat, j: nat, k: nat)
    requires j <= k && v % Pow10(k) == 0
    ensures v % Pow10(j) == 0
  {
    hide Pow10;
    PowSum(k - j, j);
    Multiple(Pow10(k), Pow10(j), Pow10(k - j));
    MultipleOfMultiple(v, Pow10(k), Pow10(j));
  }

  lemma {:induction false} PickSound(n: nat, k: nat)
    requires Pick(n, k).Some?
    ensures Nearest(Pick(n, k).value) == n && Pick(n, k).value % Pow10(k) == 0
  {
    hide Nearest, Pow10;
    var p := Pow10(k);
    Multiple(n / p * p, p, n / p);
    assert n / p * p + p == (n / p + 1) * p;
    Multiple((n / p + 1) * p, p, n / p + 1);
  }

  /** If any multiple of 10^k is read as `n`, one next to `n` is. */
  lemma {:induction false} PickComplete(n: nat, k: nat, v: nat)
    requires IsDouble(n) && v % Pow10(k) == 0 && Nearest(v) == n
    ensures Pick(n, k).Some?
  {
    hide Nearest, Pow10, IsDouble;
    var p := Pow10(k);
    DoublesStay(n);
    DivParts(n, p);
    Multiple(v, p, v / p);
    var lo := n / p * p;
    assert lo + p == (n / p + 1) * p;
    if v <= n {
      if n / p < v / p {
        MulMono(n / p + 1, v / p, p);
      }
      MulMono(v / p, n / p, p);
      NearestMono(v, lo);
      NearestMono(lo, n);
    } else {
      if v / p <= n / p {
        MulMono(v / p, n / p, p);
      }
      MulMono(n / p + 1, v / p, p);
      NearestMono(n, lo + p);
      NearestMono(lo + p, v);
    }
  }

  lemma {:induction false} PickSelf(n: nat, k: nat)
    requires IsDouble(n) && n % Pow10(k) == 0
    ensures Pick(n, k) == Some(n)
  {
    hide Nearest, Pow10;
    DoublesStay(n);
    Multiple(n, Pow10(k), n / Pow10(k));
  }

  /** The search stops at the most zeros that are possible. */
  lemma {:induction false} SearchStops(n: nat, k: nat) returns (j: nat)
    requires IsDouble(n)
    ensures j <= k && Pick(n, j) == Some(ShortestFrom(n, k))
    ensures forall i :: j < i <= k ==> Pick(n, i).None?
  {
    hide Pick, IsDouble;
    if Pick(n, k).Some? {
      j := k;
    } else if k == 0 {
      assert Pow10(0) == 1;
      PickSelf(n, 0);
    } else {
      j := SearchStops(n, k - 1);
    }
  }

  lemma {:induction false} DigitsBound(n: nat)
    requires n > 0
    ensures Pow10(Digits(n) - 1) <= n < Pow10(Digits(n))
  {
    if n >= 10 {
      DigitsBound(n / 10);
    }
  }

  /** What is printed is read as `n` again, by a reader of doubles. */
  lemma {:induction false} ShortestReads(n: nat)
    requires IsDouble(n)
    ensures Nearest(Shortest(n)) == n
  {
    hide Pick, IsDouble, Nearest, ShortestFrom;
    var j := SearchStops(n, Digits(n));
    PickSound(n, j);
  }

  // ---------------------------------------------------------------------
  // When the printed digits are the number
  // ---------------------------------------------------------------------

  /** The least power of ten that does not divide `n`. */
  function NextTen(n: nat): (p: nat)
    requires n > 0
    ensures p > 0
  {
    if n % 10 != 0 then 10 else 10 * NextTen(n / 10)
  }

  /** Rounded to one digit less, up or down, the number would be another double. */
  predicate NeedsItsDigits(n: nat) {
    n == 0 || (var p := NextTen(n); Nearest(n / p * p) != n && Nearest(n / p * p + p) != n)
  }

  lemma {:induction false} ZerosOf(n: nat) returns (z: nat)
    requires n > 0
    ensures NextTen(n) == Pow10(z + 1) && n % Pow10(z) == 0 && n % Pow10(z + 1) != 0
    ensures z + 1 <= Digits(n)
  {
    if n % 10 != 0 {
      z := 0;
      assert Pow10(1) == 10 * Pow10(0);
    } else {
      var y := ZerosOf(n / 10);
      z := y + 1;
      TimesTen(n / 10, Pow10(y));
      TimesTen(n / 10, Pow10(y + 1));
      assert n == 10 * (n / 10);
    }
  }

  lemma {:induction false} TimesTen(m: nat, p: nat)
    requires p > 0
    ensures m % p == 0 <==> (10 * m) % (10 * p) == 0
  {
    Multiple(m, p, m / p);
    Multiple(10 * m, 10 * p, m / p);
    if m % p == 0 {
      assert 10 * m == (m / p) * (10 * p);
    }
    if (10 * m) % (10 * p) == 0 {
      var k := (10 * m) / (10 * p);
      assert 10 * m == k * (10 * p) == 10 * (k * p);
      Multiple(m, p, k);
    }
  }

  /** JavaScript prints exactly the double `n` just when one digit less would not do. */
  lemma {:induction false} PrintedExactly(n: nat)
    requires IsDouble(n)
    ensures Shortest(n) == n <==> NeedsItsDigits(n)
  {
    hide Nearest, IsDouble, Pow10, NextTen, ShortestFrom, Pick;
    var j := SearchStops(n, Digits(n));
    PickSound(n, j);
    if n == 0 {
      ZeroStays(j);
    } else {
      var z := ZerosOf(n);
      PickNext(n, z);
      if Pick(n, z + 1).Some? {
        assert j > z;
        if Shortest(n) == n {
          FewerZeros(n, z + 1, j);
        }
      } else {
        if j > z {
          FewerZeros(Shortest(n), z + 1, j);
          PickComplete(n, z + 1, Shortest(n));
        }
        PickSelf(n, z);
        assert j == z;
      }
    }
  }

  lemma {:induction false} PickNext(n: nat, z: nat)
    requires n > 0 && NextTen(n) == Pow10(z + 1)
    ensures Pick(n, z + 1).None? <==> NeedsItsDigits(n)
  {
    hide Nearest, Pow10, NextTen;
  }

  lemma {:induction false} ZeroStays(k: nat)
    ensures Pick(0, k) == Some(0)
  {
    hide Pow10;
    SmallIsDouble(0);
    assert 0 % Pow10(k) == 0;
    PickSelf(0, k);
  }

  // ---------------------------------------------------------------------
  // No shorter digits denote the double
  // ---------------------------------------------------------------------

  /** The digits of `v` without the zeros at its end. */
  function Significant(v: nat): nat {
    if v == 0 then 1 else if v % 10 == 0 then Significant(v / 10) else Digits(v)
  }

  lemma {:induction false} SignificantIs(v: nat, z: nat)
    requires v > 0 && v % Pow10(z) == 0 && v % Pow10(z + 1) != 0
    ensures Significant(v) == Digits(v) - z && z < Digits(v)
  {
    if z == 0 {
      assert Pow10(1) == 10 * Pow10(0);
    } else {
      FewerZeros(v, 1, z);
      assert Pow10(1) == 10 * Pow10(0) && v == 10 * (v / 10);
      TimesTen(v / 10, Pow10(z - 1));
      TimesTen(v / 10, Pow10(z));
      SignificantIs(v / 10, z - 1);
    }
  }

  lemma {:induction false} PowMono(j: nat, k: nat)
    requires j <= k
    ensures Pow10(j) <= Pow10(k)
  {
    PowSum(k - j, j);
    MulMono(1, Pow10(k - j), Pow10(j));
  }

  lemma {:induction false} PickIsNext(n: nat, k: nat)
    requires Pick(n, k).Some?
    ensures Pick(n, k).value <= Down(n, Pow10(k)) + Pow10(k)
  {
    hide Nearest, Pow10, Down;
  }

  lemma {:induction false} DownIs(n: nat, p: nat) returns (q: nat)
    requires p > 0
    ensures Down(n, p) == q * p && q * p <= n
  {
    q := n / p;
    DivParts(n, p);
  }

  lemma {:induction false} NextAtMost(n: nat, m: nat, p: nat)
    requires p > 0 && n < m * p
    ensures Down(n, p) + p <= m * p
  {
    hide Down;
    var q := DownIs(n, p);
    NextMultiple(n, q, m, p);
  }

  lemma {:induction false} NextMultiple(n: nat, q: nat, m: nat, p: nat)
    requires p > 0 && q * p <= n < m * p
    ensures q * p + p <= m * p
  {
    MulCancel(q, m, p);
    MulMono(q + 1, m, p);
  }

  lemma {:induction false} PickBound(n: nat, k: nat)
    requires k <= Digits(n) && Pick(n, k).Some?
    ensures Pick(n, k).value <= Pow10(Digits(n))
  {
    hide Nearest, Pow10, Pick;
    var d := Digits(n);
    if n > 0 {
      DigitsBound(n);
    }
    PickIsNext(n, k);
    PowSum(d - k, k);
    NextAtMost(n, Pow10(d - k), Pow10(k));
  }

  lemma {:induction false} DigitsAtMost(v: nat, d: nat)
    requires d > 0 && v <= Pow10(d)
    ensures Digits(v) <= d + 1
    ensures v < Pow10(d) ==> Digits(v) <= d
  {
    hide Pow10;
    if v > 0 {
      DigitsBound(v);
      if Digits(v) > d + 1 {
        PowMono(d + 1, Digits(v) - 1);
        PowLess(d);
      }
      if Digits(v) > d {
        PowMono(d, Digits(v) - 1);
      }
    }
  }

  lemma {:induction false} PowLess(k: nat)
    ensures Pow10(k) < Pow10(k + 1)
  {}

  /** Every integer that is read as the double `n` has at least as many digits as what is printed. */
  lemma {:induction false} FewestDigits(n: nat, w: nat)
    requires IsDouble(n) && n > 0 && Nearest(w) == n
    ensures Significant(Shortest(n)) <= Significant(w)
  {
    hide Nearest, IsDouble, Pow10, Pick, ShortestFrom, Significant, NextTen;
    SmallIsDouble(0);
    var d := Digits(n);
    var v := Shortest(n);
    var j := SearchStops(n, d);
    PickSound(n, j);
    PickBound(n, j);
    var zv := ZerosOf(v);
    var zw := ZerosOf(w);
    SignificantIs(v, zv);
    SignificantIs(w, zw);
    if zv < j {
      FewerZeros(v, zv + 1, j);
    }
    DigitsAtMost(v, d);
    if Digits(w) < Digits(v) {
      AllZeros(n, w, v);
      assert j >= Digits(v) - 1;
    } else if zw > d {
      FewerZeros(w, d, zw);
      PickComplete(n, d, w);
      assert j == d;
    } else {
      PickComplete(n, zw, w);
      assert zw <= j;
    }
  }

  /** A power of ten between two numbers that are read as `n`. */
  lemma {:induction false} AllZeros(n: nat, w: nat, v: nat)
    requires IsDouble(n) && w > 0 && v > 0 && Nearest(w) == n == Nearest(v) && Digits(w) < Digits(v)
    ensures Pick(n, Digits(v) - 1).Some?
  {
    hide Nearest, IsDouble, Pow10, Pick;
    var t := Pow10(Digits(v) - 1);
    DigitsBound(w);
    DigitsBound(v);
    PowMono(Digits(w), Digits(v) - 1);
    NearestMono(w, t);
    NearestMono(t, v);
    Multiple(t, t, 1);
    PickComplete(n, Digits(v) - 1, t);
  }

  // ---------------------------------------------------------------------
  // Particular numbers
  // ---------------------------------------------------------------------

  lemma {:induction false} SpacingBetween(v: nat, e: nat)
    requires v < TWO53 * Pow2(e) && (e > 0 ==> TWO52 * Pow2(e) <= v)
    ensures Spacing(v) == Pow2(e)
  {
    if e > 0 {
      SpacingBetween(v / 2, e - 1);
    }
  }

  const TEN21: nat := 1_000_000_000_000_000_000_000

  lemma {:induction false} SeventeenHalvings()
    ensures Pow2(4) == 16 && Pow2(8) == 256 && Pow2(7) == 128 && Pow2(17) == 131072
  {
    assert Pow2(4) == 16;
    assert Pow2(8) == 16 * Pow2(4);
    assert Pow2(12) == 16 * Pow2(8);
    assert Pow2(16) == 16 * Pow2(12);
    assert Pow2(17) == 2 * Pow2(16);
    assert Pow2(7) == 8 * Pow2(4);
  }

  lemma {:induction false} Ten21IsDouble()
    ensures IsDouble(TEN21)
  {
    SeventeenHalvings();
    SpacingBetween(TEN21, 17);
  }

  /** Below 10^21 nothing of 22 digits is printed, and from there on nothing shorter. */
  lemma {:induction false} PrintedBelow(n: nat)
    requires IsDouble(n)
    ensures Shortest(n) < TEN21 <==> n < TEN21
  {
    hide Nearest, IsDouble, Shortest, TEN21;
    Ten21IsDouble();
    DoublesStay(TEN21);
    ShortestReads(n);
    if Shortest(n) < TEN21 {
      NearestMono(Shortest(n), TEN21);
      if n == TEN21 {
        TenPrinted();
      }
    } else {
      NearestMono(TEN21, Shortest(n));
    }
  }

  lemma {:induction false} NextTenOfPower(k: nat)
    ensures NextTen(Pow10(k)) == Pow10(k + 1)
  {
    if k == 0 {
      assert Pow10(1) == 10 * Pow10(0);
    } else {
      NextTenOfPower(k - 1);
    }
  }

  lemma {:induction false} PowersOfTen()
    ensures Pow10(21) == TEN21 && Pow10(22) == 10 * TEN21
  {
    assert Pow10(3) == 1000;
    PowSum(3, 3);
    PowSum(6, 6);
    PowSum(12, 6);
    PowSum(18, 3);
    PowSum(1, 21);
    assert Pow10(1) == 10 * Pow10(0);
  }

  lemma {:induction false} Ten22IsDouble()
    ensures IsDouble(10 * TEN21)
  {
    SeventeenHalvings();
    assert Pow2(21) == 16 * Pow2(17);
    SpacingBetween(10 * TEN21, 21);
  }

  /** 10^21 is printed with its one digit. */
  lemma {:induction false} TenPrinted()
    ensures Shortest(TEN21) == TEN21
  {
    hide Nearest, IsDouble, Shortest, Pow10, NextTen;
    Ten21IsDouble();
    Ten22IsDouble();
    DoublesStay(10 * TEN21);
    SmallIsDouble(0);
    NextTenOfPower(21);
    PowersOfTen();
    assert TEN21 / (10 * TEN21) == 0;
    PrintedExactly(TEN21);
  }

  /** Up to 2^53 every integer is printed as it is. */
  lemma {:induction false} SafeIntegers(n: nat)
    requires n <= TWO53
    ensures IsDouble(n) && NeedsItsDigits(n) && Shortest(n) == n
  {
    hide Nearest, IsDouble, Shortest, NextTen, NeedsItsDigits;
    SmallIsDouble(n);
    PrintedExactly(n);
    if n == TWO53 {
      LastSafe();
    } else if n > 0 {
      BelowLastSafe(n);
    } else {
      ZeroIsExact();
    }
  }

  lemma {:induction false} ZeroIsExact()
    ensures NeedsItsDigits(0)
  {}

  lemma {:induction false} LastSafe()
    ensures NeedsItsDigits(TWO53)
  {
    var n := TWO53;
    assert NextTen(n) == 10 && n / 10 * 10 == 9007199254740990;
    SmallIsDouble(9007199254740990);
    var hi: nat := 9007199254741000;
    assert Spacing(hi) == 2 * Spacing(hi / 2) == 2;
    DoublesStay(hi);
  }

  lemma {:induction false} BelowLastSafe(n: nat)
    requires 0 < n < TWO53
    ensures NeedsItsDigits(n)
  {
    hide Nearest, Pow10;
    var z := ZerosOf(n);
    var p := NextTen(n);
    Multiple(n, p, n / p);
    DivParts(n, p);
    var lo := n / p * p;
    SmallIsDouble(lo);
    if lo + p <= TWO53 {
      SmallIsDouble(lo + p);
    } else {
      SmallIsDouble(TWO53);
      NearestMono(TWO53, lo + p);
    }
  }

  const TWO60: nat := 0x1000_0000_0000_0000

  lemma {:induction false} Around60(v: nat)
    requires TWO52 * 128 <= v < TWO53 * 256
    ensures Spacing(v) == if v < TWO53 * 128 then 128 else 256
  {
    SeventeenHalvings();
    if v < TWO53 * 128 {
      SpacingBetween(v, 7);
    } else {
      SpacingBetween(v, 8);
    }
  }

  lemma {:induction false} Picks60()
    ensures IsDouble(TWO60) && !NeedsItsDigits(TWO60)
    ensures Pick(TWO60, 3) == Some(1152921504606847000) && Pick(TWO60, 4).None?
  {
    hide Spacing;
    Around60(TWO60);
    Around60(1152921504606846970);
    Around60(1152921504606846000);
    Around60(1152921504606847000);
    Around60(1152921504606840000);
    Around60(1152921504606850000);
    assert NextTen(TWO60) == 10;
    assert Pow10(1) == 10 && Pow10(2) == 100 && Pow10(3) == 1000 && Pow10(4) == 10000;
  }

  /** 2^60 is printed as another number. */
  lemma {:induction false} Printed60()
    ensures IsDouble(TWO60) && Shortest(TWO60) == 1152921504606847000
  {
    hide Nearest, IsDouble, Pick, Pow10, ShortestFrom;
    Picks60();
    var n := TWO60;
    var j := SearchStops(n, Digits(n));
    PickSound(n, j);
    Digits60();
    if j >= 4 {
      FewerZeros(Shortest(n), 4, j);
      PickComplete(n, 4, Shortest(n));
    }
    assert j == 3;
  }

  lemma {:induction false} Digits60()
    ensures Digits(TWO60) == 19
  {
    assert Digits(1152921504606846976) == 4 + Digits(115292150460684);
    assert Digits(115292150460684) == 5 + Digits(1152921504);
    assert Digits(1152921504) == 5 + Digits(11529);
  }
}
