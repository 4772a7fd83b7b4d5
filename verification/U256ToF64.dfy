/**
Rounding a 256-bit integer to a binary64 number. Numbers are unbounded naturals here; masking the low
`k` bits is `Low`, and `ShiftLeft(m, e)` is `m` times `2^e`.
*/
module U256ToF64 {
  import opened Wrappers
  import opened Powers
  import opened ByteCodec

  /** The precision of binary64 in bits. */
  const P: nat := 53

  /** The exponent bias of binary64 plus the width of its fraction: 1023 + 52. */
  const SCALE: nat := 1075

  // ------------------------------------------------------------------ what the standard asks for

  /** `y` is `m` times `2^e`, and `m` fits the precision. */
  ghost predicate IsScaled(y: nat, m: nat, e: nat) {
    m < Pow2(P) && y == ShiftLeft(m, e)
  }

  /** The integers binary64 can represent, ignoring its upper end. Below `2^53` it has every integer. */
  ghost predicate Representable(y: nat) {
    exists m: nat, e: nat :: IsScaled(y, m, e)
  }

  function Distance(a: nat, b: nat): nat {
    if a < b then b - a else a - b
  }

  ghost predicate Nearest(x: nat, y: nat) {
    Representable(y) && forall z: nat | Representable(z) :: Distance(x, y) <= Distance(x, z)
  }

  ghost predicate EvenSignificand(y: nat) {
    exists m: nat, e: nat :: IsScaled(y, m, e) && Pow2(P - 1) <= m && m % 2 == 0
  }

  /** roundTiesToEven, section 4.3.1 of IEEE 754-2019. */
  ghost predicate RoundsTiesToEven(x: nat, y: nat) {
    && Nearest(x, y)
    && forall z: nat | Representable(z) && z != y && Distance(x, z) == Distance(x, y) :: EvenSignificand(y)
  }

  /**
  A positive, finite and normal binary64 encoding of the integer `y`, section 3.4 of IEEE 754-2019:
  both sides of the equation are the value times `2^SCALE`.
  */
  ghost predicate Encodes(bits: nat, y: nat) {
    var exponent, fraction := ShiftRight(bits, P - 1), Low(bits, P - 1);
    0 < exponent < 2047 && ShiftLeft(Pow2(P - 1) + fraction, exponent) == ShiftLeft(y, SCALE)
  }

  // ------------------------------------------------------------------ what the code rounds to

  /** How many low bits do not fit. */
  function Excess(x: nat): nat {
    if Bits(x) > P then Bits(x) - P else 0
  }

  /** The code's rule, from the kept bits `q` and the two fields it looks at. */
  predicate RoundUp(q: nat, roundBit: nat, sticky: nat) {
    roundBit == 1 && (sticky != 0 || q % 2 == 1)
  }

  /** The significand after rounding with a sticky mask of `mask` bits. */
  function Rounded(x: nat, mask: nat): nat
    requires Excess(x) > 0
  {
    var q := ShiftRight(x, Excess(x));
    if RoundUp(q, ShiftRight(x, Excess(x) - 1) % 2, Low(x, mask)) then q + 1 else q
  }

  /** The integer the code arrives at; its sticky mask stops one bit short. */
  function RoundedByCode(x: nat): nat {
    var s := Excess(x);
    if s == 0 then x else ShiftLeft(Rounded(x, if s >= 2 then s - 2 else 0), s)
  }

  /** The same with a sticky mask that reaches up to the round bit. */
  function RoundedByFullMask(x: nat): nat {
    var s := Excess(x);
    if s == 0 then x else ShiftLeft(Rounded(x, s - 1), s)
  }

  /** Three quarters of a step above an even significand: the one family the short mask gets wrong. */
  predicate Misrounds(x: nat) {
    var s := Excess(x);
    s >= 2 && Low(x, s) == 3 * Pow2(s - 2) && ShiftRight(x, s) % 2 == 0
  }

  // ------------------------------------------------------------------ bits of the remainder

  lemma {:induction false} TopBit(x: nat, s: nat)
    requires s > 0
    ensures Low(x, s) == Low(x, s - 1) + (if ShiftRight(x, s - 1) % 2 == 1 then Pow2(s - 1) else 0)
  {
    if s > 1 { TopBit(x / 2, s - 1); }
  }

  /** The round bit says whether the remainder reaches half a step; below it lies the rest. */
  lemma RoundBitIs(x: nat, s: nat)
    requires s > 0
    ensures ShiftRight(x, s - 1) % 2 == (if 2 * Low(x, s) >= Pow2(s) then 1 else 0)
    ensures 2 * Low(x, s) >= Pow2(s) ==> Low(x, s - 1) == Low(x, s) - Pow2(s - 1)
  {
    TopBit(x, s);
  }

  /** Among remainders of at least half a step the short mask sees nothing exactly at whole quarters. */
  lemma ShortStickyIs(x: nat, s: nat)
    requires s >= 2 && 2 * Low(x, s) >= Pow2(s)
    ensures Low(x, s - 2) == 0 <==> Low(x, s) == 2 * Pow2(s - 2) || Low(x, s) == 3 * Pow2(s - 2)
  {
    TopBit(x, s);
    TopBit(x, s - 1);
  }

  // ------------------------------------------------------------------ the grid of binary64

  /** A number too long for binary64 keeps exactly 53 bits. */
  lemma KeptBits(x: nat)
    requires Excess(x) > 0
    ensures Pow2(P - 1) <= ShiftRight(x, Excess(x)) < Pow2(P)
  {
    var s := Excess(x);
    var q := ShiftRight(x, s);
    SplitAt(x, s);
    ShiftLeftTwice(1, P, s);
    ShiftLeftTwice(1, P - 1, s);
    if q >= Pow2(P) {
      ShiftLeftMonotone(Pow2(P), q, s);
    } else if q < Pow2(P - 1) {
      ShiftLeftAdds(q, 1, s);
      ShiftLeftMonotone(q + 1, Pow2(P - 1), s);
    }
  }

  /** No representable number lies strictly between two neighbours of the grid around `x`. */
  lemma GridGap(q: nat, s: nat, z: nat)
    requires Pow2(P - 1) <= q && Representable(z)
    ensures z <= ShiftLeft(q, s) || ShiftLeft(q + 1, s) <= z
  {
    var m: nat, e: nat :| IsScaled(z, m, e);
    if e >= s {
      ShiftLeftTwice(m, e - s, s);
      var k := ShiftLeft(m, e - s);
      if k <= q { ShiftLeftMonotone(k, q, s); } else { ShiftLeftMonotone(q + 1, k, s); }
    } else {
      ShiftLeftMonotone(m, Pow2(P), e);
      ShiftLeftTwice(1, P, e);
      Pow2Monotone(P + e, P - 1 + s);
      ShiftLeftTwice(1, P - 1, s);
      ShiftLeftMonotone(Pow2(P - 1), q, s);
    }
  }

  lemma Pow2IsEven(e: nat)
    requires e > 0
    ensures Pow2(e) % 2 == 0 && Pow2(e) == 2 * Pow2(e - 1)
  {}

  /** A significand of 54 bits is still representable: it is even, so one more power of two takes it up. */
  lemma CarryRepresentable(s: nat)
    ensures Representable(ShiftLeft(Pow2(P), s)) && EvenSignificand(ShiftLeft(Pow2(P), s))
  {
    ShiftLeftTwice(1, P, s);
    ShiftLeftTwice(1, P - 1, s + 1);
    Pow2IsEven(P);
    Pow2IsEven(P - 1);
    assert IsScaled(ShiftLeft(Pow2(P), s), Pow2(P - 1), s + 1);
  }

  lemma NeighboursRepresentable(q: nat, s: nat)
    requires Pow2(P - 1) <= q < Pow2(P)
    ensures Representable(ShiftLeft(q, s)) && Representable(ShiftLeft(q + 1, s))
    ensures q % 2 == 0 ==> EvenSignificand(ShiftLeft(q, s))
    ensures q % 2 == 1 ==> EvenSignificand(ShiftLeft(q + 1, s))
  {
    assert IsScaled(ShiftLeft(q, s), q, s);
    if q + 1 < Pow2(P) {
      assert IsScaled(ShiftLeft(q + 1, s), q + 1, s);
    } else {
      CarryRepresentable(s);
    }
  }

  /** The significand round-to-nearest-even asks for, from quotient, remainder and step. */
  function Chosen(q: nat, r: nat, step: nat): nat {
    if 2 * r < step || (2 * r == step && q % 2 == 0) then q else q + 1
  }

  lemma ChosenIsNearestEven(x: nat)
    requires Excess(x) > 0
    ensures var s := Excess(x);
            RoundsTiesToEven(x, ShiftLeft(Chosen(ShiftRight(x, s), Low(x, s), Pow2(s)), s))
  {
    var s := Excess(x);
    var q := ShiftRight(x, s);
    KeptBits(x);
    SplitAt(x, s);
    NeighboursRepresentable(q, s);
    ShiftLeftAdds(q, 1, s);
    forall z: nat | Representable(z) ensures z <= ShiftLeft(q, s) || ShiftLeft(q + 1, s) <= z { GridGap(q, s, z); }
    NearestOfTwo(x, ShiftLeft(q, s), ShiftLeft(q + 1, s));
  }

  /** Between two neighbours the nearer one is right, and halfway the one with an even significand. */
  lemma NearestOfTwo(x: nat, lo: nat, hi: nat)
    requires Representable(lo) && Representable(hi) && lo <= x <= hi
    requires forall z: nat | Representable(z) :: z <= lo || hi <= z
    ensures x - lo < hi - x || (x - lo == hi - x && EvenSignificand(lo)) ==> RoundsTiesToEven(x, lo)
    ensures hi - x < x - lo || (x - lo == hi - x && EvenSignificand(hi)) ==> RoundsTiesToEven(x, hi)
  {}

  lemma ExactIsNearestEven(x: nat)
    requires Excess(x) == 0
    ensures RoundsTiesToEven(x, x)
  {
    Pow2Monotone(Bits(x), P);
    assert IsScaled(x, x, 0);
  }

  // ------------------------------------------------------------------ what the code achieves

  lemma FullMaskChooses(x: nat)
    requires Excess(x) > 0
    ensures var s := Excess(x); Rounded(x, s - 1) == Chosen(ShiftRight(x, s), Low(x, s), Pow2(s))
  {
    RoundBitIs(x, Excess(x));
  }

  lemma CodeChooses(x: nat)
    requires Excess(x) > 0
    ensures var s := Excess(x);
            var q, r := ShiftRight(x, s), Low(x, s);
            Rounded(x, if s >= 2 then s - 2 else 0) == if Misrounds(x) then q else Chosen(q, r, Pow2(s))
  {
    var s := Excess(x);
    RoundBitIs(x, s);
    if s >= 2 && 2 * Low(x, s) >= Pow2(s) { ShortStickyIs(x, s); }
  }

  /** With a sticky mask up to the round bit the rounding is what the documentation promises. */
  lemma FullMaskRoundsTiesToEven(x: nat)
    ensures RoundsTiesToEven(x, RoundedByFullMask(x))
  {
    if Excess(x) == 0 {
      ExactIsNearestEven(x);
    } else {
      FullMaskChooses(x);
      ChosenIsNearestEven(x);
    }
  }

  /** The code rounds to nearest, ties to even, exactly outside one family of inputs. */
  lemma CodeRoundsTiesToEvenIff(x: nat)
    ensures RoundsTiesToEven(x, RoundedByCode(x)) <==> !Misrounds(x)
  {
    if Excess(x) == 0 {
      ExactIsNearestEven(x);
    } else {
      CodeChooses(x);
      ChosenIsNearestEven(x);
      if Misrounds(x) {
        var s := Excess(x);
        var q := ShiftRight(x, s);
        KeptBits(x);
        SplitAt(x, s);
        NeighboursRepresentable(q, s);
        ShiftLeftAdds(q, 1, s);
        assert Distance(x, ShiftLeft(q + 1, s)) < Distance(x, ShiftLeft(q, s));
      }
    }
  }

  /** There it rounds down, to the neighbour three quarters of a step away. */
  lemma MisroundedGoesDown(x: nat)
    requires Misrounds(x)
    ensures var s := Excess(x);
            && RoundedByCode(x) == ShiftLeft(ShiftRight(x, s), s) < x && Representable(RoundedByCode(x))
            && 4 * (x - RoundedByCode(x)) == 3 * Pow2(s)
  {
    var s := Excess(x);
    CodeChooses(x);
    SplitAt(x, s);
    KeptBits(x);
    NeighboursRepresentable(ShiftRight(x, s), s);
  }

  lemma MisroundedNumberExcess()
    ensures Excess(Pow2(P + 1) + 3) == 2
  {
    var x := Pow2(P + 1) + 3;
    Pow2Monotone(2, P + 1);
    assert Pow2(2) == 4;
    BitsBound(x, P + 2);
    if Bits(x) <= P + 1 { Pow2Monotone(Bits(x), P + 1); }
  }

  /** `2^54 + 3`, which is nearest to `2^54 + 4`, becomes `2^54`. */
  lemma MisroundedNumber()
    ensures var x := Pow2(P + 1) + 3;
            && Misrounds(x) && RoundedByCode(x) == Pow2(P + 1)
            && RoundedByFullMask(x) == Pow2(P + 1) + 4
  {
    var x := Pow2(P + 1) + 3;
    MisroundedNumberExcess();
    MisroundedNumberParts();
    CodeChooses(x);
    FullMaskChooses(x);
  }

  lemma MisroundedNumberParts()
    ensures var x, q := Pow2(P + 1) + 3, Pow2(P - 1);
            && ShiftRight(x, 2) == q && Low(x, 2) == 3 && q % 2 == 0
            && ShiftLeft(q, 2) == Pow2(P + 1) && ShiftLeft(q + 1, 2) == Pow2(P + 1) + 4
  {
    ShiftLeftTwice(1, P - 1, 2);
    SplitUnique(Pow2(P - 1), 3, 2);
    Pow2IsEven(P - 1);
    ShiftLeftAdds(Pow2(P - 1), 1, 2);
  }

  lemma Pow2Values()
    ensures Pow2(13) == 8192 && Pow2(26) == 67108864 && Pow2(52) == 4503599627370496 && Pow2(54) == 18014398509481984
  {
    assert Pow2(10) == 1024;
    ShiftLeftTwice(1, 10, 3);
    ShiftLeftTwice(1, 13, 13);
    ShiftLeftIsProduct(8192, 13);
    ShiftLeftTwice(1, 26, 26);
    ShiftLeftIsProduct(67108864, 26);
    ShiftLeftTwice(1, 52, 2);
  }

  /** The same in figures: 18014398509481987 becomes 18014398509481984 and not 18014398509481988. */
  lemma MisroundedInFigures()
    ensures RoundedByCode(18014398509481987) == 18014398509481984
    ensures RoundsTiesToEven(18014398509481987, 18014398509481988)
  {
    Pow2Values();
    MisroundedNumber();
    FullMaskRoundsTiesToEven(18014398509481987);
  }

  // ------------------------------------------------------------------ order

  /** The representable number at or below `x`, if `x` has too many digits. */
  function StepStart(x: nat): nat {
    ShiftLeft(ShiftRight(x, Excess(x)), Excess(x))
  }

  /** Whether round-to-nearest-even goes up from the start of the step. */
  predicate GoesUp(x: nat) {
    var q, r, step := ShiftRight(x, Excess(x)), Low(x, Excess(x)), Pow2(Excess(x));
    2 * r > step || (2 * r == step && q % 2 == 1)
  }

  lemma RoundedFromStart(x: nat)
    requires Excess(x) > 0
    ensures var start, step := StepStart(x), Pow2(Excess(x));
            && x == start + Low(x, Excess(x))
            && RoundedByFullMask(x) == (if GoesUp(x) then start + step else start)
            && RoundedByCode(x) == (if GoesUp(x) && !Misrounds(x) then start + step else start)
  {
    var s := Excess(x);
    SplitAt(x, s);
    CodeChooses(x);
    FullMaskChooses(x);
    ShiftLeftAdds(ShiftRight(x, s), 1, s);
  }

  lemma StartOnGrid(x: nat)
    requires Excess(x) > 0
    ensures Representable(StepStart(x))
  {
    KeptBits(x);
    NeighboursRepresentable(ShiftRight(x, Excess(x)), Excess(x));
  }

  lemma NoneWithinStep(x: nat, z: nat)
    requires Excess(x) > 0 && Representable(z)
    ensures z <= StepStart(x) || StepStart(x) + Pow2(Excess(x)) <= z
  {
    var s := Excess(x);
    KeptBits(x);
    ShiftLeftAdds(ShiftRight(x, s), 1, s);
    GridGap(ShiftRight(x, s), s, z);
  }

  /** Rounding does not jump over a representable number. */
  lemma StaysBelow(a: nat, z: nat)
    requires a <= z && Representable(z)
    ensures RoundedByCode(a) <= z && RoundedByFullMask(a) <= z
  {
    if Excess(a) > 0 {
      RoundedFromStart(a);
      NoneWithinStep(a, z);
    }
  }

  lemma AsLong(a: nat, b: nat)
    requires Excess(b) > 0 && StepStart(b) <= a <= b
    ensures Excess(a) == Excess(b)
  {
    var s := Excess(b);
    BitsBound(a, Bits(b));
    KeptBits(b);
    ShiftLeftMonotone(Pow2(P - 1), ShiftRight(b, s), s);
    ShiftLeftTwice(1, P - 1, s);
    if Bits(a) < P + s { Pow2Monotone(Bits(a), P - 1 + s); }
  }

  /** A number between `b` and the start of its step is in the same step. */
  lemma SameStep(a: nat, b: nat)
    requires Excess(b) > 0 && StepStart(b) <= a <= b
    ensures Excess(a) == Excess(b) && ShiftRight(a, Excess(b)) == ShiftRight(b, Excess(b))
  {
    AsLong(a, b);
    SplitAt(b, Excess(b));
    SplitUnique(ShiftRight(b, Excess(b)), a - StepStart(b), Excess(b));
  }

  lemma ShortIsRepresentable(b: nat)
    requires Excess(b) == 0
    ensures Representable(b)
  {
    Pow2Monotone(Bits(b), P);
    assert IsScaled(b, b, 0);
  }

  /** `b` is misrounded, and `a` is less than a quarter of a step below it. */
  predicate Overtakes(a: nat, b: nat) {
    Misrounds(b) && 0 < b - a < Pow2(Excess(b) - 2)
  }

  lemma OrderWithinStep(a: nat, b: nat)
    requires Excess(b) > 0 && StepStart(b) <= a <= b
    ensures RoundedByFullMask(a) <= RoundedByFullMask(b)
    ensures RoundedByCode(a) <= RoundedByCode(b) <==> !Overtakes(a, b)
  {
    SameStep(a, b);
    RoundedFromStart(a);
    RoundedFromStart(b);
  }

  /** The code keeps the order of two numbers exactly outside that family of pairs. */
  lemma CodeKeepsOrderIff(a: nat, b: nat)
    requires a <= b
    ensures RoundedByCode(a) <= RoundedByCode(b) <==> !Overtakes(a, b)
  {
    if Excess(b) == 0 {
      ShortIsRepresentable(b);
      StaysBelow(a, b);
    } else if StepStart(b) <= a {
      OrderWithinStep(a, b);
    } else {
      RoundedFromStart(b);
      StartOnGrid(b);
      StaysBelow(a, StepStart(b));
    }
  }

  /** With the longer mask the order is kept always. */
  lemma FullMaskKeepsOrder(a: nat, b: nat)
    requires a <= b
    ensures RoundedByFullMask(a) <= RoundedByFullMask(b)
  {
    if Excess(b) == 0 {
      ShortIsRepresentable(b);
      StaysBelow(a, b);
    } else if StepStart(b) <= a {
      OrderWithinStep(a, b);
    } else {
      RoundedFromStart(b);
      StartOnGrid(b);
      StaysBelow(a, StepStart(b));
    }
  }

  lemma OvertakingParts()
    ensures var b := Pow2(P + 2) + 6;
            Excess(b) == 3 && ShiftRight(b, 3) == Pow2(P - 1) && Low(b, 3) == 6 && Pow2(P - 1) % 2 == 0
  {
    var b := Pow2(P + 2) + 6;
    Pow2Monotone(3, P + 2);
    assert Pow2(3) == 8;
    BitsBound(b, P + 3);
    if Bits(b) <= P + 2 { Pow2Monotone(Bits(b), P + 2); }
    ShiftLeftTwice(1, P - 1, 3);
    SplitUnique(Pow2(P - 1), 6, 3);
    Pow2IsEven(P - 1);
  }

  /** `2^55 + 5` is rounded to a greater number than `2^55 + 6`. */
  lemma OrderReversed()
    ensures RoundedByCode(Pow2(P + 2) + 5) > RoundedByCode(Pow2(P + 2) + 6)
  {
    OvertakingParts();
    assert Pow2(1) == 2;
    CodeKeepsOrderIff(Pow2(P + 2) + 5, Pow2(P + 2) + 6);
  }

  // ------------------------------------------------------------------ the size of the error

  /** It is exact on 53 bits, and never off by more than three quarters of a step. */
  lemma CodeError(x: nat)
    ensures Excess(x) == 0 ==> RoundedByCode(x) == x
    ensures 4 * Distance(x, RoundedByCode(x)) <= 3 * Pow2(Excess(x))
    ensures !Misrounds(x) ==> 2 * Distance(x, RoundedByCode(x)) <= Pow2(Excess(x))
  {
    var s := Excess(x);
    if s > 0 {
      CodeChooses(x);
      SplitAt(x, s);
      ShiftLeftAdds(ShiftRight(x, s), 1, s);
    }
  }

  // ------------------------------------------------------------------ the encoding

  /** Exponent and significand packed the way the code packs them are read back unchanged. */
  lemma PackedEncodes(m: nat, exponent: nat, y: nat)
    requires Pow2(P - 1) <= m < Pow2(P) && 0 < exponent < 2047
    requires ShiftLeft(m, exponent) == ShiftLeft(y, SCALE)
    ensures Encodes(ShiftLeft(exponent, P - 1) + Low(m, P - 1), y)
  {
    PackedParts(P - 1, m, exponent);
    var bits := ShiftLeft(exponent, P - 1) + Low(m, P - 1);
    var e, f := ShiftRight(bits, P - 1), Low(bits, P - 1);
    assert e == exponent && Pow2(P - 1) + f == m;
  }

  /** A field and the low bits of a significand of `w + 1` bits, packed next to each other, come apart again. */
  lemma PackedParts(w: nat, m: nat, field: nat)
    requires Pow2(w) <= m < Pow2(w + 1)
    ensures var bits := ShiftLeft(field, w) + Low(m, w);
            ShiftRight(bits, w) == field && Pow2(w) + Low(bits, w) == m
  {
    Pow2IsEven(w + 1);
    SplitUnique(1, m - Pow2(w), w);
    SplitUnique(field, Low(m, w), w);
  }

  const BIAS: nat := 1023

  lemma OneInParts()
    ensures ShiftRight(0x3ff0_0000_0000_0000, P - 1) == BIAS && Low(0x3ff0_0000_0000_0000, P - 1) == 0
  {
    Pow2Values();
    ShiftLeftIsProduct(BIAS, P - 1);
    SplitUnique(BIAS, 0, P - 1);
  }

  /** The number 1 has the encoding 0x3ff0000000000000. */
  lemma OneIsEncoded()
    ensures Encodes(0x3ff0_0000_0000_0000, 1)
  {
    OneInParts();
    ShiftLeftTwice(1, P - 1, BIAS);
  }

  lemma {:induction false} ShiftLeftInjective(a: nat, b: nat, e: nat)
    requires ShiftLeft(a, e) == ShiftLeft(b, e)
    ensures a == b
  {
    if e == 0 {
    } else {
      ShiftLeftInjective(a, b, e - 1);
    }
  }

  /** Scaled up by a larger exponent, even the smallest significand exceeds the largest. */
  lemma SmallerExponentIsSmaller(m: nat, d: nat, n: nat, e: nat)
    requires m < Pow2(P) && Pow2(P - 1) <= n && d < e
    ensures ShiftLeft(m, d) < ShiftLeft(n, e)
  {
    ShiftLeftAdds(m, 1, d);
    ShiftLeftMonotone(m + 1, Pow2(P), d);
    ShiftLeftTwice(1, P, d);
    Pow2Monotone(P + d, P - 1 + e);
    ShiftLeftTwice(1, P - 1, e);
    ShiftLeftMonotone(Pow2(P - 1), n, e);
  }

  /** A number has at most one encoding, so the encoding tells what was rounded. */
  lemma EncodingUnique(b: nat, c: nat, y: nat)
    requires Encodes(b, y) && Encodes(c, y)
    ensures b == c
  {
    var d, e := ShiftRight(b, P - 1), ShiftRight(c, P - 1);
    var m, n := Pow2(P - 1) + Low(b, P - 1), Pow2(P - 1) + Low(c, P - 1);
    if d < e {
      SmallerExponentIsSmaller(m, d, n, e);
    } else if e < d {
      SmallerExponentIsSmaller(n, e, m, d);
    } else {
      ShiftLeftInjective(m, n, d);
      SplitAt(b, P - 1);
      SplitAt(c, P - 1);
    }
  }

  /** A short number moves up until it has exactly 53 bits. */
  lemma NormalizedUp(x: nat)
    requires x > 0 && Bits(x) <= P
    ensures Pow2(P - 1) <= ShiftLeft(x, P - Bits(x)) < Pow2(P)
    ensures ShiftLeft(ShiftLeft(x, P - Bits(x)), SCALE - (P - Bits(x))) == ShiftLeft(x, SCALE)
  {
    MovedUp(x, Bits(x), P - Bits(x));
    ShiftLeftTwice(x, P - Bits(x), SCALE - (P - Bits(x)));
  }

  lemma MovedUp(x: nat, b: nat, n: nat)
    requires b > 0 && Pow2(b - 1) <= x < Pow2(b)
    ensures Pow2(b - 1 + n) <= ShiftLeft(x, n) < Pow2(b + n)
  {
    ShiftLeftMonotone(Pow2(b - 1), x, n);
    ShiftLeftTwice(1, b - 1, n);
    ShiftLeftAdds(x, 1, n);
    ShiftLeftMonotone(x + 1, Pow2(b), n);
    ShiftLeftTwice(1, b, n);
  }

  /** Rounding leaves 53 bits, or exactly the 54-bit power of two, which the carry step halves. */
  lemma NormalizedDown(x: nat, m: nat)
    requires Excess(x) > 0 && RoundedByCode(x) == ShiftLeft(m, Excess(x)) && Pow2(P - 1) <= m <= Pow2(P)
    ensures ShiftLeft(m, SCALE + Excess(x)) == ShiftLeft(RoundedByCode(x), SCALE)
  {
    ShiftLeftTwice(m, Excess(x), SCALE);
  }

  /** Halved, the 54-bit power of two takes the next exponent. */
  lemma Halved(exponent: nat)
    ensures ShiftLeft(Pow2(P - 1), exponent + 1) == ShiftLeft(Pow2(P), exponent)
  {
    ShiftLeftTwice(1, P, exponent);
    ShiftLeftTwice(1, P - 1, exponent + 1);
  }

  /** Bit 53 is set exactly after a carry. */
  lemma CarryBit(m: nat)
    requires Pow2(P - 1) <= m <= Pow2(P)
    ensures ShiftRight(m, P) % 2 > 0 <==> m == Pow2(P)
    ensures m == Pow2(P) ==> m / 2 == Pow2(P - 1)
  {
    if m == Pow2(P) { SplitUnique(1, 0, P); } else { SplitUnique(0, m, P); }
    ShiftLeftAdds(0, 0, P);
    Pow2IsEven(P);
  }

  const U64_BITS: nat := 64

  /** The conversions of the significand to 64 bits cannot fail. */
  lemma FitsU64(m: nat)
    requires m <= Pow2(P)
    ensures m < Pow2(U64_BITS)
  {
    Pow2Monotone(P + 1, U64_BITS);
  }

  /** Shifts the excess bits out and rounds by what they were. */
  method ShiftOut(x: nat, n: nat) returns (significant: nat)
    requires n == Excess(x) > 0
    ensures RoundedByCode(x) == ShiftLeft(significant, n)
    ensures Pow2(P - 1) <= significant <= Pow2(P)
  {
    var lsb, roundBit := ShiftRight(x, n) % 2, ShiftRight(x, n - 1) % 2;
    var sticky := Low(x, if n >= 2 then n - 2 else 0);
    var towardsZero := ShiftRight(x, n);
    if roundBit == 1 {
      if sticky == 0 {
        if lsb == 0 {
          significant := towardsZero;
        } else {
          significant := towardsZero + 1;
        }
      } else {
        significant := towardsZero + 1;
      }
    } else {
      significant := towardsZero;
    }
    KeptBits(x);
  }

  /** Leading zero bytes do not change what a string of bytes is rounded to, so they do not change its encoding. */
  lemma LeadingZerosDoNotMatter(n: nat, data: seq<Byte>, b: nat, c: nat)
    requires BigEndian(data) > 0
    requires Encodes(b, RoundedByCode(BigEndian(data))) && Encodes(c, RoundedByCode(BigEndian(Fill(n, 0) + data)))
    ensures b == c
  {
    ZeroFill(n, data);
    EncodingUnique(b, c, RoundedByCode(BigEndian(data)));
  }

  /** Takes a carry into the exponent and packs both fields; the result encodes `y`. */
  method Pack(m: nat, e: nat, ghost y: nat) returns (bits: nat)
    requires Pow2(P - 1) <= m <= Pow2(P) && 0 < e < 2046 && ShiftLeft(m, e) == ShiftLeft(y, SCALE)
    ensures Encodes(bits, y)
  {
    var significant, exponent := m, e;
    CarryBit(m);
    if ShiftRight(significant, P) % 2 > 0 {
      significant := significant / 2;
      exponent := exponent + 1;
      Halved(e);
    }
    PackedEncodes(significant, exponent, y);
    bits := ShiftLeft(exponent, P - 1) + Low(significant, P - 1);
  }

  /** Shifts a number up or down until it has 53 bits, and says by how much. */
  method Normalize(x: nat) returns (significant: nat, exponent: nat)
    requires 0 < Bits(x) <= 256
    ensures Pow2(P - 1) <= significant <= Pow2(P) && 0 < exponent < 2046
    ensures ShiftLeft(significant, exponent) == ShiftLeft(RoundedByCode(x), SCALE)
  {
    var shifts: int := P - Bits(x);
    exponent := 1023 + 52 - shifts;
    if shifts >= 0 {
      significant := ShiftLeft(x, shifts);
      NormalizedUp(x);
    } else {
      significant := ShiftOut(x, -shifts);
      NormalizedDown(x, significant);
    }
  }

  /** The conversion: the bits of the binary64 number, or nothing for more than 32 bytes. */
  method BytesToF64(data: seq<Byte>) returns (r: Option<nat>)
    ensures r.None? <==> |data| > 32
    ensures r.Some? && BigEndian(data) == 0 ==> r == Some(0)
    ensures r.Some? && BigEndian(data) > 0 ==> Encodes(r.value, RoundedByCode(BigEndian(data)))
  {
    if |data| > 32 { return None; }
    var x := BigEndian(data);
    if x == 0 { return Some(0); }
    BigEndianBound(data);
    BitsBound(x, 8 * |data|);
    var significant, exponent := Normalize(x);
    FitsU64(significant);
    var bits := Pack(significant, exponent, RoundedByCode(x));
    r := Some(bits);
  }
}
