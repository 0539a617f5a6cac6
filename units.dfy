/**
 * Volume conversion between US fluid ounces and integer microlitres
 * (feed_baby/units.py). One US fluid ounce is exactly 29573.5 microlitres.
 */
module Units {
  import opened DecimalRounding

  /** OZ_TO_MICROLITERS. */
  const OzToMicroliters: real := 29573.5

  /**
   * MICROLITERS_TO_OZ: `Decimal("1") / Decimal("29573.5")` computed in the default
   * 28-significant-digit context. It differs from 1/29573.5 by less than 1e-32.
   */
  const MicrolitersToOzApprox: real := 0.00003381405650328841699494479855

  /** True of a decimal that has at most two places after the point. */
  predicate IsHundredths(x: real) {
    (x * 100.0).Floor as real == x * 100.0
  }

  lemma WholeHundredths(n: int)
    ensures IsHundredths(n as real / 100.0)
  {
    assert n as real / 100.0 * 100.0 == n as real;
  }

  /** ounces * 29573.5 quantized to an integer with ROUND_HALF_UP. */
  function OuncesToMicroliters(ounces: real): (microliters: int)
    ensures Abs(microliters as real - ounces * OzToMicroliters) <= 0.5
    ensures Abs(microliters as real - ounces * OzToMicroliters) == 0.5 ==>
              Abs(microliters as real) > Abs(ounces * OzToMicroliters)
    ensures ounces >= 0.0 ==> microliters >= 0
  {
    RoundHalfUp(ounces * OzToMicroliters)
  }

  /**
   * microliters / 29573.5 quantized to two decimal places with ROUND_HALF_UP.
   * The exact quotient is used; MicrolitersApproxAgrees shows that the source's
   * 28-digit reciprocal gives the same result.
   */
  function MicrolitersToOunces(microliters: int): (ounces: real)
    ensures IsHundredths(ounces)
    ensures Abs(ounces - microliters as real / OzToMicroliters) < 0.005
    ensures microliters >= 0 ==> ounces >= 0.0
  {
    var hundredths := RoundHalfUp(microliters as real / OzToMicroliters * 100.0);
    NeverHalfway(microliters, hundredths);
    NeverHalfway(microliters, hundredths - 1);
    WholeHundredths(hundredths);
    hundredths as real / 100.0
  }

  /**
   * A whole number of microlitres is never exactly halfway between two hundredths
   * of an ounce: 100*m/29573.5 = 2000*m/591470 and 2000*m is even while
   * 295735*(2k+1) is odd. The gap is at least 1/591470.
   */
  lemma NeverHalfway(m: int, k: int)
    ensures Abs(m as real / OzToMicroliters * 100.0 - (k as real + 0.5)) >= 1.0 / 591470.0
  {
    var n := 2000 * m - 295735 * (2 * k + 1);
    assert n == 2 * (1000 * m - 295735 * k) - 295735;
    assert n != 0;
    var gap := m as real / OzToMicroliters * 100.0 - (k as real + 0.5);
    assert gap * 591470.0 == n as real;
  }

  /** Ounces with at most two decimals survive the trip to microlitres and back. */
  lemma RoundTrip(hundredths: int)
    ensures MicrolitersToOunces(OuncesToMicroliters(hundredths as real / 100.0))
            == hundredths as real / 100.0
  {
    var x := hundredths as real / 100.0;
    var u := OuncesToMicroliters(x);
    var y := u as real / OzToMicroliters * 100.0;
    assert Abs(y - hundredths as real) <= 0.5 / 295.735;
    NearestIsUnique(y, hundredths);
  }

  /**
   * The source multiplies by the 28-digit reciprocal and rounds the product to 28
   * significant digits before quantizing. For |m| <= 10^15 that product is within
   * 1e-12 of m * MicrolitersToOzApprox, and any such value rounds to the same
   * hundredths as the exact quotient.
   */
  lemma MicrolitersApproxAgrees(m: int, product: real)
    requires -1_000_000_000_000_000 <= m <= 1_000_000_000_000_000
    requires Abs(product - m as real * MicrolitersToOzApprox) <= 0.000_000_000_001
    ensures RoundHalfUp(product * 100.0) as real / 100.0 == MicrolitersToOunces(m)
  {
    ApproxIsClose(m, product);
    RoundingIsStable(m, product * 100.0);
  }

  /**
   * The two constants: a US fluid ounce is 29.5735 ml, and the reciprocal is
   * 1 / 29573.5 correctly rounded to 28 significant digits (its last digit is
   * in the 10^-32 place).
   */
  lemma Constants()
    ensures OzToMicroliters == 29.5735 * 1000.0
    ensures Abs(MicrolitersToOzApprox - 1.0 / OzToMicroliters) * 100_000_000_000_000_000_000_000_000_000_000.0 <= 0.5
  {
  }

  /** The source's product, scaled to hundredths, is within 1e-9 of the exact quotient. */
  lemma ApproxIsClose(m: int, product: real)
    requires -1_000_000_000_000_000 <= m <= 1_000_000_000_000_000
    requires Abs(product - m as real * MicrolitersToOzApprox) <= 0.000_000_000_001
    ensures Abs(product * 100.0 - m as real / OzToMicroliters * 100.0) <= 0.000_000_001
  {
    var delta := MicrolitersToOzApprox - 1.0 / OzToMicroliters;
    assert Abs(delta) <= 0.000_000_000_000_000_000_000_000_000_000_01;
    assert m as real * MicrolitersToOzApprox * 100.0 - m as real / OzToMicroliters * 100.0
           == m as real * delta * 100.0;
  }

  /** Anything within 1e-9 of m's exact quotient in hundredths rounds to the same hundredths. */
  lemma RoundingIsStable(m: int, y: real)
    requires Abs(y - m as real / OzToMicroliters * 100.0) <= 0.000_000_001
    ensures RoundHalfUp(y) == RoundHalfUp(m as real / OzToMicroliters * 100.0)
  {
    var exact := m as real / OzToMicroliters * 100.0;
    var n := RoundHalfUp(exact);
    NeverHalfway(m, n);
    NeverHalfway(m, n - 1);
    assert Abs(n as real - exact) <= 0.5 - 1.0 / 591470.0;
    NearestIsUnique(y, n);
  }

  lemma ExamplesOuncesToMicroliters()
    ensures OuncesToMicroliters(3.0) == 88721
    ensures OuncesToMicroliters(1.0) == 29574
    ensures OuncesToMicroliters(5.0) == 147868
    ensures OuncesToMicroliters(3.25) == 96114
    ensures OuncesToMicroliters(3.5) == 103507
    ensures OuncesToMicroliters(2.75) == 81327
  {
  }

  lemma ExamplesMicrolitersToOunces()
    ensures MicrolitersToOunces(88721) == 3.0
    ensures MicrolitersToOunces(96114) == 3.25
  {
    NearestIsUnique(88721.0 / OzToMicroliters * 100.0, 300);
    NearestIsUnique(96114.0 / OzToMicroliters * 100.0, 325);
  }
}
