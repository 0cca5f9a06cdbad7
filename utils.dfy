/** The numeric and id helpers of the backend: `Math.round` on exact values,
    quantisation of a gram amount to whole 100 g units, rounding an amount
    of hundredths of a cent to cents, and the short random id. */
module Utils {

  import opened Js
  import Text

  /** `Math.round(x)`: the nearest integer, halves rounded up. */
  function Round(x: real): (r: int)
    ensures r as real - 0.5 <= x < r as real + 0.5
  {
    (x + 0.5).Floor
  }

  function Max(a: int, b: int): int {
    if a < b then b else a
  }

  /** `clampTo100g`: non-finite input gives 100, anything else is rounded to
      the nearest multiple of 100 and raised to at least 100. */
  function ClampTo100g(grams: Number): (r: int)
    ensures r >= 100 && r % 100 == 0
    ensures !grams.Finite? ==> r == 100
  {
    match grams
    case Finite(g) => Max(100, Round(g / 100.0) * 100)
    case _ => 100
  }

  /** The result is the multiple of 100 nearest to the input, halves going
      up; inputs below 50 g all give the 100 g minimum. */
  lemma ClampNearest(g: real)
    ensures g < 50.0 ==> ClampTo100g(Finite(g)) == 100
    ensures g >= 50.0 ==>
      var r := ClampTo100g(Finite(g)) as real;
      r - 50.0 <= g < r + 50.0
  {
    var k := Round(g / 100.0);
    assert k as real - 0.5 <= g / 100.0 < k as real + 0.5;
    assert (k * 100) as real == k as real * 100.0;
    if g < 50.0 {
      assert k <= 0;
    } else {
      assert k >= 1;
    }
  }

  /** The examples the quantisation is known by: 150 g gives 200 g, 149 g gives
      100 g, 250 g gives 300 g, and 0 g or -50 g give the minimum. */
  lemma ClampExamples()
    ensures ClampTo100g(Finite(150.0)) == 200
    ensures ClampTo100g(Finite(149.0)) == 100
    ensures ClampTo100g(Finite(250.0)) == 300
    ensures ClampTo100g(Finite(0.0)) == 100
    ensures ClampTo100g(Finite(-50.0)) == 100
    ensures ClampTo100g(NaN) == 100
  {
    ClampNearest(150.0);
    ClampNearest(149.0);
    ClampNearest(250.0);
  }

  /** Whole 100 g units of at least 100 g are left as they are. */
  lemma ClampKeepsHundreds(k: int)
    requires k >= 1
    ensures ClampTo100g(Finite((100 * k) as real)) == 100 * k
  {
    assert (100 * k) as real / 100.0 == k as real;
  }

  /** Quantising an already quantised amount changes nothing. */
  lemma ClampIdempotent(grams: Number)
    ensures ClampTo100g(Finite(ClampTo100g(grams) as real)) == ClampTo100g(grams)
  {
    var r := ClampTo100g(grams);
    ClampKeepsHundreds(r / 100);
    assert 100 * (r / 100) == r;
  }

  /** More grams never quantise to fewer. */
  lemma ClampMonotone(g1: real, g2: real)
    requires g1 <= g2
    ensures ClampTo100g(Finite(g1)) <= ClampTo100g(Finite(g2))
  {
    var k1, k2 := Round(g1 / 100.0), Round(g2 / 100.0);
    assert g1 / 100.0 <= g2 / 100.0;
    assert k1 <= k2;
  }

  /** `round2` applied to an amount held in hundredths of a cent: the nearest
      whole number of cents, halves rounded up. */
  function RoundToCents(hundredths: int): (r: int)
    ensures 100 * r - 50 <= hundredths < 100 * r + 50
  {
    (hundredths + 50) / 100
  }

  /** An amount already in whole cents is not changed by rounding, and no
      other whole number of cents could have been chosen. */
  lemma RoundToCentsExact(hundredths: int, c: int)
    ensures hundredths % 100 == 0 ==> RoundToCents(hundredths) == hundredths / 100
    ensures 100 * c - 50 <= hundredths < 100 * c + 50 ==> RoundToCents(hundredths) == c
  {
  }

  /** `id(prefix)`: prefix, the clock in hexadecimal and the random hex digits,
      cut to 18 characters. The clock and the random digits are inputs. */
  function Id(prefix: string, nowMs: nat, randomHex: string): (r: string)
    ensures |r| <= 18
    ensures r <= prefix + Text.ToBase(nowMs, 16) + randomHex
    ensures |prefix + Text.ToBase(nowMs, 16) + randomHex| >= 18 ==> |r| == 18
  {
    var full := prefix + Text.ToBase(nowMs, 16) + randomHex;
    if |full| <= 18 then full else full[..18]
  }
}
