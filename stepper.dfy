/** The quantity stepper of the storefront: one press moves the amount by
    100 g, and the minus button never goes below 100 g. */
module Stepper {

  /** The minus button: 100 g less, but never under 100 g. */
  function Dec(grams: int): (r: int)
    ensures r >= 100
    ensures r >= grams - 100
    ensures grams >= 200 ==> r == grams - 100
  {
    if grams - 100 > 100 then grams - 100 else 100
  }

  /** The plus button: 100 g more. */
  function Inc(grams: int): (r: int)
    ensures r - grams == 100
  {
    grams + 100
  }

  /** Minus undoes plus on any amount the stepper can show (100 g or more),
      plus undoes minus above the floor, and the floor is a fixed point of
      minus. */
  lemma StepperRoundTrips(grams: int)
    ensures grams >= 100 ==> Dec(Inc(grams)) == grams
    ensures grams >= 200 ==> Inc(Dec(grams)) == grams
    ensures Dec(100) == 100
    ensures grams <= 200 ==> Dec(grams) == 100
  {
  }

  /** Minus is monotone and never moves an amount of 100 g or more by more
      than 100 g; from any amount, it reaches the floor. */
  lemma DecMonotone(g1: int, g2: int)
    requires g1 <= g2
    ensures Dec(g1) <= Dec(g2)
    ensures g1 >= 100 ==> g1 - Dec(g1) <= 100
  {
  }
}
