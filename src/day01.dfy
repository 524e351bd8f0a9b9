/** Day 1 (aoc/d01.py; d01.py holds the same two functions): the fuel a module
    needs for its weight, without and with the fuel for the fuel. Python's `//`
    floors, which for the divisor 3 is Dafny's `/`. */
module Day01 {

  /** `get_fuel_req`: a third of the weight rounded down, less 2. */
  function FuelReq(weight: int): (r: int)
    ensures 3 * (r + 2) <= weight < 3 * (r + 3)
  {
    weight / 3 - 2
  }

  /** `get_fuel_req_recur`: the fuel for the weight, then the fuel for that
      fuel, and so on while it is positive. The result is never negative, and
      whenever the weight itself needs fuel it is at least that much. */
  function FuelReqRecur(weight: int): (r: int)
    ensures r >= 0
    ensures FuelReq(weight) > 0 ==> r >= FuelReq(weight)
    ensures FuelReq(weight) <= 0 <==> r == 0
    decreases weight
  {
    var f := weight / 3 - 2;
    if f <= 0 then 0 else f + FuelReqRecur(f)
  }

  /** The fuel needed for a positive fuel amount is less than that amount, so
      the recursion descends. */
  lemma FuelShrinks(weight: int)
    requires FuelReq(weight) > 0
    ensures 0 < FuelReq(weight) < weight
  {
  }

  /** A heavier module never needs less fuel, with or without the fuel for the
      fuel. */
  lemma {:induction false} FuelMonotone(w1: int, w2: int)
    requires w1 <= w2
    ensures FuelReq(w1) <= FuelReq(w2)
    ensures FuelReqRecur(w1) <= FuelReqRecur(w2)
    decreases w2
  {
    var f1, f2 := FuelReq(w1), FuelReq(w2);
    if f1 > 0 {
      FuelMonotone(f1, f2);
    }
  }

  /** The recursive requirement is the first requirement plus the recursive
      requirement of that fuel, and never more than the weight itself. */
  lemma {:induction false} FuelReqRecurBelowWeight(weight: int)
    ensures FuelReqRecur(weight) <= if weight > 0 then weight else 0
    decreases weight
  {
    var f := FuelReq(weight);
    if f > 0 {
      FuelReqRecurBelowWeight(f);
    }
  }

  /** The test vectors of `get_fuel_req`. */
  lemma FuelReqExamples()
    ensures FuelReq(12) == 2 && FuelReq(14) == 2
    ensures FuelReq(1969) == 654 && FuelReq(100756) == 33583
  {
  }

  /** The test vectors of `get_fuel_req_recur`. */
  lemma FuelReqRecurExamples()
    ensures FuelReqRecur(12) == 2 && FuelReqRecur(14) == 2
    ensures FuelReqRecur(1969) == 966
    ensures FuelReqRecur(100756) == 50346
  {
    assert FuelReqRecur(5) == 0;
    assert FuelReqRecur(21) == 5;
    assert FuelReqRecur(70) == 26;
    assert FuelReqRecur(216) == 96;
    assert FuelReqRecur(654) == 312;
    assert FuelReqRecur(2) == 0;
    assert FuelReqRecur(43) == 14;
    assert FuelReqRecur(135) == 57;
    assert FuelReqRecur(411) == 192;
    assert FuelReqRecur(1240) == 603;
    assert FuelReqRecur(3728) == 1843;
    assert FuelReqRecur(11192) == 5571;
    assert FuelReqRecur(33583) == 16763;
  }
}
