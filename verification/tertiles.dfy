/**
 * Tertile classification of an hourly price within the [lowest, highest]
 * range of the chart window (`getPriceCategory` and its colour twin
 * `getColorForPrice`). Prices are integers (hundredths of an öre); the
 * thresholds `min + range * 0.33` and `min + range * 0.66` are compared
 * exactly by multiplying both sides by 100.
 */
module Tertiles {

  datatype Category = Low | Medium | High {
    /** Position of the category in the order low < medium < high. */
    function Rank(): nat {
      match this
      case Low => 0
      case Medium => 1
      case High => 2
    }
  }

  datatype Color = Green | Yellow | Red {
    /** The CSS colour the dashboard paints the class with. */
    function Hex(): string {
      match this
      case Green => "#2ecc71"
      case Yellow => "#f1c40f"
      case Red => "#e74c3c"
    }
  }

  /** `price <= lowest + (highest - lowest) * percent / 100`, without division. */
  predicate WithinThreshold(price: int, lowest: int, highest: int, percent: int) {
    100 * price <= 100 * lowest + percent * (highest - lowest)
  }

  /**
   * `getPriceCategory`, with the thresholds compared exactly: a price equal
   * to a threshold goes to the lower class.
   */
  function PriceCategory(price: int, lowest: int, highest: int): (c: Category)
    ensures c == Low <==> WithinThreshold(price, lowest, highest, 33)
    ensures c == Medium <==> !WithinThreshold(price, lowest, highest, 33) && WithinThreshold(price, lowest, highest, 66)
    ensures c == High <==> !WithinThreshold(price, lowest, highest, 66) && !WithinThreshold(price, lowest, highest, 33)
  {
    var range := highest - lowest;
    if 100 * price <= 100 * lowest + 33 * range then Low
    else if 100 * price <= 100 * lowest + 66 * range then Medium
    else High
  }

  /** `getColorForPrice`: the same thresholds, answered as a colour. */
  function ColorForPrice(price: int, lowest: int, highest: int): (c: Color)
    ensures c == Green <==> WithinThreshold(price, lowest, highest, 33)
    ensures c == Yellow <==> !WithinThreshold(price, lowest, highest, 33) && WithinThreshold(price, lowest, highest, 66)
    ensures c == Red <==> !WithinThreshold(price, lowest, highest, 66) && !WithinThreshold(price, lowest, highest, 33)
  {
    var range := highest - lowest;
    if 100 * price <= 100 * lowest + 33 * range then Green
    else if 100 * price <= 100 * lowest + 66 * range then Yellow
    else Red
  }

  /** The colour of a price is green, yellow or red exactly when its class is low, medium or high. */
  lemma ColorMatchesCategory(price: int, lowest: int, highest: int)
    ensures ColorForPrice(price, lowest, highest) == Green <==> PriceCategory(price, lowest, highest) == Low
    ensures ColorForPrice(price, lowest, highest) == Yellow <==> PriceCategory(price, lowest, highest) == Medium
    ensures ColorForPrice(price, lowest, highest) == Red <==> PriceCategory(price, lowest, highest) == High
  {
  }

  /** A dearer price never lands in a cheaper class. */
  lemma CategoryMonotone(p: int, q: int, lowest: int, highest: int)
    requires p <= q
    ensures PriceCategory(p, lowest, highest).Rank() <= PriceCategory(q, lowest, highest).Rank()
  {
  }

  /** In a non-degenerate range the lowest price is low and the highest is high. */
  lemma ExtremesClassified(lowest: int, highest: int)
    requires lowest <= highest
    ensures PriceCategory(lowest, lowest, highest) == Low
    ensures lowest < highest ==> PriceCategory(highest, lowest, highest) == High
  {
  }

  /** With a 0–100 öre range: 33 is low, 34 and 66 are medium, 67 is high. */
  lemma CategoryBoundaries()
    ensures PriceCategory(3300, 0, 10000) == Low
    ensures PriceCategory(3400, 0, 10000) == Medium
    ensures PriceCategory(6600, 0, 10000) == Medium
    ensures PriceCategory(6700, 0, 10000) == High
  {
  }

  /**
   * What a relational comparison sees: a number, or an object (a whole price
   * record) that JavaScript converts to NaN, so every `<=` with it is false.
   */
  datatype Operand = Number(n: int) | Object

  /** `v <= threshold` under JavaScript's coercion of the left operand. */
  predicate OperandAtMost(v: Operand, lowest: int, highest: int, percent: int) {
    match v
    case Number(n) => WithinThreshold(n, lowest, highest, percent)
    case Object => false
  }

  /** `getPriceCategory` applied to whatever it is handed, as the source writes the call. */
  function CategoryOfOperand(v: Operand, lowest: int, highest: int): (c: Category)
    ensures v.Number? ==> c == PriceCategory(v.n, lowest, highest)
    ensures v.Object? ==> c == High
  {
    if OperandAtMost(v, lowest, highest, 33) then Low
    else if OperandAtMost(v, lowest, highest, 66) then Medium
    else High
  }
}
