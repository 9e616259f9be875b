/** Whether a market price fires an order. */
module Trigger {
  import opened Wrappers
  import opened DecimalText
  import opened Orders

  /** The number units / 10^places, exactly. */
  datatype Decimal = Decimal(units: nat, places: nat)

  /** The number that a text of digits, with a dot or without, denotes. */
  function ExactOf(text: string): Option<Decimal> {
    var (whole, frac) := Split(text);
    if (text == whole || text == whole + "." + frac) && whole + frac != "" && Digits(whole + frac)
    then Some(Decimal(Value(whole + frac), |frac|))
    else None
  }

  /** toScaled rounds the exact number down to 18 decimals. */
  lemma ScaledRoundsDown(text: string)
    requires ExactOf(text).Some?
    ensures var d := ExactOf(text).value; ToScaled(text) == Some(d.units * Pow10(18) / Pow10(d.places))
  {
    var (whole, frac) := Split(text);
    assert forall i :: 0 <= i < |whole| ==> (whole + frac)[i] == whole[i];
    assert forall i :: 0 <= i < |frac| ==> (whole + frac)[|whole| + i] == frac[i];
    ScaledIsFloor(whole, frac, text != whole, 18);
  }

  /** `trigger` counts units of 10^-18. */
  predicate IsTriggered(side: Side, trigger: nat, price: Decimal) {
    match side
    case SELL => price.units * Pow10(18) <= trigger * Pow10(price.places)
    case BUY => price.units * Pow10(18) >= trigger * Pow10(price.places)
  }

  /** Every price fires a SELL or a BUY at a given trigger, and both exactly at the trigger itself. */
  lemma BothFireExactlyAtTheTrigger(trigger: nat, price: Decimal)
    ensures IsTriggered(SELL, trigger, price) || IsTriggered(BUY, trigger, price)
    ensures IsTriggered(SELL, trigger, price) && IsTriggered(BUY, trigger, price)
            <==> price.units * Pow10(18) == trigger * Pow10(price.places)
  {
  }

  /** The price rounded down to 18 decimals is on the same side of the trigger. */
  lemma RoundedFires(side: Side, trigger: nat, price: Decimal)
    requires IsTriggered(side, trigger, price)
    ensures var a := price.units * Pow10(18) / Pow10(price.places);
            (side.SELL? ==> a <= trigger) && (side.BUY? ==> a >= trigger)
  {
    QuotientAgainst(price.units * Pow10(18), Pow10(price.places), trigger);
  }

  lemma QuotientAgainst(x: nat, d: nat, t: nat)
    requires d > 0
    ensures x <= t * d ==> x / d <= t
    ensures x >= t * d ==> x / d >= t
  {
    var q := x / d;
    assert x == q * d + x % d;
    if q > t { Product(t + 1, q, d); }
    if q < t { Product(q + 1, t, d); }
  }

  lemma Product(x: nat, y: nat, k: int)
    requires x <= y && k >= 0
    ensures x * k <= y * k
  {
  }
}
