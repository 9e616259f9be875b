/** Which prices may be acted on. */
module PriceService {
  import opened Wrappers
  import opened DecimalText
  import opened Orders
  import opened Trigger

  datatype Quote = Quote(price: string, observedAt: int)

  /** What a provider does: `Unavailable` is the one error that a cross-check may have. */
  datatype Answer = Quoted(quote: Quote) | Unavailable | OtherError

  datatype PriceError = PrimaryFailed | Stale | NotADecimal | ZeroPrice | Diverges | CrossCheckFailed

  datatype Options = Options(maxStalenessSec: nat, maxDivergenceBps: nat)

  function Gap(a: nat, b: nat): nat { if a > b then a - b else b - a }

  /** What is wrong with the primary price in the light of the cross-check, if anything. */
  function Disagreement(opt: Options, price: string, crossCheck: Answer): Option<PriceError> {
    match crossCheck
    case Unavailable => None
    case OtherError => Some(CrossCheckFailed)
    case Quoted(q) =>
      match (ToScaled(price), ToScaled(q.price))
      case (Some(a), Some(b)) =>
        if a == 0 then Some(ZeroPrice)
        else if Gap(a, b) * 10000 / a > opt.maxDivergenceBps then Some(Diverges)
        else None
      case (_, _) => Some(NotADecimal)
  }

  /** `crossCheck` is None when none is configured or it does not support the asset. */
  function GetValidatedPrice(opt: Options, now: int, primary: Answer,
                             crossCheck: Option<Answer>): Result<Quote, PriceError> {
    if !primary.Quoted? then Failure(PrimaryFailed)
    else if now - primary.quote.observedAt > 1000 * opt.maxStalenessSec then Failure(Stale)
    else if crossCheck.None? then Success(primary.quote)
    else match Disagreement(opt, primary.quote.price, crossCheck.value)
      case Some(e) => Failure(e)
      case None => Success(primary.quote)
  }

  /**
   The guard accepts exactly the fresh prices that no answering cross-check
   contradicts, and the bound it enforces is this one, on prices scaled to 18
   decimals: the gap is less than (maxDivergenceBps + 1) ten-thousandths of the primary.
   */
  lemma AcceptsExactly(opt: Options, now: int, primary: Answer, crossCheck: Option<Answer>)
    ensures GetValidatedPrice(opt, now, primary, crossCheck).Success? <==>
            && primary.Quoted?
            && now - primary.quote.observedAt <= 1000 * opt.maxStalenessSec
            && (crossCheck.Some? && !crossCheck.value.Unavailable? ==>
                  && crossCheck.value.Quoted?
                  && ToScaled(primary.quote.price).Some? && ToScaled(crossCheck.value.quote.price).Some?
                  && var a, b := ToScaled(primary.quote.price).value, ToScaled(crossCheck.value.quote.price).value;
                     Gap(a, b) * 10000 < (opt.maxDivergenceBps + 1) * a)
  {
    if crossCheck.Some? && crossCheck.value.Quoted? && primary.Quoted? {
      var a, b := ToScaled(primary.quote.price), ToScaled(crossCheck.value.quote.price);
      if a.Some? && b.Some? && a.value > 0 {
        QuotientBelow(Gap(a.value, b.value) * 10000, a.value, opt.maxDivergenceBps);
      }
    }
  }

  /**
   What is wrong, when something is: the primary is asked first and may fail, then its
   age counts, then the cross-check may fail in its own way; after that both texts have
   to be numbers and the primary not zero, and what is left is too far apart.
   */
  lemma RefusesExactly(opt: Options, now: int, primary: Answer, crossCheck: Option<Answer>)
    ensures var r := GetValidatedPrice(opt, now, primary, crossCheck);
      && (r.Success? ==> primary.Quoted? && r.value == primary.quote)
      && (r == Failure(PrimaryFailed) <==> !primary.Quoted?)
      && (r == Failure(Stale) <==> primary.Quoted? && now > primary.quote.observedAt + 1000 * opt.maxStalenessSec)
      && (primary.Quoted? && now <= primary.quote.observedAt + 1000 * opt.maxStalenessSec ==>
            && (r == Failure(CrossCheckFailed) <==> crossCheck == Some(OtherError))
            && (crossCheck.Some? && crossCheck.value.Quoted? ==>
                  var a, b := ToScaled(primary.quote.price), ToScaled(crossCheck.value.quote.price);
                  && (r == Failure(NotADecimal) <==> a.None? || b.None?)
                  && (r == Failure(ZeroPrice) <==> a == Some(0) && b.Some?)
                  && (r == Failure(Diverges) <==>
                        a.Some? && b.Some? && a.value > 0
                        && Gap(a.value, b.value) * 10000 >= (opt.maxDivergenceBps + 1) * a.value)))
  {
    if crossCheck.Some? && crossCheck.value.Quoted? && primary.Quoted? {
      var a, b := ToScaled(primary.quote.price), ToScaled(crossCheck.value.quote.price);
      if a.Some? && b.Some? && a.value > 0 {
        QuotientBelow(Gap(a.value, b.value) * 10000, a.value, opt.maxDivergenceBps);
      }
    }
  }

  lemma QuotientBelow(x: nat, d: nat, k: nat)
    requires d > 0
    ensures x / d <= k <==> x < (k + 1) * d
  {
    var q := x / d;
    assert x == q * d + x % d;
    assert q <= k ==> q * d <= k * d;
    assert q > k ==> q * d >= (k + 1) * d;
  }

  // ---- what firing means for the other source --------------------------------

  /** The price is accepted although the cross-check was heard, and it fires the order. */
  predicate Fires(opt: Options, now: int, price: Quote, crossCheck: Quote, side: Side, trigger: nat) {
    && GetValidatedPrice(opt, now, Quoted(price), Some(Quoted(crossCheck))).Success?
    && ExactOf(price.price).Some?
    && IsTriggered(side, trigger, ExactOf(price.price).value)
  }

  lemma FiringPrices(opt: Options, now: int, price: Quote, crossCheck: Quote, side: Side, trigger: nat)
    returns (a: nat, b: nat)
    requires Fires(opt, now, price, crossCheck, side, trigger)
    ensures ToScaled(price.price) == Some(a) && ToScaled(crossCheck.price) == Some(b)
    ensures Gap(a, b) * 10000 < (opt.maxDivergenceBps + 1) * a
    ensures side.SELL? ==> a <= trigger
    ensures side.BUY? ==> a >= trigger
  {
    AcceptsExactly(opt, now, Quoted(price), Some(Quoted(crossCheck)));
    a, b := ToScaled(price.price).value, ToScaled(crossCheck.price).value;
    ScaledRoundsDown(price.price);
    RoundedFires(side, trigger, ExactOf(price.price).value);
  }

  /** A SELL fires only while the second source, too, is below the trigger plus the divergence allowed. */
  lemma SellFiresWithinBound(opt: Options, now: int, price: Quote, crossCheck: Quote, trigger: nat)
    requires Fires(opt, now, price, crossCheck, SELL, trigger)
    ensures ToScaled(crossCheck.price).Some?
    ensures ToScaled(crossCheck.price).value * 10000 < trigger * (10001 + opt.maxDivergenceBps)
  {
    var a, b := FiringPrices(opt, now, price, crossCheck, SELL, trigger);
    BelowMargin(a, b, trigger, opt.maxDivergenceBps);
  }

  lemma BelowMargin(a: nat, b: nat, trigger: nat, maxBps: nat)
    requires a <= trigger && Gap(a, b) * 10000 < (maxBps + 1) * a
    ensures b * 10000 < trigger * (10001 + maxBps)
  {
    Product(a, trigger, 10001 + maxBps);
    assert a * (10001 + maxBps) == 10000 * a + (maxBps + 1) * a;
  }

  /** A BUY fires only while the second source, too, is above the trigger less the divergence allowed. */
  lemma BuyFiresWithinBound(opt: Options, now: int, price: Quote, crossCheck: Quote, trigger: nat)
    requires Fires(opt, now, price, crossCheck, BUY, trigger)
    requires trigger > 0 || opt.maxDivergenceBps <= 9999
    ensures ToScaled(crossCheck.price).Some?
    ensures ToScaled(crossCheck.price).value * 10000 > trigger * (9999 - opt.maxDivergenceBps)
  {
    var a, b := FiringPrices(opt, now, price, crossCheck, BUY, trigger);
    AboveMargin(a, b, trigger, opt.maxDivergenceBps);
  }

  lemma AboveMargin(a: nat, b: nat, trigger: nat, maxBps: nat)
    requires a >= trigger && Gap(a, b) * 10000 < (maxBps + 1) * a && (trigger > 0 || maxBps <= 9999)
    ensures b * 10000 > trigger * (9999 - maxBps)
  {
    var margin := 9999 - maxBps;
    assert a * margin == 10000 * a - (maxBps + 1) * a;
    if margin >= 0 {
      Product(trigger, a, margin);
    } else {
      Product(1, trigger, -margin);
      assert trigger * margin == -(trigger * -margin);
    }
  }

  /**
   The BUY bound holds of every firing exactly when the trigger is positive or the
   allowed divergence is below 100%: otherwise a cross-check of 0 lets it fire.
   */
  lemma BuyBoundExactly(opt: Options, trigger: nat)
    ensures (trigger > 0 || opt.maxDivergenceBps <= 9999) <==>
            forall now, price, crossCheck :: Fires(opt, now, price, crossCheck, BUY, trigger) ==>
              ToScaled(crossCheck.price).Some? &&
              ToScaled(crossCheck.price).value * 10000 > trigger * (9999 - opt.maxDivergenceBps)
  {
    if trigger > 0 || opt.maxDivergenceBps <= 9999 {
      forall now, price, crossCheck | Fires(opt, now, price, crossCheck, BUY, trigger)
        ensures ToScaled(crossCheck.price).Some?
        ensures ToScaled(crossCheck.price).value * 10000 > trigger * (9999 - opt.maxDivergenceBps)
      {
        BuyFiresWithinBound(opt, now, price, crossCheck, trigger);
      }
    } else {
      ZeroCrossCheckFires(opt);
    }
  }

  /**
   What the API takes for a trigger price: digits, or digits, a dot and at most 18
   digits more, and more than zero. The column holds it exactly.
   */
  predicate AcceptedTrigger(text: string) {
    var (whole, frac) := Split(text);
    && whole != "" && Digits(whole) && Digits(frac) && |frac| <= 18
    && (text == whole || (frac != "" && text == whole + "." + frac))
    && Value(whole + frac) > 0
  }

  /** The two parts make up the text. */
  lemma AcceptedParts(text: string)
    requires AcceptedTrigger(text)
    ensures var (whole, frac) := Split(text);
      && Text(whole, frac, text != whole) == text && (text == whole ==> frac == "")
      && Digits(whole + frac) && ExactOf(text) == Some(Decimal(Value(whole + frac), |frac|))
  {
    var (whole, frac) := Split(text);
    if text == whole { SplitText(whole, "", false); }
  }

  /** The scaled trigger is the number of the text, exactly, and positive. */
  lemma AcceptedIsPositive(text: string, scale: nat)
    requires AcceptedTrigger(text) && scale >= 18
    ensures ExactOf(text).Some? && ExactOf(text).value.places <= 18
    ensures var d := ExactOf(text).value; Scaled(text, scale) == Some(d.units * Pow10(scale - d.places))
    ensures Scaled(text, scale).value > 0
  {
    var (whole, frac) := Split(text);
    AcceptedParts(text);
    ScaledPads(whole, frac, text != whole, scale);
    Positive(Value(whole + frac), Pow10(scale - |frac|));
  }

  lemma Positive(x: nat, y: nat)
    requires x > 0 && y > 0
    ensures x * y > 0
  {
  }

  /** So the BUY bound holds of every order that was created through the API, whatever divergence is allowed. */
  lemma BuyBoundOfCreatedOrders(opt: Options, now: int, price: Quote, crossCheck: Quote, text: string)
    requires AcceptedTrigger(text)
    requires ToScaled(text).Some? && Fires(opt, now, price, crossCheck, BUY, ToScaled(text).value)
    ensures ToScaled(crossCheck.price).Some?
    ensures ToScaled(crossCheck.price).value * 10000 > ToScaled(text).value * (9999 - opt.maxDivergenceBps)
  {
    AcceptedIsPositive(text, 18);
    BuyFiresWithinBound(opt, now, price, crossCheck, ToScaled(text).value);
  }

  lemma ZeroCrossCheckFires(opt: Options)
    requires opt.maxDivergenceBps > 9999
    ensures Fires(opt, 0, Quote("1", 0), Quote("0", 0), BUY, 0) && ToScaled("0") == Some(0)
  {
    ZeroCrossCheckAccepted(opt);
    OneIsExact();
  }

  lemma ZeroCrossCheckAccepted(opt: Options)
    requires opt.maxDivergenceBps > 9999
    ensures GetValidatedPrice(opt, 0, Quoted(Quote("1", 0)), Some(Quoted(Quote("0", 0)))).Success?
    ensures ToScaled("0") == Some(0)
  {
    OneAndZero(18);
    AcceptsExactly(opt, 0, Quoted(Quote("1", 0)), Some(Quoted(Quote("0", 0))));
    Product(10001, opt.maxDivergenceBps + 1, Pow10(18));
  }

  lemma OneAndZero(scale: nat)
    ensures Scaled("1", scale) == Some(Pow10(scale)) && Scaled("0", scale) == Some(0)
  {
    Zero(scale);
    One(scale);
  }

  lemma Zero(scale: nat)
    ensures Scaled("0", scale) == Some(0)
  {
    ValueOfZeros("0");
    WholeNumber("0", scale);
  }

  lemma One(scale: nat)
    ensures Scaled("1", scale) == Some(Pow10(scale))
  {
    assert Value("1") == 1 by { assert "1"[..0] == ""; }
    WholeNumber("1", scale);
  }

  lemma OneIsExact()
    ensures ExactOf("1").Some?
  {
    SplitText("1", "", false);
    assert "1" + "" == "1";
  }

  lemma WholeNumber(digits: string, scale: nat)
    requires Digits(digits)
    ensures Scaled(digits, scale) == Some(Value(digits) * Pow10(scale))
  {
    SplitText(digits, "", false);
    PadsExactly(digits, "", scale);
    assert digits + "" == digits;
  }
}
