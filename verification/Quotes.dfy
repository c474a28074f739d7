/** Prices: a promo percentage and the referral discount never stack, and rounding favours the shop by less than one. */
module Quotes {
  import opened Results
  import opened Schema
  import opened Handlers
  import opened Operations
  import opened Machine
  import opened Requests

  const DISCOUNT_PERCENT := 15

  datatype Plan = Plan(days: int, gigabytes: int, price: int, devices: int)

  /** The active plans and the prices of a custom plan. */
  datatype Catalogue = Catalogue(plans: map<string, Plan>, perDay: int, perGigabyte: int)

  /** What the customer asked for; a custom plan may miss its numbers. */
  datatype Product = Listed(id: string) | Custom(days: Option<int>, gigabytes: Option<int>)

  datatype PromoError = Missing | Unknown | Inactive | Expired | Full | AlreadyUsed | Invalid

  datatype Application = Application(code: string, kind: PromoKind, value: int, bonusDays: int, bonusGigabytes: int)

  datatype QuoteError = PlanUnavailable | NumbersMissing | OutOfRange

  datatype Quote = Quote(offer: Offer, base: int, discount: int, referral: int)

  // --- promo validation -----------------------------------------------------

  predicate HoldsReservation(t: Tables, user: int, code: string) {
    exists o | 0 <= o < |t.orders| ::
      t.orders[o].user == user && t.orders[o].promo == Some(code) && t.orders[o].status in {Pending, Paid, Completed}
  }

  function ValidatePromo(t: Tables, code: string, user: int, now: int): Result<Application, PromoError> {
    if code == "" then Failure(Missing)
    else if code !in t.promos then Failure(Unknown)
    else
      var promo := t.promos[code];
      if !promo.active then Failure(Inactive)
      else if promo.expires.Some? && promo.expires.value <= now then Failure(Expired)
      else if promo.maxUses != 0 && promo.used >= promo.maxUses then Failure(Full)
      else if HoldsReservation(t, user, code) then Failure(AlreadyUsed)
      else
        match promo.kind
        case Percent =>
          if 1 <= promo.value <= 100 then Success(Application(code, Percent, promo.value, 0, 0)) else Failure(Invalid)
        case Days =>
          if promo.value > 0 then Success(Application(code, Days, promo.value, promo.value, 0)) else Failure(Invalid)
        case Gigabytes =>
          if promo.value > 0 then Success(Application(code, Gigabytes, promo.value, 0, promo.value)) else Failure(Invalid)
  }

  // --- discounts ------------------------------------------------------------

  predicate DiscountEligible(t: Tables, user: int) {
    && Referrer(t, user).Some?
    && (forall o | 0 <= o < |t.orders| && t.orders[o].user == user ::
          && !(t.orders[o].status == Completed && t.orders[o].renews.None?)
          && !(t.orders[o].discounted && t.orders[o].status in {Pending, Paid, Completed}))
  }

  /** The price after the referral discount, and whether there was one. */
  function ApplyPurchaseDiscount(original: int): (int, bool) {
    if original < 1 then (original, false)
    else
      var discount := original * DISCOUNT_PERCENT / 100;
      var payable := original - discount;
      (if payable < 1 then 1 else payable, discount > 0)
  }

  datatype Pricing = Pricing(discount: int, referral: int, discounted: bool, total: int)

  /** The price of something that costs `base`, with a promo percentage (0 for none). */
  function Price(base: int, percent: int, eligible: bool): Pricing {
    var discount := base * percent / 100;
    var reduced := if eligible then ApplyPurchaseDiscount(base) else (base, false);
    var referral := base - reduced.0;
    if discount >= referral
    then Pricing(discount, 0, false, Max(base - discount, 0))
    else Pricing(0, referral, reduced.1, Max(base - referral, 0))
  }

  function MakeQuote(t: Tables, c: Catalogue, user: int, product: Product, code: string, now: int)
    : Result<Quote, QuoteError>
  {
    var promo :=
      if code == "" then None
      else
        match ValidatePromo(t, code, user, now)
        case Success(a) => Some(a)
        case Failure(_) => None;
    var bonusDays := if promo.Some? then promo.value.bonusDays else 0;
    var bonusGigabytes := if promo.Some? then promo.value.bonusGigabytes else 0;
    var percent := if promo.Some? && promo.value.kind == Percent then promo.value.value else 0;
    var carried := if promo.Some? then Some(promo.value.code) else None;
    match product
    case Listed(id) =>
      if id !in c.plans then Failure(PlanUnavailable)
      else
        var plan := c.plans[id];
        var p := Price(plan.price, percent, DiscountEligible(t, user));
        Success(Quote(
          Offer(plan.days + bonusDays, plan.gigabytes + bonusGigabytes, p.total, Some(id), plan.devices,
                carried, p.discounted),
          plan.price, p.discount, p.referral))
    case Custom(days, gigabytes) =>
      if days.None? || gigabytes.None? then Failure(NumbersMissing)
      else if !(1 <= days.value <= 365 && 1 <= gigabytes.value <= 500) then Failure(OutOfRange)
      else
        var totalDays, totalGigabytes := days.value + bonusDays, gigabytes.value + bonusGigabytes;
        var base := totalDays * c.perDay + totalGigabytes * c.perGigabyte;
        var p := Price(base, percent, DiscountEligible(t, user));
        Success(Quote(
          Offer(totalDays, totalGigabytes, p.total, None, 1, carried, p.discounted), base, p.discount, p.referral))
  }

  // --- properties -----------------------------------------------------------

  lemma ShareMonotone(base: int, low: int, high: int)
    requires base >= 0 && low <= high
    ensures base * low / 100 <= base * high / 100
  {
    assert base * low <= base * high;
  }

  /** The best single discount, in percent. */
  function Best(percent: int, eligible: bool): int {
    if eligible && percent < 15 then 15 else percent
  }

  /** `total` is a price of `hundredths` / 100, rounded up. */
  predicate RoundsUp(total: int, hundredths: int) {
    hundredths <= 100 * total < hundredths + 100
  }

  /** The "at least 1" clamp of the referral discount never binds. */
  lemma PurchaseClampNeverBinds(original: int)
    ensures ApplyPurchaseDiscount(original).0 == original - Max(original, 0) * 15 / 100
    ensures ApplyPurchaseDiscount(original).1 <==> ApplyPurchaseDiscount(original).0 < original
  {
  }

  /** The customer gets the better of the two discounts, never both. */
  lemma PriceClosedForm(base: int, percent: int, eligible: bool)
    requires base >= 0 && 0 <= percent <= 100
    ensures
      var p := Price(base, percent, eligible);
      && RoundsUp(p.total, base * (100 - Best(percent, eligible)))
      && 0 <= p.total <= base
      && (p.discount == 0 || p.referral == 0)
      && p.total == base - p.discount - p.referral
      && (p.discounted <==> p.referral > 0)
      && (p.referral > 0 <==> eligible && base * percent / 100 < base * 15 / 100)
      && p.referral == (if p.discounted then base * 15 / 100 else 0)
      && p.discount == (if p.discounted then 0 else base * percent / 100)
  {
    PurchaseClampNeverBinds(base);
    ShareMonotone(base, 0, percent);
    ShareMonotone(base, percent, 100);
    if percent <= DISCOUNT_PERCENT {
      ShareMonotone(base, percent, DISCOUNT_PERCENT);
    } else {
      ShareMonotone(base, DISCOUNT_PERCENT, percent);
    }
    var m := Best(percent, eligible);
    assert base * (100 - m) == 100 * base - base * m;
  }

  lemma MulMonotone(low: int, high: int, factor: int)
    requires low <= high && factor >= 0
    ensures low * factor <= high * factor
  {
  }

  lemma RoundedMonotone(low: int, high: int, lowTotal: int, highTotal: int)
    requires low <= high && RoundsUp(lowTotal, low) && RoundsUp(highTotal, high)
    ensures lowTotal <= highTotal
  {
  }

  /** A dearer product is never cheaper after its discount. */
  lemma PriceMonotone(low: int, high: int, percent: int, eligible: bool)
    requires 0 <= low <= high && 0 <= percent <= 100
    ensures Price(low, percent, eligible).total <= Price(high, percent, eligible).total
  {
    PriceClosedForm(low, percent, eligible);
    PriceClosedForm(high, percent, eligible);
    var rest := 100 - Best(percent, eligible);
    MulMonotone(low, high, rest);
    RoundedMonotone(low * rest, high * rest, Price(low, percent, eligible).total, Price(high, percent, eligible).total);
  }

  /**
   An order may be created long after its quote: whatever happened in between, the
   order endpoint gets a price that is not negative and a code that still exists.
   */
  lemma StaleQuoteIsPossible(t: Tables, t': Tables, c: Catalogue, user: int, product: Product, code: string,
                             then_: int, now: int)
    requires Evolves(t, t') && MakeQuote(t, c, user, product, code, then_).Success?
    ensures Possible(t', Op.CreateOrder(user, MakeQuote(t, c, user, product, code, then_).value.offer, now))
  {
    var offer := MakeQuote(t, c, user, product, code, then_).value.offer;
    assert offer.promo.Some? ==> offer.promo.value == code && code in t.promos;
  }

  /** The code can be redeemed by this customer now. */
  predicate Redeemable(t: Tables, code: string, user: int, now: int) {
    && code != "" && code in t.promos
    && (var promo := t.promos[code];
        && Reservable(promo)
        && (promo.expires.Some? ==> now < promo.expires.value)
        && promo.value >= 1 && (promo.kind == Percent ==> promo.value <= 100))
    && !HoldsReservation(t, user, code)
  }

  /** Days and gigabytes before any bonus. */
  function Asked(c: Catalogue, product: Product): (int, int)
    requires product.Listed? ==> product.id in c.plans
    requires product.Custom? ==> product.days.Some? && product.gigabytes.Some?
  {
    match product
    case Listed(id) => (c.plans[id].days, c.plans[id].gigabytes)
    case Custom(days, gigabytes) => (days.value, gigabytes.value)
  }

  /**
   A quote carries the code exactly if it can be redeemed, and adds its bonus to the product.
   The bonus is free on a listed plan and paid for on a custom one.
   */
  lemma QuoteGivesBonus(t: Tables, c: Catalogue, user: int, product: Product, code: string, now: int)
    requires MakeQuote(t, c, user, product, code, now).Success?
    ensures product.Listed? ==> product.id in c.plans
    ensures product.Custom? ==> product.days.Some? && product.gigabytes.Some?
    ensures
      var q := MakeQuote(t, c, user, product, code, now).value;
      var asked := Asked(c, product);
      && q.offer.promo == (if Redeemable(t, code, user, now) then Some(code) else None)
      && q.offer.days - asked.0 == (if q.offer.promo.Some? && t.promos[code].kind == Days then t.promos[code].value else 0)
      && q.offer.gigabytes - asked.1 ==
           (if q.offer.promo.Some? && t.promos[code].kind == Gigabytes then t.promos[code].value else 0)
      && q.base == (if product.Listed? then c.plans[product.id].price
                    else q.offer.days * c.perDay + q.offer.gigabytes * c.perGigabyte)
      && q.offer.plan == (if product.Listed? then Some(product.id) else None)
      && q.offer.devices == if product.Listed? then c.plans[product.id].devices else 1
  {
    var promo := ValidatePromo(t, code, user, now);
    assert Redeemable(t, code, user, now) <==> promo.Success?;
  }

  /** The percentage of the code that an order carries; 0 for none and for other kinds of code. */
  function CarriedPercent(t: Tables, promo: Option<string>): int {
    if promo.Some? && promo.value in t.promos && t.promos[promo.value].kind == Percent then t.promos[promo.value].value
    else 0
  }

  /** What a quote charges is the closed form of its base price, with the percentage of the code it carries. */
  lemma QuoteIsPriced(t: Tables, c: Catalogue, user: int, product: Product, code: string, now: int)
    requires MakeQuote(t, c, user, product, code, now).Success?
    requires MakeQuote(t, c, user, product, code, now).value.base >= 0
    ensures
      var q := MakeQuote(t, c, user, product, code, now).value;
      var percent := CarriedPercent(t, q.offer.promo);
      var eligible := DiscountEligible(t, user);
      && 0 <= percent <= 100
      && RoundsUp(q.offer.price, q.base * (100 - Best(percent, eligible)))
      && q.offer.price == q.base - q.discount - q.referral && (q.discount == 0 || q.referral == 0)
      && (q.offer.discounted <==> q.referral > 0)
      && (q.referral > 0 <==> eligible && q.base * percent / 100 < q.base * 15 / 100)
  {
    var q := MakeQuote(t, c, user, product, code, now).value;
    QuoteGivesBonus(t, c, user, product, code, now);
    PriceClosedForm(q.base, CarriedPercent(t, q.offer.promo), DiscountEligible(t, user));
  }

  /** A listed plan has to be on sale; a custom one needs 1 to 365 days and 1 to 500 gigabytes. */
  lemma QuoteSucceedsIff(t: Tables, c: Catalogue, user: int, product: Product, code: string, now: int)
    ensures MakeQuote(t, c, user, product, code, now).Success? <==>
      match product
      case Listed(id) => id in c.plans
      case Custom(days, gigabytes) =>
        days.Some? && gigabytes.Some? && 1 <= days.value <= 365 && 1 <= gigabytes.value <= 500
  {
  }

  /** The bonus of a code of this kind that the customer can redeem. */
  function Bonus(t: Tables, code: string, user: int, kind: PromoKind, now: int): int {
    if Redeemable(t, code, user, now) && t.promos[code].kind == kind then t.promos[code].value else 0
  }

  /**
   From the quote to the order, whatever the shop did in between: the order has the goods that
   were asked for with their bonus, at the base price less the better of the two discounts, and
   it is marked as discounted exactly if that was the referral discount.
   */
  lemma OrderFollowsQuote(t: Tables, t': Tables, c: Catalogue, user: int, product: Product, code: string,
                          then_: int, now: int)
    requires MakeQuote(t, c, user, product, code, then_).Success?
    requires MakeQuote(t, c, user, product, code, then_).value.base >= 0
    requires Handlers.CreateOrder(t', user, MakeQuote(t, c, user, product, code, then_).value.offer, now).Success?
    ensures product.Listed? ==> product.id in c.plans
    ensures product.Custom? ==> product.days.Some? && product.gigabytes.Some?
    ensures
      var offer := MakeQuote(t, c, user, product, code, then_).value.offer;
      var orders := Handlers.CreateOrder(t', user, offer, now).value.orders;
      && |orders| == |t'.orders| + 1 && t'.orders <= orders
      && (var order, asked := orders[|t'.orders|], Asked(c, product);
          && order.user == user && order.created == now && order.status == Pending && order.debit == 0
          && order.days == asked.0 + Bonus(t, code, user, Days, then_)
          && order.gigabytes == asked.1 + Bonus(t, code, user, Gigabytes, then_)
          && order.plan == (if product.Listed? then Some(product.id) else None)
          && order.devices == (if product.Listed? then c.plans[product.id].devices else 1)
          && order.promo == (if Redeemable(t, code, user, then_) then Some(code) else None)
          && (var base := if product.Listed? then c.plans[product.id].price
                          else order.days * c.perDay + order.gigabytes * c.perGigabyte;
              var off := base * Bonus(t, code, user, Percent, then_) / 100;
              && (order.discounted <==> DiscountEligible(t, user) && off < base * 15 / 100)
              && order.price == base - if order.discounted then base * 15 / 100 else off))
  {
    var q := MakeQuote(t, c, user, product, code, then_).value;
    QuoteGivesBonus(t, c, user, product, code, then_);
    PriceClosedForm(q.base, CarriedPercent(t, q.offer.promo), DiscountEligible(t, user));
    assert CarriedPercent(t, q.offer.promo) == Bonus(t, code, user, Percent, then_);
    OrderIsStored(t', user, q.offer, now);
  }

  // --- who is eligible ------------------------------------------------------

  /** An order that uses up its customer's discount: a completed new purchase, or a discounted one that is alive. */
  predicate UsesDiscount(order: Order) {
    || (order.status == Completed && order.renews.None?)
    || (order.discounted && (order.status == Pending || order.status == Paid || order.status == Completed))
  }

  /** A referred customer without orders is eligible. */
  lemma NewcomerEligible(t: Tables, user: int)
    requires forall o | 0 <= o < |t.orders| :: t.orders[o].user != user
    ensures DiscountEligible(t, user) <==> user in t.users && t.users[user].referredBy.Some?
  {
  }

  /**
   Each further order leaves everybody's eligibility alone, except that of its customer if it uses
   up the discount.
   */
  lemma EligibleAfterOrder(t: Tables, order: Order, user: int)
    ensures DiscountEligible(t.(orders := t.orders + [order]), user) <==>
      DiscountEligible(t, user) && !(order.user == user && UsesDiscount(order))
  {
    var t' := t.(orders := t.orders + [order]);
    assert forall o | 0 <= o < |t.orders| :: t'.orders[o] == t.orders[o];
    assert t'.orders[|t.orders|] == order;
  }

  /** Whoever completed a new purchase gets no referral discount ever after. */
  lemma NoDiscountAfterPurchase(t: Tables, t': Tables, o: nat)
    requires o < |t.orders| && t.orders[o].status == Completed && t.orders[o].renews.None? && Evolves(t, t')
    ensures !DiscountEligible(t', t.orders[o].user)
  {
    EvolvesKeepsFinal(t, t', o);
    assert t'.orders[o].user == t.orders[o].user && t'.orders[o].status == Completed;
  }

  lemma NoReservationWithoutOrders(t: Tables, user: int, code: string)
    requires forall o | 0 <= o < |t.orders| :: t.orders[o].user != user || t.orders[o].promo != Some(code)
    ensures !HoldsReservation(t, user, code)
  {
  }

  /** A customer holds a code from the order that carries it on, while that is pending, paid or completed. */
  lemma ReservationAfterOrder(t: Tables, order: Order, user: int, code: string)
    ensures HoldsReservation(t.(orders := t.orders + [order]), user, code) <==>
      || HoldsReservation(t, user, code)
      || (order.user == user && order.promo == Some(code)
          && (order.status == Pending || order.status == Paid || order.status == Completed))
  {
    var t' := t.(orders := t.orders + [order]);
    if HoldsReservation(t, user, code) {
      var o :| 0 <= o < |t.orders| && t.orders[o].user == user && t.orders[o].promo == Some(code)
        && t.orders[o].status in {Pending, Paid, Completed};
      assert t'.orders[o] == t.orders[o];
    }
    assert t'.orders[|t.orders|] == order;
  }
}
