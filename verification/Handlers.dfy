/**
 What each request, admin action, payment update and background job does to the
 tables, one database transaction a function. A delivery that follows a payment
 belongs to the same step. `Failure` is a request that commits nothing.
 */
module Handlers {
  import opened Results
  import opened Schema

  const CASHBACK_PERCENT := 20
  const CASHBACK_LEVEL2_PERCENT := 5
  const RENEW_DAYS := 30

  datatype Refusal =
    | NotFound
    | NotPayable
    | InsufficientBalance
    | NoAmount
    | ReceiptExists
    | NotPending
    | InvalidAmount
    | InvalidPromo
    | PromoFull
    | TrialUnavailable
    | NoAccount
    | Conflict
    | UnknownUser

  /** What the order endpoint copies from a quote into the order. */
  datatype Offer = Offer(
    days: int,
    gigabytes: int,
    price: int,
    plan: Option<string>,
    devices: int,
    promo: Option<string>,
    discounted: bool)

  type Outcome = Result<Tables, Refusal>

  /** A payment was taken in: the tables then, and the order and payment that go to delivery. */
  datatype Handover = Handover(t: Tables, o: nat, p: nat)

  // --- wallet ---------------------------------------------------------------

  function Balance(t: Tables, user: int): int {
    if user in t.users then t.users[user].balance else 0
  }

  function CreditBalance(t: Tables, user: int, amount: int): Outcome {
    if amount <= 0 then Failure(InvalidAmount)
    else if user !in t.users then Failure(UnknownUser)
    else
      var row := t.users[user];
      Success(t.(users := t.users[user := row.(balance := row.balance + amount)]))
  }

  function DebitBalance(t: Tables, user: int, amount: int): Outcome {
    if amount <= 0 then Failure(InvalidAmount)
    else if user !in t.users then Failure(UnknownUser)
    else if t.users[user].balance < amount then Failure(InsufficientBalance)
    else
      var row := t.users[user];
      Success(t.(users := t.users[user := row.(balance := row.balance - amount)]))
  }

  // --- customers ------------------------------------------------------------

  ghost predicate CodeTaken(users: map<int, User>, code: string) {
    exists u :: u in users && users[u].code == code
  }

  /** The row with this referral code; the column is unique. */
  ghost function FindByCode(users: map<int, User>, code: string): int
    requires CodeTaken(users, code)
  {
    var u :| u in users && users[u].code == code; u
  }

  /**
   get_or_create_user with the referral code that was drawn for the customer,
   then try_bind_referrer with the code of the deep link ("" when there is none).
   */
  ghost function Register(t: Tables, id: int, code: string, link: string): Outcome {
    if id in t.users then Success(t)
    else if CodeTaken(t.users, code) then Failure(Conflict)
    else
      var created := t.users[id := User(0, 0, false, code, None, |t.users|)];
      var referrer :=
        if link == "" || !CodeTaken(created, link) then None
        else
          var r := FindByCode(created, link);
          if r == id then None else Some(r);
      Success(t.(users := created[id := created[id].(referredBy := referrer)]))
  }

  // --- orders ---------------------------------------------------------------

  function NewOrder(user: int, offer: Offer, now: int): Order {
    Order(user, offer.days, offer.gigabytes, offer.price, offer.plan, offer.devices, None,
          offer.promo, offer.discounted, false, now, 0, false, false, Pending, None)
  }

  predicate Reservable(promo: Promo) {
    promo.active && (promo.maxUses == 0 || promo.used < promo.maxUses)
  }

  function CreateOrder(t: Tables, user: int, offer: Offer, now: int): Outcome {
    if user !in t.users then Failure(UnknownUser)
    else
      var t1 := t.(orders := t.orders + [NewOrder(user, offer, now)]);
      match offer.promo
      case None => Success(t1)
      case Some(c) =>
        if c !in t.promos then Success(t1)
        else if !Reservable(t.promos[c]) then Failure(PromoFull)
        else Success(t1.(promos := t.promos[c := t.promos[c].(used := t.promos[c].used + 1)]))
  }

  predicate Owns(t: Tables, user: int, o: nat) {
    o < |t.orders| && t.orders[o].user == user
  }

  predicate HasPaymentIn(t: Tables, o: nat, statuses: set<PaymentStatus>) {
    exists p :: p in t.payments && t.payments[p].order == o && t.payments[p].status in statuses
  }

  /** Insert a payment; a second pending payment of an order breaks the unique index. */
  function AddPayment(t: Tables, o: nat, status: PaymentStatus, channel: Channel): Outcome {
    if status == Unreviewed && HasPaymentIn(t, o, {Unreviewed}) then Failure(Conflict)
    else Success(t.(
      payments := t.payments[t.nextPayment := Payment(o, status, channel)],
      nextPayment := t.nextPayment + 1))
  }

  function MarkPaid(t: Tables, o: nat, debit: int): Tables
    requires o < |t.orders|
  {
    t.(orders := t.orders[o := t.orders[o].(status := Paid, debit := debit)])
  }

  function TakeWallet(t: Tables, user: int, o: nat): Result<Handover, Refusal> {
    if !Owns(t, user, o) then Failure(NotFound)
    else if t.orders[o].status != Pending then Failure(NotPayable)
    else if Balance(t, user) < t.orders[o].price then Failure(InsufficientBalance)
    else
      var price := t.orders[o].price;
      var t1 :- if price > 0 then DebitBalance(t, user, price) else Success(t);
      var t2 :- AddPayment(MarkPaid(t1, o, price), o, Unreviewed, Wallet);
      Success(Handover(t2, o, t.nextPayment))
  }

  function PayWallet(t: Tables, user: int, o: nat, route: Route): Outcome {
    var h :- TakeWallet(t, user, o);
    Success(Deliver(h, route))
  }

  function ClaimStars(t: Tables, user: int, o: nat): Outcome {
    if !Owns(t, user, o) then Failure(NotFound)
    else if t.orders[o].status != Pending then Failure(NotPayable)
    else if t.orders[o].price <= 0 then Failure(NoAmount)
    else Success(t.(orders := t.orders[o := t.orders[o].(status := AwaitingStars)]))
  }

  /** The invoice could not be sent: free the order again. */
  function RevertStars(t: Tables, o: nat): Outcome {
    if o < |t.orders| && t.orders[o].status == AwaitingStars
    then Success(t.(orders := t.orders[o := t.orders[o].(status := Pending)]))
    else Success(t)
  }

  function TakeStars(t: Tables, user: int, o: nat): Result<Handover, Refusal> {
    if !Owns(t, user, o) then Failure(NotFound)
    else if t.orders[o].status != AwaitingStars then Failure(NotPayable)
    else
      var t1 :- AddPayment(MarkPaid(t, o, t.orders[o].debit), o, Unreviewed, Stars);
      Success(Handover(t1, o, t.nextPayment))
  }

  /** Telegram has charged the customer: a payment that cannot be used is still recorded. */
  function StarsPaid(t: Tables, user: int, o: nat, route: Route): Outcome {
    if Owns(t, user, o) && t.orders[o].status != AwaitingStars then AddPayment(t, o, Duplicate, Stars)
    else
      var h :- TakeStars(t, user, o);
      Success(Deliver(h, route))
  }

  function UploadReceipt(t: Tables, user: int, o: nat): Outcome {
    if !Owns(t, user, o) then Failure(NotFound)
    else if t.orders[o].status !in {Pending, Paid} then Failure(NotPayable)
    else if HasPaymentIn(t, o, {Unreviewed, Approved}) then Failure(ReceiptExists)
    else AddPayment(MarkPaid(t, o, t.orders[o].debit), o, Unreviewed, Card)
  }

  // --- delivery -------------------------------------------------------------

  function Credited(t: Tables, o: nat, level: nat, to: int, amount: int): Outcome
    requires o < |t.orders|
  {
    var t1 :- CreditBalance(t, to, amount);
    Success(t1.(
      users := t1.users[to := t1.users[to].(earned := t1.users[to].earned + amount)],
      payouts := t.payouts + [Payout(o, t.orders[o].user, level, to, amount)]))
  }

  predicate PriorCashback1(t: Tables, o: nat)
    requires o < |t.orders|
  {
    exists k | 0 <= k < |t.orders| :: k != o && t.orders[k].user == t.orders[o].user && t.orders[k].cashback1
  }

  predicate PriorCashback2(t: Tables, o: nat)
    requires o < |t.orders|
  {
    exists k | 0 <= k < |t.orders| :: k != o && t.orders[k].user == t.orders[o].user && t.orders[k].cashback2
  }

  function Referrer(t: Tables, user: int): Option<int> {
    if user in t.users then t.users[user].referredBy else None
  }

  function GrantLevel1(t: Tables, o: nat): Outcome
    requires o < |t.orders|
  {
    var order := t.orders[o];
    if order.cashback1 || !order.discounted || order.renews.Some? then Success(t)
    else
      var flagged := t.(orders := t.orders[o := order.(cashback1 := true)]);
      var referrer := Referrer(t, order.user);
      var cashback := Max(order.price, 0) * CASHBACK_PERCENT / 100;
      if referrer.None? || cashback < 1 || PriorCashback1(t, o) then Success(flagged)
      else Credited(flagged, o, 1, referrer.value, cashback)
  }

  function GrantLevel2(t: Tables, o: nat): Outcome
    requires o < |t.orders|
  {
    var order := t.orders[o];
    if order.cashback2 || !order.discounted || order.renews.Some? then Success(t)
    else
      var flagged := t.(orders := t.orders[o := order.(cashback2 := true)]);
      var level1 := Referrer(t, order.user);
      var level2 := if level1.None? then None else Referrer(t, level1.value);
      var amount := Max(order.price, 0) * CASHBACK_LEVEL2_PERCENT / 100;
      if level2.None? || PriorCashback2(t, o) || amount < 1 || level2.value == order.user then Success(flagged)
      else Credited(flagged, o, 2, level2.value, amount)
  }

  /** complete_payment_approval and complete_renewal_approval; only the former pays cashback. */
  function Complete(t: Tables, o: nat, p: nat, route: Route): Outcome
    requires o < |t.orders| && p in t.payments
  {
    var t1 := t.(
      payments := t.payments[p := t.payments[p].(status := Approved)],
      orders := t.orders[o := t.orders[o].(status := Completed, route := Some(route))]);
    if route.Renews() then Success(t1)
    else
      var t2 :- GrantLevel1(t1, o);
      assert o < |t2.orders|;
      GrantLevel2(t2, o)
  }

  /** deliver_paid_order: it never raises, so a failed completion leaves the paid order as it is. */
  function Deliver(h: Handover, route: Route): Tables {
    if h.o >= |h.t.orders| || h.p !in h.t.payments || !route.Delivers() then h.t
    else
      match Complete(h.t, h.o, h.p, route)
      case Success(t') => t'
      case Failure(_) => h.t
  }

  // --- review ---------------------------------------------------------------

  function ClaimReview(t: Tables, p: nat): Result<Handover, Refusal> {
    if p !in t.payments || t.payments[p].status != Unreviewed then Failure(NotPending)
    else
      Success(Handover(
        t.(payments := t.payments[p := t.payments[p].(status := Approved)]), t.payments[p].order, p))
  }

  function ApprovePayment(t: Tables, p: nat, route: Route): Outcome {
    var h :- ClaimReview(t, p);
    Success(Deliver(h, route))
  }

  function RejectPayment(t: Tables, p: nat): Outcome {
    if p !in t.payments then Failure(NotFound)
    else if t.payments[p].status != Unreviewed then Failure(NotPending)
    else
      var o := t.payments[p].order;
      var t1 := t.(payments := t.payments[p := t.payments[p].(status := Refused)]);
      if o >= |t.orders| then Success(t1)
      else
        var order := t.orders[o];
        var t2 :- if order.debit != 0 then CreditBalance(t1, order.user, order.debit) else Success(t1);
        Success(t2.(orders := t.orders[o := order.(status := Rejected, debit := 0)]))
  }

  function RequestTopUp(t: Tables, user: int, amount: int): Outcome {
    if amount < 1 then Failure(InvalidAmount)
    else if user !in t.users then Failure(UnknownUser)
    else Success(t.(topups := t.topups + [TopUp(user, amount, None, Requested)]))
  }

  function ApproveTopUp(t: Tables, i: nat): Outcome {
    if i >= |t.topups| || t.topups[i].status != Requested then Failure(NotPending)
    else
      var row := t.topups[i];
      CreditBalance(
        t.(topups := t.topups[i := row.(status := Granted, credited := Some(row.requested))]),
        row.user, row.requested)
  }

  function RejectTopUp(t: Tables, i: nat): Outcome {
    if i >= |t.topups| || t.topups[i].status != Requested then Failure(NotPending)
    else Success(t.(topups := t.topups[i := t.topups[i].(status := Declined)]))
  }

  function CreditUser(t: Tables, user: int, amount: int): Outcome {
    var t1 :- CreditBalance(t, user, amount);
    Success(t1.(grants := t.grants + [Grant(user, amount)]))
  }

  // --- trial and free renewal -----------------------------------------------

  function TrialOrder(user: int, days: int, gigabytes: int, now: int): Order {
    Order(user, Max(days, 0), Max(gigabytes, 0), 0, None, 1, None, None, false, true,
          now, 0, false, false, Paid, None)
  }

  /** `subscribed` says whether the customer has a live account. */
  function ClaimTrial(t: Tables, user: int, enabled: bool, days: int, gigabytes: int, subscribed: bool,
                      now: int): Result<Handover, Refusal>
  {
    if !enabled || (days <= 0 && gigabytes <= 0) || subscribed then Failure(TrialUnavailable)
    else if exists o | 0 <= o < |t.orders| :: t.orders[o].user == user && t.orders[o].trial then
      Failure(TrialUnavailable)
    else if user !in t.users then Failure(UnknownUser)
    else if t.users[user].trialUsed then Failure(TrialUnavailable)
    else
      var t1 :- AddPayment(
        t.(users := t.users[user := t.users[user].(trialUsed := true)],
           orders := t.orders + [TrialOrder(user, days, gigabytes, now)]),
        |t.orders|, Unreviewed, Channel.Trial);
      Success(Handover(t1, |t.orders|, t.nextPayment))
  }

  function TakeTrial(t: Tables, user: int, enabled: bool, days: int, gigabytes: int, subscribed: bool,
                     now: int, route: Route): Outcome
  {
    var h :- ClaimTrial(t, user, enabled, days, gigabytes, subscribed, now);
    Success(Deliver(h, route))
  }

  /** The admin's free renewal of account `account`, which belongs to `user`. */
  function RenewUser(t: Tables, user: int, account: Option<nat>, now: int): Outcome {
    if account.None? then Failure(NoAccount)
    else if user !in t.users then Failure(UnknownUser)
    else Success(t.(orders := t.orders + [
      Order(user, RENEW_DAYS, 0, 0, None, 1, account, None, false, false, now, 0, false, false, Completed, None)]))
  }

  // --- cleanup and promo codes ----------------------------------------------

  predicate Stale(order: Order, cutoff: int) {
    order.status in {Pending, AwaitingStars} && order.created < cutoff
  }

  function Released(orders: seq<Order>, code: string, cutoff: int): nat {
    if orders == [] then 0
    else
      var last := orders[|orders| - 1];
      Released(orders[..|orders| - 1], code, cutoff)
      + if Stale(last, cutoff) && last.promo == Some(code) then 1 else 0
  }

  function Release(promo: Promo, count: nat): Promo {
    if count == 0 then promo else promo.(used := Max(promo.used - count, 0))
  }

  function CancelStale(t: Tables, cutoff: int): Outcome {
    Success(t.(
      promos := map c | c in t.promos :: Release(t.promos[c], Released(t.orders, c, cutoff)),
      payments := map p | p in t.payments && !(
        t.payments[p].status == Unreviewed
        && t.payments[p].order < |t.orders| && Stale(t.orders[t.payments[p].order], cutoff)) :: t.payments[p],
      orders := seq(|t.orders|, i requires 0 <= i < |t.orders| =>
        if Stale(t.orders[i], cutoff) then t.orders[i].(status := Cancelled) else t.orders[i])))
  }

  /** `code` is normalised already. */
  function CreatePromo(t: Tables, code: string, kind: PromoKind, value: int, maxUses: int): Outcome {
    if code == "" || value <= 0 || code in t.promos then Failure(InvalidPromo)
    else Success(t.(promos := t.promos[code := Promo(kind, value, maxUses, 0, true, None)]))
  }

  function TogglePromo(t: Tables, code: string): Outcome {
    if code !in t.promos then Failure(NotFound)
    else Success(t.(promos := t.promos[code := t.promos[code].(active := !t.promos[code].active)]))
  }

  function DeletePromo(t: Tables, code: string): Outcome {
    if code !in t.promos then Failure(NotFound)
    else Success(t.(promos := t.promos - {code}))
  }
}
