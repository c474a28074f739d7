/** The shop as it runs: handlers that update the tables in place, statement by statement. */
module ShopFront {
  import opened Results
  import opened Schema
  import opened Handlers

  datatype Reply = Done | Fail(why: Refusal)

  /** The handler did what the transaction function says; a refusal rolled everything back. */
  ghost predicate Answers(before: Tables, after: Tables, outcome: Outcome, reply: Reply) {
    match outcome
    case Success(t) => reply == Done && after == t
    case Failure(why) => reply == Fail(why) && after == before
  }

  // --- the cleanup's query --------------------------------------------------

  /** The ids that the SELECT of the cleanup returns. */
  function StaleIds(orders: seq<Order>, cutoff: int): (ids: seq<nat>)
    ensures forall i :: i in ids <==> 0 <= i < |orders| && Stale(orders[i], cutoff)
    ensures forall k | 0 <= k < |ids| :: ids[k] < |orders|
  {
    if orders == [] then []
    else
      var last := |orders| - 1;
      StaleIds(orders[..last], cutoff) + if Stale(orders[last], cutoff) then [last] else []
  }

  /** The query returns each order once. */
  lemma {:induction false} StaleIdsDistinct(orders: seq<Order>, cutoff: int, stale: set<int>)
    requires stale == set i | 0 <= i < |orders| && Stale(orders[i], cutoff)
    ensures |StaleIds(orders, cutoff)| == |stale|
  {
    if orders != [] {
      var last := |orders| - 1;
      StaleIdsDistinct(orders[..last], cutoff, stale - {last});
    }
  }

  /** The orders that were not cancelled before and are now. */
  function NewlyCancelled(before: seq<Order>, after: seq<Order>): set<int> {
    set i | 0 <= i < |before| && i < |after| && after[i].status == Cancelled && before[i].status != Cancelled
  }

  predicate IsAbandoned(order: Order, cutoff: int) {
    (order.status == Pending || order.status == AwaitingStars) && order.created < cutoff
  }

  lemma CleanupCounts(before: seq<Order>, after: seq<Order>, cutoff: int)
    requires |after| == |before|
    requires forall i | 0 <= i < |before| ::
      after[i] == if Stale(before[i], cutoff) then before[i].(status := Cancelled) else before[i]
    ensures |StaleIds(before, cutoff)| == |NewlyCancelled(before, after)|
    ensures forall i | 0 <= i < |before| ::
      after[i].status == Cancelled <==> before[i].status == Cancelled || IsAbandoned(before[i], cutoff)
  {
    var stale := set i | 0 <= i < |before| && Stale(before[i], cutoff);
    StaleIdsDistinct(before, cutoff, stale);
    assert NewlyCancelled(before, after) == stale;
  }

  function CountCodes(orders: seq<Order>, ids: seq<nat>, code: string): nat
    requires forall k | 0 <= k < |ids| :: ids[k] < |orders|
  {
    if ids == [] then 0
    else
      var last := |ids| - 1;
      CountCodes(orders, ids[..last], code) + if orders[ids[last]].promo == Some(code) then 1 else 0
  }

  lemma {:induction false} CountCodesLocal(orders: seq<Order>, more: seq<Order>, ids: seq<nat>, code: string)
    requires forall k | 0 <= k < |ids| :: ids[k] < |orders|
    requires orders <= more
    ensures CountCodes(orders, ids, code) == CountCodes(more, ids, code)
  {
    if ids != [] {
      CountCodesLocal(orders, more, ids[..|ids| - 1], code);
    }
  }

  lemma CountCodesAppend(orders: seq<Order>, ids: seq<nat>, id: nat, code: string)
    requires id < |orders| && forall k | 0 <= k < |ids| :: ids[k] < |orders|
    ensures forall k | 0 <= k < |ids + [id]| :: (ids + [id])[k] < |orders|
    ensures CountCodes(orders, ids + [id], code) ==
      CountCodes(orders, ids, code) + if orders[id].promo == Some(code) then 1 else 0
  {
    assert (ids + [id])[..|ids|] == ids;
  }

  /** The dictionary built from the selected orders holds the same counts as the whole table. */
  lemma {:induction false} CountCodesOfStale(orders: seq<Order>, cutoff: int, code: string)
    ensures CountCodes(orders, StaleIds(orders, cutoff), code) == Released(orders, code, cutoff)
  {
    if orders != [] {
      var last := |orders| - 1;
      var before, ids := orders[..last], StaleIds(orders[..last], cutoff);
      CountCodesOfStale(before, cutoff, code);
      CountCodesLocal(before, orders, ids, code);
      if Stale(orders[last], cutoff) {
        CountCodesAppend(orders, ids, last, code);
        assert StaleIds(orders, cutoff) == ids + [last];
      } else {
        assert StaleIds(orders, cutoff) == ids;
      }
    }
  }

  function Tally(released: map<string, nat>, code: string): nat {
    if code in released then released[code] else 0
  }

  /** The promo part and the payment part of the cleanup, over the selected ids. */
  predicate GivenBack(before: map<string, Promo>, after: map<string, Promo>, released: map<string, nat>) {
    after == map c | c in before :: Release(before[c], Tally(released, c))
  }

  predicate PendingDeleted(before: map<nat, Payment>, after: map<nat, Payment>, ids: seq<nat>) {
    after == map p | p in before && !(before[p].order in ids && before[p].status == Unreviewed) :: before[p]
  }

  predicate OrdersCancelled(before: seq<Order>, after: seq<Order>, ids: seq<nat>) {
    && |after| == |before|
    && forall i | 0 <= i < |before| :: after[i] == if i in ids then before[i].(status := Cancelled) else before[i]
  }

  /** The three loops make the cleanup of the whole table. */
  lemma LoopsMakeCleanup(t: Tables, t': Tables, cutoff: int, ids: seq<nat>, released: map<string, nat>)
    requires ids == StaleIds(t.orders, cutoff)
    requires forall k | 0 <= k < |ids| :: ids[k] < |t.orders|
    requires forall c :: Tally(released, c) == CountCodes(t.orders, ids, c)
    requires GivenBack(t.promos, t'.promos, released) && PendingDeleted(t.payments, t'.payments, ids)
    requires OrdersCancelled(t.orders, t'.orders, ids)
    requires t' == t.(promos := t'.promos, payments := t'.payments, orders := t'.orders)
    ensures Handlers.CancelStale(t, cutoff) == Success(t')
  {
    forall c | c in t.promos
      ensures Tally(released, c) == Released(t.orders, c, cutoff)
    {
      CountCodesOfStale(t.orders, cutoff, c);
    }
    assert t'.promos == Handlers.CancelStale(t, cutoff).value.promos;
    assert t'.payments == Handlers.CancelStale(t, cutoff).value.payments;
    assert t'.orders == Handlers.CancelStale(t, cutoff).value.orders;
  }

  class Shop {
    var users: map<int, User>
    var orders: seq<Order>
    var payments: map<nat, Payment>
    var nextPayment: nat
    var topups: seq<TopUp>
    var promos: map<string, Promo>
    ghost var payouts: seq<Payout>
    ghost var grants: seq<Grant>

    ghost function T(): Tables
      reads this
    {
      Tables(users, orders, payments, nextPayment, topups, promos, payouts, grants)
    }

    constructor ()
      ensures T() == EMPTY
    {
      users, orders, payments, nextPayment, topups, promos := map[], [], map[], 0, [], map[];
      payouts, grants := [], [];
    }

    // --- wallet -------------------------------------------------------------

    method CreditBalance(user: int, amount: int) returns (reply: Reply)
      modifies this`users
      ensures Answers(old(T()), T(), Handlers.CreditBalance(old(T()), user, amount), reply)
    {
      if amount <= 0 { return Fail(InvalidAmount); }
      if user !in users { return Fail(UnknownUser); }
      users := users[user := users[user].(balance := users[user].balance + amount)];
      reply := Done;
    }

    method DebitBalance(user: int, amount: int) returns (reply: Reply)
      modifies this`users
      ensures Answers(old(T()), T(), Handlers.DebitBalance(old(T()), user, amount), reply)
    {
      if amount <= 0 { return Fail(InvalidAmount); }
      if user in users && users[user].balance >= amount {
        users := users[user := users[user].(balance := users[user].balance - amount)];
        return Done;
      }
      if user !in users { return Fail(UnknownUser); }
      reply := Fail(InsufficientBalance);
    }

    // --- customers ----------------------------------------------------------

    method Register(id: int, code: string, link: string) returns (reply: Reply)
      requires forall u, v | u in users && v in users && users[u].code == users[v].code :: u == v
      modifies this`users
      ensures Answers(old(T()), T(), Handlers.Register(old(T()), id, code, link), reply)
    {
      if id in users { return Done; }
      if exists u :: u in users && users[u].code == code { return Fail(Conflict); }
      users := users[id := User(0, 0, false, code, None, |users|)];
      if link != "" && exists u :: u in users && users[u].code == link {
        var referrer :| referrer in users && users[referrer].code == link;
        assert referrer == FindByCode(users, link);
        if referrer != id {
          users := users[id := users[id].(referredBy := Some(referrer))];
        }
      }
      reply := Done;
    }

    // --- orders -------------------------------------------------------------

    method CreateOrder(user: int, offer: Offer, now: int) returns (reply: Reply)
      modifies this
      ensures Answers(old(T()), T(), Handlers.CreateOrder(old(T()), user, offer, now), reply)
    {
      if user !in users { return Fail(UnknownUser); }
      var saved := orders;
      orders := orders + [NewOrder(user, offer, now)];
      if offer.promo.Some? && offer.promo.value in promos {
        var c := offer.promo.value;
        if !Reservable(promos[c]) {
          orders := saved;
          return Fail(PromoFull);
        }
        promos := promos[c := promos[c].(used := promos[c].used + 1)];
      }
      reply := Done;
    }

    method AddPayment(o: nat, status: PaymentStatus, channel: Channel) returns (reply: Reply)
      modifies this`payments, this`nextPayment
      ensures Answers(old(T()), T(), Handlers.AddPayment(old(T()), o, status, channel), reply)
    {
      if status == Unreviewed
         && exists p :: p in payments && payments[p].order == o && payments[p].status in {Unreviewed} {
        return Fail(Conflict);
      }
      payments := payments[nextPayment := Payment(o, status, channel)];
      nextPayment := nextPayment + 1;
      reply := Done;
    }

    /** Claim the order for a wallet payment and take its price from the balance. */
    method ClaimAndDebit(user: int, o: nat) returns (reply: Reply)
      requires o < |orders|
      modifies this`users, this`orders
      ensures
        var price := old(orders[o].price);
        if Balance(old(T()), user) < price then reply == Fail(InsufficientBalance) && T() == old(T())
        else
          var debited := if price > 0 then Handlers.DebitBalance(old(T()), user, price) else Success(old(T()));
          reply == Done && debited.Success? && T() == MarkPaid(debited.value, o, price)
    {
      var saved := orders;
      orders := orders[o := orders[o].(status := Paid)];
      var balance := if user in users then users[user].balance else 0;
      var price := orders[o].price;
      if balance < price {
        orders := saved;
        return Fail(InsufficientBalance);
      }
      reply := Done;
      if price > 0 {
        reply := DebitBalance(user, price);
      }
      orders := orders[o := orders[o].(debit := price)];
    }

    /** The claim, the debit and the payment row of a wallet payment, in one transaction. */
    method TakeWallet(user: int, o: nat) returns (reply: Reply)
      modifies this`users, this`orders, this`payments, this`nextPayment
      ensures match Handlers.TakeWallet(old(T()), user, o)
              case Success(h) => reply == Done && Handover(T(), o, old(nextPayment)) == h
              case Failure(why) => reply == Fail(why) && T() == old(T())
    {
      if o >= |orders| || orders[o].user != user { return Fail(NotFound); }
      if orders[o].status != Pending { return Fail(NotPayable); }
      var savedUsers, savedOrders := users, orders;
      reply := ClaimAndDebit(user, o);
      if reply != Done { return; }
      reply := AddPayment(o, Unreviewed, Wallet);
      if reply != Done {
        users, orders := savedUsers, savedOrders;
      }
    }

    method PayWallet(user: int, o: nat, route: Route) returns (reply: Reply)
      modifies this
      ensures Answers(old(T()), T(), Handlers.PayWallet(old(T()), user, o, route), reply)
    {
      var p := nextPayment;
      reply := TakeWallet(user, o);
      if reply == Done {
        Deliver(o, p, route);
      }
    }

    method ClaimStars(user: int, o: nat) returns (reply: Reply)
      modifies this
      ensures Answers(old(T()), T(), Handlers.ClaimStars(old(T()), user, o), reply)
    {
      if o >= |orders| || orders[o].user != user { return Fail(NotFound); }
      if orders[o].status != Pending { return Fail(NotPayable); }
      if orders[o].price <= 0 { return Fail(NoAmount); }
      orders := orders[o := orders[o].(status := AwaitingStars)];
      reply := Done;
    }

    method RevertStars(o: nat) returns (reply: Reply)
      modifies this
      ensures Answers(old(T()), T(), Handlers.RevertStars(old(T()), o), reply)
    {
      if o < |orders| && orders[o].status == AwaitingStars {
        orders := orders[o := orders[o].(status := Pending)];
      }
      reply := Done;
    }

    /** The Stars payment of an order that awaits it: paid, with its pending payment. */
    method TakeStars(user: int, o: nat) returns (reply: Reply)
      modifies this`orders, this`payments, this`nextPayment
      ensures match Handlers.TakeStars(old(T()), user, o)
              case Success(h) => reply == Done && Handover(T(), o, old(nextPayment)) == h
              case Failure(why) => reply == Fail(why) && T() == old(T())
    {
      if o >= |orders| || orders[o].user != user { return Fail(NotFound); }
      if orders[o].status != AwaitingStars { return Fail(NotPayable); }
      var saved := orders;
      orders := orders[o := orders[o].(status := Paid)];
      assert orders == MarkPaid(old(T()), o, old(orders[o].debit)).orders;
      reply := AddPayment(o, Unreviewed, Stars);
      if reply != Done {
        orders := saved;
      }
    }

    method StarsPaid(user: int, o: nat, route: Route) returns (reply: Reply)
      modifies this
      ensures Answers(old(T()), T(), Handlers.StarsPaid(old(T()), user, o, route), reply)
    {
      if o < |orders| && orders[o].user == user && orders[o].status != AwaitingStars {
        reply := AddPayment(o, Duplicate, Stars);
        return;
      }
      var p := nextPayment;
      reply := TakeStars(user, o);
      if reply == Done {
        Deliver(o, p, route);
      }
    }

    method UploadReceipt(user: int, o: nat) returns (reply: Reply)
      modifies this
      ensures Answers(old(T()), T(), Handlers.UploadReceipt(old(T()), user, o), reply)
    {
      if o >= |orders| || orders[o].user != user { return Fail(NotFound); }
      if orders[o].status !in {Pending, Paid} { return Fail(NotPayable); }
      if exists p :: p in payments && payments[p].order == o && payments[p].status in {Unreviewed, Approved} {
        return Fail(ReceiptExists);
      }
      orders := orders[o := orders[o].(status := Paid)];
      assert orders == MarkPaid(old(T()), o, old(orders[o].debit)).orders;
      reply := AddPayment(o, Unreviewed, Card);
    }

    // --- delivery -----------------------------------------------------------

    method CreditCashback(o: nat, level: nat, to: int, amount: int) returns (reply: Reply)
      requires o < |orders|
      modifies this`users, this`payouts
      ensures Answers(old(T()), T(), Credited(old(T()), o, level, to, amount), reply)
    {
      reply := CreditBalance(to, amount);
      if reply == Done {
        users := users[to := users[to].(earned := users[to].earned + amount)];
        payouts := payouts + [Payout(o, orders[o].user, level, to, amount)];
      }
    }

    method GrantLevel1(o: nat) returns (reply: Reply)
      requires o < |orders|
      modifies this`users, this`orders, this`payouts
      ensures var outcome := Handlers.GrantLevel1(old(T()), o);
              match outcome case Success(t) => reply == Done && T() == t case Failure(why) => reply == Fail(why)
      ensures |orders| == old(|orders|)
    {
      var order := orders[o];
      if order.cashback1 || !order.discounted || order.renews.Some? { return Done; }
      var prior := exists k | 0 <= k < |orders| :: k != o && orders[k].user == order.user && orders[k].cashback1;
      orders := orders[o := order.(cashback1 := true)];
      if order.user !in users || users[order.user].referredBy.None? { return Done; }
      var cashback := Max(order.price, 0) * CASHBACK_PERCENT / 100;
      if cashback < 1 || prior { return Done; }
      reply := CreditCashback(o, 1, users[order.user].referredBy.value, cashback);
    }

    method GrantLevel2(o: nat) returns (reply: Reply)
      requires o < |orders|
      modifies this`users, this`orders, this`payouts
      ensures var outcome := Handlers.GrantLevel2(old(T()), o);
              match outcome case Success(t) => reply == Done && T() == t case Failure(why) => reply == Fail(why)
    {
      var order := orders[o];
      if order.cashback2 || !order.discounted || order.renews.Some? { return Done; }
      var prior := exists k | 0 <= k < |orders| :: k != o && orders[k].user == order.user && orders[k].cashback2;
      orders := orders[o := order.(cashback2 := true)];
      if order.user !in users || users[order.user].referredBy.None? { return Done; }
      var level1 := users[order.user].referredBy.value;
      if level1 !in users || users[level1].referredBy.None? || prior { return Done; }
      var amount := Max(order.price, 0) * CASHBACK_LEVEL2_PERCENT / 100;
      var level2 := users[level1].referredBy.value;
      if amount < 1 || level2 == order.user { return Done; }
      reply := CreditCashback(o, 2, level2, amount);
    }

    /** Completes the order, or rolls back when a credit fails. */
    method Deliver(o: nat, p: nat, route: Route)
      modifies this`users, this`orders, this`payments, this`payouts
      ensures T() == Handlers.Deliver(Handover(old(T()), o, p), route)
    {
      if o >= |orders| || p !in payments || !route.Delivers() { return; }
      var savedUsers, savedOrders, savedPayments := users, orders, payments;
      ghost var savedPayouts := payouts;
      payments := payments[p := payments[p].(status := Approved)];
      orders := orders[o := orders[o].(status := Completed, route := Some(route))];
      var reply := Done;
      if !route.Renews() {
        reply := GrantLevel1(o);
        if reply == Done {
          reply := GrantLevel2(o);
        }
      }
      if reply != Done {
        users, orders, payments := savedUsers, savedOrders, savedPayments;
        payouts := savedPayouts;
      }
    }

    // --- review -------------------------------------------------------------

    /** Only one admin can move a payment out of "pending". */
    method ClaimReview(p: nat) returns (reply: Reply)
      modifies this`payments
      ensures match Handlers.ClaimReview(old(T()), p)
              case Success(h) => reply == Done && p in payments && Handover(T(), payments[p].order, p) == h
              case Failure(why) => reply == Fail(why) && T() == old(T())
    {
      if p !in payments || payments[p].status != Unreviewed { return Fail(NotPending); }
      payments := payments[p := payments[p].(status := Approved)];
      reply := Done;
    }

    method ApprovePayment(p: nat, route: Route) returns (reply: Reply)
      modifies this
      ensures Answers(old(T()), T(), Handlers.ApprovePayment(old(T()), p, route), reply)
    {
      reply := ClaimReview(p);
      if reply == Done {
        Deliver(payments[p].order, p, route);
      }
    }

    method RejectPayment(p: nat) returns (reply: Reply)
      modifies this
      ensures Answers(old(T()), T(), Handlers.RejectPayment(old(T()), p), reply)
    {
      if p !in payments { return Fail(NotFound); }
      if payments[p].status != Unreviewed { return Fail(NotPending); }
      var o := payments[p].order;
      var savedOrders, savedPayments := orders, payments;
      payments := payments[p := payments[p].(status := Refused)];
      if o >= |orders| { return Done; }
      orders := orders[o := orders[o].(status := Rejected)];
      if orders[o].debit != 0 {
        reply := CreditBalance(orders[o].user, orders[o].debit);
        if reply != Done {
          orders, payments := savedOrders, savedPayments;
          return;
        }
        orders := orders[o := orders[o].(debit := 0)];
      }
      assert orders == savedOrders[o := savedOrders[o].(status := Rejected, debit := 0)];
      reply := Done;
    }

    method RequestTopUp(user: int, amount: int) returns (reply: Reply)
      modifies this
      ensures Answers(old(T()), T(), Handlers.RequestTopUp(old(T()), user, amount), reply)
    {
      if amount < 1 { return Fail(InvalidAmount); }
      if user !in users { return Fail(UnknownUser); }
      topups := topups + [TopUp(user, amount, None, Requested)];
      reply := Done;
    }

    method ApproveTopUp(i: nat) returns (reply: Reply)
      modifies this
      ensures Answers(old(T()), T(), Handlers.ApproveTopUp(old(T()), i), reply)
    {
      if i >= |topups| || topups[i].status != Requested { return Fail(NotPending); }
      var saved := topups;
      var amount := topups[i].requested;
      topups := topups[i := topups[i].(status := Granted, credited := Some(amount))];
      reply := CreditBalance(topups[i].user, amount);
      if reply != Done {
        topups := saved;
      }
    }

    method RejectTopUp(i: nat) returns (reply: Reply)
      modifies this
      ensures Answers(old(T()), T(), Handlers.RejectTopUp(old(T()), i), reply)
    {
      if i >= |topups| || topups[i].status != Requested { return Fail(NotPending); }
      topups := topups[i := topups[i].(status := Declined)];
      reply := Done;
    }

    method CreditUser(user: int, amount: int) returns (reply: Reply)
      modifies this
      ensures Answers(old(T()), T(), Handlers.CreditUser(old(T()), user, amount), reply)
    {
      reply := CreditBalance(user, amount);
      if reply == Done {
        grants := grants + [Grant(user, amount)];
      }
    }

    // --- trial and free renewal ---------------------------------------------

    /** Claim the trial: mark the customer, add the paid order and its pending payment. */
    method ClaimTrial(user: int, enabled: bool, days: int, gigabytes: int, subscribed: bool, now: int)
      returns (reply: Reply)
      modifies this`users, this`orders, this`payments, this`nextPayment
      ensures match Handlers.ClaimTrial(old(T()), user, enabled, days, gigabytes, subscribed, now)
              case Success(h) => reply == Done && Handover(T(), old(|orders|), old(nextPayment)) == h
              case Failure(why) => reply == Fail(why) && T() == old(T())
    {
      if !enabled || (days <= 0 && gigabytes <= 0) || subscribed { return Fail(TrialUnavailable); }
      if exists o | 0 <= o < |orders| :: orders[o].user == user && orders[o].trial { return Fail(TrialUnavailable); }
      if user !in users { return Fail(UnknownUser); }
      if users[user].trialUsed { return Fail(TrialUnavailable); }
      var savedUsers, savedOrders := users, orders;
      users := users[user := users[user].(trialUsed := true)];
      var o := |orders|;
      orders := orders + [TrialOrder(user, days, gigabytes, now)];
      reply := AddPayment(o, Unreviewed, Channel.Trial);
      if reply != Done {
        users, orders := savedUsers, savedOrders;
      }
    }

    method TakeTrial(user: int, enabled: bool, days: int, gigabytes: int, subscribed: bool, now: int, route: Route)
      returns (reply: Reply)
      modifies this
      ensures Answers(old(T()), T(),
                      Handlers.TakeTrial(old(T()), user, enabled, days, gigabytes, subscribed, now, route), reply)
    {
      var o, p := |orders|, nextPayment;
      reply := ClaimTrial(user, enabled, days, gigabytes, subscribed, now);
      if reply == Done {
        Deliver(o, p, route);
      }
    }

    method RenewUser(user: int, account: Option<nat>, now: int) returns (reply: Reply)
      modifies this
      ensures Answers(old(T()), T(), Handlers.RenewUser(old(T()), user, account, now), reply)
    {
      if account.None? { return Fail(NoAccount); }
      if user !in users { return Fail(UnknownUser); }
      orders := orders + [Order(user, RENEW_DAYS, 0, 0, None, 1, account, None, false, false, now,
                                0, false, false, Completed, None)];
      reply := Done;
    }

    // --- cleanup and promo codes --------------------------------------------

    /** Count the reservations of the selected orders, code by code. */
    method CountReservations(ids: seq<nat>) returns (released: map<string, nat>)
      requires forall k | 0 <= k < |ids| :: ids[k] < |orders|
      ensures forall c :: Tally(released, c) == CountCodes(orders, ids, c)
      ensures forall c | c in released :: released[c] > 0
    {
      released := map[];
      for k := 0 to |ids|
        invariant forall c :: Tally(released, c) == CountCodes(orders, ids[..k], c)
        invariant forall c | c in released :: released[c] > 0
      {
        assert ids[..k + 1][..k] == ids[..k];
        var promo := orders[ids[k]].promo;
        if promo.Some? {
          released := released[promo.value := Tally(released, promo.value) + 1];
        }
      }
      assert ids[..|ids|] == ids;
    }

    /** Lower the counter of every released code that still exists. */
    method GiveBack(released: map<string, nat>)
      modifies this`promos
      ensures GivenBack(old(promos), promos, released)
    {
      var codes := released.Keys;
      while codes != {}
        invariant codes <= released.Keys
        invariant promos.Keys == old(promos).Keys
        invariant forall c | c in promos ::
          promos[c] == if c in codes then old(promos)[c] else Release(old(promos)[c], Tally(released, c))
        decreases codes
      {
        var c :| c in codes;
        if c in promos {
          promos := promos[c := Release(promos[c], released[c])];
        }
        codes := codes - {c};
      }
    }

    /** The last loop of the cleanup: every selected order is cancelled. */
    method CancelOrders(ids: seq<nat>)
      requires forall k | 0 <= k < |ids| :: ids[k] < |orders|
      modifies this`orders
      ensures OrdersCancelled(old(orders), orders, ids)
    {
      for k := 0 to |ids|
        invariant |orders| == old(|orders|)
        invariant forall i | 0 <= i < |orders| ::
          orders[i] == if i in ids[..k] then old(orders)[i].(status := Cancelled) else old(orders)[i]
      {
        assert ids[..k + 1] == ids[..k] + [ids[k]];
        orders := orders[ids[k] := orders[ids[k]].(status := Cancelled)];
      }
      assert ids[..|ids|] == ids;
    }

    /** A pending payment would block a new one for the same order. */
    method DeletePending(ids: seq<nat>)
      modifies this`payments
      ensures PendingDeleted(old(payments), payments, ids)
    {
      payments := map p | p in payments && !(payments[p].order in ids && payments[p].status == Unreviewed) :: payments[p];
    }

    /** The whole cleanup; it reports how many orders it cancelled. */
    method CancelStale(cutoff: int) returns (count: nat)
      modifies this
      ensures Handlers.CancelStale(old(T()), cutoff) == Success(T())
      ensures |orders| == old(|orders|) && count == |NewlyCancelled(old(orders), orders)|
      ensures forall i | 0 <= i < |orders| ::
        orders[i].status == Cancelled <==> old(orders)[i].status == Cancelled || IsAbandoned(old(orders)[i], cutoff)
    {
      var ids := StaleIds(orders, cutoff);
      var released := CountReservations(ids);
      GiveBack(released);
      DeletePending(ids);
      CancelOrders(ids);
      count := |ids|;
      LoopsMakeCleanup(old(T()), T(), cutoff, ids, released);
      CleanupCounts(old(orders), orders, cutoff);
    }

    method CreatePromo(code: string, kind: PromoKind, value: int, maxUses: int) returns (reply: Reply)
      modifies this
      ensures Answers(old(T()), T(), Handlers.CreatePromo(old(T()), code, kind, value, maxUses), reply)
    {
      if code == "" || value <= 0 || code in promos { return Fail(InvalidPromo); }
      promos := promos[code := Promo(kind, value, maxUses, 0, true, None)];
      reply := Done;
    }

    method TogglePromo(code: string) returns (reply: Reply)
      modifies this
      ensures Answers(old(T()), T(), Handlers.TogglePromo(old(T()), code), reply)
    {
      if code !in promos { return Fail(NotFound); }
      promos := promos[code := promos[code].(active := !promos[code].active)];
      reply := Done;
    }
  }
}
