/** Referral rewards: at most one credit of each level for each buyer, and at most a quarter of what was earned. */
module Cashback {
  import opened Results
  import opened Sums
  import opened Schema
  import opened Handlers
  import opened Operations
  import opened Machine
  import opened Referrals

  const AMOUNT: Payout -> int := (row: Payout) => row.amount

  /** What a completed discounted order brought in. */
  const REVENUE: Order -> int := (order: Order) => if order.status == Completed && order.discounted then order.price else 0

  /** The credit is marked on the order it came from. */
  predicate Marks(t: Tables, row: Payout) {
    && row.order < |t.orders|
    && t.orders[row.order].user == row.buyer
    && ((row.level == 1 && t.orders[row.order].cashback1) || (row.level == 2 && t.orders[row.order].cashback2))
    && row.to != row.buyer
  }

  ghost predicate PaidOnce(t: Tables) {
    && (forall k | 0 <= k < |t.payouts| :: Marks(t, t.payouts[k]))
    && (forall j, k | 0 <= j < k < |t.payouts| && t.payouts[j].buyer == t.payouts[k].buyer ::
          t.payouts[j].level != t.payouts[k].level)
  }

  ghost predicate WithinRevenue(t: Tables) {
    100 * Sum(t.payouts, AMOUNT) <= (CASHBACK_PERCENT + CASHBACK_LEVEL2_PERCENT) * Sum(t.orders, REVENUE)
  }

  ghost predicate Rewarded(t: Tables) {
    PaidOnce(t) && WithinRevenue(t)
  }

  /** A credit of `level` for order `o`, after the order was flagged for it. */
  ghost predicate Pays(t: Tables, t': Tables, o: nat, level: nat, to: int, amount: int) {
    && o < |t.orders| == |t'.orders|
    && t'.orders == t.orders[o := if level == 1 then t.orders[o].(cashback1 := true) else t.orders[o].(cashback2 := true)]
    && t'.payouts == t.payouts + [Payout(o, t.orders[o].user, level, to, amount)]
  }

  /** An earlier credit of the same buyer and level would have left its mark on another order. */
  lemma NoEarlierPayout(t: Tables, o: nat, level: nat, k: nat)
    requires PaidOnce(t) && o < |t.orders| && k < |t.payouts| && t.payouts[k].buyer == t.orders[o].user
    requires (level == 1 && !t.orders[o].cashback1 && !PriorCashback1(t, o))
          || (level == 2 && !t.orders[o].cashback2 && !PriorCashback2(t, o))
    ensures t.payouts[k].level != level
  {
    assert Marks(t, t.payouts[k]);
  }

  lemma NewPayout(t: Tables, t': Tables, o: nat, level: nat, to: int, amount: int)
    requires PaidOnce(t) && Pays(t, t', o, level, to, amount) && to != t.orders[o].user
    requires (level == 1 && !t.orders[o].cashback1 && !PriorCashback1(t, o))
          || (level == 2 && !t.orders[o].cashback2 && !PriorCashback2(t, o))
    ensures PaidOnce(t')
    ensures Sum(t'.payouts, AMOUNT) == Sum(t.payouts, AMOUNT) + amount
  {
    SumAppend(t.payouts, Payout(o, t.orders[o].user, level, to, amount), AMOUNT);
    forall k | 0 <= k < |t.payouts|
      ensures Marks(t', t'.payouts[k]) && (t.payouts[k].buyer == t.orders[o].user ==> t.payouts[k].level != level)
    {
      assert Marks(t, t.payouts[k]);
      if t.payouts[k].buyer == t.orders[o].user {
        NoEarlierPayout(t, o, level, k);
      }
    }
  }

  lemma FlaggedPaidOnce(t: Tables, t': Tables, o: nat)
    requires PaidOnce(t) && PaysCashback(t, t', o) && t'.payouts == t.payouts
    ensures PaidOnce(t')
  {
    forall k | 0 <= k < |t.payouts|
      ensures Marks(t', t'.payouts[k])
    {
      assert Marks(t, t.payouts[k]);
    }
  }

  lemma Level1PaidOnce(t: Tables, o: nat)
    requires o < |t.orders| && PaidOnce(t) && Forest(t) && t.orders[o].price >= 0 && GrantLevel1(t, o).Success?
    ensures
      var t' := GrantLevel1(t, o).value;
      && PaidOnce(t')
      && 100 * (Sum(t'.payouts, AMOUNT) - Sum(t.payouts, AMOUNT))
           <= if t.orders[o].discounted then CASHBACK_PERCENT * t.orders[o].price else 0
  {
    var t' := GrantLevel1(t, o).value;
    Level1Shape(t, o);
    if t'.payouts == t.payouts {
      FlaggedPaidOnce(t, t', o);
    } else {
      NoReferralCycle(t, t.orders[o].user, 1);
      assert Ancestor(t, t.orders[o].user, 0) == Some(t.orders[o].user);
      NewPayout(t, t', o, 1, Referrer(t, t.orders[o].user).value,
                Max(t.orders[o].price, 0) * CASHBACK_PERCENT / 100);
    }
  }

  lemma Level2PaidOnce(t: Tables, o: nat)
    requires o < |t.orders| && PaidOnce(t) && Forest(t) && t.orders[o].price >= 0 && GrantLevel2(t, o).Success?
    ensures
      var t' := GrantLevel2(t, o).value;
      && PaidOnce(t')
      && 100 * (Sum(t'.payouts, AMOUNT) - Sum(t.payouts, AMOUNT))
           <= if t.orders[o].discounted then CASHBACK_LEVEL2_PERCENT * t.orders[o].price else 0
  {
    var t' := GrantLevel2(t, o).value;
    Level2Shape(t, o);
    if t'.payouts == t.payouts {
      FlaggedPaidOnce(t, t', o);
    } else {
      NewPayout(t, t', o, 2, Referrer(t, Referrer(t, t.orders[o].user).value).value,
                Max(t.orders[o].price, 0) * CASHBACK_LEVEL2_PERCENT / 100);
    }
  }

  lemma MarkedPaidOnce(t: Tables, o: nat, p: nat, route: Route)
    requires PaidOnce(t) && o < |t.orders| && p in t.payments
    ensures PaidOnce(Marked(t, o, p, route))
  {
    var t' := Marked(t, o, p, route);
    forall k | 0 <= k < |t'.payouts|
      ensures Marks(t', t'.payouts[k])
    {
      assert Marks(t, t.payouts[k]);
    }
  }

  /** Both levels together credit at most a quarter of the order's price. */
  lemma GrantsPaidOnce(t: Tables, o: nat)
    requires o < |t.orders| && PaidOnce(t) && Forest(t) && t.orders[o].price >= 0
    requires GrantLevel1(t, o).Success? && GrantLevel2(GrantLevel1(t, o).value, o).Success?
    ensures
      var t' := GrantLevel2(GrantLevel1(t, o).value, o).value;
      && PaidOnce(t')
      && 100 * (Sum(t'.payouts, AMOUNT) - Sum(t.payouts, AMOUNT))
           <= if t.orders[o].discounted then (CASHBACK_PERCENT + CASHBACK_LEVEL2_PERCENT) * t.orders[o].price else 0
  {
    var t1 := GrantLevel1(t, o).value;
    Level1PaidOnce(t, o);
    Level1Shape(t, o);
    SameKeysSameSize(t.users, t1.users);
    Level2PaidOnce(t1, o);
  }

  lemma CompletePaidOnce(h: Handover, route: Route)
    requires PaidOnce(h.t) && Forest(h.t) && Deliverable(h.t, h.o, h.p) && h.t.orders[h.o].price >= 0
    requires Complete(h.t, h.o, h.p, route).Success?
    ensures
      var t' := Complete(h.t, h.o, h.p, route).value;
      && PaidOnce(t')
      && 100 * (Sum(t'.payouts, AMOUNT) - Sum(h.t.payouts, AMOUNT))
           <= if h.t.orders[h.o].discounted then (CASHBACK_PERCENT + CASHBACK_LEVEL2_PERCENT) * h.t.orders[h.o].price else 0
  {
    MarkedPaidOnce(h.t, h.o, h.p, route);
    if !route.Renews() {
      GrantsPaidOnce(Marked(h.t, h.o, h.p, route), h.o);
    }
  }

  /** The order's price enters the revenue in the step that pays its cashback. */
  lemma SettlesRevenue(t: Tables, t': Tables, o: nat, p: nat, route: Route)
    requires Deliverable(t, o, p) && Settles(t, t', o, p, route)
    ensures Sum(t'.orders, REVENUE) == Sum(t.orders, REVENUE) + if t.orders[o].discounted then t.orders[o].price else 0
  {
    SumUpdate(t.orders, o, t'.orders[o], REVENUE);
    assert t'.orders == t.orders[o := t'.orders[o]];
  }

  lemma CompleteRewarded(h: Handover, route: Route)
    requires Rewarded(h.t) && Forest(h.t) && OrdersAgree(h.t) && Deliverable(h.t, h.o, h.p)
    requires Complete(h.t, h.o, h.p, route).Success?
    ensures Rewarded(Complete(h.t, h.o, h.p, route).value)
  {
    assert DebitFits(h.t.orders[h.o]);
    CompletePaidOnce(h, route);
    CompleteShape(h.t, h.o, h.p, route);
    SettlesRevenue(h.t, Complete(h.t, h.o, h.p, route).value, h.o, h.p, route);
  }

  lemma DeliverRewarded(h: Handover, route: Route)
    requires Rewarded(h.t) && Forest(h.t) && OrdersAgree(h.t) && Deliverable(h.t, h.o, h.p)
    ensures Rewarded(Deliver(h, route))
  {
    if Deliver(h, route) != h.t {
      CompleteRewarded(h, route);
    }
  }

  lemma {:induction false} RevenueGrows(before: seq<Order>, after: seq<Order>)
    requires |before| <= |after|
    requires forall i | 0 <= i < |before| :: OrderLater(before[i], after[i])
    requires forall i | 0 <= i < |after| :: after[i].price >= 0
    ensures Sum(before, REVENUE) <= Sum(after, REVENUE)
  {
    if after != [] {
      var last := |after| - 1;
      if |before| == |after| {
        assert OrderLater(before[last], after[last]);
        RevenueGrows(before[..last], after[..last]);
      } else {
        RevenueGrows(before, after[..last]);
      }
    }
  }

  /** Steps that credit nobody keep the marks and can only add revenue. */
  lemma EvolvesRewarded(t: Tables, t': Tables)
    requires Rewarded(t) && Evolves(t, t') && OrdersAgree(t') && t'.payouts == t.payouts
    ensures Rewarded(t')
  {
    forall k | 0 <= k < |t.payouts|
      ensures Marks(t', t'.payouts[k])
    {
      assert Marks(t, t.payouts[k]);
      assert OrderLater(t.orders[t.payouts[k].order], t'.orders[t.payouts[k].order]);
    }
    assert forall i | 0 <= i < |t'.orders| :: DebitFits(t'.orders[i]);
    RevenueGrows(t.orders, t'.orders);
  }

  lemma OtherStepsKeepPayouts(t: Tables, op: Op)
    requires HandedOver(t, op).None?
    ensures Apply(t, op).payouts == t.payouts
  {
  }

  lemma DeliveringStepRewarded(t: Tables, op: Op)
    requires Rewarded(t) && Forest(t) && Sound(t) && HandedOver(t, op).Some?
    ensures Rewarded(Deliver(HandedOver(t, op).value, op.route))
  {
    var h := HandedOver(t, op).value;
    HandedOverSound(t, op);
    HandedOverKeepsCustomers(t, op);
    SameKeysSameSize(t.users, h.t.users);
    EvolvesRewarded(t, h.t);
    DeliverRewarded(h, op.route);
  }

  /** Every step keeps cashback single and within a quarter of the discounted revenue. */
  lemma StepRewarded(t: Tables, op: Op)
    requires Rewarded(t) && Forest(t) && Sound(t) && Priced(op)
    ensures Rewarded(Apply(t, op))
  {
    if HandedOver(t, op).Some? {
      DeliveringStepRewarded(t, op);
      ApplyDelivers(t, op);
    } else {
      StepSound(t, op);
      OtherStepsKeepPayouts(t, op);
      EvolvesRewarded(t, Apply(t, op));
    }
  }
}
