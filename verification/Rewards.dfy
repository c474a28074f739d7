/** Cashback, seen from both sides: every payout is exactly what its order earned, and no earned payout is missing. */
module Rewards {
  import opened Results
  import opened Schema
  import opened Handlers
  import opened Operations
  import opened Machine
  import opened Referrals
  import opened OrderMoves
  import opened Runs
  import Cashback

  predicate IsLevel(level: nat) {
    level == 1 || level == 2
  }

  function Share(price: int, level: nat): int {
    Max(price, 0) * (if level == 1 then CASHBACK_PERCENT else CASHBACK_LEVEL2_PERCENT) / 100
  }

  predicate Flagged(order: Order, level: nat) {
    if level == 1 then order.cashback1 else order.cashback2
  }

  /** The customer `level` referral links above the buyer. */
  function Recipient(t: Tables, buyer: int, level: nat): Option<int> {
    if level == 1 then Referrer(t, buyer)
    else
      match Referrer(t, buyer)
      case None => None
      case Some(level1) => Referrer(t, level1)
  }

  predicate IsExact(t: Tables, row: Payout) {
    && IsLevel(row.level)
    && row.order < |t.orders|
    && t.orders[row.order].user == row.buyer
    && t.orders[row.order].discounted && t.orders[row.order].renews.None?
    && row.amount == Share(t.orders[row.order].price, row.level) >= 1
    && Recipient(t, row.buyer, row.level) == Some(row.to)
  }

  predicate IsPaidBy(t: Tables, k: int, buyer: int, level: nat) {
    0 <= k < |t.payouts| && t.payouts[k].buyer == buyer && t.payouts[k].level == level
  }

  predicate IsTooSmall(t: Tables, o: int, buyer: int, level: nat) {
    0 <= o < |t.orders| && t.orders[o].user == buyer && Flagged(t.orders[o], level) && Share(t.orders[o].price, level) < 1
  }

  /** The buyer's referral was rewarded, or used up by an order whose share rounds to nothing. */
  ghost predicate Answered(t: Tables, buyer: int, level: nat) {
    (exists k :: IsPaidBy(t, k, buyer, level)) || (exists o :: IsTooSmall(t, o, buyer, level))
  }

  /** An order that earns cashback: discounted, not a renewal, and delivered as a new account. */
  predicate Earns(order: Order) {
    order.discounted && order.renews.None? && order.route.Some? && order.route.value.Delivers() && !order.route.value.Renews()
  }

  ghost predicate RowsExact(t: Tables) {
    forall k | 0 <= k < |t.payouts| :: IsExact(t, t.payouts[k])
  }

  ghost predicate NoneForgotten(t: Tables) {
    forall o, level | 0 <= o < |t.orders| && IsLevel(level) && Flagged(t.orders[o], level)
      && Recipient(t, t.orders[o].user, level).Some? :: Answered(t, t.orders[o].user, level)
  }

  predicate EarnersFlagged(orders: seq<Order>) {
    forall o | 0 <= o < |orders| && Earns(orders[o]) :: orders[o].cashback1 && orders[o].cashback2
  }

  ghost predicate Exact(t: Tables) {
    RowsExact(t) && NoneForgotten(t)
  }

  // --- what stays -----------------------------------------------------------

  predicate UsersIn(t: Tables) {
    forall o | 0 <= o < |t.orders| :: t.orders[o].user in t.users
  }

  ghost predicate SamePeople(t: Tables, t': Tables) {
    forall u | u in t.users :: u in t'.users && SamePerson(t.users[u], t'.users[u])
  }

  lemma RecipientStays(t: Tables, t': Tables, buyer: int, level: nat)
    requires Forest(t) && SamePeople(t, t') && buyer in t.users
    ensures Recipient(t', buyer, level) == Recipient(t, buyer, level)
  {
  }

  /** Orders keep their buyers, prices and flags; new ones have no flags. */
  predicate SameRewards(before: seq<Order>, after: seq<Order>) {
    && |before| <= |after|
    && (forall o | 0 <= o < |before| ::
          && after[o].user == before[o].user && after[o].price == before[o].price
          && after[o].discounted == before[o].discounted && after[o].renews == before[o].renews
          && after[o].cashback1 == before[o].cashback1 && after[o].cashback2 == before[o].cashback2)
    && (forall o | |before| <= o < |after| :: !after[o].cashback1 && !after[o].cashback2)
  }

  lemma SameRewardsExact(t: Tables, t': Tables)
    requires Exact(t) && Forest(t) && UsersIn(t) && SamePeople(t, t')
    requires SameRewards(t.orders, t'.orders) && t'.payouts == t.payouts
    ensures Exact(t')
  {
    forall k | 0 <= k < |t'.payouts|
      ensures IsExact(t', t'.payouts[k])
    {
      assert IsExact(t, t.payouts[k]);
      RecipientStays(t, t', t.payouts[k].buyer, t.payouts[k].level);
    }
    forall o, level | 0 <= o < |t'.orders| && IsLevel(level) && Flagged(t'.orders[o], level)
      && Recipient(t', t'.orders[o].user, level).Some?
      ensures Answered(t', t'.orders[o].user, level)
    {
      var buyer := t'.orders[o].user;
      RecipientStays(t, t', buyer, level);
      assert Flagged(t.orders[o], level) && Answered(t, buyer, level);
      AnsweredStays(t, t', buyer, level);
    }
  }

  /** Flags are only ever set, and payouts only ever added. */
  predicate GrowsRewards(t: Tables, t': Tables) {
    && t.payouts <= t'.payouts
    && |t.orders| <= |t'.orders|
    && forall o | 0 <= o < |t.orders| ::
         && t'.orders[o].user == t.orders[o].user && t'.orders[o].price == t.orders[o].price
         && (t.orders[o].cashback1 ==> t'.orders[o].cashback1) && (t.orders[o].cashback2 ==> t'.orders[o].cashback2)
  }

  lemma AnsweredStays(t: Tables, t': Tables, buyer: int, level: nat)
    requires Answered(t, buyer, level) && GrowsRewards(t, t')
    ensures Answered(t', buyer, level)
  {
    if k :| IsPaidBy(t, k, buyer, level) {
      assert IsPaidBy(t', k, buyer, level);
    } else {
      var o :| IsTooSmall(t, o, buyer, level);
      assert IsTooSmall(t', o, buyer, level);
    }
  }

  // --- one grant ------------------------------------------------------------

  predicate SetsFlag(a: Order, b: Order, level: nat) {
    b == if level == 1 then a.(cashback1 := true) else a.(cashback2 := true)
  }

  /** Order `o` is flagged at a level; if somebody is due for it, they are paid or were answered before. */
  ghost predicate Grants(t: Tables, t': Tables, o: nat, level: nat) {
    && IsLevel(level)
    && o < |t.orders| == |t'.orders|
    && SetsFlag(t.orders[o], t'.orders[o], level)
    && t'.orders == t.orders[o := t'.orders[o]]
    && SamePeople(t, t')
    && (t'.payouts == t.payouts
        || exists row :: t'.payouts == t.payouts + [row] && IsExact(t', row))
    && (Recipient(t, t.orders[o].user, level).Some? ==> Answered(t', t.orders[o].user, level))
  }

  lemma GrantsExact(t: Tables, t': Tables, o: nat, level: nat)
    requires Exact(t) && Forest(t) && UsersIn(t) && Grants(t, t', o, level)
    ensures Exact(t')
  {
    forall k | 0 <= k < |t'.payouts|
      ensures IsExact(t', t'.payouts[k])
    {
      if k < |t.payouts| {
        assert t'.payouts[k] == t.payouts[k] && IsExact(t, t.payouts[k]);
        RecipientStays(t, t', t.payouts[k].buyer, t.payouts[k].level);
      }
    }
    forall q, l | 0 <= q < |t'.orders| && IsLevel(l) && Flagged(t'.orders[q], l)
      && Recipient(t', t'.orders[q].user, l).Some?
      ensures Answered(t', t'.orders[q].user, l)
    {
      var buyer := t'.orders[q].user;
      RecipientStays(t, t', buyer, l);
      if q != o || l != level {
        assert Flagged(t.orders[q], l) && Answered(t, buyer, l);
        AnsweredStays(t, t', buyer, l);
      }
    }
  }

  /** An earlier flag of the same buyer means that the referral was answered then. */
  lemma PriorAnswered(t: Tables, t': Tables, o: nat, level: nat, k: int)
    requires Exact(t) && o < |t.orders| && GrowsRewards(t, t') && IsLevel(level)
    requires 0 <= k < |t.orders| && t.orders[k].user == t.orders[o].user && Flagged(t.orders[k], level)
    requires Recipient(t, t.orders[o].user, level).Some?
    ensures Answered(t', t.orders[o].user, level)
  {
    assert Answered(t, t.orders[k].user, level);
    AnsweredStays(t, t', t.orders[k].user, level);
  }

  lemma Level1Grants(t: Tables, o: nat)
    requires Exact(t) && Forest(t) && o < |t.orders| && t.orders[o].user in t.users && GrantLevel1(t, o).Success?
    ensures GrantLevel1(t, o).value == t || Grants(t, GrantLevel1(t, o).value, o, 1)
    ensures t.orders[o].discounted && t.orders[o].renews.None? ==> GrantLevel1(t, o).value.orders[o].cashback1
  {
    var t' := GrantLevel1(t, o).value;
    if t' != t {
      var buyer := t.orders[o].user;
      if Referrer(t, buyer).Some? {
        if Share(t.orders[o].price, 1) < 1 {
          assert IsTooSmall(t', o, buyer, 1);
        } else if PriorCashback1(t, o) {
          var k :| 0 <= k < |t.orders| && k != o && t.orders[k].user == buyer && t.orders[k].cashback1;
          PriorAnswered(t, t', o, 1, k);
        } else {
          var row := Payout(o, buyer, 1, Referrer(t, buyer).value, Share(t.orders[o].price, 1));
          assert t'.payouts == t.payouts + [row] && IsExact(t', row);
          assert IsPaidBy(t', |t.payouts|, buyer, 1);
        }
      }
    }
  }

  lemma Level2Grants(t: Tables, o: nat)
    requires Exact(t) && Forest(t) && o < |t.orders| && t.orders[o].user in t.users && GrantLevel2(t, o).Success?
    ensures GrantLevel2(t, o).value == t || Grants(t, GrantLevel2(t, o).value, o, 2)
    ensures t.orders[o].discounted && t.orders[o].renews.None? ==> GrantLevel2(t, o).value.orders[o].cashback2
  {
    var t' := GrantLevel2(t, o).value;
    if t' != t {
      var buyer := t.orders[o].user;
      if Recipient(t, buyer, 2).Some? {
        if Share(t.orders[o].price, 2) < 1 {
          assert IsTooSmall(t', o, buyer, 2);
        } else if PriorCashback2(t, o) {
          var k :| 0 <= k < |t.orders| && k != o && t.orders[k].user == buyer && t.orders[k].cashback2;
          PriorAnswered(t, t', o, 2, k);
        } else {
          RecipientsDistinct(t, buyer, Referrer(t, buyer).value, Recipient(t, buyer, 2).value);
          var row := Payout(o, buyer, 2, Recipient(t, buyer, 2).value, Share(t.orders[o].price, 2));
          assert t'.payouts == t.payouts + [row] && IsExact(t', row);
          assert IsPaidBy(t', |t.payouts|, buyer, 2);
        }
      }
    }
  }

  // --- whole steps and runs -------------------------------------------------

  ghost predicate Fair(t: Tables) {
    Exact(t) && EarnersFlagged(t.orders)
  }

  lemma MarkedExact(t: Tables, o: nat, p: nat, route: Route)
    requires Exact(t) && Forest(t) && UsersIn(t) && o < |t.orders| && p in t.payments
    ensures Exact(Marked(t, o, p, route)) && Forest(Marked(t, o, p, route)) && UsersIn(Marked(t, o, p, route))
  {
    SameRewardsExact(t, Marked(t, o, p, route));
  }

  lemma Level1Fair(t: Tables, o: nat)
    requires Exact(t) && Forest(t) && UsersIn(t) && o < |t.orders| && GrantLevel1(t, o).Success?
    ensures Exact(GrantLevel1(t, o).value) && Forest(GrantLevel1(t, o).value) && UsersIn(GrantLevel1(t, o).value)
  {
    var t' := GrantLevel1(t, o).value;
    Level1Shape(t, o);
    ForestStays(t, t');
    Level1Grants(t, o);
    if t' != t {
      GrantsExact(t, t', o, 1);
    }
  }

  lemma Level2Fair(t: Tables, o: nat)
    requires Exact(t) && Forest(t) && UsersIn(t) && o < |t.orders| && GrantLevel2(t, o).Success?
    ensures Exact(GrantLevel2(t, o).value)
  {
    var t' := GrantLevel2(t, o).value;
    Level2Grants(t, o);
    if t' != t {
      GrantsExact(t, t', o, 2);
    }
  }

  lemma CompleteExact(t: Tables, o: nat, p: nat, route: Route)
    requires Exact(t) && Forest(t) && UsersIn(t) && o < |t.orders| && p in t.payments
    requires Complete(t, o, p, route).Success?
    ensures Exact(Complete(t, o, p, route).value)
  {
    var t1 := Marked(t, o, p, route);
    MarkedExact(t, o, p, route);
    if !route.Renews() {
      Level1Fair(t1, o);
      Level1Shape(t1, o);
      Level2Fair(GrantLevel1(t1, o).value, o);
    }
  }

  lemma GrantsFlag(t: Tables, o: nat)
    requires o < |t.orders| && t.orders[o].discounted && t.orders[o].renews.None?
    requires GrantLevel1(t, o).Success? && GrantLevel2(GrantLevel1(t, o).value, o).Success?
    ensures
      var order := GrantLevel2(GrantLevel1(t, o).value, o).value.orders[o];
      order.cashback1 && order.cashback2
  {
    var t1 := GrantLevel1(t, o).value;
    Level1Shape(t, o);
    Level2Shape(t1, o);
    assert t1.orders[o].cashback1;
  }

  lemma CompleteFlags(t: Tables, o: nat, p: nat, route: Route)
    requires EarnersFlagged(t.orders) && o < |t.orders| && p in t.payments && Complete(t, o, p, route).Success?
    ensures EarnersFlagged(Complete(t, o, p, route).value.orders)
  {
    var t' := Complete(t, o, p, route).value;
    CompleteShape(t, o, p, route);
    if Earns(t'.orders[o]) {
      GrantsFlag(Marked(t, o, p, route), o);
    }
  }

  lemma DeliverFair(h: Handover, route: Route)
    requires Fair(h.t) && Forest(h.t) && UsersIn(h.t)
    ensures Fair(Deliver(h, route))
  {
    if Deliver(h, route) != h.t {
      CompleteExact(h.t, h.o, h.p, route);
      CompleteFlags(h.t, h.o, h.p, route);
    }
  }

  lemma KeptOrdersFair(t: Tables, t': Tables)
    requires Fair(t) && Forest(t) && UsersIn(t) && SamePeople(t, t')
    requires KeepsOrders(t.orders, t'.orders) && t'.payouts == t.payouts
    ensures Fair(t')
  {
    forall o | 0 <= o < |t.orders|
      ensures t'.orders[o] == t.orders[o].(status := t'.orders[o].status, debit := t'.orders[o].debit)
    {
      assert OnlyPaymentMoves(t.orders[o], t'.orders[o]);
    }
    SameRewardsExact(t, t');
  }

  lemma HandedOverFair(t: Tables, op: Op)
    requires Fair(t) && Forest(t) && Sound(t) && HandedOver(t, op).Some?
    ensures
      var h := HandedOver(t, op).value;
      Fair(h.t) && Forest(h.t) && UsersIn(h.t)
  {
    var h := HandedOver(t, op).value;
    TakingKeeps(t, op);
    HandedOverSound(t, op);
    HandedOverKeepsCustomers(t, op);
    ForestStays(t, h.t);
    KeptOrdersFair(t, h.t);
  }

  /** Every step keeps payouts exact and forgets nobody. */
  lemma StepFair(t: Tables, op: Op)
    requires Fair(t) && Forest(t) && Sound(t) && Priced(op)
    ensures Fair(Apply(t, op))
  {
    if HandedOver(t, op).Some? {
      HandedOverFair(t, op);
      DeliverFair(HandedOver(t, op).value, op.route);
      ApplyDelivers(t, op);
    } else {
      StepSound(t, op);
      QuietStepKeeps(t, op);
      Cashback.OtherStepsKeepPayouts(t, op);
      KeptOrdersFair(t, Apply(t, op));
    }
  }

  lemma {:induction false} RunFair(t: Tables, ops: seq<Op>)
    requires Healthy(t) && Fair(t) && AllPossible(t, ops)
    ensures Fair(Run(t, ops))
    decreases |ops|
  {
    if ops != [] {
      StepFair(t, ops[0]);
      StepHealthy(t, ops[0]);
      RunFair(Apply(t, ops[0]), ops[1..]);
    }
  }

  lemma ReachableFair(t: Tables)
    requires Reachable(t)
    ensures Fair(t)
  {
    var ops :| AllPossible(EMPTY, ops) && Run(EMPTY, ops) == t;
    EmptyHealthy();
    RunFair(EMPTY, ops);
  }

  /** Whatever was paid was due: 20 percent of the price to the referrer, 5 percent to the referrer's referrer. */
  lemma PayoutsAreEarned(t: Tables, k: nat)
    requires Reachable(t) && k < |t.payouts|
    ensures
      var row := t.payouts[k];
      && IsLevel(row.level) && row.order < |t.orders| && t.orders[row.order].user == row.buyer
      && t.orders[row.order].discounted && t.orders[row.order].renews.None?
      && row.amount == (if row.level == 1 then t.orders[row.order].price * 20 / 100 else t.orders[row.order].price * 5 / 100)
      && row.amount >= 1
      && Recipient(t, row.buyer, row.level) == Some(row.to)
  {
    ReachableFair(t);
    ReachableHealthy(t);
    assert IsExact(t, t.payouts[k]);
    assert DebitFits(t.orders[t.payouts[k].order]);
  }

  /** Whatever was due was paid: only a first share below 1 can leave a referral without its reward. */
  lemma NoRewardForgotten(t: Tables, o: nat, level: nat)
    requires Reachable(t) && o < |t.orders| && Earns(t.orders[o]) && IsLevel(level)
    requires Recipient(t, t.orders[o].user, level).Some?
    ensures
      || (exists k :: IsPaidBy(t, k, t.orders[o].user, level))
      || (exists q :: IsTooSmall(t, q, t.orders[o].user, level))
  {
    ReachableFair(t);
    assert Flagged(t.orders[o], level);
    assert Answered(t, t.orders[o].user, level);
  }
}
