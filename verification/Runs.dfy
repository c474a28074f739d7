/** Whole runs: from an empty shop, any sequence of steps leads to tables that keep all the promises. */
module Runs {
  import opened Results
  import opened Sums
  import opened Schema
  import opened Handlers
  import opened Operations
  import opened Machine
  import opened Ledger
  import opened PromoCounters
  import opened Referrals
  import opened Cashback

  ghost predicate Healthy(t: Tables) {
    Sound(t) && Solvent(t) && AllCounted(t) && Forest(t) && Rewarded(t)
  }

  lemma StepHealthy(t: Tables, op: Op)
    requires Healthy(t) && Possible(t, op)
    ensures Healthy(Apply(t, op)) && Evolves(t, Apply(t, op))
  {
    StepSound(t, op);
    StepSolvent(t, op);
    StepCounted(t, op);
    StepForest(t, op);
    StepRewarded(t, op);
  }

  lemma EmptyHealthy()
    ensures Healthy(EMPTY)
  {
  }

  lemma {:induction false} RunHealthy(t: Tables, ops: seq<Op>)
    requires Healthy(t) && AllPossible(t, ops)
    ensures Healthy(Run(t, ops)) && Evolves(t, Run(t, ops))
    decreases |ops|
  {
    EvolvesReflexive(t);
    if ops != [] {
      StepHealthy(t, ops[0]);
      RunHealthy(Apply(t, ops[0]), ops[1..]);
      EvolvesTransitive(t, Apply(t, ops[0]), Run(t, ops));
    }
  }

  /** A state of the shop: where some run from the empty tables ends. */
  ghost predicate Reachable(t: Tables) {
    exists ops :: AllPossible(EMPTY, ops) && Run(EMPTY, ops) == t
  }

  lemma ReachableHealthy(t: Tables)
    requires Reachable(t)
    ensures Healthy(t)
  {
    var ops :| AllPossible(EMPTY, ops) && Run(EMPTY, ops) == t;
    EmptyHealthy();
    RunHealthy(EMPTY, ops);
  }

  /** Conservation: a balance is what came in less what the customer's orders took. */
  lemma WalletConservation(t: Tables, user: int)
    requires Reachable(t) && user in t.users
    ensures t.users[user].balance >= 0
    ensures t.users[user].balance ==
      Sum(t.topups, TopUpOf(user)) + Sum(t.grants, GrantOf(user)) + t.users[user].earned - Sum(t.orders, DebitOf(user))
    ensures t.users[user].earned == Sum(t.payouts, PayoutTo(user))
  {
    ReachableHealthy(t);
  }

  /** Money is only held by orders that are paid or completed, and it is their exact price. */
  lemma DebitIsPrice(t: Tables, o: nat)
    requires Reachable(t) && o < |t.orders| && t.orders[o].debit != 0
    ensures t.orders[o].debit == t.orders[o].price
    ensures t.orders[o].status == Paid || t.orders[o].status == Completed
  {
    ReachableHealthy(t);
    assert DebitFits(t.orders[o]);
  }

  /** Completed, rejected and cancelled orders never change again, and a paid order never waits again. */
  lemma FinalStatesStay(t: Tables, ops: seq<Op>, o: nat)
    requires Reachable(t) && AllPossible(t, ops) && o < |t.orders|
    ensures
      var t' := Run(t, ops);
      && o < |t'.orders|
      && SameTerms(t.orders[o], t'.orders[o])
      && (Final(t.orders[o].status) ==> t'.orders[o].status == t.orders[o].status)
      && (!Waiting(t.orders[o].status) ==> !Waiting(t'.orders[o].status))
  {
    ReachableHealthy(t);
    RunHealthy(t, ops);
    EvolvesKeepsFinal(t, Run(t, ops), o);
  }

  /** In its whole life an order has at most one payment that is not a duplicate. */
  lemma OnePaymentForLife(t: Tables, ops: seq<Op>, p: nat, q: nat, o: nat)
    requires Reachable(t) && AllPossible(t, ops)
    requires CountsAsPayment(t, p, o) && CountsAsPayment(Run(t, ops), q, o)
    ensures p == q
  {
    ReachableHealthy(t);
    RunHealthy(t, ops);
    EvolvesKeepsPayment(t, Run(t, ops), p, o);
  }

  /** A pending payment means that its order is paid, and a paid order has its live payment. */
  lemma PendingMeansPaid(t: Tables)
    requires Reachable(t)
    ensures forall p | p in t.payments && t.payments[p].status == Unreviewed ::
      t.payments[p].order < |t.orders| && t.orders[t.payments[p].order].status == Paid
    ensures forall o | 0 <= o < |t.orders| && t.orders[o].status == Paid ::
      HasPaymentIn(t, o, {Unreviewed, Approved})
  {
    ReachableHealthy(t);
    forall o | 0 <= o < |t.orders| && t.orders[o].status == Paid
      ensures HasPaymentIn(t, o, {Unreviewed, Approved})
    {
      var p :| CountsAsPayment(t, p, o);
      assert Fits(t.payments[p].status, t.orders[o].status);
    }
  }

  /** A code's counter is the number of orders that hold it, within its limit. */
  lemma PromoConservation(t: Tables, code: string)
    requires Reachable(t) && code in t.promos
    ensures t.promos[code].used == Sum(t.orders, Holds(code)) >= 0
    ensures t.promos[code].maxUses > 0 ==> t.promos[code].used <= t.promos[code].maxUses
  {
    ReachableHealthy(t);
    assert Counted(t, code);
    SumNonNegative(t.orders, Holds(code));
  }

  /** Each buyer triggers at most one credit of each level, and never one to themself. */
  lemma OneRewardPerBuyer(t: Tables, j: nat, k: nat)
    requires Reachable(t) && j < k < |t.payouts| && t.payouts[j].buyer == t.payouts[k].buyer
    ensures t.payouts[j].level != t.payouts[k].level
    ensures t.payouts[j].to != t.payouts[j].buyer
  {
    ReachableHealthy(t);
    assert Marks(t, t.payouts[j]);
  }

  /** All cashback ever paid is at most a quarter of what completed discounted orders brought in. */
  lemma RewardsWithinQuarter(t: Tables)
    requires Reachable(t)
    ensures 4 * Sum(t.payouts, AMOUNT) <= Sum(t.orders, REVENUE)
  {
    ReachableHealthy(t);
  }

  /** No referral cycle, and the customer at the top of two links is not the buyer. */
  lemma ReferralsAreForest(t: Tables, user: int, steps: nat)
    requires Reachable(t) && user in t.users && steps > 0
    ensures Ancestor(t, user, steps) != Some(user)
  {
    ReachableHealthy(t);
    NoReferralCycle(t, user, steps);
  }
}
