/** Conservation of money: every wallet balance is explained by the rows that moved it. */
module Ledger {
  import opened Results
  import opened Sums
  import opened Schema
  import opened Handlers
  import opened Operations
  import opened Machine

  function DebitOf(user: int): Order -> int {
    (order: Order) => if order.user == user then order.debit else 0
  }

  function TopUpOf(user: int): TopUp -> int {
    (row: TopUp) => if row.user == user && row.status == Granted && row.credited.Some? then row.credited.value else 0
  }

  function GrantOf(user: int): Grant -> int {
    (row: Grant) => if row.user == user then row.amount else 0
  }

  function PayoutTo(user: int): Payout -> int {
    (row: Payout) => if row.to == user then row.amount else 0
  }

  /** What a wallet received in top-ups and by hand, less what its owner's orders hold. */
  function Funding(t: Tables, user: int): int {
    Sum(t.topups, TopUpOf(user)) + Sum(t.grants, GrantOf(user)) - Sum(t.orders, DebitOf(user))
  }

  ghost predicate Balances(t: Tables) {
    forall u | u in t.users ::
      t.users[u].balance >= 0 && t.users[u].balance == Funding(t, u) + t.users[u].earned
  }

  ghost predicate Earnings(t: Tables) {
    forall u | u in t.users :: t.users[u].earned == Sum(t.payouts, PayoutTo(u))
  }

  /** No row credits or charges somebody who is not a customer. */
  ghost predicate Addressed(t: Tables) {
    && (forall i | 0 <= i < |t.topups| :: t.topups[i].user in t.users)
    && (forall i | 0 <= i < |t.grants| :: t.grants[i].user in t.users)
    && (forall i | 0 <= i < |t.payouts| :: t.payouts[i].to in t.users)
  }

  ghost predicate Solvent(t: Tables) {
    Balances(t) && Earnings(t) && Addressed(t)
  }

  // --- cashback -------------------------------------------------------------

  lemma CreditedEarnings(t: Tables, o: nat, level: nat, to: int, amount: int)
    requires o < |t.orders| && Earnings(t) && Addressed(t) && Credited(t, o, level, to, amount).Success?
    ensures Earnings(Credited(t, o, level, to, amount).value)
    ensures Addressed(Credited(t, o, level, to, amount).value)
  {
    var t' := Credited(t, o, level, to, amount).value;
    forall u | u in t'.users
      ensures t'.users[u].earned == Sum(t'.payouts, PayoutTo(u))
    {
      SumAppend(t.payouts, Payout(o, t.orders[o].user, level, to, amount), PayoutTo(u));
    }
  }

  lemma Level1Earnings(t: Tables, o: nat)
    requires o < |t.orders| && Earnings(t) && Addressed(t) && GrantLevel1(t, o).Success?
    ensures Earnings(GrantLevel1(t, o).value) && Addressed(GrantLevel1(t, o).value)
  {
    var flagged := t.(orders := t.orders[o := t.orders[o].(cashback1 := true)]);
    var t' := GrantLevel1(t, o).value;
    if t' != t && t' != flagged {
      CreditedEarnings(flagged, o, 1, Referrer(t, t.orders[o].user).value,
                       Max(t.orders[o].price, 0) * CASHBACK_PERCENT / 100);
    }
  }

  lemma Level2Earnings(t: Tables, o: nat)
    requires o < |t.orders| && Earnings(t) && Addressed(t) && GrantLevel2(t, o).Success?
    ensures Earnings(GrantLevel2(t, o).value) && Addressed(GrantLevel2(t, o).value)
  {
    var flagged := t.(orders := t.orders[o := t.orders[o].(cashback2 := true)]);
    var t' := GrantLevel2(t, o).value;
    if t' != t && t' != flagged {
      CreditedEarnings(flagged, o, 2, Referrer(t, Referrer(t, t.orders[o].user).value).value,
                       Max(t.orders[o].price, 0) * CASHBACK_LEVEL2_PERCENT / 100);
    }
  }

  lemma CompleteEarnings(t: Tables, o: nat, p: nat, route: Route)
    requires o < |t.orders| && p in t.payments && Complete(t, o, p, route).Success?
    requires Earnings(t) && Addressed(t)
    ensures Earnings(Complete(t, o, p, route).value) && Addressed(Complete(t, o, p, route).value)
  {
    if !route.Renews() {
      var t1 := Marked(t, o, p, route);
      Level1Earnings(t1, o);
      Level2Earnings(GrantLevel1(t1, o).value, o);
    }
  }

  lemma SettlesBalances(t: Tables, t': Tables, o: nat, p: nat, route: Route)
    requires Balances(t) && Settles(t, t', o, p, route)
    ensures Balances(t')
  {
    forall u | u in t'.users
      ensures t'.users[u].balance >= 0 && t'.users[u].balance == Funding(t', u) + t'.users[u].earned
    {
      SumSame(t.orders, t'.orders, DebitOf(u));
    }
  }

  lemma DeliverSolvent(h: Handover, route: Route)
    requires Solvent(h.t)
    ensures Solvent(Deliver(h, route))
  {
    var t' := Deliver(h, route);
    DeliverSettles(h, route);
    if t' != h.t {
      CompleteEarnings(h.t, h.o, h.p, route);
      SettlesBalances(h.t, t', h.o, h.p, route);
    }
  }

  // --- steps ----------------------------------------------------------------

  /** Order `o` changes what it holds, and its owner's balance moves the other way. */
  ghost predicate MovesDebit(t: Tables, t': Tables, o: nat) {
    && o < |t.orders| == |t'.orders|
    && t.orders[o].user in t.users
    && t'.orders == t.orders[o := t'.orders[o]]
    && t'.orders[o].user == t.orders[o].user
    && (var user := t.orders[o].user;
        var rest := t.users[user].balance + t.orders[o].debit - t'.orders[o].debit;
        rest >= 0 && t'.users == t.users[user := t.users[user].(balance := rest)])
    && t' == t.(orders := t'.orders, users := t'.users, payments := t'.payments, nextPayment := t'.nextPayment)
  }

  lemma MovesDebitSolvent(t: Tables, t': Tables, o: nat)
    requires Solvent(t) && MovesDebit(t, t', o)
    ensures Solvent(t')
  {
    forall u | u in t'.users
      ensures t'.users[u].balance >= 0 && t'.users[u].balance == Funding(t', u) + t'.users[u].earned
    {
      SumUpdate(t.orders, o, t'.orders[o], DebitOf(u));
    }
  }

  lemma TakeWalletMoves(t: Tables, user: int, o: nat)
    requires OrdersAgree(t) && TakeWallet(t, user, o).Success?
    ensures MovesDebit(t, TakeWallet(t, user, o).value.t, o) && t.orders[o].user == user && t.orders[o].debit == 0
    ensures TakeWallet(t, user, o).value.t.orders[o].debit == t.orders[o].price
  {
    assert DebitFits(t.orders[o]);
    var t' := TakeWallet(t, user, o).value.t;
    assert t'.users == t.users[user := t.users[user].(balance := t.users[user].balance - t.orders[o].price)];
  }

  /** The wallet payment takes the price from the balance and puts it into the order. */
  lemma TakeWalletSolvent(t: Tables, user: int, o: nat)
    requires Solvent(t) && Sound(t) && TakeWallet(t, user, o).Success?
    ensures
      var t' := TakeWallet(t, user, o).value.t;
      && Solvent(t') && MovesDebit(t, t', o)
      && t'.orders[o].debit == t.orders[o].price && t'.users[user].balance == t.users[user].balance - t.orders[o].price
  {
    TakeWalletMoves(t, user, o);
    MovesDebitSolvent(t, TakeWallet(t, user, o).value.t, o);
  }

  lemma RejectPaymentMoves(t: Tables, p: nat)
    requires Sound(t) && Handlers.RejectPayment(t, p).Success?
    requires Balances(t)
    ensures MovesDebit(t, Handlers.RejectPayment(t, p).value, t.payments[p].order)
    ensures Handlers.RejectPayment(t, p).value.orders[t.payments[p].order].debit == 0
  {
    var t' := Handlers.RejectPayment(t, p).value;
    var o := t.payments[p].order;
    assert DebitFits(t.orders[o]);
    var row := t.users[t.orders[o].user];
    assert t'.users == t.users[t.orders[o].user := row.(balance := row.balance + t.orders[o].debit)];
  }

  /** A rejection gives back exactly what the order holds. */
  lemma RejectPaymentSolvent(t: Tables, p: nat)
    requires Solvent(t) && Sound(t) && Handlers.RejectPayment(t, p).Success?
    ensures
      var t', o := Handlers.RejectPayment(t, p).value, t.payments[p].order;
      && Solvent(t') && MovesDebit(t, t', o)
      && t'.orders[o].debit == 0
      && t'.users[t.orders[o].user].balance == t.users[t.orders[o].user].balance + t.orders[o].debit
  {
    RejectPaymentMoves(t, p);
    MovesDebitSolvent(t, Handlers.RejectPayment(t, p).value, t.payments[p].order);
  }

  /** Order rows change, but not what any order holds. */
  lemma SameDebitsSolvent(t: Tables, t': Tables)
    requires Solvent(t) && |t'.orders| == |t.orders|
    requires forall i | 0 <= i < |t.orders| ::
      t'.orders[i].user == t.orders[i].user && t'.orders[i].debit == t.orders[i].debit
    requires t'.users == t.users && t'.topups == t.topups && t'.grants == t.grants && t'.payouts == t.payouts
    ensures Solvent(t')
  {
    forall u | u in t'.users
      ensures t'.users[u].balance == Funding(t', u) + t'.users[u].earned
    {
      SumSame(t.orders, t'.orders, DebitOf(u));
    }
  }

  /** A new order holds nothing yet. */
  lemma AppendSolvent(t: Tables, t': Tables, order: Order)
    requires Solvent(t) && order.debit == 0 && t'.orders == t.orders + [order]
    requires t'.users.Keys == t.users.Keys
    requires forall u | u in t.users ::
      t'.users[u].balance == t.users[u].balance && t'.users[u].earned == t.users[u].earned
    requires t'.topups == t.topups && t'.grants == t.grants && t'.payouts == t.payouts
    ensures Solvent(t')
  {
    forall u | u in t'.users
      ensures t'.users[u].balance >= 0 && t'.users[u].balance == Funding(t', u) + t'.users[u].earned
    {
      SumAppend(t.orders, order, DebitOf(u));
    }
  }

  lemma RegisterSolvent(t: Tables, id: int, code: string, link: string)
    requires Solvent(t) && Sound(t) && Handlers.Register(t, id, code, link).Success?
    ensures Solvent(Handlers.Register(t, id, code, link).value)
  {
    if id !in t.users {
      SumZero(t.topups, TopUpOf(id));
      SumZero(t.grants, GrantOf(id));
      SumZero(t.orders, DebitOf(id));
      SumZero(t.payouts, PayoutTo(id));
    }
  }

  /** A wallet is credited and the row that explains the credit is written in the same step. */
  lemma ApproveTopUpSolvent(t: Tables, i: nat)
    requires Solvent(t) && Handlers.ApproveTopUp(t, i).Success?
    ensures Solvent(Handlers.ApproveTopUp(t, i).value)
  {
    var t' := Handlers.ApproveTopUp(t, i).value;
    forall u | u in t'.users
      ensures t'.users[u].balance >= 0 && t'.users[u].balance == Funding(t', u) + t'.users[u].earned
    {
      SumUpdate(t.topups, i, t'.topups[i], TopUpOf(u));
    }
  }

  lemma RejectTopUpSolvent(t: Tables, i: nat)
    requires Solvent(t) && Handlers.RejectTopUp(t, i).Success?
    ensures Solvent(Handlers.RejectTopUp(t, i).value)
  {
    var t' := Handlers.RejectTopUp(t, i).value;
    forall u | u in t'.users
      ensures t'.users[u].balance >= 0 && t'.users[u].balance == Funding(t', u) + t'.users[u].earned
    {
      SumUpdate(t.topups, i, t'.topups[i], TopUpOf(u));
    }
  }

  lemma RequestTopUpSolvent(t: Tables, user: int, amount: int)
    requires Solvent(t) && Handlers.RequestTopUp(t, user, amount).Success?
    ensures Solvent(Handlers.RequestTopUp(t, user, amount).value)
  {
    var t' := Handlers.RequestTopUp(t, user, amount).value;
    forall u | u in t'.users
      ensures t'.users[u].balance >= 0 && t'.users[u].balance == Funding(t', u) + t'.users[u].earned
    {
      SumAppend(t.topups, TopUp(user, amount, None, Requested), TopUpOf(u));
    }
  }

  lemma CreditUserSolvent(t: Tables, user: int, amount: int)
    requires Solvent(t) && Handlers.CreditUser(t, user, amount).Success?
    ensures Solvent(Handlers.CreditUser(t, user, amount).value)
  {
    var t' := Handlers.CreditUser(t, user, amount).value;
    forall u | u in t'.users
      ensures t'.users[u].balance >= 0 && t'.users[u].balance == Funding(t', u) + t'.users[u].earned
    {
      SumAppend(t.grants, Grant(user, amount), GrantOf(u));
    }
  }

  lemma WalletStep(t: Tables, op: Op)
    requires Solvent(t) && Sound(t) && Handle(t, op).Success?
    requires op.Register? || op.RequestTopUp? || op.ApproveTopUp? || op.RejectTopUp? || op.CreditUser? || op.RejectPayment?
    ensures Solvent(Apply(t, op))
  {
    match op
    case Register(id, code, link) => RegisterSolvent(t, id, code, link);
    case RequestTopUp(user, amount) => RequestTopUpSolvent(t, user, amount);
    case ApproveTopUp(i) => ApproveTopUpSolvent(t, i);
    case RejectTopUp(i) => RejectTopUpSolvent(t, i);
    case CreditUser(user, amount) => CreditUserSolvent(t, user, amount);
    case RejectPayment(p) => RejectPaymentSolvent(t, p);
  }

  lemma TakeStarsSolvent(t: Tables, user: int, o: nat)
    requires Solvent(t) && TakeStars(t, user, o).Success?
    ensures Solvent(TakeStars(t, user, o).value.t)
  {
    SameDebitsSolvent(t, TakeStars(t, user, o).value.t);
  }

  lemma ClaimReviewSolvent(t: Tables, p: nat)
    requires Solvent(t) && ClaimReview(t, p).Success?
    ensures Solvent(ClaimReview(t, p).value.t)
  {
    SameDebitsSolvent(t, ClaimReview(t, p).value.t);
  }

  lemma HandedOverSolvent(t: Tables, op: Op)
    requires Solvent(t) && Sound(t) && HandedOver(t, op).Some?
    ensures Solvent(HandedOver(t, op).value.t)
  {
    var t' := HandedOver(t, op).value.t;
    match op
    case PayWallet(user, o, _) => TakeWalletSolvent(t, user, o);
    case StarsPaid(user, o, _) => TakeStarsSolvent(t, user, o);
    case ApprovePayment(p, _) => ClaimReviewSolvent(t, p);
    case TakeTrial(user, _, days, gigabytes, _, now, _) => AppendSolvent(t, t', TrialOrder(user, days, gigabytes, now));
  }

  /** Steps that move no money, unless they hand an order to delivery. */
  predicate IsQuiet(op: Op) {
    op.ClaimStars? || op.RevertStars? || op.StarsPaid? || op.UploadReceipt? || op.CancelStale?
    || op.CreatePromo? || op.TogglePromo?
  }

  lemma QuietStep(t: Tables, op: Op)
    requires Solvent(t) && Handle(t, op).Success? && HandedOver(t, op).None? && IsQuiet(op)
    ensures Solvent(Apply(t, op))
  {
    SameDebitsSolvent(t, Apply(t, op));
  }

  lemma NewOrderStep(t: Tables, op: Op)
    requires Solvent(t) && Handle(t, op).Success? && (op.CreateOrder? || op.RenewUser?)
    ensures Solvent(Apply(t, op))
  {
    AppendSolvent(t, Apply(t, op), Apply(t, op).orders[|t.orders|]);
  }

  /** Every step keeps every wallet balanced against its rows and never below zero. */
  lemma StepSolvent(t: Tables, op: Op)
    requires Solvent(t) && Sound(t)
    ensures Solvent(Apply(t, op))
  {
    if Handle(t, op).Success? {
      if op.CreateOrder? || op.RenewUser? {
        NewOrderStep(t, op);
      } else if HandedOver(t, op).Some? {
        HandedOverSolvent(t, op);
        ApplyDelivers(t, op);
        DeliverSolvent(HandedOver(t, op).value, op.route);
      } else if IsQuiet(op) {
        QuietStep(t, op);
      } else {
        WalletStep(t, op);
      }
    }
  }
}
