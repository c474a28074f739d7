/** The order and payment state machine: what every step keeps, and which states are final. */
module Machine {
  import opened Results
  import opened Schema
  import opened Handlers
  import opened Operations

  predicate Waiting(s: OrderStatus) {
    s == Pending || s == AwaitingStars
  }

  predicate Final(s: OrderStatus) {
    s == Completed || s == Rejected || s == Cancelled
  }

  /** `b` can follow `a`: a waiting order may become anything, a paid one may only end. */
  predicate Later(a: OrderStatus, b: OrderStatus) {
    a == b || Waiting(a) || (a == Paid && (b == Completed || b == Rejected))
  }

  predicate PaymentLater(a: PaymentStatus, b: PaymentStatus) {
    a == b || (a == Unreviewed && (b == Approved || b == Refused))
  }

  /** What was agreed when the order was created. */
  predicate SameTerms(a: Order, b: Order) {
    b == a.(debit := b.debit, cashback1 := b.cashback1, cashback2 := b.cashback2, status := b.status, route := b.route)
  }

  predicate OrderLater(a: Order, b: Order) {
    SameTerms(a, b) && Later(a.status, b.status) && (a.cashback1 ==> b.cashback1) && (a.cashback2 ==> b.cashback2)
  }

  predicate SamePerson(a: User, b: User) {
    b == a.(balance := b.balance, earned := b.earned, trialUsed := b.trialUsed) && (a.trialUsed ==> b.trialUsed)
  }

  ghost predicate Evolves(t: Tables, t': Tables) {
    && |t.orders| <= |t'.orders|
    && (forall i | 0 <= i < |t.orders| :: OrderLater(t.orders[i], t'.orders[i]))
    && (forall p | p in t.payments :: p in t'.payments
          && t'.payments[p].order == t.payments[p].order
          && PaymentLater(t.payments[p].status, t'.payments[p].status))
    && (forall u | u in t.users :: u in t'.users && SamePerson(t.users[u], t'.users[u]))
    && t.promos.Keys <= t'.promos.Keys
    && t.payouts <= t'.payouts
    && t.grants <= t'.grants
  }

  /** The order states in which a payment of this status can stand. */
  predicate Fits(p: PaymentStatus, s: OrderStatus) {
    match p
    case Unreviewed => s == Paid
    case Approved => s == Paid || s == Completed
    case Refused => s == Rejected
    case Duplicate => true
  }

  /** Money taken from the wallet for an order is its exact price, and only while the order is paid or done. */
  predicate DebitFits(order: Order) {
    && order.price >= 0
    && (order.debit != 0 ==> order.debit == order.price && (order.status == Paid || order.status == Completed))
  }

  predicate CountsAsPayment(t: Tables, p: nat, o: nat) {
    p in t.payments && t.payments[p].order == o && t.payments[p].status != Duplicate
  }

  ghost predicate PaymentsAgree(t: Tables) {
    && (forall p | p in t.payments :: p < t.nextPayment && t.payments[p].order < |t.orders|
          && Fits(t.payments[p].status, t.orders[t.payments[p].order].status))
    && (forall p, q, o | CountsAsPayment(t, p, o) && CountsAsPayment(t, q, o) :: p == q)
    && (forall o | 0 <= o < |t.orders| && t.orders[o].status == Paid :: exists p :: CountsAsPayment(t, p, o))
  }

  ghost predicate OrdersAgree(t: Tables) {
    && (forall o | 0 <= o < |t.orders| :: t.orders[o].user in t.users && DebitFits(t.orders[o]))
    && (forall o | 0 <= o < |t.orders| && t.orders[o].trial :: t.users[t.orders[o].user].trialUsed)
    && (forall i, j | 0 <= i < j < |t.orders| && t.orders[i].trial && t.orders[j].trial ::
          t.orders[i].user != t.orders[j].user)
  }

  ghost predicate Sound(t: Tables) {
    PaymentsAgree(t) && OrdersAgree(t)
  }

  // --- delivery -------------------------------------------------------------

  /** Everything a cashback grant for order `o` may touch. */
  ghost predicate PaysCashback(t: Tables, t': Tables, o: nat) {
    && o < |t.orders| == |t'.orders|
    && t'.orders == t.orders[o := t.orders[o].(cashback1 := t'.orders[o].cashback1, cashback2 := t'.orders[o].cashback2)]
    && (t.orders[o].cashback1 ==> t'.orders[o].cashback1)
    && (t.orders[o].cashback2 ==> t'.orders[o].cashback2)
    && t'.users.Keys == t.users.Keys
    && (forall u | u in t.users :: SamePerson(t.users[u], t'.users[u])
          && t'.users[u].trialUsed == t.users[u].trialUsed
          && t'.users[u].balance - t.users[u].balance == t'.users[u].earned - t.users[u].earned >= 0)
    && t.payouts <= t'.payouts
    && t' == t.(orders := t'.orders, users := t'.users, payouts := t'.payouts)
  }

  lemma Level1Shape(t: Tables, o: nat)
    requires o < |t.orders| && GrantLevel1(t, o).Success?
    ensures PaysCashback(t, GrantLevel1(t, o).value, o)
  {
  }

  lemma Level2Shape(t: Tables, o: nat)
    requires o < |t.orders| && GrantLevel2(t, o).Success?
    ensures PaysCashback(t, GrantLevel2(t, o).value, o)
  {
  }

  /** The tables right after the order and its payment are marked, before any cashback. */
  function Marked(t: Tables, o: nat, p: nat, route: Route): Tables
    requires o < |t.orders| && p in t.payments
  {
    t.(payments := t.payments[p := t.payments[p].(status := Approved)],
       orders := t.orders[o := t.orders[o].(status := Completed, route := Some(route))])
  }

  lemma CompleteShape(t: Tables, o: nat, p: nat, route: Route)
    requires o < |t.orders| && p in t.payments && Complete(t, o, p, route).Success?
    ensures PaysCashback(Marked(t, o, p, route), Complete(t, o, p, route).value, o)
  {
    if !route.Renews() {
      var t1 := Marked(t, o, p, route);
      var t2 := GrantLevel1(t1, o).value;
      Level1Shape(t1, o);
      Level2Shape(t2, o);
      assert GrantLevel2(t2, o) == Complete(t, o, p, route);
    }
  }

  /** A delivered order: the order and its payment are closed together and cashback may follow. */
  ghost predicate Settles(t: Tables, t': Tables, o: nat, p: nat, route: Route) {
    && o < |t.orders|
    && p in t.payments
    && PaysCashback(Marked(t, o, p, route), t', o)
  }

  /** The order waits for its delivery and `p` is its payment. */
  predicate Deliverable(t: Tables, o: nat, p: nat) {
    && o < |t.orders|
    && t.orders[o].status == Paid
    && p in t.payments
    && t.payments[p].order == o
    && t.payments[p].status in {Unreviewed, Approved}
  }

  lemma SettlesEvolves(t: Tables, t': Tables, o: nat, p: nat, route: Route)
    requires Settles(t, t', o, p, route)
    requires t.orders[o].status in {Paid, Completed} && t.payments[p].status in {Unreviewed, Approved}
    ensures Evolves(t, t')
  {
  }

  lemma SettlesPayments(t: Tables, t': Tables, o: nat, p: nat, route: Route)
    requires PaymentsAgree(t) && Deliverable(t, o, p) && Settles(t, t', o, p, route)
    ensures PaymentsAgree(t')
  {
    assert forall q, i :: CountsAsPayment(t', q, i) <==> CountsAsPayment(t, q, i);
    assert CountsAsPayment(t, p, o);
    forall q | q in t'.payments
      ensures q < t'.nextPayment && t'.payments[q].order < |t'.orders|
      ensures Fits(t'.payments[q].status, t'.orders[t'.payments[q].order].status)
    {
      assert q in t.payments;
      assert CountsAsPayment(t, q, o) ==> q == p;
    }
  }

  lemma SettlesOrders(t: Tables, t': Tables, o: nat, p: nat, route: Route)
    requires OrdersAgree(t) && Deliverable(t, o, p) && Settles(t, t', o, p, route)
    ensures OrdersAgree(t')
  {
  }

  /** A delivery either leaves the tables alone or settles the order. */
  lemma DeliverSettles(h: Handover, route: Route)
    ensures
      || Deliver(h, route) == h.t
      || (route.Delivers() && h.o < |h.t.orders| && h.p in h.t.payments
          && Complete(h.t, h.o, h.p, route).Success? && Settles(h.t, Deliver(h, route), h.o, h.p, route))
  {
    if h.o < |h.t.orders| && h.p in h.t.payments && route.Delivers() && Complete(h.t, h.o, h.p, route).Success? {
      CompleteShape(h.t, h.o, h.p, route);
    }
  }

  lemma EvolvesReflexive(t: Tables)
    ensures Evolves(t, t)
  {
  }

  lemma EvolvesTransitive(a: Tables, b: Tables, c: Tables)
    requires Evolves(a, b) && Evolves(b, c)
    ensures Evolves(a, c)
  {
  }

  lemma EvolvesKeepsFinal(t: Tables, t': Tables, o: nat)
    requires Evolves(t, t') && o < |t.orders|
    ensures o < |t'.orders| && SameTerms(t.orders[o], t'.orders[o])
    ensures Final(t.orders[o].status) ==> t'.orders[o].status == t.orders[o].status
    ensures !Waiting(t.orders[o].status) ==> !Waiting(t'.orders[o].status)
  {
    assert OrderLater(t.orders[o], t'.orders[o]);
  }

  lemma EvolvesKeepsPayment(t: Tables, t': Tables, p: nat, o: nat)
    requires Evolves(t, t') && CountsAsPayment(t, p, o)
    ensures CountsAsPayment(t', p, o)
  {
  }

  lemma DeliverSound(h: Handover, route: Route)
    requires Sound(h.t) && Deliverable(h.t, h.o, h.p)
    ensures Sound(Deliver(h, route)) && Evolves(h.t, Deliver(h, route))
  {
    var t' := Deliver(h, route);
    DeliverSettles(h, route);
    if t' != h.t {
      SettlesEvolves(h.t, t', h.o, h.p, route);
      SettlesPayments(h.t, t', h.o, h.p, route);
      SettlesOrders(h.t, t', h.o, h.p, route);
    }
  }

  lemma LateSettleIff(t: Tables, t': Tables, o: nat, p: nat, route: Route)
    requires Sound(t) && Settles(t, t', o, p, route) && t.payments[p].order == o
    ensures Evolves(t, t') <==> t.payments[p].status in {Unreviewed, Approved}
  {
    assert Fits(t.payments[p].status, t.orders[o].status);
    if t.payments[p].status in {Unreviewed, Approved} {
      SettlesEvolves(t, t', o, p, route);
    } else {
      assert p in t'.payments && t'.payments[p].status == Approved;
    }
  }

  /**
   fulfil_paid_order does not look at the statuses again. A delivery that completes
   keeps to the machine exactly when its payment still counts.
   */
  lemma LateDeliveryKeepsMachineIff(h: Handover, route: Route)
    requires Sound(h.t) && h.p in h.t.payments && h.t.payments[h.p].order == h.o
    requires route.Delivers() && Complete(h.t, h.o, h.p, route).Success?
    ensures Evolves(h.t, Deliver(h, route)) <==> h.t.payments[h.p].status in {Unreviewed, Approved}
  {
    var t' := Deliver(h, route);
    assert t' == Complete(h.t, h.o, h.p, route).value;
    CompleteShape(h.t, h.o, h.p, route);
    LateSettleIff(h.t, t', h.o, h.p, route);
  }

  // --- the other handlers ---------------------------------------------------

  /** An order that waited for a payment is paid and gets its one pending payment. */
  ghost predicate TakesPayment(t: Tables, t': Tables, o: nat, channel: Channel) {
    && o < |t.orders| == |t'.orders|
    && Waiting(t.orders[o].status)
    && t'.orders == t.orders[o := t.orders[o].(status := Paid, debit := t'.orders[o].debit)]
    && DebitFits(t'.orders[o])
    && t'.users.Keys == t.users.Keys
    && (forall u | u in t.users :: SamePerson(t.users[u], t'.users[u]))
    && t' == t.(orders := t'.orders, users := t'.users, nextPayment := t.nextPayment + 1,
                payments := t.payments[t.nextPayment := Payment(o, Unreviewed, channel)])
  }

  lemma TakesPaymentCounts(t: Tables, t': Tables, o: nat, channel: Channel)
    requires PaymentsAgree(t) && TakesPayment(t, t', o, channel)
    ensures forall p :: !CountsAsPayment(t, p, o)
    ensures forall p, i :: CountsAsPayment(t', p, i) <==>
      CountsAsPayment(t, p, i) || (p == t.nextPayment && i == o)
  {
    forall p | p in t.payments
      ensures t.payments[p].order == o ==> t.payments[p].status == Duplicate
    {
      assert Fits(t.payments[p].status, t.orders[t.payments[p].order].status);
    }
  }

  lemma TakesPaymentAgrees(t: Tables, t': Tables, o: nat, channel: Channel)
    requires PaymentsAgree(t) && TakesPayment(t, t', o, channel)
    ensures PaymentsAgree(t')
  {
    TakesPaymentCounts(t, t', o, channel);
    forall p | p in t'.payments
      ensures p < t'.nextPayment && t'.payments[p].order < |t'.orders|
      ensures Fits(t'.payments[p].status, t'.orders[t'.payments[p].order].status)
    {
      if p != t.nextPayment {
        assert p in t.payments;
        assert t.payments[p].order == o ==> CountsAsPayment(t, p, o) || t.payments[p].status == Duplicate;
      }
    }
    forall i | 0 <= i < |t'.orders| && t'.orders[i].status == Paid
      ensures exists p :: CountsAsPayment(t', p, i)
    {
      if i == o {
        assert CountsAsPayment(t', t.nextPayment, o);
      } else {
        var p :| CountsAsPayment(t, p, i);
        assert CountsAsPayment(t', p, i);
      }
    }
  }

  lemma TakesPaymentOrders(t: Tables, t': Tables, o: nat, channel: Channel)
    requires OrdersAgree(t) && TakesPayment(t, t', o, channel)
    ensures OrdersAgree(t')
  {
  }

  lemma TakesPaymentEvolves(t: Tables, t': Tables, o: nat, channel: Channel)
    requires TakesPayment(t, t', o, channel) && forall p | p in t.payments :: p < t.nextPayment
    ensures Evolves(t, t') && Deliverable(t', o, t.nextPayment)
  {
  }

  lemma TakesPaymentSound(t: Tables, t': Tables, o: nat, channel: Channel)
    requires Sound(t) && TakesPayment(t, t', o, channel)
    ensures Sound(t') && Evolves(t, t') && Deliverable(t', o, t.nextPayment)
  {
    TakesPaymentAgrees(t, t', o, channel);
    TakesPaymentOrders(t, t', o, channel);
    TakesPaymentEvolves(t, t', o, channel);
  }

  lemma TakeWalletSound(t: Tables, user: int, o: nat)
    requires Sound(t) && TakeWallet(t, user, o).Success?
    ensures TakesPayment(t, TakeWallet(t, user, o).value.t, o, Wallet)
  {
  }

  lemma DuplicateSound(t: Tables, o: nat, t': Tables)
    requires Sound(t) && o < |t.orders| && AddPayment(t, o, Duplicate, Stars) == Success(t')
    ensures Sound(t') && Evolves(t, t')
  {
    assert forall p, i :: CountsAsPayment(t', p, i) <==> CountsAsPayment(t, p, i);
  }

  /** A receipt is only ever stored for an order that still waits for its payment. */
  lemma UploadReceiptSound(t: Tables, user: int, o: nat)
    requires Sound(t) && Handlers.UploadReceipt(t, user, o).Success?
    ensures t.orders[o].status == Pending
    ensures Sound(Handlers.UploadReceipt(t, user, o).value)
    ensures Evolves(t, Handlers.UploadReceipt(t, user, o).value)
  {
    TakesPaymentSound(t, Handlers.UploadReceipt(t, user, o).value, o, Card);
  }

  /** A pending payment is reviewed; a refusal ends its order and gives the debit back. */
  ghost predicate Reviews(t: Tables, t': Tables, p: nat, verdict: PaymentStatus) {
    && p in t.payments && t.payments[p].status == Unreviewed
    && t.payments[p].order < |t.orders| == |t'.orders|
    && (verdict == Approved || verdict == Refused)
    && t'.payments == t.payments[p := t.payments[p].(status := verdict)]
    && (var o := t.payments[p].order;
        t'.orders == if verdict == Approved then t.orders
                     else t.orders[o := t.orders[o].(status := Rejected, debit := 0)])
    && t'.users.Keys == t.users.Keys
    && (forall u | u in t.users :: SamePerson(t.users[u], t'.users[u]))
    && t' == t.(orders := t'.orders, users := t'.users, payments := t'.payments)
  }

  lemma ReviewAgrees(t: Tables, t': Tables, p: nat, verdict: PaymentStatus)
    requires PaymentsAgree(t) && Reviews(t, t', p, verdict)
    ensures PaymentsAgree(t')
  {
    var o := t.payments[p].order;
    assert forall q, i :: CountsAsPayment(t', q, i) <==> CountsAsPayment(t, q, i);
    assert CountsAsPayment(t, p, o);
    forall q | q in t'.payments
      ensures q < t'.nextPayment && t'.payments[q].order < |t'.orders|
      ensures Fits(t'.payments[q].status, t'.orders[t'.payments[q].order].status)
    {
      assert q in t.payments;
      assert CountsAsPayment(t, q, o) ==> q == p;
    }
  }

  lemma ReviewOrders(t: Tables, t': Tables, p: nat, verdict: PaymentStatus)
    requires OrdersAgree(t) && Reviews(t, t', p, verdict)
    ensures OrdersAgree(t')
  {
  }

  lemma ReviewEvolves(t: Tables, t': Tables, p: nat, verdict: PaymentStatus)
    requires Reviews(t, t', p, verdict) && t.orders[t.payments[p].order].status == Paid
    ensures Evolves(t, t')
  {
  }

  /** Reviewing a pending payment touches no other payment. */
  lemma ReviewSound(t: Tables, t': Tables, p: nat, verdict: PaymentStatus)
    requires Sound(t) && Reviews(t, t', p, verdict)
    ensures Sound(t') && Evolves(t, t')
  {
    ReviewAgrees(t, t', p, verdict);
    ReviewOrders(t, t', p, verdict);
    ReviewEvolves(t, t', p, verdict);
  }

  lemma RejectPaymentSound(t: Tables, p: nat)
    requires Sound(t) && Handlers.RejectPayment(t, p).Success?
    ensures Sound(Handlers.RejectPayment(t, p).value)
    ensures Evolves(t, Handlers.RejectPayment(t, p).value)
  {
    ReviewSound(t, Handlers.RejectPayment(t, p).value, p, Refused);
  }

  /** New orders at the end of the table, without payments and not waiting for a delivery. */
  lemma AppendSound(t: Tables, t': Tables, order: Order)
    requires Sound(t) && order.status != Paid && !order.trial && order.user in t.users && DebitFits(order)
    requires t'.orders == t.orders + [order] && t.promos.Keys <= t'.promos.Keys
    requires t' == t.(orders := t'.orders, promos := t'.promos)
    ensures Sound(t') && Evolves(t, t')
  {
    assert forall p, i :: CountsAsPayment(t', p, i) <==> CountsAsPayment(t, p, i);
  }

  /** The trial is used up, and its paid order comes with its pending payment. */
  ghost predicate AddsTrial(t: Tables, t': Tables, order: Order) {
    && order.user in t.users && !t.users[order.user].trialUsed
    && order.trial && order.status == Paid && DebitFits(order)
    && t' == t.(
      users := t.users[order.user := t.users[order.user].(trialUsed := true)], orders := t.orders + [order],
      payments := t.payments[t.nextPayment := Payment(|t.orders|, Unreviewed, Channel.Trial)],
      nextPayment := t.nextPayment + 1)
  }

  lemma TrialOrderPayments(t: Tables, t': Tables, order: Order)
    requires PaymentsAgree(t) && AddsTrial(t, t', order)
    ensures PaymentsAgree(t')
  {
    var o := |t.orders|;
    assert forall p, i :: CountsAsPayment(t', p, i) <==>
      CountsAsPayment(t, p, i) || (p == t.nextPayment && i == o);
    assert CountsAsPayment(t', t.nextPayment, o);
  }

  lemma TrialOrderOrders(t: Tables, t': Tables, order: Order)
    requires OrdersAgree(t) && AddsTrial(t, t', order)
    ensures OrdersAgree(t')
  {
  }

  lemma TrialOrderEvolves(t: Tables, t': Tables, order: Order)
    requires AddsTrial(t, t', order) && t.nextPayment !in t.payments
    ensures Evolves(t, t')
  {
  }

  lemma TrialOrderSound(t: Tables, t': Tables, order: Order)
    requires Sound(t) && AddsTrial(t, t', order)
    ensures Sound(t') && Evolves(t, t')
  {
    TrialOrderPayments(t, t', order);
    TrialOrderOrders(t, t', order);
    TrialOrderEvolves(t, t', order);
  }

  /** The cleanup finds no payment to delete and no order that was paid or debited. */
  lemma CancelStaleSpares(t: Tables, cutoff: int)
    requires Sound(t)
    ensures
      var t' := Handlers.CancelStale(t, cutoff).value;
      && t'.payments == t.payments
      && forall o | 0 <= o < |t.orders| && t'.orders[o] != t.orders[o] ::
           t'.orders[o].status == Cancelled && t.orders[o].debit == 0 && forall p :: !CountsAsPayment(t, p, o)
  {
    forall p | p in t.payments
      ensures Waiting(t.orders[t.payments[p].order].status) ==> t.payments[p].status == Duplicate
    {
      assert Fits(t.payments[p].status, t.orders[t.payments[p].order].status);
    }
    assert forall o | 0 <= o < |t.orders| :: DebitFits(t.orders[o]);
  }

  lemma CancelsSound(t: Tables, t': Tables, cutoff: int)
    requires Sound(t) && t'.payments == t.payments && t'.promos.Keys == t.promos.Keys
    requires |t'.orders| == |t.orders|
    requires forall o | 0 <= o < |t.orders| ::
      t'.orders[o] == if Stale(t.orders[o], cutoff) then t.orders[o].(status := Cancelled) else t.orders[o]
    requires t' == t.(orders := t'.orders, promos := t'.promos)
    ensures Sound(t') && Evolves(t, t')
  {
    assert forall p, i :: CountsAsPayment(t', p, i) <==> CountsAsPayment(t, p, i);
    forall p | p in t.payments
      ensures Fits(t'.payments[p].status, t'.orders[t'.payments[p].order].status)
    {
      assert Fits(t.payments[p].status, t.orders[t.payments[p].order].status);
    }
  }

  lemma CancelStaleSound(t: Tables, cutoff: int)
    requires Sound(t)
    ensures Sound(Handlers.CancelStale(t, cutoff).value)
    ensures Evolves(t, Handlers.CancelStale(t, cutoff).value)
  {
    CancelStaleSpares(t, cutoff);
    CancelsSound(t, Handlers.CancelStale(t, cutoff).value, cutoff);
  }

  /** Steps that leave orders and payments alone. */
  lemma AsideSound(t: Tables, t': Tables)
    requires Sound(t) && t'.orders == t.orders && t'.payments == t.payments && t'.nextPayment == t.nextPayment
    requires forall u | u in t.users :: u in t'.users && SamePerson(t.users[u], t'.users[u])
    requires t.promos.Keys <= t'.promos.Keys && t'.payouts == t.payouts && t.grants <= t'.grants
    ensures Sound(t') && Evolves(t, t')
  {
    assert forall p, i :: CountsAsPayment(t', p, i) <==> CountsAsPayment(t, p, i);
  }

  lemma WaitAgrees(t: Tables, t': Tables, o: nat, status: OrderStatus)
    requires PaymentsAgree(t) && o < |t.orders| && Waiting(t.orders[o].status) && Waiting(status)
    requires t' == t.(orders := t.orders[o := t.orders[o].(status := status)])
    ensures PaymentsAgree(t')
  {
    assert forall p, i :: CountsAsPayment(t', p, i) <==> CountsAsPayment(t, p, i);
    forall p | p in t.payments
      ensures t'.payments[p].order < |t'.orders|
      ensures Fits(t'.payments[p].status, t'.orders[t'.payments[p].order].status)
    {
      assert Fits(t.payments[p].status, t.orders[t.payments[p].order].status);
    }
  }

  /** The Stars claim and its revert move an order between the two waiting states. */
  lemma WaitSound(t: Tables, t': Tables, o: nat, status: OrderStatus)
    requires Sound(t) && o < |t.orders| && Waiting(t.orders[o].status) && Waiting(status)
    requires t' == t.(orders := t.orders[o := t.orders[o].(status := status)])
    ensures Sound(t') && Evolves(t, t')
  {
    WaitAgrees(t, t', o, status);
    assert DebitFits(t.orders[o]);
  }

  predicate IsAside(op: Op) {
    op.Register? || op.RequestTopUp? || op.ApproveTopUp? || op.RejectTopUp? || op.CreditUser?
    || op.CreatePromo? || op.TogglePromo?
  }

  lemma RegisterSound(t: Tables, id: int, code: string, link: string)
    requires Sound(t) && Handlers.Register(t, id, code, link).Success?
    ensures Sound(Handlers.Register(t, id, code, link).value) && Evolves(t, Handlers.Register(t, id, code, link).value)
  {
    AsideSound(t, Handlers.Register(t, id, code, link).value);
  }

  lemma CreditSound(t: Tables, op: Op)
    requires Sound(t) && (op.CreditUser? || op.ApproveTopUp?)
    ensures Sound(Apply(t, op)) && Evolves(t, Apply(t, op))
  {
    AsideSound(t, Apply(t, op));
  }

  lemma AsideStep(t: Tables, op: Op)
    requires Sound(t) && IsAside(op)
    ensures Sound(Apply(t, op)) && Evolves(t, Apply(t, op))
  {
    if Handle(t, op).Failure? {
      EvolvesReflexive(t);
    } else if op.Register? {
      RegisterSound(t, op.id, op.code, op.link);
    } else if op.CreditUser? || op.ApproveTopUp? {
      CreditSound(t, op);
    } else {
      AsideSound(t, Apply(t, op));
    }
  }

  lemma TakeStarsSound(t: Tables, user: int, o: nat)
    requires Sound(t) && TakeStars(t, user, o).Success?
    ensures
      var t' := TakeStars(t, user, o).value.t;
      Sound(t') && Evolves(t, t') && Deliverable(t', o, t.nextPayment)
  {
    TakesPaymentSound(t, TakeStars(t, user, o).value.t, o, Stars);
  }

  lemma ClaimReviewSound(t: Tables, p: nat)
    requires Sound(t) && ClaimReview(t, p).Success?
    ensures
      var t' := ClaimReview(t, p).value.t;
      Sound(t') && Evolves(t, t') && Deliverable(t', t.payments[p].order, p)
  {
    assert Fits(t.payments[p].status, t.orders[t.payments[p].order].status);
    ReviewSound(t, ClaimReview(t, p).value.t, p, Approved);
  }

  /** Whatever goes to delivery is a paid order with its live payment, in sound tables. */
  lemma HandedOverSound(t: Tables, op: Op)
    requires Sound(t) && HandedOver(t, op).Some?
    ensures
      var h := HandedOver(t, op).value;
      && Sound(h.t) && Evolves(t, h.t) && Deliverable(h.t, h.o, h.p)
  {
    var h := HandedOver(t, op).value;
    match op
    case PayWallet(user, o, _) =>
      TakeWalletSound(t, user, o);
      TakesPaymentSound(t, h.t, o, Wallet);
    case StarsPaid(user, o, _) =>
      TakeStarsSound(t, user, o);
    case ApprovePayment(p, _) =>
      ClaimReviewSound(t, p);
    case TakeTrial(user, enabled, days, gigabytes, subscribed, now, _) =>
      TrialOrderSound(t, h.t, TrialOrder(user, days, gigabytes, now));
  }

  lemma ApplyDelivers(t: Tables, op: Op)
    requires HandedOver(t, op).Some?
    ensures Apply(t, op) == Deliver(HandedOver(t, op).value, op.route)
  {
  }

  lemma DeliveredSound(t: Tables, h: Handover, route: Route)
    requires Sound(h.t) && Evolves(t, h.t) && Deliverable(h.t, h.o, h.p)
    ensures Sound(Deliver(h, route)) && Evolves(t, Deliver(h, route))
  {
    DeliverSound(h, route);
    EvolvesTransitive(t, h.t, Deliver(h, route));
  }

  /** Every step keeps the order and payment machine and only moves rows forward. */
  lemma StepSound(t: Tables, op: Op)
    requires Sound(t) && Priced(op)
    ensures Sound(Apply(t, op)) && Evolves(t, Apply(t, op))
  {
    var t' := Apply(t, op);
    if IsAside(op) {
      AsideStep(t, op);
    } else if HandedOver(t, op).Some? {
      HandedOverSound(t, op);
      DeliveredSound(t, HandedOver(t, op).value, op.route);
      ApplyDelivers(t, op);
    } else if Handle(t, op).Failure? {
      EvolvesReflexive(t);
    } else {
      match op
      case CreateOrder(user, offer, now) => AppendSound(t, t', NewOrder(user, offer, now));
      case ClaimStars(user, o) => WaitSound(t, t', o, AwaitingStars);
      case RevertStars(o) => if t' == t { EvolvesReflexive(t); } else { WaitSound(t, t', o, Pending); }
      case RenewUser(user, account, now) => AppendSound(t, t', t'.orders[|t.orders|]);
      case CancelStale(cutoff) => CancelStaleSound(t, cutoff);
      case UploadReceipt(user, o) => UploadReceiptSound(t, user, o);
      case RejectPayment(p) => RejectPaymentSound(t, p);
      case StarsPaid(user, o, route) => DuplicateSound(t, o, t');
    }
  }
}
