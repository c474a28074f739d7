/** What the steps before and beside delivery can do to orders: nothing but statuses and debits. */
module OrderMoves {
  import opened Results
  import opened Schema
  import opened Handlers
  import opened Operations
  import opened Machine

  predicate OnlyPaymentMoves(a: Order, b: Order) {
    && b == a.(status := b.status, debit := b.debit)
    && (Final(a.status) ==> b.status == a.status)
    && (b.status == Completed ==> a.status == Completed)
  }

  predicate IsFresh(order: Order) {
    && order.route.None? && !order.cashback1 && !order.cashback2
    && (order.status == Completed ==> order.renews.Some?)
  }

  /** No order was delivered and none was rewarded. */
  predicate KeepsOrders(before: seq<Order>, after: seq<Order>) {
    && |before| <= |after|
    && (forall o | 0 <= o < |before| :: OnlyPaymentMoves(before[o], after[o]))
    && (forall o | |before| <= o < |after| :: IsFresh(after[o]))
  }

  predicate GoodsPossible(op: Op) {
    op.CreateOrder? ==> op.offer.days >= 0 && op.offer.gigabytes >= 0
  }

  predicate NewGoodsPossible(before: seq<Order>, after: seq<Order>) {
    forall o | |before| <= o < |after| :: after[o].days >= 0 && after[o].gigabytes >= 0
  }

  lemma AppendKeeps(before: seq<Order>, order: Order)
    requires IsFresh(order)
    ensures KeepsOrders(before, before + [order])
    ensures order.days >= 0 && order.gigabytes >= 0 ==> NewGoodsPossible(before, before + [order])
  {
  }

  lemma RestateKeeps(before: seq<Order>, after: seq<Order>, o: nat)
    requires o < |before| == |after| && after == before[o := after[o]] && OnlyPaymentMoves(before[o], after[o])
    ensures KeepsOrders(before, after) && NewGoodsPossible(before, after)
  {
  }

  lemma CleanupKeeps(t: Tables, cutoff: int)
    ensures KeepsOrders(t.orders, Handlers.CancelStale(t, cutoff).value.orders)
    ensures NewGoodsPossible(t.orders, Handlers.CancelStale(t, cutoff).value.orders)
  {
  }

  predicate MovesOneOrder(op: Op) {
    op.PayWallet? || op.ClaimStars? || op.RevertStars? || op.StarsPaid? || op.UploadReceipt? || op.RejectPayment?
    || op.ApprovePayment? || op.TakeTrial?
  }

  lemma ClaimStarsKeeps(t: Tables, user: int, o: nat)
    requires Handlers.ClaimStars(t, user, o).Success?
    ensures KeepsOrders(t.orders, Handlers.ClaimStars(t, user, o).value.orders)
    ensures NewGoodsPossible(t.orders, Handlers.ClaimStars(t, user, o).value.orders)
  {
    RestateKeeps(t.orders, Handlers.ClaimStars(t, user, o).value.orders, o);
  }

  lemma RevertStarsKeeps(t: Tables, o: nat)
    ensures KeepsOrders(t.orders, Handlers.RevertStars(t, o).value.orders)
    ensures NewGoodsPossible(t.orders, Handlers.RevertStars(t, o).value.orders)
  {
    if o < |t.orders| {
      RestateKeeps(t.orders, Handlers.RevertStars(t, o).value.orders, o);
    }
  }

  lemma UploadReceiptKeeps(t: Tables, user: int, o: nat)
    requires Handlers.UploadReceipt(t, user, o).Success?
    ensures KeepsOrders(t.orders, Handlers.UploadReceipt(t, user, o).value.orders)
    ensures NewGoodsPossible(t.orders, Handlers.UploadReceipt(t, user, o).value.orders)
  {
    RestateKeeps(t.orders, Handlers.UploadReceipt(t, user, o).value.orders, o);
  }

  lemma RejectPaymentKeeps(t: Tables, p: nat)
    requires PaymentsAgree(t) && Handlers.RejectPayment(t, p).Success?
    ensures KeepsOrders(t.orders, Handlers.RejectPayment(t, p).value.orders)
    ensures NewGoodsPossible(t.orders, Handlers.RejectPayment(t, p).value.orders)
  {
    assert Fits(t.payments[p].status, t.orders[t.payments[p].order].status);
    RestateKeeps(t.orders, Handlers.RejectPayment(t, p).value.orders, t.payments[p].order);
  }

  lemma OneOrderKeeps(t: Tables, op: Op)
    requires Sound(t) && HandedOver(t, op).None? && MovesOneOrder(op)
    ensures KeepsOrders(t.orders, Apply(t, op).orders) && NewGoodsPossible(t.orders, Apply(t, op).orders)
  {
    if Handle(t, op).Success? {
      match op
      case ClaimStars(user, o) => ClaimStarsKeeps(t, user, o);
      case RevertStars(o) => RevertStarsKeeps(t, o);
      case UploadReceipt(user, o) => UploadReceiptKeeps(t, user, o);
      case RejectPayment(p) => RejectPaymentKeeps(t, p);
      case _ =>
    }
  }

  lemma CreateOrderKeeps(t: Tables, user: int, offer: Offer, now: int)
    requires Handlers.CreateOrder(t, user, offer, now).Success?
    ensures KeepsOrders(t.orders, Handlers.CreateOrder(t, user, offer, now).value.orders)
    ensures offer.days >= 0 && offer.gigabytes >= 0 ==>
      NewGoodsPossible(t.orders, Handlers.CreateOrder(t, user, offer, now).value.orders)
  {
    AppendKeeps(t.orders, NewOrder(user, offer, now));
  }

  lemma RenewUserKeeps(t: Tables, user: int, account: Option<nat>, now: int)
    requires Handlers.RenewUser(t, user, account, now).Success?
    ensures KeepsOrders(t.orders, Handlers.RenewUser(t, user, account, now).value.orders)
    ensures NewGoodsPossible(t.orders, Handlers.RenewUser(t, user, account, now).value.orders)
  {
    AppendKeeps(t.orders, Handlers.RenewUser(t, user, account, now).value.orders[|t.orders|]);
  }

  /** A step that hands nothing to delivery delivers and rewards nothing. */
  lemma QuietStepKeeps(t: Tables, op: Op)
    requires Sound(t) && HandedOver(t, op).None?
    ensures KeepsOrders(t.orders, Apply(t, op).orders)
    ensures GoodsPossible(op) ==> NewGoodsPossible(t.orders, Apply(t, op).orders)
  {
    if MovesOneOrder(op) {
      OneOrderKeeps(t, op);
    } else if Handle(t, op).Success? {
      match op
      case CreateOrder(user, offer, now) => CreateOrderKeeps(t, user, offer, now);
      case RenewUser(user, account, now) => RenewUserKeeps(t, user, account, now);
      case CancelStale(cutoff) => CleanupKeeps(t, cutoff);
      case _ =>
    }
  }

  /** Taking a payment in does not deliver or reward yet. */
  lemma TakingKeeps(t: Tables, op: Op)
    requires Sound(t) && HandedOver(t, op).Some?
    ensures KeepsOrders(t.orders, HandedOver(t, op).value.t.orders)
    ensures NewGoodsPossible(t.orders, HandedOver(t, op).value.t.orders)
  {
    var h := HandedOver(t, op).value;
    match op
    case PayWallet(user, o, _) =>
      TakeWalletSound(t, user, o);
      RestateKeeps(t.orders, h.t.orders, o);
    case StarsPaid(user, o, _) =>
      RestateKeeps(t.orders, h.t.orders, o);
    case ApprovePayment(_, _) =>
    case TakeTrial(user, enabled, days, gigabytes, subscribed, now, _) =>
      assert h.t.orders == t.orders + [TrialOrder(user, days, gigabytes, now)];
  }
}
