/** The shop and its warehouse run together: each request is one step of the combined state. */
module Service {
  import opened Results
  import opened Schema
  import opened Handlers
  import opened Operations
  import opened Machine
  import opened Provisioning
  import opened PanelRecords
  import opened Delivery
  import opened World
  import opened WorldRuns
  import opened ShopFront

  /** A payment that was taken in, served and settled makes one step. */
  lemma HandedStep(w: State, op: Op, site: Site, now: int, w': State)
    requires PossibleNow(w, op, now) && HandedOver(w.shop, op).Some?
    requires
      var h := HandedOver(w.shop, op).value;
      && h.o < |h.t.orders|
      && Served(w.stock, w'.stock, h.o, h.t.orders[h.o], op.route, site, now)
      && w'.shop == Handlers.Deliver(h, op.route)
    ensures Step(w, Moment(Request(op), site, now), w')
  {
    ApplyDelivers(w.shop, op);
  }

  lemma RefusedStep(w: State, op: Op, site: Site, now: int)
    requires PossibleNow(w, op, now) && HandedOver(w.shop, op).None? && Handle(w.shop, op).Failure? && !op.RenewUser?
    ensures Step(w, Moment(Request(op), site, now), w)
  {
  }

  /** The claimed trial, as what goes to delivery. */
  ghost predicate TrialHanded(t: Tables, op: Op, t': Tables, o: nat, p: nat) {
    op.TakeTrial? && HandedOver(t, op) == Some(Handover(t', o, p)) && o < |t'.orders|
  }

  lemma TrialIsHanded(t: Tables, op: Op, t': Tables, o: nat, p: nat)
    requires op.TakeTrial? && o == |t.orders|
    requires
      Handlers.ClaimTrial(t, op.user, op.enabled, op.days, op.gigabytes, op.subscribed, op.now)
        == Success(Handover(t', o, p))
    ensures TrialHanded(t, op, t', o, p)
  {
  }

  lemma TrialStep(w: State, op: Op, t': Tables, o: nat, p: nat, site: Site, now: int, w': State)
    requires TrialHanded(w.shop, op, t', o, p) && op.subscribed == Subscribed(w.stock.accounts, op.user, now)
    requires Served(w.stock, w'.stock, o, t'.orders[o], op.route, site, now)
    requires w'.shop == Handlers.Deliver(Handover(t', o, p), op.route)
    ensures Step(w, Moment(Request(op), site, now), w')
  {
    HandedStep(w, op, site, now, w');
  }

  lemma TrialRefusedStep(w: State, op: Op, site: Site, now: int)
    requires op.TakeTrial? && op.subscribed == Subscribed(w.stock.accounts, op.user, now)
    requires Handlers.ClaimTrial(w.shop, op.user, op.enabled, op.days, op.gigabytes, op.subscribed, op.now).Failure?
    ensures Step(w, Moment(Request(op), site, now), w)
  {
    RefusedStep(w, op, site, now);
  }

  lemma StarsStep(w: State, op: Op, h: Handover, site: Site, now: int, w': State)
    requires op.StarsPaid? && TakeStars(w.shop, op.user, op.o) == Success(h) && h.o < |h.t.orders|
    requires Served(w.stock, w'.stock, h.o, h.t.orders[h.o], op.route, site, now)
    requires w'.shop == Handlers.Deliver(h, op.route)
    ensures Step(w, Moment(Request(op), site, now), w')
  {
    HandedStep(w, op, site, now, w');
  }

  /** The payment is recorded, or refused, without a delivery. */
  lemma StarsRecordedStep(w: State, op: Op, site: Site, now: int, t': Tables, reply: Reply)
    requires op.StarsPaid? && op.o < |w.shop.orders| && w.shop.orders[op.o].status != AwaitingStars
    requires w.shop.orders[op.o].user == op.user
    requires Answers(w.shop, t', Handlers.AddPayment(w.shop, op.o, Duplicate, Stars), reply)
    ensures Step(w, Moment(Request(op), site, now), w.(shop := t'))
  {
  }

  class Bot {
    const shop: Shop
    const warehouse: Warehouse

    ghost function W(): State
      reads shop, warehouse, warehouse.provisioner, warehouse.provisioner.panel
    {
      State(shop.T(), warehouse.S())
    }

    constructor (shop: Shop, warehouse: Warehouse)
      ensures this.shop == shop && this.warehouse == warehouse
    {
      this.shop, this.warehouse := shop, warehouse;
    }

    /** Deliver a payment that was taken in, through the panel or from the stock. */
    method Hand(o: nat, p: nat, site: Site, comment: string, now: int) returns (route: Route)
      requires o < |shop.orders| && warehouse.provisioner.panel.Valid()
      modifies shop, warehouse, warehouse.provisioner, warehouse.provisioner.panel
      ensures warehouse.provisioner.panel.Valid()
      ensures Served(old(warehouse.S()), warehouse.S(), o, old(shop.orders[o]), route, site, now)
      ensures shop.T() == Handlers.Deliver(Handover(old(shop.T()), o, p), route)
    {
      route := warehouse.Fulfill(o, shop.orders[o], site, comment, now);
      shop.Deliver(o, p, route);
    }

    /** api_pay_wallet: the wallet transaction and its delivery are one step. */
    method PayWallet(user: int, o: nat, site: Site, comment: string, now: int) returns (reply: Reply, route: Route)
      requires warehouse.provisioner.panel.Valid()
      modifies shop, warehouse, warehouse.provisioner, warehouse.provisioner.panel
      ensures warehouse.provisioner.panel.Valid()
      ensures Step(old(W()), Moment(Request(Op.PayWallet(user, o, route)), site, now), W())
      ensures reply == Done <==> Handlers.TakeWallet(old(shop.T()), user, o).Success?
    {
      var p := shop.nextPayment;
      route := NeedsManual;
      reply := shop.TakeWallet(user, o);
      if reply == Done {
        route := Hand(o, p, site, comment, now);
        HandedStep(old(W()), Op.PayWallet(user, o, route), site, now, W());
      }
    }

    /** admin_approve_payment. */
    method ApprovePayment(p: nat, site: Site, comment: string, now: int) returns (reply: Reply, route: Route)
      requires Sound(shop.T()) && warehouse.provisioner.panel.Valid()
      modifies shop, warehouse, warehouse.provisioner, warehouse.provisioner.panel
      ensures warehouse.provisioner.panel.Valid()
      ensures Step(old(W()), Moment(Request(Op.ApprovePayment(p, route)), site, now), W())
      ensures reply == Done <==> Handlers.ClaimReview(old(shop.T()), p).Success?
    {
      route := NeedsManual;
      reply := shop.ClaimReview(p);
      if reply == Done {
        route := Hand(shop.payments[p].order, p, site, comment, now);
        HandedStep(old(W()), Op.ApprovePayment(p, route), site, now, W());
      }
    }

    /** stars_paid; a payment that the order does not await is recorded and delivers nothing. */
    method StarsPaid(user: int, o: nat, site: Site, comment: string, now: int) returns (reply: Reply, route: Route)
      requires warehouse.provisioner.panel.Valid()
      modifies shop, warehouse, warehouse.provisioner, warehouse.provisioner.panel
      ensures warehouse.provisioner.panel.Valid()
      ensures Step(old(W()), Moment(Request(Op.StarsPaid(user, o, route)), site, now), W())
    {
      route := NeedsManual;
      if o < |shop.orders| && shop.orders[o].user == user && shop.orders[o].status != AwaitingStars {
        reply := shop.AddPayment(o, Duplicate, Stars);
        StarsRecordedStep(old(W()), Op.StarsPaid(user, o, route), site, now, shop.T(), reply);
        return;
      }
      var p := shop.nextPayment;
      reply := shop.TakeStars(user, o);
      if reply == Done {
        ghost var h := Handover(shop.T(), o, p);
        route := Hand(o, p, site, comment, now);
        StarsStep(old(W()), Op.StarsPaid(user, o, route), h, site, now, W());
      } else {
        RefusedStep(W(), Op.StarsPaid(user, o, route), site, now);
      }
    }

    /** api_trial: a customer with a live account gets none. */
    method TakeTrial(user: int, enabled: bool, days: int, gigabytes: int, site: Site, comment: string, now: int)
      returns (reply: Reply, route: Route, subscribed: bool)
      requires warehouse.provisioner.panel.Valid()
      modifies shop, warehouse, warehouse.provisioner, warehouse.provisioner.panel
      ensures warehouse.provisioner.panel.Valid()
      ensures subscribed == Subscribed(old(warehouse.accounts), user, now)
      ensures Step(old(W()),
                   Moment(Request(Op.TakeTrial(user, enabled, days, gigabytes, subscribed, now, route)), site, now), W())
    {
      route := NeedsManual;
      subscribed := Subscribed(warehouse.accounts, user, now);
      var o, p := |shop.orders|, shop.nextPayment;
      reply := shop.ClaimTrial(user, enabled, days, gigabytes, subscribed, now);
      if reply == Done {
        ghost var taken := shop.T();
        route := Hand(o, p, site, comment, now);
        ghost var op := Op.TakeTrial(user, enabled, days, gigabytes, subscribed, now, route);
        TrialIsHanded(old(shop.T()), op, taken, o, p);
        TrialStep(old(W()), op, taken, o, p, site, now, W());
      } else {
        TrialRefusedStep(W(), Op.TakeTrial(user, enabled, days, gigabytes, subscribed, now, route), site, now);
      }
    }

    /** admin_renew_user. */
    method RenewUser(user: int, site: Site, now: int) returns (reply: Reply, account: Option<nat>)
      modifies shop, warehouse
      ensures Step(old(W()), Moment(Request(Op.RenewUser(user, account, now)), site, now), W())
    {
      account := warehouse.RenewNewest(user, now);
      reply := shop.RenewUser(user, account, now);
    }
  }

  // --- a run with a delivery ------------------------------------------------

  const NOBODY := Stock([], [], map[])

  function SoldClient(email: string, g: Goods, now: int): Client {
    Client(NewRow(email, g, now, "")[SubId := Str("s")], {1})
  }

  /** The panel had no clients: it gets one for the order, and the user gets the row that shows it. */
  lemma FirstDelivery(order: Order, site: Site) returns (after: Stock, p: Provision)
    requires order.renews.None? && order.days == 30 && order.gigabytes == 10 && site.ready
    ensures ServedAuto(NOBODY, after, 0, order, site, 0, p)
  {
    var email, g := ClientEmail(order.user), Wants(order);
    p := Provisions("s", 10 * GB, 30 * MS_PER_DAY);
    var clients: Clients := map[email := SoldClient(email, g, 0)];
    after := Stock([NewAutoAccount(0, order, SubscriptionUrl(site, "s"), p, 0)], [], clients);
    assert Provisioned(NOBODY.clients, clients, email, g, 0, {1}, Some(p));
  }

  /** A free order of 10 GB, and its delivery through the panel. */
  lemma DeliveredOrder(w: State, site: Site) returns (w': State)
    requires w.stock == NOBODY && site.ready && Handlers.TakeWallet(w.shop, 7, 0).Success?
    requires
      var order := Handlers.TakeWallet(w.shop, 7, 0).value.t.orders[0];
      order.renews.None? && order.days == 30 && order.gigabytes == 10
    ensures Step(w, Moment(Request(PayWallet(7, 0, NewAuto)), site, 0), w')
  {
    var order := Handlers.TakeWallet(w.shop, 7, 0).value.t.orders[0];
    var after, p := FirstDelivery(order, site);
    w' := State(Apply(w.shop, PayWallet(7, 0, NewAuto)), after);
  }

  lemma FirstCustomer() returns (t1: Tables)
    ensures t1 == Apply(EMPTY, Register(7, "c", ""))
    ensures t1.users == map[7 := User(0, 0, false, "c", None, 0)] && t1.orders == [] && t1.payments == map[]
  {
    t1 := Apply(EMPTY, Register(7, "c", ""));
  }

  lemma FirstOrder(t1: Tables) returns (t2: Tables, offer: Offer)
    requires t1.users == map[7 := User(0, 0, false, "c", None, 0)] && t1.orders == [] && t1.payments == map[]
    ensures t2 == Apply(t1, Op.CreateOrder(7, offer, 0))
    ensures offer.days == 30 && offer.gigabytes == 10 && Possible(t1, Op.CreateOrder(7, offer, 0))
    ensures Handlers.TakeWallet(t2, 7, 0).Success? && |t2.orders| == 1
    ensures
      var order := Handlers.TakeWallet(t2, 7, 0).value.t.orders[0];
      order.user == 7 && order.renews.None? && order.days == 30 && order.gigabytes == 10
  {
    offer := Offer(30, 10, 0, None, 1, None, false);
    t2 := Apply(t1, Op.CreateOrder(7, offer, 0));
    assert t2.orders == [NewOrder(7, offer, 0)];
  }

  /** A step that hands nothing to delivery and renews nothing leaves the goods alone. */
  lemma TablesOnlyStep(t: Tables, op: Op, site: Site)
    requires PossibleNow(State(t, NOBODY), op, 0) && HandedOver(t, op).None? && !op.RenewUser?
    ensures Step(State(t, NOBODY), Moment(Request(op), site, 0), State(Apply(t, op), NOBODY))
  {
  }

  /** There are runs with deliveries: here the panel ends up with the 10 GB that were sold. */
  lemma RunWithDelivery(site: Site) returns (ws: seq<State>, ms: seq<Moment>)
    requires site.ready
    ensures |ms| == 3 && Trace(ws, ms) && Opening(ws[0]) && DeliversOnAutoRow(ws[2], ms[2], 7)
    ensures ClientEmail(7) in ws[3].stock.clients
    ensures MirrorsPanel(ws[3].stock.accounts, 7, Quota(ws[3].stock.clients, 7))
  {
    var t1 := FirstCustomer();
    var t2, offer := FirstOrder(t1);
    TablesOnlyStep(EMPTY, Register(7, "c", ""), site);
    TablesOnlyStep(t1, Op.CreateOrder(7, offer, 0), site);
    var w0, w1, w2 := State(EMPTY, NOBODY), State(t1, NOBODY), State(t2, NOBODY);
    var w3 := DeliveredOrder(w2, site);
    var m0 := Moment(Request(Register(7, "c", "")), site, 0);
    var m1 := Moment(Request(Op.CreateOrder(7, offer, 0)), site, 0);
    var m2 := Moment(Request(PayWallet(7, 0, NewAuto)), site, 0);
    ws, ms := [w0, w1, w2, w3], [m0, m1, m2];
    forall i | 0 <= i < |ms|
      ensures StepAt(ws, ms, i)
    {
      assert i == 0 || i == 1 || i == 2;
    }
    RowMirrorsPanel(ws, ms, 2, 7);
  }
}
