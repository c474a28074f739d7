/**
 Money and goods in one state: the tables of the shop, the account rows, the stock of
 configs and the clients on the panel, over runs of any length.
 */
module World {
  import opened Results
  import opened Sums
  import opened Schema
  import opened Handlers
  import opened Operations
  import opened Machine
  import opened Referrals
  import opened Runs
  import opened OrderMoves
  import opened PanelRecords
  import opened Provisioning
  import opened Delivery

  datatype State = State(shop: Tables, stock: Stock)

  datatype Event = Request(op: Op) | NewConfig(plan: string, text: string)

  /** An event, the panel settings it meets, and the time. */
  datatype Moment = Moment(event: Event, site: Site, now: int)

  /** Plans never sell a negative amount, and the trial looks at the customer's accounts. */
  predicate PossibleNow(w: State, op: Op, now: int) {
    && Possible(w.shop, op)
    && GoodsPossible(op)
    && (op.TakeTrial? ==> op.subscribed == Subscribed(w.stock.accounts, op.user, now))
  }

  /** A payment that was taken in goes to delivery; the admin's renewal extends a row; nothing else moves goods. */
  ghost predicate StockMoves(w: State, op: Op, after: Stock, site: Site, now: int) {
    match HandedOver(w.shop, op)
    case Some(h) => h.o < |h.t.orders| && Served(w.stock, after, h.o, h.t.orders[h.o], op.route, site, now)
    case None =>
      if op.RenewUser?
      then
        && RenewedByAdmin(w.stock.accounts, after.accounts, op.user, op.account, now)
        && after == w.stock.(accounts := after.accounts)
      else after == w.stock
  }

  ghost predicate Step(w: State, m: Moment, w': State) {
    match m.event
    case NewConfig(plan, text) =>
      w' == w.(stock := w.stock.(configs := w.stock.configs + [Config(plan, Trim(text), m.now, false, None)]))
    case Request(op) =>
      && PossibleNow(w, op, m.now)
      && w'.shop == Apply(w.shop, op)
      && StockMoves(w, op, w'.stock, m.site, m.now)
  }

  // --- what is kept ---------------------------------------------------------

  predicate OnPanel(order: Order) {
    order.route == Some(NewAuto) || order.route == Some(RenewalAuto)
  }

  function SoldTo(user: int): Order -> int {
    (order: Order) => if order.user == user && OnPanel(order) then order.gigabytes else 0
  }

  /** The gigabytes of the user's orders that were delivered through the panel. */
  function Sold(orders: seq<Order>, user: int): int {
    Sum(orders, SoldTo(user))
  }

  predicate BoughtOnPanel(orders: seq<Order>, user: int) {
    exists o | 0 <= o < |orders| :: orders[o].user == user && OnPanel(orders[o])
  }

  /** A quota (0 is unlimited) that holds this many gigabytes. */
  predicate Covers(quota: int, gigabytes: int) {
    quota == 0 || quota >= gigabytes * GB
  }

  function Quota(clients: Clients, user: int): int
    requires ClientEmail(user) in clients
  {
    IntField(clients[ClientEmail(user)].row, TotalGB)
  }

  predicate OrdersDeliverable(orders: seq<Order>) {
    forall o | 0 <= o < |orders| ::
      && orders[o].days >= 0 && orders[o].gigabytes >= 0
      && (orders[o].route.Some? ==> orders[o].status == Completed && orders[o].route.value.Delivers())
      && (orders[o].route.Some? && orders[o].route.value.Renews() ==> orders[o].renews.Some?)
      && (orders[o].status == Completed && orders[o].renews.None? ==> orders[o].route.Some?)
  }

  predicate RowFits(orders: seq<Order>, a: Account) {
    && a.order < |orders|
    && orders[a.order].user == a.user
    && orders[a.order].route == Some(if a.ref == Auto then NewAuto else NewInventory)
  }

  predicate RowsAgree(orders: seq<Order>, accounts: seq<Account>) {
    && (forall i | 0 <= i < |accounts| :: RowFits(orders, accounts[i]))
    && (forall i, j | 0 <= i < j < |accounts| :: accounts[i].order != accounts[j].order)
  }

  ghost predicate OneAutoRow(accounts: seq<Account>) {
    forall u, i, j | IsAutoRow(accounts, u, i) && IsAutoRow(accounts, u, j) :: i == j
  }

  predicate HoldsConfig(accounts: seq<Account>, i: int, k: int, o: nat) {
    0 <= i < |accounts| && accounts[i].order == o && accounts[i].ref.FromConfig? && accounts[i].ref.k == k
  }

  predicate GivenTo(configs: seq<Config>, k: int, o: nat) {
    0 <= k < |configs| && configs[k].order == Some(o)
  }

  /** A config that was handed out has its order's account row, and every such row has its config. */
  ghost predicate ConfigsAgree(orders: seq<Order>, accounts: seq<Account>, configs: seq<Config>) {
    && (forall k | 0 <= k < |configs| :: configs[k].handedOut == configs[k].order.Some?)
    && (forall k, o | GivenTo(configs, k, o) :: exists i :: HoldsConfig(accounts, i, k, o))
    && (forall i, k, o | HoldsConfig(accounts, i, k, o) :: GivenTo(configs, k, o))
    && (forall k, o: nat | GivenTo(configs, k, o) && o < |orders| :: orders[o].plan == Some(configs[k].plan))
    && (forall o | 0 <= o < |orders| && orders[o].route == Some(NewInventory) :: exists k :: GivenTo(configs, k, o))
  }

  /** Nothing sold is lost: the client's quota covers everything the user bought through the panel. */
  ghost predicate Covered(orders: seq<Order>, clients: Clients) {
    && (forall e | e in clients :: IntField(clients[e].row, TotalGB) >= 0)
    && (forall u | BoughtOnPanel(orders, u) ::
          ClientEmail(u) in clients && Covers(Quota(clients, u), Sold(orders, u)))
  }

  ghost predicate GoodsKept(orders: seq<Order>, stock: Stock) {
    && OrdersDeliverable(orders)
    && RowsAgree(orders, stock.accounts)
    && OneAutoRow(stock.accounts)
    && ConfigsAgree(orders, stock.accounts, stock.configs)
    && Covered(orders, stock.clients)
  }

  ghost predicate Kept(w: State) {
    Healthy(w.shop) && GoodsKept(w.shop.orders, w.stock)
  }

  // --- orders whose delivery does not change --------------------------------

  predicate SameDelivery(a: Order, b: Order) {
    && b.route == a.route && b.user == a.user && b.plan == a.plan
    && b.days == a.days && b.gigabytes == a.gigabytes && b.renews == a.renews
    && (a.route.Some? ==> b.status == a.status)
    && (b.status == Completed ==> a.status == Completed)
  }

  /** No order was delivered, and the new ones were not either. */
  predicate SameDeliveries(before: seq<Order>, after: seq<Order>) {
    && |before| <= |after|
    && (forall o | 0 <= o < |before| :: SameDelivery(before[o], after[o]))
    && (forall o | |before| <= o < |after| ::
          && after[o].route == None && after[o].days >= 0 && after[o].gigabytes >= 0
          && (after[o].status == Completed ==> after[o].renews.Some?))
  }

  lemma {:induction false} SameDeliveriesSold(before: seq<Order>, after: seq<Order>, user: int)
    requires SameDeliveries(before, after)
    ensures Sold(after, user) == Sold(before, user)
    decreases |after|
  {
    if |after| > |before| {
      SameDeliveriesSold(before, after[..|after| - 1], user);
    } else {
      SumSame(before, after, SoldTo(user));
    }
  }

  lemma SameDeliveriesKept(before: seq<Order>, after: seq<Order>, stock: Stock)
    requires GoodsKept(before, stock) && SameDeliveries(before, after)
    ensures GoodsKept(after, stock)
  {
    forall o | 0 <= o < |after| && after[o].route == Some(NewInventory)
      ensures exists k :: GivenTo(stock.configs, k, o)
    {
      assert before[o].route == Some(NewInventory);
    }
    forall k, o: nat | GivenTo(stock.configs, k, o) && o < |after|
      ensures after[o].plan == Some(stock.configs[k].plan)
    {
      var i :| HoldsConfig(stock.accounts, i, k, o);
      assert RowFits(before, stock.accounts[i]);
    }
    forall u | BoughtOnPanel(after, u)
      ensures ClientEmail(u) in stock.clients && Covers(Quota(stock.clients, u), Sold(after, u))
    {
      assert BoughtOnPanel(before, u);
      SameDeliveriesSold(before, after, u);
    }
  }

  lemma KeptDeliveries(before: seq<Order>, after: seq<Order>)
    requires OrdersDeliverable(before) && KeepsOrders(before, after) && NewGoodsPossible(before, after)
    ensures SameDeliveries(before, after)
  {
    forall o | 0 <= o < |before|
      ensures SameDelivery(before[o], after[o])
    {
      assert OnlyPaymentMoves(before[o], after[o]);
    }
  }

  lemma QuietDeliveries(t: Tables, op: Op)
    requires Sound(t) && OrdersDeliverable(t.orders) && HandedOver(t, op).None? && GoodsPossible(op)
    ensures SameDeliveries(t.orders, Apply(t, op).orders)
  {
    QuietStepKeeps(t, op);
    KeptDeliveries(t.orders, Apply(t, op).orders);
  }

  lemma TakenDeliveries(t: Tables, op: Op)
    requires Sound(t) && OrdersDeliverable(t.orders) && HandedOver(t, op).Some?
    ensures SameDeliveries(t.orders, HandedOver(t, op).value.t.orders)
  {
    TakingKeeps(t, op);
    KeptDeliveries(t.orders, HandedOver(t, op).value.t.orders);
  }

  // --- delivered orders -----------------------------------------------------

  /** One order was delivered by `route`; what else changed on it is bookkeeping. */
  predicate DeliveredAs(before: seq<Order>, after: seq<Order>, o: nat, route: Route) {
    && o < |before| == |after|
    && route.Delivers()
    && after[o].route == Some(route) && after[o].status == Completed
    && SameTerms(before[o], after[o])
    && forall i | 0 <= i < |before| && i != o :: after[i] == before[i]
  }

  lemma DeliverDelivers(h: Handover, route: Route)
    requires Forest(h.t) && h.o < |h.t.orders| && h.p in h.t.payments && route.Delivers()
    ensures DeliveredAs(h.t.orders, Deliver(h, route).orders, h.o, route)
  {
    CompletionSucceeds(h.t, h.o, h.p, route);
    CompleteShape(h.t, h.o, h.p, route);
  }

  /** A delivering route really completes the order that was handed over; otherwise nothing more happens. */
  lemma HandoverDelivers(t: Tables, op: Op)
    requires Sound(t) && Forest(t) && HandedOver(t, op).Some?
    ensures
      var h := HandedOver(t, op).value;
      && Deliverable(h.t, h.o, h.p)
      && if op.route.Delivers() then DeliveredAs(h.t.orders, Apply(t, op).orders, h.o, op.route)
         else Apply(t, op) == h.t
  {
    var h := HandedOver(t, op).value;
    HandedOverSound(t, op);
    HandedOverKeepsCustomers(t, op);
    ForestStays(t, h.t);
    ApplyDelivers(t, op);
    if op.route.Delivers() {
      DeliverDelivers(h, op.route);
    }
  }

  lemma DeliveredSold(before: seq<Order>, after: seq<Order>, o: nat, route: Route, user: int)
    requires DeliveredAs(before, after, o, route) && before[o].route.None?
    ensures Sold(after, user) ==
      Sold(before, user) + if user == before[o].user && OnPanel(after[o]) then before[o].gigabytes else 0
    ensures BoughtOnPanel(after, user) <==> BoughtOnPanel(before, user) || (user == before[o].user && OnPanel(after[o]))
  {
    assert after == before[o := after[o]];
    SumUpdate(before, o, after[o], SoldTo(user));
    if BoughtOnPanel(before, user) {
      var i :| 0 <= i < |before| && before[i].user == user && OnPanel(before[i]);
      assert after[i].user == user && OnPanel(after[i]);
    }
    if user == before[o].user && OnPanel(after[o]) {
      assert after[o].user == user;
    }
  }

  // --- the panel ------------------------------------------------------------

  /** What a delivery attempt for this order does to the clients on the panel. */
  ghost predicate ClientsServed(before: Clients, after: Clients, order: Order, route: Route, now: int) {
    if route == NewAuto || route == RenewalAuto
    then exists p :: ProvisionedFor(before, after, order, now, Some(p))
    else after == before || exists outcome :: ProvisionedFor(before, after, order, now, outcome)
  }

  lemma ServedClients(b: Stock, a: Stock, o: nat, order: Order, route: Route, site: Site, now: int)
    requires Served(b, a, o, order, route, site, now)
    ensures ClientsServed(b.clients, a.clients, order, route, now)
  {
    match route
    case NewAuto =>
      var p :| ServedAuto(b, a, o, order, site, now, p);
      assert ProvisionedFor(b.clients, a.clients, order, now, Some(p));
    case RenewalAuto =>
      var p :| RenewedAuto(b, a, order, site, now, p);
      assert ProvisionedFor(b.clients, a.clients, order, now, Some(p));
    case RenewalDb =>
    case NewInventory =>
      var k: nat :| ServedFromStock(b, a, o, order, site, now, k);
      assert PanelTried(b.clients, a.clients, order, site, now);
    case NeedsManual =>
      assert LeftToAdmins(b, a, o, order, site, now);
  }

  /** The buyer's quota after an attempt: as before, or with the order added, or that of a new client. */
  lemma AttemptQuota(before: Clients, after: Clients, order: Order, now: int, outcome: Option<Provision>)
    requires ProvisionedFor(before, after, order, now, outcome) && order.gigabytes >= 0
    ensures ClientEmail(order.user) in before ==> ClientEmail(order.user) in after
    ensures outcome.Some? ==> ClientEmail(order.user) in after
    ensures ClientEmail(order.user) in after ==>
      var quota := Quota(after, order.user);
      if ClientEmail(order.user) in before
      then
        var added := Added(Quota(before, order.user), order.gigabytes * GB);
        quota == added || (outcome.None? && quota == Quota(before, order.user))
      else quota == order.gigabytes * GB
  {
  }

  lemma AddedCovers(quota: nat, sold: nat, gigabytes: nat)
    requires Covers(quota, sold)
    ensures Added(quota, gigabytes * GB) >= 0
    ensures Covers(Added(quota, gigabytes * GB), sold + gigabytes) && Covers(Added(quota, gigabytes * GB), sold)
  {
    assert (sold + gigabytes) * GB == sold * GB + gigabytes * GB;
  }

  /** One attempt, one client: it keeps covering what it covered, and a success covers the order too. */
  lemma AttemptCovers(before: Clients, after: Clients, order: Order, now: int, outcome: Option<Provision>, sold: nat)
    requires ProvisionedFor(before, after, order, now, outcome) && order.gigabytes >= 0
    requires forall e | e in before :: IntField(before[e].row, TotalGB) >= 0
    requires ClientEmail(order.user) in before && Covers(Quota(before, order.user), sold)
    ensures ClientEmail(order.user) in after && Quota(after, order.user) >= 0 && Covers(Quota(after, order.user), sold)
    ensures outcome.Some? ==> Covers(Quota(after, order.user), sold + order.gigabytes)
  {
    AttemptQuota(before, after, order, now, outcome);
    AddedCovers(Quota(before, order.user), sold, order.gigabytes);
  }

  lemma AttemptKeepsOthers(before: Clients, after: Clients, order: Order, now: int, outcome: Option<Provision>, u: int)
    requires ProvisionedFor(before, after, order, now, outcome) && u != order.user
    ensures ClientEmail(u) in before <==> ClientEmail(u) in after
    ensures ClientEmail(u) in before ==> after[ClientEmail(u)] == before[ClientEmail(u)]
  {
    if ClientEmail(u) == ClientEmail(order.user) {
      ClientEmailInjective(u, order.user);
    }
  }

  lemma AttemptKeepsQuotas(before: Clients, after: Clients, order: Order, now: int, outcome: Option<Provision>)
    requires ProvisionedFor(before, after, order, now, outcome)
    requires forall e | e in before :: IntField(before[e].row, TotalGB) >= 0
    ensures forall e | e in after :: IntField(after[e].row, TotalGB) >= 0
  {
    forall e | e in after
      ensures IntField(after[e].row, TotalGB) >= 0
    {
      if e != ClientEmail(order.user) {
        assert e in before;
      }
    }
  }

  lemma NothingBought(orders: seq<Order>, user: int)
    requires !BoughtOnPanel(orders, user)
    ensures Sold(orders, user) == 0
  {
    SumZero(orders, SoldTo(user));
  }

  lemma SoldIsNatural(orders: seq<Order>, user: int)
    requires OrdersDeliverable(orders)
    ensures Sold(orders, user) >= 0
  {
    SumNonNegative(orders, SoldTo(user));
  }

  /** An attempt that sells nothing: what was covered stays covered. */
  lemma AttemptKeepsCovered(orders: seq<Order>, before: Clients, after: Clients, order: Order, now: int,
        outcome: Option<Provision>)
    requires OrdersDeliverable(orders) && Covered(orders, before) && order.gigabytes >= 0
    requires ProvisionedFor(before, after, order, now, outcome)
    ensures Covered(orders, after)
  {
    AttemptKeepsQuotas(before, after, order, now, outcome);
    forall u | BoughtOnPanel(orders, u)
      ensures ClientEmail(u) in after && Covers(Quota(after, u), Sold(orders, u))
    {
      SoldIsNatural(orders, u);
      if u == order.user {
        AttemptCovers(before, after, order, now, outcome, Sold(orders, u));
      } else {
        AttemptKeepsOthers(before, after, order, now, outcome, u);
      }
    }
  }

  /** The client of the buyer after a successful attempt covers the new order as well. */
  lemma SuccessCovers(orders: seq<Order>, before: Clients, after: Clients, order: Order, now: int, p: Provision)
    requires OrdersDeliverable(orders) && Covered(orders, before) && order.gigabytes >= 0
    requires ProvisionedFor(before, after, order, now, Some(p))
    ensures ClientEmail(order.user) in after
    ensures Covers(Quota(after, order.user), Sold(orders, order.user) + order.gigabytes)
  {
    SoldIsNatural(orders, order.user);
    if !BoughtOnPanel(orders, order.user) {
      NothingBought(orders, order.user);
    }
    if ClientEmail(order.user) in before {
      AttemptCovers(before, after, order, now, Some(p), Sold(orders, order.user));
    } else {
      AttemptQuota(before, after, order, now, Some(p));
    }
  }

  lemma DeliveredCovered(before: seq<Order>, after: seq<Order>, o: nat, route: Route, b: Clients, a: Clients, now: int)
    requires OrdersDeliverable(before) && Covered(before, b)
    requires DeliveredAs(before, after, o, route) && before[o].route.None?
    requires ClientsServed(b, a, before[o], route, now)
    ensures Covered(after, a)
  {
    var order := before[o];
    assert OnPanel(after[o]) <==> route == NewAuto || route == RenewalAuto;
    if OnPanel(after[o]) {
      var p :| ProvisionedFor(b, a, order, now, Some(p));
      AttemptKeepsCovered(before, b, a, order, now, Some(p));
      SuccessCovers(before, b, a, order, now, p);
    } else if a != b {
      var outcome :| ProvisionedFor(b, a, order, now, outcome);
      AttemptKeepsCovered(before, b, a, order, now, outcome);
    }
    forall u | BoughtOnPanel(after, u)
      ensures ClientEmail(u) in a && Covers(Quota(a, u), Sold(after, u))
    {
      DeliveredSold(before, after, o, route, u);
    }
  }

  // --- account rows and configs ---------------------------------------------

  predicate SameRow(a: Account, b: Account) {
    b.order == a.order && b.user == a.user && b.ref == a.ref
  }

  /** Rows may be refreshed in place. */
  predicate RowsRefreshed(before: seq<Account>, after: seq<Account>) {
    |after| == |before| && forall i | 0 <= i < |before| :: SameRow(before[i], after[i])
  }

  predicate RowAdded(before: seq<Account>, after: seq<Account>, o: nat, user: int, ref: Ref) {
    |after| == |before| + 1 && after[..|before|] == before && SameRow(Account(o, user, ref, "", 0, 0, true, 0), after[|before|])
  }

  lemma RefreshedKept(orders: seq<Order>, before: Stock, after: Stock)
    requires RowsAgree(orders, before.accounts) && OneAutoRow(before.accounts)
    requires ConfigsAgree(orders, before.accounts, before.configs)
    requires RowsRefreshed(before.accounts, after.accounts) && after.configs == before.configs
    ensures RowsAgree(orders, after.accounts) && OneAutoRow(after.accounts)
    ensures ConfigsAgree(orders, after.accounts, after.configs)
  {
    assert forall i, k, o :: HoldsConfig(after.accounts, i, k, o) <==> HoldsConfig(before.accounts, i, k, o);
    assert forall u, i :: IsAutoRow(after.accounts, u, i) <==> IsAutoRow(before.accounts, u, i);
    forall k, o | GivenTo(after.configs, k, o)
      ensures exists i :: HoldsConfig(after.accounts, i, k, o)
    {
      var i :| HoldsConfig(before.accounts, i, k, o);
      assert HoldsConfig(after.accounts, i, k, o);
    }
  }

  /** Delivering an order does not disturb the rows and configs of the others. */
  lemma DeliveredRowsAgree(before: seq<Order>, after: seq<Order>, o: nat, route: Route, s: Stock)
    requires RowsAgree(before, s.accounts) && DeliveredAs(before, after, o, route) && before[o].route.None?
    ensures RowsAgree(after, s.accounts) && !HasRow(s.accounts, o)
  {
    assert forall i | 0 <= i < |s.accounts| :: RowFits(before, s.accounts[i]);
  }

  lemma DeliveredConfigsAgree(before: seq<Order>, after: seq<Order>, o: nat, route: Route, s: Stock)
    requires ConfigsAgree(before, s.accounts, s.configs) && DeliveredAs(before, after, o, route)
    requires before[o].route.None? && route != NewInventory
    ensures ConfigsAgree(after, s.accounts, s.configs)
  {
  }

  lemma AutoRowAdded(orders: seq<Order>, before: Stock, after: Stock, o: nat)
    requires RowsAgree(orders, before.accounts) && !HasRow(before.accounts, o) && OneAutoRow(before.accounts)
    requires ConfigsAgree(orders, before.accounts, before.configs)
    requires o < |orders| && orders[o].route == Some(NewAuto)
    requires forall k :: !IsAutoRow(before.accounts, orders[o].user, k)
    requires RowAdded(before.accounts, after.accounts, o, orders[o].user, Auto) && after.configs == before.configs
    ensures RowsAgree(orders, after.accounts) && OneAutoRow(after.accounts)
    ensures ConfigsAgree(orders, after.accounts, after.configs)
  {
    assert forall i | 0 <= i < |before.accounts| :: after.accounts[i] == before.accounts[i];
    assert forall i, k, q :: HoldsConfig(after.accounts, i, k, q) <==> HoldsConfig(before.accounts, i, k, q);
    assert forall u, i | i != |before.accounts| :: IsAutoRow(after.accounts, u, i) <==> IsAutoRow(before.accounts, u, i);
    forall k, q | GivenTo(after.configs, k, q)
      ensures exists i :: HoldsConfig(after.accounts, i, k, q)
    {
      var i :| HoldsConfig(before.accounts, i, k, q);
      assert HoldsConfig(after.accounts, i, k, q);
    }
  }

  ghost predicate TakenFromStock(b: Stock, a: Stock, o: nat, order: Order, k: nat) {
    && order.plan.Some? && IsFree(b.configs, order.plan.value, k)
    && a.configs == Assigned(b.configs, k, o)
    && RowAdded(b.accounts, a.accounts, o, order.user, FromConfig(k))
  }

  lemma StockRowsAgree(orders: seq<Order>, b: Stock, a: Stock, o: nat, k: nat)
    requires RowsAgree(orders, b.accounts) && !HasRow(b.accounts, o) && OneAutoRow(b.accounts)
    requires o < |orders| && orders[o].route == Some(NewInventory) && TakenFromStock(b, a, o, orders[o], k)
    ensures RowsAgree(orders, a.accounts) && OneAutoRow(a.accounts)
  {
    assert forall i | 0 <= i < |b.accounts| :: a.accounts[i] == b.accounts[i];
    assert forall u, i :: IsAutoRow(a.accounts, u, i) <==> IsAutoRow(b.accounts, u, i);
  }

  lemma StockConfigsAgree(before: seq<Order>, after: seq<Order>, b: Stock, a: Stock, o: nat, k: nat)
    requires ConfigsAgree(before, b.accounts, b.configs) && RowsAgree(before, b.accounts)
    requires DeliveredAs(before, after, o, NewInventory) && before[o].route.None?
    requires TakenFromStock(b, a, o, before[o], k)
    ensures ConfigsAgree(after, a.accounts, a.configs)
  {
    var last := |b.accounts|;
    assert forall i | 0 <= i < last :: a.accounts[i] == b.accounts[i];
    assert forall i, j, q | i != last :: HoldsConfig(a.accounts, i, j, q) <==> HoldsConfig(b.accounts, i, j, q);
    assert forall j, q | j != k :: GivenTo(a.configs, j, q) <==> GivenTo(b.configs, j, q);
    assert forall q :: !GivenTo(b.configs, k, q);
    assert HoldsConfig(a.accounts, last, k, o) && GivenTo(a.configs, k, o);
    forall j, q | GivenTo(a.configs, j, q)
      ensures exists i :: HoldsConfig(a.accounts, i, j, q)
    {
      if j != k {
        var i :| HoldsConfig(b.accounts, i, j, q);
        assert HoldsConfig(a.accounts, i, j, q);
      }
    }
    forall q | 0 <= q < |after| && after[q].route == Some(NewInventory)
      ensures exists j :: GivenTo(a.configs, j, q)
    {
      if q != o {
        assert before[q].route == Some(NewInventory);
        var j :| GivenTo(b.configs, j, q);
        assert GivenTo(a.configs, j, q);
      }
    }
  }

  // --- one step -------------------------------------------------------------

  lemma UpsertedRows(before: seq<Account>, after: seq<Account>, o: nat, order: Order, path: string, p: Provision,
        now: int)
    requires Upserted(before, after, o, order, path, p, now)
    ensures
      || RowsRefreshed(before, after)
      || (RowAdded(before, after, o, order.user, Auto) && forall k :: !IsAutoRow(before, order.user, k))
  {
  }

  /** Rows and configs after a delivery, route by route. */
  lemma AutoRowsKept(before: seq<Order>, after: seq<Order>, b: Stock, a: Stock, o: nat, site: Site, now: int,
        p: Provision)
    requires GoodsKept(before, b) && DeliveredAs(before, after, o, NewAuto) && before[o].route.None?
    requires ServedAuto(b, a, o, before[o], site, now, p)
    ensures RowsAgree(after, a.accounts) && OneAutoRow(a.accounts) && ConfigsAgree(after, a.accounts, a.configs)
  {
    DeliveredRowsAgree(before, after, o, NewAuto, b);
    DeliveredConfigsAgree(before, after, o, NewAuto, b);
    UpsertedRows(b.accounts, a.accounts, o, before[o], SubscriptionUrl(site, p.subId), p, now);
    if RowsRefreshed(b.accounts, a.accounts) {
      RefreshedKept(after, b, a);
    } else {
      AutoRowAdded(after, b, a, o);
    }
  }

  lemma RenewedRowsKept(before: seq<Order>, after: seq<Order>, b: Stock, a: Stock, o: nat, route: Route)
    requires GoodsKept(before, b) && DeliveredAs(before, after, o, route) && before[o].route.None?
    requires route.Renews() && RowsRefreshed(b.accounts, a.accounts) && a.configs == b.configs
    ensures RowsAgree(after, a.accounts) && OneAutoRow(a.accounts) && ConfigsAgree(after, a.accounts, a.configs)
  {
    DeliveredRowsAgree(before, after, o, route, b);
    DeliveredConfigsAgree(before, after, o, route, b);
    RefreshedKept(after, b, a);
  }

  lemma StockRowsKept(before: seq<Order>, after: seq<Order>, b: Stock, a: Stock, o: nat, site: Site, now: int, k: nat)
    requires GoodsKept(before, b) && DeliveredAs(before, after, o, NewInventory) && before[o].route.None?
    requires ServedFromStock(b, a, o, before[o], site, now, k)
    ensures RowsAgree(after, a.accounts) && OneAutoRow(a.accounts) && ConfigsAgree(after, a.accounts, a.configs)
  {
    DeliveredRowsAgree(before, after, o, NewInventory, b);
    assert RowAdded(b.accounts, a.accounts, o, before[o].user, FromConfig(k));
    StockRowsAgree(after, b, a, o, k);
    StockConfigsAgree(before, after, b, a, o, k);
  }

  lemma ServedRowsKept(before: seq<Order>, after: seq<Order>, b: Stock, a: Stock, o: nat, route: Route, site: Site,
        now: int)
    requires GoodsKept(before, b) && DeliveredAs(before, after, o, route) && before[o].route.None?
    requires Served(b, a, o, before[o], route, site, now)
    ensures RowsAgree(after, a.accounts) && OneAutoRow(a.accounts) && ConfigsAgree(after, a.accounts, a.configs)
  {
    match route
    case NewAuto =>
      var p :| ServedAuto(b, a, o, before[o], site, now, p);
      AutoRowsKept(before, after, b, a, o, site, now, p);
    case NewInventory =>
      var k: nat :| ServedFromStock(b, a, o, before[o], site, now, k);
      StockRowsKept(before, after, b, a, o, site, now, k);
    case RenewalAuto => RenewedRowsKept(before, after, b, a, o, route);
    case RenewalDb => RenewedRowsKept(before, after, b, a, o, route);
  }

  lemma DeliveryKept(before: seq<Order>, after: seq<Order>, b: Stock, a: Stock, o: nat, route: Route, site: Site,
        now: int)
    requires GoodsKept(before, b) && DeliveredAs(before, after, o, route) && before[o].route.None?
    requires Served(b, a, o, before[o], route, site, now)
    ensures GoodsKept(after, a)
  {
    assert route.Renews() ==> KnownRenewal(b.accounts, before[o]);
    ServedClients(b, a, o, before[o], route, site, now);
    DeliveredCovered(before, after, o, route, b.clients, a.clients, now);
    ServedRowsKept(before, after, b, a, o, route, site, now);
  }

  lemma ManualKept(orders: seq<Order>, b: Stock, a: Stock, o: nat, site: Site, now: int)
    requires GoodsKept(orders, b) && o < |orders| && Served(b, a, o, orders[o], NeedsManual, site, now)
    ensures GoodsKept(orders, a)
  {
    ServedClients(b, a, o, orders[o], NeedsManual, site, now);
    if a.clients != b.clients {
      var outcome :| ProvisionedFor(b.clients, a.clients, orders[o], now, outcome);
      AttemptKeepsCovered(orders, b.clients, a.clients, orders[o], now, outcome);
    }
  }

  lemma HandoverKept(before: seq<Order>, mid: seq<Order>, after: seq<Order>, b: Stock, a: Stock, o: nat, route: Route,
                     site: Site, now: int)
    requires GoodsKept(before, b) && SameDeliveries(before, mid)
    requires o < |mid| && mid[o].status == Paid && Served(b, a, o, mid[o], route, site, now)
    requires if route.Delivers() then DeliveredAs(mid, after, o, route) else after == mid
    ensures GoodsKept(after, a)
  {
    SameDeliveriesKept(before, mid, b);
    if route.Delivers() {
      DeliveryKept(mid, after, b, a, o, route, site, now);
    } else {
      ManualKept(mid, b, a, o, site, now);
    }
  }

  lemma QuietKept(before: seq<Order>, after: seq<Order>, b: Stock, a: Stock)
    requires GoodsKept(before, b) && SameDeliveries(before, after)
    requires RowsRefreshed(b.accounts, a.accounts) && a == b.(accounts := a.accounts)
    ensures GoodsKept(after, a)
  {
    SameDeliveriesKept(before, after, b);
    RefreshedKept(after, b, a);
  }

  lemma QuietStock(w: State, op: Op, after: Stock, site: Site, now: int)
    requires HandedOver(w.shop, op).None? && StockMoves(w, op, after, site, now)
    ensures RowsRefreshed(w.stock.accounts, after.accounts) && after == w.stock.(accounts := after.accounts)
  {
  }

  lemma RequestKept(w: State, op: Op, w': State, site: Site, now: int)
    requires Kept(w) && PossibleNow(w, op, now) && w'.shop == Apply(w.shop, op)
    requires StockMoves(w, op, w'.stock, site, now)
    ensures GoodsKept(w'.shop.orders, w'.stock)
  {
    if HandedOver(w.shop, op).Some? {
      var h := HandedOver(w.shop, op).value;
      TakenDeliveries(w.shop, op);
      HandoverDelivers(w.shop, op);
      HandoverKept(w.shop.orders, h.t.orders, w'.shop.orders, w.stock, w'.stock, h.o, op.route, site, now);
    } else {
      QuietDeliveries(w.shop, op);
      QuietStock(w, op, w'.stock, site, now);
      QuietKept(w.shop.orders, w'.shop.orders, w.stock, w'.stock);
    }
  }

  lemma NewConfigKept(orders: seq<Order>, s: Stock, c: Config)
    requires GoodsKept(orders, s) && !c.handedOut && c.order.None?
    ensures GoodsKept(orders, s.(configs := s.configs + [c]))
  {
    var configs := s.configs + [c];
    assert forall k, o :: GivenTo(configs, k, o) <==> GivenTo(s.configs, k, o);
  }

  /** Every step keeps the money, the machine and the goods. */
  lemma StepKept(w: State, m: Moment, w': State)
    requires Kept(w) && Step(w, m, w')
    ensures Kept(w') && Evolves(w.shop, w'.shop)
  {
    match m.event
    case NewConfig(plan, text) =>
      NewConfigKept(w.shop.orders, w.stock, Config(plan, Trim(text), m.now, false, None));
      EvolvesReflexive(w.shop);
    case Request(op) =>
      StepHealthy(w.shop, op);
      RequestKept(w, op, w', m.site, m.now);
  }
}
