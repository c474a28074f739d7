/** Runs of money and goods together: what customers bought is on the panel or in their account rows. */
module WorldRuns {
  import opened Results
  import opened Schema
  import opened Operations
  import opened Machine
  import opened Referrals
  import opened Runs
  import opened PanelRecords
  import opened Provisioning
  import opened Delivery
  import opened World

  /** Moment `i` leads from state `i` to the next one. */
  ghost predicate StepAt(ws: seq<State>, ms: seq<Moment>, i: nat) {
    |ws| == |ms| + 1 && i < |ms| && Step(ws[i], ms[i], ws[i + 1])
  }

  ghost predicate Trace(ws: seq<State>, ms: seq<Moment>) {
    |ws| == |ms| + 1 && forall i | 0 <= i < |ms| :: StepAt(ws, ms, i)
  }

  /** A new shop; its panel may hold clients of others already. */
  ghost predicate Opening(w: State) {
    && w.shop == EMPTY && w.stock.accounts == [] && w.stock.configs == []
    && (forall e | e in w.stock.clients :: IntField(w.stock.clients[e].row, TotalGB) >= 0)
  }

  lemma OpeningKept(w: State)
    requires Opening(w)
    ensures Kept(w)
  {
    EmptyHealthy();
  }

  lemma {:induction false} TraceKeeps(ws: seq<State>, ms: seq<Moment>, i: nat)
    requires Trace(ws, ms) && Kept(ws[0]) && i < |ws|
    ensures Kept(ws[i])
    decreases i
  {
    if i > 0 {
      TraceKeeps(ws, ms, i - 1);
      KeptAfter(ws, ms, i - 1);
    }
  }

  lemma KeptAfter(ws: seq<State>, ms: seq<Moment>, i: nat)
    requires StepAt(ws, ms, i) && Kept(ws[i])
    ensures Kept(ws[i + 1])
  {
    StepKept(ws[i], ms[i], ws[i + 1]);
  }

  lemma TraceKept(ws: seq<State>, ms: seq<Moment>, i: nat)
    requires Trace(ws, ms) && Opening(ws[0]) && i < |ws|
    ensures Kept(ws[i])
  {
    OpeningKept(ws[0]);
    TraceKeeps(ws, ms, i);
  }

  /** Nothing sold is lost: whatever calls failed, the client holds every gigabyte the panel delivered. */
  lemma NothingSoldIsLost(ws: seq<State>, ms: seq<Moment>, i: nat, user: int)
    requires Trace(ws, ms) && Opening(ws[0]) && i < |ws| && BoughtOnPanel(ws[i].shop.orders, user)
    ensures ClientEmail(user) in ws[i].stock.clients
    ensures
      var quota := Quota(ws[i].stock.clients, user);
      quota == 0 || quota >= Sold(ws[i].shop.orders, user) * GB
  {
    TraceKept(ws, ms, i);
    assert Covers(Quota(ws[i].stock.clients, user), Sold(ws[i].shop.orders, user));
  }

  // --- exact quotas ---------------------------------------------------------

  /** No panel call failed midway in this step, and an order that the panel took has a positive quota. */
  ghost predicate Undisturbed(w: State, m: Moment, w': State) {
    m.event.Request? && HandedOver(w.shop, m.event.op).Some? ==>
      var h := HandedOver(w.shop, m.event.op).value;
      if m.event.op.route == NewAuto || m.event.op.route == RenewalAuto
      then h.o < |h.t.orders| && h.t.orders[h.o].gigabytes >= 1
      else w'.stock.clients == w.stock.clients
  }

  /** The user's client is there exactly if they bought something, and holds exactly that. */
  predicate ExactFor(orders: seq<Order>, clients: Clients, user: int) {
    && (BoughtOnPanel(orders, user) <==> ClientEmail(user) in clients)
    && (ClientEmail(user) in clients ==> Quota(clients, user) == Sold(orders, user) * GB > 0)
  }

  ghost predicate Exact(orders: seq<Order>, clients: Clients) {
    forall u :: ExactFor(orders, clients, u)
  }

  lemma SameDeliveriesExact(before: seq<Order>, after: seq<Order>, clients: Clients)
    requires Exact(before, clients) && SameDeliveries(before, after)
    ensures Exact(after, clients)
  {
    forall u
      ensures ExactFor(after, clients, u)
    {
      assert ExactFor(before, clients, u);
      SameDeliveriesSold(before, after, u);
      if BoughtOnPanel(before, u) {
        var o :| 0 <= o < |before| && before[o].user == u && OnPanel(before[o]);
        assert after[o].user == u && OnPanel(after[o]);
      }
    }
  }

  /** One successful attempt adds exactly what the order sold. */
  lemma AttemptIsExact(before: Clients, after: Clients, order: Order, now: int, p: Provision, sold: nat)
    requires ProvisionedFor(before, after, order, now, Some(p)) && order.gigabytes >= 1
    requires if ClientEmail(order.user) in before then Quota(before, order.user) == sold * GB > 0 else sold == 0
    ensures ClientEmail(order.user) in after && Quota(after, order.user) == (sold + order.gigabytes) * GB > 0
  {
    AttemptQuota(before, after, order, now, Some(p));
  }

  lemma BuyerExact(before: seq<Order>, after: seq<Order>, o: nat, route: Route, b: Clients, a: Clients, now: int,
        p: Provision)
    requires OrdersDeliverable(before) && o < |before| && ExactFor(before, b, before[o].user)
    requires DeliveredAs(before, after, o, route) && before[o].route.None? && before[o].gigabytes >= 1
    requires OnPanel(after[o]) && ProvisionedFor(b, a, before[o], now, Some(p))
    ensures ExactFor(after, a, before[o].user)
  {
    var u := before[o].user;
    DeliveredSold(before, after, o, route, u);
    SoldIsNatural(before, u);
    if !BoughtOnPanel(before, u) {
      NothingBought(before, u);
    }
    AttemptIsExact(b, a, before[o], now, p, Sold(before, u));
  }

  lemma DeliveredExact(before: seq<Order>, after: seq<Order>, o: nat, route: Route, b: Clients, a: Clients, now: int)
    requires OrdersDeliverable(before) && Exact(before, b)
    requires DeliveredAs(before, after, o, route) && before[o].route.None? && before[o].gigabytes >= 1
    requires OnPanel(after[o]) && ClientsServed(b, a, before[o], route, now)
    ensures Exact(after, a)
  {
    var p :| ProvisionedFor(b, a, before[o], now, Some(p));
    forall u
      ensures ExactFor(after, a, u)
    {
      assert ExactFor(before, b, u);
      if u == before[o].user {
        BuyerExact(before, after, o, route, b, a, now, p);
      } else {
        DeliveredSold(before, after, o, route, u);
        AttemptKeepsOthers(b, a, before[o], now, Some(p), u);
      }
    }
  }

  lemma OffPanelExact(before: seq<Order>, after: seq<Order>, o: nat, route: Route, clients: Clients)
    requires Exact(before, clients) && DeliveredAs(before, after, o, route)
    requires before[o].route.None? && !OnPanel(after[o])
    ensures Exact(after, clients)
  {
    forall u
      ensures ExactFor(after, clients, u)
    {
      assert ExactFor(before, clients, u);
      DeliveredSold(before, after, o, route, u);
    }
  }

  lemma HandoverExact(before: seq<Order>, mid: seq<Order>, after: seq<Order>, b: Stock, a: Stock, o: nat, route: Route,
                      site: Site, now: int)
    requires GoodsKept(before, b) && Exact(before, b.clients) && SameDeliveries(before, mid)
    requires o < |mid| && mid[o].status == Paid && Served(b, a, o, mid[o], route, site, now)
    requires if route.Delivers() then DeliveredAs(mid, after, o, route) else after == mid
    requires if route == NewAuto || route == RenewalAuto then mid[o].gigabytes >= 1 else a.clients == b.clients
    ensures Exact(after, a.clients)
  {
    SameDeliveriesKept(before, mid, b);
    SameDeliveriesExact(before, mid, b.clients);
    ServedClients(b, a, o, mid[o], route, site, now);
    if route == NewAuto || route == RenewalAuto {
      DeliveredExact(mid, after, o, route, b.clients, a.clients, now);
    } else if route.Delivers() {
      OffPanelExact(mid, after, o, route, b.clients);
    }
  }

  lemma HandingStepExact(w: State, m: Moment, w': State)
    requires Sound(w.shop) && Forest(w.shop) && GoodsKept(w.shop.orders, w.stock)
    requires Step(w, m, w') && Undisturbed(w, m, w') && Exact(w.shop.orders, w.stock.clients)
    requires m.event.Request? && HandedOver(w.shop, m.event.op).Some?
    ensures Exact(w'.shop.orders, w'.stock.clients)
  {
    var op := m.event.op;
    var h := HandedOver(w.shop, op).value;
    TakenDeliveries(w.shop, op);
    HandoverDelivers(w.shop, op);
    HandoverExact(w.shop.orders, h.t.orders, w'.shop.orders, w.stock, w'.stock, h.o, op.route, m.site, m.now);
  }

  lemma QuietStepExact(w: State, m: Moment, w': State)
    requires Sound(w.shop) && OrdersDeliverable(w.shop.orders) && Exact(w.shop.orders, w.stock.clients)
    requires Step(w, m, w') && m.event.Request? && HandedOver(w.shop, m.event.op).None?
    ensures Exact(w'.shop.orders, w'.stock.clients)
  {
    QuietDeliveries(w.shop, m.event.op);
    QuietStock(w, m.event.op, w'.stock, m.site, m.now);
    SameDeliveriesExact(w.shop.orders, w'.shop.orders, w.stock.clients);
  }

  lemma StepExact(w: State, m: Moment, w': State)
    requires Sound(w.shop) && Forest(w.shop) && GoodsKept(w.shop.orders, w.stock)
    requires Step(w, m, w') && Undisturbed(w, m, w') && Exact(w.shop.orders, w.stock.clients)
    ensures Exact(w'.shop.orders, w'.stock.clients)
  {
    if m.event.Request? {
      if HandedOver(w.shop, m.event.op).Some? {
        HandingStepExact(w, m, w');
      } else {
        QuietStepExact(w, m, w');
      }
    }
  }

  ghost predicate UndisturbedAt(ws: seq<State>, ms: seq<Moment>, i: nat) {
    |ws| == |ms| + 1 && i < |ms| && Undisturbed(ws[i], ms[i], ws[i + 1])
  }

  ghost predicate NeverDisturbed(ws: seq<State>, ms: seq<Moment>) {
    |ws| == |ms| + 1 && forall i | 0 <= i < |ms| :: UndisturbedAt(ws, ms, i)
  }

  lemma ExactAfter(ws: seq<State>, ms: seq<Moment>, i: nat)
    requires Trace(ws, ms) && Opening(ws[0]) && i < |ms| && UndisturbedAt(ws, ms, i)
    requires Exact(ws[i].shop.orders, ws[i].stock.clients)
    ensures Exact(ws[i + 1].shop.orders, ws[i + 1].stock.clients)
  {
    TraceKept(ws, ms, i);
    assert StepAt(ws, ms, i);
    StepExact(ws[i], ms[i], ws[i + 1]);
  }

  lemma OpeningExact(w: State)
    requires Opening(w) && forall u :: ClientEmail(u) !in w.stock.clients
    ensures Exact(w.shop.orders, w.stock.clients)
  {
  }

  /** When no panel call fails midway, the quota is the sum of what was sold, to the byte. */
  lemma {:induction false} QuotaIsSumSold(ws: seq<State>, ms: seq<Moment>, i: nat)
    requires Trace(ws, ms) && Opening(ws[0]) && i < |ws|
    requires forall u :: ClientEmail(u) !in ws[0].stock.clients
    requires NeverDisturbed(ws, ms)
    ensures Exact(ws[i].shop.orders, ws[i].stock.clients)
    decreases i
  {
    if i == 0 {
      OpeningExact(ws[0]);
    } else {
      QuotaIsSumSold(ws, ms, i - 1);
      assert UndisturbedAt(ws, ms, i - 1);
      ExactAfter(ws, ms, i - 1);
    }
  }

  // --- account rows ---------------------------------------------------------

  lemma RenewedRowMirrors(before: seq<Account>, after: seq<Account>, user: int, k: nat, p: Provision, now: int)
    requires IsAutoRow(before, user, k) && OneAutoRow(before) && |after| == |before|
    requires forall i | 0 <= i < |before| && i != k :: after[i] == before[i]
    requires after[k].user == user && after[k].ref == Auto && after[k].active
    requires p.totalBytes > 0 ==> after[k].gigabytes == p.totalBytes / GB
    ensures MirrorsPanel(after, user, p.totalBytes)
  {
    assert IsAutoRow(after, user, k);
    forall i | IsAutoRow(after, user, i)
      ensures i == k
    {
      assert i != k ==> IsAutoRow(before, user, i);
    }
    assert OnlyActiveRow(after, user, k);
  }

  predicate RenewsAutoRow(accounts: seq<Account>, order: Order) {
    KnownRenewal(accounts, order) && accounts[order.renews.value].ref == Auto
  }

  lemma ServedMirrors(b: Stock, a: Stock, o: nat, order: Order, route: Route, site: Site, now: int)
    requires OneAutoRow(b.accounts) && Served(b, a, o, order, route, site, now)
    requires route == NewAuto || (route == RenewalAuto && RenewsAutoRow(b.accounts, order))
    ensures ClientEmail(order.user) in a.clients
    ensures MirrorsPanel(a.accounts, order.user, Quota(a.clients, order.user))
  {
    if route == NewAuto {
      var p :| ServedAuto(b, a, o, order, site, now, p);
      assert p.totalBytes == Quota(a.clients, order.user);
      UpsertMirrorsPanel(b.accounts, a.accounts, o, order, SubscriptionUrl(site, p.subId), p, now);
    } else {
      var p :| RenewedAuto(b, a, order, site, now, p);
      assert p.totalBytes == Quota(a.clients, order.user);
      RenewedRowMirrors(b.accounts, a.accounts, order.user, order.renews.value, p, now);
    }
  }

  /** The order that this moment hands to delivery goes to the panel, on the user's one panel-backed row. */
  ghost predicate DeliversOnAutoRow(w: State, m: Moment, user: int) {
    && m.event.Request? && HandedOver(w.shop, m.event.op).Some?
    && var h := HandedOver(w.shop, m.event.op).value;
       && h.o < |h.t.orders| && h.t.orders[h.o].user == user
       && (|| m.event.op.route == NewAuto
           || (m.event.op.route == RenewalAuto && RenewsAutoRow(w.stock.accounts, h.t.orders[h.o])))
  }

  lemma StepMirrors(w: State, m: Moment, w': State, user: int)
    requires Sound(w.shop) && Forest(w.shop) && OneAutoRow(w.stock.accounts)
    requires Step(w, m, w') && DeliversOnAutoRow(w, m, user)
    ensures ClientEmail(user) in w'.stock.clients && MirrorsPanel(w'.stock.accounts, user, Quota(w'.stock.clients, user))
    ensures BoughtOnPanel(w'.shop.orders, user)
  {
    var op := m.event.op;
    var h := HandedOver(w.shop, op).value;
    ServedMirrors(w.stock, w'.stock, h.o, h.t.orders[h.o], op.route, m.site, m.now);
    HandoverDelivers(w.shop, op);
    assert OnPanel(w'.shop.orders[h.o]) && w'.shop.orders[h.o].user == user;
  }

  lemma MirrorsAt(ws: seq<State>, ms: seq<Moment>, i: nat, user: int)
    requires Trace(ws, ms) && Opening(ws[0]) && i < |ms| && DeliversOnAutoRow(ws[i], ms[i], user)
    ensures ClientEmail(user) in ws[i + 1].stock.clients && BoughtOnPanel(ws[i + 1].shop.orders, user)
    ensures MirrorsPanel(ws[i + 1].stock.accounts, user, Quota(ws[i + 1].stock.clients, user))
  {
    TraceKept(ws, ms, i);
    assert StepAt(ws, ms, i);
    StepMirrors(ws[i], ms[i], ws[i + 1], user);
  }

  /**
   After each delivery through the panel, whatever calls failed before, the user has exactly
   one active panel-backed row. It shows the panel's quota, which covers all that was sold.
   */
  lemma RowMirrorsPanel(ws: seq<State>, ms: seq<Moment>, i: nat, user: int)
    requires Trace(ws, ms) && Opening(ws[0]) && i < |ms| && DeliversOnAutoRow(ws[i], ms[i], user)
    ensures ClientEmail(user) in ws[i + 1].stock.clients
    ensures
      var quota := Quota(ws[i + 1].stock.clients, user);
      && MirrorsPanel(ws[i + 1].stock.accounts, user, quota)
      && (quota == 0 || quota >= Sold(ws[i + 1].shop.orders, user) * GB)
  {
    MirrorsAt(ws, ms, i, user);
    NothingSoldIsLost(ws, ms, i + 1, user);
  }

  /** When no panel call failed midway, that row shows the sum of all gigabytes sold. */
  lemma RowShowsAllSold(ws: seq<State>, ms: seq<Moment>, i: nat, user: int)
    requires Trace(ws, ms) && Opening(ws[0]) && i < |ms| && DeliversOnAutoRow(ws[i], ms[i], user)
    requires forall u :: ClientEmail(u) !in ws[0].stock.clients
    requires NeverDisturbed(ws, ms)
    ensures
      var accounts, sold := ws[i + 1].stock.accounts, Sold(ws[i + 1].shop.orders, user);
      exists k :: OnlyActiveRow(accounts, user, k) && accounts[k].gigabytes == sold
  {
    RowMirrorsPanel(ws, ms, i, user);
    QuotaIsSumSold(ws, ms, i + 1);
    assert ExactFor(ws[i + 1].shop.orders, ws[i + 1].stock.clients, user);
  }

  // --- inventory ------------------------------------------------------------

  /** Configs and the orders served from the stock correspond one to one, and each pair has its account row. */
  lemma InventoryBijection(ws: seq<State>, ms: seq<Moment>, i: nat)
    requires Trace(ws, ms) && Opening(ws[0]) && i < |ws|
    ensures
      var orders, configs := ws[i].shop.orders, ws[i].stock.configs;
      && (forall j, k, o | GivenTo(configs, j, o) && GivenTo(configs, k, o) :: j == k)
      && (forall o: nat :: (exists k :: GivenTo(configs, k, o)) <==> o < |orders| && orders[o].route == Some(NewInventory))
    ensures forall k, o: nat | GivenTo(ws[i].stock.configs, k, o) ::
      && o < |ws[i].shop.orders| && ws[i].shop.orders[o].plan == Some(ws[i].stock.configs[k].plan)
      && exists row :: HoldsConfig(ws[i].stock.accounts, row, k, o)
  {
    TraceKept(ws, ms, i);
    var w := ws[i];
    forall k, o: nat | GivenTo(w.stock.configs, k, o)
      ensures o < |w.shop.orders| && w.shop.orders[o].route == Some(NewInventory)
    {
      var row :| HoldsConfig(w.stock.accounts, row, k, o);
      assert RowFits(w.shop.orders, w.stock.accounts[row]);
    }
    forall j, k, o | GivenTo(w.stock.configs, j, o) && GivenTo(w.stock.configs, k, o)
      ensures j == k
    {
      var r :| HoldsConfig(w.stock.accounts, r, j, o);
      var s :| HoldsConfig(w.stock.accounts, s, k, o);
    }
  }

  /** A delivery from the stock takes an oldest free config of the plan, and nothing else from any plan. */
  lemma StockTakesOldest(w: State, m: Moment, w': State, plan: string)
    requires Step(w, m, w') && m.event.Request? && HandedOver(w.shop, m.event.op).Some?
    requires m.event.op.route == NewInventory
    ensures
      var h := HandedOver(w.shop, m.event.op).value;
      && h.o < |h.t.orders| && h.t.orders[h.o].plan.Some?
      && (exists k: nat :: IsOldestFree(w.stock.configs, h.t.orders[h.o].plan.value, k) && GivenTo(w'.stock.configs, k, h.o))
      && Available(w'.stock.configs, plan) ==
           Available(w.stock.configs, plan) - if h.t.orders[h.o].plan == Some(plan) then 1 else 0
  {
    var h := HandedOver(w.shop, m.event.op).value;
    var order := h.t.orders[h.o];
    var k: nat :| ServedFromStock(w.stock, w'.stock, h.o, order, m.site, m.now, k);
    AssignTakesOne(w.stock.configs, order.plan.value, k, h.o, plan);
    assert GivenTo(w'.stock.configs, k, h.o);
  }

  lemma ServedKeepsGiven(b: Stock, a: Stock, o: nat, order: Order, route: Route, site: Site, now: int, k: int, q: nat)
    requires Served(b, a, o, order, route, site, now) && GivenTo(b.configs, k, q) && b.configs[k].handedOut
    ensures GivenTo(a.configs, k, q)
  {
    match route
    case NewAuto => var p :| ServedAuto(b, a, o, order, site, now, p);
    case NewInventory => var j: nat :| ServedFromStock(b, a, o, order, site, now, j);
    case RenewalAuto => var p :| RenewedAuto(b, a, order, site, now, p);
    case RenewalDb =>
    case NeedsManual =>
  }

  lemma GivenIsHandedOut(ws: seq<State>, ms: seq<Moment>, i: nat, k: int, o: nat)
    requires Trace(ws, ms) && Opening(ws[0]) && i < |ws| && GivenTo(ws[i].stock.configs, k, o)
    ensures ws[i].stock.configs[k].handedOut
  {
    TraceKept(ws, ms, i);
  }

  lemma StepKeepsGiven(w: State, m: Moment, w': State, k: int, o: nat)
    requires Step(w, m, w') && GivenTo(w.stock.configs, k, o) && w.stock.configs[k].handedOut
    ensures GivenTo(w'.stock.configs, k, o)
  {
    if m.event.Request? {
      var op := m.event.op;
      if HandedOver(w.shop, op).Some? {
        var h := HandedOver(w.shop, op).value;
        ServedKeepsGiven(w.stock, w'.stock, h.o, h.t.orders[h.o], op.route, m.site, m.now, k, o);
      } else {
        QuietStock(w, op, w'.stock, m.site, m.now);
      }
    }
  }

  /** Once handed out, a config stays with its order for the rest of the run. */
  lemma {:induction false} GivenForLife(ws: seq<State>, ms: seq<Moment>, i: nat, j: nat, k: int, o: nat)
    requires Trace(ws, ms) && Opening(ws[0]) && i <= j < |ws| && GivenTo(ws[i].stock.configs, k, o)
    ensures GivenTo(ws[j].stock.configs, k, o)
    decreases j
  {
    if i < j {
      GivenForLife(ws, ms, i, j - 1, k, o);
      GivenIsHandedOut(ws, ms, j - 1, k, o);
      assert StepAt(ws, ms, j - 1);
      StepKeepsGiven(ws[j - 1], ms[j - 1], ws[j], k, o);
    }
  }
}
