/** Days over whole runs: when no panel call fails midway, a client expires after all the days that were sold. */
module Expiries {
  import opened Results
  import opened Sums
  import opened Schema
  import opened Handlers
  import opened Operations
  import opened Machine
  import opened Referrals
  import opened Runs
  import opened OrderMoves
  import opened PanelRecords
  import opened Provisioning
  import opened Delivery
  import opened World
  import opened WorldRuns
  import opened DeliveredGoods

  function DaysTo(user: int): Order -> int {
    (order: Order) => if order.user == user && OnPanel(order) then order.days else 0
  }

  /** The days of the user's orders that were delivered through the panel. */
  function SoldDays(orders: seq<Order>, user: int): int {
    Sum(orders, DaysTo(user))
  }

  function Expiry(clients: Clients, user: int): int
    requires ClientEmail(user) in clients
  {
    IntField(clients[ClientEmail(user)].row, ExpiryTime)
  }

  // --- one step -------------------------------------------------------------

  lemma {:induction false} SameDeliveriesDays(before: seq<Order>, after: seq<Order>, user: int)
    requires SameDeliveries(before, after)
    ensures SoldDays(after, user) == SoldDays(before, user)
    decreases |after|
  {
    if |after| > |before| {
      SameDeliveriesDays(before, after[..|after| - 1], user);
    } else {
      SumSame(before, after, DaysTo(user));
    }
  }

  lemma SameDeliveriesBought(before: seq<Order>, after: seq<Order>, user: int)
    requires SameDeliveries(before, after)
    ensures BoughtOnPanel(after, user) <==> BoughtOnPanel(before, user)
  {
    if BoughtOnPanel(before, user) {
      var o :| 0 <= o < |before| && before[o].user == user && OnPanel(before[o]);
      assert after[o].user == user && OnPanel(after[o]);
    }
  }

  lemma DeliveredDays(before: seq<Order>, after: seq<Order>, o: nat, route: Route, user: int)
    requires DeliveredAs(before, after, o, route) && before[o].route.None?
    ensures SoldDays(after, user) ==
      SoldDays(before, user) + if user == before[o].user && OnPanel(after[o]) then before[o].days else 0
  {
    assert after == before[o := after[o]];
    SumUpdate(before, o, after[o], DaysTo(user));
  }

  lemma NoDaysBought(orders: seq<Order>, user: int)
    requires !BoughtOnPanel(orders, user)
    ensures SoldDays(orders, user) == 0
  {
    SumZero(orders, DaysTo(user));
  }

  /**
   A step's effect on one customer: the expiry grows by what it sold, and starts with the moment of
   the first sale.
   */
  predicate ExpiryMoves(before: seq<Order>, after: seq<Order>, b: Clients, a: Clients, user: int, now: int) {
    && (BoughtOnPanel(before, user) ==> BoughtOnPanel(after, user))
    && (BoughtOnPanel(after, user) && ClientEmail(user) in a ==>
          if BoughtOnPanel(before, user)
          then
            ClientEmail(user) in b && Expiry(b, user) > 0 ==>
              (SoldDays(after, user) >= SoldDays(before, user)
               && Expiry(a, user) == Expiry(b, user) + (SoldDays(after, user) - SoldDays(before, user)) * 86400000)
          else Expiry(a, user) == now + SoldDays(after, user) * 86400000)
  }

  lemma NothingMoves(before: seq<Order>, after: seq<Order>, clients: Clients, user: int, now: int)
    requires SameDeliveries(before, after)
    ensures ExpiryMoves(before, after, clients, clients, user, now)
  {
    SameDeliveriesDays(before, after, user);
    SameDeliveriesBought(before, after, user);
  }

  lemma OffPanelMoves(before: seq<Order>, after: seq<Order>, o: nat, route: Route, b: Clients, a: Clients, user: int,
                      now: int)
    requires DeliveredAs(before, after, o, route) && before[o].route.None?
    requires user != before[o].user || !OnPanel(after[o])
    requires ClientEmail(user) in a ==> ClientEmail(user) in b && a[ClientEmail(user)] == b[ClientEmail(user)]
    ensures ExpiryMoves(before, after, b, a, user, now)
  {
    DeliveredDays(before, after, o, route, user);
    DeliveredSold(before, after, o, route, user);
  }

  lemma BuyerMoves(before: seq<Order>, after: seq<Order>, o: nat, route: Route, b: Clients, a: Clients, now: int)
    requires DeliveredAs(before, after, o, route) && before[o].route.None? && OnPanel(after[o]) && before[o].days >= 0
    requires ExactFor(before, b, before[o].user) && PanelHolds(b, a, before[o], now)
    ensures ExpiryMoves(before, after, b, a, before[o].user, now)
  {
    var user := before[o].user;
    DeliveredDays(before, after, o, route, user);
    DeliveredSold(before, after, o, route, user);
    if !BoughtOnPanel(before, user) {
      NoDaysBought(before, user);
    }
  }

  lemma OthersMove(before: seq<Order>, after: seq<Order>, o: nat, route: Route, b: Clients, a: Clients, user: int,
                   now: int)
    requires DeliveredAs(before, after, o, route) && before[o].route.None? && user != before[o].user
    requires PanelHolds(b, a, before[o], now)
    ensures ExpiryMoves(before, after, b, a, user, now)
  {
    if ClientEmail(user) == ClientEmail(before[o].user) {
      ClientEmailInjective(user, before[o].user);
    }
    OffPanelMoves(before, after, o, route, b, a, user, now);
  }

  lemma DeliveryMoves(mid: seq<Order>, after: seq<Order>, o: nat, route: Route, b: Clients, a: Clients, user: int,
                      now: int)
    requires Exact(mid, b) && o < |mid| && mid[o].route.None? && mid[o].days >= 0
    requires if route.Delivers() then DeliveredAs(mid, after, o, route) else after == mid
    requires if route == NewAuto || route == RenewalAuto then PanelHolds(b, a, mid[o], now) else a == b
    ensures ExpiryMoves(mid, after, b, a, user, now)
  {
    if route == NewAuto || route == RenewalAuto {
      if user == mid[o].user {
        assert ExactFor(mid, b, user);
        BuyerMoves(mid, after, o, route, b, a, now);
      } else {
        OthersMove(mid, after, o, route, b, a, user, now);
      }
    } else if route.Delivers() {
      OffPanelMoves(mid, after, o, route, b, a, user, now);
    }
  }

  lemma MovesFrom(before: seq<Order>, mid: seq<Order>, after: seq<Order>, b: Clients, a: Clients, user: int, now: int)
    requires SameDeliveries(before, mid) && ExpiryMoves(mid, after, b, a, user, now)
    ensures ExpiryMoves(before, after, b, a, user, now)
  {
    SameDeliveriesDays(before, mid, user);
    SameDeliveriesBought(before, mid, user);
  }

  /** What is known of an order when it goes to delivery. */
  lemma HandedOverOrder(w: State, op: Op)
    requires Kept(w) && HandedOver(w.shop, op).Some?
    ensures
      var h := HandedOver(w.shop, op).value;
      && h.o < |h.t.orders| && SameDeliveries(w.shop.orders, h.t.orders)
      && h.t.orders[h.o].route.None? && h.t.orders[h.o].days >= 0
      && if op.route.Delivers() then DeliveredAs(h.t.orders, Apply(w.shop, op).orders, h.o, op.route)
         else Apply(w.shop, op) == h.t
  {
    var h := HandedOver(w.shop, op).value;
    TakenDeliveries(w.shop, op);
    HandoverDelivers(w.shop, op);
    SameDeliveriesKept(w.shop.orders, h.t.orders, w.stock);
  }

  lemma HandingStepMoves(w: State, m: Moment, w': State, user: int)
    requires Kept(w) && Step(w, m, w') && Undisturbed(w, m, w') && Exact(w.shop.orders, w.stock.clients)
    requires m.event.Request? && HandedOver(w.shop, m.event.op).Some?
    ensures ExpiryMoves(w.shop.orders, w'.shop.orders, w.stock.clients, w'.stock.clients, user, m.now)
  {
    var op := m.event.op;
    var h := HandedOver(w.shop, op).value;
    HandedOverOrder(w, op);
    SameDeliveriesExact(w.shop.orders, h.t.orders, w.stock.clients);
    if op.route == NewAuto || op.route == RenewalAuto {
      PanelGetsOrder(w, m, w', h.o, h.t.orders[h.o], op.route);
    }
    DeliveryMoves(h.t.orders, w'.shop.orders, h.o, op.route, w.stock.clients, w'.stock.clients, user, m.now);
    MovesFrom(w.shop.orders, h.t.orders, w'.shop.orders, w.stock.clients, w'.stock.clients, user, m.now);
  }

  lemma QuietStepMoves(w: State, m: Moment, w': State, user: int)
    requires Kept(w) && Step(w, m, w') && m.event.Request? && HandedOver(w.shop, m.event.op).None?
    ensures ExpiryMoves(w.shop.orders, w'.shop.orders, w.stock.clients, w'.stock.clients, user, m.now)
  {
    QuietDeliveries(w.shop, m.event.op);
    QuietStock(w, m.event.op, w'.stock, m.site, m.now);
    NothingMoves(w.shop.orders, w'.shop.orders, w.stock.clients, user, m.now);
  }

  lemma StepMoves(w: State, m: Moment, w': State, user: int)
    requires Kept(w) && Step(w, m, w') && Undisturbed(w, m, w') && Exact(w.shop.orders, w.stock.clients)
    ensures ExpiryMoves(w.shop.orders, w'.shop.orders, w.stock.clients, w'.stock.clients, user, m.now)
  {
    if m.event.Request? {
      if HandedOver(w.shop, m.event.op).Some? {
        HandingStepMoves(w, m, w', user);
      } else {
        QuietStepMoves(w, m, w', user);
      }
    }
  }

  // --- whole runs -----------------------------------------------------------

  ghost predicate MovesAt(ws: seq<State>, ms: seq<Moment>, i: nat, user: int) {
    |ws| == |ms| + 1 && i < |ms|
    && ExpiryMoves(ws[i].shop.orders, ws[i + 1].shop.orders, ws[i].stock.clients, ws[i + 1].stock.clients, user, ms[i].now)
  }

  lemma MovesAlong(ws: seq<State>, ms: seq<Moment>, i: nat, user: int)
    requires Trace(ws, ms) && Opening(ws[0]) && NeverDisturbed(ws, ms) && i < |ms|
    requires forall u :: ClientEmail(u) !in ws[0].stock.clients
    ensures MovesAt(ws, ms, i, user)
  {
    TraceKept(ws, ms, i);
    QuotaIsSumSold(ws, ms, i);
    assert StepAt(ws, ms, i) && UndisturbedAt(ws, ms, i);
    StepMoves(ws[i], ms[i], ws[i + 1], user);
  }

  lemma ClientsAlong(ws: seq<State>, ms: seq<Moment>, i: nat, user: int)
    requires Trace(ws, ms) && Opening(ws[0]) && NeverDisturbed(ws, ms) && i < |ws|
    requires forall u :: ClientEmail(u) !in ws[0].stock.clients
    ensures OrdersDeliverable(ws[i].shop.orders)
    ensures BoughtOnPanel(ws[i].shop.orders, user) <==> ClientEmail(user) in ws[i].stock.clients
  {
    TraceKept(ws, ms, i);
    QuotaIsSumSold(ws, ms, i);
    assert ExactFor(ws[i].shop.orders, ws[i].stock.clients, user);
  }

  /** Moment `j` is the first in which the panel delivers something to this customer. */
  ghost predicate FirstDelivery(ws: seq<State>, ms: seq<Moment>, j: nat, user: int) {
    |ws| == |ms| + 1 && j < |ms|
    && !BoughtOnPanel(ws[j].shop.orders, user) && BoughtOnPanel(ws[j + 1].shop.orders, user)
  }

  /** The client is there and runs for all the days sold, counted from the moment `start`. */
  predicate RunsFrom(orders: seq<Order>, clients: Clients, user: int, start: int) {
    && ClientEmail(user) in clients
    && Expiry(clients, user) == start + SoldDays(orders, user) * 86400000 > 0
  }

  lemma MovesOn(ws: seq<State>, ms: seq<Moment>, i: nat, user: int, start: int)
    requires MovesAt(ws, ms, i, user) && BoughtOnPanel(ws[i].shop.orders, user)
    requires RunsFrom(ws[i].shop.orders, ws[i].stock.clients, user, start)
    requires BoughtOnPanel(ws[i + 1].shop.orders, user) ==> ClientEmail(user) in ws[i + 1].stock.clients
    ensures BoughtOnPanel(ws[i + 1].shop.orders, user)
    ensures RunsFrom(ws[i + 1].shop.orders, ws[i + 1].stock.clients, user, start)
  {
  }

  lemma StartsAt(ws: seq<State>, ms: seq<Moment>, j: nat, user: int)
    requires MovesAt(ws, ms, j, user) && FirstDelivery(ws, ms, j, user) && ms[j].now > 0
    requires OrdersDeliverable(ws[j + 1].shop.orders) && ClientEmail(user) in ws[j + 1].stock.clients
    ensures RunsFrom(ws[j + 1].shop.orders, ws[j + 1].stock.clients, user, ms[j].now)
  {
    SumNonNegative(ws[j + 1].shop.orders, DaysTo(user));
  }

  /**
   When no panel call fails midway, each client expires exactly the sum of all days sold to its
   customer after the moment of the first delivery.
   */
  lemma {:induction false} ExpiryIsSumSold(ws: seq<State>, ms: seq<Moment>, j: nat, i: nat, user: int)
    requires Trace(ws, ms) && Opening(ws[0]) && NeverDisturbed(ws, ms)
    requires forall u :: ClientEmail(u) !in ws[0].stock.clients
    requires FirstDelivery(ws, ms, j, user) && j < i < |ws| && ms[j].now > 0
    ensures BoughtOnPanel(ws[i].shop.orders, user)
    ensures RunsFrom(ws[i].shop.orders, ws[i].stock.clients, user, ms[j].now)
    decreases i
  {
    MovesAlong(ws, ms, i - 1, user);
    ClientsAlong(ws, ms, i, user);
    if i > j + 1 {
      ExpiryIsSumSold(ws, ms, j, i - 1, user);
      MovesOn(ws, ms, i - 1, user, ms[j].now);
    } else {
      StartsAt(ws, ms, j, user);
    }
  }

  /** Whoever bought through the panel has a moment of first delivery. */
  lemma {:induction false} FirstDeliveryExists(ws: seq<State>, ms: seq<Moment>, i: nat, user: int) returns (j: nat)
    requires Trace(ws, ms) && Opening(ws[0]) && i < |ws| && BoughtOnPanel(ws[i].shop.orders, user)
    ensures j < i && FirstDelivery(ws, ms, j, user)
    decreases i
  {
    if BoughtOnPanel(ws[i - 1].shop.orders, user) {
      j := FirstDeliveryExists(ws, ms, i - 1, user);
    } else {
      j := i - 1;
    }
  }

  lemma PurchaseRowShowsExpiry(b: Stock, a: Stock, o: nat, order: Order, site: Site, now: int)
    requires RowShowsClient(b, a, o, order, site, now) && Expiry(a.clients, order.user) > 0
    ensures exists k ::
      OnlyActiveRow(a.accounts, order.user, k) && a.accounts[k].expires == Expiry(a.clients, order.user)
  {
  }

  lemma PurchaseRowAt(ws: seq<State>, ms: seq<Moment>, i: nat, o: nat, order: Order)
    requires Trace(ws, ms) && Opening(ws[0]) && i < |ms| && HandsOut(ws[i], ms[i], o, order, NewAuto)
    ensures RowShowsClient(ws[i].stock, ws[i + 1].stock, o, order, ms[i].site, ms[i].now)
  {
    TraceKept(ws, ms, i);
    assert StepAt(ws, ms, i);
    RowGetsOrder(ws[i], ms[i], ws[i + 1], o, order);
  }

  /** After each new purchase of such a run the customer's one active row shows that expiry. */
  lemma RowShowsExpiry(ws: seq<State>, ms: seq<Moment>, j: nat, i: nat, user: int, o: nat, order: Order)
    requires Trace(ws, ms) && Opening(ws[0]) && NeverDisturbed(ws, ms)
    requires forall u :: ClientEmail(u) !in ws[0].stock.clients
    requires FirstDelivery(ws, ms, j, user) && j <= i < |ms| && ms[j].now > 0
    requires HandsOut(ws[i], ms[i], o, order, NewAuto) && order.user == user
    ensures
      var accounts := ws[i + 1].stock.accounts;
      exists k ::
        && OnlyActiveRow(accounts, user, k)
        && accounts[k].expires == ms[j].now + SoldDays(ws[i + 1].shop.orders, user) * 86400000
  {
    ExpiryIsSumSold(ws, ms, j, i + 1, user);
    PurchaseRowAt(ws, ms, i, o, order);
    PurchaseRowShowsExpiry(ws[i].stock, ws[i + 1].stock, o, order, ms[i].site, ms[i].now);
  }
}
