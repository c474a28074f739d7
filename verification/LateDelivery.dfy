/**
 Deliveries that come late: fulfil_paid_order does not look at the statuses again, so the
 order may have been rejected or delivered since its payment was taken in.
 */
module LateDelivery {
  import opened Results
  import opened Sums
  import opened Schema
  import opened Handlers
  import opened Operations
  import opened Machine
  import opened Referrals
  import opened Runs
  import opened Provisioning
  import opened Delivery
  import opened World
  import opened WorldRuns

  // --- after a rejection ----------------------------------------------------

  lemma LateSettlement(t: Tables, t': Tables, o: nat, p: nat, route: Route)
    requires Settles(t, t', o, p, route) && t.orders[o].status == Rejected && t.orders[o].user in t.users
    ensures t'.orders[o].status == Completed && t'.orders[o].debit == t.orders[o].debit
    ensures t'.payments[p].status == Approved
    ensures t.orders[o].user in t'.users && t'.users[t.orders[o].user].balance >= t.users[t.orders[o].user].balance
    ensures !Evolves(t, t')
  {
    assert !OrderLater(t.orders[o], t'.orders[o]);
  }

  lemma LateCompletion(t: Tables, o: nat, p: nat, route: Route)
    requires Forest(t) && o < |t.orders| && p in t.payments && route.Delivers()
    requires t.orders[o].status == Rejected && t.orders[o].user in t.users
    ensures
      var t' := Deliver(Handover(t, o, p), route);
      && o < |t'.orders| && p in t'.payments && t.orders[o].user in t'.users
      && t'.orders[o].status == Completed && t'.orders[o].debit == t.orders[o].debit
      && t'.payments[p].status == Approved
      && t'.users[t.orders[o].user].balance >= t.users[t.orders[o].user].balance
      && !Evolves(t, t')
  {
    CompletionSucceeds(t, o, p, route);
    CompleteShape(t, o, p, route);
    LateSettlement(t, Complete(t, o, p, route).value, o, p, route);
  }

  lemma RejectionKeepsForest(t: Tables, p: nat)
    requires Sound(t) && Forest(t) && Handlers.RejectPayment(t, p).Success?
    ensures Forest(Handlers.RejectPayment(t, p).value)
  {
    RejectionRefunds(t, p);
    ForestStays(t, Handlers.RejectPayment(t, p).value);
  }

  /** The money of order `o` went back to the customer, who still has the completed order and an approved payment. */
  predicate RefundedYetCompleted(t: Tables, t': Tables, o: nat, p: nat) {
    && o < |t.orders| && o < |t'.orders| && p in t'.payments
    && t.orders[o].user in t.users && t.orders[o].user in t'.users
    && t'.users[t.orders[o].user].balance >= t.users[t.orders[o].user].balance + t.orders[o].debit
    && t'.orders[o].status == Completed && t'.orders[o].debit == 0 && t'.payments[p].status == Approved
  }

  /**
   An admin rejects the payment while its delivery is on the way: the money goes back, and
   the delivery still completes the order and approves the refused payment.
   */
  lemma LateDeliveryAfterRejection(t: Tables, o: nat, p: nat, route: Route)
    requires Sound(t) && Forest(t) && o < |t.orders| && route.Delivers()
    requires p in t.payments && t.payments[p].order == o && t.payments[p].status == Unreviewed
    requires Handlers.RejectPayment(t, p).Success?
    ensures
      var t1 := Handlers.RejectPayment(t, p).value;
      var t2 := Deliver(Handover(t1, o, p), route);
      RefundedYetCompleted(t, t2, o, p) && !Evolves(t1, t2)
  {
    RejectionRefunds(t, p);
    RejectionKeepsForest(t, p);
    LateCompletion(Handlers.RejectPayment(t, p).value, o, p, route);
  }

  lemma RejectionRefunds(t: Tables, p: nat)
    requires Sound(t) && Handlers.RejectPayment(t, p).Success?
    ensures
      var t', o := Handlers.RejectPayment(t, p).value, t.payments[p].order;
      && o < |t.orders| && t'.orders[o].status == Rejected && t'.orders[o].debit == 0
      && t'.users.Keys == t.users.Keys && t.orders[o].user in t.users
      && (forall u | u in t.users :: SamePerson(t.users[u], t'.users[u]))
      && t'.users[t.orders[o].user].balance == t.users[t.orders[o].user].balance + t.orders[o].debit
  {
    assert DebitFits(t.orders[t.payments[p].order]);
  }

  /** A run that leaves a wallet payment of 500 in the hands of its delivery. */
  lemma WalletPaymentOnItsWay() returns (ops: seq<Op>)
    ensures AllPossible(EMPTY, ops)
    ensures
      var t := Run(EMPTY, ops);
      && |t.orders| == 1 && t.orders[0].debit == 500
      && 0 in t.payments && t.payments[0] == Payment(0, Unreviewed, Wallet)
  {
    var offer := Offer(30, 10, 500, None, 1, None, false);
    var op0, op1, op2, op3 :=
      Register(7, "c", ""), CreditUser(7, 1000), Op.CreateOrder(7, offer, 0), PayWallet(7, 0, NeedsManual);
    ops := [op0, op1, op2, op3];
    var t1 := Apply(EMPTY, op0);
    var t2 := Apply(t1, op1);
    var t3 := Apply(t2, op2);
    var t4 := Apply(t3, op3);
    assert t1.users == map[7 := User(0, 0, false, "c", None, 0)];
    assert t2.users[7].balance == 1000;
    assert t3.orders == [NewOrder(7, offer, 0)] && t3.users == t2.users && t3.payments == map[];
    RunOfFour(EMPTY, op0, op1, op2, op3);
  }

  lemma RunOfFour(t: Tables, op0: Op, op1: Op, op2: Op, op3: Op)
    requires Possible(t, op0) && Possible(Apply(t, op0), op1) && Possible(Apply(Apply(t, op0), op1), op2)
    requires Possible(Apply(Apply(Apply(t, op0), op1), op2), op3)
    ensures AllPossible(t, [op0, op1, op2, op3])
    ensures Run(t, [op0, op1, op2, op3]) == Apply(Apply(Apply(Apply(t, op0), op1), op2), op3)
  {
    assert [op0, op1, op2, op3][1..] == [op1, op2, op3] && [op1, op2, op3][1..] == [op2, op3];
    assert [op2, op3][1..] == [op3] && [op3][1..] == [];
    var t1 := Apply(t, op0);
    var t2 := Apply(t1, op1);
    var t3 := Apply(t2, op2);
    assert Run(t3, [op3]) == Apply(t3, op3) && AllPossible(t3, [op3]);
    assert Run(t2, [op2, op3]) == Run(t3, [op3]) && AllPossible(t2, [op2, op3]);
    assert Run(t1, [op1, op2, op3]) == Run(t2, [op2, op3]) && AllPossible(t1, [op1, op2, op3]);
  }

  /** From the empty shop: an order of 500 is refunded, completed and has an approved payment. */
  lemma RefundedYetDelivered() returns (t: Tables)
    ensures Reachable(t) && |t.orders| == 1 && t.orders[0].debit == 500 && Handlers.RejectPayment(t, 0).Success?
    ensures RefundedYetCompleted(t, Deliver(Handover(Handlers.RejectPayment(t, 0).value, 0, 0), NewAuto), 0, 0)
  {
    var ops := WalletPaymentOnItsWay();
    t := Run(EMPTY, ops);
    ReachableHealthy(t);
    assert t.orders[0].user in t.users;
    LateDeliveryAfterRejection(t, 0, 0, NewAuto);
  }

  // --- a second delivery ----------------------------------------------------

  lemma RedeliveredSold(before: seq<Order>, after: seq<Order>, o: nat, route: Route)
    requires DeliveredAs(before, after, o, route)
    ensures
      var u := before[o].user;
      Sold(after, u) == Sold(before, u) + (if OnPanel(after[o]) then before[o].gigabytes else 0)
                                        - (if OnPanel(before[o]) then before[o].gigabytes else 0)
  {
    assert after == before[o := after[o]];
    SumUpdate(before, o, after[o], SoldTo(before[o].user));
  }

  lemma RedeliveredBought(before: seq<Order>, after: seq<Order>, o: nat, route: Route, u: int)
    requires DeliveredAs(before, after, o, route) && u != before[o].user
    ensures Sold(after, u) == Sold(before, u) && (BoughtOnPanel(after, u) <==> BoughtOnPanel(before, u))
  {
    assert after == before[o := after[o]];
    SumUpdate(before, o, after[o], SoldTo(u));
    if BoughtOnPanel(before, u) {
      var i :| 0 <= i < |before| && before[i].user == u && OnPanel(before[i]);
      assert after[i].user == u && OnPanel(after[i]);
    }
  }

  lemma BuyerExactIff(before: seq<Order>, after: seq<Order>, o: nat, route: Route, b: Clients, a: Clients, now: int,
        p: Provision)
    requires OrdersDeliverable(before) && o < |before| && ExactFor(before, b, before[o].user)
    requires DeliveredAs(before, after, o, route) && OnPanel(after[o]) && before[o].gigabytes >= 1
    requires ProvisionedFor(b, a, before[o], now, Some(p))
    ensures ExactFor(after, a, before[o].user) <==> !OnPanel(before[o])
  {
    var u := before[o].user;
    RedeliveredSold(before, after, o, route);
    SoldIsNatural(before, u);
    if !BoughtOnPanel(before, u) {
      NothingBought(before, u);
    }
    AttemptIsExact(b, a, before[o], now, p, Sold(before, u));
    assert after[o].user == u && OnPanel(after[o]);
    assert BoughtOnPanel(after, u);
  }

  /**
   After a delivery or renewal through the panel the quotas are still the sums sold exactly
   if the panel had not delivered that order before.
   */
  lemma LateQuotaExactIff(before: seq<Order>, after: seq<Order>, o: nat, route: Route, b: Clients, a: Clients, now: int,
        p: Provision)
    requires OrdersDeliverable(before) && Exact(before, b)
    requires DeliveredAs(before, after, o, route) && OnPanel(after[o]) && before[o].gigabytes >= 1
    requires ProvisionedFor(b, a, before[o], now, Some(p))
    ensures Exact(after, a) <==> !OnPanel(before[o])
  {
    assert ExactFor(before, b, before[o].user);
    BuyerExactIff(before, after, o, route, b, a, now, p);
    if !OnPanel(before[o]) {
      forall u
        ensures ExactFor(after, a, u)
      {
        if u != before[o].user {
          assert ExactFor(before, b, u);
          RedeliveredBought(before, after, o, route, u);
          AttemptKeepsOthers(b, a, before[o], now, Some(p), u);
        }
      }
    } else {
      assert !ExactFor(after, a, before[o].user);
    }
  }

  /** The row of an order from the stock stands in the way of any second delivery. */
  lemma StockOrderTwice(before: seq<Order>, after: seq<Order>, b: Stock, a: Stock, o: nat, route: Route, site: Site,
        now: int)
    requires GoodsKept(before, b) && DeliveredAs(before, after, o, route) && before[o].route == Some(NewInventory)
    requires (route == NewAuto || route == NewInventory) && Served(b, a, o, before[o], route, site, now)
    ensures !RowsAgree(after, a.accounts)
  {
    var k :| GivenTo(b.configs, k, o);
    var i :| HoldsConfig(b.accounts, i, k, o);
    if route == NewAuto {
      var p :| ServedAuto(b, a, o, before[o], site, now, p);
      UpsertedRows(b.accounts, a.accounts, o, before[o], SubscriptionUrl(site, p.subId), p, now);
      assert HoldsConfig(a.accounts, i, k, o);
      assert !RowFits(after, a.accounts[i]);
    } else {
      var j: nat :| ServedFromStock(b, a, o, before[o], site, now, j);
      assert a.accounts[i].order == o == a.accounts[|b.accounts|].order;
    }
  }

  /** An order that the panel holds and the stock delivers again: its gigabytes are no longer accounted for. */
  lemma PanelOrderFromStock(before: seq<Order>, after: seq<Order>, o: nat, clients: Clients)
    requires DeliveredAs(before, after, o, NewInventory) && before[o].route == Some(NewAuto) && before[o].gigabytes >= 1
    requires Exact(before, clients)
    ensures !Exact(after, clients)
  {
    var u := before[o].user;
    RedeliveredSold(before, after, o, NewInventory);
    assert ExactFor(before, clients, u) && BoughtOnPanel(before, u);
    assert !ExactFor(after, clients, u);
  }

  lemma SecondDeliveryBreaks(before: seq<Order>, after: seq<Order>, b: Stock, a: Stock, o: nat, route: Route,
        site: Site,
        now: int)
    requires GoodsKept(before, b) && Exact(before, b.clients) && DeliveredAs(before, after, o, route)
    requires before[o].status == Completed && before[o].gigabytes >= 1
    requires (route == NewAuto || route == NewInventory) && Served(b, a, o, before[o], route, site, now)
    requires route == NewInventory ==> a.clients == b.clients
    ensures !(RowsAgree(after, a.accounts) && Exact(after, a.clients))
  {
    assert before[o].renews.None? && before[o].route.Some?;
    if before[o].route == Some(NewInventory) {
      StockOrderTwice(before, after, b, a, o, route, site, now);
    } else if route == NewAuto {
      var p :| ServedAuto(b, a, o, before[o], site, now, p);
      LateQuotaExactIff(before, after, o, route, b.clients, a.clients, now, p);
    } else {
      PanelOrderFromStock(before, after, o, b.clients);
    }
  }

  lemma FirstDeliveryKeeps(before: seq<Order>, after: seq<Order>, b: Stock, a: Stock, o: nat, route: Route, site: Site,
        now: int)
    requires GoodsKept(before, b) && Exact(before, b.clients) && DeliveredAs(before, after, o, route)
    requires before[o].status == Paid && before[o].gigabytes >= 1
    requires (route == NewAuto || route == NewInventory) && Served(b, a, o, before[o], route, site, now)
    requires route == NewInventory ==> a.clients == b.clients
    ensures GoodsKept(after, a) && Exact(after, a.clients)
  {
    DeliveryKept(before, after, b, a, o, route, site, now);
    FirstDeliveryExact(before, after, b, a, o, route, site, now);
  }

  lemma FirstDeliveryExact(before: seq<Order>, after: seq<Order>, b: Stock, a: Stock, o: nat, route: Route, site: Site,
        now: int)
    requires OrdersDeliverable(before) && Exact(before, b.clients) && DeliveredAs(before, after, o, route)
    requires before[o].route.None? && before[o].gigabytes >= 1
    requires (route == NewAuto || route == NewInventory) && Served(b, a, o, before[o], route, site, now)
    requires route == NewInventory ==> a.clients == b.clients
    ensures Exact(after, a.clients)
  {
    if route == NewAuto {
      var p :| ServedAuto(b, a, o, before[o], site, now, p);
      LateQuotaExactIff(before, after, o, route, b.clients, a.clients, now, p);
    } else {
      OffPanelExact(before, after, o, route, b.clients);
    }
  }

  lemma LateStatus(h: Handover, route: Route)
    requires Sound(h.t) && CountsAsPayment(h.t, h.p, h.o) && route.Delivers() && Forest(h.t) && h.o < |h.t.orders|
    ensures Evolves(h.t, Deliver(h, route)) <==> h.t.orders[h.o].status in {Paid, Completed}
  {
    CompletionSucceeds(h.t, h.o, h.p, route);
    LateDeliveryKeepsMachineIff(h, route);
    assert Fits(h.t.payments[h.p].status, h.t.orders[h.o].status);
  }

  /**
   A delivery that runs whenever it runs, for the order's own payment: machine, goods and
   exact quotas all survive it exactly if the order is still paid and not yet delivered.
   */
  lemma LateDeliveryIsSafeIff(h: Handover, route: Route, b: Stock, a: Stock, site: Site, now: int)
    requires Sound(h.t) && Forest(h.t) && GoodsKept(h.t.orders, b) && Exact(h.t.orders, b.clients)
    requires h.o < |h.t.orders| && CountsAsPayment(h.t, h.p, h.o) && h.t.orders[h.o].gigabytes >= 1
    requires (route == NewAuto || route == NewInventory) && Served(b, a, h.o, h.t.orders[h.o], route, site, now)
    requires route == NewInventory ==> a.clients == b.clients
    ensures
      var t' := Deliver(h, route);
      Evolves(h.t, t') && GoodsKept(t'.orders, a) && Exact(t'.orders, a.clients) <==> h.t.orders[h.o].status == Paid
  {
    var t' := Deliver(h, route);
    DeliverDelivers(h, route);
    LateStatus(h, route);
    if h.t.orders[h.o].status == Paid {
      FirstDeliveryKeeps(h.t.orders, t'.orders, b, a, h.o, route, site, now);
    } else if h.t.orders[h.o].status == Completed {
      SecondDeliveryBreaks(h.t.orders, t'.orders, b, a, h.o, route, site, now);
    }
  }
}
