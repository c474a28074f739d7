/**
 Goods that are handed out on a stale read: a config or an account row that was chosen before
 another delivery committed.
 */
module LateHandOuts {
  import opened Results
  import opened Schema
  import opened Machine
  import opened Provisioning
  import opened Delivery
  import opened World

  // --- configs --------------------------------------------------------------

  /** assign_config once its query has returned config `k`, and the account row that follows. */
  function LateHandOut(b: Stock, o: nat, order: Order, k: nat, now: int): Stock
    requires k < |b.configs|
  {
    b.(configs := Assigned(b.configs, k, o),
       accounts := b.accounts + [InventoryAccount(o, order, k, b.configs[k].text, now)])
  }

  /** An order that is delivered from the stock, with a config of its plan. */
  predicate HandsOut(before: seq<Order>, after: seq<Order>, b: Stock, o: nat, k: nat) {
    && DeliveredAs(before, after, o, NewInventory) && before[o].status == Paid && before[o].renews.None?
    && k < |b.configs| && before[o].plan == Some(b.configs[k].plan)
  }

  lemma FreeConfigKept(before: seq<Order>, after: seq<Order>, b: Stock, o: nat, k: nat, now: int)
    requires GoodsKept(before, b) && HandsOut(before, after, b, o, k) && !b.configs[k].handedOut
    ensures GoodsKept(after, LateHandOut(b, o, before[o], k, now))
  {
    var a := LateHandOut(b, o, before[o], k, now);
    assert before[o].route.None?;
    assert TakenFromStock(b, a, o, before[o], k);
    DeliveredRowsAgree(before, after, o, NewInventory, b);
    StockRowsAgree(after, b, a, o, k);
    StockConfigsAgree(before, after, b, a, o, k);
    assert ClientsServed(b.clients, a.clients, before[o], NewInventory, now);
    DeliveredCovered(before, after, o, NewInventory, b.clients, a.clients, now);
  }

  /** The order that had the config keeps its account row and loses its config. */
  lemma TakenConfigLost(before: seq<Order>, after: seq<Order>, b: Stock, o: nat, k: nat, now: int) returns (first: nat)
    requires GoodsKept(before, b) && HandsOut(before, after, b, o, k) && b.configs[k].handedOut
    ensures first != o && GivenTo(b.configs, k, first)
    ensures !GivenTo(LateHandOut(b, o, before[o], k, now).configs, k, first)
    ensures !ConfigsAgree(after, LateHandOut(b, o, before[o], k, now).accounts, LateHandOut(b, o, before[o], k, now).configs)
  {
    var a := LateHandOut(b, o, before[o], k, now);
    first := b.configs[k].order.value;
    assert GivenTo(b.configs, k, first);
    var i :| HoldsConfig(b.accounts, i, k, first);
    assert RowFits(before, b.accounts[i]) && before[o].route.None?;
    assert HoldsConfig(a.accounts, i, k, first);
  }

  /** Rows, configs and orders still agree after a hand-out on a stale read exactly if the config is still free. */
  lemma LateHandOutIsSafeIff(before: seq<Order>, after: seq<Order>, b: Stock, o: nat, k: nat, now: int)
    requires GoodsKept(before, b) && HandsOut(before, after, b, o, k)
    ensures GoodsKept(after, LateHandOut(b, o, before[o], k, now)) <==> !b.configs[k].handedOut
  {
    if b.configs[k].handedOut {
      var first := TakenConfigLost(before, after, b, o, k, now);
    } else {
      FreeConfigKept(before, after, b, o, k, now);
    }
  }

  /** Two deliveries that chose the same free config: the second one takes it from the first. */
  lemma TwoHandOutsCollide(before: seq<Order>, mid: seq<Order>, after: seq<Order>, b: Stock, first: nat, second: nat,
        k: nat, now: int)
    requires GoodsKept(before, b) && HandsOut(before, mid, b, first, k) && !b.configs[k].handedOut
    requires HandsOut(mid, after, LateHandOut(b, first, before[first], k, now), second, k)
    ensures
      var b1 := LateHandOut(b, first, before[first], k, now);
      var b2 := LateHandOut(b1, second, mid[second], k, now);
      && GoodsKept(mid, b1) && GivenTo(b1.configs, k, first)
      && GivenTo(b2.configs, k, second) && !GivenTo(b2.configs, k, first)
      && !GoodsKept(after, b2)
  {
    FreeConfigKept(before, mid, b, first, k, now);
    var b1 := LateHandOut(b, first, before[first], k, now);
    var loser := TakenConfigLost(mid, after, b1, second, k, now);
    assert loser == first;
  }

  // --- account rows ---------------------------------------------------------

  /**
   _upsert_auto_account once its query has found no row: the insert leaves one active row
   with the panel's quota exactly if the user has no active one by then.
   */
  lemma LateInsertMirrorsIff(before: seq<Account>, o: nat, order: Order, path: string, p: Provision, now: int)
    ensures MirrorsPanel(before + [NewAutoAccount(o, order, path, p, now)], order.user, p.totalBytes)
        <==> !HasActiveAutoRow(before, order.user)
  {
    var after := before + [NewAutoAccount(o, order, path, p, now)];
    var last := |before|;
    assert IsAutoRow(after, order.user, last) && after[last].active;
    assert forall i | i != last :: IsAutoRow(after, order.user, i) <==> IsAutoRow(before, order.user, i);
    if HasActiveAutoRow(before, order.user) {
      var i :| 0 <= i < |before| && IsAutoRow(before, order.user, i) && before[i].active;
      assert IsAutoRow(after, order.user, i) && after[i].active;
    } else {
      assert OnlyActiveRow(after, order.user, last);
    }
  }

  /** Two first deliveries to a user that both found no row leave two active ones. */
  lemma TwoInsertsCollide(before: seq<Account>, o1: nat, o2: nat, order1: Order, order2: Order, path: string,
        p1: Provision, p2: Provision, now: int)
    requires order1.user == order2.user && !HasActiveAutoRow(before, order1.user)
    ensures
      var one := before + [NewAutoAccount(o1, order1, path, p1, now)];
      var two := one + [NewAutoAccount(o2, order2, path, p2, now)];
      && MirrorsPanel(one, order1.user, p1.totalBytes)
      && !MirrorsPanel(two, order1.user, p2.totalBytes)
  {
    var one := before + [NewAutoAccount(o1, order1, path, p1, now)];
    LateInsertMirrorsIff(before, o1, order1, path, p1, now);
    assert IsAutoRow(one, order1.user, |before|) && one[|before|].active;
    LateInsertMirrorsIff(one, o2, order2, path, p2, now);
  }

  /**
   The refresh of a row writes what provisioning reported: with deliveries that overlap, the
   row shows the panel's quota exactly if the report is still that quota.
   */
  lemma LateRefreshMirrorsIff(before: seq<Account>, after: seq<Account>, k: nat, order: Order, path: string,
        p: Provision, now: int, quota: int)
    requires IsAutoRow(before, order.user, k) && RefreshedAt(before, after, k, order, path, p, now)
    ensures MirrorsPanel(after, order.user, quota) <==>
      (quota > 0 ==> (if p.totalBytes > 0 then p.totalBytes / GB else before[k].gigabytes) == quota / GB)
  {
    assert forall i :: IsAutoRow(after, order.user, i) <==> IsAutoRow(before, order.user, i);
    assert OnlyActiveRow(after, order.user, k);
  }
}
