/**
 What one delivery hands over, told on the order's own fields: days and gigabytes on the panel,
 the row that shows them, and the config from the stock. Times are in milliseconds.
 */
module DeliveredGoods {
  import opened Results
  import opened Schema
  import opened Handlers
  import opened Operations
  import opened Machine
  import opened Referrals
  import opened Runs
  import opened OrderMoves
  import opened PanelRecords
  import opened Provisioning
  import opened Delivery
  import opened World
  import opened Requests

  // --- the client on the panel ----------------------------------------------

  /** The record of a client that is new: on, with the order's quota and its days from now. */
  predicate IsNewClient(row: Row, days: int, gigabytes: int, now: int) {
    && IntField(row, ExpiryTime) == now + days * 86400000
    && IntField(row, TotalGB) == gigabytes * 1073741824
    && Get(row, Enable) == Some(Flag(true))
  }

  /** The record of a client that is extended: unlimited (0) stays unlimited, and the link stays valid. */
  predicate IsExtendedClient(was: Row, row: Row, days: int, gigabytes: int) {
    && IntField(row, ExpiryTime) ==
         (if IntField(was, ExpiryTime) == 0 then 0 else IntField(was, ExpiryTime) + days * 86400000)
    && IntField(row, TotalGB) ==
         (if IntField(was, TotalGB) == 0 then 0 else IntField(was, TotalGB) + gigabytes * 1073741824)
    && Get(row, SubId) == Get(was, SubId) && Get(row, Uuid) == Get(was, Uuid)
  }

  /** What a successful delivery through the panel leaves there. */
  ghost predicate PanelHolds(before: Clients, after: Clients, order: Order, now: int) {
    var email := ClientEmail(order.user);
    && email in after
    && IntField(after[email].row, LimitIp) == (if order.devices < 1 then 1 else order.devices)
    && (if email in before then IsExtendedClient(before[email].row, after[email].row, order.days, order.gigabytes)
        else IsNewClient(after[email].row, order.days, order.gigabytes, now))
    && (forall e | e != email :: e in before <==> e in after)
    && (forall e | e != email && e in before :: after[e] == before[e])
  }

  lemma AttemptHolds(before: Clients, after: Clients, order: Order, now: int, p: Provision)
    requires ProvisionedFor(before, after, order, now, Some(p)) && order.days >= 0 && order.gigabytes >= 0
    ensures PanelHolds(before, after, order, now)
  {
  }

  /** The order that this moment hands to delivery; its payment has been taken in. */
  ghost predicate HandsOut(w: State, m: Moment, o: nat, order: Order, route: Route) {
    && m.event.Request? && HandedOver(w.shop, m.event.op).Some? && m.event.op.route == route
    && var h := HandedOver(w.shop, m.event.op).value;
       h.o == o < |h.t.orders| && h.t.orders[o] == order
  }

  lemma HandsOutServes(w: State, m: Moment, w': State, o: nat, order: Order, route: Route)
    requires Kept(w) && Step(w, m, w') && HandsOut(w, m, o, order, route)
    ensures Served(w.stock, w'.stock, o, order, route, m.site, m.now)
    ensures order.days >= 0 && order.gigabytes >= 0
  {
    TakenDeliveries(w.shop, m.event.op);
    var after := HandedOver(w.shop, m.event.op).value.t.orders;
    if o < |w.shop.orders| {
      assert SameDelivery(w.shop.orders[o], after[o]);
    }
  }

  lemma ServedHolds(b: Stock, a: Stock, o: nat, order: Order, route: Route, site: Site, now: int)
    requires Served(b, a, o, order, route, site, now) && (route == NewAuto || route == RenewalAuto)
    requires order.days >= 0 && order.gigabytes >= 0
    ensures PanelHolds(b.clients, a.clients, order, now)
  {
    ServedClients(b, a, o, order, route, site, now);
    var p :| ProvisionedFor(b.clients, a.clients, order, now, Some(p));
    AttemptHolds(b.clients, a.clients, order, now, p);
  }

  /**
   Every delivery through the panel puts exactly the order's days, gigabytes and devices there, for
   its buyer alone.
   */
  lemma PanelGetsOrder(w: State, m: Moment, w': State, o: nat, order: Order, route: Route)
    requires Kept(w) && Step(w, m, w') && HandsOut(w, m, o, order, route)
    requires route == NewAuto || route == RenewalAuto
    ensures PanelHolds(w.stock.clients, w'.stock.clients, order, m.now)
  {
    HandsOutServes(w, m, w', o, order, route);
    ServedHolds(w.stock, w'.stock, o, order, route, m.site, m.now);
  }

  // --- the row that shows it ------------------------------------------------

  /** `n` characters remain of the URL without the slashes at its end. */
  predicate IsStripped(url: string, n: int) {
    && 0 <= n <= |url|
    && (forall i | n <= i < |url| :: url[i] == '/')
    && (n > 0 ==> url[n - 1] != '/')
  }

  lemma {:induction false} StripSlashesStrips(url: string)
    ensures |StripSlashes(url)| <= |url| && StripSlashes(url) == url[..|StripSlashes(url)|]
    ensures IsStripped(url, |StripSlashes(url)|)
  {
    if url != "" && url[|url| - 1] == '/' {
      StripSlashesStrips(url[..|url| - 1]);
    }
  }

  /** The link of a client: the base URL without slashes at its end, a slash, and the client's subscription id. */
  ghost predicate IsLink(path: string, baseUrl: string, client: Row) {
    exists n, subId ::
      IsStripped(baseUrl, n) && path == baseUrl[..n] + "/" + subId && subId != "" && Get(client, SubId) == Some(Str(subId))
  }

  lemma ReportIsLink(site: Site, client: Row, subId: string)
    requires subId != "" && Get(client, SubId) == Some(Str(subId))
    ensures IsLink(SubscriptionUrl(site, subId), site.baseUrl, client)
  {
    StripSlashesStrips(site.baseUrl);
    var n := |StripSlashes(site.baseUrl)|;
    assert SubscriptionUrl(site, subId) == site.baseUrl[..n] + "/" + subId;
  }

  /** The row of a new purchase: what the panel holds, and the order's own figures only where it is unlimited. */
  ghost predicate ShowsPanel(row: Account, was: int, client: Row, order: Order, site: Site, now: int) {
    var expiry, quota := IntField(client, ExpiryTime), IntField(client, TotalGB);
    && row.user == order.user && row.ref == Auto && row.active
    && row.expires == (if expiry > 0 then expiry else now + order.days * 86400000)
    && row.gigabytes == (if quota > 0 then quota / 1073741824 else was)
    && IsLink(row.path, site.baseUrl, client)
  }

  /** The new purchase is shown by the buyer's latest panel-backed row, or by a first one; the others are parked. */
  ghost predicate RowShowsPanel(before: seq<Account>, after: seq<Account>, o: nat, order: Order, client: Row,
                                site: Site, now: int)
  {
    exists k ::
      && OnlyActiveRow(after, order.user, k)
      && (forall i | 0 <= i < |before| && i != k ::
            i < |after| && after[i] == if before[i].user == order.user && before[i].ref == Auto
                                       then before[i].(active := false) else before[i])
      && if k < |before| then
           && |after| == |before| && IsLatest(before, order.user, k)
           && after[k].order == before[k].order && after[k].created == before[k].created
           && ShowsPanel(after[k], before[k].gigabytes, client, order, site, now)
         else
           && |after| == |before| + 1 && (forall i :: !IsAutoRow(before, order.user, i))
           && after[k].order == o && after[k].created == now
           && ShowsPanel(after[k], order.gigabytes, client, order, site, now)
  }

  lemma RefreshShowsPanel(before: seq<Account>, after: seq<Account>, k: nat, o: nat, order: Order, client: Row,
                          site: Site, p: Provision, now: int)
    requires IsLatest(before, order.user, k)
    requires RefreshedAt(before, after, k, order, SubscriptionUrl(site, p.subId), p, now)
    requires IsLink(SubscriptionUrl(site, p.subId), site.baseUrl, client)
    requires p.totalBytes == IntField(client, TotalGB) && p.expiryMs == IntField(client, ExpiryTime)
    ensures RowShowsPanel(before, after, o, order, client, site, now)
  {
    assert IsAutoRow(after, order.user, k);
    forall i | IsAutoRow(after, order.user, i) && after[i].active
      ensures i == k
    {
      assert i != k ==> IsAutoRow(before, order.user, i);
    }
    assert OnlyActiveRow(after, order.user, k);
    assert ShowsPanel(after[k], before[k].gigabytes, client, order, site, now);
  }

  lemma FirstRowShowsPanel(before: seq<Account>, after: seq<Account>, o: nat, order: Order, client: Row, site: Site,
                           p: Provision, now: int)
    requires forall k :: !IsAutoRow(before, order.user, k)
    requires after == before + [NewAutoAccount(o, order, SubscriptionUrl(site, p.subId), p, now)]
    requires IsLink(SubscriptionUrl(site, p.subId), site.baseUrl, client)
    requires p.totalBytes == IntField(client, TotalGB) && p.expiryMs == IntField(client, ExpiryTime)
    ensures RowShowsPanel(before, after, o, order, client, site, now)
  {
    var k := |before|;
    forall i | IsAutoRow(after, order.user, i)
      ensures i == k
    {
      assert i != k ==> IsAutoRow(before, order.user, i);
    }
    forall i | 0 <= i < |before|
      ensures before[i].user != order.user || before[i].ref != Auto
    {
      assert !IsAutoRow(before, order.user, i);
    }
    assert IsAutoRow(after, order.user, k);
    assert OnlyActiveRow(after, order.user, k);
    assert ShowsPanel(after[k], order.gigabytes, client, order, site, now);
  }

  /** The buyer's client is on the panel, and the one active row shows it. */
  ghost predicate RowShowsClient(b: Stock, a: Stock, o: nat, order: Order, site: Site, now: int) {
    var email := ClientEmail(order.user);
    email in a.clients && RowShowsPanel(b.accounts, a.accounts, o, order, a.clients[email].row, site, now)
  }

  lemma ServedShows(b: Stock, a: Stock, o: nat, order: Order, site: Site, now: int, p: Provision)
    requires ServedAuto(b, a, o, order, site, now, p)
    ensures RowShowsClient(b, a, o, order, site, now)
  {
    var client, path := a.clients[ClientEmail(order.user)].row, SubscriptionUrl(site, p.subId);
    ReportIsLink(site, client, p.subId);
    if k :| IsLatest(b.accounts, order.user, k) && RefreshedAt(b.accounts, a.accounts, k, order, path, p, now) {
      RefreshShowsPanel(b.accounts, a.accounts, k, o, order, client, site, p, now);
    } else {
      FirstRowShowsPanel(b.accounts, a.accounts, o, order, client, site, p, now);
    }
  }

  /** After a new purchase through the panel the buyer's one active row shows what the client holds, and its link. */
  lemma RowGetsOrder(w: State, m: Moment, w': State, o: nat, order: Order)
    requires Kept(w) && Step(w, m, w') && HandsOut(w, m, o, order, NewAuto)
    ensures RowShowsClient(w.stock, w'.stock, o, order, m.site, m.now)
  {
    HandsOutServes(w, m, w', o, order, NewAuto);
    var p :| ServedAuto(w.stock, w'.stock, o, order, m.site, m.now, p);
    ServedShows(w.stock, w'.stock, o, order, m.site, m.now, p);
  }

  // --- renewals -------------------------------------------------------------

  /** Only row `k` differs, and it is still the same user's row of the same kind for the same order. */
  predicate OnlyRowDiffers(before: seq<Account>, after: seq<Account>, k: nat) {
    && k < |before| == |after|
    && (forall i | 0 <= i < |before| && i != k :: after[i] == before[i])
    && after[k].user == before[k].user && after[k].ref == before[k].ref
    && after[k].order == before[k].order && after[k].created == before[k].created
  }

  function ExtendedBy(expires: int, days: int, now: int): int {
    (if expires > now then expires else now) + days * 86400000
  }

  /** The renewed row after a renewal through the panel: the client's figures win over the row's own. */
  ghost predicate RenewsWithPanel(b: Stock, a: Stock, order: Order, site: Site, now: int) {
    && order.renews.Some? && ClientEmail(order.user) in a.clients
    && OnlyRowDiffers(b.accounts, a.accounts, order.renews.value)
    && (var was, row := b.accounts[order.renews.value], a.accounts[order.renews.value];
        var client := a.clients[ClientEmail(order.user)].row;
        var expiry, quota := IntField(client, ExpiryTime), IntField(client, TotalGB);
        && was.user == order.user && row.active && IsLink(row.path, site.baseUrl, client)
        && row.expires == (if expiry > 0 && expiry > now then expiry else ExtendedBy(was.expires, order.days, now))
        && row.gigabytes == (if quota > 0 then quota / 1073741824 else was.gigabytes + order.gigabytes))
  }

  lemma RenewedAutoRenews(b: Stock, a: Stock, order: Order, site: Site, now: int, p: Provision)
    requires RenewedAuto(b, a, order, site, now, p)
    ensures RenewsWithPanel(b, a, order, site, now)
  {
    ReportIsLink(site, a.clients[ClientEmail(order.user)].row, p.subId);
  }

  lemma RenewedRowGetsOrder(w: State, m: Moment, w': State, o: nat, order: Order)
    requires Kept(w) && Step(w, m, w') && HandsOut(w, m, o, order, RenewalAuto)
    ensures RenewsWithPanel(w.stock, w'.stock, order, m.site, m.now)
  {
    HandsOutServes(w, m, w', o, order, RenewalAuto);
    var p :| RenewedAuto(w.stock, w'.stock, order, m.site, m.now, p);
    RenewedAutoRenews(w.stock, w'.stock, order, m.site, m.now, p);
  }

  /** A renewal without a panel: the row alone grows, by the order's days and gigabytes. */
  predicate RenewsWithoutPanel(b: Stock, a: Stock, order: Order, site: Site, now: int) {
    && !site.ready && order.renews.Some? && a.clients == b.clients
    && OnlyRowDiffers(b.accounts, a.accounts, order.renews.value)
    && (var was, row := b.accounts[order.renews.value], a.accounts[order.renews.value];
        && was.user == order.user && row.active && row.path == was.path
        && row.expires == ExtendedBy(was.expires, order.days, now)
        && row.gigabytes == was.gigabytes + order.gigabytes)
  }

  lemma RenewedInRowsRenews(b: Stock, a: Stock, order: Order, site: Site, now: int)
    requires RenewedInRows(b, a, order, site, now)
    ensures RenewsWithoutPanel(b, a, order, site, now)
  {
  }

  lemma DbRenewalGetsOrder(w: State, m: Moment, w': State, o: nat, order: Order)
    requires Kept(w) && Step(w, m, w') && HandsOut(w, m, o, order, RenewalDb)
    ensures RenewsWithoutPanel(w.stock, w'.stock, order, m.site, m.now)
  {
    HandsOutServes(w, m, w', o, order, RenewalDb);
    RenewedInRowsRenews(w.stock, w'.stock, order, m.site, m.now);
  }

  /** The admin's renewal: 30 days on a newest active row of the customer, and nothing else. */
  lemma AdminRenewalExtends(w: State, m: Moment, w': State)
    requires Step(w, m, w') && m.event.Request? && m.event.op.RenewUser?
    ensures w'.stock == w.stock.(accounts := w'.stock.accounts)
    ensures
      var b, a, user := w.stock.accounts, w'.stock.accounts, m.event.op.user;
      match m.event.op.account
      case None => a == b && forall i | 0 <= i < |b| :: !(b[i].user == user && b[i].active)
      case Some(k) =>
        && OnlyRowDiffers(b, a, k) && b[k].user == user && b[k].active
        && (forall i | 0 <= i < |b| && b[i].user == user && b[i].active :: b[i].created <= b[k].created)
        && a[k] == b[k].(expires := ExtendedBy(b[k].expires, 30, m.now))
  {
    var b, user := w.stock.accounts, m.event.op.user;
    assert forall i | 0 <= i < |b| :: IsActiveRow(b, user, i) <==> b[i].user == user && b[i].active;
  }

  // --- who gets a trial, and what is left to the admins ----------------------

  /** The trial goes to delivery exactly for a known customer who never had it and has no account that still runs. */
  lemma TrialGoesOut(w: State, m: Moment, w': State)
    requires Kept(w) && Step(w, m, w') && m.event.Request? && m.event.op.TakeTrial?
    ensures
      var op := m.event.op;
      HandedOver(w.shop, op).Some? <==>
        && op.enabled && (op.days > 0 || op.gigabytes > 0)
        && op.user in w.shop.users && !w.shop.users[op.user].trialUsed
        && (forall i | 0 <= i < |w.stock.accounts| && w.stock.accounts[i].user == op.user && w.stock.accounts[i].active ::
              w.stock.accounts[i].expires <= m.now)
  {
    var op := m.event.op;
    TrialHandedIff(w.shop, op);
    assert op.subscribed == Subscribed(w.stock.accounts, op.user, m.now);
  }

  lemma TrialHandedIff(t: Tables, op: Op)
    requires Sound(t) && op.TakeTrial?
    ensures HandedOver(t, op).Some? <==>
      && op.enabled && (op.days > 0 || op.gigabytes > 0) && !op.subscribed
      && op.user in t.users && !t.users[op.user].trialUsed
  {
    TrialIff(t, op.user, op.enabled, op.days, op.gigabytes, op.subscribed, op.now);
  }

  lemma UndeliveredHasNoRow(w: State, op: Op)
    requires Kept(w) && HandedOver(w.shop, op).Some?
    ensures !HasRow(w.stock.accounts, HandedOver(w.shop, op).value.o)
  {
    var h := HandedOver(w.shop, op).value;
    TakenDeliveries(w.shop, op);
    HandedOverSound(w.shop, op);
    SameDeliveriesKept(w.shop.orders, h.t.orders, w.stock);
    assert forall i | 0 <= i < |w.stock.accounts| :: RowFits(h.t.orders, w.stock.accounts[i]);
  }

  lemma ManualLeaves(b: Stock, a: Stock, o: nat, order: Order, site: Site, now: int)
    requires Served(b, a, o, order, NeedsManual, site, now) && !HasRow(b.accounts, o)
    ensures a.accounts == b.accounts && a.configs == b.configs
    ensures order.renews.None? && order.plan.Some? ==>
      forall i | 0 <= i < |b.configs| && b.configs[i].plan == order.plan.value :: b.configs[i].handedOut
    ensures order.renews.Some? && !site.ready ==>
      !(order.renews.value < |b.accounts| && b.accounts[order.renews.value].user == order.user)
  {
    assert forall i | 0 <= i < |b.configs| && b.configs[i].plan == (if order.plan.Some? then order.plan.value else "") ::
      IsFree(b.configs, b.configs[i].plan, i) <==> !b.configs[i].handedOut;
  }

  /** An order is left to the admins only if nothing is in stock for it; it stays paid, and no row or config moves. */
  lemma ManualOnlyWithoutGoods(w: State, m: Moment, w': State, o: nat, order: Order)
    requires Kept(w) && Step(w, m, w') && HandsOut(w, m, o, order, NeedsManual)
    ensures o < |w'.shop.orders| && w'.shop.orders[o] == order && order.status == Paid
    ensures w'.stock.accounts == w.stock.accounts && w'.stock.configs == w.stock.configs
    ensures order.renews.None? && order.plan.Some? ==>
      forall i | 0 <= i < |w.stock.configs| && w.stock.configs[i].plan == order.plan.value :: w.stock.configs[i].handedOut
  {
    HandsOutServes(w, m, w', o, order, NeedsManual);
    UndeliveredHasNoRow(w, m.event.op);
    HandoverDelivers(w.shop, m.event.op);
    ManualLeaves(w.stock, w'.stock, o, order, m.site, m.now);
  }

  // --- the stock ------------------------------------------------------------

  /** `t` is `s` without the white space at both ends. */
  ghost predicate IsTrimmed(s: string, t: string) {
    && (t != "" ==> !IsSpace(t[0]) && !IsSpace(t[|t| - 1]))
    && exists i, j :: 0 <= i <= j <= |s| && t == s[i..j] && IsBlank(s[..i]) && IsBlank(s[j..])
  }

  predicate IsBlank(s: string) {
    forall k | 0 <= k < |s| :: IsSpace(s[k])
  }

  lemma {:induction false} TrimLeftDrops(s: string) returns (i: nat)
    ensures i <= |s| && TrimLeft(s) == s[i..] && IsBlank(s[..i]) && (i < |s| ==> !IsSpace(s[i]))
  {
    if s != "" && IsSpace(s[0]) {
      var k := TrimLeftDrops(s[1..]);
      i := k + 1;
      assert s[..i] == [s[0]] + s[1..][..k];
    } else {
      i := 0;
    }
  }

  lemma {:induction false} TrimRightDrops(s: string) returns (j: nat)
    ensures j <= |s| && TrimRight(s) == s[..j] && IsBlank(s[j..]) && (j > 0 ==> !IsSpace(s[j - 1]))
  {
    if s != "" && IsSpace(s[|s| - 1]) {
      j := TrimRightDrops(s[..|s| - 1]);
      assert s[j..] == s[..|s| - 1][j..] + [s[|s| - 1]];
    } else {
      j := |s|;
    }
  }

  lemma TrimTrims(s: string)
    ensures IsTrimmed(s, Trim(s))
  {
    var i := TrimLeftDrops(s);
    var j := TrimRightDrops(s[i..]);
    assert Trim(s) == s[i..][..j] == s[i..i + j] && s[i..][j..] == s[i + j..];
    assert 0 <= i <= i + j <= |s| && IsBlank(s[..i]) && IsBlank(s[i + j..]);
  }

  /**
   A new config is free, of this moment and at the end of the stock, with its text without the
   white space around it.
   */
  lemma ConfigIsAdded(w: State, m: Moment, w': State)
    requires Step(w, m, w') && m.event.NewConfig?
    ensures w' == w.(stock := w.stock.(configs := w'.stock.configs))
    ensures
      var b, a := w.stock.configs, w'.stock.configs;
      && |a| == |b| + 1 && b <= a
      && (var c := a[|b|];
          && c.plan == m.event.plan && !c.handedOut && c.order.None? && c.created == m.now
          && IsTrimmed(m.event.text, c.text))
  {
    TrimTrims(m.event.text);
  }

  /** An oldest config of the plan that nobody has. */
  predicate IsOldestLeft(configs: seq<Config>, plan: string, k: int) {
    && 0 <= k < |configs| && configs[k].plan == plan && !configs[k].handedOut
    && forall i | 0 <= i < |configs| && configs[i].plan == plan && !configs[i].handedOut ::
         configs[k].created <= configs[i].created
  }

  /** The order has its config and the row that holds it; every earlier row and every other config is as before. */
  ghost predicate StockHandsOut(b: Stock, a: Stock, o: nat, order: Order, k: nat, now: int) {
    && order.plan.Some? && IsOldestLeft(b.configs, order.plan.value, k)
    && |a.configs| == |b.configs|
    && (forall i | 0 <= i < |b.configs| && i != k :: a.configs[i] == b.configs[i])
    && a.configs[k] == b.configs[k].(handedOut := true, order := Some(o))
    && |a.accounts| == |b.accounts| + 1 && b.accounts <= a.accounts
    && (var row := a.accounts[|b.accounts|];
        && row.order == o && row.user == order.user && row.ref == FromConfig(k) && row.active && row.created == now
        && row.path == b.configs[k].text
        && row.expires == now + order.days * 86400000
        && row.gigabytes == order.gigabytes)
  }

  lemma ServedFromStockHandsOut(b: Stock, a: Stock, o: nat, order: Order, site: Site, now: int, k: nat)
    requires ServedFromStock(b, a, o, order, site, now, k)
    ensures StockHandsOut(b, a, o, order, k, now)
  {
    OldestFreeIsLeft(b.configs, order.plan.value, k);
  }

  /**
   A delivery from the stock: one oldest free config becomes the buyer's account, over the order's
   days and gigabytes.
   */
  lemma StockGetsOrder(w: State, m: Moment, w': State, o: nat, order: Order)
    requires Kept(w) && Step(w, m, w') && HandsOut(w, m, o, order, NewInventory)
    ensures exists k :: StockHandsOut(w.stock, w'.stock, o, order, k, m.now)
  {
    HandsOutServes(w, m, w', o, order, NewInventory);
    var k: nat :| ServedFromStock(w.stock, w'.stock, o, order, m.site, m.now, k);
    ServedFromStockHandsOut(w.stock, w'.stock, o, order, m.site, m.now, k);
  }

  lemma OldestFreeIsLeft(configs: seq<Config>, plan: string, k: int)
    ensures IsOldestFree(configs, plan, k) <==> IsOldestLeft(configs, plan, k)
  {
    assert forall i | 0 <= i < |configs| :: IsFree(configs, plan, i) <==> configs[i].plan == plan && !configs[i].handedOut;
  }

  /** The available count is the number of configs of the plan that nobody has. */
  lemma {:induction false} AvailableCounts(configs: seq<Config>, plan: string, left: set<int>)
    requires left == set k | 0 <= k < |configs| && configs[k].plan == plan && !configs[k].handedOut
    ensures Available(configs, plan) == |left|
  {
    if configs != [] {
      var last := |configs| - 1;
      AvailableCounts(configs[..last], plan, left - {last});
    }
  }
}
