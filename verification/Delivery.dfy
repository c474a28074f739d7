/**
 The goods side of an order: the account rows that mirror the panel, the stock of
 ready-made configs, and what one delivery attempt does to them. Times are in milliseconds.
 */
module Delivery {
  import opened Results
  import opened Schema
  import opened PanelRecords
  import opened Provisioning
  import opened ReferralCodes
  import opened Handlers

  datatype Ref = Auto | FromConfig(k: nat)

  datatype Account = Account(
    order: nat, user: int, ref: Ref, path: string, expires: int, gigabytes: int, active: bool, created: int)

  datatype Config = Config(plan: string, text: string, created: int, handedOut: bool, order: Option<nat>)

  datatype Stock = Stock(accounts: seq<Account>, configs: seq<Config>, clients: Clients)

  /** panel_client_email: the Telegram id as text. */
  function ClientEmail(user: int): string {
    if user < 0 then "-" + Numeral(-user, 10) else Numeral(user, 10)
  }

  lemma {:induction false} NumeralIsUnsigned(n: nat)
    ensures Numeral(n, 10)[0] != '-'
    decreases n
  {
    if n >= 10 {
      NumeralIsUnsigned(n / 10);
    }
  }

  /** Different customers have different clients on the panel. */
  lemma ClientEmailInjective(u: int, v: int)
    requires ClientEmail(u) == ClientEmail(v)
    ensures u == v
  {
    NumeralIsUnsigned(Abs(u));
    NumeralIsUnsigned(Abs(v));
    assert (u < 0) == (v < 0);
    assert Numeral(Abs(u), 10) == ClientEmail(u)[if u < 0 then 1 else 0..];
    assert Numeral(Abs(v), 10) == ClientEmail(v)[if v < 0 then 1 else 0..];
    NumeralInjective(Abs(u), Abs(v), 10);
  }

  /** The client's name is the id in decimal, with a sign in front of a negative one. */
  lemma ClientEmailIsDecimal(user: int)
    ensures user >= 0 ==> IsDecimal(ClientEmail(user)) && Parse(ClientEmail(user), 10) == user
    ensures user < 0 ==>
      && ClientEmail(user) != "" && ClientEmail(user)[0] == '-'
      && IsDecimal(ClientEmail(user)[1..]) && Parse(ClientEmail(user)[1..], 10) == -user
  {
    NumeralIsDecimal(Abs(user));
    ParseNumeral(Abs(user), 10);
    if user < 0 {
      assert ClientEmail(user)[1..] == Numeral(-user, 10);
    }
  }

  function Wants(order: Order): Goods {
    Goods(Max(order.days, 0), Max(order.gigabytes, 0), order.devices)
  }

  // --- renewal --------------------------------------------------------------

  function ExtendedExpiry(expires: int, days: int, now: int): int {
    Max(expires, now) + days * MS_PER_DAY
  }

  /** extend_vpn_account. */
  function ExtendedAccount(a: Account, days: int, gigabytes: int, path: Option<string>, now: int): Account {
    a.(expires := ExtendedExpiry(a.expires, days, now),
       gigabytes := a.gigabytes + gigabytes,
       path := if path.Some? then path.value else a.path,
       active := true)
  }

  /** After a renewal on the panel the row mirrors the panel's quota, and its expiry while the client is alive. */
  function Mirrored(a: Account, p: Provision, now: int): Account {
    a.(gigabytes := if p.totalBytes > 0 then p.totalBytes / GB else a.gigabytes,
       expires := if p.expiryMs > 0 && p.expiryMs > now then p.expiryMs else a.expires)
  }

  datatype Sale = Sale(days: nat, gigabytes: nat, now: int)

  function Renewals(a: Account, sales: seq<Sale>): Account {
    if sales == [] then a
    else
      var last := sales[|sales| - 1];
      ExtendedAccount(Renewals(a, sales[..|sales| - 1]), last.days, last.gigabytes, None, last.now)
  }

  function DaysSold(sales: seq<Sale>): nat {
    if sales == [] then 0 else DaysSold(sales[..|sales| - 1]) + sales[|sales| - 1].days
  }

  function GigabytesSold(sales: seq<Sale>): nat {
    if sales == [] then 0 else GigabytesSold(sales[..|sales| - 1]) + sales[|sales| - 1].gigabytes
  }

  /** The time for which the account had already expired when a renewal came. */
  function Lapsed(a: Account, sales: seq<Sale>): nat {
    if sales == [] then 0
    else
      var before := sales[..|sales| - 1];
      Lapsed(a, before) + Max(sales[|sales| - 1].now - Renewals(a, before).expires, 0)
  }

  /** Renewals only add: the days sold, and the time during which there was nothing left to extend. */
  lemma {:induction false} RenewalsAddUp(a: Account, sales: seq<Sale>)
    ensures Renewals(a, sales).expires == a.expires + DaysSold(sales) * MS_PER_DAY + Lapsed(a, sales)
    ensures Renewals(a, sales).gigabytes == a.gigabytes + GigabytesSold(sales)
    ensures sales != [] ==> Renewals(a, sales).expires >= Renewals(a, sales[..|sales| - 1]).expires
  {
    if sales != [] {
      RenewalsAddUp(a, sales[..|sales| - 1]);
    }
  }

  // --- account rows ---------------------------------------------------------

  predicate IsAutoRow(accounts: seq<Account>, user: int, k: int) {
    0 <= k < |accounts| && accounts[k].user == user && accounts[k].ref == Auto
  }

  /** `k` is a row that ORDER BY created_at DESC LIMIT 1 may return. */
  ghost predicate IsLatest(accounts: seq<Account>, user: int, k: int) {
    IsAutoRow(accounts, user, k) && forall i | IsAutoRow(accounts, user, i) :: accounts[i].created <= accounts[k].created
  }

  function PanelExpiry(p: Provision, days: int, now: int): int {
    if p.expiryMs > 0 then p.expiryMs else now + days * MS_PER_DAY
  }

  function Refreshed(a: Account, order: Order, path: string, p: Provision, now: int): Account {
    a.(path := path, expires := PanelExpiry(p, order.days, now), active := true,
       gigabytes := if p.totalBytes > 0 then p.totalBytes / GB else a.gigabytes)
  }

  function NewAutoAccount(o: nat, order: Order, path: string, p: Provision, now: int): Account {
    Account(o, order.user, Auto, path, PanelExpiry(p, order.days, now),
            if p.totalBytes > 0 then p.totalBytes / GB else order.gigabytes, true, now)
  }

  predicate RefreshedAt(before: seq<Account>, after: seq<Account>, k: nat, order: Order, path: string, p: Provision,
        now: int) {
    && |after| == |before|
    && k < |before|
    && after[k] == Refreshed(before[k], order, path, p, now)
    && forall i | 0 <= i < |before| && i != k ::
         after[i] == if IsAutoRow(before, order.user, i) then before[i].(active := false) else before[i]
  }

  /**
   _upsert_auto_account: refresh the latest panel-backed row of the user and park the others, or
   insert the first one.
   */
  ghost predicate Upserted(before: seq<Account>, after: seq<Account>, o: nat, order: Order, path: string,
        p: Provision, now: int) {
    || (exists k :: IsLatest(before, order.user, k) && RefreshedAt(before, after, k, order, path, p, now))
    || ((forall k :: !IsAutoRow(before, order.user, k)) && after == before + [NewAutoAccount(o, order, path, p, now)])
  }

  /** Row `k` is the one active panel-backed row of this user. */
  ghost predicate OnlyActiveRow(accounts: seq<Account>, user: int, k: int) {
    && IsAutoRow(accounts, user, k) && accounts[k].active
    && forall i | IsAutoRow(accounts, user, i) && accounts[i].active :: i == k
  }

  /** Exactly one active panel-backed row of this user, and it shows this quota unless that is unlimited (0). */
  ghost predicate MirrorsPanel(accounts: seq<Account>, user: int, quota: int) {
    exists k :: OnlyActiveRow(accounts, user, k) && (quota > 0 ==> accounts[k].gigabytes == quota / GB)
  }

  /** After an automatic delivery the user has one active row, holding the panel's quota. */
  lemma UpsertMirrorsPanel(before: seq<Account>, after: seq<Account>, o: nat, order: Order, path: string,
        p: Provision, now: int)
    requires Upserted(before, after, o, order, path, p, now)
    ensures MirrorsPanel(after, order.user, p.totalBytes)
  {
    if k :| IsLatest(before, order.user, k) && RefreshedAt(before, after, k, order, path, p, now) {
      assert IsAutoRow(after, order.user, k);
      forall i | IsAutoRow(after, order.user, i) && after[i].active
        ensures i == k
      {
        assert i != k ==> IsAutoRow(before, order.user, i);
      }
      assert OnlyActiveRow(after, order.user, k);
    } else {
      var k := |before|;
      assert IsAutoRow(after, order.user, k);
      forall i | IsAutoRow(after, order.user, i) && after[i].active
        ensures i == k
      {
        assert i != k ==> IsAutoRow(before, order.user, i);
      }
      assert OnlyActiveRow(after, order.user, k);
    }
  }

  /** _migrate_sqlite_dedupe_auto_accounts: of each user's panel-backed rows only the last inserted may stay active. */
  ghost predicate Deduped(before: seq<Account>, after: seq<Account>) {
    && |after| == |before|
    && forall i | 0 <= i < |before| ::
         after[i] == if before[i].ref == Auto && IsOutdated(before, i) then before[i].(active := false) else before[i]
  }

  predicate IsOutdated(accounts: seq<Account>, i: int) {
    0 <= i < |accounts|
    && exists j | i < j < |accounts| :: accounts[j].user == accounts[i].user && accounts[j].ref == Auto
  }

  predicate HasActiveAutoRow(accounts: seq<Account>, user: int) {
    exists i | 0 <= i < |accounts| :: IsAutoRow(accounts, user, i) && accounts[i].active
  }

  predicate IsLastInserted(accounts: seq<Account>, user: int, k: int) {
    IsAutoRow(accounts, user, k) && !IsOutdated(accounts, k)
  }

  /**
   The migration keeps the row with the highest id even if that row is parked: a user
   still has an active row afterwards exactly when their last inserted one is active.
   */
  lemma DedupeKeepsActiveIff(before: seq<Account>, after: seq<Account>, user: int, k: int)
    requires Deduped(before, after) && IsLastInserted(before, user, k)
    ensures HasActiveAutoRow(after, user) <==> before[k].active
    ensures forall i | IsAutoRow(after, user, i) && after[i].active :: i == k
  {
    forall i | IsAutoRow(after, user, i) && after[i].active
      ensures i == k && before[k].active
    {
      assert IsAutoRow(before, user, i) && !IsOutdated(before, i);
      assert i < k ==> IsOutdated(before, i);
      assert k < i ==> IsOutdated(before, k);
    }
    if before[k].active {
      assert IsAutoRow(after, user, k) && after[k].active;
    }
  }

  /** The migration does nothing but park panel-backed rows that have a later one of the same user. */
  lemma DedupeOnlyParks(before: seq<Account>, after: seq<Account>, i: nat)
    requires Deduped(before, after) && i < |before|
    ensures |after| == |before| && after[i] == before[i].(active := after[i].active)
    ensures after[i].active <==>
      before[i].active
      && !(before[i].ref == Auto
           && exists j | i < j < |before| :: before[j].user == before[i].user && before[j].ref == Auto)
  {
  }

  /** trial_available: the customer has a live account. */
  predicate Subscribed(accounts: seq<Account>, user: int, now: int) {
    exists i | 0 <= i < |accounts| :: accounts[i].user == user && accounts[i].active && accounts[i].expires > now
  }

  predicate IsActiveRow(accounts: seq<Account>, user: int, k: int) {
    0 <= k < |accounts| && accounts[k].user == user && accounts[k].active
  }

  /** The admin's free renewal: 30 days on a newest active row of the user, if there is one. */
  ghost predicate RenewedByAdmin(before: seq<Account>, after: seq<Account>, user: int, account: Option<nat>, now: int) {
    match account
    case None => after == before && forall k :: !IsActiveRow(before, user, k)
    case Some(k) =>
      && IsActiveRow(before, user, k)
      && (forall i | IsActiveRow(before, user, i) :: before[i].created <= before[k].created)
      && after == before[k := ExtendedAccount(before[k], RENEW_DAYS, 0, None, now)]
  }

  // --- inventory ------------------------------------------------------------

  predicate IsFree(configs: seq<Config>, plan: string, k: int) {
    0 <= k < |configs| && configs[k].plan == plan && !configs[k].handedOut
  }

  /** count_available. */
  function Available(configs: seq<Config>, plan: string): nat {
    if configs == [] then 0
    else Available(configs[..|configs| - 1], plan) + if IsFree(configs, plan, |configs| - 1) then 1 else 0
  }

  /** `k` is an oldest free config of the plan. */
  ghost predicate IsOldestFree(configs: seq<Config>, plan: string, k: int) {
    IsFree(configs, plan, k) && forall i | IsFree(configs, plan, i) :: configs[k].created <= configs[i].created
  }

  function Assigned(configs: seq<Config>, k: nat, o: nat): seq<Config>
    requires k < |configs|
  {
    configs[k := configs[k].(handedOut := true, order := Some(o))]
  }

  /** Handing out a config takes exactly one from the stock of its plan and none from any other. */
  lemma {:induction false} AssignTakesOne(configs: seq<Config>, plan: string, k: nat, o: nat, other: string)
    requires IsFree(configs, plan, k)
    ensures Available(Assigned(configs, k, o), other) == Available(configs, other) - if other == plan then 1 else 0
  {
    var last := |configs| - 1;
    if k == last {
      assert Assigned(configs, k, o)[..last] == configs[..last];
    } else {
      assert Assigned(configs, k, o)[..last] == Assigned(configs[..last], k, o);
      AssignTakesOne(configs[..last], plan, k, o, other);
    }
  }

  function InventoryAccount(o: nat, order: Order, k: nat, text: string, now: int): Account {
    Account(o, order.user, FromConfig(k), text, now + order.days * MS_PER_DAY, order.gigabytes, true, now)
  }

  // --- one delivery attempt -------------------------------------------------

  /** The shop's panel settings: is automatic provisioning set up, and where are subscriptions served? */
  datatype Site = Site(ready: bool, baseUrl: string)

  function StripSlashes(url: string): string {
    if url != "" && url[|url| - 1] == '/' then StripSlashes(url[..|url| - 1]) else url
  }

  function SubscriptionUrl(site: Site, subId: string): string {
    StripSlashes(site.baseUrl) + "/" + subId
  }

  ghost predicate ProvisionedFor(before: Clients, after: Clients, order: Order, now: int, outcome: Option<Provision>) {
    exists wanted: set<int> ::
      Provisioned(before, after, ClientEmail(order.user), Wants(order), now, wanted, outcome)
  }

  /** The panel was not asked, or asked in vain. */
  ghost predicate PanelTried(before: Clients, after: Clients, order: Order, site: Site, now: int) {
    after == before || (site.ready && ProvisionedFor(before, after, order, now, None))
  }

  ghost predicate ServedAuto(b: Stock, a: Stock, o: nat, order: Order, site: Site, now: int, p: Provision) {
    && site.ready && order.renews.None?
    && ProvisionedFor(b.clients, a.clients, order, now, Some(p))
    && Upserted(b.accounts, a.accounts, o, order, SubscriptionUrl(site, p.subId), p, now)
    && a.configs == b.configs
  }

  ghost predicate ServedFromStock(b: Stock, a: Stock, o: nat, order: Order, site: Site, now: int, k: nat) {
    && order.renews.None? && order.plan.Some?
    && PanelTried(b.clients, a.clients, order, site, now)
    && IsOldestFree(b.configs, order.plan.value, k)
    && a.configs == Assigned(b.configs, k, o)
    && a.accounts == b.accounts + [InventoryAccount(o, order, k, b.configs[k].text, now)]
  }

  predicate KnownRenewal(accounts: seq<Account>, order: Order) {
    order.renews.Some? && order.renews.value < |accounts| && accounts[order.renews.value].user == order.user
  }

  ghost predicate RenewedAuto(b: Stock, a: Stock, order: Order, site: Site, now: int, p: Provision) {
    && site.ready && KnownRenewal(b.accounts, order)
    && ProvisionedFor(b.clients, a.clients, order, now, Some(p))
    && a.configs == b.configs
    && (var k := order.renews.value;
        var path := Some(SubscriptionUrl(site, p.subId));
        a.accounts == b.accounts[k :=
          Mirrored(ExtendedAccount(b.accounts[k], order.days, order.gigabytes, path, now), p, now)])
  }

  ghost predicate RenewedInRows(b: Stock, a: Stock, order: Order, site: Site, now: int) {
    && !site.ready && KnownRenewal(b.accounts, order)
    && a.clients == b.clients && a.configs == b.configs
    && (var k := order.renews.value;
        a.accounts == b.accounts[k := ExtendedAccount(b.accounts[k], order.days, order.gigabytes, None, now)])
  }

  predicate HasRow(accounts: seq<Account>, o: nat) {
    exists i | 0 <= i < |accounts| :: accounts[i].order == o
  }

  ghost predicate NoneFree(configs: seq<Config>, plan: string) {
    forall k :: !IsFree(configs, plan, k)
  }

  /** Left to the admins: only what neither the panel nor the stock could serve. */
  ghost predicate LeftToAdmins(b: Stock, a: Stock, o: nat, order: Order, site: Site, now: int) {
    && a.accounts == b.accounts && a.configs == b.configs
    && if order.renews.Some? then
         PanelTried(b.clients, a.clients, order, site, now) && (KnownRenewal(b.accounts, order) ==> site.ready)
       else
         || (HasRow(b.accounts, o)
             && (a.clients == b.clients
                 || exists outcome :: ProvisionedFor(b.clients, a.clients, order, now, outcome)))
         || (PanelTried(b.clients, a.clients, order, site, now)
             && (order.plan.Some? ==> NoneFree(b.configs, order.plan.value)))
  }

  /** What fulfil_paid_order does to the goods when it reports `route` for order `o`. */
  ghost predicate Served(b: Stock, a: Stock, o: nat, order: Order, route: Route, site: Site, now: int) {
    match route
    case NewAuto => exists p :: ServedAuto(b, a, o, order, site, now, p)
    case NewInventory => exists k: nat :: ServedFromStock(b, a, o, order, site, now, k)
    case RenewalAuto => exists p :: RenewedAuto(b, a, order, site, now, p)
    case RenewalDb => RenewedInRows(b, a, order, site, now)
    case NeedsManual => LeftToAdmins(b, a, o, order, site, now)
  }

  // --- the program ----------------------------------------------------------

  class Warehouse {
    var accounts: seq<Account>
    var configs: seq<Config>
    const provisioner: Provisioner

    ghost function S(): Stock
      reads this, provisioner, provisioner.panel
    {
      Stock(accounts, configs, provisioner.panel.clients)
    }

    constructor (provisioner: Provisioner)
      ensures this.provisioner == provisioner && accounts == [] && configs == []
    {
      this.provisioner := provisioner;
      accounts, configs := [], [];
    }

    method AddConfig(plan: string, text: string, now: int)
      modifies this`configs
      ensures configs == old(configs) + [Config(plan, Trim(text), now, false, None)]
    {
      configs := configs + [Config(plan, Trim(text), now, false, None)];
    }

    method CountAvailable(plan: string) returns (count: nat)
      ensures count == Available(configs, plan)
    {
      count := 0;
      for i := 0 to |configs|
        invariant count == Available(configs[..i], plan)
      {
        assert configs[..i + 1][..i] == configs[..i];
        if configs[i].plan == plan && !configs[i].handedOut {
          count := count + 1;
        }
      }
      assert configs[..|configs|] == configs;
    }

    /** Take an oldest free config of the plan for order `o`. */
    method AssignConfig(plan: string, o: nat) returns (taken: Option<nat>)
      modifies this`configs
      ensures taken.None? ==> configs == old(configs) && forall i :: !IsFree(configs, plan, i)
      ensures taken.Some? ==> IsOldestFree(old(configs), plan, taken.value) && configs == Assigned(old(configs), taken.value, o)
    {
      taken := None;
      for i := 0 to |configs|
        invariant taken.None? ==> forall j | 0 <= j < i :: !IsFree(configs, plan, j)
        invariant taken.Some? ==>
          (IsFree(configs, plan, taken.value)
           && forall j | 0 <= j < i && IsFree(configs, plan, j) :: configs[taken.value].created <= configs[j].created)
      {
        if configs[i].plan == plan && !configs[i].handedOut
           && (taken.None? || configs[i].created < configs[taken.value].created) {
          taken := Some(i);
        }
      }
      if taken.Some? {
        configs := configs[taken.value := configs[taken.value].(handedOut := true, order := Some(o))];
      }
    }

    /** The newest panel-backed row of the user. */
    method FindLatest(user: int) returns (found: Option<nat>)
      ensures found.None? ==> forall k :: !IsAutoRow(accounts, user, k)
      ensures found.Some? ==> IsLatest(accounts, user, found.value)
    {
      found := None;
      for i := 0 to |accounts|
        invariant found.None? ==> forall j | 0 <= j < i :: !IsAutoRow(accounts, user, j)
        invariant found.Some? ==>
          (IsAutoRow(accounts, user, found.value)
           && forall j | 0 <= j < i && IsAutoRow(accounts, user, j) :: accounts[j].created <= accounts[found.value].created)
      {
        if accounts[i].user == user && accounts[i].ref == Auto
           && (found.None? || accounts[i].created >= accounts[found.value].created) {
          found := Some(i);
        }
      }
    }

    /** _deactivate_duplicate_auto_accounts. */
    method ParkDuplicates(user: int, keep: nat)
      modifies this`accounts
      ensures |accounts| == old(|accounts|)
      ensures forall i | 0 <= i < |accounts| ::
        accounts[i] == if i != keep && IsAutoRow(old(accounts), user, i) then old(accounts)[i].(active := false) else old(accounts)[i]
    {
      for i := 0 to |accounts|
        invariant |accounts| == old(|accounts|)
        invariant forall j | i <= j < |accounts| :: accounts[j] == old(accounts)[j]
        invariant forall j | 0 <= j < i ::
          accounts[j] == if j != keep && IsAutoRow(old(accounts), user, j) then old(accounts)[j].(active := false) else old(accounts)[j]
      {
        if i != keep && accounts[i].user == user && accounts[i].ref == Auto {
          accounts := accounts[i := accounts[i].(active := false)];
        }
      }
    }

    /** _migrate_sqlite_dedupe_auto_accounts. */
    method Dedupe()
      modifies this`accounts
      ensures Deduped(old(accounts), accounts)
    {
      var rows := accounts;
      for i := 0 to |rows|
        invariant |accounts| == |rows|
        invariant forall j | i <= j < |rows| :: accounts[j] == rows[j]
        invariant forall j | 0 <= j < i ::
          accounts[j] == if rows[j].ref == Auto && IsOutdated(rows, j) then rows[j].(active := false) else rows[j]
      {
        if rows[i].ref == Auto && rows[i].active && IsOutdated(rows, i) {
          accounts := accounts[i := rows[i].(active := false)];
        }
      }
    }

    /** The account part of admin_renew_user. */
    method RenewNewest(user: int, now: int) returns (account: Option<nat>)
      modifies this`accounts
      ensures RenewedByAdmin(old(accounts), accounts, user, account, now)
    {
      account := None;
      for i := 0 to |accounts|
        invariant account.None? ==> forall j | 0 <= j < i :: !IsActiveRow(accounts, user, j)
        invariant account.Some? ==>
          (IsActiveRow(accounts, user, account.value)
           && forall j | 0 <= j < i && IsActiveRow(accounts, user, j) :: accounts[j].created <= accounts[account.value].created)
      {
        if accounts[i].user == user && accounts[i].active
           && (account.None? || accounts[i].created > accounts[account.value].created) {
          account := Some(i);
        }
      }
      if account.Some? {
        ExtendAccount(account.value, RENEW_DAYS, 0, None, now);
      }
    }

    /** extend_vpn_account. */
    method ExtendAccount(k: nat, days: int, gigabytes: int, path: Option<string>, now: int)
      requires k < |accounts|
      modifies this`accounts
      ensures accounts == old(accounts)[k := ExtendedAccount(old(accounts)[k], days, gigabytes, path, now)]
    {
      var row := accounts[k];
      var base := if row.expires > now then row.expires else now;
      row := row.(expires := base + days * MS_PER_DAY);
      row := row.(gigabytes := row.gigabytes + gigabytes);
      if path.Some? {
        row := row.(path := path.value);
      }
      accounts := accounts[k := row.(active := true)];
    }

    /** complete_renewal_approval, as far as the account goes: extend the row, then let it mirror the panel. */
    method CompleteRenewal(k: nat, order: Order, path: string, p: Provision, now: int)
      requires k < |accounts|
      modifies this`accounts
      ensures accounts == old(accounts)[k :=
        Mirrored(ExtendedAccount(old(accounts)[k], order.days, order.gigabytes, Some(path), now), p, now)]
    {
      ExtendAccount(k, order.days, order.gigabytes, Some(path), now);
      if p.totalBytes > 0 {
        accounts := accounts[k := accounts[k].(gigabytes := p.totalBytes / GB)];
      }
      if p.expiryMs > 0 && p.expiryMs > now {
        accounts := accounts[k := accounts[k].(expires := p.expiryMs)];
      }
    }

    /** Insert a row; the order id is unique in the table. */
    method Insert(a: Account) returns (ok: bool)
      modifies this`accounts
      ensures ok <==> !HasRow(old(accounts), a.order)
      ensures accounts == if ok then old(accounts) + [a] else old(accounts)
    {
      ok := !HasRow(accounts, a.order);
      if ok {
        accounts := accounts + [a];
      }
    }

    method UpsertAuto(o: nat, order: Order, path: string, p: Provision, now: int) returns (ok: bool)
      modifies this`accounts
      ensures ok ==> Upserted(old(accounts), accounts, o, order, path, p, now)
      ensures !ok ==> accounts == old(accounts) && HasRow(accounts, o)
    {
      var expires := PanelExpiry(p, order.days, now);
      var found := FindLatest(order.user);
      if found.Some? {
        var k := found.value;
        accounts := accounts[k := accounts[k].(path := path, expires := expires)];
        if p.totalBytes > 0 {
          accounts := accounts[k := accounts[k].(gigabytes := p.totalBytes / GB)];
        }
        accounts := accounts[k := accounts[k].(active := true)];
        ParkDuplicates(order.user, k);
        assert RefreshedAt(old(accounts), accounts, k, order, path, p, now);
        return true;
      }
      ok := Insert(NewAutoAccount(o, order, path, p, now));
    }

    /** The panel answers, has a live selected inbound, and can take this order. */
    ghost predicate PanelWillServe(order: Order, site: Site)
      reads provisioner, provisioner.panel
    {
      && site.ready && provisioner.panel.reliable
      && provisioner.selected * provisioner.panel.live != {}
      && Providable(provisioner.panel.clients, ClientEmail(order.user), Wants(order))
    }

    /** _try_auto_provision. */
    method TryPanel(order: Order, site: Site, comment: string, now: int) returns (p: Option<Provision>)
      requires provisioner.panel.Valid()
      modifies provisioner, provisioner.panel
      ensures provisioner.panel.Valid() && accounts == old(accounts) && configs == old(configs)
      ensures p.None? ==> PanelTried(old(S()).clients, S().clients, order, site, now)
      ensures p.Some? ==> site.ready && ProvisionedFor(old(S()).clients, S().clients, order, now, p)
      ensures old(PanelWillServe(order, site)) ==> p.Some?
    {
      p := None;
      if site.ready {
        ghost var wanted := provisioner.selected * provisioner.panel.live;
        p := provisioner.Provision(ClientEmail(order.user), Wants(order), comment, now);
        assert Provisioned(old(S()).clients, S().clients, ClientEmail(order.user), Wants(order), now, wanted, p);
      }
    }

    /** fulfil_paid_order. */
    method Fulfill(o: nat, order: Order, site: Site, comment: string, now: int) returns (route: Route)
      requires provisioner.panel.Valid()
      modifies this, provisioner, provisioner.panel
      ensures provisioner.panel.Valid()
      ensures Served(old(S()), S(), o, order, route, site, now)
      ensures old(PanelWillServe(order, site)) && order.renews.None? && !HasRow(old(accounts), o) ==> route == NewAuto
      ensures old(PanelWillServe(order, site)) && KnownRenewal(old(accounts), order) ==> route == RenewalAuto
    {
      if order.renews.Some? {
        route := FulfillRenewal(o, order, site, comment, now);
        return;
      }
      var p := TryPanel(order, site, comment, now);
      if p.Some? {
        route := FulfillOnPanel(o, order, site, p.value, now, old(S()));
      } else {
        route := FulfillFromStock(o, order, site, now, old(S()));
      }
    }

    method FulfillOnPanel(o: nat, order: Order, site: Site, p: Provision, now: int, ghost b: Stock)
      returns (route: Route)
      requires order.renews.None? && site.ready && b.accounts == accounts && b.configs == configs
      requires ProvisionedFor(b.clients, S().clients, order, now, Some(p))
      modifies this`accounts
      ensures Served(b, S(), o, order, route, site, now)
      ensures !HasRow(b.accounts, o) ==> route == NewAuto
    {
      var ok := UpsertAuto(o, order, SubscriptionUrl(site, p.subId), p, now);
      if ok {
        assert ServedAuto(b, S(), o, order, site, now, p);
        return NewAuto;
      }
      route := NeedsManual;
    }

    method FulfillFromStock(o: nat, order: Order, site: Site, now: int, ghost b: Stock) returns (route: Route)
      requires order.renews.None? && b.accounts == accounts && b.configs == configs
      requires PanelTried(b.clients, S().clients, order, site, now)
      modifies this`accounts, this`configs
      ensures Served(b, S(), o, order, route, site, now)
    {
      if order.plan.None? { return NeedsManual; }
      var saved := configs;
      var taken := AssignConfig(order.plan.value, o);
      if taken.None? { return NeedsManual; }
      var ok := Insert(InventoryAccount(o, order, taken.value, saved[taken.value].text, now));
      if !ok {
        configs := saved;
        return NeedsManual;
      }
      assert ServedFromStock(b, S(), o, order, site, now, taken.value);
      route := NewInventory;
    }

    method FulfillRenewal(o: nat, order: Order, site: Site, comment: string, now: int) returns (route: Route)
      requires provisioner.panel.Valid() && order.renews.Some?
      modifies this, provisioner, provisioner.panel
      ensures provisioner.panel.Valid()
      ensures Served(old(S()), S(), o, order, route, site, now)
      ensures old(PanelWillServe(order, site)) && KnownRenewal(old(accounts), order) ==> route == RenewalAuto
    {
      var k := order.renews.value;
      if k >= |accounts| || accounts[k].user != order.user { return NeedsManual; }
      if !site.ready {
        ExtendAccount(k, order.days, order.gigabytes, None, now);
        return RenewalDb;
      }
      var p := TryPanel(order, site, comment, now);
      if p.None? { return NeedsManual; }
      CompleteRenewal(k, order, SubscriptionUrl(site, p.value.subId), p.value, now);
      assert RenewedAuto(old(S()), S(), order, site, now, p.value);
      route := RenewalAuto;
    }
  }
}
