/**
 The rows of the shop's database, as far as money and orders go.
 A table whose rows are never deleted is a sequence, indexed by insertion;
 a table with deletions or outside keys is a map.
 */
module Schema {
  import opened Results

  datatype OrderStatus = Pending | AwaitingStars | Paid | Completed | Rejected | Cancelled

  /** The stored strings "pending", "approved", "rejected" and "duplicate". */
  datatype PaymentStatus = Unreviewed | Approved | Refused | Duplicate

  datatype Channel = Card | Stars | Wallet | Trial

  datatype TopUpStatus = Requested | Granted | Declined

  datatype PromoKind = Days | Gigabytes | Percent

  /** The kind that fulfil_paid_order reports for a delivery attempt. */
  datatype Route = RenewalAuto | RenewalDb | NewAuto | NewInventory | NeedsManual {
    predicate Delivers() {
      !NeedsManual?
    }

    predicate Renews() {
      RenewalAuto? || RenewalDb?
    }
  }

  /** `born` is the position in the order of creation (created_at). */
  datatype User = User(
    balance: int,
    earned: int,
    trialUsed: bool,
    code: string,
    referredBy: Option<int>,
    born: nat)

  /** `route` remembers how the order was delivered; the program only reports it. */
  datatype Order = Order(
    user: int,
    days: int,
    gigabytes: int,
    price: int,
    plan: Option<string>,
    devices: int,
    renews: Option<nat>,
    promo: Option<string>,
    discounted: bool,
    trial: bool,
    created: int,
    debit: int,
    cashback1: bool,
    cashback2: bool,
    status: OrderStatus,
    route: Option<Route>)

  datatype Payment = Payment(order: nat, status: PaymentStatus, channel: Channel)

  datatype TopUp = TopUp(user: int, requested: int, credited: Option<int>, status: TopUpStatus)

  datatype Promo = Promo(kind: PromoKind, value: int, maxUses: int, used: int, active: bool, expires: Option<int>)

  /** History of cashback credits: one entry for each credit to a wallet. */
  datatype Payout = Payout(order: nat, buyer: int, level: nat, to: int, amount: int)

  /** History of credits an admin made by hand. */
  datatype Grant = Grant(user: int, amount: int)

  datatype Tables = Tables(
    users: map<int, User>,
    orders: seq<Order>,
    payments: map<nat, Payment>,
    nextPayment: nat,
    topups: seq<TopUp>,
    promos: map<string, Promo>,
    payouts: seq<Payout>,
    grants: seq<Grant>)

  const EMPTY := Tables(map[], [], map[], 0, [], map[], [], [])
}
