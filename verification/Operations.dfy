/** Every step the shop can take, and runs as sequences of steps. */
module Operations {
  import opened Results
  import opened Schema
  import opened Handlers

  datatype Op =
    | Register(id: int, code: string, link: string)
    | CreateOrder(user: int, offer: Offer, now: int)
    | PayWallet(user: int, o: nat, route: Route)
    | ClaimStars(user: int, o: nat)
    | RevertStars(o: nat)
    | StarsPaid(user: int, o: nat, route: Route)
    | UploadReceipt(user: int, o: nat)
    | ApprovePayment(p: nat, route: Route)
    | RejectPayment(p: nat)
    | RequestTopUp(user: int, amount: int)
    | ApproveTopUp(i: nat)
    | RejectTopUp(i: nat)
    | CreditUser(user: int, amount: int)
    | TakeTrial(user: int, enabled: bool, days: int, gigabytes: int, subscribed: bool, now: int, route: Route)
    | RenewUser(user: int, account: Option<nat>, now: int)
    | CancelStale(cutoff: int)
    | CreatePromo(code: string, kind: PromoKind, value: int, maxUses: int)
    | TogglePromo(code: string)

  ghost function Handle(t: Tables, op: Op): Outcome {
    match op
    case Register(id, code, link) => Handlers.Register(t, id, code, link)
    case CreateOrder(user, offer, now) => Handlers.CreateOrder(t, user, offer, now)
    case PayWallet(user, o, route) => Handlers.PayWallet(t, user, o, route)
    case ClaimStars(user, o) => Handlers.ClaimStars(t, user, o)
    case RevertStars(o) => Handlers.RevertStars(t, o)
    case StarsPaid(user, o, route) => Handlers.StarsPaid(t, user, o, route)
    case UploadReceipt(user, o) => Handlers.UploadReceipt(t, user, o)
    case ApprovePayment(p, route) => Handlers.ApprovePayment(t, p, route)
    case RejectPayment(p) => Handlers.RejectPayment(t, p)
    case RequestTopUp(user, amount) => Handlers.RequestTopUp(t, user, amount)
    case ApproveTopUp(i) => Handlers.ApproveTopUp(t, i)
    case RejectTopUp(i) => Handlers.RejectTopUp(t, i)
    case CreditUser(user, amount) => Handlers.CreditUser(t, user, amount)
    case TakeTrial(user, enabled, days, gigabytes, subscribed, now, route) =>
      Handlers.TakeTrial(t, user, enabled, days, gigabytes, subscribed, now, route)
    case RenewUser(user, account, now) => Handlers.RenewUser(t, user, account, now)
    case CancelStale(cutoff) => Handlers.CancelStale(t, cutoff)
    case CreatePromo(code, kind, value, maxUses) => Handlers.CreatePromo(t, code, kind, value, maxUses)
    case TogglePromo(code) => Handlers.TogglePromo(t, code)
  }

  /** A refused request leaves the tables alone. */
  ghost function Apply(t: Tables, op: Op): Tables {
    match Handle(t, op)
    case Success(t') => t'
    case Failure(_) => t
  }

  /** The payment that this step takes in and hands to delivery, if any. */
  function HandedOver(t: Tables, op: Op): Option<Handover> {
    var h :=
      match op
      case PayWallet(user, o, _) => TakeWallet(t, user, o)
      case StarsPaid(user, o, _) => TakeStars(t, user, o)
      case ApprovePayment(p, _) => ClaimReview(t, p)
      case TakeTrial(user, enabled, days, gigabytes, subscribed, now, _) =>
        ClaimTrial(t, user, enabled, days, gigabytes, subscribed, now)
      case _ => Failure(NotFound);
    match h
    case Success(handover) => Some(handover)
    case Failure(_) => None
  }

  /**
   What the order endpoint can put into an order: the offer comes from a quote, which
   never prices below zero and only names a code that was in the table when it ran.
   Codes are not deleted during a run.
   */
  predicate Possible(t: Tables, op: Op) {
    Priced(op) && (op.CreateOrder? && op.offer.promo.Some? ==> op.offer.promo.value in t.promos)
  }

  predicate Priced(op: Op) {
    op.CreateOrder? ==> op.offer.price >= 0
  }

  ghost function Run(t: Tables, ops: seq<Op>): Tables
    decreases |ops|
  {
    if ops == [] then t else Run(Apply(t, ops[0]), ops[1..])
  }

  ghost predicate AllPossible(t: Tables, ops: seq<Op>)
    decreases |ops|
  {
    ops == [] || (Possible(t, ops[0]) && AllPossible(Apply(t, ops[0]), ops[1..]))
  }
}
