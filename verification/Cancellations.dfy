/** Which orders end cancelled: only the cleanup cancels, and only what was abandoned when it ran. */
module Cancellations {
  import opened Results
  import opened Schema
  import opened Handlers
  import opened Operations
  import opened Machine
  import opened Referrals
  import opened Runs
  import opened Requests

  predicate CancelsNone(before: seq<Order>, after: seq<Order>) {
    && |before| <= |after|
    && (forall o | 0 <= o < |before| && after[o].status == Cancelled :: before[o].status == Cancelled)
    && (forall o | |before| <= o < |after| :: after[o].status != Cancelled)
  }

  lemma RestatedCancelsNone(before: seq<Order>, after: seq<Order>, o: nat)
    requires o < |before| == |after| && after == before[o := after[o]] && after[o].status != Cancelled
    ensures CancelsNone(before, after)
  {
  }

  lemma AppendedCancelsNone(before: seq<Order>, order: Order)
    requires order.status != Cancelled
    ensures CancelsNone(before, before + [order])
  {
  }

  lemma CancelsNoneTwice(a: seq<Order>, b: seq<Order>, c: seq<Order>)
    requires CancelsNone(a, b) && CancelsNone(b, c) && |c| == |b|
    ensures CancelsNone(a, c)
  {
  }

  lemma DeliveryCancelsNone(h: Handover, route: Route)
    ensures CancelsNone(h.t.orders, Deliver(h, route).orders) && |Deliver(h, route).orders| == |h.t.orders|
  {
    DeliverSettles(h, route);
    if Deliver(h, route) != h.t {
      RestatedCancelsNone(h.t.orders, Deliver(h, route).orders, h.o);
    }
  }

  lemma TakingCancelsNone(t: Tables, op: Op)
    requires Sound(t) && HandedOver(t, op).Some?
    ensures CancelsNone(t.orders, HandedOver(t, op).value.t.orders)
  {
    var h := HandedOver(t, op).value;
    match op
    case PayWallet(user, o, _) =>
      TakeWalletSound(t, user, o);
      RestatedCancelsNone(t.orders, h.t.orders, o);
    case StarsPaid(user, o, _) => RestatedCancelsNone(t.orders, h.t.orders, o);
    case ApprovePayment(_, _) =>
    case TakeTrial(user, enabled, days, gigabytes, subscribed, now, _) =>
      AppendedCancelsNone(t.orders, TrialOrder(user, days, gigabytes, now));
      assert h.t.orders == t.orders + [TrialOrder(user, days, gigabytes, now)];
  }

  lemma QuietOrderCancelsNone(t: Tables, op: Op)
    requires Sound(t) && Handle(t, op).Success? && (op.UploadReceipt? || op.RejectPayment? || op.StarsPaid?)
    requires HandedOver(t, op).None?
    ensures CancelsNone(t.orders, Apply(t, op).orders)
  {
    var after := Apply(t, op).orders;
    match op
    case UploadReceipt(user, o) => RestatedCancelsNone(t.orders, after, o);
    case RejectPayment(p) => RestatedCancelsNone(t.orders, after, t.payments[p].order);
    case _ =>
  }

  lemma QuietCancelsNone(t: Tables, op: Op)
    requires Sound(t) && HandedOver(t, op).None? && Handle(t, op).Success? && !op.CancelStale?
    ensures CancelsNone(t.orders, Apply(t, op).orders)
  {
    var after := Apply(t, op).orders;
    match op
    case CreateOrder(user, offer, now) => AppendedCancelsNone(t.orders, NewOrder(user, offer, now));
    case RenewUser(user, account, now) => AppendedCancelsNone(t.orders, after[|t.orders|]);
    case ClaimStars(user, o) => RestatedCancelsNone(t.orders, after, o);
    case RevertStars(o) => if after != t.orders { RestatedCancelsNone(t.orders, after, o); }
    case UploadReceipt(_, _) => QuietOrderCancelsNone(t, op);
    case RejectPayment(_) => QuietOrderCancelsNone(t, op);
    case StarsPaid(_, _, _) => QuietOrderCancelsNone(t, op);
    case _ =>
  }

  /** No step but the cleanup cancels an order, old or new. */
  lemma OnlyCleanupCancels(t: Tables, op: Op)
    requires Sound(t) && !op.CancelStale?
    ensures CancelsNone(t.orders, Apply(t, op).orders)
  {
    if HandedOver(t, op).Some? {
      var h := HandedOver(t, op).value;
      TakingCancelsNone(t, op);
      DeliveryCancelsNone(h, op.route);
      ApplyDelivers(t, op);
      CancelsNoneTwice(t.orders, h.t.orders, Apply(t, op).orders);
    } else if Handle(t, op).Success? {
      QuietCancelsNone(t, op);
    }
  }

  /** The order is there, nobody has paid for it, and it is older than the cutoff. */
  predicate Abandoned(t: Tables, o: nat, cutoff: int) {
    && o < |t.orders|
    && (t.orders[o].status == Pending || t.orders[o].status == AwaitingStars)
    && t.orders[o].created < cutoff
  }

  predicate IsCancelled(t: Tables, o: nat) {
    o < |t.orders| && t.orders[o].status == Cancelled
  }

  lemma StepCancelsIff(t: Tables, op: Op, o: nat)
    requires Healthy(t) && Possible(t, op)
    ensures IsCancelled(Apply(t, op), o) <==>
      IsCancelled(t, o) || (op.CancelStale? && Abandoned(t, o, op.cutoff))
  {
    if op.CancelStale? {
      CleanupTakesExactly(t, op.cutoff);
    } else {
      StepHealthy(t, op);
      OnlyCleanupCancels(t, op);
      CancelledStays(t, Apply(t, op), o);
    }
  }

  lemma CancelledStays(t: Tables, t': Tables, o: nat)
    requires Evolves(t, t') && CancelsNone(t.orders, t'.orders)
    ensures IsCancelled(t', o) <==> IsCancelled(t, o)
  {
    if IsCancelled(t, o) {
      EvolvesKeepsFinal(t, t', o);
    }
  }

  /** Event `k` of the run is a cleanup that meets the order abandoned. */
  ghost predicate MeetsCleanup(t: Tables, ops: seq<Op>, k: nat, o: nat) {
    k < |ops| && ops[k].CancelStale? && Abandoned(Run(t, ops[..k]), o, ops[k].cutoff)
  }

  lemma MeetsLater(t: Tables, ops: seq<Op>, k: nat, o: nat)
    requires ops != [] && k > 0
    ensures MeetsCleanup(t, ops, k, o) <==> MeetsCleanup(Apply(t, ops[0]), ops[1..], k - 1, o)
  {
    if k < |ops| {
      assert ops[..k][1..] == ops[1..][..k - 1];
    }
  }

  lemma {:induction false} CancelledFromIff(t: Tables, ops: seq<Op>, o: nat)
    requires Healthy(t) && AllPossible(t, ops)
    ensures IsCancelled(Run(t, ops), o) <==> IsCancelled(t, o) || exists k :: MeetsCleanup(t, ops, k, o)
    decreases |ops|
  {
    if ops != [] {
      var t1, rest := Apply(t, ops[0]), ops[1..];
      StepHealthy(t, ops[0]);
      StepCancelsIff(t, ops[0], o);
      CancelledFromIff(t1, rest, o);
      assert ops[..0] == [];
      assert MeetsCleanup(t, ops, 0, o) <==> ops[0].CancelStale? && Abandoned(t, o, ops[0].cutoff);
      if k: nat :| MeetsCleanup(t1, rest, k, o) {
        MeetsLater(t, ops, k + 1, o);
        assert MeetsCleanup(t, ops, k + 1, o);
      }
      if k: nat :| MeetsCleanup(t, ops, k, o) && k > 0 {
        MeetsLater(t, ops, k, o);
        assert MeetsCleanup(t1, rest, k - 1, o);
      }
    }
  }

  /** Over any run an order ends cancelled if and only if some cleanup met it unpaid and older than its cutoff. */
  lemma CancelledIff(ops: seq<Op>, o: nat)
    requires AllPossible(EMPTY, ops) && o < |Run(EMPTY, ops).orders|
    ensures Run(EMPTY, ops).orders[o].status == Cancelled <==>
      exists k :: MeetsCleanup(EMPTY, ops, k, o)
  {
    EmptyHealthy();
    CancelledFromIff(EMPTY, ops, o);
  }

  lemma {:induction false} AllPossibleBefore(t: Tables, ops: seq<Op>, k: nat)
    requires AllPossible(t, ops) && k <= |ops|
    ensures AllPossible(t, ops[..k]) && AllPossible(Run(t, ops[..k]), ops[k..])
    ensures Run(Run(t, ops[..k]), ops[k..]) == Run(t, ops)
    decreases k
  {
    if k == 0 {
      assert ops[..0] == [] && ops[0..] == ops;
    } else {
      AllPossibleBefore(Apply(t, ops[0]), ops[1..], k - 1);
      assert ops[..k][1..] == ops[1..][..k - 1] && ops[1..][k - 1..] == ops[k..];
    }
  }

  /** An order that was created at or after every cutoff in use is never cancelled. */
  lemma FreshOrdersSurvive(ops: seq<Op>, o: nat)
    requires AllPossible(EMPTY, ops) && o < |Run(EMPTY, ops).orders|
    requires forall k | 0 <= k < |ops| && ops[k].CancelStale? :: Run(EMPTY, ops).orders[o].created >= ops[k].cutoff
    ensures Run(EMPTY, ops).orders[o].status != Cancelled
  {
    CancelledIff(ops, o);
    if k: nat :| MeetsCleanup(EMPTY, ops, k, o) {
      AllPossibleBefore(EMPTY, ops, k);
      EmptyHealthy();
      RunHealthy(EMPTY, ops[..k]);
      RunHealthy(Run(EMPTY, ops[..k]), ops[k..]);
      EvolvesKeepsFinal(Run(EMPTY, ops[..k]), Run(EMPTY, ops), o);
    }
  }
}
