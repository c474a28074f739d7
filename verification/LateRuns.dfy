/**
 Runs in which late writes are events like any other: receipts, Stars payments, top-up
 decisions and cleanups that act on what they read earlier, and deletions of promo codes.
 */
module LateRuns {
  import opened Results
  import opened Schema
  import opened Handlers
  import opened Operations
  import opened Machine
  import opened Ledger
  import opened Referrals
  import opened Cashback
  import opened StaleWrites
  import PromoCounters

  datatype Event =
    | OnTime(op: Op)
    | Deletion(code: string)
    | Payment(o: nat, channel: Channel)
    | Approval(i: nat)
    | Rejection(i: nat)
    | Cleanup(ids: set<nat>, seen: map<string, int>)

  /** A write that fails commits nothing. */
  function Committed(t: Tables, outcome: Outcome): Tables {
    match outcome
    case Success(t') => t'
    case Failure(_) => t
  }

  ghost function Next(t: Tables, e: Event): Tables {
    match e
    case OnTime(op) => Apply(t, op)
    case Deletion(code) => Committed(t, DeletePromo(t, code))
    case Payment(o, channel) => if o < |t.orders| then Committed(t, LatePayment(t, o, channel)) else t
    case Approval(i) => if i < |t.topups| then Committed(t, LateApproval(t, i)) else t
    case Rejection(i) => if i < |t.topups| then LateRejection(t, i) else t
    case Cleanup(ids, seen) => Committed(t, LateCleanup(t, ids, seen))
  }

  /** Orders, payments, wallets, counters, referrals, cashback and top-ups are all right. */
  ghost predicate Right(t: Tables) {
    && Sound(t) && Solvent(t) && PromoCounters.CountersTrue(t)
    && Forest(t) && Rewarded(t) && TopUpsFit(t)
  }

  predicate TopUpsLater(t: Tables, t': Tables) {
    |t.topups| <= |t'.topups| && forall i | 0 <= i < |t.topups| :: TopUpLater(t.topups[i], t'.topups[i])
  }

  /** Rows only move forward; codes may go. */
  ghost predicate Forward(t: Tables, t': Tables) {
    Evolves(t, t'.(promos := t.promos)) && TopUpsLater(t, t')
  }

  predicate PricedEvent(e: Event) {
    e.OnTime? ==> Priced(e.op)
  }

  /** What the event must still find when it writes. */
  ghost predicate Timely(t: Tables, e: Event) {
    match e
    case OnTime(op) => !PromoCounters.Recreates(t, op)
    case Deletion(_) => true
    case Payment(o, _) => o < |t.orders| && !HasPaymentIn(t, o, {Unreviewed}) ==> Waiting(t.orders[o].status)
    case Approval(i) => i < |t.topups| ==> t.topups[i].status == Requested
    case Rejection(i) => i < |t.topups| ==> t.topups[i].status != Granted
    case Cleanup(ids, seen) =>
      LostCode(t, ids, seen) || (StillOpen(t.orders, ids) && CountersFollow(t, ids, seen))
  }

  // --- one event ------------------------------------------------------------

  lemma StaysRight(t: Tables)
    requires Right(t)
    ensures Forward(t, t)
  {
    EvolvesReflexive(t);
  }

  lemma OnTimeIff(t: Tables, op: Op)
    requires Right(t) && Priced(op)
    ensures Right(Apply(t, op)) && Forward(t, Apply(t, op)) <==> !PromoCounters.Recreates(t, op)
  {
    PromoCounters.StepCountersIff(t, op);
    if !PromoCounters.Recreates(t, op) {
      StepSound(t, op);
      StepSolvent(t, op);
      StepForest(t, op);
      StepRewarded(t, op);
      StepTopUps(t, op);
      ForwardOf(t, Apply(t, op));
    }
  }

  lemma ForwardOf(t: Tables, t': Tables)
    requires Evolves(t, t') && TopUpsLater(t, t')
    ensures Forward(t, t')
  {
  }

  /** Nothing but promo codes changed. */
  lemma PromosOnlyRight(t: Tables, t': Tables)
    requires Right(t) && t' == t.(promos := t'.promos) && PromoCounters.CountersTrue(t')
    ensures Right(t') && Forward(t, t')
  {
    PromoCounters.DeletionSound(t, t');
    SameDebitsSolvent(t, t');
    PromosOnlyRewarded(t, t');
    EvolvesReflexive(t);
    assert t'.(promos := t.promos) == t;
  }

  lemma PromosOnlyRewarded(t: Tables, t': Tables)
    requires Rewarded(t) && t' == t.(promos := t'.promos)
    ensures Rewarded(t')
  {
    forall k | 0 <= k < |t'.payouts|
      ensures Marks(t', t'.payouts[k])
    {
      assert Marks(t, t.payouts[k]);
    }
  }

  lemma DeletionRight(t: Tables, code: string)
    requires Right(t)
    ensures Right(Next(t, Deletion(code))) && Forward(t, Next(t, Deletion(code)))
  {
    var t' := Next(t, Deletion(code));
    assert forall c | c in t'.promos :: PromoCounters.Counted(t, c);
    PromosOnlyRight(t, t');
  }

  /** Orders and payments moved, and no money, code, customer, payout or top-up did. */
  lemma OrdersOnlyRight(t: Tables, t': Tables)
    requires Right(t) && Sound(t') && Evolves(t, t') && PromoCounters.CountersTrue(t')
    requires t' == t.(orders := t'.orders, payments := t'.payments, nextPayment := t'.nextPayment, promos := t'.promos)
    requires |t'.orders| == |t.orders|
    requires forall o | 0 <= o < |t.orders| :: t'.orders[o].debit == t.orders[o].debit
    ensures Right(t') && Forward(t, t')
  {
    assert forall o | 0 <= o < |t.orders| :: OrderLater(t.orders[o], t'.orders[o]);
    SameDebitsSolvent(t, t');
    EvolvesRewarded(t, t');
    ForwardOf(t, t');
  }

  lemma LatePaymentCounters(t: Tables, o: nat, channel: Channel)
    requires PromoCounters.CountersTrue(t) && o < |t.orders| && Waiting(t.orders[o].status)
    requires LatePayment(t, o, channel).Success?
    ensures PromoCounters.CountersTrue(LatePayment(t, o, channel).value)
  {
    PromoCounters.KeepsCodesCounted(t, LatePayment(t, o, channel).value);
  }

  lemma PaymentRight(t: Tables, t': Tables, o: nat, channel: Channel)
    requires Right(t) && o < |t.orders| && Waiting(t.orders[o].status) && LatePayment(t, o, channel) == Success(t')
    ensures Right(t') && Forward(t, t')
  {
    LatePaymentIsSafeIff(t, o, channel);
    LatePaymentCounters(t, o, channel);
    OrdersOnlyRight(t, t');
  }

  lemma PaymentWrong(t: Tables, t': Tables, o: nat, channel: Channel)
    requires Sound(t) && o < |t.orders| && !Waiting(t.orders[o].status) && LatePayment(t, o, channel) == Success(t')
    ensures !Sound(t') || !Forward(t, t')
  {
    LatePaymentIsSafeIff(t, o, channel);
    assert t'.(promos := t.promos) == t';
  }

  lemma PaymentIff(t: Tables, t': Tables, o: nat, channel: Channel)
    requires Right(t) && o < |t.orders| && t' == Committed(t, LatePayment(t, o, channel))
    ensures Right(t') && Forward(t, t') <==> (!HasPaymentIn(t, o, {Unreviewed}) ==> Waiting(t.orders[o].status))
  {
    LatePaymentStoredIff(t, o, channel);
    if HasPaymentIn(t, o, {Unreviewed}) {
      StaysRight(t);
    } else if Waiting(t.orders[o].status) {
      PaymentRight(t, t', o, channel);
    } else {
      PaymentWrong(t, t', o, channel);
    }
  }

  /** A decision that is made in time is the shop's own transaction. */
  lemma InTimeRight(t: Tables, t': Tables, op: Op)
    requires Right(t) && (op.ApproveTopUp? || op.RejectTopUp?) && Handle(t, op) == Success(t')
    ensures Right(t') && Forward(t, t')
  {
    OnTimeIff(t, op);
  }

  lemma TopUpBackwards(t: Tables, t': Tables, i: nat)
    requires i < |t.topups| == |t'.topups| && !TopUpLater(t.topups[i], t'.topups[i])
    ensures !Forward(t, t')
  {
  }

  lemma ApprovalWrong(t: Tables, t': Tables, i: nat)
    requires Solvent(t) && TopUpsFit(t) && i < |t.topups| && t.topups[i].status != Requested
    requires LateApproval(t, i) == Success(t')
    ensures !Solvent(t') || !Forward(t, t')
  {
    LateApprovalIsSafeIff(t, i);
    if Solvent(t') {
      TopUpBackwards(t, t', i);
    }
  }

  lemma ApprovalRight(t: Tables, t': Tables, i: nat)
    requires Right(t) && i < |t.topups| && t.topups[i].status == Requested && LateApproval(t, i) == Success(t')
    ensures Right(t') && Forward(t, t')
  {
    InTimeRight(t, t', Op.ApproveTopUp(i));
  }

  lemma ApprovalSucceeds(t: Tables, i: nat)
    requires Solvent(t) && TopUpsFit(t) && i < |t.topups|
    ensures LateApproval(t, i).Success?
  {
    LateApprovalMoves(t, i);
  }

  lemma ApprovalIff(t: Tables, t': Tables, i: nat)
    requires Right(t) && i < |t.topups| && LateApproval(t, i) == Success(t')
    ensures Right(t') && Forward(t, t') <==> t.topups[i].status == Requested
  {
    if t.topups[i].status == Requested {
      ApprovalRight(t, t', i);
    } else {
      ApprovalWrong(t, t', i);
    }
  }

  lemma RejectionIff(t: Tables, t': Tables, i: nat)
    requires Right(t) && i < |t.topups| && t' == LateRejection(t, i)
    ensures Right(t') && Forward(t, t') <==> t.topups[i].status != Granted
  {
    match t.topups[i].status
    case Requested => InTimeRight(t, t', Op.RejectTopUp(i));
    case Declined =>
      assert t' == t;
      StaysRight(t);
    case Granted => LateRejectionIsSafeIff(t, i);
  }

  lemma CleanupRight(t: Tables, t': Tables, ids: set<nat>, seen: map<string, int>)
    requires Right(t) && t' == CleanedUp(t, ids, seen) && StillOpen(t.orders, ids) && CountersFollow(t, ids, seen)
    ensures Right(t') && Forward(t, t')
  {
    LateCleanupIsSafeIff(t, ids, seen);
    LateCleanupCountsIff(t, ids, seen);
    OrdersOnlyRight(t, t');
  }

  lemma CleanupWrong(t: Tables, t': Tables, ids: set<nat>, seen: map<string, int>)
    requires Sound(t) && PromoCounters.CountersTrue(t) && t' == CleanedUp(t, ids, seen)
    requires !(StillOpen(t.orders, ids) && CountersFollow(t, ids, seen))
    ensures !(Right(t') && Forward(t, t'))
  {
    LateCleanupIsSafeIff(t, ids, seen);
    LateCleanupCountsIff(t, ids, seen);
    if Forward(t, t') {
      EvolvesWithCodes(t, t');
    }
  }

  lemma EvolvesWithCodes(t: Tables, t': Tables)
    requires Forward(t, t') && t.promos.Keys <= t'.promos.Keys
    ensures Evolves(t, t')
  {
  }

  lemma CleanupIff(t: Tables, t': Tables, ids: set<nat>, seen: map<string, int>)
    requires Right(t) && t' == Committed(t, LateCleanup(t, ids, seen))
    ensures Right(t') && Forward(t, t') <==>
      LostCode(t, ids, seen) || (StillOpen(t.orders, ids) && CountersFollow(t, ids, seen))
  {
    if LostCode(t, ids, seen) {
      StaysRight(t);
    } else if StillOpen(t.orders, ids) && CountersFollow(t, ids, seen) {
      CleanupRight(t, t', ids, seen);
    } else {
      CleanupWrong(t, t', ids, seen);
    }
  }

  /** From a right state, an event leads to a right one and moves rows forward exactly if it is timely. */
  lemma NextRightIff(t: Tables, e: Event)
    requires Right(t) && PricedEvent(e)
    ensures Right(Next(t, e)) && Forward(t, Next(t, e)) <==> Timely(t, e)
  {
    match e
    case OnTime(op) => OnTimeIff(t, op);
    case Deletion(code) => DeletionRight(t, code);
    case Payment(o, channel) => if o < |t.orders| { PaymentIff(t, Next(t, e), o, channel); } else { StaysRight(t); }
    case Approval(i) =>
      if i < |t.topups| {
        ApprovalSucceeds(t, i);
        ApprovalIff(t, Next(t, e), i);
      } else {
        StaysRight(t);
      }
    case Rejection(i) => if i < |t.topups| { RejectionIff(t, Next(t, e), i); } else { StaysRight(t); }
    case Cleanup(ids, seen) => CleanupIff(t, Next(t, e), ids, seen);
  }

  // --- whole runs -----------------------------------------------------------

  ghost predicate RightAllTheWay(t: Tables, es: seq<Event>)
    decreases |es|
  {
    && Right(t)
    && (es == [] || (Forward(t, Next(t, es[0])) && RightAllTheWay(Next(t, es[0]), es[1..])))
  }

  ghost predicate AllTimely(t: Tables, es: seq<Event>)
    decreases |es|
  {
    es == [] || (Timely(t, es[0]) && AllTimely(Next(t, es[0]), es[1..]))
  }

  lemma {:induction false} RightFromIff(t: Tables, es: seq<Event>)
    requires Right(t) && forall k | 0 <= k < |es| :: PricedEvent(es[k])
    ensures RightAllTheWay(t, es) <==> AllTimely(t, es)
    decreases |es|
  {
    if es != [] {
      var t', rest := Next(t, es[0]), es[1..];
      NextRightIff(t, es[0]);
      if Right(t') {
        RightFromIff(t', rest);
      }
    }
  }

  /**
   From the empty shop: orders, payments, wallets, counters, referrals, cashback and top-ups
   are right all the way and no row moves backwards, exactly if every event was timely.
   */
  lemma RightAllTheWayIff(es: seq<Event>)
    requires forall k | 0 <= k < |es| :: PricedEvent(es[k])
    ensures RightAllTheWay(EMPTY, es) <==> AllTimely(EMPTY, es)
  {
    assert Right(EMPTY);
    RightFromIff(EMPTY, es);
  }
}
