/**
 Writes that follow a read without a condition of their own. Each lemma says which state
 such a write must still find: the status that was read, or one that does no harm.
 */
module StaleWrites {
  import opened Results
  import opened Sums
  import opened Schema
  import opened Handlers
  import opened Operations
  import opened Machine
  import opened Ledger
  import opened PromoCounters

  // --- payments -------------------------------------------------------------

  /** The receipt and the Stars handler once their checks have passed: pay the order, add a pending payment. */
  function LatePayment(t: Tables, o: nat, channel: Channel): Outcome
    requires o < |t.orders|
  {
    AddPayment(MarkPaid(t, o, t.orders[o].debit), o, Unreviewed, channel)
  }

  /**
   A late payment is stored exactly if no other payment of the order is pending then; otherwise
   nothing is recorded.
   */
  lemma LatePaymentStoredIff(t: Tables, o: nat, channel: Channel)
    requires o < |t.orders|
    ensures LatePayment(t, o, channel).Success? <==> !HasPaymentIn(t, o, {Unreviewed})
  {
  }

  /** Whichever order awaits Stars: if two confirmations both read it so, the second one leaves no trace. */
  lemma SecondStarsPaymentLost(t: Tables, user: int, o: nat)
    requires Sound(t) && TakeStars(t, user, o).Success?
    ensures LatePayment(TakeStars(t, user, o).value.t, o, Stars).Failure?
  {
    var t' := TakeStars(t, user, o).value.t;
    assert t'.payments[t.nextPayment] == Payment(o, Unreviewed, Stars);
  }

  lemma LatePaymentOnPaid(t: Tables, o: nat, channel: Channel)
    requires Sound(t) && o < |t.orders| && t.orders[o].status == Paid && LatePayment(t, o, channel).Success?
    ensures !Sound(LatePayment(t, o, channel).value)
  {
    var t' := LatePayment(t, o, channel).value;
    var p :| CountsAsPayment(t, p, o);
    assert t.nextPayment !in t.payments;
    assert CountsAsPayment(t', p, o) && CountsAsPayment(t', t.nextPayment, o);
  }

  /** A payment that is stored late keeps the machine exactly if the order still waits for one. */
  lemma LatePaymentIsSafeIff(t: Tables, o: nat, channel: Channel)
    requires Sound(t) && o < |t.orders| && LatePayment(t, o, channel).Success?
    ensures
      var t' := LatePayment(t, o, channel).value;
      Sound(t') && Evolves(t, t') <==> Waiting(t.orders[o].status)
  {
    var t' := LatePayment(t, o, channel).value;
    if Waiting(t.orders[o].status) {
      assert DebitFits(t.orders[o]);
      TakesPaymentSound(t, t', o, channel);
    } else if t.orders[o].status == Paid {
      LatePaymentOnPaid(t, o, channel);
    } else {
      assert t'.orders[o].status == Paid && !OrderLater(t.orders[o], t'.orders[o]);
    }
  }

  // --- top-ups --------------------------------------------------------------

  predicate TopUpFits(row: TopUp) {
    row.requested >= 1 && row.credited == if row.status == Granted then Some(row.requested) else None
  }

  predicate TopUpLater(a: TopUp, b: TopUp) {
    a == b || (a.status == Requested && b == a.(status := b.status, credited := b.credited))
  }

  predicate TopUpsFit(t: Tables) {
    forall i | 0 <= i < |t.topups| :: TopUpFits(t.topups[i])
  }

  lemma OtherStepsKeepTopUps(t: Tables, op: Op)
    requires !op.RequestTopUp? && !op.ApproveTopUp? && !op.RejectTopUp?
    ensures Apply(t, op).topups == t.topups
  {
    if HandedOver(t, op).Some? {
      ApplyDelivers(t, op);
      DeliverSettles(HandedOver(t, op).value, op.route);
    }
  }

  /** A top-up is decided once, and a granted one credited exactly what was requested. */
  lemma StepTopUps(t: Tables, op: Op)
    requires TopUpsFit(t)
    ensures
      var t' := Apply(t, op);
      && TopUpsFit(t') && |t.topups| <= |t'.topups|
      && forall i | 0 <= i < |t.topups| :: TopUpLater(t.topups[i], t'.topups[i])
  {
    if !op.RequestTopUp? && !op.ApproveTopUp? && !op.RejectTopUp? {
      OtherStepsKeepTopUps(t, op);
    }
  }

  lemma {:induction false} RunTopUps(t: Tables, ops: seq<Op>)
    requires TopUpsFit(t)
    ensures
      var t' := Run(t, ops);
      && TopUpsFit(t') && |t.topups| <= |t'.topups|
      && forall i | 0 <= i < |t.topups| :: TopUpLater(t.topups[i], t'.topups[i])
    decreases |ops|
  {
    if ops != [] {
      StepTopUps(t, ops[0]);
      RunTopUps(Apply(t, ops[0]), ops[1..]);
    }
  }

  /** admin_approve_topup once its check has passed. */
  function LateApproval(t: Tables, i: nat): Outcome
    requires i < |t.topups|
  {
    var row := t.topups[i];
    CreditBalance(
      t.(topups := t.topups[i := row.(status := Granted, credited := Some(row.requested))]), row.user, row.requested)
  }

  /** What the approval changes in the sums that explain the user's balance. */
  lemma LateApprovalMoves(t: Tables, i: nat)
    requires Solvent(t) && i < |t.topups| && TopUpFits(t.topups[i])
    ensures
      var row := t.topups[i];
      && LateApproval(t, i).Success?
      && row.user in t.users
      && (var t' := LateApproval(t, i).value;
          && t'.users == t.users[row.user := t.users[row.user].(balance := t.users[row.user].balance + row.requested)]
          && forall u | u in t.users :: Funding(t', u) ==
               Funding(t, u) + if u == row.user && row.status != Granted then row.requested else 0)
  {
    var row := t.topups[i];
    var t' := LateApproval(t, i).value;
    forall u | u in t.users
      ensures Funding(t', u) == Funding(t, u) + if u == row.user && row.status != Granted then row.requested else 0
    {
      SumUpdate(t.topups, i, t'.topups[i], TopUpOf(u));
    }
  }

  /** A late approval of a top-up keeps wallets and top-ups right exactly if it is still undecided. */
  lemma LateApprovalIsSafeIff(t: Tables, i: nat)
    requires Solvent(t) && i < |t.topups| && TopUpFits(t.topups[i])
    ensures LateApproval(t, i).Success?
    ensures
      var t' := LateApproval(t, i).value;
      Solvent(t') && TopUpLater(t.topups[i], t'.topups[i]) <==> t.topups[i].status == Requested
  {
    LateApprovalMoves(t, i);
    var t' := LateApproval(t, i).value;
    if t.topups[i].status == Requested {
      ApproveTopUpSolvent(t, i);
      assert LateApproval(t, i) == Handlers.ApproveTopUp(t, i);
    }
  }

  /** Two approvals that both read "pending" credit the request twice, and the balance is no longer explained. */
  lemma TwoApprovalsCreditTwice(t: Tables, i: nat)
    requires Solvent(t) && i < |t.topups| && TopUpFits(t.topups[i]) && t.topups[i].status == Requested
    ensures Handlers.ApproveTopUp(t, i).Success? && LateApproval(Handlers.ApproveTopUp(t, i).value, i).Success?
    ensures
      var row, t2 := t.topups[i], LateApproval(Handlers.ApproveTopUp(t, i).value, i).value;
      && row.user in t.users && row.user in t2.users
      && t2.users[row.user].balance == t.users[row.user].balance + 2 * row.requested
      && !Solvent(t2)
  {
    LateApprovalMoves(t, i);
    assert LateApproval(t, i) == Handlers.ApproveTopUp(t, i);
    ApproveTopUpSolvent(t, i);
    var t1 := Handlers.ApproveTopUp(t, i).value;
    LateApprovalMoves(t1, i);
    var t2 := LateApproval(t1, i).value;
    var u := t.topups[i].user;
    assert u in t2.users && t2.users[u].balance != Funding(t2, u) + t2.users[u].earned;
  }

  function LateRejection(t: Tables, i: nat): Tables
    requires i < |t.topups|
  {
    t.(topups := t.topups[i := t.topups[i].(status := Declined)])
  }

  /** A late rejection is harmless exactly if the top-up was not granted in between. */
  lemma LateRejectionIsSafeIff(t: Tables, i: nat)
    requires Solvent(t) && i < |t.topups| && TopUpFits(t.topups[i])
    ensures Solvent(LateRejection(t, i)) <==> t.topups[i].status != Granted
  {
    var t' := LateRejection(t, i);
    forall u | u in t.users
      ensures Funding(t', u) ==
        Funding(t, u) - if u == t.topups[i].user && t.topups[i].status == Granted then t.topups[i].requested else 0
    {
      SumUpdate(t.topups, i, t'.topups[i], TopUpOf(u));
    }
    assert t.topups[i].user in t.users;
  }

  // --- cleanup --------------------------------------------------------------

  /** How many of the selected orders carry the code, and how many of those still hold it. */
  function Picked(orders: seq<Order>, ids: set<nat>, code: string): nat {
    if orders == [] then 0
    else
      var last := |orders| - 1;
      Picked(orders[..last], ids, code) + if last in ids && orders[last].promo == Some(code) then 1 else 0
  }

  function PickedHolding(orders: seq<Order>, ids: set<nat>, code: string): nat {
    if orders == [] then 0
    else
      var last := |orders| - 1;
      PickedHolding(orders[..last], ids, code)
      + if last in ids && orders[last].promo == Some(code) && orders[last].status != Cancelled then 1 else 0
  }

  function CancelledOrders(orders: seq<Order>, ids: set<nat>): seq<Order> {
    seq(|orders|, i requires 0 <= i < |orders| => if i in ids then orders[i].(status := Cancelled) else orders[i])
  }

  /** What the cleanup writes back for a counter that read `seen`, if that changes it. */
  function WrittenBack(seen: int, count: nat): Option<int> {
    if count == 0 || Max(seen - count, 0) == seen then None else Some(Max(seen - count, 0))
  }

  /** The counter of a code after the cleanup; a code that was not there when the cleanup looked is left alone. */
  function UsedAfter(t: Tables, ids: set<nat>, seen: map<string, int>, code: string): int
    requires code in t.promos
  {
    var written := if code in seen then WrittenBack(seen[code], Picked(t.orders, ids, code)) else None;
    if written.Some? then written.value else t.promos[code].used
  }

  /** A code was deleted between the read of its counter and the write. */
  predicate LostCode(t: Tables, ids: set<nat>, seen: map<string, int>) {
    exists c | c in seen :: c !in t.promos && WrittenBack(seen[c], Picked(t.orders, ids, c)).Some?
  }

  function CleanedUp(t: Tables, ids: set<nat>, seen: map<string, int>): Tables {
    t.(promos := map c | c in t.promos :: t.promos[c].(used := UsedAfter(t, ids, seen, c)),
       payments := map p | p in t.payments && !(t.payments[p].order in ids && t.payments[p].status == Unreviewed) ::
         t.payments[p],
       orders := CancelledOrders(t.orders, ids))
  }

  /**
   The writes of the cleanup for the orders `ids` that its query returned, with the counters
   `seen` that it read. A write to a row that is gone undoes everything.
   */
  function LateCleanup(t: Tables, ids: set<nat>, seen: map<string, int>): Outcome {
    if LostCode(t, ids, seen) then Failure(Conflict) else Success(CleanedUp(t, ids, seen))
  }

  /** No selected order was paid or closed by a completion or a rejection. */
  predicate StillOpen(orders: seq<Order>, ids: set<nat>) {
    forall o | o in ids && o < |orders| :: Waiting(orders[o].status) || orders[o].status == Cancelled
  }

  lemma OpenCleanupPayments(t: Tables, ids: set<nat>, seen: map<string, int>)
    requires PaymentsAgree(t) && StillOpen(t.orders, ids)
    ensures CleanedUp(t, ids, seen).payments == t.payments
    ensures forall p | p in t.payments ::
      Fits(t.payments[p].status, CancelledOrders(t.orders, ids)[t.payments[p].order].status)
  {
    forall p | p in t.payments
      ensures !(t.payments[p].order in ids && t.payments[p].status == Unreviewed)
      ensures Fits(t.payments[p].status, CancelledOrders(t.orders, ids)[t.payments[p].order].status)
    {
      assert Fits(t.payments[p].status, t.orders[t.payments[p].order].status);
    }
  }

  lemma OpenCleanupAgrees(t: Tables, t': Tables, ids: set<nat>)
    requires PaymentsAgree(t) && StillOpen(t.orders, ids)
    requires t' == t.(orders := CancelledOrders(t.orders, ids), promos := t'.promos)
    requires forall p | p in t.payments :: Fits(t.payments[p].status, t'.orders[t.payments[p].order].status)
    ensures PaymentsAgree(t')
  {
    assert forall p, o :: CountsAsPayment(t', p, o) <==> CountsAsPayment(t, p, o);
  }

  lemma OpenCleanupEvolves(t: Tables, t': Tables, ids: set<nat>)
    requires OrdersAgree(t) && StillOpen(t.orders, ids) && t.promos.Keys <= t'.promos.Keys
    requires t' == t.(orders := CancelledOrders(t.orders, ids), promos := t'.promos)
    ensures OrdersAgree(t') && Evolves(t, t')
  {
    assert forall o | 0 <= o < |t.orders| :: DebitFits(t.orders[o]);
  }

  /** Cancelling late keeps the machine exactly if no selected order was paid or closed otherwise in between. */
  lemma LateCleanupIsSafeIff(t: Tables, ids: set<nat>, seen: map<string, int>)
    requires Sound(t)
    ensures Sound(CleanedUp(t, ids, seen)) && Evolves(t, CleanedUp(t, ids, seen)) <==> StillOpen(t.orders, ids)
  {
    var t' := CleanedUp(t, ids, seen);
    if StillOpen(t.orders, ids) {
      OpenCleanupPayments(t, ids, seen);
      OpenCleanupAgrees(t, t', ids);
      OpenCleanupEvolves(t, t', ids);
    } else {
      var o :| o in ids && o < |t.orders| && !Waiting(t.orders[o].status) && t.orders[o].status != Cancelled;
      assert !OrderLater(t.orders[o], t'.orders[o]);
    }
  }

  lemma {:induction false} LateCleanupHolds(orders: seq<Order>, ids: set<nat>, code: string)
    ensures Sum(CancelledOrders(orders, ids), Holds(code)) == Sum(orders, Holds(code)) - PickedHolding(orders, ids, code)
    ensures PickedHolding(orders, ids, code) <= Picked(orders, ids, code)
  {
    if orders != [] {
      var last := |orders| - 1;
      LateCleanupHolds(orders[..last], ids, code);
      assert CancelledOrders(orders, ids)[..last] == CancelledOrders(orders[..last], ids);
    }
  }

  /** The counters after the cleanup are those before less the orders that really were cancelled by it. */
  predicate CountersFollow(t: Tables, ids: set<nat>, seen: map<string, int>) {
    forall c | c in t.promos :: UsedAfter(t, ids, seen, c) == t.promos[c].used - PickedHolding(t.orders, ids, c)
  }

  /**
   The counters survive the cleanup exactly if for each code the value that is written back,
   or left, is the counter at the write less the orders that the cleanup takes from the code.
   */
  lemma LateCleanupCountsIff(t: Tables, ids: set<nat>, seen: map<string, int>)
    requires CountersTrue(t)
    ensures CountersTrue(CleanedUp(t, ids, seen)) <==> CountersFollow(t, ids, seen)
  {
    var t' := CleanedUp(t, ids, seen);
    forall c | c in t.promos
      ensures Counted(t', c) <==> UsedAfter(t, ids, seen, c) == t.promos[c].used - PickedHolding(t.orders, ids, c)
    {
      assert Counted(t, c);
      LateCleanupHolds(t.orders, ids, c);
    }
  }

  predicate Fresh(t: Tables, seen: map<string, int>) {
    seen.Keys == t.promos.Keys && forall c | c in seen :: seen[c] == t.promos[c].used
  }

  /**
   With counters as they stand: exactly if for each code no selected order was cancelled
   before, or all that were left are selected, where the clamp at zero repairs the counter.
   */
  lemma FreshCleanupCountsIff(t: Tables, ids: set<nat>, seen: map<string, int>)
    requires CountersTrue(t) && Fresh(t, seen)
    ensures LateCleanup(t, ids, seen).Success?
    ensures CountersTrue(LateCleanup(t, ids, seen).value) <==>
      forall c | c in t.promos ::
        || Picked(t.orders, ids, c) == PickedHolding(t.orders, ids, c)
        || t.promos[c].used == PickedHolding(t.orders, ids, c)
  {
    LateCleanupCountsIff(t, ids, seen);
    forall c | c in t.promos
      ensures UsedAfter(t, ids, seen, c) == t.promos[c].used - PickedHolding(t.orders, ids, c) <==>
        (|| Picked(t.orders, ids, c) == PickedHolding(t.orders, ids, c)
         || t.promos[c].used == PickedHolding(t.orders, ids, c))
    {
      PickedWithinCounter(t, ids, c);
      FreshCounter(t.promos[c].used, Picked(t.orders, ids, c), PickedHolding(t.orders, ids, c));
    }
  }

  lemma PickedWithinCounter(t: Tables, ids: set<nat>, code: string)
    requires CountersTrue(t) && code in t.promos
    ensures PickedHolding(t.orders, ids, code) <= t.promos[code].used
    ensures PickedHolding(t.orders, ids, code) <= Picked(t.orders, ids, code)
  {
    assert Counted(t, code);
    LateCleanupHolds(t.orders, ids, code);
    SumNonNegative(CancelledOrders(t.orders, ids), Holds(code));
  }

  lemma FreshCounter(used: nat, picked: nat, holding: nat)
    requires holding <= used && holding <= picked
    ensures
      var written := WrittenBack(used, picked);
      (if written.Some? then written.value else used) == used - holding <==> picked == holding || used == holding
  {
  }

  /**
   A reservation that is made between the read of the counter and the write is lost, although
   every selected order was still waiting.
   */
  lemma ReservationLost(t: Tables, ids: set<nat>, seen: map<string, int>, code: string)
    requires CountersTrue(t) && code in t.promos && code in seen && 0 <= seen[code] < t.promos[code].used
    requires Picked(t.orders, ids, code) == PickedHolding(t.orders, ids, code) > 0
    requires t.promos[code].used > PickedHolding(t.orders, ids, code)
    ensures !CountersTrue(CleanedUp(t, ids, seen))
  {
    LateCleanupCountsIff(t, ids, seen);
    assert UsedAfter(t, ids, seen, code) != t.promos[code].used - PickedHolding(t.orders, ids, code);
  }
}
