/** A late write that nothing overtook is the handler's own: the late writes are no others than the shop's. */
module TimelyWrites {
  import opened Results
  import opened Schema
  import opened Handlers
  import opened Machine
  import opened StaleWrites
  import opened Delivery
  import opened LateHandOuts

  /** A receipt or Stars payment whose order is still as it was read. */
  lemma TimelyPaymentMatches(t: Tables, user: int, o: nat)
    requires o < |t.orders|
    ensures Handlers.UploadReceipt(t, user, o).Success? ==> LatePayment(t, o, Card) == Handlers.UploadReceipt(t, user, o)
    ensures TakeStars(t, user, o).Success? ==> LatePayment(t, o, Stars) == Success(TakeStars(t, user, o).value.t)
  {
  }

  /** A decision on a top-up that is still undecided. */
  lemma TimelyDecisionMatches(t: Tables, i: nat)
    requires i < |t.topups| && t.topups[i].status == Requested
    ensures LateApproval(t, i) == Handlers.ApproveTopUp(t, i)
    ensures Success(LateRejection(t, i)) == Handlers.RejectTopUp(t, i)
  {
  }

  lemma {:induction false} PickedIsReleased(orders: seq<Order>, ids: set<nat>, code: string, cutoff: int)
    requires forall i: nat | i < |orders| :: i in ids <==> Stale(orders[i], cutoff)
    ensures Picked(orders, ids, code) == Released(orders, code, cutoff)
  {
    if orders != [] {
      PickedIsReleased(orders[..|orders| - 1], ids, code, cutoff);
    }
  }

  lemma WrittenIsReleased(promo: Promo, count: nat)
    ensures
      var written := WrittenBack(promo.used, count);
      promo.(used := if written.Some? then written.value else promo.used) == Release(promo, count)
  {
  }

  lemma TimelyCounterMatches(t: Tables, ids: set<nat>, seen: map<string, int>, cutoff: int, code: string)
    requires forall i: nat | i < |t.orders| :: i in ids <==> Stale(t.orders[i], cutoff)
    requires code in t.promos && code in seen && seen[code] == t.promos[code].used
    ensures t.promos[code].(used := UsedAfter(t, ids, seen, code)) ==
      Release(t.promos[code], Released(t.orders, code, cutoff))
  {
    PickedIsReleased(t.orders, ids, code, cutoff);
    WrittenIsReleased(t.promos[code], Picked(t.orders, ids, code));
  }

  lemma TimelyCountersMatch(t: Tables, ids: set<nat>, seen: map<string, int>, cutoff: int)
    requires forall i: nat | i < |t.orders| :: i in ids <==> Stale(t.orders[i], cutoff)
    requires seen.Keys == t.promos.Keys && forall c | c in seen :: seen[c] == t.promos[c].used
    ensures forall c | c in t.promos ::
      t.promos[c].(used := UsedAfter(t, ids, seen, c)) == Release(t.promos[c], Released(t.orders, c, cutoff))
  {
    forall c | c in t.promos
      ensures t.promos[c].(used := UsedAfter(t, ids, seen, c)) == Release(t.promos[c], Released(t.orders, c, cutoff))
    {
      TimelyCounterMatches(t, ids, seen, cutoff, c);
    }
  }

  /** The cleanup whose query and counters are still up to date. */
  lemma TimelyCleanupMatches(t: Tables, ids: set<nat>, seen: map<string, int>, cutoff: int)
    requires forall i :: i in ids <==> 0 <= i < |t.orders| && Stale(t.orders[i], cutoff)
    requires seen.Keys == t.promos.Keys && forall c | c in seen :: seen[c] == t.promos[c].used
    ensures LateCleanup(t, ids, seen) == Handlers.CancelStale(t, cutoff)
  {
    var late, timely := CleanedUp(t, ids, seen), Handlers.CancelStale(t, cutoff).value;
    TimelyCountersMatch(t, ids, seen, cutoff);
    assert late.promos == timely.promos;
    assert late.orders == timely.orders;
    assert late.payments == timely.payments;
  }

  /** A config that is still an oldest free one of the plan when it is handed out. */
  lemma TimelyHandOutMatches(b: Stock, o: nat, order: Order, k: nat, site: Site, now: int)
    requires order.renews.None? && order.plan.Some? && IsOldestFree(b.configs, order.plan.value, k)
    ensures ServedFromStock(b, LateHandOut(b, o, order, k, now), o, order, site, now, k)
  {
  }
}
