/** Promo counters: `used` is the number of orders that hold the code, at every moment. */
module PromoCounters {
  import opened Results
  import opened Sums
  import opened Schema
  import opened Handlers
  import opened Operations
  import opened Machine

  function Holds(code: string): Order -> int {
    (order: Order) => if order.promo == Some(code) && order.status != Cancelled then 1 else 0
  }

  function Frees(code: string, cutoff: int): Order -> int {
    (order: Order) => if Stale(order, cutoff) && order.promo == Some(code) then 1 else 0
  }

  predicate Counted(t: Tables, code: string)
    requires code in t.promos
  {
    && t.promos[code].used == Sum(t.orders, Holds(code))
    && (t.promos[code].maxUses > 0 ==> t.promos[code].used <= t.promos[code].maxUses)
  }

  ghost predicate CountersTrue(t: Tables) {
    forall c | c in t.promos :: Counted(t, c)
  }

  predicate CodesKnown(t: Tables) {
    forall i | 0 <= i < |t.orders| && t.orders[i].promo.Some? :: t.orders[i].promo.value in t.promos
  }

  ghost predicate AllCounted(t: Tables) {
    CountersTrue(t) && CodesKnown(t)
  }

  /** The orders keep their codes and none is cancelled; the counters stand. */
  ghost predicate KeepsCodes(t: Tables, t': Tables) {
    && |t'.orders| == |t.orders|
    && (forall i | 0 <= i < |t.orders| :: t'.orders[i].promo == t.orders[i].promo
          && (t'.orders[i].status == Cancelled <==> t.orders[i].status == Cancelled))
    && t'.promos == t.promos
  }

  lemma KeepsCodesCounted(t: Tables, t': Tables)
    requires CountersTrue(t) && KeepsCodes(t, t')
    ensures CountersTrue(t')
  {
    forall c | c in t'.promos
      ensures Counted(t', c)
    {
      SumSame(t.orders, t'.orders, Holds(c));
    }
  }

  lemma DeliverCounted(h: Handover, route: Route)
    requires CountersTrue(h.t) && Deliverable(h.t, h.o, h.p)
    ensures CountersTrue(Deliver(h, route))
  {
    DeliverSettles(h, route);
    KeepsCodesCounted(h.t, Deliver(h, route));
  }

  lemma RejectPaymentKeepsCodes(t: Tables, p: nat)
    requires Sound(t) && Handlers.RejectPayment(t, p).Success?
    ensures KeepsCodes(t, Handlers.RejectPayment(t, p).value)
  {
    assert Fits(t.payments[p].status, t.orders[t.payments[p].order].status);
  }

  /** A new order that reserves code `c`. */
  lemma ReservedCounted(t: Tables, t': Tables, order: Order, c: string)
    requires CountersTrue(t) && c in t.promos && Reservable(t.promos[c])
    requires order.promo == Some(c) && order.status != Cancelled && t'.orders == t.orders + [order]
    requires t'.promos == t.promos[c := t.promos[c].(used := t.promos[c].used + 1)]
    ensures CountersTrue(t')
  {
    forall d | d in t'.promos
      ensures Counted(t', d)
    {
      assert Counted(t, d);
      SumAppend(t.orders, order, Holds(d));
    }
  }

  /** An order with a code that is no longer in the table reserves nothing. */
  lemma UnknownCodeCounted(t: Tables, t': Tables, order: Order)
    requires CountersTrue(t) && t'.orders == t.orders + [order] && t'.promos == t.promos
    requires order.promo.Some? ==> order.promo.value !in t.promos
    ensures CountersTrue(t')
  {
    forall c | c in t'.promos
      ensures Counted(t', c)
    {
      assert Counted(t, c);
      SumAppend(t.orders, order, Holds(c));
    }
  }

  /** The reservation is counted by the order that carries it, and never beyond the limit. */
  lemma CreateOrderCounted(t: Tables, user: int, offer: Offer, now: int)
    requires CountersTrue(t) && Handlers.CreateOrder(t, user, offer, now).Success?
    ensures CountersTrue(Handlers.CreateOrder(t, user, offer, now).value)
  {
    var t' := Handlers.CreateOrder(t, user, offer, now).value;
    var order := NewOrder(user, offer, now);
    if offer.promo.Some? && offer.promo.value in t.promos {
      ReservedCounted(t, t', order, offer.promo.value);
    } else {
      UnknownCodeCounted(t, t', order);
    }
  }

  lemma {:induction false} ReleasedIsSum(orders: seq<Order>, code: string, cutoff: int)
    ensures Released(orders, code, cutoff) == Sum(orders, Frees(code, cutoff))
  {
    if orders != [] {
      ReleasedIsSum(orders[..|orders| - 1], code, cutoff);
    }
  }

  /** The cleanup gives back what its orders reserved, so the clamp at zero never fires. */
  lemma CancelStaleCounted(t: Tables, cutoff: int)
    requires CountersTrue(t)
    ensures CountersTrue(Handlers.CancelStale(t, cutoff).value)
    ensures forall c | c in t.promos ::
      Handlers.CancelStale(t, cutoff).value.promos[c].used == t.promos[c].used - Released(t.orders, c, cutoff)
  {
    var t' := Handlers.CancelStale(t, cutoff).value;
    forall c | c in t.promos
      ensures t'.promos[c].used == t.promos[c].used - Released(t.orders, c, cutoff) && Counted(t', c)
    {
      ReleasedIsSum(t.orders, c, cutoff);
      SumOrdered(t.orders, Frees(c, cutoff), Holds(c));
      SumShift(t.orders, t'.orders, Holds(c), Frees(c, cutoff));
    }
  }

  /**
   A code that is not in the table, whether it never existed or was deleted, gets a true
   counter exactly if no order carries it.
   */
  lemma CreationCountsIff(t: Tables, code: string, kind: PromoKind, value: int, maxUses: int)
    requires CountersTrue(t) && Handlers.CreatePromo(t, code, kind, value, maxUses).Success?
    ensures CountersTrue(Handlers.CreatePromo(t, code, kind, value, maxUses).value) <==> Sum(t.orders, Holds(code)) == 0
  {
    var t' := Handlers.CreatePromo(t, code, kind, value, maxUses).value;
    if Sum(t.orders, Holds(code)) == 0 {
      forall c | c in t'.promos
        ensures Counted(t', c)
      {
        assert c != code ==> Counted(t, c);
      }
    } else {
      assert !Counted(t', code);
    }
  }

  lemma HandedOverCounted(t: Tables, op: Op)
    requires CountersTrue(t) && Sound(t) && HandedOver(t, op).Some?
    ensures CountersTrue(HandedOver(t, op).value.t)
  {
    var t' := HandedOver(t, op).value.t;
    if op.TakeTrial? {
      UnknownCodeCounted(t, t', TrialOrder(op.user, op.days, op.gigabytes, op.now));
    } else {
      KeepsCodesCounted(t, t');
    }
  }

  predicate IsPlain(op: Op) {
    op.ClaimStars? || op.RevertStars? || op.StarsPaid? || op.UploadReceipt? || op.Register? || op.RequestTopUp?
    || op.ApproveTopUp? || op.RejectTopUp? || op.CreditUser?
  }

  lemma PlainStep(t: Tables, op: Op)
    requires CountersTrue(t) && Handle(t, op).Success? && HandedOver(t, op).None? && IsPlain(op)
    ensures CountersTrue(Apply(t, op))
  {
    KeepsCodesCounted(t, Apply(t, op));
  }

  /** A shop step that creates a code which some order that is not cancelled carries already. */
  ghost predicate Recreates(t: Tables, op: Op) {
    op.CreatePromo? && Handle(t, op).Success? && Sum(t.orders, Holds(op.code)) != 0
  }

  /** Every step keeps the counters true, except the creation of a code that is carried already. */
  lemma StepCountersIff(t: Tables, op: Op)
    requires CountersTrue(t) && Sound(t)
    ensures CountersTrue(Apply(t, op)) <==> !Recreates(t, op)
  {
    if HandedOver(t, op).Some? {
      HandedOverSound(t, op);
      HandedOverCounted(t, op);
      ApplyDelivers(t, op);
      DeliverCounted(HandedOver(t, op).value, op.route);
    } else if Handle(t, op).Success? {
      if IsPlain(op) {
        PlainStep(t, op);
      } else {
        match op
        case CreateOrder(user, offer, now) => CreateOrderCounted(t, user, offer, now);
        case RejectPayment(p) =>
          RejectPaymentKeepsCodes(t, p);
          KeepsCodesCounted(t, Apply(t, op));
        case RenewUser(_, _, _) => UnknownCodeCounted(t, Apply(t, op), Apply(t, op).orders[|t.orders|]);
        case CancelStale(cutoff) => CancelStaleCounted(t, cutoff);
        case CreatePromo(code, kind, value, maxUses) => CreationCountsIff(t, code, kind, value, maxUses);
        case TogglePromo(code) => assert forall c | c in t.promos :: Counted(t, c);
      }
    }
  }

  /** New orders carry the code of their offer, or none. */
  lemma StepCodesKnown(t: Tables, op: Op)
    requires CodesKnown(t) && Sound(t) && Possible(t, op)
    ensures CodesKnown(Apply(t, op))
  {
    var t' := Apply(t, op);
    StepSound(t, op);
    forall i | 0 <= i < |t'.orders| && t'.orders[i].promo.Some?
      ensures t'.orders[i].promo.value in t'.promos
    {
      if i < |t.orders| {
        assert OrderLater(t.orders[i], t'.orders[i]);
      } else {
        NewOrderCode(t, op, i);
      }
    }
  }

  lemma NewOrderCode(t: Tables, op: Op, i: nat)
    requires |t.orders| <= i < |Apply(t, op).orders|
    ensures Apply(t, op).orders[i].promo == if op.CreateOrder? then op.offer.promo else None
  {
    if HandedOver(t, op).Some? {
      ApplyDelivers(t, op);
      DeliverSettles(HandedOver(t, op).value, op.route);
    }
  }

  /** In runs without deletions every step keeps every counter equal to the orders that hold its code. */
  lemma StepCounted(t: Tables, op: Op)
    requires AllCounted(t) && Sound(t) && Possible(t, op)
    ensures AllCounted(Apply(t, op))
  {
    if op.CreatePromo? && Handle(t, op).Success? {
      SumZero(t.orders, Holds(op.code));
    }
    StepCountersIff(t, op);
    StepCodesKnown(t, op);
  }

  // --- deletion -------------------------------------------------------------

  /** Runs in which codes are deleted too, and in which an order may carry a code that is gone. */
  datatype Event = Step(op: Op) | Deletion(code: string)

  ghost function Next(t: Tables, e: Event): Tables {
    match e
    case Step(op) => Apply(t, op)
    case Deletion(code) => if code in t.promos then DeletePromo(t, code).value else t
  }

  ghost function After(es: seq<Event>): Tables {
    if es == [] then EMPTY else Next(After(es[..|es| - 1]), es[|es| - 1])
  }

  predicate AllPriced(es: seq<Event>) {
    forall i | 0 <= i < |es| && es[i].Step? :: Priced(es[i].op)
  }

  ghost predicate IsRecreation(t: Tables, e: Event) {
    e.Step? && Recreates(t, e.op)
  }

  lemma NextCountersIff(t: Tables, e: Event)
    requires CountersTrue(t) && Sound(t) && (e.Step? ==> Priced(e.op))
    ensures Sound(Next(t, e))
    ensures CountersTrue(Next(t, e)) <==> !IsRecreation(t, e)
  {
    match e
    case Step(op) =>
      StepSound(t, op);
      StepCountersIff(t, op);
    case Deletion(code) =>
      var t' := Next(t, e);
      assert t' == t.(promos := t'.promos);
      assert forall c | c in t'.promos :: Counted(t, c);
      DeletionSound(t, t');
  }

  lemma DeletionSound(t: Tables, t': Tables)
    requires Sound(t) && t' == t.(promos := t'.promos)
    ensures Sound(t')
  {
    assert forall p, o :: CountsAsPayment(t', p, o) <==> CountsAsPayment(t, p, o);
  }

  ghost predicate RecreatesAt(es: seq<Event>, i: int) {
    0 <= i < |es| && IsRecreation(After(es[..i]), es[i])
  }

  /** No event up to here created a code that an order carried. */
  ghost predicate NeverRecreated(es: seq<Event>) {
    forall i | 0 <= i < |es| :: !RecreatesAt(es, i)
  }

  lemma PrefixRecreates(es: seq<Event>, n: nat, i: nat)
    requires i < n <= |es|
    ensures RecreatesAt(es[..n], i) <==> RecreatesAt(es, i)
  {
    assert es[..n][..i] == es[..i];
  }

  lemma {:induction false} NeverRecreatedCounters(es: seq<Event>)
    requires AllPriced(es) && NeverRecreated(es)
    ensures Sound(After(es)) && CountersTrue(After(es))
  {
    if es != [] {
      var last := |es| - 1;
      forall i | 0 <= i < last
        ensures !RecreatesAt(es[..last], i)
      {
        PrefixRecreates(es, last, i);
      }
      assert !RecreatesAt(es, last);
      NeverRecreatedCounters(es[..last]);
      NextCountersIff(After(es[..last]), es[last]);
    }
  }

  /**
   Runs with deletions, re-creations and orders on deleted codes: the counters are true all
   the way exactly if no code was created while an order that is not cancelled carried it.
   */
  lemma CountersTrueIff(es: seq<Event>)
    requires AllPriced(es)
    ensures (forall n | 0 <= n <= |es| :: CountersTrue(After(es[..n]))) <==> NeverRecreated(es)
  {
    if NeverRecreated(es) {
      forall n | 0 <= n <= |es|
        ensures CountersTrue(After(es[..n]))
      {
        NeverUpTo(es, n);
      }
    } else {
      var n := Miscount(es);
    }
  }

  lemma NeverUpTo(es: seq<Event>, n: nat)
    requires AllPriced(es) && n <= |es| && forall i | 0 <= i < n :: !RecreatesAt(es, i)
    ensures Sound(After(es[..n])) && CountersTrue(After(es[..n]))
  {
    forall i | 0 <= i < n
      ensures !RecreatesAt(es[..n], i)
    {
      PrefixRecreates(es, n, i);
    }
    NeverRecreatedCounters(es[..n]);
  }

  lemma RecreationMiscountsNext(es: seq<Event>, i: nat)
    requires AllPriced(es) && RecreatesAt(es, i) && forall j | 0 <= j < i :: !RecreatesAt(es, j)
    ensures !CountersTrue(After(es[..i + 1]))
  {
    NeverUpTo(es, i);
    NextCountersIff(After(es[..i]), es[i]);
    assert es[..i + 1][..i] == es[..i];
  }

  lemma {:induction false} Miscount(es: seq<Event>) returns (n: nat)
    requires AllPriced(es) && !NeverRecreated(es)
    ensures n <= |es| && !CountersTrue(After(es[..n]))
    decreases |es|
  {
    var i :| 0 <= i < |es| && RecreatesAt(es, i);
    if j :| 0 <= j < i && RecreatesAt(es, j) {
      PrefixRecreates(es, i, j);
      n := Miscount(es[..i]);
      assert es[..i][..n] == es[..n];
    } else {
      RecreationMiscountsNext(es, i);
      n := i + 1;
    }
  }

  /** A code that is created while an order carries it has a false counter, whatever the others are. */
  lemma RecreationIsFalse(t: Tables, code: string, kind: PromoKind, value: int, maxUses: int)
    requires code !in t.promos && code != "" && value > 0 && Sum(t.orders, Holds(code)) != 0
    ensures !CountersTrue(Next(t, Step(Op.CreatePromo(code, kind, value, maxUses))))
  {
    var t' := Next(t, Step(Op.CreatePromo(code, kind, value, maxUses)));
    assert code in t'.promos && !Counted(t', code);
  }

  lemma HoldingCounts(orders: seq<Order>, code: string, i: nat)
    requires i < |orders| && orders[i].promo == Some(code) && orders[i].status != Cancelled
    ensures Sum(orders, Holds(code)) >= 1
  {
    SumNonNegative(orders, Holds(code));
    assert Holds(code)(orders[i]) == 1;
  }

  /**
   A quote can outlive its code: whatever the counter was at the deletion, an order that
   still carries the code makes the next creation miscount.
   */
  lemma LateOrderMiscounts(t: Tables, user: int, offer: Offer, now: int, kind: PromoKind, value: int, maxUses: int)
    requires user in t.users && offer.promo.Some? && offer.promo.value !in t.promos
    requires offer.promo.value != "" && value > 0
    ensures
      var t' := Next(t, Step(Op.CreateOrder(user, offer, now)));
      var created := Step(Op.CreatePromo(offer.promo.value, kind, value, maxUses));
      IsRecreation(t', created) && !CountersTrue(Next(t', created))
  {
    var t' := Next(t, Step(Op.CreateOrder(user, offer, now)));
    assert t'.orders == t.orders + [NewOrder(user, offer, now)];
    HoldingCounts(t'.orders, offer.promo.value, |t.orders|);
    RecreationIsFalse(t', offer.promo.value, kind, value, maxUses);
  }

  /** Likewise an order that reserved the code before it was deleted. */
  lemma OpenOrderMiscounts(t: Tables, i: nat, code: string, kind: PromoKind, value: int, maxUses: int)
    requires code in t.promos && code != "" && value > 0
    requires i < |t.orders| && t.orders[i].promo == Some(code) && t.orders[i].status != Cancelled
    ensures
      var created := Step(Op.CreatePromo(code, kind, value, maxUses));
      IsRecreation(Next(t, Deletion(code)), created) && !CountersTrue(Next(Next(t, Deletion(code)), created))
  {
    HoldingCounts(t.orders, code, i);
    RecreationIsFalse(Next(t, Deletion(code)), code, kind, value, maxUses);
  }

  /** A customer, and a code that nobody used. */
  lemma UnusedCode() returns (es: seq<Event>)
    ensures |es| == 2 && AllPriced(es)
    ensures 7 in After(es).users && "A" in After(es).promos && After(es).promos["A"].used == 0
  {
    var e0, e1 := Step(Register(7, "c", "")), Step(Op.CreatePromo("A", Days, 5, 0));
    es := [e0, e1];
    assert es[..1] == [e0] && [e0][..0] == [];
    assert After([e0]) == Next(EMPTY, e0);
    assert After(es) == Next(After([e0]), e1);
  }

  /** A run whose counter was zero at the deletion, and after which the next creation miscounts all the same. */
  lemma RecreationMiscounts() returns (es: seq<Event>)
    ensures |es| == 4 && AllPriced(es) && es[2] == Deletion("A")
    ensures "A" in After(es[..2]).promos && After(es[..2]).promos["A"].used == 0
    ensures !CountersTrue(Next(After(es), Step(Op.CreatePromo("A", Days, 5, 0))))
  {
    var offer := Offer(30, 10, 1000, None, 1, Some("A"), false);
    var start := UnusedCode();
    var deleted := start + [Deletion("A")];
    es := deleted + [Step(Op.CreateOrder(7, offer, 0))];
    assert deleted[..2] == start && es[..2] == start && es[..3] == deleted;
    LateOrderMiscounts(Next(After(start), Deletion("A")), 7, offer, 0, Days, 5, 0);
  }
}
