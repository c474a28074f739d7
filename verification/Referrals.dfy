/** The referral graph: links point to older customers, so it is a forest and no reward loops back. */
module Referrals {
  import opened Results
  import opened Schema
  import opened Handlers
  import opened Operations
  import opened Machine

  ghost predicate Forest(t: Tables) {
    && (forall u | u in t.users :: t.users[u].born < |t.users|)
    && (forall u | u in t.users && t.users[u].referredBy.Some? ::
          var r := t.users[u].referredBy.value;
          r in t.users && t.users[r].born < t.users[u].born)
    && (forall u, v | u in t.users && v in t.users && t.users[u].code == t.users[v].code :: u == v)
  }

  /** The customer `steps` referral links above `user`. */
  function Ancestor(t: Tables, user: int, steps: nat): Option<int> {
    if steps == 0 then Some(user)
    else
      match Ancestor(t, user, steps - 1)
      case None => None
      case Some(a) => Referrer(t, a)
  }

  lemma {:induction false} AncestorIsOlder(t: Tables, user: int, steps: nat)
    requires Forest(t) && user in t.users && Ancestor(t, user, steps).Some?
    ensures
      var a := Ancestor(t, user, steps).value;
      a in t.users && t.users[a].born + steps <= t.users[user].born
  {
    if steps > 0 {
      AncestorIsOlder(t, user, steps - 1);
    }
  }

  /** No chain of referrals returns to where it started, and none is longer than the customer's age. */
  lemma NoReferralCycle(t: Tables, user: int, steps: nat)
    requires Forest(t) && user in t.users && steps > 0
    ensures Ancestor(t, user, steps) != Some(user)
    ensures steps > t.users[user].born ==> Ancestor(t, user, steps).None?
  {
    if Ancestor(t, user, steps).Some? {
      AncestorIsOlder(t, user, steps);
    }
  }

  /** The buyer and the two recipients of an order's cashback are three different customers. */
  lemma RecipientsDistinct(t: Tables, buyer: int, level1: int, level2: int)
    requires Forest(t) && Referrer(t, buyer) == Some(level1) && Referrer(t, level1) == Some(level2)
    ensures buyer != level1 && level1 != level2 && level2 != buyer
  {
    assert Ancestor(t, buyer, 1) == Referrer(t, buyer);
    assert Ancestor(t, buyer, 2) == Some(level2);
    NoReferralCycle(t, buyer, 2);
  }

  /** Cashback can always be credited, so no completion of a paid order fails. */
  lemma CompletionSucceeds(t: Tables, o: nat, p: nat, route: Route)
    requires Forest(t) && o < |t.orders| && p in t.payments
    ensures Complete(t, o, p, route).Success?
  {
    if !route.Renews() {
      var t1 := Marked(t, o, p, route);
      assert GrantLevel1(t1, o).Success?;
      Level1Shape(t1, o);
      var t2 := GrantLevel1(t1, o).value;
      assert forall u :: Referrer(t2, u) == Referrer(t1, u);
    }
  }

  lemma ForestStays(t: Tables, t': Tables)
    requires Forest(t) && t'.users.Keys == t.users.Keys
    requires forall u | u in t.users :: SamePerson(t.users[u], t'.users[u])
    ensures Forest(t')
  {
    SameKeysSameSize(t.users, t'.users);
  }

  lemma DeliverKeepsCustomers(h: Handover, route: Route)
    ensures Deliver(h, route).users.Keys == h.t.users.Keys
  {
    DeliverSettles(h, route);
  }

  lemma MoneyStepsKeepCustomers(t: Tables, op: Op)
    requires op.RequestTopUp? || op.ApproveTopUp? || op.RejectTopUp? || op.CreditUser? || op.RejectPayment?
    ensures Apply(t, op).users.Keys == t.users.Keys
  {
  }

  lemma OrderStepsKeepCustomers(t: Tables, op: Op)
    requires HandedOver(t, op).None?
    requires !op.Register? && !op.RequestTopUp? && !op.ApproveTopUp? && !op.RejectTopUp? && !op.CreditUser? && !op.RejectPayment?
    ensures Apply(t, op).users == t.users
  {
  }

  lemma HandedOverKeepsCustomers(t: Tables, op: Op)
    requires HandedOver(t, op).Some?
    ensures HandedOver(t, op).value.t.users.Keys == t.users.Keys
    ensures HandedOver(t, op).value.t.payouts == t.payouts
  {
  }

  lemma OnlyRegisterAddsCustomers(t: Tables, op: Op)
    requires !op.Register?
    ensures Apply(t, op).users.Keys == t.users.Keys
  {
    if HandedOver(t, op).Some? {
      HandedOverKeepsCustomers(t, op);
      DeliverKeepsCustomers(HandedOver(t, op).value, op.route);
      ApplyDelivers(t, op);
    } else if op.RequestTopUp? || op.ApproveTopUp? || op.RejectTopUp? || op.CreditUser? || op.RejectPayment? {
      MoneyStepsKeepCustomers(t, op);
    } else {
      OrderStepsKeepCustomers(t, op);
    }
  }

  lemma SameKeysSameSize<K, V, W>(a: map<K, V>, b: map<K, W>)
    requires a.Keys == b.Keys
    ensures |a| == |b|
  {
    assert |a| == |a.Keys| && |b| == |b.Keys|;
  }

  /** A new customer with a code of their own, and a link to nobody or to an older customer. */
  lemma NewcomerForest(t: Tables, t': Tables, id: int, row: User)
    requires Forest(t) && id !in t.users && t'.users == t.users[id := row]
    requires row.born == |t.users| && !CodeTaken(t.users, row.code)
    requires row.referredBy.Some? ==> row.referredBy.value in t.users
    ensures Forest(t')
  {
    assert t'.users.Keys == t.users.Keys + {id};
    assert |t'.users.Keys| == |t.users| + 1;
  }

  lemma RegisterForest(t: Tables, id: int, code: string, link: string)
    requires Forest(t) && Handlers.Register(t, id, code, link).Success?
    ensures Forest(Handlers.Register(t, id, code, link).value)
  {
    if id !in t.users {
      var t' := Handlers.Register(t, id, code, link).value;
      NewcomerForest(t, t', id, t'.users[id]);
    }
  }

  /** Every step keeps the forest: only a new customer gets a link, and it points to an older one. */
  lemma StepForest(t: Tables, op: Op)
    requires Forest(t) && Sound(t) && Priced(op)
    ensures Forest(Apply(t, op))
  {
    if op.Register? {
      if Handle(t, op).Success? {
        RegisterForest(t, op.id, op.code, op.link);
      }
    } else {
      StepSound(t, op);
      OnlyRegisterAddsCustomers(t, op);
      SameKeysSameSize(t.users, Apply(t, op).users);
    }
  }
}
