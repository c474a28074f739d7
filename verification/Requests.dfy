/**
 What each request promises, told on the rows: when it is accepted, which rows it writes with
 which values, and that it leaves all others alone.
 */
module Requests {
  import opened Results
  import opened Schema
  import opened Handlers
  import opened Machine
  import opened Referrals

  // --- customers ------------------------------------------------------------

  /** The customer whose code came with the deep link, if there is one, becomes the referrer, once and for all. */
  lemma RegistrationBinds(t: Tables, id: int, code: string, link: string)
    requires Forest(t)
    ensures id in t.users ==> Handlers.Register(t, id, code, link) == Success(t)
    ensures id !in t.users ==>
      (Handlers.Register(t, id, code, link).Success? <==> forall u | u in t.users :: t.users[u].code != code)
    ensures id !in t.users && Handlers.Register(t, id, code, link).Success? ==>
      var t' := Handlers.Register(t, id, code, link).value;
      && id in t'.users && t' == t.(users := t.users[id := t'.users[id]])
      && t'.users[id].code == code && t'.users[id].balance == 0 && t'.users[id].earned == 0
      && !t'.users[id].trialUsed
      && forall r :: t'.users[id].referredBy == Some(r) <==> link != "" && r in t.users && t.users[r].code == link
  {
    if id !in t.users && Handlers.Register(t, id, code, link).Success? {
      var t' := Handlers.Register(t, id, code, link).value;
      var created := t.users[id := User(0, 0, false, code, None, |t.users|)];
      assert t'.users == t.users[id := t'.users[id]];
      forall r
        ensures t'.users[id].referredBy == Some(r) <==> link != "" && r in t.users && t.users[r].code == link
      {
        if link != "" && r in t.users && t.users[r].code == link {
          LinkFindsOwner(t, created, id, link, r);
        }
      }
    }
  }

  lemma LinkFindsOwner(t: Tables, created: map<int, User>, id: int, link: string, r: int)
    requires Forest(t) && id !in t.users && id in created && created == t.users[id := created[id]]
    requires forall u | u in t.users :: t.users[u].code != created[id].code
    requires r in t.users && t.users[r].code == link
    ensures CodeTaken(created, link) && FindByCode(created, link) == r && r != id
  {
    assert created[r].code == link;
  }

  // --- orders and payments --------------------------------------------------

  /** The order carries what was offered, waits for its payment, and reserves its code. */
  lemma OrderIsStored(t: Tables, user: int, offer: Offer, now: int)
    ensures Handlers.CreateOrder(t, user, offer, now).Success? <==>
      && user in t.users
      && (offer.promo.Some? && offer.promo.value in t.promos ==>
            var promo := t.promos[offer.promo.value];
            promo.active && (promo.maxUses == 0 || promo.used < promo.maxUses))
    ensures Handlers.CreateOrder(t, user, offer, now).Success? ==>
      var t' := Handlers.CreateOrder(t, user, offer, now).value;
      && |t'.orders| == |t.orders| + 1 && t.orders <= t'.orders
      && (var order := t'.orders[|t.orders|];
          && order.user == user && order.created == now && order.status == Pending
          && order.days == offer.days && order.gigabytes == offer.gigabytes && order.price == offer.price
          && order.plan == offer.plan && order.devices == offer.devices
          && order.promo == offer.promo && order.discounted == offer.discounted
          && order.debit == 0 && !order.trial && order.renews.None? && order.route.None?
          && !order.cashback1 && !order.cashback2)
      && t'.promos.Keys == t.promos.Keys
      && (forall c | c in t.promos ::
            t'.promos[c] == t.promos[c].(used := t.promos[c].used + if offer.promo == Some(c) then 1 else 0))
      && t' == t.(orders := t'.orders, promos := t'.promos)
  {
  }

  predicate PaidBy(t: Tables, t': Tables, o: nat, debit: int, channel: Channel) {
    && o < |t.orders|
    && t'.orders == t.orders[o := t.orders[o].(status := Paid, debit := debit)]
    && t'.payments == t.payments[t.nextPayment := Payment(o, Unreviewed, channel)]
    && t' == t.(orders := t'.orders, payments := t'.payments, nextPayment := t.nextPayment + 1, users := t'.users)
  }

  /** A wallet payment is taken for the customer's own pending order that the balance covers. */
  lemma WalletPaymentIff(t: Tables, user: int, o: nat)
    requires Sound(t)
    ensures TakeWallet(t, user, o).Success? <==>
      && o < |t.orders| && t.orders[o].user == user && t.orders[o].status == Pending
      && t.users[user].balance >= t.orders[o].price
    ensures TakeWallet(t, user, o).Success? ==>
      var h := TakeWallet(t, user, o).value;
      && h.o == o && h.p == t.nextPayment && PaidBy(t, h.t, o, t.orders[o].price, Wallet)
      && h.t.users == t.users[user := t.users[user].(balance := t.users[user].balance - t.orders[o].price)]
  {
    if o < |t.orders| && t.orders[o].user == user && t.orders[o].status == Pending {
      assert DebitFits(t.orders[o]);
      NoPendingPayment(t, o);
      if TakeWallet(t, user, o).Success? {
        var h := TakeWallet(t, user, o).value;
        assert h.t.users == t.users[user := t.users[user].(balance := t.users[user].balance - t.orders[o].price)];
      }
    }
  }

  lemma NoPendingPayment(t: Tables, o: nat)
    requires Sound(t) && o < |t.orders| && t.orders[o].status != Paid
    ensures !HasPaymentIn(t, o, {Unreviewed})
  {
    forall p | p in t.payments && t.payments[p].order == o
      ensures t.payments[p].status != Unreviewed
    {
      assert Fits(t.payments[p].status, t.orders[t.payments[p].order].status);
    }
  }

  /** An invoice is claimed for the customer's own pending order with a price, and only its status changes. */
  lemma StarsInvoiceIff(t: Tables, user: int, o: nat)
    ensures Handlers.ClaimStars(t, user, o).Success? <==>
      o < |t.orders| && t.orders[o].user == user && t.orders[o].status == Pending && t.orders[o].price > 0
    ensures Handlers.ClaimStars(t, user, o).Success? ==>
      Handlers.ClaimStars(t, user, o).value ==
        t.(orders := t.orders[o := t.orders[o].(status := AwaitingStars)])
    ensures Handlers.RevertStars(t, o) ==
      Success(if o < |t.orders| && t.orders[o].status == AwaitingStars
              then t.(orders := t.orders[o := t.orders[o].(status := Pending)]) else t)
  {
  }

  /** A Stars payment is taken for the customer's own order that awaits it; for another status it is put on record. */
  lemma StarsPaymentIff(t: Tables, user: int, o: nat, route: Route)
    requires Sound(t)
    ensures TakeStars(t, user, o).Success? <==>
      o < |t.orders| && t.orders[o].user == user && t.orders[o].status == AwaitingStars
    ensures TakeStars(t, user, o).Success? ==>
      var h := TakeStars(t, user, o).value;
      && h.o == o && h.p == t.nextPayment && PaidBy(t, h.t, o, t.orders[o].debit, Stars) && h.t.users == t.users
    ensures o < |t.orders| && t.orders[o].user == user && t.orders[o].status != AwaitingStars ==>
      Handlers.StarsPaid(t, user, o, route) ==
        Success(t.(payments := t.payments[t.nextPayment := Payment(o, Duplicate, Stars)],
                   nextPayment := t.nextPayment + 1))
  {
    if o < |t.orders| && t.orders[o].status == AwaitingStars {
      NoPendingPayment(t, o);
    }
  }

  /** A receipt is stored for the customer's own pending order. */
  lemma ReceiptIff(t: Tables, user: int, o: nat)
    requires Sound(t)
    ensures Handlers.UploadReceipt(t, user, o).Success? <==>
      && o < |t.orders| && t.orders[o].user == user && t.orders[o].status == Pending
    ensures Handlers.UploadReceipt(t, user, o).Success? ==>
      var t' := Handlers.UploadReceipt(t, user, o).value;
      PaidBy(t, t', o, t.orders[o].debit, Card) && t'.users == t.users
  {
    if o < |t.orders| && t.orders[o].user == user {
      if t.orders[o].status == Pending {
        PendingHasNoPayment(t, o);
      } else if t.orders[o].status == Paid {
        var p :| CountsAsPayment(t, p, o);
        assert Fits(t.payments[p].status, t.orders[o].status);
        assert HasPaymentIn(t, o, {Unreviewed, Approved});
      }
    }
  }

  lemma PendingHasNoPayment(t: Tables, o: nat)
    requires Sound(t) && o < |t.orders| && t.orders[o].status == Pending
    ensures !HasPaymentIn(t, o, {Unreviewed, Approved}) && !HasPaymentIn(t, o, {Unreviewed})
  {
    forall p | p in t.payments && t.payments[p].order == o
      ensures t.payments[p].status !in {Unreviewed, Approved}
    {
      assert Fits(t.payments[p].status, t.orders[t.payments[p].order].status);
    }
  }

  /** A pending payment is approved, or refused together with its order and the debit given back. */
  lemma ReviewIff(t: Tables, p: nat)
    requires Sound(t)
    ensures ClaimReview(t, p).Success? <==> p in t.payments && t.payments[p].status == Unreviewed
    ensures Handlers.RejectPayment(t, p).Success? <==> p in t.payments && t.payments[p].status == Unreviewed
    ensures ClaimReview(t, p).Success? ==>
      && t.payments[p].order < |t.orders|
      && ClaimReview(t, p).value ==
           Handover(t.(payments := t.payments[p := t.payments[p].(status := Approved)]), t.payments[p].order, p)
    ensures Handlers.RejectPayment(t, p).Success? ==>
      var t', o := Handlers.RejectPayment(t, p).value, t.payments[p].order;
      && o < |t.orders| && t.orders[o].user in t.users
      && t' == t.(
           payments := t.payments[p := t.payments[p].(status := Refused)],
           orders := t.orders[o := t.orders[o].(status := Rejected, debit := 0)],
           users := t'.users)
      && (var user := t.orders[o].user;
          t'.users == t.users[user := t.users[user].(balance := t.users[user].balance + t.orders[o].debit)])
  {
    if p in t.payments && t.payments[p].status == Unreviewed {
      var o := t.payments[p].order;
      assert DebitFits(t.orders[o]);
      var user := t.orders[o].user;
      assert Handlers.RejectPayment(t, p).value.users
          == t.users[user := t.users[user].(balance := t.users[user].balance + t.orders[o].debit)];
    }
  }

  /** A delivery that completes closes this order and this payment, and pays nobody for a renewal. */
  lemma CompletionCloses(t: Tables, o: nat, p: nat, route: Route)
    requires Forest(t) && o < |t.orders| && p in t.payments
    ensures !route.Delivers() ==> Deliver(Handover(t, o, p), route) == t
    ensures route.Delivers() ==>
      var t' := Deliver(Handover(t, o, p), route);
      && t'.payments == t.payments[p := t.payments[p].(status := Approved)]
      && |t'.orders| == |t.orders|
      && t'.orders[o].status == Completed && t'.orders[o].route == Some(route)
      && t'.orders[o] == t.orders[o].(status := Completed, route := Some(route),
                                      cashback1 := t'.orders[o].cashback1, cashback2 := t'.orders[o].cashback2)
      && (forall i | 0 <= i < |t.orders| && i != o :: t'.orders[i] == t.orders[i])
      && (route.Renews() ==> t'.users == t.users && t'.payouts == t.payouts)
      && t' == t.(orders := t'.orders, payments := t'.payments, users := t'.users, payouts := t'.payouts)
  {
    if route.Delivers() {
      CompletionSucceeds(t, o, p, route);
      CompleteShape(t, o, p, route);
    }
  }

  // --- money by hand --------------------------------------------------------

  /** A top-up request of at least 1 is put on record; granting it credits what was requested, declining it nothing. */
  lemma TopUpIff(t: Tables, user: int, amount: int, i: nat)
    ensures Handlers.RequestTopUp(t, user, amount).Success? <==> amount >= 1 && user in t.users
    ensures Handlers.RequestTopUp(t, user, amount).Success? ==>
      Handlers.RequestTopUp(t, user, amount).value == t.(topups := t.topups + [TopUp(user, amount, None, Requested)])
    ensures Handlers.RejectTopUp(t, i).Success? <==> i < |t.topups| && t.topups[i].status == Requested
    ensures Handlers.RejectTopUp(t, i).Success? ==>
      Handlers.RejectTopUp(t, i).value == t.(topups := t.topups[i := t.topups[i].(status := Declined)])
    ensures Handlers.ApproveTopUp(t, i).Success? <==>
      && i < |t.topups| && t.topups[i].status == Requested
      && t.topups[i].requested >= 1 && t.topups[i].user in t.users
    ensures Handlers.ApproveTopUp(t, i).Success? ==>
      var row := t.topups[i];
      Handlers.ApproveTopUp(t, i).value == t.(
        topups := t.topups[i := row.(status := Granted, credited := Some(row.requested))],
        users := t.users[row.user := t.users[row.user].(balance := t.users[row.user].balance + row.requested)])
  {
  }

  /** An admin's credit adds exactly the given amount, and the history says so. */
  lemma CreditIff(t: Tables, user: int, amount: int)
    ensures Handlers.CreditUser(t, user, amount).Success? <==> amount >= 1 && user in t.users
    ensures Handlers.CreditUser(t, user, amount).Success? ==>
      Handlers.CreditUser(t, user, amount).value == t.(
        users := t.users[user := t.users[user].(balance := t.users[user].balance + amount)],
        grants := t.grants + [Grant(user, amount)])
  {
  }

  // --- trial, renewal, codes ------------------------------------------------

  /** The trial is free, paid at once, of the days and gigabytes that are set, and for a customer's first time only. */
  lemma TrialIff(t: Tables, user: int, enabled: bool, days: int, gigabytes: int, subscribed: bool, now: int)
    requires Sound(t)
    ensures ClaimTrial(t, user, enabled, days, gigabytes, subscribed, now).Success? <==>
      && enabled && (days > 0 || gigabytes > 0) && !subscribed
      && user in t.users && !t.users[user].trialUsed
    ensures ClaimTrial(t, user, enabled, days, gigabytes, subscribed, now).Success? ==>
      var h := ClaimTrial(t, user, enabled, days, gigabytes, subscribed, now).value;
      && h.o == |t.orders| && h.p == t.nextPayment && |h.t.orders| == |t.orders| + 1 && t.orders <= h.t.orders
      && (var order := h.t.orders[|t.orders|];
          && order.user == user && order.created == now && order.status == Paid && order.trial
          && order.days == (if days < 0 then 0 else days) && order.gigabytes == (if gigabytes < 0 then 0 else gigabytes)
          && order.price == 0 && order.debit == 0 && order.devices == 1
          && order.plan.None? && order.promo.None? && order.renews.None? && order.route.None?
          && !order.discounted && !order.cashback1 && !order.cashback2)
      && h.t == t.(
           users := t.users[user := t.users[user].(trialUsed := true)],
           orders := h.t.orders,
           payments := t.payments[t.nextPayment := Payment(|t.orders|, Unreviewed, Channel.Trial)],
           nextPayment := t.nextPayment + 1)
  {
    forall p | p in t.payments
      ensures t.payments[p].order < |t.orders|
    {
    }
  }

  /** The free renewal is a completed order over 30 days and no money, on record for the account. */
  lemma RenewalIsStored(t: Tables, user: int, account: Option<nat>, now: int)
    ensures Handlers.RenewUser(t, user, account, now).Success? <==> account.Some? && user in t.users
    ensures Handlers.RenewUser(t, user, account, now).Success? ==>
      var t' := Handlers.RenewUser(t, user, account, now).value;
      && |t'.orders| == |t.orders| + 1 && t.orders <= t'.orders && t' == t.(orders := t'.orders)
      && (var order := t'.orders[|t.orders|];
          && order.user == user && order.days == 30 && order.gigabytes == 0 && order.price == 0
          && order.renews == account && order.status == Completed && order.created == now
          && order.debit == 0 && order.promo.None? && !order.discounted && !order.trial)
  {
  }

  /**
   A code is created as it was asked for, switched on; switching it touches nothing else, and
   deleting it is final.
   */
  lemma CodeIff(t: Tables, code: string, kind: PromoKind, value: int, maxUses: int)
    ensures Handlers.CreatePromo(t, code, kind, value, maxUses).Success? <==>
      code != "" && value > 0 && code !in t.promos
    ensures Handlers.CreatePromo(t, code, kind, value, maxUses).Success? ==>
      Handlers.CreatePromo(t, code, kind, value, maxUses).value ==
        t.(promos := t.promos[code := Promo(kind, value, maxUses, 0, true, None)])
    ensures Handlers.TogglePromo(t, code).Success? <==> code in t.promos
    ensures code in t.promos ==>
      Handlers.TogglePromo(t, code).value ==
        t.(promos := t.promos[code := t.promos[code].(active := !t.promos[code].active)])
    ensures DeletePromo(t, code).Success? <==> code in t.promos
    ensures code in t.promos ==> DeletePromo(t, code).value == t.(promos := t.promos - {code})
  {
  }

  // --- cleanup --------------------------------------------------------------

  /** The cleanup cancels exactly the unpaid orders that are older than the cutoff. */
  lemma CleanupTakesExactly(t: Tables, cutoff: int)
    ensures Handlers.CancelStale(t, cutoff).Success?
    ensures
      var t' := Handlers.CancelStale(t, cutoff).value;
      && |t'.orders| == |t.orders|
      && (forall o | 0 <= o < |t.orders| :: t'.orders[o].status == Cancelled <==>
            || t.orders[o].status == Cancelled
            || ((t.orders[o].status == Pending || t.orders[o].status == AwaitingStars) && t.orders[o].created < cutoff))
      && (forall o | 0 <= o < |t.orders| ::
            || t'.orders[o] == t.orders[o]
            || (t.orders[o].status != Cancelled && t'.orders[o] == t.orders[o].(status := Cancelled)))
      && (forall p :: p in t'.payments <==>
            && p in t.payments
            && !(t.payments[p].status == Unreviewed && t.payments[p].order < |t.orders|
                 && t'.orders[t.payments[p].order] != t.orders[t.payments[p].order]))
      && (forall p | p in t'.payments :: t'.payments[p] == t.payments[p])
      && t'.promos.Keys == t.promos.Keys
      && (forall c | c in t.promos :: t'.promos[c] == t.promos[c].(used := t'.promos[c].used))
      && t' == t.(orders := t'.orders, payments := t'.payments, promos := t'.promos)
  {
  }
}
