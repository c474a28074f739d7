/** A run in which a referral is bound twice, gives its discount once and pays both levels of cashback. */
module RewardedRun {
  import opened Results
  import opened Schema
  import opened Handlers
  import opened Operations
  import opened Machine
  import opened Runs
  import opened Quotes

  const PLANS := Catalogue(map["p" := Plan(30, 10, 1000, 1)], 0, 0)
  const OFFER := Offer(30, 10, 850, Some("p"), 1, None, true)

  const FIRST := User(0, 0, false, "a", None, 0)
  const SECOND := User(0, 0, false, "b", Some(1), 1)
  const THIRD := User(0, 0, false, "c", Some(2), 2)
  const RICH := THIRD.(balance := 1000)

  const AFTER1 := EMPTY.(users := map[1 := FIRST])
  const AFTER2 := EMPTY.(users := map[1 := FIRST, 2 := SECOND])
  const AFTER3 := EMPTY.(users := map[1 := FIRST, 2 := SECOND, 3 := THIRD])
  const AFTER4 := EMPTY.(users := map[1 := FIRST, 2 := SECOND, 3 := RICH], grants := [Grant(3, 1000)])
  const AFTER5 := AFTER4.(orders := [NewOrder(3, OFFER, 5)])

  lemma FirstRegisters()
    ensures Apply(EMPTY, Register(1, "a", "")) == AFTER1
  {
  }

  lemma SecondRegisters()
    ensures Apply(AFTER1, Register(2, "b", "a")) == AFTER2
  {
    var created := AFTER1.users[2 := User(0, 0, false, "b", None, 1)];
    assert created[1].code == "a" && created[2].code == "b";
    assert FindByCode(created, "a") == 1;
  }

  lemma ThirdRegisters()
    ensures Apply(AFTER2, Register(3, "c", "b")) == AFTER3
  {
    var created := AFTER2.users[3 := User(0, 0, false, "c", None, 2)];
    assert created[1].code == "a" && created[2].code == "b" && created[3].code == "c";
    assert FindByCode(created, "b") == 2;
  }

  lemma ThirdIsCredited()
    ensures Apply(AFTER3, CreditUser(3, 1000)) == AFTER4
  {
  }

  /** The third customer was referred and has not bought yet: 15 percent off. */
  lemma ThirdIsOffered()
    ensures MakeQuote(AFTER4, PLANS, 3, Listed("p"), "", 5) == Success(Quote(OFFER, 1000, 0, 150))
  {
    NewcomerEligible(AFTER4, 3);
    PriceClosedForm(1000, 0, true);
  }

  lemma ThirdOrders()
    ensures Apply(AFTER4, Op.CreateOrder(3, OFFER, 5)) == AFTER5
  {
  }

  /** After the payment and its delivery: the price is gone, and 170 and 42 went to the two referrers. */
  predicate BothLevelsPaid(t: Tables) {
    && |t.orders| == 1 && t.orders[0].status == Completed && t.orders[0].debit == 850
    && t.users == map[1 := FIRST.(balance := 42, earned := 42), 2 := SECOND.(balance := 170, earned := 170),
                      3 := THIRD.(balance := 150)]
    && t.payouts == [Payout(0, 3, 1, 2, 170), Payout(0, 3, 2, 1, 42)]
  }

  function PaidOrder(): Tables {
    AFTER5.(
      users := map[1 := FIRST, 2 := SECOND, 3 := THIRD.(balance := 150)],
      orders := [NewOrder(3, OFFER, 5).(status := Paid, debit := 850)],
      payments := map[0 := Payment(0, Unreviewed, Wallet)], nextPayment := 1)
  }

  lemma ThirdPays()
    ensures TakeWallet(AFTER5, 3, 0) == Success(Handover(PaidOrder(), 0, 0))
  {
    assert !HasPaymentIn(AFTER5, 0, {Unreviewed});
    var t := TakeWallet(AFTER5, 3, 0).value.t;
    assert t.users == PaidOrder().users && t.orders == PaidOrder().orders && t.payments == PaidOrder().payments;
  }

  lemma Level1Pays(t: Tables)
    requires t == Marked(PaidOrder(), 0, 0, NewAuto)
    ensures GrantLevel1(t, 0).Success?
    ensures
      var t' := GrantLevel1(t, 0).value;
      && t'.users == map[1 := FIRST, 2 := SECOND.(balance := 170, earned := 170), 3 := THIRD.(balance := 150)]
      && t'.orders == [t.orders[0].(cashback1 := true)]
      && t'.payouts == [Payout(0, 3, 1, 2, 170)]
  {
    assert !PriorCashback1(t, 0);
  }

  lemma Level2Pays(t: Tables)
    requires t.users == map[1 := FIRST, 2 := SECOND.(balance := 170, earned := 170), 3 := THIRD.(balance := 150)]
    requires t.orders == [NewOrder(3, OFFER, 5).(status := Completed, debit := 850, route := Some(NewAuto), cashback1 := true)]
    requires t.payouts == [Payout(0, 3, 1, 2, 170)]
    ensures GrantLevel2(t, 0).Success? && BothLevelsPaid(GrantLevel2(t, 0).value)
  {
    assert !PriorCashback2(t, 0);
    assert t.orders[0].price * CASHBACK_LEVEL2_PERCENT / 100 == 42;
  }

  lemma DeliveryPays()
    ensures BothLevelsPaid(Deliver(Handover(PaidOrder(), 0, 0), NewAuto))
  {
    var t1 := Marked(PaidOrder(), 0, 0, NewAuto);
    Level1Pays(t1);
    Level2Pays(GrantLevel1(t1, 0).value);
    assert Complete(PaidOrder(), 0, 0, NewAuto) == GrantLevel2(GrantLevel1(t1, 0).value, 0);
  }

  /** There are runs that bind referrals, discount the first purchase and pay both levels. */
  lemma BothLevelsReachable() returns (ops: seq<Op>)
    ensures |ops| == 6 && ops[..3] == [Register(1, "a", ""), Register(2, "b", "a"), Register(3, "c", "b")]
    ensures AllPossible(EMPTY, ops) && BothLevelsPaid(Run(EMPTY, ops))
  {
    var buys: seq<Op> := [CreditUser(3, 1000), Op.CreateOrder(3, OFFER, 5), PayWallet(3, 0, NewAuto)];
    var joins: seq<Op> := [Register(2, "b", "a"), Register(3, "c", "b")];
    FirstRegisters();
    SecondRegisters();
    ThirdRegisters();
    ThirdBuys();
    RunStep(AFTER2, joins[1], buys);
    RunStep(AFTER1, joins[0], [joins[1]] + buys);
    RunStep(EMPTY, Register(1, "a", ""), joins + buys);
    assert [joins[0]] + ([joins[1]] + buys) == joins + buys;
    ops := [Register(1, "a", "")] + (joins + buys);
  }

  lemma ThirdBuys()
    ensures
      var buys: seq<Op> := [CreditUser(3, 1000), Op.CreateOrder(3, OFFER, 5), PayWallet(3, 0, NewAuto)];
      AllPossible(AFTER3, buys) && BothLevelsPaid(Run(AFTER3, buys))
  {
    var pays: Op := PayWallet(3, 0, NewAuto);
    ThirdIsCredited();
    ThirdOrders();
    ThirdPays();
    DeliveryPays();
    RunStep(AFTER5, pays, []);
    RunStep(AFTER4, Op.CreateOrder(3, OFFER, 5), [pays]);
    RunStep(AFTER3, CreditUser(3, 1000), [Op.CreateOrder(3, OFFER, 5), pays]);
  }

  lemma RunStep(t: Tables, op: Op, rest: seq<Op>)
    ensures ([op] + rest)[1..] == rest
    ensures Run(t, [op] + rest) == Run(Apply(t, op), rest)
    ensures AllPossible(t, [op] + rest) <==> Possible(t, op) && AllPossible(Apply(t, op), rest)
  {
    assert ([op] + rest)[1..] == rest;
  }
}
