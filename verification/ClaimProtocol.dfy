/**
 One order under any number of overlapping wallet and Stars requests and Stars confirmations.
 A request first reads the order and only later runs its conditional claim, so it acts on a
 stale read; a Stars request that cannot send its invoice frees the order in a step of its
 own. A confirmation reads the order as well, and later writes without a condition.
 */
module ClaimProtocol {
  import opened Results
  import opened Schema
  import H = Handlers
  import opened Machine
  import StaleWrites

  datatype Phase =
    | Arrived                // nothing read yet
    | SawPending             // the order was "pending" when it was read
    | Sending                // Stars: the order is claimed, the invoice is on its way
    | Reverting              // Stars: the invoice failed, the order is to be freed
    | Sent                   // Stars: the invoice is out
    | Paying                 // wallet: debited and committed
    | Ended                  // answered with an error

  datatype Request = Request(wallet: bool, phase: Phase)

  /** A payment that the shop accepted for this order. */
  datatype Charge = FromWallet(amount: int) | FromStars | FromCard

  /** A Stars payment that Telegram took: did the order await it when it was read, and is the handler through? */
  datatype Confirmation = Confirmation(awaited: bool, stored: bool)

  /**
   `charges` is the history of accepted payments, `duplicates` counts the Stars payments that
   the shop could only record, `lost` those of which it has no record, `refunded` is what a
   rejection gave back, and `open` says whether a pending payment row of the order exists.
   */
  datatype Claim = Claim(
    status: OrderStatus,
    price: int,
    balance: int,
    debit: int,
    open: bool,
    requests: seq<Request>,
    confirmations: seq<Confirmation>,
    charges: seq<Charge>,
    duplicates: nat,
    lost: nat,
    refunded: int)

  datatype Step =
    | Arrive(wallet: bool)
    | Read(i: nat)
    | Pay(i: nat)            // the request's claim transaction
    | InvoiceOut(i: nat)
    | InvoiceLost(i: nat)
    | Revert(i: nat)
    | ReadStars              // Telegram confirms a Stars payment; its handler reads the order
    | StoreStars(i: nat)     // that handler's transaction
    | Cancel                 // the cleanup job
    | Approve                // an admin approves the payment
    | Finish                 // delivery completes the paid order
    | Reject                 // an admin rejects the payment
    | Move(balance: nat)     // anything else that happens to the wallet

  function Phased(c: Claim, i: nat, phase: Phase): Claim
    requires i < |c.requests|
  {
    c.(requests := c.requests[i := c.requests[i].(phase := phase)])
  }

  function PayByWallet(c: Claim, i: nat): Claim
    requires i < |c.requests|
  {
    if c.status != Pending || c.balance < c.price then Phased(c, i, Ended)
    else Phased(c, i, Paying).(
      status := Paid, balance := c.balance - c.price, debit := c.price, open := true,
      charges := c.charges + [FromWallet(c.price)])
  }

  function PayByStars(c: Claim, i: nat): Claim
    requires i < |c.requests|
  {
    if c.price <= 0 || c.status != Pending then Phased(c, i, Ended)
    else Phased(c, i, Sending).(status := AwaitingStars)
  }

  predicate InFlight(c: Claim, i: nat) {
    i < |c.confirmations| && !c.confirmations[i].stored
  }

  /**
   A payment that was not awaited is recorded as a duplicate. One that was is stored as
   pending, whatever the order is by now; a second pending payment breaks the unique index,
   and then nothing is recorded at all.
   */
  function StoreConfirmation(c: Claim, i: nat): Claim
    requires i < |c.confirmations|
  {
    var c1 := c.(confirmations := c.confirmations[i := c.confirmations[i].(stored := true)]);
    if !c.confirmations[i].awaited then c1.(duplicates := c.duplicates + 1)
    else if c.open then c1.(lost := c.lost + 1)
    else c1.(status := Paid, open := true, charges := c.charges + [FromStars])
  }

  function Next(c: Claim, s: Step): Claim {
    match s
    case Arrive(wallet) => c.(requests := c.requests + [Request(wallet, Arrived)])
    case Read(i) =>
      if i < |c.requests| && c.requests[i].phase == Arrived
      then Phased(c, i, if c.status == Pending then SawPending else Ended) else c
    case Pay(i) =>
      if i < |c.requests| && c.requests[i].phase == SawPending
      then if c.requests[i].wallet then PayByWallet(c, i) else PayByStars(c, i) else c
    case InvoiceOut(i) => if i < |c.requests| && c.requests[i].phase == Sending then Phased(c, i, Sent) else c
    case InvoiceLost(i) => if i < |c.requests| && c.requests[i].phase == Sending then Phased(c, i, Reverting) else c
    case Revert(i) =>
      if i < |c.requests| && c.requests[i].phase == Reverting
      then Phased(c, i, Ended).(status := if c.status == AwaitingStars then Pending else c.status) else c
    case ReadStars => c.(confirmations := c.confirmations + [Confirmation(c.status == AwaitingStars, false)])
    case StoreStars(i) => if InFlight(c, i) then StoreConfirmation(c, i) else c
    case Cancel => if Waiting(c.status) then c.(status := Cancelled, open := false) else c
    case Approve => c.(open := false)
    case Finish => if c.status == Paid then c.(status := Completed, open := false) else c
    case Reject =>
      if c.status == Paid && c.open
      then c.(status := Rejected, open := false, balance := c.balance + c.debit, debit := 0, refunded := c.refunded + c.debit)
      else c
    case Move(balance) => c.(balance := balance)
  }

  ghost function Steps(c: Claim, steps: seq<Step>): Claim
    decreases |steps|
  {
    if steps == [] then c else Steps(Next(c, steps[0]), steps[1..])
  }

  function NewClaim(price: nat, balance: nat): Claim {
    Claim(Pending, price, balance, 0, false, [], [], [], 0, 0, 0)
  }

  // --- safety ---------------------------------------------------------------

  /** The request holds the order, or still has to free it, or its invoice is out. */
  predicate HoldsOrder(c: Claim, i: int) {
    0 <= i < |c.requests| && c.requests[i].phase in {Sending, Reverting, Sent}
  }

  /** Paid at most once, for exactly the price, and never open to payment again afterwards. */
  predicate ChargedOnce(c: Claim) {
    && c.price >= 0
    && |c.charges| == (if c.status in {Paid, Completed, Rejected} then 1 else 0)
    && (forall k | 0 <= k < |c.charges| && c.charges[k].FromWallet? :: c.charges[k].amount == c.price)
    && (c.open ==> c.status == Paid)
    && c.debit + c.refunded == (if |c.charges| == 1 && c.charges[0].FromWallet? then c.price else 0)
    && (c.refunded != 0 ==> c.status == Rejected && c.debit == 0)
  }

  /** At most one request holds the order, and one does exactly while the order awaits Stars. */
  ghost predicate OneHolder(c: Claim) {
    && (forall i, j | HoldsOrder(c, i) && HoldsOrder(c, j) :: i == j)
    && (c.status == Pending ==> forall i :: !HoldsOrder(c, i))
    && (c.status == AwaitingStars ==> exists i :: HoldsOrder(c, i))
  }

  ghost predicate Safe(c: Claim) {
    ChargedOnce(c) && OneHolder(c) && c.balance >= 0
  }

  /** The step stores an awaited Stars payment, and nothing keeps it from becoming the order's payment. */
  predicate Stores(c: Claim, s: Step) {
    s.StoreStars? && InFlight(c, s.i) && c.confirmations[s.i].awaited && !c.open
  }

  /** If the step stores a Stars payment, the order still waits for one. */
  predicate Timely(c: Claim, s: Step) {
    Stores(c, s) ==> Waiting(c.status)
  }

  lemma NextCharges(c: Claim, s: Step)
    requires ChargedOnce(c) && c.balance >= 0 && Timely(c, s)
    ensures ChargedOnce(Next(c, s)) && Next(c, s).balance >= 0
    ensures c.charges <= Next(c, s).charges && Next(c, s).price == c.price
    ensures Later(c.status, Next(c, s).status)
  {
  }

  /** Only a Stars claim on a pending order makes a new holder. */
  lemma NewHolder(c: Claim, s: Step, i: int)
    requires HoldsOrder(Next(c, s), i) && !HoldsOrder(c, i)
    ensures s == Pay(i) && c.status == Pending && Next(c, s).status == AwaitingStars
  {
  }

  /** The order stays claimed for Stars only while its holder stays. */
  lemma HolderStays(c: Claim, s: Step, i: int)
    requires OneHolder(c) && HoldsOrder(c, i) && Next(c, s).status == AwaitingStars
    ensures HoldsOrder(Next(c, s), i)
  {
  }

  lemma FreedHasNoHolder(c: Claim, s: Step, i: int)
    requires OneHolder(c) && HoldsOrder(c, i) && Next(c, s).status == Pending
    ensures !HoldsOrder(Next(c, s), i)
  {
    if s.Revert? && c.status == AwaitingStars && s.i != i {
      assert HoldsOrder(c, s.i);
    }
  }

  lemma NextHolder(c: Claim, s: Step)
    requires OneHolder(c)
    ensures OneHolder(Next(c, s))
  {
    var c' := Next(c, s);
    forall i | HoldsOrder(c', i)
      ensures c'.status != Pending
      ensures HoldsOrder(c, i) || (s == Pay(i) && c.status == Pending)
    {
      if HoldsOrder(c, i) {
        if c'.status == Pending { FreedHasNoHolder(c, s, i); }
      } else {
        NewHolder(c, s, i);
      }
    }
    if c'.status == AwaitingStars {
      if c.status == AwaitingStars {
        var i :| HoldsOrder(c, i);
        HolderStays(c, s, i);
      } else {
        assert HoldsOrder(c', s.i);
      }
    }
  }

  /** A failed invoice frees the order only when the order is still held by that very request. */
  lemma RevertFreesOwnClaim(c: Claim, i: nat, j: nat)
    requires Safe(c) && i < |c.requests| && c.requests[i].phase == Reverting
    requires j < |c.requests| && j != i
    ensures !HoldsOrder(Next(c, Revert(i)), j)
    ensures Next(c, Revert(i)).status == Pending <==> c.status == AwaitingStars
  {
    assert HoldsOrder(c, i);
    assert !HoldsOrder(c, j);
  }

  /** One step keeps the protocol exactly if it stores no Stars payment for an order that stopped waiting. */
  lemma NextSafeIff(c: Claim, s: Step)
    requires Safe(c)
    ensures Safe(Next(c, s)) && Later(c.status, Next(c, s).status) <==> Timely(c, s)
  {
    NextHolder(c, s);
    if Timely(c, s) {
      NextCharges(c, s);
    }
  }

  predicate AllTimely(c: Claim, steps: seq<Step>)
    decreases |steps|
  {
    steps == [] || (Timely(c, steps[0]) && AllTimely(Next(c, steps[0]), steps[1..]))
  }

  /** Safe in every state on the way, and never moving backwards. */
  ghost predicate SafeAllTheWay(c: Claim, steps: seq<Step>)
    decreases |steps|
  {
    && Safe(c)
    && (steps == [] || (Later(c.status, Next(c, steps[0]).status) && SafeAllTheWay(Next(c, steps[0]), steps[1..])))
  }

  /** Whatever the interleaving: the protocol holds all the way exactly if every confirmation was stored in time. */
  lemma {:induction false} SafeAllTheWayIff(c: Claim, steps: seq<Step>)
    requires Safe(c)
    ensures SafeAllTheWay(c, steps) <==> AllTimely(c, steps)
    decreases |steps|
  {
    if steps != [] {
      NextSafeIff(c, steps[0]);
      if Safe(Next(c, steps[0])) {
        SafeAllTheWayIff(Next(c, steps[0]), steps[1..]);
      }
    }
  }

  lemma {:induction false} StepsSafe(c: Claim, steps: seq<Step>)
    requires Safe(c) && AllTimely(c, steps)
    ensures Safe(Steps(c, steps)) && c.charges <= Steps(c, steps).charges && Steps(c, steps).price == c.price
    decreases |steps|
  {
    if steps != [] {
      NextCharges(c, steps[0]);
      NextHolder(c, steps[0]);
      StepsSafe(Next(c, steps[0]), steps[1..]);
    }
  }

  // --- the books of Stars payments ------------------------------------------

  function Accepted(charges: seq<Charge>): nat {
    if charges == [] then 0
    else Accepted(charges[..|charges| - 1]) + if charges[|charges| - 1] == FromStars then 1 else 0
  }

  /** How many confirmations were handled to the end. */
  function Handled(confirmations: seq<Confirmation>): nat {
    if confirmations == [] then 0
    else Handled(confirmations[..|confirmations| - 1]) + if confirmations[|confirmations| - 1].stored then 1 else 0
  }

  /** How often Telegram confirms a Stars payment in these steps. */
  function Confirmations(steps: seq<Step>): nat {
    if steps == [] then 0 else (if steps[0] == ReadStars then 1 else 0) + Confirmations(steps[1..])
  }

  predicate Accounted(c: Claim) {
    Handled(c.confirmations) == Accepted(c.charges) + c.duplicates + c.lost
  }

  lemma {:induction false} HandledOneMore(confirmations: seq<Confirmation>, i: nat)
    requires i < |confirmations| && !confirmations[i].stored
    ensures Handled(confirmations[i := confirmations[i].(stored := true)]) == Handled(confirmations) + 1
  {
    var last := |confirmations| - 1;
    var after := confirmations[i := confirmations[i].(stored := true)];
    if i == last {
      assert after[..last] == confirmations[..last];
    } else {
      assert after[..last] == confirmations[..last][i := confirmations[i].(stored := true)];
      HandledOneMore(confirmations[..last], i);
    }
  }

  lemma HandledRead(confirmations: seq<Confirmation>, awaited: bool)
    ensures Handled(confirmations + [Confirmation(awaited, false)]) == Handled(confirmations)
  {
    assert (confirmations + [Confirmation(awaited, false)])[..|confirmations|] == confirmations;
  }

  lemma AcceptedOneMore(charges: seq<Charge>, charge: Charge)
    ensures Accepted(charges + [charge]) == Accepted(charges) + if charge == FromStars then 1 else 0
  {
    assert (charges + [charge])[..|charges|] == charges;
  }

  /**
   What becomes of a confirmation: a duplicate exactly if the order did not await it when it
   was read, accepted exactly if it did and no payment is pending at the write, and lost otherwise.
   */
  lemma ConfirmationOutcome(c: Claim, i: nat)
    requires InFlight(c, i)
    ensures
      var c', awaited := Next(c, StoreStars(i)), c.confirmations[i].awaited;
      && (c'.duplicates == c.duplicates + 1 <==> !awaited)
      && (c'.charges == c.charges + [FromStars] <==> awaited && !c.open)
      && (c'.lost == c.lost + 1 <==> awaited && c.open)
      && Accepted(c'.charges) + c'.duplicates + c'.lost == Accepted(c.charges) + c.duplicates + c.lost + 1
  {
    AcceptedOneMore(c.charges, FromStars);
    assert c.charges != c.charges + [FromStars];
  }

  predicate SameBooks(c: Claim, c': Claim) {
    && c'.confirmations == c.confirmations && Accepted(c'.charges) == Accepted(c.charges)
    && c'.duplicates == c.duplicates && c'.lost == c.lost
  }

  lemma PayKeepsBooks(c: Claim, i: nat)
    ensures SameBooks(c, Next(c, Pay(i)))
  {
    AcceptedOneMore(c.charges, FromWallet(c.price));
  }

  lemma OtherStepsKeepBooks(c: Claim, s: Step)
    requires !s.StoreStars? && !s.ReadStars? && !s.Pay?
    ensures SameBooks(c, Next(c, s))
  {
  }

  lemma NextAccounted(c: Claim, s: Step)
    requires Accounted(c)
    ensures Accounted(Next(c, s))
    ensures |Next(c, s).confirmations| == |c.confirmations| + if s == ReadStars then 1 else 0
  {
    if s.StoreStars? {
      if InFlight(c, s.i) {
        ConfirmationOutcome(c, s.i);
        HandledOneMore(c.confirmations, s.i);
      }
    } else if s.ReadStars? {
      HandledRead(c.confirmations, c.status == AwaitingStars);
    } else if s.Pay? {
      PayKeepsBooks(c, s.i);
    } else {
      OtherStepsKeepBooks(c, s);
    }
  }

  lemma {:induction false} StepsAccounted(c: Claim, steps: seq<Step>)
    requires Accounted(c)
    ensures Accounted(Steps(c, steps))
    ensures |Steps(c, steps).confirmations| == |c.confirmations| + Confirmations(steps)
    decreases |steps|
  {
    if steps != [] {
      NextAccounted(c, steps[0]);
      StepsAccounted(Next(c, steps[0]), steps[1..]);
    }
  }

  /**
   Over any interleaving, timely or not: of the Stars payments that Telegram took, those that
   were handled to the end were accepted, recorded as duplicates, or lost.
   */
  lemma StarsPaymentsAddUp(price: nat, balance: nat, steps: seq<Step>)
    ensures
      var c := Steps(NewClaim(price, balance), steps);
      && |c.confirmations| == Confirmations(steps)
      && Handled(c.confirmations) == Accepted(c.charges) + c.duplicates + c.lost
  {
    StepsAccounted(NewClaim(price, balance), steps);
  }

  /** The step handles an awaited Stars payment while another payment is pending. */
  predicate Loses(c: Claim, s: Step) {
    s.StoreStars? && InFlight(c, s.i) && c.confirmations[s.i].awaited && c.open
  }

  predicate NoneLoses(c: Claim, steps: seq<Step>)
    decreases |steps|
  {
    steps == [] || (!Loses(c, steps[0]) && NoneLoses(Next(c, steps[0]), steps[1..]))
  }

  /** Over any interleaving no Stars payment is lost exactly if none was stored while another payment was pending. */
  lemma {:induction false} NothingLostIff(c: Claim, steps: seq<Step>)
    ensures Steps(c, steps).lost >= c.lost
    ensures Steps(c, steps).lost == c.lost <==> NoneLoses(c, steps)
    decreases |steps|
  {
    if steps != [] {
      NothingLostIff(Next(c, steps[0]), steps[1..]);
    }
  }

  /** Two confirmations both read "awaiting_stars": every step is timely, and the second payment leaves no trace. */
  lemma SecondConfirmationLost(c: Claim)
    requires c.status == AwaitingStars && !c.open
    ensures
      var n := |c.confirmations|;
      var c2 := Next(Next(c, ReadStars), ReadStars);
      var c3 := Next(c2, StoreStars(n));
      var c4 := Next(c3, StoreStars(n + 1));
      && Timely(c2, StoreStars(n)) && Timely(c3, StoreStars(n + 1))
      && c4.charges == c.charges + [FromStars] && c4.lost == c.lost + 1 && c4.duplicates == c.duplicates
  {
    var n := |c.confirmations|;
    var c2 := Next(Next(c, ReadStars), ReadStars);
    assert c2.confirmations == c.confirmations + [Confirmation(true, false), Confirmation(true, false)];
    var c3 := Next(c2, StoreStars(n));
    assert c3.open && c3.confirmations[n + 1] == Confirmation(true, false);
  }

  /** A single Stars request is enough to get there. */
  lemma StarsAreAwaited()
    ensures
      var c := Next(Next(Next(NewClaim(500, 0), Arrive(false)), Read(0)), Pay(0));
      c.status == AwaitingStars && !c.open && c.confirmations == []
  {
  }

  /**
   A revert and a wallet payment between read and write: the Stars payment that was awaited
   is lost, while the order is paid once.
   */
  lemma OvertakenConfirmationLost(c: Claim, i: nat, j: nat)
    requires c.status == AwaitingStars && !c.open && c.balance >= c.price
    requires i < |c.requests| && c.requests[i].phase == Reverting
    requires j < |c.requests| && j != i && c.requests[j] == Request(true, SawPending)
    ensures
      var n := |c.confirmations|;
      var c3 := Next(Next(Next(c, ReadStars), Revert(i)), Pay(j));
      && c3.charges == c.charges + [FromWallet(c.price)]
      && Next(c3, StoreStars(n)).lost == c.lost + 1 && Next(c3, StoreStars(n)).charges == c3.charges
  {
    var n := |c.confirmations|;
    var c1 := Next(c, ReadStars);
    assert c1.confirmations[n] == Confirmation(true, false);
    var c2 := Next(c1, Revert(i));
    assert c2.status == Pending && c2.requests[j] == Request(true, SawPending);
  }

  // --- accepted once --------------------------------------------------------

  /**
   However the requests overlap, if confirmations are stored in time, at most one payment is
   accepted, and a wallet payment for the order's exact price.
   */
  lemma AcceptedAtMostOnce(price: nat, balance: nat, steps: seq<Step>)
    requires AllTimely(NewClaim(price, balance), steps)
    ensures
      var c := Steps(NewClaim(price, balance), steps);
      && |c.charges| <= 1
      && (forall k | 0 <= k < |c.charges| && c.charges[k].FromWallet? :: c.charges[k].amount == price)
      && (|c.charges| == 1 <==> c.status in {Paid, Completed, Rejected})
      && c.balance >= 0
      && forall i, j | HoldsOrder(c, i) && HoldsOrder(c, j) :: i == j
  {
    StepsSafe(NewClaim(price, balance), steps);
  }

  /** Where no Stars payment is stored, nothing comes too late. */
  lemma {:induction false} NoConfirmationIsTimely(c: Claim, steps: seq<Step>)
    requires forall k | 0 <= k < |steps| :: !steps[k].StoreStars?
    ensures AllTimely(c, steps)
    decreases |steps|
  {
    if steps != [] {
      NoConfirmationIsTimely(Next(c, steps[0]), steps[1..]);
    }
  }

  /**
   Once a payment was accepted, no later interleaving in which confirmations are stored in
   time opens the order to another one; what still arrives becomes a duplicate or is lost.
   */
  lemma AcceptedForGood(price: nat, balance: nat, steps: seq<Step>, more: seq<Step>)
    requires AllTimely(NewClaim(price, balance), steps)
    requires |Steps(NewClaim(price, balance), steps).charges| == 1
    requires AllTimely(Steps(NewClaim(price, balance), steps), more)
    ensures
      var c := Steps(NewClaim(price, balance), steps);
      var c' := Steps(c, more);
      && c'.charges == c.charges && !Waiting(c'.status) && c'.status != Cancelled
      && Handled(c'.confirmations) - Handled(c.confirmations) == c'.duplicates - c.duplicates + c'.lost - c.lost
  {
    StepsSafe(NewClaim(price, balance), steps);
    StepsSafe(Steps(NewClaim(price, balance), steps), more);
    StepsAccounted(NewClaim(price, balance), steps);
    StepsAccounted(Steps(NewClaim(price, balance), steps), more);
  }

  // --- the protocol and the shop --------------------------------------------

  function DuplicatesOf(t: Tables, o: nat): set<nat> {
    set p | p in t.payments && t.payments[p].order == o && t.payments[p].status == Duplicate
  }

  /** The claim is what the shop's tables say about one order. */
  ghost predicate Views(t: Tables, o: nat, c: Claim) {
    && o < |t.orders|
    && c.status == t.orders[o].status
    && c.price == t.orders[o].price
    && c.debit == t.orders[o].debit
    && c.balance == H.Balance(t, t.orders[o].user)
    && (c.open <==> H.HasPaymentIn(t, o, {Unreviewed}))
    && c.duplicates == |DuplicatesOf(t, o)|
  }

  lemma PendingHasNoOpenPayment(t: Tables, o: nat)
    requires Sound(t) && o < |t.orders| && t.orders[o].status != Paid
    ensures !H.HasPaymentIn(t, o, {Unreviewed})
  {
    forall p | p in t.payments && t.payments[p].order == o
      ensures t.payments[p].status != Unreviewed
    {
      assert Fits(t.payments[p].status, t.orders[t.payments[p].order].status);
    }
  }

  /** The wallet request's claim is the shop's wallet transaction, seen from this order. */
  lemma WalletMatchesShop(t: Tables, user: int, o: nat, c: Claim, i: nat)
    requires Sound(t) && H.Owns(t, user, o) && Views(t, o, c) && i < |c.requests|
    ensures
      var r, c' := H.TakeWallet(t, user, o), PayByWallet(c, i);
      if r.Success? then c'.requests[i].phase == Paying && Views(r.value.t, o, c')
      else c'.requests[i].phase == Ended && Views(t, o, c')
  {
    if c.status != Paid {
      PendingHasNoOpenPayment(t, o);
    }
    var r := H.TakeWallet(t, user, o);
    if r.Success? {
      assert r.value.t.payments[t.nextPayment] == Payment(o, Unreviewed, Wallet);
      assert DuplicatesOf(r.value.t, o) == DuplicatesOf(t, o);
    }
  }

  lemma StarsMatchesShop(t: Tables, user: int, o: nat, c: Claim, i: nat)
    requires Sound(t) && H.Owns(t, user, o) && Views(t, o, c) && i < |c.requests|
    ensures
      var r, c' := H.ClaimStars(t, user, o), PayByStars(c, i);
      if r.Success? then c'.requests[i].phase == Sending && Views(r.value, o, c')
      else c'.requests[i].phase == Ended && Views(t, o, c')
  {
  }

  lemma RevertMatchesShop(t: Tables, o: nat, c: Claim, i: nat)
    requires Views(t, o, c) && i < |c.requests| && c.requests[i].phase == Reverting
    ensures H.RevertStars(t, o).Success? && Views(H.RevertStars(t, o).value, o, Next(c, Revert(i)))
  {
  }

  lemma ReadStarsKeepsView(t: Tables, o: nat, c: Claim)
    requires Views(t, o, c)
    ensures Views(t, o, Next(c, ReadStars)) && InFlight(Next(c, ReadStars), |c.confirmations|)
    ensures Next(c, ReadStars).confirmations[|c.confirmations|].awaited <==> c.status == AwaitingStars
  {
  }

  /**
   Storing an awaited payment, however late, is the shop's unconditional write: stored or lost
   under the same condition.
   */
  lemma LateStarsMatchShop(t: Tables, o: nat, c: Claim, i: nat)
    requires Views(t, o, c) && t.nextPayment !in t.payments && InFlight(c, i) && c.confirmations[i].awaited
    ensures
      var r, c' := StaleWrites.LatePayment(t, o, Stars), Next(c, StoreStars(i));
      && (r.Success? <==> !Loses(c, StoreStars(i)))
      && Views(if r.Success? then r.value else t, o, c')
  {
    var r := StaleWrites.LatePayment(t, o, Stars);
    if r.Success? {
      assert r.value.payments[t.nextPayment] == Payment(o, Unreviewed, Stars);
      assert DuplicatesOf(r.value, o) == DuplicatesOf(t, o);
    }
  }

  lemma DuplicateStarsMatchShop(t: Tables, o: nat, c: Claim, i: nat)
    requires Views(t, o, c) && t.nextPayment !in t.payments && InFlight(c, i) && !c.confirmations[i].awaited
    ensures H.AddPayment(t, o, Duplicate, Stars).Success?
    ensures Views(H.AddPayment(t, o, Duplicate, Stars).value, o, Next(c, StoreStars(i)))
  {
    var t' := H.AddPayment(t, o, Duplicate, Stars).value;
    assert DuplicatesOf(t', o) == DuplicatesOf(t, o) + {t.nextPayment};
    assert forall p | p in t.payments :: t'.payments[p] == t.payments[p];
    assert H.HasPaymentIn(t', o, {Unreviewed}) <==> H.HasPaymentIn(t, o, {Unreviewed}) by {
      if p :| p in t.payments && t.payments[p].order == o && t.payments[p].status in {Unreviewed} {
        assert t'.payments[p] == t.payments[p];
      }
    }
  }

  /** A confirmation that is stored right after its read is the shop's transaction, accepted or duplicate alike. */
  lemma StarsPaymentMatchesShop(t: Tables, user: int, o: nat, c: Claim)
    requires Sound(t) && H.Owns(t, user, o) && Views(t, o, c)
    ensures
      var c' := Next(Next(c, ReadStars), StoreStars(|c.confirmations|));
      if c.status == AwaitingStars
      then H.TakeStars(t, user, o).Success? && Views(H.TakeStars(t, user, o).value.t, o, c')
      else forall route :: H.StarsPaid(t, user, o, route).Success? && Views(H.StarsPaid(t, user, o, route).value, o, c')
  {
    var read := Next(c, ReadStars);
    ReadStarsKeepsView(t, o, c);
    if c.status == AwaitingStars {
      PendingHasNoOpenPayment(t, o);
      LateStarsMatchShop(t, o, read, |c.confirmations|);
      assert StaleWrites.LatePayment(t, o, Stars) == Success(H.TakeStars(t, user, o).value.t);
    } else {
      DuplicateStarsMatchShop(t, o, read, |c.confirmations|);
    }
  }

  lemma RejectionMatchesShop(t: Tables, p: nat, o: nat, c: Claim)
    requires Sound(t) && Views(t, o, c)
    requires p in t.payments && t.payments[p] == Payment(o, Unreviewed, t.payments[p].channel)
    ensures H.RejectPayment(t, p).Success? && Views(H.RejectPayment(t, p).value, o, Next(c, Reject))
  {
    assert CountsAsPayment(t, p, o) && Fits(Unreviewed, t.orders[o].status);
    assert DebitFits(t.orders[o]);
    var t' := H.RejectPayment(t, p).value;
    assert DuplicatesOf(t', o) == DuplicatesOf(t, o);
    forall q | q in t'.payments && t'.payments[q].order == o
      ensures t'.payments[q].status != Unreviewed
    {
      assert q != p && t.payments[q].status == Unreviewed ==> CountsAsPayment(t, q, o);
    }
  }

  lemma ApprovalMatchesShop(t: Tables, p: nat, o: nat, c: Claim)
    requires Sound(t) && Views(t, o, c)
    requires p in t.payments && t.payments[p] == Payment(o, Unreviewed, t.payments[p].channel)
    ensures H.ClaimReview(t, p).Success? && Views(H.ClaimReview(t, p).value.t, o, Next(c, Approve))
  {
    assert CountsAsPayment(t, p, o);
    var t' := H.ClaimReview(t, p).value.t;
    assert DuplicatesOf(t', o) == DuplicatesOf(t, o);
    forall q | q in t'.payments && t'.payments[q].order == o
      ensures t'.payments[q].status != Unreviewed
    {
      assert q != p && t.payments[q].status == Unreviewed ==> CountsAsPayment(t, q, o);
    }
  }

  lemma SettledPayments(t: Tables, t': Tables, o: nat, p: nat, route: Route)
    requires PaymentsAgree(t) && Deliverable(t, o, p) && Settles(t, t', o, p, route)
    ensures !H.HasPaymentIn(t', o, {Unreviewed}) && DuplicatesOf(t', o) == DuplicatesOf(t, o)
  {
    assert CountsAsPayment(t, p, o);
    forall q | q in t'.payments && t'.payments[q].order == o
      ensures t'.payments[q].status != Unreviewed
    {
      assert q != p && t.payments[q].status == Unreviewed ==> CountsAsPayment(t, q, o);
    }
  }

  lemma SettledViews(t: Tables, t': Tables, o: nat, p: nat, route: Route, c: Claim, balance: int)
    requires Deliverable(t, o, p) && Settles(t, t', o, p, route) && Views(t, o, c) && c.balance >= 0
    requires !H.HasPaymentIn(t', o, {Unreviewed}) && DuplicatesOf(t', o) == DuplicatesOf(t, o)
    requires balance == H.Balance(t', t.orders[o].user)
    ensures balance >= 0 && Views(t', o, Next(Next(c, Finish), Move(balance)))
  {
  }

  /** A delivery ends the paid order; the cashback it pays may move the wallet. */
  lemma DeliveryMatchesShop(h: H.Handover, route: Route, c: Claim)
    requires Sound(h.t) && Deliverable(h.t, h.o, h.p) && Views(h.t, h.o, c) && c.balance >= 0
    ensures
      var t' := H.Deliver(h, route);
      || t' == h.t
      || (H.Balance(t', h.t.orders[h.o].user) >= 0
          && Views(t', h.o, Next(Next(c, Finish), Move(H.Balance(t', h.t.orders[h.o].user)))))
  {
    var t' := H.Deliver(h, route);
    DeliverSettles(h, route);
    if t' != h.t {
      SettledPayments(h.t, t', h.o, h.p, route);
      SettledViews(h.t, t', h.o, h.p, route, c, H.Balance(t', h.t.orders[h.o].user));
    }
  }

  lemma CleanupMatchesShop(t: Tables, o: nat, c: Claim, cutoff: int)
    requires Sound(t) && Views(t, o, c)
    ensures Views(H.CancelStale(t, cutoff).value, o, if H.Stale(t.orders[o], cutoff) then Next(c, Cancel) else c)
  {
    var t' := H.CancelStale(t, cutoff).value;
    assert DuplicatesOf(t', o) == DuplicatesOf(t, o);
    if H.Stale(t.orders[o], cutoff) {
      PendingHasNoOpenPayment(t, o);
    } else if c.open {
      var p :| p in t.payments && t.payments[p].order == o && t.payments[p].status in {Unreviewed};
      assert t'.payments[p] == t.payments[p];
    }
  }

  // --- the receipt handler --------------------------------------------------

  /**
   The receipt handler reads the order, uploads the photo, and then writes "paid" without
   a condition on the status; only an open pending payment stops it.
   */
  function StoreReceipt(c: Claim): Claim {
    if c.open then c else c.(status := Paid, open := true, charges := c.charges + [FromCard])
  }

  /** A receipt stored on a stale read keeps the protocol exactly when the order still waits for a payment. */
  lemma StaleReceiptIsSafeIff(c: Claim)
    requires Safe(c) && !c.open
    ensures Safe(StoreReceipt(c)) && Later(c.status, StoreReceipt(c).status) <==> Waiting(c.status)
  {
    var c' := StoreReceipt(c);
    assert forall i :: HoldsOrder(c', i) <==> HoldsOrder(c, i);
    if Waiting(c.status) {
      assert c.charges == [] && c'.charges == [FromCard];
    }
  }

  /** The read comes too early: the wallet payment is delivered first, and the receipt reopens the order. */
  lemma StaleReceiptReopens()
    ensures
      var c := Steps(NewClaim(500, 900), [Arrive(true), Read(0), Pay(0), Finish]);
      && c.status == Completed && |c.charges| == 1
      && StoreReceipt(c).status == Paid && |StoreReceipt(c).charges| == 2
  {
    var c := NewClaim(500, 900);
    var c1 := Next(c, Arrive(true));
    var c2 := Next(c1, Read(0));
    var c3 := Next(c2, Pay(0));
    var c4 := Next(c3, Finish);
    assert c1.requests == [Request(true, Arrived)];
    assert c2.requests == [Request(true, SawPending)];
    var all := [Arrive(true), Read(0), Pay(0), Finish];
    assert all[1..] == [Read(0), Pay(0), Finish] && all[1..][1..] == [Pay(0), Finish]
        && all[1..][1..][1..] == [Finish] && all[1..][1..][1..][1..] == [];
    assert Steps(c, all) == Steps(c1, all[1..]) == Steps(c2, all[1..][1..]) == Steps(c3, [Finish]) == Steps(c4, []) == c4;
  }
}
