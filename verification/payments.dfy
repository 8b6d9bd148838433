/** The payment handler `PUT /debts/:debtId`: validate the amount, find the
    debt, cap the payment at what is still owed, move it from remaining to
    paid, log it in the payment history, and lower the customer's cached
    `totalDebt` (never below zero). The two saves of the handler are taken as
    one step. */
module Payments {
  import opened Common
  import opened Ledger

  /** The handler's responses. `ServerError` is the 500 raised when the
      debt's customer cannot be loaded: by then the updated debt has already
      been saved, so it carries the ledger as persisted. */
  datatype Outcome =
    | Ok(ledger: LedgerState, debt: Debt)
    | BadRequest
    | NotFound
    | ServerError(ledger: LedgerState)

  /** A request body the client sends: which debt, and how much. */
  datatype PaymentRequest = PaymentRequest(debtId: Id, paymentAmount: int)

  /** `!paymentAmount || paymentAmount <= 0` rejects a missing, zero or
      negative amount. */
  predicate ValidAmount(paymentAmount: Option<int>) {
    paymentAmount.Some? && paymentAmount.value > 0
  }

  /** The debt record after a payment of `requested` at time `now`. */
  function ApplyToDebt(d: Debt, requested: int, now: int): (e: Debt)
    ensures e.paidAmount + e.remainingAmount == d.paidAmount + d.remainingAmount
    ensures e.remainingAmount == Max(0, d.remainingAmount - requested)
    ensures e.paymentHistory == d.paymentHistory + [PaymentEntry(d.remainingAmount - e.remainingAmount, now)]
    ensures e.id == d.id && e.customerId == d.customerId && e.transactionId == d.transactionId
    ensures e.amount == d.amount && e.createdAt == d.createdAt
    ensures ValidDebt(d) && requested > 0 ==>
      && ValidDebt(e)
      && 0 <= d.remainingAmount - e.remainingAmount <= d.remainingAmount
      && d.remainingAmount - e.remainingAmount <= requested
      && e.paidAmount >= d.paidAmount
  {
    var applied := Min(requested, d.remainingAmount);
    d.(paidAmount := d.paidAmount + applied,
       remainingAmount := d.remainingAmount - applied,
       paymentHistory := d.paymentHistory + [PaymentEntry(applied, now)])
  }

  /** The amount a payment actually moves: what it removed from remaining. */
  function Applied(d: Debt, requested: int): int {
    d.remainingAmount - ApplyToDebt(d, requested, 0).remainingAmount
  }

  /** `l2` is `l` with debt `i` paid and nothing else in the debt or
      transaction collections changed. */
  ghost predicate DebtPaid(l: LedgerState, l2: LedgerState, i: nat, requested: int, now: int) {
    && i < |l.debts|
    && |l2.debts| == |l.debts|
    && l2.debts[i] == ApplyToDebt(l.debts[i], requested, now)
    && (forall j :: 0 <= j < |l.debts| && j != i ==> l2.debts[j] == l.debts[j])
    && l2.transactions == l.transactions
  }

  /** `l2` is `l` with only the owner's `totalDebt` lowered by `applied`,
      clamped at zero. */
  ghost predicate OwnerCharged(l: LedgerState, l2: LedgerState, owner: Id, applied: int) {
    && owner in l.customers
    && l2.customers.Keys == l.customers.Keys
    && l2.customers[owner] == l.customers[owner].(totalDebt := Max(0, l.customers[owner].totalDebt - applied))
    && (forall c :: c in l.customers && c != owner ==> l2.customers[c] == l.customers[c])
  }

  function RecordPayment(l: LedgerState, debtId: Id, paymentAmount: Option<int>, now: int): (r: Outcome)
    ensures r.BadRequest? <==> !ValidAmount(paymentAmount)
    ensures r.NotFound? <==> ValidAmount(paymentAmount) && DebtIndex(l.debts, debtId).None?
    ensures r.Ok? || r.ServerError? ==>
      && ValidAmount(paymentAmount)
      && DebtIndex(l.debts, debtId).Some?
      && DebtPaid(l, r.ledger, DebtIndex(l.debts, debtId).value, paymentAmount.value, now)
    ensures r.ServerError? ==>
      && l.debts[DebtIndex(l.debts, debtId).value].customerId !in l.customers
      && r.ledger.customers == l.customers
    ensures r.Ok? ==>
      var d := l.debts[DebtIndex(l.debts, debtId).value];
      && r.debt == ApplyToDebt(d, paymentAmount.value, now)
      && OwnerCharged(l, r.ledger, d.customerId, Applied(d, paymentAmount.value))
  {
    if !ValidAmount(paymentAmount) then BadRequest
    else match DebtIndex(l.debts, debtId)
      case None => NotFound
      case Some(i) =>
        var d := l.debts[i];
        var paid := ApplyToDebt(d, paymentAmount.value, now);
        var saved := l.(debts := l.debts[i := paid]);
        if d.customerId !in l.customers then ServerError(saved)
        else
          var c := l.customers[d.customerId];
          var applied := d.remainingAmount - paid.remainingAmount;
          Ok(saved.(customers := l.customers[d.customerId := c.(totalDebt := Max(0, c.totalDebt - applied))]), paid)
  }

  /** Changing one debt's remaining amount changes its owner's total by the
      same amount and leaves every other customer's total alone. */
  lemma {:induction false} RemainingAfterUpdate(debts: seq<Debt>, i: nat, e: Debt, c: Id)
    requires i < |debts| && e.customerId == debts[i].customerId
    ensures RemainingOf(debts[i := e], c) ==
      RemainingOf(debts, c) + (if debts[i].customerId == c then e.remainingAmount - debts[i].remainingAmount else 0)
  {
    var pre, post := debts[..i], debts[i + 1..];
    assert debts == pre + [debts[i]] + post;
    assert debts[i := e] == pre + [e] + post;
    var p := OwnedBy(c);
    FilterConcat(pre + [debts[i]], post, p);
    FilterConcat(pre, [debts[i]], p);
    FilterConcat(pre + [e], post, p);
    FilterConcat(pre, [e], p);
    SumConcat(Filter(pre, p) + Filter([debts[i]], p), Filter(post, p), Remaining);
    SumConcat(Filter(pre, p), Filter([debts[i]], p), Remaining);
    SumConcat(Filter(pre, p) + Filter([e], p), Filter(post, p), Remaining);
    SumConcat(Filter(pre, p), Filter([e], p), Remaining);
  }

  /** A sound debt's owner owes at least that debt's remaining amount. */
  lemma OwnerOwesAtLeast(debts: seq<Debt>, i: nat)
    requires i < |debts| && AllValid(debts)
    ensures RemainingOf(debts, debts[i].customerId) >= debts[i].remainingAmount
  {
    var owned := Filter(debts, OwnedBy(debts[i].customerId));
    assert debts[i] in owned;
    var k :| 0 <= k < |owned| && owned[k] == debts[i];
    forall j | 0 <= j < |owned|
      ensures Remaining(owned[j]) >= 0
    {
      assert owned[j] in debts;
    }
    SumBounds(owned, Remaining);
  }

  /** A successful payment keeps any one customer in sync: if that
      customer's `totalDebt` equalled the sum of their remaining amounts
      before, it still does after, whatever the other customers' cached
      totals hold. For the paying customer the cap means the clamp never
      fires, so the total drops by exactly the applied amount. */
  lemma PaymentKeepsCustomerBalance(l: LedgerState, debtId: Id, amount: int, now: int, c: Id)
    requires AllValid(l.debts)
    requires c in l.customers && l.customers[c].totalDebt == RemainingOf(l.debts, c)
    requires RecordPayment(l, debtId, Some(amount), now).Ok?
    ensures var r := RecordPayment(l, debtId, Some(amount), now);
      r.ledger.customers[c].totalDebt == RemainingOf(r.ledger.debts, c)
    ensures var r := RecordPayment(l, debtId, Some(amount), now);
      var d := l.debts[DebtIndex(l.debts, debtId).value];
      d.customerId == c ==> r.ledger.customers[c].totalDebt == l.customers[c].totalDebt - Applied(d, amount)
  {
    var r := RecordPayment(l, debtId, Some(amount), now);
    var i := DebtIndex(l.debts, debtId).value;
    var d := l.debts[i];
    var e := ApplyToDebt(d, amount, now);
    assert r.ledger.debts == l.debts[i := e];
    RemainingAfterUpdate(l.debts, i, e, c);
    if d.customerId == c {
      OwnerOwesAtLeast(l.debts, i);
    }
  }

  /** A successful payment on a balanced ledger of sound debts keeps it
      balanced and sound: every customer stays in sync, and the owner's
      `totalDebt` drops by exactly the applied amount. */
  lemma PaymentKeepsBalance(l: LedgerState, debtId: Id, amount: int, now: int)
    requires Balanced(l) && AllValid(l.debts)
    requires RecordPayment(l, debtId, Some(amount), now).Ok?
    ensures var r := RecordPayment(l, debtId, Some(amount), now);
      var d := l.debts[DebtIndex(l.debts, debtId).value];
      && Balanced(r.ledger)
      && AllValid(r.ledger.debts)
      && r.ledger.customers[d.customerId].totalDebt == l.customers[d.customerId].totalDebt - Applied(d, amount)
  {
    var r := RecordPayment(l, debtId, Some(amount), now);
    var d := l.debts[DebtIndex(l.debts, debtId).value];
    forall c | c in r.ledger.customers
      ensures r.ledger.customers[c].totalDebt == RemainingOf(r.ledger.debts, c)
    {
      PaymentKeepsCustomerBalance(l, debtId, amount, now, c);
    }
    PaymentKeepsCustomerBalance(l, debtId, amount, now, d.customerId);
  }

  /** Paying more than is owed is the same as paying exactly what is owed:
      the debt ends fully paid and the excess leaves no trace. */
  lemma OverpaymentCapped(l: LedgerState, debtId: Id, requested: int, now: int)
    requires DebtIndex(l.debts, debtId).Some?
    requires var d := l.debts[DebtIndex(l.debts, debtId).value];
      0 < d.remainingAmount <= requested
    ensures var d := l.debts[DebtIndex(l.debts, debtId).value];
      && RecordPayment(l, debtId, Some(requested), now) == RecordPayment(l, debtId, Some(d.remainingAmount), now)
      && ApplyToDebt(d, requested, now).remainingAmount == 0
      && ApplyToDebt(d, requested, now).paidAmount == d.paidAmount + d.remainingAmount
  {
    var d := l.debts[DebtIndex(l.debts, debtId).value];
    assert ApplyToDebt(d, requested, now) == ApplyToDebt(d, d.remainingAmount, now);
  }

  /** The ledger as persisted after one request: a 500 still leaves the
      saved debt behind, a 400 or 404 leaves everything as it was. */
  function Step(l: LedgerState, q: PaymentRequest, now: int): LedgerState {
    var r := RecordPayment(l, q.debtId, Some(q.paymentAmount), now);
    if r.Ok? || r.ServerError? then r.ledger else l
  }

  /** A caller that sends a series of payments and carries on past failures. */
  function PayAll(l: LedgerState, requests: seq<PaymentRequest>, now: int): LedgerState
    decreases |requests|
  {
    if |requests| == 0 then l else PayAll(Step(l, requests[0], now), requests[1..], now)
  }

  /** `l2` owes no more than `l` anywhere, debt by debt and customer by
      customer. */
  ghost predicate NoHigher(l: LedgerState, l2: LedgerState) {
    && |l2.debts| == |l.debts|
    && (forall i :: 0 <= i < |l.debts| ==> l2.debts[i].remainingAmount <= l.debts[i].remainingAmount)
    && l2.customers.Keys == l.customers.Keys
    && (forall c :: c in l.customers ==> l2.customers[c].totalDebt <= l.customers[c].totalDebt)
  }

  /** Sound, balanced, and every debt's customer exists. */
  ghost predicate Healthy(l: LedgerState) {
    Balanced(l) && AllValid(l.debts) && Owned(l)
  }

  /** One request keeps a healthy ledger healthy and owes no more. */
  lemma StepOnlyLowers(l: LedgerState, q: PaymentRequest, now: int)
    requires Healthy(l)
    ensures Healthy(Step(l, q, now)) && NoHigher(l, Step(l, q, now))
  {
    var r := RecordPayment(l, q.debtId, Some(q.paymentAmount), now);
    if r.Ok? {
      PaymentKeepsBalance(l, q.debtId, q.paymentAmount, now);
      OkStepLowers(l, r.ledger, DebtIndex(l.debts, q.debtId).value, q.paymentAmount, now);
    } else {
      assert !r.ServerError?;
    }
  }

  /** Paying one sound debt of an owned ledger and charging its owner keeps
      every debt owned and owes no more. */
  lemma OkStepLowers(l: LedgerState, l2: LedgerState, i: nat, requested: int, now: int)
    requires Owned(l) && AllValid(l.debts) && requested > 0
    requires DebtPaid(l, l2, i, requested, now)
    requires OwnerCharged(l, l2, l.debts[i].customerId, Applied(l.debts[i], requested))
    requires var owner := l.debts[i].customerId;
      l2.customers[owner].totalDebt == l.customers[owner].totalDebt - Applied(l.debts[i], requested)
    ensures Owned(l2) && NoHigher(l, l2)
  {
    var d := l.debts[i];
    assert ValidDebt(d);
    assert Applied(d, requested) >= 0;
    forall j | 0 <= j < |l2.debts|
      ensures l2.debts[j].customerId in l2.customers
      ensures l2.debts[j].remainingAmount <= l.debts[j].remainingAmount
    {
      assert j == i || l2.debts[j] == l.debts[j];
    }
  }

  /** Repeated payments never raise a debt's remaining amount or a
      customer's `totalDebt`, and keep a healthy ledger healthy. */
  lemma {:induction false} PaymentsOnlyLower(l: LedgerState, requests: seq<PaymentRequest>, now: int)
    requires Healthy(l)
    ensures Healthy(PayAll(l, requests, now)) && NoHigher(l, PayAll(l, requests, now))
    decreases |requests|
  {
    if |requests| > 0 {
      var next := Step(l, requests[0], now);
      StepOnlyLowers(l, requests[0], now);
      PaymentsOnlyLower(next, requests[1..], now);
      NoHigherTransitive(l, next, PayAll(next, requests[1..], now));
    }
  }

  lemma NoHigherTransitive(a: LedgerState, b: LedgerState, c: LedgerState)
    requires NoHigher(a, b) && NoHigher(b, c)
    ensures NoHigher(a, c)
  {
  }
}
