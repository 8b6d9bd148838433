/** The records the debt ledger works on, and the ledger itself: the debt,
    customer and transaction collections as the routes see them. Money is an
    integer number of the smallest currency unit. */
module Ledger {
  import opened Common

  /** One entry of a debt's `paymentHistory`. */
  datatype PaymentEntry = PaymentEntry(amount: int, date: int)

  /** A debt record: what a customer still owes on one sale. */
  datatype Debt = Debt(
    id: Id,
    customerId: Id,
    transactionId: Id,
    amount: int,
    paidAmount: int,
    remainingAmount: int,
    paymentHistory: seq<PaymentEntry>,
    createdAt: int)

  /** A customer with the cached aggregate `totalDebt`. */
  datatype Customer = Customer(id: Id, name: string, phone: string, totalDebt: int)

  /** What a line item's `productId` holds when the receipt is drawn: the
      product document after `populate`, `null` when `populate` found no
      product, an unpopulated `ObjectId` reference (an object without a
      `name`), or a value that is not an object at all (absent, or an id kept
      as a plain string). */
  datatype ProductRef = Populated(name: string) | Dangling | Unpopulated(productId: Id) | Missing

  /** A line item; `price` is `None` when the field is absent. */
  datatype LineItem = LineItem(product: ProductRef, quantity: int, price: Option<int>)

  /** A sale or debt-payment transaction. `txType` and `paymentStatus` are the
      stored strings (`"debt_payment"`, `"paid"`, `"partial"`, ...);
      `customerId` is `None` for a walk-in sale. */
  datatype Transaction = Transaction(
    id: Id,
    transactionId: string,
    txType: string,
    customerId: Option<Id>,
    items: seq<LineItem>,
    totalAmount: int,
    paidAmount: int,
    debtAmount: int,
    paymentStatus: string,
    createdAt: int)

  /** The persisted state: the debt collection in storage order, customers by
      id, and the transaction collection. */
  datatype LedgerState = LedgerState(
    debts: seq<Debt>,
    customers: map<Id, Customer>,
    transactions: seq<Transaction>)

  function Remaining(d: Debt): int { d.remainingAmount }

  function DebtCreatedAt(d: Debt): int { d.createdAt }

  function TxCreatedAt(t: Transaction): int { t.createdAt }

  /** Selects the debts `{ customerId }` names. */
  function OwnedBy(customerId: Id): Debt -> bool {
    (d: Debt) => d.customerId == customerId
  }

  /** Selects the transactions `{ customerId }` names. */
  function TxOf(customerId: Id): Transaction -> bool {
    (t: Transaction) => t.customerId == Some(customerId)
  }

  /** What a customer owes according to the debt records: the sum of the
      remaining amounts of their debts. */
  function RemainingOf(debts: seq<Debt>, customerId: Id): int {
    SumBy(Filter(debts, OwnedBy(customerId)), Remaining)
  }

  /** A debt record is sound when paid and remaining are non-negative and add
      up to the original amount. */
  predicate ValidDebt(d: Debt) {
    d.paidAmount >= 0 && d.remainingAmount >= 0 && d.amount == d.paidAmount + d.remainingAmount
  }

  predicate AllValid(debts: seq<Debt>) {
    forall i :: 0 <= i < |debts| ==> ValidDebt(debts[i])
  }

  predicate UniqueIds(debts: seq<Debt>) {
    forall i, j :: 0 <= i < j < |debts| ==> debts[i].id != debts[j].id
  }

  /** Every customer's cached `totalDebt` equals the sum of the remaining
      amounts of their debts. */
  predicate Balanced(l: LedgerState) {
    forall c :: c in l.customers ==> l.customers[c].totalDebt == RemainingOf(l.debts, c)
  }

  /** Every debt names a customer that exists. */
  predicate Owned(l: LedgerState) {
    forall i :: 0 <= i < |l.debts| ==> l.debts[i].customerId in l.customers
  }

  /** `Debt.findById`: the position of the debt with this id, if any. */
  function DebtIndex(debts: seq<Debt>, debtId: Id): (r: Option<nat>)
    ensures r.Some? ==> r.value < |debts| && debts[r.value].id == debtId
    ensures r.Some? ==> forall j :: 0 <= j < r.value ==> debts[j].id != debtId
    ensures r.None? <==> forall j :: 0 <= j < |debts| ==> debts[j].id != debtId
  {
    if |debts| == 0 then None
    else if debts[0].id == debtId then Some(0)
    else match DebtIndex(debts[1..], debtId)
      case None => None
      case Some(k) => Some(k + 1)
  }

  /** With unique ids, the lookup finds the one stored debt carrying that id. */
  lemma FindsStoredDebt(debts: seq<Debt>, d: Debt)
    requires UniqueIds(debts) && d in debts
    ensures DebtIndex(debts, d.id).Some?
    ensures debts[DebtIndex(debts, d.id).value] == d
  {
    var k :| 0 <= k < |debts| && debts[k] == d;
    var i := DebtIndex(debts, d.id).value;
    assert !(i < k) && !(k < i);
  }
}
