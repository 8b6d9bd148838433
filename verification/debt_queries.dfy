/** The read routes of the debt router: all debts, one customer's debts, and
    the data gathered for a customer's statement. Each is a filter on the
    collection followed by the `{ createdAt: -1 }` sort. */
module DebtQueries {
  import opened Common
  import opened Sorting
  import opened Ledger

  /** `GET /debts`: every debt, newest first. */
  function AllDebts(l: LedgerState): (r: seq<Debt>)
    ensures SortedDesc(r, DebtCreatedAt)
    ensures multiset(r) == multiset(l.debts)
  {
    SortDesc(l.debts, DebtCreatedAt)
  }

  /** `GET /debts/customer/:customerId`: that customer's debts, fully paid
      ones included, newest first. */
  function DebtsOfCustomer(l: LedgerState, customerId: Id): (r: seq<Debt>)
    ensures SortedDesc(r, DebtCreatedAt)
    ensures multiset(r) == multiset(Filter(l.debts, OwnedBy(customerId)))
    ensures forall d :: d in r ==> d in l.debts && d.customerId == customerId
    ensures forall d :: d in l.debts && d.customerId == customerId ==> d in r
  {
    var owned := Filter(l.debts, OwnedBy(customerId));
    SortKeepsMembers(owned, DebtCreatedAt);
    SortDesc(owned, DebtCreatedAt)
  }

  /** `Transaction.find({ customerId })` sorted newest first. */
  function TransactionsOfCustomer(l: LedgerState, customerId: Id): (r: seq<Transaction>)
    ensures SortedDesc(r, TxCreatedAt)
    ensures multiset(r) == multiset(Filter(l.transactions, TxOf(customerId)))
    ensures forall t :: t in r ==> t in l.transactions && t.customerId == Some(customerId)
  {
    var owned := Filter(l.transactions, TxOf(customerId));
    SortKeepsMembers(owned, TxCreatedAt);
    SortDesc(owned, TxCreatedAt)
  }

  /** What `GET /debts/statement/:customerId` hands to the statement
      renderer. */
  datatype StatementData = StatementData(customer: Customer, debts: seq<Debt>, transactions: seq<Transaction>)

  /** The statement route: 404 for an unknown customer, otherwise the
      customer with their debts and transactions. */
  function StatementQuery(l: LedgerState, customerId: Id): (r: Option<StatementData>)
    ensures r.None? <==> customerId !in l.customers
    ensures r.Some? ==>
      && r.value.customer == l.customers[customerId]
      && r.value.debts == DebtsOfCustomer(l, customerId)
      && r.value.transactions == TransactionsOfCustomer(l, customerId)
  {
    if customerId !in l.customers then None
    else Some(StatementData(l.customers[customerId], DebtsOfCustomer(l, customerId), TransactionsOfCustomer(l, customerId)))
  }

  /** On a balanced ledger the statement's debts add up to the customer's
      cached `totalDebt`, whatever order the sort produced. */
  lemma StatementDebtsSumToTotal(l: LedgerState, customerId: Id)
    requires Balanced(l) && customerId in l.customers
    ensures SumBy(StatementQuery(l, customerId).value.debts, Remaining) == l.customers[customerId].totalDebt
  {
    var owned := Filter(l.debts, OwnedBy(customerId));
    SumFilterSort(owned, DebtCreatedAt, OwnedBy(customerId), Remaining);
    FilterKeepsAll(owned, OwnedBy(customerId));
    FilterKeepsAll(SortDesc(owned, DebtCreatedAt), OwnedBy(customerId)) by {
      var s := SortDesc(owned, DebtCreatedAt);
      forall i | 0 <= i < |s|
        ensures OwnedBy(customerId)(s[i])
      {
        assert s[i] in multiset(owned);
      }
    }
  }
}
