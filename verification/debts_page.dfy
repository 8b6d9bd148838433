/** The debts page of the web client: it groups the fetched debts by
    customer, filters the groups by a search term, sends a payment for one
    debt of a group, and builds a customer's statement. `debts` is the list
    `GET /debts` returned (newest first) and `customers` the customer list. */
module DebtsPage {
  import opened Common
  import opened Sorting
  import opened Text
  import opened Ledger
  import opened Payments
  import opened DebtQueries
  import opened Documents

  /** Keeps the debts of that customer on which something is still owed. */
  function OpenFor(customerId: Id): Debt -> bool {
    (d: Debt) => d.customerId == customerId && d.remainingAmount > 0
  }

  /** The customer still owes something on at least one fetched debt. */
  predicate HasOpenDebt(debts: seq<Debt>, customerId: Id) {
    exists d :: d in debts && d.customerId == customerId && d.remainingAmount > 0
  }

  /** A row of the page: a customer, their open debts and what they owe. */
  datatype CustomerGroup = CustomerGroup(customer: Customer, debts: seq<Debt>, totalRemaining: int)

  /** The group of one customer: exactly their open debts, in fetched order,
      and their total. */
  function GroupOf(c: Customer, debts: seq<Debt>): (g: CustomerGroup)
    ensures g.customer == c
    ensures g.debts == Filter(debts, OpenFor(c.id))
    ensures forall d :: d in g.debts ==> d in debts && d.customerId == c.id && d.remainingAmount > 0
    ensures forall d :: d in debts && d.customerId == c.id && d.remainingAmount > 0 ==> d in g.debts
    ensures g.totalRemaining > 0 <==> HasOpenDebt(debts, c.id)
    ensures g.totalRemaining > 0 <==> |g.debts| > 0
  {
    var open := Filter(debts, OpenFor(c.id));
    var total := SumBy(open, Remaining);
    assert total > 0 <==> |open| > 0 by {
      assert forall i :: 0 <= i < |open| ==> Remaining(open[i]) > 0 by {
        forall i | 0 <= i < |open|
          ensures Remaining(open[i]) > 0
        {
          assert open[i] in open;
        }
      }
      SumPositiveIffNonEmpty(open, Remaining);
    }
    assert HasOpenDebt(debts, c.id) ==> |open| > 0 by {
      if HasOpenDebt(debts, c.id) {
        var d :| d in debts && d.customerId == c.id && d.remainingAmount > 0;
        assert d in open;
      }
    }
    assert |open| > 0 ==> HasOpenDebt(debts, c.id) by {
      if |open| > 0 {
        assert open[0] in open;
      }
    }
    CustomerGroup(c, open, total)
  }

  function GroupFor(debts: seq<Debt>): Customer -> CustomerGroup {
    (c: Customer) => GroupOf(c, debts)
  }

  function HasBalance(g: CustomerGroup): bool {
    g.totalRemaining > 0
  }

  /** The search box: the lower-cased name contains the lower-cased term, or
      the phone contains the term as typed. */
  predicate SearchMatches(c: Customer, term: string) {
    Contains(Lower(c.name), Lower(term)) || Contains(c.phone, term)
  }

  /** A customer matches exactly when the lower-cased term occurs somewhere
      in the lower-cased name or the term occurs somewhere in the phone; the
      empty term matches everyone. */
  lemma SearchMatchesIffOccurs(c: Customer, term: string)
    ensures SearchMatches(c, term) <==>
      (exists k :: OccursAt(Lower(c.name), Lower(term), k)) || (exists k :: OccursAt(c.phone, term, k))
    ensures term == "" ==> SearchMatches(c, term)
  {
    ContainsIffOccurs(Lower(c.name), Lower(term));
    ContainsIffOccurs(c.phone, term);
    assert SearchMatches(c, term) <==> Contains(Lower(c.name), Lower(term)) || Contains(c.phone, term);
  }

  function MatchesSearch(term: string): CustomerGroup -> bool {
    (g: CustomerGroup) => SearchMatches(g.customer, term)
  }

  /** `debtsByCustomer`: one group per customer who has an open debt and
      matches the search. */
  function DebtsByCustomer(customers: seq<Customer>, debts: seq<Debt>, term: string): (r: seq<CustomerGroup>)
    ensures forall g :: g in r ==> g.customer in customers && g == GroupOf(g.customer, debts) && |g.debts| > 0
    ensures forall c :: c in customers ==>
      (GroupOf(c, debts) in r <==> HasOpenDebt(debts, c.id) && SearchMatches(c, term))
  {
    var groups := MapSeq(customers, GroupFor(debts));
    GroupsCoverCustomers(customers, debts);
    Filter(Filter(groups, HasBalance), MatchesSearch(term))
  }

  /** Mapping the customers to groups yields exactly one group per customer. */
  lemma GroupsCoverCustomers(customers: seq<Customer>, debts: seq<Debt>)
    ensures forall g :: g in MapSeq(customers, GroupFor(debts)) ==>
      g.customer in customers && g == GroupOf(g.customer, debts)
    ensures forall c :: c in customers ==> GroupOf(c, debts) in MapSeq(customers, GroupFor(debts))
  {
    var groups := MapSeq(customers, GroupFor(debts));
    forall g | g in groups
      ensures g.customer in customers && g == GroupOf(g.customer, debts)
    {
      var k :| 0 <= k < |groups| && groups[k] == g;
      assert g == GroupOf(customers[k], debts);
    }
    forall c | c in customers
      ensures GroupOf(c, debts) in groups
    {
      var k :| 0 <= k < |customers| && customers[k] == c;
      assert groups[k] == GroupOf(c, debts);
    }
  }

  /** An empty search term hides nobody: every customer with an open debt is
      listed. */
  lemma EmptySearchKeepsAll(customers: seq<Customer>, debts: seq<Debt>)
    ensures forall c :: c in customers ==>
      (GroupOf(c, debts) in DebtsByCustomer(customers, debts, "") <==> HasOpenDebt(debts, c.id))
  {
    forall c | c in customers
      ensures SearchMatches(c, "")
    {
      ContainsIffOccurs(Lower(c.name), "");
    }
  }

  // ------------------------------------------------------------- payments

  /** What pressing "Confirm Payment" does: a validation message, an error
      caught from the request code, or a request sent to the server. */
  datatype Submission = Rejected | Failed | Send(request: PaymentRequest)

  /** `handleRecordPayment`: an empty or non-positive amount is refused
      locally; otherwise the whole amount goes to `debts[0]` of the group,
      even though the dialog shows the group's total. */
  function SubmitPayment(g: CustomerGroup, amount: Option<int>): (r: Submission)
    ensures r.Rejected? <==> !ValidAmount(amount)
    ensures r.Failed? <==> ValidAmount(amount) && |g.debts| == 0
    ensures r.Send? ==> |g.debts| > 0 && r.request.debtId == g.debts[0].id
    ensures r.Send? ==> r.request.paymentAmount == amount.value > 0
  {
    if !ValidAmount(amount) then Rejected
    else if |g.debts| == 0 then Failed
    else Send(PaymentRequest(g.debts[0].id, amount.value))
  }

  /** Open amounts and recorded amounts agree on sound debts: closed debts
      contribute zero. */
  lemma {:induction false} OpenTotalIsRemaining(debts: seq<Debt>, customerId: Id)
    requires AllValid(debts)
    ensures SumBy(Filter(debts, OpenFor(customerId)), Remaining) == RemainingOf(debts, customerId)
  {
    if |debts| > 0 {
      OpenTotalIsRemaining(debts[1..], customerId);
      var d := debts[0];
      if d.customerId == customerId && d.remainingAmount > 0 {
        SumConcat([d], Filter(debts[1..], OpenFor(customerId)), Remaining);
        SumConcat([d], Filter(debts[1..], OwnedBy(customerId)), Remaining);
      } else if d.customerId == customerId {
        SumConcat([d], Filter(debts[1..], OwnedBy(customerId)), Remaining);
      }
    }
  }

  /** The group total the page shows, computed from the server's listing,
      is the customer's remaining balance. */
  lemma GroupTotalIsRemaining(l: LedgerState, c: Customer)
    requires AllValid(l.debts)
    ensures GroupOf(c, AllDebts(l)).totalRemaining == RemainingOf(l.debts, c.id)
  {
    SumFilterSort(l.debts, DebtCreatedAt, OpenFor(c.id), Remaining);
    OpenTotalIsRemaining(l.debts, c.id);
  }

  /** The round trip of a payment from the page: the request names the
      newest open debt of the customer, the server accepts it, and the
      customer's total on the reloaded page drops by the amount capped at
      that one debt's remaining balance, which can be less than the amount
      typed even when the amount does not exceed the total the dialog
      shows. */
  lemma PaymentRoundTrip(l: LedgerState, c: Customer, amount: int, now: int)
    requires AllValid(l.debts) && UniqueIds(l.debts) && Owned(l)
    requires SubmitPayment(GroupOf(c, AllDebts(l)), Some(amount)).Send?
    ensures var g := GroupOf(c, AllDebts(l));
      var q := SubmitPayment(g, Some(amount)).request;
      var r := RecordPayment(l, q.debtId, Some(q.paymentAmount), now);
      && (forall d :: d in g.debts ==> d.createdAt <= g.debts[0].createdAt)
      && r.Ok?
      && r.debt.id == g.debts[0].id
      && GroupOf(c, AllDebts(r.ledger)).totalRemaining
           == g.totalRemaining - Min(amount, g.debts[0].remainingAmount)
  {
    var listing := AllDebts(l);
    var g := GroupOf(c, listing);
    var first := g.debts[0];
    GroupHeadIsNewest(listing, c);
    assert first in g.debts;
    assert first in multiset(listing);
    PaymentOnStoredDebt(l, first, amount, now);
    GroupTotalIsRemaining(l, c);
    GroupTotalIsRemaining(RecordPayment(l, first.id, Some(amount), now).ledger, c);
  }

  /** On a newest-first listing, a group's first debt is its newest. */
  lemma GroupHeadIsNewest(listing: seq<Debt>, c: Customer)
    requires SortedDesc(listing, DebtCreatedAt)
    requires |GroupOf(c, listing).debts| > 0
    ensures var g := GroupOf(c, listing);
      forall d :: d in g.debts ==> d.createdAt <= g.debts[0].createdAt
  {
    var g := GroupOf(c, listing);
    FilterKeepsSorted(listing, OpenFor(c.id), DebtCreatedAt);
    forall d | d in g.debts
      ensures d.createdAt <= g.debts[0].createdAt
    {
      var k :| 0 <= k < |g.debts| && g.debts[k] == d;
      if k > 0 {
        assert DebtCreatedAt(g.debts[0]) >= DebtCreatedAt(g.debts[k]);
      }
    }
  }

  /** The server's side of a payment on a stored debt of a sound, owned
      ledger with unique ids: it is accepted and lowers the owner's balance
      by the amount capped at that debt's remaining balance. */
  lemma PaymentOnStoredDebt(l: LedgerState, d: Debt, amount: int, now: int)
    requires AllValid(l.debts) && UniqueIds(l.debts) && Owned(l)
    requires d in l.debts && amount > 0
    ensures var r := RecordPayment(l, d.id, Some(amount), now);
      && r.Ok?
      && r.debt.id == d.id
      && AllValid(r.ledger.debts)
      && RemainingOf(r.ledger.debts, d.customerId) == RemainingOf(l.debts, d.customerId) - Min(amount, d.remainingAmount)
  {
    FindsStoredDebt(l.debts, d);
    var i := DebtIndex(l.debts, d.id).value;
    var r := RecordPayment(l, d.id, Some(amount), now);
    var e := ApplyToDebt(d, amount, now);
    assert r.ledger.debts == l.debts[i := e];
    assert ValidDebt(l.debts[i]);
    RemainingAfterUpdate(l.debts, i, e, d.customerId);
  }

  // ------------------------------------------------------------ statement

  /** The first listed customer with this id, if any. */
  function FindCustomer(customers: seq<Customer>, customerId: Id): (r: Option<Customer>)
    ensures r.Some? ==> r.value in customers && r.value.id == customerId
    ensures r.None? <==> forall c :: c in customers ==> c.id != customerId
  {
    if |customers| == 0 then None
    else if customers[0].id == customerId then Some(customers[0])
    else FindCustomer(customers[1..], customerId)
  }

  /** The download name `debt_statement_<name>_<timestamp>.pdf`, with each
      whitespace run of the name turned into `_`. */
  function StatementFileName(name: string, stamp: string): string {
    "debt_statement_" + ReplaceWhitespaceRuns(name) + "_" + stamp + ".pdf"
  }

  /** One row of the web statement: total, paid and remaining columns. */
  datatype WebRow = WebRow(total: int, paid: int, remaining: int)

  /** The row as the page renders it: the total column reads
      `debt.totalAmount`, a field debt records do not carry, so
      `(undefined || 0)` prints 0 for every debt; paid and remaining show
      the PDF row's figures. */
  function WebRowAsWritten(d: Debt): (w: WebRow)
    ensures w.total == 0
    ensures w.paid == RowOf(d).paid && w.remaining == RowOf(d).remaining
  {
    WebRow(0, d.paidAmount, d.remainingAmount)
  }

  /** The row as intended: the total column shows the debt's original
      amount, as the PDF statement does. */
  function WebRowOf(d: Debt): (w: WebRow)
    ensures w.total == RowOf(d).amount && w.paid == RowOf(d).paid && w.remaining == RowOf(d).remaining
  {
    WebRow(d.amount, d.paidAmount, d.remainingAmount)
  }

  /** The page's total column disagrees with the PDF statement for every
      debt with a non-zero amount. */
  lemma WebTotalColumnLost(d: Debt)
    ensures WebRowAsWritten(d).total == 0
    ensures WebRowAsWritten(d).total == RowOf(d).amount <==> d.amount == 0
    ensures WebRowOf(d).total == RowOf(d).amount
  {
  }

  datatype Download =
    | CustomerMissing
    | NothingOutstanding
    | WebStatement(customer: Customer, rows: seq<WebRow>, total: int, fileName: string)

  /** `downloadStatement`: fails for an unknown customer or one without open
      debts; otherwise lists the open debts with their total. The rows are
      the page's own, so the total column reads 0. */
  function DownloadStatement(customers: seq<Customer>, debts: seq<Debt>, customerId: Id, stamp: string): (r: Download)
    ensures r.CustomerMissing? <==> forall c :: c in customers ==> c.id != customerId
    ensures r.NothingOutstanding? <==> FindCustomer(customers, customerId).Some? && !HasOpenDebt(debts, customerId)
    ensures r.WebStatement? ==>
      && r.customer in customers && r.customer.id == customerId
      && r.rows == MapSeq(Filter(debts, OpenFor(customerId)), WebRowAsWritten)
      && r.total > 0
      && r.total == GroupOf(r.customer, debts).totalRemaining
      && r.fileName == StatementFileName(r.customer.name, stamp)
  {
    match FindCustomer(customers, customerId)
    case None => CustomerMissing
    case Some(c) =>
      var g := GroupOf(c, debts);
      if |g.debts| == 0 then NothingOutstanding
      else WebStatement(c, MapSeq(g.debts, WebRowAsWritten), g.totalRemaining, StatementFileName(c.name, stamp))
  }

  /** The download with the total column corrected to the debt's amount. It
      fails exactly when the page's download fails, and otherwise differs
      from it only in the total column, which the page leaves at 0. */
  function DownloadStatementIntended(customers: seq<Customer>, debts: seq<Debt>, customerId: Id, stamp: string): (r: Download)
    ensures var w := DownloadStatement(customers, debts, customerId, stamp);
      && (!w.WebStatement? ==> r == w)
      && (w.WebStatement? ==>
        && r.WebStatement?
        && r.customer == w.customer && r.total == w.total && r.fileName == w.fileName
        && |r.rows| == |w.rows|
        && forall k :: 0 <= k < |r.rows| ==>
             r.rows[k].paid == w.rows[k].paid && r.rows[k].remaining == w.rows[k].remaining && w.rows[k].total == 0)
    ensures r.WebStatement? ==>
      var open := Filter(debts, OpenFor(customerId));
      && |r.rows| == |open|
      && forall k :: 0 <= k < |open| ==> r.rows[k].total == RowOf(open[k]).amount
  {
    match DownloadStatement(customers, debts, customerId, stamp)
    case WebStatement(c, _, total, fileName) =>
      WebStatement(c, MapSeq(Filter(debts, OpenFor(customerId)), WebRowOf), total, fileName)
    case other => other
  }

  /** On a balanced ledger the web statement's total (summed on the page)
      equals the header total of the PDF statement (the cached
      `totalDebt`). */
  lemma WebStatementMatchesPdf(l: LedgerState, customers: seq<Customer>, customerId: Id, stamp: string)
    requires Balanced(l) && AllValid(l.debts) && customerId in l.customers
    requires DownloadStatement(customers, AllDebts(l), customerId, stamp).WebStatement?
    ensures DownloadStatement(customers, AllDebts(l), customerId, stamp).total
      == StatementLines(l.customers[customerId], DebtsOfCustomer(l, customerId))[2].amount
  {
    var c := FindCustomer(customers, customerId).value;
    GroupTotalIsRemaining(l, c);
  }
}
