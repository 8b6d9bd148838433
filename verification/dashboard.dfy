/** The dashboard of the web client: the four figures computed from the
    fetched transactions and debts, the period report, the recent-transactions
    list and the colour of a payment status. `txs` is the transaction list as
    fetched; `startDate` is the start of the chosen period, already computed
    from the clock. */
module Dashboard {
  import opened Common
  import opened Sorting
  import opened Ledger

  /** The four cards at the top of the dashboard. */
  datatype Stats = Stats(totalTransactions: nat, totalSales: int, totalPaid: int, pendingDebts: nat)

  /** `tx.type !== 'debt_payment'`: a sale, as opposed to money collected on
      an earlier debt. */
  function IsSale(t: Transaction): bool { t.txType != "debt_payment" }

  function IsDebtPayment(t: Transaction): bool { t.txType == "debt_payment" }

  function TxTotal(t: Transaction): int { t.totalAmount }

  function TxPaid(t: Transaction): int { t.paidAmount }

  function TxDebt(t: Transaction): int { t.debtAmount }

  function IsOpen(d: Debt): bool { d.remainingAmount > 0 }

  /** The customers named by at least one open debt: `new Set(...)` over the
      owners of the debts with something remaining. */
  function CustomersWithDebt(debts: seq<Debt>): (r: set<Id>)
    ensures forall c :: c in r ==> exists i :: 0 <= i < |debts| && IsOpen(debts[i]) && debts[i].customerId == c
    ensures forall i :: 0 <= i < |debts| && IsOpen(debts[i]) ==> debts[i].customerId in r
  {
    if |debts| == 0 then {}
    else
      var rest := CustomersWithDebt(debts[1..]);
      assert forall c :: c in rest ==> exists i :: 0 <= i < |debts| && IsOpen(debts[i]) && debts[i].customerId == c by {
        forall c | c in rest
          ensures exists i :: 0 <= i < |debts| && IsOpen(debts[i]) && debts[i].customerId == c
        {
          var j :| 0 <= j < |debts[1..]| && IsOpen(debts[1..][j]) && debts[1..][j].customerId == c;
          assert debts[j + 1] == debts[1..][j];
        }
      }
      assert forall i :: 1 <= i < |debts| ==> debts[i] == debts[1..][i - 1];
      (if IsOpen(debts[0]) then {debts[0].customerId} else {}) + rest
  }

  /** `fetchData`: how many transactions, the sales total without debt
      payments, the paid total with them, and how many distinct customers
      still owe something. Sales plus what debt payments brought in is the
      all-transaction total; the pending count is at most the number of open
      debts and is zero exactly when none is open. */
  function ComputeStats(txs: seq<Transaction>, debts: seq<Debt>): (s: Stats)
    ensures s.totalTransactions == |txs|
    ensures s.totalSales + SumBy(Filter(txs, IsDebtPayment), TxTotal) == SumBy(txs, TxTotal)
    ensures s.totalPaid == SumBy(txs, TxPaid)
    ensures s.pendingDebts == |CustomersWithDebt(debts)|
    ensures s.pendingDebts <= |Filter(debts, IsOpen)|
    ensures s.pendingDebts == 0 <==> forall i :: 0 <= i < |debts| ==> !IsOpen(debts[i])
  {
    SumSplit(txs, IsSale, IsDebtPayment, TxTotal);
    PendingAtMostOpenDebts(debts);
    NoPendingIffAllSettled(debts);
    Stats(|txs|, SumBy(Filter(txs, IsSale), TxTotal), SumBy(txs, TxPaid), |CustomersWithDebt(debts)|)
  }

  /** Recording a debt payment leaves the sales figure where it was and adds
      the payment to the paid figure; a sale adds to both. */
  lemma {:induction false} NewTransactionEffect(txs: seq<Transaction>, debts: seq<Debt>, t: Transaction)
    ensures var before, after := ComputeStats(txs, debts), ComputeStats(txs + [t], debts);
      && after.totalTransactions == before.totalTransactions + 1
      && after.totalPaid == before.totalPaid + t.paidAmount
      && after.totalSales == before.totalSales + (if IsSale(t) then t.totalAmount else 0)
      && after.pendingDebts == before.pendingDebts
  {
    FilterConcat(txs, [t], IsSale);
    SumConcat(Filter(txs, IsSale), Filter([t], IsSale), TxTotal);
    SumConcat(txs, [t], TxPaid);
  }

  /** Each customer counted owes on at least one open debt, so there are no
      more of them than open debts. */
  lemma {:induction false} PendingAtMostOpenDebts(debts: seq<Debt>)
    ensures |CustomersWithDebt(debts)| <= |Filter(debts, IsOpen)|
  {
    if |debts| > 0 {
      PendingAtMostOpenDebts(debts[1..]);
      var rest := CustomersWithDebt(debts[1..]);
      if IsOpen(debts[0]) {
        assert CustomersWithDebt(debts) == {debts[0].customerId} + rest;
        assert |{debts[0].customerId} + rest| <= 1 + |rest|;
      } else {
        assert CustomersWithDebt(debts) == rest;
      }
    }
  }

  /** No customer is counted exactly when no debt is open. */
  lemma NoPendingIffAllSettled(debts: seq<Debt>)
    ensures |CustomersWithDebt(debts)| == 0 <==> forall i :: 0 <= i < |debts| ==> !IsOpen(debts[i])
  {
    if exists i :: 0 <= i < |debts| && IsOpen(debts[i]) {
      var i :| 0 <= i < |debts| && IsOpen(debts[i]);
      assert debts[i].customerId in CustomersWithDebt(debts);
    }
  }

  // ---------------------------------------------------------------- report

  function Since(startDate: int): Transaction -> bool {
    (t: Transaction) => t.createdAt >= startDate
  }

  /** The figures of the period report. */
  datatype ReportTotals = ReportTotals(count: nat, totalAmount: int, totalPaidAmount: int, totalDebtAmount: int)

  /** `generateReport`'s filter: the transactions created at or after
      `startDate`, in fetched order. */
  function ReportTransactions(txs: seq<Transaction>, startDate: int): (r: seq<Transaction>)
    ensures |r| <= |txs|
    ensures forall t :: t in r ==> t in txs && t.createdAt >= startDate
    ensures forall t :: t in txs && t.createdAt >= startDate ==> t in r
  {
    Filter(txs, Since(startDate))
  }

  /** The report's figures: the sales total leaves debt payments out, the
      paid and debt totals take every transaction of the period. */
  function Report(txs: seq<Transaction>, startDate: int): (r: ReportTotals)
    ensures r.count == |ReportTransactions(txs, startDate)|
    ensures r.totalAmount == ComputeStats(ReportTransactions(txs, startDate), []).totalSales
    ensures r.totalPaidAmount == ComputeStats(ReportTransactions(txs, startDate), []).totalPaid
    ensures r.totalDebtAmount == SumBy(ReportTransactions(txs, startDate), TxDebt)
  {
    var period := ReportTransactions(txs, startDate);
    ReportTotals(|period|, SumBy(Filter(period, IsSale), TxTotal), SumBy(period, TxPaid), SumBy(period, TxDebt))
  }

  /** A period that covers every transaction reports the dashboard's own
      figures. */
  lemma ReportCoveringAllMatchesStats(txs: seq<Transaction>, debts: seq<Debt>, startDate: int)
    requires forall i :: 0 <= i < |txs| ==> txs[i].createdAt >= startDate
    ensures var r, s := Report(txs, startDate), ComputeStats(txs, debts);
      r.count == s.totalTransactions && r.totalAmount == s.totalSales && r.totalPaidAmount == s.totalPaid
  {
    FilterKeepsAll(txs, Since(startDate));
  }

  /** A period that starts after every transaction reports nothing. */
  lemma ReportAfterAllIsEmpty(txs: seq<Transaction>, startDate: int)
    requires forall i :: 0 <= i < |txs| ==> txs[i].createdAt < startDate
    ensures Report(txs, startDate) == ReportTotals(0, 0, 0, 0)
  {
    FilterDropsAll(txs, Since(startDate));
  }

  /** On a list fetched newest first, the report is a prefix of it: the
      period's transactions are exactly the leading ones. */
  lemma ReportIsPrefixWhenSorted(txs: seq<Transaction>, startDate: int)
    requires SortedDesc(txs, TxCreatedAt)
    ensures ReportTransactions(txs, startDate) == txs[..|ReportTransactions(txs, startDate)|]
  {
    var p := Since(startDate);
    forall i, j | 0 <= i < j < |txs| && p(txs[j])
      ensures p(txs[i])
    {
      assert TxCreatedAt(txs[i]) >= TxCreatedAt(txs[j]);
    }
    FilterOfClosedIsPrefix(txs, p);
  }

  /** A later start keeps a sub-list of the earlier start's transactions:
      reporting twice is reporting once from the later date. */
  lemma {:induction false} LaterStartNarrows(txs: seq<Transaction>, early: int, late: int)
    requires early <= late
    ensures ReportTransactions(ReportTransactions(txs, early), late) == ReportTransactions(txs, late)
    ensures Report(txs, late).count <= Report(txs, early).count
  {
    if |txs| > 0 {
      LaterStartNarrows(txs[1..], early, late);
    }
  }

  // ---------------------------------------------------------------- recent

  /** `transactions.slice(0, 10)`: at most the first ten, in order. */
  function Recent(txs: seq<Transaction>): (r: seq<Transaction>)
    ensures |r| == Min(10, |txs|)
    ensures r <= txs
  {
    txs[..Min(10, |txs|)]
  }

  /** The recent list keeps a short list whole, is fixed once taken, and
      ignores anything after the tenth transaction. */
  lemma RecentProperties(txs: seq<Transaction>, more: seq<Transaction>)
    ensures |txs| <= 10 ==> Recent(txs) == txs
    ensures Recent(Recent(txs)) == Recent(txs)
    ensures |txs| >= 10 ==> Recent(txs + more) == Recent(txs)
    ensures forall i :: 0 <= i < |Recent(txs)| ==> Recent(txs)[i] == txs[i]
  {
    if |txs| >= 10 {
      assert (txs + more)[..10] == txs[..10];
    }
  }

  // ---------------------------------------------------------------- status

  /** The badge colour of a payment status. */
  datatype Style = Green | Yellow | Red

  /** `paid` is green, `partial` yellow, anything else red. */
  function StatusStyle(status: string): (s: Style)
    ensures s == Green <==> status == "paid"
    ensures s == Yellow <==> status == "partial"
    ensures s == Red <==> status != "paid" && status != "partial"
  {
    if status == "paid" then Green
    else if status == "partial" then Yellow
    else Red
  }

  /** Reading a badge back: green means `paid`, yellow means `partial`,
      and red does not say which status it was. */
  function StatusOfStyle(s: Style): Option<string> {
    match s
    case Green => Some("paid")
    case Yellow => Some("partial")
    case Red => None
  }

  /** The badge determines the status exactly for the two recognised
      statuses; every other status, `pending` and the empty string
      included, shares the red badge, so two statuses share a badge exactly
      when they are equal or both unrecognised. */
  lemma StyleRoundTrip(status: string, other: string)
    ensures StatusOfStyle(StatusStyle(status)) == Some(status) <==> status == "paid" || status == "partial"
    ensures StatusOfStyle(StatusStyle(status)).None? <==> status != "paid" && status != "partial"
    ensures StatusStyle(status) == StatusStyle(other) <==>
      status == other || (status != "paid" && status != "partial" && other != "paid" && other != "partial")
  {
  }
}
