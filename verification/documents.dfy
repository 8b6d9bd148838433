/** The decisions the PDF service makes before drawing anything: which lines
    a receipt and a debt statement contain, in which order, and with which
    amounts. Coordinates, fonts, colours and number formatting are not
    modelled. */
module Documents {
  import opened Common
  import opened Ledger
  import opened DebtQueries

  // ---------------------------------------------------------------- receipt

  datatype ReceiptLine =
    | CustomerName(name: string)
    | CustomerPhone(phone: string)
    | ItemLine(product: string, quantity: int, price: int, total: int)
    | Subtotal(amount: int)
    | PaidAmount(amount: int)
    | Change(amount: int)
    | BalanceDue(amount: int)
    | GrandTotal(amount: int)

  /** The line that settles the sale: change handed back or a balance due. */
  predicate IsSettlement(x: ReceiptLine) {
    x.Change? || x.BalanceDue?
  }

  /** The customer block: the name, or `Walk-in Customer` when it is empty,
      then the phone only when there is one. */
  function CustomerLines(c: Customer): (r: seq<ReceiptLine>)
    ensures 1 <= |r| <= 2
    ensures r[0] == CustomerName(if c.name == "" then "Walk-in Customer" else c.name)
    ensures |r| == 2 <==> c.phone != ""
    ensures |r| == 2 ==> r[1] == CustomerPhone(c.phone)
  {
    [CustomerName(if c.name == "" then "Walk-in Customer" else c.name)]
      + (if c.phone != "" then [CustomerPhone(c.phone)] else [])
  }

  /** The product column as the service computes it. `typeof` is
      `"object"` for a populated product, for `null` and for an unpopulated
      `ObjectId`, so all three read `.name`: the product's name, a thrown
      `TypeError` (`None`) for `null`, and `undefined`, which draws an empty
      name, for the bare reference. Only a value that is not an object falls
      back to `Product`. */
  function ItemNameAsWritten(p: ProductRef): (r: Option<string>)
    ensures r.None? <==> p.Dangling?
    ensures p.Populated? ==> r == Some(p.name)
    ensures p.Unpopulated? ==> r == Some("")
    ensures p.Missing? ==> r == Some("Product")
  {
    match p
    case Populated(name) => Some(name)
    case Dangling => None
    case Unpopulated(_) => Some("")
    case Missing => Some("Product")
  }

  /** The product column as intended: the product's name when the product
      was loaded, `Product` otherwise. */
  function ItemName(p: ProductRef): (r: string)
    ensures p.Populated? ==> r == p.name
    ensures !p.Populated? ==> r == "Product"
  {
    if p.Populated? then p.name else "Product"
  }

  /** One item row: `price || 0`, and the row total is quantity times that
      price. */
  function ItemLineOf(item: LineItem): (r: ReceiptLine)
    ensures r.ItemLine? && r.product == ItemName(item.product) && r.quantity == item.quantity
    ensures item.price.None? ==> r.price == 0 && r.total == 0
    ensures item.price.Some? ==> r.price == item.price.value
    ensures r.total == r.quantity * r.price
  {
    ItemLineNamed(ItemName(item.product), item)
  }

  /** The row of an item under a given product name. */
  function ItemLineNamed(name: string, item: LineItem): ReceiptLine {
    var price := item.price.GetOr(0);
    ItemLine(name, item.quantity, price, item.quantity * price)
  }

  /** Change when the customer paid more than the total; otherwise a balance
      due when the sale left a debt; otherwise nothing. */
  function Settlement(tx: Transaction): (r: seq<ReceiptLine>)
    ensures |r| <= 1
    ensures (exists i :: 0 <= i < |r| && r[i].Change?) <==> tx.paidAmount > tx.totalAmount
    ensures (exists i :: 0 <= i < |r| && r[i].BalanceDue?) <==> tx.paidAmount <= tx.totalAmount && tx.debtAmount > 0
    ensures forall i :: 0 <= i < |r| && r[i].Change? ==> r[i].amount == tx.paidAmount - tx.totalAmount > 0
    ensures forall i :: 0 <= i < |r| && r[i].BalanceDue? ==> r[i].amount == tx.debtAmount
  {
    if tx.paidAmount > tx.totalAmount then
      var r := [Change(tx.paidAmount - tx.totalAmount)];
      assert r[0].Change?;
      r
    else if tx.debtAmount > 0 then
      var r := [BalanceDue(tx.debtAmount)];
      assert r[0].BalanceDue?;
      r
    else []
  }

  function ItemLines(items: seq<LineItem>): (r: seq<ReceiptLine>)
    ensures |r| == |items|
    ensures forall k :: 0 <= k < |items| ==> r[k] == ItemLineOf(items[k])
  {
    MapSeq(items, ItemLineOf)
  }

  /** Everything above the settlement line: customer block, item rows,
      subtotal and amount paid. None of it settles the sale. */
  function ReceiptHead(tx: Transaction, c: Customer): (h: seq<ReceiptLine>)
    ensures h == CustomerLines(c) + ItemLines(tx.items) + [Subtotal(tx.totalAmount), PaidAmount(tx.paidAmount)]
    ensures forall i :: 0 <= i < |h| ==> !IsSettlement(h[i])
  {
    var cust, items := CustomerLines(c), ItemLines(tx.items);
    var totals := [Subtotal(tx.totalAmount), PaidAmount(tx.paidAmount)];
    NoSettlementIn(cust, items, totals);
    cust + items + totals
  }

  /** Joining three blocks of which none settles the sale gives a block that
      does not settle it either. */
  lemma NoSettlementIn(a: seq<ReceiptLine>, b: seq<ReceiptLine>, c: seq<ReceiptLine>)
    requires forall i :: 0 <= i < |a| ==> !IsSettlement(a[i])
    requires forall i :: 0 <= i < |b| ==> !IsSettlement(b[i])
    requires forall i :: 0 <= i < |c| ==> !IsSettlement(c[i])
    ensures forall i :: 0 <= i < |a + b + c| ==> !IsSettlement((a + b + c)[i])
  {
    var h := a + b + c;
    forall i | 0 <= i < |h|
      ensures !IsSettlement(h[i])
    {
      if i < |a| {
        assert h[i] == a[i];
      } else if i < |a| + |b| {
        assert h[i] == b[i - |a|];
      } else {
        assert h[i] == c[i - |a| - |b|];
      }
    }
  }

  /** The receipt: customer block, one row per item in order, subtotal, paid,
      at most one settlement line right after paid, grand total. */
  function Receipt(tx: Transaction, c: Customer): (r: seq<ReceiptLine>)
    ensures |r| == |CustomerLines(c)| + |tx.items| + 3 + |Settlement(tx)|
    ensures var n := |CustomerLines(c)|;
      && r[..n] == CustomerLines(c)
      && (forall k :: 0 <= k < |tx.items| ==> r[n + k] == ItemLineOf(tx.items[k]))
      && r[n + |tx.items|] == Subtotal(tx.totalAmount)
      && r[n + |tx.items| + 1] == PaidAmount(tx.paidAmount)
      && (|Settlement(tx)| == 1 ==> r[n + |tx.items| + 2] == Settlement(tx)[0])
      && r[|r| - 1] == GrandTotal(tx.totalAmount)
    ensures forall i, j :: 0 <= i < j < |r| && IsSettlement(r[i]) ==> !IsSettlement(r[j])
    ensures (exists i :: 0 <= i < |r| && r[i].Change?) <==> tx.paidAmount > tx.totalAmount
    ensures (exists i :: 0 <= i < |r| && r[i].BalanceDue?) <==> tx.paidAmount <= tx.totalAmount && tx.debtAmount > 0
  {
    ReceiptItemsInOrder(tx, c);
    SettlementPlacement(ReceiptHead(tx, c), Settlement(tx), GrandTotal(tx.totalAmount));
    ReceiptHead(tx, c) + Settlement(tx) + [GrandTotal(tx.totalAmount)]
  }

  /** The receipt as the concatenation of its blocks. */
  lemma ReceiptBlocks(tx: Transaction, c: Customer)
    ensures ReceiptHead(tx, c) + Settlement(tx) + [GrandTotal(tx.totalAmount)]
      == CustomerLines(c) + ItemLines(tx.items) + [Subtotal(tx.totalAmount), PaidAmount(tx.paidAmount)]
         + Settlement(tx) + [GrandTotal(tx.totalAmount)]
  {
  }

  /** The fixed blocks of the receipt sit where the layout puts them. */
  lemma ReceiptItemsInOrder(tx: Transaction, c: Customer)
    ensures var r := ReceiptHead(tx, c) + Settlement(tx) + [GrandTotal(tx.totalAmount)];
      var n := |CustomerLines(c)|;
      && |r| == n + |tx.items| + 3 + |Settlement(tx)|
      && r[..n] == CustomerLines(c)
      && r[n + |tx.items|] == Subtotal(tx.totalAmount)
      && r[n + |tx.items| + 1] == PaidAmount(tx.paidAmount)
      && (|Settlement(tx)| == 1 ==> r[n + |tx.items| + 2] == Settlement(tx)[0])
      && r[|r| - 1] == GrandTotal(tx.totalAmount)
    ensures var r := ReceiptHead(tx, c) + Settlement(tx) + [GrandTotal(tx.totalAmount)];
      forall k :: 0 <= k < |tx.items| ==> r[|CustomerLines(c)| + k] == ItemLineOf(tx.items[k])
  {
    ReceiptBlocks(tx, c);
    var items := ItemLines(tx.items);
    ReceiptLayout(CustomerLines(c), items, [Subtotal(tx.totalAmount), PaidAmount(tx.paidAmount)],
      Settlement(tx), GrandTotal(tx.totalAmount));
  }

  /** Where each block of a receipt sits once the blocks are joined. */
  lemma ReceiptLayout(cust: seq<ReceiptLine>, items: seq<ReceiptLine>, totals: seq<ReceiptLine>,
                      tail: seq<ReceiptLine>, last: ReceiptLine)
    requires |totals| == 2
    ensures var r := cust + items + totals + tail + [last];
      && r[..|cust|] == cust
      && (forall k :: 0 <= k < |items| ==> r[|cust| + k] == items[k])
      && r[|cust| + |items|] == totals[0]
      && r[|cust| + |items| + 1] == totals[1]
      && (|tail| == 1 ==> r[|cust| + |items| + 2] == tail[0])
      && r[|r| - 1] == last
  {
    var r := cust + items + totals + tail + [last];
    assert r == cust + (items + totals + tail + [last]);
  }

  /** A settlement block of at most one line, placed between lines that do
      not settle, is the only settling line of the whole, and carries its
      Change or Balance Due line into it. */
  lemma SettlementPlacement(head: seq<ReceiptLine>, tail: seq<ReceiptLine>, last: ReceiptLine)
    requires forall i :: 0 <= i < |head| ==> !IsSettlement(head[i])
    requires |tail| <= 1 && !IsSettlement(last)
    ensures var r := head + tail + [last];
      && (forall i, j :: 0 <= i < j < |r| && IsSettlement(r[i]) ==> !IsSettlement(r[j]))
      && ((exists i :: 0 <= i < |r| && r[i].Change?) <==> (exists i :: 0 <= i < |tail| && tail[i].Change?))
      && ((exists i :: 0 <= i < |r| && r[i].BalanceDue?) <==> (exists i :: 0 <= i < |tail| && tail[i].BalanceDue?))
  {
    var r := head + tail + [last];
    assert forall i :: 0 <= i < |head| ==> r[i] == head[i];
    if |tail| == 1 {
      assert r[|head|] == tail[0];
    }
  }

  /** Whether the service's item loop gets through every item. */
  predicate ItemsRender(items: seq<LineItem>) {
    forall k :: 0 <= k < |items| ==> ItemNameAsWritten(items[k].product).Some?
  }

  /** The item rows as the service computes them: `None` when the loop
      throws on some item, otherwise one row per item under the service's
      own naming. */
  function ItemLinesAsWritten(items: seq<LineItem>): (r: Option<seq<ReceiptLine>>)
    ensures r.None? <==> exists k :: 0 <= k < |items| && items[k].product.Dangling?
    ensures r.Some? ==> |r.value| == |items|
    ensures r.Some? ==> forall k :: 0 <= k < |items| ==> r.value[k] == ItemLineNamed(ItemNameAsWritten(items[k].product).value, items[k])
  {
    if ItemsRender(items) then
      Some(seq(|items|, k requires 0 <= k < |items| && ItemsRender(items) =>
        ItemLineNamed(ItemNameAsWritten(items[k].product).value, items[k])))
    else None
  }

  /** Everything below the item rows: subtotal, paid, the settlement line
      if any, grand total. */
  function ReceiptTail(tx: Transaction): seq<ReceiptLine> {
    [Subtotal(tx.totalAmount), PaidAmount(tx.paidAmount)] + Settlement(tx) + [GrandTotal(tx.totalAmount)]
  }

  /** The receipt as the service computes it: the intended layout around the
      service's own item rows, or `None` when the item loop throws. */
  function ReceiptAsWritten(tx: Transaction, c: Customer): (r: Option<seq<ReceiptLine>>)
    ensures r.None? <==> exists k :: 0 <= k < |tx.items| && tx.items[k].product.Dangling?
  {
    match ItemLinesAsWritten(tx.items)
    case None => None
    case Some(lines) => Some(CustomerLines(c) + lines + ReceiptTail(tx))
  }

  /** The intended receipt is the same layout around the intended rows. */
  lemma ReceiptAssembled(tx: Transaction, c: Customer)
    ensures Receipt(tx, c) == CustomerLines(c) + ItemLines(tx.items) + ReceiptTail(tx)
  {
    ReceiptBlocks(tx, c);
  }

  /** A product reference the service names as intended: a loaded product,
      or a value that is not an object. */
  predicate NamedAsIntended(p: ProductRef) {
    p.Populated? || p.Missing?
  }

  /** The service's item naming agrees with the intended one exactly on a
      loaded product and on a value that is not an object; `null` throws and
      a bare `ObjectId` draws an empty name. */
  lemma ItemNameAgrees(p: ProductRef)
    ensures NamedAsIntended(p) <==> ItemNameAsWritten(p) == Some(ItemName(p))
  {
  }

  /** The service's item rows are the intended ones exactly when every item
      is named as intended. */
  lemma ItemLinesAgree(items: seq<LineItem>)
    ensures ItemLinesAsWritten(items) == Some(ItemLines(items)) <==>
      forall k :: 0 <= k < |items| ==> NamedAsIntended(items[k].product)
  {
    var intended := ItemLines(items);
    if forall k :: 0 <= k < |items| ==> NamedAsIntended(items[k].product) {
      assert ItemLinesAsWritten(items).Some?;
      var lines := ItemLinesAsWritten(items).value;
      forall k | 0 <= k < |items|
        ensures lines[k] == intended[k]
      {
        ItemNameAgrees(items[k].product);
      }
      assert lines == intended;
    } else {
      var k :| 0 <= k < |items| && !NamedAsIntended(items[k].product);
      if ItemLinesAsWritten(items).Some? {
        ItemNameAgrees(items[k].product);
        assert ItemLinesAsWritten(items).value[k] != intended[k];
      }
    }
  }

  /** As written, the receipt is the intended one exactly when every item
      is named as intended, and it fails exactly when some item refers to a
      deleted product. */
  lemma ReceiptFailsOnDeletedProduct(tx: Transaction, c: Customer)
    ensures ReceiptAsWritten(tx, c) == Some(Receipt(tx, c)) <==>
      forall k :: 0 <= k < |tx.items| ==> NamedAsIntended(tx.items[k].product)
    ensures ReceiptAsWritten(tx, c).None? <==>
      exists k :: 0 <= k < |tx.items| && tx.items[k].product.Dangling?
  {
    ReceiptAssembled(tx, c);
    AsWrittenLayoutAgrees(tx, c);
  }

  /** The service's receipt equals the intended layout around the intended
      rows exactly when every item is named as intended. */
  lemma AsWrittenLayoutAgrees(tx: Transaction, c: Customer)
    ensures ReceiptAsWritten(tx, c) == Some(CustomerLines(c) + ItemLines(tx.items) + ReceiptTail(tx)) <==>
      forall k :: 0 <= k < |tx.items| ==> NamedAsIntended(tx.items[k].product)
  {
    ItemLinesAgree(tx.items);
    var cust, intended, tail := CustomerLines(c), ItemLines(tx.items), ReceiptTail(tx);
    match ItemLinesAsWritten(tx.items)
    case None =>
    case Some(lines) =>
      if cust + lines + tail == cust + intended + tail {
        MiddleCancels(cust, lines, intended, tail);
      }
  }

  /** Equal sequences with equal ends have equal middles. */
  lemma MiddleCancels<T>(a: seq<T>, x: seq<T>, y: seq<T>, b: seq<T>)
    requires a + x + b == a + y + b
    ensures x == y
  {
    assert x == (a + x + b)[|a|..|a| + |x|];
    assert y == (a + y + b)[|a|..|a| + |y|];
  }

  /** A concrete receipt that fails: one item whose product was deleted. */
  lemma DeletedProductCounterexample()
    ensures var tx := Transaction("t1", "TX-1", "sale", None, [LineItem(Dangling, 1, Some(500))], 500, 500, 0, "paid", 0);
      ReceiptAsWritten(tx, Customer("c1", "Asha", "", 0)).None?
  {
    var tx := Transaction("t1", "TX-1", "sale", None, [LineItem(Dangling, 1, Some(500))], 500, 500, 0, "paid", 0);
    assert tx.items[0].product.Dangling?;
  }

  /** A concrete receipt that renders with a blank product name: one item
      whose reference was not populated. */
  lemma UnpopulatedProductCounterexample()
    ensures var tx := Transaction("t1", "TX-1", "sale", None, [LineItem(Unpopulated("p1"), 1, Some(500))], 500, 500, 0, "paid", 0);
      var r := ReceiptAsWritten(tx, Customer("c1", "Asha", "", 0));
      r.Some? && r.value[1] == ItemLine("", 1, 500, 500) && r != Some(Receipt(tx, Customer("c1", "Asha", "", 0)))
  {
    var tx := Transaction("t1", "TX-1", "sale", None, [LineItem(Unpopulated("p1"), 1, Some(500))], 500, 500, 0, "paid", 0);
    ReceiptFailsOnDeletedProduct(tx, Customer("c1", "Asha", "", 0));
    assert !NamedAsIntended(tx.items[0].product);
  }

  // -------------------------------------------------------------- statement

  datatype StatementLine =
    | HolderName(name: string)
    | HolderPhone(phone: string)
    | TotalOutstanding(amount: int)
    | Row(date: int, amount: int, paid: int, remaining: int)
    | NoOutstandingDebts

  function RowOf(d: Debt): StatementLine {
    Row(d.createdAt, d.amount, d.paidAmount, d.remainingAmount)
  }

  function RowRemaining(x: StatementLine): int {
    if x.Row? then x.remaining else 0
  }

  /** The statement PDF: name, phone, the header total taken from the
      customer's cached `totalDebt`, then one row per debt in the order given
      or a single `No outstanding debts` line. */
  function StatementLines(c: Customer, debts: seq<Debt>): (r: seq<StatementLine>)
    ensures |r| >= 4
    ensures r[..3] == [HolderName(c.name), HolderPhone(c.phone), TotalOutstanding(c.totalDebt)]
    ensures |debts| == 0 ==> r[3..] == [NoOutstandingDebts]
    ensures |debts| > 0 ==> |r| == 3 + |debts| && forall k :: 0 <= k < |debts| ==> r[3 + k] == RowOf(debts[k])
  {
    [HolderName(c.name), HolderPhone(c.phone), TotalOutstanding(c.totalDebt)]
      + (if |debts| > 0 then MapSeq(debts, RowOf) else [NoOutstandingDebts])
  }

  lemma {:induction false} RowsCarryRemaining(debts: seq<Debt>)
    ensures SumBy(MapSeq(debts, RowOf), RowRemaining) == SumBy(debts, Remaining)
  {
    if |debts| > 0 {
      assert MapSeq(debts, RowOf)[1..] == MapSeq(debts[1..], RowOf);
      RowsCarryRemaining(debts[1..]);
    }
  }

  /** Served by the statement route on a balanced ledger, the header total
      (read from `totalDebt`) equals the sum of the rows' remaining amounts. */
  lemma StatementHeaderMatchesRows(l: LedgerState, customerId: Id)
    requires Balanced(l) && customerId in l.customers
    ensures var data := StatementQuery(l, customerId).value;
      var lines := StatementLines(data.customer, data.debts);
      lines[2].amount == SumBy(lines[3..], RowRemaining)
  {
    var data := StatementQuery(l, customerId).value;
    var lines := StatementLines(data.customer, data.debts);
    StatementDebtsSumToTotal(l, customerId);
    if |data.debts| > 0 {
      assert lines[3..] == MapSeq(data.debts, RowOf);
      RowsCarryRemaining(data.debts);
    }
  }
}
