# Debt ledger of the POS back office, in Dafny

This project models the customer-debt part of a small point-of-sale back
office (an Express/MongoDB server with a React client). It covers four
pieces:

- **The payment handler `PUT /debts/:debtId`** (`Payments`). It rejects a
  missing or non-positive amount. It looks the debt up and caps the payment
  at what is still owed. It moves the payment from `remainingAmount` to
  `paidAmount`, appends a history entry, and lowers the customer's cached
  `totalDebt`, clamped at zero.
- **The read routes** (`DebtQueries`): all debts, one customer's debts, and
  the data behind a statement. Each sorts by `{ createdAt: -1 }`
  (`Sorting`); all but the full debt listing first select one customer's
  records.
- **The debts page** (`DebtsPage`). It groups the fetched debts by
  customer and filters the groups by a search box (`Text` holds the string
  operations). It sends a payment for the first open debt of a group, and it
  builds the downloadable statement.
- **The dashboard** (`Dashboard`): the four stat cards, the period report,
  the ten most recent transactions and the status badge colours.

A fifth module, `Documents`, models which lines the PDF service puts on a
receipt and on a debt statement.

Every record is an immutable datatype (`Ledger`). Money is an integer
number of the smallest currency unit, and timestamps are integers. The
persisted state is a `LedgerState` value:

- the debt collection in storage order;
- the customers by id;
- the transactions.

Each route is a pure function from a state and a request to a response,
plus the state as persisted.

The central invariant is `Ledger.Balanced`: every customer's `totalDebt`
equals the sum of the remaining amounts of their debts. The model proves
that a payment keeps a balanced ledger balanced (the cap means the clamp
never fires). It also proves that the three places that show a customer's
balance agree on such a ledger:

- the page's group total;
- the web statement's total;
- the PDF statement's header total.

Two facts of the code shape the model:

- Amounts are plain numbers. Nothing clamps a subtraction at zero except
  the explicit `Math.max(0, …)` on `totalDebt`.
- A payment always targets the one debt named in the request. The page
  always names the group's first (newest) open debt; it never spreads the
  amount over several debts.

## Model

| member | source | states |
|---|---|---|
| Payments.RecordPayment | backend/routes/debts.js:37-70 | The response is 400 exactly when the amount is missing or not positive, whatever the ledger holds. For a well-formed id, it is 404 exactly when the amount is valid and no debt has the id. On success the named debt is paid, no other debt or transaction changes, and only the owner's `totalDebt` changes, to `max(0, old - applied)`. Among well-formed ids, a 500 arises only when the debt's customer is missing, and the paid debt is then already saved. |
| Payments.ApplyToDebt | backend/routes/debts.js:50-57 | `paidAmount + remainingAmount` is preserved. Remaining becomes `max(0, remaining - requested)`. The history gains exactly one entry, holding the amount that left `remainingAmount` (zero for an already settled debt), and earlier entries are kept. On a sound debt with a positive request: the result is sound, the applied amount lies between 0 and both the remaining amount and the request, and paid never decreases. |
| Payments.RemainingAfterUpdate | backend/routes/debts.js:51-52 | Changing one debt's remaining amount shifts its owner's summed balance by the same difference and leaves every other customer's sum alone. |
| Payments.OwnerOwesAtLeast | backend/routes/debts.js:62-63 | Over sound debts, a debt's owner owes at least that debt's remaining amount. |
| Payments.PaymentKeepsCustomerBalance | backend/routes/debts.js:50-64 | A successful payment keeps any one customer in sync: if their `totalDebt` equalled the sum of their remaining amounts before, it still does after, whatever other customers' cached totals hold. For the paying customer the total drops by exactly the applied amount, so the clamp never fires. |
| Payments.PaymentKeepsBalance | backend/routes/debts.js:50-64 | On a balanced ledger of sound debts, a successful payment keeps every debt sound and every `totalDebt` equal to its customer's sum. The owner's `totalDebt` drops by exactly the applied amount, so the clamp at zero never fires. |
| Payments.OverpaymentCapped | backend/routes/debts.js:50-52 | For a debt with something remaining, requesting any amount of at least that balance gives the same response as requesting exactly that balance. The debt ends with nothing remaining and paid equal to paid plus the old balance. |
| Payments.StepOnlyLowers | backend/routes/debts.js:37-70 | One request of any kind keeps a healthy ledger healthy (balanced, sound, every debt owned). No debt's remaining amount and no customer's `totalDebt` goes up. |
| Payments.PaymentsOnlyLower | backend/routes/debts.js:37-70 | Any series of requests keeps a healthy ledger healthy and never raises a remaining amount or a `totalDebt`. |
| Ledger.DebtIndex | backend/routes/debts.js:45-48 | `findById` finds the first debt with the id, and finds nothing exactly when no debt has it. |
| Ledger.FindsStoredDebt | backend/routes/debts.js:45 | With unique ids, the lookup of a stored debt's id returns that debt. |
| DebtQueries.AllDebts | backend/routes/debts.js:13-16 | The listing is sorted newest first and is a permutation of the stored debts. |
| DebtQueries.DebtsOfCustomer | backend/routes/debts.js:26-29 | For a well-formed id, returns exactly the customer's debts, fully paid ones included, as a permutation of them, sorted newest first. |
| DebtQueries.TransactionsOfCustomer | backend/routes/debts.js:84-86 | Returns only the customer's transactions, as a permutation of them, sorted newest first. |
| DebtQueries.StatementQuery | backend/routes/debts.js:75-86 | For a well-formed id, 404 exactly when the customer is unknown. Otherwise the customer's record together with the per-customer debt query and transaction query. |
| DebtQueries.StatementDebtsSumToTotal | backend/routes/debts.js:80-82 | On a balanced ledger the statement's debts, in sorted order, sum to the customer's `totalDebt`. |
| Sorting.SortDesc | backend/routes/debts.js:16 | The sort by `createdAt` descending yields a sorted permutation of its input. |
| Sorting.Insert | backend/routes/debts.js:16 | Inserting into a sorted list keeps it sorted and adds exactly the new element. |
| Sorting.SortKeepsMembers | backend/routes/debts.js:29 | Sorting neither adds nor drops an element. |
| Sorting.FilterKeepsSorted | frontend/src/pages/Debts.jsx:164-166 | Filtering a sorted list keeps it sorted. |
| Sorting.SumFilterSort | backend/routes/debts.js:80-82 | A filtered sum is the same before and after sorting. |
| Common.Filter | frontend/src/pages/Debts.jsx:164-166 | The result keeps exactly the elements that pass, and is no longer than the input. |
| Common.FilterConcat | frontend/src/pages/Dashboard.jsx:36-37 | Filtering distributes over concatenation. |
| Common.SumSplit | frontend/src/pages/Dashboard.jsx:36-39 | A sum splits into the sums over a predicate and over its complement. |
| Common.SumPositiveIffNonEmpty | frontend/src/pages/Debts.jsx:167-174 | A sum of positive terms is positive exactly when there is a term. |
| DebtsPage.GroupOf | frontend/src/pages/Debts.jsx:163-172 | A group holds exactly the customer's debts with something remaining, in fetched order. Its total is positive exactly when the customer has an open debt, and exactly when the group is non-empty. |
| DebtsPage.SearchMatchesIffOccurs | frontend/src/pages/Debts.jsx:175-178 | A customer matches exactly when the lower-cased term occurs at some offset of the lower-cased name, or the term occurs at some offset of the phone. The empty term matches everyone. |
| DebtsPage.DebtsByCustomer | frontend/src/pages/Debts.jsx:162-178 | Every listed group is a customer's own group with at least one debt. A customer is listed exactly when they have an open debt and match the search. |
| DebtsPage.GroupsCoverCustomers | frontend/src/pages/Debts.jsx:163 | Mapping the customers yields one group per customer and nothing else. |
| DebtsPage.EmptySearchKeepsAll | frontend/src/pages/Debts.jsx:175-178 | With an empty search term, every customer with an open debt is listed. |
| Text.Contains | frontend/src/pages/Debts.jsx:176-177 | `includes`: a needle that starts the hay is included, and an included needle is never longer than the hay. |
| Text.ContainsIffOccurs | frontend/src/pages/Debts.jsx:176-177 | `includes` holds exactly when the needle occurs at some offset, and the empty needle is always included. |
| Text.Lower | frontend/src/pages/Debts.jsx:176 | Lower-casing keeps the length and maps each character on its own. |
| DebtsPage.SubmitPayment | frontend/src/pages/Debts.jsx:38-59 | An empty or non-positive amount is refused locally, so no request is sent. Otherwise the request carries the whole amount for the group's first debt. An empty group fails in the request code. |
| DebtsPage.OpenTotalIsRemaining | frontend/src/pages/Debts.jsx:164-167 | Over sound debts, summing only the open debts gives the customer's whole remaining balance. |
| DebtsPage.GroupTotalIsRemaining | frontend/src/pages/Debts.jsx:167 | The group total computed from the server's listing is the customer's remaining balance in the ledger. |
| DebtsPage.GroupHeadIsNewest | frontend/src/pages/Debts.jsx:47 | On the newest-first listing, the debt a group's payment goes to, `debts[0]`, is the newest open debt of that customer. |
| DebtsPage.PaymentOnStoredDebt | backend/routes/debts.js:46-64 | A payment on a stored debt of a sound ledger with unique ids and owned debts is accepted, keeps every debt sound, and lowers the owner's summed balance by the amount capped at that debt's balance. |
| DebtsPage.PaymentRoundTrip | frontend/src/pages/Debts.jsx:47 | The page's request names the newest open debt and the server accepts it. The customer's total on the reloaded page then drops by the amount capped at that one debt's balance, not at the total the dialog shows. |
| DebtsPage.FindCustomer | frontend/src/pages/Debts.jsx:62 | Finds a listed customer with the id, and finds none exactly when no listed customer has it. |
| DebtsPage.DownloadStatement | frontend/src/pages/Debts.jsx:61-159 | Fails exactly when the customer is unknown. Also fails exactly when the customer is known but has no open debt. Otherwise: one as-written row per open debt in fetched order (total column 0), a positive total equal to the group total, and the file name built from the customer's name. |
| DebtsPage.DownloadStatementIntended | frontend/src/pages/Debts.jsx:124-130 | The download with the total column fixed. It fails exactly when the page's download fails. Otherwise it has the same customer, total and file name, and the same paid and remaining columns, while the page's total column is 0. Its total column shows each open debt's amount, as the PDF row does. |
| DebtsPage.WebStatementMatchesPdf | frontend/src/pages/Debts.jsx:77 | On a balanced ledger the web statement's total equals the PDF statement's header total. |
| DebtsPage.WebRowAsWritten | frontend/src/pages/Debts.jsx:128-130 | The page's row shows total 0 for every debt, and the same paid and remaining amounts as the PDF row. |
| DebtsPage.WebRowOf | frontend/src/pages/Debts.jsx:128-130 | A web statement row shows the same total, paid and remaining amounts as the PDF statement's row for the debt. |
| DebtsPage.WebTotalColumnLost | frontend/src/pages/Debts.jsx:128 | The total column as written shows 0 for every debt. It agrees with the PDF row only for a debt of amount 0. |
| Text.ReplaceWhitespaceRuns | frontend/src/pages/Debts.jsx:153 | The name in the file name contains no whitespace and is no longer than the original. |
| Text.ReplaceKeepsPlainNames | frontend/src/pages/Debts.jsx:153 | A name without whitespace is kept unchanged. |
| Text.ReplaceRun | frontend/src/pages/Debts.jsx:153 | A non-empty run of whitespace becomes a single `_`. |
| Text.ReplaceConcat | frontend/src/pages/Debts.jsx:153 | Pieces joined where no run straddles the join are replaced piece by piece. So each maximal run becomes one `_`, and the rest is kept in order. |
| Text.ReplaceSplits | frontend/src/pages/Debts.jsx:153 | The scan over a concatenation is the scan over the first part followed by the scan over the second, started in the state the first part left. |
| Text.ReplaceIdempotent | frontend/src/pages/Debts.jsx:153 | Replacing twice is replacing once. |
| Dashboard.ComputeStats | frontend/src/pages/Dashboard.jsx:35-51 | The count is the number of transactions. Sales plus what debt payments brought in is the total over all transactions, so sales leave exactly the debt payments out. The paid figure sums every transaction, debt payments included. The pending figure counts the distinct customers with an open debt: it is at most the number of open debts, and 0 exactly when none is open. |
| Dashboard.CustomersWithDebt | frontend/src/pages/Dashboard.jsx:41-44 | Holds exactly the owners of the debts with something remaining. |
| Dashboard.NewTransactionEffect | frontend/src/pages/Dashboard.jsx:35-39 | One more debt payment raises the paid figure but not sales. One more sale raises both. The count goes up by one, and the pending count does not change. |
| Dashboard.PendingAtMostOpenDebts | frontend/src/pages/Dashboard.jsx:41-44 | The pending count is at most the number of open debts. |
| Dashboard.NoPendingIffAllSettled | frontend/src/pages/Dashboard.jsx:41-44 | The pending count is 0 exactly when no debt is open. |
| Dashboard.ReportTransactions | frontend/src/pages/Dashboard.jsx:71-73 | The report keeps exactly the transactions created at or after the start date. |
| Dashboard.Report | frontend/src/pages/Dashboard.jsx:71-79 | The report's count is the number of those transactions. Its sales total leaves debt payments out, and its paid and debt totals take every one of them. |
| Dashboard.ReportCoveringAllMatchesStats | frontend/src/pages/Dashboard.jsx:71-78 | A period covering every transaction reports the dashboard's own count, sales and paid figures. |
| Dashboard.ReportAfterAllIsEmpty | frontend/src/pages/Dashboard.jsx:71-79 | A period starting after every transaction reports zero everywhere. |
| Dashboard.ReportIsPrefixWhenSorted | frontend/src/pages/Dashboard.jsx:71-73 | On a list ordered newest first, the period's transactions are a leading part of it, in the original order. |
| Dashboard.LaterStartNarrows | frontend/src/pages/Dashboard.jsx:71-73 | Filtering from an early date and then from a later one equals filtering from the later one. A later start never reports more transactions. |
| Dashboard.Recent | frontend/src/pages/Dashboard.jsx:260 | The recent list is the first `min(10, n)` transactions. |
| Dashboard.RecentProperties | frontend/src/pages/Dashboard.jsx:284 | The recent list keeps a list of at most ten whole. Taking it again changes nothing. Transactions after the tenth never affect it. |
| Dashboard.StatusStyle | frontend/src/pages/Dashboard.jsx:267-272 | `paid` is green, `partial` is yellow, and every other status is red. |
| Dashboard.StyleRoundTrip | frontend/src/pages/Dashboard.jsx:267-272 | Reading the badge back gives the status exactly for `paid` and `partial`, and gives nothing exactly for every other status. Two statuses share a badge exactly when they are equal or both unrecognised. |
| Documents.CustomerLines | backend/services/pdfService.js:42-45 | The name line falls back to `Walk-in Customer`. The phone line appears exactly when there is a phone. |
| Documents.ItemName | backend/services/pdfService.js:69-71 | The intended naming, the correction in the second Findings row, not what these lines do: the loaded product's name, and `Product` for every other reference. |
| Documents.ItemLineOf | backend/services/pdfService.js:72-73 | A missing price counts as 0, and the row total is quantity times price. |
| Documents.Settlement | backend/services/pdfService.js:103-114 | There is at most one settlement line. Change appears exactly when paid exceeds the total and shows the positive difference. Balance Due appears exactly when paid does not exceed the total and a debt remains, and shows the debt amount. |
| Documents.Receipt | backend/services/pdfService.js:42-124 | The intended receipt of the second Findings row: the line order of these lines, with item rows under the corrected `ItemName` naming. No two settlement lines appear. Change and Balance Due each appear exactly under their conditions, and a settlement line sits right after the paid line carrying the settlement's amount. |
| Documents.ItemNameAsWritten | backend/services/pdfService.js:69-71 | `typeof` is `object` for a loaded product, for `null` and for an unpopulated `ObjectId`. The name is the product's name, a throw for `null`, and empty for the bare reference. Only a value that is not an object gets `Product`. |
| Documents.ItemLinesAsWritten | backend/services/pdfService.js:67-81 | The item loop throws exactly when some item's product is `null`. Otherwise there is one row per item, in order, named as the service names it. |
| Documents.ReceiptAsWritten | backend/services/pdfService.js:42-124 | The service's receipt fails exactly when some item's product is `null`. |
| Documents.ItemNameAgrees | backend/services/pdfService.js:69-71 | The as-written naming agrees with the intended one exactly for a loaded product and for a value that is not an object. |
| Documents.ItemLinesAgree | backend/services/pdfService.js:67-81 | The service's item rows are the intended ones exactly when every item is named as intended. |
| Documents.AsWrittenLayoutAgrees | backend/services/pdfService.js:42-124 | The service's receipt is the intended layout around the intended rows exactly when every item is named as intended. |
| Documents.ReceiptFailsOnDeletedProduct | backend/services/pdfService.js:67-81 | As written, the receipt is the intended one exactly when every item is named as intended. It fails exactly when some item refers to a deleted product. |
| Documents.DeletedProductCounterexample | backend/services/pdfService.js:69-70 | A one-item sale of a deleted product fails to render. |
| Documents.UnpopulatedProductCounterexample | backend/services/pdfService.js:69-70 | A one-item sale whose product reference was not populated renders with an empty product name, so it differs from the intended receipt. |
| Documents.StatementLines | backend/services/pdfService.js:179-217 | Name, phone, then the header total taken from the cached `totalDebt`. Then one row per debt in the given order, or exactly one `No outstanding debts` line for an empty list. |
| Documents.RowsCarryRemaining | backend/services/pdfService.js:205-210 | The rows' remaining column sums to the debts' remaining amounts. |
| Documents.StatementHeaderMatchesRows | backend/services/pdfService.js:181-212 | On a balanced ledger the header total equals the sum of the rows' remaining column. |

## Left out

- Payments.RecordPayment: takes every debt id to be a well-formed `ObjectId`. For a malformed id such as `abc`, `Debt.findById` throws a `CastError` and the handler answers 500 (backend/routes/debts.js:45 and 67-69), where the model answers 404.
- DebtQueries.DebtsOfCustomer: takes every customer id to be a well-formed `ObjectId`. For a malformed id, `Debt.find({ customerId })` fails to cast it and throws a `CastError`, and the route answers 500 (backend/routes/debts.js:26 and 31-33), where the model answers an empty list.
- DebtQueries.StatementQuery: takes every customer id to be a well-formed `ObjectId`. For a malformed id, `Customer.findById` throws a `CastError` and the route answers 500 (backend/routes/debts.js:75 and 93-95), where the model answers 404.
- Persistence: `findById`, `populate` and `save` become lookups in, and updates of, an immutable ledger value. The two saves of the payment handler are taken as one step, so interleavings of concurrent requests are not modelled.
- Authentication middleware, server wiring, the customer and product CRUD routes, and the sidebar: they contain no ledger logic.
- Rendering: PDF coordinates, fonts, colours, files and streams, html2pdf, the HTML templates, React state and the fetch calls. The documents are modelled as sequences of logical lines.
- Floating point and locale formatting (`toFixed`, `toLocaleString`, `parseFloat` of text that is not a number, `NaN`). Amounts are integers, and a form amount is either missing or an integer.
- Dates: timestamps are integers, and `new Date()` becomes a parameter (`now`). The report's period start is computed from the calendar, so the model takes it as the parameter `startDate`.
- The server-side download name at backend/routes/debts.js:90, because it depends on `Date.now()` and on the response stream. The page's file name takes the time stamp as a parameter.
- The transaction-information lines at the top of the receipt (backend/services/pdfService.js:31-35) and the logo and footer. Their content does not depend on any decision.
- The cells of the dashboard's tables (a transaction id cut to 12 characters, a `Walk-in` or `N/A` customer name, the upper-cased status). They are display only.
- The transactions passed to the statement PDF: the renderer does not draw them.
- Debt creation, due dates and reminders: they live in files that are not part of this model.
- The order of debts with equal `createdAt`: the database leaves it unspecified. The sort is modelled as a stable insertion sort, and its contract states only sortedness and permutation.
- Text.Lower: lower-cases ASCII capitals only. JavaScript's `toLowerCase` also folds non-ASCII letters, which this model does not cover.
- Dashboard.CustomersWithDebt: reads the owner id directly. The page reads `d.customerId._id` from the populated customer, which throws when that customer was deleted; that failure is not modelled.
- Documents.ItemNameAsWritten: assumes PDFKit draws an `undefined` text as an empty string. PDFKit is not part of this model. The receipt's caller, which decides whether `items.productId` is populated, is not part of this model either, so every kind of reference is allowed.
- DebtsPage.GroupOf: reads the owner id directly. The page's `d.customerId._id` throws on a debt whose customer was deleted, and that failure is not modelled.

## Findings

| source | as written | input that shows it | evidently intended | confidence | as-written member | corrected member |
|---|---|---|---|---|---|---|
| frontend/src/pages/Debts.jsx:128 | The web statement's total column reads `debt.totalAmount`, a field debt records do not have, so `(undefined \|\| 0)` shows Rs 0 for every debt. The page's own debt tables (frontend/src/pages/Debts.jsx:380 and :417) read the same missing field. | Any open debt with `amount = 500`, `paidAmount = 200`, `remainingAmount = 300`. The web row shows total 0, while the PDF row (backend/services/pdfService.js:208) shows 500. | Show the debt's original `amount`, as the PDF statement does. | not executed | DebtsPage.WebTotalColumnLost | DebtsPage.WebRowOf |
| backend/services/pdfService.js:69-71 | `typeof item.productId === 'object'` is also true for `null`, which is what `populate` leaves when the product was deleted. `null.name` then throws, and the receipt fails. An unpopulated `ObjectId` reference is an object too, so its `.name` is `undefined` and the product column is left empty. | A sale with one item whose product was deleted: `LineItem(Dangling, 1, Some(500))`. A sale with one unpopulated reference: `LineItem(Unpopulated("p1"), 1, Some(500))`. | Fall back to `Product` when the product is not loaded. | not executed | Documents.ReceiptFailsOnDeletedProduct | Documents.Receipt, Documents.ItemName |
