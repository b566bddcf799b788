# Storefront orders and GST reference, modelled in Dafny

This project models two screens of a React storefront client.

**The "Your Orders" page** (`frontend/src/components/Orders.js`) covers:

- which actions each order offers, depending on its status string;
- the order list, fetched for the signed-in user and sorted newest first;
- the cancellation dialog: its target order, its free-text reason, the
  `PUT /cancel/<id>` request it sends, and what happens when the service
  answers;
- the confirmation message, which hides itself after a timer;
- the tax invoice offered for a delivered order. The model covers the GST
  record lookup, the equal CGST/SGST split, the item table with its header
  and footer, the page-break rule and the file name.

**The GST reference page** (`frontend/src/components/GstDetails.js`) covers:

- the category filter;
- the free-text search over title, brand, id and GST percentage;
- 5-row pagination;
- the GST amount shown in the table and in the chart.

Modules, one file each:

- `Common`: `Option` and `Response`. A service call is modelled as a value it delivers, either `Ok(data)` or `Failed`.
- `Text`: `toLowerCase`, `includes` and `toString` on whole numbers.
- `Sequences`: `filter` and `slice`, and the subsequence relation.
- `Records`: the `Order` and `GstRecord` records the service returns.
- `Invoice`: the invoice data.
- `Orders`: the action policy, the stable newest-first sort and the `OrdersPage` class that holds the page's state.
- `GstDetails`: filters, search, pagination and the `GstDetailsPage` class.

Each React component becomes a class. Its fields are the component's
`useState` variables, and each event handler becomes a method.

Service responses, the signed-in user's id and the outcome of the `PUT` are
method parameters. An asynchronous handler is split at its `await`:

- `SubmitCancellation` builds the request from the current state;
- `CompleteSubmission` applies the service's answer.

Nothing marks a submission as in flight. Pressing Submit twice sends the
same request twice.

The confirmation's `setTimeout` is modelled as a count of pending dismissal
timers, `pendingDismissals`, and `DismissalTimerFires` stands for one timer
firing. Showing the confirmation again does not clear an earlier timer. The
earlier timer can therefore hide the new confirmation before its own two
seconds are up (`OverlappingDismissals`).

Facts about the code that the model keeps:

- Submission has no in-flight guard (Orders.js:70-83). Pressing Submit twice sends the same request twice.
- Showing the confirmation again does not clear the earlier timer (Orders.js:63-68). The code never calls `clearTimeout`.
- A failed submission leaves the state untouched (Orders.js:80-82). The dialog stays open with the same reason (`CompleteSubmission` with `Failed`).
- The invoice reads the record's own `gst_amount` field (Orders.js:140). Only GstDetails.js:76 and the table row compute `cost * pct / 100`.
- The search filters the whole product list, not the selected category (`SearchAfterCategory`). A category change also discards the current search (`CategoryAfterSearch`).
- The dialog is shown when `selectedOrderId` is truthy, so an order id of 0 would never open it (`OrdersPage.DialogOpen`).

## Model

| member | source | states |
|---|---|---|
| Orders.ActionsFor | frontend/src/components/Orders.js:370-424 | Cancel is offered iff the status is "delivering"; Rate and Review and Download invoice each iff it is "delivered" |
| Orders.PrimaryAction | frontend/src/components/Orders.js:370-406 | the middle slot is Cancel iff the status is "delivering", Rate and Review iff it is "delivered", and empty for any other status; it never holds the download |
| Orders.OffersDownload | frontend/src/components/Orders.js:412 | the download icon is shown iff the middle slot offers Rate and Review |
| Orders.ActionPolicy | frontend/src/components/Orders.js:370-424 | "delivering" offers exactly {Cancel}, "delivered" exactly {RateAndReview, DownloadInvoice}, any other status nothing |
| Orders.SwapKeepsDateGroups | frontend/src/components/Orders.js:26 | exchanging two neighbours created at different times keeps every same-time group in its order |
| Orders.NoGroupsMeansEmpty | frontend/src/components/Orders.js:26 | a list is empty iff no creation time has an order in it |
| Orders.WithDateCons | frontend/src/components/Orders.js:26 | the same-time group of a list is its first order (if created at that time) followed by the rest's group |
| Orders.SameNewest | frontend/src/components/Orders.js:26 | two newest-first lists with the same same-time groups start with the same order |
| Orders.SameRest | frontend/src/components/Orders.js:26 | dropping a shared first order keeps the same-time groups equal |
| Orders.InsertingStarts | frontend/src/components/Orders.js:26 | inserting the order at i starts from a newest-first prefix |
| Orders.InsertingSwap | frontend/src/components/Orders.js:26 | exchanging the inserted order with an older predecessor moves it one place left, keeping the rest newest first |
| Orders.InsertingEnds | frontend/src/components/Orders.js:26 | once the inserted order has no older predecessor, the prefix up to i is newest first |
| Orders.StableSortIsUnique | frontend/src/components/Orders.js:26 | two newest-first lists with the same same-time groups are equal, so a stable newest-first sort has exactly one result |
| Orders.SortIsIdempotent | frontend/src/components/Orders.js:21-28 | fetching the same response twice yields the same list, and an already newest-first response is kept as it is |
| Orders.SwapWithPrevious | frontend/src/components/Orders.js:26 | exchanges two neighbouring array cells and leaves the rest alone (a permutation) |
| Orders.InsertNewest | frontend/src/components/Orders.js:26 | after one insertion step the prefix up to i is newest first, a permutation of the old array with every same-time group in its old order |
| Orders.SortNewestFirst | frontend/src/components/Orders.js:26 | the in-place sort leaves the array newest first by creation time, a permutation of the input, with orders created at the same time in their original relative order |
| Orders.CancelPath | frontend/src/components/Orders.js:72 | the request path is "/cancel/" followed by the selected order's decimal id, or by "null" when no order is selected |
| Orders.CancelPathMarksTarget | frontend/src/components/Orders.js:72 | the path continues with a digit iff a target is selected ("null" is interpolated otherwise) |
| Orders.CancelPathInjective | frontend/src/components/Orders.js:72 | different targets (or none) are sent to different paths |
| Orders.OrdersPage.constructor | frontend/src/components/Orders.js:13-18 | initially no orders, no GST records, empty reason, no target, confirmation hidden |
| Orders.OrdersPage.DialogOpen | frontend/src/components/Orders.js:438 | the reason dialog is open iff an order is selected and its id is not 0 |
| Orders.OrdersPage.FetchOrders | frontend/src/components/Orders.js:21-32 | with a truthy user id and a successful response the list becomes the response stably sorted newest first; no user id or a failed request leaves the list unchanged; the list stays newest first |
| Orders.OrdersPage.FetchGstDetails | frontend/src/components/Orders.js:35-42 | a successful response replaces the GST records, a failure keeps them |
| Orders.OrdersPage.HandleCancelOrder | frontend/src/components/Orders.js:49-52 | the target becomes the given id, replacing any earlier one, and the reason becomes empty; the dialog opens for a non-zero id |
| Orders.OrdersPage.UpdateReason | frontend/src/components/Orders.js:466-468 | the reason is the typed text verbatim, with no validation |
| Orders.OrdersPage.HandleCancelReason | frontend/src/components/Orders.js:54-57 | target and reason are cleared and the dialog closes; orders, GST records and confirmation are untouched and nothing is sent |
| Orders.OrdersPage.HandleConfirmationPopupClose | frontend/src/components/Orders.js:85-87 | only the confirmation flag changes, to hidden |
| Orders.OrdersPage.ShowConfirmationPopupWithTimeout | frontend/src/components/Orders.js:63-68 | the confirmation is shown and one more dismissal timer is pending; earlier timers are not cleared |
| Orders.OrdersPage.DismissalTimerFires | frontend/src/components/Orders.js:65-67 | a pending timer fires and calls the close handler: confirmation hidden, one timer fewer |
| Orders.OrdersPage.SubmitCancellation | frontend/src/components/Orders.js:70-75 | the request goes to the selected order's path with status "cancelled" and the reason verbatim; the state is not changed, so nothing prevents a second submission |
| Orders.OrdersPage.CompleteSubmission | frontend/src/components/Orders.js:76-82 | on success the orders are fetched again, target and reason cleared and the confirmation shown with one more timer; on failure the state is unchanged |
| Orders.OrdersPage.HandleDownloadInvoice | frontend/src/components/Orders.js:89-91 | the result is exactly `Invoice.Generate` on the loaded GST records: no invoice iff no record matches the product; otherwise the total is the price, CGST + SGST is the first match's GST amount and the file name is derived from the order id |
| Orders.RetargetBeforeSubmit | frontend/src/components/Orders.js:49-52 | beginning a cancellation for a second order before submitting sends the request for the second order only, with its own reason; the dialog stays open on the second order and the orders, GST records and confirmation are as before |
| Orders.OverlappingDismissals | frontend/src/components/Orders.js:63-68 | after two successful submissions the first timer hides the confirmation while the second timer is still pending; target and reason are cleared, the GST records are as before and the list is the refreshed one (or the old one when nothing was fetched) |
| Invoice.FirstWithId | frontend/src/components/Orders.js:90 | none iff no record has the product's id; otherwise the index of the first record with that id |
| Invoice.FindGst | frontend/src/components/Orders.js:90 | none iff no record has the product's id; otherwise the first record of the list with that id, as `find` returns |
| Invoice.FileName | frontend/src/components/Orders.js:241 | the file name is "invoice_", then the order id's decimal digits, then ".pdf" |
| Invoice.FileNameInjective | frontend/src/components/Orders.js:241 | two different orders never download under the same file name |
| Invoice.ItemRow | frontend/src/components/Orders.js:144-154 | the data row has as many cells as the 7 headers; it shows the order id, the title, the quantity as text, the price unformatted, then CGST, SGST and the total to two decimals |
| Invoice.FooterRow | frontend/src/components/Orders.js:207-209 | the footer has 7 cells, all empty except the last, "Total Amount = " with the total to two decimals |
| Invoice.Build | frontend/src/components/Orders.js:95-154 | the fixed title and company block; the shipping-address and order-id texts; CGST equals SGST and together they make the record's GST amount; the total is the order's price; one item row under the fixed header, the footer and the file name |
| Invoice.Generate | frontend/src/components/Orders.js:89-91 | no invoice iff no GST record matches the order's product; otherwise the invoice built from the first matching record |
| Invoice.AddsPage | frontend/src/components/Orders.js:199-205 | a page is added iff `doc.lastAutoTable.finalY` (60 when it is absent or 0) lies below pageHeight - 20 |
| Invoice.CursorY | frontend/src/components/Orders.js:201 | the falsy-default reading of `finalY` with fallback 60: never 0; the position itself when it is present and not 0, else 60 |
| Invoice.TallerPageBreaksLess | frontend/src/components/Orders.js:199-205 | a page break on a taller page implies one on any shorter page |
| Invoice.NoEarlierTableNoBreakOnA4 | frontend/src/components/Orders.js:201-204 | with no earlier table position (absent or 0) a 297-high page never gets a page break |
| Invoice.TaxSplitsEvenly | frontend/src/components/Orders.js:140-141 | CGST and SGST are each half of the found record's GST amount |
| Invoice.TotalIgnoresTax | frontend/src/components/Orders.js:142 | total and footer equal the order's price whatever tax record is used |
| Invoice.ExampleInvoice | frontend/src/components/Orders.js:139-154 | a GST amount of 180 on an order priced 1000 gives CGST 90, SGST 90, total 1000 and "invoice_1.pdf" |
| Invoice.MissingRecordGivesNothing | frontend/src/components/Orders.js:90-91 | an order whose product has no GST record gets no invoice |
| GstDetails.GstAmount | frontend/src/components/GstDetails.js:76 | the amount times 100 is cost times percentage; 0 for 0 %; between 0 and the cost for a percentage of at most 100 |
| GstDetails.CategoryFilter | frontend/src/components/GstDetails.js:28-35 | the empty category keeps the list as it is; otherwise exactly the products of that category, each as many times as it occurs in the list, as an order-preserving subsequence |
| GstDetails.EmptyQueryKeepsAll | frontend/src/components/GstDetails.js:45-52 | the empty query keeps every product |
| GstDetails.SearchFilter | frontend/src/components/GstDetails.js:45-52 | a product is kept iff it matches the query, as many times as it occurs in the list; the result is an order-preserving subsequence of all products; the empty query keeps them all |
| GstDetails.Matches | frontend/src/components/GstDetails.js:46-51 | a product whose lower-cased title contains the lower-cased query, or whose id's digits contain the query, matches |
| GstDetails.RowOf | frontend/src/components/GstDetails.js:264-271 | the row shows the product's own fields and a GST amount with amount * 100 = cost * percentage |
| GstDetails.ChartBars | frontend/src/components/GstDetails.js:72-76 | one bar per listed product, in list order, titled by the product, with amount * 100 = cost * percentage |
| GstDetails.NonDigitQueryMatchesText | frontend/src/components/GstDetails.js:47-50 | a query containing a non-digit matches only through the title or the brand, never through the id or the percentage |
| GstDetails.ToLowerKeepsDigits | frontend/src/components/GstDetails.js:47-48 | lower-casing the query neither creates nor removes non-digit characters |
| GstDetails.SearchIgnoresCase | frontend/src/components/GstDetails.js:47-50 | a query matches the same products as its lower-cased form |
| GstDetails.TotalPages | frontend/src/components/GstDetails.js:67 | the page count is the ceiling of n / 5: the pages hold all n rows and one page fewer would not |
| GstDetails.PageItems | frontend/src/components/GstDetails.js:59-61 | a page has at most 5 rows; page p >= 1 is the slice from (p-1)*5 to p*5, clamped to the list |
| GstDetails.PagesUpToIsPrefix | frontend/src/components/GstDetails.js:59-61 | pages 1 to k, in order, hold exactly the first 5k rows |
| GstDetails.PagesCoverList | frontend/src/components/GstDetails.js:280-283 | pages 1 to totalPages, in order, reproduce the filtered list exactly, each row once |
| GstDetails.PageSize | frontend/src/components/GstDetails.js:280-283 | each page that has a button holds 1 to 5 rows; pages beyond totalPages are empty |
| GstDetails.PageOfRow | frontend/src/components/GstDetails.js:59-67 | row i is row i mod 5 of page i div 5 + 1, and that page has a button |
| GstDetails.TableAgreesWithChart | frontend/src/components/GstDetails.js:271 | a table row shows the same GST amount as the chart's bar for the same product |
| GstDetails.GstDetailsPage.constructor | frontend/src/components/GstDetails.js:9-13 | initially empty lists, empty query and category, page 1 |
| GstDetails.GstDetailsPage.LoadProducts | frontend/src/components/GstDetails.js:16-25 | a successful load sets both the products and the filtered list to the response; a failure changes nothing |
| GstDetails.GstDetailsPage.HandleCategoryChange | frontend/src/components/GstDetails.js:28-37 | the category is recorded, the list becomes the category filter of all products and the page resets to 1 |
| GstDetails.GstDetailsPage.HandleSearchChange | frontend/src/components/GstDetails.js:40-56 | the query is recorded, the list becomes the search over all products (whatever the category) and the page resets to 1 |
| GstDetails.GstDetailsPage.Paginate | frontend/src/components/GstDetails.js:64 | the current page becomes the chosen number |
| GstDetails.GstDetailsPage.CurrentRows | frontend/src/components/GstDetails.js:257-273 | the rendered rows are the current page's products, at most 5, each with its GST amount |
| GstDetails.GstDetailsPage.PageCount | frontend/src/components/GstDetails.js:67 | the number of page buttons is the least n with 5n at least the number of listed products; none iff the list is empty |
| GstDetails.SearchAfterCategory | frontend/src/components/GstDetails.js:45 | after a category choice and then a search, the list is the search over all (unchanged) products although the category stays selected |
| GstDetails.CategoryAfterSearch | frontend/src/components/GstDetails.js:28-36 | after a search and then a category choice, the list is the category's products (the product list unchanged) although the query stays in the box |
| Sequences.Filter | frontend/src/components/GstDetails.js:33 | an element is in the result iff it is in the input and accepted; the result is no longer than the input |
| Sequences.FilterMultiplicity | frontend/src/components/GstDetails.js:33 | each accepted element is kept as many times as it occurs, each rejected one never |
| Sequences.FilterIsSubsequence | frontend/src/components/GstDetails.js:45 | filtering never reorders what it keeps |
| Sequences.FilterKeepsAll | frontend/src/components/GstDetails.js:45 | a filter that accepts everything returns the input |
| Sequences.FilterConcat | frontend/src/components/GstDetails.js:33 | filtering a concatenation filters each part |
| Sequences.SubsequenceOfItself | frontend/src/components/GstDetails.js:31 | the unfiltered list is trivially an order-preserving subsequence of itself |
| Sequences.Slice | frontend/src/components/GstDetails.js:61 | for non-negative bounds, the sub-sequence between the bounds clamped to the length (empty when they cross); in-range bounds give the plain sub-sequence; an end of 0 gives nothing |
| Sequences.SliceFromEnd | frontend/src/components/GstDetails.js:61 | a negative bound counts back from the end and stops at 0 |
| Text.ToLower | frontend/src/components/GstDetails.js:47-48 | lower-casing keeps the length and lowers each character |
| Text.LowerChar | frontend/src/components/GstDetails.js:47-48 | the result is never a capital; a capital moves 32 code points up (from 'A' to 'a'), anything else is kept; digits stay digits |
| Text.Contains | frontend/src/components/GstDetails.js:47-50 | a string includes only queries no longer than itself, and includes each of its own prefixes |
| Text.NatToString | frontend/src/components/GstDetails.js:49-50 | a number's decimal form is non-empty and ends with the digit n % 10 |
| Text.ContainsEmpty | frontend/src/components/GstDetails.js:47 | every string includes the empty query |
| Text.ContainsInDigits | frontend/src/components/GstDetails.js:49-50 | whatever a string of digits includes is made of digits |
| Text.ToLowerIdempotent | frontend/src/components/GstDetails.js:47-48 | lower-casing twice equals lower-casing once |
| Text.ToLowerNoUpper | frontend/src/components/GstDetails.js:47-48 | a string without capitals is its own lower case |
| Text.NatToStringDigits | frontend/src/components/GstDetails.js:49-50 | an id's decimal form is a non-empty string of digits, one digit exactly below 10 |
| Text.NatToStringInjective | frontend/src/components/Orders.js:241 | different ids print differently |

## Left out

- HTTP calls and `console.error` logging are left out. Each response, and the outcome of the cancellation `PUT`, is a parameter.
- Interleavings of asynchronous handlers are left out. A submission is modelled as a start, `SubmitCancellation`, and a completion, `CompleteSubmission`. Other handlers may run between the two.
- The signed-in user comes from an authentication context that is not part of this model. It is a parameter, `userId`.
- The reload effect that re-runs when the user changes is left out. Its effect is a call of `FetchOrders` and `FetchGstDetails`.
- All jsPDF drawing is left out: fonts, widths, coordinates, rules and `doc.save`. So are the `autoTable` styling and the trailing "Thank you" line. Only the derived data is modelled: title text, company block, shipping-address text, order-id line, table cells and file name.
- The random invoice number and today's date are left out. They are non-deterministic and display only.
- The two-second delay of `setTimeout` is left out. Only the pending timers and their firing are modelled.
- Number formatting is left out. Cells record which formatting applies (`toString`, `toFixed(2)`), not the characters it produces. Floating-point rounding is not modelled either: amounts are exact `real` values.
- `Invoice.AddsPage`: the `didDrawPage` hook runs once per drawn page. Only the rule it applies on each call is modelled. Its `finalY` is whatever `doc.lastAutoTable.finalY` holds when the hook runs. The table library most likely sets that only after a table is drawn (line 229 reads `doc.autoTable.previous.finalY` afterwards), so for a fresh document the default 60 applies and on a 297-high page no page is added (`NoEarlierTableNoBreakOnA4`). Which value the library supplies is not modelled.
- `created_at` is modelled as the millisecond number `new Date` gives. An unparsable date, for which JavaScript compares `NaN`, is not modelled.
- `Text.LowerChar` and `Text.ToLower` lower-case the ASCII letters A-Z only. Non-ASCII case mapping is not modelled.
- GST percentages and ids are whole numbers. A fractional percentage's `toString` is not modelled.
- `handleReturnOrder` only logs, so it is left out.
- The order list's markup, routing links, icons, styles, row striping and hover handlers are left out.
- The chart's options are left out. Only its bars (title and amount) are modelled.
- `frontend/src/components/AdminProducts.js` is not part of this model. It fetches and renders categories and products, with no decision logic.
