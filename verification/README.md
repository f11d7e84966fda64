# Vinted Wallet — a verified model of the inventory and accounting core

Vinted Wallet is a small web app for reselling second-hand clothes. It keeps
products with size variants, records sales, and shows what has been invested,
earned and is still in stock. This project models in Dafny the part of the app
that decides these numbers:

- **Statistics.** The demo data provider's overview statistics (`calculateMockStats`).
  It also models the week, month and year earnings windows (`calculateMockPeriodEarnings`)
  and the `Date` calendar arithmetic they rest on.
- **Product store.** Products, sizes, sales and the period offsets (`useMockProducts`, `useMockStats`).
- **Return deadline.** The 30-day return rule (`getReturnStatus`, `hasReturnWarning`).
- **Product card.** What a card derives from a product: stock, badge, sizes line and potential profit.
- **Size editor.** The label-to-quantity map of the size editor.
- **Product form.** Its submit validation and how it normalises sizes.
- **Statistics page.** ISO week numbers, period labels, the two ratios, the
  forward buttons and the starting-budget editor.

Conventions:

- Money is in integer cents. Averages and percentages are `real`.
- An instant is a whole number of milliseconds in local time. The time zone is
  taken to be UTC, so every day lasts 86 400 000 ms.
- A day number counts days since 1970-01-01. "Now" is always a parameter.
- JavaScript's `a || b` on numbers is `Wrappers.OrElse`: zero and a missing value
  both fall through.
- The order in which a JavaScript object's keys were added is kept beside the map.
  The size editor's state is therefore a `Selection(quantities, order)` pair.
  `Object.entries` does not follow that order: it lists the keys that are array
  indices (every shoe size) first, in ascending numeric order, and then the other
  keys in the order they were added. `SizeManager.Listed` models this.

Modules (one file each):

| file | module | what it holds |
|---|---|---|
| `wrappers.dfy` | `Wrappers` | `Option`, `Result`, `OrElse` |
| `text.dfy` | `Text` | `String`, `parseInt`, `parseFloat`, `toFixed(2)`, `trim`, `join` |
| `calendar.dfy` | `Calendar` | `new Date(y, m, d)`, `getFullYear`/`getMonth`/`getDate`, weekdays |
| `inventory.dfy` | `Inventory` | products, sizes, sales, size requests, submitted product data |
| `accounting.dfy` | `Accounting` | the overview statistics |
| `periods.dfy` | `Periods` | earnings windows and per-period sums |
| `store.dfy` | `Store` | the product store and the statistics store (classes) |
| `return_status.dfy` | `ReturnStatus` | the return deadline |
| `product_card.dfy` | `ProductCard` | card derivations |
| `size_manager.dfy` | `SizeManager` | the size editor (functions and a class) |
| `product_form.dfy` | `ProductForm` | submit logic and the form state (class) |
| `stats_page.dfy` | `StatsPage` | week numbers, labels, ratios, budget editor (class) |

Code that changes state is modelled as classes whose methods are proved against
specification functions:

- `CalculateStats` and `CalculatePeriodStats` are loops proved against `Figures`
  and the window sums.
- The store methods, the size editor, the form state and the budget editor are
  class methods.

Pure code is modelled as functions with lemmas.

## Model

| member | source | states |
|---|---|---|
| Wrappers.OrElse | src/components/products/SizeManager.jsx:19 | `a \|\| b` on a number: the value when present and non-zero, the fallback otherwise |
| Text.ParseIntToString | src/components/products/SizeManager.jsx:53 | `parseInt` of an integer written out in decimal gives the integer back |
| Text.Trim | src/components/products/SizeManager.jsx:59-61 | the result is a slice of the input; it neither starts nor ends with white space; it is empty iff the input is all white space |
| Text.JoinEmpty | src/components/products/ProductCard.jsx:20-23 | joining with a non-empty separator gives "" iff there are no parts or the single part is "" |
| Text.ParseFloat | src/pages/StatsPage.jsx:101 | a negative result needs a minus sign right after the leading white space |
| Text.ParseFormatCents | src/pages/StatsPage.jsx:83 | `parseFloat` of an amount written with `toFixed(2)` reads back exactly that amount |
| Calendar.MakeDayParts | src/mocks/mockData.js:271 | for a day of month the month has, the date `new Date(y, m, d)` builds has `getFullYear` = y + m div 12 (the month index carries into the year), `getMonth` = m mod 12 and `getDate` = d |
| Calendar.YearOf | src/pages/StatsPage.jsx:8 | `getFullYear`: the day lies between the start of the year found and the start of the next |
| Calendar.YearOfUnique | src/pages/StatsPage.jsx:8 | any year whose span holds the day is the one `YearOf` finds |
| Calendar.MonthOf | src/pages/StatsPage.jsx:8 | `getMonth`: a month 1..12 whose span holds the day |
| Calendar.MonthOfUnique | src/pages/StatsPage.jsx:8 | any month whose span holds the day is the one `MonthOf` finds |
| Calendar.DateOfMonth | src/pages/StatsPage.jsx:8 | `getDate` lies in 1..31 |
| Calendar.CivilRoundTrip | src/pages/StatsPage.jsx:8 | building a date from `getFullYear`, `getMonth` and `getDate` of an instant gives the instant's day back |
| Calendar.YearOfYearStart | src/pages/StatsPage.jsx:11 | January 1st of year y lies in year y |
| Inventory.SoldAtMostTotal | src/components/products/ProductCard.jsx:6-7 | with valid stock, 0 ≤ units sold ≤ units bought |
| Accounting.CalculateStats | src/mocks/mockData.js:211-255 | the accumulating loops compute exactly `Figures`: sums over the sizes of active products, earnings over every sale |
| Accounting.Figures | src/mocks/mockData.js:241-242 | sold + available = all units of active sizes; net profit = earned − cost of the units sold; wallet − budget = earned − invested; net profit = wallet − budget + inventory value |
| Accounting.SoldPlusAvailable | src/mocks/mockData.js:229-230 | items sold + items available = the sum of `total_quantity` over active sizes |
| Accounting.InvestedMinusInventory | src/mocks/mockData.js:226-231 | invested − inventory value = the purchase cost of the units sold |
| Accounting.InventoryBounds | src/mocks/mockData.js:226-231 | with valid stock and non-negative prices, 0 ≤ inventory value ≤ invested |
| Accounting.CountBounds | src/mocks/mockData.js:229-230 | with valid stock, neither items sold nor items available is negative |
| Periods.WeekWindow | src/mocks/mockData.js:262-268 | the start keeps now's time of day; its day is today − weekday + 1 + 7·offset; the end is six days later |
| Periods.MonthWindow | src/mocks/mockData.js:270-274 | both ends are at midnight, and the window is one day shorter than the month offset months on from now's, years carried |
| Periods.MonthSpan | src/mocks/mockData.js:271-272 | both ends are at midnight, and the window is one day shorter than the month that index k from year y falls in |
| Periods.YearWindow | src/mocks/mockData.js:276-282 | both ends are at midnight, and the window is one day shorter than the year offset years on from now's |
| Periods.WeekStartsOnMonday | src/mocks/mockData.js:264 | the week window starts on a Monday at every offset |
| Periods.WeekWindowHoldsNow | src/mocks/mockData.js:262-268 | the current week window holds now exactly when today is not a Sunday |
| Periods.WeekWindowOnSunday | src/mocks/mockData.js:264 | on a Sunday the "current" week starts the next day and does not hold now |
| Periods.MonthEndDay | src/mocks/mockData.js:272 | `new Date(y, k + 1, 0)` is the last day of the month that `new Date(y, k, 1)` starts |
| Periods.MonthSpanShape | src/mocks/mockData.js:271-272 | month index k from year y spans, at midnight, the first to the last day of the carried year and month |
| Periods.MonthWindowShape | src/mocks/mockData.js:270-274 | the month window runs from midnight of day 1 to midnight of the last day of the month `offset` months on, years carried |
| Periods.MonthWindowHoldsToday | src/mocks/mockData.js:270-274 | today's day lies between the first and last day of the current month window |
| Periods.MonthWindowMissesLastDay | src/mocks/mockData.js:272 | after 00:00 on the month's last day, now is outside the current month window |
| Periods.YearWindowShape | src/mocks/mockData.js:276-282 | the year window runs from midnight of January 1st to midnight of December 31st |
| Periods.MonthWithinYear | src/mocks/mockData.js:270-282 | the current month window lies inside the current year window |
| Periods.FindOwner | src/mocks/mockData.js:296-298 | the first product that has the size, or none exactly when no product has it |
| Periods.CalculatePeriodStats | src/mocks/mockData.js:284-306 | the loop computes the window's earnings, profit and units; bounds are inclusive |
| Periods.CalculatePeriodEarnings | src/mocks/mockData.js:258-333 | the three summaries are over the week, month and year windows at their offsets |
| Periods.UnitsMonotone | src/mocks/mockData.js:291-293 | a window inside another counts no more units |
| Periods.ProfitAtMostEarned | src/mocks/mockData.js:292-301 | with non-negative prices and quantities, a window's profit never exceeds its earnings |
| Periods.UnownedSaleProfit | src/mocks/mockData.js:296-301 | a sale of a size no product owns adds to earnings but not to profit |
| Store.NotesOrNull | src/mocks/MockDataProvider.jsx:72 | empty notes become null, other notes are kept |
| Store.CreateRequests | src/mocks/MockDataProvider.jsx:76 | the sizes given are used as they are; without sizes there is a single "One Size" whose quantity is never 0, and it is stockable when the quantity entered is not negative |
| Store.NewProduct | src/mocks/MockDataProvider.jsx:66-83 | the fields carried over; not deleted, no average, nothing sold; one size per request, in order, with its quantity; "One Size" with `quantity \|\| 1` when no sizes were given |
| Store.ProductStore.constructor | src/mocks/MockDataProvider.jsx:53-54 | the store starts with the given products and sales, which must satisfy the stock and sales-ledger invariants |
| Store.ProductStore.CreateProduct | src/mocks/MockDataProvider.jsx:65-88 | the new product is put at the front, sales are unchanged, stock and the sales ledger stay valid, and fetching the new id gives the product with an empty sale list per size |
| Store.FindByLabel | src/mocks/MockDataProvider.jsx:95 | the first size with the label, or none iff no size has it |
| Store.UpdatedSizes | src/mocks/MockDataProvider.jsx:94-109 | one size per request; a known label keeps id and sold count and grows by `additionalQuantity \|\| 0`; a new label starts with `quantity \|\| additionalQuantity \|\| 1`, nothing sold |
| Store.UpdatedSizesValid | src/mocks/MockDataProvider.jsx:94-109 | non-negative requests keep sold ≤ total |
| Store.UpdatedProduct | src/mocks/MockDataProvider.jsx:90-125 | the details are replaced, the id, stamps and prices from sales are kept, the image changes only when a new one is chosen, the sizes are the edited ones, and valid stock stays valid |
| Store.EditKeepsLedger | src/mocks/MockDataProvider.jsx:94-109 | an edited size keeps the ledger: a known size keeps its id and sold count, and a new size starts at zero under an unused id |
| Store.ProductStore.UpdateProduct | src/mocks/MockDataProvider.jsx:90-125 | products with the id are rewritten, the others and the sales are unchanged, and stock and the sales ledger stay valid |
| Store.MarkDeleted | src/mocks/MockDataProvider.jsx:127-134 | only products with the id get `deleted_at`; nothing else changes |
| Store.ProductStore.DeleteProduct | src/mocks/MockDataProvider.jsx:127-134 | the store's products become `MarkDeleted` of the old ones |
| Store.ActiveProducts | src/mocks/MockDataProvider.jsx:213 | exactly the products that are not deleted |
| Store.ActiveProductsAppend | src/mocks/MockDataProvider.jsx:213 | the active products of a + b are those of a followed by those of b, so the filter keeps store order and lists each product once |
| Store.ActiveProductsCount | src/mocks/mockData.js:219-221 | the number of listed products is the statistics' product count |
| Store.DeleteHides | src/mocks/MockDataProvider.jsx:127-134 | after a delete no listed product has the id; every other product is listed exactly when it was before |
| Store.SoldApplied | src/mocks/MockDataProvider.jsx:138-148 | only sizes with the id gain the sold units; every other field is unchanged |
| Store.SellKeepsStock | src/mocks/MockDataProvider.jsx:138-148 | a sale that does not oversell keeps 0 ≤ sold ≤ total |
| Store.SaleKeepsLedger | src/mocks/MockDataProvider.jsx:138-159 | raising the sold count of the sale's size and recording the sale keeps every size's sold count equal to the units its recorded sales add up to |
| Store.CreateKeepsLedger | src/mocks/MockDataProvider.jsx:76-81 | a product created under an unused stamp starts with nothing sold of sizes that have no sales, so the ledger is kept |
| Store.ProductStore.SellProductSize | src/mocks/MockDataProvider.jsx:136-183 | refused exactly when it would oversell, and then nothing changes; otherwise the sale is put at the front, sold counts rise, averages are recomputed, and stock and the sales ledger stay valid |
| Store.AveragesApplied | src/mocks/MockDataProvider.jsx:162-179 | only `avg_sale_price` can change, and only on the product owning the size |
| Store.AverageAfterSale | src/mocks/MockDataProvider.jsx:170-177 | after a sale of its size, the owner has sold units and its average is revenue / units |
| Store.RevenueBounds | src/mocks/MockDataProvider.jsx:172-173 | revenue lies between units × the lowest price and units × the highest |
| Store.AverageWithinPrices | src/mocks/MockDataProvider.jsx:172-177 | a recomputed average lies between the lowest and highest sale price of the product |
| Store.SalesOf | src/mocks/MockDataProvider.jsx:197-205 | exactly the views of the sales of that size |
| Store.SalesOfAppend | src/mocks/MockDataProvider.jsx:197-205 | the sales of a size in history a + b are those in a followed by those in b, so the list keeps history order with one entry per sale |
| Store.FindProduct | src/mocks/MockDataProvider.jsx:189-190 | the first product with the id, or none exactly when no product has it |
| Store.CreatedIsFetched | src/mocks/MockDataProvider.jsx:65-88 | right after a create under an unused stamp, looking up the new id finds the new product, with every size holding the requested stock, nothing sold and no sales |
| Store.ProductStore.FetchProductById | src/mocks/MockDataProvider.jsx:186-210 | none iff no product, deleted or not, has the id; otherwise the first product with the id (`FindProduct`), with each size's sales |
| Store.Offsets.Set | src/mocks/MockDataProvider.jsx:250-253 | one offset set, the other two unchanged; offsets stay ≤ 0 |
| Store.Navigated | src/mocks/MockDataProvider.jsx:252 | `min(0, offset + direction)` |
| Store.StatsStore.constructor | src/mocks/MockDataProvider.jsx:229-232 | offsets start at 0 and the figures show the seed data |
| Store.StatsStore.Refetch | src/mocks/MockDataProvider.jsx:237-247 | recomputes the figures and the period earnings at the current offsets |
| Store.StatsStore.NavigatePeriod | src/mocks/MockDataProvider.jsx:249-264 | one offset moves, clamped at 0; the others are kept; the earnings are recomputed |
| Store.StatsStore.ResetPeriod | src/mocks/MockDataProvider.jsx:266-274 | one offset becomes 0; the others are kept; the earnings are recomputed |
| Store.StatsStore.UpdateStartingBudget | src/mocks/MockDataProvider.jsx:276-280 | the wallet moves by exactly the change in budget; earned, invested and net profit are kept |
| ReturnStatus.GetReturnStatus | src/utils/returnStatus.js:7-43 | no date: normal with nothing left; over 30 days: expired with 0 left; 23..30 days: warning with 30 − days left; otherwise normal with more than 7 left; days left never negative |
| ReturnStatus.HasReturnWarning | src/utils/returnStatus.js:48-51 | holds iff a date is present and at least 23 days have passed |
| ReturnStatus.SingularDay | src/utils/returnStatus.js:34 | the message says "dag" iff exactly one day is left |
| ReturnStatus.WarningMessage | src/utils/returnStatus.js:34 | the message starts with "Nog " and the number after it reads back as the days left |
| ReturnStatus.StatusAdvances | src/utils/returnStatus.js:19-42 | as time passes the status only moves from normal to warning to expired |
| ReturnStatus.CountsDown | src/utils/returnStatus.js:19-20 | within the window, a day later leaves one day fewer |
| ProductCard.AvailableWithinStock | src/components/products/ProductCard.jsx:6-8 | with valid stock, 0 ≤ available ≤ total |
| ProductCard.PotentialProfit | src/components/products/ProductCard.jsx:11-13 | 0 without a (non-zero) sale price or without stock; otherwise positive exactly when the sale price is above the purchase price and negative exactly when it is below |
| ProductCard.NoLossAtOrAbovePurchase | src/components/products/ProductCard.jsx:11-13 | selling at or above the purchase price never shows a loss |
| ProductCard.CardBadge | src/components/products/ProductCard.jsx:16-38 | sold out iff nothing is available; partial iff some sold and some available; the text is "Uitverkocht" or "n beschikbaar" |
| ProductCard.SoldOutExcludesPartial | src/components/products/ProductCard.jsx:16-17 | never both sold out and partly sold |
| ProductCard.UnsoldIsInStock | src/components/products/ProductCard.jsx:16-17 | with nothing sold: never partial, and sold out iff there is no stock |
| ProductCard.AvailableLabels | src/components/products/ProductCard.jsx:20-22 | exactly the labels of sizes with total > sold, no more of them than sizes |
| ProductCard.AvailableLabelsAppend | src/components/products/ProductCard.jsx:20-22 | the filter keeps order: labels of a + b are labels of a, then of b |
| ProductCard.AllAvailable | src/components/products/ProductCard.jsx:20-22 | when every size has stock, every label is listed, in order |
| ProductCard.SizesText | src/components/products/ProductCard.jsx:20-23 | the labels joined by ", ", or "Geen" when that is empty |
| SizeManager.Added | src/components/products/SizeManager.jsx:30 | a new key joins the order of addition, without duplicates |
| SizeManager.RemoveLabel | src/components/products/SizeManager.jsx:28 | `delete` takes the key out of the key order and keeps the rest |
| SizeManager.Toggled | src/components/products/SizeManager.jsx:25-34 | a set size is removed, an unset one gets 1; no other entry changes; well-formedness (every quantity ≥ 1) is kept |
| SizeManager.ToggleTwice | src/components/products/SizeManager.jsx:27-31 | toggling an absent size twice restores the selection, order included; a present one comes back with 1 |
| SizeManager.QuantityChanged | src/components/products/SizeManager.jsx:36-48 | a positive parsed value is stored; a non-positive or unparsable one removes the size; no other entry changes; quantities stay ≥ 1 |
| SizeManager.CustomAdded | src/components/products/SizeManager.jsx:58-70 | nothing happens exactly when the trimmed text is blank, already a key of the selection, or a name every object inherits; otherwise the trimmed label is added with 1 at the end of the order |
| SizeManager.InitialOrder | src/components/products/SizeManager.jsx:15-23 | the labels of the items, each once |
| SizeManager.InitialQuantities | src/components/products/SizeManager.jsx:15-23 | a key per item label; every quantity ≥ 1 when the items' quantities are not negative |
| SizeManager.LastItemWins | src/components/products/SizeManager.jsx:18-20 | a label's quantity is `quantity \|\| total_quantity \|\| 1` of its last item |
| SizeManager.Entry | src/components/products/SizeManager.jsx:51-54 | `{size, quantity: parseInt(String(quantity))}` carries the quantity unchanged. |
| SizeManager.Notification | src/components/products/SizeManager.jsx:50-56 | one request per key, with its quantity, in the order `Object.entries` lists the keys (`Listed`) |
| SizeManager.InsertIndex | src/components/products/SizeManager.jsx:51 | an array index placed into an ascending list of array indices keeps it ascending and adds exactly that label |
| SizeManager.IndexKeys | src/components/products/SizeManager.jsx:51 | the array-index keys, in ascending numeric order |
| SizeManager.OtherKeys | src/components/products/SizeManager.jsx:51 | only keys that are not array indices |
| SizeManager.Listed | src/components/products/SizeManager.jsx:51 | `Object.entries` visits every key exactly once |
| SizeManager.ListedPermutes | src/components/products/SizeManager.jsx:51 | the entries are a permutation of the keys |
| SizeManager.IndicesFirst | src/components/products/SizeManager.jsx:51 | before an array index come only array indices no larger than it |
| SizeManager.ListedAppend | src/components/products/SizeManager.jsx:51 | a new key that is not an array index is listed last; a new array index goes among the array indices by value and the other keys keep their places |
| SizeManager.ListedWithoutIndices | src/components/products/SizeManager.jsx:51 | with no array index among the keys (clothing sizes only), the entries follow the order of addition |
| SizeManager.ListedOnlyIndices | src/components/products/SizeManager.jsx:51 | with array indices only (shoe sizes only), the entries are in ascending numeric order |
| SizeManager.SumPermutation | src/components/products/SizeManager.jsx:72 | the sum of the quantities does not depend on the order of the labels |
| SizeManager.SumListed | src/components/products/SizeManager.jsx:72 | `Object.values` summed in entry order gives the same total as in the order of addition |
| SizeManager.TotalItems | src/components/products/SizeManager.jsx:72 | at least one per size, and 0 iff nothing is selected |
| SizeManager.TotalAfterChange | src/components/products/SizeManager.jsx:36-48 | the total moves by the new minus the old quantity of the size |
| SizeManager.TotalAfterToggle | src/components/products/SizeManager.jsx:25-34 | removing a size subtracts its quantity; adding one adds 1 |
| SizeManager.SizeEditor.constructor | src/components/products/SizeManager.jsx:7-23 | the selection is `InitialQuantities`/`InitialOrder` of the items; nothing typed, nothing sent |
| SizeManager.SizeEditor.Toggle | src/components/products/SizeManager.jsx:25-34 | the selection becomes `Toggled`, and the new selection is sent |
| SizeManager.SizeEditor.ChangeQuantity | src/components/products/SizeManager.jsx:36-48 | the selection becomes `QuantityChanged`, and it is sent |
| SizeManager.SizeEditor.SetCustomSize | src/components/products/SizeManager.jsx:135 | only the typed text changes |
| SizeManager.SizeEditor.AddCustomSize | src/components/products/SizeManager.jsx:58-70 | when CustomAdded refuses, nothing changes; otherwise the selection becomes its result, is sent, and the input is cleared |
| ProductForm.HandleSubmit | src/components/products/ProductForm.jsx:68-119 | the three errors, in order; success iff name and price are valid and (edit, sizes chosen, or quantity > 0); the fields carried over; the sizes sent in each mode |
| ProductForm.EditNeverNeedsQuantity | src/components/products/ProductForm.jsx:84-98 | an edit with a valid name and price is always accepted |
| ProductForm.CreateWithQuantity | src/components/products/ProductForm.jsx:102-111 | creating without sizes stocks exactly one "One Size" with the quantity entered |
| ProductForm.CreateFromSelection | src/components/products/ProductForm.jsx:100-113 | creating from the size editor makes one size per selected label, in the order `Object.entries` lists the labels (`Listed`), with its quantity, and the stock equals the editor's total |
| ProductForm.EditAddsStock | src/components/products/ProductForm.jsx:86-93 | an edit with added stock and no sizes leaves a single "One Size", grown by the added units |
| ProductForm.EditWithoutStockDropsSizes | src/components/products/ProductForm.jsx:94-97 | an edit with neither sizes nor added stock leaves the product with no sizes |
| ProductForm.EditKeepsStockOfKnownSizes | src/components/products/ProductForm.jsx:99 | sizes sent from the editor on an edit leave the stock of sizes the product already has unchanged |
| ProductForm.ResubmitUnchanged | src/components/products/ProductForm.jsx:24-37 | resubmitting an untouched edit form keeps name, price, date and notes, and leaves no sizes |
| ProductForm.ProductFormState.Create | src/components/products/ProductForm.jsx:12-21 | the empty form dated today |
| ProductForm.ProductFormState.Edit | src/components/products/ProductForm.jsx:24-37 | the form prefilled from the product |
| ProductForm.ProductFormState.SetName | src/components/products/ProductForm.jsx:39-45 | only the name changes |
| ProductForm.ProductFormState.SetPurchasePrice | src/components/products/ProductForm.jsx:39-45 | only the purchase price changes |
| ProductForm.ProductFormState.SetNotes | src/components/products/ProductForm.jsx:39-45 | only the notes change |
| ProductForm.ProductFormState.SetQuantity | src/components/products/ProductForm.jsx:39-45 | only the quantity changes |
| ProductForm.ProductFormState.SetAdditionalQuantity | src/components/products/ProductForm.jsx:39-45 | only the added quantity changes |
| ProductForm.ProductFormState.HandleImageChange | src/components/products/ProductForm.jsx:47-52 | only the image changes |
| ProductForm.ProductFormState.HandleSizesChange | src/components/products/ProductForm.jsx:54-59 | only the sizes change |
| ProductForm.ProductFormState.HandleDateChange | src/components/products/ProductForm.jsx:61-66 | only the purchase date changes |
| StatsPage.GetWeekNumber | src/pages/StatsPage.jsx:7-13 | the ISO week number lies in 1..53 |
| StatsPage.SameWeek | src/pages/StatsPage.jsx:9-10 | Monday to Sunday of one week share the number |
| StatsPage.FourthOfJanuaryInWeekOne | src/pages/StatsPage.jsx:7-13 | January 4th is always in week 1 |
| StatsPage.NextWeek | src/pages/StatsPage.jsx:10-12 | within one ISO year the next week has the next number |
| StatsPage.FormatPeriodLabel | src/pages/StatsPage.jsx:16-46 | with no start date only offset 0 has a name; week labels "Deze Week (n)", "Vorige Week (n)", "Week n"; month and year labels by offset |
| StatsPage.CurrentWeekLabel | src/pages/StatsPage.jsx:28-30 | the current week's label carries the ISO week number of today, or of tomorrow when today is a Sunday |
| StatsPage.PastYearLabel | src/pages/StatsPage.jsx:40-43 | an earlier year's label is that year |
| StatsPage.PastMonthLabel | src/pages/StatsPage.jsx:35-38 | an earlier month's label names the month and year `offset` months away |
| StatsPage.ProfitPercentage | src/pages/StatsPage.jsx:134-136 | 0 when nothing is invested; otherwise its sign is the net profit's and it is net profit / invested × 100 |
| StatsPage.SellThroughRate | src/pages/StatsPage.jsx:138-140 | 0 when there are no units; in 0..100 for non-negative counts; 100 when all are sold; 0 when none are |
| StatsPage.SellThroughOfStock | src/pages/StatsPage.jsx:138-140 | on valid stock the rate is in 0..100 and is the sold share of all active units |
| StatsPage.ForwardMovesOne | src/pages/StatsPage.jsx:306 | the forward button works exactly in a past period, and then moves one period on |
| StatsPage.ForwardDisabled | src/pages/StatsPage.jsx:306 | the forward button is disabled while loading and in the current period, enabled in a past period, and when enabled a step forward is never clamped |
| StatsPage.PrefilledBudget | src/pages/StatsPage.jsx:83 | the value the editor opens with is accepted and saves the same budget back |
| StatsPage.BudgetEditor.constructor | src/pages/StatsPage.jsx:60-63 | closed, empty, no error, no notice |
| StatsPage.BudgetEditor.EditBudget | src/pages/StatsPage.jsx:82-87 | opens on the budget written with two decimals and clears error and notice |
| StatsPage.BudgetEditor.SetBudgetValue | src/pages/StatsPage.jsx:188 | only the typed value changes |
| StatsPage.BudgetEditor.CancelEdit | src/pages/StatsPage.jsx:89-94 | closed, empty, no error, no notice |
| StatsPage.BudgetEditor.SaveBudget | src/pages/StatsPage.jsx:96-114 | error iff the value is not a number or negative, and then the budget is kept; otherwise the budget becomes the value in cents and the editor closes with a notice |

## Left out

- Supabase, authentication, routing, the browser APIs and the pages that only render or navigate are not part of this model.
- `console.log`, the simulated delays and the loading flags are not modelled; each operation takes effect at once.
- `URL.createObjectURL` is not modelled: a newly chosen image is passed in as its object URL.
- Ids built from `Date.now()` take the current instant as a parameter. Two reads of the clock within one operation are taken to be equal.
- Time zones and daylight saving time are not modelled: local time is UTC.
- `toISOString().split('T')[0]` on the window bounds and on the purchase date is modelled as taking the day number.
- The month names of `toLocaleDateString('nl-NL')` (src/pages/StatsPage.jsx:37): a past month's label is kept as a year and month.
- The `toFixed(1)` rounding of the two percentages (src/pages/StatsPage.jsx:134-140) is left out; the ratios are exact reals.
- The "potential additional earnings" insight (src/pages/StatsPage.jsx:447) states no contract and is left out.
- Money is in integer cents, so floating-point rounding of prices and sums is not modelled.
- Text.ParseFloat: exponents, "Infinity" and the sign in front of "Infinity" are not read.
- StatsPage.Cents: a saved budget keeps whole cents and drops any smaller fraction.
- StatsPage.BudgetEditor.SaveBudget: the `catch` branch is not modelled, because the demo budget update cannot fail. Hiding the success notice after three seconds (src/pages/StatsPage.jsx:110) is not modelled either.
- React's batching is not modelled. The store is one sequential object: a refused sale changes nothing, and the average is taken over the history including the new sale.
  - In the source, the throw inside the `setProducts` updater (src/mocks/MockDataProvider.jsx:144) need not stop the sale being recorded.
  - The average reads the `sales` closure (src/mocks/MockDataProvider.jsx:166).
- Store.ProductStore.SellProductSize: requires a quantity of at least 1. Its only caller passes the default of 1.
- Store.ProductStore.CreateProduct: requires every requested size to carry a quantity, and that quantity not to be negative. In the source a size without a quantity gets `total_quantity` undefined, and a negative one gives a size with less in stock than sold; every caller passes a quantity of at least 1.
- Store.ProductStore.CreateProduct: also requires that no recorded sale refers to a size id stamped with `now`. The source relies on `Date.now()` giving new ids; without this a new size could inherit sales and the sales ledger (`Store.Ledger`: each size's sold count is the sum of its recorded sales) would not hold.
- Store.ProductStore.UpdateProduct: likewise requires that no recorded sale refers to a size id stamped with `now`, for the sizes an edit adds.
- Store.ProductStore.UpdateProduct: requires non-negative quantities, so that sold ≤ total can be kept.
- SizeManager.Entry: quantities are unbounded integers. JavaScript writes a number of 10^21 or more in exponent form, so `parseInt(String(q))` (src/components/products/SizeManager.jsx:53) reads such a quantity back as its first digit; integers beyond 2^53 lose precision. The model keeps every quantity exactly.
- Calendar.MakeDay and Calendar.MakeDayParts: the year is taken as written. `new Date(y, m, d)` (src/mocks/mockData.js:271-280) and `Date.UTC` (src/pages/StatsPage.jsx:8,11) read a year from 0 to 99 as 1900 + y; the year window only reaches such a year after going back about 1900 years. The `Date` range limit of 8.64·10^15 ms either side of 1970 is not modelled either.
- SizeManager.Toggled and SizeManager.QuantityChanged: a label counts as set only when it is a key of the selection. These are called only with the fixed clothing and shoe sizes and with keys already shown, none of which is a name inherited from `Object.prototype`; `SizeManager.CustomAdded` does model inherited names.
- SizeManager.InitialQuantities: an item labelled `__proto__` is stored like any other label. In JavaScript assigning a number to `sizes.__proto__` is ignored.
- The list of selected sizes the editor renders (src/components/products/SizeManager.jsx:150-168) is not modelled; it uses the same `Object.entries` order as `SizeManager.Notification`.
- The form's number inputs are held as already-parsed values (`Option<int>`), not as the typed text.
- The edit page supplies `image_url` for an edit; `HandleSubmit` leaves it empty.
- The statistics store computes over the seed data (`MOCK_PRODUCTS`, `MOCK_SALES`), as the source does, not over the live product store.

Where the behaviour differs from what one might expect, the model follows the code:

- `updateProduct` keeps only the sizes listed in the submission, even sizes with sales.
- An edit that adds no stock sends an empty size list, and so removes every size (`ProductForm.EditWithoutStockDropsSizes`, `ProductForm.ResubmitUnchanged`).
- The size editor sends no `additionalQuantity` on an edit, so stock of known sizes does not grow (`ProductForm.EditKeepsStockOfKnownSizes`).
- The size editor sends the shoe sizes first, smallest first, whatever order they were picked in, and only then the other labels (`SizeManager.IndicesFirst`, `SizeManager.ListedAppend`).
- On a Sunday the "current" week starts the next day (`Periods.WeekWindowOnSunday`).
- The month and year windows end at midnight of their last day (`Periods.MonthWindowMissesLastDay`).
