# mytailor5 order logic in Dafny

This project models the order-record logic of mytailor5, a small web app that a
tailor's shop uses to record orders. An order has a customer, photos, a note, a
price, a status (pending or completed), an optional source (online or offline)
and optional quick tags. Below the React screens and the hosted backend, the
app has a deterministic layer. This project models it and proves its
properties:

- **Order store** (`services/db.ts`), across five modules:
  - `StoreImages`: how image references are classified and uploaded;
  - `StoreIds`: UUID version 4 generation and checking, as in section 4.4 of
    RFC 4122;
  - `StoreRecords`: the mapping between an order and its table row, `saveOrder`,
    loading, and the legacy `imageBase64` migration in `importData`;
  - `StoreExport`: the CSV export, with quotes doubled as in section 2 of
    RFC 4180;
  - `Receipt`: the layout of the receipt image, which holds the
    character-by-character line wrapping of `getLines`, the image stacking and
    the height arithmetic.
- **Order list** (`components/OrderList.tsx`, module `OrderList`):
  - the status toggle and the urgency levels;
  - the search filter;
  - the edit dialog's tag and image edits and its validation;
  - the cover image;
  - the download-name sanitiser.
- **Dashboard** (`components/Stats.tsx`, module `Stats`):
  - total income and the pending and overdue counts, with the overdue alert in
    module `OverdueAlert`;
  - the per-day tallies of the calendar;
  - the month split into five weeks and the filter on the fifth week;
  - the Monday-first weekday labels.
- **New-order form** (`components/OrderForm.tsx`, module `OrderForm`):
  - dictation into the note;
  - the tag and image edits and which input set the source;
  - the checks of `handleSave`, in order, and the order it builds.
- **PDF report** (`services/pdf.ts`, module `Pdf`):
  - cutting the orders into pages of 14;
  - the table cells and the summary line;
  - the page sequence.

Shared definitions sit in four more modules:

- `Orders` holds the `Order` record and the status and source types.
- `Text` holds string helpers: prefix and suffix tests, trimming,
  split and join, and decimal digits.
- `ListEdits` holds the tag toggle, removal at an index, and the subsequence
  relation.
- `Wrappers` holds `Option` and `Result`.

A price is a JavaScript number, modelled as `JsNumber = Finite(real) | NaN`.
This makes three JavaScript behaviours explicit:

- `|| 0` replaces NaN;
- a sum with a NaN in it is NaN;
- `> 0` is false on NaN.

Parameters stand in for everything that is not deterministic:

- backend calls, such as the signed-in user, upload outcomes, table write
  errors and signed URLs;
- the clock, and date parsing and formatting;
- canvas text measurement;
- `Math.random`, which becomes a sequence of nibbles;
- `parseFloat`, `toFixed(2)` and `toLowerCase`, whose Unicode case mapping
  is not modelled;
- image compression and decoding.

Stateful code becomes methods with loops, each proved against a specification
function:

- `getLines` and the receipt layout;
- the CSV export and `importData`;
- `tasksByDate` and the week breakdown;
- `chunkOrders` and the page loop of `generateOrdersPDF`.

Screen handlers that compute the next state from the previous one become
functions.

## Model

| member | source | states |
|---|---|---|
| Orders.JsNumber.OrZero | mytailor5/services/pdf.ts:137 | `x \|\| 0` is always a number, and a number is kept as it is |
| Orders.OlderThanDaysIsDivision | mytailor5/components/Stats.tsx:63-64 | "more than d days old" is exactly `(now - createdAt) / 86400000 > d` on real numbers |
| Text.TrimEmptyIffBlank | mytailor5/components/OrderForm.tsx:93 | the trimmed name is empty exactly when the name is all whitespace |
| Text.TrimIsInfix | mytailor5/components/OrderForm.tsx:107 | the trimmed name is a contiguous piece of the name |
| Text.JoinSplit | mytailor5/services/db.ts:347 | splitting on a separator and joining back gives the text |
| Text.SplitTrailingSeparator | mytailor5/services/db.ts:347 | a text ending in the separator splits with an empty last piece |
| Text.NatToString | mytailor5/components/OrderForm.tsx:103 | the decimal text of a number is non-empty and all digits |
| Text.ParseNatToString | mytailor5/services/pdf.ts:139 | reading the decimal text back gives the number |
| ListEdits.ToggleTag | mytailor5/components/OrderForm.tsx:73-77 | a present tag leaves together with all its copies, nothing else changes membership and the other tags keep their order; an absent tag is appended at the end |
| ListEdits.RemoveAllAppend | mytailor5/components/OrderList.tsx:190 | `filter(t => t !== tag)` works tag by tag: the parts of a list are filtered one after the other, and a single tag goes exactly when it is the one removed |
| ListEdits.RemoveAllKeepsOrder | mytailor5/components/OrderForm.tsx:75 | the tags that stay keep their order |
| ListEdits.ToggleAbsentTwice | mytailor5/components/OrderList.tsx:186-194 | toggling an absent tag twice gives the list back exactly |
| ListEdits.ToggleTwiceKeepsMembership | mytailor5/components/OrderList.tsx:186-194 | toggling any tag twice keeps the set of selected tags |
| ListEdits.RemoveAt | mytailor5/components/OrderForm.tsx:69-71 | exactly the element at the index goes and the rest keep their order; an index out of range changes nothing |
| ListEdits.RemoveAtAppended | mytailor5/components/OrderList.tsx:179-184 | removing the element just appended gives the list back |
| ListEdits.SubsequenceAppend | mytailor5/components/Stats.tsx:131 | a subsequence stays one when both lists grow by the same element, or when only the longer one grows |
| StoreImages.StoragePath | mytailor5/services/db.ts:57-73 | an uploaded image's path is one of the persisted references that later uploads skip |
| StoreImages.UploadImages | mytailor5/services/db.ts:84-95 | same length and order; `http(s)://` and `orders/` entries are unchanged; a successful upload at i gives `orders/<user>/<order>/<i>.jpg`; a failed one keeps the inline data |
| StoreImages.RetryUploadsOnlyFailures | mytailor5/services/db.ts:84-95 | a second run attempts exactly the indexes whose first upload failed |
| StoreImages.UploadIdempotentAfterSuccess | mytailor5/services/db.ts:84-95 | once every attempted upload has succeeded, running again changes nothing |
| StoreImages.GetImageUrl | mytailor5/services/db.ts:100-135 | data URLs, `http(s)` URLs and unknown strings are returned unchanged; an `orders/` path is signed without the prefix, and falls back to itself when signed out or on failure |
| StoreImages.OnlyStoragePathsAreSigned | mytailor5/services/db.ts:112-127 | whenever the result differs from the argument, the argument was an `orders/` path and the result is its signed URL |
| StoreIds.HexDigit | mytailor5/services/db.ts:179 | a nibble prints as a lower-case hexadecimal digit |
| StoreIds.VariantNibble | mytailor5/services/db.ts:178 | `r & 0x3 \| 0x8` lies in 8..11, the RFC 4122 variant |
| StoreIds.FillAt | mytailor5/services/db.ts:176-180 | each `x` of the template becomes a hex digit, each `y` one of `89ab`, and every other character stays |
| StoreIds.TemplateIsSourceText | mytailor5/services/db.ts:176 | the template is `xxxxxxxx-xxxx-4xxx-yxxx-xxxxxxxxxxxx` |
| StoreIds.DrawsConcat | mytailor5/services/db.ts:176-180 | the random draws of a concatenated template add up |
| StoreIds.DrawsXs | mytailor5/services/db.ts:176 | a run of n `x` characters takes n draws |
| StoreIds.TemplateDraws | mytailor5/services/db.ts:176 | the template is 36 characters long and takes 31 draws |
| StoreIds.HexSegment | mytailor5/services/db.ts:176-180 | a run of `x` in the template comes out as hexadecimal digits |
| StoreIds.GenerateUuid | mytailor5/services/db.ts:175-181 | every generated id passes `uuidRegex` |
| StoreIds.StorageOrderId | mytailor5/services/db.ts:189-193 | the folder id is always a UUID: the order's own id when it is one, a fresh one otherwise |
| StoreRecords.DropZero | mytailor5/services/db.ts:150 | `completedAt \|\| undefined` drops exactly a zero time |
| StoreRecords.OrderToDb | mytailor5/services/db.ts:160-172 | the row holds the images and the note, the tags with `[]` for missing ones, and the completion time without a zero |
| StoreRecords.DbToOrder | mytailor5/services/db.ts:142-155 | a row reads back with `[]`, `''` and `[]` for missing images, note and tags |
| StoreRecords.WireRoundTrip | mytailor5/services/db.ts:142-172 | a written row reads back as the order, except that missing tags become `[]` and a zero completion time is dropped; a non-zero time survives |
| StoreRecords.SaveOrder | mytailor5/services/db.ts:183-218 | both error messages; on success the row carries an id exactly when the order's id is a UUID, and holds the order with its images uploaded under that folder id |
| StoreRecords.NewOrderUploadsMissCleanup | mytailor5/services/db.ts:189-207 | a new order's row has no id, but its uploads sit under a fresh UUID, so the folder `deleteOrder` clears for the server's id holds none of them |
| StoreRecords.GetOrdersImagesAsWritten | mytailor5/services/db.ts:239-245 | loading yields one image list per row, and as written each is `[undefined]` |
| StoreRecords.LoadLosesImages | mytailor5/services/db.ts:244 | as written, a row that stores photos never loads with those photos |
| StoreRecords.NormalizeImages | mytailor5/services/db.ts:481-484 | keeps `images` when present, else `[imageBase64]` when that is non-empty, else `[]` |
| StoreRecords.SaveThenLoad | mytailor5/services/db.ts:239-245 | with the corrected normalisation, a saved order loads back with its images, note and price |
| StoreRecords.LegacyRowLoads | mytailor5/services/db.ts:239-245 | a legacy row with only `imageBase64` loads with that one image |
| StoreRecords.Migrate | mytailor5/services/db.ts:480-485 | an imported record is its fields with the images normalised |
| StoreRecords.Importable | mytailor5/services/db.ts:486-488 | every kept record has an id and at least one image, and there are no more than in the input |
| StoreRecords.ImportablePrefix | mytailor5/services/db.ts:486-488 | the records kept from a prefix of the input begin the records kept from all of it |
| StoreRecords.ImportableStep | mytailor5/services/db.ts:486-492 | one more record adds its migration to the kept records exactly when it is importable |
| StoreRecords.ImportData | mytailor5/services/db.ts:473-497 | input that is not an array fails with "Import failed"; otherwise the importable records are saved in order, the count of saves is returned, and the first failed save stops the import with "Import failed" |
| StoreRecords.ImportedOrdersAreComplete | mytailor5/services/db.ts:486-488 | every imported order has a non-empty id and at least one image |
| StoreExport.Escape | mytailor5/services/db.ts:456-458 | escaping never shortens a value |
| StoreExport.ReadQuotedEscape | mytailor5/services/db.ts:456-458 | un-doubling the quotes of an escaped value up to its closing quote gives back the value and what follows |
| StoreExport.QuoteRoundTrip | mytailor5/services/db.ts:456-458 | a quoted field starts with `"`, and dropping it and un-doubling gives back the value, as section 2 of RFC 4180 requires |
| StoreExport.Fields | mytailor5/services/db.ts:446-459 | a row has eleven fields: the quoted name first, the quoted note tenth and the id last |
| StoreExport.RowTexts | mytailor5/services/db.ts:446-462 | one row text per order, in order |
| StoreExport.ExportToCsv | mytailor5/services/db.ts:441-465 | the file is the BOM and the header followed by one `\n`-terminated row per order |
| StoreExport.LinesAppend | mytailor5/services/db.ts:460-462 | the lines of two lists of rows are the lines of the first followed by those of the second |
| StoreExport.RowsAppend | mytailor5/services/db.ts:446-462 | exporting two lists of orders gives the rows of the first followed by those of the second |
| StoreExport.RowStartsWithName | mytailor5/services/db.ts:456-460 | reading a row's first quoted field gives the customer's name back, followed by a comma |
| Receipt.FlattenAppend | mytailor5/services/db.ts:349-351 | the text of two lists of lines is the text of the first followed by that of the second |
| Receipt.GetLines | mytailor5/services/db.ts:289-306 | the loop computes the wrapping `Wrap` |
| Receipt.WrapFromKeepsText | mytailor5/services/db.ts:294-303 | the lines built from a current line and the rest give back that text, and none of them is empty |
| Receipt.WrapFromFits | mytailor5/services/db.ts:294-303 | when the current line fits, every prefix of two or more characters of every line measures less than the limit |
| Receipt.WrapFromBreaks | mytailor5/services/db.ts:296-301 | a line ends only where its next character would have made it as wide as the limit or wider |
| Receipt.WrapProperties | mytailor5/services/db.ts:289-306 | a non-empty text wraps into 1 to \|text\| non-empty lines that give back the text; every prefix of two or more characters of a line measures less than the limit; every break is forced |
| Receipt.EmptyTextDrawsUndefined | mytailor5/services/db.ts:289-292 | as written, an empty text gives the one line `undefined` |
| Receipt.FullNote | mytailor5/services/db.ts:344-346 | the note drawn always starts with `备注: ` |
| Receipt.NoteLines | mytailor5/services/db.ts:347-351 | the loop computes the wrapped lines of the note, piece by piece, with the corrected wrap that gives an empty piece one empty line where the code draws `undefined` |
| Receipt.WrapAllKeepsText | mytailor5/services/db.ts:347-351 | the wrapped pieces give back the pieces' text, in at least as many lines as pieces |
| Receipt.TrailingLineBreakDrawsUndefined | mytailor5/services/db.ts:347-351 | as written, a note that ends in a line break draws `undefined` as its last line |
| Receipt.Padding | mytailor5/services/db.ts:328 | the padding is `max(28, floor(width / 22))` |
| Receipt.ScaledHeight | mytailor5/services/db.ts:334 | a scaled image height is never negative |
| Receipt.ScaledHeights | mytailor5/services/db.ts:334 | each image's height is scaled to the first image's width |
| Receipt.StackImages | mytailor5/services/db.ts:370-381 | each image is drawn at the sum of the heights above it, and the images end at the sum of all heights |
| Receipt.SumRPrefix | mytailor5/services/db.ts:370-381 | the heights above an image never exceed the heights of all images |
| Receipt.ImagesTile | mytailor5/services/db.ts:370-381 | each image starts where the one before it ends, within the stack |
| Receipt.PlaceLines | mytailor5/services/db.ts:427-430 | the note's baselines are evenly spaced by the line height, from the first baseline on |
| Receipt.AllLoaded | mytailor5/services/db.ts:323 | `Promise.all` succeeds exactly when every image loads, and keeps them in order |
| Receipt.LayOut | mytailor5/services/db.ts:327-430 | the canvas is the first image's width; its height is the scaled images plus the text box; the note lines (with the corrected wrap of empty pieces) and their baselines, the bar colour by status and the right-aligned price line |
| Receipt.ComposeReceipt | mytailor5/services/db.ts:321-437 | a failed image load or an empty image list is an error; otherwise the receipt layout of the loaded images |
| Receipt.NoteFitsInBox | mytailor5/services/db.ts:353-421 | every note baseline lies below the images and at least two paddings above the bottom of the canvas |
| Receipt.FirstImageUnscaled | mytailor5/services/db.ts:327-334 | the first image keeps its own height |
| OrderList.ToggleStatus | mytailor5/components/OrderList.tsx:41-48 | the status flips; `completedAt` is `now` exactly when the new status is completed and is absent otherwise; nothing else changes |
| OrderList.ToggleTwiceFromPending | mytailor5/components/OrderList.tsx:41-48 | two toggles from pending give the order back with no completion time |
| OrderList.ToggleTwiceFromCompleted | mytailor5/components/OrderList.tsx:41-48 | two toggles from completed give the order back completed at the second toggle's time |
| OrderList.UrgencyLevel | mytailor5/components/OrderList.tsx:105-111 | critical above 10 days, serious above 7, warning above 5, normal otherwise, each as an if-and-only-if |
| OrderList.UrgencyMonotone | mytailor5/components/OrderList.tsx:105-111 | an older order is never less urgent |
| OrderList.CardUrgency | mytailor5/components/OrderList.tsx:249 | urgency is shown only on the pending tab |
| OrderList.FilteredOrders | mytailor5/components/OrderList.tsx:196-201 | an order is kept exactly when it is on the tab and its note or name, lower-cased by `toLowerCase` (a parameter), contains the lower-cased term |
| OrderList.FilteredIsSubsequence | mytailor5/components/OrderList.tsx:196-201 | the filtered list keeps the orders in their order |
| OrderList.FilteredAppend | mytailor5/components/OrderList.tsx:196-201 | filtering two lists is filtering each, one after the other |
| OrderList.EmptyTermKeepsTab | mytailor5/components/OrderList.tsx:196-201 | an empty search keeps exactly the orders on the tab, since lower-casing the empty term leaves it empty |
| OrderList.StartEditing | mytailor5/components/OrderList.tsx:115-124 | the edit form starts with the order's name, images, tags, note and price |
| OrderList.ToggleEditTag | mytailor5/components/OrderList.tsx:186-194 | the form's tags are toggled, with missing tags taken as `[]`, and nothing else changes |
| OrderList.ToggleEditTagTwice | mytailor5/components/OrderList.tsx:186-194 | toggling an absent tag twice restores the form's tags |
| OrderList.EditImageAdd | mytailor5/components/OrderList.tsx:159-177 | new photos are appended after the form's photos; a failed compression or no file changes nothing |
| OrderList.EditImageRemove | mytailor5/components/OrderList.tsx:179-184 | exactly the photo at the index goes; an index out of range changes nothing |
| OrderList.AddThenRemove | mytailor5/components/OrderList.tsx:159-184 | removing the photo just added gives the form back |
| OrderList.ApplyDraft | mytailor5/components/OrderList.tsx:140-147 | the saved order takes the form's fields over the order's, the chosen time, and `Number(price) \|\| 0` as its price |
| OrderList.SaveEditing | mytailor5/components/OrderList.tsx:131-147 | a missing or blank name is refused; otherwise the merged order, keeping `createdAt` when the date text is empty |
| OrderList.SaveUntouched | mytailor5/components/OrderList.tsx:131-147 | saving an unchanged form gives the order back, with a NaN price turned into 0 |
| OrderList.CoverImage | mytailor5/components/OrderList.tsx:268 | the cover is the first photo, or the legacy `imageBase64` when there are none |
| OrderList.CoverStableUnderAppend | mytailor5/components/OrderList.tsx:268 | adding photos does not change the cover |
| OrderList.KeepNameChars | mytailor5/components/OrderList.tsx:73 | the sanitised name holds only ASCII letters, digits and U+4E00 to U+9FA5 |
| OrderList.KeepNameCharsAppend | mytailor5/components/OrderList.tsx:73 | the sanitiser works character by character: the parts of a name are sanitised one after the other |
| OrderList.KeepNameCharsSingle | mytailor5/components/OrderList.tsx:73 | a single character is kept exactly when it is allowed, so every allowed character of a name is kept |
| OrderList.KeepNameCharsIsSubsequence | mytailor5/components/OrderList.tsx:73 | the sanitised name is a subsequence of the name |
| OrderList.KeepNameCharsFixed | mytailor5/components/OrderList.tsx:73 | a name of allowed characters is kept as it is |
| OrderList.CleanNameIdempotent | mytailor5/components/OrderList.tsx:73 | sanitising twice equals sanitising once unless the first result is empty, in which case it becomes `NoName` |
| OrderList.SymbolsOnlyName | mytailor5/components/OrderList.tsx:73 | `###` sanitises to the empty name, and sanitising that gives `NoName` |
| Stats.TotalIncomeMeaning | mytailor5/components/Stats.tsx:57 | total income is NaN exactly when some price is NaN, and otherwise the sum of the prices |
| Stats.PendingOrders | mytailor5/components/Stats.tsx:58 | exactly the pending orders |
| Stats.PendingOrdersAppend | mytailor5/components/Stats.tsx:58 | the pending list keeps each pending order once, in list order, so `pendingCount` is the number of pending orders |
| Stats.CriticalOrders | mytailor5/components/Stats.tsx:61-65 | exactly the given orders more than 5 days old |
| Stats.CriticalOrdersAppend | mytailor5/components/Stats.tsx:62-65 | the overdue list keeps each order more than 5 days old once, in list order, so `criticalCount` is their number |
| OverdueAlert.CriticalAmongPending | mytailor5/components/Stats.tsx:58-65 | the overdue count never exceeds the pending count, and an order is overdue exactly when it is pending and its card shows some urgency |
| Stats.TallyCountsDay | mytailor5/components/Stats.tsx:71-73 | a day's pending and completed counts add up to its number of orders |
| Stats.TallyOfAppend | mytailor5/components/Stats.tsx:69-74 | one more order counts once, in its own day only |
| Stats.TallyIsStep | mytailor5/components/Stats.tsx:71-73 | the map update counts the order in its day and leaves every other day as it was |
| Stats.TalliesStep | mytailor5/components/Stats.tsx:69-74 | each step of the loop keeps the map equal to the tallies of the orders seen |
| Stats.TallyTotalPick | mytailor5/components/Stats.tsx:68-74 | the orders counted over several days can be summed starting from any one of them |
| Stats.TallyTotalFrame | mytailor5/components/Stats.tsx:68-74 | the total over a set of days depends only on those days' tallies |
| Stats.TasksTotalStep | mytailor5/components/Stats.tsx:69-74 | counting one more order adds one to the total over all days |
| Stats.TasksByDate | mytailor5/components/Stats.tsx:68-74 | a day has an entry exactly when some order falls on it; its entry is its pending and completed counts, which add up to its orders; all entries together count `orders.length` |
| Stats.DayCountSeen | mytailor5/components/Stats.tsx:70-71 | a day has orders exactly when some order falls on it |
| Stats.FindWeekFrom | mytailor5/components/Stats.tsx:127 | `findIndex` returns the first week containing the day, or -1 when none does |
| Stats.FindWeek | mytailor5/components/Stats.tsx:127 | a week index or -1 |
| Stats.WeeksPartitionDays | mytailor5/components/Stats.tsx:117-127 | every day 1..31 falls in exactly one week, `(day - 1) / 7` capped at the fifth |
| Stats.Bucket | mytailor5/components/Stats.tsx:125-133 | a week holds no more orders than the month |
| Stats.BucketAppend | mytailor5/components/Stats.tsx:128-132 | one more order joins the end of its own week only |
| Stats.TotalIncomeAppend | mytailor5/components/Stats.tsx:113 | income grows by each order's price |
| Stats.AllWeeks | mytailor5/components/Stats.tsx:117-133 | there are five weeks, each with its own orders, count and income |
| Stats.FileOrder | mytailor5/components/Stats.tsx:128-132 | one more order updates its own week's income, count and orders only |
| Stats.WeeklyBreakdown | mytailor5/components/Stats.tsx:117-133 | the loop produces the five weeks of the month |
| Stats.ShownWeeks | mytailor5/components/Stats.tsx:136 | a week is shown exactly when its income is positive or it is not the fifth |
| Stats.ShownWeeksOfMonth | mytailor5/components/Stats.tsx:136 | weeks one to four are always shown; the fifth only when its income is positive |
| Stats.ShownWeeksKeepsAll | mytailor5/components/Stats.tsx:136 | when every week passes the filter, the list is unchanged |
| Stats.MonthlyData | mytailor5/components/Stats.tsx:103-137 | the month's income and count, and its shown weeks |
| Stats.MonthOrders | mytailor5/components/Stats.tsx:108-111 | exactly the orders of the month |
| Stats.MonthOrdersAppend | mytailor5/components/Stats.tsx:108-114 | the month's list keeps each order of the month once, in list order, so `totalCount` is their number |
| Stats.RevenueAppend | mytailor5/services/pdf.ts:137 | revenue grows by each price, with NaN counted as 0 |
| Stats.BucketStep | mytailor5/components/Stats.tsx:128-131 | one more order adds one to its week's count and its price to its week's revenue, and nothing elsewhere |
| Stats.BucketsSplitMonth | mytailor5/components/Stats.tsx:125-133 | the five weeks and the orders outside every week together account for every order and all revenue |
| Stats.NoWeekIsEmpty | mytailor5/components/Stats.tsx:117-128 | with real days no order falls outside the weeks |
| Stats.WeeksAddUp | mytailor5/components/Stats.tsx:113-133 | the week counts add up to the month's count and the week revenues to its revenue |
| Stats.BucketKeepsOrder | mytailor5/components/Stats.tsx:125-131 | each week keeps the month's order |
| Stats.BucketPricesFinite | mytailor5/components/Stats.tsx:125-131 | a week holds only the month's prices |
| Stats.WeekIncomeIsRevenue | mytailor5/components/Stats.tsx:129 | with numeric prices a week's income is the sum of its prices |
| Stats.WeekIncomesAddUp | mytailor5/components/Stats.tsx:113-133 | with numeric prices and real days the five week incomes add up to the month's total income |
| Stats.FreeFifthWeekHidden | mytailor5/components/Stats.tsx:136 | a fifth week whose orders are all free is hidden, orders and all |
| Stats.WeekdayIndex | mytailor5/components/Stats.tsx:216 | the label index is in 0..6 |
| Stats.DayOfLabel | mytailor5/components/Stats.tsx:216 | its inverse is in 0..6 |
| Stats.WeekdayIndexBijective | mytailor5/components/Stats.tsx:216 | the index is a bijection on 0..6 with Monday first and Sunday last |
| OrderForm.SpeechAppendParts | mytailor5/components/OrderForm.tsx:27-32 | the note starts with the old note and ends with the text, with at most the one separating space between them |
| OrderForm.SpeechSeparatesWords | mytailor5/components/OrderForm.tsx:30 | new words after a non-empty note are preceded by a space |
| OrderForm.SpeechIntoEmptyNote | mytailor5/components/OrderForm.tsx:29 | dictation into an empty note gives the text |
| OrderForm.FormToggleTagTwice | mytailor5/components/OrderForm.tsx:73-77 | toggling an absent tag twice gives the form back |
| OrderForm.HandleImageChange | mytailor5/components/OrderForm.tsx:49-67 | new photos are appended after the old ones and the source follows the input; a failed compression or no file changes nothing |
| OrderForm.TakeThenRemove | mytailor5/components/OrderForm.tsx:58-71 | the old photos stay in front, and removing the photo just taken gives them back |
| OrderForm.SourceFollowsControl | mytailor5/components/OrderForm.tsx:237-238 | the camera marks the order offline, the gallery online |
| OrderForm.HandleSave | mytailor5/components/OrderForm.tsx:84-115 | refuses no photo, then no price, then a blank name; otherwise a pending order with id `temp-<ms>`, the trimmed name, the photos, note and tags, and the chosen or current time |
| OrderForm.TempIdIsNotUuid | mytailor5/components/OrderForm.tsx:103 | a temporary id never passes the UUID check |
| OrderForm.NewOrderGetsServerId | mytailor5/components/OrderForm.tsx:103-117 | a new order's row is written without an id, and its photos go under a fresh UUID |
| OrderForm.FreshFormIsRefused | mytailor5/components/OrderForm.tsx:85-88 | an untouched form is refused for want of a photo |
| Pdf.ChunkOrders | mytailor5/services/pdf.ts:12-18 | the loop computes the cut into pages |
| Pdf.ChunksConcat | mytailor5/services/pdf.ts:12-18 | the pages together give back the orders in order |
| Pdf.ChunksCount | mytailor5/services/pdf.ts:12-18 | there are ceil(n / size) pages |
| Pdf.ChunksSizes | mytailor5/services/pdf.ts:12-18 | every page is non-empty and holds at most size orders, and every page but the last holds exactly size |
| Pdf.NoteCell | mytailor5/services/pdf.ts:109-110 | the note cell is never longer than 63 characters |
| Pdf.NoteCellShows | mytailor5/services/pdf.ts:109-110 | `无备注` for no note; a note of up to 60 characters is shown whole; a longer one is cut to 60 characters plus `...`, so two such notes with the same start share a cell |
| Pdf.TagCell | mytailor5/services/pdf.ts:103 | `-` when there are no tags |
| Pdf.TagCellShows | mytailor5/services/pdf.ts:103 | one tag is shown as it is; several start with the first tag |
| Pdf.FormatCurrency | mytailor5/services/pdf.ts:10 | an amount always starts with `¥` |
| Pdf.RowCells | mytailor5/services/pdf.ts:82-111 | the customer cell is never empty and shows a non-empty name as it is |
| Pdf.TotalRevenueMatchesIncome | mytailor5/services/pdf.ts:137 | the report's total equals the dashboard's total income whenever that is a number, and that is NaN exactly when some price is |
| Pdf.SummaryReportsCount | mytailor5/services/pdf.ts:138-140 | the summary line reports the number of orders, as digits that read back as that number |
| Pdf.ChunkSheet | mytailor5/services/pdf.ts:20-122 | a page has the header exactly when it is the first, and one row per order |
| Pdf.GenerateOrdersPdf | mytailor5/services/pdf.ts:124-167 | outside a browser it fails; otherwise one page per chunk, each with its orders, or a single blank page when there are no orders |
| Pdf.ReportPages | mytailor5/services/pdf.ts:142-165 | a report of n orders has ceil(n / 14) pages; only the first has the header; each has 1 to 14 rows, 14 except on the last; the pages hold every order in order |

## Left out

- Backend calls are parameters: the signed-in user, storage uploads, signed
  URLs, and table writes, reads and deletes. Their outcomes are inputs;
  retries and network errors beyond success or failure are not modelled.
- `compressImage`, `loadImage` and all canvas drawing and `toDataURL` calls
  are browser I/O. Decoded images are sizes, and `measureText` is a width
  function.
- The images of the receipt are loaded concurrently with `Promise.all`. The
  model takes the outcome of each load and does not model the concurrency.
  `loadImage` has no timeout, so none is modelled.
- Dates, locales and time zones are parameters: `toLocaleDateString`,
  `getDate`, month selection, `new Date(text).getTime()` and `Date.now`. In
  `handleSave` the two `Date.now()` calls are taken to return the same instant.
- `Math.random` in `generateUUID` is a sequence of 31 nibbles.
- Floating point is left out. Prices are `Finite(real)` or `NaN`,
  `parseFloat`, `Number` and `toFixed(2)` are parameters, and image scaling
  is exact real arithmetic. The canvas height is not truncated to an integer.
- `addPrice` in the new-order form (quick price buttons) adds two
  floating-point numbers and writes the result back as text. It has no logic
  beyond that.
- Only images with a positive width are laid out. A zero-width image would
  make the browser's scaling divide by zero.
- The error event of a failed image load is represented by the error message
  `LoadError`.
- The weekly day strip and the trend chart (`weekDays`, `weeklyTrendData`)
  are data for the calendar and recharts views and are left out.
- The best-effort image cleanup of `deleteOrder` is not modelled. Only its
  folder name is, to state that a new order's uploads are not in it.
- `exportData` (plain `JSON.stringify`) and `updateOrder` (which only calls
  `saveOrder`) have no logic of their own.
- The CSV export takes the orders to export as its input. In the code they
  come from `getOrders`, so with the load defect below every row's image
  count is 1. The model counts the image list it is given, and does not model
  the fallback to a legacy `imageBase64` when `images` is missing.
- Receipt.GetLines: `text.split('')` splits into UTF-16 code units, and the
  model splits into characters. A character outside the Basic Multilingual
  Plane, such as an emoji, stays whole in the model, where the code can break
  a line between its two halves.
- Pdf.NoteCell: lengths are counted in characters, where JavaScript counts
  UTF-16 code units, so a note with characters outside the Basic
  Multilingual Plane is cut at a different place.
- The rendering of each report page by html2canvas and jsPDF is left out. A
  page is the sheet that would be drawn.
- Stats.WeeksAddUp: weeks are summed with NaN prices counted as 0.
  Stats.WeekIncomesAddUp states the same for the week incomes themselves,
  and needs every price to be a number.
- OrderList.CleanNameIdempotent: sanitising is idempotent only when the
  sanitised name is non-empty, so the contract is stated with that condition.
- The settings, authentication, debugging, speech-recognition, image display,
  navigation and application shell files have no independent logic and are
  not part of this model. The same goes for JSX, CSS and charts.

## Findings

| source | as written | input that shows it | evidently intended | confidence | as-written member | corrected member |
|---|---|---|---|---|---|---|
| mytailor5/services/db.ts:244 | `images: o.images \|\| o.imageBase64 ? [o.imageBase64] : []` parses as `(o.images \|\| o.imageBase64) ? [o.imageBase64] : []`; since `dbToOrder` always gives an array, every loaded order gets `[imageBase64]` | any saved order with photos and no legacy `imageBase64` loads with images `[undefined]`; the CSV export, which reads through `getOrders`, then counts one image for every order | `o.images \|\| (o.imageBase64 ? [o.imageBase64] : [])`, the normalisation `importData` uses | not executed | StoreRecords.LoadLosesImages | StoreRecords.SaveThenLoad |
| mytailor5/services/db.ts:289-292 | `getLines` starts from `words[0]`, which is `undefined` for an empty text, and pushes it as the only line | a note ending in a line break, such as `"a\n"`: its last piece is empty and the receipt draws `undefined` | an empty piece gives one empty line | not executed | Receipt.TrailingLineBreakDrawsUndefined | Receipt.WrapProperties |
