# Milk ledger: a verified model

The tracker keeps one ledger entry (`MilkRecord`) per calendar day: a quantity, a
price per unit, an optional payment amount, a derived "paid" flag and optional
notes. Each entry is keyed by its `YYYY-MM-DD` date, which also serves as its id.
This project models the engine behind the ledger:

- the storage service (`services/storageService.ts`). It migrates legacy records
  on load, merges a single record in, writes a batch through a date-keyed `Map`,
  deletes by id, settles a list of ids, and exports sorted, quoted CSV;
- the App component's handlers (`App.tsx`). They save or clear one day, fill a
  date range while carrying payments forward, and settle a date range. The
  component also computes the month totals, the all-time balance and the
  "last used" quantity and price;
- the day cell's status rules (`components/DayCell.tsx`): fully paid, partially
  paid, unpaid, payment-only or empty, and when the paid badge shows.

Amounts are exact `real`s. The store is a class, `StorageService.LedgerStore`,
whose `records` field is the persisted list. The component is the class
`App.LedgerApp`, holding `records`, `lastEntryConfig` and the store. The list
operations are functions in `Ledger`, and the store's methods are proved against
them. A JavaScript `Map` is `InsertionMap.OrderedMap`: its keys are kept in
first-insertion order. Dates are `Calendar.Date` values; `Calendar.Key` and
`Calendar.ParseKey` convert between dates and keys. The CSV text has a reader
that honours quoting, `Csv.Read`, and the writer is proved against it.

## Model

| member | source | states |
|---|---|---|
| Ledger.MigrateRecord | services/storageService.ts:14-17 | One record's migration: an existing payment stays, a missing one becomes the cost when flagged paid, else 0. `Ledger.Migrate` states this for every position. |
| Ledger.Migrate | services/storageService.ts:14-17 | Same length, and every record has a payment afterwards. An existing payment is kept. A missing one becomes the cost if the record is flagged paid, else 0. No other field changes. |
| Ledger.MigrateIdempotent | services/storageService.ts:14-17 | A list that already has every payment is unchanged by migration, so migrating twice equals migrating once. |
| Ledger.Merge | services/storageService.ts:31 | The object spread `{ ...prev, ...next }`: the new record's fields win, and the optional payment and notes it lacks are taken from the old record. `Ledger.Upsert` and `Ledger.UpsertFind` state what a save does with it. |
| Ledger.Upsert | services/storageService.ts:24-34 | If the date exists: same length, the first slot with that date becomes the old record overridden by the new one's fields (notes and payment it lacks survive), every other slot unchanged. If the date is absent: the record is appended. |
| Ledger.UpsertFind | services/storageService.ts:26-34 | A lookup by the saved date gives the merged record, or the new record if the date was absent. Every other date gives what it gave before. |
| Ledger.UpsertIdempotent | services/storageService.ts:24-37 | Saving the same record twice gives the same list as saving it once. |
| Ledger.UpsertKeepsDatesDistinct | services/storageService.ts:26-34 | If each date had one record before, it still has one after the save. |
| Ledger.Pairs | services/storageService.ts:42 | `records.map(r => [r.date, r])`: one pair per record, in order, of the record's date and the record. |
| Ledger.DateMap | services/storageService.ts:42 | `new Map(records.map(...))`. `Ledger.DateMapOfDistinct` states that for distinct dates its keys are the dates in list order and each date maps to its record. `Ledger.SaveAllShape` states the general case. |
| Ledger.SaveAll | services/storageService.ts:42-48 | The batch save: set every input record into the date-keyed map of the loaded list, then list the map's values. Its partners are `Ledger.SaveAllShape`, `SaveAllDates`, `SaveAllValues`, `SaveAllOrder` and `SaveAllFind`, which state it against last-write-wins by date. |
| Ledger.SaveAllShape | services/storageService.ts:42-48 | The map behind a batch save is well formed and keyed by date. The saved list is its values in key order. Its dates are exactly the loaded dates and the input dates. |
| Ledger.SaveAllDates | services/storageService.ts:42-48 | The result has one record per date, for exactly the loaded and input dates. Its length is the size of the union of those two date sets. |
| Ledger.SaveAllValues | services/storageService.ts:44-48 | Each position holds the last input record with its date. If no input record has that date, it holds the last loaded record with it. |
| Ledger.SaveAllOrder | services/storageService.ts:42-48 | With one record per loaded date: the loaded records keep their positions. Each one whose date is in the input is replaced wholesale by the last input record with that date, with no field merge. New dates follow in the order of their first appearance in the input. |
| Ledger.SaveAllMembers | services/storageService.ts:42-48 | Every record of a batch save was either loaded or given. |
| Ledger.SaveAllFind | services/storageService.ts:42-48 | A lookup by any given date answers with the last input record for it. Every other date answers as before. |
| Ledger.RemoveId | services/storageService.ts:57 | The survivors are exactly the records whose id differs from the argument. An absent id leaves the list unchanged. |
| Ledger.RemoveIdAppend | services/storageService.ts:57 | Deleting distributes over concatenation, so the kept records stay in their order. |
| Ledger.RemoveIdFind | services/storageService.ts:57 | When ids are dates, the deleted date is gone and every other date answers as before. |
| Ledger.RemoveIdKeepsDatesDistinct | services/storageService.ts:57 | Deleting never gives a date a second record. |
| Ledger.Settle | services/storageService.ts:80-83 | One listed record settled: paid flag set and payment equal to its cost. `Ledger.MarkPaid` states that only those two fields change. |
| Ledger.MarkPaid | services/storageService.ts:79-85 | Same length. Each record whose id is listed becomes paid, with a payment equal to its cost. Only those two fields change, and unlisted records are unchanged. |
| Ledger.MarkPaidIdempotent | services/storageService.ts:77-88 | Marking the same ids twice equals marking them once. |
| Ledger.MarkPaidKeepsKeys | services/storageService.ts:79-85 | Marking records paid leaves every position's id and date as they were. |
| Ledger.MarkPaidZeroesPaymentOnly | services/storageService.ts:80-83 | A listed payment-only record (quantity 0) ends with a payment of 0. |
| InsertionMap.Set | services/storageService.ts:45 | `map.set(k, v)`: a new key goes last, and a known key keeps its place and takes the new value. `InsertionMap.SetKeys` proves the map stays well formed. |
| InsertionMap.SetAll | services/storageService.ts:42-46 | `new Map(pairs)` and the `forEach` of `set`: the pairs are set first to last. Its partners are `SetAllKeys`, `SetAllNewKeyOrder` and `SetAllEntries`, with `LastValue` as the independent last-write-wins reference. |
| InsertionMap.Values | services/storageService.ts:48 | `Array.from(map.values())`: one value per key, in key order. |
| InsertionMap.SetAllKeys | services/storageService.ts:42-46 | Setting pairs in turn keeps the map well formed. The old keys stay in front in their order, and the new keys are exactly the written ones. |
| InsertionMap.SetAllNewKeyOrder | services/storageService.ts:44-46 | New keys appear in the order of their first write. |
| InsertionMap.SetAllEntries | services/storageService.ts:44-46 | Each written key holds the value of its last write. A key never written keeps its old entry or stays absent. |
| StorageService.LedgerStore.Load | services/storageService.ts:9-22 | What `getRecords` returns: the persisted list through `Ledger.Migrate`, whose contract states the migration. |
| StorageService.LedgerStore.constructor | services/storageService.ts:9-12 | The store starts from the persisted list. |
| StorageService.LedgerStore.FindIndex | services/storageService.ts:26 | The loop returns the first position holding the date, or -1 (`Records.IndexOfDate`). |
| StorageService.LedgerStore.SaveRecord | services/storageService.ts:24-37 | Copies the migrated list, assigns the merged slot in place or appends. Returns and persists `Ledger.Upsert` of the loaded list. |
| StorageService.LedgerStore.SaveRecords | services/storageService.ts:40-51 | The map-building loop returns and persists `Ledger.SaveAll` of the loaded list and the input. |
| StorageService.LedgerStore.DeleteRecord | services/storageService.ts:53-60 | Returns and persists `Ledger.RemoveId` of the loaded list. |
| StorageService.LedgerStore.MarkRangeAsPaid | services/storageService.ts:77-88 | Returns and persists `Ledger.MarkPaid` of the loaded list. |
| StorageService.LedgerStore.ExportToCsv | services/storageService.ts:90-109 | The text is the export of a date-sorted permutation of the loaded records. |
| Records.IndexOfDate | services/storageService.ts:26 | -1 exactly when no record has the date. Otherwise it is the position of the first record with the date. |
| Records.Cost | App.tsx:131 | `quantity * pricePerUnit`, the cost of a day. `Aggregates.MonthStatsAreSums` and `Ledger.Settle` state what is computed from it. |
| Records.Paid | App.tsx:132 | The payment amount, with a missing payment counted as 0. `Aggregates.MonthStatsAreSums` and `DayCell.ViewOf` state its use. |
| Records.Covers | components/DayCell.tsx:33 | The tolerant test `paid >= cost - 0.1`. `DayCell.StatusOf` and `App.EntryRecordPaid` state the statuses it decides. |
| Records.Find | App.tsx:156 | `records.find(r => r.date === d)`: some record exactly when the date is in the list, and then a record of the list with that date. `Records.FindAt`, `FindAbsent` and `FindDistinct` pin which one. |
| Records.FindAt | App.tsx:258 | The first position holding the date is the one `find` returns. |
| Records.FindAbsent | App.tsx:258-259 | `find` on a date no record has gives nothing. |
| Records.FindDistinct | App.tsx:258 | With one record per date, `find` by a record's date returns that record. |
| Export.NotesCell | services/storageService.ts:102 | Present, non-empty notes are quoted with inner quotes doubled; absent or empty notes give an empty cell. `Export.ValuesEncoded` proves the cell reads back as the notes text. |
| Export.Cells | services/storageService.ts:96-103 | One record's six cells: date, quantity, price, cost and payment to two decimals, notes. `Export.ValuesEncoded` and `Export.ExportReadsBack` state what they read back as. |
| Export.Render | services/storageService.ts:105-108 | The header line and one line per record, joined by line breaks. `Export.ExportReadsBack` is its inverse and `Export.RenderAppend` its shape. |
| Export.SortByDate | services/storageService.ts:93 | The array is sorted ascending by date and is a permutation of its old contents (in-place insertion sort). |
| Export.SortedUnique | services/storageService.ts:93 | Two date-sorted orderings of the same records with distinct dates are equal, so the export of such a ledger is determined. |
| Export.PermutationDistinct | services/storageService.ts:93 | Sorting keeps dates distinct. |
| Export.ExportReadsBack | services/storageService.ts:95-108 | Read back, the export is the header line, then one line per record in order. Each line holds date, quantity, price, cost and payment to two decimals, and the notes text. |
| Export.ExportLinesAscending | services/storageService.ts:93-108 | For sorted records the export has exactly one line per record after the header. Each line has six fields and starts with its record's date, and the dates ascend. |
| Export.RenderAppend | services/storageService.ts:105-108 | A further record adds one line break and its comma-joined cells, so the text has no trailing newline. |
| Export.ValuesEncoded | services/storageService.ts:96-103 | Each of a record's six cells is the writer's encoding of its value. Notes are quoted; the other cells are plain. |
| Export.ToFixed2Plain | services/storageService.ts:100-101 | A two-decimal amount contains no comma, quote or line break. |
| Csv.Escape | services/storageService.ts:102 | `replace(/"/g, '""')`: every quote doubled. `Csv.ReadQuotedOf` proves the quoted reader undoes it. |
| Csv.Quote | services/storageService.ts:102 | The escaped text between two quotes. `Csv.ReadCellOf` proves a quoted cell reads back as its text. |
| Csv.ReadRender | services/storageService.ts:105-108 | Reading rendered lines gives back every line's values, whatever the quoted cells contain. |
| Csv.ReadCellOf | services/storageService.ts:102 | A cell read back gives its value, plain or quoted with inner quotes doubled. |
| Csv.ReadQuotedOf | services/storageService.ts:102 | Escaped quotes are read back as single quotes, and the closing quote ends the cell. |
| Csv.RenderSnoc | services/storageService.ts:105-108 | Lines are joined by `\n` with no trailing newline. |
| Fixed.ToFixed2 | services/storageService.ts:100-101 | `toFixed(2)`: sign, then the nearest hundredth (ties up) with at least one integer digit and two decimals; from 10^21 up, `show`. `Fixed.ToFixed2Rounds` states it against the amount. |
| Fixed.ToFixed2Rounds | services/storageService.ts:100-101 | Below 10^21 in size, toFixed(2) gives a two-decimal numeral within half a hundredth of the amount. It has a `-` exactly when the amount is negative. |
| Fixed.UnsignedRounds | services/storageService.ts:100-101 | For a non-negative amount the numeral's value is the nearest hundredth, rounding half up. |
| Fixed.CentsNearest | services/storageService.ts:100-101 | The chosen count of hundredths is within half a hundredth of the amount. |
| Fixed.ZeroWritten | services/storageService.ts:101 | A missing payment is written `0.00`. |
| Fixed.UnsignedExact | services/storageService.ts:100-101 | A whole number of hundredths is written exactly. |
| Calendar.Key | App.tsx:256 | `format(day, 'yyyy-MM-dd')`: a ten-character key. `Calendar.KeyRoundTrip` proves `ParseKey` inverts it. |
| Calendar.ParseKey | App.tsx:250-251 | `parseISO` on a `YYYY-MM-DD` key, or no date. `Calendar.ParseKeyCanonical` proves every parsed key is the key of its date. |
| Calendar.Days | App.tsx:252 | The inclusive range from start to end: one valid day per step, in order, with length end − start + 1. |
| Calendar.DaysMembership | App.tsx:252 | A valid day is in the range exactly when it lies between the ends. |
| Calendar.KeyRoundTrip | App.tsx:256 | Parsing a formatted key gives the date back. |
| Calendar.ParseKeyCanonical | App.tsx:250-251 | A key that parses is the formatted key of its date. |
| Calendar.KeyOrderIsChronological | services/storageService.ts:93 | Keys compare as strings exactly as their dates compare in time, so string order matches `getTime()` order. |
| Lexical.Transitive | services/storageService.ts:93 | String order is transitive. |
| Lexical.Total | services/storageService.ts:93 | Any two strings are equal or ordered one way. |
| App.EntryRecordPaid | App.tsx:219-231 | The saved record's paid flag holds exactly when the day cell would show it fully paid. |
| App.EntryRecord | App.tsx:219-229 | The record saved for a day has the day's key as both id and date. `App.EntryRecordPaid` states its paid flag. |
| App.SaveEntryResult | App.tsx:212-231 | The list after a save: the day cleared when quantity and payment are both 0, otherwise the entry saved. `App.SaveEntryFind` and `App.SaveEntryKeepsShape` state it by lookup and by shape. |
| App.SaveEntryFind | App.tsx:200-231 | After a save, the day is gone if quantity and payment were both 0. Otherwise it holds the entered figures, with its id equal to the key and its notes kept. Every other day is unchanged. |
| App.SaveEntryKeepsShape | App.tsx:212-231 | A save keeps one record per date, each with its date as id. |
| App.SaveEntryMigrated | App.tsx:212-231 | A save or a clear keeps every record carrying a payment. |
| App.PaidOn | App.tsx:258-259 | The payment already recorded for a day, 0 without one. `App.BulkFillTwiceKeepsPayments` states that a fill carries it over. |
| App.Filled | App.tsx:256-268 | One day's filled record: given quantity and price, the existing payment (0 if none), paid exactly when that payment reaches the cost. `App.BulkFillFind` states that each range day ends with it. |
| App.Fill | App.tsx:255-269 | One filled record per day of the list, in order. |
| App.BulkFill | App.tsx:249-271 | The list after a range fill: the filled records saved in a batch. Its partners are `App.BulkFillFind`, `BulkFillDates`, `BulkFillIdsAreDates` and `BulkFillTwiceKeepsPayments`. |
| App.FillDates | App.tsx:252-256 | The records a range fill builds have distinct dates: exactly the keys of the days in the range. |
| App.BulkFillFind | App.tsx:249-271 | Every day of the range holds one record with the given quantity and price, the payment it had before (0 if none), and the tolerance-free paid test. Every other date is unchanged. |
| App.BulkFillDates | App.tsx:249-271 | A range fill keeps one record per date and adds exactly the missing days of the range. |
| App.BulkFillTwiceKeepsPayments | App.tsx:258-266 | Two fills of the same range, at any prices, leave every day's payment as it was before the first fill. |
| App.BulkFillIdsAreDates | App.tsx:255-271 | If every record's id is its date, that stays so after a fill. |
| App.BulkFillMigrated | App.tsx:259-265 | After a fill every record still carries a payment amount. |
| App.InRangeKey | App.tsx:250-252 | A key lies in `eachDayOfInterval` from start to end: it parses to a day between the two, inclusive. `App.FillDates` states that the filled dates are exactly these keys. |
| App.InRangeOfKeys | App.tsx:284-287 | The handleBulkPay test on the keys of two dates agrees with the handleBulkAdd range test on those dates, so both handlers mean the same range. |
| App.InRange | App.tsx:284-287 | The range test of `handleBulkPay`: the record's date and both range ends parse, and the date lies between the ends. A key that does not parse is never in range. |
| App.RangeIds | App.tsx:283-288 | The selected ids are exactly the ids of existing records dated within the range. |
| App.BulkSettle | App.tsx:277-290 | The list after a range settle: the records whose ids are in range, marked paid. Its partners are `App.BulkSettleEffect`, `BulkSettleEmptyRange` and `BulkSettleKeepsShape`. |
| App.BulkSettleEffect | App.tsx:277-290 | Settling creates nothing. Records dated in the range are settled, and every other record is unchanged. |
| App.BulkSettleKeepsShape | App.tsx:277-290 | Settling a range keeps one record per date, each with its date as id. |
| App.BulkSettleEmptyRange | App.tsx:283-290 | With no record in the range, the list is unchanged. |
| App.BulkSettleZeroesPaymentOnly | App.tsx:283-290 | A payment-only record in a settled range ends with a payment of 0. |
| App.FillThenSettle | App.tsx:249-290 | On an empty ledger a fill gives one record per day at the given cost with payment 0. Each is flagged paid exactly when that cost is at most 0 (`0 >= qty * price`). Settling the same range pays each its cost. |
| App.LatestIndex | App.tsx:105-109 | Picks the record a descending stable date sort puts first: no record is later, and every earlier position is strictly earlier. |
| App.InitialConfig | App.tsx:104-110 | No config for an empty list, otherwise the latest record's quantity and price (via `App.LatestIndex`). |
| App.LedgerApp.Valid | App.tsx:96-293 | The component's invariant: the shown list is the store's, with one record per date and each date as its id. Every handler keeps it. |
| App.LedgerApp.constructor | App.tsx:96-111 | The component starts with the loaded list and the latest record's quantity and price. |
| App.LedgerApp.SaveEntry | App.tsx:200-234 | Nothing happens without a selected day. Otherwise the list becomes `App.SaveEntryResult` (clear or save), matching the store. The last quantity and price change only when the quantity is positive. |
| App.LedgerApp.BulkAdd | App.tsx:249-275 | The list becomes `App.BulkFill` over the parsed range, matching the store, and the last quantity and price are the fill's. |
| App.LedgerApp.BulkPay | App.tsx:277-293 | The list becomes `App.BulkSettle` over the range, matching the store. The last quantity and price are unchanged. |
| Aggregates.Step | App.tsx:130-138 | One reduce step of the month figures. `Aggregates.FoldKeepsBalance` proves each step keeps balance = cost − paid. |
| Aggregates.Fold | App.tsx:130-139 | `reduce` from first to last. `Aggregates.FoldAddsSums` states it adds the sums of the records to its start. |
| Aggregates.MonthStats | App.tsx:129-140 | The fold from zero. `Aggregates.MonthStatsAreSums` states it. |
| Aggregates.MonthStatsAreSums | App.tsx:129-140 | The month figures are the sums of quantity, cost and payment (missing payment as 0), and the balance is cost minus paid. |
| Aggregates.FoldKeepsBalance | App.tsx:129-140 | Every fold step keeps balance = total cost − total paid. |
| Aggregates.Filter | App.tsx:123-126 | `filter`: the kept records are exactly those passing the test. `Aggregates.FilterAppend` pins their order and multiplicity. |
| Aggregates.InMonth | App.tsx:123-126 | The month test: the key parses and its year and month are the displayed ones. `Aggregates.MonthRecordsOfOne` states that a record is kept by exactly one of the month filter and its complement. |
| Aggregates.MonthRecords | App.tsx:122-127 | The kept records are exactly the records dated in the given month. `Aggregates.MonthRecordsAppend` and `MonthRecordsOfOne` fix their order and multiplicity. |
| Aggregates.MonthRecordsOfOne | App.tsx:122-127 | A single record is kept by exactly one of the month filter and its complement. |
| Aggregates.MonthRecordsAppend | App.tsx:122-127 | Both month filters distribute over concatenation: they keep records in list order, each as often as it occurs. |
| Aggregates.MonthSplitMultiset | App.tsx:122-127 | The month's records and the others together are the whole list, as a multiset. |
| Aggregates.BalanceFold | App.tsx:144-148 | The all-time `reduce` from a starting balance. `Aggregates.BalanceFoldAdds` proves it adds cost minus paid of every record. |
| Aggregates.GlobalBalance | App.tsx:143-149 | The fold from 0. `Aggregates.GlobalBalanceIsCostMinusPaid` states it. |
| Aggregates.GlobalBalanceIsCostMinusPaid | App.tsx:143-149 | The all-time balance is the total cost minus the total paid. |
| Aggregates.GlobalBalanceSplits | App.tsx:122-149 | The all-time balance is the displayed month's balance plus the balance of all other records, whichever month is displayed. |
| DayCell.ViewOf | components/DayCell.tsx:26-29 | Quantity, price and paid are the record's (paid 0 when it has no payment). A missing record reads as quantity 0, price 0 and paid 0, and shows no icon. |
| DayCell.RecordStatus | components/DayCell.tsx:26-34 | A day holding a record is fully paid exactly when its quantity is positive and its payment covers its cost within 0.1. It is partially paid, unpaid, payment-only or empty under the matching conditions on its quantity, cost and payment. |
| DayCell.StatusOf | components/DayCell.tsx:31-34 | Each of the five states holds exactly under its quantity and payment condition. Fully paid means quantity > 0 and paid ≥ cost − 0.1, so fully and partially paid never both hold. The icons shown are exactly the state's icon. |
| DayCell.Icons | components/DayCell.tsx:58-69 | With milk, exactly one of check, pie or circle shows. Coins show exactly for quantity 0 and payment > 0. Nothing shows when both are 0. |
| Records.Abs | components/DayCell.tsx:85 | `Math.abs`: non-negative, and equal to the number or its negation. |
| DayCell.ShowsPaidBadge | components/DayCell.tsx:85-89 | The badge needs quantity > 0 and paid > 0. It shows exactly for a partial payment, or for a full payment above the cost by more than 0.1. |
| Scenarios.MarchExample | App.tsx:200-234 | 2 units at 60 entered on 1 March 2024 show in March as 120 owed. Entering the payment of 120 marks the day paid and brings March's balance to 0. |

## Left out

- The localStorage reads and writes, JSON parsing and the try/catch fallback in `getRecords`. The persisted list is the store's `records` field, and a failed read is not modelled.
- Settings (`getSettings`, `saveSettings`) and `constants.ts`: they only pass values through.
- `services/geminiService.ts` is not part of this model: it is a network client.
- React rendering: the modals, the calendar grid, `components/StatsCard.tsx`, the `cellClass` string and the markdown replace for AI output.
- The CSV blob download (App.tsx:295-305). Only the text `exportToCSV` returns is modelled.
- The form-state handlers (`handleDayClick`, `handleEntryModeChange`). The model receives the values they would put in the form.
- `parseFloat` and NaN from empty input (App.tsx:203-204, 253). The handlers receive real numbers; `|| 0` for NaN is not modelled.
- Number-to-string for quantity and price in CSV rows. It is the parameter `show`. toFixed(2) for amounts of 10^21 and above falls back to `show` as well.
- Floating-point arithmetic: amounts are exact reals, so binary rounding of cost, sums and the 0.1 tolerance is not modelled.
- `toFixed(0)` for the cost and badge text in the day cell. Only whether the badge shows is modelled.
- Aggregates.MonthRecords: the month filter reads the key's year and month. The source uses `new Date(r.date)` with local `getMonth`, which can move a day into the neighbouring month in time zones west of UTC.
- `parseISO` accepts more formats than `Calendar.ParseKey`. Only `YYYY-MM-DD` keys are read, and anything else counts as an Invalid Date.
- App.LedgerApp.constructor: requires the stored list to hold one record per date, each with its date as id. Every list the app writes has that shape; a store edited by hand is not modelled.
- App.LedgerApp.BulkAdd: requires both range keys to parse and start ≤ end. date-fns's behaviour for an Invalid Date or a reversed interval is not part of this model.
- Sorting by `new Date(date).getTime()` is modelled as string order on the keys. `Calendar.KeyOrderIsChronological` shows that the two agree on well-formed keys.
- StorageService.LedgerStore.ExportToCsv: states only that the text is the export of some date-sorted permutation. The ordering is unique when dates are distinct (`Export.SortedUnique`). Stability of `Array.prototype.sort` for equal dates is not modelled.
- Export.ExportReadsBack: requires the date and the `show` output of quantity and price to contain no comma, quote or line break. Cells with such characters are written unquoted by the source and cannot be read back.
- App.LatestIndex: the descending sort at App.tsx:106 is modelled by its first element only. The rest of that sorted copy is never used.

### Behaviour of the code worth noting

- Negative quantity, price and payment are not clamped to 0 anywhere in the code.
- A day with milk counts as unpaid when it is neither fully nor partially paid: payment ≤ 0 and below cost − 0.1. A cheap day (cost < 0.1) with no payment counts as fully paid.
- The bulk fill sets the paid flag as `paid ≥ qty × price`, with no 0.1 tolerance and no quantity check (App.tsx:267). A fill with quantity 0 therefore stores zero-quantity records.
- Bulk settle also settles payment-only records in the range, which sets their payment to 0 (`App.BulkSettleZeroesPaymentOnly`).
