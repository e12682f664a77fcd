# Pharmacy inventory: verified model of the core

This project models the core of a small pharmacy-inventory web application. The application keeps a catalogue of medicines. Each medicine has a name, a formula (its active ingredient), a dosage, a formulation and a stock count. The model covers:

- **The CSV import pipeline** (`csvUtils.ts`):
  - per-row validation;
  - the structural checks of `parseCSV`: parser errors, an empty file, missing headers;
  - duplicate detection against the existing catalogue (`findDuplicates`);
  - the signature-based duplicate filter (`filterDuplicates`).
- **The browser-storage layer** (`storage.ts`): the catalogue kept under one key, seeded with seventeen sample records, and the admin session flag.
- **The offline helpers** (`offline.ts`): a queue of operations, and a cache of timestamped entries with a maximum age.
- **The database service** (`database.ts`):
  - the mapping between records and table rows;
  - the result each operation returns for each reply of the backend.
- **The three editing dialogs**:
  - the bulk-add row editor;
  - the single-record form;
  - the CSV import dialog, with its flags, status and messages.
- **The home page's search and handler guards** (`page.tsx`).
- **Three popups and the card**: the "similar medicines" filter popup, the related-medicines popup, and the medicine card's stock label and click guard.

Where the source keeps state in an object or in React state, the model has a class whose methods update that state. Each such method's `ensures` states the whole new state, in terms of specification functions. Lemmas prove the properties of those functions.

Modules, one per file:

| module | file | models |
|---|---|---|
| `Wrappers` | `wrappers.dfy` | `Option` |
| `Text` | `text.dfy` | `trim`, `toLowerCase`, `includes`, `join`, `String(n)` |
| `JsNumbers` | `numbers.dfy` | `Number(s)`, `parseInt(s)`, `Math.floor`, and the stock-input conversion |
| `Seqs` | `seqs.dfy` | `filter` and `findIndex`, with their generic lemmas |
| `Medicines` | `medicine.dfy` | the record, its id-less form, partial updates and field edits |
| `Csv` | `csv.dfy` | `csvUtils.ts` |
| `LocalStore` | `store.dfy` | `localStorage` |
| `Storage` | `storage.dfy` | `storage.ts` |
| `Offline` | `offline.dfy` | `offline.ts` |
| `Database` | `database.dfy` | `database.ts` |
| `BulkAdd` | `bulk_add.dfy` | `BulkAddMedicines.tsx` |
| `Form` | `medicine_form.dfy` | `MedicineForm.tsx` |
| `Upload` | `csv_upload.dfy` | `CSVUploadModal.tsx` |
| `Home` | `home.dfy` | the filter and guards of `page.tsx` |
| `FilterPopup` | `filter_popup.dfy` | `FilterPopup.tsx` |
| `Related` | `related.dfy` | `RelatedMedicinesPopup.tsx` |
| `MedicineItem` | `medicine_item.dfy` | `MedicineItem.tsx` |

Header matching during import ignores letter case, because the tokeniser's `transformHeader` lower-cases every header before the check. The comments at `src/utils/csvUtils.ts:25` and `src/components/CSVUploadModal.tsx:268` call it case-sensitive. The model follows the code, and `Csv.HeadersAccepted` proves that the check passes exactly when every required header appears after trimming and lower-casing, whatever the letter case of the cells.

## Model

| member | source | states |
|---|---|---|
| Medicines.WithId | src/utils/storage.ts:178-181 | `{ ...medicine, id }` has the given id and exactly the draft's other fields |
| Medicines.Merge | src/utils/storage.ts:197 | `{ ...m, ...updates }`: every field present in the update overrides, every absent one is kept |
| Medicines.MergeIdempotent | src/utils/storage.ts:197 | applying the same partial update twice equals applying it once |
| Medicines.ApplyEdit | src/components/MedicineForm.tsx:105-109 | `{ ...prev, [field]: value }`: the named field takes the edit's value and the other four are kept |
| Medicines.ClearedError | src/components/MedicineForm.tsx:112-117 | after an edit, the field's error, if set, becomes `''`; no key is added or removed; other messages are kept |
| Medicines.FindIndex | src/utils/storage.ts:193 | `findIndex`: `None` iff no record has the id; otherwise the first index holding it |
| Text.ToLower | src/utils/csvUtils.ts:42 | `toLowerCase` keeps the length and lower-cases each character |
| Text.TrimIdempotent | src/utils/csvUtils.ts:214 | trimming a trimmed string changes nothing |
| Text.Join | src/components/CSVUploadModal.tsx:78 | `join` of no parts is `''`, of one part is that part |
| Text.NatToString | src/components/CSVUploadModal.tsx:112 | a count is rendered as a non-empty run of decimal digits |
| Text.NatToStringRoundTrip | src/components/CSVUploadModal.tsx:112 | the rendered digits of a count spell that count |
| Text.IntToString | src/utils/csvUtils.ts:233 | an integer is rendered as its digits, with `-` before a negative one |
| JsNumbers.UnsignedDecimal | src/utils/csvUtils.ts:200 | an accepted decimal literal is non-empty and has a non-negative value |
| JsNumbers.Floor | src/utils/csvUtils.ts:209 | `Math.floor` of `digits / 10^scale`: the integer `r` with `r * 10^scale <= digits < (r + 1) * 10^scale`, so a fractional stock is rounded down; exact on integers |
| JsNumbers.ToNumber | src/utils/csvUtils.ts:199-201 | `Number(s)`: a blank string is 0; a negative result comes only from a trimmed text starting with `-` |
| JsNumbers.ToNumberOfDigits | src/utils/csvUtils.ts:200 | a run of decimal digits is read as the number it spells |
| JsNumbers.ToNumberOfNat | src/utils/csvUtils.ts:199-209 | the decimal rendering of a natural number reads back as that number |
| JsNumbers.ParseInt | src/components/BulkAddMedicines.tsx:248 | `parseInt` in base 10: a negative result needs a `-` in the text |
| JsNumbers.ParseIntOfDigits | src/components/BulkAddMedicines.tsx:248 | `parseInt` of digits followed by a non-digit is the digits' value |
| JsNumbers.NegativeDigits | src/components/BulkAddMedicines.tsx:248 | `parseInt` of `-` and digits is the negated value |
| JsNumbers.ParseIntOfRendered | src/components/BulkAddMedicines.tsx:245-248 | a rendered natural number followed by a non-digit reads back with `parseInt` |
| JsNumbers.StockInput | src/components/BulkAddMedicines.tsx:246-249 | the stock input's conversion: `''` and `NaN` give 0, otherwise `parseInt`'s value |
| JsNumbers.StockInputOfNat | src/components/MedicineForm.tsx:255-259 | typing a shown stock back into the field gives that stock (display/parse round trip) |
| JsNumbers.StockInputOfNegative | src/components/MedicineForm.tsx:256-259 | a typed `-n` gives stock `-n`, which validation must then reject |
| Csv.NormalizeIsLowerThenTrim | src/utils/csvUtils.ts:41-42 | the one-pass normaliser equals `toLowerCase()` followed by `trim()` |
| Csv.DuplicateIgnoresStockAndCase | src/utils/csvUtils.ts:39-50 | records equal after normalising the four compared fields are duplicates, whatever their stocks |
| Csv.MatchIndex | src/utils/csvUtils.ts:39-50 | `existingMedicines.find`: the first existing record with the same key, `None` iff there is none |
| Csv.Duplicates | src/utils/csvUtils.ts:36-62 | the duplicates of the first `n` candidates: at most one entry per candidate |
| Csv.DuplicatesDescribe | src/utils/csvUtils.ts:52-58 | every reported entry is for row index+2 of a candidate with a match, names it, carries the first match's id and action `skip` |
| Csv.DuplicatesRows | src/utils/csvUtils.ts:54 | every entry's row lies in `2 .. n+1` |
| Csv.DuplicatesOrdered | src/utils/csvUtils.ts:38-60 | entries come in strictly increasing row order, so no candidate is reported twice |
| Csv.DuplicatesOfNoExisting | src/utils/csvUtils.ts:32-63 | with no existing records nothing is reported |
| Csv.DuplicatesComplete | src/utils/csvUtils.ts:38-60 | a candidate is reported iff some existing record matches it |
| Csv.FindDuplicates | src/utils/csvUtils.ts:32-63 | the loop computes exactly the specification `Duplicates` |
| Csv.BarJoinInjective | src/utils/csvUtils.ts:86 | with no bar character in the first three parts, the joined signature determines all four parts |
| Csv.SignatureInjective | src/utils/csvUtils.ts:86-94 | for fields free of the bar character, equal signatures iff equal duplicate keys |
| Csv.FilterDuplicates | src/utils/csvUtils.ts:68-97 | `skipDuplicates` false returns the input; otherwise exactly the candidates whose signature is not in the set are kept |
| Csv.FilterDuplicatesKeepsOrder | src/utils/csvUtils.ts:73-96 | the result is a subsequence of the candidates: kept candidates stay in their original order |
| Csv.FilterWithoutDuplicates | src/utils/csvUtils.ts:76-96 | no duplicate entries means nothing is filtered |
| Csv.OutOfRangeRowIgnored | src/utils/csvUtils.ts:79-80 | an entry whose row has no candidate contributes `''`, which no candidate's signature equals |
| Csv.MatchedSignatureListed | src/utils/csvUtils.ts:76-88 | a candidate with a match has its signature in the set |
| Csv.ListedSignatureMatched | src/utils/csvUtils.ts:76-88 | for fields free of the bar character, only candidates with a match have their signature in the set |
| Csv.SkipsExactlyExisting | src/utils/csvUtils.ts:68-97 | for fields free of the bar character, `filterDuplicates` applied to `findDuplicates` drops exactly the candidates with a match and keeps the rest in order |
| Csv.ValidateRow | src/utils/csvUtils.ts:181-222 | one outcome per row (a record, or one error tagged with the row); every record is well formed |
| Csv.ValidateRowOutcome | src/utils/csvUtils.ts:187-221 | the name check first, then the stock check, else the trimmed record with stock 0 or `floor(Number(stock))` |
| Csv.ExportImportRoundTrip | src/utils/csvUtils.ts:227-240 | exporting a well-formed record and validating the row again gives back the same record |
| Csv.Headers | src/utils/csvUtils.ts:138 | the header list is `meta.fields` transformed, or `[]` when absent |
| Csv.MissingHeaders | src/utils/csvUtils.ts:139-141 | exactly the required headers absent from the list; extra columns are allowed |
| Csv.HeadersAccepted | src/utils/csvUtils.ts:114-141 | for every header row: nothing is missing iff each required header is some cell after `trim()` and `toLowerCase()`, so case and surrounding spaces never matter and extra columns are allowed |
| Csv.ParserErrors | src/utils/csvUtils.ts:117-124 | one `Parse error:` entry per tokeniser error, with row `error.row or 0`, in order |
| Csv.Validated | src/utils/csvUtils.ts:152-154 | row `i` is validated with the 1-based number `i + 1` |
| Csv.EveryRowAccountedFor | src/utils/csvUtils.ts:152-161 | records and row errors together number the data rows |
| Csv.RecordsWellFormed | src/utils/csvUtils.ts:213-219 | every collected record has a non-blank trimmed name, trimmed fields and stock at least 0 |
| Csv.RowErrorsTagged | src/utils/csvUtils.ts:152-157 | row errors come in row order, and each is the error of the row it names |
| Csv.ValidatedOutcomes | src/utils/csvUtils.ts:153-154 | every row's outcome is a record or one error carrying that row's number |
| Csv.InvalidRowReported | src/utils/csvUtils.ts:156-157 | a row that fails validation has its error in the result |
| Csv.Parsed | src/utils/csvUtils.ts:102-176 | the result for each case: a thrown tokeniser, no data, missing headers, else the collected records, errors and duplicates (computed only with records and existing medicines) |
| Csv.ParseCsv | src/utils/csvUtils.ts:102-176 | the method, with its loops, computes exactly `Parsed` |
| Csv.ReportParserErrors | src/utils/csvUtils.ts:117-124 | the loop computes `ParserErrors` |
| Csv.CollectRows | src/utils/csvUtils.ts:152-161 | the `forEach` computes the records and errors of `Validated` |
| LocalStore.Store.GetItem | src/utils/storage.ts:152 | `getItem`: `null` iff the key is absent, else the stored value |
| LocalStore.Store.SetItem | src/utils/storage.ts:170 | `setItem` overwrites one key and keeps the others |
| LocalStore.Store.RemoveItem | src/utils/storage.ts:221 | `removeItem` drops one key and keeps the others |
| Storage.DefaultIdsDistinct | src/utils/storage.ts:7-144 | the seventeen sample records have distinct ids |
| Storage.Updated | src/utils/storage.ts:191-201 | `None` iff no record has the id; otherwise a list of the same length |
| Storage.UpdatedTouchesFirstMatchOnly | src/utils/storage.ts:193-197 | only the first record with the id is merged; every other position is unchanged |
| Storage.Removed | src/utils/storage.ts:206 | exactly the records without the id are kept |
| Storage.RemovedShortens | src/utils/storage.ts:206-208 | the filtered list is shorter iff some record has the id |
| Storage.StorageUtils.constructor | src/utils/storage.ts:7-146 | the utilities start from the store and the sample records |
| Storage.StorageUtils.GetMedicines | src/utils/storage.ts:148-163 | a blank store is seeded with the defaults; unreadable contents give the defaults and are left alone; a second read returns the same list; the admin flag is untouched |
| Storage.StorageUtils.SaveMedicines | src/utils/storage.ts:166-174 | the stored list is replaced; nothing else changes |
| Storage.StorageUtils.AddMedicine | src/utils/storage.ts:177-188 | the new record is appended and saved; when the defaults array was handed out, it is mutated as well |
| Storage.StorageUtils.UpdateMedicine | src/utils/storage.ts:191-201 | an unknown id returns `null` and saves nothing; otherwise the merged first match is returned and saved |
| Storage.StorageUtils.DeleteMedicine | src/utils/storage.ts:204-212 | true iff some record had the id; then the filtered list is saved, else nothing new is written |
| Storage.StorageUtils.SetAdminSession | src/utils/storage.ts:215-229 | `getAdminSession` then returns the flag just set; the catalogue is untouched |
| Offline.CacheKey | src/utils/offline.ts:69 | `cache_` followed by the key |
| Offline.CacheKeysDistinct | src/utils/offline.ts:69-77 | distinct keys get distinct store slots, and none is the queue's |
| Offline.QueueOf | src/utils/offline.ts:21-29 | the stored queue, or `[]` when absent, empty or unreadable |
| Offline.CachedRead | src/utils/offline.ts:75-93 | missing when nothing usable is stored; fresh iff at most `maxAge` old; expired iff older |
| Offline.CacheRoundTrip | src/utils/offline.ts:62-93 | a value cached at `t` reads back at `now` iff `now - t <= maxAge` |
| Offline.FreshnessMonotone | src/utils/offline.ts:83 | fresh later implies fresh earlier, and fresh under a smaller `maxAge` implies fresh under a larger one |
| Offline.OfflineUtils.AddToOfflineQueue | src/utils/offline.ts:11-19 | the operation is appended with the given time and id, and the queue is saved |
| Offline.OfflineUtils.ClearOfflineQueue | src/utils/offline.ts:31-33 | the queue key is removed, so the queue reads as empty |
| Offline.OfflineUtils.ProcessOfflineQueue | src/utils/offline.ts:41-59 | every queued operation is visited in order, then the queue is cleared; an empty queue writes nothing |
| Offline.OfflineUtils.CacheData | src/utils/offline.ts:62-73 | the entry is stored with the time and version `1.0`, and reads back fresh at once |
| Offline.OfflineUtils.GetCachedData | src/utils/offline.ts:75-93 | returns the data iff fresh; an expired entry is removed; otherwise nothing changes |
| Database.OrEmpty | src/lib/database.ts:22-24 | `null` reads as `''` |
| Database.NullIfEmpty | src/lib/database.ts:40-42 | `''` and `undefined` are written as `null` |
| Database.FromRow | src/lib/database.ts:19-26 | a row maps to a record with null text columns read as `''` |
| Database.ToInsert | src/lib/database.ts:38-44 | the inserted object: empty text fields become `null` |
| Database.Inserted | src/lib/database.ts:36-46 | the row holds the inserted values under the new id |
| Database.InsertReadBack | src/lib/database.ts:34-65 | inserting a record and reading the row back gives the same record |
| Database.ToPatch | src/lib/database.ts:71-77 | the update object: name and stock as given; empty text fields become `null` |
| Database.Patched | src/lib/database.ts:69-80 | the backend keeps name and stock when they are `undefined`, and writes the text fields always |
| Database.UpdateAgainstMerge | src/lib/database.ts:67-100 | the backend update agrees with the local spread except that an omitted text field is cleared |
| Database.GetAllMedicines | src/lib/database.ts:6-31 | the mapped rows in reply order, or `[]` on an error or exception |
| Database.ReturnedRecord | src/lib/database.ts:48-60 | `addMedicine`/`updateMedicine` return the mapped row iff the backend answered with data, else `null` |
| Database.DeleteMedicine | src/lib/database.ts:103-120 | true iff the backend reported no error |
| Database.SeedDatabase | src/lib/database.ts:123-157 | skips when a row exists; otherwise inserts every record mapped, and succeeds iff the insert did; an exception gives false |
| Database.SeedOnlyWhenEmpty | src/lib/database.ts:131-134 | a table with a row is never seeded, and seeding reports success |
| BulkAdd.EmptyRow | src/components/BulkAddMedicines.tsx:40-48 | a new row: empty texts, stock 0, no errors |
| BulkAdd.WithoutRow | src/components/BulkAddMedicines.tsx:56 | exactly the rows with a different id are kept |
| BulkAdd.WithoutRowDistinct | src/components/BulkAddMedicines.tsx:56 | removing a row keeps ids distinct |
| BulkAdd.WithoutRowNonEmpty | src/components/BulkAddMedicines.tsx:54-58 | with two or more distinct rows, removing one leaves at least one |
| BulkAdd.EditRow | src/components/BulkAddMedicines.tsx:60-72 | the field is set and its error, if set, is cleared |
| BulkAdd.RowErrors | src/components/BulkAddMedicines.tsx:77-90 | `Required` iff the name is blank; `Cannot be negative` iff stock < 0; nothing else |
| BulkAdd.RowErrorsEmptyIffValid | src/components/BulkAddMedicines.tsx:77-93 | a row has no errors iff it is acceptable |
| BulkAdd.Submitted | src/components/BulkAddMedicines.tsx:102-110 | name, formula and dosage are trimmed; formulation and stock are submitted as entered |
| BulkAdd.NamedAfterValidation | src/components/BulkAddMedicines.tsx:98-110 | after validation passes, the no-name filter drops nothing |
| BulkAdd.BulkAddEditor.constructor | src/components/BulkAddMedicines.tsx:27-37 | the editor starts with one empty row |
| BulkAdd.BulkAddEditor.AddRow | src/components/BulkAddMedicines.tsx:50-52 | a fresh row is appended; ids stay distinct |
| BulkAdd.BulkAddEditor.RemoveRow | src/components/BulkAddMedicines.tsx:54-58 | removal only with more than one row; the list never becomes empty |
| BulkAdd.BulkAddEditor.UpdateRow | src/components/BulkAddMedicines.tsx:60-72 | the row with the id takes the edit; every other row is kept |
| BulkAdd.BulkAddEditor.ValidateRows | src/components/BulkAddMedicines.tsx:74-96 | every row's errors are recomputed; the result is true iff every row is acceptable |
| BulkAdd.BulkAddEditor.HandleClose | src/components/BulkAddMedicines.tsx:128-131 | the editor is reset to one fresh row |
| BulkAdd.BulkAddEditor.HandleSubmit | src/components/BulkAddMedicines.tsx:98-126 | nothing is submitted iff some row is invalid; otherwise every row, trimmed and in order; the editor closes unless `onSubmit` throws |
| Form.FormErrors | src/components/MedicineForm.tsx:59-71 | `Medicine name is required` iff the name is blank; `Stock cannot be negative` iff stock < 0 |
| Form.FormErrorsEmptyIffAcceptable | src/components/MedicineForm.tsx:59-74 | no errors iff the form is acceptable |
| Form.MedicineForm.constructor | src/components/MedicineForm.tsx:25-32 | a blank form with no errors |
| Form.MedicineForm.Open | src/components/MedicineForm.tsx:36-57 | the edited record's fields, or a blank form; errors cleared |
| Form.MedicineForm.ValidateForm | src/components/MedicineForm.tsx:59-74 | errors recomputed; true iff acceptable |
| Form.MedicineForm.HandleSubmit | src/components/MedicineForm.tsx:76-91 | the untrimmed form data is submitted iff acceptable; the form closes unless `onSubmit` throws |
| Form.MedicineForm.HandleClose | src/components/MedicineForm.tsx:93-103 | blank form, no errors |
| Form.MedicineForm.HandleInputChange | src/components/MedicineForm.tsx:105-118 | only the named field changes, and its error is cleared |
| Upload.FailedRead | src/components/CSVUploadModal.tsx:39-56 | no records, no duplicates, and exactly one row-0 error with the message |
| Upload.CountReadsBack | src/components/CSVUploadModal.tsx:112 | a count between a prefix and a non-digit suffix reads back with `parseInt` |
| Upload.CountAfterReadsBack | src/components/CSVUploadModal.tsx:114 | an appended count behind a one-character prefix reads back |
| Upload.SuccessMessageReports | src/components/CSVUploadModal.tsx:109-116 | the message carries the imported count, and the skipped count iff duplicates were skipped |
| Upload.UploadModal.constructor | src/components/CSVUploadModal.tsx:17-22 | no result, all flags down, status idle, empty message |
| Upload.UploadModal.OnDrop | src/components/CSVUploadModal.tsx:25-29 | processing starts iff a file was given |
| Upload.UploadModal.ShowResult | src/components/CSVUploadModal.tsx:36-46 | the result is shown and processing ends |
| Upload.UploadModal.OnLoad | src/components/CSVUploadModal.tsx:32-48 | the result shown is exactly `Parsed` of the file's tokens and the existing records; processing ends |
| Upload.UploadModal.OnLoadFailed | src/components/CSVUploadModal.tsx:37-46 | the read-failure result is shown, and import is impossible |
| Upload.UploadModal.OnReadError | src/components/CSVUploadModal.tsx:50-58 | the retry message is shown, and import is impossible |
| Upload.UploadModal.OnDropRejected | src/components/CSVUploadModal.tsx:74-86 | the highlight goes; with a rejection its messages, comma-joined, become the one error |
| Upload.UploadModal.HandleImport | src/components/CSVUploadModal.tsx:89-131 | a no-op unless importable; then the filtered records are handed on, or the all-duplicates error is shown; the status and message for success and failure; the upload flag is down after |
| Upload.UploadModal.HandleClose | src/components/CSVUploadModal.tsx:133-144 | refused iff uploading; otherwise a full reset |
| Upload.ImportSkipsExisting | src/components/CSVUploadModal.tsx:98-99 | import right after parsing hands on exactly the parsed records without a match, in order |
| Upload.LoadThenImport | src/components/CSVUploadModal.tsx:35-99 | for any file, importing after a load hands on exactly the parsed records without a match, in order |
| Home.FilteredMedicines | src/app/page.tsx:79-94 | a blank query keeps the list; otherwise exactly the records where the lower-cased, untrimmed query occurs in one of four fields |
| Home.SearchKeepsOrder | src/app/page.tsx:84-90 | the result is a subsequence of the list |
| Home.StockNotSearched | src/app/page.tsx:85-90 | records that differ only in stock are kept or dropped together |
| Home.NameFoundIgnoringCase | src/app/page.tsx:83-86 | a query equal to a name up to case finds the record |
| Home.DeleteTarget | src/app/page.tsx:101-107 | the record asked about is the first with the id; none iff no record has it |
| Home.RelatedFormula | src/app/page.tsx:109-115 | the popup opens iff the formula is not blank, with the formula untrimmed |
| Home.AsUpdate | src/app/page.tsx:130 | the form data as a spread source: every field but the id present |
| Home.EditedRecord | src/app/page.tsx:128-130 | the edited record keeps its id and takes every other field from the form |
| FilterPopup.FilteredMedicines | src/components/FilterPopup.tsx:46-60 | the selected record is always kept; with no toggle on nothing else; otherwise exactly the records equal on every active field |
| FilterPopup.FilteredKeepsOrder | src/components/FilterPopup.tsx:47 | the result is a subsequence of the list |
| FilterPopup.MoreFiltersFewerRecords | src/components/FilterPopup.tsx:50-57 | turning on another toggle never adds a record (multiset inclusion) |
| FilterPopup.Toggled | src/components/FilterPopup.tsx:38-43 | the toggled filter flips; the others are kept |
| FilterPopup.ToggleTwice | src/components/FilterPopup.tsx:38-43 | toggling twice restores the filters |
| FilterPopup.FilterPopupState.constructor | src/components/FilterPopup.tsx:19-23 | all toggles off |
| FilterPopup.FilterPopupState.Reset | src/components/FilterPopup.tsx:26-34 | opening with a medicine selects the formula toggle only; otherwise no change |
| FilterPopup.FilterPopupState.ToggleFilter | src/components/FilterPopup.tsx:38-43 | the filters become `Toggled` of the old ones |
| Related.RelatedMedicines | src/components/RelatedMedicinesPopup.tsx:21-24 | exactly the records whose formula equals the given one up to letter case |
| Related.RelatedKeepsOrder | src/components/RelatedMedicinesPopup.tsx:21-24 | the result is a subsequence of the list |
| Related.RelatedIncludesOrigin | src/components/RelatedMedicinesPopup.tsx:21-24 | the clicked record is listed, and the list does not depend on the case of the formula |
| Related.StockBand | src/components/RelatedMedicinesPopup.tsx:26-49 | red iff 0, yellow iff non-zero and at most 10, green iff above 10 |
| Related.ListingOf | src/components/RelatedMedicinesPopup.tsx:74-89 | the empty panel iff none; otherwise the count, with `medicine` iff exactly one |
| MedicineItem.StockStatusOf | src/components/MedicineItem.tsx:15-37 | out of stock iff 0, low iff non-zero and at most 5, in stock iff above 5 |
| MedicineItem.CardAndPopupBands | src/components/MedicineItem.tsx:15-37 | the card and the popup agree on out-of-stock, but stock 6 to 10 is in stock on the card and yellow in the popup |
| MedicineItem.CardClickOpens | src/components/MedicineItem.tsx:39-49 | the click reaches the callback iff it is not an admin's button click, the formula is not blank and a callback is given |
| MedicineItem.HighlightedIsClickable | src/components/MedicineItem.tsx:46-52 | a highlighted card is clickable; a literal `Not specified` formula is clickable though not highlighted |
| MedicineItem.ClickOpensPopup | src/components/MedicineItem.tsx:46-47 | a click that passes the card's guard always opens the page's related popup |
| MedicineItem.Displayed | src/components/MedicineItem.tsx:95-114 | an empty field shows `Not specified`; any other is shown as is |

## Left out

- Tokenising CSV text (Papa Parse) is a foreign library. `parseCSV` is modelled from its output on: header cells, rows keyed by transformed header, and syntax errors, or the exception it throws. `skipEmptyLines` and quoting are its concern.
- The CSV text that `exportMedicinesToCSV` writes (`Papa.unparse`) is not modelled. Only the row projection it starts from is, and `Csv.ExportImportRoundTrip` relates that row to validation.
- `Number(s)` is modelled on decimal literals: optional sign, digits, optional fraction. Exponents, hexadecimal, `Infinity` and the float rounding of long literals are not. `parseInt` ignores the `0x` prefix.
- `toLowerCase` is modelled on ASCII letters only.
- `typeof window === 'undefined'` (server-side rendering) branches are not modelled: the model is the browser case.
- The quota and security exceptions of `localStorage.setItem` are not modelled. A stored value is recorded by what it parses to. Text that parses to some other shape (an object where a list is expected, a list where a cache entry is expected) is treated like unparseable text. The source would return that value as it is.
- Offline.QueueOf: a stored value that parses but is not a list gives `[]` here, where the source returns the parsed value.
- Offline.CachedRead: an entry without a numeric timestamp reads as missing here, where the source returns its `data` field.
- `isOffline` (`navigator.onLine`) reads the browser's network state and is not modelled.
- `processOfflineQueue` only logs each operation. The model returns the operations it visits, in order (`replayed`).
- The clock (`Date.now()`) and the random ids (`Math.random()`) are parameters of the methods that use them.
- The backend (Supabase) is a parameter: each operation takes the reply. Its `.order('name')` sorting is the backend's, and the rows are taken in the order given.
- Asynchrony is not modelled: each handler runs to completion. For example, `isUploading` cannot be seen set by a concurrent click, and `onImport` either returns or throws (`importThrows`).
- The submitting flags of the two forms, the two-second auto-close after a successful import, and the drag-enter and drag-leave highlight toggles are not modelled.
- Rendering is not modelled: colours, icons, layout, and the preview table.
- `null` and `undefined` record fields are not modelled: records hold strings and integers. Non-integer stocks typed into a form are not modelled either (`parseInt` yields integers).
- BulkAdd.BulkAddEditor.AddRow requires the new id to be unused. The source's `Date.now() + Math.random()` id makes a clash unlikely but not impossible.
- The page's synchronisation layer (`syncToDatabase`, `shouldSync`) is not modelled. Nor is the one-argument `updateMedicine` call at `src/app/page.tsx:131`, which goes to a storage service that is not part of this model. The record that call is given is modelled by `Home.EditedRecord`.
- Storage.UpdatedTouchesFirstMatchOnly, Offline.CacheRoundTrip, Offline.FreshnessMonotone, Database.SeedOnlyWhenEmpty, Home.StockNotSearched, Home.EditedRecord, MedicineItem.CardAndPopupBands, MedicineItem.ClickOpensPopup and Medicines.MergeIdempotent follow directly from the definitions they relate.
