# Stock tracker and expense ledger, modelled in Dafny

The repository holds two small browser front-ends. Each has a few lines of real logic inside
its event handlers, and this project models that logic.

- **The stock tracker (`app.js`)** keeps an in-memory `appState` with a list of items and a
  list of categories, and writes changes to a cloud document store. The model covers:
  - drag-and-drop reordering (two `splice` calls, then every item's `order` rewritten to its index);
  - the ＋/− quantity buttons (the count is clamped at 0, and history and a save happen only on a real change);
  - the item form submit (a new item's `order`, the links, the count through `parseInt`);
  - adding and deleting categories, and the "in use" flag.

  The store is the class `Inventory.Store`. Every cloud write (`cloudSaveItem`,
  `cloudSaveHistory`, `cloudSaveCategories`) becomes an append to its write log `log`, in
  the order the handler issues it.
- **The expense ledger (`script.js`)** keeps a list of projects and one list of entries
  ("memos") per project in the browser's key-value storage. It shows the current project's
  entries in a table.
  - `Ledger` holds the entries and the table rows:
    - the amount cell's round trip (`${amount}円` written, `parseInt(… .replace('円',''))` read back);
    - `calculateTotal` and `calculateSettlement` (per-payer sums, and an equal split checked by sign);
    - the CSV export's string building.
  - `Projects` holds the class `ProjectStore`, which has the project list, the storage map,
    the stored last project, `currentProject`, the selector value and the table rows. It
    models `loadProjectList`, the startup code, and the handlers for the load, change, add,
    edit, delete-row, create and delete-project events.
  - The table is state because `saveMemos` reads the entries back from the table, not from
    storage. The predicate `ProjectStore.Shown()` says that the table shows exactly what is
    stored for the current project.
- **`JsBuiltins`** models the JavaScript built-ins the handlers rely on:
  - `trim` (ECMAScript white space) and `parseInt` without a radix (white space, sign,
    `0x` prefix, stop at the first non-digit; NaN is `None`);
  - the decimal text of an integer;
  - `replace` of one character, and the `filter`/`splice` idioms.

Amounts are integers, because they come from `parseInt`. The settlement is computed exactly
over `real`, and the lemma `VerdictByCrossMultiplying` shows that the sign test needs no
division.

Three facts about the code shape the model:
- The CSV export has four columns (`日付,支払い者,金額,メモ`). It has no category column and
  no payer filter.
- Deleting a project always moves the current project to the first remaining project (or
  `'default'`), whichever project was current before.
- A missing stored project list is not always read as empty. The startup check at
  `script.js:327` calls `includes` on `JSON.parse` of the missing value, without the `|| []`
  fallback used elsewhere.

## Model

| member | source | states |
|---|---|---|
| JsBuiltins.TrimIsBothEnds | script.js:209 | `trim` removes white space from both ends: it equals trimming the front and then the back |
| JsBuiltins.TrimOfBlank | script.js:209-210 | the trimmed name is empty exactly when the input is all white space; otherwise it neither starts nor ends with white space |
| JsBuiltins.TrimStart | script.js:118 | the white space `parseInt` skips: the result is a suffix of the input, everything dropped is white space, and the result does not start with white space |
| JsBuiltins.TrimEnd | script.js:260 | the back half of `trim`: the result is a prefix of the input, everything dropped is white space, and the result does not end with white space |
| JsBuiltins.LeadingDigits | script.js:118 | `parseInt` reads the longest prefix made of digits: a prefix of the text, all digits, followed by a non-digit or the end |
| JsBuiltins.NatToDecimal | script.js:68 | the decimal text of a natural number is a non-empty run of digits with no leading zero |
| JsBuiltins.ParseIntOfDigits | script.js:118 | `parseInt` of a decimal digit run, with or without a leading minus, gives that run's value with that sign |
| JsBuiltins.ParseIntOfDecimal | script.js:118 | `parseInt` of the decimal text of any integer gives back that integer |
| JsBuiltins.ParseIntOfNonNumber | script.js:118 | a text that starts with something other than white space, a sign or a digit (such as "null") parses to NaN |
| JsBuiltins.RemoveFirst | script.js:118 | `replace('円','')` leaves a text without 円 unchanged, and otherwise makes it one character shorter |
| JsBuiltins.RemoveFirstTakesOutFirst | script.js:118 | the character removed is the first 円; the text before it and the text after it are kept, in order |
| JsBuiltins.RemoveFirstOfSuffix | script.js:118 | removing the first 円 from a text that ends in its only 円 gives back the text before it |
| JsBuiltins.Without | script.js:239 | `filter(p => p !== v)`: an element is kept if and only if it was present and is not `v`, and the list never grows |
| JsBuiltins.WithoutKeepsNoDup | app.js:532 | filtering a list with no repeats leaves a list with no repeats |
| JsBuiltins.WithoutRemovesOnePosition | script.js:239 | on a list with no repeats, filtering out a listed name removes exactly its position, and the others keep their order |
| JsBuiltins.WithoutOfAbsent | script.js:239 | filtering out a value that is not listed changes nothing |
| Inventory.FindIndex | app.js:374-375 | `findIndex` returns -1 exactly when no item has the id; otherwise the first index that holds it |
| Inventory.Move | app.js:377-378 | the two splices keep the length and the multiset of items, put the moved item at `toIdx`, and keep the others in their relative order |
| Inventory.IdsOfMove | app.js:377-378 | the ids of the moved list are the moved ids: the move commutes with taking ids |
| Inventory.DropWithoutMoveIsNoOp | app.js:373-376 | dropping a card on itself, or with either id missing, leaves the list unchanged |
| Inventory.DropMovesDraggedToTarget | app.js:374-381 | after a drop, the dragged item is at the target's former index, the other ids keep their order, no id is lost or duplicated, and every order equals its index |
| Inventory.Store.Drop | app.js:370-385 | the new list is the reordered one; each item is saved once, in list order, when the drop moves something; otherwise nothing is written; the categories are unchanged |
| Inventory.Store.RenumberAndSave | app.js:380-383 | the loop sets every item's order to its index and appends one save per item, in list order |
| Inventory.NewCount | app.js:497-499 | `Math.max(0, count ± 1)` is never negative; it differs from the old count unless the count is 0 and is being decremented; on a non-negative count it is the count plus or minus one, floored at 0; on a negative count (which the form's `parseInt` lets through) it is 0 |
| Inventory.Store.AdjustCount | app.js:492-505 | an unknown id changes nothing. Otherwise, only a real change stamps the date, updates that one item, and appends a history entry (previous → new, 追加 or 削減) and then a save. Non-negative counts stay non-negative |
| Inventory.InUse | app.js:276 | a category is in use if and only if some item has it |
| Inventory.DeletingCategoryInUseOrphansItems | app.js:529-535 | the delete handler does not check use, so deleting a category in use leaves an item whose category is no longer listed |
| Inventory.FormLinks | app.js:464-468 | there are at most as many links as groups, and every collected link has a URL and a caption |
| Inventory.FormLinksOfFilledGroups | app.js:464-468 | every group with a URL gives its link, with an empty caption (label) replaced by 'リンク', and every collected link comes from such a group; groups with an empty URL give nothing |
| Inventory.NewItemTakesFreshOrder | app.js:480-481 | a new item gets `order = items.length`, which no item holds while the orders are the indices |
| Inventory.EditDropsOrder | app.js:483-488 | as written, an edit saves the item without an `order`, so any item whose sort key is not 0 moves to sort key 0 |
| Inventory.EditKeepsOrder | app.js:480-488 | in the corrected submit, an edit keeps the item's order and a new item still takes `items.length` |
| Inventory.Store.SubmitItem | app.js:460-490 | the submit appends a history entry (新規登録 from 0, or 情報更新 from the old count, or from 0 when the item is gone) and then the item document; the local lists are unchanged |
| Inventory.Store.SubmitItemKeepingOrder | app.js:460-490 | the same writes, with the edited item's existing order carried over |
| Inventory.Store.AddCategory | app.js:521-527 | a name is appended and saved exactly when it is non-empty and not listed; otherwise nothing changes; the list stays free of repeats |
| Inventory.Store.DeleteCategory | app.js:529-535 | exactly that name is removed, the others keep their order, the list is saved, and there are still no repeats |
| Inventory.Store.constructor | app.js:24-30 | the initial state has no items, the three default categories and no writes |
| Ledger.AmountText | script.js:68 | the amount's text contains no 円, no quote and no line break |
| Ledger.MemoRoundTrip | script.js:116-120 | an entry shown as a row (amount written as `${amount}円`) and read back by `saveMemos` is the same entry, null amounts included |
| Ledger.TableRoundTrip | script.js:47-51 | showing a project's entries and saving the table gives back exactly those entries, in order |
| Ledger.TypedAmountIsParsed | script.js:271-273 | a typed amount, once appended and read back, is what `parseInt` makes of the typed text |
| Ledger.ReadTable | script.js:111-124 | the loop of `saveMemos` yields one entry per row, read from that row, in table order |
| Ledger.Payers | script.js:131-139 | the totals object's keys have no repeats |
| Ledger.PayersAreTheKeys | script.js:131-139 | a payer is a key if and only if some entry is grouped under it (an empty payer becomes 不明 in `calculateTotal`) |
| Ledger.Tally | script.js:131-139 | the `forEach` gives exactly one key per distinct payer, in first-insertion order, each holding the sum of that payer's amounts (null counts as 0), despite the falsy-zero overwrite |
| Ledger.PaidSumsToTotal | script.js:144 | the per-payer totals add up to the sum of all amounts |
| Ledger.CalculateTotal | script.js:127-157 | `calculateTotal` gives each payer's total and an overall total equal to the sum of all amounts |
| Ledger.VerdictOf | script.js:186-194 | "receives" if and only if the balance is positive, "pays" if and only if it is negative, otherwise "settled"; the amount shown is positive |
| Ledger.SettleEach | script.js:185-196 | the second loop gives one line per payer, in key order, with the verdict on that payer's paid amount minus the share |
| Ledger.CalculateSettlement | script.js:160-198 | `calculateSettlement` yields the settlement: the share is the total over the number of distinct payers (0 with none), and there is one verdict per payer |
| Ledger.VerdictByCrossMultiplying | script.js:176-194 | with n payers, a payer receives, pays or is settled exactly when `n * paid` is greater than, less than or equal to the total |
| Ledger.SharesAddUp | script.js:174-176 | n shares of `total / n` add back to the total |
| Ledger.BalancesSumToZero | script.js:174-194 | the signed balances over all payers sum to exactly zero |
| Ledger.SinglePayerIsSettled | script.js:174-194 | with a single payer, the settlement is that payer, settled |
| Ledger.SettlementHasOneLinePerPayer | script.js:175-185 | there is one line per distinct payer, and no line exactly when there is no entry |
| Ledger.TwoPayerExample | script.js:160-198 | when A pays 300 and B pays 100, A receives 100 and B pays 100 |
| Ledger.ExportCsv | script.js:289-307 | no entries export nothing; otherwise the text is the header followed by one line per entry, in order |
| Ledger.CsvLineQuotes | script.js:299-306 | a line has the 8 delimiting quotes plus every quote inside the date, payer and memo, because none is escaped |
| Ledger.CsvLineIsOneLine | script.js:300-306 | a line whose fields hold no line break contains exactly one, at its end |
| Ledger.HeaderIsOneLine | script.js:296-297 | the header is one line |
| Ledger.BodyLineCount | script.js:299-307 | the body has one line break per entry when no field holds one |
| Ledger.CsvLineCount | script.js:296-307 | the export has exactly entries + 1 lines when no field holds a line break |
| Projects.ProjectStore.constructor | script.js:324-333 | at startup, a listed last project is selected, made current, and its stored entries are rendered into the table (so the table shows them); otherwise the first project (or 'default') becomes current, and its entries are shown only if its key is stored |
| Projects.ProjectStore.LoadProjectList | script.js:26-40 | the selector and the current project fall back to the first listed project, or to nothing and 'default'; nothing else changes |
| Projects.ProjectStore.Pick | script.js:335-337 | the picked project is remembered as the last project; the current project and the table are unchanged |
| Projects.ProjectStore.SaveMemos | script.js:111-124 | the entries read from the table replace what is stored under the current project, and only there, so the table and storage agree |
| Projects.ProjectStore.LoadProject | script.js:339-344 | the selected project becomes current, its stored entries fill the table, and it is remembered |
| Projects.ProjectStore.AddMemo | script.js:257-283 | a row is added if and only if the amount is non-empty and the trimmed payer is non-empty; in every such case the stored list becomes what the table reads back, and when the table showed what was stored and the typed amount holds no 円, the stored list grows by exactly the typed entry (parsed amount, trimmed memo and payer, today's date when none is given); otherwise nothing changes |
| Projects.ProjectStore.DeleteMemo | script.js:80-85 | the row goes, and exactly that stored entry goes with it |
| Projects.ProjectStore.EditMemo | script.js:87-96 | as written: for a row built from a null amount the handler throws, and nothing changes. Otherwise only the memo input receives the row's text; the date, amount and payer inputs keep their values. The row and exactly that stored entry then go |
| Projects.EditLosesTheEntryFields | script.js:58-96 | as written: editing a stored entry's row from a blank form brings back only its memo text, although the row reads back as the whole entry; a null-amount row cannot be edited |
| Projects.ProjectStore.EditMemoFillingForm | script.js:87-96 | corrected: the form receives the row's whole entry, which is the stored entry when table and storage agree; then the row and exactly that stored entry go |
| Projects.ProjectStore.CreateProject | script.js:208-227 | a blank name changes nothing, and a listed name changes nothing. A new trimmed name is appended and made current and selected, and the table is cleared. Storage is untouched, and the list stays free of repeats |
| Projects.ProjectStore.CreateProjectAndReload | script.js:208-227 | corrected: the same outcomes, with the table reloaded from what is already stored under the new name, so afterwards it shows exactly that |
| Projects.CreateDefaultOverStoredEntries | script.js:208-227 | as written: entries stored under 'default' while no project exists are lost once a project named "default" is created and an entry is added; only the new entry is stored |
| Projects.ProjectStore.DeleteProject | script.js:235-255 | as written: after confirmation, the selected project leaves the list and storage. If projects remain, the current one is a listed project other than the deleted one, and the table shows its entries. With none left, the current project is 'default' and the table is empty. Without confirmation nothing changes |
| Projects.ProjectStore.DeleteProjectAndReload | script.js:235-255 | corrected: the same fallback (a remaining listed project other than the deleted one, or 'default'), with the table always reloaded, so afterwards it shows what is stored for the current project |
| Projects.DeleteRemovesOnlyTheTarget | script.js:238-242 | deleting a listed project removes only its position; its stored entries are gone and every other key is untouched |
| Projects.DeletingLastProjectHidesDefault | script.js:244-250 | as written: after the last project is deleted, 'default' is current but the table is empty while 'default' still holds an entry |
| Projects.AddAfterDeletingLastProjectLosesEntries | script.js:244-250 | as written: an entry added next overwrites what 'default' held, so the hidden entry is lost |
| Projects.AddAppendsOneEntry | script.js:271-273 | with table and storage in step, adding a row stores the old entries plus the typed one |
| Projects.DeleteRemovesOneEntry | script.js:80-82 | with table and storage in step, removing row i removes stored entry i |

## Left out

- Firebase initialisation, authentication, the `onSnapshot` subscriptions that refill `appState.items`, and the SDK calls themselves (app.js:36-260). A write is an entry in `Inventory.Store.log`. The submit does not change the local list, because the snapshot does that.
- The signed-in guard of the cloud writes (app.js:236, 251, 257). The log records each write the handler issues, whether or not a user is signed in.
- `Promise.all` in the drop handler. Its writes are logged one after another, in list order; concurrency and partial failure are not modelled.
- The item delete button (`cloudDeleteItem`, app.js:507-513) and the modal that fills the edit form (app.js:415-432). They are outside the modelled handlers.
- All DOM rendering: item cards, grouped view, history list (capped at 100), tabs and modals. The model does not render.
- The sorting and search of `renderItems` (app.js:294-302): `localeCompare`, `Date` parsing and `toLowerCase` depend on locale and Unicode tables the model does not have. The custom-sort key `a.order || 0` appears only as `SortKey`.
- `compressImage` (app.js:572-586). It uses canvas, JPEG encoding and floating-point scaling.
- Clock and date strings (`Date.now()` ids, `toLocaleString`, `toLocaleDateString`, and the `yyyy-mm-dd` of the add button). These are parameters (`freshId`, `today`, `now`).
- Inventory.Store.AdjustCount: counts are integers. A stored count that is not a number would give NaN in JavaScript, and that case is not modelled.
- `localStorage` JSON encoding. Storage is a map from project name to entries.
  - The keys `projectList` and `lastProject` share the namespace with project names in the original. A project with one of those names would clobber them, and the separate fields of the model cannot show that.
- Projects.ProjectStore.constructor: a missing stored list counts as empty. The startup code at script.js:327 calls `includes` on `JSON.parse(null)` when a last project is stored and no list is, which throws and stops the script.
- `loadMemos` refills the table after a 100 ms `setTimeout`. The model refills it at once, so events that arrive in between are not modelled. The two click listeners on the load button (script.js:229, 339) are modelled as one load, because the second only repeats the first and stores the last project.
- JavaScript object key order and inherited keys:
  - Payers are listed in first-insertion order. Integer-like payer names, which JavaScript enumerates first, are not modelled.
  - A payer named like an `Object.prototype` member (`constructor`, `toString`) reads as an existing key in the original. The map of the model does not do that.
- The `undefined` payer key of `calculateSettlement` (script.js:165). A stored entry always has a payer string, because `saveMemos` writes one from the payer cell.
- Ledger.MemoRoundTrip: integers are unbounded. In JavaScript, an amount beyond 2^53 loses precision, and one of 10^21 or more is written in exponent form, which `parseInt` reads back as its leading digits.
- Display strings: `Math.round`, `toLocaleString` and the summary text (script.js:141-156, 178-197). The verdicts carry exact amounts.
- The BOM, the `Blob`, and the download link of the export (script.js:309-321). The export yields the CSV text.
- Projects.ProjectStore.EditMemo: `script.js` is taken to run as a classic, non-strict script, where a property assignment on a string or number is silently dropped. In strict mode the handler would throw at script.js:88 on every row, and no edit would change anything.

## Findings

| source | as written | input that shows it | evidently intended | confidence | as-written member | corrected member |
|---|---|---|---|---|---|---|
| app.js:483-488 | editing an item saves a document with no `order` field, and `setDoc` without merge replaces the stored document | edit an item whose order is 3; its stored order is gone, so its custom-sort key becomes 0 | an edit keeps the item's place in the custom order | not executed | Inventory.EditDropsOrder | Inventory.EditKeepsOrder |
| script.js:87-96 | `addMemoToPage`'s parameters `memoDate`, `memoAmount` and `memoPayer` shadow the form inputs, so the edit handler's assignments to them are lost; only the memo text reaches the form before the row is deleted and saved, and a row loaded with a null amount makes the handler throw | edit the row of the stored entry (2024-05-01, A, 800, lunch) from a blank form; the form shows only "lunch", and the entry is gone from the table and from storage | the form receives all four fields of the row being edited | not executed | Projects.EditLosesTheEntryFields | Projects.ProjectStore.EditMemoFillingForm |
| script.js:208-227 | creating a project clears the table without loading what is already stored under the new name | entries are saved under 'default' while no project exists, then a project named "default" is created and one entry is added; only that entry remains stored | the table shows what the new project already holds, so no stored entry is overwritten unseen | not executed | Projects.CreateDefaultOverStoredEntries | Projects.ProjectStore.CreateProjectAndReload |
| script.js:244-250 | after the last project is deleted, the current project falls back to 'default' but the table is not reloaded | 'default' holds one entry, and the only project is deleted; the table is empty, and the next add saves only the new entry under 'default' | the table shows what the current project holds, so no stored entry is overwritten unseen | not executed | Projects.AddAfterDeletingLastProjectLosesEntries | Projects.ProjectStore.DeleteProjectAndReload |
