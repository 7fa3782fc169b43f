# KasirApp cart and payment core, modelled in Dafny

KasirApp is a single-page cashier ("kasir") application. The cashier types an
item name and a price, and the item goes into the cart. A second add of the
same name, ignoring case, bumps the existing line instead. The cashier adjusts
quantities between 1 and 999, removes lines, or empties the cart. Then they
type the amount received. The payment panel shows the change and enables the
print button only when it can go ahead. The guards of `printReceipt` refuse an
empty cart or a payment that is short. After a receipt, the cashier may start a
new transaction, which empties the cart.

The cart is saved to the browser's local storage as `{cart, timestamp}` after
every change. On start-up it is restored only if the snapshot is less than
24 hours old. A small product catalog is kept beside the cart. Its form adds
an entry or updates one in place.

The model is in ten modules:

- `Wrappers`: Option and Result.
- `Text`: JavaScript's `trim` (the exact ECMAScript whitespace set) and `toLowerCase`.
- `Money`: digit stripping, `parseInt`, the dot-grouped `formatCurrency`, and the 12-digit money input field.
- `Search`: `find`/`findIndex` as a spec function and a loop method.
- `Validation`: `validateInputs`.
- `Cart`: the cart lines and each cart operation as a function on the sequence of lines, with the invariants they keep.
- `Payment`: the payment panel and the `printReceipt` guards.
- `Catalog`: `saveManageItem`.
- `Persistence`: the store as a map, the snapshot, and the 24-hour rule.
- `Kasir`: the `KasirApp` class itself.

`KasirApp` holds the cart, the cached `totalAmount`, the money-received field,
the catalog, the store and an id counter. Each public method is one user action
followed by the refresh and save that the application does after it. Each
method is tied by its `ensures` to the pure function in `Cart`, `Catalog` or
`Payment` that states its effect. The class invariant `Valid()` keeps three
facts:

- the cached total equals the sum of `price * quantity`;
- every cart id is below the counter;
- every catalog id is below the counter.

Browser inputs become parameters:

- `confirm()` answers become `bool` parameters (`confirmed`, `startNew`).
- `Date.now()` becomes `now`.
- Whether the receipt document was produced becomes `rendered`.
- Whether the store accepts writes becomes `storageWritable`.

`KopiSale` runs one whole sale through the class:

1. Add "Kopi" at 15.000 twice; the two adds merge into one line of two.
2. Tender 50.000.
3. Print: the receipt has a total of 30.000 and change of 20.000.

## Model

| member | source | states |
|---|---|---|
| Text.Trim | app.js:239 | the trimmed name neither starts nor ends with whitespace; with Text.TrimSlice, it is the field with its leading and trailing whitespace runs cut off and nothing else changed |
| Text.TrimSlice | app.js:239 | the trimmed name is a contiguous slice of the field, with only whitespace before it and only whitespace after it |
| Text.TrimStart | app.js:239 | the result is the suffix after a run of whitespace, and it does not start with whitespace |
| Text.TrimEnd | app.js:239 | the result is the prefix before a run of whitespace, and it does not end with whitespace |
| Text.TrimEmptyIffBlank | app.js:246-248 | the trimmed name is empty exactly when every character of the field is whitespace |
| Text.TrimIdempotent | app.js:239 | trimming an already trimmed name changes nothing |
| Text.LowerChar | app.js:300-302 | `toLowerCase` moves A-Z and the Latin-1 capitals U+00C0..U+00DE (except U+00D7) up by 32, and leaves every other character alone |
| Text.Lower | app.js:300-302 | lowercasing keeps the length and maps each character by LowerChar, position by position |
| Text.SameIgnoringCase | app.js:300-302 | two names match when their lowercased forms are equal; LowerIdempotent makes a lowercased name match the name it came from |
| Text.LowerIdempotent | app.js:300-302 | lowercasing twice is lowercasing once |
| Money.StripNonDigits | app.js:240 | the stripped text is all digits and no longer than the input; with StripKeepsDigits and StripConcat, it is exactly the input's ASCII digits, in order |
| Money.StripKeepsDigits | app.js:240 | every digit occurs in the stripped text as often as in the input, and no other character occurs |
| Money.StripConcat | app.js:240 | stripping a concatenation gives the two stripped parts, in the same order |
| Money.ValueOf | app.js:241 | the decimal value of a digit string, 0 for none; ValueOfDecimal and DecimalOfValue make it the inverse of Decimal |
| Money.ParseAmount | app.js:447-448 | how an amount field is read: the value of its digits; ParseDecimal, FocusKeepsAmount and FormatThenParse state it |
| Money.GroupThousands | app.js:663 | the dot grouping; GroupMatchesRegex ties it to the regular expression, GroupLength and StripGroup state its shape |
| Money.FormatCurrency | app.js:661-664 | "Rp 0" for 0, otherwise "Rp " and the grouped magnitude; FormatThenParse and ParseThenFormat make it a round trip with ParseAmount |
| Money.FormatCurrencyInput | app.js:183-190 | the money field after each input event; FormatInputAmount and FormatInputIdempotent state it |
| Money.StripGroup | app.js:447-448 | stripping a dot-grouped number gives back its digits |
| Money.Decimal | app.js:663 | `toString` writes a canonical digit string (no leading zero) |
| Money.ValueOfDecimal | app.js:663 | `parseInt` of `toString(n)` is `n` |
| Money.DecimalOfValue | app.js:663 | `toString` of `parseInt(d)` is `d` for a canonical digit string `d` |
| Money.ParseDecimal | app.js:447-448 | an amount field holding `toString(n)` reads as `n` |
| Money.GroupLength | app.js:663 | grouping inserts one dot per full group of three in front of the leading group |
| Money.GroupMatchesRegex | app.js:663 | the recursive grouping equals the `\B(?=(\d{3})+(?!\d))` replacement read position by position |
| Money.FormatThenParse | app.js:661-664 | reading back `formatCurrency(a)` the way amount fields are read gives `|a|` |
| Money.ParseThenFormat | app.js:661-664 | a grouped canonical amount, read and formatted again, comes back as "Rp " followed by the same text |
| Money.FocusKeepsAmount | app.js:192-193 | stripping the field on focus does not change the amount it holds |
| Money.InputDigits | app.js:184-185 | the field keeps the first 12 digits of the stripped text: a prefix of it, of length min(12, its length) |
| Money.FormatInputAmount | app.js:183-190 | the formatted field holds at most 12 digits, and its amount is the value of the kept digits |
| Money.FormatInputIdempotent | app.js:183-190 | formatting the field again, as every input and blur event does, changes nothing |
| Search.FirstMatch | app.js:300-302 | the index found matches the test, no earlier element does, and None means no element does |
| Search.Find | app.js:409 | the front-to-back scan returns exactly the first match |
| Validation.ValidateInputs | app.js:238-272 | the inputs are valid iff the trimmed name has 1..50 characters and the price parses to 1..99,999,999; each error is shown exactly under its own condition, in the code's order |
| Cart.Total | app.js:442-444 | the sum of `price * quantity` over the lines, 0 for an empty cart; TotalUpdate, TotalConcat and TotalPositive state how it moves |
| Cart.IndexOfName | app.js:300-302 | the first line whose name matches ignoring case, by Search.FirstMatch's contract |
| Cart.IndexOfId | app.js:409 | the first line with the id, by Search.FirstMatch's contract |
| Cart.AddedLine | app.js:300-313 | the cart after an accepted add; AddedLineMerges and AddedLineAppends give its two cases, and AddedLineWellFormed, AddedLineIdsBelow and AddedLineCeiling the invariants it keeps |
| Cart.Incremented | app.js:408-416 | the cart after `increaseQuantity`; IncrementedEffect and IncrementedKeepsInvariants state it |
| Cart.Decremented | app.js:418-426 | the cart after `decreaseQuantity`; DecrementedEffect and DecrementedKeepsInvariants state it |
| Cart.Removed | app.js:433 | the cart after the filter of `removeItem`; RemovedMembers, RemovedConcat, RemovedCutsOut, RemovedTotal and RemovedKeepsInvariants state it |
| Cart.IdBound | app.js:309 | the bound is above every id in the cart, so ids drawn from it are fresh |
| Cart.TotalUpdate | app.js:442-444 | changing one line changes the total by the difference of the two subtotals |
| Cart.TotalConcat | app.js:442-444 | the total of a concatenation is the sum of the two totals |
| Cart.TotalPositive | app.js:442-444 | a cart of valid lines has a non-negative total, and the total is positive iff the cart is not empty |
| Cart.AddedLineMerges | app.js:300-306 | a name that matches ignoring case bumps only that line, by one, keeping its id, name, price and the cart length; the total grows by its price |
| Cart.AddedLineAppends | app.js:307-313 | a new name appends exactly one line, with quantity 1, the given price and the fresh id, after the unchanged old lines |
| Cart.AddedLineIdsBelow | app.js:309 | after an add, every id is below the next fresh one |
| Cart.MergeWellFormed | app.js:305 | bumping a quantity keeps a well-formed cart well formed |
| Cart.AppendWellFormed | app.js:308-313 | appending a valid line with a fresh id and a new name keeps a well-formed cart well formed |
| Cart.AddedLineWellFormed | app.js:292-313 | a validated add keeps ids unique and at most one line per lowercased name |
| Cart.AddedLineCeiling | app.js:304-305 | the merge path has no 999 ceiling: an add stays within the ceiling iff it appends or merges into a line below 999 |
| Cart.IncrementedEffect | app.js:408-416 | increasing is a no-op for an absent id or a quantity of 999; otherwise only the first line with the id gains 1, and the total grows by its price |
| Cart.DecrementedEffect | app.js:418-426 | decreasing is a no-op for an absent id or a quantity of 1; otherwise only the first line with the id loses 1, and the total drops by its price |
| Cart.SetQuantityKeepsInvariants | app.js:411 | setting one quantity keeps well-formedness (for quantities at least 1), the ceiling (for quantities at most 999) and the id bound |
| Cart.IncrementedKeepsInvariants | app.js:408-416 | increasing keeps well-formedness, the 999 ceiling and the id bound |
| Cart.DecrementedKeepsInvariants | app.js:418-426 | decreasing keeps well-formedness, the 999 ceiling and the id bound |
| Cart.RemovedMembers | app.js:433 | a line survives removal iff it was in the cart and has another id |
| Cart.RemovedAbsent | app.js:428-440 | removing an absent id leaves the cart unchanged |
| Cart.RemovedCutsOut | app.js:433 | with unique ids, removal cuts out exactly the found line and keeps the others in order |
| Cart.RemovedIdsBelow | app.js:433 | removal keeps the id bound |
| Cart.CutOutShifts | app.js:433 | cutting out one line shifts the later lines down by one place |
| Cart.CutOutKeepsUniqueness | app.js:433 | cutting out one line keeps ids and lowercased names unique |
| Cart.RemovedKeepsInvariants | app.js:433 | removal keeps a well-formed cart well formed and within the ceiling |
| Cart.RemovedConcat | app.js:433 | removal acts line by line: on a concatenation it is the two removals concatenated, so the surviving lines keep their order even when ids repeat |
| Cart.RemovedTotal | app.js:433 | with unique ids, removing a found line lowers the total by that line's subtotal, and an absent id keeps the total |
| Payment.PaymentDisplay | app.js:446-473 | received is the parsed field (0 with no digits); change is received - total; the print button is enabled iff the cart is not empty, received > 0 and received >= total; the label is "add items first" iff the cart is empty, "enter payment" iff there are lines and nothing received, "short" iff something but too little was received, with shortage total - received, and "print" iff enabled |
| Payment.Finalize | app.js:495-508 | finalizing succeeds iff the cart has lines and received >= total; an empty cart is refused first; a short payment is refused with shortage total - received; a success snapshots the cart, the total and non-negative change |
| Payment.ChangeText | app.js:452 | the text of the change display; ChangeShownAsMagnitude states it |
| Payment.ChangeShownAsMagnitude | app.js:452 | the change display shows the magnitude of the change |
| Payment.EnabledPrintFinalizes | app.js:455-460 | an enabled print button always passes both guards of `printReceipt` |
| Payment.DisplayAgreesWithFinalize | app.js:446-508 | on a cart of valid lines with its true total: the button is enabled iff finalizing succeeds; "add items first" is the empty-cart refusal; the shortfall shown is the one refused with |
| Catalog.IndexOfItem | app.js:847 | the first catalog entry with the id, by Search.FirstMatch's contract |
| Catalog.UpsertOutcome | app.js:844-862 | which entry an accepted save touches: the found index, an unknown id, or a new entry; SaveEffect states it |
| Catalog.Upserted | app.js:843-862 | the catalog after an accepted save; SaveEffect and UpsertKeepsIds state it |
| Catalog.SaveResult | app.js:828-862 | the outcome of a save, the two refusals first; SaveEffect states when each occurs |
| Catalog.Saved | app.js:828-862 | the catalog after a save; SaveEffect states it in every case |
| Catalog.ItemIdBound | app.js:855-860 | the bound is above every catalog id |
| Catalog.SaveEffect | app.js:828-868 | a blank name or a sell price of 0 is refused and changes nothing; a matching id updates that entry in place, keeping its id and all other entries; an unknown id changes nothing; an empty id appends one new entry |
| Catalog.UpsertKeepsIds | app.js:843-862 | a save keeps catalog ids unique and keeps them below the counter after it moves past the fresh id |
| Persistence.SaveCart | app.js:687-697 | the store after `saveCartToStorage`; SaveThenRestore and KeysAreIndependent state it |
| Persistence.SaveItems | app.js:758-764 | the store after `saveItemsToStorage`; SaveItemsThenRestore and KeysAreIndependent state it |
| Persistence.RestoredCart | app.js:699-716 | the cart that `loadCartFromStorage` restores; RestoreNeedsRecentSnapshot, SaveThenRestore and EmptyStoreRestoresNothing state it |
| Persistence.RestoredItems | app.js:743-756 | the catalog that `loadItemsFromStorage` restores; SaveItemsThenRestore and EmptyStoreRestoresNothing state it |
| Persistence.EmptyStoreRestoresNothing | app.js:699-716 | an empty store restores neither a cart nor a catalog |
| Persistence.SaveThenRestore | app.js:687-716 | a snapshot just written is restored iff it is less than 24 hours old |
| Persistence.RestoreNeedsRecentSnapshot | app.js:699-716 | the cart is restored to `lines` iff the cart key holds a snapshot of those lines with a timestamp under 24 hours old |
| Persistence.SaveItemsThenRestore | app.js:743-764 | a catalog just written is the catalog restored at the next start-up |
| Persistence.KeysAreIndependent | app.js:687-697 | writing the cart leaves the catalog and every other key untouched, and writing the catalog leaves the restored cart unchanged |
| Kasir.KasirApp.constructor | app.js:3-26 | start-up restores a recent cart and the stored catalog, keeps the store, and establishes the invariant |
| Kasir.KasirApp.LoadCartFromStorage | app.js:699-716 | the cart becomes the restored snapshot, or is left as it was |
| Kasir.KasirApp.LoadItemsFromStorage | app.js:743-756 | the catalog becomes the stored array, or is left as it was |
| Kasir.KasirApp.RefreshCartDisplay | app.js:327-357 | the cached total becomes the sum over the lines (0 for an empty cart) |
| Kasir.KasirApp.SaveCartToStorage | app.js:687-697 | the store gets the snapshot of the cart under the cart key, unless the store refuses writes |
| Kasir.KasirApp.PaymentPanel | app.js:446-473 | the payment panel of the current cart, total and field, as Payment.PaymentDisplay states; EnterReceived returns it |
| Kasir.KasirApp.AddItem | app.js:292-325 | a rejected form changes nothing and returns the validation; otherwise the cart becomes the merge or append of the trimmed name and parsed price, the outcome says which, and the cart is saved; the invariant is kept |
| Kasir.KasirApp.AddValidated | app.js:299-318 | the cart becomes the merge or append, only an append consumes a fresh id, the total is refreshed and the cart is saved |
| Kasir.KasirApp.IncreaseQuantity | app.js:408-416 | changed iff the id is present below 999; the cart becomes the increased cart; it is saved only when changed; the ceiling is kept |
| Kasir.KasirApp.DecreaseQuantity | app.js:418-426 | changed iff the id is present above 1; the cart becomes the decreased cart; it is saved only when changed; the ceiling is kept |
| Kasir.KasirApp.RemoveItem | app.js:428-440 | removal happens iff the id is present and it is confirmed; then every line with the id goes and the cart is saved; otherwise nothing changes |
| Kasir.KasirApp.ClearCart | app.js:475-493 | an empty cart is left alone; otherwise a confirmed clear empties the cart and the money field, zeroes the total and saves |
| Kasir.KasirApp.EnterReceived | app.js:183-190 | the field holds its formatted text, and the panel's received amount is the value of the kept digits |
| Kasir.KasirApp.PrintReceipt | app.js:495-640 | the result is exactly the two guards' verdict on the state before; only a produced receipt followed by "new transaction" empties and saves the cart |
| Kasir.KasirApp.SaveManageItem | app.js:828-868 | the outcome and the new catalog are those of the save function; only a rejection leaves the store alone; unique catalog ids stay unique |
| Kasir.KasirApp.UpsertItem | app.js:843-863 | an upsert updates the found entry in place, appends under a fresh id, or changes nothing for an unknown id, then saves the catalog |
| Kasir.KasirApp.FlushOnHide | app.js:161-167 | hiding the page saves the cart, then the catalog |
| Kasir.KopiForm | app.js:238-272 | the form "Kopi" / "15000" passes validation, showing the name "Kopi" and the price 15000 |
| Kasir.KopiMerge | app.js:300-313 | two adds of "Kopi" at 15000 make one line of quantity 2 with a total of 30000 |
| Kasir.KopiCart | app.js:292-325 | after the two adds, the cart has one line of two and a total of 30000 |
| Kasir.KopiTender | app.js:183-190 | tendering "50000" leaves the cart, the total and the invariant alone, and the field then reads as 50000 |
| Kasir.KopiSale | app.js:495-508 | the sale passes both guards with a total of 30000 and change of 20000 |

## Left out

- DOM work is not modelled. This covers element lookup, event binding, HTML rendering, error and success messages, and keyboard shortcuts. The model returns values (`Validation`, `PaymentView`, `PrintButton`) where the code writes to the page.
- Receipt PDF generation with jsPDF, the `setTimeout` sequencing and locale date strings are not modelled: they are a foreign library, timing and locale. Whether a receipt was produced is the `rendered` parameter of `PrintReceipt`.
- The earnings ledger is not part of this model. This covers `recordSaleEarning`, the weekly and monthly totals, manual income and its table. `PrintReceipt` and `FlushOnHide` leave it out.
- `escapeHtml`, the theme, the service worker, and the catalog table's `editItem` and `selectItemToInput` are page plumbing, so they are not modelled.
- `deleteItem` (app.js:881-890) is not modelled. It removes an entry from the catalog and saves it, but it lies outside the catalog part this model covers, which is `saveManageItem` alone.
- The code's `Date.now() + Math.random()` ids are replaced by a counter, `nextId`. It starts above every restored id. What is proved is that every id it hands out is above every cart and catalog id (`Valid()`), and that an add keeps ids unique in a cart that starts well formed (Cart.AddedLineWellFormed); the code has fresh ids only with high probability. A restored cart may already hold repeated ids, and the model does not make them unique.
- `localStorage` is a map from key to parsed value. `Garbled` stands for text that `JSON.parse` rejects; that failure is swallowed. A write the browser refuses is swallowed too. Whether writes succeed is `storageWritable`, fixed for the whole session: the model does not capture a quota failure that refuses some writes and lets later ones through (app.js:694, app.js:761). A numeric timestamp is `Some(t)`. `None` stands for a timestamp that is absent or whose age comes out as NaN; such a snapshot is never restored. JavaScript coerces some other JSON values to numbers when it computes the age (app.js:706), such as a numeric string or null. The model does not represent those timestamps, and the code can restore a snapshot that holds one.
- Money.FormatCurrencyInput: `toLocaleString('id-ID')` (app.js:187) is modelled as the same dot grouping every three digits that `formatCurrency` uses. The model leaves out the locale data that defines this grouping.
- Numbers are exact integers. JavaScript numbers are doubles; they agree with the model below 2^53, which covers every amount the 12-digit fields and the 99,999,999 price cap allow. Totals of very large carts are not bounded by the model.
- Name lengths count code points. JavaScript's `length` counts UTF-16 code units, so a name with characters outside the Basic Multilingual Plane is longer in the code than in the model.
- Text.LowerChar: lowercases only A-Z and the Latin-1 capitals. The full Unicode case mapping of `toLowerCase` is not modelled.
- Restored cart lines are taken as they are stored, as the code takes them. Only lines added through the form are known to be valid. The well-formedness results are therefore conditional (`WellFormed(lines) ==> ...`).
- The merge path of `addItem` has no 999 ceiling in the code (app.js:304-305). A merge into a line already at 999 gives 1000. The model follows the code, and Cart.AddedLineCeiling states the condition exactly.
- Kasir.KasirApp.AddItem, Kasir.KasirApp.AddValidated, Kasir.KasirApp.IncreaseQuantity, Kasir.KasirApp.DecreaseQuantity, Kasir.KasirApp.RemoveItem: the method contracts do not restate well-formedness. It follows from the method's `cart == AddedLine(...)` (or `Incremented`, `Decremented`, `Removed`) together with the matching lemma in `Cart` (AddedLineWellFormed, IncrementedKeepsInvariants, DecrementedKeepsInvariants, RemovedKeepsInvariants). Stating it again on the method unfolds the pairwise name comparison in the middle of the heap reasoning.
- Resetting the item form's inputs and focusing a field after each action are not modelled. The `validateInputs` call on blur (app.js:204) is also not modelled: its only effect is on display.
