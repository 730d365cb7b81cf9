# Shipping inventory and shipping labels, in Dafny

This project models the core of two small Java tools and proves properties of the models.

**The inventory manager** keeps a map from item number to item. Each item has:

- a list of physical inventory locations (PILs): building, aisle and an optional slot;
- an optional quantity.

The tool reads this map from CSV lines and changes it with CSV batches:

- `loadInventory` replaces the map;
- `updateLocations` and `updateQuantity` add, delete or update items line by line.

It writes the map back out with `saveInventory` (map order) or `exportInventory` (ascending id order). Every batch checks the building of each location against a fixed set of registered buildings.

**The label creator** turns an order into a LaTeX document. The document has:

- for every item, one `\vbox` section per box number from 1 up to the item's box count, not including it;
- in each section, a `tabularx` address table (sender beside destination, address line by address line);
- after the table, the P/O line, the department line and the "Box *i* OF *n*" line.

Modules follow the Java files:

- `JavaString`: the `String` operations the code relies on, as Java defines them, with the exceptions listed under "Left out". These are `split`, `trim`, `toLowerCase`, `equalsIgnoreCase`, `replaceAll`, `Integer.parseInt` and `toString`, `compareTo` (by code point, see below), and truncating `int` division.
- `InventoryItem`: `Item` and `PIL` as values, and `toCSVRow`.
- `InventoryParse`: `isOptionalValue`, `parseLocationString`, `parseInventoryLine`, `parseItemLocations` and `parseItemQuantity`.
- `InventoryBatch`: the per-row rules of the three batch methods, and their fold over the rows. Proved here:
  - error order;
  - last write wins;
  - no rollback;
  - the invariants every batch keeps.
- `InventoryStore`: the `Inventory` class, whose methods update the map field in place; save, export and `getItem`.
- `LatexElement`: `writeLine` on a `StringBuffer`, `CData` and `Row`, and the text of tables and sections.
- `LatexContainers`: the `Table`, `Section` and `LatexDocument` classes.
- `LabelItem`, `LabelOrder`: the label `Item`, and `Order` with its `Builder`.
- `LabelLatex`: `createTableContents`, `createPOAndDept` and the section loop of `generateLatex`.

**How exceptions are modelled.**

- An exception that ends a batch is an `Aborted` outcome. The map keeps every change made before it.
- An exception in the label code makes the result `None`.

## Model

| member | source | states |
|---|---|---|
| JavaString.Split | shipping-inventory-manager/src/main/java/com/zingkg/shippinginventorymanager/Inventory.java:52 | no piece holds the separator, and a text without the separator splits into itself alone |
| JavaString.SplitCount | shipping-inventory-manager/src/main/java/com/zingkg/shippinginventorymanager/Inventory.java:334 | `split` gives at most one piece more than the separator occurs |
| JavaString.SplitJoin | shipping-inventory-manager/src/main/java/com/zingkg/shippinginventorymanager/Inventory.java:334 | `split` gives back the pieces of a join when no piece holds the separator and the last piece is not empty |
| JavaString.TrimPadded | shipping-inventory-manager/src/main/java/com/zingkg/shippinginventorymanager/Inventory.java:334 | `trim` removes exactly the blank padding around a text whose two ends are not blank |
| JavaString.Trim | shipping-inventory-manager/src/main/java/com/zingkg/shippinginventorymanager/Inventory.java:334 | neither end of the result is blank |
| JavaString.TrimBlank | shipping-inventory-manager/src/main/java/com/zingkg/shippinginventorymanager/Inventory.java:334 | the result is never longer than the text, and it is empty exactly when every character of the text is blank |
| JavaString.TrimCount | shipping-inventory-manager/src/main/java/com/zingkg/shippinginventorymanager/Inventory.java:334 | trimming never adds an occurrence of any character |
| JavaString.LowerAscii | shipping-inventory-manager/src/main/java/com/zingkg/shippinginventorymanager/Inventory.java:43-45 | the result has the same length, and each character is the input character lower-cased |
| JavaString.ReplaceAll | shipping-inventory-manager/src/main/java/com/zingkg/shippinginventorymanager/Inventory.java:332 | a text without the pattern's first character comes back unchanged, and a replacement as long as the pattern keeps the text's length |
| JavaString.ParseIntToString | shipping-inventory-manager/src/main/java/com/zingkg/shippinginventorymanager/Inventory.java:318 | `Integer.parseInt` reads back every 32-bit value that `toString` writes |
| JavaString.IntToString | shipping-inventory-manager/src/main/java/com/zingkg/shippinginventorymanager/Item.java:39-40 | a minus sign exactly when the number is negative; never empty, never a lone sign, and always ends in a digit |
| JavaString.IntToStringDigits | shipping-inventory-manager/src/main/java/com/zingkg/shippinginventorymanager/Item.java:39-40 | after the optional minus sign, only digits |
| JavaString.ParseInt | shipping-inventory-manager/src/main/java/com/zingkg/shippinginventorymanager/Inventory.java:318 | only an optional sign followed by at least one digit parses; a negative value needs a minus sign; a sign and at most nine digits always parse |
| JavaString.JavaDiv | shipping-label-creator/src/main/java/com/zingkg/latex/LatexDocument.java:40 | `int` division rounds toward zero: the remainder is smaller than the divisor and has the sign of the dividend |
| JavaString.StrLe | shipping-inventory-manager/src/main/java/com/zingkg/shippinginventorymanager/Inventory.java:262 | a text comes before every text it is a prefix of, and of two ordered texts the first characters are in order, compared as code points |
| JavaString.SortedKeys | shipping-inventory-manager/src/main/java/com/zingkg/shippinginventorymanager/Inventory.java:262 | every key once and only keys, in strictly ascending order, comparing characters as code points |
| InventoryItem.Item.UpdateLocations | shipping-inventory-manager/src/main/java/com/zingkg/shippinginventorymanager/Item.java:59-61 | a new item with the given locations and the same id and quantity |
| InventoryItem.Item.UpdateQuantity | shipping-inventory-manager/src/main/java/com/zingkg/shippinginventorymanager/Item.java:63-65 | a new item with the given quantity and the same id and locations |
| InventoryItem.ToCsvRow | shipping-inventory-manager/src/main/java/com/zingkg/shippinginventorymanager/Item.java:23-45 | the row starts with the id and a comma, and never ends with a comma, since the quantity field is never empty |
| InventoryItem.ToCsvRowFields | shipping-inventory-manager/src/main/java/com/zingkg/shippinginventorymanager/Item.java:23-45 | a row whose id and locations hold no comma splits back into exactly id, location field and quantity field |
| InventoryParse.ParsePil | shipping-inventory-manager/src/main/java/com/zingkg/shippinginventorymanager/Inventory.java:333-349 | a location fails, with the location-format error, exactly when its trimmed text cuts at '.' into fewer than three parts |
| InventoryParse.ParsePilFewDots | shipping-inventory-manager/src/main/java/com/zingkg/shippinginventorymanager/Inventory.java:334-337 | a location with fewer than two '.' (such as `1` or `1.1`) fails |
| InventoryParse.LocationFieldFewDots | shipping-inventory-manager/src/main/java/com/zingkg/shippinginventorymanager/Inventory.java:330-337 | a location field that is a single location without space or 'y' and with fewer than two '.' fails as a whole |
| InventoryParse.ParsePilIgnoresExtraParts | shipping-inventory-manager/src/main/java/com/zingkg/shippinginventorymanager/Inventory.java:334-348 | a location with a fourth part reads the same as its first three parts |
| InventoryParse.IsOptionalValue | shipping-inventory-manager/src/main/java/com/zingkg/shippinginventorymanager/Inventory.java:309-311 | a field is optional exactly when it is what `toCSVRow` writes for no location, and for no quantity; such a field never parses as a number |
| InventoryParse.CollectAt | shipping-inventory-manager/src/main/java/com/zingkg/shippinginventorymanager/Item.java:17-19 | collecting the parse results succeeds exactly when every result does; the i-th value is then the i-th result's |
| InventoryParse.ParsePilsAt | shipping-inventory-manager/src/main/java/com/zingkg/shippinginventorymanager/Inventory.java:331-349 | the pieces of a location field parse exactly when each piece does; the i-th location is then the i-th piece's |
| InventoryParse.ParseLocationString | shipping-inventory-manager/src/main/java/com/zingkg/shippinginventorymanager/Inventory.java:327-351 | `-` gives no location; a failure is always the location-format error |
| InventoryParse.ParseQuantity | shipping-inventory-manager/src/main/java/com/zingkg/shippinginventorymanager/Inventory.java:314-318 | `-` gives no quantity; otherwise the value is `parseInt`'s, and a failure is always the number-format error |
| InventoryParse.ParseInventoryLine | shipping-inventory-manager/src/main/java/com/zingkg/shippinginventorymanager/Inventory.java:313-325 | a bad quantity wins over a bad location; a success keeps the id and holds the parsed quantity and locations |
| InventoryParse.ParseItemLocations | shipping-inventory-manager/src/main/java/com/zingkg/shippinginventorymanager/Inventory.java:353-359 | an item with the id, the parsed locations and no quantity, or the location-format error |
| InventoryParse.ParseItemQuantity | shipping-inventory-manager/src/main/java/com/zingkg/shippinginventorymanager/Inventory.java:361-368 | an item with the id, the parsed quantity and no location, or the number-format error |
| InventoryParse.PilRoundTrip | shipping-inventory-manager/src/main/java/com/zingkg/shippinginventorymanager/Item.java:28-35 | the text of a location, with any blanks around it, parses back into the same location |
| InventoryParse.LocationFieldRoundTrip | shipping-inventory-manager/src/main/java/com/zingkg/shippinginventorymanager/Item.java:24-37 | the " Y "-joined location field parses back into the same list of locations, in order |
| InventoryParse.QuantityRoundTrip | shipping-inventory-manager/src/main/java/com/zingkg/shippinginventorymanager/Item.java:38-42 | the quantity field parses back into the same optional quantity |
| InventoryParse.CsvRowRoundTrip | shipping-inventory-manager/src/main/java/com/zingkg/shippinginventorymanager/Item.java:23-45 | `toCSVRow`, then `split(",")` and `parseInventoryLine`, gives back the same item |
| InventoryBatch.LoadRun | shipping-inventory-manager/src/main/java/com/zingkg/shippinginventorymanager/Inventory.java:38-94 | no line changes nothing and records nothing; a wrong header records one error and keeps the map |
| InventoryBatch.LoadAsWritten | shipping-inventory-manager/src/main/java/com/zingkg/shippinginventorymanager/Inventory.java:35-41 | as written, every non-empty load throws on removing the header, and the map is unchanged |
| InventoryBatch.LoadHeaderRemovalDiscrepancy | shipping-inventory-manager/src/main/java/com/zingkg/shippinginventorymanager/Inventory.java:35-41 | on the saved header line alone, the load as written throws while the corrected load finishes |
| InventoryBatch.HeaderOnlyLoad | shipping-inventory-manager/src/main/java/com/zingkg/shippinginventorymanager/Inventory.java:41-48 | the header `saveInventory` writes starts a load, and alone it leaves an empty map and no error |
| InventoryBatch.InventoryHeaderIsHeader | shipping-inventory-manager/src/main/java/com/zingkg/shippinginventorymanager/Inventory.java:272 | `INVENTORY_HEADER` passes the load's header test |
| InventoryBatch.IsHeader | shipping-inventory-manager/src/main/java/com/zingkg/shippinginventorymanager/Inventory.java:41-45 | a header has at least three fields, the first three equal, ignoring case, to "item number" and the two expected words; for lower-case words the converse holds, and further fields are ignored |
| InventoryBatch.KnownLocations | shipping-inventory-manager/src/main/java/com/zingkg/shippinginventorymanager/Inventory.java:244-248 | the locations pass exactly when every one of them is in a registered building; no location at all always passes |
| InventoryBatch.LoadStep | shipping-inventory-manager/src/main/java/com/zingkg/shippinginventorymanager/Inventory.java:49-88 | only a bad quantity throws; every error is on the row's line; a row never removes an item, and a row that changes the map records at most the duplicate warning |
| InventoryBatch.LoadShortRow | shipping-inventory-manager/src/main/java/com/zingkg/shippinginventorymanager/Inventory.java:53-60 | a load row with fewer than three fields records "has errors" and "invalid format" for its line, and changes nothing |
| InventoryBatch.LoadBadLocationRow | shipping-inventory-manager/src/main/java/com/zingkg/shippinginventorymanager/Inventory.java:61-74 | a load row whose quantity parses but whose locations do not records exactly one "invalid format" error for its line and changes nothing |
| InventoryBatch.LoadFewDotsRow | shipping-inventory-manager/src/main/java/com/zingkg/shippinginventorymanager/Inventory.java:61-74 | a load row whose single location has fewer than two '.' and whose quantity parses records exactly one "invalid format" error and changes nothing |
| InventoryBatch.LoadUnknownBuildingRow | shipping-inventory-manager/src/main/java/com/zingkg/shippinginventorymanager/Inventory.java:61-67 | a load row that parses but names an unregistered building records exactly one "unknown building" error for its line and changes nothing |
| InventoryBatch.AcceptedStep | shipping-inventory-manager/src/main/java/com/zingkg/shippinginventorymanager/Inventory.java:81-87 | an accepted load row puts its item under its id, with the duplicate warning exactly when the id was already there |
| InventoryBatch.PutAllLookup | shipping-inventory-manager/src/main/java/com/zingkg/shippinginventorymanager/Inventory.java:78-88 | after the puts, a key is present exactly when it was before or some item has it; its value is the last such item |
| InventoryBatch.LoadContents | shipping-inventory-manager/src/main/java/com/zingkg/shippinginventorymanager/Inventory.java:49-88 | a finished load's map is the start map with the accepted rows' items put in file order |
| InventoryBatch.LoadLastWriteWins | shipping-inventory-manager/src/main/java/com/zingkg/shippinginventorymanager/Inventory.java:46-88 | after a finished load, an id is present exactly when an accepted row carries it, and it maps to the last such row's item |
| InventoryBatch.LoadErrorsInOrder | shipping-inventory-manager/src/main/java/com/zingkg/shippinginventorymanager/Inventory.java:46-95 | a finished load's errors are in file-line order, each on a line of the file |
| InventoryBatch.UpdateRun | shipping-inventory-manager/src/main/java/com/zingkg/shippinginventorymanager/Inventory.java:100-107 | no line at all throws; a wrong header records one error and leaves the map unchanged |
| InventoryBatch.UpdateErrorsInOrder | shipping-inventory-manager/src/main/java/com/zingkg/shippinginventorymanager/Inventory.java:107-161 | a finished update's errors are in file-line order, each on a line of the file |
| InventoryBatch.UpdateStep | shipping-inventory-manager/src/main/java/com/zingkg/shippinginventorymanager/Inventory.java:109-153 | an exception a row throws names that row's line; a row records at most one error, on its own line, and a row that records one changes nothing |
| InventoryBatch.Apply | shipping-inventory-manager/src/main/java/com/zingkg/shippinginventorymanager/Inventory.java:123-143 | a known operation never throws and touches no entry but the row's id; `delete` removes the id; an error, changing nothing, is recorded exactly when `update` names an id that is not stored |
| InventoryBatch.Merge | shipping-inventory-manager/src/main/java/com/zingkg/shippinginventorymanager/Inventory.java:164-169 | the stored item with the row's locations (or, for the quantity batch, its quantity) replaced, and its id and other field kept |
| InventoryBatch.Fold | shipping-inventory-manager/src/main/java/com/zingkg/shippinginventorymanager/Inventory.java:109-154 | no rows at all finish with no error and the map unchanged; only a row throws |
| InventoryBatch.StepErrorLines | shipping-inventory-manager/src/main/java/com/zingkg/shippinginventorymanager/Inventory.java:109-153 | every error a row records carries that row's line number |
| InventoryBatch.FoldErrorsInOrder | shipping-inventory-manager/src/main/java/com/zingkg/shippinginventorymanager/Inventory.java:108-154 | when each row's errors carry its own number, the errors of the rows come in row order |
| InventoryBatch.RowsErrorsInOrder | shipping-inventory-manager/src/main/java/com/zingkg/shippinginventorymanager/Inventory.java:108-154 | the errors of the rows of any batch come in row order, within the rows' line numbers |
| InventoryBatch.FoldAppend | shipping-inventory-manager/src/main/java/com/zingkg/shippinginventorymanager/Inventory.java:109-154 | running the rows `front + back` is running `front`, then `back` on the map it left, unless `front` throws |
| InventoryBatch.NoRollback | shipping-inventory-manager/src/main/java/com/zingkg/shippinginventorymanager/Inventory.java:109-154 | a batch that throws is stopped by its first throwing row, and the map keeps every change the rows before it made |
| InventoryBatch.RunRows | shipping-inventory-manager/src/main/java/com/zingkg/shippinginventorymanager/Inventory.java:108-154 | the loop over the rows after the header, numbered from 2, computes the fold of the row rule |
| InventoryBatch.ApplyKeepsInvariants | shipping-inventory-manager/src/main/java/com/zingkg/shippinginventorymanager/Inventory.java:122-146 | a known operation stores items only under their own id, and only in registered buildings |
| InventoryBatch.StepKeepsInvariants | shipping-inventory-manager/src/main/java/com/zingkg/shippinginventorymanager/Inventory.java:109-153 | a row that finishes keeps ids as keys and every location in a registered building |
| InventoryBatch.RowsKeepInvariants | shipping-inventory-manager/src/main/java/com/zingkg/shippinginventorymanager/Inventory.java:244-252 | every batch, finished or thrown, keeps ids as keys and every location in a registered building |
| InventoryBatch.UnloadedStep | shipping-inventory-manager/src/main/java/com/zingkg/shippinginventorymanager/Inventory.java:122-152 | before any load, an update row that finishes leaves the map as it was |
| InventoryBatch.UnloadedRowsChangeNothing | shipping-inventory-manager/src/main/java/com/zingkg/shippinginventorymanager/Inventory.java:122-152 | before any load, an update batch leaves the map as it was |
| InventoryBatch.RowsConsistent | shipping-inventory-manager/src/main/java/com/zingkg/shippinginventorymanager/Inventory.java:21 | every batch keeps the object invariant: no map means no items, ids are keys, locations are in registered buildings |
| InventoryBatch.UpdateRowFrame | shipping-inventory-manager/src/main/java/com/zingkg/shippinginventorymanager/Inventory.java:122-146 | an update row that finishes touches no entry but its own id |
| InventoryBatch.DeleteRow | shipping-inventory-manager/src/main/java/com/zingkg/shippinginventorymanager/Inventory.java:131-133 | `delete` removes the id, present or not, with no error and no building check |
| InventoryBatch.AddRow | shipping-inventory-manager/src/main/java/com/zingkg/shippinginventorymanager/Inventory.java:124-130 | `add` on a stored id replaces only the row's field and keeps the other; on a new id it stores the row's item |
| InventoryBatch.UpdateMissingRow | shipping-inventory-manager/src/main/java/com/zingkg/shippinginventorymanager/Inventory.java:134-143 | `update` of an id that is not stored records "invalid item number" on its line and changes nothing |
| InventoryBatch.UnknownOperationRow | shipping-inventory-manager/src/main/java/com/zingkg/shippinginventorymanager/Inventory.java:144-146 | an operation other than add, delete or update throws "Bad action" with the operation as written |
| InventoryBatch.ShortUpdateRow | shipping-inventory-manager/src/main/java/com/zingkg/shippinginventorymanager/Inventory.java:113-120 | an update row with fewer than three fields throws |
| InventoryBatch.QuantityErrors | shipping-inventory-manager/src/main/java/com/zingkg/shippinginventorymanager/Inventory.java:193-225 | a quantity batch only ever records "invalid item number", since its items have no location |
| InventoryBatch.QuantityHeaderIsHeader | shipping-inventory-manager/src/main/java/com/zingkg/shippinginventorymanager/Inventory.java:273 | the quantity update header passes the quantity update's header test |
| InventoryBatch.QuantityOutcome | shipping-inventory-manager/src/main/java/com/zingkg/shippinginventorymanager/Inventory.java:234 | as written, `updateQuantity` returns no error unless it throws |
| InventoryBatch.QuantityErrorsDiscarded | shipping-inventory-manager/src/main/java/com/zingkg/shippinginventorymanager/Inventory.java:207-234 | a row updating an unknown id records an error, yet `updateQuantity` as written returns none |
| InventoryStore.Inventory.constructor | shipping-inventory-manager/src/main/java/com/zingkg/shippinginventorymanager/Inventory.java:23-31 | registers the buildings and loads the lines; the map exists exactly when the lines start with a header |
| InventoryStore.Inventory.ApplyRows | shipping-inventory-manager/src/main/java/com/zingkg/shippinginventorymanager/Inventory.java:108-154 | the map field becomes the fold of the rows, also when a row throws, and the object invariant holds |
| InventoryStore.Inventory.LoadInventory | shipping-inventory-manager/src/main/java/com/zingkg/shippinginventorymanager/Inventory.java:33-96 | the outcome and the new map are the load's, and the map exists once a header has been read |
| InventoryStore.Inventory.UpdateLocations | shipping-inventory-manager/src/main/java/com/zingkg/shippinginventorymanager/Inventory.java:98-162 | the outcome and the new map are those of the location update batch, and the object invariant holds |
| InventoryStore.Inventory.UpdateQuantity | shipping-inventory-manager/src/main/java/com/zingkg/shippinginventorymanager/Inventory.java:171-235 | the outcome and the new map are those of the quantity update batch (corrected: its errors are returned) |
| InventoryStore.Inventory.GetItem | shipping-inventory-manager/src/main/java/com/zingkg/shippinginventorymanager/Inventory.java:268-270 | an item exactly when the id is stored; it is the stored item and carries that id |
| InventoryStore.Inventory.SaveInventory | shipping-inventory-manager/src/main/java/com/zingkg/shippinginventorymanager/Inventory.java:254-258 | the header, then, for each key of the iteration order in turn, the CSV row of the item stored under it |
| InventoryStore.Inventory.ExportInventory | shipping-inventory-manager/src/main/java/com/zingkg/shippinginventorymanager/Inventory.java:260-266 | the header, then the rows save would write in ascending key order, each followed by a line feed |
| InventoryStore.SaveRows | shipping-inventory-manager/src/main/java/com/zingkg/shippinginventorymanager/Inventory.java:254-258 | the header first, then exactly one row per item |
| InventoryStore.SaveRowsAt | shipping-inventory-manager/src/main/java/com/zingkg/shippinginventorymanager/Inventory.java:256 | row i after the header is the CSV row of the item under the i-th key of the iteration order |
| InventoryStore.SaveRowsComplete | shipping-inventory-manager/src/main/java/com/zingkg/shippinginventorymanager/Inventory.java:254-258 | every item of the map has its CSV row among the saved rows |
| InventoryStore.SortedItemsContents | shipping-inventory-manager/src/main/java/com/zingkg/shippinginventorymanager/Inventory.java:262 | every item of the map is among the sorted items, and they come in strictly ascending id order |
| InventoryStore.ExportRows | shipping-inventory-manager/src/main/java/com/zingkg/shippinginventorymanager/Inventory.java:260-266 | the header first, then exactly one row per item |
| InventoryStore.ExportIsSortedSave | shipping-inventory-manager/src/main/java/com/zingkg/shippinginventorymanager/Inventory.java:260-266 | export is save in ascending key order, with a line feed after each item row |
| InventoryStore.WithNewlines | shipping-inventory-manager/src/main/java/com/zingkg/shippinginventorymanager/Inventory.java:263 | the same rows, in order, each followed by a line feed |
| LabelItem.NewItem | shipping-label-creator/src/main/java/com/zingkg/shippinglabelcreator/Item.java:35-43 | the texts are kept; a positive box count is kept and any other becomes 0 |
| LabelItem.Label | shipping-label-creator/src/main/java/com/zingkg/shippinglabelcreator/Item.java:47-53 | the label is the number, the details or the notes; the number when there is one; empty exactly when all three are |
| LabelItem.LabelChoice | shipping-label-creator/src/main/java/com/zingkg/shippinglabelcreator/Item.java:47-53 | the label is the first non-empty of number, details and notes, and is empty only when all three are |
| LabelItem.ToString | shipping-label-creator/src/main/java/com/zingkg/shippinglabelcreator/Item.java:45-56 | the text is the label followed by `" - " + boxes + " boxes"` |
| LabelOrder.Builder.constructor | shipping-label-creator/src/main/java/com/zingkg/shippinglabelcreator/Order.java:139-173 | a new builder has every field unset |
| LabelOrder.Builder.SetName | shipping-label-creator/src/main/java/com/zingkg/shippinglabelcreator/Order.java:180-182 | sets the name and nothing else |
| LabelOrder.Builder.SetAddress | shipping-label-creator/src/main/java/com/zingkg/shippinglabelcreator/Order.java:189-191 | sets the address and nothing else |
| LabelOrder.Builder.SetCity | shipping-label-creator/src/main/java/com/zingkg/shippinglabelcreator/Order.java:198-200 | sets the city and nothing else |
| LabelOrder.Builder.SetZipCode | shipping-label-creator/src/main/java/com/zingkg/shippinglabelcreator/Order.java:207-209 | sets the zip code and nothing else |
| LabelOrder.Builder.SetItems | shipping-label-creator/src/main/java/com/zingkg/shippinglabelcreator/Order.java:216-220 | sets the items, in stream order, and nothing else |
| LabelOrder.Builder.SetPO | shipping-label-creator/src/main/java/com/zingkg/shippinglabelcreator/Order.java:227-229 | sets the P/O number and nothing else |
| LabelOrder.Builder.SetDeptNo | shipping-label-creator/src/main/java/com/zingkg/shippinglabelcreator/Order.java:236-238 | sets the department number and nothing else |
| LabelOrder.Builder.Build | shipping-label-creator/src/main/java/com/zingkg/shippinglabelcreator/Order.java:245-247 | an order exactly when every field is set, holding the value each setter was last given |
| LabelOrder.BuildFrom | shipping-label-creator/src/main/java/com/zingkg/shippinglabelcreator/Order.java:139-247 | any sequence of setter calls on a new builder, then `build`, gives the order of the last value passed to each setter, or nothing when a setter was never called |
| LabelOrder.SwapCalls | shipping-label-creator/src/main/java/com/zingkg/shippinglabelcreator/Order.java:180-238 | two neighbouring setter calls on different fields can be made in either order: the order built is the same |
| LabelOrder.LaterCallOverrides | shipping-label-creator/src/main/java/com/zingkg/shippinglabelcreator/Order.java:180-238 | a setter call overrides every earlier call of the same setter and leaves the other fields as they were |
| LabelOrder.LastTextSome | shipping-label-creator/src/main/java/com/zingkg/shippinglabelcreator/Order.java:180-238 | a text field is set exactly when some call of its setter was made |
| LatexElement.WriteLine | shipping-label-creator/src/main/java/com/zingkg/latex/LatexElement.java:10-13 | the buffer becomes its old text, then the text, then a line feed |
| LatexElement.LinesConcat | shipping-label-creator/src/main/java/com/zingkg/latex/LatexElement.java:10-13 | writing two lists of lines one after the other writes their concatenation |
| LatexElement.LinesLength | shipping-label-creator/src/main/java/com/zingkg/latex/LatexElement.java:10-13 | the written text is exactly as long as all the lines together plus one line feed per line |
| LatexElement.RowVerbatim | shipping-label-creator/src/main/java/com/zingkg/latex/Row.java:12-15 | a `Row` writes both columns unescaped, at fixed offsets between the fixed markup |
| LatexElement.Render | shipping-label-creator/src/main/java/com/zingkg/latex/CData.java:10-12 | a `CData` is its data unchanged; a table or a section is whole lines, the table's first line its `tabularx` begin line, the section's first line `\vbox{` |
| LatexElement.TableText | shipping-label-creator/src/main/java/com/zingkg/latex/Table.java:28-35 | a table is the `tabularx` begin line, one line per element in order, and the end line |
| LatexElement.SectionText | shipping-label-creator/src/main/java/com/zingkg/latex/Section.java:30-43 | a section opens `\vbox` and `center`, writes its elements in order, adds the rule exactly when asked, and closes both |
| LatexContainers.Table.constructor | shipping-label-creator/src/main/java/com/zingkg/latex/Table.java:12-14 | a new table has no element |
| LatexContainers.Table.AddElement | shipping-label-creator/src/main/java/com/zingkg/latex/Table.java:16-18 | appends the element after the existing ones |
| LatexContainers.Table.AddAllElements | shipping-label-creator/src/main/java/com/zingkg/latex/Table.java:20-26 | appends the elements, in stream order, after the existing ones |
| LatexContainers.Table.ToString | shipping-label-creator/src/main/java/com/zingkg/latex/Table.java:28-35 | the text is the table element's rendering: begin line, one line per element, end line |
| LatexContainers.Section.constructor | shipping-label-creator/src/main/java/com/zingkg/latex/Section.java:13-16 | a new section has no element and keeps the rule flag |
| LatexContainers.Section.AddElement | shipping-label-creator/src/main/java/com/zingkg/latex/Section.java:18-20 | appends the element after the existing ones |
| LatexContainers.Section.AddAllElements | shipping-label-creator/src/main/java/com/zingkg/latex/Section.java:22-28 | appends the elements, in stream order, after the existing ones |
| LatexContainers.Section.ToString | shipping-label-creator/src/main/java/com/zingkg/latex/Section.java:30-43 | the text is the section element's rendering, written into a fresh buffer |
| LatexContainers.Epilogue | shipping-label-creator/src/main/java/com/zingkg/latex/LatexDocument.java:38-48 | the font line, `\selectfont`, one line per element in order, `}` and `\end{document}` |
| LatexContainers.EpilogueWritten | shipping-label-creator/src/main/java/com/zingkg/latex/LatexDocument.java:40-46 | the writes of `toString` append exactly the lines of the epilogue |
| LatexContainers.LatexDocument.constructor | shipping-label-creator/src/main/java/com/zingkg/latex/LatexDocument.java:14-24 | a fresh buffer holding the five preamble lines, no element, and the font size |
| LatexContainers.LatexDocument.SetFontSize | shipping-label-creator/src/main/java/com/zingkg/latex/LatexDocument.java:26-28 | only the font size changes |
| LatexContainers.LatexDocument.AddAllElements | shipping-label-creator/src/main/java/com/zingkg/latex/LatexDocument.java:30-36 | appends the elements, in stream order, after the existing ones |
| LatexContainers.LatexDocument.WriteElements | shipping-label-creator/src/main/java/com/zingkg/latex/LatexDocument.java:43 | appends one line per element, in order, to the buffer |
| LatexContainers.LatexDocument.ToString | shipping-label-creator/src/main/java/com/zingkg/latex/LatexDocument.java:38-48 | appends the epilogue to the persistent buffer and returns the whole buffer |
| LatexContainers.FirstText | shipping-label-creator/src/main/java/com/zingkg/latex/LatexDocument.java:19-46 | a fresh document's first text opens with the `\documentclass` line and closes with the `\end{document}` line |
| LatexContainers.SecondCallExtends | shipping-label-creator/src/main/java/com/zingkg/latex/LatexDocument.java:38-48 | `toString` is not idempotent: a second call returns the first text followed by more |
| LatexContainers.ToStringTwice | shipping-label-creator/src/main/java/com/zingkg/latex/LatexDocument.java:38-48 | the first of two `toString` calls returns a proper prefix of the second |
| LabelLatex.FurtherAddressRows | shipping-label-creator/src/main/java/com/zingkg/shippinglabelcreator/Latex.java:54-56 | one row per address line after the first, in order, each with an empty left column |
| LabelLatex.AddressTableLayout | shipping-label-creator/src/main/java/com/zingkg/shippinglabelcreator/Latex.java:49-70 | names, then the sender's address beside the first line, then further lines, then cities and item; notes only when not empty |
| LabelLatex.TableContents | shipping-label-creator/src/main/java/com/zingkg/shippinglabelcreator/Latex.java:51-53 | building the table throws exactly when the address splits into no line |
| LabelLatex.CreateTableContents | shipping-label-creator/src/main/java/com/zingkg/shippinglabelcreator/Latex.java:49-70 | a new table holding the address table's elements, or `None` exactly when the address has no line |
| LabelLatex.AddressTable | shipping-label-creator/src/main/java/com/zingkg/shippinglabelcreator/Latex.java:49-70 | one element per address line plus the names, the cities and the item, plus the notes when there are some; only text lines and rows |
| LabelLatex.POAndDeptLayout | shipping-label-creator/src/main/java/com/zingkg/shippinglabelcreator/Latex.java:72-98 | two to five elements: small space first, box line last, P/O, department and large space in between when present |
| LabelLatex.POAndDept | shipping-label-creator/src/main/java/com/zingkg/shippinglabelcreator/Latex.java:72-98 | two to five elements, all plain text lines, the small space first and the box line last |
| LabelLatex.PoLineWritten | shipping-label-creator/src/main/java/com/zingkg/shippinglabelcreator/Latex.java:81-84 | the P/O line is written exactly when there is a P/O number |
| LabelLatex.DeptLineWritten | shipping-label-creator/src/main/java/com/zingkg/shippinglabelcreator/Latex.java:86-89 | the department line is written exactly when there is a department number |
| LabelLatex.LargeSpaceWritten | shipping-label-creator/src/main/java/com/zingkg/shippinglabelcreator/Latex.java:80-92 | the large space is written exactly when a P/O or a department number is |
| LabelLatex.POAndDeptLines | shipping-label-creator/src/main/java/com/zingkg/shippinglabelcreator/Latex.java:72-98 | the three conditional lines, each written exactly under its condition |
| LabelLatex.ItemSections | shipping-label-creator/src/main/java/com/zingkg/shippinglabelcreator/Latex.java:31-38 | no section for at most one box; otherwise one per box but the last, or `None` exactly when the table throws |
| LabelLatex.ItemSectionsAt | shipping-label-creator/src/main/java/com/zingkg/shippinglabelcreator/Latex.java:31-38 | an item's j-th section is the one for box j + 1, holding the item's table |
| LabelLatex.BoxSection | shipping-label-creator/src/main/java/com/zingkg/shippinglabelcreator/Latex.java:31-38 | a section drawing the rule as the settings say, with the item's table first and its box line last, three to six elements in all |
| LabelLatex.CreateSection | shipping-label-creator/src/main/java/com/zingkg/shippinglabelcreator/Latex.java:31-38 | a new section holding a new address table and the P/O, department and box lines of that box |
| LabelLatex.CreateItemSections | shipping-label-creator/src/main/java/com/zingkg/shippinglabelcreator/Latex.java:31-39 | the loop over box numbers builds exactly the item's sections |
| LabelLatex.GenerateLatex | shipping-label-creator/src/main/java/com/zingkg/shippinglabelcreator/Latex.java:22-47 | the text is the preamble, then the epilogue over all items' sections in order, or `None` when a table throws |
| LabelLatex.LabelDocument | shipping-label-creator/src/main/java/com/zingkg/shippinglabelcreator/Latex.java:28-41 | the document text starts with the preamble; there is none exactly when the address has no line and some item has two boxes or more |
| LabelLatex.OrderSectionsFail | shipping-label-creator/src/main/java/com/zingkg/shippinglabelcreator/Latex.java:30-40 | building the document throws exactly when the address has no line and some item has two boxes or more |
| LabelLatex.OrderSectionsCount | shipping-label-creator/src/main/java/com/zingkg/shippinglabelcreator/Latex.java:30-40 | the document holds one section per box but the last, summed over the items |
| LabelLatex.OrderSectionsFlag | shipping-label-creator/src/main/java/com/zingkg/shippinglabelcreator/Latex.java:32 | every section draws the closing rule exactly when the settings ask for it |
| LabelLatex.OrderSectionsItem | shipping-label-creator/src/main/java/com/zingkg/shippinglabelcreator/Latex.java:30-40 | item k's sections come right after those of the items before it, in order |
| LabelLatex.OrderSectionsAt | shipping-label-creator/src/main/java/com/zingkg/shippinglabelcreator/Latex.java:30-40 | item k's j-th section, after the sections of the items before it, is the section of box j + 1 |

## Left out

- Reading the building setup from XML (`parseBuildingSetup`), the settings file, the GUI and the command line. Buildings enter as a set of names. A duplicate building name, which makes `toMap` throw, is not modelled.
- File names and the exact error message texts. Errors keep their kind and their line number. The duplicate warning is placed on its row's line, where the lazy stream emits it.
- Writing the LaTeX to a file and running `pdflatex`. `GenerateLatex` returns the text that `generateLatex` would write; it does not return the `boolean`, and it does not model the `IOException` path.
- `HashMap` iteration order is not modelled. `SaveInventory` and `SaveRows` take it as a parameter `order`, required to list every key exactly once.
- InventoryStore.Inventory.constructor: the Java constructor throws when its load throws, and leaves no object; here the object is kept with the map as the load left it.
- InventoryStore.Inventory.ApplyRows: Java changes the map field row by row. The model folds the rows over a local map and assigns the field once at the end, also when a row throws. No other code runs in between, so the final state is the same.
- JavaString.SortedKeys: keys are ordered by comparing characters as Unicode code points, while Java's `compareTo` (used by `sorted()` at Inventory.java:262) compares UTF-16 code units. The two orders differ when a character above U+FFFF meets one between U+E000 and U+FFFF: Java puts U+10000 before U+FF01, the model puts U+FF01 first. So SortedItemsContents, ExportIsSortedSave and Inventory.ExportInventory can order such ids differently from `exportInventory`.
- JavaString.StrLe: the code-point comparison described in the line above, not the UTF-16 comparison of `compareTo`.
- JavaString.LowerAscii: `toLowerCase` is modelled for ASCII letters only. No locale and no non-ASCII case mapping.
- JavaString.ParseInt: `Integer.parseInt` is modelled for an optional sign and ASCII digits only. Other Unicode digits are not accepted.
- `null` inputs are not modelled, apart from the builder's unset fields and the inventory map before any load. That map is modelled only inside the update batches, where a row reaching it throws. `getItem`, `saveInventory` and `exportInventory` require a prior load instead.
- InventoryStore.Inventory.GetItem: requires a load that read a header (`loaded`). Before one, Java's map is `null` and `getItem` throws `NullPointerException` at Inventory.java:269; that case is not modelled.
- InventoryStore.Inventory.SaveInventory: requires `loaded`. Before a load that read a header, `saveInventory` throws `NullPointerException` at Inventory.java:256; that case is not modelled.
- InventoryStore.Inventory.ExportInventory: requires `loaded`. Before a load that read a header, `exportInventory` throws `NullPointerException` at Inventory.java:262; that case is not modelled.
- LabelOrder.Builder.Build: an unset field gives `None`, where Java builds an `Order` holding `null`. What that `null` does later depends on the field. A `null` address, items, P/O or department number throws: `split` at Latex.java:51, `items.stream()` at Order.java:118, `isEmpty` at Latex.java:81 and at Latex.java:86. A `null` name, city or zip code never throws: string concatenation at Latex.java:52 and Latex.java:60-61 prints the word "null" on the label. `None` captures neither behaviour.
- Object identity and aliasing of tables and sections are not modelled. A container is added to its parent as an element value, a snapshot. The source never changes a container after adding it.
- The label loop gives boxes 1 to `boxes - 1` a section each. "Box n OF n" is never printed, and an item with one box gets no section. The code does this, and the model does the same.
- The errors a batch records live in a local stream builder, so an exception loses all of them. An `Aborted` outcome therefore carries no errors. This covers the short update row too: it records "does not have the required number of values", then throws on reading its third field.

## Findings

| source | as written | input that shows it | evidently intended | confidence | as-written member | corrected member |
|---|---|---|---|---|---|---|
| shipping-inventory-manager/src/main/java/com/zingkg/shippinginventorymanager/Inventory.java:35-41 | the lines are collected into an unmodifiable list, and `remove(0)` on it throws `UnsupportedOperationException` for every non-empty input | the single line `item number,pil,quantity` | the header line is consumed, and the remaining rows are loaded from line 2 | high; not executed | InventoryBatch.LoadAsWritten | InventoryBatch.LoadRun |
| shipping-inventory-manager/src/main/java/com/zingkg/shippinginventorymanager/Inventory.java:207-234 | `updateQuantity` records its errors but returns `Stream.empty()` | the header `item number,operation,quantity`, then `x,update,-`, on a map without `x` | the recorded errors are returned, as `updateLocations` does at line 161 | high; not executed | InventoryBatch.QuantityErrorsDiscarded | InventoryStore.Inventory.UpdateQuantity |
