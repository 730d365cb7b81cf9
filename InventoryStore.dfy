/**
  The `Inventory` object: a fixed registry of building names and the item map that the
  three batch operations replace or update in place, with its two serialisers and the
  lookup by id.
*/
module InventoryStore {
  import opened Wrappers
  import opened JavaString
  import opened InventoryItem
  import opened InventoryBatch

  /** The serialised rows, each with a line feed appended, as `exportInventory` writes them. */
  function WithNewlines(rows: seq<string>): (r: seq<string>)
    ensures |r| == |rows|
    ensures forall i :: 0 <= i < |rows| ==> r[i] == rows[i] + "\n"
  {
    seq(|rows|, i requires 0 <= i < |rows| => rows[i] + "\n")
  }

  /** The items stored under the keys of `order`, in that order. */
  function ItemsInOrder(m: map<string, Item>, order: seq<string>): (r: seq<Item>)
    requires forall k :: k in order ==> k in m
    ensures |r| == |order|
    ensures forall i :: 0 <= i < |order| ==> r[i] == m[order[i]]
  {
    seq(|order|, i requires 0 <= i < |order| => m[order[i]])
  }

  /** The CSV row of every item, in order. */
  function CsvRows(items: seq<Item>): (r: seq<string>)
    ensures |r| == |items|
    ensures forall i :: 0 <= i < |items| ==> r[i] == ToCsvRow(items[i])
  {
    seq(|items|, i requires 0 <= i < |items| => ToCsvRow(items[i]))
  }

  /** `order` lists every key of `keys` exactly once: the order a `HashMap` happens to iterate in. */
  ghost predicate IsOrderOf(order: seq<string>, keys: set<string>)
  {
    && |order| == |keys|
    && (forall k :: k in keys <==> k in order)
    && (forall i, j :: 0 <= i < j < |order| ==> order[i] != order[j])
  }

  class Inventory {
    /** The names of the registered buildings. */
    const buildings: set<string>
    /** Whether a load has created the map; before that the Java field is `null`. */
    var loaded: bool
    var inventory: map<string, Item>

    /** Ids are keys, every location is in a registered building, and no map means no items. */
    ghost predicate Valid()
      reads this
    {
      Consistent(buildings, loaded, inventory)
    }

    /**
      Registers the buildings and loads the given lines; the errors of that load are
      not kept.
    */
    constructor (buildings: set<string>, lines: seq<string>)
      ensures Valid()
      ensures this.buildings == buildings
      ensures loaded == LoadStarts(lines)
      ensures inventory == LoadRun(buildings, map[], lines).inventory
    {
      this.buildings := buildings;
      loaded := false;
      inventory := map[];
      new;
      var _ := LoadInventory(lines);
    }

    /**
      Applies the data rows `lines[1..]`, numbered from 2, one by one, stopping at the
      first row that throws; the map keeps every change made before that row.
    */
    method ApplyRows(batch: Batch, lines: seq<string>) returns (outcome: Outcome)
      requires Valid() && |lines| >= 1
      requires batch == Load ==> loaded
      modifies this`inventory
      ensures Valid()
      ensures outcome == Rows(batch, buildings, loaded, old(inventory), lines[1..], 2).outcome
      ensures inventory == Rows(batch, buildings, loaded, old(inventory), lines[1..], 2).inventory
    {
      var r := RunRows(Rule(batch, buildings, loaded), inventory, lines);
      RowsConsistent(batch, buildings, loaded, inventory, lines[1..], 2);
      inventory := r.inventory;
      return r.outcome;
    }

    /**
      `loadInventory`, the header consumed: nothing for no line, one error for a wrong
      header, otherwise a fresh map filled from the rows.
    */
    method LoadInventory(lines: seq<string>) returns (outcome: Outcome)
      requires Valid()
      modifies this
      ensures Valid()
      ensures outcome == LoadRun(buildings, old(inventory), lines).outcome
      ensures inventory == LoadRun(buildings, old(inventory), lines).inventory
      ensures loaded == (old(loaded) || LoadStarts(lines))
    {
      if |lines| == 0 {
        return Done([]);
      }
      if !IsHeader(lines[0], "pil", "quantity") {
        return Done([MissingHeader]);
      }
      loaded := true;
      inventory := map[];
      outcome := ApplyRows(Load, lines);
    }

    /** `updateLocations`: add, delete or update the locations of items, line by line. */
    method UpdateLocations(lines: seq<string>) returns (outcome: Outcome)
      requires Valid()
      modifies this`inventory
      ensures Valid()
      ensures outcome == UpdateRun(Locations, buildings, loaded, old(inventory), lines).outcome
      ensures inventory == UpdateRun(Locations, buildings, loaded, old(inventory), lines).inventory
    {
      if |lines| == 0 {
        return Aborted(EmptyFile);
      }
      if !IsHeader(lines[0], "operation", "pil") {
        return Done([MissingHeader]);
      }
      outcome := ApplyRows(Locations, lines);
    }

    /**
      `updateQuantity`: add, delete or update the quantities of items, line by line,
      returning the errors it records. As written the method returns an empty stream
      instead (`QuantityOutcome`); this is the corrected version.
    */
    method UpdateQuantity(lines: seq<string>) returns (outcome: Outcome)
      requires Valid()
      modifies this`inventory
      ensures Valid()
      ensures outcome == UpdateRun(Quantities, buildings, loaded, old(inventory), lines).outcome
      ensures inventory == UpdateRun(Quantities, buildings, loaded, old(inventory), lines).inventory
    {
      if |lines| == 0 {
        return Aborted(EmptyFile);
      }
      if !IsHeader(lines[0], "operation", "quantity") {
        return Done([MissingHeader]);
      }
      outcome := ApplyRows(Quantities, lines);
    }

    /** `getItem`: the item stored under `itemId`, if any. */
    function GetItem(itemId: string): (r: Option<Item>)
      reads this
      requires loaded
      ensures r.Some? <==> itemId in inventory
      ensures r.Some? ==> r.value == inventory[itemId]
      ensures KeysConsistent(inventory) && r.Some? ==> r.value.itemId == itemId
    {
      if itemId in inventory then Some(inventory[itemId]) else None
    }

    /**
      `saveInventory`: the header, then one row per item in the order the map is
      iterated in, given here as `order`.
    */
    function SaveInventory(order: seq<string>): (r: seq<string>)
      reads this
      requires loaded && IsOrderOf(order, inventory.Keys)
      ensures |r| == |inventory| + 1 && r[0] == InventoryHeader
      ensures forall i :: 1 <= i < |r| ==> order[i - 1] in inventory && r[i] == ToCsvRow(inventory[order[i - 1]])
    {
      SaveRowsAt(inventory, order);
      SaveRows(inventory, order)
    }

    /** `exportInventory`: the rows of the map in ascending id order, each with a line feed. */
    function ExportInventory(): (r: seq<string>)
      reads this
      requires loaded
      ensures |r| == |inventory| + 1 && r[0] == InventoryHeader
      ensures r == [InventoryHeader] + WithNewlines(SaveRows(inventory, SortedKeys(inventory.Keys))[1..])
    {
      ExportIsSortedSave(inventory);
      ExportRows(inventory)
    }
  }

  /** The rows `saveInventory` writes for the map `m`: the header, then one row per item in `order`. */
  function SaveRows(m: map<string, Item>, order: seq<string>): (r: seq<string>)
    requires IsOrderOf(order, m.Keys)
    ensures |r| == |m| + 1 && r[0] == InventoryHeader
  {
    [InventoryHeader] + CsvRows(ItemsInOrder(m, order))
  }

  /** Every item listed in `order` appears in the items taken in that order. */
  lemma ItemsInOrderCover(m: map<string, Item>, order: seq<string>)
    requires forall k :: k in order <==> k in m
    ensures forall k :: k in m ==> exists i :: 0 <= i < |order| && ItemsInOrder(m, order)[i] == m[k]
  {
    var items := ItemsInOrder(m, order);
    forall k | k in m
      ensures exists i :: 0 <= i < |order| && items[i] == m[k]
    {
      var i :| 0 <= i < |order| && order[i] == k;
      assert items[i] == m[k];
    }
  }

  /** `saveInventory` writes a row for every item of the map. */
  lemma SaveRowsComplete(m: map<string, Item>, order: seq<string>)
    requires IsOrderOf(order, m.Keys)
    ensures forall k :: k in m ==> ToCsvRow(m[k]) in SaveRows(m, order)[1..]
  {
    var items := ItemsInOrder(m, order);
    var rows := SaveRows(m, order)[1..];
    ItemsInOrderCover(m, order);
    forall k | k in m
      ensures ToCsvRow(m[k]) in rows
    {
      var i :| 0 <= i < |order| && items[i] == m[k];
      assert rows[i] == ToCsvRow(items[i]);
    }
  }

  /** Row `i` after the header is the CSV row of the item under the `i`-th key of the iteration order. */
  lemma SaveRowsAt(m: map<string, Item>, order: seq<string>)
    requires IsOrderOf(order, m.Keys)
    ensures forall i :: 1 <= i < |SaveRows(m, order)| ==>
      order[i - 1] in m && SaveRows(m, order)[i] == ToCsvRow(m[order[i - 1]])
  {
    var r := SaveRows(m, order);
    assert |r| == |order| + 1 by {
      assert |m.Keys| == |m|;
    }
    forall i | 1 <= i < |r|
      ensures order[i - 1] in m && r[i] == ToCsvRow(m[order[i - 1]])
    {
      SaveRowAt(m, order, i);
    }
  }

  /** Row `i` after the header is the CSV row of the item under key `order[i - 1]`. */
  lemma SaveRowAt(m: map<string, Item>, order: seq<string>, i: int)
    requires IsOrderOf(order, m.Keys) && 1 <= i <= |order|
    ensures order[i - 1] in m && SaveRows(m, order)[i] == ToCsvRow(m[order[i - 1]])
  {
    var items := ItemsInOrder(m, order);
    var rows := CsvRows(items);
    AfterHead(InventoryHeader, rows, i);
    assert order[i - 1] in m.Keys by {
      assert order[i - 1] in order;
    }
    assert items[i - 1] == m[order[i - 1]];
  }

  /** Element `i` of a sequence with a head prepended is element `i - 1` of the rest. */
  lemma AfterHead<T>(head: T, rest: seq<T>, i: int)
    requires 1 <= i <= |rest|
    ensures ([head] + rest)[i] == rest[i - 1]
  {
  }

  /** The items of `m` in ascending id order. */
  function SortedItems(m: map<string, Item>): (r: seq<Item>)
    ensures |r| == |m|
  {
    ItemsInOrder(m, SortedKeys(m.Keys))
  }

  /** Every item of the map is among the sorted items, and they come in ascending id order. */
  lemma SortedItemsContents(m: map<string, Item>)
    ensures forall k :: k in m ==> m[k] in SortedItems(m)
    ensures KeysConsistent(m) ==>
      forall i, j :: 0 <= i < j < |m| ==> StrLt(SortedItems(m)[i].itemId, SortedItems(m)[j].itemId)
  {
    ItemsInOrderCover(m, SortedKeys(m.Keys));
  }

  /**
    The rows `exportInventory` writes for the map `m`: the header, then one row per
    item in ascending id order, each with a line feed appended.
  */
  function ExportRows(m: map<string, Item>): (r: seq<string>)
    ensures |r| == |m| + 1 && r[0] == InventoryHeader
  {
    [InventoryHeader] + WithNewlines(CsvRows(SortedItems(m)))
  }

  /** Export is save in ascending key order, each row with a line feed appended. */
  lemma ExportIsSortedSave(m: map<string, Item>)
    ensures IsOrderOf(SortedKeys(m.Keys), m.Keys)
    ensures ExportRows(m) == [InventoryHeader] + WithNewlines(SaveRows(m, SortedKeys(m.Keys))[1..])
  {
    var keys := SortedKeys(m.Keys);
    assert SaveRows(m, keys)[1..] == CsvRows(ItemsInOrder(m, keys));
  }
}
