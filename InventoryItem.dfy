/**
  The inventory's values: a physical inventory location (PIL) and an item, both
  immutable, and the CSV row an item is saved as.
*/
module InventoryItem {
  import opened Wrappers
  import opened JavaString

  /** A physical inventory location: building, aisle and an optional slot. */
  datatype Pil = Pil(building: string, aisle: string, pil: Option<string>)

  /**
    An item: its id, its locations in input order (duplicates kept) and an optional
    quantity. "Updating" an item builds a new one; the receiver is a value and does
    not change.
  */
  datatype Item = Item(itemId: string, locations: seq<Pil>, quantity: Option<int32>)
  {
    /** `updateLocations`: the same id and quantity with the given locations. */
    function UpdateLocations(updatedLocations: seq<Pil>): (r: Item)
      ensures r.itemId == itemId && r.quantity == quantity
      ensures r.locations == updatedLocations
    {
      Item(itemId, updatedLocations, quantity)
    }

    /** `updateQuantity`: the same id and locations with the given quantity. */
    function UpdateQuantity(updatedQuantity: Option<int32>): (r: Item)
      ensures r.itemId == itemId && r.locations == locations
      ensures r.quantity == updatedQuantity
    {
      Item(itemId, locations, updatedQuantity)
    }
  }

  /** The text standing for "no value" in every field. */
  const Placeholder: string := "-"

  /** The separator `toCSVRow` puts between two locations. */
  const LocationSeparator: string := " Y "

  /** One location as `building.aisle.slot`, an absent slot written `-`. */
  function PilString(p: Pil): string
  {
    p.building + "." + p.aisle + "." + (if p.pil.Some? then p.pil.value else Placeholder)
  }

  function PilStrings(ls: seq<Pil>): (r: seq<string>)
    ensures |r| == |ls|
    ensures forall i :: 0 <= i < |ls| ==> r[i] == PilString(ls[i])
  {
    seq(|ls|, i requires 0 <= i < |ls| => PilString(ls[i]))
  }

  /** The location field: `-` for no location, otherwise the locations joined by " Y ". */
  function LocationField(ls: seq<Pil>): string
  {
    if ls == [] then Placeholder else Join(PilStrings(ls), LocationSeparator)
  }

  /** The quantity field: its decimal form when present, `-` when absent. */
  function QuantityField(q: Option<int32>): (r: string)
    ensures r != [] && r[|r| - 1] != ','
  {
    if q.Some? then
      IntToString(q.value as int)
    else Placeholder
  }

  /**
    `toCSVRow`: id, location field and quantity field separated by commas. The row
    starts with the id and a comma, and never ends with a comma, since the quantity
    field is never empty.
  */
  function ToCsvRow(item: Item): (r: string)
    ensures |r| > |item.itemId| && r[..|item.itemId|] == item.itemId && r[|item.itemId|] == ','
    ensures r[|r| - 1] != ','
  {
    item.itemId + "," + LocationField(item.locations) + "," + QuantityField(item.quantity)
  }

  /** No part of a location contains a comma. */
  predicate CommaFree(ls: seq<Pil>)
  {
    forall i :: 0 <= i < |ls| ==>
      ',' !in ls[i].building && ',' !in ls[i].aisle && (ls[i].pil.Some? ==> ',' !in ls[i].pil.value)
  }

  /**
    A row whose id and locations hold no comma splits back into exactly its three
    fields, whatever else they contain: the quantity field is never empty, so
    `split` drops nothing.
  */
  lemma ToCsvRowFields(item: Item)
    requires ',' !in item.itemId && CommaFree(item.locations)
    ensures Split(ToCsvRow(item), ',') ==
      [item.itemId, LocationField(item.locations), QuantityField(item.quantity)]
  {
    var ls := item.locations;
    if ls != [] {
      JoinHasNo(PilStrings(ls), LocationSeparator, ',');
    }
    var q := QuantityField(item.quantity);
    assert ',' !in q by {
      if item.quantity.Some? {
        var n := item.quantity.value as int;
        if n < 0 {
          assert q == "-" + NatToString(-n);
        }
      }
    }
    SplitThree(item.itemId, LocationField(ls), q, ',');
  }
}
