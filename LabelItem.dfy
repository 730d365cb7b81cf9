/**
  An item of a shipping order: its number, details, notes and box count, and the
  short label it displays as.
*/
module LabelItem {
  import opened JavaString

  /** An item; its box count is never negative. */
  datatype Item = Item(itemNo: string, details: string, notes: string, boxes: nat)

  /** The constructor: the texts are kept, a box count that is not positive becomes 0. */
  function NewItem(itemNo: string, details: string, notes: string, boxes: int32): (r: Item)
    ensures r.itemNo == itemNo && r.details == details && r.notes == notes
    ensures r.boxes >= 0
    ensures boxes > 0 ==> r.boxes == boxes as int
    ensures boxes <= 0 ==> r.boxes == 0
  {
    Item(itemNo, details, notes, if boxes > 0 then boxes as int else 0)
  }

  /** The first non-empty text of `texts`, or the empty text when there is none. */
  function FirstNonEmpty(texts: seq<string>): (r: string)
    ensures r == [] <==> forall i :: 0 <= i < |texts| ==> texts[i] == []
    ensures r != [] ==> r in texts
  {
    if texts == [] then []
    else if texts[0] != [] then texts[0]
    else FirstNonEmpty(texts[1..])
  }

  /**
    The part of `toString` before the box count: number, else details, else notes;
    it is one of the three, and empty only when all three are.
  */
  function Label(item: Item): (r: string)
    ensures r == item.itemNo || r == item.details || r == item.notes
    ensures r == [] <==> item.itemNo == [] && item.details == [] && item.notes == []
    ensures item.itemNo != [] ==> r == item.itemNo
  {
    if item.itemNo != [] then item.itemNo
    else if item.details != [] then item.details
    else if item.notes != [] then item.notes
    else []
  }

  /**
    The label is the first of number, details and notes that is not empty, and empty
    only when all three are.
  */
  lemma LabelChoice(item: Item)
    ensures Label(item) == FirstNonEmpty([item.itemNo, item.details, item.notes])
    ensures Label(item) == [] <==> item.itemNo == [] && item.details == [] && item.notes == []
    ensures item.itemNo != [] ==> Label(item) == item.itemNo
  {
    var texts := [item.itemNo, item.details, item.notes];
    assert texts[1..] == [item.details, item.notes];
    assert texts[1..][1..] == [item.notes];
    assert texts[1..][1..][1..] == [];
    assert FirstNonEmpty([item.notes]) == if item.notes != [] then item.notes else FirstNonEmpty([]);
    assert FirstNonEmpty([item.details, item.notes])
      == if item.details != [] then item.details else FirstNonEmpty([item.notes]);
  }

  /** The text every label ends with: the box count and the word "boxes". */
  function BoxesSuffix(boxes: nat): string
  {
    " - " + IntToString(boxes) + " boxes"
  }

  /** `toString`: the label, then the box count. */
  function ToString(item: Item): (r: string)
    ensures |r| >= |BoxesSuffix(item.boxes)|
    ensures r[|r| - |BoxesSuffix(item.boxes)|..] == BoxesSuffix(item.boxes)
    ensures r[..|r| - |BoxesSuffix(item.boxes)|] == Label(item)
  {
    var r := Label(item) + BoxesSuffix(item.boxes);
    assert r[..|Label(item)|] == Label(item);
    r
  }
}
