/**
  The label document of an order: for every item, one section per box but the last,
  each holding the address table and the P/O, department and box lines.
*/
module LabelLatex {
  import opened Wrappers
  import opened JavaString
  import opened LatexElement
  import opened LatexContainers
  import opened LabelItem
  import opened LabelOrder

  /** The sender's details and the LaTeX options, as read from the settings file. */
  datatype Settings = Settings(
    homeName: string,
    homeAddress: string,
    homeCity: string,
    homeState: string,
    homeZipCode: string,
    pdfLatexPath: string,
    shouldAddEntryLine: bool)

  // ---------------------------------------------------------------------------
  // createTableContents
  // ---------------------------------------------------------------------------

  /** The sender's name and the destination's name, ending the table row. */
  function NameLine(settings: Settings, order: Order): string
  {
    settings.homeName + " & " + order.name + @"\\"
  }

  /** Sender's city, state and zip code, then the destination's city and zip code. */
  function CityLine(settings: Settings, order: Order): string
  {
    settings.homeCity + ", " + settings.homeState + " " + settings.homeZipCode
    + " & " + order.city + " " + order.zipCode + @"\\"
  }

  function ItemLine(item: Item): string
  {
    @"Item \#" + item.itemNo + " & " + item.details + @"\\"
  }

  function NotesLine(item: Item): string
  {
    "&" + item.notes + @"\\"
  }

  /** The rows of the address lines after the first, each with an empty left column. */
  function FurtherAddressRows(destinations: seq<string>): (r: seq<Element>)
    requires |destinations| >= 1
    ensures |r| == |destinations| - 1
    ensures forall i :: 1 <= i < |destinations| ==> r[i - 1] == Row("", destinations[i])
  {
    seq(|destinations| - 1, i requires 0 <= i < |destinations| - 1 => Row("", destinations[i + 1]))
  }

  /**
    The elements of the address table, for the address lines `destinations`: one per
    address line, plus the names, the cities and the item, plus the notes when there
    are some; only text lines and rows, never a nested table or section.
  */
  function AddressTable(settings: Settings, order: Order, item: Item, destinations: seq<string>): (r: seq<Element>)
    requires |destinations| >= 1
    ensures |r| == |destinations| + 3 + (if item.notes != [] then 1 else 0)
    ensures forall i :: 0 <= i < |r| ==> r[i].CData? || r[i].Row?
  {
    [CData(NameLine(settings, order))] + [Row(settings.homeAddress, destinations[0])]
    + FurtherAddressRows(destinations)
    + [CData(CityLine(settings, order))] + [CData(ItemLine(item))]
    + (if item.notes != [] then [CData(NotesLine(item))] else [])
  }

  /**
    The address table: the two names, the sender's address beside the first address
    line, each further address line with an empty left column, the two cities, the
    item, and the notes only when there are some.
  */
  lemma AddressTableLayout(settings: Settings, order: Order, item: Item, d: seq<string>)
    requires |d| >= 1
    ensures var r := AddressTable(settings, order, item, d);
      && |r| == |d| + 3 + (if item.notes != [] then 1 else 0)
      && r[0] == CData(NameLine(settings, order))
      && r[1] == Row(settings.homeAddress, d[0])
      && (forall i :: 1 <= i < |d| ==> r[i + 1] == Row("", d[i]))
      && r[|d| + 1] == CData(CityLine(settings, order))
      && r[|d| + 2] == CData(ItemLine(item))
      && (item.notes != [] ==> r[|d| + 3] == CData(NotesLine(item)))
  {
    var front := [CData(NameLine(settings, order))] + [Row(settings.homeAddress, d[0])] + FurtherAddressRows(d);
    var r := AddressTable(settings, order, item, d);
    assert forall i :: 0 <= i < |front| ==> r[i] == front[i];
  }

  /**
    The elements of the address table, or `None` when the address splits into no
    line at all and reading its first line throws.
  */
  function TableContents(settings: Settings, order: Order, item: Item): (r: Option<seq<Element>>)
    ensures r.None? <==> Split(order.address, '\n') == []
  {
    var d := Split(order.address, '\n');
    if d == [] then None else Some(AddressTable(settings, order, item, d))
  }

  /** `createTableContents`: fills a new table, row by row. */
  method CreateTableContents(settings: Settings, order: Order, item: Item) returns (table: Option<Table>)
    ensures table.Some? <==> Split(order.address, '\n') != []
    ensures table.Some? ==> fresh(table.value)
    ensures table.Some? ==> table.value.elements == AddressTable(settings, order, item, Split(order.address, '\n'))
  {
    var t := new Table();
    var destinations := Split(order.address, '\n');
    var name := CData(NameLine(settings, order));
    t.AddElement(name);
    assert t.elements == [name];
    if |destinations| == 0 {
      return None;
    }
    t.AddElement(Row(settings.homeAddress, destinations[0]));
    t.AddAllElements(FurtherAddressRows(destinations));
    t.AddElement(CData(CityLine(settings, order)));
    t.AddElement(CData(ItemLine(item)));
    if item.notes != [] {
      t.AddElement(CData(NotesLine(item)));
    } else {
      assert t.elements + [] == t.elements;
    }
    return Some(t);
  }

  // ---------------------------------------------------------------------------
  // createPOAndDept
  // ---------------------------------------------------------------------------

  const SmallSpace: string := @"\vspace{0.5pc}"
  const LargeSpace: string := @"\vspace{5pc}"

  function PoLine(po: string): string
  {
    "P/O: " + po + @"\\"
  }

  function DeptLine(deptNo: string): string
  {
    @"Dept \# " + deptNo + @"\\"
  }

  function BoxLine(boxNo: int, maxBox: int): string
  {
    @"Box \hspace{4pc} " + IntToString(boxNo) + @"\hspace{4pc} OF \hspace{4pc} " + IntToString(maxBox)
  }

  /** Some element of `elements` is the text `text`. */
  predicate HasLine(elements: seq<Element>, text: string)
  {
    exists i :: 0 <= i < |elements| && elements[i] == CData(text)
  }

  /**
    `createPOAndDept`: a small space; the P/O line when there is a P/O number; the
    department line when there is a department number; a large space when either
    was written; and the box line. Every element is a plain text line.
  */
  function POAndDept(po: string, deptNo: string, boxNo: int, maxBox: int): (r: seq<Element>)
    ensures 2 <= |r| <= 5
    ensures forall i :: 0 <= i < |r| ==> r[i].CData?
    ensures r[0] == CData(SmallSpace) && r[|r| - 1] == CData(BoxLine(boxNo, maxBox))
  {
    var poPart := if po != [] then [CData(PoLine(po))] else [];
    var deptPart := if deptNo != [] then [CData(DeptLine(deptNo))] else [];
    var space := if po != [] || deptNo != [] then [CData(LargeSpace)] else [];
    [CData(SmallSpace)] + poPart + deptPart + space + [CData(BoxLine(boxNo, maxBox))]
  }

  /** Where each line of `createPOAndDept` lands: two to five elements, space first, box line last. */
  lemma POAndDeptLayout(po: string, deptNo: string, boxNo: int, maxBox: int)
    ensures var r := POAndDept(po, deptNo, boxNo, maxBox);
      && 2 <= |r| <= 5
      && |r| == 2 + (if po != [] then 1 else 0) + (if deptNo != [] then 1 else 0)
                  + (if po != [] || deptNo != [] then 1 else 0)
      && r[0] == CData(SmallSpace) && r[|r| - 1] == CData(BoxLine(boxNo, maxBox))
      && (po != [] ==> r[1] == CData(PoLine(po)))
      && (deptNo != [] ==> r[if po != [] then 2 else 1] == CData(DeptLine(deptNo)))
      && (po != [] || deptNo != [] ==> r[|r| - 2] == CData(LargeSpace))
  {
  }

  /** The P/O line is written exactly when there is a P/O number. */
  lemma PoLineWritten(po: string, deptNo: string, boxNo: int, maxBox: int)
    ensures HasLine(POAndDept(po, deptNo, boxNo, maxBox), PoLine(po)) <==> po != []
  {
    var r := POAndDept(po, deptNo, boxNo, maxBox);
    POAndDeptLayout(po, deptNo, boxNo, maxBox);
    if po != [] {
      assert r[1] == CData(PoLine(po));
    } else {
      assert BoxLine(boxNo, maxBox)[0] == 'B' && DeptLine(deptNo)[0] == 'D';
      assert SmallSpace[0] == '\\' && LargeSpace[0] == '\\';
      forall i | 0 <= i < |r| ensures r[i] != CData(PoLine(po)) {
        assert r[i].data[0] != 'P';
      }
    }
  }

  /** The department line is written exactly when there is a department number. */
  lemma DeptLineWritten(po: string, deptNo: string, boxNo: int, maxBox: int)
    ensures HasLine(POAndDept(po, deptNo, boxNo, maxBox), DeptLine(deptNo)) <==> deptNo != []
  {
    var r := POAndDept(po, deptNo, boxNo, maxBox);
    POAndDeptLayout(po, deptNo, boxNo, maxBox);
    if deptNo != [] {
      assert r[if po != [] then 2 else 1] == CData(DeptLine(deptNo));
    } else {
      assert BoxLine(boxNo, maxBox)[0] == 'B' && PoLine(po)[0] == 'P';
      assert SmallSpace[0] == '\\' && LargeSpace[0] == '\\';
      forall i | 0 <= i < |r| ensures r[i] != CData(DeptLine(deptNo)) {
        assert r[i].data[0] != 'D';
      }
    }
  }

  /** The large space is written exactly when a P/O or a department number is. */
  lemma LargeSpaceWritten(po: string, deptNo: string, boxNo: int, maxBox: int)
    ensures HasLine(POAndDept(po, deptNo, boxNo, maxBox), LargeSpace) <==> po != [] || deptNo != []
  {
    var r := POAndDept(po, deptNo, boxNo, maxBox);
    POAndDeptLayout(po, deptNo, boxNo, maxBox);
    if po != [] || deptNo != [] {
      assert r[|r| - 2] == CData(LargeSpace);
    } else {
      assert BoxLine(boxNo, maxBox)[0] == 'B';
      assert SmallSpace[8] == '0' && LargeSpace[8] == '5';
      forall i | 0 <= i < |r| ensures r[i] != CData(LargeSpace) {
        assert r[i].data == SmallSpace || r[i].data[0] == 'B';
      }
    }
  }

  /**
    The P/O line is written exactly when there is a P/O number, the department line
    exactly when there is a department number, and the large space exactly when
    either of them is.
  */
  lemma POAndDeptLines(po: string, deptNo: string, boxNo: int, maxBox: int)
    ensures var r := POAndDept(po, deptNo, boxNo, maxBox);
      && (HasLine(r, PoLine(po)) <==> po != [])
      && (HasLine(r, DeptLine(deptNo)) <==> deptNo != [])
      && (HasLine(r, LargeSpace) <==> po != [] || deptNo != [])
  {
    PoLineWritten(po, deptNo, boxNo, maxBox);
    DeptLineWritten(po, deptNo, boxNo, maxBox);
    LargeSpaceWritten(po, deptNo, boxNo, maxBox);
  }

  // ---------------------------------------------------------------------------
  // generateLatex
  // ---------------------------------------------------------------------------

  /**
    Section number `boxNo` of an item: its table first, then its P/O, department and
    box lines, the box line last; the rule is drawn as the settings say.
  */
  function BoxSection(settings: Settings, order: Order, item: Item, contents: seq<Element>, boxNo: int): (r: Element)
    ensures r.SectionOf? && r.shouldAddEndingLine == settings.shouldAddEntryLine
    ensures 3 <= |r.elements| <= 6 && r.elements[0] == TableOf(contents)
    ensures r.elements[|r.elements| - 1] == CData(BoxLine(boxNo, item.boxes))
  {
    SectionOf([TableOf(contents)] + POAndDept(order.po, order.deptNo, boxNo, item.boxes), settings.shouldAddEntryLine)
  }

  /** The number of sections an item gets: one per box number from 1 up to, not including, its box count. */
  function BoxSections(item: Item): nat
  {
    if item.boxes > 1 then item.boxes - 1 else 0
  }

  /**
    The sections of one item, numbered 1 to `boxes - 1`; none for one box or none,
    and no table is built then; `None` when building the table throws.
  */
  function ItemSections(settings: Settings, order: Order, item: Item): (r: Option<seq<Element>>)
    ensures item.boxes <= 1 ==> r == Some([])
    ensures item.boxes > 1 ==> (r.None? <==> TableContents(settings, order, item).None?)
    ensures r.Some? ==> |r.value| == BoxSections(item)
  {
    if item.boxes <= 1 then Some([])
    else
      match TableContents(settings, order, item)
      case None => None
      case Some(contents) =>
        Some(seq(item.boxes - 1, j requires 0 <= j < item.boxes - 1 => BoxSection(settings, order, item, contents, j + 1)))
  }

  /** Section `j` of an item is the section of box `j + 1`, each holding the item's own table. */
  lemma ItemSectionsAt(settings: Settings, order: Order, item: Item, j: nat)
    requires ItemSections(settings, order, item).Some? && j < BoxSections(item)
    ensures TableContents(settings, order, item).Some?
    ensures ItemSections(settings, order, item).value[j]
      == BoxSection(settings, order, item, TableContents(settings, order, item).value, j + 1)
  {
  }

  /** The sections of the items, item after item; `None` as soon as one item's throws. */
  function OrderSections(settings: Settings, order: Order, items: seq<Item>): Option<seq<Element>>
    decreases |items|
  {
    if items == [] then Some([])
    else
      match OrderSections(settings, order, items[..|items| - 1])
      case None => None
      case Some(front) =>
        match ItemSections(settings, order, items[|items| - 1])
        case None => None
        case Some(last) => Some(front + last)
  }

  /** The number of sections all the items get. */
  function SectionCount(items: seq<Item>): nat
    decreases |items|
  {
    if items == [] then 0 else SectionCount(items[..|items| - 1]) + BoxSections(items[|items| - 1])
  }

  /**
    The whole document text of an order, starting with the preamble; `None`, when
    building it throws, exactly when the address has no line and some item has two
    boxes or more.
  */
  function LabelDocument(settings: Settings, order: Order, fontSize: int32): (r: Option<string>)
    ensures r.None? <==> Split(order.address, '\n') == [] && exists i :: 0 <= i < |order.items| && order.items[i].boxes > 1
    ensures r.Some? ==> |r.value| >= |Lines(Preamble)| && r.value[..|Lines(Preamble)|] == Lines(Preamble)
  {
    OrderSectionsFail(settings, order, order.items);
    match OrderSections(settings, order, order.items)
    case None => None
    case Some(sections) => Some(Lines(Preamble) + Lines(Epilogue(FontLine(fontSize), sections)))
  }

  /**
    The section of box `boxNo` of an item, as the `mapToObj` lambda of `generateLatex`
    builds it: a new section holding a new address table, then the P/O, department
    and box lines; `None` when building the table throws.
  */
  method CreateSection(settings: Settings, order: Order, item: Item, boxNo: int) returns (section: Option<Section>)
    ensures section.Some? <==> Split(order.address, '\n') != []
    ensures section.Some? ==> fresh(section.value)
    ensures section.Some? ==>
      section.value.Value() == BoxSection(settings, order, item, AddressTable(settings, order, item, Split(order.address, '\n')), boxNo)
  {
    var s := new Section(settings.shouldAddEntryLine);
    var table := CreateTableContents(settings, order, item);
    if table.None? {
      return None;
    }
    var tableElement := table.value.Value();
    s.AddElement(tableElement);
    var lines := POAndDept(order.po, order.deptNo, boxNo, item.boxes);
    s.AddAllElements(lines);
    assert s.elements == [tableElement] + lines;
    return Some(s);
  }

  /**
    The body of the item loop of `generateLatex`: one new section per box number
    from 1 up to the box count, each with a table of its own; `None` when building
    a table throws.
  */
  method CreateItemSections(settings: Settings, order: Order, item: Item) returns (sections: Option<seq<Element>>)
    ensures sections == ItemSections(settings, order, item)
  {
    ghost var contents := TableContents(settings, order, item);
    var built: seq<Element> := [];
    var i := 1;
    while i < item.boxes
      invariant 1 <= i <= if item.boxes >= 1 then item.boxes else 1
      invariant |built| == i - 1
      invariant i > 1 ==> contents.Some? && BuiltSections(settings, order, item, contents.value, built)
    {
      var section := CreateSection(settings, order, item, i);
      if section.None? {
        return None;
      }
      BuiltStep(settings, order, item, contents.value, built, section.value.Value());
      built := built + [section.value.Value()];
      i := i + 1;
    }
    if item.boxes > 1 {
      AllSectionsBuilt(settings, order, item, built);
    }
    return Some(built);
  }

  /** `built` holds the sections of the first `|built|` boxes, in order. */
  ghost predicate BuiltSections(settings: Settings, order: Order, item: Item, contents: seq<Element>, built: seq<Element>)
  {
    forall j :: 0 <= j < |built| ==> built[j] == BoxSection(settings, order, item, contents, j + 1)
  }

  lemma BuiltStep(settings: Settings, order: Order, item: Item, contents: seq<Element>, built: seq<Element>, section: Element)
    requires BuiltSections(settings, order, item, contents, built)
    requires section == BoxSection(settings, order, item, contents, |built| + 1)
    ensures BuiltSections(settings, order, item, contents, built + [section])
  {
    var extended := built + [section];
    forall j | 0 <= j < |extended|
      ensures extended[j] == BoxSection(settings, order, item, contents, j + 1)
    {
      if j < |built| {
        assert extended[j] == built[j];
      }
    }
  }

  /** The sections of every box but the last, built in order, are the item's sections. */
  lemma AllSectionsBuilt(settings: Settings, order: Order, item: Item, built: seq<Element>)
    requires item.boxes > 1 && |built| == item.boxes - 1
    requires TableContents(settings, order, item).Some?
    requires BuiltSections(settings, order, item, TableContents(settings, order, item).value, built)
    ensures ItemSections(settings, order, item) == Some(built)
  {
    var contents := TableContents(settings, order, item).value;
    assert built == seq(item.boxes - 1, j requires 0 <= j < item.boxes - 1 => BoxSection(settings, order, item, contents, j + 1));
  }

  /**
    The section loop of `generateLatex`, without the file write: every item, in
    order, adds its sections to the document, whose text is then produced once.
  */
  method GenerateLatex(settings: Settings, order: Order, fontSize: int32) returns (text: Option<string>)
    ensures text == LabelDocument(settings, order, fontSize)
  {
    var document := new LatexDocument(fontSize);
    for k := 0 to |order.items|
      invariant fresh(document) && fresh(document.document)
      invariant document.document.contents == Lines(Preamble) && document.fontSize == fontSize
      invariant OrderSections(settings, order, order.items[..k]) == Some(document.elements)
    {
      var sections := CreateItemSections(settings, order, order.items[k]);
      if sections.None? {
        OrderSectionsFail(settings, order, order.items);
        return None;
      }
      assert order.items[..k + 1][..k] == order.items[..k];
      document.AddAllElements(sections.value);
    }
    assert order.items[..|order.items|] == order.items;
    var s := document.ToString();
    return Some(s);
  }

  // ---------------------------------------------------------------------------
  // Properties of the section loop
  // ---------------------------------------------------------------------------

  /** Building the sections throws exactly when some item has two boxes or more and the address has no line. */
  lemma {:induction false} OrderSectionsFail(settings: Settings, order: Order, items: seq<Item>)
    ensures OrderSections(settings, order, items).None?
      <==> Split(order.address, '\n') == [] && exists i :: 0 <= i < |items| && items[i].boxes > 1
    decreases |items|
  {
    if items != [] {
      var front := items[..|items| - 1];
      OrderSectionsFail(settings, order, front);
      if exists i :: 0 <= i < |front| && front[i].boxes > 1 {
        var i :| 0 <= i < |front| && front[i].boxes > 1;
        assert items[i] == front[i];
      }
      if exists i :: 0 <= i < |items| && items[i].boxes > 1 {
        var i :| 0 <= i < |items| && items[i].boxes > 1;
        if i < |front| {
          assert front[i] == items[i];
        }
      }
    }
  }

  /** The document gets one section per box but the last, item by item. */
  lemma {:induction false} OrderSectionsCount(settings: Settings, order: Order, items: seq<Item>)
    requires OrderSections(settings, order, items).Some?
    ensures |OrderSections(settings, order, items).value| == SectionCount(items)
    decreases |items|
  {
    if items != [] {
      OrderSectionsCount(settings, order, items[..|items| - 1]);
    }
  }

  /** Every section of the document draws the closing rule exactly when the settings ask for it. */
  lemma {:induction false} OrderSectionsFlag(settings: Settings, order: Order, items: seq<Item>)
    requires OrderSections(settings, order, items).Some?
    ensures var sections := OrderSections(settings, order, items).value;
      forall j :: 0 <= j < |sections| ==>
        sections[j].SectionOf? && sections[j].shouldAddEndingLine == settings.shouldAddEntryLine
    decreases |items|
  {
    if items != [] {
      OrderSectionsFlag(settings, order, items[..|items| - 1]);
    }
  }

  /** The sections of all the items are those of all but the last, then the last one's. */
  lemma OrderSectionsSnoc(settings: Settings, order: Order, items: seq<Item>)
    requires items != [] && OrderSections(settings, order, items).Some?
    ensures var front := items[..|items| - 1];
      && OrderSections(settings, order, front).Some?
      && ItemSections(settings, order, items[|items| - 1]).Some?
      && OrderSections(settings, order, items).value
         == OrderSections(settings, order, front).value + ItemSections(settings, order, items[|items| - 1]).value
  {
  }

  /** Item `k`'s sections come right after those of the items before it, in order. */
  lemma {:induction false} OrderSectionsItem(settings: Settings, order: Order, items: seq<Item>, k: nat, j: nat)
    requires OrderSections(settings, order, items).Some?
    requires k < |items| && j < BoxSections(items[k])
    ensures ItemSections(settings, order, items[k]).Some?
    ensures SectionCount(items[..k]) + j < |OrderSections(settings, order, items).value|
    ensures OrderSections(settings, order, items).value[SectionCount(items[..k]) + j]
      == ItemSections(settings, order, items[k]).value[j]
    decreases |items|
  {
    var front := items[..|items| - 1];
    OrderSectionsSnoc(settings, order, items);
    var frontSections := OrderSections(settings, order, front).value;
    var last := ItemSections(settings, order, items[|items| - 1]).value;
    if k == |items| - 1 {
      assert items[..k] == front;
      OrderSectionsCount(settings, order, front);
      assert (frontSections + last)[|frontSections| + j] == last[j];
    } else {
      assert front[..k] == items[..k];
      assert front[k] == items[k];
      OrderSectionsItem(settings, order, front, k, j);
      var n := SectionCount(items[..k]) + j;
      assert (frontSections + last)[n] == frontSections[n];
    }
  }

  /**
    Item `k`'s sections come right after those of the items before it, in box order:
    its `j`-th is the section of box `j + 1` of `boxes`.
  */
  lemma OrderSectionsAt(settings: Settings, order: Order, items: seq<Item>, k: nat, j: nat)
    requires OrderSections(settings, order, items).Some?
    requires k < |items| && j < BoxSections(items[k])
    ensures TableContents(settings, order, items[k]).Some?
    ensures SectionCount(items[..k]) + j < |OrderSections(settings, order, items).value|
    ensures OrderSections(settings, order, items).value[SectionCount(items[..k]) + j]
      == BoxSection(settings, order, items[k], TableContents(settings, order, items[k]).value, j + 1)
  {
    OrderSectionsItem(settings, order, items, k, j);
    ItemSectionsAt(settings, order, items[k], j);
  }
}
