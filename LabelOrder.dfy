/**
  A shipping order, an immutable value, and the builder whose setters fill it in
  one field at a time.
*/
module LabelOrder {
  import opened Wrappers
  import opened LabelItem

  /**
    An order: the destination's name, address (lines separated by line feeds), city
    and zip code, its items in order, and the optional P/O and department numbers
    (empty when not given).
  */
  datatype Order = Order(
    name: string,
    address: string,
    city: string,
    zipCode: string,
    items: seq<Item>,
    po: string,
    deptNo: string)

  /** The builder; a field that no setter has been called for is still `null`. */
  class Builder {
    var name: Option<string>
    var address: Option<string>
    var city: Option<string>
    var zipCode: Option<string>
    var items: Option<seq<Item>>
    var po: Option<string>
    var deptNo: Option<string>

    /** A new builder: every field `null`. */
    constructor ()
      ensures name == None && address == None && city == None && zipCode == None
      ensures items == None && po == None && deptNo == None
    {
      name := None;
      address := None;
      city := None;
      zipCode := None;
      items := None;
      po := None;
      deptNo := None;
    }

    method SetName(name: string)
      modifies this`name
      ensures this.name == Some(name)
    {
      this.name := Some(name);
    }

    method SetAddress(address: string)
      modifies this`address
      ensures this.address == Some(address)
    {
      this.address := Some(address);
    }

    method SetCity(city: string)
      modifies this`city
      ensures this.city == Some(city)
    {
      this.city := Some(city);
    }

    method SetZipCode(zipCode: string)
      modifies this`zipCode
      ensures this.zipCode == Some(zipCode)
    {
      this.zipCode := Some(zipCode);
    }

    /** `setItems`: the items in stream order. */
    method SetItems(items: seq<Item>)
      modifies this`items
      ensures this.items == Some(items)
    {
      this.items := Some(items);
    }

    method SetPO(po: string)
      modifies this`po
      ensures this.po == Some(po)
    {
      this.po := Some(po);
    }

    method SetDeptNo(deptNo: string)
      modifies this`deptNo
      ensures this.deptNo == Some(deptNo)
    {
      this.deptNo := Some(deptNo);
    }

    /** Every field has been set. */
    predicate Complete()
      reads this
    {
      name.Some? && address.Some? && city.Some? && zipCode.Some?
      && items.Some? && po.Some? && deptNo.Some?
    }

    /**
      `build`: an order holding the last value given to each setter; `None` stands
      for an order with a `null` field.
    */
    function Build(): (r: Option<Order>)
      reads this
      ensures r.Some? <==> Complete()
      ensures r.Some? ==> && r.value.name == name.value && r.value.address == address.value
                          && r.value.city == city.value && r.value.zipCode == zipCode.value
                          && r.value.items == items.value && r.value.po == po.value
                          && r.value.deptNo == deptNo.value
    {
      if Complete() then
        Some(Order(name.value, address.value, city.value, zipCode.value, items.value, po.value, deptNo.value))
      else None
    }
  }

  /** The six text fields of the builder. */
  datatype TextField = NameField | AddressField | CityField | ZipCodeField | PoField | DeptNoField

  /** One setter call on the builder. */
  datatype Call = SetText(field: TextField, text: string) | SetItemsTo(items: seq<Item>)

  /** Whether `c` is a call of the setter for `f`. */
  predicate Sets(c: Call, f: TextField)
  {
    c.SetText? && c.field == f
  }

  /** The text the last call for `f` in `calls` gave, `None` when there is no such call. */
  function LastText(calls: seq<Call>, f: TextField): Option<string>
    decreases |calls|
  {
    if calls == [] then None
    else if Sets(calls[|calls| - 1], f) then Some(calls[|calls| - 1].text)
    else LastText(calls[..|calls| - 1], f)
  }

  /** The items the last `setItems` call in `calls` gave, `None` when there is none. */
  function LastItems(calls: seq<Call>): Option<seq<Item>>
    decreases |calls|
  {
    if calls == [] then None
    else if calls[|calls| - 1].SetItemsTo? then Some(calls[|calls| - 1].items)
    else LastItems(calls[..|calls| - 1])
  }

  /** One more call: it sets its own field and leaves the others as they were. */
  lemma LastSnoc(calls: seq<Call>, c: Call)
    ensures forall f :: LastText(calls + [c], f) == if Sets(c, f) then Some(c.text) else LastText(calls, f)
    ensures LastItems(calls + [c]) == if c.SetItemsTo? then Some(c.items) else LastItems(calls)
  {
    assert (calls + [c])[..|calls|] == calls;
  }

  /** A field is set exactly when some call sets it. */
  lemma {:induction false} LastTextSome(calls: seq<Call>, f: TextField)
    ensures LastText(calls, f).Some? <==> exists i :: 0 <= i < |calls| && Sets(calls[i], f)
    decreases |calls|
  {
    if calls != [] {
      var front := calls[..|calls| - 1];
      LastTextSome(front, f);
      assert calls == front + [calls[|calls| - 1]];
      if (exists i :: 0 <= i < |front| && Sets(front[i], f)) {
        var i :| 0 <= i < |front| && Sets(front[i], f);
        assert calls[i] == front[i];
      }
    }
  }

  /**
    What `build` gives after the setter calls `calls` on a new builder: the order of
    the last value given to each field, or `None` when some field was never set.
  */
  function OrderOf(calls: seq<Call>): Option<Order>
  {
    var name := LastText(calls, NameField);
    var address := LastText(calls, AddressField);
    var city := LastText(calls, CityField);
    var zipCode := LastText(calls, ZipCodeField);
    var items := LastItems(calls);
    var po := LastText(calls, PoField);
    var deptNo := LastText(calls, DeptNoField);
    if name.Some? && address.Some? && city.Some? && zipCode.Some? && items.Some? && po.Some? && deptNo.Some? then
      Some(Order(name.value, address.value, city.value, zipCode.value, items.value, po.value, deptNo.value))
    else None
  }

  /** The field a call sets; the items are told apart from the texts by `None`. */
  function FieldOf(c: Call): Option<TextField>
  {
    if c.SetText? then Some(c.field) else None
  }

  /**
    Setters called in any order, each on a new builder: `build` gives the order of
    the last value passed to each setter.
  */
  method BuildFrom(calls: seq<Call>) returns (r: Option<Order>)
    ensures r == OrderOf(calls)
  {
    var b := new Builder();
    for i := 0 to |calls|
      invariant b.name == LastText(calls[..i], NameField)
      invariant b.address == LastText(calls[..i], AddressField)
      invariant b.city == LastText(calls[..i], CityField)
      invariant b.zipCode == LastText(calls[..i], ZipCodeField)
      invariant b.items == LastItems(calls[..i])
      invariant b.po == LastText(calls[..i], PoField)
      invariant b.deptNo == LastText(calls[..i], DeptNoField)
    {
      match calls[i] {
        case SetItemsTo(items) => b.SetItems(items);
        case SetText(f, text) =>
          match f {
            case NameField => b.SetName(text);
            case AddressField => b.SetAddress(text);
            case CityField => b.SetCity(text);
            case ZipCodeField => b.SetZipCode(text);
            case PoField => b.SetPO(text);
            case DeptNoField => b.SetDeptNo(text);
          }
      }
      assert calls[..i + 1] == calls[..i] + [calls[i]];
      LastSnoc(calls[..i], calls[i]);
    }
    assert calls[..|calls|] == calls;
    r := b.Build();
  }

  /** Two neighbouring calls on different fields can be swapped without changing the order built. */
  lemma {:induction false} SwapCalls(front: seq<Call>, c: Call, d: Call, back: seq<Call>)
    requires FieldOf(c) != FieldOf(d)
    ensures OrderOf(front + [c, d] + back) == OrderOf(front + [d, c] + back)
  {
    forall f: TextField
      ensures LastText(front + [c, d] + back, f) == LastText(front + [d, c] + back, f)
    {
      SwapLastText(front, c, d, back, f);
    }
    SwapLastItems(front, c, d, back);
  }

  lemma {:induction false} SwapLastText(front: seq<Call>, c: Call, d: Call, back: seq<Call>, f: TextField)
    requires FieldOf(c) != FieldOf(d)
    ensures LastText(front + [c, d] + back, f) == LastText(front + [d, c] + back, f)
    decreases |back|
  {
    if back == [] {
      assert front + [c, d] + back == (front + [c]) + [d];
      assert front + [d, c] + back == (front + [d]) + [c];
      LastSnoc(front + [c], d);
      LastSnoc(front + [d], c);
      LastSnoc(front, c);
      LastSnoc(front, d);
    } else {
      var rest := back[..|back| - 1];
      var z := back[|back| - 1];
      assert front + [c, d] + back == (front + [c, d] + rest) + [z];
      assert front + [d, c] + back == (front + [d, c] + rest) + [z];
      LastSnoc(front + [c, d] + rest, z);
      LastSnoc(front + [d, c] + rest, z);
      SwapLastText(front, c, d, rest, f);
    }
  }

  lemma {:induction false} SwapLastItems(front: seq<Call>, c: Call, d: Call, back: seq<Call>)
    requires FieldOf(c) != FieldOf(d)
    ensures LastItems(front + [c, d] + back) == LastItems(front + [d, c] + back)
    decreases |back|
  {
    if back == [] {
      assert front + [c, d] + back == (front + [c]) + [d];
      assert front + [d, c] + back == (front + [d]) + [c];
      LastSnoc(front + [c], d);
      LastSnoc(front + [d], c);
      LastSnoc(front, c);
      LastSnoc(front, d);
    } else {
      var rest := back[..|back| - 1];
      var z := back[|back| - 1];
      assert front + [c, d] + back == (front + [c, d] + rest) + [z];
      assert front + [d, c] + back == (front + [d, c] + rest) + [z];
      LastSnoc(front + [c, d] + rest, z);
      LastSnoc(front + [d, c] + rest, z);
      SwapLastItems(front, c, d, rest);
    }
  }

  /** A later call to a setter overrides every earlier one: the order built holds its value. */
  lemma LaterCallOverrides(calls: seq<Call>, f: TextField, text: string)
    ensures LastText(calls + [SetText(f, text)], f) == Some(text)
    ensures forall g :: g != f ==> LastText(calls + [SetText(f, text)], g) == LastText(calls, g)
    ensures LastItems(calls + [SetText(f, text)]) == LastItems(calls)
  {
    LastSnoc(calls, SetText(f, text));
  }
}
