/**
  Parsing of the inventory's CSV fields into locations, quantities and items, and the
  round trip from `ToCsvRow` back through `split` and `parseInventoryLine`.
*/
module InventoryParse {
  import opened Wrappers
  import opened JavaString
  import opened InventoryItem

  /**
    The two ways parsing fails: `Integer.parseInt`'s `NumberFormatException`, and the
    `InventoryParseException` thrown for a location with fewer than three parts.
  */
  datatype Failure = NumberFormat | LocationFormat

  datatype Parsed<+T> = Ok(value: T) | Fail(failure: Failure)

  /**
    `isOptionalValue`: the field is the placeholder `-`, which is what `toCSVRow`
    writes for no location and for no quantity, and which is not a number.
  */
  predicate IsOptionalValue(value: string)
    ensures IsOptionalValue(value) <==> value == LocationField([])
    ensures IsOptionalValue(value) <==> value == QuantityField(None)
    ensures IsOptionalValue(value) ==> ParseInt(value).None?
  {
    value == Placeholder
  }

  /**
    One location: trimmed, cut at every '.', at least three parts needed and any
    further parts ignored; a third part `-` is an absent slot.
  */
  function ParsePil(location: string): (r: Parsed<Pil>)
    ensures r.Fail? ==> r.failure == LocationFormat
    ensures r.Fail? <==> |Split(Trim(location), '.')| < 3
  {
    var tokens := Split(Trim(location), '.');
    if |tokens| < 3 then Fail(LocationFormat)
    else Ok(Pil(tokens[0], tokens[1], if tokens[2] == Placeholder then None else Some(tokens[2])))
  }

  /**
    A stream of parse results collected into a list: the values in order, or the
    first failure, which ends the stream.
  */
  function Collect<T>(results: seq<Parsed<T>>): (r: Parsed<seq<T>>)
    ensures r.Ok? ==> |r.value| == |results|
    ensures r.Fail? ==> Fail(r.failure) in results
  {
    if results == [] then Ok([])
    else
      match results[0]
      case Fail(f) => Fail(f)
      case Ok(v) =>
        match Collect(results[1..])
        case Fail(f) => Fail(f)
        case Ok(vs) => Ok([v] + vs)
  }

  /** The stream of pieces mapped through the parse of one location. */
  function ParseEach(pieces: seq<string>): (r: seq<Parsed<Pil>>)
    ensures |r| == |pieces|
    ensures forall i :: 0 <= i < |pieces| ==> r[i] == ParsePil(pieces[i])
  {
    seq(|pieces|, i requires 0 <= i < |pieces| => ParsePil(pieces[i]))
  }

  /** The locations of all pieces, in order; one malformed piece fails the whole field. */
  function ParsePils(pieces: seq<string>): (r: Parsed<seq<Pil>>)
    ensures r.Ok? ==> |r.value| == |pieces|
    ensures r.Fail? ==> r.failure == LocationFormat
  {
    Collect(ParseEach(pieces))
  }

  /**
    `parseLocationString`: `-` is no location; otherwise " Y " becomes " y " and the
    field is cut at every lower-case 'y', each piece being one location.
  */
  function ParseLocationString(locations: string): (r: Parsed<seq<Pil>>)
    ensures IsOptionalValue(locations) ==> r == Ok([])
    ensures r.Fail? ==> r.failure == LocationFormat
  {
    if IsOptionalValue(locations) then Ok([])
    else ParsePils(Split(ReplaceAll(locations, LocationSeparator, " y "), 'y'))
  }

  /** A quantity field: `-` is no quantity, anything else goes through `Integer.parseInt`. */
  function ParseQuantity(quantity: string): (r: Parsed<Option<int32>>)
    ensures IsOptionalValue(quantity) ==> r == Ok(None)
    ensures r.Fail? ==> r.failure == NumberFormat
    ensures r.Ok? && r.value.Some? ==> ParseInt(quantity) == r.value
  {
    if IsOptionalValue(quantity) then Ok(None)
    else
      match ParseInt(quantity)
      case None => Fail(NumberFormat)
      case Some(v) => Ok(Some(v))
  }

  /**
    `parseInventoryLine`: the quantity is parsed first, so a bad number wins over a bad
    location; the id is kept as it is.
  */
  function ParseInventoryLine(itemId: string, pil: string, quantityString: string): (r: Parsed<Item>)
    ensures ParseQuantity(quantityString).Fail? ==> r == Fail(NumberFormat)
    ensures ParseQuantity(quantityString).Ok? && ParseLocationString(pil).Fail? ==> r == Fail(LocationFormat)
    ensures r.Ok? ==> (r.value.itemId == itemId
      && ParseQuantity(quantityString) == Ok(r.value.quantity)
      && ParseLocationString(pil) == Ok(r.value.locations))
  {
    match ParseQuantity(quantityString)
    case Fail(f) => Fail(f)
    case Ok(q) =>
      match ParseLocationString(pil)
      case Fail(f) => Fail(f)
      case Ok(ls) => Ok(Item(itemId, ls, q))
  }

  /** `parseItemLocations`: an item with the parsed locations and no quantity. */
  function ParseItemLocations(itemId: string, pil: string): (r: Parsed<Item>)
    ensures r.Ok? ==> (r.value.itemId == itemId && r.value.quantity == None
      && ParseLocationString(pil) == Ok(r.value.locations))
    ensures r.Fail? ==> r.failure == LocationFormat
  {
    match ParseLocationString(pil)
    case Fail(f) => Fail(f)
    case Ok(ls) => Ok(Item(itemId, ls, None))
  }

  /** `parseItemQuantity`: an item with the parsed quantity and no location. */
  function ParseItemQuantity(itemId: string, quantity: string): (r: Parsed<Item>)
    ensures r.Ok? ==> (r.value.itemId == itemId && r.value.locations == []
      && ParseQuantity(quantity) == Ok(r.value.quantity))
    ensures r.Fail? ==> r.failure == NumberFormat
  {
    match ParseQuantity(quantity)
    case Fail(f) => Fail(f)
    case Ok(q) => Ok(Item(itemId, [], q))
  }

  /** The text of four parts with a '.' between each two neighbours. */
  lemma JoinFour(b: string, a: string, s: string, extra: string)
    ensures Join([b, a, s, extra], ".") == b + "." + a + "." + s + "." + extra
  {
    var ps := [b, a, s, extra];
    assert ps[1..] == [a, s, extra] && ps[1..][1..] == [s, extra] && ps[1..][1..][1..] == [extra];
    assert Join([s, extra], ".") == s + "." + extra;
    assert Join([a, s, extra], ".") == a + "." + (s + "." + extra);
  }

  /** A text with nothing to trim at either end is its own trim. */
  lemma TrimUnpadded(t: string)
    requires t != [] && t[0] > ' ' && t[|t| - 1] > ' '
    ensures Trim(t) == t
  {
    TrimPadded("", t, "");
    assert "" + t + "" == t;
  }

  /** A location whose trimmed text cuts into at least three parts reads as those parts. */
  lemma ParsePilTokens(location: string, tokens: seq<string>)
    requires Split(Trim(location), '.') == tokens && |tokens| >= 3
    ensures ParsePil(location) == Ok(Pil(tokens[0], tokens[1], if tokens[2] == Placeholder then None else Some(tokens[2])))
  {
  }

  /** A location with fewer than two '.' never cuts into three parts, so it fails: "1" and "1.1" do. */
  lemma ParsePilFewDots(location: string)
    requires multiset(location)['.'] < 2
    ensures ParsePil(location) == Fail(LocationFormat)
  {
    TrimCount(location, '.');
    SplitCount(Trim(location), '.');
  }

  /**
    A location field that is one location (no space, so no " Y ", and no 'y') with
    fewer than two '.' fails as a whole.
  */
  lemma LocationFieldFewDots(locations: string)
    requires !IsOptionalValue(locations) && ' ' !in locations && 'y' !in locations
    requires multiset(locations)['.'] < 2
    ensures ParseLocationString(locations) == Fail(LocationFormat)
  {
    assert LocationSeparator[0] == ' ';
    assert ReplaceAll(locations, LocationSeparator, " y ") == locations;
    assert Split(locations, 'y') == [locations];
    ParsePilFewDots(locations);
    assert ParseEach([locations]) == [Fail(LocationFormat)];
  }

  /** A location with four or more parts reads as its first three. */
  lemma ParsePilIgnoresExtraParts(b: string, a: string, s: string, extra: string)
    requires '.' !in b && '.' !in a && '.' !in s && '.' !in extra
    requires b == [] || b[0] > ' '
    requires s != [] && s[|s| - 1] > ' ' && extra != [] && extra[|extra| - 1] > ' '
    ensures ParsePil(b + "." + a + "." + s + "." + extra) == ParsePil(b + "." + a + "." + s)
  {
    var short := b + "." + a + "." + s;
    var long := short + "." + extra;
    var parts := [b, a, s, extra];
    assert short[0] > ' ' && short[|short| - 1] > ' ';
    assert long[0] > ' ' && long[|long| - 1] > ' ';
    calc {
      Split(Trim(long), '.');
    == { TrimUnpadded(long); }
      Split(long, '.');
    == { JoinFour(b, a, s, extra); }
      Split(Join(parts, "."), '.');
    == { SplitJoin(parts, '.'); }
      parts;
    }
    calc {
      Split(Trim(short), '.');
    == { TrimUnpadded(short); }
      Split(short, '.');
    == { SplitThree(b, a, s, '.'); }
      [b, a, s];
    }
    ParsePilTokens(long, parts);
    ParsePilTokens(short, [b, a, s]);
  }

  // ---------------------------------------------------------------------------
  // Round trip
  // ---------------------------------------------------------------------------

  /** A field none of whose characters is a separator of some level. */
  predicate Plain(f: string)
  {
    ',' !in f && '.' !in f && 'y' !in f && 'Y' !in f
  }

  /**
    A location survives the round trip when its parts hold no separator character,
    nothing at its two ends is trimmed away, and a present slot is neither empty
    (`split` would drop it) nor `-` (it would read back as absent).
  */
  predicate PilRoundTrips(p: Pil)
  {
    && Plain(p.building) && Plain(p.aisle)
    && (p.building == [] || p.building[0] > ' ')
    && (p.pil.Some? ==>
          Plain(p.pil.value) && p.pil.value != [] && p.pil.value != Placeholder
          && p.pil.value[|p.pil.value| - 1] > ' ')
  }

  predicate RowRoundTrips(item: Item)
  {
    ',' !in item.itemId && forall i :: 0 <= i < |item.locations| ==> PilRoundTrips(item.locations[i])
  }

  lemma PilStringShape(p: Pil)
    requires PilRoundTrips(p)
    ensures var s := PilString(p);
      Plain(s[..0]) && ',' !in s && 'y' !in s && 'Y' !in s && s != [] && s[0] > ' ' && s[|s| - 1] > ' '
      && Split(s, '.') == [p.building, p.aisle, if p.pil.Some? then p.pil.value else Placeholder]
  {
    var slot := if p.pil.Some? then p.pil.value else Placeholder;
    assert PilString(p) == p.building + "." + p.aisle + "." + slot;
    SplitThree(p.building, p.aisle, slot, '.');
  }

  /** A location reads back from its own text, whatever blanks surround it. */
  lemma {:induction false} PilRoundTrip(pad: string, p: Pil, pad': string)
    requires PilRoundTrips(p) && Blank(pad) && Blank(pad')
    ensures ParsePil(pad + PilString(p) + pad') == Ok(p)
  {
    PilStringShape(p);
    TrimPadded(pad, PilString(p), pad');
  }

  lemma {:induction false} ReplaceJoin(xs: seq<string>)
    requires |xs| >= 1
    requires forall i :: 0 <= i < |xs| ==> 'Y' !in xs[i] && xs[i] != [] && xs[i][|xs[i]| - 1] != ' '
    ensures ReplaceAll(Join(xs, LocationSeparator), LocationSeparator, " y ") == Join(xs, " y ")
  {
    if |xs| == 1 {
      ReplaceAllSkips(xs[0], [], " y ");
      assert xs[0] + [] == xs[0];
    } else {
      var rest := Join(xs[1..], LocationSeparator);
      assert Join(xs, LocationSeparator) == xs[0] + (LocationSeparator + rest);
      ReplaceAllSkips(xs[0], LocationSeparator + rest, " y ");
      var s := LocationSeparator + rest;
      assert s[..3] == LocationSeparator && s[3..] == rest;
      ReplaceJoin(xs[1..]);
    }
  }

  lemma TrimLeadingBlank(u: string)
    ensures Trim(" " + u) == Trim(u)
  {
    assert (" " + u)[1..] == u;
  }

  /** Cutting `x + " y " + rest` at every 'y' ends the first piece after `x + " "`. */
  lemma SplitYStep(x: string, rest: string)
    requires 'y' !in x
    ensures var u := SplitAll(rest, 'y');
      SplitAll(x + " y " + rest, 'y') == [x + " "] + ([" " + u[0]] + u[1..])
  {
    var tail := " " + rest;
    assert x + " y " + rest == (x + " ") + ("y" + tail);
    SplitAllPrefix(x + " ", "y" + tail, 'y');
    assert ("y" + tail)[0] == 'y' && ("y" + tail)[1..] == tail;
    assert SplitAll("y" + tail, 'y') == [[]] + SplitAll(tail, 'y');
    SplitAllPrefix(" ", rest, 'y');
    assert (x + " ") + [] == x + " ";
  }

  /** Every text of `xs` is free of 'y', non-empty and not blank at either end. */
  predicate TrimmedPieces(xs: seq<string>)
  {
    forall i :: 0 <= i < |xs| ==> 'y' !in xs[i] && xs[i] != [] && xs[i][0] > ' ' && xs[i][|xs[i]| - 1] > ' '
  }

  /** `pieces` holds one piece per text, each trimming to it, the last never empty. */
  predicate PiecesOf(pieces: seq<string>, xs: seq<string>)
  {
    |pieces| == |xs| && |pieces| >= 1 && pieces[|pieces| - 1] != []
    && forall i :: 0 <= i < |xs| ==> Trim(pieces[i]) == xs[i]
  }

  lemma PiecesOfPad(u: seq<string>, ys: seq<string>)
    requires PiecesOf(u, ys)
    ensures PiecesOf([" " + u[0]] + u[1..], ys)
  {
    TrimLeadingBlank(u[0]);
    PiecesOfFirst(u, ys, " " + u[0]);
  }

  /** Replacing the first piece by another that trims to the same text keeps the pieces. */
  lemma PiecesOfFirst(u: seq<string>, ys: seq<string>, first: string)
    requires PiecesOf(u, ys) && Trim(first) == ys[0] && first != []
    ensures PiecesOf([first] + u[1..], ys)
  {
    var v := [first] + u[1..];
    assert v[0] == first;
    forall i | 1 <= i < |v|
      ensures v[i] == u[i]
    {
    }
    PiecesOfSameTail(v, u, ys);
  }

  lemma PiecesOfSameTail(v: seq<string>, u: seq<string>, ys: seq<string>)
    requires PiecesOf(u, ys) && |v| == |u| && v[0] != [] && Trim(v[0]) == ys[0]
    requires forall i :: 1 <= i < |v| ==> v[i] == u[i]
    ensures PiecesOf(v, ys)
  {
    assert v[|v| - 1] != [] by {
      if |v| > 1 {
        assert v[|v| - 1] == u[|u| - 1];
      }
    }
    forall i | 0 <= i < |ys|
      ensures Trim(v[i]) == ys[i]
    {
      if i > 0 {
        assert v[i] == u[i];
      }
    }
  }

  lemma PiecesOfCons(p0: string, v: seq<string>, xs: seq<string>)
    requires |xs| >= 2 && Trim(p0) == xs[0] && PiecesOf(v, xs[1..])
    ensures PiecesOf([p0] + v, xs)
  {
    var w := [p0] + v;
    forall i | 1 <= i < |xs| ensures Trim(w[i]) == xs[i] {
      assert w[i] == v[i - 1] && xs[i] == xs[1..][i - 1];
    }
  }

  /** One more text in front of the " y "-joined rest adds one piece in front. */
  lemma SplitYCons(xs: seq<string>, rest: string)
    requires |xs| >= 2 && TrimmedPieces(xs[..1])
    requires PiecesOf(SplitAll(rest, 'y'), xs[1..])
    ensures PiecesOf(SplitAll(xs[0] + " y " + rest, 'y'), xs)
  {
    var u := SplitAll(rest, 'y');
    assert xs[..1][0] == xs[0];
    SplitYStep(xs[0], rest);
    TrimPadded("", xs[0], " ");
    assert "" + xs[0] + " " == xs[0] + " ";
    PiecesOfPad(u, xs[1..]);
    PiecesOfCons(xs[0] + " ", [" " + u[0]] + u[1..], xs);
  }

  /**
    Cutting " y "-joined texts at every 'y' gives one piece per text, each the text
    with at most a blank on either side, the last piece never empty.
  */
  lemma {:induction false} SplitYJoin(xs: seq<string>)
    requires |xs| >= 1 && TrimmedPieces(xs)
    ensures PiecesOf(SplitAll(Join(xs, " y "), 'y'), xs)
  {
    if |xs| == 1 {
      SplitYOne(xs);
    } else {
      var rest := Join(xs[1..], " y ");
      assert TrimmedPieces(xs[1..]) by {
        forall i | 0 <= i < |xs| - 1 ensures xs[1..][i] == xs[i + 1] { }
      }
      assert TrimmedPieces(xs[..1]) by {
        assert xs[..1][0] == xs[0];
      }
      SplitYJoin(xs[1..]);
      assert Join(xs, " y ") == xs[0] + " y " + rest;
      SplitYCons(xs, rest);
    }
  }

  lemma SplitYOne(xs: seq<string>)
    requires |xs| == 1 && TrimmedPieces(xs)
    ensures PiecesOf(SplitAll(Join(xs, " y "), 'y'), xs)
  {
    SplitAllWithout(xs[0], 'y');
    TrimPadded("", xs[0], "");
    assert "" + xs[0] + "" == xs[0];
  }

  lemma SplitAllWithout(s: string, c: char)
    requires c !in s
    ensures SplitAll(s, c) == [s]
  {
    SplitAllPrefix(s, [], c);
    assert s + [] == s;
    assert SplitAll([], c) == [[]];
  }

  /** The texts of round-trippable locations are free of separators and trimmed. */
  lemma PilStringsShape(ls: seq<Pil>)
    requires forall i :: 0 <= i < |ls| ==> PilRoundTrips(ls[i])
    ensures var xs := PilStrings(ls);
      TrimmedPieces(xs) && forall i :: 0 <= i < |xs| ==> ',' !in xs[i] && 'Y' !in xs[i]
  {
    var xs := PilStrings(ls);
    forall i | 0 <= i < |xs|
      ensures ',' !in xs[i] && 'y' !in xs[i] && 'Y' !in xs[i] && xs[i] != []
      ensures xs[i][0] > ' ' && xs[i][|xs[i]| - 1] > ' '
    {
      PilStringShape(ls[i]);
    }
  }

  /**
    A collection succeeds exactly when every result does, and then holds the
    results' values in order.
  */
  lemma {:induction false} CollectAt<T>(results: seq<Parsed<T>>)
    ensures Collect(results).Ok? <==> forall i :: 0 <= i < |results| ==> results[i].Ok?
    ensures Collect(results).Ok? ==>
      forall i :: 0 <= i < |results| ==> results[i] == Ok(Collect(results).value[i])
  {
    if results != [] {
      var rest := results[1..];
      CollectAt(rest);
      if results[0].Ok? && Collect(rest).Fail? {
        var j :| 0 <= j < |rest| && rest[j].Fail?;
        assert results[j + 1] == rest[j];
      } else if results[0].Ok? {
        var all := [results[0].value] + Collect(rest).value;
        assert Collect(results) == Ok(all);
        forall i | 1 <= i < |results| ensures results[i] == Ok(all[i]) {
          assert results[i] == rest[i - 1] && all[i] == Collect(rest).value[i - 1];
        }
      }
    }
  }

  /** Pieces each reading as the corresponding location read as the whole list. */
  lemma ParsePilsEach(pieces: seq<string>, ls: seq<Pil>)
    requires |pieces| == |ls|
    requires forall i :: 0 <= i < |pieces| ==> ParsePil(pieces[i]) == Ok(ls[i])
    ensures ParsePils(pieces) == Ok(ls)
  {
    ParsePilsAt(pieces);
    var value := ParsePils(pieces).value;
    assert forall i :: 0 <= i < |ls| ==> value[i] == ls[i];
    assert value == ls;
  }

  /**
    The pieces parse exactly when every one of them does, and then the i-th location
    is the i-th piece's.
  */
  lemma {:induction false} ParsePilsAt(pieces: seq<string>)
    ensures ParsePils(pieces).Ok? <==> forall i :: 0 <= i < |pieces| ==> ParsePil(pieces[i]).Ok?
    ensures ParsePils(pieces).Ok? ==>
      forall i :: 0 <= i < |pieces| ==> ParsePil(pieces[i]) == Ok(ParsePils(pieces).value[i])
  {
    CollectAt(ParseEach(pieces));
  }

  /** A piece that trims to a location's text reads as that location. */
  lemma ParsePilPiece(piece: string, p: Pil)
    requires PilRoundTrips(p) && Trim(piece) == PilString(p)
    ensures ParsePil(piece) == Ok(p)
  {
    PilStringShape(p);
  }

  /** Pieces trimming to the texts of the locations read as the list of locations. */
  lemma ParsePieces(pieces: seq<string>, ls: seq<Pil>)
    requires forall i :: 0 <= i < |ls| ==> PilRoundTrips(ls[i])
    requires PiecesOf(pieces, PilStrings(ls))
    ensures ParsePils(pieces) == Ok(ls)
  {
    forall i | 0 <= i < |pieces| ensures ParsePil(pieces[i]) == Ok(ls[i]) {
      ParsePilPiece(pieces[i], ls[i]);
    }
    ParsePilsEach(pieces, ls);
  }

  /** The " y "-joined texts of the locations, cut at every 'y', read as the locations. */
  lemma ParseJoined(ls: seq<Pil>)
    requires ls != [] && forall i :: 0 <= i < |ls| ==> PilRoundTrips(ls[i])
    ensures ParsePils(Split(Join(PilStrings(ls), " y "), 'y')) == Ok(ls)
  {
    var xs := PilStrings(ls);
    PilStringsShape(ls);
    var joined := Join(xs, " y ");
    SplitYJoin(xs);
    var pieces := SplitAll(joined, 'y');
    assert Split(joined, 'y') == pieces by {
      if 'y' !in joined {
        SplitAllWithout(joined, 'y');
      }
    }
    ParsePieces(pieces, ls);
  }

  /** The location field of any list of round-trippable locations reads back as that list. */
  lemma LocationFieldRoundTrip(ls: seq<Pil>)
    requires forall i :: 0 <= i < |ls| ==> PilRoundTrips(ls[i])
    ensures ParseLocationString(LocationField(ls)) == Ok(ls)
  {
    if ls != [] {
      var xs := PilStrings(ls);
      PilStringsShape(ls);
      var field := LocationField(ls);
      assert field == Join(xs, LocationSeparator);
      assert |field| >= |xs[0]| >= 3;
      ReplaceJoin(xs);
      ParseJoined(ls);
    }
  }

  /** The quantity field reads back as the quantity. */
  lemma QuantityRoundTrip(q: Option<int32>)
    ensures ParseQuantity(QuantityField(q)) == Ok(q)
  {
    if q.Some? {
      ParseIntToString(q.value);
    }
  }

  /**
    Round trip of `toCSVRow` through `split(",")` and `parseInventoryLine`: the row has
    exactly three fields and they parse back into the same item.
  */
  lemma CsvRowRoundTrip(item: Item)
    requires RowRoundTrips(item)
    ensures var fields := Split(ToCsvRow(item), ',');
      |fields| == 3 && ParseInventoryLine(fields[0], fields[1], fields[2]) == Ok(item)
  {
    ToCsvRowFields(item);
    LocationFieldRoundTrip(item.locations);
    QuantityRoundTrip(item.quantity);
  }
}
