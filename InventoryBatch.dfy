/**
  What one batch of CSV lines does to the inventory map: the per-row rules of
  `loadInventory`, `updateLocations` and `updateQuantity`, the fold of those rules over
  the rows, and what that fold guarantees (error order, last write wins, no rollback,
  the invariants every batch keeps).
*/
module InventoryBatch {
  import opened Wrappers
  import opened JavaString
  import opened InventoryItem
  import opened InventoryParse

  /** A recorded error (the message text is left out; its kind and line are kept). */
  datatype Error =
    | MissingHeader                                 // the first line is not the expected header
    | RowTooShort(line: nat)                        // "has errors": fewer than three fields
    | InvalidFormat(line: nat)                      // "has an invalid format"
    | UnknownBuilding(line: nat)                    // "has an unknown building"
    | DuplicateItem(line: nat, itemId: string)      // "already exists in inventory, updating anyways"
    | InvalidItemNumber(line: nat, itemId: string)  // "has invalid item number"
  {
    /** The file line the error is about; the header is line 1. */
    function Line(): nat
    {
      if MissingHeader? then 1 else line
    }
  }

  /** Why a batch stopped half-way: an exception that escapes the batch method. */
  datatype Abort =
    | BadQuantity(line: nat)                     // NumberFormatException from Integer.parseInt
    | BadLocation(line: nat)                     // InventoryParseException outside the load loop
    | MissingField(line: nat)                    // ArrayIndexOutOfBoundsException on a short row
    | UnknownOperation(line: nat, op: string)    // "Bad action"
    | NotLoaded(line: nat)                       // NullPointerException: no map before a load
    | UnsupportedRemove                          // removing the header from an unmodifiable list
    | EmptyFile                                  // IndexOutOfBoundsException: no header line to remove

  /** What a batch returns: its errors, or the exception that ended it. */
  datatype Outcome = Done(errors: seq<Error>) | Aborted(reason: Abort)

  /** An outcome together with the map as the batch left it. */
  datatype Run = Run(outcome: Outcome, inventory: map<string, Item>)

  /** One row's effect: errors recorded and the new map, or the exception it throws. */
  datatype Step = Continue(errors: seq<Error>, inventory: map<string, Item>) | Stop(reason: Abort)

  datatype Batch = Load | Locations | Quantities

  const InventoryHeader: string := "item number,pil,quantity"

  /**
    The header test: the first three comma fields, lower-cased, are "item number",
    `second` and `third`. For lower-case words that is `equalsIgnoreCase` on each of
    the three fields, and any further field is ignored.
  */
  predicate IsHeader(line: string, second: string, third: string)
    ensures IsHeader(line, second, third) ==> HeaderFields(line, second, third)
    ensures LowerAscii(second) == second && LowerAscii(third) == third && HeaderFields(line, second, third)
      ==> IsHeader(line, second, third)
  {
    var tokens := Split(line, ',');
    if |tokens| < 3 then false
    else
      LowerItemNumber("item number");
      LowerEqualsIgnoreCase(tokens[0], "item number");
      LowerEqualsIgnoreCase(tokens[1], second);
      LowerEqualsIgnoreCase(tokens[2], third);
      LowerAscii(tokens[0]) == "item number" && LowerAscii(tokens[1]) == second && LowerAscii(tokens[2]) == third
  }

  /** At least three comma fields, the first three equal, ignoring case, to the header words. */
  predicate HeaderFields(line: string, second: string, third: string)
  {
    var tokens := Split(line, ',');
    |tokens| >= 3 && EqualsIgnoreCase(tokens[0], "item number")
    && EqualsIgnoreCase(tokens[1], second) && EqualsIgnoreCase(tokens[2], third)
  }

  lemma LowerItemNumber(word: string)
    requires word == "item number"
    ensures LowerAscii(word) == word
  {
  }

  /**
    `checkItemLocations`: every location is in a registered building; an item with
    no location, as every quantity item is, always passes.
  */
  predicate KnownLocations(buildings: set<string>, ls: seq<Pil>)
    ensures KnownLocations(buildings, ls) <==> forall p :: p in ls ==> p.building in buildings
    ensures ls == [] ==> KnownLocations(buildings, ls)
  {
    forall i :: 0 <= i < |ls| ==> ls[i].building in buildings
  }

  /** Every item in the map is stored under its own id. */
  predicate KeysConsistent(m: map<string, Item>)
  {
    forall k :: k in m ==> m[k].itemId == k
  }

  /** Every location of every item is in a registered building. */
  predicate AllKnown(buildings: set<string>, m: map<string, Item>)
  {
    forall k :: k in m ==> KnownLocations(buildings, m[k].locations)
  }

  /**
    One data row of a load, numbered `n`. Only a bad quantity escapes the loop; every
    other problem is recorded on the row's line. A row never removes an item, and a
    row that changes the map records at most the duplicate warning.
  */
  function LoadStep(buildings: set<string>, m: map<string, Item>, line: string, n: nat): (r: Step)
    ensures r.Stop? ==> r.reason == BadQuantity(n)
    ensures r.Continue? ==> forall i :: 0 <= i < |r.errors| ==> r.errors[i].Line() == n
    ensures r.Continue? ==> m.Keys <= r.inventory.Keys
    ensures r.Continue? && r.inventory != m ==> forall e :: e in r.errors ==> e.DuplicateItem?
  {
    var tokens := Split(line, ',');
    if |tokens| < 3 then Continue([RowTooShort(n), InvalidFormat(n)], m)
    else
      match ParseInventoryLine(tokens[0], tokens[1], tokens[2])
      case Fail(NumberFormat) => Stop(BadQuantity(n))
      case Fail(LocationFormat) => Continue([InvalidFormat(n)], m)
      case Ok(item) =>
        if !KnownLocations(buildings, item.locations) then Continue([UnknownBuilding(n)], m)
        else Continue(if item.itemId in m then [DuplicateItem(n, item.itemId)] else [], m[item.itemId := item])
  }

  /**
    `updateInventoryWithLocations` / `updateInventoryWithQuantity`: the stored item
    with the row's field replaced and its other field kept.
  */
  function Merge(batch: Batch, stored: Item, item: Item): (r: Item)
    ensures r.itemId == stored.itemId
    ensures batch == Locations ==> r.locations == item.locations && r.quantity == stored.quantity
    ensures batch != Locations ==> r.quantity == item.quantity && r.locations == stored.locations
  {
    if batch == Locations then stored.UpdateLocations(item.locations) else stored.UpdateQuantity(item.quantity)
  }

  predicate KnownOperation(operation: string)
  {
    operation == "add" || operation == "delete" || operation == "update"
  }

  /**
    The `switch` on a known operation, once the map exists: it never throws, touches
    no entry but the row's id, removes that id on `delete`, and records an error,
    changing nothing, exactly when an `update` names an id that is not stored.
  */
  function Apply(batch: Batch, operation: string, item: Item, m: map<string, Item>, n: nat): (r: Step)
    requires KnownOperation(operation)
    ensures r.Continue?
    ensures forall k :: k != item.itemId ==> (k in r.inventory <==> k in m)
    ensures forall k :: k != item.itemId && k in m ==> r.inventory[k] == m[k]
    ensures operation == "delete" ==> item.itemId !in r.inventory
    ensures operation != "delete" ==> item.itemId in r.inventory || item.itemId !in m
    ensures r.errors != [] <==> operation == "update" && item.itemId !in m
    ensures r.errors != [] ==> r.errors == [InvalidItemNumber(n, item.itemId)] && r.inventory == m
  {
    var id := item.itemId;
    if operation == "delete" then Continue([], m - {id})
    else if id in m then Continue([], m[id := Merge(batch, m[id], item)])
    else if operation == "add" then Continue([], m[id := item])
    else Continue([InvalidItemNumber(n, id)], m)
  }

  /** The item a row of an update batch describes: locations or quantity from the third field. */
  function ParseUpdateItem(batch: Batch, itemId: string, field: string): Parsed<Item>
  {
    if batch == Locations then ParseItemLocations(itemId, field) else ParseItemQuantity(itemId, field)
  }

  /**
    One data row of an update batch, numbered `n`. A short row, a field that does not
    parse, an unknown operation and a map that was never loaded end the batch, with
    an exception naming the row; the building check is skipped for `delete`. A row
    records at most one error, and a row that records one changes nothing.
  */
  function UpdateStep(batch: Batch, buildings: set<string>, loaded: bool, m: map<string, Item>, line: string, n: nat): (r: Step)
    ensures r.Stop? ==> !r.reason.UnsupportedRemove? && !r.reason.EmptyFile? && r.reason.line == n
    ensures r.Continue? ==> |r.errors| <= 1 && forall i :: 0 <= i < |r.errors| ==> r.errors[i].Line() == n
    ensures r.Continue? && r.errors != [] ==> r.inventory == m
  {
    var tokens := Split(line, ',');
    if |tokens| < 3 then Stop(MissingField(n))
    else
      match ParseUpdateItem(batch, tokens[0], tokens[2])
      case Fail(f) => Stop(if f == NumberFormat then BadQuantity(n) else BadLocation(n))
      case Ok(item) =>
        var operation := LowerAscii(tokens[1]);
        if !(operation == "delete" || KnownLocations(buildings, item.locations)) then Continue([UnknownBuilding(n)], m)
        else if !KnownOperation(operation) then Stop(UnknownOperation(n, tokens[1]))
        else if !loaded then Stop(NotLoaded(n))
        else Apply(batch, operation, item, m, n)
  }

  function RowStep(batch: Batch, buildings: set<string>, loaded: bool, m: map<string, Item>, line: string, n: nat): Step
  {
    if batch == Load then LoadStep(buildings, m, line, n) else UpdateStep(batch, buildings, loaded, m, line, n)
  }

  /** Puts `errors` in front of a finished run's errors; an aborted run loses them. */
  function Prepend(errors: seq<Error>, r: Run): Run
  {
    if r.outcome.Done? then Run(Done(errors + r.outcome.errors), r.inventory) else r
  }

  /** The effect of one row, given the map before it, its text and its line number. */
  type RowRule = (map<string, Item>, string, nat) -> Step

  /**
    The rows `lines`, the first numbered `n`, applied one after the other to `m`.
    Only a row throws: no rows at all finish with no error and the map unchanged.
  */
  function Fold(rule: RowRule, m: map<string, Item>, lines: seq<string>, n: nat): (r: Run)
    ensures lines == [] ==> r == Run(Done([]), m)
    ensures r.outcome.Aborted? ==> lines != []
    decreases |lines|
  {
    if lines == [] then Run(Done([]), m)
    else
      match rule(m, lines[0], n)
      case Stop(reason) => Run(Aborted(reason), m)
      case Continue(errors, m') => Prepend(errors, Fold(rule, m', lines[1..], n + 1))
  }

  function Rule(batch: Batch, buildings: set<string>, loaded: bool): RowRule
  {
    (m: map<string, Item>, line: string, n: nat) => RowStep(batch, buildings, loaded, m, line, n)
  }

  /** The rows of one batch, over the map `m`. */
  function Rows(batch: Batch, buildings: set<string>, loaded: bool, m: map<string, Item>, lines: seq<string>, n: nat): Run
  {
    Fold(Rule(batch, buildings, loaded), m, lines, n)
  }

  /** After the rows before `i`, a row that finishes adds its errors and hands on its map. */
  lemma FoldAdvance(rule: RowRule, m: map<string, Item>, lines: seq<string>, i: nat, errors: seq<Error>, whole: Run)
    requires i < |lines| && Prepend(errors, Fold(rule, m, lines[i..], i + 1)) == whole
    ensures var s := rule(m, lines[i], i + 1);
      && (s.Stop? ==> whole == Run(Aborted(s.reason), m))
      && (s.Continue? ==> Prepend(errors + s.errors, Fold(rule, s.inventory, lines[i + 1..], i + 2)) == whole)
  {
    assert lines[i..][0] == lines[i] && lines[i..][1..] == lines[i + 1..];
    var s := rule(m, lines[i], i + 1);
    if s.Continue? {
      PrependPrepend(errors, s.errors, Fold(rule, s.inventory, lines[i + 1..], i + 2));
    }
  }

  /**
    `loadInventory` with the header line consumed: no line changes nothing, a wrong
    header is one error, otherwise the map starts empty and the rows follow from line 2.
  */
  function LoadRun(buildings: set<string>, m: map<string, Item>, lines: seq<string>): (r: Run)
    ensures lines == [] ==> r == Run(Done([]), m)
    ensures lines != [] && !IsHeader(lines[0], "pil", "quantity") ==> r == Run(Done([MissingHeader]), m)
  {
    if lines == [] then Run(Done([]), m)
    else if !IsHeader(lines[0], "pil", "quantity") then Run(Done([MissingHeader]), m)
    else Rows(Load, buildings, true, map[], lines[1..], 2)
  }

  /** Whether a load replaces the map: the map exists from then on, even if a row aborts. */
  predicate LoadStarts(lines: seq<string>)
  {
    lines != [] && IsHeader(lines[0], "pil", "quantity")
  }

  /** `loadInventory` as written: removing the header from an unmodifiable list throws. */
  function LoadAsWritten(buildings: set<string>, m: map<string, Item>, lines: seq<string>): (r: Run)
    ensures r.inventory == m
    ensures lines != [] <==> r.outcome.Aborted?
  {
    if lines == [] then Run(Done([]), m) else Run(Aborted(UnsupportedRemove), m)
  }

  /** The header line of an update batch. */
  function UpdateThird(batch: Batch): string
  {
    if batch == Locations then "pil" else "quantity"
  }

  /**
    `updateLocations` / `updateQuantity` over all their lines, the first being the
    header; the internal errors, before `updateQuantity` discards them. With no line
    at all there is no header to remove and the call throws.
  */
  function UpdateRun(batch: Batch, buildings: set<string>, loaded: bool, m: map<string, Item>, lines: seq<string>): (r: Run)
    requires batch != Load
    ensures lines == [] ==> r == Run(Aborted(EmptyFile), m)
    ensures lines != [] && !IsHeader(lines[0], "operation", UpdateThird(batch)) ==> r == Run(Done([MissingHeader]), m)
  {
    if lines == [] then Run(Aborted(EmptyFile), m)
    else if !IsHeader(lines[0], "operation", UpdateThird(batch)) then Run(Done([MissingHeader]), m)
    else Rows(batch, buildings, loaded, m, lines[1..], 2)
  }

  /** What `updateQuantity` as written returns: an empty error stream unless it throws. */
  function QuantityOutcome(r: Run): (o: Outcome)
    ensures o.Done? ==> o.errors == []
    ensures o.Aborted? <==> r.outcome.Aborted?
  {
    if r.outcome.Done? then Done([]) else r.outcome
  }

  // ---------------------------------------------------------------------------
  // Error order
  // ---------------------------------------------------------------------------

  /** Every error of one row carries that row's number. */
  lemma StepErrorLines(batch: Batch, buildings: set<string>, loaded: bool, m: map<string, Item>, line: string, n: nat)
    ensures var s := RowStep(batch, buildings, loaded, m, line, n);
      s.Continue? ==> forall i :: 0 <= i < |s.errors| ==> s.errors[i].Line() == n
  {
  }

  /** Errors in line order, each on one of the rows `n .. n + |lines| - 1`. */
  predicate LinesInOrder(errors: seq<Error>, low: nat, high: nat)
  {
    && (forall i :: 0 <= i < |errors| ==> low <= errors[i].Line() < high)
    && (forall i, j :: 0 <= i < j < |errors| ==> errors[i].Line() <= errors[j].Line())
  }

  /** Every error of a row the rule lets through carries that row's number. */
  ghost predicate ErrorsOnOwnRow(rule: RowRule)
  {
    forall m: map<string, Item>, line: string, k: nat :: rule(m, line, k).Continue? ==>
      forall i :: 0 <= i < |rule(m, line, k).errors| ==> rule(m, line, k).errors[i].Line() == k
  }

  /** A fold of such a rule over rows `n ..` reports its errors in row order. */
  lemma {:induction false} FoldErrorsInOrder(rule: RowRule, m: map<string, Item>, lines: seq<string>, n: nat)
    requires ErrorsOnOwnRow(rule)
    ensures var r := Fold(rule, m, lines, n);
      r.outcome.Done? ==> LinesInOrder(r.outcome.errors, n, n + |lines|)
    decreases |lines|
  {
    if lines != [] {
      var s := rule(m, lines[0], n);
      if s.Continue? {
        var rest := Fold(rule, s.inventory, lines[1..], n + 1);
        FoldErrorsInOrder(rule, s.inventory, lines[1..], n + 1);
        if rest.outcome.Done? {
          var all := s.errors + rest.outcome.errors;
          assert Fold(rule, m, lines, n).outcome.errors == all;
          assert forall i :: 0 <= i < |s.errors| ==> all[i].Line() == n;
          assert forall i :: |s.errors| <= i < |all| ==> all[i] == rest.outcome.errors[i - |s.errors|];
        }
      }
    }
  }

  /** The rows of one batch report their errors in row order. */
  lemma RowsErrorsInOrder(batch: Batch, buildings: set<string>, loaded: bool, m: map<string, Item>, lines: seq<string>, n: nat)
    ensures var r := Rows(batch, buildings, loaded, m, lines, n);
      r.outcome.Done? ==> LinesInOrder(r.outcome.errors, n, n + |lines|)
  {
    var rule := Rule(batch, buildings, loaded);
    forall m': map<string, Item>, line: string, k: nat | rule(m', line, k).Continue?
      ensures forall i :: 0 <= i < |rule(m', line, k).errors| ==> rule(m', line, k).errors[i].Line() == k
    {
      StepErrorLines(batch, buildings, loaded, m', line, k);
    }
    FoldErrorsInOrder(rule, m, lines, n);
  }

  /** A load's errors come in file-line order: the header is line 1, the rows lines 2 onwards. */
  lemma LoadErrorsInOrder(buildings: set<string>, m: map<string, Item>, lines: seq<string>)
    ensures var r := LoadRun(buildings, m, lines);
      r.outcome.Done? ==> LinesInOrder(r.outcome.errors, 1, |lines| + 1)
  {
    if LoadStarts(lines) {
      RowsErrorsInOrder(Load, buildings, true, map[], lines[1..], 2);
    }
  }

  /** An update batch's errors come in file-line order. */
  lemma UpdateErrorsInOrder(batch: Batch, buildings: set<string>, loaded: bool, m: map<string, Item>, lines: seq<string>)
    requires batch != Load
    ensures var r := UpdateRun(batch, buildings, loaded, m, lines);
      r.outcome.Done? ==> LinesInOrder(r.outcome.errors, 1, |lines| + 1)
  {
    if lines != [] && IsHeader(lines[0], "operation", UpdateThird(batch)) {
      RowsErrorsInOrder(batch, buildings, loaded, m, lines[1..], 2);
    }
  }

  // ---------------------------------------------------------------------------
  // Sequencing and no rollback
  // ---------------------------------------------------------------------------

  lemma PrependNothing(r: Run)
    ensures Prepend([], r) == r
  {
    if r.outcome.Done? {
      assert [] + r.outcome.errors == r.outcome.errors;
    }
  }

  lemma PrependPrepend(a: seq<Error>, b: seq<Error>, r: Run)
    ensures Prepend(a, Prepend(b, r)) == Prepend(a + b, r)
  {
    if r.outcome.Done? {
      assert a + (b + r.outcome.errors) == (a + b) + r.outcome.errors;
    }
  }

  /** Running `front + back` is running `front`, then `back` on the map it left. */
  lemma {:induction false} FoldAppend(rule: RowRule, m: map<string, Item>, front: seq<string>, back: seq<string>, n: nat)
    ensures var r := Fold(rule, m, front, n);
      Fold(rule, m, front + back, n) ==
        if r.outcome.Done? then Prepend(r.outcome.errors, Fold(rule, r.inventory, back, n + |front|))
        else r
    decreases |front|
  {
    if front == [] {
      assert front + back == back;
      var r := Fold(rule, m, back, n);
      if r.outcome.Done? {
        assert [] + r.outcome.errors == r.outcome.errors;
      }
    } else {
      assert (front + back)[0] == front[0] && (front + back)[1..] == front[1..] + back;
      var s := rule(m, front[0], n);
      if s.Continue? {
        FoldAppend(rule, s.inventory, front[1..], back, n + 1);
        var r' := Fold(rule, s.inventory, front[1..], n + 1);
        if r'.outcome.Done? {
          PrependPrepend(s.errors, r'.outcome.errors, Fold(rule, r'.inventory, back, n + 1 + |front[1..]|));
        }
      }
    }
  }

  /**
    Row `j` is the one that throws: the rows before it finish, leaving the map the
    whole batch leaves.
  */
  predicate StopsAt(rule: RowRule, m: map<string, Item>, lines: seq<string>, n: nat, j: nat)
    requires j < |lines| && Fold(rule, m, lines, n).outcome.Aborted?
  {
    var before := Fold(rule, m, lines[..j], n);
    && before.outcome.Done?
    && before.inventory == Fold(rule, m, lines, n).inventory
    && rule(before.inventory, lines[j], n + j) == Stop(Fold(rule, m, lines, n).outcome.reason)
  }

  /**
    No rollback: a batch that aborts keeps every change made by the rows before the
    one that threw, and that row is the first to stop.
  */
  lemma {:induction false} NoRollback(rule: RowRule, m: map<string, Item>, lines: seq<string>, n: nat)
    requires Fold(rule, m, lines, n).outcome.Aborted?
    ensures exists j :: 0 <= j < |lines| && StopsAt(rule, m, lines, n, j)
    decreases |lines|
  {
    var s := rule(m, lines[0], n);
    assert Fold(rule, m, lines[..0], n) == Run(Done([]), m) by {
      assert lines[..0] == [];
    }
    if s.Continue? {
      NoRollback(rule, s.inventory, lines[1..], n + 1);
      var r' := Fold(rule, s.inventory, lines[1..], n + 1);
      var j :| 0 <= j < |lines[1..]| && StopsAt(rule, s.inventory, lines[1..], n + 1, j);
      assert lines[..j + 1][0] == lines[0] && lines[..j + 1][1..] == lines[1..][..j];
      assert lines[1..][j] == lines[j + 1];
      var before := Fold(rule, s.inventory, lines[1..][..j], n + 1);
      assert Fold(rule, m, lines[..j + 1], n) == Prepend(s.errors, before);
      assert StopsAt(rule, m, lines, n, j + 1);
    } else {
      assert StopsAt(rule, m, lines, n, 0);
    }
  }

  // ---------------------------------------------------------------------------
  // Invariants every batch keeps
  // ---------------------------------------------------------------------------

  /** A known operation on a loaded map stores items under their ids, in registered buildings only. */
  lemma ApplyKeepsInvariants(batch: Batch, buildings: set<string>, operation: string, item: Item, m: map<string, Item>, n: nat)
    requires KeysConsistent(m) && AllKnown(buildings, m)
    requires KnownOperation(operation)
    requires operation == "delete" || KnownLocations(buildings, item.locations)
    ensures var s := Apply(batch, operation, item, m, n);
      s.Continue? ==> KeysConsistent(s.inventory) && AllKnown(buildings, s.inventory)
  {
    var id := item.itemId;
    if operation != "delete" && id in m {
      var merged := Merge(batch, m[id], item);
      assert merged.itemId == id;
      assert KnownLocations(buildings, merged.locations);
    }
  }

  lemma StepKeepsInvariants(batch: Batch, buildings: set<string>, loaded: bool, m: map<string, Item>, line: string, n: nat)
    requires KeysConsistent(m) && AllKnown(buildings, m)
    ensures var s := RowStep(batch, buildings, loaded, m, line, n);
      s.Continue? ==> KeysConsistent(s.inventory) && AllKnown(buildings, s.inventory)
  {
    var tokens := Split(line, ',');
    if batch != Load && |tokens| >= 3 {
      var parsed := ParseUpdateItem(batch, tokens[0], tokens[2]);
      if parsed.Ok? {
        var operation := LowerAscii(tokens[1]);
        if KnownOperation(operation) && (operation == "delete" || KnownLocations(buildings, parsed.value.locations)) {
          ApplyKeepsInvariants(batch, buildings, operation, parsed.value, m, n);
        }
      }
    }
  }

  /** Before any load, an update row that finishes leaves the map as it was. */
  lemma UnloadedStep(batch: Batch, buildings: set<string>, m: map<string, Item>, line: string, n: nat)
    requires batch != Load
    ensures var s := RowStep(batch, buildings, false, m, line, n);
      s.Continue? ==> s.inventory == m
  {
  }

  /**
    What the `Inventory` object keeps true between calls: no map means no items, ids
    are keys, and every location is in a registered building.
  */
  predicate Consistent(buildings: set<string>, loaded: bool, m: map<string, Item>)
  {
    (!loaded ==> m == map[]) && KeysConsistent(m) && AllKnown(buildings, m)
  }

  /** Every batch, finished or aborted, keeps ids as keys and only registered buildings. */
  lemma {:induction false} RowsKeepInvariants(batch: Batch, buildings: set<string>, loaded: bool, m: map<string, Item>, lines: seq<string>, n: nat)
    requires KeysConsistent(m) && AllKnown(buildings, m)
    ensures var r := Rows(batch, buildings, loaded, m, lines, n);
      KeysConsistent(r.inventory) && AllKnown(buildings, r.inventory)
    decreases |lines|
  {
    if lines != [] {
      var s := RowStep(batch, buildings, loaded, m, lines[0], n);
      if s.Continue? {
        StepKeepsInvariants(batch, buildings, loaded, m, lines[0], n);
        RowsKeepInvariants(batch, buildings, loaded, s.inventory, lines[1..], n + 1);
      }
    }
  }

  // ---------------------------------------------------------------------------
  // Load: the accepted rows, last write wins
  // ---------------------------------------------------------------------------

  /** The item a load row adds to the map, if it adds one. */
  function AcceptedItem(buildings: set<string>, line: string): Option<Item>
  {
    var tokens := Split(line, ',');
    if |tokens| < 3 then None
    else
      match ParseInventoryLine(tokens[0], tokens[1], tokens[2])
      case Fail(_) => None
      case Ok(item) => if KnownLocations(buildings, item.locations) then Some(item) else None
  }

  /** The items of the rows a load accepts, in file order. */
  function Accepted(buildings: set<string>, lines: seq<string>): (r: seq<Item>)
    ensures |r| <= |lines|
  {
    if lines == [] then []
    else
      var rest := Accepted(buildings, lines[1..]);
      match AcceptedItem(buildings, lines[0])
      case None => rest
      case Some(item) => [item] + rest
  }

  /** `m` with every item put under its id, in order. */
  function PutAll(m: map<string, Item>, items: seq<Item>): map<string, Item>
    decreases |items|
  {
    if items == [] then m else PutAll(m[items[0].itemId := items[0]], items[1..])
  }

  /**
    Last write wins: a key is present exactly when it was present or some item has it
    as id; the value is the last such item, or the old value if there is none.
  */
  lemma {:induction false} PutAllLookup(m: map<string, Item>, items: seq<Item>, k: string)
    ensures k in PutAll(m, items) <==> k in m || exists i :: 0 <= i < |items| && items[i].itemId == k
    ensures forall i :: (0 <= i < |items| && items[i].itemId == k
      && forall j :: i < j < |items| ==> items[j].itemId != k) ==> PutAll(m, items)[k] == items[i]
    ensures k in m && (forall i :: 0 <= i < |items| ==> items[i].itemId != k) ==> PutAll(m, items)[k] == m[k]
    decreases |items|
  {
    if items != [] {
      var m' := m[items[0].itemId := items[0]];
      PutAllLookup(m', items[1..], k);
      forall i | 1 <= i < |items| ensures items[1..][i - 1] == items[i] { }
      if k in m' && !(k in m) {
        assert items[0].itemId == k;
      }
    }
  }

  /** A finished load's map is the start map with the accepted rows' items put in file order. */
  lemma {:induction false} LoadContents(buildings: set<string>, m: map<string, Item>, lines: seq<string>, n: nat)
    ensures var r := Rows(Load, buildings, true, m, lines, n);
      r.outcome.Done? ==> r.inventory == PutAll(m, Accepted(buildings, lines))
    decreases |lines|
  {
    if lines != [] {
      var s := LoadStep(buildings, m, lines[0], n);
      if s.Continue? {
        LoadContents(buildings, s.inventory, lines[1..], n + 1);
      }
    }
  }

  /**
    After a finished load, an id is in the map exactly when some accepted row carries
    it, and it maps to the last such row's item.
  */
  lemma LoadLastWriteWins(buildings: set<string>, m: map<string, Item>, lines: seq<string>, k: string)
    requires LoadStarts(lines) && LoadRun(buildings, m, lines).outcome.Done?
    ensures var r := LoadRun(buildings, m, lines);
      var items := Accepted(buildings, lines[1..]);
      && (k in r.inventory <==> exists i :: 0 <= i < |items| && items[i].itemId == k)
      && forall i :: (0 <= i < |items| && items[i].itemId == k
           && forall j :: i < j < |items| ==> items[j].itemId != k) ==> r.inventory[k] == items[i]
  {
    LoadContents(buildings, map[], lines[1..], 2);
    PutAllLookup(map[], Accepted(buildings, lines[1..]), k);
  }

  /** A single row that finishes: its errors and its map. */
  lemma FoldOne(rule: RowRule, m: map<string, Item>, line: string, n: nat)
    requires rule(m, line, n).Continue?
    ensures Fold(rule, m, [line], n) == Run(Done(rule(m, line, n).errors), rule(m, line, n).inventory)
  {
    var s := rule(m, line, n);
    assert [line][0] == line && [line][1..] == [];
    assert Fold(rule, s.inventory, [], n + 1) == Run(Done([]), s.inventory);
    assert s.errors + [] == s.errors;
  }

  /**
    A row the load accepts puts its item under its id, with the duplicate warning
    exactly when the id was already there.
  */
  lemma AcceptedStep(buildings: set<string>, m: map<string, Item>, line: string, n: nat, item: Item)
    requires AcceptedItem(buildings, line) == Some(item)
    ensures LoadStep(buildings, m, line, n)
      == Continue(if item.itemId in m then [DuplicateItem(n, item.itemId)] else [], m[item.itemId := item])
  {
  }

  /** A short load row gives exactly the two errors "has errors" and "invalid format", and changes nothing. */
  lemma LoadShortRow(buildings: set<string>, m: map<string, Item>, line: string, n: nat)
    requires |Split(line, ',')| < 3
    ensures Rows(Load, buildings, true, m, [line], n) == Run(Done([RowTooShort(n), InvalidFormat(n)]), m)
  {
    var rule := Rule(Load, buildings, true);
    assert rule(m, line, n) == Continue([RowTooShort(n), InvalidFormat(n)], m);
    FoldOne(rule, m, line, n);
  }

  /** A load row whose quantity parses but whose locations do not records only "invalid format" and changes nothing. */
  lemma LoadBadLocationRow(buildings: set<string>, m: map<string, Item>, line: string, n: nat)
    requires var t := Split(line, ',');
      |t| >= 3 && ParseQuantity(t[2]).Ok? && ParseLocationString(t[1]).Fail?
    ensures Rows(Load, buildings, true, m, [line], n) == Run(Done([InvalidFormat(n)]), m)
  {
    var rule := Rule(Load, buildings, true);
    assert rule(m, line, n) == Continue([InvalidFormat(n)], m);
    FoldOne(rule, m, line, n);
  }

  /**
    A load row with a single location of fewer than two '.' (such as "1" or "1.1") and
    a quantity that parses records only "invalid format" and changes nothing.
  */
  lemma LoadFewDotsRow(buildings: set<string>, m: map<string, Item>, line: string, n: nat)
    requires var t := Split(line, ',');
      && |t| >= 3 && ParseQuantity(t[2]).Ok?
      && !IsOptionalValue(t[1]) && ' ' !in t[1] && 'y' !in t[1] && multiset(t[1])['.'] < 2
    ensures Rows(Load, buildings, true, m, [line], n) == Run(Done([InvalidFormat(n)]), m)
  {
    LocationFieldFewDots(Split(line, ',')[1]);
    LoadBadLocationRow(buildings, m, line, n);
  }

  /** A load row that parses but names an unregistered building records only "unknown building" and changes nothing. */
  lemma LoadUnknownBuildingRow(buildings: set<string>, m: map<string, Item>, line: string, n: nat)
    requires var t := Split(line, ',');
      && |t| >= 3 && ParseInventoryLine(t[0], t[1], t[2]).Ok?
      && !KnownLocations(buildings, ParseInventoryLine(t[0], t[1], t[2]).value.locations)
    ensures Rows(Load, buildings, true, m, [line], n) == Run(Done([UnknownBuilding(n)]), m)
  {
    var rule := Rule(Load, buildings, true);
    assert rule(m, line, n) == Continue([UnknownBuilding(n)], m);
    FoldOne(rule, m, line, n);
  }

  lemma InventoryHeaderTokens(line: string)
    requires line == InventoryHeader
    ensures Split(line, ',') == ["item number", "pil", "quantity"]
  {
    assert line == "item number" + [','] + "pil" + [','] + "quantity";
    SplitThree("item number", "pil", "quantity", ',');
  }

  lemma LowerHeaderTokens(tokens: seq<string>)
    requires tokens == ["item number", "pil", "quantity"]
    ensures LowerAscii(tokens[0]) == "item number"
    ensures LowerAscii(tokens[1]) == "pil" && LowerAscii(tokens[2]) == "quantity"
  {
  }

  /** The header line the inventory is saved with is a load header. */
  lemma InventoryHeaderIsHeader(line: string)
    requires line == InventoryHeader
    ensures IsHeader(line, "pil", "quantity")
  {
    InventoryHeaderTokens(line);
    LowerHeaderTokens(Split(line, ','));
  }

  /** The saved header line alone starts a load, and the map ends up empty. */
  lemma HeaderOnlyLoad(buildings: set<string>, m: map<string, Item>, lines: seq<string>)
    requires lines == [InventoryHeader]
    ensures LoadStarts(lines)
    ensures LoadRun(buildings, m, lines) == Run(Done([]), map[])
  {
    InventoryHeaderIsHeader(lines[0]);
    assert lines[1..] == [];
  }

  /** On the saved header line alone, `loadInventory` as written throws while the corrected load succeeds. */
  lemma LoadHeaderRemovalDiscrepancy(buildings: set<string>, m: map<string, Item>, lines: seq<string>)
    requires lines == [InventoryHeader]
    ensures LoadAsWritten(buildings, m, lines).outcome == Aborted(UnsupportedRemove)
    ensures LoadRun(buildings, m, lines).outcome == Done([])
  {
    HeaderOnlyLoad(buildings, m, lines);
  }

  /** The header line of a quantity update. */
  const QuantityUpdateHeader: string := "item number,operation,quantity"

  lemma QuantityHeaderIsHeader(line: string)
    requires line == QuantityUpdateHeader
    ensures IsHeader(line, "operation", "quantity")
  {
    assert line == "item number" + [','] + "operation" + [','] + "quantity";
    SplitThree("item number", "operation", "quantity", ',');
    LowerHeaderWords(["item number", "operation", "quantity"]);
  }

  lemma LowerHeaderWords(tokens: seq<string>)
    requires tokens == ["item number", "operation", "quantity"]
    ensures LowerAscii(tokens[0]) == "item number"
    ensures LowerAscii(tokens[1]) == "operation" && LowerAscii(tokens[2]) == "quantity"
  {
  }

  /**
    `updateQuantity` as written loses its errors: updating an id that is not stored
    records "invalid item number" on line 2, yet the method returns no error.
  */
  lemma QuantityErrorsDiscarded(buildings: set<string>, m: map<string, Item>, lines: seq<string>)
    requires lines == [QuantityUpdateHeader, "x,update,-"] && "x" !in m
    ensures UpdateRun(Quantities, buildings, true, m, lines) == Run(Done([InvalidItemNumber(2, "x")]), m)
    ensures QuantityOutcome(UpdateRun(Quantities, buildings, true, m, lines)) == Done([])
  {
    QuantityHeaderIsHeader(lines[0]);
    var row := lines[1];
    MissingIdRow(buildings, m, row);
    var rule := Rule(Quantities, buildings, true);
    FoldOne(rule, m, row, 2);
    assert lines[1..] == [row];
  }

  /** The row "x,update,-" on a map without "x": one "invalid item number" error, nothing changed. */
  lemma MissingIdRow(buildings: set<string>, m: map<string, Item>, row: string)
    requires row == "x,update,-" && "x" !in m
    ensures RowStep(Quantities, buildings, true, m, row, 2) == Continue([InvalidItemNumber(2, "x")], m)
  {
    assert row == "x" + [','] + "update" + [','] + "-";
    SplitThree("x", "update", "-", ',');
    var tokens := Split(row, ',');
    LowerUpdate(tokens[1]);
    assert ParseUpdateItem(Quantities, tokens[0], tokens[2]) == Ok(Item("x", [], None));
    UpdateMissingRow(Quantities, buildings, m, row, 2, Item("x", [], None));
  }

  lemma LowerUpdate(operation: string)
    requires operation == "update"
    ensures LowerAscii(operation) == "update"
  {
  }

  // ---------------------------------------------------------------------------
  // Update rows
  // ---------------------------------------------------------------------------

  /** The id a row is about: its first comma field. */
  function RowId(line: string): string
    requires |Split(line, ',')| >= 1
  {
    Split(line, ',')[0]
  }

  /** A finished update row touches no entry but its own id. */
  lemma UpdateRowFrame(batch: Batch, buildings: set<string>, loaded: bool, m: map<string, Item>, line: string, n: nat, k: string)
    requires batch != Load
    requires UpdateStep(batch, buildings, loaded, m, line, n).Continue?
    ensures |Split(line, ',')| >= 3
    ensures var m' := UpdateStep(batch, buildings, loaded, m, line, n).inventory;
      k != RowId(line) ==> (k in m' <==> k in m) && (k in m ==> m'[k] == m[k])
  {
  }

  /** The parts of a row of an update batch. */
  predicate RowReads(batch: Batch, line: string, operation: string, item: Item)
  {
    var tokens := Split(line, ',');
    |tokens| >= 3 && LowerAscii(tokens[1]) == operation && ParseUpdateItem(batch, tokens[0], tokens[2]) == Ok(item)
  }

  /** `delete` removes the id, present or not, with no error and no building check. */
  lemma DeleteRow(batch: Batch, buildings: set<string>, m: map<string, Item>, line: string, n: nat, item: Item)
    requires batch != Load && RowReads(batch, line, "delete", item)
    ensures UpdateStep(batch, buildings, true, m, line, n) == Continue([], m - {item.itemId})
  {
  }

  /**
    `add` on a stored id replaces only the row's field (locations or quantity) and
    keeps the other; on a new id it stores the row's item, whose other field is empty.
  */
  lemma AddRow(batch: Batch, buildings: set<string>, m: map<string, Item>, line: string, n: nat, item: Item)
    requires batch != Load && RowReads(batch, line, "add", item) && KnownLocations(buildings, item.locations)
    requires KeysConsistent(m)
    ensures var s := UpdateStep(batch, buildings, true, m, line, n);
      && s.Continue? && s.errors == [] && item.itemId in s.inventory
      && s.inventory[item.itemId].itemId == item.itemId
      && (item.itemId in m && batch == Locations ==>
            s.inventory[item.itemId].locations == item.locations
            && s.inventory[item.itemId].quantity == m[item.itemId].quantity)
      && (item.itemId in m && batch == Quantities ==>
            s.inventory[item.itemId].quantity == item.quantity
            && s.inventory[item.itemId].locations == m[item.itemId].locations)
      && (item.itemId !in m && batch == Locations ==> s.inventory[item.itemId].quantity == None)
      && (item.itemId !in m && batch == Quantities ==> s.inventory[item.itemId].locations == [])
  {
  }

  /** `update` on an id that is not stored records "invalid item number" and changes nothing. */
  lemma UpdateMissingRow(batch: Batch, buildings: set<string>, m: map<string, Item>, line: string, n: nat, item: Item)
    requires batch != Load && RowReads(batch, line, "update", item) && KnownLocations(buildings, item.locations)
    requires item.itemId !in m
    ensures UpdateStep(batch, buildings, true, m, line, n) == Continue([InvalidItemNumber(n, item.itemId)], m)
  {
  }

  /** An operation other than add, delete and update ends the batch once the buildings pass. */
  lemma UnknownOperationRow(batch: Batch, buildings: set<string>, loaded: bool, m: map<string, Item>, line: string, n: nat, operation: string, item: Item)
    requires batch != Load && RowReads(batch, line, operation, item)
    requires !KnownOperation(operation) && KnownLocations(buildings, item.locations)
    ensures UpdateStep(batch, buildings, loaded, m, line, n) == Stop(UnknownOperation(n, Split(line, ',')[1]))
  {
  }

  /** A short update row ends the batch. */
  lemma ShortUpdateRow(batch: Batch, buildings: set<string>, loaded: bool, m: map<string, Item>, line: string, n: nat)
    requires batch != Load && |Split(line, ',')| < 3
    ensures UpdateStep(batch, buildings, loaded, m, line, n) == Stop(MissingField(n))
  {
  }

  /**
    A quantity batch only ever records "invalid item number": its items have no
    locations, so the unknown-building branch cannot be taken.
  */
  lemma {:induction false} QuantityErrors(buildings: set<string>, loaded: bool, m: map<string, Item>, lines: seq<string>, n: nat)
    ensures var r := Rows(Quantities, buildings, loaded, m, lines, n);
      r.outcome.Done? ==> forall i :: 0 <= i < |r.outcome.errors| ==> r.outcome.errors[i].InvalidItemNumber?
    decreases |lines|
  {
    if lines != [] {
      var s := RowStep(Quantities, buildings, loaded, m, lines[0], n);
      if s.Continue? {
        QuantityErrors(buildings, loaded, s.inventory, lines[1..], n + 1);
      }
    }
  }

  /** Before any load an update batch changes nothing: it ends at the first row that reaches the map. */
  lemma {:induction false} UnloadedRowsChangeNothing(batch: Batch, buildings: set<string>, m: map<string, Item>, lines: seq<string>, n: nat)
    requires batch != Load
    ensures Rows(batch, buildings, false, m, lines, n).inventory == m
    decreases |lines|
  {
    if lines != [] {
      var s := RowStep(batch, buildings, false, m, lines[0], n);
      if s.Continue? {
        assert s.inventory == m;
        UnloadedRowsChangeNothing(batch, buildings, m, lines[1..], n + 1);
      }
    }
  }

  /** A whole batch, finished or aborted, keeps the object's invariant. */
  lemma RowsConsistent(batch: Batch, buildings: set<string>, loaded: bool, m: map<string, Item>, lines: seq<string>, n: nat)
    requires Consistent(buildings, loaded, m) && (batch == Load ==> loaded)
    ensures Consistent(buildings, loaded, Rows(batch, buildings, loaded, m, lines, n).inventory)
  {
    RowsKeepInvariants(batch, buildings, loaded, m, lines, n);
    if !loaded {
      UnloadedRowsChangeNothing(batch, buildings, m, lines, n);
    }
  }

  /**
    The loop every batch shares: the rows after the header, one at a time, each
    handled by `rule`, collecting their errors, until the first row that aborts.
  */
  method RunRows(rule: RowRule, m0: map<string, Item>, lines: seq<string>) returns (r: Run)
    requires |lines| >= 1
    ensures r == Fold(rule, m0, lines[1..], 2)
  {
    ghost var whole := Fold(rule, m0, lines[1..], 2);
    var errors: seq<Error> := [];
    var m := m0;
    var i := 1;
    PrependNothing(whole);
    while i < |lines|
      invariant 1 <= i <= |lines|
      invariant Prepend(errors, Fold(rule, m, lines[i..], i + 1)) == whole
    {
      FoldAdvance(rule, m, lines, i, errors, whole);
      var step := rule(m, lines[i], i + 1);
      if step.Stop? {
        return Run(Aborted(step.reason), m);
      }
      errors := errors + step.errors;
      m := step.inventory;
      i := i + 1;
    }
    assert lines[i..] == [];
    assert errors + [] == errors;
    return Run(Done(errors), m);
  }
}
