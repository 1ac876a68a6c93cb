/** The in-memory services the application is wired with: a list-backed inventory
    store, three master-data lists with "largest id + 1" allocation, and a holder
    for the one demo user. Every `await Task.Delay` is dropped: each operation is
    one synchronous step. List entries are values here, so a caller keeping a
    reference to an item it handed over does not see later changes. */
module MockServices {
  import opened Runtime
  import opened Text
  import opened Seqs
  import opened Models

  // ---------------------------------------------------------------- inventory

  /** The sum of the quantities of all rows. */
  function TotalQuantity(s: seq<InventoryItem>): int {
    if s == [] then 0 else s[0].quantity + TotalQuantity(s[1..])
  }

  lemma {:induction false} TotalQuantityAppend(a: seq<InventoryItem>, b: seq<InventoryItem>)
    ensures TotalQuantity(a + b) == TotalQuantity(a) + TotalQuantity(b)
    decreases |a|
  {
    if a == [] {
      assert a + b == b;
    } else {
      assert (a + b)[0] == a[0];
      assert (a + b)[1..] == a[1..] + b;
      TotalQuantityAppend(a[1..], b);
    }
  }

  /** The total splits around any row. */
  lemma TotalQuantitySplit(s: seq<InventoryItem>, i: nat)
    requires i < |s|
    ensures TotalQuantity(s) == TotalQuantity(s[..i]) + s[i].quantity + TotalQuantity(s[i + 1..])
  {
    assert s == s[..i] + ([s[i]] + s[i + 1..]);
    TotalQuantityAppend(s[..i], [s[i]] + s[i + 1..]);
    assert ([s[i]] + s[i + 1..])[1..] == s[i + 1..];
  }

  /** The position of the first row with this id: the row `FirstOrDefault` picks. */
  function IndexOfId(s: seq<InventoryItem>, id: int): (r: Option<nat>)
    ensures r.Some? ==> r.value < |s| && s[r.value].id == id
    ensures r.Some? ==> forall j :: 0 <= j < r.value ==> s[j].id != id
    ensures r.None? <==> forall j :: 0 <= j < |s| ==> s[j].id != id
  {
    FirstIndex(s, (x: InventoryItem) => x.id == id)
  }

  /** The guard of Remove and Transfer: a row with this id exists and the first such
      row holds at least `quantity`. */
  predicate CanTake(s: seq<InventoryItem>, id: int, quantity: int32): (b: bool)
    ensures b <==> exists i :: 0 <= i < |s| && s[i].id == id && s[i].quantity >= quantity
                              && forall j :: 0 <= j < i ==> s[j].id != id
  {
    match IndexOfId(s, id)
    case None => false
    case Some(i) => s[i].quantity >= quantity
  }

  /** Takes `quantity` from row `i`, the subtraction wrapping as unchecked C#
      arithmetic does, and deletes that row when its count is no longer positive. */
  function Reduced(s: seq<InventoryItem>, i: nat, quantity: int32): (r: seq<InventoryItem>)
    requires i < |s|
    ensures var left := Wrap32(s[i].quantity - quantity);
      if left <= 0 then |r| == |s| - 1 && r[..i] == s[..i] && r[i..] == s[i + 1..]
      else |r| == |s| && r[..i] == s[..i] && r[i] == s[i].(quantity := left)
           && r[i + 1..] == s[i + 1..]
  {
    var left := Wrap32(s[i].quantity - quantity);
    if left <= 0 then RemoveAt(s, i) else s[i := s[i].(quantity := left)]
  }

  /** When the subtraction does not overflow, only row `i` changes: it loses exactly
      `quantity` and disappears exactly when nothing is left. */
  lemma ReducedShape(s: seq<InventoryItem>, i: nat, quantity: int32)
    requires i < |s| && s[i].quantity >= quantity
    requires s[i].quantity - quantity <= MaxInt32
    ensures var left := s[i].quantity - quantity;
      Reduced(s, i, quantity)
        == s[..i] + (if left == 0 then [] else [s[i].(quantity := left)]) + s[i + 1..]
  {
    assert s[i := s[i].(quantity := s[i].quantity - quantity)]
        == s[..i] + [s[i].(quantity := s[i].quantity - quantity)] + s[i + 1..];
  }

  /** Without overflow, reducing a row lowers the total by exactly `quantity`. */
  lemma ReducedTotal(s: seq<InventoryItem>, i: nat, quantity: int32)
    requires i < |s| && s[i].quantity >= quantity
    requires s[i].quantity - quantity <= MaxInt32
    ensures TotalQuantity(Reduced(s, i, quantity)) == TotalQuantity(s) - quantity
  {
    var left := s[i].quantity - quantity;
    TotalQuantitySplit(s, i);
    if left == 0 {
      assert Reduced(s, i, quantity) == s[..i] + s[i + 1..];
      TotalQuantityAppend(s[..i], s[i + 1..]);
    } else {
      var r := Reduced(s, i, quantity);
      assert r == s[i := s[i].(quantity := left)];
      TotalQuantitySplit(r, i);
      assert r[..i] == s[..i] && r[i + 1..] == s[i + 1..];
    }
  }

  /** Quantities are never checked for sign: removing -2^31 from a row holding 1
      overflows to a negative count, and the row is deleted. */
  lemma ReducedOverflowDeletesRow(item: InventoryItem)
    requires item.quantity == 1
    ensures Reduced([item], 0, MinInt32) == []
  {
  }

  /** The destination row Transfer creates: part, operation and item type come from
      the source row, location, quantity, user and notes from the caller; the batch
      number stays null. */
  function TransferredItem(source: InventoryItem, id: int, toLocation: string,
                           quantity: int32, user: string, notes: string): (r: InventoryItem)
    ensures r.partId == source.partId && r.operation == source.operation
            && r.itemType == source.itemType
    ensures r.id == id && r.location == toLocation && r.quantity == quantity
            && r.user == user && r.notes == Some(notes) && r.batchNumber.None?
  {
    InventoryItem(id, source.partId, toLocation, source.operation, quantity,
                  None, Some(notes), user, source.itemType)
  }

  /** Appending the destination row before reducing the source is the same as
      reducing the source and then appending: the new row always ends the list and
      is never merged into another one. */
  lemma {:induction false} TransferAppendsAtEnd(s: seq<InventoryItem>, i: nat, quantity: int32,
                                                row: InventoryItem)
    requires i < |s|
    ensures Reduced(s + [row], i, quantity) == Reduced(s, i, quantity) + [row]
  {
    var left := Wrap32(s[i].quantity - quantity);
    assert (s + [row])[i] == s[i];
    if left <= 0 {
      assert (s + [row])[..i] == s[..i];
      assert (s + [row])[i + 1..] == s[i + 1..] + [row];
    }
  }

  /** Without overflow, a transfer keeps the total quantity of the list. */
  lemma TransferConserves(s: seq<InventoryItem>, i: nat, quantity: int32, row: InventoryItem)
    requires i < |s| && s[i].quantity >= quantity
    requires s[i].quantity - quantity <= MaxInt32
    requires row.quantity == quantity
    ensures TotalQuantity(Reduced(s + [row], i, quantity)) == TotalQuantity(s)
  {
    TransferAppendsAtEnd(s, i, quantity, row);
    ReducedTotal(s, i, quantity);
    TotalQuantityAppend(Reduced(s, i, quantity), [row]);
  }

  /** The search filter: the term occurs, ignoring case, in the part id, the
      location or the operation. */
  predicate SearchMatches(item: InventoryItem, term: string): (b: bool)
    ensures term == "" ==> b
    ensures (Contains(item.partId, term) || Contains(item.location, term)
             || Contains(item.operation, term)) ==> b
  {
    ContainsImpliesIgnoreCase(item.partId, term);
    ContainsImpliesIgnoreCase(item.location, term);
    ContainsImpliesIgnoreCase(item.operation, term);
    ContainsIgnoreCase(item.partId, term)
      || ContainsIgnoreCase(item.location, term)
      || ContainsIgnoreCase(item.operation, term)
  }

  class MockInventoryService {
    var inventory: seq<InventoryItem>

    constructor ()
      ensures inventory == []
    {
      inventory := [];
    }

    /** Numbers the item with the list length + 1 (which can repeat an id after a
        removal), appends it and succeeds. */
    method AddInventoryItem(item: InventoryItem) returns (ok: bool)
      modifies this
      ensures ok
      ensures inventory == old(inventory) + [item.(id := |old(inventory)| + 1)]
    {
      var stored := item.(id := |inventory| + 1);
      inventory := inventory + [stored];
      ok := true;
    }

    /** The rows of this part, by exact comparison, in list order. */
    function GetInventoryByPartId(partId: string): (r: seq<InventoryItem>)
      reads this
      ensures IsSubsequence(r, inventory)
      ensures forall x :: multiset(r)[x] == if x.partId == partId then multiset(inventory)[x] else 0
    {
      var p := (x: InventoryItem) => x.partId == partId;
      WhereIsSubsequence(inventory, p);
      Where(inventory, p)
    }

    /** The rows of this part at this operation, by exact comparison, in list order. */
    function GetInventoryByPartIdAndOperation(partId: string, operation: string): (r: seq<InventoryItem>)
      reads this
      ensures IsSubsequence(r, inventory)
      ensures forall x :: multiset(r)[x]
                            == (if x.partId == partId && x.operation == operation
                                then multiset(inventory)[x] else 0)
    {
      var p := (x: InventoryItem) => x.partId == partId && x.operation == operation;
      WhereIsSubsequence(inventory, p);
      Where(inventory, p)
    }

    /** Takes `quantity` from the first row with this id, deleting the row when
        nothing is left; fails without change when there is no such row or it holds
        less. `user` and `notes` are not used. */
    method RemoveInventoryItem(inventoryId: int, quantity: int32, user: string, notes: string)
      returns (ok: bool)
      modifies this
      ensures ok == CanTake(old(inventory), inventoryId, quantity)
      ensures !ok ==> inventory == old(inventory)
      ensures ok ==> inventory == Reduced(old(inventory), IndexOfId(old(inventory), inventoryId).value, quantity)
    {
      var found := IndexOfId(inventory, inventoryId);
      if found.Some? && inventory[found.value].quantity >= quantity {
        TakeFromRow(found.value, quantity);
        ok := true;
      } else {
        ok := false;
      }
    }

    /** The shared tail of Remove and Transfer: decrement row `i`, then drop it if
        nothing is left. */
    method TakeFromRow(i: nat, quantity: int32)
      requires i < |inventory|
      modifies this
      ensures inventory == Reduced(old(inventory), i, quantity)
    {
      var left := Wrap32(inventory[i].quantity - quantity);
      inventory := inventory[i := inventory[i].(quantity := left)];
      if left <= 0 {
        inventory := RemoveAt(inventory, i);
        assert inventory == RemoveAt(old(inventory), i);
      }
    }

    /** Appends a new row at `toLocation` numbered with the list length + 1, then takes
        `quantity` from the first row with this id as Remove does; fails without
        change under the same condition as Remove. */
    method TransferInventory(inventoryId: int, toLocation: string, quantity: int32,
                             user: string, notes: string)
      returns (ok: bool)
      modifies this
      ensures ok == CanTake(old(inventory), inventoryId, quantity)
      ensures !ok ==> inventory == old(inventory)
      ensures ok ==>
        var i := IndexOfId(old(inventory), inventoryId).value;
        var row := TransferredItem(old(inventory)[i], |old(inventory)| + 1, toLocation,
                                   quantity, user, notes);
        inventory == Reduced(old(inventory) + [row], i, quantity)
    {
      var found := IndexOfId(inventory, inventoryId);
      if found.Some? && inventory[found.value].quantity >= quantity {
        var i := found.value;
        var newItem := TransferredItem(inventory[i], |inventory| + 1, toLocation,
                                       quantity, user, notes);
        inventory := inventory + [newItem];
        TakeFromRow(i, quantity);
        ok := true;
      } else {
        ok := false;
      }
    }

    /** The rows whose part id, location or operation contains the term ignoring
        case, in list order; the empty term selects every row. */
    function SearchInventory(searchTerm: string): (r: seq<InventoryItem>)
      reads this
      ensures IsSubsequence(r, inventory)
      ensures forall x :: multiset(r)[x] == if SearchMatches(x, searchTerm) then multiset(inventory)[x] else 0
      ensures searchTerm == "" ==> r == inventory
    {
      var p := (x: InventoryItem) => SearchMatches(x, searchTerm);
      WhereIsSubsequence(inventory, p);
      Where(inventory, p)
    }
  }

  /** Ids can collide: after the first of two rows is removed, the next row added
      gets the id of the remaining one, and lookups by that id find the older row. */
  method IdCollisionScenario(a: InventoryItem, b: InventoryItem, c: InventoryItem)
    returns (ids: seq<int>, found: Option<nat>)
    requires a.quantity == 5
    ensures ids == [2, 2] && found == Some(0)
  {
    var store := new MockInventoryService();
    var ok := store.AddInventoryItem(a);
    ok := store.AddInventoryItem(b);
    ok := store.RemoveInventoryItem(1, 5, "ADMIN", "");
    assert ok && store.inventory == [b.(id := 2)];
    ok := store.AddInventoryItem(c);
    ids := [store.inventory[0].id, store.inventory[1].id];
    found := IndexOfId(store.inventory, 2);
  }

  // -------------------------------------------------------------- master data

  /** The parts the service starts with. */
  const InitialParts: seq<Part> :=
    [Part(1, "PART001", "Engine Block", "Main engine component", "", None, true),
     Part(2, "PART002", "Cylinder Head", "Top engine component", "", None, true),
     Part(3, "PART003", "Piston", "Moving engine part", "", None, true)]

  class MockPartService {
    var parts: seq<Part>

    /** Ids are unique in the list; every operation keeps them so. */
    ghost predicate Valid()
      reads this
    {
      DistinctKeys(parts, PartKey)
    }

    constructor ()
      ensures parts == InitialParts
      ensures Valid()
    {
      parts := InitialParts;
    }

    /** A copy of the list, in order. */
    function GetAllParts(): (r: seq<Part>)
      reads this
      ensures |r| == |parts| && forall i :: 0 <= i < |r| ==> r[i] == parts[i]
    {
      parts
    }

    /** The first entry whose part number equals `partNumber` exactly, or null. */
    function GetPartByNumber(partNumber: string): (r: Option<Part>)
      reads this
      ensures r.None? <==> forall j :: 0 <= j < |parts| ==> parts[j].partNumber != partNumber
      ensures r.Some? ==> exists i :: 0 <= i < |parts| && parts[i] == r.value && r.value.partNumber == partNumber
                                      && forall j :: 0 <= j < i ==> parts[j].partNumber != partNumber
    {
      FirstWhere(parts, (x: Part) => x.partNumber == partNumber)
    }

    /** Numbers the part with the largest id + 1 and appends it. `Max` over an
        empty list throws, so an empty list makes the call throw and nothing changes. */
    method AddPart(part: Part) returns (r: Call<bool>)
      modifies this
      ensures |old(parts)| == 0 ==> r == Threw(NoElements) && parts == old(parts)
      ensures |old(parts)| > 0 ==>
        r == Returned(true) && parts == old(parts) + [part.(id := MaxOf(old(parts), PartKey) + 1)]
      ensures old(Valid()) ==> Valid()
    {
      if |parts| == 0 {
        r := Threw(NoElements);
        return;
      }
      var stored := part.(id := MaxOf(parts, PartKey) + 1);
      if Valid() {
        AppendAboveMaxKeepsDistinct(parts, stored, PartKey);
      }
      parts := parts + [stored];
      r := Returned(true);
    }

    /** Removes the first entry with the same id and appends the new one at the end;
        fails without change when no entry has that id. */
    method UpdatePart(part: Part) returns (ok: bool)
      modifies this
      ensures var i := FirstIndex(old(parts), (x: Part) => x.id == part.id);
        ok == i.Some? && parts == if ok then RemoveAt(old(parts), i.value) + [part] else old(parts)
      ensures old(Valid()) ==> Valid() && KeySet(parts, PartKey) == KeySet(old(parts), PartKey)
    {
      var found := FirstIndex(parts, (x: Part) => x.id == part.id);
      if found.Some? {
        if Valid() {
          ReplaceKeepsDistinct(parts, found.value, part, PartKey);
        }
        parts := RemoveAt(parts, found.value) + [part];
        ok := true;
      } else {
        ok := false;
      }
    }

    /** Removes the first entry with this id; fails without change when there is none. */
    method DeletePart(partId: int) returns (ok: bool)
      modifies this
      ensures var i := FirstIndex(old(parts), (x: Part) => x.id == partId);
        ok == i.Some? && parts == if ok then RemoveAt(old(parts), i.value) else old(parts)
      ensures old(Valid()) ==> Valid() && KeySet(parts, PartKey) == KeySet(old(parts), PartKey) - {partId}
    {
      var found := FirstIndex(parts, (x: Part) => x.id == partId);
      if found.Some? {
        if Valid() {
          RemoveAtKeepsDistinct(parts, found.value, PartKey);
        }
        parts := RemoveAt(parts, found.value);
        ok := true;
      } else {
        ok := false;
      }
    }
  }

  /** The locations the service starts with. */
  const InitialLocations: seq<Location> :=
    [Location(1, "Warehouse A", "", Some("Main storage area"), true),
     Location(2, "Warehouse B", "", Some("Secondary storage"), true),
     Location(3, "Production Floor", "", Some("Manufacturing area"), true)]

  class MockLocationService {
    var locations: seq<Location>

    /** Ids are unique in the list; every operation keeps them so. */
    ghost predicate Valid()
      reads this
    {
      DistinctKeys(locations, LocationKey)
    }

    constructor ()
      ensures locations == InitialLocations
      ensures Valid()
    {
      locations := InitialLocations;
    }

    /** A copy of the list, in order. */
    function GetAllLocations(): (r: seq<Location>)
      reads this
      ensures |r| == |locations| && forall i :: 0 <= i < |r| ==> r[i] == locations[i]
    {
      locations
    }

    /** The first entry whose name equals `name` exactly, or null. */
    function GetLocationByName(name: string): (r: Option<Location>)
      reads this
      ensures r.None? <==> forall j :: 0 <= j < |locations| ==> locations[j].name != name
      ensures r.Some? ==> exists i :: 0 <= i < |locations| && locations[i] == r.value && r.value.name == name
                                      && forall j :: 0 <= j < i ==> locations[j].name != name
    {
      FirstWhere(locations, (x: Location) => x.name == name)
    }

    /** Numbers the location with the largest id + 1 and appends it. `Max` over an
        empty list throws, so an empty list makes the call throw and nothing changes. */
    method AddLocation(location: Location) returns (r: Call<bool>)
      modifies this
      ensures |old(locations)| == 0 ==> r == Threw(NoElements) && locations == old(locations)
      ensures |old(locations)| > 0 ==>
        r == Returned(true) && locations == old(locations) + [location.(id := MaxOf(old(locations), LocationKey) + 1)]
      ensures old(Valid()) ==> Valid()
    {
      if |locations| == 0 {
        r := Threw(NoElements);
        return;
      }
      var stored := location.(id := MaxOf(locations, LocationKey) + 1);
      if Valid() {
        AppendAboveMaxKeepsDistinct(locations, stored, LocationKey);
      }
      locations := locations + [stored];
      r := Returned(true);
    }

    /** Removes the first entry with the same id and appends the new one at the end;
        fails without change when no entry has that id. */
    method UpdateLocation(location: Location) returns (ok: bool)
      modifies this
      ensures var i := FirstIndex(old(locations), (x: Location) => x.id == location.id);
        ok == i.Some? && locations == if ok then RemoveAt(old(locations), i.value) + [location] else old(locations)
      ensures old(Valid()) ==> Valid() && KeySet(locations, LocationKey) == KeySet(old(locations), LocationKey)
    {
      var found := FirstIndex(locations, (x: Location) => x.id == location.id);
      if found.Some? {
        if Valid() {
          ReplaceKeepsDistinct(locations, found.value, location, LocationKey);
        }
        locations := RemoveAt(locations, found.value) + [location];
        ok := true;
      } else {
        ok := false;
      }
    }

    /** Removes the first entry with this id; fails without change when there is none. */
    method DeleteLocation(locationId: int) returns (ok: bool)
      modifies this
      ensures var i := FirstIndex(old(locations), (x: Location) => x.id == locationId);
        ok == i.Some? && locations == if ok then RemoveAt(old(locations), i.value) else old(locations)
      ensures old(Valid()) ==> Valid() && KeySet(locations, LocationKey) == KeySet(old(locations), LocationKey) - {locationId}
    {
      var found := FirstIndex(locations, (x: Location) => x.id == locationId);
      if found.Some? {
        if Valid() {
          RemoveAtKeepsDistinct(locations, found.value, LocationKey);
        }
        locations := RemoveAt(locations, found.value);
        ok := true;
      } else {
        ok := false;
      }
    }
  }

  /** The operations the service starts with. */
  const InitialOperations: seq<Operation> :=
    [Operation(1, "OP001", "CNC operations", None, true),
     Operation(2, "OP002", "Component assembly", None, true),
     Operation(3, "OP003", "Final inspection", None, true)]

  class MockOperationService {
    var operations: seq<Operation>

    /** Ids are unique in the list; every operation keeps them so. */
    ghost predicate Valid()
      reads this
    {
      DistinctKeys(operations, OperationKey)
    }

    constructor ()
      ensures operations == InitialOperations
      ensures Valid()
    {
      operations := InitialOperations;
    }

    /** A copy of the list, in order. */
    function GetAllOperations(): (r: seq<Operation>)
      reads this
      ensures |r| == |operations| && forall i :: 0 <= i < |r| ==> r[i] == operations[i]
    {
      operations
    }

    /** The first entry whose number equals `number` exactly, or null. */
    function GetOperationByNumber(number: string): (r: Option<Operation>)
      reads this
      ensures r.None? <==> forall j :: 0 <= j < |operations| ==> operations[j].number != number
      ensures r.Some? ==> exists i :: 0 <= i < |operations| && operations[i] == r.value && r.value.number == number
                                      && forall j :: 0 <= j < i ==> operations[j].number != number
    {
      FirstWhere(operations, (x: Operation) => x.number == number)
    }

    /** Numbers the operation with the largest id + 1 and appends it. `Max` over an
        empty list throws, so an empty list makes the call throw and nothing changes. */
    method AddOperation(operation: Operation) returns (r: Call<bool>)
      modifies this
      ensures |old(operations)| == 0 ==> r == Threw(NoElements) && operations == old(operations)
      ensures |old(operations)| > 0 ==>
        r == Returned(true) && operations == old(operations) + [operation.(id := MaxOf(old(operations), OperationKey) + 1)]
      ensures old(Valid()) ==> Valid()
    {
      if |operations| == 0 {
        r := Threw(NoElements);
        return;
      }
      var stored := operation.(id := MaxOf(operations, OperationKey) + 1);
      if Valid() {
        AppendAboveMaxKeepsDistinct(operations, stored, OperationKey);
      }
      operations := operations + [stored];
      r := Returned(true);
    }

    /** Removes the first entry with the same id and appends the new one at the end;
        fails without change when no entry has that id. */
    method UpdateOperation(operation: Operation) returns (ok: bool)
      modifies this
      ensures var i := FirstIndex(old(operations), (x: Operation) => x.id == operation.id);
        ok == i.Some? && operations == if ok then RemoveAt(old(operations), i.value) + [operation] else old(operations)
      ensures old(Valid()) ==> Valid() && KeySet(operations, OperationKey) == KeySet(old(operations), OperationKey)
    {
      var found := FirstIndex(operations, (x: Operation) => x.id == operation.id);
      if found.Some? {
        if Valid() {
          ReplaceKeepsDistinct(operations, found.value, operation, OperationKey);
        }
        operations := RemoveAt(operations, found.value) + [operation];
        ok := true;
      } else {
        ok := false;
      }
    }

    /** Removes the first entry with this id; fails without change when there is none. */
    method DeleteOperation(operationId: int) returns (ok: bool)
      modifies this
      ensures var i := FirstIndex(old(operations), (x: Operation) => x.id == operationId);
        ok == i.Some? && operations == if ok then RemoveAt(old(operations), i.value) else old(operations)
      ensures old(Valid()) ==> Valid() && KeySet(operations, OperationKey) == KeySet(old(operations), OperationKey) - {operationId}
    {
      var found := FirstIndex(operations, (x: Operation) => x.id == operationId);
      if found.Some? {
        if Valid() {
          RemoveAtKeepsDistinct(operations, found.value, OperationKey);
        }
        operations := RemoveAt(operations, found.value);
        ok := true;
      } else {
        ok := false;
      }
    }
  }

  // --------------------------------------------------------------------- user

  /** The user the service starts with. */
  const DemoUser: User := DefaultUser.(id := 1, username := "DemoUser", fullName := "Demo User")

  /** Holds one current user. The holder is never null: it starts with the demo
      user and is only ever replaced by a caller's user. */
  class MockUserService {
    var currentUser: User

    constructor ()
      ensures currentUser == DemoUser
    {
      currentUser := DemoUser;
    }

    function GetCurrentUser(): (r: Option<User>)
      reads this
      ensures r == Some(currentUser)
    {
      Some(currentUser)
    }

    /** The current user when asked for "DemoUser", whatever the current user's own
        name is now; null for every other name. */
    function GetUserByUsername(username: string): (r: Option<User>)
      reads this
      ensures r.Some? <==> username == "DemoUser"
      ensures r.Some? ==> r.value == currentUser
    {
      if username == "DemoUser" then Some(currentUser) else None
    }

    function GetAllUsers(): (r: seq<User>)
      reads this
      ensures r == [currentUser]
    {
      [currentUser]
    }

    /** Accepts only "DemoUser" and changes nothing either way. */
    method SetCurrentUser(username: string) returns (ok: bool)
      ensures ok <==> username == "DemoUser"
    {
      ok := username == "DemoUser";
    }

    /** Replaces the current user by `user` when the ids agree; otherwise fails
        without change. */
    method UpdateUserSettings(user: User) returns (ok: bool)
      modifies this
      ensures ok == (old(currentUser).id == user.id)
      ensures currentUser == if ok then user else old(currentUser)
    {
      if currentUser.id == user.id {
        currentUser := user;
        ok := true;
      } else {
        ok := false;
      }
    }
  }

  /** After renaming the demo user, looking up the new name finds nobody while the
      old name still finds the renamed user. */
  method RenamedUserScenario() returns (byNewName: Option<User>, byOldName: Option<User>)
    ensures byNewName == None && byOldName == Some(DemoUser.(username := "Alice"))
  {
    var users := new MockUserService();
    var ok := users.UpdateUserSettings(DemoUser.(username := "Alice"));
    assert ok;
    byNewName := users.GetUserByUsername("Alice");
    byOldName := users.GetUserByUsername("DemoUser");
  }
}
