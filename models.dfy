/** The records of the inventory application. Creation and modification
    timestamps are not part of this model. */
module Models {
  import opened Runtime

  /** A quantity of one part at a location and operation. `Id` is a surrogate key;
      `BatchNumber` and `Notes` are nullable. */
  datatype InventoryItem = InventoryItem(
    id: int,
    partId: string,
    location: string,
    operation: string,
    quantity: int32,
    batchNumber: Option<string>,
    notes: Option<string>,
    user: string,
    itemType: string)

  /** `new InventoryItem()`: every string empty, the numbers 0, the nullable fields null. */
  const DefaultInventoryItem: InventoryItem :=
    InventoryItem(0, "", "", "", 0, None, None, "", "")

  datatype Part = Part(
    id: int,
    partNumber: string,
    description: string,
    partType: string,
    customer: string,
    notes: Option<string>,
    isActive: bool)

  datatype Location = Location(
    id: int,
    name: string,
    building: string,
    description: Option<string>,
    isActive: bool)

  datatype Operation = Operation(
    id: int,
    number: string,
    description: string,
    notes: Option<string>,
    isActive: bool)

  datatype User = User(
    id: int,
    username: string,
    fullName: string,
    shift: string,
    vitsUser: bool,
    pin: string,
    lastShownVersion: string,
    hideChangeLog: bool,
    themeName: string,
    themeFontSize: int32,
    visualUserName: string,
    visualPassword: string,
    wipServerAddress: string,
    wipDatabase: string,
    wipServerPort: string)

  /** `new User()`: theme "Default" at font size 12, server port "3306". */
  const DefaultUser: User :=
    User(0, "", "", "", false, "", "", false, "Default", 12, "", "", "", "", "3306")

  /** The ids the master-data lists are keyed by. */
  function PartKey(p: Part): int { p.id }
  function LocationKey(l: Location): int { l.id }
  function OperationKey(o: Operation): int { o.id }
}
