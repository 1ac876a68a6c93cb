# MTM WIP inventory application: a Dafny model of its in-memory core

This project models the part of the MTM work-in-progress inventory application
(a .NET MAUI app for a manufacturing floor) that has logic of its own and runs in
the repository as shipped:

- **the mock services** the application is wired with:
  - the list-backed inventory store (add, remove, transfer, search, lookups by part);
  - the three master-data lists (parts, locations, operations), each with
    "largest id + 1" numbering and remove-then-append update;
  - the one-slot demo user holder;
- **the inventory entry form** (`InventoryViewModel`):
  - its observable fields and the stored `CanSave` flag;
  - the save guard, the item it builds and the form reset;
  - the refills of its collections;
- **the theme service** (palette choice, current theme, font sizes) and **the
  connection service** (signal bars, the on/off monitoring flags, the
  edge-triggered status notifications);
- **the database service without its I/O**:
  - server detection;
  - the connection string, with configuration defaults;
  - the `p_` naming of stored-procedure parameters;
  - the reading of the procedure's status output;
- **the error handler's** choice of the message and title shown to the user.

The modules:

- Modules follow the source files. `Runtime` holds 32-bit integers, nullable
  values, exception classes and the outcome of an awaited call. `Text` is
  ordinal and ASCII case-blind string matching. `Seqs` holds the LINQ and `List<T>`
  operations used. The rest are `Models`, `MockServices`, `ViewModels`,
  `ThemeAndConnection`, `Database` and `ErrorHandler`.

- Objects whose fields the source updates are classes with `modifies` clauses:
  - the four mock services;
  - the view model;
  - the theme service;
  - the connection service.

  Their lists are `seq` fields that the methods reassign. The
  refill loops of the view model and the parameter loop of the database service
  are `while` loops with invariants. The filters, the palette choice, the
  bucketing and the message choice are functions.

- Every awaited call to another service is a parameter of type `Call<T>`: either
  the value it returned, or the exception it threw. Every `await` is one
  synchronous step.

- Quantities, font sizes and the view model's quantity are C# `int`. Where the
  source subtracts or adds to them, wrap-around is written out (`Wrap32`).

- What the mock inventory store does and does not do:
  - a transfer always appends a new destination row; nothing is merged into an
    existing row;
  - a transfer is two separate steps (append, then reduce) with no rollback;
  - quantities are never checked to be positive;
  - an empty search term selects every row;
  - no transaction record is written.

- Two behaviours of libraries outside the repository are kept as choices the
  model states explicitly:
  - whether a `ResourceDictionary` accepts a `Source` set from code (MAUI's
    setter refuses it) is a flag of the theme service, and both outcomes of
    `ApplyTheme` are stated;
  - a MySQL command refuses a second parameter whose name equals an earlier one
    ignoring case. Attaching parameters therefore fails on a caller key "Status"
    and on two keys that differ only in case.

- On an empty master-data list, `Max` throws `InvalidOperationException`. Add
  therefore returns a thrown outcome in that case rather than carrying a
  non-empty precondition.

## Model

| member | source | states |
|---|---|---|
| Runtime.Wrap32 | Services/MockServices.cs:38 | the kept value is congruent to the exact result modulo 2^32, lies in the int32 range, and equals the exact result when that fits |
| Text.Lower | Services/ThemeAndConnectionServices.cs:119 | same length; each character is folded A-Z to a-z and others kept |
| Text.LowerIdempotent | Services/ThemeAndConnectionServices.cs:119 | folding twice is folding once |
| Text.StartsWith | Services/DatabaseService.cs:193 | holds exactly when the prefix is no longer than the string and agrees with it character by character |
| Text.Contains | Services/ErrorHandlerService.cs:41 | the ordinal test that `ContainsIgnoreCase` applies to the folded strings: the empty term is always contained; a prefix is contained; a contained term is no longer than the string |
| Text.ContainsIgnoreCase | Services/MockServices.cs:84-86 | the empty term is always contained; a contained term is no longer than the string |
| Text.ContainsIffOccurs | Services/MockServices.cs:84-86 | `Contains(s, t)` holds exactly when `t` occurs at some position of `s` |
| Text.ContainsImpliesIgnoreCase | Services/MockServices.cs:84-86 | an exact occurrence is also a case-blind occurrence |
| Text.IgnoreCaseIsCaseBlind | Services/MockServices.cs:84-86 | case-blind containment does not change when either argument is lower-cased first |
| Seqs.Where | Services/MockServices.cs:23 | the result keeps only elements satisfying the filter, each with its full multiplicity from the input; when every element passes, the result is the input |
| Seqs.WhereIsSubsequence | Services/MockServices.cs:23 | the filter result keeps the input's order (it is a subsequence) |
| Seqs.WhereUnique | Services/MockServices.cs:83-87 | any order-preserving selection that keeps exactly the matching elements with their multiplicities is the filter result |
| Seqs.FirstIndex | Services/MockServices.cs:35 | the index found satisfies the predicate and no earlier one does; none is found exactly when no element matches |
| Seqs.FirstWhere | Services/MockServices.cs:109 | `FirstOrDefault`: null exactly when nothing matches, else the first matching element |
| Seqs.RemoveAt | Services/MockServices.cs:41 | one element shorter; elements before the index stay, elements after shift down by one |
| Seqs.MaxOf | Services/MockServices.cs:115 | an upper bound of every key that is the key of some element |
| Seqs.AppendAboveMaxKeepsDistinct | Services/MockServices.cs:115-116 | appending with max id + 1 keeps ids distinct, the new id was unused, and the id set grows by exactly that id |
| Seqs.RemoveAtKeepsDistinct | Services/MockServices.cs:136-142 | removing an entry keeps ids distinct and loses exactly its id |
| Seqs.ReplaceKeepsDistinct | Services/MockServices.cs:123-130 | remove-then-append with the same id keeps ids distinct and the id set unchanged |
| MockServices.TotalQuantityAppend | Services/MockServices.cs:16 | the total quantity of a concatenation is the sum of the totals |
| MockServices.IndexOfId | Services/MockServices.cs:35 | the row found has the id and is the first such row; none exactly when no row has it |
| MockServices.CanTake | Services/MockServices.cs:35-36 | holds exactly when some row has the id, no earlier row has it, and that row holds at least the quantity |
| MockServices.Reduced | Services/MockServices.cs:38-42 | rows before `i` and after it are kept; row `i` is deleted exactly when its wrapped count is ≤ 0, else it holds the wrapped count |
| MockServices.ReducedShape | Services/MockServices.cs:38-42 | without overflow only the chosen row changes: it loses exactly the quantity and is deleted exactly when it reaches 0 |
| MockServices.ReducedTotal | Services/MockServices.cs:36-43 | without overflow, taking `q` lowers the list's total quantity by exactly `q` |
| MockServices.ReducedOverflowDeletesRow | Services/MockServices.cs:36-41 | with no sign check, taking -2^31 from a row of 1 wraps to a negative count and deletes the row |
| MockServices.TransferredItem | Services/MockServices.cs:55-66 | the new row takes part, operation and item type from the source row, and the id, location, quantity, user and notes given; no batch number |
| MockServices.TransferAppendsAtEnd | Services/MockServices.cs:67-74 | appending the destination row and then reducing the source equals reducing and then appending: the new row ends the list and nothing is merged |
| MockServices.TransferConserves | Services/MockServices.cs:52-74 | without overflow a transfer keeps the list's total quantity |
| MockServices.SearchMatches | Services/MockServices.cs:83-87 | the empty term matches every row, and an exact occurrence in the part, location or operation matches |
| MockServices.MockInventoryService.constructor | Services/MockServices.cs:9 | the store starts empty |
| MockServices.MockInventoryService.AddInventoryItem | Services/MockServices.cs:11-18 | always succeeds and appends the item renumbered with the old length + 1 |
| MockServices.MockInventoryService.GetInventoryByPartId | Services/MockServices.cs:20-24 | the rows with exactly this part id, in list order, with multiplicity |
| MockServices.MockInventoryService.GetInventoryByPartIdAndOperation | Services/MockServices.cs:26-30 | the rows with exactly this part id and operation, in list order, with multiplicity |
| MockServices.MockInventoryService.RemoveInventoryItem | Services/MockServices.cs:32-46 | succeeds exactly when the first row with the id holds at least `q`; then that row is reduced (deleted at ≤ 0), else the list is unchanged |
| MockServices.MockInventoryService.TakeFromRow | Services/MockServices.cs:38-42 | the row is decremented with wrap-around and removed when ≤ 0 |
| MockServices.MockInventoryService.TransferInventory | Services/MockServices.cs:48-78 | same guard as Remove; on success a row copying part, operation and item type, with the caller's location, quantity, user and notes, numbered old length + 1, is appended before the source is reduced; on failure nothing changes |
| MockServices.MockInventoryService.SearchInventory | Services/MockServices.cs:80-88 | the rows whose part, location or operation contains the term ignoring case, in list order; the empty term returns the whole list |
| MockServices.IdCollisionScenario | Services/MockServices.cs:11-46 | add two rows, remove the first, add a third: both rows hold id 2, and a lookup by id 2 finds the older one |
| MockServices.MockPartService.constructor | Services/MockServices.cs:93-98 | the three seed parts, with distinct ids |
| MockServices.MockPartService.GetAllParts | Services/MockServices.cs:100-104 | a copy of the list, element by element |
| MockServices.MockPartService.GetPartByNumber | Services/MockServices.cs:106-110 | null exactly when no part has the number, else the first with it |
| MockServices.MockPartService.AddPart | Services/MockServices.cs:112-118 | throws on an empty list with no change; otherwise appends with max id + 1, succeeds, and keeps ids distinct |
| MockServices.MockPartService.UpdatePart | Services/MockServices.cs:120-131 | succeeds exactly when some part has the id; then the first one is removed and the new part appended at the end; ids stay distinct and the id set unchanged |
| MockServices.MockPartService.DeletePart | Services/MockServices.cs:133-143 | succeeds exactly when some part has the id; then the first one is removed; ids stay distinct and the id leaves the id set |
| MockServices.MockLocationService.constructor | Services/MockServices.cs:148-153 | the three seed locations, with distinct ids |
| MockServices.MockLocationService.GetAllLocations | Services/MockServices.cs:155-159 | a copy of the list, element by element |
| MockServices.MockLocationService.GetLocationByName | Services/MockServices.cs:161-165 | null exactly when no location has the name, else the first with it |
| MockServices.MockLocationService.AddLocation | Services/MockServices.cs:167-173 | as AddPart, for locations |
| MockServices.MockLocationService.UpdateLocation | Services/MockServices.cs:175-186 | as UpdatePart, for locations |
| MockServices.MockLocationService.DeleteLocation | Services/MockServices.cs:188-198 | as DeletePart, for locations |
| MockServices.MockOperationService.constructor | Services/MockServices.cs:203-208 | the three seed operations, with distinct ids |
| MockServices.MockOperationService.GetAllOperations | Services/MockServices.cs:210-214 | a copy of the list, element by element |
| MockServices.MockOperationService.GetOperationByNumber | Services/MockServices.cs:216-220 | null exactly when no operation has the number, else the first with it |
| MockServices.MockOperationService.AddOperation | Services/MockServices.cs:222-228 | as AddPart, for operations |
| MockServices.MockOperationService.UpdateOperation | Services/MockServices.cs:230-241 | as UpdatePart, for operations |
| MockServices.MockOperationService.DeleteOperation | Services/MockServices.cs:243-253 | as DeletePart, for operations |
| MockServices.MockUserService.constructor | Services/MockServices.cs:258 | the holder starts with the demo user (id 1, "DemoUser", "Demo User") |
| MockServices.MockUserService.GetCurrentUser | Services/MockServices.cs:260-264 | returns the held user |
| MockServices.MockUserService.GetUserByUsername | Services/MockServices.cs:266-270 | non-null exactly for the name "DemoUser", and then the held user whatever its own name |
| MockServices.MockUserService.GetAllUsers | Services/MockServices.cs:272-276 | the list holding only the held user |
| MockServices.MockUserService.SetCurrentUser | Services/MockServices.cs:278-282 | true exactly for "DemoUser"; changes nothing |
| MockServices.MockUserService.UpdateUserSettings | Services/MockServices.cs:284-293 | succeeds exactly when the ids agree, and then replaces the held user; otherwise no change |
| MockServices.RenamedUserScenario | Services/MockServices.cs:266-293 | after renaming the demo user to "Alice", a lookup of "Alice" finds nobody and a lookup of "DemoUser" finds the renamed user |
| ErrorHandler.FriendlyMessage | Services/ErrorHandlerService.cs:94-104 | each message is given exactly for its group of exception classes (permission, timeout, argument family, invalid-operation family, anything else) |
| ErrorHandler.HandleException | Services/ErrorHandlerService.cs:28-34 | an error alert titled "Error" with the friendly message |
| ErrorHandler.DatabaseErrorMessage | Services/ErrorHandlerService.cs:40-44 | the connect text exactly when the message contains "connection" ignoring case, the generic text exactly otherwise |
| ErrorHandler.HandleDatabaseError | Services/ErrorHandlerService.cs:36-47 | an error alert titled "Database Error" with that message |
| ErrorHandler.CapitalisedConnectionRecognised | Services/ErrorHandlerService.cs:41 | "Connection refused" gets the connect text |
| ViewModels.FormItem | ViewModels/InventoryViewModel.cs:144-154 | the item copies the form fields, takes the user's name or "Unknown", item type "Production", id 0 |
| ViewModels.PartNumbers | ViewModels/InventoryViewModel.cs:106-110 | the part numbers in service order |
| ViewModels.LocationNames | ViewModels/InventoryViewModel.cs:112-116 | the location names in service order |
| ViewModels.OperationNumbers | ViewModels/InventoryViewModel.cs:118-122 | the operation numbers in service order |
| ViewModels.InventoryViewModel.constructor | ViewModels/InventoryViewModel.cs:21-48 | empty form, quantity 0, not loading, cannot save, empty collections |
| ViewModels.InventoryViewModel.UpdateCanSave | ViewModels/InventoryViewModel.cs:84-91 | CanSave becomes: three selections non-empty, quantity > 0, not loading |
| ViewModels.InventoryViewModel.RecomputeOnChange | ViewModels/InventoryViewModel.cs:70-76 | CanSave is recomputed for the three selections and the quantity and kept for every other property |
| ViewModels.InventoryViewModel.LoadCurrentInventory | ViewModels/InventoryViewModel.cs:191-209 | no request when no part is selected; else asks for the selected part, and on an answer CurrentInventory becomes exactly that answer in order; a throw keeps it and yields the friendly error |
| ViewModels.InventoryViewModel.AssignSelectedPartId | ViewModels/InventoryViewModel.cs:70-76 | stores the value; CanSave recomputed only when it changed; the CanSave invariant is kept |
| ViewModels.InventoryViewModel.SetSelectedPartId | ViewModels/InventoryViewModel.cs:68-82 | as above, and a changed non-empty id reloads the current inventory for it |
| ViewModels.InventoryViewModel.SetSelectedLocation | ViewModels/InventoryViewModel.cs:70-76 | stores the value; CanSave recomputed only when it changed |
| ViewModels.InventoryViewModel.SetSelectedOperation | ViewModels/InventoryViewModel.cs:70-76 | stores the value; CanSave recomputed only when it changed |
| ViewModels.InventoryViewModel.SetQuantity | ViewModels/InventoryViewModel.cs:70-76 | stores the value; CanSave recomputed only when it changed |
| ViewModels.InventoryViewModel.SetNotes | ViewModels/InventoryViewModel.cs:70-73 | stores the value; CanSave untouched |
| ViewModels.InventoryViewModel.SetBatchNumber | ViewModels/InventoryViewModel.cs:70-73 | stores the value; CanSave untouched |
| ViewModels.InventoryViewModel.SetIsLoading | ViewModels/InventoryViewModel.cs:70-73 | stores the value; CanSave untouched, so it can be stale |
| ViewModels.InventoryViewModel.ResetForm | ViewModels/InventoryViewModel.cs:179-189 | selections, notes and batch empty, quantity 0, CurrentInventory empty, and CanSave false |
| ViewModels.InventoryViewModel.LoadData | ViewModels/InventoryViewModel.cs:93-132 | when all three calls answer, the collections become the numbers and names in service order; the first throw leaves them and yields its friendly error; never loading at the end |
| ViewModels.InventoryViewModel.SaveInventory | ViewModels/InventoryViewModel.cs:134-177 | without CanSave nothing happens; otherwise the form item is sent; success resets the form, leaves CurrentInventory empty and shows the success alert; a failure or throw keeps the form and shows the matching alert; never loading at the end |
| ThemeAndConnection.PaletteFor | Services/ThemeAndConnectionServices.cs:119-165 | dark, blue and green each exactly for their lower-cased name; every other name, "light" included, gets the light colours |
| ThemeAndConnection.ColorResources | Services/ThemeAndConnectionServices.cs:121-127 | exactly the six colour keys, each holding its colour of the palette |
| ThemeAndConnection.AvailableThemeLooks | Services/ThemeAndConnectionServices.cs:59-71 | "Default" and "Light" look the same; "Dark", "Blue" and "Green" get their own palettes |
| ThemeAndConnection.PaletteIgnoresCase | Services/ThemeAndConnectionServices.cs:119 | names equal up to case get the same palette |
| ThemeAndConnection.ThemeService.constructor | Services/ThemeAndConnectionServices.cs:10 | the current theme starts as "Default" |
| ThemeAndConnection.ThemeService.GetCurrentTheme | Services/ThemeAndConnectionServices.cs:54-57 | the recorded theme name, which ApplyTheme sets and the constructor starts at "Default" |
| ThemeAndConnection.ThemeService.GetAvailableThemes | Services/ThemeAndConnectionServices.cs:59-71 | exactly "Default", "Dark", "Light", "Blue", "Green" in that order, all distinct |
| ThemeAndConnection.ThemeService.GetFontSize | Services/ThemeAndConnectionServices.cs:95-111 | with an application holding an integer "DefaultFontSize", that value; in every other case 14 |
| ThemeAndConnection.ThemeService.ApplyThemeColors | Services/ThemeAndConnectionServices.cs:113-166 | with an application, the six colour entries of the chosen palette are written over the resources |
| ThemeAndConnection.ThemeService.ApplyTheme | Services/ThemeAndConnectionServices.cs:18-52 | the current theme becomes the name; with an application the keys are cleared, and when `Source` is accepted the two style dictionaries are added and the palette's colours become the resources, while a refused `Source` leaves the keys empty and no dictionary added; the font size falls back to 14 in every case |
| ThemeAndConnection.ThemeService.SetFontSize | Services/ThemeAndConnectionServices.cs:73-93 | default f, small f-2, large f+4, header f+8 (wrapping); reading the size back gives f |
| ThemeAndConnection.TestConnectionResult | Services/ThemeAndConnectionServices.cs:188-199 | true exactly when the probe returned true; a throw counts as false |
| ThemeAndConnection.SignalBars | Services/ThemeAndConnectionServices.cs:216-224 | 5 bars exactly under 100 ms, 4 exactly in [100, 300), 3 in [300, 800), 2 in [800, 2000), 1 in [2000, 5000), 0 exactly from 5000 ms |
| ThemeAndConnection.SignalBarsMonotone | Services/ThemeAndConnectionServices.cs:216-224 | a slower answer never shows more bars |
| ThemeAndConnection.ConnectionStrength | Services/ThemeAndConnectionServices.cs:201-231 | the bars of the elapsed time when the test passed and the timed probe returned; 0 when the test failed or the timed probe threw |
| ThemeAndConnection.StrengthIgnoresTimedAnswer | Services/ThemeAndConnectionServices.cs:209-213 | the timed probe's answer is ignored: a second "not connected" still shows bars by its time |
| ThemeAndConnection.TickEvents | Services/ThemeAndConnectionServices.cs:260-263 | a tick raises nothing exactly when the state is unchanged, else exactly the new state |
| ThemeAndConnection.StatusEventsEndInFinalState | Services/ThemeAndConnectionServices.cs:260-263 | the last event raised is the final state, and without events the state never moved |
| ThemeAndConnection.StatusEventsAlternate | Services/ThemeAndConnectionServices.cs:260-263 | events alternate, and the first differs from the starting state |
| ThemeAndConnection.ConnectionService.constructor | Services/ThemeAndConnectionServices.cs:176-178 | not monitoring, no timer, last state "connected", no events |
| ThemeAndConnection.ConnectionService.StartMonitoring | Services/ThemeAndConnectionServices.cs:233-241 | monitoring afterwards; a second start changes nothing; the flag and the timer stay in step |
| ThemeAndConnection.ConnectionService.StopMonitoring | Services/ThemeAndConnectionServices.cs:243-252 | not monitoring afterwards; a second stop changes nothing; the flag and the timer stay in step |
| ThemeAndConnection.ConnectionService.MonitorConnection | Services/ThemeAndConnectionServices.cs:254-273 | the state becomes the test result and the tick's events are appended |
| ThemeAndConnection.ConnectionService.RunTimer | Services/ThemeAndConnectionServices.cs:238 | a run of timer ticks appends exactly StatusEvents over the test results, and the state becomes the last result (unchanged with no tick) |
| Database.CurrentIpAddress | Services/DatabaseService.cs:202-215 | none when the lookup throws or lists no IPv4 address, else the text of the first IPv4 address |
| Database.ServerAddress | Services/DatabaseService.cs:186-200 | "172.16.1.104" exactly when the address is known and starts with "172.16.1.", else "localhost" |
| Database.Setting | Services/DatabaseService.cs:178-181 | the configured value when the key is present, the default otherwise |
| Database.SettingsFor | Services/DatabaseService.cs:177-181 | the chosen server and each setting with its default |
| Database.BuildConnectionString | Services/DatabaseService.cs:174-184 | the string splits into six pieces plus one per `;` inside a value; when no value holds a `;` it reads back as exactly the chosen settings, and otherwise it does not read back at all |
| Database.SplitCount | Services/DatabaseService.cs:183 | a string cut at its semicolons gives one piece more than it has semicolons |
| Database.RenderPieces | Services/DatabaseService.cs:183 | the five-pair string has six pieces plus one per `;` inside a value, and none are extra exactly when no value holds a `;` |
| Database.SemicolonPasswordUnreadable | Services/DatabaseService.cs:180-183 | a configured password "a;b" is inserted unescaped and the built string no longer reads back |
| Database.RenderRoundTrip | Services/DatabaseService.cs:183 | a `Server=…;Database=…;Uid=…;Pwd=…;Port=…;` string whose values hold no `;` reads back as its settings |
| Database.ConnectionStringCarriesSettings | Services/DatabaseService.cs:174-184 | the built string reads back as the chosen server and the configured values or "mtm_wip_application", "root", "" and "3306" |
| Database.ParameterName | Services/DatabaseService.cs:70 | the name is "p_" followed by the key |
| Database.ParameterNameInjective | Services/DatabaseService.cs:70 | different keys give different names |
| Database.InputParameters | Services/DatabaseService.cs:66-72 | one input parameter per entry, in order, named "p_" + key, null values sent as DBNull; none for a null dictionary |
| Database.ParameterNameSameName | Services/DatabaseService.cs:70 | names equal ignoring case come from keys equal ignoring case |
| Database.AddParameter | Services/DatabaseService.cs:84 | refused with the duplicate-name exception exactly when a name equal ignoring case is present, else appended |
| Database.InputNamesDistinct | Services/DatabaseService.cs:66-72 | keys distinct ignoring case give parameter names distinct ignoring case |
| Database.CaseVariantKeysCollide | Services/DatabaseService.cs:66-72 | two dictionary keys that differ only in case are distinct keys whose parameter names clash |
| Database.StatusKeyCollides | Services/DatabaseService.cs:70-85 | a caller key "status", in any case, clashes with the status output |
| Database.AttachInputs | Services/DatabaseService.cs:66-72 | succeeds exactly when the inputs' names are distinct ignoring case, and then attaches exactly the inputs in order; otherwise the collection's exception |
| Database.AttachParameters | Services/DatabaseService.cs:66-85 | succeeds exactly when the inputs followed, for stored procedures, by the two outputs have names distinct ignoring case, and then the command holds exactly those; otherwise the collection's exception |
| Database.CheckStatus | Services/DatabaseService.cs:92-98 | a missing or non-integer status reads as -1; a warning exactly when the status is non-zero; a missing message reads as "" |

## Left out

- Asynchrony: `Task.Delay`, `async void` and thread-pool timers are not modelled. Every operation is one synchronous step. The monitoring timer is a flag; its
  five-second ticks are calls of `MonitorConnection`.
- The stopwatch reading is an input; so are DNS answers, MySQL answers and the
  answers of the other services. All of these are I/O.
- Logging (`ILoggingService`) is not modelled: it has no effect on results.
- The platform alert dialog and `MainThread` are not modelled; an alert is the
  title and text it would show.
- MySQL connections, command execution, `DataTable` filling, `ExecuteScalar`'s
  type conversion and the rethrows of the execute methods are I/O and are not
  modelled.
- The stored-procedure services (`InventoryService`, `TransactionService`, the
  master-data services, `UserService`) only forward parameters to the database; they are not modelled.
- The console `MockErrorHandlerService`, the UI pages and views, and the demo
  program are not modelled.
- ViewModels.InventoryViewModel.LoadCurrentInventory, SetSelectedPartId, LoadData and
  SaveInventory: the error handler they report to is modelled as
  `ErrorHandlerService` (its alert title and text), not the console
  `MockErrorHandlerService` that the demo program registers. The context string
  (`nameof(...)`) handed to the handler is dropped, since `ErrorHandlerService`
  only logs it.
- Strings are never null here. In C#, a null part id, search term or theme name
  makes the comparison or `ToLower()` throw; those exceptions are not modelled.
- `CreatedDate` timestamps (`DateTime.Now`) are left out of the records.
- Reference aliasing is not modelled: list entries are values. A caller that keeps
  the object it added does not see the id assigned to it or later decrements, and
  the same object added twice is two rows here.
- ThemeAndConnection.ThemeService.ApplyTheme: the merged style dictionaries are
  recorded by their source paths only; the keys defined inside them are not
  modelled.
- Text.Lower: folds ASCII letters only. `ToLower()` is culture-sensitive and
  `OrdinalIgnoreCase` folds all of Unicode.
- Text.StartsWith: the culture-sensitive `string.StartsWith` used for the IP test is taken as an ordinal prefix test.
- Database.AddParameter: the exception's class is stated, its message only in the
  body. The collection compares names with the current culture ignoring case;
  here only ASCII letters are folded.
- ThemeAndConnection.ThemeService.ApplyTheme: whether `Source` can be set from
  code is a flag, not derived from the MAUI library, which is not part of this
  model.
- Database.Setting: configuration keys are compared exactly, while `IConfiguration`
  compares them ignoring case.
- Database.BuildConnectionString, ConnectionStringCarriesSettings: the read-back is
  proved only for configuration values without `;`. A value holding one is inserted
  unescaped; the model states that the string then has extra pieces and does not
  read back, but not which settings a MySQL driver would take from it.
- MockServices.ReducedTotal: proved only when the decrement does not overflow;
  `ReducedOverflowDeletesRow` shows what happens when it does.
- MockServices.TransferConserves: proved only when the decrement does not
  overflow. The sum itself is taken over unbounded integers.
- Seqs.AppendAboveMaxKeepsDistinct: ids are unbounded integers, so the overflow of
  `Max + 1` at `int.MaxValue` is not modelled.
- ViewModels.InventoryViewModel.SetSelectedPartId: the handler starts the reload
  without awaiting it. Here the reload completes inside the setter, so no
  interleaving with a later save is modelled.
