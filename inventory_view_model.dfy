/** The inventory entry form. Every observable property follows the rule of the
    MVVM toolkit's generated setters: assigning the value a property already has
    does nothing, assigning a new value stores it and raises PropertyChanged, whose
    handler recomputes the stored CanSave flag for the three selections and the
    quantity only. What the services answer to an awaited call is passed in as a
    `Call` (a value, or the exception thrown); the handler's fire-and-forget reload
    and every await are one synchronous step. */
module ViewModels {
  import opened Runtime
  import opened Models
  import opened ErrorHandler

  /** The observable properties of the form. */
  datatype Property =
    | SelectedPartIdProperty
    | SelectedLocationProperty
    | SelectedOperationProperty
    | QuantityProperty
    | NotesProperty
    | BatchNumberProperty
    | IsLoadingProperty
    | CanSaveProperty

  /** The properties whose change makes the handler recompute CanSave. */
  predicate RecomputesCanSave(p: Property) {
    p == SelectedPartIdProperty || p == SelectedLocationProperty
      || p == SelectedOperationProperty || p == QuantityProperty
  }

  const SavedAlert: Alert := Alert(InfoAlert, "Success", "Inventory item added successfully.")
  const SaveFailedAlert: Alert := Alert(ErrorAlert, "Error", "Failed to add inventory item.")

  /** The item the form hands to the inventory service. */
  function FormItem(partId: string, location: string, operation: string, quantity: int32,
                    notes: string, batchNumber: string, currentUser: Option<User>): (item: InventoryItem)
    ensures item.partId == partId && item.location == location && item.operation == operation
    ensures item.quantity == quantity && item.notes == Some(notes) && item.batchNumber == Some(batchNumber)
    ensures currentUser.None? ==> item.user == "Unknown"
    ensures currentUser.Some? ==> item.user == currentUser.value.username
    ensures item.itemType == "Production" && item.id == 0
  {
    DefaultInventoryItem.(partId := partId, location := location, operation := operation,
                          quantity := quantity, notes := Some(notes), batchNumber := Some(batchNumber),
                          user := if currentUser.Some? then currentUser.value.username else "Unknown",
                          itemType := "Production")
  }

  /** The part numbers, in service order. */
  function PartNumbers(ps: seq<Part>): (r: seq<string>)
    ensures |r| == |ps| && forall i :: 0 <= i < |ps| ==> r[i] == ps[i].partNumber
  {
    seq(|ps|, i requires 0 <= i < |ps| => ps[i].partNumber)
  }

  /** The location names, in service order. */
  function LocationNames(ls: seq<Location>): (r: seq<string>)
    ensures |r| == |ls| && forall i :: 0 <= i < |ls| ==> r[i] == ls[i].name
  {
    seq(|ls|, i requires 0 <= i < |ls| => ls[i].name)
  }

  /** The operation numbers, in service order. */
  function OperationNumbers(os: seq<Operation>): (r: seq<string>)
    ensures |r| == |os| && forall i :: 0 <= i < |os| ==> r[i] == os[i].number
  {
    seq(|os|, i requires 0 <= i < |os| => os[i].number)
  }

  class InventoryViewModel {
    var selectedPartId: string
    var selectedLocation: string
    var selectedOperation: string
    var quantity: int32
    var notes: string
    var batchNumber: string
    var isLoading: bool
    var canSave: bool

    var parts: seq<string>
    var locations: seq<string>
    var operations: seq<string>
    var currentInventory: seq<InventoryItem>

    /** The part of the save condition that does not involve IsLoading. */
    predicate FormComplete()
      reads this
    {
      selectedPartId != "" && selectedLocation != "" && selectedOperation != "" && quantity > 0
    }

    /** The stored flag can lag behind IsLoading, but never claims an incomplete form:
        each of the four fields it depends on recomputes it when it changes. */
    ghost predicate Valid()
      reads this
    {
      canSave ==> FormComplete()
    }

    constructor ()
      ensures selectedPartId == "" && selectedLocation == "" && selectedOperation == ""
      ensures quantity == 0 && notes == "" && batchNumber == ""
      ensures !isLoading && !canSave
      ensures parts == [] && locations == [] && operations == [] && currentInventory == []
      ensures Valid()
    {
      selectedPartId, selectedLocation, selectedOperation := "", "", "";
      quantity, notes, batchNumber := 0, "", "";
      isLoading, canSave := false, false;
      parts, locations, operations, currentInventory := [], [], [], [];
    }

    /** UpdateCanSave. */
    method UpdateCanSave()
      modifies this`canSave
      ensures canSave == (FormComplete() && !isLoading)
    {
      canSave := selectedPartId != "" && selectedLocation != "" && selectedOperation != ""
                 && quantity > 0 && !isLoading;
    }

    /** The first branch of the PropertyChanged handler. */
    method RecomputeOnChange(property: Property)
      modifies this`canSave
      ensures canSave == if RecomputesCanSave(property) then FormComplete() && !isLoading else old(canSave)
    {
      if RecomputesCanSave(property) {
        UpdateCanSave();
      }
    }

    /** LoadCurrentInventoryAsync: nothing when no part is selected; otherwise asks the
        service for the selected part's rows and, when it answers, clears and refills
        CurrentInventory with them in order. A thrown exception leaves the collection
        and shows the friendly error. `request` is the part id asked for, if any. */
    method LoadCurrentInventory(lookup: Call<seq<InventoryItem>>)
      returns (request: Option<string>, alert: Option<Alert>)
      modifies this`currentInventory
      ensures request == if selectedPartId == "" then None else Some(selectedPartId)
      ensures currentInventory == if request.Some? && lookup.Returned? then lookup.value else old(currentInventory)
      ensures alert == if request.Some? && lookup.Threw? then Some(HandleException(lookup.error)) else None
    {
      if selectedPartId == "" {
        return None, None;
      }
      request := Some(selectedPartId);
      match lookup {
        case Threw(e) =>
          alert := Some(HandleException(e));
        case Returned(items) =>
          currentInventory := [];
          var i := 0;
          while i < |items|
            invariant 0 <= i <= |items|
            invariant currentInventory == items[..i]
          {
            currentInventory := currentInventory + [items[i]];
            i := i + 1;
          }
          alert := None;
      }
    }

    /** The SelectedPartId setter without the handler's reload branch. */
    method AssignSelectedPartId(value: string)
      requires Valid()
      modifies this`selectedPartId, this`canSave
      ensures Valid() && selectedPartId == value
      ensures canSave == if value != old(selectedPartId) then FormComplete() && !isLoading else old(canSave)
    {
      if value != selectedPartId {
        selectedPartId := value;
        RecomputeOnChange(SelectedPartIdProperty);
      }
    }

    /** Setting SelectedPartId: on a change, CanSave is recomputed and, when the new id
        is not empty, the part's current inventory is reloaded. */
    method SetSelectedPartId(value: string, lookup: Call<seq<InventoryItem>>)
      returns (request: Option<string>, alert: Option<Alert>)
      requires Valid()
      modifies this`selectedPartId, this`canSave, this`currentInventory
      ensures Valid() && selectedPartId == value
      ensures canSave == if value != old(selectedPartId) then FormComplete() && !isLoading else old(canSave)
      ensures request == if value != old(selectedPartId) && value != "" then Some(value) else None
      ensures currentInventory == if request.Some? && lookup.Returned? then lookup.value else old(currentInventory)
      ensures alert == if request.Some? && lookup.Threw? then Some(HandleException(lookup.error)) else None
    {
      var changed := value != selectedPartId;
      AssignSelectedPartId(value);
      request, alert := None, None;
      if changed && selectedPartId != "" {
        request, alert := LoadCurrentInventory(lookup);
      }
    }

    method SetSelectedLocation(value: string)
      requires Valid()
      modifies this`selectedLocation, this`canSave
      ensures Valid() && selectedLocation == value
      ensures canSave == if value != old(selectedLocation) then FormComplete() && !isLoading else old(canSave)
    {
      if value != selectedLocation {
        selectedLocation := value;
        RecomputeOnChange(SelectedLocationProperty);
      }
    }

    method SetSelectedOperation(value: string)
      requires Valid()
      modifies this`selectedOperation, this`canSave
      ensures Valid() && selectedOperation == value
      ensures canSave == if value != old(selectedOperation) then FormComplete() && !isLoading else old(canSave)
    {
      if value != selectedOperation {
        selectedOperation := value;
        RecomputeOnChange(SelectedOperationProperty);
      }
    }

    method SetQuantity(value: int32)
      requires Valid()
      modifies this`quantity, this`canSave
      ensures Valid() && quantity == value
      ensures canSave == if value != old(quantity) then FormComplete() && !isLoading else old(canSave)
    {
      if value != quantity {
        quantity := value;
        RecomputeOnChange(QuantityProperty);
      }
    }

    /** Notes, BatchNumber and IsLoading raise PropertyChanged too, but the handler
        leaves CanSave as it is for them. */
    method SetNotes(value: string)
      modifies this`notes, this`canSave
      ensures notes == value && canSave == old(canSave)
    {
      if value != notes {
        notes := value;
        RecomputeOnChange(NotesProperty);
      }
    }

    method SetBatchNumber(value: string)
      modifies this`batchNumber, this`canSave
      ensures batchNumber == value && canSave == old(canSave)
    {
      if value != batchNumber {
        batchNumber := value;
        RecomputeOnChange(BatchNumberProperty);
      }
    }

    method SetIsLoading(value: bool)
      modifies this`isLoading, this`canSave
      ensures isLoading == value && canSave == old(canSave)
    {
      if value != isLoading {
        isLoading := value;
        RecomputeOnChange(IsLoadingProperty);
      }
    }

    /** ResetForm: empty selections, notes and batch number, quantity 0 and no current
        inventory; CanSave ends false whether or not each field changed. */
    method ResetForm()
      requires Valid()
      modifies this`selectedPartId, this`selectedLocation, this`selectedOperation, this`quantity,
               this`notes, this`batchNumber, this`canSave, this`currentInventory
      ensures Valid()
      ensures selectedPartId == "" && selectedLocation == "" && selectedOperation == ""
      ensures quantity == 0 && notes == "" && batchNumber == ""
      ensures currentInventory == [] && !canSave
    {
      AssignSelectedPartId("");
      SetSelectedLocation("");
      SetSelectedOperation("");
      SetQuantity(0);
      SetNotes("");
      SetBatchNumber("");
      currentInventory := [];
    }

    /** LoadDataAsync: fetches parts, locations and operations in that order; when all
        three answer, each collection is cleared and refilled from the answer in order.
        The first thrown exception stops the fetching, leaves the collections and shows
        the friendly error. IsLoading is false at the end on every path. */
    method LoadData(partsCall: Call<seq<Part>>, locationsCall: Call<seq<Location>>,
                    operationsCall: Call<seq<Operation>>)
      returns (alert: Option<Alert>)
      requires Valid()
      modifies this`isLoading, this`canSave, this`parts, this`locations, this`operations
      ensures Valid() && !isLoading && canSave == old(canSave)
      ensures partsCall.Threw? ==> alert == Some(HandleException(partsCall.error))
      ensures partsCall.Returned? && locationsCall.Threw? ==> alert == Some(HandleException(locationsCall.error))
      ensures partsCall.Returned? && locationsCall.Returned? && operationsCall.Threw? ==>
                alert == Some(HandleException(operationsCall.error))
      ensures var loaded := partsCall.Returned? && locationsCall.Returned? && operationsCall.Returned?;
        && (loaded ==> alert == None)
        && parts == (if loaded then PartNumbers(partsCall.value) else old(parts))
        && locations == (if loaded then LocationNames(locationsCall.value) else old(locations))
        && operations == (if loaded then OperationNumbers(operationsCall.value) else old(operations))
    {
      SetIsLoading(true);
      alert := None;
      if partsCall.Threw? {
        alert := Some(HandleException(partsCall.error));
      } else if locationsCall.Threw? {
        alert := Some(HandleException(locationsCall.error));
      } else if operationsCall.Threw? {
        alert := Some(HandleException(operationsCall.error));
      } else {
        var ps, ls, os := partsCall.value, locationsCall.value, operationsCall.value;
        parts := [];
        var i := 0;
        while i < |ps|
          invariant 0 <= i <= |ps|
          modifies this`parts
          invariant parts == PartNumbers(ps[..i])
        {
          parts := parts + [ps[i].partNumber];
          i := i + 1;
        }
        assert ps[..i] == ps;
        locations := [];
        i := 0;
        while i < |ls|
          invariant 0 <= i <= |ls|
          modifies this`locations
          invariant locations == LocationNames(ls[..i])
        {
          locations := locations + [ls[i].name];
          i := i + 1;
        }
        assert ls[..i] == ls;
        operations := [];
        i := 0;
        while i < |os|
          invariant 0 <= i <= |os|
          modifies this`operations
          invariant operations == OperationNumbers(os[..i])
        {
          operations := operations + [os[i].number];
          i := i + 1;
        }
        assert os[..i] == os;
      }
      SetIsLoading(false);
    }

    /** SaveInventoryAsync. Without CanSave nothing happens. Otherwise the current user
        is fetched, the form becomes an item (`request`, the argument of the add call),
        and on success the form is reset and the reload that follows returns at once
        because no part is selected any more; on a failed or throwing call the form is
        kept. IsLoading is false at the end on every path but the first. */
    method SaveInventory(userCall: Call<Option<User>>, addCall: Call<bool>,
                         reloadCall: Call<seq<InventoryItem>>)
      returns (request: Option<InventoryItem>, alert: Option<Alert>)
      requires Valid()
      modifies this
      ensures Valid()
      ensures parts == old(parts) && locations == old(locations) && operations == old(operations)
      ensures !old(canSave) ==> request == None && alert == None && unchanged(this)
      ensures old(canSave) ==> !isLoading
      ensures old(canSave) ==>
        request == if userCall.Threw? then None
                   else Some(FormItem(old(selectedPartId), old(selectedLocation), old(selectedOperation),
                                      old(quantity), old(notes), old(batchNumber), userCall.value))
      ensures var saved := old(canSave) && userCall.Returned? && addCall == Returned(true);
        saved ==>
          && selectedPartId == "" && selectedLocation == "" && selectedOperation == ""
          && quantity == 0 && notes == "" && batchNumber == ""
          && currentInventory == [] && !canSave
          && alert == Some(SavedAlert)
      ensures var saved := old(canSave) && userCall.Returned? && addCall == Returned(true);
        old(canSave) && !saved ==>
          && selectedPartId == old(selectedPartId) && selectedLocation == old(selectedLocation)
          && selectedOperation == old(selectedOperation) && quantity == old(quantity)
          && notes == old(notes) && batchNumber == old(batchNumber)
          && currentInventory == old(currentInventory) && canSave == old(canSave)
          && alert == Some(if userCall.Threw? then HandleException(userCall.error)
                           else if addCall.Threw? then HandleException(addCall.error)
                           else SaveFailedAlert)
    {
      if !canSave {
        return None, None;
      }
      SetIsLoading(true);
      match userCall {
        case Threw(e) =>
          request, alert := None, Some(HandleException(e));
        case Returned(currentUser) =>
          var item := FormItem(selectedPartId, selectedLocation, selectedOperation, quantity,
                               notes, batchNumber, currentUser);
          request := Some(item);
          match addCall {
            case Threw(e) =>
              alert := Some(HandleException(e));
            case Returned(success) =>
              if success {
                alert := Some(SavedAlert);
                ResetForm();
                var reload, reloadAlert := LoadCurrentInventory(reloadCall);
                assert reload == None && reloadAlert == None;
              } else {
                alert := Some(SaveFailedAlert);
              }
          }
      }
      SetIsLoading(false);
    }
  }
}
