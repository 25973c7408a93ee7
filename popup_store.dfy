/** The popup store: the state of the storage inspector and the actions that
    change it. Every browser call is a parameter holding the answer it gives;
    every `await` is one sequential step. */
module PopupStore {
  import opened Wrappers
  import opened Items
  import opened Search
  import opened Tabs
  import opened Loader
  import opened Mutations
  import opened Messages
  import opened IndexSet

  const DefaultStorageType := "local"
  const DefaultCookiesFilter := "all-domains"

  /** What `exportItems` produces: the exported entries (an `undefined` entry is
      written as `null`) and the notification. */
  datatype Export = Export(entries: seq<Option<StorageItem>>, notice: Notice)

  /** How a bulk delete ends: refused at the prompt, done, or stopped by a throw. */
  datatype DeleteOutcome = Cancelled | Completed | Failed(error: Failure)

  /** `toggleDropdown`: the dropdown that is open afterwards. */
  function NextDropdown(open: Option<int>, index: int): (r: Option<int>)
    ensures r == None <==> open == Some(index)
    ensures r.Some? ==> r.value == index
  {
    if open == Some(index) then None else Some(index)
  }

  /** Toggling the same dropdown twice, from closed or from itself, returns to
      where it started. */
  lemma ToggleDropdownTwice(open: Option<int>, index: int)
    requires open == None || open == Some(index)
    ensures NextDropdown(NextDropdown(open, index), index) == open
  {
  }

  /** The loop of `deleteItems`: one attempt per snapshot entry, in order,
      stopping at the first that throws. Returns the requests sent and the
      error that stopped the loop, if any. The second postcondition is a
      corollary of the first and `SentRequestsAppend`: what a stopped loop
      sent is a prefix of a full run's requests. */
  method RunDeletes(items: seq<Option<StorageItem>>, storageType: string, isPopupWindow: bool,
                    envs: nat -> MutationEnv)
    returns (sent: seq<Request>, failure: Option<Failure>)
    ensures var attempts := DeleteAttempts(items, storageType, isPopupWindow, envs);
      match FirstFailure(attempts)
      case Some(j) => failure == Some(attempts[j].result.error) && sent == SentRequests(attempts[..j + 1])
      case None => failure == None && sent == SentRequests(attempts)
    ensures var attempts := DeleteAttempts(items, storageType, isPopupWindow, envs);
      failure.Some? ==> SentRequests(attempts) == sent + SentRequests(attempts[FirstFailure(attempts).value + 1..])
  {
    ghost var attempts := DeleteAttempts(items, storageType, isPopupWindow, envs);
    sent := [];
    var i := 0;
    while i < |items|
      invariant 0 <= i <= |items|
      invariant sent == SentRequests(attempts[..i])
      invariant FirstFailure(attempts[..i]) == None
    {
      var a := DeleteAttempt(items[i], storageType, isPopupWindow, envs(i));
      assert a == attempts[i];
      StepOfRun(attempts, i);
      sent := sent + Sent(a);
      if a.result.Err? {
        failure := Some(a.result.error);
        return;
      }
      i := i + 1;
    }
    assert attempts[..i] == attempts;
    failure := None;
  }

  class Store {
    var currentStorageType: string
    var storageData: seq<StorageItem>
    var filteredData: seq<StorageItem>
    var selectedItems: seq<int>
    var isLoading: bool
    var isPopupWindow: bool
    var searchTerm: string
    var cookiesFilter: string
    var showInfoModal: bool
    var hasError: bool
    var errorMessage: string
    var openDropdownIndex: Option<int>
    var showViewModal: bool
    var viewingItem: Option<StorageItem>
    var showEditModal: bool
    var editingItem: Option<StorageItem>
    var editingItemIndex: Option<int>

    /** The selection is a set, and a cleared error carries no message. */
    ghost predicate Valid()
      reads this
    {
      NoDup(selectedItems) && (!hasError ==> errorMessage == "")
    }

    /** The initial state. */
    constructor ()
      ensures Valid()
      ensures currentStorageType == DefaultStorageType && storageData == [] && filteredData == []
      ensures selectedItems == [] && !isLoading && !isPopupWindow && searchTerm == ""
      ensures cookiesFilter == DefaultCookiesFilter && !showInfoModal && !hasError && errorMessage == ""
      ensures openDropdownIndex == None && !showViewModal && viewingItem == None
      ensures !showEditModal && editingItem == None && editingItemIndex == None
    {
      currentStorageType := DefaultStorageType;
      storageData := [];
      filteredData := [];
      selectedItems := [];
      isLoading := false;
      isPopupWindow := false;
      searchTerm := "";
      cookiesFilter := DefaultCookiesFilter;
      showInfoModal := false;
      hasError := false;
      errorMessage := "";
      openDropdownIndex := None;
      showViewModal := false;
      viewingItem := None;
      showEditModal := false;
      editingItem := None;
      editingItemIndex := None;
    }

    // ---- getters ----

    /** `selectedCount`: the number of distinct selected indices. */
    function SelectedCount(): (n: nat)
      reads this
      requires Valid()
      ensures n == |Elements(selectedItems)|
    {
      SizeIsCardinality(selectedItems);
      |selectedItems|
    }

    function TotalCount(): nat
      reads this
    {
      |filteredData|
    }

    function SelectionText(): string
      reads this
    {
      SelectionLabel(|selectedItems|, |filteredData|)
    }

    predicate ShowBulkActions()
      reads this
    {
      |selectedItems| > 0
    }

    predicate ShowCookiesFilter()
      reads this
    {
      currentStorageType == "cookies"
    }

    predicate ShowDataTable()
      reads this
    {
      |filteredData| > 0
    }

    predicate ShowEmptyState()
      reads this
    {
      |filteredData| == 0
    }

    // ---- copy, export and block ----

    /** `copyItems`: the lines of the entries at `indices`, joined by newlines,
        go to the clipboard. Reading an index outside the list throws before
        anything is written; a failed write is only logged. */
    function CopyItems(indices: seq<int>, clipboard: Result<(), string>): (r: Result<ClipboardCopy, Failure>)
      reads this
      ensures r.Err? <==> exists k :: 0 <= k < |indices| && !(0 <= indices[k] < |filteredData|)
      ensures r.Err? ==> r.error == ItemUndefined
      ensures r.Ok? ==> r.value.text == CopyItemsText(Snapshot(filteredData, indices)).value
      ensures r.Ok? ==> (r.value.notice.Some? <==> clipboard.Ok?)
      ensures r.Ok? && r.value.notice.Some? ==>
        r.value.notice.value == Notice(CopiedItemsMessage(|indices|), SuccessNotice)
    {
      var entries := Snapshot(filteredData, indices);
      assert (exists k :: 0 <= k < |entries| && entries[k].None?) <==>
        exists k :: 0 <= k < |indices| && !(0 <= indices[k] < |filteredData|);
      var text :- CopyItemsText(entries);
      Ok(ClipboardCopy(text, if clipboard.Ok? then Some(Notice(CopiedItemsMessage(|indices|), SuccessNotice)) else None))
    }

    /** `exportItems`: the entries at `indices`, in that order, and a
        notification naming how many were exported. */
    function ExportItems(indices: seq<int>): (r: Export)
      reads this
      ensures |r.entries| == |indices|
      ensures forall k :: 0 <= k < |indices| ==>
        r.entries[k] == if 0 <= indices[k] < |filteredData| then Some(filteredData[indices[k]]) else None
      ensures r.notice == Notice(ExportedMessage(|indices|), SuccessNotice)
    {
      Export(Snapshot(filteredData, indices), Notice(ExportedMessage(|indices|), SuccessNotice))
    }

    /** `blockItems`: a placeholder that only reports how many items were chosen. */
    function BlockItems(indices: seq<int>): (n: Notice)
      ensures n.kind == SuccessNotice
      ensures n.message == BlockedMessage(|indices|)
    {
      Notice(BlockedMessage(|indices|), SuccessNotice)
    }

    /** The state a completed load leaves: the loaded items (none after a
        failure), the filtered view of them, no selection, and the error state
        of a failed loader. */
    ghost predicate LoadedFrom(env: LoadEnv)
      reads this
    {
      var l := Load(currentStorageType, isPopupWindow, env);
      && !isLoading
      && selectedItems == []
      && storageData == l.items
      && filteredData == Filter(l.items, searchTerm)
      && hasError == l.error.Some?
      && errorMessage == (if l.error.Some? then l.error.value else "")
    }

    /** The state clearing the selection and reloading leaves: while a load is
        already running only the selection is emptied; otherwise the reload
        completes as `LoadedFrom` states. */
    twostate predicate ClearedAndReloaded(reload: LoadEnv)
      reads this
    {
      (old(isLoading) ==>
        isLoading && selectedItems == [] && storageData == old(storageData) &&
        filteredData == old(filteredData) && hasError == old(hasError) && errorMessage == old(errorMessage)) &&
      (!old(isLoading) ==> LoadedFrom(reload))
    }

    // ---- error state and dropdown ----

    method ShowErrorState(message: string)
      modifies this`hasError, this`errorMessage
      ensures hasError && errorMessage == message
    {
      hasError := true;
      errorMessage := message;
    }

    method ClearErrorState()
      modifies this`hasError, this`errorMessage
      ensures !hasError && errorMessage == ""
    {
      hasError := false;
      errorMessage := "";
    }

    method ToggleDropdown(index: int)
      modifies this`openDropdownIndex
      ensures openDropdownIndex == NextDropdown(old(openDropdownIndex), index)
    {
      if openDropdownIndex == Some(index) {
        openDropdownIndex := None;
      } else {
        openDropdownIndex := Some(index);
      }
    }

    method CloseDropdown()
      modifies this`openDropdownIndex
      ensures openDropdownIndex == None
    {
      openDropdownIndex := None;
    }

    // ---- modals ----

    method OpenInfoModal()
      modifies this`showInfoModal
      ensures showInfoModal
    {
      showInfoModal := true;
    }

    method CloseInfoModal()
      modifies this`showInfoModal
      ensures !showInfoModal
    {
      showInfoModal := false;
    }

    method OpenViewModal()
      modifies this`showViewModal
      ensures showViewModal
    {
      showViewModal := true;
    }

    method CloseViewModal()
      modifies this`showViewModal
      ensures !showViewModal
    {
      showViewModal := false;
    }

    method OpenEditModal()
      modifies this`showEditModal
      ensures showEditModal
    {
      showEditModal := true;
    }

    method CloseEditModal()
      modifies this`showEditModal
      ensures !showEditModal
    {
      showEditModal := false;
    }

    method ViewItem(item: StorageItem)
      modifies this`viewingItem, this`showViewModal, this`openDropdownIndex
      ensures viewingItem == Some(item) && showViewModal && openDropdownIndex == None
    {
      viewingItem := Some(item);
      showViewModal := true;
      CloseDropdown();
    }

    /** Opens the editor on an item; saving the edit is not wired in the source. */
    method EditItem(item: StorageItem, index: int)
      modifies this`editingItem, this`showEditModal, this`editingItemIndex, this`openDropdownIndex
      ensures editingItem == Some(item) && showEditModal && editingItemIndex == Some(index)
      ensures openDropdownIndex == None
    {
      editingItem := Some(item);
      showEditModal := true;
      editingItemIndex := Some(index);
      CloseDropdown();
    }

    // ---- selection ----

    method ToggleItemSelection(index: int, selected: bool)
      requires Valid()
      modifies this`selectedItems
      ensures Valid()
      ensures selectedItems == if selected then Add(old(selectedItems), index) else Delete(old(selectedItems), index)
      ensures Elements(selectedItems) ==
        if selected then Elements(old(selectedItems)) + {index} else Elements(old(selectedItems)) - {index}
    {
      if selected {
        selectedItems := Add(selectedItems, index);
      } else {
        selectedItems := Delete(selectedItems, index);
      }
    }

    method ToggleSelectAll(selected: bool)
      requires Valid()
      modifies this`selectedItems
      ensures Valid()
      ensures selected ==> selectedItems == AddRange(old(selectedItems), |filteredData|)
      ensures selected ==> forall x :: x in Elements(selectedItems) <==>
        x in Elements(old(selectedItems)) || 0 <= x < |filteredData|
      ensures selected ==>
        |old(selectedItems)| <= |selectedItems| && selectedItems[..|old(selectedItems)|] == old(selectedItems)
      ensures !selected ==> selectedItems == []
    {
      if selected {
        for i := 0 to |filteredData|
          invariant selectedItems == AddRange(old(selectedItems), i)
        {
          selectedItems := Add(selectedItems, i);
        }
        AddRangeSpec(old(selectedItems), |filteredData|);
      } else {
        selectedItems := [];
      }
    }

    // ---- filtering ----

    /** Recomputes the visible list; clears the error state only when the
        result is non-empty. The cookie sub-filter takes no part. */
    method FilterData()
      requires Valid()
      modifies this`filteredData, this`hasError, this`errorMessage
      ensures Valid()
      ensures filteredData == Filter(storageData, searchTerm)
      ensures filteredData != [] ==> !hasError && errorMessage == ""
      ensures filteredData == [] ==> hasError == old(hasError) && errorMessage == old(errorMessage)
    {
      filteredData := Filter(storageData, searchTerm);
      if |filteredData| > 0 {
        ClearErrorState();
      }
    }

    method HandleSearchInput(term: string)
      requires Valid()
      modifies this`searchTerm, this`hasError, this`errorMessage, this`openDropdownIndex, this`filteredData
      ensures Valid()
      ensures searchTerm == term && openDropdownIndex == None
      ensures filteredData == Filter(storageData, term)
      ensures !hasError && errorMessage == ""
    {
      searchTerm := term;
      ClearErrorState();
      CloseDropdown();
      FilterData();
    }

    method HandleCookiesFilterChange(filter: string)
      requires Valid()
      modifies this`cookiesFilter, this`hasError, this`errorMessage, this`openDropdownIndex, this`filteredData
      ensures Valid()
      ensures cookiesFilter == filter && openDropdownIndex == None
      ensures filteredData == Filter(storageData, searchTerm)
      ensures !hasError && errorMessage == ""
    {
      cookiesFilter := filter;
      ClearErrorState();
      CloseDropdown();
      FilterData();
    }

    // ---- loading ----

    /** `initializeStorage`: detached mode only when the stored flag is exactly `true`. */
    method InitializeStorage(stored: Result<Option<bool>, string>)
      modifies this`isPopupWindow
      ensures isPopupWindow == (stored == Ok(Some(true)))
    {
      isPopupWindow := stored == Ok(Some(true));
    }

    /** `loadLocalStorage`, `loadSessionStorage` and `loadCookies`: each catches
        its own failure, empties the items and reports its type's message. */
    method LoadStorage(k: StorageKind, env: LoadEnv)
      requires Valid()
      modifies this`storageData, this`hasError, this`errorMessage
      ensures Valid()
      ensures LoadItems(k, isPopupWindow, env).Ok? ==>
        storageData == LoadItems(k, isPopupWindow, env).value &&
        hasError == old(hasError) && errorMessage == old(errorMessage)
      ensures LoadItems(k, isPopupWindow, env).Err? ==>
        storageData == [] && hasError && errorMessage == LoadFailureMessage(k)
    {
      match LoadItems(k, isPopupWindow, env)
      case Ok(items) =>
        storageData := items;
      case Err(_) =>
        storageData := [];
        ShowErrorState(LoadFailureMessage(k));
    }

    /** `loadStorageData`: ignored while a load runs; otherwise resets the items,
        the selection and the error state, runs the loader of the current type,
        and re-filters. The outer catch is unreachable because every loader
        catches its own errors. */
    method LoadStorageData(env: LoadEnv)
      requires Valid()
      modifies this`isLoading, this`storageData, this`selectedItems, this`hasError, this`errorMessage, this`filteredData
      ensures Valid()
      ensures old(isLoading) ==> unchanged(this)
      ensures !old(isLoading) ==> LoadedFrom(env)
    {
      if isLoading {
        return;
      }
      isLoading := true;
      storageData := [];
      selectedItems := [];
      ClearErrorState();
      match KindOf(currentStorageType) {
        case Some(k) => LoadStorage(k, env);
        case None =>
      }
      isLoading := false;
      FilterData();
      if |storageData| > 0 {
        ClearErrorState();
      }
    }

    /** `initialize`: read the window mode, then load. */
    method Initialize(stored: Result<Option<bool>, string>, env: LoadEnv)
      requires Valid()
      modifies this`isPopupWindow, this`isLoading, this`storageData, this`selectedItems,
               this`hasError, this`errorMessage, this`filteredData
      ensures Valid()
      ensures isPopupWindow == (stored == Ok(Some(true)))
      ensures old(isLoading) ==>
        isLoading && storageData == old(storageData) && filteredData == old(filteredData) &&
        selectedItems == old(selectedItems) && hasError == old(hasError) && errorMessage == old(errorMessage)
      ensures !old(isLoading) ==> LoadedFrom(env)
    {
      InitializeStorage(stored);
      LoadStorageData(env);
    }

    /** `handleStorageTypeChange`: switch type, reset the sub-filter, clear the
        error and the dropdown, and reload. */
    method HandleStorageTypeChange(storageType: string, env: LoadEnv)
      requires Valid()
      modifies this`currentStorageType, this`cookiesFilter, this`openDropdownIndex,
               this`isLoading, this`storageData, this`selectedItems, this`hasError, this`errorMessage, this`filteredData
      ensures Valid()
      ensures currentStorageType == storageType && cookiesFilter == DefaultCookiesFilter
      ensures openDropdownIndex == None
      ensures old(isLoading) ==>
        isLoading && !hasError && errorMessage == "" && storageData == old(storageData) &&
        filteredData == old(filteredData) && selectedItems == old(selectedItems)
      ensures !old(isLoading) ==> LoadedFrom(env)
    {
      currentStorageType := storageType;
      cookiesFilter := DefaultCookiesFilter;
      ClearErrorState();
      CloseDropdown();
      LoadStorageData(env);
    }

    // ---- mutations ----

    /** `updateStorageItem`: send the update, then patch `filteredData[index]`
        in place, even for cookies, where no script runs. An index outside the
        list throws at the patch, after the update was sent. Every failure ends
        in the error notification. */
    method UpdateStorageItem(key: string, value: string, index: int, env: MutationEnv)
      returns (sent: Option<Request>, notice: Notice)
      requires Valid()
      modifies this`filteredData
      ensures Valid()
      ensures sent == UpdateAttempt(key, value, currentStorageType, isPopupWindow, env).request
      ensures UpdateAttempt(key, value, currentStorageType, isPopupWindow, env).result.Ok? &&
              0 <= index < |old(filteredData)| ==>
        filteredData == old(filteredData)[index := old(filteredData)[index].(value := value)] &&
        notice == Notice(UpdatedMessage, SuccessNotice)
      ensures !(UpdateAttempt(key, value, currentStorageType, isPopupWindow, env).result.Ok? &&
                0 <= index < |old(filteredData)|) ==>
        filteredData == old(filteredData) && notice == Notice(UpdateFailedMessage, ErrorNotice)
    {
      var a := UpdateAttempt(key, value, currentStorageType, isPopupWindow, env);
      sent := a.request;
      if a.result.Ok? && 0 <= index < |filteredData| {
        filteredData := filteredData[index := filteredData[index].(value := value)];
        notice := Notice(UpdatedMessage, SuccessNotice);
      } else {
        notice := Notice(UpdateFailedMessage, ErrorNotice);
      }
    }

    /** The end of a completed bulk delete: clear the selection, then reload. */
    method ClearSelectionAndReload(reload: LoadEnv)
      requires Valid()
      modifies this`isLoading, this`storageData, this`selectedItems, this`hasError, this`errorMessage, this`filteredData
      ensures Valid()
      ensures ClearedAndReloaded(reload)
    {
      selectedItems := [];
      LoadStorageData(reload);
    }

    /** `deleteItems`: snapshot the entries at `indices`, ask for confirmation,
        delete them one by one in that order, stopping at the first throw (what
        was deleted stays deleted), and only then clear the selection and reload. */
    method DeleteItems(indices: seq<int>, confirmed: bool, envs: nat -> MutationEnv, reload: LoadEnv)
      returns (prompt: Option<string>, outcome: DeleteOutcome, sent: seq<Request>, notice: Option<Notice>)
      requires Valid()
      modifies this`isLoading, this`storageData, this`selectedItems, this`hasError, this`errorMessage, this`filteredData
      ensures Valid()
      ensures var c := ConfirmMessage(Snapshot(old(filteredData), indices));
        prompt == if c.Ok? then Some(c.value) else None
      ensures prompt.None? ==>
        outcome == Failed(ItemUndefined) && sent == [] && notice == None && unchanged(this)
      ensures prompt.Some? && !confirmed ==>
        outcome == Cancelled && sent == [] && notice == None && unchanged(this)
      ensures prompt.Some? && confirmed ==>
        var attempts := DeleteAttempts(Snapshot(old(filteredData), indices), currentStorageType, isPopupWindow, envs);
        match FirstFailure(attempts)
        case Some(j) =>
          outcome == Failed(attempts[j].result.error) && sent == SentRequests(attempts[..j + 1]) &&
          notice == None && unchanged(this)
        case None =>
          outcome == Completed && sent == SentRequests(attempts) &&
          notice == Some(Notice(DeletedMessage(|indices|), SuccessNotice)) &&
          ClearedAndReloaded(reload)
    {
      var items := Snapshot(filteredData, indices);
      var confirm := ConfirmMessage(items);
      sent := [];
      notice := None;
      if confirm.Err? {
        prompt := None;
        outcome := Failed(confirm.error);
        return;
      }
      prompt := Some(confirm.value);
      if !confirmed {
        outcome := Cancelled;
        return;
      }
      outcome, sent, notice := DeleteConfirmed(items, envs, reload);
    }

    /** The confirmed part of `deleteItems`: the deletes in order, and only
        when none threw, the cleared selection, the reload and the notice. */
    method DeleteConfirmed(items: seq<Option<StorageItem>>, envs: nat -> MutationEnv, reload: LoadEnv)
      returns (outcome: DeleteOutcome, sent: seq<Request>, notice: Option<Notice>)
      requires Valid()
      modifies this`isLoading, this`storageData, this`selectedItems, this`hasError, this`errorMessage, this`filteredData
      ensures Valid()
      ensures var attempts := DeleteAttempts(items, currentStorageType, isPopupWindow, envs);
        match FirstFailure(attempts)
        case Some(j) =>
          outcome == Failed(attempts[j].result.error) && sent == SentRequests(attempts[..j + 1]) &&
          notice == None && unchanged(this)
        case None =>
          outcome == Completed && sent == SentRequests(attempts) &&
          notice == Some(Notice(DeletedMessage(|items|), SuccessNotice)) &&
          ClearedAndReloaded(reload)
    {
      ghost var attempts := DeleteAttempts(items, currentStorageType, isPopupWindow, envs);
      var failure;
      notice := None;
      sent, failure := RunDeletes(items, currentStorageType, isPopupWindow, envs);
      if failure.Some? {
        assert FirstFailure(attempts).Some?;
        outcome := Failed(failure.value);
        return;
      }
      assert FirstFailure(attempts).None? && sent == SentRequests(attempts);
      ClearSelectionAndReload(reload);
      assert attempts == DeleteAttempts(items, currentStorageType, isPopupWindow, envs);
      notice := Some(Notice(DeletedMessage(|items|), SuccessNotice));
      outcome := Completed;
    }
  }

  /** The derived view flags agree with each other. */
  lemma GettersAgree(s: Store)
    requires s.Valid()
    ensures s.ShowDataTable() <==> !s.ShowEmptyState()
    ensures s.ShowBulkActions() <==> s.SelectedCount() > 0
    ensures s.SelectionText() == SelectionLabel(s.SelectedCount(), s.TotalCount())
  {
  }
}
