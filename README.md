# Storage Manager popup store, in Dafny

This project models the popup of the Storage Manager browser extension. The
popup lists a web page's local storage, session storage or cookies, lets the
user search them, select them, copy them, edit one value and delete items.

State lives in one Pinia store (`src/store/popupStore.ts`). It is modelled as
the class `PopupStore.Store`:

* Its fields are the store's state.
* Its methods are the store's actions, with field-granular `modifies` clauses.
* Its functions are the store's getters and the actions that change no field (`copyItems`, `exportItems` and `blockItems`).

The logic the actions compute is written as pure functions with their own
contracts, one module per concern:

* `Text`: ASCII lowercasing, substring search, decimal numerals, and joining and splitting lines.
* `Env`: the build-time browser and manifest-version mapping of `src/lib/lib.ts`.
* `Items`: storage items, cookies, storage kinds and failure reasons.
* `Search`: the search filter.
* `Tabs`: which tab an action works on.
* `Loader`: what a load yields.
* `Mutations`: the delete and update steps and the cookie-removal URL.
* `Messages`: the copy text, the confirmation prompt and the notifications.
* `IndexSet`: the selection set.

Every call into the browser is replaced by a parameter that holds the answer
that call gives, either a value or a rejection. These calls are the stored
window flag and tab URL, the tab queries, the injected script, the cookie
listing, each mutation call, the clipboard write, and the user's answer to
`window.confirm`, which is the `confirmed` parameter of `DeleteItems`. Every
`await` is one sequential step.

A JavaScript `Set` iterates in insertion order, so the selection is a
duplicate-free `seq<int>`. Its `Elements` are the set that the
`selectedCount` getter counts.

## Model

| member | source | states |
|---|---|---|
| Env.DetectBrowser | src/lib/lib.ts:3-8 | Firefox exactly for "firefox", Edge exactly for "edge", Chrome for every other value |
| Env.DetectBrowserKnownNames | src/lib/lib.ts:4-6 | each of the three known names maps to its own browser |
| Env.DetectVersion | src/lib/lib.ts:10-14 | the result is always "1" or "2", and it is "2" exactly when the configured version is "2" |
| Env.DetectVersionFallback | src/lib/lib.ts:13 | any value other than "1" or "2" falls back to "1" |
| Text.Lower | src/store/popupStore.ts:353 | lowercasing keeps the length and lowercases each character |
| Text.LowerIdempotent | src/store/popupStore.ts:353 | lowercasing twice is lowercasing once |
| Text.StartsWith | src/store/popupStore.ts:143 | definition: `startsWith`, the string begins with the prefix. `Mutations.CookieUrlScheme` and `Tabs.InternalPagesAreNotWebPages` state facts through it |
| Text.ContainsIffOccurs | src/store/popupStore.ts:358 | `includes` holds exactly when the term occurs at some position |
| Text.Contains | src/store/popupStore.ts:358 | definition of `includes`, tied to an occurrence at some position by `Text.ContainsIffOccurs` |
| Text.ContainsEmpty | src/store/popupStore.ts:357-358 | every string includes the empty term |
| Text.DigitChar | src/store/popupStore.ts:63 | a digit value renders as a digit character |
| Text.Decimal | src/store/popupStore.ts:63 | a count renders as a non-empty string of digits without a leading zero |
| Text.DecimalRoundTrip | src/store/popupStore.ts:63 | reading a rendered count back gives the count |
| Text.DecimalInjective | src/store/popupStore.ts:63 | distinct counts render differently |
| Text.SplitLines | src/store/popupStore.ts:475 | splitting at newlines always yields at least one line |
| Text.JoinLines | src/store/popupStore.ts:475 | definition of `join('\n')`. Its inverse is stated by `Text.SplitJoinLines` |
| Text.SplitLinesPrefix | src/store/popupStore.ts:475 | a line without a newline, followed by more text, splits off as the first line |
| Text.SplitJoinLines | src/store/popupStore.ts:475 | joining lines that contain no newline with "\n" and splitting again gives back the lines |
| IndexSet.SizeIsCardinality | src/store/popupStore.ts:61 | a duplicate-free selection's length is the size of its set |
| IndexSet.Add | src/store/popupStore.ts:399 | `Set.add` adds exactly that index, keeps the selection duplicate-free, and appends a new index at the end |
| IndexSet.Delete | src/store/popupStore.ts:401 | `Set.delete` removes exactly that index, keeps the selection duplicate-free, and changes nothing if the index is absent |
| IndexSet.DeleteAt | src/store/popupStore.ts:401 | removing a selected index cuts out exactly its position, and the other indices keep their order |
| IndexSet.AddRange | src/store/popupStore.ts:407 | definition: adding the indices 0 to n-1 to the selection in turn, as the `forEach` does. `IndexSet.AddRangeSpec` states what it adds and keeps, and `Store.ToggleSelectAll` is proved equal to it |
| IndexSet.AddRangeSpec | src/store/popupStore.ts:407 | adding 0..n-1 yields the old indices plus exactly that range, keeps the old ones in front, and stays duplicate-free |
| IndexSet.AddThenDelete | src/store/popupStore.ts:397-403 | selecting an index that was not selected and then deselecting it restores the selection |
| Items.CookieItem | src/store/popupStore.ts:313-322 | definition: the item built from one cookie, field by field, as both cookie branches map it (lines 313-322 and 334-343). `Items.CookieItemRoundTrip` reads every field back |
| Items.CookieItemRoundTrip | src/store/popupStore.ts:313-322 | the item built from a cookie holds all of the cookie's fields |
| Items.CookieItems | src/store/popupStore.ts:334-343 | the cookie list maps to one item per cookie, in order, each holding its cookie |
| Items.Snapshot | src/store/popupStore.ts:500 | `indices.map(i => filteredData[i])` has one entry per index: that item, or undefined when the index is out of range |
| Items.KindOf | src/store/popupStore.ts:103-113 | only the three names 'local', 'session' and 'cookies' select a loader |
| Items.KindNameRoundTrip | src/store/popupStore.ts:103-113 | each kind's name selects that kind |
| Items.KindLabel | src/store/popupStore.ts:205 | definition: the label each loader's message uses ("Local Storage", "Session Storage", "Cookies", as on lines 205, 285 and 348). The property is `Items.KindLabelsDistinct` |
| Items.KindLabelsDistinct | src/store/popupStore.ts:205 | the three labels start with different letters |
| Items.Api | src/store/popupStore.ts:202-206 | a rejected browser call becomes a thrown error carrying its reason, and a fulfilled call passes its value through |
| Items.LoadFailureMessage | src/store/popupStore.ts:348 | a loader's message is the type's label between a fixed prefix and a fixed suffix, and reads back to that label |
| Items.LoadFailureMessagesDistinct | src/store/popupStore.ts:205-348 | the local-storage, session-storage and cookie loaders report three different messages |
| Search.Filter | src/store/popupStore.ts:352-367 | the result is exactly the items matching the lowercased term in key, value or truthy domain, and is no longer than the input |
| Search.MatchesSearch | src/store/popupStore.ts:357-360 | definition of the filter predicate: an empty lowercased term, or that term in the lowercased key, value or truthy domain. `Search.MatchesIgnoresTermCase` and `Search.Filter` state its use |
| Search.FilterAppend | src/store/popupStore.ts:356 | filtering keeps the original order: it distributes over concatenation |
| Search.FilterSingleton | src/store/popupStore.ts:356-367 | one item is kept exactly when it matches |
| Search.FilterEmptyTerm | src/store/popupStore.ts:357 | an empty search term keeps the whole list |
| Search.FilterIdempotent | src/store/popupStore.ts:356 | filtering twice with the same term is filtering once |
| Search.MatchesIgnoresTermCase | src/store/popupStore.ts:353 | the search term's case does not matter |
| Tabs.IsWebPageTab | src/store/popupStore.ts:143 | definition: the `find` test, a truthy URL starting with neither internal scheme. `Tabs.FindWebPageTab` characterises its use and `Tabs.InternalPagesAreNotWebPages` rules both schemes out |
| Tabs.FindWebPageTab | src/store/popupStore.ts:143 | `find` yields the first tab with a non-empty URL outside `chrome-extension://` and `chrome://`, and yields nothing exactly when no tab qualifies |
| Tabs.ResolveDetached | src/store/popupStore.ts:130-148 | detached mode fails with "no stored tab" exactly when the stored URL is missing or empty. A rejected call fails with its reason. With a stored URL, a non-empty URL query gives its first tab. An empty one gives the first web-page tab of all tabs, or "no valid tab" when none qualifies |
| Tabs.ResolveInline | src/store/popupStore.ts:173-178 | inline mode succeeds exactly when the active-tab query gives a tab, and takes the first. An empty answer fails with "no active tab", and a rejection fails with its reason |
| Tabs.ResolveTarget | src/store/popupStore.ts:525-551 | definition: detached resolution in a popup window and inline resolution otherwise. `Tabs.ResolveDetached` and `Tabs.ResolveInline` state each |
| Tabs.DetachedFallback | src/store/popupStore.ts:141-148 | with no URL match, detached mode succeeds exactly when some tab is a web page, and takes the first such tab |
| Tabs.InternalPagesAreNotWebPages | src/store/popupStore.ts:143 | extension and browser-internal pages are never chosen |
| Loader.FirstFrameItems | src/store/popupStore.ts:170 | the first frame's script result, or no items when it is missing |
| Loader.LoadItems | src/store/popupStore.ts:128-350 | a loader succeeds exactly when the target resolves and the script or cookie call succeeds; page storage gives the first frame's items, cookies one item per cookie; a resolution failure propagates |
| Loader.Load | src/store/popupStore.ts:102-113 | an unknown type loads nothing and reports nothing; a failure empties the items and carries that type's message; otherwise the items are the loader's |
| Loader.UnresolvedTargetFailsLoad | src/store/popupStore.ts:282-286 | when no target tab resolves, every type loads nothing and reports its own message |
| Messages.DigitsThenSpace | src/store/popupStore.ts:63 | a numeral followed by a space is read back unambiguously |
| Messages.SelectionLabel | src/store/popupStore.ts:63 | definition of "<selected> of <total> selected". `Messages.SelectionLabelInjective` reads both counts back |
| Messages.LabelParts | src/store/popupStore.ts:63 | the label is the selected count's numeral followed by text that starts with a space |
| Messages.SelectionLabelInjective | src/store/popupStore.ts:63 | "<n> of <m> selected" determines both counts |
| Messages.IndexOf | src/store/popupStore.ts:464 | the position of the first occurrence of a character, or the length when it is absent |
| Messages.CopyLine | src/store/popupStore.ts:464 | definition of the "key: value" line. `Messages.CopyLineRoundTrip` reads it back |
| Messages.CopyLineRoundTrip | src/store/popupStore.ts:464 | the "key: value" line gives back key and value when the key has no colon |
| Messages.CopyLines | src/store/popupStore.ts:475 | one "key: value" line per item, in order |
| Messages.AllDefined | src/store/popupStore.ts:474-475 | the snapshot has items exactly when no entry is undefined, and they are those entries |
| Messages.CopyItemsText | src/store/popupStore.ts:473-475 | building the copy text throws exactly when some selected entry is undefined |
| Messages.CopyLineNoNewline | src/store/popupStore.ts:475 | a line built from a key and a value that contain no newline contains none |
| Messages.CopyItemsTextSplits | src/store/popupStore.ts:475 | the copied text splits back into one line per item, in order |
| Messages.ConfirmMessage | src/store/popupStore.ts:500-503 | the prompt throws exactly when a single entry is selected and it is undefined |
| Messages.PrefixedCountInjective | src/store/popupStore.ts:503 | a message made of a fixed prefix, a count and a suffix starting with a space determines the count |
| Messages.ConfirmKeyReadBack | src/store/popupStore.ts:502 | the prompt for one defined entry is `Delete "<key>"?`, and its key reads back from between the quote marks |
| Messages.ConfirmCountInjective | src/store/popupStore.ts:503 | for any other number of entries the prompt `Delete <n> items?` determines n |
| Messages.ConfirmFormsDiffer | src/store/popupStore.ts:501-503 | the one-entry prompt and the count prompt never coincide |
| Messages.CopiedItemsMessage | src/store/popupStore.ts:478 | definition of "Copied <n> items to clipboard". `Messages.CountMessagesInjective` reads n back |
| Messages.ExportedMessage | src/store/popupStore.ts:496 | definition of "Exported <n> items". `Messages.CountMessagesInjective` reads n back |
| Messages.DeletedMessage | src/store/popupStore.ts:513 | definition of "Deleted <n> items". `Messages.CountMessagesInjective` reads n back |
| Messages.CountMessagesInjective | src/store/popupStore.ts:478-513 | the copy, export and delete notifications each determine their count |
| Messages.CopyItem | src/store/popupStore.ts:463-471 | `copyItem` writes the "key: value" line, whose key and value read back when the key has no colon. "Copied to clipboard" is shown exactly when the write succeeds |
| Messages.BlockedMessage | src/store/popupStore.ts:518 | definition of "Blocked <n> item(s)". `Messages.BlockedMessagePlural` states its count and plural |
| Messages.BlockedMessagePlural | src/store/popupStore.ts:516-519 | the blocking notification names the count and is plural exactly when the count exceeds one |
| Mutations.CookieUrlScheme | src/store/popupStore.ts:626 | the removal URL is https exactly when the item is secure, and http otherwise |
| Mutations.TemplateText | src/store/popupStore.ts:626 | definition: how `${item.domain}` renders an optional string, the string itself or "undefined". `Mutations.CookieUrlOfLoadedCookie` shows that a loaded cookie's own domain is used |
| Mutations.CookieRemovalUrl | src/store/popupStore.ts:626 | definition of the removal URL: scheme, the domain as the template writes it, then the path or "/". `Mutations.CookieUrlScheme` and `Mutations.CookieUrlOfLoadedCookie` state it |
| Mutations.CookieUrlOfLoadedCookie | src/store/popupStore.ts:626 | for a loaded cookie the URL is the scheme, then the domain, then the path or "/" |
| Mutations.DeleteRequest | src/store/popupStore.ts:610-632 | cookies are removed by URL and name; both page-storage types remove from local storage (the session branch as written) |
| Mutations.DeleteAttempt | src/store/popupStore.ts:578-637 | a request goes out exactly when the target resolves, the type is known and the item is defined; a resolution failure throws its own error; with the target resolved and the type known, an undefined item throws ItemUndefined and a rejected call throws BrowserError with the rejection's reason, which is what is rethrown |
| Mutations.DeleteAttempts | src/store/popupStore.ts:507-509 | one attempt per snapshot entry, in order, each with its own browser answers |
| Mutations.FirstFailure | src/store/popupStore.ts:507-509 | the first attempt that throws: none exactly when all succeed, and every attempt before it succeeded |
| Mutations.FirstFailureAt | src/store/popupStore.ts:507-509 | an attempt that throws after only successes is the first failure |
| Mutations.Sent | src/store/popupStore.ts:507-509 | definition: the request one attempt sent, as a list of zero or one |
| Mutations.SentRequests | src/store/popupStore.ts:507-509 | at most one request per attempt |
| Mutations.SentRequestsAppend | src/store/popupStore.ts:507-509 | the requests of consecutive runs concatenate |
| Mutations.SentRequestsSnoc | src/store/popupStore.ts:507-509 | one more attempt appends its own request, if any |
| Mutations.SentRequestsInOrder | src/store/popupStore.ts:507-509 | when every attempt sends, the requests go out one per item in index-list order |
| Mutations.StopAtFirstFailure | src/store/popupStore.ts:633-635 | the requests a full run would send are those sent up to the first throw followed by those of the attempts never tried |
| Mutations.StepOfRun | src/store/popupStore.ts:507-509 | one turn of the loop before any throw: the attempt's request follows the ones already sent; a throw there is the first failure, and the attempts after it are never tried |
| Mutations.UpdateRequest | src/store/popupStore.ts:553-568 | only local and session send an update, each to its own area, with the key and the new value |
| Mutations.UpdateAttempt | src/store/popupStore.ts:521-568 | a resolution failure sends nothing and throws; otherwise it sends the type's update, and the step succeeds unless that update is rejected |
| PopupStore.NextDropdown | src/store/popupStore.ts:738-744 | the dropdown closes exactly when the same one was open, and otherwise opens the given one |
| PopupStore.ToggleDropdownTwice | src/store/popupStore.ts:738-744 | toggling the same dropdown twice from closed, or from itself, returns to the start |
| PopupStore.RunDeletes | src/store/popupStore.ts:507-509 | the loop sends exactly the requests of the attempts up to and including the first one that throws, and returns that error. The rest of a full run's requests are never sent. Without a throw it sends every attempt's request |
| PopupStore.GettersAgree | src/store/popupStore.ts:60-68 | `showDataTable` is the negation of `showEmptyState`, `showBulkActions` means a non-empty selection, and `selectionText` shows the selected and total counts |
| PopupStore.Store.constructor | src/store/popupStore.ts:40-58 | the initial state: type 'local', no items, no selection, the 'all-domains' sub-filter, no error, nothing open |
| PopupStore.Store.SelectedCount | src/store/popupStore.ts:61 | the number of distinct selected indices |
| PopupStore.Store.TotalCount | src/store/popupStore.ts:62 | definition: the number of visible items |
| PopupStore.Store.SelectionText | src/store/popupStore.ts:63 | definition: the label of the selected and visible counts. `PopupStore.GettersAgree` ties it to `SelectedCount` |
| PopupStore.Store.ShowBulkActions | src/store/popupStore.ts:64 | definition: the selection is non-empty. `PopupStore.GettersAgree` ties it to `SelectedCount` |
| PopupStore.Store.ShowCookiesFilter | src/store/popupStore.ts:65 | definition: the current type is 'cookies' |
| PopupStore.Store.ShowDataTable | src/store/popupStore.ts:66 | definition: some item is visible |
| PopupStore.Store.ShowEmptyState | src/store/popupStore.ts:67 | definition: no item is visible. `PopupStore.GettersAgree` shows it is the negation of `ShowDataTable` |
| PopupStore.Store.CopyItems | src/store/popupStore.ts:473-482 | `copyItems` throws exactly when some index is outside the visible list. Otherwise it writes the joined lines of the entries, and "Copied <n> items to clipboard" is shown exactly when the write succeeds |
| PopupStore.Store.ExportItems | src/store/popupStore.ts:484-497 | `exportItems` exports one entry per index in order: the visible item at that index, or nothing when the index is out of range. It reports "Exported <n> items" |
| PopupStore.Store.BlockItems | src/store/popupStore.ts:516-519 | `blockItems` changes nothing and shows the blocking notification for the number of indices |
| PopupStore.Store.ShowErrorState | src/store/popupStore.ts:728-731 | the error flag is set, with the given message |
| PopupStore.Store.ClearErrorState | src/store/popupStore.ts:733-736 | the error flag is cleared and the message emptied |
| PopupStore.Store.ToggleDropdown | src/store/popupStore.ts:738-744 | the open dropdown becomes `NextDropdown` of the old one; nothing else changes |
| PopupStore.Store.CloseDropdown | src/store/popupStore.ts:746-748 | no dropdown is open |
| PopupStore.Store.OpenInfoModal | src/store/popupStore.ts:669-671 | the info modal is shown |
| PopupStore.Store.CloseInfoModal | src/store/popupStore.ts:673-675 | the info modal is hidden |
| PopupStore.Store.OpenViewModal | src/store/popupStore.ts:677-679 | the view modal is shown |
| PopupStore.Store.CloseViewModal | src/store/popupStore.ts:681-683 | the view modal is hidden |
| PopupStore.Store.OpenEditModal | src/store/popupStore.ts:685-687 | the edit modal is shown |
| PopupStore.Store.CloseEditModal | src/store/popupStore.ts:689-691 | the edit modal is hidden |
| PopupStore.Store.ViewItem | src/store/popupStore.ts:449-453 | the item is shown in the view modal and the dropdown closes |
| PopupStore.Store.EditItem | src/store/popupStore.ts:455-461 | the item and its index go to the edit modal and the dropdown closes; no save happens |
| PopupStore.Store.ToggleItemSelection | src/store/popupStore.ts:397-403 | selecting adds only that index and deselecting removes only that index; the selection stays duplicate-free |
| PopupStore.Store.ToggleSelectAll | src/store/popupStore.ts:405-411 | selecting all adds every index of `filteredData` and keeps those already present, in front; deselecting empties the selection |
| PopupStore.Store.FilterData | src/store/popupStore.ts:352-373 | the visible list becomes `Filter` of the items by the search term, whatever the cookie sub-filter; the error is cleared only when the result is non-empty and is otherwise left as it was |
| PopupStore.Store.HandleSearchInput | src/store/popupStore.ts:383-388 | the term is stored, the dropdown closes, the error is cleared, and the list is re-filtered by the new term |
| PopupStore.Store.HandleCookiesFilterChange | src/store/popupStore.ts:390-395 | the sub-filter is stored and the list is re-filtered by the unchanged search term, so the sub-filter has no effect on it |
| PopupStore.Store.InitializeStorage | src/store/popupStore.ts:85-92 | detached mode is on exactly when the stored flag reads back as `true`; a rejection or any other value means inline mode |
| PopupStore.Store.LoadStorage | src/store/popupStore.ts:128-350 | a successful loader stores its items and leaves the error state alone; a failed one empties the items and shows that type's message |
| PopupStore.Store.LoadStorageData | src/store/popupStore.ts:94-126 | while a load runs nothing changes; otherwise the load finishes not loading, with no selection, the loaded items, their filtered view and the error state of `Load` |
| PopupStore.Store.Initialize | src/store/popupStore.ts:71-83 | the window mode is read, then a load runs as `LoadStorageData` states |
| PopupStore.Store.HandleStorageTypeChange | src/store/popupStore.ts:375-381 | the type is stored, the sub-filter resets to 'all-domains', the dropdown closes, the error is cleared, and the new type loads |
| PopupStore.Store.UpdateStorageItem | src/store/popupStore.ts:521-576 | it sends the update `UpdateAttempt` describes; if that succeeds and the index is in range, exactly that entry's value is patched (also for cookies) with "Item updated"; otherwise nothing is patched and "Failed to update item" is shown |
| PopupStore.Store.ClearSelectionAndReload | src/store/popupStore.ts:511-512 | after a full delete the selection is emptied and the data reloaded; while a load is already running the reload is skipped, so only the selection changes |
| PopupStore.Store.DeleteConfirmed | src/store/popupStore.ts:507-513 | after the prompt is accepted: the deletes run in order; at the first throw the error is returned, the requests up to it are sent, and no field changes; with no throw, the selection is cleared, the data reloaded and "Deleted <n> items" shown |
| PopupStore.Store.DeleteItems | src/store/popupStore.ts:499-514 | it snapshots the entries first and prompts; an undefined single entry throws, and a refusal changes nothing; it deletes in index-list order and stops at the first throw with the state untouched; only when all succeed does it clear the selection, reload and report the count |

## Quirks modelled as written

- The session branch of `deleteStorageItem` runs `localStorage.removeItem` (`src/store/popupStore.ts:621`). `Mutations.DeleteRequest` therefore sends the local-area removal for both page-storage types.
- For cookies, `updateStorageItem` resolves the tab and sends nothing. It still patches `filteredData[index]` and reports "Item updated" (`src/store/popupStore.ts:553-571`). `PopupStore.Store.UpdateStorageItem` does the same.
- Re-filtering keeps the selection. `filterData`, `handleSearchInput` and `handleCookiesFilterChange` leave `selectedItems` alone, so a selected index may then point at a different row. Three places clear the selection:
  - `loadStorageData` (`src/store/popupStore.ts:99`);
  - `toggleSelectAll(false)` (`src/store/popupStore.ts:409`);
  - `deleteItems` after a complete run (`src/store/popupStore.ts:511`).

  The frames of the three filtering methods do not include `selectedItems`.
- The `all-frames` cookie sub-filter has no effect on the filter (`src/store/popupStore.ts:362-364`).

## Left out

- Browser calls are parameters, not models. These are the tab queries, the injected scripts that enumerate page storage, the cookie listing and removal, extension storage, and `runtime.getURL`. The model states what the store does with each answer, not how the browser computes it.
- PopupStore.Store.UpdateStorageItem: the patched entry is a distinct value. In the source, the object in `filteredData` is shared with `storageData`, so the source's patch also changes `storageData`. The model does not capture that aliasing.
- Text.Lower: lowercases ASCII letters only. Unicode case mapping is outside the model.
- The clipboard itself, the download of `exportItems` (`JSON.stringify`, Blob, object URL, `Date.now()` file name), and the notification DOM and timers are not modelled. `Messages.CopyItem`, `PopupStore.Store.CopyItems`, `PopupStore.Store.ExportItems` and `PopupStore.Store.BlockItems` model what these receive: the text written, the entries exported, and the notification shown.
- Also left out: `openNewWindow`, `closeWindow`, `clearStoredTabId`, the document click listener in `initialize`, and `escapeHtml`. These are window and DOM effects with no state of the store.
- `handleItemAction` and `handleBulkAction` are left out. They only dispatch on an action name, to `ViewItem`, `EditItem`, `Messages.CopyItem`, `DeleteItems`, `ExportItems`, `BlockItems` and `CopyItems`. The bulk dispatch passes the selection in insertion order, which is the order of the selection sequence.
- `expirationDate` is a whole number. The source's floating-point seconds are not modelled.
- The stored window flag is read as an optional boolean. Any stored non-boolean value reads as "not `true`", which is what the comparison `=== true` gives.
- Overlapping asynchronous actions are not modelled. Each action runs to completion.
- The outer `catch` of `loadStorageData` (`showErrorState()` with "Failed to load data") is not modelled, because it cannot be reached: each of the three loaders catches its own errors.
- `src/pages/popup/popup.ts` and the type declaration files define no behaviour and are not part of this model.
