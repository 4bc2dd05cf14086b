# MRepo root provider and modules screen, modelled in Dafny

MRepo is an Android module manager for rooted devices. This project models four
parts of its core:

- **The root provider** (`SuProviderImpl`). It holds a process-wide lifecycle `state`
  (NON / SUCCEEDED / FAILED) that only the initialiser listener writes. It also holds
  two lateinit handles, `mProvider` and `mApi`, which are assigned when the privileged
  helper process connects. Three entry points drive it: `init`,
  `onServiceConnected` and `onServiceDisconnected`.
- **The helper's security-context label** (`SuService.getContextImpl`). The label is
  filtered down to the characters `[a-z0-9:_,]`. When the read fails, `safe` returns
  `"unknown"` instead.
- **The modules view-model** (`ModulesViewModel`). It covers:
  - the operation each module state offers (`createUiState`);
  - `opsTasks`, the list of module ids with an operation in flight, and the callback
    that releases them;
  - the version-item cache;
  - the `dataObserver` pipeline: a stable sort, an optional "enabled first" re-sort,
    then a search filter;
  - the run-once initial load.
- **The per-row decisions of the modules list** (`ModuleItem`, `RemoveOrRestore`) and
  **the colour-scheme registry** (`Colors`).

Module layout:

- `wrappers.dfy`: `Option` (Kotlin's nullable) and `Attempt` (a block that returns or
  throws).
- `text.dfy`: lower-casing, `isBlank`, `contains` and `String.compareTo` order.
- `collections.dfy`: Kotlin's `filter`, `MutableList.remove(element)` and the stable
  `sortedWith`.
- `local_model.dfy`: the `LocalModule`, `State` and `VersionItem` records.
- `su_service.dfy`: the label sanitiser.
- `su_provider.dfy`: the provider.
- `modules_view_model.dfy`: the view-model.
- `modules_list.dfy`: the list row.
- `colors.dfy`: the colour registry.

State that the source changes in place is modelled as a class:

- the provider's `SuProviderImpl` class, with its `state` and its two handles;
- the view-model's `ModulesViewModel` class, with `opsTasks`, the cache, the published
  list and the flags.

Each method of these classes ties its new state to a pure function of the old state:
`Step` for the provider; `Submitted`, `RemoveFirst`, `CacheStep`, `DataView` and
`LoadStep` for the view-model. The lemmas then prove the source's promises about those
functions, both for single steps and for whole sequences of events.

Foreign calls become parameters:

- the shell and bind outcome of `init`;
- the binder and the `LocalApi.build` outcome of a connection;
- the `ProviderCompat.isAlive` / `isKsu` flags;
- the answers of the local repository (`hasUpdatableTag`, `getVersionById`) and of
  `UpdateJson.loadToVersionItem`.

The asynchronous callbacks are modelled as discrete events. `onSuccess(id)` is split
into two steps:

- a launch step, which records the pending `getLocal(id)` refresh in `pendingRefresh`;
- the later `RefreshDone`, which releases the id.

`loadDataOneTime()` is split the same way, at its suspension in `getLocalAll()`:
`LoadDataOneTime` checks the guard and starts the reload, and the later `LoadDone`
sets `oneTimeFinished`.

## Behaviour worth knowing

- **A non-root shell is not reported.** On a non-root shell, `init` returns from its
  `runCatching` block without calling the listener, so `state` is unchanged
  (SuProviderImpl.kt:64-67; `SuProvider.InitOutcomes`).
- **Old handles are never cleared.** Neither `mProvider` nor `mApi` is ever reset. If
  a reconnection's `LocalApi.build` throws, the `mApi` built for the earlier binder
  stays in place and `isInitialized` remains true (SuProviderImpl.kt:80-91;
  `SuProvider.StaleApiAfterFailedRebind`).
- **The last listener call wins.** Nothing ties a listener call to an attempt; each
  call overwrites `state` (SuProviderImpl.kt:28-36; `SuProvider.StateIsLastEmission`).
- **The tracker allows duplicates.** Every submission appends the id to `opsTasks`, so
  two submissions for the same id leave two entries, and a release removes only the
  first one (ModulesViewModel.kt:82, 88, 93; `Collections.RemoveFirstShape`,
  `Collections.RemoveFirstMultiset`).
- **Overlapping one-time loads both reload.** `oneTimeFinished` is set only after
  `getLocalAll()` returns, so a call made while the first reload is suspended passes
  the guard again (ModulesViewModel.kt:105-107;
  `ModulesViewModel.OverlappingCallsReloadTwice`).
- **An inert Remove button.** For a module in state UPDATE, the list enables the
  Remove button while the provider is alive, but the UI state's closures for that
  state do nothing (ModulesList.kt:130-134, ModulesViewModel.kt:223;
  `ModulesList.UpdateRemoveButtonIsInert`).

## Model

| member | source | states |
|---|---|---|
| `SuService.Sanitize` | app/src/main/kotlin/com/sanmer/mrepo/provider/SuProviderImpl.kt:116-120 | the label holds only characters of `[a-z0-9:_,]` and is no longer than what was read |
| `SuService.Safe` | app/src/main/kotlin/com/sanmer/mrepo/provider/SuProviderImpl.kt:107-114 | the block's value, or the default when it throws; stated through `GetContextImpl` |
| `SuService.GetContextImpl` | app/src/main/kotlin/com/sanmer/mrepo/provider/SuProviderImpl.kt:107-120 | a failed read yields exactly `"unknown"`; a successful one yields the sanitised text; either way the result is a fixpoint of the filter |
| `SuService.UnknownIsClean` | app/src/main/kotlin/com/sanmer/mrepo/provider/SuProviderImpl.kt:116 | the fallback `"unknown"` is made of allowed characters and left unchanged by the filter |
| `SuService.SanitizeAppend` | app/src/main/kotlin/com/sanmer/mrepo/provider/SuProviderImpl.kt:119 | the filter works character by character: it commutes with concatenation |
| `SuService.SanitizeFixpoint` | app/src/main/kotlin/com/sanmer/mrepo/provider/SuProviderImpl.kt:119 | a string is unchanged by the filter iff all its characters are allowed |
| `SuService.SanitizeIdempotent` | app/src/main/kotlin/com/sanmer/mrepo/provider/SuProviderImpl.kt:119 | filtering twice equals filtering once |
| `SuService.SanitizeCount` | app/src/main/kotlin/com/sanmer/mrepo/provider/SuProviderImpl.kt:119 | every allowed character keeps its number of occurrences; every other character disappears |
| `SuService.SanitizeIsSubsequence` | app/src/main/kotlin/com/sanmer/mrepo/provider/SuProviderImpl.kt:119 | the kept characters stay in their original order |
| `SuService.SanitizeIsLongestAllowedSubsequence` | app/src/main/kotlin/com/sanmer/mrepo/provider/SuProviderImpl.kt:119 | the result is the unique longest subsequence of the input made of allowed characters |
| `SuProvider.Step` | app/src/main/kotlin/com/sanmer/mrepo/provider/SuProviderImpl.kt:28-97 | the transition of each listener call and entry point; its meaning is stated by the lemmas below |
| `SuProvider.IsInitialized` | app/src/main/kotlin/com/sanmer/mrepo/provider/SuProviderImpl.kt:41-42 | both lateinit handles are assigned; its meaning over event sequences is stated by `InitializedIffSomeBuild` and `InitializedStaysInitialized` |
| `SuProvider.StateIsLastEmission` | app/src/main/kotlin/com/sanmer/mrepo/provider/SuProviderImpl.kt:26-37 | after any sequence of events, `state` is the value set by the last listener call, or its earlier value if there was none |
| `SuProvider.InitializedStaysInitialized` | app/src/main/kotlin/com/sanmer/mrepo/provider/SuProviderImpl.kt:39-42 | once both handles are assigned, no event makes `isInitialized` false again |
| `SuProvider.InitializedIffSomeBuild` | app/src/main/kotlin/com/sanmer/mrepo/provider/SuProviderImpl.kt:79-92 | from the initial state, `isInitialized` holds iff some connection's `LocalApi.build` returned; `mApi` is never assigned without `mProvider` |
| `SuProvider.HandlesOnlySetOnConnect` | app/src/main/kotlin/com/sanmer/mrepo/provider/SuProviderImpl.kt:60-97 | without a connection event, `init`, listener calls and disconnects leave both handles as they were |
| `SuProvider.InitOutcomes` | app/src/main/kotlin/com/sanmer/mrepo/provider/SuProviderImpl.kt:63-75 | `init` never touches the handles; a non-root shell or a requested bind changes nothing; a throw sets FAILED |
| `SuProvider.DisconnectKeepsHandles` | app/src/main/kotlin/com/sanmer/mrepo/provider/SuProviderImpl.kt:95-97 | a disconnect sets FAILED and keeps `isInitialized` and both handles |
| `SuProvider.FirstBuildFailure` | app/src/main/kotlin/com/sanmer/mrepo/provider/SuProviderImpl.kt:79-92 | on a first connection whose build throws, `mProvider` is assigned, `state` is FAILED and `isInitialized` is false |
| `SuProvider.StaleApiAfterFailedRebind` | app/src/main/kotlin/com/sanmer/mrepo/provider/SuProviderImpl.kt:79-92 | a reconnection whose build throws leaves `isInitialized` true, with the API built for the earlier binder |
| `SuProvider.SuProviderImpl.constructor` | app/src/main/kotlin/com/sanmer/mrepo/provider/SuProviderImpl.kt:26-42 | starts at NON with both handles unassigned |
| `SuProvider.SuProviderImpl.OnSuccess` | app/src/main/kotlin/com/sanmer/mrepo/provider/SuProviderImpl.kt:28-31 | sets SUCCEEDED and nothing else |
| `SuProvider.SuProviderImpl.OnFailure` | app/src/main/kotlin/com/sanmer/mrepo/provider/SuProviderImpl.kt:33-36 | sets FAILED and nothing else |
| `SuProvider.SuProviderImpl.Init` | app/src/main/kotlin/com/sanmer/mrepo/provider/SuProviderImpl.kt:60-76 | the new state is `Step(old, Init(outcome))`: a failure is reported only when acquiring the shell or binding throws |
| `SuProvider.SuProviderImpl.OnServiceConnected` | app/src/main/kotlin/com/sanmer/mrepo/provider/SuProviderImpl.kt:79-93 | assigns `mProvider`, then `mApi` for that binder unless the build throws, in which case it reports failure |
| `SuProvider.SuProviderImpl.OnServiceDisconnected` | app/src/main/kotlin/com/sanmer/mrepo/provider/SuProviderImpl.kt:95-97 | reports failure without clearing a handle |
| `SuProvider.SuProviderImpl.Fs` | app/src/main/kotlin/com/sanmer/mrepo/provider/SuProviderImpl.kt:123 | needs an assigned `mProvider`; the file system is reached through that provider |
| `SuProvider.SuProviderImpl.Api` | app/src/main/kotlin/com/sanmer/mrepo/provider/SuProviderImpl.kt:124 | needs an assigned `mApi` and returns it |
| `ModulesViewModel.IsProviderKsu` | app/src/main/kotlin/com/sanmer/mrepo/viewmodel/ModulesViewModel.kt:52-55 | false whenever the provider is not alive; the backend flag otherwise |
| `ModulesViewModel.CreateUiState` | app/src/main/kotlin/com/sanmer/mrepo/viewmodel/ModulesViewModel.kt:181-224 | the closures and appearance for each state; stated by `ActionsArePermitted`, `ToggleAndChangeRoles` and `UiStateAppearance` |
| `ModulesViewModel.Resolve` | app/src/main/kotlin/com/sanmer/mrepo/viewmodel/ModulesViewModel.kt:185-219 | the request a closure issues when it runs, reading `ProviderCompat.isKsu` for REMOVE; stated by `ActionsArePermitted` |
| `ModulesViewModel.ActionsArePermitted` | app/src/main/kotlin/com/sanmer/mrepo/viewmodel/ModulesViewModel.kt:181-224 | a module's two closures request operation `op` iff the module manager permits `op` from the module's state (enable from DISABLE, or from REMOVE unless KernelSU; disable from ENABLE; remove from ENABLE or DISABLE); every request is for that module's id |
| `ModulesViewModel.ToggleAndChangeRoles` | app/src/main/kotlin/com/sanmer/mrepo/viewmodel/ModulesViewModel.kt:181-224 | the toggle does something only for ENABLE and DISABLE and never removes; the change closure never disables |
| `ModulesViewModel.UiStateAppearance` | app/src/main/kotlin/com/sanmer/mrepo/viewmodel/ModulesViewModel.kt:181-224 | a name is struck through iff the module is REMOVE, and dimmed iff it is DISABLE or REMOVE |
| `ModulesViewModel.Submitted` | app/src/main/kotlin/com/sanmer/mrepo/viewmodel/ModulesViewModel.kt:186-216 | `opsTasks.add(module.id)` before an issued request; stated by `SubmittedMarksBusy` |
| `ModulesViewModel.SubmittedMarksBusy` | app/src/main/kotlin/com/sanmer/mrepo/viewmodel/ModulesViewModel.kt:185-219 | running a closure adds exactly one entry for the module to `opsTasks` when it issues a request, and none otherwise |
| `ModulesViewModel.LoadVersionItem` | app/src/main/kotlin/com/sanmer/mrepo/viewmodel/ModulesViewModel.kt:249-254 | the update JSON's item when that field is not blank, else the repository store's first version, else null |
| `ModulesViewModel.CacheStep` | app/src/main/kotlin/com/sanmer/mrepo/viewmodel/ModulesViewModel.kt:241-257 | without the updatable tag the id's entry is gone; with it, an existing entry (null included) is kept and a missing one gets the loaded item; no other key changes |
| `ModulesViewModel.CacheComputesOnce` | app/src/main/kotlin/com/sanmer/mrepo/viewmodel/ModulesViewModel.kt:247-256 | a second run with the tag present changes nothing, whatever it would load |
| `ModulesViewModel.CacheRemovalIdempotent` | app/src/main/kotlin/com/sanmer/mrepo/viewmodel/ModulesViewModel.kt:242-245 | removing an entry twice equals removing it once |
| `ModulesViewModel.Comparator` | app/src/main/kotlin/com/sanmer/mrepo/viewmodel/ModulesViewModel.kt:139-155 | the order for each menu setting; stated by `ComparatorMeaning` and `OrderIsTotalPreorder` |
| `ModulesViewModel.Precedes` | app/src/main/kotlin/com/sanmer/mrepo/viewmodel/ModulesViewModel.kt:139-155 | `compare(a, b) <= 0` for each order, pinning included; stated by `ComparatorMeaning`, `OrderIsTotalPreorder` and `PinPartitions` |
| `ModulesViewModel.ComparatorMeaning` | app/src/main/kotlin/com/sanmer/mrepo/viewmodel/ModulesViewModel.kt:139-155 | NAME orders by lower-cased name as asked; UPDATED_TIME is inverted (descending=false puts the newest first); other options rank everything equal |
| `ModulesViewModel.OrderIsTotalPreorder` | app/src/main/kotlin/com/sanmer/mrepo/viewmodel/ModulesViewModel.kt:139-155 | every comparator is total and transitive |
| `ModulesViewModel.Matches` | app/src/main/kotlin/com/sanmer/mrepo/viewmodel/ModulesViewModel.kt:128-131 | the search filter; stated by `MatchesMeaning` |
| `ModulesViewModel.MatchesMeaning` | app/src/main/kotlin/com/sanmer/mrepo/viewmodel/ModulesViewModel.kt:129-130 | a blank key matches every module; otherwise a module matches iff the lower-cased key occurs at some index of its lower-cased name + author + description |
| `ModulesViewModel.DataView` | app/src/main/kotlin/com/sanmer/mrepo/viewmodel/ModulesViewModel.kt:118-132 | the published list; stated by `DataViewContents`, `DataViewSorted`, `DataViewPinned`, `DataViewStable` and `DataViewKeepsInputOrder` |
| `ModulesViewModel.PinPartitions` | app/src/main/kotlin/com/sanmer/mrepo/viewmodel/ModulesViewModel.kt:123-124 | pinning returns the ENABLE modules, then the others, each group in its sorted order |
| `ModulesViewModel.DataViewContents` | app/src/main/kotlin/com/sanmer/mrepo/viewmodel/ModulesViewModel.kt:120-132 | the published list is a permutation of the input modules whose lower-cased name + author + description contains the lower-cased key (all modules for a blank key) |
| `ModulesViewModel.DataViewSorted` | app/src/main/kotlin/com/sanmer/mrepo/viewmodel/ModulesViewModel.kt:120-121 | without pinning the published list is sorted by the menu's comparator |
| `ModulesViewModel.DataViewPinned` | app/src/main/kotlin/com/sanmer/mrepo/viewmodel/ModulesViewModel.kt:120-127 | with pinning every ENABLE module precedes every other module, and each group keeps the comparator's order |
| `ModulesViewModel.DataViewStable` | app/src/main/kotlin/com/sanmer/mrepo/viewmodel/ModulesViewModel.kt:120-131 | without pinning, modules ranked equal by the comparator appear in the published list in their input order, for any search key |
| `ModulesViewModel.DataViewKeepsInputOrder` | app/src/main/kotlin/com/sanmer/mrepo/viewmodel/ModulesViewModel.kt:146-153 | with an option other than NAME and UPDATED_TIME and no pinning, the matching modules are published in input order; with a blank key, the whole input |
| `ModulesViewModel.LoadAtMostOnce` | app/src/main/kotlin/com/sanmer/mrepo/viewmodel/ModulesViewModel.kt:103-110 | when no call is made while a reload is suspended, the full reload runs at most once, exactly once from the start iff the provider is alive at some call, and never after the flag is set |
| `ModulesViewModel.LoadStep` | app/src/main/kotlin/com/sanmer/mrepo/viewmodel/ModulesViewModel.kt:103-110 | one guard check or reload return; its meaning is stated by `LoadAtMostOnce` and `OverlappingCallsReloadTwice` |
| `ModulesViewModel.OverlappingCallsReloadTwice` | app/src/main/kotlin/com/sanmer/mrepo/viewmodel/ModulesViewModel.kt:104-108 | two calls made before the first reload returns both pass the guard: the reload runs twice |
| `ModulesViewModel.FinishedNoReload` | app/src/main/kotlin/com/sanmer/mrepo/viewmodel/ModulesViewModel.kt:105 | once `oneTimeFinished` is set, no later call reloads |
| `ModulesViewModel.ModulesViewModel.constructor` | app/src/main/kotlin/com/sanmer/mrepo/viewmodel/ModulesViewModel.kt:60-101 | starts not searching, with an empty key, list, cache and task list, no reload running, loading and not refreshing |
| `ModulesViewModel.ModulesViewModel.IsOpsRunning` | app/src/main/kotlin/com/sanmer/mrepo/viewmodel/ModulesViewModel.kt:83 | whether any id is tracked; stated after a release by `Collections.RemoveFirstEmpty` |
| `ModulesViewModel.ModulesViewModel.RunAction` | app/src/main/kotlin/com/sanmer/mrepo/viewmodel/ModulesViewModel.kt:185-219 | issues the closure's request and appends its id to `opsTasks` first; a no-op leaves `opsTasks` as it was |
| `ModulesViewModel.ModulesViewModel.OnSuccess` | app/src/main/kotlin/com/sanmer/mrepo/viewmodel/ModulesViewModel.kt:85-90 | launches the refresh and leaves `opsTasks` untouched |
| `ModulesViewModel.ModulesViewModel.RefreshDone` | app/src/main/kotlin/com/sanmer/mrepo/viewmodel/ModulesViewModel.kt:86-89 | after `getLocal(id)` completes, removes the first entry of that id from `opsTasks` |
| `ModulesViewModel.ModulesViewModel.OnFailure` | app/src/main/kotlin/com/sanmer/mrepo/viewmodel/ModulesViewModel.kt:92-95 | removes the first entry of the id at once |
| `ModulesViewModel.ModulesViewModel.LoadDataOneTime` | app/src/main/kotlin/com/sanmer/mrepo/viewmodel/ModulesViewModel.kt:103-106 | starts the reload exactly when the flag is unset and the provider is alive, and counts it as suspended; the flag is not set yet |
| `ModulesViewModel.ModulesViewModel.LoadDone` | app/src/main/kotlin/com/sanmer/mrepo/viewmodel/ModulesViewModel.kt:106-107 | a suspended reload returns: one fewer is running and `oneTimeFinished` is set |
| `ModulesViewModel.ModulesViewModel.Observe` | app/src/main/kotlin/com/sanmer/mrepo/viewmodel/ModulesViewModel.kt:112-135 | an empty list changes neither the published list nor `isLoading`; otherwise it publishes `DataView` for the current key and clears `isLoading` |
| `ModulesViewModel.ModulesViewModel.Search` | app/src/main/kotlin/com/sanmer/mrepo/viewmodel/ModulesViewModel.kt:157-159 | stores the key |
| `ModulesViewModel.ModulesViewModel.OpenSearch` | app/src/main/kotlin/com/sanmer/mrepo/viewmodel/ModulesViewModel.kt:161-163 | sets `isSearch` |
| `ModulesViewModel.ModulesViewModel.CloseSearch` | app/src/main/kotlin/com/sanmer/mrepo/viewmodel/ModulesViewModel.kt:165-168 | clears `isSearch` and resets the key to empty |
| `ModulesViewModel.ModulesViewModel.BeginGetLocalAll` | app/src/main/kotlin/com/sanmer/mrepo/viewmodel/ModulesViewModel.kt:74-76 | sets `isRefreshing` before the reload |
| `ModulesViewModel.ModulesViewModel.EndGetLocalAll` | app/src/main/kotlin/com/sanmer/mrepo/viewmodel/ModulesViewModel.kt:76-77 | clears `isRefreshing` after the reload |
| `ModulesViewModel.ModulesViewModel.VersionItemOf` | app/src/main/kotlin/com/sanmer/mrepo/viewmodel/ModulesViewModel.kt:234-239 | the cached item for the id, null when the id has no entry |
| `ModulesViewModel.ModulesViewModel.RefreshVersionItem` | app/src/main/kotlin/com/sanmer/mrepo/viewmodel/ModulesViewModel.kt:241-257 | the cache becomes `CacheStep` of the old cache with the item the module's update source yields |
| `Collections.RemoveFirst` | app/src/main/kotlin/com/sanmer/mrepo/viewmodel/ModulesViewModel.kt:88 | an absent id leaves the list unchanged; a present one shortens it by exactly one |
| `Collections.RemoveFirstShape` | app/src/main/kotlin/com/sanmer/mrepo/viewmodel/ModulesViewModel.kt:88 | only the first occurrence is removed; the entries before and after it stay in place |
| `Collections.RemoveFirstMultiset` | app/src/main/kotlin/com/sanmer/mrepo/viewmodel/ModulesViewModel.kt:93 | one copy of the id goes if there was one; every other id keeps its count |
| `Collections.RemoveFirstEmpty` | app/src/main/kotlin/com/sanmer/mrepo/viewmodel/ModulesViewModel.kt:83 | a release makes `isOpsRunning` false iff the id was the only entry (or the list was empty) |
| `Collections.SortedWith` | app/src/main/kotlin/com/sanmer/mrepo/viewmodel/ModulesViewModel.kt:120-121 | the stable `sortedWith`; stated by `SortedWithSorted`, `SortedWithPermutation` and `SortedWithStable` |
| `Collections.Insert` | app/src/main/kotlin/com/sanmer/mrepo/viewmodel/ModulesViewModel.kt:120-121 | one insertion step of the stable sort; stated by `InsertSorted`, `InsertPermutation` and `InsertStable` |
| `Collections.SortedWithSorted` | app/src/main/kotlin/com/sanmer/mrepo/viewmodel/ModulesViewModel.kt:120-121 | with a total preorder, `sortedWith` returns a sorted list |
| `Collections.SortedWithPermutation` | app/src/main/kotlin/com/sanmer/mrepo/viewmodel/ModulesViewModel.kt:120-121 | `sortedWith` returns a permutation of its input |
| `Collections.SortedWithStable` | app/src/main/kotlin/com/sanmer/mrepo/viewmodel/ModulesViewModel.kt:120-121 | elements the comparator ranks equal keep their input order |
| `Collections.SortedWithAllEqual` | app/src/main/kotlin/com/sanmer/mrepo/viewmodel/ModulesViewModel.kt:146 | a comparator that ranks everything equal leaves the list unchanged |
| `Collections.SortedWithByKey` | app/src/main/kotlin/com/sanmer/mrepo/viewmodel/ModulesViewModel.kt:124 | sorting by a boolean key, true first, is a stable partition |
| `Collections.FilterCommute` | app/src/main/kotlin/com/sanmer/mrepo/viewmodel/ModulesViewModel.kt:120-131 | two filters can be applied in either order, so filtering the sorted list commutes with the stability statement |
| `Collections.Filter` | app/src/main/kotlin/com/sanmer/mrepo/viewmodel/ModulesViewModel.kt:128-131 | every kept element satisfies the predicate, and the result is no longer than the input |
| `Text.IsBlank` | app/src/main/kotlin/com/sanmer/mrepo/viewmodel/ModulesViewModel.kt:129 | Kotlin's `isBlank()`: every character is whitespace; used by `Matches` and `LoadVersionItem`, whose contracts state its role |
| `Text.Contains` | app/src/main/kotlin/com/sanmer/mrepo/viewmodel/ModulesViewModel.kt:130 | Kotlin's `in` on strings; stated by `ContainsIffOccurs` and `ModulesViewModel.MatchesMeaning` |
| `Text.ContainsIffOccurs` | app/src/main/kotlin/com/sanmer/mrepo/viewmodel/ModulesViewModel.kt:130 | the substring test holds iff the key occurs at some index of the text |
| `ModulesList.ModuleItem` | app/src/main/kotlin/com/sanmer/mrepo/ui/screens/modules/ModulesList.kt:76-137 | the row's decisions; stated by the lemmas below |
| `ModulesList.StateIndicator` | app/src/main/kotlin/com/sanmer/mrepo/ui/screens/modules/ModulesList.kt:113-117 | the indicator per state; stated by `IndicatorDecisions` |
| `ModulesList.RemoveOrRestoreButton` | app/src/main/kotlin/com/sanmer/mrepo/ui/screens/modules/ModulesList.kt:161-189 | the button's enablement, icon and label; stated by `RemoveOrRestoreDecisions` |
| `ModulesList.SwitchDecisions` | app/src/main/kotlin/com/sanmer/mrepo/ui/screens/modules/ModulesList.kt:106-111 | the switch is checked iff the state is ENABLE, and enabled iff the provider is alive |
| `ModulesList.SwitchMatchesToggle` | app/src/main/kotlin/com/sanmer/mrepo/ui/screens/modules/ModulesList.kt:106-111 | flipping a checked switch requests disabling the module, an unchecked one enabling it |
| `ModulesList.IndicatorDecisions` | app/src/main/kotlin/com/sanmer/mrepo/ui/screens/modules/ModulesList.kt:113-117 | trash for REMOVE, device-mobile-down for UPDATE, no indicator for ENABLE and DISABLE |
| `ModulesList.IndicatorMatchesUiState` | app/src/main/kotlin/com/sanmer/mrepo/ui/screens/modules/ModulesList.kt:113-114 | a row shows the trash indicator iff its name is struck through |
| `ModulesList.UpdateButtonDecisions` | app/src/main/kotlin/com/sanmer/mrepo/ui/screens/modules/ModulesList.kt:119-123 | the update button exists iff a version item exists, and is enabled iff its version code is strictly greater than the module's |
| `ModulesList.VersionSheetDecision` | app/src/main/kotlin/com/sanmer/mrepo/ui/screens/modules/ModulesList.kt:90-99 | the version sheet shows iff `open` is set and a version item exists |
| `ModulesList.SheetNeedsUpdateButton` | app/src/main/kotlin/com/sanmer/mrepo/ui/screens/modules/ModulesList.kt:90-123 | the version sheet shows only on a row that has the update button |
| `ModulesList.RemoveOrRestoreDecisions` | app/src/main/kotlin/com/sanmer/mrepo/ui/screens/modules/ModulesList.kt:128-187 | restore icon and label iff REMOVE, trash and remove otherwise; enabled iff alive and, for REMOVE, not KernelSU |
| `ModulesList.RestoreButtonMatchesPolicy` | app/src/main/kotlin/com/sanmer/mrepo/ui/screens/modules/ModulesList.kt:130-133 | for a REMOVE module the restore button is enabled iff the provider is alive and its closure issues a request, that request is to enable this module, and an alive KernelSU provider gets a disabled button and a no-op |
| `ModulesList.UsableButtonsArePermitted` | app/src/main/kotlin/com/sanmer/mrepo/ui/screens/modules/ModulesList.kt:128-134 | for ENABLE, DISABLE and REMOVE an enabled remove/restore button issues a permitted request for that module |
| `ModulesList.UpdateRemoveButtonIsInert` | app/src/main/kotlin/com/sanmer/mrepo/ui/screens/modules/ModulesList.kt:128-134 | for UPDATE the Remove button is enabled while the provider is alive, but both closures do nothing |
| `Colors.Dynamic` | app/src/main/kotlin/com/sanmer/mrepo/ui/theme/Colors.kt:27-34 | the Dynamic entry with id -1; stated by `DynamicIdDistinct` and `IdsDistinct` |
| `Colors.MColors` | app/src/main/kotlin/com/sanmer/mrepo/ui/theme/Colors.kt:36-69 | the five listed entries in order; stated by `GetColorIds`, `RegistryIndexedById` and `IdsDistinct` |
| `Colors.DynamicId` | app/src/main/kotlin/com/sanmer/mrepo/ui/theme/Colors.kt:33 | the companion constant `Dynamic.id`; stated by `DynamicIdDistinct` |
| `Colors.GetColorIds` | app/src/main/kotlin/com/sanmer/mrepo/ui/theme/Colors.kt:71-73 | the ids are 0, 1, 2, 3, 4, in that order |
| `Colors.GetColor` | app/src/main/kotlin/com/sanmer/mrepo/ui/theme/Colors.kt:76-84 | defined for -1..4 only; the entry returned has the requested id, and is the Dynamic one iff the id is -1 |
| `Colors.RegistryIndexedById` | app/src/main/kotlin/com/sanmer/mrepo/ui/theme/Colors.kt:63-69 | each list entry's id equals its index, so a lookup by a listed id returns that list entry |
| `Colors.DynamicIdDistinct` | app/src/main/kotlin/com/sanmer/mrepo/ui/theme/Colors.kt:27-34 | the Dynamic constant equals the instance id -1, is not a listed id, and `getColor(-1)` is the Dynamic entry |
| `Colors.IdsDistinct` | app/src/main/kotlin/com/sanmer/mrepo/ui/theme/Colors.kt:28-57 | all six registry ids are distinct, and so are their palettes |

## Left out

- VersionsPage.kt is not part of this model. It is Compose rendering whose only
  decisions are trivial UI choices.
- ReleaseTree.kt is not part of this model. It is a thin override of a logging tree
  whose base class is not visible.
- Shell and binding plumbing is foreign:
  - the `Shell.Builder` configuration, its flags and its 15-second timeout;
  - `RootService.bind`;
  - `FileSystemManager.getService` / `getRemote`.

  Only their outcome enters the model, as the parameters `InitOutcome` and
  `BuildOutcome`.
- `LocalApi.build` is not visible. Whether it calls the listener, and when, is modelled
  as separate `Listener` events.
- The `getContext()` and `getFileSystemService()` binder calls inside the build are
  folded into the build outcome.
- The `onBind` stub is not modelled.
- `ProviderCompat` is not part of this model. Its `isAlive`, `isKsu` and
  `moduleManager` enter as parameters, and a module-manager call is the `Request` that
  a closure returns.
- Concurrency is sequentialised: coroutines, binder threads, Flows and `combine`.
  - `Observe` models one run of the `combine` collector. A change of key or menu
    re-runs it as a further `Observe` event, so `Search` and `CloseSearch` only store
    the key.
- Compose state semantics are not modelled: `remember`, `derivedStateOf`,
  `LaunchedEffect` re-launching, and `rememberUiState`'s keys.
- Downloads are I/O: `downloader`, `DownloadService`, `getProgress` and
  `Utils.getFilename`.
- `setModulesMenu` writes the preference store. The menu enters `Observe` as a
  parameter.
- Timber logging is not modelled. The failure message of `onFailure` is ignored.
- Alpha values 1f / 0.5f are modelled as `Full` / `Half`, not as floats.
- `ColorScheme` values are opaque. An entry records only its palette.
- `Lower`: Kotlin's `lowercase()` is Unicode-aware. The model lower-cases ASCII letters
  only.
- `StrLe`: `String.compareTo` compares UTF-16 code units. The model compares code
  points. The two orders differ only when a supplementary character is compared
  with a character from U+E000 to U+FFFF.
- `IsWhitespace`: follows the JVM's `isWhitespace` / `isSpaceChar` code points as a
  fixed table.
- `SortedWith` is a stable insertion sort, not the JVM's merge sort. For a total
  preorder, a stable sort has only one possible result.
- `SortOption`: the datastore's option enum is not visible. The options other than
  NAME and UPDATED_TIME share one branch of the comparator, so they are modelled as one
  value, `OtherOption`.
- `LoadAtMostOnce`: proved only for calls that do not overlap (`Serial`). The source
  has no guard against a call made while a reload is suspended, and
  `OverlappingCallsReloadTwice` shows that such a call reloads again.
- `RefreshDone`: assumes `modulesRepository.getLocal(id)` returns. If it throws, the
  coroutine ends before `opsTasks.remove(id)` and the id stays tracked; the model
  always releases it.
- `RunAction`: assumes the module-manager call returns. If `enable`, `disable` or
  `remove` throws after `opsTasks.add`, the id stays tracked and no callback
  follows; the model has no such event.
- `Fs`: succeeds whenever `mProvider` is assigned. The source's
  `mProvider.fileSystemService` is a binder call that fails once the helper process
  has died; that failure is not modelled.
