/** The modules screen's view-model: the action each module state offers, the
    tracker of in-flight module operations, the cache of remote version items,
    the sort / pin / search pipeline over the installed modules, and the
    run-once initial load. */
module ModulesViewModel {
  import opened Wrappers
  import opened Text
  import opened Collections
  import opened LocalModel

  /** `isProviderKsu`: the backend kind counts only while the provider is alive. */
  function IsProviderKsu(isAlive: bool, isKsu: bool): (r: bool)
    ensures r ==> isAlive
    ensures isAlive ==> r == isKsu
  {
    if isAlive then isKsu else false
  }

  // ---------------------------------------------------------------- actions

  /** The three module-manager operations. */
  datatype Operation = Enable | Disable | Remove

  /** A call into the module manager, with `opsCallback` as its callback. */
  datatype Request = Request(op: Operation, id: string)

  /** What one of the UI state's closures does when it runs. `DispatchUnlessKsu`
      reads `ProviderCompat.isKsu` at the time the closure runs. */
  datatype Action = NoOp | Dispatch(request: Request) | DispatchUnlessKsu(request: Request)

  datatype Alpha = Full | Half
  datatype Decoration = NoDecoration | LineThrough

  /** `LocalUiState`; the defaults are full alpha, no decoration and no-op closures. */
  datatype LocalUiState = LocalUiState(alpha: Alpha, decoration: Decoration, toggle: Action, change: Action)

  /** `createUiState(module)`. */
  function CreateUiState(m: LocalModule): LocalUiState
  {
    match m.state
    case ENABLE => LocalUiState(Full, NoDecoration, Dispatch(Request(Disable, m.id)), Dispatch(Request(Remove, m.id)))
    case DISABLE => LocalUiState(Half, NoDecoration, Dispatch(Request(Enable, m.id)), Dispatch(Request(Remove, m.id)))
    case REMOVE => LocalUiState(Half, LineThrough, NoOp, DispatchUnlessKsu(Request(Enable, m.id)))
    case UPDATE => LocalUiState(Full, NoDecoration, NoOp, NoOp)
  }

  /** The request a closure issues when it runs, if any. */
  function Resolve(a: Action, isKsu: bool): Option<Request>
  {
    match a
    case NoOp => None
    case Dispatch(r) => Some(r)
    case DispatchUnlessKsu(r) => if isKsu then None else Some(r)
  }

  /** The transitions the module manager supports from each state: enabling from
      DISABLE, or from REMOVE unless the backend is KernelSU; disabling from ENABLE;
      removing from ENABLE or DISABLE. */
  predicate Permitted(state: State, op: Operation, isKsu: bool)
  {
    match op
    case Enable => state == DISABLE || (state == REMOVE && !isKsu)
    case Disable => state == ENABLE
    case Remove => state == ENABLE || state == DISABLE
  }

  /** The closures of a module's UI state issue exactly the permitted operations,
      each for that module. */
  lemma ActionsArePermitted(m: LocalModule, op: Operation, isKsu: bool)
    ensures (Resolve(CreateUiState(m).toggle, isKsu) == Some(Request(op, m.id))
             || Resolve(CreateUiState(m).change, isKsu) == Some(Request(op, m.id)))
        <==> Permitted(m.state, op, isKsu)
    ensures forall r :: Resolve(CreateUiState(m).toggle, isKsu) == Some(r) ==> r.id == m.id
    ensures forall r :: Resolve(CreateUiState(m).change, isKsu) == Some(r) ==> r.id == m.id
  {
  }

  /** The toggle of a switch never removes, and the change button never disables. */
  lemma ToggleAndChangeRoles(m: LocalModule, isKsu: bool)
    ensures Resolve(CreateUiState(m).toggle, isKsu) != None
        <==> m.state == ENABLE || m.state == DISABLE
    ensures forall r :: Resolve(CreateUiState(m).toggle, isKsu) == Some(r) ==> r.op != Remove
    ensures forall r :: Resolve(CreateUiState(m).change, isKsu) == Some(r) ==> r.op != Disable
  {
  }

  /** A struck-through name marks a staged removal; a dimmed one a disabled or removed module. */
  lemma UiStateAppearance(m: LocalModule)
    ensures CreateUiState(m).decoration == LineThrough <==> m.state == REMOVE
    ensures CreateUiState(m).alpha == Half <==> m.state == DISABLE || m.state == REMOVE
  {
  }

  /** `opsTasks` after a closure ran: the id is appended before the manager is called. */
  function Submitted(tasks: seq<string>, request: Option<Request>): seq<string>
  {
    match request
    case Some(r) => tasks + [r.id]
    case None => tasks
  }

  /** Running a closure marks its module busy exactly when it issues a request. */
  lemma SubmittedMarksBusy(tasks: seq<string>, a: Action, isKsu: bool)
    ensures var req := Resolve(a, isKsu);
      multiset(Submitted(tasks, req))
        == multiset(tasks) + (if req.Some? then multiset{req.value.id} else multiset{})
  {
  }

  // ------------------------------------------------------------ version cache

  /** The version item a module's update source yields: its update JSON when that
      is not blank, otherwise the first version the repository store lists. */
  function LoadVersionItem(m: LocalModule, fromUpdateJson: Option<VersionItem>, fromRepository: seq<VersionItem>): (r: Option<VersionItem>)
    ensures !IsBlank(m.updateJson) ==> r == fromUpdateJson
    ensures IsBlank(m.updateJson) ==> (r.Some? <==> fromRepository != [])
    ensures IsBlank(m.updateJson) && r.Some? ==> r.value == fromRepository[0]
  {
    if !IsBlank(m.updateJson) then fromUpdateJson
    else if |fromRepository| > 0 then Some(fromRepository[0])
    else None
  }

  /** The `LaunchedEffect` of `getVersionItem`: drop the entry without the updatable tag,
      keep an existing entry (even a null one), otherwise store the loaded item. */
  function CacheStep(cache: map<string, Option<VersionItem>>, id: string, hasUpdatableTag: bool, loaded: Option<VersionItem>): (r: map<string, Option<VersionItem>>)
    ensures !hasUpdatableTag ==> id !in r
    ensures hasUpdatableTag ==> id in r && r[id] == (if id in cache then cache[id] else loaded)
    ensures forall k :: k != id ==> (k in r <==> k in cache)
    ensures forall k :: k != id && k in cache ==> r[k] == cache[k]
  {
    if !hasUpdatableTag then cache - {id}
    else if id in cache then cache
    else cache[id := loaded]
  }

  /** The item is loaded at most once: a second run with the tag still present
      changes nothing, whatever it would load. */
  lemma CacheComputesOnce(cache: map<string, Option<VersionItem>>, id: string, first: Option<VersionItem>, second: Option<VersionItem>)
    ensures var c := CacheStep(cache, id, true, first);
      CacheStep(c, id, true, second) == c
  {
  }

  /** Without the tag the step is idempotent too: the entry stays gone. */
  lemma CacheRemovalIdempotent(cache: map<string, Option<VersionItem>>, id: string, a: Option<VersionItem>, b: Option<VersionItem>)
    ensures CacheStep(CacheStep(cache, id, false, a), id, false, b) == CacheStep(cache, id, false, a)
  {
  }

  // ------------------------------------------------------------ list pipeline

  /** The sort options of the modules menu; the options other than NAME and
      UPDATED_TIME share one branch of the comparator. */
  datatype SortOption = NAME | UPDATED_TIME | OtherOption

  datatype ModulesMenu = ModulesMenu(option: SortOption, descending: bool, pinEnabled: bool)

  /** The orders the pipeline sorts by. */
  datatype Order = NameAscending | NameDescending | UpdatedAscending | UpdatedDescending | Unordered | EnabledFirst

  /** `comparator(option, descending)`; note that UPDATED_TIME is inverted. */
  function Comparator(option: SortOption, descending: bool): Order
  {
    if descending then
      match option
      case NAME => NameDescending
      case UPDATED_TIME => UpdatedAscending
      case OtherOption => Unordered
    else
      match option
      case NAME => NameAscending
      case UPDATED_TIME => UpdatedDescending
      case OtherOption => Unordered
  }

  /** `compare(a, b) <= 0` for each order; EnabledFirst is `compareByDescending { it.state == ENABLE }`. */
  predicate Precedes(o: Order, a: LocalModule, b: LocalModule)
  {
    match o
    case NameAscending => StrLe(Lower(a.name), Lower(b.name))
    case NameDescending => StrLe(Lower(b.name), Lower(a.name))
    case UpdatedAscending => a.lastUpdated <= b.lastUpdated
    case UpdatedDescending => a.lastUpdated >= b.lastUpdated
    case Unordered => true
    case EnabledFirst => a.state == ENABLE || b.state != ENABLE
  }

  function Le(o: Order): (LocalModule, LocalModule) -> bool
  {
    (a, b) => Precedes(o, a, b)
  }

  /** What the comparator means for each menu setting. */
  lemma ComparatorMeaning(option: SortOption, descending: bool, a: LocalModule, b: LocalModule)
    ensures option == NAME && !descending ==> (Le(Comparator(option, descending))(a, b) <==> StrLe(Lower(a.name), Lower(b.name)))
    ensures option == NAME && descending ==> (Le(Comparator(option, descending))(a, b) <==> StrLe(Lower(b.name), Lower(a.name)))
    ensures option == UPDATED_TIME && !descending ==> (Le(Comparator(option, descending))(a, b) <==> a.lastUpdated >= b.lastUpdated)
    ensures option == UPDATED_TIME && descending ==> (Le(Comparator(option, descending))(a, b) <==> a.lastUpdated <= b.lastUpdated)
    ensures option == OtherOption ==> Le(Comparator(option, descending))(a, b)
  {
  }

  /** Every order is one Kotlin's sort accepts. */
  lemma OrderIsTotalPreorder(o: Order)
    ensures TotalPreorder(Le(o))
  {
    var le := Le(o);
    forall a, b ensures le(a, b) || le(b, a) {
      StrLeTotal(Lower(a.name), Lower(b.name));
    }
    forall a, b, c | le(a, b) && le(b, c) ensures le(a, c) {
      if o == NameAscending {
        StrLeTransitive(Lower(a.name), Lower(b.name), Lower(c.name));
      } else if o == NameDescending {
        StrLeTransitive(Lower(c.name), Lower(b.name), Lower(a.name));
      }
    }
  }

  predicate IsEnabled(m: LocalModule) { m.state == ENABLE }
  predicate IsNotEnabled(m: LocalModule) { m.state != ENABLE }

  /** The search filter: a blank key keeps everything, otherwise the lower-cased key
      must occur in the lower-cased name + author + description. */
  predicate Matches(key: string, m: LocalModule)
  {
    IsBlank(key) || Contains(Lower(m.name + m.author + m.description), Lower(key))
  }

  /** A module matches a non-blank key iff the lower-cased key occurs somewhere in
      the lower-cased name + author + description. */
  lemma MatchesMeaning(key: string, m: LocalModule)
    ensures Matches(key, m) <==> (IsBlank(key)
      || exists i :: OccursAt(Lower(m.name + m.author + m.description), Lower(key), i))
  {
    var hay, needle := Lower(m.name + m.author + m.description), Lower(key);
    ContainsIffOccurs(hay, needle);
    if !IsBlank(key) && Contains(hay, needle) {
      assert exists i :: OccursAt(Lower(m.name + m.author + m.description), Lower(key), i);
    }
  }

  function MatchesKey(key: string): LocalModule -> bool
  {
    m => Matches(key, m)
  }

  /** The list `dataObserver` publishes: sorted by the menu's comparator, ENABLE
      modules moved first when pinning, then filtered by the search key. */
  function DataView(list: seq<LocalModule>, menu: ModulesMenu, key: string): seq<LocalModule>
  {
    var sorted := SortedWith(list, Le(Comparator(menu.option, menu.descending)));
    var pinned := if menu.pinEnabled then SortedWith(sorted, Le(EnabledFirst)) else sorted;
    Filter(pinned, MatchesKey(key))
  }

  /** Pinning is a stable partition of the sorted list: enabled modules, then the rest. */
  lemma PinPartitions(v: seq<LocalModule>)
    ensures SortedWith(v, Le(EnabledFirst)) == Filter(v, IsEnabled) + Filter(v, IsNotEnabled)
  {
    SortedWithByKey(v, Le(EnabledFirst), IsEnabled, IsNotEnabled);
  }

  /** The published list holds exactly the matching input modules, each as often as in the input. */
  lemma DataViewContents(list: seq<LocalModule>, menu: ModulesMenu, key: string)
    ensures multiset(DataView(list, menu, key)) == multiset(Filter(list, MatchesKey(key)))
    ensures forall m :: m in DataView(list, menu, key) <==> m in list && Matches(key, m)
  {
    var le := Le(Comparator(menu.option, menu.descending));
    var sorted := SortedWith(list, le);
    SortedWithPermutation(list, le);
    var pinned := if menu.pinEnabled then SortedWith(sorted, Le(EnabledFirst)) else sorted;
    if menu.pinEnabled {
      SortedWithPermutation(sorted, Le(EnabledFirst));
    }
    assert multiset(pinned) == multiset(list);
    FilterPermutation(pinned, list, MatchesKey(key));
    forall m ensures m in DataView(list, menu, key) <==> m in list && Matches(key, m) {
      FilterMember(pinned, MatchesKey(key), m);
      assert m in pinned <==> m in multiset(pinned);
      assert m in list <==> m in multiset(list);
    }
  }

  /** Without pinning the published list is sorted by the menu's comparator. */
  lemma DataViewSorted(list: seq<LocalModule>, menu: ModulesMenu, key: string)
    requires !menu.pinEnabled
    ensures Sorted(DataView(list, menu, key), Le(Comparator(menu.option, menu.descending)))
  {
    var le := Le(Comparator(menu.option, menu.descending));
    OrderIsTotalPreorder(Comparator(menu.option, menu.descending));
    SortedWithSorted(list, le);
    FilterSorted(SortedWith(list, le), MatchesKey(key), le);
  }

  /** Enabled modules, sorted, followed by the other modules, sorted, are ordered as
      the pinned view promises. */
  lemma PinnedConcat(f: seq<LocalModule>, b: seq<LocalModule>, o: Order)
    requires forall i :: 0 <= i < |f| ==> IsEnabled(f[i])
    requires forall i :: 0 <= i < |b| ==> !IsEnabled(b[i])
    requires Sorted(f, Le(o)) && Sorted(b, Le(o))
    ensures var r := f + b;
      forall i, j :: 0 <= i < j < |r| ==>
        (r[j].state == ENABLE ==> r[i].state == ENABLE)
        && (IsEnabled(r[i]) == IsEnabled(r[j]) ==> Precedes(o, r[i], r[j]))
  {
    var r := f + b;
    forall i, j | 0 <= i < j < |r|
      ensures (r[j].state == ENABLE ==> r[i].state == ENABLE)
        && (IsEnabled(r[i]) == IsEnabled(r[j]) ==> Precedes(o, r[i], r[j]))
    {
      if j < |f| {
        assert r[i] == f[i] && r[j] == f[j];
        assert Le(o)(f[i], f[j]);
      } else if i >= |f| {
        assert r[i] == b[i - |f|] && r[j] == b[j - |f|];
        assert Le(o)(b[i - |f|], b[j - |f|]);
      } else {
        assert r[i] == f[i] && r[j] == b[j - |f|];
      }
    }
  }

  /** The pinned view is the matching enabled modules, sorted, followed by the
      matching other modules, sorted. */
  lemma PinnedSplit(list: seq<LocalModule>, menu: ModulesMenu, key: string)
    returns (f: seq<LocalModule>, b: seq<LocalModule>)
    requires menu.pinEnabled
    ensures DataView(list, menu, key) == f + b
    ensures forall i :: 0 <= i < |f| ==> IsEnabled(f[i])
    ensures forall i :: 0 <= i < |b| ==> !IsEnabled(b[i])
    ensures Sorted(f, Le(Comparator(menu.option, menu.descending)))
    ensures Sorted(b, Le(Comparator(menu.option, menu.descending)))
  {
    var o := Comparator(menu.option, menu.descending);
    var le := Le(o);
    var sorted := SortedWith(list, le);
    OrderIsTotalPreorder(o);
    SortedWithSorted(list, le);
    PinPartitions(sorted);
    var front, back := Filter(sorted, IsEnabled), Filter(sorted, IsNotEnabled);
    var mk := MatchesKey(key);
    FilterAppend(front, back, mk);
    f, b := Filter(front, mk), Filter(back, mk);
    FilterSorted(sorted, IsEnabled, le);
    FilterSorted(sorted, IsNotEnabled, le);
    FilterSorted(front, mk, le);
    FilterSorted(back, mk, le);
    forall i | 0 <= i < |f| ensures IsEnabled(f[i]) {
      FilterMember(front, mk, f[i]);
    }
    forall i | 0 <= i < |b| ensures !IsEnabled(b[i]) {
      FilterMember(back, mk, b[i]);
    }
  }

  /** With pinning every ENABLE module comes before every other one, and modules
      on the same side of that split keep the comparator's order. */
  lemma DataViewPinned(list: seq<LocalModule>, menu: ModulesMenu, key: string)
    requires menu.pinEnabled
    ensures var r := DataView(list, menu, key);
      forall i, j :: 0 <= i < j < |r| ==>
        (r[j].state == ENABLE ==> r[i].state == ENABLE)
        && (IsEnabled(r[i]) == IsEnabled(r[j]) ==> Precedes(Comparator(menu.option, menu.descending), r[i], r[j]))
  {
    var f, b := PinnedSplit(list, menu, key);
    PinnedConcat(f, b, Comparator(menu.option, menu.descending));
  }

  /** Without pinning, modules equal under the comparator keep their input order
      (the sort is stable), whatever the search key. */
  lemma DataViewStable(list: seq<LocalModule>, menu: ModulesMenu, key: string, e: LocalModule)
    requires !menu.pinEnabled
    ensures var le := Le(Comparator(menu.option, menu.descending));
      Filter(DataView(list, menu, key), EquivalentTo(le, e))
        == Filter(Filter(list, MatchesKey(key)), EquivalentTo(le, e))
  {
    var le := Le(Comparator(menu.option, menu.descending));
    var eq, mk := EquivalentTo(le, e), MatchesKey(key);
    var sorted := SortedWith(list, le);
    OrderIsTotalPreorder(Comparator(menu.option, menu.descending));
    SortedWithStable(list, le, e);
    FilterCommute(sorted, mk, eq);
    FilterCommute(list, eq, mk);
  }

  lemma {:induction false} FilterAll<T>(s: seq<T>, p: T -> bool)
    requires forall x :: p(x)
    ensures Filter(s, p) == s
  {
    if s != [] {
      FilterAll(s[1..], p);
      assert s == [s[0]] + s[1..];
    }
  }

  /** With an option other than NAME / UPDATED_TIME and no pinning, the matching
      modules are published in their input order; with a blank key, all of them. */
  lemma DataViewKeepsInputOrder(list: seq<LocalModule>, menu: ModulesMenu, key: string)
    requires menu.option == OtherOption && !menu.pinEnabled
    ensures DataView(list, menu, key) == Filter(list, MatchesKey(key))
    ensures IsBlank(key) ==> DataView(list, menu, key) == list
  {
    var le := Le(Comparator(menu.option, menu.descending));
    SortedWithAllEqual(list, le);
    if IsBlank(key) {
      FilterAll(list, MatchesKey(key));
    }
  }

  // ------------------------------------------------------------ one-time load

  /** What `loadDataOneTime` depends on: `oneTimeFinished`, and how many of its
      coroutines are suspended in `getLocalAll()` and have not yet set the flag. */
  datatype LoadState = LoadState(finished: bool, running: nat)

  /** A `loadDataOneTime` coroutine checking its guard (with `ProviderCompat.isAlive`
      as it reads then), or a suspended `getLocalAll()` returning. */
  datatype LoadEvent = LoadCall(isAlive: bool) | LoadReturned

  /** Whether the event is a call that passes the guard and starts `getLocalAll()`. */
  predicate Fetches(s: LoadState, e: LoadEvent)
  {
    e.LoadCall? && !s.finished && e.isAlive
  }

  /** A call that passes the guard suspends in `getLocalAll()`; the flag is set only
      when that reload returns. */
  function LoadStep(s: LoadState, e: LoadEvent): LoadState
  {
    match e
    case LoadCall(_) => if Fetches(s, e) then LoadState(s.finished, s.running + 1) else s
    case LoadReturned => if s.running == 0 then s else LoadState(true, s.running - 1)
  }

  /** How many full reloads a series of events starts. */
  function LoadCount(s: LoadState, events: seq<LoadEvent>): nat
    decreases |events|
  {
    if events == [] then 0
    else (if Fetches(s, events[0]) then 1 else 0) + LoadCount(LoadStep(s, events[0]), events[1..])
  }

  /** The calls do not overlap: no call is made while a reload is suspended, and each
      return answers a started reload. */
  predicate Serial(s: LoadState, events: seq<LoadEvent>)
    decreases |events|
  {
    events == []
    || ((events[0].LoadCall? ==> s.running == 0)
        && (events[0].LoadReturned? ==> s.running > 0)
        && Serial(LoadStep(s, events[0]), events[1..]))
  }

  /** Once the flag is set, no call reloads again. */
  lemma {:induction false} FinishedNoReload(s: LoadState, events: seq<LoadEvent>)
    requires s.finished
    ensures LoadCount(s, events) == 0
    decreases |events|
  {
    if events != [] {
      FinishedNoReload(LoadStep(s, events[0]), events[1..]);
    }
  }

  /** The guard runs the full reload at most once when the calls do not overlap:
      never again once finished, and exactly once from the start if the provider is
      alive at some call. */
  lemma {:induction false} LoadAtMostOnce(s: LoadState, events: seq<LoadEvent>)
    requires s.running == 0 && Serial(s, events)
    ensures s.finished ==> LoadCount(s, events) == 0
    ensures !s.finished ==> (LoadCount(s, events) == 1
                             <==> exists i :: 0 <= i < |events| && events[i] == LoadCall(true))
    ensures LoadCount(s, events) <= 1
    decreases |events|
  {
    if s.finished {
      FinishedNoReload(s, events);
    } else if events != [] {
      var t := LoadStep(s, events[0]);
      if Fetches(s, events[0]) {
        // the reload is suspended: the next event must be its return, which sets the flag
        var rest := events[1..];
        if rest != [] {
          assert rest[0].LoadReturned?;
          FinishedNoReload(LoadStep(t, rest[0]), rest[1..]);
        }
        assert LoadCount(s, events) == 1;
      } else {
        assert t == s && events[0] != LoadCall(true);
        LoadAtMostOnce(t, events[1..]);
        assert (exists i :: 0 <= i < |events| && events[i] == LoadCall(true))
          <==> (exists i :: 0 <= i < |events[1..]| && events[1..][i] == LoadCall(true)) by {
          forall i | 0 < i < |events| ensures events[i] == events[1..][i - 1] { }
          forall i | 0 <= i < |events[1..]| ensures events[1..][i] == events[i + 1] { }
        }
      }
    }
  }

  /** Overlapping calls are not guarded: a second call made while the first reload is
      suspended passes the guard too, and the full reload runs twice. */
  lemma OverlappingCallsReloadTwice()
    ensures var events := [LoadCall(true), LoadCall(true), LoadReturned, LoadReturned];
      LoadCount(LoadState(false, 0), events) == 2 && !Serial(LoadState(false, 0), events)
  {
    var events := [LoadCall(true), LoadCall(true), LoadReturned, LoadReturned];
    var s0 := LoadState(false, 0);
    var s1 := LoadStep(s0, events[0]);
    var s2 := LoadStep(s1, events[1]);
    var s3 := LoadStep(s2, events[2]);
    assert s1 == LoadState(false, 1) && s2 == LoadState(false, 2);
    assert events[1..][1..][1..][1..] == [];
    assert LoadCount(s3, events[1..][1..][1..]) == 0;
    assert LoadCount(s2, events[1..][1..]) == 0;
    assert LoadCount(s1, events[1..]) == 1;
  }

  // ------------------------------------------------------------ the class

  /** `ModulesViewModel`. `pendingRefresh` holds the ids whose `onSuccess` coroutine
      is still waiting for `getLocal(id)`. */
  class ModulesViewModel {
    var isSearch: bool
    var key: string
    var values: seq<LocalModule>
    var oneTimeFinished: bool
    var loadsRunning: nat
    var isLoading: bool
    var isRefreshing: bool
    var versionItemCache: map<string, Option<VersionItem>>
    var opsTasks: seq<string>
    var pendingRefresh: seq<string>

    constructor ()
      ensures !isSearch && key == "" && values == [] && !oneTimeFinished
      ensures loadsRunning == 0 && isLoading && !isRefreshing
      ensures versionItemCache == map[] && opsTasks == [] && pendingRefresh == []
    {
      isSearch, key, values := false, "", [];
      oneTimeFinished, loadsRunning, isLoading, isRefreshing := false, 0, true, false;
      versionItemCache, opsTasks, pendingRefresh := map[], [], [];
    }

    /** `isOpsRunning`. */
    predicate IsOpsRunning()
      reads this
    {
      opsTasks != []
    }

    /** Runs a UI-state closure (`toggle` or `change`); `isKsu` is `ProviderCompat.isKsu`. */
    method RunAction(a: Action, isKsu: bool) returns (request: Option<Request>)
      modifies this`opsTasks
      ensures request == Resolve(a, isKsu)
      ensures opsTasks == Submitted(old(opsTasks), request)
    {
      request := Resolve(a, isKsu);
      if request.Some? {
        opsTasks := opsTasks + [request.value.id];
      }
    }

    /** `opsCallback.onSuccess(id)`: launches the refresh of the module; the id stays tracked. */
    method OnSuccess(id: string)
      modifies this`pendingRefresh
      ensures pendingRefresh == old(pendingRefresh) + [id]
    {
      pendingRefresh := pendingRefresh + [id];
    }

    /** The `k`-th launched refresh finishes `getLocal(id)`, then releases one entry of its id. */
    method RefreshDone(k: nat)
      requires k < |pendingRefresh|
      modifies this`pendingRefresh, this`opsTasks
      ensures pendingRefresh == old(pendingRefresh[..k] + pendingRefresh[k + 1..])
      ensures opsTasks == RemoveFirst(old(opsTasks), old(pendingRefresh[k]))
    {
      var id := pendingRefresh[k];
      pendingRefresh := pendingRefresh[..k] + pendingRefresh[k + 1..];
      opsTasks := RemoveFirst(opsTasks, id);
    }

    /** `opsCallback.onFailure(id, msg)`: releases one entry of the id at once (the message is only logged). */
    method OnFailure(id: string, msg: Option<string>)
      modifies this`opsTasks
      ensures opsTasks == RemoveFirst(old(opsTasks), id)
    {
      opsTasks := RemoveFirst(opsTasks, id);
    }

    /** The state the one-time load depends on. */
    function LoadSnapshot(): LoadState
      reads this
    {
      LoadState(oneTimeFinished, loadsRunning)
    }

    /** `loadDataOneTime()` up to its suspension in `getLocalAll()`: returns whether
        the reload starts; the flag is not set yet. */
    method LoadDataOneTime(isAlive: bool) returns (fetch: bool)
      modifies this`loadsRunning
      ensures fetch == Fetches(old(LoadSnapshot()), LoadCall(isAlive))
      ensures LoadSnapshot() == LoadStep(old(LoadSnapshot()), LoadCall(isAlive))
    {
      fetch := !oneTimeFinished && isAlive;
      if fetch {
        loadsRunning := loadsRunning + 1;
      }
    }

    /** A reload started by `loadDataOneTime()` returns and sets `oneTimeFinished`. */
    method LoadDone()
      requires loadsRunning > 0
      modifies this`oneTimeFinished, this`loadsRunning
      ensures LoadSnapshot() == LoadStep(old(LoadSnapshot()), LoadReturned)
    {
      loadsRunning := loadsRunning - 1;
      oneTimeFinished := true;
    }

    /** The body of the `combine` collector in `dataObserver`. */
    method Observe(list: seq<LocalModule>, menu: ModulesMenu)
      modifies this`values, this`isLoading
      ensures list == [] ==> values == old(values) && isLoading == old(isLoading)
      ensures list != [] ==> values == DataView(list, menu, key) && !isLoading
    {
      if list == [] {
        return;
      }
      values := DataView(list, menu, key);
      isLoading := false;
    }

    method Search(newKey: string)
      modifies this`key
      ensures key == newKey
    {
      key := newKey;
    }

    method OpenSearch()
      modifies this`isSearch
      ensures isSearch
    {
      isSearch := true;
    }

    method CloseSearch()
      modifies this`isSearch, this`key
      ensures !isSearch && key == ""
    {
      isSearch := false;
      key := "";
    }

    /** `getLocalAll()` starts: the `refreshing` wrapper raises the flag. */
    method BeginGetLocalAll()
      modifies this`isRefreshing
      ensures isRefreshing
    {
      isRefreshing := true;
    }

    /** `modulesRepository.getLocalAll()` returned: the flag drops again. */
    method EndGetLocalAll()
      modifies this`isRefreshing
      ensures !isRefreshing
    {
      isRefreshing := false;
    }

    /** The value `getVersionItem` shows: the cached entry, null when absent. */
    function VersionItemOf(id: string): (r: Option<VersionItem>)
      reads this
      ensures id !in versionItemCache ==> r == None
      ensures id in versionItemCache ==> r == versionItemCache[id]
    {
      if id in versionItemCache then versionItemCache[id] else None
    }

    /** The `LaunchedEffect` of `getVersionItem(module)`; the store's answers are parameters. */
    method RefreshVersionItem(m: LocalModule, hasUpdatableTag: bool, fromUpdateJson: Option<VersionItem>, fromRepository: seq<VersionItem>)
      modifies this`versionItemCache
      ensures versionItemCache == CacheStep(old(versionItemCache), m.id, hasUpdatableTag, LoadVersionItem(m, fromUpdateJson, fromRepository))
    {
      if !hasUpdatableTag {
        versionItemCache := versionItemCache - {m.id};
        return;
      }
      if m.id in versionItemCache {
        return;
      }
      var item := LoadVersionItem(m, fromUpdateJson, fromRepository);
      versionItemCache := versionItemCache[m.id := item];
    }
  }
}
