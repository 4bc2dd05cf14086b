/** The root provider's client side: the process-wide lifecycle `state`, the two
    handles assigned when the helper process connects, and the three entry
    points `init`, `onServiceConnected` and `onServiceDisconnected`. */
module SuProvider {
  import opened Wrappers

  /** The lifecycle event last published by the initialiser listener. */
  datatype Event = NON | SUCCEEDED | FAILED

  /** Identity of the binder handed to `onServiceConnected`. */
  type Binder = nat

  /** The local module API, built against the provider of one binder. */
  datatype LocalApi = LocalApi(provider: Binder)

  /** The remote file system, reached through the provider of one binder. */
  datatype RemoteFs = RemoteFs(provider: Binder)

  /** What happens inside `init()`'s `runCatching` block. */
  datatype InitOutcome =
    | ShellThrows    // acquiring the shell threw
    | NotRoot        // the shell is not a root shell: "su request rejected"
    | BindThrows     // the shell is root but `RootService.bind` threw
    | BindRequested  // the bind was requested; the connection answers later

  /** Whether `LocalApi.build(...)` returned or threw. */
  datatype BuildOutcome = BuildOk | BuildThrows

  /** The provider's observable state: `state`, `mProvider` and `mApi`
      (`None` while the lateinit handle is unassigned). */
  datatype ProviderState = ProviderState(state: Event, provider: Option<Binder>, api: Option<LocalApi>)

  /** Every event the provider reacts to. `Listener` is a call of the listener
      made from code outside this file (`LocalApi` receives the listener). */
  datatype ProviderEvent =
    | Init(outcome: InitOutcome)
    | ServiceConnected(binder: Binder, build: BuildOutcome)
    | ServiceDisconnected
    | Listener(success: bool)

  function Initial(): ProviderState
  {
    ProviderState(NON, None, None)
  }

  /** `isInitialized`: both lateinit handles have been assigned. */
  predicate IsInitialized(s: ProviderState)
  {
    s.provider.Some? && s.api.Some?
  }

  /** The transition each event causes, as the source's code performs it. */
  function Step(s: ProviderState, e: ProviderEvent): ProviderState
  {
    match e
    case Listener(success) => s.(state := if success then SUCCEEDED else FAILED)
    case Init(outcome) =>
      if outcome == ShellThrows || outcome == BindThrows then s.(state := FAILED) else s
    case ServiceConnected(binder, build) =>
      var connected := s.(provider := Some(binder));
      if build == BuildOk then connected.(api := Some(LocalApi(binder)))
      else connected.(state := FAILED)
    case ServiceDisconnected => s.(state := FAILED)
  }

  function Run(s: ProviderState, events: seq<ProviderEvent>): ProviderState
    decreases |events|
  {
    if events == [] then s else Run(Step(s, events[0]), events[1..])
  }

  /** Which listener call, if any, an event makes: the listener is the only writer of `state`. */
  function Emission(e: ProviderEvent): Option<Event>
  {
    match e
    case Listener(success) => Some(if success then SUCCEEDED else FAILED)
    case Init(outcome) =>
      if outcome in {ShellThrows, BindThrows} then Some(FAILED) else None
    case ServiceConnected(_, build) => if build == BuildThrows then Some(FAILED) else None
    case ServiceDisconnected => Some(FAILED)
  }

  /** The last listener call in `events`, or `initial` if there is none. */
  function LastEmission(events: seq<ProviderEvent>, initial: Event): Event
  {
    if events == [] then initial
    else match Emission(events[|events| - 1])
      case Some(v) => v
      case None => LastEmission(events[..|events| - 1], initial)
  }

  lemma {:induction false} LastEmissionAppend(a: seq<ProviderEvent>, b: seq<ProviderEvent>, initial: Event)
    ensures LastEmission(a + b, initial) == LastEmission(b, LastEmission(a, initial))
    decreases |b|
  {
    if b == [] {
      assert a + b == a;
    } else {
      assert (a + b)[..|a + b| - 1] == a + b[..|b| - 1];
      LastEmissionAppend(a, b[..|b| - 1], initial);
    }
  }

  /** No guard: the state is whatever the last listener call set, NON if there was none. */
  lemma {:induction false} StateIsLastEmission(s: ProviderState, events: seq<ProviderEvent>)
    ensures Run(s, events).state == LastEmission(events, s.state)
    decreases |events|
  {
    if events != [] {
      StateIsLastEmission(Step(s, events[0]), events[1..]);
      LastEmissionAppend([events[0]], events[1..], s.state);
      assert [events[0]] + events[1..] == events;
      assert LastEmission([events[0]], s.state) == Step(s, events[0]).state;
    }
  }

  /** The handles are only ever assigned: nothing clears them. */
  lemma {:induction false} InitializedStaysInitialized(s: ProviderState, events: seq<ProviderEvent>)
    requires IsInitialized(s)
    ensures IsInitialized(Run(s, events))
    decreases |events|
  {
    if events != [] {
      InitializedStaysInitialized(Step(s, events[0]), events[1..]);
    }
  }

  /** `mApi` is assigned only after `mProvider`. */
  predicate HandlesInOrder(s: ProviderState)
  {
    s.api.Some? ==> s.provider.Some?
  }

  /** The provider becomes initialised exactly when some connection built its API.
      (Starting from a state whose handles are in order, such as the initial one.) */
  lemma {:induction false} InitializedIffSomeBuild(s: ProviderState, events: seq<ProviderEvent>)
    requires HandlesInOrder(s)
    ensures HandlesInOrder(Run(s, events))
    ensures IsInitialized(Run(s, events))
        <==> (IsInitialized(s)
              || exists i :: 0 <= i < |events| && events[i].ServiceConnected? && events[i].build == BuildOk)
    decreases |events|
  {
    if events != [] {
      var next := Step(s, events[0]);
      InitializedIffSomeBuild(next, events[1..]);
      var built := events[0].ServiceConnected? && events[0].build == BuildOk;
      assert IsInitialized(next) <==> IsInitialized(s) || built;
      if exists i :: 0 <= i < |events[1..]| && events[1..][i].ServiceConnected? && events[1..][i].build == BuildOk {
        var i :| 0 <= i < |events[1..]| && events[1..][i].ServiceConnected? && events[1..][i].build == BuildOk;
        assert events[i + 1] == events[1..][i];
      }
      if exists i :: 0 <= i < |events| && events[i].ServiceConnected? && events[i].build == BuildOk {
        var i :| 0 <= i < |events| && events[i].ServiceConnected? && events[i].build == BuildOk;
        if i > 0 {
          assert events[1..][i - 1] == events[i];
        }
      }
    }
  }

  /** Only a connection touches the handles: `init`, listener calls and disconnects leave them. */
  lemma {:induction false} HandlesOnlySetOnConnect(s: ProviderState, events: seq<ProviderEvent>)
    requires forall i :: 0 <= i < |events| ==> !events[i].ServiceConnected?
    ensures Run(s, events).provider == s.provider && Run(s, events).api == s.api
    decreases |events|
  {
    if events != [] {
      HandlesOnlySetOnConnect(Step(s, events[0]), events[1..]);
    }
  }

  /** `init` never touches the handles: a non-root shell changes nothing at all, a
      throw reports failure, and a requested bind waits for the connection. */
  lemma InitOutcomes(s: ProviderState, outcome: InitOutcome)
    ensures var t := Step(s, Init(outcome));
      t.provider == s.provider && t.api == s.api
      && (outcome == NotRoot || outcome == BindRequested ==> t == s)
      && (outcome == ShellThrows || outcome == BindThrows ==> t.state == FAILED)
  {
  }

  /** A disconnect reports failure and keeps `isInitialized` as it was. */
  lemma DisconnectKeepsHandles(s: ProviderState)
    ensures var t := Step(s, ServiceDisconnected);
      t.state == FAILED && t.provider == s.provider && t.api == s.api
      && IsInitialized(t) == IsInitialized(s)
  {
  }

  /** A first connection whose build throws leaves the provider uninitialised and FAILED,
      with `mProvider` assigned. */
  lemma FirstBuildFailure(b: Binder)
    ensures var s := Run(Initial(), [Init(BindRequested), ServiceConnected(b, BuildThrows)]);
      s.state == FAILED && s.provider == Some(b) && !IsInitialized(s)
  {
    var events := [Init(BindRequested), ServiceConnected(b, BuildThrows)];
    var s1 := Step(Initial(), events[0]);
    var s2 := Step(s1, events[1]);
    assert Run(s2, events[2..]) == s2;
    assert Run(s1, events[1..]) == Run(s2, events[2..]);
  }

  /** A reconnection whose build throws keeps the `mApi` built for the earlier binder:
      the provider reports itself initialised although its API belongs to the old connection. */
  lemma StaleApiAfterFailedRebind(b1: Binder, b2: Binder)
    requires b1 != b2
    ensures var s := Run(Initial(), [Init(BindRequested), ServiceConnected(b1, BuildOk), Listener(true),
                                     ServiceDisconnected, Init(BindRequested), ServiceConnected(b2, BuildThrows)]);
      IsInitialized(s) && s.state == FAILED && s.provider == Some(b2) && s.api == Some(LocalApi(b1))
  {
    var events := [Init(BindRequested), ServiceConnected(b1, BuildOk), Listener(true),
                   ServiceDisconnected, Init(BindRequested), ServiceConnected(b2, BuildThrows)];
    var s1 := Step(Initial(), events[0]);
    var s2 := Step(s1, events[1]);
    var s3 := Step(s2, events[2]);
    var s4 := Step(s3, events[3]);
    var s5 := Step(s4, events[4]);
    var s6 := Step(s5, events[5]);
    assert Run(s6, events[6..]) == s6;
    assert Run(s5, events[5..]) == Run(s6, events[6..]);
    assert Run(s4, events[4..]) == Run(s5, events[5..]);
    assert Run(s3, events[3..]) == Run(s4, events[4..]);
    assert Run(s2, events[2..]) == Run(s3, events[3..]);
    assert Run(s1, events[1..]) == Run(s2, events[2..]);
  }

  /** `SuProviderImpl`, one instance per process. */
  class SuProviderImpl {
    var state: Event
    var provider: Option<Binder>
    var api: Option<LocalApi>

    function Snapshot(): ProviderState
      reads this
    {
      ProviderState(state, provider, api)
    }

    constructor ()
      ensures Snapshot() == Initial()
    {
      state, provider, api := NON, None, None;
    }

    /** `listener.onSuccess()`. */
    method OnSuccess()
      modifies this`state
      ensures Snapshot() == Step(old(Snapshot()), Listener(true))
    {
      state := SUCCEEDED;
    }

    /** `listener.onFailure()`. */
    method OnFailure()
      modifies this`state
      ensures Snapshot() == Step(old(Snapshot()), Listener(false))
    {
      state := FAILED;
    }

    /** `init()`: a non-root shell returns without any event; a throw reports failure. */
    method Init(outcome: InitOutcome)
      modifies this`state
      ensures Snapshot() == Step(old(Snapshot()), ProviderEvent.Init(outcome))
    {
      var threw := false;
      match outcome {
        case ShellThrows => threw := true;
        case NotRoot => // rejected: return@runCatching
        case BindThrows => threw := true;
        case BindRequested =>
      }
      if threw {
        OnFailure();
      }
    }

    /** `connection.onServiceConnected`: `mProvider` first, then `mApi` unless the build throws. */
    method OnServiceConnected(binder: Binder, build: BuildOutcome)
      modifies this`provider, this`api, this`state
      ensures Snapshot() == Step(old(Snapshot()), ServiceConnected(binder, build))
    {
      provider := Some(binder);
      if build == BuildOk {
        api := Some(LocalApi(binder));
      } else {
        OnFailure();
      }
    }

    /** `connection.onServiceDisconnected`: reports failure, keeps both handles. */
    method OnServiceDisconnected()
      modifies this`state
      ensures Snapshot() == Step(old(Snapshot()), ServiceDisconnected)
    {
      OnFailure();
    }

    /** The `fs` getter: reading `mProvider` before it is assigned throws. */
    method Fs() returns (fs: RemoteFs)
      requires provider.Some?
      ensures fs.provider == provider.value
    {
      fs := RemoteFs(provider.value);
    }

    /** The `api` getter: reading `mApi` before it is assigned throws. */
    method Api() returns (a: LocalApi)
      requires api.Some?
      ensures Some(a) == api
    {
      a := api.value;
    }
  }
}
