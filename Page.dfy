/** A page: one navigable view with an identity, a sorting order, the clips of its
    transitions and the lifecycle hooks a subclass may override. Everything the engine
    does with the page's objects (canvas, root, camera) is outside this model; what the
    page and its container do that an observer can see is appended to a shared `Trace`. */
module Pages {
  import opened Wrappers
  import opened AssetInfo

  /** An animation clip, compared by identity only. */
  datatype Clip = Clip(name: string)

  /** `PageTransitionContainer`: the optional enter and exit clips. */
  datatype TransitionClips = TransitionClips(enter: Option<Clip>, exit: Option<Clip>)

  /** `PageOperation`. */
  datatype PageOperation = Push | Pop

  /** Which of the two listener calls, `Will` or `Did`. */
  datatype Phase = Will | Did

  /** The lifecycle hooks of `IPageLifecycleEvent` and the two cache hooks. */
  datatype Hook =
    | DidLoad | WillAppear | DidAppear | WillDisappear | DidDisappear
    | EnterCacheHook | ExitCacheHook

  /** A registered container listener, by position of registration. */
  type ListenerId = nat

  /** The run-time type of a page component, for `GetComponent<T>` and `as T`. */
  type PageKind = nat

  /** What an observer can see happen. */
  datatype Event =
    | Notify(listener: ListenerId, op: PageOperation, phase: Phase, from: Page?, to: Page?)
    | Lifecycle(page: Page, hook: Hook)
    | BackdropEnter(page: Page, animated: bool)
    | BackdropExit(page: Page, animated: bool)
    | Transition(page: Page, op: PageOperation, clip: Clip)
    | Destroyed(page: Page)

  /** The log of events of one container and its pages, oldest first. */
  class Trace {
    var events: seq<Event>

    constructor ()
      ensures events == []
    {
      events := [];
    }

    method Record(e: Event)
      modifies this
      ensures events == old(events) + [e]
    {
      events := events + [e];
    }
  }

  class Page {
    /** The component's run-time type. */
    const kind: PageKind
    /** `m_TransitionContainer`: the page's own clips. */
    const transition: TransitionClips
    /** `m_EnableBackdrop`. */
    const enableBackdrop: bool
    /** `m_DontDestroyAfterPop`. */
    const dontDestroyAfterPop: bool
    /** Whether the page object has a child named "Root". */
    const hasRoot: bool
    /** Where the page's hooks are recorded. */
    const trace: Trace

    /** `m_Path`. */
    var path: PageAssetInfo?
    /** `m_SortingOrder`. */
    var sortingOrder: int
    /** Whether the page's game object is active. */
    var active: bool
    /** `IsInTransition`. */
    var isInTransition: bool

    /** A page as the engine instantiates it: serialized settings and the active flag
        from the prefab, no path yet, sorting order 0 and not in a transition. */
    constructor (kind: PageKind, transition: TransitionClips, enableBackdrop: bool,
                 dontDestroyAfterPop: bool, hasRoot: bool, active: bool, trace: Trace)
      ensures this.kind == kind && this.transition == transition
      ensures this.enableBackdrop == enableBackdrop && this.dontDestroyAfterPop == dontDestroyAfterPop
      ensures this.hasRoot == hasRoot && this.trace == trace && this.active == active
      ensures path == null && sortingOrder == 0 && !isInTransition
    {
      this.kind := kind;
      this.transition := transition;
      this.enableBackdrop := enableBackdrop;
      this.dontDestroyAfterPop := dontDestroyAfterPop;
      this.hasRoot := hasRoot;
      this.trace := trace;
      path := null;
      sortingOrder := 0;
      this.active := active;
      isInTransition := false;
    }

    /** `Config`: always sets the path; sets the sorting order only when one is given. */
    method Config(path: PageAssetInfo?, sortingOrder: Option<int>)
      modifies `path, `sortingOrder
      ensures this.path == path
      ensures sortingOrder.Some? ==> this.sortingOrder == sortingOrder.value
      ensures sortingOrder.None? ==> this.sortingOrder == old(this.sortingOrder)
    {
      this.path := path;
      if sortingOrder.Some? {
        this.sortingOrder := sortingOrder.value;
      }
    }

    /** `EnterCache`: deactivates the page, then runs the enter-cache hook. */
    method EnterCache()
      modifies `active, trace
      ensures !active
      ensures trace.events == old(trace.events) + [Lifecycle(this, EnterCacheHook)]
    {
      active := false;
      RunHook(EnterCacheHook);
    }

    /** `ExitCache`: activates the page, then runs the exit-cache hook. */
    method ExitCache()
      modifies `active, trace
      ensures active
      ensures trace.events == old(trace.events) + [Lifecycle(this, ExitCacheHook)]
    {
      active := true;
      RunHook(ExitCacheHook);
    }

    /** The default body of every lifecycle hook: it changes nothing of the page;
        the trace records that it ran. */
    method RunHook(hook: Hook)
      modifies trace
      ensures unchanged(this)
      ensures trace.events == old(trace.events) + [Lifecycle(this, hook)]
    {
      trace.Record(Lifecycle(this, hook));
    }
  }

  /** A page that enters and then leaves the cache is active again, and the trace
      shows both hooks in order. */
  method CacheRoundTrip(page: Page)
    modifies page, page.trace
    ensures page.active
    ensures page.trace.events
            == old(page.trace.events) + [Lifecycle(page, EnterCacheHook), Lifecycle(page, ExitCacheHook)]
  {
    page.EnterCache();
    page.ExitCache();
  }
}
