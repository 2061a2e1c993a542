/** The page navigation stack: `m_Pages`, the live stack with its top last, and
    `m_DontDestroyPages`, the retained pages a push may reuse. Push and pop run their
    listener notifications, hooks, backdrop and transition steps one after another;
    every step an observer can see is appended to the container's `Trace`. */
module Container {
  import opened Wrappers
  import opened AssetInfo
  import opened Pages

  /** The exceptions the navigation operations throw. */
  datatype NavError =
    | PrefabNotFound            // Instantiate of a prefab that Resources could not load
    | ComponentMissing          // "Page ... must have a component of type ..."
    | RootMissing               // "Page ... must have a child named Root"
    | ClipMissing(op: PageOperation)  // "AnimationClip for ... is not set"
    | ArgumentOutOfRange        // List.GetRange with a negative count

  /** The page component an instantiated prefab carries: its type and serialized settings,
      and whether the prefab's object is active (`Instantiate` copies that flag). */
  datatype PageTemplate = PageTemplate(
    kind: PageKind, transition: TransitionClips, enableBackdrop: bool,
    dontDestroyAfterPop: bool, hasRoot: bool, active: bool)

  /** A loaded page prefab; `component` is absent when the object has no page component. */
  datatype Prefab = Prefab(component: Option<PageTemplate>)

  /** Whether instantiating `prefab` yields a component of one of the `accepted` kinds
      (`GetComponent<T>` finds a `T`). */
  predicate Instantiates(prefab: Prefab, accepted: set<PageKind>) {
    prefab.component.Some? && prefab.component.value.kind in accepted
  }

  // ---------------------------------------------------------------------------
  // Sequences of pages

  predicate Distinct<T(==)>(s: seq<T>) {
    forall i, j :: 0 <= i < j < |s| ==> s[i] != s[j]
  }

  function Reversed<T>(s: seq<T>): seq<T> {
    seq(|s|, i requires 0 <= i < |s| => s[|s| - 1 - i])
  }

  function RemoveAt<T>(s: seq<T>, i: nat): seq<T>
    requires i < |s|
  {
    s[..i] + s[i + 1..]
  }

  /** The current top of a stack, or null when it is empty. */
  function Top(s: seq<Page>): Page? {
    if |s| > 0 then s[|s| - 1] else null
  }

  /** The `Path` of every page, bottom first. */
  function Paths(ps: seq<Page>): seq<PageAssetInfo?>
    reads ps
  {
    seq(|ps|, i reads ps requires 0 <= i < |ps| => ps[i].path)
  }

  /** The sorting order of every page, bottom first. */
  function Orders(ps: seq<Page>): seq<int>
    reads ps
  {
    seq(|ps|, i reads ps requires 0 <= i < |ps| => ps[i].sortingOrder)
  }

  lemma OrdersAppend(ps: seq<Page>, p: Page)
    ensures Orders(ps + [p]) == Orders(ps) + [p.sortingOrder]
  {
    var l, r := Orders(ps + [p]), Orders(ps) + [p.sortingOrder];
    assert |l| == |r|;
    forall i | 0 <= i < |l| ensures l[i] == r[i] {
      if i < |ps| {
        assert (ps + [p])[i] == ps[i];
      }
    }
  }

  /** `List.FindIndex` with `operator ==` on paths: the first position whose path equals
      `path`, or -1. */
  function IndexOf(paths: seq<PageAssetInfo?>, path: PageAssetInfo?): (r: int)
    ensures -1 <= r < |paths|
    ensures r == -1 <==> forall i :: 0 <= i < |paths| ==> !PageAssetInfo.OpEquals(paths[i], path)
    ensures r >= 0 ==> PageAssetInfo.OpEquals(paths[r], path)
    ensures r >= 0 ==> forall i :: 0 <= i < r ==> !PageAssetInfo.OpEquals(paths[i], path)
  {
    if |paths| == 0 then -1
    else if PageAssetInfo.OpEquals(paths[0], path) then 0
    else
      var k := IndexOf(paths[1..], path);
      if k == -1 then -1 else k + 1
  }

  lemma AppendAssoc<T>(a: seq<T>, b: seq<T>, c: seq<T>)
    ensures (a + b) + c == a + (b + c)
  {
  }

  lemma PrefixAppend<T>(a: seq<T>, b: seq<T>)
    ensures |a + b| == |a| + |b| && (a + b)[..|a|] == a
  {
  }

  lemma PrefixChain<T>(s: seq<T>, t: seq<T>, u: seq<T>)
    requires |s| <= |t| <= |u| && t[..|s|] == s && u[..|t|] == t
    ensures u[..|s|] == s
  {
    assert u[..|s|] == u[..|t|][..|s|];
  }

  /** One more element on both a sequence `x == e + y` and its suffix `y`. */
  lemma Snoc<T>(e: seq<T>, y: seq<T>, x: seq<T>, t: T) returns (y': seq<T>, x': seq<T>)
    requires x == e + y
    ensures y' == y + [t] && x' == x + [t] && x' == e + y'
  {
    AppendAssoc(e, y, [t]);
    y', x' := y + [t], x + [t];
  }

  lemma ReversedInfo<T>(s: seq<T>)
    ensures |Reversed(s)| == |s|
    ensures forall x :: x in Reversed(s) <==> x in s
    ensures Distinct(s) ==> Distinct(Reversed(s))
  {
    var r := Reversed(s);
    forall x | x in s ensures x in r {
      var i :| 0 <= i < |s| && s[i] == x;
      assert r[|s| - 1 - i] == x;
    }
  }

  lemma DistinctSplit<T>(s: seq<T>, k: nat)
    requires Distinct(s) && k <= |s|
    ensures Distinct(s[..k]) && Distinct(s[k..])
    ensures forall x :: x in s[..k] ==> x !in s[k..]
  {
    forall x | x in s[..k] ensures x !in s[k..] {
      var i :| 0 <= i < k && s[i] == x;
    }
  }

  // ---------------------------------------------------------------------------
  // The registry of containers

  /** `Get(name)`: the first registered container with that unique name, or null. */
  function Get(instances: seq<PageContainer>, name: string): (r: PageContainer?)
    ensures r == null <==> forall i :: 0 <= i < |instances| ==> instances[i].uniqueName != name
    ensures r != null ==> r in instances && r.uniqueName == name
    ensures forall i ::
              (0 <= i < |instances| && instances[i].uniqueName == name
               && forall k :: 0 <= k < i ==> instances[k].uniqueName != name)
              ==> r == instances[i]
  {
    if |instances| == 0 then null
    else if instances[0].uniqueName == name then instances[0]
    else Get(instances[1..], name)
  }

  // ---------------------------------------------------------------------------
  // Transition clips

  function ClipOf(clips: TransitionClips, op: PageOperation): Option<Clip> {
    if op == PageOperation.Push then clips.enter else clips.exit
  }

  /** Clip choice in `HandlePageTransition`: the page's own clip for the operation, else
      the container's; none at all is the error case. */
  function SelectClip(pageClips: TransitionClips, defaults: TransitionClips, op: PageOperation): (r: Option<Clip>)
    ensures ClipOf(pageClips, op).Some? ==> r == ClipOf(pageClips, op)
    ensures ClipOf(pageClips, op).None? ==> r == ClipOf(defaults, op)
    ensures r.None? <==> ClipOf(pageClips, op).None? && ClipOf(defaults, op).None?
  {
    var own := ClipOf(pageClips, op);
    if own.Some? then own else ClipOf(defaults, op)
  }

  // ---------------------------------------------------------------------------
  // Sorting order, on the orders of the stack alone

  const Int32Min: int := -0x8000_0000
  const Int32Max: int := 0x7fff_ffff

  predicate InInt32(x: int) {
    Int32Min <= x <= Int32Max
  }

  /** C# unchecked `int` arithmetic: the value reduced modulo 2^32 into the `int` range. */
  function Wrap32(x: int): (r: int)
    ensures InInt32(r)
    ensures (r - x) % 0x1_0000_0000 == 0
    ensures InInt32(x) ==> r == x
  {
    (x - Int32Min) % 0x1_0000_0000 + Int32Min
  }

  /** The order a push puts the new page on: the top's, or the base on an empty stack. */
  function Below(orders: seq<int>, base: int): int {
    if |orders| > 0 then orders[|orders| - 1] else base
  }

  /** Whether a push's `max + m_SortingOrderStep` fits in an `int`, so it does not wrap. */
  predicate PushFits(orders: seq<int>, base: int, step: int) {
    InInt32(Below(orders, base) + step)
  }

  /** The order an auto-ordered push gives the new page: the top's order plus the step,
      or the base plus the step on an empty stack, as a 32-bit `int` sum. */
  function NextOrder(orders: seq<int>, base: int, step: int): int {
    Wrap32(Below(orders, base) + step)
  }

  /** The next order is an `int`, congruent modulo 2^32 to the exact sum, and that sum
      itself when it fits. */
  lemma NextOrderIsWrappedSum(orders: seq<int>, base: int, step: int)
    ensures InInt32(NextOrder(orders, base, step))
    ensures (NextOrder(orders, base, step) - (Below(orders, base) + step)) % 0x1_0000_0000 == 0
    ensures PushFits(orders, base, step) ==> NextOrder(orders, base, step) == Below(orders, base) + step
  {
  }

  predicate Increasing(orders: seq<int>) {
    forall i, j :: 0 <= i < j < |orders| ==> orders[i] < orders[j]
  }

  /** A push that appends a page, or a `Pop(count)`. */
  datatype StackOp = PushPage | PopPages(count: int)

  /** The orders after one operation with auto-ordering on. */
  function Apply(orders: seq<int>, op: StackOp, base: int, step: int): seq<int> {
    match op
    case PushPage => orders + [NextOrder(orders, base, step)]
    case PopPages(count) =>
      if 0 <= count <= |orders| then orders[..|orders| - count] else orders
  }

  function Replay(orders: seq<int>, ops: seq<StackOp>, base: int, step: int): seq<int>
    decreases |ops|
  {
    if ops == [] then orders else Replay(Apply(orders, ops[0], base, step), ops[1..], base, step)
  }

  /** The depth after the operations, counted independently of the orders. */
  function Depth(depth: nat, ops: seq<StackOp>): nat
    decreases |ops|
  {
    if ops == [] then depth
    else match ops[0]
      case PushPage => Depth(depth + 1, ops[1..])
      case PopPages(count) =>
        Depth(if 0 <= count <= depth then depth - count else depth, ops[1..])
  }

  /** One push that does not wrap around, or one pop, keeps a strictly increasing stack
      strictly increasing, and keeps every order above the base. */
  lemma ApplyKeepsIncreasing(orders: seq<int>, op: StackOp, base: int, step: int)
    requires step > 0 && Increasing(orders)
    requires forall i :: 0 <= i < |orders| ==> orders[i] > base
    requires op.PushPage? ==> PushFits(orders, base, step)
    ensures Increasing(Apply(orders, op, base, step))
    ensures forall i :: 0 <= i < |Apply(orders, op, base, step)| ==> Apply(orders, op, base, step)[i] > base
  {
    var r := Apply(orders, op, base, step);
    if op.PushPage? {
      NextOrderIsWrappedSum(orders, base, step);
      var n := |orders|;
      forall i, j | 0 <= i < j < |r| ensures r[i] < r[j] {
        if j == n && i < n - 1 {
          assert orders[i] < orders[n - 1];
        }
      }
    }
  }

  /** Whether no push of `ops`, replayed from `orders`, wraps around. */
  predicate ReplayFits(orders: seq<int>, ops: seq<StackOp>, base: int, step: int)
    decreases |ops|
  {
    || ops == []
    || ((ops[0].PushPage? ==> PushFits(orders, base, step))
        && ReplayFits(Apply(orders, ops[0], base, step), ops[1..], base, step))
  }

  /** With a positive step, orders stay strictly increasing bottom to top, and above the
      base, across any sequence of pushes and pops in which no push wraps around. */
  lemma {:induction false} ReplayKeepsIncreasing(orders: seq<int>, ops: seq<StackOp>, base: int, step: int)
    requires step > 0 && Increasing(orders)
    requires forall i :: 0 <= i < |orders| ==> orders[i] > base
    requires ReplayFits(orders, ops, base, step)
    ensures Increasing(Replay(orders, ops, base, step))
    ensures forall i :: 0 <= i < |Replay(orders, ops, base, step)| ==> Replay(orders, ops, base, step)[i] > base
    decreases |ops|
  {
    if ops != [] {
      ApplyKeepsIncreasing(orders, ops[0], base, step);
      ReplayKeepsIncreasing(Apply(orders, ops[0], base, step), ops[1..], base, step);
    }
  }

  /** Each push adds one page and each pop that fits removes `count`; a pop that does not
      fit changes nothing. */
  lemma {:induction false} ReplayDepth(orders: seq<int>, ops: seq<StackOp>, base: int, step: int)
    ensures |Replay(orders, ops, base, step)| == Depth(|orders|, ops)
    decreases |ops|
  {
    if ops != [] {
      ReplayDepth(Apply(orders, ops[0], base, step), ops[1..], base, step);
    }
  }

  /** A wrapping push breaks the order: with base 10 and step 1500000000 the second push
      gives -1294967286, below the first page's 1500000010. */
  lemma OverflowBreaksIncreasing()
    ensures Replay([], [PushPage, PushPage], 10, 1500000000) == [1500000010, -1294967286]
    ensures !Increasing(Replay([], [PushPage, PushPage], 10, 1500000000))
    ensures !ReplayFits([], [PushPage, PushPage], 10, 1500000000)
  {
    var ops: seq<StackOp> := [PushPage, PushPage];
    var first := Apply([], PushPage, 10, 1500000000);
    assert first == [1500000010];
    var second := Apply(first, PushPage, 10, 1500000000);
    assert second == [1500000010, -1294967286];
    assert ops[1..] == [PushPage] && ops[1..][1..] == [];
    assert Replay([], ops, 10, 1500000000) == Replay(first, [PushPage], 10, 1500000000);
    assert Replay(first, [PushPage], 10, 1500000000) == Replay(second, [], 10, 1500000000) == second;
    assert !(second[0] < second[1]);
    assert !PushFits(first, 10, 1500000000);
    assert !ReplayFits(first, [PushPage], 10, 1500000000);
    assert ReplayFits([], ops, 10, 1500000000) == ReplayFits(first, [PushPage], 10, 1500000000);
  }

  /** Whether base + step, base + 2 step, ..., base + n step all fit in an `int`. */
  predicate ProgressionFits(base: int, step: int, n: nat) {
    n == 0 || (InInt32(base + n * step) && ProgressionFits(base, step, n - 1))
  }

  lemma {:induction false} ProgressionFitsBelow(base: int, step: int, n: nat, k: nat)
    requires ProgressionFits(base, step, n) && 1 <= k <= n
    ensures InInt32(base + k * step)
    decreases n
  {
    if k < n {
      ProgressionFitsBelow(base, step, n - 1, k);
    }
  }

  /** Pushes alone, from an empty stack, give base + step, base + 2 step, ..., as long as
      those sums fit in an `int`. */
  lemma {:induction false} PushesFromEmpty(n: nat, base: int, step: int)
    requires ProgressionFits(base, step, n)
    ensures Replay([], seq(n, _ => PushPage), base, step) == seq(n, i => base + (i + 1) * step)
  {
    PushesOnto([], n, base, step);
  }

  lemma {:induction false} PushesOnto(orders: seq<int>, n: nat, base: int, step: int)
    requires orders == seq(|orders|, i => base + (i + 1) * step)
    requires ProgressionFits(base, step, |orders| + n)
    ensures Replay(orders, seq(n, _ => PushPage), base, step)
            == seq(|orders| + n, i => base + (i + 1) * step)
    decreases n
  {
    var ops := seq(n, _ => PushPage);
    if n > 0 {
      var next := Apply(orders, PushPage, base, step);
      ProgressionFitsBelow(base, step, |orders| + n, |orders| + 1);
      assert Below(orders, base) + step == base + (|orders| + 1) * step;
      NextOrderIsWrappedSum(orders, base, step);
      assert NextOrder(orders, base, step) == base + (|orders| + 1) * step;
      assert next == seq(|orders| + 1, i => base + (i + 1) * step);
      assert ops[1..] == seq(n - 1, _ => PushPage);
      PushesOnto(next, n - 1, base, step);
    } else {
      assert ops == [];
    }
  }

  // ---------------------------------------------------------------------------
  // The container

  /** One notification per registered listener, in registration order. */
  function NotifyAll(listeners: seq<ListenerId>, op: PageOperation, phase: Phase, from: Page?, to: Page?): seq<Event> {
    seq(|listeners|, i requires 0 <= i < |listeners| => Notify(listeners[i], op, phase, from, to))
  }

  class PageContainer {
    /** `m_uniqueName`. */
    const uniqueName: string
    /** `m_TransitionContainer`: the default clips. */
    const defaults: TransitionClips
    /** `m_eventListeners`. */
    const listeners: seq<ListenerId>
    /** `m_AutoSoringOrder`. */
    const autoSortingOrder: bool
    /** `m_BaseSortingOrder`. */
    const baseSortingOrder: int
    /** `m_SortingOrderStep`. */
    const sortingOrderStep: int
    /** The log of everything observable this container and its pages do. */
    const trace: Trace

    /** `m_Pages`: the live stack, top last. */
    var pages: seq<Page>
    /** `m_DontDestroyPages`: retained pages that a push may reuse. */
    var dontDestroyPages: seq<Page>

    ghost predicate Valid()
      reads this
    {
      && Distinct(pages)
      && Distinct(dontDestroyPages)
      && (forall p :: p in pages ==> p !in dontDestroyPages)
      && (forall p :: p in pages ==> p.trace == trace)
      && (forall p :: p in dontDestroyPages ==> p.trace == trace)
    }

    /** A container with its serialized settings (defaults as in the source) and both
        lists empty. */
    constructor (trace: Trace, defaults: TransitionClips, listeners: seq<ListenerId> := [],
                 uniqueName: string := "Default", autoSortingOrder: bool := true,
                 baseSortingOrder: int := 10, sortingOrderStep: int := 10)
      ensures Valid()
      ensures this.trace == trace && this.defaults == defaults && this.listeners == listeners
      ensures this.uniqueName == uniqueName && this.autoSortingOrder == autoSortingOrder
      ensures this.baseSortingOrder == baseSortingOrder && this.sortingOrderStep == sortingOrderStep
      ensures pages == [] && dontDestroyPages == []
    {
      this.trace := trace;
      this.defaults := defaults;
      this.listeners := listeners;
      this.uniqueName := uniqueName;
      this.autoSortingOrder := autoSortingOrder;
      this.baseSortingOrder := baseSortingOrder;
      this.sortingOrderStep := sortingOrderStep;
      pages := [];
      dontDestroyPages := [];
    }

    /** Whether a transition for `op` on `page` would throw for want of a clip. */
    predicate Faults(page: Page, op: PageOperation, animated: bool) {
      animated && SelectClip(page.transition, defaults, op).None?
    }

    /** The trace `e` extended by a push of `page` over `from`, from the `WillAppear` hook
        on: hook, notifications, backdrop, then (unless the transition throws for want of a
        clip) the clip, `DidAppear` and the second notifications. */
    ghost function AppearOnto(e: seq<Event>, page: Page, from: Page?, animated: bool): seq<Event> {
      var hooked := e + [Lifecycle(page, WillAppear)];
      var notified := hooked + NotifyAll(listeners, PageOperation.Push, Will, from, page);
      var shown := if page.enableBackdrop then notified + [BackdropEnter(page, animated)] else notified;
      if Faults(page, PageOperation.Push, animated) then shown
      else
        var played :=
          if animated then shown + [Transition(page, PageOperation.Push, SelectClip(page.transition, defaults, PageOperation.Push).value)]
          else shown;
        (played + [Lifecycle(page, DidAppear)]) + NotifyAll(listeners, PageOperation.Push, Did, from, page)
    }

    /** The trace `e` extended by popping `page` towards the new top `to`: notifications,
        hook, then the rest from the backdrop step on. */
    ghost function DisappearOnto(e: seq<Event>, page: Page, to: Page?, animated: bool): seq<Event> {
      HideOnto((e + NotifyAll(listeners, PageOperation.Pop, Will, page, to)) + [Lifecycle(page, WillDisappear)],
               page, to, animated)
    }

    /** The trace `hooked` extended by the rest of a pop from the backdrop step on: backdrop,
        then (unless the transition throws for want of a clip) the clip and the closing steps. */
    ghost function HideOnto(hooked: seq<Event>, page: Page, to: Page?, animated: bool): seq<Event> {
      var hidden := if page.enableBackdrop then hooked + [BackdropExit(page, animated)] else hooked;
      if Faults(page, PageOperation.Pop, animated) then hidden
      else
        CloseOnto(if animated then hidden + [Transition(page, PageOperation.Pop, SelectClip(page.transition, defaults, PageOperation.Pop).value)]
                  else hidden,
                  page, to)
    }

    /** The trace `played` extended by the closing steps of a pop: `DidDisappear`, the
        second notifications, and caching or destruction. */
    ghost function CloseOnto(played: seq<Event>, page: Page, to: Page?): seq<Event> {
      var finished := (played + [Lifecycle(page, DidDisappear)]) + NotifyAll(listeners, PageOperation.Pop, Did, page, to);
      if page.dontDestroyAfterPop then finished + [Lifecycle(page, EnterCacheHook)]
      else finished + [Destroyed(page)]
    }

    /** The trace `e` extended by popping the pages of `order`, first to last. */
    ghost function PopOnto(e: seq<Event>, order: seq<Page>, to: Page?, animated: bool): seq<Event>
      decreases |order|
    {
      if order == [] then e
      else DisappearOnto(PopOnto(e, order[..|order| - 1], to, animated), order[|order| - 1], to, animated)
    }

    /** A pop only appends: the events before it stay as they were. */
    lemma DisappearOntoExtends(e: seq<Event>, page: Page, to: Page?, animated: bool)
      ensures DisappearOnto(e, page, to, animated) == e + DisappearOnto([], page, to, animated)
    {
      var y := NotifyAll(listeners, PageOperation.Pop, Will, page, to);
      var x := e + y;
      assert [] + y == y;
      y, x := Snoc(e, y, x, Lifecycle(page, WillDisappear));
      if page.enableBackdrop {
        y, x := Snoc(e, y, x, BackdropExit(page, animated));
      }
      if !Faults(page, PageOperation.Pop, animated) {
        if animated {
          y, x := Snoc(e, y, x, Transition(page, PageOperation.Pop, SelectClip(page.transition, defaults, PageOperation.Pop).value));
        }
        y, x := Snoc(e, y, x, Lifecycle(page, DidDisappear));
        var did := NotifyAll(listeners, PageOperation.Pop, Did, page, to);
        AppendAssoc(e, y, did);
        y, x := y + did, x + did;
        y, x := Snoc(e, y, x, if page.dontDestroyAfterPop then Lifecycle(page, EnterCacheHook) else Destroyed(page));
      }
    }

    /** The rest of a pop only appends to the events before it. */
    lemma HideOntoKeeps(hooked: seq<Event>, page: Page, to: Page?, animated: bool)
      ensures |HideOnto(hooked, page, to, animated)| > |hooked| - 1
      ensures HideOnto(hooked, page, to, animated)[..|hooked|] == hooked
    {
      var hidden := if page.enableBackdrop then hooked + [BackdropExit(page, animated)] else hooked;
      if page.enableBackdrop {
        PrefixAppend(hooked, [BackdropExit(page, animated)]);
      }
      if !Faults(page, PageOperation.Pop, animated) {
        var played :=
          if animated then hidden + [Transition(page, PageOperation.Pop, SelectClip(page.transition, defaults, PageOperation.Pop).value)]
          else hidden;
        if animated {
          PrefixAppend(hidden, [Transition(page, PageOperation.Pop, SelectClip(page.transition, defaults, PageOperation.Pop).value)]);
        }
        CloseOntoShape(played, page, to);
        PrefixChain(hidden, played, CloseOnto(played, page, to));
      }
      PrefixChain(hooked, hidden, HideOnto(hooked, page, to, animated));
    }

    /** The closing steps of a pop: `DidDisappear`, then `Did(Pop, page, to)` for every
        listener, then the enter-cache hook when the page is kept and its destruction
        otherwise, all after the events before them. */
    lemma CloseOntoShape(played: seq<Event>, page: Page, to: Page?)
      ensures var c := CloseOnto(played, page, to);
              var n := |listeners|;
              && |c| == |played| + n + 2
              && c[..|played|] == played
              && c[|played|] == Lifecycle(page, DidDisappear)
              && c[|played| + 1..|c| - 1] == NotifyAll(listeners, PageOperation.Pop, Did, page, to)
              && c[|c| - 1] == (if page.dontDestroyAfterPop then Lifecycle(page, EnterCacheHook) else Destroyed(page))
    {
      var did := NotifyAll(listeners, PageOperation.Pop, Did, page, to);
      var last := if page.dontDestroyAfterPop then Lifecycle(page, EnterCacheHook) else Destroyed(page);
      var c := ((played + [Lifecycle(page, DidDisappear)]) + did) + [last];
      assert CloseOnto(played, page, to) == c;
      assert c[|played| + 1..|c| - 1] == did;
      PrefixAppend(played, [Lifecycle(page, DidDisappear)]);
      PrefixAppend(played + [Lifecycle(page, DidDisappear)], did);
      PrefixAppend((played + [Lifecycle(page, DidDisappear)]) + did, [last]);
      PrefixChain(played, played + [Lifecycle(page, DidDisappear)], (played + [Lifecycle(page, DidDisappear)]) + did);
      PrefixChain(played, (played + [Lifecycle(page, DidDisappear)]) + did, c);
    }

    /** The events of popping one page begin with the listeners' `Will(Pop, page, to)` in
        registration order and then `WillDisappear`. */
    lemma DisappearBegins(page: Page, to: Page?, animated: bool)
      ensures var d := DisappearOnto([], page, to, animated);
              var n := |listeners|;
              && |d| > n
              && d[..n] == NotifyAll(listeners, PageOperation.Pop, Will, page, to)
              && d[n] == Lifecycle(page, WillDisappear)
    {
      var will := NotifyAll(listeners, PageOperation.Pop, Will, page, to);
      assert [] + will == will;
      var hooked := will + [Lifecycle(page, WillDisappear)];
      PrefixAppend(will, [Lifecycle(page, WillDisappear)]);
      HideOntoKeeps(hooked, page, to, animated);
      PrefixChain(will, hooked, DisappearOnto([], page, to, animated));
    }

    /** A page whose transition throws for want of a clip stops right after the backdrop
        step: its pop is the notifications, `WillDisappear` and the backdrop exit alone. */
    lemma DisappearStops(page: Page, to: Page?, animated: bool)
      requires Faults(page, PageOperation.Pop, animated)
      ensures |DisappearOnto([], page, to, animated)| == |listeners| + 1 + (if page.enableBackdrop then 1 else 0)
    {
      var will := NotifyAll(listeners, PageOperation.Pop, Will, page, to);
      assert |[] + will| == |listeners|;
    }

    /** A page whose transition does not throw ends its pop with `DidDisappear`, the
        listeners' `Did(Pop, page, to)` in registration order, and then the cache hook when
        it is kept or its destruction otherwise. */
    lemma DisappearEnds(page: Page, to: Page?, animated: bool)
      requires !Faults(page, PageOperation.Pop, animated)
      ensures var d := DisappearOnto([], page, to, animated);
              var n := |listeners|;
              && |d| >= 2 * n + 3
              && d[|d| - 2 - n] == Lifecycle(page, DidDisappear)
              && d[|d| - 1 - n..|d| - 1] == NotifyAll(listeners, PageOperation.Pop, Did, page, to)
              && d[|d| - 1] == (if page.dontDestroyAfterPop then Lifecycle(page, EnterCacheHook) else Destroyed(page))
    {
      var will := NotifyAll(listeners, PageOperation.Pop, Will, page, to);
      var hooked := ([] + will) + [Lifecycle(page, WillDisappear)];
      var hidden := if page.enableBackdrop then hooked + [BackdropExit(page, animated)] else hooked;
      var played :=
        if animated then hidden + [Transition(page, PageOperation.Pop, SelectClip(page.transition, defaults, PageOperation.Pop).value)]
        else hidden;
      assert |played| >= |listeners| + 1;
      assert DisappearOnto([], page, to, animated) == CloseOnto(played, page, to);
      CloseOntoShape(played, page, to);
    }

    /** The events of a push from `WillAppear` on: the hook, then the listeners'
        `Will(Push, from, page)` in registration order; a push whose transition does not
        throw ends with `DidAppear` and the listeners' `Did(Push, from, page)`. */
    lemma AppearOrder(page: Page, from: Page?, animated: bool)
      ensures var a := AppearOnto([], page, from, animated);
              var n := |listeners|;
              && |a| > n
              && a[0] == Lifecycle(page, WillAppear)
              && a[1..n + 1] == NotifyAll(listeners, PageOperation.Push, Will, from, page)
              && (Faults(page, PageOperation.Push, animated) ==>
                    |a| == n + 1 + (if page.enableBackdrop then 1 else 0))
              && (!Faults(page, PageOperation.Push, animated) ==>
                    |a| >= 2 * n + 2
                    && a[|a| - 1 - n] == Lifecycle(page, DidAppear)
                    && a[|a| - n..] == NotifyAll(listeners, PageOperation.Push, Did, from, page))
    {
      var n := |listeners|;
      var will := NotifyAll(listeners, PageOperation.Push, Will, from, page);
      var notified := ([] + [Lifecycle(page, WillAppear)]) + will;
      assert notified[1..] == will;
      var shown := if page.enableBackdrop then notified + [BackdropEnter(page, animated)] else notified;
      assert shown[..n + 1] == notified;
      if !Faults(page, PageOperation.Push, animated) {
        var played :=
          if animated then shown + [Transition(page, PageOperation.Push, SelectClip(page.transition, defaults, PageOperation.Push).value)]
          else shown;
        assert played[..n + 1] == notified;
        var did := NotifyAll(listeners, PageOperation.Push, Did, from, page);
        var a := (played + [Lifecycle(page, DidAppear)]) + did;
        assert a == AppearOnto([], page, from, animated);
        assert a[..n + 1] == notified;
        assert a[|a| - n..] == did;
      }
    }

    /** Splitting the pages one `Pop` finalises, all towards the same new top, into two
        groups taken one after the other gives the same events. */
    lemma {:induction false} PopOntoSplit(e: seq<Event>, first: seq<Page>, second: seq<Page>, to: Page?, animated: bool)
      ensures PopOnto(e, first + second, to, animated) == PopOnto(PopOnto(e, first, to, animated), second, to, animated)
      decreases |second|
    {
      if second == [] {
        assert first + second == first;
      } else {
        var init := second[..|second| - 1];
        assert (first + second)[..|first + second| - 1] == first + init;
        assert (first + second)[|first + second| - 1] == second[|second| - 1];
        PopOntoSplit(e, first, init, to, animated);
      }
    }

    /** The position of the retained page a push of `path` reuses, or -1: the first
        retained page with that path, provided it has a requested type. */
    ghost function CacheHit(path: PageAssetInfo, accepted: set<PageKind>): (r: int)
      reads this, dontDestroyPages
      ensures -1 <= r < |dontDestroyPages|
    {
      var i := IndexOf(Paths(dontDestroyPages), path);
      if i >= 0 && dontDestroyPages[i].kind in accepted then i else -1
    }

    /** The retained page a push of `path` reuses, as a frame: none on a miss. */
    ghost function Reused(path: PageAssetInfo, accepted: set<PageKind>): set<Page>
      reads this, dontDestroyPages
    {
      var i := CacheHit(path, accepted);
      if i >= 0 then {dontDestroyPages[i]} else {}
    }

    /** A hit is the first retained page whose path is `==` to `path`, and of a requested
        kind; a miss means no retained page has the path, or the first one that has it is
        of another kind (`Find(...) as T` is then null). */
    lemma CacheHitIsFirstMatch(path: PageAssetInfo, accepted: set<PageKind>)
      ensures var r := CacheHit(path, accepted);
              && (r >= 0 ==>
                    PageAssetInfo.OpEquals(dontDestroyPages[r].path, path) && dontDestroyPages[r].kind in accepted
                    && forall i :: 0 <= i < r ==> !PageAssetInfo.OpEquals(dontDestroyPages[i].path, path))
              && (r == -1 ==>
                    forall i :: 0 <= i < |dontDestroyPages| && PageAssetInfo.OpEquals(dontDestroyPages[i].path, path)
                                && (forall k :: 0 <= k < i ==> !PageAssetInfo.OpEquals(dontDestroyPages[k].path, path))
                                ==> dontDestroyPages[i].kind !in accepted)
    {
      var paths := Paths(dontDestroyPages);
      assert forall i :: 0 <= i < |paths| ==> paths[i] == dontDestroyPages[i].path;
    }

    /** The `foreach` over the listeners. */
    method NotifyListeners(op: PageOperation, phase: Phase, from: Page?, to: Page?)
      modifies trace
      ensures trace.events == old(trace.events) + NotifyAll(listeners, op, phase, from, to)
    {
      var i := 0;
      while i < |listeners|
        invariant 0 <= i <= |listeners|
        invariant trace.events == old(trace.events) + NotifyAll(listeners[..i], op, phase, from, to)
      {
        assert NotifyAll(listeners[..i + 1], op, phase, from, to)
               == NotifyAll(listeners[..i], op, phase, from, to) + [Notify(listeners[i], op, phase, from, to)];
        trace.Record(Notify(listeners[i], op, phase, from, to));
        i := i + 1;
      }
      assert listeners[..i] == listeners;
    }

    /** Where the page of a push comes from: `hit` is the position of the first retained
        page with the path when it is of an accepted kind (that page is taken out of the
        cache), and -1 otherwise, in which case the page is a fresh instance of the loaded
        prefab's component when there is one of an accepted kind, and null otherwise. */
    twostate predicate Resolution(path: PageAssetInfo, accepted: set<PageKind>, loaded: Option<Prefab>,
                                  new page: Page?, hit: int)
      reads this`dontDestroyPages, page
    {
      && hit == old(CacheHit(path, accepted))
      && (hit >= 0 ==>
            page == old(dontDestroyPages)[hit]
            && dontDestroyPages == RemoveAt(old(dontDestroyPages), hit))
      && (hit < 0 ==> dontDestroyPages == old(dontDestroyPages))
      && (hit < 0 ==> (page != null <==> loaded.Some? && Instantiates(loaded.value, accepted)))
      && (hit < 0 && page != null ==>
            fresh(page) && page.kind == loaded.value.component.value.kind
            && page.transition == loaded.value.component.value.transition
            && page.enableBackdrop == loaded.value.component.value.enableBackdrop
            && page.dontDestroyAfterPop == loaded.value.component.value.dontDestroyAfterPop
            && page.hasRoot == loaded.value.component.value.hasRoot
            && page.active == loaded.value.component.value.active
            && !page.isInTransition)
    }

    /** The first half of `Push<T>`: take the first retained page with the path when it is
        a `T` (deactivated pages leave the cache and run their exit-cache hook), otherwise
        instantiate the loaded prefab; then require a `T` component and a "Root" child.
        `hit` is the reused position or -1; `r` is `Pass` exactly when a usable page results. */
    method Resolve(path: PageAssetInfo, accepted: set<PageKind>, loaded: Option<Prefab>)
      returns (r: Outcome<NavError>, page: Page?, ghost hit: int)
      requires Valid()
      modifies this`dontDestroyPages, trace, Reused(path, accepted)
      ensures Valid()
      ensures Resolution(path, accepted, loaded, page, hit)
      ensures trace.events == old(trace.events) + (if hit >= 0 then [Lifecycle(page, ExitCacheHook)] else [])
      ensures page != null ==>
                (hit >= 0 ==> page.active)
                && page.sortingOrder == (if hit >= 0 then old(dontDestroyPages[hit].sortingOrder) else 0)
                && page.isInTransition == (if hit >= 0 then old(dontDestroyPages[hit].isInTransition) else false)
      ensures r == Fail(PrefabNotFound) <==> hit < 0 && loaded.None?
      ensures r == Fail(ComponentMissing) <==> hit < 0 && loaded.Some? && !Instantiates(loaded.value, accepted)
      ensures r == Fail(RootMissing) <==> page != null && !page.hasRoot
      ensures r == Pass <==> page != null && page.hasRoot
      ensures page != null ==> page.trace == trace && page !in pages && page !in dontDestroyPages
      ensures Orders(pages) == old(Orders(pages))
    {
      ghost var orders := Orders(pages);
      hit := CacheHit(path, accepted);
      var idx := IndexOf(Paths(dontDestroyPages), path);
      if idx >= 0 && dontDestroyPages[idx].kind in accepted {
        page := dontDestroyPages[idx];
        page.ExitCache();
        DistinctSplit(dontDestroyPages, idx);
        dontDestroyPages := RemoveAt(dontDestroyPages, idx);
      } else {
        if loaded.None? {
          return Fail(PrefabNotFound), null, hit;
        }
        page := null;
        if loaded.value.component.Some? {
          var t := loaded.value.component.value;
          var created := new Page(t.kind, t.transition, t.enableBackdrop, t.dontDestroyAfterPop, t.hasRoot, t.active, trace);
          if t.kind in accepted {
            page := created;
          }
        }
      }
      if page == null {
        return Fail(ComponentMissing), null, hit;
      }
      assert Orders(pages) == orders by {
        forall i | 0 <= i < |pages| ensures Orders(pages)[i] == orders[i] {
          assert pages[i] in pages;
        }
      }
      if !page.hasRoot {
        return Fail(RootMissing), page, hit;
      }
      r := Pass;
    }

    /** `Push<T>`: reuse a retained page with this path and a requested type, or
        instantiate the loaded prefab; check the component and its "Root"; configure
        path and sorting order; append; run hooks, notifications, backdrop and
        transition. `accepted` is the set of kinds that are a `T`, `loaded` what
        `Resources.Load` returns for the path. `hit` is the reused position or -1. */
    method Push(path: PageAssetInfo, accepted: set<PageKind>, loaded: Option<Prefab>, animated: bool := true)
      returns (r: Outcome<NavError>, page: Page?, ghost hit: int)
      requires Valid()
      modifies this`pages, this`dontDestroyPages, trace, Reused(path, accepted)
      ensures Valid()
      ensures Resolution(path, accepted, loaded, page, hit)
      // the errors thrown before the stack is touched
      ensures r == Fail(PrefabNotFound) <==> hit < 0 && loaded.None?
      ensures r == Fail(ComponentMissing) <==> hit < 0 && loaded.Some? && !Instantiates(loaded.value, accepted)
      ensures r == Fail(RootMissing) <==> page != null && !page.hasRoot
      ensures page == null || !page.hasRoot ==>
                pages == old(pages)
                && trace.events == old(trace.events) + (if hit >= 0 then [Lifecycle(page, ExitCacheHook)] else [])
      // a page that resolves is appended on top
      ensures page != null && page.hasRoot ==>
                pages == old(pages) + [page]
                && page.path == path
                && (hit >= 0 ==> page.active)
                && page.sortingOrder
                   == (if autoSortingOrder then NextOrder(old(Orders(pages)), baseSortingOrder, sortingOrderStep)
                       else if hit >= 0 then old(dontDestroyPages[hit].sortingOrder)
                       else 0)
                && page.isInTransition == (if hit >= 0 then old(dontDestroyPages[hit].isInTransition) else false)
                && trace.events
                   == AppearOnto(old(trace.events) + (if hit >= 0 then [Lifecycle(page, ExitCacheHook)] else []),
                                 page, Top(old(pages)), animated)
                && (r == Pass <==> !Faults(page, PageOperation.Push, animated))
                && (r != Pass ==> r == Fail(ClipMissing(PageOperation.Push)))
      ensures page != null && page.hasRoot && autoSortingOrder ==>
                Orders(pages) == Apply(old(Orders(pages)), PushPage, baseSortingOrder, sortingOrderStep)
    {
      r, page, hit := Resolve(path, accepted, loaded);
      if r == Pass {
        ghost var resolved := trace.events;
        ghost var transit := page.isInTransition;
        r := Present(page, path, animated);
        assert page.isInTransition == transit;
        assert trace.events == AppearOnto(resolved, page, Top(old(pages)), animated);
      }
    }

    /** The middle of `Push<T>`: set the path and, with auto-ordering, a sorting order one
        step above the current top (or above the base), append the page, then `Appear`. */
    method Present(page: Page, path: PageAssetInfo, animated: bool) returns (r: Outcome<NavError>)
      requires Valid() && page.trace == trace && page !in pages && page !in dontDestroyPages
      modifies this`pages, page`path, page`sortingOrder, trace
      ensures Valid()
      ensures pages == old(pages) + [page]
      ensures page.path == path
      ensures page.sortingOrder
              == if autoSortingOrder then NextOrder(old(Orders(pages)), baseSortingOrder, sortingOrderStep)
                 else old(page.sortingOrder)
      ensures Orders(pages) == old(Orders(pages)) + [page.sortingOrder]
      ensures trace.events == AppearOnto(old(trace.events), page, Top(old(pages)), animated)
      ensures r == Pass <==> !Faults(page, PageOperation.Push, animated)
      ensures r != Pass ==> r == Fail(ClipMissing(PageOperation.Push))
    {
      ghost var stack := pages;
      ghost var orders := Orders(pages);
      var order := if autoSortingOrder then Some(NextOrder(Orders(pages), baseSortingOrder, sortingOrderStep)) else None;
      page.Config(path, order);
      var from := Top(pages);
      pages := pages + [page];
      assert Orders(stack) == orders by {
        forall i | 0 <= i < |stack| ensures Orders(stack)[i] == orders[i] {
          assert stack[i] in stack;
        }
      }
      OrdersAppend(stack, page);
      var faulted := Appear(page, from, animated);
      r := if faulted then Fail(ClipMissing(PageOperation.Push)) else Pass;
    }

    /** The second half of `Push<T>`, on a page already on top of the stack over `from`:
        the `WillAppear` hook, the listeners' `Will`, the backdrop, the enter transition,
        `DidAppear` and the listeners' `Did`. `faulted` is whether the transition threw for
        want of a clip, which ends the push there. */
    method Appear(page: Page, from: Page?, animated: bool) returns (faulted: bool)
      requires page.trace == trace
      modifies trace
      ensures faulted == Faults(page, PageOperation.Push, animated)
      ensures trace.events == AppearOnto(old(trace.events), page, from, animated)
    {
      page.RunHook(WillAppear);
      NotifyListeners(PageOperation.Push, Will, from, page);
      if page.enableBackdrop {
        trace.Record(BackdropEnter(page, animated));
      }
      if animated {
        var clip := SelectClip(page.transition, defaults, PageOperation.Push);
        if clip.None? {
          return true;
        }
        trace.Record(Transition(page, PageOperation.Push, clip.value));
      }
      page.RunHook(DidAppear);
      NotifyListeners(PageOperation.Push, Did, from, page);
      faulted := false;
    }

    /** The private `Pop(page, to)`: notify, run hooks, exit the backdrop, play the exit
        transition, then cache or destroy the page. `faulted` is whether the transition
        threw for want of a clip, which ends this page's finalisation early. */
    method PopPage(page: Page, to: Page?, animated: bool) returns (faulted: bool)
      requires page.trace == trace
      modifies page`active, trace
      ensures faulted == Faults(page, PageOperation.Pop, animated)
      ensures trace.events == DisappearOnto(old(trace.events), page, to, animated)
      ensures page.active == ActiveAfterPop(page, old(page.active), animated)
    {
      NotifyListeners(PageOperation.Pop, Will, page, to);
      page.RunHook(WillDisappear);
      if page.enableBackdrop {
        trace.Record(BackdropExit(page, animated));
      }
      if Faults(page, PageOperation.Pop, animated) {
        return true;
      }
      if animated {
        var clip := SelectClip(page.transition, defaults, PageOperation.Pop);
        trace.Record(Transition(page, PageOperation.Pop, clip.value));
      }
      page.RunHook(DidDisappear);
      NotifyListeners(PageOperation.Pop, Did, page, to);
      if page.dontDestroyAfterPop {
        page.EnterCache();
      } else {
        trace.Record(Destroyed(page));
      }
      faulted := false;
    }

    /** Whether a page is active after its pop: a page that is kept and whose transition
        does not throw enters the cache, which deactivates it. */
    predicate ActiveAfterPop(page: Page, wasActive: bool, animated: bool) {
      if page.dontDestroyAfterPop && !Faults(page, PageOperation.Pop, animated) then false else wasActive
    }

    /** `Pop(count)`: a count above the depth changes nothing; otherwise the top `count`
        pages leave the stack at once and are finalised topmost first towards the new
        top. Retained pages are deactivated but not added to `dontDestroyPages`. */
    method Pop(count: int := 1, animated: bool := true) returns (r: Outcome<NavError>)
      requires Valid()
      modifies this`pages, trace, if 0 <= count <= |pages| then pages[|pages| - count..] else []
      ensures Valid()
      ensures dontDestroyPages == old(dontDestroyPages)
      ensures count > |old(pages)| ==> pages == old(pages) && trace.events == old(trace.events) && r == Pass
      ensures count < 0 ==> pages == old(pages) && trace.events == old(trace.events) && r == Fail(ArgumentOutOfRange)
      ensures count == 0 ==> pages == old(pages) && trace.events == old(trace.events) && r == Pass
      ensures 0 <= count <= |old(pages)| ==>
                pages == old(pages)[..|old(pages)| - count]
                && trace.events
                   == PopOnto(old(trace.events), Reversed(old(pages)[|old(pages)| - count..]), Top(pages), animated)
                && (r == Pass <==> forall p :: p in old(pages)[|old(pages)| - count..] ==> !Faults(p, PageOperation.Pop, animated))
                && (r != Pass ==> r == Fail(ClipMissing(PageOperation.Pop)))
      ensures 0 <= count <= |old(pages)| ==>
                forall p :: p in old(pages)[|old(pages)| - count..] ==>
                  p.active == ActiveAfterPop(p, old(p.active), animated)
                  && p.path == old(p.path) && p.sortingOrder == old(p.sortingOrder)
                  && p.isInTransition == old(p.isInTransition)
      ensures Orders(pages) == Apply(old(Orders(pages)), PopPages(count), baseSortingOrder, sortingOrderStep)
    {
      if count > |pages| {
        return Pass;
      }
      if count < 0 {
        return Fail(ArgumentOutOfRange);
      }
      r := PopTop(count, animated);
    }

    /** The main path of `Pop(count)`, for a count the stack can satisfy: `GetRange` and
        `RemoveRange` of the top `count` pages, the new top, `Reverse`, then the pops. */
    method PopTop(count: nat, animated: bool) returns (r: Outcome<NavError>)
      requires Valid() && count <= |pages|
      modifies this`pages, trace, pages[|pages| - count..]
      ensures Valid()
      ensures pages == old(pages)[..|old(pages)| - count]
      ensures trace.events
              == PopOnto(old(trace.events), Reversed(old(pages)[|old(pages)| - count..]), Top(pages), animated)
      ensures r == Pass <==> forall p :: p in old(pages)[|old(pages)| - count..] ==> !Faults(p, PageOperation.Pop, animated)
      ensures r != Pass ==> r == Fail(ClipMissing(PageOperation.Pop))
      ensures forall p :: p in old(pages)[|old(pages)| - count..] ==>
                p.active == ActiveAfterPop(p, old(p.active), animated)
                && p.path == old(p.path) && p.sortingOrder == old(p.sortingOrder)
                && p.isInTransition == old(p.isInTransition)
      ensures Orders(pages) == old(Orders(pages))[..|old(pages)| - count]
    {
      ghost var orders := Orders(pages);
      var n := |pages|;
      var popped := pages[n - count..];
      assert popped == old(pages)[|old(pages)| - count..];
      DistinctSplit(pages, n - count);
      pages := pages[..n - count];
      var to := Top(pages);
      var order := Reversed(popped);
      ReversedInfo(popped);
      r := PopAll(order, to, animated);
      assert Orders(pages) == orders[..n - count] by {
        forall i | 0 <= i < |pages| ensures Orders(pages)[i] == orders[i] {
          assert pages[i] in pages;
        }
      }
    }

    /** The `WhenAll` over the pages to pop, in `order`: each is popped towards `to`. A page
        whose transition throws stops there; the others still run, and the whole is `Fail`. */
    method PopAll(order: seq<Page>, to: Page?, animated: bool) returns (r: Outcome<NavError>)
      requires Distinct(order)
      requires forall j :: 0 <= j < |order| ==> order[j].trace == trace
      modifies trace, order
      ensures trace.events == PopOnto(old(trace.events), order, to, animated)
      ensures r == Pass <==> forall p :: p in order ==> !Faults(p, PageOperation.Pop, animated)
      ensures r != Pass ==> r == Fail(ClipMissing(PageOperation.Pop))
      ensures forall p :: p in order ==> p.active == ActiveAfterPop(p, old(p.active), animated)
      ensures forall p :: p in order ==>
                p.path == old(p.path) && p.sortingOrder == old(p.sortingOrder) && p.isInTransition == old(p.isInTransition)
    {
      r := Pass;
      var i := 0;
      while i < |order|
        invariant 0 <= i <= |order|
        invariant trace.events == PopOnto(old(trace.events), order[..i], to, animated)
        invariant r == Pass <==> forall j :: 0 <= j < i ==> !Faults(order[j], PageOperation.Pop, animated)
        invariant r != Pass ==> r == Fail(ClipMissing(PageOperation.Pop))
        invariant forall j :: 0 <= j < |order| ==>
                    order[j].active == (if j < i then ActiveAfterPop(order[j], old(order[j].active), animated)
                                        else old(order[j].active))
                    && order[j].path == old(order[j].path) && order[j].sortingOrder == old(order[j].sortingOrder)
                    && order[j].isInTransition == old(order[j].isInTransition)
      {
        var page := order[i];
        assert order[..i + 1][..i] == order[..i] && order[..i + 1][i] == page;
        assert PopOnto(old(trace.events), order[..i + 1], to, animated)
               == DisappearOnto(PopOnto(old(trace.events), order[..i], to, animated), page, to, animated);
        var faulted := PopPage(page, to, animated);
        if faulted {
          r := Fail(ClipMissing(PageOperation.Pop));
        }
        i := i + 1;
      }
      assert order[..i] == order;
    }

    /** The pages above the first one whose path equals `path`; none when there is none. */
    function Above(path: PageAssetInfo?): seq<Page>
      reads this, pages
    {
      var i := IndexOf(Paths(pages), path);
      if i >= 0 then pages[i + 1..] else []
    }

    /** `PopTo(path)`: nothing when no page has the path; otherwise pop every page above
        the first one that has it. `index` is that position, or -1. */
    method PopTo(path: PageAssetInfo?, animated: bool := true) returns (r: Outcome<NavError>, ghost index: int)
      requires Valid()
      modifies this`pages, trace, Above(path)
      ensures Valid()
      ensures index == old(IndexOf(Paths(pages), path))
      ensures index == -1 ==> pages == old(pages) && trace.events == old(trace.events) && r == Pass
      ensures index >= 0 ==>
                pages == old(pages)[..index + 1]
                && Top(pages) == old(pages)[index]
                && trace.events
                   == PopOnto(old(trace.events), Reversed(old(pages)[index + 1..]), old(pages)[index], animated)
                && (r == Pass <==> forall p :: p in old(pages)[index + 1..] ==> !Faults(p, PageOperation.Pop, animated))
                && (r != Pass ==> r == Fail(ClipMissing(PageOperation.Pop)))
      ensures index >= 0 ==>
                forall p :: p in old(pages)[index + 1..] ==>
                  p.active == ActiveAfterPop(p, old(p.active), animated)
                  && p.path == old(p.path) && p.sortingOrder == old(p.sortingOrder)
                  && p.isInTransition == old(p.isInTransition)
      ensures dontDestroyPages == old(dontDestroyPages)
    {
      var idx := IndexOf(Paths(pages), path);
      index := idx;
      if idx == -1 {
        return Pass, index;
      }
      var count := |pages| - idx - 1;
      ghost var before := pages;
      assert |before| - count == idx + 1;
      r := Pop(count, animated);
      assert pages == before[..idx + 1] && Top(pages) == before[idx];
    }

    /** `PopTo<T>(page)`: `PopTo` with the page's path, with everything `PopTo` promises. */
    method PopToPage(page: Page, animated: bool := true) returns (r: Outcome<NavError>, ghost index: int)
      requires Valid()
      modifies this`pages, trace, Above(page.path)
      ensures Valid()
      ensures index == old(IndexOf(Paths(pages), page.path))
      ensures index == -1 ==> pages == old(pages) && trace.events == old(trace.events) && r == Pass
      ensures index >= 0 ==>
                pages == old(pages)[..index + 1]
                && Top(pages) == old(pages)[index]
                && trace.events
                   == PopOnto(old(trace.events), Reversed(old(pages)[index + 1..]), old(pages)[index], animated)
                && (r == Pass <==> forall p :: p in old(pages)[index + 1..] ==> !Faults(p, PageOperation.Pop, animated))
                && (r != Pass ==> r == Fail(ClipMissing(PageOperation.Pop)))
      ensures index >= 0 ==>
                forall p :: p in old(pages)[index + 1..] ==>
                  p.active == ActiveAfterPop(p, old(p.active), animated)
                  && p.path == old(p.path) && p.sortingOrder == old(p.sortingOrder)
                  && p.isInTransition == old(p.isInTransition)
      ensures dontDestroyPages == old(dontDestroyPages)
    {
      r, index := PopTo(page.path, animated);
    }
  }
}
