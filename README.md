# UGUIPageContainer navigation core in Dafny

This project models the page navigation stack of UGUIPageContainer, a Unity UI library.

- A `PageContainer` holds two lists of pages:
  - `m_Pages`, the live stack, with its top last;
  - `m_DontDestroyPages`, the retained pages that a push may reuse.
- `Push<T>` reuses a retained page or instantiates a loaded prefab, then:
  - checks the page component and its "Root" child;
  - configures the path and the sorting order;
  - appends the page;
  - runs the lifecycle hooks, the listener notifications, the backdrop and the enter transition.
- `Pop(count)` removes the top `count` pages at once. It then finalises each of them, topmost first, towards the new top. Finalising a page means notifications, hooks, the backdrop, the exit transition, and then caching or destruction.
- `PopTo(path)` pops every page above the first page with that path. `PopTo<T>(page)` does the same with the page's path.
- Pages are identified by `PageAssetInfo`, a value with an asset key and an optional package. It has its own `==`, `!=` and `Equals`.
- `PageAssetLoader` keeps a table of Addressables handles keyed by asset key.

## Files

- `Wrappers.dfy` holds `Option`, `Outcome` and `Result`.
- `PageAssetInfo.dfy` (module `AssetInfo`) covers page identity, its equality members, `Path`, `ToString` and the hash.
- `Page.dfy` (module `Pages`) holds:
  - the `Page` class;
  - the lifecycle hooks;
  - `Trace`, the shared log of events, which has one total order.
- `PageContainer.dfy` (module `Container`) holds:
  - the container's stack operations;
  - clip selection;
  - the registry lookup `Get`;
  - the specification functions of the trace (`AppearOnto`; `DisappearOnto` with its later steps `HideOnto` and `CloseOnto`; `PopOnto`) and of the sorting orders (`Apply`, `Replay`).
- `PageAssetLoader.dfy` (module `AssetLoader`) holds the handle table.

## How the model is built

- State: the container and its pages are classes whose fields the methods update in place.
- The trace: everything an observer can see is appended to one shared `Trace`. That covers each listener call, each lifecycle hook, each backdrop step, each transition clip played and each page destroyed.
- Each navigation method states its new trace exactly, as a function of the old trace.
- Lemmas state the order of events within one page's pop or push. Another lemma shows that the pages one `Pop` finalises, all towards the same new top, can be split into two groups without changing the trace.
- Sorting orders: the orders on the stack are related, after each push and pop, to a function on sequences of integers (`Apply`).
- `ReplayKeepsIncreasing` proves that the orders stay strictly increasing across any sequence of operations when the step is positive and no push wraps around.
- Sorting orders are C# `int` values: `max + m_SortingOrderStep` wraps around modulo 2^32 (`Wrap32`). `OverflowBreaksIncreasing` shows a push that wraps and so breaks the order.
- Exceptions are `Fail` results of type `NavError`.
- The model follows the code as written:
  - The first auto-ordered page gets the base plus the step.
  - `Push` has no pending-push de-duplication.
  - `Pop` has no `IsInTransition` guard.
  - A popped page with `DontDestroyAfterPop` is deactivated and runs its enter-cache hook, but it is never added to `m_DontDestroyPages`. So that list only ever shrinks, and a popped page is not reused by a later push.
  - A missing transition clip in `Push` throws after the page is appended and after the `Will` notifications, so the page stays on the stack.
  - A newly instantiated page is active exactly when its prefab is, because `Instantiate` copies the flag. A reused page is reactivated by `ExitCache`.
  - A handle stored by `LoadAsync` is the live operation. Once awaited, its status and result are those the load ended with, so a successful load is reused by the next call.
- The source mixes revisions, and the model maps each artefact to the `Page` API that exists:
  - `PageContainer` assigns `page.Path = path` as a string. Here the path is a `PageAssetInfo`, set by `Page.Config`, and looked up with `PageAssetInfo`'s `operator ==`.
  - `PageContainer` assigns `page.SortingOrder`, which `Page` declares get-only. Here the order is set by `Page.Config` too.
  - `PageContainer` calls `PageWillDisAppear` and `PageDidDisAppear`, which `Page` does not define. Here they are `Page`'s `PageWillDisappear` and `PageDidDisappear` hooks, the `WillDisappear` and `DidDisappear` events.

## Model

| member | source | states |
|---|---|---|
| AssetInfo.PageAssetInfo.constructor | Runtime/Scripts/AssetLoader/PageAssetInfo.cs:20-24 | both readonly fields hold the given values |
| AssetInfo.PageAssetInfo.Create | Runtime/Scripts/AssetLoader/PageAssetInfo.cs:20-24 | fails with `ArgumentNull("addressKey")` exactly when the key is null; otherwise yields a new value with that key and the package, which defaults to null |
| AssetInfo.PageAssetInfo.Path | Runtime/Scripts/AssetLoader/PageAssetInfo.cs:17 | `Path` is the asset key |
| AssetInfo.PageAssetInfo.ToString | Runtime/Scripts/AssetLoader/PageAssetInfo.cs:55-58 | the result is the package text (empty when null), then one colon, then the asset key |
| AssetInfo.PageAssetInfo.Equals | Runtime/Scripts/AssetLoader/PageAssetInfo.cs:26-34 | agrees with `operator ==` for every `PageAssetInfo` argument; false for null and for every other type |
| AssetInfo.PageAssetInfo.OpEquals | Runtime/Scripts/AssetLoader/PageAssetInfo.cs:41-46 | true exactly when both are null, or both are non-null with equal key and package; null never equals a value |
| AssetInfo.PageAssetInfo.OpNotEquals | Runtime/Scripts/AssetLoader/PageAssetInfo.cs:48-53 | the negation of `operator ==` on every pair of arguments, nulls included |
| AssetInfo.OpEqualsIsEquivalence | Runtime/Scripts/AssetLoader/PageAssetInfo.cs:41-46 | `operator ==` is reflexive, symmetric and transitive, null included |
| AssetInfo.PageAssetInfo.GetHashCode | Runtime/Scripts/AssetLoader/PageAssetInfo.cs:36-39 | the hash is the combining function applied to the asset key and the package, and to nothing else |
| AssetInfo.EqualValuesHashEqually | Runtime/Scripts/AssetLoader/PageAssetInfo.cs:26-39 | two values that are `Equals` have the same hash code, whatever the combining function |
| AssetInfo.ToStringDeterminesFields | Runtime/Scripts/AssetLoader/PageAssetInfo.cs:55-58 | when neither package text contains a colon, equal `ToString` results imply equal package texts and equal keys |
| Pages.Page.constructor | Runtime/Scripts/Page.cs:20-42 | a new page has its serialized settings and the active flag it was instantiated with, no path, sorting order 0, and `IsInTransition` false |
| Pages.Page.Config | Runtime/Scripts/Page.cs:70-77 | the path is always set; the sorting order is overwritten only when a value is given and is otherwise unchanged |
| Pages.Page.EnterCache | Runtime/Scripts/Page.cs:93-97 | the page becomes inactive and exactly its enter-cache hook is recorded |
| Pages.Page.ExitCache | Runtime/Scripts/Page.cs:99-103 | the page becomes active and exactly its exit-cache hook is recorded |
| Pages.Page.RunHook | Runtime/Scripts/Page.cs:192-222 | a default lifecycle hook changes no field of the page; only its call is recorded |
| Pages.CacheRoundTrip | Runtime/Scripts/Page.cs:93-103 | `EnterCache` then `ExitCache` leaves the page active, with the two hooks recorded in that order |
| Container.PageContainer.constructor | Runtime/Scripts/PageContainer.cs:20-40 | the serialized defaults (name "Default", auto-ordering on, base 10, step 10), with both lists empty |
| Container.Get | Runtime/Scripts/PageContainer.cs:57-60 | the first registered container with the name; null exactly when none has it |
| Container.SelectClip | Runtime/Scripts/PageContainer.cs:226-247 | the page's own clip for the operation when set, else the container's; none, the error case, exactly when both are missing |
| Container.IndexOf | Runtime/Scripts/PageContainer.cs:171 | the first position whose path is `==` to the argument; -1 exactly when there is none |
| Container.ReversedInfo | Runtime/Scripts/PageContainer.cs:164 | reversing keeps the length, the elements and distinctness |
| Container.Wrap32 | Runtime/Scripts/PageContainer.cs:128 | unchecked `int` arithmetic: the result is in the 32-bit range, congruent to the value modulo 2^32, and the value itself when it fits |
| Container.NextOrderIsWrappedSum | Runtime/Scripts/PageContainer.cs:127-128 | the top's order plus the step, or the base plus the step on an empty stack, as a 32-bit sum: in range, congruent to the exact sum, and equal to it when it fits |
| Container.ApplyKeepsIncreasing | Runtime/Scripts/PageContainer.cs:125-129 | with a positive step, one auto-ordered push that does not wrap, or one suffix pop, keeps the orders strictly increasing and above the base |
| Container.ReplayKeepsIncreasing | Runtime/Scripts/PageContainer.cs:125-129 | with a positive step, orders stay strictly increasing bottom to top, and above the base, across any sequence of pushes and pops in which no push wraps around |
| Container.ReplayDepth | Runtime/Scripts/PageContainer.cs:155-160 | the depth after any sequence of operations: one more per push, `count` fewer per pop that fits, unchanged for a pop that does not |
| Container.OverflowBreaksIncreasing | Runtime/Scripts/PageContainer.cs:127-128 | with base 10 and step 1500000000, two pushes give 1500000010 and then -1294967286: the second push wraps, and the orders are not increasing |
| Container.ProgressionFitsBelow | Runtime/Scripts/PageContainer.cs:127-128 | when base + step, …, base + n·step all fit, so does each base + k·step for 1 ≤ k ≤ n |
| Container.PushesFromEmpty | Runtime/Scripts/PageContainer.cs:125-129 | `n` pushes onto an empty stack give the orders base + step, base + 2·step, …, base + n·step, when those sums fit in an `int` |
| Container.PushesOnto | Runtime/Scripts/PageContainer.cs:125-129 | pushes onto a stack of the orders base + step, …, base + k·step continue that progression, as long as it fits in an `int` |
| Container.PageContainer.DisappearOntoExtends | Runtime/Scripts/PageContainer.cs:184-222 | popping a page only appends to the trace; the earlier events are untouched |
| Container.PageContainer.DisappearBegins | Runtime/Scripts/PageContainer.cs:186-191 | a page's pop begins with `Will(Pop, page, to)` for every listener in registration order, then `WillDisappear` |
| Container.PageContainer.HideOntoKeeps | Runtime/Scripts/PageContainer.cs:193-221 | the steps of a pop from the backdrop on only append to the events before them |
| Container.PageContainer.CloseOntoShape | Runtime/Scripts/PageContainer.cs:207-221 | the closing steps of a pop are `DidDisappear`, `Did(Pop, page, to)` for every listener, then exactly one of the enter-cache hook (kept page) or its destruction |
| Container.PageContainer.DisappearStops | Runtime/Scripts/PageContainer.cs:193-205 | when the transition throws for want of a clip the pop stops right after the backdrop step: nothing past it is recorded |
| Container.PageContainer.DisappearEnds | Runtime/Scripts/PageContainer.cs:202-221 | a pop whose transition does not throw ends with `DidDisappear`, then `Did(Pop, page, to)` for every listener, then the enter-cache hook if the page is kept and its destruction otherwise |
| Container.PageContainer.AppearOrder | Runtime/Scripts/PageContainer.cs:134-152 | a push runs `WillAppear`, then `Will(Push, from, page)` for every listener; when the clip is present it ends with `DidAppear` and then `Did(Push, from, page)` for every listener |
| Container.PageContainer.PopOntoSplit | Runtime/Scripts/PageContainer.cs:164-166 | splitting the pages one `Pop` finalises, all towards the same new top, into a first and a second group gives the same trace as finalising them together |
| Container.PageContainer.CacheHit | Runtime/Scripts/PageContainer.cs:77 | the position of the retained page a push reuses, or -1; it is always -1 or a position in the retained list, and `CacheHitIsFirstMatch` says which position |
| Container.PageContainer.CacheHitIsFirstMatch | Runtime/Scripts/PageContainer.cs:77-91 | the position of the first retained page whose path is `==` to the pushed one, when that page is of a requested kind; -1 when there is no such page, or when the first match is of another kind |
| Container.PageContainer.NotifyListeners | Runtime/Scripts/PageContainer.cs:136-139 | records one call per registered listener, in registration order, and nothing else |
| Container.PageContainer.Resolve | Runtime/Scripts/PageContainer.cs:74-101 | on a cache hit, that page leaves the cache and is reactivated, and no other retained page changes; otherwise a new instance of the prefab's component is made, with the prefab's settings and active flag, or none is made; the page keeps its `IsInTransition` when reused and has it false when new; each of the three errors occurs exactly when its condition holds; the stack is untouched |
| Container.PageContainer.Push | Runtime/Scripts/PageContainer.cs:72-153 | on a resolution error the stack is unchanged; otherwise exactly the page is appended on top, with its path and sorting order set (top + step, or base + step on an empty stack, as a 32-bit sum) and its `IsInTransition` untouched (false for a new instance); only the reused retained page, if any, changes; the whole trace is given; the call fails exactly when the enter clip is missing |
| Container.PageContainer.Present | Runtime/Scripts/PageContainer.cs:124-131 | sets the path and the auto sorting order, appends the page, then runs the appear steps |
| Container.PageContainer.Appear | Runtime/Scripts/PageContainer.cs:134-152 | the appear steps, in the order `AppearOnto` gives; it faults exactly when animated and no clip is set |
| Container.PageContainer.PopPage | Runtime/Scripts/PageContainer.cs:184-222 | one page's pop, in the order `DisappearOnto` gives; a kept page whose transition completes becomes inactive |
| Container.PageContainer.Pop | Runtime/Scripts/PageContainer.cs:155-167 | a count above the depth, and a count of 0, change nothing and record nothing; a negative count fails with nothing changed; otherwise the stack becomes its prefix of length depth − count, the removed pages are finalised topmost first towards the new top, and the orders are the prefix of the old orders |
| Container.PageContainer.PopTop | Runtime/Scripts/PageContainer.cs:157-166 | the prefix, trace and fault result for a count the stack can satisfy |
| Container.PageContainer.PopAll | Runtime/Scripts/PageContainer.cs:166 | pops each page in the given order; fails exactly when some page's exit clip is missing; each page's active flag follows `ActiveAfterPop`; its other fields are unchanged |
| Container.PageContainer.PopTo | Runtime/Scripts/PageContainer.cs:169-177 | nothing changes when no page has the path; otherwise the first page with it becomes the top, the depth becomes its index plus one, and the pages above it are popped topmost first; each popped page keeps its path, sorting order and `IsInTransition`, and its active flag is as a single pop leaves it |
| Container.PageContainer.PopToPage | Runtime/Scripts/PageContainer.cs:179-182 | everything `PopTo` promises, for the page's own path: the stack, the new top, the trace, the result, and the fields of the popped pages |
| AssetLoader.Values | Runtime/Scripts/PageAssetLoader.cs:72-75 | the handles stored under the listed keys, one per key, in the same order |
| AssetLoader.EnumerationSize | Runtime/Scripts/PageAssetLoader.cs:72 | an enumeration of the key set visits as many keys as the table holds |
| AssetLoader.Without | Runtime/Scripts/PageAssetLoader.cs:59 | the key is gone; every other entry is kept with its handle |
| AssetLoader.Settled | Runtime/Scripts/PageAssetLoader.cs:31-33 | an awaited handle has finished: it is `Succeeded` exactly when the load succeeded, and its result is the loaded value then and null otherwise |
| AssetLoader.PageAssetLoader.constructor | Runtime/Scripts/PageAssetLoader.cs:12 | the table starts empty and nothing has been released |
| AssetLoader.PageAssetLoader.LoadAsync | Runtime/Scripts/PageAssetLoader.cs:20-48 | a stored handle that has succeeded is reused and the table is unchanged; otherwise a started load stores its handle under the key, replacing any older one, with the status and result it ended with, even when awaiting it throws; the result is the loaded value, null for a failed load, or the fallback resource when starting or awaiting throws |
| AssetLoader.PageAssetLoader.LoadTwice | Runtime/Scripts/PageAssetLoader.cs:23-33 | after a load that succeeds, loading the same key again returns the same result without a new load, whatever the second attempt would do |
| AssetLoader.PageAssetLoader.Release | Runtime/Scripts/PageAssetLoader.cs:54-65 | releases that key's handle and removes exactly that key; an absent key changes nothing |
| AssetLoader.PageAssetLoader.ReleaseAll | Runtime/Scripts/PageAssetLoader.cs:70-78 | releases every stored handle exactly once, in an order over the keys, and leaves the table empty |

## Left out

- Asynchrony: the model has no cancellation or UniTask scheduling. `SuppressCancellationThrow`, `destroyCancellationToken` and the `UniTask.Delay` of the clip's length are not modelled.
- `UniTask.WhenAll` in `Pop` is modelled as a sequential loop over the pages, topmost first. With `animated` the real pops interleave at the transition's await. The model keeps the order of steps within each page, but not the interleaving across pages.
- Transitions are recorded as one `Transition` event each. The model leaves out Animator setup, `AnimatorOverrideController` and `FixClip`, which is an identity anyway.
- The backdrop prefab of `Push` (an `OverrideBackdrop` or the `PageBackdrop` resource) is taken to load and instantiate without failing. A missing `PageBackdrop` resource, which would throw before the page is appended, is not modelled.
- Engine calls are not modelled beyond the page prefab's `Instantiate` (the copied settings and active flag): `FillParent`, `transform.Find`, the removal of "(Clone)" from names, and `Destroy`. Destruction is one `Destroyed` event; the presence of "Root" is a page setting.
- `Load`, `UpdateCanvasCamera` and the `CheckCanvas`, `CheckRoot`, `CheckCamera` and `CheckSortingOrder` methods of `Page` are scene-graph work and are not modelled.
- The backdrop is recorded only as `BackdropEnter` and `BackdropExit` events. PageBackdrop.cs is not part of this model: it fades with floats and coroutines.
- The setters of `DontDestroyAfterPop`, `EnableBackdrop` and `OverrideBackdrop` are not modelled. These settings are fixed per page.
- Container.PageContainer.Push: the `onload` callback is not modelled, because it is a caller-supplied delegate.
- `Debug.Log*` calls in the loader are not modelled.
- `Awake` is not modelled, and neither is the lifecycle of the static `Instances` list. The default clips are a constructor argument. `Get(name)` takes the registry as a sequence, and `Get(Transform)` is a scene-graph query.
- Addressables and `Resources.Load` are parameters:
  - a `LoadAttempt` says whether `LoadAssetAsync` throws and, if not, which handle it returns and what awaiting it gives;
  - `Resources.Load` gives an optional asset or prefab.
- AssetLoader.PageAssetLoader.LoadAsync: the `(T)` cast of a stored result is not modelled. Assets are untyped identities.
- AssetLoader.Settled: a load whose task throws when awaited is taken to leave its handle `Failed` with no result. The Addressables operation's own status is outside this model.
- Only the sum `max + m_SortingOrderStep` is modelled with 32-bit wrap-around. The base, the step and the configured orders are integers assumed to be in range.
- `HashCode.Combine` is a function parameter of `GetHashCode`.
- The generic `T` of `Push<T>` is the set of page kinds that are a `T`. The untyped `Push(path)` overload is `Push<Page>` and is not modelled separately.

