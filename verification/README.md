# Tauri: event loop, resources, code generation and small protocols

A Dafny model of the parts of Tauri where several operations have to agree with one another, with
proofs of what every run, every input or every interleaving keeps.

| module | models |
|---|---|
| `Wrappers` | the option type |
| `WindowStore`, `Handlers` | the windows store of the wry runtime and the handlers that update it in place; close and exit votes; the plugin store |
| `Runtime`, `Ownership`, `Runs`, `Lifecycle` | the wry runtime as a transition system over any number of threads: creation, the two halves of `reparent`, the proxy queue, native events, votes, control flow; its inductive invariant; theorems over whole runs |
| `Effects` | what each step does to the store, the cells and the queue, completely, and what follows over runs |
| `Waits`, `Instances` | how long a worker's reparent waits and what that does to user code; concrete runs |
| `Reentrancy`, `PoliteCode`, `Closures`, `Listeners` | an interpreter for the event loop and the message handler in which user code is an arbitrary finite tree of dispatcher calls and every lock and borrow is explicit |
| `Layout` | auto-resizing webviews: cached rates against real bounds |
| `WebContexts` | web-context keys, wrapper clones and drops |
| `Paths`, `Resources`, `ResourceTargets` | `ResourcePathsIter` with its mutually recursive methods, against a flat specification; where resources are bundled to |
| `JsonTokens` | `json_value_lit` as a compiler, with a block-scoped semantics for the code it generates |
| `AssetCache` | the content-addressed asset cache across builds, what is served and which hashes are allowed |
| `Text`, `Csp` | printing and parsing of CSP directive maps; the inline and the list form of a source list |
| `Z85` | the encoder, against the decoder of ZeroMQ RFC 32 |
| `ReadLine` | `read_line` over a reader that hands out chunks, interrupts and errors |
| `DevKill` | the kill protocol of the `beforeDevCommand` process |

Code that changes state in place is modelled by classes (`Handlers.EventLoop`,
`Handlers.PluginStore`, `Layout.WindowLayout`, `WebContexts.ContextStore`,
`Resources.ResourcePathsIter`, `AssetCache.Build`, `Csp.DirectiveSources`, `ReadLine.Reader`,
`DevKill.Process`) whose methods are proved against functions of the old state. The transition
systems are built from the same functions, so what is proved about runs is about what the methods do.

Native calls, thread scheduling, file systems and user code are parameters: labels of a step, fields
of a world, trees of calls. Nothing is assumed about them beyond what a `requires` clause says.

## Where the code and its promises differ

Each of these is proved as an exact condition, with a reachable instance where one is needed.

- A webview built together with its window gets two unrelated cells (lib.rs:318 and 3837 of
  `tauri-runtime-wry`). After a move through one of them the other names the holding window exactly if
  that is the target of the move, and a move through a cell that does not name the holder is answered
  `Failed` and changes nothing (`Runs.TruthfulIff`, `Runs.OtherCellStale`, `Runs.StaleMoveFails`,
  `Instances.TwoCellsDisagree`).
- A reparent that finds its webview but does not end in `Ok` destroys the webview for good, and if
  the target window is missing or closed also panics its caller while the cell mutex is held
  (`WindowStore.ReparentConserves`, `Runs.FailedMoveDestroys`, `Runs.PoisonedIsGone`,
  `Instances.ReparentPoisons`).
- A worker waits for its reparent exactly until the loop handles its move. While a request is open the
  loop handles nothing, so a listener or callback that asks for the same webview then waits for a lock
  that only its own return could free (`Waits.WaitsForTurn`, `Waits.CallbackNeverGets`,
  `Instances.CallbackBlocked`).
- `with_webview` keeps the cell guard alive while the closure runs: on the main thread it blocks for
  ever exactly if some call, at any depth of nested closures, is made on a webview whose closure
  encloses it (`Closures.WithWebviewBlocksIff`, `Closures.ClosureBlocksIff`,
  `Closures.NestedCallBlocks`).
- A directory-only glob yields nothing unless nothing at all follows it; then one
  `GlobPathNotFound` appears, although a comment in the tests says it should yield no values
  (`Resources.FlatIsSimplePlusQuirk`, `Resources.TrailingGlobErrs`).
- A map pattern with a path prefix or a leading `.` can put walked files outside the resource
  directory (`ResourceTargets.WalkTargetContainedIff`, `ResourceTargets.DotPatternEscapes`).
- A negative integer is emitted as `-5i64.into()`. Where the token stream splits the literal into a
  minus and a number, the minus applies to a conversion whose type nothing determines; the model
  rejects that code, and with it exactly the values that hold a negative integer
  (`JsonTokens.RoundTrip`).
- A compressed asset whose write is cut short stays in the build directory and is served by later
  builds (`AssetCache.Build.StoppedSoundIff`, `AssetCache.Build.BuildAfterCut`).
- The empty directive map prints as the empty text, which parses to a map with one nameless
  directive; of repeated directives the parser keeps the last, section 2.2.1 of Content Security
  Policy Level 3 the first; the inline `contains` is a substring test (`Csp.PrintParseIff`,
  `Csp.LastDirectiveWins`, `Csp.InlineContainsIff`).
- `read_line` promises to stop at a newline or a carriage return; with a carriage return before the
  first newline, where it stops depends on the chunks (`ReadLine.ChunksDoNotMatterIff`).
- With automation on, every wrapper removes the unnamed web context: a live webview without data
  directory keeps its context exactly if no last handle was dropped since an unnamed context was last
  created (`WebContexts.AutomationStoredIff`, `WebContexts.AutomationLosesContext`).
- The `beforeDevCommand` watcher starts before the flag it reads is published, and panics if the
  command fails in between (`DevKill.VerdictIff`, `DevKill.WatcherFalls`).

## Model

| member | source | states |
|---|---|---|
| `WindowStore.Position` | core/tauri-runtime-wry/Source/lib.rs:2963-2968 | the index the handlers search for is the first occurrence of the webview |
| `WindowStore.ReparentConserves` | core/tauri-runtime-wry/Source/lib.rs:2962-3019 | an `Ok` reparent, also onto the same window, keeps the multiset of all webviews of all windows and makes the webview the newest of the target; a reparent that found its webview and was not answered `Ok` loses exactly that webview; one that did not find it changes nothing; `Ok` comes exactly if it was found, the target is open and the platform call succeeds, and the reply is dropped exactly if it was found and the target is not open |
| `WindowStore.ReparentUnique` | core/tauri-runtime-wry/Source/lib.rs:2962-3019 | where every webview is after a reparent: only the moved one changes place, and only onto the target; no webview comes to sit in two windows or twice in one; no window opens, closes, appears or vanishes |
| `WindowStore.CloseWebviewUnique` | core/tauri-runtime-wry/Source/lib.rs:3057-3067 | closing takes exactly that webview out of exactly that window, if the window is open, and leaves every other listing, window and handle |
| `WindowStore.AllWebviewsSplit` | core/tauri-runtime-wry/Source/lib.rs:2009-2023 | the multiset of all webviews does not depend on the order in which windows are visited |
| `Handlers.FindWebview` | core/tauri-runtime-wry/Source/lib.rs:2963-2968 | the search finds the first position, and nothing exactly if the webview is not listed |
| `Handlers.CollectVotes` | core/tauri-runtime-wry/Source/lib.rs:3630-3658 | the channel holds a message exactly if some voter sent one |
| `Handlers.EventLoop.HandleEvent` | core/tauri-runtime-wry/Source/lib.rs:3368-3623 | after any event the loop is at `Exit` exactly if it was before or the event made an exit request nobody opposed; the store and the exit requests emitted are those of the event |
| `Handlers.EventLoop.HandleEvents` | core/tauri-runtime-wry/Source/lib.rs:2544-2593 | over any sequence of events the loop ends at `Exit` exactly if some event, in the store the earlier ones left, asked for it unopposed |
| `Handlers.EventLoop.HandleCreateWindow` | core/tauri-runtime-wry/Source/lib.rs:3304-3313 | a built window enters the store open with its webviews; a failed build changes nothing |
| `Handlers.EventLoop.HandleCreateWebview` | core/tauri-runtime-wry/Source/lib.rs:3284-3303 | a built webview is appended to an open window; missing and handle-less windows get none |
| `Handlers.EventLoop.Detach` | core/tauri-runtime-wry/Source/lib.rs:2963-2968 | the first occurrence is removed, exactly if the window lists the webview |
| `Handlers.EventLoop.HandleReparent` | core/tauri-runtime-wry/Source/lib.rs:2962-3019 | the in-place handler computes the store and the reply of the specification that conservation and uniqueness are proved about, with all four outcomes |
| `Handlers.EventLoop.HandleCloseWebview` | core/tauri-runtime-wry/Source/lib.rs:3057-3067 | the webview leaves its window, if that window is open and lists it |
| `Handlers.EventLoop.OnWindowClose` | core/tauri-runtime-wry/Source/lib.rs:3661-3667 | the window keeps its entry and its webviews and loses its handle |
| `Handlers.EventLoop.OnCloseRequested` | core/tauri-runtime-wry/Source/lib.rs:3625-3659 | a close request costs the window its handle exactly if no listener and no callback called `prevent_close` |
| `Handlers.EventLoop.AskExit` | core/tauri-runtime-wry/Source/lib.rs:3586-3598 | an exit request is emitted with its code and ends the loop exactly if no plugin and no callback called `prevent_exit` |
| `Handlers.EventLoop.OnDestroyed` | core/tauri-runtime-wry/Source/lib.rs:3529-3550 | a native `Destroyed` removes the entry; an exit without code is asked for exactly if this event took the store from non-empty to empty, so stale and repeated events add none |
| `Handlers.Others` | core/tauri/Source/plugin.rs:799-822 | `retain` keeps exactly the plugins of other names and shrinks the list exactly if one had the name |
| `Handlers.OthersDistinct` | core/tauri/Source/plugin.rs:799-822 | removing a plugin keeps names distinct |
| `Handlers.OthersInOrder` | core/tauri/Source/plugin.rs:799-822 | the plugins `retain` keeps stay in the order they were in |
| `Handlers.PluginStore.Register` | core/tauri/Source/plugin.rs:799-811 | registering replaces the plugin of the same name, says so, and keeps names distinct: no name votes twice |
| `Handlers.PluginStore.Unregister` | core/tauri/Source/plugin.rs:813-822 | exactly the plugins of other names remain, and the result says whether one was removed |
| `Handlers.PluginStore.Votes` | core/tauri/Source/plugin.rs:885-895 | every plugin sees the event in store order, and a veto arrives exactly if some plugin prevents |
| `Ownership.PendingSource` | core/tauri-runtime-wry/Source/lib.rs:282-364 | every creation that is queued or held by a thread was already there one step earlier, or carries the id just issued |
| `Ownership.SourceInjective` | core/tauri-runtime-wry/Source/lib.rs:219-237 | a creation under way is never duplicated by a step |
| `Ownership.HandledIsGone` | core/tauri-runtime-wry/Source/lib.rs:3284-3313 | a creation that was handled leaves no copy under way |
| `Ownership.StoreStep` | core/tauri-runtime-wry/Source/lib.rs:2609-3366 | after any step of any thread every listing was there before, was just created, or was just moved there by an `Ok` reparent, and no webview is listed twice |
| `Ownership.NewCell` | core/tauri-runtime-wry/Source/lib.rs:314-364 | cells never disappear, and a cell that appears belongs to the creation being sent or handled |
| `Ownership.DistinctStep` | core/tauri-runtime-wry/Source/lib.rs:264-278 | every step keeps window and webview ids pairwise distinct in the store and in creations under way |
| `Ownership.HoldingStep` | core/tauri-runtime-wry/Source/lib.rs:1482-1501 | every step keeps the threads inside a reparent and the holders of the cell mutexes the same |
| `Ownership.InFlightStep` | core/tauri-runtime-wry/Source/lib.rs:1482-1501 | every step keeps each queued move tied to a thread that waits for it under a cell it holds, whose window is the one in the message; no thread has two |
| `Ownership.AgreesKept` | core/tauri-runtime-wry/Source/lib.rs:1482-1501 | every step keeps the window that lists a `create_webview` webview equal to the one its cell names, or to the target of the answered move not yet written back |
| `Ownership.Step` | core/tauri-runtime-wry/Source/lib.rs:2609-3366 | the whole invariant (ids, locks, queue, cells, agreement) is kept by every step as long as no counter has wrapped |
| `Effects.StoreExactly` | core/tauri-runtime-wry/Source/lib.rs:2609-3366 | after any step the windows in the store, the open ones among them and every listing are exactly those that follow from what was there and what the step builds, closes, removes, takes and puts: built windows are open with their webview, webviews come only into open windows, closes and moves take exactly one listing |
| `Effects.ClosedViewIsGone` | core/tauri-runtime-wry/Source/lib.rs:3057-3067 | a handled close of a webview that the named, open window lists leaves it in no window for the rest of the run |
| `Effects.OtherCloseIsIdle` | core/tauri-runtime-wry/Source/lib.rs:3021-3067 | a close in a closed or missing window, or of a webview not listed there, changes nothing |
| `Effects.DestroyClosesForGood` | core/tauri-runtime-wry/Source/lib.rs:3602-3604 | a destroy message costs a listed window its handle at once and for the rest of the run, without any vote |
| `Effects.CellsExactly` | core/tauri-runtime-wry/Source/lib.rs:310-364 | the cells after a step and the windows they name are exactly those that follow from what it hands out and from the return of an `Ok` move |
| `Effects.QueueConserves` | core/tauri-runtime-wry/Source/lib.rs:219-237 | in every run the queue holds exactly what was sent and not yet taken, in the order sent; nothing is lost, doubled or overtaken |
| `Effects.RequestOpensIff` | core/tauri-runtime-wry/Source/lib.rs:3526-3550 | exactly which step opens a close request for which listed window, an exit request with which code, and one without (the last window is removed) |
| `Runs.RunInv` | core/tauri-runtime-wry/Source/lib.rs:2609-3366 | the invariant holds in every state of every run with fewer than 2^32 creations of each kind |
| `Runs.IdsDistinct` | core/tauri-runtime-wry/Source/lib.rs:264-278 | throughout every such run all ids are distinct and each webview sits in at most one window, at most once |
| `Runs.AtMostOnce` | core/tauri-runtime-wry/Source/lib.rs:2009-2023 | a webview occurs in the multiset of all webviews once exactly if some window lists it, else not at all |
| `Runs.CellNamesHolder` | core/tauri-runtime-wry/Source/lib.rs:328-364 | in every interleaving, whenever the cell of a `create_webview` webview is not locked, any window that holds the webview is the one the cell names |
| `Runs.CellChange` | core/tauri-runtime-wry/Source/lib.rs:1482-1501 | a cell is rewritten only by the caller of a move that was answered `Ok`, and to the target of that move; every other step, failed moves included, leaves it |
| `Runs.ReplyHasCause` | core/tauri-runtime-wry/Source/lib.rs:2962-3019 | an `Ok` reply seen by a thread was sent by an earlier step that did move that webview to that target |
| `Runs.CellChangeHasMove` | core/tauri-runtime-wry/Source/lib.rs:1496-1498 | every rewrite of a cell follows an earlier step of the main thread after which the target did hold the webview |
| `Runs.GoneForever` | core/tauri-runtime-wry/Source/lib.rs:2952-3067 | a webview in no window and in no pending creation never comes back |
| `Runs.FailedMoveDestroys` | core/tauri-runtime-wry/Source/lib.rs:2970-3013 | after a move that found its webview and was not answered `Ok` the webview is in no window for the rest of the run |
| `Runs.DroppedIsGone` | core/tauri-runtime-wry/Source/lib.rs:2970-3013 | in every run, a caller whose reply sender was dropped has lost its webview for good |
| `Runs.PoisonedIsGone` | core/tauri-runtime-wry/Source/lib.rs:1482-1501 | in every run, a cell poisoned by the panic of such a caller never stands before a webview that still exists |
| `Runs.TruthfulIff` | core/tauri-runtime-wry/Source/lib.rs:2962-3019 | after the `Ok` of a move made by any thread through any cell, each cell of that webview is as before and names the holding window exactly if it names the target |
| `Runs.StaleMoveFails` | core/tauri-runtime-wry/Source/lib.rs:2963-3016 | a move that names a window not holding the webview, as one through a stale cell does, is answered `Failed` and changes neither store nor cells, from any thread |
| `Runs.OtherCellStale` | core/tauri-runtime-wry/Source/lib.rs:314-323 | after a whole move through one cell of a webview, another cell of it names the holding window exactly if that is the target; through a cell that does not name the holder nothing changes |
| `Instances.TwoCellsDisagree` | core/tauri-runtime-wry/Source/lib.rs:3828-3842 | a run of five steps reaches a state from which one move makes the two cells disagree |
| `Instances.ReparentPoisons` | core/tauri-runtime-wry/Source/lib.rs:2970-3013 | a run with a reparent onto an id never issued: the caller panics, the cell is poisoned, the webview is gone |
| `Instances.CallbackBlocked` | core/tauri-runtime-wry/Source/lib.rs:1482-1496 | a run in which a worker waits for its move, a close request is open on the main thread, and neither can the callback lock the webview's cell nor the loop take a message |
| `Waits.QueueStep` | core/tauri-runtime-wry/Source/lib.rs:219-237 | the queue is served from the front and only grows otherwise |
| `Waits.NoMoveLost` | core/tauri-runtime-wry/Source/lib.rs:1482-1496 | in every run a thread waits for its reparent exactly as long as its move is in the queue |
| `Waits.WaitStepIff` | core/tauri-runtime-wry/Source/lib.rs:1482-1501 | a step ends a worker's wait, with the cell locked, exactly if it handles that move |
| `Waits.WaitsIff` | core/tauri-runtime-wry/Source/lib.rs:1482-1501 | over a run the wait lasts exactly as long as no step handles that move |
| `Waits.WaitsForTurn` | core/tauri-runtime-wry/Source/lib.rs:1482-1501 | a worker whose move has `p` messages before it waits exactly until the loop has taken more than `p` from the queue, and meanwhile moves up with each |
| `Waits.CallbackNeverGets` | core/tauri-runtime-wry/Source/lib.rs:3625-3659 | while a close or exit request is open nothing is taken from the queue, so its listeners and callback get the cell of such a webview at no point before they return |
| `Lifecycle.WindowStep` | core/tauri-runtime-wry/Source/lib.rs:2636-2646 | in one step a listed window never gets its handle back, a handle-less window lists no new webview, and an entry leaves only on its own native `Destroyed` |
| `Lifecycle.StagesNeverGoBack` | core/tauri-runtime-wry/Source/lib.rs:3625-3667 | over every run each window goes pending, open, handle-less, removed and never backwards |
| `Lifecycle.HandleNeverReturns` | core/tauri-runtime-wry/Source/lib.rs:2636-2646 | once a window has lost its handle, the guard of every setter and every webview creation fails for it for the rest of the run, and it lists no webview it did not list then |
| `Lifecycle.PendingRequest` | core/tauri-runtime-wry/Source/lib.rs:3625-3659 | while a close or exit request is open, whatever threads and user code do, it only counts its votes and the control flow stays |
| `Lifecycle.ClosingListed` | core/tauri-runtime-wry/Source/lib.rs:3630-3635 | a window whose close request is open is still in the store |
| `Lifecycle.CloseDecidedByVotes` | core/tauri-runtime-wry/Source/lib.rs:3625-3667 | a close request opened at one step of a run and decided at another costs the window its handle exactly if no vote was cast in between |
| `Lifecycle.RequestOpened` | core/tauri-runtime-wry/Source/lib.rs:3586-3602 | an open request was opened by one step, and its vote count is the number of votes since |
| `Lifecycle.ExitIsFinal` | core/tauri-runtime-wry/Source/lib.rs:3382-3384 | once `Exit`, the control flow never leaves it |
| `Lifecycle.ExitNeedsUnvetoedRequest` | core/tauri/Source/app.rs:100-105 | whenever the control flow is `Exit`, some earlier exit request was decided with no vote by any plugin or callback |
| `Lifecycle.UnvetoedRequestExits` | core/tauri-runtime-wry/Source/lib.rs:3586-3598 | conversely every exit request decided without a vote sets `Exit` |
| `Lifecycle.EmptiesStep` | core/tauri-runtime-wry/Source/lib.rs:3529-3550 | a step asks for an exit without code exactly if it takes the store from non-empty to empty |
| `Lifecycle.ExitAccounting` | core/tauri-runtime-wry/Source/lib.rs:3529-3550 | over every run the exit requests without code are as many as the times the store ran empty, at the same steps |
| `Reentrancy.OnlyCellsRelock` | core/tauri-runtime-wry/Source/lib.rs:3368-3623 | for every sequence of events and whatever user code does, no run ends in a borrow conflict, in user code under a store borrow, in a re-entered callback, in a listener mutex taken twice or in a handler panic, and every event leaves all locks free; only a cell taken twice or a dropped reply can stop it |
| `PoliteCode.PoliteNeverBlocks` | core/tauri-runtime-wry/Source/lib.rs:1348-1357 | if no `with_webview` closure, at any depth, calls a webview it runs under, no sequence of events blocks |
| `Closures.RunFollowsDry` | core/tauri-runtime-wry/Source/lib.rs:219-237 | for all code on any machine: blocked on which cell, panicked on which reply, or finished with which store and cells, the run with every borrow, mutex, queue and listener table ends as a dry run that has none of them |
| `Closures.WithWebviewBlocksIff` | core/tauri-runtime-wry/Source/lib.rs:1348-1357 | for every closure: `with_webview` blocks for ever exactly if the webview is live and the dry run of its closure comes to a call on a webview whose closure encloses that call; it panics exactly if the dry run loses a reply first; else it finishes |
| `Listeners.AnnounceFollows` | core/tauri-runtime-wry/Source/lib.rs:3425-3507 | an announced event runs the callback and then every listener of the table, in order, and ends as the dry run of that code says |
| `Listeners.CloseFollows` | core/tauri-runtime-wry/Source/lib.rs:3625-3659 | a close request runs every listener of the window and then the callback, and only then, unless prevented, gives up the handle; for an unknown window it does nothing |
| `Listeners.RegistrationLands` | core/tauri-runtime-wry/Source/lib.rs:2647-2650 | a handled registration puts the listener last in the table of an open window and changes nothing else; for any other window it changes nothing |
| `Listeners.RegisteredRuns` | core/tauri-runtime-wry/Source/lib.rs:1581-1590 | a listener registered on an open window runs, after all earlier ones, on the next event announced there |
| `Listeners.NativeFollows` | core/tauri-runtime-wry/Source/lib.rs:3508-3579 | every native event is announced to a listed window and then plays its own part: a close request its listeners and callback, a `Destroyed` the removal and, if the store runs empty, the callback; with exactly the store, cells and messages that follow |
| `Listeners.QueuedFollows` | core/tauri-runtime-wry/Source/lib.rs:3425-3614 | so does every queued webview event, synthesized event, close, destroy, exit request and user event |
| `Closures.RelockNeedsClash` | core/tauri-runtime-wry/Source/lib.rs:1348-1357 | for all code on any machine, a cell is taken twice only if some call that runs at once, at any depth, is made on a webview whose closure encloses it |
| `Closures.DryMeetsClash` | core/tauri-runtime-wry/Source/lib.rs:1348-1357 | where the code keeps the webviews it opens closures on, live or dead, the dry run blocks on the first such call in program order and goes through if there is none, unless it loses a reply first |
| `Closures.ClosureBlocksIff` | core/tauri-runtime-wry/Source/lib.rs:1348-1357 | for such code whether `with_webview` on a live webview blocks, and on which webview, is read off the code alone |
| `Closures.NestedCallBlocks` | core/tauri-runtime-wry/Source/lib.rs:1348-1357 | a closure that calls its own webview from inside the closure of another one blocks |
| `Closures.PoliteHasNoClash` | core/tauri-runtime-wry/Source/lib.rs:1348-1357 | code that avoids the webviews it runs under has no such call |
| `Layout.RatesScaleBack` | core/tauri-runtime-wry/Source/lib.rs:3996-4020 | rates taken in a window and scaled to the same window give the rectangle back |
| `Layout.StepSettled` | core/tauri-runtime-wry/Source/lib.rs:3068-3148 | every placement, toggle, native resize and handled `Resized` keeps bounds equal to rates times window size once the loop has caught up |
| `Layout.RunSettled` | core/tauri-runtime-wry/Source/lib.rs:3551-3579 | so does any mix of them |
| `Layout.LastPlacementDecides` | core/tauri-runtime-wry/Source/lib.rs:3551-3579 | after any resizes the bounds depend only on the last placement and the last window size |
| `Layout.BoundsDecide` | core/tauri-runtime-wry/Source/lib.rs:3551-3579 | from any caught-up state, however reached (sizes, positions, toggles), resizes stretch the bounds of that moment to the last window size, so no other part of the history matters |
| `Layout.StretchIsProportional` | core/tauri-runtime-wry/Source/lib.rs:3551-3579 | stretched position and size are to the new window as the old ones were to the old window, along each axis |
| `Layout.StepMeans` | core/tauri-runtime-wry/Source/lib.rs:3068-3148 | what one operation does: the toggle decides whether there are rates and leaves the bounds, an applied placement sets exactly its part of the bounds with or without rates, a resize leaves a webview without rates alone |
| `Layout.SwitchDecides` | core/tauri-runtime-wry/Source/lib.rs:3201-3227 | over every run a webview has rates exactly if the last toggle, or its start, says so |
| `Layout.FixedStays` | core/tauri-runtime-wry/Source/lib.rs:3201-3227 | a webview never switched on stays exactly where the last applied placements put it, whatever the window does |
| `Layout.SwitchedOffStays` | core/tauri-runtime-wry/Source/lib.rs:3201-3227 | switched off, it keeps the bounds of that moment until it is placed again |
| `Layout.SwitchedOnFollows` | core/tauri-runtime-wry/Source/lib.rs:3201-3227 | switched on, it stretches with every resize from the bounds of that moment |
| `Layout.ResizeRoundTrip` | core/tauri-runtime-wry/Source/lib.rs:3551-3579 | resizing away and back restores the placement exactly |
| `Layout.FailedPlacementAgreesIff` | core/tauri-runtime-wry/Source/lib.rs:3068-3094 | a `SetBounds` whose native call fails keeps agreement exactly if it asked for the bounds already there |
| `Layout.FailedSizeAgreesIff` | core/tauri-runtime-wry/Source/lib.rs:3095-3121 | a `SetSize` whose native call fails keeps agreement exactly if it asked for the size already there |
| `Layout.FailedPositionAgreesIff` | core/tauri-runtime-wry/Source/lib.rs:3122-3148 | a `SetPosition` whose native call fails keeps agreement exactly if it asked for the position already there |
| `Layout.MovedAgreesIff` | core/tauri-runtime-wry/Source/lib.rs:2970-3013 | a webview moved to a window of another size agrees exactly along the axes it does not stretch in |
| `Layout.WindowLayout.AddView` | core/tauri-runtime-wry/Source/lib.rs:3996-4030 | a new webview joins with agreeing rates, with whole-window ones (unstable build, no bounds) or with none (stable build, no bounds), and no other is touched |
| `Layout.WindowLayout.OnResized` | core/tauri-runtime-wry/Source/lib.rs:3551-3579 | every webview with rates, and no other, gets the scaled bounds; all agree once caught up |
| `Layout.WindowLayout.Place` | core/tauri-runtime-wry/Source/lib.rs:3201-3227 | one webview takes the placement or the toggle, the others stay, agreement is kept |
| `WebContexts.DecimalValue` | core/tauri-runtime-wry/Source/lib.rs:4121-4136 | the decimal text of a number determines it |
| `WebContexts.FreshKeysDiffer` | core/tauri-runtime-wry/Source/lib.rs:4121-4136 | two fresh keys are equal exactly if their numbers agree modulo 2^32 |
| `WebContexts.DropRemovesOwnKey` | core/tauri-runtime-wry/Source/lib.rs:2001-2007 | dropping the last clone removes exactly the key of that webview and leaves every other live webview its context; dropping another clone removes nothing |
| `WebContexts.RunOwned` | core/tauri-runtime-wry/Source/lib.rs:4121-4153 | ownership of keys is kept by every run of creations, clones and drops |
| `WebContexts.ContextsOwned` | core/tauri-runtime-wry/Source/lib.rs:4121-4184 | with automation off, after every run each live webview's context is stored, no two share a key, and every other key comes from a failed build |
| `WebContexts.LivesAsLongAsHandles` | core/tauri-runtime-wry/Source/lib.rs:1982-2007 | over every run, with automation off, a webview whose build succeeded is live and its key stored exactly as long as its drops since are fewer than one plus its clones, both counted in the run |
| `WebContexts.UnnamedStoredIff` | core/tauri-runtime-wry/Source/lib.rs:4121-4153 | with automation on, after every run the unnamed context is stored exactly if no last handle was dropped since one was last created |
| `WebContexts.AutomationStoredIff` | core/tauri-runtime-wry/Source/lib.rs:4121-4153 | with automation on, after every run a live webview's context is stored exactly if it has a data directory or no last handle was dropped since an unnamed context was last created |
| `WebContexts.AutomationLosesContext` | core/tauri-runtime-wry/Source/lib.rs:4128-4136 | two creations and one drop lose the context of a live webview |
| `WebContexts.ContextStore.CreateWebview` | core/tauri-runtime-wry/Source/lib.rs:4121-4153 | a creation uses a key not in the store and keeps ownership, also if the build fails |
| `WebContexts.ContextStore.CloneHandle` | core/tauri-runtime-wry/Source/lib.rs:1982-1992 | a clone adds a handle and keeps ownership |
| `WebContexts.ContextStore.DropHandle` | core/tauri-runtime-wry/Source/lib.rs:2001-2007 | a drop removes a handle, with the last one the key, and keeps ownership |
| `Paths.RelPath` | core/tauri-utils/Source/resources.rs:15-29 | a relative target has ordinary components only: no root, prefix, `.` or `..` |
| `Paths.RelPathAt` | core/tauri-utils/Source/resources.rs:15-29 | component by component: the root becomes `_root_`, `..` becomes `_up_`, names stay |
| `Paths.ResourceRelpath` | core/tauri-utils/Source/resources.rs:15-29 | the loop computes the relative target component by component |
| `Paths.UnrelInvertsIff` | core/tauri-utils/Source/resources.rs:15-29 | the source path can be read back from the target exactly if it has no prefix, no `.` and no component literally named `_up_` or `_root_` |
| `Paths.RelPathInjective` | core/tauri-utils/Source/resources.rs:15-29 | distinct such paths get distinct targets |
| `Paths.NormalizePath` | core/tauri-utils/Source/resources.rs:31-45 | the loop computes the normal form |
| `Paths.NormalizeDrops` | core/tauri-utils/Source/resources.rs:31-45 | normalising drops a leading prefix and a leading `.` and nothing else |
| `Paths.PlainIsNormal` | core/tauri-utils/Source/resources.rs:31-45 | a path is its own normal form exactly if it has neither |
| `Resources.FlatIsSimplePlusQuirk` | core/tauri-utils/Source/resources.rs:238-286 | what is yielded is the concatenation of what each pattern yields alone, except that exactly if some directory-only glob is followed by nothing at all, one `GlobPathNotFound` is appended, for the last such glob |
| `Resources.TrailingGlobErrs` | core/tauri-utils/Source/resources.rs:266-279 | one file and one directory-only glob in two orders: the error appears exactly with the glob last |
| `Resources.ResourcePathsIter.NextGlobIter` | core/tauri-utils/Source/resources.rs:143-154 | the glob arm returns the next item still to come, and nothing exactly if no match is left |
| `Resources.ResourcePathsIter.NextWalkIter` | core/tauri-utils/Source/resources.rs:156-167 | the walk arm returns the next item still to come, and nothing exactly if no entry is left |
| `Resources.ResourcePathsIter.ResourceFromPath` | core/tauri-utils/Source/resources.rs:169-202 | a path that is no directory becomes a resource with the target of its mode, or a not-found error |
| `Resources.ResourcePathsIter.NextCurrentPath` | core/tauri-utils/Source/resources.rs:204-236 | files are yielded, directories of globs skipped, others walked or refused; the item returned is the first still to come |
| `Resources.ResourcePathsIter.NextPattern` | core/tauri-utils/Source/resources.rs:238-286 | the next pattern is taken up and the item returned is the first still to come |
| `Resources.ResourcePathsIter.NextGlobPattern` | core/tauri-utils/Source/resources.rs:266-279 | a glob pattern always yields something: its first item, an error, or the first item of what follows |
| `Resources.ResourcePathsIter.Next` | core/tauri-utils/Source/resources.rs:296-320 | every call ends (lexicographically in patterns, walks and entries left), returns the first item of the flat specification still to come, leaves no current path, and never has a walk and a glob active together |
| `Resources.ResourcePathsIter.Collect` | core/tauri-utils/Source/resources.rs:296-320 | draining the iterator ends and gives exactly the flat specification |
| `ResourceTargets.WalkTarget` | core/tauri-utils/Source/resources.rs:182-185 | what a walked file of a map pattern is called below its destination |
| `ResourceTargets.GlobTarget` | core/tauri-utils/Source/resources.rs:191-196 | a globbed file of a map pattern keeps its own name directly below the relative destination |
| `ResourceTargets.SingleTarget` | core/tauri-utils/Source/resources.rs:186-199 | a single file lands exactly on a destination that is not empty and keeps its name under an empty one |
| `ResourceTargets.GlobTargetsDistinct` | core/tauri-utils/Source/resources.rs:191-196 | globbed files of different names get different targets |
| `ResourceTargets.FlatFinds` | core/tauri-utils/Source/resources.rs:142-286 | the resources yielded are exactly the existing files the patterns lead to, each under exactly the name its pattern gives it: none is left out and nothing else is yielded |
| `ResourceTargets.FlatFails` | core/tauri-utils/Source/resources.rs:142-286 | the errors yielded are exactly those of the patterns and their entries, apart from the trailing `GlobPathNotFound` |
| `ResourceTargets.WalkTargetContainedIff` | core/tauri-utils/Source/resources.rs:182-185 | a walked target stays inside the resource directory exactly if the pattern has no prefix and no leading `.`, or its normal form does not climb or start at the root |
| `ResourceTargets.AllTargetsContained` | core/tauri-utils/Source/resources.rs:169-202 | nothing the iterator yields escapes, for list patterns and for map patterns without prefix and leading `.` |
| `ResourceTargets.DotPatternEscapes` | core/tauri-utils/Source/resources.rs:182-185 | a map pattern `./../assets` escapes |
| `ResourceTargets.WalkTargetsDistinct` | core/tauri-utils/Source/resources.rs:169-202 | distinct files of one walked directory get distinct targets, for list and map patterns |
| `ResourceTargets.OrderDoesNotMatter` | core/tauri-utils/Source/resources.rs:107-121 | the multiset of resources does not depend on the order in which the patterns are visited |
| `JsonTokens.RoundTrip` | core/tauri-utils/Source/tokens.rs:105-191 | compiling any JSON value and evaluating the result in any environment gives that value and leaves the environment, although every object block declares the same `map`; if negative literals are split, exactly the values that contain one are rejected |
| `JsonTokens.RoundTripInserts` | core/tauri-utils/Source/tokens.rs:105-139 | the generated inserts, evaluated under the block's own `map`, append the members in order and touch nothing else, however deep their values nest |
| `JsonTokens.WholeAcceptsAll` | core/tauri-utils/Source/tokens.rs:142-165 | with whole literals every JSON value survives |
| `AssetCache.NameDeterminesContent` | core/tauri-codegen/Source/embedded_assets.rs:342-351 | a name in the build directory determines the content it stands for |
| `AssetCache.SameNameIff` | core/tauri-codegen/Source/embedded_assets.rs:342-351 | two files share a name exactly if they share content and extension |
| `AssetCache.StoreKeepsCache` | core/tauri-codegen/Source/embedded_assets.rs:354-377 | a completed write keeps the cache invariant: what lies under a content's name decompresses to it |
| `AssetCache.CutKeepsCacheIff` | core/tauri-codegen/Source/embedded_assets.rs:354-377 | a write cut short keeps it exactly if what was written still decompresses to the content |
| `AssetCache.Build.ScanRaw` | core/tauri-codegen/Source/embedded_assets.rs:94-188 | the first pass succeeds exactly if everything it needs can be walked and read, lists the files in order, and hashes every script exactly if `script-src` may be modified |
| `AssetCache.Build.MapAsset` | core/tauri-codegen/Source/context.rs:66-119 | pages are rewritten under a policy, everything else is left; the inline scripts of the page are hashed under its key exactly if `script-src` may be modified |
| `AssetCache.Build.CompressFile` | core/tauri-codegen/Source/embedded_assets.rs:305-381 | exactly when it succeeds, which name and content are then in the cache, and exactly what a failure leaves: the file of a write cut short, else nothing |
| `AssetCache.Build.CompressAll` | core/tauri-codegen/Source/embedded_assets.rs:250-283 | from any directory, sound or not: succeeds exactly if every file is usable and is there already or written; then only adds, and every key maps to the build file of the last path with that key; else leaves the files before the stop and what was written of the one it stopped at; every inline script of every page is hashed |
| `AssetCache.Build.FilledIsSound` | core/tauri-codegen/Source/embedded_assets.rs:354-377 | what a pass adds to a sound cache keeps it sound |
| `AssetCache.Build.StoppedSoundIff` | core/tauri-codegen/Source/embedded_assets.rs:354-377 | a pass that stops leaves a sound cache sound exactly if it did not stop at a write cut short whose remains do not decompress to the content |
| `AssetCache.Build.BuildEmbedded` | core/tauri-codegen/Source/embedded_assets.rs:250-283 | exactly when a build succeeds; from any directory, under every key it serves what lay there under the name of the last path's content, else that content; from a sound cache: for the last entry of each key the page rewritten under a policy, else the file as it is; with the flag off or a list without `script-src`, the hash of every served `js` and `mjs` file in the list of every page and under a policy of every inline script in that of its page; with the flag on or `script-src` listed, no hash in any list; and the cache stays sound; a failed build leaves it sound exactly if it did not stop at a spoiling write |
| `AssetCache.Build.RepeatedBuilds` | core/tauri-codegen/Source/embedded_assets.rs:354-377 | any number of builds of any trees in one directory, failed ones included: each that succeeds serves what its directory makes of its tree, and if its directory is sound the mapped content with all scripts allowed; the cache is sound before any build and at the end exactly if it was at the start and no earlier build stopped at a spoiling write |
| `AssetCache.Build.SoundIff` | core/tauri-codegen/Source/embedded_assets.rs:354-377 | nothing is ever overwritten, so a spoiled cache stays spoiled and a sound one stays sound up to the first spoiling write |
| `AssetCache.Build.BuildAfterCut` | core/tauri-codegen/Source/embedded_assets.rs:354-377 | a build that stopped at a write cut short, then one of any tree with any options that succeeds: every key whose content has the name of that file is served what was written of it, every other key its own content |
| `AssetCache.ServesSource` | core/tauri-utils/Source/assets.rs:132-150 | `get` returns the mapped content of the last path with that key, and nothing for unknown keys |
| `AssetCache.ServedScriptsAllowed` | core/tauri-utils/Source/assets.rs:158-165 | the bytes served for a script have their hash in the list of every page if `script-src` may be modified; if not, no script hash is listed |
| `AssetCache.InlineScriptsAllowed` | core/tauri-codegen/Source/context.rs:66-91 | every inline script of a served page is in the list of that page, given the hashes a build collects |
| `Csp.Display` | core/tauri-utils/Source/config.rs:1708-1733 | the counting loop prints the directives in iteration order with `; ` between them and none at the end |
| `Csp.ParsePolicy` | core/tauri-utils/Source/config.rs:1680-1706 | the loop computes the parse that the round trip is proved about |
| `Csp.LastDirectiveWins` | core/tauri-utils/Source/config.rs:1684-1698 | of repeated directives the last one is kept |
| `Csp.DirectiveRoundTrip` | core/tauri-utils/Source/config.rs:1718-1721 | one printed directive, with or without a blank before it, parses to its name and its sources, empty lists included |
| `Csp.PrintSplits` | core/tauri-utils/Source/config.rs:1708-1733 | a printed policy falls apart at its semicolons into exactly the printed directives |
| `Csp.PrintParseIff` | core/tauri-utils/Source/config.rs:1680-1733 | printing a map whose names and sources are non-empty and free of white space and `;`, in any iteration order, and parsing the text gives the map back exactly if it is not empty |
| `Csp.AnyOrder` | core/tauri-utils/Source/config.rs:1708-1733 | two iteration orders of one map stand for the same map |
| `Csp.EmptyPolicy` | core/tauri-utils/Source/config.rs:1680-1706 | the empty text parses to one nameless directive |
| `Csp.PushAppendsIff` | core/tauri-utils/Source/config.rs:1640-1651 | a push appends exactly its source to the converted list if and only if the list form is used or the source has no space |
| `Csp.ExtendAppendsIff` | core/tauri-utils/Source/config.rs:1653-1658 | so does extending with any number of sources |
| `Csp.DirectiveSources.PushSource` | core/tauri-utils/Source/config.rs:1640-1651 | the in-place push is the specified one and appends a space-free source in either form |
| `Csp.DirectiveSources.Extend` | core/tauri-utils/Source/config.rs:1653-1658 | the in-place loop appends exactly the given sources in order if and only if they are space-free or the list form is used |
| `Csp.InlineContainsIff` | core/tauri-utils/Source/config.rs:1629-1637 | for a space-free source the inline test holds exactly if the source ends a piece that is not the last or starts a piece that is not the first |
| `Csp.InlineContainsMembers` | core/tauri-utils/Source/config.rs:1629-1637 | an element of the converted list is found exactly if there are at least two elements |
| `Csp.ListContainsIff` | core/tauri-utils/Source/config.rs:1629-1637 | in the list form `contains` is membership, and a push adds exactly its source to what is contained |
| `Csp.PushContains` | core/tauri-utils/Source/config.rs:1629-1651 | a pushed source is contained, and no push makes a contained source disappear |
| `Z85.TableInjective` | core/tauri/Source/lib.rs:1164-1165 | no character occurs twice in the table |
| `Z85.TableInverse` | core/tauri/Source/lib.rs:1164-1165 | looking a character up inverts the table |
| `Z85.ShiftedBase` | core/tauri/Source/lib.rs:1177-1186 | five divisions by 85 use up any 32-bit value, and the five remainders determine it |
| `Z85.EncodeFrame` | core/tauri/Source/lib.rs:1177-1186 | the five characters filled from the last to the first are from the table and decode to the value of the four bytes |
| `Z85.Encode` | core/tauri/Source/lib.rs:1172-1193 | fails exactly if the length is no multiple of four; otherwise gives five characters for four bytes, all from the table, and the RFC 32 decoder recovers the input |
| `Z85.HelloWorld` | core/tauri/Source/lib.rs:1163-1193 | the decoder reads the test case of RFC 32: most significant digit and byte first |
| `Z85.InTableMeans` | core/tauri/Source/lib.rs:1164-1165 | the decoder accepts exactly the characters of the table |
| `Text.SplitJoin` | core/tauri-utils/Source/config.rs:1718-1721 | splitting undoes joining when no part holds the separator |
| `Text.TrimEndMeans` | core/tauri-utils/Source/config.rs:1686-1687 | trimming cuts only spaces off the end and stops only at text |
| `Text.TrimDemo` | core/tauri-utils/Source/config.rs:1686-1687 | tabs, line ends and no-break spaces are cut off like blanks, inner blanks stay |
| `Text.TrimStartMeans` | core/tauri-utils/Source/config.rs:1686-1687 | trimming cuts only spaces off the start and stops only at text |
| `ReadLine.LineShape` | core/tauri-utils/Source/io.rs:13-59 | for every chunking and any interrupts the line is a prefix of the stream, has no newline before its last byte, and is all of the stream unless it ends in a newline or carriage return |
| `ReadLine.InterruptsDoNotMatter` | core/tauri-utils/Source/io.rs:17-27 | interrupts change neither the line nor the stream nor the failure it ends in |
| `ReadLine.ReadLineInto` | core/tauri-utils/Source/io.rs:13-59 | appends exactly the line; its length is returned and the reader stands just behind it; an error is the one the stream ends in and what came before it is kept; every call ends |
| `ReadLine.Reader.FillBuf` | core/tauri-utils/Source/io.rs:17-27 | buffered bytes first, else the next chunk, interrupt or error |
| `ReadLine.TwoChunkings` | core/tauri-utils/Source/io.rs:29-48 | with a carriage return before the first newline, one chunk gives the line up to the newline and a cut behind the return gives the line up to the return |
| `ReadLine.DemoLines` | core/tauri-utils/Source/io.rs:29-48 | the four bytes `a`, carriage return, `b`, newline are one line in one chunk and two bytes long when cut behind the return |
| `ReadLine.ChunksDoNotMatterIff` | core/tauri-utils/Source/io.rs:9-59 | all chunkings of a stream give the same line exactly if no carriage return stands before its first newline |
| `DevKill.Process.KillBeforeDev` | crates/tauri-cli/Source/dev.rs:351-392 | one undisturbed call: what it returns, when it panics, and that it sends the script and the kill exactly if the flag was clear |
| `DevKill.Step` | crates/tauri-cli/Source/dev.rs:341-392 | the protocol invariant is kept by every step of callers, publisher, child and watcher |
| `DevKill.KilledOnce` | crates/tauri-cli/Source/dev.rs:351-392 | in every interleaving the script and the kill happen at most once, and only after the flag is set |
| `DevKill.KillNeverReported` | crates/tauri-cli/Source/dev.rs:196-204 | a child ended by the script or the kill is never reported as failed; a report means it failed on its own |
| `DevKill.ReturnAfterKill` | crates/tauri-cli/Source/dev.rs:341-358 | a caller that found the child returns, and so exits the process, only after the kill was sent by it or by another |
| `DevKill.OneInSection` | crates/tauri-cli/Source/dev.rs:351-358 | at most one caller is past the lock |
| `DevKill.VerdictIff` | crates/tauri-cli/Source/dev.rs:196-204 | the watcher panics exactly if it judges a failed child before the flag is published, and reports exactly if the flag is published and clear |
| `DevKill.PoisonedIff` | crates/tauri-cli/Source/dev.rs:351-392 | the lock is poisoned exactly by a look at the unpublished flag or by a panic while the script is prepared |
| `DevKill.PanicIsFinal` | crates/tauri-cli/Source/dev.rs:351-392 | after such a panic the child is never killed and no caller that found it returns |
| `DevKill.NoPanicAfterPublication` | crates/tauri-cli/Source/dev.rs:206-212 | callers that start after both statics are published, with a script that can be prepared, do not panic and do not miss the child |
| `DevKill.WatcherFalls` | crates/tauri-cli/Source/dev.rs:196-207 | a child that fails at once makes the watcher panic |

## Left out

- Native window, webview, GTK, Win32, Cocoa and JNI calls: outcomes are parameters; simple setters, getters and conversions would only add easy members.
- Wry-level `Plugin::on_event` and `run_iteration`, which may rewrite or reset the control flow: outside the exit claims.
- `CreateRawWindow`, tracing spans, the `has_children` flag and platform surfaces.
- Wrap-around of the id counters: `Runs` and `Lifecycle` speak about runs with fewer than 2^32 creations of each kind, and `WebContexts` likewise; the counters themselves wrap in the model.
- Progress: that every call returns is not a claim; `Waits` says how long a reparent waits and where that can be for ever.
- Destructors of user data and panics inside user code; a panic of the main thread ends a run of the model.
- `Reentrancy` and `Closures` key cells by webview, so the two cells of a webview built with its window are one there; a call through the other cell does not block in the code.
- Closures.ClosureBlocksIff: closures nested on a webview that the same code closes, moves or hands out again are left to `Closures.WithWebviewBlocksIff`, because whether they run cannot be read off the code.
- `Runtime` handles a creation sent on the main thread in one step, so calls that `after_window_creation` makes inside it are not interleaved there; `Reentrancy` runs them.
- Reentrancy.OnlyCellsRelock: user code is a value (a finite tree of calls), so code whose calls depend on results it reads is covered by the choice of the tree, not by a program.
- Handlers.EventLoop.OnCloseRequested: listeners appear by their votes; what else they do is in `Runtime` and `Reentrancy`.
- Rounding of `f32` rates and changes of the scale factor in `Layout`; window sizes are positive.
- HTML parsing and serialising, SHA-256, BLAKE3, Brotli, glob and directory walking: inverse functions, collision-free hashes and finite entry lists are assumed where a `requires` says so; source files do not change during a build.
- Relaxed memory ordering in `DevKill`: steps are sequentially consistent.
- The `wait` option of `beforeDevCommand` and the Windows/Unix bodies of the kill script.
- `AssetKey` normalisation on Windows, the isolation pattern's own asset mapping, and style hashes, which the code never fills.
- The rest of `Config`, ACL manifests and capabilities, the bundler, menus, mobile code, CLI prompts and package managers.
