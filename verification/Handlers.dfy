/**
  The handlers of the wry event loop, updating the windows store and the control flow in place.
  Each method is proved against the store functions of `WindowStore`. Native outcomes and the
  decisions of listeners, plugins and the run callback are parameters.
 */
module Handlers {
  import opened Wrappers
  import opened WindowStore

  datatype ControlFlow = Poll | Wait | Exit

  /** The search every webview handler starts with. */
  method FindWebview(vs: seq<WebviewId>, v: WebviewId) returns (found: Option<nat>)
    ensures found.None? <==> v !in vs
    ensures found.Some? ==> found.value == Position(vs, v)
  {
    var i := 0;
    while i < |vs|
      invariant 0 <= i <= |vs|
      invariant v !in vs[..i]
    {
      if vs[i] == v {
        return Some(i);
      }
      i := i + 1;
    }
    return None;
  }

  /** Whether a vote arrived: each voter either sends one message on the channel or stays silent. */
  method CollectVotes(voters: seq<bool>) returns (channel: seq<bool>)
    ensures channel != [] <==> true in voters
    ensures forall c :: c in channel ==> c
    ensures |channel| <= |voters|
  {
    channel := [];
    for i := 0 to |voters|
      invariant channel != [] <==> true in voters[..i]
      invariant forall c :: c in channel ==> c
      invariant |channel| <= i
    {
      assert voters[..i + 1] == voters[..i] + [voters[i]];
      if voters[i] {
        channel := channel + [true];
      }
    }
    assert voters[..|voters|] == voters;
  }

  class EventLoop {
    var windows: Store
    var controlFlow: ControlFlow
    /** The codes of the `ExitRequested` run events emitted so far, oldest first. */
    var exitRequests: seq<Option<int>>

    constructor ()
      ensures windows == map[] && controlFlow == Poll && exitRequests == []
    {
      windows, controlFlow, exitRequests := map[], Poll, [];
    }

    /** The common prologue of every event: `Exit` is sticky, anything else becomes `Wait`. */
    method BeginEvent()
      modifies this`controlFlow
      ensures controlFlow == if old(controlFlow) == Exit then Exit else Wait
    {
      if controlFlow != Exit {
        controlFlow := Wait;
      }
    }

    /** After an event the loop is at `Exit` exactly if it was before or the event asked for an exit unopposed. */
    method HandleEvent(e: LoopEvent)
      modifies this
      ensures windows == StoreAfter(old(windows), e)
      ensures exitRequests == old(exitRequests) + Request(old(windows), e)
      ensures controlFlow == Exit <==> old(controlFlow) == Exit || EndsLoop(old(windows), e)
      ensures controlFlow != Poll
    {
      BeginEvent();
      match e {
        case CloseAsked(w, listeners, callback) => OnCloseRequested(w, listeners, callback);
        case WindowDestroyed(w, plugins, callback) => OnDestroyed(w, plugins, callback);
        case DestroyAsked(w) => OnWindowClose(w);
        case AskedExit(code, plugins, callback) => AskExit(Some(code), plugins, callback);
        case Unrelated =>
      }
    }

    /** Over any sequence of events: `Exit` exactly if it was so before or some event asked for it unopposed, whatever came after. */
    method HandleEvents(es: seq<LoopEvent>)
      modifies this
      ensures windows == StoreAfterAll(old(windows), es)
      ensures controlFlow == Exit <==> old(controlFlow) == Exit || exists i :: 0 <= i < |es| && EndsAt(old(windows), es, i)
    {
      for n := 0 to |es|
        invariant windows == StoreAfterAll(old(windows), es[..n])
        invariant controlFlow == Exit <==> old(controlFlow) == Exit || exists i :: 0 <= i < n && EndsAt(old(windows), es, i)
      {
        ghost var before := controlFlow;
        HandleEvent(es[n]);
        StoreAfterNext(old(windows), es, n);
        assert controlFlow == Exit <==> before == Exit || EndsAt(old(windows), es, n);
      }
      assert es[..|es|] == es;
    }

    method HandleCreateWindow(w: WindowId, children: seq<WebviewId>, built: bool)
      modifies this`windows
      ensures windows == if built then InsertWindow(old(windows), w, children) else old(windows)
    {
      if built {
        windows := windows[w := Window(true, children)];
      }
    }

    method HandleCreateWebview(w: WindowId, v: WebviewId, built: bool)
      modifies this`windows
      ensures windows == if built then AddWebview(old(windows), w, v) else old(windows)
    {
      if w in windows && windows[w].open {
        if built {
          var entry := windows[w];
          windows := windows[w := entry.(webviews := entry.webviews + [v])];
        }
      }
    }

    /** Removes the webview from the list of `w`, if it is there. */
    method Detach(w: WindowId, v: WebviewId) returns (detached: bool)
      modifies this`windows
      ensures detached <==> Lists(old(windows), w, v)
      ensures windows == if detached then TakeWebview(old(windows), w, v) else old(windows)
    {
      detached := false;
      if w in windows {
        var entry := windows[w];
        var at := FindWebview(entry.webviews, v);
        if at.Some? {
          windows := windows[w := entry.(webviews := entry.webviews[..at.value] + entry.webviews[at.value + 1..])];
          detached := true;
        }
      }
    }

    method HandleReparent(w: WindowId, v: WebviewId, target: WindowId, native: bool) returns (reply: Reply)
      modifies this`windows
      ensures (windows, reply) == Reparent(old(windows), w, v, target, native)
    {
      var detached := Detach(w, v);
      if !detached {
        return Failed;
      }
      reply := Dropped;
      if target in windows && windows[target].open {
        if native {
          var entry := windows[target];
          windows := windows[target := entry.(webviews := entry.webviews + [v])];
          reply := Moved;
        } else {
          reply := Failed;
        }
      }
    }

    method HandleCloseWebview(w: WindowId, v: WebviewId)
      modifies this`windows
      ensures windows == CloseWebview(old(windows), w, v)
    {
      if w in windows && windows[w].open {
        var _ := Detach(w, v);
      }
    }

    method OnWindowClose(w: WindowId)
      modifies this`windows
      ensures windows == DropHandle(old(windows), w)
    {
      if w in windows {
        windows := windows[w := windows[w].(open := false)];
      }
    }

    /** A close request gives up the handle exactly when nobody called `prevent_close`. */
    method OnCloseRequested(w: WindowId, listeners: seq<bool>, callback: bool)
      modifies this`windows
      ensures windows == if true in listeners || callback then old(windows) else DropHandle(old(windows), w)
    {
      if w in windows {
        var channel := CollectVotes(listeners + [callback]);
        assert true in listeners + [callback] <==> true in listeners || callback;
        assert channel != [] ==> channel[0] in channel;
        if !(channel != [] && channel[0]) {
          OnWindowClose(w);
        }
      }
    }

    /** An exit request ends the loop exactly when no plugin and no callback called `prevent_exit`. */
    method AskExit(code: Option<int>, plugins: seq<bool>, callback: bool)
      modifies this`controlFlow, this`exitRequests
      ensures exitRequests == old(exitRequests) + [code]
      ensures controlFlow == if true in plugins || callback then old(controlFlow) else Exit
    {
      exitRequests := exitRequests + [code];
      var channel := CollectVotes(plugins + [callback]);
      assert true in plugins + [callback] <==> true in plugins || callback;
      if channel == [] {
        controlFlow := Exit;
      }
    }

    /**
      A native `Destroyed` event removes the entry; an exit is asked for exactly when this event
      took the store from non-empty to empty.
     */
    method OnDestroyed(w: WindowId, plugins: seq<bool>, callback: bool)
      modifies this
      ensures windows == RemoveWindow(old(windows), w)
      ensures var emptied := old(windows) != map[] && windows == map[];
              && exitRequests == old(exitRequests) + (if emptied then [None] else [])
              && controlFlow == (if emptied && true !in plugins && !callback then Exit else old(controlFlow))
    {
      var removed := w in windows;
      ghost var before := windows;
      windows := windows - {w};
      assert !removed ==> windows == before;
      if removed {
        if windows == map[] {
          AskExit(None, plugins, callback);
        }
      }
    }
  }

  // ---- events, one after the other ----

  /** What reaches the loop; the flags are the decisions of listeners, plugins and the run callback. */
  datatype LoopEvent =
    | CloseAsked(w: WindowId, listeners: seq<bool>, callback: bool)
    | WindowDestroyed(w: WindowId, plugins: seq<bool>, callback: bool)
    | DestroyAsked(w: WindowId)
    | AskedExit(code: int, plugins: seq<bool>, callback: bool)
    | Unrelated

  function StoreAfter(store: Store, e: LoopEvent): Store {
    match e
    case CloseAsked(w, listeners, callback) => if true in listeners || callback then store else DropHandle(store, w)
    case WindowDestroyed(w, _, _) => RemoveWindow(store, w)
    case DestroyAsked(w) => DropHandle(store, w)
    case _ => store
  }

  /** The exit request an event makes, if any. */
  function Request(store: Store, e: LoopEvent): seq<Option<int>> {
    match e
    case AskedExit(code, _, _) => [Some(code)]
    case WindowDestroyed(w, _, _) => if store != map[] && RemoveWindow(store, w) == map[] then [None] else []
    case _ => []
  }

  /** The event makes an exit request on which nobody votes. */
  predicate EndsLoop(store: Store, e: LoopEvent) {
    Request(store, e) != [] && (e.AskedExit? || e.WindowDestroyed?) && true !in e.plugins && !e.callback
  }

  function StoreAfterAll(store: Store, es: seq<LoopEvent>): Store {
    if es == [] then store else StoreAfter(StoreAfterAll(store, es[..|es| - 1]), es[|es| - 1])
  }

  lemma StoreAfterNext(store: Store, es: seq<LoopEvent>, n: nat)
    requires n < |es|
    ensures StoreAfterAll(store, es[..n + 1]) == StoreAfter(StoreAfterAll(store, es[..n]), es[n])
  {
    assert es[..n + 1][..n] == es[..n];
  }

  predicate EndsAt(store: Store, es: seq<LoopEvent>, i: nat)
    requires i < |es|
  {
    EndsLoop(StoreAfterAll(store, es[..i]), es[i])
  }

  // ---- Tauri plugins, the extra voters ----

  datatype Plugin = Plugin(name: string, prevents: bool)

  function Others(plugins: seq<Plugin>, name: string): (r: seq<Plugin>)
    ensures forall p :: p in r <==> p in plugins && p.name != name
    ensures |r| <= |plugins| && (|r| == |plugins| <==> forall p :: p in plugins ==> p.name != name)
  {
    if plugins == [] then [] else
      var rest := Others(plugins[1..], name);
      assert forall p :: p in plugins <==> p == plugins[0] || p in plugins[1..];
      if plugins[0].name == name then rest else [plugins[0]] + rest
  }

  ghost predicate DistinctNames(plugins: seq<Plugin>) {
    forall i, j :: 0 <= i < j < |plugins| ==> plugins[i].name != plugins[j].name
  }

  lemma {:induction false} OthersDistinct(plugins: seq<Plugin>, name: string)
    requires DistinctNames(plugins)
    ensures DistinctNames(Others(plugins, name))
  {
    if plugins != [] {
      OthersDistinct(plugins[1..], name);
      var rest := Others(plugins[1..], name);
      forall p | p in rest ensures p.name != plugins[0].name {
        var k :| 0 <= k < |plugins[1..]| && plugins[1..][k] == p;
        assert plugins[k + 1] == p;
      }
    }
  }

  /** `p` stands before `q`. */
  ghost predicate Before(plugins: seq<Plugin>, p: Plugin, q: Plugin) {
    exists a, b :: 0 <= a < b < |plugins| && plugins[a] == p && plugins[b] == q
  }

  lemma BeforeLater(plugins: seq<Plugin>, p: Plugin, q: Plugin)
    requires plugins != [] && Before(plugins[1..], p, q)
    ensures Before(plugins, p, q)
  {
    var a, b :| 0 <= a < b < |plugins[1..]| && plugins[1..][a] == p && plugins[1..][b] == q;
    assert plugins[a + 1] == p && plugins[b + 1] == q;
  }

  lemma FirstIsBefore(plugins: seq<Plugin>, q: Plugin)
    requires plugins != [] && q in plugins[1..]
    ensures Before(plugins, plugins[0], q)
  {
    var b :| 0 <= b < |plugins[1..]| && plugins[1..][b] == q;
    assert plugins[b + 1] == q;
  }

  ghost predicate Ordered(plugins: seq<Plugin>, kept: seq<Plugin>) {
    forall i, j :: 0 <= i < j < |kept| ==> Before(plugins, kept[i], kept[j])
  }

  lemma OrderedSkip(plugins: seq<Plugin>, kept: seq<Plugin>)
    requires plugins != [] && Ordered(plugins[1..], kept)
    ensures Ordered(plugins, kept)
  {
    forall i, j | 0 <= i < j < |kept| ensures Before(plugins, kept[i], kept[j]) { BeforeLater(plugins, kept[i], kept[j]); }
  }

  lemma OrderedTake(plugins: seq<Plugin>, kept: seq<Plugin>)
    requires plugins != [] && Ordered(plugins[1..], kept) && forall p :: p in kept ==> p in plugins[1..]
    ensures Ordered(plugins, [plugins[0]] + kept)
  {
    var all := [plugins[0]] + kept;
    forall i, j | 0 <= i < j < |all| ensures Before(plugins, all[i], all[j]) {
      if i == 0 { FirstIsBefore(plugins, kept[j - 1]); } else { BeforeLater(plugins, kept[i - 1], kept[j - 1]); }
    }
  }

  /** The plugins kept stay in the order they were in. */
  lemma {:induction false} OthersInOrder(plugins: seq<Plugin>, name: string)
    ensures Ordered(plugins, Others(plugins, name))
  {
    if plugins != [] {
      OthersInOrder(plugins[1..], name);
      if plugins[0].name == name {
        OrderedSkip(plugins, Others(plugins[1..], name));
      } else {
        OrderedTake(plugins, Others(plugins[1..], name));
      }
    }
  }

  class PluginStore {
    var store: seq<Plugin>

    ghost predicate Valid() reads this { DistinctNames(store) }

    constructor () ensures Valid() && store == [] { store := []; }

    /** Registering replaces a plugin of the same name, so no name ever votes twice. */
    method Register(plugin: Plugin) returns (replaced: bool)
      requires Valid()
      modifies this
      ensures Valid()
      ensures store == Others(old(store), plugin.name) + [plugin]
      ensures replaced <==> exists p :: p in old(store) && p.name == plugin.name
    {
      OthersDistinct(store, plugin.name);
      var len := |store|;
      store := Others(store, plugin.name);
      replaced := len != |store|;
      store := store + [plugin];
    }

    method Unregister(name: string) returns (removed: bool)
      requires Valid()
      modifies this
      ensures Valid()
      ensures store == Others(old(store), name)
      ensures removed <==> exists p :: p in old(store) && p.name == name
    {
      OthersDistinct(store, name);
      var len := |store|;
      store := Others(store, name);
      removed := len != |store|;
    }

    /** Every plugin sees the event, in store order; none can stop the others from voting. */
    method Votes() returns (votes: seq<bool>)
      ensures |votes| == |store|
      ensures forall i :: 0 <= i < |store| ==> votes[i] == store[i].prevents
      ensures true in votes <==> exists p :: p in store && p.prevents
    {
      votes := [];
      for i := 0 to |store|
        invariant |votes| == i
        invariant forall k :: 0 <= k < i ==> votes[k] == store[k].prevents
      {
        votes := votes + [store[i].prevents];
      }
      if true in votes {
        var k :| 0 <= k < |votes| && votes[k];
        assert store[k] in store && store[k].prevents;
      }
      if p :| p in store && p.prevents {
        var k :| 0 <= k < |store| && store[k] == p;
        assert votes[k];
      }
    }
  }
}
