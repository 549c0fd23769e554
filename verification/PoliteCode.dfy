/** Code that never calls a webview whose `with_webview` closure it runs in, and why it never blocks. */
module PoliteCode {
  import opened WindowStore
  import opened Reentrancy

  predicate Polite(cs: seq<Call>, held: set<WebviewId>)
    decreases Weight(cs), 0
  {
    cs == [] || (PoliteCall(cs[0], held) && Polite(cs[1..], held))
  }

  /** `held` are the webviews whose `with_webview` closure encloses the call. */
  predicate PoliteCall(c: Call, held: set<WebviewId>)
    decreases CallWeight(c), 0
  {
    match c
    case OnWindowEvent(_, listener) => Polite(listener, {})
    case RunOnMain(body) => Polite(body, held)
    case CreateWindow(_, _, after, _) => Polite(after, held)
    case WebviewOp(v) => v !in held
    case CloseView(v) => v !in held
    case ReparentView(v, _, _) => v !in held
    case OnWebviewEvent(v, listener) => v !in held && Polite(listener, {})
    case WithWebview(v, body) => v !in held && Polite(body, held + {v})
    case _ => true
  }

  predicate PoliteMsg(msg: Msg, held: set<WebviewId>) {
    match msg
    case Task(body) => Polite(body, held)
    case NewWindow(_, _, after, _) => Polite(after, held)
    case ToWindow(_, AddListener(listener)) => Polite(listener, {})
    case ToView(_, _, With(body)) => Polite(body, held)
    case ToView(_, _, AddViewListener(listener)) => Polite(listener, {})
    case _ => true
  }

  ghost predicate PoliteMachine(m: Machine) {
    && (forall i :: 0 <= i < |m.queue| ==> PoliteMsg(m.queue[i], {}))
    && (forall t, i :: t in m.listeners && 0 <= i < |m.listeners[t]| ==> Polite(m.listeners[t][i], {}))
  }

  predicate PoliteEvent(e: Event) {
    match e
    case Lifecycle(callback) => Polite(callback, {})
    case FromWorker(msg) => PoliteMsg(msg, {})
    case Queued(callback, _) => Polite(callback, {})
    case Native(_, _, _, callback, second, _) => Polite(callback, {}) && Polite(second, {})
  }

  /** Finished with every lock as it was and only polite code registered, or left without a reply. */
  ghost predicate Smooth(m: Machine, o: Outcome) {
    match o
    case Done(m') => SameLocks(m, m') && PoliteMachine(m')
    case Faulted(f) => f.ReplyDropped?
  }

  lemma PostPolite(m: Machine, msg: Msg)
    requires PoliteMachine(m) && PoliteMsg(msg, {})
    ensures PoliteMachine(Post(m, msg))
  {
  }

  lemma InsertPolite(m: Machine, t: Table, listener: seq<Call>)
    requires PoliteMachine(m) && Polite(listener, {})
    ensures PoliteMachine(Insert(m, t, listener))
  {
    var m' := Insert(m, t, listener);
    forall u, i | u in m'.listeners && 0 <= i < |m'.listeners[u]| ensures Polite(m'.listeners[u][i], {}) {
      if u == t && i < |ListenersOf(m, t)| { assert m'.listeners[u][i] == m.listeners[t][i]; }
    }
  }

  lemma {:induction false} RunUserSmooth(m: Machine, body: seq<Call>)
    requires m.borrow.Unborrowed? && PoliteMachine(m) && Polite(body, m.cellsHeld)
    ensures Smooth(m, RunUser(m, body))
    decreases Weight(body), 1
  {
    ExecSmooth(m, body);
  }

  lemma {:induction false} ExecSmooth(m: Machine, cs: seq<Call>)
    requires m.borrow.Unborrowed? && PoliteMachine(m) && Polite(cs, m.cellsHeld)
    ensures Smooth(m, Exec(m, cs))
    decreases Weight(cs), 0
  {
    if cs != [] {
      ExecCallSmooth(m, cs[0]);
      var o := ExecCall(m, cs[0]);
      if o.Done? { ExecSmooth(o.m, cs[1..]); }
    }
  }

  lemma {:induction false} ExecCallSmooth(m: Machine, c: Call)
    requires m.borrow.Unborrowed? && PoliteMachine(m) && PoliteCall(c, m.cellsHeld)
    ensures Smooth(m, ExecCall(m, c))
    decreases CallWeight(c), 0
  {
    match c
    case WindowOp(w) => HandleSmooth(m, ToWindow(w, Plain));
    case OnWindowEvent(w, listener) => PostPolite(m, ToWindow(w, AddListener(listener)));
    case CloseWindow(w) => PostPolite(m, ToWindow(w, Close));
    case DestroyWindow(w) => PostPolite(m, ToWindow(w, Destroy));
    case RequestExit => PostPolite(m, Exit);
    case RunOnMain(body) => HandleSmooth(m, Task(body));
    case CreateWindow(w, child, after, built) => HandleSmooth(m, NewWindow(w, child, after, built));
    case CreateWebview(w, v, built) => HandleSmooth(m, NewWebview(w, v, built));
    case WebviewOp(v) => OnCellSmooth(m, v, ViewPlain);
    case CloseView(v) => OnCellSmooth(m, v, ViewClose);
    case WithWebview(v, body) => OnCellSmooth(m, v, With(body));
    case ReparentView(v, target, native) => OnCellSmooth(m, v, Move(target, native));
    case OnWebviewEvent(v, listener) =>
      if v in m.cells {
        var m1 := m.(cellsHeld := m.cellsHeld + {v});
        PostPolite(m1, ToView(m.cells[v], v, AddViewListener(listener)));
      }
  }

  lemma {:induction false} OnCellSmooth(m: Machine, v: WebviewId, op: ViewMsg)
    requires m.borrow.Unborrowed? && !op.AddViewListener? && PoliteMachine(m) && v !in m.cellsHeld
    requires PoliteMsg(ToView(0, v, op), m.cellsHeld + {v})
    ensures Smooth(m, OnCell(m, v, op))
    decreases MsgWeight(ToView(0, v, op)), 4
  {
    if v in m.cells {
      HandleSmooth(m.(cellsHeld := m.cellsHeld + {v}), ToView(m.cells[v], v, op));
    }
  }

  lemma {:induction false} HandleSmooth(m: Machine, msg: Msg)
    requires m.borrow.Unborrowed? && Direct(msg) && PoliteMachine(m) && PoliteMsg(msg, m.cellsHeld)
    ensures Smooth(m, Handle(m, msg))
    decreases MsgWeight(msg), 3
  {
    match msg
    case Task(body) => RunUserSmooth(m, body);
    case NewWindow(w, child, after, built) => RunUserSmooth(m, after);
    case ToView(w, v, With(body)) =>
      var m2 := EndRead(m.(borrow := Reading(1)));
      RunUserSmooth(m2, body);
    case _ => PlainOnlyStore(m, msg);
  }

  lemma CallbackSmooth(m: Machine, body: seq<Call>)
    requires m.borrow.Unborrowed? && !m.callbackBusy && m.cellsHeld == {} && PoliteMachine(m) && Polite(body, {})
    ensures Smooth(m, RunCallback(m, body))
  {
    RunUserSmooth(m.(callbackBusy := true), body);
  }

  lemma {:induction false} RunAllSmooth(m: Machine, bodies: seq<seq<Call>>)
    requires m.borrow.Unborrowed? && m.cellsHeld == {} && PoliteMachine(m)
    requires forall i :: 0 <= i < |bodies| ==> Polite(bodies[i], {})
    ensures Smooth(m, RunAll(m, bodies))
    decreases |bodies|
  {
    if bodies != [] {
      RunUserSmooth(m, bodies[0]);
      var o := RunUser(m, bodies[0]);
      if o.Done? { RunAllSmooth(o.m, bodies[1..]); }
    }
  }

  lemma AnnounceSmooth(m: Machine, t: Table, callback: seq<Call>)
    requires LocksFree(m) && PoliteMachine(m) && Polite(callback, {})
    ensures Smooth(m, Announce(m, t, callback))
  {
    CallbackSmooth(m, callback);
    var o := RunCallback(m, callback);
    if o.Done? {
      var m2 := o.m.(locked := o.m.locked + {t});
      RunAllSmooth(m2, ListenersOf(m2, t));
    }
  }

  lemma CloseSmooth(m: Machine, w: WindowId, callback: seq<Call>, prevented: bool)
    requires LocksFree(m) && PoliteMachine(m) && Polite(callback, {})
    ensures Smooth(m, OnCloseRequested(m, w, callback, prevented))
  {
    var m2 := EndRead(m.(borrow := Reading(1)));
    if w in m2.store {
      var m3 := m2.(locked := m2.locked + {OfWindow(w)});
      RunAllSmooth(m3, ListenersOf(m3, OfWindow(w)));
      var o := RunAll(m3, ListenersOf(m3, OfWindow(w)));
      if o.Done? { CallbackSmooth(o.m, callback); }
    }
  }

  lemma ListenSmooth(m: Machine, msg: Msg)
    requires LocksFree(m) && PoliteMachine(m) && PoliteMsg(msg, {})
    requires (msg.ToView? && msg.vop.AddViewListener?) || (msg.ToWindow? && msg.op.AddListener?)
    ensures Smooth(m, Handle(m, msg))
  {
    var m2 := EndRead(m.(borrow := Reading(1)));
    match msg
    case ToView(w, v, AddViewListener(listener)) => InsertPolite(m2.(locked := {OfView(v)}), OfView(v), listener);
    case ToWindow(w, AddListener(listener)) => InsertPolite(m2.(locked := {OfWindow(w)}), OfWindow(w), listener);
  }

  lemma QueuedSmooth(m: Machine, msg: Msg, callback: seq<Call>, prevented: bool)
    requires LocksFree(m) && PoliteMachine(m) && PoliteMsg(msg, {}) && Polite(callback, {})
    ensures Smooth(m, HandleQueued(m, msg, callback, prevented))
  {
    var m2 := EndRead(m.(borrow := Reading(1)));
    match msg
    case ToView(w, v, ViewEvent) => AnnounceSmooth(m2, OfView(v), callback);
    case ToView(w, v, Synthesized) => AnnounceSmooth(m2, OfWindow(w), callback);
    case ToView(w, v, AddViewListener(listener)) => ListenSmooth(m, msg);
    case ToWindow(w, Close) => CloseSmooth(m, w, callback, prevented);
    case ToWindow(w, AddListener(listener)) => ListenSmooth(m, msg);
    case ToWindow(w, Destroy) =>
    case Exit => CallbackSmooth(m, callback);
    case UserEvent => CallbackSmooth(m, callback);
    case _ => HandleSmooth(m, msg);
  }

  lemma NativeSmooth(m: Machine, e: Event)
    requires LocksFree(m) && PoliteMachine(m) && e.Native? && PoliteEvent(e)
    ensures Smooth(m, HandleNative(m, e))
  {
    assert EndRead(m.(borrow := Reading(1))) == m;
    AnnounceSmooth(m, OfWindow(e.w), e.callback);
    var o := if e.reported && e.w in m.store then Announce(m, OfWindow(e.w), e.callback) else Done(m);
    if o.Done? {
      match e.kind
      case CloseRequested => CloseSmooth(o.m, e.w, e.second, e.prevented);
      case Destroyed =>
        var m6 := o.m.(store := RemoveWindow(o.m.store, e.w));
        assert EndRead(m6.(borrow := Reading(1))) == m6;
        CallbackSmooth(m6, e.second);
      case _ =>
    }
  }

  /** If no closure touches a cell it runs under, no sequence of events ever blocks; only a dropped reply can end it. */
  lemma {:induction false} PoliteNeverBlocks(m: Machine, es: seq<Event>)
    requires LocksFree(m) && PoliteMachine(m)
    requires forall i :: 0 <= i < |es| ==> PoliteEvent(es[i])
    ensures match HandleAll(m, es)
            case Done(m') => LocksFree(m')
            case Faulted(f) => f.ReplyDropped?
    decreases |es|
  {
    if es != [] {
      match es[0] {
        case Lifecycle(callback) => CallbackSmooth(m, callback);
        case FromWorker(msg) => PostPolite(m, msg);
        case Queued(callback, prevented) =>
          if m.queue != [] { QueuedSmooth(m.(queue := m.queue[1..]), m.queue[0], callback, prevented); }
        case Native(_, _, _, _, _, _) => NativeSmooth(m, es[0]);
      }
      var o := HandleEvent(m, es[0]);
      if o.Done? { PoliteNeverBlocks(o.m, es[1..]); }
    }
  }
}
