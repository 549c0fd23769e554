/**
  Re-entrancy on the main thread. User code (callbacks, listeners, tasks, `with_webview` closures) is
  a finite tree of dispatcher calls; the event loop and the message handler are interpreted with
  every lock made explicit: the `RefCell` around the windows store, one mutex per listener table,
  the exclusive run callback, and one mutex per webview cell. Taking a lock that is already held on
  this thread, running user code under a store borrow, reaching one of the handler's panics, or
  waiting for a reply whose sender was dropped is a fault.
 */
module Reentrancy {
  import opened Wrappers
  import opened WindowStore

  /** A dispatcher call as user code on the main thread can make it. */
  datatype Call =
    | WindowOp(w: WindowId)
    | OnWindowEvent(w: WindowId, listener: seq<Call>)
    | CloseWindow(w: WindowId)
    | DestroyWindow(w: WindowId)
    | RequestExit
    | RunOnMain(body: seq<Call>)
    | CreateWindow(w: WindowId, child: Option<WebviewId>, after: seq<Call>, built: bool)
    | CreateWebview(w: WindowId, v: WebviewId, built: bool)
    | WebviewOp(v: WebviewId)
    | CloseView(v: WebviewId)
    | OnWebviewEvent(v: WebviewId, listener: seq<Call>)
    | WithWebview(v: WebviewId, body: seq<Call>)
    | ReparentView(v: WebviewId, target: WindowId, native: bool)

  datatype WindowMsg = Plain | AddListener(listener: seq<Call>) | Close | Destroy

  datatype ViewMsg =
    | ViewPlain
    | AddViewListener(listener: seq<Call>)
    | ViewClose
    | With(body: seq<Call>)
    | Move(target: WindowId, native: bool)
    | ViewEvent
    | Synthesized

  datatype Msg =
    | ToWindow(w: WindowId, op: WindowMsg)
    | ToView(w: WindowId, v: WebviewId, vop: ViewMsg)
    | Exit
    | Task(body: seq<Call>)
    | NewWindow(nw: WindowId, child: Option<WebviewId>, after: seq<Call>, built: bool)
    | NewWebview(ww: WindowId, nv: WebviewId, built: bool)
    | UserEvent

  datatype Borrow = Unborrowed | Reading(n: nat) | Writing

  datatype Table = OfWindow(w: WindowId) | OfView(v: WebviewId)

  datatype Fault =
    | BorrowConflict
    | UserCodeUnderBorrow
    | CallbackReentered
    | ListenersRelocked(table: Table)
    | CellRelocked(v: WebviewId)
    | ReplyDropped(v: WebviewId)
    | HandlerPanic

  datatype Machine = Machine(
    store: Store,
    listeners: map<Table, seq<seq<Call>>>,
    cells: map<WebviewId, WindowId>,
    queue: seq<Msg>,
    borrow: Borrow,
    locked: set<Table>,
    cellsHeld: set<WebviewId>,
    callbackBusy: bool)

  datatype Outcome = Done(m: Machine) | Faulted(fault: Fault) {
    predicate IsFailure() { Faulted? }
    function PropagateFailure(): Outcome requires Faulted? { this }
    function Extract(): Machine requires Done? { m }
  }

  // ---- sizes, for termination ----

  function Weight(cs: seq<Call>): nat {
    if cs == [] then 0 else 1 + CallWeight(cs[0]) + Weight(cs[1..])
  }

  function CallWeight(c: Call): nat {
    match c
    case RunOnMain(body) => 1 + Weight(body)
    case CreateWindow(_, _, after, _) => 1 + Weight(after)
    case WithWebview(_, body) => 1 + Weight(body)
    case OnWindowEvent(_, listener) => 1 + Weight(listener)
    case OnWebviewEvent(_, listener) => 1 + Weight(listener)
    case _ => 1
  }

  function MsgWeight(msg: Msg): nat {
    match msg
    case Task(body) => Weight(body)
    case NewWindow(_, _, after, _) => Weight(after)
    case ToView(_, _, With(body)) => Weight(body)
    case _ => 0
  }

  // ---- locks ----

  function Read(m: Machine): Outcome {
    match m.borrow
    case Writing => Faulted(BorrowConflict)
    case Unborrowed => Done(m.(borrow := Reading(1)))
    case Reading(n) => Done(m.(borrow := Reading(n + 1)))
  }

  function EndRead(m: Machine): Machine {
    match m.borrow
    case Reading(n) => m.(borrow := if n <= 1 then Unborrowed else Reading(n - 1))
    case _ => m
  }

  function Write(m: Machine): Outcome {
    if m.borrow.Unborrowed? then Done(m.(borrow := Writing)) else Faulted(BorrowConflict)
  }

  function EndWrite(m: Machine): Machine {
    m.(borrow := Unborrowed)
  }

  function LockTable(m: Machine, t: Table): Outcome {
    if t in m.locked then Faulted(ListenersRelocked(t)) else Done(m.(locked := m.locked + {t}))
  }

  function UnlockTable(m: Machine, t: Table): Machine {
    m.(locked := m.locked - {t})
  }

  function LockCell(m: Machine, v: WebviewId): Outcome {
    if v in m.cellsHeld then Faulted(CellRelocked(v)) else Done(m.(cellsHeld := m.cellsHeld + {v}))
  }

  function UnlockCell(m: Machine, v: WebviewId): Machine {
    m.(cellsHeld := m.cellsHeld - {v})
  }

  /** The cell of the dispatcher that a creation returns. */
  function HandOut(m: Machine, v: WebviewId, w: WindowId): Machine {
    m.(cells := m.cells[v := w])
  }

  function ListenersOf(m: Machine, t: Table): seq<seq<Call>> {
    if t in m.listeners then m.listeners[t] else []
  }

  function Insert(m: Machine, t: Table, listener: seq<Call>): Machine {
    m.(listeners := m.listeners[t := ListenersOf(m, t) + [listener]])
  }

  function Post(m: Machine, msg: Msg): Machine {
    m.(queue := m.queue + [msg])
  }

  function UpdateStore(m: Machine, store: Store): Outcome {
    var m1 :- Write(m);
    Done(EndWrite(m1.(store := store)))
  }

  // ---- user code and the message handler ----

  /** Runs user code; it must not run under a borrow of the store. */
  function RunUser(m: Machine, body: seq<Call>): Outcome
    decreases Weight(body), 1
  {
    if !m.borrow.Unborrowed? then Faulted(UserCodeUnderBorrow) else Exec(m, body)
  }

  function Exec(m: Machine, cs: seq<Call>): Outcome
    decreases Weight(cs), 0
  {
    if cs == [] then Done(m) else
      var m1 :- ExecCall(m, cs[0]);
      Exec(m1, cs[1..])
  }

  /**
    One dispatcher call on the main thread. `close`, `destroy`, `request_exit` and the two listener
    registrations always go through the proxy; everything else is handled at once. Calls on a webview
    read its cell, and the guard lives until the handler returns.
   */
  function ExecCall(m: Machine, c: Call): Outcome
    decreases CallWeight(c), 0
  {
    match c
    case WindowOp(w) => Handle(m, ToWindow(w, Plain))
    case OnWindowEvent(w, listener) => Done(Post(m, ToWindow(w, AddListener(listener))))
    case CloseWindow(w) => Done(Post(m, ToWindow(w, Close)))
    case DestroyWindow(w) => Done(Post(m, ToWindow(w, Destroy)))
    case RequestExit => Done(Post(m, Exit))
    case RunOnMain(body) => Handle(m, Task(body))
    case CreateWindow(w, child, after, built) =>
      var m1 :- Handle(m, NewWindow(w, child, after, built));
      Done(if child.Some? then HandOut(m1, child.value, w) else m1)
    case CreateWebview(w, v, built) =>
      var m1 :- Handle(m, NewWebview(w, v, built));
      Done(HandOut(m1, v, w))
    case WebviewOp(v) => OnCell(m, v, ViewPlain)
    case CloseView(v) => OnCell(m, v, ViewClose)
    case WithWebview(v, body) => OnCell(m, v, With(body))
    case ReparentView(v, target, native) => OnCell(m, v, Move(target, native))
    case OnWebviewEvent(v, listener) =>
      if v !in m.cells then Done(m) else
        var m1 :- LockCell(m, v);
        Done(UnlockCell(Post(m1, ToView(m.cells[v], v, AddViewListener(listener))), v))
  }

  /**
    Send to the webview while the guard of its cell is alive; a successful move rewrites the cell, and
    one whose reply was dropped panics.
   */
  function OnCell(m: Machine, v: WebviewId, op: ViewMsg): Outcome
    decreases MsgWeight(ToView(0, v, op)), 4
  {
    if v !in m.cells then Done(m) else
      var w := m.cells[v];
      var m1 :- LockCell(m, v);
      var m2 :- Handle(m1, ToView(w, v, op));
      var reply := if op.Move? then Reparent(m1.store, w, v, op.target, op.native).1 else Failed;
      if reply == Dropped then Faulted(ReplyDropped(v))
      else Done(UnlockCell(if reply == Moved then m2.(cells := m2.cells[v := op.target]) else m2, v))
  }

  /** `handle_user_message`. */
  function Handle(m: Machine, msg: Msg): Outcome
    decreases MsgWeight(msg), 3
  {
    match msg
    case Exit => Faulted(HandlerPanic)
    case UserEvent => Done(m)
    case Task(body) => RunUser(m, body)
    case ToWindow(w, op) =>
      var m1 :- Read(m);
      var m2 := EndRead(m1);
      if !IsOpen(m2.store, w) then Done(m2)
      else match op {
        case Plain => Done(m2)
        case AddListener(listener) =>
          var m3 :- LockTable(m2, OfWindow(w));
          Done(UnlockTable(Insert(m3, OfWindow(w), listener), OfWindow(w)))
        case Close => Faulted(HandlerPanic)
        case Destroy => Faulted(HandlerPanic)
      }
    case ToView(w, v, op) =>
      if op.Move? then HandleMove(m, w, v, op) else
        var m1 :- Read(m);
        var m2 := EndRead(m1);
        if !(IsOpen(m2.store, w) && v in m2.store[w].webviews) then Done(m2)
        else match op {
          case AddViewListener(listener) =>
            var m3 :- LockTable(m2, OfView(v));
            Done(UnlockTable(Insert(m3, OfView(v), listener), OfView(v)))
          case ViewClose => UpdateStore(m2, WindowStore.CloseWebview(m2.store, w, v))
          case With(body) => RunUser(m2, body)
          case _ => Done(m2)
        }
    case NewWindow(w, child, after, built) =>
      var m1 :- RunUser(m, after);
      if !built then Done(m1)
      else UpdateStore(m1, InsertWindow(m1.store, w, if child.Some? then [child.value] else []))
    case NewWebview(w, v, built) =>
      var m1 :- Read(m);
      var m2 := EndRead(m1);
      if built && IsOpen(m2.store, w) then UpdateStore(m2, AddWebview(m2.store, w, v)) else Done(m2)
  }

  /** The reparent arm: the store is borrowed for the removal, then again for the insertion. */
  function HandleMove(m: Machine, w: WindowId, v: WebviewId, op: ViewMsg): Outcome
    requires op.Move?
  {
    var m1 :- UpdateStore(m, if Lists(m.store, w, v) then TakeWebview(m.store, w, v) else m.store);
    if !Lists(m.store, w, v) then Done(m1)
    else UpdateStore(m1, Reparent(m.store, w, v, op.target, op.native).0)
  }

  // ---- the event loop ----

  function RunCallback(m: Machine, body: seq<Call>): Outcome {
    if m.callbackBusy then Faulted(CallbackReentered) else
      var m1 :- RunUser(m.(callbackBusy := true), body);
      Done(m1.(callbackBusy := false))
  }

  function RunAll(m: Machine, bodies: seq<seq<Call>>): Outcome
    decreases |bodies|
  {
    if bodies == [] then Done(m) else
      var m1 :- RunUser(m, bodies[0]);
      RunAll(m1, bodies[1..])
  }

  /** The callback first, then the listeners of `t` under their mutex. */
  function Announce(m: Machine, t: Table, callback: seq<Call>): Outcome {
    var m1 :- RunCallback(m, callback);
    var m2 :- LockTable(m1, t);
    var m3 :- RunAll(m2, ListenersOf(m2, t));
    Done(UnlockTable(m3, t))
  }

  /** The listeners first and, with their mutex still held, the callback and the decision. */
  function OnCloseRequested(m: Machine, w: WindowId, callback: seq<Call>, prevented: bool): Outcome {
    var m1 :- Read(m);
    var m2 := EndRead(m1);
    if w !in m2.store then Done(m2) else
      var m3 :- LockTable(m2, OfWindow(w));
      var m4 :- RunAll(m3, ListenersOf(m3, OfWindow(w)));
      var m5 :- RunCallback(m4, callback);
      var m6 :- (if prevented then Done(m5) else UpdateStore(m5, DropHandle(m5.store, w)));
      Done(UnlockTable(m6, OfWindow(w)))
  }

  datatype NativeKind = Generic | CloseRequested | Destroyed | Resized

  /** What the loop is given: the callback bodies are what user code does when called this time. */
  datatype Event =
    | Lifecycle(callback: seq<Call>)
    | FromWorker(msg: Msg)
    | Queued(callback: seq<Call>, prevented: bool)
    | Native(w: WindowId, kind: NativeKind, reported: bool, callback: seq<Call>, second: seq<Call>, prevented: bool)

  function HandleQueued(m: Machine, msg: Msg, callback: seq<Call>, prevented: bool): Outcome {
    match msg
    case ToView(w, v, ViewEvent) =>
      var m1 :- Read(m);
      var m2 := EndRead(m1);
      if Lists(m2.store, w, v) then Announce(m2, OfView(v), callback) else Done(m2)
    case ToView(w, v, Synthesized) =>
      var m1 :- Read(m);
      var m2 := EndRead(m1);
      if w in m2.store then Announce(m2, OfWindow(w), callback) else Done(m2)
    case Exit => RunCallback(m, callback)
    case UserEvent => RunCallback(m, callback)
    case ToWindow(w, Close) => OnCloseRequested(m, w, callback, prevented)
    case ToWindow(w, Destroy) => UpdateStore(m, DropHandle(m.store, w))
    case _ => Handle(m, msg)
  }

  function HandleNative(m: Machine, e: Event): Outcome
    requires e.Native?
  {
    var m1 :- Read(m);
    var m2 := EndRead(m1);
    var m3 :- (if e.reported && e.w in m2.store then Announce(m2, OfWindow(e.w), e.callback) else Done(m2));
    match e.kind
    case Generic => Done(m3)
    case CloseRequested => OnCloseRequested(m3, e.w, e.second, e.prevented)
    case Destroyed =>
      var m4 :- UpdateStore(m3, RemoveWindow(m3.store, e.w));
      var m5 :- Read(m4);
      var m6 := EndRead(m5);
      if e.w in m3.store && m6.store == map[] then RunCallback(m6, e.second) else Done(m6)
    case Resized =>
      var m4 :- Read(m3);
      Done(EndRead(m4))
  }

  function HandleEvent(m: Machine, e: Event): Outcome {
    match e
    case Lifecycle(callback) => RunCallback(m, callback)
    case FromWorker(msg) => Done(Post(m, msg))
    case Queued(callback, prevented) =>
      if m.queue == [] then Done(m)
      else HandleQueued(m.(queue := m.queue[1..]), m.queue[0], callback, prevented)
    case Native(_, _, _, _, _, _) => HandleNative(m, e)
  }

  function HandleAll(m: Machine, es: seq<Event>): Outcome
    decreases |es|
  {
    if es == [] then Done(m) else
      var m1 :- HandleEvent(m, es[0]);
      HandleAll(m1, es[1..])
  }

  // ---- what user code can bring about ----

  ghost predicate SameLocks(m: Machine, m': Machine) {
    m'.borrow == m.borrow && m'.locked == m.locked && m'.cellsHeld == m.cellsHeld && m'.callbackBusy == m.callbackBusy
  }

  /** Finished with every lock as it was, blocked on a cell this thread already holds, or left without a reply. */
  ghost predicate Fine(m: Machine, o: Outcome) {
    match o
    case Done(m') => SameLocks(m, m')
    case Faulted(f) => f.CellRelocked? || f.ReplyDropped?
  }

  /** The messages that dispatchers hand to the handler directly. */
  predicate Direct(msg: Msg) {
    match msg
    case Exit => false
    case ToWindow(_, op) => op.Plain?
    case ToView(_, _, op) => !op.AddViewListener?
    case _ => true
  }

  /** Without a borrow in the way, updating the store changes the store and nothing else. */
  ghost predicate OnlyStore(m: Machine, o: Outcome) {
    o.Done? && o.m == m.(store := o.m.store)
  }

  lemma MoveOnlyStore(m: Machine, w: WindowId, v: WebviewId, op: ViewMsg)
    requires m.borrow.Unborrowed? && op.Move?
    ensures OnlyStore(m, HandleMove(m, w, v, op))
  {
  }

  lemma PlainOnlyStore(m: Machine, msg: Msg)
    requires m.borrow.Unborrowed? && Direct(msg) && MsgWeight(msg) == 0
    requires msg.UserEvent? || msg.ToWindow? || msg.NewWebview? || (msg.ToView? && !msg.vop.With?)
    ensures OnlyStore(m, Handle(m, msg))
  {
    match msg
    case ToView(w, v, op) => if op.Move? { MoveOnlyStore(m, w, v, op); }
    case _ =>
  }

  lemma {:induction false} RunUserFine(m: Machine, body: seq<Call>)
    requires m.borrow.Unborrowed?
    ensures Fine(m, RunUser(m, body))
    decreases Weight(body), 1
  {
    ExecFine(m, body);
  }

  lemma {:induction false} ExecFine(m: Machine, cs: seq<Call>)
    requires m.borrow.Unborrowed?
    ensures Fine(m, Exec(m, cs))
    decreases Weight(cs), 0
  {
    if cs != [] {
      ExecCallFine(m, cs[0]);
      var o := ExecCall(m, cs[0]);
      if o.Done? { ExecFine(o.m, cs[1..]); }
    }
  }

  lemma {:induction false} ExecCallFine(m: Machine, c: Call)
    requires m.borrow.Unborrowed?
    ensures Fine(m, ExecCall(m, c))
    decreases CallWeight(c), 0
  {
    match c
    case WindowOp(w) => HandleFine(m, ToWindow(w, Plain));
    case RunOnMain(body) => HandleFine(m, Task(body));
    case CreateWindow(w, child, after, built) => HandleFine(m, NewWindow(w, child, after, built));
    case CreateWebview(w, v, built) => HandleFine(m, NewWebview(w, v, built));
    case WebviewOp(v) => OnCellFine(m, v, ViewPlain);
    case CloseView(v) => OnCellFine(m, v, ViewClose);
    case WithWebview(v, body) => OnCellFine(m, v, With(body));
    case ReparentView(v, target, native) => OnCellFine(m, v, Move(target, native));
    case _ =>
  }

  lemma {:induction false} OnCellFine(m: Machine, v: WebviewId, op: ViewMsg)
    requires m.borrow.Unborrowed? && !op.AddViewListener?
    ensures Fine(m, OnCell(m, v, op))
    decreases MsgWeight(ToView(0, v, op)), 4
  {
    if v in m.cells && v !in m.cellsHeld {
      HandleFine(m.(cellsHeld := m.cellsHeld + {v}), ToView(m.cells[v], v, op));
    }
  }

  lemma {:induction false} HandleFine(m: Machine, msg: Msg)
    requires m.borrow.Unborrowed? && Direct(msg)
    ensures Fine(m, Handle(m, msg))
    decreases MsgWeight(msg), 3
  {
    match msg
    case Task(body) => RunUserFine(m, body);
    case NewWindow(w, child, after, built) => RunUserFine(m, after);
    case ToView(w, v, With(body)) =>
      var m2 := EndRead(m.(borrow := Reading(1)));
      RunUserFine(m2, body);
    case _ => PlainOnlyStore(m, msg);
  }

  // ---- the whole loop ----

  ghost predicate LocksFree(m: Machine) {
    m.borrow.Unborrowed? && m.locked == {} && m.cellsHeld == {} && !m.callbackBusy
  }

  lemma CallbackFine(m: Machine, body: seq<Call>)
    requires m.borrow.Unborrowed? && !m.callbackBusy
    ensures Fine(m, RunCallback(m, body))
  {
    RunUserFine(m.(callbackBusy := true), body);
  }

  lemma {:induction false} RunAllFine(m: Machine, bodies: seq<seq<Call>>)
    requires m.borrow.Unborrowed?
    ensures Fine(m, RunAll(m, bodies))
    decreases |bodies|
  {
    if bodies != [] {
      RunUserFine(m, bodies[0]);
      var o := RunUser(m, bodies[0]);
      if o.Done? { RunAllFine(o.m, bodies[1..]); }
    }
  }

  lemma AnnounceFine(m: Machine, t: Table, callback: seq<Call>)
    requires LocksFree(m)
    ensures Fine(m, Announce(m, t, callback))
  {
    CallbackFine(m, callback);
    var o := RunCallback(m, callback);
    if o.Done? {
      var m2 := o.m.(locked := o.m.locked + {t});
      RunAllFine(m2, ListenersOf(m2, t));
    }
  }

  lemma CloseFine(m: Machine, w: WindowId, callback: seq<Call>, prevented: bool)
    requires LocksFree(m)
    ensures Fine(m, OnCloseRequested(m, w, callback, prevented))
  {
    var m2 := EndRead(m.(borrow := Reading(1)));
    if w in m2.store {
      var m3 := m2.(locked := m2.locked + {OfWindow(w)});
      RunAllFine(m3, ListenersOf(m3, OfWindow(w)));
      var o := RunAll(m3, ListenersOf(m3, OfWindow(w)));
      if o.Done? { CallbackFine(o.m, callback); }
    }
  }

  lemma QueuedFine(m: Machine, msg: Msg, callback: seq<Call>, prevented: bool)
    requires LocksFree(m)
    ensures Fine(m, HandleQueued(m, msg, callback, prevented))
  {
    var m2 := EndRead(m.(borrow := Reading(1)));
    match msg
    case ToView(w, v, ViewEvent) => AnnounceFine(m2, OfView(v), callback);
    case ToView(w, v, Synthesized) => AnnounceFine(m2, OfWindow(w), callback);
    case ToView(w, v, AddViewListener(_)) =>
    case ToWindow(w, Close) => CloseFine(m, w, callback, prevented);
    case ToWindow(w, AddListener(_)) =>
    case ToWindow(w, Destroy) =>
    case Exit => CallbackFine(m, callback);
    case UserEvent => CallbackFine(m, callback);
    case _ => HandleFine(m, msg);
  }

  lemma NativeFine(m: Machine, e: Event)
    requires LocksFree(m) && e.Native?
    ensures Fine(m, HandleNative(m, e))
  {
    var m2 := EndRead(m.(borrow := Reading(1)));
    assert LocksFree(m2);
    AnnounceFine(m2, OfWindow(e.w), e.callback);
    var o := if e.reported && e.w in m2.store then Announce(m2, OfWindow(e.w), e.callback) else Done(m2);
    if o.Done? {
      assert LocksFree(o.m);
      match e.kind {
        case CloseRequested => CloseFine(o.m, e.w, e.second, e.prevented);
        case Destroyed =>
          var m4 := EndWrite(o.m.(borrow := Writing, store := RemoveWindow(o.m.store, e.w)));
          var m6 := EndRead(m4.(borrow := Reading(1)));
          CallbackFine(m6, e.second);
        case _ =>
      }
    }
  }

  /**
    Whatever user code does, no event ends in a borrow conflict, in user code running under a borrow
    of the store, in a re-entered callback, in a listener mutex taken twice or in a handler panic;
    and every event leaves all locks free. What can go wrong is a cell taken twice, or a reparent onto
    a window that is not open.
   */
  lemma {:induction false} OnlyCellsRelock(m: Machine, es: seq<Event>)
    requires LocksFree(m)
    ensures match HandleAll(m, es)
            case Done(m') => LocksFree(m')
            case Faulted(f) => f.CellRelocked? || f.ReplyDropped?
    decreases |es|
  {
    if es != [] {
      match es[0] {
        case Lifecycle(callback) => CallbackFine(m, callback);
        case FromWorker(msg) =>
        case Queued(callback, prevented) =>
          if m.queue != [] { QueuedFine(m.(queue := m.queue[1..]), m.queue[0], callback, prevented); }
        case Native(_, _, _, _, _, _) => NativeFine(m, es[0]);
      }
      var o := HandleEvent(m, es[0]);
      if o.Done? { OnlyCellsRelock(o.m, es[1..]); }
    }
  }
}
