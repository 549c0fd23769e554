/**
  The wry runtime as a transition system: any number of worker threads and the main thread call the
  dispatchers, messages travel through the event loop proxy, and the main thread handles one
  message or native event at a time. Calls made on the main thread (from callbacks, listeners and
  tasks) are handled synchronously and may happen between any two steps.

  A label fixes every choice the code does not make itself: which thread moves, what native calls
  return, what user code does.
 */
module Runtime {
  import opened Wrappers
  import opened WindowStore
  import opened Handlers

  /** Ids come from `AtomicU32` counters that start at zero and wrap. */
  const WRAP: nat := 0x1_0000_0000

  datatype Tid = Main | Worker(id: nat)

  /**
    The `Arc<Mutex<WindowId>>` cells. A webview made by `create_webview` shares one cell between its
    dispatchers and its native handlers; a webview built together with its window has two.
   */
  datatype CellId = Shared(v: WebviewId) | Dispatcher(v: WebviewId) | Ipc(v: WebviewId)

  datatype Lock = Free | HeldBy(t: Tid) | Poisoned

  datatype Cell = Cell(window: WindowId, lock: Lock)

  datatype Creation = NewWindow(w: WindowId, child: Option<WebviewId>) | NewWebview(w: WindowId, v: WebviewId)

  datatype Msg =
    | Create(creation: Creation)
    | Move(w: WindowId, v: WebviewId, target: WindowId, from: Tid)
    | CloseView(w: WindowId, v: WebviewId)
    | CloseWindow(w: WindowId)
    | DestroyWindow(w: WindowId)
    | RequestExit(code: int)
    | Other

  datatype Phase = Locked | Waiting | Replied(reply: Reply)

  /** Where a thread stands inside a dispatcher call. */
  datatype Thread =
    | Idle
    | NamedWindow(w: WindowId)
    | Sending(creation: Creation)
    | Reparenting(cell: CellId, target: WindowId, phase: Phase)
    | Panicked

  /** Where the main thread stands inside an event: `votes` counts the prevent calls so far. */
  datatype Pc = Top | Closing(w: WindowId, votes: nat) | ExitAsked(code: Option<int>, votes: nat)

  datatype State = State(
    store: Store,
    tao: map<nat, WindowId>,
    queue: seq<Msg>,
    windowsIssued: nat,
    webviewsIssued: nat,
    cells: map<CellId, Cell>,
    threads: map<Tid, Thread>,
    pc: Pc,
    control: ControlFlow)

  datatype Label =
    | CreateWindowCall(t: Tid, withWebview: bool)
    | NameChild(t: Tid)
    | CreateWebviewCall(t: Tid, w: WindowId)
    | SendCreate(t: Tid, built: bool, tao: nat)
    | SendCreateFails(t: Tid)
    | LockCell(t: Tid, cell: CellId, target: WindowId)
    | SendMove(t: Tid, native: bool)
    | SendMoveFails(t: Tid)
    | Receive(t: Tid)
    | Post(t: Tid, msg: Msg)
    | PostCloseView(t: Tid, cell: CellId)
    | Dequeue(ok: bool, tao: nat)
    | NativeCloseRequested(tao: nat)
    | NativeDestroyed(tao: nat)
    | Vote
    | Decide

  function ThreadOf(s: State, t: Tid): Thread {
    if t in s.threads then s.threads[t] else Idle
  }

  function WithThread(s: State, t: Tid, th: Thread): State {
    s.(threads := s.threads[t := th])
  }

  function WithLock(s: State, cell: CellId, lock: Lock): State
    requires cell in s.cells
  {
    s.(cells := s.cells[cell := s.cells[cell].(lock := lock)])
  }

  function Initial(): State {
    State(map[], map[], [], 0, 0, map[], map[], Top, Poll)
  }

  predicate Enabled(s: State, l: Label) {
    match l
    case CreateWindowCall(t, _) => ThreadOf(s, t).Idle?
    case NameChild(t) => ThreadOf(s, t).NamedWindow?
    case CreateWebviewCall(t, _) => ThreadOf(s, t).Idle?
    case SendCreate(t, _, _) => ThreadOf(s, t).Sending?
    case SendCreateFails(t) => t != Main && ThreadOf(s, t).Sending?
    case LockCell(t, cell, _) => ThreadOf(s, t).Idle? && cell in s.cells && s.cells[cell].lock.Free?
    case SendMove(t, _) =>
      var th := ThreadOf(s, t);
      th.Reparenting? && th.phase.Locked? && th.cell in s.cells
    case SendMoveFails(t) =>
      var th := ThreadOf(s, t);
      t != Main && th.Reparenting? && th.phase.Locked? && th.cell in s.cells
    case Receive(t) =>
      var th := ThreadOf(s, t);
      th.Reparenting? && th.phase.Replied? && th.cell in s.cells
    case Post(t, msg) =>
      ThreadOf(s, t).Idle? && (msg.CloseWindow? || msg.DestroyWindow? || msg.RequestExit? || msg.Other?)
    case PostCloseView(t, cell) => ThreadOf(s, t).Idle? && cell in s.cells && s.cells[cell].lock.Free?
    case Dequeue(_, _) => s.pc.Top? && ThreadOf(s, Main).Idle? && s.queue != []
    case NativeCloseRequested(_) => s.pc.Top? && ThreadOf(s, Main).Idle?
    case NativeDestroyed(_) => s.pc.Top? && ThreadOf(s, Main).Idle?
    case Vote => !s.pc.Top?
    case Decide => !s.pc.Top? && ThreadOf(s, Main).Idle?
  }

  /** `handle_user_message` on a creation: the closure builds, then the store is updated. */
  function HandleCreate(s: State, c: Creation, built: bool, tao: nat): State {
    match c
    case NewWindow(w, child) =>
      var named := s.(tao := s.tao[tao := w]);
      if !built then named
      else match child {
        case None => named.(store := InsertWindow(s.store, w, []))
        case Some(v) => named.(store := InsertWindow(s.store, w, [v]), cells := s.cells[Ipc(v) := Cell(w, Free)])
      }
    case NewWebview(w, v) =>
      if built then s.(store := AddWebview(s.store, w, v)) else s
  }

  /** The cell of the dispatcher that a creation call hands back to its caller. */
  function HandOut(s: State, c: Creation): State {
    match c
    case NewWindow(_, None) => s
    case NewWindow(w, Some(v)) => s.(cells := s.cells[Dispatcher(v) := Cell(w, Free)])
    case NewWebview(w, v) => s.(cells := s.cells[Shared(v) := Cell(w, Free)])
  }

  /** The store is borrowed, the webview moved and the caller answered. */
  function HandleMove(s: State, w: WindowId, v: WebviewId, th: Thread, from: Tid, native: bool): State
    requires th.Reparenting?
  {
    var (store, reply) := Reparent(s.store, w, v, th.target, native);
    WithThread(s.(store := store), from, th.(phase := Replied(reply)))
  }

  function BeginEvent(s: State): State {
    s.(control := if s.control.Exit? then Exit else Wait)
  }

  function AskClose(s: State, w: WindowId): State {
    if w in s.store then s.(pc := Closing(w, 0)) else s
  }

  function HandleQueued(s: State, m: Msg, ok: bool, tao: nat): State {
    match m
    case Create(c) => HandleCreate(s, c, ok, tao)
    case Move(w, v, target, from) =>
      var th := ThreadOf(s, from);
      if th.Reparenting? then HandleMove(s, w, v, th.(target := target), from, ok) else s
    case CloseView(w, v) => s.(store := CloseWebview(s.store, w, v))
    case CloseWindow(w) => AskClose(s, w)
    case DestroyWindow(w) => s.(store := DropHandle(s.store, w))
    case RequestExit(code) => s.(pc := ExitAsked(Some(code), 0))
    case Other => s
  }

  function Destroyed(s: State, w: WindowId): State {
    var store := RemoveWindow(s.store, w);
    var s' := s.(store := store);
    if w in s.store && store == map[] then s'.(pc := ExitAsked(None, 0)) else s'
  }

  predicate Creating(l: Label) {
    l.CreateWindowCall? || l.NameChild? || l.CreateWebviewCall? || l.SendCreate? || l.SendCreateFails?
  }

  predicate Moving(l: Label) {
    l.LockCell? || l.SendMove? || l.SendMoveFails? || l.Receive?
  }

  predicate Posting(l: Label) {
    l.Post? || l.PostCloseView?
  }

  function Apply(s: State, l: Label): State
    requires Enabled(s, l)
  {
    if Creating(l) then ApplyCreating(s, l)
    else if Moving(l) then ApplyMoving(s, l)
    else if Posting(l) then ApplyPosting(s, l)
    else if l.Dequeue? then ApplyDequeue(s, l)
    else ApplyEvent(s, l)
  }

  /** Steps of `create_window` and `create_webview`: name the ids, then send the creation. */
  function ApplyCreating(s: State, l: Label): State
    requires Enabled(s, l) && Creating(l)
  {
    match l
    case CreateWindowCall(t, withWebview) =>
      var w := s.windowsIssued % WRAP;
      WithThread(s.(windowsIssued := s.windowsIssued + 1), t,
                 if withWebview then NamedWindow(w) else Sending(NewWindow(w, None)))
    case NameChild(t) =>
      WithThread(s.(webviewsIssued := s.webviewsIssued + 1), t,
                 Sending(NewWindow(ThreadOf(s, t).w, Some(s.webviewsIssued % WRAP))))
    case CreateWebviewCall(t, w) =>
      WithThread(s.(webviewsIssued := s.webviewsIssued + 1), t,
                 Sending(NewWebview(w, s.webviewsIssued % WRAP)))
    case SendCreate(t, built, tao) =>
      var c := ThreadOf(s, t).creation;
      var sent := if t == Main then HandleCreate(s, c, built, tao) else s.(queue := s.queue + [Create(c)]);
      WithThread(HandOut(sent, c), t, Idle)
    case SendCreateFails(t) => WithThread(s, t, Idle)
  }

  /** Steps of the caller's half of `reparent`: lock, send, receive, rewrite the cell. */
  function ApplyMoving(s: State, l: Label): State
    requires Enabled(s, l) && Moving(l)
  {
    match l
    case LockCell(t, cell, target) =>
      WithThread(WithLock(s, cell, HeldBy(t)), t, Reparenting(cell, target, Locked))
    case SendMove(t, native) =>
      var th := ThreadOf(s, t);
      var w := s.cells[th.cell].window;
      if t == Main then HandleMove(s, w, th.cell.v, th, t, native)
      else WithThread(s.(queue := s.queue + [Move(w, th.cell.v, th.target, t)]), t, th.(phase := Waiting))
    case SendMoveFails(t) => WithThread(WithLock(s, ThreadOf(s, t).cell, Free), t, Idle)
    case Receive(t) =>
      var th := ThreadOf(s, t);
      match th.phase.reply {
        case Moved => WithThread(s.(cells := s.cells[th.cell := Cell(th.target, Free)]), t, Idle)
        case Failed => WithThread(WithLock(s, th.cell, Free), t, Idle)
        case Dropped => WithThread(WithLock(s, th.cell, Poisoned), t, Panicked)
      }
  }

  function ApplyPosting(s: State, l: Label): State
    requires Enabled(s, l) && Posting(l)
  {
    match l
    case Post(_, msg) => s.(queue := s.queue + [msg])
    case PostCloseView(t, cell) =>
      var w := s.cells[cell].window;
      if t == Main then s.(store := CloseWebview(s.store, w, cell.v))
      else s.(queue := s.queue + [CloseView(w, cell.v)])
  }

  function ApplyDequeue(s: State, l: Label): State
    requires Enabled(s, l) && l.Dequeue?
  {
    HandleQueued(BeginEvent(s).(queue := s.queue[1..]), s.queue[0], l.ok, l.tao)
  }

  /** Native events, and the votes and the decision of a close or exit request. */
  function ApplyEvent(s: State, l: Label): State
    requires l.NativeCloseRequested? || l.NativeDestroyed? || l.Vote? || l.Decide?
  {
    match l
    case NativeCloseRequested(tao) =>
      if tao in s.tao then AskClose(BeginEvent(s), s.tao[tao]) else BeginEvent(s)
    case NativeDestroyed(tao) =>
      if tao in s.tao then Destroyed(BeginEvent(s), s.tao[tao]) else BeginEvent(s)
    case Vote =>
      match s.pc {
        case Closing(w, n) => s.(pc := Closing(w, n + 1))
        case ExitAsked(code, n) => s.(pc := ExitAsked(code, n + 1))
        case Top => s
      }
    case Decide =>
      match s.pc {
        case Closing(w, n) => s.(pc := Top, store := if n == 0 then DropHandle(s.store, w) else s.store)
        case ExitAsked(_, n) => s.(pc := Top, control := if n == 0 then Exit else s.control)
        case Top => s
      }
  }

  // ---- runs ----

  /** `states` and `labels` record a run from the initial state. */
  ghost predicate IsRun(states: seq<State>, labels: seq<Label>) {
    && |states| == |labels| + 1
    && states[0] == Initial()
    && forall i :: 0 <= i < |labels| ==> StepAt(states, labels, i)
  }

  ghost predicate StepAt(states: seq<State>, labels: seq<Label>, i: nat)
    requires i < |labels| < |states|
  {
    Enabled(states[i], labels[i]) && states[i + 1] == Apply(states[i], labels[i])
  }

  /** Fewer than 2^32 creations of each kind so far (the last id issued is still unwrapped). */
  predicate Unwrapped(s: State) {
    s.windowsIssued <= WRAP && s.webviewsIssued <= WRAP
  }
}
