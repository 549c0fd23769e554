/**
  What one step of the runtime does, completely: which windows are in the store, which of them are open,
  which webviews each lists, which cells there are and what they name, and what is in the queue, said
  from the step and the state before it and not from the handlers. And what follows over runs.
 */
module Effects {
  import opened Wrappers
  import opened WindowStore
  import opened Runtime
  import opened Ownership
  import opened Runs
  import opened Lifecycle

  // ---- what a step handles ----

  /** The creation whose native part succeeds in this step. */
  function Builds(s: State, l: Label): Option<Creation> {
    if l.SendCreate? && l.t == Main && ThreadOf(s, Main).Sending? && l.built then Some(ThreadOf(s, Main).creation)
    else if l.Dequeue? && s.queue != [] && s.queue[0].Create? && l.ok then Some(s.queue[0].creation)
    else None
  }

  datatype MoveRequest = MoveRequest(w: WindowId, v: WebviewId, target: WindowId, native: bool)

  function Moves(s: State, l: Label): Option<MoveRequest>
    requires Enabled(s, l)
  {
    if l.SendMove? && l.t == Main then
      var th := ThreadOf(s, Main);
      Some(MoveRequest(s.cells[th.cell].window, th.cell.v, th.target, l.native))
    else if l.Dequeue? && s.queue[0].Move? then
      Some(MoveRequest(s.queue[0].w, s.queue[0].v, s.queue[0].target, l.ok))
    else None
  }

  /** The step handles a request to close `v` in `w`. */
  predicate ClosesView(s: State, l: Label, w: WindowId, v: WebviewId)
    requires Enabled(s, l)
  {
    || (l.PostCloseView? && l.t == Main && l.cell.v == v && s.cells[l.cell].window == w)
    || (l.Dequeue? && s.queue[0] == CloseView(w, v))
  }

  predicate BuildsWindow(s: State, l: Label, w: WindowId) {
    Builds(s, l).Some? && Builds(s, l).value.NewWindow? && Builds(s, l).value.w == w
  }

  /** A webview comes with its window, or into a window that is open. */
  predicate BuildsView(s: State, l: Label, w: WindowId, v: WebviewId) {
    Builds(s, l) == Some(NewWindow(w, Some(v))) || (Builds(s, l) == Some(NewWebview(w, v)) && IsOpen(s.store, w))
  }

  predicate ClosesWindow(s: State, l: Label, w: WindowId) {
    (l.Decide? && s.pc == Closing(w, 0)) || (l.Dequeue? && s.queue != [] && s.queue[0] == DestroyWindow(w))
  }

  predicate RemovesWindow(s: State, l: Label, w: WindowId) {
    l.NativeDestroyed? && l.tao in s.tao && s.tao[l.tao] == w
  }

  /** The webview leaves the window: a move takes it, or a close of an open window. */
  predicate TakesView(s: State, l: Label, w: WindowId, v: WebviewId)
    requires Enabled(s, l)
  {
    || (Moves(s, l).Some? && Moves(s, l).value.w == w && Moves(s, l).value.v == v)
    || (ClosesView(s, l, w, v) && IsOpen(s.store, w))
  }

  /** The webview arrives: the platform moved it out of the window that held it into one that is open. */
  predicate PutsView(s: State, l: Label, w: WindowId, v: WebviewId)
    requires Enabled(s, l)
  {
    && Moves(s, l).Some? && IsOpen(s.store, w)
    && var m := Moves(s, l).value; m.target == w && m.v == v && m.native && Lists(s.store, m.w, v)
  }

  // ---- the store ----

  ghost predicate WindowsAre(s: State, l: Label, store: Store) {
    forall w :: w in store <==> (w in s.store && !RemovesWindow(s, l, w)) || BuildsWindow(s, l, w)
  }

  ghost predicate OpenAre(s: State, l: Label, store: Store) {
    forall w :: IsOpen(store, w) <==>
      (IsOpen(s.store, w) && !ClosesWindow(s, l, w) && !RemovesWindow(s, l, w)) || BuildsWindow(s, l, w)
  }

  ghost predicate ListsAre(s: State, l: Label, store: Store)
    requires Enabled(s, l)
  {
    forall w, v :: Lists(store, w, v) <==>
      || (Lists(s.store, w, v) && !TakesView(s, l, w, v) && !RemovesWindow(s, l, w))
      || BuildsView(s, l, w, v) || PutsView(s, l, w, v)
  }

  ghost predicate Exactly(s: State, l: Label, store: Store)
    requires Enabled(s, l)
  {
    WindowsAre(s, l, store) && OpenAre(s, l, store) && ListsAre(s, l, store)
  }

  /** The step leaves windows alone: nothing is built, closed or removed. */
  ghost predicate KeepsWindows(s: State, l: Label) {
    Builds(s, l) == None && forall w :: !ClosesWindow(s, l, w) && !RemovesWindow(s, l, w)
  }

  lemma SameWindows(s: State, l: Label, store: Store)
    requires KeepsWindows(s, l) && store.Keys == s.store.Keys && forall w :: w in store ==> store[w].open == s.store[w].open
    ensures WindowsAre(s, l, store) && OpenAre(s, l, store)
  {
    assert forall w :: w in store <==> w in s.store;
  }

  lemma IdleExactly(s: State, l: Label)
    requires Enabled(s, l) && KeepsWindows(s, l) && Moves(s, l) == None && forall w, v :: !ClosesView(s, l, w, v)
    ensures Exactly(s, l, s.store)
  {
    SameWindows(s, l, s.store);
  }

  /** What a step that handles a creation does to a store in which its window is not yet. */
  lemma CreateExactly(s: State, c: Creation, slot: Slot, built: bool, tao: nat)
    requires Distinct(s) && PendingAt(s, slot) == Some(c)
    ensures var store := HandleCreate(s, c, built, tao).store;
            && (forall w :: w in store <==> w in s.store || (built && c.NewWindow? && c.w == w))
            && (forall w :: IsOpen(store, w) <==> IsOpen(s.store, w) || (built && c.NewWindow? && c.w == w))
            && (forall w, v :: Lists(store, w, v) <==>
                  || Lists(s.store, w, v)
                  || (built && (c == NewWindow(w, Some(v)) || (c == NewWebview(w, v) && IsOpen(s.store, w)))))
  {
    match c
    case NewWindow(w, child) => assert PendingWindow(s, slot, w);
    case NewWebview(w, v) =>
      assert PendingView(s, slot, v);
      AddWebviewUnique(s.store, w, v);
  }

  lemma BuildLists(s: State, l: Label, c: Creation, slot: Slot, built: bool, tao: nat)
    requires Distinct(s) && Enabled(s, l) && PendingAt(s, slot) == Some(c) && Builds(s, l) == (if built then Some(c) else None)
    requires Moves(s, l) == None && (forall w, v :: !ClosesView(s, l, w, v)) && forall w :: !RemovesWindow(s, l, w)
    ensures ListsAre(s, l, HandleCreate(s, c, built, tao).store)
  {
    CreateExactly(s, c, slot, built, tao);
  }

  lemma BuildExactly(s: State, l: Label, c: Creation, slot: Slot, built: bool, tao: nat)
    requires Distinct(s) && Enabled(s, l) && PendingAt(s, slot) == Some(c) && Builds(s, l) == (if built then Some(c) else None)
    requires Moves(s, l) == None && (forall w, v :: !ClosesView(s, l, w, v))
    requires forall w :: !ClosesWindow(s, l, w) && !RemovesWindow(s, l, w)
    ensures Exactly(s, l, HandleCreate(s, c, built, tao).store)
  {
    BuildLists(s, l, c, slot, built, tao);
    CreateExactly(s, c, slot, built, tao);
  }

  lemma ExactlyCreating(s: State, l: Label)
    requires Distinct(s) && Enabled(s, l) && Creating(l)
    ensures Exactly(s, l, ApplyCreating(s, l).store)
  {
    if l.SendCreate? && l.t == Main {
      var c := ThreadOf(s, Main).creation;
      BuildExactly(s, l, c, Held(Main), l.built, l.tao);
      assert ApplyCreating(s, l).store == HandleCreate(s, c, l.built, l.tao).store;
    } else {
      assert ApplyCreating(s, l).store == s.store;
      IdleExactly(s, l);
    }
  }

  lemma MoveLists(s: State, l: Label, m: MoveRequest)
    requires Distinct(s) && Enabled(s, l) && Moves(s, l) == Some(m) && KeepsWindows(s, l)
    requires forall w, v :: !ClosesView(s, l, w, v)
    ensures ListsAre(s, l, Reparent(s.store, m.w, m.v, m.target, m.native).0)
  {
    ReparentUnique(s.store, m.w, m.v, m.target, m.native);
    ReparentConserves(s.store, m.w, m.v, m.target, m.native);
  }

  lemma MoveExactly(s: State, l: Label, m: MoveRequest)
    requires Distinct(s) && Enabled(s, l) && Moves(s, l) == Some(m)
    ensures Exactly(s, l, Reparent(s.store, m.w, m.v, m.target, m.native).0)
  {
    assert KeepsWindows(s, l);
    MoveLists(s, l, m);
    ReparentUnique(s.store, m.w, m.v, m.target, m.native);
    SameWindows(s, l, Reparent(s.store, m.w, m.v, m.target, m.native).0);
  }

  lemma ExactlyMoving(s: State, l: Label)
    requires Distinct(s) && Enabled(s, l) && Moving(l)
    ensures Exactly(s, l, ApplyMoving(s, l).store)
  {
    if l.SendMove? && l.t == Main {
      var m := Moves(s, l).value;
      MoveExactly(s, l, m);
      assert ApplyMoving(s, l).store == Reparent(s.store, m.w, m.v, m.target, m.native).0;
    } else {
      assert ApplyMoving(s, l).store == s.store;
      IdleExactly(s, l);
    }
  }

  lemma CloseExactly(s: State, l: Label, w: WindowId, v: WebviewId)
    requires Distinct(s) && Enabled(s, l) && ClosesView(s, l, w, v)
    ensures Exactly(s, l, CloseWebview(s.store, w, v))
  {
    CloseWebviewUnique(s.store, w, v);
    SameWindows(s, l, CloseWebview(s.store, w, v));
  }

  lemma ExactlyPosting(s: State, l: Label)
    requires Distinct(s) && Enabled(s, l) && Posting(l)
    ensures Exactly(s, l, ApplyPosting(s, l).store)
  {
    if l.PostCloseView? && l.t == Main {
      CloseExactly(s, l, s.cells[l.cell].window, l.cell.v);
    } else {
      assert ApplyPosting(s, l).store == s.store;
      IdleExactly(s, l);
    }
  }

  lemma DropExactly(s: State, l: Label, w: WindowId)
    requires Distinct(s) && Enabled(s, l) && ClosesWindow(s, l, w)
    ensures Exactly(s, l, DropHandle(s.store, w))
  {
    DropHandleEffect(s.store, w);
  }

  lemma ExactlyCreate(s: State, l: Label)
    requires Distinct(s) && Enabled(s, l) && l.Dequeue? && s.queue[0].Create?
    ensures Exactly(s, l, ApplyDequeue(s, l).store)
  {
    var c := s.queue[0].creation;
    BuildExactly(s, l, c, Queued(0), l.ok, l.tao);
    assert ApplyDequeue(s, l).store == HandleCreate(s, c, l.ok, l.tao).store;
  }

  lemma ExactlyMove(s: State, l: Label)
    requires Distinct(s) && Enabled(s, l) && l.Dequeue? && s.queue[0].Move? && InFlight(s, s.queue[0])
    ensures Exactly(s, l, ApplyDequeue(s, l).store)
  {
    var m := s.queue[0];
    MoveExactly(s, l, MoveRequest(m.w, m.v, m.target, l.ok));
    assert ApplyDequeue(s, l).store == Reparent(s.store, m.w, m.v, m.target, l.ok).0;
  }

  lemma ExactlyDequeue(s: State, l: Label)
    requires Distinct(s) && MovesInFlight(s) && Enabled(s, l) && l.Dequeue?
    ensures Exactly(s, l, ApplyDequeue(s, l).store)
  {
    if s.queue[0].Create? { ExactlyCreate(s, l); }
    else if s.queue[0].Move? { ExactlyMove(s, l); }
    else { ExactlyOther(s, l); }
  }

  lemma ExactlyOther(s: State, l: Label)
    requires Distinct(s) && Enabled(s, l) && l.Dequeue? && !s.queue[0].Create? && !s.queue[0].Move?
    ensures Exactly(s, l, ApplyDequeue(s, l).store)
  {
    var m := s.queue[0];
    if m.CloseView? {
      CloseExactly(s, l, m.w, m.v);
      assert ApplyDequeue(s, l).store == CloseWebview(s.store, m.w, m.v);
    } else if m.DestroyWindow? {
      DropExactly(s, l, m.w);
      assert ApplyDequeue(s, l).store == DropHandle(s.store, m.w);
    } else {
      assert ApplyDequeue(s, l).store == s.store;
      IdleExactly(s, l);
    }
  }

  lemma RemoveExactly(s: State, l: Label, w: WindowId)
    requires Distinct(s) && Enabled(s, l) && RemovesWindow(s, l, w)
    ensures Exactly(s, l, RemoveWindow(s.store, w))
  {
    RemoveEffect(s.store, w);
  }

  lemma ExactlyEvent(s: State, l: Label)
    requires Distinct(s) && Enabled(s, l) && !Creating(l) && !Moving(l) && !Posting(l) && !l.Dequeue?
    ensures Exactly(s, l, ApplyEvent(s, l).store)
  {
    if l.NativeDestroyed? && l.tao in s.tao {
      RemoveExactly(s, l, s.tao[l.tao]);
      assert ApplyEvent(s, l).store == RemoveWindow(s.store, s.tao[l.tao]);
    } else if l.Decide? && s.pc.Closing? && s.pc.votes == 0 {
      DropExactly(s, l, s.pc.w);
    } else {
      assert ApplyEvent(s, l).store == s.store;
      IdleExactly(s, l);
    }
  }

  /**
    The windows in the store, the open ones among them and every listing after a step are exactly those
    that follow from what was there and from what the step builds, closes, removes, takes and puts.
   */
  lemma StoreExactly(s: State, l: Label)
    requires Inv(s) && Enabled(s, l)
    ensures Exactly(s, l, Apply(s, l).store)
  {
    if Creating(l) { ExactlyCreating(s, l); }
    else if Moving(l) { ExactlyMoving(s, l); }
    else if Posting(l) { ExactlyPosting(s, l); }
    else if l.Dequeue? { ExactlyDequeue(s, l); }
    else { ExactlyEvent(s, l); }
  }

  // ---- over runs ----

  /**
    A handled close of a webview that the named, open window lists leaves the webview in no window for
    the rest of the run.
   */
  lemma ClosedViewIsGone(states: seq<State>, labels: seq<Label>, i: nat, j: nat, w: WindowId, v: WebviewId)
    requires IsRun(states, labels) && Unwrapped(states[|labels|]) && i < j <= |labels|
    requires Enabled(states[i], labels[i]) && ClosesView(states[i], labels[i], w, v)
    requires IsOpen(states[i].store, w) && Lists(states[i].store, w, v)
    ensures Gone(states[j], v)
  {
    var s, l, s' := states[i], labels[i], states[i + 1];
    RunInv(states, labels, i);
    assert StepAt(states, labels, i);
    StoreExactly(s, l);
    CountersGrow(s, l);
    forall u ensures !Lists(s'.store, u, v) { assert Lists(s.store, u, v) ==> u == w; }
    forall a ensures !PendingView(s', a, v) { PendingSource(s, l, a); }
    GoneForever(states, labels, i + 1, j, v);
  }

  /** A close of a webview in a closed or missing window, or of one not listed there, changes nothing in the store. */
  lemma OtherCloseIsIdle(s: State, l: Label, w: WindowId, v: WebviewId)
    requires Inv(s) && Enabled(s, l) && ClosesView(s, l, w, v) && !(IsOpen(s.store, w) && Lists(s.store, w, v))
    ensures forall u :: (u in Apply(s, l).store <==> u in s.store) && (IsOpen(Apply(s, l).store, u) <==> IsOpen(s.store, u))
    ensures forall u, x :: Lists(Apply(s, l).store, u, x) <==> Lists(s.store, u, x)
  {
    StoreExactly(s, l);
  }

  /** A destroy message costs a listed window its handle at once and for good, without any vote. */
  lemma DestroyClosesForGood(states: seq<State>, labels: seq<Label>, i: nat, j: nat, w: WindowId)
    requires IsRun(states, labels) && Unwrapped(states[|labels|]) && i < j <= |labels|
    requires labels[i].Dequeue? && states[i].queue != [] && states[i].queue[0] == DestroyWindow(w) && w in states[i].store
    ensures !IsOpen(states[j].store, w)
  {
    RunInv(states, labels, i);
    assert StepAt(states, labels, i);
    StoreExactly(states[i], labels[i]);
    assert w in states[i + 1].store && !IsOpen(states[i + 1].store, w);
    HandleNeverReturns(states, labels, i + 1, j, w);
  }

  // ---- cells ----

  /** The cells a step hands out: to the caller of a creation, and to the native handlers of a webview built with its window. */
  predicate HandsOut(s: State, l: Label, c: CellId) {
    || (l.SendCreate? && ThreadOf(s, l.t).Sending? &&
        match ThreadOf(s, l.t).creation
        case NewWindow(_, child) => c.Dispatcher? && child == Some(c.v)
        case NewWebview(_, v) => c == Shared(v))
    || (c.Ipc? && Builds(s, l).Some? && Builds(s, l).value.NewWindow? && Builds(s, l).value.child == Some(c.v))
  }

  /** The window of the creation a step hands a cell out for. */
  function NamedIn(s: State, l: Label): WindowId {
    if l.SendCreate? && ThreadOf(s, l.t).Sending? then ThreadOf(s, l.t).creation.w
    else if Builds(s, l).Some? then Builds(s, l).value.w else 0
  }

  /** The step is the return of a move through `c` that was answered `Ok`. */
  predicate Rewrites(s: State, l: Label, c: CellId) {
    l.Receive? && ThreadOf(s, l.t).Reparenting? && ThreadOf(s, l.t).cell == c && ThreadOf(s, l.t).phase == Replied(Moved)
  }

  ghost predicate CellsAre(s: State, l: Label, cells: map<CellId, Cell>) {
    && (forall c :: c in cells <==> c in s.cells || HandsOut(s, l, c))
    && (forall c :: c in cells ==>
          cells[c].window == (if c !in s.cells then NamedIn(s, l)
                              else if Rewrites(s, l, c) then ThreadOf(s, l.t).target
                              else s.cells[c].window))
  }

  lemma CellsSend(s: State, l: Label)
    requires CellsApart(s) && Enabled(s, l) && l.SendCreate?
    ensures CellsAre(s, l, ApplyCreating(s, l).cells)
  {
    var s' := ApplyCreating(s, l);
    forall c | c in s.cells ensures c in s'.cells && s'.cells[c] == s.cells[c] { CellsKeptCreating(s, l, c); }
  }

  lemma CellsDequeue(s: State, l: Label)
    requires CellsApart(s) && Enabled(s, l) && l.Dequeue?
    ensures CellsAre(s, l, ApplyDequeue(s, l).cells)
  {
    var s' := ApplyDequeue(s, l);
    forall c | c in s.cells ensures c in s'.cells && s'.cells[c] == s.cells[c] { CellsKeptDequeue(s, l, c); }
    QueuedFrame(BeginEvent(s).(queue := s.queue[1..]), s.queue[0], l.ok, l.tao);
  }

  /** The cells after a step and the windows they name are exactly those that follow from what it hands out and rewrites. */
  lemma CellsExactly(s: State, l: Label)
    requires Inv(s) && Enabled(s, l)
    ensures CellsAre(s, l, Apply(s, l).cells)
  {
    if l.SendCreate? { CellsSend(s, l); }
    else if Creating(l) { assert ApplyCreating(s, l).cells == s.cells; }
    else if Moving(l) { MovingFrame(s, l); CellsMoving(s, l); }
    else if l.Dequeue? { CellsDequeue(s, l); }
    else { QuietStep(s, l); }
  }

  lemma CellsMoving(s: State, l: Label)
    requires Enabled(s, l) && Moving(l) && DifferAt(s, ApplyMoving(s, l), l.t, MovingCell(s, l))
    ensures CellsAre(s, l, ApplyMoving(s, l).cells)
  {
  }

  // ---- the queue ----

  /** What a step sends to the main thread. */
  function Sends(s: State, l: Label): seq<Msg> {
    match l
    case SendCreate(t, _, _) => if t != Main && ThreadOf(s, t).Sending? then [Create(ThreadOf(s, t).creation)] else []
    case SendMove(t, _) =>
      var th := ThreadOf(s, t);
      if t != Main && th.Reparenting? && th.cell in s.cells then [Move(s.cells[th.cell].window, th.cell.v, th.target, t)] else []
    case Post(_, msg) => [msg]
    case PostCloseView(t, cell) => if t != Main && cell in s.cells then [CloseView(s.cells[cell].window, cell.v)] else []
    case _ => []
  }

  lemma QueueExactly(s: State, l: Label)
    requires Enabled(s, l)
    ensures Apply(s, l).queue == (if l.Dequeue? then s.queue[1..] else s.queue + Sends(s, l))
  {
    if Creating(l) {
      assert l.SendCreate? && l.t != Main ==> ApplyCreating(s, l).queue == s.queue + [Create(ThreadOf(s, l.t).creation)];
      assert !(l.SendCreate? && l.t != Main) ==> ApplyCreating(s, l).queue == s.queue;
    } else if Moving(l) {
      MovingQueue(s, l);
    } else if l.Dequeue? {
      QueuedFrame(BeginEvent(s).(queue := s.queue[1..]), s.queue[0], l.ok, l.tao);
    }
  }

  /** Everything sent in the first `n` steps of a run. */
  ghost function Sent(states: seq<State>, labels: seq<Label>, n: nat): seq<Msg>
    requires n <= |labels| < |states|
  {
    if n == 0 then [] else Sent(states, labels, n - 1) + Sends(states[n - 1], labels[n - 1])
  }

  function Taken(labels: seq<Label>, n: nat): nat
    requires n <= |labels|
  {
    if n == 0 then 0 else Taken(labels, n - 1) + (if labels[n - 1].Dequeue? then 1 else 0)
  }

  /**
    Conservation: in every run the queue holds exactly what was sent and not yet taken, in the order it
    was sent; nothing is lost, doubled or overtaken, and the message handled by the next `Dequeue` is the
    first one not taken.
   */
  lemma {:induction false} QueueConserves(states: seq<State>, labels: seq<Label>, n: nat)
    requires IsRun(states, labels) && n <= |labels|
    ensures Taken(labels, n) <= |Sent(states, labels, n)|
    ensures states[n].queue == Sent(states, labels, n)[Taken(labels, n)..]
  {
    if n > 0 {
      QueueConserves(states, labels, n - 1);
      assert StepAt(states, labels, n - 1);
      var s, l := states[n - 1], labels[n - 1];
      QueueExactly(s, l);
      var sent, taken := Sent(states, labels, n - 1), Taken(labels, n - 1);
      if l.Dequeue? {
        assert sent + [] == sent;
        assert sent[taken..][1..] == sent[taken + 1..];
      } else {
        assert (sent + Sends(s, l))[taken..] == sent[taken..] + Sends(s, l);
      }
    }
  }

  // ---- requests ----

  /** The step opens a request: a close of a listed window, or an exit. */
  lemma RequestOpensIff(s: State, l: Label)
    requires Inv(s) && Enabled(s, l) && s.pc.Top?
    ensures forall w :: Apply(s, l).pc == Closing(w, 0) <==>
              w in s.store && (|| (l.NativeCloseRequested? && l.tao in s.tao && s.tao[l.tao] == w)
                               || (l.Dequeue? && s.queue[0] == CloseWindow(w)))
    ensures forall code :: Apply(s, l).pc == ExitAsked(Some(code), 0) <==> l.Dequeue? && s.queue[0] == RequestExit(code)
    ensures Apply(s, l).pc == ExitAsked(None, 0) <==>
              exists w :: RemovesWindow(s, l, w) && w in s.store && forall u :: u in s.store ==> u == w
  {
    if Creating(l) || Moving(l) || Posting(l) {
      CallsKeepLoop(s, l);
    } else if l.Dequeue? {
      DequeueOpens(s, l);
    } else if l.NativeDestroyed? && l.tao in s.tao {
      var w := s.tao[l.tao];
      assert RemovesWindow(s, l, w);
      LastOne(s.store, w);
    }
  }

  lemma LastOne(store: Store, w: WindowId)
    ensures RemoveWindow(store, w) == map[] <==> forall u :: u in store ==> u == w
  {
    if RemoveWindow(store, w) == map[] {
      forall u | u in store ensures u == w { assert u != w ==> u in RemoveWindow(store, w); }
    }
  }
}
