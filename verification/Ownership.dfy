/**
  What every step of the runtime keeps: ids are distinct, each webview is in at most one place, the
  cell mutexes and the threads agree about who holds what, and a shared cell names the window that
  holds its webview.
 */
module Ownership {
  import opened Wrappers
  import opened WindowStore
  import opened Runtime

  // ---- creations that have been named but not yet handled ----

  datatype Slot = Queued(i: nat) | Held(t: Tid)

  function PendingAt(s: State, slot: Slot): Option<Creation> {
    match slot
    case Queued(i) => if i < |s.queue| && s.queue[i].Create? then Some(s.queue[i].creation) else None
    case Held(t) =>
      match ThreadOf(s, t) {
        case Sending(c) => Some(c)
        case NamedWindow(w) => Some(NewWindow(w, None))
        case _ => None
      }
  }

  predicate PendingWindow(s: State, slot: Slot, w: WindowId) {
    var p := PendingAt(s, slot);
    p.Some? && p.value.NewWindow? && p.value.w == w
  }

  predicate PendingView(s: State, slot: Slot, v: WebviewId) {
    var p := PendingAt(s, slot);
    p.Some? && (if p.value.NewWindow? then p.value.child == Some(v) else p.value.v == v)
  }

  // ---- the invariant ----

  ghost predicate Bounded(s: State) {
    && (forall w :: w in s.store ==> w < s.windowsIssued)
    && (forall w, v: WebviewId :: Lists(s.store, w, v) ==> v < s.webviewsIssued)
    && (forall a, w: WindowId :: PendingWindow(s, a, w) ==> w < s.windowsIssued)
    && (forall a, v: WebviewId :: PendingView(s, a, v) ==> v < s.webviewsIssued)
    && (forall c :: c in s.cells ==> c.v < s.webviewsIssued)
  }

  /** Window and webview ids in the store and in creations under way are pairwise distinct. */
  ghost predicate Distinct(s: State) {
    && Unique(s.store)
    && (forall a, b, w :: PendingWindow(s, a, w) && PendingWindow(s, b, w) ==> a == b)
    && (forall a, b, v :: PendingView(s, a, v) && PendingView(s, b, v) ==> a == b)
    && (forall a, w :: PendingWindow(s, a, w) ==> w !in s.store)
    && (forall a, w, v :: PendingView(s, a, v) ==> !Lists(s.store, w, v))
  }

  ghost predicate HoldsLock(s: State, t: Tid) {
    var th := ThreadOf(s, t);
    th.Reparenting? ==> th.cell in s.cells && s.cells[th.cell].lock == HeldBy(t)
  }

  ghost predicate LockHeld(s: State, c: CellId) {
    c in s.cells && s.cells[c].lock.HeldBy? ==>
      var th := ThreadOf(s, s.cells[c].lock.t);
      th.Reparenting? && th.cell == c
  }

  /** A queued move was sent by a thread that still waits for it, under a cell it still holds. */
  ghost predicate InFlight(s: State, m: Msg)
    requires m.Move?
  {
    var th := ThreadOf(s, m.from);
    && m.from != Main && th.Reparenting? && th.phase.Waiting?
    && th.cell.v == m.v && th.target == m.target
    && th.cell in s.cells && s.cells[th.cell].window == m.w
  }

  /** The threads inside a reparent are exactly the holders of the cell mutexes. */
  ghost predicate Holding(s: State) {
    (forall t :: HoldsLock(s, t)) && (forall c :: LockHeld(s, c))
  }

  /** Cells appear with their dispatcher or native webview, and no webview has both kinds. */
  ghost predicate CellsApart(s: State) {
    && (forall a, v :: PendingView(s, a, v) ==>
          Ipc(v) !in s.cells && (a.Held? ==> Shared(v) !in s.cells && Dispatcher(v) !in s.cells))
    && (forall v :: Shared(v) in s.cells ==> Dispatcher(v) !in s.cells && Ipc(v) !in s.cells)
  }

  ghost predicate MovesInFlight(s: State) {
    && (forall i :: 0 <= i < |s.queue| && s.queue[i].Move? ==> InFlight(s, s.queue[i]))
    && (forall i, j :: 0 <= i < j < |s.queue| && s.queue[i].Move? && s.queue[j].Move?
                       ==> s.queue[i].from != s.queue[j].from)
  }

  /** The move under way on `v`'s shared cell has been answered `Ok`, the cell not yet rewritten. */
  predicate MoveAnswered(s: State, v: WebviewId)
    requires Shared(v) in s.cells
  {
    var lock := s.cells[Shared(v)].lock;
    lock.HeldBy? &&
    var th := ThreadOf(s, lock.t);
    th.Reparenting? && th.phase == Replied(Moved)
  }

  function Home(s: State, v: WebviewId): WindowId
    requires Shared(v) in s.cells
  {
    if MoveAnswered(s, v) then ThreadOf(s, s.cells[Shared(v)].lock.t).target else s.cells[Shared(v)].window
  }

  ghost predicate AgreesAt(s: State, v: WebviewId)
    requires Shared(v) in s.cells
  {
    && (forall w :: Lists(s.store, w, v) ==> w == Home(s, v))
    && (forall a :: PendingView(s, a, v) ==>
          PendingAt(s, a) == Some(NewWebview(s.cells[Shared(v)].window, v)) && !MoveAnswered(s, v))
  }

  ghost predicate Agreement(s: State) {
    forall v :: Shared(v) in s.cells ==> AgreesAt(s, v)
  }

  ghost predicate Inv(s: State) {
    Bounded(s) && Distinct(s) && Holding(s) && CellsApart(s) && MovesInFlight(s) && Agreement(s)
  }

  // ---- where a pending creation was one step earlier ----

  function Source(s: State, l: Label, slot: Slot): Slot {
    if l.SendCreate? && l.t != Main && slot == Queued(|s.queue|) then Held(l.t)
    else if l.Dequeue? && slot.Queued? then Queued(slot.i + 1)
    else slot
  }

  function PendingNext(s: State, l: Label, a: Slot): Option<Creation>
    requires Enabled(s, l)
  {
    match l
    case CreateWindowCall(t, _) => if a == Held(t) then Some(NewWindow(s.windowsIssued % WRAP, None)) else PendingAt(s, a)
    case NameChild(t) =>
      if a == Held(t) then Some(NewWindow(ThreadOf(s, t).w, Some(s.webviewsIssued % WRAP))) else PendingAt(s, a)
    case CreateWebviewCall(t, w) =>
      if a == Held(t) then Some(NewWebview(w, s.webviewsIssued % WRAP)) else PendingAt(s, a)
    case SendCreate(t, _, _) => if a == Held(t) then None else PendingAt(s, Source(s, l, a))
    case SendCreateFails(t) => if a == Held(t) then None else PendingAt(s, a)
    case _ => PendingAt(s, Source(s, l, a))
  }

  /** Handling a message leaves the queue and the counters alone, and only a move answers a thread. */
  lemma QueuedFrame(s: State, m: Msg, ok: bool, tao: nat)
    ensures var s' := HandleQueued(s, m, ok, tao);
            && s'.queue == s.queue && s'.windowsIssued == s.windowsIssued && s'.webviewsIssued == s.webviewsIssued
            && (!m.Move? ==> s'.threads == s.threads)
            && (m.Move? ==> forall t :: ThreadOf(s', t).Reparenting? || ThreadOf(s', t) == ThreadOf(s, t))
            && (m.Move? ==> forall t :: ThreadOf(s, t).Reparenting? || ThreadOf(s', t) == ThreadOf(s, t))
            && (!m.Create? ==> s'.cells == s.cells)
  {
    match m
    case Create(c) => assert HandleCreate(s, c, ok, tao).queue == s.queue;
    case _ =>
  }

  lemma PendingEqSend(s: State, l: Label, a: Slot)
    requires Enabled(s, l) && l.SendCreate?
    ensures PendingAt(ApplyCreating(s, l), a) == PendingNext(s, l, a)
  {
    var s' := ApplyCreating(s, l);
    var c := ThreadOf(s, l.t).creation;
    assert s'.threads == s.threads[l.t := Idle];
    if l.t == Main {
      assert s'.queue == s.queue;
    } else {
      assert s'.queue == s.queue + [Create(c)];
    }
  }

  lemma PendingEqCreating(s: State, l: Label, a: Slot)
    requires Enabled(s, l) && Creating(l)
    ensures PendingAt(ApplyCreating(s, l), a) == PendingNext(s, l, a)
  {
    if l.SendCreate? {
      PendingEqSend(s, l, a);
    } else {
      assert ApplyCreating(s, l).queue == s.queue;
    }
  }

  lemma PendingEqMoving(s: State, l: Label, a: Slot)
    requires Enabled(s, l) && Moving(l)
    ensures PendingAt(ApplyMoving(s, l), a) == PendingNext(s, l, a)
  {
  }

  lemma PendingEqDequeue(s: State, l: Label, a: Slot)
    requires Enabled(s, l) && l.Dequeue?
    ensures PendingAt(ApplyDequeue(s, l), a) == PendingNext(s, l, a)
  {
    var start := BeginEvent(s).(queue := s.queue[1..]);
    QueuedFrame(start, s.queue[0], l.ok, l.tao);
    assert a.Held? ==> ThreadOf(start, a.t) == ThreadOf(s, a.t);
  }

  lemma PendingEqQuiet(s: State, l: Label, a: Slot)
    requires Enabled(s, l) && !Creating(l) && !Moving(l) && !l.Dequeue?
    ensures PendingAt(Apply(s, l), a) == PendingAt(s, a)
  {
    var s' := Apply(s, l);
    assert s'.threads == s.threads;
    if l.Post? {
      assert s'.queue == s.queue + [l.msg];
    } else if l.PostCloseView? {
    } else {
      assert s'.queue == s.queue;
    }
  }

  lemma PendingEq(s: State, l: Label, a: Slot)
    requires Enabled(s, l)
    ensures PendingAt(Apply(s, l), a) == PendingNext(s, l, a)
  {
    if Creating(l) { PendingEqCreating(s, l, a); }
    else if Moving(l) { PendingEqMoving(s, l, a); }
    else if l.Dequeue? { PendingEqDequeue(s, l, a); }
    else { PendingEqQuiet(s, l, a); }
  }

  lemma PendingSource(s: State, l: Label, a: Slot)
    requires Enabled(s, l)
    ensures forall w :: PendingWindow(Apply(s, l), a, w) ==>
              || PendingWindow(s, Source(s, l, a), w)
              || (l.CreateWindowCall? && a == Held(l.t) && w == s.windowsIssued % WRAP)
    ensures forall v :: PendingView(Apply(s, l), a, v) ==>
              || (PendingView(s, Source(s, l, a), v) && PendingAt(Apply(s, l), a) == PendingAt(s, Source(s, l, a)))
              || ((l.NameChild? || l.CreateWebviewCall?) && a == Held(l.t) && v == s.webviewsIssued % WRAP)
  {
    PendingEq(s, l, a);
  }

  /** Distinct pending creations come from distinct ones; a handled creation leaves no pending copy. */
  lemma SourceInjective(s: State, l: Label, a: Slot, b: Slot)
    requires Enabled(s, l)
    requires PendingAt(Apply(s, l), a).Some? && PendingAt(Apply(s, l), b).Some?
    requires Source(s, l, a) == Source(s, l, b)
    ensures a == b
  {
    PendingEq(s, l, a);
    PendingEq(s, l, b);
  }

  /** The slot whose creation this step handles, if any. */
  function Handled(s: State, l: Label): Option<Slot> {
    if l.SendCreate? && l.t == Main then Some(Held(Main))
    else if l.Dequeue? then Some(Queued(0))
    else None
  }

  lemma HandledIsGone(s: State, l: Label, a: Slot)
    requires Enabled(s, l) && PendingAt(Apply(s, l), a).Some?
    ensures Some(Source(s, l, a)) != Handled(s, l)
  {
    PendingEq(s, l, a);
  }

  // ---- what a step does to the store ----

  ghost predicate CreatedAt(s: State, l: Label, w: WindowId, v: WebviewId) {
    && Handled(s, l).Some?
    && PendingView(s, Handled(s, l).value, v)
    && PendingAt(s, Handled(s, l).value).value.w == w
  }

  /** The step answered a move of `v` to `w` with `Ok`. */
  ghost predicate MovedTo(s: State, l: Label, w: WindowId, v: WebviewId) {
    || (&& l.SendMove? && l.t == Main && Enabled(s, l)
        && var th := ThreadOf(s, Main);
           th.cell.v == v && th.target == w && Reparent(s.store, s.cells[th.cell].window, v, w, l.native).1 == Moved)
    || (&& l.Dequeue? && s.queue != [] && s.queue[0].Move?
        && var m := s.queue[0];
           m.v == v && m.target == w && Reparent(s.store, m.w, v, w, l.ok).1 == Moved)
  }

  /** Every entry and listing after a step was there before, was just created, or was just moved. */
  ghost predicate StoreEffect(s: State, l: Label, store: Store) {
    && Unique(store)
    && (forall w :: w in store ==> w in s.store || (Handled(s, l).Some? && PendingWindow(s, Handled(s, l).value, w)))
    && (forall w, v :: Lists(store, w, v) ==> Lists(s.store, w, v) || CreatedAt(s, l, w, v) || MovedTo(s, l, w, v))
  }

  lemma CreateEffect(s: State, c: Creation, slot: Slot, built: bool, tao: nat)
    requires Distinct(s) && PendingAt(s, slot) == Some(c)
    ensures var store := HandleCreate(s, c, built, tao).store;
            && Unique(store)
            && (forall w :: w in store ==> w in s.store || PendingWindow(s, slot, w))
            && (forall w, v :: Lists(store, w, v) ==> Lists(s.store, w, v) || (PendingView(s, slot, v) && c.w == w))
  {
    match c
    case NewWindow(w, child) =>
      assert PendingWindow(s, slot, w);
      if child.Some? { assert PendingView(s, slot, child.value); }
      var store := HandleCreate(s, c, built, tao).store;
      assert forall u, v: WebviewId :: Lists(store, u, v) ==>
               if built && u == w then child == Some(v) else Lists(s.store, u, v);
    case NewWebview(w, v) =>
      assert PendingView(s, slot, v);
      AddWebviewUnique(s.store, w, v);
  }

  lemma CloseEffect(store: Store, w: WindowId, v: WebviewId)
    requires Unique(store)
    ensures Unique(CloseWebview(store, w, v)) && CloseWebview(store, w, v).Keys == store.Keys
    ensures forall u, x :: Lists(CloseWebview(store, w, v), u, x) ==> Lists(store, u, x)
  {
    if IsOpen(store, w) && v in store[w].webviews { TakeWebviewUnique(store, w, v); }
  }

  lemma DropHandleEffect(store: Store, w: WindowId)
    requires Unique(store)
    ensures Unique(DropHandle(store, w)) && DropHandle(store, w).Keys == store.Keys
    ensures forall u, x :: Lists(DropHandle(store, w), u, x) <==> Lists(store, u, x)
  {
    var s' := DropHandle(store, w);
    assert forall u :: u in store ==> s'[u].webviews == store[u].webviews;
    assert forall u, x :: Lists(s', u, x) <==> Lists(store, u, x);
  }

  lemma RemoveEffect(store: Store, w: WindowId)
    requires Unique(store)
    ensures Unique(RemoveWindow(store, w))
    ensures forall u, x :: Lists(RemoveWindow(store, w), u, x) <==> Lists(store, u, x) && u != w
  {
    var s' := RemoveWindow(store, w);
    forall u, x ensures Lists(s', u, x) <==> Lists(store, u, x) && u != w {
      assert u in s' ==> s'[u] == store[u];
    }
  }

  lemma StoreCreating(s: State, l: Label)
    requires Enabled(s, l) && Creating(l) && Distinct(s)
    ensures StoreEffect(s, l, ApplyCreating(s, l).store)
  {
    if l.SendCreate? && l.t == Main {
      CreateEffect(s, ThreadOf(s, Main).creation, Held(Main), l.built, l.tao);
    }
  }

  lemma StoreMoving(s: State, l: Label)
    requires Enabled(s, l) && Moving(l) && Distinct(s)
    ensures StoreEffect(s, l, ApplyMoving(s, l).store)
  {
    if l.SendMove? && l.t == Main {
      var th := ThreadOf(s, Main);
      ReparentUnique(s.store, s.cells[th.cell].window, th.cell.v, th.target, l.native);
    }
  }

  lemma StoreDequeueCreate(s: State, l: Label)
    requires Enabled(s, l) && l.Dequeue? && s.queue[0].Create? && Distinct(s)
    ensures StoreEffect(s, l, ApplyDequeue(s, l).store)
  {
    var c := s.queue[0].creation;
    CreateEffect(s, c, Queued(0), l.ok, l.tao);
    assert ApplyDequeue(s, l).store == HandleCreate(s, c, l.ok, l.tao).store;
  }

  lemma StoreDequeueMove(s: State, l: Label)
    requires Enabled(s, l) && l.Dequeue? && s.queue[0].Move? && Unique(s.store) && InFlight(s, s.queue[0])
    ensures StoreEffect(s, l, ApplyDequeue(s, l).store)
  {
    var m := s.queue[0];
    ReparentUnique(s.store, m.w, m.v, m.target, l.ok);
    assert ApplyDequeue(s, l).store == Reparent(s.store, m.w, m.v, m.target, l.ok).0;
  }

  lemma StoreDequeue(s: State, l: Label)
    requires Enabled(s, l) && l.Dequeue? && Distinct(s) && MovesInFlight(s)
    ensures StoreEffect(s, l, ApplyDequeue(s, l).store)
  {
    var m := s.queue[0];
    if m.Create? {
      StoreDequeueCreate(s, l);
    } else if m.Move? {
      assert InFlight(s, m);
      StoreDequeueMove(s, l);
    } else if m.CloseView? {
      CloseEffect(s.store, m.w, m.v);
    } else if m.DestroyWindow? {
      DropHandleEffect(s.store, m.w);
    } else {
      assert ApplyDequeue(s, l).store == s.store;
    }
  }

  lemma StoreEvent(s: State, l: Label)
    requires Enabled(s, l) && !Creating(l) && !Moving(l) && !Posting(l) && !l.Dequeue? && Distinct(s)
    ensures StoreEffect(s, l, ApplyEvent(s, l).store)
  {
    match l
    case NativeDestroyed(tao) => if tao in s.tao { RemoveEffect(s.store, s.tao[tao]); }
    case Decide => if s.pc.Closing? { DropHandleEffect(s.store, s.pc.w); }
    case _ =>
  }

  lemma StoreStep(s: State, l: Label)
    requires Enabled(s, l) && Inv(s)
    ensures StoreEffect(s, l, Apply(s, l).store)
  {
    if Creating(l) { StoreCreating(s, l); }
    else if Moving(l) { StoreMoving(s, l); }
    else if Posting(l) { if l.PostCloseView? { CloseEffect(s.store, s.cells[l.cell].window, l.cell.v); } }
    else if l.Dequeue? { StoreDequeue(s, l); }
    else { StoreEvent(s, l); }
  }

  // ---- what a step does to the cells ----

  /** A cell that appears in a step is free and belongs to the creation being sent or handled. */
  ghost predicate CellOrigin(s: State, l: Label, cells: map<CellId, Cell>, c: CellId) {
    c in cells && c !in s.cells ==>
      && cells[c].lock == Free
      && ((l.SendCreate? && PendingView(s, Held(l.t), c.v)) || (l.Dequeue? && c.Ipc? && PendingView(s, Queued(0), c.v)))
      && (l.SendCreate? && c.Shared? ==> PendingAt(s, Held(l.t)) == Some(NewWebview(cells[c].window, c.v)))
      && (!c.Shared? ==> PendingAt(s, if l.Dequeue? then Queued(0) else Held(l.t)).value.NewWindow?)
  }

  lemma NewCellCreating(s: State, l: Label, c: CellId)
    requires Enabled(s, l) && Creating(l)
    ensures s.cells.Keys <= ApplyCreating(s, l).cells.Keys && CellOrigin(s, l, ApplyCreating(s, l).cells, c)
  {
    if l.SendCreate? {
      if l.t == Main {
      } else {
      }
    } else {
      assert ApplyCreating(s, l).cells == s.cells;
    }
  }

  lemma NewCellDequeue(s: State, l: Label, c: CellId)
    requires Enabled(s, l) && l.Dequeue?
    ensures s.cells.Keys <= ApplyDequeue(s, l).cells.Keys && CellOrigin(s, l, ApplyDequeue(s, l).cells, c)
  {
    if s.queue[0].Create? {
    } else {
      assert ApplyDequeue(s, l).cells == s.cells;
    }
  }

  lemma NewCell(s: State, l: Label, c: CellId)
    requires Enabled(s, l)
    ensures s.cells.Keys <= Apply(s, l).cells.Keys && CellOrigin(s, l, Apply(s, l).cells, c)
  {
    if Creating(l) { NewCellCreating(s, l, c); }
    else if l.Dequeue? { NewCellDequeue(s, l, c); }
  }

  // ---- preservation: ids ----

  lemma BoundedStep(s: State, l: Label)
    requires Inv(s) && Enabled(s, l) && Unwrapped(Apply(s, l))
    ensures Bounded(Apply(s, l))
  {
    StoreStep(s, l);
    BoundedFrom(s, l);
  }

  lemma BoundedFrom(s: State, l: Label)
    requires Bounded(s) && Enabled(s, l) && Unwrapped(Apply(s, l)) && StoreEffect(s, l, Apply(s, l).store)
    ensures Bounded(Apply(s, l))
  {
    var s' := Apply(s, l);
    CountersGrow(s, l);
    forall a, w: WindowId | PendingWindow(s', a, w) ensures w < s'.windowsIssued { PendingSource(s, l, a); }
    forall a, v: WebviewId | PendingView(s', a, v) ensures v < s'.webviewsIssued { PendingSource(s, l, a); }
    forall c | c in s'.cells ensures c.v < s'.webviewsIssued { NewCell(s, l, c); }
    forall w, v: WebviewId | Lists(s'.store, w, v) ensures v < s'.webviewsIssued {
      if MovedTo(s, l, w, v) { MovedWasListed(s, l, w, v); }
    }
  }

  lemma CountersGrow(s: State, l: Label)
    requires Enabled(s, l)
    ensures Apply(s, l).windowsIssued == s.windowsIssued + (if l.CreateWindowCall? then 1 else 0)
    ensures Apply(s, l).webviewsIssued == s.webviewsIssued + (if l.NameChild? || l.CreateWebviewCall? then 1 else 0)
  {
    if Creating(l) {
    } else if Moving(l) {
    } else if Posting(l) {
    } else if l.Dequeue? {
      QueuedFrame(BeginEvent(s).(queue := s.queue[1..]), s.queue[0], l.ok, l.tao);
    } else {
    }
  }

  lemma DistinctPending(s: State, l: Label, a: Slot, b: Slot)
    requires Bounded(s) && Distinct(s) && Enabled(s, l) && Unwrapped(Apply(s, l))
    ensures forall w :: PendingWindow(Apply(s, l), a, w) && PendingWindow(Apply(s, l), b, w) ==> a == b
    ensures forall v :: PendingView(Apply(s, l), a, v) && PendingView(Apply(s, l), b, v) ==> a == b
  {
    CountersGrow(s, l);
    PendingSource(s, l, a);
    PendingSource(s, l, b);
    if PendingAt(Apply(s, l), a).Some? && PendingAt(Apply(s, l), b).Some? && Source(s, l, a) == Source(s, l, b) {
      SourceInjective(s, l, a, b);
    }
  }

  lemma DistinctStep(s: State, l: Label)
    requires Inv(s) && Enabled(s, l) && Unwrapped(Apply(s, l))
    ensures Distinct(Apply(s, l))
  {
    var s' := Apply(s, l);
    CountersGrow(s, l);
    StoreStep(s, l);
    forall a, b, w | PendingWindow(s', a, w) && PendingWindow(s', b, w) ensures a == b { DistinctPending(s, l, a, b); }
    forall a, b, v | PendingView(s', a, v) && PendingView(s', b, v) ensures a == b { DistinctPending(s, l, a, b); }
    forall a, w | PendingWindow(s', a, w) ensures w !in s'.store {
      PendingSource(s, l, a); HandledIsGone(s, l, a);
    }
    forall a, w, v | PendingView(s', a, v) ensures !Lists(s'.store, w, v) {
      PendingSource(s, l, a); HandledIsGone(s, l, a);
      if MovedTo(s, l, w, v) { MovedWasListed(s, l, w, v); }
    }
  }

  lemma MovedWasListed(s: State, l: Label, w: WindowId, v: WebviewId)
    requires MovedTo(s, l, w, v)
    ensures exists u :: Lists(s.store, u, v)
  {
    if l.SendMove? {
      assert Lists(s.store, s.cells[ThreadOf(s, Main).cell].window, v);
    } else {
      assert Lists(s.store, s.queue[0].w, v);
    }
  }

  // ---- preservation: threads, cells and the queue ----

  lemma CellsKeptCreating(s: State, l: Label, c: CellId)
    requires Enabled(s, l) && Creating(l) && CellsApart(s) && c in s.cells
    ensures c in ApplyCreating(s, l).cells && ApplyCreating(s, l).cells[c] == s.cells[c]
  {
    if l.SendCreate? {
      var n := ThreadOf(s, l.t).creation;
      assert PendingAt(s, Held(l.t)) == Some(n);
      if n.NewWebview? { assert PendingView(s, Held(l.t), n.v); }
      else if n.child.Some? { assert PendingView(s, Held(l.t), n.child.value); }
    } else {
      assert ApplyCreating(s, l).cells == s.cells;
    }
  }

  /** A creating step touches one thread, which is not inside a reparent. */
  lemma CreatingThreads(s: State, l: Label, t: Tid)
    requires Enabled(s, l) && Creating(l)
    ensures ThreadOf(ApplyCreating(s, l), t) == ThreadOf(s, t)
            || (t == l.t && !ThreadOf(s, t).Reparenting? && !ThreadOf(ApplyCreating(s, l), t).Reparenting?)
  {
  }

  lemma HoldingCreating(s: State, l: Label)
    requires Holding(s) && CellsApart(s) && Enabled(s, l) && Creating(l)
    ensures Holding(ApplyCreating(s, l))
  {
    var s' := ApplyCreating(s, l);
    forall t ensures HoldsLock(s', t) {
      assert HoldsLock(s, t);
      CreatingThreads(s, l, t);
      var th := ThreadOf(s, t);
      if th.Reparenting? { CellsKeptCreating(s, l, th.cell); }
    }
    forall c ensures LockHeld(s', c) {
      assert LockHeld(s, c);
      if c in s.cells {
        CellsKeptCreating(s, l, c);
        if s.cells[c].lock.HeldBy? { CreatingThreads(s, l, s.cells[c].lock.t); }
      } else {
        NewCellCreating(s, l, c);
      }
    }
  }

  lemma HoldingMoving(s: State, l: Label)
    requires Holding(s) && Enabled(s, l) && Moving(l)
    ensures Holding(ApplyMoving(s, l))
  {
    var s' := ApplyMoving(s, l);
    assert HoldsLock(s, l.t);
    forall t ensures HoldsLock(s', t) { assert HoldsLock(s, t); }
    forall c ensures LockHeld(s', c) { assert LockHeld(s, c); }
  }

  lemma CellsKeptDequeue(s: State, l: Label, c: CellId)
    requires CellsApart(s) && Enabled(s, l) && l.Dequeue? && c in s.cells
    ensures c in ApplyDequeue(s, l).cells && ApplyDequeue(s, l).cells[c] == s.cells[c]
  {
    var m := s.queue[0];
    QueuedFrame(BeginEvent(s).(queue := s.queue[1..]), m, l.ok, l.tao);
    if m.Create? && m.creation.NewWindow? && m.creation.child.Some? {
      assert PendingView(s, Queued(0), m.creation.child.value);
    }
  }

  lemma ThreadsDequeue(s: State, l: Label, t: Tid)
    requires MovesInFlight(s) && Enabled(s, l) && l.Dequeue?
    ensures var th, th' := ThreadOf(s, t), ThreadOf(ApplyDequeue(s, l), t);
            th' == th || (th.Reparenting? && th'.Reparenting? && th'.cell == th.cell)
  {
    var m := s.queue[0];
    var start := BeginEvent(s).(queue := s.queue[1..]);
    QueuedFrame(start, m, l.ok, l.tao);
    if m.Move? { assert InFlight(s, m) && ThreadOf(start, m.from) == ThreadOf(s, m.from); }
  }

  lemma HoldingDequeue(s: State, l: Label)
    requires Holding(s) && CellsApart(s) && MovesInFlight(s) && Enabled(s, l) && l.Dequeue?
    ensures Holding(ApplyDequeue(s, l))
    ensures forall c :: c in s.cells ==> c in ApplyDequeue(s, l).cells && ApplyDequeue(s, l).cells[c] == s.cells[c]
  {
    var s' := ApplyDequeue(s, l);
    forall c | c in s.cells ensures c in s'.cells && s'.cells[c] == s.cells[c] { CellsKeptDequeue(s, l, c); }
    forall t ensures HoldsLock(s', t) { assert HoldsLock(s, t); ThreadsDequeue(s, l, t); }
    forall c ensures LockHeld(s', c) {
      assert LockHeld(s, c);
      NewCellDequeue(s, l, c);
      if c in s.cells && s.cells[c].lock.HeldBy? { ThreadsDequeue(s, l, s.cells[c].lock.t); }
    }
  }

  /** Posts, native events, votes and decisions leave cells and threads alone and queue no move. */
  lemma QuietStep(s: State, l: Label)
    requires Enabled(s, l) && !Creating(l) && !Moving(l) && !l.Dequeue?
    ensures var s' := Apply(s, l);
            && s'.cells == s.cells && s'.threads == s.threads
            && Appended(s.queue, s'.queue)
  {
    if l.Post? {
      assert Apply(s, l).queue == s.queue + [l.msg];
    } else if l.PostCloseView? {
    } else if l.NativeCloseRequested? {
    } else if l.NativeDestroyed? {
    } else {
    }
  }

  lemma HoldingStep(s: State, l: Label)
    requires Inv(s) && Enabled(s, l)
    ensures Holding(Apply(s, l))
  {
    if Creating(l) { HoldingCreating(s, l); }
    else if Moving(l) { HoldingMoving(s, l); }
    else if l.Dequeue? { HoldingDequeue(s, l); }
    else {
      QuietStep(s, l);
      HoldingQuiet(s, Apply(s, l));
    }
  }

  lemma HoldingQuiet(s: State, s': State)
    requires Holding(s) && s'.cells == s.cells && s'.threads == s.threads
    ensures Holding(s')
  {
    forall t ensures HoldsLock(s', t) { assert HoldsLock(s, t); }
    forall c ensures LockHeld(s', c) { assert LockHeld(s, c); }
  }

  lemma PendingCellsKept(s: State, l: Label, a: Slot, v: WebviewId)
    requires Inv(s) && Enabled(s, l) && Unwrapped(Apply(s, l)) && PendingView(Apply(s, l), a, v)
    ensures var s' := Apply(s, l);
            Ipc(v) !in s'.cells && (a.Held? ==> Shared(v) !in s'.cells && Dispatcher(v) !in s'.cells)
  {
    PendingSource(s, l, a);
    PendingEq(s, l, a);
    HandledIsGone(s, l, a);
    NewCell(s, l, Ipc(v)); NewCell(s, l, Shared(v)); NewCell(s, l, Dispatcher(v));
    CountersGrow(s, l);
  }

  lemma PendingCellsStep(s: State, l: Label)
    requires Inv(s) && Enabled(s, l) && Unwrapped(Apply(s, l))
    ensures CellsApart(Apply(s, l))
  {
    var s' := Apply(s, l);
    forall a, v | PendingView(s', a, v)
      ensures Ipc(v) !in s'.cells && (a.Held? ==> Shared(v) !in s'.cells && Dispatcher(v) !in s'.cells)
    {
      PendingCellsKept(s, l, a, v);
    }
    forall v | Shared(v) in s'.cells ensures Dispatcher(v) !in s'.cells && Ipc(v) !in s'.cells {
      NewCell(s, l, Ipc(v)); NewCell(s, l, Shared(v)); NewCell(s, l, Dispatcher(v));
      if Shared(v) in s.cells { assert AgreesAt(s, v); }
    }
  }

  /** The queue is unchanged, or one message that is no move was appended. */
  ghost predicate Appended(q: seq<Msg>, q': seq<Msg>) {
    q' == q || (|q'| == |q| + 1 && q'[..|q|] == q && !q'[|q|].Move?)
  }

  lemma InFlightAppended(s: State, s': State)
    requires MovesInFlight(s) && Appended(s.queue, s'.queue)
    requires forall i :: 0 <= i < |s.queue| && s.queue[i].Move? ==> InFlight(s', s.queue[i])
    ensures MovesInFlight(s')
  {
    assert forall i :: 0 <= i < |s'.queue| && s'.queue[i].Move? ==> i < |s.queue| && s'.queue[i] == s'.queue[..|s.queue|][i];
  }

  lemma InFlightCreating(s: State, l: Label)
    requires CellsApart(s) && MovesInFlight(s) && Enabled(s, l) && Creating(l)
    ensures MovesInFlight(ApplyCreating(s, l))
  {
    var s' := ApplyCreating(s, l);
    forall i | 0 <= i < |s.queue| && s.queue[i].Move? ensures InFlight(s', s.queue[i]) {
      assert InFlight(s, s.queue[i]);
      CreatingThreads(s, l, s.queue[i].from);
      CellsKeptCreating(s, l, ThreadOf(s, s.queue[i].from).cell);
    }
    assert Appended(s.queue, s'.queue) by {
      if l.SendCreate? && l.t != Main { assert s'.queue == s.queue + [Create(ThreadOf(s, l.t).creation)]; }
      else { assert s'.queue == s.queue; }
    }
    InFlightAppended(s, s');
  }

  function MovingCell(s: State, l: Label): CellId
    requires Enabled(s, l) && Moving(l)
  {
    if l.LockCell? then l.cell else ThreadOf(s, l.t).cell
  }

  /** Two states that differ at most in one thread, one cell and the store. */
  ghost predicate DifferAt(s: State, s': State, t: Tid, cell: CellId) {
    && s'.cells.Keys == s.cells.Keys
    && (forall c :: c in s.cells && c != cell ==> s'.cells[c] == s.cells[c])
    && (forall u :: u != t ==> ThreadOf(s', u) == ThreadOf(s, u))
  }

  lemma MovingQueue(s: State, l: Label)
    requires Enabled(s, l) && Moving(l)
    ensures ApplyMoving(s, l).queue == s.queue +
              if l.SendMove? && l.t != Main
              then [Move(s.cells[MovingCell(s, l)].window, MovingCell(s, l).v, ThreadOf(s, l.t).target, l.t)]
              else []
  {
    assert s.queue + [] == s.queue;
  }

  /** A step of a reparent touches one thread and one cell. */
  lemma MovingFrame(s: State, l: Label)
    requires Enabled(s, l) && Moving(l)
    ensures DifferAt(s, ApplyMoving(s, l), l.t, MovingCell(s, l))
  {
    if l.LockCell? {
    } else if l.SendMove? {
      assert ApplyMoving(s, l).cells == s.cells;
    } else if l.SendMoveFails? {
    } else {
    }
  }

  lemma InFlightKept(s: State, l: Label, m: Msg)
    requires Holding(s) && Enabled(s, l) && Moving(l) && m.Move? && InFlight(s, m)
    ensures InFlight(ApplyMoving(s, l), m)
  {
    MovingFrame(s, l);
    assert HoldsLock(s, l.t) && HoldsLock(s, m.from);
    assert m.from != l.t;
  }

  lemma InFlightMoving(s: State, l: Label)
    requires Holding(s) && MovesInFlight(s) && Enabled(s, l) && Moving(l)
    ensures MovesInFlight(ApplyMoving(s, l))
  {
    var s' := ApplyMoving(s, l);
    MovingFrame(s, l);
    MovingQueue(s, l);
    forall i | 0 <= i < |s.queue| && s.queue[i].Move? ensures InFlight(s', s.queue[i]) {
      InFlightKept(s, l, s.queue[i]);
    }
    if l.SendMove? && l.t != Main {
      assert HoldsLock(s, l.t);
      assert forall i :: 0 <= i < |s.queue| && s.queue[i].Move? ==> InFlight(s, s.queue[i]);
      assert InFlight(s', s'.queue[|s.queue|]);
    }
  }

  lemma InFlightDequeue(s: State, l: Label)
    requires Holding(s) && CellsApart(s) && MovesInFlight(s) && Enabled(s, l) && l.Dequeue?
    ensures MovesInFlight(ApplyDequeue(s, l))
  {
    var s' := ApplyDequeue(s, l);
    HoldingDequeue(s, l);
    QueuedFrame(BeginEvent(s).(queue := s.queue[1..]), s.queue[0], l.ok, l.tao);
    forall i | 0 <= i < |s'.queue| && s'.queue[i].Move? ensures InFlight(s', s'.queue[i]) {
      assert s'.queue[i] == s.queue[i + 1] && InFlight(s, s.queue[i + 1]);
      OthersWait(s, l, s.queue[i + 1].from);
    }
  }

  /** A dequeued message answers no thread but the sender of a move. */
  lemma OthersWait(s: State, l: Label, t: Tid)
    requires Enabled(s, l) && l.Dequeue? && !(s.queue[0].Move? && s.queue[0].from == t)
    ensures ThreadOf(ApplyDequeue(s, l), t) == ThreadOf(s, t)
  {
    QueuedFrame(BeginEvent(s).(queue := s.queue[1..]), s.queue[0], l.ok, l.tao);
  }

  lemma InFlightQuiet(s: State, s': State)
    requires MovesInFlight(s) && s'.cells == s.cells && s'.threads == s.threads && Appended(s.queue, s'.queue)
    ensures MovesInFlight(s')
  {
    forall i | 0 <= i < |s.queue| && s.queue[i].Move? ensures InFlight(s', s.queue[i]) {
      assert InFlight(s, s.queue[i]);
    }
    InFlightAppended(s, s');
  }

  lemma InFlightStep(s: State, l: Label)
    requires Inv(s) && Enabled(s, l)
    ensures MovesInFlight(Apply(s, l))
  {
    if Creating(l) { InFlightCreating(s, l); }
    else if Moving(l) { InFlightMoving(s, l); }
    else if l.Dequeue? { InFlightDequeue(s, l); }
    else {
      QuietStep(s, l);
      InFlightQuiet(s, Apply(s, l));
    }
  }

  // ---- preservation: a shared cell names the window that holds its webview ----

  lemma HomeCreating(s: State, l: Label, v: WebviewId)
    requires Holding(s) && CellsApart(s) && Enabled(s, l) && Creating(l) && Shared(v) in s.cells
    ensures var s' := ApplyCreating(s, l);
            Shared(v) in s'.cells && s'.cells[Shared(v)] == s.cells[Shared(v)]
            && Home(s', v) == Home(s, v) && MoveAnswered(s', v) == MoveAnswered(s, v)
  {
    CellsKeptCreating(s, l, Shared(v));
    assert LockHeld(s, Shared(v));
    var lock := s.cells[Shared(v)].lock;
    if lock.HeldBy? { CreatingThreads(s, l, lock.t); }
  }

  lemma AgreesCreating(s: State, l: Label, v: WebviewId)
    requires Inv(s) && Enabled(s, l) && Creating(l) && Shared(v) in s.cells
    ensures var s' := ApplyCreating(s, l);
            Shared(v) in s'.cells && s'.cells[Shared(v)] == s.cells[Shared(v)]
            && Home(s', v) == Home(s, v) && MoveAnswered(s', v) == MoveAnswered(s, v)
            && forall w :: Lists(s'.store, w, v) ==> w == Home(s, v)
  {
    HomeCreating(s, l, v);
    StoreCreating(s, l);
    assert AgreesAt(s, v);
    assert forall w :: !CreatedAt(s, l, w, v);
  }

  ghost predicate HomeEffect(s: State, s': State, v: WebviewId)
    requires Shared(v) in s.cells
  {
    && Shared(v) in s'.cells
    && (forall w :: Lists(s'.store, w, v) ==> w == Home(s', v))
    && ((exists a :: PendingView(s, a, v)) ==>
          s'.cells[Shared(v)].window == s.cells[Shared(v)].window && !MoveAnswered(s', v))
  }

  lemma AgreesMovingMain(s: State, l: Label, v: WebviewId)
    requires Inv(s) && Enabled(s, l) && l.SendMove? && l.t == Main && Shared(v) in s.cells
    ensures HomeEffect(s, ApplyMoving(s, l), v)
  {
    assert HoldsLock(s, Main);
    assert AgreesAt(s, v) && LockHeld(s, Shared(v));
    var th := ThreadOf(s, Main);
    ReparentUnique(s.store, s.cells[th.cell].window, th.cell.v, th.target, l.native);
  }

  lemma AgreesMoving(s: State, l: Label, v: WebviewId)
    requires Inv(s) && Enabled(s, l) && Moving(l) && Shared(v) in s.cells
    ensures HomeEffect(s, ApplyMoving(s, l), v)
  {
    if l.SendMove? && l.t == Main {
      AgreesMovingMain(s, l, v);
    } else {
      AgreesMovingCaller(s, l, v);
    }
  }

  /** The caller's own steps: the cell changes only where the move has been answered. */
  lemma AgreesMovingCaller(s: State, l: Label, v: WebviewId)
    requires Holding(s) && Enabled(s, l) && Moving(l) && !(l.SendMove? && l.t == Main) && Shared(v) in s.cells && AgreesAt(s, v)
    ensures HomeEffect(s, ApplyMoving(s, l), v)
  {
    var s' := ApplyMoving(s, l);
    MovingFrame(s, l);
    assert HoldsLock(s, l.t) && LockHeld(s, Shared(v));
    assert s'.store == s.store;
    if MovingCell(s, l) == Shared(v) {
      if l.LockCell? {
      } else if l.SendMove? {
      } else {
      }
    }
  }

  lemma AgreesDequeueMove(s: State, l: Label, v: WebviewId)
    requires Inv(s) && Enabled(s, l) && l.Dequeue? && s.queue[0].Move? && Shared(v) in s.cells
    ensures HomeEffect(s, ApplyDequeue(s, l), v)
  {
    var m := s.queue[0];
    assert AgreesAt(s, v) && LockHeld(s, Shared(v));
    assert InFlight(s, m) && HoldsLock(s, m.from);
    ReparentUnique(s.store, m.w, m.v, m.target, l.ok);
  }

  lemma AgreesDequeue(s: State, l: Label, v: WebviewId)
    requires Inv(s) && Enabled(s, l) && l.Dequeue? && Shared(v) in s.cells
    ensures HomeEffect(s, ApplyDequeue(s, l), v)
  {
    if s.queue[0].Move? {
      AgreesDequeueMove(s, l, v);
    } else {
      var s' := ApplyDequeue(s, l);
      HoldingDequeue(s, l);
      StoreDequeue(s, l);
      assert AgreesAt(s, v) && LockHeld(s, Shared(v));
      assert s'.threads == s.threads;
      assert forall w :: !MovedTo(s, l, w, v);
    }
  }

  lemma AgreesKept(s: State, l: Label, v: WebviewId)
    requires Inv(s) && Enabled(s, l) && Unwrapped(Apply(s, l)) && Shared(v) in s.cells
    ensures Shared(v) in Apply(s, l).cells && AgreesAt(Apply(s, l), v)
  {
    var s' := Apply(s, l);
    assert AgreesAt(s, v);
    HomeKept(s, l, v);
    forall a | PendingView(s', a, v)
      ensures PendingAt(s', a) == Some(NewWebview(s'.cells[Shared(v)].window, v)) && !MoveAnswered(s', v)
    {
      PendingSource(s, l, a);
      CountersGrow(s, l);
    }
  }

  lemma HomeKept(s: State, l: Label, v: WebviewId)
    requires Inv(s) && Enabled(s, l) && Shared(v) in s.cells
    ensures HomeEffect(s, Apply(s, l), v)
  {
    assert AgreesAt(s, v);
    if Creating(l) { AgreesCreating(s, l, v); }
    else if Moving(l) { AgreesMoving(s, l, v); }
    else if l.Dequeue? { AgreesDequeue(s, l, v); }
    else {
      StoreStep(s, l);
      QuietStep(s, l);
    }
  }

  lemma AgreesNew(s: State, l: Label, v: WebviewId)
    requires Inv(s) && Enabled(s, l)
    ensures Shared(v) in Apply(s, l).cells && Shared(v) !in s.cells ==> AgreesAt(Apply(s, l), v)
  {
    var s' := Apply(s, l);
    if Shared(v) in s'.cells && Shared(v) !in s.cells {
      NewCell(s, l, Shared(v));
      StoreStep(s, l);
      forall w | Lists(s'.store, w, v) ensures w == s'.cells[Shared(v)].window {
        assert !Lists(s.store, w, v) && !MovedTo(s, l, w, v);
      }
      forall a | PendingView(s', a, v) ensures PendingAt(s', a) == Some(NewWebview(s'.cells[Shared(v)].window, v)) {
        PendingSource(s, l, a);
      }
    }
  }

  /** Every step keeps the invariant, as long as no counter has wrapped. */
  lemma Step(s: State, l: Label)
    requires Inv(s) && Enabled(s, l) && Unwrapped(Apply(s, l))
    ensures Inv(Apply(s, l))
  {
    BoundedStep(s, l);
    DistinctStep(s, l);
    HoldingStep(s, l);
    PendingCellsStep(s, l);
    InFlightStep(s, l);
    forall v | Shared(v) in Apply(s, l).cells ensures AgreesAt(Apply(s, l), v) {
      if Shared(v) in s.cells { AgreesKept(s, l, v); } else { AgreesNew(s, l, v); }
    }
  }
}
