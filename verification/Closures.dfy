/**
  `with_webview` keeps the guard of the webview's cell alive while its closure runs. When that blocks
  the main thread for ever: for all code by a dry run that knows nothing of locks, and for code that
  keeps the webviews it opens closures on by looking at the code alone.
 */
module Closures {
  import opened Wrappers
  import opened WindowStore
  import opened Reentrancy
  import opened PoliteCode

  // ---- what the handler does with a cell locked ----

  predicate Live(m: Machine, v: WebviewId) {
    LiveIn(Seen(m), v)
  }

  /** What the handler makes of the three plain webview messages. */
  function AfterView(m: Machine, w: WindowId, v: WebviewId, op: ViewMsg): Store {
    match op
    case ViewClose => WindowStore.CloseWebview(m.store, w, v)
    case Move(target, native) => Reparent(m.store, w, v, target, native).0
    case _ => m.store
  }

  lemma HandlePlain(m: Machine, w: WindowId, v: WebviewId, op: ViewMsg)
    requires m.borrow.Unborrowed? && (op.ViewPlain? || op.ViewClose? || op.Move?)
    ensures Handle(m, ToView(w, v, op)) == Done(m.(store := AfterView(m, w, v, op)))
  {
    if op.Move? {
      assert Handle(m, ToView(w, v, op)) == HandleMove(m, w, v, op);
    }
  }

  /** The guard of the cell outlives the closure. */
  lemma WithRuns(m: Machine, v: WebviewId, body: seq<Call>)
    requires m.borrow.Unborrowed? && v !in m.cellsHeld && Live(m, v)
    ensures var o := Exec(m.(cellsHeld := m.cellsHeld + {v}), body);
            ExecCall(m, WithWebview(v, body)) == if o.Done? then Done(UnlockCell(o.m, v)) else o
  {
    var m1 := m.(cellsHeld := m.cellsHeld + {v});
    assert EndRead(m1.(borrow := Reading(1))) == m1;
    assert Handle(m1, ToView(m.cells[v], v, With(body))) == RunUser(m1, body);
    assert RunUser(m1, body) == Exec(m1, body);
  }

  lemma WithIdle(m: Machine, v: WebviewId, body: seq<Call>)
    requires m.borrow.Unborrowed? && v !in m.cellsHeld && !Live(m, v)
    ensures ExecCall(m, WithWebview(v, body)) == Done(m)
  {
    if v in m.cells {
      var m1 := m.(cellsHeld := m.cellsHeld + {v});
      assert EndRead(m1.(borrow := Reading(1))) == m1;
      assert Handle(m1, ToView(m.cells[v], v, With(body))) == Done(m1);
      assert (m.cellsHeld + {v}) - {v} == m.cellsHeld;
    }
  }

  // ---- all code: a dry run without locks predicts the run with them ----

  /** What user code depends on and changes: the store, the cells and the messages waiting for the loop. */
  datatype World = World(store: Store, cells: map<WebviewId, WindowId>, queue: seq<Msg>)

  /** A dry run goes through, meets a call on an enclosing webview, or loses a reply. */
  datatype Course = Through(world: World) | Blocks(u: WebviewId) | Drops(v: WebviewId) {
    predicate IsFailure() { !Through? }
    function PropagateFailure(): Course requires !Through? { this }
    function Extract(): World requires Through? { world }
  }

  predicate LiveIn(d: World, v: WebviewId) {
    v in d.cells && IsOpen(d.store, d.cells[v]) && v in d.store[d.cells[v]].webviews
  }

  /** `enclosing` are the webviews whose closures enclose the code; no borrow, no mutex, no listener table. */
  function DryRun(d: World, cs: seq<Call>, enclosing: set<WebviewId>): Course
    decreases Weight(cs), 0
  {
    if cs == [] then Through(d) else
      var d1 :- DryCall(d, cs[0], enclosing);
      DryRun(d1, cs[1..], enclosing)
  }

  function DryCall(d: World, c: Call, enclosing: set<WebviewId>): Course
    decreases CallWeight(c), 0
  {
    match c
    case RunOnMain(body) => DryRun(d, body, enclosing)
    case CreateWindow(w, child, after, built) =>
      var d1 :- DryRun(d, after, enclosing);
      Through(d1.(
        store := if built then InsertWindow(d1.store, w, if child.Some? then [child.value] else []) else d1.store,
        cells := if child.Some? then d1.cells[child.value := w] else d1.cells))
    case CreateWebview(w, v, built) =>
      Through(d.(store := if built then AddWebview(d.store, w, v) else d.store, cells := d.cells[v := w]))
    case WebviewOp(v) => if v in enclosing then Blocks(v) else Through(d)
    case OnWebviewEvent(v, listener) =>
      if v in enclosing then Blocks(v)
      else if v !in d.cells then Through(d)
      else Through(Sending(d, ToView(d.cells[v], v, AddViewListener(listener))))
    case OnWindowEvent(w, listener) => Through(Sending(d, ToWindow(w, AddListener(listener))))
    case CloseWindow(w) => Through(Sending(d, ToWindow(w, Close)))
    case DestroyWindow(w) => Through(Sending(d, ToWindow(w, Destroy)))
    case RequestExit => Through(Sending(d, Exit))
    case CloseView(v) =>
      if v in enclosing then Blocks(v)
      else if v !in d.cells then Through(d)
      else Through(d.(store := WindowStore.CloseWebview(d.store, d.cells[v], v)))
    case ReparentView(v, target, native) =>
      if v in enclosing then Blocks(v)
      else if v !in d.cells then Through(d)
      else
        var (store, reply) := Reparent(d.store, d.cells[v], v, target, native);
        if reply == Dropped then Drops(v)
        else Through(d.(store := store, cells := if reply == Moved then d.cells[v := target] else d.cells))
    case WithWebview(v, body) =>
      if v in enclosing then Blocks(v) else if LiveIn(d, v) then DryRun(d, body, enclosing + {v}) else Through(d)
    case WindowOp(_) => Through(d)
  }

  function Sending(d: World, msg: Msg): World {
    d.(queue := d.queue + [msg])
  }

  /**
    The run ends as the dry run says; if it goes through, with every lock and listener table as it was and
    the same store, cells and messages.
   */
  ghost predicate Follows(m: Machine, o: Outcome, course: Course) {
    match course
    case Blocks(u) => o == Faulted(CellRelocked(u))
    case Drops(v) => o == Faulted(ReplyDropped(v))
    case Through(d) =>
      && o.Done? && SameLocks(m, o.m) && o.m.listeners == m.listeners
      && Seen(o.m) == d && m.cells.Keys <= o.m.cells.Keys
  }

  function Seen(m: Machine): World {
    World(m.store, m.cells, m.queue)
  }

  lemma DryPlain(m: Machine, v: WebviewId, op: ViewMsg, c: Call)
    requires m.borrow.Unborrowed? && m.cellsHeld <= m.cells.Keys
    requires || (op.ViewPlain? && c == WebviewOp(v))
             || (op.ViewClose? && c == CloseView(v))
             || (op.Move? && c == ReparentView(v, op.target, op.native))
    ensures Follows(m, OnCell(m, v, op), DryCall(Seen(m), c, m.cellsHeld))
  {
    if v in m.cells && v !in m.cellsHeld {
      HandlePlain(m.(cellsHeld := m.cellsHeld + {v}), m.cells[v], v, op);
      assert (m.cellsHeld + {v}) - {v} == m.cellsHeld;
    }
  }

  lemma DryCreate(m: Machine, w: WindowId, child: Option<WebviewId>, after: seq<Call>, built: bool)
    requires m.borrow.Unborrowed? && Follows(m, Exec(m, after), DryRun(Seen(m), after, m.cellsHeld))
    ensures Follows(m, ExecCall(m, CreateWindow(w, child, after, built)),
                    DryCall(Seen(m), CreateWindow(w, child, after, built), m.cellsHeld))
  {
    var o := Exec(m, after);
    assert RunUser(m, after) == o;
    var msg := NewWindow(w, child, after, built);
    if o.Done? {
      var store := if built then InsertWindow(o.m.store, w, if child.Some? then [child.value] else []) else o.m.store;
      assert Handle(m, msg) == Done(o.m.(store := store));
    } else {
      assert Handle(m, msg) == o;
    }
  }

  lemma DryCreateWebview(m: Machine, w: WindowId, v: WebviewId, built: bool)
    requires m.borrow.Unborrowed?
    ensures Follows(m, ExecCall(m, CreateWebview(w, v, built)), DryCall(Seen(m), CreateWebview(w, v, built), m.cellsHeld))
  {
    var store := if built then AddWebview(m.store, w, v) else m.store;
    assert Handle(m, NewWebview(w, v, built)) == Done(m.(store := store));
  }

  lemma DryListen(m: Machine, v: WebviewId, listener: seq<Call>)
    requires m.borrow.Unborrowed? && m.cellsHeld <= m.cells.Keys
    ensures Follows(m, ExecCall(m, OnWebviewEvent(v, listener)), DryCall(Seen(m), OnWebviewEvent(v, listener), m.cellsHeld))
  {
    if v in m.cells && v !in m.cellsHeld { assert (m.cellsHeld + {v}) - {v} == m.cellsHeld; }
  }

  lemma DryWith(m: Machine, v: WebviewId, body: seq<Call>)
    requires m.borrow.Unborrowed? && v !in m.cellsHeld && Live(m, v)
    requires var m1 := m.(cellsHeld := m.cellsHeld + {v}); Follows(m1, Exec(m1, body), DryRun(Seen(m), body, m.cellsHeld + {v}))
    ensures Follows(m, ExecCall(m, WithWebview(v, body)), DryCall(Seen(m), WithWebview(v, body), m.cellsHeld))
  {
    WithRuns(m, v, body);
    assert (m.cellsHeld + {v}) - {v} == m.cellsHeld;
  }

  lemma {:induction false} CallFollowsDry(m: Machine, c: Call)
    requires m.borrow.Unborrowed? && m.cellsHeld <= m.cells.Keys
    ensures Follows(m, ExecCall(m, c), DryCall(Seen(m), c, m.cellsHeld))
    decreases CallWeight(c), 0
  {
    match c
    case WebviewOp(v) => DryPlain(m, v, ViewPlain, c);
    case CloseView(v) => DryPlain(m, v, ViewClose, c);
    case ReparentView(v, target, native) => DryPlain(m, v, Move(target, native), c);
    case OnWebviewEvent(v, listener) => DryListen(m, v, listener);
    case CreateWebview(w, v, built) => DryCreateWebview(m, w, v, built);
    case CreateWindow(w, child, after, built) =>
      RunFollowsDry(m, after);
      DryCreate(m, w, child, after, built);
    case RunOnMain(body) =>
      RunFollowsDry(m, body);
      assert Handle(m, Task(body)) == RunUser(m, body) == Exec(m, body);
    case WithWebview(v, body) =>
      if v !in m.cellsHeld {
        if Live(m, v) {
          RunFollowsDry(m.(cellsHeld := m.cellsHeld + {v}), body);
          DryWith(m, v, body);
        } else {
          WithIdle(m, v, body);
        }
      }
    case WindowOp(w) => PlainKeepsAll(m, w);
    case _ =>
  }

  lemma PlainKeepsAll(m: Machine, w: WindowId)
    requires m.borrow.Unborrowed?
    ensures ExecCall(m, WindowOp(w)) == Done(m)
  {
    assert EndRead(m.(borrow := Reading(1))) == m;
    assert Handle(m, ToWindow(w, Plain)) == Done(m);
  }

  /**
    For all code, on any machine: blocked, panicked or finished, with which store and which cells, the run
    with every borrow, mutex, queue and table ends as the dry run says.
   */
  lemma {:induction false} RunFollowsDry(m: Machine, cs: seq<Call>)
    requires m.borrow.Unborrowed? && m.cellsHeld <= m.cells.Keys
    ensures Follows(m, Exec(m, cs), DryRun(Seen(m), cs, m.cellsHeld))
    decreases Weight(cs), 0
  {
    if cs != [] {
      CallFollowsDry(m, cs[0]);
      var o := ExecCall(m, cs[0]);
      if o.Done? { RunFollowsDry(o.m, cs[1..]); }
    }
  }

  /**
    `with_webview`, for every closure, on any webview not already enclosing it: it blocks the main thread
    for ever exactly if the webview is live and the dry run of the closure comes to a call on a webview
    whose closure encloses that call; it panics exactly if the dry run loses a reply first.
   */
  lemma WithWebviewBlocksIff(m: Machine, v: WebviewId, body: seq<Call>)
    requires m.borrow.Unborrowed? && m.cellsHeld <= m.cells.Keys && v !in m.cellsHeld
    ensures var o, course := ExecCall(m, WithWebview(v, body)), DryRun(Seen(m), body, m.cellsHeld + {v});
            && (forall u: WebviewId :: o == Faulted(CellRelocked(u)) <==> Live(m, v) && course == Blocks(u))
            && (forall u: WebviewId :: o == Faulted(ReplyDropped(u)) <==> Live(m, v) && course == Drops(u))
            && (o.Done? <==> !Live(m, v) || course.Through?)
  {
    CallFollowsDry(m, WithWebview(v, body));
  }

  // ---- the same, read off the code alone ----

  /**
    The first call, in program order and at any depth of what runs at once, on a webview in `held` or
    enclosing it; closures on webviews in `dead` do not run.
   */
  function Clash(cs: seq<Call>, held: set<WebviewId>, dead: set<WebviewId>): Option<WebviewId>
    decreases Weight(cs), 0
  {
    if cs == [] then None else
      var first := ClashCall(cs[0], held, dead);
      if first.Some? then first else Clash(cs[1..], held, dead)
  }

  function ClashCall(c: Call, held: set<WebviewId>, dead: set<WebviewId>): Option<WebviewId>
    decreases CallWeight(c), 0
  {
    match c
    case RunOnMain(body) => Clash(body, held, dead)
    case CreateWindow(_, _, after, _) => Clash(after, held, dead)
    case WebviewOp(v) => if v in held then Some(v) else None
    case CloseView(v) => if v in held then Some(v) else None
    case OnWebviewEvent(v, _) => if v in held then Some(v) else None
    case ReparentView(v, _, _) => if v in held then Some(v) else None
    case WithWebview(v, body) => if v in held then Some(v) else if v in dead then None else Clash(body, held + {v}, dead)
    case _ => None
  }

  lemma {:induction false} PoliteHasNoClash(cs: seq<Call>, held: set<WebviewId>)
    requires Polite(cs, held)
    ensures Clash(cs, held, {}) == None
    decreases Weight(cs), 0
  {
    if cs != [] {
      PoliteCallHasNoClash(cs[0], held);
      PoliteHasNoClash(cs[1..], held);
    }
  }

  lemma {:induction false} PoliteCallHasNoClash(c: Call, held: set<WebviewId>)
    requires PoliteCall(c, held)
    ensures ClashCall(c, held, {}) == None
    decreases CallWeight(c), 0
  {
    match c
    case RunOnMain(body) => PoliteHasNoClash(body, held);
    case CreateWindow(_, _, after, _) => PoliteHasNoClash(after, held);
    case WithWebview(v, body) => PoliteHasNoClash(body, held + {v});
    case _ =>
  }

  ghost predicate Relocks(o: Outcome) {
    o.Faulted? && o.fault.CellRelocked?
  }

  /** For all code, on any machine: without a clash no cell is ever taken twice. */
  lemma {:induction false} RelockNeedsClash(m: Machine, cs: seq<Call>)
    requires m.borrow.Unborrowed?
    ensures Relocks(Exec(m, cs)) ==> Clash(cs, m.cellsHeld, {}).Some?
    decreases Weight(cs), 0
  {
    if cs != [] {
      RelockNeedsClashCall(m, cs[0]);
      ExecCallFine(m, cs[0]);
      var o := ExecCall(m, cs[0]);
      if o.Done? { RelockNeedsClash(o.m, cs[1..]); }
    }
  }

  lemma {:induction false} RelockNeedsClashCall(m: Machine, c: Call)
    requires m.borrow.Unborrowed?
    ensures Relocks(ExecCall(m, c)) ==> ClashCall(c, m.cellsHeld, {}).Some?
    decreases CallWeight(c), 0
  {
    match c
    case RunOnMain(body) =>
      RelockNeedsClash(m, body);
      assert Handle(m, Task(body)) == RunUser(m, body) == Exec(m, body);
    case CreateWindow(w, child, after, built) =>
      RelockNeedsClash(m, after);
      CreateRelocks(m, w, child, after, built);
    case CreateWebview(w, v, built) => PlainOnlyStore(m, NewWebview(w, v, built));
    case WindowOp(w) => PlainOnlyStore(m, ToWindow(w, Plain));
    case WebviewOp(v) => PlainRelocks(m, v, ViewPlain);
    case CloseView(v) => PlainRelocks(m, v, ViewClose);
    case ReparentView(v, target, native) => PlainRelocks(m, v, Move(target, native));
    case WithWebview(v, body) =>
      if v !in m.cellsHeld {
        if Live(m, v) {
          WithRuns(m, v, body);
          RelockNeedsClash(m.(cellsHeld := m.cellsHeld + {v}), body);
        } else {
          WithIdle(m, v, body);
        }
      }
    case _ =>
  }

  lemma CreateRelocks(m: Machine, w: WindowId, child: Option<WebviewId>, after: seq<Call>, built: bool)
    requires m.borrow.Unborrowed?
    ensures Relocks(ExecCall(m, CreateWindow(w, child, after, built))) ==> Relocks(Exec(m, after))
  {
    RunUserFine(m, after);
    var o := RunUser(m, after);
    assert o == Exec(m, after);
    if o.Done? {
      assert Handle(m, NewWindow(w, child, after, built)).Done?;
    } else {
      assert Handle(m, NewWindow(w, child, after, built)) == o;
    }
  }

  lemma PlainRelocks(m: Machine, v: WebviewId, op: ViewMsg)
    requires m.borrow.Unborrowed? && (op.ViewPlain? || op.ViewClose? || op.Move?)
    ensures Relocks(OnCell(m, v, op)) ==> v in m.cellsHeld
  {
    if v in m.cells && v !in m.cellsHeld {
      HandlePlain(m.(cellsHeld := m.cellsHeld + {v}), m.cells[v], v, op);
    }
  }

  /** Webviews known to be live, in windows among `homes`, and webviews known not to be. */
  datatype Known = Known(live: set<WebviewId>, homes: set<WindowId>, dead: set<WebviewId>)

  ghost predicate Knows(d: World, k: Known) {
    && (forall v :: v in k.live ==> LiveIn(d, v) && d.cells[v] in k.homes)
    && (forall v :: v in k.dead ==> !LiveIn(d, v))
  }

  /**
    Code that opens nested `with_webview` closures only on webviews known to be live or dead, and neither
    closes or moves the live ones, nor moves the dead ones, nor hands out their ids or the windows of the
    live ones again. What it does to any other window or webview is free.
   */
  predicate Keeps(cs: seq<Call>, held: set<WebviewId>, k: Known)
    decreases Weight(cs), 0
  {
    cs == [] || (KeepsCall(cs[0], held, k) && Keeps(cs[1..], held, k))
  }

  predicate KeepsCall(c: Call, held: set<WebviewId>, k: Known)
    decreases CallWeight(c), 0
  {
    match c
    case RunOnMain(body) => Keeps(body, held, k)
    case CreateWindow(w, child, after, _) =>
      w !in k.homes && (child.Some? ==> child.value !in k.live + k.dead) && Keeps(after, held, k)
    case CreateWebview(_, v, _) => v !in k.live + k.dead
    case CloseView(v) => v in held || v !in k.live
    case ReparentView(v, _, _) => v in held || v !in k.live + k.dead
    case WithWebview(v, body) => v in held || v in k.dead || (v in k.live && Keeps(body, held + {v}, k))
    case _ => true
  }

  /** The code, as far as it runs at once, moves no webview. */
  predicate MovesNone(cs: seq<Call>)
    decreases Weight(cs), 0
  {
    cs == [] || (MovesNoneCall(cs[0]) && MovesNone(cs[1..]))
  }

  predicate MovesNoneCall(c: Call)
    decreases CallWeight(c), 0
  {
    match c
    case RunOnMain(body) => MovesNone(body)
    case CreateWindow(_, _, after, _) => MovesNone(after)
    case WithWebview(_, body) => MovesNone(body)
    case _ => !c.ReparentView?
  }

  /** The dry run meets the clash if there is one, else goes through; unless it loses a reply first. */
  ghost predicate Meets(course: Course, clash: Option<WebviewId>, k: Known) {
    || course.Drops?
    || (match clash
        case Some(u) => course == Blocks(u)
        case None => course.Through? && Knows(course.world, k))
  }

  /** Two stores that differ at most in where `x` is listed. */
  ghost predicate OthersStay(store: Store, store': Store, x: WebviewId) {
    && (forall u :: IsOpen(store', u) <==> IsOpen(store, u))
    && (forall u, v :: v != x ==> (Lists(store', u, v) <==> Lists(store, u, v)))
  }

  lemma RemoveAtOthers(vs: seq<WebviewId>, i: nat, v: WebviewId)
    requires i < |vs| && vs[i] != v
    ensures v in RemoveAt(vs, i) <==> v in vs
  {
    if v in vs {
      var k :| 0 <= k < |vs| && vs[k] == v;
      assert RemoveAt(vs, i)[if k < i then k else k - 1] == v;
    }
  }

  lemma TakeStays(store: Store, w: WindowId, x: WebviewId)
    requires Lists(store, w, x)
    ensures OthersStay(store, TakeWebview(store, w, x), x)
  {
    var vs := store[w].webviews;
    var store' := TakeWebview(store, w, x);
    forall u, v | v != x ensures Lists(store', u, v) <==> Lists(store, u, v) {
      if u == w { RemoveAtOthers(vs, Position(vs, x), v); }
    }
  }

  lemma AddStays(store: Store, w: WindowId, x: WebviewId)
    ensures OthersStay(store, AddWebview(store, w, x), x)
  {
  }

  lemma ReparentStays(store: Store, w: WindowId, x: WebviewId, target: WindowId, native: bool)
    ensures OthersStay(store, Reparent(store, w, x, target, native).0, x)
  {
    if Lists(store, w, x) {
      TakeStays(store, w, x);
      AddStays(TakeWebview(store, w, x), target, x);
    }
  }

  lemma KnowsOthers(d: World, d': World, x: WebviewId, k: Known)
    requires Knows(d, k) && OthersStay(d.store, d'.store, x) && x !in k.live + k.dead
    requires forall v :: v != x ==> (v in d'.cells <==> v in d.cells) && (v in d.cells ==> d'.cells[v] == d.cells[v])
    ensures Knows(d', k)
  {
    forall v | v != x ensures LiveIn(d', v) <==> LiveIn(d, v) {
      if v in d.cells { assert Lists(d'.store, d.cells[v], v) <==> Lists(d.store, d.cells[v], v); }
    }
  }

  lemma KnowsInsert(d: World, w: WindowId, child: Option<WebviewId>, k: Known)
    requires Knows(d, k) && w !in k.homes && (child.Some? ==> child.value !in k.live + k.dead)
    ensures Knows(d.(store := InsertWindow(d.store, w, if child.Some? then [child.value] else [])), k)
  {
    var d' := d.(store := InsertWindow(d.store, w, if child.Some? then [child.value] else []));
    forall v | v in k.live ensures LiveIn(d', v) { assert LiveIn(d, v); }
    forall v | v in k.dead ensures !LiveIn(d', v) { assert !LiveIn(d, v); }
  }

  lemma KnowsCreate(d: World, w: WindowId, child: Option<WebviewId>, built: bool, k: Known)
    requires Knows(d, k) && w !in k.homes && (child.Some? ==> child.value !in k.live + k.dead)
    ensures Knows(d.(store := if built then InsertWindow(d.store, w, if child.Some? then [child.value] else []) else d.store,
                     cells := if child.Some? then d.cells[child.value := w] else d.cells), k)
  {
    var d1 := if built then d.(store := InsertWindow(d.store, w, if child.Some? then [child.value] else [])) else d;
    if built { KnowsInsert(d, w, child, k); }
    if child.Some? { KnowsOthers(d1, d1.(cells := d1.cells[child.value := w]), child.value, k); }
  }

  lemma KnowsClose(d: World, v: WebviewId, k: Known)
    requires Knows(d, k) && v in d.cells && v !in k.live
    ensures Knows(d.(store := WindowStore.CloseWebview(d.store, d.cells[v], v)), k)
  {
    if LiveIn(d, v) {
      TakeStays(d.store, d.cells[v], v);
      KnowsOthers(d, d.(store := WindowStore.CloseWebview(d.store, d.cells[v], v)), v, k);
    } else {
      assert WindowStore.CloseWebview(d.store, d.cells[v], v) == d.store;
    }
  }

  lemma KnowsMove(d: World, v: WebviewId, target: WindowId, native: bool, k: Known)
    requires Knows(d, k) && v in d.cells && v !in k.live + k.dead
    ensures var (store, reply) := Reparent(d.store, d.cells[v], v, target, native);
            Knows(d.(store := store, cells := if reply == Moved then d.cells[v := target] else d.cells), k)
  {
    var (store, reply) := Reparent(d.store, d.cells[v], v, target, native);
    ReparentStays(d.store, d.cells[v], v, target, native);
    KnowsOthers(d, d.(store := store, cells := if reply == Moved then d.cells[v := target] else d.cells), v, k);
  }

  lemma {:induction false} DryMeetsClash(d: World, cs: seq<Call>, held: set<WebviewId>, k: Known)
    requires Knows(d, k) && Keeps(cs, held, k)
    ensures Meets(DryRun(d, cs, held), Clash(cs, held, k.dead), k)
    ensures MovesNone(cs) ==> !DryRun(d, cs, held).Drops?
    decreases Weight(cs), 0
  {
    if cs != [] {
      DryCallMeetsClash(d, cs[0], held, k);
      var first := DryCall(d, cs[0], held);
      if first.Through? { DryMeetsClash(first.world, cs[1..], held, k); }
    }
  }

  lemma {:induction false} DryCallMeetsClash(d: World, c: Call, held: set<WebviewId>, k: Known)
    requires Knows(d, k) && KeepsCall(c, held, k)
    ensures Meets(DryCall(d, c, held), ClashCall(c, held, k.dead), k)
    ensures MovesNoneCall(c) ==> !DryCall(d, c, held).Drops?
    decreases CallWeight(c), 0
  {
    match c
    case RunOnMain(body) => DryMeetsClash(d, body, held, k);
    case CreateWindow(w, child, after, built) =>
      DryMeetsClash(d, after, held, k);
      var run := DryRun(d, after, held);
      if run.Through? { KnowsCreate(run.world, w, child, built, k); }
    case CreateWebview(w, v, built) =>
      AddStays(d.store, w, v);
      KnowsOthers(d, d.(store := if built then AddWebview(d.store, w, v) else d.store, cells := d.cells[v := w]), v, k);
    case CloseView(v) => if v !in held && v in d.cells { KnowsClose(d, v, k); }
    case ReparentView(v, target, native) => if v !in held && v in d.cells { KnowsMove(d, v, target, native, k); }
    case WithWebview(v, body) => if v !in held && v !in k.dead { DryMeetsClash(d, body, held + {v}, k); }
    case _ =>
  }

  /**
    On a live webview `with_webview` blocks exactly if some call that runs at once is made on a webview
    whose closure encloses it, on the first such webview, and otherwise finishes; only a reparent whose
    reply is dropped can end it before.
   */
  lemma ClosureBlocksIff(m: Machine, v: WebviewId, body: seq<Call>, k: Known)
    requires m.borrow.Unborrowed? && m.cellsHeld <= m.cells.Keys && v !in m.cellsHeld && Live(m, v)
    requires Knows(Seen(m), k) && Keeps(body, m.cellsHeld + {v}, k)
    ensures var o, clash := ExecCall(m, WithWebview(v, body)), Clash(body, m.cellsHeld + {v}, k.dead);
            && ((o.Faulted? && o.fault.ReplyDropped?) ||
                  (&& (o.Done? <==> clash == None)
                   && (forall u: WebviewId :: o == Faulted(CellRelocked(u)) <==> clash == Some(u))))
            && (MovesNone(body) ==> !(o.Faulted? && o.fault.ReplyDropped?))
  {
    WithWebviewBlocksIff(m, v, body);
    DryMeetsClash(Seen(m), body, m.cellsHeld + {v}, k);
    CallFollowsDry(m, WithWebview(v, body));
  }

  /** A closure that calls its own webview from inside the closure of another one blocks. */
  lemma NestedCallBlocks(m: Machine, u: WebviewId, v: WebviewId)
    requires m.borrow.Unborrowed? && m.cellsHeld == {} && Live(m, u) && Live(m, v) && u != v
    ensures ExecCall(m, WithWebview(v, [WithWebview(u, [WebviewOp(v)])])) == Faulted(CellRelocked(v))
  {
    var inner := [WebviewOp(v)];
    var body := [WithWebview(u, inner)];
    var held, d := m.cellsHeld + {v}, Seen(m);
    assert inner[0] == WebviewOp(v) && body[0] == WithWebview(u, inner);
    assert DryRun(d, inner, held + {u}) == Blocks(v) by { assert DryCall(d, inner[0], held + {u}) == Blocks(v); }
    assert LiveIn(d, u);
    assert DryCall(d, body[0], held) == Blocks(v);
    assert DryRun(d, body, held) == Blocks(v);
    WithWebviewBlocksIff(m, v, body);
  }
}
