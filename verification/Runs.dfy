/**
  Theorems about whole runs of the runtime: distinct ids, cells and the moves behind their changes,
  webviews lost by a failed move, and webviews with two cells.
 */
module Runs {
  import opened WindowStore
  import opened Runtime
  import opened Ownership

  // ---- the invariant along a run ----

  lemma {:induction false} CountersMonotone(states: seq<State>, labels: seq<Label>, i: nat, j: nat)
    requires IsRun(states, labels) && i <= j <= |labels|
    ensures states[i].windowsIssued <= states[j].windowsIssued && states[i].webviewsIssued <= states[j].webviewsIssued
    decreases j - i
  {
    if i < j {
      assert StepAt(states, labels, i);
      CountersGrow(states[i], labels[i]);
      CountersMonotone(states, labels, i + 1, j);
    }
  }

  /** The invariant holds in every state of a run with fewer than 2^32 creations of each kind. */
  lemma {:induction false} RunInv(states: seq<State>, labels: seq<Label>, i: nat)
    requires IsRun(states, labels) && Unwrapped(states[|labels|]) && i <= |labels|
    ensures Inv(states[i])
  {
    if i > 0 {
      RunInv(states, labels, i - 1);
      CountersMonotone(states, labels, i, |labels|);
      assert StepAt(states, labels, i - 1);
      Step(states[i - 1], labels[i - 1]);
    }
  }

  /**
    Ids are distinct throughout a run: in the store, in queued creations and in creations a thread
    is about to send; and each webview sits in at most one window, at most once.
   */
  lemma IdsDistinct(states: seq<State>, labels: seq<Label>, i: nat)
    requires IsRun(states, labels) && i <= |labels|
    requires states[|labels|].windowsIssued <= 0x1_0000_0000 && states[|labels|].webviewsIssued <= 0x1_0000_0000
    ensures Distinct(states[i])
    ensures forall v :: AllWebviews(states[i].store)[v] <= 1
  {
    RunInv(states, labels, i);
    forall v ensures AllWebviews(states[i].store)[v] <= 1 { AtMostOnce(states[i].store, v); }
  }

  lemma {:induction false} AtMostOnce(store: Store, v: WebviewId)
    requires Unique(store)
    ensures AllWebviews(store)[v] <= 1
    ensures AllWebviews(store)[v] == 1 <==> exists w :: Lists(store, w, v)
  {
    if store != map[] {
      var w :| w in store;
      AllWebviewsSplit(store, w);
      var rest := store - {w};
      RemoveEffect(store, w);
      AtMostOnce(rest, v);
      OccursOnce(store[w].webviews, v);
      assert Lists(store, w, v) <==> v in store[w].webviews;
      if u :| Lists(rest, u, v) { assert Lists(store, u, v); }
      if u :| Lists(store, u, v) && u != w { assert Lists(rest, u, v); }
    }
  }

  lemma {:induction false} OccursOnce(vs: seq<WebviewId>, v: WebviewId)
    requires NoDuplicates(vs)
    ensures multiset(vs)[v] == if v in vs then 1 else 0
  {
    if vs != [] {
      assert vs == [vs[0]] + vs[1..];
      OccursOnce(vs[1..], v);
    }
  }

  // ---- cells ----

  /** Whenever the cell of a `create_webview` webview is not locked, it names the window holding the webview. */
  lemma CellNamesHolder(states: seq<State>, labels: seq<Label>, i: nat, v: WebviewId, w: WindowId)
    requires IsRun(states, labels) && Unwrapped(states[|labels|]) && i <= |labels|
    requires Shared(v) in states[i].cells && !states[i].cells[Shared(v)].lock.HeldBy?
    requires Lists(states[i].store, w, v)
    ensures w == states[i].cells[Shared(v)].window
  {
    RunInv(states, labels, i);
    assert AgreesAt(states[i], v);
  }

  /** A cell is rewritten only by the caller of a move that was answered `Ok`, to the target of that move. */
  lemma CellChange(s: State, l: Label, c: CellId)
    requires Inv(s) && Enabled(s, l) && c in s.cells
    ensures c in Apply(s, l).cells
    ensures Apply(s, l).cells[c].window != s.cells[c].window ==>
              l.Receive? && ThreadOf(s, l.t) == Reparenting(c, Apply(s, l).cells[c].window, Replied(Moved))
  {
    if Creating(l) { CellsKeptCreating(s, l, c); }
    else if Moving(l) {}
    else if l.Dequeue? { HoldingDequeue(s, l); }
    else { QuietStep(s, l); }
  }

  lemma ReplyStep(s: State, l: Label, t: Tid, cell: CellId, target: WindowId)
    requires MovesInFlight(s) && Enabled(s, l)
    requires ThreadOf(Apply(s, l), t) == Reparenting(cell, target, Replied(Moved))
    ensures ThreadOf(s, t) == Reparenting(cell, target, Replied(Moved)) || MovedTo(s, l, target, cell.v)
  {
    if Creating(l) {
      assert ThreadOf(ApplyCreating(s, l), t) == ThreadOf(s, t);
    } else if Moving(l) {
      ReplyMoving(s, l, t);
    } else if l.Dequeue? {
      if s.queue[0].Move? {
        assert InFlight(s, s.queue[0]);
      } else {
        OthersWait(s, l, t);
      }
    } else {
      QuietStep(s, l);
    }
  }

  lemma ReplyMoving(s: State, l: Label, t: Tid)
    requires Enabled(s, l) && Moving(l)
    ensures var th := ThreadOf(ApplyMoving(s, l), t);
            th.Reparenting? && th.phase == Replied(Moved) ==> th == ThreadOf(s, t) || MovedTo(s, l, th.target, th.cell.v)
  {
    if l.SendMove? && l.t == Main {
    } else {
    }
  }

  lemma {:induction false} ReplyHasCause(states: seq<State>, labels: seq<Label>, i: nat, t: Tid) returns (j: nat)
    requires IsRun(states, labels) && Unwrapped(states[|labels|]) && i <= |labels|
    requires ThreadOf(states[i], t).Reparenting? && ThreadOf(states[i], t).phase == Replied(Moved)
    ensures j < i
    ensures var th := ThreadOf(states[i], t); MovedTo(states[j], labels[j], th.target, th.cell.v)
  {
    assert i > 0;
    var th := ThreadOf(states[i], t);
    RunInv(states, labels, i - 1);
    assert StepAt(states, labels, i - 1);
    ReplyStep(states[i - 1], labels[i - 1], t, th.cell, th.target);
    if MovedTo(states[i - 1], labels[i - 1], th.target, th.cell.v) {
      j := i - 1;
    } else {
      j := ReplyHasCause(states, labels, i - 1, t);
    }
  }

  /** In a run, every rewrite of a cell follows a step of the main thread that did move the webview there. */
  lemma CellChangeHasMove(states: seq<State>, labels: seq<Label>, i: nat, c: CellId) returns (j: nat)
    requires IsRun(states, labels) && Unwrapped(states[|labels|]) && i < |labels|
    requires c in states[i].cells && c in states[i + 1].cells
    requires states[i + 1].cells[c].window != states[i].cells[c].window
    ensures j < i
    ensures var target := states[i + 1].cells[c].window;
            MovedTo(states[j], labels[j], target, c.v) && Lists(states[j + 1].store, target, c.v)
  {
    RunInv(states, labels, i);
    assert StepAt(states, labels, i);
    CellChange(states[i], labels[i], c);
    j := ReplyHasCause(states, labels, i, labels[i].t);
    RunInv(states, labels, j);
    assert StepAt(states, labels, j);
    MovedLands(states[j], labels[j], states[i + 1].cells[c].window, c.v);
  }

  lemma MovedLands(s: State, l: Label, w: WindowId, v: WebviewId)
    requires Inv(s) && Enabled(s, l) && MovedTo(s, l, w, v)
    ensures Lists(Apply(s, l).store, w, v)
  {
    if l.SendMove? {
      ReparentConserves(s.store, s.cells[ThreadOf(s, Main).cell].window, v, w, l.native);
    } else {
      var m := s.queue[0];
      assert InFlight(s, m);
      ReparentConserves(s.store, m.w, v, w, l.ok);
    }
  }

  // ---- a webview that is gone stays gone ----

  ghost predicate Gone(s: State, v: WebviewId) {
    && v < s.webviewsIssued
    && (forall a :: !PendingView(s, a, v))
    && (forall w :: !Lists(s.store, w, v))
  }

  lemma GoneStep(s: State, l: Label, v: WebviewId)
    requires Inv(s) && Enabled(s, l) && Unwrapped(Apply(s, l)) && Gone(s, v)
    ensures Gone(Apply(s, l), v)
  {
    var s' := Apply(s, l);
    CountersGrow(s, l);
    StoreStep(s, l);
    forall a ensures !PendingView(s', a, v) { PendingSource(s, l, a); }
    forall w ensures !Lists(s'.store, w, v) {
      if MovedTo(s, l, w, v) { MovedWasListed(s, l, w, v); }
    }
  }

  lemma {:induction false} GoneForever(states: seq<State>, labels: seq<Label>, i: nat, j: nat, v: WebviewId)
    requires IsRun(states, labels) && Unwrapped(states[|labels|]) && i <= j <= |labels| && Gone(states[i], v)
    ensures Gone(states[j], v)
    decreases j - i
  {
    if i < j {
      RunInv(states, labels, i);
      assert StepAt(states, labels, i);
      CountersMonotone(states, labels, i + 1, |labels|);
      GoneStep(states[i], labels[i], v);
      GoneForever(states, labels, i + 1, j, v);
    }
  }

  /** The step handles a move that finds `v` but does not answer `Ok`. */
  ghost predicate LosesView(s: State, l: Label, v: WebviewId) {
    || (&& l.SendMove? && l.t == Main && Enabled(s, l)
        && var th := ThreadOf(s, Main);
           var w := s.cells[th.cell].window;
           th.cell.v == v && Lists(s.store, w, v) && Reparent(s.store, w, v, th.target, l.native).1 != Moved)
    || (&& l.Dequeue? && s.queue != [] && s.queue[0].Move?
        && var m := s.queue[0];
           m.v == v && Lists(s.store, m.w, v) && Reparent(s.store, m.w, v, m.target, l.ok).1 != Moved)
  }

  lemma LosesViewStep(s: State, l: Label, v: WebviewId)
    requires Inv(s) && Enabled(s, l) && LosesView(s, l, v)
    ensures forall w :: !Lists(Apply(s, l).store, w, v)
    ensures exists w :: Lists(s.store, w, v)
  {
    if l.SendMove? {
      var th := ThreadOf(s, Main);
      var w := s.cells[th.cell].window;
      assert Lists(s.store, w, v);
      ReparentUnique(s.store, w, v, th.target, l.native);
    } else {
      var m := s.queue[0];
      assert InFlight(s, m) && Lists(s.store, m.w, v);
      ReparentUnique(s.store, m.w, v, m.target, l.ok);
    }
  }

  /**
    A move that finds its webview but is not answered `Ok` destroys the webview: it is in no window
    then and at every later point of the run.
   */
  lemma FailedMoveDestroys(states: seq<State>, labels: seq<Label>, i: nat, j: nat, v: WebviewId)
    requires IsRun(states, labels) && Unwrapped(states[|labels|]) && i < j <= |labels|
    requires LosesView(states[i], labels[i], v)
    ensures Gone(states[j], v)
  {
    var s, l, s' := states[i], labels[i], states[i + 1];
    RunInv(states, labels, i);
    assert StepAt(states, labels, i);
    LosesViewStep(s, l, v);
    forall a ensures !PendingView(s', a, v) { PendingSource(s, l, a); }
    CountersGrow(s, l);
    GoneForever(states, labels, i + 1, j, v);
  }

  // ---- dropped replies and poisoned cells ----

  lemma DroppedMoving(s: State, l: Label, t: Tid)
    requires Enabled(s, l) && Moving(l)
    ensures var th := ThreadOf(ApplyMoving(s, l), t);
            th.Reparenting? && th.phase == Replied(Dropped) ==> th == ThreadOf(s, t) || LosesView(s, l, th.cell.v)
  {
    if l.SendMove? && l.t == Main {
    } else {
    }
  }

  lemma DroppedDequeue(s: State, l: Label, t: Tid)
    requires MovesInFlight(s) && Enabled(s, l) && l.Dequeue?
    ensures var th := ThreadOf(ApplyDequeue(s, l), t);
            th.Reparenting? && th.phase == Replied(Dropped) ==> th == ThreadOf(s, t) || LosesView(s, l, th.cell.v)
  {
    if s.queue[0].Move? && s.queue[0].from == t {
      assert InFlight(s, s.queue[0]);
    } else {
      OthersWait(s, l, t);
    }
  }

  lemma DroppedStep(s: State, l: Label, t: Tid)
    requires MovesInFlight(s) && Enabled(s, l)
    ensures var th := ThreadOf(Apply(s, l), t);
            th.Reparenting? && th.phase == Replied(Dropped) ==> th == ThreadOf(s, t) || LosesView(s, l, th.cell.v)
  {
    if Creating(l) {
      assert t != l.t ==> ThreadOf(ApplyCreating(s, l), t) == ThreadOf(s, t);
    } else if Moving(l) {
      DroppedMoving(s, l, t);
    } else if l.Dequeue? {
      DroppedDequeue(s, l, t);
    } else {
      QuietStep(s, l);
    }
  }

  /** A caller whose reply was dropped has lost its webview. */
  lemma {:induction false} DroppedIsGone(states: seq<State>, labels: seq<Label>, i: nat, t: Tid)
    requires IsRun(states, labels) && Unwrapped(states[|labels|]) && i <= |labels|
    requires ThreadOf(states[i], t).Reparenting? && ThreadOf(states[i], t).phase == Replied(Dropped)
    ensures Gone(states[i], ThreadOf(states[i], t).cell.v)
  {
    assert i > 0;
    var th := ThreadOf(states[i], t);
    RunInv(states, labels, i - 1);
    assert StepAt(states, labels, i - 1);
    DroppedStep(states[i - 1], labels[i - 1], t);
    if LosesView(states[i - 1], labels[i - 1], th.cell.v) {
      FailedMoveDestroys(states, labels, i - 1, i, th.cell.v);
    } else {
      DroppedIsGone(states, labels, i - 1, t);
      GoneForever(states, labels, i - 1, i, th.cell.v);
    }
  }

  lemma PoisonStep(s: State, l: Label, c: CellId)
    requires Inv(s) && Enabled(s, l) && c in Apply(s, l).cells && Apply(s, l).cells[c].lock.Poisoned?
    ensures || (c in s.cells && s.cells[c].lock.Poisoned?)
            || (l.Receive? && ThreadOf(s, l.t).cell == c && ThreadOf(s, l.t).phase == Replied(Dropped))
  {
    if Creating(l) {
      if c in s.cells { CellsKeptCreating(s, l, c); } else { NewCellCreating(s, l, c); }
    } else if Moving(l) {
      MovingFrame(s, l);
    } else if l.Dequeue? {
      if c in s.cells { CellsKeptDequeue(s, l, c); } else { NewCellDequeue(s, l, c); }
    } else {
      QuietStep(s, l);
    }
  }

  /** A poisoned cell, of either kind, never stands before a webview that still exists. */
  lemma {:induction false} PoisonedIsGone(states: seq<State>, labels: seq<Label>, i: nat, c: CellId)
    requires IsRun(states, labels) && Unwrapped(states[|labels|]) && i <= |labels|
    requires c in states[i].cells && states[i].cells[c].lock.Poisoned?
    ensures Gone(states[i], c.v)
  {
    assert i > 0;
    RunInv(states, labels, i - 1);
    assert StepAt(states, labels, i - 1);
    PoisonStep(states[i - 1], labels[i - 1], c);
    if c in states[i - 1].cells && states[i - 1].cells[c].lock.Poisoned? {
      PoisonedIsGone(states, labels, i - 1, c);
    } else {
      DroppedIsGone(states, labels, i - 1, labels[i - 1].t);
    }
    GoneForever(states, labels, i - 1, i, c.v);
  }

  // ---- two cells: a webview built together with its window ----

  /** The step handles the move of `v` from `w` to `target` that thread `t` asked for. */
  ghost predicate HandlesMove(s: State, l: Label, t: Tid, w: WindowId, v: WebviewId, target: WindowId) {
    || (&& l.SendMove? && l.t == Main && t == Main && Enabled(s, l)
        && var th := ThreadOf(s, Main);
           th.cell.v == v && s.cells[th.cell].window == w && th.target == target)
    || (l.Dequeue? && s.queue != [] && s.queue[0] == Move(w, v, target, t))
  }

  /** A move that names a window not holding the webview, as a stale cell does, is answered `Failed` and changes nothing. */
  lemma StaleMoveFails(s: State, l: Label, t: Tid, w: WindowId, v: WebviewId, target: WindowId)
    requires Inv(s) && Enabled(s, l) && HandlesMove(s, l, t, w, v, target) && !Lists(s.store, w, v)
    ensures var s' := Apply(s, l);
            && s'.store == s.store && s'.cells == s.cells
            && ThreadOf(s', t) == ThreadOf(s, t).(phase := Replied(Failed))
  {
    if l.Dequeue? {
      assert InFlight(s, s.queue[0]);
      QueuedFrame(BeginEvent(s).(queue := s.queue[1..]), s.queue[0], l.ok, l.tao);
    }
  }

  /**
    Exactly when a cell of a moved webview tells the truth after the `Ok` of a move that any thread
    made through any cell: if it names the target.
   */
  lemma TruthfulIff(s: State, l: Label, target: WindowId, other: CellId)
    requires Inv(s) && Enabled(s, l) && MovedTo(s, l, target, other.v) && other in s.cells
    ensures var s' := Apply(s, l);
            && Lists(s'.store, target, other.v) && other in s'.cells && s'.cells[other] == s.cells[other]
            && (Lists(s'.store, s'.cells[other].window, other.v) <==> target == s.cells[other].window)
  {
    MovedLands(s, l, target, other.v);
    StoreStep(s, l);
    if l.SendMove? {
      assert ApplyMoving(s, l).cells == s.cells;
    } else {
      CellsKeptDequeue(s, l, other);
    }
  }

  /** The main thread moves a webview through one cell, start to finish. */
  function MoveThrough(s: State, cell: CellId, target: WindowId): State
    requires Enabled(s, LockCell(Main, cell, target))
  {
    var s1 := Apply(s, LockCell(Main, cell, target));
    var s2 := Apply(s1, SendMove(Main, true));
    var reply := Reparent(s1.store, s1.cells[cell].window, cell.v, target, true).1;
    assert ThreadOf(s2, Main) == Reparenting(cell, target, Replied(reply));
    Apply(s2, Receive(Main))
  }

  /**
    After a whole move through one cell of a webview, another cell of it names the holding window
    exactly if that is the target; a move through a cell that does not name the holder changes nothing.
   */
  lemma OtherCellStale(s: State, via: CellId, other: CellId, target: WindowId)
    requires Inv(s) && other in s.cells && other != via && other.v == via.v
    requires Enabled(s, LockCell(Main, via, target)) && IsOpen(s.store, target)
    ensures var s' := MoveThrough(s, via, target);
            if Lists(s.store, s.cells[via].window, via.v) then
              && Lists(s'.store, target, via.v) && s'.cells[via] == Cell(target, Free)
              && s'.cells[other] == s.cells[other]
              && (Lists(s'.store, s'.cells[other].window, via.v) <==> target == s.cells[other].window)
            else
              s'.store == s.store && s'.cells == s.cells
  {
    var w := s.cells[via].window;
    ReparentUnique(s.store, w, via.v, target, true);
    ReparentConserves(s.store, w, via.v, target, true);
    MoveThroughEffect(s, via, target);
  }

  lemma MoveThroughEffect(s: State, cell: CellId, target: WindowId)
    requires Enabled(s, LockCell(Main, cell, target))
    ensures var s' := MoveThrough(s, cell, target);
            var (store, reply) := Reparent(s.store, s.cells[cell].window, cell.v, target, true);
            && s'.store == store
            && (reply == Moved ==> s'.cells == s.cells[cell := Cell(target, Free)])
            && (reply == Failed ==> s'.cells == s.cells)
  {
    var s1 := ApplyMoving(s, LockCell(Main, cell, target));
    assert ThreadOf(s1, Main) == Reparenting(cell, target, Locked);
    var s2 := ApplyMoving(s1, SendMove(Main, true));
    var reply := Reparent(s.store, s.cells[cell].window, cell.v, target, true).1;
    assert ThreadOf(s2, Main) == Reparenting(cell, target, Replied(reply));
    assert s2.cells == s1.cells;
  }
}
