/** Concrete runs: the states in which the runtime's promises break are reachable. */
module Instances {
  import opened Wrappers
  import opened WindowStore
  import opened Handlers
  import opened Runtime
  import opened Ownership
  import opened Runs
  import opened Waits

  // A window built with its webview, then a second window.

  const DEMO_LABELS: seq<Label> :=
    [CreateWindowCall(Main, true), NameChild(Main), SendCreate(Main, true, 0),
     CreateWindowCall(Main, false), SendCreate(Main, true, 1)]

  const DEMO_CELLS: map<CellId, Cell> := map[Ipc(0) := Cell(0, Free), Dispatcher(0) := Cell(0, Free)]

  const DEMO_STORE: Store := map[0 := Window(true, [0])]

  function DemoState(k: nat): State
    requires k <= 5
  {
    if k == 0 then Initial()
    else if k == 1 then State(map[], map[], [], 1, 0, map[], map[Main := NamedWindow(0)], Top, Poll)
    else if k == 2 then State(map[], map[], [], 1, 1, map[], map[Main := Sending(NewWindow(0, Some(0)))], Top, Poll)
    else if k == 3 then State(DEMO_STORE, map[0 := 0], [], 1, 1, DEMO_CELLS, map[Main := Idle], Top, Poll)
    else if k == 4 then State(DEMO_STORE, map[0 := 0], [], 2, 1, DEMO_CELLS, map[Main := Sending(NewWindow(1, None))], Top, Poll)
    else State(DEMO_STORE[1 := Window(true, [])], map[0 := 0, 1 := 1], [], 2, 1, DEMO_CELLS, map[Main := Idle], Top, Poll)
  }

  /** The main thread names a window without webview, or sends its creation. */
  lemma DemoSend(s: State, c: Creation, tao: nat)
    requires ThreadOf(s, Main) == Sending(c)
    ensures Enabled(s, SendCreate(Main, true, tao))
    ensures Apply(s, SendCreate(Main, true, tao)) == WithThread(HandOut(HandleCreate(s, c, true, tao), c), Main, Idle)
  {
  }

  lemma DemoFirstBuilt()
    ensures Enabled(DemoState(2), DEMO_LABELS[2]) && DemoState(3) == Apply(DemoState(2), DEMO_LABELS[2])
  {
    var s, c := DemoState(2), NewWindow(0, Some(0));
    DemoSend(s, c, 0);
    assert HandOut(HandleCreate(s, c, true, 0), c).cells == DEMO_CELLS;
  }

  lemma DemoSecondBuilt()
    ensures Enabled(DemoState(4), DEMO_LABELS[4]) && DemoState(5) == Apply(DemoState(4), DEMO_LABELS[4])
  {
    DemoSend(DemoState(4), NewWindow(1, None), 1);
  }

  lemma DemoNamed()
    ensures Enabled(DemoState(0), DEMO_LABELS[0]) && DemoState(1) == Apply(DemoState(0), DEMO_LABELS[0])
    ensures Enabled(DemoState(1), DEMO_LABELS[1]) && DemoState(2) == Apply(DemoState(1), DEMO_LABELS[1])
  {
    assert Apply(DemoState(0), DEMO_LABELS[0]) == ApplyCreating(DemoState(0), DEMO_LABELS[0]);
    assert Apply(DemoState(1), DEMO_LABELS[1]) == ApplyCreating(DemoState(1), DEMO_LABELS[1]);
  }

  lemma DemoSecondNamed()
    ensures Enabled(DemoState(3), DEMO_LABELS[3]) && DemoState(4) == Apply(DemoState(3), DEMO_LABELS[3])
  {
    assert Apply(DemoState(3), DEMO_LABELS[3]) == ApplyCreating(DemoState(3), DEMO_LABELS[3]);
  }

  lemma DemoStep(k: nat)
    requires k < 5
    ensures Enabled(DemoState(k), DEMO_LABELS[k]) && DemoState(k + 1) == Apply(DemoState(k), DEMO_LABELS[k])
  {
    DemoNamed();
    DemoFirstBuilt();
    DemoSecondNamed();
    DemoSecondBuilt();
    assert k == 0 || k == 1 || k == 2 || k == 3 || k == 4;
  }

  lemma DemoIsRun()
    ensures IsRun(seq(6, k requires 0 <= k < 6 => DemoState(k)), DEMO_LABELS)
  {
    var states := seq(6, k requires 0 <= k < 6 => DemoState(k));
    forall k | 0 <= k < 5 ensures StepAt(states, DEMO_LABELS, k) { DemoStep(k); }
  }

  lemma DemoInv()
    ensures Inv(DemoState(5))
  {
    var states := seq(6, k requires 0 <= k < 6 => DemoState(k));
    DemoIsRun();
    assert states[5] == DemoState(5);
    RunInv(states, DEMO_LABELS, 5);
  }

  lemma DemoDisagree(s: State)
    requires Inv(s) && Dispatcher(0) in s.cells && Ipc(0) in s.cells
    requires s.cells[Dispatcher(0)] == s.cells[Ipc(0)] == Cell(0, Free) && ThreadOf(s, Main) == Idle
    requires Lists(s.store, 0, 0) && IsOpen(s.store, 1)
    ensures Enabled(s, LockCell(Main, Dispatcher(0), 1))
    ensures var s' := MoveThrough(s, Dispatcher(0), 1);
            Lists(s'.store, 1, 0) && Ipc(0) in s'.cells && !Lists(s'.store, s'.cells[Ipc(0)].window, 0)
  {
    OtherCellStale(s, Dispatcher(0), Ipc(0), 1);
  }

  /** The states in which cells can come to disagree are reachable, and there they do. */
  lemma TwoCellsDisagree()
    ensures IsRun(seq(6, k requires 0 <= k < 6 => DemoState(k)), DEMO_LABELS)
    ensures Enabled(DemoState(5), LockCell(Main, Dispatcher(0), 1))
    ensures var s := MoveThrough(DemoState(5), Dispatcher(0), 1);
            Lists(s.store, 1, 0) && Ipc(0) in s.cells && !Lists(s.store, s.cells[Ipc(0)].window, 0)
  {
    DemoIsRun();
    DemoInv();
    DemoDisagree(DemoState(5));
  }

  // ---- longer runs ----

  lemma Extend(states: seq<State>, labels: seq<Label>, l: Label)
    requires IsRun(states, labels) && Enabled(states[|labels|], l)
    ensures IsRun(states + [Apply(states[|labels|], l)], labels + [l])
  {
    var states', labels' := states + [Apply(states[|labels|], l)], labels + [l];
    forall i | 0 <= i < |labels'| ensures StepAt(states', labels', i) {
      if i < |labels| { assert StepAt(states, labels, i); }
    }
  }

  /** What matters of the state reached: a free cell naming window 0, which holds webview 0, and idle threads. */
  ghost predicate Ready(s: State) {
    && Dispatcher(0) in s.cells && s.cells[Dispatcher(0)] == Cell(0, Free)
    && s.threads == map[Main := Idle] && s.queue == [] && s.pc.Top?
    && 0 in s.tao && s.tao[0] == 0 && Lists(s.store, 0, 0) && 7 !in s.store && s.windowsIssued <= 7
    && Unwrapped(s)
  }

  lemma DemoRun() returns (states: seq<State>, labels: seq<Label>)
    ensures IsRun(states, labels) && Ready(states[|labels|])
  {
    DemoIsRun();
    states, labels := seq(6, k requires 0 <= k < 6 => DemoState(k)), DEMO_LABELS;
    assert states[|labels|] == DemoState(5);
  }

  /** Thread `t` takes the cell. */
  lemma Lock(states: seq<State>, labels: seq<Label>, t: Tid, target: WindowId) returns (states': seq<State>, labels': seq<Label>)
    requires IsRun(states, labels) && Ready(states[|labels|])
    ensures IsRun(states', labels')
    ensures var s, s' := states[|labels|], states'[|labels'|];
            s' == WithThread(WithLock(s, Dispatcher(0), HeldBy(t)), t, Reparenting(Dispatcher(0), target, Locked))
  {
    var l := LockCell(t, Dispatcher(0), target);
    assert ThreadOf(states[|labels|], t) == Idle;
    Extend(states, labels, l);
    states', labels' := states + [Apply(states[|labels|], l)], labels + [l];
  }

  /** A worker takes the cell and sends its move. */
  lemma WorkerSends(states: seq<State>, labels: seq<Label>, t: Tid, target: WindowId) returns (states': seq<State>, labels': seq<Label>)
    requires IsRun(states, labels) && Ready(states[|labels|]) && t != Main
    ensures IsRun(states', labels')
    ensures var s, s' := states[|labels|], states'[|labels'|];
            && WaitsUnder(s', t, Dispatcher(0)) && s'.queue == [Move(0, 0, target, t)]
            && s'.pc == s.pc && s'.tao == s.tao && s'.store == s.store && ThreadOf(s', Main) == Idle
  {
    var states1, labels1 := Lock(states, labels, t, target);
    var s1, l := states1[|labels1|], SendMove(t, true);
    assert ThreadOf(s1, t) == Reparenting(Dispatcher(0), target, Locked);
    Extend(states1, labels1, l);
    assert Apply(s1, l) == ApplyMoving(s1, l);
    states', labels' := states1 + [Apply(s1, l)], labels1 + [l];
  }

  /** A native close request for window 0 opens while the loop is idle. */
  lemma OpenRequest(states: seq<State>, labels: seq<Label>) returns (states': seq<State>, labels': seq<Label>)
    requires IsRun(states, labels)
    requires var s := states[|labels|];
             s.pc.Top? && ThreadOf(s, Main).Idle? && 0 in s.tao && s.tao[0] == 0 && 0 in s.store
    ensures IsRun(states', labels')
    ensures states'[|labels'|] == BeginEvent(states[|labels|]).(pc := Closing(0, 0))
  {
    var l := NativeCloseRequested(0);
    Extend(states, labels, l);
    states', labels' := states + [Apply(states[|labels|], l)], labels + [l];
  }

  /** A worker sends a move and a close request opens: the callback cannot have the webview, the worker cannot go on. */
  lemma CallbackBlocked() returns (states: seq<State>, labels: seq<Label>)
    ensures IsRun(states, labels)
    ensures var s := states[|labels|];
            && s.pc == Closing(0, 0) && WaitsUnder(s, Worker(0), Dispatcher(0)) && MoveAt(s, Worker(0), 0)
            && (forall target :: !Enabled(s, LockCell(Main, Dispatcher(0), target)))
            && (forall ok, tao :: !Enabled(s, Dequeue(ok, tao))) && !Enabled(s, Receive(Worker(0)))
  {
    states, labels := DemoRun();
    states, labels := WorkerSends(states, labels, Worker(0), 1);
    states, labels := OpenRequest(states, labels);
    var s := states[|labels|];
    forall target: WindowId ensures !Enabled(s, LockCell(Main, Dispatcher(0), target)) {
      HeldIsBusy(s, Worker(0), Dispatcher(0), target);
    }
  }

  /** The main thread asks for a window that does not exist: its reply is dropped. */
  lemma MainDropped(states: seq<State>, labels: seq<Label>) returns (states': seq<State>, labels': seq<Label>)
    requires IsRun(states, labels) && Ready(states[|labels|])
    ensures IsRun(states', labels')
    ensures var s' := states'[|labels'|];
            && ThreadOf(s', Main) == Reparenting(Dispatcher(0), 7, Replied(Dropped)) && Dispatcher(0) in s'.cells
            && s'.windowsIssued == states[|labels|].windowsIssued && s'.webviewsIssued == states[|labels|].webviewsIssued
  {
    var states1, labels1 := Lock(states, labels, Main, 7);
    var s1, l := states1[|labels1|], SendMove(Main, true);
    assert ThreadOf(s1, Main) == Reparenting(Dispatcher(0), 7, Locked);
    ReparentConserves(s1.store, 0, 0, 7, true);
    Extend(states1, labels1, l);
    assert Apply(s1, l) == ApplyMoving(s1, l);
    states', labels' := states1 + [Apply(s1, l)], labels1 + [l];
  }

  /** A reparent onto a window id that was never issued: the caller panics, the cell is poisoned, the webview is gone. */
  lemma ReparentPoisons() returns (states: seq<State>, labels: seq<Label>)
    ensures IsRun(states, labels)
    ensures var s := states[|labels|];
            && ThreadOf(s, Main).Panicked? && Dispatcher(0) in s.cells && s.cells[Dispatcher(0)].lock.Poisoned?
            && s.windowsIssued <= 7 && Gone(s, 0)
  {
    states, labels := DemoRun();
    states, labels := MainDropped(states, labels);
    var s, l := states[|labels|], Receive(Main);
    Extend(states, labels, l);
    assert Apply(s, l) == ApplyMoving(s, l);
    states, labels := states + [Apply(s, l)], labels + [l];
    PoisonedIsGone(states, labels, |labels|, Dispatcher(0));
  }
}
