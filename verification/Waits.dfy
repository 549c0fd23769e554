/**
  A worker's reparent waits for the main thread: its message is in the queue exactly as long as it
  waits, the queue is served in order, and while user code runs inside an open request nobody serves
  it.
 */
module Waits {
  import opened WindowStore
  import opened Runtime
  import opened Ownership
  import opened Runs
  import opened Lifecycle
  import opened Effects

  predicate IsWaiting(s: State, t: Tid) {
    ThreadOf(s, t).Reparenting? && ThreadOf(s, t).phase == Waiting
  }

  /** The message at place `p` is the move that `t` sent. */
  predicate MoveAt(s: State, t: Tid, p: nat) {
    p < |s.queue| && s.queue[p].Move? && s.queue[p].from == t
  }

  ghost predicate MoveQueued(s: State, t: Tid) {
    exists p: nat :: MoveAt(s, t, p)
  }

  predicate DequeuesMoveOf(s: State, l: Label, t: Tid) {
    l.Dequeue? && MoveAt(s, t, 0)
  }

  // ---- the queue ----

  /** The queue is served from the front and only grows otherwise. */
  lemma QueueStep(s: State, l: Label)
    requires Enabled(s, l)
    ensures l.Dequeue? ==> Apply(s, l).queue == s.queue[1..]
    ensures !l.Dequeue? ==> s.queue <= Apply(s, l).queue
  {
    QueueExactly(s, l);
  }

  // ---- no move is lost ----

  lemma AnsweredStep(s: State, l: Label, t: Tid)
    requires MovesInFlight(s) && Enabled(s, l) && DequeuesMoveOf(s, l, t)
    ensures ThreadOf(Apply(s, l), t).Reparenting? && ThreadOf(Apply(s, l), t).phase.Replied?
  {
    assert InFlight(s, s.queue[0]);
  }

  lemma WaitingMoving(s: State, l: Label, t: Tid)
    requires Enabled(s, l) && Moving(l) && IsWaiting(ApplyMoving(s, l), t)
    ensures IsWaiting(s, t) || (l.SendMove? && l.t == t && t != Main)
  {
    MovingFrame(s, l);
  }

  /** A thread that waits after a step waited before, or has just sent its move. */
  lemma WaitingSource(s: State, l: Label, t: Tid)
    requires MovesInFlight(s) && Enabled(s, l) && IsWaiting(Apply(s, l), t)
    ensures !DequeuesMoveOf(s, l, t)
    ensures IsWaiting(s, t) || (l.SendMove? && l.t == t && t != Main)
  {
    if Creating(l) {
      CreatingThreads(s, l, t);
    } else if Moving(l) {
      WaitingMoving(s, l, t);
    } else if l.Dequeue? {
      if MoveAt(s, t, 0) { AnsweredStep(s, l, t); } else { OthersWait(s, l, t); }
    } else {
      QuietStep(s, l);
    }
  }

  lemma NoMoveLostStep(s: State, l: Label, t: Tid)
    requires MovesInFlight(s) && Enabled(s, l) && (IsWaiting(s, t) ==> MoveQueued(s, t))
    ensures IsWaiting(Apply(s, l), t) ==> MoveQueued(Apply(s, l), t)
  {
    var s' := Apply(s, l);
    if IsWaiting(s', t) {
      WaitingSource(s, l, t);
      QueueStep(s, l);
      if IsWaiting(s, t) {
        var p: nat :| MoveAt(s, t, p);
        assert MoveAt(s', t, if l.Dequeue? then p - 1 else p);
      } else {
        MovingQueue(s, l);
        assert MoveAt(s', t, |s.queue|);
      }
    }
  }

  lemma QueuedWaits(s: State, t: Tid)
    requires MovesInFlight(s) && MoveQueued(s, t)
    ensures IsWaiting(s, t)
  {
    var p: nat :| MoveAt(s, t, p);
    assert InFlight(s, s.queue[p]);
  }

  lemma {:induction false} WaitingIsQueued(states: seq<State>, labels: seq<Label>, i: nat, t: Tid)
    requires IsRun(states, labels) && Unwrapped(states[|labels|]) && i <= |labels|
    ensures IsWaiting(states[i], t) ==> MoveQueued(states[i], t)
  {
    if i > 0 {
      WaitingIsQueued(states, labels, i - 1, t);
      RunInv(states, labels, i - 1);
      assert StepAt(states, labels, i - 1);
      NoMoveLostStep(states[i - 1], labels[i - 1], t);
    }
  }

  /** In every run a thread waits exactly as long as its move is in the queue. */
  lemma NoMoveLost(states: seq<State>, labels: seq<Label>, i: nat, t: Tid)
    requires IsRun(states, labels) && Unwrapped(states[|labels|]) && i <= |labels|
    ensures IsWaiting(states[i], t) <==> MoveQueued(states[i], t)
  {
    WaitingIsQueued(states, labels, i, t);
    RunInv(states, labels, i);
    if MoveQueued(states[i], t) { QueuedWaits(states[i], t); }
  }

  // ---- how long a worker waits ----

  ghost predicate WaitsUnder(s: State, t: Tid, c: CellId) {
    && t != Main && IsWaiting(s, t) && ThreadOf(s, t).cell == c
    && c in s.cells && s.cells[c].lock == HeldBy(t)
  }

  lemma WaitKeptMoving(s: State, l: Label, t: Tid, c: CellId)
    requires Holding(s) && Enabled(s, l) && Moving(l) && WaitsUnder(s, t, c)
    ensures WaitsUnder(ApplyMoving(s, l), t, c)
  {
    MovingFrame(s, l);
    assert HoldsLock(s, l.t);
  }

  lemma WaitKept(s: State, l: Label, t: Tid, c: CellId)
    requires Inv(s) && Enabled(s, l) && WaitsUnder(s, t, c) && !DequeuesMoveOf(s, l, t)
    ensures WaitsUnder(Apply(s, l), t, c)
  {
    if Creating(l) {
      CreatingThreads(s, l, t);
      CellsKeptCreating(s, l, c);
    } else if Moving(l) {
      WaitKeptMoving(s, l, t, c);
    } else if l.Dequeue? {
      CellsKeptDequeue(s, l, c);
      OthersWait(s, l, t);
    } else {
      QuietStep(s, l);
    }
  }

  /** A step ends the wait exactly if it handles that move. */
  lemma WaitStepIff(s: State, l: Label, t: Tid, c: CellId)
    requires Inv(s) && Enabled(s, l) && WaitsUnder(s, t, c)
    ensures WaitsUnder(Apply(s, l), t, c) <==> !DequeuesMoveOf(s, l, t)
  {
    if DequeuesMoveOf(s, l, t) { AnsweredStep(s, l, t); } else { WaitKept(s, l, t, c); }
  }

  /** Over a run, the wait lasts exactly as long as no step handles that move. */
  lemma {:induction false} WaitsIff(states: seq<State>, labels: seq<Label>, i: nat, j: nat, t: Tid, c: CellId)
    requires IsRun(states, labels) && Unwrapped(states[|labels|]) && i <= j <= |labels| && WaitsUnder(states[i], t, c)
    ensures (forall k :: i <= k <= j ==> WaitsUnder(states[k], t, c))
            <==> forall k :: i <= k < j ==> !DequeuesMoveOf(states[k], labels[k], t)
    decreases j
  {
    if i < j {
      WaitsIff(states, labels, i, j - 1, t, c);
      RunInv(states, labels, j - 1);
      assert StepAt(states, labels, j - 1);
      if WaitsUnder(states[j - 1], t, c) { WaitStepIff(states[j - 1], labels[j - 1], t, c); }
    }
  }

  /** How many messages the loop takes from the queue in `[i, j)`. */
  function Served(labels: seq<Label>, i: nat, j: nat): nat
    requires i <= j <= |labels|
  {
    if i == j then 0 else Served(labels, i, j - 1) + (if labels[j - 1].Dequeue? then 1 else 0)
  }

  /** A thread's move is the only one in the queue. */
  lemma OneMove(s: State, t: Tid, p: nat, q: nat)
    requires MovesInFlight(s) && MoveAt(s, t, p) && MoveAt(s, t, q)
    ensures p == q
  {
  }

  /**
    First come, first served: a worker whose move has `p` messages before it waits, with its cell locked,
    exactly until the loop has taken more than `p` messages from the queue.
   */
  lemma {:induction false} WaitsForTurn(states: seq<State>, labels: seq<Label>, i: nat, j: nat, t: Tid, c: CellId, p: nat)
    requires IsRun(states, labels) && Unwrapped(states[|labels|]) && i <= j <= |labels|
    requires WaitsUnder(states[i], t, c) && MoveAt(states[i], t, p)
    ensures (forall k :: i <= k <= j ==> WaitsUnder(states[k], t, c)) <==> Served(labels, i, j) <= p
    ensures Served(labels, i, j) <= p ==> MoveAt(states[j], t, p - Served(labels, i, j))
    decreases j
  {
    if i < j {
      WaitsForTurn(states, labels, i, j - 1, t, c, p);
      var s, l, n := states[j - 1], labels[j - 1], Served(labels, i, j - 1);
      RunInv(states, labels, j - 1);
      assert StepAt(states, labels, j - 1);
      QueueStep(s, l);
      if n <= p {
        assert WaitsUnder(s, t, c);
        WaitStepIff(s, l, t, c);
        if l.Dequeue? && MoveAt(s, t, 0) { OneMove(s, t, 0, p - n); }
      }
    }
  }

  // ---- user code in between ----

  /** A held cell can be neither locked nor used to close its webview. */
  lemma HeldIsBusy(s: State, t: Tid, c: CellId, target: WindowId)
    requires WaitsUnder(s, t, c)
    ensures !Enabled(s, LockCell(Main, c, target)) && !Enabled(s, PostCloseView(Main, c))
  {
  }

  /**
    While a close or exit request is open the loop takes nothing from the queue: a callback or listener
    that asks for a webview whose reparent a worker waits for gets its cell at no point before it returns.
   */
  lemma {:induction false} CallbackNeverGets(states: seq<State>, labels: seq<Label>, i: nat, j: nat, t: Tid, c: CellId)
    requires IsRun(states, labels) && Unwrapped(states[|labels|]) && i <= j <= |labels|
    requires WaitsUnder(states[i], t, c) && !states[i].pc.Top? && NoDecision(labels, i, j)
    ensures WaitsUnder(states[j], t, c) && !states[j].pc.Top?
    ensures forall target :: !Enabled(states[j], LockCell(Main, c, target))
    ensures !Enabled(states[j], PostCloseView(Main, c))
    decreases j
  {
    if i < j {
      CallbackNeverGets(states, labels, i, j - 1, t, c);
      RunInv(states, labels, j - 1);
      assert StepAt(states, labels, j - 1);
      PcStep(states[j - 1], labels[j - 1]);
      WaitKept(states[j - 1], labels[j - 1], t, c);
    }
    forall target: WindowId ensures !Enabled(states[j], LockCell(Main, c, target)) { HeldIsBusy(states[j], t, c, target); }
    HeldIsBusy(states[j], t, c, 0);
  }
}
