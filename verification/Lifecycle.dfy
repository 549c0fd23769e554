/**
  The life of a window and of the loop over whole runs: a window goes open, handle-less, removed and
  never back; close and exit requests are decided by votes; exits are counted against the moments
  the store runs empty.
 */
module Lifecycle {
  import opened Wrappers
  import opened WindowStore
  import opened Handlers
  import opened Runtime
  import opened Ownership
  import opened Runs

  // ---- stages of a window ----

  /** 0: not built yet; 1: open; 2: still listed without its handle; 3: gone. */
  ghost function Stage(s: State, w: WindowId): nat {
    if w >= s.windowsIssued || (exists a :: PendingWindow(s, a, w)) then 0
    else if w !in s.store then 3
    else if s.store[w].open then 1
    else 2
  }

  /** What a step can do to a window that was listed before and still is. */
  ghost predicate WindowKept(store: Store, store': Store, w: WindowId) {
    w in store && w in store' ==>
      && (store'[w].open ==> store[w].open)
      && (!store[w].open ==> forall v :: v in store'[w].webviews ==> v in store[w].webviews)
  }

  lemma KeptByReparent(store: Store, w: WindowId, v: WebviewId, target: WindowId, native: bool, u: WindowId)
    ensures WindowKept(store, Reparent(store, w, v, target, native).0, u)
    ensures Reparent(store, w, v, target, native).0.Keys == store.Keys
  {
    if Lists(store, w, v) {
      var vs := store[w].webviews;
      var taken := TakeWebview(store, w, v);
      assert forall x :: x in taken[w].webviews ==> x in vs;
    }
  }

  lemma KeptByCreate(s: State, c: Creation, slot: Slot, built: bool, tao: nat, w: WindowId)
    requires Distinct(s) && PendingAt(s, slot) == Some(c)
    ensures WindowKept(s.store, HandleCreate(s, c, built, tao).store, w)
    ensures s.store.Keys <= HandleCreate(s, c, built, tao).store.Keys
  {
    if c.NewWindow? { assert PendingWindow(s, slot, c.w); }
  }

  lemma KeptCreating(s: State, l: Label, w: WindowId)
    requires Distinct(s) && Enabled(s, l) && Creating(l)
    ensures WindowKept(s.store, ApplyCreating(s, l).store, w) && s.store.Keys <= ApplyCreating(s, l).store.Keys
  {
    if l.SendCreate? && l.t == Main {
      KeptByCreate(s, ThreadOf(s, Main).creation, Held(Main), l.built, l.tao, w);
    } else {
      assert ApplyCreating(s, l).store == s.store;
    }
  }

  lemma KeptMoving(s: State, l: Label, w: WindowId)
    requires Enabled(s, l) && Moving(l)
    ensures WindowKept(s.store, ApplyMoving(s, l).store, w) && s.store.Keys == ApplyMoving(s, l).store.Keys
  {
    if l.SendMove? && l.t == Main {
      var th := ThreadOf(s, Main);
      KeptByReparent(s.store, s.cells[th.cell].window, th.cell.v, th.target, l.native, w);
    } else {
      assert ApplyMoving(s, l).store == s.store;
    }
  }

  lemma KeptByClose(store: Store, w: WindowId, v: WebviewId, u: WindowId)
    ensures WindowKept(store, CloseWebview(store, w, v), u) && CloseWebview(store, w, v).Keys == store.Keys
  {
    if IsOpen(store, w) && v in store[w].webviews {
      assert u != w && u in store ==> CloseWebview(store, w, v)[u] == store[u];
    }
  }

  lemma KeptDequeue(s: State, l: Label, w: WindowId)
    requires Distinct(s) && MovesInFlight(s) && Enabled(s, l) && l.Dequeue?
    ensures WindowKept(s.store, ApplyDequeue(s, l).store, w) && s.store.Keys <= ApplyDequeue(s, l).store.Keys
  {
    var m := s.queue[0];
    if m.Create? {
      KeptByCreate(s, m.creation, Queued(0), l.ok, l.tao, w);
      assert ApplyDequeue(s, l).store == HandleCreate(s, m.creation, l.ok, l.tao).store;
    } else if m.Move? {
      KeptDequeueMove(s, l, w);
    } else {
      KeptDequeueOther(s, l, w);
    }
  }

  lemma KeptDequeueMove(s: State, l: Label, w: WindowId)
    requires Enabled(s, l) && l.Dequeue? && s.queue[0].Move? && MovesInFlight(s)
    ensures WindowKept(s.store, ApplyDequeue(s, l).store, w) && s.store.Keys <= ApplyDequeue(s, l).store.Keys
  {
    var m := s.queue[0];
    assert InFlight(s, m);
    KeptByReparent(s.store, m.w, m.v, m.target, l.ok, w);
    assert ApplyDequeue(s, l).store == Reparent(s.store, m.w, m.v, m.target, l.ok).0;
  }

  lemma KeptDequeueOther(s: State, l: Label, w: WindowId)
    requires Enabled(s, l) && l.Dequeue? && !s.queue[0].Create? && !s.queue[0].Move?
    ensures WindowKept(s.store, ApplyDequeue(s, l).store, w) && s.store.Keys <= ApplyDequeue(s, l).store.Keys
  {
    var m := s.queue[0];
    if m.CloseView? {
      KeptByClose(s.store, m.w, m.v, w);
    } else if m.DestroyWindow? {
    } else {
      assert ApplyDequeue(s, l).store == s.store;
    }
  }

  /**
    One step: a listed window never gets its handle back, a handle-less one lists no new webview, and
    only its own native `Destroyed` event takes an entry away.
   */
  lemma WindowStep(s: State, l: Label, w: WindowId)
    requires Inv(s) && Enabled(s, l)
    ensures WindowKept(s.store, Apply(s, l).store, w)
    ensures w in s.store && w !in Apply(s, l).store ==>
              l.NativeDestroyed? && l.tao in s.tao && s.tao[l.tao] == w
  {
    if Creating(l) { KeptCreating(s, l, w); }
    else if Moving(l) { KeptMoving(s, l, w); }
    else if Posting(l) { if l.PostCloseView? { KeptByClose(s.store, s.cells[l.cell].window, l.cell.v, w); } }
    else if l.Dequeue? { KeptDequeue(s, l, w); }
    else {
      var s' := ApplyEvent(s, l);
      if l.NativeDestroyed? {
      } else if l.Decide? {
      } else {
      }
    }
  }

  lemma StageStep(s: State, l: Label, w: WindowId)
    requires Inv(s) && Enabled(s, l) && Unwrapped(Apply(s, l))
    ensures Stage(s, w) <= Stage(Apply(s, l), w)
  {
    var s' := Apply(s, l);
    if Stage(s, w) > 0 {
      CountersGrow(s, l);
      forall a ensures !PendingWindow(s', a, w) { PendingSource(s, l, a); }
      WindowStep(s, l, w);
      StoreStep(s, l);
    }
  }

  /** Over a run, every window only ever moves forward through its stages. */
  lemma {:induction false} StagesNeverGoBack(states: seq<State>, labels: seq<Label>, i: nat, j: nat, w: WindowId)
    requires IsRun(states, labels) && Unwrapped(states[|labels|]) && i <= j <= |labels|
    ensures Stage(states[i], w) <= Stage(states[j], w)
    decreases j - i
  {
    if i < j {
      RunInv(states, labels, i);
      assert StepAt(states, labels, i);
      CountersMonotone(states, labels, i + 1, |labels|);
      StageStep(states[i], labels[i], w);
      StagesNeverGoBack(states, labels, i + 1, j, w);
    }
  }

  /** What a state says of a window that has lost its handle. */
  ghost predicate Closed(s: State, w: WindowId) {
    !IsOpen(s.store, w) && Stage(s, w) >= 2
  }

  lemma ClosedStage(s: State, w: WindowId)
    requires Inv(s) && w in s.store && !s.store[w].open
    ensures Closed(s, w)
  {
  }

  lemma ClosedStep(s: State, l: Label, w: WindowId)
    requires Inv(s) && Enabled(s, l) && Unwrapped(Apply(s, l)) && Closed(s, w)
    ensures Closed(Apply(s, l), w)
    ensures forall v :: Lists(Apply(s, l).store, w, v) ==> Lists(s.store, w, v)
  {
    StageStep(s, l, w);
    WindowStep(s, l, w);
  }

  /**
    Once a window has lost its handle it never has it again, so the guard of every setter and of every
    webview creation fails for it for the rest of the run, and it lists no webview it did not list then.
   */
  lemma {:induction false} HandleNeverReturns(states: seq<State>, labels: seq<Label>, i: nat, j: nat, w: WindowId)
    requires IsRun(states, labels) && Unwrapped(states[|labels|]) && i <= j <= |labels|
    requires w in states[i].store && !states[i].store[w].open
    ensures Closed(states[j], w)
    ensures forall v :: Lists(states[j].store, w, v) ==> Lists(states[i].store, w, v)
    decreases j
  {
    if i < j {
      HandleNeverReturns(states, labels, i, j - 1, w);
      RunInv(states, labels, j - 1);
      CountersMonotone(states, labels, j, |labels|);
      assert StepAt(states, labels, j - 1);
      ClosedStep(states[j - 1], labels[j - 1], w);
    } else {
      RunInv(states, labels, i);
      ClosedStage(states[i], w);
    }
  }

  // ---- votes ----

  function VotesIn(labels: seq<Label>): nat {
    if labels == [] then 0 else VotesIn(labels[..|labels| - 1]) + (if labels[|labels| - 1].Vote? then 1 else 0)
  }

  lemma {:induction false} VotesInMember(labels: seq<Label>)
    ensures VotesIn(labels) > 0 <==> exists k :: 0 <= k < |labels| && labels[k].Vote?
  {
    if labels != [] {
      var n := |labels| - 1;
      VotesInMember(labels[..n]);
      if k :| 0 <= k < |labels| && labels[k].Vote? {
        if k < n { assert labels[..n][k].Vote?; }
      }
    }
  }

  /** No close or exit request is decided in the stretch `[i, j)` of the run. */
  ghost predicate NoDecision(labels: seq<Label>, i: nat, j: nat)
    requires i <= j <= |labels|
  {
    forall k :: i <= k < j ==> !labels[k].Decide?
  }

  function Counted(pc: Pc, n: nat): Pc {
    match pc
    case Top => Top
    case Closing(w, _) => Closing(w, n)
    case ExitAsked(code, _) => ExitAsked(code, n)
  }

  /** Dispatcher calls, from whatever thread, leave the loop where it stands. */
  lemma CreatingKeepsLoop(s: State, l: Label)
    requires Enabled(s, l) && Creating(l)
    ensures ApplyCreating(s, l).pc == s.pc && ApplyCreating(s, l).control == s.control
  {
  }

  lemma MovingKeepsLoop(s: State, l: Label)
    requires Enabled(s, l) && Moving(l)
    ensures ApplyMoving(s, l).pc == s.pc && ApplyMoving(s, l).control == s.control
  {
  }

  lemma CallsKeepLoop(s: State, l: Label)
    requires Enabled(s, l) && (Creating(l) || Moving(l) || Posting(l))
    ensures Apply(s, l).pc == s.pc && Apply(s, l).control == s.control
  {
    if Creating(l) { CreatingKeepsLoop(s, l); }
    else if Moving(l) { MovingKeepsLoop(s, l); }
  }

  /** What a message opens: a close request for a listed window, an exit request with a code, or nothing. */
  function Opened(store: Store, m: Msg): Pc {
    match m
    case CloseWindow(w) => if w in store then Closing(w, 0) else Top
    case RequestExit(code) => ExitAsked(Some(code), 0)
    case _ => Top
  }

  lemma QueuedOpens(s: State, m: Msg, ok: bool, tao: nat)
    requires s.pc.Top?
    ensures var s' := HandleQueued(s, m, ok, tao);
            s'.pc == Opened(s.store, m) && s'.control == s.control && (!s'.pc.Top? ==> s'.store == s.store)
  {
    match m
    case Create(c) => assert HandleCreate(s, c, ok, tao).pc == s.pc;
    case _ =>
  }

  lemma DequeueOpens(s: State, l: Label)
    requires Enabled(s, l) && l.Dequeue?
    ensures ApplyDequeue(s, l).pc == Opened(s.store, s.queue[0])
    ensures ApplyDequeue(s, l).control == if s.control.Exit? then Exit else Wait
    ensures !ApplyDequeue(s, l).pc.Top? ==> ApplyDequeue(s, l).store == s.store
  {
    QueuedOpens(BeginEvent(s).(queue := s.queue[1..]), s.queue[0], l.ok, l.tao);
  }

  lemma PcStep(s: State, l: Label)
    requires Enabled(s, l) && !s.pc.Top? && !l.Decide?
    ensures Apply(s, l).pc == if l.Vote? then Counted(s.pc, s.pc.votes + 1) else s.pc
    ensures Apply(s, l).control == s.control
  {
    if Creating(l) || Moving(l) || Posting(l) { CallsKeepLoop(s, l); }
  }

  /** While a request is open nothing else is decided: the pending request just counts its votes. */
  lemma {:induction false} PendingRequest(states: seq<State>, labels: seq<Label>, i: nat, j: nat)
    requires IsRun(states, labels) && i <= j <= |labels|
    requires !states[i].pc.Top? && states[i].pc.votes == 0 && NoDecision(labels, i, j)
    ensures states[j].pc == Counted(states[i].pc, VotesIn(labels[i..j]))
    ensures states[j].control == states[i].control
    decreases j
  {
    if i < j {
      PendingRequest(states, labels, i, j - 1);
      assert StepAt(states, labels, j - 1);
      PcStep(states[j - 1], labels[j - 1]);
      var part := labels[i..j];
      assert part[..|part| - 1] == labels[i..j - 1] && part[|part| - 1] == labels[j - 1];
    } else {
      assert labels[i..j] == [];
    }
  }

  lemma OpenKeptWhileVoting(s: State, l: Label, w: WindowId)
    requires Inv(s) && Enabled(s, l) && !s.pc.Top? && !l.Decide? && w in s.store
    ensures w in Apply(s, l).store && Apply(s, l).store[w].open == s.store[w].open
  {
    WindowStep(s, l, w);
    if Creating(l) { OpenKeptCreating(s, l, w); }
    else if Moving(l) { OpenKeptMoving(s, l, w); }
  }

  lemma OpenKeptCreating(s: State, l: Label, w: WindowId)
    requires Distinct(s) && Enabled(s, l) && Creating(l) && w in s.store
    ensures w in ApplyCreating(s, l).store && ApplyCreating(s, l).store[w].open == s.store[w].open
  {
    if l.SendCreate? && l.t == Main {
      var c := ThreadOf(s, Main).creation;
      assert PendingAt(s, Held(Main)) == Some(c);
      if c.NewWindow? { assert PendingWindow(s, Held(Main), c.w); }
    } else {
      assert ApplyCreating(s, l).store == s.store;
    }
  }

  lemma OpenKeptMoving(s: State, l: Label, w: WindowId)
    requires Enabled(s, l) && Moving(l) && w in s.store
    ensures w in ApplyMoving(s, l).store && ApplyMoving(s, l).store[w].open == s.store[w].open
  {
    if !(l.SendMove? && l.t == Main) {
      assert ApplyMoving(s, l).store == s.store;
    }
  }

  lemma {:induction false} OpenKept(states: seq<State>, labels: seq<Label>, i: nat, j: nat, w: WindowId)
    requires IsRun(states, labels) && Unwrapped(states[|labels|]) && i <= j <= |labels|
    requires !states[i].pc.Top? && states[i].pc.votes == 0 && NoDecision(labels, i, j) && w in states[i].store
    ensures w in states[j].store && states[j].store[w].open == states[i].store[w].open
    decreases j
  {
    if i < j {
      OpenKept(states, labels, i, j - 1, w);
      RunInv(states, labels, j - 1);
      PendingRequest(states, labels, i, j - 1);
      assert StepAt(states, labels, j - 1);
      OpenKeptWhileVoting(states[j - 1], labels[j - 1], w);
    }
  }

  /** A window whose close request is pending is still listed. */
  lemma ClosingListed(states: seq<State>, labels: seq<Label>, j: nat)
    requires IsRun(states, labels) && Unwrapped(states[|labels|]) && j <= |labels| && states[j].pc.Closing?
    ensures states[j].pc.w in states[j].store
  {
    var i := RequestOpened(states, labels, j);
    assert StepAt(states, labels, i);
    AskedListed(states[i], labels[i]);
    OpenKept(states, labels, i + 1, j, states[j].pc.w);
  }

  lemma AskedListed(s: State, l: Label)
    requires Enabled(s, l) && s.pc.Top? && Apply(s, l).pc.Closing?
    ensures Apply(s, l).pc.w in Apply(s, l).store
  {
    if Creating(l) || Moving(l) || Posting(l) { CallsKeepLoop(s, l); }
    else if l.Dequeue? { DequeueOpens(s, l); }
  }

  /**
    A close request for `w` opened at step `i` and decided at step `j` costs `w` its handle exactly
    when no vote was cast in between, whatever else user code did on any thread meanwhile.
   */
  lemma CloseDecidedByVotes(states: seq<State>, labels: seq<Label>, i: nat, j: nat, w: WindowId)
    requires IsRun(states, labels) && Unwrapped(states[|labels|]) && i < j < |labels|
    requires states[i + 1].pc == Closing(w, 0)
    requires labels[j].Decide? && NoDecision(labels, i + 1, j)
    ensures w in states[i + 1].store && w in states[j + 1].store
    ensures states[j + 1].store[w].open <==>
              states[i + 1].store[w].open && exists k :: i < k < j && labels[k].Vote?
  {
    ClosingListed(states, labels, i + 1);
    PendingRequest(states, labels, i + 1, j);
    OpenKept(states, labels, i + 1, j, w);
    assert StepAt(states, labels, j);
    var part := labels[i + 1..j];
    VotesInMember(part);
    if k :| i < k < j && labels[k].Vote? { assert part[k - i - 1].Vote?; }
    if k :| 0 <= k < |part| && part[k].Vote? { assert labels[i + 1 + k].Vote?; }
  }

  // ---- exit ----

  /** Step `i` emits `ExitRequested` with this code. */
  ghost predicate AsksExit(states: seq<State>, labels: seq<Label>, i: nat, code: Option<int>)
    requires i < |labels| < |states|
  {
    states[i].pc.Top? && states[i + 1].pc == ExitAsked(code, 0)
  }

  /** The exit request of step `i` is decided at step `j` and nobody voted in between. */
  ghost predicate UnvetoedExit(states: seq<State>, labels: seq<Label>, i: nat, j: nat)
    requires i < j < |labels| < |states|
  {
    && states[i].pc.Top? && states[i + 1].pc.ExitAsked? && states[i + 1].pc.votes == 0
    && labels[j].Decide? && NoDecision(labels, i + 1, j)
    && forall k :: i < k < j ==> !labels[k].Vote?
  }

  lemma ControlStep(s: State, l: Label)
    requires Enabled(s, l)
    ensures s.control.Exit? ==> Apply(s, l).control.Exit?
    ensures !s.control.Exit? && Apply(s, l).control.Exit? ==> l.Decide? && s.pc.ExitAsked? && s.pc.votes == 0
  {
    if Creating(l) || Moving(l) || Posting(l) { CallsKeepLoop(s, l); }
    else if l.Dequeue? { DequeueOpens(s, l); }
  }

  lemma PcOpens(s: State, l: Label)
    requires Enabled(s, l) && s.pc.Top? && !Apply(s, l).pc.Top?
    ensures Apply(s, l).pc.votes == 0
  {
    if Creating(l) || Moving(l) || Posting(l) { CallsKeepLoop(s, l); }
    else if l.Dequeue? { DequeueOpens(s, l); }
  }

  lemma DecideCloses(s: State, l: Label)
    ensures Enabled(s, l) && l.Decide? ==> Apply(s, l).pc.Top?
  {
  }

  /** The step that opened the request which is open at `j`. */
  lemma {:induction false} RequestOpened(states: seq<State>, labels: seq<Label>, j: nat) returns (i: nat)
    requires IsRun(states, labels) && j <= |labels| && !states[j].pc.Top?
    ensures i < j && states[i].pc.Top? && NoDecision(labels, i + 1, j)
    ensures states[i + 1].pc == Counted(states[j].pc, 0)
    ensures states[j].pc.votes == VotesIn(labels[i + 1..j])
  {
    assert j > 0;
    assert StepAt(states, labels, j - 1);
    if states[j - 1].pc.Top? {
      i := j - 1;
      PcOpens(states[i], labels[i]);
      assert labels[i + 1..j] == [];
    } else {
      i := RequestOpened(states, labels, j - 1);
      DecideCloses(states[j - 1], labels[j - 1]);
      PendingRequest(states, labels, i + 1, j);
    }
  }

  /** `Exit` is sticky. */
  lemma {:induction false} ExitIsFinal(states: seq<State>, labels: seq<Label>, i: nat, j: nat)
    requires IsRun(states, labels) && i <= j <= |labels| && states[i].control.Exit?
    ensures states[j].control.Exit?
    decreases j - i
  {
    if i < j {
      assert StepAt(states, labels, i);
      ControlStep(states[i], labels[i]);
      ExitIsFinal(states, labels, i + 1, j);
    }
  }

  /** The loop reaches `Exit` only through an exit request on which no plugin and no callback voted. */
  lemma {:induction false} ExitNeedsUnvetoedRequest(states: seq<State>, labels: seq<Label>, n: nat) returns (i: nat, j: nat)
    requires IsRun(states, labels) && n <= |labels| && states[n].control.Exit?
    ensures i < j < n && UnvetoedExit(states, labels, i, j)
  {
    assert n > 0;
    assert StepAt(states, labels, n - 1);
    if states[n - 1].control.Exit? {
      i, j := ExitNeedsUnvetoedRequest(states, labels, n - 1);
    } else {
      ControlStep(states[n - 1], labels[n - 1]);
      j := n - 1;
      i := RequestOpened(states, labels, j);
      var part := labels[i + 1..j];
      VotesInMember(part);
      forall k | i < k < j ensures !labels[k].Vote? { assert labels[k] == part[k - i - 1]; }
    }
  }

  /** Conversely, an unvetoed exit request ends the loop. */
  lemma UnvetoedRequestExits(states: seq<State>, labels: seq<Label>, i: nat, j: nat)
    requires IsRun(states, labels) && i < j < |labels| && UnvetoedExit(states, labels, i, j)
    ensures states[j + 1].control.Exit?
  {
    PendingRequest(states, labels, i + 1, j);
    var part := labels[i + 1..j];
    VotesInMember(part);
    forall k | 0 <= k < |part| ensures !part[k].Vote? { assert part[k] == labels[i + 1 + k]; }
    assert StepAt(states, labels, j);
  }

  // ---- exit accounting ----

  ghost predicate Empties(states: seq<State>, i: nat)
    requires i + 1 < |states|
  {
    states[i].store != map[] && states[i + 1].store == map[]
  }

  /** A step asks for an exit without a code exactly when it takes the store from non-empty to empty. */
  lemma EmptiesStep(s: State, l: Label)
    requires Inv(s) && Enabled(s, l)
    ensures s.store != map[] && Apply(s, l).store == map[] <==> s.pc.Top? && Apply(s, l).pc == ExitAsked(None, 0)
  {
    if s.store != map[] {
      var w :| w in s.store;
      WindowStep(s, l, w);
    }
    if Creating(l) || Moving(l) || Posting(l) { CallsKeepLoop(s, l); }
    else if l.Dequeue? { DequeueOpens(s, l); }
    else if l.NativeDestroyed? { DestroyedEmpties(s, l); }
  }

  lemma DestroyedEmpties(s: State, l: Label)
    requires l.NativeDestroyed? && s.pc.Top?
    ensures s.store != map[] && ApplyEvent(s, l).store == map[] <==> ApplyEvent(s, l).pc == ExitAsked(None, 0)
  {
    if l.tao in s.tao {
      var w := s.tao[l.tao];
      if w !in s.store { assert RemoveWindow(s.store, w) == s.store; }
    }
  }

  ghost function CountEmptied(states: seq<State>, n: nat): nat
    requires n < |states|
  {
    if n == 0 then 0 else CountEmptied(states, n - 1) + (if Empties(states, n - 1) then 1 else 0)
  }

  ghost function CountExitRequests(states: seq<State>, labels: seq<Label>, n: nat): nat
    requires n <= |labels| < |states|
  {
    if n == 0 then 0
    else CountExitRequests(states, labels, n - 1) + (if AsksExit(states, labels, n - 1, None) then 1 else 0)
  }

  /**
    Over every run, the `ExitRequested` events without a code are as many as the times the store went
    from non-empty to empty, and they happen at the same steps.
   */
  lemma {:induction false} ExitAccounting(states: seq<State>, labels: seq<Label>, n: nat)
    requires IsRun(states, labels) && Unwrapped(states[|labels|]) && n <= |labels|
    ensures CountExitRequests(states, labels, n) == CountEmptied(states, n)
    ensures forall i :: 0 <= i < n ==> (AsksExit(states, labels, i, None) <==> Empties(states, i))
  {
    if n > 0 {
      ExitAccounting(states, labels, n - 1);
      RunInv(states, labels, n - 1);
      assert StepAt(states, labels, n - 1);
      EmptiesStep(states[n - 1], labels[n - 1]);
    }
  }
}
