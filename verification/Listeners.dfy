/**
  Events and the user code they run: which listeners and callbacks, in which order, with which outcome,
  all told by the dry run of that code; and that registered listeners are among them.
 */
module Listeners {
  import opened WindowStore
  import opened Reentrancy
  import opened Closures

  /** The bodies one after the other. */
  function Joined(bodies: seq<seq<Call>>): seq<Call> {
    if bodies == [] then [] else bodies[0] + Joined(bodies[1..])
  }

  lemma {:induction false} DryAppend(d: World, a: seq<Call>, b: seq<Call>)
    ensures DryRun(d, a + b, {}) ==
              var first := DryRun(d, a, {});
              if first.Through? then DryRun(first.world, b, {}) else first
    decreases |a|
  {
    if a == [] {
      assert a + b == b;
    } else {
      assert (a + b)[0] == a[0] && (a + b)[1..] == a[1..] + b;
      var first := DryCall(d, a[0], {});
      if first.Through? { DryAppend(first.world, a[1..], b); }
    }
  }

  lemma UserFollows(m: Machine, body: seq<Call>)
    requires m.borrow.Unborrowed? && m.cellsHeld == {}
    ensures Follows(m, RunUser(m, body), DryRun(Seen(m), body, {}))
  {
    RunFollowsDry(m, body);
  }

  lemma CallbackFollows(m: Machine, body: seq<Call>)
    requires m.borrow.Unborrowed? && m.cellsHeld == {} && !m.callbackBusy
    ensures Follows(m, RunCallback(m, body), DryRun(Seen(m), body, {}))
  {
    UserFollows(m.(callbackBusy := true), body);
  }

  lemma {:induction false} AllFollow(m: Machine, bodies: seq<seq<Call>>)
    requires m.borrow.Unborrowed? && m.cellsHeld == {}
    ensures Follows(m, RunAll(m, bodies), DryRun(Seen(m), Joined(bodies), {}))
    decreases |bodies|
  {
    if bodies != [] {
      UserFollows(m, bodies[0]);
      DryAppend(Seen(m), bodies[0], Joined(bodies[1..]));
      var o := RunUser(m, bodies[0]);
      if o.Done? { AllFollow(o.m, bodies[1..]); }
    }
  }

  /** An announced event runs the callback and then every listener of the table, in order, and nothing else. */
  lemma AnnounceFollows(m: Machine, t: Table, callback: seq<Call>)
    requires LocksFree(m)
    ensures Follows(m, Announce(m, t, callback), DryRun(Seen(m), callback + Joined(ListenersOf(m, t)), {}))
  {
    CallbackFollows(m, callback);
    DryAppend(Seen(m), callback, Joined(ListenersOf(m, t)));
    var o := RunCallback(m, callback);
    if o.Done? {
      var m2 := o.m.(locked := o.m.locked + {t});
      AllFollow(m2, ListenersOf(m2, t));
      assert ListenersOf(m2, t) == ListenersOf(m, t);
      assert ({} + {t}) - {t} == {};
    }
  }

  /** The world after a close request: unless prevented, the window has given up its handle. */
  function Closed(course: Course, w: WindowId, prevented: bool): Course {
    if course.Through? && !prevented then Through(course.world.(store := DropHandle(course.world.store, w))) else course
  }

  /** A close request runs every listener of the window and then the callback, and only then gives up the handle. */
  lemma CloseFollows(m: Machine, w: WindowId, callback: seq<Call>, prevented: bool)
    requires LocksFree(m)
    ensures w in m.store ==>
              Follows(m, OnCloseRequested(m, w, callback, prevented),
                      Closed(DryRun(Seen(m), Joined(ListenersOf(m, OfWindow(w))) + callback, {}), w, prevented))
    ensures w !in m.store ==> OnCloseRequested(m, w, callback, prevented) == Done(m)
  {
    var t := OfWindow(w);
    assert EndRead(m.(borrow := Reading(1))) == m;
    if w in m.store {
      var m3 := m.(locked := m.locked + {t});
      AllFollow(m3, ListenersOf(m3, t));
      DryAppend(Seen(m), Joined(ListenersOf(m, t)), callback);
      var o := RunAll(m3, ListenersOf(m3, t));
      if o.Done? { CallbackFollows(o.m, callback); }
      assert ({} + {t}) - {t} == {};
    }
  }

  /** A handled registration on an open window puts the listener last in that window's table and changes nothing else. */
  lemma RegistrationLands(m: Machine, w: WindowId, listener: seq<Call>, callback: seq<Call>, prevented: bool)
    requires LocksFree(m)
    ensures var o := HandleQueued(m, ToWindow(w, AddListener(listener)), callback, prevented);
            && o.Done? && LocksFree(o.m) && Seen(o.m) == Seen(m)
            && (forall t :: ListenersOf(o.m, t) ==
                  if t == OfWindow(w) && IsOpen(m.store, w) then ListenersOf(m, t) + [listener] else ListenersOf(m, t))
  {
    assert EndRead(m.(borrow := Reading(1))) == m;
    assert ({} + {OfWindow(w)}) - {OfWindow(w)} == {};
  }

  lemma {:induction false} JoinedSnoc(bodies: seq<seq<Call>>, last: seq<Call>)
    ensures Joined(bodies + [last]) == Joined(bodies) + last
  {
    if bodies == [] {
      assert bodies + [last] == [last] && [last][1..] == [];
      assert last + [] == last;
    } else {
      assert (bodies + [last])[0] == bodies[0] && (bodies + [last])[1..] == bodies[1..] + [last];
      JoinedSnoc(bodies[1..], last);
      assert bodies[0] + (Joined(bodies[1..]) + last) == bodies[0] + Joined(bodies[1..]) + last;
    }
  }

  /** So a listener registered on an open window runs, after all earlier ones, on the next event announced there. */
  lemma RegisteredRuns(m: Machine, w: WindowId, listener: seq<Call>, callback: seq<Call>)
    requires LocksFree(m) && IsOpen(m.store, w)
    ensures var o := HandleQueued(m, ToWindow(w, AddListener(listener)), [], false);
            o.Done? && Follows(o.m, Announce(o.m, OfWindow(w), callback),
                               DryRun(Seen(m), callback + (Joined(ListenersOf(m, OfWindow(w))) + listener), {}))
  {
    RegistrationLands(m, w, listener, [], false);
    var m1 := HandleQueued(m, ToWindow(w, AddListener(listener)), [], false).m;
    AnnounceFollows(m1, OfWindow(w), callback);
    JoinedSnoc(ListenersOf(m, OfWindow(w)), listener);
  }

  // ---- whole events ----

  /** A close request from world `d`: for an unknown window nothing happens. */
  function CloseCourse(d: World, listeners: seq<seq<Call>>, w: WindowId, callback: seq<Call>, prevented: bool): Course {
    if w in d.store then Closed(DryRun(d, Joined(listeners) + callback, {}), w, prevented) else Through(d)
  }

  /** An event is announced to a listed window, and then its own part is played. */
  function NativeCourse(d: World, listeners: seq<seq<Call>>, e: Event): Course
    requires e.Native?
  {
    var d1 :- (if e.reported && e.w in d.store then DryRun(d, e.callback + Joined(listeners), {}) else Through(d));
    match e.kind
    case CloseRequested => CloseCourse(d1, listeners, e.w, e.second, e.prevented)
    case Destroyed =>
      var d2 := d1.(store := RemoveWindow(d1.store, e.w));
      if e.w in d1.store && d2.store == map[] then DryRun(d2, e.second, {}) else Through(d2)
    case _ => Through(d1)
  }

  lemma DestroyedFollows(m: Machine, w: WindowId, second: seq<Call>)
    requires LocksFree(m)
    ensures var d := Seen(m).(store := RemoveWindow(m.store, w));
            var m' := m.(store := RemoveWindow(m.store, w));
            && UpdateStore(m, RemoveWindow(m.store, w)) == Done(m') && Seen(m') == d
            && Follows(m, RunCallback(m', second), DryRun(d, second, {}))
  {
    CallbackFollows(m.(store := RemoveWindow(m.store, w)), second);
  }

  /** Every native event runs exactly the code its course says, and changes exactly the store its course says. */
  lemma NativeFollows(m: Machine, e: Event)
    requires LocksFree(m) && e.Native?
    ensures Follows(m, HandleNative(m, e), NativeCourse(Seen(m), ListenersOf(m, OfWindow(e.w)), e))
  {
    assert EndRead(m.(borrow := Reading(1))) == m;
    AnnounceFollows(m, OfWindow(e.w), e.callback);
    var o := if e.reported && e.w in m.store then Announce(m, OfWindow(e.w), e.callback) else Done(m);
    if o.Done? {
      var m3 := o.m;
      assert ListenersOf(m3, OfWindow(e.w)) == ListenersOf(m, OfWindow(e.w));
      match e.kind
      case CloseRequested => CloseFollows(m3, e.w, e.second, e.prevented);
      case Destroyed =>
        DestroyedFollows(m3, e.w, e.second);
        var m4 := m3.(store := RemoveWindow(m3.store, e.w));
        assert EndRead(m4.(borrow := Reading(1))) == m4;
      case _ => assert EndRead(m3.(borrow := Reading(1))) == m3;
    }
  }

  /** The course of a message taken from the queue that runs listeners or callbacks. */
  function QueuedCourse(m: Machine, msg: Msg, callback: seq<Call>, prevented: bool): Course
    requires Announces(msg)
  {
    match msg
    case ToView(w, v, ViewEvent) =>
      if Lists(m.store, w, v) then DryRun(Seen(m), callback + Joined(ListenersOf(m, OfView(v))), {}) else Through(Seen(m))
    case ToView(w, v, Synthesized) =>
      if w in m.store then DryRun(Seen(m), callback + Joined(ListenersOf(m, OfWindow(w))), {}) else Through(Seen(m))
    case ToWindow(w, Close) => CloseCourse(Seen(m), ListenersOf(m, OfWindow(w)), w, callback, prevented)
    case ToWindow(w, Destroy) => Through(Seen(m).(store := DropHandle(m.store, w)))
    case _ => DryRun(Seen(m), callback, {})
  }

  predicate Announces(msg: Msg) {
    || msg.Exit? || msg.UserEvent?
    || (msg.ToWindow? && (msg.op.Close? || msg.op.Destroy?))
    || (msg.ToView? && (msg.vop.ViewEvent? || msg.vop.Synthesized?))
  }

  lemma QueuedFollows(m: Machine, msg: Msg, callback: seq<Call>, prevented: bool)
    requires LocksFree(m) && Announces(msg)
    ensures Follows(m, HandleQueued(m, msg, callback, prevented), QueuedCourse(m, msg, callback, prevented))
  {
    assert EndRead(m.(borrow := Reading(1))) == m;
    match msg
    case ToView(w, v, ViewEvent) => AnnounceFollows(m, OfView(v), callback);
    case ToView(w, v, Synthesized) => AnnounceFollows(m, OfWindow(w), callback);
    case ToWindow(w, Close) => CloseFollows(m, w, callback, prevented);
    case ToWindow(w, Destroy) =>
    case _ => CallbackFollows(m, callback);
  }
}
