/**
  The `beforeDevCommand` kill protocol: any number of callers (Ctrl-C handler, application exit, error
  path), the thread that publishes the two statics, and the watcher thread, in every interleaving of
  their steps. Memory is sequentially consistent.
 */
module DevKill {
  import opened Wrappers

  /** Where a caller of `kill_before_dev_process` stands. */
  datatype Pc =
    | Begin
    | Waiting
    | Locked
    | Claiming
    | Scripting
    | Killing
    | Leaving
    | Returned(saw: bool)
    | Panicked

  /** What the callers share; `scripts` and `kills` count the kill scripts started and the kills sent. */
  datatype Shared = Shared(
    published: bool,
    flag: Option<bool>,
    owner: Option<nat>,
    poisoned: bool,
    scripts: nat,
    kills: nat)

  datatype Cause = Own | Script | Kill

  datatype Child = Alive | Dead(cause: Cause, success: bool)

  datatype Watcher = Watching | Woken | Quiet | Reported | Fallen

  datatype State = State(shared: Shared, callers: seq<Pc>, child: Child, watcher: Watcher, exited: bool)

  predicate Blocked(s: Shared, pc: Pc) {
    pc == Waiting && s.owner.Some?
  }

  predicate Finished(pc: Pc) {
    pc.Returned? || pc.Panicked?
  }

  /** One atomic step of a caller; `ready` says whether the kill script could be prepared without a panic. */
  function CallerStep(s: Shared, me: nat, pc: Pc, ready: bool): (Shared, Pc)
    requires !Finished(pc) && !Blocked(s, pc)
  {
    match pc
    case Begin => (s, if s.published then Waiting else Returned(false))
    case Waiting => if s.poisoned then (s, Panicked) else (s.(owner := Some(me)), Locked)
    case Locked =>
      (match s.flag
       case None => (s.(owner := None, poisoned := true), Panicked)
       case Some(true) => (s, Leaving)
       case Some(false) => (s, Claiming))
    case Claiming => (s.(flag := Some(true)), Scripting)
    case Scripting =>
      if ready then (s.(scripts := s.scripts + 1), Killing)
      else (s.(owner := None, poisoned := true), Panicked)
    case Killing => (s.(kills := s.kills + 1), Leaving)
    case Leaving => (s.(owner := None), Returned(true))
  }

  // ---- one call without interference ----

  function Rank(pc: Pc): nat {
    match pc
    case Begin => 7 case Waiting => 6 case Locked => 5 case Claiming => 4 case Scripting => 3
    case Killing => 2 case Leaving => 1 case _ => 0
  }

  ghost function Alone(s: Shared, me: nat, pc: Pc, ready: bool): (Shared, Pc)
    requires s.owner == None || InSection(pc) || Finished(pc)
    decreases Rank(pc)
  {
    if Finished(pc) then (s, pc) else
      var (s', pc') := CallerStep(s, me, pc, ready);
      Alone(s', me, pc', ready)
  }

  class Process {
    var published: bool
    var flag: Option<bool>
    var owner: Option<nat>
    var poisoned: bool
    var scripts: nat
    var kills: nat

    constructor ()
      ensures View() == Shared(false, None, None, false, 0, 0)
    {
      published, flag, owner, poisoned, scripts, kills := false, None, None, false, 0, 0;
    }

    function View(): Shared
      reads this
    {
      Shared(published, flag, owner, poisoned, scripts, kills)
    }

    /**
      `kill_before_dev_process`, undisturbed. With both statics published and nothing panicked before, it
      returns with the flag set, and has sent the kill itself exactly if the flag was clear.
     */
    method KillBeforeDev(me: nat, ready: bool) returns (end: Pc)
      requires owner == None
      modifies this
      ensures (View(), end) == Alone(old(View()), me, Begin, ready)
      ensures owner == None && published == old(published)
      ensures !old(published) ==> end == Returned(false) && View() == old(View())
      ensures old(published) && !old(poisoned) && old(flag).Some? && (old(flag).value || ready) ==>
                && end == Returned(true) && flag == Some(true) && !poisoned
                && kills == old(kills) + (if old(flag).value then 0 else 1)
                && scripts == old(scripts) + (if old(flag).value then 0 else 1)
      ensures old(published) && (old(poisoned) || old(flag).None? || !(old(flag).value || ready)) ==>
                end == Panicked && poisoned && kills == old(kills)
    {
      if !published {
        return Returned(false);
      }
      if poisoned {
        return Panicked;
      }
      owner := Some(me);
      if flag.None? {
        owner, poisoned := None, true;
        return Panicked;
      }
      if flag == Some(true) {
        owner := None;
        return Returned(true);
      }
      flag := Some(true);
      if !ready {
        owner, poisoned := None, true;
        return Panicked;
      }
      scripts := scripts + 1;
      kills := kills + 1;
      owner := None;
      return Returned(true);
    }
  }

  // ---- all threads ----

  datatype Label =
    | PublishChild
    | PublishFlag
    | Call
    | Caller(i: nat, ready: bool)
    | Exit(i: nat)
    | ChildEnds(cause: Cause, success: bool)
    | Wake
    | Verdict

  predicate Enabled(st: State, l: Label) {
    && !st.exited
    && match l
       case PublishChild => !st.shared.published
       case PublishFlag => st.shared.published && st.shared.flag == None
       case Call => true
       case Caller(i, _) => i < |st.callers| && !Finished(st.callers[i]) && !Blocked(st.shared, st.callers[i])
       case Exit(i) => i < |st.callers| && st.callers[i].Returned?
       case ChildEnds(cause, _) =>
         && st.child == Alive
         && (cause == Script ==> st.shared.scripts > 0)
         && (cause == Kill ==> st.shared.kills > 0)
       case Wake => st.watcher == Watching && st.child.Dead?
       case Verdict => st.watcher == Woken && st.child.Dead?
  }

  /** What the watcher concludes from the exit status and the flag. */
  function Conclude(success: bool, flag: Option<bool>): Watcher {
    if success then Quiet
    else if flag == None then Fallen
    else if flag.value then Quiet
    else Reported
  }

  function Apply(st: State, l: Label): State
    requires Enabled(st, l)
  {
    match l
    case PublishChild => st.(shared := st.shared.(published := true))
    case PublishFlag => st.(shared := st.shared.(flag := Some(false)))
    case Call => st.(callers := st.callers + [Begin])
    case Caller(i, ready) =>
      var (shared, pc) := CallerStep(st.shared, i, st.callers[i], ready);
      st.(shared := shared, callers := st.callers[i := pc])
    case Exit(_) => st.(exited := true)
    case ChildEnds(cause, success) => st.(child := Dead(cause, success))
    case Wake => st.(watcher := Woken)
    case Verdict =>
      var w := Conclude(st.child.success, st.shared.flag);
      st.(watcher := w, exited := w == Reported)
  }

  const Start := State(Shared(false, None, None, false, 0, 0), [], Alive, Watching, false)

  ghost predicate IsRun(run: seq<State>, labels: seq<Label>) {
    && |run| == |labels| + 1 && run[0] == Start
    && forall k :: 0 <= k < |labels| ==> Enabled(run[k], labels[k]) && run[k + 1] == Apply(run[k], labels[k])
  }

  // ---- the invariant ----

  predicate InSection(pc: Pc) {
    pc.Locked? || pc.Claiming? || pc.Scripting? || pc.Killing? || pc.Leaving?
  }

  ghost predicate Exclusion(st: State) {
    && (st.shared.owner.Some? ==> st.shared.owner.value < |st.callers|)
    && forall i :: 0 <= i < |st.callers| ==> (InSection(st.callers[i]) <==> st.shared.owner == Some(i))
  }

  /** What one caller's place says about the shared state. */
  predicate Fits(s: Shared, pc: Pc) {
    match pc
    case Begin => true
    case Waiting => s.published
    case Locked => s.published
    case Claiming => s.flag == Some(false)
    case Scripting => s.flag == Some(true) && s.scripts == 0 && s.kills == 0
    case Killing => s.flag == Some(true) && s.scripts == 1 && s.kills == 0
    case Leaving => s.kills == 1
    case Returned(saw) => saw ==> s.kills == 1
    case Panicked => s.poisoned
  }

  /** The flag, the script and the kill, in this order and once. */
  predicate Ordered(s: Shared) {
    && s.kills <= s.scripts <= 1
    && (s.flag.Some? ==> s.published)
    && (s.scripts > 0 ==> s.flag == Some(true))
    && (s.poisoned ==> s.owner == None && s.kills == s.scripts == 0)
  }

  /** A set flag means the kill is done, or its caller is at it, or it panicked. */
  ghost predicate Claimed(st: State) {
    st.shared.flag == Some(true) && st.shared.kills == 0 && !st.shared.poisoned ==>
      && st.shared.owner.Some? && Exclusion(st)
      && var pc := st.callers[st.shared.owner.value]; pc.Scripting? || pc.Killing?
  }

  predicate Watched(st: State) {
    && (st.child.Dead? && st.child.cause != Own ==> st.shared.flag == Some(true))
    && (st.watcher != Watching ==> st.child.Dead?)
    && (st.watcher == Reported || st.watcher == Fallen ==> st.child == Dead(Own, false))
  }

  ghost predicate Inv(st: State) {
    && Exclusion(st) && Ordered(st.shared) && Claimed(st) && Watched(st)
    && forall i :: 0 <= i < |st.callers| ==> Fits(st.shared, st.callers[i])
  }

  /** A caller inside the section keeps what every other caller relies on. */
  lemma OthersFit(st: State, i: nat, ready: bool, j: nat)
    requires Inv(st) && Enabled(st, Caller(i, ready)) && j < |st.callers| && j != i
    ensures Fits(CallerStep(st.shared, i, st.callers[i], ready).0, st.callers[j])
  {
  }

  lemma CallerExclusion(st: State, i: nat, ready: bool)
    requires Exclusion(st) && Ordered(st.shared) && Enabled(st, Caller(i, ready))
    ensures Exclusion(Apply(st, Caller(i, ready)))
  {
  }

  lemma CallerShared(st: State, i: nat, ready: bool)
    requires Inv(st) && Enabled(st, Caller(i, ready))
    ensures var (shared, pc) := CallerStep(st.shared, i, st.callers[i], ready); Ordered(shared) && Fits(shared, pc)
  {
  }

  lemma CallerClaimed(st: State, i: nat, ready: bool)
    requires Inv(st) && Enabled(st, Caller(i, ready))
    ensures Claimed(Apply(st, Caller(i, ready))) && Watched(Apply(st, Caller(i, ready)))
  {
  }

  lemma CallerInv(st: State, i: nat, ready: bool)
    requires Inv(st) && Enabled(st, Caller(i, ready))
    ensures Inv(Apply(st, Caller(i, ready)))
  {
    var next := Apply(st, Caller(i, ready));
    CallerShared(st, i, ready);
    CallerExclusion(st, i, ready);
    CallerClaimed(st, i, ready);
    forall j | 0 <= j < |next.callers| ensures Fits(next.shared, next.callers[j]) {
      if j != i { OthersFit(st, i, ready, j); }
    }
  }

  lemma Step(st: State, l: Label)
    requires Inv(st) && Enabled(st, l)
    ensures Inv(Apply(st, l))
  {
    if l.Caller? {
      CallerInv(st, l.i, l.ready);
    } else {
      var next := Apply(st, l);
      assert Ordered(next.shared);
    }
  }

  lemma {:induction false} RunInv(run: seq<State>, labels: seq<Label>, k: nat)
    requires IsRun(run, labels) && k < |run|
    ensures Inv(run[k])
  {
    if k > 0 {
      RunInv(run, labels, k - 1);
      Step(run[k - 1], labels[k - 1]);
    }
  }

  // ---- the results ----

  /** In every run the script and the kill happen at most once each, and only with the flag set. */
  lemma KilledOnce(run: seq<State>, labels: seq<Label>, k: nat)
    requires IsRun(run, labels) && k < |run|
    ensures var s := run[k].shared;
            s.kills <= s.scripts <= 1 && (s.scripts > 0 ==> s.flag == Some(true))
  {
    RunInv(run, labels, k);
  }

  /** A watcher reports, or falls, only if the child failed on its own: never because of the script or the kill. */
  lemma KillNeverReported(run: seq<State>, labels: seq<Label>, k: nat)
    requires IsRun(run, labels) && k < |run|
    ensures run[k].watcher == Reported || run[k].watcher == Fallen ==> run[k].child == Dead(Own, false)
    ensures run[k].child.Dead? && run[k].child.cause != Own ==> run[k].watcher in {Watching, Woken, Quiet}
  {
    RunInv(run, labels, k);
  }

  /**
    A caller that found the child returns only after the kill was sent, by itself or by another, so no
    such caller ends the process with the child still to be killed.
   */
  lemma ReturnAfterKill(run: seq<State>, labels: seq<Label>, k: nat, i: nat)
    requires IsRun(run, labels) && k < |run| && i < |run[k].callers|
    ensures run[k].callers[i] == Returned(true) ==> run[k].shared.kills == 1
    ensures run[k].callers[i] == Panicked ==> run[k].shared.poisoned
  {
    RunInv(run, labels, k);
  }

  /** At most one caller is past the lock. */
  lemma OneInSection(run: seq<State>, labels: seq<Label>, k: nat, i: nat, j: nat)
    requires IsRun(run, labels) && k < |run| && i < |run[k].callers| && j < |run[k].callers|
    requires InSection(run[k].callers[i]) && InSection(run[k].callers[j])
    ensures i == j
  {
    RunInv(run, labels, k);
  }

  lemma {:induction false} FlagStays(run: seq<State>, labels: seq<Label>, k: nat, m: nat)
    requires IsRun(run, labels) && k <= m < |run|
    ensures run[k].shared.published ==> run[m].shared.published
    ensures run[k].shared.flag.Some? ==> run[m].shared.flag.Some?
    ensures run[k].shared.flag == Some(true) ==> run[m].shared.flag == Some(true)
    ensures run[k].shared.poisoned ==> run[m].shared.poisoned
    ensures run[k].watcher == Fallen ==> run[m].watcher == Fallen
    ensures run[k].child.Dead? ==> run[m].child == run[k].child
    decreases m
  {
    if k < m { FlagStays(run, labels, k, m - 1); }
  }

  /**
    A watcher falls (its flag lookup panics) in the step that judges a failed child before the flag is
    published, and in no other; it reports exactly if the flag is published and still clear.
   */
  lemma VerdictIff(run: seq<State>, labels: seq<Label>, k: nat)
    requires IsRun(run, labels) && k < |labels| && labels[k] == Verdict
    ensures run[k + 1].watcher == Fallen <==> !run[k].child.success && run[k].shared.flag == None
    ensures run[k + 1].watcher == Reported <==> !run[k].child.success && run[k].shared.flag == Some(false)
    ensures run[k + 1].watcher == Reported ==> run[k + 1].exited && run[k].shared.kills == 0 && run[k].child.cause == Own
    ensures forall j :: 0 <= j <= k && run[j].shared.flag.Some? ==> run[k + 1].watcher != Fallen
  {
    RunInv(run, labels, k);
    RunInv(run, labels, k + 1);
    forall j | 0 <= j <= k && run[j].shared.flag.Some? ensures run[k + 1].watcher != Fallen {
      FlagStays(run, labels, j, k);
    }
  }

  /** After a panic inside the section the child is never killed and no caller that found it ever returns. */
  lemma PanicIsFinal(run: seq<State>, labels: seq<Label>, k: nat, m: nat)
    requires IsRun(run, labels) && k <= m < |run| && run[k].shared.poisoned
    ensures run[m].shared.kills == 0
    ensures forall i :: 0 <= i < |run[m].callers| ==> run[m].callers[i] != Returned(true)
  {
    FlagStays(run, labels, k, m);
    RunInv(run, labels, m);
  }

  /** A caller step that panics while it holds the lock. */
  predicate Poisons(st: State, l: Label) {
    && l.Caller? && l.i < |st.callers|
    && (|| (st.callers[l.i].Locked? && st.shared.flag == None)
        || (st.callers[l.i].Scripting? && !l.ready))
  }

  /** The lock is poisoned exactly by a look at the unpublished flag or a script that cannot be prepared. */
  lemma {:induction false} PoisonedIff(run: seq<State>, labels: seq<Label>, k: nat)
    requires IsRun(run, labels) && k < |run|
    ensures run[k].shared.poisoned <==> exists j :: 0 <= j < k && Poisons(run[j], labels[j])
  {
    if k > 0 {
      PoisonedIff(run, labels, k - 1);
      assert run[k].shared.poisoned <==> run[k - 1].shared.poisoned || Poisons(run[k - 1], labels[k - 1]);
    }
  }

  /** Callers that start after both statics are published, with a script that can be prepared, do not panic. */
  lemma {:induction false} NoPanicAfterPublication(run: seq<State>, labels: seq<Label>, k: nat)
    requires IsRun(run, labels) && k < |run|
    requires forall j :: 0 <= j < |labels| && labels[j].Call? ==> run[j].shared.flag.Some?
    requires forall j :: 0 <= j < |labels| && labels[j].Caller? ==> labels[j].ready
    ensures !run[k].shared.poisoned && (run[k].callers != [] ==> run[k].shared.flag.Some?)
    ensures forall i :: 0 <= i < |run[k].callers| ==> run[k].callers[i] != Panicked && run[k].callers[i] != Returned(false)
  {
    if k > 0 {
      NoPanicAfterPublication(run, labels, k - 1);
      RunInv(run, labels, k - 1);
    }
  }

  /** The watcher is started before the flag is published: a child that fails at once makes it fall. */
  lemma WatcherFalls() returns (run: seq<State>, labels: seq<Label>)
    ensures IsRun(run, labels) && run[|run| - 1].watcher == Fallen && !run[|run| - 1].exited
  {
    labels := [ChildEnds(Own, false), Wake, Verdict];
    var s1 := Apply(Start, labels[0]);
    var s2 := Apply(s1, labels[1]);
    run := [Start, s1, s2, Apply(s2, labels[2])];
  }
}
