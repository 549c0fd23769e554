/**
  Ownership of web contexts: every webview wrapper is a counted handle on a native webview; the
  context a webview was built with lives in a store under a key, and the drop of the last handle
  removes it.
 */
module WebContexts {
  import opened Wrappers

  const WRAP: nat := 0x1_0000_0000

  /** Store keys are optional paths; without automation the path is a fresh number in decimal. */
  type Key = Option<string>

  /** A live native webview: where its context is stored, the key its wrappers remove, its handles. */
  datatype View = View(context: Key, removes: Key, handles: nat)

  datatype Contexts = Contexts(keys: set<Key>, issued: nat, live: map<nat, View>, failed: set<Key>)

  datatype Op =
    | Create(dataDirectory: Key, built: bool)
    | Clone(n: nat)
    | Drop(n: nat)

  function Digit(d: nat): char
    requires d < 10
  {
    "0123456789"[d]
  }

  function DigitValue(c: char): nat {
    if '0' <= c <= '9' then (c as int - '0' as int) as nat else 0
  }

  function Decimal(n: nat): (s: string)
    ensures s != []
  {
    if n < 10 then [Digit(n)] else Decimal(n / 10) + [Digit(n % 10)]
  }

  function Value(s: string): nat {
    if s == [] then 0 else Value(s[..|s| - 1]) * 10 + DigitValue(s[|s| - 1])
  }

  lemma {:induction false} DecimalValue(n: nat)
    ensures Value(Decimal(n)) == n
  {
    assert forall d: nat :: d < 10 ==> DigitValue(Digit(d)) == d;
    if n < 10 {
      assert [Digit(n)][..0] == [];
    } else {
      DecimalValue(n / 10);
      var s := Decimal(n);
      assert s[..|s| - 1] == Decimal(n / 10) && s[|s| - 1] == Digit(n % 10);
    }
  }

  function FreshKey(n: nat): Key {
    Some(Decimal(n % WRAP))
  }

  lemma FreshKeysDiffer(m: nat, n: nat)
    ensures FreshKey(m) == FreshKey(n) <==> m % WRAP == n % WRAP
  {
    DecimalValue(m % WRAP);
    DecimalValue(n % WRAP);
  }

  // ---- steps ----

  predicate Enabled(c: Contexts, op: Op) {
    op.Create? || op.n in c.live
  }

  /** One creation, clone or drop; `automation` is the process-wide switch. */
  function Apply(c: Contexts, op: Op, automation: bool): Contexts
    requires Enabled(c, op)
  {
    match op
    case Create(dataDirectory, built) =>
      var key := if automation then dataDirectory else FreshKey(c.issued);
      var c' := c.(keys := c.keys + {key}, issued := c.issued + 1);
      if built then c'.(live := c.live[c.issued := View(key, if automation then None else key, 1)])
      else c'.(failed := c.failed + {key})
    case Clone(n) =>
      c.(live := c.live[n := c.live[n].(handles := c.live[n].handles + 1)])
    case Drop(n) =>
      var v := c.live[n];
      if v.handles <= 1 then c.(keys := c.keys - {v.removes}, live := c.live - {n})
      else c.(live := c.live[n := v.(handles := v.handles - 1)])
  }

  // ---- ownership, with automation off ----

  ghost predicate Owned(c: Contexts) {
    && (forall n :: n in c.live ==>
          n < c.issued && c.live[n].context == c.live[n].removes == FreshKey(n) && c.live[n].handles >= 1)
    && (forall k :: k in c.failed ==> exists n: nat :: n < c.issued && n !in c.live && k == FreshKey(n))
    && (forall k :: k in c.keys <==> k in c.failed || exists n: nat :: n in c.live && k == FreshKey(n))
  }

  lemma OwnedApart(c: Contexts, m: nat, n: nat)
    requires Owned(c) && c.issued <= WRAP && m < c.issued && n < c.issued && m != n
    ensures FreshKey(m) != FreshKey(n)
  {
    FreshKeysDiffer(m, n);
  }

  lemma FreshKeyUnused(c: Contexts)
    requires Owned(c) && c.issued < WRAP
    ensures FreshKey(c.issued) !in c.keys
  {
    forall m: nat | m < c.issued ensures FreshKey(m) != FreshKey(c.issued) { FreshKeysDiffer(m, c.issued); }
  }

  lemma CreateOwned(c: Contexts, op: Op)
    requires Owned(c) && op.Create? && c.issued < WRAP
    ensures Owned(Apply(c, op, false))
  {
    var c' := Apply(c, op, false);
    var key := FreshKey(c.issued);
    forall k | k in c'.failed ensures exists n: nat :: n < c'.issued && n !in c'.live && k == FreshKey(n) {
      if k in c.failed {
        var n: nat :| n < c.issued && n !in c.live && k == FreshKey(n);
        assert n !in c'.live;
      } else {
        assert c.issued !in c'.live;
      }
    }
    forall k ensures k in c'.keys <==> k in c'.failed || exists n: nat :: n in c'.live && k == FreshKey(n) {
      if k in c.keys && k !in c.failed {
        var n: nat :| n in c.live && k == FreshKey(n);
        assert n in c'.live;
      }
      if k == key && op.built { assert c.issued in c'.live; }
      if n: nat :| n in c'.live && k == FreshKey(n) {
        if n in c.live { assert k in c.keys; }
      }
    }
  }

  lemma CloneOwned(c: Contexts, op: Op)
    requires Owned(c) && op.Clone? && Enabled(c, op)
    ensures Owned(Apply(c, op, false))
  {
    var c' := Apply(c, op, false);
    assert c'.live.Keys == c.live.Keys;
    forall k ensures k in c'.keys <==> k in c'.failed || exists n: nat :: n in c'.live && k == FreshKey(n) {
      if n: nat :| n in c.live && k == FreshKey(n) { assert n in c'.live; }
    }
    forall k | k in c'.failed ensures exists n: nat :: n < c'.issued && n !in c'.live && k == FreshKey(n) {
      var n: nat :| n < c.issued && n !in c.live && k == FreshKey(n);
      assert n !in c'.live;
    }
  }

  /** The drop of the last handle removes exactly the key of its webview; any other drop removes none. */
  lemma DropRemovesOwnKey(c: Contexts, n: nat)
    requires Owned(c) && c.issued <= WRAP && n in c.live
    ensures var c' := Apply(c, Drop(n), false);
            && Owned(c')
            && (c.live[n].handles == 1 ==>
                  n !in c'.live && FreshKey(n) in c.keys && FreshKey(n) !in c'.keys && c'.keys == c.keys - {FreshKey(n)}
                  && forall m :: m in c.live && m != n ==> m in c'.live && c'.live[m].context in c'.keys)
            && (c.live[n].handles > 1 ==> n in c'.live && c'.keys == c.keys)
  {
    var c' := Apply(c, Drop(n), false);
    forall m: nat | m < c.issued && m != n ensures FreshKey(m) != FreshKey(n) { OwnedApart(c, m, n); }
    assert FreshKey(n) in c.keys;
    forall k | k in c'.failed ensures k != FreshKey(n) && exists m: nat :: m < c'.issued && m !in c'.live && k == FreshKey(m) {
      var m: nat :| m < c.issued && m !in c.live && k == FreshKey(m);
      assert m !in c'.live;
    }
    forall k ensures k in c'.keys <==> k in c'.failed || exists m: nat :: m in c'.live && k == FreshKey(m) {
      if k in c'.keys && k !in c.failed {
        var m: nat :| m in c.live && k == FreshKey(m);
        assert m in c'.live;
      }
      if m: nat :| m in c'.live && k == FreshKey(m) { assert m in c.live && k in c.keys; }
    }
  }

  // ---- runs ----

  /** The state after the operations that are possible, in order. */
  function Run(c: Contexts, ops: seq<Op>, automation: bool): Contexts
    decreases |ops|
  {
    if ops == [] then c
    else Run(if Enabled(c, ops[0]) then Apply(c, ops[0], automation) else c, ops[1..], automation)
  }

  const EMPTY: Contexts := Contexts({}, 0, map[], {})

  lemma {:induction false} IssuedGrows(c: Contexts, ops: seq<Op>, automation: bool)
    ensures c.issued <= Run(c, ops, automation).issued
    decreases |ops|
  {
    if ops != [] {
      IssuedGrows(if Enabled(c, ops[0]) then Apply(c, ops[0], automation) else c, ops[1..], automation);
    }
  }

  lemma {:induction false} RunOwned(c: Contexts, ops: seq<Op>)
    requires Owned(c) && Run(c, ops, false).issued <= WRAP
    ensures Owned(Run(c, ops, false))
    decreases |ops|
  {
    IssuedGrows(c, ops, false);
    if ops != [] {
      var op := ops[0];
      if Enabled(c, op) {
        IssuedGrows(Apply(c, op, false), ops[1..], false);
        match op {
          case Create(_, _) => CreateOwned(c, op);
          case Clone(_) => CloneOwned(c, op);
          case Drop(n) => DropRemovesOwnKey(c, n);
        }
        RunOwned(Apply(c, op, false), ops[1..]);
      } else {
        RunOwned(c, ops[1..]);
      }
    }
  }

  /**
    With automation off, after any run of creations, clones and drops: every live webview's context
    is in the store, no two live webviews share a key, and every other key comes from a failed build.
   */
  lemma ContextsOwned(ops: seq<Op>)
    requires Run(EMPTY, ops, false).issued <= WRAP
    ensures var c := Run(EMPTY, ops, false);
            && (forall n :: n in c.live ==> c.live[n].handles >= 1 && c.live[n].context in c.keys)
            && (forall m, n :: m in c.live && n in c.live && m != n ==> c.live[m].context != c.live[n].context)
            && (forall k :: k in c.keys ==> k in c.failed || exists n :: n in c.live && c.live[n].context == k)
            && (forall n :: n in c.live ==> c.live[n].context !in c.failed)
  {
    var c := Run(EMPTY, ops, false);
    RunOwned(EMPTY, ops);
    forall m, n | m in c.live && n in c.live && m != n ensures c.live[m].context != c.live[n].context {
      OwnedApart(c, m, n);
    }
    forall n | n in c.live ensures c.live[n].context !in c.failed {
      if FreshKey(n) in c.failed {
        var m: nat :| m < c.issued && m !in c.live && FreshKey(n) == FreshKey(m);
        OwnedApart(c, m, n);
      }
    }
    forall k | k in c.keys && k !in c.failed ensures exists n :: n in c.live && c.live[n].context == k {
      var n: nat :| n in c.live && k == FreshKey(n);
      assert c.live[n].context == k;
    }
  }

  lemma {:induction false} RunSnoc(c: Contexts, ops: seq<Op>, op: Op, automation: bool)
    ensures var c' := Run(c, ops, automation);
            Run(c, ops + [op], automation) == if Enabled(c', op) then Apply(c', op, automation) else c'
    decreases |ops|
  {
    if ops == [] {
      assert ops + [op] == [op] && [op][1..] == [];
    } else {
      assert (ops + [op])[1..] == ops[1..] + [op];
      RunSnoc(if Enabled(c, ops[0]) then Apply(c, ops[0], automation) else c, ops[1..], op, automation);
    }
  }

  // ---- handles, counted in the run ----

  function Creations(ops: seq<Op>): nat {
    if ops == [] then 0 else Creations(ops[..|ops| - 1]) + (if ops[|ops| - 1].Create? then 1 else 0)
  }

  function ClonesOf(ops: seq<Op>, n: nat): nat {
    if ops == [] then 0 else ClonesOf(ops[..|ops| - 1], n) + (if ops[|ops| - 1] == Clone(n) then 1 else 0)
  }

  function DropsOf(ops: seq<Op>, n: nat): nat {
    if ops == [] then 0 else DropsOf(ops[..|ops| - 1], n) + (if ops[|ops| - 1] == Drop(n) then 1 else 0)
  }

  /** At every point of `ops` so far, a webview with one handle at the start still had one. */
  ghost predicate KeptAlive(ops: seq<Op>, n: nat) {
    forall k :: 0 <= k <= |ops| ==> DropsOf(ops[..k], n) < 1 + ClonesOf(ops[..k], n)
  }

  lemma KeptAliveSnoc(ops: seq<Op>, op: Op, n: nat)
    ensures KeptAlive(ops + [op], n) <==> KeptAlive(ops, n) && DropsOf(ops + [op], n) < 1 + ClonesOf(ops + [op], n)
  {
    var all := ops + [op];
    assert all[..|all|] == all;
    assert forall k :: 0 <= k <= |ops| ==> all[..k] == ops[..k];
  }

  lemma {:induction false} IssuedIsCreations(ops: seq<Op>, automation: bool)
    ensures Run(EMPTY, ops, automation).issued == Creations(ops)
  {
    if ops != [] {
      var n := |ops| - 1;
      IssuedIsCreations(ops[..n], automation);
      RunSnoc(EMPTY, ops[..n], ops[n], automation);
      assert ops == ops[..n] + [ops[n]];
    }
  }

  lemma {:induction false} RunAppend(c: Contexts, a: seq<Op>, b: seq<Op>, automation: bool)
    ensures Run(c, a + b, automation) == Run(Run(c, a, automation), b, automation)
    decreases |a|
  {
    if a == [] {
      assert a + b == b;
    } else {
      assert (a + b)[0] == a[0] && (a + b)[1..] == a[1..] + b;
      RunAppend(if Enabled(c, a[0]) then Apply(c, a[0], automation) else c, a[1..], b, automation);
    }
  }

  /** One operation and the handles of an older webview. */
  lemma StepCounts(c: Contexts, op: Op, n: nat, automation: bool)
    requires n < c.issued
    ensures var c' := if Enabled(c, op) then Apply(c, op, automation) else c;
            && n < c'.issued
            && (n in c'.live <==> n in c.live && !(op == Drop(n) && c.live[n].handles <= 1))
            && (n in c'.live ==>
                  c'.live[n].handles == c.live[n].handles + (if op == Clone(n) then 1 else 0) - (if op == Drop(n) then 1 else 0))
  {
  }

  lemma CountSnoc(ops: seq<Op>, op: Op, n: nat)
    ensures ClonesOf(ops + [op], n) == ClonesOf(ops, n) + (if op == Clone(n) then 1 else 0)
    ensures DropsOf(ops + [op], n) == DropsOf(ops, n) + (if op == Drop(n) then 1 else 0)
  {
    assert (ops + [op])[..|ops|] == ops;
  }

  lemma KeptAliveNow(ops: seq<Op>, n: nat)
    requires KeptAlive(ops, n)
    ensures DropsOf(ops, n) < 1 + ClonesOf(ops, n)
  {
    assert ops[..|ops|] == ops;
  }

  /** From one handle on, a webview lives exactly as long as its drops are fewer than one plus its clones. */
  lemma {:induction false} CountsDecide(c: Contexts, ops: seq<Op>, n: nat, automation: bool)
    requires n in c.live && c.live[n].handles == 1 && n < c.issued
    ensures var c' := Run(c, ops, automation);
            && n < c'.issued
            && (n in c'.live <==> KeptAlive(ops, n))
            && (n in c'.live ==> c'.live[n].handles == 1 + ClonesOf(ops, n) - DropsOf(ops, n))
  {
    if ops == [] {
      assert ops[..0] == [];
    } else {
      var k := |ops| - 1;
      var init, op := ops[..k], ops[k];
      CountsDecide(c, init, n, automation);
      assert ops == init + [op];
      RunSnoc(c, init, op, automation);
      KeptAliveSnoc(init, op, n);
      CountSnoc(init, op, n);
      StepCounts(Run(c, init, automation), op, n, automation);
      if KeptAlive(init, n) { KeptAliveNow(init, n); }
    }
  }

  /** A key that no failed build has gets into that set only by a later build, which has another key. */
  lemma {:induction false} FailedApart(c: Contexts, ops: seq<Op>, n: nat)
    requires Owned(c) && n < c.issued && FreshKey(n) !in c.failed && Run(c, ops, false).issued <= WRAP
    ensures FreshKey(n) !in Run(c, ops, false).failed && n < Run(c, ops, false).issued
  {
    if ops != [] {
      var k := |ops| - 1;
      var c1 := Run(c, ops[..k], false);
      assert ops == ops[..k] + [ops[k]];
      RunSnoc(c, ops[..k], ops[k], false);
      assert c1.issued <= Run(c, ops, false).issued;
      FailedApart(c, ops[..k], n);
      FreshKeysDiffer(n, c1.issued);
    }
  }

  /**
    With automation off, over every run: a webview whose build succeeded as creation number `n` is live,
    and its key is in the store, exactly as long as its drops since are fewer than one plus its clones.
   */
  lemma LivesAsLongAsHandles(before: seq<Op>, dataDirectory: Key, after: seq<Op>)
    requires Run(EMPTY, before + [Create(dataDirectory, true)] + after, false).issued <= WRAP
    ensures var n, c := Creations(before), Run(EMPTY, before + [Create(dataDirectory, true)] + after, false);
            && (n in c.live <==> KeptAlive(after, n))
            && (FreshKey(n) in c.keys <==> KeptAlive(after, n))
  {
    var op := Create(dataDirectory, true);
    var c1 := Run(EMPTY, before + [op], false);
    RunAppend(EMPTY, before + [op], after, false);
    IssuedGrows(c1, after, false);
    JustCreated(before, dataDirectory);
    var n := Creations(before);
    RunOwned(c1, after);
    CountsDecide(c1, after, n, false);
    FailedApart(c1, after, n);
    KeyIff(Run(c1, after, false), n);
  }

  lemma JustCreated(before: seq<Op>, dataDirectory: Key)
    requires Run(EMPTY, before + [Create(dataDirectory, true)], false).issued <= WRAP
    ensures var n, c := Creations(before), Run(EMPTY, before + [Create(dataDirectory, true)], false);
            && Owned(c) && n < c.issued && n in c.live && c.live[n].handles == 1 && FreshKey(n) !in c.failed
  {
    var op, c0 := Create(dataDirectory, true), Run(EMPTY, before, false);
    IssuedIsCreations(before, false);
    RunSnoc(EMPTY, before, op, false);
    RunOwned(EMPTY, before);
    RunOwned(EMPTY, before + [op]);
    FreshKeyUnused(c0);
  }

  lemma KeyIff(c: Contexts, n: nat)
    requires Owned(c) && c.issued <= WRAP && n < c.issued && FreshKey(n) !in c.failed
    ensures FreshKey(n) in c.keys <==> n in c.live
  {
    forall m: nat | m in c.live && m != n ensures FreshKey(m) != FreshKey(n) { OwnedApart(c, m, n); }
  }

  // ---- with automation on ----

  lemma AutomationLosesContext()
    ensures var c := Run(EMPTY, [Create(None, true), Create(None, true), Drop(0)], true);
            1 in c.live && c.live[1].context !in c.keys
  {
    var a, b, d := Create(None, true), Create(None, true), Drop(0);
    var c1 := Apply(EMPTY, a, true);
    var c2 := Apply(c1, b, true);
    var c3 := Apply(c2, d, true);
    assert [a, b, d][1..] == [b, d] && [b, d][1..] == [d] && [d][1..] == [];
    assert Run(EMPTY, [a, b, d], true) == Run(c1, [b, d], true) == Run(c2, [d], true) == Run(c3, [], true);
  }

  // What the unnamed key's life is over a whole run with automation on.

  /** The operation drops the last handle of a live webview. */
  ghost predicate DropsLast(c: Contexts, op: Op) {
    op.Drop? && op.n in c.live && c.live[op.n].handles <= 1
  }

  /** Operation `i` made the unnamed context, and no last handle was dropped since. */
  ghost predicate UnnamedSince(ops: seq<Op>, i: nat)
    requires i < |ops|
  {
    && ops[i].Create? && ops[i].dataDirectory == None
    && forall j :: i < j < |ops| ==> !DropsLast(Run(EMPTY, ops[..j], true), ops[j])
  }

  /** Under automation every live webview removes the unnamed key, and a named context is never removed. */
  ghost predicate Automated(c: Contexts) {
    forall n :: n in c.live ==> c.live[n].removes == None && (c.live[n].context.Some? ==> c.live[n].context in c.keys)
  }

  lemma AutomatedStep(c: Contexts, op: Op)
    requires Automated(c) && Enabled(c, op)
    ensures Automated(Apply(c, op, true))
    ensures None in Apply(c, op, true).keys <==>
              (op.Create? && op.dataDirectory == None) || (None in c.keys && !DropsLast(c, op))
  {
  }

  lemma {:induction false} UnnamedStoredIff(ops: seq<Op>)
    ensures Automated(Run(EMPTY, ops, true))
    ensures None in Run(EMPTY, ops, true).keys <==> exists i :: 0 <= i < |ops| && UnnamedSince(ops, i)
  {
    if ops != [] {
      var n := |ops| - 1;
      var before, op := ops[..n], ops[n];
      var c := Run(EMPTY, before, true);
      UnnamedStoredIff(before);
      assert ops == before + [op];
      RunSnoc(EMPTY, before, op, true);
      if Enabled(c, op) { AutomatedStep(c, op); }
      assert forall j :: 0 <= j < n ==> ops[..j] == before[..j];
      forall i | 0 <= i < n ensures UnnamedSince(ops, i) <==> UnnamedSince(before, i) && !DropsLast(c, op) {
        if UnnamedSince(before, i) && !DropsLast(c, op) {
          forall j | i < j < |ops| ensures !DropsLast(Run(EMPTY, ops[..j], true), ops[j]) {
            if j < n { assert ops[j] == before[j]; }
          }
        }
        if UnnamedSince(ops, i) {
          forall j | i < j < |before| ensures !DropsLast(Run(EMPTY, before[..j], true), before[j]) {
            assert ops[j] == before[j];
          }
        }
      }
      assert UnnamedSince(ops, n) <==> op.Create? && op.dataDirectory == None;
    }
  }

  /**
    With automation on, after every run: the context of a live webview is stored exactly if it has a data
    directory, or no last handle of any webview was dropped since an unnamed context was last created.
   */
  lemma AutomationStoredIff(ops: seq<Op>, n: nat)
    requires n in Run(EMPTY, ops, true).live
    ensures var c := Run(EMPTY, ops, true);
            c.live[n].context in c.keys <==>
              c.live[n].context.Some? || exists i :: 0 <= i < |ops| && UnnamedSince(ops, i)
  {
    UnnamedStoredIff(ops);
  }

  // ---- the store, updated in place ----

  class ContextStore {
    var state: Contexts

    ghost predicate Valid() reads this { Owned(state) }

    constructor ()
      ensures Valid() && state == EMPTY
    {
      state := EMPTY;
    }

    /** The context part of `create_webview`: the entry is made before the build can fail. */
    method CreateWebview(dataDirectory: Key, built: bool) returns (n: nat)
      requires Valid() && state.issued < WRAP
      modifies this
      ensures Valid() && state == Apply(old(state), Create(dataDirectory, built), false)
      ensures n == old(state).issued && FreshKey(n) !in old(state).keys && FreshKey(n) in state.keys
    {
      n := state.issued;
      CreateOwned(state, Create(dataDirectory, built));
      FreshKeyUnused(state);
      var key := FreshKey(n);
      state := state.(keys := state.keys + {key}, issued := n + 1);
      if built {
        state := state.(live := state.live[n := View(key, key, 1)]);
      } else {
        state := state.(failed := state.failed + {key});
      }
    }

    method CloneHandle(n: nat)
      requires Valid() && n in state.live
      modifies this
      ensures Valid() && state == Apply(old(state), Clone(n), false)
    {
      CloneOwned(state, Clone(n));
      var v := state.live[n];
      state := state.(live := state.live[n := v.(handles := v.handles + 1)]);
    }

    method DropHandle(n: nat)
      requires Valid() && state.issued <= WRAP && n in state.live
      modifies this
      ensures Valid() && state == Apply(old(state), Drop(n), false)
    {
      DropRemovesOwnKey(state, n);
      var v := state.live[n];
      if v.handles == 1 {
        state := state.(keys := state.keys - {v.removes}, live := state.live - {n});
      } else {
        state := state.(live := state.live[n := v.(handles := v.handles - 1)]);
      }
    }
  }
}
