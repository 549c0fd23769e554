/**
  Auto-resizing webviews: the cached rates of a webview against its real bounds. Arithmetic is over
  the reals; the scale factor is fixed; sizes are positive. A native resize changes the window at
  once, but the loop learns of it only when it handles the `Resized` event, so placements may come
  in between.
 */
module Layout {
  import opened Wrappers

  /** A pair of lengths, in physical or logical pixels. */
  datatype Pair = Physical(a: real, b: real) | Logical(a: real, b: real) {
    /** Logical pixels times the scale factor are physical ones. */
    function ToLogical(scale: real): (p: Pair)
      requires scale > 0.0
      ensures p.Logical?
      ensures Logical? ==> p == this
      ensures Physical? ==> p.a * scale == a && p.b * scale == b
    {
      if Logical? then this else Logical(a / scale, b / scale)
    }

    predicate Positive() { a > 0.0 && b > 0.0 }
  }

  datatype Rect = Rect(position: Pair, size: Pair) {
    function ToLogical(scale: real): Rect
      requires scale > 0.0
    {
      Rect(position.ToLogical(scale), size.ToLogical(scale))
    }
  }

  /** Componentwise quotient and product with a window size. */
  function Over(p: Pair, w: Pair): Pair
    requires w.Positive()
  {
    Logical(p.a / w.a, p.b / w.b)
  }

  function Times(w: Pair, k: Pair): Pair {
    Logical(w.a * k.a, w.b * k.b)
  }

  lemma TimesOver(p: Pair, w: Pair)
    requires w.Positive() && p.Logical?
    ensures Times(w, Over(p, w)) == p
  {
  }

  /** The cached rates: origin and extent as fractions of the window. */
  datatype Rates = Rates(origin: Pair, extent: Pair)

  /** A webview as the layout sees it: its native bounds and its cached rates, if it auto-resizes. */
  datatype View = View(bounds: Rect, rates: Option<Rates>)

  /** `inner` is the native size; `pending` are the `Resized` events not handled yet, oldest first. */
  datatype Frame = Frame(scale: real, inner: Pair, pending: seq<Pair>) {
    predicate Valid() {
      && scale > 0.0 && inner.Physical? && inner.Positive()
      && (forall i :: 0 <= i < |pending| ==> pending[i].Physical? && pending[i].Positive())
      && (pending != [] ==> pending[|pending| - 1] == inner)
    }
  }

  // ---- the handlers, on one view ----

  function RatesOf(r: Rect, window: Pair, scale: real): Rates
    requires scale > 0.0 && window.Positive()
  {
    LogicalPositive(window, scale);
    var w := window.ToLogical(scale);
    Rates(Over(r.position.ToLogical(scale), w), Over(r.size.ToLogical(scale), w))
  }

  lemma LogicalPositive(p: Pair, scale: real)
    requires scale > 0.0 && p.Positive()
    ensures p.ToLogical(scale).Positive()
  {
  }

  /** The rectangle that rates stand for in a window of this size. */
  function Scaled(rates: Rates, window: Pair, scale: real): Rect
    requires scale > 0.0
  {
    var w := window.ToLogical(scale);
    Rect(Times(w, rates.origin), Times(w, rates.extent))
  }

  /** `applied` is the outcome of the native `set_bounds`. */
  function PlaceBounds(v: View, f: Frame, r: Rect, applied: bool): View
    requires f.Valid()
  {
    View(if applied then r else v.bounds,
         if v.rates.Some? then Some(RatesOf(r, f.inner, f.scale)) else None)
  }

  function PlaceSize(v: View, f: Frame, size: Pair, applied: bool): View
    requires f.Valid()
  {
    var r := v.bounds.(size := size);
    var derived := RatesOf(r, f.inner, f.scale);
    View(if applied then r else v.bounds,
         if v.rates.Some? then Some(v.rates.value.(extent := derived.extent)) else None)
  }

  function PlacePosition(v: View, f: Frame, position: Pair, applied: bool): View
    requires f.Valid()
  {
    var r := v.bounds.(position := position);
    var derived := RatesOf(r, f.inner, f.scale);
    View(if applied then r else v.bounds,
         if v.rates.Some? then Some(v.rates.value.(origin := derived.origin)) else None)
  }

  function AutoResize(v: View, f: Frame, on: bool): View
    requires f.Valid()
  {
    v.(rates := if on then Some(RatesOf(v.bounds, f.inner, f.scale)) else None)
  }

  function Follow(v: View, size: Pair, scale: real): View
    requires scale > 0.0
  {
    if v.rates.Some? then v.(bounds := Scaled(v.rates.value, size, scale)) else v
  }

  // ---- agreement ----

  ghost predicate Agrees(v: View, window: Pair, scale: real)
    requires scale > 0.0
  {
    v.rates.Some? ==> v.bounds.ToLogical(scale) == Scaled(v.rates.value, window, scale)
  }

  /** Once the loop has caught up with the native window, bounds are rates times window size. */
  ghost predicate Settled(v: View, f: Frame)
    requires f.Valid()
  {
    f.pending == [] ==> Agrees(v, f.inner, f.scale)
  }

  lemma RatesScaleBack(r: Rect, window: Pair, scale: real)
    requires scale > 0.0 && window.Positive()
    ensures Scaled(RatesOf(r, window, scale), window, scale) == r.ToLogical(scale)
  {
    LogicalPositive(window, scale);
    var w := window.ToLogical(scale);
    TimesOver(r.position.ToLogical(scale), w);
    TimesOver(r.size.ToLogical(scale), w);
  }

  // ---- steps and runs ----

  datatype Op =
    | NativeResize(size: Pair)
    | HandleResized
    | SetBounds(rect: Rect)
    | SetSize(size: Pair)
    | SetPosition(position: Pair)
    | SetAutoResize(on: bool)

  predicate ValidOp(op: Op) {
    op.NativeResize? ==> op.size.Physical? && op.size.Positive()
  }

  function Step(v: View, f: Frame, op: Op): (View, Frame)
    requires f.Valid() && ValidOp(op)
  {
    match op
    case NativeResize(size) => (v, f.(inner := size, pending := f.pending + [size]))
    case HandleResized =>
      if f.pending == [] then (v, f)
      else (Follow(v, f.pending[0], f.scale), f.(pending := f.pending[1..]))
    case SetBounds(r) => (PlaceBounds(v, f, r, true), f)
    case SetSize(size) => (PlaceSize(v, f, size, true), f)
    case SetPosition(position) => (PlacePosition(v, f, position, true), f)
    case SetAutoResize(on) => (AutoResize(v, f, on), f)
  }

  lemma SizeSettled(v: View, f: Frame, size: Pair)
    requires f.Valid() && Settled(v, f)
    ensures Settled(PlaceSize(v, f, size, true), f)
  {
    RatesScaleBack(v.bounds.(size := size), f.inner, f.scale);
  }

  lemma PositionSettled(v: View, f: Frame, position: Pair)
    requires f.Valid() && Settled(v, f)
    ensures Settled(PlacePosition(v, f, position, true), f)
  {
    RatesScaleBack(v.bounds.(position := position), f.inner, f.scale);
  }

  lemma ResizedSettled(v: View, f: Frame)
    requires f.Valid() && f.pending != []
    ensures var f' := f.(pending := f.pending[1..]); f'.Valid() && Settled(Follow(v, f.pending[0], f.scale), f')
  {
    var rest := f.pending[1..];
    assert rest != [] ==> rest[|rest| - 1] == f.pending[|f.pending| - 1];
    assert rest == [] ==> f.pending[0] == f.inner;
  }

  lemma StepSettled(v: View, f: Frame, op: Op)
    requires f.Valid() && ValidOp(op) && Settled(v, f)
    ensures var (v', f') := Step(v, f, op); f'.Valid() && Settled(v', f')
  {
    match op
    case NativeResize(size) =>
    case HandleResized => if f.pending != [] { ResizedSettled(v, f); }
    case SetBounds(r) => RatesScaleBack(r, f.inner, f.scale);
    case SetSize(size) => SizeSettled(v, f, size);
    case SetPosition(position) => PositionSettled(v, f, position);
    case SetAutoResize(on) => RatesScaleBack(v.bounds, f.inner, f.scale);
  }

  predicate ValidOps(ops: seq<Op>) {
    forall i :: 0 <= i < |ops| ==> ValidOp(ops[i])
  }

  function Run(v: View, f: Frame, ops: seq<Op>): (View, Frame)
    requires f.Valid() && ValidOps(ops) && Settled(v, f)
    decreases |ops|
  {
    if ops == [] then (v, f) else
      StepSettled(v, f, ops[0]);
      var (v', f') := Step(v, f, ops[0]);
      Run(v', f', ops[1..])
  }

  /** After any mix of operations and native resizes, a caught-up webview's bounds are its rates times the window. */
  lemma {:induction false} RunSettled(v: View, f: Frame, ops: seq<Op>)
    requires f.Valid() && ValidOps(ops) && Settled(v, f)
    ensures var (v', f') := Run(v, f, ops); f'.Valid() && f'.scale == f.scale && Settled(v', f')
    decreases |ops|
  {
    if ops != [] {
      StepSettled(v, f, ops[0]);
      var (v', f') := Step(v, f, ops[0]);
      RunSettled(v', f', ops[1..]);
    }
  }

  predicate OnlyResizes(ops: seq<Op>) {
    forall i :: 0 <= i < |ops| ==> ops[i].NativeResize? || ops[i].HandleResized?
  }

  lemma {:induction false} ResizesKeepRates(v: View, f: Frame, ops: seq<Op>)
    requires f.Valid() && ValidOps(ops) && Settled(v, f) && OnlyResizes(ops)
    ensures Run(v, f, ops).0.rates == v.rates
    decreases |ops|
  {
    if ops != [] {
      StepSettled(v, f, ops[0]);
      var (v', f') := Step(v, f, ops[0]);
      ResizesKeepRates(v', f', ops[1..]);
    }
  }

  /**
    History does not matter: after a last placement `r` in a window of size `f.inner` and any number
    of resizes, the bounds of a caught-up auto-resizing webview are `r` stretched to the last size.
   */
  lemma LastPlacementDecides(v: View, f: Frame, r: Rect, resizes: seq<Op>)
    requires f.Valid() && v.rates.Some? && Settled(v, f) && ValidOps(resizes) && OnlyResizes(resizes)
    ensures Settled(PlaceBounds(v, f, r, true), f)
    ensures var (v', f') := Run(PlaceBounds(v, f, r, true), f, resizes);
            f'.Valid() && (f'.pending == [] ==>
              v'.bounds.ToLogical(f.scale) == Scaled(RatesOf(r, f.inner, f.scale), f'.inner, f.scale))
  {
    StepSettled(v, f, SetBounds(r));
    var placed := PlaceBounds(v, f, r, true);
    RunSettled(placed, f, resizes);
    ResizesKeepRates(placed, f, resizes);
  }

  /** In particular, resizing back restores the placement exactly. */
  lemma ResizeRoundTrip(v: View, f: Frame, r: Rect, resizes: seq<Op>)
    requires f.Valid() && v.rates.Some? && Settled(v, f) && ValidOps(resizes) && OnlyResizes(resizes)
    ensures Settled(PlaceBounds(v, f, r, true), f)
    ensures var (v', f') := Run(PlaceBounds(v, f, r, true), f, resizes);
            f'.pending == [] && f'.inner == f.inner ==> v'.bounds.ToLogical(f.scale) == r.ToLogical(f.scale)
  {
    LastPlacementDecides(v, f, r, resizes);
    RatesScaleBack(r, f.inner, f.scale);
  }

  lemma Cancel(x: real, y: real)
    requires x > 0.0
    ensures x * y / x == y
  {
    var q := x * y / x;
    assert q * x == x * y;
    assert (q - y) * x == 0.0;
  }

  lemma OverTimes(w: Pair, k: Pair)
    requires w.Positive()
    ensures Over(Times(w, k), w) == Logical(k.a, k.b)
  {
    Cancel(w.a, k.a);
    Cancel(w.b, k.b);
  }

  lemma TimesSame(w: Pair, k: Pair, m: Pair)
    requires k.a == m.a && k.b == m.b
    ensures Times(w, k) == Times(w, m)
  {
  }

  /** Rates that agree are, for every window size, as good as rates taken from the bounds anew. */
  lemma RatesAreBounds(v: View, window: Pair, scale: real, other: Pair)
    requires scale > 0.0 && window.Positive() && v.rates.Some? && Agrees(v, window, scale)
    ensures Scaled(v.rates.value, other, scale) == Scaled(RatesOf(v.bounds, window, scale), other, scale)
  {
    LogicalPositive(window, scale);
    var w, k := window.ToLogical(scale), v.rates.value;
    OverTimes(w, k.origin);
    OverTimes(w, k.extent);
    assert v.bounds.position.ToLogical(scale) == Times(w, k.origin);
    assert v.bounds.size.ToLogical(scale) == Times(w, k.extent);
    var anew := RatesOf(v.bounds, window, scale);
    assert anew == Rates(Logical(k.origin.a, k.origin.b), Logical(k.extent.a, k.extent.b));
    TimesSame(other.ToLogical(scale), k.origin, anew.origin);
    TimesSame(other.ToLogical(scale), k.extent, anew.extent);
  }

  /**
    The same from any caught-up state, however it was reached: resizes stretch whatever bounds the
    webview has by then, so nothing of its history matters but those bounds.
   */
  lemma BoundsDecide(v: View, f: Frame, resizes: seq<Op>)
    requires f.Valid() && f.pending == [] && v.rates.Some? && Settled(v, f) && ValidOps(resizes) && OnlyResizes(resizes)
    ensures var (v', f') := Run(v, f, resizes);
            f'.Valid() && (f'.pending == [] ==>
              v'.bounds.ToLogical(f.scale) == Scaled(RatesOf(v.bounds, f.inner, f.scale), f'.inner, f.scale))
  {
    RunSettled(v, f, resizes);
    ResizesKeepRates(v, f, resizes);
    RatesAreBounds(v, f.inner, f.scale, Run(v, f, resizes).1.inner);
  }

  /** `q` is to the window `w'` as `p` is to `w`, along each axis. */
  predicate Proportional(p: Pair, w: Pair, q: Pair, w': Pair) {
    q.a * w.a == p.a * w'.a && q.b * w.b == p.b * w'.b
  }

  lemma Stretch(x: real, w: real, w': real)
    requires w > 0.0
    ensures w' * (x / w) * w == x * w'
  {
    var k := x / w;
    assert k * w == x;
    assert w' * k * w == w' * (k * w);
  }

  lemma StretchPair(p: Pair, w: Pair, w': Pair)
    requires w.Positive()
    ensures Proportional(p, w, Times(w', Over(p, w)), w')
  {
    Stretch(p.a, w.a, w'.a);
    Stretch(p.b, w.b, w'.b);
  }

  /** What stretching means: position and size grow as the window does along each axis. */
  lemma StretchIsProportional(r: Rect, from: Pair, to: Pair, scale: real)
    requires scale > 0.0 && from.Positive()
    ensures var s := Scaled(RatesOf(r, from, scale), to, scale);
            && Proportional(r.position.ToLogical(scale), from.ToLogical(scale), s.position, to.ToLogical(scale))
            && Proportional(r.size.ToLogical(scale), from.ToLogical(scale), s.size, to.ToLogical(scale))
  {
    LogicalPositive(from, scale);
    StretchPair(r.position.ToLogical(scale), from.ToLogical(scale), to.ToLogical(scale));
    StretchPair(r.size.ToLogical(scale), from.ToLogical(scale), to.ToLogical(scale));
  }

  // ---- the switch, and views that do not follow ----

  /** The last switch decides whether a webview has rates; without one, how it started. */
  function LastSwitch(ops: seq<Op>, start: bool): bool {
    if ops == [] then start
    else if ops[|ops| - 1].SetAutoResize? then ops[|ops| - 1].on
    else LastSwitch(ops[..|ops| - 1], start)
  }

  /** Where the last applied placement put a webview, its two parts apart. */
  function LastPosition(ops: seq<Op>, start: Pair): Pair {
    if ops == [] then start else
      match ops[|ops| - 1]
      case SetBounds(r) => r.position
      case SetPosition(position) => position
      case _ => LastPosition(ops[..|ops| - 1], start)
  }

  function LastSize(ops: seq<Op>, start: Pair): Pair {
    if ops == [] then start else
      match ops[|ops| - 1]
      case SetBounds(r) => r.size
      case SetSize(size) => size
      case _ => LastSize(ops[..|ops| - 1], start)
  }

  lemma {:induction false} RunSnoc(v: View, f: Frame, ops: seq<Op>, op: Op)
    requires f.Valid() && ValidOps(ops) && ValidOp(op) && Settled(v, f)
    ensures var (v', f') := Run(v, f, ops);
            f'.Valid() && Settled(v', f') && ValidOps(ops + [op]) && Run(v, f, ops + [op]) == Step(v', f', op)
    decreases |ops|
  {
    RunSettled(v, f, ops);
    if ops == [] {
      assert ops + [op] == [op] && [op][1..] == [];
      StepSettled(v, f, op);
    } else {
      assert (ops + [op])[0] == ops[0] && (ops + [op])[1..] == ops[1..] + [op];
      StepSettled(v, f, ops[0]);
      var (v1, f1) := Step(v, f, ops[0]);
      RunSnoc(v1, f1, ops[1..], op);
    }
  }

  /** What one operation does to the switch and, without rates, to the bounds. */
  lemma StepMeans(v: View, f: Frame, op: Op)
    requires f.Valid() && ValidOp(op)
    ensures var v' := Step(v, f, op).0;
            && (v'.rates.Some? <==> if op.SetAutoResize? then op.on else v.rates.Some?)
            && (op.SetAutoResize? || op.NativeResize? || (op.HandleResized? && v.rates.None?) ==> v'.bounds == v.bounds)
            && (op.SetBounds? ==> v'.bounds == op.rect)
            && (op.SetSize? ==> v'.bounds == Rect(v.bounds.position, op.size))
            && (op.SetPosition? ==> v'.bounds == Rect(op.position, v.bounds.size))
  {
  }

  /** Over every run a webview follows resizes afterwards exactly if the last switch, or its start, says so. */
  lemma {:induction false} SwitchDecides(v: View, f: Frame, ops: seq<Op>)
    requires f.Valid() && ValidOps(ops) && Settled(v, f)
    ensures Run(v, f, ops).0.rates.Some? <==> LastSwitch(ops, v.rates.Some?)
  {
    if ops != [] {
      var n := |ops| - 1;
      SwitchDecides(v, f, ops[..n]);
      assert ops == ops[..n] + [ops[n]];
      RunSnoc(v, f, ops[..n], ops[n]);
      var (v', f') := Run(v, f, ops[..n]);
      StepMeans(v', f', ops[n]);
    }
  }

  /** A webview that is never switched on stays exactly where the last placements put it, whatever the window does. */
  lemma {:induction false} FixedStays(v: View, f: Frame, ops: seq<Op>)
    requires f.Valid() && ValidOps(ops) && Settled(v, f) && v.rates.None?
    requires forall i :: 0 <= i < |ops| && ops[i].SetAutoResize? ==> !ops[i].on
    ensures Run(v, f, ops).0 == View(Rect(LastPosition(ops, v.bounds.position), LastSize(ops, v.bounds.size)), None)
  {
    if ops != [] {
      var n := |ops| - 1;
      FixedStays(v, f, ops[..n]);
      assert ops == ops[..n] + [ops[n]];
      RunSnoc(v, f, ops[..n], ops[n]);
      var (v', f') := Run(v, f, ops[..n]);
      StepMeans(v', f', ops[n]);
    }
  }

  /** Switched off, a webview keeps the bounds it has at that moment until it is placed again. */
  lemma SwitchedOffStays(v: View, f: Frame, ops: seq<Op>)
    requires f.Valid() && ValidOps(ops) && Settled(v, f)
    requires forall i :: 0 <= i < |ops| && ops[i].SetAutoResize? ==> !ops[i].on
    ensures var v0 := Step(v, f, SetAutoResize(false)).0;
            Settled(v0, f) && Run(v0, f, ops).0.bounds == Rect(LastPosition(ops, v.bounds.position), LastSize(ops, v.bounds.size))
  {
    StepMeans(v, f, SetAutoResize(false));
    StepSettled(v, f, SetAutoResize(false));
    FixedStays(Step(v, f, SetAutoResize(false)).0, f, ops);
  }

  /** Switched on in a caught-up window, a webview stretches with every resize from the bounds it has at that moment. */
  lemma SwitchedOnFollows(v: View, f: Frame, resizes: seq<Op>)
    requires f.Valid() && f.pending == [] && Settled(v, f) && ValidOps(resizes) && OnlyResizes(resizes)
    ensures var v0 := Step(v, f, SetAutoResize(true)).0;
            && Settled(v0, f)
            && var (v', f') := Run(v0, f, resizes);
               f'.Valid() && (f'.pending == [] ==>
                 v'.bounds.ToLogical(f.scale) == Scaled(RatesOf(v.bounds, f.inner, f.scale), f'.inner, f.scale))
  {
    StepMeans(v, f, SetAutoResize(true));
    StepSettled(v, f, SetAutoResize(true));
    BoundsDecide(Step(v, f, SetAutoResize(true)).0, f, resizes);
  }

  // ---- where agreement is lost ----

  /** A placement whose native call fails keeps agreement exactly if it asked for the bounds already there. */
  lemma FailedPlacementAgreesIff(v: View, f: Frame, r: Rect)
    requires f.Valid() && v.rates.Some?
    ensures Agrees(PlaceBounds(v, f, r, false), f.inner, f.scale)
            <==> v.bounds.ToLogical(f.scale) == r.ToLogical(f.scale)
  {
    RatesScaleBack(r, f.inner, f.scale);
  }

  /** A failed change of size or position keeps it exactly if it asked for the size or position already there. */
  lemma FailedSizeAgreesIff(v: View, f: Frame, size: Pair)
    requires f.Valid() && v.rates.Some? && Agrees(v, f.inner, f.scale)
    ensures Agrees(PlaceSize(v, f, size, false), f.inner, f.scale)
            <==> v.bounds.size.ToLogical(f.scale) == size.ToLogical(f.scale)
  {
    RatesScaleBack(v.bounds.(size := size), f.inner, f.scale);
  }

  lemma FailedPositionAgreesIff(v: View, f: Frame, position: Pair)
    requires f.Valid() && v.rates.Some? && Agrees(v, f.inner, f.scale)
    ensures Agrees(PlacePosition(v, f, position, false), f.inner, f.scale)
            <==> v.bounds.position.ToLogical(f.scale) == position.ToLogical(f.scale)
  {
    RatesScaleBack(v.bounds.(position := position), f.inner, f.scale);
  }

  /** Moved to another window without a resize, a webview agrees exactly along the axes it does not stretch in. */
  lemma MovedAgreesIff(v: View, from: Pair, to: Pair, scale: real)
    requires scale > 0.0 && from.Logical? && to.Logical? && v.rates.Some? && Agrees(v, from, scale)
    ensures Agrees(v, to, scale) <==>
              SameStretch(from, to, v.rates.value.origin) && SameStretch(from, to, v.rates.value.extent)
  {
    SameProduct(from, to, v.rates.value.origin);
    SameProduct(from, to, v.rates.value.extent);
  }

  predicate SameStretch(from: Pair, to: Pair, k: Pair) {
    (from.a == to.a || k.a == 0.0) && (from.b == to.b || k.b == 0.0)
  }

  lemma SameProduct(from: Pair, to: Pair, k: Pair)
    ensures Times(from, k) == Times(to, k) <==> SameStretch(from, to, k)
  {
    assert from.a * k.a - to.a * k.a == (from.a - to.a) * k.a;
    assert from.b * k.b - to.b * k.b == (from.b - to.b) * k.b;
  }

  // ---- a window with its webviews, updated in place ----

  class WindowLayout {
    var frame: Frame
    var views: seq<View>

    ghost predicate Valid()
      reads this
    {
      frame.Valid() && forall i :: 0 <= i < |views| ==> Settled(views[i], frame)
    }

    constructor (scale: real, inner: Pair)
      requires scale > 0.0 && inner.Physical? && inner.Positive()
      ensures Valid() && frame == Frame(scale, inner, []) && views == []
    {
      frame, views := Frame(scale, inner, []), [];
    }

    /**
      The bounds part of `create_webview`. Without `bounds`, the unstable build places the webview over the
      whole window with rates; the stable one leaves it where the platform puts it, without rates.
     */
    method AddView(bounds: Option<Rect>, autoResize: bool, unstable: bool, platform: Rect)
      requires Valid()
      modifies this
      ensures Valid() && frame == old(frame)
      ensures |views| == |old(views)| + 1 && views[..|old(views)|] == old(views)
      ensures var v := views[|old(views)|];
              && (bounds.Some? ==> v.bounds == bounds.value && (v.rates.Some? <==> autoResize))
              && (bounds.None? && unstable ==>
                    v == View(Rect(Logical(0.0, 0.0), frame.inner), Some(Rates(Logical(0.0, 0.0), Logical(1.0, 1.0)))))
              && (bounds.None? && !unstable ==> v == View(platform, None))
    {
      var v: View;
      if bounds.Some? {
        var r := bounds.value;
        RatesScaleBack(r, frame.inner, frame.scale);
        v := View(r, if autoResize then Some(RatesOf(r, frame.inner, frame.scale)) else None);
      } else if unstable {
        v := View(Rect(Logical(0.0, 0.0), frame.inner), Some(Rates(Logical(0.0, 0.0), Logical(1.0, 1.0))));
      } else {
        v := View(platform, None);
      }
      assert Settled(v, frame);
      views := views + [v];
    }

    method NativeResize(size: Pair)
      requires Valid() && size.Physical? && size.Positive()
      modifies this
      ensures Valid() && views == old(views)
      ensures frame == old(frame).(inner := size, pending := old(frame).pending + [size])
    {
      frame := frame.(inner := size, pending := frame.pending + [size]);
    }

    /** The `Resized` arm: every webview with rates follows the window. */
    method OnResized()
      requires Valid() && frame.pending != []
      modifies this
      ensures Valid() && frame == old(frame).(pending := old(frame).pending[1..])
      ensures |views| == |old(views)|
      ensures forall i :: 0 <= i < |views| ==> views[i] == Follow(old(views)[i], old(frame).pending[0], frame.scale)
    {
      var size := frame.pending[0];
      ghost var before, was := frame, views;
      frame := frame.(pending := frame.pending[1..]);
      var i := 0;
      while i < |views|
        invariant 0 <= i <= |views| == |was|
        invariant frame == before.(pending := before.pending[1..])
        invariant forall k :: 0 <= k < i ==> views[k] == Follow(was[k], size, frame.scale)
        invariant forall k :: i <= k < |views| ==> views[k] == was[k]
      {
        var v := views[i];
        if v.rates.Some? {
          views := views[i := v.(bounds := Scaled(v.rates.value, size, frame.scale))];
        }
        i := i + 1;
      }
      forall k | 0 <= k < |views| ensures frame.Valid() && Settled(views[k], frame) {
        ResizedSettled(was[k], before);
      }
      ResizedSettled(View(Rect(size, size), None), before);
    }

    method Place(i: nat, op: Op)
      requires Valid() && i < |views|
      requires op.SetBounds? || op.SetSize? || op.SetPosition? || op.SetAutoResize?
      modifies this`views
      ensures Valid()
      ensures views == old(views)[i := Step(old(views)[i], frame, op).0]
    {
      var v := views[i];
      StepSettled(v, frame, op);
      match op {
        case SetBounds(r) => v := PlaceBounds(v, frame, r, true);
        case SetSize(size) => v := PlaceSize(v, frame, size, true);
        case SetPosition(position) => v := PlacePosition(v, frame, position, true);
        case SetAutoResize(on) => v := AutoResize(v, frame, on);
      }
      views := views[i := v];
    }
  }
}
