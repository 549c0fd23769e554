/**
  `json_value_lit` as a compiler: JSON values become Rust expressions, every non-empty object a block
  that declares, fills and returns a local called `map`. The generated code is given a block-scoped
  semantics, and compiling then evaluating is shown to be the identity on values and environments.
 */
module JsonTokens {
  import opened Wrappers

  // ---- JSON values ----

  /** Only finite floats are JSON numbers; their bits are not interpreted. */
  datatype F64 = Finite(bits: nat) | NonFinite

  datatype Number = PosInt(n: int) | NegInt(n: int) | Float(f: F64)

  datatype Json =
    | Null
    | Bool(b: bool)
    | Num(number: Number)
    | Str(s: string)
    | Arr(items: seq<Json>)
    | Obj(members: seq<Member>)

  datatype Member = Member(key: string, value: Json)

  const U64_MAX: int := 0xFFFF_FFFF_FFFF_FFFF
  const I64_MAX: int := 0x7FFF_FFFF_FFFF_FFFF
  const I64_MIN: int := -0x8000_0000_0000_0000

  /** The invariant of `serde_json::Number`. */
  predicate ValidNumber(n: Number) {
    match n
    case PosInt(i) => 0 <= i <= U64_MAX
    case NegInt(i) => I64_MIN <= i < 0
    case Float(f) => f.Finite?
  }

  predicate IsU64(n: Number) { n.PosInt? }

  predicate IsI64(n: Number) { n.NegInt? || (n.PosInt? && n.n <= I64_MAX) }

  predicate IsF64(n: Number) { n.Float? }

  /** The two map representations of the JSON library: insertion order, or sorted by key. */
  datatype Order = Insertion | Sorted

  predicate Less(a: string, b: string) {
    b != [] && (a == [] || a[0] < b[0] || (a[0] == b[0] && Less(a[1..], b[1..])))
  }

  /** Keys are distinct and, in a sorted map, increasing. */
  predicate ValidKeys(order: Order, ms: seq<Member>) {
    forall i, j :: 0 <= i < j < |ms| ==>
      ms[i].key != ms[j].key && (order.Sorted? ==> Less(ms[i].key, ms[j].key))
  }

  predicate Valid(order: Order, j: Json)
    decreases j
  {
    match j
    case Num(n) => ValidNumber(n)
    case Arr(items) => forall i :: 0 <= i < |items| ==> Valid(order, items[i])
    case Obj(ms) => ValidKeys(order, ms) && forall i :: 0 <= i < |ms| ==> Valid(order, ms[i].value)
    case _ => true
  }

  // ---- the generated code ----

  datatype Expr =
    | NullExpr
    | BoolExpr(b: bool)
    | IntegerInto(n: int)
    | FloatUnwrap(f: F64)
    | StringExpr(s: string)
    | VecExpr(items: seq<Expr>)
    | ObjectExpr(table: Expr)
    | MapNew
    | Local(name: string)
    | Block(stmts: seq<Stmt>, result: Expr)

  datatype Stmt =
    | LetMut(name: string, init: Expr)
    | InsertCall(name: string, key: string, value: Expr)

  const MAP := "map"

  function NumberLit(n: Number): Expr {
    if IsU64(n) then IntegerInto(n.n)
    else if IsI64(n) then IntegerInto(n.n)
    else if IsF64(n) then FloatUnwrap(n.f)
    else NullExpr
  }

  function JsonLit(j: Json): Expr
    decreases j
  {
    match j
    case Null => NullExpr
    case Bool(b) => BoolExpr(b)
    case Num(n) => NumberLit(n)
    case Str(s) => StringExpr(s)
    case Arr(items) => VecExpr(ItemLits(items))
    case Obj(ms) => ObjectExpr(if |ms| > 0 then Block([LetMut(MAP, MapNew)] + InsertLits(ms), Local(MAP)) else MapNew)
  }

  function ItemLits(items: seq<Json>): (r: seq<Expr>)
    ensures |r| == |items|
    decreases items
  {
    if items == [] then [] else [JsonLit(items[0])] + ItemLits(items[1..])
  }

  function InsertLits(ms: seq<Member>): (r: seq<Stmt>)
    ensures |r| == |ms|
    decreases ms
  {
    if ms == [] then [] else [InsertCall(MAP, ms[0].key, JsonLit(ms[0].value))] + InsertLits(ms[1..])
  }

  // ---- its meaning ----

  datatype Value = Plain(json: Json) | Table(members: seq<Member>)

  datatype Binding = Binding(name: string, value: Value)

  /** The locals in scope, innermost last. */
  type Env = seq<Binding>

  /**
    How the tokens of a negative integer reach the compiler. A macro literal such as `-5i64` may stay
    one token; or it is split into `-` and `5i64`, and then `-5i64.into()` negates the result of the
    conversion, whose type nothing determines, and is rejected.
   */
  datatype Reading = Whole | Split

  function FromInteger(n: int): Number {
    if n < 0 then NegInt(n) else PosInt(n)
  }

  function Innermost(env: Env, name: string): Option<nat> {
    if env == [] then None
    else if env[|env| - 1].name == name then Some(|env| - 1)
    else Innermost(env[..|env| - 1], name)
  }

  lemma {:induction false} InnermostRange(env: Env, name: string)
    ensures Innermost(env, name).Some? ==> Innermost(env, name).value < |env|
  {
    if env != [] { InnermostRange(env[..|env| - 1], name); }
  }

  function MapInsert(order: Order, ms: seq<Member>, m: Member): seq<Member> {
    if ms == [] then [m]
    else if ms[0].key == m.key then [m] + ms[1..]
    else if order.Sorted? && Less(m.key, ms[0].key) then [m] + ms
    else [ms[0]] + MapInsert(order, ms[1..], m)
  }

  datatype Outcome = Ran(value: Value, env: Env) | Rejected

  datatype Outcomes = RanAll(values: seq<Json>, env: Env) | RejectedAll

  datatype Effect = Went(env: Env) | Stuck

  function Eval(order: Order, r: Reading, e: Expr, env: Env): Outcome
    decreases e, 2
  {
    match e
    case NullExpr => Ran(Plain(Null), env)
    case BoolExpr(b) => Ran(Plain(Bool(b)), env)
    case IntegerInto(n) => if r.Split? && n < 0 then Rejected else Ran(Plain(Num(FromInteger(n))), env)
    case FloatUnwrap(f) => if f.Finite? then Ran(Plain(Num(Float(f))), env) else Rejected
    case StringExpr(s) => Ran(Plain(Str(s)), env)
    case VecExpr(items) =>
      (match EvalItems(order, r, items, env)
       case RanAll(vs, env') => Ran(Plain(Arr(vs)), env')
       case RejectedAll => Rejected)
    case ObjectExpr(table) =>
      (match Eval(order, r, table, env)
       case Ran(Table(ms), env') => Ran(Plain(Obj(ms)), env')
       case _ => Rejected)
    case MapNew => Ran(Table([]), env)
    case Local(name) =>
      InnermostRange(env, name);
      var at := Innermost(env, name);
      if at.Some? then Ran(env[at.value].value, env) else Rejected
    case Block(stmts, result) =>
      (match Exec(order, r, stmts, env)
       case Stuck => Rejected
       case Went(inside) =>
         match Eval(order, r, result, inside)
         case Rejected => Rejected
         case Ran(v, inside') => Ran(v, inside'[..if |env| <= |inside'| then |env| else |inside'|]))
  }

  function EvalItems(order: Order, r: Reading, es: seq<Expr>, env: Env): Outcomes
    decreases es, 1
  {
    if es == [] then RanAll([], env) else
      match Eval(order, r, es[0], env)
      case Ran(Plain(j), env') =>
        (match EvalItems(order, r, es[1..], env')
         case RanAll(vs, env'') => RanAll([j] + vs, env'')
         case RejectedAll => RejectedAll)
      case _ => RejectedAll
  }

  function Exec(order: Order, r: Reading, stmts: seq<Stmt>, env: Env): Effect
    decreases stmts, 1
  {
    if stmts == [] then Went(env) else
      match ExecStmt(order, r, stmts[0], env)
      case Went(env') => Exec(order, r, stmts[1..], env')
      case Stuck => Stuck
  }

  /** A `let` pushes a binding; `insert` works on the innermost binding of its receiver's name. */
  function ExecStmt(order: Order, r: Reading, stmt: Stmt, env: Env): Effect
    decreases stmt, 0
  {
    match stmt
    case LetMut(name, init) =>
      (match Eval(order, r, init, env)
       case Ran(v, env') => Went(env' + [Binding(name, v)])
       case Rejected => Stuck)
    case InsertCall(name, key, value) =>
      match Eval(order, r, value, env)
      case Ran(Plain(j), env') =>
        InnermostRange(env', name);
        var at := Innermost(env', name);
        if at.Some? && env'[at.value].value.Table? then
          Went(env'[at.value := Binding(name, Table(MapInsert(order, env'[at.value].value.members, Member(key, j))))])
        else Stuck
      case _ => Stuck
  }

  // ---- correctness ----

  /** The values whose generated code the compiler accepts. */
  predicate Accepts(r: Reading, j: Json)
    decreases j
  {
    match j
    case Num(n) => r.Whole? || !n.NegInt?
    case Arr(items) => forall i :: 0 <= i < |items| ==> Accepts(r, items[i])
    case Obj(ms) => forall i :: 0 <= i < |ms| ==> Accepts(r, ms[i].value)
    case _ => true
  }

  predicate AcceptsMembers(r: Reading, ms: seq<Member>) {
    forall i :: 0 <= i < |ms| ==> Accepts(r, ms[i].value)
  }

  lemma {:induction false} InsertAppends(order: Order, ms: seq<Member>, m: Member)
    requires ValidKeys(order, ms + [m])
    ensures MapInsert(order, ms, m) == ms + [m]
  {
    if ms != [] {
      var all := ms + [m];
      assert all[0] == ms[0] && all[|ms|] == m;
      assert ValidKeys(order, ms[1..] + [m]) by {
        var rest := ms[1..] + [m];
        assert forall i :: 0 <= i < |rest| ==> rest[i] == all[i + 1];
      }
      InsertAppends(order, ms[1..], m);
      if order.Sorted? { LessAsymmetric(ms[0].key, m.key); }
      assert [ms[0]] + (ms[1..] + [m]) == ms + [m];
    } else {
      assert ms + [m] == [m];
    }
  }

  lemma {:induction false} LessAsymmetric(a: string, b: string)
    requires Less(a, b)
    ensures !Less(b, a)
  {
    if a != [] && a[0] == b[0] { LessAsymmetric(a[1..], b[1..]); }
  }

  /**
    Compiling any JSON value and evaluating the result, in any environment, gives back that value and
    that environment, although every nested object block declares the same local; where negative
    integers are split, exactly the values without a negative integer survive and all others are
    rejected.
   */
  lemma {:induction false} RoundTrip(order: Order, r: Reading, j: Json, env: Env)
    requires Valid(order, j)
    ensures Eval(order, r, JsonLit(j), env) == if Accepts(r, j) then Ran(Plain(j), env) else Rejected
    decreases j, 1
  {
    match j
    case Num(n) =>
    case Arr(items) => RoundTripItems(order, r, items, env);
    case Obj(ms) =>
      if ms == [] {
      } else {
        RoundTripBlock(order, r, ms, env);
      }
    case _ =>
  }

  lemma {:induction false} RoundTripItems(order: Order, r: Reading, items: seq<Json>, env: Env)
    requires forall i :: 0 <= i < |items| ==> Valid(order, items[i])
    ensures EvalItems(order, r, ItemLits(items), env)
         == if forall i :: 0 <= i < |items| ==> Accepts(r, items[i]) then RanAll(items, env) else RejectedAll
    decreases items, 0
  {
    if items != [] {
      var lits := ItemLits(items);
      assert lits[0] == JsonLit(items[0]) && lits[1..] == ItemLits(items[1..]);
      RoundTrip(order, r, items[0], env);
      RoundTripItems(order, r, items[1..], env);
      assert items == [items[0]] + items[1..];
      assert (forall i :: 0 <= i < |items| ==> Accepts(r, items[i]))
        <==> Accepts(r, items[0]) && forall i :: 0 <= i < |items[1..]| ==> Accepts(r, items[1..][i]);
    }
  }

  lemma {:induction false} RoundTripInserts(order: Order, r: Reading, done: seq<Member>, ms: seq<Member>, env: Env)
    requires ValidKeys(order, done + ms) && forall i :: 0 <= i < |ms| ==> Valid(order, ms[i].value)
    ensures Exec(order, r, InsertLits(ms), env + [Binding(MAP, Table(done))])
         == if AcceptsMembers(r, ms)
            then Went(env + [Binding(MAP, Table(done + ms))]) else Stuck
    decreases ms, 0
  {
    var inside := env + [Binding(MAP, Table(done))];
    if ms == [] {
      assert done + ms == done;
    } else {
      var m, stmts := ms[0], InsertLits(ms);
      assert stmts[0] == InsertCall(MAP, m.key, JsonLit(m.value)) && stmts[1..] == InsertLits(ms[1..]);
      RoundTrip(order, r, m.value, inside);
      assert AcceptsMembers(r, ms) <==> Accepts(r, m.value) && AcceptsMembers(r, ms[1..]) by {
        assert forall i :: 1 <= i < |ms| ==> ms[i] == ms[1..][i - 1];
      }
      if Accepts(r, m.value) {
        InsertStep(order, r, done, ms, env);
        assert done + [m] + ms[1..] == done + ms;
        RoundTripInserts(order, r, done + [m], ms[1..], env);
      }
    }
  }

  lemma InsertStep(order: Order, r: Reading, done: seq<Member>, ms: seq<Member>, env: Env)
    requires ms != [] && ValidKeys(order, done + ms)
    requires var inside := env + [Binding(MAP, Table(done))];
             Eval(order, r, JsonLit(ms[0].value), inside) == Ran(Plain(ms[0].value), inside)
    ensures ExecStmt(order, r, InsertCall(MAP, ms[0].key, JsonLit(ms[0].value)), env + [Binding(MAP, Table(done))])
         == Went(env + [Binding(MAP, Table(done + [ms[0]]))])
  {
    var inside := env + [Binding(MAP, Table(done))];
    assert Innermost(inside, MAP) == Some(|env|);
    assert ValidKeys(order, done + [ms[0]]) by {
      assert forall i :: 0 <= i < |done + [ms[0]]| ==> (done + [ms[0]])[i] == (done + ms)[i];
    }
    InsertAppends(order, done, ms[0]);
    assert inside[|env| := Binding(MAP, Table(done + [ms[0]]))] == env + [Binding(MAP, Table(done + [ms[0]]))];
  }

  lemma {:induction false} RoundTripBlock(order: Order, r: Reading, ms: seq<Member>, env: Env)
    requires ms != [] && ValidKeys(order, ms) && forall i :: 0 <= i < |ms| ==> Valid(order, ms[i].value)
    ensures Eval(order, r, Block([LetMut(MAP, MapNew)] + InsertLits(ms), Local(MAP)), env)
         == if AcceptsMembers(r, ms) then Ran(Table(ms), env) else Rejected
    decreases ms, 1
  {
    var start := env + [Binding(MAP, Table([]))];
    assert [] + ms == ms;
    RoundTripInserts(order, r, [], ms, env);
    ExecCons(order, r, LetMut(MAP, MapNew), InsertLits(ms), env, start);
    var stmts := [LetMut(MAP, MapNew)] + InsertLits(ms);
    if AcceptsMembers(r, ms) {
      BlockReturns(order, r, stmts, env, ms);
    } else {
      BlockRejects(order, r, stmts, env);
    }
  }

  lemma BlockRejects(order: Order, r: Reading, stmts: seq<Stmt>, env: Env)
    requires Exec(order, r, stmts, env) == Stuck
    ensures Eval(order, r, Block(stmts, Local(MAP)), env) == Rejected
  {
  }

  lemma ExecCons(order: Order, r: Reading, first: Stmt, rest: seq<Stmt>, env: Env, env': Env)
    requires ExecStmt(order, r, first, env) == Went(env')
    ensures Exec(order, r, [first] + rest, env) == Exec(order, r, rest, env')
  {
    assert ([first] + rest)[1..] == rest;
  }

  lemma BlockReturns(order: Order, r: Reading, stmts: seq<Stmt>, env: Env, ms: seq<Member>)
    requires Exec(order, r, stmts, env) == Went(env + [Binding(MAP, Table(ms))])
    ensures Eval(order, r, Block(stmts, Local(MAP)), env) == Ran(Table(ms), env)
  {
    var inside := env + [Binding(MAP, Table(ms))];
    assert Innermost(inside, MAP) == Some(|env|);
    assert Eval(order, r, Local(MAP), inside) == Ran(Table(ms), inside);
    assert inside[..|env|] == env;
  }

  /** Read as whole literals, every JSON value survives. */
  lemma {:induction false} WholeAcceptsAll(j: Json)
    ensures Accepts(Whole, j)
    decreases j
  {
    match j
    case Arr(items) => forall i | 0 <= i < |items| ensures Accepts(Whole, items[i]) { WholeAcceptsAll(items[i]); }
    case Obj(ms) => forall i | 0 <= i < |ms| ensures Accepts(Whole, ms[i].value) { WholeAcceptsAll(ms[i].value); }
    case _ =>
  }
}
