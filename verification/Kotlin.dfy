/** A small Kotlin core: enough syntax for the smart-cast repair to act on, and an
    evaluator that says what each construct does. The syntax is that of the parsed
    tree (one sort of node, statements and expressions alike; the statements of a
    lambda are its own children, not those of a block). */
module Kotlin {
  import opened Options

  /** Values without code in them. `Fun` is how a closure looks from outside. */
  datatype Ground = Unit | Num(n: int) | Truth(b: bool) | Ref(id: nat) | Fun

  datatype Node =
    | Lit(g: Ground)
    | Name(name: string)
    | Nav(target: Node, property: string)
    | Is(operand: Node, ty: string, negated: bool)
    | And(left: Node, right: Node)
    | Call(callee: Node, arg: Node)
    | Log(arg: Node)
    | Lambda(param: Option<string>, stmts: seq<Node>)
    | Block(stmts: seq<Node>)
    | Val(name: string, init: Node)
    | Assign(name: string, rhs: Node)
    | If(cond: Node, thn: Node, els: Option<Node>)
    | When(subject: Option<Node>, entries: seq<Entry>)
    | For(binder: string, count: Node, body: Node)
    | Try(body: Node, binder: string, handler: Node)
    | Return(result: Node)
    | Throw(error: Node)
    | Break
    | Continue

  datatype Test = IsType(ty: string) | Cond(node: Node) | Otherwise

  datatype Entry = Entry(test: Test, body: Node)

  /** A lambda without a parameter list binds `it`. */
  function ParamName(param: Option<string>): string {
    if param.Some? then param.value else "it"
  }

  // ----- run-time state -----

  /** Local variables live in store cells, so closures share the variables they capture. */
  type Env = map<string, nat>

  datatype Value = Plain(g: Ground) | Closure(param: Option<string>, stmts: seq<Node>, env: Env)

  /** `log` is everything the program did that can be seen from outside. */
  datatype State = State(store: seq<Value>, log: seq<Ground>)

  /** `Timeout` is running out of call fuel; `Stuck` is a program that does not type check. */
  datatype Completion =
    | Normal(v: Value)
    | Returned(v: Value)
    | Threw(v: Value)
    | Broke
    | Continued
    | Stuck
    | Timeout

  datatype Outcome = Outcome(c: Completion, st: State)

  /** The code outside: a property read may depend on all that happened before it. */
  datatype World = World(
    read: (Ground, string, seq<Ground>) -> Option<Ground>,
    instance: (Ground, string) -> bool
  )

  function Observe(v: Value): Ground {
    if v.Plain? then v.g else Fun
  }

  function UnitValue(): Value {
    Plain(Unit)
  }

  // ----- evaluation -----

  function Eval(fuel: nat, w: World, n: Node, env: Env, st: State): Outcome
    decreases fuel, n, 1
  {
    Step(fuel, w, n, env, st)
  }

  /** One construct; its parts are left to `Eval`. */
  function Step(fuel: nat, w: World, n: Node, env: Env, st: State): Outcome
    decreases fuel, n, 0
  {
    match n
    case Lit(g) => Outcome(Normal(Plain(g)), st)
    case Name(x) => Outcome(if x in env && env[x] < |st.store| then Normal(st.store[env[x]]) else Stuck, st)
    case Nav(target, property) =>
      var r := Eval(fuel, w, target, env, st);
      if !r.c.Normal? then r else ReadProperty(w, r.c.v, property, r.st)
    case Is(operand, ty, negated) =>
      var r := Eval(fuel, w, operand, env, st);
      if !r.c.Normal? then r else
      Outcome(Normal(Plain(Truth(w.instance(Observe(r.c.v), ty) != negated))), r.st)
    case And(left, right) =>
      var r := Eval(fuel, w, left, env, st);
      if !r.c.Normal? then r else
      if r.c.v == Plain(Truth(true)) then Eval(fuel, w, right, env, r.st)
      else if r.c.v == Plain(Truth(false)) then r
      else Outcome(Stuck, r.st)
    case Call(callee, arg) =>
      var f := Eval(fuel, w, callee, env, st);
      if !f.c.Normal? then f else
      var a := Eval(fuel, w, arg, env, f.st);
      if !a.c.Normal? then a else
      if !f.c.v.Closure? then Outcome(Stuck, a.st) else
      if fuel == 0 then Outcome(Timeout, a.st) else
      AfterCall(EvalList(fuel - 1, w, f.c.v.stmts,
                         f.c.v.env[ParamName(f.c.v.param) := |a.st.store|], Alloc(a.st, a.c.v)))
    case Log(arg) =>
      var r := Eval(fuel, w, arg, env, st);
      if !r.c.Normal? then r else
      Outcome(Normal(UnitValue()), State(r.st.store, r.st.log + [Observe(r.c.v)]))
    case Lambda(param, stmts) => Outcome(Normal(Closure(param, stmts, env)), st)
    case Block(stmts) => EvalList(fuel, w, stmts, env, st)
    case Val(_, init) => Eval(fuel, w, init, env, st)
    case Assign(x, rhs) =>
      var r := Eval(fuel, w, rhs, env, st);
      if !r.c.Normal? then r else
      if x in env && env[x] < |r.st.store| then
        Outcome(Normal(UnitValue()), State(r.st.store[env[x] := r.c.v], r.st.log))
      else Outcome(Stuck, r.st)
    case If(cond, thn, els) =>
      var r := Eval(fuel, w, cond, env, st);
      if !r.c.Normal? then r else
      if r.c.v == Plain(Truth(true)) then Eval(fuel, w, thn, env, r.st)
      else if r.c.v == Plain(Truth(false)) then
        if els.Some? then Eval(fuel, w, els.value, env, r.st) else Outcome(Normal(UnitValue()), r.st)
      else Outcome(Stuck, r.st)
    case When(subject, entries) =>
      if subject.None? then EvalEntries(fuel, w, entries, None, env, st) else
      var r := Eval(fuel, w, subject.value, env, st);
      if !r.c.Normal? then r else EvalEntries(fuel, w, entries, Some(Observe(r.c.v)), env, r.st)
    case For(binder, count, body) =>
      var r := Eval(fuel, w, count, env, st);
      if !r.c.Normal? then r else
      if r.c.v.Plain? && r.c.v.g.Num? && r.c.v.g.n >= 0 then
        EvalFor(fuel, w, binder, body, r.c.v.g.n, env, r.st)
      else Outcome(Stuck, r.st)
    case Try(body, binder, handler) =>
      var r := Eval(fuel, w, body, env, st);
      if !r.c.Threw? then r else
      Eval(fuel, w, handler, env[binder := |r.st.store|], Alloc(r.st, r.c.v))
    case Return(result) =>
      var r := Eval(fuel, w, result, env, st);
      if r.c.Normal? then Outcome(Returned(r.c.v), r.st) else r
    case Throw(error) =>
      var r := Eval(fuel, w, error, env, st);
      if r.c.Normal? then Outcome(Threw(r.c.v), r.st) else r
    case Break => Outcome(Broke, st)
    case Continue => Outcome(Continued, st)
  }

  lemma Unfold(fuel: nat, w: World, n: Node, env: Env, st: State)
    ensures Eval(fuel, w, n, env, st) == Step(fuel, w, n, env, st)
  {
  }

  function Alloc(st: State, v: Value): State {
    State(st.store + [v], st.log)
  }

  function ReadProperty(w: World, target: Value, property: string, st: State): Outcome {
    var value := w.read(Observe(target), property, st.log);
    Outcome(if value.Some? then Normal(Plain(value.value)) else Stuck, st)
  }

  /** A `return` inside a lambda leaves the lambda; nothing else crosses a call but a throw. */
  function AfterCall(r: Outcome): Outcome {
    match r.c
    case Returned(v) => Outcome(Normal(v), r.st)
    case Broke => Outcome(Stuck, r.st)
    case Continued => Outcome(Stuck, r.st)
    case _ => r
  }

  /** The statements of a block; a `val` is in scope for the statements after it. */
  function EvalList(fuel: nat, w: World, stmts: seq<Node>, env: Env, st: State): Outcome
    decreases fuel, stmts, 0
  {
    if stmts == [] then Outcome(Normal(UnitValue()), st) else
    var r := Eval(fuel, w, stmts[0], env, st);
    if !r.c.Normal? then r else
    if stmts[0].Val? then
      EvalList(fuel, w, stmts[1..], env[stmts[0].name := |r.st.store|], Alloc(r.st, r.c.v))
    else if |stmts| == 1 then r
    else EvalList(fuel, w, stmts[1..], env, r.st)
  }

  /** The entries of a `when`, tried in order. */
  function EvalEntries(fuel: nat, w: World, entries: seq<Entry>, subject: Option<Ground>, env: Env, st: State): Outcome
    decreases fuel, entries, 0
  {
    if entries == [] then Outcome(Normal(UnitValue()), st) else
    var e := entries[0];
    assert entries decreases to e;
    match e.test
    case Otherwise => Eval(fuel, w, e.body, env, st)
    case IsType(ty) =>
      if subject.None? then Outcome(Stuck, st)
      else if w.instance(subject.value, ty) then Eval(fuel, w, e.body, env, st)
      else EvalEntries(fuel, w, entries[1..], subject, env, st)
    case Cond(node) =>
      var r := Eval(fuel, w, node, env, st);
      if !r.c.Normal? then r else
      var wanted := if subject.Some? then subject.value else Truth(true);
      if Observe(r.c.v) == wanted then Eval(fuel, w, e.body, env, r.st)
      else EvalEntries(fuel, w, entries[1..], subject, env, r.st)
  }

  /** `left` more rounds of a loop whose binder counts down. */
  function EvalFor(fuel: nat, w: World, binder: string, body: Node, left: nat, env: Env, st: State): Outcome
    decreases fuel, body, left + 2
  {
    if left == 0 then Outcome(Normal(UnitValue()), st) else
    var r := Eval(fuel, w, body, env[binder := |st.store|], Alloc(st, Plain(Num(left))));
    match r.c
    case Normal(_) => EvalFor(fuel, w, binder, body, left - 1, env, r.st)
    case Continued => EvalFor(fuel, w, binder, body, left - 1, env, r.st)
    case Broke => Outcome(Normal(UnitValue()), r.st)
    case _ => r
  }
}
