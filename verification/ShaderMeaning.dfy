/** What shader statements do. Values, memory and operators are left open (a `Machine`);
    scopes, control flow and the `for` statement follow section 9.4 of the W3C WebGPU Shading
    Language. `fuel` bounds the loop turns of a run: a run that needs more has no result. */
module ShaderMeaning {
  import opened ShaderProgram

  datatype Value<T> = Bool(b: bool) | Other(t: T) {
    predicate True() { Bool? && b }
  }

  /** Literals, operators with calls (which may change the memory), and module-scope variables. */
  datatype Machine<!T, !M> = Machine(
    literal: string -> Value<T>,
    apply: (string, seq<Value<T>>, M) -> (Value<T>, M),
    global: (string, M) -> Value<T>,
    setGlobal: (string, Value<T>, M) -> M)

  /** Function scopes, innermost first, and the memory. */
  datatype State<T, M> = State(env: seq<map<string, Value<T>>>, mem: M)

  datatype Exit<T> = Normal | Broke | Continued | Returned(v: Value<T>)

  /** `Rejected`: the run reaches a condition that is no expression, as in `if(!())`. */
  datatype Outcome<T, M> = OutOfFuel | Rejected | Done(exit: Exit<T>, st: State<T, M>)

  // ---------- scopes ----------

  ghost function Lookup<T, M>(mc: Machine<T, M>, env: seq<map<string, Value<T>>>, mem: M, x: string): Value<T> {
    if env == [] then mc.global(x, mem)
    else if x in env[0] then env[0][x]
    else Lookup(mc, env[1..], mem, x)
  }

  ghost function Store<T, M>(mc: Machine<T, M>, st: State<T, M>, x: string, v: Value<T>): State<T, M>
    decreases |st.env|
  {
    if st.env == [] then State([], mc.setGlobal(x, v, st.mem))
    else if x in st.env[0] then st.(env := [st.env[0][x := v]] + st.env[1..])
    else
      var outer := Store(mc, State(st.env[1..], st.mem), x, v);
      State([st.env[0]] + outer.env, outer.mem)
  }

  ghost function Declare<T, M>(st: State<T, M>, x: string, v: Value<T>): State<T, M> {
    if st.env == [] then st.(env := [map[x := v]])
    else st.(env := [st.env[0][x := v]] + st.env[1..])
  }

  ghost function Enter<T, M>(st: State<T, M>): State<T, M> {
    st.(env := [map[]] + st.env)
  }

  ghost function Leave<T, M>(o: Outcome<T, M>): Outcome<T, M> {
    if !o.Done? || o.st.env == [] then o else o.(st := o.st.(env := o.st.env[1..]))
  }

  // ---------- expressions ----------

  /** A call or an index looks up what stands in front of the bracket; `(e)` is `e`, `!` negates, `&&` and `||`
      skip their right operand; all else is the machine's. */
  ghost function Eval<T, M>(mc: Machine<T, M>, e: Expr, env: seq<map<string, Value<T>>>, mem: M): (Value<T>, M) {
    match e
    case Unit => (mc.literal(""), mem)
    case Name(x) => (Lookup(mc, env, mem, x), mem)
    case Literal(w) => (mc.literal(w), mem)
    case Unary(op, a) =>
      var (v, m) := Eval(mc, a, env, mem);
      if op == "!" then (Bool(!v.True()), m) else mc.apply(op, [v], m)
    case Binary(l, op, r) =>
      var (v, m) := Eval(mc, l, env, mem);
      if op == "&&" && !v.True() then (Bool(false), m)
      else if op == "||" && v.True() then (Bool(true), m)
      else
        var (w, m2) := Eval(mc, r, env, m);
        if op == "&&" || op == "||" then (w, m2) else mc.apply(op, [v, w], m2)
    case Wrap(head, b, a) =>
      var (v, m) := Eval(mc, a, env, mem);
      if head == "" then
        if b == '(' then (v, m) else mc.apply([b], [v], m)
      else mc.apply(head + [b], [Lookup(mc, env, m, head), v], m)
    case Member(a, f) =>
      var (v, m) := Eval(mc, a, env, mem);
      mc.apply("." + f, [v], m)
  }

  datatype Decision<M> = Undecided | Decided(holds: bool, mem: M)

  ghost function Decide<T, M>(mc: Machine<T, M>, c: Expr, env: seq<map<string, Value<T>>>, mem: M): Decision<M> {
    if !Complete(c) then Undecided else
    var (v, m) := Eval(mc, c, env, mem);
    Decided(v.True(), m)
  }

  /** A `for` without a condition goes on. */
  ghost function DecideFor<T, M>(mc: Machine<T, M>, c: Expr, env: seq<map<string, Value<T>>>, mem: M): Decision<M> {
    if c == Unit then Decided(true, mem) else Decide(mc, c, env, mem)
  }

  // ---------- statements ----------

  ghost function ExecSimple<T, M>(mc: Machine<T, M>, s: Simple, st: State<T, M>): State<T, M> {
    match s
    case Skip => st
    case Decl(_, x, e) =>
      var (v, m) := Eval(mc, e, st.env, st.mem);
      Declare(st.(mem := m), x, v)
    case Assign(x, path, op, e) =>
      var (p, m1) := Eval(mc, path, st.env, st.mem);
      var (v, m2) := Eval(mc, e, st.env, m1);
      var (w, m3) := mc.apply(op, [Lookup(mc, st.env, m2, x), p, v], m2);
      Store(mc, st.(mem := m3), x, w)
    case Do(e) => st.(mem := Eval(mc, e, st.env, st.mem).1)
  }

  ghost function Exec<T, M>(mc: Machine<T, M>, s: Stmt, st: State<T, M>, fuel: nat): Outcome<T, M>
    decreases fuel, s, 1
  {
    match s
    case Layout(_) => Done(Normal, st)
    case Plain(a) => Done(Normal, ExecSimple(mc, a, st))
    case Break => Done(Broke, st)
    case Continue => Done(Continued, st)
    case Return(e) =>
      var (v, m) := Eval(mc, e, st.env, st.mem);
      Done(Returned(v), st.(mem := m))
    case Seq(a, b) =>
      var first := Exec(mc, a, st, fuel);
      if first.Done? && first.exit == Normal then Exec(mc, b, first.st, fuel) else first
    case Block(b) => Leave(Exec(mc, b, Enter(st), fuel))
    case If(c, b) =>
      var d := Decide(mc, c, st.env, st.mem);
      if d.Undecided? then Rejected
      else if d.holds then Leave(Exec(mc, b, Enter(st.(mem := d.mem)), fuel))
      else Done(Normal, st.(mem := d.mem))
    case IfElse(c, a, b) =>
      var d := Decide(mc, c, st.env, st.mem);
      if d.Undecided? then Rejected
      else Leave(Exec(mc, if d.holds then a else b, Enter(st.(mem := d.mem)), fuel))
    case Loop(b) =>
      if fuel == 0 then OutOfFuel else
      var turn := Leave(Exec(mc, b, Enter(st), fuel - 1));
      if !turn.Done? then turn
      else if turn.exit == Broke then Done(Normal, turn.st)
      else if turn.exit.Returned? then turn
      else Exec(mc, s, turn.st, fuel - 1)
    case While(c, b) =>
      if fuel == 0 then OutOfFuel else
      var d := Decide(mc, c, st.env, st.mem);
      if d.Undecided? then Rejected
      else if !d.holds then Done(Normal, st.(mem := d.mem)) else
      var turn := Leave(Exec(mc, b, Enter(st.(mem := d.mem)), fuel - 1));
      if !turn.Done? then turn
      else if turn.exit == Broke then Done(Normal, turn.st)
      else if turn.exit.Returned? then turn
      else Exec(mc, s, turn.st, fuel - 1)
    case For(_, init, _, _, _, _) =>
      Leave(ExecFor(mc, s, ExecSimple(mc, init, Enter(st)), fuel))
  }

  /** The turns of a `for`, inside the scope that holds its loop variable. The body has a scope
      of its own, which is closed before the update. */
  ghost function ExecFor<T, M>(mc: Machine<T, M>, s: Stmt, st: State<T, M>, fuel: nat): Outcome<T, M>
    requires s.For?
    decreases fuel, s, 0
  {
    if fuel == 0 then OutOfFuel else
    var d := DecideFor(mc, s.cond, st.env, st.mem);
    if d.Undecided? then Rejected
    else if !d.holds then Done(Normal, st.(mem := d.mem)) else
    var turn := Leave(Exec(mc, s.body, Enter(st.(mem := d.mem)), fuel - 1));
    if !turn.Done? then turn
    else if turn.exit == Broke then Done(Normal, turn.st)
    else if turn.exit.Returned? then turn
    else ExecFor(mc, s, ExecSimple(mc, s.update, turn.st), fuel - 1)
  }

  /** More fuel does not change a result, so a program either has one result or none for any fuel. */
  lemma {:induction false} MoreFuel<T, M>(mc: Machine<T, M>, s: Stmt, st: State<T, M>, fuel: nat)
    requires !Exec(mc, s, st, fuel).OutOfFuel?
    ensures Exec(mc, s, st, fuel + 1) == Exec(mc, s, st, fuel)
    decreases fuel, s, 1
  {
    hide Decide, ExecSimple;
    match s
    case Seq(a, b) =>
      MoreFuel(mc, a, st, fuel);
      var first := Exec(mc, a, st, fuel);
      if first.Done? && first.exit == Normal { MoreFuel(mc, b, first.st, fuel); }
    case Block(b) => MoreFuel(mc, b, Enter(st), fuel);
    case If(c, b) =>
      var d := Decide(mc, c, st.env, st.mem);
      if d.Decided? && d.holds { MoreFuel(mc, b, Enter(st.(mem := d.mem)), fuel); }
    case IfElse(c, a, b) =>
      var d := Decide(mc, c, st.env, st.mem);
      if d.Decided? { MoreFuel(mc, if d.holds then a else b, Enter(st.(mem := d.mem)), fuel); }
    case Loop(b) =>
      MoreFuel(mc, b, Enter(st), fuel - 1);
      var turn := Leave(Exec(mc, b, Enter(st), fuel - 1));
      if turn.Done? && turn.exit != Broke && !turn.exit.Returned? { MoreFuel(mc, s, turn.st, fuel - 1); }
    case While(c, b) =>
      var d := Decide(mc, c, st.env, st.mem);
      if d.Decided? && d.holds {
        MoreFuel(mc, b, Enter(st.(mem := d.mem)), fuel - 1);
        var turn := Leave(Exec(mc, b, Enter(st.(mem := d.mem)), fuel - 1));
        if turn.Done? && turn.exit != Broke && !turn.exit.Returned? { MoreFuel(mc, s, turn.st, fuel - 1); }
      }
    case For(_, init, _, _, _, _) => MoreForFuel(mc, s, ExecSimple(mc, init, Enter(st)), fuel);
    case _ =>
  }

  lemma {:induction false} MoreForFuel<T, M>(mc: Machine<T, M>, s: Stmt, st: State<T, M>, fuel: nat)
    requires s.For? && !ExecFor(mc, s, st, fuel).OutOfFuel?
    ensures ExecFor(mc, s, st, fuel + 1) == ExecFor(mc, s, st, fuel)
    decreases fuel, s, 0
  {
    hide DecideFor, ExecSimple;
    var d := DecideFor(mc, s.cond, st.env, st.mem);
    if d.Decided? && d.holds {
      MoreFuel(mc, s.body, Enter(st.(mem := d.mem)), fuel - 1);
      var turn := Leave(Exec(mc, s.body, Enter(st.(mem := d.mem)), fuel - 1));
      if turn.Done? && turn.exit != Broke && !turn.exit.Returned? {
        MoreForFuel(mc, s, ExecSimple(mc, s.update, turn.st), fuel - 1);
      }
    }
  }
}
