/** The layout pass of benchmarks/gpu-lexer/optimize-shader.py on syntax trees: one array of
    four-component vectors becomes four arrays, by four substitutions made one after the other. */
module LayoutPass {
  import opened Outcomes

  // ---------- the language of both shaders ----------

  /** Operators are written with the white space around them. */
  datatype Expr =
    | Empty                                     // an omitted operand, argument or value
    | Const(word: string)
    | Local(x: string)
    | Infix(l: Expr, op: string, r: Expr)       // also a sign behind an empty operand, and the comma
    | Paren(e: Expr)
    | Call(f: string, e: Expr)
    | Read(name: string, index: Expr)           // an element of another array
    | Elem(index: Expr)                         // j[index]
    | Member(e: Expr, field: string)            // e.field
    | Pair(l: Expr, r: Expr)                    // vec2<f32>(l,r)
    | Part(c: char, index: Expr)                // jx[index], jy[index], ...
    | Load(index: Expr)                         // load_j(index)
    | Garbled(e: Expr, rest: string)            // an expression followed by stray letters

  /** What may stand in a `for` header. `Assign` has any assignment operator. */
  datatype Simple =
    | Nothing
    | Declare(keyword: string, x: string, op: string, e: Expr)
    | Assign(to: Expr, op: string, e: Expr)
    | Store(index: Expr, gap: string, e: Expr)  // store_j(index,e)
    | Do(e: Expr)

  datatype Stmt =
    | Gap(text: string)                         // white space
    | Plain(a: Simple)
    | Break
    | Continue
    | Return(gap: string, e: Expr)
    | Seq(first: Stmt, second: Stmt)
    | If(gap: string, cond: Expr, body: Stmt)
    | IfElse(gap: string, cond: Expr, body: Stmt, gap2: string, other: Stmt)
    | Loop(gap: string, body: Stmt)
    | While(gap: string, cond: Expr, body: Stmt)
    | For(init: Simple, cond: Expr, update: Simple, body: Stmt)

  // ---------- what it means ----------

  datatype Vec4<S> = Vec4(x: S, y: S, z: S, w: S)

  datatype Value<S> = One(s: S) | Two(a: S, b: S) | Four(v: Vec4<S>)

  /** The shared array in either layout. */
  datatype Shared<S> = Whole(j: seq<Vec4<S>>) | Split(jx: seq<S>, jy: seq<S>, jz: seq<S>, jw: seq<S>)

  datatype State<S> = State(locals: map<string, Value<S>>, arrays: map<(string, int), Value<S>>, shared: Shared<S>)

  /** Constants, operators and calls without effect, what a value selects as an index, and what counts as true. */
  datatype Machine<!S> = Machine(
    constant: string -> Value<S>,
    apply: (string, seq<Value<S>>) -> Value<S>,
    index: Value<S> -> int,
    holds: Value<S> -> bool)

  const COMPONENTS := {'x', 'y', 'z', 'w'}

  function Select<S>(v: Vec4<S>, c: char): S {
    if c == 'x' then v.x else if c == 'y' then v.y else if c == 'z' then v.z else v.w
  }

  function Change<S>(v: Vec4<S>, c: char, s: S): Vec4<S> {
    if c == 'x' then v.(x := s) else if c == 'y' then v.(y := s) else if c == 'z' then v.(z := s) else v.(w := s)
  }

  function PartAt<S>(sh: Shared<S>, c: char, i: int): Option<S>
    requires sh.Split?
  {
    var part := if c == 'x' then sh.jx else if c == 'y' then sh.jy else if c == 'z' then sh.jz else sh.jw;
    if c in COMPONENTS && 0 <= i < |part| then Some(part[i]) else None
  }

  function LoadAt<S>(sh: Shared<S>, i: int): Option<Value<S>>
    requires sh.Split?
  {
    var x, y, z, w := PartAt(sh, 'x', i), PartAt(sh, 'y', i), PartAt(sh, 'z', i), PartAt(sh, 'w', i);
    if x.Some? && y.Some? && z.Some? && w.Some? then Some(Four(Vec4(x.value, y.value, z.value, w.value))) else None
  }

  /** `.yz` and single components of a vector; everything else is the machine's. */
  function FieldOf<S>(mc: Machine<S>, v: Value<S>, f: string): Value<S> {
    if v.Four? && f == "yz" then Two(v.v.y, v.v.z)
    else if v.Four? && |f| == 1 && f[0] in COMPONENTS then One(Select(v.v, f[0]))
    else mc.apply("." + f, [v])
  }

  /** An operator without the white space around it. */
  function Bare(op: string): string {
    if op == "" then "" else (if op[0] == ' ' then "" else [op[0]]) + Bare(op[1..])
  }

  /** Only that is left out. */
  lemma {:induction false} BareSpelled(a: string, b: string)
    ensures Bare(a + " " + b) == Bare(a) + Bare(b)
    ensures ' ' !in a ==> Bare(a) == a
  {
    if a == "" {
      assert a + " " + b == " " + b && (" " + b)[1..] == b;
    } else {
      var t := a + " " + b;
      assert t[0] == a[0] && t[1..] == a[1..] + " " + b;
      BareSpelled(a[1..], b);
      assert a == [a[0]] + a[1..];
    }
  }

  /** What has an address. */
  predicate IsPlace(e: Expr) {
    match e
    case Local(_) => true
    case Read(_, _) => true
    case Elem(_) => true
    case Part(_, _) => true
    case Paren(a) => IsPlace(a)
    case Member(a, _) => IsPlace(a)
    case _ => false
  }

  predicate Addresses(l: Expr, op: string) { l == Empty && Bare(op) == "&" }

  /** The address of something that is no place has no meaning. */
  ghost function Eval<S>(mc: Machine<S>, e: Expr, st: State<S>): Option<Value<S>> {
    match e
    case Empty => Some(mc.constant(""))
    case Const(w) => Some(mc.constant(w))
    case Local(x) => if x in st.locals then Some(st.locals[x]) else None
    case Infix(l, op, r) =>
      var a, b := Eval(mc, l, st), Eval(mc, r, st);
      if a.None? || b.None? || (Addresses(l, op) && !IsPlace(r)) then None
      else Some(mc.apply(op, [a.value, b.value]))
    case Paren(a) => Eval(mc, a, st)
    case Call(f, a) =>
      var v := Eval(mc, a, st);
      if v.Some? then Some(mc.apply(f, [v.value])) else None
    case Read(name, index) =>
      var i := Eval(mc, index, st);
      if i.Some? && (name, mc.index(i.value)) in st.arrays then Some(st.arrays[(name, mc.index(i.value))]) else None
    case Elem(index) =>
      var i := Eval(mc, index, st);
      if st.shared.Whole? && i.Some? && 0 <= mc.index(i.value) < |st.shared.j|
      then Some(Four(st.shared.j[mc.index(i.value)])) else None
    case Member(a, f) =>
      var v := Eval(mc, a, st);
      if v.Some? then Some(FieldOf(mc, v.value, f)) else None
    case Pair(l, r) =>
      var a, b := Eval(mc, l, st), Eval(mc, r, st);
      if a.Some? && b.Some? && a.value.One? && b.value.One? then Some(Two(a.value.s, b.value.s)) else None
    case Part(c, index) =>
      var i := Eval(mc, index, st);
      if st.shared.Split? && i.Some? then
        var s := PartAt(st.shared, c, mc.index(i.value));
        if s.Some? then Some(One(s.value)) else None
      else None
    case Load(index) =>
      var i := Eval(mc, index, st);
      if st.shared.Split? && i.Some? then LoadAt(st.shared, mc.index(i.value)) else None
    case Garbled(_, _) => None
  }

  function SetPart<S>(sh: Shared<S>, c: char, i: nat, s: S): Shared<S>
    requires sh.Split? && PartAt(sh, c, i).Some?
  {
    if c == 'x' then sh.(jx := sh.jx[i := s]) else if c == 'y' then sh.(jy := sh.jy[i := s])
    else if c == 'z' then sh.(jz := sh.jz[i := s]) else sh.(jw := sh.jw[i := s])
  }

  /** A vector with one field stored: single components here, everything else by the machine. */
  function Changed<S>(mc: Machine<S>, before: Vec4<S>, f: string, v: Value<S>): Option<Vec4<S>> {
    if |f| == 1 && f[0] in COMPONENTS then
      if v.One? then Some(Change(before, f[0], v.s)) else None
    else
      var w := mc.apply("." + f + "=", [Four(before), v]);
      if w.Four? then Some(w.v) else None
  }

  /** Storing a value in a place. A call such as `load_j(i)` is no place. */
  ghost function Put<S>(mc: Machine<S>, to: Expr, v: Value<S>, st: State<S>): Option<State<S>> {
    match to
    case Local(x) => Some(st.(locals := st.locals[x := v]))
    case Member(Local(x), f) =>
      if x in st.locals then Some(st.(locals := st.locals[x := mc.apply("." + f + "=", [st.locals[x], v])])) else None
    case Read(name, index) =>
      var i := Eval(mc, index, st);
      if i.Some? then Some(st.(arrays := st.arrays[(name, mc.index(i.value)) := v])) else None
    case Member(Read(name, index), f) =>
      var i := Eval(mc, index, st);
      if i.Some? && (name, mc.index(i.value)) in st.arrays then
        var at := (name, mc.index(i.value));
        Some(st.(arrays := st.arrays[at := mc.apply("." + f + "=", [st.arrays[at], v])]))
      else None
    case Elem(index) =>
      var i := Eval(mc, index, st);
      if st.shared.Whole? && i.Some? && 0 <= mc.index(i.value) < |st.shared.j| && v.Four? then
        Some(st.(shared := Whole(st.shared.j[mc.index(i.value) := v.v])))
      else None
    case Member(Elem(index), f) =>
      var i := Eval(mc, index, st);
      if st.shared.Whole? && i.Some? && 0 <= mc.index(i.value) < |st.shared.j| then
        var at := mc.index(i.value);
        var now := Changed(mc, st.shared.j[at], f, v);
        if now.Some? then Some(st.(shared := Whole(st.shared.j[at := now.value]))) else None
      else None
    case Part(c, index) =>
      var i := Eval(mc, index, st);
      if st.shared.Split? && i.Some? && v.One? && PartAt(st.shared, c, mc.index(i.value)).Some? then
        Some(st.(shared := SetPart(st.shared, c, mc.index(i.value), v.s)))
      else None
    case _ => None
  }

  /** `store_j`: the four components, one after the other. */
  ghost function StoreAt<S>(sh: Shared<S>, i: int, v: Vec4<S>): Option<Shared<S>>
    requires sh.Split?
  {
    if PartAt(sh, 'x', i).None? then None else
    var a := SetPart(sh, 'x', i, v.x);
    if PartAt(a, 'y', i).None? then None else
    var b := SetPart(a, 'y', i, v.y);
    if PartAt(b, 'z', i).None? then None else
    var c := SetPart(b, 'z', i, v.z);
    if PartAt(c, 'w', i).None? then None else
    Some(SetPart(c, 'w', i, v.w))
  }

  /** The value an assignment operator stores: the new one, or what the machine makes of old and new. */
  ghost function Combined<S>(mc: Machine<S>, to: Expr, op: string, v: Value<S>, st: State<S>): Option<Value<S>> {
    if Bare(op) == "=" then Some(v) else
    var before := Eval(mc, to, st);
    if before.Some? then Some(mc.apply(op, [before.value, v])) else None
  }

  datatype Exit<S> = Normal | Broke | Continued | Returned(v: Value<S>)

  /** `Failed`: a read or a write without a meaning. */
  datatype Outcome<S> = OutOfFuel | Failed | Done(exit: Exit<S>, st: State<S>)

  function OrFailed<S>(m: Option<State<S>>): Outcome<S> {
    if m.Some? then Done(Normal, m.value) else Failed
  }

  ghost function ExecSimple<S>(mc: Machine<S>, a: Simple, st: State<S>): Outcome<S> {
    match a
    case Nothing => Done(Normal, st)
    case Declare(_, x, _, e) =>
      var v := Eval(mc, e, st);
      if v.Some? then Done(Normal, st.(locals := st.locals[x := v.value])) else Failed
    case Assign(to, op, e) =>
      var v := Eval(mc, e, st);
      if v.None? then Failed else
      var w := Combined(mc, to, op, v.value, st);
      if w.None? then Failed else OrFailed(Put(mc, to, w.value, st))
    case Store(index, _, e) =>
      var v, i := Eval(mc, e, st), Eval(mc, index, st);
      if st.shared.Split? && v.Some? && v.value.Four? && i.Some? then
        var sh := StoreAt(st.shared, mc.index(i.value), v.value.v);
        if sh.Some? then Done(Normal, st.(shared := sh.value)) else Failed
      else Failed
    case Do(e) => if Eval(mc, e, st).Some? then Done(Normal, st) else Failed
  }

  ghost function Exec<S>(mc: Machine<S>, s: Stmt, st: State<S>, fuel: nat): Outcome<S>
    decreases fuel, s, 1
  {
    match s
    case Gap(_) => Done(Normal, st)
    case Plain(a) => ExecSimple(mc, a, st)
    case Break => Done(Broke, st)
    case Continue => Done(Continued, st)
    case Return(_, e) =>
      var v := Eval(mc, e, st);
      if v.Some? then Done(Returned(v.value), st) else Failed
    case Seq(a, b) =>
      var first := Exec(mc, a, st, fuel);
      if first.Done? && first.exit == Normal then Exec(mc, b, first.st, fuel) else first
    case If(_, c, a) =>
      var v := Eval(mc, c, st);
      if v.None? then Failed else if mc.holds(v.value) then Exec(mc, a, st, fuel) else Done(Normal, st)
    case IfElse(_, c, a, _, b) =>
      var v := Eval(mc, c, st);
      if v.None? then Failed else Exec(mc, if mc.holds(v.value) then a else b, st, fuel)
    case Loop(_, _) => Turns(mc, s, st, fuel)
    case While(_, _, _) => Turns(mc, s, st, fuel)
    case For(init, _, _, _) =>
      var start := ExecSimple(mc, init, st);
      if start.Done? then Turns(mc, s, start.st, fuel) else start
  }

  /** The condition of a loop; one that is left out holds. */
  ghost function Goes<S>(mc: Machine<S>, s: Stmt, st: State<S>): Option<bool>
    requires s.Loop? || s.While? || s.For?
  {
    if s.Loop? || s.cond == Empty then Some(true) else
    var v := Eval(mc, s.cond, st);
    if v.Some? then Some(mc.holds(v.value)) else None
  }

  /** The turns of a loop; a `for` updates after each. */
  ghost function Turns<S>(mc: Machine<S>, s: Stmt, st: State<S>, fuel: nat): Outcome<S>
    requires s.Loop? || s.While? || s.For?
    decreases fuel, s, 0
  {
    if fuel == 0 then OutOfFuel else
    var goes := Goes(mc, s, st);
    if goes.None? then Failed else if !goes.value then Done(Normal, st) else
    var turn := Exec(mc, s.body, st, fuel - 1);
    if !turn.Done? || turn.exit.Returned? then turn
    else if turn.exit == Broke then Done(Normal, turn.st)
    else
      var next := if s.For? then ExecSimple(mc, s.update, turn.st) else Done(Normal, turn.st);
      if next.Done? then Turns(mc, s, next.st, fuel - 1) else next
  }

  // ---------- the four substitutions ----------

  /** `j[i].yz` becomes `vec2<f32>(jy[i],jz[i])`; letters behind it stay where they are. */
  function YzE(e: Expr): Expr {
    match e
    case Member(Elem(i), f) =>
      var pair := Pair(Part('y', i), Part('z', i));
      if !("yz" <= f) then e else if f == "yz" then pair else Garbled(pair, f[2..])
    case Member(a, f) => Member(YzE(a), f)
    case Infix(l, op, r) => Infix(YzE(l), op, YzE(r))
    case Paren(a) => Paren(YzE(a))
    case Call(f, a) => Call(f, YzE(a))
    case Read(n, i) => Read(n, YzE(i))
    case Pair(l, r) => Pair(YzE(l), YzE(r))
    case _ => e
  }

  /** `j[i].x` becomes `jx[i]`; letters after the first stay where they are. */
  function PartE(e: Expr): Expr {
    match e
    case Member(Elem(i), f) =>
      if f == "" || f[0] !in COMPONENTS then e
      else if |f| == 1 then Part(f[0], i)
      else Garbled(Part(f[0], i), f[1..])
    case Member(a, f) => Member(PartE(a), f)
    case Infix(l, op, r) => Infix(PartE(l), op, PartE(r))
    case Paren(a) => Paren(PartE(a))
    case Call(f, a) => Call(f, PartE(a))
    case Read(n, i) => Read(n, PartE(i))
    case Pair(l, r) => Pair(PartE(l), PartE(r))
    case _ => e
  }

  /** `j[i]` becomes `load_j(i)` */
  function LoadE(e: Expr): Expr {
    match e
    case Elem(i) => Load(i)
    case Member(a, f) => Member(LoadE(a), f)
    case Infix(l, op, r) => Infix(LoadE(l), op, LoadE(r))
    case Paren(a) => Paren(LoadE(a))
    case Call(f, a) => Call(f, LoadE(a))
    case Read(n, i) => Read(n, LoadE(i))
    case Pair(l, r) => Pair(LoadE(l), LoadE(r))
    case _ => e
  }

  /** `.yz` reads, single components, whole stores, whole loads. */
  datatype Step = Pairs | Parts | Wholes | Loads

  function TakeE(step: Step, e: Expr): Expr {
    match step
    case Pairs => YzE(e)
    case Parts => PartE(e)
    case Wholes => e
    case Loads => LoadE(e)
  }

  /** `j[i]=e` becomes `store_j(i,e)`; all other substitutions are made in every expression. */
  function TakeSimple(step: Step, a: Simple): Simple {
    match a
    case Nothing => a
    case Declare(k, x, op, e) => Declare(k, x, op, TakeE(step, e))
    case Assign(to, op, e) =>
      if step == Wholes && to.Elem? && op != "" && op[0] == '=' then Store(to.index, op[1..], e)
      else Assign(TakeE(step, to), op, TakeE(step, e))
    case Store(i, gap, e) => Store(TakeE(step, i), gap, TakeE(step, e))
    case Do(e) => Do(TakeE(step, e))
  }

  function Take(step: Step, s: Stmt): Stmt {
    match s
    case Gap(_) => s
    case Plain(a) => Plain(TakeSimple(step, a))
    case Break => s
    case Continue => s
    case Return(gap, e) => Return(gap, TakeE(step, e))
    case Seq(a, b) => Seq(Take(step, a), Take(step, b))
    case If(gap, c, a) => If(gap, TakeE(step, c), Take(step, a))
    case IfElse(gap, c, a, gap2, b) => IfElse(gap, TakeE(step, c), Take(step, a), gap2, Take(step, b))
    case Loop(gap, a) => Loop(gap, Take(step, a))
    case While(gap, c, a) => While(gap, TakeE(step, c), Take(step, a))
    case For(init, c, update, a) => For(TakeSimple(step, init), TakeE(step, c), TakeSimple(step, update), Take(step, a))
  }

  /** The steps in some order. */
  function Pass(order: seq<Step>, s: Stmt): Stmt {
    if order == [] then s else Pass(order[1..], Take(order[0], s))
  }

  /** No step twice. */
  predicate Distinct(order: seq<Step>) {
    forall i, j | 0 <= i < j < |order| :: order[i] != order[j]
  }

  /** The script: `.yz`, components, stores, loads. */
  const SCRIPT := [Pairs, Parts, Wholes, Loads]

  function SoaE(e: Expr): Expr { LoadE(PartE(YzE(e))) }

  function SoaSimple(a: Simple): Simple {
    TakeSimple(Loads, TakeSimple(Wholes, TakeSimple(Parts, TakeSimple(Pairs, a))))
  }

  function Soa(s: Stmt): Stmt {
    Take(Loads, Take(Wholes, Take(Parts, Take(Pairs, s))))
  }
}
