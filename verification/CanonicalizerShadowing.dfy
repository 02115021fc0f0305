/** A loop whose body declares a name of its update: what the rewrite does to it, and exactly which
    declared names are harmless. */
module CanonicalizerShadowing {
  import opened ShaderText
  import opened ShaderProgram
  import opened ShaderMeaning
  import opened CanonicalizerMeaning
  import opened CanonicalizerLaws

  // ---------- one turn ----------

  /** The value an assignment computes, and the memory it leaves, when its names mean what they
      mean in `env`. */
  ghost function Computed<T, M>(mc: Machine<T, M>, update: Simple, env: seq<map<string, Value<T>>>,
                                mem: M): (Value<T>, M)
    requires update.Assign?
  {
    var (p, m1) := Eval(mc, update.path, env, mem);
    var (v, m2) := Eval(mc, update.e, env, m1);
    mc.apply(update.op, [Lookup(mc, env, m2, update.x), p, v], m2)
  }

  /** What the rewrite makes of any assignment, whenever a turn ends normally. The original update
      computes with the names outside the body; the rewritten one with those the body declared, and
      it changes no variable outside when the body declared the assigned one. */
  lemma ShadowedUpdate<T, M>(mc: Machine<T, M>, s: Stmt, st: State<T, M>, fuel: nat)
    requires s.For? && st.env != [] && s.update.Assign?
    requires var d := Decide(mc, s.cond, st.env, st.mem); d.Decided? && d.holds
    requires var inside := Exec(mc, s.body, Enter(st.(mem := Decide(mc, s.cond, st.env, st.mem).mem)), fuel);
             inside.Done? && inside.exit == Normal && inside.st.env != []
    ensures var start := Enter(st.(mem := Decide(mc, s.cond, st.env, st.mem).mem));
            var State(env, mem) := Exec(mc, s.body, start, fuel).st;
            var (v, m) := Computed(mc, s.update, env[1..], mem);
            ExecSimple(mc, s.update, State(env[1..], mem)) == Store(mc, State(env[1..], m), s.update.x, v)
    ensures var start := Enter(st.(mem := Decide(mc, s.cond, st.env, st.mem).mem));
            var State(env, mem) := Exec(mc, s.body, start, fuel).st;
            var (v, m) := Computed(mc, s.update, env, mem);
            Leave(Exec(mc, Turn(s), Enter(st), fuel)) ==
              Done(Normal, if s.update.x in env[0] then State(env[1..], m)
                           else Store(mc, State(env[1..], m), s.update.x, v))
  {
    hide Decide, Eval, Guard;
    GuardTest(mc, s.cond, st, fuel);
    var start := Enter(st.(mem := Decide(mc, s.cond, st.env, st.mem).mem));
    var inside := Exec(mc, s.body, start, fuel);
    var after := ExecSimple(mc, s.update, inside.st);
    var (v, m) := Computed(mc, s.update, inside.st.env, inside.st.mem);
    assert after == Store(mc, State(inside.st.env, m), s.update.x, v);
    assert after.env[1..] == if s.update.x in inside.st.env[0] then inside.st.env[1..]
                             else Store(mc, State(inside.st.env[1..], m), s.update.x, v).env;
    assert Exec(mc, Seq(s.body, Plain(s.update)), start, fuel) == Done(Normal, after);
  }

  /** One unit of everything: only `true`, `false` and `=` mean something. */
  ghost function Switchboard(): Machine<(), ()> {
    Machine(w => Bool(w == "true"),
            (op, args: seq<Value<()>>, m) => (if op == "=" && |args| == 3 then args[2] else Bool(false), m),
            (x, m) => Bool(false),
            (x, v, m) => m)
  }

  /** `for(;x;x=false){let x=true;}` */
  const SHADOWING: Stmt :=
    For([], Skip, Name("x"), Assign("x", Unit, "=", Literal("false")), [], Plain(Decl("let", "x", Literal("true"))))

  /** The state in which `x` is true. */
  ghost function WithX(): State<(), ()> {
    State([map["x" := Bool(true)]], ())
  }

  lemma SecondScope(mc: Machine<(), ()>, v: Value<()>, w: Value<()>)
    ensures Lookup(mc, [map[], map["x" := v]], (), "x") == v
    ensures Store(mc, State([map[], map["x" := v]], ()), "x", w) == State([map[], map["x" := w]], ())
  {
    var outer := State([map["x" := v]], ());
    assert [map[], map["x" := v]][1..] == outer.env;
    assert map["x" := v]["x" := w] == map["x" := w];
    assert Store(mc, outer, "x", w).env == [map["x" := w]];
  }

  /** One turn of the rewritten loop ends where it began. */
  lemma ShadowedTurn(fuel: nat)
    ensures Leave(Exec(Switchboard(), Turn(SHADOWING), Enter(Enter(WithX())), fuel)) == Done(Normal, Enter(WithX()))
  {
    hide Guard, Decide;
    var mc, st := Switchboard(), Enter(WithX());
    var e := Enter(st);
    assert e.env[1..] == st.env && st.env == [map[], map["x" := Bool(true)]];
    SecondScope(mc, Bool(true), Bool(false));
    assert Decide(mc, SHADOWING.cond, st.env, ()) == Decided(true, ()) by { DecideName(mc, st.env); }
    GuardTest(mc, SHADOWING.cond, st, fuel);
    var inner := Declare(e, "x", Bool(true));
    assert Exec(mc, SHADOWING.body, e, fuel) == Done(Normal, inner);
    var after := ExecSimple(mc, SHADOWING.update, inner);
    assert after == Store(mc, inner, "x", Bool(false));
    assert after.env[1..] == st.env;
    assert Exec(mc, Seq(SHADOWING.body, Plain(SHADOWING.update)), e, fuel) == Done(Normal, after);
  }

  lemma DecideName(mc: Machine<(), ()>, env: seq<map<string, Value<()>>>)
    ensures Decide(mc, Name("x"), env, ()) == Decided(Lookup(mc, env, (), "x").True(), ())
  {}

  lemma {:induction false} ShadowedSpins(fuel: nat)
    ensures Exec(Switchboard(), Loop(Turn(SHADOWING)), Enter(WithX()), fuel) == OutOfFuel
    decreases fuel
  {
    hide Turn;
    if fuel > 0 {
      ShadowedTurn(fuel - 1);
      ShadowedSpins(fuel - 1);
    }
  }

  /** Without the shadowing condition the rewrite can change the meaning: this printable program
      ends, and its rewriting runs for ever. */
  lemma ShadowingBreaks()
    ensures Printable(SHADOWING) && !Regular(SHADOWING)
    ensures Exec(Switchboard(), SHADOWING, WithX(), 2) == Done(Normal, State([map["x" := Bool(false)]], ()))
    ensures forall fuel: nat :: Exec(Switchboard(), Canon(SHADOWING), WithX(), fuel) == OutOfFuel
  {
    hide Print, Exec;
    assert "x" in Declared(SHADOWING.body) && "x" in SimpleNames(SHADOWING.update);
    ShadowedEnds();
    NoMention();
    forall fuel: nat ensures Exec(Switchboard(), Canon(SHADOWING), WithX(), fuel) == OutOfFuel {
      ShadowedNeverEnds(fuel);
    }
  }

  lemma ShadowedNeverEnds(fuel: nat)
    ensures var rewritten := Bottom(SHADOWING.init, SHADOWING.cond, SHADOWING.update, SHADOWING.body);
            Exec(Switchboard(), rewritten, WithX(), fuel) == OutOfFuel
  {
    var mc := Switchboard();
    ShadowedSpins(fuel);
    assert Exec(mc, Plain(Skip), Enter(WithX()), fuel) == Done(Normal, Enter(WithX()));
    assert Exec(mc, Seq(Plain(Skip), Loop(Turn(SHADOWING))), Enter(WithX()), fuel) == OutOfFuel;
  }

  lemma ShadowedEnds()
    ensures Exec(Switchboard(), SHADOWING, WithX(), 2) == Done(Normal, State([map["x" := Bool(false)]], ()))
  {
    var mc := Switchboard();
    var a, b := Enter(WithX()), Enter(State([map["x" := Bool(false)]], ()));
    assert a.env == [map[], map["x" := Bool(true)]] && b.env == [map[], map["x" := Bool(false)]];
    SecondScope(mc, Bool(true), Bool(false));
    SecondScope(mc, Bool(false), Bool(false));
    assert Decide(mc, SHADOWING.cond, a.env, ()) == Decided(true, ());
    assert Decide(mc, SHADOWING.cond, b.env, ()) == Decided(false, ());
    var body := Exec(mc, SHADOWING.body, Enter(a), 1);
    assert body == Done(Normal, Declare(Enter(a), "x", Bool(true)));
    assert Leave(body).st.env == a.env;
    assert ExecSimple(mc, SHADOWING.update, a) == b;
    assert ExecFor(mc, SHADOWING, b, 1) == Done(Normal, b);
    assert ExecFor(mc, SHADOWING, a, 2) == Done(Normal, b);
  }

  lemma NoMention()
    ensures !MentionsContinue(Print(Canon(SHADOWING.body)))
  {
    var words := ["let", "x", "true"];
    assert PrintExpr(Literal("true")) == [Word("true")];
    assert Print(SHADOWING.body) == [Word("let"), Space(' '), Word("x"), Punct('='), Word("true"), Punct(';')];
    forall w | w in words ensures !Contains(w, "continue") {
      forall i | 0 <= i <= |w| ensures !("continue" <= w[i..]) { assert |w[i..]| < 8; }
    }
    assert words[0] == "let" && words[1] == "x" && words[2] == "true";
  }

  // ---------- exactly which names ----------

  type Log = seq<seq<Value<()>>>

  /** A machine that notes the operands of every operation, calls and indexes included. The first
      operation gives `true` and all others `false`; constants are `false`, module-scope names `true`. */
  ghost function Recorder(): Machine<(), Log> {
    Machine(w => Bool(false),
            (op, args: seq<Value<()>>, m: Log) => (Bool(m == []), m + [args]),
            (x, m: Log) => Bool(true),
            (x, v, m: Log) => m)
  }

  /** Every operand is evaluated. */
  predicate Strict(e: Expr) {
    match e
    case Unary(_, a) => Strict(a)
    case Binary(l, op, r) => op != "&&" && op != "||" && Strict(l) && Strict(r)
    case Wrap(_, _, a) => Strict(a)
    case Member(a, _) => Strict(a)
    case _ => true
  }

  /** An assignment or a call without `&&` and `||`. */
  predicate StrictUpdate(update: Simple) {
    match update
    case Assign(_, path, _, e) => Strict(path) && Strict(e)
    case Do(Wrap(head, b, a)) => (head != "" || b != '(') && Strict(a)
    case _ => false
  }

  type Env = seq<map<string, Value<()>>>

  /** Both environments hold booleans only, and they differ in `names`. */
  ghost predicate Opposed(inner: Env, outer: Env, names: set<string>) {
    && (forall x, m :: Lookup(Recorder(), inner, m, x).Bool? && Lookup(Recorder(), outer, m, x).Bool?)
    && (forall x, m, n | x in names :: Lookup(Recorder(), inner, m, x) != Lookup(Recorder(), outer, n, x))
  }

  ghost predicate Longer(a: Log, b: Log) {
    a <= b && b != []
  }

  lemma LastNote(a: Log, b: Log, x: seq<Value<()>>, y: seq<Value<()>>)
    requires |a| == |b|
    ensures a + [x] == b + [y] <==> a == b && x == y
    ensures Longer(a, a + [x])
  {
    assert (a + [x])[..|a|] == a && (b + [y])[..|b|] == b;
    assert (a + [x])[|a|] == x && (b + [y])[|b|] == y;
  }

  /** Two evaluations that read different values leave different values or different notes. */
  lemma {:induction false} Noted(e: Expr, inner: Env, outer: Env, a: Log, b: Log, names: set<string>)
    requires Strict(e) && Opposed(inner, outer, names) && a != [] && |a| == |b|
    ensures var r, s := Eval(Recorder(), e, inner, a), Eval(Recorder(), e, outer, b);
            && r.0.Bool? && s.0.Bool? && |r.1| == |s.1| && Longer(a, r.1) && Longer(b, s.1)
            && (a != b || ExprNames(e) * names != {} ==> r != s)
            && (a != b ==> r.1 != s.1)
  {
    hide Lookup;
    var mc := Recorder();
    match e
    case Unary(op, c) =>
      Noted(c, inner, outer, a, b, names);
      var (v, m) := Eval(mc, c, inner, a);
      var (w, n) := Eval(mc, c, outer, b);
      LastNote(m, n, [v], [w]);
    case Binary(l, op, r) =>
      Noted(l, inner, outer, a, b, names);
      var (v1, m1) := Eval(mc, l, inner, a);
      var (w1, n1) := Eval(mc, l, outer, b);
      Noted(r, inner, outer, m1, n1, names);
      var (v2, m2) := Eval(mc, r, inner, m1);
      var (w2, n2) := Eval(mc, r, outer, n1);
      LastNote(m2, n2, [v1, v2], [w1, w2]);
    case Wrap(head, _, c) =>
      Noted(c, inner, outer, a, b, names);
      var (v, m) := Eval(mc, c, inner, a);
      var (w, n) := Eval(mc, c, outer, b);
      LastNote(m, n, [v], [w]);
      LastNote(m, n, [Lookup(mc, inner, m, head), v], [Lookup(mc, outer, n, head), w]);
    case Member(c, _) =>
      Noted(c, inner, outer, a, b, names);
      var (v, m) := Eval(mc, c, inner, a);
      var (w, n) := Eval(mc, c, outer, b);
      LastNote(m, n, [v], [w]);
    case _ =>
  }

  /** An update that uses an opposed name leaves different notes. */
  lemma UpdateNoted(update: Simple, inner: State<(), Log>, outer: State<(), Log>, names: set<string>)
    requires StrictUpdate(update) && Opposed(inner.env, outer.env, names)
    requires inner.mem == outer.mem != [] && SimpleNames(update) * names != {}
    ensures ExecSimple(Recorder(), update, inner).mem != ExecSimple(Recorder(), update, outer).mem
    ensures |ExecSimple(Recorder(), update, inner).mem| == |ExecSimple(Recorder(), update, outer).mem| > 0
  {
    hide Lookup, Eval;
    var mc := Recorder();
    match update
    case Assign(x, path, op, e) =>
      Noted(path, inner.env, outer.env, inner.mem, outer.mem, names);
      var (p, m1) := Eval(mc, path, inner.env, inner.mem);
      var (q, n1) := Eval(mc, path, outer.env, outer.mem);
      Noted(e, inner.env, outer.env, m1, n1, names);
      var (v, m2) := Eval(mc, e, inner.env, m1);
      var (w, n2) := Eval(mc, e, outer.env, n1);
      var a, b := Lookup(mc, inner.env, m2, x), Lookup(mc, outer.env, n2, x);
      LastNote(m2, n2, [a, p, v], [b, q, w]);
      StoredNotes(State(inner.env, m2 + [[a, p, v]]), x, Bool(m2 == []));
      StoredNotes(State(outer.env, n2 + [[b, q, w]]), x, Bool(n2 == []));
    case Do(e) =>
      Noted(e, inner.env, outer.env, inner.mem, outer.mem, names);
      CallNoted(e, inner, outer, names);
  }

  lemma {:induction false} StoredNotes(st: State<(), Log>, x: string, v: Value<()>)
    ensures Store(Recorder(), st, x, v).mem == st.mem
    decreases |st.env|
  {
    if st.env != [] && x !in st.env[0] { StoredNotes(State(st.env[1..], st.mem), x, v); }
  }

  lemma CallNoted(e: Expr, inner: State<(), Log>, outer: State<(), Log>, names: set<string>)
    requires e.Wrap? && (e.head != "" || e.bracket != '(') && Strict(e) && Opposed(inner.env, outer.env, names)
    requires inner.mem == outer.mem != [] && ExprNames(e) * names != {}
    ensures Eval(Recorder(), e, inner.env, inner.mem).1 != Eval(Recorder(), e, outer.env, outer.mem).1
  {
    hide Lookup;
    Noted(e.e, inner.env, outer.env, inner.mem, outer.mem, names);
    var (v, m) := Eval(Recorder(), e.e, inner.env, inner.mem);
    var (w, n) := Eval(Recorder(), e.e, outer.env, outer.mem);
    LastNote(m, n, [v], [w]);
    LastNote(m, n, [Lookup(Recorder(), inner.env, m, e.head), v], [Lookup(Recorder(), outer.env, n, e.head), w]);
  }

  // ---------- a loop that tells ----------

  /** `let x=0;` for each of the names. */
  function Lets(names: seq<string>): Stmt {
    if names == [] then Layout([]) else Seq(LetZero(names[0]), Lets(names[1..]))
  }

  function LetZero(x: string): Stmt { Plain(Decl("let", x, Literal("0"))) }

  ghost predicate GoodNames(names: seq<string>) {
    forall x | x in names :: Identifier(x) && !Contains(x, "continue")
  }

  lemma {:induction false} LetsText(names: seq<string>)
    requires GoodNames(names)
    ensures Declared(Lets(names)) == (set x | x in names) && Printable(Lets(names))
    ensures Regular(Lets(names)) && Canon(Lets(names)) == Lets(names)
    ensures !MentionsContinue(Print(Lets(names)))
  {
    hide Contains, MentionsContinue, Print;
    if names == [] {
      NothingMentioned();
    } else {
      LetsText(names[1..]);
      LetQuiet(names[0]);
      MentionsSplit(Print(LetZero(names[0])), Print(Lets(names[1..])));
      PrintSeq(LetZero(names[0]), Lets(names[1..]));
      assert names == [names[0]] + names[1..];
    }
  }

  lemma NothingMentioned()
    ensures !MentionsContinue(Print(Layout([])))
  {}

  lemma MentionsSplit(x: Text, y: Text)
    ensures MentionsContinue(x + y) ==> MentionsContinue(x) || MentionsContinue(y)
  {
    hide Contains;
    if MentionsContinue(x + y) {
      var i :| 0 <= i < |x + y| && (x + y)[i].Word? && Contains((x + y)[i].text, "continue");
      assert (x + y)[i] == if i < |x| then x[i] else y[i - |x|];
    }
  }

  lemma LetQuiet(x: string)
    requires !Contains(x, "continue")
    ensures !MentionsContinue(Print(LetZero(x)))
  {
    hide Contains;
    ShortWord("let");
    ShortWord("0");
    assert Print(LetZero(x)) == [Word("let"), Space(' '), Word(x), Punct('='), Word("0"), Punct(';')];
  }

  lemma ShortWord(w: string)
    requires |w| < 8
    ensures !Contains(w, "continue")
  {
    forall i | 0 <= i <= |w| ensures !("continue" <= w[i..]) { assert |w[i..]| < 8; }
  }

  /** Running it declares the names, as `false`, and does nothing else. */
  lemma {:induction false} LetsRun(names: seq<string>, st: State<(), Log>, fuel: nat)
    requires st.env != []
    ensures var o := Exec(Recorder(), Lets(names), st, fuel);
            && o.Done? && o.exit == Normal && o.st.mem == st.mem && o.st.env != [] && o.st.env[1..] == st.env[1..]
            && (forall x :: x in o.st.env[0] <==> x in names || x in st.env[0])
            && (forall x | x in o.st.env[0] :: o.st.env[0][x] == if x in names then Bool(false) else st.env[0][x])
    decreases |names|
  {
    if names != [] {
      var next := Declare(st, names[0], Bool(false));
      LetZeroRun(names[0], st, fuel);
      LetsRun(names[1..], next, fuel);
      assert names == [names[0]] + names[1..];
      assert Exec(Recorder(), Lets(names), st, fuel) == Exec(Recorder(), Lets(names[1..]), next, fuel);
    }
  }

  lemma LetZeroRun(x: string, st: State<(), Log>, fuel: nat)
    ensures Exec(Recorder(), LetZero(x), st, fuel) == Done(Normal, Declare(st, x, Bool(false)))
  {}

  // ---------- one turn of the original and of the rewritten loop ----------

  /** A loop with two units of fuel: its condition holds once, its body changes only its own scope. */
  lemma OneTurn<T, M>(mc: Machine<T, M>, s: Stmt, st: State<T, M>, m: M, inside: State<T, M>, x: M, y: M)
    requires s.For? && s.cond != Unit
    requires var start := ExecSimple(mc, s.init, Enter(st));
             && start.env != [] && Decide(mc, s.cond, start.env, start.mem) == Decided(true, m)
             && Exec(mc, s.body, Enter(State(start.env, m)), 1) == Done(Normal, inside)
             && inside.env != [] && inside.env[1..] == start.env && inside.mem == m
    requires var after := ExecSimple(mc, s.update, State(inside.env[1..], m));
             after.env != [] && Decide(mc, s.cond, after.env, after.mem) == Decided(false, x)
    requires var after := ExecSimple(mc, s.update, inside);
             after.env != [] && Decide(mc, s.cond, after.env[1..], after.mem) == Decided(false, y)
    ensures var o := Exec(mc, s, st, 2); o.Done? && o.st.mem == x
    ensures var o := Exec(mc, Bottom(s.init, s.cond, s.update, s.body), st, 2); o.Done? && o.st.mem == y
  {
    hide Decide, ExecSimple;
    OriginalTurn(mc, s, st, m, inside, x);
    RewrittenTurn(mc, s, st, m, inside, y);
  }

  lemma OriginalTurn<T, M>(mc: Machine<T, M>, s: Stmt, st: State<T, M>, m: M, inside: State<T, M>, x: M)
    requires s.For? && s.cond != Unit
    requires var start := ExecSimple(mc, s.init, Enter(st));
             && start.env != [] && Decide(mc, s.cond, start.env, start.mem) == Decided(true, m)
             && Exec(mc, s.body, Enter(State(start.env, m)), 1) == Done(Normal, inside)
             && inside.env != [] && inside.env[1..] == start.env && inside.mem == m
    requires var after := ExecSimple(mc, s.update, State(inside.env[1..], m));
             after.env != [] && Decide(mc, s.cond, after.env, after.mem) == Decided(false, x)
    ensures var o := Exec(mc, s, st, 2); o.Done? && o.st.mem == x
  {
    hide Decide, ExecSimple;
    var start := ExecSimple(mc, s.init, Enter(st));
    var after := ExecSimple(mc, s.update, State(inside.env[1..], m));
    assert start.(mem := m) == State(start.env, m);
    assert Leave(Done(Normal, inside)) == Done(Normal, State(inside.env[1..], m));
    assert ExecFor(mc, s, after, 1) == Done(Normal, after.(mem := x));
    assert ExecFor(mc, s, start, 2) == ExecFor(mc, s, after, 1);
  }

  lemma RewrittenTurn<T, M>(mc: Machine<T, M>, s: Stmt, st: State<T, M>, m: M, inside: State<T, M>, y: M)
    requires s.For? && s.cond != Unit
    requires var start := ExecSimple(mc, s.init, Enter(st));
             && start.env != [] && Decide(mc, s.cond, start.env, start.mem) == Decided(true, m)
             && Exec(mc, s.body, Enter(State(start.env, m)), 1) == Done(Normal, inside)
    requires var after := ExecSimple(mc, s.update, inside);
             after.env != [] && Decide(mc, s.cond, after.env[1..], after.mem) == Decided(false, y)
    ensures var o := Exec(mc, Bottom(s.init, s.cond, s.update, s.body), st, 2); o.Done? && o.st.mem == y
  {
    hide Decide, ExecSimple, Guard;
    var start, after := ExecSimple(mc, s.init, Enter(st)), ExecSimple(mc, s.update, inside);
    assert start.(mem := m) == State(start.env, m);
    GuardTest(mc, s.cond, start, 1);
    assert Exec(mc, Seq(s.body, Plain(s.update)), Enter(State(start.env, m)), 1) == Done(Normal, after);
    var turn := Leave(Exec(mc, Turn(s), Enter(start), 1));
    assert turn == Done(Normal, State(after.env[1..], after.mem));
    GuardTest(mc, s.cond, turn.st, 0);
    var last := turn.st.(mem := y);
    assert Enter(last).env[1..] == last.env;
    assert Leave(Exec(mc, Turn(s), Enter(turn.st), 0)) == Done(Broke, last);
    assert Exec(mc, Loop(Turn(s)), start, 2) == Done(Normal, last);
    assert Exec(mc, Plain(s.init), Enter(st), 2) == Done(Normal, start);
    assert Exec(mc, Seq(Plain(s.init), Loop(Turn(s))), Enter(st), 2) == Done(Normal, last);
  }

  // ---------- a loop that tells ----------

  /** True in the first turn only. */
  const ASK := Wrap("ask", '(', Unit)

  const START: State<(), Log> := State([], [])

  lemma Ask(env: Env, m: Log)
    ensures Decide(Recorder(), ASK, env, m) == Decided(m == [], m + [[Lookup(Recorder(), env, m, "ask"), Bool(false)]])
  {
    hide Lookup;
    assert Eval(Recorder(), Unit, env, m) == (Bool(false), m);
  }

  function Telling(update: Simple, names: seq<string>): Stmt {
    For([], Skip, ASK, update, [], Lets(names))
  }

  const ASKED: Log := [[Bool(true), Bool(false)]]

  /** The state before the first update, without and with the scope of the body. */
  const OUTSIDE: State<(), Log> := State([map[]], ASKED)

  ghost function Inside(names: seq<string>): State<(), Log> {
    LetsRun(names, Enter(OUTSIDE), 1);
    Exec(Recorder(), Lets(names), Enter(OUTSIDE), 1).st
  }

  lemma BodyRun(names: seq<string>)
    ensures Exec(Recorder(), Lets(names), Enter(OUTSIDE), 1) == Done(Normal, Inside(names))
    ensures Inside(names).mem == ASKED && Inside(names).env != [] && Inside(names).env[1..] == OUTSIDE.env
  {
    LetsRun(names, Enter(OUTSIDE), 1);
    assert Enter(OUTSIDE).env[1..] == OUTSIDE.env;
  }

  lemma OpposedInside(names: seq<string>)
    ensures Opposed(Inside(names).env, OUTSIDE.env, set x | x in names)
  {
    LetsRun(names, Enter(OUTSIDE), 1);
    BodyRun(names);
    var inner, outer := Inside(names).env, OUTSIDE.env;
    assert outer[1..] == [];
    forall x, m
      ensures Lookup(Recorder(), outer, m, x) == Bool(true)
      ensures Lookup(Recorder(), inner, m, x) == Bool(x !in names)
    {
      assert Lookup(Recorder(), [], m, x) == Bool(true);
    }
  }

  /** The original and the rewritten loop leave different notes. */
  lemma TellsApart(update: Simple, names: seq<string>)
    requires StrictUpdate(update) && (set x | x in names) * SimpleNames(update) != {}
    ensures Exec(Recorder(), Bottom(Skip, ASK, update, Lets(names)), START, 2) !=
            Exec(Recorder(), Telling(update, names), START, 2)
  {
    hide Exec, ExecSimple, Lets, Inside, Opposed, SimpleNames, Lookup, Decide;
    var mc, names' := Recorder(), set x | x in names;
    BodyRun(names);
    OpposedInside(names);
    UpdateNoted(update, Inside(names), OUTSIDE, names');
    var a, b := ExecSimple(mc, update, OUTSIDE), ExecSimple(mc, update, Inside(names));
    SkipRun();
    Ask([map[]], []);
    AskModule([map[]], []);
    assert OUTSIDE == State(Inside(names).env[1..], ASKED);
    UpdateScopes(update, OUTSIDE);
    UpdateScopes(update, Inside(names));
    Ask(a.env, a.mem);
    Ask(b.env[1..], b.mem);
    var x := a.mem + [[Lookup(mc, a.env, a.mem, "ask"), Bool(false)]];
    var y := b.mem + [[Lookup(mc, b.env[1..], b.mem, "ask"), Bool(false)]];
    LastNote(a.mem, b.mem, x[|a.mem|], y[|b.mem|]);
    OneTurn(mc, Telling(update, names), START, ASKED, Inside(names), x, y);
  }

  lemma SkipRun()
    ensures ExecSimple(Recorder(), Skip, Enter(START)) == State([map[]], [])
  {
    assert Enter(START).env == [map[]];
  }

  lemma AskModule(env: Env, m: Log)
    requires env == [map[]]
    ensures Lookup(Recorder(), env, m, "ask") == Bool(true) && [] + [[Bool(true), Bool(false)]] == ASKED
  {
    assert env[1..] == [];
    assert Lookup(Recorder(), [], m, "ask") == Bool(true);
  }

  lemma UpdateScopes(update: Simple, st: State<(), Log>)
    requires StrictUpdate(update) && st.env != []
    ensures ExecSimple(Recorder(), update, st).env != []
  {
    hide Scoped;
    ScopedSimple(Recorder(), update, st);
    ScopedNonempty(st, ExecSimple(Recorder(), update, st), Declared(Plain(update)));
  }

  // ---------- the condition on names ----------

  /** A loop of the script's input that is converted, with this update over a body that declares
      these names. */
  ghost predicate Converts(s: Stmt, update: Simple, names: set<string>) {
    && s.For? && Printable(s) && s.cond != Unit && s.update == update
    && Declared(s.body) == names && Regular(s.body) && !MentionsContinue(Print(Canon(s.body)))
  }

  /** Every such loop means what its rewriting means. */
  ghost predicate Harmless(update: Simple, names: set<string>) {
    forall s: Stmt, mc: Machine<(), Log>, st: State<(), Log>, fuel: nat | Converts(s, update, names) ::
      Exec(mc, Canon(s), st, fuel) == Exec(mc, s, st, fuel)
  }

  /** For assignments and calls without `&&` and `||`: converting the loops with this update whose
      bodies declare these names is right if and only if the update uses none of them, as a variable,
      as a called function or as an indexed array. */
  lemma HarmlessExactly(update: Simple, names: seq<string>)
    requires StrictUpdate(update) && GoodSimple(update) && GoodNames(names)
    ensures Harmless(update, set x | x in names) <==> (set x | x in names) !! SimpleNames(update)
  {
    hide Exec, Canon, MentionsContinue, Print, SimpleNames, Lets, GoodNames;
    var declared := set x | x in names;
    if declared !! SimpleNames(update) {
      forall s: Stmt, mc: Machine<(), Log>, st: State<(), Log>, fuel: nat | Converts(s, update, declared)
        ensures Exec(mc, Canon(s), st, fuel) == Exec(mc, s, st, fuel)
      {
        MeaningKept(mc, s, st, fuel);
      }
    } else {
      LetsText(names);
      TellingText(update, names);
      TellsApart(update, names);
    }
  }

  lemma TellingText(update: Simple, names: seq<string>)
    requires StrictUpdate(update) && GoodSimple(update) && GoodNames(names)
    ensures Converts(Telling(update, names), update, set x | x in names)
    ensures Canon(Telling(update, names)) == Bottom(Skip, ASK, update, Lets(names))
  {
    hide MentionsContinue, Print, Lets, GoodNames;
    LetsText(names);
    assert Identifier("ask");
  }

  // ---------- a body that hides a called function ----------

  /** `for(var i=0;i<n;i=step(i)){let step=2;}` */
  const CALLING: Stmt :=
    For([], Decl("var", "i", Literal("0")), Binary(Name("i"), "<", Name("n")),
        Assign("i", Unit, "=", Wrap("step", '(', Name("i"))), [], Plain(Decl("let", "step", Literal("2"))))

  /** The states before the first update: with the loop variable, and inside the body. */
  const AROUND: State<(), Log> := State([map["i" := Bool(false)]], [[Bool(false), Bool(true)]])
  const WITHIN: State<(), Log> :=
    State([map["step" := Bool(false)], map["i" := Bool(false)]], [[Bool(false), Bool(true)]])

  /** Both loops end, but the rewritten one calls what the body declared. */
  lemma CalledNameBreaks()
    ensures Printable(CALLING) && !Regular(CALLING)
    ensures var o, p := Exec(Recorder(), CALLING, START, 2), Exec(Recorder(), Canon(CALLING), START, 2);
            o.Done? && p.Done? && o != p
  {
    hide Exec, ExecSimple, Opposed, Lookup, Decide, Print;
    CallingText();
    CallingStart();
    OpposedCalls();
    UpdateNoted(CALLING.update, WITHIN, AROUND, {"step"});
    var mc := Recorder();
    var a, b := ExecSimple(mc, CALLING.update, AROUND), ExecSimple(mc, CALLING.update, WITHIN);
    UpdateScopes(CALLING.update, AROUND);
    UpdateScopes(CALLING.update, WITHIN);
    assert AROUND == State(WITHIN.env[1..], WITHIN.mem);
    Compares(a.env, a.mem);
    Compares(b.env[1..], b.mem);
    var x := [Lookup(mc, a.env, a.mem, "i"), Lookup(mc, a.env, a.mem, "n")];
    var y := [Lookup(mc, b.env[1..], b.mem, "i"), Lookup(mc, b.env[1..], b.mem, "n")];
    LastNote(a.mem, b.mem, x, y);
    OneTurn(mc, CALLING, START, AROUND.mem, WITHIN, a.mem + [x], b.mem + [y]);
  }

  lemma Compares(env: Env, m: Log)
    ensures Decide(Recorder(), CALLING.cond, env, m) ==
            Decided(m == [], m + [[Lookup(Recorder(), env, m, "i"), Lookup(Recorder(), env, m, "n")]])
  {
    hide Lookup;
    assert Eval(Recorder(), Name("i"), env, m) == (Lookup(Recorder(), env, m, "i"), m);
    assert Eval(Recorder(), Name("n"), env, m) == (Lookup(Recorder(), env, m, "n"), m);
    assert "<"[0] != '&' && "<"[0] != '|';
    var (v, w) := (Lookup(Recorder(), env, m, "i"), Lookup(Recorder(), env, m, "n"));
    assert Eval(Recorder(), CALLING.cond, env, m) == (Bool(m == []), m + [[v, w]]);
    assert Complete(CALLING.cond);
  }

  lemma CallingText()
    ensures Printable(CALLING) && "step" in Declared(CALLING.body) && "step" in SimpleNames(CALLING.update)
    ensures !Regular(CALLING) && StrictUpdate(CALLING.update)
    ensures Canon(CALLING) == Bottom(CALLING.init, CALLING.cond, CALLING.update, CALLING.body)
  {
    hide Print;
    assert Identifier("i") && Identifier("n") && Identifier("step") && Constant("0") && Constant("2");
    assert "step" in SimpleNames(CALLING.update);
    CallingQuiet();
  }

  lemma CallingQuiet()
    ensures !MentionsContinue(Print(CALLING.body))
  {
    ShortWord("let");
    ShortWord("step");
    ShortWord("2");
    assert PrintExpr(Literal("2")) == [Word("2")];
    assert Print(CALLING.body) == [Word("let"), Space(' '), Word("step"), Punct('='), Word("2"), Punct(';')];
  }

  lemma CallingStart()
    ensures var start := ExecSimple(Recorder(), CALLING.init, Enter(START));
            && start == State(AROUND.env, []) &&
              Decide(Recorder(), CALLING.cond, start.env, []) == Decided(true, AROUND.mem)
            && Exec(Recorder(), CALLING.body, Enter(AROUND), 1) == Done(Normal, WITHIN)
  {
    var mc := Recorder();
    assert AROUND.env[1..] == [] && Enter(START).env == [map[]] && Enter(START).env[1..] == [];
    assert Lookup(mc, [], [], "n") == Bool(true);
    assert Lookup(mc, AROUND.env, [], "n") == Bool(true) && Lookup(mc, AROUND.env, [], "i") == Bool(false);
    Compares(AROUND.env, []);
    assert [] + AROUND.mem == AROUND.mem;
    assert Enter(AROUND).env == [map[]] + AROUND.env && Enter(AROUND).env[1..] == AROUND.env;
    assert Declare(Enter(AROUND), "step", Bool(false)) == WITHIN;
  }

  lemma OpposedCalls()
    ensures Opposed(WITHIN.env, AROUND.env, {"step"})
  {
    assert WITHIN.env[1..] == AROUND.env && AROUND.env[1..] == [];
    forall x, m
      ensures Lookup(Recorder(), AROUND.env, m, x) == Bool(x != "i")
      ensures Lookup(Recorder(), WITHIN.env, m, x) == Bool(x != "i" && x != "step")
    {
      assert Lookup(Recorder(), [], m, x) == Bool(true);
    }
  }

  // ---------- the condition on conditions ----------

  /** A loop that is converted and whose body declares no name of its update. */
  ghost predicate ConvertsOver(s: Stmt, cond: Expr) {
    && s.For? && Printable(s) && s.cond == cond && !s.update.Decl? && Declared(s.body) !! SimpleNames(s.update)
    && Regular(s.body) && !MentionsContinue(Print(Canon(s.body)))
  }

  /** `for(;;){break;}` */
  const FOREVER: Stmt := For([], Skip, Unit, Skip, [], Break)

  /** A loop without a condition becomes one whose guard is no expression: whatever the machine and
      the state, the loop that breaks at once ends, and its rewriting is rejected. */
  lemma NoConditionBreaks<T, M>(mc: Machine<T, M>, st: State<T, M>, fuel: nat)
    requires fuel > 0
    ensures ConvertsOver(FOREVER, Unit)
    ensures Exec(mc, FOREVER, st, fuel) == Done(Normal, st) && Exec(mc, Canon(FOREVER), st, fuel) == Rejected
  {
    BreakQuiet();
    assert Enter(st).env[1..] == st.env && Enter(Enter(st)).env[1..] == Enter(st).env;
    assert ExecFor(mc, FOREVER, Enter(st), fuel) == Done(Normal, Enter(st));
    assert !Complete(Unary("!", Wrap("", '(', Unit)));
    assert Exec(mc, Guard(Unit), Enter(Enter(st)), fuel - 1) == Rejected;
    assert Exec(mc, Turn(FOREVER), Enter(Enter(st)), fuel - 1) == Rejected;
    assert Exec(mc, Loop(Turn(FOREVER)), Enter(st), fuel) == Rejected;
    assert Exec(mc, Plain(Skip), Enter(st), fuel) == Done(Normal, Enter(st));
    assert Exec(mc, Seq(Plain(Skip), Loop(Turn(FOREVER))), Enter(st), fuel) == Rejected;
  }

  lemma BreakQuiet()
    ensures !MentionsContinue(Print(Break))
  {
    ShortWord("break");
  }

  /** On every machine and from every state: the loops with this condition, whose bodies hide no name
      of the update, keep their meaning when they are converted if and only if there is a condition. */
  lemma ConditionExactly<T(!new), M(!new)>(mc: Machine<T, M>, st: State<T, M>, cond: Expr)
    ensures (forall s: Stmt, fuel: nat | ConvertsOver(s, cond) :: Exec(mc, Canon(s), st, fuel) == Exec(mc, s, st, fuel))
            <==> cond != Unit
  {
    hide Exec, Canon, MentionsContinue, Print, SimpleNames, Declared;
    if cond != Unit {
      forall s: Stmt, fuel: nat | ConvertsOver(s, cond) ensures Exec(mc, Canon(s), st, fuel) == Exec(mc, s, st, fuel) {
        MeaningKept(mc, s, st, fuel);
      }
    } else {
      NoConditionBreaks(mc, st, 1);
    }
  }
}
