/** Moving the update to the bottom of the loop keeps the meaning of a regular program. */
module CanonicalizerMeaning {
  import opened ShaderText
  import opened ShaderProgram
  import opened ShaderMeaning
  import opened CanonicalizerPrinting

  // ---------- an extra scope on top ----------

  lemma {:induction false} EvalUnder<T, M>(mc: Machine<T, M>, e: Expr, top: map<string, Value<T>>,
                                           env: seq<map<string, Value<T>>>, mem: M)
    requires top.Keys !! ExprNames(e)
    ensures Eval(mc, e, [top] + env, mem) == Eval(mc, e, env, mem)
  {
    match e
    case Name(x) => assert x !in top && ([top] + env)[1..] == env;
    case Unary(_, a) => EvalUnder(mc, a, top, env, mem);
    case Binary(l, _, r) =>
      EvalUnder(mc, l, top, env, mem);
      EvalUnder(mc, r, top, env, Eval(mc, l, env, mem).1);
    case Wrap(head, _, a) =>
      EvalUnder(mc, a, top, env, mem);
      assert head == "" || head !in top;
      assert ([top] + env)[1..] == env;
    case Member(a, _) => EvalUnder(mc, a, top, env, mem);
    case _ =>
  }

  lemma DecideUnder<T, M>(mc: Machine<T, M>, c: Expr, top: map<string, Value<T>>, env: seq<map<string, Value<T>>>,
                          mem: M)
    requires top.Keys !! ExprNames(c)
    ensures Decide(mc, c, [top] + env, mem) == Decide(mc, c, env, mem)
  {
    EvalUnder(mc, c, top, env, mem);
  }

  /** An update that uses no name of the top scope acts on the scopes below it alone. */
  lemma UpdateUnder<T, M>(mc: Machine<T, M>, update: Simple, top: map<string, Value<T>>, st: State<T, M>)
    requires !update.Decl? && top.Keys !! SimpleNames(update)
    ensures var r := ExecSimple(mc, update, st);
            ExecSimple(mc, update, st.(env := [top] + st.env)) == r.(env := [top] + r.env)
  {
    match update
    case Skip =>
    case Assign(x, path, op, e) =>
      EvalUnder(mc, path, top, st.env, st.mem);
      EvalUnder(mc, e, top, st.env, Eval(mc, path, st.env, st.mem).1);
      assert x !in top && ([top] + st.env)[1..] == st.env;
    case Do(e) => EvalUnder(mc, e, top, st.env, st.mem);
  }

  lemma {:induction false} StoreShape<T, M>(mc: Machine<T, M>, st: State<T, M>, x: string, v: Value<T>)
    ensures var r := Store(mc, st, x, v);
            |r.env| == |st.env| && forall i | 0 <= i < |st.env| :: r.env[i].Keys == st.env[i].Keys
    decreases |st.env|
  {
    if st.env != [] && x !in st.env[0] {
      StoreShape(mc, State(st.env[1..], st.mem), x, v);
    }
  }

  /** The scopes below the top one keep their names; the top one may gain `names`. */
  ghost predicate Scoped<T, M>(before: State<T, M>, after: State<T, M>, names: set<string>) {
    && |after.env| == |before.env| > 0
    && after.env[0].Keys <= before.env[0].Keys + names
    && forall i | 1 <= i < |before.env| :: after.env[i].Keys == before.env[i].Keys
  }

  lemma ScopedSimple<T, M>(mc: Machine<T, M>, s: Simple, st: State<T, M>)
    requires st.env != []
    ensures Scoped(st, ExecSimple(mc, s, st), Declared(Plain(s)))
  {
    if s.Assign? {
      var (p, m1) := Eval(mc, s.path, st.env, st.mem);
      var (v, m2) := Eval(mc, s.e, st.env, m1);
      var (w, m3) := mc.apply(s.op, [Lookup(mc, st.env, m2, s.x), p, v], m2);
      StoreShape(mc, st.(mem := m3), s.x, w);
    }
  }

  lemma ScopedLeave<T, M>(st: State<T, M>, mem: M, o: Outcome<T, M>, names: set<string>)
    requires st.env != [] && o.Done? && Scoped(Enter(st.(mem := mem)), o.st, names)
    ensures Leave(o).Done? && Scoped(st, Leave(o).st, {})
  {
    var after := Leave(o).st.env;
    assert forall i | 0 <= i < |st.env| :: after[i].Keys == o.st.env[i + 1].Keys == st.env[i].Keys;
  }

  lemma ScopedTwice<T, M>(a: State<T, M>, b: State<T, M>, c: State<T, M>, x: set<string>, y: set<string>)
    requires Scoped(a, b, x) && Scoped(b, c, y)
    ensures Scoped(a, c, x + y)
  {}

  /** A statement closes every scope it opens, and adds to its own scope only what it declares. */
  lemma {:induction false} ScopedExec<T, M>(mc: Machine<T, M>, s: Stmt, st: State<T, M>, fuel: nat)
    requires st.env != [] && Exec(mc, s, st, fuel).Done?
    ensures Scoped(st, Exec(mc, s, st, fuel).st, Declared(s))
    decreases fuel, s, 2
  {
    hide Scoped, ExecSimple, Eval, Decide;
    ScopedSelf(st);
    match s
    case Plain(a) => ScopedSimple(mc, a, st);
    case Seq(a, b) =>
      ScopedExec(mc, a, st, fuel);
      var first := Exec(mc, a, st, fuel);
      if first.exit == Normal {
        ScopedNonempty(st, first.st, Declared(a));
        ScopedExec(mc, b, first.st, fuel);
        ScopedTwice(st, first.st, Exec(mc, b, first.st, fuel).st, Declared(a), Declared(b));
      } else {
        ScopedMore(st, first.st, Declared(a), Declared(s));
      }
    case Block(b) => ScopedBlock(mc, b, st, st.mem, fuel);
    case If(c, b) =>
      var d := Decide(mc, c, st.env, st.mem);
      if d.holds { ScopedBlock(mc, b, st, d.mem, fuel); } else { ScopedMemory(st, d.mem); }
    case IfElse(c, a, b) =>
      var d := Decide(mc, c, st.env, st.mem);
      ScopedBlock(mc, if d.holds then a else b, st, d.mem, fuel);
    case Loop(b) =>
      ScopedBlock(mc, b, st, st.mem, fuel - 1);
      var turn := Leave(Exec(mc, b, Enter(st), fuel - 1));
      if turn.exit != Broke && !turn.exit.Returned? { ScopedNext(mc, s, st, turn.st, fuel - 1); }
    case While(c, b) =>
      var d := Decide(mc, c, st.env, st.mem);
      if d.holds {
        ScopedBlock(mc, b, st, d.mem, fuel - 1);
        var turn := Leave(Exec(mc, b, Enter(st.(mem := d.mem)), fuel - 1));
        if turn.exit != Broke && !turn.exit.Returned? { ScopedNext(mc, s, st, turn.st, fuel - 1); }
      }
    case For(_, init, _, _, _, _) =>
      var start := ExecSimple(mc, init, Enter(st));
      ScopedSimple(mc, init, Enter(st));
      ScopedNonempty(Enter(st), start, Declared(Plain(init)));
      ScopedFor(mc, s, start, fuel);
      var end := ExecFor(mc, s, start, fuel);
      var names := Declared(Plain(s.update));
      ScopedTwice(Enter(st), start, end.st, Declared(Plain(init)), names);
      ScopedLeave(st, st.mem, end, Declared(Plain(init)) + names);
    case Return(e) =>
      ScopedMemory(st, Eval(mc, e, st.env, st.mem).1);
    case _ =>
  }

  lemma ScopedSelf<T, M>(st: State<T, M>)
    requires st.env != []
    ensures forall m, names :: Scoped(st, st.(mem := m), names)
    ensures forall names :: Scoped(st, st, names)
  {}

  lemma ScopedMemory<T, M>(st: State<T, M>, mem: M)
    requires st.env != []
    ensures Scoped(st, st.(mem := mem), {})
  {}

  lemma ScopedNonempty<T, M>(a: State<T, M>, b: State<T, M>, names: set<string>)
    requires Scoped(a, b, names)
    ensures b.env != []
  {}

  lemma ScopedMore<T, M>(a: State<T, M>, b: State<T, M>, x: set<string>, y: set<string>)
    requires Scoped(a, b, x) && x <= y
    ensures Scoped(a, b, y)
  {}

  lemma {:induction false} ScopedBlock<T, M>(mc: Machine<T, M>, b: Stmt, st: State<T, M>, mem: M, fuel: nat)
    requires st.env != [] && Exec(mc, b, Enter(st.(mem := mem)), fuel).Done?
    ensures var o := Leave(Exec(mc, b, Enter(st.(mem := mem)), fuel));
            o.Done? && Scoped(st, o.st, {})
    decreases fuel, b, 3
  {
    ScopedExec(mc, b, Enter(st.(mem := mem)), fuel);
    ScopedLeave(st, mem, Exec(mc, b, Enter(st.(mem := mem)), fuel), Declared(b));
  }

  lemma {:induction false} ScopedNext<T, M>(mc: Machine<T, M>, s: Stmt, st: State<T, M>, mid: State<T, M>, fuel: nat)
    requires (s.Loop? || s.While?) && Scoped(st, mid, {}) && Exec(mc, s, mid, fuel).Done?
    ensures Scoped(st, Exec(mc, s, mid, fuel).st, {})
    decreases fuel, s, 3
  {
    ScopedExec(mc, s, mid, fuel);
    ScopedTwice(st, mid, Exec(mc, s, mid, fuel).st, {}, {});
  }

  lemma {:induction false} ScopedFor<T, M>(mc: Machine<T, M>, s: Stmt, st: State<T, M>, fuel: nat)
    requires s.For? && st.env != [] && ExecFor(mc, s, st, fuel).Done?
    ensures Scoped(st, ExecFor(mc, s, st, fuel).st, Declared(Plain(s.update)))
    decreases fuel, s, 1
  {
    hide Scoped, ExecSimple, DecideFor;
    var names := Declared(Plain(s.update));
    ScopedSelf(st);
    var d := DecideFor(mc, s.cond, st.env, st.mem);
    if d.holds {
      ScopedBlock(mc, s.body, st, d.mem, fuel - 1);
      var turn := Leave(Exec(mc, s.body, Enter(st.(mem := d.mem)), fuel - 1));
      ScopedMore(st, turn.st, {}, names);
      if turn.exit != Broke && !turn.exit.Returned? {
        ScopedNonempty(st, turn.st, {});
        var next := ExecSimple(mc, s.update, turn.st);
        ScopedSimple(mc, s.update, turn.st);
        ScopedNonempty(turn.st, next, names);
        ScopedFor(mc, s, next, fuel - 1);
        ScopedTwice(st, turn.st, next, {}, names);
        ScopedTwice(st, next, ExecFor(mc, s, next, fuel - 1).st, {} + names, names);
        assert {} + names + names == names;
      }
    }
  }

  // ---------- no `continue` ----------

  lemma MentionsPart(x: Text, y: Text, z: Text)
    requires MentionsContinue(y)
    ensures MentionsContinue(x + y + z)
  {
    var i :| 0 <= i < |y| && y[i].Word? && Contains(y[i].text, "continue");
    assert (x + y + z)[|x| + i] == y[i];
  }

  lemma MentionsInside(s: Stmt, b: Stmt, x: Text, z: Text)
    requires !MentionsContinue(Print(s)) && Print(s) == x + Print(b) + z
    ensures !MentionsContinue(Print(b))
  {
    if MentionsContinue(Print(b)) { MentionsPart(x, Print(b), z); }
  }

  lemma ContinueMentioned()
    ensures MentionsContinue(Print(Continue))
  {
    assert "continue"[0..] == "continue";
    assert Contains("continue", "continue");
    assert Print(Continue)[0] == Word("continue");
  }

  /** Parts of a program without `continue` have none. */
  lemma QuietParts(s: Stmt)
    requires !MentionsContinue(Print(s))
    ensures s.Seq? ==> !MentionsContinue(Print(s.first)) && !MentionsContinue(Print(s.second))
    ensures s.Block? || s.If? || s.IfElse? || s.Loop? || s.While? || s.For? ==> !MentionsContinue(Print(s.body))
    ensures s.IfElse? ==> !MentionsContinue(Print(s.other))
    ensures s != Continue
  {
    hide MentionsContinue, PrintExpr, PrintSimple, Header;
    ContinueMentioned();
    match s
    case Seq(a, b) =>
      assert [] + Print(a) + Print(b) == Print(s) == Print(a) + Print(b) + [];
      MentionsInside(s, a, [], Print(b)); MentionsInside(s, b, Print(a), []);
    case Block(b) => MentionsInside(s, b, HeadOf(s), [Punct('}')]);
    case If(_, b) => MentionsInside(s, b, HeadOf(s), [Punct('}')]);
    case Loop(b) => MentionsInside(s, b, HeadOf(s), [Punct('}')]);
    case While(_, b) => MentionsInside(s, b, HeadOf(s), [Punct('}')]);
    case For(_, _, _, _, _, b) => MentionsInside(s, b, ForHead(s), [Punct('}')]);
    case IfElse(c, a, b) =>
      var head: Text := [Word("if"), Punct('(')] + PrintExpr(c) + [Punct(')'), Punct('{')];
      var word: Text := [Punct('}'), Word("else"), Punct('{')];
      assert Print(s) == head + Print(a) + (word + Print(b) + [Punct('}')]);
      assert Print(s) == (head + Print(a) + word) + Print(b) + [Punct('}')];
      MentionsInside(s, a, head, word + Print(b) + [Punct('}')]);
      MentionsInside(s, b, head + Print(a) + word, [Punct('}')]);
    case _ =>
  }

  /** Text without `continue` never leaves a statement by continuing. */
  lemma {:induction false} NeverContinues<T, M>(mc: Machine<T, M>, s: Stmt, st: State<T, M>, fuel: nat)
    requires !MentionsContinue(Print(s)) && Exec(mc, s, st, fuel).Done?
    ensures Exec(mc, s, st, fuel).exit != Continued
    decreases fuel, s, 1
  {
    hide MentionsContinue, Print, ExecSimple, Eval, Decide;
    QuietParts(s);
    match s
    case Seq(a, b) =>
      NeverContinues(mc, a, st, fuel);
      var first := Exec(mc, a, st, fuel);
      if first.exit == Normal { NeverContinues(mc, b, first.st, fuel); }
    case Block(b) => NeverContinues(mc, b, Enter(st), fuel);
    case If(c, b) =>
      var d := Decide(mc, c, st.env, st.mem);
      if d.holds { NeverContinues(mc, b, Enter(st.(mem := d.mem)), fuel); }
    case IfElse(c, a, b) =>
      var d := Decide(mc, c, st.env, st.mem);
      NeverContinues(mc, if d.holds then a else b, Enter(st.(mem := d.mem)), fuel);
    case Loop(b) =>
      var turn := Leave(Exec(mc, b, Enter(st), fuel - 1));
      if turn.exit != Broke && !turn.exit.Returned? { NeverContinues(mc, s, turn.st, fuel - 1); }
    case While(c, b) =>
      var d := Decide(mc, c, st.env, st.mem);
      if d.holds {
        var turn := Leave(Exec(mc, b, Enter(st.(mem := d.mem)), fuel - 1));
        if turn.exit != Broke && !turn.exit.Returned? { NeverContinues(mc, s, turn.st, fuel - 1); }
      }
    case For(_, init, _, _, _, _) => LoopsAbsorb(mc, s, ExecSimple(mc, init, Enter(st)), fuel);
    case _ =>
  }

  lemma {:induction false} LoopsAbsorb<T, M>(mc: Machine<T, M>, s: Stmt, st: State<T, M>, fuel: nat)
    requires s.For? && ExecFor(mc, s, st, fuel).Done?
    ensures ExecFor(mc, s, st, fuel).exit != Continued
    decreases fuel
  {
    hide ExecSimple, DecideFor;
    var d := DecideFor(mc, s.cond, st.env, st.mem);
    if d.holds {
      var turn := Leave(Exec(mc, s.body, Enter(st.(mem := d.mem)), fuel - 1));
      if turn.exit != Broke && !turn.exit.Returned? {
        LoopsAbsorb(mc, s, ExecSimple(mc, s.update, turn.st), fuel - 1);
      }
    }
  }

  // ---------- the loop with its update at the bottom ----------

  ghost function Turn(s: Stmt): Stmt
    requires s.For?
  {
    Seq(Guard(s.cond), Seq(s.body, Plain(s.update)))
  }

  /** The guard decides like the loop's condition. */
  lemma GuardTest<T, M>(mc: Machine<T, M>, cond: Expr, st: State<T, M>, fuel: nat)
    ensures var d := Decide(mc, cond, st.env, st.mem);
            Exec(mc, Guard(cond), Enter(st), fuel) ==
            if d.Undecided? then Rejected else Done(if d.holds then Normal else Broke, Enter(st.(mem := d.mem)))
  {
    hide Decide;
    GuardDecides(mc, cond, Enter(st).env, st.mem);
    DecideUnder(mc, cond, map[], st.env, st.mem);
    var d := Decide(mc, cond, st.env, st.mem);
    if d.Decided? {
      var inner := Enter(Enter(st).(mem := d.mem));
      assert Exec(mc, Break, inner, fuel) == Done(Broke, inner);
      assert inner.env[1..] == Enter(st).env;
    }
  }

  lemma GuardDecides<T, M>(mc: Machine<T, M>, cond: Expr, env: seq<map<string, Value<T>>>, mem: M)
    ensures var d := Decide(mc, cond, env, mem);
            Decide(mc, Unary("!", Wrap("", '(', cond)), env, mem) ==
            if d.Undecided? then d else Decided(!d.holds, d.mem)
  {
    var paren := Wrap("", '(', cond);
    assert Eval(mc, paren, env, mem) == Eval(mc, cond, env, mem);
    assert Complete(paren) == Complete(cond) && Complete(Unary("!", paren)) == Complete(paren);
  }

  /** One turn: after the body the update runs in the body's scope and changes what it would
      have changed after that scope was closed. */
  lemma TurnAgrees<T, M>(mc: Machine<T, M>, s: Stmt, st: State<T, M>, fuel: nat)
    requires s.For? && st.env != [] && !s.update.Decl? && Declared(s.body) !! SimpleNames(s.update)
    requires !MentionsContinue(Print(s.body))
    ensures var d := Decide(mc, s.cond, st.env, st.mem);
            Leave(Exec(mc, Turn(s), Enter(st), fuel)) ==
              if d.Undecided? then Rejected
              else if !d.holds then Done(Broke, st.(mem := d.mem))
              else
                var turn := Leave(Exec(mc, s.body, Enter(st.(mem := d.mem)), fuel));
                if turn.Done? && turn.exit == Normal then Done(Normal, ExecSimple(mc, s.update, turn.st)) else turn
    ensures var d := Decide(mc, s.cond, st.env, st.mem);
            d.Decided? ==>
              var turn := Leave(Exec(mc, s.body, Enter(st.(mem := d.mem)), fuel));
              turn.Done? ==> turn.exit != Continued && turn.st.env != []
  {
    hide Decide, ExecSimple, MentionsContinue, Print, Guard, SimpleNames;
    GuardTest(mc, s.cond, st, fuel);
    var d := Decide(mc, s.cond, st.env, st.mem);
    if d.Decided? {
      var start := Enter(st.(mem := d.mem));
      assert start.env[1..] == st.env;
      var inside := Exec(mc, s.body, start, fuel);
      if inside.Done? {
        NeverContinues(mc, s.body, start, fuel);
        ScopedExec(mc, s.body, start, fuel);
        if inside.exit == Normal { UpdateInside(mc, s, start, fuel); }
      }
    }
  }

  /** The update in the scope of the body. */
  lemma UpdateInside<T, M>(mc: Machine<T, M>, s: Stmt, start: State<T, M>, fuel: nat)
    requires s.For? && start.env != [] && start.env[0] == map[] && !s.update.Decl? &&
             Declared(s.body) !! SimpleNames(s.update)
    requires var inside := Exec(mc, s.body, start, fuel);
             inside.Done? && inside.exit == Normal && Scoped(start, inside.st, Declared(s.body))
    ensures var inside := Exec(mc, s.body, start, fuel);
            Leave(Exec(mc, Seq(s.body, Plain(s.update)), start, fuel)) ==
            Done(Normal, ExecSimple(mc, s.update, inside.st.(env := inside.st.env[1..])))
  {
    hide ExecSimple, SimpleNames;
    var inside := Exec(mc, s.body, start, fuel).st;
    var below := inside.(env := inside.env[1..]);
    assert inside == below.(env := [inside.env[0]] + below.env);
    UpdateUnder(mc, s.update, inside.env[0], below);
    var r := ExecSimple(mc, s.update, below);
    assert ([inside.env[0]] + r.env)[1..] == r.env;
    assert Exec(mc, Seq(s.body, Plain(s.update)), start, fuel) == Done(Normal, r.(env := [inside.env[0]] + r.env));
  }

  lemma {:induction false} TurnsAgree<T, M>(mc: Machine<T, M>, s: Stmt, st: State<T, M>, fuel: nat)
    requires s.For? && s.cond != Unit && st.env != [] && !s.update.Decl? && Declared(s.body) !! SimpleNames(s.update)
    requires !MentionsContinue(Print(s.body))
    ensures ExecFor(mc, s, st, fuel) == Exec(mc, Loop(Turn(s)), st, fuel)
    decreases fuel
  {
    hide Decide, ExecSimple, MentionsContinue, Print, SimpleNames, Turn;
    if fuel > 0 {
      TurnAgrees(mc, s, st, fuel - 1);
      var d := Decide(mc, s.cond, st.env, st.mem);
      if d.Decided? && d.holds {
        var turn := Leave(Exec(mc, s.body, Enter(st.(mem := d.mem)), fuel - 1));
        if turn.Done? && turn.exit == Normal {
          ScopedSimple(mc, s.update, turn.st);
          TurnsAgree(mc, s, ExecSimple(mc, s.update, turn.st), fuel - 1);
        }
      }
    }
  }

  lemma BottomAgrees<T, M>(mc: Machine<T, M>, s: Stmt, st: State<T, M>, fuel: nat)
    requires s.For? && s.cond != Unit && !s.update.Decl? && Declared(s.body) !! SimpleNames(s.update)
    requires !MentionsContinue(Print(s.body))
    ensures Exec(mc, Bottom(s.init, s.cond, s.update, s.body), st, fuel) == Exec(mc, s, st, fuel)
  {
    hide Eval, ExecSimple, MentionsContinue, Print, SimpleNames;
    var start := ExecSimple(mc, s.init, Enter(st));
    ScopedSimple(mc, s.init, Enter(st));
    TurnsAgree(mc, s, start, fuel);
    assert Exec(mc, Plain(s.init), Enter(st), fuel) == Done(Normal, start);
    assert Exec(mc, Seq(Plain(s.init), Loop(Turn(s))), Enter(st), fuel) == ExecFor(mc, s, start, fuel);
  }

  // ---------- the whole program ----------

  lemma {:induction false} DeclaredKept(s: Stmt)
    ensures Declared(Canon(s)) == Declared(s)
  {
    match s
    case Seq(a, b) => DeclaredKept(a); DeclaredKept(b);
    case _ =>
  }

  /** The rewrite keeps the meaning: same exit, same final state, and no result for a given fuel
      exactly when the original has none. */
  lemma {:induction false} MeaningKept<T, M>(mc: Machine<T, M>, s: Stmt, st: State<T, M>, fuel: nat)
    requires Regular(s)
    ensures Exec(mc, Canon(s), st, fuel) == Exec(mc, s, st, fuel)
    decreases fuel, s, 2
  {
    hide Decide, ExecSimple, MentionsContinue, Print, SimpleNames, Declared, Bottom, ExecFor;
    match s
    case Seq(a, b) =>
      MeaningKept(mc, a, st, fuel);
      var first := Exec(mc, a, st, fuel);
      if first.Done? && first.exit == Normal { MeaningKept(mc, b, first.st, fuel); }
    case Block(b) => MeaningKept(mc, b, Enter(st), fuel);
    case If(c, b) =>
      var d := Decide(mc, c, st.env, st.mem);
      if d.Decided? { MeaningKept(mc, b, Enter(st.(mem := d.mem)), fuel); }
    case IfElse(c, a, b) =>
      var d := Decide(mc, c, st.env, st.mem);
      if d.Decided? { MeaningKept(mc, if d.holds then a else b, Enter(st.(mem := d.mem)), fuel); }
    case Loop(b) =>
      if fuel > 0 {
        MeaningKept(mc, b, Enter(st), fuel - 1);
        var turn := Leave(Exec(mc, b, Enter(st), fuel - 1));
        if turn.Done? { MeaningKept(mc, s, turn.st, fuel - 1); }
      }
    case While(c, b) =>
      if fuel > 0 {
        var d := Decide(mc, c, st.env, st.mem);
        if d.Decided? {
          MeaningKept(mc, b, Enter(st.(mem := d.mem)), fuel - 1);
          var turn := Leave(Exec(mc, b, Enter(st.(mem := d.mem)), fuel - 1));
          if turn.Done? { MeaningKept(mc, s, turn.st, fuel - 1); }
        }
      }
    case For(_, _, _, _, _, _) => LoopKept(mc, s, st, fuel);
    case _ =>
  }

  lemma {:induction false} LoopKept<T, M>(mc: Machine<T, M>, s: Stmt, st: State<T, M>, fuel: nat)
    requires s.For? && Regular(s)
    ensures Exec(mc, Canon(s), st, fuel) == Exec(mc, s, st, fuel)
    decreases fuel, s, 1
  {
    hide Decide, ExecSimple, MentionsContinue, Print, SimpleNames, Declared, Bottom, ExecFor;
    var inner := WithBody(s, Canon(s.body));
    MeaningKeptFor(mc, s, ExecSimple(mc, s.init, Enter(st)), fuel);
    assert Exec(mc, inner, st, fuel) == Exec(mc, s, st, fuel);
    if !MentionsContinue(Print(Canon(s.body))) {
      DeclaredKept(s.body);
      BottomAgrees(mc, inner, st, fuel);
    }
  }

  lemma {:induction false} MeaningKeptFor<T, M>(mc: Machine<T, M>, s: Stmt, st: State<T, M>, fuel: nat)
    requires s.For? && Regular(s.body)
    ensures ExecFor(mc, WithBody(s, Canon(s.body)), st, fuel) == ExecFor(mc, s, st, fuel)
    decreases fuel, s, 0
  {
    hide DecideFor, ExecSimple, Canon;
    if fuel > 0 {
      var d := DecideFor(mc, s.cond, st.env, st.mem);
      if d.Decided? {
        MeaningKept(mc, s.body, Enter(st.(mem := d.mem)), fuel - 1);
        var turn := Leave(Exec(mc, s.body, Enter(st.(mem := d.mem)), fuel - 1));
        if turn.Done? { MeaningKeptFor(mc, s, ExecSimple(mc, s.update, turn.st), fuel - 1); }
      }
    }
  }
}
