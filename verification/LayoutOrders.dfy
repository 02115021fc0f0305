/** The layout pass with its four substitutions in any order: which orders are refinements. */
module LayoutOrders {
  import opened Outcomes
  import opened LayoutPass
  import opened LayoutText
  import opened LayoutSteps
  import opened LayoutRefinement
  import opened LayoutScript

  /** Each substitution once. */
  predicate IsOrder(order: seq<Step>) {
    |order| == 4 && Distinct(order)
  }

  predicate Before(order: seq<Step>, a: Step, b: Step) {
    exists i, j | 0 <= i < j < |order| :: order[i] == a && order[j] == b
  }

  /** The condition: `.yz` before components, components and whole stores before whole loads. */
  predicate InOrder(order: seq<Step>) {
    Before(order, Pairs, Parts) && Before(order, Parts, Loads) && Before(order, Wholes, Loads)
  }

  /** Every source program and its rewriting end alike in corresponding states, fail together or run for
      ever together. */
  ghost predicate Refines<S(!new)>(mc: Machine<S>, order: seq<Step>) {
    forall s: Stmt, st: State<S>, fuel: nat | Source(s) && st.shared.Whole? :: Refined(mc, s, Pass(order, s), st, fuel)
  }

  // ---------- orders that keep the meaning ----------

  predicate MovableSimple(a: Simple) {
    a.Assign? && a.to.Elem? ==> Flat(a.to.index)
  }

  /** Whole elements are stored at flat indexes. */
  predicate Movable(s: Stmt) {
    match s
    case Plain(a) => MovableSimple(a)
    case Seq(a, b) => Movable(a) && Movable(b)
    case If(_, _, a) => Movable(a)
    case IfElse(_, _, a, _, b) => Movable(a) && Movable(b)
    case Loop(_, a) => Movable(a)
    case While(_, _, a) => Movable(a)
    case For(init, _, update, a) => MovableSimple(init) && MovableSimple(update) && Movable(a)
    case _ => true
  }

  lemma {:induction false} GoodMoves(s: Stmt)
    requires Good(s)
    ensures Movable(s)
  {
    hide GoodE, Operator, Word, Flat, Blank;
    match s
    case Plain(a) => SimpleMoves(a);
    case Seq(a, b) => GoodMoves(a); GoodMoves(b);
    case If(_, _, a) => GoodMoves(a);
    case IfElse(_, _, a, _, b) => GoodMoves(a); GoodMoves(b);
    case Loop(_, a) => GoodMoves(a);
    case While(_, _, a) => GoodMoves(a);
    case For(init, _, update, a) => SimpleMoves(init); SimpleMoves(update); GoodMoves(a);
    case _ =>
  }

  lemma SimpleMoves(a: Simple)
    requires GoodSimple(a)
    ensures MovableSimple(a)
  {
    hide Flat;
    if a.Assign? && a.to.Elem? { assert GoodE(a.to); }
  }

  lemma SimpleSwaps(step: Step, a: Simple)
    requires MovableSimple(a) && step in {Pairs, Parts}
    ensures TakeSimple(Wholes, TakeSimple(step, a)) == TakeSimple(step, TakeSimple(Wholes, a))
  {
    hide Flat;
    match a
    case Assign(to, op, e) => if to.Elem? { FlatTaken(step, to.index); }
    case _ =>
  }

  /** Whole stores may be substituted before or after fields. */
  lemma {:induction false} StoresSwap(step: Step, s: Stmt)
    requires Movable(s) && step in {Pairs, Parts}
    ensures Take(Wholes, Take(step, s)) == Take(step, Take(Wholes, s))
  {
    hide TakeSimple, MovableSimple, YzE, PartE;
    match s
    case Plain(a) => SimpleSwaps(step, a);
    case Seq(a, b) => StoresSwap(step, a); StoresSwap(step, b);
    case If(_, _, a) => StoresSwap(step, a);
    case IfElse(_, _, a, _, b) => StoresSwap(step, a); StoresSwap(step, b);
    case Loop(_, a) => StoresSwap(step, a);
    case While(_, _, a) => StoresSwap(step, a);
    case For(init, _, update, a) => SimpleSwaps(step, init); SimpleSwaps(step, update); StoresSwap(step, a);
    case _ =>
  }

  /** Every order that meets the condition makes the same program. */
  lemma SamePass(order: seq<Step>, s: Stmt)
    requires IsOrder(order) && InOrder(order) && Good(s)
    ensures Pass(order, s) == Soa(s)
  {
    hide Take, Good, Movable, IsOrder, InOrder, Pass;
    GoodMoves(s);
    StoresSwap(Pairs, s);
    TakenGood(Pairs, s);
    GoodMoves(Take(Pairs, s));
    StoresSwap(Parts, Take(Pairs, s));
    Orders(order);
    PassFour(order, s);
  }

  lemma Orders(order: seq<Step>)
    requires IsOrder(order) && InOrder(order)
    ensures |order| == 4 && order[3] == Loads
    ensures || (order[0] == Wholes && order[1] == Pairs && order[2] == Parts)
            || (order[0] == Pairs && order[1] == Wholes && order[2] == Parts)
            || (order[0] == Pairs && order[1] == Parts && order[2] == Wholes)
  {}

  lemma PassFour(order: seq<Step>, s: Stmt)
    requires |order| == 4
    ensures Pass(order, s) == Take(order[3], Take(order[2], Take(order[1], Take(order[0], s))))
  {
    hide Take;
    var a, b, c := order[1..], order[1..][1..], order[1..][1..][1..];
    assert c[1..] == [];
    var s1 := Take(order[0], s);
    var s2 := Take(order[1], s1);
    var s3 := Take(order[2], s2);
    assert Pass(c, s3) == Take(order[3], s3);
    assert Pass(b, s2) == Pass(c, s3);
  }

  /** So the regular expressions write the same text in all these orders. */
  lemma SameText(order: seq<Step>, f: File)
    requires IsOrder(order) && InOrder(order) && SourceFile(f)
    ensures SubAll(order, PrintFile(f)) == PrintFile(SoaFile(f))
  {
    hide SubAll, PrintFile, InOrder, FileClear, GoodFile, Good, NamesClearIn, SignsClearIn, SourceStmt, Pass, Soa;
    AllClear(f);
    assert GoodFile(f);
    ScriptOnFile(order, f);
    PassBodies(order, f);
    forall i | 0 <= i < |f.functions| ensures Pass(order, f.functions[i].body) == Soa(f.functions[i].body) {
      SamePass(order, f.functions[i].body);
    }
    assert PassFile(order, f) == SoaFile(f);
  }

  lemma {:induction false} PassBodies(order: seq<Step>, f: File)
    ensures var g := PassFile(order, f);
            && g.tail == f.tail && |g.functions| == |f.functions|
            && forall i | 0 <= i < |f.functions| ::
                 g.functions[i] == Function(f.functions[i].head, Pass(order, f.functions[i].body))
  {
    hide Take;
    if order != [] {
      PassBodies(order[1..], TakeFile(order[0], f));
    }
  }

  // ---------- orders that do not ----------

  /** A program no substitution changes. */
  predicate Settled(s: Stmt) {
    forall step :: Take(step, s) == s
  }

  /** What stands before `step` does not change the program, and the step settles it. */
  lemma {:induction false} SettledBy(order: seq<Step>, k: nat, s: Stmt)
    requires k < |order| && forall i | 0 <= i < k :: Take(order[i], s) == s
    requires Settled(Take(order[k], s))
    ensures Pass(order, s) == Take(order[k], s)
    decreases k
  {
    hide Take;
    if k == 0 {
      PassSettled(order[1..], Take(order[0], s));
    } else {
      assert order[1..][k - 1] == order[k];
      forall i | 0 <= i < k - 1 ensures Take(order[1..][i], s) == s {
        assert order[1..][i] == order[i + 1];
      }
      SettledBy(order[1..], k - 1, s);
    }
  }

  lemma {:induction false} PassSettled(order: seq<Step>, s: Stmt)
    requires Settled(s)
    ensures Pass(order, s) == s
  {
    hide Take;
    if order != [] {
      assert Take(order[0], s) == s;
      PassSettled(order[1..], s);
    }
  }

  function Copy(to: Expr, e: Expr): Stmt { Plain(Assign(to, "=", e)) }

  /** `t=j[c].yz;`, `j[c].x=j[c].x;` and `j[c]=j[c];` */
  function ReadPair(i: Expr): Stmt { Copy(Local("t"), Member(Elem(i), "yz")) }
  function CopyPart(i: Expr): Stmt { Copy(Member(Elem(i), "x"), Member(Elem(i), "x")) }
  function CopyWhole(i: Expr): Stmt { Copy(Elem(i), Elem(i)) }

  /** Components first cut the read of two components in half. */
  lemma PartsCut(i: Expr)
    ensures Take(Wholes, ReadPair(i)) == ReadPair(i)
    ensures Take(Parts, ReadPair(i)) == Copy(Local("t"), Garbled(Part('y', i), "z"))
    ensures Settled(Take(Parts, ReadPair(i)))
  {}

  /** Loads before components leave a component of a call as the target. */
  lemma LoadsTakeParts(i: Expr)
    ensures Take(Wholes, CopyPart(i)) == CopyPart(i) && Take(Pairs, CopyPart(i)) == CopyPart(i)
    ensures Take(Loads, CopyPart(i)) == Copy(Member(Load(i), "x"), Member(Load(i), "x"))
    ensures Settled(Take(Loads, CopyPart(i)))
  {
    assert LoadE(Elem(i)) == Load(i) && LoadE(Load(i)) == Load(i) && YzE(Load(i)) == Load(i) &&
           PartE(Load(i)) == Load(i);
  }

  /** Loads before whole stores leave a call as the target. */
  lemma LoadsTakeWholes(i: Expr)
    ensures Take(Pairs, CopyWhole(i)) == CopyWhole(i) && Take(Parts, CopyWhole(i)) == CopyWhole(i)
    ensures Take(Loads, CopyWhole(i)) == Copy(Load(i), Load(i))
    ensures Settled(Take(Loads, CopyWhole(i)))
  {}

  /** What one of the three programs becomes in a wrong order. */
  function Wrongs(i: Expr): set<Stmt> {
    {Copy(Local("t"), Garbled(Part('y', i), "z")), Copy(Member(Load(i), "x"), Member(Load(i), "x")),
     Copy(Load(i), Load(i))}
  }

  /** In every other order one of the three programs becomes one that always fails. */
  lemma SomeFails(order: seq<Step>, i: Expr) returns (s: Stmt)
    requires IsOrder(order) && !InOrder(order) && Flat(i)
    ensures s in {ReadPair(i), CopyPart(i), CopyWhole(i)}
    ensures Pass(order, s) in Wrongs(i)
  {
    hide Take, Settled, Pass, InOrder;
    PartsCut(i);
    LoadsTakeParts(i);
    LoadsTakeWholes(i);
    var p, l, y, w := Places(order);
    if l < p {
      s := CopyPart(i);
      SettledBy(order, l, s);
    } else if p < y {
      s := ReadPair(i);
      SettledBy(order, p, s);
    } else {
      s := CopyWhole(i);
      SettledBy(order, l, s);
    }
  }

  lemma Places(order: seq<Step>) returns (p: nat, l: nat, y: nat, w: nat)
    requires IsOrder(order)
    ensures p < 4 && l < 4 && y < 4 && w < 4 && p != l && p != y && p != w && l != y && l != w && y != w
    ensures order[p] == Parts && order[l] == Loads && order[y] == Pairs && order[w] == Wholes
    ensures InOrder(order) <==> y < p < l && w < l
  {
    p := if order[0] == Parts then 0 else if order[1] == Parts then 1 else if order[2] == Parts then 2 else 3;
    l := if order[0] == Loads then 0 else if order[1] == Loads then 1 else if order[2] == Loads then 2 else 3;
    y := if order[0] == Pairs then 0 else if order[1] == Pairs then 1 else if order[2] == Pairs then 2 else 3;
    w := if order[0] == Wholes then 0 else if order[1] == Wholes then 1 else if order[2] == Wholes then 2 else 3;
  }

  /** An array long enough for index `n`. */
  function Filled<S>(n: nat, some: S): State<S> {
    State(map[], map[], Whole(seq(n + 1, i => Vec4(some, some, some, some))))
  }

  lemma AlwaysFails<S>(mc: Machine<S>, i: Expr, s: Stmt, st: State<S>)
    requires s in Wrongs(i)
    ensures Exec(mc, s, st, 0) == Failed
  {}

  lemma Ends<S>(mc: Machine<S>, w: string, s: Stmt, some: S)
    requires mc.index(mc.constant(w)) >= 0 && Literal(w) && Piece(w)
    requires s in {ReadPair(Const(w)), CopyPart(Const(w)), CopyWhole(Const(w))}
    ensures Source(s) && Exec(mc, s, Filled(mc.index(mc.constant(w)), some), 0).Done?
  {
    hide Literal, Piece, Source;
    var i, st := Const(w), Filled(mc.index(mc.constant(w)), some);
    var v := Vec4(some, some, some, some);
    ThreeSources(w);
    assert Eval(mc, Elem(i), st) == Some(Four(v));
    if s == ReadPair(i) {
      assert Eval(mc, Member(Elem(i), "yz"), st) == Some(Two(some, some));
    } else if s == CopyPart(i) {
      assert Eval(mc, Member(Elem(i), "x"), st) == Some(One(some));
      assert Put(mc, Member(Elem(i), "x"), One(some), st).Some?;
    }
  }

  lemma ThreeSources(w: string)
    requires Literal(w) && Piece(w)
    ensures Source(ReadPair(Const(w))) && Source(CopyPart(Const(w))) && Source(CopyWhole(Const(w)))
  {
    hide Literal, Piece, GoodE, OriginalE, FieldsKept, NamesClear, SignsClear, Bare, AssignSign;
    Element(w);
    Equals();
  }

  lemma Equals()
    ensures Operator("=") && Bare("=") == "=" && AssignSign("=")
  {
    assert Bare("=") == "=" + Bare("");
  }

  /** `j[c]` and its fields. */
  lemma Element(w: string)
    requires Literal(w) && Piece(w)
    ensures forall e | e in {Elem(Const(w)), Member(Elem(Const(w)), "yz"), Member(Elem(Const(w)), "x"), Local("t")} ::
              GoodE(e) && OriginalE(e) && FieldsKept(e) && NamesClear(e) && SignsClear(e)
  {
    hide Literal, Piece;
    assert GoodE(Const(w)) && OriginalE(Const(w)) && FieldsKept(Const(w)) && Flat(Const(w));
    var e := Elem(Const(w));
    assert GoodE(e) && OriginalE(e) && FieldsKept(e) && NamesClear(e) && SignsClear(e);
  }

  /** On every machine with an index inside some array, the pass refines all source programs if and
      only if its order meets the condition. */
  lemma OrderMatters<S(!new)>(mc: Machine<S>, order: seq<Step>, w: string, some: S)
    requires IsOrder(order) && mc.index(mc.constant(w)) >= 0 && Literal(w) && Piece(w)
    ensures Refines(mc, order) <==> InOrder(order)
  {
    hide Exec, Pass, Soa, Good, SourceStmt, NamesClearIn, SignsClearIn, Settled, InOrder, IsOrder, Literal, Piece,
         Wrongs;
    if InOrder(order) {
      forall s: Stmt, st: State<S>, fuel: nat | Source(s) && st.shared.Whole?
        ensures Refined(mc, s, Pass(order, s), st, fuel)
      {
        SamePass(order, s);
        LayoutRefines(mc, s, st, fuel);
      }
    } else {
      var s := SomeFails(order, Const(w)) by { assert Flat(Const(w)); }
      var st := Filled(mc.index(mc.constant(w)), some);
      Ends(mc, w, s, some);
      AlwaysFails(mc, Const(w), Pass(order, s), Parted(st));
      assert !Refined(mc, s, Pass(order, s), st, 0);
    }
  }
}
