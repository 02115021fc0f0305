/** What the layout pass does to a program's meaning: with the vector array in four parts the rewritten
    program does what the program did. */
module LayoutRefinement {
  import opened Outcomes
  import opened LayoutPass
  import opened LayoutText

  // ---------- the domain ----------

  /** Names that the script adds, and the array itself. */
  const ADDED := {"j", "jx", "jy", "jz", "jw", "load_j", "store_j"}

  /** Names that the new text relies on. */
  const RELIED := ADDED + {"vec2", "f32"}

  /** A number or a truth value. */
  predicate Literal(w: string) {
    w in {"true", "false"}
    || (w != "" && ('0' <= w[0] <= '9' || w[0] == '.') && forall i | 0 <= i < |w| :: WordChar(w[i]) || w[i] == '.')
  }

  /** A function or a type, with or without arguments of the type. */
  predicate Callee(f: string) {
    && f != "" && WordChar(f[0]) && f !in ADDED && (Letters(f) || f[|f| - 1] == '>')
    && forall i | 0 <= i < |f| :: WordChar(f[i]) || f[i] in {'<', '>', ','}
  }

  predicate UnarySign(op: string) { Bare(op) in {"-", "!", "~", "*", "&"} }

  /** The comma stands between arguments. */
  predicate BinarySign(op: string) {
    Bare(op) in {"+", "-", "*", "/", "%", "&", "|", "^", "&&", "||", "<<", ">>", "<", ">", "<=", ">=", "==", "!=", ","}
  }

  predicate AssignSign(op: string) {
    Bare(op) in {"=", "+=", "-=", "*=", "/=", "%=", "&=", "|=", "^=", "<<=", ">>=", "++", "--"}
  }

  /** `.yz`, one component, or letters that the patterns do not look for. */
  predicate FieldKept(f: string) {
    |f| <= 1 || f == "yz" || f[0] !in COMPONENTS
  }

  /** A place that stays one: no whole element, and no field of one but a single component. */
  predicate PlaceKept(e: Expr) {
    match e
    case Elem(_) => false
    case Paren(a) => PlaceKept(a)
    case Member(a, f) => if a.Elem? then |f| == 1 && f[0] in COMPONENTS else PlaceKept(a)
    case _ => true
  }

  /** Expressions of the unchanged shader: `j` is read at flat indexes. */
  predicate OriginalE(e: Expr) {
    match e
    case Empty => true
    case Const(w) => Literal(w)
    case Local(x) => x !in ADDED
    case Infix(l, op, r) =>
      OriginalE(l) && OriginalE(r) && OriginalSign(l, op) && (Addresses(l, op) ==> IsPlace(r))
    case Paren(a) => OriginalE(a)
    case Call(f, a) => Callee(f) && OriginalE(a)
    case Read(n, i) => n !in ADDED && OriginalE(i)
    case Elem(i) => Flat(i) && OriginalE(i)
    case Member(a, _) => OriginalE(a)
    case _ => false
  }

  predicate OriginalSign(l: Expr, op: string) {
    if l == Empty then UnarySign(op) else BinarySign(op)
  }

  /** Fields of whole elements are kept, and no address of one is taken. */
  predicate FieldsKept(e: Expr) {
    match e
    case Infix(l, op, r) => FieldsKept(l) && FieldsKept(r) && (Addresses(l, op) ==> PlaceKept(r))
    case Paren(a) => FieldsKept(a)
    case Call(_, a) => FieldsKept(a)
    case Read(_, i) => FieldsKept(i)
    case Elem(i) => FieldsKept(i)
    case Member(a, f) => FieldsKept(a) && (a.Elem? ==> FieldKept(f))
    case _ => true
  }

  predicate SourceE(e: Expr) { OriginalE(e) && FieldsKept(e) }

  /** Source targets: locals, elements of arrays, and their fields; of `j` whole elements and single components. */
  predicate SourceTo(to: Expr) {
    match to
    case Member(a, f) =>
      SourceE(to) && (a.Local? || a.Read? || (a.Elem? && |f| == 1 && f[0] in COMPONENTS))
    case _ => SourceE(to) && (to.Local? || to.Read? || to.Elem?)
  }

  /** A whole element is only stored by `=`, with no space in front. */
  predicate SourceSimple(a: Simple) {
    match a
    case Nothing => true
    case Declare(_, x, op, e) => x !in RELIED && Bare(op) == "=" && SourceE(e)
    case Assign(to, op, e) =>
      SourceTo(to) && AssignSign(op) && SourceE(e) && (to.Elem? ==> op != "" && op[0] == '=' && Bare(op) == "=")
    case Store(_, _, _) => false
    case Do(e) => e.Call? && SourceE(e)
  }

  predicate SourceStmt(s: Stmt) {
    match s
    case Plain(a) => SourceSimple(a)
    case Return(_, e) => SourceE(e)
    case Seq(a, b) => SourceStmt(a) && SourceStmt(b)
    case If(_, c, a) => SourceE(c) && SourceStmt(a)
    case IfElse(_, c, a, _, b) => SourceE(c) && SourceStmt(a) && SourceStmt(b)
    case Loop(_, a) => SourceStmt(a)
    case While(_, c, a) => SourceE(c) && SourceStmt(a)
    case For(init, c, update, a) => SourceSimple(init) && SourceE(c) && SourceSimple(update) && SourceStmt(a)
    case _ => true
  }

  /** Programs of that language whose text no pattern misreads. */
  predicate Source(s: Stmt) {
    Good(s) && SourceStmt(s) && NamesClearIn(s) && SignsClearIn(s)
  }

  // ---------- corresponding states ----------

  ghost function Components<S>(j: seq<Vec4<S>>): (sh: Shared<S>)
    ensures sh.Split?
  {
    Split(seq(|j|, i requires 0 <= i < |j| => j[i].x), seq(|j|, i requires 0 <= i < |j| => j[i].y),
          seq(|j|, i requires 0 <= i < |j| => j[i].z), seq(|j|, i requires 0 <= i < |j| => j[i].w))
  }

  /** The same state with the shared array in four parts. */
  ghost function Parted<S>(st: State<S>): State<S>
    requires st.shared.Whole?
  {
    st.(shared := Components(st.shared.j))
  }

  ghost function PartedOutcome<S>(o: Outcome<S>): Outcome<S>
    requires o.Done? ==> o.st.shared.Whole?
  {
    if o.Done? then Done(o.exit, Parted(o.st)) else o
  }

  ghost predicate Corresponds<S>(o: Outcome<S>, o': Outcome<S>) {
    (o.Done? ==> o.st.shared.Whole?) && o' == PartedOutcome(o)
  }

  // ---------- expressions ----------

  lemma {:induction false} FlatEval<S>(mc: Machine<S>, e: Expr, st: State<S>, sh: Shared<S>)
    requires Flat(e)
    ensures Eval(mc, e, st.(shared := sh)) == Eval(mc, e, st)
  {
    match e
    case Infix(l, _, r) =>
      if l != Empty { FlatEval(mc, l, st, sh); }
      FlatEval(mc, r, st, sh);
    case Paren(a) => FlatEval(mc, a, st, sh);
    case Call(_, a) => if a != Empty { FlatEval(mc, a, st, sh); }
    case Member(a, _) => FlatEval(mc, a, st, sh);
    case _ =>
  }

  /** A rewritten expression has the same value on the four arrays. */
  lemma {:induction false} SameValue<S>(mc: Machine<S>, e: Expr, st: State<S>)
    requires SourceE(e) && st.shared.Whole?
    ensures Eval(mc, SoaE(e), Parted(st)) == Eval(mc, e, st)
  {
    hide Components, LoadAt, PartAt, Select, Literal, Callee, OriginalSign, FieldKept, Flat, IsPlace, PlaceKept,
         Addresses;
    match e
    case Infix(l, op, r) =>
      SameValue(mc, l, st);
      SameValue(mc, r, st);
      EmptyStays(l);
      SameAddress(l, SoaE(l), op);
      if Addresses(l, op) { PlaceStays(r); }
    case Paren(a) => SameValue(mc, a, st);
    case Call(_, a) => SameValue(mc, a, st);
    case Read(_, i) => SameValue(mc, i, st);
    case Elem(i) =>
      FlatEval(mc, i, st, Components(st.shared.j));
      SameElem(mc, i, st);
    case Member(a, f) =>
      assert OriginalE(a) && FieldsKept(a);
      if a.Elem? {
        FlatEval(mc, a.index, st, Components(st.shared.j));
        SameMember(mc, a.index, f, st);
      } else {
        SoaMember(a, f);
        SameValue(mc, a, st);
      }
    case _ =>
  }

  lemma SameAddress(l: Expr, l': Expr, op: string)
    requires l == Empty <==> l' == Empty
    ensures Addresses(l, op) <==> Addresses(l', op)
  {}

  /** A place is one afterwards exactly when it is kept. */
  lemma {:induction false} PlaceStays(e: Expr)
    requires OriginalE(e)
    ensures IsPlace(SoaE(e)) <==> IsPlace(e) && PlaceKept(e)
  {
    hide Literal, Callee, OriginalSign, Addresses, Flat;
    match e
    case Paren(a) => PlaceStays(a);
    case Member(a, f) =>
      if a.Elem? {
        FieldPlace(a.index, f);
      } else {
        SoaMember(a, f);
        PlaceStays(a);
      }
    case _ =>
  }

  lemma FieldPlace(i: Expr, f: string)
    ensures IsPlace(SoaE(Member(Elem(i), f))) <==> |f| == 1 && f[0] in COMPONENTS
  {
    if |f| == 1 && f[0] in COMPONENTS { SoaComponent(i, f); } else { MisplacedField(i, f); }
  }

  lemma SoaMember(a: Expr, f: string)
    requires !a.Elem?
    ensures SoaE(Member(a, f)) == Member(SoaE(a), f)
  {
    assert !YzE(a).Elem? && YzE(Member(a, f)) == Member(YzE(a), f);
    assert PartE(Member(YzE(a), f)) == Member(PartE(YzE(a)), f);
  }

  lemma SameElem<S>(mc: Machine<S>, i: Expr, st: State<S>)
    requires st.shared.Whole? && Eval(mc, i, Parted(st)) == Eval(mc, i, st)
    ensures Eval(mc, SoaE(Elem(i)), Parted(st)) == Eval(mc, Elem(i), st)
  {
    assert SoaE(Elem(i)) == Load(i);
  }

  lemma SameMember<S>(mc: Machine<S>, i: Expr, f: string, st: State<S>)
    requires st.shared.Whole? && FieldKept(f)
    requires Eval(mc, i, Parted(st)) == Eval(mc, i, st)
    ensures Eval(mc, SoaE(Member(Elem(i), f)), Parted(st)) == Eval(mc, Member(Elem(i), f), st)
  {
    hide SoaE, YzE, PartE, LoadE;
    if f == "yz" {
      SoaYz(i);
    } else if |f| == 1 && f[0] in COMPONENTS {
      SoaComponent(i, f);
    } else {
      SoaOther(i, f);
      SameElem(mc, i, st);
    }
  }

  lemma SoaYz(i: Expr)
    ensures SoaE(Member(Elem(i), "yz")) == Pair(Part('y', i), Part('z', i))
  {
    var pair := Pair(Part('y', i), Part('z', i));
    assert LoadE(PartE(pair)) == pair;
  }

  lemma SoaComponent(i: Expr, f: string)
    requires |f| == 1 && f[0] in COMPONENTS
    ensures SoaE(Member(Elem(i), f)) == Part(f[0], i)
  {
    assert YzE(Member(Elem(i), f)) == Member(Elem(i), f);
    assert PartE(Member(Elem(i), f)) == Part(f[0], i);
  }

  lemma SoaOther(i: Expr, f: string)
    requires f == "" || f[0] !in COMPONENTS
    ensures SoaE(Member(Elem(i), f)) == Member(Load(i), f) && SoaE(Elem(i)) == Load(i)
  {
    assert YzE(Member(Elem(i), f)) == Member(Elem(i), f) && PartE(Member(Elem(i), f)) == Member(Elem(i), f);
    assert LoadE(Elem(i)) == Load(i);
  }

  // ---------- assignments ----------

  ghost predicate SamePlace<S>(r: Option<State<S>>, r': Option<State<S>>) {
    && (r.Some? ==> r.value.shared.Whole?)
    && r' == if r.Some? then Some(Parted(r.value)) else None
  }

  /** A place in the source and its rewriting change corresponding states alike. */
  lemma SamePut<S>(mc: Machine<S>, to: Expr, v: Value<S>, st: State<S>)
    requires SourceTo(to) && !to.Elem? && st.shared.Whole?
    ensures SamePlace(Put(mc, to, v, st), Put(mc, SoaE(to), v, Parted(st)))
  {
    hide Components, Literal, Flat;
    match to
    case Local(_) =>
    case Read(_, i) => SameValue(mc, i, st);
    case Member(a, f) =>
      assert OriginalE(a) && FieldsKept(a);
      if a.Elem? {
        FlatEval(mc, a.index, st, Components(st.shared.j));
        SamePart(mc, a.index, f, v, st);
      } else {
        SoaMember(a, f);
        if a.Read? { SameValue(mc, a.index, st); }
      }
  }

  lemma SamePart<S>(mc: Machine<S>, i: Expr, f: string, v: Value<S>, st: State<S>)
    requires |f| == 1 && f[0] in COMPONENTS && st.shared.Whole?
    requires Eval(mc, i, Parted(st)) == Eval(mc, i, st)
    ensures SamePlace(Put(mc, Member(Elem(i), f), v, st), Put(mc, SoaE(Member(Elem(i), f)), v, Parted(st)))
  {
    assert SoaE(Member(Elem(i), f)) == Part(f[0], i) by { SoaComponent(i, f); }
    var at := Eval(mc, i, st);
    if at.Some? && v.One? && 0 <= mc.index(at.value) < |st.shared.j| {
      ChangedPart(st.shared.j, f[0], mc.index(at.value), v.s);
    }
  }

  lemma ChangedPart<S>(j: seq<Vec4<S>>, c: char, n: nat, s: S)
    requires c in COMPONENTS && n < |j|
    ensures SetPart(Components(j), c, n, s) == Components(j[n := Change(j[n], c, s)])
  {
    var sh, now := SetPart(Components(j), c, n, s), Components(j[n := Change(j[n], c, s)]);
    assert sh.jx == now.jx && sh.jy == now.jy;
    assert sh.jz == now.jz && sh.jw == now.jw;
  }

  /** Storing the four components is storing the vector. */
  lemma SameStore<S>(j: seq<Vec4<S>>, i: int, v: Vec4<S>)
    ensures StoreAt(Components(j), i, v) == if 0 <= i < |j| then Some(Components(j[i := v])) else None
  {
    if 0 <= i < |j| {
      var s, t := StoreAt(Components(j), i, v).value, Components(j[i := v]);
      assert s.jx == t.jx && s.jy == t.jy && s.jz == t.jz && s.jw == t.jw;
    }
  }

  ghost predicate SimpleRefined<S>(mc: Machine<S>, a: Simple, st: State<S>)
    requires st.shared.Whole?
  {
    Corresponds(ExecSimple(mc, a, st), ExecSimple(mc, SoaSimple(a), Parted(st)))
  }

  lemma SameSimple<S>(mc: Machine<S>, a: Simple, st: State<S>)
    requires SourceSimple(a) && st.shared.Whole?
    ensures SimpleRefined(mc, a, st)
  {
    hide Eval, Components, SoaE, Put, SourceE, SourceTo, Combined;
    match a
    case Nothing =>
    case Declare(k, x, op, e) =>
      SoaDeclare(k, x, op, e);
      SameValue(mc, e, st);
    case Assign(to, op, e) =>
      SameValue(mc, e, st);
      if to.Elem? {
        WholeFlat(to);
        SameWhole(mc, to.index, op, e, st);
      } else {
        SameAssign(mc, to, op, e, st);
      }
    case Do(e) =>
      SoaDo(e);
      SameValue(mc, e, st);
  }

  lemma SoaDeclare(k: string, x: string, op: string, e: Expr)
    ensures SoaSimple(Declare(k, x, op, e)) == Declare(k, x, op, SoaE(e))
  {}

  lemma SoaDo(e: Expr)
    ensures SoaSimple(Do(e)) == Do(SoaE(e))
  {}

  lemma SoaAssign(to: Expr, op: string, e: Expr)
    requires !to.Elem?
    ensures SoaSimple(Assign(to, op, e)) == Assign(SoaE(to), op, SoaE(e))
  {
    hide YzE, PartE, LoadE;
    assert !PartE(YzE(to)).Elem? by { NoElem(to); }
  }

  lemma NoElem(to: Expr)
    requires !to.Elem?
    ensures !PartE(YzE(to)).Elem?
  {
    assert !YzE(to).Elem?;
  }

  lemma SameAssign<S>(mc: Machine<S>, to: Expr, op: string, e: Expr, st: State<S>)
    requires SourceTo(to) && !to.Elem? && st.shared.Whole?
    requires Eval(mc, SoaE(e), Parted(st)) == Eval(mc, e, st)
    ensures SimpleRefined(mc, Assign(to, op, e), st)
  {
    hide Eval, Put, SoaE, Components, Parted, SourceE, Bare;
    SoaAssign(to, op, e);
    SameValue(mc, to, st) by { TargetRead(to); }
    var v := Eval(mc, e, st);
    if v.Some? {
      assert Combined(mc, SoaE(to), op, v.value, Parted(st)) == Combined(mc, to, op, v.value, st);
      var w := Combined(mc, to, op, v.value, st);
      if w.Some? { SamePut(mc, to, w.value, st); }
    }
  }

  lemma TargetRead(to: Expr)
    requires SourceTo(to)
    ensures SourceE(to)
  {}

  lemma SameWhole<S>(mc: Machine<S>, i: Expr, op: string, e: Expr, st: State<S>)
    requires Flat(i) && st.shared.Whole? && op != "" && op[0] == '=' && Bare(op) == "="
    requires Eval(mc, SoaE(e), Parted(st)) == Eval(mc, e, st)
    ensures SimpleRefined(mc, Assign(Elem(i), op, e), st)
  {
    hide StoreAt, Components, SoaE, Bare, Flat, Eval, SoaSimple;
    SoaWhole(i, op, e);
    FlatEval(mc, i, st, Components(st.shared.j));
    var v, at := Eval(mc, e, st), Eval(mc, i, st);
    assert v.Some? ==> Combined(mc, Elem(i), op, v.value, st) == v;
    var a, b := Assign(Elem(i), op, e), Store(i, op[1..], SoaE(e));
    if v.Some? && v.value.Four? && at.Some? {
      var n := mc.index(at.value);
      SameStore(st.shared.j, n, v.value.v);
      assert ExecSimple(mc, a, st) == OrFailed(Put(mc, Elem(i), v.value, st));
      assert 0 <= n < |st.shared.j| ==>
        ExecSimple(mc, b, Parted(st)) == Done(Normal, Parted(st).(shared := Components(st.shared.j[n := v.value.v])));
    }
  }

  lemma WholeFlat(to: Expr)
    requires SourceTo(to) && to.Elem?
    ensures Flat(to.index)
  {}

  lemma SoaWhole(i: Expr, op: string, e: Expr)
    requires Flat(i) && op != "" && op[0] == '='
    ensures SoaSimple(Assign(Elem(i), op, e)) == Store(i, op[1..], SoaE(e))
  {
    hide LoadE, PartE, YzE;
    assert YzE(Elem(i)) == Elem(i) && PartE(Elem(i)) == Elem(i) by { WholeStays(i); }
    FlatTaken(Loads, i);
  }

  lemma WholeStays(i: Expr)
    ensures YzE(Elem(i)) == Elem(i) && PartE(Elem(i)) == Elem(i)
  {}

  // ---------- exactly these fields, targets and stores ----------

  ghost predicate KeepsValue<S(!new)>(e: Expr) {
    forall mc: Machine<S>, st: State<S> | st.shared.Whole? :: Eval(mc, SoaE(e), Parted(st)) == Eval(mc, e, st)
  }

  ghost predicate KeepsPlace<S(!new)>(to: Expr) {
    forall mc: Machine<S>, v: Value<S>, st: State<S> | st.shared.Whole? ::
      SamePlace(Put(mc, to, v, st), Put(mc, SoaE(to), v, Parted(st)))
  }

  ghost predicate KeepsSimple<S(!new)>(a: Simple) {
    forall mc: Machine<S>, st: State<S> | st.shared.Whole? :: SimpleRefined(mc, a, st)
  }

  /** The names of locals and arrays. */
  function Names(e: Expr): set<string> {
    match e
    case Local(x) => {x}
    case Infix(l, _, r) => Names(l) + Names(r)
    case Paren(a) => Names(a)
    case Call(_, a) => Names(a)
    case Read(n, i) => {n} + Names(i)
    case Elem(i) => Names(i)
    case Member(a, _) => Names(a)
    case _ => {}
  }

  /** A machine on which everything has one value and selects index 0. */
  ghost function Constantly<S>(v: Value<S>): Machine<S> {
    Machine(_ => v, (_, _) => v, _ => 0, _ => true)
  }

  /** A state in which all these names are there. */
  ghost predicate Has<S>(names: set<string>, st: State<S>) {
    && (forall x | x in names :: x in st.locals && (x, 0) in st.arrays)
    && st.shared.Whole? && |st.shared.j| > 0
  }

  ghost function Having<S>(names: set<string>, v: Value<S>, some: S): (st: State<S>)
    ensures Has(names, st)
  {
    State(map x | x in names :: v, map x | x in names :: (x, 0) := v, Whole([Vec4(some, some, some, some)]))
  }

  lemma {:induction false} HasValue<S>(e: Expr, v: Value<S>, st: State<S>)
    requires OriginalE(e) && Has(Names(e), st)
    ensures Eval(Constantly(v), e, st).Some?
  {
    hide Literal, Callee, OriginalSign, Addresses, IsPlace, Flat, FieldOf;
    match e
    case Infix(l, _, r) => HasValue(l, v, st); HasValue(r, v, st);
    case Paren(a) => HasValue(a, v, st);
    case Call(_, a) => HasValue(a, v, st);
    case Read(n, i) => HasValue(i, v, st); assert n in Names(e);
    case Elem(i) => HasValue(i, v, st);
    case Member(a, _) => HasValue(a, v, st);
    case Local(x) => assert x in Names(e);
    case _ =>
  }

  /** A cut field leaves an expression that never has a value. */
  lemma {:induction false} CutFails<S>(mc: Machine<S>, e: Expr, st: State<S>)
    requires OriginalE(e) && !FieldsKept(e)
    ensures Eval(mc, SoaE(e), st) == None
  {
    hide Literal, Callee, OriginalSign, Addresses, IsPlace, PlaceKept, FieldOf, PartAt, LoadAt;
    match e
    case Infix(l, op, r) =>
      if !FieldsKept(l) {
        CutFails(mc, l, st);
      } else if !FieldsKept(r) {
        CutFails(mc, r, st);
      } else {
        PlaceStays(r);
        EmptyStays(l);
        SameAddress(l, SoaE(l), op);
      }
    case Paren(a) => CutFails(mc, a, st);
    case Call(_, a) => CutFails(mc, a, st);
    case Read(_, i) => CutFails(mc, i, st);
    case Elem(i) => FlatKept(i);
    case Member(a, f) =>
      if a.Elem? {
        FlatKept(a.index);
        CutField(a.index, f);
      } else {
        SoaMember(a, f);
        CutFails(mc, a, st);
      }
  }

  lemma {:induction false} FlatKept(e: Expr)
    requires Flat(e)
    ensures FieldsKept(e) && PlaceKept(e)
  {
    match e
    case Infix(l, _, r) =>
      if l != Empty { FlatKept(l); }
      FlatKept(r);
    case Paren(a) => FlatKept(a);
    case Call(_, a) => if a != Empty { FlatKept(a); }
    case Member(a, _) => FlatKept(a);
    case _ =>
  }

  lemma CutField(i: Expr, f: string)
    requires !FieldKept(f)
    ensures SoaE(Member(Elem(i), f)).Garbled?
  {
    var pair := Pair(Part('y', i), Part('z', i));
    if "yz" <= f {
      assert YzE(Member(Elem(i), f)) == Garbled(pair, f[2..]);
    } else {
      assert PartE(Member(Elem(i), f)) == Garbled(Part(f[0], i), f[1..]);
    }
  }

  /** An expression of the shader keeps its value on all machines and states if and only if no field of a
      whole element is cut in two. */
  lemma ReadExactly<S(!new)>(e: Expr, some: S)
    requires OriginalE(e)
    ensures KeepsValue<S>(e) <==> FieldsKept(e)
  {
    hide Eval, OriginalE, FieldsKept, Constantly, Having, SoaE;
    if FieldsKept(e) {
      forall mc: Machine<S>, st: State<S> | st.shared.Whole? ensures Eval(mc, SoaE(e), Parted(st)) == Eval(mc, e, st) {
        SameValue(mc, e, st);
      }
    } else {
      var mc, st := Constantly(One(some)), Having(Names(e), One(some), some);
      HasValue(e, One(some), st);
      CutFails(mc, e, Parted(st));
    }
  }

  /** What the shader assigns to: locals, elements of arrays, and their fields. */
  predicate OriginalTo(to: Expr) {
    OriginalE(to) &&
    match to
    case Local(_) => true
    case Read(_, _) => true
    case Elem(_) => true
    case Member(a, _) => a.Local? || a.Read? || a.Elem?
    case _ => false
  }

  /** A field of one letter of `xyzw`, if it is one of a whole element. */
  predicate TargetKept(to: Expr) {
    FieldsKept(to) && !to.Elem? && (to.Member? && to.e.Elem? ==> |to.field| == 1 && to.field[0] in COMPONENTS)
  }

  /** A target changes corresponding states alike if and only if it is no whole element and cuts none.
      Whole elements are the business of the store pattern. */
  lemma PutExactly<S(!new)>(to: Expr, some: S)
    requires OriginalTo(to)
    ensures KeepsPlace<S>(to) <==> TargetKept(to)
  {
    hide Put, OriginalTo, TargetKept, Constantly, Having, SoaE;
    if TargetKept(to) {
      KeptIsSource(to);
      forall mc: Machine<S>, v: Value<S>, st: State<S> | st.shared.Whole?
        ensures SamePlace(Put(mc, to, v, st), Put(mc, SoaE(to), v, Parted(st)))
      {
        SamePut(mc, to, v, st);
      }
    } else {
      var v := Four(Vec4(some, some, some, some));
      var mc, st := Constantly(v), Having(Names(to), v, some);
      Putting(to, v, st);
      NeverPuts(mc, to, v, Parted(st));
    }
  }

  lemma KeptIsSource(to: Expr)
    requires OriginalTo(to) && TargetKept(to)
    ensures SourceTo(to) && !to.Elem?
  {}

  lemma Putting<S>(to: Expr, v: Value<S>, st: State<S>)
    requires OriginalTo(to) && !TargetKept(to) && Has(Names(to), st) && v.Four?
    ensures Put(Constantly(v), to, v, st).Some?
  {
    hide Literal, Flat, Eval;
    match to
    case Read(_, i) => HasValue(i, v, st);
    case Elem(i) => HasValue(i, v, st);
    case Member(a, f) =>
      assert OriginalE(a) && Names(a) == Names(to);
      if a.Elem? {
        assert OriginalE(a.index) && Flat(a.index);
        HasValue(a.index, v, st);
        FlatKept(a.index);
        assert FieldsKept(a);
      } else if a.Read? {
        assert OriginalE(a.index) && a.name in Names(a);
        HasValue(a.index, v, st);
      }
    case _ =>
  }

  lemma NeverPuts<S>(mc: Machine<S>, to: Expr, v: Value<S>, st: State<S>)
    requires OriginalTo(to) && !TargetKept(to)
    ensures Put(mc, SoaE(to), v, st) == None
  {
    hide Literal, Flat, Eval;
    match to
    case Read(_, i) => CutFails(mc, i, st);
    case Elem(i) =>
    case Member(a, f) =>
      assert OriginalE(a);
      if a.Elem? {
        assert Flat(a.index);
        FlatKept(a.index);
        assert FieldsKept(a);
        MisplacedField(a.index, f);
      } else {
        SoaMember(a, f);
        assert !FieldsKept(a);
        if a.Read? {
          assert OriginalE(a.index) && !FieldsKept(a.index);
          CutFails(mc, a.index, st);
        }
      }
    case _ =>
  }

  lemma MisplacedField(i: Expr, f: string)
    requires |f| != 1 || f[0] !in COMPONENTS
    ensures var t := SoaE(Member(Elem(i), f)); t.Garbled? || t.Pair? || t == Member(Load(i), f)
  {
    assert LoadE(Elem(i)) == Load(i);
    if !FieldKept(f) { CutField(i, f); }
  }

  /** Storing a local's value in a whole element changes corresponding states alike if and only if the
      operator is `=` with no space in front. */
  lemma StoreExactly<S(!new)>(i: Expr, op: string, x: string, some: S)
    requires Flat(i) && OriginalE(i) && op != ""
    ensures KeepsSimple<S>(Assign(Elem(i), op, Local(x))) <==> op[0] == '=' && Bare(op) == "="
  {
    hide Bare, Flat, OriginalE, Eval, ExecSimple, SoaSimple, Having, Constantly;
    var a := Assign(Elem(i), op, Local(x));
    if op[0] == '=' && Bare(op) == "=" {
      forall mc: Machine<S>, st: State<S> | st.shared.Whole? ensures SimpleRefined(mc, a, st) {
        LocalStays(mc, x, st);
        SameWhole(mc, i, op, Local(x), st);
      }
    } else {
      var v := Four(Vec4(some, some, some, some));
      var st := Having(Names(i), v, some);
      var at := st.(locals := st.locals[x := if Bare(op) == "=" then v else One(some)]);
      Storing(i, op, x, v, at);
      NeverStores(Constantly(v), i, op, x, Parted(at));
      assert !SimpleRefined(Constantly(v), a, at);
    }
  }

  lemma LocalStays<S>(mc: Machine<S>, x: string, st: State<S>)
    requires st.shared.Whole?
    ensures SoaE(Local(x)) == Local(x) && Eval(mc, SoaE(Local(x)), Parted(st)) == Eval(mc, Local(x), st)
  {}

  lemma Storing<S>(i: Expr, op: string, x: string, v: Value<S>, st: State<S>)
    requires OriginalE(i) && Has(Names(i), st) && v.Four?
    requires x in st.locals && (Bare(op) == "=" ==> st.locals[x] == v)
    ensures ExecSimple(Constantly(v), Assign(Elem(i), op, Local(x)), st).Done?
  {
    hide OriginalE, Has, Bare;
    HasValue(i, v, st);
    var mc := Constantly(v);
    Nonempty(Names(i), st);
    assert Eval(mc, Elem(i), st).Some?;
    assert Combined(mc, Elem(i), op, st.locals[x], st) == Some(v);
  }

  lemma Nonempty<S>(names: set<string>, st: State<S>)
    requires Has(names, st)
    ensures st.shared.Whole? && |st.shared.j| > 0
  {}

  lemma NeverStores<S>(mc: Machine<S>, i: Expr, op: string, x: string, st: State<S>)
    requires Flat(i) && op != "" && x in st.locals && (Bare(op) != "=" ==> st.locals[x].One?)
    requires op[0] != '=' || Bare(op) != "="
    ensures ExecSimple(mc, SoaSimple(Assign(Elem(i), op, Local(x))), st) == Failed
  {
    hide Bare, Flat, SoaSimple;
    assert SoaE(Local(x)) == Local(x);
    if op[0] == '=' {
      SoaWhole(i, op, Local(x));
    } else {
      SoaUnseen(i, op, Local(x));
    }
  }

  lemma SoaUnseen(i: Expr, op: string, e: Expr)
    requires op == "" || op[0] != '='
    ensures SoaSimple(Assign(Elem(i), op, e)) == Assign(Load(i), op, SoaE(e))
  {}

  // ---------- programs ----------

  ghost predicate Refined<S>(mc: Machine<S>, s: Stmt, s': Stmt, st: State<S>, fuel: nat)
    requires st.shared.Whole?
  {
    Corresponds(Exec(mc, s, st, fuel), Exec(mc, s', Parted(st), fuel))
  }

  ghost predicate TurnsRefined<S>(mc: Machine<S>, s: Stmt, s': Stmt, st: State<S>, fuel: nat)
    requires st.shared.Whole? && (s.Loop? || s.While? || s.For?) && (s'.Loop? || s'.While? || s'.For?)
  {
    Corresponds(Turns(mc, s, st, fuel), Turns(mc, s', Parted(st), fuel))
  }

  /** The pass is a data refinement: run from corresponding states, a program and its rewriting end
      in the same way in corresponding states, fail together, and run for ever together. */
  lemma {:induction false} LayoutRefines<S>(mc: Machine<S>, s: Stmt, st: State<S>, fuel: nat)
    requires SourceStmt(s) && st.shared.Whole?
    ensures Refined(mc, s, Soa(s), st, fuel)
    decreases fuel, s, 1
  {
    hide Eval, ExecSimple, Components, Parted, SourceE, SourceSimple, SoaE, SoaSimple, TakeE, TakeSimple, Turns;
    match s
    case Plain(a) => SoaPlain(a); SameSimple(mc, a, st);
    case Return(gap, e) => SoaReturn(gap, e); SameValue(mc, e, st);
    case Seq(a, b) =>
      LayoutRefines(mc, a, st, fuel);
      var first := Exec(mc, a, st, fuel);
      if first.Done? { LayoutRefines(mc, b, first.st, fuel); }
    case If(gap, c, a) =>
      SoaIf(gap, c, a);
      SameValue(mc, c, st);
      LayoutRefines(mc, a, st, fuel);
    case IfElse(gap, c, a, gap2, b) =>
      SoaIfElse(gap, c, a, gap2, b);
      SameValue(mc, c, st);
      LayoutRefines(mc, a, st, fuel);
      LayoutRefines(mc, b, st, fuel);
    case Loop(_, _) => SameTurns(mc, s, st, fuel);
    case While(_, _, _) => SameTurns(mc, s, st, fuel);
    case For(init, c, update, a) =>
      SoaFor(init, c, update, a);
      SameSimple(mc, init, st);
      var start := ExecSimple(mc, init, st);
      if start.Done? { SameTurns(mc, s, start.st, fuel); }
    case _ =>
  }

  lemma SoaPlain(a: Simple)
    ensures Soa(Plain(a)) == Plain(SoaSimple(a))
  {}

  lemma SoaReturn(gap: string, e: Expr)
    ensures Soa(Return(gap, e)) == Return(gap, SoaE(e))
  {}

  lemma SoaIf(gap: string, c: Expr, a: Stmt)
    ensures Soa(If(gap, c, a)) == If(gap, SoaE(c), Soa(a))
  {}

  lemma SoaIfElse(gap: string, c: Expr, a: Stmt, gap2: string, b: Stmt)
    ensures Soa(IfElse(gap, c, a, gap2, b)) == IfElse(gap, SoaE(c), Soa(a), gap2, Soa(b))
  {}

  lemma SoaFor(init: Simple, c: Expr, update: Simple, a: Stmt)
    ensures Soa(For(init, c, update, a)) == For(SoaSimple(init), SoaE(c), SoaSimple(update), Soa(a))
  {
    hide TakeSimple, TakeE, YzE, PartE, LoadE;
    assert SoaE(c) == TakeE(Loads, TakeE(Wholes, TakeE(Parts, TakeE(Pairs, c)))) by { SoaTakes(c); }
  }

  lemma SoaTakes(e: Expr)
    ensures SoaE(e) == TakeE(Loads, TakeE(Wholes, TakeE(Parts, TakeE(Pairs, e))))
  {}

  lemma SoaLoops(s: Stmt)
    requires s.Loop? || s.While? || s.For?
    ensures s.Loop? ==> Soa(s) == Loop(s.gap, Soa(s.body))
    ensures s.While? ==> Soa(s) == While(s.gap, SoaE(s.cond), Soa(s.body))
    ensures s.For? ==> Soa(s) == For(SoaSimple(s.init), SoaE(s.cond), SoaSimple(s.update), Soa(s.body))
  {
    if s.For? { SoaFor(s.init, s.cond, s.update, s.body); }
  }

  lemma SameGoes<S>(mc: Machine<S>, s: Stmt, st: State<S>)
    requires (s.Loop? || s.While? || s.For?) && SourceStmt(s) && st.shared.Whole?
    ensures var t := Soa(s);
            (t.Loop? || t.While? || t.For?) && Goes(mc, t, Parted(st)) == Goes(mc, s, st)
  {
    hide Eval, Components, Soa, SourceE, SourceSimple, SoaE, SoaSimple, Parted;
    SoaLoops(s);
    if !s.Loop? {
      SameValue(mc, s.cond, st);
      EmptyStays(s.cond);
    }
  }

  lemma EmptyStays(e: Expr)
    ensures SoaE(e) == Empty <==> e == Empty
  {
    assert YzE(e) == Empty <==> e == Empty;
    assert PartE(YzE(e)) == Empty <==> YzE(e) == Empty;
  }

  /** The turns of a loop, one after the other. */
  lemma {:induction false} SameTurns<S>(mc: Machine<S>, s: Stmt, st: State<S>, fuel: nat)
    requires (s.Loop? || s.While? || s.For?) && SourceStmt(s) && st.shared.Whole?
    ensures var t := Soa(s); (t.Loop? || t.While? || t.For?) && TurnsRefined(mc, s, t, st, fuel)
    decreases fuel, s, 0
  {
    hide Eval, Goes, Exec, ExecSimple, Components, Parted, SourceE, SourceSimple, SoaE, SoaSimple, Soa;
    SoaLoops(s);
    SameGoes(mc, s, st);
    if fuel > 0 {
      LayoutRefines(mc, s.body, st, fuel - 1);
      var turn := Exec(mc, s.body, st, fuel - 1);
      if turn.Done? {
        if s.For? { SameSimple(mc, s.update, turn.st); }
        var next := if s.For? then ExecSimple(mc, s.update, turn.st) else Done(Normal, turn.st);
        if next.Done? { SameTurns(mc, s, next.st, fuel - 1); }
      }
    }
  }
}
