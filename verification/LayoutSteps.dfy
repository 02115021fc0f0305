/** The four regular expressions on whole shader files: exactly where they do to the text what the
    substitutions do to its tree, in any order. */
module LayoutSteps {
  import opened LayoutPass
  import opened LayoutText

  // ---------- what a step leaves as it was ----------

  lemma {:induction false} TakenE(step: Step, e: Expr)
    requires GoodE(e)
    ensures var t := TakeE(step, e);
            && GoodE(t) && (t == Empty <==> e == Empty) && (Postfix(e) ==> Postfix(t))
            && (EndsInElem(t) ==> EndsInElem(e)) && (step != Loads ==> (EndsInElem(t) <==> EndsInElem(e)))
  {
    hide Piece, Word, Operator, NamesClear, SignsClear;
    match e
    case Infix(l, op, r) => TakenE(step, l); TakenE(step, r); TakeInfix(step, l, op, r);
    case Paren(a) => TakenE(step, a);
    case Call(f, a) => TakenE(step, a); TakeCall(step, f, a);
    case Read(n, i) => TakenE(step, i); TakeRead(step, n, i);
    case Member(a, f) => if a.Elem? { TakenField(step, a.index, f); } else { TakenE(step, a); }
    case Pair(l, r) => TakenE(step, l); TakenE(step, r); TakePair(step, l, r);
    case _ =>
  }

  lemma TakenField(step: Step, i: Expr, f: string)
    requires GoodE(Member(Elem(i), f))
    ensures var t := TakeE(step, Member(Elem(i), f));
            GoodE(t) && t != Empty && Postfix(t) && !EndsInElem(t) && NamesClear(t) && SignsClear(t)
  {
    assert GoodE(Elem(i)) && GoodE(Load(i)) && GoodE(Part('y', i)) && GoodE(Part('z', i));
    if f[0] in COMPONENTS { assert GoodE(Part(f[0], i)); }
    assert LoadE(Elem(i)) == Load(i);
    assert NamesClear(Elem(i)) && SignsClear(Elem(i)) && NamesClear(Load(i)) && SignsClear(Load(i));
    assert forall c :: NamesClear(Part(c, i)) && SignsClear(Part(c, i));
  }

  lemma {:induction false} NamesTaken(step: Step, e: Expr)
    requires GoodE(e)
    ensures NamesClear(TakeE(step, e)) <==> NamesClear(e)
  {
    hide Piece, Word, Operator;
    match e
    case Infix(l, op, r) => NamesTaken(step, l); NamesTaken(step, r); TakeInfix(step, l, op, r);
    case Paren(a) => NamesTaken(step, a);
    case Call(f, a) => NamesTaken(step, a); TakeCall(step, f, a);
    case Read(n, i) => NamesTaken(step, i); TakeRead(step, n, i);
    case Member(a, f) => if a.Elem? { TakenField(step, a.index, f); } else { NamesTaken(step, a); }
    case Pair(l, r) => NamesTaken(step, l); NamesTaken(step, r); TakePair(step, l, r);
    case _ =>
  }

  lemma {:induction false} SignsTaken(step: Step, e: Expr)
    requires GoodE(e) && step in {Pairs, Parts}
    ensures SignsClear(TakeE(step, e)) <==> SignsClear(e)
  {
    hide Piece, Word, Operator;
    match e
    case Infix(l, op, r) =>
      SignsTaken(step, l); SignsTaken(step, r); TakeInfix(step, l, op, r); TakenE(step, l);
    case Paren(a) => SignsTaken(step, a);
    case Call(f, a) => SignsTaken(step, a); TakeCall(step, f, a);
    case Read(n, i) => SignsTaken(step, i); TakeRead(step, n, i);
    case Member(a, f) => if a.Elem? { TakenField(step, a.index, f); } else { SignsTaken(step, a); }
    case Pair(l, r) => SignsTaken(step, l); SignsTaken(step, r); TakePair(step, l, r);
    case _ =>
  }

  /** Behind the loads there is nothing for the store pattern. */
  lemma {:induction false} SignsLoaded(e: Expr)
    requires GoodE(e)
    ensures SignsClear(LoadE(e)) && !EndsInElem(LoadE(e))
  {
    hide Piece, Word, Operator;
    match e
    case Infix(l, _, r) => SignsLoaded(l); SignsLoaded(r);
    case Paren(a) => SignsLoaded(a);
    case Call(_, a) => SignsLoaded(a);
    case Read(_, i) => SignsLoaded(i);
    case Member(a, _) => SignsLoaded(a);
    case Pair(l, r) => SignsLoaded(l); SignsLoaded(r);
    case Garbled(a, _) => if a.Pair? { assert SignsClear(a.l) && SignsClear(a.r); }
    case _ =>
  }

  lemma TakenSimple(step: Step, a: Simple)
    requires GoodSimple(a)
    ensures GoodSimple(TakeSimple(step, a)) && (NamesClearSimple(TakeSimple(step, a)) <==> NamesClearSimple(a))
    ensures step in {Pairs, Parts} ==>
              (IsStore(TakeSimple(step, a)) <==> IsStore(a)) &&
                (SignsClearSimple(TakeSimple(step, a)) <==> SignsClearSimple(a))
    ensures step == Loads ==> !IsStore(TakeSimple(step, a)) && SignsClearSimple(TakeSimple(step, a))
  {
    hide GoodE, NamesClear, SignsClear, TakeE, Postfix, Operator, Word, Flat, PrintE;
    match a
    case Nothing =>
    case Declare(_, _, _, e) => TakenAll(step, e);
    case Assign(to, op, e) =>
      TakenAll(step, to);
      TakenAll(step, e);
      TakenTarget(step, to);
      if step == Wholes && IsStore(a) { TakenStore(to.index, op, e); }
    case Store(i, gap, e) =>
      FlatTaken(step, i);
      TakenAll(step, e);
      TakenAll(step, i);
      if gap == "" { StoredText(step, e); }
    case Do(e) => TakenAll(step, e);
  }

  lemma TakenAll(step: Step, e: Expr)
    requires GoodE(e)
    ensures var t := TakeE(step, e);
            && GoodE(t) && (t == Empty <==> e == Empty) && (Postfix(e) ==> Postfix(t)) &&
              (NamesClear(t) <==> NamesClear(e))
            && (step in {Pairs, Parts} ==> (SignsClear(t) <==> SignsClear(e))) && (step == Loads ==> SignsClear(t))
  {
    hide GoodE, NamesClear, SignsClear, Postfix;
    TakenE(step, e);
    NamesTaken(step, e);
    if step in {Pairs, Parts} { SignsTaken(step, e); }
    if step == Loads { SignsLoaded(e); }
  }

  lemma TakenTarget(step: Step, to: Expr)
    requires Postfix(to)
    ensures TakeE(step, to).Elem? <==> to.Elem? && step != Loads
    ensures to.Elem? && step != Loads ==> TakeE(step, to) == to
  {}

  lemma TakenStore(i: Expr, op: string, e: Expr)
    requires GoodSimple(Assign(Elem(i), op, e)) && op[0] == '='
    ensures GoodSimple(Store(i, op[1..], e)) && NamesClear(i) && NamesClear(Elem(i))
  {
    hide PrintE, Flat, NamesClear;
    SomeText(e);
    assert Flat(i);
    FlatNames(i);
    assert NamesClear(Elem(i)) by { ElemNames(i); }
  }

  lemma ElemNames(i: Expr)
    ensures NamesClear(Elem(i))
  {}

  lemma {:induction false} FlatNames(e: Expr)
    requires Flat(e)
    ensures NamesClear(e)
  {
    match e
    case Infix(l, _, r) =>
      if l != Empty { FlatNames(l); }
      FlatNames(r);
    case Paren(a) => FlatNames(a);
    case Call(_, a) => if a != Empty { FlatNames(a); }
    case Member(a, _) => FlatNames(a);
    case _ =>
  }

  lemma StoredText(step: Step, e: Expr)
    requires GoodE(e) && PrintE(e) != ""
    ensures PrintE(TakeE(step, e)) != ""
  {
    hide GoodE;
    TakenE(step, e);
    SomeText(TakeE(step, e));
  }

  lemma Taken(step: Step, s: Stmt)
    requires Good(s)
    ensures Good(Take(step, s)) && (NamesClearIn(Take(step, s)) <==> NamesClearIn(s))
    ensures step in {Pairs, Parts} ==> (SignsClearIn(Take(step, s)) <==> SignsClearIn(s))
    ensures step == Loads ==> SignsClearIn(Take(step, s))
  {
    hide Good, NamesClearIn, SignsClearIn, Take;
    TakenGood(step, s);
    TakenNames(step, s);
    if step != Wholes { TakenSigns(step, s); }
  }

  lemma {:induction false} TakenGood(step: Step, s: Stmt)
    requires Good(s)
    ensures Good(Take(step, s))
  {
    hide GoodE, GoodSimple, TakeE, TakeSimple, Blank;
    match s
    case Plain(a) => TakenSimple(step, a);
    case Return(_, e) => TakenAll(step, e);
    case Seq(a, b) => TakenGood(step, a); TakenGood(step, b);
    case If(_, c, a) => TakenAll(step, c); TakenGood(step, a);
    case IfElse(_, c, a, _, b) => TakenAll(step, c); TakenGood(step, a); TakenGood(step, b);
    case Loop(_, a) => TakenGood(step, a);
    case While(_, c, a) => TakenAll(step, c); TakenGood(step, a);
    case For(init, c, update, a) =>
      TakenSimple(step, init);
      TakenAll(step, c);
      TakenSimple(step, update);
      TakenGood(step, a);
    case _ =>
  }

  lemma NamesTakenSimple(step: Step, a: Simple)
    requires GoodSimple(a)
    ensures NamesClearSimple(TakeSimple(step, a)) <==> NamesClearSimple(a)
  {
    hide GoodSimple, NamesClearSimple, TakeSimple;
    TakenSimple(step, a);
  }

  lemma {:induction false} TakenNames(step: Step, s: Stmt)
    requires Good(s)
    ensures NamesClearIn(Take(step, s)) <==> NamesClearIn(s)
  {
    hide GoodE, GoodSimple, NamesClear, NamesClearSimple, TakeE, TakeSimple, Blank;
    if s.Plain? {
      NamesTakenSimple(step, s.a);
    } else if s.Return? {
      NamesTaken(step, s.e);
    } else if s.Seq? {
      TakenNames(step, s.first);
      TakenNames(step, s.second);
    } else if s.If? || s.While? || s.Loop? {
      if !s.Loop? { NamesTaken(step, s.cond); }
      TakenNames(step, s.body);
    } else if s.IfElse? {
      NamesTaken(step, s.cond);
      TakenNames(step, s.body);
      TakenNames(step, s.other);
    } else if s.For? {
      NamesTakenSimple(step, s.init);
      NamesTaken(step, s.cond);
      NamesTakenSimple(step, s.update);
      TakenNames(step, s.body);
    }
  }

  lemma SignsTakenSimple(step: Step, a: Simple)
    requires GoodSimple(a) && step != Wholes
    ensures step in {Pairs, Parts} ==>
              (IsStore(TakeSimple(step, a)) <==> IsStore(a)) &&
                (SignsClearSimple(TakeSimple(step, a)) <==> SignsClearSimple(a))
    ensures step == Loads ==> !IsStore(TakeSimple(step, a)) && SignsClearSimple(TakeSimple(step, a))
  {
    hide GoodSimple, NamesClearSimple, SignsClearSimple, IsStore, TakeSimple;
    TakenSimple(step, a);
  }

  lemma {:induction false} TakenSigns(step: Step, s: Stmt)
    requires Good(s) && step != Wholes
    ensures step in {Pairs, Parts} ==> (SignsClearIn(Take(step, s)) <==> SignsClearIn(s))
    ensures step == Loads ==> SignsClearIn(Take(step, s))
  {
    hide GoodE, GoodSimple, SignsClear, SignsClearSimple, TakeE, TakeSimple, Blank, IsStore;
    if s.Plain? {
      SignsTakenSimple(step, s.a);
    } else if s.Return? {
      TakenAll(step, s.e);
    } else if s.Seq? {
      TakenSigns(step, s.first);
      TakenSigns(step, s.second);
    } else if s.If? || s.While? || s.Loop? {
      if !s.Loop? { TakenAll(step, s.cond); }
      TakenSigns(step, s.body);
    } else if s.IfElse? {
      TakenAll(step, s.cond);
      TakenSigns(step, s.body);
      TakenSigns(step, s.other);
    } else if s.For? {
      SignsTakenSimple(step, s.init);
      TakenAll(step, s.cond);
      SignsTakenSimple(step, s.update);
      TakenSigns(step, s.body);
    }
  }

  // ---------- files ----------

  /** A function body and the text in front of it: other declarations and the function's signature. */
  datatype Function = Function(head: string, body: Stmt)

  datatype File = File(functions: seq<Function>, tail: string)

  function PrintFunctions(fs: seq<Function>): string {
    if fs == [] then "" else fs[0].head + (Print(fs[0].body) + PrintFunctions(fs[1..]))
  }

  function PrintFile(f: File): string { PrintFunctions(f.functions) + f.tail }

  function TakeFile(step: Step, f: File): File {
    File(TakeFunctions(step, f.functions), f.tail)
  }

  function TakeFunctions(step: Step, fs: seq<Function>): seq<Function> {
    seq(|fs|, i requires 0 <= i < |fs| => Function(fs[i].head, Take(step, fs[i].body)))
  }

  function PassFile(order: seq<Step>, f: File): File {
    if order == [] then f else PassFile(order[1..], TakeFile(order[0], f))
  }

  /** The array is not mentioned with an index. */
  predicate NoIndex(x: string) {
    forall k | 0 <= k < |x| - 1 :: x[k] == 'j' ==> x[k + 1] != '['
  }

  /** Nor may it be in front of what starts here. */
  predicate Quiet(x: string) { NoIndex(x) && (x == "" || x[0] != '[') }

  predicate GoodFile(f: File) {
    && (forall i | 0 <= i < |f.functions| :: GoodFunction(f.functions[i]))
    && Quiet(f.tail)
  }

  predicate GoodFunction(f: Function) {
    Good(f.body) && Quiet(f.head) && (f.head == "" || f.head[|f.head| - 1] != 'j')
  }

  predicate FileClear(step: Step, f: File) {
    forall i | 0 <= i < |f.functions| :: ClearIn(step, f.functions[i].body)
  }

  lemma {:induction false} MapsQuiet(step: Step, x: string, rest: string)
    requires NoIndex(x) && (x == "" || x[|x| - 1] != 'j' || rest == "")
    ensures Maps(step, x, x, rest)
  {
    hide Sub, NoIndex;
    if x == "" {
      assert x + rest == rest && x + Sub(step, rest) == Sub(step, rest);
    } else {
      NoIndexBehind(x);
      SubFirst(step, x, rest);
      MapsQuiet(step, x[1..], rest);
      FirstAndRest(x, Sub(step, rest));
    }
  }

  lemma NoIndexBehind(x: string)
    requires NoIndex(x) && x != ""
    ensures NoIndex(x[1..]) && (|x| > 1 && x[0] == 'j' ==> x[1] != '[')
  {
    assert forall k | 0 <= k < |x| - 1 :: x[1..][k] == x[k + 1];
  }

  lemma {:induction false} SubFunctions(step: Step, fs: seq<Function>, rest: string)
    requires forall i | 0 <= i < |fs| :: GoodFunction(fs[i]) && ClearIn(step, fs[i].body)
    ensures Maps(step, PrintFunctions(fs), PrintFunctions(TakeFunctions(step, fs)), rest)
  {
    hide Maps, Print, Take, NoIndex, ClearIn;
    if fs == [] {
      MapsQuiet(step, "", rest) by { NothingIndexed(); }
    } else {
      var f, more := fs[0], fs[1..];
      SubFunctions(step, more, rest);
      SubStmt(step, f.body, PrintFunctions(more) + rest);
      MapsBoth(step, Print(f.body), Print(Take(step, f.body)), PrintFunctions(more),
               PrintFunctions(TakeFunctions(step, more)), rest);
      MapsQuiet(step, f.head, Print(f.body) + PrintFunctions(more) + rest);
      MapsBoth(step, f.head, f.head, Print(f.body) + PrintFunctions(more),
               Print(Take(step, f.body)) + PrintFunctions(TakeFunctions(step, more)), rest);
      assert TakeFunctions(step, fs)[1..] == TakeFunctions(step, more);
    }
  }

  lemma NothingIndexed()
    ensures NoIndex("")
  {}

  /** One regular expression on a whole file. */
  lemma SubFile(step: Step, f: File)
    requires GoodFile(f) && FileClear(step, f)
    ensures Sub(step, PrintFile(f)) == PrintFile(TakeFile(step, f))
  {
    hide PrintFunctions, TakeFunctions, GoodFunction, ClearIn, NoIndex;
    SubFunctions(step, f.functions, f.tail);
    MapsQuiet(step, f.tail, "");
    assert f.tail + "" == f.tail && Sub(step, "") == "";
  }

  lemma TakenFile(step: Step, f: File)
    requires GoodFile(f)
    ensures GoodFile(TakeFile(step, f))
    ensures FileClear(Pairs, f) ==> FileClear(Pairs, TakeFile(step, f))
    ensures FileClear(Wholes, f) && step != Wholes ==> FileClear(Wholes, TakeFile(step, f))
  {
    hide Good, Take, NamesClearIn, SignsClearIn, NoIndex;
    forall i | 0 <= i < |f.functions|
      ensures GoodFunction(TakeFile(step, f).functions[i])
      ensures ClearIn(Pairs, f.functions[i].body) ==> ClearIn(Pairs, TakeFile(step, f).functions[i].body)
      ensures ClearIn(Wholes, f.functions[i].body) && step != Wholes ==>
              ClearIn(Wholes, TakeFile(step, f).functions[i].body)
    {
      assert GoodFunction(f.functions[i]);
      Taken(step, f.functions[i].body);
    }
  }

  /** In any order of the steps the regular expressions do to the file's text what the substitutions do
      to its trees, when no array's name ends in `j` and no comparison and no `for` update looks like a store. */
  lemma {:induction false} ScriptOnFile(order: seq<Step>, f: File)
    requires GoodFile(f) && FileClear(Pairs, f) && (Wholes in order ==> FileClear(Wholes, f))
    requires Distinct(order)
    ensures SubAll(order, PrintFile(f)) == PrintFile(PassFile(order, f))
  {
    hide Sub, PrintFile, GoodFile, FileClear, TakeFile;
    if order != [] {
      ClearFor(order[0], f);
      SubFile(order[0], f);
      TakenFile(order[0], f);
      ScriptOnFile(order[1..], TakeFile(order[0], f));
    }
  }

  lemma ClearFor(step: Step, f: File)
    requires FileClear(Pairs, f) && (step == Wholes ==> FileClear(Wholes, f))
    ensures FileClear(step, f)
  {
    hide NamesClearIn, SignsClearIn;
    forall i | 0 <= i < |f.functions| ensures ClearIn(step, f.functions[i].body) {
      assert ClearIn(Pairs, f.functions[i].body);
    }
  }
}
