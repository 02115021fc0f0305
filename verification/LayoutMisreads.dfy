/** Exactly which programs the four regular expressions misread. */
module LayoutMisreads {
  import opened LayoutPass
  import opened LayoutText
  import opened LayoutSteps

  // ---------- texts that differ ----------

  /** Two texts that differ before either ends. */
  ghost predicate Apart(a: string, b: string) {
    exists k :: 0 <= k < |a| && k < |b| && a[k] != b[k]
  }

  lemma ApartAt(a: string, b: string, k: nat)
    requires k < |a| && k < |b| && a[k] != b[k]
    ensures Apart(a, b)
  {}

  lemma ApartFront(c: string, a: string, b: string)
    requires Apart(a, b)
    ensures Apart(c + a, c + b)
  {
    var k :| 0 <= k < |a| && k < |b| && a[k] != b[k];
    ApartAt(c + a, c + b, |c| + k);
  }

  lemma ApartBack(a: string, b: string, c: string)
    requires Apart(a, b)
    ensures Apart(a, b + c)
  {
    var k :| 0 <= k < |a| && k < |b| && a[k] != b[k];
    ApartAt(a, b + c, k);
  }

  /** In front of `rest` the step turns `x` into something that does not start with `y`. */
  ghost predicate Breaks(step: Step, x: string, y: string, rest: string) {
    Apart(Sub(step, x + rest), y)
  }

  lemma NotBoth(step: Step, x: string, y: string, rest: string)
    requires Breaks(step, x, y, rest)
    ensures !Maps(step, x, y, rest)
  {
    hide Sub;
  }

  lemma BreaksFirst(step: Step, x: string, x': string, y: string, y': string, rest: string)
    requires Breaks(step, x, x', y + rest)
    ensures Breaks(step, x + y, x' + y', rest)
  {
    hide Sub;
    assert (x + y) + rest == x + (y + rest);
    ApartBack(Sub(step, x + (y + rest)), x', y');
  }

  lemma BreaksSecond(step: Step, x: string, x': string, y: string, y': string, rest: string)
    requires Maps(step, x, x', y + rest) && Breaks(step, y, y', rest)
    ensures Breaks(step, x + y, x' + y', rest)
  {
    hide Sub;
    assert (x + y) + rest == x + (y + rest);
    ApartFront(x', Sub(step, y + rest), y');
  }

  /** A text that is right, then one that breaks, then anything. */
  lemma BreaksInside(step: Step, head: string, head': string, x: string, x': string, y: string, y': string,
                     rest: string)
    requires Maps(step, head, head', x + (y + rest)) && Breaks(step, x, x', y + rest)
    ensures Breaks(step, head + x + y, head' + x' + y', rest)
  {
    hide Maps, Breaks;
    BreaksSecond(step, head, head', x, x', y + rest);
    BreaksFirst(step, head + x, head' + x', y, y', rest);
  }

  // ---------- expressions ----------

  /** What the step reads wrongly. */
  predicate Misread(step: Step, e: Expr) {
    (step == Loads && !NamesClear(e)) || (step == Wholes && NamesClear(e) && !SignsClear(e))
  }

  ghost predicate Broken(step: Step, e: Expr, rest: string) {
    Breaks(step, PrintE(e), PrintE(TakeE(step, e)), rest)
  }

  lemma {:induction false} MisreadBreaks(step: Step, e: Expr, rest: string)
    requires GoodE(e) && Misread(step, e) && (step == Wholes ==> ';' in rest)
    ensures Broken(step, e, rest)
    decreases e
  {
    hide Broken, PrintE, TakeE, Piece, Operator, Letters;
    match e
    case Infix(l, op, r) =>
      if Misread(step, l) { MisreadBreaks(step, l, op + (PrintE(r) + rest)); }
      if Misread(step, r) { MisreadBreaks(step, r, rest); }
      BrokenInfix(step, l, op, r, rest);
    case Paren(a) =>
      MisreadBreaks(step, a, ")" + rest);
      BrokenParen(step, a, rest);
    case Call(f, a) =>
      MisreadBreaks(step, a, ")" + rest);
      BrokenCall(step, f, a, rest);
    case Read(n, i) =>
      if n[|n| - 1] == 'j' && step == Loads {
        BrokenName(n, i, rest);
      } else {
        MisreadBreaks(step, i, "]" + rest);
        BrokenRead(step, n, i, rest);
      }
    case Member(a, f) =>
      MisreadBreaks(step, a, "." + f + rest);
      BrokenMember(step, a, f, rest);
    case Pair(l, r) =>
      if Misread(step, l) { MisreadBreaks(step, l, "," + (PrintE(r) + (")" + rest))); }
      if Misread(step, r) { MisreadBreaks(step, r, ")" + rest); }
      BrokenPair(step, l, r, rest);
    case Garbled(a, _) => ClearParts(a);
  }

  lemma ClearParts(a: Expr)
    requires a.Part? || (a.Pair? && a.l.Part? && a.r.Part?)
    ensures NamesClear(a) && SignsClear(a)
  {
    if a.Pair? { assert NamesClear(a.l) && SignsClear(a.l) && NamesClear(a.r) && SignsClear(a.r); }
  }

  lemma BrokenParen(step: Step, a: Expr, rest: string)
    requires Broken(step, a, ")" + rest)
    ensures Broken(step, Paren(a), rest)
  {
    hide Maps, Breaks, Still;
    StillMarks();
    MapsStill(step, "(", PrintE(a) + (")" + rest));
    BreaksInside(step, "(", "(", PrintE(a), PrintE(TakeE(step, a)), ")", ")", rest);
    assert TakeE(step, Paren(a)) == Paren(TakeE(step, a));
  }

  lemma BrokenCall(step: Step, f: string, a: Expr, rest: string)
    requires Piece(f) && Broken(step, a, ")" + rest)
    ensures Broken(step, Call(f, a), rest)
  {
    hide Maps, Breaks, Still, TakeE;
    StillCall(f);
    MapsStill(step, f + "(", PrintE(a) + (")" + rest));
    BreaksInside(step, f + "(", f + "(", PrintE(a), PrintE(TakeE(step, a)), ")", ")", rest);
    TakeCall(step, f, a);
  }

  lemma BrokenRead(step: Step, n: string, i: Expr, rest: string)
    requires Word(n) && n[|n| - 1] != 'j' && Broken(step, i, "]" + rest)
    ensures Broken(step, Read(n, i), rest)
  {
    hide Maps, Breaks, TakeE;
    MapsBracket(step, n, PrintE(i) + ("]" + rest));
    BreaksInside(step, n + "[", n + "[", PrintE(i), PrintE(TakeE(step, i)), "]", "]", rest);
    TakeRead(step, n, i);
  }

  lemma BrokenMember(step: Step, a: Expr, f: string, rest: string)
    requires !a.Elem? && Broken(step, a, "." + f + rest)
    ensures Broken(step, Member(a, f), rest)
  {
    hide Breaks;
    var x, x' := PrintE(a), PrintE(TakeE(step, a));
    BreaksFirst(step, x, x', "." + f, "." + f, rest);
    assert TakeE(step, Member(a, f)) == Member(TakeE(step, a), f);
    assert x + ("." + f) == x + "." + f && x' + ("." + f) == x' + "." + f;
  }

  lemma BrokenPair(step: Step, l: Expr, r: Expr, rest: string)
    requires GoodE(Pair(l, r)) && Misread(step, Pair(l, r))
    requires Misread(step, l) ==> Broken(step, l, "," + (PrintE(r) + (")" + rest)))
    requires Misread(step, r) ==> Broken(step, r, ")" + rest)
    ensures Broken(step, Pair(l, r), rest)
  {
    hide Breaks, Broken, Misread, PrintE, TakeE, Clear;
    PairMisread(step, l, r);
    if Misread(step, l) {
      BrokenLeft(step, l, r, rest);
    } else {
      SubE(step, l, "," + (PrintE(r) + (")" + rest)));
      BrokenRight(step, l, r, rest);
    }
  }

  lemma BrokenLeft(step: Step, l: Expr, r: Expr, rest: string)
    requires Broken(step, l, "," + (PrintE(r) + (")" + rest)))
    ensures Broken(step, Pair(l, r), rest)
  {
    hide Maps, Breaks, Still, TakeE, PrintE;
    TakePair(step, l, r);
    PairText(l, r);
    PairText(TakeE(step, l), TakeE(step, r));
    StillMarks();
    var v, x, x' := "vec2<f32>(", PrintE(l), PrintE(TakeE(step, l));
    var z, z' := "," + (PrintE(r) + ")"), "," + (PrintE(TakeE(step, r)) + ")");
    assert z + rest == "," + (PrintE(r) + (")" + rest));
    MapsStill(step, v, x + (z + rest));
    BreaksInside(step, v, v, x, x', z, z', rest);
    Behind(v + x, PrintE(r));
    Behind(v + x', PrintE(TakeE(step, r)));
  }

  lemma Behind(head: string, y: string)
    ensures head + ("," + (y + ")")) == head + "," + y + ")"
  {}

  lemma BrokenRight(step: Step, l: Expr, r: Expr, rest: string)
    requires Right(step, l, "," + (PrintE(r) + (")" + rest))) && Broken(step, r, ")" + rest)
    ensures Broken(step, Pair(l, r), rest)
  {
    hide Maps, Breaks, Still, TakeE, PrintE;
    TakePair(step, l, r);
    PairText(l, r);
    PairText(TakeE(step, l), TakeE(step, r));
    StillMarks();
    var v, x, x', y, y' := "vec2<f32>(", PrintE(l), PrintE(TakeE(step, l)), PrintE(r), PrintE(TakeE(step, r));
    MapsStill(step, v, x + ("," + (y + (")" + rest))));
    MapsAround(step, v, v, x, x', ",", y + (")" + rest));
    BreaksInside(step, v + x + ",", v + x' + ",", y, y', ")", ")", rest);
  }

  lemma PairMisread(step: Step, l: Expr, r: Expr)
    requires Misread(step, Pair(l, r))
    ensures Misread(step, l) || (Clear(step, l) && Misread(step, r))
  {}

  // ---------- names that end in `j` ----------

  lemma {:induction false} StartsInside(e: Expr)
    requires GoodE(e) && e != Empty
    ensures PrintE(e) != "" && PrintE(e)[0] != ']'
  {
    match e
    case Infix(l, op, r) => if l != Empty { StartsInside(l); } else { assert PrintE(l) + op == op; }
    case Member(a, _) => StartsInside(a);
    case Garbled(a, _) => StartsInside(a);
    case _ =>
  }

  /** `obj[0]` becomes `obload_j(0)`. */
  lemma BrokenName(n: string, i: Expr, rest: string)
    requires GoodE(Read(n, i)) && n[|n| - 1] == 'j'
    ensures Broken(Loads, Read(n, i), rest)
  {
    hide Sub, PrintE, TakeE, MatchAt;
    StartsInside(i);
    var m := |n| - 1;
    var inside := PrintE(i) + ("]" + rest);
    var t := "j[" + inside;
    WordsLack(n);
    assert n == n[..m] + "j";
    assert PrintE(Read(n, i)) + rest == n[..m] + t by { ReadPrint(n, i); }
    SubSkip(Loads, n[..m], t);
    NameMatch(t, PrintE(i), rest);
    SubStep(Loads, t);
    TakeRead(Loads, n, i);
    ReadPrint(n, TakeE(Loads, i));
    ApartAt(Sub(Loads, PrintE(Read(n, i)) + rest), PrintE(TakeE(Loads, Read(n, i))), m);
  }

  lemma ReadPrint(n: string, i: Expr)
    ensures PrintE(Read(n, i)) == n + "[" + PrintE(i) + "]"
  {}

  lemma NameMatch(t: string, i: string, rest: string)
    requires t == "j[" + (i + ("]" + rest)) && i != "" && i[0] != ']'
    ensures var m := MatchAt(Loads, t); m.Some? && m.value.into != "" && m.value.into[0] == 'l'
  {
    hide IndexOf;
    assert t[0] == 'j' && t[1] == '[' && t[2] == i[0];
    assert t[2 + |i|] == ']';
    ByThere(t, ']', 2, 2 + |i|);
  }

  lemma {:induction false} ByThere(t: string, c: char, k: nat, p: nat)
    requires k <= p < |t| && t[p] == c
    ensures IndexOf(t, c, k) <= p
    decreases p - k
  {
    if t[k] != c { ByThere(t, c, k + 1, p); }
  }

  // ---------- comparisons ----------

  lemma BrokenInfix(step: Step, l: Expr, op: string, r: Expr, rest: string)
    requires GoodE(Infix(l, op, r)) && Misread(step, Infix(l, op, r)) && (step == Wholes ==> ';' in rest)
    requires Misread(step, l) ==> Broken(step, l, op + (PrintE(r) + rest))
    requires Misread(step, r) ==> Broken(step, r, rest)
    ensures Broken(step, Infix(l, op, r), rest)
  {
    hide Maps, Breaks, Still, PrintE, TakeE, NamesClear, SignsClear, Operator, Sub;
    InfixMisread(step, l, op, r);
    TakeInfix(step, l, op, r);
    InfixPrint(l, op, r);
    InfixPrint(TakeE(step, l), op, TakeE(step, r));
    OperatorStart(op);
    var x, x', y, y' := PrintE(l), PrintE(TakeE(step, l)), PrintE(r), PrintE(TakeE(step, r));
    if Misread(step, l) {
      assert op + (y + rest) == (op + y) + rest;
      BreaksFirst(step, x, x', op + y, op + y', rest);
      assert x + (op + y) == x + op + y && x' + (op + y') == x' + op + y';
    } else if step == Wholes && EndsInElem(l) && op[0] == '=' {
      BrokenSign(l, op, r, rest);
    } else {
      assert (op + (y + rest))[0] == op[0];
      SubE(step, l, op + (y + rest));
      assert Still(op) by { StillOperator(op); }
      MapsNext(step, x, x', op, y + rest);
      BreaksSecond(step, x + op, x' + op, y, y', rest);
    }
  }

  lemma InfixMisread(step: Step, l: Expr, op: string, r: Expr)
    requires GoodE(Infix(l, op, r)) && Misread(step, Infix(l, op, r))
    ensures || Misread(step, l)
            || (Clear(step, l) && step == Wholes && EndsInElem(l) && op[0] == '=')
            || (Clear(step, l) && Misread(step, r) && !(step == Wholes && EndsInElem(l) && op[0] == '='))
  {}

  lemma InfixPrint(l: Expr, op: string, r: Expr)
    ensures PrintE(Infix(l, op, r)) == PrintE(l) + op + PrintE(r)
  {}

  /** The text in front of the whole element at the end, and its index. */
  lemma {:induction false} LastElem(e: Expr, rest: string) returns (p: string, i: Expr)
    requires GoodE(e) && Clear(Wholes, e) && EndsInElem(e)
    ensures PrintE(e) == p + PrintE(Elem(i)) && GoodE(Elem(i)) && Maps(Wholes, p, p, PrintE(Elem(i)) + rest)
    decreases e
  {
    hide Maps, Still, PrintE, Operator, Sub;
    if e.Elem? {
      p, i := "", e.index;
      StillMarks();
      MapsStill(Wholes, "", PrintE(e) + rest);
      assert PrintE(e) == "" + PrintE(e);
    } else {
      var Infix(l, op, r) := e;
      var q;
      q, i := LastElem(r, rest);
      var tail := PrintE(Elem(i)) + rest;
      OperatorStart(op);
      assert (op + (q + tail))[0] == op[0];
      SubE(Wholes, l, op + (q + tail));
      assert Still(op) by { StillOperator(op); }
      MapsNext(Wholes, PrintE(l), PrintE(l), op, q + tail);
      MapsBoth(Wholes, PrintE(l) + op, PrintE(l) + op, q, q, tail);
      p := PrintE(l) + op + q;
      InfixPrint(l, op, r);
      assert PrintE(l) + op + (q + PrintE(Elem(i))) == p + PrintE(Elem(i));
    }
  }

  /** `j[0]==v` becomes `store_j(0,=v` up to the next `;`. */
  lemma BrokenSign(l: Expr, op: string, r: Expr, rest: string)
    requires GoodE(Infix(l, op, r)) && Clear(Wholes, l) && EndsInElem(l) && op[0] == '=' && ';' in rest
    ensures Broken(Wholes, Infix(l, op, r), rest)
  {
    hide Maps, Breaks, PrintE, Operator, NamesClear, SignsClear, GoodE;
    assert GoodE(l) && GoodE(r) && Operator(op) && r != Empty by { InfixParts(l, op, r); }
    var y := op + PrintE(r);
    var p, i := LastElem(l, y + rest);
    SeenElem(i, op, r, rest);
    var x := PrintE(Elem(i));
    BreaksSecond(Wholes, p, p, x, x, y + rest);
    BreaksFirst(Wholes, PrintE(l), PrintE(l), y, y, rest);
    InfixPrint(l, op, r);
    assert PrintE(l) + y == PrintE(l) + op + PrintE(r);
  }

  lemma InfixParts(l: Expr, op: string, r: Expr)
    requires GoodE(Infix(l, op, r))
    ensures GoodE(l) && GoodE(r) && Operator(op) && r != Empty
  {}

  lemma SeenElem(i: Expr, op: string, r: Expr, rest: string)
    requires GoodE(Elem(i)) && Operator(op) && op[0] == '=' && GoodE(r) && r != Empty && ';' in rest
    ensures Breaks(Wholes, PrintE(Elem(i)), PrintE(Elem(i)), op + PrintE(r) + rest)
  {
    hide PrintE, Operator, Sub, TailMatch, GoodE;
    assert Flat(i) && GoodE(i) by { ElemParts(i); }
    SomeText(r);
    NoSemicolon(r);
    LacksWords(op, ';');
    OperatorStart(op);
    FlatText(i);
    SeenStore(PrintE(i), op, PrintE(r), rest);
    SubElem(Wholes, PrintE(i), op + PrintE(r) + rest);
    ElemPrint(i);
    ApartAt(Sub(Wholes, PrintE(Elem(i)) + (op + PrintE(r) + rest)), PrintE(Elem(i)), 0);
  }

  /** The store pattern runs on to the next `;`. */
  lemma SeenStore(i: string, op: string, e: string, rest: string)
    requires op != "" && op[0] == '=' && Lacks(op, ';') && Lacks(e, ';') && e != "" && ';' in rest
    ensures var at := IndexOf(rest, ';', 0);
            var m := TailMatch(Wholes, i, op + e + rest);
            m.Some? && m.value.into == "store_j(" + i + "," + (op[1..] + e + rest[..at]) + ");"
  {
    hide IndexOf;
    var at := IndexOf(rest, ';', 0);
    assert at < |rest| by {
      var some :| 0 <= some < |rest| && rest[some] == ';';
      ByThere(rest, ';', 0, some);
    }
    EndsBehind(op + e, rest);
    var tail, end := op + e + rest, |op + e| + at;
    assert tail[1..end] == op[1..] + e + rest[..at];
  }

  lemma EndsBehind(x: string, rest: string)
    requires Lacks(x, ';') && |x| >= 1 && ';' in rest
    ensures IndexOf(x + rest, ';', 1) == |x| + IndexOf(rest, ';', 0)
  {
    hide IndexOf;
    var at := IndexOf(rest, ';', 0);
    assert rest[0..at] == rest[..at];
    assert forall m | 1 <= m < |x| + at :: (x + rest)[m] == if m < |x| then x[m] else rest[..at][m - |x|];
    FirstPlace(x + rest, ';', 1, |x| + at);
  }

  // ---------- statements ----------

  predicate MisreadSimple(step: Step, a: Simple) {
    (step == Loads && !NamesClearSimple(a)) || (step == Wholes && NamesClearSimple(a) && !SignsClearSimple(a))
  }

  ghost predicate BrokenSimple(step: Step, a: Simple, rest: string) {
    Breaks(step, PrintSimple(a), PrintSimple(TakeSimple(step, a)), rest)
  }

  lemma SimpleBreaks(step: Step, a: Simple, rest: string)
    requires GoodSimple(a) && MisreadSimple(step, a) && (step == Wholes ==> ';' in rest)
    ensures BrokenSimple(step, a, rest)
  {
    hide Broken, BrokenSimple, PrintE, GoodE, NamesClear, SignsClear, Operator, Word, Flat;
    match a
    case Nothing =>
    case Declare(k, x, op, e) =>
      MisreadBreaks(step, e, rest);
      BrokenDeclare(step, k, x, op, e, rest);
    case Assign(to, op, e) => BrokenAssign(step, to, op, e, rest);
    case Store(i, gap, e) =>
      FlatClear(i);
      MisreadBreaks(step, e, ")" + rest);
      BrokenStored(step, i, gap, e, rest);
    case Do(e) =>
      MisreadBreaks(step, e, rest);
      BrokenDo(step, e, rest);
  }

  lemma {:induction false} FlatClear(e: Expr)
    requires Flat(e)
    ensures NamesClear(e) && SignsClear(e) && !EndsInElem(e)
  {
    match e
    case Infix(l, _, r) =>
      if l != Empty { FlatClear(l); }
      FlatClear(r);
    case Paren(a) => FlatClear(a);
    case Call(_, a) => if a != Empty { FlatClear(a); }
    case Member(a, _) => FlatClear(a);
    case _ =>
  }

  lemma BrokenDeclare(step: Step, k: string, x: string, op: string, e: Expr, rest: string)
    requires Word(k) && Word(x) && Operator(op) && Broken(step, e, rest)
    ensures BrokenSimple(step, Declare(k, x, op, e), rest)
  {
    hide Maps, Breaks, PrintE, TakeE, Still;
    var head := k + " " + x + op;
    assert Still(head) by { StillDeclare(k, x, op); }
    MapsStill(step, head, PrintE(e) + rest);
    BreaksSecond(step, head, head, PrintE(e), PrintE(TakeE(step, e)), rest);
  }

  lemma BrokenDo(step: Step, e: Expr, rest: string)
    requires Broken(step, e, rest)
    ensures BrokenSimple(step, Do(e), rest)
  {
    hide Breaks, PrintE, TakeE;
  }

  lemma BrokenStored(step: Step, i: Expr, gap: string, e: Expr, rest: string)
    requires GoodSimple(Store(i, gap, e)) && Broken(step, e, ")" + rest)
    ensures BrokenSimple(step, Store(i, gap, e), rest)
  {
    hide Maps, Breaks, PrintE, TakeE, GoodE, Flat, Operator, Still;
    FlatTaken(step, i);
    var head := "store_j(" + PrintE(i) + "," + gap;
    assert Still(head) by { StillStore(i, gap); }
    MapsStill(step, head, PrintE(e) + (")" + rest));
    BreaksInside(step, head, head, PrintE(e), PrintE(TakeE(step, e)), ")", ")", rest);
  }

  lemma BrokenAssign(step: Step, to: Expr, op: string, e: Expr, rest: string)
    requires GoodSimple(Assign(to, op, e)) && MisreadSimple(step, Assign(to, op, e)) && (step == Wholes ==> ';' in rest)
    ensures BrokenSimple(step, Assign(to, op, e), rest)
  {
    hide Maps, Breaks, PrintE, TakeE, GoodE, Operator, NamesClear, SignsClear, Still, Postfix;
    OperatorStart(op);
    var x, x', y, y' := PrintE(to), PrintE(TakeE(step, to)), PrintE(e), PrintE(TakeE(step, e));
    if Misread(step, to) {
      MisreadBreaks(step, to, (op + y) + rest);
      BreaksFirst(step, x, x', op + y, op + y', rest);
      assert x + (op + y) == x + op + y && x' + (op + y') == x' + op + y';
    } else {
      MisreadBreaks(step, e, rest);
      assert Still(op) by { StillOperator(op); }
      var tail := op + (y + rest);
      assert tail[0] == op[0];
      if to.Elem? { RightTarget(step, to.index, tail); } else { RightPlace(step, to, tail); }
      MapsNext(step, x, x', op, y + rest);
      BreaksSecond(step, x + op, x' + op, y, y', rest);
    }
  }

  lemma RightPlace(step: Step, to: Expr, rest: string)
    requires Postfix(to) && !to.Elem? && GoodE(to) && Clear(step, to)
    requires rest != "" && rest[0] != '[' && !WordChar(rest[0])
    ensures Right(step, to, rest)
  {
    hide Right, GoodE, Clear;
    SubE(step, to, rest);
  }

  predicate MisreadIn(step: Step, s: Stmt) {
    (step == Loads && !NamesClearIn(s)) || (step == Wholes && NamesClearIn(s) && !SignsClearIn(s))
  }

  ghost predicate BrokenIn(step: Step, s: Stmt, rest: string) {
    Breaks(step, Print(s), Print(Take(step, s)), rest)
  }

  /** A misread program, whatever is printed behind it; for the stores with a `;` somewhere. */
  lemma {:induction false} StmtBreaks(step: Step, s: Stmt, rest: string)
    requires Good(s) && MisreadIn(step, s) && (step == Wholes ==> ';' in rest)
    ensures BrokenIn(step, s, rest)
    decreases s, 1
  {
    hide Print, BrokenIn, Good, MisreadIn;
    if s.Plain? || s.Return? {
      BrokenPlain(step, s, rest);
    } else if s.Seq? {
      BrokenSeq(step, s, rest);
    } else if s.If? || s.While? || s.Loop? {
      BrokenHeaded(step, s, rest);
    } else if s.IfElse? {
      BrokenElse(step, s, rest);
    } else if s.For? {
      BrokenFor(step, s, rest);
    } else {
      NothingMisread(step, s);
    }
  }

  lemma NothingMisread(step: Step, s: Stmt)
    requires s.Gap? || s.Break? || s.Continue?
    ensures !MisreadIn(step, s)
  {}

  lemma BrokenPlain(step: Step, s: Stmt, rest: string)
    requires (s.Plain? || s.Return?) && Good(s) && MisreadIn(step, s)
    ensures BrokenIn(step, s, rest)
  {
    hide Maps, Breaks, PrintE, PrintSimple, TakeE, TakeSimple, GoodE, GoodSimple, NamesClear, SignsClear,
         NamesClearSimple, SignsClearSimple, Still;
    assert (";" + rest)[0] == ';';
    if s.Plain? {
      SimpleBreaks(step, s.a, ";" + rest);
      BreaksFirst(step, PrintSimple(s.a), PrintSimple(TakeSimple(step, s.a)), ";", ";", rest);
    } else {
      var head := "return" + s.gap;
      MisreadBreaks(step, s.e, ";" + rest);
      assert Still(head) by { StillHeads(s.gap); }
      MapsStill(step, head, PrintE(s.e) + (";" + rest));
      BreaksInside(step, head, head, PrintE(s.e), PrintE(TakeE(step, s.e)), ";", ";", rest);
    }
  }

  lemma {:induction false} BrokenSeq(step: Step, s: Stmt, rest: string)
    requires s.Seq? && Good(s) && MisreadIn(step, s) && (step == Wholes ==> ';' in rest)
    ensures BrokenIn(step, s, rest)
    decreases s, 0
  {
    hide Maps, Breaks, Print;
    var a, b := s.first, s.second;
    var x, x', y, y' := Print(a), Print(Take(step, a)), Print(b), Print(Take(step, b));
    SeqPrint(a, b);
    SeqPrint(Take(step, a), Take(step, b));
    if MisreadIn(step, a) {
      StmtBreaks(step, a, y + rest);
      BreaksFirst(step, x, x', y, y', rest);
    } else {
      SubStmt(step, a, y + rest);
      StmtBreaks(step, b, rest);
      BreaksSecond(step, x, x', y, y', rest);
    }
  }

  lemma SeqPrint(a: Stmt, b: Stmt)
    ensures Print(Seq(a, b)) == Print(a) + Print(b)
  {}

  /** A head, a condition or not, and a body in braces. */
  lemma {:induction false} BrokenHeaded(step: Step, s: Stmt, rest: string)
    requires (s.If? || s.While? || s.Loop?) && Good(s) && MisreadIn(step, s) && (step == Wholes ==> ';' in rest)
    ensures BrokenIn(step, s, rest)
    decreases s, 0
  {
    hide Breaks, Maps, Print, PrintE, TakeE, GoodE, NamesClear, SignsClear, Still, Head, Broken, BrokenIn, Right,
         Blank, Take;
    StillHead(s);
    if s.Loop? {
      StmtBreaks(step, s.body, "}" + rest);
      BodyBreaks(step, Head(s), s.body, rest);
    } else if Misread(step, s.cond) {
      MisreadBreaks(step, s.cond, "){" + Print(s.body) + "}" + rest);
      CondBreaks(step, Head(s), s.cond, Print(s.body), Print(Take(step, s.body)), rest);
    } else {
      StmtBreaks(step, s.body, "}" + rest);
      SubMarked(step, s.cond, "){", Print(s.body) + ("}" + rest));
      LaterBreaks(step, Head(s), s.cond, s.body, rest);
    }
    BrokenPrint(step, s, rest);
  }

  lemma StillHead(s: Stmt)
    requires (s.If? || s.While? || s.Loop?) && Good(s)
    ensures Still(Head(s))
  {
    hide Still, GoodE;
    StillHeads(s.gap);
  }

  lemma BodyBreaks(step: Step, head: string, a: Stmt, rest: string)
    requires Still(head) && BrokenIn(step, a, "}" + rest)
    ensures Breaks(step, head + Print(a) + "}", head + Print(Take(step, a)) + "}", rest)
  {
    hide Breaks, Maps, Still, Print, Take;
    MapsStill(step, head, Print(a) + ("}" + rest));
    BreaksInside(step, head, head, Print(a), Print(Take(step, a)), "}", "}", rest);
  }

  lemma CondBreaks(step: Step, head: string, c: Expr, y: string, y': string, rest: string)
    requires Still(head) && Broken(step, c, "){" + y + "}" + rest)
    ensures Breaks(step, head + PrintE(c) + "){" + y + "}", head + PrintE(TakeE(step, c)) + "){" + y' + "}", rest)
  {
    hide Breaks, Maps, Still, PrintE, TakeE;
    var x, x', z, z' := PrintE(c), PrintE(TakeE(step, c)), "){" + y + "}", "){" + y' + "}";
    MapsStill(step, head, x + (z + rest));
    BreaksInside(step, head, head, x, x', z, z', rest);
    assert head + x + z == head + x + "){" + y + "}" && head + x' + z' == head + x' + "){" + y' + "}";
  }

  lemma LaterBreaks(step: Step, head: string, c: Expr, a: Stmt, rest: string)
    requires Still(head) && Right(step, c, "){" + (Print(a) + ("}" + rest))) && BrokenIn(step, a, "}" + rest)
    ensures Breaks(step, head + PrintE(c) + "){" + Print(a) + "}",
                   head + PrintE(TakeE(step, c)) + "){" + Print(Take(step, a)) + "}", rest)
  {
    hide Breaks, Maps, Still, PrintE, TakeE, Print, Take;
    FrontCond(step, head, c, Print(a) + ("}" + rest));
    BreaksInside(step, head + PrintE(c) + "){", head + PrintE(TakeE(step, c)) + "){", Print(a), Print(Take(step, a)),
                 "}", "}", rest);
  }

  lemma BrokenPrint(step: Step, s: Stmt, rest: string)
    requires s.If? || s.While? || s.Loop?
    requires s.Loop? ==> Breaks(step, Head(s) + Print(s.body) + "}", Head(s) + Print(Take(step, s.body)) + "}", rest)
    requires !s.Loop? ==>
               Breaks(step, Head(s) + PrintE(s.cond) + "){" + Print(s.body) + "}",
                      Head(s) + PrintE(TakeE(step, s.cond)) + "){" + Print(Take(step, s.body)) + "}", rest)
    ensures BrokenIn(step, s, rest)
  {
    hide Breaks, Print, PrintE, TakeE;
    HeadedPrint(s);
    HeadedPrint(Take(step, s));
  }

  function Head(s: Stmt): string
    requires s.If? || s.While? || s.Loop?
  {
    if s.Loop? then "loop" + s.gap + "{" else if s.If? then "if" + s.gap + "(" else "while" + s.gap + "("
  }

  lemma HeadedPrint(s: Stmt)
    requires s.If? || s.While? || s.Loop?
    ensures Print(s) == if s.Loop? then Head(s) + Print(s.body) + "}"
            else Head(s) + PrintE(s.cond) + "){" + Print(s.body) + "}"
  {
    hide PrintE;
  }

  lemma FrontCond(step: Step, head: string, c: Expr, behind: string)
    requires Still(head) && Right(step, c, "){" + behind)
    ensures Maps(step, head + PrintE(c) + "){", head + PrintE(TakeE(step, c)) + "){", behind)
  {
    hide Maps, Still, PrintE, TakeE;
    StillMarks();
    MapsStill(step, head, PrintE(c) + ("){" + behind));
    MapsAround(step, head, head, PrintE(c), PrintE(TakeE(step, c)), "){", behind);
  }

  lemma {:induction false} BrokenElse(step: Step, s: Stmt, rest: string)
    requires s.IfElse? && Good(s) && MisreadIn(step, s) && (step == Wholes ==> ';' in rest)
    ensures BrokenIn(step, s, rest)
    decreases s, 0
  {
    hide Maps, Breaks, Print, PrintE, TakeE, GoodE, NamesClear, SignsClear, Still, Right, Blank;
    StillHeads(s.gap);
    StillHeads(s.gap2);
    var t := Take(step, s);
    PrintElse(s.gap, s.cond, s.body, s.gap2, s.other);
    PrintElse(t.gap, t.cond, t.body, t.gap2, t.other);
    var head, word := "if" + s.gap + "(", "}" + s.gap2 + "else{";
    var x, x', y, y', w, w' :=
        PrintE(s.cond), PrintE(t.cond), Print(s.body), Print(t.body), Print(s.other), Print(t.other);
    if Misread(step, s.cond) {
      var z, z' := "){" + y + word + w + "}", "){" + y' + word + w' + "}";
      MisreadBreaks(step, s.cond, z + rest);
      MapsStill(step, head, x + (z + rest));
      BreaksInside(step, head, head, x, x', z, z', rest);
      ElseTexts(head, x, y, word, w);
      ElseTexts(head, x', y', word, w');
    } else if MisreadIn(step, s.body) {
      var z, z' := word + w + "}", word + w' + "}";
      StmtBreaks(step, s.body, z + rest);
      SubMarked(step, s.cond, "){", y + (z + rest));
      FrontCond(step, head, s.cond, y + (z + rest));
      BreaksInside(step, head + x + "){", head + x' + "){", y, y', z, z', rest);
      ElseTexts(head, x, y, word, w);
      ElseTexts(head, x', y', word, w');
    } else {
      StmtBreaks(step, s.other, "}" + rest);
      var tail := w + ("}" + rest);
      SubStmt(step, s.body, word + tail);
      SubMarked(step, s.cond, "){", y + (word + tail));
      FrontCond(step, head, s.cond, y + (word + tail));
      MapsAround(step, head + x + "){", head + x' + "){", y, y', word, tail);
      BreaksInside(step, head + x + "){" + y + word, head + x' + "){" + y' + word, w, w', "}", "}", rest);
    }
  }

  lemma ElseTexts(head: string, x: string, y: string, word: string, w: string)
    ensures head + x + ("){" + y + word + w + "}") == head + x + "){" + y + word + w + "}"
    ensures head + x + "){" + y + (word + w + "}") == head + x + "){" + y + word + w + "}"
  {}

  // ---------- the header of a `for` ----------

  lemma FrontInit(step: Step, init: Simple, behind: string)
    requires GoodSimple(init) && ClearSimple(step, init)
    ensures Maps(step, "for(" + PrintSimple(init) + ";", "for(" + PrintSimple(TakeSimple(step, init)) + ";", behind)
  {
    hide Maps, Still, GoodSimple, ClearSimple, PrintSimple, TakeSimple;
    StillMarks();
    assert (";" + behind)[0] == ';';
    SubSimple(step, init, ";" + behind);
    MapsStill(step, "for(", PrintSimple(init) + (";" + behind));
    MapsAround(step, "for(", "for(", PrintSimple(init), PrintSimple(TakeSimple(step, init)), ";", behind);
  }

  lemma FrontTest(step: Step, init: Simple, c: Expr, behind: string)
    requires GoodSimple(init) && ClearSimple(step, init) && GoodE(c) && Clear(step, c)
    ensures Maps(step, "for(" + PrintSimple(init) + ";" + PrintE(c) + ";",
                 "for(" + PrintSimple(TakeSimple(step, init)) + ";" + PrintE(TakeE(step, c)) + ";", behind)
  {
    hide Maps, Still, GoodSimple, ClearSimple, PrintSimple, TakeSimple, GoodE, Clear, PrintE, TakeE;
    StillMarks();
    FrontInit(step, init, PrintE(c) + (";" + behind));
    SubMarked(step, c, ";", behind);
    MapsAround(step, "for(" + PrintSimple(init) + ";", "for(" + PrintSimple(TakeSimple(step, init)) + ";",
               PrintE(c), PrintE(TakeE(step, c)), ";", behind);
  }

  lemma FrontUpdate(step: Step, init: Simple, c: Expr, update: Simple, behind: string)
    requires GoodSimple(init) && ClearSimple(step, init) && GoodE(c) && Clear(step, c)
    requires GoodSimple(update) && ClearSimple(step, update) && (step == Wholes ==> !IsStore(update))
    ensures Maps(step, "for(" + PrintSimple(init) + ";" + PrintE(c) + ";" + PrintSimple(update) + "){",
                 "for(" + PrintSimple(TakeSimple(step, init)) + ";" + PrintE(TakeE(step, c)) + ";" +
                 PrintSimple(TakeSimple(step, update)) + "){", behind)
  {
    hide Maps, Still, GoodSimple, ClearSimple, PrintSimple, TakeSimple, GoodE, Clear, PrintE, TakeE, IsStore;
    StillMarks();
    assert ("){" + behind)[0] == ')';
    FrontTest(step, init, c, PrintSimple(update) + ("){" + behind));
    SubSimple(step, update, "){" + behind);
    MapsAround(step, "for(" + PrintSimple(init) + ";" + PrintE(c) + ";",
               "for(" + PrintSimple(TakeSimple(step, init)) + ";" + PrintE(TakeE(step, c)) + ";",
               PrintSimple(update), PrintSimple(TakeSimple(step, update)), "){", behind);
  }

  lemma {:induction false} BrokenFor(step: Step, s: Stmt, rest: string)
    requires s.For? && Good(s) && MisreadIn(step, s) && (step == Wholes ==> ';' in rest)
    ensures BrokenIn(step, s, rest)
    decreases s, 0
  {
    hide BrokenIn, Print, GoodE, GoodSimple, NamesClear, SignsClear, NamesClearSimple, SignsClearSimple, IsStore;
    if MisreadSimple(step, s.init) || Misread(step, s.cond) || MisreadSimple(step, s.update) {
      BrokenHeader(step, s, rest);
    } else if step == Wholes && IsStore(s.update) {
      BrokenUpdate(s, rest);
    } else {
      StmtBreaks(step, s.body, "}" + rest);
      BrokenBody(step, s, rest);
    }
  }

  lemma BrokenBody(step: Step, s: Stmt, rest: string)
    requires s.For? && BrokenIn(step, s.body, "}" + rest)
    requires GoodSimple(s.init) && ClearSimple(step, s.init) && GoodE(s.cond) && Clear(step, s.cond)
    requires GoodSimple(s.update) && ClearSimple(step, s.update) && (step == Wholes ==> !IsStore(s.update))
    ensures BrokenIn(step, s, rest)
  {
    hide Maps, Breaks, Print, PrintE, TakeE, GoodE, PrintSimple, TakeSimple, GoodSimple, Clear, ClearSimple, IsStore,
         Take;
    ForPrints(step, s);
    var y, y' := Print(s.body), Print(Take(step, s.body));
    FrontUpdate(step, s.init, s.cond, s.update, y + ("}" + rest));
    BreaksInside(step, "for(" + PrintSimple(s.init) + ";" + PrintE(s.cond) + ";" + PrintSimple(s.update) + "){",
                 "for(" + PrintSimple(TakeSimple(step, s.init)) + ";" + PrintE(TakeE(step, s.cond)) + ";" +
                 PrintSimple(TakeSimple(step, s.update)) + "){", y, y', "}", "}", rest);
  }

  lemma ForPrints(step: Step, s: Stmt)
    requires s.For?
    ensures Print(s) == "for(" + PrintSimple(s.init) + ";" + PrintE(s.cond) + ";" + PrintSimple(s.update) + "){" +
                        Print(s.body) + "}"
    ensures Print(Take(step, s)) ==
            "for(" + PrintSimple(TakeSimple(step, s.init)) + ";" + PrintE(TakeE(step, s.cond)) + ";" +
            PrintSimple(TakeSimple(step, s.update)) + "){" + Print(Take(step, s.body)) + "}"
  {
    hide Print, PrintE, TakeE, PrintSimple, TakeSimple, Take;
    TakeFor(step, s.init, s.cond, s.update, s.body);
    PrintFor(s.init, s.cond, s.update, s.body);
    PrintFor(TakeSimple(step, s.init), TakeE(step, s.cond), TakeSimple(step, s.update), Take(step, s.body));
  }

  lemma BrokenHeader(step: Step, s: Stmt, rest: string)
    requires s.For? && Good(s) && MisreadIn(step, s) && (step == Wholes ==> ';' in rest)
    requires MisreadSimple(step, s.init) || Misread(step, s.cond) || MisreadSimple(step, s.update)
    ensures BrokenIn(step, s, rest)
  {
    hide Maps, Breaks, Print, PrintE, TakeE, GoodE, PrintSimple, TakeSimple, GoodSimple, NamesClear, SignsClear,
         NamesClearSimple, SignsClearSimple, IsStore, Take;
    ForPrints(step, s);
    var i, i', x, x' := PrintSimple(s.init), PrintSimple(TakeSimple(step, s.init)), PrintE(s.cond),
        PrintE(TakeE(step, s.cond));
    var u, u' := PrintSimple(s.update), PrintSimple(TakeSimple(step, s.update));
    var y, y' := Print(s.body), Print(Take(step, s.body));
    HeaderTexts(i, x, u, y);
    HeaderTexts(i', x', u', y');
    if MisreadSimple(step, s.init) {
      var z, z' := ";" + x + ";" + u + "){" + y + "}", ";" + x' + ";" + u' + "){" + y' + "}";
      SimpleBreaks(step, s.init, z + rest);
      MapsStill(step, "for(", i + (z + rest)) by { StillMarks(); }
      BreaksInside(step, "for(", "for(", i, i', z, z', rest);
    } else if Misread(step, s.cond) {
      var z, z' := ";" + u + "){" + y + "}", ";" + u' + "){" + y' + "}";
      MisreadBreaks(step, s.cond, z + rest);
      FrontInit(step, s.init, x + (z + rest));
      BreaksInside(step, "for(" + i + ";", "for(" + i' + ";", x, x', z, z', rest);
    } else {
      var z, z' := "){" + y + "}", "){" + y' + "}";
      SimpleBreaks(step, s.update, z + rest);
      FrontTest(step, s.init, s.cond, u + (z + rest));
      BreaksInside(step, "for(" + i + ";" + x + ";", "for(" + i' + ";" + x' + ";", u, u', z, z', rest);
    }
  }

  lemma HeaderTexts(i: string, x: string, u: string, y: string)
    ensures var all := "for(" + i + ";" + x + ";" + u + "){" + y + "}";
            && "for(" + i + (";" + x + ";" + u + "){" + y + "}") == all
            && "for(" + i + ";" + x + (";" + u + "){" + y + "}") == all
            && "for(" + i + ";" + x + ";" + u + ("){" + y + "}") == all
  {}

  /** `for(..;..;j[0]=v){` becomes `for(..;..;store_j(0,v){` up to the next `;`. */
  lemma BrokenUpdate(s: Stmt, rest: string)
    requires s.For? && Good(s) && NamesClearIn(s) && IsStore(s.update) && ';' in rest
    requires ClearSimple(Wholes, s.init) && Clear(Wholes, s.cond)
    ensures BrokenIn(Wholes, s, rest)
  {
    hide Maps, Breaks, Print, PrintE, GoodE, PrintSimple, GoodSimple, NamesClear, SignsClear,
         NamesClearSimple, SignsClearSimple, Take;
    ForPrints(Wholes, s);
    var i, i', x := PrintSimple(s.init), PrintSimple(TakeSimple(Wholes, s.init)), PrintE(s.cond);
    var u, u' := PrintSimple(s.update), PrintSimple(TakeSimple(Wholes, s.update));
    var y, y' := Print(s.body), Print(Take(Wholes, s.body));
    SeenUpdate(s.update, y + "}" + rest);
    assert (y + "}") + rest == y + "}" + rest;
    FrontTest(Wholes, s.init, s.cond, (u + "){") + ((y + "}") + rest));
    BreaksInside(Wholes, "for(" + i + ";" + x + ";", "for(" + i' + ";" + x + ";", u + "){", u' + "){", y + "}",
                 y' + "}", rest);
    UpdateTexts("for(" + i + ";" + x + ";", u, y);
    UpdateTexts("for(" + i' + ";" + x + ";", u', y');
  }

  lemma UpdateTexts(head: string, u: string, y: string)
    ensures head + (u + "){") + (y + "}") == head + u + "){" + y + "}"
  {}

  lemma SeenUpdate(a: Simple, rest: string)
    requires GoodSimple(a) && IsStore(a) && ';' in rest
    ensures Breaks(Wholes, PrintSimple(a) + "){", PrintSimple(TakeSimple(Wholes, a)) + "){", rest)
  {
    hide PrintE, GoodE, Operator, Flat, Sub, Apart;
    var Assign(Elem(i), op, e) := a;
    assert Flat(i) && GoodE(i) by { ElemParts(i); }
    FlatText(i);
    NoSemicolon(e);
    SomeText(e);
    LacksWords(op, ';');
    UpdateText(PrintE(i), op, PrintE(e), rest);
    ElemPrint(i);
  }

  lemma UpdateText(i: string, op: string, e: string, rest: string)
    requires i != "" && '[' !in i && ']' !in i && op != "" && op[0] == '=' && Lacks(op, ';')
    requires Lacks(e, ';') && e != "" && ';' in rest
    ensures Apart(Sub(Wholes, "j[" + i + "]" + op + e + "){" + rest), "store_j(" + i + "," + op[1..] + e + ")" + "){")
  {
    hide Sub, TailMatch, Lacks, Apart, IndexOf;
    var behind := "){" + rest;
    assert ';' in behind;
    SeenStore(i, op, e, behind);
    SubElem(Wholes, i, op + e + behind);
    ElemInFront(i, op, e, behind);
    assert "j[" + i + "]" + op + e + "){" + rest == "j[" + i + "]" + op + e + behind;
    var at := IndexOf(behind, ';', 0);
    UpdateStart(rest, at);
    var x := "store_j(" + i + "," + op[1..] + e;
    UpdateInto(i, op, e, behind[..at]);
    UpdateApart(x, behind[..at] + ");", Sub(Wholes, "j[" + i + "]" + op + e + "){" + rest));
    assert x + ")" + "){" == x + ")){";
  }

  lemma UpdateInto(i: string, op: string, e: string, more: string)
    requires op != ""
    ensures "store_j(" + i + "," + (op[1..] + e + more) + ");" == "store_j(" + i + "," + op[1..] + e + (more + ");")
  {
    var x, y := "store_j(" + i + ",", op[1..];
    assert x + (y + e + more) + ");" == x + y + e + (more + ");");
  }

  lemma UpdateStart(rest: string, at: nat)
    requires at <= |rest| + 2 && at == IndexOf("){" + rest, ';', 0) && ';' in rest
    ensures var more := ("){" + rest)[..at] + ");"; |more| > 1 && more[1] == '{'
  {
    hide IndexOf;
    var behind := "){" + rest;
    var some :| 0 <= some < |rest| && rest[some] == ';';
    assert behind[some + 2] == ';';
    ByThere(behind, ';', 0, some + 2);
    assert behind[0] == ')' && behind[1] == '{' && behind[at] == ';';
  }

  lemma UpdateApart(x: string, more: string, out: string)
    requires |more| > 1 && more[1] == '{' && x + more <= out
    ensures Apart(out, x + ")){")
  {
    ApartAt(out, x + ")){", |x| + 1);
  }

  // ---------- exactly the clear programs ----------

  /** Each step, on the text that the steps before it should have left, does to the text what it does to the tree. */
  ghost predicate StepsRight(order: seq<Step>, s: Stmt, rest: string) {
    order == [] || (RightIn(order[0], s, rest) && StepsRight(order[1..], Take(order[0], s), rest))
  }

  /** The store pattern runs while there are whole elements. */
  predicate SeesSigns(order: seq<Step>) {
    order != [] && (order[0] == Wholes || (order[0] != Loads && SeesSigns(order[1..])))
  }

  lemma {:induction false} NoMoreSigns(order: seq<Step>)
    requires Wholes !in order
    ensures !SeesSigns(order)
  {
    if order != [] { NoMoreSigns(order[1..]); }
  }

  lemma {:induction false} AllRight(order: seq<Step>, s: Stmt, rest: string)
    requires Good(s) && Distinct(order) && NamesClearIn(s) && (SeesSigns(order) ==> SignsClearIn(s))
    ensures StepsRight(order, s, rest)
  {
    hide Good, NamesClearIn, SignsClearIn, RightIn, Take;
    if order != [] {
      SubStmt(order[0], s, rest);
      Taken(order[0], s);
      if order[0] == Wholes { NoMoreSigns(order[1..]); }
      AllRight(order[1..], Take(order[0], s), rest);
    }
  }

  lemma {:induction false} SomeWrong(order: seq<Step>, s: Stmt, rest: string)
    requires Good(s) && Loads in order && ';' in rest
    requires !NamesClearIn(s) || (SeesSigns(order) && !SignsClearIn(s))
    ensures !StepsRight(order, s, rest)
  {
    hide Good, NamesClearIn, SignsClearIn, RightIn, Take;
    var step := order[0];
    if MisreadIn(step, s) {
      WrongStep(step, s, rest);
    } else {
      Taken(step, s);
      SomeWrong(order[1..], Take(step, s), rest);
    }
  }

  lemma WrongStep(step: Step, s: Stmt, rest: string)
    requires Good(s) && MisreadIn(step, s) && ';' in rest
    ensures !RightIn(step, s, rest)
  {
    hide Breaks, Maps, Print, Take;
    StmtBreaks(step, s, rest);
    NotBoth(step, Print(s), Print(Take(step, s)), rest);
  }

  /** All steps of an order are right if and only if no array's name ends in `j` and, when whole stores
      come before whole loads, nothing but a store statement looks like one. */
  lemma StepsExactly(order: seq<Step>, s: Stmt, rest: string)
    requires Good(s) && Distinct(order) && Loads in order && ';' in rest
    ensures StepsRight(order, s, rest) <==> NamesClearIn(s) && (SeesSigns(order) ==> SignsClearIn(s))
  {
    hide StepsRight, Good, NamesClearIn, SignsClearIn, SeesSigns;
    if NamesClearIn(s) && (SeesSigns(order) ==> SignsClearIn(s)) {
      AllRight(order, s, rest);
    } else {
      SomeWrong(order, s, rest);
    }
  }

  // ---------- outside the grammar ----------

  /** An index that reads an array ends too early: `j[a[0]]` becomes `load_j(a[0)]`. */
  lemma NestedIndexBreaks(a: string, i: string, rest: string)
    requires a != "" && ']' !in a && ']' !in i
    ensures Sub(Loads, "j[" + a + "[" + i + "]]" + rest) == "load_j(" + a + "[" + i + ")]" + Sub(Loads, rest)
  {
    hide Sub, IndexOf, MatchAt;
    var x := a + "[" + i;
    var t := "j[" + x + "]" + ("]" + rest);
    assert "j[" + a + "[" + i + "]]" + rest == t;
    ElemMatch(Loads, t, x, "]" + rest);
    SubStep(Loads, t);
    SubSkip(Loads, "]", rest);
    assert "load_j(" + x + ")" + ("]" + Sub(Loads, rest)) == "load_j(" + a + "[" + i + ")]" + Sub(Loads, rest);
  }

  /** The text of a shader that has a use for an added name is the text of an access to the added array. */
  lemma AddedNames(c: char, i: Expr)
    ensures PrintE(Read("j" + [c], i)) == PrintE(Part(c, i)) && PrintE(Call("load_j", i)) == PrintE(Load(i))
  {
    hide PrintE;
    CallPrint("load_j", i);
    ReadPrint("j" + [c], i);
    PartText(c, i);
  }

  lemma AddedStore(i: Expr, e: Expr)
    ensures PrintSimple(Do(Call("store_j", Infix(i, ",", e)))) == PrintSimple(Store(i, "", e))
  {
    hide PrintE;
    CallPrint("store_j", Infix(i, ",", e));
    InfixPrint(i, ",", e);
    Arguments(PrintE(i), PrintE(e));
  }

  lemma Arguments(i: string, e: string)
    ensures "store_j" + "(" + (i + "," + e) + ")" == "store_j(" + i + "," + "" + e + ")"
  {
    var x := "store_j(";
    assert "store_j" + "(" == x;
    Regroup(x, i + ",", e);
    Regroup(x, i, ",");
    assert x + i + "," + "" == x + i + ",";
  }

  lemma CallPrint(f: string, a: Expr)
    ensures PrintE(Call(f, a)) == f + "(" + PrintE(a) + ")"
  {}
}
