/** What the canonicalizer's output looks like, how it is counted, and how its programs end. */
module CanonicalizerLaws {
  import opened Outcomes
  import opened ShaderText
  import opened ShaderProgram
  import opened ShaderMeaning
  import opened CanonicalizerPrinting
  import opened CanonicalizerMeaning

  // ---------- running it twice ----------

  lemma {:induction false} CanonAgain(s: Stmt)
    ensures Canon(Canon(s)) == Canon(s) && Conversions(Canon(s)) == 0
  {
    hide MentionsContinue, Print;
    match s
    case Seq(a, b) => CanonAgain(a); CanonAgain(b);
    case Block(b) => CanonAgain(b);
    case If(_, b) => CanonAgain(b);
    case IfElse(_, a, b) => CanonAgain(a); CanonAgain(b);
    case Loop(b) => CanonAgain(b);
    case While(_, b) => CanonAgain(b);
    case For(_, init, c, update, _, b) =>
      CanonAgain(b);
      if !MentionsContinue(Print(Canon(b))) { BottomStays(init, c, update, Canon(b)); }
    case _ =>
  }

  lemma BottomStays(init: Simple, c: Expr, update: Simple, body: Stmt)
    requires Canon(body) == body && Conversions(body) == 0
    ensures Canon(Bottom(init, c, update, body)) == Bottom(init, c, update, body)
    ensures Conversions(Bottom(init, c, update, body)) == 0
  {
    var rest := Seq(body, Plain(update));
    var turn := Seq(Guard(c), rest);
    assert Canon(Guard(c)) == Guard(c) && Conversions(Guard(c)) == 0;
    assert Canon(rest) == rest && Conversions(rest) == 0;
    assert Canon(turn) == turn && Conversions(turn) == 0;
    var inside := Seq(Plain(init), Loop(turn));
    assert Canon(inside) == inside && Conversions(inside) == 0;
  }

  lemma {:induction false} CanonPrintable(s: Stmt)
    requires Printable(s)
    ensures Printable(Canon(s))
  {
    hide MentionsContinue, Print;
    match s
    case Seq(a, b) => CanonPrintable(a); CanonPrintable(b);
    case Block(b) => CanonPrintable(b);
    case If(_, b) => CanonPrintable(b);
    case IfElse(_, a, b) => CanonPrintable(a); CanonPrintable(b);
    case Loop(b) => CanonPrintable(b);
    case While(_, b) => CanonPrintable(b);
    case For(_, init, c, update, _, b) =>
      CanonPrintable(b);
      assert GoodExpr(Unary("!", Wrap("", '(', c)));
      var turn := Seq(Guard(c), Seq(Canon(b), Plain(update)));
      assert Printable(Guard(c)) && Printable(Seq(Canon(b), Plain(update)));
      assert Printable(turn) && Printable(Seq(Plain(init), Loop(turn)));
    case _ =>
  }

  /** The canonicalizer accepts its own output, converts nothing more and changes no token;
      the output's brackets are balanced. */
  lemma RewriteAgain(s: Stmt)
    requires Printable(s)
    ensures RewriteFrom(Print(s), 0).Success?
    ensures var out := RewriteFrom(Print(s), 0).value.text;
            RewriteFrom(out, 0) == Success(Rewritten(out, 0)) && Balanced(out)
  {
    hide RewriteFrom, Print, Canon, Conversions;
    RewritePrinted(s);
    CanonPrintable(s);
    RewritePrinted(Canon(s));
    CanonAgain(s);
    BalancedPrint(Canon(s));
  }

  // ---------- what is left ----------

  /** Every `for` still in the program has `continue` in its body's text. */
  ghost predicate OnlyContinuing(s: Stmt) {
    match s
    case Seq(a, b) => OnlyContinuing(a) && OnlyContinuing(b)
    case Block(b) => OnlyContinuing(b)
    case If(_, b) => OnlyContinuing(b)
    case IfElse(_, a, b) => OnlyContinuing(a) && OnlyContinuing(b)
    case Loop(b) => OnlyContinuing(b)
    case While(_, b) => OnlyContinuing(b)
    case For(_, _, _, _, _, b) => MentionsContinue(Print(b)) && OnlyContinuing(b)
    case _ => true
  }

  lemma {:induction false} RemainingContinue(s: Stmt)
    ensures OnlyContinuing(Canon(s))
  {
    hide MentionsContinue, Print;
    match s
    case Seq(a, b) => RemainingContinue(a); RemainingContinue(b);
    case Block(b) => RemainingContinue(b);
    case If(_, b) => RemainingContinue(b);
    case IfElse(_, a, b) => RemainingContinue(a); RemainingContinue(b);
    case Loop(b) => RemainingContinue(b);
    case While(_, b) => RemainingContinue(b);
    case For(_, init, c, update, _, b) =>
      RemainingContinue(b);
      var turn := Seq(Guard(c), Seq(Canon(b), Plain(update)));
      assert OnlyContinuing(Guard(c)) && OnlyContinuing(Seq(Canon(b), Plain(update)));
      assert OnlyContinuing(turn) && OnlyContinuing(Seq(Plain(init), Loop(turn)));
    case _ =>
  }

  /** Where such a program does not mention `continue`, no `for` is left. */
  lemma {:induction false} ConvertedHoldNoFor(s: Stmt)
    requires Printable(s) && OnlyContinuing(s) && !MentionsContinue(Print(s))
    ensures NoFor(Print(s))
  {
    hide MentionsContinue, Print, PrintExpr, PrintSimple, Header;
    QuietParts(s);
    match s
    case Seq(a, b) => ConvertedHoldNoFor(a); ConvertedHoldNoFor(b); PrintSeq(a, b);
    case Block(_) => ConvertedHoldNoFor(s.body); PrintAround(s);
    case If(_, _) => ConvertedHoldNoFor(s.body); PrintAround(s);
    case Loop(_) => ConvertedHoldNoFor(s.body); PrintAround(s);
    case While(_, _) => ConvertedHoldNoFor(s.body); PrintAround(s);
    case IfElse(c, a, b) => ConvertedHoldNoFor(a); ConvertedHoldNoFor(b); PrintElse(s);
    case For(_, _, _, _, _, _) =>
      assert false;
    case _ => NoForAtom(s);
  }

  /** A converted loop holds no `for`, not even one in its body. */
  lemma ConvertedLoopHoldsNoFor(s: Stmt)
    requires s.For? && Printable(s) && !MentionsContinue(Print(Canon(s.body)))
    ensures NoFor(Print(Canon(s)))
  {
    hide MentionsContinue, Print, PrintExpr, PrintSimple, Balanced, OnlyContinuing, Bottom;
    RemainingContinue(s.body);
    CanonPrintable(s.body);
    ConvertedHoldNoFor(Canon(s.body));
    SegmentSimple(s.init);
    SegmentExpr(s.cond);
    SegmentSimple(s.update);
    PrintBottom(s.init, s.cond, s.update, Canon(s.body));
  }

  lemma PrintSeq(a: Stmt, b: Stmt)
    ensures Print(Seq(a, b)) == Print(a) + Print(b)
  {}

  // ---------- counting ----------

  ghost function Tally(text: Text, word: string): nat {
    multiset(text)[Word(word)]
  }

  lemma TallyConcat(x: Text, y: Text, word: string)
    ensures Tally(x + y, word) == Tally(x, word) + Tally(y, word)
  {}

  lemma Tally3(x: Text, y: Text, z: Text, word: string)
    ensures Tally(x + y + z, word) == Tally(x, word) + Tally(y, word) + Tally(z, word)
  {
    TallyConcat(x + y, z, word);
    TallyConcat(x, y, word);
  }

  function Times(n: nat, counted: bool): nat {
    if counted then n else 0
  }

  /** The words of the text a converted loop becomes. */
  predicate Added(word: string) {
    word in {"loop", "if", "break"}
  }

  /** Each conversion removes one `for` and adds one `loop`, one `if` and one `break`; every other
      word keeps its number. */
  lemma {:induction false} EachCountedOnce(s: Stmt, word: string)
    requires Printable(s)
    ensures Tally(Print(Canon(s)), word) + Times(Conversions(s), word == "for") ==
            Tally(Print(s), word) + Times(Conversions(s), Added(word))
  {
    hide MentionsContinue, Tally, PrintExpr, PrintSimple, Header, Added;
    match s
    case Seq(a, b) =>
      EachCountedOnce(a, word); EachCountedOnce(b, word);
      CountSeq(a, b, word);
    case Block(b) => EachCountedOnce(b, word); CountInside(s, word);
    case If(_, b) => EachCountedOnce(b, word); CountInside(s, word);
    case Loop(b) => EachCountedOnce(b, word); CountInside(s, word);
    case While(_, b) => EachCountedOnce(b, word); CountInside(s, word);
    case IfElse(_, a, b) =>
      EachCountedOnce(a, word); EachCountedOnce(b, word);
      CountElse(s, word);
    case For(_, _, _, _, _, b) =>
      EachCountedOnce(b, word);
      CountLoop(s, word);
    case _ =>
  }

  lemma CountSeq(a: Stmt, b: Stmt, word: string)
    ensures Tally(Print(Seq(a, b)), word) == Tally(Print(a), word) + Tally(Print(b), word)
    ensures Tally(Print(Canon(Seq(a, b))), word) == Tally(Print(Canon(a)), word) + Tally(Print(Canon(b)), word)
  {
    hide Tally;
    TallyConcat(Print(a), Print(b), word);
    TallyConcat(Print(Canon(a)), Print(Canon(b)), word);
  }

  lemma CountInside(s: Stmt, word: string)
    requires s.Block? || s.If? || s.Loop? || s.While?
    ensures Tally(Print(Canon(s)), word) + Tally(Print(s.body), word) ==
            Tally(Print(s), word) + Tally(Print(Canon(s.body)), word)
  {
    hide Tally, PrintExpr;
    Tally3(HeadOf(s), Print(s.body), [Punct('}')], word);
    Tally3(HeadOf(s), Print(Canon(s.body)), [Punct('}')], word);
    assert Print(Canon(s)) == HeadOf(s) + Print(Canon(s.body)) + [Punct('}')];
  }

  lemma CountElse(s: Stmt, word: string)
    requires s.IfElse? && Printable(s)
    ensures Tally(Print(Canon(s)), word) + Tally(Print(s.body), word) + Tally(Print(s.other), word) ==
            Tally(Print(s), word) + Tally(Print(Canon(s.body)), word) + Tally(Print(Canon(s.other)), word)
  {
    hide Tally, Print, Canon, ElseHead, NoFor;
    PrintElse(s);
    TallyFive(ElseHead(s), Print(s.body), ELSE, Print(s.other), [Punct('}')], word);
    TallyFive(ElseHead(s), Print(Canon(s.body)), ELSE, Print(Canon(s.other)), [Punct('}')], word);
  }

  lemma TallyFive(a: Text, b: Text, c: Text, d: Text, e: Text, word: string)
    ensures Tally(a + b + c + d + e, word) ==
            Tally(a, word) + Tally(b, word) + Tally(c, word) + Tally(d, word) + Tally(e, word)
  {
    hide Tally;
    Tally3(a, b, c, word);
    Tally3(a + b + c, d, e, word);
  }

  /** A loop kept keeps its words; a loop converted trades `for` for the words added. */
  lemma CountLoop(s: Stmt, word: string)
    requires s.For? && Blank(s.gap) && Blank(s.gap2)
    ensures var n := if MentionsContinue(Print(Canon(s.body))) then 0 else 1;
            Tally(Print(Canon(s)), word) + Tally(Print(s.body), word) + Times(n, word == "for") ==
            Tally(Print(s), word) + Tally(Print(Canon(s.body)), word) + Times(n, Added(word))
  {
    hide Added, Tally, Print, PrintExpr, PrintSimple, Header, MentionsContinue, Bottom;
    TallyBlank(s.gap, word); TallyBlank(s.gap2, word);
    CountFor(s, s.body, word);
    CountFor(s, Canon(s.body), word);
    assert s == WithBody(s, s.body);
    if MentionsContinue(Print(Canon(s.body))) {
      assert Canon(s) == WithBody(s, Canon(s.body));
    } else {
      assert Canon(s) == Bottom(s.init, s.cond, s.update, Canon(s.body));
      CountBottom(s.init, s.cond, s.update, Canon(s.body), word);
    }
  }

  lemma TallyBlank(x: Text, word: string)
    requires Blank(x)
    ensures Tally(x, word) == 0
  {
    assert Word(word) !in x;
  }

  lemma CountFor(s: Stmt, b: Stmt, word: string)
    requires s.For?
    ensures Tally(Print(WithBody(s, b)), word) ==
            Times(1, word == "for") + Tally(s.gap, word) + Tally(PrintSimple(s.init), word)
            + Tally(PrintExpr(s.cond), word) + Tally(PrintSimple(s.update), word) + Tally(s.gap2, word)
            + Tally(Print(b), word)
  {
    hide Tally, PrintExpr, PrintSimple;
    var h := Header(s.init, s.cond, s.update);
    var x: Text, y: Text, z: Text := [FOR], [Punct('(')], [Punct(')')];
    var open: Text, close: Text := [Punct('{')], [Punct('}')];
    TallyWords(word);
    Tally3(x, s.gap, y, word); Tally3(x + s.gap + y, h, z, word);
    Tally3(x + s.gap + y + h + z, s.gap2, open, word);
    Tally3(x + s.gap + y + h + z + s.gap2 + open, Print(b), close, word);
    Tally3(PrintSimple(s.init), [Punct(';')], PrintExpr(s.cond), word);
    Tally3(PrintSimple(s.init) + [Punct(';')] + PrintExpr(s.cond), [Punct(';')], PrintSimple(s.update), word);
  }

  lemma TallyWords(word: string)
    ensures Tally([FOR], word) == Times(1, word == "for")
    ensures forall c :: Tally([Punct(c)], word) == 0
  {}

  lemma CountBottom(init: Simple, c: Expr, update: Simple, b: Stmt, word: string)
    ensures Tally(Print(Bottom(init, c, update, b)), word) ==
            Times(1, Added(word)) + Tally(PrintSimple(init), word) + Tally(PrintExpr(c), word)
            + Tally(PrintSimple(update), word) + Tally(Print(b), word)
  {
    hide Tally, Print, PrintExpr, PrintSimple, Bottom, Added;
    PrintBottom(init, c, update, b);
    var body := Print(b);
    var i, e, u := PrintSimple(init), PrintExpr(c), PrintSimple(update);
    var open: Text := [Punct('{')];
    var guard: Text := [Punct(';'), Word("loop"), Punct('{'), Word("if"), Punct('('), Punct('!'), Punct('(')];
    var stop: Text := [Punct(')'), Punct(')'), Punct('{'), Word("break"), Punct(';'), Punct('}')];
    var close: Text := [Punct(';'), Punct('}'), Punct('}')];
    TallyWords(word);
    TallyFrame(word);
    Tally3(open, i, guard, word);
    Tally3(open + i + guard, e, stop, word);
    Tally3(open + i + guard + e + stop, body, u, word);
    TallyConcat(open + i + guard + e + stop + body + u, close, word);
    assert BottomUpdated([i, e, u], body) == open + i + guard + e + stop + body + u + close;
  }

  lemma TallyFrame(word: string)
    ensures Tally([Punct(';'), Word("loop"), Punct('{'), Word("if"), Punct('('), Punct('!'), Punct('(')], word)
            + Tally([Punct(')'), Punct(')'), Punct('{'), Word("break"), Punct(';'), Punct('}')], word) ==
              Times(1, Added(word))
    ensures Tally([Punct(';'), Punct('}'), Punct('}')], word) == 0
  {
    hide Tally;
    var a: Text, b: Text, c: Text := [Punct(';')], [Punct('{')], [Punct('('), Punct('!'), Punct('(')];
    var d: Text, e: Text := [Punct(')'), Punct(')'), Punct('{')], [Punct(';'), Punct('}')];
    TallyMarks(a, word); TallyMarks(b, word); TallyMarks(c, word); TallyMarks(d, word); TallyMarks(e, word);
    TallyMarks([Punct(';'), Punct('}'), Punct('}')], word);
    TallyWord("loop", word); TallyWord("if", word); TallyWord("break", word);
    Tally3(a, [Word("loop")], b, word);
    Tally3(a + [Word("loop")] + b, [Word("if")], c, word);
    Tally3(d, [Word("break")], e, word);
    assert a + [Word("loop")] + b + [Word("if")] + c ==
           [Punct(';'), Word("loop"), Punct('{'), Word("if"), Punct('('), Punct('!'), Punct('(')];
    assert d + [Word("break")] + e == [Punct(')'), Punct(')'), Punct('{'), Word("break"), Punct(';'), Punct('}')];
  }

  lemma TallyMarks(x: Text, word: string)
    requires forall i | 0 <= i < |x| :: x[i].Punct?
    ensures Tally(x, word) == 0
  {
    assert Word(word) !in x;
  }

  lemma TallyWord(x: string, word: string)
    ensures Tally([Word(x)], word) == Times(1, word == x)
  {}

  // ---------- runs ----------

  /** The program ends from `st` with outcome `o`. */
  ghost predicate Yields<T(!new), M(!new)>(mc: Machine<T, M>, s: Stmt, st: State<T, M>, o: Outcome<T, M>) {
    !o.OutOfFuel? && exists fuel: nat :: Exec(mc, s, st, fuel) == o
  }

  lemma {:induction false} FuelMonotone<T, M>(mc: Machine<T, M>, s: Stmt, st: State<T, M>, low: nat, high: nat)
    requires low <= high && !Exec(mc, s, st, low).OutOfFuel?
    ensures Exec(mc, s, st, high) == Exec(mc, s, st, low)
    decreases high - low
  {
    if low < high {
      MoreFuel(mc, s, st, low);
      FuelMonotone(mc, s, st, low + 1, high);
    }
  }

  lemma OneOutcome<T(!new), M(!new)>(mc: Machine<T, M>, s: Stmt, st: State<T, M>, o: Outcome<T, M>, p: Outcome<T, M>)
    requires Yields(mc, s, st, o) && Yields(mc, s, st, p)
    ensures o == p
  {
    hide Exec;
    var f: nat :| Exec(mc, s, st, f) == o;
    var g: nat :| Exec(mc, s, st, g) == p;
    if f <= g { FuelMonotone(mc, s, st, f, g); } else { FuelMonotone(mc, s, st, g, f); }
  }

  /** The script end to end: what it writes for a printed program is the print of a program that
      ends in exactly the same ways, and does not end exactly when the original does not. */
  lemma ScriptKeepsMeaning<T(!new), M(!new)>(mc: Machine<T, M>, s: Stmt, st: State<T, M>)
    requires Printable(s) && Regular(s)
    ensures RewriteFrom(Print(s), 0).Success? && RewriteFrom(Print(s), 0).value.text == Print(Canon(s))
    ensures forall o :: Yields(mc, Canon(s), st, o) <==> Yields(mc, s, st, o)
  {
    hide Exec, RewriteFrom, Print, Canon, Conversions, Regular, Printable;
    RewritePrinted(s);
    forall fuel: nat ensures Exec(mc, Canon(s), st, fuel) == Exec(mc, s, st, fuel) {
      MeaningKept(mc, s, st, fuel);
    }
  }
}
