/** The token rewriter does to a printed program what `Canon` does to the program. */
module CanonicalizerPrinting {
  import opened Outcomes
  import opened ShaderText
  import opened ShaderProgram

  // ---------- brackets ----------

  /** The depth after reading `x` from depth `d`, or None when a bracket closes below zero. */
  ghost function After(x: Text, d: nat, left: char, right: char): Option<nat> {
    if x == [] then Some(d)
    else if x[0] == Punct(left) then After(x[1..], d + 1, left, right)
    else if x[0] == Punct(right) then if d == 0 then None else After(x[1..], d - 1, left, right)
    else After(x[1..], d, left, right)
  }

  ghost predicate Paired(left: char, right: char) {
    (left == '(' && right == ')') || (left == '{' && right == '}')
  }

  ghost predicate Balanced(x: Text) {
    After(x, 0, '(', ')') == Some(0) && After(x, 0, '{', '}') == Some(0)
  }

  lemma {:induction false} AfterConcat(x: Text, y: Text, d: nat, left: char, right: char)
    requires After(x, d, left, right).Some?
    ensures After(x + y, d, left, right) == After(y, After(x, d, left, right).value, left, right)
  {
    if x == [] {
      assert x + y == y;
    } else {
      assert (x + y)[1..] == x[1..] + y;
      var e := if x[0] == Punct(left) then d + 1 else if x[0] == Punct(right) then d - 1 else d;
      AfterConcat(x[1..], y, e, left, right);
    }
  }

  lemma {:induction false} AfterDeeper(x: Text, d: nat, left: char, right: char)
    requires After(x, d, left, right).Some?
    ensures After(x, d + 1, left, right) == Some(After(x, d, left, right).value + 1)
  {
    if x != [] {
      var e := if x[0] == Punct(left) then d + 1 else if x[0] == Punct(right) then d - 1 else d;
      AfterDeeper(x[1..], e, left, right);
    }
  }

  lemma {:induction false} MatchOver(t: Text, k: nat, n: nat, d: nat, left: char, right: char)
    requires k + n <= |t| && After(t[k..k + n], d, left, right).Some?
    ensures MatchFrom(t, k, d + 1, left, right) ==
            MatchFrom(t, k + n, After(t[k..k + n], d, left, right).value + 1, left, right)
    decreases n
  {
    if n > 0 {
      assert t[k..k + n][1..] == t[k + 1..k + 1 + (n - 1)];
      var e := if t[k] == Punct(left) then d + 1 else if t[k] == Punct(right) then d - 1 else d;
      MatchOver(t, k + 1, n - 1, e, left, right);
    }
  }

  lemma BalancedConcat(x: Text, y: Text)
    requires Balanced(x) && Balanced(y)
    ensures Balanced(x + y)
  {
    AfterConcat(x, y, 0, '(', ')');
    AfterConcat(x, y, 0, '{', '}');
  }

  lemma BalancedWrap(left: char, x: Text, right: char)
    requires Balanced(x) && (Paired(left, right) || (left == '[' && right == ']'))
    ensures Balanced([Punct(left)] + x + [Punct(right)])
  {
    var whole := [Punct(left)] + x + [Punct(right)];
    assert whole == [Punct(left)] + (x + [Punct(right)]);
    assert whole[1..] == x + [Punct(right)];
    forall l, r | Paired(l, r) ensures After(whole, 0, l, r) == Some(0) {
      var d := if l == left then 1 else 0;
      if l == left { AfterDeeper(x, 0, l, r); }
      AfterConcat(x, [Punct(right)], d, l, r);
      assert [Punct(right)][1..] == [];
    }
    assert Paired('(', ')') && Paired('{', '}');
  }

  ghost predicate Free(x: Text) {
    forall i | 0 <= i < |x| :: x[i].Punct? ==> x[i].c !in {'(', ')', '{', '}'}
  }

  lemma {:induction false} BalancedFree(x: Text)
    requires Free(x)
    ensures Balanced(x)
  {
    if x != [] { BalancedFree(x[1..]); }
  }

  // ---------- printed expressions and statements ----------

  ghost predicate NoFor(x: Text) { FOR !in x }

  ghost predicate NoSemicolon(x: Text) { Punct(';') !in x }

  ghost predicate Segment(x: Text) { Balanced(x) && NoFor(x) && NoSemicolon(x) }

  lemma SegmentConcat(x: Text, y: Text)
    requires Segment(x) && Segment(y)
    ensures Segment(x + y)
  {
    BalancedConcat(x, y);
  }

  lemma SegmentQuiet(x: Text)
    requires Quiet(x)
    ensures Segment(x)
  {
    BalancedFree(x);
  }

  lemma SegmentWord(x: string)
    requires Identifier(x) || Constant(x) || x !in KEYWORDS || x in {"let", "var", "const"}
    ensures Segment([Word(x)])
  {
    assert x != "for" by { NotFor(x); }
    SegmentQuiet([Word(x)]);
  }

  lemma NotFor(x: string)
    requires Identifier(x) || Constant(x) || x !in KEYWORDS || x in {"let", "var", "const"}
    ensures x != "for"
  {
    if x == "for" {
      assert x in KEYWORDS && x[0] == 'f' && |x| == 3;
    }
    assert "let"[0] != 'f' && "var"[0] != 'f' && "const"[0] != 'f' && "true"[0] != 'f' && |"false"| != 3;
  }

  lemma SegmentOp(op: string)
    requires UnaryOp(op) || BinaryOp(op) || AssignOp(op)
    ensures Segment(Chars(op))
  {
    PlainOp(op);
    SegmentQuiet(Chars(op));
  }

  lemma PlainOp(op: string)
    requires UnaryOp(op) || BinaryOp(op) || AssignOp(op)
    ensures PlainChars(op)
  {}

  lemma {:induction false} SegmentExpr(e: Expr)
    requires GoodExpr(e)
    ensures Segment(PrintExpr(e))
  {
    hide Segment, Identifier, Constant, UnaryOp, BinaryOp, Chars, KEYWORDS;
    match e
    case Unit => SegmentNothing();
    case Name(x) => SegmentWord(x);
    case Literal(w) => SegmentWord(w);
    case Unary(op, a) =>
      SegmentExpr(a); SegmentOp(op); SegmentConcat(Chars(op), PrintExpr(a));
    case Binary(l, op, r) =>
      SegmentExpr(l); SegmentExpr(r); SegmentOp(op);
      SegmentConcat(PrintExpr(l), Chars(op)); SegmentConcat(PrintExpr(l) + Chars(op), PrintExpr(r));
    case Wrap(head, b, a) =>
      SegmentExpr(a);
      SegmentWrapped(b, PrintExpr(a));
      var inner := [Punct(b)] + PrintExpr(a) + [Punct(Closing(b))];
      if head != "" {
        SegmentWord(head);
        SegmentConcat([Word(head)], inner);
      }
      assert PrintExpr(e) == (if head == "" then inner else [Word(head)] + inner);
    case Member(a, f) =>
      SegmentExpr(a); SegmentWord(f); SegmentDot();
      SegmentConcat(PrintExpr(a), [Punct('.')]); SegmentConcat(PrintExpr(a) + [Punct('.')], [Word(f)]);
      assert PrintExpr(a) + [Punct('.')] + [Word(f)] == PrintExpr(e);
  }

  lemma SegmentNothing()
    ensures Segment([])
  {
    SegmentQuiet([]);
  }

  lemma SegmentDot()
    ensures Segment([Punct('.')])
  {
    SegmentQuiet([Punct('.')]);
  }

  lemma SegmentWrapped(b: char, x: Text)
    requires b in {'(', '['} && Segment(x)
    ensures Segment([Punct(b)] + x + [Punct(Closing(b))])
  {
    BalancedWrap(b, x, Closing(b));
  }

  lemma SegmentSimple(s: Simple)
    requires GoodSimple(s)
    ensures Segment(PrintSimple(s))
  {
    hide Segment, Identifier, Constant, AssignOp, Chars, KEYWORDS;
    match s
    case Skip => SegmentNothing();
    case Decl(k, x, e) =>
      SegmentExpr(e); SegmentHead(k, x);
      SegmentConcat([Word(k), Space(' '), Word(x), Punct('=')], PrintExpr(e));
    case Assign(x, path, op, e) =>
      SegmentExpr(path); SegmentExpr(e); SegmentWord(x); SegmentOp(op);
      SegmentConcat([Word(x)], PrintExpr(path));
      SegmentConcat([Word(x)] + PrintExpr(path), Chars(op));
      SegmentConcat([Word(x)] + PrintExpr(path) + Chars(op), PrintExpr(e));
    case Do(e) => SegmentExpr(e);
  }

  lemma SegmentHead(k: string, x: string)
    requires k in {"let", "var", "const"} && Identifier(x)
    ensures Segment([Word(k), Space(' '), Word(x), Punct('=')])
  {
    NotFor(k);
    NotFor(x);
    SegmentQuiet([Word(k), Space(' '), Word(x), Punct('=')]);
  }

  lemma BalancedHeader(init: Simple, cond: Expr, update: Simple)
    requires GoodSimple(init) && GoodExpr(cond) && GoodSimple(update)
    ensures Balanced(Header(init, cond, update))
  {
    hide PrintSimple, PrintExpr, Balanced, GoodSimple, GoodExpr;
    var i, c, u, semi := PrintSimple(init), PrintExpr(cond), PrintSimple(update), [Punct(';')];
    SegmentSimple(init); SegmentExpr(cond); SegmentSimple(update); BalancedFree(semi);
    BalancedConcat(i, semi); BalancedConcat(i + semi, c);
    BalancedConcat(i + semi + c, semi); BalancedConcat(i + semi + c + semi, u);
  }

  /** `head {` body `}` */
  lemma BalancedBraces(head: Text, body: Text)
    requires Balanced(head) && Balanced(body)
    ensures Balanced(head + [Punct('{')] + body + [Punct('}')])
  {
    BalancedWrap('{', body, '}');
    BalancedConcat(head, [Punct('{')] + body + [Punct('}')]);
    assert head + ([Punct('{')] + body + [Punct('}')]) == head + [Punct('{')] + body + [Punct('}')];
  }

  /** `keyword (` inner `)` */
  lemma BalancedHead(head: Text, inner: Text)
    requires Free(head) && Balanced(inner)
    ensures Balanced(head + [Punct('(')] + inner + [Punct(')')])
  {
    BalancedFree(head);
    BalancedWrap('(', inner, ')');
    BalancedConcat(head, [Punct('(')] + inner + [Punct(')')]);
    assert head + ([Punct('(')] + inner + [Punct(')')]) == head + [Punct('(')] + inner + [Punct(')')];
  }

  lemma BalancedSemicolon(x: Text)
    requires Balanced(x)
    ensures Balanced(x + [Punct(';')])
  {
    BalancedFree([Punct(';')]);
    BalancedConcat(x, [Punct(';')]);
  }

  lemma BalancedConditional(keyword: string, cond: Expr, body: Text)
    requires GoodExpr(cond) && Balanced(body)
    ensures Balanced([Word(keyword), Punct('(')] + PrintExpr(cond) + [Punct(')'), Punct('{')] + body + [Punct('}')])
  {
    var c := PrintExpr(cond);
    SegmentExpr(cond);
    BalancedHead([Word(keyword)], c);
    var head := [Word(keyword)] + [Punct('(')] + c + [Punct(')')];
    BalancedBraces(head, body);
    assert head + [Punct('{')] + body + [Punct('}')] ==
           [Word(keyword), Punct('(')] + c + [Punct(')'), Punct('{')] + body + [Punct('}')];
  }

  lemma BalancedElse(first: Text, body: Text)
    requires Balanced(first) && Balanced(body)
    ensures Balanced(first + [Word("else"), Punct('{')] + body + [Punct('}')])
  {
    BalancedFree([Word("else")]);
    BalancedConcat(first, [Word("else")]);
    BalancedBraces(first + [Word("else")], body);
    assert first + [Word("else")] + [Punct('{')] + body + [Punct('}')] ==
           first + [Word("else"), Punct('{')] + body + [Punct('}')];
  }

  /** A loop statement's text up to its body. */
  ghost function ForHead(s: Stmt): Text
    requires s.For?
  {
    [FOR] + s.gap + [Punct('(')] + Header(s.init, s.cond, s.update) + [Punct(')')] + s.gap2 + [Punct('{')]
  }

  lemma BalancedFor(s: Stmt, body: Text)
    requires s.For? && Printable(s) && Balanced(body)
    ensures Balanced(ForHead(s) + body + [Punct('}')])
  {
    BalancedHeader(s.init, s.cond, s.update);
    BalancedHead([FOR] + s.gap, Header(s.init, s.cond, s.update));
    var head := [FOR] + s.gap + [Punct('(')] + Header(s.init, s.cond, s.update) + [Punct(')')];
    BalancedFree(s.gap2);
    BalancedConcat(head, s.gap2);
    BalancedBraces(head + s.gap2, body);
    assert head + s.gap2 + [Punct('{')] + body + [Punct('}')] == ForHead(s) + body + [Punct('}')];
  }

  lemma BalancedAtom(s: Stmt)
    requires Printable(s) && (s.Layout? || s.Plain? || s.Break? || s.Continue? || s.Return?)
    ensures Balanced(Print(s))
  {
    match s
    case Layout(text) => SegmentQuiet(text);
    case Plain(a) => SegmentSimple(a); BalancedSemicolon(PrintSimple(a));
    case Break => BalancedFree(Print(s));
    case Continue => BalancedFree(Print(s));
    case Return(e) =>
      SegmentExpr(e); BalancedFree([Word("return"), Space(' ')]);
      BalancedConcat([Word("return"), Space(' ')], PrintExpr(e));
      BalancedSemicolon([Word("return"), Space(' ')] + PrintExpr(e));
  }

  lemma BalancedIfElse(s: Stmt)
    requires s.IfElse? && GoodExpr(s.cond) && Balanced(Print(s.body)) && Balanced(Print(s.other))
    ensures Balanced(Print(s))
  {
    hide Balanced, PrintExpr;
    BalancedConditional("if", s.cond, Print(s.body));
    var first := [Word("if"), Punct('(')] + PrintExpr(s.cond) + [Punct(')'), Punct('{')] + Print(s.body) + [Punct('}')];
    BalancedElse(first, Print(s.other));
    assert first + [Word("else"), Punct('{')] + Print(s.other) + [Punct('}')] == Print(s);
  }

  lemma BalancedLoop(b: Stmt)
    requires Balanced(Print(b))
    ensures Balanced(Print(Loop(b)))
  {
    hide Balanced;
    BalancedFree([Word("loop")]);
    BalancedBraces([Word("loop")], Print(b));
    assert [Word("loop")] + [Punct('{')] + Print(b) + [Punct('}')] == Print(Loop(b));
  }

  lemma {:induction false} BalancedPrint(s: Stmt)
    requires Printable(s)
    ensures Balanced(Print(s))
  {
    hide Balanced, PrintExpr, PrintSimple;
    match s
    case Seq(a, b) => BalancedPrint(a); BalancedPrint(b); BalancedConcat(Print(a), Print(b));
    case Block(b) => BalancedPrint(b); BalancedWrap('{', Print(b), '}');
    case If(c, b) => BalancedPrint(b); BalancedConditional("if", c, Print(b));
    case IfElse(_, a, b) => BalancedPrint(a); BalancedPrint(b); BalancedIfElse(s);
    case Loop(b) => BalancedPrint(b); BalancedLoop(b);
    case While(c, b) => BalancedPrint(b); BalancedConditional("while", c, Print(b));
    case For(gap, init, c, update, gap2, b) => BalancedPrint(b); BalancedFor(s, Print(b));
    case _ => BalancedAtom(s);
  }

  // ---------- running over a printed program ----------

  /** `part` stands in `t` at position `k`. */
  ghost predicate At(t: Text, k: nat, part: Text) {
    k + |part| <= |t| && t[k..k + |part|] == part
  }

  lemma AtSplit(t: Text, k: nat, x: Text, y: Text)
    requires At(t, k, x + y)
    ensures At(t, k, x) && At(t, k + |x|, y)
  {
    assert t[k..k + |x|] == (x + y)[..|x|];
    assert t[k + |x|..k + |x| + |y|] == (x + y)[|x|..];
  }

  /** At position `k` of `t` stands `x`, and the rewrite turns it into `w` and goes on behind it. */
  ghost predicate Links(t: Text, k: nat, x: Text, w: Rewritten) {
    && At(t, k, x)
    && RewriteFrom(t, k) == Join(w, RewriteFrom(t, k + |x|))
  }

  lemma LinksConcat(t: Text, k: nat, x: Text, w: Rewritten, y: Text, v: Rewritten)
    requires Links(t, k, x, w) && Links(t, k + |x|, y, v)
    ensures Links(t, k, x + y, Rewritten(w.text + v.text, w.count + v.count))
  {
    hide RewriteFrom;
    JoinJoin(Rewritten([], 0), w, v, RewriteFrom(t, k + |x| + |y|));
    JoinNothing(Join(w, Join(v, RewriteFrom(t, k + |x| + |y|))));
    assert [] + (w.text + v.text) == w.text + v.text;
    assert t[k..k + |x + y|] == t[k..k + |x|] + t[k + |x|..k + |x| + |y|];
  }

  lemma {:induction false} FindOver(t: Text, k: nat, n: nat)
    requires k + n <= |t| && NoFor(t[k..k + n])
    ensures FindFor(t, k) == FindFor(t, k + n)
    decreases n
  {
    if n > 0 {
      assert t[k] == t[k..k + n][0];
      assert t[k + 1..k + 1 + (n - 1)] == t[k..k + n][1..];
      FindOver(t, k + 1, n - 1);
    }
  }

  lemma SliceJoin(t: Text, i: nat, j: nat, k: nat)
    requires i <= j <= k <= |t|
    ensures t[i..k] == t[i..j] + t[j..k]
  {}

  /** Text without `for` is copied. */
  lemma LinksQuiet(t: Text, k: nat, x: Text)
    requires At(t, k, x) && NoFor(x)
    ensures Links(t, k, x, Rewritten(x, 0))
  {
    hide RewriteFrom, FindFor, Join;
    FindOver(t, k, |x|);
    var start := FindFor(t, k + |x|);
    SliceJoin(t, k, k + |x|, |t|);
    SliceJoin(t, k, k + |x|, start);
    QuietStep(t, k, x, start);
  }

  lemma QuietStep(t: Text, k: nat, x: Text, start: nat)
    requires k + |x| <= |t| && start == FindFor(t, k) == FindFor(t, k + |x|)
    requires t[k..] == x + t[k + |x|..] && t[k..start] == x + t[k + |x|..start]
    ensures RewriteFrom(t, k) == Join(Rewritten(x, 0), RewriteFrom(t, k + |x|))
  {
    hide Split, SkipSpaces, MatchFrom, FindFor, ForAt, MentionsContinue, BottomUpdated;
    if start == |t| {
      NothingLeft(t, k);
      NothingLeft(t, k + |x|);
    } else {
      var located := Locate(t, start);
      if located.Failure? {
        StopHere(t, k, located.error);
        StopHere(t, k + |x|, located.error);
      } else {
        QuietSite(t, k, x, located.value);
      }
    }
  }

  lemma QuietSite(t: Text, k: nat, x: Text, site: Site)
    requires k + |x| <= |t| && site.start == FindFor(t, k) == FindFor(t, k + |x|) < |t|
    requires t[k..site.start] == x + t[k + |x|..site.start]
    requires Locate(t, site.start) == Success(site)
    ensures RewriteFrom(t, k) == Join(Rewritten(x, 0), RewriteFrom(t, k + |x|))
  {
    hide RewriteFrom, Locate, Split, SkipSpaces, MatchFrom, FindFor, ForAt, Replacement;
    var body := RewriteFrom(t[site.bodyStart + 1..site.bodyEnd], 0);
    if body.Failure? {
      StopHere(t, k, body.error);
      StopHere(t, k + |x|, body.error);
    } else {
      Unfold(t, k, site, body.value);
      Unfold(t, k + |x|, site, body.value);
      var between := Rewritten(t[k + |x|..site.start], 0);
      var after := Join(Replacement(t, site, body.value), RewriteFrom(t, site.bodyEnd + 1));
      JoinJoin(Rewritten([], 0), Rewritten(x, 0), between, after);
      JoinNothing(Join(Rewritten(x, 0), Join(between, after)));
      assert [] + (x + between.text) == x + between.text;
    }
  }

  // ---------- one loop statement in the text ----------

  lemma {:induction false} SkipOver(t: Text, k: nat, n: nat)
    requires k + n < |t| && Blank(t[k..k + n]) && !White(t[k + n])
    ensures SkipSpaces(t, k) == k + n
    decreases n
  {
    if n > 0 {
      assert t[k] == t[k..k + n][0];
      assert t[k + 1..k + 1 + (n - 1)] == t[k..k + n][1..];
      SkipOver(t, k + 1, n - 1);
    }
  }

  lemma SkipPast(t: Text, k: nat, gap: Text)
    requires At(t, k, gap) && Blank(gap) && k + |gap| < |t| && !White(t[k + |gap|])
    ensures SkipSpaces(t, k) == k + |gap|
  {
    hide SkipSpaces, Blank;
    SkipOver(t, k, |gap|);
  }

  lemma AtSlice(t: Text, k: nat, part: Text)
    requires At(t, k, part)
    ensures k + |part| <= |t| && t[k..k + |part|] == part
  {}

  lemma {:induction false} SplitFirst(x: Text, y: Text)
    requires NoSemicolon(x)
    ensures Split(x + [Punct(';')] + y) == [x] + Split(y)
  {
    var whole := x + [Punct(';')] + y;
    if x == [] {
      assert whole[1..] == y;
    } else {
      SplitFirst(x[1..], y);
      assert whole[1..] == x[1..] + [Punct(';')] + y;
      assert [x[0]] + x[1..] == x;
    }
  }

  lemma {:induction false} SplitNone(x: Text)
    requires NoSemicolon(x)
    ensures Split(x) == [x]
  {
    if x != [] {
      SplitNone(x[1..]);
      assert [x[0]] + x[1..] == x;
    }
  }

  lemma SplitHeader(init: Simple, cond: Expr, update: Simple)
    requires GoodSimple(init) && GoodExpr(cond) && GoodSimple(update)
    ensures Split(Header(init, cond, update)) == [PrintSimple(init), PrintExpr(cond), PrintSimple(update)]
  {
    hide PrintSimple, PrintExpr, Split, Balanced, GoodSimple, GoodExpr;
    var i, c, u, semi := PrintSimple(init), PrintExpr(cond), PrintSimple(update), [Punct(';')];
    SegmentSimple(init); SegmentExpr(cond); SegmentSimple(update);
    SplitFirst(i, c + semi + u);
    SplitFirst(c, u);
    SplitNone(u);
    assert Header(init, cond, update) == i + semi + (c + semi + u);
  }

  /** The brackets of a printed loop. */
  ghost function SiteOf(s: Stmt, k: nat): Site
    requires s.For?
  {
    var paren := k + 1 + |s.gap|;
    var end := paren + 1 + |Header(s.init, s.cond, s.update)|;
    var bodyStart := end + 1 + |s.gap2|;
    Site(k, paren, end, bodyStart, bodyStart + 1 + |Print(s.body)|)
  }

  lemma AtNine(t: Text, k: nat, gap: Text, h: Text, gap2: Text, b: Text)
    requires At(t, k, [FOR] + gap + [Punct('(')] + h + [Punct(')')] + gap2 + [Punct('{')] + b + [Punct('}')])
    ensures var paren := k + 1 + |gap|;
            var end := paren + 1 + |h|;
            var bodyStart := end + 1 + |gap2|;
            var bodyEnd := bodyStart + 1 + |b|;
            && At(t, k, [FOR]) && At(t, k + 1, gap) && At(t, paren, [Punct('(')]) && At(t, paren + 1, h)
            && At(t, end, [Punct(')')]) && At(t, end + 1, gap2) && At(t, bodyStart, [Punct('{')])
            && At(t, bodyStart + 1, b) && At(t, bodyEnd, [Punct('}')])
  {
    hide At;
    var x1 := [FOR] + gap + [Punct('(')];
    var x2 := x1 + h + [Punct(')')];
    var x3 := x2 + gap2 + [Punct('{')];
    AtSplit(t, k, x3 + b, [Punct('}')]); AtSplit(t, k, x3, b);
    AtSplit(t, k, x2 + gap2, [Punct('{')]); AtSplit(t, k, x2, gap2);
    AtSplit(t, k, x1 + h, [Punct(')')]); AtSplit(t, k, x1, h);
    AtSplit(t, k, [FOR] + gap, [Punct('(')]); AtSplit(t, k, [FOR], gap);
  }

  lemma AtOne(t: Text, k: nat, c: Token)
    requires At(t, k, [c])
    ensures k < |t| && t[k] == c
  {
    assert t[k..k + 1][0] == c;
  }

  /** The parts of a printed loop lie where `SiteOf` says. */
  lemma ForParts(s: Stmt, t: Text, k: nat)
    requires s.For? && At(t, k, Print(s))
    ensures var site := SiteOf(s, k);
            && InText(site, t, k) && site.bodyEnd + 1 == k + |Print(s)|
            && t[k] == FOR && At(t, k + 1, s.gap) && t[site.paren] == Punct('(')
            && At(t, site.paren + 1, Header(s.init, s.cond, s.update)) && t[site.end] == Punct(')')
            && At(t, site.end + 1, s.gap2) && t[site.bodyStart] == Punct('{')
            && At(t, site.bodyStart + 1, Print(s.body)) && t[site.bodyEnd] == Punct('}')
  {
    hide At, Header;
    var site := SiteOf(s, k);
    AtNine(t, k, s.gap, Header(s.init, s.cond, s.update), s.gap2, Print(s.body));
    AtOne(t, k, FOR); AtOne(t, site.paren, Punct('(')); AtOne(t, site.end, Punct(')'));
    AtOne(t, site.bodyStart, Punct('{')); AtOne(t, site.bodyEnd, Punct('}'));
  }

  /** `Locate` finds the brackets the grammar pairs. */
  lemma LocateFor(s: Stmt, t: Text, k: nat)
    requires s.For? && Printable(s) && At(t, k, Print(s))
    ensures ForAt(t, k) && FindFor(t, k) == k && Locate(t, k) == Success(SiteOf(s, k))
  {
    hide Header, Print, Split, FindFor, MatchFrom, SkipSpaces, GoodSimple, GoodExpr, Blank, At;
    var site := SiteOf(s, k);
    ForParts(s, t, k);
    SkipPast(t, k + 1, s.gap);
    SkipPast(t, site.end + 1, s.gap2);
    ScanHeader(s, t, k);
    ScanBody(s, t, k);
    AtSlice(t, site.paren + 1, Header(s.init, s.cond, s.update));
    SplitHeader(s.init, s.cond, s.update);
    FoundHere(t, k);
  }

  lemma ScanHeader(s: Stmt, t: Text, k: nat)
    requires s.For? && Printable(s) && At(t, k, Print(s))
    ensures var site := SiteOf(s, k);
            site.paren <= |t| && MatchFrom(t, site.paren, 0, '(', ')') == Some(site.end)
  {
    hide Header, Print, Balanced, MatchFrom, GoodSimple, GoodExpr, Blank, At;
    ForParts(s, t, k);
    BalancedHeader(s.init, s.cond, s.update);
    ScanAcross(t, SiteOf(s, k).paren, Header(s.init, s.cond, s.update), '(', ')');
  }

  lemma ScanBody(s: Stmt, t: Text, k: nat)
    requires s.For? && Printable(s) && At(t, k, Print(s))
    ensures var site := SiteOf(s, k);
            site.bodyStart <= |t| && MatchFrom(t, site.bodyStart, 0, '{', '}') == Some(site.bodyEnd)
  {
    hide Header, Print, Balanced, MatchFrom, GoodSimple, GoodExpr, Blank, At;
    ForParts(s, t, k);
    BalancedPrint(s.body);
    ScanAcross(t, SiteOf(s, k).bodyStart, Print(s.body), '{', '}');
  }

  lemma FoundHere(t: Text, k: nat)
    requires ForAt(t, k)
    ensures FindFor(t, k) == k
  {}

  /** A balanced stretch between a bracket and its partner. */
  lemma ScanAcross(t: Text, k: nat, part: Text, left: char, right: char)
    requires Paired(left, right) && At(t, k + 1, part) && Balanced(part)
    requires k + 1 + |part| < |t| && t[k] == Punct(left) && t[k + 1 + |part|] == Punct(right)
    ensures MatchFrom(t, k, 0, left, right) == Some(k + 1 + |part|)
  {
    MatchOver(t, k + 1, |part|, 0, left, right);
  }

  // ---------- the whole program ----------

  ghost function Canonical(s: Stmt): Rewritten {
    Rewritten(Print(Canon(s)), Conversions(s))
  }

  lemma LinksFor(s: Stmt, t: Text, k: nat)
    requires s.For? && Printable(s) && At(t, k, Print(s))
    requires RewriteFrom(Print(s.body), 0) == Success(Canonical(s.body))
    ensures Links(t, k, Print(s), Canonical(s))
  {
    hide RewriteFrom, Locate, FindFor, ForAt, MentionsContinue, Split, Header, PrintSimple, PrintExpr;
    var site := SiteOf(s, k);
    LocateFor(s, t, k);
    ForParts(s, t, k);
    SplitHeader(s.init, s.cond, s.update);
    var body := Canonical(s.body);
    Unfold(t, k, site, body);
    ReplacementFor(s, t, k);
    JoinNothing(Join(Replacement(t, site, body), RewriteFrom(t, site.bodyEnd + 1)));
    assert t[k..k] == [];
  }

  /** The text put in place of a printed loop is the print of the rewritten loop. */
  lemma ReplacementFor(s: Stmt, t: Text, k: nat)
    requires s.For? && Printable(s) && At(t, k, Print(s))
    requires InText(SiteOf(s, k), t, 0)
    requires Split(t[SiteOf(s, k).paren + 1..SiteOf(s, k).end]) ==
             [PrintSimple(s.init), PrintExpr(s.cond), PrintSimple(s.update)]
    ensures Replacement(t, SiteOf(s, k), Canonical(s.body)) == Canonical(s)
  {
    hide MentionsContinue, Split, Header, PrintSimple, PrintExpr, BottomUpdated, Bottom, Printable;
    if MentionsContinue(Print(Canon(s.body))) {
      KeptText(s, t, k);
    } else {
      PrintBottom(s.init, s.cond, s.update, Canon(s.body));
    }
  }

  lemma KeptText(s: Stmt, t: Text, k: nat)
    requires s.For? && At(t, k, Print(s)) && InText(SiteOf(s, k), t, 0)
    ensures t[k..SiteOf(s, k).bodyStart + 1] == ForHead(s)
    ensures Print(WithBody(s, Canon(s.body))) == ForHead(s) + Print(Canon(s.body)) + [Punct('}')]
  {
    hide Header, Canon;
    AtSplit(t, k, ForHead(s), Print(s.body) + [Punct('}')]);
    assert Print(s) == ForHead(s) + (Print(s.body) + [Punct('}')]);
  }

  lemma PrintNot(cond: Expr)
    ensures PrintExpr(Unary("!", Wrap("", '(', cond))) == [Punct('!'), Punct('(')] + PrintExpr(cond) + [Punct(')')]
  {
    assert Chars("!") == [Punct('!')];
  }

  lemma PrintGuard(cond: Expr)
    ensures Print(Guard(cond)) == [Word("if"), Punct('('), Punct('!'), Punct('(')] + PrintExpr(cond)
              + [Punct(')'), Punct(')'), Punct('{'), Word("break"), Punct(';'), Punct('}')]
  {
    hide PrintExpr, Chars;
    PrintNot(cond);
  }

  lemma PrintNested(init: Simple, cond: Expr, update: Simple, body: Stmt)
    ensures Print(Bottom(init, cond, update, body)) ==
            [Punct('{')] + (PrintSimple(init) + [Punct(';')] + ([Word("loop"), Punct('{')]
              + (Print(Guard(cond)) + (Print(body) + (PrintSimple(update) + [Punct(';')]))) + [Punct('}')])) +
                [Punct('}')]
  {
    hide PrintSimple, Guard;
    var tail := Seq(body, Plain(update));
    var turn := Seq(Guard(cond), tail);
    assert Print(tail) == Print(body) + Print(Plain(update));
    assert Print(turn) == Print(Guard(cond)) + Print(tail);
    var inside := Seq(Plain(init), Loop(turn));
    assert Print(inside) == Print(Plain(init)) + Print(Loop(turn));
  }

  lemma PrintBottom(init: Simple, cond: Expr, update: Simple, body: Stmt)
    ensures Print(Bottom(init, cond, update, body)) ==
            BottomUpdated([PrintSimple(init), PrintExpr(cond), PrintSimple(update)], Print(body))
  {
    hide Print, PrintSimple, PrintExpr, Bottom, Guard;
    PrintGuard(cond);
    PrintNested(init, cond, update, body);
    var i, c, u, b := PrintSimple(init), PrintExpr(cond), PrintSimple(update), Print(body);
    var before := [Punct('{')] + i +
        [Punct(';'), Word("loop"), Punct('{'), Word("if"), Punct('('), Punct('!'), Punct('(')];
    assert [Punct('{')] + (i + [Punct(';')] + ([Word("loop"), Punct('{')] + Print(Guard(cond)))) ==
           before + c + [Punct(')'), Punct(')'), Punct('{'), Word("break"), Punct(';'), Punct('}')];
  }

  /** The printed text in front of the body of a statement with one body. */
  ghost function HeadOf(s: Stmt): Text
    requires s.Block? || s.If? || s.Loop? || s.While?
  {
    match s
    case Block(_) => [Punct('{')]
    case If(c, _) => [Word("if"), Punct('(')] + PrintExpr(c) + [Punct(')'), Punct('{')]
    case Loop(_) => [Word("loop"), Punct('{')]
    case While(c, _) => [Word("while"), Punct('(')] + PrintExpr(c) + [Punct(')'), Punct('{')]
  }

  lemma PrintAround(s: Stmt)
    requires Printable(s) && (s.Block? || s.If? || s.Loop? || s.While?)
    ensures NoFor(HeadOf(s)) && Print(s) == HeadOf(s) + Print(s.body) + [Punct('}')]
    ensures Print(Canon(s)) == HeadOf(s) + Print(Canon(s.body)) + [Punct('}')]
    ensures Conversions(s) == Conversions(s.body)
  {
    hide PrintExpr;
    if s.If? || s.While? { SegmentExpr(s.cond); }
  }

  ghost function ElseHead(s: Stmt): Text
    requires s.IfElse?
  {
    [Word("if"), Punct('(')] + PrintExpr(s.cond) + [Punct(')'), Punct('{')]
  }

  const ELSE: Text := [Punct('}'), Word("else"), Punct('{')]

  lemma PrintElse(s: Stmt)
    requires s.IfElse? && Printable(s)
    ensures NoFor(ElseHead(s)) && NoFor(ELSE) && NoFor([Punct('}')])
    ensures Print(s) == ElseHead(s) + Print(s.body) + ELSE + Print(s.other) + [Punct('}')]
    ensures Print(Canon(s)) == ElseHead(s) + Print(Canon(s.body)) + ELSE + Print(Canon(s.other)) + [Punct('}')]
    ensures Conversions(s) == Conversions(s.body) + Conversions(s.other)
  {
    hide PrintExpr, Balanced;
    SegmentExpr(s.cond);
  }

  lemma NoForAtom(s: Stmt)
    requires Printable(s) && (s.Layout? || s.Plain? || s.Break? || s.Continue? || s.Return?)
    ensures NoFor(Print(s))
  {
    match s
    case Plain(a) => SegmentSimple(a);
    case Return(e) => SegmentExpr(e);
    case _ =>
  }

  /** Wherever a printed statement stands in a text, the rewrite replaces it by the print of
      the rewritten statement, counts its conversions, and goes on behind it. */
  lemma {:induction false} RewriteAt(s: Stmt, t: Text, k: nat)
    requires Printable(s) && At(t, k, Print(s))
    ensures Links(t, k, Print(s), Canonical(s))
    decreases s, 1
  {
    hide RewriteFrom, Print, Canon, Conversions, Printable, At, Links;
    match s
    case Seq(_, _) => RewriteSeq(s, t, k);
    case IfElse(_, _, _) => RewriteElse(s, t, k);
    case For(_, _, _, _, _, _) => RewriteFor(s, t, k);
    case Block(_) => RewriteInside(s, t, k);
    case If(_, _) => RewriteInside(s, t, k);
    case Loop(_) => RewriteInside(s, t, k);
    case While(_, _) => RewriteInside(s, t, k);
    case _ => RewriteAtom(s, t, k);
  }

  lemma {:induction false} RewriteSeq(s: Stmt, t: Text, k: nat)
    requires s.Seq? && Printable(s) && At(t, k, Print(s))
    ensures Links(t, k, Print(s), Canonical(s))
    decreases s, 0
  {
    hide RewriteFrom, MentionsContinue, At, Links;
    var a, b := s.first, s.second;
    AtSplit(t, k, Print(a), Print(b));
    RewriteAt(a, t, k);
    RewriteAt(b, t, k + |Print(a)|);
    LinksConcat(t, k, Print(a), Canonical(a), Print(b), Canonical(b));
  }

  lemma {:induction false} RewriteFor(s: Stmt, t: Text, k: nat)
    requires s.For? && Printable(s) && At(t, k, Print(s))
    ensures Links(t, k, Print(s), Canonical(s))
    decreases s, 0
  {
    hide RewriteFrom, Print, Canon, Conversions, At, Links;
    RewritePrinted(s.body);
    LinksFor(s, t, k);
  }

  lemma RewriteAtom(s: Stmt, t: Text, k: nat)
    requires Printable(s) && (s.Layout? || s.Plain? || s.Break? || s.Continue? || s.Return?) && At(t, k, Print(s))
    ensures Links(t, k, Print(s), Canonical(s))
  {
    hide RewriteFrom, Print, Printable, At, Links;
    NoForAtom(s);
    LinksQuiet(t, k, Print(s));
  }

  lemma {:induction false} RewriteInside(s: Stmt, t: Text, k: nat)
    requires Printable(s) && (s.Block? || s.If? || s.Loop? || s.While?) && At(t, k, Print(s))
    ensures Links(t, k, Print(s), Canonical(s))
    decreases s, 0
  {
    hide RewriteFrom, Print, Canon, Conversions, PrintExpr, At, Links;
    var b, head, close := s.body, HeadOf(s), [Punct('}')];
    PrintAround(s);
    AtSplit(t, k, head + Print(b), close);
    AtSplit(t, k, head, Print(b));
    RewriteAt(b, t, k + |head|);
    LinksQuiet(t, k, head);
    LinksQuiet(t, k + |head| + |Print(b)|, close);
    LinksConcat(t, k, head, Rewritten(head, 0), Print(b), Canonical(b));
    LinksConcat(t, k, head + Print(b), Rewritten(head + Print(Canon(b)), Conversions(b)), close, Rewritten(close, 0));
  }

  lemma {:induction false} RewriteElse(s: Stmt, t: Text, k: nat)
    requires s.IfElse? && Printable(s) && At(t, k, Print(s))
    ensures Links(t, k, Print(s), Canonical(s))
    decreases s, 0
  {
    hide RewriteFrom, Print, Canon, Conversions, NoFor, At, Links;
    var a, b, head, close: Text := s.body, s.other, ElseHead(s), [Punct('}')];
    PrintElse(s);
    AtFive(t, k, head, Print(a), ELSE, Print(b), close);
    RewriteAt(a, t, k + |head|);
    RewriteAt(b, t, k + |head| + |Print(a)| + |ELSE|);
    RewriteElseParts(t, k, head, a, ELSE, b, close);
  }

  lemma AtFive(t: Text, k: nat, head: Text, a: Text, word: Text, b: Text, close: Text)
    requires At(t, k, head + a + word + b + close)
    ensures At(t, k, head) && At(t, k + |head|, a) && At(t, k + |head| + |a|, word)
    ensures At(t, k + |head| + |a| + |word|, b) && At(t, k + |head| + |a| + |word| + |b|, close)
  {
    hide At;
    AtSplit(t, k, head + a + word + b, close);
    AtSplit(t, k, head + a + word, b);
    AtSplit(t, k, head + a, word);
    AtSplit(t, k, head, a);
  }

  lemma RewriteElseParts(t: Text, k: nat, head: Text, a: Stmt, word: Text, b: Stmt, close: Text)
    requires NoFor(head) && NoFor(word) && NoFor(close)
    requires At(t, k, head) && Links(t, k + |head|, Print(a), Canonical(a))
    requires At(t, k + |head| + |Print(a)|, word)
    requires Links(t, k + |head| + |Print(a)| + |word|, Print(b), Canonical(b))
    requires At(t, k + |head| + |Print(a)| + |word| + |Print(b)|, close)
    ensures Links(t, k, head + Print(a) + word + Print(b) + close,
                  Rewritten(head + Print(Canon(a)) + word + Print(Canon(b)) + close, Conversions(a) + Conversions(b)))
  {
    hide RewriteFrom, Links, At, Print, Canon, Conversions;
    LinksQuiet(t, k, head);
    LinksQuiet(t, k + |head| + |Print(a)|, word);
    LinksQuiet(t, k + |head| + |Print(a)| + |word| + |Print(b)|, close);
    var x := head + Print(a);
    var wx := Rewritten(head + Print(Canon(a)), Conversions(a));
    LinksConcat(t, k, head, Rewritten(head, 0), Print(a), Canonical(a));
    LinksConcat(t, k, x, wx, word, Rewritten(word, 0));
    LinksConcat(t, k, x + word, Rewritten(wx.text + word, wx.count), Print(b), Canonical(b));
    LinksConcat(t, k, x + word + Print(b),
                Rewritten(wx.text + word + Print(Canon(b)), Conversions(a) + Conversions(b)), close,
                  Rewritten(close, 0));
  }

  /** The token rewriter and the statement rewrite agree, text and count, on every program. */
  lemma {:induction false} RewritePrinted(s: Stmt)
    requires Printable(s)
    ensures RewriteFrom(Print(s), 0) == Success(Canonical(s))
    decreases s, 2
  {
    hide RewriteFrom, Print, Canon, Conversions, Printable;
    var t := Print(s);
    assert t[0..0 + |t|] == t;
    RewriteAt(s, t, 0);
    NothingLeft(t, |t|);
    assert t[|t|..] == [];
    assert Canonical(s).text + [] == Canonical(s).text;
  }
}
