/** Shader statements, how they are printed, and the loop rewrite on statements. */
module ShaderProgram {
  import opened ShaderText

  datatype Expr =
    | Unit                                        // an omitted argument, operand or value
    | Name(x: string)
    | Literal(word: string)
    | Unary(op: string, e: Expr)
    | Binary(l: Expr, op: string, r: Expr)
    | Wrap(head: string, bracket: char, e: Expr)  // (e), f(e) and the [e] of an index
    | Member(e: Expr, field: string)

  /** Statements that may stand in a `for` header; `Assign` changes a part of `x` selected by `path`. */
  datatype Simple =
    | Skip
    | Decl(keyword: string, x: string, e: Expr)
    | Assign(x: string, path: Expr, op: string, e: Expr)
    | Do(e: Expr)

  datatype Stmt =
    | Layout(text: Text)                          // white space and comments
    | Plain(s: Simple)
    | Break
    | Continue
    | Return(e: Expr)
    | Seq(first: Stmt, second: Stmt)
    | Block(body: Stmt)
    | If(cond: Expr, body: Stmt)
    | IfElse(cond: Expr, body: Stmt, other: Stmt)
    | Loop(body: Stmt)
    | While(cond: Expr, body: Stmt)
    | For(gap: Text, init: Simple, cond: Expr, update: Simple, gap2: Text, body: Stmt)

  // ---------- printing ----------

  function Chars(op: string): (text: Text)
    ensures |text| == |op| && forall i | 0 <= i < |op| :: text[i] == Punct(op[i])
  {
    seq(|op|, i requires 0 <= i < |op| => Punct(op[i]))
  }

  function Closing(bracket: char): char {
    if bracket == '(' then ')' else ']'
  }

  function PrintExpr(e: Expr): Text {
    match e
    case Unit => []
    case Name(x) => [Word(x)]
    case Literal(w) => [Word(w)]
    case Unary(op, a) => Chars(op) + PrintExpr(a)
    case Binary(l, op, r) => PrintExpr(l) + Chars(op) + PrintExpr(r)
    case Wrap(head, b, a) =>
      (if head == "" then [] else [Word(head)]) + [Punct(b)] + PrintExpr(a) + [Punct(Closing(b))]
    case Member(a, f) => PrintExpr(a) + [Punct('.'), Word(f)]
  }

  function PrintSimple(s: Simple): Text {
    match s
    case Skip => []
    case Decl(k, x, e) => [Word(k), Space(' '), Word(x), Punct('=')] + PrintExpr(e)
    case Assign(x, path, op, e) => [Word(x)] + PrintExpr(path) + Chars(op) + PrintExpr(e)
    case Do(e) => PrintExpr(e)
  }

  function Header(init: Simple, cond: Expr, update: Simple): Text {
    PrintSimple(init) + [Punct(';')] + PrintExpr(cond) + [Punct(';')] + PrintSimple(update)
  }

  function Print(s: Stmt): Text {
    match s
    case Layout(text) => text
    case Plain(a) => PrintSimple(a) + [Punct(';')]
    case Break => [Word("break"), Punct(';')]
    case Continue => [Word("continue"), Punct(';')]
    case Return(e) => [Word("return"), Space(' ')] + PrintExpr(e) + [Punct(';')]
    case Seq(a, b) => Print(a) + Print(b)
    case Block(b) => [Punct('{')] + Print(b) + [Punct('}')]
    case If(c, b) => [Word("if"), Punct('(')] + PrintExpr(c) + [Punct(')'), Punct('{')] + Print(b) + [Punct('}')]
    case IfElse(c, a, b) =>
      [Word("if"), Punct('(')] + PrintExpr(c) + [Punct(')'), Punct('{')] + Print(a)
      + [Punct('}'), Word("else"), Punct('{')] + Print(b) + [Punct('}')]
    case Loop(b) => [Word("loop"), Punct('{')] + Print(b) + [Punct('}')]
    case While(c, b) =>
      [Word("while"), Punct('(')] + PrintExpr(c) + [Punct(')'), Punct('{')] + Print(b) + [Punct('}')]
    case For(gap, init, c, update, gap2, b) =>
      [FOR] + gap + [Punct('(')] + Header(init, c, update) + [Punct(')')] + gap2 + [Punct('{')] + Print(b) +
        [Punct('}')]
  }

  // ---------- the domain ----------

  predicate PlainChar(c: char) { c !in {'(', ')', '{', '}', ';'} }

  predicate PlainChars(op: string) { forall i | 0 <= i < |op| :: PlainChar(op[i]) }

  /** No `for`, no bracket the scan counts and no `;`. */
  predicate Quiet(text: Text) {
    forall i | 0 <= i < |text| :: text[i] != FOR && (text[i].Punct? ==> PlainChar(text[i].c))
  }

  predicate Blank(text: Text) { forall i | 0 <= i < |text| :: text[i].Space? }

  /** A comment: to the end of its line, or up to the first closing mark. White space in it is `Inner`. */
  predicate Comment(text: Text) {
    && |text| >= 3 && text[0] == Punct('/') && (forall i | 0 <= i < |text| :: !text[i].Space?)
    && ((text[1] == Punct('/') && text[|text| - 1] == Inner('\n')
         && forall i | 0 <= i < |text| - 1 :: text[i] != Inner('\n'))
        || (text[1] == Punct('*') && |text| >= 4 && text[|text| - 2..] == [Punct('*'), Punct('/')]
            && forall i | 2 <= i < |text| - 2 :: text[i] == Punct('*') ==> text[i + 1] != Punct('/')))
  }

  /** White space and comments. */
  ghost predicate Filler(text: Text) {
    text == []
    || (text[0].Space? && Filler(text[1..]))
    || exists k | 0 < k <= |text| :: Comment(text[..k]) && Filler(text[k..])
  }

  const KEYWORDS := {"for", "if", "else", "loop", "while", "break", "continue", "continuing", "return", "switch",
                     "case", "default", "let", "var", "const", "fn", "struct", "discard", "true", "false"}

  predicate Digit(c: char) { '0' <= c <= '9' }

  predicate Identifier(x: string) { x != "" && !Digit(x[0]) && x !in KEYWORDS }

  /** A number, as far as it is one word, or a truth value. */
  predicate Constant(w: string) { w in {"true", "false"} || (w != "" && Digit(w[0])) }

  predicate UnaryOp(op: string) { op in {"-", "!", "~", "&", "*"} }

  /** The comma separates arguments; `<` and `>` also enclose the type arguments of a call. */
  predicate BinaryOp(op: string) {
    op in {"+", "-", "*", "/", "%", "==", "!=", "<", ">", "<=", ">=", "&&", "||", "&", "|", "^", "<<", ">>", ","}
  }

  predicate AssignOp(op: string) {
    op in {"=", "+=", "-=", "*=", "/=", "%=", "&=", "|=", "^=", "<<=", ">>=", "++", "--"}
  }

  predicate GoodExpr(e: Expr) {
    match e
    case Unit => true
    case Name(x) => Identifier(x)
    case Literal(w) => Constant(w)
    case Unary(op, a) => UnaryOp(op) && GoodExpr(a)
    case Binary(l, op, r) => BinaryOp(op) && GoodExpr(l) && GoodExpr(r)
    case Wrap(head, b, a) => (head == "" || Identifier(head)) && b in {'(', '['} && GoodExpr(a)
    case Member(a, f) => f !in KEYWORDS && GoodExpr(a)
  }

  predicate GoodSimple(s: Simple) {
    match s
    case Skip => true
    case Decl(k, x, e) => k in {"let", "var", "const"} && Identifier(x) && GoodExpr(e)
    case Assign(x, path, op, e) => Identifier(x) && GoodExpr(path) && AssignOp(op) && GoodExpr(e)
    case Do(e) => e.Wrap? && e.head != "" && e.bracket == '(' && GoodExpr(e)
  }

  /** The names an expression uses: variables, and what stands in front of a bracket, a called function
      or an indexed array. */
  function ExprNames(e: Expr): set<string> {
    match e
    case Unit => {}
    case Name(x) => {x}
    case Literal(_) => {}
    case Unary(_, a) => ExprNames(a)
    case Binary(l, _, r) => ExprNames(l) + ExprNames(r)
    case Wrap(head, _, a) => (if head == "" then {} else {head}) + ExprNames(a)
    case Member(a, _) => ExprNames(a)
  }

  function SimpleNames(s: Simple): set<string> {
    match s
    case Skip => {}
    case Decl(_, x, e) => {x} + ExprNames(e)
    case Assign(x, path, _, e) => {x} + ExprNames(path) + ExprNames(e)
    case Do(e) => ExprNames(e)
  }

  /** The names a statement declares in the scope it stands in. */
  function Declared(s: Stmt): set<string> {
    match s
    case Plain(a) => if a.Decl? then {a.x} else {}
    case Seq(a, b) => Declared(a) + Declared(b)
    case _ => {}
  }

  /** Can be printed and scanned: comments hold no bracket, `;` or `for`. */
  ghost predicate Printable(s: Stmt) {
    match s
    case Layout(text) => Quiet(text) && Filler(text)
    case Plain(a) => GoodSimple(a)
    case Break => true
    case Continue => true
    case Return(e) => GoodExpr(e)
    case Seq(a, b) => Printable(a) && Printable(b)
    case Block(b) => Printable(b)
    case If(c, b) => GoodExpr(c) && Printable(b)
    case IfElse(c, a, b) => GoodExpr(c) && Printable(a) && Printable(b)
    case Loop(b) => Printable(b)
    case While(c, b) => GoodExpr(c) && Printable(b)
    case For(gap, init, c, update, gap2, b) =>
      Blank(gap) && GoodSimple(init) && GoodExpr(c) && GoodSimple(update) && Blank(gap2) && Printable(b)
  }

  // ---------- the rewrite on statements ----------

  /** The same loop header over another body. */
  function WithBody(s: Stmt, body: Stmt): Stmt
    requires s.For?
  {
    For(s.gap, s.init, s.cond, s.update, s.gap2, body)
  }

  function Guard(cond: Expr): Stmt {
    If(Unary("!", Wrap("", '(', cond)), Break)
  }

  /** The loop with its update at the bottom. */
  function Bottom(init: Simple, cond: Expr, update: Simple, body: Stmt): Stmt {
    Block(Seq(Plain(init), Loop(Seq(Guard(cond), Seq(body, Plain(update))))))
  }

  ghost function Canon(s: Stmt): Stmt {
    match s
    case Seq(a, b) => Seq(Canon(a), Canon(b))
    case Block(b) => Block(Canon(b))
    case If(c, b) => If(c, Canon(b))
    case IfElse(c, a, b) => IfElse(c, Canon(a), Canon(b))
    case Loop(b) => Loop(Canon(b))
    case While(c, b) => While(c, Canon(b))
    case For(gap, init, c, update, gap2, b) =>
      if MentionsContinue(Print(Canon(b))) then For(gap, init, c, update, gap2, Canon(b))
      else Bottom(init, c, update, Canon(b))
    case _ => s
  }

  /** How many loops the rewrite converts. */
  ghost function Conversions(s: Stmt): nat {
    match s
    case Seq(a, b) => Conversions(a) + Conversions(b)
    case Block(b) => Conversions(b)
    case If(_, b) => Conversions(b)
    case IfElse(_, a, b) => Conversions(a) + Conversions(b)
    case Loop(b) => Conversions(b)
    case While(_, b) => Conversions(b)
    case For(_, _, _, _, _, b) =>
      Conversions(b) + if MentionsContinue(Print(Canon(b))) then 0 else 1
    case _ => 0
  }

  /** An expression with all its operands; only the arguments of a call may be missing. */
  predicate Complete(e: Expr) {
    match e
    case Unit => false
    case Unary(_, a) => Complete(a)
    case Binary(l, _, r) => Complete(l) && Complete(r)
    case Wrap(head, b, a) => (head != "" && b == '(' && a == Unit) || Complete(a)
    case Member(a, _) => Complete(a)
    case _ => true
  }

  /** Every loop that is converted has a condition, an update that is no declaration, and a body whose
      own scope declares nothing the update uses. */
  ghost predicate Regular(s: Stmt) {
    match s
    case Seq(a, b) => Regular(a) && Regular(b)
    case Block(b) => Regular(b)
    case If(_, b) => Regular(b)
    case IfElse(_, a, b) => Regular(a) && Regular(b)
    case Loop(b) => Regular(b)
    case While(_, b) => Regular(b)
    case For(_, _, c, update, _, b) =>
      && Regular(b)
      && (MentionsContinue(Print(Canon(b))) || (c != Unit && !update.Decl? && Declared(b) !! SimpleNames(update)))
    case _ => true
  }
}
