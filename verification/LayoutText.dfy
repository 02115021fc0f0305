/** The layout pass as the script performs it: four regular expressions on the shader's text. */
module LayoutText {
  import opened Outcomes
  import opened LayoutPass

  // ---------- the regular expressions ----------

  /** The first place of `c` at or after `k`, or `|t|`. */
  function IndexOf(t: string, c: char, k: nat): (n: nat)
    requires k <= |t|
    ensures k <= n <= |t| && (n < |t| ==> t[n] == c) && c !in t[k..n]
    decreases |t| - k
  {
    if k == |t| || t[k] == c then k
    else
      var n := IndexOf(t, c, k + 1);
      assert t[k..n] == [t[k]] + t[k + 1..n];
      n
  }

  /** How much of the text is replaced, and by what. */
  datatype Match = Match(length: nat, into: string)

  function BothParts(i: string): string {
    "vec2<f32>(" + "jy[" + i + "]" + "," + "jz[" + i + "]" + ")"
  }

  /** What stands behind `j[i]` in the pattern of each step, where `i` is everything up to the first `]`. */
  function TailMatch(step: Step, i: string, rest: string): (m: Option<Match>)
    ensures m.Some? ==> m.value.length <= |rest|
  {
    match step
    case Pairs =>
      if ".yz" <= rest then Some(Match(3, BothParts(i))) else None
    case Parts =>
      if |rest| >= 2 && rest[0] == '.' && rest[1] in COMPONENTS
      then Some(Match(2, "j" + [rest[1]] + "[" + i + "]")) else None
    case Wholes =>
      if rest == "" || rest[0] != '=' then None else
      var end := IndexOf(rest, ';', 1);
      if 1 < end < |rest| then Some(Match(end + 1, "store_j(" + i + "," + rest[1..end] + ");")) else None
    case Loads => Some(Match(0, "load_j(" + i + ")"))
  }

  function MatchAt(step: Step, t: string): (m: Option<Match>)
    ensures m.Some? ==> 0 < m.value.length <= |t|
  {
    if |t| < 2 || t[0] != 'j' || t[1] != '[' then None else
    var close := IndexOf(t, ']', 2);
    if close == 2 || close == |t| then None else
    var tail := TailMatch(step, t[2..close], t[close + 1..]);
    if tail.None? then None else Some(Match(close + 1 + tail.value.length, tail.value.into))
  }

  /** `re.sub`: replaces the matches from left to right. */
  function Sub(step: Step, t: string): string {
    if t == "" then ""
    else
      var m := MatchAt(step, t);
      if m.Some? then m.value.into + Sub(step, t[m.value.length..]) else [t[0]] + Sub(step, t[1..])
  }

  function SubAll(order: seq<Step>, t: string): string {
    if order == [] then t else SubAll(order[1..], Sub(order[0], t))
  }

  // ---------- printing ----------

  function PrintE(e: Expr): string {
    match e
    case Empty => ""
    case Const(w) => w
    case Local(x) => x
    case Infix(l, op, r) => PrintE(l) + op + PrintE(r)
    case Paren(a) => "(" + PrintE(a) + ")"
    case Call(f, a) => f + "(" + PrintE(a) + ")"
    case Read(n, i) => n + "[" + PrintE(i) + "]"
    case Elem(i) => "j[" + PrintE(i) + "]"
    case Member(a, f) => PrintE(a) + "." + f
    case Pair(l, r) => "vec2<f32>(" + PrintE(l) + "," + PrintE(r) + ")"
    case Part(c, i) => "j" + [c] + "[" + PrintE(i) + "]"
    case Load(i) => "load_j(" + PrintE(i) + ")"
    case Garbled(a, rest) => PrintE(a) + rest
  }

  function PrintSimple(a: Simple): string {
    match a
    case Nothing => ""
    case Declare(k, x, op, e) => k + " " + x + op + PrintE(e)
    case Assign(to, op, e) => PrintE(to) + op + PrintE(e)
    case Store(i, gap, e) => "store_j(" + PrintE(i) + "," + gap + PrintE(e) + ")"
    case Do(e) => PrintE(e)
  }

  function Print(s: Stmt): string {
    match s
    case Gap(text) => text
    case Plain(a) => PrintSimple(a) + ";"
    case Break => "break;"
    case Continue => "continue;"
    case Return(gap, e) => "return" + gap + PrintE(e) + ";"
    case Seq(a, b) => Print(a) + Print(b)
    case If(gap, c, a) => "if" + gap + "(" + PrintE(c) + "){" + Print(a) + "}"
    case IfElse(gap, c, a, gap2, b) =>
      "if" + gap + "(" + PrintE(c) + "){" + Print(a) + "}" + gap2 + "else{" + Print(b) + "}"
    case Loop(gap, a) => "loop" + gap + "{" + Print(a) + "}"
    case While(gap, c, a) => "while" + gap + "(" + PrintE(c) + "){" + Print(a) + "}"
    case For(init, c, update, a) =>
      "for(" + PrintSimple(init) + ";" + PrintE(c) + ";" + PrintSimple(update) + "){" + Print(a) + "}"
  }

  // ---------- well-formed texts ----------

  predicate WordChar(c: char) {
    'a' <= c <= 'z' || 'A' <= c <= 'Z' || '0' <= c <= '9' || c == '_'
  }

  predicate Letters(x: string) { forall i | 0 <= i < |x| :: WordChar(x[i]) }

  predicate Word(x: string) { x != "" && Letters(x) }

  predicate Blank(x: string) { forall i | 0 <= i < |x| :: x[i] in {' ', '\n'} }

  /** An operator and the white space around it. */
  predicate Operator(op: string) {
    op != "" && forall i | 0 <= i < |op| ::
      op[i] in {'+', '-', '*', '/', '%', '=', '!', '<', '>', '&', '|', '^', '~', ',', ' '}
  }

  /** A number or a type's name with arguments: no bracket of an index and no `;`. */
  predicate Piece(x: string) {
    x != "" && forall i | 0 <= i < |x| :: x[i] !in {'[', ']', ';'}
  }

  /** An index in which no array is read. */
  predicate Flat(e: Expr) {
    match e
    case Const(_) => true
    case Local(_) => true
    case Infix(l, _, r) => (l == Empty || Flat(l)) && Flat(r)
    case Paren(a) => Flat(a)
    case Call(_, a) => a == Empty || Flat(a)
    case Member(a, _) => Flat(a)
    case _ => false
  }

  /** The text of the expression ends with a whole element. */
  predicate EndsInElem(e: Expr) {
    match e
    case Elem(_) => true
    case Infix(_, _, r) => EndsInElem(r)
    case _ => false
  }

  /** What a field may be taken of without parentheses. */
  predicate Postfix(e: Expr) {
    !e.Empty? && !e.Infix? && !e.Const?
  }

  /** The grammar: every part is what its place needs. */
  predicate GoodE(e: Expr) {
    match e
    case Empty => true
    case Const(w) => Piece(w)
    case Local(x) => Word(x)
    case Infix(l, op, r) => GoodE(l) && Operator(op) && GoodE(r) && r != Empty
    case Paren(a) => GoodE(a)
    case Call(f, a) => Piece(f) && GoodE(a)
    case Read(n, i) => Word(n) && GoodE(i) && i != Empty
    case Elem(i) => Flat(i) && GoodE(i)
    case Member(a, f) => Word(f) && Postfix(a) && GoodE(a)
    case Pair(l, r) => GoodE(l) && GoodE(r)
    case Part(c, i) => c in COMPONENTS && Flat(i) && GoodE(i)
    case Load(i) => Flat(i) && GoodE(i)
    case Garbled(a, rest) => (a.Part? || (a.Pair? && a.l.Part? && a.r.Part?)) && GoodE(a) && Letters(rest)
  }

  predicate GoodSimple(a: Simple) {
    match a
    case Nothing => true
    case Declare(k, x, op, e) => Word(k) && Word(x) && Operator(op) && GoodE(e)
    case Assign(to, op, e) => Postfix(to) && GoodE(to) && Operator(op) && GoodE(e) && (op[0] == '=' ==> e != Empty)
    case Store(i, gap, e) => Flat(i) && GoodE(i) && GoodE(e) && (gap == "" || Operator(gap)) && gap + PrintE(e) != ""
    case Do(e) => GoodE(e)
  }

  predicate Good(s: Stmt) {
    match s
    case Gap(text) => Blank(text)
    case Plain(a) => GoodSimple(a)
    case Break => true
    case Continue => true
    case Return(gap, e) => Blank(gap) && GoodE(e) && (e != Empty ==> gap != "")
    case Seq(a, b) => Good(a) && Good(b)
    case If(gap, c, a) => Blank(gap) && GoodE(c) && Good(a)
    case IfElse(gap, c, a, gap2, b) => Blank(gap) && GoodE(c) && Good(a) && Blank(gap2) && Good(b)
    case Loop(gap, a) => Blank(gap) && Good(a)
    case While(gap, c, a) => Blank(gap) && GoodE(c) && Good(a)
    case For(init, c, update, a) => GoodSimple(init) && GoodE(c) && GoodSimple(update) && Good(a)
  }

  // ---------- where the patterns see more than they should ----------

  /** No array whose name ends in `j` is read: `obj[0]` becomes `obload_j(0)`. */
  predicate NamesClear(e: Expr) {
    match e
    case Infix(l, _, r) => NamesClear(l) && NamesClear(r)
    case Paren(a) => NamesClear(a)
    case Call(_, a) => NamesClear(a)
    case Read(n, i) => n != "" && n[|n| - 1] != 'j' && NamesClear(i)
    case Member(a, _) => NamesClear(a)
    case Pair(l, r) => NamesClear(l) && NamesClear(r)
    case Garbled(a, _) => NamesClear(a)
    case _ => true
  }

  /** No operator that starts with `=` stands right behind a whole element: `j[0]==v` is read as a store. */
  predicate SignsClear(e: Expr) {
    match e
    case Infix(l, op, r) => SignsClear(l) && SignsClear(r) && !(EndsInElem(l) && op != "" && op[0] == '=')
    case Paren(a) => SignsClear(a)
    case Call(_, a) => SignsClear(a)
    case Read(_, i) => SignsClear(i)
    case Member(a, _) => SignsClear(a)
    case Pair(l, r) => SignsClear(l) && SignsClear(r)
    case Garbled(a, _) => SignsClear(a)
    case _ => true
  }

  /** A store of a whole element that the pattern can see. */
  predicate IsStore(a: Simple) {
    a.Assign? && a.to.Elem? && a.op != "" && a.op[0] == '='
  }

  predicate NamesClearSimple(a: Simple) {
    match a
    case Nothing => true
    case Declare(_, _, _, e) => NamesClear(e)
    case Assign(to, _, e) => NamesClear(to) && NamesClear(e)
    case Store(i, _, e) => NamesClear(i) && NamesClear(e)
    case Do(e) => NamesClear(e)
  }

  /** In the value of a whole store nothing else is searched for stores. */
  predicate SignsClearSimple(a: Simple) {
    match a
    case Nothing => true
    case Declare(_, _, _, e) => SignsClear(e)
    case Assign(to, _, e) => IsStore(a) || (SignsClear(to) && SignsClear(e))
    case Store(i, _, e) => SignsClear(i) && SignsClear(e)
    case Do(e) => SignsClear(e)
  }

  predicate NamesClearIn(s: Stmt) {
    match s
    case Plain(a) => NamesClearSimple(a)
    case Return(_, e) => NamesClear(e)
    case Seq(a, b) => NamesClearIn(a) && NamesClearIn(b)
    case If(_, c, a) => NamesClear(c) && NamesClearIn(a)
    case IfElse(_, c, a, _, b) => NamesClear(c) && NamesClearIn(a) && NamesClearIn(b)
    case Loop(_, a) => NamesClearIn(a)
    case While(_, c, a) => NamesClear(c) && NamesClearIn(a)
    case For(init, c, update, a) =>
      NamesClearSimple(init) && NamesClear(c) && NamesClearSimple(update) && NamesClearIn(a)
    case _ => true
  }

  /** No `for` updates a whole element either: its `;` would be looked for in the body. */
  predicate SignsClearIn(s: Stmt) {
    match s
    case Plain(a) => SignsClearSimple(a)
    case Return(_, e) => SignsClear(e)
    case Seq(a, b) => SignsClearIn(a) && SignsClearIn(b)
    case If(_, c, a) => SignsClear(c) && SignsClearIn(a)
    case IfElse(_, c, a, _, b) => SignsClear(c) && SignsClearIn(a) && SignsClearIn(b)
    case Loop(_, a) => SignsClearIn(a)
    case While(_, c, a) => SignsClear(c) && SignsClearIn(a)
    case For(init, c, update, a) =>
      SignsClearSimple(init) && SignsClear(c) && SignsClearSimple(update) && !IsStore(update) && SignsClearIn(a)
    case _ => true
  }

  // ---------- stretches without a match ----------

  lemma {:induction false} SubSkip(step: Step, x: string, rest: string)
    requires '[' !in x && (x == "" || x[|x| - 1] != 'j' || rest == "" || rest[0] != '[')
    ensures Sub(step, x + rest) == x + Sub(step, rest)
  {
    hide Sub;
    if x == "" {
      assert x + rest == rest;
    } else {
      if |x| > 1 { assert x[1] in x; }
      SubFirst(step, x, rest);
      SubSkip(step, x[1..], rest);
      FirstAndRest(x, Sub(step, rest));
    }
  }

  lemma FirstAndRest(x: string, y: string)
    requires x != ""
    ensures [x[0]] + (x[1..] + y) == x + y
  {}

  /** Nothing starts at the first character. */
  lemma SubFirst(step: Step, x: string, rest: string)
    requires x != "" && (x[0] != 'j' || (|x| > 1 && x[1] != '[') || (|x| == 1 && (rest == "" || rest[0] != '[')))
    ensures Sub(step, x + rest) == [x[0]] + Sub(step, x[1..] + rest)
  {
    hide Sub;
    var t := x + rest;
    assert t[0] == x[0] && t[1..] == x[1..] + rest;
    if |x| > 1 { assert t[1] == x[1]; } else if rest != "" { assert t[1] == rest[0]; }
    NoMatch(step, t);
  }

  lemma NoMatch(step: Step, t: string)
    requires t != "" && (|t| < 2 || t[0] != 'j' || t[1] != '[')
    ensures Sub(step, t) == [t[0]] + Sub(step, t[1..])
  {
    hide Sub;
    SubStep(step, t);
  }

  lemma SubStep(step: Step, t: string)
    requires t != ""
    ensures var m := MatchAt(step, t);
            Sub(step, t) ==
            if m.Some? then m.value.into + Sub(step, t[m.value.length..]) else [t[0]] + Sub(step, t[1..])
  {
    hide MatchAt;
  }

  /** A name that does not end in `j`, and the bracket behind it. */
  lemma SubBracket(step: Step, x: string, rest: string)
    requires '[' !in x && (x == "" || x[|x| - 1] != 'j')
    ensures Sub(step, x + "[" + rest) == x + "[" + Sub(step, rest)
  {
    hide Sub;
    var t := "[" + rest;
    assert x + "[" + rest == x + t;
    SubSkip(step, x, t);
    SubStep(step, t);
    assert t[1..] == rest;
  }

  /** The match at `j[i]`, given what is behind it. */
  lemma ElemMatch(step: Step, t: string, i: string, rest: string)
    requires t == "j[" + i + "]" + rest && i != "" && ']' !in i
    ensures var m := TailMatch(step, i, rest);
            MatchAt(step, t) == if m.Some? then Some(Match(|i| + 3 + m.value.length, m.value.into)) else None
    ensures |t| == |i| + 3 + |rest| && t[|i| + 3..] == rest
  {
    hide TailMatch, IndexOf;
    ClosesAt(t, i, rest);
    assert t[0] == 'j' && t[1] == '[';
    assert t[2..2 + |i|] == i && t[2 + |i| + 1..] == rest;
  }

  lemma ClosesAt(t: string, i: string, rest: string)
    requires t == "j[" + i + "]" + rest && ']' !in i
    ensures IndexOf(t, ']', 2) == 2 + |i|
  {
    assert t[2 + |i|] == ']';
    FirstPlace(t, ']', 2, 2 + |i|);
  }

  lemma FirstPlace(t: string, c: char, k: nat, n: nat)
    requires k <= n < |t| && t[n] == c && forall m | k <= m < n :: t[m] != c
    ensures IndexOf(t, c, k) == n
  {
    var r := IndexOf(t, c, k);
    assert forall m | k <= m < r :: t[m] == t[k..r][m - k];
  }

  /** `j[i]`, whatever is behind it. */
  lemma SubElem(step: Step, i: string, rest: string)
    requires i != "" && '[' !in i && ']' !in i
    ensures var m := TailMatch(step, i, rest);
            Sub(step, "j[" + i + "]" + rest) ==
            if m.Some? then m.value.into + Sub(step, rest[m.value.length..]) else "j[" + i + "]" + Sub(step, rest)
  {
    hide Sub, TailMatch, MatchAt, IndexOf;
    var t := "j[" + i + "]" + rest;
    SubStep(step, t);
    ElemMatch(step, t, i, rest);
    var m := TailMatch(step, i, rest);
    if m.Some? {
      assert t[|i| + 3 + m.value.length..] == t[|i| + 3..][m.value.length..];
    } else {
      UnmatchedElem(step, t, i, rest);
    }
  }

  lemma UnmatchedElem(step: Step, t: string, i: string, rest: string)
    requires t == "j[" + i + "]" + rest && '[' !in i
    requires Sub(step, t) == [t[0]] + Sub(step, t[1..])
    ensures Sub(step, t) == "j[" + i + "]" + Sub(step, rest)
  {
    hide Sub;
    var inside := i + "]";
    assert t[0] == 'j' && t[1..] == "" + "[" + (inside + rest);
    SubBracket(step, "", inside + rest);
    SubSkip(step, inside, rest);
    assert "j" + ("" + "[" + (inside + Sub(step, rest))) == "j[" + i + "]" + Sub(step, rest);
  }

  // ---------- one text behind the other ----------

  /** In front of `rest` the step turns `x` into `y`. */
  ghost predicate Maps(step: Step, x: string, y: string, rest: string) {
    Sub(step, x + rest) == y + Sub(step, rest)
  }

  lemma MapsBoth(step: Step, x: string, x': string, y: string, y': string, rest: string)
    requires Maps(step, x, x', y + rest) && Maps(step, y, y', rest)
    ensures Maps(step, x + y, x' + y', rest)
  {
    hide Sub;
    assert (x + y) + rest == x + (y + rest);
    assert (x' + y') + Sub(step, rest) == x' + (y' + Sub(step, rest));
  }

  /** A text in which nothing starts. */
  predicate Still(x: string) { '[' !in x && (x == "" || x[|x| - 1] != 'j') }

  lemma MapsStill(step: Step, x: string, rest: string)
    requires Still(x)
    ensures Maps(step, x, x, rest)
  {
    SubSkip(step, x, rest);
  }

  lemma MapsNext(step: Step, x: string, x': string, y: string, rest: string)
    requires Maps(step, x, x', y + rest) && Still(y)
    ensures Maps(step, x + y, x' + y, rest)
  {
    hide Maps, Still;
    MapsStill(step, y, rest);
    MapsBoth(step, x, x', y, y, rest);
  }

  lemma StillMarks()
    ensures Still("(") && Still(")") && Still("]") && Still("{") && Still("}") && Still("){") && Still(",") &&
            Still(";")
    ensures Still("vec2<f32>(") && Still("for(") && Still("else{") && Still("")
  {}

  // ---------- what is printed ----------

  /** None of these characters. */
  predicate Lacks(x: string, c: char) { c !in x }

  lemma LacksBoth(x: string, y: string, c: char)
    requires Lacks(x, c) && Lacks(y, c)
    ensures Lacks(x + y, c)
  {}

  lemma LacksMarks(c: char)
    requires c in {'[', ']', ';'}
    ensures Lacks("(", c) && Lacks(")", c) && Lacks(".", c) && Lacks(",", c) && Lacks("", c)
    ensures c == ';' ==> Lacks("[", c) && Lacks("]", c) && Lacks("j[", c) && Lacks("j", c)
    ensures Lacks("vec2<f32>(", c) && Lacks("load_j(", c)
  {}

  lemma LacksWords(x: string, c: char)
    requires c in {'[', ']', ';'} && (Piece(x) || Letters(x) || Operator(x))
    ensures Lacks(x, c)
  {}

  lemma {:induction false} FlatLacks(e: Expr, c: char)
    requires (Flat(e) || e == Empty) && GoodE(e) && c in {'[', ']', ';'}
    ensures Lacks(PrintE(e), c)
  {
    hide Lacks, Piece, Letters, Operator;
    LacksMarks(c);
    match e
    case Empty =>
    case Const(w) => LacksWords(w, c);
    case Local(x) => LacksWords(x, c);
    case Infix(l, op, r) =>
      FlatLacks(l, c); FlatLacks(r, c); LacksWords(op, c);
      LacksBoth(PrintE(l), op, c); LacksBoth(PrintE(l) + op, PrintE(r), c);
    case Paren(a) => FlatLacks(a, c); LacksBoth("(", PrintE(a), c); LacksBoth("(" + PrintE(a), ")", c);
    case Call(f, a) =>
      FlatLacks(a, c); LacksWords(f, c);
      LacksBoth(f, "(", c); LacksBoth(f + "(", PrintE(a), c); LacksBoth(f + "(" + PrintE(a), ")", c);
    case Member(a, f) =>
      FlatLacks(a, c);
      LacksWords(f, c);
      LacksBoth(PrintE(a), ".", c);
      LacksBoth(PrintE(a) + ".", f, c);
  }

  lemma FlatText(e: Expr)
    requires Flat(e) && GoodE(e)
    ensures '[' !in PrintE(e) && ']' !in PrintE(e) && PrintE(e) != ""
  {
    FlatLacks(e, '[');
    FlatLacks(e, ']');
    SomeText(e);
  }

  lemma {:induction false} NoSemicolon(e: Expr)
    requires GoodE(e)
    ensures Lacks(PrintE(e), ';')
  {
    hide Lacks, Piece, Letters, Operator, Flat;
    LacksMarks(';');
    match e
    case Empty =>
    case Const(w) => LacksWords(w, ';');
    case Local(x) => LacksWords(x, ';');
    case Infix(l, op, r) =>
      NoSemicolon(l); NoSemicolon(r); LacksWords(op, ';');
      LacksBoth(PrintE(l), op, ';'); LacksBoth(PrintE(l) + op, PrintE(r), ';');
    case Paren(a) => NoSemicolon(a); LacksBoth("(", PrintE(a), ';'); LacksBoth("(" + PrintE(a), ")", ';');
    case Call(f, a) =>
      NoSemicolon(a); LacksWords(f, ';');
      LacksBoth(f, "(", ';'); LacksBoth(f + "(", PrintE(a), ';'); LacksBoth(f + "(" + PrintE(a), ")", ';');
    case Read(n, i) =>
      NoSemicolon(i); LacksWords(n, ';');
      LacksBoth(n, "[", ';'); LacksBoth(n + "[", PrintE(i), ';'); LacksBoth(n + "[" + PrintE(i), "]", ';');
    case Elem(i) => NoSemicolon(i); LacksBoth("j[", PrintE(i), ';'); LacksBoth("j[" + PrintE(i), "]", ';');
    case Member(a, f) =>
      NoSemicolon(a); LacksWords(f, ';'); LacksBoth(PrintE(a), ".", ';'); LacksBoth(PrintE(a) + ".", f, ';');
    case Pair(l, r) =>
      NoSemicolon(l); NoSemicolon(r);
      LacksBoth("vec2<f32>(", PrintE(l), ';'); LacksBoth("vec2<f32>(" + PrintE(l), ",", ';');
      LacksBoth("vec2<f32>(" + PrintE(l) + ",", PrintE(r), ';');
      LacksBoth("vec2<f32>(" + PrintE(l) + "," + PrintE(r), ")", ';');
    case Part(c, i) =>
      NoSemicolon(i); LacksLetter(c);
      LacksBoth("j", [c], ';'); LacksBoth("j" + [c], "[", ';'); LacksBoth("j" + [c] + "[", PrintE(i), ';');
      LacksBoth("j" + [c] + "[" + PrintE(i), "]", ';');
    case Load(i) => NoSemicolon(i); LacksBoth("load_j(", PrintE(i), ';'); LacksBoth("load_j(" + PrintE(i), ")", ';');
    case Garbled(a, rest) => NoSemicolon(a); LacksWords(rest, ';'); LacksBoth(PrintE(a), rest, ';');
  }

  lemma LacksLetter(c: char)
    requires c in COMPONENTS
    ensures Lacks([c], ';')
  {}

  lemma {:induction false} SomeText(e: Expr)
    requires GoodE(e) && e != Empty
    ensures PrintE(e) != ""
  {
    match e
    case Infix(l, op, r) => assert |PrintE(e)| >= |op|;
    case Garbled(a, rest) => SomeText(a);
    case _ =>
  }

  lemma TakeInfix(step: Step, l: Expr, op: string, r: Expr)
    ensures TakeE(step, Infix(l, op, r)) == Infix(TakeE(step, l), op, TakeE(step, r))
    ensures TakeE(step, Empty) == Empty
  {}

  lemma {:induction false} FlatTaken(step: Step, e: Expr)
    requires Flat(e)
    ensures TakeE(step, e) == e
  {
    match e
    case Infix(l, op, r) =>
      if l != Empty { FlatTaken(step, l); }
      FlatTaken(step, r);
      TakeInfix(step, l, op, r);
    case Paren(a) => FlatTaken(step, a);
    case Call(f, a) =>
      if a != Empty { FlatTaken(step, a); }
      TakeCall(step, f, a);
    case Member(a, _) => FlatTaken(step, a);
    case _ =>
  }

  lemma TakeCall(step: Step, f: string, a: Expr)
    ensures TakeE(step, Call(f, a)) == Call(f, TakeE(step, a)) && TakeE(step, Empty) == Empty
  {}

  // ---------- one expression ----------

  /** What may come behind the expression: nothing that is part of it or of a longer match. */
  predicate Follows(step: Step, e: Expr, rest: string) {
    && rest != "" && rest[0] != '[' && !WordChar(rest[0])
    && (EndsInElem(e) ==> rest[0] != '.' && (step == Wholes ==> rest[0] != '='))
  }

  /** The substitution of the text is the one of the tree, whatever follows. */
  ghost predicate Right(step: Step, e: Expr, rest: string) {
    Maps(step, PrintE(e), PrintE(TakeE(step, e)), rest)
  }

  predicate Clear(step: Step, e: Expr) {
    NamesClear(e) && (step == Wholes ==> SignsClear(e))
  }

  lemma {:induction false} SubE(step: Step, e: Expr, rest: string)
    requires GoodE(e) && Clear(step, e) && Follows(step, e, rest)
    ensures Right(step, e, rest)
    decreases e
  {
    hide Sub, PrintE, Right, TakeE, Piece, Word, Letters, Operator;
    match e
    case Empty => RightEmpty(step, rest);
    case Const(w) => RightPiece(step, e, w, rest);
    case Local(x) => RightPiece(step, e, x, rest);
    case Infix(l, op, r) =>
      OperatorStart(op);
      assert (op + (PrintE(r) + rest))[0] == op[0];
      SubE(step, l, op + (PrintE(r) + rest));
      SubE(step, r, rest);
      RightInfix(step, l, op, r, rest);
    case Paren(a) =>
      SubE(step, a, ")" + rest);
      RightParen(step, a, rest);
    case Call(f, a) =>
      SubE(step, a, ")" + rest);
      RightCall(step, f, a, rest);
    case Read(n, i) =>
      SubE(step, i, "]" + rest);
      RightRead(step, n, i, rest);
    case Elem(i) => RightElem(step, i, rest);
    case Member(a, f) =>
      if a.Elem? {
        RightField(step, a.index, f, rest);
      } else {
        SubE(step, a, "." + f + rest);
        RightMember(step, a, f, rest);
      }
    case Pair(l, r) =>
      SubE(step, r, ")" + rest);
      SubE(step, l, "," + (PrintE(r) + (")" + rest)));
      RightPair(step, l, r, rest);
    case Part(c, i) => RightPart(step, c, i, rest);
    case Load(i) => RightLoad(step, i, rest);
    case Garbled(a, more) =>
      RightParts(step, a, more + rest);
      RightGarbled(step, a, more, rest);
  }

  lemma OperatorStart(op: string)
    requires Operator(op)
    ensures op != "" && op[0] != '[' && !WordChar(op[0]) && op[0] != '.' && '[' !in op && op[|op| - 1] != 'j'
  {
    assert op[|op| - 1] in op;
  }

  lemma RightEmpty(step: Step, rest: string)
    ensures Right(step, Empty, rest)
  {
    hide Sub;
    assert "" + rest == rest && "" + Sub(step, rest) == Sub(step, rest);
  }

  lemma RightPiece(step: Step, e: Expr, x: string, rest: string)
    requires (e == Const(x) && Piece(x)) || (e == Local(x) && Word(x))
    requires rest != "" && rest[0] != '['
    ensures Right(step, e, rest)
  {
    hide Sub;
    SubSkip(step, x, rest);
  }

  lemma RightInfix(step: Step, l: Expr, op: string, r: Expr, rest: string)
    requires Operator(op) && Right(step, l, op + (PrintE(r) + rest)) && Right(step, r, rest)
    ensures Right(step, Infix(l, op, r), rest)
  {
    hide Maps, Operator, TakeE, Still;
    assert Still(op) by { OperatorStart(op); StillOperator(op); }
    TakeInfix(step, l, op, r);
    MapsNext(step, PrintE(l), PrintE(TakeE(step, l)), op, PrintE(r) + rest);
    MapsBoth(step, PrintE(l) + op, PrintE(TakeE(step, l)) + op, PrintE(r), PrintE(TakeE(step, r)), rest);
  }

  lemma StillOperator(op: string)
    requires '[' !in op && op != "" && op[|op| - 1] != 'j'
    ensures Still(op)
  {}

  /** Something in brackets behind a head. */
  lemma MapsAround(step: Step, head: string, head': string, x: string, x': string, close: string, rest: string)
    requires Maps(step, head, head', x + (close + rest)) && Maps(step, x, x', close + rest) && Still(close)
    ensures Maps(step, head + x + close, head' + x' + close, rest)
  {
    hide Maps, Still;
    MapsBoth(step, head, head', x, x', close + rest);
    MapsNext(step, head + x, head' + x', close, rest);
  }

  lemma RightParen(step: Step, a: Expr, rest: string)
    requires Right(step, a, ")" + rest)
    ensures Right(step, Paren(a), rest)
  {
    hide Maps, Still;
    StillMarks();
    MapsStill(step, "(", PrintE(a) + (")" + rest));
    MapsAround(step, "(", "(", PrintE(a), PrintE(TakeE(step, a)), ")", rest);
    assert TakeE(step, Paren(a)) == Paren(TakeE(step, a));
  }

  lemma RightCall(step: Step, f: string, a: Expr, rest: string)
    requires Piece(f) && Right(step, a, ")" + rest)
    ensures Right(step, Call(f, a), rest)
  {
    hide Maps, Still;
    StillMarks();
    StillCall(f);
    MapsStill(step, f + "(", PrintE(a) + (")" + rest));
    MapsAround(step, f + "(", f + "(", PrintE(a), PrintE(TakeE(step, a)), ")", rest);
    assert TakeE(step, Call(f, a)) == Call(f, TakeE(step, a));
  }

  lemma StillCall(f: string)
    requires Piece(f)
    ensures Still(f + "(")
  {}

  lemma RightRead(step: Step, n: string, i: Expr, rest: string)
    requires Word(n) && n[|n| - 1] != 'j' && Right(step, i, "]" + rest)
    ensures Right(step, Read(n, i), rest)
  {
    hide Maps, Still, TakeE;
    StillMarks();
    MapsBracket(step, n, PrintE(i) + ("]" + rest));
    MapsAround(step, n + "[", n + "[", PrintE(i), PrintE(TakeE(step, i)), "]", rest);
    TakeRead(step, n, i);
  }

  lemma TakeRead(step: Step, n: string, i: Expr)
    ensures TakeE(step, Read(n, i)) == Read(n, TakeE(step, i))
  {}

  lemma MapsBracket(step: Step, x: string, rest: string)
    requires '[' !in x && (x == "" || x[|x| - 1] != 'j')
    ensures Maps(step, x + "[", x + "[", rest)
  {
    SubBracket(step, x, rest);
  }

  lemma RightElem(step: Step, i: Expr, rest: string)
    requires Flat(i) && GoodE(i) && Follows(step, Elem(i), rest)
    ensures Right(step, Elem(i), rest)
  {
    hide Sub, Flat, GoodE;
    FlatText(i);
    SubElem(step, PrintE(i), rest);
    assert PrintE(Elem(i)) == "j[" + PrintE(i) + "]";
    if step == Loads {
      assert PrintE(Load(i)) == "load_j(" + PrintE(i) + ")" && rest[0..] == rest;
    }
  }

  lemma MapsField(step: Step, f: string, rest: string)
    requires Word(f) && rest != "" && rest[0] != '['
    ensures Maps(step, "." + f, "." + f, rest)
  {
    hide Sub;
    SubSkip(step, "." + f, rest);
  }

  lemma RightMember(step: Step, a: Expr, f: string, rest: string)
    requires Word(f) && !a.Elem? && Right(step, a, "." + f + rest) && rest != "" && rest[0] != '['
    ensures Right(step, Member(a, f), rest)
  {
    hide Maps, Word;
    var x, x' := PrintE(a), PrintE(TakeE(step, a));
    MapsField(step, f, rest);
    MapsBoth(step, x, x', "." + f, "." + f, rest);
    assert x + ("." + f) == x + "." + f && x' + ("." + f) == x' + "." + f;
    assert TakeE(step, Member(a, f)) == Member(TakeE(step, a), f);
  }

  /** What the step does at `j[i]` in front of a field. */
  ghost predicate SeenField(step: Step, i: string, f: string, rest: string) {
    var tail := "." + f + rest;
    var m := TailMatch(step, i, tail);
    && Sub(step, tail) == "." + f + Sub(step, rest)
    && Sub(step, "j[" + i + "]" + tail) ==
       if m.Some? then m.value.into + Sub(step, tail[m.value.length..]) else "j[" + i + "]" + Sub(step, tail)
  }

  lemma FieldSeen(step: Step, i: string, f: string, rest: string)
    requires i != "" && '[' !in i && ']' !in i && Word(f) && rest != "" && rest[0] != '['
    ensures SeenField(step, i, f, rest)
  {
    hide Sub, TailMatch;
    SubElem(step, i, "." + f + rest);
    SubSkip(step, "." + f, rest);
  }

  /** A field of a whole element: the patterns of the first two steps end in it. */
  lemma RightField(step: Step, i: Expr, f: string, rest: string)
    requires Flat(i) && GoodE(i) && Word(f) && rest != "" && rest[0] != '[' && !WordChar(rest[0])
    ensures Right(step, Member(Elem(i), f), rest)
  {
    hide Right, Flat, GoodE, Word, SeenField;
    FlatText(i);
    FieldSeen(step, PrintE(i), f, rest);
    match step
    case Pairs => FieldPairs(i, f, rest);
    case Parts => FieldParts(i, f, rest);
    case Wholes => FieldWholes(i, f, rest);
    case Loads => FieldLoads(i, f, rest);
  }

  lemma FieldWholes(i: Expr, f: string, rest: string)
    requires SeenField(Wholes, PrintE(i), f, rest)
    ensures Right(Wholes, Member(Elem(i), f), rest)
  {
    hide Sub, PrintE;
    FieldText(i, f, rest);
    MemberPrint(i, f);
  }

  lemma FieldText(i: Expr, f: string, rest: string)
    ensures PrintE(Member(Elem(i), f)) + rest == "j[" + PrintE(i) + "]" + ("." + f + rest)
  {
    hide PrintE;
    MemberPrint(i, f);
  }

  lemma FieldLoads(i: Expr, f: string, rest: string)
    requires SeenField(Loads, PrintE(i), f, rest)
    ensures Right(Loads, Member(Elem(i), f), rest)
  {
    hide Sub, PrintE, TakeE;
    FieldText(i, f, rest);
    var x, tail := "load_j(" + PrintE(i) + ")", "." + f + rest;
    assert tail[0..] == tail;
    LoadedText(i, f);
    Regroup(x, "." + f, Sub(Loads, rest));
    Regroup(x, ".", f);
  }

  lemma LoadedText(i: Expr, f: string)
    ensures PrintE(TakeE(Loads, Member(Elem(i), f))) == "load_j(" + PrintE(i) + ")" + "." + f
  {
    assert LoadE(Elem(i)) == Load(i) && LoadE(Member(Elem(i), f)) == Member(LoadE(Elem(i)), f);
    assert PrintE(Load(i)) == "load_j(" + PrintE(i) + ")";
  }

  lemma FieldPairs(i: Expr, f: string, rest: string)
    requires Word(f) && rest != "" && rest[0] != '[' && !WordChar(rest[0])
    requires SeenField(Pairs, PrintE(i), f, rest)
    ensures Right(Pairs, Member(Elem(i), f), rest)
  {
    hide Sub, PrintE, TakeE, TailMatch, BothParts;
    FieldText(i, f, rest);
    PairsMatch(PrintE(i), f, rest);
    PairsTaken(i, f);
    if "yz" <= f {
      PrintPair(i);
      SubSkip(Pairs, f[2..], rest);
      Regroup(PrintE(Pair(Part('y', i), Part('z', i))), f[2..], Sub(Pairs, rest));
    } else {
      MemberPrint(i, f);
    }
  }

  lemma PairsTaken(i: Expr, f: string)
    ensures PrintE(TakeE(Pairs, Member(Elem(i), f))) ==
            if "yz" <= f then PrintE(Pair(Part('y', i), Part('z', i))) + f[2..] else PrintE(Member(Elem(i), f))
  {
    hide PrintE;
    if "yz" <= f { GarbledPrint(Pair(Part('y', i), Part('z', i)), f[2..]); }
  }

  lemma PairsMatch(i: string, f: string, rest: string)
    requires Word(f) && rest != "" && !WordChar(rest[0])
    ensures var tail := "." + f + rest;
            && TailMatch(Pairs, i, tail) ==
               (if "yz" <= f then Some(Match(3, BothParts(i))) else None)
            && ("yz" <= f ==> |tail| >= 3 && tail[3..] == f[2..] + rest)
  {
    hide BothParts;
    YzAhead(f, rest);
  }

  /** With or without letters behind it. */
  lemma GarbledPrint(e: Expr, rest: string)
    ensures PrintE(Garbled(e, rest)) == PrintE(e) + rest
    ensures rest == "" ==> PrintE(e) == PrintE(e) + rest
  {}

  lemma MemberPrint(i: Expr, f: string)
    ensures PrintE(Member(Elem(i), f)) == "j[" + PrintE(i) + "]" + "." + f
  {}

  lemma PrintPair(i: Expr)
    ensures PrintE(Pair(Part('y', i), Part('z', i))) == BothParts(PrintE(i))
  {
    hide PrintE;
    PartText('y', i);
    PartText('z', i);
    PairText(Part('y', i), Part('z', i));
    assert "j" + ['y'] + "[" == "jy[" && "j" + ['z'] + "[" == "jz[";
    assert "vec2<f32>(" + ("jy[" + PrintE(i) + "]") == "vec2<f32>(" + "jy[" + PrintE(i) + "]";
    var x := "vec2<f32>(" + "jy[" + PrintE(i) + "]" + ",";
    assert x + ("jz[" + PrintE(i) + "]") == x + "jz[" + PrintE(i) + "]";
  }

  lemma PairText(l: Expr, r: Expr)
    ensures PrintE(Pair(l, r)) == "vec2<f32>(" + PrintE(l) + "," + PrintE(r) + ")"
  {}

  lemma YzAhead(f: string, rest: string)
    requires Word(f) && rest != "" && !WordChar(rest[0])
    ensures ".yz" <= "." + f + rest <==> "yz" <= f
  {
    var t := "." + f + rest;
    assert t[1] == f[0];
    assert ".yz" <= t <==> |t| >= 3 && t[1] == 'y' && t[2] == 'z' by {
      if |t| >= 3 { assert t[..3] == [t[0], t[1], t[2]]; }
    }
    assert "yz" <= f <==> |f| >= 2 && f[0] == 'y' && f[1] == 'z' by {
      if |f| >= 2 { assert f[..2] == [f[0], f[1]]; }
    }
    if |f| >= 2 { assert t[2] == f[1]; } else { assert t[2] == rest[0]; }
  }

  lemma FieldParts(i: Expr, f: string, rest: string)
    requires Word(f) && rest != "" && rest[0] != '['
    requires SeenField(Parts, PrintE(i), f, rest)
    ensures Right(Parts, Member(Elem(i), f), rest)
  {
    hide Sub, PrintE, TakeE, TailMatch, COMPONENTS;
    FieldText(i, f, rest);
    PartsMatch(PrintE(i), f, rest);
    PartsTaken(i, f);
    if f[0] in COMPONENTS {
      SubSkip(Parts, f[1..], rest);
      PartText(f[0], i);
      Regroup(PrintE(Part(f[0], i)), f[1..], Sub(Parts, rest));
    } else {
      MemberPrint(i, f);
    }
  }

  lemma Regroup(x: string, y: string, z: string)
    ensures x + (y + z) == x + y + z
  {}

  lemma PartsTaken(i: Expr, f: string)
    requires f != ""
    ensures PrintE(TakeE(Parts, Member(Elem(i), f))) ==
            if f[0] in COMPONENTS then PrintE(Part(f[0], i)) + f[1..] else PrintE(Member(Elem(i), f))
  {
    hide PrintE, COMPONENTS;
    GarbledPrint(Part(f[0], i), f[1..]);
  }

  lemma PartsMatch(i: string, f: string, rest: string)
    requires Word(f)
    ensures var tail := "." + f + rest;
            && TailMatch(Parts, i, tail) ==
               (if f[0] in COMPONENTS then Some(Match(2, "j" + [f[0]] + "[" + i + "]")) else None)
            && |tail| >= 2 && tail[2..] == f[1..] + rest
  {
    hide COMPONENTS;
    var tail := "." + f + rest;
    assert tail[0] == '.' && tail[1] == f[0];
  }

  lemma PartText(c: char, i: Expr)
    ensures PrintE(Part(c, i)) == "j" + [c] + "[" + PrintE(i) + "]" && PrintE(Load(i)) == "load_j(" + PrintE(i) + ")"
  {}

  lemma RightPair(step: Step, l: Expr, r: Expr, rest: string)
    requires Right(step, l, "," + (PrintE(r) + (")" + rest))) && Right(step, r, ")" + rest)
    ensures Right(step, Pair(l, r), rest)
  {
    hide Maps, Still, TakeE;
    TakePair(step, l, r);
    StillMarks();
    var x, x', y, y' := PrintE(l), PrintE(TakeE(step, l)), PrintE(r), PrintE(TakeE(step, r));
    MapsStill(step, "vec2<f32>(", x + ("," + (y + (")" + rest))));
    MapsAround(step, "vec2<f32>(", "vec2<f32>(", x, x', ",", y + (")" + rest));
    MapsBoth(step, "vec2<f32>(" + x + ",", "vec2<f32>(" + x' + ",", y, y', ")" + rest);
    MapsNext(step, "vec2<f32>(" + x + "," + y, "vec2<f32>(" + x' + "," + y', ")", rest);
  }

  lemma TakePair(step: Step, l: Expr, r: Expr)
    ensures TakeE(step, Pair(l, r)) == Pair(TakeE(step, l), TakeE(step, r))
  {}

  lemma RightPart(step: Step, c: char, i: Expr, rest: string)
    requires c in COMPONENTS && Flat(i) && GoodE(i)
    ensures Right(step, Part(c, i), rest)
  {
    hide Sub, Flat, GoodE;
    FlatText(i);
    var x, inside := "j" + [c], PrintE(i) + "]";
    SubSkip(step, inside, rest);
    SubBracket(step, x, inside + rest);
    assert PrintE(Part(c, i)) + rest == x + "[" + (inside + rest);
    assert TakeE(step, Part(c, i)) == Part(c, i);
  }

  lemma RightLoad(step: Step, i: Expr, rest: string)
    requires Flat(i) && GoodE(i)
    ensures Right(step, Load(i), rest)
  {
    hide Sub, Flat, GoodE;
    FlatText(i);
    var text := "load_j(" + PrintE(i) + ")";
    SubSkip(step, text, rest);
    assert TakeE(step, Load(i)) == Load(i) && PrintE(Load(i)) == text;
  }

  lemma RightParts(step: Step, a: Expr, rest: string)
    requires (a.Part? || (a.Pair? && a.l.Part? && a.r.Part?)) && GoodE(a)
    ensures Right(step, a, rest)
  {
    hide Sub, Right, PrintE;
    if a.Part? {
      RightPart(step, a.c, a.index, rest);
    } else {
      assert GoodE(a.l) && GoodE(a.r);
      RightPart(step, a.r.c, a.r.index, ")" + rest);
      RightPart(step, a.l.c, a.l.index, "," + (PrintE(a.r) + (")" + rest)));
      RightPair(step, a.l, a.r, rest);
    }
  }

  lemma RightGarbled(step: Step, a: Expr, more: string, rest: string)
    requires a.Part? || (a.Pair? && a.l.Part? && a.r.Part?)
    requires Right(step, a, more + rest) && Letters(more) && rest != "" && rest[0] != '['
    ensures Right(step, Garbled(a, more), rest)
  {
    hide Sub, PrintE;
    SubSkip(step, more, rest);
    if a.Pair? { TakePair(step, a.l, a.r); }
    assert TakeE(step, a) == a && TakeE(step, Garbled(a, more)) == Garbled(a, more);
    GarbledPrint(a, more);
    assert PrintE(a) + more + rest == PrintE(a) + (more + rest);
    assert PrintE(a) + more + Sub(step, rest) == PrintE(a) + (more + Sub(step, rest));
  }

  // ---------- one statement ----------

  predicate ClearSimple(step: Step, a: Simple) {
    NamesClearSimple(a) && (step == Wholes ==> SignsClearSimple(a))
  }

  ghost predicate RightSimple(step: Step, a: Simple, rest: string) {
    Maps(step, PrintSimple(a), PrintSimple(TakeSimple(step, a)), rest)
  }

  /** A simple statement in front of its `;`, or an update in front of the closing parenthesis. */
  lemma SubSimple(step: Step, a: Simple, rest: string)
    requires GoodSimple(a) && ClearSimple(step, a) && rest != ""
    requires rest[0] == ';' || (rest[0] == ')' && (step == Wholes ==> !IsStore(a)))
    ensures RightSimple(step, a, rest)
  {
    hide Sub, PrintE, TakeE, GoodE, NamesClear, SignsClear, Right, Word, Letters, Operator;
    match a
    case Nothing => assert "" + rest == rest && "" + Sub(step, rest) == Sub(step, rest);
    case Declare(k, x, op, e) =>
      SubE(step, e, rest);
      RightDeclare(step, k, x, op, e, rest);
    case Assign(to, op, e) =>
      if IsStore(a) && step == Wholes {
        RightStore(to.index, op, e, rest);
      } else {
        SubE(step, e, rest);
        RightAssign(step, to, op, e, rest);
      }
    case Store(i, gap, e) =>
      SubE(step, e, ")" + rest);
      RightStored(step, i, gap, e, rest);
    case Do(e) =>
      SubE(step, e, rest);
      RightDo(step, e, rest);
  }

  lemma RightDo(step: Step, e: Expr, rest: string)
    requires Right(step, e, rest)
    ensures RightSimple(step, Do(e), rest)
  {
    hide Maps, PrintE, TakeE;
  }

  lemma RightDeclare(step: Step, k: string, x: string, op: string, e: Expr, rest: string)
    requires Word(k) && Word(x) && Operator(op) && Right(step, e, rest)
    ensures RightSimple(step, Declare(k, x, op, e), rest)
  {
    hide Maps, PrintE, TakeE, Still;
    var head := k + " " + x + op;
    assert Still(head) by { StillDeclare(k, x, op); }
    MapsStill(step, head, PrintE(e) + rest);
    MapsBoth(step, head, head, PrintE(e), PrintE(TakeE(step, e)), rest);
  }

  lemma StillDeclare(k: string, x: string, op: string)
    requires Word(k) && Word(x) && Operator(op)
    ensures Still(k + " " + x + op)
  {
    OperatorStart(op);
    WordsLack(k);
    WordsLack(x);
  }

  lemma WordsLack(x: string)
    requires Word(x)
    ensures '[' !in x
  {}

  lemma RightAssign(step: Step, to: Expr, op: string, e: Expr, rest: string)
    requires GoodSimple(Assign(to, op, e)) && Right(step, e, rest) && Clear(step, to) && rest != ""
    requires step == Wholes ==> !IsStore(Assign(to, op, e))
    ensures RightSimple(step, Assign(to, op, e), rest)
  {
    hide Maps, PrintE, TakeE, GoodE, Operator, NamesClear, SignsClear, Still;
    OperatorStart(op);
    assert Still(op) by { StillOperator(op); }
    var tail := op + (PrintE(e) + rest);
    assert tail[0] == op[0];
    if to.Elem? {
      RightTarget(step, to.index, tail);
    } else {
      SubE(step, to, tail);
    }
    MapsNext(step, PrintE(to), PrintE(TakeE(step, to)), op, PrintE(e) + rest);
    MapsBoth(step, PrintE(to) + op, PrintE(TakeE(step, to)) + op, PrintE(e), PrintE(TakeE(step, e)), rest);
  }

  /** A whole element in front of an operator that the step does not see. */
  lemma RightTarget(step: Step, i: Expr, rest: string)
    requires GoodE(Elem(i)) && rest != "" && rest[0] != '.' && rest[0] != '[' && !WordChar(rest[0])
    requires step == Wholes ==> rest[0] != '='
    ensures Right(step, Elem(i), rest)
  {
    RightElem(step, i, rest);
  }

  /** The whole store: the pattern takes everything up to the `;`. */
  lemma RightStore(i: Expr, op: string, e: Expr, rest: string)
    requires GoodSimple(Assign(Elem(i), op, e)) && op[0] == '=' && rest != "" && rest[0] == ';'
    ensures RightSimple(Wholes, Assign(Elem(i), op, e), rest)
  {
    hide Sub, PrintE, GoodE, Operator, Flat;
    assert Flat(i) && GoodE(i) && GoodE(e) && e != Empty by { ElemParts(i); }
    FlatText(i);
    NoSemicolon(e);
    SomeText(e);
    LacksWords(op, ';');
    assert op != "" by { OperatorStart(op); }
    StoreText(PrintE(i), op, PrintE(e), rest);
    ElemPrint(i);
  }

  lemma StoreText(i: string, op: string, e: string, rest: string)
    requires i != "" && '[' !in i && ']' !in i && op != "" && op[0] == '=' && Lacks(op, ';')
    requires Lacks(e, ';') && e != "" && rest != "" && rest[0] == ';'
    ensures Sub(Wholes, "j[" + i + "]" + op + e + rest) ==
            "store_j(" + i + "," + op[1..] + e + ")" + Sub(Wholes, rest)
  {
    hide Sub, TailMatch, Lacks;
    StoreTail(i, op, e, rest);
    SubElem(Wholes, i, op + e + rest);
    ElemInFront(i, op, e, rest);
    SkipMark(rest);
    StoreEnd(i, op, e, Sub(Wholes, rest[1..]));
  }

  lemma ElemInFront(i: string, op: string, e: string, rest: string)
    ensures "j[" + i + "]" + op + e + rest == "j[" + i + "]" + (op + e + rest)
  {}

  lemma SkipMark(rest: string)
    requires rest != "" && rest[0] == ';'
    ensures Sub(Wholes, rest) == ";" + Sub(Wholes, rest[1..])
  {
    hide Sub;
    NoMatch(Wholes, rest);
  }

  lemma StoreEnd(i: string, op: string, e: string, rest: string)
    requires op != ""
    ensures "store_j(" + i + "," + (op[1..] + e) + ");" + rest ==
            "store_j(" + i + "," + op[1..] + e + ")" + (";" + rest)
  {
    var x, y := "store_j(" + i + ",", op[1..];
    assert x + (y + e) + ");" + rest == x + y + e + ")" + (";" + rest);
  }

  lemma ElemParts(i: Expr)
    requires GoodE(Elem(i))
    ensures Flat(i) && GoodE(i)
  {}

  lemma ElemPrint(i: Expr)
    ensures PrintE(Elem(i)) == "j[" + PrintE(i) + "]"
  {}

  /** What the store pattern sees behind `j[i]`. */
  lemma StoreTail(i: string, op: string, e: string, rest: string)
    requires op != "" && op[0] == '=' && Lacks(op, ';') && Lacks(e, ';') && e != "" && rest != "" && rest[0] == ';'
    ensures var tail := op + e + rest;
            && TailMatch(Wholes, i, tail) == Some(Match(|op| + |e| + 1, "store_j(" + i + "," + (op[1..] + e) + ");"))
            && tail[|op| + |e| + 1..] == rest[1..]
  {
    var tail, end := op + e + rest, |op| + |e|;
    assert forall m | 1 <= m < end :: tail[m] == if m < |op| then op[m] else e[m - |op|];
    FirstPlace(tail, ';', 1, end);
    assert tail[1..end] == op[1..] + e;
  }

  lemma RightStored(step: Step, i: Expr, gap: string, e: Expr, rest: string)
    requires GoodSimple(Store(i, gap, e)) && Right(step, e, ")" + rest)
    ensures RightSimple(step, Store(i, gap, e), rest)
  {
    hide Maps, PrintE, TakeE, GoodE, Flat, Operator, Still;
    FlatTaken(step, i);
    var head := "store_j(" + PrintE(i) + "," + gap;
    assert Still(head) by { StillStore(i, gap); }
    StillMarks();
    MapsStill(step, head, PrintE(e) + (")" + rest));
    MapsAround(step, head, head, PrintE(e), PrintE(TakeE(step, e)), ")", rest);
  }

  lemma StillStore(i: Expr, gap: string)
    requires Flat(i) && GoodE(i) && (gap == "" || Operator(gap))
    ensures Still("store_j(" + PrintE(i) + "," + gap)
  {
    hide PrintE, Flat, GoodE, Operator;
    FlatText(i);
    if gap != "" { OperatorStart(gap); }
  }

  predicate ClearIn(step: Step, s: Stmt) {
    NamesClearIn(s) && (step == Wholes ==> SignsClearIn(s))
  }

  ghost predicate RightIn(step: Step, s: Stmt, rest: string) {
    Maps(step, Print(s), Print(Take(step, s)), rest)
  }

  /** An expression in front of a mark. */
  lemma SubMarked(step: Step, e: Expr, mark: string, rest: string)
    requires GoodE(e) && Clear(step, e) && mark in {";", "){"}
    ensures Right(step, e, mark + rest)
  {
    hide Right, GoodE, Clear;
    assert (mark + rest)[0] == mark[0];
    SubE(step, e, mark + rest);
  }

  /** Wherever a statement is printed, each step does to its text what it does to its tree. */
  lemma {:induction false} SubStmt(step: Step, s: Stmt, rest: string)
    requires Good(s) && ClearIn(step, s)
    ensures RightIn(step, s, rest)
    decreases s, 1
  {
    hide Print, RightIn, Good, ClearIn;
    if s.Plain? || s.Return? {
      SubPlain(step, s, rest);
    } else if s.Seq? {
      SubSeq(step, s, rest);
    } else if s.If? || s.While? || s.Loop? {
      SubHeaded(step, s, rest);
    } else if s.IfElse? {
      SubElse(step, s, rest);
    } else if s.For? {
      SubFor(step, s, rest);
    } else {
      RightWords(step, s, rest);
    }
  }

  lemma SubPlain(step: Step, s: Stmt, rest: string)
    requires (s.Plain? || s.Return?) && Good(s) && ClearIn(step, s)
    ensures RightIn(step, s, rest)
  {
    hide Print, Right, RightSimple, RightIn, GoodE, GoodSimple, NamesClear, SignsClear, NamesClearSimple,
         SignsClearSimple, Blank;
    if s.Plain? {
      SubSimple(step, s.a, ";" + rest);
      RightPlain(step, s.a, rest);
    } else {
      SubMarked(step, s.e, ";", rest);
      RightReturn(step, s.gap, s.e, rest);
    }
  }

  lemma {:induction false} SubSeq(step: Step, s: Stmt, rest: string)
    requires s.Seq? && Good(s) && ClearIn(step, s)
    ensures RightIn(step, s, rest)
    decreases s, 0
  {
    hide Print, RightIn;
    SubStmt(step, s.first, Print(s.second) + rest);
    SubStmt(step, s.second, rest);
    RightSeq(step, s.first, s.second, rest);
  }

  lemma {:induction false} SubHeaded(step: Step, s: Stmt, rest: string)
    requires (s.If? || s.While? || s.Loop?) && Good(s) && ClearIn(step, s)
    ensures RightIn(step, s, rest)
    decreases s, 0
  {
    hide Print, Right, RightIn, GoodE, NamesClear, SignsClear, Blank;
    SubStmt(step, s.body, "}" + rest);
    if s.Loop? {
      RightLoop(step, s.gap, s.body, rest);
    } else {
      SubMarked(step, s.cond, "){", Print(s.body) + ("}" + rest));
      if s.If? { RightIf(step, s.gap, s.cond, s.body, rest); } else { RightWhile(step, s.gap, s.cond, s.body, rest); }
    }
  }

  lemma {:induction false} SubElse(step: Step, s: Stmt, rest: string)
    requires s.IfElse? && Good(s) && ClearIn(step, s)
    ensures RightIn(step, s, rest)
    decreases s, 0
  {
    hide Print, Right, RightIn, GoodE, NamesClear, SignsClear, Blank, PrintE;
    var IfElse(gap, c, a, gap2, b) := s;
    var tail := "}" + gap2 + "else{" + (Print(b) + ("}" + rest));
    SubStmt(step, b, "}" + rest);
    SubStmt(step, a, tail);
    SubMarked(step, c, "){", Print(a) + tail);
    RightIfElse(step, gap, c, a, gap2, b, rest);
  }

  lemma {:induction false} SubFor(step: Step, s: Stmt, rest: string)
    requires s.For? && Good(s) && ClearIn(step, s)
    ensures RightIn(step, s, rest)
    decreases s, 0
  {
    hide Print, Right, RightSimple, RightIn, GoodE, GoodSimple, NamesClear, SignsClear, NamesClearSimple,
         SignsClearSimple, PrintE, PrintSimple, IsStore;
    var For(init, c, update, a) := s;
    var behind := "){" + (Print(a) + ("}" + rest));
    SubSimple(step, init, ";" + (PrintE(c) + (";" + (PrintSimple(update) + behind))));
    SubMarked(step, c, ";", PrintSimple(update) + behind);
    SubSimple(step, update, behind);
    SubStmt(step, a, "}" + rest);
    RightFor(step, init, c, update, a, rest);
  }

  lemma RightWords(step: Step, s: Stmt, rest: string)
    requires Good(s) && (s.Gap? || s.Break? || s.Continue?)
    ensures RightIn(step, s, rest)
  {
    assert Take(step, s) == s;
    MapsStill(step, Print(s), rest);
  }

  lemma RightPlain(step: Step, a: Simple, rest: string)
    requires RightSimple(step, a, ";" + rest)
    ensures RightIn(step, Plain(a), rest)
  {
    hide Maps, PrintSimple, TakeSimple, Still;
    StillMarks();
    MapsNext(step, PrintSimple(a), PrintSimple(TakeSimple(step, a)), ";", rest);
  }

  lemma RightReturn(step: Step, gap: string, e: Expr, rest: string)
    requires Blank(gap) && Right(step, e, ";" + rest)
    ensures RightIn(step, Return(gap, e), rest)
  {
    hide Maps, PrintE, TakeE, Still;
    assert Still("return" + gap) by { StillHeads(gap); }
    StillMarks();
    MapsStill(step, "return" + gap, PrintE(e) + (";" + rest));
    MapsAround(step, "return" + gap, "return" + gap, PrintE(e), PrintE(TakeE(step, e)), ";", rest);
  }

  lemma StillHeads(gap: string)
    requires Blank(gap)
    ensures Still("return" + gap) && Still("if" + gap + "(") && Still("while" + gap + "(") && Still("loop" + gap + "{")
    ensures Still("}" + gap + "else{")
  {}

  lemma RightSeq(step: Step, a: Stmt, b: Stmt, rest: string)
    requires RightIn(step, a, Print(b) + rest) && RightIn(step, b, rest)
    ensures RightIn(step, Seq(a, b), rest)
  {
    hide Maps;
    MapsBoth(step, Print(a), Print(Take(step, a)), Print(b), Print(Take(step, b)), rest);
  }

  /** A condition in parentheses and a body in braces. */
  lemma MapsHead(step: Step, head: string, c: Expr, a: Stmt, rest: string)
    requires Still(head) && Right(step, c, "){" + (Print(a) + ("}" + rest))) && RightIn(step, a, "}" + rest)
    ensures Maps(step, head + PrintE(c) + "){" + Print(a) + "}",
                 head + PrintE(TakeE(step, c)) + "){" + Print(Take(step, a)) + "}", rest)
  {
    hide Maps, Print, PrintE, TakeE, Take, Still;
    StillMarks();
    var x, x', y, y' := PrintE(c), PrintE(TakeE(step, c)), Print(a), Print(Take(step, a));
    MapsStill(step, head, x + ("){" + (y + ("}" + rest))));
    MapsAround(step, head, head, x, x', "){", y + ("}" + rest));
    MapsBoth(step, head + x + "){", head + x' + "){", y, y', "}" + rest);
    MapsNext(step, head + x + "){" + y, head + x' + "){" + y', "}", rest);
  }

  lemma RightIf(step: Step, gap: string, c: Expr, a: Stmt, rest: string)
    requires Blank(gap) && Right(step, c, "){" + (Print(a) + ("}" + rest))) && RightIn(step, a, "}" + rest)
    ensures RightIn(step, If(gap, c, a), rest)
  {
    hide Maps, PrintE, TakeE, Still;
    StillHeads(gap);
    MapsHead(step, "if" + gap + "(", c, a, rest);
    assert Take(step, If(gap, c, a)) == If(gap, TakeE(step, c), Take(step, a));
  }

  lemma RightWhile(step: Step, gap: string, c: Expr, a: Stmt, rest: string)
    requires Blank(gap) && Right(step, c, "){" + (Print(a) + ("}" + rest))) && RightIn(step, a, "}" + rest)
    ensures RightIn(step, While(gap, c, a), rest)
  {
    hide Maps, PrintE, TakeE, Still;
    StillHeads(gap);
    MapsHead(step, "while" + gap + "(", c, a, rest);
    assert Take(step, While(gap, c, a)) == While(gap, TakeE(step, c), Take(step, a));
  }

  lemma RightLoop(step: Step, gap: string, a: Stmt, rest: string)
    requires Blank(gap) && RightIn(step, a, "}" + rest)
    ensures RightIn(step, Loop(gap, a), rest)
  {
    hide Maps, Still;
    StillHeads(gap);
    StillMarks();
    MapsStill(step, "loop" + gap + "{", Print(a) + ("}" + rest));
    MapsAround(step, "loop" + gap + "{", "loop" + gap + "{", Print(a), Print(Take(step, a)), "}", rest);
  }

  lemma RightIfElse(step: Step, gap: string, c: Expr, a: Stmt, gap2: string, b: Stmt, rest: string)
    requires Blank(gap) && Blank(gap2)
    requires Right(step, c, "){" + (Print(a) + ("}" + gap2 + "else{" + (Print(b) + ("}" + rest)))))
    requires RightIn(step, a, "}" + gap2 + "else{" + (Print(b) + ("}" + rest))) && RightIn(step, b, "}" + rest)
    ensures RightIn(step, IfElse(gap, c, a, gap2, b), rest)
  {
    hide Maps, PrintE, TakeE, Still, Print, Take;
    StillHeads(gap);
    StillHeads(gap2);
    StillMarks();
    var head, word, tail := "if" + gap + "(", "}" + gap2 + "else{", Print(b) + ("}" + rest);
    var x, x', y, y' := PrintE(c), PrintE(TakeE(step, c)), Print(a), Print(Take(step, a));
    MapsStill(step, head, x + ("){" + (y + (word + tail))));
    MapsAround(step, head, head, x, x', "){", y + (word + tail));
    MapsBoth(step, head + x + "){", head + x' + "){", y, y', word + tail);
    MapsNext(step, head + x + "){" + y, head + x' + "){" + y', word, tail);
    var z, z' := head + x + "){" + y + word, head + x' + "){" + y' + word;
    MapsBoth(step, z, z', Print(b), Print(Take(step, b)), "}" + rest);
    MapsNext(step, z + Print(b), z' + Print(Take(step, b)), "}", rest);
    PrintElse(gap, c, a, gap2, b);
    PrintElse(gap, TakeE(step, c), Take(step, a), gap2, Take(step, b));
    TakeElse(step, gap, c, a, gap2, b);
  }

  lemma TakeElse(step: Step, gap: string, c: Expr, a: Stmt, gap2: string, b: Stmt)
    ensures Take(step, IfElse(gap, c, a, gap2, b)) == IfElse(gap, TakeE(step, c), Take(step, a), gap2, Take(step, b))
  {}

  lemma PrintElse(gap: string, c: Expr, a: Stmt, gap2: string, b: Stmt)
    ensures Print(IfElse(gap, c, a, gap2, b)) ==
            "if" + gap + "(" + PrintE(c) + "){" + Print(a) + ("}" + gap2 + "else{") + Print(b) + "}"
  {
    hide PrintE;
    var x := "if" + gap + "(" + PrintE(c) + "){" + Print(a);
    assert x + "}" + gap2 + "else{" == x + ("}" + gap2 + "else{");
  }

  lemma RightFor(step: Step, init: Simple, c: Expr, update: Simple, a: Stmt, rest: string)
    requires var behind := "){" + (Print(a) + ("}" + rest));
             && RightSimple(step, init, ";" + (PrintE(c) + (";" + (PrintSimple(update) + behind))))
             && Right(step, c, ";" + (PrintSimple(update) + behind))
             && RightSimple(step, update, behind) && RightIn(step, a, "}" + rest)
    ensures RightIn(step, For(init, c, update, a), rest)
  {
    hide Maps, PrintE, TakeE, PrintSimple, TakeSimple, Still, Print, Take;
    StillMarks();
    var i, i', x, x' := PrintSimple(init), PrintSimple(TakeSimple(step, init)), PrintE(c), PrintE(TakeE(step, c));
    var u, u', y, y' := PrintSimple(update), PrintSimple(TakeSimple(step, update)), Print(a), Print(Take(step, a));
    var behind := "){" + (y + ("}" + rest));
    MapsStill(step, "for(", i + (";" + (x + (";" + (u + behind)))));
    MapsAround(step, "for(", "for(", i, i', ";", x + (";" + (u + behind)));
    MapsAround(step, "for(" + i + ";", "for(" + i' + ";", x, x', ";", u + behind);
    MapsAround(step, "for(" + i + ";" + x + ";", "for(" + i' + ";" + x' + ";", u, u', "){", y + ("}" + rest));
    MapsAround(step, "for(" + i + ";" + x + ";" + u + "){", "for(" + i' + ";" + x' + ";" + u' + "){", y, y', "}", rest);
    PrintFor(init, c, update, a);
    PrintFor(TakeSimple(step, init), TakeE(step, c), TakeSimple(step, update), Take(step, a));
    TakeFor(step, init, c, update, a);
  }

  lemma PrintFor(init: Simple, c: Expr, update: Simple, a: Stmt)
    ensures Print(For(init, c, update, a)) ==
            "for(" + PrintSimple(init) + ";" + PrintE(c) + ";" + PrintSimple(update) + "){" + Print(a) + "}"
  {}

  lemma TakeFor(step: Step, init: Simple, c: Expr, update: Simple, a: Stmt)
    ensures Take(step, For(init, c, update, a)) ==
            For(TakeSimple(step, init), TakeE(step, c), TakeSimple(step, update), Take(step, a))
  {}
}
