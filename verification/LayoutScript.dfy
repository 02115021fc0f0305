/** The script on a whole shader: the array's declaration, the four regular expressions and the last check. */
module LayoutScript {
  import opened Outcomes
  import opened LayoutPass
  import opened LayoutText
  import opened LayoutSteps
  import opened LayoutRefinement

  const DECLARATION := "var<workgroup> j:array<vec4<f32>,1024>;"

  /** The four arrays and the two functions that read and write an element of all four. */
  const ARRAYS :=
    ("var<workgroup> " + "jx" + ":array<f32,1024>;") + ("var<workgroup> " + "jy" + ":array<f32,1024>;") +
    ("var<workgroup> " + "jz" + ":array<f32,1024>;") + ("var<workgroup> " + "jw" + ":array<f32,1024>;")

  const LOAD :=
    "\nfn load_j(idx:u32)->vec4<f32>{return " +
    ("vec4<f32>(" + "jx[idx]" + "," + "jy[idx]" + "," + "jz[idx]" + "," + "jw[idx]" + ")") + ";}"

  const STORE :=
    "\nfn store_j(idx:u32,v:vec4<f32>){" +
    ("jx[idx]=v.x;" + ("jy[idx]=v.y;" + ("jz[idx]=v.z;" + "jw[idx]=v.w;"))) + "}\n"

  const DECLARATIONS := ARRAYS + LOAD + STORE

  /** `str.replace`: all places, from left to right. */
  function Replace(t: string, from: string, into: string): string
    requires from != ""
  {
    if t == "" then ""
    else if from <= t then into + Replace(t[|from|..], from, into)
    else [t[0]] + Replace(t[1..], from, into)
  }

  datatype Error = StillIndexed

  /** The script. It stops when the array is still indexed somewhere. */
  function Optimize(t: string): Result<string, Error> {
    var s := SubAll(SCRIPT, Replace(t, DECLARATION, DECLARATIONS));
    if NoIndex(s) then Success(s) else Failure(StillIndexed)
  }

  // ---------- the declaration ----------

  /** The text stands between these two and nowhere else. */
  ghost predicate Once(before: string, x: string, after: string) {
    forall k | 0 <= k <= |before + x + after| && x <= (before + x + after)[k..] :: k == |before|
  }

  lemma {:induction false} NoneLeft(t: string, x: string, into: string)
    requires x != "" && forall k | 0 <= k <= |t| :: !(x <= t[k..])
    ensures Replace(t, x, into) == t
  {
    if t != "" {
      assert t[0..] == t;
      forall k | 0 <= k <= |t[1..]| ensures !(x <= t[1..][k..]) {
        assert t[1..][k..] == t[k + 1..];
      }
      NoneLeft(t[1..], x, into);
    }
  }

  lemma {:induction false} ReplaceOnce(before: string, x: string, after: string, into: string)
    requires x != "" && Once(before, x, after)
    ensures Replace(before + x + after, x, into) == before + into + after
    decreases before
  {
    hide Replace, Once;
    if before == "" {
      ReplaceHere(x, after, into);
      assert before + x + after == x + after && before + into + after == into + after;
    } else {
      OnceBehind(before, x, after);
      var rest := before[1..] + x + after;
      assert before + x + after == [before[0]] + rest;
      ReplaceLater(before[0], rest, x, into);
      ReplaceOnce(before[1..], x, after, into);
      assert [before[0]] + (before[1..] + into + after) == before + into + after;
    }
  }

  lemma ReplaceHere(x: string, after: string, into: string)
    requires x != "" && Once("", x, after)
    ensures Replace(x + after, x, into) == into + after
  {
    var t := x + after;
    assert "" + x + after == t && t[|x|..] == after;
    forall k | 0 <= k <= |after| ensures !(x <= after[k..]) {
      assert after[k..] == t[|x| + k..];
    }
    NoneLeft(after, x, into);
  }

  lemma OnceBehind(before: string, x: string, after: string)
    requires before != "" && x != "" && Once(before, x, after)
    ensures Once(before[1..], x, after) && !(x <= before + x + after)
  {
    var t, rest := before + x + after, before[1..] + x + after;
    assert t[0..] == t && t[1..] == rest;
    forall k | 0 <= k <= |rest| && x <= rest[k..] ensures k == |before[1..]| {
      assert rest[k..] == t[k + 1..];
    }
  }

  lemma ReplaceLater(c: char, rest: string, x: string, into: string)
    requires x != "" && !(x <= [c] + rest)
    ensures Replace([c] + rest, x, into) == [c] + Replace(rest, x, into)
  {
    assert ([c] + rest)[1..] == rest;
  }

  // ---------- nothing left to index ----------

  lemma QuietBoth(x: string, y: string)
    requires Quiet(x) && Quiet(y)
    ensures Quiet(x + y)
  {
    var t := x + y;
    forall k | 0 <= k < |t| - 1 && t[k] == 'j' ensures t[k + 1] != '[' {
      assert k + 1 < |x| ==> t[k] == x[k] && t[k + 1] == x[k + 1];
      assert k >= |x| ==> t[k] == y[k - |x|] && t[k + 1] == y[k + 1 - |x|];
    }
  }

  lemma QuietThree(x: string, y: string, z: string)
    requires Quiet(x) && Quiet(y) && Quiet(z)
    ensures Quiet(x + y + z)
  {
    hide Quiet;
    QuietBoth(x, y);
    QuietBoth(x + y, z);
  }

  lemma QuietText(x: string)
    requires '[' !in x
    ensures Quiet(x)
  {}

  lemma QuietName(n: string)
    requires Word(n) && n[|n| - 1] != 'j'
    ensures Quiet(n + "[")
  {
    WordsLack(n);
    assert forall k | 0 <= k < |n| :: (n + "[")[k] == n[k] && n[k] in n;
  }

  lemma QuietWords(x: string)
    requires Piece(x) || Letters(x) || Operator(x)
    ensures Quiet(x)
  {
    hide Quiet, Piece, Letters, Operator;
    LacksWords(x, '[');
    QuietText(x);
  }

  lemma QuietFlat(i: Expr)
    requires Flat(i) && GoodE(i)
    ensures Quiet(PrintE(i))
  {
    hide Quiet, Flat, GoodE;
    FlatText(i);
    QuietText(PrintE(i));
  }

  /** With the whole loads replaced, `j[` is nowhere in an expression. */
  lemma {:induction false} QuietE(e: Expr)
    requires GoodE(e) && NamesClear(e)
    ensures Quiet(PrintE(LoadE(e)))
  {
    hide Quiet, PrintE, LoadE, Piece, Word, Letters, Operator, Flat;
    LoadPrint(e);
    match e
    case Empty => QuietText("");
    case Const(w) => QuietWords(w);
    case Local(x) => assert Letters(x) by { LettersOf(x); } QuietWords(x);
    case Infix(l, op, r) => QuietE(l); QuietE(r); QuietWords(op); QuietThree(PrintE(LoadE(l)), op, PrintE(LoadE(r)));
    case Paren(a) => QuietE(a); QuietText("("); QuietText(")"); QuietThree("(", PrintE(LoadE(a)), ")");
    case Call(f, a) =>
      QuietE(a); QuietWords(f); QuietText("("); QuietText(")");
      QuietBoth(f, "(");
      QuietThree(f + "(", PrintE(LoadE(a)), ")");
    case Read(n, i) => QuietE(i); QuietName(n); QuietText("]"); QuietThree(n + "[", PrintE(LoadE(i)), "]");
    case Elem(i) => QuietFlat(i); QuietText("load_j("); QuietText(")"); QuietThree("load_j(", PrintE(i), ")");
    case Member(a, f) =>
      assert Letters(f) by { LettersOf(f); }
      QuietE(a); QuietText("."); QuietWords(f); QuietThree(PrintE(LoadE(a)), ".", f);
    case Pair(l, r) =>
      QuietE(l); QuietE(r); QuietText("vec2<f32>("); QuietText(","); QuietText(")");
      QuietThree("vec2<f32>(", PrintE(LoadE(l)), ",");
      QuietThree("vec2<f32>(" + PrintE(LoadE(l)) + ",", PrintE(LoadE(r)), ")");
    case Part(c, i) => QuietPart(c, i);
    case Load(i) => QuietFlat(i); QuietText("load_j("); QuietText(")"); QuietThree("load_j(", PrintE(i), ")");
    case Garbled(a, rest) => QuietE(a); QuietWords(rest); QuietBoth(PrintE(a), rest);
  }

  lemma LettersOf(x: string)
    requires Word(x)
    ensures Letters(x)
  {}

  lemma QuietPart(c: char, i: Expr)
    requires c in COMPONENTS && Flat(i) && GoodE(i)
    ensures Quiet("j" + [c] + "[" + PrintE(i) + "]")
  {
    hide Flat, GoodE, PrintE;
    QuietFlat(i);
    QuietText("]");
    var head := "j" + [c] + "[";
    assert head[0] == 'j' && head[1] == c && head[2] == '[' && |head| == 3;
    QuietThree(head, PrintE(i), "]");
  }

  lemma LoadPrint(e: Expr)
    requires GoodE(e)
    ensures PrintE(LoadE(e)) ==
      match e
      case Empty => ""
      case Const(w) => w
      case Local(x) => x
      case Infix(l, op, r) => PrintE(LoadE(l)) + op + PrintE(LoadE(r))
      case Paren(a) => "(" + PrintE(LoadE(a)) + ")"
      case Call(f, a) => f + "(" + PrintE(LoadE(a)) + ")"
      case Read(n, i) => n + "[" + PrintE(LoadE(i)) + "]"
      case Elem(i) => "load_j(" + PrintE(i) + ")"
      case Member(a, f) => PrintE(LoadE(a)) + "." + f
      case Pair(l, r) => "vec2<f32>(" + PrintE(LoadE(l)) + "," + PrintE(LoadE(r)) + ")"
      case Part(c, i) => "j" + [c] + "[" + PrintE(i) + "]"
      case Load(i) => "load_j(" + PrintE(i) + ")"
      case Garbled(a, rest) => PrintE(a) + rest
    ensures e.Garbled? ==> LoadE(e.e) == e.e
  {
    if e.Garbled? && e.e.Pair? { assert LoadE(e.e.l) == e.e.l && LoadE(e.e.r) == e.e.r; }
  }

  lemma QuietSimple(a: Simple)
    requires GoodSimple(a) && NamesClearSimple(a)
    ensures Quiet(PrintSimple(TakeSimple(Loads, a)))
  {
    hide Quiet, PrintE, LoadE, GoodE, NamesClear, Operator, Word, Flat, Postfix;
    match a
    case Nothing => QuietText("");
    case Declare(k, x, op, e) =>
      QuietE(e);
      QuietHead(k, x, op);
      QuietBoth(k + " " + x + op, PrintE(LoadE(e)));
    case Assign(to, op, e) =>
      QuietE(to);
      QuietE(e);
      QuietWords(op);
      QuietThree(PrintE(LoadE(to)), op, PrintE(LoadE(e)));
    case Store(i, gap, e) =>
      FlatTaken(Loads, i);
      QuietE(e);
      QuietStored(i, gap);
      QuietText(")");
      QuietThree("store_j(" + PrintE(i) + "," + gap, PrintE(LoadE(e)), ")");
    case Do(e) => QuietE(e);
  }

  lemma QuietHead(k: string, x: string, op: string)
    requires Word(k) && Word(x) && Operator(op)
    ensures Quiet(k + " " + x + op)
  {
    hide Quiet, Operator;
    WordsLack(k);
    WordsLack(x);
    LacksWords(op, '[');
    QuietText(k + " " + x + op);
  }

  lemma QuietStored(i: Expr, gap: string)
    requires Flat(i) && GoodE(i) && (gap == "" || Operator(gap))
    ensures Quiet("store_j(" + PrintE(i) + "," + gap)
  {
    hide Quiet, PrintE, Flat, GoodE, Operator;
    FlatText(i);
    if gap != "" { LacksWords(gap, '['); }
    QuietText("store_j(" + PrintE(i) + "," + gap);
  }

  lemma QuietMarks(gap: string)
    requires Blank(gap)
    ensures Quiet(gap) && Quiet("return" + gap) && Quiet("if" + gap + "(") && Quiet("while" + gap + "(")
    ensures Quiet("loop" + gap + "{") && Quiet("}" + gap + "else{")
    ensures Quiet(";") && Quiet("){") && Quiet("}") && Quiet("for(") && Quiet("break;") && Quiet("continue;")
  {}

  lemma {:induction false} QuietStmt(s: Stmt)
    requires Good(s) && NamesClearIn(s)
    ensures Quiet(Print(Take(Loads, s)))
  {
    hide Quiet, PrintE, LoadE, GoodE, NamesClear, GoodSimple, NamesClearSimple, PrintSimple, TakeSimple, Blank;
    if s.Gap? || s.Break? || s.Continue? {
      QuietMarks(if s.Gap? then s.text else "") by { Blanks(); }
    } else if s.Plain? {
      QuietSimple(s.a);
      QuietMarks("") by { Blanks(); }
      QuietBoth(PrintSimple(TakeSimple(Loads, s.a)), ";");
    } else if s.Return? {
      QuietE(s.e);
      QuietMarks(s.gap);
      QuietThree("return" + s.gap, PrintE(LoadE(s.e)), ";");
    } else if s.Seq? {
      QuietStmt(s.first);
      QuietStmt(s.second);
      QuietBoth(Print(Take(Loads, s.first)), Print(Take(Loads, s.second)));
    } else if s.For? {
      QuietStmt(s.body);
      QuietFor(s);
    } else {
      QuietStmt(s.body);
      if s.IfElse? { QuietStmt(s.other); }
      QuietBraced(s);
    }
  }

  lemma Blanks()
    ensures Blank("")
  {}

  lemma QuietFor(s: Stmt)
    requires s.For? && Good(s) && NamesClearIn(s) && Quiet(Print(Take(Loads, s.body)))
    ensures Quiet(Print(Take(Loads, s)))
  {
    hide Quiet, PrintE, LoadE, GoodE, NamesClear, GoodSimple, NamesClearSimple, PrintSimple, TakeSimple, Blank, Print,
         Take;
    QuietMarks("") by { Blanks(); }
    QuietSimple(s.init);
    QuietE(s.cond);
    QuietSimple(s.update);
    TakeFor(Loads, s.init, s.cond, s.update, s.body);
    PrintFor(TakeSimple(Loads, s.init), LoadE(s.cond), TakeSimple(Loads, s.update), Take(Loads, s.body));
    var i, c, u := PrintSimple(TakeSimple(Loads, s.init)), PrintE(LoadE(s.cond)),
        PrintSimple(TakeSimple(Loads, s.update));
    QuietThree("for(", i, ";");
    QuietThree("for(" + i + ";", c, ";");
    QuietThree("for(" + i + ";" + c + ";", u, "){");
    QuietThree("for(" + i + ";" + c + ";" + u + "){", Print(Take(Loads, s.body)), "}");
  }

  lemma QuietBraced(s: Stmt)
    requires (s.If? || s.IfElse? || s.While? || s.Loop?) && Good(s) && NamesClearIn(s)
    requires Quiet(Print(Take(Loads, s.body))) && (s.IfElse? ==> Quiet(Print(Take(Loads, s.other))))
    ensures Quiet(Print(Take(Loads, s)))
  {
    hide Quiet, PrintE, LoadE, GoodE, NamesClear, Blank;
    QuietMarks(s.gap);
    var y := Print(Take(Loads, s.body));
    if s.Loop? {
      QuietThree("loop" + s.gap + "{", y, "}");
    } else {
      QuietE(s.cond);
      var head, c := if s.While? then "while" + s.gap + "(" else "if" + s.gap + "(", PrintE(LoadE(s.cond));
      QuietThree(head, c, "){");
      if s.IfElse? {
        QuietMarks(s.gap2);
        var word, z := "}" + s.gap2 + "else{", Print(Take(Loads, s.other));
        QuietThree(head + c + "){", y, word);
        QuietThree(head + c + "){" + y + word, z, "}");
        TakeElse(Loads, s.gap, s.cond, s.body, s.gap2, s.other);
        PrintElse(s.gap, LoadE(s.cond), Take(Loads, s.body), s.gap2, Take(Loads, s.other));
      } else {
        QuietThree(head + c + "){", y, "}");
      }
    }
  }

  lemma {:induction false} QuietFunctions(fs: seq<Function>)
    requires forall i | 0 <= i < |fs| :: GoodFunction(fs[i]) && NamesClearIn(fs[i].body)
    ensures Quiet(PrintFunctions(TakeFunctions(Loads, fs)))
  {
    hide Quiet, Print, Take, Good, NamesClearIn;
    if fs == [] {
      QuietText("");
    } else {
      QuietFunctions(fs[1..]);
      QuietStmt(fs[0].body);
      assert TakeFunctions(Loads, fs)[1..] == TakeFunctions(Loads, fs[1..]);
      QuietBoth(Print(Take(Loads, fs[0].body)), PrintFunctions(TakeFunctions(Loads, fs[1..])));
      QuietBoth(fs[0].head, Print(Take(Loads, fs[0].body)) + PrintFunctions(TakeFunctions(Loads, fs[1..])));
    }
  }

  // ---------- the script ----------

  /** Functions whose bodies are source programs; between them the array has no index. */
  predicate SourceFile(f: File) {
    GoodFile(f) && forall i | 0 <= i < |f.functions| :: Source(f.functions[i].body)
  }

  /** The same functions, all four substitutions made in every body. */
  function SoaFile(f: File): File {
    File(seq(|f.functions|,
             i requires 0 <= i < |f.functions| => Function(f.functions[i].head, Soa(f.functions[i].body))),
         f.tail)
  }

  lemma ScriptIsSoaFile(f: File)
    ensures PassFile(SCRIPT, f) == TakeFile(Loads, TakeFile(Wholes, TakeFile(Parts, TakeFile(Pairs, f))))
  {
    hide TakeFile;
    var a, b, c := SCRIPT[1..], SCRIPT[2..], SCRIPT[3..];
    assert a[1..] == b && b[1..] == c && c[1..] == [];
    var f1 := TakeFile(Pairs, f);
    var f2 := TakeFile(Parts, f1);
    var f3 := TakeFile(Wholes, f2);
    assert PassFile(c, f3) == PassFile(c[1..], TakeFile(Loads, f3)) == TakeFile(Loads, f3);
    assert PassFile(b, f2) == PassFile(c, f3) && PassFile(a, f1) == PassFile(b, f2);
  }

  lemma TakenAsSoa(f: File)
    ensures TakeFile(Loads, TakeFile(Wholes, TakeFile(Parts, TakeFile(Pairs, f)))) == SoaFile(f)
  {
    hide Take;
    var g := TakeFile(Loads, TakeFile(Wholes, TakeFile(Parts, TakeFile(Pairs, f))));
    assert |g.functions| == |f.functions|;
    assert forall i | 0 <= i < |f.functions| :: g.functions[i] == SoaFile(f).functions[i];
  }

  /** What the last check looks for is gone. */
  lemma NothingIndexed(f: File)
    requires GoodFile(f) && FileClear(Pairs, f)
    ensures NoIndex(PrintFile(SoaFile(f)))
  {
    hide SoaFile, PrintFunctions, TakeFunctions, Good, Quiet, NoIndex, NamesClearIn;
    var f1 := TakeFile(Pairs, f);
    var f2 := TakeFile(Parts, f1);
    var f3 := TakeFile(Wholes, f2);
    TakenFile(Pairs, f);
    TakenFile(Parts, f1);
    TakenFile(Wholes, f2);
    TakenAsSoa(f);
    forall i | 0 <= i < |f3.functions| ensures GoodFunction(f3.functions[i]) && NamesClearIn(f3.functions[i].body) {
      assert ClearIn(Pairs, f3.functions[i].body);
    }
    QuietFunctions(f3.functions);
    QuietBoth(PrintFunctions(TakeFunctions(Loads, f3.functions)), f3.tail);
    QuietNoIndex(PrintFile(SoaFile(f)));
  }

  lemma QuietNoIndex(x: string)
    requires Quiet(x)
    ensures NoIndex(x)
  {}

  /** The script rewrites a shader that declares the array once: it succeeds, and what it writes is every
      body with the substitutions made on its tree, everything else as it was. */
  lemma OptimizesShader(before: string, after: string, f: File)
    requires Once(before, DECLARATION, after) && before + DECLARATIONS + after == PrintFile(f) && SourceFile(f)
    ensures Optimize(before + DECLARATION + after) == Success(PrintFile(SoaFile(f)))
  {
    hide SubAll, Replace, PrintFile, GoodFile, SoaFile, NoIndex, Once;
    ReplaceOnce(before, DECLARATION, after, DECLARATIONS);
    AllClear(f);
    assert Distinct(SCRIPT);
    ScriptOnFile(SCRIPT, f);
    ScriptIsSoaFile(f);
    TakenAsSoa(f);
    NothingIndexed(f);
  }

  lemma AllClear(f: File)
    requires SourceFile(f)
    ensures FileClear(Pairs, f) && FileClear(Wholes, f)
  {
    hide Good, SourceStmt, NamesClearIn, SignsClearIn;
  }
}
