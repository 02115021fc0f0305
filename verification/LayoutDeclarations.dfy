/** The declarations the layout script writes: the functions that read and write an element of all four
    arrays mean what the calls of them are taken to mean. */
module LayoutDeclarations {
  import opened Outcomes
  import opened LayoutPass
  import opened LayoutText
  import opened LayoutSteps
  import opened LayoutRefinement
  import opened LayoutScript

  // ---------- the functions ----------

  const IDX := Local("idx")

  /** `vec4<f32>(a,b,c,d)` */
  function PrintVector(a: Expr, b: Expr, c: Expr, d: Expr): string {
    "vec4<f32>(" + PrintE(a) + "," + PrintE(b) + "," + PrintE(c) + "," + PrintE(d) + ")"
  }

  ghost function EvalVector<S>(mc: Machine<S>, a: Expr, b: Expr, c: Expr, d: Expr, st: State<S>): Option<Value<S>> {
    var x, y, z, w := Eval(mc, a, st), Eval(mc, b, st), Eval(mc, c, st), Eval(mc, d, st);
    if x.Some? && y.Some? && z.Some? && w.Some? && x.value.One? && y.value.One? && z.value.One? && w.value.One?
    then Some(Four(Vec4(x.value.s, y.value.s, z.value.s, w.value.s))) else None
  }

  /** `jx[idx]=v.x;` and so on. */
  function StorePart(c: char): Stmt {
    Plain(Assign(Part(c, IDX), "=", Member(Local("v"), [c])))
  }

  function StoreBody(): Stmt {
    Seq(StorePart('x'), Seq(StorePart('y'), Seq(StorePart('z'), StorePart('w'))))
  }

  function PrintArray(name: string): string { "var<workgroup> " + name + ":array<f32,1024>;" }

  /** The state in which the functions run: their arguments and the shared arrays. */
  ghost function LoadCall<S>(i: Value<S>, sh: Shared<S>): State<S> { State(map["idx" := i], map[], sh) }

  ghost function StoreCall<S>(i: Value<S>, v: Value<S>, sh: Shared<S>): State<S> {
    State(map["idx" := i, "v" := v], map[], sh)
  }

  // ---------- what is written ----------

  lemma PartsOfIdx()
    ensures PrintE(Part('x', IDX)) == "jx[idx]" && PrintE(Part('y', IDX)) == "jy[idx]"
    ensures PrintE(Part('z', IDX)) == "jz[idx]" && PrintE(Part('w', IDX)) == "jw[idx]"
  {
    assert PrintE(IDX) == "idx";
    assert forall c :: PrintE(Part(c, IDX)) == "j" + [c] + "[" + "idx" + "]";
  }

  lemma StorePartText(c: char)
    ensures Print(StorePart(c)) == PrintE(Part(c, IDX)) + "=" + "v." + [c] + ";"
  {
    hide PrintE;
    assert PrintE(Member(Local("v"), [c])) == "v." + [c] by { ValuePart(c); }
    assert PrintE(Part(c, IDX)) + "=" + ("v." + [c]) == PrintE(Part(c, IDX)) + "=" + "v." + [c];
  }

  lemma ValuePart(c: char)
    ensures PrintE(Member(Local("v"), [c])) == "v." + [c]
  {
    assert PrintE(Local("v")) == "v";
  }

  lemma StorePartTexts()
    ensures Print(StorePart('x')) == "jx[idx]=v.x;" && Print(StorePart('y')) == "jy[idx]=v.y;"
    ensures Print(StorePart('z')) == "jz[idx]=v.z;" && Print(StorePart('w')) == "jw[idx]=v.w;"
  {
    hide Print, PrintE, StorePart;
    PartsOfIdx();
    StorePartText('x');
    StorePartText('y');
    StorePartText('z');
    StorePartText('w');
  }

  lemma BodyText()
    ensures Print(StoreBody()) ==
            Print(StorePart('x')) + (Print(StorePart('y')) + (Print(StorePart('z')) + Print(StorePart('w'))))
  {
    var last := Seq(StorePart('z'), StorePart('w'));
    var more := Seq(StorePart('y'), last);
    assert Print(last) == Print(StorePart('z')) + Print(StorePart('w'));
    assert Print(more) == Print(StorePart('y')) + Print(last);
  }

  /** The script's text is the print of four arrays and these two functions. */
  lemma DeclarationsText()
    ensures DECLARATIONS ==
            PrintArray("jx") + PrintArray("jy") + PrintArray("jz") + PrintArray("jw")
            + ("\nfn load_j(idx:u32)->vec4<f32>{return "
               + PrintVector(Part('x', IDX), Part('y', IDX), Part('z', IDX), Part('w', IDX)) + ";}")
            + ("\nfn store_j(idx:u32,v:vec4<f32>){" + Print(StoreBody()) + "}\n")
  {
    hide Print, PrintE, StorePart;
    PartsOfIdx();
    StorePartTexts();
    BodyText();
  }

  // ---------- what the functions do ----------

  lemma LoadPart<S>(mc: Machine<S>, c: char, i: Value<S>, sh: Shared<S>)
    requires sh.Split?
    ensures var s := PartAt(sh, c, mc.index(i));
            Eval(mc, Part(c, IDX), LoadCall(i, sh)) == if s.Some? then Some(One(s.value)) else None
  {
    assert Eval(mc, IDX, LoadCall(i, sh)) == Some(i);
  }

  /** Running `load_j` gives what a call of it is taken to give, at every index. */
  lemma LoadDefined<S>(mc: Machine<S>, index: Expr, st: State<S>)
    requires st.shared.Split?
    ensures var i := Eval(mc, index, st);
            Eval(mc, Load(index), st) ==
            if i.None? then None
            else EvalVector(mc, Part('x', IDX), Part('y', IDX), Part('z', IDX), Part('w', IDX),
                            LoadCall(i.value, st.shared))
  {
    hide PartAt, LoadAt, EvalVector;
    var i := Eval(mc, index, st);
    if i.Some? { LoadRuns(mc, i.value, st.shared); }
  }

  lemma LoadRuns<S>(mc: Machine<S>, i: Value<S>, sh: Shared<S>)
    requires sh.Split?
    ensures EvalVector(mc, Part('x', IDX), Part('y', IDX), Part('z', IDX), Part('w', IDX), LoadCall(i, sh)) ==
            LoadAt(sh, mc.index(i))
  {
    hide PartAt, Eval, LoadCall;
    LoadPart(mc, 'x', i, sh);
    LoadPart(mc, 'y', i, sh);
    LoadPart(mc, 'z', i, sh);
    LoadPart(mc, 'w', i, sh);
  }

  lemma StoreStep<S>(mc: Machine<S>, c: char, i: Value<S>, v: Vec4<S>, sh: Shared<S>, fuel: nat)
    requires sh.Split? && c in COMPONENTS
    ensures Exec(mc, StorePart(c), StoreCall(i, Four(v), sh), fuel) ==
            if PartAt(sh, c, mc.index(i)).Some?
            then Done(Normal, StoreCall(i, Four(v), SetPart(sh, c, mc.index(i), Select(v, c)))) else Failed
  {
    hide PartAt, SetPart, Select;
    var st := StoreCall(i, Four(v), sh);
    assert Bare("=") == "=" + Bare("") == "=";
    assert Eval(mc, Local("v"), st) == Some(Four(v)) && Eval(mc, IDX, st) == Some(i);
    assert FieldOf(mc, Four(v), [c]) == One(Select(v, c)) by { assert |[c]| == 1 && |"yz"| == 2; }
    assert Eval(mc, Member(Local("v"), [c]), st) == Some(One(Select(v, c)));
    assert Combined(mc, Part(c, IDX), "=", One(Select(v, c)), st) == Some(One(Select(v, c)));
    assert Exec(mc, StorePart(c), st, fuel) == OrFailed(Put(mc, Part(c, IDX), One(Select(v, c)), st));
  }

  /** Running `store_j` gives what a call of it is taken to give, at every index: the four components are
      stored, or the call fails. */
  lemma StoreDefined<S>(mc: Machine<S>, index: Expr, gap: string, e: Expr, st: State<S>, fuel: nat)
    requires st.shared.Split?
    ensures var v, i := Eval(mc, e, st), Eval(mc, index, st);
            ExecSimple(mc, Store(index, gap, e), st) ==
            if v.None? || !v.value.Four? || i.None? then Failed
            else
              var run := Exec(mc, StoreBody(), StoreCall(i.value, v.value, st.shared), fuel);
              if run.Done? then Done(Normal, st.(shared := run.st.shared)) else Failed
  {
    var v, i := Eval(mc, e, st), Eval(mc, index, st);
    if v.Some? && v.value.Four? && i.Some? {
      BodyRuns(mc, i.value, v.value.v, st.shared, fuel);
    }
  }

  lemma BodyRuns<S>(mc: Machine<S>, i: Value<S>, v: Vec4<S>, sh: Shared<S>, fuel: nat)
    requires sh.Split?
    ensures var after := StoreAt(sh, mc.index(i), v);
            Exec(mc, StoreBody(), StoreCall(i, Four(v), sh), fuel) ==
            if after.Some? then Done(Normal, StoreCall(i, Four(v), after.value)) else Failed
  {
    hide StorePart, PartAt, SetPart, StoreCall, Exec;
    var at := mc.index(i);
    var last := Seq(StorePart('z'), StorePart('w'));
    var more := Seq(StorePart('y'), last);
    StoreThen(mc, 'x', more, i, v, sh, fuel);
    if PartAt(sh, 'x', at).Some? {
      SetKeepsSplit(sh, 'x', at, v.x);
      var a := SetPart(sh, 'x', at, v.x);
      StoreThen(mc, 'y', last, i, v, a, fuel);
      if PartAt(a, 'y', at).Some? {
        SetKeepsSplit(a, 'y', at, v.y);
        var b := SetPart(a, 'y', at, v.y);
        StoreThen(mc, 'z', StorePart('w'), i, v, b, fuel);
        if PartAt(b, 'z', at).Some? {
          SetKeepsSplit(b, 'z', at, v.z);
          StoreStep(mc, 'w', i, v, SetPart(b, 'z', at, v.z), fuel);
        }
      }
    }
  }

  /** One component and then the rest. */
  lemma StoreThen<S>(mc: Machine<S>, c: char, rest: Stmt, i: Value<S>, v: Vec4<S>, sh: Shared<S>, fuel: nat)
    requires sh.Split? && c in COMPONENTS
    ensures Exec(mc, Seq(StorePart(c), rest), StoreCall(i, Four(v), sh), fuel) ==
            if PartAt(sh, c, mc.index(i)).Some?
            then Exec(mc, rest, StoreCall(i, Four(v), SetPart(sh, c, mc.index(i), Select(v, c))), fuel) else Failed
  {
    hide StorePart, PartAt, SetPart, StoreCall, Select;
    StoreStep(mc, c, i, v, sh, fuel);
  }

  lemma SetKeepsSplit<S>(sh: Shared<S>, c: char, i: int, s: S)
    requires sh.Split? && PartAt(sh, c, i).Some?
    ensures i >= 0 && SetPart(sh, c, i, s).Split?
  {}

  // ---------- the whole script ----------

  /** The file with the declaration in one head replaced. */
  function Redeclared(f: File, d: nat, a: string, b: string): File
    requires d < |f.functions|
  {
    File(f.functions[d := Function(a + DECLARATIONS + b, f.functions[d].body)], f.tail)
  }

  lemma {:induction false} PrintAt(fs: seq<Function>, d: nat)
    requires d < |fs|
    ensures PrintFunctions(fs) ==
            PrintFunctions(fs[..d]) + (fs[d].head + (Print(fs[d].body) + PrintFunctions(fs[d + 1..])))
  {
    hide Print;
    if d == 0 {
      assert fs[..0] == [];
    } else {
      PrintAt(fs[1..], d - 1);
      assert fs[..d][1..] == fs[1..][..d - 1] && fs[1..][d - 1 + 1..] == fs[d + 1..];
      var x, y := Print(fs[0].body), fs[d].head + (Print(fs[d].body) + PrintFunctions(fs[d + 1..]));
      assert PrintFunctions(fs[1..]) == PrintFunctions(fs[1..][..d - 1]) + y;
      assert fs[0].head + (x + (PrintFunctions(fs[1..][..d - 1]) + y)) ==
             (fs[0].head + (x + PrintFunctions(fs[1..][..d - 1]))) + y;
    }
  }

  /** The text in front of the declaration and behind it. */
  ghost function Ahead(f: File, d: nat, a: string): string
    requires d < |f.functions|
  {
    PrintFunctions(f.functions[..d]) + a
  }

  ghost function Rest(f: File, d: nat, b: string): string
    requires d < |f.functions|
  {
    b + (Print(f.functions[d].body) + PrintFunctions(f.functions[d + 1..]) + f.tail)
  }

  lemma FileAround(f: File, d: nat, a: string, x: string, b: string)
    requires d < |f.functions| && f.functions[d].head == a + x + b
    ensures PrintFile(f) == Ahead(f, d, a) + x + Rest(f, d, b)
  {
    hide Print, PrintFunctions;
    PrintAt(f.functions, d);
    var p, q := PrintFunctions(f.functions[..d]), Print(f.functions[d].body);
    var r := PrintFunctions(f.functions[d + 1..]);
    Around(p, a, x, b, q, r, f.tail);
  }

  lemma Around(p: string, a: string, x: string, b: string, q: string, r: string, t: string)
    ensures p + (a + x + b + (q + r)) + t == p + a + x + (b + (q + r + t))
  {}

  lemma NoIndexBoth(x: string, y: string)
    requires NoIndex(x) && NoIndex(y) && (x == "" || y == "" || x[|x| - 1] != 'j' || y[0] != '[')
    ensures NoIndex(x + y)
  {
    var t := x + y;
    forall k | 0 <= k < |t| - 1 && t[k] == 'j' ensures t[k + 1] != '[' {
      assert k + 1 < |x| ==> t[k] == x[k] && t[k + 1] == x[k + 1];
      assert k >= |x| ==> t[k] == y[k - |x|] && t[k + 1] == y[k + 1 - |x|];
    }
  }

  lemma NoIndexParts(a: string, x: string, b: string)
    requires NoIndex(a + x + b)
    ensures NoIndex(a) && NoIndex(b)
  {
    var t := a + x + b;
    assert forall k | 0 <= k < |a| :: t[k] == a[k];
    assert forall k | 0 <= k < |b| :: t[|a| + |x| + k] == b[k];
  }

  lemma QuietReads()
    ensures Quiet("jx[idx]") && Quiet("jy[idx]") && Quiet("jz[idx]") && Quiet("jw[idx]")
  {}

  lemma QuietStores()
    ensures Quiet("jx[idx]=v.x;") && Quiet("jy[idx]=v.y;") && Quiet("jz[idx]=v.z;") && Quiet("jw[idx]=v.w;")
  {
    hide Quiet;
    QuietReads();
    QuietText("=v.x;");
    QuietText("=v.y;");
    QuietText("=v.z;");
    QuietText("=v.w;");
    StoreTexts();
    QuietBoth("jx[idx]", "=v.x;");
    QuietBoth("jy[idx]", "=v.y;");
    QuietBoth("jz[idx]", "=v.z;");
    QuietBoth("jw[idx]", "=v.w;");
  }

  lemma StoreTexts()
    ensures "jx[idx]" + "=v.x;" == "jx[idx]=v.x;" && "jy[idx]" + "=v.y;" == "jy[idx]=v.y;"
    ensures "jz[idx]" + "=v.z;" == "jz[idx]=v.z;" && "jw[idx]" + "=v.w;" == "jw[idx]=v.w;"
  {}

  lemma QuietNames()
    ensures Quiet("jx") && Quiet("jy") && Quiet("jz") && Quiet("jw") && Quiet(",") && Quiet(")")
    ensures Quiet("var<workgroup> ") && Quiet(":array<f32,1024>;") && Quiet(";}") && Quiet("}\n")
  {
    hide Quiet;
    QuietText("jx");
    QuietText("jy");
    QuietText("jz");
    QuietText("jw");
    QuietText(",");
    QuietText(")");
    QuietText("var<workgroup> ");
    QuietText(":array<f32,1024>;");
    QuietText(";}");
    QuietText("}\n");
  }

  lemma QuietHeads()
    ensures Quiet("vec4<f32>(") && Quiet("\nfn load_j(idx:u32)->vec4<f32>{return ")
    ensures Quiet("\nfn store_j(idx:u32,v:vec4<f32>){")
  {
    hide Quiet;
    QuietText("vec4<f32>(");
    QuietLoadHead();
    QuietStoreHead();
  }

  lemma QuietLoadHead()
    ensures Quiet("\nfn load_j(idx:u32)->vec4<f32>{return ")
  {
    hide Quiet;
    QuietText("\nfn load_j(idx:u32)->vec4<f32>{return ");
  }

  lemma QuietStoreHead()
    ensures Quiet("\nfn store_j(idx:u32,v:vec4<f32>){")
  {
    hide Quiet;
    QuietText("\nfn store_j(idx:u32,v:vec4<f32>){");
  }

  lemma QuietDeclarations()
    ensures Quiet(DECLARATIONS)
  {
    hide Quiet;
    QuietReads();
    QuietStores();
    QuietNames();
    QuietHeads();
    QuietThree("var<workgroup> ", "jx", ":array<f32,1024>;");
    QuietThree("var<workgroup> ", "jy", ":array<f32,1024>;");
    QuietThree("var<workgroup> ", "jz", ":array<f32,1024>;");
    QuietThree("var<workgroup> ", "jw", ":array<f32,1024>;");
    var x, y := "var<workgroup> " + "jx" + ":array<f32,1024>;", "var<workgroup> " + "jy" + ":array<f32,1024>;";
    QuietThree(x, y, "var<workgroup> " + "jz" + ":array<f32,1024>;");
    QuietBoth(x + y + ("var<workgroup> " + "jz" + ":array<f32,1024>;"), "var<workgroup> " + "jw" + ":array<f32,1024>;");
    QuietThree("vec4<f32>(", "jx[idx]", ",");
    QuietThree("vec4<f32>(" + "jx[idx]" + ",", "jy[idx]", ",");
    QuietThree("vec4<f32>(" + "jx[idx]" + "," + "jy[idx]" + ",", "jz[idx]", ",");
    QuietThree("vec4<f32>(" + "jx[idx]" + "," + "jy[idx]" + "," + "jz[idx]" + ",", "jw[idx]", ")");
    QuietThree("\nfn load_j(idx:u32)->vec4<f32>{return ",
               "vec4<f32>(" + "jx[idx]" + "," + "jy[idx]" + "," + "jz[idx]" + "," + "jw[idx]" + ")", ";}");
    QuietBoth("jz[idx]=v.z;", "jw[idx]=v.w;");
    QuietBoth("jy[idx]=v.y;", "jz[idx]=v.z;" + "jw[idx]=v.w;");
    QuietBoth("jx[idx]=v.x;", "jy[idx]=v.y;" + ("jz[idx]=v.z;" + "jw[idx]=v.w;"));
    QuietThree("\nfn store_j(idx:u32,v:vec4<f32>){",
               "jx[idx]=v.x;" + ("jy[idx]=v.y;" + ("jz[idx]=v.z;" + "jw[idx]=v.w;")), "}\n");
    QuietThree(ARRAYS, LOAD, STORE);
  }

  /** The head with the new declarations is as good as the old one. */
  lemma RedeclaredGood(f: File, d: nat, a: string, b: string)
    requires d < |f.functions| && f.functions[d].head == a + DECLARATION + b && SourceFile(f)
    ensures SourceFile(Redeclared(f, d, a, b))
  {
    hide Source, Good, NoIndex;
    var g, x := Redeclared(f, d, a, b), DECLARATION;
    assert GoodFunction(f.functions[d]) && NoIndex(a + x + b);
    QuietDeclarations();
    QuietNoIndex(DECLARATIONS);
    NoIndexParts(a, x, b);
    Edges();
    NoIndexBoth(a, DECLARATIONS);
    NoIndexBoth(a + DECLARATIONS, b);
    assert Good(f.functions[d].body);
    HeadEnds(a, b);
    assert GoodFunction(g.functions[d]);
    forall i | 0 <= i < |g.functions| ensures GoodFunction(g.functions[i]) && Source(g.functions[i].body) {
      assert GoodFunction(f.functions[i]) && Source(f.functions[i].body);
    }
  }

  lemma Edges()
    ensures DECLARATION != "" && DECLARATIONS != "" && DECLARATIONS[0] == 'v' && DECLARATION[0] == 'v'
    ensures DECLARATIONS[|DECLARATIONS| - 1] == '\n' && DECLARATION[|DECLARATION| - 1] == ';'
  {
    assert STORE[|STORE| - 1] == "}\n"[1];
  }

  lemma HeadEnds(a: string, b: string)
    requires Quiet(a + DECLARATION + b) && (a + DECLARATION + b)[|a + DECLARATION + b| - 1] != 'j'
    ensures var t := a + DECLARATIONS + b; t != "" && t[0] != '[' && t[|t| - 1] != 'j'
  {
    hide NoIndex;
    Edges();
    var s, t := a + DECLARATION + b, a + DECLARATIONS + b;
    assert s[0] == if a == "" then 'v' else a[0];
    assert t[0] == if a == "" then 'v' else a[0];
    if b != "" { assert s[|s| - 1] == b[|b| - 1] && t[|t| - 1] == b[|b| - 1]; }
  }

  /** The four arrays and the two functions, as they are printed. */
  ghost function Printed(): string {
    PrintArray("jx") + PrintArray("jy") + PrintArray("jz") + PrintArray("jw")
    + ("\nfn load_j(idx:u32)->vec4<f32>{return "
       + PrintVector(Part('x', IDX), Part('y', IDX), Part('z', IDX), Part('w', IDX)) + ";}")
    + ("\nfn store_j(idx:u32,v:vec4<f32>){" + Print(StoreBody()) + "}\n")
  }

  /** A call of `load_j` is a run of its body, and a call of `store_j` is one of its own. */
  ghost predicate CallsRun<S(!new)>(mc: Machine<S>) {
    && (forall index: Expr, st: State<S> | st.shared.Split? ::
          Eval(mc, Load(index), st) ==
          (var i := Eval(mc, index, st);
           if i.None? then None
           else EvalVector(mc, Part('x', IDX), Part('y', IDX), Part('z', IDX), Part('w', IDX),
                           LoadCall(i.value, st.shared))))
    && (forall index: Expr, gap: string, e: Expr, st: State<S>, fuel: nat | st.shared.Split? ::
          ExecSimple(mc, Store(index, gap, e), st) == RunStore(mc, index, e, st, fuel))
  }

  ghost function RunStore<S>(mc: Machine<S>, index: Expr, e: Expr, st: State<S>, fuel: nat): Outcome<S> {
    var v, i := Eval(mc, e, st), Eval(mc, index, st);
    if v.None? || !v.value.Four? || i.None? then Failed
    else
      var run := Exec(mc, StoreBody(), StoreCall(i.value, v.value, st.shared), fuel);
      if run.Done? then Done(Normal, st.(shared := run.st.shared)) else Failed
  }

  /** End to end: the script succeeds on a shader that declares the array once. It writes the declarations of
      the four arrays and of the two functions whose runs the calls in the new bodies are, leaves every other
      head as it was, and each function does on the array in four parts what the shader's function did. */
  lemma ShaderKeepsMeaning<S(!new)>(f: File, d: nat, a: string, b: string, k: nat, mc: Machine<S>, st: State<S>,
                                    fuel: nat)
    requires SourceFile(f) && d < |f.functions| && k < |f.functions| && st.shared.Whole?
    requires f.functions[d].head == a + "var<workgroup> j:array<vec4<f32>,1024>;" + b
    requires Once(Ahead(f, d, a), DECLARATION, Rest(f, d, b))
    ensures var g := SoaFile(Redeclared(f, d, a, b));
            && Optimize(PrintFile(f)) == Success(PrintFile(g))
            && g.tail == f.tail && |g.functions| == |f.functions| && g.functions[d].head == a + Printed() + b
            && (k != d ==> g.functions[k].head == f.functions[k].head)
            && Refined(mc, f.functions[k].body, g.functions[k].body, st, fuel)
    ensures CallsRun(mc)
  {
    hide Optimize, Once, PrintFile, Refined, Soa, Source, GoodFile, Ahead, Rest, Printed, DECLARATIONS, CallsRun;
    assert DECLARATION == "var<workgroup> j:array<vec4<f32>,1024>;";
    hide DECLARATION;
    WritesShader(f, d, a, b);
    WrittenHeads(f, d, a, b);
    assert Source(f.functions[k].body);
    SourceParts(f.functions[k].body);
    LayoutRefines(mc, f.functions[k].body, st, fuel);
    RunsCalls(mc);
  }

  lemma WritesShader(f: File, d: nat, a: string, b: string)
    requires SourceFile(f) && d < |f.functions|
    requires f.functions[d].head == a + DECLARATION + b && Once(Ahead(f, d, a), DECLARATION, Rest(f, d, b))
    ensures Optimize(PrintFile(f)) == Success(PrintFile(SoaFile(Redeclared(f, d, a, b))))
  {
    hide Optimize, Once, PrintFile, SourceFile, SoaFile, Ahead, Rest, DECLARATION, DECLARATIONS;
    var h := Redeclared(f, d, a, b);
    FileAround(f, d, a, DECLARATION, b);
    FileAround(h, d, a, DECLARATIONS, b);
    SameAround(f, d, a, b);
    RedeclaredGood(f, d, a, b);
    OptimizesShader(Ahead(f, d, a), Rest(f, d, b), h);
  }

  lemma WrittenHeads(f: File, d: nat, a: string, b: string)
    requires d < |f.functions|
    ensures var g := SoaFile(Redeclared(f, d, a, b));
            && g.tail == f.tail && |g.functions| == |f.functions| && g.functions[d].head == a + Printed() + b
            && (forall k | 0 <= k < |f.functions| :: g.functions[k].body == Soa(f.functions[k].body))
            && (forall k | 0 <= k < |f.functions| && k != d :: g.functions[k].head == f.functions[k].head)
  {
    hide Soa, DECLARATIONS, PrintArray, PrintVector, Print;
    DeclarationsText();
  }

  lemma SourceParts(s: Stmt)
    requires Source(s)
    ensures SourceStmt(s)
  {
    hide Good, SourceStmt, NamesClearIn, SignsClearIn;
  }

  lemma SameAround(f: File, d: nat, a: string, b: string)
    requires d < |f.functions|
    ensures Ahead(Redeclared(f, d, a, b), d, a) == Ahead(f, d, a) && Rest(Redeclared(f, d, a, b), d, b) == Rest(f, d, b)
  {
    hide Print, PrintFunctions;
    var h := Redeclared(f, d, a, b);
    assert h.functions[..d] == f.functions[..d] && h.functions[d + 1..] == f.functions[d + 1..];
  }

  lemma RunsCalls<S(!new)>(mc: Machine<S>)
    ensures CallsRun(mc)
  {
    hide Eval, ExecSimple, EvalVector, Exec, StoreBody;
    forall index: Expr, st: State<S> | st.shared.Split?
      ensures Eval(mc, Load(index), st) ==
              (var i := Eval(mc, index, st);
               if i.None? then None
               else EvalVector(mc, Part('x', IDX), Part('y', IDX), Part('z', IDX), Part('w', IDX),
                               LoadCall(i.value, st.shared)))
    {
      LoadDefined(mc, index, st);
    }
    forall index: Expr, gap: string, e: Expr, st: State<S>, fuel: nat | st.shared.Split?
      ensures ExecSimple(mc, Store(index, gap, e), st) == RunStore(mc, index, e, st, fuel)
    {
      StoreDefined(mc, index, gap, e, st, fuel);
    }
  }
}
