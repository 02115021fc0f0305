/** The canonicalizer on shader files as they are written: functions between other text, with any
    white space between any two tokens. */
module CanonicalizerFiles {
  import opened Outcomes
  import opened ShaderText
  import opened ShaderProgram
  import opened ShaderMeaning
  import opened CanonicalizerPrinting
  import opened CanonicalizerLaws
  import opened CanonicalizerLayout

  /** A body and the text in front of it: other declarations and the function's own signature. */
  datatype Function = Function(head: Text, body: Stmt)

  datatype File = File(functions: seq<Function>, tail: Text)

  function PrintFunctions(fs: seq<Function>): Text {
    if fs == [] then [] else fs[0].head + (Print(fs[0].body) + PrintFunctions(fs[1..]))
  }

  function PrintFile(f: File): Text {
    PrintFunctions(f.functions) + f.tail
  }

  /** No `for` outside the bodies, and bodies that can be printed. */
  ghost predicate GoodFunctions(fs: seq<Function>) {
    forall i | 0 <= i < |fs| :: NoFor(fs[i].head) && Printable(fs[i].body)
  }

  ghost predicate GoodFile(f: File) {
    GoodFunctions(f.functions) && NoFor(f.tail)
  }

  ghost function CanonFunctions(fs: seq<Function>): seq<Function> {
    seq(|fs|, i requires 0 <= i < |fs| => Function(fs[i].head, Canon(fs[i].body)))
  }

  ghost function CanonFile(f: File): File {
    File(CanonFunctions(f.functions), f.tail)
  }

  ghost function FileConversions(fs: seq<Function>): nat {
    if fs == [] then 0 else Conversions(fs[0].body) + FileConversions(fs[1..])
  }

  /** The text is this file, whatever white space stands between its tokens. */
  ghost predicate Writes(text: Text, f: File) {
    GoodFile(f) && Erase(text) == Erase(PrintFile(f))
  }

  // ---------- the file without its layout ----------

  lemma {:induction false} RewriteFunctions(fs: seq<Function>, t: Text, k: nat)
    requires GoodFunctions(fs) && At(t, k, PrintFunctions(fs))
    ensures Links(t, k, PrintFunctions(fs), Rewritten(PrintFunctions(CanonFunctions(fs)), FileConversions(fs)))
  {
    hide At, Links, Print, Canon, Conversions, Printable, NoFor;
    if fs == [] {
      NothingLinks(t, k);
    } else {
      var f, rest := fs[0], fs[1..];
      var k1 := k + |f.head|;
      AtSplit(t, k, f.head, Print(f.body) + PrintFunctions(rest));
      AtSplit(t, k1, Print(f.body), PrintFunctions(rest));
      LinksQuiet(t, k, f.head);
      RewriteAt(f.body, t, k1);
      RewriteFunctions(rest, t, k1 + |Print(f.body)|);
      LinksConcat(t, k1, Print(f.body), Canonical(f.body), PrintFunctions(rest),
                  Rewritten(PrintFunctions(CanonFunctions(rest)), FileConversions(rest)));
      LinksConcat(t, k, f.head, Rewritten(f.head, 0), Print(f.body) + PrintFunctions(rest),
                  Rewritten(Print(Canon(f.body)) + PrintFunctions(CanonFunctions(rest)),
                            Conversions(f.body) + FileConversions(rest)));
      CanonFirst(fs);
    }
  }

  lemma NothingLinks(t: Text, k: nat)
    requires At(t, k, [])
    ensures Links(t, k, [], Rewritten([], 0))
  {
    JoinNothing(RewriteFrom(t, k));
  }

  lemma CanonFirst(fs: seq<Function>)
    requires fs != []
    ensures CanonFunctions(fs) == [Function(fs[0].head, Canon(fs[0].body))] + CanonFunctions(fs[1..])
    ensures PrintFunctions(CanonFunctions(fs)) ==
            fs[0].head + (Print(Canon(fs[0].body)) + PrintFunctions(CanonFunctions(fs[1..])))
  {
    hide Print, Canon;
    var fs1 := CanonFunctions(fs);
    assert fs1[1..] == CanonFunctions(fs[1..]);
  }

  lemma RewriteFile(f: File)
    requires GoodFile(f)
    ensures RewriteFrom(PrintFile(f), 0) == Success(Rewritten(PrintFile(CanonFile(f)), FileConversions(f.functions)))
  {
    hide RewriteFrom, PrintFunctions, FileConversions, CanonFunctions, Links, At, NoFor, Printable;
    var t, body := PrintFile(f), PrintFunctions(f.functions);
    var canon := Rewritten(PrintFunctions(CanonFunctions(f.functions)), FileConversions(f.functions));
    WholeAt(t);
    AtSplit(t, 0, body, f.tail);
    RewriteFunctions(f.functions, t, 0);
    LinksQuiet(t, |body|, f.tail);
    LinksConcat(t, 0, body, canon, f.tail, Rewritten(f.tail, 0));
    WholeLinks(t, Rewritten(canon.text + f.tail, canon.count));
  }

  lemma WholeAt(t: Text)
    ensures At(t, 0, t)
  {
    assert t[0..0 + |t|] == t;
  }

  lemma WholeLinks(t: Text, w: Rewritten)
    requires Links(t, 0, t, w)
    ensures RewriteFrom(t, 0) == Success(w)
  {
    NothingLeft(t, |t|);
    assert t[|t|..] == [];
    assert w.text + [] == w.text;
  }

  lemma CanonFileGood(f: File)
    requires GoodFile(f)
    ensures GoodFile(CanonFile(f))
  {
    hide Canon, Printable, NoFor;
    forall i | 0 <= i < |f.functions| ensures Printable(Canon(f.functions[i].body)) {
      CanonPrintable(f.functions[i].body);
    }
  }

  lemma {:induction false} NoneLeft(fs: seq<Function>)
    ensures FileConversions(CanonFunctions(fs)) == 0
    ensures CanonFunctions(CanonFunctions(fs)) == CanonFunctions(fs)
  {
    hide Canon, Conversions;
    forall i | 0 <= i < |fs| ensures Canon(Canon(fs[i].body)) == Canon(fs[i].body) {
      CanonAgain(fs[i].body);
    }
    if fs != [] {
      CanonAgain(fs[0].body);
      NoneLeft(fs[1..]);
      assert CanonFunctions(fs)[1..] == CanonFunctions(fs[1..]);
    }
  }

  // ---------- the file as written ----------

  /** On every layout of a good file the script succeeds; what it writes is a layout of the file
      with every body rewritten, and the count is the number of conversions. */
  lemma RewriteWritten(text: Text, f: File)
    requires Writes(text, f)
    ensures RewriteFrom(text, 0).Success?
    ensures var w := RewriteFrom(text, 0).value;
            Writes(w.text, CanonFile(f)) && w.count == FileConversions(f.functions)
  {
    hide RewriteFrom, PrintFile, FileConversions, Erase, GoodFile;
    RewriteErased(text, 0);
    RewriteErased(PrintFile(f), 0);
    PosEnds(text);
    PosEnds(PrintFile(f));
    RewriteFile(f);
    CanonFileGood(f);
  }

  /** The canonicalizer leaves its own output alone, token by token, white space included. */
  lemma WrittenAgain(text: Text, f: File)
    requires Writes(text, f)
    ensures RewriteFrom(text, 0).Success?
    ensures var out := RewriteFrom(text, 0).value.text;
            RewriteFrom(out, 0) == Success(Rewritten(out, 0))
  {
    hide RewriteFrom, FileConversions, Erase, GoodFile, PrintFile;
    RewriteWritten(text, f);
    var out := RewriteFrom(text, 0).value.text;
    RewriteWritten(out, CanonFile(f));
    NoneLeft(f.functions);
    UnchangedIfNoneConverted(out, 0);
    assert out[0..] == out;
  }

  /** End to end on files: whatever the white space, the script writes a file whose functions end in
      exactly the same ways as the original ones, and run for ever exactly when those do. */
  lemma FileKeepsMeaning<T(!new), M(!new)>(mc: Machine<T, M>, text: Text, f: File, st: State<T, M>)
    requires Writes(text, f) && forall i | 0 <= i < |f.functions| :: Regular(f.functions[i].body)
    ensures RewriteFrom(text, 0).Success? && Writes(RewriteFrom(text, 0).value.text, CanonFile(f))
    ensures |CanonFile(f).functions| == |f.functions|
    ensures forall i, o | 0 <= i < |f.functions| ::
              Yields(mc, CanonFile(f).functions[i].body, st, o) <==> Yields(mc, f.functions[i].body, st, o)
  {
    hide RewriteFrom, FileConversions, Erase, PrintFile, Regular, Yields, Printable, NoFor;
    RewriteWritten(text, f);
    forall i, o | 0 <= i < |f.functions|
      ensures Yields(mc, CanonFile(f).functions[i].body, st, o) <==> Yields(mc, f.functions[i].body, st, o)
    {
      ScriptKeepsMeaning(mc, f.functions[i].body, st);
    }
  }

  // ---------- words ----------

  lemma {:induction false} TallyErased(t: Text, word: string)
    ensures Tally(Erase(t), word) == Tally(t, word)
  {
    if t != [] {
      TallyErased(t[1..], word);
      TallyConcat([t[0]], t[1..], word);
      TallyConcat(if t[0].Space? then [] else [t[0]], Erase(t[1..]), word);
      assert t == [t[0]] + t[1..];
    }
  }

  lemma {:induction false} FunctionWords(fs: seq<Function>, word: string)
    requires GoodFunctions(fs)
    ensures Tally(PrintFunctions(CanonFunctions(fs)), word) + Times(FileConversions(fs), word == "for") ==
            Tally(PrintFunctions(fs), word) + Times(FileConversions(fs), Added(word))
  {
    hide Tally, Print, Canon, Conversions, Printable, NoFor, Added;
    if fs == [] {
      assert CanonFunctions(fs) == [];
    } else {
      var head, body, rest := fs[0].head, fs[0].body, fs[1..];
      EachCountedOnce(body, word);
      FunctionWords(rest, word);
      CanonFirst(fs);
      TallyConcat(head, Print(body) + PrintFunctions(rest), word);
      TallyConcat(Print(body), PrintFunctions(rest), word);
      TallyConcat(head, Print(Canon(body)) + PrintFunctions(CanonFunctions(rest)), word);
      TallyConcat(Print(Canon(body)), PrintFunctions(CanonFunctions(rest)), word);
    }
  }

  /** In the file as written every conversion is counted once: it removes one `for`, adds one `loop`,
      one `if` and one `break`, and no other word comes or goes. */
  lemma WordsCounted(text: Text, f: File, word: string)
    requires Writes(text, f)
    ensures RewriteFrom(text, 0).Success?
    ensures var w := RewriteFrom(text, 0).value;
            Tally(w.text, word) + Times(w.count, word == "for") == Tally(text, word) + Times(w.count, Added(word))
  {
    hide RewriteFrom, Erase, Tally, PrintFunctions, FileConversions, CanonFunctions, NoFor, Added, GoodFunctions;
    RewriteWritten(text, f);
    FunctionWords(f.functions, word);
    TallyConcat(PrintFunctions(f.functions), f.tail, word);
    TallyConcat(PrintFunctions(CanonFunctions(f.functions)), f.tail, word);
    var out := RewriteFrom(text, 0).value.text;
    TallyErased(text, word);
    TallyErased(out, word);
    TallyErased(PrintFile(f), word);
    TallyErased(PrintFile(CanonFile(f)), word);
  }
}
