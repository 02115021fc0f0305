/** Which loops the canonicalizer converts, in terms of the words of the text, and what it does to one
    loop and to broken text, token by token. */
module CanonicalizerWords {
  import opened Outcomes
  import opened ShaderText
  import opened ShaderProgram
  import opened CanonicalizerPrinting
  import opened CanonicalizerLaws

  // ---------- printed programs ----------

  /** Every `for` of the program has in its body's text a word that holds `continue`. */
  ghost predicate LoopsSpell(s: Stmt) {
    match s
    case Seq(a, b) => LoopsSpell(a) && LoopsSpell(b)
    case Block(b) => LoopsSpell(b)
    case If(_, b) => LoopsSpell(b)
    case IfElse(_, a, b) => LoopsSpell(a) && LoopsSpell(b)
    case Loop(b) => LoopsSpell(b)
    case While(_, b) => LoopsSpell(b)
    case For(_, _, _, _, _, b) => SpellsContinue(Print(b)) && LoopsSpell(b)
    case _ => true
  }

  lemma {:induction false} OnlyContinuingSpells(s: Stmt)
    requires OnlyContinuing(s)
    ensures LoopsSpell(s)
  {
    hide MentionsContinue, SpellsContinue, Print;
    match s
    case Seq(a, b) => OnlyContinuingSpells(a); OnlyContinuingSpells(b);
    case Block(b) => OnlyContinuingSpells(b);
    case If(_, b) => OnlyContinuingSpells(b);
    case IfElse(_, a, b) => OnlyContinuingSpells(a); OnlyContinuingSpells(b);
    case Loop(b) => OnlyContinuingSpells(b);
    case While(_, b) => OnlyContinuingSpells(b);
    case For(_, _, _, _, _, b) => MentionsSpelled(Print(b)); OnlyContinuingSpells(b);
    case _ =>
  }

  /** Words that hold `continue` are neither taken nor added. */
  lemma SameSpelled(s: Stmt)
    requires Printable(s)
    ensures SpellsContinue(Print(Canon(s))) <==> SpellsContinue(Print(s))
  {
    hide Print, Canon, Conversions, Printable;
    forall w: string, a: string, b: string | w == a + "continue" + b
      ensures Word(w) in Print(Canon(s)) <==> Word(w) in Print(s)
    {
      LongWord(a, b);
      EachCountedOnce(s, w);
    }
    var x, y := Print(Canon(s)), Print(s);
    if SpellsContinue(x) {
      var i, a: string, b: string :| 0 <= i < |x| && x[i] == Word(a + "continue" + b);
      assert Word(a + "continue" + b) in y;
    }
    if SpellsContinue(y) {
      var i, a: string, b: string :| 0 <= i < |y| && y[i] == Word(a + "continue" + b);
      assert Word(a + "continue" + b) in x;
    }
  }

  lemma LongWord(a: string, b: string)
    ensures var w := a + "continue" + b; w != "for" && w != "loop" && w != "if" && w != "break"
  {
    assert |a + "continue" + b| >= 8;
  }

  /** What the script writes for one printed loop. With a word that holds `continue` in its body the loop
      stays a `for` over its rewritten body; without, it is converted and counted. */
  lemma LoopRewritten(s: Stmt)
    requires s.For? && Printable(s)
    ensures RewriteFrom(Print(s), 0).Success? && RewriteFrom(Print(s.body), 0).Success?
    ensures var Rewritten(text, count) := RewriteFrom(Print(s), 0).value;
            var body := RewriteFrom(Print(s.body), 0).value;
            var i, c, u := PrintSimple(s.init), PrintExpr(s.cond), PrintSimple(s.update);
            if SpellsContinue(Print(s.body)) then
              && count == body.count
              && text == [Word("for")] + s.gap + [Punct('(')] + i + [Punct(';')] + c + [Punct(';')] + u + [Punct(')')]
                         + s.gap2 + [Punct('{')] + body.text + [Punct('}')]
            else
              && count == body.count + 1
              && text == [Punct('{')] + i
                         + [Punct(';'), Word("loop"), Punct('{'), Word("if"), Punct('('), Punct('!'), Punct('(')] + c
                         + [Punct(')'), Punct(')'), Punct('{'), Word("break"), Punct(';'), Punct('}')]
                         + body.text + u + [Punct(';'), Punct('}'), Punct('}')]
  {
    hide RewriteFrom, Print, PrintSimple, PrintExpr, MentionsContinue, SpellsContinue, Bottom;
    RewritePrinted(s);
    RewritePrinted(s.body);
    MentionsSpelled(Print(Canon(s.body)));
    SameSpelled(s.body);
    if SpellsContinue(Print(s.body)) {
      PrintKept(s, Canon(s.body));
    } else {
      PrintBottom(s.init, s.cond, s.update, Canon(s.body));
    }
  }

  lemma PrintKept(s: Stmt, b: Stmt)
    requires s.For?
    ensures Print(WithBody(s, b)) ==
            [Word("for")] + s.gap + [Punct('(')] + PrintSimple(s.init) + [Punct(';')] + PrintExpr(s.cond) + [Punct(';')]
            + PrintSimple(s.update) + [Punct(')')] + s.gap2 + [Punct('{')] + Print(b) + [Punct('}')]
  {
    hide PrintSimple, PrintExpr;
    var i, c, u := PrintSimple(s.init), PrintExpr(s.cond), PrintSimple(s.update);
    var front := [Word("for")] + s.gap + [Punct('(')];
    assert front + (i + [Punct(';')] + c + [Punct(';')] + u) == front + i + [Punct(';')] + c + [Punct(';')] + u;
  }

  /** Every `for` that is left in what the script writes has in its body's text a word that holds `continue`. */
  lemma LeftLoopsSpell(s: Stmt)
    requires Printable(s)
    ensures RewriteFrom(Print(s), 0).Success?
    ensures RewriteFrom(Print(s), 0).value.text == Print(Canon(s)) && LoopsSpell(Canon(s))
  {
    hide RewriteFrom, Print, Canon, LoopsSpell, OnlyContinuing;
    RewritePrinted(s);
    RemainingContinue(s);
    OnlyContinuingSpells(Canon(s));
  }

  /** A program none of whose words holds `continue` is written without `for`, and the count is the number
      of its `for` words. */
  lemma AllConverted(s: Stmt)
    requires Printable(s)
    requires forall i, a: string, b: string | 0 <= i < |Print(s)| :: Print(s)[i] != Word(a + "continue" + b)
    ensures RewriteFrom(Print(s), 0).Success?
    ensures var Rewritten(text, count) := RewriteFrom(Print(s), 0).value;
            Word("for") !in text && count == multiset(Print(s))[Word("for")]
  {
    hide RewriteFrom, Print, Canon, Conversions, Printable, OnlyContinuing, MentionsContinue;
    RewritePrinted(s);
    RemainingContinue(s);
    CanonPrintable(s);
    SameSpelled(s);
    assert !SpellsContinue(Print(s));
    MentionsSpelled(Print(Canon(s)));
    ConvertedHoldNoFor(Canon(s));
    EachCountedOnce(s, "for");
    NoTally(Print(Canon(s)));
  }

  lemma NoTally(x: Text)
    requires NoFor(x)
    ensures Tally(x, "for") == 0 && Word("for") !in x
  {}

  // ---------- any text ----------

  /** White space, in comments too. */
  ghost predicate AllWhite(x: Text) { forall i | 0 <= i < |x| :: x[i].Space? || x[i].Inner? }

  ghost predicate Without(x: Text, a: char, b: char) { Punct(a) !in x && Punct(b) !in x }

  lemma {:induction false} SkipWhite(t: Text, k: nat, w: Text)
    requires At(t, k, w) && AllWhite(w)
    requires k + |w| < |t| ==> !t[k + |w|].Space? && !t[k + |w|].Inner?
    ensures SkipSpaces(t, k) == k + |w|
    decreases |w|
  {
    if w != [] {
      assert t[k] == t[k..k + |w|][0];
      assert t[k + 1..k + 1 + |w[1..]|] == t[k..k + |w|][1..];
      SkipWhite(t, k + 1, w[1..]);
    }
  }

  lemma {:induction false} NoBracketsPass(t: Text, k: nat, x: Text, d: int, left: char, right: char)
    requires At(t, k, x) && Without(x, left, right)
    ensures MatchFrom(t, k, d, left, right) == MatchFrom(t, k + |x|, d, left, right)
    decreases |x|
  {
    if x != [] {
      assert t[k] == t[k..k + |x|][0] == x[0];
      assert t[k + 1..k + 1 + |x[1..]|] == t[k..k + |x|][1..] == x[1..];
      assert Without(x[1..], left, right);
      NoBracketsPass(t, k + 1, x[1..], d, left, right);
    }
  }

  /** The bracket that is never closed. */
  lemma {:induction false} NeverCloses(t: Text, k: nat, d: int, left: char, right: char)
    requires k <= |t| && d >= 1 && left != right && forall i | k <= i < |t| :: t[i] != Punct(right)
    ensures MatchFrom(t, k, d, left, right) == None
    decreases |t| - k
  {
    if k < |t| { NeverCloses(t, k + 1, if t[k] == Punct(left) then d + 1 else d, left, right); }
  }

  lemma {:induction false} SplitCounts(x: Text)
    ensures |Split(x)| == 1 + multiset(x)[Punct(';')]
  {
    if x != [] {
      SplitCounts(x[1..]);
      assert x == [x[0]] + x[1..];
    }
  }

  /** `for`, white space and a bracket, behind text without `for`. */
  ghost function Opened(pre: Text, gap: Text): Text {
    pre + [Word("for")] + gap + [Punct('(')]
  }

  lemma OpenedParts(pre: Text, gap: Text, more: Text)
    ensures var t, p := Opened(pre, gap) + more, |pre| + 1 + |gap|;
            && |t| == p + 1 + |more| && t[0..|pre|] == pre && t[|pre|] == Word("for") && t[|pre| + 1..p] == gap
            && t[p] == Punct('(') && t[p + 1..] == more
  {}

  lemma StartsAt(pre: Text, gap: Text, more: Text)
    requires Word("for") !in pre && AllWhite(gap)
    ensures var t := Opened(pre, gap) + more;
            && |t| > |pre| + 1 + |gap| && FindFor(t, 0) == |pre| && ForAt(t, |pre|)
            && SkipSpaces(t, |pre| + 1) == |pre| + 1 + |gap| && t[|pre| + 1 + |gap|] == Punct('(')
  {
    hide Opened, FindFor;
    var t := Opened(pre, gap) + more;
    OpenedParts(pre, gap, more);
    SkipWhite(t, |pre| + 1, gap);
    FindOver(t, 0, |pre|);
    FoundHere(t, |pre|);
  }

  lemma FoundHere(t: Text, k: nat)
    requires k < |t| && ForAt(t, k)
    ensures FindFor(t, k) == k
  {}

  /** A header without brackets ends at its bracket. */
  lemma ClosesAt(t: Text, p: nat, h: Text, x: Text)
    requires HeaderHere(t, p, h, x) && Without(h, '(', ')')
    ensures p <= |t| && MatchFrom(t, p, 0, '(', ')') == Some(p + 1 + |h|)
    ensures |t| == p + 2 + |h| + |x| && t[p + 1..p + 1 + |h|] == h && t[p + 2 + |h|..] == x
  {
    var more := t[p + 1..];
    assert more[..|h|] == h && more[|h|] == Punct(')') && more[|h| + 1..] == x;
    assert t[p + 1 + |h|] == more[|h|];
    NoBracketsPass(t, p + 1, h, 1, '(', ')');
  }

  lemma UnclosedHeader(pre: Text, gap: Text, x: Text)
    requires Word("for") !in pre && AllWhite(gap) && Punct(')') !in x
    ensures RewriteFrom(Opened(pre, gap) + x, 0) == Failure(Unbalanced)
  {
    hide RewriteFrom, Split, SkipSpaces, FindFor;
    var t, p := Opened(pre, gap) + x, |pre| + 1 + |gap|;
    StartsAt(pre, gap, x);
    assert t[p + 1..] == x;
    assert forall i | p + 1 <= i < |t| :: t[i] == x[i - (p + 1)];
    NeverCloses(t, p + 1, 1, '(', ')');
    StopHere(t, 0, Unbalanced);
  }

  /** The text is a header behind text, and something behind it. */
  ghost predicate Headed(t: Text, pre: Text, gap: Text, h: Text, x: Text) {
    t == Opened(pre, gap) + h + [Punct(')')] + x
  }

  /** Where the header of such a text is found. */
  lemma HeaderFound(t: Text, pre: Text, gap: Text, h: Text, x: Text)
    requires Headed(t, pre, gap, h, x)
    requires Word("for") !in pre && AllWhite(gap) && Without(h, '(', ')')
    ensures var paren := |pre| + 1 + |gap|;
            var end := paren + 1 + |h|;
            && end < |t| && FindFor(t, 0) == |pre| && ForAt(t, |pre|) && SkipSpaces(t, |pre| + 1) == paren
            && MatchFrom(t, paren, 0, '(', ')') == Some(end) && t[paren + 1..end] == h
            && |t| == end + 1 + |x| && t[end + 1..] == x
  {
    hide SkipSpaces, FindFor, MatchFrom, ForAt, Headed, AllWhite, Without, ForHere, HeaderHere;
    HeadedParts(t, pre, gap, h, x);
    StartsFrom(t, |pre|, gap);
    ClosesAt(t, |pre| + 1 + |gap|, h, x);
  }

  lemma HeadedParts(t: Text, pre: Text, gap: Text, h: Text, x: Text)
    requires Headed(t, pre, gap, h, x) && Word("for") !in pre
    ensures ForHere(t, |pre|, gap) && HeaderHere(t, |pre| + 1 + |gap|, h, x)
  {
    var more := h + [Punct(')')] + x;
    Regrouped(Opened(pre, gap), h, [Punct(')')], x);
    hide Opened;
    OpenedParts(pre, gap, more);
  }

  lemma Regrouped(a: Text, b: Text, c: Text, d: Text)
    ensures a + b + c + d == a + (b + c + d)
  {}

  /** The first `for` of the text, and its bracket behind a gap. */
  ghost predicate ForHere(t: Text, k: nat, gap: Text) {
    && k + 1 + |gap| < |t| && Word("for") !in t[0..k] && t[k] == Word("for")
    && t[k + 1..k + 1 + |gap|] == gap && t[k + 1 + |gap|] == Punct('(')
  }

  ghost predicate HeaderHere(t: Text, p: nat, h: Text, x: Text) {
    p < |t| && t[p] == Punct('(') && t[p + 1..] == h + [Punct(')')] + x
  }

  lemma StartsFrom(t: Text, k: nat, gap: Text)
    requires ForHere(t, k, gap) && AllWhite(gap)
    ensures k < |t| && FindFor(t, 0) == k && ForAt(t, k) && SkipSpaces(t, k + 1) == k + 1 + |gap|
  {
    hide FindFor, AllWhite, SkipSpaces;
    SkipWhite(t, k + 1, gap);
    FindOver(t, 0, k);
    FoundHere(t, k);
  }

  lemma LocateWrong(t: Text, start: nat, paren: nat, end: nat)
    requires ForAt(t, start) && SkipSpaces(t, start + 1) == paren && MatchFrom(t, paren, 0, '(', ')') == Some(end)
    requires paren < end < |t| && |Split(t[paren + 1..end])| != 3
    ensures Locate(t, start) == Failure(BadHeader)
  {
    hide Split, SkipSpaces, MatchFrom, ForAt;
  }

  lemma WrongHeader(pre: Text, gap: Text, h: Text, x: Text)
    requires Word("for") !in pre && AllWhite(gap) && Without(h, '(', ')') && multiset(h)[Punct(';')] != 2
    ensures RewriteFrom(Opened(pre, gap) + h + [Punct(')')] + x, 0) == Failure(BadHeader)
  {
    assert Headed(Opened(pre, gap) + h + [Punct(')')] + x, pre, gap, h, x);
    WrongParts(Opened(pre, gap) + h + [Punct(')')] + x, pre, gap, h, x);
  }

  lemma WrongParts(t: Text, pre: Text, gap: Text, h: Text, x: Text)
    requires Headed(t, pre, gap, h, x)
    requires Word("for") !in pre && AllWhite(gap) && Without(h, '(', ')') && multiset(h)[Punct(';')] != 2
    ensures RewriteFrom(t, 0) == Failure(BadHeader)
  {
    hide RewriteFrom, Split, SkipSpaces, FindFor, MatchFrom, ForAt, Headed, AllWhite, Without, Locate;
    HeaderFound(t, pre, gap, h, x);
    SplitCounts(h);
    LocateWrong(t, |pre|, |pre| + 1 + |gap|, |pre| + 2 + |gap| + |h|);
    StopHere(t, 0, BadHeader);
  }

  /** What comes behind a header with two `;`. */
  lemma BehindHeader(t: Text, pre: Text, gap: Text, h: Text, gap2: Text, x: Text)
    requires Headed(t, pre, gap, h, gap2 + x)
    requires Word("for") !in pre && AllWhite(gap) && Without(h, '(', ')') && multiset(h)[Punct(';')] == 2
    requires AllWhite(gap2) && (x == [] || !(x[0].Space? || x[0].Inner?))
    ensures var end := |pre| + 2 + |gap| + |h|;
            var bodyStart := end + 1 + |gap2|;
            && |t| == bodyStart + |x| && t[bodyStart..] == x
            && FindFor(t, 0) == |pre| && ForAt(t, |pre|)
            && Locate(t, |pre|) ==
               if x == [] then Failure(EndOfText)
               else if x[0] != Punct('{') then Failure(NoBody)
               else match MatchFrom(t, bodyStart, 0, '{', '}')
                    case None => Failure(Unbalanced)
                    case Some(k) => Success(Site(|pre|, |pre| + 1 + |gap|, end, bodyStart, k))
  {
    hide Split, SkipSpaces, FindFor, MatchFrom, ForAt, Headed, Locate, AllWhite, Without, At;
    var end := |pre| + 2 + |gap| + |h|;
    HeaderFound(t, pre, gap, h, gap2 + x);
    SplitCounts(h);
    Behind(t, end + 1, gap2, x);
    SkipBehind(t, end + 1, gap2, x);
    LocateStages(t, |pre|, |pre| + 1 + |gap|, end, end + 1 + |gap2|);
  }

  lemma SkipBehind(t: Text, k: nat, gap: Text, x: Text)
    requires At(t, k, gap) && AllWhite(gap) && |t| == k + |gap| + |x| && t[k + |gap|..] == x
    requires x == [] || !(x[0].Space? || x[0].Inner?)
    ensures SkipSpaces(t, k) == k + |gap|
  {
    hide At, AllWhite, SkipSpaces;
    assert x != [] ==> t[k + |gap|] == x[0];
    SkipWhite(t, k, gap);
  }

  lemma LocateStages(t: Text, start: nat, paren: nat, end: nat, bodyStart: nat)
    requires ForAt(t, start) && SkipSpaces(t, start + 1) == paren && MatchFrom(t, paren, 0, '(', ')') == Some(end)
    requires paren < end < |t| && |Split(t[paren + 1..end])| == 3 && SkipSpaces(t, end + 1) == bodyStart
    ensures Locate(t, start) ==
            if bodyStart == |t| then Failure(EndOfText)
            else if t[bodyStart] != Punct('{') then Failure(NoBody)
            else match MatchFrom(t, bodyStart, 0, '{', '}')
                 case None => Failure(Unbalanced)
                 case Some(k) => Success(Site(start, paren, end, bodyStart, k))
  {
    hide Split, SkipSpaces, MatchFrom, ForAt;
  }

  lemma Behind(t: Text, k: nat, x: Text, y: Text)
    requires k <= |t| && t[k..] == x + y
    ensures At(t, k, x) && |t| == k + |x| + |y| && t[k + |x|..] == y && (y != [] ==> t[k + |x|] == y[0])
  {
    assert t[k..][|x|..] == y && t[k..][..|x|] == x;
  }

  lemma NothingBehind(pre: Text, gap: Text, h: Text, gap2: Text)
    requires Word("for") !in pre && AllWhite(gap) && AllWhite(gap2)
    requires Without(h, '(', ')') && multiset(h)[Punct(';')] == 2
    ensures RewriteFrom(Opened(pre, gap) + h + [Punct(')')] + gap2, 0) == Failure(EndOfText)
  {
    var t := Opened(pre, gap) + h + [Punct(')')] + gap2;
    assert gap2 + [] == gap2;
    assert Headed(t, pre, gap, h, gap2 + []);
    hide RewriteFrom, Locate, FindFor, ForAt, Headed, Opened;
    BehindHeader(t, pre, gap, h, gap2, []);
    StopHere(t, 0, EndOfText);
  }

  lemma OtherBehind(pre: Text, gap: Text, h: Text, gap2: Text, x: Text)
    requires Word("for") !in pre && AllWhite(gap) && AllWhite(gap2)
    requires Without(h, '(', ')') && multiset(h)[Punct(';')] == 2
    requires x != [] && !x[0].Space? && !x[0].Inner? && x[0] != Punct('{')
    ensures RewriteFrom(Opened(pre, gap) + h + [Punct(')')] + (gap2 + x), 0) == Failure(NoBody)
  {
    var t := Opened(pre, gap) + h + [Punct(')')] + (gap2 + x);
    assert Headed(t, pre, gap, h, gap2 + x);
    hide RewriteFrom, Locate, FindFor, ForAt, Headed, Opened;
    BehindHeader(t, pre, gap, h, gap2, x);
    StopHere(t, 0, NoBody);
  }

  lemma UnclosedBody(pre: Text, gap: Text, h: Text, gap2: Text, x: Text)
    requires Word("for") !in pre && AllWhite(gap) && AllWhite(gap2)
    requires Without(h, '(', ')') && multiset(h)[Punct(';')] == 2
    requires Punct('}') !in x
    ensures RewriteFrom(Opened(pre, gap) + h + [Punct(')')] + (gap2 + ([Punct('{')] + x)), 0) == Failure(Unbalanced)
  {
    var body := [Punct('{')] + x;
    var t := Opened(pre, gap) + h + [Punct(')')] + (gap2 + body);
    assert Headed(t, pre, gap, h, gap2 + body);
    hide RewriteFrom, Locate, FindFor, ForAt, Headed, Opened, MatchFrom;
    BehindHeader(t, pre, gap, h, gap2, body);
    BodyOpen(t, |t| - |body|, x);
    StopHere(t, 0, Unbalanced);
  }

  lemma BodyOpen(t: Text, k: nat, x: Text)
    requires k <= |t| && t[k..] == [Punct('{')] + x && Punct('}') !in x
    ensures MatchFrom(t, k, 0, '{', '}') == None
  {
    var body := t[k..];
    assert t[k] == body[0];
    forall i | k + 1 <= i < |t| ensures t[i] == x[i - k - 1] { assert t[i] == body[i - k]; }
    NeverCloses(t, k + 1, 1, '{', '}');
  }

  /** One loop without brackets in its header and body, and without another `for` anywhere. */
  lemma FlatLoop(pre: Text, gap: Text, i: Text, c: Text, u: Text, gap2: Text, b: Text, rest: Text)
    requires Word("for") !in pre && Word("for") !in b && Word("for") !in rest && AllWhite(gap) && AllWhite(gap2)
    requires Without(i, '(', ')') && Without(c, '(', ')') && Without(u, '(', ')') && Without(b, '{', '}')
    requires Punct(';') !in i && Punct(';') !in c && Punct(';') !in u
    ensures var h := i + [Punct(';')] + (c + [Punct(';')] + u);
            var t := Opened(pre, gap) + h + [Punct(')')] + (gap2 + ([Punct('{')] + b + [Punct('}')] + rest));
            RewriteFrom(t, 0) == Success(
              if SpellsContinue(b) then Rewritten(t, 0)
              else Rewritten(pre + ([Punct('{')] + i
                             + [Punct(';'), Word("loop"), Punct('{'), Word("if"), Punct('('), Punct('!'), Punct('(')]
                             + c + [Punct(')'), Punct(')'), Punct('{'), Word("break"), Punct(';'), Punct('}')]
                             + b + u + [Punct(';'), Punct('}'), Punct('}')]) + rest, 1))
  {
    hide RewriteFrom, Split, MentionsContinue, SpellsContinue, Opened, AllWhite, Without, BottomUpdated, Locate,
         FindFor, ForAt;
    var h := i + [Punct(';')] + (c + [Punct(';')] + u);
    FlatHeader(i, c, u);
    FlatText(i, c, u, b);
    MentionsSpelled(b);
    FlatRewritten(pre, gap, h, gap2, b, rest);
  }

  /** Where the brackets of such a loop lie. */
  ghost function FlatSite(pre: Text, gap: Text, h: Text, gap2: Text, b: Text): Site {
    var k := |pre| + 3 + |gap| + |h| + |gap2|;
    Site(|pre|, |pre| + 1 + |gap|, |pre| + 2 + |gap| + |h|, k, k + 1 + |b|)
  }

  lemma FlatRewritten(pre: Text, gap: Text, h: Text, gap2: Text, b: Text, rest: Text)
    requires Word("for") !in pre && Word("for") !in b && Word("for") !in rest && AllWhite(gap) && AllWhite(gap2)
    requires Without(h, '(', ')') && multiset(h)[Punct(';')] == 2 && Without(b, '{', '}') && |Split(h)| == 3
    ensures var t := Opened(pre, gap) + h + [Punct(')')] + (gap2 + ([Punct('{')] + b + [Punct('}')] + rest));
            RewriteFrom(t, 0) == Success(if MentionsContinue(b) then Rewritten(t, 0)
                                         else Rewritten(pre + BottomUpdated(Split(h), b) + rest, 1))
  {
    var x := gap2 + ([Punct('{')] + b + [Punct('}')] + rest);
    assert Headed(Opened(pre, gap) + h + [Punct(')')] + x, pre, gap, h, x);
    FlatDone(Opened(pre, gap) + h + [Punct(')')] + x, pre, gap, h, gap2, b, rest);
  }

  lemma FlatDone(t: Text, pre: Text, gap: Text, h: Text, gap2: Text, b: Text, rest: Text)
    requires Headed(t, pre, gap, h, gap2 + ([Punct('{')] + b + [Punct('}')] + rest))
    requires Word("for") !in pre && Word("for") !in b && Word("for") !in rest && AllWhite(gap) && AllWhite(gap2)
    requires Without(h, '(', ')') && multiset(h)[Punct(';')] == 2 && Without(b, '{', '}') && |Split(h)| == 3
    ensures RewriteFrom(t, 0) == Success(if MentionsContinue(b) then Rewritten(t, 0)
                                         else Rewritten(pre + BottomUpdated(Split(h), b) + rest, 1))
  {
    hide RewriteFrom, Locate, FindFor, ForAt, Split, MentionsContinue, Replacement, AllWhite, Without, BottomUpdated,
         Join, Headed;
    var site := FlatSite(pre, gap, h, gap2, b);
    FlatLocated(t, pre, gap, h, gap2, b, rest);
    FlatParts(t, pre, gap, h, gap2, b, rest);
    FlatStep(t, site, b, rest);
    FlatOutput(t, site, pre, Split(h), b, rest);
  }

  lemma FlatLocated(t: Text, pre: Text, gap: Text, h: Text, gap2: Text, b: Text, rest: Text)
    requires Headed(t, pre, gap, h, gap2 + ([Punct('{')] + b + [Punct('}')] + rest))
    requires Word("for") !in pre && AllWhite(gap) && AllWhite(gap2)
    requires Without(h, '(', ')') && multiset(h)[Punct(';')] == 2 && Without(b, '{', '}')
    ensures FindFor(t, 0) == |pre| && ForAt(t, |pre|) && Locate(t, |pre|) == Success(FlatSite(pre, gap, h, gap2, b))
  {
    hide Locate, FindFor, ForAt, MatchFrom, AllWhite, Without, Headed;
    var x := [Punct('{')] + b + [Punct('}')] + rest;
    BehindHeader(t, pre, gap, h, gap2, x);
    BodyEnds(t, |pre| + 3 + |gap| + |h| + |gap2|, b, rest);
  }

  lemma FlatText(i: Text, c: Text, u: Text, b: Text)
    ensures BottomUpdated([i, c, u], b) ==
            [Punct('{')] + i + [Punct(';'), Word("loop"), Punct('{'), Word("if"), Punct('('), Punct('!'), Punct('(')]
            + c + [Punct(')'), Punct(')'), Punct('{'), Word("break"), Punct(';'), Punct('}')]
            + b + u + [Punct(';'), Punct('}'), Punct('}')]
  {}

  lemma FlatHeader(i: Text, c: Text, u: Text)
    requires Without(i, '(', ')') && Without(c, '(', ')') && Without(u, '(', ')')
    requires Punct(';') !in i && Punct(';') !in c && Punct(';') !in u
    ensures var h := i + [Punct(';')] + (c + [Punct(';')] + u);
            Without(h, '(', ')') && multiset(h)[Punct(';')] == 2 && Split(h) == [i, c, u]
  {
    hide Split;
    SplitFirst(i, c + [Punct(';')] + u);
    SplitFirst(c, u);
    SplitNone(u);
    SplitCounts(i + [Punct(';')] + (c + [Punct(';')] + u));
  }

  lemma FlatStep(t: Text, site: Site, b: Text, rest: Text)
    requires InText(site, t, 0) && FindFor(t, 0) == site.start && ForAt(t, site.start)
    requires Locate(t, site.start) == Success(site)
    requires t[site.bodyStart + 1..site.bodyEnd] == b && t[site.bodyEnd + 1..] == rest
    requires Word("for") !in b && Word("for") !in rest
    ensures RewriteFrom(t, 0) == Join(Rewritten(t[0..site.start], 0),
                                      Join(Replacement(t, site, Rewritten(b, 0)), RewriteFrom(t, site.bodyEnd + 1)))
    ensures RewriteFrom(t, site.bodyEnd + 1) == Success(Rewritten(rest, 0))
  {
    hide RewriteFrom, Locate, FindFor, ForAt, Replacement;
    assert b[0..] == b;
    NoForCopied(b, 0);
    Unfold(t, 0, site, Rewritten(b, 0));
    NoForCopied(t, site.bodyEnd + 1);
  }

  lemma BodyEnds(t: Text, k: nat, b: Text, rest: Text)
    requires k <= |t| && t[k..] == [Punct('{')] + b + [Punct('}')] + rest && Without(b, '{', '}')
    ensures k + 1 + |b| < |t| && MatchFrom(t, k, 0, '{', '}') == Some(k + 1 + |b|)
  {
    var x := t[k..];
    assert t[k] == x[0] == Punct('{') && t[k + 1 + |b|] == x[1 + |b|] == Punct('}');
    assert t[k + 1..k + 1 + |b|] == x[1..1 + |b|] == b;
    NoBracketsPass(t, k + 1, b, 1, '{', '}');
  }

  lemma NoForCopied(t: Text, k: nat)
    requires k <= |t| && Word("for") !in t[k..]
    ensures RewriteFrom(t, k) == Success(Rewritten(t[k..], 0))
  {
    hide RewriteFrom, ForAt;
    FindOver(t, k, |t| - k);
    NothingLeft(t, k);
  }

  lemma FlatParts(t: Text, pre: Text, gap: Text, h: Text, gap2: Text, b: Text, rest: Text)
    requires Headed(t, pre, gap, h, gap2 + ([Punct('{')] + b + [Punct('}')] + rest))
    ensures var end := |pre| + 2 + |gap| + |h|;
            var k := end + 1 + |gap2|;
            && k + 2 + |b| <= |t| && t[0..|pre|] == pre && t[|pre| + 2 + |gap|..end] == h
            && t[k + 1..k + 1 + |b|] == b && t[k + 2 + |b|..] == rest
            && t == pre + (t[|pre|..k + 1] + b + [Punct('}')]) + rest
  {}

  lemma FlatOutput(t: Text, site: Site, pre: Text, header: seq<Text>, b: Text, rest: Text)
    requires InText(site, t, 0) && site.start == |pre| && |header| == 3
    requires t[0..|pre|] == pre && Split(t[site.paren + 1..site.end]) == header
    requires RewriteFrom(t, 0) == Join(Rewritten(t[0..|pre|], 0),
                                       Join(Replacement(t, site, Rewritten(b, 0)), RewriteFrom(t, site.bodyEnd + 1)))
    requires RewriteFrom(t, site.bodyEnd + 1) == Success(Rewritten(rest, 0))
    requires t == pre + (t[|pre|..site.bodyStart + 1] + b + [Punct('}')]) + rest
    ensures RewriteFrom(t, 0) == Success(if MentionsContinue(b) then Rewritten(t, 0)
                                         else Rewritten(pre + BottomUpdated(header, b) + rest, 1))
  {
    hide RewriteFrom, Split, MentionsContinue, BottomUpdated;
    var r := Replacement(t, site, Rewritten(b, 0));
    assert pre + (r.text + rest) == pre + r.text + rest;
  }

  // ---------- the bracket scan ----------

  /** How many more left than right brackets stand in a text. */
  function Balance(text: Text, left: char, right: char): int {
    var lefts: int, rights: int := multiset(text)[Punct(left)], multiset(text)[Punct(right)];
    lefts - rights
  }

  lemma BalanceStep(text: Text, i: nat, m: nat, left: char, right: char)
    requires i <= m < |text| && left != right
    ensures Balance(text[i..m + 1], left, right) ==
            Change(text[i], left, right) + Balance(text[i + 1..m + 1], left, right)
  {
    assert text[i..m + 1] == [text[i]] + text[i + 1..m + 1];
  }

  /** A right bracket at `m` at which the depth, `depth` before position `i`, is zero again. */
  ghost predicate Closes(text: Text, i: nat, m: nat, depth: int, left: char, right: char)
    requires i <= m < |text|
  {
    text[m] == Punct(right) && depth + Balance(text[i..m + 1], left, right) == 0
  }

  /** The scan stops at the first right bracket that brings the balance to zero. */
  lemma {:induction false} MatchSpelled(text: Text, i: nat, depth: int, left: char, right: char)
    requires i <= |text| && left != right
    ensures var r := MatchFrom(text, i, depth, left, right);
            && (r.Some? ==> i <= r.value < |text| && Closes(text, i, r.value, depth, left, right))
            && forall m | i <= m < (if r.Some? then r.value else |text|) :: !Closes(text, i, m, depth, left, right)
    decreases |text| - i
  {
    hide Closes, MatchFrom;
    MatchStep(text, i, depth, left, right);
    if i < |text| {
      var change := Change(text[i], left, right);
      ClosesHere(text, i, depth, left, right);
      forall m | i < m < |text|
        ensures Closes(text, i, m, depth, left, right) == Closes(text, i + 1, m, depth + change, left, right)
      {
        ClosesLater(text, i, m, depth, left, right);
      }
      MatchSpelled(text, i + 1, depth + change, left, right);
    }
  }

  function Change(t: Token, left: char, right: char): int {
    if t == Punct(left) then 1 else if t == Punct(right) then -1 else 0
  }

  lemma MatchStep(text: Text, i: nat, depth: int, left: char, right: char)
    requires i <= |text| && left != right
    ensures MatchFrom(text, i, depth, left, right) ==
            if i == |text| then None
            else if text[i] == Punct(right) && depth == 1 then Some(i)
            else MatchFrom(text, i + 1, depth + Change(text[i], left, right), left, right)
  {}

  lemma ClosesHere(text: Text, i: nat, depth: int, left: char, right: char)
    requires i < |text| && left != right
    ensures Closes(text, i, i, depth, left, right) <==> text[i] == Punct(right) && depth == 1
  {
    BalanceStep(text, i, i, left, right);
    assert text[i + 1..i + 1] == [];
  }

  lemma ClosesLater(text: Text, i: nat, m: nat, depth: int, left: char, right: char)
    requires i < m < |text| && left != right
    ensures Closes(text, i, m, depth, left, right) <==>
            Closes(text, i + 1, m, depth + Change(text[i], left, right), left, right)
  {
    hide Balance;
    BalanceStep(text, i, m, left, right);
  }
}
