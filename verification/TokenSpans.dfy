/** Flattening of highlighter tokens into spans, and its validation: the worker functions `highlight`
    and `validate` of benchmarks/gpu-lexer/benchmark-shiki.py. */
module TokenSpans {
  import opened Outcomes
  import opened Slices

  datatype Style = Style(color: string, fontStyle: int)

  datatype Token = Token(offset: nat, content: string, color: Option<string>, fontStyle: Option<int>) {
    function End(): nat { offset + |content| }

    function StyleOr(fg: string): Style {
      Style(if color.Some? then color.value else fg, if fontStyle.Some? then fontStyle.value else 0)
    }
  }

  datatype Span = Span(start: nat, end: nat, style: Style)

  // ---------- the flattening as a function ----------

  function Add(spans: seq<Span>, start: nat, finish: nat, style: Style): seq<Span> {
    if finish == start then spans
    else if spans != [] && spans[|spans| - 1].end == start && spans[|spans| - 1].style == style then
      spans[|spans| - 1 := spans[|spans| - 1].(end := finish)]
    else spans + [Span(start, finish, style)]
  }

  /** Nothing is added for an empty piece; a piece that continues the last span in its style makes it longer. */
  lemma AddSpelled(spans: seq<Span>, start: nat, finish: nat, style: Style)
    ensures var r := Add(spans, start, finish, style);
            && (finish == start ==> r == spans)
            && (finish != start ==>
                  r == spans + [Span(start, finish, style)]
                  || exists front, begin: nat | spans == front + [Span(begin, start, style)] ::
                    r == front + [Span(begin, finish, style)])
            && (finish != start && (exists front, begin: nat :: spans == front + [Span(begin, start, style)]) ==>
                  |r| == |spans|)
  {
    if spans != [] {
      var front, last := spans[..|spans| - 1], spans[|spans| - 1];
      assert spans == front + [last];
      if finish != start && last.end == start && last.style == style {
        assert Add(spans, start, finish, style) == front + [Span(last.start, finish, style)];
      }
    }
  }

  datatype Progress = Progress(spans: seq<Span>, end: nat)

  function Step(s: Progress, t: Token, fg: string): Progress {
    var filled := if t.offset > s.end then Add(s.spans, s.end, t.offset, Style(fg, 0)) else s.spans;
    Progress(Add(filled, t.offset, t.End(), t.StyleOr(fg)), t.End())
  }

  function Steps(s: Progress, tokens: seq<Token>, fg: string): Progress
    decreases |tokens|
  {
    if tokens == [] then s else Steps(Step(s, tokens[0], fg), tokens[1..], fg)
  }

  function Finish(s: Progress, n: nat, fg: string): seq<Span> {
    if s.end < n then Add(s.spans, s.end, n, Style(fg, 0)) else s.spans
  }

  function Flat(tokens: seq<Token>, n: nat, fg: string): seq<Span> {
    Finish(Steps(Progress([], 0), tokens, fg), n, fg)
  }

  function Lines(lines: seq<seq<Token>>): seq<Token> {
    if lines == [] then [] else lines[0] + Lines(lines[1..])
  }

  lemma {:induction false} StepsConcat(s: Progress, a: seq<Token>, b: seq<Token>, fg: string)
    ensures Steps(s, a + b, fg) == Steps(Steps(s, a, fg), b, fg)
    decreases |a|
  {
    if a == [] {
      assert a + b == b;
    } else {
      assert (a + b)[1..] == a[1..] + b;
      StepsConcat(Step(s, a[0], fg), a[1..], b, fg);
    }
  }

  lemma StepsOne(s: Progress, t: Token, fg: string)
    ensures Steps(s, [t], fg) == Step(s, t, fg)
  {}

  lemma {:induction false} LinesSnoc(lines: seq<seq<Token>>, line: seq<Token>)
    ensures Lines(lines + [line]) == Lines(lines) + line
  {
    if lines == [] {
      assert [line][1..] == [] && line + [] == line;
    } else {
      assert (lines + [line])[1..] == lines[1..] + [line];
      LinesSnoc(lines[1..], line);
    }
  }

  // ---------- the worker ----------

  /** The closure `add` with the list it appends to and whose last element it extends. */
  class SpanList {
    var spans: seq<Span>

    constructor ()
      ensures spans == []
    {
      spans := [];
    }

    method AddSpan(start: nat, finish: nat, style: Style)
      modifies this
      ensures spans == Add(old(spans), start, finish, style)
    {
      if finish == start {
        return;
      }
      if spans != [] && spans[|spans| - 1].end == start && spans[|spans| - 1].style == style {
        spans := spans[|spans| - 1 := spans[|spans| - 1].(end := finish)];
      } else {
        spans := spans + [Span(start, finish, style)];
      }
    }
  }

  method Highlight(code: string, lines: seq<seq<Token>>, fg: string) returns (spans: seq<Span>)
    ensures spans == Flat(Lines(lines), |code|, fg)
  {
    hide Add, Steps, Lines;
    var list := new SpanList();
    var end: nat := 0;
    ghost var begin := Progress([], 0);
    Begun(begin, fg);
    for i := 0 to |lines|
      invariant Progress(list.spans, end) == Steps(begin, Lines(lines[..i]), fg)
    {
      var line := lines[i];
      assert line[..0] == [] && Lines(lines[..i]) + [] == Lines(lines[..i]);
      for j := 0 to |line|
        invariant Progress(list.spans, end) == Steps(begin, Lines(lines[..i]) + line[..j], fg)
      {
        var token := line[j];
        StepsConcat(begin, Lines(lines[..i]) + line[..j], [token], fg);
        StepsOne(Progress(list.spans, end), token, fg);
        assert Lines(lines[..i]) + line[..j] + [token] == Lines(lines[..i]) + line[..j + 1];
        if token.offset > end {
          list.AddSpan(end, token.offset, Style(fg, 0));
        }
        list.AddSpan(token.offset, token.offset + |token.content|, token.StyleOr(fg));
        end := token.offset + |token.content|;
      }
      assert line[..|line|] == line && lines[..i + 1] == lines[..i] + [line];
      LinesSnoc(lines[..i], line);
    }
    assert lines[..|lines|] == lines;
    if end < |code| {
      list.AddSpan(end, |code|, Style(fg, 0));
    }
    return list.spans;
  }

  lemma Begun(s: Progress, fg: string)
    ensures Steps(s, Lines([]), fg) == s
  {}

  /** Spans one behind the other from `from` to `to`. */
  ghost predicate Chain(spans: seq<Span>, from: nat, to: nat) {
    if spans == [] then from == to
    else spans[0].start == from && spans[0].start <= spans[0].end && Chain(spans[1..], spans[0].end, to)
  }

  ghost predicate Quoted(code: string, tokens: seq<Token>) {
    forall i | 0 <= i < |tokens| :: Slice(code, tokens[i].offset, tokens[i].End()) == tokens[i].content
  }

  /** Spans one behind the other from 0 to somewhere. */
  ghost predicate Linked(spans: seq<Span>) {
    exists e: nat :: Chain(spans, 0, e)
  }

  lemma LinkedTo(spans: seq<Span>, e: nat)
    requires Chain(spans, 0, e)
    ensures Linked(spans)
  {
    hide Chain;
  }

  lemma NotLinked(spans: seq<Span>)
    requires forall e: nat :: !Chain(spans, 0, e)
    ensures !Linked(spans)
  {
    hide Chain;
  }

  datatype Problem = InvalidSpan | Incomplete | Mismatch

  method ValidateSpans(spans: seq<Span>, n: nat) returns (problem: Option<Problem>)
    ensures problem.None? <==> Chain(spans, 0, n)
    ensures problem.Some? ==> problem.value == if Linked(spans) then Incomplete else InvalidSpan
  {
    var end: nat := 0;
    for i := 0 to |spans|
      invariant forall e: nat :: Chain(spans, 0, e) == Chain(spans[i..], end, e)
    {
      var s := spans[i];
      assert spans[i..][1..] == spans[i + 1..];
      if s.start != end || s.end < s.start {
        assert forall e: nat :: !Chain(spans[i..], end, e);
        NotLinked(spans);
        return Some(InvalidSpan);
      }
      end := s.end;
    }
    assert Chain(spans[|spans|..], end, end);
    LinkedTo(spans, end);
    return if end != n then Some(Incomplete) else None;
  }

  method ValidateTokens(code: string, lines: seq<seq<Token>>) returns (problem: Option<Problem>)
    ensures problem.None? <==> Quoted(code, Lines(lines))
    ensures problem.Some? ==> problem.value == Mismatch
  {
    hide Slice, Lines, Quoted;
    assert lines[0..] == lines;
    for i := 0 to |lines|
      invariant Quoted(code, Lines(lines)) <==> Quoted(code, Lines(lines[i..]))
    {
      var line := lines[i];
      LinesFirst(lines[i..]);
      assert lines[i..][1..] == lines[i + 1..];
      QuotedEmpty(code, line[..0]);
      for j := 0 to |line|
        invariant Quoted(code, line[..j])
      {
        var t := line[j];
        QuotedOne(code, line, j, Lines(lines[i + 1..]));
        if Slice(code, t.offset, t.offset + |t.content|) != t.content {
          return Some(Mismatch);
        }
      }
      assert line[..|line|] == line;
      QuotedConcat(code, line, Lines(lines[i + 1..]));
    }
    assert lines[|lines|..] == [];
    QuotedEmpty(code, Lines([]));
    return None;
  }

  method Validate(code: string, spans: seq<Span>, lines: seq<seq<Token>>) returns (problem: Option<Problem>)
    ensures problem.None? <==> Chain(spans, 0, |code|) && Quoted(code, Lines(lines))
    ensures problem.Some? ==>
              problem.value == if Chain(spans, 0, |code|) then Mismatch
                               else if Linked(spans) then Incomplete else InvalidSpan
  {
    problem := ValidateSpans(spans, |code|);
    if problem.None? {
      problem := ValidateTokens(code, lines);
    }
  }

  lemma LinesFirst(lines: seq<seq<Token>>)
    ensures lines != [] ==> Lines(lines) == lines[0] + Lines(lines[1..])
  {}

  lemma QuotedEmpty(code: string, tokens: seq<Token>)
    requires tokens == [] || tokens == Lines([])
    ensures Quoted(code, tokens)
  {}

  lemma QuotedOne(code: string, line: seq<Token>, j: nat, rest: seq<Token>)
    requires j < |line| && Quoted(code, line[..j])
    ensures var good := Slice(code, line[j].offset, line[j].End()) == line[j].content;
            (good ==> Quoted(code, line[..j + 1])) && (!good ==> !Quoted(code, line + rest))
  {
    assert (line + rest)[j] == line[j];
  }

  lemma QuotedConcat(code: string, a: seq<Token>, b: seq<Token>)
    requires Quoted(code, a)
    ensures Quoted(code, a + b) <==> Quoted(code, b)
  {
    forall i | 0 <= i < |b| ensures (a + b)[|a| + i] == b[i] {}
  }

  // ---------- ordered tokens give the canonical cover ----------

  /** Tokens in order, without overlap, and inside the first `n` characters. */
  predicate Ordered(tokens: seq<Token>, from: nat, n: nat) {
    if tokens == [] then from <= n
    else from <= tokens[0].offset && Ordered(tokens[1..], tokens[0].End(), n)
  }

  /** The style that the tokens give to a position. */
  function StyleAt(tokens: seq<Token>, fg: string, p: nat): Style {
    if tokens == [] then Style(fg, 0)
    else if tokens[0].offset <= p < tokens[0].End() then tokens[0].StyleOr(fg)
    else StyleAt(tokens[1..], fg, p)
  }

  /** A run-length cover of `[0, n)` by `f`: non-empty spans, one behind the other, each in the style
      that `f` has on it. */
  ghost predicate Cover(spans: seq<Span>, n: nat, f: nat -> Style) {
    && (spans == [] ==> n == 0)
    && (spans != [] ==> spans[0].start == 0 && spans[|spans| - 1].end == n)
    && (forall i | 0 <= i < |spans| :: spans[i].start < spans[i].end)
    && (forall i | 0 < i < |spans| :: spans[i].start == spans[i - 1].end)
    && (forall i, p: nat | 0 <= i < |spans| && spans[i].start <= p < spans[i].end :: f(p) == spans[i].style)
  }

  /** No two neighbours have the same style. */
  ghost predicate Merged(spans: seq<Span>) {
    forall i | 0 < i < |spans| :: spans[i].style != spans[i - 1].style
  }

  lemma AddCovers(spans: seq<Span>, start: nat, finish: nat, style: Style, f: nat -> Style)
    requires Cover(spans, start, f) && Merged(spans) && start <= finish
    requires forall p | start <= p < finish :: f(p) == style
    ensures Cover(Add(spans, start, finish, style), finish, f) && Merged(Add(spans, start, finish, style))
  {
    hide Cover, Merged;
    LastReaches(spans, start, f);
    if start < finish {
      if spans != [] && spans[|spans| - 1].style == style {
        ExtendCovers(spans, start, finish, style, f);
      } else {
        AppendCovers(spans, start, finish, style, f);
      }
    }
  }

  lemma LastReaches(spans: seq<Span>, n: nat, f: nat -> Style)
    requires Cover(spans, n, f)
    ensures spans != [] ==> spans[|spans| - 1].end == n
  {}

  lemma ExtendCovers(spans: seq<Span>, start: nat, finish: nat, style: Style, f: nat -> Style)
    requires Cover(spans, start, f) && Merged(spans) && start < finish && spans != [] &&
             spans[|spans| - 1].style == style
    requires forall p | start <= p < finish :: f(p) == style
    ensures var longer := spans[|spans| - 1 := spans[|spans| - 1].(end := finish)];
            Cover(longer, finish, f) && Merged(longer)
  {}

  lemma AppendCovers(spans: seq<Span>, start: nat, finish: nat, style: Style, f: nat -> Style)
    requires Cover(spans, start, f) && Merged(spans) && start < finish
    requires spans != [] ==> spans[|spans| - 1].style != style
    requires forall p | start <= p < finish :: f(p) == style
    ensures Cover(spans + [Span(start, finish, style)], finish, f) && Merged(spans + [Span(start, finish, style)])
  {}

  lemma {:induction false} NoTokenBefore(tokens: seq<Token>, from: nat, n: nat, fg: string, p: nat)
    requires Ordered(tokens, from, n) && p < from
    ensures StyleAt(tokens, fg, p) == Style(fg, 0)
  {
    if tokens != [] { NoTokenBefore(tokens[1..], tokens[0].End(), n, fg, p); }
  }

  lemma {:induction false} OrderedEnds(tokens: seq<Token>, from: nat, n: nat)
    requires Ordered(tokens, from, n)
    ensures from <= n
  {
    if tokens != [] { OrderedEnds(tokens[1..], tokens[0].End(), n); }
  }

  lemma {:induction false} StepsCover(s: Progress, tokens: seq<Token>, n: nat, fg: string, f: nat -> Style)
    requires Cover(s.spans, s.end, f) && Merged(s.spans) && Ordered(tokens, s.end, n)
    requires forall p: nat | s.end <= p :: f(p) == StyleAt(tokens, fg, p)
    ensures Cover(Finish(Steps(s, tokens, fg), n, fg), n, f) && Merged(Finish(Steps(s, tokens, fg), n, fg))
    decreases |tokens|
  {
    hide Cover, Merged, Add;
    if tokens == [] {
      AddCovers(s.spans, s.end, n, Style(fg, 0), f);
      NoAdd(s.spans, n, Style(fg, 0));
    } else {
      var t := tokens[0];
      forall p: nat | s.end <= p < t.offset ensures f(p) == Style(fg, 0) {
        NoTokenBefore(tokens[1..], t.End(), n, fg, p);
      }
      AddCovers(s.spans, s.end, t.offset, Style(fg, 0), f);
      NoAdd(s.spans, t.offset, Style(fg, 0));
      var filled := if t.offset > s.end then Add(s.spans, s.end, t.offset, Style(fg, 0)) else s.spans;
      AddCovers(filled, t.offset, t.End(), t.StyleOr(fg), f);
      StepsCover(Step(s, t, fg), tokens[1..], n, fg, f);
    }
  }

  lemma NoAdd(spans: seq<Span>, n: nat, style: Style)
    ensures Add(spans, n, n, style) == spans
  {}

  /** Ordered tokens flatten into a cover of the code without repeated styles. */
  lemma FlatCovers(tokens: seq<Token>, n: nat, fg: string)
    requires Ordered(tokens, 0, n)
    ensures var f := (p: nat) => StyleAt(tokens, fg, p);
            Cover(Flat(tokens, n, fg), n, f) && Merged(Flat(tokens, n, fg))
  {
    StepsCover(Progress([], 0), tokens, n, fg, (p: nat) => StyleAt(tokens, fg, p));
  }

  // ---------- unique and shortest ----------

  lemma CoverWithoutLast(spans: seq<Span>, n: nat, f: nat -> Style)
    requires Cover(spans, n, f) && spans != []
    ensures Cover(spans[..|spans| - 1], spans[|spans| - 1].start, f)
    ensures Merged(spans) ==> Merged(spans[..|spans| - 1])
  {
    var rest := spans[..|spans| - 1];
    if rest == [] { assert spans[|spans| - 1] == spans[0]; }
  }

  /** The styles on both sides of the last start of a merged cover differ. */
  lemma StyleChanges(b: seq<Span>, n: nat, f: nat -> Style)
    requires Cover(b, n, f) && Merged(b) && b != [] && b[|b| - 1].start > 0
    ensures f(b[|b| - 1].start - 1) != f(b[|b| - 1].start)
  {
    assert |b| > 1 && b[|b| - 2].end == b[|b| - 1].start;
    assert f(b[|b| - 1].start - 1) == b[|b| - 2].style;
  }

  lemma LastStyle(a: seq<Span>, n: nat, f: nat -> Style)
    requires Cover(a, n, f) && a != []
    ensures a[|a| - 1].end == n && a[|a| - 1].start < n
    ensures forall p: nat | a[|a| - 1].start <= p < n :: f(p) == a[|a| - 1].style
  {}

  /** The last span of a merged cover starts no later than that of any cover: before it the style changes. */
  lemma LastStart(a: seq<Span>, b: seq<Span>, n: nat, f: nat -> Style)
    requires Cover(a, n, f) && Cover(b, n, f) && Merged(b) && a != [] && b != []
    ensures b[|b| - 1].start <= a[|a| - 1].start
  {
    hide Cover, Merged;
    if b[|b| - 1].start > 0 { StyleChanges(b, n, f); }
    LastStyle(a, n, f);
    LastStyle(b, n, f);
  }

  lemma OnlyEmpty(a: seq<Span>, n: nat, f: nat -> Style)
    requires Cover(a, n, f)
    ensures a == [] <==> n == 0
  {}

  lemma {:induction false} MergedCoverUnique(a: seq<Span>, b: seq<Span>, n: nat, f: nat -> Style)
    requires Cover(a, n, f) && Merged(a) && Cover(b, n, f) && Merged(b)
    ensures a == b
    decreases |a|
  {
    hide Cover, Merged;
    OnlyEmpty(a, n, f);
    OnlyEmpty(b, n, f);
    if n > 0 {
      LastStart(a, b, n, f); LastStart(b, a, n, f);
      LastStyle(a, n, f); LastStyle(b, n, f);
      CoverWithoutLast(a, n, f); CoverWithoutLast(b, n, f);
      var x, y := a[|a| - 1], b[|b| - 1];
      assert f(x.start) == x.style && f(y.start) == y.style;
      MergedCoverUnique(a[..|a| - 1], b[..|b| - 1], x.start, f);
      assert a == a[..|a| - 1] + [x] && b == b[..|b| - 1] + [y];
    }
  }

  /** No cover of the same styles is shorter than a merged one. */
  lemma {:induction false} MergedCoverShortest(a: seq<Span>, b: seq<Span>, n: nat, f: nat -> Style)
    requires Cover(a, n, f) && Cover(b, n, f) && Merged(b)
    ensures |b| <= |a|
    decreases |a|
  {
    hide Cover, Merged;
    OnlyEmpty(a, n, f);
    OnlyEmpty(b, n, f);
    if n > 0 {
      LastStart(a, b, n, f);
      LastStyle(a, n, f); LastStyle(b, n, f);
      CoverWithoutLast(a, n, f); CoverWithoutLast(b, n, f);
      var x, y := a[|a| - 1], b[|b| - 1];
      if x.start == y.start {
        MergedCoverShortest(a[..|a| - 1], b[..|b| - 1], x.start, f);
      } else {
        var cut := b[..|b| - 1] + [y.(end := x.start)];
        CutCover(b, x.start, n, f);
        MergedCoverShortest(a[..|a| - 1], cut, x.start, f);
      }
    }
  }

  lemma CutCover(b: seq<Span>, m: nat, n: nat, f: nat -> Style)
    requires Cover(b, n, f) && Merged(b) && b != [] && b[|b| - 1].start < m <= n
    ensures var cut := b[..|b| - 1] + [b[|b| - 1].(end := m)];
            Cover(cut, m, f) && Merged(cut)
  {}

  /** The result for ordered tokens is the one shortest cover with the tokens' styles. */
  lemma FlatIsTheShortest(tokens: seq<Token>, n: nat, fg: string, other: seq<Span>)
    requires Ordered(tokens, 0, n) && Cover(other, n, (p: nat) => StyleAt(tokens, fg, p))
    ensures |Flat(tokens, n, fg)| <= |other|
    ensures Merged(other) ==> other == Flat(tokens, n, fg)
  {
    var f := (p: nat) => StyleAt(tokens, fg, p);
    FlatCovers(tokens, n, fg);
    MergedCoverShortest(other, Flat(tokens, n, fg), n, f);
    if Merged(other) { MergedCoverUnique(other, Flat(tokens, n, fg), n, f); }
  }

  // ---------- the validation accepts exactly the ordered tokens ----------

  /** How far the spans reach. */
  function Reach(spans: seq<Span>): nat {
    if spans == [] then 0 else spans[|spans| - 1].end
  }

  /** Non-empty spans, one behind the other from 0; the last may still grow. */
  ghost predicate Joined(spans: seq<Span>) {
    && (spans != [] ==> spans[0].start == 0)
    && (forall i | 0 <= i < |spans| :: spans[i].start < spans[i].end)
    && (forall i | 0 < i < |spans| :: spans[i].start == spans[i - 1].end)
  }

  /** A gap or an overlap that no later span can mend. */
  ghost predicate Torn(spans: seq<Span>) {
    spans != [] && (spans[0].start != 0 || exists i :: 0 < i < |spans| && spans[i].start != spans[i - 1].end)
  }

  lemma TornStays(spans: seq<Span>, start: nat, finish: nat, style: Style)
    requires Torn(spans)
    ensures Torn(Add(spans, start, finish, style))
  {
    var after := Add(spans, start, finish, style);
    if spans[0].start == 0 {
      var i :| 0 < i < |spans| && spans[i].start != spans[i - 1].end;
      assert after[i].start != after[i - 1].end;
    }
  }

  lemma AddJoins(spans: seq<Span>, start: nat, finish: nat, style: Style)
    requires Joined(spans) && start < finish
    ensures var after := Add(spans, start, finish, style);
            if start == Reach(spans) then Joined(after) && Reach(after) == finish else Torn(after)
  {
    var after := Add(spans, start, finish, style);
    if start != Reach(spans) && spans != [] {
      assert after[|spans|].start != after[|spans| - 1].end;
    }
  }

  lemma {:induction false} ChainJoined(spans: seq<Span>, from: nat, n: nat)
    ensures Chain(spans, from, n) ==>
              (if spans == [] then from == n else spans[0].start == from && spans[|spans| - 1].end == n)
              && forall i | 0 < i < |spans| :: spans[i].start == spans[i - 1].end
  {
    if spans != [] { ChainJoined(spans[1..], spans[0].end, n); }
  }

  lemma {:induction false} JoinedChain(spans: seq<Span>, from: nat)
    requires spans != [] && spans[0].start == from
    requires forall i | 0 <= i < |spans| :: spans[i].start < spans[i].end
    requires forall i | 0 < i < |spans| :: spans[i].start == spans[i - 1].end
    ensures Chain(spans, from, Reach(spans))
  {
    if |spans| > 1 { JoinedChain(spans[1..], spans[0].end); }
  }

  /** A joined list is valid exactly if it reaches the end; a torn one never is. */
  lemma ValidEnd(spans: seq<Span>, n: nat)
    ensures Torn(spans) ==> !Chain(spans, 0, n)
    ensures Joined(spans) ==> (Chain(spans, 0, n) <==> Reach(spans) == n)
  {
    ChainJoined(spans, 0, n);
    if Joined(spans) && spans != [] { JoinedChain(spans, 0); }
  }

  lemma {:induction false} TornFails(s: Progress, tokens: seq<Token>, n: nat, fg: string)
    requires Torn(s.spans)
    ensures !Chain(Finish(Steps(s, tokens, fg), n, fg), 0, n)
    decreases |tokens|
  {
    hide Torn, Chain, Add;
    if tokens == [] {
      TornStays(s.spans, s.end, n, Style(fg, 0));
      ValidEnd(Finish(s, n, fg), n);
    } else {
      var t := tokens[0];
      TornStays(s.spans, s.end, t.offset, Style(fg, 0));
      var filled := if t.offset > s.end then Add(s.spans, s.end, t.offset, Style(fg, 0)) else s.spans;
      TornStays(filled, t.offset, t.End(), t.StyleOr(fg));
      TornFails(Step(s, t, fg), tokens[1..], n, fg);
    }
  }

  /** Once `end` has fallen behind the spans, the result cannot be valid any more. */
  lemma {:induction false} BehindFails(s: Progress, tokens: seq<Token>, n: nat, fg: string)
    requires Joined(s.spans) && s.end < Reach(s.spans)
    ensures !Chain(Finish(Steps(s, tokens, fg), n, fg), 0, n)
    decreases |tokens|
  {
    hide Torn, Chain, Add, Joined, Reach;
    if tokens == [] {
      if s.end < n { AddJoins(s.spans, s.end, n, Style(fg, 0)); }
      ValidEnd(Finish(s, n, fg), n);
    } else {
      var t := tokens[0];
      if t.offset > s.end {
        AddJoins(s.spans, s.end, t.offset, Style(fg, 0));
        TornStays(Add(s.spans, s.end, t.offset, Style(fg, 0)), t.offset, t.End(), t.StyleOr(fg));
        TornFails(Step(s, t, fg), tokens[1..], n, fg);
      } else if t.content != "" {
        AddJoins(s.spans, t.offset, t.End(), t.StyleOr(fg));
        TornFails(Step(s, t, fg), tokens[1..], n, fg);
      } else {
        NoAdd(s.spans, t.offset, t.StyleOr(fg));
        BehindFails(Step(s, t, fg), tokens[1..], n, fg);
      }
    }
  }

  lemma {:induction false} ValidIfOrdered(s: Progress, tokens: seq<Token>, n: nat, fg: string)
    requires Joined(s.spans) && s.end == Reach(s.spans)
    ensures Chain(Finish(Steps(s, tokens, fg), n, fg), 0, n) <==> Ordered(tokens, s.end, n)
    decreases |tokens|
  {
    hide Torn, Chain, Add, Joined, Reach;
    if tokens == [] {
      if s.end < n { AddJoins(s.spans, s.end, n, Style(fg, 0)); }
      ValidEnd(Finish(s, n, fg), n);
    } else {
      var t := tokens[0];
      if t.offset > s.end { AddJoins(s.spans, s.end, t.offset, Style(fg, 0)); }
      var filled := if t.offset > s.end then Add(s.spans, s.end, t.offset, Style(fg, 0)) else s.spans;
      if t.content != "" {
        AddJoins(filled, t.offset, t.End(), t.StyleOr(fg));
      } else {
        NoAdd(filled, t.offset, t.StyleOr(fg));
      }
      if t.offset >= s.end {
        ValidIfOrdered(Step(s, t, fg), tokens[1..], n, fg);
      } else if t.content != "" {
        TornFails(Step(s, t, fg), tokens[1..], n, fg);
      } else {
        BehindFails(Step(s, t, fg), tokens[1..], n, fg);
      }
    }
  }

  /** For any tokens whatever: the flattened spans pass the span check exactly when the tokens are in
      order, do not overlap, and stay inside the code. */
  lemma ValidExactlyIfOrdered(tokens: seq<Token>, n: nat, fg: string)
    ensures Chain(Flat(tokens, n, fg), 0, n) <==> Ordered(tokens, 0, n)
  {
    ValidIfOrdered(Progress([], 0), tokens, n, fg);
  }

  // ---------- in terms of offsets and colours ----------

  lemma {:induction false} OrderedSpelled(tokens: seq<Token>, from: nat, n: nat)
    ensures Ordered(tokens, from, n) <==>
            && (tokens == [] ==> from <= n)
            && (forall i | 0 <= i < |tokens| :: from <= tokens[i].offset && tokens[i].offset + |tokens[i].content| <= n)
            && (forall i, j | 0 <= i < j < |tokens| :: tokens[i].offset + |tokens[i].content| <= tokens[j].offset)
  {
    if tokens != [] {
      var rest := tokens[1..];
      OrderedSpelled(rest, tokens[0].End(), n);
      assert forall i | 1 <= i < |tokens| :: tokens[i] == rest[i - 1];
      assert forall i | 0 <= i < |rest| :: rest[i] == tokens[i + 1];
      if Ordered(tokens, from, n) { OrderedEnds(rest, tokens[0].End(), n); }
    }
  }

  /** The style of a position: the colour and font style of the token on it, where missing ones are the
      foreground and 0, and between tokens the foreground. */
  lemma {:induction false} StyleSpelled(tokens: seq<Token>, fg: string, p: nat)
    requires forall i, j | 0 <= i < j < |tokens| :: tokens[i].offset + |tokens[i].content| <= tokens[j].offset
    ensures forall t | t in tokens && t.offset <= p < t.offset + |t.content| ::
              && StyleAt(tokens, fg, p).color == (if t.color == None then fg else t.color.value)
              && StyleAt(tokens, fg, p).fontStyle == (if t.fontStyle == None then 0 else t.fontStyle.value)
    ensures (forall t | t in tokens :: !(t.offset <= p < t.offset + |t.content|)) ==>
              StyleAt(tokens, fg, p) == Style(fg, 0)
  {
    if tokens != [] {
      var rest := tokens[1..];
      assert forall i | 0 <= i < |rest| :: rest[i] == tokens[i + 1];
      StyleSpelled(rest, fg, p);
      forall t | t in tokens && t.offset <= p < t.offset + |t.content|
        ensures StyleAt(tokens, fg, p).color == (if t.color == None then fg else t.color.value)
        ensures StyleAt(tokens, fg, p).fontStyle == (if t.fontStyle == None then 0 else t.fontStyle.value)
      {
        var i :| 0 <= i < |tokens| && tokens[i] == t;
        if i > 0 {
          assert tokens[0].offset + |tokens[0].content| <= tokens[i].offset;
          assert rest[i - 1] == t;
        }
      }
    }
  }

  /** Tokens in order and inside the code: the spans cover the code from 0 to its end without gap, overlap or
      empty span, neighbours differ, and each position `p` has its token's colour and font style, or the
      foreground where no token is. */
  lemma FlatSpelled(tokens: seq<Token>, n: nat, fg: string, i: nat, p: nat)
    requires forall i | 0 <= i < |tokens| :: tokens[i].offset + |tokens[i].content| <= n
    requires forall i, j | 0 <= i < j < |tokens| :: tokens[i].offset + |tokens[i].content| <= tokens[j].offset
    ensures var spans := Flat(tokens, n, fg);
            && (if spans == [] then n == 0 else spans[0].start == 0 && spans[|spans| - 1].end == n)
            && (forall i | 0 <= i < |spans| :: spans[i].start < spans[i].end)
            && (forall i | 0 < i < |spans| ::
                 spans[i].start == spans[i - 1].end && spans[i].style != spans[i - 1].style)
    ensures var spans := Flat(tokens, n, fg);
            i < |spans| && spans[i].start <= p < spans[i].end ==>
              && (forall t | t in tokens && t.offset <= p < t.offset + |t.content| ::
                   && spans[i].style.color == (if t.color == None then fg else t.color.value)
                   && spans[i].style.fontStyle == (if t.fontStyle == None then 0 else t.fontStyle.value))
              && ((forall t | t in tokens :: !(t.offset <= p < t.offset + |t.content|)) ==>
                   spans[i].style == Style(fg, 0))
  {
    hide Flat, Ordered, StyleAt;
    OrderedSpelled(tokens, 0, n);
    FlatCovers(tokens, n, fg);
    StyleSpelled(tokens, fg, p);
    var f := (p: nat) => StyleAt(tokens, fg, p);
    assert f(p) == StyleAt(tokens, fg, p);
  }

  /** What the two checks of the validation accept. */
  lemma {:induction false} ChainSpelled(spans: seq<Span>, from: nat, n: nat)
    ensures Chain(spans, from, n) <==>
            && (if spans == [] then from == n else spans[0].start == from && spans[|spans| - 1].end == n)
            && (forall i | 0 <= i < |spans| :: spans[i].start <= spans[i].end)
            && (forall i | 0 < i < |spans| :: spans[i].start == spans[i - 1].end)
  {
    if spans != [] {
      var rest := spans[1..];
      assert forall i | 0 <= i < |rest| :: rest[i] == spans[i + 1];
      ChainSpelled(rest, spans[0].end, n);
      assert forall i | 0 < i < |spans| :: spans[i] == rest[i - 1];
    }
  }

  lemma QuotedSpelled(code: string, tokens: seq<Token>)
    ensures Quoted(code, tokens) <==>
            forall i | 0 <= i < |tokens| ::
              tokens[i].content == "" ||
              (tokens[i].offset + |tokens[i].content| <= |code| &&
               code[tokens[i].offset..tokens[i].offset + |tokens[i].content|] == tokens[i].content)
  {}
}
