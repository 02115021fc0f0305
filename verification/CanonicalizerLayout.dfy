/** White space outside comments does not matter to the canonicalizer: rewriting a text and erasing
    white space gives what erasing it first and rewriting then gives, errors included. */
module CanonicalizerLayout {
  import opened Outcomes
  import opened ShaderText

  function Erase(text: Text): Text {
    if text == [] then [] else (if text[0].Space? then [] else [text[0]]) + Erase(text[1..])
  }

  lemma {:induction false} EraseConcat(x: Text, y: Text)
    ensures Erase(x + y) == Erase(x) + Erase(y)
  {
    if x == [] {
      assert x + y == y;
    } else {
      assert (x + y)[1..] == x[1..] + y;
      EraseConcat(x[1..], y);
    }
  }

  lemma {:induction false} ErasedNoSpace(x: Text)
    ensures forall i | 0 <= i < |Erase(x)| :: !Erase(x)[i].Space?
  {
    if x != [] { ErasedNoSpace(x[1..]); }
  }

  // ---------- positions ----------

  /** Where position `i` of the text lies after erasing. */
  ghost function Pos(t: Text, i: nat): nat
    requires i <= |t|
  {
    |Erase(t[..i])|
  }

  lemma PosSplit(t: Text, i: nat)
    requires i <= |t|
    ensures Pos(t, i) <= |Erase(t)| && Erase(t) == Erase(t[..i]) + Erase(t[i..])
    ensures Erase(t)[..Pos(t, i)] == Erase(t[..i]) && Erase(t)[Pos(t, i)..] == Erase(t[i..])
  {
    assert t == t[..i] + t[i..];
    EraseConcat(t[..i], t[i..]);
  }

  lemma EraseNext(t: Text, next: Token)
    ensures Erase(t + [next]) == if next.Space? then Erase(t) else Erase(t) + [next]
  {
    EraseConcat(t, [next]);
    assert [next][1..] == [];
    assert Erase([next]) == if next.Space? then [] else [next];
  }

  lemma PosStep(t: Text, i: nat)
    requires i < |t|
    ensures Pos(t, i) <= Pos(t, i + 1) <= |Erase(t)|
    ensures t[i].Space? ==> Pos(t, i + 1) == Pos(t, i)
    ensures !t[i].Space? ==> Pos(t, i + 1) == Pos(t, i) + 1 && Erase(t)[Pos(t, i)] == t[i]
  {
    hide Erase;
    PosSplit(t, i + 1);
    assert t[..i + 1] == t[..i] + [t[i]];
    EraseNext(t[..i], t[i]);
    if !t[i].Space? {
      Inside(Erase(t[..i]), t[i], Erase(t[i + 1..]));
    }
  }

  lemma Inside(x: Text, next: Token, y: Text)
    ensures (x + [next] + y)[|x|] == next
  {}

  lemma PosEnds(t: Text)
    ensures Pos(t, 0) == 0 && Pos(t, |t|) == |Erase(t)|
  {
    assert t[..0] == [] && t[..|t|] == t;
  }

  lemma {:induction false} PosMonotone(t: Text, i: nat, j: nat)
    requires i <= j <= |t|
    ensures Pos(t, i) <= Pos(t, j) <= |Erase(t)|
    ensures Erase(t[i..j]) == Erase(t)[Pos(t, i)..Pos(t, j)]
  {
    PosSplit(t, i);
    PosSplit(t, j);
    assert t[..j] == t[..i] + t[i..j];
    EraseConcat(t[..i], t[i..j]);
    var e := Erase(t);
    assert e[..Pos(t, j)] == e[..Pos(t, i)] + Erase(t[i..j]);
    assert e[Pos(t, i)..Pos(t, j)] == e[..Pos(t, j)][Pos(t, i)..];
  }

  // ---------- the scans ----------

  lemma {:induction false} ErasedMatch(t: Text, i: nat, depth: int, left: char, right: char)
    requires i <= |t|
    ensures Pos(t, i) <= |Erase(t)|
    ensures var r, s := MatchFrom(t, i, depth, left, right), MatchFrom(Erase(t), Pos(t, i), depth, left, right);
            s == if r.None? then None else Some(Pos(t, r.value))
    decreases |t| - i
  {
    hide Pos, Erase;
    if i == |t| {
      PosEnds(t);
    } else {
      PosStep(t, i);
      var d := if t[i] == Punct(left) then depth + 1 else if t[i] == Punct(right) then depth - 1 else depth;
      ErasedMatch(t, i + 1, d, left, right);
    }
  }

  lemma {:induction false} ErasedSkip(t: Text, i: nat)
    requires i <= |t|
    ensures var j := SkipSpaces(t, i);
            Pos(t, i) <= |Erase(t)| && Pos(t, j) == SkipSpaces(Erase(t), Pos(t, i))
    ensures var j := SkipSpaces(t, i);
            if j == |t| then Pos(t, j) == |Erase(t)|
            else Pos(t, j) < |Erase(t)| && Erase(t)[Pos(t, j)] == t[j] && Pos(t, j + 1) == Pos(t, j) + 1
    decreases |t| - i
  {
    hide Pos, Erase;
    if i == |t| {
      PosEnds(t);
    } else {
      PosStep(t, i);
      if White(t[i]) { ErasedSkip(t, i + 1); }
    }
  }

  lemma ErasedForAt(t: Text, i: nat)
    requires i < |t| && !t[i].Space?
    ensures Pos(t, i) < |Erase(t)| && (ForAt(Erase(t), Pos(t, i)) <==> ForAt(t, i))
  {
    hide Pos, Erase;
    PosStep(t, i);
    ErasedSkip(t, i + 1);
  }

  lemma {:induction false} ErasedFind(t: Text, i: nat)
    requires i <= |t|
    ensures Pos(t, i) <= |Erase(t)|
    ensures FindFor(Erase(t), Pos(t, i)) == Pos(t, FindFor(t, i))
    ensures FindFor(t, i) == |t| <==> FindFor(Erase(t), Pos(t, i)) == |Erase(t)|
    decreases |t| - i
  {
    hide Pos, Erase;
    if i == |t| {
      PosEnds(t);
    } else {
      PosStep(t, i);
      if !t[i].Space? { ErasedForAt(t, i); }
      if !ForAt(t, i) { ErasedFind(t, i + 1); }
    }
  }

  function EraseParts(parts: seq<Text>): seq<Text> {
    seq(|parts|, i requires 0 <= i < |parts| => Erase(parts[i]))
  }

  lemma ErasedHead(c: Token, x: Text)
    ensures Erase([c] + x) == (if c.Space? then [] else [c]) + Erase(x)
  {
    assert ([c] + x)[1..] == x;
  }

  lemma SplitHead(c: Token, x: Text)
    ensures Split([c] + x) == if c == Punct(';') then [[]] + Split(x) else [[c] + Split(x)[0]] + Split(x)[1..]
  {
    assert ([c] + x)[1..] == x;
  }

  lemma ErasedFront(c: Token, parts: seq<Text>)
    requires |parts| > 0
    ensures EraseParts([[c] + parts[0]] + parts[1..]) ==
            if c.Space? then EraseParts(parts) else [[c] + EraseParts(parts)[0]] + EraseParts(parts)[1..]
  {
    hide Erase;
    ErasedHead(c, parts[0]);
    assert [] + Erase(parts[0]) == Erase(parts[0]);
    var left, right := EraseParts([[c] + parts[0]] + parts[1..]), EraseParts(parts);
    assert |left| == |right| && left[0] == (if c.Space? then [] else [c]) + right[0];
    assert forall i | 1 <= i < |left| :: left[i] == right[i];
  }

  lemma {:induction false} ErasedSplit(x: Text)
    ensures Split(Erase(x)) == EraseParts(Split(x))
  {
    if x != [] {
      var c, y := x[0], x[1..];
      ErasedSplit(y);
      SplitErased(c, y);
      assert [c] + y == x;
    } else {
      assert Split(x) == [[]];
    }
  }

  lemma SplitErased(c: Token, y: Text)
    requires Split(Erase(y)) == EraseParts(Split(y))
    ensures Split(Erase([c] + y)) == EraseParts(Split([c] + y))
  {
    hide Erase, Split, EraseParts;
    ErasedHead(c, y);
    SplitHead(c, y);
    SplitHead(c, Erase(y));
    ErasedFront(c, Split(y));
    if c.Space? {
      assert [] + Erase(y) == Erase(y);
    } else if c == Punct(';') {
      ErasedBreak(Split(y));
    }
  }

  lemma ErasedBreak(parts: seq<Text>)
    ensures EraseParts([[]] + parts) == [[]] + EraseParts(parts)
  {
    var left, right := EraseParts([[]] + parts), [[]] + EraseParts(parts);
    assert |left| == |right| && left[0] == right[0];
    assert forall i | 1 <= i < |left| :: left[i] == right[i];
  }

  lemma {:induction false} ErasedMentions(x: Text)
    ensures MentionsContinue(Erase(x)) <==> MentionsContinue(x)
  {
    if x != [] {
      ErasedMentions(x[1..]);
      MentionsFirst(x[0], x[1..]);
      MentionsFirst(x[0], Erase(x[1..]));
      assert x == [x[0]] + x[1..];
      if x[0].Space? {
        assert Erase(x) == Erase(x[1..]);
      }
    }
  }

  lemma MentionsFirst(c: Token, x: Text)
    ensures MentionsContinue([c] + x) <==> (c.Word? && Contains(c.text, "continue")) || MentionsContinue(x)
  {
    var y := [c] + x;
    if MentionsContinue(x) {
      var i :| 0 <= i < |x| && x[i].Word? && Contains(x[i].text, "continue");
      assert y[i + 1] == x[i];
    }
    if c.Word? && Contains(c.text, "continue") { assert y[0] == c; }
    if MentionsContinue(y) {
      var i :| 0 <= i < |y| && y[i].Word? && Contains(y[i].text, "continue");
      if i > 0 { assert x[i - 1] == y[i]; }
    }
  }

  // ---------- one loop ----------

  ghost function PosSite(t: Text, s: Site): Site
    requires InText(s, t, 0)
  {
    Site(Pos(t, s.start), Pos(t, s.paren), Pos(t, s.end), Pos(t, s.bodyStart), Pos(t, s.bodyEnd))
  }

  lemma ErasedLocate(t: Text, start: nat)
    requires ForAt(t, start)
    ensures Pos(t, start) < |Erase(t)| && ForAt(Erase(t), Pos(t, start))
    ensures var r, s := Locate(t, start), Locate(Erase(t), Pos(t, start));
            s == if r.Failure? then Failure(r.error) else Success(PosSite(t, r.value))
  {
    hide Pos, Erase, MatchFrom, Split, SkipSpaces;
    var e := Erase(t);
    ErasedForAt(t, start);
    PosStep(t, start);
    ErasedSkip(t, start + 1);
    var paren := SkipSpaces(t, start + 1);
    ErasedMatch(t, paren, 0, '(', ')');
    var close := MatchFrom(t, paren, 0, '(', ')');
    if close.Some? {
      var end := close.value;
      PosStep(t, paren);
      PosStep(t, end);
      PosMonotone(t, paren + 1, end);
      ErasedSplit(t[paren + 1..end]);
      ErasedSkip(t, end + 1);
      var bodyStart := SkipSpaces(t, end + 1);
      ErasedMatch(t, bodyStart, 0, '{', '}');
    }
  }

  lemma ErasedInText(t: Text, s: Site, offset: nat)
    requires InText(s, t, offset) && !t[s.start].Space? && !t[s.paren].Space? && !t[s.end].Space? &&
             !t[s.bodyStart].Space? && !t[s.bodyEnd].Space?
    ensures InText(PosSite(t, s), Erase(t), Pos(t, offset))
    ensures Pos(t, s.paren + 1) == Pos(t, s.paren) + 1 && Pos(t, s.bodyStart + 1) == Pos(t, s.bodyStart) + 1
    ensures Pos(t, s.bodyEnd + 1) == Pos(t, s.bodyEnd) + 1
  {
    hide Erase, Pos;
    PosStep(t, s.start); PosStep(t, s.paren); PosStep(t, s.end); PosStep(t, s.bodyStart); PosStep(t, s.bodyEnd);
    PosMonotone(t, offset, s.start);
    PosMonotone(t, s.start + 1, s.paren); PosMonotone(t, s.paren + 1, s.end);
    PosMonotone(t, s.end + 1, s.bodyStart); PosMonotone(t, s.bodyStart + 1, s.bodyEnd);
  }

  function EraseRewritten(w: Rewritten): Rewritten { Rewritten(Erase(w.text), w.count) }

  ghost function EraseResult(r: Result<Rewritten, Error>): Result<Rewritten, Error> {
    if r.Failure? then r else Success(EraseRewritten(r.value))
  }

  lemma ErasedJoin(w: Rewritten, r: Result<Rewritten, Error>)
    ensures EraseResult(Join(w, r)) == Join(EraseRewritten(w), EraseResult(r))
  {
    if r.Success? { EraseConcat(w.text, r.value.text); }
  }

  lemma ErasedBottom(header: seq<Text>, body: Text)
    requires |header| == 3
    ensures Erase(BottomUpdated(header, body)) == BottomUpdated(EraseParts(header), Erase(body))
  {
    hide Erase;
    var open: Text := [Punct('{')];
    var guard: Text := [Punct(';'), Word("loop"), Punct('{'), Word("if"), Punct('('), Punct('!'), Punct('(')];
    var stop: Text := [Punct(')'), Punct(')'), Punct('{'), Word("break"), Punct(';'), Punct('}')];
    var close: Text := [Punct(';'), Punct('}'), Punct('}')];
    ErasedSolid(open); ErasedSolid(guard); ErasedSolid(stop); ErasedSolid(close);
    EraseConcat(open, header[0]);
    EraseConcat(open + header[0], guard);
    EraseConcat(open + header[0] + guard, header[1]);
    EraseConcat(open + header[0] + guard + header[1], stop);
    EraseConcat(open + header[0] + guard + header[1] + stop, body);
    EraseConcat(open + header[0] + guard + header[1] + stop + body, header[2]);
    EraseConcat(open + header[0] + guard + header[1] + stop + body + header[2], close);
  }

  lemma {:induction false} ErasedSolid(x: Text)
    requires forall i | 0 <= i < |x| :: !x[i].Space?
    ensures Erase(x) == x
  {
    if x != [] {
      ErasedSolid(x[1..]);
      assert x == [x[0]] + x[1..];
    }
  }

  lemma ErasedReplacement(t: Text, s: Site, body: Rewritten)
    requires InText(s, t, 0) && |Split(t[s.paren + 1..s.end])| == 3
    requires InText(PosSite(t, s), Erase(t), 0)
    requires Pos(t, s.paren + 1) == Pos(t, s.paren) + 1 && Pos(t, s.bodyStart + 1) == Pos(t, s.bodyStart) + 1
    requires |Split(Erase(t)[PosSite(t, s).paren + 1..PosSite(t, s).end])| == 3
    ensures EraseRewritten(Replacement(t, s, body)) == Replacement(Erase(t), PosSite(t, s), EraseRewritten(body))
  {
    hide Erase, Pos, Split, MentionsContinue, BottomUpdated;
    PosMonotone(t, s.paren + 1, s.end);
    ErasedSplit(t[s.paren + 1..s.end]);
    ErasedMentions(body.text);
    if MentionsContinue(body.text) {
      PosMonotone(t, s.start, s.bodyStart + 1);
      var head, close: Text := t[s.start..s.bodyStart + 1], [Punct('}')];
      EraseConcat(head + body.text, close);
      EraseConcat(head, body.text);
      ErasedSolid(close);
    } else {
      ErasedBottom(Split(t[s.paren + 1..s.end]), body.text);
    }
  }

  // ---------- the whole text ----------

  lemma LocatedSolid(t: Text, start: nat)
    requires ForAt(t, start) && Locate(t, start).Success?
    ensures var s := Locate(t, start).value;
            && t[s.start] == FOR && t[s.paren] == Punct('(') && t[s.end] == Punct(')')
            && t[s.bodyStart] == Punct('{') && t[s.bodyEnd] == Punct('}')
  {}

  /** Erasing white space commutes with the rewrite, on every text. */
  lemma {:induction false} RewriteErased(t: Text, offset: nat)
    requires offset <= |t|
    ensures Pos(t, offset) <= |Erase(t)|
    ensures RewriteFrom(Erase(t), Pos(t, offset)) == EraseResult(RewriteFrom(t, offset))
    decreases |t| - offset
  {
    hide RewriteFrom, Locate, FindFor, ForAt, Erase, Pos, Join, Replacement, Split;
    var e := Erase(t);
    ErasedFind(t, offset);
    var start := FindFor(t, offset);
    if start == |t| {
      NothingLeft(t, offset);
      NothingLeft(e, Pos(t, offset));
      PosMonotone(t, offset, |t|);
      PosEnds(t);
      assert t[offset..|t|] == t[offset..] && e[Pos(t, offset)..|e|] == e[Pos(t, offset)..];
    } else {
      ErasedLocate(t, start);
      var located := Locate(t, start);
      if located.Failure? {
        StopHere(t, offset, located.error);
        StopHere(e, Pos(t, offset), located.error);
      } else {
        LocatedSolid(t, start);
        ErasedInText(t, located.value, offset);
        RewriteErasedAt(t, offset, located.value);
      }
    }
  }

  lemma {:induction false} RewriteErasedAt(t: Text, offset: nat, s: Site)
    requires offset <= |t| && s.start == FindFor(t, offset) < |t| && Locate(t, s.start) == Success(s) &&
             InText(s, t, offset)
    requires Pos(t, offset) <= |Erase(t)| && InText(PosSite(t, s), Erase(t), Pos(t, offset))
    requires Pos(t, s.start) == FindFor(Erase(t), Pos(t, offset)) < |Erase(t)|
    requires Locate(Erase(t), Pos(t, s.start)) == Success(PosSite(t, s))
    requires Pos(t, s.paren + 1) == Pos(t, s.paren) + 1 && Pos(t, s.bodyStart + 1) == Pos(t, s.bodyStart) + 1
    requires Pos(t, s.bodyEnd + 1) == Pos(t, s.bodyEnd) + 1
    ensures RewriteFrom(Erase(t), Pos(t, offset)) == EraseResult(RewriteFrom(t, offset))
    decreases |t| - offset, 0
  {
    hide RewriteFrom, Locate, FindFor, ForAt, Erase, Pos, Join, Replacement, Split;
    var e, es := Erase(t), PosSite(t, s);
    var part := t[s.bodyStart + 1..s.bodyEnd];
    PosMonotone(t, s.bodyStart + 1, s.bodyEnd);
    RewriteErased(part, 0);
    PosEnds(part);
    var body := RewriteFrom(part, 0);
    if body.Failure? {
      StopHere(t, offset, body.error);
      StopHere(e, Pos(t, offset), body.error);
    } else {
      Unfold(t, offset, s, body.value);
      Unfold(e, Pos(t, offset), es, EraseRewritten(body.value));
      ErasedReplacement(t, s, body.value);
      RewriteErased(t, s.bodyEnd + 1);
      PosMonotone(t, offset, s.start);
      ErasedJoin(Replacement(t, s, body.value), RewriteFrom(t, s.bodyEnd + 1));
      ErasedJoin(Rewritten(t[offset..s.start], 0), Join(Replacement(t, s, body.value), RewriteFrom(t, s.bodyEnd + 1)));
    }
  }

  // ---------- nothing converted, nothing changed ----------

  /** A text in which nothing is converted comes back token by token. */
  lemma {:induction false} UnchangedIfNoneConverted(t: Text, offset: nat)
    requires offset <= |t| && RewriteFrom(t, offset).Success? && RewriteFrom(t, offset).value.count == 0
    ensures RewriteFrom(t, offset).value.text == t[offset..]
    decreases |t| - offset
  {
    hide RewriteFrom, Locate, FindFor, ForAt, Split, MentionsContinue, BottomUpdated;
    var start := FindFor(t, offset);
    if start == |t| {
      NothingLeft(t, offset);
    } else {
      assert Locate(t, start).Success? &&
             RewriteFrom(t[Locate(t, start).value.bodyStart + 1..Locate(t, start).value.bodyEnd], 0).Success?
      by {
        var located := Locate(t, start);
        if located.Failure? { StopHere(t, offset, located.error); }
        else {
          var body := RewriteFrom(t[located.value.bodyStart + 1..located.value.bodyEnd], 0);
          if body.Failure? { StopHere(t, offset, body.error); }
        }
      }
      var s := Locate(t, start).value;
      var part := t[s.bodyStart + 1..s.bodyEnd];
      var body := RewriteFrom(part, 0).value;
      Unfold(t, offset, s, body);
      LocatedSolid(t, start);
      UnchangedIfNoneConverted(part, 0);
      UnchangedIfNoneConverted(t, s.bodyEnd + 1);
      assert part[0..] == part;
      assert t[start..s.bodyEnd + 1] == t[start..s.bodyStart + 1] + part + [Punct('}')];
      assert t[offset..] == t[offset..start] + (t[start..s.bodyEnd + 1] + t[s.bodyEnd + 1..]);
    }
  }
}
