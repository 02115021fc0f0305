/** Shader source as tokens, and the loop canonicalizer that works on them:
    the bracket scan, the search for the next `for (`, the recursive rewrite and the
    global counter of benchmarks/gpu-lexer/canonicalize-shader.py.

    A token is a maximal word, one whitespace character or one punctuation character, so
    bracket counting, splitting at `;` and the word-boundary search see what they see
    in the character string. White space inside a comment is kept apart, because the
    comment ends with it; the script's searches make no difference. */
module ShaderText {
  import opened Outcomes

  datatype Token = Word(text: string) | Space(c: char) | Inner(c: char) | Punct(c: char)

  type Text = seq<Token>

  const FOR := Word("for")

  /** The ways the script stops: no matching bracket, a header without three parts,
      text that ends before the body, or a header followed by something else than `{`. */
  datatype Error = Unbalanced | BadHeader | EndOfText | NoBody

  datatype Rewritten = Rewritten(text: Text, count: nat)

  // ---------- the pieces the script is made of ----------

  ghost predicate Contains(word: string, part: string) {
    exists i {:trigger word[i..]} :: 0 <= i <= |word| && part <= word[i..]
  }

  /** `'continue' in text`: the match can only lie inside one word. */
  ghost predicate MentionsContinue(text: Text) {
    exists i :: 0 <= i < |text| && text[i].Word? && Contains(text[i].text, "continue")
  }

  predicate White(t: Token) { t.Space? || t.Inner? }

  function SkipSpaces(text: Text, i: nat): (j: nat)
    requires i <= |text|
    ensures i <= j <= |text|
    decreases |text| - i
  {
    if i < |text| && White(text[i]) then SkipSpaces(text, i + 1) else i
  }

  predicate ForAt(text: Text, i: nat) {
    && i < |text|
    && text[i] == FOR
    && var paren := SkipSpaces(text, i + 1);
       paren < |text| && text[paren] == Punct('(')
  }

  /** The first `for (` at or after `i`, or `|text|`. */
  function FindFor(text: Text, i: nat): (start: nat)
    requires i <= |text|
    ensures i <= start <= |text|
    ensures start < |text| ==> ForAt(text, start)
    decreases |text| - i
  {
    if i == |text| || ForAt(text, i) then i else FindFor(text, i + 1)
  }

  /** The bracket that brings the depth, `depth` before position `i`, back to zero. */
  function MatchFrom(text: Text, i: nat, depth: int, left: char, right: char): (r: Option<nat>)
    requires i <= |text|
    ensures r.Some? ==> i <= r.value < |text| && text[r.value] == Punct(right)
    decreases |text| - i
  {
    if i == |text| then None
    else if text[i] == Punct(left) then MatchFrom(text, i + 1, depth + 1, left, right)
    else if text[i] == Punct(right) then
      if depth == 1 then Some(i) else MatchFrom(text, i + 1, depth - 1, left, right)
    else MatchFrom(text, i + 1, depth, left, right)
  }

  /** `text.split(';')` */
  function Split(text: Text): (parts: seq<Text>)
    ensures |parts| >= 1
  {
    if text == [] then [[]]
    else
      var rest := Split(text[1..]);
      if text[0] == Punct(';') then [[]] + rest else [[text[0]] + rest[0]] + rest[1..]
  }

  /** The text that replaces a converted loop. */
  function BottomUpdated(header: seq<Text>, body: Text): Text
    requires |header| == 3
  {
    [Punct('{')] + header[0] + [Punct(';'), Word("loop"), Punct('{'), Word("if"), Punct('('), Punct('!'), Punct('(')]
    + header[1] + [Punct(')'), Punct(')'), Punct('{'), Word("break"), Punct(';'), Punct('}')]
    + body + header[2] + [Punct(';'), Punct('}'), Punct('}')]
  }

  // ---------- the rewrite as a function ----------

  /** Where one `for` statement lies in the text. */
  datatype Site = Site(start: nat, paren: nat, end: nat, bodyStart: nat, bodyEnd: nat)

  ghost predicate InText(site: Site, text: Text, offset: nat) {
    offset <= site.start < site.paren < site.end < site.bodyStart < site.bodyEnd < |text|
  }

  /** The brackets of the `for` that starts at `start`. */
  ghost function Locate(text: Text, start: nat): (r: Result<Site, Error>)
    requires ForAt(text, start)
    ensures r.Success? ==> InText(r.value, text, start) && r.value.start == start
    ensures r.Success? ==> |Split(text[r.value.paren + 1..r.value.end])| == 3
  {
    var paren := SkipSpaces(text, start + 1);
    match MatchFrom(text, paren, 0, '(', ')')
    case None => Failure(Unbalanced)
    case Some(end) =>
      if |Split(text[paren + 1..end])| != 3 then Failure(BadHeader) else
      var bodyStart := SkipSpaces(text, end + 1);
      if bodyStart == |text| then Failure(EndOfText) else
      if text[bodyStart] != Punct('{') then Failure(NoBody) else
      match MatchFrom(text, bodyStart, 0, '{', '}')
      case None => Failure(Unbalanced)
      case Some(bodyEnd) => Success(Site(start, paren, end, bodyStart, bodyEnd))
  }

  /** What one located loop turns into, given its rewritten body. */
  ghost function Replacement(text: Text, site: Site, body: Rewritten): Rewritten
    requires InText(site, text, 0)
    requires |Split(text[site.paren + 1..site.end])| == 3
  {
    if MentionsContinue(body.text) then
      Rewritten(text[site.start..site.bodyStart + 1] + body.text + [Punct('}')], body.count)
    else
      Rewritten(BottomUpdated(Split(text[site.paren + 1..site.end]), body.text), body.count + 1)
  }

  ghost function Join(first: Rewritten, rest: Result<Rewritten, Error>): Result<Rewritten, Error> {
    if rest.Failure? then rest
    else Success(Rewritten(first.text + rest.value.text, first.count + rest.value.count))
  }

  /** The rewrite of `text[offset..]`. */
  ghost function RewriteFrom(text: Text, offset: nat): (r: Result<Rewritten, Error>)
    requires offset <= |text|
    decreases |text| - offset
  {
    var start := FindFor(text, offset);
    if start == |text| then Success(Rewritten(text[offset..], 0)) else
    var located := Locate(text, start);
    if located.Failure? then Failure(located.error) else
    var site := located.value;
    var body := RewriteFrom(text[site.bodyStart + 1..site.bodyEnd], 0);
    if body.Failure? then body else
    Join(Rewritten(text[offset..start], 0),
         Join(Replacement(text, site, body.value), RewriteFrom(text, site.bodyEnd + 1)))
  }

  // ---------- the rewrite as the script performs it ----------

  method MatchEnd(text: Text, start: nat, left: char, right: char) returns (r: Option<nat>)
    requires start <= |text|
    ensures r == MatchFrom(text, start, 0, left, right)
  {
    var depth := 0;
    for i := start to |text|
      invariant MatchFrom(text, start, 0, left, right) == MatchFrom(text, i, depth, left, right)
    {
      if text[i] == Punct(left) {
        depth := depth + 1;
      } else if text[i] == Punct(right) {
        depth := depth - 1;
        if depth == 0 {
          return Some(i);
        }
      }
    }
    return None;
  }

  /** The two scans of one loop, with the script's assertions. */
  method FindSite(text: Text, start: nat) returns (r: Result<Site, Error>)
    requires ForAt(text, start)
    ensures r == Locate(text, start)
  {
    var paren := SkipSpaces(text, start + 1);
    var end := MatchEnd(text, paren, '(', ')');
    if end.None? { return Failure(Unbalanced); }
    var header := Split(text[paren + 1..end.value]);
    if |header| != 3 { return Failure(BadHeader); }
    var bodyStart := SkipSpaces(text, end.value + 1);
    if bodyStart == |text| { return Failure(EndOfText); }
    if text[bodyStart] != Punct('{') { return Failure(NoBody); }
    var bodyEnd := MatchEnd(text, bodyStart, '{', '}');
    if bodyEnd.None? { return Failure(Unbalanced); }
    return Success(Site(start, paren, end.value, bodyStart, bodyEnd.value));
  }

  /** A word holds another text exactly when it is made of three parts of which that text is the second. */
  lemma ContainsSpelled(word: string, part: string)
    ensures Contains(word, part) <==> exists a: string, b: string :: word == a + part + b
  {
    if Contains(word, part) {
      var i :| 0 <= i <= |word| && part <= word[i..];
      assert word == word[..i] + part + word[i + |part|..];
    }
    forall a: string, b: string | word == a + part + b ensures Contains(word, part) {
      assert word[|a|..] == part + b;
    }
  }

  /** `continue` stands somewhere in a word of the text. */
  ghost predicate SpellsContinue(text: Text) {
    exists i, a: string, b: string :: 0 <= i < |text| && text[i] == Word(a + "continue" + b)
  }

  lemma MentionsSpelled(text: Text)
    ensures MentionsContinue(text) <==> SpellsContinue(text)
  {
    hide Contains;
    if MentionsContinue(text) {
      var i :| 0 <= i < |text| && text[i].Word? && Contains(text[i].text, "continue");
      ContainsSpelled(text[i].text, "continue");
      var a: string, b: string :| text[i].text == a + "continue" + b;
    }
    if SpellsContinue(text) {
      var i, a: string, b: string :| 0 <= i < |text| && text[i] == Word(a + "continue" + b);
      ContainsSpelled(text[i].text, "continue");
    }
  }

  method HasContinue(text: Text) returns (found: bool)
    ensures found == MentionsContinue(text)
    ensures found <==>
            exists i, a: string, b: string :: 0 <= i < |text| && text[i] == Word(a + "continue" + b)
  {
    MentionsSpelled(text);
    for i := 0 to |text|
      invariant forall k | 0 <= k < i :: !(text[k].Word? && Contains(text[k].text, "continue"))
    {
      if text[i].Word? {
        var word := text[i].text;
        for j := 0 to |word| + 1
          invariant forall k | 0 <= k < j :: !("continue" <= word[k..])
        {
          if "continue" <= word[j..] {
            assert Contains(word, "continue");
            return true;
          }
        }
      }
    }
    return false;
  }

  /** The script's state: its global counter. */
  class Canonicalizer {
    var count: nat

    constructor ()
      ensures count == 0
    {
      count := 0;
    }

    method Transform(text: Text) returns (r: Result<Text, Error>)
      modifies this
      ensures match RewriteFrom(text, 0)
              case Success(w) => r == Success(w.text) && count == old(count) + w.count
              case Failure(e) => r == Failure(e)
      decreases |text|
    {
      hide RewriteFrom, Locate, Split, SkipSpaces, MatchFrom, ForAt, MentionsContinue, BottomUpdated;
      var output: Text, offset := [], 0;
      var start := FindFor(text, offset);
      JoinNothing(RewriteFrom(text, 0));
      while start < |text|
        invariant offset <= |text| && start == FindFor(text, offset)
        invariant count >= old(count)
        invariant RewriteFrom(text, 0) ==
                  Join(Rewritten(output, count - old(count)), RewriteFrom(text, offset))
        decreases |text| - offset
      {
        var located := FindSite(text, start);
        if located.Failure? { StopHere(text, offset, located.error); return Failure(located.error); }
        var site := located.value;
        ghost var before := count;
        var body := Transform(text[site.bodyStart + 1..site.bodyEnd]);
        if body.Failure? { StopHere(text, offset, body.error); return body; }
        var found := HasContinue(body.value);
        var replacement;
        if !found {
          replacement := BottomUpdated(Split(text[site.paren + 1..site.end]), body.value);
          count := count + 1;
        } else {
          replacement := text[start..site.bodyStart + 1] + body.value + [Punct('}')];
        }
        RewriteStep(text, offset, site, Rewritten(output, before - old(count)),
                    Rewritten(body.value, (if found then count else count - 1) - before));
        output := output + (text[offset..start] + replacement);
        offset := site.bodyEnd + 1;
        start := FindFor(text, offset);
      }
      NothingLeft(text, offset);
      return Success(output + text[offset..]);
    }
  }

  /** One turn of the script's loop. */
  lemma RewriteStep(text: Text, offset: nat, site: Site, done: Rewritten, body: Rewritten)
    requires offset <= |text| && site.start == FindFor(text, offset) < |text|
    requires Locate(text, site.start) == Success(site)
    requires RewriteFrom(text[site.bodyStart + 1..site.bodyEnd], 0) == Success(body)
    ensures var next := Replacement(text, site, body);
            Join(done, RewriteFrom(text, offset)) ==
            Join(Rewritten(done.text + (text[offset..site.start] + next.text), done.count + next.count),
                 RewriteFrom(text, site.bodyEnd + 1))
  {
    hide RewriteFrom, Replacement, Locate, Split, SkipSpaces, MatchFrom, FindFor, ForAt;
    var rest := RewriteFrom(text, site.bodyEnd + 1);
    Unfold(text, offset, site, body);
    JoinJoin(done, Rewritten(text[offset..site.start], 0), Replacement(text, site, body), rest);
  }

  lemma NothingLeft(text: Text, offset: nat)
    requires offset <= |text| && FindFor(text, offset) == |text|
    ensures RewriteFrom(text, offset) == Success(Rewritten(text[offset..], 0))
  {
    hide Locate, Split, SkipSpaces, MatchFrom, FindFor, ForAt, MentionsContinue, BottomUpdated;
  }

  lemma StopHere(text: Text, offset: nat, error: Error)
    requires offset <= |text| && FindFor(text, offset) < |text|
    requires match Locate(text, FindFor(text, offset))
             case Failure(e) => e == error
             case Success(site) => RewriteFrom(text[site.bodyStart + 1..site.bodyEnd], 0) == Failure(error)
    ensures RewriteFrom(text, offset) == Failure(error)
  {
    hide Locate, Split, SkipSpaces, MatchFrom, FindFor, ForAt, MentionsContinue, BottomUpdated;
  }

  lemma Unfold(text: Text, offset: nat, site: Site, body: Rewritten)
    requires offset <= |text| && site.start == FindFor(text, offset) < |text|
    requires Locate(text, site.start) == Success(site)
    requires RewriteFrom(text[site.bodyStart + 1..site.bodyEnd], 0) == Success(body)
    ensures RewriteFrom(text, offset) == Join(Rewritten(text[offset..site.start], 0),
         Join(Replacement(text, site, body), RewriteFrom(text, site.bodyEnd + 1)))
  {
    hide Locate, Split, SkipSpaces, MatchFrom, FindFor, ForAt, MentionsContinue, BottomUpdated;
  }

  lemma JoinNothing(rest: Result<Rewritten, Error>)
    ensures Join(Rewritten([], 0), rest) == rest
  {
    if rest.Success? {
      assert [] + rest.value.text == rest.value.text;
    }
  }

  lemma JoinJoin(a: Rewritten, b: Rewritten, c: Rewritten, rest: Result<Rewritten, Error>)
    ensures Join(a, Join(b, Join(c, rest))) ==
            Join(Rewritten(a.text + (b.text + c.text), a.count + b.count + c.count), rest)
  {
    if rest.Success? {
      assert a.text + (b.text + (c.text + rest.value.text)) == a.text + (b.text + c.text) + rest.value.text;
    }
  }
}
