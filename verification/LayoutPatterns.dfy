/** The four regular expressions in plain text: what each puts in the place of which piece of a shader, and
    when the script's last check stops it. */
module LayoutPatterns {
  import opened Outcomes
  import opened LayoutPass
  import opened LayoutText
  import opened LayoutSteps
  import opened LayoutScript

  lemma IndexIs(t: string, c: char, k: nat, n: nat)
    requires k <= n < |t| && t[n] == c && forall m | k <= m < n :: t[m] != c
    ensures IndexOf(t, c, k) == n
  {
    forall m | n < m <= |t| ensures c in t[k..m] { assert t[k..m][n - k] == c; }
  }

  lemma IndexNone(t: string, c: char, k: nat)
    requires k <= |t| && forall m | k <= m < |t| :: t[m] != c
    ensures IndexOf(t, c, k) == |t|
  {}

  /** The pattern starts with an index: where it is closed, and what stands in it and behind it. */
  lemma Closed(i: string, rest: string)
    requires i != "" && ']' !in i
    ensures var t := "j[" + i + "]" + rest;
            && |t| > 2 && t[0] == 'j' && t[1] == '[' && IndexOf(t, ']', 2) == 2 + |i| && t[2..2 + |i|] == i
            && t[3 + |i|..] == rest
  {
    var t := "j[" + i + "]" + rest;
    forall m | 2 <= m < 2 + |i| ensures t[m] != ']' { assert t[m] == i[m - 2]; }
    IndexIs(t, ']', 2, 2 + |i|);
  }

  lemma MatchClosed(step: Step, i: string, rest: string)
    requires i != "" && ']' !in i
    ensures MatchAt(step, "j[" + i + "]" + rest) ==
            match TailMatch(step, i, rest)
            case None => None
            case Some(tail) => Some(Match(3 + |i| + tail.length, tail.into))
  {
    hide TailMatch;
    Closed(i, rest);
  }

  lemma SubMatched(step: Step, t: string, length: nat, into: string)
    requires 0 < length <= |t| && MatchAt(step, t) == Some(Match(length, into))
    ensures Sub(step, t) == into + Sub(step, t[length..])
  {
    hide MatchAt;
  }

  /** Where a step matches it writes its text and goes on behind the match. */
  lemma SubPiece(step: Step, i: string, tail: string, into: string, rest: string)
    requires i != "" && ']' !in i && TailMatch(step, i, tail + rest) == Some(Match(|tail|, into))
    ensures Sub(step, "j[" + i + "]" + tail + rest) == into + Sub(step, rest)
  {
    hide TailMatch, MatchAt, Sub;
    var t := "j[" + i + "]" + tail + rest;
    assert t == "j[" + i + "]" + (tail + rest);
    MatchClosed(step, i, tail + rest);
    assert t[3 + |i| + |tail|..] == rest;
    SubMatched(step, t, 3 + |i| + |tail|, into);
  }

  /** `j[i].yz` becomes `vec2<f32>(jy[i],jz[i])`. */
  lemma PairsSpelled(i: string, rest: string)
    requires i != "" && ']' !in i
    ensures Sub(Pairs, "j[" + i + "]" + ".yz" + rest) == "vec2<f32>(jy[" + i + "],jz[" + i + "])" + Sub(Pairs, rest)
  {
    hide Sub;
    assert (".yz" + rest)[..3] == ".yz";
    assert BothParts(i) == "vec2<f32>(jy[" + i + "],jz[" + i + "])";
    SubPiece(Pairs, i, ".yz", BothParts(i), rest);
  }

  /** `j[i].x` becomes `jx[i]`, for each of the four components. */
  lemma PartsSpelled(i: string, c: char, rest: string)
    requires i != "" && ']' !in i && (c == 'x' || c == 'y' || c == 'z' || c == 'w')
    ensures Sub(Parts, "j[" + i + "]" + ("." + [c]) + rest) == "j" + [c] + "[" + i + "]" + Sub(Parts, rest)
  {
    hide Sub;
    var tail := "." + [c];
    assert (tail + rest)[0] == '.' && (tail + rest)[1] == c;
    SubPiece(Parts, i, tail, "j" + [c] + "[" + i + "]", rest);
  }

  /** `j[i]=v;` becomes `store_j(i,v);`. */
  lemma WholesSpelled(i: string, v: string, rest: string)
    requires i != "" && ']' !in i && v != "" && ';' !in v
    ensures Sub(Wholes, "j[" + i + "]" + ("=" + v + ";") + rest) == "store_j(" + i + "," + v + ");" + Sub(Wholes, rest)
  {
    hide Sub;
    var tail := "=" + v + ";";
    var t := tail + rest;
    forall m | 1 <= m < 1 + |v| ensures t[m] != ';' { assert t[m] == v[m - 1]; }
    assert t[1 + |v|] == tail[1 + |v|] == ';' && t[0] == '=';
    IndexIs(t, ';', 1, 1 + |v|);
    assert t[1..1 + |v|] == v;
    SubPiece(Wholes, i, tail, "store_j(" + i + "," + v + ");", rest);
  }

  /** `j[i]` becomes `load_j(i)`. */
  lemma LoadsSpelled(i: string, rest: string)
    requires i != "" && ']' !in i
    ensures Sub(Loads, "j[" + i + "]" + rest) == "load_j(" + i + ")" + Sub(Loads, rest)
  {
    hide Sub;
    assert "j[" + i + "]" + "" + rest == "j[" + i + "]" + rest && "" + rest == rest;
    SubPiece(Loads, i, "", "load_j(" + i + ")", rest);
  }

  /** Nothing else is replaced: what does not start with an index that holds something, and an index
      without the tail of its pattern. */
  lemma OthersStay(step: Step, t: string)
    requires t != ""
    requires || !("j[" <= t) || "j[]" <= t || ']' !in t
             || exists i, rest | i != "" && ']' !in i :: t == "j[" + i + "]" + rest && WrongTail(step, rest)
    ensures Sub(step, t) == [t[0]] + Sub(step, t[1..])
  {
    hide Sub, TailMatch, WrongTail;
    if "j[" <= t && !("j[]" <= t) && ']' in t {
      var i, rest :| i != "" && ']' !in i && t == "j[" + i + "]" + rest && WrongTail(step, rest);
      MatchClosed(step, i, rest);
      NoTail(step, i, rest);
    } else {
      NoIndexHere(step, t);
    }
    SubUnmatched(step, t);
  }

  /** What stands behind an index is not the rest of the pattern. */
  ghost predicate WrongTail(step: Step, rest: string) {
    if step.Pairs? then !(".yz" <= rest)
    else if step.Parts? then |rest| < 2 || rest[0] != '.' || rest[1] !in "xyzw"
    else if step.Wholes? then rest == "" || rest[0] != '=' || ";" <= rest[1..] || ';' !in rest
    else false
  }

  lemma NoTail(step: Step, i: string, rest: string)
    requires WrongTail(step, rest)
    ensures TailMatch(step, i, rest) == None
  {
    if step.Wholes? && rest != "" && rest[0] == '=' {
      if ';' !in rest { IndexNone(rest, ';', 1); } else { IndexIs(rest, ';', 1, 1); }
    }
  }

  lemma NoIndexHere(step: Step, t: string)
    requires !("j[" <= t) || "j[]" <= t || ']' !in t
    ensures MatchAt(step, t) == None
  {
    if "j[" <= t {
      if "j[]" <= t { IndexIs(t, ']', 2, 2); } else { IndexNone(t, ']', 2); }
    }
  }

  lemma SubUnmatched(step: Step, t: string)
    requires t != "" && MatchAt(step, t) == None
    ensures Sub(step, t) == [t[0]] + Sub(step, t[1..])
  {
    hide MatchAt;
  }

  // ---------- the declaration ----------

  /** `str.replace` replaces the first place of a text and goes on behind it, so it replaces all that do not
      overlap; a text without one is left alone. */
  lemma {:induction false} ReplaceFirst(a: string, x: string, b: string, into: string)
    requires x != "" && forall k | 0 <= k < |a| :: !(x <= (a + x + b)[k..])
    ensures LayoutScript.Replace(a + x + b, x, into) == a + into + LayoutScript.Replace(b, x, into)
    decreases |a|
  {
    hide LayoutScript.Replace;
    if a == "" {
      ReplaceFront(x, b, into);
      assert a + x + b == x + b;
      assert a + into + LayoutScript.Replace(b, x, into) == into + LayoutScript.Replace(b, x, into);
    } else {
      var t, rest := a + x + b, a[1..] + x + b;
      assert t == [a[0]] + rest && t[0..] == t;
      forall k | 0 <= k < |a[1..]| ensures !(x <= rest[k..]) { assert rest[k..] == t[k + 1..]; }
      ReplaceLater(a[0], rest, x, into);
      ReplaceFirst(a[1..], x, b, into);
      assert [a[0]] + (a[1..] + into + LayoutScript.Replace(b, x, into)) ==
             a + into + LayoutScript.Replace(b, x, into);
    }
  }

  lemma ReplaceFront(x: string, b: string, into: string)
    requires x != ""
    ensures LayoutScript.Replace(x + b, x, into) == into + LayoutScript.Replace(b, x, into)
  {
    assert (x + b)[|x|..] == b;
  }

  // ---------- the last check ----------

  lemma {:induction false} UnclosedStays(step: Step, t: string)
    requires ']' !in t
    ensures Sub(step, t) == t
  {
    hide MatchAt;
    if t != "" {
      NoIndexHere(step, t);
      SubUnmatched(step, t);
      UnclosedStays(step, t[1..]);
    }
  }

  /** Whatever opens an index on the array closes it at once. */
  ghost predicate AllEmpty(t: string) {
    forall k | 0 <= k < |t| - 1 && t[k] == 'j' && t[k + 1] == '[' :: k + 2 < |t| && t[k + 2] == ']'
  }

  lemma AllEmptyTail(t: string)
    requires AllEmpty(t) && t != ""
    ensures AllEmpty(t[1..]) && (!("j[" <= t) || "j[]" <= t)
  {
    var rest := t[1..];
    forall k | 0 <= k < |rest| - 1 && rest[k] == 'j' && rest[k + 1] == '['
      ensures k + 2 < |rest| && rest[k + 2] == ']'
    {
      assert t[k + 1] == 'j' && t[k + 2] == '[';
    }
    assert "j[" <= t ==> t[0] == 'j' && t[1] == '[' && t[2] == ']';
  }

  lemma {:induction false} EmptyIndexStays(step: Step, t: string)
    requires AllEmpty(t)
    ensures Sub(step, t) == t
  {
    hide MatchAt, AllEmpty;
    if t != "" {
      AllEmptyTail(t);
      NoIndexHere(step, t);
      SubUnmatched(step, t);
      EmptyIndexStays(step, t[1..]);
    }
  }

  lemma {:induction false} AllStay(order: seq<Step>, t: string)
    requires forall step :: Sub(step, t) == t
    ensures SubAll(order, t) == t
  {
    hide Sub;
    if order != [] { AllStay(order[1..], t); }
  }

  /** A text without the declaration whose indexes on the array are never closed, or are all empty, is left
      alone, and the script stops exactly when there is such an index. */
  lemma StopsAtIndex(t: string)
    requires forall k | 0 <= k <= |t| :: !("var<workgroup> j:array<vec4<f32>,1024>;" <= t[k..])
    requires ']' !in t || AllEmpty(t)
    ensures Optimize(t) ==
            if exists k | 0 <= k < |t| - 1 :: t[k] == 'j' && t[k + 1] == '[' then Failure(StillIndexed) else Success(t)
  {
    hide Sub, SubAll, Replace;
    NoneLeft(t, DECLARATION, DECLARATIONS);
    forall step ensures Sub(step, t) == t {
      if ']' !in t { UnclosedStays(step, t); } else { EmptyIndexStays(step, t); }
    }
    AllStay(SCRIPT, t);
    assert NoIndex(t) <==> !exists k | 0 <= k < |t| - 1 :: t[k] == 'j' && t[k + 1] == '[';
  }
}
