/** The pull reader in terms of character codes: what it strips, what it keeps, and the events it returns. */
module EventCharacters {
  import opened Outcomes
  import opened EventStream

  // ---------- characters ----------

  /** A printed ASCII character. */
  predicate Visible(c: char) { 33 <= c as int <= 126 }

  /** Spaces and tabs. */
  predicate Gap(s: string) { forall i | 0 <= i < |s| :: s[i] == ' ' || s[i] == '\t' }

  lemma VisibleStays(c: char)
    requires Visible(c)
    ensures !IsSpace(c)
  {}

  /** Exactly these characters in front of data are stripped. */
  lemma SpaceTable(c: char)
    ensures var n := c as int;
            PullField("data:" + [c] + "x") == Data("x") <==>
            || 9 <= n <= 13 || 28 <= n <= 32 || n == 133 || n == 160 || n == 5760 || 8192 <= n <= 8202
            || n == 8232 || n == 8233 || n == 8239 || n == 8287 || n == 12288
  {
    var s := [c] + "x";
    DataValue(s);
    assert "data:" + [c] + "x" == "data:" + s;
    assert s[1..] == "x" && TrimLeft("x") == "x";
    assert TrimLeft(s) == if IsSpace(c) then "x" else s;
    assert |s| == 2;
  }

  lemma DataValue(s: string)
    ensures PullField("data:" + s) == Data(TrimLeft(s))
  {
    var line := "data:" + s;
    assert line[0] == "data:"[0] && "event:"[0] == 'e';
    assert line[5..] == s;
  }

  lemma NameValue(s: string)
    ensures PullField("event:" + s) == Name(Trim(s))
  {
    assert ("event:" + s)[6..] == s;
  }

  lemma {:induction false} GapLeft(gap: string, s: string)
    requires Gap(gap) && (s == "" || Visible(s[0]))
    ensures TrimLeft(gap + s) == s
  {
    if gap == "" {
      assert gap + s == s;
      if s != "" { VisibleStays(s[0]); }
    } else {
      assert (gap + s)[1..] == gap[1..] + s;
      GapLeft(gap[1..], s);
    }
  }

  lemma {:induction false} GapRight(s: string, gap: string)
    requires Gap(gap) && s != "" && Visible(s[|s| - 1])
    ensures TrimRight(s + gap) == s
    decreases |gap|
  {
    if gap == "" {
      assert s + gap == s;
      VisibleStays(s[|s| - 1]);
    } else {
      var t := s + gap;
      assert t[|t| - 1] == gap[|gap| - 1];
      assert t[..|t| - 1] == s + gap[..|gap| - 1];
      GapRight(s, gap[..|gap| - 1]);
    }
  }

  /** A name between visible characters is read whole, whatever spaces and tabs stand around it. */
  lemma NameRead(gap: string, s: string, gap2: string)
    requires Gap(gap) && Gap(gap2) && s != "" && 33 <= s[0] as int <= 126 && 33 <= s[|s| - 1] as int <= 126
    ensures PullField("event:" + gap + s + gap2) == Name(s)
  {
    assert "event:" + gap + s + gap2 == "event:" + (gap + (s + gap2));
    NameValue(gap + (s + gap2));
    assert (s + gap2)[0] == s[0];
    GapLeft(gap, s + gap2);
    GapRight(s, gap2);
  }

  /** Data that starts with a visible character is read whole, its end included. */
  lemma DataRead(gap: string, s: string)
    requires Gap(gap) && (s == "" || 33 <= s[0] as int <= 126)
    ensures PullField("data:" + gap + s) == Data(s)
  {
    assert "data:" + gap + s == "data:" + (gap + s);
    DataValue(gap + s);
    GapLeft(gap, s);
  }

  /** The end of a line is stripped, whatever line ends stand there. */
  lemma {:induction false} EndStripped(s: string, end: string)
    requires (forall i | 0 <= i < |end| :: end[i] == '\r' || end[i] == '\n')
    requires s == "" || (s[|s| - 1] != '\r' && s[|s| - 1] != '\n')
    ensures Chomp(s + end) == s
    decreases |end|
  {
    if end == "" {
      assert s + end == s;
    } else {
      var t := s + end;
      assert t[|t| - 1] == end[|end| - 1] && t[..|t| - 1] == s + end[..|end| - 1];
      EndStripped(s, end[..|end| - 1]);
    }
  }

  /** Data lines are joined by one line feed each. */
  lemma {:induction false} JoinLines(a: seq<string>, b: seq<string>)
    requires a != [] && b != []
    ensures Join(a + b) == Join(a) + "\n" + Join(b)
    ensures |b| == 1 ==> Join(b) == b[0]
  {
    assert (a + b)[1..] == a[1..] + b;
    if |a| > 1 {
      JoinLines(a[1..], b);
      assert a[0] + "\n" + (Join(a[1..]) + "\n" + Join(b)) == Join(a) + "\n" + Join(b);
    }
  }

  // ---------- one event ----------

  /** The first line of what the pull reader still has to read. */
  lemma PulledLine<V>(parse: string -> Option<V>, text: string, rest: seq<Raw>, name: string, data: seq<string>)
    ensures Pulled(parse, [Line(text)] + rest, name, data) ==
            var f := PullField(Chomp(text));
            if f.Name? then Pulled(parse, rest, f.s, data)
            else if f.Data? then Pulled(parse, rest, name, data + [f.s])
            else if f.Ignored? || data == [] then Pulled(parse, rest, name, data)
            else Pull(if parse(Join(data)).None? then Failure(BadJson) else Success((name, parse(Join(data)).value)),
                      rest)
  {
    hide PullField, Chomp, Join;
    assert ([Line(text)] + rest)[1..] == rest;
  }

  lemma FieldLine(s: string)
    requires s != "" && '\r' !in s && '\n' !in s
    ensures Chomp(s + "\n") == s
  {
    assert s[|s| - 1] in s;
    EndStripped(s, "\n");
  }

  lemma NameLine<V>(parse: string -> Option<V>, s: string, rest: seq<Raw>, name: string, data: seq<string>)
    requires s != "" && 33 <= s[0] as int <= 126 && 33 <= s[|s| - 1] as int <= 126 && '\r' !in s && '\n' !in s
    ensures Pulled(parse, [Line("event: " + s + "\n")] + rest, name, data) == Pulled(parse, rest, s, data)
  {
    hide Pulled, PullField, Chomp;
    FieldLine("event: " + s);
    NameRead(" ", s, "");
    assert "event:" + " " + s + "" == "event: " + s;
    PulledLine(parse, "event: " + s + "\n", rest, name, data);
  }

  lemma DataLine<V>(parse: string -> Option<V>, s: string, rest: seq<Raw>, name: string, data: seq<string>)
    requires (s == "" || 33 <= s[0] as int <= 126) && '\r' !in s && '\n' !in s
    ensures Pulled(parse, [Line("data: " + s + "\n")] + rest, name, data) == Pulled(parse, rest, name, data + [s])
  {
    hide Pulled, PullField, Chomp;
    FieldLine("data: " + s);
    DataRead(" ", s);
    assert "data:" + " " + s == "data: " + s;
    PulledLine(parse, "data: " + s + "\n", rest, name, data);
  }

  /** Every data line is empty or starts with a visible character. */
  ghost predicate VisibleLines(lines: seq<string>) {
    forall i | 0 <= i < |lines| ::
      (lines[i] == "" || 33 <= lines[i][0] as int <= 126) && '\r' !in lines[i] && '\n' !in lines[i]
  }

  lemma {:induction false} DataBlock<V>(parse: string -> Option<V>, lines: seq<string>, rest: seq<Raw>, name: string,
                                        data: seq<string>)
    requires VisibleLines(lines)
    ensures Pulled(parse, DataLines(lines) + rest, name, data) == Pulled(parse, rest, name, data + lines)
    decreases |lines|
  {
    hide Pulled;
    if lines == [] {
      assert DataLines(lines) + rest == rest && data + lines == data;
    } else {
      var more := DataLines(lines[1..]) + rest;
      assert DataLines(lines) + rest == [Line("data: " + lines[0] + "\n")] + more;
      DataLine(parse, lines[0], more, name, data);
      DataBlock(parse, lines[1..], rest, name, data + [lines[0]]);
      assert data + [lines[0]] + lines[1..] == data + lines;
    }
  }

  /** An event as it is written: its name, its data lines, and nothing yet that ends it. */
  ghost function EventLines(name: string, lines: seq<string>): seq<Raw> {
    [Line("event: " + name + "\n")] + DataLines(lines)
  }

  /** What one call makes of a named event, and how it fails. */
  lemma NextVisible<V>(parse: string -> Option<V>, name: string, lines: seq<string>, rest: seq<Raw>)
    requires name != "" && 33 <= name[0] as int <= 126 && 33 <= name[|name| - 1] as int <= 126
    requires '\r' !in name && '\n' !in name && lines != [] && VisibleLines(lines)
    ensures var front := EventLines(name, lines);
            && Pulled(parse, front + ([Line("\n")] + rest), "", []) ==
               Pull(if parse(Join(lines)).Some? then Success((name, parse(Join(lines)).value)) else Failure(BadJson),
                    rest)
            && Pulled(parse, front + ([NotText] + rest), "", []) == Pull(Failure(Undecodable), rest)
            && Pulled(parse, front, "", []) == Pull(Failure(Closed), [])
  {
    hide Pulled;
    EventRead(parse, name, lines, [Line("\n")] + rest);
    EventRead(parse, name, lines, [NotText] + rest);
    EventRead(parse, name, lines, []);
    assert EventLines(name, lines) + [] == EventLines(name, lines);
    BlockEnds(parse, rest, name, lines);
  }

  lemma EventRead<V>(parse: string -> Option<V>, name: string, lines: seq<string>, tail: seq<Raw>)
    requires name != "" && 33 <= name[0] as int <= 126 && 33 <= name[|name| - 1] as int <= 126
    requires '\r' !in name && '\n' !in name && VisibleLines(lines)
    ensures Pulled(parse, EventLines(name, lines) + tail, "", []) == Pulled(parse, tail, name, lines)
  {
    hide Pulled, DataLines;
    var more := DataLines(lines) + tail;
    assert EventLines(name, lines) + tail == [Line("event: " + name + "\n")] + more;
    NameLine(parse, name, more, "", []);
    DataBlock(parse, lines, tail, name, []);
    assert [] + lines == lines;
  }

  lemma BlockEnds<V>(parse: string -> Option<V>, rest: seq<Raw>, name: string, data: seq<string>)
    requires data != []
    ensures Pulled(parse, [Line("\n")] + rest, name, data) ==
            Pull(if parse(Join(data)).Some? then Success((name, parse(Join(data)).value)) else Failure(BadJson), rest)
    ensures Pulled(parse, [NotText] + rest, name, data) == Pull(Failure(Undecodable), rest)
    ensures Pulled(parse, [], name, data) == Pull(Failure(Closed), [])
  {
    hide Join, Chomp;
    EndStripped("", "\n");
    assert "" + "\n" == "\n";
    assert ([Line("\n")] + rest)[1..] == rest && ([NotText] + rest)[1..] == rest;
  }

  // ---------- whole streams ----------

  /** Where a line of the text begins, there is a visible character or the line is empty. */
  ghost predicate VisibleText(text: string, begins: bool) {
    && '\r' !in text
    && (text != "" && begins ==> text[0] == '\n' || 33 <= text[0] as int <= 126)
    && forall i | 0 < i < |text| && text[i - 1] == '\n' :: text[i] == '\n' || 33 <= text[i] as int <= 126
  }

  lemma {:induction false} VisibleSplit(text: string, begins: bool)
    requires VisibleText(text, begins)
    ensures forall i | 0 <= i < |Split(text)| && (i == 0 ==> begins) :: NoSpaceAhead(Split(text)[i])
    decreases |text|
  {
    if text != "" {
      var rest := Split(text[1..]);
      assert forall i | 0 <= i < |text[1..]| :: text[1..][i] == text[i + 1];
      VisibleSplit(text[1..], text[0] == '\n');
      if text[0] == '\n' {
        assert Split(text) == [""] + rest;
      } else if begins {
        VisibleStays(text[0]);
      }
    }
  }

  /** Every event whose name is empty or stands between visible characters, and whose lines are empty or start
      with one, is returned by repeated calls as it was written, and then the stream is found closed. */
  lemma VisibleRoundTrip<V>(parse: string -> Option<V>, chunks: seq<Chunk>)
    requires forall i | 0 <= i < |chunks| ::
               var c := chunks[i];
               && (c.Message? ==>
                     && (c.name == "" || (33 <= c.name[0] as int <= 126 && 33 <= c.name[|c.name| - 1] as int <= 126))
                     && '\r' !in c.name && '\n' !in c.name && VisibleText(c.text, true) && parse(c.text).Some?)
               && (c.Comment? ==> '\r' !in c.text && '\n' !in c.text)
    ensures forall i | 0 <= i < |chunks| :: Writable(parse, chunks[i])
    ensures PullAll(parse, EncodeAll(chunks)) == (Written(parse, chunks), Closed)
  {
    hide PullAll, EncodeAll, Written, Split;
    forall i | 0 <= i < |chunks| ensures Writable(parse, chunks[i]) && Pullable(chunks[i]) {
      if chunks[i].Message? {
        VisibleSplit(chunks[i].text, true);
        if chunks[i].name != "" {
          VisibleStays(chunks[i].name[0]);
          VisibleStays(chunks[i].name[|chunks[i].name| - 1]);
        }
      }
    }
    PullRoundTrip(parse, chunks);
  }

  // ---------- lines that are values ----------

  /** Without the event framing every line is a value: the push reader delivers them in order and stops at the
      first that is not text or does not parse. */
  lemma {:induction false} ValueLines<V>(parse: string -> Option<V>, lines: seq<Raw>, k: nat, name: string,
                                         data: seq<string>)
    requires k <= |lines|
    requires forall i | 0 <= i < k :: lines[i].Line? && parse(Chomp(lines[i].text)).Some?
    requires k < |lines| ==> lines[k].NotText? || parse(Chomp(lines[k].text)).None?
    ensures var items := Pushed(parse, false, lines, name, data);
            && |items| >= k && items[k..] == (if k == |lines| then [End] else [Stopped, End])
            && forall i | 0 <= i < k :: items[i] == Got(Plain(parse(Chomp(lines[i].text)).value))
    decreases k
  {
    hide Chomp, Pushed, Join, PushField;
    if lines == [] {
      PushedEnd(parse, false, lines, name, data);
    } else {
      PushedLine(parse, false, lines, name, data);
      if k > 0 {
        ValueLines(parse, lines[1..], k - 1, name, data);
        var items, rest := Pushed(parse, false, lines, name, data), Pushed(parse, false, lines[1..], name, data);
        assert items[k..] == rest[k - 1..];
        forall i | 0 <= i < k ensures items[i] == Got(Plain(parse(Chomp(lines[i].text)).value)) {
          if i > 0 { assert items[i] == rest[i - 1] && lines[i] == lines[1..][i - 1]; }
        }
      }
    }
  }
}
