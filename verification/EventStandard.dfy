/** The readers against section 9.2.6 of the WHATWG HTML Standard: its own reading of lines, of line
    endings and of blocks, and the streams on which the readers report what it prescribes. */
module EventStandard {
  import opened Outcomes
  import opened EventStream

  // ---------- lines ----------

  function FirstColon(line: string): (i: nat)
    ensures i <= |line| && ':' !in line[..i] && (i < |line| ==> line[i] == ':')
  {
    if line == "" || line[0] == ':' then 0
    else
      var i := 1 + FirstColon(line[1..]);
      assert line[..i] == [line[0]] + line[1..][..i - 1];
      i
  }

  function AfterSpace(value: string): string {
    if value != "" && value[0] == ' ' then value[1..] else value
  }

  /** The field before the first colon and the value behind it, less one space; a line without a
      colon is a field with an empty value. */
  function StandardField(line: string): Field {
    if line == "" then Blank
    else
      var colon := FirstColon(line);
      var value := if colon == |line| then "" else AfterSpace(line[colon + 1..]);
      if line[..colon] == "event" then Name(value)
      else if line[..colon] == "data" then Data(value)
      else Ignored
  }

  /** An event or data field has a colon and a space. */
  predicate Spaced(line: string) {
    && line != "event" && ("event:" <= line ==> "event: " <= line)
    && line != "data" && ("data:" <= line ==> "data: " <= line)
  }

  lemma ColonIs(line: string, n: nat)
    requires n < |line| && line[n] == ':' && ':' !in line[..n]
    ensures FirstColon(line) == n
  {
    assert forall k | 0 <= k < n :: line[k] == line[..n][k];
    var i := FirstColon(line);
    assert forall k | 0 <= k < i :: line[k] == line[..i][k];
  }

  lemma ColonAfter(line: string, field: string)
    requires ':' !in field
    ensures field + ":" <= line ==> FirstColon(line) == |field| && line[..|field|] == field
    ensures line[..FirstColon(line)] == field ==> line == field || field + ":" <= line
  {
    var i := FirstColon(line);
    if field + ":" <= line {
      assert line[..|field| + 1] == field + ":";
      assert line[|field|] == ':' && line[..|field|] == field;
      ColonIs(line, |field|);
    }
    if line[..i] == field {
      if i < |line| {
        assert line[..i + 1] == line[..i] + [line[i]];
      } else {
        assert line[..i] == line;
      }
    }
  }

  lemma SpaceAfter(line: string, field: string)
    requires field + ":" <= line
    ensures field + ": " <= line <==> |line| > |field| + 1 && line[|field| + 1] == ' '
  {
    var start := field + ":";
    assert field + ": " == start + " ";
    if |line| > |start| {
      assert line[..|start| + 1] == start + [line[|start|]];
    }
  }

  /** The reader takes from a line what the standard takes exactly when the line is spaced. */
  lemma FieldsStandard(line: string)
    ensures PushField(line) == StandardField(line) <==> Spaced(line)
  {
    hide FirstColon;
    var event, data := "event", "data";
    assert event + ":" == "event:" && event + ": " == "event: " && data + ":" == "data:" && data + ": " == "data: ";
    ColonAfter(line, event);
    ColonAfter(line, data);
    Prefixes(line);
    if "event:" <= line {
      SpaceAfter(line, event);
      if "event: " <= line { assert line[6..][1..] == line[7..]; }
    } else if "data:" <= line {
      SpaceAfter(line, data);
      if "data: " <= line { assert line[5..][1..] == line[6..]; }
    } else if line == event {
      assert line[..FirstColon(line)] == event;
    }
  }

  /** No white space around a name or ahead of data but the one space the standard drops. */
  predicate Tidy(line: string) {
    && line != "event" && ("event:" <= line ==> NoSpaceAround(AfterSpace(line[6..])))
    && line != "data" && ("data:" <= line ==> NoSpaceAhead(AfterSpace(line[5..])))
  }

  lemma {:induction false} TrimAfterSpace(value: string)
    ensures TrimLeft(value) == AfterSpace(value) <==> NoSpaceAhead(AfterSpace(value))
    ensures Trim(value) == AfterSpace(value) <==> NoSpaceAround(AfterSpace(value))
  {
    var rest := AfterSpace(value);
    assert TrimLeft(value) == TrimLeft(rest);
    TrimLeftShort(rest);
    TrimRightShort(TrimLeft(rest));
  }

  /** The pull reader takes from a line what the standard takes exactly when the line is tidy. */
  lemma PullFieldsStandard(line: string)
    ensures PullField(line) == StandardField(line) <==> Tidy(line)
  {
    hide FirstColon, AfterSpace, Trim, TrimLeft, NoSpaceAhead, NoSpaceAround;
    var event, data := "event", "data";
    assert event + ":" == "event:" && data + ":" == "data:";
    ColonAfter(line, event);
    ColonAfter(line, data);
    Prefixes(line);
    if "event:" <= line {
      TrimAfterSpace(line[6..]);
    } else if "data:" <= line {
      TrimAfterSpace(line[5..]);
    } else if line == event {
      assert line[..FirstColon(line)] == event;
    }
  }

  // ---------- line endings ----------

  predicate IsEnd(c: char) { c == '\r' || c == '\n' }

  function EndAt(text: string): (i: nat)
    ensures i <= |text| && (i < |text| ==> IsEnd(text[i]))
    ensures forall k | 0 <= k < i :: !IsEnd(text[k])
  {
    if text == "" || IsEnd(text[0]) then 0
    else
      var i := 1 + EndAt(text[1..]);
      assert forall k | 1 <= k < i :: text[k] == text[1..][k - 1];
      i
  }

  /** Where the next line starts: a line ends with CR LF, LF or CR. */
  function NextLine(text: string): (i: nat)
    requires text != ""
    ensures 0 < i <= |text|
  {
    var e := EndAt(text);
    if e == |text| then e
    else if text[e] == '\r' && e + 1 < |text| && text[e + 1] == '\n' then e + 2
    else e + 1
  }

  function SplitLines(text: string): seq<string> {
    if text == "" then [] else [text[..EndAt(text)]] + SplitLines(text[NextLine(text)..])
  }

  /** What iterating over a connection yields: lines up to and including their LF, the last one
      possibly without. */
  ghost predicate Iterated(stream: seq<string>) {
    && (forall i | 0 <= i < |stream| :: stream[i] != "" && '\n' !in stream[i][..|stream[i]| - 1])
    && (forall i | 0 <= i < |stream| - 1 :: stream[i][|stream[i]| - 1] == '\n')
  }

  function Whole(stream: seq<string>): string {
    if stream == [] then "" else stream[0] + Whole(stream[1..])
  }

  function Chomped(stream: seq<string>): seq<string> {
    if stream == [] then [] else [Chomp(stream[0])] + Chomped(stream[1..])
  }

  /** One line ending at most, and none inside the line. */
  predicate OneEnding(raw: string) {
    OneLine(Chomp(raw)) && raw[|Chomp(raw)|..] in {"", "\n", "\r\n", "\r"}
  }

  lemma {:induction false} ChompFront(s: string, n: nat)
    requires n <= |s| && (n > 0 ==> !IsEnd(s[n - 1])) && forall i | n <= i < |s| :: IsEnd(s[i])
    ensures Chomp(s) == s[..n]
    decreases |s|
  {
    if |s| > n {
      ChompFront(s[..|s| - 1], n);
      assert s[..|s| - 1][..n] == s[..n];
    } else {
      assert s[..n] == s;
    }
  }

  /** The standard sees one line in a raw line exactly when that has one ending, and then the reader's. */
  lemma RawLine(raw: string)
    requires raw != "" && '\n' !in raw[..|raw| - 1]
    ensures |SplitLines(raw)| >= 1
    ensures |SplitLines(raw)| == 1 <==> OneEnding(raw)
    ensures OneEnding(raw) ==> SplitLines(raw) == [Chomp(raw)]
  {
    var e, next := EndAt(raw), NextLine(raw);
    assert forall k | 0 <= k < |raw| - 1 :: raw[..|raw| - 1][k] == raw[k];
    if next == |raw| {
      assert SplitLines(raw[next..]) == [];
      ChompFront(raw, e);
      OneLineFront(raw, e);
      Endings(raw, e);
    } else {
      assert raw[e] == '\r' && next == e + 1;
      assert |SplitLines(raw[next..])| >= 1;
      if OneEnding(raw) { OneThen(raw, e); }
    }
  }

  lemma OneLineFront(raw: string, e: nat)
    requires e <= |raw| && forall k | 0 <= k < e :: !IsEnd(raw[k])
    ensures OneLine(raw[..e])
  {}

  lemma Endings(raw: string, e: nat)
    requires e == EndAt(raw) && raw != "" && NextLine(raw) == |raw|
    ensures raw[e..] in {"", "\n", "\r\n", "\r"}
  {
    hide EndAt;
    if e == |raw| {
      assert raw[e..] == "";
    } else if e + 1 == |raw| {
      assert raw[e..] == [raw[e]];
      assert ['\r'] == "\r" && ['\n'] == "\n";
    } else {
      assert raw[e..] == [raw[e], raw[e + 1]];
      assert ['\r', '\n'] == "\r\n";
    }
  }

  /** Where there is one ending, nothing but an LF stands behind its CR. */
  lemma OneThen(raw: string, e: nat)
    requires e < |raw| && raw[e] == '\r' && OneEnding(raw)
    ensures e + 1 == |raw| || raw[e + 1] == '\n'
  {
    hide Chomp;
    var n := |Chomp(raw)|;
    var rest := raw[n..];
    assert forall k | 0 <= k < n :: Chomp(raw)[k] == raw[k] && raw[k] in Chomp(raw);
    assert forall k | n <= k < |raw| :: rest[k - n] == raw[k];
    assert rest[e - n] == '\r';
  }

  lemma SplitStep(text: string)
    requires text != ""
    ensures SplitLines(text) == [text[..EndAt(text)]] + SplitLines(text[NextLine(text)..])
  {
    hide EndAt, NextLine;
  }

  /** Behind an LF a new line starts. */
  lemma {:induction false} SplitAfter(a: string, b: string)
    requires a != "" && a[|a| - 1] == '\n'
    ensures SplitLines(a + b) == SplitLines(a) + SplitLines(b)
    decreases |a|
  {
    hide SplitLines, EndAt, NextLine;
    var e, next := EndAt(a), NextLine(a);
    SameEnd(a, b);
    SplitStep(a);
    SplitStep(a + b);
    assert (a + b)[..e] == a[..e] && (a + b)[next..] == a[next..] + b;
    if next == |a| {
      NoLines();
      assert a[next..] == "" && "" + b == b;
    } else {
      SplitAfter(a[next..], b);
    }
  }

  lemma SameEnd(a: string, b: string)
    requires a != "" && a[|a| - 1] == '\n'
    ensures EndAt(a + b) == EndAt(a) && NextLine(a + b) == NextLine(a)
  {
    var i, j := EndAt(a), EndAt(a + b);
    assert IsEnd(a[|a| - 1]) && i < |a|;
    assert forall k | 0 <= k < |a| :: (a + b)[k] == a[k];
  }

  /** The reader's lines are the standard's exactly when every raw line has one ending. */
  lemma {:induction false} LinesStandard(stream: seq<string>)
    requires Iterated(stream)
    ensures |SplitLines(Whole(stream))| >= |stream|
    ensures SplitLines(Whole(stream)) == Chomped(stream) <==> forall i | 0 <= i < |stream| :: OneEnding(stream[i])
    ensures |SplitLines(Whole(stream))| == |stream| ==> forall i | 0 <= i < |stream| :: OneEnding(stream[i])
  {
    hide SplitLines, OneEnding, Chomp;
    if stream == [] {
      NoLines();
    } else {
      var raw, rest := stream[0], stream[1..];
      LinesStandard(rest);
      RawLine(raw);
      if rest != [] {
        SplitAfter(raw, Whole(rest));
      } else {
        NoLines();
        assert Whole(stream) == raw + "" == raw;
      }
      assert SplitLines(Whole(stream)) == SplitLines(raw) + SplitLines(Whole(rest));
      ChompedLength(rest);
      assert stream == [raw] + rest;
    }
  }

  lemma NoLines()
    ensures SplitLines("") == []
  {}

  lemma {:induction false} ChompedLength(stream: seq<string>)
    ensures |Chomped(stream)| == |stream|
    ensures forall i | 0 <= i < |stream| :: Chomped(stream)[i] == Chomp(stream[i])
  {
    hide Chomp;
    if stream != [] { ChompedLength(stream[1..]); }
  }

  // ---------- blocks ----------

  /** The standard's interpretation of the lines: a blank line without data forgets the event name.
      The client parses the data of every event and stops at data it cannot parse. */
  ghost function Standard<V>(parse: string -> Option<V>, lines: seq<string>, name: string,
                             data: seq<string>): seq<Item<V>> {
    if lines == [] then [End]
    else match StandardField(lines[0])
      case Name(s) => Standard(parse, lines[1..], s, data)
      case Data(s) => Standard(parse, lines[1..], name, data + [s])
      case Ignored => Standard(parse, lines[1..], name, data)
      case Blank =>
        if data == [] then Standard(parse, lines[1..], "", []) else
        var v := parse(Join(data));
        if v.None? then [Stopped, End] else [Got(Named(name, v.value))] + Standard(parse, lines[1..], "", [])
  }

  const BYTE_ORDER_MARK := 0xfeff as char

  /** A whole stream: one leading byte order mark is no part of it. */
  ghost function StandardStream<V>(parse: string -> Option<V>, text: string): seq<Item<V>> {
    Standard(parse, SplitLines(if text != "" && text[0] == BYTE_ORDER_MARK then text[1..] else text), "", [])
  }

  /** An event with data but no name of its own follows a named block without data; `kept` says that
      the name read last belongs to such a block. */
  ghost predicate KeepsName<V>(parse: string -> Option<V>, lines: seq<string>, kept: bool, named: bool,
                               data: seq<string>) {
    if lines == [] then false
    else match StandardField(lines[0])
      case Name(s) => KeepsName(parse, lines[1..], false, s != "", data)
      case Data(s) => KeepsName(parse, lines[1..], kept, named, data + [s])
      case Ignored => KeepsName(parse, lines[1..], kept, named, data)
      case Blank =>
        if data == [] then KeepsName(parse, lines[1..], kept || named, named, data)
        else if parse(Join(data)).None? then false
        else kept || KeepsName(parse, lines[1..], false, false, [])
  }

  function Texts(stream: seq<string>): seq<Raw> {
    seq(|stream|, i requires 0 <= i < |stream| => Line(stream[i]))
  }

  /** What both readers report once their lines are read: a blank line without data keeps the name. */
  ghost function Reported<V>(parse: string -> Option<V>, fields: seq<Field>, name: string,
                             data: seq<string>): seq<Item<V>> {
    if fields == [] then [End]
    else match fields[0]
      case Name(s) => Reported(parse, fields[1..], s, data)
      case Data(s) => Reported(parse, fields[1..], name, data + [s])
      case Ignored => Reported(parse, fields[1..], name, data)
      case Blank =>
        if data == [] then Reported(parse, fields[1..], name, data) else
        var v := parse(Join(data));
        if v.None? then [Stopped, End] else [Got(Named(name, v.value))] + Reported(parse, fields[1..], "", [])
  }

  function PushFields(lines: seq<string>): seq<Field> {
    seq(|lines|, i requires 0 <= i < |lines| => PushField(lines[i]))
  }

  function PullFields(lines: seq<string>): seq<Field> {
    seq(|lines|, i requires 0 <= i < |lines| => PullField(lines[i]))
  }

  lemma {:induction false} PushedReported<V>(parse: string -> Option<V>, stream: seq<string>, name: string,
                                             data: seq<string>)
    ensures Pushed(parse, true, Texts(stream), name, data) == Reported(parse, PushFields(Chomped(stream)), name, data)
    decreases |stream|
  {
    hide PushField, Chomp, Join;
    if stream != [] {
      var rest := stream[1..];
      assert Texts(stream)[1..] == Texts(rest) && Chomped(stream)[1..] == Chomped(rest);
      assert PushFields(Chomped(stream))[1..] == PushFields(Chomped(rest));
      match PushField(Chomp(stream[0]))
      case Name(s) => PushedReported(parse, rest, s, data);
      case Data(s) => PushedReported(parse, rest, name, data + [s]);
      case Ignored => PushedReported(parse, rest, name, data);
      case Blank => PushedReported(parse, rest, if data == [] then name else "", []);
    }
  }

  /** One call of the pull reader reports the next event and leaves the rest of the lines. */
  lemma {:induction false} PulledNext<V>(parse: string -> Option<V>, stream: seq<string>, name: string,
                                         data: seq<string>)
    returns (rest: seq<string>)
    ensures var p := Pulled(parse, Texts(stream), name, data);
            && p.rest == Texts(rest) && |rest| <= |stream| && p.r != Failure(Undecodable)
            && (p.r.Success? ==> |rest| < |stream|)
            && Reported(parse, PullFields(Chomped(stream)), name, data) ==
               match p.r
               case Success(e) => [Got(Named(e.0, e.1))] + Reported(parse, PullFields(Chomped(rest)), "", [])
               case Failure(error) => if error == Closed then [End] else [Stopped, End]
    decreases |stream|
  {
    hide PullField, Chomp, Join;
    rest := stream;
    if stream != [] {
      var more := stream[1..];
      assert Texts(stream)[1..] == Texts(more) && Chomped(stream)[1..] == Chomped(more);
      assert PullFields(Chomped(stream))[1..] == PullFields(Chomped(more));
      rest := more;
      match PullField(Chomp(stream[0]))
      case Name(s) => rest := PulledNext(parse, more, s, data);
      case Data(s) => rest := PulledNext(parse, more, name, data + [s]);
      case Ignored => rest := PulledNext(parse, more, name, data);
      case Blank => if data == [] { rest := PulledNext(parse, more, name, data); }
    }
  }

  lemma {:induction false} PullsReported<V>(parse: string -> Option<V>, stream: seq<string>)
    ensures var (events, error) := PullAll(parse, Texts(stream));
            Recorded(events, error) == Reported(parse, PullFields(Chomped(stream)), "", [])
    decreases |stream|
  {
    hide Pulled, Reported, Recorded, PullFields, Chomped;
    var rest := PulledNext(parse, stream, "", []);
    var p := Pulled(parse, Texts(stream), "", []);
    if p.r.Success? {
      PullsReported(parse, rest);
      RecordedFirst(Named(p.r.value.0, p.r.value.1), PullAll(parse, Texts(rest)).0, PullAll(parse, Texts(rest)).1);
    } else {
      RecordedNone<V>(p.r.error);
    }
  }

  /** From any point of lines read like the standard's: the same items exactly when no event takes over
      the name of a block without data. */
  lemma {:induction false} SameUnlessKept<V>(parse: string -> Option<V>, fields: seq<Field>, lines: seq<string>,
                                             name: string, kept: bool, data: seq<string>)
    requires |fields| == |lines| && (kept ==> name != "")
    requires forall i | 0 <= i < |lines| :: fields[i] == StandardField(lines[i])
    ensures Reported(parse, fields, name, data) == Standard(parse, lines, if kept then "" else name, data)
            <==> !KeepsName(parse, lines, kept, name != "", data)
    decreases |lines|
  {
    hide StandardField, Join;
    if lines != [] {
      match StandardField(lines[0])
      case Name(s) => SameUnlessKept(parse, fields[1..], lines[1..], s, false, data);
      case Data(s) => SameUnlessKept(parse, fields[1..], lines[1..], name, kept, data + [s]);
      case Ignored => SameUnlessKept(parse, fields[1..], lines[1..], name, kept, data);
      case Blank =>
        if data == [] {
          SameUnlessKept(parse, fields[1..], lines[1..], name, name != "", data);
        } else if parse(Join(data)).Some? {
          SameUnlessKept(parse, fields[1..], lines[1..], "", false, []);
          var a, b := Reported(parse, fields[1..], "", []), Standard(parse, lines[1..], "", []);
          var v := parse(Join(data)).value;
          assert ([Got(Named(name, v))] + a)[1..] == a && ([Got(Named(name, v))] + b)[1..] == b;
        }
    }
  }

  // ---------- whole streams ----------

  /** A stream as a connection yields it, without byte order mark, whose lines have one ending each. */
  ghost predicate Plain(stream: seq<string>) {
    && Iterated(stream)
    && (stream != [] ==> stream[0] != "" && stream[0][0] != BYTE_ORDER_MARK)
    && forall i | 0 <= i < |stream| :: OneEnding(stream[i])
  }

  lemma PlainLines(stream: seq<string>)
    requires Plain(stream)
    ensures var text := Whole(stream);
            SplitLines(if text != "" && text[0] == BYTE_ORDER_MARK then text[1..] else text) == Chomped(stream)
    ensures SplitLines(Whole(stream)) == Chomped(stream)
  {
    hide SplitLines, OneEnding, Chomp;
    LinesStandard(stream);
    assert Whole(stream) != "" ==> Whole(stream)[0] == stream[0][0];
  }

  /** On a plain stream of spaced lines the push reader reports what the standard prescribes if and
      only if no event without a name of its own follows a named block without data. */
  lemma StandardUnlessKept<V>(parse: string -> Option<V>, stream: seq<string>)
    requires Plain(stream) && forall i | 0 <= i < |stream| :: Spaced(Chomp(stream[i]))
    ensures Pushed(parse, true, Texts(stream), "", []) == StandardStream(parse, Whole(stream))
            <==> !KeepsName(parse, SplitLines(Whole(stream)), false, false, [])
  {
    hide Pushed, Standard, KeepsName, SplitLines, Spaced, Chomp, Plain, Whole, Reported;
    PlainLines(stream);
    ChompedLength(stream);
    var lines := Chomped(stream);
    forall i | 0 <= i < |lines| ensures PushFields(lines)[i] == StandardField(lines[i]) { FieldsStandard(lines[i]); }
    PushedReported(parse, stream, "", []);
    SameUnlessKept(parse, PushFields(lines), lines, "", false, []);
  }

  /** The same for repeated calls of the pull reader, on plain streams of tidy lines. */
  lemma PullStandardUnlessKept<V>(parse: string -> Option<V>, stream: seq<string>)
    requires Plain(stream) && forall i | 0 <= i < |stream| :: Tidy(Chomp(stream[i]))
    ensures var (events, error) := PullAll(parse, Texts(stream));
            Recorded(events, error) == StandardStream(parse, Whole(stream))
            <==> !KeepsName(parse, SplitLines(Whole(stream)), false, false, [])
  {
    hide PullAll, Recorded, Standard, KeepsName, SplitLines, Tidy, Chomp, Plain, Whole, Reported;
    PlainLines(stream);
    ChompedLength(stream);
    var lines := Chomped(stream);
    forall i | 0 <= i < |lines| ensures PullFields(lines)[i] == StandardField(lines[i]) {
      PullFieldsStandard(lines[i]);
    }
    PullsReported(parse, stream);
    SameUnlessKept(parse, PullFields(lines), lines, "", false, []);
  }

  // ---------- two streams the readers read differently ----------

  function Ended(lines: seq<string>): seq<string> {
    seq(|lines|, i requires 0 <= i < |lines| => lines[i] + "\n")
  }

  /** Lines written with an LF each are the lines the standard sees. */
  lemma LinesOfEnded(lines: seq<string>)
    requires forall i | 0 <= i < |lines| :: OneLine(lines[i])
    ensures Iterated(Ended(lines)) && SplitLines(Whole(Ended(lines))) == lines
  {
    hide SplitLines, Whole, Chomp;
    var stream := Ended(lines);
    forall i | 0 <= i < |lines|
      ensures OneEnding(stream[i]) && Chomp(stream[i]) == lines[i] && '\n' !in stream[i][..|stream[i]| - 1]
    {
      ChompLine(lines[i]);
      assert stream[i][..|lines[i]|] == lines[i] && stream[i][|lines[i]|..] == "\n";
    }
    LinesStandard(stream);
    ChompedLength(stream);
    assert Chomped(stream) == lines;
  }

  lemma StandardOf<V>(parse: string -> Option<V>, lines: seq<string>)
    requires forall i | 0 <= i < |lines| :: OneLine(lines[i])
    requires lines != [] && lines[0] != "" && lines[0][0] != BYTE_ORDER_MARK
    ensures StandardStream(parse, Whole(Ended(lines))) == Standard(parse, lines, "", [])
  {
    hide SplitLines, Standard;
    LinesOfEnded(lines);
    assert Whole(Ended(lines))[0] == lines[0][0];
  }

  lemma ValuesOne<V>(e: Event<V>)
    ensures Values([Got(e)] + [End]) == [e]
  {
    assert ([Got(e)] + [End])[1..] == [End];
    assert Values<V>([End]) == [];
  }

  lemma StandardFields()
    ensures StandardField("event: a") == Name("a") && StandardField("data: 1") == Data("1")
    ensures StandardField("data:1") == Data("1") && PushField("data:1") == Ignored
    ensures StandardField("") == Blank && PushField("") == Blank
  {
    hide FirstColon;
    ColonAfter("event: a", "event"); ColonAfter("data: 1", "data"); ColonAfter("data:1", "data");
    assert "event" + ":" == "event:" && "data" + ":" == "data:";
    assert "data: 1"[5..] == " 1" && " 1"[1..] == "1" && "data:1"[5..] == "1";
    assert "event: a"[6..] == " a" && " a"[1..] == "a";
    assert "data:1"[5] == '1' && "data: "[5] == ' ' && "data:1"[0] != "event: "[0];
  }

  /** One data line and a blank line, from a state with a name. */
  lemma OneEvent(parse: string -> Option<string>, line: string, name: string, s: string)
    requires StandardField(line) == Data(s) && parse(s).Some?
    ensures Standard(parse, [line, ""], name, []) == [Got(Named(name, parse(s).value))] + [End]
  {
    hide StandardField;
    StandardFields();
    assert [line, ""][1..] == [""] && [""][1..] == [];
    assert [] + [s] == [s] && Join([s]) == s;
    assert Standard(parse, [""], name, [s]) == [Got(Named(name, parse(s).value))] + [End];
  }

  const KEPT := ["event: a", "", "data: 1", ""]

  /** A name, a blank line, then data: the reader names the event, the standard does not. */
  lemma KeptNameExample()
    ensures var parse := (text: string) => Some(text);
            && Values(Pushed(parse, true, Texts(Ended(KEPT)), "", [])) == [Named("a", "1")]
            && Values(StandardStream(parse, Whole(Ended(KEPT)))) == [Named("", "1")]
  {
    hide Pushed, Standard, StandardStream, Values, Whole, Texts, Ended;
    var parse := (text: string) => Some(text);
    Keeps(parse);
    KeptStandard(parse);
    ValuesOne(Named("a", "1"));
    ValuesOne(Named("", "1"));
  }

  lemma Keeps(parse: string -> Option<string>)
    requires parse("1") == Some("1")
    ensures Pushed(parse, true, Texts(Ended(KEPT)), "", []) == [Got(Named("a", "1"))] + [End]
  {
    hide Pushed, Chomp, StandardField, PushField;
    var s0 := Texts(Ended(KEPT));
    var s1, s2, s3 := s0[1..], s0[2..], s0[3..];
    assert s1[1..] == s2 && s2[1..] == s3 && s3[1..] == [];
    assert "event: " + "a" == "event: a" && "data: " + "1" == "data: 1";
    ChompLine("event: a"); ChompLine(""); ChompLine("data: 1");
    FieldOf("event: ", "a"); FieldOf("data: ", "1"); StandardFields();
    PushedLine(parse, true, s0, "", []); PushedLine(parse, true, s1, "a", []);
    PushedLine(parse, true, s2, "a", []); PushedLine(parse, true, s3, "a", [] + ["1"]);
    PushedEnd(parse, true, s3[1..], "", []);
    assert Join(["1"]) == "1" && [] + ["1"] == ["1"];
  }

  lemma KeptStandard(parse: string -> Option<string>)
    requires parse("1") == Some("1")
    ensures StandardStream(parse, Whole(Ended(KEPT))) == [Got(Named("", "1"))] + [End]
  {
    hide Standard, StandardStream, Whole, Ended;
    assert KEPT[0][0] == 'e';
    forall i | 0 <= i < |KEPT| ensures OneLine(KEPT[i]) {
      assert KEPT[i] in {"event: a", "", "data: 1"};
    }
    StandardOf(parse, KEPT);
    Forgets(parse);
  }

  lemma Forgets(parse: string -> Option<string>)
    requires parse("1") == Some("1")
    ensures Standard(parse, KEPT, "", []) == [Got(Named("", "1"))] + [End]
  {
    hide StandardField;
    StandardFields();
    assert KEPT[1..] == ["", "data: 1", ""] && KEPT[1..][1..] == ["data: 1", ""];
    OneEvent(parse, "data: 1", "", "1");
    assert Standard(parse, KEPT[1..], "a", []) == Standard(parse, ["data: 1", ""], "", []);
  }

  const UNSPACED := ["data:1", ""]

  /** Without the space no name is kept, yet the standard has an event and the reader none. */
  lemma UnspacedExample()
    ensures var parse := (text: string) => Some(text);
            && Pushed(parse, true, Texts(Ended(UNSPACED)), "", []) == [End]
            && StandardStream(parse, Whole(Ended(UNSPACED))) == [Got(Named("", "1"))] + [End]
            && !KeepsName(parse, UNSPACED, false, false, [])
  {
    hide Pushed, Standard, StandardStream, Chomp, StandardField, PushField, Whole;
    var parse := (text: string) => Some(text);
    var s0 := Texts(Ended(UNSPACED));
    var s1 := s0[1..];
    assert s1[1..] == [];
    ChompLine("data:1"); ChompLine("");
    StandardFields();
    PushedLine(parse, true, s0, "", []); PushedLine(parse, true, s1, "", []);
    PushedEnd(parse, true, s1[1..], "", []);
    StandardOf(parse, UNSPACED);
    OneEvent(parse, "data:1", "", "1");
    assert UNSPACED[1..] == [""] && [""][1..] == [];
    assert [] + ["1"] == ["1"] && Join(["1"]) == "1";
    assert !KeepsName(parse, [""], false, false, ["1"]);
  }
}
