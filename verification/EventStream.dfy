/** The two event-stream readers of the process tests: the thread of scripts/test-mesh-notifications.py
    that pushes events into a queue, and `next_event` of scripts/test-user-interactions.py, which is
    called for each event. */
module EventStream {
  import opened Outcomes

  // ---------- characters and lines ----------

  /** The characters Python's `strip` removes. */
  predicate IsSpace(c: char) {
    var n := c as int;
    9 <= n <= 13 || 28 <= n <= 32 || n == 0x85 || n == 0xa0 || n == 0x1680 || 0x2000 <= n <= 0x200a
    || n in {0x2028, 0x2029, 0x202f, 0x205f, 0x3000}
  }

  function TrimLeft(s: string): string {
    if s != "" && IsSpace(s[0]) then TrimLeft(s[1..]) else s
  }

  function TrimRight(s: string): string {
    if s != "" && IsSpace(s[|s| - 1]) then TrimRight(s[..|s| - 1]) else s
  }

  function Trim(s: string): string { TrimRight(TrimLeft(s)) }

  /** `rstrip('\r\n')` */
  function Chomp(s: string): (r: string)
    ensures r <= s
  {
    if s != "" && s[|s| - 1] in {'\r', '\n'} then Chomp(s[..|s| - 1]) else s
  }

  function Join(lines: seq<string>): string
    requires lines != []
  {
    if |lines| == 1 then lines[0] else lines[0] + "\n" + Join(lines[1..])
  }

  /** A line as it comes from the connection, or bytes that are not UTF-8. */
  datatype Raw = Line(text: string) | NotText

  /** What a line contributes. */
  datatype Field = Name(s: string) | Data(s: string) | Blank | Ignored

  /** The push reader's reading of a line. */
  function PushField(line: string): Field {
    if "event: " <= line then Name(line[7..])
    else if "data: " <= line then Data(line[6..])
    else if line == "" then Blank
    else Ignored
  }

  /** The pull reader's. */
  function PullField(line: string): Field {
    if line == "" then Blank
    else if "event:" <= line then Name(Trim(line[6..]))
    else if "data:" <= line then Data(TrimLeft(line[5..]))
    else Ignored
  }

  // ---------- the push reader ----------

  datatype Event<V> = Named(name: string, v: V) | Plain(v: V)

  /** What the queue receives; `Stopped` stands for the exception that ended the thread. */
  datatype Item<V> = Got(e: Event<V>) | Stopped | End

  /** The items for the rest of a stream, given the name and the data lines read so far. */
  function Pushed<V>(parse: string -> Option<V>, sse: bool, lines: seq<Raw>, name: string,
                     data: seq<string>): seq<Item<V>> {
    if lines == [] then [End]
    else if lines[0].NotText? then [Stopped, End]
    else
      var line := Chomp(lines[0].text);
      if !sse then
        var v := parse(line);
        if v.None? then [Stopped, End] else [Got(Plain(v.value))] + Pushed(parse, sse, lines[1..], name, data)
      else match PushField(line)
        case Name(s) => Pushed(parse, sse, lines[1..], s, data)
        case Data(s) => Pushed(parse, sse, lines[1..], name, data + [s])
        case Ignored => Pushed(parse, sse, lines[1..], name, data)
        case Blank =>
          if data == [] then Pushed(parse, sse, lines[1..], name, data) else
          var v := parse(Join(data));
          if v.None? then [Stopped, End]
          else [Got(Named(name, v.value))] + Pushed(parse, sse, lines[1..], "", [])
  }

  function Values<V>(items: seq<Item<V>>): seq<Event<V>> {
    if items == [] then []
    else if items[0].Got? then [items[0].e] + Values(items[1..])
    else Values(items[1..])
  }

  class Events<V> {
    var values: seq<Event<V>>
    var queue: seq<Item<V>>

    constructor ()
      ensures values == [] && queue == []
    {
      values, queue := [], [];
    }

    /** `values.append(value)` and `queue.put(value)` */
    method Put(e: Event<V>)
      modifies this
      ensures values == old(values) + [e] && queue == old(queue) + [Got(e)]
    {
      values := values + [e];
      queue := queue + [Got(e)];
    }

    method Read(parse: string -> Option<V>, stream: seq<Raw>, sse: bool)
      modifies this
      ensures queue == old(queue) + Pushed(parse, sse, stream, "", [])
      ensures values == old(values) + Values(Pushed(parse, sse, stream, "", []))
    {
      hide Pushed, Chomp, Join, Values;
      var name, data: seq<string>, failed := "", [], false;
      ghost var done: seq<Item<V>> := [];
      NoValues<V>();
      for i := 0 to |stream|
        invariant done + Pushed(parse, sse, stream[i..], name, data) == Pushed(parse, sse, stream, "", [])
        invariant !failed && queue == old(queue) + done && values == old(values) + Values(done)
      {
        PushedLine(parse, sse, stream[i..], name, data);
        assert stream[i..][1..] == stream[i + 1..] && stream[i..][0] == stream[i];
        if stream[i].NotText? {
          failed := true;
          break;
        }
        var line := Chomp(stream[i].text);
        if !sse {
          var v := parse(line);
          if v.None? {
            failed := true;
            break;
          }
          Put(Plain(v.value));
          GotOne(done, Plain(v.value), Pushed(parse, sse, stream[i + 1..], name, data));
          done := done + [Got(Plain(v.value))];
        } else if "event: " <= line {
          name := line[7..];
        } else if "data: " <= line {
          data := data + [line[6..]];
        } else if line == "" && data != [] {
          var v := parse(Join(data));
          if v.None? {
            failed := true;
            break;
          }
          Put(Named(name, v.value));
          GotOne(done, Named(name, v.value), Pushed(parse, sse, stream[i + 1..], "", []));
          done := done + [Got(Named(name, v.value))];
          name, data := "", [];
        }
      }
      PushedEnd(parse, sse, stream[|stream|..], name, data);
      ValuesEnd(done, if failed then [Stopped, End] else [End]);
      if failed {
        queue := queue + [Stopped];
      }
      queue := queue + [End];
    }
  }

  lemma NoValues<V>()
    ensures Values<V>([]) == []
  {}

  lemma GotOne<V>(done: seq<Item<V>>, e: Event<V>, rest: seq<Item<V>>)
    ensures done + ([Got(e)] + rest) == done + [Got(e)] + rest
    ensures Values(done + [Got(e)]) == Values(done) + [e]
  {
    ValuesSnoc(done, Got(e));
  }

  lemma PushedEnd<V>(parse: string -> Option<V>, sse: bool, lines: seq<Raw>, name: string, data: seq<string>)
    requires lines == []
    ensures Pushed(parse, sse, lines, name, data) == [End]
  {}

  /** The effect of the first line. */
  lemma PushedLine<V>(parse: string -> Option<V>, sse: bool, lines: seq<Raw>, name: string, data: seq<string>)
    requires lines != []
    ensures Pushed(parse, sse, lines, name, data) ==
            (if lines[0].NotText? then [Stopped, End] else
             var line := Chomp(lines[0].text);
             if !sse then
               var v := parse(line);
               if v.None? then [Stopped, End] else [Got(Plain(v.value))] + Pushed(parse, sse, lines[1..], name, data)
             else
               var f := PushField(line);
               if f.Name? then Pushed(parse, sse, lines[1..], f.s, data)
               else if f.Data? then Pushed(parse, sse, lines[1..], name, data + [f.s])
               else if f.Ignored? || data == [] then Pushed(parse, sse, lines[1..], name, data)
               else
                 var v := parse(Join(data));
                 if v.None? then [Stopped, End]
                 else [Got(Named(name, v.value))] + Pushed(parse, sse, lines[1..], "", []))
  {
    hide Chomp, Join, PushField;
  }

  lemma {:induction false} ValuesConcat<V>(a: seq<Item<V>>, b: seq<Item<V>>)
    ensures Values(a + b) == Values(a) + Values(b)
  {
    if a == [] {
      assert a + b == b;
    } else {
      assert (a + b)[1..] == a[1..] + b;
      ValuesConcat(a[1..], b);
    }
  }

  lemma ValuesSnoc<V>(a: seq<Item<V>>, item: Item<V>)
    ensures Values(a + [item]) == if item.Got? then Values(a) + [item.e] else Values(a)
  {
    ValuesConcat(a, [item]);
  }

  lemma ValuesEnd<V>(a: seq<Item<V>>, last: seq<Item<V>>)
    requires last == [Stopped, End] || last == [End]
    ensures Values(a + last) == Values(a)
  {
    ValuesConcat(a, last);
    assert last[1..] == [] || last[1..] == [End];
    assert Values<V>([End]) == [];
  }

  // ---------- the pull reader ----------

  datatype PullError = Closed | Undecodable | BadJson

  datatype Pull<V> = Pull(r: Result<(string, V), PullError>, rest: seq<Raw>)

  function Pulled<V>(parse: string -> Option<V>, lines: seq<Raw>, name: string, data: seq<string>): (p: Pull<V>)
    ensures |p.rest| <= |lines|
    ensures p.r.Success? ==> |p.rest| < |lines|
  {
    if lines == [] then Pull(Failure(Closed), [])
    else if lines[0].NotText? then Pull(Failure(Undecodable), lines[1..])
    else
      match PullField(Chomp(lines[0].text))
      case Name(s) => Pulled(parse, lines[1..], s, data)
      case Data(s) => Pulled(parse, lines[1..], name, data + [s])
      case Ignored => Pulled(parse, lines[1..], name, data)
      case Blank =>
        if data == [] then Pulled(parse, lines[1..], name, data) else
        var v := parse(Join(data));
        Pull(if v.None? then Failure(BadJson) else Success((name, v.value)), lines[1..])
  }

  class Response {
    var lines: seq<Raw>

    constructor (lines: seq<Raw>)
      ensures this.lines == lines
    {
      this.lines := lines;
    }

    method NextEvent<V>(parse: string -> Option<V>) returns (r: Result<(string, V), PullError>)
      modifies this
      ensures Pull(r, lines) == Pulled(parse, old(lines), "", [])
    {
      var name, data: seq<string> := "", [];
      while true
        invariant Pulled(parse, lines, name, data) == Pulled(parse, old(lines), "", [])
        decreases |lines|
      {
        if lines == [] {
          return Failure(Closed);
        }
        var raw := lines[0];
        lines := lines[1..];
        if raw.NotText? {
          return Failure(Undecodable);
        }
        var line := Chomp(raw.text);
        if line == "" {
          if data != [] {
            var v := parse(Join(data));
            return if v.None? then Failure(BadJson) else Success((name, v.value));
          }
        } else if "event:" <= line {
          name := Trim(line[6..]);
        } else if "data:" <= line {
          data := data + [TrimLeft(line[5..])];
        }
      }
    }
  }

  // ---------- where the two readings of a line agree ----------

  predicate NoSpaceAhead(s: string) { s == "" || !IsSpace(s[0]) }

  predicate NoSpaceAround(s: string) { NoSpaceAhead(s) && (s == "" || !IsSpace(s[|s| - 1])) }

  /** A space after the colon, then a name without white space around it or data without any ahead. */
  predicate Canonical(line: string) {
    && ("event:" <= line ==> "event: " <= line && NoSpaceAround(line[7..]))
    && ("data:" <= line ==> "data: " <= line && NoSpaceAhead(line[6..]))
  }

  lemma {:induction false} TrimLeftShort(s: string)
    ensures |TrimLeft(s)| <= |s| && (TrimLeft(s) == s <==> NoSpaceAhead(s))
    ensures |TrimLeft(s)| == |s| ==> TrimLeft(s) == s
  {
    if s != "" && IsSpace(s[0]) { TrimLeftShort(s[1..]); }
  }

  lemma {:induction false} TrimRightShort(s: string)
    ensures |TrimRight(s)| <= |s| && (TrimRight(s) == s <==> s == "" || !IsSpace(s[|s| - 1]))
  {
    if s != "" && IsSpace(s[|s| - 1]) { TrimRightShort(s[..|s| - 1]); }
  }

  /** Both readers take the same from a line exactly when the line is canonical. */
  lemma FieldsAgree(line: string)
    ensures PushField(line) == PullField(line) <==> Canonical(line)
  {
    Prefixes(line);
    if "event: " <= line {
      var x := line[7..];
      assert line[6..][1..] == x && line[6..][0] == ' ';
      assert TrimLeft(line[6..]) == TrimLeft(x);
      TrimLeftShort(x);
      TrimRightShort(TrimLeft(x));
    } else if "data: " <= line {
      var x := line[6..];
      assert line[5..][1..] == x && line[5..][0] == ' ';
      assert TrimLeft(line[5..]) == TrimLeft(x);
      TrimLeftShort(x);
    }
  }

  lemma Prefixes(line: string)
    ensures "event: " <= line ==> "event:" <= line && line[6] == ' '
    ensures "data: " <= line ==> "data:" <= line && line[5] == ' '
    ensures !("event:" <= line && "data:" <= line)
    ensures "event:" <= line ==> line != ""
    ensures "data:" <= line ==> line != ""
  {
    if "event:" <= line { assert line[0] == "event:"[0]; }
    if "data:" <= line { assert line[0] == "data:"[0]; }
    if "event: " <= line {
      assert line[..7] == "event: ";
      assert line[..6] == "event: "[..6] == "event:";
      assert line[6] == "event: "[6];
    }
    if "data: " <= line {
      assert line[..6] == "data: ";
      assert line[..5] == "data: "[..5] == "data:";
      assert line[5] == "data: "[5];
    }
  }

  // ---------- the two readers on one stream ----------

  /** Calling the pull reader until it fails: the events and the failure. */
  ghost function PullAll<V>(parse: string -> Option<V>, lines: seq<Raw>): (seq<Event<V>>, PullError)
    decreases |lines|
  {
    var p := Pulled(parse, lines, "", []);
    if p.r.Failure? then ([], p.r.error)
    else
      var (events, error) := PullAll(parse, p.rest);
      ([Named(p.r.value.0, p.r.value.1)] + events, error)
  }

  ghost predicate CanonicalStream(lines: seq<Raw>) {
    forall i | 0 <= i < |lines| :: lines[i].Line? ==> Canonical(Chomp(lines[i].text))
  }

  /** The next event of both readers, from any state within a block. */
  lemma {:induction false} SameNext<V>(parse: string -> Option<V>, lines: seq<Raw>, name: string, data: seq<string>)
    requires CanonicalStream(lines)
    ensures var p := Pulled(parse, lines, name, data);
            Pushed(parse, true, lines, name, data) ==
              match p.r
              case Success(e) => [Got(Named(e.0, e.1))] + Pushed(parse, true, p.rest, "", [])
              case Failure(error) => if error == Closed then [End] else [Stopped, End]
    ensures CanonicalStream(Pulled(parse, lines, name, data).rest)
    decreases |lines|
  {
    hide PushField, PullField, Canonical;
    if lines != [] && lines[0].Line? {
      FieldsAgree(Chomp(lines[0].text));
      match PullField(Chomp(lines[0].text))
      case Name(s) => SameNext(parse, lines[1..], s, data);
      case Data(s) => SameNext(parse, lines[1..], name, data + [s]);
      case Ignored => SameNext(parse, lines[1..], name, data);
      case Blank => if data == [] { SameNext(parse, lines[1..], name, data); }
    }
  }

  /** The queue of a run that records these events and then stops for this reason. */
  ghost function Recorded<V>(events: seq<Event<V>>, error: PullError): seq<Item<V>> {
    if events == [] then (if error == Closed then [End] else [Stopped, End])
    else [Got(events[0])] + Recorded(events[1..], error)
  }

  lemma {:induction false} RecordedValues<V>(events: seq<Event<V>>, error: PullError)
    ensures Values(Recorded(events, error)) == events
  {
    if events == [] {
      ValuesEnd<V>([], Recorded([], error));
      assert [] + Recorded<V>([], error) == Recorded([], error);
    } else {
      RecordedValues(events[1..], error);
      var later := Recorded(events[1..], error);
      assert ([Got(events[0])] + later)[1..] == later;
    }
  }

  lemma RecordedFirst<V>(e: Event<V>, events: seq<Event<V>>, error: PullError)
    ensures Recorded([e] + events, error) == [Got(e)] + Recorded(events, error)
  {
    assert ([e] + events)[1..] == events;
  }

  /** On every canonical stream, repeated calls of the pull reader return exactly the events the
      push reader records, and it fails where the push reader stops. */
  lemma {:induction false} PullMatchesPush<V>(parse: string -> Option<V>, lines: seq<Raw>)
    requires CanonicalStream(lines)
    ensures var (events, error) := PullAll(parse, lines);
            var items := Pushed(parse, true, lines, "", []);
            items == Recorded(events, error) && Values(items) == events
    decreases |lines|
  {
    hide Pulled, Pushed, CanonicalStream, Recorded, Values;
    SameNext(parse, lines, "", []);
    var p := Pulled(parse, lines, "", []);
    var (events, error) := PullAll(parse, lines);
    if p.r.Success? {
      PullMatchesPush(parse, p.rest);
      RecordedFirst(Named(p.r.value.0, p.r.value.1), PullAll(parse, p.rest).0, error);
    } else {
      RecordedNone<V>(error);
    }
    RecordedValues(events, error);
  }

  lemma RecordedNone<V>(error: PullError)
    ensures Recorded<V>([], error) == if error == Closed then [End] else [Stopped, End]
  {}

  // ---------- lines without effect ----------

  /** A comment or any other line that neither names, adds data nor ends a block. */
  predicate NoEffect(r: Raw) {
    r.Line? && PushField(Chomp(r.text)) == Ignored
  }

  function WithoutIgnored(lines: seq<Raw>): seq<Raw> {
    if lines == [] then []
    else (if NoEffect(lines[0]) then [] else [lines[0]]) + WithoutIgnored(lines[1..])
  }

  /** Comments may stand anywhere, also inside a block. */
  lemma {:induction false} CommentsInvisible<V>(parse: string -> Option<V>, lines: seq<Raw>, name: string,
                                                data: seq<string>)
    ensures Pushed(parse, true, WithoutIgnored(lines), name, data) == Pushed(parse, true, lines, name, data)
    decreases |lines|
  {
    hide PushField, Chomp, Join;
    if lines != [] {
      var rest := WithoutIgnored(lines[1..]);
      if NoEffect(lines[0]) {
        assert [] + rest == rest;
        CommentsInvisible(parse, lines[1..], name, data);
      } else if lines[0].Line? {
        assert ([lines[0]] + rest)[1..] == rest;
        match PushField(Chomp(lines[0].text))
        case Name(s) => CommentsInvisible(parse, lines[1..], s, data);
        case Data(s) => CommentsInvisible(parse, lines[1..], name, data + [s]);
        case Blank => CommentsInvisible(parse, lines[1..], if data == [] then name else "", []);
      }
    }
  }

  // ---------- writing a stream ----------

  /** A block of a stream: an event, given by its name and JSON text, a comment, or nothing. */
  datatype Chunk = Message(name: string, text: string) | Comment(text: string) | Pause

  /** `text.split('\n')` */
  function Split(text: string): (lines: seq<string>)
    ensures lines != []
  {
    if text == "" then [""]
    else
      var rest := Split(text[1..]);
      if text[0] == '\n' then [""] + rest else [[text[0]] + rest[0]] + rest[1..]
  }

  lemma {:induction false} JoinSplit(text: string)
    ensures Join(Split(text)) == text
    decreases |text|
  {
    if text != "" {
      var rest := Split(text[1..]);
      JoinSplit(text[1..]);
      if text[0] == '\n' {
        assert ([""] + rest)[1..] == rest;
        assert text == "" + "\n" + text[1..];
      } else {
        var lines := [[text[0]] + rest[0]] + rest[1..];
        assert lines[1..] == rest[1..];
        assert text == [text[0]] + text[1..];
        if |rest| > 1 {
          assert [text[0]] + (rest[0] + "\n" + Join(rest[1..])) == ([text[0]] + rest[0]) + "\n" + Join(rest[1..]);
        }
      }
    }
  }

  predicate OneLine(s: string) { '\r' !in s && '\n' !in s }

  lemma {:induction false} SplitOneLine(text: string)
    requires '\r' !in text
    ensures forall i | 0 <= i < |Split(text)| :: OneLine(Split(text)[i])
    decreases |text|
  {
    if text != "" {
      SplitOneLine(text[1..]);
      var rest := Split(text[1..]);
      assert OneLine(rest[0]);
    }
  }

  lemma ChompLine(s: string)
    requires OneLine(s)
    ensures Chomp(s) == s && Chomp(s + "\n") == s
  {
    assert (s + "\n")[..|s|] == s;
    if s != "" { assert s[|s| - 1] in s; }
  }

  ghost function DataLines(lines: seq<string>): seq<Raw> {
    seq(|lines|, i requires 0 <= i < |lines| => Line("data: " + lines[i] + "\n"))
  }

  /** An event without a name has no `event` line. */
  ghost function Encode(c: Chunk): seq<Raw> {
    match c
    case Message(name, text) =>
      (if name == "" then [] else [Line("event: " + name + "\n")]) + DataLines(Split(text)) + [Line("\n")]
    case Comment(text) => [Line(":" + text + "\n")]
    case Pause => [Line("\n")]
  }

  ghost function EncodeAll(chunks: seq<Chunk>): seq<Raw> {
    if chunks == [] then [] else Encode(chunks[0]) + EncodeAll(chunks[1..])
  }

  ghost predicate Writable<V>(parse: string -> Option<V>, c: Chunk) {
    match c
    case Message(name, text) => OneLine(name) && '\r' !in text && parse(text).Some?
    case Comment(text) => OneLine(text)
    case Pause => true
  }

  ghost function Written<V>(parse: string -> Option<V>, chunks: seq<Chunk>): seq<Event<V>>
    requires forall i | 0 <= i < |chunks| :: Writable(parse, chunks[i])
  {
    if chunks == [] then []
    else if chunks[0].Message? then
      assert Writable(parse, chunks[0]);
      [Named(chunks[0].name, parse(chunks[0].text).value)] + Written(parse, chunks[1..])
    else Written(parse, chunks[1..])
  }

  lemma {:induction false} ReadData<V>(parse: string -> Option<V>, lines: seq<string>, rest: seq<Raw>, name: string,
                                       data: seq<string>)
    requires forall i | 0 <= i < |lines| :: OneLine(lines[i])
    ensures Pushed(parse, true, DataLines(lines) + rest, name, data) == Pushed(parse, true, rest, name, data + lines)
    decreases |lines|
  {
    hide Pushed, Chomp;
    if lines == [] {
      assert DataLines(lines) + rest == rest && data + lines == data;
    } else {
      var all := DataLines(lines) + rest;
      assert all[1..] == DataLines(lines[1..]) + rest;
      PushedLine(parse, true, all, name, data);
      ChompLine("data: " + lines[0]);
      FieldOf("data: ", lines[0]);
      ReadData(parse, lines[1..], rest, name, data + [lines[0]]);
      assert data + [lines[0]] + lines[1..] == data + lines;
    }
  }

  lemma FieldOf(prefix: string, s: string)
    requires prefix in {"event: ", "data: "}
    ensures PushField(prefix + s) == if prefix == "event: " then Name(s) else Data(s)
  {
    assert (prefix + s)[|prefix|..] == s;
    if prefix == "data: " { assert (prefix + s)[0] != "event: "[0]; }
  }

  lemma ReadBlank<V>(parse: string -> Option<V>, rest: seq<Raw>, name: string, data: seq<string>)
    ensures Pushed(parse, true, [Line("\n")] + rest, name, data) ==
            (if data == [] then Pushed(parse, true, rest, name, data) else
             var v := parse(Join(data));
             if v.None? then [Stopped, End] else [Got(Named(name, v.value))] + Pushed(parse, true, rest, "", []))
  {
    hide Pushed, Join;
    var all := [Line("\n")] + rest;
    assert all[1..] == rest;
    PushedLine(parse, true, all, name, data);
    ChompLine("");
    assert "" + "\n" == "\n";
  }

  lemma ReadChunk<V>(parse: string -> Option<V>, c: Chunk, rest: seq<Raw>)
    requires Writable(parse, c)
    ensures Pushed(parse, true, Encode(c) + rest, "", []) ==
            (if c.Message? then [Got(Named(c.name, parse(c.text).value))] else []) + Pushed(parse, true, rest, "", [])
  {
    hide Pushed, Chomp, Split;
    match c
    case Message(_, _) => ReadMessage(parse, c, rest);
    case Comment(text) => ReadComment(parse, text, rest);
    case Pause => ReadBlank(parse, rest, "", []);
  }

  lemma ReadMessage<V>(parse: string -> Option<V>, c: Chunk, rest: seq<Raw>)
    requires c.Message? && Writable(parse, c)
    ensures Pushed(parse, true, Encode(c) + rest, "", []) ==
            [Got(Named(c.name, parse(c.text).value))] + Pushed(parse, true, rest, "", [])
  {
    hide Pushed, Chomp, Split, Join, DataLines, PushField;
    var lines := Split(c.text);
    SplitOneLine(c.text);
    JoinSplit(c.text);
    var tail := DataLines(lines) + ([Line("\n")] + rest);
    if c.name != "" {
      var all := Encode(c) + rest;
      assert all == [Line("event: " + c.name + "\n")] + tail && all[1..] == tail;
      PushedLine(parse, true, all, "", []);
      ChompLine("event: " + c.name);
      FieldOf("event: ", c.name);
    } else {
      assert Encode(c) + rest == tail;
    }
    ReadData(parse, lines, [Line("\n")] + rest, c.name, []);
    assert [] + lines == lines;
    ReadBlank(parse, rest, c.name, lines);
  }

  lemma ReadComment<V>(parse: string -> Option<V>, text: string, rest: seq<Raw>)
    requires OneLine(text)
    ensures Pushed(parse, true, [Line(":" + text + "\n")] + rest, "", []) == Pushed(parse, true, rest, "", [])
  {
    hide Pushed, Chomp;
    var all := [Line(":" + text + "\n")] + rest;
    assert all[1..] == rest;
    PushedLine(parse, true, all, "", []);
    ChompLine(":" + text);
    var line := ":" + text;
    assert line[0] == ':' && "event: "[0] == 'e' && "data: "[0] == 'd';
    assert PushField(line) == Ignored;
  }

  /** Encoding any list of events, comments and blank blocks and reading the stream back yields the
      events, in order, and nothing else. */
  lemma {:induction false} StreamRoundTrip<V>(parse: string -> Option<V>, chunks: seq<Chunk>)
    requires forall i | 0 <= i < |chunks| :: Writable(parse, chunks[i])
    ensures var items := Pushed(parse, true, EncodeAll(chunks), "", []);
            items != [] && items[|items| - 1] == End && Stopped !in items && Values(items) == Written(parse, chunks)
    decreases |chunks|
  {
    hide Pushed, Encode;
    if chunks == [] {
      PushedEnd(parse, true, [], "", []);
    } else {
      assert Writable(parse, chunks[0]);
      ReadChunk(parse, chunks[0], EncodeAll(chunks[1..]));
      StreamRoundTrip(parse, chunks[1..]);
      var later := Pushed(parse, true, EncodeAll(chunks[1..]), "", []);
      if chunks[0].Message? {
        var e := Named(chunks[0].name, parse(chunks[0].text).value);
        assert ([Got(e)] + later)[1..] == later;
      } else {
        assert [] + later == later;
      }
    }
  }

  /** Chunks whose lines the pull reader reads like the push reader. */
  ghost predicate Pullable(c: Chunk) {
    match c
    case Message(name, text) =>
      OneLine(name) && '\r' !in text && NoSpaceAround(name) && forall i | 0 <= i < |Split(text)| ::
        NoSpaceAhead(Split(text)[i])
    case Comment(text) => OneLine(text)
    case Pause => true
  }

  lemma CanonicalChunk(c: Chunk)
    requires Pullable(c)
    ensures CanonicalStream(Encode(c))
  {
    hide Chomp, Split, DataLines, Canonical;
    ChompLine("");
    assert "" + "\n" == "\n" && Canonical("") by { CanonicalBlank(); }
    match c
    case Message(name, text) =>
      CanonicalData(c);
      ChompLine("event: " + name);
      CanonicalField("event: ", name);
    case Comment(text) =>
      ChompLine(":" + text);
      CanonicalComment(text);
    case Pause =>
  }

  lemma CanonicalBlank()
    ensures Canonical("")
  {}

  lemma CanonicalComment(text: string)
    ensures Canonical(":" + text)
  {
    var line := ":" + text;
    assert line[0] == ':' && "event:"[0] == 'e' && "data:"[0] == 'd';
  }

  lemma CanonicalData(c: Chunk)
    requires c.Message? && Pullable(c)
    ensures CanonicalStream(DataLines(Split(c.text)))
  {
    hide Chomp, Split, Canonical;
    var lines := Split(c.text);
    SplitOneLine(c.text);
    forall i | 0 <= i < |lines| ensures Canonical(Chomp(DataLines(lines)[i].text)) {
      ChompLine("data: " + lines[i]);
      CanonicalField("data: ", lines[i]);
    }
  }

  lemma CanonicalField(prefix: string, s: string)
    requires (prefix == "event: " && NoSpaceAround(s)) || (prefix == "data: " && NoSpaceAhead(s))
    ensures Canonical(prefix + s)
  {
    assert (prefix + s)[|prefix|..] == s;
    assert "event:"[0] == 'e' && "data:"[0] == 'd' && (prefix + s)[0] == prefix[0];
  }

  lemma {:induction false} CanonicalChunks(chunks: seq<Chunk>)
    requires forall i | 0 <= i < |chunks| :: Pullable(chunks[i])
    ensures CanonicalStream(EncodeAll(chunks))
  {
    hide Encode, Pullable, Canonical, Chomp;
    if chunks != [] {
      CanonicalChunk(chunks[0]);
      CanonicalChunks(chunks[1..]);
    }
  }

  /** The pull reader, called again and again, returns what was written and then finds the stream closed. */
  lemma PullRoundTrip<V>(parse: string -> Option<V>, chunks: seq<Chunk>)
    requires forall i | 0 <= i < |chunks| :: Writable(parse, chunks[i]) && Pullable(chunks[i])
    ensures PullAll(parse, EncodeAll(chunks)) == (Written(parse, chunks), Closed)
  {
    hide Writable, Pullable, Pushed, Encode, Recorded;
    CanonicalChunks(chunks);
    StreamRoundTrip(parse, chunks);
    PullMatchesPush(parse, EncodeAll(chunks));
    var (events, error) := PullAll(parse, EncodeAll(chunks));
    RecordedStops(events, error);
  }

  lemma {:induction false} RecordedStops<V>(events: seq<Event<V>>, error: PullError)
    ensures Stopped in Recorded(events, error) <==> error != Closed
  {
    if events != [] { RecordedStops(events[1..], error); }
  }
}
