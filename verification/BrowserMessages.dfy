/** The reader and the caller of the browser runtime in terms of bytes, fields and ids. */
module BrowserMessages {
  import opened Bytes
  import opened Outcomes
  import opened BrowserRuntime
  import opened BrowserCalls

  // ---------- what the reader delivers ----------

  /** A number in four bytes, the lowest first. */
  ghost function Four(n: nat): seq<byte> { [n % 256, n / 256 % 256, n / 65536 % 256, n / 16777216 % 256] }

  ghost function FrameBytes(f: Sent): seq<byte> { Four(|f.body|) + Four(|f.pixels|) + f.body + f.pixels }

  ghost function StreamBytes(frames: seq<Sent>): seq<byte> {
    if frames == [] then [] else FrameBytes(frames[0]) + StreamBytes(frames[1..])
  }

  lemma FourReads(n: nat)
    requires n < 0x1_0000_0000
    ensures U32(Four(n)) == n && Four(n) == Bytes32(n)
  {
    var n1 := n / 256;
    var n2 := n1 / 256;
    assert n / 65536 == n2 && n / 16777216 == n2 / 256 && n2 / 256 < 256;
    assert n == 256 * n1 + n % 256 && n1 == 256 * n2 + n1 % 256 && n2 == 256 * (n2 / 256) + n2 % 256;
  }

  /** A stream that starts with two numbers: what is delivered first, and what the reader goes on with. */
  lemma ReaderSteps(codec: Codec, head: nat, count: nat, x: seq<byte>)
    requires head < 0x1_0000_0000 && count < 0x1_0000_0000
    ensures var failed := (stop: Stop) => [Object(map["transport_error" := Str(codec.text(stop))])];
            Delivered(codec, Four(head) + Four(count) + x) ==
            if head > 16777216 || count > 134217728 then failed(TooLarge)
            else if |x| < head then failed(Disconnected)
            else
              match codec.parse(x[..head])
              case None => failed(BadJson)
              case Some(message) =>
                if |x| < head + count then failed(Disconnected)
                else if count == 0 then [message] + Delivered(codec, x[head..])
                else match message
                  case Object(fields) =>
                    [Object(fields["pixel_bytes" := Number(count as real)])] + Delivered(codec, x[head + count..])
                  case _ => failed(NoObject)
  {
    hide Delivered, U32, Four;
    var s := Four(head) + Four(count) + x;
    FourReads(head);
    FourReads(count);
    HeadParts(head, count, x);
    DeliveredStep(codec, s);
    if |x| >= head { assert s[8..8 + head] == s[8..][..head]; }
    if |x| >= head + count { assert s[8 + head + count..] == s[8..][head + count..]; }
  }

  lemma HeadParts(head: nat, count: nat, x: seq<byte>)
    ensures var s := Four(head) + Four(count) + x;
            |s| == 8 + |x| && s[..4] == Four(head) && s[4..8] == Four(count) && s[8..] == x
  {}

  /** Fewer than eight bytes are no frame. */
  lemma ShortStream(codec: Codec, s: seq<byte>)
    requires |s| < 8
    ensures Delivered(codec, s) == [Object(map["transport_error" := Str(codec.text(Disconnected))])]
  {}

  /** A message as it is delivered: the body that was sent, and with pixels one more field. */
  ghost predicate DeliveredAs(codec: Codec, f: Sent, m: Json) {
    var body := codec.parse(f.body);
    && body.Some?
    && if f.pixels == [] then m == body.value
       else
         && body.value.Object? && m.Object?
         && "pixel_bytes" in m.fields && m.fields["pixel_bytes"] == Number(|f.pixels| as real)
         && (forall key | key in m.fields :: key == "pixel_bytes" || key in body.value.fields)
         && (forall key | key in body.value.fields && key != "pixel_bytes" ::
              key in m.fields && m.fields[key] == body.value.fields[key])
  }

  /** Frames that were written are delivered in order: every message with all its fields, with pixels also
      their number; and behind them one message whose only field is the transport error. */
  lemma {:induction false} FramesDelivered(codec: Codec, frames: seq<Sent>)
    requires forall i | 0 <= i < |frames| ::
               && |frames[i].body| <= 16777216 && |frames[i].pixels| <= 134217728 && codec.parse(frames[i].body).Some?
               && (frames[i].pixels == [] || codec.parse(frames[i].body).value.Object?)
    ensures var messages := Delivered(codec, StreamBytes(frames));
            && |messages| == |frames| + 1
            && (forall i | 0 <= i < |frames| :: DeliveredAs(codec, frames[i], messages[i]))
            && messages[|frames|] == Object(map["transport_error" := Str(codec.text(Disconnected))])
    decreases |frames|
  {
    hide Delivered, Four, DeliveredAs;
    if frames == [] {
      ShortStream(codec, []);
    } else {
      var f, rest := frames[0], StreamBytes(frames[1..]);
      var x := f.body + f.pixels + rest;
      assert StreamBytes(frames) == Four(|f.body|) + Four(|f.pixels|) + x;
      ReaderSteps(codec, |f.body|, |f.pixels|, x);
      FrameParts(f, rest);
      FramesDelivered(codec, frames[1..]);
      var messages, later := Delivered(codec, StreamBytes(frames)), Delivered(codec, rest);
      assert messages == [messages[0]] + later;
      FrameDelivered(codec, f, messages[0]);
      forall i | 0 <= i < |frames| ensures DeliveredAs(codec, frames[i], messages[i]) {
        if i > 0 { assert DeliveredAs(codec, frames[1..][i - 1], later[i - 1]); }
      }
    }
  }

  lemma FrameParts(f: Sent, rest: seq<byte>)
    ensures var x := f.body + f.pixels + rest;
            x[..|f.body|] == f.body && x[|f.body| + |f.pixels|..] == rest && (f.pixels == [] ==> x[|f.body|..] == rest)
  {}

  lemma FrameDelivered(codec: Codec, f: Sent, m: Json)
    requires codec.parse(f.body).Some? && (f.pixels == [] || codec.parse(f.body).value.Object?)
    requires var body := codec.parse(f.body).value;
             m == if f.pixels == [] then body
                  else Object(body.fields["pixel_bytes" := Number(|f.pixels| as real)])
    ensures DeliveredAs(codec, f, m)
  {}

  // ---------- which message answers which call ----------

  /** A readable message that does not carry this id. */
  ghost predicate Passes(m: Json, id: nat) {
    && m.Object? && "transport_error" !in m.fields
    && ("id" in m.fields ==>
          && m.fields["id"] != Number(id as real)
          && !(m.fields["id"] == Bool(true) && id == 1) && !(m.fields["id"] == Bool(false) && id == 0))
  }

  /** How one call ends: behind `k` messages that pass, it times out when its patience or the queue is at its
      end, and otherwise the next message decides. */
  lemma {:induction false} CallOutcome(messages: seq<Json>, id: nat, patience: nat, k: nat)
    requires k <= |messages| && k <= patience && forall i | 0 <= i < k :: Passes(messages[i], id)
    requires k < |messages| && k < patience ==> !Passes(messages[k], id)
    ensures Await(messages, id, patience) ==
            if k == patience || k == |messages| then Reply(Failure(TimedOut), messages[..k], messages[k..])
            else
              var m := messages[k];
              Reply(if !m.Object? then Failure(Malformed(m))
                    else if "transport_error" in m.fields then Failure(Transport(m))
                    else if "error" in m.fields then Failure(ErrorReply(m))
                    else if "result" !in m.fields then Failure(NoResult(m))
                    else Success(m.fields["result"]), messages[..k], messages[k + 1..])
    decreases k
  {
    hide Await, Carries;
    if k > 0 {
      CarriesSpelled(messages[0], id);
      AwaitStep(messages, id, patience);
      CallOutcome(messages[1..], id, patience - 1, k - 1);
      assert [messages[0]] + messages[1..][..k - 1] == messages[..k];
      assert messages[1..][k - 1..] == messages[k..];
      if k < |messages| { assert messages[1..][k..] == messages[k + 1..] && messages[1..][k - 1] == messages[k]; }
    } else {
      if messages != [] { CarriesSpelled(messages[0], id); }
      AwaitStops(messages, id, patience);
      assert messages[..0] == [] && messages[0..] == messages;
    }
  }

  /** The reply to a call is the first message with its number as id, behind messages without that id. */
  lemma CallFinds(messages: seq<Json>, id: nat, patience: nat, k: nat)
    requires k < |messages| && k < patience && forall i | 0 <= i < k :: Passes(messages[i], id)
    requires var m := messages[k];
             && m.Object? && "transport_error" !in m.fields && "error" !in m.fields
             && "id" in m.fields && m.fields["id"] == Number(id as real) && "result" in m.fields
    ensures Await(messages, id, patience) ==
            Reply(Success(messages[k].fields["result"]), messages[..k], messages[k + 1..])
  {
    CallOutcome(messages, id, patience, k);
  }

  /** A message without an id, or with another number, a text, a list or nothing there, is set aside. */
  lemma OthersPass(m: Json, rest: seq<Json>, id: nat, patience: nat)
    requires m.Object? && "transport_error" !in m.fields
    requires "id" in m.fields ==>
               var x := m.fields["id"]; x.Str? || x.Null? || x.List? || x.Object? || (x.Number? && x.r != id as real)
    ensures var later := Await(rest, id, patience);
            Await([m] + rest, id, patience + 1) == Reply(later.result, [m] + later.aside, later.rest)
  {
    hide Await, Carries;
    CarriesSpelled(m, id);
    assert ([m] + rest)[1..] == rest;
    AwaitStep([m] + rest, id, patience + 1);
  }

  /** A readable message that is not set aside for two ids answers one call. */
  lemma OneId(m: Json, a: nat, b: nat)
    requires m.Object? && "transport_error" !in m.fields
    requires Await([m], a, 1).aside == [] && Await([m], b, 1).aside == []
    ensures a == b
  {
    assert [m][1..] == [];
  }

  // ---------- a run of calls ----------

  /** The `i`-th reply of a run: its number as id and a result. */
  ghost predicate Answer(m: Json, id: nat) {
    && m.Object? && "transport_error" !in m.fields && "error" !in m.fields
    && "id" in m.fields && m.fields["id"] == Number(id as real) && "result" in m.fields
  }

  /** A readable message without a number or a truth value as id. */
  ghost predicate Event(m: Json) {
    && m.Object? && "transport_error" !in m.fields
    && ("id" in m.fields ==> !m.fields["id"].Number? && !m.fields["id"].Bool?)
  }

  ghost function Shifted(places: seq<nat>, taken: nat): seq<nat>
    requires forall i | 0 <= i < |places| :: places[i] >= taken
  {
    seq(|places|, i requires 0 <= i < |places| => places[i] - taken)
  }

  ghost predicate Answering(messages: seq<Json>, first: nat, places: seq<nat>) {
    && (forall i | 0 <= i < |places| :: places[i] < |messages| && Answer(messages[places[i]], first + i))
    && (forall i, j | 0 <= i < j < |places| :: places[i] < places[j])
    && (forall n: nat | n < |messages| && n !in places :: Event(messages[n]))
  }

  /** Replies with the ids of a run, in its order and with any events between them, give the calls of the
      run their results, each its own. */
  lemma {:induction false} RunInOrder(messages: seq<Json>, first: nat, places: seq<nat>, patience: seq<nat>)
    requires |places| == |patience| && Answering(messages, first, places)
    requires forall i | 0 <= i < |patience| :: patience[i] >= |messages|
    ensures var s := Calls(messages, first, patience);
            && s.ok && |s.results| == |places|
            && forall i | 0 <= i < |places| :: s.results[i] == messages[places[i]].fields["result"]
    decreases |places|
  {
    hide Await, Answering, Answer, Event;
    if places != [] {
      var k := places[0];
      FirstPlace(messages, first, places);
      CallFinds(messages, first, patience[0], k) by { AnswerAt(messages, first, places); }
      var rest, later := messages[k + 1..], Shifted(places[1..], k + 1);
      RunInOrder(rest, first + 1, later, patience[1..]);
      var s, t := Calls(messages, first, patience), Calls(rest, first + 1, patience[1..]);
      forall i | 0 <= i < |places| ensures s.results[i] == messages[places[i]].fields["result"] {
        if i > 0 { assert later[i - 1] == places[i] - (k + 1) && rest[later[i - 1]] == messages[places[i]]; }
      }
    }
  }

  lemma AnswerAt(messages: seq<Json>, first: nat, places: seq<nat>)
    requires places != [] && Answering(messages, first, places)
    ensures places[0] < |messages|
    ensures var m := messages[places[0]];
            && m.Object? && "transport_error" !in m.fields && "error" !in m.fields
            && "id" in m.fields && m.fields["id"] == Number(first as real) && "result" in m.fields
  {}

  lemma FirstPlace(messages: seq<Json>, first: nat, places: seq<nat>)
    requires places != [] && Answering(messages, first, places)
    ensures var k := places[0];
            && k < |messages| && (forall i | 0 <= i < k :: Passes(messages[i], first))
            && (forall i | 0 <= i < |places[1..]| :: places[1..][i] >= k + 1)
            && Answering(messages[k + 1..], first + 1, Shifted(places[1..], k + 1))
            && (forall i | 0 <= i < |places| :: places[i] < |messages| && messages[places[i]].Object?
                                                && "result" in messages[places[i]].fields)
  {
    hide Answer, Event, Passes, Shifted;
    var k := places[0];
    forall i: nat | i < k ensures Passes(messages[i], first) {
      assert i !in places;
      EventPasses(messages[i], first);
    }
    forall i | 0 <= i < |places|
      ensures places[i] < |messages| && messages[places[i]].Object? && "result" in messages[places[i]].fields
    {
      AnswerHasResult(messages[places[i]], first + i);
    }
    LaterAnswers(messages, first, places);
    LaterEvents(messages, first, places);
  }

  lemma EventPasses(m: Json, id: nat)
    requires Event(m)
    ensures Passes(m, id)
  {}

  lemma AnswerHasResult(m: Json, id: nat)
    requires Answer(m, id)
    ensures m.Object? && "result" in m.fields
  {}

  lemma LaterAnswers(messages: seq<Json>, first: nat, places: seq<nat>)
    requires places != [] && Answering(messages, first, places)
    ensures forall i | 0 <= i < |places[1..]| :: places[1..][i] >= places[0] + 1
    ensures places[0] < |messages|
    ensures var rest, later := messages[places[0] + 1..], Shifted(places[1..], places[0] + 1);
            && (forall i | 0 <= i < |later| :: later[i] < |rest| && Answer(rest[later[i]], first + 1 + i))
            && (forall i, j | 0 <= i < j < |later| :: later[i] < later[j])
  {
    hide Answer, Event;
    var k := places[0];
    var rest, later := messages[k + 1..], Shifted(places[1..], k + 1);
    forall i | 0 <= i < |later| ensures later[i] < |rest| && Answer(rest[later[i]], first + 1 + i) {
      assert later[i] == places[i + 1] - (k + 1) && rest[later[i]] == messages[places[i + 1]];
      assert Answer(messages[places[i + 1]], first + (i + 1));
    }
  }

  lemma LaterEvents(messages: seq<Json>, first: nat, places: seq<nat>)
    requires places != [] && Answering(messages, first, places) && places[0] < |messages|
    requires forall i | 0 <= i < |places[1..]| :: places[1..][i] >= places[0] + 1
    ensures var rest, later := messages[places[0] + 1..], Shifted(places[1..], places[0] + 1);
            forall n: nat | n < |rest| && n !in later :: Event(rest[n])
  {
    hide Answer, Event, Shifted;
    var k := places[0];
    var rest, later := messages[k + 1..], Shifted(places[1..], k + 1);
    forall n: nat | n < |rest| && n !in later ensures Event(rest[n]) {
      if n + k + 1 in places { PlaceShifted(places, n); }
      assert rest[n] == messages[n + k + 1];
    }
  }

  lemma PlaceShifted(places: seq<nat>, n: nat)
    requires places != [] && n + places[0] + 1 in places
    requires forall i | 0 <= i < |places[1..]| :: places[1..][i] >= places[0] + 1
    ensures n in Shifted(places[1..], places[0] + 1)
  {
    var i :| 0 <= i < |places| && places[i] == n + places[0] + 1;
    assert Shifted(places[1..], places[0] + 1)[i - 1] == n;
  }
}
