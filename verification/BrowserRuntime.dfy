/** The pipe client of scripts/test-browser-runtime.py: a reader of length-prefixed frames and a
    caller that matches replies to requests. */
module BrowserRuntime {
  import opened Bytes
  import opened Outcomes

  datatype Json =
    | Null | Bool(b: bool) | Number(r: real) | Str(s: string)
    | List(items: seq<Json>) | Object(fields: map<string, Json>)

  const HEAD_LIMIT := 16 * 1024 * 1024
  const PIXEL_LIMIT := 128 * 1024 * 1024

  /** Why the reader stops. */
  datatype Stop = Disconnected | TooLarge | BadJson | NoObject

  /** `json.loads`, and the text of an exception. */
  datatype Codec = Codec(parse: seq<byte> -> Option<Json>, text: Stop -> string)

  // ---------- frames ----------

  function U32(b: seq<byte>): (n: nat)
    requires |b| == 4
  {
    b[0] as nat + 256 * (b[1] as nat + 256 * (b[2] as nat + 256 * (b[3] as nat)))
  }

  function Bytes32(n: nat): (b: seq<byte>)
    requires n < 0x1_0000_0000
    ensures |b| == 4 && U32(b) == n
  {
    var n1 := n / 256;
    var n2 := n1 / 256;
    var n3 := n2 / 256;
    assert n == 256 * n1 + n % 256 && n1 == 256 * n2 + n1 % 256 && n2 == 256 * n3 + n2 % 256;
    [n % 256, n1 % 256, n2 % 256, n3]
  }

  /** What the reader puts in the queue for a decoded head and its pixels. */
  function Attach(message: Json, pixels: nat): Option<Json> {
    if pixels == 0 then Some(message)
    else if message.Object? then Some(Object(message.fields["pixel_bytes" := Number(pixels as real)]))
    else None
  }

  /** The first frame of a stream: a message and the rest, or the reason to stop. */
  datatype First = Frame(message: Json, rest: seq<byte>) | NoFrame(stop: Stop)

  function FirstFrame(codec: Codec, s: seq<byte>): (f: First)
    ensures f.Frame? ==> |f.rest| < |s|
  {
    if |s| < 8 then NoFrame(Disconnected) else
    var head, count := U32(s[..4]), U32(s[4..8]);
    if head > HEAD_LIMIT || count > PIXEL_LIMIT then NoFrame(TooLarge)
    else if |s| < 8 + head then NoFrame(Disconnected)
    else
      var message := codec.parse(s[8..8 + head]);
      if message.None? then NoFrame(BadJson)
      else if |s| < 8 + head + count then NoFrame(Disconnected)
      else
        var whole := Attach(message.value, count);
        if whole.None? then NoFrame(NoObject) else Frame(whole.value, s[8 + head + count..])
  }

  function Failed(codec: Codec, stop: Stop): Json {
    Object(map["transport_error" := Str(codec.text(stop))])
  }

  /** Everything the reader puts in the queue for a byte stream. */
  function Delivered(codec: Codec, s: seq<byte>): (messages: seq<Json>)
    ensures |messages| >= 1
    decreases |s|
  {
    var f := FirstFrame(codec, s);
    if f.NoFrame? then [Failed(codec, f.stop)] else [f.message] + Delivered(codec, f.rest)
  }

  lemma DeliveredStep(codec: Codec, s: seq<byte>)
    ensures match FirstFrame(codec, s)
            case Frame(m, rest) => Delivered(codec, s) == [m] + Delivered(codec, rest)
            case NoFrame(stop) => Delivered(codec, s) == [Failed(codec, stop)]
  {
    hide FirstFrame, Failed;
  }

  // ---------- calls ----------

  datatype Request = Request(id: nat, name: string, params: Json, session: Option<string>)

  datatype CallError = TimedOut | Transport(message: Json) | Malformed(message: Json) | ErrorReply(message: Json) |
    NoResult(message: Json)

  /** `params or {}` */
  function OrEmpty(params: Json): Json {
    var falsy := match params
      case Null => true
      case Bool(b) => !b
      case Number(r) => r == 0.0
      case Str(s) => s == ""
      case List(l) => l == []
      case Object(f) => f == map[];
    if falsy then Object(map[]) else params
  }

  lemma OrEmptyMeans(params: Json)
    ensures params.Object? && params.fields != map[] ==> OrEmpty(params) == params
    ensures params in {Null, Bool(false), Number(0.0), Str(""), List([]), Object(map[])} ==>
              OrEmpty(params) == Object(map[])
  {}

  /** `message.get('id') == id`, with Python's equality between numbers and booleans. */
  predicate Carries(message: Json, id: nat) {
    message.Object? && "id" in message.fields
    && match message.fields["id"]
       case Number(r) => r == id as real
       case Bool(b) => id == if b then 1 else 0
       case _ => false
  }

  /** The values of `id` that equal a number, spelled out. */
  lemma CarriesSpelled(message: Json, id: nat)
    ensures Carries(message, id) <==>
            && message.Object? && "id" in message.fields
            && (message.fields["id"] == Number(id as real) || (message.fields["id"] == Bool(true) && id == 1)
                || (message.fields["id"] == Bool(false) && id == 0))
  {}

  predicate Readable(message: Json) {
    message.Object? && "transport_error" !in message.fields
  }

  predicate Answers(message: Json) {
    message.Object? && "error" !in message.fields && "result" in message.fields
  }

  /** One call: its result, the messages set aside as events, and the messages left in the queue. */
  datatype Reply = Reply(result: Result<Json, CallError>, aside: seq<Json>, rest: seq<Json>)

  /** `patience` is the number of messages that arrive before the deadline. */
  function Await(messages: seq<Json>, id: nat, patience: nat): (r: Reply)
    ensures |r.rest| <= |messages|
    decreases |messages|
  {
    if patience == 0 || messages == [] then Reply(Failure(TimedOut), [], messages) else
    var m, rest := messages[0], messages[1..];
    if !m.Object? then Reply(Failure(Malformed(m)), [], rest)
    else if "transport_error" in m.fields then Reply(Failure(Transport(m)), [], rest)
    else if Carries(m, id) then
      if "error" in m.fields then Reply(Failure(ErrorReply(m)), [], rest)
      else if "result" !in m.fields then Reply(Failure(NoResult(m)), [], rest)
      else Reply(Success(m.fields["result"]), [], rest)
    else
      var later := Await(rest, id, patience - 1);
      Reply(later.result, [m] + later.aside, later.rest)
  }

  lemma AwaitStep(messages: seq<Json>, id: nat, patience: nat)
    requires patience > 0 && messages != [] && Readable(messages[0]) && !Carries(messages[0], id)
    ensures var later := Await(messages[1..], id, patience - 1);
            Await(messages, id, patience) == Reply(later.result, [messages[0]] + later.aside, later.rest)
  {}

  lemma AwaitStops(messages: seq<Json>, id: nat, patience: nat)
    requires patience == 0 || messages == [] || !Readable(messages[0]) || Carries(messages[0], id)
    ensures var r := Await(messages, id, patience);
            r.aside == [] &&
            if patience == 0 || messages == [] then r.result == Failure(TimedOut) && r.rest == messages
            else r.rest == messages[1..] &&
                 var m := messages[0];
                 r.result == if !m.Object? then Failure(Malformed(m))
                             else if "transport_error" in m.fields then Failure(Transport(m))
                             else if "error" in m.fields then Failure(ErrorReply(m))
                             else if "result" !in m.fields then Failure(NoResult(m))
                             else Success(m.fields["result"])
  {}

  /** `value` is the result of the first message with this id, behind the messages set aside. An id is a
      number, or a truth value that Python counts as one. */
  ghost predicate Answered(messages: seq<Json>, id: nat, aside: seq<Json>, rest: seq<Json>, value: Json) {
    var k := |aside|;
    && k < |messages| && aside == messages[..k] && rest == messages[k + 1..]
    && messages[k].Object? && "id" in messages[k].fields && "error" !in messages[k].fields
    && (messages[k].fields["id"] == Number(id as real) || (messages[k].fields["id"] == Bool(true) && id == 1)
        || (messages[k].fields["id"] == Bool(false) && id == 0))
    && "result" in messages[k].fields && value == messages[k].fields["result"]
    && forall i | 0 <= i < k ::
         messages[i].Object? && ("id" in messages[i].fields ==> messages[i].fields["id"] != Number(id as real))
  }

  lemma {:induction false} AwaitMeans(messages: seq<Json>, id: nat, patience: nat)
    requires Await(messages, id, patience).result.Success?
    ensures var r := Await(messages, id, patience); Answered(messages, id, r.aside, r.rest, r.result.value)
    decreases |messages|
  {
    hide Carries;
    CarriesSpelled(messages[0], id);
    if !Carries(messages[0], id) {
      AwaitMeans(messages[1..], id, patience - 1);
      var r, later := Await(messages, id, patience), Await(messages[1..], id, patience - 1);
      assert r.aside == [messages[0]] + later.aside && messages[1..][|later.aside|] == messages[|r.aside|];
      forall i | 0 <= i < |r.aside|
        ensures messages[i].Object? && ("id" in messages[i].fields ==> messages[i].fields["id"] != Number(id as real))
      {
        if i > 0 { assert messages[i] == messages[1..][i - 1]; }
      }
    }
  }

  // ---------- the client ----------

  /** The runtime's output pipe: `data` is what will still come before it closes. */
  class Pipe {
    var data: seq<byte>

    /** A read returns at least one byte unless the pipe is at its end, and may return fewer than asked for. */
    method Read(n: nat) returns (chunk: seq<byte>)
      modifies this
      ensures chunk + data == old(data) && |chunk| <= n
      ensures n > 0 && old(data) != [] ==> chunk != []
    {
      if n == 0 || data == [] {
        return [];
      }
      var k: nat :| 0 < k <= n && k <= |data|;
      chunk := data[..k];
      data := data[k..];
    }
  }

  class Runtime {
    const pipe: Pipe
    var messages: seq<Json>
    var events: seq<Json>
    var next: nat
    var sent: seq<Request>

    constructor (pipe: Pipe)
      ensures this.pipe == pipe && messages == [] && events == [] && next == 0 && sent == []
    {
      this.pipe := pipe;
      messages, events, next, sent := [], [], 0, [];
    }

    /** The handshake at the end of the constructor: the first message must announce readiness. */
    method Ready() returns (ok: bool)
      modifies this`messages
      ensures ok <==> old(messages) != [] && old(messages)[0].Object?
                      && "method" in old(messages)[0].fields && old(messages)[0].fields["method"] == Str("Zork.ready")
      ensures messages == if old(messages) == [] then [] else old(messages)[1..]
    {
      if messages == [] {
        return false;
      }
      var ready := messages[0];
      messages := messages[1..];
      return ready.Object? && "method" in ready.fields && ready.fields["method"] == Str("Zork.ready");
    }

    method Exact(size: nat) returns (r: Option<seq<byte>>)
      modifies pipe
      ensures if size <= |old(pipe.data)|
              then r == Some(old(pipe.data)[..size]) && pipe.data == old(pipe.data)[size..]
              else r == None && pipe.data == []
    {
      var chunks: seq<byte> := [];
      while |chunks| < size
        invariant |chunks| <= size && chunks + pipe.data == old(pipe.data)
        decreases size - |chunks|
      {
        var data := pipe.Read(size - |chunks|);
        if data == [] {
          return None;
        }
        chunks := chunks + data;
      }
      return Some(chunks);
    }

    /** One turn of the reader's loop. */
    method ReadFrame(codec: Codec) returns (r: Result<Json, Stop>)
      modifies pipe
      ensures match FirstFrame(codec, old(pipe.data))
              case Frame(m, rest) => r == Success(m) && pipe.data == rest
              case NoFrame(stop) => r == Failure(stop)
    {
      ghost var s := pipe.data;
      var prefix := Exact(8);
      if prefix.None? { return Failure(Disconnected); }
      assert prefix.value[..4] == s[..4] && prefix.value[4..8] == s[4..8];
      var head, count := U32(prefix.value[..4]), U32(prefix.value[4..8]);
      if head > HEAD_LIMIT || count > PIXEL_LIMIT { return Failure(TooLarge); }
      var text := Exact(head);
      if text.None? { return Failure(Disconnected); }
      assert text.value == s[8..8 + head];
      var message := codec.parse(text.value);
      if message.None? { return Failure(BadJson); }
      var pixels := Exact(count);
      if pixels.None? { return Failure(Disconnected); }
      var whole := message.value;
      if pixels.value != [] {
        if !whole.Object? { return Failure(NoObject); }
        whole := Object(whole.fields["pixel_bytes" := Number(|pixels.value| as real)]);
      }
      assert pipe.data == s[8 + head + count..];
      return Success(whole);
    }

    /** The reader thread: whatever sizes the pipe's reads have, the queue receives `Delivered`. */
    method Read(codec: Codec)
      modifies this`messages, pipe
      ensures messages == old(messages) + Delivered(codec, old(pipe.data))
    {
      hide Delivered, FirstFrame, Failed;
      while true
        invariant messages + Delivered(codec, pipe.data) == old(messages) + Delivered(codec, old(pipe.data))
        decreases |pipe.data|
      {
        ghost var s, before := pipe.data, messages;
        DeliveredStep(codec, s);
        var message := ReadFrame(codec);
        if message.Failure? {
          messages := messages + [Failed(codec, message.error)];
          return;
        }
        messages := messages + [message.value];
        assert before + ([message.value] + Delivered(codec, pipe.data)) == messages + Delivered(codec, pipe.data);
        assert before + Delivered(codec, s) == messages + Delivered(codec, pipe.data);
      }
    }

    method Call(name: string, params: Json, session: Option<string>, patience: nat) returns (r: Result<Json, CallError>)
      modifies this`next, this`sent, this`messages, this`events
      ensures next == old(next) + 1
      ensures sent == old(sent) + [Request(next, name, OrEmpty(params), session)]
      ensures params.Object? && params.fields != map[] ==> sent[|old(sent)|].params == params
      ensures params in {Null, Bool(false), Number(0.0), Str(""), List([]), Object(map[])} ==>
                sent[|old(sent)|].params == Object(map[])
      ensures var reply := Await(old(messages), next, patience);
              r == reply.result && messages == reply.rest && events == old(events) + reply.aside
      ensures r.Success? ==> Answered(old(messages), next, events[|old(events)|..], messages, r.value)
    {
      hide Await, Carries, OrEmpty, Answered;
      OrEmptyMeans(params);
      next := next + 1;
      sent := sent + [Request(next, name, OrEmpty(params), session)];
      var left := patience;
      ghost var whole := Await(messages, next, patience);
      if whole.result.Success? { AwaitMeans(messages, next, patience); }
      ghost var aside: seq<Json> := [];
      while true
        invariant next == old(next) + 1 && sent == old(sent) + [Request(next, name, OrEmpty(params), session)]
        invariant events == old(events) + aside
        invariant var now := Await(messages, next, left);
                  whole == Reply(now.result, aside + now.aside, now.rest)
        decreases |messages|
      {
        if left == 0 || messages == [] {
          AwaitStops(messages, next, left);
          return Failure(TimedOut);
        }
        if Readable(messages[0]) && !Carries(messages[0], next) {
          AwaitStep(messages, next, left);
        } else {
          AwaitStops(messages, next, left);
        }
        var message := messages[0];
        messages, left := messages[1..], left - 1;
        if !message.Object? { return Failure(Malformed(message)); }
        if "transport_error" in message.fields { return Failure(Transport(message)); }
        if Carries(message, next) {
          if "error" in message.fields { return Failure(ErrorReply(message)); }
          if "result" !in message.fields { return Failure(NoResult(message)); }
          return Success(message.fields["result"]);
        }
        events := events + [message];
        aside := aside + [message];
      }
    }
  }

  // ---------- the reader's laws ----------

  /** A frame as the runtime writes it. */
  datatype Sent = Sent(body: seq<byte>, pixels: seq<byte>)

  ghost predicate Legal(codec: Codec, f: Sent) {
    && |f.body| <= HEAD_LIMIT && |f.pixels| <= PIXEL_LIMIT
    && codec.parse(f.body).Some?
    && (f.pixels != [] ==> codec.parse(f.body).value.Object?)
  }

  function Encode(f: Sent): seq<byte>
    requires |f.body| <= HEAD_LIMIT && |f.pixels| <= PIXEL_LIMIT
  {
    Bytes32(|f.body|) + Bytes32(|f.pixels|) + f.body + f.pixels
  }

  ghost predicate AllLegal(codec: Codec, frames: seq<Sent>) {
    forall i | 0 <= i < |frames| :: Legal(codec, frames[i])
  }

  ghost function EncodeAll(codec: Codec, frames: seq<Sent>): seq<byte>
    requires AllLegal(codec, frames)
  {
    if frames == [] then [] else Encode(frames[0]) + EncodeAll(codec, frames[1..])
  }

  ghost function Meaning(codec: Codec, f: Sent): Json
    requires Legal(codec, f)
  {
    Attach(codec.parse(f.body).value, |f.pixels|).value
  }

  ghost function Meanings(codec: Codec, frames: seq<Sent>): seq<Json>
    requires AllLegal(codec, frames)
  {
    seq(|frames|, i requires 0 <= i < |frames| => Meaning(codec, frames[i]))
  }

  lemma FirstOfEncoded(codec: Codec, f: Sent, tail: seq<byte>)
    requires Legal(codec, f)
    ensures FirstFrame(codec, Encode(f) + tail) == Frame(Meaning(codec, f), tail)
  {
    var s := Encode(f) + tail;
    var h, c := |f.body|, |f.pixels|;
    assert s[..4] == Bytes32(h);
    assert s[4..8] == Bytes32(c);
    assert s[8..8 + h] == f.body;
    assert s[8 + h + c..] == tail;
  }

  /** Frames that were written come back in order, whatever follows them. */
  lemma {:induction false} EncodedDelivered(codec: Codec, frames: seq<Sent>, tail: seq<byte>)
    requires AllLegal(codec, frames)
    ensures Delivered(codec, EncodeAll(codec, frames) + tail) == Meanings(codec, frames) + Delivered(codec, tail)
    decreases |frames|
  {
    hide Delivered, FirstFrame, Failed, Encode, Meaning;
    if frames == [] {
      assert EncodeAll(codec, frames) + tail == tail;
      assert Meanings(codec, frames) + Delivered(codec, tail) == Delivered(codec, tail);
    } else {
      var rest := EncodeAll(codec, frames[1..]) + tail;
      assert EncodeAll(codec, frames) + tail == Encode(frames[0]) + rest;
      FirstOfEncoded(codec, frames[0], rest);
      DeliveredStep(codec, Encode(frames[0]) + rest);
      EncodedDelivered(codec, frames[1..], tail);
      assert Meanings(codec, frames) == [Meaning(codec, frames[0])] + Meanings(codec, frames[1..]);
    }
  }

  lemma RoundTrip(codec: Codec, frames: seq<Sent>)
    requires AllLegal(codec, frames)
    ensures Delivered(codec, EncodeAll(codec, frames)) == Meanings(codec, frames) + [Failed(codec, Disconnected)]
  {
    EncodedDelivered(codec, frames, []);
    assert EncodeAll(codec, frames) + [] == EncodeAll(codec, frames);
  }

  /** The frame at the front of a stream. */
  ghost function Front(codec: Codec, s: seq<byte>): (f: Sent)
    requires FirstFrame(codec, s).Frame?
    ensures Legal(codec, f) && s == Encode(f) + FirstFrame(codec, s).rest &&
            Meaning(codec, f) == FirstFrame(codec, s).message
  {
    var head, count := U32(s[..4]), U32(s[4..8]);
    BytesOf(s[..4]); BytesOf(s[4..8]);
    FiveParts(s, 8 + head, 8 + head + count);
    Sent(s[8..8 + head], s[8 + head..8 + head + count])
  }

  lemma FiveParts(s: seq<byte>, i: nat, j: nat)
    requires 8 <= i <= j <= |s|
    ensures s == s[..4] + s[4..8] + s[8..i] + s[i..j] + s[j..]
  {}

  lemma BytesOf(b: seq<byte>)
    requires |b| == 4
    ensures U32(b) < 0x1_0000_0000 && Bytes32(U32(b)) == b
  {
    var n := U32(b);
    var n1: nat := b[1] as nat + 256 * (b[2] as nat + 256 * (b[3] as nat));
    var n2: nat := b[2] as nat + 256 * (b[3] as nat);
    assert n / 256 == n1 && n1 / 256 == n2 && n2 / 256 == b[3] as nat;
  }

  /** Every byte stream is a longest run of complete, legal frames and a tail that starts with none;
      the reader delivers exactly those frames and then one transport error. */
  lemma {:induction false} LongestPrefix(codec: Codec, s: seq<byte>) returns (frames: seq<Sent>, tail: seq<byte>)
    ensures AllLegal(codec, frames) && s == EncodeAll(codec, frames) + tail
    ensures FirstFrame(codec, tail).NoFrame?
    ensures Delivered(codec, s) == Meanings(codec, frames) + [Failed(codec, FirstFrame(codec, tail).stop)]
    decreases |s|
  {
    hide Delivered, FirstFrame, Failed, Encode, Meaning;
    var f := FirstFrame(codec, s);
    if f.NoFrame? {
      frames, tail := [], s;
    } else {
      var front := Front(codec, s);
      var more;
      more, tail := LongestPrefix(codec, f.rest);
      frames := [front] + more;
      assert frames[1..] == more;
      assert Encode(front) + (EncodeAll(codec, more) + tail) == EncodeAll(codec, frames) + tail;
    }
    EncodedDelivered(codec, frames, tail);
    DeliveredStep(codec, tail);
  }

  /** Bytes that arrive later never change what was delivered before the pipe ran dry. */
  lemma {:induction false} LaterBytes(codec: Codec, s: seq<byte>, more: seq<byte>)
    ensures var early := Delivered(codec, s);
            early[..|early| - 1] <= Delivered(codec, s + more)
  {
    hide Delivered, FirstFrame, Failed, Encode, Meaning;
    var frames, tail := LongestPrefix(codec, s);
    assert s + more == EncodeAll(codec, frames) + (tail + more);
    EncodedDelivered(codec, frames, tail + more);
  }
}
