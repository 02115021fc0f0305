/** What a run of requests and replies does to the messages of the browser runtime. */
module BrowserCalls {
  import opened Outcomes
  import opened BrowserRuntime

  /** The outcome of `|patience|` calls in a row, up to the first that fails. */
  datatype Session = Session(results: seq<Json>, aside: seq<Json>, rest: seq<Json>, ok: bool)

  ghost function Calls(messages: seq<Json>, first: nat, patience: seq<nat>): Session
    decreases |patience|
  {
    if patience == [] then Session([], [], messages, true) else
    var reply := Await(messages, first, patience[0]);
    if reply.result.Failure? then Session([], reply.aside, reply.rest, false) else
    var later := Calls(reply.rest, first + 1, patience[1..]);
    Session([reply.result.value] + later.results, reply.aside + later.aside, later.rest, later.ok)
  }

  /** Sorts a run of messages: the first that carries `first`, after it the first that carries
      `first + 1`, and so on are replies; all others are events. */
  datatype Parts = Parts(replies: seq<Json>, others: seq<Json>)

  ghost function Partition(messages: seq<Json>, first: nat): Parts {
    if messages == [] then Parts([], [])
    else if Carries(messages[0], first) then
      var s := Partition(messages[1..], first + 1);
      Parts([messages[0]] + s.replies, s.others)
    else
      var s := Partition(messages[1..], first);
      Parts(s.replies, [messages[0]] + s.others)
  }

  /** Nothing is lost or invented, and the `i`-th reply carries the `i`-th id. */
  lemma {:induction false} PartitionConserves(messages: seq<Json>, first: nat)
    ensures var s := Partition(messages, first);
            && multiset(messages) == multiset(s.replies) + multiset(s.others)
            && forall i | 0 <= i < |s.replies| :: s.replies[i] in messages && Carries(s.replies[i], first + i)
  {
    hide Carries, Partition;
    PartitionKeeps(messages, first);
    PartitionIds(messages, first);
    var s := Partition(messages, first);
    forall i | 0 <= i < |s.replies| ensures s.replies[i] in messages {
      assert s.replies[i] in multiset(s.replies);
      assert s.replies[i] in multiset(messages);
    }
  }

  lemma {:induction false} PartitionKeeps(messages: seq<Json>, first: nat)
    ensures var s := Partition(messages, first);
            multiset(messages) == multiset(s.replies) + multiset(s.others)
  {
    hide Carries;
    if messages != [] {
      assert messages == [messages[0]] + messages[1..];
      PartitionKeeps(messages[1..], if Carries(messages[0], first) then first + 1 else first);
    }
  }

  lemma {:induction false} PartitionIds(messages: seq<Json>, first: nat)
    ensures forall i | 0 <= i < |Partition(messages, first).replies| ::
            Carries(Partition(messages, first).replies[i], first + i)
  {
    hide Carries;
    if messages != [] {
      var replies := Partition(messages, first).replies;
      if Carries(messages[0], first) {
        PartitionIds(messages[1..], first + 1);
        var later := Partition(messages[1..], first + 1).replies;
        assert replies == [messages[0]] + later;
      } else {
        PartitionIds(messages[1..], first);
        assert replies == Partition(messages[1..], first).replies;
      }
    }
  }

  lemma {:induction false} PartitionAside(aside: seq<Json>, rest: seq<Json>, id: nat)
    requires forall m | m in aside :: !Carries(m, id)
    ensures Partition(aside + rest, id) == Parts(Partition(rest, id).replies, aside + Partition(rest, id).others)
  {
    if aside == [] {
      assert aside + rest == rest;
    } else {
      assert (aside + rest)[1..] == aside[1..] + rest;
      PartitionAside(aside[1..], rest, id);
    }
  }

  /** What one successful call took from the queue: its events, then its reply. */
  lemma {:induction false} AwaitTakes(messages: seq<Json>, id: nat, patience: nat)
    requires Await(messages, id, patience).result.Success?
    ensures var r := Await(messages, id, patience);
            && |r.aside| < |messages| && r.rest == messages[|r.aside| + 1..] && r.aside == messages[..|r.aside|]
            && (forall m | m in r.aside :: Readable(m) && !Carries(m, id))
            && var reply := messages[|r.aside|];
               Readable(reply) && Carries(reply, id) && Answers(reply) && r.result.value == reply.fields["result"]
    decreases |messages|
  {
    hide Carries;
    if !Carries(messages[0], id) {
      AwaitTakes(messages[1..], id, patience - 1);
      var r, later := Await(messages, id, patience), Await(messages[1..], id, patience - 1);
      assert r.aside == [messages[0]] + later.aside && messages[1..][|later.aside|] == messages[|r.aside|];
    }
  }

  /** `s` took a readable front part of `messages` and split it into replies and events. */
  ghost predicate Conserved(messages: seq<Json>, first: nat, s: Session, calls: nat) {
    && |s.rest| <= |messages|
    && var taken := messages[..|messages| - |s.rest|];
    && messages == taken + s.rest
    && (forall m | m in taken :: Readable(m))
    && s.aside == Partition(taken, first).others
    && |s.results| == |Partition(taken, first).replies| == calls
    && forall i | 0 <= i < calls ::
         Answers(Partition(taken, first).replies[i]) &&
           s.results[i] == Partition(taken, first).replies[i].fields["result"]
  }

  lemma ConservedFirst(messages: seq<Json>, first: nat, r: Reply, s: Session, calls: nat)
    requires |r.aside| < |messages| && r.rest == messages[|r.aside| + 1..] && r.aside == messages[..|r.aside|]
    requires forall m | m in r.aside :: Readable(m) && !Carries(m, first)
    requires var reply := messages[|r.aside|];
             Readable(reply) && Carries(reply, first) && Answers(reply) && r.result == Success(reply.fields["result"])
    requires Conserved(r.rest, first + 1, s, calls)
    ensures Conserved(messages, first, Session([r.result.value] + s.results, r.aside + s.aside, s.rest, true),
                      calls + 1)
  {
    hide Carries, Answers, Readable, Partition;
    var later := r.rest[..|r.rest| - |s.rest|];
    var reply := messages[|r.aside|];
    var taken := messages[..|messages| - |s.rest|];
    assert taken == r.aside + ([reply] + later);
    assert messages == taken + s.rest;
    forall m | m in taken ensures Readable(m) { assert m in r.aside || m == reply || m in later; }
    PartitionAside(r.aside, [reply] + later, first);
    PartitionReply(reply, later, first);
  }

  lemma PartitionReply(reply: Json, later: seq<Json>, first: nat)
    requires Carries(reply, first)
    ensures Partition([reply] + later, first) ==
            Parts([reply] + Partition(later, first + 1).replies, Partition(later, first + 1).others)
  {
    assert ([reply] + later)[1..] == later;
  }

  /** Over any run of successful calls: the messages taken are sorted into replies and events, the
      results are the replies' results call by call, and the events are all other messages in
      arrival order. */
  lemma {:induction false} CallsConserve(messages: seq<Json>, first: nat, patience: seq<nat>)
    requires Calls(messages, first, patience).ok
    ensures Conserved(messages, first, Calls(messages, first, patience), |patience|)
    decreases |patience|
  {
    hide Await, Conserved, Carries, Answers;
    if patience == [] {
      NothingTaken(messages, first);
    } else {
      var r := Await(messages, first, patience[0]);
      AwaitTakes(messages, first, patience[0]);
      CallsConserve(r.rest, first + 1, patience[1..]);
      ConservedFirst(messages, first, r, Calls(r.rest, first + 1, patience[1..]), |patience| - 1);
    }
  }

  lemma NothingTaken(messages: seq<Json>, first: nat)
    ensures Conserved(messages, first, Session([], [], messages, true), 0)
  {
    assert messages == [] + messages;
  }

  // ---------- the client's runs ----------

  /** The arguments of one call, and how many messages arrive before its deadline. */
  datatype Question = Question(name: string, params: Json, session: Option<string>, patience: nat)

  function Patience(run: seq<Question>): seq<nat> {
    seq(|run|, i requires 0 <= i < |run| => run[i].patience)
  }

  /** The requests of the first calls of a run. */
  function Requests(run: seq<Question>, first: nat): seq<Request> {
    seq(|run|, i requires 0 <= i < |run| =>
      Request(first + i, run[i].name, OrEmpty(run[i].params), run[i].session))
  }

  ghost function After(results: seq<Json>, aside: seq<Json>, s: Session): Session {
    Session(results + s.results, aside + s.aside, s.rest, s.ok)
  }

  lemma AfterCall(messages: seq<Json>, first: nat, run: seq<Question>, results: seq<Json>, aside: seq<Json>)
    requires run != []
    ensures var r := Await(messages, first, run[0].patience);
            After(results, aside, Calls(messages, first, Patience(run))) ==
              if r.result.Success? then
                After(results + [r.result.value], aside + r.aside, Calls(r.rest, first + 1, Patience(run[1..])))
              else Session(results, aside + r.aside, r.rest, false)
  {
    hide Await;
    assert Patience(run)[1..] == Patience(run[1..]);
    var r := Await(messages, first, run[0].patience);
    if r.result.Success? {
      var s := Calls(r.rest, first + 1, Patience(run[1..]));
      assert results + ([r.result.value] + s.results) == results + [r.result.value] + s.results;
      assert aside + (r.aside + s.aside) == aside + r.aside + s.aside;
    } else {
      assert results + [] == results;
    }
  }

  lemma AfterNothing(s: Session)
    ensures After([], [], s) == s
  {
    assert [] + s.results == s.results && [] + s.aside == s.aside;
  }

  lemma AfterAll(messages: seq<Json>, first: nat, results: seq<Json>, aside: seq<Json>)
    ensures After(results, aside, Calls(messages, first, Patience([]))) == Session(results, aside, messages, true)
  {
    assert results + [] == results && aside + [] == aside;
  }

  lemma RequestsSnoc(run: seq<Question>, k: nat, first: nat)
    requires k < |run|
    ensures Requests(run[..k + 1], first) ==
            Requests(run[..k], first) + [Request(first + k, run[k].name, OrEmpty(run[k].params), run[k].session)]
  {}

  /** Calls made on the client one after the other, up to the first that fails. Each is sent with an
      id of its own; the results are those of the replies to these ids in call order; the messages
      taken are these replies and the new events, and nothing else. */
  method MakeCalls(runtime: Runtime, run: seq<Question>) returns (results: seq<Json>, ok: bool)
    modifies runtime`next, runtime`sent, runtime`messages, runtime`events
    ensures var s := Calls(old(runtime.messages), old(runtime.next) + 1, Patience(run));
            && results == s.results && ok == s.ok
            && runtime.messages == s.rest && runtime.events == old(runtime.events) + s.aside
    ensures var made := |results| + if ok then 0 else 1;
            && made <= |run| && runtime.next == old(runtime.next) + made
            && runtime.sent == old(runtime.sent) + Requests(run[..made], old(runtime.next) + 1)
    ensures ok ==> Conserved(old(runtime.messages), old(runtime.next) + 1,
                             Session(results, runtime.events[|old(runtime.events)|..], runtime.messages, true), |run|)
  {
    hide Await, Calls, Conserved, Requests, Patience, After;
    ghost var first := runtime.next + 1;
    ghost var aside: seq<Json> := [];
    ghost var whole := Calls(runtime.messages, first, Patience(run));
    results := [];
    AfterNothing(whole);
    NoRequests(run, first);
    for k := 0 to |run|
      invariant |results| == k && runtime.next + 1 == first + k && runtime.events == old(runtime.events) + aside
      invariant runtime.sent == old(runtime.sent) + Requests(run[..k], first)
      invariant After(results, aside, Calls(runtime.messages, first + k, Patience(run[k..]))) == whole
    {
      assert run[k..][0] == run[k] && run[k..][1..] == run[k + 1..];
      AfterCall(runtime.messages, first + k, run[k..], results, aside);
      RequestsSnoc(run, k, first);
      ghost var reply := Await(runtime.messages, first + k, run[k].patience);
      var r := runtime.Call(run[k].name, run[k].params, run[k].session, run[k].patience);
      aside := aside + reply.aside;
      if r.Failure? {
        return results, false;
      }
      results := results + [r.value];
    }
    assert run[|run|..] == [] && run[..|run|] == run;
    AfterAll(runtime.messages, first + |run|, results, aside);
    CallsConserve(old(runtime.messages), first, Patience(run));
    PatienceLength(run);
    assert runtime.events[|old(runtime.events)|..] == aside;
    return results, true;
  }

  lemma NoRequests(run: seq<Question>, first: nat)
    ensures run[..0] == [] && run[0..] == run && Requests(run[..0], first) == []
  {}

  lemma PatienceLength(run: seq<Question>)
    ensures |Patience(run)| == |run|
  {}

  /** A call succeeds as soon as its reply is in the queue behind readable messages. */
  lemma {:induction false} AwaitFinds(messages: seq<Json>, id: nat, patience: nat, k: nat)
    requires k < |messages| && k < patience
    requires forall i | 0 <= i <= k :: Readable(messages[i])
    requires forall i | 0 <= i < k :: !Carries(messages[i], id)
    requires Carries(messages[k], id) && Answers(messages[k])
    ensures Await(messages, id, patience) ==
            Reply(Success(messages[k].fields["result"]), messages[..k], messages[k + 1..])
    decreases k
  {
    if k > 0 {
      AwaitFinds(messages[1..], id, patience - 1, k - 1);
      assert [messages[0]] + messages[1..][..k - 1] == messages[..k];
      assert messages[1..][k..] == messages[k + 1..];
    } else {
      assert messages[..0] == [];
    }
  }

  ghost function Position(messages: seq<Json>, id: nat): (k: nat)
    ensures k <= |messages|
    ensures forall i | 0 <= i < k :: !Carries(messages[i], id)
    ensures k < |messages| ==> Carries(messages[k], id)
  {
    if messages == [] || Carries(messages[0], id) then 0 else Position(messages[1..], id) + 1
  }

  /** The replies a run of `calls` calls needs: enough of them, and good ones. */
  ghost predicate Ready(messages: seq<Json>, first: nat, calls: nat) {
    && (forall m | m in messages :: Readable(m))
    && calls <= |Partition(messages, first).replies|
    && forall i | 0 <= i < calls :: Answers(Partition(messages, first).replies[i])
  }

  lemma ReadyFirst(messages: seq<Json>, first: nat, calls: nat)
    requires Ready(messages, first, calls) && calls > 0
    ensures var k := Position(messages, first);
            && k < |messages| && Answers(messages[k])
            && Ready(messages[k + 1..], first + 1, calls - 1)
  {
    hide Carries, Answers, Readable, Position, Partition;
    var k := Position(messages, first);
    assert messages == messages[..k] + messages[k..];
    PartitionAside(messages[..k], messages[k..], first);
    NothingToPartition(first);
    assert k < |messages|;
    var rest := messages[k + 1..];
    assert messages[k..] == [messages[k]] + rest;
    PartitionReply(messages[k], rest, first);
    var replies := Partition(rest, first + 1).replies;
    assert Partition(messages, first).replies == [messages[k]] + replies;
    assert Answers(Partition(messages, first).replies[0]);
    forall i | 0 <= i < calls - 1 ensures Answers(replies[i]) {
      assert replies[i] == Partition(messages, first).replies[i + 1];
    }
    forall m | m in rest ensures Readable(m) { assert m in messages; }
  }

  lemma NothingToPartition(first: nat)
    ensures Partition([], first) == Parts([], [])
  {}

  /** If readable messages hold enough good replies in call order, every call of the run succeeds,
      whatever else is mixed in between and whatever follows. */
  lemma {:induction false} CallsSucceed(messages: seq<Json>, tail: seq<Json>, first: nat, patience: seq<nat>)
    requires Ready(messages, first, |patience|)
    requires forall i | 0 <= i < |patience| :: patience[i] >= |messages|
    ensures Calls(messages + tail, first, patience).ok
    decreases |patience|
  {
    hide Carries, Answers, Await, Partition, Ready;
    if patience != [] {
      var k := Position(messages, first);
      var all := messages + tail;
      ReadyFirst(messages, first, |patience|);
      AllReadable(messages, first, |patience|);
      assert forall i | 0 <= i <= k :: all[i] == messages[i];
      AwaitFinds(all, first, patience[0], k);
      var rest := messages[k + 1..];
      assert all[k + 1..] == rest + tail;
      CallsSucceed(rest, tail, first + 1, patience[1..]);
    }
  }

  lemma AllReadable(messages: seq<Json>, first: nat, calls: nat)
    requires Ready(messages, first, calls)
    ensures forall i | 0 <= i < |messages| :: Readable(messages[i])
  {}

  /** End to end: the frames the runtime wrote, split by the pipe in any way, answer the calls. */
  lemma FramesAnswerCalls(codec: Codec, frames: seq<Sent>, first: nat, patience: seq<nat>)
    requires AllLegal(codec, frames)
    requires Ready(Meanings(codec, frames), first, |patience|)
    requires forall i | 0 <= i < |patience| :: patience[i] >= |frames|
    ensures Calls(Delivered(codec, EncodeAll(codec, frames)), first, patience).ok
  {
    RoundTrip(codec, frames);
    CallsSucceed(Meanings(codec, frames), [Failed(codec, Disconnected)], first, patience);
  }

  lemma {:induction false} PartitionFront(a: seq<Json>, b: seq<Json>, first: nat)
    ensures Partition(a, first).replies <= Partition(a + b, first).replies
    decreases |a|
  {
    hide Carries;
    if a != [] {
      assert (a + b)[1..] == a[1..] + b;
      PartitionFront(a[1..], b, if Carries(a[0], first) then first + 1 else first);
    }
  }

  /** The replies of any two front parts agree as far as both go. */
  lemma SameReplies(all: seq<Json>, a: seq<Json>, b: seq<Json>, first: nat, i: nat)
    requires a <= all && b <= all && i < |Partition(a, first).replies| && i < |Partition(b, first).replies|
    ensures Partition(a, first).replies[i] == Partition(b, first).replies[i]
  {
    hide Partition;
    PartitionFront(a, all[|a|..], first);
    PartitionFront(b, all[|b|..], first);
    assert a + all[|a|..] == all && b + all[|b|..] == all;
  }

  /** The client end to end: a pipe that holds written frames, in reads of any sizes, a reader thread
      that runs to the end of the pipe, and then a run of calls. Every call succeeds with the result of
      its own reply, and the events are the other messages in front of the last reply, in order. */
  method ReadAndCall(runtime: Runtime, codec: Codec, ghost frames: seq<Sent>, run: seq<Question>)
    returns (results: seq<Json>, ok: bool)
    requires runtime.messages == [] && AllLegal(codec, frames) && runtime.pipe.data == EncodeAll(codec, frames)
    requires Ready(Meanings(codec, frames), runtime.next + 1, |run|)
    requires forall i | 0 <= i < |run| :: run[i].patience >= |frames|
    modifies runtime`next, runtime`sent, runtime`messages, runtime`events, runtime.pipe
    ensures ok && |results| == |run| <= |Partition(Meanings(codec, frames), old(runtime.next) + 1).replies|
    ensures forall i | 0 <= i < |run| ::
              var reply := Partition(Meanings(codec, frames), old(runtime.next) + 1).replies[i];
              Answers(reply) && Carries(reply, old(runtime.next) + 1 + i) && results[i] == reply.fields["result"]
    ensures var all := Meanings(codec, frames) + [Failed(codec, Disconnected)];
            && |runtime.messages| <= |all| && runtime.messages == all[|all| - |runtime.messages|..]
            && runtime.events == old(runtime.events) +
               Partition(all[..|all| - |runtime.messages|], old(runtime.next) + 1).others
  {
    hide Delivered, EncodeAll, Failed, Calls, Partition, Carries, Requests;
    ghost var first := runtime.next + 1;
    ghost var written := Meanings(codec, frames);
    ghost var all := written + [Failed(codec, Disconnected)];
    RoundTrip(codec, frames);
    runtime.Read(codec);
    assert runtime.messages == all;
    CallsSucceed(written, [Failed(codec, Disconnected)], first, Patience(run));
    PartitionConserves(written, first);
    results, ok := MakeCalls(runtime, run);
    ghost var taken := all[..|all| - |runtime.messages|];
    assert all == taken + runtime.messages;
    forall i | 0 <= i < |run|
      ensures Answers(Partition(written, first).replies[i]) &&
              results[i] == Partition(written, first).replies[i].fields["result"]
    {
      SameReplies(all, taken, written, first, i);
    }
  }
}
