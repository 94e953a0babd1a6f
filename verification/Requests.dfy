/**
  Asynchronous requests of a guest: the messages each kind sends, the host's runner, and the guest's table of pending
  ids.
 */
module Requests {
  import opened Wrappers

  type Bytes(==, !new)

  datatype AsyncResult = AsyncResult(id: nat, value: Option<Bytes>, finished: bool)

  /** A request, with what its server is going to answer. */
  datatype Request =
    | Http(meta: Bytes, body: Bytes)
    | HttpStream(meta: Bytes, chunks: seq<Bytes>)
    | Delay

  /** Messages in the order a request sends them. */
  function Script(id: nat, request: Request): seq<AsyncResult>
  {
    match request
    case Http(meta, body) => [AsyncResult(id, Some(meta), false), AsyncResult(id, Some(body), true)]
    case HttpStream(meta, chunks) =>
      [AsyncResult(id, Some(meta), false)] + Chunks(id, chunks) + [AsyncResult(id, None, true)]
    case Delay => [AsyncResult(id, None, true)]
  }

  function Chunks(id: nat, chunks: seq<Bytes>): (r: seq<AsyncResult>)
    ensures |r| == |chunks|
  {
    if chunks == [] then []
      else Chunks(id, chunks[..|chunks| - 1]) + [AsyncResult(id, Some(chunks[|chunks| - 1]), false)]
  }

  lemma {:induction false} ChunksShape(id: nat, chunks: seq<Bytes>)
    ensures forall i :: 0 <= i < |chunks| ==> Chunks(id, chunks)[i] == AsyncResult(id, Some(chunks[i]), false)
    decreases |chunks|
  {
    if chunks != [] { ChunksShape(id, chunks[..|chunks| - 1]); }
  }

  /** Every script carries its id throughout, and says that it is finished exactly at its last message. */
  lemma ScriptShape(id: nat, request: Request)
    ensures Script(id, request) != []
    ensures forall i :: 0 <= i < |Script(id, request)| ==>
      Script(id, request)[i].id == id && (Script(id, request)[i].finished <==> i == |Script(id, request)| - 1)
  {
    if request.HttpStream? { ChunksShape(id, request.chunks); }
  }

  // ---- the flow of messages ----

  /** The messages of one id, in order. */
  function Of(s: seq<AsyncResult>, id: nat): seq<AsyncResult>
  {
    if s == [] then [] else Of(s[..|s| - 1], id) + if s[|s| - 1].id == id then [s[|s| - 1]] else []
  }

  lemma {:induction false} OfConcat(s: seq<AsyncResult>, t: seq<AsyncResult>, id: nat)
    ensures Of(s + t, id) == Of(s, id) + Of(t, id)
    decreases |t|
  {
    if t == [] {
      assert s + t == s;
    } else {
      var n := |t| - 1;
      assert (s + t)[..|s + t| - 1] == s + t[..n];
      OfConcat(s, t[..n], id);
    }
  }

  lemma OfOne(s: seq<AsyncResult>, m: AsyncResult, id: nat)
    ensures Of(s + [m], id) == Of(s, id) + if m.id == id then [m] else []
  {
    assert (s + [m])[..|s|] == s;
  }

  /**
    Everything that has happened to a guest's requests: the requests made, how many messages each has sent, the
    channel, the messages handed to the guest so far, and the ids in the guest's table.
   */
  datatype Flow = Flow(requests: map<nat, Request>, sent: map<nat, nat>, channel: seq<AsyncResult>,
    delivered: seq<AsyncResult>, table: set<nat>)

  /** What has left the runner for an id, in order, is the part of its script it has sent. */
  ghost predicate InOrder(f: Flow, taken: seq<AsyncResult>, id: nat)
    requires id in f.requests && id in f.sent
  {
    && f.sent[id] <= |Script(id, f.requests[id])|
    && Of(f.delivered + taken + f.channel, id) == Script(id, f.requests[id])[..f.sent[id]]
    && (id in f.table <==> |Of(f.delivered, id)| < |Script(id, f.requests[id])|)
  }

  /** `taken` is what has left the channel and is about to be handed over. */
  ghost predicate Flowing(f: Flow, taken: seq<AsyncResult>)
  {
    && f.sent.Keys == f.requests.Keys && f.table <= f.requests.Keys
    && (forall id :: id in f.requests ==> InOrder(f, taken, id))
    && (forall m :: m in f.delivered + taken + f.channel ==> m.id in f.requests)
  }

  function Issued(f: Flow, id: nat, request: Request): Flow
  {
    f.(requests := f.requests[id := request], sent := f.sent[id := 0], table := f.table + {id})
  }

  function Sent(f: Flow, id: nat): Flow
    requires id in f.requests && id in f.sent && f.sent[id] < |Script(id, f.requests[id])|
  {
    f.(sent := f.sent[id := f.sent[id] + 1], channel := f.channel + [Script(id, f.requests[id])[f.sent[id]]])
  }

  function Received(f: Flow): Flow
    requires f.channel != []
  {
    f.(channel := f.channel[1..])
  }

  function Delivered(f: Flow, m: AsyncResult): Flow
  {
    f.(delivered := f.delivered + [m], table := if m.finished then f.table - {m.id} else f.table)
  }

  lemma {:induction false} OfNothing(s: seq<AsyncResult>, id: nat)
    requires forall m :: m in s ==> m.id != id
    ensures Of(s, id) == []
    decreases |s|
  {
    if s != [] { OfNothing(s[..|s| - 1], id); }
  }

  lemma IssueKeepsFlowing(f: Flow, taken: seq<AsyncResult>, id: nat, request: Request)
    requires Flowing(f, taken) && id !in f.requests
    ensures Flowing(Issued(f, id, request), taken)
  {
    var f' := Issued(f, id, request);
    OfNothing(f.delivered + taken + f.channel, id);
    OfNothing(f.delivered, id);
    ScriptShape(id, request);
    forall i | i in f'.requests ensures InOrder(f', taken, i) {
      if i != id { assert InOrder(f, taken, i); }
    }
  }

  lemma SendKeepsOrder(f: Flow, taken: seq<AsyncResult>, id: nat, i: nat)
    requires Flowing(f, taken) && id in f.requests && f.sent[id] < |Script(id, f.requests[id])| && i in f.requests
    ensures InOrder(Sent(f, id), taken, i)
  {
    hide Script;
    var script := Script(id, f.requests[id]);
    var m := script[f.sent[id]];
    ScriptShape(id, f.requests[id]);
    var all := f.delivered + taken + f.channel;
    assert f.delivered + taken + (f.channel + [m]) == all + [m];
    assert InOrder(f, taken, i);
    OfOne(all, m, i);
    if i == id { assert script[..f.sent[id] + 1] == script[..f.sent[id]] + [m]; }
  }

  lemma SendKeepsFlowing(f: Flow, taken: seq<AsyncResult>, id: nat)
    requires Flowing(f, taken) && id in f.requests && f.sent[id] < |Script(id, f.requests[id])|
    ensures Flowing(Sent(f, id), taken)
  {
    hide Script, Of;
    ScriptShape(id, f.requests[id]);
    forall i | i in f.requests ensures InOrder(Sent(f, id), taken, i) { SendKeepsOrder(f, taken, id, i); }
  }

  lemma ReceiveKeepsFlowing(f: Flow)
    requires Flowing(f, []) && f.channel != []
    ensures Flowing(Received(f), [f.channel[0]])
  {
    var f' := Received(f);
    assert f'.delivered + [f.channel[0]] + f'.channel == f.delivered + [] + f.channel;
    forall i | i in f'.requests ensures InOrder(f', [f.channel[0]], i) { assert InOrder(f, [], i); }
  }

  lemma NextInScript(a: seq<AsyncResult>, m: AsyncResult, rest: seq<AsyncResult>, script: seq<AsyncResult>, n: nat)
    requires n <= |script| && a + [m] + rest == script[..n]
    ensures |a| < |script| && m == script[|a|] && a + [m] == script[..|a| + 1]
  {
    var whole := a + [m] + rest;
    assert whole[|a|] == m;
    assert whole[..|a| + 1] == a + [m];
    assert script[..n][..|a| + 1] == script[..|a| + 1];
  }

  /** The message about to be handed over is the next one in its script. */
  lemma TakenIsNext(f: Flow, m: AsyncResult)
    requires Flowing(f, [m])
    ensures m.id in f.requests && m.id in f.table
    ensures var k, script := |Of(f.delivered, m.id)|, Script(m.id, f.requests[m.id]);
      k < |script| && m == script[k] && Of(f.delivered, m.id) + [m] == script[..k + 1]
  {
    hide Script;
    var id := m.id;
    assert m in f.delivered + [m] + f.channel;
    assert InOrder(f, [m], id);
    OfConcat(f.delivered + [m], f.channel, id);
    OfOne(f.delivered, m, id);
    NextInScript(Of(f.delivered, id), m, Of(f.channel, id), Script(id, f.requests[id]), f.sent[id]);
  }

  /** A message about to be handed over names a registered id, and is finished exactly when it is the id's last. */
  lemma TakenIsRegistered(f: Flow, m: AsyncResult)
    requires Flowing(f, [m])
    ensures m.id in f.requests && m.id in f.table
    ensures m.finished <==> Of(f.delivered + [m], m.id) == Script(m.id, f.requests[m.id])
  {
    hide Script, Flowing;
    TakenIsNext(f, m);
    OfOne(f.delivered, m, m.id);
    ScriptShape(m.id, f.requests[m.id]);
  }

  lemma DeliverKeepsFlowing(f: Flow, m: AsyncResult)
    requires Flowing(f, [m])
    ensures Flowing(Delivered(f, m), [])
  {
    hide Script;
    var f' := Delivered(f, m);
    TakenIsNext(f, m);
    assert f'.delivered + [] + f'.channel == f.delivered + [m] + f.channel;
    forall i | i in f'.requests ensures InOrder(f', [], i) { DeliverKeepsOrder(f, m, i); }
  }

  lemma DeliverKeepsOrder(f: Flow, m: AsyncResult, i: nat)
    requires Flowing(f, [m]) && i in f.requests
    ensures i in f.sent && InOrder(Delivered(f, m), [], i)
  {
    hide Script;
    var f' := Delivered(f, m);
    assert f'.delivered + [] + f'.channel == f.delivered + [m] + f.channel;
    assert InOrder(f, [m], i);
    OfOne(f.delivered, m, i);
    TakenIsNext(f, m);
    ScriptShape(m.id, f.requests[m.id]);
  }

  /** Each id's messages reach the guest in the order of its script. */
  lemma DeliveredInOrder(f: Flow, taken: seq<AsyncResult>, id: nat)
    requires Flowing(f, taken) && id in f.requests
    ensures Of(f.delivered, id) <= Script(id, f.requests[id])
  {
    hide Script;
    assert InOrder(f, taken, id);
    OfConcat(f.delivered + taken, f.channel, id);
    OfConcat(f.delivered, taken, id);
  }

  /**
    What a guest has been handed of a request, as far as it has come, and everything once it waits no longer: a plain
    answer is the head and then the body; a streamed one the head, the chunks, and an end; a delay ends without a value.
   */
  ghost predicate Answers(d: seq<AsyncResult>, id: nat, request: Request, waiting: bool)
  {
    && (forall m :: m in d ==> m.id == id)
    && match request
       case Http(meta, body) =>
         && |d| <= 2 && (waiting <==> |d| < 2)
         && (|d| > 0 ==> d[0].value == Some(meta) && !d[0].finished)
         && (|d| > 1 ==> d[1].value == Some(body) && d[1].finished)
       case HttpStream(meta, chunks) =>
         && |d| <= |chunks| + 2 && (waiting <==> |d| < |chunks| + 2)
         && (|d| > 0 ==> d[0].value == Some(meta) && !d[0].finished)
         && (forall i :: 0 <= i < |chunks| && i + 1 < |d| ==> d[i + 1].value == Some(chunks[i]) && !d[i + 1].finished)
         && (|d| == |chunks| + 2 ==> d[|chunks| + 1].value == None && d[|chunks| + 1].finished)
       case Delay =>
         |d| <= 1 && (waiting <==> |d| < 1) && (|d| > 0 ==> d[0].value == None && d[0].finished)
  }

  /** A script, as far as it has come, is an answer. */
  lemma PrefixAnswers(d: seq<AsyncResult>, id: nat, request: Request)
    requires d <= Script(id, request)
    ensures Answers(d, id, request, |d| < |Script(id, request)|)
  {
    var script := Script(id, request);
    ScriptShape(id, request);
    assert forall i :: 0 <= i < |d| ==> d[i] == script[i];
    if request.HttpStream? { StreamScript(id, request.meta, request.chunks); }
  }

  /** Head, chunks, end. */
  lemma StreamScript(id: nat, meta: Bytes, chunks: seq<Bytes>)
    ensures var script := Script(id, HttpStream(meta, chunks));
      && |script| == |chunks| + 2
      && script[0] == AsyncResult(id, Some(meta), false) && script[|chunks| + 1] == AsyncResult(id, None, true)
      && forall i :: 0 <= i < |chunks| ==> script[i + 1] == AsyncResult(id, Some(chunks[i]), false)
  {
    ChunksShape(id, chunks);
  }

  /** Whatever has been handed over answers what was asked, in order and with the server's values. */
  lemma DeliveredAnswers(f: Flow, taken: seq<AsyncResult>, id: nat)
    requires Flowing(f, taken) && id in f.requests
    ensures Answers(Of(f.delivered, id), id, f.requests[id], id in f.table)
  {
    hide Script, Answers;
    DeliveredInOrder(f, taken, id);
    PrefixAnswers(Of(f.delivered, id), id, f.requests[id]);
    assert InOrder(f, taken, id);
  }

  // ---- runs ----

  /**
    What can happen: the guest makes a request, an operation sends, the host takes a message, the guest is handed it.
   */
  datatype FlowStep = Issue(id: nat, request: Request) | Send(id: nat) | Take | Handover

  /** The step leads from one state of the flow, with what has been taken, to the next. */
  ghost predicate FlowsTo(f: Flow, taken: Option<AsyncResult>, step: FlowStep, f': Flow, taken': Option<AsyncResult>)
  {
    match step
    case Issue(id, request) => taken == None && id !in f.requests && f' == Issued(f, id, request) && taken' == None
    case Send(id) => id in f.requests && id in f.sent && f.sent[id] < |Script(id, f.requests[id])| &&
      f' == Sent(f, id) && taken' == taken
    case Take => taken == None && f.channel != [] && f' == Received(f) && taken' == Some(f.channel[0])
    case Handover => taken.Some? && f' == Delivered(f, taken.value) && taken' == None
  }

  datatype FlowState = FlowState(flow: Flow, taken: Option<AsyncResult>)

  ghost predicate IsFlowRun(states: seq<FlowState>, steps: seq<FlowStep>)
  {
    && |states| == |steps| + 1
    && states[0] == FlowState(Flow(map[], map[], [], [], {}), None)
    && forall n :: 0 <= n < |steps| ==>
      FlowsTo(states[n].flow, states[n].taken, steps[n], states[n + 1].flow, states[n + 1].taken)
  }

  function Taken(s: FlowState): seq<AsyncResult>
  {
    if s.taken.Some? then [s.taken.value] else []
  }

  lemma {:induction false} RunsFlow(states: seq<FlowState>, steps: seq<FlowStep>, n: nat)
    requires IsFlowRun(states, steps) && n <= |steps|
    ensures Flowing(states[n].flow, Taken(states[n]))
    decreases n
  {
    hide Flowing, Script;
    if n == 0 {
      NothingFlows();
    } else {
      RunsFlow(states, steps, n - 1);
      var s := states[n - 1];
      assert FlowsTo(s.flow, s.taken, steps[n - 1], states[n].flow, states[n].taken);
      match steps[n - 1] {
        case Issue(id, request) => IssueKeepsFlowing(s.flow, Taken(s), id, request);
        case Send(id) => SendKeepsFlowing(s.flow, Taken(s), id);
        case Take => ReceiveKeepsFlowing(s.flow);
        case Handover => DeliverKeepsFlowing(s.flow, s.taken.value);
      }
    }
  }

  lemma NothingFlows()
    ensures Flowing(Flow(map[], map[], [], [], {}), [])
  {}

  /**
    Over all runs: what the guest is handed names an id in its table, is the next message of that id's script, and is
    marked finished exactly when it is the last; an id leaves the table then and not before.
   */
  lemma ResultDelivery(states: seq<FlowState>, steps: seq<FlowStep>, n: nat)
    requires IsFlowRun(states, steps) && n < |steps| && steps[n] == Handover
    ensures states[n].taken.Some?
    ensures var f, m := states[n].flow, states[n].taken.value;
      && m.id in f.table && m.id in f.requests
      && var script := Script(m.id, f.requests[m.id]);
      && |Of(f.delivered, m.id)| < |script| && m == script[|Of(f.delivered, m.id)|]
      && (m.finished <==> |Of(f.delivered, m.id)| == |script| - 1)
      && (m.id in states[n + 1].flow.table <==> !m.finished)
  {
    hide Flowing, Script;
    RunsFlow(states, steps, n);
    assert FlowsTo(states[n].flow, states[n].taken, steps[n], states[n + 1].flow, states[n + 1].taken);
    var f, m := states[n].flow, states[n].taken.value;
    TakenIsNext(f, m);
    ScriptShape(m.id, f.requests[m.id]);
  }

  /** Over all runs: the answers the guest gets, and that it has them in full once it waits no longer. */
  lemma RunsAnswer(states: seq<FlowState>, steps: seq<FlowStep>, n: nat, id: nat)
    requires IsFlowRun(states, steps) && n <= |steps| && id in states[n].flow.requests
    ensures Answers(Of(states[n].flow.delivered, id), id, states[n].flow.requests[id], id in states[n].flow.table)
  {
    hide Flowing, Answers, Script;
    RunsFlow(states, steps, n);
    DeliveredAnswers(states[n].flow, Taken(states[n]), id);
  }

  // ---- the guest's table ----

  /** What a pending future and the table share. */
  datatype AsyncState = AsyncState(hasValue: bool, value: Option<Bytes>)

  const NO_VALUE := AsyncState(false, None)

  function Woken(state: AsyncState, value: Option<Bytes>): AsyncState
  {
    AsyncState(true, if value.Some? then value else state.value)
  }

  /** The table of pending ids in the guest's memory, and the states its futures hold on to. */
  class GuestTable {
    var pending: set<nat>
    var states: map<nat, AsyncState>

    /** What waits has a state, and a state without a value to give has none left over. */
    ghost predicate Valid()
      reads this
    {
      pending <= states.Keys && forall id :: id in states && !states[id].hasValue ==> states[id] == NO_VALUE
    }

    constructor ()
      ensures pending == {} && states == map[] && Valid()
    {
      pending, states := {}, map[];
    }

    method StartAsync(futureId: nat)
      requires Valid()
      modifies this
      ensures Valid() && pending == old(pending) + {futureId} && states == old(states)[futureId := NO_VALUE]
    {
      states := states[futureId := NO_VALUE];
      pending := pending + {futureId};
    }

    /** The exported `wakeup`, up to running the guest; it panics in the source unless the id is registered. */
    method Wakeup(m: AsyncResult)
      requires Valid() && m.id in pending
      modifies this
      ensures Valid() && pending == if m.finished then old(pending) - {m.id} else old(pending)
      ensures m.id in old(states) && states == old(states)[m.id := Woken(old(states)[m.id], m.value)]
      ensures states[m.id].hasValue
      ensures states[m.id].value == if m.value.Some? then m.value else old(states)[m.id].value
      ensures !old(states)[m.id].hasValue ==> states[m.id] == AsyncState(true, m.value)
    {
      var state := states[m.id];
      if m.value.Some? {
        state := state.(value := m.value);
      }
      state := state.(hasValue := true);
      states := states[m.id := state];
      if m.finished {
        pending := pending - {m.id};
      }
    }

    /** Polling a future takes its value, once. */
    method PollState(id: nat) returns (r: Option<Option<Bytes>>)
      requires Valid() && id in states
      modifies this`states
      ensures Valid() && states == old(states)[id := NO_VALUE]
      ensures r == if old(states)[id].hasValue then Some(old(states)[id].value) else None
    {
      if states[id].hasValue {
        r := Some(states[id].value);
        states := states[id := NO_VALUE];
      } else {
        r := None;
      }
    }
  }

  /** What happens to one future. */
  datatype FutureEvent = Wake(value: Option<Bytes>) | Poll

  function StateAfter(events: seq<FutureEvent>): AsyncState
  {
    if events == [] then NO_VALUE
    else
      match events[|events| - 1]
      case Wake(value) => Woken(StateAfter(events[..|events| - 1]), value)
      case Poll => NO_VALUE
  }

  /** The values a future is woken with. */
  function Handed(events: seq<FutureEvent>): seq<Option<Bytes>>
  {
    if events == [] then []
    else Handed(events[..|events| - 1]) + if events[|events| - 1].Wake? then [events[|events| - 1].value] else []
  }

  /** The values polling it gives. */
  function Read(events: seq<FutureEvent>): seq<Option<Bytes>>
  {
    if events == [] then []
    else
      var before := StateAfter(events[..|events| - 1]);
      Read(events[..|events| - 1]) + if events[|events| - 1].Poll? && before.hasValue then [before.value] else []
  }

  /** It is woken while it has a value nobody has polled. */
  predicate Overwritten(events: seq<FutureEvent>)
  {
    events != [] &&
    var before := events[..|events| - 1];
    Overwritten(before) || (events[|events| - 1].Wake? && StateAfter(before).hasValue)
  }

  /** What polling has given, and will give next. */
  function ReadOrReady(events: seq<FutureEvent>): seq<Option<Bytes>>
  {
    Read(events) + if StateAfter(events).hasValue then [StateAfter(events).value] else []
  }

  lemma {:induction false} ReadBounds(events: seq<FutureEvent>)
    ensures !StateAfter(events).hasValue ==> StateAfter(events) == NO_VALUE
    ensures |ReadOrReady(events)| <= |Handed(events)|
    ensures Overwritten(events) ==> |ReadOrReady(events)| < |Handed(events)|
    ensures !Overwritten(events) ==> ReadOrReady(events) == Handed(events)
    decreases |events|
  {
    if events != [] {
      ReadBounds(events[..|events| - 1]);
    }
  }

  /** A value replaces whatever nobody has polled, and stays until it is polled or replaced. */
  lemma {:induction false} LastValueStays(events: seq<FutureEvent>, i: nat)
    requires i < |events| && events[i].Wake? && events[i].value.Some?
    requires forall j :: i < j < |events| ==> events[j] == Wake(None)
    ensures StateAfter(events) == AsyncState(true, events[i].value)
    decreases |events|
  {
    if i < |events| - 1 { LastValueStays(events[..|events| - 1], i); }
  }

  /** Without a value since the last poll there is none, however often the future is woken. */
  lemma {:induction false} NoValueSincePoll(events: seq<FutureEvent>, i: nat)
    requires i < |events| && events[i].Poll? && forall j :: i < j < |events| ==> events[j] == Wake(None)
    ensures StateAfter(events) == AsyncState(i < |events| - 1, None)
    decreases |events|
  {
    if i < |events| - 1 { NoValueSincePoll(events[..|events| - 1], i); }
  }

  /** A future gives all it is woken with, in order, exactly when it is polled between any two wake-ups. */
  lemma NothingLostIffPolledBetween(events: seq<FutureEvent>)
    ensures ReadOrReady(events) == Handed(events) <==> !Overwritten(events)
  {
    ReadBounds(events);
  }

  // ---- the host's runner ----

  const CHANNEL_CAPACITY: nat := 10

  datatype OpPoll = NoOps | OpsPending | OpDone(isWebCall: bool) | OpFailed

  /** How an operation is taken out: it has sent everything, or an error has cut it short. */
  datatype Ending = Done(id: nat) | Failed(id: nat)

  /** An operation under way: its request, and how many messages it has sent. */
  datatype Op = Op(request: Request, sent: nat)

  /** The operations are those of the requests made, and none is gone that has not sent everything. */
  ghost predicate OpsMatch(ops: map<nat, Op>, f: Flow)
  {
    && f.sent.Keys == f.requests.Keys && ops.Keys <= f.requests.Keys
    && (forall id :: id in ops ==>
      ops[id] == Op(f.requests[id], f.sent[id]) && f.sent[id] <= |Script(id, f.requests[id])|)
    && (forall id :: id in f.requests && id !in ops ==> f.sent[id] == |Script(id, f.requests[id])|)
  }

  lemma OpsMatchIssue(ops: map<nat, Op>, f: Flow, id: nat, request: Request)
    requires OpsMatch(ops, f) && id !in f.requests
    ensures OpsMatch(ops[id := Op(request, 0)], Issued(f, id, request)) && id !in ops
  {}

  lemma OpsMatchSend(ops: map<nat, Op>, f: Flow, id: nat)
    requires OpsMatch(ops, f) && id in ops && !AllSent(ops, id)
    ensures id in f.requests && id in f.sent && f.sent[id] == ops[id].sent && f.requests[id] == ops[id].request
    ensures OpsMatch(ops[id := ops[id].(sent := ops[id].sent + 1)], Sent(f, id))
  {}

  lemma OpsMatchDone(ops: map<nat, Op>, f: Flow, id: nat)
    requires OpsMatch(ops, f) && id in ops && AllSent(ops, id)
    ensures OpsMatch(ops - {id}, f)
  {}

  /** The operations under way, and all messages. */
  datatype RunnerState = RunnerState(ops: map<nat, Op>, flow: Flow)

  predicate AllSent(ops: map<nat, Op>, id: nat)
    requires id in ops
  {
    ops[id].sent >= |Script(id, ops[id].request)|
  }

  /** An operation sends its next message, if it has one and the channel has room for it. */
  function Sending(s: RunnerState, id: nat): (r: RunnerState)
    ensures r.ops.Keys == s.ops.Keys
  {
    if id in s.ops && |s.flow.channel| < CHANNEL_CAPACITY && !AllSent(s.ops, id) then
      var op := s.ops[id];
      RunnerState(
        s.ops[id := op.(sent := op.sent + 1)],
        s.flow.(sent := s.flow.sent[id := op.sent + 1], channel := s.flow.channel + [Script(id, op.request)[op.sent]]))
    else s
  }

  function SendAll(s: RunnerState, progress: seq<nat>): (r: RunnerState)
    ensures r.ops.Keys == s.ops.Keys
  {
    if progress == [] then s else Sending(SendAll(s, progress[..|progress| - 1]), progress[|progress| - 1])
  }

  function SendUpTo(s: RunnerState, id: nat, n: nat): (r: RunnerState)
    ensures r.ops.Keys == s.ops.Keys
  {
    if n == 0 then s else Sending(SendUpTo(s, id, n - 1), id)
  }

  /** A request is taken in, and its operation polled at once. */
  function Requested(s: RunnerState, id: nat, request: Request, eager: nat): (r: RunnerState)
    ensures r.ops.Keys == s.ops.Keys + {id}
  {
    SendUpTo(RunnerState(s.ops[id := Op(request, 0)], Issued(s.flow, id, request)), id, eager)
  }

  function Min(a: int, b: int): int
  {
    if a <= b then a else b
  }

  /** One more message of an operation, if it has one and the channel has room for it. */
  lemma SendsOne(s: RunnerState, id: nat)
    requires id in s.ops
    ensures var t, op := Sending(s, id), s.ops[id];
      if op.sent < |Script(id, op.request)| && |s.flow.channel| < 10 then
        && id in t.ops && t.ops[id] == Op(op.request, op.sent + 1)
        && t.flow.channel == s.flow.channel + [Script(id, op.request)[op.sent]]
      else t == s
  {
    hide Script;
  }

  lemma SliceMore<T>(s: seq<T>, from: nat, to: nat)
    requires from <= to < |s|
    ensures s[from..to] + [s[to]] == s[from..to + 1]
  {}

  /** An operation that is polled sends as much as it may, has, and the channel takes. */
  lemma {:induction false} SendsUpTo(s: RunnerState, id: nat, n: nat)
    requires id in s.ops && s.ops[id].sent <= |Script(id, s.ops[id].request)| && |s.flow.channel| <= 10
    ensures var t, script := SendUpTo(s, id, n), Script(id, s.ops[id].request);
      var to := s.ops[id].sent + Min(n, Min(|script| - s.ops[id].sent, 10 - |s.flow.channel|));
      && id in t.ops && t.ops[id] == Op(s.ops[id].request, to)
      && t.flow.channel == s.flow.channel + script[s.ops[id].sent..to]
  {
    hide Script, Sending;
    if n > 0 {
      SendsUpTo(s, id, n - 1);
      var t, script := SendUpTo(s, id, n - 1), Script(id, s.ops[id].request);
      SendsOne(t, id);
      if t.ops[id].sent < |script| { SliceMore(script, s.ops[id].sent, t.ops[id].sent); }
    }
  }

  /** A request's operation is polled at once: it sends what it has ready before anything else happens. */
  lemma EagerSends(s: RunnerState, id: nat, request: Request, eager: nat)
    requires |s.flow.channel| <= 10
    ensures var sent := Min(eager, Min(|Script(id, request)|, 10 - |s.flow.channel|));
      Requested(s, id, request, eager).flow.channel == s.flow.channel + Script(id, request)[..sent]
  {
    SendsUpTo(RunnerState(s.ops[id := Op(request, 0)], Issued(s.flow, id, request)), id, eager);
  }

  /** All operations are polled, and one may be taken out. */
  function OpsPolled(s: RunnerState, progress: seq<nat>, ending: Option<Ending>): (r: (RunnerState, OpPoll))
    ensures r.1.OpDone? ==> r.0.ops.Keys < s.ops.Keys
  {
    if s.ops == map[] then (s, NoOps)
    else
      var t := SendAll(s, progress);
      match ending
      case Some(Done(id)) =>
        if id in t.ops && AllSent(t.ops, id) then (t.(ops := t.ops - {id}), OpDone(t.ops[id].request.Http?))
          else (t, OpsPending)
      case Some(Failed(id)) =>
        if id in t.ops && !AllSent(t.ops, id) then (t.(ops := t.ops - {id}), OpFailed) else (t, OpsPending)
      case None => (t, OpsPending)
  }

  datatype Resolution = Delivery(message: AsyncResult) | NothingYet | Failure

  /** Operations are polled until there is a result to take, one has failed, or nothing moves. */
  function NextOf(s: RunnerState, progress: seq<nat>, endings: seq<Option<Ending>>, n: nat): (RunnerState, Resolution)
    decreases s.ops.Keys
  {
    var (t, polled) := OpsPolled(s, progress, if n < |endings| then endings[n] else None);
    if polled.OpFailed? then (t, Failure)
    else if t.flow.channel != [] then (t.(flow := Received(t.flow)), Delivery(t.flow.channel[0]))
    else if polled.OpDone? then NextOf(t, progress, endings, n + 1)
    else (t, NothingYet)
  }

  /** An operation that fails ends the search for results at once, whatever is in the channel. */
  lemma FailureEnds(s: RunnerState, progress: seq<nat>, endings: seq<Option<Ending>>, id: nat)
    requires endings != [] && endings[0] == Some(Failed(id))
    requires id in SendAll(s, progress).ops && !AllSent(SendAll(s, progress).ops, id)
    ensures NextOf(s, progress, endings, 0).1 == Failure && id !in NextOf(s, progress, endings, 0).0.ops
  {
    assert id in s.ops;
  }

  /** Nothing else ends it with a failure. */
  lemma {:induction false} FailuresAreFailures(s: RunnerState, progress: seq<nat>, endings: seq<Option<Ending>>, n: nat)
    requires NextOf(s, progress, endings, n).1.Failure?
    ensures exists i, id :: n <= i < |endings| && endings[i] == Some(Failed(id))
    decreases s.ops.Keys
  {
    var ending := if n < |endings| then endings[n] else None;
    var (t, polled) := OpsPolled(s, progress, ending);
    if polled.OpFailed? {
      assert endings[n] == Some(Failed(ending.value.id));
    } else {
      FailuresAreFailures(t, progress, endings, n + 1);
    }
  }

  /** Polling all operations takes one out exactly when it says so, and none that could be is left. */
  lemma TakesOut(s: RunnerState, progress: seq<nat>, ending: Option<Ending>)
    ensures var (t, polled) := OpsPolled(s, progress, ending);
      && |t.ops| + (if polled.OpDone? || polled.OpFailed? then 1 else 0) == |s.ops|
      && (!polled.OpDone? && ending.Some? && ending.value.Done? && ending.value.id in t.ops ==>
        !AllSent(t.ops, ending.value.id))
  {
    hide AllSent;
    var t := SendAll(s, progress);
    assert |t.ops.Keys| == |s.ops.Keys|;
    if ending.Some? && ending.value.id in t.ops { GoneWebCall(t.ops, ending.value.id); }
  }

  /** When there is no result, the channel is empty and no further operation was there to be taken out. */
  lemma {:induction false} NothingLeftToTake(s: RunnerState, progress: seq<nat>, endings: seq<Option<Ending>>, n: nat)
    returns (k: nat)
    requires NextOf(s, progress, endings, n).1.NothingYet?
    ensures var t := NextOf(s, progress, endings, n).0;
      && t.flow.channel == [] && |t.ops| + k == |s.ops|
      && (n + k < |endings| && endings[n + k].Some? ==>
        endings[n + k].value.Done? && endings[n + k].value.id in t.ops ==> !AllSent(t.ops, endings[n + k].value.id))
    decreases s.ops.Keys
  {
    hide OpsPolled, AllSent;
    var ending := if n < |endings| then endings[n] else None;
    var (t, polled) := OpsPolled(s, progress, ending);
    TakesOut(s, progress, ending);
    k := 0;
    if polled.OpDone? {
      k := NothingLeftToTake(t, progress, endings, n + 1);
      k := k + 1;
    }
  }

  class OpsRunner {
    var pendingOps: map<nat, Op>
    var haveUnpolledOps: bool
    var nrWebCalls: nat
    var channel: seq<AsyncResult>
    // all that has happened so far
    ghost var flow: Flow

    ghost function State(): RunnerState
      reads this
    {
      RunnerState(pendingOps, flow)
    }

    /** But for the web calls just finished, `nrWebCalls` counts those among the operations. */
    ghost predicate Sound(finished: nat)
      reads this
    {
      && |channel| <= CHANNEL_CAPACITY && channel == flow.channel
      && OpsMatch(pendingOps, flow)
      && nrWebCalls == |WebCalls(pendingOps)| + finished
    }

    constructor ()
      ensures Sound(0) && flow == Flow(map[], map[], [], [], {}) && Flowing(flow, []) && pendingOps == map[]
    {
      pendingOps, haveUnpolledOps, nrWebCalls, channel := map[], false, 0, [];
      flow := Flow(map[], map[], [], [], {});
    }

    /** Takes in a request; its operation is polled at once, and may send up to `eager` messages right away. */
    method HandleRequest(id: nat, request: Request, eager: nat)
      requires Sound(0) && Flowing(flow, []) && id !in flow.requests
      modifies this
      ensures Sound(0) && Flowing(flow, []) && haveUnpolledOps
      ensures State() == Requested(old(State()), id, request, eager)
      ensures flow.requests == old(flow.requests)[id := request] && flow.table == old(flow.table) + {id}
      ensures flow.delivered == old(flow.delivered)
    {
      hide Flowing, Script, WebCalls, OpsMatch, Sending;
      OpsMatchIssue(pendingOps, flow, id, request);
      IssueKeepsFlowing(flow, [], id, request);
      NewWebCall(pendingOps, id, request);
      if request.Http? {
        nrWebCalls := nrWebCalls + 1;
      }
      pendingOps := pendingOps[id := Op(request, 0)];
      flow := Issued(flow, id, request);
      haveUnpolledOps := true;
      ghost var issued := State();
      for n := 0 to eager
        invariant Sound(0) && Flowing(flow, []) && haveUnpolledOps
        invariant State() == SendUpTo(issued, id, n)
        invariant flow.requests == old(flow.requests)[id := request] && flow.table == old(flow.table) + {id}
        invariant flow.delivered == old(flow.delivered)
      {
        Send(id);
      }
    }

    /** An operation sends its next message; it has to wait while the channel is full. */
    method Send(id: nat)
      requires Sound(0) && Flowing(flow, [])
      modifies this`channel, this`pendingOps, this`flow
      ensures Sound(0) && Flowing(flow, [])
      ensures State() == Sending(old(State()), id)
      ensures |channel| == |old(channel)| +
        if id in old(pendingOps) && !AllSent(old(pendingOps), id) && |old(channel)| < 10 then 1 else 0
      ensures flow == old(flow).(sent := flow.sent, channel := flow.channel)
    {
      hide Flowing, Script, WebCalls, OpsMatch;
      if id in pendingOps && |channel| < CHANNEL_CAPACITY && !AllSent(pendingOps, id) {
        OpsMatchSend(pendingOps, flow, id);
        SendKeepsFlowing(flow, [], id);
        SameWebCalls(pendingOps, id, pendingOps[id].sent + 1);
        var op := pendingOps[id];
        channel := channel + [Script(id, op.request)[op.sent]];
        pendingOps := pendingOps[id := op.(sent := op.sent + 1)];
        flow := Sent(flow, id);
      }
    }

    /**
      `pending_ops.poll_next_unpin`: operations make progress, `progress` saying which one sends next, and one that has
      sent everything, or has failed, may be taken out.
     */
    method PollNext(progress: seq<nat>, ending: Option<Ending>) returns (r: OpPoll)
      requires Sound(0) && Flowing(flow, [])
      modifies this`channel, this`pendingOps, this`flow
      ensures Flowing(flow, []) && (State(), r) == OpsPolled(old(State()), progress, ending)
      ensures !r.OpFailed? ==> Sound(if r == OpDone(true) then 1 else 0)
      ensures |channel| <= CHANNEL_CAPACITY && channel == flow.channel
      ensures flow == old(flow).(sent := flow.sent, channel := flow.channel)
      ensures r.NoOps? <==> old(pendingOps) == map[]
    {
      hide Flowing, Script, WebCalls, OpsMatch, Sending, AllSent;
      if pendingOps == map[] {
        return NoOps;
      }
      for i := 0 to |progress|
        invariant Sound(0) && Flowing(flow, [])
        invariant State() == SendAll(old(State()), progress[..i])
        invariant flow == old(flow).(sent := flow.sent, channel := flow.channel)
      {
        assert progress[..i + 1][..i] == progress[..i];
        Send(progress[i]);
      }
      assert progress[..|progress|] == progress;
      if ending.Some? && ending.value.id in pendingOps &&
        (ending.value.Done? <==> AllSent(pendingOps, ending.value.id)) {
        var id := ending.value.id;
        r := if ending.value.Done? then OpDone(pendingOps[id].request.Http?) else OpFailed;
        GoneWebCall(pendingOps, id);
        if ending.value.Done? { OpsMatchDone(pendingOps, flow, id); }
        pendingOps := pendingOps - {id};
      } else {
        r := OpsPending;
      }
    }

    /** `async_result_rx.poll_recv`. */
    method PollRecv() returns (r: Option<AsyncResult>)
      requires Sound(0) && Flowing(flow, [])
      modifies this`channel, this`flow
      ensures Sound(0) && Flowing(flow, if r.Some? then [r.value] else [])
      ensures r == None <==> old(channel) == []
      ensures r == None ==> flow == old(flow)
      ensures r.Some? ==> old(channel) == [r.value] + channel && flow == Received(old(flow))
    {
      hide Flowing, Script, WebCalls, OpsMatch;
      if channel == [] {
        return None;
      }
      ReceiveKeepsFlowing(flow);
      OpsMatchReceive(pendingOps, flow);
      r := Some(channel[0]);
      channel := channel[1..];
      flow := Received(flow);
    }
  }

  /** Once no operation is left and the channel is empty, the guest waits for nothing. */
  lemma AllDelivered(ops: map<nat, Op>, f: Flow)
    requires OpsMatch(ops, f) && Flowing(f, []) && ops == map[] && f.channel == []
    ensures f.table == {}
    ensures forall id :: id in f.requests ==> Of(f.delivered, id) == Script(id, f.requests[id])
  {
    assert f.delivered + [] + [] == f.delivered;
    forall id | id in f.requests ensures id !in f.table && Of(f.delivered, id) == Script(id, f.requests[id]) {
      assert InOrder(f, [], id);
    }
  }

  lemma {:induction false} OfMember(s: seq<AsyncResult>, m: AsyncResult)
    requires m in s
    ensures m in Of(s, m.id)
    decreases |s|
  {
    var last := |s| - 1;
    if s[last] != m {
      assert m in s[..last];
      OfMember(s[..last], m);
    }
  }

  /** Every message in the channel is one the guest still waits for. */
  lemma LeftInChannel(f: Flow)
    requires Flowing(f, [])
    ensures forall m :: m in f.channel ==> m.id in f.table
  {
    hide Script;
    forall m | m in f.channel ensures m.id in f.table {
      assert m in f.delivered + [] + f.channel;
      assert InOrder(f, [], m.id);
      OfConcat(f.delivered + [], f.channel, m.id);
      assert f.delivered + [] == f.delivered;
      OfMember(f.channel, m);
    }
  }

  lemma OpsMatchReceive(ops: map<nat, Op>, f: Flow)
    requires OpsMatch(ops, f) && f.channel != []
    ensures OpsMatch(ops, Received(f))
  {}

  /** The operations that are HTTP calls other than streams. */
  ghost function WebCalls(ops: map<nat, Op>): set<nat>
  {
    set id | id in ops && ops[id].request.Http?
  }

  lemma NewWebCall(ops: map<nat, Op>, id: nat, request: Request)
    requires id !in ops
    ensures |WebCalls(ops[id := Op(request, 0)])| == |WebCalls(ops)| + if request.Http? then 1 else 0
  {
    assert WebCalls(ops[id := Op(request, 0)]) == if request.Http? then WebCalls(ops) + {id} else WebCalls(ops);
  }

  lemma SameWebCalls(ops: map<nat, Op>, id: nat, sent: nat)
    requires id in ops
    ensures WebCalls(ops[id := ops[id].(sent := sent)]) == WebCalls(ops)
  {}

  lemma GoneWebCall(ops: map<nat, Op>, id: nat)
    requires id in ops
    ensures |WebCalls(ops - {id})| == |WebCalls(ops)| - if ops[id].request.Http? then 1 else 0
    ensures |ops - {id}| == |ops| - 1
  {
    assert WebCalls(ops - {id}) == if ops[id].request.Http? then WebCalls(ops) - {id} else WebCalls(ops);
    assert (ops - {id}).Keys == ops.Keys - {id};
  }
}
