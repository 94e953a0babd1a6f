/** How the event loop comes to end with a message its guest waits for still in the channel. */
module LostAnswers {
  import opened Wrappers
  import opened Requests
  import opened Swapping
  import opened Runtimes
  import opened Controllers

  const EVERYTHING := [true, true, true, true, true]
  const NO_FLOW := Flow(map[], map[], [], [], {})
  /** Two seconds after the start: idle for long enough. */
  const LATER: int := 2000 * Time.NANOS_PER_MILLI

  /** A guest that requests a stream when it starts, and nothing later. */
  function Streaming(initial: Guest, meta: Bytes): Program
  {
    Program(
      initial,
      (g, c: Ctx, call: Call) =>
        (g, if call.CallStart? then c.(requests := c.requests + [HttpStream(meta, [])]) else c))
  }

  /** The work gets what it awaits, and nothing else happens. */
  function Quiet(): Reading
  {
    Reading(EVERYTHING, [], [], [], LATER, None)
  }

  /** The server answers, in two messages. */
  function Answered(id: nat): Reading
  {
    Reading(EVERYTHING, [], [id, id], [Some(Done(id))], LATER, None)
  }

  /** The swap file is not there yet. */
  function Waiting(): Reading
  {
    Reading([], [], [], [], LATER, None)
  }

  /** The guest has requested a stream, and nothing has been sent. */
  function Requesting(id: nat, meta: Bytes): RunnerState
  {
    var stream := HttpStream(meta, []);
    RunnerState(map[id := Op(stream, 0)], Issued(NO_FLOW, id, stream))
  }

  /** First pass: the guest starts, requests a stream, and is to be swapped out. */
  lemma FirstPass(s: ModuleState, initial: Guest, meta: Bytes)
    requires Sound(s.runtime) && s.runtime.work == Some(Work(StartController, Queued)) &&
      s.permits + Held(s.runtime) > 0
    requires s.runtime.program == Streaming(initial, meta) && CtxOf(s.runtime).requests == [] && s.nextId == 0
    requires s.runner == RunnerState(map[], NO_FLOW) && s.lastEventTime == 0 && s.predictedWakeup == FAR_AHEAD
    ensures var (t, r) := Pass(s, [Quiet()], Quiet(), true);
      && r.LoopPending? && t.runtime.work == Some(Work(Uninstantiate, Queued))
      && t.runner == Requesting(0, meta) && t.permits + Held(t.runtime) == s.permits + Held(s.runtime)
      && t.nextId == 1
  {
    hide Sound, Polled, PlaceFits, Good, MemoryOf, CtxOf, WasmPolled, GuestRuns, ResultTaken;
    var e := Quiet();
    PolledKeeps(s.runtime, s.permits, EVERYTHING, 0);
    PolledEnds(s.runtime, s.permits, EVERYTHING, 0);
    var t := Ran(s, e);
    StreamRequested(s.runner, meta);
    assert t.runner == Requesting(0, meta);
    StillThere(t.runtime);
    NothingResolved(t, e, meta);
    assert Resolved(s, [e]) == (t, Drained);
    RestsAsPolled(t, e);
    assert WebCalls(t.runner.ops) == {};
  }

  /** The state after a task that runs the guest has ended, all at once. */
  lemma Ran(s: ModuleState, e: Reading) returns (t: ModuleState)
    requires Sound(s.runtime) && s.runtime.work.Some? && RunsTheGuest(s.runtime.work.value.task)
    requires Polled(s.runtime, s.permits, e.ready, 0).0.work == None && s.nextId == |CtxOf(s.runtime).requests|
    ensures t == WasmPolled(s, e) && Sound(t.runtime) && RanFrom(s.runtime, t.runtime)
    ensures t.runtime == Polled(s.runtime, s.permits, e.ready, 0).0 &&
      t.permits == Polled(s.runtime, s.permits, e.ready, 0).1
    ensures s.nextId <= |CtxOf(t.runtime).requests| == t.nextId
    ensures t == s.(runtime := t.runtime, permits := t.permits, nextId := t.nextId,
      runner := GuestRuns(s.runner, s.nextId, s.runtime.work.value.task, CtxOf(t.runtime).requests[s.nextId..],
        e.eager))
  {
    hide Polled, Good, Steady, MemoryOf, GuestRuns, WasmPolled;
    PolledKeeps(s.runtime, s.permits, e.ready, 0);
    t := WasmPolled(s, e);
    var r' := Polled(s.runtime, s.permits, e.ready, 0).0;
    RunRecords(s.runtime, r');
    WasmPolledIs(s, e);
  }

  lemma NothingResolved(t: ModuleState, e: Reading, meta: Bytes)
    requires t.runner == Requesting(0, meta) && e == Quiet()
    ensures ResultTaken(t, e) == (t, NothingYet)
  {
    NothingSent(0, meta);
  }

  lemma RestsAsPolled(t: ModuleState, e: Reading)
    requires t.runtime.work == None
    ensures WasmPolled(t, e) == t
  {}

  lemma StillThere(r: Runtime)
    requires Sound(r) && r.work == None && !r.inner.UnsInst? && Started(r)
    ensures !r.uninstantiating && Held(Scheduled(r, Uninstantiate)) == Held(r)
  {}

  lemma StreamRequested(s: RunnerState, meta: Bytes)
    requires s == RunnerState(map[], NO_FLOW)
    ensures GuestRuns(s, 0, StartController, [HttpStream(meta, [])], []) == Requesting(0, meta)
  {
    var asked := [HttpStream(meta, [])];
    assert asked[..0] == [];
    assert IssueAll(s, 0, asked, []) == Requested(s, 0, asked[0], 0);
  }

  lemma NothingSent(id: nat, meta: Bytes)
    ensures NextOf(Requesting(id, meta), [], [], 0) == (Requesting(id, meta), NothingYet)
  {
    var s := Requesting(id, meta);
    assert id in s.ops;
    assert OpsPolled(s, [], None) == (s, OpsPending);
  }

  /** The stream's two messages. */
  function First(id: nat, meta: Bytes): AsyncResult
  {
    AsyncResult(id, Some(meta), false)
  }

  function Second(id: nat): AsyncResult
  {
    AsyncResult(id, None, true)
  }

  /** The operation has sent both and is gone, and the host has taken the first. */
  function HalfTaken(id: nat, meta: Bytes): RunnerState
  {
    RunnerState(map[], Issued(NO_FLOW, id, HttpStream(meta, [])).(sent := map[id := 2], channel := [Second(id)]))
  }

  lemma AnsweredAtOnce(id: nat, meta: Bytes)
    ensures NextOf(Requesting(id, meta), [id, id], [Some(Done(id))], 0) ==
      (HalfTaken(id, meta), Delivery(First(id, meta)))
  {
    var s := Requesting(id, meta);
    var stream := HttpStream(meta, []);
    assert Script(id, stream) == [First(id, meta), Second(id)];
    var one := RunnerState(map[id := Op(stream, 1)], s.flow.(sent := map[id := 1], channel := [First(id, meta)]));
    var two := RunnerState(map[id := Op(stream, 2)],
      s.flow.(sent := map[id := 2], channel := [First(id, meta), Second(id)]));
    assert Sending(s, id) == one && Sending(one, id) == two;
    assert [id, id][..1] == [id] && [id][..0] == [];
    assert SendAll(s, []) == s && SendAll(s, [id]) == one && SendAll(s, [id, id]) == two;
    assert two.ops - {id} == map[];
    assert id in s.ops;
  }

  /**
    Second pass: the guest is swapped out; both messages come; the wake-up for the first waits for the swap file when it
    is polled, and no longer when it is polled again. No operation is left, so the loop ends.
   */
  lemma SecondPass(s: ModuleState, initial: Guest, meta: Bytes)
    requires Sound(s.runtime) && s.runtime.work == Some(Work(Uninstantiate, Queued)) && s.permits + Held(s.runtime) > 0
    requires s.runtime.program == Streaming(initial, meta) && s.nextId == |CtxOf(s.runtime).requests|
    requires s.runner == Requesting(0, meta)
    ensures var (t, r) := Pass(s, [Answered(0), Waiting()], Quiet(), true);
      r.LoopFinished? && t.runner.flow.channel == [Second(0)]
  {
    hide Sound, Polled, PlaceFits, Good, NextOf, MemoryOf, CtxOf, WasmPolled, ResultTaken, IssueAll;
    var env := [Answered(0), Waiting()];
    assert env[1..] == [Waiting()];
    var m := First(0, meta);
    PolledKeeps(s.runtime, s.permits, EVERYTHING, 0);
    PolledEnds(s.runtime, s.permits, EVERYTHING, 0);
    WasmPolledIs(s, env[0]);
    var t := WasmPolled(s, env[0]);
    var u := FirstTaken(t, meta);
    WokenOnDisk(t.runtime, u.permits, m);
    PolledKeeps(u.runtime, u.permits, [], 0);
    WasmPolledIs(u, env[1]);
    var v := WasmPolled(u, env[1]);
    assert Resolved(s, env) == (v, Busy);
    PolledKeeps(v.runtime, v.permits, EVERYTHING, 0);
    PolledEnds(v.runtime, v.permits, EVERYTHING, 0);
    var w := Ran(v, Quiet());
    NothingAsked(v.runtime, w.runtime, initial, meta);
    assert v.nextId == |CtxOf(v.runtime).requests| && CtxOf(w.runtime).requests[v.nextId..] == [];
    NothingIssued(v.runner.(flow := Delivered(v.runner.flow, m)), v.nextId);
    assert w.runner == v.runner.(flow := Delivered(v.runner.flow, m));
  }

  /** The operation is gone, and the first of its messages is taken. */
  lemma FirstTaken(t: ModuleState, meta: Bytes) returns (u: ModuleState)
    requires t.runner == Requesting(0, meta)
    ensures ResultTaken(t, Answered(0)) == (u, Delivery(First(0, meta)))
    ensures u.runtime == Scheduled(t.runtime, Wakeup(First(0, meta))) && u.runner == HalfTaken(0, meta)
    ensures u.permits == t.permits && u.nextId == t.nextId
  {
    hide NextOf;
    AnsweredAtOnce(0, meta);
    u := ResultTaken(t, Answered(0)).0;
  }

  lemma NothingAsked(r: Runtime, r': Runtime, initial: Guest, meta: Bytes)
    requires Sound(r) && Sound(r') && RanFrom(r, r') && r.program == Streaming(initial, meta) &&
      r.work.value.task.Wakeup?
    ensures CtxOf(r') == CtxOf(r)
  {}

  lemma NothingIssued(s: RunnerState, nextId: nat)
    ensures IssueAll(s, nextId, [], []) == s
  {}

  /** A wake-up of a guest on disk waits as long as nothing is ready. */
  lemma WokenOnDisk(r: Runtime, permits: nat, m: AsyncResult)
    requires Sound(r) && r.work == None && r.inner.UnsInst?
    ensures var woken := Scheduled(r, Wakeup(m));
      && Sound(woken) && Held(woken) == Held(r) && CtxOf(woken) == CtxOf(r)
      && Polled(woken, permits, [], 0).0.work.Some?
  {
    hide Steady, Good, Handle;
    var acquiring := Scheduled(r, Wakeup(m)).(inner := Locked, work := Some(Work(Wakeup(m), Acquiring(r.inner.image))));
    assert TakeTurn(Scheduled(r, Wakeup(m)), permits) == Continues(acquiring, permits);
    assert Polled(acquiring, permits, [], 1) == (acquiring, permits);
  }

  /** Two passes of the event loop, the second of which ends it with the last message of a request undelivered. */
  method LoseAnswer(initial: Guest, ctx: Ctx, meta: Bytes) returns (m: ControllerModule, r: LoopPoll)
    requires WellFormed(initial, initial) && ctx.requests == []
    ensures fresh(m) && m.Valid() && r.LoopFinished? && m.runner.channel != [] && m.table.pending != {}
  {
    hide WellFormed, Pass, Sound, Flowing, OpsMatch, Outcome, Mirrors;
    var pool := new Semaphore(1);
    m := new ControllerModule(Streaming(initial, meta), ctx, pool, true, 0);
    FirstPass(m.State(), initial, meta);
    r := m.PollEventLoop([Quiet()], Quiet());
    SecondPass(m.State(), initial, meta);
    r := m.PollEventLoop([Answered(0), Waiting()], Quiet());
  }
}
