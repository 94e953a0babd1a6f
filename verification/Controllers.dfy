/** The event loop of one module: results go to the guest one at a time, and an idle guest is swapped out. */
module Controllers {
  import opened Wrappers
  import opened Swapping
  import opened Runtimes
  import opened Requests
  import Time

  const SHUTDOWN_INACTIVE_INTERVAL_MS: int := 1000
  const TIME_BEFORE_PREDICTED_MS: int := 1000
  const GRACE_PERIOD_MS: int := 1000
  /** 999 days. */
  const FAR_AHEAD: int := 999 * 24 * 3600 * 1000 * Time.NANOS_PER_MILLI

  /** Whole milliseconds of a signed duration, truncated towards zero. */
  function NumMilliseconds(duration: int): int
  {
    if duration >= 0 then duration / Time.NANOS_PER_MILLI else -(-duration / Time.NANOS_PER_MILLI)
  }

  predicate InTimeBeforePredictionPeriod(now: int, predicted: int)
  {
    0 < NumMilliseconds(predicted - now) < TIME_BEFORE_PREDICTED_MS
  }

  predicate InTimeGracePeriod(now: int, predicted: int)
  {
    0 < NumMilliseconds(now - predicted) < GRACE_PERIOD_MS
  }

  predicate IsInactivePeriod(now: int, lastEvent: int)
  {
    NumMilliseconds(now - lastEvent) > SHUTDOWN_INACTIVE_INTERVAL_MS
  }

  /** What the outside does during one turn of the loop. */
  datatype Reading = Reading(
    ready: seq<bool>,                  // whether the awaited permit or swap file is there, turn by turn
    eager: seq<nat>,                   // how many messages each of the guest's requests sends at once
    progress: seq<nat>,                // operations that send a message
    endings: seq<Option<Ending>>,      // operations that are taken out
    now: int,
    prediction: Option<int>            // the prediction server's answer, if it gives one
  )

  datatype LoopPoll = LoopPending | LoopFinished | LoopFailed

  // ---- one pass of the loop, on values ----

  datatype ModuleState = ModuleState(
    runtime: Runtime,
    permits: nat,
    runner: RunnerState,
    nextId: nat,
    lastEventTime: int,
    predictedWakeup: int,
    firstEventAfterShutdown: bool)

  function IssueAll(s: RunnerState, nextId: nat, asked: seq<Request>, eager: seq<nat>): RunnerState
  {
    if asked == [] then s
    else
      var last := |asked| - 1;
      Requested(IssueAll(s, nextId, asked[..last], eager), nextId + last, asked[last], if last < |eager|
        then eager[last] else 0)
  }

  /** The message is handed over, if the task has one, and the guest makes its requests. */
  function GuestRuns(s: RunnerState, nextId: nat, task: Task, asked: seq<Request>, eager: seq<nat>): RunnerState
  {
    IssueAll(if task.Wakeup? then s.(flow := Delivered(s.flow, task.message)) else s, nextId, asked, eager)
  }

  /** The requests of a loaded guest from an id on. */
  function AskedFrom(r: Runtime, nextId: nat): seq<Request>
  {
    if r.inner.GotInst? && nextId <= |r.inner.image.ctx.requests| then r.inner.image.ctx.requests[nextId..] else []
  }

  function WasmPolled(s: ModuleState, e: Reading): ModuleState
  {
    var (runtime, permits) := Polled(s.runtime, s.permits, e.ready, 0);
    var t := s.(runtime := runtime, permits := permits);
    if RunsTo(s.runtime, runtime) then
      var asked := AskedFrom(runtime, s.nextId);
      t.(runner := GuestRuns(s.runner, s.nextId, s.runtime.work.value.task, asked, e.eager),
        nextId := s.nextId + |asked|)
    else t
  }

  function ResultTaken(s: ModuleState, e: Reading): (ModuleState, Resolution)
  {
    var (runner, result) := NextOf(s.runner, e.progress, e.endings, 0);
    match result
    case Delivery(m) =>
      (s.(runner := runner, runtime := Scheduled(s.runtime, Wakeup(m)), firstEventAfterShutdown := false,
          predictedWakeup := if s.runtime.uninstantiating then e.now + FAR_AHEAD else s.predictedWakeup,
          lastEventTime := if m.finished then e.now else s.lastEventTime),
       result)
    case _ => (s.(runner := runner), result)
  }

  /** A prediction that was missed, grace period included, is put far ahead. */
  function Renewed(now: int, predicted: int): int
  {
    if NumMilliseconds(now - predicted) > 0 && !InTimeGracePeriod(now, predicted) then now + FAR_AHEAD else predicted
  }

  /**
    In when the predicted instant is close; out when idle for long, with no web call outstanding and none predicted.
   */
  ghost function SwapDue(s: ModuleState, now: int, compiled: bool): Option<Task>
  {
    if s.runtime.uninstantiating then
      if InTimeBeforePredictionPeriod(now, s.predictedWakeup) then Some(LoadToMem) else None
    else if WebCalls(s.runner.ops) == {} && compiled && IsInactivePeriod(now, s.lastEventTime) &&
      !InTimeBeforePredictionPeriod(now, s.predictedWakeup) && !InTimeGracePeriod(now, s.predictedWakeup)
    then Some(Uninstantiate)
    else None
  }

  ghost function SwapScheduled(s: ModuleState, e: Reading, compiled: bool): ModuleState
  {
    var t := s.(predictedWakeup := Renewed(e.now, s.predictedWakeup));
    match SwapDue(t, e.now, compiled)
    case None => t
    case Some(task) =>
      if task.LoadToMem? then t.(runtime := Scheduled(t.runtime, task))
      else
        t.(runtime := Scheduled(t.runtime, task), firstEventAfterShutdown := true,
           predictedWakeup := if !t.firstEventAfterShutdown && e.prediction.Some? then e.prediction.value
             else t.predictedWakeup)
  }

  /**
    How the first half of a pass ends: out of readings, with the work waiting, out of results, or with a failed
    operation.
   */
  datatype Head = CutOff | Busy | Drained | Erred

  function Resolved(s: ModuleState, env: seq<Reading>): (ModuleState, Head)
    decreases |env|
  {
    if env == [] then (s, CutOff)
    else
      var t := WasmPolled(s, env[0]);
      if t.runtime.work.Some? then (t, Busy)
      else
        var (u, result) := ResultTaken(t, env[0]);
        match result
        case Failure => (u, Erred)
        case NothingYet => (u, Drained)
        case Delivery(_) => Resolved(u, env[1..])
  }

  ghost function Pass(s: ModuleState, env: seq<Reading>, last: Reading, compiled: bool): (ModuleState, LoopPoll)
  {
    var (t, head) := Resolved(s, env);
    if head.CutOff? then (t, LoopPending)
    else if head.Erred? then (t, LoopFailed)
    else
      var u := WasmPolled(t, last);
      if u.runtime.work.Some? then (u, LoopPending)
      else if u.runner.ops == map[] then (u, LoopFinished)
      else (SwapScheduled(u, last, compiled), LoopPending)
  }

  // ---- what a pass does, in nanoseconds ----

  /** The state at the end of a pass that gets there, before a swap is scheduled. */
  function AtEnd(s: ModuleState, env: seq<Reading>, last: Reading): ModuleState
  {
    WasmPolled(Resolved(s, env).0, last)
  }

  /** There is no work at the end of the pass. */
  predicate GetsToEnd(s: ModuleState, env: seq<Reading>, last: Reading)
  {
    (Resolved(s, env).1.Busy? || Resolved(s, env).1.Drained?) && AtEnd(s, env, last).runtime.work == None
  }

  /**
    The swap that is due, and no other: in exactly when no instance is loaded and the prediction is 1 ms to less than
    1 s ahead; out exactly when one is, swapping is compiled in, no plain HTTP operation is pending, the last event is
    1001 ms past or more, and the prediction is neither 1 ms to less than 1 s ahead nor as much past. A prediction that
    is 1 s past or more has been put 999 days ahead before.
   */
  ghost predicate SwapsAsDue(s: ModuleState, e: Reading, compiled: bool, t: ModuleState)
  {
    var p := if e.now - s.predictedWakeup >= 1_000_000_000 then e.now + 86_313_600_000_000_000 else s.predictedWakeup;
    var ahead, past := p - e.now, e.now - p;
    var goesIn := !s.runtime.inner.GotInst? && 1_000_000 <= ahead < 1_000_000_000;
    var goesOut :=
      && s.runtime.inner.GotInst? && compiled && (forall id :: id in s.runner.ops ==> !s.runner.ops[id].request.Http?)
      && e.now - s.lastEventTime >= 1_001_000_000
      && !(1_000_000 <= ahead < 1_000_000_000) && !(1_000_000 <= past < 1_000_000_000);
    && (t.runtime.work == Some(Work(LoadToMem, Queued)) <==> goesIn)
    && (t.runtime.work == Some(Work(Uninstantiate, Queued)) <==> goesOut)
    && (t.runtime.work.Some? ==> goesIn || goesOut)
    && (t.firstEventAfterShutdown <==> s.firstEventAfterShutdown || goesOut)
    && t.predictedWakeup ==
      (if goesOut && !s.firstEventAfterShutdown && e.prediction.Some? then e.prediction.value else p)
    && t.runtime.inner == s.runtime.inner && t.permits == s.permits && t.runner == s.runner
    && t.nextId == s.nextId && t.lastEventTime == s.lastEventTime
  }

  lemma WholeMillis(duration: int)
    ensures NumMilliseconds(duration) > 0 <==> duration >= 1_000_000
    ensures NumMilliseconds(duration) < 1000 <==> duration < 1_000_000_000
    ensures NumMilliseconds(duration) > 1000 <==> duration >= 1_001_000_000
  {}

  /** What is scheduled at the end of a pass is what is due. */
  lemma SwapIsDue(s: ModuleState, e: Reading, compiled: bool)
    requires TaskFits(s.runtime) && s.runtime.work == None
    ensures SwapsAsDue(s, e, compiled, SwapScheduled(s, e, compiled))
  {
    hide NumMilliseconds;
    var p := Renewed(e.now, s.predictedWakeup);
    WholeMillis(e.now - s.predictedWakeup);
    WholeMillis(p - e.now);
    WholeMillis(e.now - p);
    WholeMillis(e.now - s.lastEventTime);
    assert WebCalls(s.runner.ops) == {} <==> forall id :: id in s.runner.ops ==> !s.runner.ops[id].request.Http? by {
      if WebCalls(s.runner.ops) == {} {
        forall id | id in s.runner.ops ensures !s.runner.ops[id].request.Http? { assert id !in WebCalls(s.runner.ops); }
      }
    }
  }

  /** A result is handed on at once; if it finds the guest on disk, or ends a request, prediction or last event move. */
  ghost predicate MovesTimes(s: ModuleState, e: Reading, t: ModuleState, m: AsyncResult)
  {
    && t.runtime.work == Some(Work(Wakeup(m), Queued)) && !t.firstEventAfterShutdown
    && t.predictedWakeup == (if s.runtime.inner.GotInst? then s.predictedWakeup else e.now + 86_313_600_000_000_000)
    && t.lastEventTime == (if m.finished then e.now else s.lastEventTime)
  }

  lemma ResultMovesTimes(s: ModuleState, e: Reading)
    requires TaskFits(s.runtime) && s.runtime.work == None
    ensures var (t, result) := ResultTaken(s, e);
      && (result.Delivery? ==> MovesTimes(s, e, t, result.message))
      && (!result.Delivery? ==> t == s.(runner := t.runner))
  {
    hide NextOf;
  }

  /** A failed operation ends the loop: neither results nor swaps follow. */
  lemma FailureStopsTheLoop(s: ModuleState, env: seq<Reading>, last: Reading, compiled: bool, id: nat)
    requires env != [] && env[0].endings != [] && env[0].endings[0] == Some(Failed(id))
    requires var t := WasmPolled(s, env[0]);
      && t.runtime.work == None
      && id in SendAll(t.runner, env[0].progress).ops && !AllSent(SendAll(t.runner, env[0].progress).ops, id)
    ensures Pass(s, env, last, compiled).1.LoopFailed?
    ensures Pass(s, env, last, compiled).0.runtime == WasmPolled(s, env[0]).runtime
  {
    hide WasmPolled, NextOf, AllSent;
    var t := WasmPolled(s, env[0]);
    FailureEnds(t.runner, env[0].progress, env[0].endings, id);
  }

  /** And nothing else makes it fail. */
  lemma {:induction false} OnlyFailuresFail(s: ModuleState, env: seq<Reading>)
    requires Resolved(s, env).1.Erred?
    ensures exists i, j, id :: 0 <= i < |env| && 0 <= j < |env[i].endings| && env[i].endings[j] == Some(Failed(id))
    decreases |env|
  {
    hide WasmPolled, NextOf;
    var t := WasmPolled(s, env[0]);
    var (u, result) := ResultTaken(t, env[0]);
    if result.Failure? {
      FailuresAreFailures(t.runner, env[0].progress, env[0].endings, 0);
    } else {
      OnlyFailuresFail(u, env[1..]);
      var i, j, id :| 0 <= i < |env[1..]| && 0 <= j < |env[1..][i].endings| &&
        env[1..][i].endings[j] == Some(Failed(id));
      assert env[i + 1].endings[j] == Some(Failed(id));
    }
  }

  // ---- the module ----

  /** The requests made, by id. */
  function Numbered(requests: seq<Request>): map<nat, Request>
  {
    map id: nat | id < |requests| :: requests[id]
  }

  lemma OneMoreNumbered(requests: seq<Request>, request: Request)
    ensures Numbered(requests + [request]) == Numbered(requests)[|requests| := request]
  {}

  lemma NoneAsked(s: RunnerState, before: seq<Request>, asked: seq<Request>, eager: seq<nat>)
    ensures IssueAll(s, |before|, asked[..0], eager) == s && before + asked[..0] == before
    ensures IdsFrom(|before|, |before|) == {}
  {}

  /** What one more request changes. */
  lemma OneMoreAsked(s: RunnerState, before: seq<Request>, asked: seq<Request>, eager: seq<nat>, i: nat)
    requires i < |asked|
    ensures var id := |before| + i;
      && IssueAll(s, |before|, asked[..i + 1], eager) ==
        Requested(IssueAll(s, |before|, asked[..i], eager), id, asked[i], if i < |eager| then eager[i] else 0)
      && Numbered(before + asked[..i + 1]) == Numbered(before + asked[..i])[id := asked[i]]
      && IdsFrom(|before|, id + 1) == IdsFrom(|before|, id) + {id}
  {
    hide Requested;
    assert asked[..i + 1][..i] == asked[..i];
    assert before + asked[..i] + [asked[i]] == before + asked[..i + 1];
    OneMoreNumbered(before + asked[..i], asked[i]);
  }

  function IdsFrom(lo: nat, hi: nat): set<nat>
  {
    if hi <= lo then {} else IdsFrom(lo, hi - 1) + {hi - 1}
  }

  /** The ids in a guest's table after a call in which it makes the requests from one id up to another. */
  ghost function TableAfter(ids: set<nat>, call: Call, lo: nat, hi: nat): set<nat>
  {
    (if call.CallWakeup? && call.message.finished then ids - {call.message.id} else ids) + IdsFrom(lo, hi)
  }

  /** The source panics when a wake-up names an id that is not in the table. */
  predicate MayReach(ids: set<nat>, call: Call)
  {
    call.CallWakeup? ==> call.message.id in ids
  }

  /** Every call of the program keeps the table that is read from its memory in this way. */
  ghost predicate Registers(p: Program, tableIn: seq<Byte> -> set<nat>)
  {
    && tableIn(p.initial.memory) == {}
    && forall g, c: Ctx, call: Call :: WellFormed(g, p.initial) && MayReach(tableIn(g.memory), call) ==>
      tableIn(p.react(g, c, call).0.memory) ==
        TableAfter(tableIn(g.memory), call, |c.requests|, |p.react(g, c, call).1.requests|)
  }

  /** The ids in the guest's memory, however its calls keep them there, are these. */
  ghost predicate Mirrors(r: Runtime, ids: set<nat>)
    requires Sound(r)
  {
    forall tableIn :: Registers(r.program, tableIn) ==> tableIn(MemoryOf(r)) == ids
  }

  lemma NewMirrors(r: Runtime, p: Program, ctx: Ctx)
    requires Sound(r) && r.program == p && r.inner == NotInst(Image(InMemory(p.initial), ctx))
    ensures Mirrors(r, {}) && CtxOf(r) == ctx
  {}

  lemma SameMirrors(r: Runtime, r': Runtime, ids: set<nat>)
    requires Sound(r) && Sound(r') && r'.program == r.program && MemoryOf(r') == MemoryOf(r) && Mirrors(r, ids)
    ensures Mirrors(r', ids)
  {}

  /** A run of the guest changes the ids in its memory as it changes the table. */
  lemma RunMirrors(r: Runtime, r': Runtime, ids: set<nat>)
    requires Sound(r) && Sound(r') && r'.program == r.program && RanFrom(r, r') && Mirrors(r, ids)
    requires MayReach(ids, CallOf(r.work.value.task))
    ensures Mirrors(r', TableAfter(ids, CallOf(r.work.value.task), |CtxOf(r).requests|, |CtxOf(r').requests|))
  {
    hide TaskFits, Steady, TableAfter, WellFormed, Restore, MemoryOf, CtxOf;
    var call := CallOf(r.work.value.task);
    var g := Loaded(r.program, Kept(r).place).value;
    forall tableIn | Registers(r.program, tableIn)
      ensures tableIn(MemoryOf(r')) == TableAfter(ids, call, |CtxOf(r).requests|, |CtxOf(r').requests|)
    {
      assert tableIn(g.memory) == ids && WellFormed(g, r.program.initial) && MayReach(tableIn(g.memory), call);
      assert r.program.react(g, CtxOf(r), call).0.memory == MemoryOf(r');
    }
  }

  class ControllerModule {
    const wasm: WasmRuntime
    const runner: OpsRunner
    const table: GuestTable
    var requestIdCounter: nat
    const compileWithUninstantiate: bool
    var lastEventTime: int
    var predictedWakeup: int
    var firstEventAfterShutdown: bool
    const ctx: Ctx
    // everything scheduled for the guest so far
    ghost var history: seq<Event>

    ghost function State(): ModuleState
      reads this, wasm, wasm.semaphore, runner
    {
      ModuleState(wasm.State(), wasm.semaphore.permits, runner.State(), requestIdCounter,
        lastEventTime, predictedWakeup, firstEventAfterShutdown)
    }

    /** The message on its way to the guest. */
    ghost function InFlight(): seq<AsyncResult>
      reads wasm
    {
      if wasm.wasmWork.Some? && wasm.wasmWork.value.task.Wakeup? then [wasm.wasmWork.value.task.message] else []
    }

    ghost predicate Valid()
      reads this, wasm, runner, table
    {
      && Orderly()
      && Connected(InFlight())
    }

    /** What holds of a module even when an operation has failed. */
    ghost predicate Orderly()
      reads this, wasm, runner, table
    {
      && Runtimes.Sound(wasm.State())
      && (Started(wasm.State()) || (wasm.wasmWork.Some? && wasm.wasmWork.value.task.StartController?))
      && Flowing(runner.flow, InFlight())
      && Replays()
      && Recorded()
      && Mirrors(wasm.State(), table.pending)
    }

    /** The requests under way and done are those the guest has made, under the ids it has been given. */
    ghost predicate Recorded()
      requires Runtimes.Sound(wasm.State())
      reads this`requestIdCounter, wasm, runner`flow
    {
      var requests := CtxOf(wasm.State()).requests;
      requestIdCounter == |requests| && runner.flow.requests == Numbered(requests)
    }

    /**
      The guest is where its history leads it, once the pending task has ended, and its history has exactly the messages
      handed over and in flight.
     */
    ghost predicate Replays()
      requires PlaceFits(wasm.State())
      reads this`history, wasm, runner`flow
    {
      && Outcome(wasm.State()) == RunSwapped(wasm.program, ctx, history)
      && Messages(history) == runner.flow.delivered + InFlight()
    }

    /** Runner, table and counter agree, with these messages on their way. */
    ghost predicate Connected(taken: seq<AsyncResult>)
      reads this`requestIdCounter, runner, table
    {
      && runner.Sound(0) && Flowing(runner.flow, taken)
      && table.Valid() && table.pending == runner.flow.table
      && forall id :: id in runner.flow.requests ==> id < requestIdCounter
    }

    /** `new`, then `start` up to entering the loop. */
    constructor (program: Program, ctx: Ctx, semaphore: Semaphore, compileWithUninstantiate: bool, now: int)
      requires Steady(program) && ctx.requests == []
      ensures Valid() && fresh(wasm) && fresh(runner) && fresh(table) && wasm.semaphore == semaphore
      ensures wasm.program == program && this.ctx == ctx && history == [Deliver(CallStart)]
      ensures this.compileWithUninstantiate == compileWithUninstantiate
      ensures State() == ModuleState(
        Runtime(program, NotInst(Image(InMemory(program.initial), ctx)), Some(Work(StartController, Queued)), false),
        semaphore.permits, RunnerState(map[], Flow(map[], map[], [], [], {})), 0, now, now + FAR_AHEAD, true)
      ensures predictedWakeup == now + 86_313_600_000_000_000
    {
      hide Steady, WellFormed, Good, Flowing, OpsMatch, TaskFits, Handle, RunPlain, RunSwapped, Schedulable, Calls,
        Mirrors, MemoryOf, CtxOf, Messages, Numbered, MaySchedule, ControllerModule.Connected;
      wasm := new WasmRuntime(program, ctx, semaphore);
      runner := new OpsRunner();
      table := new GuestTable();
      requestIdCounter := 0;
      this.compileWithUninstantiate := compileWithUninstantiate;
      lastEventTime, predictedWakeup, firstEventAfterShutdown := now, now + FAR_AHEAD, true;
      this.ctx := ctx;
      history := [];
      new;
      NewIsReady(ctx);
      ScheduleTask(StartController);
    }

    /** A new module may schedule its start. */
    lemma NewIsReady(ctx: Ctx)
      requires Runtimes.Sound(wasm.State()) && ctx.requests == [] && history == [] && requestIdCounter == 0
      requires wasm.State() ==
        Runtime(wasm.program, NotInst(Image(InMemory(wasm.program.initial), ctx)), None, true)
      requires runner.Sound(0) && runner.flow == Flow(map[], map[], [], [], {}) && Flowing(runner.flow, [])
      requires table.Valid() && table.pending == {}
      ensures MaySchedule(wasm.State(), StartController) && Connected([]) && Recorded()
      ensures Some(Kept(wasm.State())) == RunSwapped(wasm.program, ctx, history) && Messages(history) == []
      ensures Mirrors(wasm.State(), table.pending)
    {
      hide Steady, Good, TaskFits, MemoryOf;
      NoEvents(wasm.program, ctx);
      NewMirrors(wasm.State(), wasm.program, ctx);
    }

    /** Schedules a task, and notes it. */
    method ScheduleTask(task: Task)
      requires Runtimes.Sound(wasm.State()) && MaySchedule(wasm.State(), task) &&
        Connected(if task.Wakeup? then [task.message] else [])
      requires Some(Kept(wasm.State())) == RunSwapped(wasm.program, ctx, history) &&
        Messages(history) == runner.flow.delivered
      requires Started(wasm.State()) || task.StartController?
      requires Recorded() && Mirrors(wasm.State(), table.pending)
      modifies this`history, wasm`wasmWork, wasm`uninstantiating
      ensures Valid() && wasm.State() == Scheduled(old(wasm.State()), task) &&
        Held(wasm.State()) == old(Held(wasm.State()))
      ensures history == old(history) + [EventOf(task)]
      ensures Swaps(history) == Swaps(old(history)) + if RunsTheGuest(task) then 0 else 1
    {
      hide Flowing, OpsMatch, Handle, Good, Steady, RunSwapped, RunPlain, Schedulable, Calls, Messages, Swaps, TaskFits,
        WebCalls, Mirrors, MemoryOf;
      SchedulingKeepsSound(wasm.State(), task);
      SchedulingKeepsMemory(wasm.State(), task);
      SameMirrors(wasm.State(), Scheduled(wasm.State(), task), table.pending);
      OneMoreEvent(wasm.program, ctx, history, EventOf(task));
      OneMoreMessage(history, EventOf(task));
      wasm.Schedule(task);
      history := history + [EventOf(task)];
    }

    /** A call of the guest into the host: the request gets the next id, and the guest registers it. */
    method Issue(request: Request, eager: nat)
      requires Connected([])
      modifies this`requestIdCounter, runner, table
      ensures Connected([]) && runner.flow.delivered == old(runner.flow.delivered)
      ensures runner.State() == Requested(old(runner.State()), old(requestIdCounter), request, eager)
      ensures requestIdCounter == old(requestIdCounter) + 1
      ensures runner.flow.requests == old(runner.flow.requests)[old(requestIdCounter) := request]
      ensures table.pending == old(table.pending) + {old(requestIdCounter)}
    {
      hide Flowing, OpsMatch, Requested;
      var id := requestIdCounter;
      requestIdCounter := requestIdCounter + 1;
      runner.HandleRequest(id, request, eager);
      table.StartAsync(id);
    }

    /** A message is handed over: its id is registered, so the guest's table has it. */
    method HandOver(m: AsyncResult)
      requires Connected([m])
      modifies runner`flow, table
      ensures Connected([]) && runner.flow == Delivered(old(runner.flow), m)
      ensures table.pending == if m.finished then old(table.pending) - {m.id} else old(table.pending)
    {
      hide Flowing, OpsMatch, Script, WebCalls;
      TakenIsRegistered(runner.flow, m);
      DeliverKeepsFlowing(runner.flow, m);
      OpsMatchDeliver(runner.pendingOps, runner.flow, m);
      table.Wakeup(m);
      runner.flow := Delivered(runner.flow, m);
    }

    /** The guest makes requests, besides those made `before`. */
    method IssueEach(asked: seq<Request>, eager: seq<nat>, ghost before: seq<Request>)
      requires Connected([]) && runner.flow.requests == Numbered(before) && requestIdCounter == |before|
      modifies this`requestIdCounter, runner, table
      ensures Connected([]) && runner.flow.delivered == old(runner.flow.delivered)
      ensures runner.State() == IssueAll(old(runner.State()), |before|, asked, eager)
      ensures requestIdCounter == |before + asked| && runner.flow.requests == Numbered(before + asked)
      ensures table.pending == old(table.pending) + IdsFrom(|before|, |before + asked|)
    {
      hide ControllerModule.Connected, Requested, Numbered, IssueAll, IdsFrom;
      NoneAsked(runner.State(), before, asked, eager);
      for i := 0 to |asked|
        invariant Connected([]) && requestIdCounter == |before| + i
        invariant runner.flow.delivered == old(runner.flow.delivered)
        invariant runner.State() == IssueAll(old(runner.State()), |before|, asked[..i], eager)
        invariant runner.flow.requests == Numbered(before + asked[..i])
        invariant table.pending == old(table.pending) + IdsFrom(|before|, |before| + i)
      {
        OneMoreAsked(old(runner.State()), before, asked, eager, i);
        Issue(asked[i], if i < |eager| then eager[i] else 0);
      }
      assert asked[..|asked|] == asked;
    }

    /** The guest runs: it is handed the message, if there is one, and makes requests. */
    method RunGuest(task: Task, asked: seq<Request>, eager: seq<nat>, ghost before: seq<Request>)
      requires Connected(if task.Wakeup? then [task.message] else []) && RunsTheGuest(task)
      requires runner.flow.requests == Numbered(before) && requestIdCounter == |before|
      modifies this`requestIdCounter, runner, table
      ensures Connected([])
      ensures runner.flow.delivered == old(runner.flow.delivered) + if task.Wakeup? then [task.message] else []
      ensures runner.State() == GuestRuns(old(runner.State()), old(requestIdCounter), task, asked, eager)
      ensures requestIdCounter == |before + asked| && runner.flow.requests == Numbered(before + asked)
      ensures table.pending == TableAfter(old(table.pending), CallOf(task), |before|, |before + asked|)
    {
      hide ControllerModule.Connected, IssueAll, Numbered, IdsFrom;
      if task.Wakeup? {
        HandOver(task.message);
      }
      IssueEach(asked, eager, before);
    }

    /** Polls the pending work; when a task that runs the guest ends, it has run. */
    method PollWasm(e: Reading) returns (isReady: bool)
      requires Valid()
      modifies this`requestIdCounter, runner, table, wasm`inner, wasm`wasmWork, wasm.semaphore
      ensures Valid() && (isReady <==> wasm.wasmWork == None) && State() == WasmPolled(old(State()), e)
      ensures !isReady ==> !wasm.wasmWork.value.stage.Queued?
      ensures wasm.uninstantiating == old(wasm.uninstantiating) && history == old(history)
      ensures wasm.semaphore.permits + Held(wasm.State()) == old(wasm.semaphore.permits + Held(wasm.State()))
      ensures old(wasm.wasmWork) == None ==> State() == old(State()) && runner.channel == old(runner.channel)
      ensures runner.flow.delivered == old(runner.flow.delivered) + if isReady then old(InFlight()) else []
      ensures !RunsTo(old(wasm.State()), wasm.State()) ==>
        runner.flow == old(runner.flow) && table.pending == old(table.pending)
    {
      hide Flowing, OpsMatch, Good, TaskFits, RunSwapped, RunPlain, Messages, WebCalls, Polled, GuestRuns, MemoryOf,
        CtxOf, RanFrom, Handle, Mirrors, Numbered, TableAfter, WasmPolled, ControllerModule.Connected,
        Steady, PlaceFits, WellFormed, TakeTurn;
      ghost var r := wasm.State();
      ghost var s := State();
      WasmPolledIs(s, e);
      PolledKeeps(r, wasm.semaphore.permits, e.ready, 0);
      var work := wasm.wasmWork;
      isReady := wasm.PollUnpin(e.ready);
      if isReady && work.Some? && RunsTheGuest(work.value.task) {
        RunRecords(r, wasm.State());
        MayWake(work.value.task);
        RunMirrors(r, wasm.State(), table.pending);
        RunGuest(work.value.task, wasm.inner.image.ctx.requests[requestIdCounter..], e.eager, CtxOf(r).requests);
      } else {
        SameMirrors(r, wasm.State(), table.pending);
      }
      ConnectedFlows();
    }

    /** A message on its way names an id in the guest's table. */
    lemma MayWake(task: Task)
      requires Connected(if task.Wakeup? then [task.message] else []) && RunsTheGuest(task)
      ensures MayReach(table.pending, CallOf(task))
    {
      hide Flowing;
      if task.Wakeup? { TakenIsRegistered(runner.flow, task.message); }
    }

    /**
      So the wake-up finds the id in the guest's memory itself, however its calls keep the table there, swapped or
      not.
     */
    lemma WakeupIsRegistered(m: AsyncResult, tableIn: seq<Byte> -> set<nat>)
      requires Valid() && InFlight() == [m] && Registers(wasm.program, tableIn)
      ensures m.id in tableIn(MemoryOf(wasm.State()))
    {
      hide Flowing, Registers, MemoryOf, Sound;
      MayWake(wasm.wasmWork.value.task);
    }

    lemma ConnectedFlows()
      requires Connected(InFlight())
      ensures Flowing(runner.flow, InFlight())
    {}

    /**
      The inner loop of `resolve_async_ops`: takes finished operations out until there is a result, or nothing moves.
     */
    method NextResult(e: Reading) returns (result: Resolution)
      requires Connected([])
      modifies runner
      ensures (runner.State(), result) == NextOf(old(runner.State()), e.progress, e.endings, 0)
      ensures Flowing(runner.flow, if result.Delivery? then [result.message] else [])
      ensures !result.Failure? ==> Connected(if result.Delivery? then [result.message] else [])
      ensures result.NothingYet? ==> runner.channel == []
      ensures runner.flow.delivered == old(runner.flow.delivered) && runner.flow.requests == old(runner.flow.requests)
      ensures runner.flow.table == old(runner.flow.table)
    {
      hide Flowing, OpsMatch, Script, WebCalls, OpsPolled;
      runner.haveUnpolledOps := false;
      var n: nat := 0;
      while true
        invariant runner.Sound(0) && Flowing(runner.flow, [])
        invariant NextOf(runner.State(), e.progress, e.endings, n) ==
          NextOf(old(runner.State()), e.progress, e.endings, 0)
        invariant runner.flow.delivered == old(runner.flow.delivered) &&
          runner.flow.requests == old(runner.flow.requests)
        invariant runner.flow.table == old(runner.flow.table)
        decreases runner.pendingOps.Keys
      {
        var polled := runner.PollNext(e.progress, if n < |e.endings| then e.endings[n] else None);
        n := n + 1;
        if polled == OpDone(true) {
          // one web call fewer: there was one to count
          runner.nrWebCalls := runner.nrWebCalls - 1;
        }
        if polled.OpFailed? {
          return Failure;
        }
        var received := runner.PollRecv();
        if received.Some? {
          return Delivery(received.value);
        }
        if !polled.OpDone? {
          return NothingYet;
        }
      }
    }

    /** Hands the next result to the guest, if there is one. */
    method ResolveAsyncOps(e: Reading) returns (result: Resolution)
      requires Valid() && wasm.wasmWork == None
      modifies this`lastEventTime, this`predictedWakeup, this`firstEventAfterShutdown, this`history, runner,
        wasm`wasmWork, wasm`uninstantiating
      ensures (State(), result) == ResultTaken(old(State()), e) && Orderly() && (!result.Failure? ==> Valid())
      ensures (result.Delivery? <==> wasm.wasmWork.Some?) && Held(wasm.State()) == old(Held(wasm.State()))
      ensures !result.Delivery? ==> wasm.State() == old(wasm.State()) && history == old(history)
      ensures result.Delivery? ==> MovesTimes(old(State()), e, State(), result.message)
      ensures result.NothingYet? ==> runner.channel == []
      ensures result.Delivery? ==>
        InFlight() == [result.message] && history == old(history) + [Deliver(CallWakeup(result.message))]
      ensures Swaps(history) == Swaps(old(history))
      ensures runner.flow.delivered == old(runner.flow.delivered) && runner.flow.requests == old(runner.flow.requests)
    {
      hide Flowing, OpsMatch, Script, WebCalls, ControllerModule.Connected, Good, Steady, Swaps, Messages, RunSwapped,
        Handle, NextOf;
      ResultMovesTimes(State(), e);
      result := NextResult(e);
      if !result.Delivery? {
        return;
      }
      firstEventAfterShutdown := false;
      if wasm.uninstantiating {
        predictedWakeup := e.now + FAR_AHEAD;
      }
      if result.message.finished {
        lastEventTime := e.now;
      }
      ScheduleTask(Wakeup(result.message));
    }

    /** Resolves operations until the guest is busy or none can be resolved, or there are no more readings. */
    method ResolveAll(env: seq<Reading>) returns (head: Head)
      requires Valid()
      modifies this`lastEventTime, this`predictedWakeup, this`firstEventAfterShutdown, this`history
      modifies this`requestIdCounter, runner, table, wasm`inner, wasm`wasmWork, wasm`uninstantiating, wasm.semaphore
      ensures (State(), head) == Resolved(old(State()), env) && Orderly() && (!head.Erred? ==> Valid())
      ensures wasm.semaphore.permits + Held(wasm.State()) == old(wasm.semaphore.permits + Held(wasm.State()))
      ensures old(history) <= history && Swaps(history) == Swaps(old(history))
      ensures old(runner.flow.delivered) <= runner.flow.delivered
      ensures head.Drained? ==> wasm.wasmWork == None && runner.channel == []
      ensures head.Erred? ==> wasm.wasmWork == None
      ensures head.Busy? ==> wasm.wasmWork.Some? && !wasm.wasmWork.value.stage.Queued?
      ensures head.CutOff? && env != [] ==> wasm.wasmWork.Some?
      ensures head.CutOff? ==> |runner.flow.delivered + InFlight()| == |old(runner.flow.delivered + InFlight())| + |env|
    {
      hide Flowing, OpsMatch, Script, WebCalls, ControllerModule.Connected, Good, Steady, Swaps, Messages, RunSwapped,
        Handle, WasmPolled, ResultTaken;
      var i := 0;
      while true
        invariant Valid() && old(history) <= history && Swaps(history) == Swaps(old(history)) && i <= |env|
        invariant i > 0 ==> wasm.wasmWork.Some?
        invariant |runner.flow.delivered + InFlight()| == |old(runner.flow.delivered + InFlight())| + i
        invariant Resolved(State(), env[i..]) == Resolved(old(State()), env)
        invariant old(runner.flow.delivered) <= runner.flow.delivered
        invariant wasm.semaphore.permits + Held(wasm.State()) == old(wasm.semaphore.permits + Held(wasm.State()))
        decreases |env| - i
      {
        if i == |env| {
          return CutOff;
        }
        assert env[i..][1..] == env[i + 1..];
        var isReady := PollWasm(env[i]);
        if !isReady {
          return Busy;
        }
        var result := ResolveAsyncOps(env[i]);
        match result {
          case Failure => return Erred;
          case NothingYet => return Drained;
          case Delivery(_) => i := i + 1;
        }
      }
    }

    /**
      One pass of the event loop, cut off after as many results as there are readings. The asserts and unreachable
      branches of the source are preconditions of what is called here.
     */
    method PollEventLoop(env: seq<Reading>, last: Reading) returns (r: LoopPoll)
      requires Valid()
      modifies this`lastEventTime, this`predictedWakeup, this`firstEventAfterShutdown, this`history
      modifies this`requestIdCounter, runner, table, wasm`inner, wasm`wasmWork, wasm`uninstantiating, wasm.semaphore
      ensures (State(), r) == Pass(old(State()), env, last, compileWithUninstantiate)
      ensures Orderly() && (!r.LoopFailed? ==> Valid())
      ensures r.LoopFailed? <==> Resolved(old(State()), env).1.Erred?
      ensures var s := old(State());
        r.LoopFinished? <==> GetsToEnd(s, env, last) && AtEnd(s, env, last).runner.ops == map[]
      ensures var s := old(State());
        GetsToEnd(s, env, last) && AtEnd(s, env, last).runner.ops != map[] ==>
          SwapsAsDue(AtEnd(s, env, last), last, compileWithUninstantiate, State())
      ensures wasm.semaphore.permits + Held(wasm.State()) == old(wasm.semaphore.permits + Held(wasm.State()))
      ensures old(history) <= history && Swaps(history) <= Swaps(old(history)) + 1
      ensures Swaps(history) > Swaps(old(history)) ==>
        wasm.wasmWork in {Some(Work(LoadToMem, Queued)), Some(Work(Uninstantiate, Queued))}
      ensures Swaps(history) > Swaps(old(history)) && wasm.uninstantiating ==>
        WebCalls(runner.pendingOps) == {} && IsInactivePeriod(last.now, lastEventTime)
      ensures Swaps(history) > Swaps(old(history)) && !wasm.uninstantiating ==>
        InTimeBeforePredictionPeriod(last.now, predictedWakeup)
      ensures env != [] && r.LoopPending? && wasm.wasmWork == None ==>
        SwapDue(State(), last.now, compileWithUninstantiate) == None
      ensures Resolved(old(State()), env).1.Drained? ==> runner.channel == []
      ensures old(runner.flow.delivered) <= runner.flow.delivered
      ensures wasm.wasmWork == None ==> (wasm.uninstantiating <==> !HoldsInstance(wasm.State()))
      ensures r.LoopFinished? ==> wasm.wasmWork == None && runner.pendingOps == map[]
      ensures r.LoopFinished? ==> (table.pending == {} <==> runner.channel == [])
    {
      hide Flowing, OpsMatch, Script, WebCalls, ControllerModule.Connected, Good, Steady, Swaps, Messages, RunSwapped,
        Handle, WasmPolled, Resolved, SwapScheduled, SwapDue, SwapsAsDue;
      var head := ResolveAll(env);
      if head.CutOff? {
        return LoopPending;
      } else if head.Erred? {
        return LoopFailed;
      }
      var isReady := PollWasm(last);
      if !isReady {
        return LoopPending;
      }
      if runner.pendingOps == map[] {
        FinishedIffDelivered();
        return LoopFinished;
      }
      ScheduleSwap(last);
      r := LoopPending;
    }

    /** The end of a pass that leaves the loop running: swaps the guest in or out, if it is time. */
    method ScheduleSwap(e: Reading)
      requires Valid() && wasm.wasmWork == None
      modifies this`predictedWakeup, this`firstEventAfterShutdown, this`history, wasm`wasmWork, wasm`uninstantiating
      ensures Valid() && State() == SwapScheduled(old(State()), e, compileWithUninstantiate)
      ensures SwapsAsDue(old(State()), e, compileWithUninstantiate, State())
      ensures Held(wasm.State()) == old(Held(wasm.State()))
      ensures history == old(history) + if wasm.wasmWork.Some? then [EventOf(wasm.wasmWork.value.task)] else []
      ensures Swaps(history) == Swaps(old(history)) + if wasm.wasmWork.Some? then 1 else 0
      ensures wasm.wasmWork == None ==> SwapDue(State(), e.now, compileWithUninstantiate) == None
      ensures wasm.wasmWork.Some? ==>
        wasm.wasmWork in {Some(Work(LoadToMem, Queued)), Some(Work(Uninstantiate, Queued))}
      ensures wasm.wasmWork.Some? && wasm.uninstantiating ==>
        WebCalls(runner.pendingOps) == {} && IsInactivePeriod(e.now, lastEventTime)
      ensures wasm.wasmWork.Some? && !wasm.uninstantiating ==> InTimeBeforePredictionPeriod(e.now, predictedWakeup)
    {
      hide Flowing, OpsMatch, Script, WebCalls, ControllerModule.Connected, Good, Steady, Swaps, Messages, RunSwapped,
        Handle, NumMilliseconds, PlaceFits, WellFormed, SwapsAsDue;
      NoWebCalls();
      RenewedOnce(e.now, predictedWakeup);
      SwapIsDue(State(), e, compileWithUninstantiate);
      var now := e.now;
      if NumMilliseconds(now - predictedWakeup) > 0 && !InTimeGracePeriod(now, predictedWakeup) {
        predictedWakeup := now + FAR_AHEAD;
      }
      if wasm.uninstantiating && InTimeBeforePredictionPeriod(now, predictedWakeup) {
        ScheduleTask(LoadToMem);
      }
      if runner.nrWebCalls == 0 && !wasm.uninstantiating && compileWithUninstantiate &&
        IsInactivePeriod(now, lastEventTime)
        && !InTimeBeforePredictionPeriod(now, predictedWakeup) && !InTimeGracePeriod(now, predictedWakeup) {
        ScheduleTask(Uninstantiate);
        if !firstEventAfterShutdown && e.prediction.Some? {
          predictedWakeup := e.prediction.value;
        }
        firstEventAfterShutdown := true;
      }
    }

    /** What the guest has been handed answers the requests it has made. */
    lemma GuestIsAnswered(id: nat)
      requires Orderly() && id < |CtxOf(wasm.State()).requests|
      ensures id in runner.flow.requests
      ensures Answers(Of(runner.flow.delivered, id), id, CtxOf(wasm.State()).requests[id], id in runner.flow.table)
    {
      hide Flowing, Answers, Script, Mirrors, Sound, CtxOf;
      DeliveredAnswers(runner.flow, InFlight(), id);
    }

    lemma NoWebCalls()
      requires Connected(InFlight())
      ensures runner.nrWebCalls == 0 <==> WebCalls(runner.pendingOps) == {}
    {}

    /** When the loop ends, nothing is lost exactly when the channel is empty. */
    lemma FinishedIffDelivered()
      requires Connected([]) && runner.pendingOps == map[]
      ensures table.pending == {} <==> runner.channel == []
    {
      if runner.channel == [] {
        AllDelivered(runner.pendingOps, runner.flow);
      } else {
        LeftInChannel(runner.flow);
        assert runner.flow.channel[0] in runner.flow.channel;
      }
    }
  }

  /** A pass that is not cut off is the same however many readings there are: cutting off is all that is bounded. */
  lemma {:induction false} MoreReadings(s: ModuleState, env: seq<Reading>, more: seq<Reading>)
    requires !Resolved(s, env).1.CutOff?
    ensures Resolved(s, env + more) == Resolved(s, env)
    decreases |env|
  {
    hide WasmPolled, ResultTaken;
    assert env != [] && (env + more)[0] == env[0] && (env + more)[1..] == env[1..] + more;
    var t := WasmPolled(s, env[0]);
    if t.runtime.work == None && ResultTaken(t, env[0]).1.Delivery? {
      MoreReadings(ResultTaken(t, env[0]).0, env[1..], more);
    }
  }

  lemma WasmPolledIs(s: ModuleState, e: Reading)
    ensures var (runtime, permits) := Polled(s.runtime, s.permits, e.ready, 0);
      && (!RunsTo(s.runtime, runtime) ==> WasmPolled(s, e) == s.(runtime := runtime, permits := permits))
      && (RunsTo(s.runtime, runtime) && runtime.inner.GotInst? && s.nextId <= |runtime.inner.image.ctx.requests| ==>
        var asked := runtime.inner.image.ctx.requests[s.nextId..];
        WasmPolled(s, e) == s.(
          runtime := runtime,
          permits := permits,
          runner := GuestRuns(s.runner, s.nextId, s.runtime.work.value.task, asked, e.eager),
          nextId := s.nextId + |asked|))
  {
    hide Polled, GuestRuns;
  }

  lemma SchedulingKeepsMemory(r: Runtime, task: Task)
    requires Sound(r) && MaySchedule(r, task) && Sound(Scheduled(r, task))
    ensures MemoryOf(Scheduled(r, task)) == MemoryOf(r) && CtxOf(Scheduled(r, task)) == CtxOf(r)
  {}

  /** What a run of the guest adds to its context is what is read off the loaded instance. */
  lemma RunRecords(r: Runtime, r': Runtime)
    requires Sound(r) && Sound(r') && RanFrom(r, r')
    ensures r'.inner.GotInst? && r'.inner.image.ctx == CtxOf(r') && |CtxOf(r).requests| <= |CtxOf(r').requests|
    ensures CtxOf(r).requests + CtxOf(r').requests[|CtxOf(r).requests|..] == CtxOf(r').requests
  {}

  lemma RenewedOnce(now: int, predicted: int)
    ensures Renewed(now, Renewed(now, predicted)) == Renewed(now, predicted)
  {}

  /** The messages handed to the guest in the course of events. */
  ghost function Messages(events: seq<Event>): seq<AsyncResult>
  {
    if events == [] then []
    else
      var e := events[|events| - 1];
      Messages(events[..|events| - 1]) + if e.Deliver? && e.call.CallWakeup? then [e.call.message] else []
  }

  ghost function Swaps(events: seq<Event>): nat
  {
    if events == [] then 0 else Swaps(events[..|events| - 1]) + if events[|events| - 1].Deliver? then 0 else 1
  }

  lemma OneMoreMessage(events: seq<Event>, e: Event)
    ensures Messages(events + [e]) == Messages(events) + if e.Deliver? && e.call.CallWakeup? then [e.call.message]
      else []
    ensures Swaps(events + [e]) == Swaps(events) + if e.Deliver? then 0 else 1
  {
    assert (events + [e])[..|events|] == events;
  }

  lemma OpsMatchDeliver(ops: map<nat, Op>, f: Flow, m: AsyncResult)
    requires OpsMatch(ops, f)
    ensures OpsMatch(ops, Delivered(f, m))
  {}
}
