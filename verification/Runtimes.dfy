/** The instance of one module: loaded, on disk or in between, and the one piece of asynchronous work on it. */
module Runtimes {
  import opened Wrappers
  import opened Swapping

  datatype Task = StartController | Uninstantiate | LoadToMem | Wakeup(message: Requests.AsyncResult)

  /** The call of a task that runs the guest. */
  function CallOf(task: Task): Call
  {
    if task.Wakeup? then CallWakeup(task.message) else CallStart
  }

  /** What a task does to the guest. */
  function EventOf(task: Task): Event
  {
    match task
    case Uninstantiate => Out
    case LoadToMem => In
    case _ => Deliver(CallOf(task))
  }

  datatype MaybeInst = Locked | NotInst(image: Image) | UnsInst(image: Image) | GotInst(image: Image)

  /**
    How far a task is: not polled yet; waiting for a permit, with the context taken out; about to instantiate, with a
    permit; waiting for the swap file, with a permit and a new instance; waiting for the swap file to be written, with
    permit and instance taken out; with the store taken apart, about to drop the permit.
   */
  datatype Stage =
    | Queued
    | Acquiring(image: Image)
    | Instantiating(image: Image)
    | Loading(image: Image)
    | Writing(image: Image)
    | Releasing

  datatype Work = Work(task: Task, stage: Stage)

  datatype Runtime = Runtime(program: Program, inner: MaybeInst, work: Option<Work>, uninstantiating: bool)

  /** A turn of a task: it waits, gets one stage further, ends, or hits an unreachable branch or a failing assertion. */
  datatype Turn =
    | Blocked
    | Continues(runtime: Runtime, permits: nat)
    | Ends(runtime: Runtime, permits: nat)
    | Unreachable

  /** A permit is held by a loaded instance and by the tasks that took one or took one along. */
  predicate HoldsPermit(r: Runtime)
  {
    r.inner.GotInst? || (r.work.Some? && !r.work.value.stage.Queued? && !r.work.value.stage.Acquiring?)
  }

  /** An instance exists from instantiation until its store is taken apart. */
  predicate HoldsInstance(r: Runtime)
  {
    r.inner.GotInst? || (r.work.Some? && (r.work.value.stage.Loading? || r.work.value.stage.Writing?))
  }

  /** The next stage of a task when what it waits for is ready. */
  function TakeTurn(r: Runtime, permits: nat): Turn
    requires r.work.Some?
  {
    var task, stage := r.work.value.task, r.work.value.stage;
    match stage
    case Queued =>
      if task.Uninstantiate? then
        if r.inner.GotInst?
          then Continues(r.(inner := Locked, work := Some(Work(task, Writing(r.inner.image)))), permits)
        else Ends(r.(work := None), permits)
      else if task.StartController? && r.inner.NotInst? then
        Continues(r.(inner := Locked, work := Some(Work(task, Acquiring(r.inner.image)))), permits)
      else if !task.StartController? && r.inner.UnsInst? then
        Continues(r.(inner := Locked, work := Some(Work(task, Acquiring(r.inner.image)))), permits)
      else FinishTask(r, task, permits)
    case Acquiring(image) =>
      if permits == 0 then Blocked else Continues(r.(work := Some(Work(task, Instantiating(image)))), permits - 1)
    case Instantiating(image) =>
      if task.StartController? then FinishTask(r.(inner := GotInst(image)), task, permits)
      else Continues(r.(work := Some(Work(task, Loading(image)))), permits)
    case Loading(image) =>
      (match Handle(r.program, image, In)
       case None => Unreachable
       case Some(loaded) => FinishTask(r.(inner := GotInst(loaded)), task, permits))
    case Writing(image) =>
      (match Handle(r.program, image, Out)
       case None => Unreachable
       case Some(swapped) => Continues(r.(inner := UnsInst(swapped), work := Some(Work(task, Releasing))), permits))
    case Releasing => Ends(r.(work := None), permits + 1)
  }

  /** The end of a task that needs the guest loaded. */
  function FinishTask(r: Runtime, task: Task, permits: nat): Turn
  {
    if !r.inner.GotInst? then Unreachable
    else if task.LoadToMem? then Ends(r.(work := None), permits)
    else
      match Handle(r.program, r.inner.image, EventOf(task))
      case None => Unreachable
      case Some(after) => Ends(r.(inner := GotInst(after), work := None), permits)
  }

  /** The task suits the instance it was scheduled for, and what it has taken out is missing from it. */
  ghost predicate TaskFits(r: Runtime)
  {
    match r.work
    case None => !r.inner.Locked? && (r.uninstantiating <==> !r.inner.GotInst?)
    case Some(Work(task, stage)) =>
      && (r.uninstantiating <==> task.Uninstantiate?)
      && (match stage
          case Queued =>
            match task {
              case StartController => r.inner.NotInst?
              case Uninstantiate => r.inner.GotInst?
              case _ => r.inner.GotInst? || r.inner.UnsInst?
            }
          case Acquiring(_) => r.inner.Locked? && !task.Uninstantiate?
          case Instantiating(_) => r.inner.Locked? && !task.Uninstantiate?
          case Loading(_) => r.inner.Locked? && (task.LoadToMem? || task.Wakeup?)
          case Writing(_) => r.inner.Locked? && task.Uninstantiate?
          case Releasing => r.inner.UnsInst? && task.Uninstantiate?)
  }

  /** The guest is on disk exactly while it is swapped out or on its way back in. */
  ghost predicate PlaceFits(r: Runtime)
  {
    match r.inner
    case NotInst(image) => image.place.InMemory?
    case UnsInst(image) => image.place.OnDisk?
    case GotInst(image) => image.place.InMemory?
    case Locked =>
      && r.work.Some? && !r.work.value.stage.Queued? && !r.work.value.stage.Releasing?
      && (r.work.value.stage.image.place.InMemory? <==>
        r.work.value.task.StartController? || r.work.value.task.Uninstantiate?)
  }

  ghost predicate Sound(r: Runtime)
  {
    TaskFits(r) && PlaceFits(r) && Steady(r.program) && Good(r.program, Kept(r))
  }

  /** The guest and its context, wherever they are kept. */
  ghost function Kept(r: Runtime): Image
    requires PlaceFits(r)
  {
    if r.inner.Locked? then r.work.value.stage.image else r.inner.image
  }

  /** The guest and its context once the pending task has ended. */
  ghost function Outcome(r: Runtime): Option<Image>
    requires PlaceFits(r)
  {
    if r.work.None? || r.work.value.stage.Releasing? then Some(Kept(r))
      else Handle(r.program, Kept(r), EventOf(r.work.value.task))
  }

  /** Tasks that run the guest. */
  predicate RunsTheGuest(task: Task)
  {
    task.StartController? || task.Wakeup?
  }

  predicate Started(r: Runtime)
  {
    !r.inner.NotInst?
  }

  /** Scheduling: only when nothing is pending, and suiting the instance. */
  ghost predicate MaySchedule(r: Runtime, task: Task)
  {
    r.work == None &&
    match task
    case StartController => r.inner.NotInst?
    case Uninstantiate => !r.uninstantiating
    case LoadToMem => r.uninstantiating && Started(r)
    case Wakeup(_) => Started(r)
  }

  function Scheduled(r: Runtime, task: Task): Runtime
  {
    r.(work := Some(Work(task, Queued)), uninstantiating := task.Uninstantiate?)
  }

  function Held(r: Runtime): nat
  {
    if HoldsPermit(r) then 1 else 0
  }

  lemma SchedulingKeepsSound(r: Runtime, task: Task)
    requires Sound(r) && MaySchedule(r, task)
    ensures Sound(Scheduled(r, task)) && Held(Scheduled(r, task)) == Held(r)
    ensures Outcome(Scheduled(r, task)) == Handle(r.program, Kept(r), EventOf(task))
  {
    hide Good, Steady, Handle;
  }

  lemma OutcomeIsSome(r: Runtime)
    requires Sound(r)
    ensures Outcome(r).Some?
  {
    hide Steady, Good, Handle;
    HandleKeepsGood(r.program, Kept(r), if r.work.Some? then EventOf(r.work.value.task) else In);
  }

  /** A turn keeps the guest, or lets the task's event happen to it; nothing else, and neither fails. */
  lemma TurnKeepsOutcome(r: Runtime, permits: nat)
    requires Sound(r) && r.work.Some?
    ensures var turn := TakeTurn(r, permits);
      && !turn.Unreachable?
      && (turn.Continues? || turn.Ends? ==>
        turn.runtime.program == r.program && Sound(turn.runtime) && Outcome(turn.runtime) == Outcome(r))
      && (turn.Ends? ==> Some(Kept(turn.runtime)) == Outcome(r))
  {
    hide WellFormed, Steady, Restore;
    HandleKeepsGood(r.program, Kept(r), In);
    HandleKeepsGood(r.program, Kept(r), Out);
    HandleKeepsGood(r.program, Kept(r), EventOf(r.work.value.task));
  }

  /**
    A turn gives and takes permits one for one, is held up only for want of one, keeps a module started once it has
    run, and an ended task leaves the flag saying whether an instance is loaded.
   */
  lemma TurnKeepsPermits(r: Runtime, permits: nat)
    requires TaskFits(r) && r.work.Some?
    ensures var turn := TakeTurn(r, permits);
      && (turn.Blocked? <==> permits == 0 && r.work.value.stage.Acquiring?)
      && (turn.Continues? || turn.Ends? ==>
        turn.permits + Held(turn.runtime) == permits + Held(r) && Started(turn.runtime))
      && (turn.Continues? ==> turn.runtime.work.Some? && turn.runtime.work.value.task == r.work.value.task)
      && (turn.Ends? ==> turn.runtime.work == None && (turn.runtime.uninstantiating <==> !HoldsInstance(turn.runtime)))
      && (turn.Ends? ==> turn.runtime.inner.UnsInst? == r.work.value.task.Uninstantiate?)
      && (turn.Continues? || turn.Ends? ==>
        turn.runtime.uninstantiating == r.uninstantiating && TurnsLeft(turn.runtime) < TurnsLeft(r))
      && (HoldsInstance(r) ==> HoldsPermit(r))
  {
    hide Handle;
  }

  /** Turns left until a task ends, not counting waits. */
  function TurnsLeft(r: Runtime): nat
  {
    match r.work
    case None => 0
    case Some(Work(_, Queued)) => 5
    case Some(Work(_, Acquiring(_))) => 4
    case Some(Work(_, Instantiating(_))) => 3
    case Some(Work(_, Releasing)) => 1
    case Some(Work(_, _)) => 2
  }

  /** The memory of the guest, wherever it is kept. */
  ghost function MemoryOf(r: Runtime): seq<Byte>
    requires Sound(r)
  {
    Loaded(r.program, Kept(r).place).value.memory
  }

  ghost function CtxOf(r: Runtime): Ctx
    requires Sound(r)
  {
    Kept(r).ctx
  }

  /** The second state has the guest where running it for the pending task of the first has brought it. */
  ghost predicate RanFrom(r: Runtime, r': Runtime)
    requires Sound(r) && Sound(r')
  {
    && r.work.Some? && RunsTheGuest(r.work.value.task) && r'.inner.GotInst?
    && var g := Loaded(r.program, Kept(r).place).value;
    && var after := r.program.react(g, CtxOf(r), CallOf(r.work.value.task));
    && WellFormed(g, r.program.initial) && g.memory == MemoryOf(r)
    && MemoryOf(r') == after.0.memory && CtxOf(r') == after.1 && CtxOf(r).requests <= CtxOf(r').requests
  }

  lemma OutcomeIsRun(r: Runtime, r': Runtime)
    requires Sound(r) && Sound(r') && r'.program == r.program && Outcome(r') == Outcome(r)
    requires r.work.Some? && RunsTheGuest(r.work.value.task) && r'.work == None && r'.inner.GotInst?
    ensures RanFrom(r, r')
  {
    hide Restore;
  }

  /** Unless the guest has run, its memory and context are as they were. */
  lemma TurnKeepsMemory(r: Runtime, permits: nat)
    requires Sound(r) && r.work.Some?
    ensures var turn := TakeTurn(r, permits);
      turn.Continues? || (turn.Ends? && !RunsTheGuest(r.work.value.task)) ==>
        Sound(turn.runtime) && MemoryOf(turn.runtime) == MemoryOf(r) && CtxOf(turn.runtime) == CtxOf(r)
  {
    hide WellFormed, Steady, Restore;
    TurnKeepsOutcome(r, permits);
    HandleKeepsGood(r.program, Kept(r), In);
    if r.work.value.stage.Writing? { SwapKeepsMemory(r.program, Kept(r), Out); }
  }

  // ---- polling the work ----

  /** The stage awaits something. */
  predicate Awaits(stage: Stage)
  {
    stage.Acquiring? || stage.Loading? || stage.Writing?
  }

  /**
    What the stage awaits is not there; `ready` says of the swap file and of a place in the semaphore's queue whether
    they are.
   */
  predicate MustWait(stage: Stage, permits: nat, ready: seq<bool>, n: nat)
  {
    Awaits(stage) && (n >= |ready| || !ready[n] || (stage.Acquiring? && permits == 0))
  }

  /** The work taken as far as it goes, with the permits then left; `ready` goes turn by turn. */
  function Polled(r: Runtime, permits: nat, ready: seq<bool>, n: nat): (Runtime, nat)
    decreases TurnsLeft(r)
  {
    if r.work == None || MustWait(r.work.value.stage, permits, ready, n) then (r, permits)
    else
      match TakeTurn(r, permits)
      case Continues(r', permits') => Polled(r', permits', ready, n + 1)
      case Ends(r', permits') => (r', permits')
      case _ => (r, permits)
  }

  /** No permit is taken, no swap file read and none written before it is there: the work stays where it is. */
  lemma WaitsForWhatIsAwaited(r: Runtime, permits: nat, ready: seq<bool>, n: nat)
    requires r.work.Some?
    requires
      || ((r.work.value.stage.Acquiring? || r.work.value.stage.Loading? || r.work.value.stage.Writing?)
          && (n >= |ready| || !ready[n]))
      || (r.work.value.stage.Acquiring? && permits == 0)
    ensures Polled(r, permits, ready, n) == (r, permits)
  {}

  /** An instance comes to exist where a task instantiates it, and ceases to where its store is taken apart. */
  lemma InstanceLifetime(r: Runtime, permits: nat)
    requires TaskFits(r) && r.work.Some?
    ensures var turn, stage := TakeTurn(r, permits), r.work.value.stage;
      turn.Continues? || turn.Ends? ==>
        && (!HoldsInstance(r) && HoldsInstance(turn.runtime) <==> stage.Instantiating?)
        && (HoldsInstance(r) && !HoldsInstance(turn.runtime) <==> stage.Writing?)
  {
    hide Handle;
  }

  /** A task that runs the guest has come to its end. */
  predicate RunsTo(r: Runtime, r': Runtime)
  {
    r.work.Some? && RunsTheGuest(r.work.value.task) && r'.work == None
  }

  /** What polling keeps, and what its end means. */
  lemma {:induction false} PolledKeeps(r: Runtime, permits: nat, ready: seq<bool>, n: nat)
    requires Sound(r)
    ensures var (r', permits') := Polled(r, permits, ready, n);
      && Sound(r') && r'.program == r.program && r'.uninstantiating == r.uninstantiating && Outcome(r') == Outcome(r)
      && permits' + Held(r') == permits + Held(r)
      && (r'.work.Some? ==> r.work.Some? && r'.work.value.task == r.work.value.task && Awaits(r'.work.value.stage))
      && (r'.work == None && r.work.Some? ==> (r'.inner.UnsInst? <==> r.work.value.task.Uninstantiate?))
      && (Started(r) || (r'.work == None && r.work.Some?) ==> Started(r'))
      && (RunsTo(r, r') ==> RanFrom(r, r'))
      && (!RunsTo(r, r') ==> MemoryOf(r') == MemoryOf(r) && CtxOf(r') == CtxOf(r))
    decreases TurnsLeft(r)
  {
    hide TakeTurn, TurnsLeft, Good, Steady, TaskFits, PlaceFits, MemoryOf, CtxOf, RanFrom;
    if r.work.Some? && !MustWait(r.work.value.stage, permits, ready, n) {
      FitsOf(r);
      TurnKeepsOutcome(r, permits);
      TurnKeepsPermits(r, permits);
      TurnKeepsMemory(r, permits);
      var turn := TakeTurn(r, permits);
      if turn.Continues? { PolledKeeps(turn.runtime, turn.permits, ready, n + 1); }
      var r' := Polled(r, permits, ready, n).0;
      if RunsTo(r, r') {
        EndIsLoaded(r');
        OutcomeIsRun(r, r');
      }
    }
  }

  lemma EndIsLoaded(r: Runtime)
    requires Sound(r) && r.work == None && Started(r) && !r.inner.UnsInst?
    ensures r.inner.GotInst?
  {}

  lemma FitsOf(r: Runtime)
    requires Sound(r)
    ensures TaskFits(r) && PlaceFits(r)
  {}

  /** With all awaited files there, and a permit for the module, the work ends. */
  lemma {:induction false} PolledEnds(r: Runtime, permits: nat, ready: seq<bool>, n: nat)
    requires Sound(r) && permits + Held(r) > 0
    requires n + TurnsLeft(r) <= |ready| && forall i :: n <= i < |ready| ==> ready[i]
    ensures Polled(r, permits, ready, n).0.work == None
    decreases TurnsLeft(r)
  {
    hide TakeTurn, Good, Steady, PlaceFits;
    if r.work.Some? {
      TurnKeepsOutcome(r, permits);
      TurnKeepsPermits(r, permits);
      var turn := TakeTurn(r, permits);
      if turn.Continues? { PolledEnds(turn.runtime, turn.permits, ready, n + 1); }
    }
  }

  /** The permits the modules share. */
  class Semaphore {
    var permits: nat

    constructor (permits: nat)
      ensures this.permits == permits
    {
      this.permits := permits;
    }
  }

  class WasmRuntime {
    var inner: MaybeInst
    var wasmWork: Option<Work>
    var uninstantiating: bool
    const program: Program
    const semaphore: Semaphore

    function State(): Runtime
      reads this
    {
      Runtime(program, inner, wasmWork, uninstantiating)
    }

    constructor (program: Program, ctx: Ctx, semaphore: Semaphore)
      requires Steady(program)
      ensures State() == Runtime(program, NotInst(Image(InMemory(program.initial), ctx)), None, true)
      ensures Sound(State()) && this.program == program && this.semaphore == semaphore
    {
      inner, wasmWork, uninstantiating := NotInst(Image(InMemory(program.initial), ctx)), None, true;
      this.program, this.semaphore := program, semaphore;
    }

    /** `start_controller`, `uninstantiate`, `load_to_mem` and `wakeup`: sets the work aside, to be polled. */
    method Schedule(task: Task)
      requires Sound(State()) && MaySchedule(State(), task)
      modifies this`wasmWork, this`uninstantiating
      ensures State() == Scheduled(old(State()), task) && Sound(State())
      ensures Outcome(State()) == Handle(program, old(Kept(State())), EventOf(task))
    {
      SchedulingKeepsSound(State(), task);
      wasmWork := Some(Work(task, Queued));
      uninstantiating := task.Uninstantiate?;
    }

    /** `take_not`, `take_uns` and `take_got`: an instance of the wanted kind is taken out, any other is left alone. */
    method TakeInner(task: Task) returns (taken: MaybeInst)
      modifies this`inner
      ensures var wanted := if task.StartController? then old(inner).NotInst?
        else if task.Uninstantiate? then old(inner).GotInst? else old(inner).UnsInst?;
        if wanted then taken == old(inner) && inner == Locked else taken == Locked && inner == old(inner)
    {
      var wanted := match task
        case StartController => inner.NotInst?
        case Uninstantiate => inner.GotInst?
        case _ => inner.UnsInst?;
      if wanted {
        taken, inner := inner, Locked;
      } else {
        taken := Locked;
      }
    }

    /** Takes the work one stage further. Returns whether it has ended. */
    method Advance() returns (ended: bool)
      requires Sound(State()) && wasmWork.Some? && (wasmWork.value.stage.Acquiring? ==> semaphore.permits > 0)
      modifies this`inner, this`wasmWork, semaphore
      ensures TakeTurn(old(State()), old(semaphore.permits)) ==
        if ended then Ends(State(), semaphore.permits) else Continues(State(), semaphore.permits)
      ensures (ended ==> wasmWork == None) && TurnsLeft(State()) < TurnsLeft(old(State()))
    {
      hide Good, Steady, Restore;
      TurnKeepsOutcome(State(), semaphore.permits);
      TurnKeepsPermits(State(), semaphore.permits);
      var task := wasmWork.value.task;
      match wasmWork.value.stage {
        case Queued =>
          var taken := TakeInner(task);
          if taken.Locked? {
            if !task.Uninstantiate? { FinishLoaded(task); }
            wasmWork := None;
            return true;
          }
          wasmWork := Some(Work(task, if task.Uninstantiate? then Writing(taken.image) else Acquiring(taken.image)));
          ended := false;
        case Acquiring(image) =>
          semaphore.permits := semaphore.permits - 1;
          wasmWork := Some(Work(task, Instantiating(image)));
          ended := false;
        case Instantiating(image) =>
          if task.StartController? {
            inner := GotInst(image);
            FinishLoaded(task);
            wasmWork := None;
            return true;
          }
          wasmWork := Some(Work(task, Loading(image)));
          ended := false;
        case Loading(image) =>
          var guest := SwapIn(program.initial, image.place.file, image.place.snapshot);
          inner := GotInst(Image(InMemory(guest.value), image.ctx));
          FinishLoaded(task);
          wasmWork := None;
          ended := true;
        case Writing(image) =>
          inner := UnsInst(Image(SwapOut(image.place.guest), image.ctx));
          wasmWork := Some(Work(task, Releasing));
          ended := false;
        case Releasing =>
          semaphore.permits := semaphore.permits + 1;
          wasmWork := None;
          ended := true;
      }
    }

    /** The branch of the source that is unreachable unless the guest is loaded, and the run of the guest. */
    method FinishLoaded(task: Task)
      requires inner.GotInst? && inner.image.place.InMemory? && !task.Uninstantiate?
      modifies this`inner
      ensures Some(inner) == if task.LoadToMem? then Some(old(inner)) else
        match Handle(program, old(inner).image, EventOf(task))
        case None => None
        case Some(after) => Some(GotInst(after))
    {
      if !task.LoadToMem? {
        var call := if task.StartController? then CallStart else CallWakeup(task.message);
        var (guest, ctx) := program.react(inner.image.place.guest, inner.image.ctx, call);
        inner := GotInst(Image(InMemory(guest), ctx));
      }
    }

    /** Polls the work until it ends or waits; `ready` says, turn by turn, whether what it waits for is there. */
    method PollUnpin(ready: seq<bool>) returns (isReady: bool)
      requires Sound(State())
      modifies this`inner, this`wasmWork, semaphore
      ensures (State(), semaphore.permits) == Polled(old(State()), old(semaphore.permits), ready, 0)
      ensures Sound(State()) && Outcome(State()) == old(Outcome(State())) && uninstantiating == old(uninstantiating)
      ensures semaphore.permits + Held(State()) == old(semaphore.permits + Held(State()))
      ensures isReady <==> wasmWork == None
      ensures !isReady ==> wasmWork.Some? && old(wasmWork).Some? && wasmWork.value.task == old(wasmWork).value.task
      ensures old(wasmWork) == None ==> State() == old(State()) && semaphore.permits == old(semaphore.permits)
      ensures isReady && old(wasmWork).Some? ==> (inner.UnsInst? <==> old(wasmWork).value.task.Uninstantiate?)
      ensures old(Started(State())) || (isReady && old(wasmWork).Some?) ==> Started(State())
      ensures !isReady ==>
        var stage := wasmWork.value.stage;
        stage.Acquiring? || stage.Loading? || stage.Writing?
      ensures old(wasmWork).Some? && Awaits(old(wasmWork).value.stage) && (ready == [] || !ready[0]) ==>
        !isReady && State() == old(State()) && semaphore.permits == old(semaphore.permits)
      ensures |ready| >= 5 && (forall i :: 0 <= i < |ready| ==> ready[i]) ==>
        old(semaphore.permits + Held(State())) == 0 || isReady
    {
      hide Good, Steady, TakeTurn, TurnsLeft, TaskFits, PlaceFits;
      PolledKeeps(State(), semaphore.permits, ready, 0);
      AtMostFiveTurns(State());
      if wasmWork.Some? && Awaits(wasmWork.value.stage) && (ready == [] || !ready[0]) {
        WaitsForWhatIsAwaited(State(), semaphore.permits, ready, 0);
      }
      if |ready| >= 5 && (forall i :: 0 <= i < |ready| ==> ready[i]) && semaphore.permits + Held(State()) > 0 {
        PolledEnds(State(), semaphore.permits, ready, 0);
      }
      var n := 0;
      while wasmWork.Some?
        invariant Sound(State())
        invariant Polled(State(), semaphore.permits, ready, n) == Polled(old(State()), old(semaphore.permits), ready, 0)
        decreases TurnsLeft(State())
      {
        if MustWait(wasmWork.value.stage, semaphore.permits, ready, n) {
          return false;
        }
        TurnKeepsOutcome(State(), semaphore.permits);
        var ended := Advance();
        n := n + 1;
      }
      isReady := true;
    }
  }

  lemma AtMostFiveTurns(r: Runtime)
    ensures TurnsLeft(r) <= 5
  {}

  // ---- any number of modules ----

  /** All modules, and the permits nobody holds. */
  datatype System = System(permits: nat, modules: seq<Runtime>)

  /**
    A module that ends drops its store, then its permit, like one that is swapped out. Nobody looks at its guest again;
    that more may be scheduled for it here only adds runs.
   */
  function Ended(r: Runtime): Runtime
    requires r.inner.GotInst? && r.inner.image.place.InMemory?
  {
    Runtime(r.program, UnsInst(Image(SwapOut(r.inner.image.place.guest), r.inner.image.ctx)),
      Some(Work(Uninstantiate, Releasing)), true)
  }

  /** One step of one module: a task is scheduled, takes a turn, or the module ends. */
  ghost predicate Step(s: System, s': System, i: nat)
  {
    && i < |s.modules| == |s'.modules|
    && (forall j :: 0 <= j < |s.modules| && j != i ==> s'.modules[j] == s.modules[j])
    && var r, r' := s.modules[i], s'.modules[i];
      || (exists task :: MaySchedule(r, task) && r' == Scheduled(r, task) && s'.permits == s.permits)
      || (r.work.Some? && TakeTurn(r, s.permits) in {Continues(r', s'.permits), Ends(r', s'.permits)})
      || (r.work == None && r.inner.GotInst? && r.inner.image.place.InMemory? && s'.permits == s.permits &&
        r' == Ended(r))
  }

  ghost predicate IsRun(states: seq<System>, who: seq<nat>)
  {
    && |states| == |who| + 1
    && (forall n :: 0 <= n < |states| ==> |states[n].modules| == |states[0].modules|)
    && forall n :: 0 <= n < |who| ==> Step(states[n], states[n + 1], who[n])
  }

  ghost function TotalHeld(modules: seq<Runtime>): nat
  {
    if modules == [] then 0 else TotalHeld(modules[..|modules| - 1]) + Held(modules[|modules| - 1])
  }

  ghost function LiveInstances(modules: seq<Runtime>): nat
  {
    if modules == [] then 0
    else LiveInstances(modules[..|modules| - 1]) + if HoldsInstance(modules[|modules| - 1]) then 1 else 0
  }

  ghost predicate AllSound(s: System)
  {
    forall j :: 0 <= j < |s.modules| ==> Sound(s.modules[j])
  }

  lemma {:induction false} HeldAfter(a: seq<Runtime>, b: seq<Runtime>, i: nat)
    requires i < |a| == |b| && forall j :: 0 <= j < |a| && j != i ==> a[j] == b[j]
    ensures TotalHeld(b) + Held(a[i]) == TotalHeld(a) + Held(b[i])
    decreases |a|
  {
    var n := |a| - 1;
    if i == n {
      assert a[..n] == b[..n];
    } else {
      HeldAfter(a[..n], b[..n], i);
    }
  }

  lemma {:induction false} LiveIsHeld(modules: seq<Runtime>)
    ensures LiveInstances(modules) <= TotalHeld(modules)
    decreases |modules|
  {
    if modules != [] { LiveIsHeld(modules[..|modules| - 1]); }
  }

  /** What a step of a module adds to its history: the task that is scheduled. */
  function NewEvents(r: Runtime, r': Runtime): seq<Event>
  {
    if r.work == None && r'.work.Some? then [EventOf(r'.work.value.task)] else []
  }

  /** The outcome stays, or a new event is handled, by what the module has come to. */
  ghost predicate Follows(r: Runtime, r': Runtime)
  {
    && PlaceFits(r) && PlaceFits(r') && r'.program == r.program && Outcome(r').Some?
    && (NewEvents(r, r') == [] ==> Outcome(r') == Outcome(r))
    && (NewEvents(r, r') != [] ==>
      Outcome(r) == Some(Kept(r)) && Outcome(r') == Handle(r.program, Kept(r), NewEvents(r, r')[0]))
  }

  /** What a module's own step keeps. */
  lemma ModuleStep(s: System, s': System, i: nat)
    requires Step(s, s', i) && Sound(s.modules[i])
    ensures Sound(s'.modules[i]) && Follows(s.modules[i], s'.modules[i])
    ensures s'.permits + Held(s'.modules[i]) == s.permits + Held(s.modules[i])
  {
    hide TakeTurn, WellFormed, Restore, Steady;
    var r, r' := s.modules[i], s'.modules[i];
    OutcomeIsSome(r);
    if task :| MaySchedule(r, task) && r' == Scheduled(r, task) && s'.permits == s.permits {
      SchedulingKeepsSound(r, task);
    } else if r.work.Some? {
      TurnKeepsOutcome(r, s.permits);
      TurnKeepsPermits(r, s.permits);
    } else {
      HandleKeepsGood(r.program, Kept(r), Out);
    }
  }

  /** What every step of every module keeps. */
  lemma StepConserves(s: System, s': System, i: nat)
    requires Step(s, s', i) && AllSound(s)
    ensures AllSound(s') && s'.permits + TotalHeld(s'.modules) == s.permits + TotalHeld(s.modules)
  {
    hide Sound, TakeTurn, MaySchedule;
    HeldAfter(s.modules, s'.modules, i);
    ModuleStep(s, s', i);
  }

  lemma {:induction false} RunConserves(states: seq<System>, who: seq<nat>, n: nat)
    requires IsRun(states, who) && AllSound(states[0]) && n <= |who|
    ensures AllSound(states[n])
    ensures states[n].permits + TotalHeld(states[n].modules) == states[0].permits + TotalHeld(states[0].modules)
  {
    hide Step, AllSound;
    if n > 0 {
      RunConserves(states, who, n - 1);
      StepConserves(states[n - 1], states[n], who[n - 1]);
    }
  }

  /**
    For any number of modules and any interleaving: permits free and held add up to the pool, and so there are never
    more live instances than the pool allows.
   */
  lemma PoolBound(states: seq<System>, who: seq<nat>, n: nat, poolSize: nat)
    requires IsRun(states, who) && AllSound(states[0]) && n <= |who|
    requires states[0].permits + TotalHeld(states[0].modules) == poolSize
    ensures states[n].permits + TotalHeld(states[n].modules) == poolSize
    ensures LiveInstances(states[n].modules) <= poolSize
  {
    RunConserves(states, who, n);
    LiveIsHeld(states[n].modules);
  }

  /** The events of one module up to a state of a run. */
  ghost function History(states: seq<System>, i: nat, n: nat): seq<Event>
    requires n < |states| && forall k :: 0 <= k <= n ==> i < |states[k].modules|
  {
    if n == 0 then [] else History(states, i, n - 1) + NewEvents(states[n - 1].modules[i], states[n].modules[i])
  }

  /** A module as it is made. */
  ghost predicate IsNew(r: Runtime, p: Program, ctx: Ctx)
  {
    Steady(p) && r == Runtime(p, NotInst(Image(InMemory(p.initial), ctx)), None, true)
  }

  /** However the modules interleave, each module's guest ends up where its own events, one after the other, lead it. */
  lemma {:induction false} OutcomeIsHistory(states: seq<System>, who: seq<nat>, i: nat, n: nat, p: Program, ctx: Ctx)
    requires IsRun(states, who) && AllSound(states[0]) && n <= |who|
    requires i < |states[0].modules| && IsNew(states[0].modules[i], p, ctx)
    ensures forall k :: 0 <= k <= n ==> i < |states[k].modules|
    ensures var r := states[n].modules[i];
      PlaceFits(r) && r.program == p && Outcome(r).Some? && Outcome(r) == RunSwapped(p, ctx, History(states, i, n))
  {
    hide Step, MaySchedule, TakeTurn, Handle, Steady, Good, TaskFits, RunSwapped;
    assert |states[n].modules| == |states[0].modules|;
    if n == 0 {
      NoEvents(p, ctx);
    } else {
      var s, s', j := states[n - 1], states[n], who[n - 1];
      OutcomeIsHistory(states, who, i, n - 1, p, ctx);
      RunConserves(states, who, n - 1);
      StepAt(s, s', j, i);
      var events := History(states, i, n - 1);
      var added := NewEvents(s.modules[i], s'.modules[i]);
      if added == [] {
        assert events + added == events;
      } else {
        OneMoreEvent(p, ctx, events, added[0]);
      }
    }
  }

  /** What any step means for any module. */
  lemma StepAt(s: System, s': System, j: nat, i: nat)
    requires Step(s, s', j) && AllSound(s) && i < |s.modules|
    ensures i < |s'.modules| && Follows(s.modules[i], s'.modules[i])
  {
    hide TakeTurn, MaySchedule, Steady, Restore, WellFormed;
    ModuleStep(s, s', j);
    OutcomeIsSome(s.modules[i]);
  }

  /** What the events of a module say about its state. */
  ghost predicate Tracks(r: Runtime, events: seq<Event>)
  {
    && (events == [] ==> r.inner.NotInst? && r.work == None)
    && (events != [] && r.work == None ==> Started(r))
    && (r.uninstantiating <==> events == [] || events[|events| - 1].Out?)
  }

  /** A module only schedules what it may go through. */
  lemma StepTracks(s: System, s': System, j: nat, i: nat, events: seq<Event>, p: Program, ctx: Ctx)
    requires Step(s, s', j) && AllSound(s) && i < |s.modules|
    requires Schedulable(events) && Tracks(s.modules[i], events)
    ensures i < |s'.modules|
    ensures var after := events + NewEvents(s.modules[i], s'.modules[i]);
      Schedulable(after) && Tracks(s'.modules[i], after)
  {
    hide TakeTurn, Steady, Good, Schedulable, Calls, RunPlain, RunSwapped;
    var r, r' := s.modules[i], s'.modules[i];
    if i != j || r.work.Some? {
      if i == j { TurnKeepsPermits(r, s.permits); }
      assert NewEvents(r, r') == [] && events + [] == events;
    } else {
      OneMoreEvent(p, ctx, events, NewEvents(r, r')[0]);
    }
  }

  lemma {:induction false} HistoryIsSchedulable(states: seq<System>, who: seq<nat>, i: nat, n: nat, p: Program,
      ctx: Ctx)
    requires IsModuleRun(states, who, i, n, p, ctx)
    ensures Schedulable(History(states, i, n)) && Tracks(states[n].modules[i], History(states, i, n))
  {
    hide Step, Steady, Good, TaskFits, PlaceFits, Tracks;
    if n == 0 {
      NothingTracked(states[0].modules[i], p, ctx);
    } else {
      HistoryIsSchedulable(states, who, i, n - 1, p, ctx);
      RunConserves(states, who, n - 1);
      StepTracks(states[n - 1], states[n], who[n - 1], i, History(states, i, n - 1), p, ctx);
    }
  }

  lemma NothingTracked(r: Runtime, p: Program, ctx: Ctx)
    requires IsNew(r, p, ctx)
    ensures Schedulable([]) && Tracks(r, [])
  {}

  /** A run of any number of modules, one of which is made for the program. */
  ghost predicate IsModuleRun(states: seq<System>, who: seq<nat>, i: nat, n: nat, p: Program, ctx: Ctx)
  {
    IsRun(states, who) && AllSound(states[0]) && n <= |who| && i < |states[0].modules| &&
      IsNew(states[0].modules[i], p, ctx)
  }

  /**
    Once its pending task has ended, the module's guest has the memory, globals and context to which the same calls lead
    a guest that is never swapped out.
   */
  ghost predicate Unnoticed(states: seq<System>, i: nat, n: nat, p: Program, ctx: Ctx)
    requires n < |states| && forall k :: 0 <= k <= n ==> i < |states[k].modules|
  {
    var r, plain := states[n].modules[i], RunPlain(p, ctx, History(states, i, n));
    && PlaceFits(r) && Outcome(r).Some? && Outcome(r).value.ctx == plain.1
    && Loaded(p, Outcome(r).value.place).Some? && Alike(Loaded(p, Outcome(r).value.place).value, plain.0)
  }

  /** Over all runs of any number of modules. */
  ghost predicate AlwaysUnnoticed(p: Program, ctx: Ctx)
  {
    forall states, who, i, n :: IsModuleRun(states, who, i, n, p, ctx) ==> Unnoticed(states, i, n, p, ctx)
  }

  /** Then the run is one of events with and without swaps. */
  lemma UnnoticedIsTransparent(states: seq<System>, who: seq<nat>, i: nat, n: nat, p: Program, ctx: Ctx)
    requires IsModuleRun(states, who, i, n, p, ctx)
    ensures Unnoticed(states, i, n, p, ctx) <==> Transparent(p, ctx, History(states, i, n))
  {
    hide Step, Handle, Steady, Good, RunSwapped, RunPlain;
    OutcomeIsHistory(states, who, i, n, p, ctx);
  }

  // ---- every schedulable sequence of events has a run ----

  function TaskOf(e: Event): Task
  {
    match e
    case Deliver(CallStart) => StartController
    case Deliver(CallWakeup(m)) => Wakeup(m)
    case Out => Uninstantiate
    case In => LoadToMem
  }

  lemma {:induction false} HistoryOfPrefix(states: seq<System>, more: seq<System>, i: nat, n: nat)
    requires n < |states| && forall k :: 0 <= k <= n ==> i < |states[k].modules|
    ensures History(states + more, i, n) == History(states, i, n)
  {
    if n > 0 { HistoryOfPrefix(states, more, i, n - 1); }
  }

  /** A run of one module, with a pool of one. */
  ghost predicate IsSoloRun(states: seq<System>, who: seq<nat>, p: Program, ctx: Ctx)
  {
    IsModuleRun(states, who, 0, |who|, p, ctx) && states[0].permits == 1 && |states[0].modules| == 1
  }

  /** One more step of a run of one module. */
  lemma OneMoreStep(states: seq<System>, who: seq<nat>, s: System, p: Program, ctx: Ctx)
    requires IsSoloRun(states, who, p, ctx) && Step(states[|who|], s, 0)
    ensures IsSoloRun(states + [s], who + [0], p, ctx)
    ensures History(states + [s], 0, |who| + 1) ==
      History(states, 0, |who|) + NewEvents(states[|who|].modules[0], s.modules[0])
  {
    hide Step, Sound, NewEvents;
    var n := |who|;
    assert forall k :: 0 <= k < n ==> (states + [s])[k] == states[k] && (who + [0])[k] == who[k];
    assert (states + [s])[n] == states[n] && (who + [0])[n] == 0;
    SameSystems(states[n], s);
    HistoryOfPrefix(states, [s], 0, n);
  }

  lemma SameSystems(s: System, s': System)
    requires Step(s, s', 0)
    ensures |s'.modules| == |s.modules|
  {}

  /** The pending task can always be brought to its end. */
  lemma {:induction false} Finish(states: seq<System>, who: seq<nat>, p: Program, ctx: Ctx)
      returns (states': seq<System>, who': seq<nat>)
    requires IsSoloRun(states, who, p, ctx)
    ensures IsSoloRun(states', who', p, ctx) && states'[|who'|].modules[0].work == None
    ensures History(states', 0, |who'|) == History(states, 0, |who|)
    decreases TurnsLeft(states[|who|].modules[0])
  {
    hide TakeTurn, History, Steady, Good, PlaceFits;
    var s := states[|who|];
    var r := s.modules[0];
    if r.work == None {
      return states, who;
    }
    RunConserves(states, who, |who|);
    SoloHeld(states[0].modules);
    SoloHeld(s.modules);
    TurnKeepsOutcome(r, s.permits);
    TurnKeepsPermits(r, s.permits);
    NewHoldsNothing(states[0].modules[0], p, ctx);
    var turn := TakeTurn(r, s.permits);
    var next := System(turn.permits, [turn.runtime]);
    OneMoreStep(states, who, next, p, ctx);
    states', who' := Finish(states + [next], who + [0], p, ctx);
  }

  lemma SoloHeld(modules: seq<Runtime>)
    requires |modules| == 1
    ensures TotalHeld(modules) == Held(modules[0])
  {
    assert modules[..0] == [];
  }

  lemma NewHoldsNothing(r: Runtime, p: Program, ctx: Ctx)
    requires IsNew(r, p, ctx)
    ensures Held(r) == 0
  {}

  lemma {:induction false} Realise(p: Program, ctx: Ctx, events: seq<Event>)
      returns (states: seq<System>, who: seq<nat>)
    requires Steady(p) && Schedulable(events)
    ensures IsSoloRun(states, who, p, ctx) && states[|who|].modules[0].work == None
    ensures History(states, 0, |who|) == events
    decreases |events|
  {
    hide Step, TakeTurn, Handle, RunSwapped, RunPlain, WellFormed, Steady, MayFollow;
    if events == [] {
      states, who := [System(1, [Runtime(p, NotInst(Image(InMemory(p.initial), ctx)), None, true)])], [];
      NewIsSound(p, ctx);
    } else {
      var before, e := events[..|events| - 1], events[|events| - 1];
      states, who := Realise(p, ctx, before);
      var next := RealiseNext(states, who, p, ctx, before, e);
      assert before + [e] == events;
      states, who := Finish(states + [next], who + [0], p, ctx);
    }
  }

  /** The next event's task can be scheduled. */
  lemma RealiseNext(states: seq<System>, who: seq<nat>, p: Program, ctx: Ctx, before: seq<Event>, e: Event)
      returns (next: System)
    requires IsSoloRun(states, who, p, ctx) && states[|who|].modules[0].work == None
    requires History(states, 0, |who|) == before && MayFollow(before, e)
    ensures IsSoloRun(states + [next], who + [0], p, ctx) && History(states + [next], 0, |who| + 1) == before + [e]
  {
    hide Step, TakeTurn, Handle, RunSwapped, RunPlain, WellFormed, Steady, AllSound, History, MayFollow;
    HistoryIsSchedulable(states, who, 0, |who|, p, ctx);
    ScheduleNext(states[|who|], before, e);
    next := System(states[|who|].permits, [Scheduled(states[|who|].modules[0], TaskOf(e))]);
    OneMoreStep(states, who, next, p, ctx);
  }

  lemma ScheduleNext(s: System, before: seq<Event>, e: Event)
    requires |s.modules| == 1 && s.modules[0].work == None && Tracks(s.modules[0], before) && MayFollow(before, e)
    ensures var r := s.modules[0];
      var r' := Scheduled(r, TaskOf(e));
      Step(s, System(s.permits, [r']), 0) && NewEvents(r, r') == [e]
  {
    hide TakeTurn;
    assert MaySchedule(s.modules[0], TaskOf(e));
  }

  lemma NewIsSound(p: Program, ctx: Ctx)
    requires Steady(p)
    ensures Sound(Runtime(p, NotInst(Image(InMemory(p.initial), ctx)), None, true))
  {}

  /**
    Swapping goes unnoticed over all runs of any number of modules exactly when the guest can do without the state a
    snapshot leaves out.
   */
  lemma SwappingGoesUnnoticed(p: Program, ctx: Ctx)
    requires Steady(p)
    ensures AlwaysUnnoticed(p, ctx) <==> Forgettable(p, ctx)
  {
    hide Step, Steady, Sound, Forgettable, Transparent, Unnoticed, Schedulable;
    if Forgettable(p, ctx) {
      forall states, who, i, n | IsModuleRun(states, who, i, n, p, ctx) ensures Unnoticed(states, i, n, p, ctx) {
        HistoryIsSchedulable(states, who, i, n, p, ctx);
        ForgettableIsTransparent(p, ctx, History(states, i, n));
        UnnoticedIsTransparent(states, who, i, n, p, ctx);
      }
    }
    if AlwaysUnnoticed(p, ctx) {
      forall events | Schedulable(events) ensures Transparent(p, ctx, events) {
        var states, who := Realise(p, ctx, events);
        UnnoticedIsTransparent(states, who, 0, |who|, p, ctx);
      }
      SwapTransparency(p, ctx);
    }
  }
}
