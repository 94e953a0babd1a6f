/** Swapping a guest instance out to a file and back in, and when the guest does not notice. */
module Swapping {
  import opened Wrappers
  import Requests

  type Byte(==, !new)
  /** The value of a WebAssembly global. */
  type Val(==, !new)
  /** Instance state that is neither memory nor an exported mutable global. */
  type Hidden(==, !new)
  /** What else there is in the host's context of a guest. */
  type Rest(==, !new)

  /** The host's context of a guest: the requests it has made, whose number is the next one's id, and the rest. */
  datatype Ctx = Ctx(requests: seq<Requests.Request>, rest: Rest)

  const WASM_PAGE_SIZE: nat := 0x10000

  /** Exported mutable globals, by name, in the order of the module's exports. */
  type Globals = seq<(string, Val)>

  datatype Guest = Guest(memory: seq<Byte>, globals: Globals, hidden: Hidden)

  datatype Snapshot = Snapshot(globals: Globals, memoryMin: nat)

  ghost predicate SameNames(a: Globals, b: Globals)
  {
    |a| == |b| && forall i :: 0 <= i < |a| ==> a[i].0 == b[i].0
  }

  ghost predicate DistinctNames(a: Globals)
  {
    forall i, j :: 0 <= i < j < |a| ==> a[i].0 != a[j].0
  }

  /** Memories are whole pages and never shrink, and an instance has the globals of its module. */
  ghost predicate WellFormed(g: Guest, initial: Guest)
  {
    && |g.memory| % WASM_PAGE_SIZE == 0 && |initial.memory| % WASM_PAGE_SIZE == 0
    && |g.memory| >= |initial.memory|
    && SameNames(g.globals, initial.globals) && DistinctNames(initial.globals)
  }

  // ---- globals ----

  function IndexOf(globals: Globals, name: string): (i: nat)
    ensures i <= |globals| && (i < |globals| ==> globals[i].0 == name)
    ensures forall j :: 0 <= j < i ==> globals[j].0 != name
  {
    if globals == [] || globals[0].0 == name then 0 else 1 + IndexOf(globals[1..], name)
  }

  /** `get_global(name).unwrap().set(value)`; none when there is no such global. */
  function SetGlobal(globals: Globals, name: string, value: Val): Option<Globals>
  {
    var i := IndexOf(globals, name);
    if i == |globals| then None else Some(globals[i := (name, value)])
  }

  function SetAll(globals: Globals, listed: Globals): Option<Globals>
  {
    if listed == [] then Some(globals)
    else
      match SetAll(globals, listed[..|listed| - 1])
      case None => None
      case Some(before) => SetGlobal(before, listed[|listed| - 1].0, listed[|listed| - 1].1)
  }

  ghost predicate HasName(globals: Globals, name: string)
  {
    exists i :: 0 <= i < |globals| && globals[i].0 == name
  }

  /** Setting globals works exactly when all of them are there, and leaves the same names. */
  lemma {:induction false} SetAllIff(globals: Globals, listed: Globals)
    ensures SetAll(globals, listed).Some? <==> forall i :: 0 <= i < |listed| ==> HasName(globals, listed[i].0)
    ensures SetAll(globals, listed).Some? ==> SameNames(SetAll(globals, listed).value, globals)
    decreases |listed|
  {
    if listed != [] {
      var n := |listed| - 1;
      SetAllIff(globals, listed[..n]);
      var before := SetAll(globals, listed[..n]);
      if before.Some? {
        var i := IndexOf(before.value, listed[n].0);
        assert HasName(globals, listed[n].0) <==> i < |globals|;
        assert forall j :: 0 <= j < n ==> listed[..n][j] == listed[j];
      } else {
        var j :| 0 <= j < n && !HasName(globals, listed[..n][j].0);
        assert !HasName(globals, listed[j].0);
      }
    }
  }

  /** What setting one more global comes to, and that a missing one is enough to fail. */
  lemma OneMoreSet(globals: Globals, listed: Globals, i: nat)
    requires i < |listed| && SetAll(globals, listed[..i]).Some?
    ensures SetAll(globals, listed[..i + 1]) == SetGlobal(SetAll(globals, listed[..i]).value, listed[i].0, listed[i].1)
    ensures SetAll(globals, listed[..i + 1]) == None ==> SetAll(globals, listed) == None
  {
    hide SetGlobal, HasName;
    assert listed[..i + 1][..i] == listed[..i] && listed[..i + 1][i] == listed[i];
    SetAllIff(globals, listed[..i + 1]);
    SetAllIff(globals, listed);
    assert forall j :: 0 <= j <= i ==> listed[..i + 1][j] == listed[j];
  }

  lemma SetAt(globals: Globals, name: string, value: Val, k: nat)
    requires k < |globals| && globals[k].0 == name && forall j :: 0 <= j < k ==> globals[j].0 != name
    ensures SetGlobal(globals, name, value) == Some(globals[k := (name, value)])
  {}

  lemma OneMore<T>(a: seq<T>, b: seq<T>, k: nat)
    requires k < |a| == |b|
    ensures (a[..k] + b[k..])[k := a[k]] == a[..k + 1] + b[k + 1..] && a[..k + 1][..k] == a[..k]
  {}

  /** Setting all globals of an instance to listed values gives the list. */
  lemma {:induction false} SetAllIsListed(globals: Globals, listed: Globals, k: nat)
    requires SameNames(listed, globals) && DistinctNames(globals) && k <= |listed|
    ensures SetAll(globals, listed[..k]) == Some(listed[..k] + globals[k..])
  {
    hide SetGlobal, IndexOf;
    if k == 0 {
      assert listed[..0] + globals[0..] == globals;
    } else {
      SetAllIsListed(globals, listed, k - 1);
      OneMore(listed, globals, k - 1);
      SetAt(listed[..k - 1] + globals[k - 1..], listed[k - 1].0, listed[k - 1].1, k - 1);
    }
  }

  // ---- out and in ----

  /** Where a guest is: in memory, or in the swap file and a snapshot. */
  datatype Place = InMemory(guest: Guest) | OnDisk(file: seq<Byte>, snapshot: Snapshot)

  /** The memory goes to the swap file, the globals and the memory's length to the snapshot. */
  function SwapOut(g: Guest): Place
  {
    OnDisk(g.memory, Snapshot(g.globals, |g.memory|))
  }

  /** Pages to grow by, rounded up. */
  function GrowBy(memoryDiff: nat): nat
  {
    memoryDiff / WASM_PAGE_SIZE + if memoryDiff % WASM_PAGE_SIZE > 0 then 1 else 0
  }

  /** The length of the memory after growing it for the snapshot. */
  function GrownLength(initial: nat, memoryMin: nat): nat
  {
    if memoryMin > initial then initial + GrowBy(memoryMin - initial) * WASM_PAGE_SIZE else initial
  }

  /**
    A new instance after growing it, reading the file over the whole memory and setting the globals. None is an error
    or a failed assertion of the source: a file too short, a read of another length than the snapshot's, a global the
    new instance does not have.
   */
  function Restore(initial: Guest, file: seq<Byte>, snapshot: Snapshot): Option<Guest>
  {
    var length := GrownLength(|initial.memory|, snapshot.memoryMin);
    if length > |file| || length != snapshot.memoryMin then None
    else
      match SetAll(initial.globals, snapshot.globals)
      case None => None
      case Some(globals) => Some(Guest(file[..length], globals, initial.hidden))
  }

  method SwapIn(initial: Guest, file: seq<Byte>, snapshot: Snapshot) returns (r: Option<Guest>)
    ensures r == Restore(initial, file, snapshot)
  {
    hide SetGlobal, IndexOf;
    var length := |initial.memory|;
    if snapshot.memoryMin > length {
      var pages := (snapshot.memoryMin - length) / WASM_PAGE_SIZE;
      if (snapshot.memoryMin - length) % WASM_PAGE_SIZE > 0 {
        pages := pages + 1;
      }
      length := length + pages * WASM_PAGE_SIZE;
    }
    if length > |file| {
      return None;
    }
    var memory := file[..length];
    if |memory| != snapshot.memoryMin {
      return None;
    }
    var globals := initial.globals;
    for i := 0 to |snapshot.globals|
      invariant SetAll(initial.globals, snapshot.globals[..i]) == Some(globals)
    {
      var (name, value) := snapshot.globals[i];
      var updated := SetGlobal(globals, name, value);
      OneMoreSet(initial.globals, snapshot.globals, i);
      if updated == None {
        return None;
      }
      globals := updated.value;
    }
    assert snapshot.globals[..|snapshot.globals|] == snapshot.globals;
    r := Some(Guest(memory, globals, initial.hidden));
  }

  /** Growing by the rounded-up page count hits the saved length exactly when it differs by whole pages. */
  lemma GrowHitsIff(initial: nat, memoryMin: nat)
    ensures GrownLength(initial, memoryMin) == memoryMin <==>
      initial <= memoryMin && (memoryMin - initial) % 0x1_0000 == 0
  {}

  /**
    When loading works: the file is long enough, the memory is whole pages above the new one, and the globals exist.
   */
  lemma RestoreIff(initial: Guest, file: seq<Byte>, snapshot: Snapshot)
    ensures Restore(initial, file, snapshot).Some? <==>
      && |initial.memory| <= snapshot.memoryMin <= |file|
      && (snapshot.memoryMin - |initial.memory|) % 0x1_0000 == 0
      && forall i :: 0 <= i < |snapshot.globals| ==> HasName(initial.globals, snapshot.globals[i].0)
  {
    GrowHitsIff(|initial.memory|, snapshot.memoryMin);
    SetAllIff(initial.globals, snapshot.globals);
  }

  /** Out and in again never fails, and loses only what the snapshot leaves out. */
  lemma RoundTrip(g: Guest, initial: Guest)
    requires WellFormed(g, initial)
    ensures Restore(initial, SwapOut(g).file, SwapOut(g).snapshot) == Some(g.(hidden := initial.hidden))
  {
    hide SetAll, GrownLength, IndexOf, DistinctNames;
    GrowHitsIff(|initial.memory|, |g.memory|);
    assert g.memory[..|g.memory|] == g.memory;
    var n := |g.globals|;
    SetAllIsListed(initial.globals, g.globals, n);
    assert g.globals[..n] == g.globals;
    assert g.globals[..n] + initial.globals[n..] == g.globals;
  }

  // ---- runs with and without swaps ----

  /** A call of the host into the guest. */
  datatype Call = CallStart | CallWakeup(message: Requests.AsyncResult)

  datatype Event = Out | In | Deliver(call: Call)

  /** A module: a new instance of it, and what a guest and its host make of a call. */
  datatype Program = Program(initial: Guest, react: (Guest, Ctx, Call) -> (Guest, Ctx))

  /** A guest with its host context. */
  datatype Image = Image(place: Place, ctx: Ctx)

  /** Running keeps guests well-formed, and only adds requests. */
  ghost predicate Steady(p: Program)
  {
    && WellFormed(p.initial, p.initial)
    && (forall g, c, call :: WellFormed(g, p.initial) ==> WellFormed(p.react(g, c, call).0, p.initial))
    && forall g, c: Ctx, call :: WellFormed(g, p.initial) ==> c.requests <= p.react(g, c, call).1.requests
  }

  function Loaded(p: Program, place: Place): Option<Guest>
  {
    match place
    case InMemory(g) => Some(g)
    case OnDisk(file, snapshot) => Restore(p.initial, file, snapshot)
  }

  /**
    One event: a call first loads a guest that is on disk; swapping out is idle there, swapping in is idle in memory.
   */
  function Handle(p: Program, image: Image, e: Event): Option<Image>
  {
    match e
    case Out => Some(Image(if image.place.InMemory? then SwapOut(image.place.guest) else image.place, image.ctx))
    case In =>
      (match Loaded(p, image.place)
       case None => None
       case Some(g) => Some(Image(InMemory(g), image.ctx)))
    case Deliver(call) =>
      match Loaded(p, image.place)
      case None => None
      case Some(g) => var after := p.react(g, image.ctx, call); Some(Image(InMemory(after.0), after.1))
  }

  /** Where the events lead a new guest; none when an assertion fails on the way. */
  function RunSwapped(p: Program, ctx: Ctx, events: seq<Event>): Option<Image>
  {
    if events == [] then Some(Image(InMemory(p.initial), ctx))
    else
      match RunSwapped(p, ctx, events[..|events| - 1])
      case None => None
      case Some(before) => Handle(p, before, events[|events| - 1])
  }

  /** The same calls to a guest that always stays in memory. */
  function RunPlain(p: Program, ctx: Ctx, events: seq<Event>): (Guest, Ctx)
  {
    if events == [] then (p.initial, ctx)
    else
      var before := RunPlain(p, ctx, events[..|events| - 1]);
      match events[|events| - 1]
      case Deliver(call) => p.react(before.0, before.1, call)
      case _ => before
  }

  lemma NoEvents(p: Program, ctx: Ctx)
    ensures RunSwapped(p, ctx, []) == Some(Image(InMemory(p.initial), ctx)) && RunPlain(p, ctx, []) == (p.initial, ctx)
    ensures Schedulable([])
  {}

  /** The guest can be loaded, well-formed. */
  ghost predicate Good(p: Program, image: Image)
  {
    Loaded(p, image.place).Some? && WellFormed(Loaded(p, image.place).value, p.initial)
  }

  /** No event makes an assertion of the source fail. */
  lemma HandleKeepsGood(p: Program, image: Image, e: Event)
    requires Steady(p) && Good(p, image)
    ensures Handle(p, image, e).Some? && Good(p, Handle(p, image, e).value)
    ensures Handle(p, image, e).value.place.OnDisk? <==> e.Out?
  {
    if e.Out? && image.place.InMemory? { RoundTrip(image.place.guest, p.initial); }
  }

  /** Swapping keeps the guest's memory, and with it whatever the guest has in it. */
  lemma SwapKeepsMemory(p: Program, image: Image, e: Event)
    requires Steady(p) && Good(p, image) && !e.Deliver?
    ensures Handle(p, image, e).Some? && Loaded(p, Handle(p, image, e).value.place).Some?
    ensures Loaded(p, Handle(p, image, e).value.place).value.memory == Loaded(p, image.place).value.memory
  {
    HandleKeepsGood(p, image, e);
    if e.Out? && image.place.InMemory? { RoundTrip(image.place.guest, p.initial); }
  }

  lemma {:induction false} RunsNeverFail(p: Program, ctx: Ctx, events: seq<Event>)
    requires Steady(p)
    ensures RunSwapped(p, ctx, events).Some? && Good(p, RunSwapped(p, ctx, events).value)
    decreases |events|
  {
    if events != [] {
      var before := events[..|events| - 1];
      RunsNeverFail(p, ctx, before);
      HandleKeepsGood(p, RunSwapped(p, ctx, before).value, events[|events| - 1]);
    }
  }

  // ---- what a guest can see ----

  /** The guests have the same memory and the same exported globals. */
  ghost predicate Alike(a: Guest, b: Guest)
  {
    a.memory == b.memory && a.globals == b.globals
  }

  /** The run with swaps has memory, globals and context where the run without has them. */
  ghost predicate Transparent(p: Program, ctx: Ctx, events: seq<Event>)
  {
    var swapped, plain := RunSwapped(p, ctx, events), RunPlain(p, ctx, events);
    && swapped.Some? && swapped.value.ctx == plain.1
    && Loaded(p, swapped.value.place).Some? && Alike(Loaded(p, swapped.value.place).value, plain.0)
  }

  /** Sequences of events a module can go through: it starts once, swaps out only from memory and in only from disk. */
  predicate Schedulable(events: seq<Event>)
  {
    events == [] || (Schedulable(events[..|events| - 1]) && MayFollow(events[..|events| - 1], events[|events| - 1]))
  }

  predicate MayFollow(before: seq<Event>, e: Event)
  {
    match e
    case Deliver(CallStart) => before == []
    case Deliver(CallWakeup(_)) => before != []
    case Out => before != [] && before[|before| - 1] != Out
    case In => before != [] && before[|before| - 1] == Out
  }

  /** After the events, the guest makes the same of a call as it would without the state a snapshot leaves out. */
  ghost predicate MissesNothing(p: Program, ctx: Ctx, events: seq<Event>, call: Call)
  {
    var image := RunSwapped(p, ctx, events);
    image.Some? && Loaded(p, image.value.place).Some? ==>
      var g := Loaded(p, image.value.place).value;
      var kept, lost := p.react(g, image.value.ctx, call),
        p.react(g.(hidden := p.initial.hidden), image.value.ctx, call);
      Alike(kept.0, lost.0) && kept.1 == lost.1
  }

  /** Wherever swaps and calls lead it, the guest can do without the state a snapshot leaves out. */
  ghost predicate Forgettable(p: Program, ctx: Ctx)
  {
    forall events, call :: Schedulable(events + [Deliver(call)]) ==> MissesNothing(p, ctx, events, call)
  }

  /** The calls among the events. */
  function Calls(events: seq<Event>): seq<Event>
  {
    if events == [] then []
    else Calls(events[..|events| - 1]) + if events[|events| - 1].Deliver? then [events[|events| - 1]] else []
  }

  /** What one more event means. */
  lemma OneMoreEvent(p: Program, ctx: Ctx, events: seq<Event>, e: Event)
    ensures RunSwapped(p, ctx, events).Some? ==>
      RunSwapped(p, ctx, events + [e]) == Handle(p, RunSwapped(p, ctx, events).value, e)
    ensures RunPlain(p, ctx, events + [e]) ==
      if e.Deliver? then p.react(RunPlain(p, ctx, events).0, RunPlain(p, ctx, events).1, e.call)
        else RunPlain(p, ctx, events)
    ensures Calls(events + [e]) == if e.Deliver? then Calls(events) + [e] else Calls(events)
    ensures Schedulable(events + [e]) <==> Schedulable(events) && MayFollow(events, e)
  {
    assert (events + [e])[..|events|] == events;
  }

  /** A plain run is the run of the calls alone. */
  lemma {:induction false} CallsArePlain(p: Program, ctx: Ctx, events: seq<Event>)
    ensures RunSwapped(p, ctx, Calls(events)) ==
      Some(Image(InMemory(RunPlain(p, ctx, events).0), RunPlain(p, ctx, events).1))
    decreases |events|
  {
    if events != [] {
      var before, e := events[..|events| - 1], events[|events| - 1];
      assert before + [e] == events;
      CallsArePlain(p, ctx, before);
      OneMoreEvent(p, ctx, before, e);
      OneMoreEvent(p, ctx, Calls(before), e);
    }
  }

  lemma {:induction false} CallsAreSchedulable(p: Program, ctx: Ctx, events: seq<Event>)
    requires Schedulable(events)
    ensures Schedulable(Calls(events)) && (Calls(events) == [] <==> events == [])
    decreases |events|
  {
    if events != [] {
      var before, e := events[..|events| - 1], events[|events| - 1];
      CallsAreSchedulable(p, ctx, before);
      assert before + [e] == events;
      OneMoreEvent(p, ctx, before, e);
      OneMoreEvent(p, ctx, Calls(before), e);
    }
  }

  /** One more call keeps the runs alike, if the guest misses nothing either way. */
  lemma CallKeepsTransparent(p: Program, ctx: Ctx, events: seq<Event>, call: Call)
    requires Steady(p) && Forgettable(p, ctx) && Schedulable(events + [Deliver(call)]) && Transparent(p, ctx, events)
    ensures Transparent(p, ctx, events + [Deliver(call)])
  {
    var e := Deliver(call);
    OneMoreEvent(p, ctx, events, e);
    CallsArePlain(p, ctx, events);
    CallsAreSchedulable(p, ctx, events + [e]);
    assert MissesNothing(p, ctx, events, call) && MissesNothing(p, ctx, Calls(events), call);
    var swapped := Loaded(p, RunSwapped(p, ctx, events).value.place).value;
    assert swapped.(hidden := p.initial.hidden) == RunPlain(p, ctx, events).0.(hidden := p.initial.hidden);
  }

  lemma {:induction false} ForgettableIsTransparent(p: Program, ctx: Ctx, events: seq<Event>)
    requires Steady(p) && Forgettable(p, ctx) && Schedulable(events)
    ensures Transparent(p, ctx, events)
    decreases |events|
  {
    if events != [] {
      var before, e := events[..|events| - 1], events[|events| - 1];
      assert before + [e] == events;
      ForgettableIsTransparent(p, ctx, before);
      if e.Deliver? {
        CallKeepsTransparent(p, ctx, before, e.call);
      } else {
        RunsNeverFail(p, ctx, before);
        var place := RunSwapped(p, ctx, before).value.place;
        if place.InMemory? { RoundTrip(place.guest, p.initial); }
      }
    }
  }

  /** Swapping out right before a call shows, unless the guest misses nothing. */
  lemma TransparentMissesNothing(p: Program, ctx: Ctx, events: seq<Event>, call: Call)
    requires Steady(p) && Schedulable(events + [Deliver(call)])
    requires forall s :: Schedulable(s) ==> Transparent(p, ctx, s)
    ensures MissesNothing(p, ctx, events, call)
  {
    LastOut(p, ctx, events);
    OneMoreEvent(p, ctx, events, Deliver(call));
    OneMoreEvent(p, ctx, events, Out);
    OneMoreEvent(p, ctx, events + [Out], Deliver(call));
    RunsNeverFail(p, ctx, events);
    var image := RunSwapped(p, ctx, events).value;
    if events != [] && image.place.InMemory? {
      RoundTrip(image.place.guest, p.initial);
      assert Transparent(p, ctx, events + [Deliver(call)]) && Transparent(p, ctx, events + [Out] + [Deliver(call)]);
    }
  }

  /** The guest is on disk exactly after a swap-out. */
  lemma LastOut(p: Program, ctx: Ctx, events: seq<Event>)
    requires Steady(p)
    ensures RunSwapped(p, ctx, events).Some?
    ensures RunSwapped(p, ctx, events).value.place.OnDisk? <==> events != [] && events[|events| - 1].Out?
  {
    RunsNeverFail(p, ctx, events);
    if events != [] {
      var before := events[..|events| - 1];
      RunsNeverFail(p, ctx, before);
      HandleKeepsGood(p, RunSwapped(p, ctx, before).value, events[|events| - 1]);
    }
  }

  /**
    Swapping is invisible in memory, globals and context under every schedule exactly when the guest can do without
    the rest.
   */
  lemma SwapTransparency(p: Program, ctx: Ctx)
    requires Steady(p)
    ensures (forall events :: Schedulable(events) ==> Transparent(p, ctx, events)) <==> Forgettable(p, ctx)
  {
    if Forgettable(p, ctx) {
      forall events | Schedulable(events) ensures Transparent(p, ctx, events) {
        ForgettableIsTransparent(p, ctx, events);
      }
    }
    if forall events :: Schedulable(events) ==> Transparent(p, ctx, events) {
      forall events, call | Schedulable(events + [Deliver(call)]) ensures MissesNothing(p, ctx, events, call) {
        TransparentMissesNothing(p, ctx, events, call);
      }
    }
  }

  // ---- resting clean: enough, but more than needed ----

  /** The guest never rests with anything but a new instance's values in the state a snapshot leaves out. */
  ghost predicate RestsClean(p: Program, ctx: Ctx)
  {
    forall events :: Schedulable(events) ==> RunPlain(p, ctx, events).0.hidden == p.initial.hidden
  }

  /** A guest that rests clean comes back from every swap as it was, the rest included. */
  lemma {:induction false} CleanRunsAreEqual(p: Program, ctx: Ctx, events: seq<Event>)
    requires Steady(p) && RestsClean(p, ctx) && Schedulable(events)
    ensures RunSwapped(p, ctx, events).Some?
    ensures var image, plain := RunSwapped(p, ctx, events).value, RunPlain(p, ctx, events);
      Loaded(p, image.place) == Some(plain.0) && image.ctx == plain.1
    decreases |events|
  {
    if events != [] {
      var before := events[..|events| - 1];
      CleanRunsAreEqual(p, ctx, before);
      RunsNeverFail(p, ctx, before);
      assert RunPlain(p, ctx, before).0.hidden == p.initial.hidden;
      var place := RunSwapped(p, ctx, before).value.place;
      if place.InMemory? { RoundTrip(place.guest, p.initial); }
    }
  }

  lemma CleanIsForgettable(p: Program, ctx: Ctx)
    requires Steady(p) && RestsClean(p, ctx)
    ensures Forgettable(p, ctx)
  {
    forall events, call | Schedulable(events + [Deliver(call)]) ensures MissesNothing(p, ctx, events, call) {
      OneMoreEvent(p, ctx, events, Deliver(call));
      CleanRunsAreEqual(p, ctx, events);
    }
  }

  /** A guest that leaves its mark where nobody looks again does not rest clean, and yet nothing shows. */
  lemma CleanIsNotNeeded(a: Hidden, b: Hidden, ctx: Ctx)
    requires a != b
    ensures var p := Program(Guest([], [], a), (g: Guest, c, call) => (g.(hidden := b), c));
      Steady(p) && Forgettable(p, ctx) && !RestsClean(p, ctx)
  {
    hide WellFormed, Steady, RunSwapped, Restore, Calls;
    var p := Program(Guest([], [], a), (g: Guest, c, call) => (g.(hidden := b), c));
    var events := [Deliver(CallStart)];
    MarkingIsSteady(a, b);
    assert events == [] + events;
    NoEvents(p, ctx);
    OneMoreEvent(p, ctx, [], events[0]);
    assert Schedulable(events) && RunPlain(p, ctx, events).0.hidden == b;
  }

  lemma MarkingIsSteady(a: Hidden, b: Hidden)
    ensures Steady(Program(Guest([], [], a), (g: Guest, c, call) => (g.(hidden := b), c)))
  {}

  /** A guest that counts its calls where no snapshot looks, and then grows its memory. */
  function Counting(a: Hidden, b: Hidden, page: seq<Byte>): Program
  {
    Program(Guest([], [], a),
      (g: Guest, c, call) => (if g.hidden == a then g.(hidden := b) else g.(memory := g.memory + page), c))
  }

  lemma CountingIsSteady(a: Hidden, b: Hidden, page: seq<Byte>)
    requires |page| == WASM_PAGE_SIZE
    ensures Steady(Counting(a, b, page))
  {}

  /** Swapping shows: the second call grows the memory, unless the guest was swapped out after the first. */
  lemma SwappingMayShow(a: Hidden, b: Hidden, page: seq<Byte>, ctx: Ctx, message: Requests.AsyncResult)
    requires a != b && |page| == WASM_PAGE_SIZE
    ensures var p, events := Counting(a, b, page), [Deliver(CallStart), Out, Deliver(CallWakeup(message))];
      && Steady(p) && Schedulable(events) && !Transparent(p, ctx, events)
      && RunPlain(p, ctx, events).0.memory == page
      && RunSwapped(p, ctx, events) == Some(Image(InMemory(Guest([], [], b)), ctx))
  {
    hide Steady, RunSwapped, RunPlain, Schedulable, Calls, Restore;
    var p := Counting(a, b, page);
    var one, two, three := Deliver(CallStart), Out, Deliver(CallWakeup(message));
    CountingIsSteady(a, b, page);
    NoEvents(p, ctx);
    OneMoreEvent(p, ctx, [], one);
    OneMoreEvent(p, ctx, [one], two);
    OneMoreEvent(p, ctx, [one, two], three);
    assert [] + [one] == [one] && [one] + [two] == [one, two] && [one, two] + [three] == [one, two, three];
    RoundTrip(Guest([], [], b), p.initial);
  }
}
