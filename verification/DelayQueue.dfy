/** The delay queue: entries filed over the wheel and the expired stack, and one sleep that wakes the guest. */
module DelayQueues {
  import opened Wrappers
  import opened Words
  import opened Digits
  import opened Storage
  import opened Stacks
  import opened Levels
  import opened Placement
  import opened Wheels
  import opened Filing
  import opened Time
  import opened QueueRuns

  datatype Poll<+T> = Pending | Ready(value: T)

  /** An entry taken out of the queue. */
  datatype Expired = Expired(key: Key, data: Value, deadline: int)

  /** `deadline` is `millis` whole milliseconds after `start`. */
  ghost predicate EndsAt(start: int, deadline: int, millis: nat)
  {
    deadline == start + millis * NANOS_PER_MILLI
  }

  ghost predicate ArmedFor(delay: Option<Sleep>, start: int, contents: map<Key, nat>)
  {
    forall k :: k in contents ==> delay.Some? && delay.value.deadline <= start + contents[k] * NANOS_PER_MILLI
  }

  lemma ArmedForNothing(delay: Option<Sleep>, start: int)
    ensures ArmedFor(delay, start, map[])
  {}

  lemma ArmedForFewer(delay: Option<Sleep>, start: int, contents: map<Key, nat>, key: Key)
    requires ArmedFor(delay, start, contents)
    ensures ArmedFor(delay, start, contents - {key})
  {}

  /** Nothing in the queue is due before the instant. */
  ghost predicate DueFrom(view: map<Key, Entry>, start: int, instant: int)
  {
    forall k :: k in view ==> instant <= start + view[k].when * NANOS_PER_MILLI
  }

  /** Everything in the queue is due after the instant. */
  ghost predicate After(view: map<Key, Entry>, start: int, instant: int)
  {
    forall k :: k in view ==> instant < start + view[k].when * NANOS_PER_MILLI
  }

  lemma AfterNow(view: map<Key, Entry>, start: int, instant: int, now: nat)
    requires EndsAt(start, instant, now) && forall k :: k in view ==> now < view[k].when
    ensures After(view, start, instant)
  {}

  lemma DueFromFewer(view: map<Key, Entry>, start: int, instant: int, key: Key)
    requires DueFrom(view, start, instant)
    ensures DueFrom(view - {key}, start, instant)
  {}

  lemma DueFromUpdate(view: map<Key, Entry>, start: int, instant: int, key: Key, e: Entry)
    requires DueFrom(view, start, instant)
    ensures DueFrom(view[key := e], start, instant) <==> instant <= start + e.when * NANOS_PER_MILLI
  {
    assert key in view[key := e];
  }

  lemma DueFromSooner(view: map<Key, Entry>, start: int, instant: int, sooner: int)
    requires DueFrom(view, start, instant) && sooner <= instant
    ensures DueFrom(view, start, sooner)
  {}

  /** What the wheel holds after an entry is filed at `w`. */
  ghost function FiledAt(contents: map<Key, nat>, key: Key, w: nat, elapsed: nat): map<Key, nat>
  {
    if w <= elapsed then contents else contents[key := w]
  }

  /** The instant is the deadline of the wheel's first hit. */
  ghost predicate HitsAt(elapsed: nat, t: Threads, start: int, deadline: int)
  {
    exists x :: FirstHit(elapsed, t, x) && EndsAt(start, deadline, x.deadline)
  }

  ghost predicate EndsNoSooner(delay: Option<Sleep>, instant: int)
  {
    delay.Some? ==> instant <= delay.value.deadline
  }

  /** The earlier of the sleep's deadline, if there is one, and an instant. */
  function Sooner(delay: Option<Sleep>, instant: int): int
  {
    if delay.Some? && delay.value.deadline <= instant then delay.value.deadline else instant
  }

  /** What was asked of the queue: an instant, when `elapsed` was what it was. */
  datatype Ask = Ask(instant: int, elapsed: nat)

  /**
    An instant in milliseconds is the one asked for, rounded up, or `elapsed` when that is later: not before it, and
    less than a millisecond after it unless it is `elapsed`.
   */
  ghost predicate Meets(ask: Ask, start: int, when: nat)
  {
    && ask.elapsed <= when && ask.instant <= start + when * 1_000_000
    && (when == ask.elapsed || start + when * 1_000_000 < ask.instant + 1_000_000)
  }

  /** All entries are filed for the instants asked for. */
  ghost predicate AskedFor(asked: map<Key, Ask>, start: int, view: map<Key, Entry>)
  {
    asked.Keys == view.Keys && forall k :: k in asked ==> Meets(asked[k], start, view[k].when)
  }

  lemma AskedForUpdate(asked: map<Key, Ask>, start: int, view: map<Key, Entry>, key: Key, ask: Ask, e: Entry)
    requires AskedFor(asked, start, view) && Meets(ask, start, e.when)
    ensures AskedFor(asked[key := ask], start, view[key := e])
  {}

  lemma AskedForRemove(asked: map<Key, Ask>, start: int, view: map<Key, Entry>, key: Key)
    requires AskedFor(asked, start, view)
    ensures AskedFor(asked - {key}, start, view - {key})
  {}

  lemma AskedForNothing(start: int)
    ensures AskedFor(map[], start, map[])
  {}

  class DelayQueue {
    const slab: SlabStorage
    var wheel: Wheel
    var expired: Stack
    var delay: Option<Sleep>
    var wheelNow: nat
    const start: int
    const clock: Clock
    // whether the waker of the task that polled last is kept
    var waker: bool
    // whether that task has been woken since it was told to wait; while it has not, the instant the host wakes it at
    ghost var awake: bool
    ghost var alarm: int
    // the instants asked for, as far as 64-bit milliseconds reach
    ghost var asked: map<Key, Ask>

    ghost function Repr(): set<object>
      reads this`wheel, this`expired
    {
      {this, slab, wheel, expired, clock} + wheel.Objects()
    }

    /** The wheel and the expired stack are sound, and entries are filed over them, but for the loose ones. */
    ghost predicate Shape(loose: set<Key>)
      reads this`wheel, this`expired, slab, wheel, wheel.levels, wheel.cells, expired
    {
      && wheel.Valid(slab)
      && expired.id == ExpiredStack && expired.Valid(slab) && expired !in wheel.cells
      && Filed(slab.threads, wheel.elapsed, loose)
    }

    /**
      `elapsed` exceeds neither `wheelNow` nor the sleep's deadline, and `wheelNow` is less than 1 ms ahead of the
      clock.
     */
    ghost predicate OnTime()
      reads this`wheel, this`wheelNow, this`delay, wheel`elapsed, clock
    {
      && clock.Valid() && wheel.elapsed <= wheelNow < U64_LIMIT
      && start <= clock.now && start + wheelNow * NANOS_PER_MILLI < clock.now + NANOS_PER_MILLI
      && (delay.Some? ==> SleepOnTime(delay.value))
    }

    ghost predicate SleepOnTime(s: Sleep)
      reads this`wheel, wheel`elapsed, clock
    {
      && start <= s.registered <= clock.now
      && start + wheel.elapsed * NANOS_PER_MILLI <= s.deadline
      && Timed(s)
      && exists millis: nat :: millis < U64_LIMIT && EndsAt(start, s.deadline, millis)
    }

    ghost predicate Asked()
      reads this`asked, slab
    {
      AskedFor(asked, start, View())
    }

    ghost predicate Valid()
      reads Repr()
    {
      Shape({}) && OnTime() && Asked() && (awake || waker)
    }

    /**
      Nothing on the wheel is due before the sleep ends; in particular there is a sleep while the wheel holds
      anything.
     */
    ghost predicate Armed()
      reads this`delay, slab
    {
      ArmedFor(delay, start, Contents(slab.threads))
    }

    ghost function View(): map<Key, Entry>
      reads slab
    {
      Entries(slab.threads)
    }

    /** The sleep ends no later than anything in the queue is due, on the wheel or overdue. */
    ghost predicate WakesInTime()
      reads this`delay, slab
    {
      View() == map[] || (delay.Some? && DueFrom(View(), start, delay.value.deadline))
    }

    /** The task is awake, or is going to be woken no later than anything in the queue is due. */
    ghost predicate WillWake()
      reads this`awake, this`alarm, slab
    {
      awake || DueFrom(View(), start, alarm)
    }

    /** And if the sleep is another than the one that wakes the task, it ends no sooner. */
    ghost predicate Attended()
      reads this`awake, this`alarm, this`delay, slab
    {
      WillWake() && (awake || EndsNoSooner(delay, alarm))
    }

    constructor (clock: Clock)
      requires clock.Valid()
      ensures Valid() && Armed() && View() == map[] && fresh(Repr() - {clock})
      ensures this.clock == clock && start == clock.now && delay == None
      ensures wheel.elapsed == 0 && Contents(slab.threads) == map[] && awake && !waker
    {
      hide DelayQueue.Valid, DelayQueue.Armed, DelayQueue.View, Contents, SlabStorage.Valid, Wheel.Ok, Wheel.Objects,
        Chain;
      slab := new SlabStorage();
      wheel := new Wheel();
      expired := new Stack(ExpiredStack);
      delay, wheelNow, start := None, 0, clock.now;
      waker, awake, alarm := false, true, 0;
      this.clock := clock;
      asked := map[];
      new;
      EmptyThreads();
      EmptyIsValid();
    }

    /** A queue without entries, as it is made. */
    lemma EmptyIsValid()
      requires slab.Valid() && slab.threads == Threads(map[], map[], map[])
      requires wheel.elapsed == 0 && wheel.Ok(slab.threads)
      requires expired.id == ExpiredStack && expired.head == None && expired !in wheel.cells
      requires delay == None && wheelNow == 0 && start == clock.now && awake && asked == map[] && clock.Valid()
      ensures Valid() && Armed() && View() == map[] && Contents(slab.threads) == map[]
    {
      hide Shape, Entries, Contents, SlabStorage.Valid, Wheel.Ok, Chain, ArmedFor, AskedFor;
      EmptyThreads();
      EmptyShape();
      ArmedForNothing(delay, start);
      AskedForNothing(start);
    }

    /** New stacks over an empty storage. */
    lemma EmptyShape()
      requires slab.Valid() && slab.threads == Threads(map[], map[], map[])
      requires wheel.elapsed == 0 && wheel.Ok(slab.threads)
      requires expired.id == ExpiredStack && expired.head == None && expired !in wheel.cells
      ensures Shape({})
    {
      hide Linked, Placed, Filed, Entries, Contents, SlabStorage.Valid, Wheel.Ok, Chain;
      EmptyThreads();
    }

    /** The instant itself, as far as 64-bit milliseconds reach. */
    ghost function Reachable(when: int): int
    {
      if when > start + U64_MAX * NANOS_PER_MILLI then start + U64_MAX * NANOS_PER_MILLI else when
    }

    /** Instants in milliseconds since the start, rounded up; never before `elapsed`. */
    function NormalizeDeadline(when: int): (w: nat)
      reads this`wheel, wheel`elapsed
      ensures w >= wheel.elapsed
      ensures wheel.elapsed < U64_LIMIT ==> w < U64_LIMIT
      ensures Meets(Ask(Reachable(when), wheel.elapsed), start, w)
    {
      var w := if when < start then 0 else Ms(when - start, Up);
      assert w <= U64_MAX && Reachable(when) <= start + w * NANOS_PER_MILLI by {
        if when >= start { MsUp(when - start); }
      }
      assert w == 0 || start + w * NANOS_PER_MILLI < Reachable(when) + NANOS_PER_MILLI by {
        if when >= start { MsUp(when - start); }
      }
      if w >= wheel.elapsed then w else wheel.elapsed
    }

    /** What meeting an instant that 64-bit milliseconds can reach comes to. */
    lemma InstantMet(when: int, w: nat)
      requires Meets(Ask(Reachable(when), wheel.elapsed), start, w)
      requires when <= start + 0xFFFF_FFFF_FFFF_FFFF * 1_000_000
      ensures wheel.elapsed <= w && when <= start + w * 1_000_000
      ensures w == wheel.elapsed || start + w * 1_000_000 < when + 1_000_000
    {}

    lemma WholeMillis(m: nat)
      requires wheel.elapsed <= m < U64_LIMIT
      ensures NormalizeDeadline(start + m * NANOS_PER_MILLI) == m
    {
      MsExact(m);
    }

    /** The next deadline of a queue that holds a single entry, due at 101 ms. */
    lemma SoleHit(key: Key)
      requires Valid() && wheel.elapsed == 0 && Contents(slab.threads) == map[key := 101]
      ensures forall deadline :: HitAt(deadline) ==> deadline == start + 64 * NANOS_PER_MILLI
    {
      ShapeFacts();
      forall deadline | HitAt(deadline) ensures deadline == start + 64 * NANOS_PER_MILLI {
        var x :| FirstHit(wheel.elapsed, slab.threads, x) && EndsAt(start, deadline, x.deadline);
        HitOf101(slab.threads, key, x);
      }
    }

    /** What the wheel can take without panicking: instants that agree with `elapsed` from bit 36 upwards. */
    predicate InRange(w: nat)
      reads this`wheel, wheel`elapsed
    {
      w / 0x10_0000_0000 == wheel.elapsed / 0x10_0000_0000
    }

    /** The instant of the wheel's next expiration. */
    method NextDeadline(ghost loose: set<Key>) returns (r: Option<int>)
      requires Shape(loose)
      ensures r.Some? ==> HitAt(r.value)
      ensures Timely(r) && (r.Some? <==> Contents(slab.threads) != map[])
      ensures forall d :: HitsAt(wheel.elapsed, slab.threads, start, d) ==> r == Some(d)
    {
      hide Linked, SlabStorage.Valid, Wheel.Ok, Placed, CascadePlaced, FirstHit, Filed, OnWheel, Contents, Chain;
      PlacedIsCascadePlaced(wheel.elapsed, slab.threads);
      var e := wheel.NextExpiration(slab);
      match e {
        case None =>
          NothingOnWheel(slab.threads);
          NoHit(wheel.elapsed, slab.threads, start);
          return None;
        case Some(x) =>
          HitIsTimely(wheel.elapsed, slab.threads, loose, x);
          OnlyHit(wheel.elapsed, slab.threads, start, x);
          assert EndsAt(start, start + x.deadline * NANOS_PER_MILLI, x.deadline);
          return Some(start + x.deadline * NANOS_PER_MILLI);
      }
    }

    /**
      A whole number of milliseconds after the start, not before `elapsed`, and not after anything on the wheel is
      due; none when the wheel is empty.
     */
    ghost predicate Timely(at: Option<int>)
      reads this`wheel, wheel`elapsed, slab
    {
      match at
      case None => Contents(slab.threads) == map[]
      case Some(deadline) =>
        && Contents(slab.threads) != map[]
        && start + wheel.elapsed * NANOS_PER_MILLI <= deadline
        && (exists millis: nat :: millis < U64_LIMIT && EndsAt(start, deadline, millis))
        && (forall k :: k in Contents(slab.threads) ==> deadline <= start + Contents(slab.threads)[k] * NANOS_PER_MILLI)
    }

    ghost predicate HitAt(deadline: int)
      reads this`wheel, wheel`elapsed, slab
    {
      HitsAt(wheel.elapsed, slab.threads, start, deadline)
    }

    // ---- filing an entry ----

    method InsertIdx(when: nat, key: Key)
      requires Shape({key}) && key in slab.threads.view
      requires slab.threads.view[key].when == when && !slab.threads.view[key].expired
      requires wheel.elapsed <= when && InRange(when)
      modifies slab`inner, slab`threads, wheel.levels, wheel.cells, expired`head
      ensures Shape({})
      ensures View() == old(View())
      ensures Contents(slab.threads) == FiledAt(Contents(old(slab.threads)), key, when, wheel.elapsed)
    {
      hide Linked, SlabStorage.Valid, Wheel.Ok, Placed, Filed, Contents, Entries, Pushed, Chain, SameEntries, Head;
      ghost var t := slab.threads;
      LooseIsOffStack(t, wheel.elapsed, key);
      var r := wheel.Insert(when, key, slab);
      match r {
        case Inserted =>
          InsertFiled(t, wheel.elapsed, key, when, slab.threads);
        case Rejected(_, Elapsed) =>
          FlagFiled(t, wheel.elapsed, key);
          slab.Put(key, slab.Get(key).(expired := true));
          ghost var u := slab.threads;
          wheel.OkSame(t, u);
          PushExpired(u, wheel.elapsed, key);
          PushFiled(u, wheel.elapsed, key);
          expired.Push(key, slab);
          wheel.OkSame(u, slab.threads);
        case Rejected(_, Invalid) =>
          assert false;
      }
    }

    /** Takes the entry off the expired stack or the wheel, whichever it is on. */
    method RemoveKey(key: Key)
      requires Shape({}) && key in slab.threads.view
      modifies slab`inner, slab`threads, wheel.levels, wheel.cells, expired`head
      ensures Shape({key})
      ensures View() == old(View())
      ensures Contents(slab.threads) == Contents(old(slab.threads)) - {key}
      ensures key in slab.threads.view && slab.threads.view[key].next == None && slab.threads.view[key].prev == None
    {
      hide Linked, SlabStorage.Valid, Wheel.Ok, Placed, Filed, Contents, Entries, Removed, Chain, SameEntries, Head;
      ghost var t := slab.threads;
      FiledOnWheel(t, wheel.elapsed, {}, key);
      if slab.Get(key).expired {
        ghost var at := expired.Remove(key, slab);
        RemoveExpired(t, wheel.elapsed, at);
        wheel.OkSame(t, slab.threads);
        ExpiredNotInContents(t, key);
      } else {
        wheel.Remove(key, slab);
      }
      RemoveFiled(t, wheel.elapsed, key, slab.threads);
    }

    // ---- the operations ----

    method InsertAt(value: Value, when: int) returns (key: Key)
      requires Valid() && |View()| < MAX_ENTRIES && InRange(NormalizeDeadline(when))
      modifies Repr()
      ensures Valid() && wheel == old(wheel) && expired == old(expired) && wheel.elapsed == old(wheel.elapsed)
      ensures Takes(old(View()), Insertion(key, Entry(value, old(NormalizeDeadline(when)))), View())
      ensures asked == old(asked)[key := Ask(Reachable(when), wheel.elapsed)]
      ensures when <= start + 0xFFFF_FFFF_FFFF_FFFF * 1_000_000 ==>
        var w := View()[key].when;
        && wheel.elapsed <= w && when <= start + w * 1_000_000
        && (w == wheel.elapsed || start + w * 1_000_000 < when + 1_000_000)
      ensures delay.Some? &&
        delay.value.deadline == Sooner(old(delay), start + old(NormalizeDeadline(when)) * NANOS_PER_MILLI)
      ensures Contents(slab.threads) ==
        FiledAt(old(Contents(slab.threads)), key, old(NormalizeDeadline(when)), wheel.elapsed)
      ensures alarm == old(alarm) && (old(awake) ==> awake)
      ensures old(Armed()) ==> Armed()
      ensures old(WakesInTime()) ==> WakesInTime()
      ensures old(Attended()) ==> Attended()
      ensures old(WillWake()) ==>
        var due := start + old(NormalizeDeadline(when)) * NANOS_PER_MILLI;
        (WillWake() <==> old(awake) || old(delay) == None || old(delay).value.deadline > due || old(alarm) <= due)
    {
      hide Shape, Contents, Entries, Ms, NormalizeDeadline, AskedFor, Meets, Reachable, DueFrom, SleepOnTime;
      var w := NormalizeDeadline(when);
      if when <= start + 0xFFFF_FFFF_FFFF_FFFF * 1_000_000 { InstantMet(when, w); }
      ghost var ask := Ask(Reachable(when), wheel.elapsed);
      ghost var due := start + w * NANOS_PER_MILLI;
      ghost var before := View();
      key := Enter(value, w);
      AskedForUpdate(asked, start, old(View()), key, ask, Entry(value, w));
      asked := asked[key := ask];
      if DueFrom(before, start, alarm) { DueFromUpdate(before, start, alarm, key, Entry(value, w)); }
      ghost var former := delay;
      SetDelayFor(w);
      WakesAfterInsertion(former, before, key, Entry(value, w));
    }

    /** The sooner of the old end and the new entry's instant is soon enough for all. */
    lemma WakesAfterInsertion(former: Option<Sleep>, before: map<Key, Entry>, key: Key, e: Entry)
      requires View() == before[key := e] && key !in before
      requires delay.Some? && delay.value.deadline == Sooner(former, start + e.when * NANOS_PER_MILLI)
      ensures before == map[] || (former.Some? && DueFrom(before, start, former.value.deadline)) ==> WakesInTime()
    {}

    /** Stores a new entry and files it. */
    method Enter(value: Value, w: nat) returns (key: Key)
      requires Shape({}) && |View()| < MAX_ENTRIES
      requires wheel.elapsed <= w < U64_LIMIT && InRange(w)
      modifies slab, wheel.levels, wheel.cells, expired`head
      ensures Shape({})
      ensures key !in old(View()) && View() == old(View())[key := Entry(value, w)]
      ensures Contents(slab.threads) == FiledAt(Contents(old(slab.threads)), key, w, wheel.elapsed)
    {
      hide Linked, SlabStorage.Valid, Wheel.Ok, Placed, Filed, Contents, Entries, Chain, SameEntries, Head;
      ghost var t := slab.threads;
      ViewSize(t);
      key := slab.Insert(Data(value, w, false, None, None));
      NewFiled(t, wheel.elapsed, key, Data(value, w, false, None, None));
      wheel.OkSame(t, slab.threads);
      InsertIdx(w, key);
    }

    /** Brings the sleep forward if it ends after the new deadline. */
    method SetDelayFor(w: nat)
      requires OnTime() && wheel.elapsed <= w < U64_LIMIT
      modifies this`delay, this`waker, this`awake, clock
      ensures OnTime()
      ensures delay.Some? && delay.value.deadline == Sooner(old(delay), start + w * NANOS_PER_MILLI)
      ensures old(awake || waker) ==> awake || waker
      ensures old(awake || waker) ==>
        (awake <==> old(awake) || old(delay) == None || old(delay).value.deadline > start + w * NANOS_PER_MILLI)
    {
      var shouldSetDelay := delay == None || NormalizeDeadline(delay.value.deadline) > w;
      if delay.Some? { EndOfSleep(); }
      if shouldSetDelay {
        if waker {
          waker, awake := false, true;
        }
        var s := clock.SleepUntil(start + w * NANOS_PER_MILLI);
        delay := Some(s);
        assert EndsAt(start, s.deadline, w);
      }
    }

    /** The deadline of the present sleep, normalised like any other. */
    lemma EndOfSleep()
      requires OnTime() && delay.Some?
      ensures EndsAt(start, delay.value.deadline, NormalizeDeadline(delay.value.deadline))
    {
      var millis: nat :| millis < U64_LIMIT && EndsAt(start, delay.value.deadline, millis);
      MsExact(millis);
    }

    /** `next_deadline().map(sleep_until)`. */
    method Rearm(at: Option<int>)
      requires OnTime() && Timely(at)
      modifies this`delay, clock
      ensures OnTime() && Armed() && old(clock.now) <= clock.now
      ensures delay.Some? == at.Some? && (at.Some? ==> delay.value.deadline == at.value)
    {
      match at {
        case None =>
          delay := None;
        case Some(deadline) =>
          var s := clock.SleepUntil(deadline);
          delay := Some(s);
      }
    }

    /** Takes a loose entry out of the storage. */
    method Drop(key: Key) returns (data: Data)
      requires Shape({key}) && key in slab.threads.view
      modifies slab
      ensures Shape({})
      ensures data == old(slab.threads).view[key] && View() == old(View()) - {key} && key in old(View())
      ensures Entry(data.inner, data.when) == old(View())[key] && data.next == None && data.prev == None
      ensures Contents(slab.threads) == Contents(old(slab.threads))
      ensures forall deadline :: old(HitAt(deadline)) ==> HitAt(deadline)
    {
      hide Linked, SlabStorage.Valid, Wheel.Ok, Placed, Filed, Contents, Entries, Chain, SameEntries, Head, HitsAt;
      ghost var t := slab.threads;
      LooseIsOffStack(t, wheel.elapsed, key);
      DropFiled(t, wheel.elapsed, key);
      DropKeepsHits(t, wheel.elapsed, start, key);
      data := slab.Remove(key);
      wheel.OkSame(t, slab.threads);
    }

    /** Takes an entry off its stack and out of the storage. */
    method TakeOut(key: Key) returns (data: Data)
      requires Shape({}) && key in View()
      modifies slab, wheel.levels, wheel.cells, expired`head
      ensures Shape({})
      ensures View() == old(View()) - {key} && Entry(data.inner, data.when) == old(View())[key]
      ensures Contents(slab.threads) == Contents(old(slab.threads)) - {key}
    {
      hide Shape, Contents, Entries;
      ViewKeys(slab.threads);
      RemoveKey(key);
      data := Drop(key);
    }

    /** The source panics unless the key is live. */
    method Remove(key: Key) returns (e: Expired)
      requires Valid() && key in View()
      modifies Repr()
      ensures Valid() && wheel == old(wheel) && expired == old(expired) && wheel.elapsed == old(wheel.elapsed)
      ensures e == Expired(key, old(View())[key].value, start + old(View())[key].when * NANOS_PER_MILLI)
      ensures Takes(old(View()), Removal(key, old(View())[key]), View())
      ensures Contents(slab.threads) == old(Contents(slab.threads)) - {key}
      ensures old(Contents(slab.threads)) != map[] && Contents(slab.threads) == map[] ==> delay == None
      ensures old(Contents(slab.threads)) == map[] ==> delay == old(delay)
      ensures forall d, d' :: old(HitAt(d)) && HitAt(d') ==>
        if d == d' then delay == old(delay) else delay.Some? && delay.value.deadline == d'
      ensures asked == old(asked) - {key}
      ensures alarm == old(alarm) && awake == old(awake)
      ensures old(Armed()) ==> Armed() && WakesUnlessOverdue()
      ensures old(WillWake()) ==> WillWake()
      ensures old(Attended()) ==> Attended()
    {
      hide Shape, Contents, Entries, Wheel.Objects, SleepOnTime, ArmedFor, AskedFor, DueFrom, HitsAt,
        WakesUnlessOverdue;
      AskedForRemove(asked, start, View(), key);
      if DueFrom(View(), start, alarm) { DueFromFewer(View(), start, alarm, key); }
      var data := RemoveAndRearm(key, slab.threads);
      asked := asked - {key};
      if Armed() { OverdueMatters(); }
      e := Expired(key, data.inner, start + data.when * NANOS_PER_MILLI);
    }

    /** Takes an entry out, and sets the sleep for what comes next, if that has changed. */
    method RemoveAndRearm(key: Key, ghost t: Threads) returns (data: Data)
      requires Shape({}) && OnTime() && t == slab.threads && key in Entries(t)
      modifies this`delay, slab, wheel.Objects(), expired`head, clock
      ensures Shape({}) && OnTime() && wheel == old(wheel) && expired == old(expired) &&
        wheel.elapsed == old(wheel.elapsed)
      ensures Entries(slab.threads) == Entries(t) - {key} && Entry(data.inner, data.when) == Entries(t)[key]
      ensures Contents(slab.threads) == Contents(t) - {key}
      ensures Contents(t) != map[] && Contents(slab.threads) == map[] ==> delay == None
      ensures Contents(t) == map[] ==> delay == old(delay)
      ensures forall d, d' :: HitsAt(wheel.elapsed, t, start, d) && HitAt(d') ==>
        if d == d' then delay == old(delay) else delay.Some? && delay.value.deadline == d'
      ensures old(Armed()) ==> Armed()
      ensures asked == old(asked) && waker == old(waker) && awake == old(awake) && alarm == old(alarm)
      ensures DueFrom(Entries(t), start, alarm) && EndsNoSooner(old(delay), alarm) ==> EndsNoSooner(delay, alarm)
    {
      hide Shape, Contents, Entries, SleepOnTime, ArmedFor, Timely, EndsAt, HitsAt, DueFrom;
      if Armed() { ArmedForFewer(delay, start, Contents(t), key); }
      ShapeFacts();
      var prevDeadline := NextDeadline({});
      data := TakeOut(key);
      var nextDeadline := NextDeadline({});
      if prevDeadline != nextDeadline {
        ShapeFacts();
        if DueFrom(Entries(t), start, alarm) { LaterThanAlarm(t, slab.threads, key, prevDeadline, nextDeadline); }
        Rearm(nextDeadline);
      }
    }

    /** A queue without a late sleep for its wheel has none for its overdue entries exactly if it ends right away. */
    ghost predicate WakesUnlessOverdue()
      reads this`delay, this`wheel, this`expired, wheel`elapsed, expired, slab
    {
      WakesInTime() <==>
        || View() == map[]
        || (delay.Some? && (expired.head == None || delay.value.deadline == start + wheel.elapsed * NANOS_PER_MILLI))
    }

    lemma OverdueMatters()
      requires Shape({}) && OnTime() && (Armed() || delay == None)
      ensures WakesUnlessOverdue()
    {
      hide Linked, SlabStorage.Valid, Wheel.Ok, Placed, Filed, Contents, Entries, ArmedFor, DueFrom;
      if delay.Some? {
        if expired.head == None {
          SleepingUntil(delay.value.deadline);
        } else {
          HeadIsOverdue(slab.threads, wheel.elapsed, start, delay.value.deadline);
        }
      } else if View() != map[] {
        assert !WakesInTime();
      }
    }

    lemma ShapeFacts()
      requires Shape({})
      ensures Linked(slab.threads) && Placed(wheel.elapsed, slab.threads) && Filed(slab.threads, wheel.elapsed, {})
    {}

    /**
      When an entry's removal changes the wheel's next deadline, it was due before the new one, and so is the alarm.
     */
    lemma LaterThanAlarm(t: Threads, t': Threads, key: Key, prev: Option<int>, next: Option<int>)
      requires Linked(t) && Placed(wheel.elapsed, t) && Linked(t') && Placed(wheel.elapsed, t')
      requires Filed(t, wheel.elapsed, {}) && Contents(t') == Contents(t) - {key} && DueFrom(Entries(t), start, alarm)
      requires prev == None ==> Contents(t) == map[]
      requires prev.Some? ==> HitsAt(wheel.elapsed, t, start, prev.value)
      requires next.Some? ==> HitsAt(wheel.elapsed, t', start, next.value)
      requires prev != next
      ensures next.Some? ==> alarm <= next.value
    {
      hide Linked, Placed, Filed, Contents, Entries, FirstHit;
      if next.Some? {
        var x' :| FirstHit(wheel.elapsed, t', x') && EndsAt(start, next.value, x'.deadline);
        var k' := HitEntry(wheel.elapsed, t', x');
        var x :| FirstHit(wheel.elapsed, t, x) && EndsAt(start, prev.value, x.deadline);
        NextHitIsLater(wheel.elapsed, t, t', key, x, x');
        ContentsAreEntries(t, key);
      }
    }

    /** Takes the entry off its stack and files it again for another instant. */
    method Refile(key: Key, w: nat)
      requires Shape({}) && key in View() && wheel.elapsed <= w < U64_LIMIT && InRange(w)
      modifies slab, wheel.levels, wheel.cells, expired`head
      ensures Shape({})
      ensures View() == old(View())[key := Entry(old(View())[key].value, w)]
      ensures Contents(slab.threads) == FiledAt(Contents(old(slab.threads)) - {key}, key, w, wheel.elapsed)
    {
      hide Linked, SlabStorage.Valid, Wheel.Ok, Placed, Filed, Contents, Entries, Chain, SameEntries, Head;
      ViewKeys(slab.threads);
      RemoveKey(key);
      ghost var t := slab.threads;
      LooseIsOffStack(t, wheel.elapsed, key);
      RetimeFiled(t, wheel.elapsed, key, w);
      slab.Put(key, slab.Get(key).(when := w, expired := false));
      wheel.OkSame(t, slab.threads);
      InsertIdx(w, key);
    }

    /**
      The source panics unless the key is live. No sleep is created here when there is none: the queue stays armed
      exactly when there was a sleep already or the new instant is not after `elapsed`.
     */
    method ResetAt(key: Key, when: int)
      requires Valid() && key in View() && InRange(NormalizeDeadline(when))
      modifies Repr()
      ensures Valid() && wheel == old(wheel) && expired == old(expired) && wheel.elapsed == old(wheel.elapsed)
      ensures Takes(old(View()), Reset(key, old(NormalizeDeadline(when))), View())
      ensures asked == old(asked)[key := Ask(Reachable(when), wheel.elapsed)]
      ensures when <= start + 0xFFFF_FFFF_FFFF_FFFF * 1_000_000 ==>
        var w := View()[key].when;
        && wheel.elapsed <= w && when <= start + w * 1_000_000
        && (w == wheel.elapsed || start + w * 1_000_000 < when + 1_000_000)
      ensures (delay.Some? <==> old(delay).Some?) && (Contents(slab.threads) == map[] ==> delay == old(delay))
      ensures Contents(slab.threads) ==
        FiledAt(old(Contents(slab.threads)) - {key}, key, old(NormalizeDeadline(when)), wheel.elapsed)
      ensures delay.Some? && Contents(slab.threads) != map[] ==> HitAt(delay.value.deadline)
      ensures alarm == old(alarm) && awake == old(awake)
      ensures old(Armed()) ==> WakesUnlessOverdue()
      ensures old(WillWake()) ==>
        (WillWake() <==> old(awake) || old(alarm) <= start + old(NormalizeDeadline(when)) * NANOS_PER_MILLI)
      ensures old(Armed()) ==> (Armed() <==> old(delay).Some? || old(NormalizeDeadline(when)) <= old(wheel.elapsed))
    {
      hide Shape, Contents, Entries, Wheel.Objects, ArmedFor, HitsAt, SleepOnTime, NormalizeDeadline, Reachable,
        AskedFor, Meets, DueFrom, WakesUnlessOverdue;
      var w := NormalizeDeadline(when);
      if when <= start + 0xFFFF_FFFF_FFFF_FFFF * 1_000_000 { InstantMet(when, w); }
      ghost var ask := Ask(Reachable(when), wheel.elapsed);
      AskedForUpdate(asked, start, View(), key, ask, Entry(View()[key].value, w));
      if DueFrom(View(), start, alarm) { DueFromUpdate(View(), start, alarm, key, Entry(View()[key].value, w)); }
      RefileAndRearm(key, w);
      asked := asked[key := ask];
      if Armed() || delay == None { OverdueMatters(); }
    }

    /**
      Files an entry for another instant, and sets the sleep, if there is one, for what comes next, if anything does.
     */
    method RefileAndRearm(key: Key, w: nat)
      requires Shape({}) && OnTime() && key in View() && wheel.elapsed <= w < U64_LIMIT && InRange(w)
      modifies this`delay, slab, wheel.Objects(), expired`head, clock
      ensures Shape({}) && OnTime() && wheel == old(wheel) && expired == old(expired) &&
        wheel.elapsed == old(wheel.elapsed)
      ensures key in old(View()) && View() == old(View())[key := Entry(old(View())[key].value, w)]
      ensures Contents(slab.threads) == FiledAt(old(Contents(slab.threads)) - {key}, key, w, wheel.elapsed)
      ensures (delay.Some? <==> old(delay).Some?) && (Contents(slab.threads) == map[] ==> delay == old(delay))
      ensures delay.Some? && Contents(slab.threads) != map[] ==> HitAt(delay.value.deadline)
      ensures old(Armed()) ==> (Armed() <==> old(delay).Some? || w <= old(wheel.elapsed))
      ensures asked == old(asked) && waker == old(waker) && awake == old(awake) && alarm == old(alarm)
    {
      hide Shape, Contents, Entries, HitsAt, SleepOnTime;
      ghost var before := Contents(slab.threads);
      Refile(key, w);
      var nextDeadline := NextDeadline({});
      assert w > wheel.elapsed ==> key in Contents(slab.threads);
      assert w <= wheel.elapsed && before == map[] ==> Contents(slab.threads) == map[];
      if delay.Some? && nextDeadline.Some? {
        Rearm(nextDeadline);
      }
    }

    method Compact()
      requires Valid()
      modifies slab
      ensures Valid() && View() == old(View()) && (Armed() <==> old(Armed()))
      ensures (WakesInTime() <==> old(WakesInTime())) && (Attended() <==> old(Attended()))
      ensures slab.compactCalled && slab.inner.entries == |View()|
    {
      hide Linked, Wheel.Ok, Placed, Filed, Contents, Entries, Chain, SameEntries, Head, SlabOk, Reads, SleepOnTime;
      ViewKeys(slab.threads);
      slab.Compact();
    }

    method Clear()
      requires Valid()
      modifies this`wheel, this`expired, this`delay, this`asked, slab
      ensures Valid() && Armed() && Takes(old(View()), Clearing(old(View())), View())
      ensures WakesInTime() && Attended() && delay == None
      ensures fresh(Repr() - old(Repr()))
    {
      hide Shape, Entries, Contents, SlabStorage.Valid, Wheel.Objects, ArmedFor, AskedFor, SleepOnTime;
      ArmedForNothing(None, start);
      AskedForNothing(start);
      EmptyThreads();
      StorageIsValid();
      slab.Clear();
      NewStacks();
      delay := None;
      asked := map[];
    }

    lemma StorageIsValid()
      requires Shape({})
      ensures slab.Valid()
    {}

    /** A new wheel and a new expired stack, over an empty storage. */
    method NewStacks()
      requires slab.Valid() && slab.threads == Threads(map[], map[], map[])
      modifies this`wheel, this`expired
      ensures Shape({}) && wheel.elapsed == 0
      ensures fresh(wheel) && fresh(expired) && fresh(wheel.Objects())
    {
      hide Linked, Placed, Filed, Entries, Contents, SlabStorage.Valid, Wheel.Ok, Chain;
      EmptyThreads();
      expired := new Stack(ExpiredStack);
      wheel := new Wheel();
    }

    // ---- polling ----

    /** The key is an earliest entry of the whole queue, and due by `wheelNow`. */
    ghost predicate EarliestByNow(key: Key)
      reads this`wheelNow, slab
    {
      && key in View() && View()[key].when <= wheelNow
      && forall k :: k in View() ==> View()[key].when <= View()[k].when
    }

    /** The task's waker is with the sleep, and the host has been asked to wait for the alarm. */
    ghost predicate AlarmSet()
      reads this`delay, this`alarm
    {
      && delay.Some? && delay.value.millis.Some?
      && alarm == delay.value.registered + delay.value.millis.value * 1_000_000
      && delay.value.deadline - 1_000_000 < alarm <= delay.value.deadline
    }

    /** And the host has not said that the time has come: whoever has been woken by it does not sleep on. */
    ghost predicate Sleeping()
      reads this`delay, this`alarm, clock`fired
    {
      AlarmSet() && delay.value !in clock.fired
    }

    /** Waits for the sleep, and takes over its deadline when it is over. */
    method AwaitDelay() returns (ready: bool)
      requires OnTime() && delay.Some?
      modifies this`wheelNow, this`alarm, clock
      ensures OnTime() && old(clock.now) <= clock.now
      ensures !ready ==> wheelNow == old(wheelNow) && old(clock.now) <= delay.value.deadline && AlarmSet()
      ensures !ready ==> delay.value !in clock.fired
      ensures old(clock.fired) <= clock.fired
      ensures ready ==> delay.value.deadline < clock.now || delay.value in clock.fired
      ensures ready ==> EndsAt(start, delay.value.deadline, wheelNow)
    {
      ghost var millis: nat :| millis < U64_LIMIT && EndsAt(start, delay.value.deadline, millis);
      var now := clock.Read();
      if !IsElapsed(delay.value, now) {
        ready := clock.PollSleep(delay.value);
        if !ready {
          // the sleep has taken the task's waker
          alarm := Alarm(delay.value);
          return;
        }
      }
      SleepIsNearlyOver(delay.value, clock.now);
      MsExact(millis);
      wheelNow := Ms(delay.value.deadline - start, Down);
      ready := true;
    }

    /** Polls the wheel at `wheelNow`, when no entry is on the expired stack. */
    method PollWheel() returns (idx: Option<Key>)
      requires Shape({}) && OnTime() && expired.head == None
      requires delay.Some? ==> EndsAt(start, delay.value.deadline, wheelNow)
      modifies wheel`elapsed, wheel.levels, wheel.cells, slab`inner, slab`threads
      ensures Shape(if idx.Some? then {idx.value} else {}) && OnTime() && expired.head == None
      ensures View() == old(View()) && old(wheel.elapsed) <= wheel.elapsed
      ensures idx.Some? ==> EarliestByNow(idx.value) && idx.value in slab.threads.view
      ensures idx == None ==> forall k :: k in View() ==> wheelNow < View()[k].when
      ensures idx == None ==>
        forall x :: FirstHit(old(wheel.elapsed), old(slab.threads), x) && x.deadline <= wheelNow ==>
        TotalLevel(slab.threads.seat) < TotalLevel(old(slab.threads.seat))
    {
      hide Linked, SlabStorage.Valid, Wheel.Ok, Placed, Filed, Contents, Entries, Chain, FirstHit, TotalLevel, Polled,
        SameEntries;
      ghost var t, before := slab.threads, wheel.elapsed;
      NoneExpired(t);
      idx := wheel.Poll(wheelNow, slab);
      PolledFiled(t, before, wheelNow, idx, wheel.elapsed, slab.threads);
    }

    /** Polls the wheel, and sets the sleep for what comes next. */
    method PollWheelAndRearm() returns (idx: Option<Key>)
      requires Shape({}) && OnTime() && expired.head == None
      requires delay.Some? ==> EndsAt(start, delay.value.deadline, wheelNow)
      modifies this`delay, clock, wheel`elapsed, wheel.levels, wheel.cells, slab`inner, slab`threads
      ensures Shape(if idx.Some? then {idx.value} else {}) && OnTime() && expired.head == None && Armed()
      ensures View() == old(View()) && old(wheel.elapsed) <= wheel.elapsed && old(clock.now) <= clock.now
      ensures idx.Some? ==> EarliestByNow(idx.value) && idx.value in slab.threads.view
      ensures idx == None && delay == None ==> View() == map[]
      ensures Contents(slab.threads) == map[] ==> delay == None
      ensures View() == map[] ==> delay == None
      ensures delay.Some? ==> HitAt(delay.value.deadline)
      ensures Contents(slab.threads) != map[] ==> delay.Some?
      ensures idx == None ==> forall k :: k in View() ==> wheelNow < View()[k].when
      ensures idx == None ==>
        forall x :: FirstHit(old(wheel.elapsed), old(slab.threads), x) && x.deadline <= wheelNow ==>
        TotalLevel(slab.threads.seat) < TotalLevel(old(slab.threads.seat))
    {
      hide Shape, Contents, Entries, FirstHit, HitsAt, TotalLevel, SleepOnTime, ArmedFor, EndsAt, OnTime;
      idx := PollWheel();
      var nextDeadline := NextDeadline(if idx.Some? then {idx.value} else {});
      Rearm(nextDeadline);
      NoEntries(slab.threads);
      if idx == None && delay == None {
        NothingLeft();
      }
    }

    /** The first entry of the expired stack. */
    method PopExpired() returns (key: Option<Key>)
      requires Shape({}) && OnTime()
      modifies slab`inner, slab`threads, expired`head
      ensures Shape(if key.Some? then {key.value} else {}) && View() == old(View())
      ensures Contents(slab.threads) == Contents(old(slab.threads))
      ensures key == old(expired.head) && (key == None ==> expired.head == None)
      ensures key.Some? ==> EarliestByNow(key.value) && key.value in slab.threads.view
    {
      hide Linked, SlabStorage.Valid, Wheel.Ok, Placed, Filed, Contents, Entries, Removed, SameEntries;
      ghost var t := slab.threads;
      key := expired.Pop(slab);
      if key.Some? {
        RemoveExpired(t, wheel.elapsed, 0);
        RemoveFiled(t, wheel.elapsed, key.value, slab.threads);
        ExpiredIsEarliest(t, wheel.elapsed, key.value);
      }
      wheel.OkSame(t, slab.threads);
    }

    lemma NothingLeft()
      requires Shape({}) && expired.head == None && Contents(slab.threads) == map[]
      ensures View() == map[]
    {
      hide Linked, SlabStorage.Valid, Wheel.Ok, Placed, Filed, Contents, Entries;
      NoneExpired(slab.threads);
      NothingFiled(slab.threads, wheel.elapsed);
    }

    /** The hit the sleep was set for, after the first turn. */
    lemma NextHit(first: bool) returns (x: Expiration)
      requires !first ==> delay.Some? && HitAt(delay.value.deadline)
      ensures !first ==> FirstHit(wheel.elapsed, slab.threads, x) && EndsAt(start, delay.value.deadline, x.deadline)
    {
      if first { x := Expiration(0, 0, 0); } else {
        x :| FirstHit(wheel.elapsed, slab.threads, x) && EndsAt(start, delay.value.deadline, x.deadline);
      }
    }

    /** While an armed queue with no overdue entries sleeps, nothing in it is due. */
    lemma SleepingUntil(instant: int)
      requires Shape({}) && expired.head == None && Armed() && delay.Some? && instant <= delay.value.deadline
      ensures DueFrom(View(), start, instant)
    {
      hide Linked, SlabStorage.Valid, Wheel.Ok, Placed, Filed;
      NoneExpired(slab.threads);
      AllOnWheel(slab.threads, wheel.elapsed);
    }

    /** There is a sleep exactly when the wheel holds anything, and it ends at the wheel's next expiration. */
    ghost predicate RearmedExactly()
      reads this`delay, this`wheel, wheel`elapsed, slab
    {
      (delay.Some? <==> Contents(slab.threads) != map[]) && (delay.Some? ==> HitAt(delay.value.deadline))
    }

    /** The next key to yield. The loop ends: after its first turn every turn brings entries down the wheel. */
    method PollIdx() returns (r: Poll<Option<Key>>)
      requires Shape({}) && OnTime()
      modifies this`wheelNow, this`delay, this`alarm, clock
      modifies slab`inner, slab`threads, wheel`elapsed, wheel.levels, wheel.cells, expired`head
      ensures Shape(if r.Ready? && r.value.Some? then {r.value.value} else {}) && OnTime()
      ensures View() == old(View()) && old(wheel.elapsed) <= wheel.elapsed
      ensures old(Armed()) ==> Armed()
      ensures old(delay) == None && old(expired.head) == None ==> Armed()
      ensures r.Pending? ==> expired.head == None && Sleeping() && old(clock.now) <= delay.value.deadline
      ensures r.Pending? && (old(Armed()) || old(delay) == None) ==> DueFrom(View(), start, delay.value.deadline)
      ensures r.Pending? && old(delay).Some? ==>
        (delay == old(delay) && wheel.elapsed == old(wheel.elapsed)) || After(View(), start, old(delay).value.deadline)
      ensures old(View()) == map[] && old(delay) == None ==> r == Ready(None)
      ensures old(expired.head).Some? ==> r.Ready? && r.value.Some? && delay == old(delay)
      ensures old(expired.head) == None && r.Ready? ==> RearmedExactly()
      ensures r == Ready(None) ==> View() == map[]
      ensures r.Ready? && r.value.Some? ==> EarliestByNow(r.value.value) && r.value.value in slab.threads.view
    {
      hide Shape, Contents, Entries, FirstHit, HitsAt, TotalLevel, SleepOnTime, ArmedFor, EndsAt, DueFrom, After;
      var key := PopExpired();
      if key.Some? {
        return Ready(key);
      }
      var first := true;
      while true
        invariant Shape({}) && OnTime() && View() == old(View()) && expired.head == None
        invariant old(wheel.elapsed) <= wheel.elapsed && old(clock.now) <= clock.now
        invariant first ==> delay == old(delay) && wheel.elapsed == old(wheel.elapsed) && (old(Armed()) ==> Armed())
        invariant !first && old(delay).Some? ==> After(View(), start, old(delay).value.deadline)
        invariant !first ==> Armed() && delay.Some? && HitAt(delay.value.deadline)
        invariant old(View()) == map[] && old(delay) == None ==> first
        decreases first, TotalLevel(slab.threads.seat)
      {
        ghost var x := NextHit(first);
        if delay.Some? {
          var ready := AwaitDelay();
          if !ready {
            if Armed() { SleepingUntil(delay.value.deadline); }
            return Pending;
          }
          if !first { SameInstant(start, delay.value.deadline, x.deadline, wheelNow); }
        }
        var wheelIdx := PollWheelAndRearm();
        if wheelIdx.Some? {
          return Ready(wheelIdx);
        }
        if first && old(delay).Some? { AfterNow(View(), start, old(delay).value.deadline, wheelNow); }
        if delay == None {
          return Ready(None);
        }
        first := false;
      }
    }

    /**
      Yields an earliest entry of the queue, or says that it is empty, or waits. What is yielded is yielded less than
      a millisecond before its deadline, and its deadline is not before the instant asked for.
     */
    method PollExpired() returns (r: Poll<Option<Expired>>)
      requires Valid()
      modifies Repr()
      ensures Valid() && wheel == old(wheel) && expired == old(expired) && old(wheel.elapsed) <= wheel.elapsed
      ensures old(Armed()) ==> Armed()
      ensures old(delay) == None && old(expired.head) == None ==> Armed()
      ensures r.Pending? || r == Ready(None) ==> View() == old(View()) && asked == old(asked)
      ensures r.Ready? <==> awake
      ensures r.Pending? ==>
        waker && expired.head == None && Sleeping() && old(clock.now) <= delay.value.deadline
      ensures r.Pending? && (old(Armed()) || old(delay) == None) ==> WakesInTime() && Attended()
      ensures r.Pending? && old(delay).Some? ==>
        (delay == old(delay) && wheel.elapsed == old(wheel.elapsed)) || After(View(), start, old(delay).value.deadline)
      ensures r.Pending? && (old(Armed()) || old(delay) == None) ==> DueFrom(View(), start, old(clock.now))
      ensures old(View()) == map[] && old(delay) == None ==> r == Ready(None)
      ensures old(expired.head).Some? ==> r.Ready? && r.value.Some? && delay == old(delay)
      ensures old(expired.head) == None && r.Ready? ==> RearmedExactly()
      ensures r == Ready(None) ==> View() == map[]
      ensures r.Ready? && r.value.Some? ==>
        r.value.value.key in old(View()) && Yielded(r.value.value, old(View())[r.value.value.key])
      ensures r.Ready? && r.value.Some? ==>
        Takes(old(View()), Yield(r.value.value.key, old(View())[r.value.value.key]), View())
      ensures r.Ready? && r.value.Some? ==> r.value.value.key in old(asked) && asked == old(asked) - {r.value.value.key}
      ensures r.Ready? && r.value.Some? ==>
        var ask, deadline := old(asked)[r.value.value.key], r.value.value.deadline;
        && ask.instant <= deadline < clock.now + 1_000_000
        && (deadline == start + ask.elapsed * 1_000_000 || deadline < ask.instant + 1_000_000)
    {
      hide Shape, Contents, Entries, Wheel.Objects, ArmedFor, SleepOnTime, DueFrom, After, HitsAt,
        DelayQueue.RearmedExactly;
      waker := true;
      r := PollEntry();
      awake := r.Ready?;
      if r.Pending? {
        if DueFrom(View(), start, delay.value.deadline) {
          DueFromSooner(View(), start, delay.value.deadline, alarm);
          DueFromSooner(View(), start, delay.value.deadline, old(clock.now));
        }
      } else if r.value.Some? {
        AskedForRemove(asked, start, old(View()), r.value.value.key);
        asked := asked - {r.value.value.key};
      }
    }

    /** The next entry to yield, taken out of the queue. */
    method PollEntry() returns (r: Poll<Option<Expired>>)
      requires Shape({}) && OnTime()
      modifies this`wheelNow, this`delay, this`alarm, clock, slab, wheel`elapsed, wheel.Objects(), expired`head
      ensures Shape({}) && OnTime() && wheel == old(wheel) && expired == old(expired) &&
        old(wheel.elapsed) <= wheel.elapsed
      ensures asked == old(asked) && waker == old(waker) && awake == old(awake)
      ensures old(Armed()) ==> Armed()
      ensures old(delay) == None && old(expired.head) == None ==> Armed()
      ensures r.Pending? ==> expired.head == None && Sleeping() && old(clock.now) <= delay.value.deadline
      ensures r.Pending? && (old(Armed()) || old(delay) == None) ==> DueFrom(View(), start, delay.value.deadline)
      ensures r.Pending? && old(delay).Some? ==>
        (delay == old(delay) && wheel.elapsed == old(wheel.elapsed)) || After(View(), start, old(delay).value.deadline)
      ensures r.Pending? || r == Ready(None) ==> View() == old(View())
      ensures old(View()) == map[] && old(delay) == None ==> r == Ready(None)
      ensures old(expired.head).Some? ==> r.Ready? && r.value.Some? && delay == old(delay)
      ensures old(expired.head) == None && r.Ready? ==> RearmedExactly()
      ensures r == Ready(None) ==> View() == map[]
      ensures r.Ready? && r.value.Some? ==>
        r.value.value.key in old(View()) && Yielded(r.value.value, old(View())[r.value.value.key])
      ensures r.Ready? && r.value.Some? ==>
        Takes(old(View()), Yield(r.value.value.key, old(View())[r.value.value.key]), View())
      ensures r.Ready? && r.value.Some? ==> r.value.value.deadline < clock.now + NANOS_PER_MILLI
    {
      hide Shape, Contents, Entries, ArmedFor, SleepOnTime, DueFrom, After;
      var idx := PollIdx();
      if idx.Pending? {
        return Pending;
      }
      if idx.value == None {
        return Ready(None);
      }
      var key := idx.value.value;
      var data := Drop(key);
      assert data.next == None && data.prev == None;
      r := Ready(Some(Expired(key, data.inner, start + data.when * NANOS_PER_MILLI)));
    }

    /** An entry is reported as it was stored. */
    ghost predicate Yielded(e: Expired, entry: Entry)
    {
      e.data == entry.value && e.deadline == start + entry.when * NANOS_PER_MILLI
    }
  }

  /** How a queue comes to hold an entry without having a sleep: the sleep went with another entry. */
  method OverdueWithoutSleep(clock: Clock, v: Value) returns (q: DelayQueue, due: Key)
    requires clock.Valid()
    modifies clock
    ensures fresh(q.Repr() - {clock}) && q.Valid() && q.Armed() && q.delay == None
    ensures due in q.View() && q.wheel.elapsed == 0
  {
    hide DelayQueue.Repr, DelayQueue.Valid, DelayQueue.Armed, DelayQueue.NormalizeDeadline, DelayQueue.Reachable,
      Contents, Entries;
    q := new DelayQueue(clock);
    q.WholeMillis(0);
    due := q.InsertAt(v, q.start);
    q.WholeMillis(1);
    var later := q.InsertAt(v, q.start + NANOS_PER_MILLI);
    var _ := q.Remove(later);
  }

  /** How a reset then leaves it with nothing to wake the guest. */
  method ResetWithoutSleep(clock: Clock, v: Value) returns (q: DelayQueue)
    requires clock.Valid()
    modifies clock
    ensures fresh(q.Repr() - {clock}) && q.Valid() && !q.Armed() && q.delay == None
  {
    hide DelayQueue.Repr, DelayQueue.Valid, DelayQueue.Armed, DelayQueue.NormalizeDeadline, DelayQueue.Reachable,
      Contents, Entries;
    var due;
    q, due := OverdueWithoutSleep(clock, v);
    q.WholeMillis(1);
    q.ResetAt(due, q.start + NANOS_PER_MILLI);
  }

  /** An entry and a task waiting for it, as long as the entry is not due. */
  method WaitFor(clock: Clock, v: Value, millis: nat) returns (q: DelayQueue, key: Key, r: Poll<Option<Expired>>)
    requires clock.Valid() && 0 < millis < 0x10_0000_0000
    modifies clock
    ensures fresh(q.Repr() - {clock}) && q.Valid() && q.Armed() && q.clock == clock
    ensures r.Pending? ==> q.View() == map[key := Entry(v, millis)] && q.wheel.elapsed == 0 && q.WillWake() && !q.awake
    ensures r.Pending? ==> q.delay.Some? && q.delay.value.deadline == q.start + millis * 1_000_000
    ensures r.Pending? ==> q.start + (millis - 1) * 1_000_000 < q.alarm <= q.start + millis * 1_000_000
  {
    hide DelayQueue.Repr, DelayQueue.Valid, DelayQueue.Armed, DelayQueue.NormalizeDeadline, DelayQueue.Reachable,
      Contents, Entries, DueFrom;
    q := new DelayQueue(clock);
    q.WholeMillis(millis);
    key := q.InsertAt(v, q.start + millis * NANOS_PER_MILLI);
    r := q.PollExpired();
  }

  /** A reset into the past while a task waits: the entry is due at once, and the task still wakes an hour later. */
  method ResetIntoThePast(clock: Clock, v: Value) returns (q: DelayQueue, r: Poll<Option<Expired>>)
    requires clock.Valid()
    modifies clock
    ensures fresh(q.Repr() - {clock}) && q.Valid() && q.Armed()
    ensures r.Pending? ==> !q.WakesInTime() && !q.WillWake() && q.alarm > q.start + 3_599_999 * 1_000_000
    ensures r.Pending? ==> forall key :: key in q.View() ==> q.View()[key].when == 0
  {
    hide DelayQueue.Repr, DelayQueue.Valid, DelayQueue.Armed, DelayQueue.NormalizeDeadline, DelayQueue.Reachable,
      Contents, Entries;
    var key;
    q, key, r := WaitFor(clock, v, 3_600_000);
    if r.Pending? {
      q.WholeMillis(0);
      OnlyContents(q.slab.threads, key);
      q.ResetAt(key, q.start);
    }
  }

  /** A reset while a task waits may leave a sleep that ends before the one the task waits for. */
  method ResetAhead(clock: Clock, v: Value) returns (q: DelayQueue, r: Poll<Option<Expired>>)
    requires clock.Valid()
    modifies clock
    ensures fresh(q.Repr() - {clock}) && q.Valid() && q.Armed()
    ensures r.Pending? ==> |q.View()| == 1 && q.wheel.elapsed == 0 && q.WillWake() && !q.awake
    ensures r.Pending? ==> q.alarm > q.start + 99 * 1_000_000
    ensures r.Pending? ==> q.delay.Some? && q.delay.value.deadline == q.start + 64 * NANOS_PER_MILLI
  {
    hide DelayQueue.Repr, DelayQueue.Valid, DelayQueue.Armed, DelayQueue.NormalizeDeadline, DelayQueue.Reachable,
      Contents, Entries, DueFrom, HitsAt;
    var key;
    q, key, r := WaitFor(clock, v, 100);
    if r.Pending? {
      OnlyContents(q.slab.threads, key);
      q.WholeMillis(101);
      q.ResetAt(key, q.start + 101 * NANOS_PER_MILLI);
      q.SoleHit(key);
    }
  }

  /** Then an insertion wakes nobody, though the sleep the task does wait for ends too late for it. */
  method InsertUnnoticed(clock: Clock, v: Value) returns (q: DelayQueue, r: Poll<Option<Expired>>)
    requires clock.Valid()
    modifies clock
    ensures fresh(q.Repr() - {clock}) && q.Valid() && q.Armed()
    ensures r.Pending? ==> !q.WillWake() && q.alarm > q.start + 99 * 1_000_000
    ensures r.Pending? ==> exists key :: key in q.View() && q.View()[key].when == 70
  {
    hide DelayQueue.Repr, DelayQueue.Valid, DelayQueue.Armed, DelayQueue.NormalizeDeadline, DelayQueue.Reachable,
      DelayQueue.WillWake, DelayQueue.Attended, DelayQueue.WakesInTime, Contents, Entries, DueFrom;
    q, r := ResetAhead(clock, v);
    if r.Pending? {
      q.WholeMillis(70);
      var another := q.InsertAt(v, q.start + 70 * NANOS_PER_MILLI);
      assert another in q.View();
    }
  }

  // ---- values behind the methods ----

  lemma OnlyContents(t: Threads, key: Key)
    requires forall k :: k in Entries(t) ==> k == key
    ensures Contents(t) - {key} == map[]
  {
    forall k ensures k !in Contents(t) - {key} { ContentsAreEntries(t, k); }
  }

  /** An instant of 101 ms belongs to slot 1 of level 1, which falls due at 64 ms. */
  lemma PlaceOf101()
    ensures LevelFor(0, 101) == 1 && SlotFor(101, 1) == 1 && Deadline(0, 1, 1) == 64
  {
    LevelForIsTopDigit(0, 101);
    assert TopDigit(0, 101) == 1 + TopDigit(0, 1);
    SlotIsDigit(101, 1);
  }

  lemma HitOf101(t: Threads, key: Key, x: Expiration)
    requires Linked(t) && Placed(0, t) && FirstHit(0, t, x) && Contents(t) == map[key := 101]
    ensures x.deadline == 64
  {
    hide Linked, Placed, LevelFor, SlotFor, Deadline, Fits, Settled;
    var k := HitEntry(0, t, x);
    assert k == key && t.view[k].when == 101;
    PlacedIsComputed(0, 101, t.seat[k]);
    PlaceOf101();
  }

  lemma EmptyThreads()
    ensures var t := Threads(map[], map[], map[]);
      && Linked(t) && Placed(0, t) && Filed(t, 0, {}) && Entries(t) == map[] && Contents(t) == map[]
      && forall id :: Chain(t, id) == []
  {}

  lemma NothingOnWheel(t: Threads)
    requires forall k :: !OnWheel(t, k)
    ensures Contents(t) == map[]
  {
    forall k ensures k !in Contents(t) { assert !OnWheel(t, k); }
  }

  lemma HitIsTimely(elapsed: nat, t: Threads, loose: set<Key>, x: Expiration)
    requires Linked(t) && FirstHit(elapsed, t, x) && Filed(t, elapsed, loose)
    ensures elapsed <= x.deadline < U64_LIMIT && Contents(t) != map[]
    ensures forall k :: k in Contents(t) ==> x.deadline <= Contents(t)[k]
  {
    var k0 := SomeEntry(t, WheelSlot(x.level, x.slot));
    assert OnWheel(t, k0) && k0 in Contents(t);
    forall k | k in Contents(t) ensures x.deadline <= Contents(t)[k] { assert OnWheel(t, k); }
  }

  lemma ViewKeys(t: Threads)
    ensures Entries(t).Keys == t.view.Keys && |Entries(t)| == |t.view|
  {
    ViewSize(t);
  }

  /** A loose entry can be dropped. */
  lemma DropFiled(t: Threads, elapsed: nat, key: Key)
    requires Linked(t) && Placed(elapsed, t) && Filed(t, elapsed, {key}) && key in t.view && key !in t.seat
    ensures var t' := t.(view := t.view - {key});
      && Linked(t') && Placed(elapsed, t') && Filed(t', elapsed, {})
      && Contents(t') == Contents(t) && Entries(t') == Entries(t) - {key}
      && key in Entries(t) && Entries(t)[key] == Entry(t.view[key].inner, t.view[key].when)
      && forall id :: Chain(t', id) == Chain(t, id)
  {
    hide Linked, Placed, Contents;
    LooseDrop(t, elapsed, key);
  }

  /** A loose entry can be given another instant. */
  lemma RetimeFiled(t: Threads, elapsed: nat, key: Key, w: nat)
    requires Linked(t) && Placed(elapsed, t) && Filed(t, elapsed, {key}) && key in t.view && w < U64_LIMIT
    ensures var t' := t.(view := t.view[key := t.view[key].(when := w, expired := false)]);
      && Linked(t') && Placed(elapsed, t') && Filed(t', elapsed, {key})
      && Contents(t') == Contents(t) && Entries(t') == Entries(t)[key := Entry(t.view[key].inner, w)]
      && key in Entries(t) && Entries(t)[key].value == t.view[key].inner
      && forall id :: Chain(t', id) == Chain(t, id)
  {
    hide Linked, Placed, Contents;
    LooseIsOffStack(t, elapsed, key);
    LooseWrite(t, elapsed, key, t.view[key].(when := w, expired := false));
  }

  lemma SameInstant(start: int, deadline: int, a: nat, b: nat)
    requires EndsAt(start, deadline, a) && EndsAt(start, deadline, b)
    ensures a == b
  {}

  lemma NoneExpired(t: Threads)
    ensures Head(Chain(t, ExpiredStack)) == None ==> Chain(t, ExpiredStack) == []
  {}

  /** What is on the expired stack is due at `elapsed`, and nothing is due before that. */
  lemma ExpiredIsEarliest(t: Threads, elapsed: nat, key: Key)
    requires Linked(t) && Placed(elapsed, t) && Filed(t, elapsed, {}) && key in t.seat && t.seat[key] == ExpiredStack
    ensures key in Entries(t) && Entries(t)[key].when == elapsed
    ensures forall k :: k in Entries(t) ==> elapsed <= Entries(t)[k].when
  {
    hide Placed;
    assert key in t.view;
    forall k | k in Entries(t) ensures elapsed <= Entries(t)[k].when { FiledOnWheel(t, elapsed, {}, k); }
  }

  /** A sleep is soon enough for the overdue entries exactly when it ends at `elapsed`. */
  lemma HeadIsOverdue(t: Threads, elapsed: nat, start: int, deadline: int)
    requires Linked(t) && Placed(elapsed, t) && Filed(t, elapsed, {}) && Chain(t, ExpiredStack) != []
    requires start + elapsed * NANOS_PER_MILLI <= deadline
    ensures Entries(t) != map[]
    ensures DueFrom(Entries(t), start, deadline) <==> deadline == start + elapsed * NANOS_PER_MILLI
  {
    hide Placed, Linked, Filed, Entries;
    LinksOf(t, ExpiredStack, 0);
    ExpiredIsEarliest(t, elapsed, Chain(t, ExpiredStack)[0]);
  }

  lemma NoHit(elapsed: nat, t: Threads, start: int)
    requires Linked(t) && forall k :: !OnWheel(t, k)
    ensures forall deadline :: !HitsAt(elapsed, t, start, deadline)
  {
    forall deadline ensures !HitsAt(elapsed, t, start, deadline) {
      if HitsAt(elapsed, t, start, deadline) {
        var x :| FirstHit(elapsed, t, x) && EndsAt(start, deadline, x.deadline);
        var k := SomeEntry(t, WheelSlot(x.level, x.slot));
        assert OnWheel(t, k);
      }
    }
  }

  /** There is only one first hit. */
  lemma OnlyHit(elapsed: nat, t: Threads, start: int, x: Expiration)
    requires Linked(t) && FirstHit(elapsed, t, x)
    ensures forall deadline :: HitsAt(elapsed, t, start, deadline) ==> deadline == start + x.deadline * NANOS_PER_MILLI
  {
    hide Linked, Deadline;
    var k := SomeEntry(t, WheelSlot(x.level, x.slot));
    forall deadline | HitsAt(elapsed, t, start, deadline) ensures deadline == start + x.deadline * NANOS_PER_MILLI {
      var y :| FirstHit(elapsed, t, y) && EndsAt(start, deadline, y.deadline);
      var l := SomeEntry(t, WheelSlot(y.level, y.slot));
      assert OnWheel(t, k) && OnWheel(t, l);
    }
  }

  lemma HitEntry(elapsed: nat, t: Threads, x: Expiration) returns (k: Key)
    requires Linked(t) && Placed(elapsed, t) && FirstHit(elapsed, t, x)
    ensures OnWheel(t, k) && k in Contents(t) && t.seat[k] == WheelSlot(x.level, x.slot)
    ensures Fits(elapsed, t.view[k].when, t.seat[k]) && Settled(elapsed, t.view[k].when, t.seat[k].level)
  {
    k := SomeEntry(t, WheelSlot(x.level, x.slot));
    assert OnWheel(t, k);
  }

  /** What stays on the wheel when an entry leaves it stays where it is. */
  lemma StaysPut(elapsed: nat, t: Threads, t': Threads, key: Key, k: Key)
    requires Placed(elapsed, t) && Placed(elapsed, t') && Contents(t') == Contents(t) - {key}
    ensures OnWheel(t', k) <==> OnWheel(t, k) && k != key
    ensures OnWheel(t', k) ==> t'.view[k].when == t.view[k].when && t'.seat[k] == t.seat[k]
  {
    assert OnWheel(t, k) <==> k in Contents(t);
    assert OnWheel(t', k) <==> k in Contents(t');
    if OnWheel(t', k) {
      assert Contents(t')[k] == Contents(t)[k];
      PlacedIsComputed(elapsed, t.view[k].when, t.seat[k]);
      PlacedIsComputed(elapsed, t.view[k].when, t'.seat[k]);
    }
  }

  /** If an entry's removal moves the first hit, the entry was due before the new one. */
  lemma NextHitIsLater(elapsed: nat, t: Threads, t': Threads, key: Key, x: Expiration, x': Expiration)
    requires Linked(t) && Placed(elapsed, t) && Linked(t') && Placed(elapsed, t') && Contents(t') == Contents(t) - {key}
    requires FirstHit(elapsed, t, x) && FirstHit(elapsed, t', x')
    ensures x.deadline != x'.deadline ==> key in Contents(t) && Contents(t)[key] < x'.deadline
  {
    hide Linked, Placed, Fits, Settled, Deadline, Chain;
    var k := HitEntry(elapsed, t, x);
    var k' := HitEntry(elapsed, t', x');
    StaysPut(elapsed, t, t', key, k');
    StaysPut(elapsed, t, t', key, k);
    if x.deadline != x'.deadline {
      assert k == key;
      BeforeNextSlot(elapsed, t.view[key].when, t'.view[k'].when, x, x');
    }
  }

  lemma BeforeNextSlot(elapsed: nat, when: nat, when': nat, x: Expiration, x': Expiration)
    requires Fits(elapsed, when, WheelSlot(x.level, x.slot)) && Fits(elapsed, when', WheelSlot(x'.level, x'.slot))
    requires Settled(elapsed, when', x'.level)
    requires x.deadline == Deadline(elapsed, x.level, x.slot) && x'.deadline == Deadline(elapsed, x'.level, x'.slot)
    requires x.level < x'.level || (x.level == x'.level && x.slot < x'.slot)
    ensures when < x'.deadline
  {
    hide SlotFor, Deadline, Prefix, Aligned, SlotRange;
    SlotDeadline(elapsed, when, x.level);
    SlotDeadline(elapsed, when', x'.level);
    if x.level < x'.level {
      PrefixUp(when, elapsed, x.level + 1, x'.level);
      PrefixMonotone(elapsed, when', x'.level);
      AlignedBelow(x'.deadline, x'.level, when);
    } else {
      DeadlineFacts(elapsed, x.level, x.slot);
      DeadlineFacts(elapsed, x.level, x'.slot);
      AlignedBelow(x'.deadline, x.level, when);
    }
  }

  lemma DropKeepsHits(t: Threads, elapsed: nat, start: int, key: Key)
    requires key !in t.seat
    ensures forall deadline :: HitsAt(elapsed, t, start, deadline) ==>
      HitsAt(elapsed, t.(view := t.view - {key}), start, deadline)
  {
    var t' := t.(view := t.view - {key});
    assert forall k :: OnWheel(t', k) <==> OnWheel(t, k);
    forall deadline | HitsAt(elapsed, t, start, deadline) ensures HitsAt(elapsed, t', start, deadline) {
      var x :| FirstHit(elapsed, t, x) && EndsAt(start, deadline, x.deadline);
      assert Chain(t', WheelSlot(x.level, x.slot)) == Chain(t, WheelSlot(x.level, x.slot));
      assert FirstHit(elapsed, t', x);
    }
  }

  lemma NoEntries(t: Threads)
    ensures Entries(t) == map[] ==> Contents(t) == map[]
  {
    if Entries(t) == map[] {
      forall k ensures k !in Contents(t) { ContentsAreEntries(t, k); }
    }
  }

  lemma ContentsAreEntries(t: Threads, key: Key)
    ensures key in Contents(t) ==> key in Entries(t) && Entries(t)[key].when == Contents(t)[key]
  {}

  lemma NothingFiled(t: Threads, elapsed: nat)
    requires Linked(t) && Placed(elapsed, t) && Filed(t, elapsed, {}) && Chain(t, ExpiredStack) == [] &&
      Contents(t) == map[]
    ensures Entries(t) == map[]
  {
    hide Placed;
    forall k ensures k !in Entries(t) {
      if k in t.view {
        FiledOnWheel(t, elapsed, {}, k);
        ExpiredMembers(t, k);
      }
    }
  }

  /** Without expired entries the wheel holds the whole queue, so what it yields is the earliest entry of all. */
  lemma PolledFiled(t: Threads, elapsed: nat, now: nat, r: Option<Key>, elapsed': nat, t': Threads)
    requires Linked(t) && Linked(t') && Placed(elapsed, t) && Filed(t, elapsed, {}) && Chain(t, ExpiredStack) == []
    requires Polled(t, now, r, elapsed', t')
    ensures elapsed' <= now && Chain(t', ExpiredStack) == []
    ensures Filed(t', elapsed', if r.Some? then {r.value} else {}) && Entries(t') == Entries(t)
    ensures r.Some? ==> r.value in Entries(t) && r.value in t'.view && Entries(t)[r.value].when <= now
    ensures r.Some? ==> forall k :: k in Entries(t) ==> Entries(t)[r.value].when <= Entries(t)[k].when
    ensures r == None ==> forall k :: k in Entries(t) ==> now < Entries(t)[k].when
  {
    hide Placed, Linked, TotalLevel;
    SameEntriesSameView(t, t');
    AllOnWheel(t, elapsed);
    forall k | k in t'.seat ensures t'.seat[k] != ExpiredStack && k in t'.view {
      ExpiredMembers(t', k);
      SeatsAreLive(t');
    }
  }

  lemma AllOnWheel(t: Threads, elapsed: nat)
    requires Linked(t) && Placed(elapsed, t) && Filed(t, elapsed, {}) && Chain(t, ExpiredStack) == []
    ensures forall k :: k in t.view ==> k in Contents(t) && Contents(t)[k] == t.view[k].when && !t.view[k].expired
  {
    hide Placed;
    forall k | k in t.view ensures k in Contents(t) && Contents(t)[k] == t.view[k].when && !t.view[k].expired {
      FiledOnWheel(t, elapsed, {}, k);
      ExpiredMembers(t, k);
    }
  }

  lemma ViewSize(t: Threads)
    ensures |Entries(t)| == |t.view| && Entries(t).Keys == t.view.Keys
  {
    assert Entries(t).Keys == t.view.Keys;
  }

  /** A new entry starts loose. */
  lemma NewFiled(t: Threads, elapsed: nat, key: Key, d: Data)
    requires Linked(t) && Placed(elapsed, t) && Filed(t, elapsed, {}) && key !in t.view
    requires d.next == None && d.prev == None && d.when < U64_LIMIT
    ensures var t' := t.(view := t.view[key := d]);
      && Linked(t') && Placed(elapsed, t') && Filed(t', elapsed, {key})
      && Contents(t') == Contents(t) && Entries(t') == Entries(t)[key := Entry(d.inner, d.when)]
      && forall id :: Chain(t', id) == Chain(t, id)
  {
    hide Linked, Placed, Contents;
    LooseWrite(t, elapsed, key, d);
  }

  lemma LooseIsOffStack(t: Threads, elapsed: nat, key: Key)
    requires Filed(t, elapsed, {key}) && Linked(t) && key in t.view
    ensures key !in t.seat && t.view[key].next == None && t.view[key].prev == None
  {}

  lemma InsertFiled(t: Threads, elapsed: nat, key: Key, when: nat, t': Threads)
    requires Linked(t) && Linked(t') && Filed(t, elapsed, {key}) && key in t.view && !t.view[key].expired
    requires SameEntries(t.view, t'.view) && t'.seat.Keys == t.seat.Keys + {key} && OnWheel(t', key)
    requires Chain(t', ExpiredStack) == Chain(t, ExpiredStack)
    ensures Filed(t', elapsed, {}) && Entries(t') == Entries(t)
  {
    hide Linked;
    SameExpired(t, t');
    FiledAfterMove(t, elapsed, t', {key}, {});
    SameEntriesSameView(t, t');
  }

  lemma FlagFiled(t: Threads, elapsed: nat, key: Key)
    requires Linked(t) && Placed(elapsed, t) && Filed(t, elapsed, {key}) && key in t.view
    ensures var t' := t.(view := t.view[key := t.view[key].(expired := true)]);
      && Linked(t') && Placed(elapsed, t') && Filed(t', elapsed, {key})
      && Contents(t') == Contents(t) && Entries(t') == Entries(t)
      && forall id :: Chain(t', id) == Chain(t, id)
  {
    hide Linked, Placed;
    LooseIsOffStack(t, elapsed, key);
    LooseWrite(t, elapsed, key, t.view[key].(expired := true));
  }

  lemma PushFiled(t: Threads, elapsed: nat, key: Key)
    requires Linked(t) && Filed(t, elapsed, {key}) && key in t.view && key !in t.seat
    requires t.view[key].expired && t.view[key].when == elapsed
    ensures Filed(Pushed(t, ExpiredStack, key), elapsed, {})
  {
    hide Linked;
    PushKeepsLinked(t, ExpiredStack, key);
    FiledAfterMove(t, elapsed, Pushed(t, ExpiredStack, key), {key}, {});
  }

  lemma ExpiredNotInContents(t: Threads, key: Key)
    requires key in t.seat && t.seat[key] == ExpiredStack
    ensures Contents(t) - {key} == Contents(t)
  {}

  lemma RemoveFiled(t: Threads, elapsed: nat, key: Key, t': Threads)
    requires Linked(t) && Linked(t') && Filed(t, elapsed, {}) && key in t.view
    requires SameEntries(t.view, t'.view) && t'.seat == t.seat - {key}
    requires t.seat[key] == ExpiredStack || Chain(t', ExpiredStack) == Chain(t, ExpiredStack)
    ensures Filed(t', elapsed, {key}) && Entries(t') == Entries(t)
    ensures key in t'.view && t'.view[key].next == None && t'.view[key].prev == None
  {
    FiledAfterMove(t, elapsed, t', {}, {key});
    SameEntriesSameView(t, t');
  }
}
