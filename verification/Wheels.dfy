/** The hierarchical timing wheel. */
module Wheels {
  import opened Wrappers
  import opened Words
  import opened Digits
  import opened Storage
  import opened Stacks
  import opened Levels
  import opened Placement

  datatype InsertError = Elapsed | Invalid
  datatype InsertResult = Inserted | Rejected(item: Key, error: InsertError)

  /** A poll at `now` of a priority queue: the least entry due by then is taken, or there is none. */
  ghost predicate PollsQueue(before: map<Key, nat>, now: nat, result: Option<Key>, after: map<Key, nat>)
  {
    match result
    case None => after == before && forall k :: k in before ==> now < before[k]
    case Some(key) =>
      && key in before && before[key] <= now
      && (forall k :: k in before ==> before[key] <= before[k])
      && after == before - {key}
  }

  lemma ContentsAfterRemoval(t: Threads, t': Threads, key: Key)
    requires SameEntries(t.view, t'.view) && t'.seat == t.seat - {key}
    ensures Contents(t') == Contents(t) - {key}
  {}

  lemma ContentsAfterMoves(t: Threads, t': Threads)
    requires SameEntries(t.view, t'.view) && t'.seat.Keys == t.seat.Keys
    requires forall k :: k in t.seat ==> t.seat[k].WheelSlot? == t'.seat[k].WheelSlot?
    ensures Contents(t') == Contents(t)
  {}

  lemma ContentsAfterInsert(t: Threads, t': Threads, item: Key, id: StackId)
    requires SameEntries(t.view, t'.view) && t'.seat == t.seat[item := id] && id.WheelSlot? && item in t.view
    ensures Contents(t') == Contents(t)[item := t.view[item].when]
  {}

  class Wheel {
    var elapsed: nat
    const levels: seq<Level>
    ghost const cells: set<Stack>

    /** The levels and their stacks. */
    ghost function Objects(): set<object>
    {
      var all: set<object> := set l | l in levels;
      all + cells
    }

    /** Six levels, whose heads and occupancy words agree with the stacks. */
    ghost predicate Ok(t: Threads)
      reads levels, cells
    {
      && |levels| == NUM_LEVELS
      && (forall l :: 0 <= l < NUM_LEVELS ==> levels[l].level == l && (forall s :: s in levels[l].slot ==> s in cells))
      && (forall l :: 0 <= l < NUM_LEVELS ==> levels[l].Ok(t))
    }

    ghost predicate Sound(store: SlabStorage)
      reads levels, cells, store
    {
      store.Valid() && Linked(store.threads) && Ok(store.threads)
    }

    ghost predicate Valid(store: SlabStorage)
      reads this, levels, cells, store
    {
      Sound(store) && Placed(elapsed, store.threads)
    }

    constructor ()
      ensures elapsed == 0 && fresh(levels) && fresh(cells) && fresh(Objects())
      ensures forall t :: (forall id: StackId :: id.WheelSlot? ==> Chain(t, id) == []) ==> Ok(t)
    {
      var made: seq<Level> := [];
      ghost var stacks: set<Stack> := {};
      for l := 0 to NUM_LEVELS
        invariant |made| == l
        invariant forall i :: 0 <= i < l ==> fresh(made[i]) && made[i].level == i && fresh(made[i].slot)
        invariant forall i :: 0 <= i < l ==> forall s :: s in made[i].slot ==> s in stacks
        invariant fresh(stacks)
        invariant forall i, t :: 0 <= i < l && (forall id: StackId :: id.WheelSlot? ==> Chain(t, id) == []) ==>
          made[i].Ok(t)
      {
        var level := new Level(l);
        made := made + [level];
        stacks := stacks + set s | s in level.slot;
      }
      elapsed, levels, cells := 0, made, stacks;
    }

    /** The wheel only depends on its own stacks. */
    lemma OkSame(t: Threads, t': Threads)
      requires Ok(t) && forall id: StackId :: id.WheelSlot? ==> Chain(t', id) == Chain(t, id)
      ensures Ok(t')
    {
      hide Chain;
      forall l | 0 <= l < NUM_LEVELS ensures levels[l].Ok(t') { assert levels[l].Ok(t); }
    }

    // ---- one level at a time ----

    lemma OtherLevelsApart(l: nat, i: nat, t: Threads)
      requires Ok(t) && l < NUM_LEVELS && i < NUM_LEVELS && l != i
      ensures levels[l] != levels[i]
      ensures forall s :: s in levels[l].slot ==> s !in levels[i].slot
    {
      forall s | s in levels[l].slot ensures s !in levels[i].slot {
        var a :| 0 <= a < |levels[l].slot| && levels[l].slot[a] == s;
        assert s.id == WheelSlot(l, a);
        forall b | 0 <= b < |levels[i].slot| ensures levels[i].slot[b] != s {
          assert levels[i].slot[b].id == WheelSlot(i, b);
        }
      }
    }

    method AddTo(l: nat, when: nat, item: Key, store: SlabStorage)
      requires Sound(store) && l < NUM_LEVELS
      requires item in store.threads.view && item !in store.threads.seat
      modifies levels, cells, store`inner, store`threads
      ensures Sound(store)
      ensures store.threads == Pushed(old(store.threads), WheelSlot(l, SlotFor(when, l)), item)
      ensures SameEntries(old(store.threads.view), store.threads.view)
    {
      hide Linked, SameEntries, SlabStorage.Valid, Pushed, SlotFor;
      ghost var t := store.threads;
      PushedChains(t, WheelSlot(l, SlotFor(when, l)), item);
      forall i | 0 <= i < NUM_LEVELS && i != l
        ensures levels[i] != levels[l] && forall s :: s in levels[i].slot ==> s !in levels[l].slot
      {
        OtherLevelsApart(i, l, t);
      }
      levels[l].AddEntry(when, item, store);
      forall i | 0 <= i < NUM_LEVELS ensures levels[i].Ok(store.threads) {
        if i != l { assert old(levels[i].Ok(t)); }
      }
    }

    method RemoveFrom(l: nat, when: nat, item: Key, store: SlabStorage)
      requires Sound(store) && l < NUM_LEVELS
      requires item in store.threads.seat && store.threads.seat[item] == WheelSlot(l, SlotFor(when, l))
      modifies levels, cells, store`inner, store`threads
      ensures Sound(store)
      ensures store.threads.seat == old(store.threads.seat) - {item}
      ensures Chain(store.threads, ExpiredStack) == Chain(old(store.threads), ExpiredStack)
      ensures SameEntries(old(store.threads.view), store.threads.view)
    {
      hide Linked, SameEntries, SlabStorage.Valid, SlotFor;
      ghost var t := store.threads;
      forall i | 0 <= i < NUM_LEVELS && i != l
        ensures levels[i] != levels[l] && forall s :: s in levels[i].slot ==> s !in levels[l].slot
      {
        OtherLevelsApart(i, l, t);
      }
      ghost var at := levels[l].RemoveEntry(when, item, store);
      RemovedChains(t, WheelSlot(l, SlotFor(when, l)), at);
      forall i | 0 <= i < NUM_LEVELS ensures levels[i].Ok(store.threads) {
        if i != l { assert old(levels[i].Ok(t)); }
      }
    }

    method PopEntry(x: Expiration, store: SlabStorage) returns (item: Option<Key>)
      requires Sound(store) && x.level < NUM_LEVELS && x.slot < LEVEL_MULT
      modifies levels, cells, store`inner, store`threads
      ensures Sound(store)
      ensures item == Head(Chain(old(store.threads), WheelSlot(x.level, x.slot)))
      ensures item == None ==> store.threads == old(store.threads)
      ensures item.Some? ==> item.value in old(store.threads.view)
      ensures item.Some? ==> store.threads == Removed(old(store.threads), WheelSlot(x.level, x.slot), 0)
      ensures SameEntries(old(store.threads.view), store.threads.view)
    {
      hide Linked, SameEntries, SlabStorage.Valid, Removed, Without, Chain;
      ghost var t := store.threads;
      var l := x.level;
      forall i | 0 <= i < NUM_LEVELS && i != l
        ensures levels[i] != levels[l] && forall s :: s in levels[i].slot ==> s !in levels[l].slot
      {
        OtherLevelsApart(i, l, t);
      }
      item := levels[l].PopEntrySlot(x.slot, store);
      if item.Some? { RemovedChains(t, WheelSlot(l, x.slot), 0); }
      forall i | 0 <= i < NUM_LEVELS ensures levels[i].Ok(store.threads) {
        if i != l { assert old(levels[i].Ok(t)); }
      }
    }

    // ---- the operations ----

    /** Beyond the error returns the level index must be in range: `elapsed` and `when` agree from bit 36 upwards. */
    method Insert(when: nat, item: Key, store: SlabStorage) returns (r: InsertResult)
      requires Valid(store)
      requires item in store.threads.view && item !in store.threads.seat && store.threads.view[item].when == when
      requires elapsed < when <= elapsed + MAX_DURATION ==> elapsed / 0x10_0000_0000 == when / 0x10_0000_0000
      modifies levels, cells, store`inner, store`threads
      ensures Valid(store)
      ensures r == (if when <= elapsed then Rejected(item, Elapsed)
        else if when - elapsed > 0xF_FFFF_FFFF then Rejected(item, Invalid) else Inserted)
      ensures r.Rejected? ==> store.threads == old(store.threads)
      ensures r.Inserted? ==>
        store.threads.seat.Keys == old(store.threads.seat.Keys) + {item} && OnWheel(store.threads, item)
      ensures r.Inserted? ==> Contents(store.threads) == Contents(old(store.threads))[item := when]
      ensures Chain(store.threads, ExpiredStack) == Chain(old(store.threads), ExpiredStack)
      ensures SameEntries(old(store.threads.view), store.threads.view)
    {
      ghost var t := store.threads;
      if when <= elapsed {
        return Rejected(item, Elapsed);
      } else if when - elapsed > MAX_DURATION {
        return Rejected(item, Invalid);
      }
      LevelInRangeIff(elapsed, when);
      LevelForIsTopDigit(elapsed, when);
      var level := LevelFor(elapsed, when);
      AddTo(level, when, item, store);
      InsertKeepsPlaced(elapsed, t, item, when);
      assert levels[level].Ok(store.threads);
      LevelNotPast(levels[level], elapsed, store.threads);
      r := Inserted;
    }

    /** The source asserts that the entry is not overdue, and finds its slot from the present `elapsed`. */
    method Remove(item: Key, store: SlabStorage)
      requires Valid(store) && OnWheel(store.threads, item)
      modifies levels, cells, store`inner, store`threads
      ensures Valid(store)
      ensures store.threads.seat == old(store.threads.seat) - {item}
      ensures Contents(store.threads) == Contents(old(store.threads)) - {item}
      ensures Chain(store.threads, ExpiredStack) == Chain(old(store.threads), ExpiredStack)
      ensures SameEntries(old(store.threads.view), store.threads.view)
    {
      ghost var t := store.threads;
      var when := store.Get(item).when;
      assert Fits(elapsed, when, t.seat[item]) && Settled(elapsed, when, t.seat[item].level);
      assert elapsed <= when;
      PlacedIsComputed(elapsed, when, t.seat[item]);
      var level := LevelFor(elapsed, when);
      RemoveFrom(level, when, item, store);
      RemovalKeepsPlaced(elapsed, t, store.threads, item);
      ContentsAfterRemoval(t, store.threads, item);
    }

    method NextExpiration(store: SlabStorage) returns (r: Option<Expiration>)
      requires Sound(store) && CascadePlaced(elapsed, store.threads)
      ensures r == None ==> forall k :: !OnWheel(store.threads, k)
      ensures r.Some? ==> FirstHit(elapsed, store.threads, r.value)
    {
      ghost var t := store.threads;
      for l := 0 to NUM_LEVELS
        invariant NoneBelow(t, l)
      {
        var e := levels[l].NextExpiration(elapsed);
        LevelHit(levels[l], elapsed, t);
        if e.Some? {
          FirstOccupiedIsFirstHit(elapsed, t, l, e.value.slot);
          var ok := NoExpirationsBefore(l + 1, e.value.deadline, e.value, store);
          assert ok;
          return e;
        }
        EmptyLevel(t, l);
      }
      NoneAbove(elapsed, t);
      r := None;
    }

    /** The walk of the debug assertion in `next_expiration`. */
    method NoExpirationsBefore(start: nat, before: nat, ghost x: Expiration, store: SlabStorage) returns (res: bool)
      requires Sound(store) && CascadePlaced(elapsed, store.threads) && FirstHit(elapsed, store.threads, x)
      requires start == x.level + 1 && before == x.deadline
      ensures res
    {
      res := true;
      for l := start to NUM_LEVELS
        invariant res
      {
        var e := levels[l].NextExpiration(elapsed);
        LevelHit(levels[l], elapsed, store.threads);
        if e.Some? {
          NoExpirationBefore(elapsed, store.threads, x, l, e.value.slot);
          if e.value.deadline < before { res := false; }
        }
      }
    }

    /** Moves the first entry of a slot down one level. */
    method TierDown(x: Expiration, item: Key, store: SlabStorage)
      requires Sound(store) && 0 < x.level < NUM_LEVELS
      requires item in store.threads.view && item !in store.threads.seat
      modifies levels, cells, store`inner, store`threads
      ensures Sound(store)
      ensures var when := old(store.threads).view[item].when;
        store.threads == Pushed(old(store.threads), WheelSlot(x.level - 1, SlotFor(when, x.level - 1)), item)
      ensures SameEntries(old(store.threads.view), store.threads.view)
    {
      hide Linked, SameEntries, SlabStorage.Valid, Pushed, SlotFor, Wheel.Ok;
      var when := store.Get(item).when;
      var nextLevel := x.level - 1;
      AddTo(nextLevel, when, item, store);
    }

    /** Takes the entry at a level-0 hit, or moves all entries of the hit's slot down one level. */
    method PollExpiration(x: Expiration, store: SlabStorage) returns (r: Option<Key>)
      requires Sound(store) && CascadePlaced(elapsed, store.threads) && FirstHit(elapsed, store.threads, x)
      modifies levels, cells, store`inner, store`threads
      ensures Sound(store)
      ensures HitPolled(old(store.threads), x, r, store.threads)
    {
      hide SlabStorage.Valid, SlotFor, Deadline, Linked, CascadePlaced, SameEntries, Wheel.Ok, MovedDown, Removed,
        Pushed, OnWheel;
      ghost var t := store.threads;
      HitHoldsEntries(elapsed, t, x);
      if x.level == 0 {
        HitTaken(elapsed, t, x);
        r := PopEntry(x, store);
        return;
      }
      NoneMovedDown(t, x);
      ghost var n: nat := 0;
      while true
        invariant Sound(store)
        invariant n <= |Chain(t, WheelSlot(x.level, x.slot))| && MovedDown(t, x, n, store.threads)
        decreases |Chain(t, WheelSlot(x.level, x.slot))| - n
      {
        OneMoreDown(t, x, n, store.threads);
        var item := PopEntry(x, store);
        if item == None {
          return None;
        }
        TierDown(x, item.value, store);
        n := n + 1;
      }
    }

    /** The source asserts that the wheel never turns back. */
    method SetElapsed(when: nat)
      requires elapsed <= when
      modifies this`elapsed
      ensures elapsed == when
    {
      if when > elapsed {
        elapsed := when;
      }
    }

    /** Advances to `now`: takes the earliest entry due by then, if there is one. */
    method Poll(now: nat, store: SlabStorage) returns (r: Option<Key>)
      requires Valid(store) && elapsed <= now
      modifies this`elapsed, levels, cells, store`inner, store`threads
      ensures Valid(store)
      ensures old(elapsed) <= elapsed
      ensures Polled(old(store.threads), now, r, elapsed, store.threads)
      ensures forall x :: FirstHit(old(elapsed), old(store.threads), x) && x.deadline <= now && r == None ==>
        TotalLevel(store.threads.seat) < TotalLevel(old(store.threads.seat))
    {
      hide SlabStorage.Valid, Linked, Placed, CascadePlaced, FirstHit, Contents, OnWheel, SameEntries, Wheel.Ok,
        Polled, TotalLevel, HitPolled, PolledDown;
      ghost var t0 := store.threads;
      PollStarts(elapsed, t0);
      while true
        invariant Sound(store) && CascadePlaced(elapsed, store.threads) && PolledDown(t0, store.threads)
        invariant old(elapsed) <= elapsed <= now
        invariant (store.threads == t0 && elapsed == old(elapsed)) ||
          TotalLevel(store.threads.seat) < TotalLevel(t0.seat)
        decreases TotalLevel(store.threads.seat)
      {
        ghost var t := store.threads;
        var x := NextExpiration(store);
        if x.Some? && x.value.deadline <= now {
          var item := PollExpiration(x.value, store);
          if item.Some? {
            PollTakes(elapsed, t0, t, x.value, now, item.value, store.threads);
            return item;
          }
          PollCascades(elapsed, t0, t, x.value, store.threads);
          SetElapsed(x.value.deadline);
        } else {
          PollRests(elapsed, t0, t, x, now);
          NoOtherHit(elapsed, t, x);
          SetElapsed(now);
          return None;
        }
      }
    }
  }

  /**
    A wheel a millisecond before bit 36 turns: the next millisecond is well within the largest duration, and has no
    level.
   */
  method TurnedTooFar() returns (wheel: Wheel, store: SlabStorage)
    ensures wheel.Valid(store) && wheel.elapsed == 0xF_FFFF_FFFF
    ensures LevelFor(wheel.elapsed, wheel.elapsed + 1) >= NUM_LEVELS
  {
    hide Linked, Placed, Wheel.Ok, Chain, LevelFor, Polled;
    store := new SlabStorage();
    wheel := new Wheel();
    NothingStacked();
    var r := wheel.Poll(0xF_FFFF_FFFF, store);
    NothingPolled(Threads(map[], map[], map[]), 0xF_FFFF_FFFF, r, wheel.elapsed, store.threads);
    LevelInRangeIff(0xF_FFFF_FFFF, 0x10_0000_0000);
  }

  lemma NothingStacked()
    ensures var t := Threads(map[], map[], map[]);
      Linked(t) && Placed(0, t) && forall id :: Chain(t, id) == []
  {}

  lemma NothingPolled(before: Threads, now: nat, r: Option<Key>, elapsed: nat, after: Threads)
    requires Polled(before, now, r, elapsed, after) && before == Threads(map[], map[], map[])
    ensures r == None && elapsed == now
  {}

  // ---- facts about one level and one stack ----

  lemma SeatsAreLive(t: Threads)
    requires Linked(t)
    ensures Live(t)
  {}

  /** An entry of a stack is live and seated there. */
  lemma HitOnStack(t: Threads, id: StackId, i: nat)
    requires Linked(t) && i < |Chain(t, id)|
    ensures Chain(t, id)[i] in t.view && Chain(t, id)[i] in t.seat && t.seat[Chain(t, id)[i]] == id
  {
    LinksOf(t, id, i);
  }

  /** An entry pushed where its level and slot are computed keeps the placement. */
  lemma InsertKeepsPlaced(elapsed: nat, t: Threads, item: Key, when: nat)
    requires Linked(t) && Placed(elapsed, t) && item in t.view && item !in t.seat && t.view[item].when == when
    requires elapsed <= when && 0 <= LevelFor(elapsed, when) < NUM_LEVELS
    ensures var t' := Pushed(t, WheelSlot(LevelFor(elapsed, when), SlotFor(when, LevelFor(elapsed, when))), item);
      && Placed(elapsed, t') && OnWheel(t', item)
      && t'.seat.Keys == t.seat.Keys + {item}
      && Contents(t') == Contents(t)[item := when]
      && Chain(t', ExpiredStack) == Chain(t, ExpiredStack)
  {
    hide LevelFor, SlotFor, LinkedAt, Seated, Fits, Settled, PushLinks;
    var id := WheelSlot(LevelFor(elapsed, when), SlotFor(when, LevelFor(elapsed, when)));
    var t' := Pushed(t, id, item);
    PlacedIsComputed(elapsed, when, id);
    PushKeepsLinked(t, id, item);
    PushedChains(t, id, item);
    ContentsAfterInsert(t, t', item, id);
    forall k | OnWheel(t', k)
      ensures Fits(elapsed, t'.view[k].when, t'.seat[k]) && Settled(elapsed, t'.view[k].when, t'.seat[k].level)
    {
      if k != item { assert OnWheel(t, k); }
    }
  }

  /** A level answers with its first occupied slot, going round, or says that it is empty. */
  lemma LevelHit(level: Level, elapsed: nat, t: Threads)
    requires level.Ok(t)
    ensures var e := level.NextExpiration(elapsed);
      && (e == None ==> forall s :: 0 <= s < LEVEL_MULT ==> Chain(t, WheelSlot(level.level, s)) == [])
      && (e.Some? ==>
            && e.value.level == level.level && e.value.slot < LEVEL_MULT
            && e.value.deadline == Deadline(elapsed, level.level, e.value.slot)
            && Chain(t, WheelSlot(level.level, e.value.slot)) != []
            && forall s :: 0 <= s < LEVEL_MULT && Chain(t, WheelSlot(level.level, s)) != [] ==>
              Ahead(elapsed / SlotRange(level.level) % USIZE_LIMIT, e.value.slot) <=
                Ahead(elapsed / SlotRange(level.level) % USIZE_LIMIT, s))
  {
    EmptyIffNoBit64(level.occupied);
    forall s | 0 <= s < LEVEL_MULT && level.occupied == 0 ensures Chain(t, WheelSlot(level.level, s)) == [] {
      assert !Bit(level.occupied, s);
    }
    if level.occupied > 0 {
      FirstFromIsFirst(level.occupied, elapsed / SlotRange(level.level) % USIZE_LIMIT);
    }
  }

  /** The debug assertion of `insert`: the level's next expiration is not in the past. */
  lemma LevelNotPast(level: Level, elapsed: nat, t: Threads)
    requires level.Ok(t) && Linked(t) && Placed(elapsed, t)
    ensures level.NextExpiration(elapsed).Some? ==> level.NextExpiration(elapsed).value.deadline >= elapsed
  {
    LevelHit(level, elapsed, t);
    var e := level.NextExpiration(elapsed);
    if e.Some? {
      var k := SomeEntry(t, WheelSlot(level.level, e.value.slot));
      assert OnWheel(t, k);
      assert Fits(elapsed, t.view[k].when, t.seat[k]) && Settled(elapsed, t.view[k].when, t.seat[k].level);
      SlotDeadline(elapsed, t.view[k].when, level.level);
    }
  }

  lemma NoneAbove(elapsed: nat, t: Threads)
    requires CascadePlaced(elapsed, t) && NoneBelow(t, NUM_LEVELS)
    ensures forall k :: !OnWheel(t, k)
  {
    if k :| OnWheel(t, k) {
      assert false;
    }
  }

  lemma EmptyLevel(t: Threads, level: nat)
    requires Linked(t) && NoneBelow(t, level)
    requires forall k :: OnWheel(t, k) ==> t.seat[k].slot < LEVEL_MULT
    requires forall s :: 0 <= s < LEVEL_MULT ==> Chain(t, WheelSlot(level, s)) == []
    ensures NoneBelow(t, level + 1)
  {
    forall k | OnWheel(t, k) ensures t.seat[k].level >= level + 1 {
      assert k in Chain(t, t.seat[k]);
      assert t.seat[k] == WheelSlot(t.seat[k].level, t.seat[k].slot);
    }
  }

  // ---- a cascade under way ----

  lemma HitHoldsEntries(elapsed: nat, t: Threads, x: Expiration)
    requires FirstHit(elapsed, t, x)
    ensures |Chain(t, WheelSlot(x.level, x.slot))| > 0 && elapsed <= x.deadline && x.level < NUM_LEVELS &&
      x.slot < LEVEL_MULT
  {}

  /** Popping the slot of a level-0 hit takes an entry that is due at its deadline. */
  lemma HitTaken(elapsed: nat, t: Threads, x: Expiration)
    requires Linked(t) && CascadePlaced(elapsed, t) && FirstHit(elapsed, t, x) && x.level == 0
    ensures var id := WheelSlot(x.level, x.slot);
      && var k := Chain(t, id)[0];
      && OnWheel(t, k) && t.view[k].when == x.deadline
      && Removed(t, id, 0).seat == t.seat - {k}
      && Chain(Removed(t, id, 0), ExpiredStack) == Chain(t, ExpiredStack)
  {
    var id := WheelSlot(x.level, x.slot);
    HitOnStack(t, id, 0);
    HitBrackets(elapsed, t, x, Chain(t, id)[0]);
    RemovedChains(t, id, 0);
  }

  ghost function SeatMidway(t: Threads, x: Expiration, n: nat, k: Key): StackId
    requires x.level > 0 && n <= |Chain(t, WheelSlot(x.level, x.slot))| && k in t.seat && k in t.view
  {
    if k in Chain(t, WheelSlot(x.level, x.slot))[..n] then WheelSlot(x.level - 1, SlotFor(t.view[k].when, x.level - 1))
      else t.seat[k]
  }

  /**
    What polling a first hit does: a level-0 hit gives up an entry due at its deadline, any other moves its slot down.
   */
  ghost predicate HitPolled(t: Threads, x: Expiration, r: Option<Key>, t': Threads)
  {
    && (r.Some? <==> x.level == 0)
    && (r.Some? ==>
          && OnWheel(t, r.value) && t.view[r.value].when == x.deadline
          && t'.seat == t.seat - {r.value}
          && Chain(t', ExpiredStack) == Chain(t, ExpiredStack)
          && SameEntries(t.view, t'.view))
    && (r == None ==> MovedDown(t, x, |Chain(t, WheelSlot(x.level, x.slot))|, t'))
  }

  /** `u` is `t` when the first `n` entries of the hit's slot have moved down one level, each of them once. */
  ghost predicate MovedDown(t: Threads, x: Expiration, n: nat, u: Threads)
  {
    var id := WheelSlot(x.level, x.slot);
    && 0 < x.level < NUM_LEVELS && n <= |Chain(t, id)| && Live(t)
    && SameEntries(t.view, u.view)
    && Chain(u, id) == Chain(t, id)[n..]
    && Chain(u, ExpiredStack) == Chain(t, ExpiredStack)
    && u.seat.Keys == t.seat.Keys
    && (forall k :: k in t.seat ==> u.seat[k] == SeatMidway(t, x, n, k))
    && TotalLevel(u.seat) == TotalLevel(t.seat) - n
  }

  lemma NoneMovedDown(t: Threads, x: Expiration)
    requires Linked(t) && 0 < x.level < NUM_LEVELS
    ensures MovedDown(t, x, 0, t)
  {
    SeatsAreLive(t);
  }

  /** Popping the slot and pushing the entry one level down moves one more entry, as long as there is one. */
  lemma OneMoreDown(t: Threads, x: Expiration, n: nat, u: Threads)
    requires Linked(t) && Linked(u) && MovedDown(t, x, n, u)
    ensures Chain(u, WheelSlot(x.level, x.slot)) == [] ==> n == |Chain(t, WheelSlot(x.level, x.slot))|
    ensures Chain(u, WheelSlot(x.level, x.slot)) != [] ==>
      var id := WheelSlot(x.level, x.slot);
      && n < |Chain(t, id)|
      && var k := Chain(u, id)[0];
      && k in u.view
      && var v := Removed(u, id, 0);
      && k in v.view && k !in v.seat
      && MovedDown(t, x, n + 1, Pushed(v, WheelSlot(x.level - 1, SlotFor(v.view[k].when, x.level - 1)), k))
  {
    var id := WheelSlot(x.level, x.slot);
    if Chain(u, id) != [] {
      MoveOneDown(t, x, n, u);
    }
  }

  lemma MoveOneDown(t: Threads, x: Expiration, n: nat, u: Threads)
    requires Linked(t) && Linked(u) && MovedDown(t, x, n, u) && n < |Chain(t, WheelSlot(x.level, x.slot))|
    ensures var id := WheelSlot(x.level, x.slot);
      && var k := Chain(u, id)[0];
      && k in u.view
      && var v := Removed(u, id, 0);
      && k in v.view && k !in v.seat
      && MovedDown(t, x, n + 1, Pushed(v, WheelSlot(x.level - 1, SlotFor(v.view[k].when, x.level - 1)), k))
  {
    hide SlotFor, TotalLevel, Linked, Removed, Pushed, SameEntries, SeatMidway;
    var id := WheelSlot(x.level, x.slot);
    var c := Chain(t, id);
    var k := c[n];
    HitOnStack(t, id, n);
    HitOnStack(u, id, 0);
    RemoveKeepsLinked(u, id, 0);
    var v := Removed(u, id, 0);
    OffStackAfterRemoval(u, id, 0);
    var below := WheelSlot(x.level - 1, SlotFor(v.view[k].when, x.level - 1));
    PushKeepsLinked(v, below, k);
    var w := Pushed(v, below, k);
    RemovedChains(u, id, 0);
    PushedChains(v, below, k);
    assert c[n..][0] == k && Without(c[n..], 0) == c[n + 1..];
    PushedSeat(v, below, k);
    assert w.seat == u.seat[k := below];
    MoveDown(u.seat, k, below.slot);
    SameThroughout(t.view, u.view, v.view);
    SameThroughout(t.view, v.view, w.view);
    SameWhen(t.view, v.view, k);
    SeatsOneMoreDown(t, x, n, u.seat);
  }

  lemma PushedSeat(t: Threads, id: StackId, item: Key)
    ensures Pushed(t, id, item).seat == t.seat[item := id]
  {}

  lemma SameWhen(a: map<Key, Data>, b: map<Key, Data>, k: Key)
    requires SameEntries(a, b) && k in a
    ensures k in b && a[k].when == b[k].when
  {}

  lemma SeatsOneMoreDown(t: Threads, x: Expiration, n: nat, seat: map<Key, StackId>)
    requires 0 < x.level && n < |Chain(t, WheelSlot(x.level, x.slot))| && Live(t) && seat.Keys == t.seat.Keys
    requires forall k :: k in t.seat ==> seat[k] == SeatMidway(t, x, n, k)
    requires Chain(t, WheelSlot(x.level, x.slot))[n] in t.seat
    ensures var k0 := Chain(t, WheelSlot(x.level, x.slot))[n];
      forall k :: k in t.seat ==>
        seat[k0 := WheelSlot(x.level - 1, SlotFor(t.view[k0].when, x.level - 1))][k] == SeatMidway(t, x, n + 1, k)
  {
    hide SlotFor;
    var c := Chain(t, WheelSlot(x.level, x.slot));
    assert c[..n + 1] == c[..n] + [c[n]];
  }

  lemma OffStackAfterRemoval(u: Threads, id: StackId, i: nat)
    requires Linked(u) && i < |Chain(u, id)| && Chain(u, id)[i] in u.view
    ensures Chain(u, id)[i] in Removed(u, id, i).view && Chain(u, id)[i] !in Removed(u, id, i).seat
    ensures Removed(u, id, i).seat == u.seat - {Chain(u, id)[i]}
  {}

  lemma AllMovedDown(t: Threads, x: Expiration, u: Threads)
    requires Linked(t) && MovedDown(t, x, |Chain(t, WheelSlot(x.level, x.slot))|, u)
    ensures u.seat == CascadeSeat(t, x)
  {
    hide SlotFor, TotalLevel;
    var id := WheelSlot(x.level, x.slot);
    var c := Chain(t, id);
    assert c[..|c|] == c;
    forall k | k in t.seat ensures k in c <==> t.seat[k] == id {
      if k in c {
        var i :| 0 <= i < |c| && c[i] == k;
        HitOnStack(t, id, i);
      }
    }
  }

  /** There is one first hit, and none on an empty wheel. */
  lemma NoOtherHit(elapsed: nat, t: Threads, x: Option<Expiration>)
    requires Linked(t)
    requires x == None ==> forall k :: !OnWheel(t, k)
    requires x.Some? ==> FirstHit(elapsed, t, x.value)
    ensures forall y :: FirstHit(elapsed, t, y) ==> x == Some(y)
  {
    forall y | FirstHit(elapsed, t, y) ensures x == Some(y) {
      var k := SomeEntry(t, WheelSlot(y.level, y.slot));
      assert OnWheel(t, k);
      var l := SomeEntry(t, WheelSlot(x.value.level, x.value.slot));
      assert OnWheel(t, l);
    }
  }

  // ---- one turn of a poll ----

  lemma SameThroughout(a: map<Key, Data>, b: map<Key, Data>, c: map<Key, Data>)
    requires SameEntries(a, b) && SameEntries(b, c)
    ensures SameEntries(a, c)
  {}

  lemma TotalAfterRemoval(seat: map<Key, StackId>, key: Key)
    ensures TotalLevel(seat - {key}) <= TotalLevel(seat)
  {
    forall l: nat ensures |AtLeast(seat - {key}, l)| <= |AtLeast(seat, l)| {
      assert AtLeast(seat - {key}, l) == AtLeast(seat, l) - {key};
    }
  }

  /** A poll of the wheel at `now` is one of the priority queue; nothing else about the entries changes. */
  ghost predicate Polled(before: Threads, now: nat, r: Option<Key>, elapsed: nat, after: Threads)
  {
    && PollsQueue(Contents(before), now, r, Contents(after))
    && elapsed <= now && (r == None ==> elapsed == now)
    && (r.Some? ==> r.value in before.seat && r.value in after.view && elapsed <= after.view[r.value].when)
    && after.seat.Keys == before.seat.Keys - (if r.Some? then {r.value} else {})
    && Chain(after, ExpiredStack) == Chain(before, ExpiredStack)
    && SameEntries(before.view, after.view)
    && TotalLevel(after.seat) <= TotalLevel(before.seat)
  }

  /** `t` is `t0` after some cascades: the same queue, no entry moved up. */
  ghost predicate PolledDown(t0: Threads, t: Threads)
  {
    && Contents(t) == Contents(t0) && t.seat.Keys == t0.seat.Keys
    && Chain(t, ExpiredStack) == Chain(t0, ExpiredStack)
    && SameEntries(t0.view, t.view)
    && TotalLevel(t.seat) <= TotalLevel(t0.seat)
  }

  lemma PollStarts(elapsed: nat, t: Threads)
    requires Placed(elapsed, t)
    ensures CascadePlaced(elapsed, t) && PolledDown(t, t)
  {}

  /** Taking the entry of a level-0 hit is what a priority queue would do. */
  lemma PollTakes(elapsed: nat, t0: Threads, t: Threads, x: Expiration, now: nat, key: Key, t': Threads)
    requires Linked(t) && CascadePlaced(elapsed, t) && PolledDown(t0, t) && FirstHit(elapsed, t, x)
    requires x.deadline <= now && HitPolled(t, x, Some(key), t')
    ensures Placed(elapsed, t')
    ensures Polled(t0, now, Some(key), elapsed, t')
  {
    hide Linked, Placed, CascadePlaced, FirstHit, TotalLevel, Contents, PollsQueue, SameEntries, Chain;
    HitSettles(elapsed, t, x);
    RemovalKeepsPlaced(elapsed, t, t', key);
    ContentsAfterRemoval(t, t', key);
    TotalAfterRemoval(t.seat, key);
    SameWhen(t.view, t'.view, key);
    SameThroughout(t0.view, t.view, t'.view);
    HitIsLeast(elapsed, t, x, now, key);
  }

  lemma HitIsLeast(elapsed: nat, t: Threads, x: Expiration, now: nat, key: Key)
    requires FirstHit(elapsed, t, x) && x.deadline <= now && OnWheel(t, key) && t.view[key].when == x.deadline
    ensures PollsQueue(Contents(t), now, Some(key), Contents(t) - {key}) && elapsed <= x.deadline
  {
    forall k | k in Contents(t) ensures Contents(t)[key] <= Contents(t)[k] { assert OnWheel(t, k); }
  }

  lemma CascadeStaysOnWheel(t: Threads, x: Expiration)
    requires x.level > 0 && Live(t)
    ensures forall k :: k in t.seat ==> CascadeSeat(t, x)[k].WheelSlot? == t.seat[k].WheelSlot?
  {}

  /** A cascade changes nothing a priority queue would show, and leaves fewer moves to come. */
  lemma PollCascades(elapsed: nat, t0: Threads, t: Threads, x: Expiration, t': Threads)
    requires Linked(t) && CascadePlaced(elapsed, t) && PolledDown(t0, t) && FirstHit(elapsed, t, x)
    requires HitPolled(t, x, None, t')
    ensures CascadePlaced(x.deadline, t') && PolledDown(t0, t')
    ensures TotalLevel(t'.seat) < TotalLevel(t.seat) && elapsed <= x.deadline
  {
    AllMovedDown(t, x, t');
    HitHoldsEntries(elapsed, t, x);
    CascadeKeepsPlaced(elapsed, t, x, t');
    CascadeStaysOnWheel(t, x);
    ContentsAfterMoves(t, t');
    SameThroughout(t0.view, t.view, t'.view);
  }

  /** Without a hit by `now` nothing is due by then. */
  lemma PollRests(elapsed: nat, t0: Threads, t: Threads, x: Option<Expiration>, now: nat)
    requires Linked(t) && CascadePlaced(elapsed, t) && PolledDown(t0, t) && elapsed <= now
    requires x == None ==> forall k :: !OnWheel(t, k)
    requires x.Some? ==> FirstHit(elapsed, t, x.value) && now < x.value.deadline
    ensures Placed(now, t)
    ensures Polled(t0, now, None, now, t)
  {
    if x.Some? {
      HitSettles(elapsed, t, x.value);
      AdvanceKeepsPlaced(elapsed, t, x.value, now);
    } else {
      EmptyIsPlaced(now, t);
    }
    forall k | k in Contents(t) ensures now < Contents(t)[k] { assert OnWheel(t, k); }
  }
}
