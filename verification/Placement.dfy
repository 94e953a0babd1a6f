/** Where the wheel keeps its entries: the placement invariant, the first hit, and what a cascade does to both. */
module Placement {
  import opened Words
  import opened Digits
  import opened Storage
  import opened Stacks
  import opened Levels

  ghost predicate OnWheel(t: Threads, k: Key)
  {
    k in t.seat && t.seat[k].WheelSlot? && k in t.view
  }

  /** What the wheel holds, as a priority queue: the keys with the instants they are due. */
  ghost function Contents(t: Threads): map<Key, nat>
  {
    map k | k in t.seat && t.seat[k].WheelSlot? && k in t.view :: t.view[k].when
  }

  /** The entry is not overdue, agrees with `elapsed` above its level's digit, and sits in the slot of that digit. */
  ghost predicate Fits(elapsed: nat, when: nat, id: StackId)
    requires id.WheelSlot?
  {
    && id.level < NUM_LEVELS
    && id.slot == SlotFor(when, id.level)
    && elapsed <= when
    && Prefix(when, id.level + 1) == Prefix(elapsed, id.level + 1)
  }

  /** Its level is the level its distance from `elapsed` calls for. */
  ghost predicate Settled(elapsed: nat, when: nat, level: nat)
  {
    level == 0 || Prefix(when, level) != Prefix(elapsed, level)
  }

  /** The placement invariant at operation boundaries. */
  ghost predicate Placed(elapsed: nat, t: Threads)
  {
    forall k :: OnWheel(t, k) ==>
      Fits(elapsed, t.view[k].when, t.seat[k]) && Settled(elapsed, t.view[k].when, t.seat[k].level)
  }

  /** No entry sits below the level. */
  ghost predicate NoneBelow(t: Threads, level: nat)
  {
    forall k :: OnWheel(t, k) ==> t.seat[k].level >= level
  }

  /**
    The invariant between cascades: an entry may sit in the current slot of a level above 0, provided that slot
    falls due at `elapsed` itself and nothing sits below it.
   */
  ghost predicate CascadePlaced(elapsed: nat, t: Threads)
  {
    forall k :: OnWheel(t, k) ==>
      && Fits(elapsed, t.view[k].when, t.seat[k])
      && (Settled(elapsed, t.view[k].when, t.seat[k].level) ||
        (Aligned(elapsed, t.seat[k].level) && NoneBelow(t, t.seat[k].level)))
  }

  /** `x` is a non-empty slot of the lowest non-empty level, and nothing on the wheel is due before it. */
  ghost predicate FirstHit(elapsed: nat, t: Threads, x: Expiration)
  {
    && x.level < NUM_LEVELS && x.slot < LEVEL_MULT
    && Chain(t, WheelSlot(x.level, x.slot)) != []
    && elapsed <= x.deadline == Deadline(elapsed, x.level, x.slot)
    && NoneBelow(t, x.level)
    && forall k :: OnWheel(t, k) ==>
      x.deadline <= t.view[k].when && (t.seat[k].level == x.level ==> x.slot <= t.seat[k].slot)
  }

  // ---- the placement invariant is the level computation ----

  /** An entry fits and is settled exactly when it sits where `insert` and `remove` compute its level and slot. */
  lemma PlacedIsComputed(elapsed: nat, when: nat, id: StackId)
    requires id.WheelSlot? && elapsed <= when
    ensures Fits(elapsed, when, id) && Settled(elapsed, when, id.level) <==>
      LevelFor(elapsed, when) < NUM_LEVELS && id == WheelSlot(LevelFor(elapsed, when), SlotFor(when, id.level))
  {
    LevelForIsTopDigit(elapsed, when);
    TopDigitBound(elapsed, when, id.level);
    if id.level > 0 { TopDigitBound(elapsed, when, id.level - 1); }
  }

  // ---- slots and their deadlines ----

  /** The slot of an entry that fits is not behind the current slot, and its deadline brackets the entry. */
  lemma SlotDeadline(elapsed: nat, when: nat, level: nat)
    requires elapsed <= when && Prefix(when, level + 1) == Prefix(elapsed, level + 1)
    ensures var d := Deadline(elapsed, level, SlotFor(when, level));
      && Aligned(d, level) && Prefix(d, level) == Prefix(when, level)
      && Prefix(d, level + 1) == Prefix(elapsed, level + 1)
      && d <= when < d + SlotRange(level)
      && (Prefix(when, level) != Prefix(elapsed, level) ==> elapsed < d)
      && (Prefix(when, level) == Prefix(elapsed, level) && Aligned(elapsed, level) ==> d == elapsed)
      && (level == 0 ==> d == when)
    ensures SlotFor(elapsed, level) <= SlotFor(when, level)
  {
    var s := SlotFor(when, level);
    var d := Deadline(elapsed, level, s);
    SlotIsDigit(when, level);
    SlotIsDigit(elapsed, level);
    PrefixMonotone(elapsed, when, level);
    DeadlineFacts(elapsed, level, s);
    WithinSlot(d, level, when);
    AlignedBelow(d, level, elapsed);
  }

  lemma LaterSlot(elapsed: nat, level: nat, s: nat, s': nat)
    requires s <= s' < 64
    ensures Deadline(elapsed, level, s) <= Deadline(elapsed, level, s')
  {
    Scale(s, s', SlotRange(level));
  }

  /** What is settled on a higher level is due after every slot of a lower level. */
  lemma HigherLevelIsLater(elapsed: nat, level: nat, slot: nat, when: nat, higher: nat)
    requires slot < 64 && level < higher
    requires elapsed <= when && Prefix(when, higher + 1) == Prefix(elapsed, higher + 1) &&
      Prefix(when, higher) != Prefix(elapsed, higher)
    ensures Deadline(elapsed, level, slot) < Deadline(elapsed, higher, SlotFor(when, higher)) <= when
  {
    var d, d' := Deadline(elapsed, level, slot), Deadline(elapsed, higher, SlotFor(when, higher));
    SlotDeadline(elapsed, when, higher);
    DeadlineFacts(elapsed, level, slot);
    PrefixUp(d, elapsed, level + 1, higher);
    PrefixMonotone(elapsed, when, higher);
    AlignedBelow(d', higher, d);
  }

  /** On a level whose entries fit, going round from the current slot is going up: nothing has wrapped. */
  lemma NoWrap(elapsed: nat, level: nat, when: nat, when': nat)
    requires elapsed <= when && Prefix(when, level + 1) == Prefix(elapsed, level + 1)
    requires elapsed <= when' && Prefix(when', level + 1) == Prefix(elapsed, level + 1)
    requires Ahead(elapsed / SlotRange(level) % USIZE_LIMIT, SlotFor(when, level)) <=
      Ahead(elapsed / SlotRange(level) % USIZE_LIMIT, SlotFor(when', level))
    ensures SlotFor(when, level) <= SlotFor(when', level)
  {
    hide SlotFor;
    SlotDeadline(elapsed, when, level);
    SlotDeadline(elapsed, when', level);
    SlotIsDigit(elapsed, level);
    PrefixIsQuotient(elapsed, level);
    AheadIsDifference(Prefix(elapsed, level), SlotFor(when, level));
    AheadIsDifference(Prefix(elapsed, level), SlotFor(when', level));
  }

  lemma AheadIsDifference(n: nat, s: nat)
    requires n % 64 <= s < 64
    ensures Ahead(n % USIZE_LIMIT, s) == s - n % 64
  {
    TruncationHarmless(n);
    AheadUnique(n % USIZE_LIMIT, s - n % 64);
    assert Round(64, n % USIZE_LIMIT, s - n % 64) == s;
  }

  // ---- the first hit ----

  /** A non-empty slot holds an entry. */
  lemma SomeEntry(t: Threads, id: StackId) returns (k: Key)
    requires Linked(t) && Chain(t, id) != []
    ensures k in t.view && k in t.seat && t.seat[k] == id && k in Chain(t, id)
  {
    k := Chain(t, id)[0];
    assert LinkedAt(t, id, 0);
  }

  /**
    The first occupied slot, going round, of the lowest non-empty level holds the earliest entries of the whole wheel.
   */
  lemma FirstOccupiedIsFirstHit(elapsed: nat, t: Threads, level: nat, slot: nat)
    requires Linked(t) && CascadePlaced(elapsed, t)
    requires level < NUM_LEVELS && slot < LEVEL_MULT && NoneBelow(t, level) && Chain(t, WheelSlot(level, slot)) != []
    requires forall s :: 0 <= s < LEVEL_MULT && Chain(t, WheelSlot(level, s)) != [] ==>
      Ahead(elapsed / SlotRange(level) % USIZE_LIMIT, slot) <= Ahead(elapsed / SlotRange(level) % USIZE_LIMIT, s)
    ensures FirstHit(elapsed, t, Expiration(level, slot, Deadline(elapsed, level, slot)))
  {
    var k0 := SomeEntry(t, WheelSlot(level, slot));
    var w0 := t.view[k0].when;
    assert OnWheel(t, k0);
    assert Fits(elapsed, w0, t.seat[k0]);
    SlotDeadline(elapsed, w0, level);
    forall k | OnWheel(t, k)
      ensures Deadline(elapsed, level, slot) <= t.view[k].when
      ensures t.seat[k].level == level ==> slot <= t.seat[k].slot
    {
      hide Linked, SlotFor, Deadline;
      FirstNotAfterEntry(elapsed, t, level, slot, k0, k);
    }
  }

  lemma FirstNotAfterEntry(elapsed: nat, t: Threads, level: nat, slot: nat, k0: Key, k: Key)
    requires Linked(t) && CascadePlaced(elapsed, t) && NoneBelow(t, level) && slot < LEVEL_MULT
    requires OnWheel(t, k0) && t.seat[k0] == WheelSlot(level, slot) && OnWheel(t, k)
    requires forall s :: 0 <= s < LEVEL_MULT && Chain(t, WheelSlot(level, s)) != [] ==>
      Ahead(elapsed / SlotRange(level) % USIZE_LIMIT, slot) <= Ahead(elapsed / SlotRange(level) % USIZE_LIMIT, s)
    ensures Deadline(elapsed, level, slot) <= t.view[k].when
    ensures t.seat[k].level == level ==> slot <= t.seat[k].slot
  {
    var w, id := t.view[k].when, t.seat[k];
    var w0 := t.view[k0].when;
    assert Fits(elapsed, w, id) && Fits(elapsed, w0, t.seat[k0]);
    if id.level == level {
      assert Chain(t, id) != [] by { assert k in Chain(t, t.seat[k]); }
      assert id == WheelSlot(level, id.slot);
      NoWrap(elapsed, level, w0, w);
      LaterSlot(elapsed, level, slot, id.slot);
      SlotDeadline(elapsed, w, level);
    } else {
      SettledAbove(elapsed, t, k0, k);
      HigherLevelIsLater(elapsed, level, slot, w, id.level);
    }
  }

  /** What sits above another entry is settled. */
  lemma SettledAbove(elapsed: nat, t: Threads, low: Key, high: Key)
    requires CascadePlaced(elapsed, t) && OnWheel(t, low) && OnWheel(t, high) && t.seat[low].level < t.seat[high].level
    ensures Settled(elapsed, t.view[high].when, t.seat[high].level)
  {}

  /** The debug assertion of `next_expiration`: no higher level has a slot that falls due before the first hit. */
  lemma NoExpirationBefore(elapsed: nat, t: Threads, x: Expiration, higher: nat, slot: nat)
    requires Linked(t) && CascadePlaced(elapsed, t) && FirstHit(elapsed, t, x)
    requires x.level < higher < NUM_LEVELS && Chain(t, WheelSlot(higher, slot)) != []
    ensures x.deadline < Deadline(elapsed, higher, slot)
  {
    var k := SomeEntry(t, WheelSlot(higher, slot));
    var k0 := SomeEntry(t, WheelSlot(x.level, x.slot));
    assert OnWheel(t, k) && OnWheel(t, k0);
    assert Fits(elapsed, t.view[k].when, t.seat[k]);
    SettledAbove(elapsed, t, k0, k);
    HigherLevelIsLater(elapsed, x.level, x.slot, t.view[k].when, higher);
  }

  /** Every entry of the first hit's slot is due within the slot's range, and at its deadline exactly on level 0. */
  lemma HitBrackets(elapsed: nat, t: Threads, x: Expiration, k: Key)
    requires CascadePlaced(elapsed, t) && x.deadline == Deadline(elapsed, x.level, x.slot)
    requires OnWheel(t, k) && t.seat[k] == WheelSlot(x.level, x.slot)
    ensures x.deadline <= t.view[k].when < x.deadline + SlotRange(x.level)
    ensures x.level == 0 ==> t.view[k].when == x.deadline
    ensures Prefix(t.view[k].when, x.level) == Prefix(x.deadline, x.level)
  {
    assert Fits(elapsed, t.view[k].when, t.seat[k]);
    SlotDeadline(elapsed, t.view[k].when, x.level);
  }

  // ---- cascades ----

  /** Whatever is stacked is live. */
  ghost predicate Live(t: Threads)
  {
    forall k :: k in t.seat ==> k in t.view
  }

  /** The seats after the entries of a slot have moved down one level. */
  ghost function CascadeSeat(t: Threads, x: Expiration): map<Key, StackId>
    requires x.level > 0 && Live(t)
  {
    map k | k in t.seat ::
      if t.seat[k] == WheelSlot(x.level, x.slot) then WheelSlot(x.level - 1, SlotFor(t.view[k].when, x.level - 1))
      else t.seat[k]
  }

  /** Moving the first hit's slot down and advancing `elapsed` to its deadline keeps the cascade invariant. */
  lemma CascadeKeepsPlaced(elapsed: nat, t: Threads, x: Expiration, t': Threads)
    requires Linked(t) && CascadePlaced(elapsed, t) && FirstHit(elapsed, t, x) && x.level > 0
    requires SameEntries(t.view, t'.view) && t'.seat == CascadeSeat(t, x)
    ensures CascadePlaced(x.deadline, t')
  {
    DeadlineFacts(elapsed, x.level, x.slot);
    AlignedDown(x.deadline, x.level);
    forall k | OnWheel(t', k)
      ensures Fits(x.deadline, t'.view[k].when, t'.seat[k])
      ensures Settled(x.deadline, t'.view[k].when, t'.seat[k].level) || t'.seat[k].level == x.level - 1
    {
      CascadeKeepsEntry(elapsed, t, x, t', k);
    }
    assert NoneBelow(t', x.level - 1);
  }

  lemma CascadeKeepsEntry(elapsed: nat, t: Threads, x: Expiration, t': Threads, k: Key)
    requires Linked(t) && CascadePlaced(elapsed, t) && FirstHit(elapsed, t, x) && x.level > 0
    requires SameEntries(t.view, t'.view) && t'.seat == CascadeSeat(t, x) && OnWheel(t', k)
    ensures Fits(x.deadline, t'.view[k].when, t'.seat[k])
    ensures Settled(x.deadline, t'.view[k].when, t'.seat[k].level) || t'.seat[k].level == x.level - 1
  {
    var w, id, d := t.view[k].when, t.seat[k], x.deadline;
    assert OnWheel(t, k) && Fits(elapsed, w, id);
    DeadlineFacts(elapsed, x.level, x.slot);
    PrefixUp(d, elapsed, x.level + 1, id.level + 1);
    if id == WheelSlot(x.level, x.slot) {
      HitBrackets(elapsed, t, x, k);
    } else if id.level == x.level {
      SlotIsDigit(w, x.level);
      SlotIsDigit(d, x.level);
    } else {
      var k0 := SomeEntry(t, WheelSlot(x.level, x.slot));
      assert OnWheel(t, k0);
      SettledAbove(elapsed, t, k0, k);
      PrefixUp(d, elapsed, x.level + 1, id.level);
    }
  }

  /** Taking an entry off keeps the invariants. */
  lemma RemovalKeepsPlaced(elapsed: nat, t: Threads, t': Threads, key: Key)
    requires SameEntries(t.view, t'.view) && t'.seat == t.seat - {key}
    ensures Placed(elapsed, t) ==> Placed(elapsed, t')
    ensures CascadePlaced(elapsed, t) ==> CascadePlaced(elapsed, t')
  {
    assert forall k :: OnWheel(t', k) ==> OnWheel(t, k) && t'.view[k].when == t.view[k].when && t'.seat[k] == t.seat[k];
  }

  /** A first hit at level 0 or after `elapsed` leaves nothing unsettled. */
  lemma HitSettles(elapsed: nat, t: Threads, x: Expiration)
    requires Linked(t) && CascadePlaced(elapsed, t) && FirstHit(elapsed, t, x)
    requires x.level == 0 || elapsed < x.deadline
    ensures Placed(elapsed, t)
  {
    var k0 := SomeEntry(t, WheelSlot(x.level, x.slot));
    assert OnWheel(t, k0);
    forall k | OnWheel(t, k) ensures Settled(elapsed, t.view[k].when, t.seat[k].level) {
      if t.seat[k].level > x.level {
        SettledAbove(elapsed, t, k0, k);
      } else if x.level > 0 {
        assert Fits(elapsed, t.view[k].when, t.seat[k]);
        SlotDeadline(elapsed, t.view[k].when, x.level);
        LaterSlot(elapsed, x.level, x.slot, t.seat[k].slot);
      }
    }
  }

  /** Advancing `elapsed` to an instant before everything on the wheel keeps the placement. */
  lemma AdvanceKeepsPlaced(elapsed: nat, t: Threads, x: Expiration, now: nat)
    requires Linked(t) && Placed(elapsed, t) && FirstHit(elapsed, t, x) && elapsed <= now < x.deadline
    ensures Placed(now, t)
  {
    forall k | OnWheel(t, k)
      ensures Fits(now, t.view[k].when, t.seat[k]) && Settled(now, t.view[k].when, t.seat[k].level)
    {
      AdvanceKeepsEntry(elapsed, t, x, now, k);
    }
  }

  lemma AdvanceKeepsEntry(elapsed: nat, t: Threads, x: Expiration, now: nat, k: Key)
    requires Linked(t) && Placed(elapsed, t) && FirstHit(elapsed, t, x) && elapsed <= now < x.deadline && OnWheel(t, k)
    ensures Fits(now, t.view[k].when, t.seat[k]) && Settled(now, t.view[k].when, t.seat[k].level)
  {
    var w, id := t.view[k].when, t.seat[k];
    assert Fits(elapsed, w, id) && Settled(elapsed, w, id.level);
    PrefixMonotone(elapsed, now, id.level + 1);
    PrefixMonotone(now, w, id.level + 1);
    if id.level > 0 {
      // the slot of the entry falls due no earlier than the first hit, so after `now`
      SlotDeadline(elapsed, w, id.level);
      var d := Deadline(elapsed, id.level, SlotFor(w, id.level));
      if id.level == x.level {
        LaterSlot(elapsed, id.level, x.slot, id.slot);
      } else {
        HigherLevelIsLater(elapsed, x.level, x.slot, w, id.level);
      }
      AlignedBelow(d, id.level, now);
    }
  }

  /** With an empty wheel any advance is fine. */
  lemma EmptyIsPlaced(elapsed: nat, t: Threads)
    requires forall k :: !OnWheel(t, k)
    ensures Placed(elapsed, t) && CascadePlaced(elapsed, t)
  {}

  lemma PlacedIsCascadePlaced(elapsed: nat, t: Threads)
    requires Placed(elapsed, t)
    ensures CascadePlaced(elapsed, t)
  {}

  // ---- the measure of a cascade ----

  ghost function AtLeast(seat: map<Key, StackId>, level: nat): set<Key>
  {
    set k | k in seat && seat[k].WheelSlot? && seat[k].level >= level
  }

  /** The sum of the levels of all entries on the wheel: how many moves down are still to come. */
  ghost function TotalLevel(seat: map<Key, StackId>): nat
  {
    |AtLeast(seat, 1)| + |AtLeast(seat, 2)| + |AtLeast(seat, 3)| + |AtLeast(seat, 4)| + |AtLeast(seat, 5)|
  }

  lemma AtLeastStep(seat: map<Key, StackId>, k: Key, slot: nat, level: nat)
    requires k in seat && seat[k].WheelSlot? && seat[k].level > 0
    ensures |AtLeast(seat[k := WheelSlot(seat[k].level - 1, slot)], level)| ==
      |AtLeast(seat, level)| - if level == seat[k].level then 1 else 0
  {
    var seat' := seat[k := WheelSlot(seat[k].level - 1, slot)];
    if level == seat[k].level {
      assert AtLeast(seat', level) == AtLeast(seat, level) - {k};
    } else {
      assert AtLeast(seat', level) == AtLeast(seat, level);
    }
  }

  /** One move down takes exactly one off the total. */
  lemma MoveDown(seat: map<Key, StackId>, k: Key, slot: nat)
    requires k in seat && seat[k].WheelSlot? && 0 < seat[k].level < NUM_LEVELS
    ensures TotalLevel(seat[k := WheelSlot(seat[k].level - 1, slot)]) == TotalLevel(seat) - 1
  {
    AtLeastStep(seat, k, slot, 1);
    AtLeastStep(seat, k, slot, 2);
    AtLeastStep(seat, k, slot, 3);
    AtLeastStep(seat, k, slot, 4);
    AtLeastStep(seat, k, slot, 5);
  }

  /** Every entry has at most five moves to come. */
  lemma AtMostFiveMoves(seat: map<Key, StackId>)
    ensures TotalLevel(seat) <= 5 * |seat|
  {
    forall level: nat ensures |AtLeast(seat, level)| <= |seat| { SubsetSize(AtLeast(seat, level), seat.Keys); }
  }
}
