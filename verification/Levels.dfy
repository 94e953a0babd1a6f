/** One level of the timing wheel: 64 slots, and a word that says which of them hold entries. */
module Levels {
  import opened Wrappers
  import opened Words
  import opened Digits
  import opened Storage
  import opened Stacks

  /** Says when a slot must be processed next. */
  datatype Expiration = Expiration(level: nat, slot: nat, deadline: nat)

  function OccupiedBit(slot: nat): nat
  {
    Pow2(slot)
  }

  /** How many slots ahead of slot `from` the slot `to` lies, going round. */
  function Ahead(from: nat, to: nat): (d: nat)
    ensures d < 64
  {
    (to - from) % 64
  }

  /** The rotate and trailing-zeros search, on the word and the `usize`-truncated number of the current slot. */
  function FirstFrom(occupied: nat, nowSlot: nat): nat
  {
    (TrailingZeros(RotateRight(64, occupied, nowSlot)) + nowSlot) % USIZE_LIMIT % 64
  }

  /** The search finds the occupied slot that comes first, going round from the current slot. */
  lemma FirstFromIsFirst(occupied: nat, nowSlot: nat)
    requires 0 < occupied < U64_LIMIT
    ensures FirstFrom(occupied, nowSlot) < 64 && Bit(occupied, FirstFrom(occupied, nowSlot))
    ensures forall s :: 0 <= s < 64 && Bit(occupied, s) ==>
      Ahead(nowSlot, FirstFrom(occupied, nowSlot)) <= Ahead(nowSlot, s)
  {
    EmptyIffNoBit64(occupied);
    var s0 :| 0 <= s0 < 64 && Bit(occupied, s0);
    FirstNotAfter(occupied, nowSlot, s0);
    forall s | 0 <= s < 64 && Bit(occupied, s)
      ensures Ahead(nowSlot, FirstFrom(occupied, nowSlot)) <= Ahead(nowSlot, s)
    {
      FirstNotAfter(occupied, nowSlot, s);
    }
  }

  lemma AheadReaches(from: nat, to: nat)
    requires to < 64
    ensures Round(64, from, Ahead(from, to)) == to
  {}

  lemma AheadUnique(from: nat, d: nat)
    requires d < 64
    ensures Ahead(from, Round(64, from, d)) == d
  {}

  lemma TruncationHarmless(x: nat)
    ensures x % USIZE_LIMIT % 64 == x % 64
  {}

  lemma FirstNotAfter(occupied: nat, nowSlot: nat, s: nat)
    requires 0 < occupied < U64_LIMIT && s < 64 && Bit(occupied, s)
    ensures Bit(occupied, FirstFrom(occupied, nowSlot))
    ensures Ahead(nowSlot, FirstFrom(occupied, nowSlot)) <= Ahead(nowSlot, s)
  {
    hide Ahead, Round;
    U64IsPow2();
    AheadReaches(nowSlot, s);
    FirstSetBit(64, occupied, nowSlot, s, Ahead(nowSlot, s));
    var zeros := TrailingZeros(RotateRight(64, occupied, nowSlot));
    AheadUnique(nowSlot, zeros);
    FirstFromIsRound(occupied, nowSlot, zeros);
  }

  lemma FirstFromIsRound(occupied: nat, nowSlot: nat, zeros: nat)
    requires zeros == TrailingZeros(RotateRight(64, occupied, nowSlot))
    ensures FirstFrom(occupied, nowSlot) == Round(64, nowSlot, zeros)
  {
    TruncationHarmless(zeros + nowSlot);
  }

  class Level {
    const level: nat
    var occupied: nat
    const slot: seq<Stack>

    /** Heads and the occupancy word agree with the stacks. */
    ghost predicate Ok(t: Threads)
      reads this, slot
    {
      && |slot| == LEVEL_MULT
      && occupied < U64_LIMIT
      && (forall s :: 0 <= s < LEVEL_MULT ==>
        slot[s].id == WheelSlot(level, s) && slot[s].head == Head(Chain(t, WheelSlot(level, s))))
      && (forall s :: 0 <= s < LEVEL_MULT ==> (Bit(occupied, s) <==> Chain(t, WheelSlot(level, s)) != []))
    }

    ghost predicate Valid(store: SlabStorage)
      reads this, slot, store
    {
      store.Valid() && Linked(store.threads) && Ok(store.threads)
    }

    constructor (level: nat)
      ensures this.level == level && fresh(slot) && |slot| == LEVEL_MULT
      ensures forall t :: (forall s :: 0 <= s < LEVEL_MULT ==> Chain(t, WheelSlot(level, s)) == []) ==> Ok(t)
    {
      var stacks: seq<Stack> := [];
      for s := 0 to LEVEL_MULT
        invariant |stacks| == s
        invariant forall i :: 0 <= i < s ==>
          fresh(stacks[i]) && stacks[i].id == WheelSlot(level, i) && stacks[i].head == None
      {
        var stack := new Stack(WheelSlot(level, s));
        stacks := stacks + [stack];
      }
      this.level, occupied, slot := level, 0, stacks;
      new;
      forall s | 0 <= s < LEVEL_MULT ensures !Bit(occupied, s) { ZeroHasNoBits(s); }
    }

    function NextOccupiedSlot(now: nat): Option<nat>
      reads this
    {
      if occupied == 0 then None
      else Some(FirstFrom(occupied, now / SlotRange(level) % USIZE_LIMIT))
    }

    function NextExpiration(now: nat): Option<Expiration>
      reads this
    {
      match NextOccupiedSlot(now)
      case None => None
      case Some(s) => Some(Expiration(level, s, Deadline(now, level, s)))
    }

    method AddEntry(when: nat, item: Key, store: SlabStorage)
      requires Valid(store)
      requires item in store.threads.view && item !in store.threads.seat
      modifies this`occupied, slot, store`inner, store`threads
      ensures Valid(store)
      ensures store.threads == Pushed(old(store.threads), WheelSlot(level, SlotFor(when, level)), item)
      ensures SameEntries(old(store.threads.view), store.threads.view)
    {
      hide Linked, SameEntries, SlabStorage.Valid, Pushed, SlotFor;
      var s := SlotFor(when, level);
      PushedChains(store.threads, WheelSlot(level, s), item);
      slot[s].Push(item, store);
      SetBit64(occupied, s);
      occupied := Or(occupied, OccupiedBit(s));
    }

    method RemoveEntry(when: nat, item: Key, store: SlabStorage) returns (ghost at: nat)
      requires Valid(store)
      requires item in store.threads.seat && store.threads.seat[item] == WheelSlot(level, SlotFor(when, level))
      modifies this`occupied, slot, store`inner, store`threads
      ensures Valid(store)
      ensures at < |Chain(old(store.threads), WheelSlot(level, SlotFor(when, level)))|
      ensures Chain(old(store.threads), WheelSlot(level, SlotFor(when, level)))[at] == item
      ensures item in old(store.threads.view)
      ensures store.threads == Removed(old(store.threads), WheelSlot(level, SlotFor(when, level)), at)
      ensures SameEntries(old(store.threads.view), store.threads.view)
    {
      hide Linked, SameEntries, SlabStorage.Valid, Removed, SlotFor;
      var s := SlotFor(when, level);
      ghost var t := store.threads;
      at := slot[s].Remove(item, store);
      RemovedChains(t, WheelSlot(level, s), at);
      if slot[s].head == None {
        // the bit is set here
        ClearBit64(occupied, s);
        occupied := Xor(occupied, OccupiedBit(s));
      }
    }

    method PopEntrySlot(s: nat, store: SlabStorage) returns (ret: Option<Key>)
      requires Valid(store) && s < LEVEL_MULT
      modifies this`occupied, slot, store`inner, store`threads
      ensures Valid(store)
      ensures ret == Head(Chain(old(store.threads), WheelSlot(level, s)))
      ensures ret == None ==> store.threads == old(store.threads)
      ensures ret.Some? ==>
        ret.value in old(store.threads.view) && store.threads == Removed(old(store.threads), WheelSlot(level, s), 0)
      ensures SameEntries(old(store.threads.view), store.threads.view)
    {
      hide Linked, SameEntries, SlabStorage.Valid, Removed, Without, Chain;
      ghost var t := store.threads;
      ret := slot[s].Pop(store);
      if ret.Some? { RemovedChains(t, WheelSlot(level, s), 0); }
      if ret.Some? && slot[s].head == None {
        // the bit is set here
        ClearBit64(occupied, s);
        occupied := Xor(occupied, OccupiedBit(s));
      }
    }
  }
}
