/** How the delay queue files its entries over the wheel and the stack of expired ones. */
module Filing {
  import opened Wrappers
  import opened Words
  import opened Digits
  import opened Storage
  import opened Stacks
  import opened Placement
  import opened Wheels

  /** An entry as the caller knows it. */
  datatype Entry = Entry(value: Value, when: nat)

  ghost function Entries(t: Threads): map<Key, Entry>
  {
    map k | k in t.view :: Entry(t.view[k].inner, t.view[k].when)
  }

  /**
    Every live entry but the loose ones is on one stack; it is on the expired stack exactly when it is flagged
    expired, and is then due at `elapsed` itself.
   */
  ghost predicate Filed(t: Threads, elapsed: nat, loose: set<Key>)
  {
    && t.seat.Keys == t.view.Keys - loose
    && (forall k :: k in t.seat && k in t.view ==> (t.view[k].expired <==> t.seat[k] == ExpiredStack))
    && (forall k :: k in t.seat && k in t.view && t.seat[k] == ExpiredStack ==> t.view[k].when == elapsed)
    && (forall k :: k in t.view ==> t.view[k].when < U64_LIMIT)
  }

  lemma SameEntriesSameView(t: Threads, t': Threads)
    requires SameEntries(t.view, t'.view)
    ensures Entries(t') == Entries(t) && t'.view.Keys == t.view.Keys
  {}

  // ---- entries that are on no stack ----

  /** A write to an entry that is on no stack, leaving it without links. */
  lemma LooseWrite(t: Threads, elapsed: nat, key: Key, d: Data)
    requires Linked(t) && Placed(elapsed, t) && key !in t.seat && d.next == None && d.prev == None
    ensures var t' := t.(view := t.view[key := d]);
      && Linked(t') && Placed(elapsed, t') && Contents(t') == Contents(t)
      && forall id :: Chain(t', id) == Chain(t, id)
  {
    hide Fits, Settled;
    var t' := t.(view := t.view[key := d]);
    forall id, i | 0 <= i < |Chain(t', id)| ensures LinkedAt(t', id, i) { assert LinkedAt(t, id, i); }
    assert forall id :: Chain(t', id) == Chain(t, id);
    forall k | OnWheel(t', k) ensures OnWheel(t, k) && t'.view[k] == t.view[k] {}
  }

  /** Dropping an entry that is on no stack. */
  lemma LooseDrop(t: Threads, elapsed: nat, key: Key)
    requires Linked(t) && Placed(elapsed, t) && key !in t.seat
    ensures var t' := t.(view := t.view - {key});
      && Linked(t') && Placed(elapsed, t') && Contents(t') == Contents(t)
      && forall id :: Chain(t', id) == Chain(t, id)
  {
    hide Fits, Settled;
    var t' := t.(view := t.view - {key});
    forall id, i | 0 <= i < |Chain(t', id)| ensures LinkedAt(t', id, i) { assert LinkedAt(t, id, i); }
    assert forall id :: Chain(t', id) == Chain(t, id);
    forall k | OnWheel(t', k) ensures OnWheel(t, k) && t'.view[k] == t.view[k] {}
  }

  // ---- the expired stack ----

  /** Pushing a loose entry on the expired stack leaves the wheel as it is. */
  lemma PushExpired(t: Threads, elapsed: nat, key: Key)
    requires Linked(t) && Placed(elapsed, t) && key in t.view && key !in t.seat
    ensures var t' := Pushed(t, ExpiredStack, key);
      && Placed(elapsed, t') && Contents(t') == Contents(t) && Entries(t') == Entries(t)
      && t'.view.Keys == t.view.Keys && t'.seat == t.seat[key := ExpiredStack]
      && forall id :: id != ExpiredStack ==> Chain(t', id) == Chain(t, id)
  {
    hide Fits, Settled, LinkedAt, Seated;
    var t' := Pushed(t, ExpiredStack, key);
    PushKeepsLinked(t, ExpiredStack, key);
    PushedChains(t, ExpiredStack, key);
    SameEntriesSameView(t, t');
    forall k | OnWheel(t', k) ensures OnWheel(t, k) && t'.view[k].when == t.view[k].when && t'.seat[k] == t.seat[k] {}
    assert Contents(t') == Contents(t) by {
      forall k | k in Contents(t) ensures OnWheel(t', k) { assert OnWheel(t, k); }
    }
  }

  /** Taking an entry off the expired stack leaves the wheel as it is. */
  lemma RemoveExpired(t: Threads, elapsed: nat, i: nat)
    requires Linked(t) && Placed(elapsed, t) && i < |Chain(t, ExpiredStack)| && Chain(t, ExpiredStack)[i] in t.view
    ensures var t' := Removed(t, ExpiredStack, i);
      && Placed(elapsed, t') && Contents(t') == Contents(t) && Entries(t') == Entries(t)
      && t'.view.Keys == t.view.Keys && t'.seat == t.seat - {Chain(t, ExpiredStack)[i]}
      && Chain(t, ExpiredStack)[i] in t.seat && t.seat[Chain(t, ExpiredStack)[i]] == ExpiredStack
      && forall id :: id != ExpiredStack ==> Chain(t', id) == Chain(t, id)
  {
    hide Fits, Settled, LinkedAt, Seated;
    var t' := Removed(t, ExpiredStack, i);
    var key := Chain(t, ExpiredStack)[i];
    RemoveKeepsLinked(t, ExpiredStack, i);
    RemovedChains(t, ExpiredStack, i);
    HitOnStack(t, ExpiredStack, i);
    SameEntriesSameView(t, t');
    RemovalKeepsPlaced(elapsed, t, t', key);
    ContentsAfterRemoval(t, t', key);
    assert key !in Contents(t);
  }

  // ---- filing ----

  /** A loose entry may go on the stack: the expired one exactly when it is flagged so, and is due at `elapsed`. */
  ghost predicate Suits(t: Threads, elapsed: nat, k: Key, id: StackId)
  {
    k in t.view && (t.view[k].expired <==> id == ExpiredStack) && (id == ExpiredStack ==> t.view[k].when == elapsed)
  }

  /** Stack moves do not disturb the filing of the entries they leave where they are. */
  lemma FiledAfterMove(t: Threads, elapsed: nat, t': Threads, loose: set<Key>, loose': set<Key>)
    requires Filed(t, elapsed, loose) && SameEntries(t.view, t'.view)
    requires t'.seat.Keys == t.view.Keys - loose'
    requires forall k :: k in t'.seat ==>
      if k in t.seat then (t'.seat[k] == ExpiredStack <==> t.seat[k] == ExpiredStack)
      else Suits(t, elapsed, k, t'.seat[k])
    ensures Filed(t', elapsed, loose')
  {}

  lemma ExpiredMembers(t: Threads, k: Key)
    requires Linked(t) && k in t.seat
    ensures t.seat[k] == ExpiredStack <==> k in Chain(t, ExpiredStack)
  {
    if k in Chain(t, ExpiredStack) {
      var i :| 0 <= i < |Chain(t, ExpiredStack)| && Chain(t, ExpiredStack)[i] == k;
      HitOnStack(t, ExpiredStack, i);
    }
    assert k in Chain(t, t.seat[k]);
  }

  /** The wheel's operations leave the expired stack alone, and with it who is on it. */
  lemma SameExpired(t: Threads, t': Threads)
    requires Linked(t) && Linked(t') && Chain(t', ExpiredStack) == Chain(t, ExpiredStack)
    ensures forall k :: k in t.seat && k in t'.seat ==> (t'.seat[k] == ExpiredStack <==> t.seat[k] == ExpiredStack)
  {
    forall k | k in t.seat && k in t'.seat ensures t'.seat[k] == ExpiredStack <==> t.seat[k] == ExpiredStack {
      ExpiredMembers(t, k);
      ExpiredMembers(t', k);
    }
  }

  /** A filed entry is on exactly one stack: the expired one if it is flagged expired, a slot of the wheel if not. */
  lemma OnExactlyOneStack(t: Threads, elapsed: nat, k: Key)
    requires Linked(t) && Filed(t, elapsed, {}) && k in t.view
    ensures k in t.seat && forall id :: k in Chain(t, id) <==> id == t.seat[k]
    ensures t.view[k].expired <==> k in Chain(t, ExpiredStack)
    ensures !t.view[k].expired ==> t.seat[k].WheelSlot?
  {
    hide LinkedAt;
    forall id ensures k in Chain(t, id) <==> id == t.seat[k] {
      if k in Chain(t, id) {
        var i :| 0 <= i < |Chain(t, id)| && Chain(t, id)[i] == k;
        HitOnStack(t, id, i);
      }
    }
  }

  /** The keys seated on a stack. */
  ghost function SeatedOn(t: Threads, id: StackId): set<Key>
  {
    set k | k in t.seat && t.seat[k] == id
  }

  /** A stack is as long as there are keys seated on it. */
  lemma ChainSize(t: Threads, id: StackId)
    requires Linked(t)
    ensures |Chain(t, id)| == |SeatedOn(t, id)|
  {
    hide LinkedAt;
    var c := Chain(t, id);
    forall k ensures k in c <==> k in SeatedOn(t, id) {
      if k in c {
        var i :| 0 <= i < |c| && c[i] == k;
        HitOnStack(t, id, i);
      }
    }
    forall i, j | 0 <= i < j < |c| ensures c[i] != c[j] { assert Differ(c, i, j); }
    DistinctSize(c, SeatedOn(t, id));
  }

  lemma {:induction false} DistinctSize(c: seq<Key>, s: set<Key>)
    requires forall i, j :: 0 <= i < j < |c| ==> c[i] != c[j]
    requires forall k :: k in c <==> k in s
    ensures |c| == |s|
    decreases |c|
  {
    if c == [] {
      assert s == {};
    } else {
      var last := |c| - 1;
      assert c == c[..last] + [c[last]];
      DistinctSize(c[..last], s - {c[last]});
    }
  }

  /** The lengths of the first `n` slots' stacks, counting up through the levels. */
  ghost function WheelLength(t: Threads, n: nat): nat
  {
    if n == 0 then 0 else WheelLength(t, n - 1) + |Chain(t, WheelSlot((n - 1) / LEVEL_MULT, (n - 1) % LEVEL_MULT))|
  }

  ghost function SeatedBefore(t: Threads, n: nat): set<Key>
  {
    set k | k in t.seat && t.seat[k].WheelSlot? && t.seat[k].slot < LEVEL_MULT &&
      t.seat[k].level * LEVEL_MULT + t.seat[k].slot < n
  }

  lemma {:induction false} WheelLengthIsSeated(t: Threads, n: nat)
    requires Linked(t)
    ensures WheelLength(t, n) == |SeatedBefore(t, n)|
  {
    hide Linked, Chain, SeatedOn;
    if n == 0 {
      assert SeatedBefore(t, 0) == {};
    } else {
      var id := WheelSlot((n - 1) / LEVEL_MULT, (n - 1) % LEVEL_MULT);
      WheelLengthIsSeated(t, n - 1);
      ChainSize(t, id);
      OneMoreSlot(t, n);
    }
  }

  lemma OneMoreSlot(t: Threads, n: nat)
    requires n > 0
    ensures var id := WheelSlot((n - 1) / LEVEL_MULT, (n - 1) % LEVEL_MULT);
      SeatedBefore(t, n) == SeatedBefore(t, n - 1) + SeatedOn(t, id) && SeatedBefore(t, n - 1) !! SeatedOn(t, id)
  {
    forall k | k in t.seat && t.seat[k].WheelSlot? && t.seat[k].slot < LEVEL_MULT
      ensures t.seat[k].level * LEVEL_MULT + t.seat[k].slot == n - 1 <==>
        t.seat[k] == WheelSlot((n - 1) / LEVEL_MULT, (n - 1) % LEVEL_MULT)
    {}
  }

  /** `len` is the length of the expired stack and of all slots of the wheel together. */
  lemma LenIsStackLengths(t: Threads, elapsed: nat)
    requires Linked(t) && Placed(elapsed, t) && Filed(t, elapsed, {})
    ensures |t.view| == |Chain(t, ExpiredStack)| + WheelLength(t, NUM_LEVELS * LEVEL_MULT)
  {
    hide LinkedAt, Settled, SlotFor, Distinct;
    ChainSize(t, ExpiredStack);
    WheelLengthIsSeated(t, NUM_LEVELS * LEVEL_MULT);
    var onWheel := SeatedBefore(t, NUM_LEVELS * LEVEL_MULT);
    forall k | k in t.view ensures k in SeatedOn(t, ExpiredStack) || k in onWheel {
      if t.seat[k].WheelSlot? { assert OnWheel(t, k) && Fits(elapsed, t.view[k].when, t.seat[k]); }
    }
    assert t.view.Keys == SeatedOn(t, ExpiredStack) + onWheel;
  }

  /** What is filed and not on the expired stack is on the wheel. */
  lemma FiledOnWheel(t: Threads, elapsed: nat, loose: set<Key>, k: Key)
    requires Linked(t) && Placed(elapsed, t) && Filed(t, elapsed, loose) && k in t.view && k !in loose
    ensures k in t.seat
    ensures if t.view[k].expired then t.seat[k] == ExpiredStack && t.view[k].when == elapsed
      else OnWheel(t, k) && k in Contents(t) && Contents(t)[k] == t.view[k].when && elapsed <= t.view[k].when
  {
    if !t.view[k].expired { assert OnWheel(t, k); }
  }
}
