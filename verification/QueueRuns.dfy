/** Runs of the delay queue, seen from outside: the steps a caller can tell apart, and what whole runs keep. */
module QueueRuns {
  import opened Storage
  import opened Filing

  /** One operation that changed the queue. */
  datatype Step =
    | Insertion(key: Key, entry: Entry)
    | Removal(key: Key, entry: Entry)
    | Reset(key: Key, when: nat)
    | Yield(key: Key, entry: Entry)
    | Clearing(entries: map<Key, Entry>)

  /** The step leads from one content of the queue to the next; a yield takes an earliest entry. */
  ghost predicate Takes(before: map<Key, Entry>, step: Step, after: map<Key, Entry>)
  {
    match step
    case Insertion(key, entry) => key !in before && after == before[key := entry]
    case Removal(key, entry) => key in before && before[key] == entry && after == before - {key}
    case Reset(key, when) => key in before && after == before[key := Entry(before[key].value, when)]
    case Yield(key, entry) =>
      && key in before && before[key] == entry && after == before - {key}
      && forall k :: k in before ==> entry.when <= before[k].when
    case Clearing(entries) => before == entries && after == map[]
  }

  ghost predicate IsRun(states: seq<map<Key, Entry>>, steps: seq<Step>)
  {
    && |states| == |steps| + 1
    && forall i :: 0 <= i < |steps| ==> Takes(states[i], steps[i], states[i + 1])
  }

  /** A stretch of a run in which entries only leave. */
  ghost predicate IsDrain(steps: seq<Step>, lo: nat, hi: nat)
    requires lo <= hi <= |steps|
  {
    forall i :: lo <= i < hi ==> !steps[i].Insertion? && !steps[i].Reset?
  }

  lemma {:induction false} DrainShrinks(states: seq<map<Key, Entry>>, steps: seq<Step>, lo: nat, hi: nat)
    requires IsRun(states, steps) && lo <= hi <= |steps| && IsDrain(steps, lo, hi)
    ensures forall k :: k in states[hi] ==> k in states[lo] && states[hi][k] == states[lo][k]
    decreases hi
  {
    if lo < hi {
      DrainShrinks(states, steps, lo, hi - 1);
      assert Takes(states[hi - 1], steps[hi - 1], states[hi]);
    }
  }

  /** While nothing is inserted or reset, entries come out in the order they are due. */
  lemma DrainIsSorted(states: seq<map<Key, Entry>>, steps: seq<Step>, lo: nat, hi: nat, i: nat, j: nat)
    requires IsRun(states, steps) && lo <= hi <= |steps| && IsDrain(steps, lo, hi)
    requires lo <= i < j < hi && steps[i].Yield? && steps[j].Yield?
    ensures steps[i].entry.when <= steps[j].entry.when
  {
    DrainShrinks(states, steps, i, j);
    assert Takes(states[i], steps[i], states[i + 1]);
    assert Takes(states[j], steps[j], states[j + 1]);
  }

  // ---- nothing is lost, nothing is made up ----

  ghost function Holding(m: map<Key, Entry>, v: Value): set<Key>
  {
    set k | k in m && m[k].value == v
  }

  ghost function InsertedOf(steps: seq<Step>, v: Value): nat
  {
    if steps == [] then 0
    else InsertedOf(steps[..|steps| - 1], v) + if steps[|steps| - 1].Insertion? && steps[|steps| - 1].entry.value == v
      then 1 else 0
  }

  /** How many entries with the payload a step takes out. */
  ghost function LeftWith(step: Step, v: Value): nat
  {
    match step
    case Removal(_, entry) => if entry.value == v then 1 else 0
    case Yield(_, entry) => if entry.value == v then 1 else 0
    case Clearing(entries) => |Holding(entries, v)|
    case _ => 0
  }

  ghost function LeftOf(steps: seq<Step>, v: Value): nat
  {
    if steps == [] then 0
    else
      var last := steps[|steps| - 1];
      LeftOf(steps[..|steps| - 1], v) + LeftWith(last, v)
  }

  lemma HoldingMore(m: map<Key, Entry>, key: Key, entry: Entry, v: Value)
    requires key !in m
    ensures |Holding(m[key := entry], v)| == |Holding(m, v)| + if entry.value == v then 1 else 0
  {
    assert Holding(m[key := entry], v) == if entry.value == v then Holding(m, v) + {key} else Holding(m, v);
  }

  lemma HoldingLess(m: map<Key, Entry>, key: Key, v: Value)
    requires key in m
    ensures |Holding(m - {key}, v)| == |Holding(m, v)| - if m[key].value == v then 1 else 0
  {
    assert Holding(m - {key}, v) == if m[key].value == v then Holding(m, v) - {key} else Holding(m, v);
  }

  lemma HoldingAfter(before: map<Key, Entry>, step: Step, after: map<Key, Entry>, v: Value)
    requires Takes(before, step, after)
    ensures |Holding(after, v)| == |Holding(before, v)|
      + (if step.Insertion? && step.entry.value == v then 1 else 0)
      - LeftWith(step, v)
  {
    match step {
      case Insertion(key, entry) => HoldingMore(before, key, entry, v);
      case Removal(key, _) => HoldingLess(before, key, v);
      case Yield(key, _) => HoldingLess(before, key, v);
      case Clearing(_) => assert Holding(after, v) == {};
      case Reset(key, when) => assert Holding(after, v) == Holding(before, v);
    }
  }

  /**
    Over every run, each payload has been inserted as often as it was yielded, removed or cleared, or is still there.
   */
  lemma {:induction false} PayloadsAreConserved(states: seq<map<Key, Entry>>, steps: seq<Step>, v: Value)
    requires IsRun(states, steps) && states[0] == map[]
    ensures InsertedOf(steps, v) == LeftOf(steps, v) + |Holding(states[|steps|], v)|
    decreases |steps|
  {
    if steps == [] {
      assert Holding(states[0], v) == {};
    } else {
      var n := |steps| - 1;
      assert IsRun(states[..n + 1], steps[..n]) by {
        forall i | 0 <= i < n ensures Takes(states[..n + 1][i], steps[..n][i], states[..n + 1][i + 1]) {
          assert Takes(states[i], steps[i], states[i + 1]);
        }
      }
      PayloadsAreConserved(states[..n + 1], steps[..n], v);
      assert Takes(states[n], steps[n], states[n + 1]);
      HoldingAfter(states[n], steps[n], states[n + 1], v);
    }
  }
}
