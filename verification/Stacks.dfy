/** Intrusive doubly linked stacks threaded through the storage. */
module Stacks {
  import opened Wrappers
  import opened Storage

  function Chain(t: Threads, id: StackId): seq<Key>
  {
    if id in t.chains then t.chains[id] else []
  }

  function Head(c: seq<Key>): Option<Key>
  {
    if c == [] then None else Some(c[0])
  }

  function Next(c: seq<Key>, i: nat): Option<Key>
  {
    if i + 1 < |c| then Some(c[i + 1]) else None
  }

  function Prev(c: seq<Key>, i: nat): Option<Key>
  {
    if 0 < i <= |c| then Some(c[i - 1]) else None
  }

  /** Entry `i` of the stack's order is live, sits on this stack only, and its links lead to its neighbours. */
  ghost predicate LinkedAt(t: Threads, id: StackId, i: nat)
    requires i < |Chain(t, id)|
  {
    var c := Chain(t, id);
    && c[i] in t.seat && t.seat[c[i]] == id
    && c[i] in t.view && t.view[c[i]].next == Next(c, i) && t.view[c[i]].prev == Prev(c, i)
  }

  ghost predicate Differ(c: seq<Key>, i: nat, j: nat)
    requires i < |c| && j < |c|
  {
    c[i] != c[j]
  }

  ghost predicate Distinct(c: seq<Key>)
  {
    forall i: nat, j: nat {:trigger Differ(c, i, j)} :: i < j < |c| ==> Differ(c, i, j)
  }

  /** Every stack is a well-formed doubly linked list, and no entry is on two of them. */
  ghost predicate Linked(t: Threads)
  {
    && (forall id, i :: 0 <= i < |Chain(t, id)| ==> LinkedAt(t, id, i))
    && Seated(t)
  }

  /** No entry is on a stack twice, a seat says which stack an entry is on, and an unstacked entry has no links. */
  ghost predicate Seated(t: Threads)
  {
    && (forall id :: Distinct(Chain(t, id)))
    && (forall k :: k in t.seat ==> k in t.view && k in Chain(t, t.seat[k]))
    && (forall k :: k in t.view && k !in t.seat ==> t.view[k].next == None && t.view[k].prev == None)
  }

  ghost predicate SameEntry(a: Data, b: Data)
  {
    a.inner == b.inner && a.when == b.when && a.expired == b.expired
  }

  /** The same live keys with the same payloads, deadlines and flags; only links may differ. */
  ghost predicate SameEntries(a: map<Key, Data>, b: map<Key, Data>)
  {
    a.Keys == b.Keys && forall k :: k in a ==> SameEntry(a[k], b[k])
  }

  // ---- what the operations do to the links ----

  ghost function PushLinks(view: map<Key, Data>, head: Option<Key>, item: Key): map<Key, Data>
  {
    map k | k in view ::
      if k == item then view[k].(next := head)
      else if head == Some(k) then view[k].(prev := Some(item))
      else view[k]
  }

  ghost function RemoveLinks(view: map<Key, Data>, key: Key): map<Key, Data>
    requires key in view
  {
    map k | k in view ::
      if k == key then view[k].(next := None, prev := None)
      else if view[key].next == Some(k) then view[k].(prev := view[key].prev)
      else if view[key].prev == Some(k) then view[k].(next := view[key].next)
      else view[k]
  }

  ghost function Pushed(t: Threads, id: StackId, item: Key): Threads
  {
    Threads(PushLinks(t.view, Head(Chain(t, id)), item), t.chains[id := [item] + Chain(t, id)], t.seat[item := id])
  }

  /** Where the entries of the stack are after a push: one further on, behind the item. */
  lemma PushLinksHere(t: Threads, id: StackId, item: Key, i: nat)
    requires Linked(t) && item in t.view && item !in t.seat && i <= |Chain(t, id)|
    ensures i < |Chain(Pushed(t, id, item), id)| && LinkedAt(Pushed(t, id, item), id, i)
  {
    hide Linked;
    var c := Chain(t, id);
    OffStack(t, item);
    assert Chain(Pushed(t, id, item), id) == [item] + c;
    if i > 0 {
      Neighbours(t, id, i - 1);
      if i > 1 { Elsewhere(t, id, 0, id, i - 1); }
      if c != [] { Neighbours(t, id, 0); }
    }
  }

  lemma PushLinksElsewhere(t: Threads, id: StackId, item: Key, x: StackId, i: nat)
    requires Linked(t) && item in t.view && item !in t.seat && x != id && i < |Chain(t, x)|
    ensures i < |Chain(Pushed(t, id, item), x)| && LinkedAt(Pushed(t, id, item), x, i)
  {
    hide Linked;
    OffStack(t, item);
    Neighbours(t, x, i);
    if Chain(t, id) != [] { Elsewhere(t, id, 0, x, i); }
  }

  lemma PushLinkedAt(t: Threads, id: StackId, item: Key, x: StackId, i: nat)
    requires Linked(t) && item in t.view && item !in t.seat && i < |Chain(Pushed(t, id, item), x)|
    ensures LinkedAt(Pushed(t, id, item), x, i)
  {
    hide Linked, LinkedAt, PushLinks;
    if x == id { PushLinksHere(t, id, item, i); } else { PushLinksElsewhere(t, id, item, x, i); }
  }

  lemma PushKeepsLinked(t: Threads, id: StackId, item: Key)
    requires Linked(t) && item in t.view && item !in t.seat
    ensures Linked(Pushed(t, id, item))
    ensures SameEntries(t.view, Pushed(t, id, item).view)
  {
    var t' := Pushed(t, id, item);
    var c, c' := Chain(t, id), Chain(t', id);
    forall x, i | 0 <= i < |Chain(t', x)| ensures LinkedAt(t', x, i) { PushLinkedAt(t, id, item, x, i); }
    OffStack(t, item);
    assert Distinct(c);
    forall i: nat, j: nat | i < j < |c'| ensures Differ(c', i, j) {
      if i > 0 { assert Differ(c, i - 1, j - 1); }
    }
    forall x ensures Distinct(Chain(t', x)) {
      assert x != id ==> Chain(t', x) == Chain(t, x);
    }
    forall k | k in t'.seat ensures k in t'.view && k in Chain(t', t'.seat[k]) {
      if k == item {
        assert c'[0] == item;
      } else if t.seat[k] == id {
        assert k in c;
      }
    }
    forall k | k in t'.view && k !in t'.seat ensures t'.view[k].next == None && t'.view[k].prev == None {
      if c != [] { Neighbours(t, id, 0); }
    }
  }

  /** An entry that is on no stack has no links, and is in no stack's order. */
  lemma OffStack(t: Threads, item: Key)
    requires Linked(t) && item in t.view && item !in t.seat
    ensures t.view[item].next == None && t.view[item].prev == None
    ensures forall id :: item !in Chain(t, id)
  {
    forall id, i | 0 <= i < |Chain(t, id)| ensures Chain(t, id)[i] != item { assert LinkedAt(t, id, i); }
  }

  /** What an entry of a stack knows of its neighbours. */
  lemma Neighbours(t: Threads, id: StackId, i: nat)
    requires Linked(t) && i < |Chain(t, id)|
    ensures LinkedAt(t, id, i)
    ensures i > 0 ==> LinkedAt(t, id, i - 1) && Chain(t, id)[i - 1] != Chain(t, id)[i]
    ensures i + 1 < |Chain(t, id)| ==> LinkedAt(t, id, i + 1) && Chain(t, id)[i + 1] != Chain(t, id)[i]
    ensures 0 < i && i + 1 < |Chain(t, id)| ==> Chain(t, id)[i - 1] != Chain(t, id)[i + 1]
  {
    var c := Chain(t, id);
    assert Distinct(c);
    assert i > 0 ==> Differ(c, i - 1, i);
    assert i + 1 < |c| ==> Differ(c, i, i + 1);
    assert 0 < i && i + 1 < |c| ==> Differ(c, i - 1, i + 1);
  }

  /** The writes of a removal, one after the other. */
  lemma UnlinkSteps(view: map<Key, Data>, key: Key)
    requires key in view
    requires view[key].next.Some? ==> view[key].next.value in view && view[key].next.value != key
    requires view[key].prev.Some? ==> view[key].prev.value in view && view[key].prev.value != key
    requires view[key].next.Some? && view[key].prev.Some? ==> view[key].next.value != view[key].prev.value
    ensures var next, prev := view[key].next, view[key].prev;
      var v := if next.Some? then view[next.value := view[next.value].(prev := prev)] else view;
      var w := if prev.Some? then v[prev.value := v[prev.value].(next := next)] else v;
      w[key := w[key].(next := None, prev := None)] == RemoveLinks(view, key)
  {}

  /** The links of an entry of a stack. */
  lemma LinksOf(t: Threads, id: StackId, i: nat)
    requires Linked(t) && i < |Chain(t, id)|
    ensures var k := Chain(t, id)[i];
      && k in t.seat && t.seat[k] == id && k in t.view
      && var next, prev := t.view[k].next, t.view[k].prev;
      && next == Next(Chain(t, id), i) && prev == Prev(Chain(t, id), i)
      && (next.Some? ==> next.value in t.view && next.value in t.seat && next.value != k)
      && (prev.Some? ==> prev.value in t.view && prev.value in t.seat && prev.value != k)
      && (next.Some? && prev.Some? ==> next.value != prev.value)
  {
    Neighbours(t, id, i);
  }

  lemma Position(t: Threads, item: Key) returns (at: nat)
    requires Linked(t) && item in t.seat
    ensures item in t.view && at < |Chain(t, t.seat[item])| && Chain(t, t.seat[item])[at] == item
  {
    assert item in Chain(t, t.seat[item]);
    at :| at < |Chain(t, t.seat[item])| && Chain(t, t.seat[item])[at] == item;
  }

  /** The stack without its entry `i`. */
  ghost function Without(c: seq<Key>, i: nat): seq<Key>
    requires i < |c|
  {
    c[..i] + c[i + 1..]
  }

  lemma WithoutDistinct(c: seq<Key>, i: nat)
    requires Distinct(c) && i < |c|
    ensures Distinct(Without(c, i)) && c[i] !in Without(c, i)
    ensures forall k :: k in c && k != c[i] ==> k in Without(c, i)
  {
    var w := Without(c, i);
    forall j | 0 <= j < |w| ensures w[j] == c[if j < i then j else j + 1] && w[j] != c[i] {
      assert if j < i then Differ(c, j, i) else Differ(c, i, j + 1);
    }
    forall j: nat, l: nat | j < l < |w| ensures Differ(w, j, l) {
      assert Differ(c, if j < i then j else j + 1, if l < i then l else l + 1);
    }
    forall k | k in c && k != c[i] ensures k in w {
      var j :| 0 <= j < |c| && c[j] == k;
      assert w[if j < i then j else j - 1] == k;
    }
  }

  ghost function Removed(t: Threads, id: StackId, i: nat): Threads
    requires i < |Chain(t, id)| && Chain(t, id)[i] in t.view
  {
    var c := Chain(t, id);
    Threads(RemoveLinks(t.view, c[i]), t.chains[id := Without(c, i)], t.seat - {c[i]})
  }

  lemma Elsewhere(t: Threads, id: StackId, i: nat, x: StackId, j: nat)
    requires Linked(t) && i < |Chain(t, id)| && j < |Chain(t, x)| && (x != id || i != j)
    ensures Chain(t, id)[i] != Chain(t, x)[j]
  {
    assert LinkedAt(t, id, i) && LinkedAt(t, x, j) && Distinct(Chain(t, id));
    assert x == id ==> if i < j then Differ(Chain(t, id), i, j) else Differ(Chain(t, id), j, i);
  }

  /** An entry other than the one removed and its neighbours keeps its links. */
  lemma RemoveApart(t: Threads, id: StackId, i: nat, x: StackId, j: nat)
    requires Linked(t) && i < |Chain(t, id)| && Chain(t, id)[i] in t.view && j < |Chain(t, x)|
    requires x != id || j + 1 < i || j > i + 1
    ensures Chain(t, x)[j] in t.view && RemoveLinks(t.view, Chain(t, id)[i])[Chain(t, x)[j]] == t.view[Chain(t, x)[j]]
  {
    hide Linked;
    Neighbours(t, id, i);
    Neighbours(t, x, j);
    Elsewhere(t, id, i, x, j);
    if i > 0 { Elsewhere(t, id, i - 1, x, j); }
    if i + 1 < |Chain(t, id)| { Elsewhere(t, id, i + 1, x, j); }
  }

  lemma RemoveLinkedAt(t: Threads, id: StackId, i: nat, x: StackId, j: nat)
    requires Linked(t) && i < |Chain(t, id)| && Chain(t, id)[i] in t.view
    requires j < |Chain(Removed(t, id, i), x)|
    ensures LinkedAt(Removed(t, id, i), x, j)
  {
    hide Linked;
    var c := Chain(t, id);
    var c' := Chain(Removed(t, id, i), x);
    if x == id {
      var j0 := if j < i then j else j + 1;
      Neighbours(t, id, i);
      Neighbours(t, id, j0);
      Elsewhere(t, id, i, id, j0);
      assert c'[j] == c[j0];
      assert j + 1 < |c'| ==> c'[j + 1] == c[if j + 1 < i then j + 1 else j + 2];
      assert j > 0 ==> c'[j - 1] == c[if j - 1 < i then j - 1 else j];
      if j0 + 1 < i || j0 > i + 1 { RemoveApart(t, id, i, id, j0); }
    } else {
      Neighbours(t, x, j);
      Elsewhere(t, id, i, x, j);
      RemoveApart(t, id, i, x, j);
    }
  }

  lemma RemoveKeepsChains(t: Threads, id: StackId, i: nat)
    requires Linked(t) && i < |Chain(t, id)| && Chain(t, id)[i] in t.view
    ensures forall x :: Distinct(Chain(Removed(t, id, i), x))
    ensures forall k :: k in t.seat && k != Chain(t, id)[i] ==> k in t.view && k in Chain(Removed(t, id, i), t.seat[k])
  {
    hide LinkedAt;
    var t' := Removed(t, id, i);
    var c := Chain(t, id);
    assert Distinct(c);
    WithoutDistinct(c, i);
    forall x ensures Distinct(Chain(t', x)) {
      assert x != id ==> Chain(t', x) == Chain(t, x);
    }
    assert Chain(t', id) == Without(c, i);
  }

  /** Whoever is on no stack after a removal has no links. */
  lemma RemoveKeepsLoose(t: Threads, id: StackId, i: nat, k: Key)
    requires Linked(t) && i < |Chain(t, id)| && Chain(t, id)[i] in t.view
    requires k in Removed(t, id, i).view && k !in Removed(t, id, i).seat
    ensures Removed(t, id, i).view[k].next == None && Removed(t, id, i).view[k].prev == None
  {
    hide Linked, LinkedAt, Without;
    LinksOf(t, id, i);
    if k != Chain(t, id)[i] { OffStack(t, k); }
  }

  lemma RemoveKeepsSeats(t: Threads, id: StackId, i: nat)
    requires Linked(t) && i < |Chain(t, id)| && Chain(t, id)[i] in t.view
    ensures Seated(Removed(t, id, i))
  {
    hide Linked, LinkedAt, Distinct, Chain;
    RemoveKeepsChains(t, id, i);
    var t' := Removed(t, id, i);
    forall k | k in t'.view && k !in t'.seat ensures t'.view[k].next == None && t'.view[k].prev == None {
      RemoveKeepsLoose(t, id, i, k);
    }
  }

  lemma RemoveKeepsLinked(t: Threads, id: StackId, i: nat)
    requires Linked(t) && i < |Chain(t, id)| && Chain(t, id)[i] in t.view
    ensures Linked(Removed(t, id, i))
    ensures SameEntries(t.view, Removed(t, id, i).view)
  {
    hide LinkedAt, Seated;
    var t' := Removed(t, id, i);
    forall x, j | 0 <= j < |Chain(t', x)| ensures LinkedAt(t', x, j) { RemoveLinkedAt(t, id, i, x, j); }
    RemoveKeepsSeats(t, id, i);
  }

  lemma PushedChains(t: Threads, id: StackId, item: Key)
    ensures forall x :: Chain(Pushed(t, id, item), x) == if x == id then [item] + Chain(t, id) else Chain(t, x)
  {}

  lemma RemovedChains(t: Threads, id: StackId, i: nat)
    requires i < |Chain(t, id)| && Chain(t, id)[i] in t.view
    ensures forall x :: Chain(Removed(t, id, i), x) == if x == id then Without(Chain(t, id), i) else Chain(t, x)
  {}

  class Stack {
    var head: Option<Key>
    ghost const id: StackId

    ghost predicate Valid(store: SlabStorage)
      reads this, store
    {
      store.Valid() && Linked(store.threads) && head == Head(Chain(store.threads, id))
    }

    constructor (ghost id: StackId)
      ensures head == None && this.id == id
    {
      head := None;
      this.id := id;
    }

    method Push(item: Key, store: SlabStorage)
      requires Valid(store)
      requires item in store.threads.view && item !in store.threads.seat
      modifies this`head, store`inner, store`threads
      ensures Valid(store)
      ensures store.threads == Pushed(old(store.threads), id, item)
      ensures SameEntries(old(store.threads.view), store.threads.view)
    {
      hide Linked, LinkedAt, SameEntries, SlabStorage.Valid;
      ghost var t := store.threads;
      ghost var c := Chain(t, id);
      OffStack(t, item);
      if c != [] { LinksOf(t, id, 0); }
      PushKeepsLinked(t, id, item);
      var former := head;
      if former.Some? {
        store.Put(former.value, store.Get(former.value).(prev := Some(item)));
      }
      store.Put(item, store.Get(item).(next := former));
      assert store.threads.view == PushLinks(t.view, former, item);
      head := Some(item);
      store.Restack(t.chains[id := [item] + c], t.seat[item := id]);
    }

    method Pop(store: SlabStorage) returns (key: Option<Key>)
      requires Valid(store)
      modifies this`head, store`inner, store`threads
      ensures Valid(store)
      ensures key == Head(Chain(old(store.threads), id))
      ensures key == None ==> store.threads == old(store.threads)
      ensures key.Some? ==> key.value in old(store.threads.view) && store.threads == Removed(old(store.threads), id, 0)
      ensures SameEntries(old(store.threads.view), store.threads.view)
    {
      hide Linked, LinkedAt, SlabStorage.Valid;
      if head == None {
        return None;
      }
      ghost var t := store.threads;
      ghost var c := Chain(t, id);
      var k := head.value;
      LinksOf(t, id, 0);
      RemoveKeepsLinked(t, id, 0);
      head := store.Get(k).next;
      if head.Some? {
        store.Put(head.value, store.Get(head.value).(prev := None));
      }
      store.Put(k, store.Get(k).(next := None));
      assert store.Get(k).prev == None;
      assert store.threads.view == RemoveLinks(t.view, k);
      assert Without(c, 0) == c[1..];
      store.Restack(t.chains[id := c[1..]], t.seat - {k});
      key := Some(k);
    }

    /** The walk of the debug assertion in `remove`: is the entry on this list, and only once? */
    method Holds(item: Key, store: SlabStorage) returns (contains: bool)
      requires Valid(store)
      ensures contains <==> item in Chain(store.threads, id)
    {
      ghost var c := Chain(store.threads, id);
      ghost var i: nat := 0;
      var next := head;
      contains := false;
      while next.Some?
        invariant i <= |c| && next == (if i < |c| then Some(c[i]) else None)
        invariant contains <==> item in c[..i]
        decreases |c| - i
      {
        assert LinkedAt(store.threads, id, i);
        if next.value == item {
          assert !contains by {
            forall j | 0 <= j < i ensures c[j] != item { Elsewhere(store.threads, id, j, id, i); }
          }
          contains := true;
        }
        next := store.Get(next.value).next;
        assert c[..i + 1] == c[..i] + [c[i]];
        i := i + 1;
      }
      assert c[..i] == c;
    }

    method Remove(item: Key, store: SlabStorage) returns (ghost at: nat)
      requires Valid(store)
      requires item in store.threads.seat && store.threads.seat[item] == id
      modifies this`head, store`inner, store`threads
      ensures Valid(store)
      ensures at < |Chain(old(store.threads), id)| && Chain(old(store.threads), id)[at] == item
      ensures item in old(store.threads.view) && store.threads == Removed(old(store.threads), id, at)
      ensures SameEntries(old(store.threads.view), store.threads.view)
    {
      hide Linked, LinkedAt, SameEntries, SlabStorage.Valid, RemoveLinks;
      ghost var t := store.threads;
      ghost var c := Chain(t, id);
      at := Position(t, item);
      LinksOf(t, id, at);
      RemoveKeepsLinked(t, id, at);
      assert store.Contains(item);
      var contains := Holds(item, store);
      assert contains;
      var next, prev := store.Get(item).next, store.Get(item).prev;
      if next.Some? {
        store.Put(next.value, store.Get(next.value).(prev := prev));
      }
      if prev.Some? {
        store.Put(prev.value, store.Get(prev.value).(next := next));
      } else {
        head := next;
      }
      store.Put(item, store.Get(item).(next := None, prev := None));
      UnlinkSteps(t.view, item);
      store.Restack(t.chains[id := Without(c, at)], t.seat - {item});
    }
  }
}
