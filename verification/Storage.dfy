/** The entry storage of the delay queue: a slab, and the keys handed out for it. */
module Storage {
  import opened Wrappers

  /** The payload of an entry. */
  type Value(==, !new)

  /** A key handed out to callers. */
  type Key = nat

  datatype Data = Data(inner: Value, when: nat, expired: bool, next: Option<Key>, prev: Option<Key>)

  /** The slab crate's storage: occupied cells, and the length of its vector. */
  datatype Slab = Slab(cells: map<nat, Data>, entries: nat)

  datatype StackId = ExpiredStack | WheelSlot(level: nat, slot: nat)

  /**
    What the storage looks like from outside: the live handed-out keys with their entries, the entries of
    every stack in order, and the stack of every stacked key.
   */
  datatype Threads = Threads(view: map<Key, Data>, chains: map<StackId, seq<Key>>, seat: map<Key, StackId>)

  const MAX_ENTRIES: nat := 0x3FFF_FFFF
  /** `usize` of the 32-bit guest the queue is compiled for. */
  const USIZE_LIMIT: nat := 0x1_0000_0000

  // ---- counting below a bound ----

  lemma {:induction false} BelowCount(s: set<nat>, n: nat)
    requires forall i :: i in s ==> i < n
    ensures |s| <= n
    ensures |s| == n <==> forall i :: 0 <= i < n ==> i in s
    decreases n
  {
    if n > 0 {
      var rest := s - {n - 1};
      BelowCount(rest, n - 1);
      if n - 1 in s {
        assert |s| == |rest| + 1;
        assert (forall i :: 0 <= i < n ==> i in s) <==> forall i :: 0 <= i < n - 1 ==> i in rest by {
          assert forall i :: 0 <= i < n - 1 ==> (i in s <==> i in rest);
        }
      } else {
        assert rest == s;
        assert n - 1 !in s;
      }
    } else {
      assert s == {};
    }
  }

  /** A bounded set that is not full leaves an index free. */
  lemma SomeFree(s: set<nat>, n: nat) returns (free: nat)
    requires |s| < n
    requires forall i :: i in s ==> i < n
    ensures free < n && free !in s
  {
    BelowCount(s, n);
    free :| 0 <= free < n && free !in s;
  }

  lemma {:induction false} SubsetSize(a: set<nat>, b: set<nat>)
    requires a <= b
    ensures |a| <= |b|
    decreases b
  {
    if b != {} {
      var x :| x in b;
      SubsetSize(a - {x}, b - {x});
      assert x in a ==> |a| == |a - {x}| + 1;
      assert x !in a ==> a - {x} == a;
    }
  }

  /** Where a compaction takes the cell at index `i`. */
  function Moved(remapping: map<nat, nat>, i: nat): nat
  {
    if i in remapping then remapping[i] else i
  }

  /** `remapping` takes every cell of `before` to a cell of `after` with the same content, and `back` undoes it. */
  ghost predicate Relocation(before: map<nat, Data>, after: map<nat, Data>, remapping: map<nat, nat>,
      back: map<nat, nat>)
  {
    forall i {:trigger Moved(remapping, i)} :: i in before ==>
      && Moved(remapping, i) in after && after[Moved(remapping, i)] == before[i]
      && Moved(remapping, i) in back && back[Moved(remapping, i)] == i
  }

  predicate SlabOk(slab: Slab)
  {
    slab.entries <= MAX_ENTRIES && forall i :: i in slab.cells ==> i < slab.entries
  }

  /** A live key reads the cell it goes to, and `owner` leads back from the cell: no two keys share one. */
  ghost predicate Reads(index: map<Key, nat>, inner: map<nat, Data>, view: map<Key, Data>, owner: map<nat, Key>)
  {
    && index.Keys == view.Keys
    && (forall k {:trigger index[k]} :: k in index ==>
          && index[k] in inner && inner[index[k]] == view[k]
          && index[k] in owner && owner[index[k]] == k)
  }

  /** The owners of the cells after a compaction. */
  ghost function OwnersMoved(owner: map<nat, Key>, back: map<nat, nat>): map<nat, Key>
  {
    map j | j in back && back[j] in owner :: owner[back[j]]
  }

  lemma SameKeys(index: map<Key, nat>, inner: map<nat, Data>, view: map<Key, Data>, owner: map<nat, Key>)
    requires Reads(index, inner, view, owner)
    ensures index.Keys == view.Keys && |index.Keys| == |view|
  {}

  lemma ReadsAfterInsert(index: map<Key, nat>, inner: map<nat, Data>, view: map<Key, Data>, owner: map<nat, Key>,
      key: Key, i: nat, val: Data)
    requires Reads(index, inner, view, owner) && key !in index && i !in inner
    ensures Reads(index[key := i], inner[i := val], view[key := val], owner[i := key])
  {}

  lemma ReadsAfterUpdate(index: map<Key, nat>, inner: map<nat, Data>, view: map<Key, Data>, owner: map<nat, Key>,
      key: Key, d: Data)
    requires Reads(index, inner, view, owner) && key in index
    ensures Reads(index, inner[index[key] := d], view[key := d], owner)
  {}

  lemma ReadsAfterRemove(index: map<Key, nat>, inner: map<nat, Data>, view: map<Key, Data>, owner: map<nat, Key>,
      key: Key)
    requires Reads(index, inner, view, owner) && key in index
    ensures Reads(index - {key}, inner - {index[key]}, view - {key}, owner)
  {}

  lemma ReadsAfterCompact(index: map<Key, nat>, inner: map<nat, Data>, view: map<Key, Data>, owner: map<nat, Key>,
                          remapping: map<nat, nat>, back: map<nat, nat>, after: map<nat, Data>)
    requires Reads(index, inner, view, owner) && Relocation(inner, after, remapping, back)
    ensures Reads(map k | k in index :: Moved(remapping, index[k]), after, view, OwnersMoved(owner, back))
  {}

  class SlabStorage {
    var inner: Slab
    // handed-out keys to slab indices, once `compact` has been called
    var keyMap: map<Key, nat>
    var nextKeyIndex: nat
    var compactCalled: bool

    ghost var threads: Threads
    // the key that leads to a cell, once `compact` has been called
    ghost var owner: map<nat, Key>

    ghost predicate Valid()
      reads this
    {
      && SlabOk(inner)
      && nextKeyIndex < USIZE_LIMIT
      && |threads.view| == |inner.cells|
      && (forall k :: k in threads.view ==> k < USIZE_LIMIT)
      && (if compactCalled then Reads(keyMap, inner.cells, threads.view, owner)
        else keyMap == map[] && threads.view == inner.cells)
    }

    constructor ()
      ensures Valid() && threads == Threads(map[], map[], map[])
    {
      inner := Slab(map[], 0);
      keyMap, nextKeyIndex, compactCalled := map[], 0, false;
      threads, owner := Threads(map[], map[], map[]), map[];
    }

    function RemapKey(key: Key): (r: Option<nat>)
      requires Valid()
      reads this
      ensures key in threads.view ==> r.Some? && r.value in inner.cells && inner.cells[r.value] == threads.view[key]
      ensures key !in threads.view ==> r.None? || r.value !in inner.cells
    {
      if compactCalled then
        if key in keyMap then Some(keyMap[key]) else None
      else
        Some(key)
    }

    function Contains(key: Key): (r: bool)
      requires Valid()
      reads this
      ensures r <==> key in threads.view
    {
      var internalKey := RemapKey(key);
      internalKey.Some? && internalKey.value in inner.cells
    }

    function Len(): (n: nat)
      requires Valid()
      reads this
      ensures n == |threads.view|
    {
      |inner.cells|
    }

    /** `storage[key]`. */
    function Get(key: Key): (d: Data)
      requires Valid() && key in threads.view
      reads this
      ensures d == threads.view[key]
    {
      inner.cells[RemapKey(key).value]
    }

    /** An assignment through `&mut storage[key]`. */
    method Put(key: Key, d: Data)
      requires Valid() && key in threads.view
      modifies this`inner, this`threads
      ensures Valid()
      ensures threads == old(threads).(view := old(threads.view)[key := d])
    {
      var i := RemapKey(key).value;
      if compactCalled { ReadsAfterUpdate(keyMap, inner.cells, threads.view, owner, key, d); }
      inner := inner.(cells := inner.cells[i := d]);
      threads := threads.(view := threads.view[key := d]);
    }

    /** Records how the entries are stacked now. */
    ghost method Restack(chains: map<StackId, seq<Key>>, seat: map<Key, StackId>)
      requires Valid()
      modifies this`threads
      ensures Valid() && threads == old(threads).(chains := chains, seat := seat)
    {
      threads := threads.(chains := chains, seat := seat);
    }

    method Insert(val: Data) returns (key: Key)
      requires Valid() && |threads.view| < MAX_ENTRIES
      modifies this`inner, this`keyMap, this`nextKeyIndex, this`threads, this`owner
      ensures Valid()
      ensures key !in old(threads.view) && threads == old(threads).(view := old(threads.view)[key := val])
    {
      hide Reads;
      var i, entries := SlabVacant(inner);
      key := i;
      if compactCalled {
        SameKeys(keyMap, inner.cells, threads.view, owner);
        if i in keyMap {
          key := CreateNewKey();
        }
        ReadsAfterInsert(keyMap, inner.cells, threads.view, owner, key, i, val);
        keyMap, owner := keyMap[key := i], owner[i := key];
      }
      inner := Slab(inner.cells[i := val], entries);
      threads := threads.(view := threads.view[key := val]);
    }

    /** Steps `nextKeyIndex`, wrapping, to a key that is not in use. */
    method CreateNewKey() returns (key: Key)
      requires nextKeyIndex < USIZE_LIMIT && |keyMap.Keys| < MAX_ENTRIES
      requires forall k :: k in keyMap ==> k < USIZE_LIMIT
      modifies this`nextKeyIndex
      ensures key == nextKeyIndex < USIZE_LIMIT && key !in keyMap
    {
      ghost var free := SomeFree(keyMap.Keys, USIZE_LIMIT);
      while nextKeyIndex in keyMap
        invariant nextKeyIndex < USIZE_LIMIT
        decreases if nextKeyIndex <= free then free - nextKeyIndex else free + USIZE_LIMIT - nextKeyIndex
      {
        nextKeyIndex := (nextKeyIndex + 1) % USIZE_LIMIT;
      }
      key := nextKeyIndex;
    }

    /** Panics in the source unless `key` is live. */
    method Remove(key: Key) returns (data: Data)
      requires Valid() && key in threads.view
      modifies this`inner, this`keyMap, this`threads
      ensures Valid()
      ensures data == old(threads.view)[key] && threads == old(threads).(view := old(threads.view) - {key})
    {
      var i := key;
      if compactCalled {
        ReadsAfterRemove(keyMap, inner.cells, threads.view, owner, key);
        i := keyMap[key];
        keyMap := keyMap - {key};
      }
      data := inner.cells[i];
      Fewer(inner.cells, i);
      Fewer(threads.view, key);
      inner := inner.(cells := inner.cells - {i});
      threads := threads.(view := threads.view - {key});
    }

    /** Closes the gaps of the slab; the keys already handed out keep reading the same entries. */
    method Compact()
      requires Valid()
      modifies this`inner, this`keyMap, this`compactCalled, this`owner
      ensures Valid()
      ensures compactCalled && inner.entries == |inner.cells|
      ensures forall j :: 0 <= j < inner.entries <==> j in inner.cells
    {
      hide Reads, Relocation, OwnersMoved;
      var keys := if compactCalled then keyMap else map k | k in inner.cells :: k;
      ghost var owners := if compactCalled then owner else keys;
      var cells, remapping, back := SlabCompact(inner);
      ReadsAfterCompact(keys, inner.cells, threads.view, owners, remapping, back, cells);
      keyMap := map k | k in keys :: Moved(remapping, keys[k]);
      inner, compactCalled := Slab(cells, |cells|), true;
      owner := OwnersMoved(owners, back);
    }

    method Clear()
      requires Valid()
      modifies this
      ensures Valid() && threads == Threads(map[], map[], map[])
    {
      inner, keyMap, compactCalled := Slab(map[], 0), map[], false;
      threads, owner := Threads(map[], map[], map[]), map[];
    }
  }

  /** The index the slab's own insertion picks: a vacant one, a new one only when its vector is full. */
  method SlabVacant(slab: Slab) returns (i: nat, entries: nat)
    requires SlabOk(slab) && |slab.cells| < MAX_ENTRIES
    ensures i !in slab.cells && i < entries <= MAX_ENTRIES && slab.entries <= entries
  {
    BelowCount(slab.cells.Keys, slab.entries);
    if j: nat :| j < slab.entries && j !in slab.cells {
      i, entries := j, slab.entries;
    } else {
      i, entries := slab.entries, slab.entries + 1;
    }
  }

  /** The slab's own compaction: cells from the end of the vector move to vacant indices until it is full. */
  method SlabCompact(slab: Slab) returns (cells: map<nat, Data>, remapping: map<nat, nat>, ghost back: map<nat, nat>)
    requires SlabOk(slab)
    ensures |cells| == |slab.cells| <= slab.entries
    ensures forall j :: 0 <= j < |cells| <==> j in cells
    ensures Relocation(slab.cells, cells, remapping, back)
  {
    var inner, entries := slab.cells, slab.entries;
    cells, remapping, back := inner, map[], map i | i in inner :: i;
    var n := |inner|;
    var top := entries;
    BelowCount(inner.Keys, entries);
    while top > n
      invariant |cells| == n <= top <= entries
      invariant forall j :: j in cells ==> j < top
      invariant Relocation(inner, cells, remapping, back)
      invariant forall i :: i in remapping ==> i >= top && remapping[i] < n
      invariant forall j :: j in cells && j >= n ==> j in inner
    {
      top := top - 1;
      if top in cells {
        var to := LowVacant(cells, n, top);
        RelocateOne(inner, cells, remapping, back, n, top, to);
        cells, remapping, back := cells[to := cells[top]] - {top}, remapping[top := to], back[to := top];
      }
    }
    BelowCount(cells.Keys, n);
  }

  lemma Fewer<K, V>(m: map<K, V>, k: K)
    requires k in m
    ensures |m - {k}| == |m| - 1
  {
    assert (m - {k}).Keys == m.Keys - {k};
  }

  /** While a cell at or above `n` is occupied, `n` cells leave an index below `n` vacant. */
  method LowVacant(cells: map<nat, Data>, n: nat, top: nat) returns (to: nat)
    requires |cells| == n <= top && top in cells
    ensures to < n && to !in cells
  {
    assert exists j: nat :: j < n && j !in cells by {
      var low := set j | j in cells && j < n;
      SubsetSize(low, cells.Keys - {top});
      var free := SomeFree(low, n);
    }
    to :| to < n && to !in cells;
  }

  /** One step of a compaction: the cell at `from`, not moved before, goes to the vacant `to`. */
  lemma RelocateOne(before: map<nat, Data>, cells: map<nat, Data>, remapping: map<nat, nat>, back: map<nat, nat>,
      n: nat, from: nat, to: nat)
    requires Relocation(before, cells, remapping, back)
    requires from in cells && from in before && from !in remapping && to !in cells && to < n <= from
    requires forall i :: i in remapping ==> remapping[i] < n
    ensures Relocation(before, cells[to := cells[from]] - {from}, remapping[from := to], back[to := from])
    ensures |cells[to := cells[from]] - {from}| == |cells|
  {
    Fewer(cells[to := cells[from]], from);
    assert Moved(remapping, from) == from;
    forall i | i in before && i != from ensures Moved(remapping[from := to], i) == Moved(remapping, i) {
      assert Moved(remapping, i) != from && Moved(remapping, i) != to;
    }
  }
}
