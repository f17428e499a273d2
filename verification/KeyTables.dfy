/**
 * The open-addressing table from keys to groups: linear probing from a key's home slot, deletion
 * that shifts later entries back, growth at three quarters. The hash is any function of the key.
 */
module KeyTables {
  import opened Options
  import opened RingArithmetic

  type Key = x: int | 0 <= x < 0x1_0000_0000_0000_0000

  datatype Slot<V> = Slot(key: Key, used: bool, group: V)

  // ---------------------------------------------------------------- going round the table

  /** Steps from slot `a` forward to slot `b`. */
  function Dist(n: nat, a: nat, b: nat): (d: nat)
    requires a < n && b < n
    ensures d < n
  {
    if a <= b then b - a else b + n - a
  }

  function After(n: nat, i: nat): (r: nat)
    requires i < n
    ensures r < n
  {
    if i + 1 == n then 0 else i + 1
  }

  function HomeOf(hash: Key -> nat, key: Key, n: nat): (r: nat)
    requires n > 0
    ensures r < n
  {
    hash(key) % n
  }

  // ---------------------------------------------------------------- what the table keeps

  /** Every slot from `home` up to, not including, `s` is used. */
  ghost predicate ClearTo<V>(slots: seq<Slot<V>>, home: nat, s: nat)
    requires home < |slots| && s < |slots|
  {
    forall k :: 0 <= k < |slots| && Dist(|slots|, home, k) < Dist(|slots|, home, s) ==> slots[k].used
  }

  /** No key is cut off from its home slot by an unused one. */
  ghost predicate Reachable<V>(slots: seq<Slot<V>>, hash: Key -> nat) {
    forall s :: 0 <= s < |slots| && slots[s].used ==> ClearTo(slots, HomeOf(hash, slots[s].key, |slots|), s)
  }

  /** The table holds exactly `contents`, each key in one slot; unused slots hold the empty group. */
  ghost predicate Indexes<V>(slots: seq<Slot<V>>, place: map<Key, nat>, contents: map<Key, V>, empty: V) {
    && place.Keys == contents.Keys
    && (forall key :: key in place ==> place[key] < |slots| && slots[place[key]] == Slot(key, true, contents[key]))
    && (forall s :: 0 <= s < |slots| ==> IndexedAt(slots, place, empty, s))
  }

  ghost predicate IndexedAt<V>(slots: seq<Slot<V>>, place: map<Key, nat>, empty: V, s: nat)
    requires s < |slots|
  {
    if slots[s].used then slots[s].key in place && place[slots[s].key] == s else slots[s].group == empty
  }

  /** A table that is not full has an unused slot. */
  lemma {:induction false} HasUnused<V>(slots: seq<Slot<V>>, place: map<Key, nat>, contents: map<Key, V>, empty: V)
    requires Indexes(slots, place, contents, empty) && |place| < |slots|
    ensures exists s :: 0 <= s < |slots| && !slots[s].used
  {
    if forall s :: 0 <= s < |slots| ==> slots[s].used {
      var keys := UsedKeys(slots, place, empty, |slots|);
      assert keys <= place.Keys;
      SubsetIsSmaller(keys, place.Keys);
    }
  }

  /** As many keys as there are used slots in front. */
  lemma {:induction false} UsedKeys<V>(slots: seq<Slot<V>>, place: map<Key, nat>, empty: V, n: nat) returns (keys: set<Key>)
    requires n <= |slots| && forall s :: 0 <= s < n ==> slots[s].used && IndexedAt(slots, place, empty, s)
    ensures |keys| == n && keys <= place.Keys && forall key :: key in keys ==> place[key] < n
  {
    keys := {};
    if n > 0 {
      assert IndexedAt(slots, place, empty, n - 1);
      var others := UsedKeys(slots, place, empty, n - 1);
      keys := others + {slots[n - 1].key};
    }
  }

  lemma {:induction false} SubsetIsSmaller<T>(a: set<T>, b: set<T>)
    requires a <= b
    ensures |a| <= |b|
  {
    assert b == a + (b - a);
  }

  /** The slots from `home` up to `i` have other keys. */
  ghost predicate Missed<V>(slots: seq<Slot<V>>, home: nat, i: nat, key: Key)
    requires home < |slots| && i < |slots|
  {
    forall k :: 0 <= k < |slots| && Dist(|slots|, home, k) < Dist(|slots|, home, i) ==> slots[k].key != key
  }

  lemma {:induction false} ProbeStarts<V>(slots: seq<Slot<V>>, home: nat, key: Key)
    requires home < |slots|
    ensures ClearTo(slots, home, home) && Missed(slots, home, home, key)
  {
  }

  /** A probe goes one slot on, and never round to its start while some slot is unused. */
  lemma {:induction false} ProbeOn<V>(slots: seq<Slot<V>>, home: nat, i: nat, gap: nat, key: Key)
    requires home < |slots| && i < |slots| && gap < |slots| && !slots[gap].used && slots[i].used && slots[i].key != key
    requires ClearTo(slots, home, i) && Missed(slots, home, i, key)
    ensures ClearTo(slots, home, After(|slots|, i)) && Missed(slots, home, After(|slots|, i), key)
    ensures Dist(|slots|, home, After(|slots|, i)) == Dist(|slots|, home, i) + 1
  {
    assert Dist(|slots|, home, i) < Dist(|slots|, home, gap);
  }

  /** What a used slot, or an unused one, says about the contents. */
  lemma {:induction false} SlotFact<V>(slots: seq<Slot<V>>, place: map<Key, nat>, contents: map<Key, V>, empty: V, s: nat)
    requires Indexes(slots, place, contents, empty) && s < |slots|
    ensures IndexedAt(slots, place, empty, s) && place.Keys == contents.Keys
    ensures slots[s].used ==> slots[s].key in contents && slots[s].group == contents[slots[s].key]
  {
    assert IndexedAt(slots, place, empty, s);
  }

  lemma {:induction false} PresentIsReached<V>(slots: seq<Slot<V>>, hash: Key -> nat, place: map<Key, nat>, contents: map<Key, V>, empty: V,
                                               key: Key)
    requires Indexes(slots, place, contents, empty) && Reachable(slots, hash) && |slots| > 0
    ensures key in contents ==> place[key] < |slots| && ClearTo(slots, HomeOf(hash, key, |slots|), place[key])
  {
  }

  /** A probe that met only used slots with other keys, up to an unused one, proves the key absent. */
  lemma {:induction false} ProbeMisses<V>(slots: seq<Slot<V>>, hash: Key -> nat, place: map<Key, nat>, contents: map<Key, V>, empty: V,
                                          key: Key, i: nat)
    requires Indexes(slots, place, contents, empty) && Reachable(slots, hash) && i < |slots| && !slots[i].used
    requires Missed(slots, HomeOf(hash, key, |slots|), i, key)
    ensures key !in contents
  {
    PresentIsReached(slots, hash, place, contents, empty, key);
  }

  // ---------------------------------------------------------------- filling and emptying a slot

  /** A new key in the first unused slot of its probe. */
  lemma {:induction false} FillKeeps<V>(slots: seq<Slot<V>>, hash: Key -> nat, place: map<Key, nat>, contents: map<Key, V>, empty: V,
                                        key: Key, i: nat)
    requires Indexes(slots, place, contents, empty) && Reachable(slots, hash) && i < |slots| && !slots[i].used
    requires key !in contents && ClearTo(slots, HomeOf(hash, key, |slots|), i)
    ensures var slots' := slots[i := Slot(key, true, slots[i].group)];
      Indexes(slots', place[key := i], contents[key := empty], empty) && Reachable(slots', hash)
  {
    hide HomeOf;
    var slots' := slots[i := Slot(key, true, slots[i].group)];
    assert IndexedAt(slots, place, empty, i);
    forall s | 0 <= s < |slots'|
      ensures IndexedAt(slots', place[key := i], empty, s)
      ensures slots'[s].used ==> ClearTo(slots', HomeOf(hash, slots'[s].key, |slots|), s)
    {
      assert IndexedAt(slots, place, empty, s);
    }
  }

  /** A group stored in a used slot. */
  lemma {:induction false} PutKeeps<V>(slots: seq<Slot<V>>, hash: Key -> nat, place: map<Key, nat>, contents: map<Key, V>, empty: V,
                                       i: nat, group: V)
    requires Indexes(slots, place, contents, empty) && Reachable(slots, hash) && i < |slots| && slots[i].used
    ensures var slots' := slots[i := slots[i].(group := group)];
      Indexes(slots', place, contents[slots[i].key := group], empty) && Reachable(slots', hash)
  {
    hide HomeOf;
    var slots' := slots[i := slots[i].(group := group)];
    assert IndexedAt(slots, place, empty, i);
    forall s | 0 <= s < |slots'|
      ensures IndexedAt(slots', place, empty, s)
      ensures slots'[s].used ==> ClearTo(slots', HomeOf(hash, slots'[s].key, |slots|), s)
    {
      assert IndexedAt(slots, place, empty, s);
      if slots[s].used {
        assert ClearTo(slots, HomeOf(hash, slots[s].key, |slots|), s);
      }
    }
  }

  // ---------------------------------------------------------------- shifting back

  /**
   * While a deletion scans: slot `i` is the hole that still counts as used, everything from the hole
   * up to `j` is used, and only entries from `j` on may need the hole to be reached.
   */
  ghost predicate Holed<V>(slots: seq<Slot<V>>, hash: Key -> nat, i: nat, j: nat)
    requires i < |slots| && j < |slots|
  {
    && ClearTo(slots, i, j)
    && forall s :: 0 <= s < |slots| && s != i && slots[s].used ==> HoledAt(slots, HomeOf(hash, slots[s].key, |slots|), i, j, s)
  }

  ghost predicate HoledAt<V>(slots: seq<Slot<V>>, home: nat, i: nat, j: nat, s: nat)
    requires home < |slots| && i < |slots| && j < |slots| && s < |slots|
  {
    && ClearTo(slots, home, s)
    && (Dist(|slots|, home, i) < Dist(|slots|, home, s) ==> Dist(|slots|, i, j) <= Dist(|slots|, i, s))
  }

  /** A deletion starts: the slot of the key becomes the hole. */
  lemma {:induction false} HoleOpens<V>(slots: seq<Slot<V>>, hash: Key -> nat, i: nat)
    requires i < |slots| && |slots| > 1 && Reachable(slots, hash) && slots[i].used
    ensures Holed(slots, hash, i, After(|slots|, i))
  {
    hide HomeOf;
    forall s | 0 <= s < |slots| && s != i && slots[s].used
      ensures HoledAt(slots, HomeOf(hash, slots[s].key, |slots|), i, After(|slots|, i), s)
    {
    }
  }

  /** The entry at `j` is reached without the hole: the scan passes it. */
  lemma {:induction false} PassKeeps<V>(slots: seq<Slot<V>>, hash: Key -> nat, i: nat, j: nat)
    requires i < |slots| && j < |slots| && Holed(slots, hash, i, j) && i != j && slots[j].used && slots[i].used
    requires After(|slots|, j) != i
    requires Dist(|slots|, HomeOf(hash, slots[j].key, |slots|), j) < Dist(|slots|, i, j)
    ensures Holed(slots, hash, i, After(|slots|, j))
  {
    hide HomeOf;
    var n, j' := |slots|, After(|slots|, j);
    forall s | 0 <= s < n && s != i && slots[s].used
      ensures HoledAt(slots, HomeOf(hash, slots[s].key, n), i, j', s)
    {
      assert HoledAt(slots, HomeOf(hash, slots[s].key, n), i, j, s);
    }
  }

  /** The entry at `j` moves into the hole, and `j` becomes the hole. */
  lemma {:induction false} ShiftKeeps<V>(slots: seq<Slot<V>>, hash: Key -> nat, i: nat, j: nat)
    requires i < |slots| && j < |slots| && Holed(slots, hash, i, j) && i != j && slots[j].used && slots[i].used
    requires After(|slots|, j) != i
    requires Dist(|slots|, HomeOf(hash, slots[j].key, |slots|), j) >= Dist(|slots|, i, j)
    ensures Holed(slots[i := slots[j]][j := slots[i]], hash, j, After(|slots|, j))
  {
    hide HomeOf;
    var n, j' := |slots|, After(|slots|, j);
    var slots' := slots[i := slots[j]][j := slots[i]];
    assert forall k :: 0 <= k < n ==> slots'[k].used == slots[k].used;
    forall s | 0 <= s < n && s != j && slots'[s].used
      ensures HoledAt(slots', HomeOf(hash, slots'[s].key, n), j, j', s)
    {
      var from := if s == i then j else s;
      assert slots'[s] == slots[from];
      assert HoledAt(slots, HomeOf(hash, slots[from].key, n), i, j, from);
    }
  }

  lemma {:induction false} BeyondGap(n: nat, h: nat, i: nat, j: nat, s: nat)
    requires h < n && i < n && j < n && s < n && j != s && Dist(n, i, j) <= Dist(n, i, s) && Dist(n, h, i) < Dist(n, h, s)
    ensures Dist(n, h, j) < Dist(n, h, s)
  {
  }

  /** Once the scan meets an unused slot nothing needs the hole any more. */
  lemma {:induction false} HoleCloses<V>(slots: seq<Slot<V>>, hash: Key -> nat, i: nat, j: nat, empty: V)
    requires i < |slots| && j < |slots| && Holed(slots, hash, i, j) && slots[i].used && !slots[j].used
    ensures Reachable(slots[i := slots[i].(used := false, group := empty)], hash)
  {
    hide HomeOf;
    var n := |slots|;
    var slots' := slots[i := slots[i].(used := false, group := empty)];
    forall s | 0 <= s < n && slots'[s].used
      ensures ClearTo(slots', HomeOf(hash, slots'[s].key, n), s)
    {
      var h := HomeOf(hash, slots[s].key, n);
      assert HoledAt(slots, h, i, j, s);
      if Dist(n, h, i) < Dist(n, h, s) {
        BeyondGap(n, h, i, j, s);
      }
    }
  }

  /** Two used slots change places. */
  lemma {:induction false} SwapIndexes<V>(slots: seq<Slot<V>>, place: map<Key, nat>, contents: map<Key, V>, empty: V, i: nat, j: nat)
    requires Indexes(slots, place, contents, empty) && i < |slots| && j < |slots| && i != j && slots[i].used && slots[j].used
    ensures Indexes(slots[i := slots[j]][j := slots[i]], place[slots[i].key := j][slots[j].key := i], contents, empty)
  {
    var slots', place' := slots[i := slots[j]][j := slots[i]], place[slots[i].key := j][slots[j].key := i];
    assert IndexedAt(slots, place, empty, i) && IndexedAt(slots, place, empty, j);
    forall s | 0 <= s < |slots'|
      ensures IndexedAt(slots', place', empty, s)
    {
      assert IndexedAt(slots, place, empty, s);
    }
  }

  /** The hole is emptied. */
  lemma {:induction false} CloseIndexes<V>(slots: seq<Slot<V>>, place: map<Key, nat>, contents: map<Key, V>, empty: V, i: nat)
    requires Indexes(slots, place, contents, empty) && i < |slots| && slots[i].used
    ensures Indexes(slots[i := slots[i].(used := false, group := empty)], place - {slots[i].key}, contents - {slots[i].key}, empty)
    ensures slots[i].key in contents && |place - {slots[i].key}| == |place| - 1
  {
    var slots', key := slots[i := slots[i].(used := false, group := empty)], slots[i].key;
    assert IndexedAt(slots, place, empty, i);
    forall s | 0 <= s < |slots'|
      ensures IndexedAt(slots', place - {key}, empty, s)
    {
      assert IndexedAt(slots, place, empty, s);
    }
    assert (place - {key}).Keys == place.Keys - {key};
    assert (contents - {key}).Keys == contents.Keys - {key};
  }

  /** The scan goes one slot on, and never round to where it began while some slot is unused. */
  lemma {:induction false} ScanOn<V>(slots: seq<Slot<V>>, start: nat, i: nat, j: nat, gap: nat)
    requires start < |slots| && i < |slots| && j < |slots| && gap < |slots| && !slots[gap].used && slots[j].used
    requires ClearTo(slots, start, j) && Dist(|slots|, start, i) < Dist(|slots|, start, j)
    ensures var j' := After(|slots|, j);
      && ClearTo(slots, start, j') && j' != i && Dist(|slots|, start, j') == Dist(|slots|, start, j) + 1
  {
    assert Dist(|slots|, start, j) < Dist(|slots|, start, gap);
  }

  lemma {:induction false} NothingThere<V>(slots: seq<Slot<V>>, place: map<Key, nat>, contents: map<Key, V>, empty: V)
    requires Indexes(slots, place, contents, empty) && |slots| == 0
    ensures contents == map[]
  {
    assert contents.Keys == {};
  }

  lemma {:induction false} ScanStarts<V>(slots: seq<Slot<V>>, i: nat)
    requires i < |slots| && |slots| > 1 && slots[i].used
    ensures ClearTo(slots, i, After(|slots|, i)) && Dist(|slots|, i, i) < Dist(|slots|, i, After(|slots|, i))
  {
  }

  lemma {:induction false} SameUse<V>(slots: seq<Slot<V>>, slots': seq<Slot<V>>, start: nat, j: nat)
    requires |slots| == |slots'| && start < |slots| && j < |slots| && ClearTo(slots, start, j)
    requires forall k :: 0 <= k < |slots| ==> slots'[k].used == slots[k].used
    ensures ClearTo(slots', start, j)
  {
  }

  // ---------------------------------------------------------------- growing

  lemma {:induction false} FreshTable<V>(slots: seq<Slot<V>>, hash: Key -> nat, empty: V)
    requires forall s :: 0 <= s < |slots| ==> slots[s] == Slot(0, false, empty)
    ensures Indexes(slots, map[], map[], empty) && Reachable(slots, hash)
  {
  }

  lemma {:induction false} BitDoubles(n: nat)
    ensures SingleBit(64) && (SingleBit(n) ==> SingleBit(n * 2))
  {
    assert SingleBit(1) && SingleBit(2) && SingleBit(4) && SingleBit(8) && SingleBit(16) && SingleBit(32);
  }

  /** The contents of the slots before `s`. */
  ghost function FirstOf<V>(contents: map<Key, V>, place: map<Key, nat>, s: nat): map<Key, V>
    requires place.Keys == contents.Keys
  {
    map key | key in contents && place[key] < s :: contents[key]
  }

  lemma {:induction false} FirstOnes<V>(slots: seq<Slot<V>>, place: map<Key, nat>, contents: map<Key, V>, empty: V, s: nat)
    requires Indexes(slots, place, contents, empty) && s < |slots|
    ensures FirstOf(contents, place, s + 1) ==
            if slots[s].used then FirstOf(contents, place, s)[slots[s].key := slots[s].group] else FirstOf(contents, place, s)
    ensures slots[s].used ==> slots[s].key !in FirstOf(contents, place, s)
  {
    assert IndexedAt(slots, place, empty, s);
  }

  lemma {:induction false} AllOfThem<V>(slots: seq<Slot<V>>, place: map<Key, nat>, contents: map<Key, V>, empty: V)
    requires Indexes(slots, place, contents, empty)
    ensures place.Keys == contents.Keys && |place| == |contents|
    ensures FirstOf(contents, place, |slots|) == contents && FirstOf(contents, place, 0) == map[]
  {
    assert |place.Keys| == |contents.Keys|;
  }

  // ---------------------------------------------------------------- the table

  class KeyTable<V(==)> {
    const hash: Key -> nat
    const empty: V
    var slots: array<Slot<V>>
    var count: nat
    ghost var place: map<Key, nat>
    ghost var contents: map<Key, V>

    /** No slots, or a power of two of them at most three quarters used. */
    ghost predicate SizeOk()
      reads this
    {
      && (slots.Length == 0 || (slots.Length >= 64 && SingleBit(slots.Length)))
      && count == |place| && count * 4 <= slots.Length * 3
    }

    ghost predicate Valid()
      reads this, slots
    {
      SizeOk() && Indexes(slots[..], place, contents, empty) && Reachable(slots[..], hash)
    }

    constructor (hash: Key -> nat, empty: V)
      ensures Valid() && contents == map[] && this.hash == hash && this.empty == empty && fresh(slots)
    {
      this.hash, this.empty := hash, empty;
      slots := new Slot<V>[0](_ => Slot(0, false, empty));
      count, place, contents := 0, map[], map[];
    }

    /** The slot of a key, or the unused slot where its probe ends. */
    method Probe(key: Key) returns (i: nat)
      requires Valid() && slots.Length > 0
      ensures i < slots.Length
      ensures if slots[i].used then slots[i].key == key && key in contents && place[key] == i && slots[i].group == contents[key]
              else key !in contents && slots[i].group == empty && ClearTo(slots[..], HomeOf(hash, key, slots.Length), i)
    {
      hide Reachable, Indexes, HomeOf, SingleBit, ClearTo, Missed, After, Dist;
      ghost var all := slots[..];
      ghost var h := HomeOf(hash, key, slots.Length);
      HasUnused(all, place, contents, empty);
      ghost var gap :| 0 <= gap < |all| && !all[gap].used;
      i := HomeOf(hash, key, slots.Length);
      ProbeStarts(all, h, key);
      while slots[i].used && slots[i].key != key
        invariant i < slots.Length && all == slots[..]
        invariant ClearTo(all, h, i) && Missed(all, h, i, key)
        decreases slots.Length - Dist(slots.Length, h, i)
      {
        ProbeOn(all, h, i, gap, key);
        i := After(slots.Length, i);
      }
      SlotFact(all, place, contents, empty, i);
      if !slots[i].used {
        ProbeMisses(all, hash, place, contents, empty, key, i);
      }
    }

    /** Exactly the keys present are found, each with its own group. */
    method Find(key: Key) returns (r: Option<nat>)
      requires Valid()
      ensures r.Some? <==> key in contents
      ensures r.Some? ==> r.value < slots.Length && slots[r.value] == Slot(key, true, contents[key])
    {
      hide Reachable, HomeOf, SingleBit, ClearTo;
      if slots.Length == 0 {
        return None;
      }
      var i: nat := Probe(key);
      r := if slots[i].used then Some(i) else None;
    }

    /** The slot of `key`, which gets an empty group when it was absent; the table grows when it would fill up. */
    method Insert(key: Key) returns (i: nat)
      requires Valid()
      modifies this, slots
      ensures Valid() && (slots == old(slots) || fresh(slots))
      ensures contents == (if key in old(contents) then old(contents) else old(contents)[key := empty])
      ensures count == (if key in old(contents) then old(count) else old(count) + 1)
      ensures i < slots.Length && slots[i] == Slot(key, true, contents[key])
      ensures (old(count) + 1) * 4 <= old(slots.Length) * 3 ==> slots == old(slots)
      decreases if (count + 1) * 4 > slots.Length * 3 then 1 else 0, 0
    {
      hide Reachable, Indexes, HomeOf, SingleBit, ClearTo;
      if (count + 1) * 4 > slots.Length * 3 {
        Grow();
      }
      i := Probe(key);
      if !slots[i].used {
        FillKeeps(slots[..], hash, place, contents, empty, key, i);
        SlotFact(slots[..], place, contents, empty, i);
        slots[i] := slots[i].(used := true, key := key);
        count := count + 1;
        place, contents := place[key := i], contents[key := empty];
      }
    }

    /** The group in the slot that `Find` or `Insert` returned is replaced. */
    method Put(i: nat, group: V)
      requires Valid() && i < slots.Length && slots[i].used
      modifies slots, this`contents
      ensures Valid() && contents == old(contents)[slots[i].key := group]
      ensures slots[i] == old(slots[i]).(group := group)
    {
      hide Reachable, Indexes;
      PutKeeps(slots[..], hash, place, contents, empty, i, group);
      contents := contents[slots[i].key := group];
      slots[i] := slots[i].(group := group);
    }

    /** The entry at `j` and the hole at `i` change places. */
    method MoveBack(i: nat, j: nat)
      requires i < slots.Length && j < slots.Length && i != j && slots[i].used && slots[j].used
      requires Holed(slots[..], hash, i, j) && Indexes(slots[..], place, contents, empty) && After(slots.Length, j) != i
      requires Dist(slots.Length, HomeOf(hash, slots[j].key, slots.Length), j) >= Dist(slots.Length, i, j)
      modifies slots, this`place
      ensures Holed(slots[..], hash, j, After(slots.Length, j)) && Indexes(slots[..], place, contents, empty)
      ensures slots[i] == old(slots[j]) && slots[j] == old(slots[i]) && |place| == old(|place|)
      ensures forall k :: 0 <= k < slots.Length ==> slots[k].used == old(slots[k].used)
    {
      hide Reachable, Indexes, HomeOf, ClearTo, Holed, After, Dist;
      ghost var before := slots[..];
      ShiftKeeps(before, hash, i, j);
      SwapIndexes(before, place, contents, empty, i, j);
      SlotFact(before, place, contents, empty, i);
      SlotFact(before, place, contents, empty, j);
      place := place[slots[i].key := j][slots[j].key := i];
      slots[i], slots[j] := slots[j], slots[i];
      assert slots[..] == before[i := before[j]][j := before[i]];
    }

    /** Entries after slot `start` move back as far as they must, and the slot left over is emptied. */
    method Vacate(start: nat)
      requires Indexes(slots[..], place, contents, empty) && Reachable(slots[..], hash)
      requires 1 < slots.Length && |place| < slots.Length && start < slots.Length && slots[start].used
      modifies slots, this`place, this`contents
      ensures Indexes(slots[..], place, contents, empty) && Reachable(slots[..], hash)
      ensures contents == old(contents) - {old(slots[start].key)} && |place| == old(|place|) - 1
    {
      hide Reachable, Indexes, HomeOf, ClearTo, Holed, After, Dist;
      HasUnused(slots[..], place, contents, empty);
      ghost var gap :| 0 <= gap < slots.Length && !slots[gap].used;
      ghost var key := slots[start].key;
      HoleOpens(slots[..], hash, start);
      ScanStarts(slots[..], start);
      var i: nat, j: nat := start, After(slots.Length, start);
      while slots[j].used
        invariant i < slots.Length && j < slots.Length && slots[i].used && slots[i].key == key && !slots[gap].used
        invariant Holed(slots[..], hash, i, j) && Indexes(slots[..], place, contents, empty)
        invariant ClearTo(slots[..], start, j) && Dist(slots.Length, start, i) < Dist(slots.Length, start, j)
        invariant contents == old(contents) && |place| == old(|place|)
        decreases slots.Length - Dist(slots.Length, start, j)
      {
        ghost var before := slots[..];
        ScanOn(before, start, i, j, gap);
        var home := HomeOf(hash, slots[j].key, slots.Length);
        if Dist(slots.Length, home, j) >= Dist(slots.Length, i, j) {
          MoveBack(i, j);
          SameUse(before, slots[..], start, After(slots.Length, j));
          i := j;
        } else {
          PassKeeps(before, hash, i, j);
        }
        j := After(slots.Length, j);
      }
      HoleCloses(slots[..], hash, i, j, empty);
      CloseIndexes(slots[..], place, contents, empty, i);
      slots[i] := slots[i].(used := false, group := empty);
      place, contents := place - {key}, contents - {key};
    }

    /** The key and its group are gone; later entries move back so that none is cut off. */
    method Erase(key: Key)
      requires Valid()
      modifies slots, this`count, this`place, this`contents
      ensures Valid() && contents == old(contents) - {key}
      ensures count == (if key in old(contents) then old(count) - 1 else old(count))
    {
      hide Reachable, Indexes, HomeOf, SingleBit, ClearTo;
      if slots.Length == 0 {
        NothingThere(slots[..], place, contents, empty);
        return;
      }
      var i: nat := Probe(key);
      if slots[i].used {
        CloseIndexes(slots[..], place, contents, empty, i);
        count := count - 1;
        Vacate(i);
      } else {
        assert contents - {key} == contents;
      }
    }

    method Clear()
      requires Valid()
      modifies slots, this`count, this`place, this`contents
      ensures Valid() && contents == map[] && count == 0
    {
      hide SingleBit, HomeOf;
      for s := 0 to slots.Length
        invariant forall k :: 0 <= k < s ==> !slots[k].used && slots[k].group == empty
      {
        slots[s] := slots[s].(used := false, group := empty);
      }
      count, place, contents := 0, map[], map[];
    }

    /** What moving one entry into a grown table does. */
    method Restore(key: Key, group: V)
      requires Valid() && (count + 1) * 4 <= slots.Length * 3 && key !in contents
      modifies this, slots
      ensures Valid() && slots == old(slots) && contents == old(contents)[key := group] && count == old(count) + 1
      decreases 0, 1
    {
      hide Reachable, Indexes, HomeOf, SingleBit, ClearTo;
      var i := Insert(key);
      Put(i, group);
    }

    /** Twice the slots, the same contents. Inserting into the new table never grows it again. */
    method Grow()
      requires Valid() && (count + 1) * 4 > slots.Length * 3
      modifies this
      ensures Valid() && fresh(slots) && contents == old(contents) && count == old(count)
      ensures (count + 1) * 4 <= slots.Length * 3
      decreases 0, 2
    {
      hide Reachable, Indexes, HomeOf, SingleBit, ClearTo;
      var previous := slots;
      ghost var was, wasPlace, all := contents, place, slots[..];
      AllOfThem(all, place, contents, empty);
      var fresher := new Slot<V>[if previous.Length == 0 then 64 else previous.Length * 2](_ => Slot(0, false, empty));
      FreshTable(fresher[..], hash, empty);
      BitDoubles(previous.Length);
      slots := fresher;
      count, place, contents := 0, map[], map[];
      ghost var size := slots.Length;
      var s := 0;
      while s < previous.Length
        invariant s <= previous.Length && previous[..] == all && previous != slots && fresh(slots) && slots.Length == size
        invariant Valid() && count <= s
        invariant contents == FirstOf(was, wasPlace, s)
      {
        SlotFact(all, wasPlace, was, empty, s);
        FirstOnes(all, wasPlace, was, empty, s);
        if previous[s].used {
          Restore(previous[s].key, previous[s].group);
        }
        s := s + 1;
      }
      AllOfThem(slots[..], place, contents, empty);
    }
  }
}
