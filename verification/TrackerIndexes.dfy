/**
 * The tracker's indexes of its items. Which items are live and how they are named determines every
 * index: the open list, each key space's order and each key's group.
 */
module TrackerIndexes {
  import opened Options
  import opened KeyTables

  datatype Name = Name(space: nat, key: Key)

  /** An item of the pool; a free one has no record. Items are known by their place in the pool. */
  datatype Item = Item(sequence: nat, record: Option<nat>, names: seq<Name>)

  datatype Space = Space(keys: map<Key, seq<nat>>, order: seq<nat>)

  // ---------------------------------------------------------------- names

  /** The key an item goes by in a key space. */
  function KeyIn(names: seq<Name>, space: nat): Option<Key> {
    if names == [] then None
    else if names[0].space == space then Some(names[0].key)
    else KeyIn(names[1..], space)
  }

  /** At most one name in each key space. */
  ghost predicate OnePerSpace(names: seq<Name>) {
    forall i, j :: 0 <= i < j < |names| ==> names[i].space != names[j].space
  }

  lemma {:induction false} KeyInIsName(names: seq<Name>, i: nat)
    requires OnePerSpace(names) && i < |names|
    ensures KeyIn(names, names[i].space) == Some(names[i].key)
  {
    if i > 0 {
      assert OnePerSpace(names[1..]);
      KeyInIsName(names[1..], i - 1);
    }
  }

  /** A space nobody names has no key. */
  lemma {:induction false} NoKeyIn(names: seq<Name>, space: nat)
    ensures KeyIn(names, space).None? <==> forall i :: 0 <= i < |names| ==> names[i].space != space
  {
    if names != [] {
      NoKeyIn(names[1..], space);
      assert forall i :: 1 <= i < |names| ==> names[i] == names[1..][i - 1];
    }
  }

  lemma {:induction false} KeyInAppend(names: seq<Name>, name: Name, space: nat)
    ensures KeyIn(names + [name], space) ==
            if KeyIn(names, space).Some? then KeyIn(names, space) else if name.space == space then Some(name.key) else None
  {
    if names != [] {
      assert (names + [name])[1..] == names[1..] + [name];
      KeyInAppend(names[1..], name, space);
    } else {
      assert [name][1..] == [];
    }
  }

  lemma {:induction false} KeyInRemove(names: seq<Name>, i: nat, space: nat)
    requires OnePerSpace(names) && i < |names|
    ensures KeyIn(names[..i] + names[i + 1..], space) == if space == names[i].space then None else KeyIn(names, space)
  {
    var rest := names[..i] + names[i + 1..];
    if i == 0 {
      assert rest == names[1..];
      NoKeyIn(rest, names[0].space);
      assert forall j :: 0 <= j < |rest| ==> rest[j] == names[j + 1];
    } else {
      assert rest[1..] == names[1..][..i - 1] + names[1..][i..];
      assert names[1..][i..] == names[i + 1..];
      assert OnePerSpace(names[1..]);
      KeyInRemove(names[1..], i - 1, space);
    }
  }

  /** The names without the one in `space`. */
  function Dropped(names: seq<Name>, space: nat): (r: seq<Name>) {
    if names == [] then [] else if names[0].space == space then names[1..] else [names[0]] + Dropped(names[1..], space)
  }

  /** The names once an item goes by `key` in `space`: as they are if it does already, otherwise the new name comes last. */
  function Renamed(names: seq<Name>, space: nat, key: Key): (r: seq<Name>) {
    if KeyIn(names, space) == Some(key) then names else Dropped(names, space) + [Name(space, key)]
  }

  lemma {:induction false} DroppedAt(names: seq<Name>, i: nat)
    requires i < |names| && forall j :: 0 <= j < i ==> names[j].space != names[i].space
    ensures Dropped(names, names[i].space) == names[..i] + names[i + 1..]
    ensures KeyIn(names, names[i].space) == Some(names[i].key)
  {
    if i > 0 {
      var rest := names[1..];
      assert forall j :: 0 <= j < i - 1 ==> rest[j] == names[j + 1];
      DroppedAt(rest, i - 1);
      SplitHead(names, i);
    }
  }

  lemma {:induction false} NothingDropped(names: seq<Name>, space: nat)
    requires KeyIn(names, space).None?
    ensures Dropped(names, space) == names
  {
    if names != [] {
      NothingDropped(names[1..], space);
      assert names == [names[0]] + names[1..];
    }
  }

  /** Where the name of an item in `space` stands. */
  method FindName(names: seq<Name>, space: nat) returns (at: Option<nat>)
    ensures match at
            case Some(i) => i < |names| && names[i].space == space && KeyIn(names, space) == Some(names[i].key) &&
                            names[..i] + names[i + 1..] == Dropped(names, space)
            case None => KeyIn(names, space).None? && Dropped(names, space) == names
  {
    for i := 0 to |names|
      invariant forall j :: 0 <= j < i ==> names[j].space != space
    {
      if names[i].space == space {
        DroppedAt(names, i);
        return Some(i);
      }
    }
    NoKeyIn(names, space);
    NothingDropped(names, space);
    return None;
  }

  /** The item differs only in that it goes by `key` in `space`, or by nothing there. */
  ghost predicate Rekeyed(before: Item, after: Item, space: nat, key: Option<Key>) {
    && after.sequence == before.sequence && after.record == before.record
    && forall s: nat :: KeyIn(after.names, s) == if s == space then key else KeyIn(before.names, s)
  }

  // ---------------------------------------------------------------- ascending lists of items

  ghost predicate Ascends(pool: seq<Item>, items: seq<nat>) {
    && (forall j :: 0 <= j < |items| ==> items[j] < |pool|)
    && forall j, k :: 0 <= j < k < |items| ==> Older(pool, items[j], items[k])
  }

  ghost predicate Older(pool: seq<Item>, p: nat, q: nat) {
    p < |pool| && q < |pool| && pool[p].sequence < pool[q].sequence
  }

  /** `std::upper_bound`: how many items have sequence numbers up to `limit`. */
  function UpperBound(pool: seq<Item>, items: seq<nat>, limit: nat): (u: nat)
    requires Ascends(pool, items)
    ensures u <= |items|
    ensures forall j :: 0 <= j < u ==> pool[items[j]].sequence <= limit
    ensures forall j :: u <= j < |items| ==> pool[items[j]].sequence > limit
  {
    if items == [] || pool[items[|items| - 1]].sequence <= limit then
      LastIsYoungest(pool, items);
      |items|
    else UpperBound(pool, items[..|items| - 1], limit)
  }

  lemma {:induction false} LastIsYoungest(pool: seq<Item>, items: seq<nat>)
    requires Ascends(pool, items)
    ensures forall j :: 0 <= j < |items| ==> pool[items[j]].sequence <= pool[items[|items| - 1]].sequence
  {
    forall j | 0 <= j < |items|
      ensures pool[items[j]].sequence <= pool[items[|items| - 1]].sequence
    {
      assert j < |items| - 1 ==> Older(pool, items[j], items[|items| - 1]);
    }
  }

  /** `insert_ordered`, and what `Group::insert` does to an ascending list. */
  function Inserted(pool: seq<Item>, items: seq<nat>, p: nat): (r: seq<nat>)
    requires Ascends(pool, items) && p < |pool|
  {
    var u := UpperBound(pool, items, pool[p].sequence);
    items[..u] + [p] + items[u..]
  }

  lemma {:induction false} InsertedAscends(pool: seq<Item>, items: seq<nat>, p: nat)
    requires Ascends(pool, items) && p < |pool|
    requires forall q :: q in items ==> pool[q].sequence != pool[p].sequence
    ensures Ascends(pool, Inserted(pool, items, p))
    ensures forall q: nat :: q in Inserted(pool, items, p) <==> q == p || q in items
  {
    hide UpperBound, Ascends, Older;
    var u := UpperBound(pool, items, pool[p].sequence);
    var r := Inserted(pool, items, p);
    SameMembers(items, u, p);
    forall j, k | 0 <= j < k < |r|
      ensures Older(pool, r[j], r[k]) && r[j] < |pool| && r[k] < |pool|
    {
      InsertedPlace(pool, items, p, u, j);
      InsertedPlace(pool, items, p, u, k);
      if k < u {
        AscendsAt(pool, items, j, k);
      } else if j < u && u < k && j < k - 1 {
        AscendsAt(pool, items, j, k - 1);
      } else if u < j {
        AscendsAt(pool, items, j - 1, k - 1);
      }
    }
    forall j | 0 <= j < |r|
      ensures r[j] < |pool|
    {
      InsertedPlace(pool, items, p, u, j);
    }
    AllOlder(pool, r);
  }

  lemma {:induction false} AllOlder(pool: seq<Item>, items: seq<nat>)
    requires forall j :: 0 <= j < |items| ==> items[j] < |pool|
    requires forall j, k :: 0 <= j < k < |items| ==> Older(pool, items[j], items[k])
    ensures Ascends(pool, items)
  {
  }

  lemma {:induction false} SameMembers(items: seq<nat>, u: nat, p: nat)
    requires u <= |items|
    ensures forall q: nat :: q in items[..u] + [p] + items[u..] <==> q == p || q in items
  {
    assert items == items[..u] + items[u..];
  }

  lemma {:induction false} InsertedPlace(pool: seq<Item>, items: seq<nat>, p: nat, u: nat, k: nat)
    requires Ascends(pool, items) && p < |pool| && k <= |items| && u == UpperBound(pool, items, pool[p].sequence)
    requires forall q :: q in items ==> pool[q].sequence != pool[p].sequence
    ensures var r := items[..u] + [p] + items[u..];
      && r[k] == (if k < u then items[k] else if k == u then p else items[k - 1]) && r[k] < |pool|
      && (k < u ==> Older(pool, r[k], p)) && (k > u ==> Older(pool, p, r[k]))
  {
    assert k < u ==> items[k] in items;
  }

  /** `std::lower_bound`: how many items have smaller sequence numbers. */
  function LowerBound(pool: seq<Item>, items: seq<nat>, limit: nat): (u: nat)
    requires Ascends(pool, items)
    ensures u <= |items|
    ensures forall j :: 0 <= j < u ==> pool[items[j]].sequence < limit
    ensures forall j :: u <= j < |items| ==> pool[items[j]].sequence >= limit
  {
    if limit == 0 then 0 else UpperBound(pool, items, limit - 1)
  }

  /** `erase_ordered`: look where the item's sequence number belongs. */
  function EraseOrdered(pool: seq<Item>, items: seq<nat>, p: nat): (r: seq<nat>)
    requires Ascends(pool, items) && p < |pool|
  {
    var u := LowerBound(pool, items, pool[p].sequence);
    if u < |items| && items[u] == p then items[..u] + items[u + 1..] else items
  }

  /** Looking only there finds the item wherever it is. */
  lemma {:induction false} EraseOrderedRemoves(pool: seq<Item>, items: seq<nat>, p: nat)
    requires Ascends(pool, items) && p < |pool|
    ensures EraseOrdered(pool, items, p) == Removed(items, p)
  {
    var u := LowerBound(pool, items, pool[p].sequence);
    var r := EraseOrdered(pool, items, p);
    if p in items {
      var i :| 0 <= i < |items| && items[i] == p;
      BoundFinds(pool, items, i);
      RemovedAtIs(pool, items, i);
    } else {
      RemovedAbsent(items, p);
    }
  }

  lemma {:induction false} BoundFinds(pool: seq<Item>, items: seq<nat>, i: nat)
    requires Ascends(pool, items) && i < |items|
    ensures LowerBound(pool, items, pool[items[i]].sequence) == i
  {
    hide LowerBound;
    var u := LowerBound(pool, items, pool[items[i]].sequence);
    if u < i {
      AscendsAt(pool, items, u, i);
    }
  }

  lemma {:induction false} AscendsAt(pool: seq<Item>, items: seq<nat>, j: nat, k: nat)
    requires Ascends(pool, items) && j < k < |items|
    ensures Older(pool, items[j], items[k])
  {
  }

  lemma {:induction false} RemovedAtIs(pool: seq<Item>, items: seq<nat>, i: nat)
    requires Ascends(pool, items) && i < |items|
    ensures Removed(items, items[i]) == items[..i] + items[i + 1..]
  {
    hide Ascends;
    if i > 0 {
      AscendsAt(pool, items, 0, i);
      AscendingTail(pool, items);
      RemovedAtIs(pool, items[1..], i - 1);
      SplitHead(items, i);
    }
  }

  lemma {:induction false} SplitHead<T>(items: seq<T>, i: nat)
    requires 0 < i < |items|
    ensures [items[0]] + (items[1..][..i - 1] + items[1..][i..]) == items[..i] + items[i + 1..]
  {
    assert items[1..][..i - 1] == items[1..i] && items[1..][i..] == items[i + 1..];
  }

  lemma {:induction false} RemovedAbsent(items: seq<nat>, p: nat)
    requires p !in items
    ensures Removed(items, p) == items
  {
    if items != [] {
      RemovedAbsent(items[1..], p);
      assert items == [items[0]] + items[1..];
    }
  }

  /** What `erase_ordered`, and `Group::erase`, do to an ascending list. */
  function Removed(items: seq<nat>, p: nat): (r: seq<nat>) {
    if items == [] then [] else if items[0] == p then items[1..] else [items[0]] + Removed(items[1..], p)
  }

  lemma {:induction false} RemovedAscends(pool: seq<Item>, items: seq<nat>, p: nat)
    requires Ascends(pool, items)
    ensures Ascends(pool, Removed(items, p))
    ensures forall q: nat :: q in Removed(items, p) <==> q in items && q != p
  {
    if items != [] {
      var rest := items[1..];
      forall j, k | 0 <= j < k < |rest|
        ensures Older(pool, rest[j], rest[k])
      {
        assert Older(pool, items[j + 1], items[k + 1]);
      }
      assert items == [items[0]] + rest;
      RemovedAscends(pool, rest, p);
      if items[0] == p {
        HeadIsOnce(pool, items);
      } else {
        HeadIsOldest(pool, items, Removed(rest, p));
      }
    }
  }

  lemma {:induction false} HeadIsOnce(pool: seq<Item>, items: seq<nat>)
    requires Ascends(pool, items) && items != []
    ensures items[0] !in items[1..]
  {
    forall j | 0 <= j < |items| - 1
      ensures items[1..][j] != items[0]
    {
      assert Older(pool, items[0], items[j + 1]);
    }
  }

  lemma {:induction false} HeadIsOldest(pool: seq<Item>, items: seq<nat>, rest: seq<nat>)
    requires Ascends(pool, items) && items != [] && Ascends(pool, rest) && forall q :: q in rest ==> q in items[1..]
    ensures Ascends(pool, [items[0]] + rest)
  {
    var r := [items[0]] + rest;
    forall j, k | 0 <= j < k < |r|
      ensures Older(pool, r[j], r[k])
    {
      if j == 0 {
        assert r[k] == rest[k - 1] && rest[k - 1] in items[1..];
        var m :| 0 <= m < |items| - 1 && items[1..][m] == r[k];
        assert Older(pool, items[0], items[m + 1]);
      } else {
        assert Older(pool, rest[j - 1], rest[k - 1]);
      }
    }
  }

  /** Two ascending lists with the same members are the same list. */
  lemma {:induction false} AscendingListIsUnique(pool: seq<Item>, a: seq<nat>, b: seq<nat>)
    requires Ascends(pool, a) && Ascends(pool, b) && forall q: nat :: q in a <==> q in b
    ensures a == b
  {
    NobodyIn(a, b);
    if a != [] {
      assert a[0] in b && b != [] && b[0] in a;
      SameOldest(pool, a, b);
      AscendingTail(pool, a);
      AscendingTail(pool, b);
      assert a == [a[0]] + a[1..] && b == [b[0]] + b[1..];
      AscendingListIsUnique(pool, a[1..], b[1..]);
    }
  }

  lemma {:induction false} NobodyIn(a: seq<nat>, b: seq<nat>)
    requires forall q: nat :: q in b ==> q in a
    ensures a == [] ==> b == []
  {
    if b != [] {
      assert b[0] in b;
    }
  }

  lemma {:induction false} SameOldest(pool: seq<Item>, a: seq<nat>, b: seq<nat>)
    requires Ascends(pool, a) && Ascends(pool, b) && a != [] && b != [] && a[0] in b && b[0] in a
    ensures a[0] == b[0]
  {
    var j :| 0 <= j < |b| && b[j] == a[0];
    var k :| 0 <= k < |a| && a[k] == b[0];
    assert j > 0 ==> Older(pool, b[0], b[j]);
    assert k > 0 ==> Older(pool, a[0], a[k]);
  }

  lemma {:induction false} AscendingTail(pool: seq<Item>, a: seq<nat>)
    requires Ascends(pool, a) && a != []
    ensures Ascends(pool, a[1..]) && forall q: nat :: q in a[1..] <==> q in a && q != a[0]
  {
    var rest := a[1..];
    assert a == [a[0]] + rest;
    HeadIsOnce(pool, a);
    forall j, k | 0 <= j < k < |rest|
      ensures Older(pool, rest[j], rest[k])
    {
      assert Older(pool, a[j + 1], a[k + 1]);
    }
  }

  // ---------------------------------------------------------------- the indexes agree

  ghost function GroupOf(keys: map<Key, seq<nat>>, key: Key): seq<nat> {
    if key in keys then keys[key] else []
  }

  /** The order of space `s` lists exactly the items with a name there, oldest first. */
  ghost predicate OrderOk(pool: seq<Item>, order: seq<nat>, s: nat) {
    Ascends(pool, order) && forall p: nat :: p in order <==> p < |pool| && KeyIn(pool[p].names, s).Some?
  }

  /** The group of `key` lists exactly the items that go by it, oldest first; empty groups are not kept. */
  ghost predicate GroupOk(pool: seq<Item>, keys: map<Key, seq<nat>>, s: nat, key: Key) {
    && Ascends(pool, GroupOf(keys, key)) && (key in keys ==> keys[key] != [])
    && forall p: nat :: p in GroupOf(keys, key) <==> p < |pool| && KeyIn(pool[p].names, s) == Some(key)
  }

  ghost predicate SpaceOk(pool: seq<Item>, space: Space, s: nat) {
    OrderOk(pool, space.order, s) && forall key: Key :: GroupOk(pool, space.keys, s, key)
  }

  /** One name per space, in spaces that exist. */
  ghost predicate NamesOk(item: Item, spaces: nat) {
    OnePerSpace(item.names) && forall i :: 0 <= i < |item.names| ==> item.names[i].space < spaces
  }

  ghost predicate Agree(pool: seq<Item>, spaces: seq<Space>) {
    && (forall s :: 0 <= s < |spaces| ==> SpaceOk(pool, spaces[s], s))
    && (forall p :: 0 <= p < |pool| ==> NamesOk(pool[p], |spaces|))
  }

  /** A space without the name of item `p` under `key`. */
  function Unlisted(pool: seq<Item>, space: Space, p: nat, key: Key): Space
    requires p < |pool| && Ascends(pool, space.order)
  {
    var group := Removed(if key in space.keys then space.keys[key] else [], p);
    Space(if key !in space.keys then space.keys else if group == [] then space.keys - {key} else space.keys[key := group],
          EraseOrdered(pool, space.order, p))
  }

  /** A space with a name of item `p` under `key`. */
  ghost function Listed(pool: seq<Item>, space: Space, p: nat, key: Key): Space
    requires p < |pool| && Ascends(pool, space.order) && Ascends(pool, GroupOf(space.keys, key))
  {
    Space(space.keys[key := Inserted(pool, GroupOf(space.keys, key), p)], Inserted(pool, space.order, p))
  }

  /** Lists ascend by sequence numbers alone. */
  lemma {:induction false} SameSequences(pool: seq<Item>, pool': seq<Item>, items: seq<nat>)
    requires |pool'| == |pool| && forall p :: 0 <= p < |pool| ==> pool'[p].sequence == pool[p].sequence
    ensures Ascends(pool', items) <==> Ascends(pool, items)
  {
    if Ascends(pool, items) {
      forall j, k | 0 <= j < k < |items|
        ensures Older(pool', items[j], items[k])
      {
        assert Older(pool, items[j], items[k]);
      }
    }
    if Ascends(pool', items) {
      forall j, k | 0 <= j < k < |items|
        ensures Older(pool, items[j], items[k])
      {
        assert Older(pool', items[j], items[k]);
      }
    }
  }

  /** A space in which an item keeps its key does not notice that the item's names change elsewhere. */
  lemma {:induction false} OtherSpaceKeeps(pool: seq<Item>, space: Space, s: nat, p: nat, item: Item)
    requires SpaceOk(pool, space, s) && p < |pool| && item.sequence == pool[p].sequence
    requires KeyIn(item.names, s) == KeyIn(pool[p].names, s)
    ensures SpaceOk(pool[p := item], space, s)
  {
    var pool' := pool[p := item];
    SameSequences(pool, pool', space.order);
    forall key: Key
      ensures GroupOk(pool', space.keys, s, key)
    {
      assert GroupOk(pool, space.keys, s, key);
      SameSequences(pool, pool', GroupOf(space.keys, key));
    }
  }

  /** The group of any key once item `p` left the group of `key`. */
  lemma {:induction false} UnlistedGroup(pool: seq<Item>, space: Space, p: nat, key: Key, k: Key)
    requires p < |pool| && Ascends(pool, space.order)
    ensures var keys' := Unlisted(pool, space, p, key).keys;
      && GroupOf(keys', k) == (if k == key then Removed(GroupOf(space.keys, key), p) else GroupOf(space.keys, k))
      && (k in keys' && (k in space.keys ==> space.keys[k] != []) ==> keys'[k] != [])
  {
  }

  /** Taking away the name of one item in one space. */
  lemma {:induction false} UnlistKeeps(pool: seq<Item>, space: Space, s: nat, p: nat, key: Key, item: Item)
    requires SpaceOk(pool, space, s) && p < |pool| && KeyIn(pool[p].names, s) == Some(key)
    requires Rekeyed(pool[p], item, s, None)
    ensures SpaceOk(pool[p := item], Unlisted(pool, space, p, key), s)
  {
    hide Ascends, KeyIn, Removed, EraseOrdered;
    var pool', space' := pool[p := item], Unlisted(pool, space, p, key);
    EraseOrderedRemoves(pool, space.order, p);
    RemovedAscends(pool, space.order, p);
    SameSequences(pool, pool', space'.order);
    forall k: Key
      ensures GroupOk(pool', space'.keys, s, k)
    {
      assert GroupOk(pool, space.keys, s, k);
      UnlistGroupKeeps(pool, space, s, p, key, item, k);
    }
  }

  lemma {:induction false} UnlistGroupKeeps(pool: seq<Item>, space: Space, s: nat, p: nat, key: Key, item: Item, k: Key)
    requires Ascends(pool, space.order) && GroupOk(pool, space.keys, s, k) && p < |pool| && KeyIn(pool[p].names, s) == Some(key)
    requires Rekeyed(pool[p], item, s, None)
    ensures GroupOk(pool[p := item], Unlisted(pool, space, p, key).keys, s, k)
  {
    hide Ascends, KeyIn, Removed, Unlisted;
    var pool', keys' := pool[p := item], Unlisted(pool, space, p, key).keys;
    UnlistedGroup(pool, space, p, key, k);
    RemovedAscends(pool, GroupOf(space.keys, k), p);
    SameSequences(pool, pool', GroupOf(keys', k));
  }

  /** Giving an item without a name in one space a name there. */
  lemma {:induction false} ListKeeps(pool: seq<Item>, space: Space, s: nat, p: nat, key: Key, item: Item)
    requires SpaceOk(pool, space, s) && p < |pool| && KeyIn(pool[p].names, s).None? && Rekeyed(pool[p], item, s, Some(key))
    requires forall q: nat :: q < |pool| && q != p && KeyIn(pool[q].names, s).Some? ==> pool[q].sequence != pool[p].sequence
    ensures Ascends(pool, GroupOf(space.keys, key)) && SpaceOk(pool[p := item], Listed(pool, space, p, key), s)
  {
    hide Ascends, KeyIn, Inserted;
    assert GroupOk(pool, space.keys, s, key);
    var pool', space' := pool[p := item], Listed(pool, space, p, key);
    InsertedAscends(pool, space.order, p);
    InsertedAscends(pool, GroupOf(space.keys, key), p);
    SameSequences(pool, pool', space'.order);
    forall k: Key
      ensures GroupOk(pool', space'.keys, s, k)
    {
      assert GroupOk(pool, space.keys, s, k);
      SameSequences(pool, pool', GroupOf(space'.keys, k));
    }
  }
}
