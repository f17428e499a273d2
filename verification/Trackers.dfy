/** Keyed lifetimes: items opened under a key, named, renamed and ended; all indexes of them agree throughout. */
module Trackers {
  import opened Options
  import opened KeyTables
  import opened TrackerIndexes
  import opened TrackerState

  const MAX_SPACES: nat := 0xFFFF_FFFF

  /** Item `p` goes by `key` in `space`. */
  ghost predicate GoesBy(pool: seq<Item>, p: nat, space: nat, key: Key) {
    p < |pool| && KeyIn(pool[p].names, space) == Some(key)
  }

  /** The item at `p` is the only one that changed, and only in the name it has in `space`. */
  ghost predicate OnlyRekeyed(pool: seq<Item>, pool': seq<Item>, p: nat, space: nat, key: Option<Key>) {
    p < |pool| && |pool'| == |pool| && pool' == pool[p := pool'[p]] && Rekeyed(pool[p], pool'[p], space, key)
  }

  /** `group` lists the items that go by `key` in `space`, oldest first. */
  ghost predicate IsGroup(pool: seq<Item>, space: nat, key: Key, group: seq<nat>) {
    Ascends(pool, group) && forall p: nat :: p in group <==> GoesBy(pool, p, space, key)
  }

  /** `items` lists the items with a name in `space`, oldest first. */
  ghost predicate IsOrder(pool: seq<Item>, space: nat, items: seq<nat>) {
    Ascends(pool, items) && forall p: nat :: p in items <==> p < |pool| && KeyIn(pool[p].names, space).Some?
  }

  /** `out` lists the items that go by `key` in `space` and are not among the moved ones, oldest first. */
  ghost predicate IsEvicted(pool: seq<Item>, space: nat, key: Key, moved: seq<nat>, out: seq<nat>) {
    Ascends(pool, out) && forall p: nat :: p in out <==> GoesBy(pool, p, space, key) && p !in moved
  }

  /** Exactly the items in `moving` changed, and only in their names: none in `from` unless that is `to`, and `target` in `to`. */
  ghost predicate Shifted(pool: seq<Item>, pool': seq<Item>, moving: seq<nat>, from: Option<nat>, to: nat, target: Key) {
    |pool'| == |pool| && forall p: nat :: p < |pool| ==> ShiftedAt(pool[p], pool'[p], p in moving, from, to, target)
  }

  ghost predicate ShiftedAt(before: Item, after: Item, moves: bool, from: Option<nat>, to: nat, target: Key) {
    if moves then
      && after.sequence == before.sequence && after.record == before.record
      && forall s: nat :: KeyIn(after.names, s) == if s == to then Some(target) else if from == Some(s) then None else KeyIn(before.names, s)
    else after == before
  }

  /** The `count` oldest items with a name in `space`, or all of them if there are fewer. */
  ghost predicate IsOldest(pool: seq<Item>, space: nat, count: nat, items: seq<nat>) {
    && Ascends(pool, items) && |items| <= count
    && (forall p: nat :: p in items ==> p < |pool| && KeyIn(pool[p].names, space).Some?)
    && forall p: nat :: p < |pool| && KeyIn(pool[p].names, space).Some? && p !in items ==>
         |items| == count && forall q: nat :: q in items ==> Older(pool, q, p)
  }

  /** Records only ever go from some fate to being ended. */
  ghost predicate Settles(fates: seq<Fate>, fates': seq<Fate>) {
    |fates'| == |fates| && forall r :: 0 <= r < |fates| ==> fates'[r] == fates[r] || (fates[r].Held? && fates'[r].Ended?)
  }

  /** The pool with a new item at `p`, which was free or did not exist. */
  ghost predicate Joins(pool: seq<Item>, pool': seq<Item>, p: nat, item: Item) {
    if p < |pool| then !Live(pool, p) && pool' == pool[p := item] else p == |pool| && pool' == pool + [item]
  }

  class Tracker {
    var sequence: nat
    var openItems: seq<nat>
    var spaces: seq<Space>
    var pool: seq<Item>
    var free: seq<nat>
    var moved: seq<nat>
    var doomed: seq<nat>
    // The writer: how many records it began, and its end operations in order.
    var begun: nat
    var endings: seq<Ending>
    ghost var fates: seq<Fate>

    /** What holds between any two steps. */
    ghost predicate Consistent()
      reads this
    {
      && Agree(pool, spaces) && PoolOk(pool, openItems, free, sequence)
      && FatesOk(pool, fates, endings) && |fates| == begun
    }

    /** What holds between calls: no live item is without a name, and every record begun got its item. */
    ghost predicate Valid()
      reads this
    {
      && Consistent()
      && (forall p: nat :: Live(pool, p) ==> pool[p].names != [])
      && (forall r :: 0 <= r < |fates| ==> !fates[r].Beginning?)
    }

    constructor ()
      ensures Valid() && pool == [] && spaces == [] && endings == [] && begun == 0
    {
      sequence, openItems, spaces, pool, free, moved, doomed, begun, endings := 0, [], [], [], [], [], [], 0, [];
      fates := [];
    }

    // -------------------------------------------------------------- steps on one item

    /** The item loses its name in `space`, if it has one. */
    method Unname(p: nat, space: nat)
      requires Consistent() && Live(pool, p)
      modifies this`pool, this`spaces
      ensures Consistent() && |spaces| == old(|spaces|)
      ensures OnlyRekeyed(old(pool), pool, p, space, None) && pool[p].names == Dropped(old(pool[p].names), space)
      ensures |pool[p].names| == old(|pool[p].names|) - (if KeyIn(old(pool[p].names), space).Some? then 1 else 0)
    {
      hide Agree, PoolOk, FatesOk, KeyIn, SpaceOk, Ascends, NamesOk, Unlisted, Dropped;
      var at := FindName(pool[p].names, space);
      if at.Some? {
        var i := at.value;
        var names := pool[p].names;
        var item := pool[p].(names := names[..i] + names[i + 1..]);
        UnnameKeeps(pool, spaces, p, i);
        RenameKeeps(pool, openItems, free, sequence, fates, endings, p, item);
        spaces := spaces[space := Unlisted(pool, spaces[space], p, names[i].key)];
        pool := pool[p := item];
      }
    }

    /** The item goes by `key` in `space` from now on, and by no other key there. */
    method Rename(p: nat, space: nat, key: Key)
      requires Consistent() && Live(pool, p) && space < |spaces|
      modifies this`pool, this`spaces
      ensures Consistent() && |spaces| == old(|spaces|)
      ensures OnlyRekeyed(old(pool), pool, p, space, Some(key)) && pool[p].names == Renamed(old(pool[p].names), space, key)
    {
      hide Agree, PoolOk, FatesOk, KeyIn, SpaceOk, Ascends, NamesOk, Dropped;
      var at := FindName(pool[p].names, space);
      if at.Some? {
        if pool[p].names[at.value].key == key {
          return;
        }
        Unname(p, space);
      }
      var item := pool[p].(names := pool[p].names + [Name(space, key)]);
      NameKeeps(pool, spaces, openItems, free, sequence, p, space, key);
      RenameKeeps(pool, openItems, free, sequence, fates, endings, p, item);
      var group := if key in spaces[space].keys then spaces[space].keys[key] else [];
      spaces := spaces[space := Space(spaces[space].keys[key := Inserted(pool, group, p)], Inserted(pool, spaces[space].order, p))];
      pool := pool[p := item];
    }

    /** The item's record is ended, its names are gone, and it is free for reuse. */
    method End(p: nat, status: Status)
      requires Consistent() && Live(pool, p)
      modifies this`pool, this`spaces, this`openItems, this`free, this`endings, this`fates
      ensures Consistent() && |spaces| == old(|spaces|)
      ensures pool == old(pool)[p := Freed(old(pool[p]))] && free == old(free) + [p]
      ensures endings == old(endings) + [Ending(old(pool[p].record.value), status)]
      ensures fates == old(fates)[old(pool[p].record.value) := Ended(old(|endings|))]
    {
      hide Agree, PoolOk, FatesOk, KeyIn, SpaceOk, Ascends, NamesOk, EraseOrdered;
      EndKeeps(pool, fates, endings, p, status);
      var record := pool[p].record.value;
      while pool[p].names != []
        invariant Consistent() && Live(pool, p) && |spaces| == old(|spaces|)
        invariant |pool| == old(|pool|) && pool == old(pool)[p := pool[p]]
        invariant pool[p].record == old(pool[p].record) && pool[p].sequence == old(pool[p].sequence)
        invariant endings == old(endings) && fates == old(fates) && free == old(free) && openItems == old(openItems)
        decreases |pool[p].names|
      {
        LastName(pool[p], |spaces|);
        Unname(p, pool[p].names[|pool[p].names| - 1].space);
      }
      EndKeeps(pool, fates, endings, p, status);
      ReleaseKeeps(pool, openItems, free, sequence, p);
      FreedAgrees(pool, spaces, p);
      endings := endings + [Ending(record, status)];
      fates := fates[record := Ended(|endings| - 1)];
      openItems := EraseOrdered(pool, openItems, p);
      free := free + [p];
      pool := pool[p := Freed(pool[p])];
    }

    // -------------------------------------------------------------- steps on several items

    /** All the items in `doomed` are ended, in that order; nobody else changes. */
    method EndDoomed(status: Status) returns (count: nat)
      requires Consistent() && DistinctLive(pool, doomed)
      modifies this`pool, this`spaces, this`openItems, this`free, this`endings, this`fates, this`doomed
      ensures Consistent() && |spaces| == old(|spaces|) && doomed == [] && count == old(|doomed|)
      ensures pool == Released(old(pool), old(doomed)) && free == old(free) + old(doomed)
      ensures endings == old(endings) + EndingsOf(old(pool), old(doomed), status)
      ensures Settles(old(fates), fates)
    {
      hide Agree, PoolOk, FatesOk, Released, EndingsOf, KeyIn;
      count := |doomed|;
      ghost var was := pool;
      ReleasedNone(pool, status);
      for i := 0 to |doomed|
        invariant Consistent() && |spaces| == old(|spaces|) && doomed == old(doomed)
        invariant pool == Released(was, doomed[..i]) && free == old(free) + doomed[..i]
        invariant endings == old(endings) + EndingsOf(was, doomed[..i], status)
        invariant Settles(old(fates), fates)
      {
        ReleaseNext(was, doomed, i);
        EndingsNext(was, doomed, status, i);
        assert doomed[..i + 1] == doomed[..i] + [doomed[i]];
        EndKeeps(pool, fates, endings, doomed[i], status);
        End(doomed[i], status);
      }
      assert doomed[..|doomed|] == doomed;
      doomed := [];
    }

    /** The items that go by `key` in `space`, oldest first. */
    method Find(space: nat, key: Key) returns (group: seq<nat>)
      requires Consistent()
      ensures IsGroup(pool, space, key, group) && DistinctLive(pool, group) && Ascends(pool, group)
    {
      hide Agree, PoolOk, FatesOk, KeyIn, DistinctLive, Ascends;
      group := if space < |spaces| && key in spaces[space].keys then spaces[space].keys[key] else [];
      GroupFact(pool, spaces, openItems, free, sequence, space, key);
    }

    /** The records of the items that go by `key`, oldest first. */
    method Records(space: nat, key: Key) returns (records: seq<nat>, ghost group: seq<nat>)
      requires Consistent()
      ensures IsGroup(pool, space, key, group) && |records| == |group|
      ensures forall i :: 0 <= i < |group| ==> Live(pool, group[i]) && pool[group[i]].record == Some(records[i])
    {
      hide Agree, PoolOk, FatesOk, KeyIn, IsGroup;
      var items := Find(space, key);
      group := items;
      records := [];
      for i := 0 to |items|
        invariant |records| == i && forall j :: 0 <= j < i ==> pool[group[j]].record == Some(records[j])
      {
        records := records + [pool[items[i]].record.value];
      }
    }

    /** The items going by `key` in `space` are ended, except the moved ones. */
    method Evict(space: nat, key: Key) returns (ghost out: seq<nat>)
      requires Consistent()
      modifies this`pool, this`spaces, this`openItems, this`free, this`endings, this`fates, this`doomed
      ensures Consistent() && |spaces| == old(|spaces|)
      ensures IsEvicted(old(pool), space, key, moved, out) && DistinctLive(old(pool), out)
      ensures pool == Released(old(pool), out) && free == old(free) + out
      ensures endings == old(endings) + EndingsOf(old(pool), out, Aborted)
      ensures Settles(old(fates), fates)
    {
      hide Agree, PoolOk, FatesOk, KeyIn, IsGroup, DistinctLive, Ascends, Except, IsEvicted, Released, EndingsOf;
      var group := Find(space, key);
      doomed := [];
      ExceptStarts(group, moved);
      for i := 0 to |group|
        invariant doomed == Except(group[..i], moved)
        invariant Consistent() && |spaces| == old(|spaces|) && pool == old(pool) && free == old(free)
        invariant endings == old(endings) && fates == old(fates)
      {
        ExceptNext(group, moved, i);
        if group[i] !in moved {
          doomed := doomed + [group[i]];
        }
      }
      assert group[..|group|] == group;
      ExceptEvicts(pool, space, key, group, moved);
      out := doomed;
      ReleasedNone(pool, Aborted);
      if doomed != [] {
        var count := EndDoomed(Aborted);
      } else {
        assert pool == Released(old(pool), out);
      }
    }

    // -------------------------------------------------------------- the operations

    method AddSpace() returns (r: Option<nat>)
      requires Valid()
      modifies this`spaces
      ensures Valid()
      ensures r.None? <==> old(|spaces|) == MAX_SPACES
      ensures if r.None? then spaces == old(spaces)
              else r.value == old(|spaces|) && spaces == old(spaces) + [Space(map[], [])]
    {
      hide KeyIn, PoolOk, FatesOk;
      if |spaces| == MAX_SPACES {
        return None;
      }
      SpaceAdded(pool, spaces);
      spaces := spaces + [Space(map[], [])];
      r := Some(|spaces| - 1);
    }

    /** A new record in a fresh item that alone goes by `key`; whatever went by it before is aborted. */
    method Open(space: nat, key: Key) returns (r: Option<nat>, ghost out: seq<nat>, ghost p: nat)
      requires Valid()
      modifies this
      ensures Valid() && |spaces| == old(|spaces|)
      ensures r.Some? <==> space < |spaces|
      ensures r.None? ==> pool == old(pool) && endings == old(endings) && begun == old(begun)
      ensures r.Some? ==> r.value == old(begun) && begun == old(begun) + 1 && sequence == old(sequence) + 1
      ensures r.Some? ==> IsGroup(old(pool), space, key, out) && DistinctLive(old(pool), out)
      ensures r.Some? ==> endings == old(endings) + EndingsOf(old(pool), out, Aborted)
      ensures r.Some? ==> Joins(Released(old(pool), out), pool, p, Item(sequence, r, [Name(space, key)]))
      ensures r.Some? ==> IsGroup(pool, space, key, [p])
    {
      hide Agree, PoolOk, FatesOk, KeyIn, IsGroup, DistinctLive, Ascends, Released, EndingsOf, GoesBy;
      if space >= |spaces| {
        return None, [], 0;
      }
      var record := begun;
      BeginKeeps(pool, fates, endings);
      begun := begun + 1;
      fates := fates + [Beginning];
      doomed := Find(space, key);
      out := doomed;
      ReleasedNames(pool, out);
      var count := EndDoomed(Aborted);
      ghost var base := pool;
      var item := Enroll(record);
      p := item;
      ghost var joined := pool;
      NoKeyIn(joined[p].names, space);
      Rename(item, space, key);
      NamedFirst(base, joined, pool, p, joined[p], Name(space, key));
      GroupOfOne(old(pool), out, pool, space, key, p, pool[p]);
      r := Some(record);
    }

    /** Everything that goes by `key` in `from` goes by `target` in `to`; what went by that before is aborted. */
    method Bind(from: nat, key: Key, to: nat, target: Key) returns (ghost moving: seq<nat>, ghost out: seq<nat>)
      requires Valid()
      modifies this`pool, this`spaces, this`openItems, this`free, this`endings, this`fates, this`moved, this`doomed
      ensures Valid() && |spaces| == old(|spaces|)
      ensures IsGroup(old(pool), from, key, moving)
      ensures to >= |spaces| || moving == [] ==> pool == old(pool) && endings == old(endings) && free == old(free)
      ensures to < |spaces| && moving != [] ==>
                && IsEvicted(old(pool), to, target, moving, out) && DistinctLive(old(pool), out)
                && endings == old(endings) + EndingsOf(old(pool), out, Aborted) && free == old(free) + out
                && Shifted(Released(old(pool), out), pool, moving, None, to, target)
                && IsGroup(pool, to, target, moving)
    {
      hide Agree, PoolOk, FatesOk, KeyIn, IsGroup, DistinctLive, Ascends, Released, EndingsOf, GoesBy, IsEvicted, Shifted;
      var group := Find(from, key);
      moving, out := group, [];
      if to >= |spaces| || group == [] {
        return;
      }
      moved := group;
      out := Evict(to, target);
      ReleasedNames(old(pool), out);
      MovedStay(old(pool), to, target, moving, out);
      MoveAll(None, to, target);
      ShiftGroups(old(pool), pool, to, target, moving, out, None);
      ShiftNames(Released(old(pool), out), pool, moving, None, to, target);
    }

    /** The oldest `count` items named in `from` lose that name and go by `target` in `to`; what went by that before is aborted. */
    method BindOldest(from: nat, count: nat, to: nat, target: Key) returns (n: nat, ghost moving: seq<nat>, ghost out: seq<nat>)
      requires Valid()
      modifies this`pool, this`spaces, this`openItems, this`free, this`endings, this`fates, this`moved, this`doomed
      ensures Valid() && |spaces| == old(|spaces|)
      ensures from >= |spaces| || to >= |spaces| ==> n == 0 && pool == old(pool) && endings == old(endings) && free == old(free)
      ensures from < |spaces| && to < |spaces| ==>
                && IsOldest(old(pool), from, count, moving) && n == |moving|
                && IsEvicted(old(pool), to, target, moving, out) && DistinctLive(old(pool), out)
                && endings == old(endings) + EndingsOf(old(pool), out, Aborted) && free == old(free) + out
                && Shifted(Released(old(pool), out), pool, moving, Some(from), to, target)
                && IsGroup(pool, to, target, moving)
    {
      hide Agree, PoolOk, FatesOk, KeyIn, IsGroup, DistinctLive, Ascends, Released, EndingsOf, GoesBy, IsEvicted, Shifted, IsOldest;
      moving, out := [], [];
      if from >= |spaces| || to >= |spaces| {
        return 0, [], [];
      }
      var order := spaces[from].order;
      n := if count < |order| then count else |order|;
      OldestFact(pool, spaces, openItems, free, sequence, from, count);
      moved := order[..n];
      moving := moved;
      out := Evict(to, target);
      ReleasedNames(old(pool), out);
      MovedStay(old(pool), to, target, moving, out);
      MoveAll(Some(from), to, target);
      ShiftGroups(old(pool), pool, to, target, moving, out, Some(from));
      ShiftNames(Released(old(pool), out), pool, moving, Some(from), to, target);
    }

    /** Every moved item loses its name in `from`, if that is given, and goes by `target` in `to`. */
    method MoveAll(from: Option<nat>, to: nat, target: Key)
      requires Consistent() && to < |spaces| && DistinctLive(pool, moved)
      modifies this`pool, this`spaces
      ensures Consistent() && |spaces| == old(|spaces|)
      ensures Shifted(old(pool), pool, moved, from, to, target)
    {
      hide Agree, PoolOk, FatesOk, KeyIn, Ascends, DistinctLive, Shifted;
      ghost var was := pool;
      ShiftStarts(was, moved, from, to, target);
      for i := 0 to |moved|
        invariant Consistent() && |spaces| == old(|spaces|)
        invariant Shifted(was, pool, moved[..i], from, to, target)
      {
        ghost var before := pool;
        ShiftedLive(was, pool, moved, i, from, to, target);
        if from.Some? {
          Unname(moved[i], from.value);
        }
        ghost var between := pool;
        Rename(moved[i], to, target);
        ShiftOne(before, between, pool, moved[i], from, to, target);
        ShiftNext(was, before, pool, moved, i, from, to, target);
      }
      assert moved[..|moved|] == moved;
    }

    /** Everything that goes by `key` is ended with `status`. */
    method Close(space: nat, key: Key, status: Status) returns (count: nat, ghost out: seq<nat>)
      requires Valid()
      modifies this`pool, this`spaces, this`openItems, this`free, this`endings, this`fates, this`doomed
      ensures Valid() && |spaces| == old(|spaces|) && count == |out|
      ensures IsGroup(old(pool), space, key, out) && DistinctLive(old(pool), out)
      ensures endings == old(endings) + EndingsOf(old(pool), out, status)
      ensures pool == Released(old(pool), out) && free == old(free) + out
    {
      hide Agree, PoolOk, FatesOk, KeyIn, IsGroup, DistinctLive, Ascends, Released, EndingsOf;
      doomed := Find(space, key);
      out := doomed;
      ReleasedNames(pool, out);
      count := EndDoomed(status);
    }

    /** Everything opened after the youngest item that goes by `key` is aborted. */
    method AbortYounger(space: nat, key: Key) returns (count: nat, ghost group: seq<nat>, ghost out: seq<nat>)
      requires Valid()
      modifies this`pool, this`spaces, this`openItems, this`free, this`endings, this`fates, this`doomed
      ensures Valid() && |spaces| == old(|spaces|) && count == |out|
      ensures IsGroup(old(pool), space, key, group) && Ascends(old(pool), out) && DistinctLive(old(pool), out)
      ensures forall p: nat :: p in out <==> Live(old(pool), p) && group != [] && Older(old(pool), group[|group| - 1], p)
      ensures endings == old(endings) + EndingsOf(old(pool), out, Aborted)
      ensures pool == Released(old(pool), out) && free == old(free) + out
    {
      hide Agree, PoolOk, FatesOk, KeyIn, IsGroup, DistinctLive, Ascends, Released, EndingsOf, Older, UpperBound;
      var items := Find(space, key);
      group, out := items, [];
      if items == [] {
        NobodyLeft(pool);
        ReleasedNone(pool, Aborted);
        return 0, items, [];
      }
      YoungerFact(pool, openItems, free, sequence, items);
      doomed := openItems[UpperBound(pool, openItems, pool[items[|items| - 1]].sequence)..];
      out := doomed;
      ReleasedNames(pool, out);
      count := EndDoomed(Aborted);
    }

    /** Everything with a name in `space` is aborted. */
    method AbortSpace(space: nat) returns (count: nat, ghost out: seq<nat>)
      requires Valid()
      modifies this`pool, this`spaces, this`openItems, this`free, this`endings, this`fates, this`doomed
      ensures Valid() && |spaces| == old(|spaces|) && count == |out|
      ensures IsOrder(old(pool), space, out) && DistinctLive(old(pool), out)
      ensures endings == old(endings) + EndingsOf(old(pool), out, Aborted)
      ensures pool == Released(old(pool), out) && free == old(free) + out
    {
      hide Agree, PoolOk, FatesOk, KeyIn, DistinctLive, Ascends, Released, EndingsOf, IsOrder;
      OrderFact(pool, spaces, openItems, free, sequence, space);
      out := [];
      if space >= |spaces| {
        NobodyLeft(pool);
        ReleasedNone(pool, Aborted);
        return 0, [];
      }
      doomed := spaces[space].order;
      out := doomed;
      ReleasedNames(pool, out);
      count := EndDoomed(Aborted);
    }

    /** Everything is aborted: nothing is live, no index lists anything, and every record begun has ended or was detached. */
    method AbortAll() returns (count: nat, ghost out: seq<nat>)
      requires Valid()
      modifies this`pool, this`spaces, this`openItems, this`free, this`endings, this`fates, this`doomed
      ensures Valid() && |spaces| == old(|spaces|) && count == |out|
      ensures Ascends(old(pool), out) && DistinctLive(old(pool), out) && forall p: nat :: p in out <==> Live(old(pool), p)
      ensures endings == old(endings) + EndingsOf(old(pool), out, Aborted)
      ensures openItems == [] && forall r :: 0 <= r < |fates| ==> fates[r].Ended? || fates[r].Detached?
    {
      hide Agree, PoolOk, FatesOk, KeyIn, DistinctLive, Ascends, Released, EndingsOf;
      OpenFact(pool, openItems, free, sequence);
      doomed := openItems;
      out := doomed;
      ReleasedNames(pool, out);
      count := EndDoomed(Aborted);
      NobodyHolds(pool, openItems, free, sequence, fates, endings);
    }

    /** Every live item is let go of without ending its record; the indexes are empty. */
    method Detach()
      requires Valid()
      modifies this`pool, this`spaces, this`openItems, this`free, this`fates
      ensures Valid() && openItems == [] && endings == old(endings)
      ensures |pool| == old(|pool|) && forall p: nat :: !Live(pool, p)
      ensures spaces == seq(old(|spaces|), _ => Space(map[], []))
      ensures |fates| == old(|fates|) && forall r :: 0 <= r < |fates| ==>
                fates[r] == if old(fates[r]).Held? then Detached else old(fates[r])
    {
      hide Agree, PoolOk, FatesOk, KeyIn, Ascends;
      LetGo();
      openItems := [];
      ClearSpaces();
      ClearedAgrees(pool, free, sequence, spaces);
    }

    method ClearSpaces()
      modifies this`spaces
      ensures spaces == seq(old(|spaces|), _ => Space(map[], []))
    {
      for s := 0 to |spaces|
        invariant |spaces| == old(|spaces|)
        invariant forall k :: 0 <= k < s ==> spaces[k] == Space(map[], [])
      {
        spaces := spaces[s := Space(map[], [])];
      }
    }

    /** Every open item is released. */
    method LetGo()
      requires PoolOk(pool, openItems, free, sequence) && FatesOk(pool, fates, endings)
      modifies this`pool, this`free, this`fates
      ensures PoolOk(pool, [], free, sequence) && FatesOk(pool, fates, endings)
      ensures |pool| == old(|pool|) && forall p: nat :: !Live(pool, p)
      ensures |fates| == old(|fates|) && forall r :: 0 <= r < |fates| ==>
                fates[r] == if old(fates[r]).Held? then Detached else old(fates[r])
    {
      hide PoolOk, FatesOk, Detaching;
      DetachFirst(pool, fates, openItems, free, sequence);
      for i := 0 to |openItems|
        invariant Detaching(old(pool), pool, old(fates), fates, openItems, i, free, sequence) && FatesOk(pool, fates, endings)
      {
        DetachNext(old(pool), pool, old(fates), fates, openItems, i, free, sequence, endings);
        fates := fates[pool[openItems[i]].record.value := Detached];
        free := free + [openItems[i]];
        pool := pool[openItems[i] := Freed(pool[openItems[i]])];
      }
      DetachLast(old(pool), pool, old(fates), fates, openItems, free, sequence, endings);
    }

    /** An item from the free list, or a new one, gets the record, the next sequence number and no name yet. */
    method Enroll(record: nat) returns (p: nat)
      requires Consistent() && record < |fates| && fates[record] == Beginning
      modifies this`pool, this`openItems, this`free, this`sequence, this`fates
      ensures Consistent() && sequence == old(sequence) + 1 && fates == old(fates)[record := Held(p)]
      ensures Joins(old(pool), pool, p, Item(sequence, Some(record), [])) && Live(pool, p)
    {
      hide Agree, PoolOk, FatesOk;
      if free == [] {
        GrowKeeps(pool, openItems, sequence, record, fates, endings);
        p := |pool|;
        JoinAgrees(pool, pool + [Item(sequence + 1, Some(record), [])], spaces, p);
        pool := pool + [Item(sequence + 1, Some(record), [])];
      } else {
        ReuseKeeps(pool, openItems, free, sequence, record, fates, endings);
        p := free[|free| - 1];
        JoinAgrees(pool, pool[p := Item(sequence + 1, Some(record), [])], spaces, p);
        free := free[..|free| - 1];
        pool := pool[p := Item(sequence + 1, Some(record), [])];
      }
      sequence := sequence + 1;
      fates := fates[record := Held(p)];
      openItems := openItems + [p];
    }
  }

  // ---------------------------------------------------------------- names and indexes together

  /** The index of a space without the removed name, and all other spaces as they were. */
  lemma {:induction false} UnnameKeeps(pool: seq<Item>, spaces: seq<Space>, p: nat, i: nat)
    requires Agree(pool, spaces) && p < |pool| && i < |pool[p].names|
    ensures var names := pool[p].names;
      var item := pool[p].(names := names[..i] + names[i + 1..]);
      var space := names[i].space;
      && space < |spaces| && Rekeyed(pool[p], item, space, None) && Ascends(pool, spaces[space].order)
      && Agree(pool[p := item], spaces[space := Unlisted(pool, spaces[space], p, names[i].key)])
  {
    hide KeyIn, SpaceOk, Unlisted, Ascends;
    assert NamesOk(pool[p], |spaces|);
    var names := pool[p].names;
    var item := pool[p].(names := names[..i] + names[i + 1..]);
    var space := names[i].space;
    assert SpaceOk(pool, spaces[space], space);
    SpaceAscends(pool, spaces[space], space);
    KeyInIsName(names, i);
    forall s: nat
      ensures KeyIn(item.names, s) == if s == space then None else KeyIn(names, s)
    {
      KeyInRemove(names, i, s);
    }
    UnlistKeeps(pool, spaces[space], space, p, names[i].key, item);
    OnlyOneChanges(pool, spaces, p, item, space, Unlisted(pool, spaces[space], p, names[i].key));
  }

  lemma {:induction false} SpaceAscends(pool: seq<Item>, space: Space, s: nat)
    requires SpaceOk(pool, space, s)
    ensures Ascends(pool, space.order)
  {
  }

  /** One item changes its name in one space, whose index follows: all indexes agree. */
  lemma {:induction false} OnlyOneChanges(pool: seq<Item>, spaces: seq<Space>, p: nat, item: Item, space: nat, changed: Space)
    requires Agree(pool, spaces) && p < |pool| && space < |spaces| && NamesOk(item, |spaces|) && item.sequence == pool[p].sequence
    requires forall s: nat :: s != space ==> KeyIn(item.names, s) == KeyIn(pool[p].names, s)
    requires SpaceOk(pool[p := item], changed, space)
    ensures Agree(pool[p := item], spaces[space := changed])
  {
    hide KeyIn, SpaceOk;
    var spaces' := spaces[space := changed];
    forall s | 0 <= s < |spaces'|
      ensures SpaceOk(pool[p := item], spaces'[s], s)
    {
      if s != space {
        OtherSpaceKeeps(pool, spaces[s], s, p, item);
      }
    }
  }

  /** The index of a space with a new name, and all other spaces as they were. */
  lemma {:induction false} NameKeeps(pool: seq<Item>, spaces: seq<Space>, openItems: seq<nat>, free: seq<nat>, sequence: nat,
                                     p: nat, space: nat, key: Key)
    requires Agree(pool, spaces) && PoolOk(pool, openItems, free, sequence) && Live(pool, p) && space < |spaces|
    requires KeyIn(pool[p].names, space).None?
    ensures var item := pool[p].(names := pool[p].names + [Name(space, key)]);
      && Rekeyed(pool[p], item, space, Some(key))
      && Ascends(pool, spaces[space].order) && Ascends(pool, GroupOf(spaces[space].keys, key))
      && Agree(pool[p := item], spaces[space := Listed(pool, spaces[space], p, key)])
  {
    hide KeyIn, SpaceOk, Listed, Ascends;
    var names := pool[p].names;
    var item := pool[p].(names := names + [Name(space, key)]);
    assert SpaceOk(pool, spaces[space], space) && NamesOk(pool[p], |spaces|);
    SpaceAscends(pool, spaces[space], space);
    NoKeyIn(names, space);
    forall s: nat
      ensures KeyIn(item.names, s) == if s == space then Some(key) else KeyIn(names, s)
    {
      KeyInAppend(names, Name(space, key), s);
    }
    forall q: nat | q < |pool| && q != p && KeyIn(pool[q].names, space).Some?
      ensures pool[q].sequence != pool[p].sequence
    {
      NoKeyIn(pool[q].names, space);
      LiveDiffer(pool, openItems, free, sequence, p, q);
    }
    ListKeeps(pool, spaces[space], space, p, key, item);
    OnlyOneChanges(pool, spaces, p, item, space, Listed(pool, spaces[space], p, key));
  }

  /** The last name of an item names it in an existing space. */
  lemma {:induction false} LastName(item: Item, spaces: nat)
    requires item.names != []
    ensures KeyIn(item.names, item.names[|item.names| - 1].space).Some?
  {
    NoKeyIn(item.names, item.names[|item.names| - 1].space);
  }

  /** Releasing an item that lost all its names changes no index. */
  lemma {:induction false} FreedAgrees(pool: seq<Item>, spaces: seq<Space>, p: nat)
    requires Agree(pool, spaces) && p < |pool| && pool[p].names == []
    ensures Agree(pool[p := Freed(pool[p])], spaces)
  {
    hide SpaceOk;
    forall s | 0 <= s < |spaces|
      ensures SpaceOk(pool[p := Freed(pool[p])], spaces[s], s)
    {
      OtherSpaceKeeps(pool, spaces[s], s, p, Freed(pool[p]));
    }
  }

  /** An item without names joins the pool. */
  lemma {:induction false} JoinAgrees(pool: seq<Item>, pool': seq<Item>, spaces: seq<Space>, p: nat)
    requires Agree(pool, spaces) && |pool| <= |pool'| && p < |pool'| && pool'[p].names == []
    requires p < |pool| ==> pool[p].names == []
    requires |pool'| == (if p < |pool| then |pool| else p + 1) && p <= |pool|
    requires forall q :: 0 <= q < |pool| && q != p ==> pool'[q] == pool[q]
    ensures Agree(pool', spaces)
  {
    hide SpaceOk;
    forall s | 0 <= s < |spaces|
      ensures SpaceOk(pool', spaces[s], s)
    {
      JoinSpace(pool, pool', spaces[s], s, p);
    }
  }

  lemma {:induction false} JoinSpace(pool: seq<Item>, pool': seq<Item>, space: Space, s: nat, p: nat)
    requires SpaceOk(pool, space, s) && |pool| <= |pool'| && p < |pool'| && pool'[p].names == []
    requires p < |pool| ==> pool[p].names == []
    requires |pool'| == (if p < |pool| then |pool| else p + 1) && p <= |pool|
    requires forall q :: 0 <= q < |pool| && q != p ==> pool'[q] == pool[q]
    ensures SpaceOk(pool', space, s)
  {
    OtherSequences(pool, pool', space.order);
    forall key: Key
      ensures GroupOk(pool', space.keys, s, key)
    {
      assert GroupOk(pool, space.keys, s, key);
      OtherSequences(pool, pool', GroupOf(space.keys, key));
    }
  }

  lemma {:induction false} OtherSequences(pool: seq<Item>, pool': seq<Item>, items: seq<nat>)
    requires Ascends(pool, items) && forall q: nat :: q in items ==> q < |pool| && q < |pool'| && pool'[q].sequence == pool[q].sequence
    ensures Ascends(pool', items)
  {
    assert forall j :: 0 <= j < |items| ==> items[j] in items;
    forall j, k | 0 <= j < k < |items|
      ensures Older(pool', items[j], items[k])
    {
      assert Older(pool, items[j], items[k]);
    }
  }

  lemma {:induction false} SpaceAdded(pool: seq<Item>, spaces: seq<Space>)
    requires Agree(pool, spaces)
    ensures Agree(pool, spaces + [Space(map[], [])])
  {
    hide KeyIn;
    var spaces', fresher := spaces + [Space(map[], [])], Space(map[], []);
    forall p: nat | p < |pool|
      ensures KeyIn(pool[p].names, |spaces|).None?
    {
      NoKeyIn(pool[p].names, |spaces|);
    }
    forall key: Key
      ensures GroupOk(pool, fresher.keys, |spaces|, key)
    {
    }
    assert SpaceOk(pool, fresher, |spaces|);
    forall s | 0 <= s < |spaces'|
      ensures SpaceOk(pool, spaces'[s], s)
    {
    }
  }

  // ---------------------------------------------------------------- groups

  /** Only live items have names, and only in spaces that exist. */
  lemma {:induction false} NamedIsLive(pool: seq<Item>, spaces: seq<Space>, openItems: seq<nat>, free: seq<nat>, sequence: nat,
                                       p: nat, space: nat)
    requires Agree(pool, spaces) && PoolOk(pool, openItems, free, sequence) && p < |pool| && KeyIn(pool[p].names, space).Some?
    ensures Live(pool, p) && space < |spaces|
  {
    NoKeyIn(pool[p].names, space);
    assert NamesOk(pool[p], |spaces|);
  }

  lemma {:induction false} GroupFact(pool: seq<Item>, spaces: seq<Space>, openItems: seq<nat>, free: seq<nat>, sequence: nat,
                                     space: nat, key: Key)
    requires Agree(pool, spaces) && PoolOk(pool, openItems, free, sequence)
    ensures var group := if space < |spaces| then GroupOf(spaces[space].keys, key) else [];
      IsGroup(pool, space, key, group) && DistinctLive(pool, group)
  {
    hide KeyIn, PoolOk, Ascends;
    var group := if space < |spaces| then GroupOf(spaces[space].keys, key) else [];
    if space < |spaces| {
      assert SpaceOk(pool, spaces[space], space);
      assert GroupOk(pool, spaces[space].keys, space, key);
    } else {
      NothingAscends(pool);
    }
    forall p: nat | p < |pool| && KeyIn(pool[p].names, space).Some?
      ensures Live(pool, p) && space < |spaces|
    {
      NamedIsLive(pool, spaces, openItems, free, sequence, p, space);
    }
    assert forall p: nat :: p in group <==> GoesBy(pool, p, space, key);
    AscendingDistinct(pool, group);
    assert forall i :: 0 <= i < |group| ==> group[i] in group;
  }

  lemma {:induction false} NothingAscends(pool: seq<Item>)
    ensures Ascends(pool, [])
  {
  }

  lemma {:induction false} AscendingDistinct(pool: seq<Item>, items: seq<nat>)
    requires Ascends(pool, items)
    ensures forall i, j :: 0 <= i < j < |items| ==> items[i] != items[j]
  {
    forall i, j | 0 <= i < j < |items|
      ensures items[i] != items[j]
    {
      assert Older(pool, items[i], items[j]);
    }
  }

  /** The items of `group` that are not in `moved`, in order. */
  ghost function Except(group: seq<nat>, moved: seq<nat>): seq<nat> {
    if group == [] then [] else
      var last := group[|group| - 1];
      Except(group[..|group| - 1], moved) + if last in moved then [] else [last]
  }

  lemma {:induction false} ExceptStarts(group: seq<nat>, moved: seq<nat>)
    ensures Except(group[..0], moved) == []
  {
  }

  lemma {:induction false} ExceptNext(group: seq<nat>, moved: seq<nat>, i: nat)
    requires i < |group|
    ensures Except(group[..i + 1], moved) == Except(group[..i], moved) + if group[i] in moved then [] else [group[i]]
  {
    assert group[..i + 1][..i] == group[..i];
  }

  lemma {:induction false} ExceptAscends(pool: seq<Item>, group: seq<nat>, moved: seq<nat>)
    requires Ascends(pool, group)
    ensures Ascends(pool, Except(group, moved)) && forall p: nat :: p in Except(group, moved) <==> p in group && p !in moved
  {
    if group != [] {
      var front, last := group[..|group| - 1], group[|group| - 1];
      assert group == front + [last];
      forall j, k | 0 <= j < k < |front|
        ensures Older(pool, front[j], front[k])
      {
        assert Older(pool, group[j], group[k]);
      }
      ExceptAscends(pool, front, moved);
      LastIsOlder(pool, group, Except(front, moved));
    }
  }

  lemma {:induction false} LastIsOlder(pool: seq<Item>, group: seq<nat>, some: seq<nat>)
    requires Ascends(pool, group) && group != [] && Ascends(pool, some) && forall p :: p in some ==> p in group[..|group| - 1]
    ensures Ascends(pool, some + [group[|group| - 1]])
  {
    var last := group[|group| - 1];
    var r := some + [last];
    forall j, k | 0 <= j < k < |r|
      ensures Older(pool, r[j], r[k])
    {
      if k == |some| {
        assert r[j] in some;
        var m :| 0 <= m < |group| - 1 && group[..|group| - 1][m] == r[j];
        assert Older(pool, group[m], last);
      } else {
        assert Older(pool, some[j], some[k]);
      }
    }
  }

  lemma {:induction false} ExceptEvicts(pool: seq<Item>, space: nat, key: Key, group: seq<nat>, moved: seq<nat>)
    requires IsGroup(pool, space, key, group) && DistinctLive(pool, group)
    ensures IsEvicted(pool, space, key, moved, Except(group, moved)) && DistinctLive(pool, Except(group, moved))
  {
    var out := Except(group, moved);
    ExceptAscends(pool, group, moved);
    AscendingDistinct(pool, out);
    forall i | 0 <= i < |out|
      ensures Live(pool, out[i])
    {
      assert out[i] in out;
      var j :| 0 <= j < |group| && group[j] == out[i];
    }
  }

  lemma {:induction false} ReleasedNone(pool: seq<Item>, status: Status)
    ensures Released(pool, []) == pool && EndingsOf(pool, [], status) == []
  {
  }

  /** Who is live after some items were released was live before and is unchanged. */
  lemma {:induction false} ReleasedNames(pool: seq<Item>, out: seq<nat>)
    ensures forall p: nat :: Live(Released(pool, out), p) <==> Live(pool, p) && p !in out
    ensures forall p: nat :: Live(Released(pool, out), p) ==> Released(pool, out)[p] == pool[p]
  {
    var released := Released(pool, out);
    assert forall p: nat :: p < |pool| ==> released[p] == if p in out then Freed(pool[p]) else pool[p];
  }

  /** A new item whose first name is given is as expected. */
  lemma {:induction false} NamedFirst(base: seq<Item>, joined: seq<Item>, pool: seq<Item>, p: nat, item: Item, name: Name)
    requires Joins(base, joined, p, item) && item.names == [] && |pool| == |joined| && pool == joined[p := pool[p]]
    requires pool[p] == item.(names := pool[p].names) && pool[p].names == [] + [name]
    ensures Joins(base, pool, p, item.(names := [name]))
  {
    assert pool[p].names == [name];
    if p < |base| {
      assert pool == base[p := item.(names := [name])];
    } else {
      assert pool == base + [item.(names := [name])];
    }
  }

  /** After the old group is released the new item alone goes by the key. */
  lemma {:induction false} GroupOfOne(was: seq<Item>, out: seq<nat>, pool: seq<Item>, space: nat, key: Key, p: nat, item: Item)
    requires IsGroup(was, space, key, out) && Joins(Released(was, out), pool, p, item) && item.names == [Name(space, key)]
    ensures IsGroup(pool, space, key, [p])
  {
    var base := Released(was, out);
    assert pool[p] == item;
    forall q: nat
      ensures q in [p] <==> GoesBy(pool, q, space, key)
    {
      if q < |was| && q != p {
        assert pool[q] == base[q];
        assert q in out <==> GoesBy(was, q, space, key);
      }
    }
  }

  // ---------------------------------------------------------------- moving names

  /** Moved items are not evicted. */
  lemma {:induction false} MovedStay(was: seq<Item>, to: nat, target: Key, moving: seq<nat>, out: seq<nat>)
    requires DistinctLive(was, moving) && IsEvicted(was, to, target, moving, out)
    ensures DistinctLive(Released(was, out), moving)
  {
    forall i | 0 <= i < |moving|
      ensures Live(Released(was, out), moving[i])
    {
      assert moving[i] in moving;
    }
  }

  lemma {:induction false} ShiftStarts(pool: seq<Item>, moving: seq<nat>, from: Option<nat>, to: nat, target: Key)
    ensures Shifted(pool, pool, moving[..0], from, to, target)
  {
  }

  lemma {:induction false} ShiftedLive(was: seq<Item>, pool: seq<Item>, moving: seq<nat>, i: nat, from: Option<nat>, to: nat, target: Key)
    requires DistinctLive(was, moving) && i < |moving| && Shifted(was, pool, moving[..i], from, to, target)
    ensures Live(pool, moving[i]) && moving[i] !in moving[..i]
  {
    assert Live(was, moving[i]);
    assert ShiftedAt(was[moving[i]], pool[moving[i]], moving[i] in moving[..i], from, to, target);
  }

  /** Losing one name and getting another. */
  lemma {:induction false} ShiftOne(before: seq<Item>, between: seq<Item>, pool: seq<Item>, p: nat, from: Option<nat>, to: nat, target: Key)
    requires p < |before|
    requires if from.Some? then OnlyRekeyed(before, between, p, from.value, None) else between == before
    requires OnlyRekeyed(between, pool, p, to, Some(target))
    ensures |pool| == |before| && pool == before[p := pool[p]] && ShiftedAt(before[p], pool[p], true, from, to, target)
  {
    hide KeyIn;
    forall s: nat
      ensures KeyIn(pool[p].names, s) ==
              if s == to then Some(target) else if from == Some(s) then None else KeyIn(before[p].names, s)
    {
      assert KeyIn(pool[p].names, s) == if s == to then Some(target) else KeyIn(between[p].names, s);
    }
  }

  lemma {:induction false} ShiftNext(was: seq<Item>, before: seq<Item>, pool: seq<Item>, moving: seq<nat>, i: nat,
                                     from: Option<nat>, to: nat, target: Key)
    requires i < |moving| && Shifted(was, before, moving[..i], from, to, target) && moving[i] !in moving[..i]
    requires moving[i] < |before| == |pool| && pool == before[moving[i] := pool[moving[i]]]
    requires ShiftedAt(before[moving[i]], pool[moving[i]], true, from, to, target)
    ensures Shifted(was, pool, moving[..i + 1], from, to, target)
  {
    hide KeyIn, ShiftedAt;
    var p := moving[i];
    assert moving[..i + 1] == moving[..i] + [p];
    ShiftedSame(was[p], before[p], from, to, target);
    forall q: nat | q < |was|
      ensures ShiftedAt(was[q], pool[q], q in moving[..i + 1], from, to, target)
    {
      assert ShiftedAt(was[q], before[q], q in moving[..i], from, to, target);
    }
  }

  lemma {:induction false} ShiftedSame(before: Item, after: Item, from: Option<nat>, to: nat, target: Key)
    ensures ShiftedAt(before, after, false, from, to, target) ==> after == before
  {
  }

  /** The moved items alone go by the target. */
  lemma {:induction false} ShiftGroups(was: seq<Item>, pool: seq<Item>, to: nat, target: Key, moving: seq<nat>, out: seq<nat>, from: Option<nat>)
    requires Ascends(was, moving) && IsEvicted(was, to, target, moving, out)
    requires Shifted(Released(was, out), pool, moving, from, to, target)
    ensures IsGroup(pool, to, target, moving)
  {
    hide KeyIn, Ascends;
    var base := Released(was, out);
    AscendsIn(was, moving);
    forall q: nat
      ensures q in moving <==> GoesBy(pool, q, to, target)
    {
      if q < |was| {
        assert ShiftedAt(base[q], pool[q], q in moving, from, to, target);
        NoKeyIn([], to);
        assert q in out <==> GoesBy(was, q, to, target) && q !in moving;
      }
    }
    forall q: nat | q in moving
      ensures q < |was| && pool[q].sequence == was[q].sequence
    {
      assert ShiftedAt(base[q], pool[q], q in moving, from, to, target);
    }
    OtherSequences(was, pool, moving);
  }

  lemma {:induction false} AscendsIn(pool: seq<Item>, items: seq<nat>)
    requires Ascends(pool, items)
    ensures forall q: nat :: q in items ==> q < |pool|
  {
  }

  /** Moved items have a name, and the others keep theirs. */
  lemma {:induction false} ShiftNames(base: seq<Item>, pool: seq<Item>, moving: seq<nat>, from: Option<nat>, to: nat, target: Key)
    requires Shifted(base, pool, moving, from, to, target)
    requires forall p: nat :: Live(base, p) ==> base[p].names != []
    ensures forall p: nat :: Live(pool, p) ==> pool[p].names != []
  {
    forall p: nat | Live(pool, p)
      ensures pool[p].names != []
    {
      assert ShiftedAt(base[p], pool[p], p in moving, from, to, target);
      assert p in moving ==> KeyIn(pool[p].names, to) == Some(target);
      assert p !in moving ==> Live(base, p);
    }
  }

  // ---------------------------------------------------------------- the lists of the other operations

  lemma {:induction false} NobodyLeft(pool: seq<Item>)
    ensures DistinctLive(pool, []) && Ascends(pool, [])
  {
  }

  lemma {:induction false} OpenFact(pool: seq<Item>, openItems: seq<nat>, free: seq<nat>, sequence: nat)
    requires PoolOk(pool, openItems, free, sequence)
    ensures Ascends(pool, openItems) && DistinctLive(pool, openItems) && forall p: nat :: p in openItems <==> Live(pool, p)
  {
    AscendingDistinct(pool, openItems);
    assert forall i :: 0 <= i < |openItems| ==> openItems[i] in openItems;
  }

  lemma {:induction false} OrderFact(pool: seq<Item>, spaces: seq<Space>, openItems: seq<nat>, free: seq<nat>, sequence: nat, space: nat)
    requires Agree(pool, spaces) && PoolOk(pool, openItems, free, sequence)
    ensures var order := if space < |spaces| then spaces[space].order else [];
      IsOrder(pool, space, order) && DistinctLive(pool, order)
  {
    hide KeyIn, PoolOk, Ascends;
    var order := if space < |spaces| then spaces[space].order else [];
    if space < |spaces| {
      assert SpaceOk(pool, spaces[space], space);
    } else {
      NothingAscends(pool);
    }
    forall p: nat | p < |pool| && KeyIn(pool[p].names, space).Some?
      ensures Live(pool, p) && space < |spaces|
    {
      NamedIsLive(pool, spaces, openItems, free, sequence, p, space);
    }
    AscendingDistinct(pool, order);
    assert forall i :: 0 <= i < |order| ==> order[i] in order;
  }

  lemma {:induction false} FrontIsOlder(pool: seq<Item>, order: seq<nat>, n: nat, q: nat, p: nat)
    requires Ascends(pool, order) && n <= |order| && q in order[..n] && p in order && p !in order[..n]
    ensures Older(pool, q, p)
  {
    var front, rest := order[..n], order[n..];
    assert order == front + rest;
    var j :| 0 <= j < n && front[j] == q;
    var k :| 0 <= k < |rest| && rest[k] == p;
    assert Older(pool, order[j], order[n + k]);
  }

  /** The front of a space's order is its oldest items. */
  lemma {:induction false} OldestFact(pool: seq<Item>, spaces: seq<Space>, openItems: seq<nat>, free: seq<nat>, sequence: nat,
                                      space: nat, count: nat)
    requires Agree(pool, spaces) && PoolOk(pool, openItems, free, sequence) && space < |spaces|
    ensures var order := spaces[space].order;
      var items := order[..if count < |order| then count else |order|];
      IsOldest(pool, space, count, items) && DistinctLive(pool, items) && Ascends(pool, items)
  {
    hide KeyIn, PoolOk, Agree, Ascends, DistinctLive, Older;
    OrderFact(pool, spaces, openItems, free, sequence, space);
    var order := spaces[space].order;
    var n := if count < |order| then count else |order|;
    var items := order[..n];
    FrontAscends(pool, order, n);
    forall p: nat, q: nat | p in order && p !in items && q in items
      ensures Older(pool, q, p)
    {
      FrontIsOlder(pool, order, n, q, p);
    }
    assert n == |order| ==> items == order;
  }

  lemma {:induction false} FrontAscends(pool: seq<Item>, order: seq<nat>, n: nat)
    requires Ascends(pool, order) && DistinctLive(pool, order) && n <= |order|
    ensures Ascends(pool, order[..n]) && DistinctLive(pool, order[..n]) && forall p: nat :: p in order[..n] ==> p in order
  {
    var items := order[..n];
    forall j, k | 0 <= j < k < |items|
      ensures Older(pool, items[j], items[k])
    {
      assert Older(pool, order[j], order[k]);
    }
  }

  lemma {:induction false} BackAscends(pool: seq<Item>, items: seq<nat>, u: nat)
    requires Ascends(pool, items) && DistinctLive(pool, items) && u <= |items|
    ensures Ascends(pool, items[u..]) && DistinctLive(pool, items[u..])
  {
    var out := items[u..];
    forall j, k | 0 <= j < k < |out|
      ensures Older(pool, out[j], out[k])
    {
      assert Older(pool, items[u + j], items[u + k]);
    }
  }

  /** The open list from the bound on lists exactly the items younger than the youngest of a group. */
  lemma {:induction false} YoungerFact(pool: seq<Item>, openItems: seq<nat>, free: seq<nat>, sequence: nat, items: seq<nat>)
    requires PoolOk(pool, openItems, free, sequence) && items != [] && DistinctLive(pool, items)
    ensures Live(pool, items[|items| - 1]) && Ascends(pool, openItems)
    ensures var last := items[|items| - 1];
      var out := openItems[UpperBound(pool, openItems, pool[last].sequence)..];
      && Ascends(pool, out) && DistinctLive(pool, out)
      && forall p: nat :: p in out <==> Live(pool, p) && Older(pool, last, p)
  {
    hide PoolOk, UpperBound, Ascends;
    OpenFact(pool, openItems, free, sequence);
    var last := items[|items| - 1];
    assert Live(pool, last);
    var u := UpperBound(pool, openItems, pool[last].sequence);
    var out := openItems[u..];
    BackAscends(pool, openItems, u);
    forall p: nat
      ensures p in out <==> Live(pool, p) && Older(pool, last, p)
    {
      if Live(pool, p) {
        var i :| 0 <= i < |openItems| && openItems[i] == p;
        assert i >= u ==> out[i - u] == p;
      }
      if p in out {
        var i :| 0 <= i < |out| && out[i] == p;
        assert openItems[u + i] == p;
      }
    }
  }

  lemma {:induction false} NobodyHolds(pool: seq<Item>, openItems: seq<nat>, free: seq<nat>, sequence: nat, fates: seq<Fate>, endings: seq<Ending>)
    requires PoolOk(pool, openItems, free, sequence) && FatesOk(pool, fates, endings)
    requires forall p: nat :: !Live(pool, p)
    ensures openItems == [] && forall r :: 0 <= r < |fates| ==> !fates[r].Held?
  {
    NobodyIn([], openItems);
    forall r | 0 <= r < |fates|
      ensures !fates[r].Held?
    {
      assert FateOk(pool, fates, endings, r);
      assert fates[r].Held? ==> !Live(pool, fates[r].item);
    }
  }

  // ---------------------------------------------------------------- detaching

  /** The first `i` open items are let go of. */
  ghost predicate Detaching(was: seq<Item>, pool: seq<Item>, fatesWere: seq<Fate>, fates: seq<Fate>, items: seq<nat>, i: nat,
                            free: seq<nat>, sequence: nat)
  {
    && i <= |items| && PoolOk(pool, items[i..], free, sequence) && DistinctLive(was, items) && pool == Released(was, items[..i])
    && |fates| == |fatesWere|
    && forall r :: 0 <= r < |fates| ==>
         fates[r] == if fatesWere[r].Held? && fatesWere[r].item in items[..i] then Detached else fatesWere[r]
  }

  lemma {:induction false} DetachFirst(pool: seq<Item>, fates: seq<Fate>, items: seq<nat>, free: seq<nat>, sequence: nat)
    requires PoolOk(pool, items, free, sequence)
    ensures Detaching(pool, pool, fates, fates, items, 0, free, sequence)
  {
    OpenFact(pool, items, free, sequence);
    assert items[0..] == items;
    ReleasedNone(pool, Aborted);
  }

  lemma {:induction false} DetachNext(was: seq<Item>, pool: seq<Item>, fatesWere: seq<Fate>, fates: seq<Fate>, items: seq<nat>, i: nat,
                                      free: seq<nat>, sequence: nat, endings: seq<Ending>)
    requires Detaching(was, pool, fatesWere, fates, items, i, free, sequence) && i < |items| && FatesOk(pool, fates, endings)
    ensures var p := items[i];
      && Live(pool, p) && pool[p].record.value < |fates|
      && var pool', fates' := pool[p := Freed(pool[p])], fates[pool[p].record.value := Detached];
      && Detaching(was, pool', fatesWere, fates', items, i + 1, free + [p], sequence) && FatesOk(pool', fates', endings)
  {
    hide PoolOk, FatesOk, EraseOrdered, Released, Ascends;
    var p := items[i];
    ReleaseNext(was, items, i);
    EndKeeps(pool, fates, endings, p, Aborted);
    ReleaseKeeps(pool, items[i..], free, sequence, p);
    EraseOrderedRemoves(pool, items[i..], p);
    assert items[i..][0] == p && items[i..][1..] == items[i + 1..];
    var r := pool[p].record.value;
    HeldAlone(pool, fates, endings, r);
    assert items[..i + 1] == items[..i] + [p];
  }

  lemma {:induction false} HeldAlone(pool: seq<Item>, fates: seq<Fate>, endings: seq<Ending>, r: nat)
    requires FatesOk(pool, fates, endings) && r < |fates| && fates[r].Held?
    ensures forall x :: 0 <= x < |fates| && x != r && fates[x].Held? ==> fates[x].item != fates[r].item
  {
    assert FateOk(pool, fates, endings, r);
    forall x | 0 <= x < |fates| && x != r && fates[x].Held?
      ensures fates[x].item != fates[r].item
    {
      assert FateOk(pool, fates, endings, x);
    }
  }

  lemma {:induction false} DetachLast(was: seq<Item>, pool: seq<Item>, fatesWere: seq<Fate>, fates: seq<Fate>, items: seq<nat>,
                                      free: seq<nat>, sequence: nat, endings: seq<Ending>)
    requires Detaching(was, pool, fatesWere, fates, items, |items|, free, sequence) && FatesOk(pool, fates, endings)
    ensures PoolOk(pool, [], free, sequence) && |pool| == |was| && forall p: nat :: !Live(pool, p)
    ensures |fates| == |fatesWere|
    ensures forall r :: 0 <= r < |fates| ==> fates[r] == if fatesWere[r].Held? then Detached else fatesWere[r]
  {
    assert items[|items|..] == [] && items[..|items|] == items;
    NobodyHolds(pool, [], free, sequence, fates, endings);
  }

  lemma {:induction false} ClearedAgrees(pool: seq<Item>, free: seq<nat>, sequence: nat, spaces: seq<Space>)
    requires PoolOk(pool, [], free, sequence)
    requires forall s :: 0 <= s < |spaces| ==> spaces[s] == Space(map[], [])
    ensures Agree(pool, spaces)
  {
    forall p: nat | p < |pool|
      ensures pool[p].names == []
    {
      assert !Live(pool, p);
    }
    forall s | 0 <= s < |spaces|
      ensures SpaceOk(pool, spaces[s], s)
    {
      assert forall key: Key :: GroupOk(pool, spaces[s].keys, s, key);
    }
  }
}
