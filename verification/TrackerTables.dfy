/** A key space with its real table and groups does to the tracker's indexes exactly what the tracker's proofs suppose. */
module TrackerTables {
  import opened Groups
  import opened KeyTables
  import opened TrackerIndexes

  /** The sequence number of an item. */
  function SequenceIn(pool: seq<Item>): nat -> nat {
    (p: nat) => if p < |pool| then pool[p].sequence else 0
  }

  lemma {:induction false} AscendsIsAscending(pool: seq<Item>, items: seq<nat>)
    ensures Ascends(pool, items) ==> Ascending(SequenceIn(pool), items)
    ensures Ascending(SequenceIn(pool), items) && (forall q :: q in items ==> q < |pool|) ==> Ascends(pool, items)
  {
    if Ascends(pool, items) {
      forall j, k | 0 <= j < k < |items|
        ensures SequenceIn(pool)(items[j]) < SequenceIn(pool)(items[k])
      {
        assert Older(pool, items[j], items[k]);
      }
    }
    if Ascending(SequenceIn(pool), items) && forall q :: q in items ==> q < |pool| {
      forall j, k | 0 <= j < k < |items|
        ensures Older(pool, items[j], items[k])
      {
        assert items[j] in items && items[k] in items;
        assert SequenceIn(pool)(items[j]) < SequenceIn(pool)(items[k]);
      }
      assert forall j :: 0 <= j < |items| ==> items[j] in items;
    }
  }

  /** What `Group.Insert` leaves is the list the tracker's proofs speak of. */
  lemma {:induction false} GroupInserts(pool: seq<Item>, items: seq<nat>, p: nat, now: seq<nat>)
    requires Ascends(pool, items) && p < |pool| && forall q :: q in items ==> pool[q].sequence != pool[p].sequence
    requires Ascending(SequenceIn(pool), now) && multiset(now) == multiset(items) + multiset{p}
    ensures now == Inserted(pool, items, p)
  {
    hide Ascends, Ascending;
    var u := UpperBound(pool, items, pool[p].sequence);
    InsertedAscends(pool, items, p);
    AscendsIsAscending(pool, Inserted(pool, items, p));
    InsertCounts(items, u, p);
    AscendingIsUnique(SequenceIn(pool), now, Inserted(pool, items, p));
  }

  /** And so is what `Group.Erase` leaves. */
  lemma {:induction false} GroupErases(pool: seq<Item>, items: seq<nat>, p: nat, now: seq<nat>)
    requires Ascends(pool, items) && Without(SequenceIn(pool), items, now, p)
    ensures now == Removed(items, p)
  {
    hide Ascends, Ascending;
    RemovedAscends(pool, items, p);
    AscendsIsAscending(pool, Removed(items, p));
    RemovedCounts(items, p);
    AscendingIsUnique(SequenceIn(pool), now, Removed(items, p));
  }

  lemma {:induction false} RemovedCounts(items: seq<nat>, p: nat)
    ensures multiset(Removed(items, p)) == multiset(items) - multiset{p}
  {
    if items != [] {
      var head, rest := items[0], items[1..];
      assert items == [head] + rest;
      if head == p {
        OutAgain(multiset(rest), p);
      } else {
        RemovedCounts(rest, p);
        OtherOut(multiset(rest), head, p);
      }
    }
  }

  lemma {:induction false} OutAgain(all: multiset<nat>, p: nat)
    ensures all == multiset{p} + all - multiset{p}
  {
  }

  lemma {:induction false} OtherOut(all: multiset<nat>, head: nat, p: nat)
    requires head != p
    ensures multiset{head} + (all - multiset{p}) == multiset{head} + all - multiset{p}
  {
  }

  /** The items of a group with one more. */
  method WithItem(pool: seq<Item>, items: seq<nat>, p: nat) returns (now: seq<nat>)
    requires Ascends(pool, items) && p < |pool| && forall q :: q in items ==> pool[q].sequence != pool[p].sequence
    ensures now == Inserted(pool, items, p)
  {
    hide Ascends, Ascending;
    AscendsIsAscending(pool, items);
    ItemsInPool(pool, items);
    var group := new Group.Holding(SequenceIn(pool), items, p);
    group.Insert(p);
    now := group.Snapshot();
    GroupInserts(pool, items, p, now);
  }

  /** The items of a group without one. */
  method WithoutItem(pool: seq<Item>, items: seq<nat>, p: nat) returns (now: seq<nat>)
    requires Ascends(pool, items)
    ensures now == Removed(items, p)
  {
    hide Ascends, Ascending, Without;
    AscendsIsAscending(pool, items);
    var group := new Group.Holding(SequenceIn(pool), items, p);
    group.Erase(p);
    now := group.Snapshot();
    GroupErases(pool, items, p, now);
  }

  lemma {:induction false} ItemsInPool(pool: seq<Item>, items: seq<nat>)
    requires Ascends(pool, items)
    ensures forall q :: q in items ==> q < |pool|
  {
  }

  class KeySpace {
    const keys: KeyTable<seq<nat>>
    var order: seq<nat>

    /** The space as the tracker's proofs see it. */
    ghost function View(): Space
      reads this, keys
    {
      Space(keys.contents, order)
    }

    ghost predicate Valid(pool: seq<Item>)
      reads this, keys, keys.slots
    {
      && keys.Valid() && keys.empty == [] && Ascends(pool, order)
      && forall key: Key :: key in keys.contents ==> Ascends(pool, keys.contents[key])
    }

    constructor (hash: Key -> nat)
      ensures Valid([]) && View() == Space(map[], []) && fresh(keys) && fresh(keys.slots)
    {
      keys := new KeyTable(hash, []);
      order := [];
    }

    /** The end of `name`: the item joins the group of its key, in the table, and the order of the space. */
    method List(pool: seq<Item>, p: nat, key: Key)
      requires Valid(pool) && p < |pool| && (key in keys.contents ==> forall q :: q in keys.contents[key] ==> pool[q].sequence != pool[p].sequence)
      modifies this`order, keys, keys.slots
      ensures keys.Valid() && (keys.slots == old(keys.slots) || fresh(keys.slots)) && Ascends(pool, GroupOf(old(keys.contents), key))
      ensures View() == Listed(pool, old(View()), p, key)
    {
      hide Ascends, Reachable, Indexes, Inserted;
      ghost var before := keys.contents;
      NothingAscends(pool);
      var i := keys.Insert(key);
      assert keys.contents[key] == GroupOf(before, key);
      var now := WithItem(pool, keys.slots[i].group, p);
      assert keys.contents[key := now] == before[key := now];
      keys.Put(i, now);
      order := Inserted(pool, order, p);
    }

    /** The end of `unname`: the item leaves the group, and a group left empty leaves the table. */
    method Unlist(pool: seq<Item>, p: nat, key: Key)
      requires Valid(pool) && p < |pool|
      modifies this`order, keys, keys.slots
      ensures keys.Valid() && keys.slots == old(keys.slots)
      ensures View() == Unlisted(pool, old(View()), p, key)
    {
      hide Ascends, Reachable, Indexes;
      var found := keys.Find(key);
      if found.Some? {
        var now := WithoutItem(pool, keys.slots[found.value].group, p);
        if now == [] {
          keys.Erase(key);
        } else {
          keys.Put(found.value, now);
        }
      }
      order := EraseOrdered(pool, order, p);
    }
  }

  lemma {:induction false} NothingAscends(pool: seq<Item>)
    ensures Ascends(pool, [])
  {
  }
}
