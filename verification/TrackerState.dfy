/** The tracker's pool of items and the fates of the records it began. */
module TrackerState {
  import opened Options
  import opened TrackerIndexes

  datatype Status = Completed | Aborted

  /** One call of the writer's end operation. */
  datatype Ending = Ending(record: nat, status: Status)

  /** What became of a record that was begun: not in an item yet, held by an item, ended, or left unfinished. */
  datatype Fate = Beginning | Held(item: nat) | Ended(at: nat) | Detached

  ghost predicate Live(pool: seq<Item>, p: nat) {
    p < |pool| && pool[p].record.Some?
  }

  /** Each item of the pool is either live and in the open list, or free, without names, in the free list. */
  ghost predicate PoolOk(pool: seq<Item>, openItems: seq<nat>, free: seq<nat>, sequence: nat) {
    && Ascends(pool, openItems)
    && (forall p: nat :: p in openItems <==> Live(pool, p))
    && (forall p: nat :: p in free <==> p < |pool| && !Live(pool, p))
    && (forall i, j :: 0 <= i < j < |free| ==> free[i] != free[j])
    && forall p :: 0 <= p < |pool| ==> pool[p].sequence <= sequence && (Live(pool, p) || pool[p].names == [])
  }

  /** Live items hold different records; every record is held, ended by exactly one call, or left unfinished. */
  ghost predicate FatesOk(pool: seq<Item>, fates: seq<Fate>, endings: seq<Ending>) {
    && (forall p :: 0 <= p < |pool| ==> HoldsOk(pool[p], fates, p))
    && (forall r :: 0 <= r < |fates| ==> FateOk(pool, fates, endings, r))
    && forall i :: 0 <= i < |endings| ==> EndingOk(fates, endings, i)
  }

  ghost predicate HoldsOk(item: Item, fates: seq<Fate>, p: nat) {
    item.record.Some? ==> item.record.value < |fates| && fates[item.record.value] == Held(p)
  }

  ghost predicate FateOk(pool: seq<Item>, fates: seq<Fate>, endings: seq<Ending>, r: nat)
    requires r < |fates|
  {
    match fates[r]
    case Held(p) => p < |pool| && pool[p].record == Some(r)
    case Ended(i) => i < |endings| && endings[i].record == r
    case _ => true
  }

  ghost predicate EndingOk(fates: seq<Fate>, endings: seq<Ending>, i: nat)
    requires i < |endings|
  {
    endings[i].record < |fates| && fates[endings[i].record] == Ended(i)
  }

  /** No record was ended twice, and none that is ended is still held. */
  lemma {:induction false} EndedOnce(pool: seq<Item>, fates: seq<Fate>, endings: seq<Ending>, i: nat, j: nat, p: nat)
    requires FatesOk(pool, fates, endings) && i < |endings| && p < |pool|
    ensures j < |endings| && i != j ==> endings[i].record != endings[j].record
    ensures pool[p].record != Some(endings[i].record)
  {
    assert EndingOk(fates, endings, i) && HoldsOk(pool[p], fates, p);
    assert j < |endings| ==> EndingOk(fates, endings, j);
  }

  // ---------------------------------------------------------------- renaming, releasing, taking an item

  /** The names of a live item change; nothing else. */
  lemma {:induction false} RenameKeeps(pool: seq<Item>, openItems: seq<nat>, free: seq<nat>, sequence: nat,
                                       fates: seq<Fate>, endings: seq<Ending>, p: nat, item: Item)
    requires PoolOk(pool, openItems, free, sequence) && FatesOk(pool, fates, endings) && Live(pool, p)
    requires item.sequence == pool[p].sequence && item.record == pool[p].record
    ensures PoolOk(pool[p := item], openItems, free, sequence) && FatesOk(pool[p := item], fates, endings)
  {
    RenamePool(pool, openItems, free, sequence, p, item);
    RenameFates(pool, fates, endings, p, item);
  }

  lemma {:induction false} RenamePool(pool: seq<Item>, openItems: seq<nat>, free: seq<nat>, sequence: nat, p: nat, item: Item)
    requires PoolOk(pool, openItems, free, sequence) && Live(pool, p)
    requires item.sequence == pool[p].sequence && item.record == pool[p].record
    ensures PoolOk(pool[p := item], openItems, free, sequence)
  {
    var pool' := pool[p := item];
    SameSequences(pool, pool', openItems);
    assert forall q: nat :: Live(pool', q) <==> Live(pool, q);
  }

  lemma {:induction false} RenameFates(pool: seq<Item>, fates: seq<Fate>, endings: seq<Ending>, p: nat, item: Item)
    requires FatesOk(pool, fates, endings) && p < |pool| && item.record == pool[p].record
    ensures FatesOk(pool[p := item], fates, endings)
  {
    var pool' := pool[p := item];
    forall q | 0 <= q < |pool'|
      ensures HoldsOk(pool'[q], fates, q)
    {
      assert HoldsOk(pool[q], fates, q);
    }
    forall r | 0 <= r < |fates|
      ensures FateOk(pool', fates, endings, r)
    {
      assert FateOk(pool, fates, endings, r);
    }
  }

  function Freed(item: Item): Item {
    item.(record := None, names := [])
  }

  lemma {:induction false} ReleaseKeeps(pool: seq<Item>, openItems: seq<nat>, free: seq<nat>, sequence: nat, p: nat)
    requires PoolOk(pool, openItems, free, sequence) && Live(pool, p)
    ensures Ascends(pool, openItems)
    ensures PoolOk(pool[p := Freed(pool[p])], EraseOrdered(pool, openItems, p), free + [p], sequence)
  {
    hide Ascends, EraseOrdered, Removed;
    var pool' := pool[p := Freed(pool[p])];
    ReleaseOpens(pool, openItems, p);
    assert forall q: nat :: Live(pool', q) <==> q != p && Live(pool, q);
    FreeGrows(pool, free, p);
  }

  lemma {:induction false} ReleaseOpens(pool: seq<Item>, openItems: seq<nat>, p: nat)
    requires Ascends(pool, openItems) && p < |pool|
    ensures Ascends(pool[p := Freed(pool[p])], EraseOrdered(pool, openItems, p))
    ensures forall q: nat :: q in EraseOrdered(pool, openItems, p) <==> q in openItems && q != p
  {
    hide Ascends, EraseOrdered, Removed;
    EraseOrderedRemoves(pool, openItems, p);
    RemovedAscends(pool, openItems, p);
    SameSequences(pool, pool[p := Freed(pool[p])], Removed(openItems, p));
  }

  lemma {:induction false} FreeGrows(pool: seq<Item>, free: seq<nat>, p: nat)
    requires forall q: nat :: q in free <==> q < |pool| && !Live(pool, q)
    requires forall i, j :: 0 <= i < j < |free| ==> free[i] != free[j]
    requires Live(pool, p)
    ensures forall q: nat :: q in free + [p] <==> q == p || q in free
    ensures forall i, j :: 0 <= i < j < |free + [p]| ==> (free + [p])[i] != (free + [p])[j]
  {
    var r := free + [p];
    forall i, j | 0 <= i < j < |r|
      ensures r[i] != r[j]
    {
      assert r[i] in free;
    }
  }

  /** The record of an item that is released is ended, or left unfinished. */
  lemma {:induction false} EndKeeps(pool: seq<Item>, fates: seq<Fate>, endings: seq<Ending>, p: nat, status: Status)
    requires FatesOk(pool, fates, endings) && Live(pool, p)
    ensures var r := pool[p].record.value;
      && r < |fates| && fates[r] == Held(p)
      && FatesOk(pool[p := Freed(pool[p])], fates[r := Ended(|endings|)], endings + [Ending(r, status)])
      && FatesOk(pool[p := Freed(pool[p])], fates[r := Detached], endings)
  {
    assert HoldsOk(pool[p], fates, p);
    var r := pool[p].record.value;
    EndOneWay(pool, fates, endings, p, endings + [Ending(r, status)], Ended(|endings|));
    EndOneWay(pool, fates, endings, p, endings, Detached);
  }

  lemma {:induction false} EndOneWay(pool: seq<Item>, fates: seq<Fate>, endings: seq<Ending>, p: nat, endings': seq<Ending>, fate: Fate)
    requires FatesOk(pool, fates, endings) && Live(pool, p) && pool[p].record.value < |fates| && fates[pool[p].record.value] == Held(p)
    requires var r := pool[p].record.value;
      || (fate == Detached && endings' == endings)
      || (fate == Ended(|endings|) && |endings'| == |endings| + 1 && endings'[..|endings|] == endings && endings'[|endings|].record == r)
    ensures FatesOk(pool[p := Freed(pool[p])], fates[pool[p].record.value := fate], endings')
  {
    var r := pool[p].record.value;
    var pool', fates' := pool[p := Freed(pool[p])], fates[r := fate];
    forall q | 0 <= q < |pool'|
      ensures HoldsOk(pool'[q], fates', q)
    {
      assert HoldsOk(pool[q], fates, q);
    }
    forall x | 0 <= x < |fates'|
      ensures FateOk(pool', fates', endings', x)
    {
      assert FateOk(pool, fates, endings, x);
    }
    forall i | 0 <= i < |endings'|
      ensures EndingOk(fates', endings', i)
    {
      assert i < |endings| ==> endings'[i] == endings'[..|endings|][i] && EndingOk(fates, endings, i);
    }
  }

  /** Without a free item the pool grows by one. */
  lemma {:induction false} GrowKeeps(pool: seq<Item>, openItems: seq<nat>, sequence: nat, record: nat, fates: seq<Fate>, endings: seq<Ending>)
    requires PoolOk(pool, openItems, [], sequence) && FatesOk(pool, fates, endings)
    requires record < |fates| && fates[record] == Beginning
    ensures var pool' := pool + [Item(sequence + 1, Some(record), [])];
      && PoolOk(pool', openItems + [|pool|], [], sequence + 1)
      && FatesOk(pool', fates[record := Held(|pool|)], endings)
  {
    var pool' := pool + [Item(sequence + 1, Some(record), [])];
    assert forall q: nat :: Live(pool', q) <==> Live(pool, q) || q == |pool|;
    YoungestLast(pool, pool', openItems, |pool|, sequence);
    HoldFates(pool, pool', fates, endings, |pool|, record);
  }

  /** A free item is taken from the end of the free list. */
  lemma {:induction false} ReuseKeeps(pool: seq<Item>, openItems: seq<nat>, free: seq<nat>, sequence: nat, record: nat,
                                      fates: seq<Fate>, endings: seq<Ending>)
    requires PoolOk(pool, openItems, free, sequence) && FatesOk(pool, fates, endings) && free != []
    requires record < |fates| && fates[record] == Beginning
    ensures var p := free[|free| - 1];
      && p < |pool| && !Live(pool, p) && pool[p].names == []
      && var pool' := pool[p := Item(sequence + 1, Some(record), [])];
      && PoolOk(pool', openItems + [p], free[..|free| - 1], sequence + 1)
      && FatesOk(pool', fates[record := Held(p)], endings)
  {
    var p := free[|free| - 1];
    assert p in free;
    var pool', free' := pool[p := Item(sequence + 1, Some(record), [])], free[..|free| - 1];
    assert free == free' + [p];
    assert forall q: nat :: Live(pool', q) <==> Live(pool, q) || q == p;
    YoungestLast(pool, pool', openItems, p, sequence);
    HoldFates(pool, pool', fates, endings, p, record);
  }

  lemma {:induction false} YoungestLast(pool: seq<Item>, pool': seq<Item>, openItems: seq<nat>, p: nat, sequence: nat)
    requires Ascends(pool, openItems) && |pool| <= |pool'| && p < |pool'| && pool'[p].sequence == sequence + 1
    requires forall q: nat :: q in openItems ==> q < |pool| && q != p && pool'[q].sequence == pool[q].sequence <= sequence
    ensures Ascends(pool', openItems + [p])
  {
    var r := openItems + [p];
    forall j, k | 0 <= j < k < |r|
      ensures Older(pool', r[j], r[k])
    {
      assert r[j] in openItems;
      if k < |openItems| {
        assert Older(pool, openItems[j], openItems[k]) && r[k] in openItems;
      }
    }
  }

  lemma {:induction false} HoldFates(pool: seq<Item>, pool': seq<Item>, fates: seq<Fate>, endings: seq<Ending>, p: nat, record: nat)
    requires FatesOk(pool, fates, endings) && record < |fates| && fates[record] == Beginning
    requires p < |pool'| && pool'[p].record == Some(record) && |pool| <= |pool'| <= |pool| + 1 && (|pool| < |pool'| ==> p == |pool|)
    requires p < |pool| ==> pool[p].record.None?
    requires forall q :: 0 <= q < |pool| && q != p ==> pool'[q] == pool[q]
    ensures FatesOk(pool', fates[record := Held(p)], endings)
  {
    var fates' := fates[record := Held(p)];
    forall q | 0 <= q < |pool'|
      ensures HoldsOk(pool'[q], fates', q)
    {
      if q != p {
        assert HoldsOk(pool[q], fates, q);
      }
    }
    forall x | 0 <= x < |fates'|
      ensures FateOk(pool', fates', endings, x)
    {
      assert FateOk(pool, fates, endings, x);
    }
    forall i | 0 <= i < |endings|
      ensures EndingOk(fates', endings, i)
    {
      assert EndingOk(fates, endings, i);
    }
  }

  lemma {:induction false} BeginKeeps(pool: seq<Item>, fates: seq<Fate>, endings: seq<Ending>)
    requires FatesOk(pool, fates, endings)
    ensures FatesOk(pool, fates + [Beginning], endings)
  {
    var fates' := fates + [Beginning];
    forall p | 0 <= p < |pool|
      ensures HoldsOk(pool[p], fates', p)
    {
      assert HoldsOk(pool[p], fates, p);
    }
    forall r | 0 <= r < |fates'|
      ensures FateOk(pool, fates', endings, r)
    {
      assert r < |fates| ==> FateOk(pool, fates, endings, r);
    }
    forall i | 0 <= i < |endings|
      ensures EndingOk(fates', endings, i)
    {
      assert EndingOk(fates, endings, i);
    }
  }

  /** Two live items have different sequence numbers. */
  lemma {:induction false} LiveDiffer(pool: seq<Item>, openItems: seq<nat>, free: seq<nat>, sequence: nat, p: nat, q: nat)
    requires PoolOk(pool, openItems, free, sequence) && Live(pool, p) && Live(pool, q) && p != q
    ensures pool[p].sequence != pool[q].sequence
  {
    assert p in openItems && q in openItems;
    var i :| 0 <= i < |openItems| && openItems[i] == p;
    var j :| 0 <= j < |openItems| && openItems[j] == q;
    if i < j {
      assert Older(pool, p, q);
    } else {
      assert Older(pool, q, p);
    }
  }

  // ---------------------------------------------------------------- ending several items

  /** The pool once the items listed are released. */
  ghost function Released(pool: seq<Item>, items: seq<nat>): seq<Item> {
    seq(|pool|, p requires 0 <= p < |pool| => if p in items then Freed(pool[p]) else pool[p])
  }

  ghost predicate DistinctLive(pool: seq<Item>, items: seq<nat>) {
    && (forall i :: 0 <= i < |items| ==> Live(pool, items[i]))
    && forall i, j :: 0 <= i < j < |items| ==> items[i] != items[j]
  }

  /** The calls that end the items listed, in that order. */
  ghost function EndingsOf(pool: seq<Item>, items: seq<nat>, status: Status): seq<Ending>
    requires forall i :: 0 <= i < |items| ==> Live(pool, items[i])
  {
    seq(|items|, i requires 0 <= i < |items| && Live(pool, items[i]) => Ending(pool[items[i]].record.value, status))
  }

  lemma {:induction false} ReleaseNext(pool: seq<Item>, items: seq<nat>, i: nat)
    requires DistinctLive(pool, items) && i < |items|
    ensures var now := Released(pool, items[..i]);
      && Live(now, items[i]) && now[items[i]] == pool[items[i]]
      && now[items[i] := Freed(now[items[i]])] == Released(pool, items[..i + 1])
  {
    var now := Released(pool, items[..i]);
    assert items[..i + 1] == items[..i] + [items[i]];
    assert items[i] !in items[..i];
  }

  lemma {:induction false} EndingsNext(pool: seq<Item>, items: seq<nat>, status: Status, i: nat)
    requires DistinctLive(pool, items) && i < |items|
    ensures EndingsOf(pool, items[..i + 1], status) == EndingsOf(pool, items[..i], status) + [Ending(pool[items[i]].record.value, status)]
  {
  }
}
