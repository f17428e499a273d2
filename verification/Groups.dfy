/**
 * The items that share a key, by sequence number: four in place and the rest in an overflow list.
 */
module Groups {

  const INLINE: nat := 4

  ghost predicate Ascending<T>(sequence: T -> nat, items: seq<T>) {
    forall j, k :: 0 <= j < k < |items| ==> sequence(items[j]) < sequence(items[k])
  }

  /** An ascending list is determined by what it holds. */
  lemma {:induction false} AscendingIsUnique<T>(sequence: T -> nat, a: seq<T>, b: seq<T>)
    requires Ascending(sequence, a) && Ascending(sequence, b) && multiset(a) == multiset(b)
    ensures a == b
  {
    hide Ascending;
    if a == [] {
      assert |multiset(b)| == 0;
    } else {
      SameHead(sequence, a, b);
      WithoutHead(sequence, a);
      WithoutHead(sequence, b);
      AscendingIsUnique(sequence, a[1..], b[1..]);
    }
  }

  lemma {:induction false} WithoutHead<T>(sequence: T -> nat, a: seq<T>)
    requires Ascending(sequence, a) && a != []
    ensures a == [a[0]] + a[1..] && Ascending(sequence, a[1..]) && multiset(a[1..]) == multiset(a) - multiset{a[0]}
  {
    assert a == [a[0]] + a[1..];
  }

  lemma {:induction false} SameHead<T>(sequence: T -> nat, a: seq<T>, b: seq<T>)
    requires Ascending(sequence, a) && Ascending(sequence, b) && multiset(a) == multiset(b) && a != []
    ensures b != [] && a[0] == b[0]
  {
    assert |multiset(a)| == |multiset(b)|;
    assert a[0] in multiset(b) && b[0] in multiset(a);
    LeastComesFirst(sequence, b, a[0]);
    LeastComesFirst(sequence, a, b[0]);
  }

  lemma {:induction false} LeastComesFirst<T>(sequence: T -> nat, items: seq<T>, x: T)
    requires Ascending(sequence, items) && items != [] && x in items
    ensures sequence(items[0]) <= sequence(x) && (sequence(x) <= sequence(items[0]) ==> items[0] == x)
  {
  }

  /** `x` put in at `p`, where everything before is smaller and everything after is larger. */
  lemma {:induction false} InsertKeeps<T>(sequence: T -> nat, items: seq<T>, p: nat, x: T)
    requires Ascending(sequence, items) && p <= |items|
    requires p > 0 ==> sequence(items[p - 1]) < sequence(x)
    requires p < |items| ==> sequence(x) < sequence(items[p])
    ensures Ascending(sequence, items[..p] + [x] + items[p..])
    ensures multiset(items[..p] + [x] + items[p..]) == multiset(items) + multiset{x}
  {
    InsertCounts(items, p, x);
    var all := items[..p] + [x] + items[p..];
    forall j, k | 0 <= j < k < |all|
      ensures sequence(all[j]) < sequence(all[k])
    {
      InsertedAt(sequence, items, p, x, j);
      InsertedAt(sequence, items, p, x, k);
    }
  }

  lemma {:induction false} InsertCounts<T>(items: seq<T>, p: nat, x: T)
    requires p <= |items|
    ensures multiset(items[..p] + [x] + items[p..]) == multiset(items) + multiset{x}
  {
    assert items == items[..p] + items[p..];
  }

  lemma {:induction false} InsertedAt<T>(sequence: T -> nat, items: seq<T>, p: nat, x: T, k: nat)
    requires Ascending(sequence, items) && p <= |items| && k <= |items|
    requires p > 0 ==> sequence(items[p - 1]) < sequence(x)
    requires p < |items| ==> sequence(x) < sequence(items[p])
    ensures var all := items[..p] + [x] + items[p..];
      && all[k] == (if k < p then items[k] else if k == p then x else items[k - 1])
      && (k < p ==> sequence(all[k]) < sequence(x)) && (k > p ==> sequence(all[k]) > sequence(x))
  {
  }

  /** `now` is `was` without `item`, in the same order. */
  ghost predicate Without<T>(sequence: T -> nat, was: seq<T>, now: seq<T>, item: T) {
    Ascending(sequence, now) && multiset(now) == multiset(was) - multiset{item} && item !in now
  }

  /** What remains when the item at `p` is taken out. */
  lemma {:induction false} RemoveKeeps<T>(sequence: T -> nat, items: seq<T>, p: nat)
    requires Ascending(sequence, items) && p < |items|
    ensures Without(sequence, items, items[..p] + items[p + 1..], items[p])
  {
    hide Ascending;
    var before, after := items[..p], items[p + 1..];
    assert items == before + [items[p]] + after;
    RemoveAscends(sequence, items, p);
  }

  lemma {:induction false} RemoveAscends<T>(sequence: T -> nat, items: seq<T>, p: nat)
    requires Ascending(sequence, items) && p < |items|
    ensures Ascending(sequence, items[..p] + items[p + 1..]) && items[p] !in items[..p] + items[p + 1..]
  {
    var rest := items[..p] + items[p + 1..];
    forall k | 0 <= k < |rest|
      ensures rest[k] == items[if k < p then k else k + 1] && rest[k] != items[p]
    {
    }
  }

  lemma {:induction false} AbsentKeeps<T>(sequence: T -> nat, items: seq<T>, x: T)
    requires Ascending(sequence, items) && x !in items
    ensures Without(sequence, items, items, x)
  {
  }

  class Group<T(==)> {
    const sequence: T -> nat
    const first: array<T>
    var count: nat
    var more: seq<T>

    ghost predicate Shaped()
      reads this, first
    {
      first.Length == INLINE && count <= INLINE && (more != [] ==> count == INLINE)
    }

    ghost function Contents(): seq<T>
      reads this, first
      requires Shaped()
    {
      first[..count] + more
    }

    ghost predicate Valid()
      reads this, first
    {
      Shaped() && Ascending(sequence, Contents())
    }

    constructor (sequence: T -> nat, filler: T)
      ensures Valid() && Contents() == [] && fresh(first)
    {
      this.sequence := sequence;
      first := new T[INLINE](_ => filler);
      count, more := 0, [];
    }

    /** A group of these items, oldest first. */
    constructor Holding(sequence: T -> nat, items: seq<T>, filler: T)
      requires Ascending(sequence, items)
      ensures Valid() && Contents() == items && fresh(first) && this.sequence == sequence
    {
      this.sequence := sequence;
      first := new T[INLINE](k => if 0 <= k < |items| then items[k] else filler);
      count := if |items| < INLINE then |items| else INLINE;
      more := if |items| < INLINE then [] else items[INLINE..];
    }

    function Size(): (n: nat)
      reads this, first
      requires Shaped()
      ensures n == |Contents()|
    {
      count + |more|
    }

    function At(index: nat): (item: T)
      reads this, first
      requires Shaped() && index < Size()
      ensures item == Contents()[index]
    {
      if index < INLINE then first[index] else more[index - INLINE]
    }

    /** `snapshot`: the items, oldest first. */
    method Snapshot() returns (target: seq<T>)
      requires Shaped()
      ensures target == Contents()
    {
      target := [];
      for i := 0 to Size()
        invariant target == Contents()[..i]
      {
        target := target + [At(i)];
      }
    }

    /** The item joins the group at the place its sequence number gives it. */
    method Insert(item: T)
      requires Valid() && forall other :: other in Contents() ==> sequence(other) != sequence(item)
      modifies this`count, this`more, first
      ensures Valid() && multiset(Contents()) == old(multiset(Contents())) + multiset{item}
    {
      ghost var was := Contents();
      var pos: nat := Size();
      while pos > 0 && sequence(At(pos - 1)) > sequence(item)
        invariant pos <= |was|
        invariant pos < |was| ==> sequence(item) < sequence(was[pos])
      {
        pos := pos - 1;
      }
      assert pos > 0 ==> was[pos - 1] in was;
      InsertKeeps(sequence, was, pos, item);
      PutIn(pos, item);
    }

    method PutIn(pos: nat, item: T)
      requires Shaped() && pos <= |Contents()|
      modifies this`count, this`more, first
      ensures Shaped() && Contents() == old(Contents()[..pos] + [item] + Contents()[pos..])
    {
      if count < INLINE {
        MoveUp(pos, count);
        first[pos] := item;
        count := count + 1;
      } else if pos < INLINE {
        more := [first[INLINE - 1]] + more;
        MoveUp(pos, INLINE - 1);
        first[pos] := item;
      } else {
        more := more[..pos - INLINE] + [item] + more[pos - INLINE..];
      }
    }

    /** The inline items from `from` up to `to` move one place up. */
    method MoveUp(from: nat, to: nat)
      requires from <= to < first.Length
      modifies first
      ensures forall k :: 0 <= k < first.Length ==>
                first[k] == if from < k <= to then old(first[k - 1]) else old(first[k])
    {
      var k := to;
      while k > from
        invariant from <= k <= to
        invariant forall m :: 0 <= m < first.Length ==>
                    first[m] == if k < m <= to then old(first[m - 1]) else old(first[m])
      {
        first[k] := first[k - 1];
        k := k - 1;
      }
    }

    /** The inline items after `at`, up to `to`, move one place down. */
    method MoveDown(at: nat, to: nat)
      requires at < to <= first.Length
      modifies first
      ensures forall k :: 0 <= k < first.Length ==>
                first[k] == if at <= k < to - 1 then old(first[k + 1]) else old(first[k])
    {
      for k := at to to - 1
        invariant forall m :: 0 <= m < first.Length ==>
                    first[m] == if at <= m < k then old(first[m + 1]) else old(first[m])
      {
        first[k] := first[k + 1];
      }
    }

    method TakeOut(at: nat)
      requires Shaped() && at < count
      modifies this`count, this`more, first
      ensures Shaped() && Contents() == old(Contents()[..at] + Contents()[at + 1..])
    {
      ghost var was := Contents();
      MoveDown(at, count);
      if more == [] {
        count := count - 1;
      } else {
        first[INLINE - 1] := more[0];
        more := more[1..];
      }
      ghost var now, rest := Contents(), was[..at] + was[at + 1..];
      forall k | 0 <= k < |rest|
        ensures now[k] == rest[k]
      {
        assert rest[k] == was[if k < at then k else k + 1];
      }
    }

    /** The item leaves the group, and the first overflow item takes an inline place that came free. */
    method Erase(item: T)
      requires Valid()
      modifies this`count, this`more, first
      ensures Shaped() && Without(sequence, old(Contents()), Contents(), item)
    {
      hide Ascending, Without;
      for i := 0 to count
        invariant forall k :: 0 <= k < i ==> first[k] != item
      {
        if first[i] == item {
          RemoveKeeps(sequence, Contents(), i);
          TakeOut(i);
          return;
        }
      }
      EraseOverflow(item);
    }

    method EraseOverflow(item: T)
      requires Valid() && item !in first[..count]
      modifies this`more
      ensures Shaped() && Without(sequence, old(Contents()), Contents(), item)
    {
      hide Ascending, Without;
      for i := 0 to |more|
        invariant item !in more[..i]
      {
        if more[i] == item {
          ghost var was := Contents();
          RemoveKeeps(sequence, was, count + i);
          more := more[..i] + more[i + 1..];
          assert Contents() == was[..count + i] + was[count + i + 1..];
          return;
        }
      }
      assert more[..|more|] == more;
      AbsentKeeps(sequence, Contents(), item);
    }

    method Clear()
      requires Valid()
      modifies this`count, this`more
      ensures Valid() && Contents() == []
    {
      count, more := 0, [];
    }
  }
}
