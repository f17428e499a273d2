/**
 * Signal stretches spread over blocks: a block's page tells which stretches begin in it and closes
 * the ones before them, a last page closes the rest.
 */
module ActivityPages {
  import opened Options
  import opened ActivityStretches

  const WORD_MAX: int := 0xFFFF_FFFF

  /** The first and last time of a wave block. */
  datatype Block = Block(aux0: Time, aux1: Time)

  /** The columns of a page, as the numbers in them. */
  datatype Columns = Columns(signals: seq<nat>, heads: seq<nat>, firsts: seq<nat>, lengths: seq<nat>, silences: seq<nat>, gaps: seq<nat>)

  datatype Page = Page(begin: Time, end: Time, rows: nat, closed: nat, columns: Columns)

  const NO_COLUMNS: Columns := Columns([], [], [], [], [], [])

  function Plus(a: Columns, b: Columns): Columns {
    Columns(a.signals + b.signals, a.heads + b.heads, a.firsts + b.firsts,
            a.lengths + b.lengths, a.silences + b.silences, a.gaps + b.gaps)
  }

  lemma {:induction false} PlusFacts(a: Columns, b: Columns, c: Columns)
    ensures Plus(Plus(a, b), c) == Plus(a, Plus(b, c))
    ensures Plus(a, NO_COLUMNS) == a && Plus(NO_COLUMNS, a) == a
  {
    assert a.signals + b.signals + c.signals == a.signals + (b.signals + c.signals);
    assert a.heads + b.heads + c.heads == a.heads + (b.heads + c.heads);
    assert a.firsts + b.firsts + c.firsts == a.firsts + (b.firsts + c.firsts);
    assert a.lengths + b.lengths + c.lengths == a.lengths + (b.lengths + c.lengths);
    assert a.silences + b.silences + c.silences == a.silences + (b.silences + c.silences);
    assert a.gaps + b.gaps + c.gaps == a.gaps + (b.gaps + c.gaps);
  }

  // ---------------------------------------------------------------- what a page says

  /** How many stretches after `closed` begin up to `limit`, counted from the start of the list. */
  function CountUpTo(list: seq<Stretch>, closed: nat, limit: Time): (count: nat)
    requires closed < |list|
    ensures closed <= count < |list|
    ensures forall i :: closed < i <= count ==> list[i].begin <= limit
    ensures count + 1 < |list| ==> list[count + 1].begin > limit
    decreases |list| - closed
  {
    if closed + 1 < |list| && list[closed + 1].begin <= limit then CountUpTo(list, closed + 1, limit) else closed
  }

  /** The closures of the stretches from `from` up to `to`. */
  function Closures(list: seq<Stretch>, from: nat, to: nat): Columns
    requires from <= to && to < |list|
    decreases |list| - from
  {
    if from == to then NO_COLUMNS
    else Plus(Columns([], [], [], [Sub(list[from].end, list[from].begin)], [Sub(list[from + 1].begin, list[from].end)], [list[from].gap]),
              Closures(list, from + 1, to))
  }

  lemma {:induction false} ClosuresAppend(list: seq<Stretch>, from: nat, to: nat)
    requires from <= to && to + 1 < |list|
    ensures Closures(list, from, to + 1) ==
            Plus(Closures(list, from, to),
                 Columns([], [], [], [Sub(list[to].end, list[to].begin)], [Sub(list[to + 1].begin, list[to].end)], [list[to].gap]))
    decreases |list| - from
  {
    var last := Columns([], [], [], [Sub(list[to].end, list[to].begin)], [Sub(list[to + 1].begin, list[to].end)], [list[to].gap]);
    if from == to {
      assert Closures(list, to + 1, to + 1) == NO_COLUMNS;
      PlusFacts(last, last, last);
    } else {
      ClosuresAppend(list, from + 1, to);
      var head := Columns([], [], [], [Sub(list[from].end, list[from].begin)], [Sub(list[from + 1].begin, list[from].end)], [list[from].gap]);
      PlusFacts(head, Closures(list, from + 1, to), last);
    }
  }

  predicate Initial(list: seq<Stretch>, first: bool, block: Block)
    requires list != []
  {
    !first && list[0].begin <= block.aux1
  }

  /** The signal has something to say about the block. */
  predicate HasRow(list: seq<Stretch>, closed: nat, first: bool, block: Block)
    requires list == [] || closed < |list|
  {
    list != [] && (Initial(list, first, block) || CountUpTo(list, closed, block.aux1) > closed)
  }

  function RowOf(list: seq<Stretch>, closed: nat, first: bool, block: Block, delta: nat): Columns
    requires closed < |list|
  {
    var count := CountUpTo(list, closed, block.aux1);
    var initial := Initial(list, first, block);
    Plus(Columns([delta], [(count - closed) * 2 + (if initial then 1 else 0)],
                 if initial then [Sub(list[0].begin, block.aux0)] else [], [], [], []),
         Closures(list, closed, count))
  }

  /** Where the writer stands in each signal's list: how many stretches are closed, and whether the first was told. */
  ghost predicate Placed(lists: seq<seq<Stretch>>, closed: seq<nat>, first: seq<bool>) {
    && |closed| == |first| == |lists|
    && forall s :: 0 <= s < |lists| ==> PlacedAt(lists[s], closed[s], first[s])
  }

  ghost predicate PlacedAt(list: seq<Stretch>, closed: nat, first: bool) {
    if list == [] then closed == 0 && !first else closed < |list| && (!first ==> closed == 0)
  }

  /** The rows of the signals from `s` on; `previous` is the signal of the row before. */
  ghost function RowsFrom(lists: seq<seq<Stretch>>, closed: seq<nat>, first: seq<bool>, block: Block, s: nat, previous: nat): Columns
    requires Placed(lists, closed, first) && previous <= s <= |lists|
    decreases |lists| - s
  {
    if s == |lists| then NO_COLUMNS
    else
      assert PlacedAt(lists[s], closed[s], first[s]);
      if HasRow(lists[s], closed[s], first[s], block)
      then Plus(RowOf(lists[s], closed[s], first[s], block, s - previous), RowsFrom(lists, closed, first, block, s + 1, s))
      else RowsFrom(lists, closed, first, block, s + 1, previous)
  }

  /** Where the writer stands after a block. */
  function ClosedAfter(list: seq<Stretch>, closed: nat, limit: Time): nat {
    if closed < |list| then CountUpTo(list, closed, limit) else closed
  }

  predicate FirstAfter(list: seq<Stretch>, first: bool, limit: Time) {
    first || (list != [] && list[0].begin <= limit)
  }

  /** The first stretch would be told in a block that begins after it. */
  predicate TooEarly(list: seq<Stretch>, first: bool, block: Block) {
    list != [] && Initial(list, first, block) && list[0].begin < block.aux0
  }

  // ---------------------------------------------------------------- writing

  /** The page of one block, unless a first stretch begins before it or there are too many closures. */
  method EncodeBlock(lists: seq<seq<Stretch>>, closed0: seq<nat>, first0: seq<bool>, block: Block)
    returns (page: Option<Page>, closed: seq<nat>, first: seq<bool>)
    requires Placed(lists, closed0, first0)
    ensures page.Some? ==>
              && |closed| == |first| == |lists|
              && (forall s :: 0 <= s < |lists| ==> closed[s] == ClosedAfter(lists[s], closed0[s], block.aux1) &&
                                                   first[s] == FirstAfter(lists[s], first0[s], block.aux1))
              && page.value.columns == RowsFrom(lists, closed0, first0, block, 0, 0)
              && page.value == Page(block.aux0, block.aux1, |page.value.columns.signals|, |page.value.columns.lengths|, page.value.columns)
    ensures page.None? <==>
              || (exists s :: 0 <= s < |lists| && TooEarly(lists[s], first0[s], block))
              || |RowsFrom(lists, closed0, first0, block, 0, 0).lengths| > WORD_MAX
  {
    hide Plus, Closures, RowOf, CountUpTo, ClosedAfter, FirstAfter;
    closed, first := closed0, first0;
    var columns := NO_COLUMNS;
    var previous: nat, rows: nat, total: nat := 0, 0, 0;
    ghost var all := RowsFrom(lists, closed0, first0, block, 0, 0);
    PlusFacts(all, all, all);
    for s := 0 to |lists|
      invariant |closed| == |first| == |lists| && rows == |columns.signals| && total == |columns.lengths| && previous <= s
      invariant forall k :: s <= k < |lists| ==> closed[k] == closed0[k] && first[k] == first0[k]
      invariant forall k :: 0 <= k < s ==> closed[k] == ClosedAfter(lists[k], closed0[k], block.aux1) &&
                                           first[k] == FirstAfter(lists[k], first0[k], block.aux1)
      invariant Plus(columns, RowsFrom(lists, closed0, first0, block, s, previous)) == all
      invariant total <= WORD_MAX && forall k :: 0 <= k < s ==> !TooEarly(lists[k], first0[k], block)
    {
      var list := lists[s];
      assert PlacedAt(list, closed0[s], first0[s]);
      MovesOnBy(list, closed0[s], first0[s], block);
      if list != [] {
        var initial := Initial(list, first[s], block);
        var count := CountUpTo(list, closed[s], block.aux1);
        if initial || count > closed[s] {
          if initial && list[0].begin < block.aux0 {
            return None, closed, first;
          }
          var row := WriteRow(list, closed[s], first[s], block, s - previous);
          RowCounts(list, closed[s], first[s], block, s - previous);
          ghost var rest := RowsFrom(lists, closed0, first0, block, s + 1, s);
          PlusFacts(columns, row, rest);
          PlusCounts(columns, row);
          PlusCounts(row, rest);
          PlusCounts(columns, Plus(row, rest));
          if count - closed[s] > WORD_MAX - total {
            return None, closed, first;
          }
          columns := Plus(columns, row);
          previous := s;
          rows, total := rows + 1, total + (count - closed[s]);
          closed, first := closed[s := count], first[s := first[s] || initial];
        }
      }
    }
    PlusFacts(columns, columns, columns);
    page := Some(Page(block.aux0, block.aux1, rows, total, columns));
  }

  /** Where the writer stands in one list after a block. */
  lemma {:induction false} MovesOnBy(list: seq<Stretch>, closed: nat, first: bool, block: Block)
    requires PlacedAt(list, closed, first)
    ensures list == [] || !HasRow(list, closed, first, block) ==>
              ClosedAfter(list, closed, block.aux1) == closed && FirstAfter(list, first, block.aux1) == first
    ensures list != [] ==>
              && ClosedAfter(list, closed, block.aux1) == CountUpTo(list, closed, block.aux1)
              && FirstAfter(list, first, block.aux1) == (first || Initial(list, first, block))
  {
    hide CountUpTo;
  }

  lemma {:induction false} PlusCounts(a: Columns, b: Columns)
    ensures |Plus(a, b).signals| == |a.signals| + |b.signals| && |Plus(a, b).lengths| == |a.lengths| + |b.lengths|
  {
  }

  /** One row of a block's page: the first stretch if it begins here, and the closures. */
  method WriteRow(list: seq<Stretch>, closed: nat, first: bool, block: Block, delta: nat) returns (row: Columns)
    requires closed < |list|
    ensures row == RowOf(list, closed, first, block, delta)
  {
    hide Plus, Closures, CountUpTo;
    var count := CountUpTo(list, closed, block.aux1);
    var initial := Initial(list, first, block);
    var head := Columns([delta], [(count - closed) * 2 + (if initial then 1 else 0)],
                        if initial then [Sub(list[0].begin, block.aux0)] else [], [], [], []);
    row := head;
    PlusFacts(head, head, head);
    ClosuresNone(list, closed);
    for i := closed to count
      invariant closed <= i && row == Plus(head, Closures(list, closed, i))
    {
      var closure := Columns([], [], [], [Sub(list[i].end, list[i].begin)], [Sub(list[i + 1].begin, list[i].end)], [list[i].gap]);
      ClosuresAppend(list, closed, i);
      PlusFacts(head, Closures(list, closed, i), closure);
      row := Plus(row, closure);
    }
  }

  lemma {:induction false} ClosuresNone(list: seq<Stretch>, closed: nat)
    requires closed < |list|
    ensures Closures(list, closed, closed) == NO_COLUMNS
  {
  }

  lemma {:induction false} ClosureCounts(list: seq<Stretch>, from: nat, to: nat)
    requires from <= to && to < |list|
    ensures |Closures(list, from, to).lengths| == |Closures(list, from, to).silences| == |Closures(list, from, to).gaps| == to - from
    ensures Closures(list, from, to).signals == [] && Closures(list, from, to).heads == [] && Closures(list, from, to).firsts == []
    decreases |list| - from
  {
    if from < to {
      ClosureCounts(list, from + 1, to);
    }
  }

  lemma {:induction false} RowCounts(list: seq<Stretch>, closed: nat, first: bool, block: Block, delta: nat)
    requires closed < |list|
    ensures |RowOf(list, closed, first, block, delta).signals| == 1
    ensures |RowOf(list, closed, first, block, delta).lengths| == CountUpTo(list, closed, block.aux1) - closed
  {
    ClosureCounts(list, closed, CountUpTo(list, closed, block.aux1));
  }
}
