/** Reading the pages back: each signal carries its open stretch from block to block. */
module ActivityReading {
  import opened Options
  import opened ActivityStretches
  import opened ActivityPages

  // ---------------------------------------------------------------- what the reader has of one signal

  /** The stretches closed so far lie apart, and the open one begins after them. */
  ghost predicate PartialOk(built: seq<Stretch>, start: Option<Time>, minimum: Time) {
    && Apart(built) && Steps(built) && (forall k :: 0 <= k < |built| ==> built[k].begin > minimum)
    && (start.None? ==> built == [])
    && (start.Some? ==> start.value > minimum && (built != [] ==> built[|built| - 1].end + 1 < start.value))
  }

  /** The reader has what the writer told of `list` so far. */
  ghost predicate ShowsAt(list: seq<Stretch>, closed: nat, first: bool, start: Option<Time>, built: seq<Stretch>) {
    && PlacedAt(list, closed, first)
    && (list == [] ==> built == [] && start.None?)
    && (list != [] ==> built == list[..closed] && start == if first then Some(list[closed].begin) else None)
  }

  /** What a stretch list must satisfy to be written over blocks that end at `limit`. */
  ghost predicate Sound(list: seq<Stretch>, minimum: Time, limit: Time) {
    && Apart(list) && Steps(list)
    && forall i :: 0 <= i < |list| ==> minimum < list[i].begin && list[i].end <= limit
  }

  /** Whatever of the list is not told yet and begins by the end of the block begins in the block. */
  ghost predicate DueIn(list: seq<Stretch>, closed: nat, first: bool, block: Block) {
    && (list != [] && Initial(list, first, block) ==> block.aux0 <= list[0].begin)
    && forall i :: closed < i < |list| && list[i].begin <= block.aux1 ==> block.aux0 <= list[i].begin
  }

  /** The next closure of several. */
  lemma {:induction false} NextClosure(list: seq<Stretch>, i: nat, to: nat, rest: Columns)
    requires i < to < |list|
    ensures var cols := Plus(Closures(list, i, to), rest);
      && cols.lengths != [] && cols.silences != [] && cols.gaps != []
      && cols.lengths[0] == Sub(list[i].end, list[i].begin) && cols.silences[0] == Sub(list[i + 1].begin, list[i].end)
      && cols.gaps[0] == list[i].gap
      && cols.(lengths := cols.lengths[1..], silences := cols.silences[1..], gaps := cols.gaps[1..])
         == Plus(Closures(list, i + 1, to), rest)
  {
    var tail := Closures(list, i + 1, to);
    var one := Columns([], [], [], [Sub(list[i].end, list[i].begin)], [Sub(list[i + 1].begin, list[i].end)], [list[i].gap]);
    assert Closures(list, i, to) == Plus(one, tail);
    PlusFacts(one, tail, rest);
    var after := Plus(tail, rest);
    DropFirst(one.lengths[0], after.lengths);
    DropFirst(one.silences[0], after.silences);
    DropFirst(one.gaps[0], after.gaps);
    assert [] + after.signals == after.signals && [] + after.heads == after.heads && [] + after.firsts == after.firsts;
  }

  lemma {:induction false} DropFirst(x: nat, rest: seq<nat>)
    ensures ([x] + rest)[1..] == rest
  {
  }

  /** The open stretch is closed after `length`, unless that makes no sense. */
  function Close(start: Option<Time>, length: nat, gap: nat, limit: Time): Option<Stretch> {
    if start.None? || length > LAST - start.value || gap > 1 || gap > length || (length == 0) != (gap == 0) then None
    else if start.value + length > limit then None
    else Some(Stretch(start.value, start.value + length, gap))
  }

  lemma {:induction false} ClosedIsApart(built: seq<Stretch>, start: Option<Time>, minimum: Time, s: Stretch)
    requires PartialOk(built, start, minimum) && start == Some(s.begin) && s.begin <= s.end && StepOk(s)
    ensures Apart(built + [s]) && Steps(built + [s]) && forall k :: 0 <= k < |built| + 1 ==> (built + [s])[k].begin > minimum
  {
    var built' := built + [s];
    forall j, k | 0 <= j < k < |built'|
      ensures Before(built'[j], built'[k])
    {
      if k < |built| {
        assert Before(built[j], built[k]);
      } else {
        assert j < |built| - 1 ==> Before(built[j], built[|built| - 1]);
      }
    }
  }

  /** A written closure reads back as its stretch, with the next one after it. */
  lemma {:induction false} CloseReads(list: seq<Stretch>, i: nat, minimum: Time, limit: Time)
    requires Sound(list, minimum, limit) && i < |list|
    ensures Close(Some(list[i].begin), Sub(list[i].end, list[i].begin), list[i].gap, limit) == Some(list[i])
    ensures i + 1 < |list| ==> 1 < Sub(list[i + 1].begin, list[i].end) == list[i + 1].begin - list[i].end
  {
    assert StepOk(list[i]);
    assert i + 1 < |list| ==> Before(list[i], list[i + 1]);
  }

  // ---------------------------------------------------------------- one row

  /** The closures of one row. When they are those written, they read back as the stretches. */
  method ReadClosures(cols0: Columns, number: nat, start0: Option<Time>, built0: seq<Stretch>, block: Block, minimum: Time, limit: Time,
                      ghost told: bool, ghost list: seq<Stretch>, ghost from: nat, ghost to: nat, ghost rest: Columns)
    returns (ok: bool, cols: Columns, start: Option<Time>, built: seq<Stretch>)
    requires PartialOk(built0, start0, minimum)
    requires told ==> from <= to < |list| && number == to - from && cols0 == Plus(Closures(list, from, to), rest)
    requires told ==> start0 == Some(list[from].begin) && built0 == list[..from] && Sound(list, minimum, limit)
    requires told ==> forall i :: from < i <= to ==> block.aux0 <= list[i].begin <= block.aux1
    ensures ok ==> PartialOk(built, start, minimum)
    ensures told ==> ok && cols == rest && start == Some(list[to].begin) && built == list[..to]
  {
    hide Plus, Apart, Steps;
    cols, start, built := cols0, start0, built0;
    for j := 0 to number
      invariant PartialOk(built, start, minimum)
      invariant told ==> cols == Plus(Closures(list, from + j, to), rest) && start == Some(list[from + j].begin) && built == list[..from + j]
    {
      if told {
        NextClosure(list, from + j, to, rest);
        CloseReads(list, from + j, minimum, limit);
      }
      if cols.lengths == [] || cols.silences == [] || cols.gaps == [] {
        return false, cols, start, built;
      }
      var length, silence, gap := cols.lengths[0], cols.silences[0], cols.gaps[0];
      cols := cols.(lengths := cols.lengths[1..], silences := cols.silences[1..], gaps := cols.gaps[1..]);
      var stretch := Close(start, length, gap, limit);
      if stretch.None? {
        return false, cols, start, built;
      }
      var last := stretch.value.end;
      if silence <= 1 || silence > LAST - last || last + silence < block.aux0 || last + silence > block.aux1 {
        return false, cols, start, built;
      }
      ClosedIsApart(built, start, minimum, stretch.value);
      built := built + [stretch.value];
      start := Some(last + silence);
    }
    if told {
      ClosuresNone(list, to);
      PlusFacts(rest, rest, rest);
    }
    ok := true;
  }

  /** The numbers in front of a row's closures. */
  lemma {:induction false} RowHead(list: seq<Stretch>, closed: nat, first: bool, block: Block, rest: Columns)
    requires closed < |list|
    ensures var cols := Plus(RowOf(list, closed, first, block, 0).(signals := []), rest);
      var count, initial := CountUpTo(list, closed, block.aux1), Initial(list, first, block);
      && cols.heads != [] && cols.heads[0] == (count - closed) * 2 + (if initial then 1 else 0)
      && count - closed <= |cols.lengths|
      && (initial ==> cols.firsts != [] && cols.firsts[0] == Sub(list[0].begin, block.aux0))
      && cols.(heads := cols.heads[1..], firsts := if initial then cols.firsts[1..] else cols.firsts)
         == Plus(Closures(list, closed, count), rest)
  {
    var count, initial := CountUpTo(list, closed, block.aux1), Initial(list, first, block);
    var closures := Closures(list, closed, count);
    ClosureCounts(list, closed, count);
    assert [] + closures.lengths == closures.lengths && [] + closures.silences == closures.silences && [] + closures.gaps == closures.gaps;
    assert [] + rest.signals == rest.signals && [] + rest.heads == rest.heads && [] + rest.firsts == rest.firsts;
  }

  /** What a row tells fits the block it is in. */
  lemma {:induction false} RowIsDue(list: seq<Stretch>, closed: nat, first: bool, block: Block, minimum: Time, limit: Time)
    requires PlacedAt(list, closed, first) && list != [] && HasRow(list, closed, first, block) && DueIn(list, closed, first, block)
    requires Sound(list, minimum, limit)
    ensures Initial(list, first, block) ==>
              && closed == 0 && block.aux0 <= list[0].begin <= block.aux1 && list[0].begin > minimum
              && block.aux0 + Sub(list[0].begin, block.aux0) == list[0].begin
    ensures !Initial(list, first, block) ==> first && CountUpTo(list, closed, block.aux1) > closed
    ensures forall i :: closed < i <= CountUpTo(list, closed, block.aux1) ==> block.aux0 <= list[i].begin <= block.aux1
    ensures ClosedAfter(list, closed, block.aux1) == CountUpTo(list, closed, block.aux1) && FirstAfter(list, first, block.aux1)
  {
    var count := CountUpTo(list, closed, block.aux1);
    if count > closed {
      assert list[count].begin <= block.aux1;
      assert Before(list[0], list[count]) && list[0].begin <= list[0].end;
    }
  }

  /** The rest of one row, once its signal is known. When it is the row written, it reads back as what was told. */
  method ReadRow(cols0: Columns, start0: Option<Time>, built0: seq<Stretch>, block: Block, minimum: Time, limit: Time,
                 ghost told: bool, ghost list: seq<Stretch>, ghost closed: nat, ghost first: bool, ghost rest: Columns)
    returns (ok: bool, cols: Columns, start: Option<Time>, built: seq<Stretch>, number: nat)
    requires block.aux0 <= block.aux1 && PartialOk(built0, start0, minimum)
    requires told ==> list != [] && ShowsAt(list, closed, first, start0, built0) && HasRow(list, closed, first, block)
    requires told ==> Sound(list, minimum, limit) && DueIn(list, closed, first, block)
    requires told ==> cols0 == Plus(RowOf(list, closed, first, block, 0).(signals := []), rest)
    ensures ok ==> PartialOk(built, start, minimum)
    ensures told ==> ok && cols == rest && number == CountUpTo(list, closed, block.aux1) - closed
    ensures told ==> ShowsAt(list, ClosedAfter(list, closed, block.aux1), FirstAfter(list, first, block.aux1), start, built)
  {
    hide Plus, Apart, Steps, Closures, CountUpTo;
    cols, start, built, number := cols0, start0, built0, 0;
    ghost var to := if told then CountUpTo(list, closed, block.aux1) else 0;
    if told {
      RowHead(list, closed, first, block, rest);
      RowIsDue(list, closed, first, block, minimum, limit);
    }
    if cols.heads == [] {
      return false, cols, start, built, number;
    }
    var head := cols.heads[0];
    cols := cols.(heads := cols.heads[1..]);
    if head == 0 || head / 2 > |cols.lengths| {
      return false, cols, start, built, number;
    }
    number := head / 2;
    if head % 2 == 1 {
      if start.Some? || cols.firsts == [] {
        return false, cols, start, built, number;
      }
      var dt := cols.firsts[0];
      cols := cols.(firsts := cols.firsts[1..]);
      if dt > block.aux1 - block.aux0 || block.aux0 + dt <= minimum {
        return false, cols, start, built, number;
      }
      start := Some(block.aux0 + dt);
    }
    ok, cols, start, built := ReadClosures(cols, number, start, built, block, minimum, limit, told, list, closed, to, rest);
  }

  // ---------------------------------------------------------------- one block

  /** Signals without a row stay as they are. */
  ghost predicate Silent(lists: seq<seq<Stretch>>, closed: seq<nat>, first: seq<bool>, block: Block, s: nat)
    requires Placed(lists, closed, first) && s < |lists|
  {
    ClosedAfter(lists[s], closed[s], block.aux1) == closed[s] && FirstAfter(lists[s], first[s], block.aux1) == first[s]
  }

  /** The next signal from `s` on that has a row, if rows are left; all signals before it are silent. */
  lemma {:induction false} NextRow(lists: seq<seq<Stretch>>, closed: seq<nat>, first: seq<bool>, block: Block, s: nat, previous: nat)
    returns (q: nat)
    requires Placed(lists, closed, first) && previous <= s <= |lists|
    ensures s <= q <= |lists| && forall k :: s <= k < q ==> Silent(lists, closed, first, block, k)
    ensures var rows := RowsFrom(lists, closed, first, block, s, previous);
      if rows.signals == [] then q == |lists| && rows == NO_COLUMNS
      else q < |lists| && PlacedAt(lists[q], closed[q], first[q]) && lists[q] != [] && HasRow(lists[q], closed[q], first[q], block)
           && rows == Plus(RowOf(lists[q], closed[q], first[q], block, q - previous), RowsFrom(lists, closed, first, block, q + 1, q))
    decreases |lists| - s
  {
    hide Plus, CountUpTo, RowOf;
    if s == |lists| {
      q := s;
    } else {
      assert PlacedAt(lists[s], closed[s], first[s]);
      if HasRow(lists[s], closed[s], first[s], block) {
        q := s;
        RowCounts(lists[s], closed[s], first[s], block, s - previous);
        PlusCounts(RowOf(lists[s], closed[s], first[s], block, s - previous), RowsFrom(lists, closed, first, block, s + 1, s));
      } else {
        q := NextRow(lists, closed, first, block, s + 1, previous);
        assert Silent(lists, closed, first, block, s);
      }
    }
  }

  /** The reader has, of every signal, what the writer told of it. */
  ghost predicate Shows(lists: seq<seq<Stretch>>, closed: seq<nat>, first: seq<bool>, starts: seq<Option<Time>>, built: seq<seq<Stretch>>) {
    && Placed(lists, closed, first) && |starts| == |built| == |lists|
    && forall s :: 0 <= s < |lists| ==> ShowsAt(lists[s], closed[s], first[s], starts[s], built[s])
  }

  /** The page is the one the writer makes of the block. */
  ghost predicate Tells(page: Page, lists: seq<seq<Stretch>>, closed: seq<nat>, first: seq<bool>, block: Block, minimum: Time, limit: Time)
  {
    && |lists| <= WORD_MAX && Placed(lists, closed, first)
    && page.columns == RowsFrom(lists, closed, first, block, 0, 0)
    && page == Page(block.aux0, block.aux1, |page.columns.signals|, |page.columns.lengths|, page.columns)
    && forall s :: 0 <= s < |lists| ==> Sound(lists[s], minimum, limit) && DueIn(lists[s], closed[s], first[s], block)
  }

  ghost predicate AllPartial(starts: seq<Option<Time>>, built: seq<seq<Stretch>>, minimum: Time) {
    |starts| == |built| && forall s :: 0 <= s < |built| ==> PartialOk(built[s], starts[s], minimum)
  }

  /** The signals before `s` as after the block, the others as before it. */
  ghost predicate Midway(lists: seq<seq<Stretch>>, closed: seq<nat>, first: seq<bool>, block: Block, s: nat,
                         starts: seq<Option<Time>>, built: seq<seq<Stretch>>)
  {
    && Placed(lists, closed, first) && |starts| == |built| == |lists| && s <= |lists|
    && (forall k :: 0 <= k < s ==> ShowsAt(lists[k], ClosedAfter(lists[k], closed[k], block.aux1), FirstAfter(lists[k], first[k], block.aux1), starts[k], built[k]))
    && forall k :: s <= k < |lists| ==> ShowsAt(lists[k], closed[k], first[k], starts[k], built[k])
  }

  /** The rows still to read are those of the signals from `s` on. */
  ghost predicate RowsLeft(lists: seq<seq<Stretch>>, closed: seq<nat>, first: seq<bool>, block: Block, s: nat, signal: nat,
                           cols: Columns, rows: int, left: int)
  {
    && Placed(lists, closed, first) && signal <= s <= |lists|
    && cols == RowsFrom(lists, closed, first, block, s, signal) && rows == |cols.signals| && left == |cols.lengths|
  }

  lemma {:induction false} RowsBounded(lists: seq<seq<Stretch>>, closed: seq<nat>, first: seq<bool>, block: Block, s: nat, previous: nat)
    requires Placed(lists, closed, first) && previous <= s <= |lists|
    ensures |RowsFrom(lists, closed, first, block, s, previous).signals| <= |lists| - s
    decreases |lists| - s
  {
    hide RowOf;
    if s < |lists| {
      assert PlacedAt(lists[s], closed[s], first[s]);
      if HasRow(lists[s], closed[s], first[s], block) {
        RowsBounded(lists, closed, first, block, s + 1, s);
        RowCounts(lists[s], closed[s], first[s], block, s - previous);
      } else {
        RowsBounded(lists, closed, first, block, s + 1, previous);
      }
    }
  }

  lemma {:induction false} MidwayStarts(lists: seq<seq<Stretch>>, closed: seq<nat>, first: seq<bool>, block: Block,
                                        starts: seq<Option<Time>>, built: seq<seq<Stretch>>)
    requires Shows(lists, closed, first, starts, built)
    ensures Midway(lists, closed, first, block, 0, starts, built)
  {
  }

  /** A row in front of the others: its signal, its own numbers, and how many there are. */
  lemma {:induction false} RowStarts(lists: seq<seq<Stretch>>, closed: seq<nat>, first: seq<bool>, block: Block, q: nat, delta: nat, rest: Columns)
    requires Placed(lists, closed, first) && q < |lists| && closed[q] < |lists[q]|
    ensures var cols := Plus(RowOf(lists[q], closed[q], first[q], block, delta), rest);
      && cols.signals != [] && cols.signals[0] == delta
      && cols.(signals := cols.signals[1..]) == Plus(RowOf(lists[q], closed[q], first[q], block, 0).(signals := []), rest)
      && |rest.signals| == |cols.signals| - 1
      && |rest.lengths| == |cols.lengths| - (CountUpTo(lists[q], closed[q], block.aux1) - closed[q])
  {
    hide CountUpTo;
    var row := RowOf(lists[q], closed[q], first[q], block, delta);
    RowCounts(lists[q], closed[q], first[q], block, delta);
    ClosureCounts(lists[q], closed[q], CountUpTo(lists[q], closed[q], block.aux1));
    assert row.signals == [delta];
    DropFirst(delta, rest.signals);
    assert [] + rest.signals == rest.signals;
  }

  lemma {:induction false} PassSilent(lists: seq<seq<Stretch>>, closed: seq<nat>, first: seq<bool>, block: Block, s: nat, q: nat,
                                      starts: seq<Option<Time>>, built: seq<seq<Stretch>>)
    requires Midway(lists, closed, first, block, s, starts, built) && s <= q <= |lists|
    requires forall k :: s <= k < q ==> Silent(lists, closed, first, block, k)
    ensures Midway(lists, closed, first, block, q, starts, built)
  {
    hide ShowsAt, ClosedAfter, FirstAfter;
    forall k | 0 <= k < q
      ensures ShowsAt(lists[k], ClosedAfter(lists[k], closed[k], block.aux1), FirstAfter(lists[k], first[k], block.aux1), starts[k], built[k])
    {
      assert k >= s ==> Silent(lists, closed, first, block, k);
    }
  }

  lemma {:induction false} RowIsTold(page: Page, lists: seq<seq<Stretch>>, closed: seq<nat>, first: seq<bool>, block: Block,
                                     minimum: Time, limit: Time, q: nat)
    requires Tells(page, lists, closed, first, block, minimum, limit) && q < |lists|
    ensures |closed| == |first| == |lists|
    ensures Sound(lists[q], minimum, limit) && DueIn(lists[q], closed[q], first[q], block)
  {
  }

  lemma {:induction false} RowRead(lists: seq<seq<Stretch>>, closed: seq<nat>, first: seq<bool>, block: Block, q: nat,
                                   starts: seq<Option<Time>>, built: seq<seq<Stretch>>, start: Option<Time>, list: seq<Stretch>)
    requires Midway(lists, closed, first, block, q, starts, built) && q < |lists|
    requires ShowsAt(lists[q], ClosedAfter(lists[q], closed[q], block.aux1), FirstAfter(lists[q], first[q], block.aux1), start, list)
    ensures Midway(lists, closed, first, block, q + 1, starts[q := start], built[q := list])
  {
  }

  /** The page of one block, read back; what it refuses is never a page that was written. */
  method ReadBlock(page: Page, block: Block, minimum: Time, limit: Time, starts0: seq<Option<Time>>, built0: seq<seq<Stretch>>,
                   ghost told: bool, ghost lists: seq<seq<Stretch>>, ghost closed: seq<nat>, ghost first: seq<bool>)
    returns (ok: bool, starts: seq<Option<Time>>, built: seq<seq<Stretch>>)
    requires block.aux0 <= block.aux1 && AllPartial(starts0, built0, minimum)
    requires told ==> Tells(page, lists, closed, first, block, minimum, limit) && Shows(lists, closed, first, starts0, built0)
    ensures ok ==> AllPartial(starts, built, minimum) && |starts| == |starts0|
    ensures told ==> ok && Midway(lists, closed, first, block, |lists|, starts, built)
  {
    hide Plus, RowOf, RowsFrom, PartialOk, ShowsAt, Sound, DueIn, Placed, HasRow, Silent;
    ok, starts, built := false, starts0, built0;
    var cols := page.columns;
    if told {
      RowsBounded(lists, closed, first, block, 0, 0);
      MidwayStarts(lists, closed, first, block, starts, built);
    }
    if page.begin != block.aux0 || page.end != block.aux1 || page.rows > |starts| {
      return;
    }
    var signal: nat, observed: nat := 0, 0;
    ghost var s: nat := 0;
    for i := 0 to page.rows
      invariant AllPartial(starts, built, minimum) && |starts| == |starts0|
      invariant told ==> Midway(lists, closed, first, block, s, starts, built)
      invariant told ==> RowsLeft(lists, closed, first, block, s, signal, cols, page.rows - i, page.closed - observed)
      invariant told ==> s == if i == 0 then 0 else signal + 1
    {
      ghost var q: nat := 0;
      ghost var rest := NO_COLUMNS;
      if told {
        q := NextRow(lists, closed, first, block, s, signal);
        rest := RowsFrom(lists, closed, first, block, q + 1, q);
        if q < |lists| {
          RowStarts(lists, closed, first, block, q, q - signal, rest);
        }
        PassSilent(lists, closed, first, block, s, q, starts, built);
      }
      if cols.signals == [] {
        return;
      }
      var delta := cols.signals[0];
      cols := cols.(signals := cols.signals[1..]);
      if delta > WORD_MAX - signal || (i > 0 && delta == 0) || signal + delta >= |starts| {
        return;
      }
      signal := signal + delta;
      if told {
        RowIsTold(page, lists, closed, first, block, minimum, limit, q);
      }
      var good, start, list, number;
      ghost var toldList, toldClosed, toldFirst := if told then lists[q] else [], if told then closed[q] else 0, told && first[q];
      good, cols, start, list, number := ReadRow(cols, starts[signal], built[signal], block, minimum, limit,
                                                 told, toldList, toldClosed, toldFirst, rest);
      if !good {
        return;
      }
      ghost var startsWere, builtWas := starts, built;
      starts, built := starts[signal := start], built[signal := list];
      observed := observed + number;
      if told {
        RowRead(lists, closed, first, block, q, startsWere, builtWas, start, list);
      }
      s := q + 1;
    }
    if told {
      var q := NextRow(lists, closed, first, block, s, signal);
      PassSilent(lists, closed, first, block, s, q, starts, built);
    }
    ok := cols == NO_COLUMNS && observed == page.closed;
  }
}
