/** The signal part of an activity index: all block pages and the page of tails, written and read back. */
module ActivityIndex {
  import opened Options
  import opened ActivityStretches
  import opened ActivityPages
  import opened ActivityReading

  /** The columns of the last page: for each signal with stretches, the last one's length and gap. */
  datatype Tail = Tail(rows: nat, signals: seq<nat>, lengths: seq<nat>, gaps: seq<nat>)

  // ---------------------------------------------------------------- where the writer stands

  ghost function ClosedAt(list: seq<Stretch>, blocks: seq<Block>, k: nat): nat
    requires k <= |blocks|
  {
    if k == 0 then 0 else ClosedAfter(list, ClosedAt(list, blocks, k - 1), blocks[k - 1].aux1)
  }

  ghost function FirstAt(list: seq<Stretch>, blocks: seq<Block>, k: nat): bool
    requires k <= |blocks|
  {
    k > 0 && FirstAfter(list, FirstAt(list, blocks, k - 1), blocks[k - 1].aux1)
  }

  ghost function ClosedSeq(lists: seq<seq<Stretch>>, blocks: seq<Block>, k: nat): seq<nat>
    requires k <= |blocks|
  {
    seq(|lists|, s requires 0 <= s < |lists| => ClosedAt(lists[s], blocks, k))
  }

  ghost function FirstSeq(lists: seq<seq<Stretch>>, blocks: seq<Block>, k: nat): seq<bool>
    requires k <= |blocks|
  {
    seq(|lists|, s requires 0 <= s < |lists| => FirstAt(lists[s], blocks, k))
  }

  /** Blocks in time order. */
  ghost predicate InOrder(blocks: seq<Block>) {
    && (forall k :: 0 <= k < |blocks| ==> blocks[k].aux0 <= blocks[k].aux1)
    && forall j, k :: 0 <= j < k < |blocks| ==> NotAfter(blocks[j], blocks[k])
  }

  ghost predicate NotAfter(a: Block, b: Block) {
    a.aux0 <= b.aux0 && a.aux1 <= b.aux1
  }

  /** Some block covers time `t`. */
  ghost predicate InBlock(blocks: seq<Block>, t: Time) {
    exists j :: 0 <= j < |blocks| && blocks[j].aux0 <= t <= blocks[j].aux1
  }

  function Limit(blocks: seq<Block>): Time {
    if blocks == [] then 0 else blocks[|blocks| - 1].aux1
  }

  /** The stretches can be written over the blocks: each begins in a block and ends by the last one's end. */
  ghost predicate Writable(list: seq<Stretch>, blocks: seq<Block>, minimum: Time) {
    Sound(list, minimum, Limit(blocks)) && forall i :: 0 <= i < |list| ==> InBlock(blocks, list[i].begin)
  }

  /** After `k` blocks everything that began by the end of the last of them is told, and nothing else. */
  lemma {:induction false} ToldUpTo(list: seq<Stretch>, blocks: seq<Block>, k: nat)
    requires Apart(list) && InOrder(blocks) && k <= |blocks|
    ensures PlacedAt(list, ClosedAt(list, blocks, k), FirstAt(list, blocks, k))
    ensures k > 0 ==> forall i :: ClosedAt(list, blocks, k) < i < |list| ==> list[i].begin > blocks[k - 1].aux1
    ensures k > 0 && list != [] && list[0].begin <= blocks[k - 1].aux1 ==> FirstAt(list, blocks, k)
  {
    hide CountUpTo;
    if k > 0 {
      ToldUpTo(list, blocks, k - 1);
      if list != [] {
        CountStops(list, ClosedAt(list, blocks, k - 1), blocks[k - 1].aux1);
      }
    }
  }

  lemma {:induction false} CountStops(list: seq<Stretch>, closed: nat, limit: Time)
    requires Apart(list) && closed < |list|
    ensures forall i :: CountUpTo(list, closed, limit) < i < |list| ==> list[i].begin > limit
    ensures closed == 0 && list[0].begin > limit ==> CountUpTo(list, closed, limit) == 0
  {
    var count := CountUpTo(list, closed, limit);
    forall i | count < i < |list|
      ensures list[i].begin > limit
    {
      assert i > count + 1 ==> Before(list[count + 1], list[i]);
    }
    assert count > 0 ==> Before(list[0], list[count]);
  }

  /** What is told in a block begins in that block. */
  lemma {:induction false} TellsInTime(list: seq<Stretch>, blocks: seq<Block>, k: nat, minimum: Time)
    requires InOrder(blocks) && k < |blocks| && Writable(list, blocks, minimum)
    ensures DueIn(list, ClosedAt(list, blocks, k), FirstAt(list, blocks, k), blocks[k])
  {
    hide ClosedAt, FirstAt;
    ToldUpTo(list, blocks, k);
    var closed := ClosedAt(list, blocks, k);
    if list != [] && Initial(list, FirstAt(list, blocks, k), blocks[k]) {
      BeginsHere(blocks, k, list[0].begin);
    }
    forall i | closed < i < |list| && list[i].begin <= blocks[k].aux1
      ensures blocks[k].aux0 <= list[i].begin
    {
      BeginsHere(blocks, k, list[i].begin);
    }
  }

  /** A covered time after the previous block's end and not after this one's lies in this block. */
  lemma {:induction false} BeginsHere(blocks: seq<Block>, k: nat, t: Time)
    requires InOrder(blocks) && k < |blocks| && InBlock(blocks, t) && (k > 0 ==> t > blocks[k - 1].aux1)
    ensures blocks[k].aux0 <= t
  {
    var j :| 0 <= j < |blocks| && blocks[j].aux0 <= t <= blocks[j].aux1;
    if k > 0 {
      EndsInOrder(blocks, j, k - 1);
    }
    EndsInOrder(blocks, k, j);
  }

  lemma {:induction false} EndsInOrder(blocks: seq<Block>, j: nat, k: nat)
    requires InOrder(blocks) && j < |blocks| && k < |blocks|
    ensures j <= k ==> NotAfter(blocks[j], blocks[k])
  {
  }

  /** After the last block only each signal's last stretch is open. */
  lemma {:induction false} ToldAll(list: seq<Stretch>, blocks: seq<Block>, minimum: Time)
    requires InOrder(blocks) && Writable(list, blocks, minimum)
    ensures list != [] ==> ClosedAt(list, blocks, |blocks|) == |list| - 1 && FirstAt(list, blocks, |blocks|)
  {
    hide ClosedAt, FirstAt;
    ToldUpTo(list, blocks, |blocks|);
    if list != [] {
      assert InBlock(blocks, list[0].begin) && InBlock(blocks, list[|list| - 1].begin);
      assert list[0].begin <= list[0].end && list[|list| - 1].begin <= list[|list| - 1].end;
    }
  }

  // ---------------------------------------------------------------- writing

  ghost predicate WrittenPage(page: Page, lists: seq<seq<Stretch>>, blocks: seq<Block>, k: nat, minimum: Time)
    requires k < |blocks|
  {
    Tells(page, lists, ClosedSeq(lists, blocks, k), FirstSeq(lists, blocks, k), blocks[k], minimum, Limit(blocks))
  }

  /** The tails of the signals from `s` on. */
  ghost function TailFrom(lists: seq<seq<Stretch>>, s: nat, previous: nat): Tail
    requires previous <= s <= |lists|
    decreases |lists| - s
  {
    if s == |lists| then Tail(0, [], [], [])
    else if lists[s] == [] then TailFrom(lists, s + 1, previous)
    else
      var last, rest := lists[s][|lists[s]| - 1], TailFrom(lists, s + 1, s);
      Tail(rest.rows + 1, [s - previous] + rest.signals, [Sub(last.end, last.begin)] + rest.lengths, [last.gap as nat] + rest.gaps)
  }

  function Join(a: Tail, b: Tail): Tail {
    Tail(a.rows + b.rows, a.signals + b.signals, a.lengths + b.lengths, a.gaps + b.gaps)
  }

  lemma {:induction false} JoinFacts(a: Tail, b: Tail, c: Tail)
    ensures Join(Join(a, b), c) == Join(a, Join(b, c))
    ensures Join(a, Tail(0, [], [], [])) == a && Join(Tail(0, [], [], []), a) == a
  {
    assert a.signals + b.signals + c.signals == a.signals + (b.signals + c.signals);
    assert a.lengths + b.lengths + c.lengths == a.lengths + (b.lengths + c.lengths);
    assert a.gaps + b.gaps + c.gaps == a.gaps + (b.gaps + c.gaps);
  }

  method EncodeTail(lists: seq<seq<Stretch>>) returns (tail: Tail)
    ensures tail == TailFrom(lists, 0, 0)
  {
    hide Join;
    tail := Tail(0, [], [], []);
    ghost var all := TailFrom(lists, 0, 0);
    JoinFacts(all, all, all);
    var previous: nat := 0;
    for s := 0 to |lists|
      invariant previous <= s && Join(tail, TailFrom(lists, s, previous)) == all
    {
      if lists[s] != [] {
        var last := lists[s][|lists[s]| - 1];
        var row := Tail(1, [s - previous], [Sub(last.end, last.begin)], [last.gap as nat]);
        JoinFacts(tail, row, TailFrom(lists, s + 1, s));
        TailRow(row, lists, s, previous);
        tail := Join(tail, row);
        previous := s;
      }
    }
    JoinFacts(tail, tail, tail);
  }

  lemma {:induction false} TailRow(row: Tail, lists: seq<seq<Stretch>>, s: nat, previous: nat)
    requires previous <= s < |lists| && lists[s] != []
    requires var last := lists[s][|lists[s]| - 1];
      row == Tail(1, [s - previous], [Sub(last.end, last.begin)], [last.gap as nat])
    ensures TailFrom(lists, s, previous) == Join(row, TailFrom(lists, s + 1, s))
  {
  }

  /** All pages, unless some block would close more stretches than its count can tell. */
  method EncodeSignals(lists: seq<seq<Stretch>>, blocks: seq<Block>, minimum: Time) returns (r: Option<(seq<Page>, Tail)>)
    requires |lists| <= WORD_MAX && InOrder(blocks)
    requires forall s :: 0 <= s < |lists| ==> Writable(lists[s], blocks, minimum)
    ensures r.Some? ==>
              && |r.value.0| == |blocks| && (forall k :: 0 <= k < |blocks| ==> WrittenPage(r.value.0[k], lists, blocks, k, minimum))
              && r.value.1 == TailFrom(lists, 0, 0)
    ensures r.None? <==> exists k :: 0 <= k < |blocks| && TooMany(lists, blocks, k)
  {
    hide ClosedAt, FirstAt, RowsFrom, Writable, Sound, DueIn, InOrder;
    var closed, first := seq(|lists|, _ => 0), seq(|lists|, _ => false);
    StartsAtNothing(lists, blocks);
    var pages := [];
    for k := 0 to |blocks|
      invariant |pages| == k && closed == ClosedSeq(lists, blocks, k) && first == FirstSeq(lists, blocks, k)
      invariant forall j :: 0 <= j < k ==> WrittenPage(pages[j], lists, blocks, j, minimum) && !TooMany(lists, blocks, j)
    {
      PlacedHere(lists, blocks, k, minimum);
      var page;
      page, closed, first := EncodeBlock(lists, closed, first, blocks[k]);
      if page.None? {
        assert TooMany(lists, blocks, k);
        return None;
      }
      MovesOn(lists, blocks, k, closed, first);
      pages := pages + [page.value];
    }
    var tail := EncodeTail(lists);
    r := Some((pages, tail));
  }

  ghost predicate TooMany(lists: seq<seq<Stretch>>, blocks: seq<Block>, k: nat)
    requires k < |blocks|
  {
    && Placed(lists, ClosedSeq(lists, blocks, k), FirstSeq(lists, blocks, k))
    && |RowsFrom(lists, ClosedSeq(lists, blocks, k), FirstSeq(lists, blocks, k), blocks[k], 0, 0).lengths| > WORD_MAX
  }

  lemma {:induction false} StartsAtNothing(lists: seq<seq<Stretch>>, blocks: seq<Block>)
    ensures seq(|lists|, _ => 0) == ClosedSeq(lists, blocks, 0) && seq(|lists|, _ => false) == FirstSeq(lists, blocks, 0)
  {
  }

  /** Before each block the writer stands somewhere in each list, and what is due begins in the block. */
  lemma {:induction false} PlacedHere(lists: seq<seq<Stretch>>, blocks: seq<Block>, k: nat, minimum: Time)
    requires InOrder(blocks) && k < |blocks| && forall s :: 0 <= s < |lists| ==> Writable(lists[s], blocks, minimum)
    ensures Placed(lists, ClosedSeq(lists, blocks, k), FirstSeq(lists, blocks, k))
    ensures forall s :: 0 <= s < |lists| ==>
              && Sound(lists[s], minimum, Limit(blocks))
              && DueIn(lists[s], ClosedSeq(lists, blocks, k)[s], FirstSeq(lists, blocks, k)[s], blocks[k])
              && (lists[s] != [] && Initial(lists[s], FirstSeq(lists, blocks, k)[s], blocks[k]) ==> lists[s][0].begin >= blocks[k].aux0)
  {
    hide ClosedAt, FirstAt, PlacedAt, InOrder;
    forall s | 0 <= s < |lists|
      ensures PlacedAt(lists[s], ClosedAt(lists[s], blocks, k), FirstAt(lists[s], blocks, k))
      ensures DueIn(lists[s], ClosedAt(lists[s], blocks, k), FirstAt(lists[s], blocks, k), blocks[k])
    {
      ToldUpTo(lists[s], blocks, k);
      TellsInTime(lists[s], blocks, k, minimum);
    }
  }

  lemma {:induction false} MovesOn(lists: seq<seq<Stretch>>, blocks: seq<Block>, k: nat, closed: seq<nat>, first: seq<bool>)
    requires k < |blocks| && |closed| == |first| == |lists|
    requires forall s :: 0 <= s < |lists| ==>
               && closed[s] == ClosedAfter(lists[s], ClosedSeq(lists, blocks, k)[s], blocks[k].aux1)
               && first[s] == FirstAfter(lists[s], FirstSeq(lists, blocks, k)[s], blocks[k].aux1)
    ensures closed == ClosedSeq(lists, blocks, k + 1) && first == FirstSeq(lists, blocks, k + 1)
  {
    hide ClosedAfter, FirstAfter;
  }

  // ---------------------------------------------------------------- reading

  /** A signal's list is complete. */
  ghost predicate Complete(list: seq<Stretch>, minimum: Time) {
    Apart(list) && Steps(list) && forall k :: 0 <= k < |list| ==> list[k].begin > minimum
  }

  /** While tails are read: a signal still waits for its last stretch, or is complete. */
  ghost predicate TailsOk(starts: seq<Option<Time>>, built: seq<seq<Stretch>>, minimum: Time) {
    |starts| == |built| && forall s :: 0 <= s < |built| ==> TailOk(starts[s], built[s], minimum)
  }

  ghost predicate TailOk(start: Option<Time>, list: seq<Stretch>, minimum: Time) {
    if start.Some? then PartialOk(list, start, minimum) else Complete(list, minimum)
  }

  /** The signals before `s` have all their stretches, the others all but the last. */
  ghost predicate TailsTold(lists: seq<seq<Stretch>>, s: nat, starts: seq<Option<Time>>, built: seq<seq<Stretch>>) {
    && |starts| == |built| == |lists| && s <= |lists|
    && (forall k :: 0 <= k < s ==> starts[k].None? && built[k] == lists[k])
    && forall k :: s <= k < |lists| ==> AwaitsTail(lists[k], starts[k], built[k])
  }

  ghost predicate AwaitsTail(list: seq<Stretch>, start: Option<Time>, built: seq<Stretch>) {
    if list == [] then built == [] && start.None?
    else built == list[..|list| - 1] && start == Some(list[|list| - 1].begin)
  }

  ghost predicate TailLeft(lists: seq<seq<Stretch>>, s: nat, previous: nat, tail: Tail) {
    previous <= s <= |lists| && tail == TailFrom(lists, s, previous)
  }

  /** The next signal from `s` on with a tail, if tails are left. */
  lemma {:induction false} NextTail(lists: seq<seq<Stretch>>, s: nat, previous: nat, starts: seq<Option<Time>>, built: seq<seq<Stretch>>)
    returns (q: nat)
    requires previous <= s <= |lists| && TailsTold(lists, s, starts, built)
    ensures s <= q <= |lists| && TailsTold(lists, q, starts, built)
    ensures var tail := TailFrom(lists, s, previous);
      && |tail.signals| == |tail.lengths| == |tail.gaps| == tail.rows <= |lists| - s
      && if tail.rows == 0 then q == |lists|
         else q < |lists| && lists[q] != [] && var last, rest := lists[q][|lists[q]| - 1], TailFrom(lists, q + 1, q);
           tail == Join(Tail(1, [q - previous], [Sub(last.end, last.begin)], [last.gap as nat]), rest)
    decreases |lists| - s
  {
    if s == |lists| {
      q := s;
    } else if lists[s] == [] {
      q := NextTail(lists, s + 1, previous, starts, built);
    } else {
      TailSizes(lists, s + 1, s);
      q := s;
    }
  }

  lemma {:induction false} TailSizes(lists: seq<seq<Stretch>>, s: nat, previous: nat)
    requires previous <= s <= |lists|
    ensures var tail := TailFrom(lists, s, previous);
      |tail.signals| == |tail.lengths| == |tail.gaps| == tail.rows <= |lists| - s
    decreases |lists| - s
  {
    if s < |lists| {
      TailSizes(lists, s + 1, if lists[s] == [] then previous else s);
    }
  }

  /** The last page, read back; what it refuses is never a page that was written. */
  method ReadTail(tail0: Tail, minimum: Time, limit: Time, starts0: seq<Option<Time>>, built0: seq<seq<Stretch>>,
                  ghost told: bool, ghost lists: seq<seq<Stretch>>)
    returns (ok: bool, built: seq<seq<Stretch>>)
    requires TailsOk(starts0, built0, minimum)
    requires told ==> |lists| <= WORD_MAX && tail0 == TailFrom(lists, 0, 0) && TailsTold(lists, 0, starts0, built0)
    requires told ==> forall s :: 0 <= s < |lists| ==> Sound(lists[s], minimum, limit)
    ensures ok ==> |built| == |built0| && forall s :: 0 <= s < |built| ==> Complete(built[s], minimum)
    ensures told ==> ok && built == lists
  {
    hide TailFrom, Join, TailOk, AwaitsTail, Sound, Complete, PartialOk, TailsTold;
    ok, built := false, built0;
    var starts, signal: nat := starts0, 0;
    var signals, lengths, gaps := tail0.signals, tail0.lengths, tail0.gaps;
    ghost var s: nat := 0;
    if told {
      TailSizes(lists, 0, 0);
      SameSize(lists, starts, built);
    }
    if tail0.rows > |starts| {
      return;
    }
    for i := 0 to tail0.rows
      invariant TailsOk(starts, built, minimum) && |starts| == |starts0|
      invariant told ==> TailsTold(lists, s, starts, built) && |lists| == |starts|
      invariant told ==> TailLeft(lists, s, signal, Tail(tail0.rows - i, signals, lengths, gaps)) && s == if i == 0 then 0 else signal + 1
    {
      ghost var q: nat := 0;
      if told {
        q := NextTail(lists, s, signal, starts, built);
        TailHead(Tail(tail0.rows - i, signals, lengths, gaps), lists, q, signal);
      }
      if signals == [] || lengths == [] || gaps == [] {
        return;
      }
      var delta, length, gap := signals[0], lengths[0], gaps[0];
      if delta > WORD_MAX - signal || (i > 0 && delta == 0) || signal + delta >= |starts| {
        return;
      }
      signal := signal + delta;
      if told {
        TailReads(lists, q, starts, built, minimum, limit);
      }
      var stretch := Close(starts[signal], length, gap, limit);
      if stretch.None? {
        return;
      }
      signals, lengths, gaps := signals[1..], lengths[1..], gaps[1..];
      CompletedBy(starts, built, signal, minimum, length, gap, limit);
      built := built[signal := built[signal] + [stretch.value]];
      starts := starts[signal := None];
      s := q + 1;
    }
    if told {
      var q := NextTail(lists, s, signal, starts, built);
      AllTold(lists, starts, built);
    }
    if signals != [] || lengths != [] || gaps != [] {
      return;
    }
    for k := 0 to |starts|
      invariant forall j :: 0 <= j < k ==> starts[j].None?
    {
      if starts[k].Some? {
        return;
      }
    }
    AllComplete(starts, built, minimum);
    ok := true;
  }

  lemma {:induction false} SameSize(lists: seq<seq<Stretch>>, starts: seq<Option<Time>>, built: seq<seq<Stretch>>)
    requires TailsTold(lists, 0, starts, built)
    ensures |lists| == |starts|
  {
  }

  lemma {:induction false} AllComplete(starts: seq<Option<Time>>, built: seq<seq<Stretch>>, minimum: Time)
    requires TailsOk(starts, built, minimum) && forall j :: 0 <= j < |starts| ==> starts[j].None?
    ensures forall s :: 0 <= s < |built| ==> Complete(built[s], minimum)
  {
    forall s | 0 <= s < |built|
      ensures Complete(built[s], minimum)
    {
      assert TailOk(starts[s], built[s], minimum);
    }
  }

  lemma {:induction false} AllTold(lists: seq<seq<Stretch>>, starts: seq<Option<Time>>, built: seq<seq<Stretch>>)
    requires TailsTold(lists, |lists|, starts, built)
    ensures built == lists && forall k :: 0 <= k < |starts| ==> starts[k].None?
  {
  }

  /** The first tail of several. */
  lemma {:induction false} TailHead(tail: Tail, lists: seq<seq<Stretch>>, q: nat, previous: nat)
    requires previous <= q < |lists| && lists[q] != []
    requires var last := lists[q][|lists[q]| - 1];
      tail == Join(Tail(1, [q - previous], [Sub(last.end, last.begin)], [last.gap as nat]), TailFrom(lists, q + 1, q))
    ensures tail.signals != [] && tail.lengths != [] && tail.gaps != []
    ensures var last := lists[q][|lists[q]| - 1];
      && tail.signals[0] == q - previous && tail.lengths[0] == Sub(last.end, last.begin) && tail.gaps[0] == last.gap
      && Tail(tail.rows - 1, tail.signals[1..], tail.lengths[1..], tail.gaps[1..]) == TailFrom(lists, q + 1, q)
  {
    var rest := TailFrom(lists, q + 1, q);
    DropFirst(tail.signals[0], rest.signals);
    DropFirst(tail.lengths[0], rest.lengths);
    DropFirst(tail.gaps[0], rest.gaps);
  }

  /** The tail written of a signal completes its list. */
  lemma {:induction false} TailReads(lists: seq<seq<Stretch>>, q: nat, starts: seq<Option<Time>>, built: seq<seq<Stretch>>, minimum: Time, limit: Time)
    requires TailsTold(lists, q, starts, built) && q < |lists| && lists[q] != [] && Sound(lists[q], minimum, limit)
    ensures |starts| == |built| == |lists|
    ensures var last := lists[q][|lists[q]| - 1];
      && Close(starts[q], Sub(last.end, last.begin), last.gap, limit) == Some(last)
      && TailsTold(lists, q + 1, starts[q := None], built[q := built[q] + [last]])
  {
    var list := lists[q];
    CloseReads(list, |list| - 1, minimum, limit);
    assert AwaitsTail(lists[q], starts[q], built[q]);
    assert list[..|list| - 1] + [list[|list| - 1]] == list;
  }

  lemma {:induction false} CompletedBy(starts: seq<Option<Time>>, built: seq<seq<Stretch>>, signal: nat, minimum: Time,
                                       length: nat, gap: nat, limit: Time)
    requires TailsOk(starts, built, minimum) && signal < |starts| && Close(starts[signal], length, gap, limit).Some?
    ensures var s := Close(starts[signal], length, gap, limit).value;
      TailsOk(starts[signal := None], built[signal := built[signal] + [s]], minimum)
  {
    hide Apart, Steps;
    assert TailOk(starts[signal], built[signal], minimum);
    ClosedIsApart(built[signal], starts[signal], minimum, Close(starts[signal], length, gap, limit).value);
  }

  /** The pages written are these. */
  ghost predicate Written(pages: seq<Page>, tail: Tail, lists: seq<seq<Stretch>>, blocks: seq<Block>, minimum: Time) {
    && |lists| <= WORD_MAX && InOrder(blocks) && |pages| == |blocks|
    && (forall s :: 0 <= s < |lists| ==> Writable(lists[s], blocks, minimum))
    && (forall k :: 0 <= k < |blocks| ==> WrittenPage(pages[k], lists, blocks, k, minimum))
    && tail == TailFrom(lists, 0, 0)
  }

  /**
   * All pages, read back. Whatever is accepted is a proper index: stretches apart, after the minimum.
   * Pages that were written are accepted and give exactly the lists they were written from.
   */
  method DecodeSignals(pages: seq<Page>, tail: Tail, blocks: seq<Block>, minimum: Time, signals: nat,
                       ghost told: bool, ghost lists: seq<seq<Stretch>>)
    returns (r: Option<seq<seq<Stretch>>>)
    requires forall k :: 0 <= k < |blocks| ==> blocks[k].aux0 <= blocks[k].aux1
    requires told ==> |lists| == signals && Written(pages, tail, lists, blocks, minimum)
    ensures r.Some? ==> |r.value| == signals && forall s :: 0 <= s < signals ==> Complete(r.value[s], minimum)
    ensures told ==> r == Some(lists)
  {
    hide ClosedAt, FirstAt, Writable, Sound, PartialOk, Complete, Tells, Midway, Shows, InOrder;
    if |pages| != |blocks| {
      return None;
    }
    var starts: seq<Option<Time>> := seq(signals, _ => None);
    var built: seq<seq<Stretch>> := seq(signals, _ => []);
    NothingRead(starts, built, minimum);
    if told {
      ShowsNothing(lists, blocks, starts, built);
    }
    for k := 0 to |pages|
      invariant AllPartial(starts, built, minimum) && |starts| == signals
      invariant told ==> Shows(lists, ClosedSeq(lists, blocks, k), FirstSeq(lists, blocks, k), starts, built)
    {
      var ok;
      ok, starts, built := ReadBlock(pages[k], blocks[k], minimum, Limit(blocks), starts, built,
                                     told, lists, ClosedSeq(lists, blocks, k), FirstSeq(lists, blocks, k));
      if !ok {
        return None;
      }
      if told {
        ShowsNext(lists, blocks, k, starts, built, minimum);
      }
    }
    PartialsAreTails(starts, built, minimum);
    if told {
      ShowsAllButTails(lists, blocks, starts, built, minimum);
    }
    var ok;
    ok, built := ReadTail(tail, minimum, Limit(blocks), starts, built, told, lists);
    r := if ok then Some(built) else None;
  }

  lemma {:induction false} NothingRead(starts: seq<Option<Time>>, built: seq<seq<Stretch>>, minimum: Time)
    requires |starts| == |built| && forall s :: 0 <= s < |built| ==> starts[s].None? && built[s] == []
    ensures AllPartial(starts, built, minimum)
  {
  }

  lemma {:induction false} ShowsNothing(lists: seq<seq<Stretch>>, blocks: seq<Block>, starts: seq<Option<Time>>, built: seq<seq<Stretch>>)
    requires |starts| == |built| == |lists| && forall s :: 0 <= s < |built| ==> starts[s].None? && built[s] == []
    ensures Shows(lists, ClosedSeq(lists, blocks, 0), FirstSeq(lists, blocks, 0), starts, built)
  {
  }

  lemma {:induction false} ShowsNext(lists: seq<seq<Stretch>>, blocks: seq<Block>, k: nat, starts: seq<Option<Time>>,
                                     built: seq<seq<Stretch>>, minimum: Time)
    requires k < |blocks| && InOrder(blocks) && forall s :: 0 <= s < |lists| ==> Writable(lists[s], blocks, minimum)
    requires Midway(lists, ClosedSeq(lists, blocks, k), FirstSeq(lists, blocks, k), blocks[k], |lists|, starts, built)
    ensures Shows(lists, ClosedSeq(lists, blocks, k + 1), FirstSeq(lists, blocks, k + 1), starts, built)
  {
    hide ShowsAt, ClosedAfter, FirstAfter, PlacedAt, InOrder;
    forall s | 0 <= s < |lists|
      ensures PlacedAt(lists[s], ClosedAt(lists[s], blocks, k + 1), FirstAt(lists[s], blocks, k + 1))
    {
      ToldUpTo(lists[s], blocks, k + 1);
    }
  }

  lemma {:induction false} PartialsAreTails(starts: seq<Option<Time>>, built: seq<seq<Stretch>>, minimum: Time)
    requires AllPartial(starts, built, minimum)
    ensures TailsOk(starts, built, minimum)
  {
    forall s | 0 <= s < |built|
      ensures TailOk(starts[s], built[s], minimum)
    {
      assert PartialOk(built[s], starts[s], minimum);
    }
  }

  lemma {:induction false} ShowsAllButTails(lists: seq<seq<Stretch>>, blocks: seq<Block>, starts: seq<Option<Time>>,
                                            built: seq<seq<Stretch>>, minimum: Time)
    requires InOrder(blocks) && forall s :: 0 <= s < |lists| ==> Writable(lists[s], blocks, minimum)
    requires Shows(lists, ClosedSeq(lists, blocks, |blocks|), FirstSeq(lists, blocks, |blocks|), starts, built)
    ensures TailsTold(lists, 0, starts, built) && forall s :: 0 <= s < |lists| ==> Sound(lists[s], minimum, Limit(blocks))
  {
    hide ClosedAt, FirstAt, InOrder, PlacedAt, Sound;
    forall s | 0 <= s < |lists|
      ensures AwaitsTail(lists[s], starts[s], built[s]) && Sound(lists[s], minimum, Limit(blocks))
    {
      assert ShowsAt(lists[s], ClosedSeq(lists, blocks, |blocks|)[s], FirstSeq(lists, blocks, |blocks|)[s], starts[s], built[s]);
      assert Writable(lists[s], blocks, minimum);
      ToldAll(lists[s], blocks, minimum);
    }
  }

  /** Writing and reading back gives the same lists, unless a block closes more stretches than its count can tell. */
  method WriteThenRead(lists: seq<seq<Stretch>>, blocks: seq<Block>, minimum: Time) returns (r: Option<seq<seq<Stretch>>>)
    requires |lists| <= WORD_MAX && InOrder(blocks)
    requires forall s :: 0 <= s < |lists| ==> Writable(lists[s], blocks, minimum)
    ensures r.Some? ==> r.value == lists
    ensures r.None? <==> exists k :: 0 <= k < |blocks| && TooMany(lists, blocks, k)
  {
    hide Writable, WrittenPage, TooMany;
    var encoded := EncodeSignals(lists, blocks, minimum);
    if encoded.None? {
      return None;
    }
    r := DecodeSignals(encoded.value.0, encoded.value.1, blocks, minimum, |lists|, true, lists);
  }

  /** What is built from changes that all lie in blocks can be written over those blocks. */
  lemma {:induction false} BuiltIsWritable(changes: seq<Change>, minimum: Time, s: nat, list: seq<Stretch>, blocks: seq<Block>)
    requires Follows(changes, |changes|, minimum, s, list) && InOrder(blocks)
    requires forall i :: 0 <= i < |changes| ==> InBlock(blocks, changes[i].time)
    ensures Writable(list, blocks, minimum)
  {
    hide InBlock;
    forall i | 0 <= i < |list|
      ensures InBlock(blocks, list[i].begin) && minimum < list[i].begin && list[i].end <= Limit(blocks)
    {
      assert Holds(list[i], list[i].begin) && Holds(list[i], list[i].end);
      assert Covers(list, list[i].begin) && Covers(list, list[i].end);
      assert Changed(changes, |changes|, minimum, s, list[i].begin) && Changed(changes, |changes|, minimum, s, list[i].end);
      EndsWithin(blocks, list[i].end);
    }
  }

  lemma {:induction false} EndsWithin(blocks: seq<Block>, t: Time)
    requires InOrder(blocks) && InBlock(blocks, t)
    ensures t <= Limit(blocks)
  {
    var j :| 0 <= j < |blocks| && blocks[j].aux0 <= t <= blocks[j].aux1;
    EndsInOrder(blocks, j, |blocks| - 1);
  }
}
