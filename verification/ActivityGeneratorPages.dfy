/** The generator part of an activity index: pages of at most 4096 intervals, each starting over at time 0. */
module ActivityGeneratorPages {
  import opened Options
  import opened ActivityStretches
  import opened ActivityGenerators

  const PAGE_ROWS: nat := 4096

  /** How far each interval begins after the end of the one before it in the page, and how long it is. */
  datatype Page = Page(generator: nat, count: nat, begins: seq<nat>, lengths: seq<nat>)

  /** The time the row at `row` is counted from: nothing is carried into the page that starts at `offset`. */
  function From(list: seq<Stretch>, offset: nat, row: nat): Time
    requires offset <= row <= |list|
  {
    if row == offset then 0 else list[row - 1].end
  }

  function PageEnd(list: seq<Stretch>, offset: nat): (end: nat)
    requires offset <= |list|
    ensures offset <= end <= |list|
    ensures offset < |list| ==> offset < end
  {
    if |list| - offset < PAGE_ROWS then |list| else offset + PAGE_ROWS
  }

  function SilenceAt(list: seq<Stretch>, offset: nat, i: nat): nat
    requires offset + i < |list|
  {
    Sub(list[offset + i].begin, From(list, offset, offset + i))
  }

  function LengthAt(list: seq<Stretch>, offset: nat, i: nat): nat
    requires offset + i < |list|
  {
    Sub(list[offset + i].end, list[offset + i].begin)
  }

  ghost function PageOf(entry: Entry, offset: nat): Page
    requires offset < |entry.list|
  {
    var list, count := entry.list, PageEnd(entry.list, offset) - offset;
    Page(entry.generator, count,
         seq(count, i requires 0 <= i < count => SilenceAt(list, offset, i)),
         seq(count, i requires 0 <= i < count => LengthAt(list, offset, i)))
  }

  /** The pages from entry `e`, row `offset` on. */
  ghost function PagesFrom(index: seq<Entry>, e: nat, offset: nat): seq<Page>
    requires e <= |index| && (e < |index| ==> offset <= |index[e].list|)
    decreases |index| - e, if e < |index| then |index[e].list| - offset else 0
  {
    if e == |index| then []
    else if offset == |index[e].list| then PagesFrom(index, e + 1, 0)
    else [PageOf(index[e], offset)] + PagesFrom(index, e, PageEnd(index[e].list, offset))
  }

  // ---------------------------------------------------------------- writing

  method EncodePage(entry: Entry, offset: nat) returns (page: Page)
    requires offset < |entry.list|
    ensures page == PageOf(entry, offset)
  {
    var list, end := entry.list, PageEnd(entry.list, offset);
    var begins: seq<nat>, lengths: seq<nat> := [], [];
    var previous: Time := 0;
    for row := offset to end
      invariant |begins| == |lengths| == row - offset && previous == From(list, offset, row)
      invariant forall i :: 0 <= i < row - offset ==> begins[i] == SilenceAt(list, offset, i)
      invariant forall i :: 0 <= i < row - offset ==> lengths[i] == LengthAt(list, offset, i)
    {
      begins := begins + [Sub(list[row].begin, previous)];
      lengths := lengths + [Sub(list[row].end, list[row].begin)];
      previous := list[row].end;
    }
    page := Page(entry.generator, end - offset, begins, lengths);
    assert page == PageOf(entry, offset);
  }

  method EncodeGenerators(index: seq<Entry>) returns (pages: seq<Page>)
    ensures pages == PagesFrom(index, 0, 0)
  {
    pages := [];
    ghost var all := PagesFrom(index, 0, 0);
    for e := 0 to |index|
      invariant pages + PagesFrom(index, e, 0) == all
    {
      var offset: nat := 0;
      while offset < |index[e].list|
        invariant offset <= |index[e].list| && pages + PagesFrom(index, e, offset) == all
        decreases |index[e].list| - offset
      {
        var page := EncodePage(index[e], offset);
        assert pages + ([page] + PagesFrom(index, e, PageEnd(index[e].list, offset))) ==
               pages + [page] + PagesFrom(index, e, PageEnd(index[e].list, offset));
        pages := pages + [page];
        offset := PageEnd(index[e].list, offset);
      }
    }
    assert pages + [] == pages;
  }

  // ---------------------------------------------------------------- reading

  /** One page appended to a list. Whatever is accepted keeps the list's stretches apart; a page that was written is accepted. */
  method DecodePage(page: Page, list0: seq<Stretch>, ghost told: bool, ghost entry: Entry, ghost offset: nat)
    returns (ok: bool, list: seq<Stretch>)
    requires Apart(list0)
    requires told ==> offset < |entry.list| && page == PageOf(entry, offset) && list0 == entry.list[..offset]
    requires told ==> Apart(entry.list) && Plain(entry.list)
    ensures ok ==> list != [] && Apart(list)
    ensures told ==> ok && list == entry.list[..PageEnd(entry.list, offset)]
  {
    hide Apart, Plain, PageOf;
    ok, list := false, list0;
    if told {
      PageSizes(entry, offset);
    }
    if page.count == 0 || page.count > PAGE_ROWS {
      return;
    }
    var previous: Time := 0;
    for row := 0 to page.count
      invariant Apart(list) && (row > 0 ==> list != [])
      invariant told ==> list == entry.list[..offset + row] && previous == From(entry.list, offset, offset + row)
    {
      if told {
        RowReads(entry, offset, row);
      }
      if row >= |page.begins| || row >= |page.lengths| {
        return;
      }
      var delta, length := page.begins[row], page.lengths[row];
      if delta > LAST - previous || length > LAST - (previous + delta) {
        return;
      }
      var begin, finish := previous + delta, previous + delta + length;
      if list != [] && (list[|list| - 1].end == LAST || begin <= list[|list| - 1].end + 1) {
        return;
      }
      ApartAppend(list, Stretch(begin, finish, 0));
      list := list + [Stretch(begin, finish, 0)];
      previous := finish;
    }
    ok := page.count == |page.begins| && page.count == |page.lengths|;
  }

  lemma {:induction false} PageSizes(entry: Entry, offset: nat)
    requires offset < |entry.list|
    ensures var page := PageOf(entry, offset);
      && 0 < page.count == |page.begins| == |page.lengths| <= PAGE_ROWS && page.generator == entry.generator
      && page.count == PageEnd(entry.list, offset) - offset
  {
  }

  /** A row of a page that was written gives its interval back, which lies after those before it. */
  lemma {:induction false} RowReads(entry: Entry, offset: nat, row: nat)
    requires offset < |entry.list| && Apart(entry.list) && Plain(entry.list) && row < PageOf(entry, offset).count
    ensures offset + row < |entry.list|
    ensures var list, page := entry.list, PageOf(entry, offset);
      var s, previous := list[offset + row], From(entry.list, offset, offset + row);
      && row < |page.begins| && row < |page.lengths|
      && page.begins[row] == s.begin - previous && page.lengths[row] == s.end - s.begin && s.gap == 0
      && (offset + row > 0 ==> list[offset + row - 1].end + 1 < s.begin)
      && list[..offset + row + 1] == list[..offset + row] + [s]
  {
    var list := entry.list;
    var at := offset + row;
    assert at > 0 ==> Before(list[at - 1], list[at]);
    assert list[..at + 1] == list[..at] + [list[at]];
    assert PageOf(entry, offset).begins[row] == SilenceAt(list, offset, row);
    assert PageOf(entry, offset).lengths[row] == LengthAt(list, offset, row);
  }

  /** What was read so far are the first `e` entries and the first `offset` intervals of the next. */
  ghost predicate ReadUpTo(built: seq<Entry>, index: seq<Entry>, e: nat, offset: nat) {
    && e <= |index| && (e < |index| ==> offset <= |index[e].list|) && (e == |index| ==> offset == 0)
    && built == index[..e] + if offset == 0 then [] else [index[e].(list := index[e].list[..offset])]
  }

  /** Where the next page that was written starts. */
  lemma {:induction false} NextPage(pages: seq<Page>, built: seq<Entry>, index: seq<Entry>, e: nat, offset: nat)
    returns (d: nat, start: nat)
    requires Indexed(index) && ReadUpTo(built, index, e, offset) && pages == PagesFrom(index, e, offset)
    ensures if pages == [] then d == |index| && built == index
            else && d < |index| && start < |index[d].list| && built == index[..d] + (if start == 0 then [] else [index[d].(list := index[d].list[..start])])
                 && pages == [PageOf(index[d], start)] + PagesFrom(index, d, PageEnd(index[d].list, start))
  {
    d, start := e, offset;
    if e < |index| && offset == |index[e].list| {
      d, start := e + 1, 0;
      assert index[e].(list := index[e].list[..offset]) == index[e];
      assert index[..e + 1] == index[..e] + [index[e]];
    }
  }

  /** Whether a written page goes on with the last entry read so far or starts a new one. */
  lemma {:induction false} PageContinues(built: seq<Entry>, index: seq<Entry>, d: nat, start: nat)
    requires Indexed(index) && d < |index| && start < |index[d].list|
    requires built == index[..d] + (if start == 0 then [] else [index[d].(list := index[d].list[..start])])
    ensures start > 0 ==>
              && built != [] && built[|built| - 1] == index[d].(list := index[d].list[..start]) && built[..|built| - 1] == index[..d]
    ensures start == 0 ==> built == index[..d] && (built == [] || built[|built| - 1].generator < index[d].generator)
  {
  }

  lemma {:induction false} PageAppended(built: seq<Entry>, index: seq<Entry>, d: nat, end: nat)
    requires Indexed(index) && d < |index| && 0 < end <= |index[d].list|
    requires built == index[..d] + [index[d].(list := index[d].list[..end])]
    ensures ReadUpTo(built, index, d, end)
  {
  }

  lemma {:induction false} StillIndexed(built: seq<Entry>, entry: Entry)
    requires Indexed(built) && entry.list != [] && Apart(entry.list)
    ensures built == [] || built[|built| - 1].generator < entry.generator ==> Indexed(built + [entry])
    ensures built != [] && built[|built| - 1].generator == entry.generator ==> Indexed(built[..|built| - 1] + [entry])
    ensures built != [] ==> Apart(built[|built| - 1].list)
  {
    hide Apart;
  }

  /** One page taken in. */
  method TakePage(page: Page, built0: seq<Entry>, ghost told: bool, ghost index: seq<Entry>, ghost d: nat, ghost start: nat)
    returns (ok: bool, built: seq<Entry>)
    requires Indexed(built0)
    requires told ==> Indexed(index) && AllPlain(index) && d < |index| && start < |index[d].list| && page == PageOf(index[d], start)
    requires told ==> built0 == index[..d] + (if start == 0 then [] else [index[d].(list := index[d].list[..start])])
    ensures ok ==> Indexed(built)
    ensures told ==> ok && ReadUpTo(built, index, d, PageEnd(index[d].list, start))
  {
    hide Apart, PageOf, PagesFrom, Plain, Indexed, ReadUpTo;
    ok, built := false, built0;
    if told {
      PageContinues(built, index, d, start);
      PageSizes(index[d], start);
      EntryFact(index, d);
    }
    if page.count == 0 || (built != [] && built[|built| - 1].generator > page.generator) {
      return;
    }
    var known := built != [] && built[|built| - 1].generator == page.generator;
    LastApart(built);
    var list;
    ok, list := DecodePage(page, if known then built[|built| - 1].list else [], told, if told then index[d] else Entry(0, []), start);
    if !ok {
      return;
    }
    StillIndexed(built, Entry(page.generator, list));
    built := (if known then built[..|built| - 1] else built) + [Entry(page.generator, list)];
    if told {
      PageAppended(built, index, d, PageEnd(index[d].list, start));
    }
  }

  lemma {:induction false} EntryFact(index: seq<Entry>, d: nat)
    requires Indexed(index) && AllPlain(index) && d < |index|
    ensures Apart(index[d].list) && Plain(index[d].list)
  {
  }

  lemma {:induction false} LastApart(built: seq<Entry>)
    requires Indexed(built)
    ensures Apart([]) && (built != [] ==> Apart(built[|built| - 1].list))
  {
  }

  /** All generator pages. Whatever is accepted is a proper index; pages that were written give the index back. */
  method DecodeGenerators(pages: seq<Page>, ghost told: bool, ghost index: seq<Entry>) returns (r: Option<seq<Entry>>)
    requires told ==> Indexed(index) && AllPlain(index) && pages == PagesFrom(index, 0, 0)
    ensures r.Some? ==> Indexed(r.value)
    ensures told ==> r == Some(index)
  {
    hide Apart, PageOf, PagesFrom, Plain, Indexed;
    var built: seq<Entry> := [];
    ghost var e: nat, offset: nat := 0, 0;
    ReadNothing(index);
    for p := 0 to |pages|
      invariant Indexed(built)
      invariant told ==> ReadUpTo(built, index, e, offset) && pages[p..] == PagesFrom(index, e, offset)
    {
      if told {
        e, offset := NextPage(pages[p..], built, index, e, offset);
        assert pages[p + 1..] == pages[p..][1..] && pages[p] == pages[p..][0];
      }
      var ok;
      ok, built := TakePage(pages[p], built, told, index, e, offset);
      if !ok {
        return None;
      }
      if told {
        offset := PageEnd(index[e].list, offset);
      }
    }
    if told {
      e, offset := NextPage(pages[|pages|..], built, index, e, offset);
    }
    r := Some(built);
  }

  lemma {:induction false} ReadNothing(index: seq<Entry>)
    ensures ReadUpTo([], index, 0, 0) && Indexed([])
  {
  }

  /** Writing and reading back gives the same index. */
  method WriteThenRead(index: seq<Entry>) returns (r: Option<seq<Entry>>)
    requires Indexed(index) && AllPlain(index)
    ensures r == Some(index)
  {
    var pages := EncodeGenerators(index);
    r := DecodeGenerators(pages, true, index);
  }
}
