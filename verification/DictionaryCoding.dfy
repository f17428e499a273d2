/** Columns of few distinct entries as a dictionary and one-byte codes, found through a probed table for any hash. */
module DictionaryCoding {
  import opened Arithmetic
  import opened Options
  import opened Limbs
  import opened Slices
  import opened Words
  import opened Varint

  const SLOTS: nat := 1024
  const DICT_MAX: nat := 256

  // ---------------------------------------------------------------- what is encoded

  /** The entries of `w` bytes each. */
  function Chunks(v: seq<byte>, w: nat): (r: seq<Entry>)
    requires w > 0
    ensures |r| * w <= |v|
    ensures forall i :: 0 <= i < |r| ==> |r[i]| == w
  {
    if |v| < w then [] else Chunks(v[..|v| - w], w) + [v[|v| - w..]]
  }

  /** The different entries in order of first use. */
  function Distinct(es: seq<Entry>): (d: seq<Entry>)
    ensures |d| <= |es|
    ensures forall e :: e in d <==> e in es
    ensures forall i, j :: 0 <= i < j < |d| ==> d[i] != d[j]
  {
    if es == [] then [] else
      var front, last := es[..|es| - 1], es[|es| - 1];
      assert es == front + [last];
      if last in Distinct(front) then Distinct(front) else Distinct(front) + [last]
  }

  function IndexIn(d: seq<Entry>, e: Entry): (i: nat)
    requires e in d
    ensures i < |d| && d[i] == e
  {
    if d[|d| - 1] == e then |d| - 1 else IndexIn(d[..|d| - 1], e)
  }

  lemma {:induction false} IndexIs(d: seq<Entry>, i: nat)
    requires i < |d| && forall i, j :: 0 <= i < j < |d| ==> d[i] != d[j]
    ensures IndexIn(d, d[i]) == i
  {
  }

  /** Each entry's place in the dictionary `d`. */
  function CodesIn(d: seq<Entry>, es: seq<Entry>): (r: seq<byte>)
    requires |d| <= DICT_MAX && forall e :: e in es ==> e in d
    ensures |r| == |es| && forall i :: 0 <= i < |es| ==> r[i] < |d| && d[r[i]] == es[i]
  {
    if es == [] then [] else CodesIn(d, es[..|es| - 1]) + [IndexIn(d, es[|es| - 1])]
  }

  /** Number of entries, the entries, one code for each element. */
  function Encoding(es: seq<Entry>): seq<byte>
    requires |Distinct(es)| <= DICT_MAX
  {
    Leb(|Distinct(es)|) + Flat(Distinct(es)) + CodesIn(Distinct(es), es)
  }

  lemma {:induction false} DistinctStep(es: seq<Entry>, i: nat)
    requires i < |es|
    ensures var d := Distinct(es[..i]);
      Distinct(es[..i + 1]) == if es[i] in d then d else d + [es[i]]
  {
    assert es[..i + 1][..i] == es[..i];
  }

  lemma {:induction false} DistinctGrows(es: seq<Entry>, i: nat)
    requires i <= |es|
    ensures Distinct(es[..i]) <= Distinct(es)
    decreases |es| - i
  {
    if i == |es| {
      assert es[..i] == es;
    } else {
      DistinctStep(es, i);
      DistinctGrows(es, i + 1);
    }
  }

  /** Codes into a dictionary stay when it grows. */
  lemma {:induction false} CodesGrow(d: seq<Entry>, more: seq<Entry>, es: seq<Entry>)
    requires d <= more && |more| <= DICT_MAX && (forall e :: e in es ==> e in d)
    requires forall i, j :: 0 <= i < j < |more| ==> more[i] != more[j]
    ensures CodesIn(more, es) == CodesIn(d, es)
  {
    if es != [] {
      var front, last := es[..|es| - 1], es[|es| - 1];
      assert es == front + [last];
      CodesGrow(d, more, front);
      IndexIs(more, IndexIn(d, last));
    }
  }

  lemma {:induction false} CodesStep(d: seq<Entry>, es: seq<Entry>, i: nat, c: nat)
    requires i < |es| && |d| <= DICT_MAX && (forall e :: e in es[..i] ==> e in d) && c < |d| && d[c] == es[i]
    requires forall i, j :: 0 <= i < j < |d| ==> d[i] != d[j]
    ensures (forall e :: e in es[..i + 1] ==> e in d) && CodesIn(d, es[..i + 1]) == CodesIn(d, es[..i]) + [c]
  {
    assert es[..i + 1] == es[..i] + [es[i]];
    assert es[..i + 1][..i] == es[..i];
    IndexIs(d, c);
  }

  // ---------------------------------------------------------------- the table

  function Slot(home: nat, k: nat): (h: nat)
    ensures h < SLOTS
  {
    (home + k) % SLOTS
  }

  /** A probe from `home` meets `code` after `k` used slots. */
  predicate MetAfter(table: seq<nat>, home: nat, code: nat, k: nat)
    requires |table| == SLOTS
  {
    k < SLOTS && table[Slot(home, k)] == code && forall j :: 0 <= j < k ==> table[Slot(home, j)] != 0
  }

  ghost predicate Met(table: seq<nat>, home: nat, code: nat)
    requires |table| == SLOTS
  {
    exists k :: MetAfter(table, home, code, k)
  }

  /** The slots hold the codes (from one) of exactly the entries, each where a probe for its entry meets it. */
  ghost predicate Holds(table: seq<nat>, d: seq<Entry>, hash: Entry -> nat) {
    && |table| == SLOTS
    && (forall h :: 0 <= h < SLOTS ==> table[h] <= |d|)
    && (forall h, h' :: 0 <= h < h' < SLOTS && table[h] != 0 ==> table[h] != table[h'])
    && forall c :: 0 <= c < |d| ==> Met(table, hash(d[c]), c + 1)
  }

  /** Slots with different codes are no more than codes. */
  lemma {:induction false} NoMoreThanCodes(table: seq<nat>, m: nat)
    requires forall h :: 0 <= h < |table| ==> 0 < table[h] <= m
    requires forall h, h' :: 0 <= h < h' < |table| ==> table[h] != table[h']
    ensures |table| <= m
  {
    var seen: set<nat> := set h | 0 <= h < |table| :: table[h];
    assert seen <= UpTo(m);
    SubsetSize(seen, UpTo(m));
    SetOfDifferent(table);
  }

  function UpTo(m: nat): (s: set<nat>)
    ensures |s| == m && forall c :: c in s <==> 0 < c <= m
  {
    if m == 0 then {} else UpTo(m - 1) + {m}
  }

  lemma {:induction false} SubsetSize(a: set<nat>, b: set<nat>)
    requires a <= b
    ensures |a| <= |b|
  {
    assert b == a + (b - a);
  }

  lemma {:induction false} SetOfDifferent(s: seq<nat>)
    requires forall h, h' :: 0 <= h < h' < |s| ==> s[h] != s[h']
    ensures |set h | 0 <= h < |s| :: s[h]| == |s|
  {
    if s != [] {
      var n := |s| - 1;
      SetOfDifferent(s[..n]);
      assert (set h | 0 <= h < |s| :: s[h]) == (set h | 0 <= h < n :: s[..n][h]) + {s[n]};
    }
  }

  /** A table with so few codes has an unused slot on every probe. */
  lemma {:induction false} HasUnused(table: seq<nat>, d: seq<Entry>, hash: Entry -> nat, home: nat)
    requires Holds(table, d, hash) && |d| <= DICT_MAX
    ensures !forall j :: 0 <= j < SLOTS ==> table[Slot(home, j)] != 0
  {
    if forall j :: 0 <= j < SLOTS ==> table[Slot(home, j)] != 0 {
      forall h | 0 <= h < |table|
        ensures 0 < table[h] <= |d|
      {
        var j := (h - home) % SLOTS;
        SlotBack(home, h);
        assert table[Slot(home, j)] != 0;
      }
      NoMoreThanCodes(table, |d|);
      assert false;
    }
  }

  lemma {:induction false} SlotBack(home: nat, h: nat)
    requires h < SLOTS
    ensures 0 <= (h - home) % SLOTS < SLOTS && Slot(home, (h - home) % SLOTS) == h
  {
    var q := (h - home) / SLOTS;
    assert home + (h - home) % SLOTS == (0 - q) * SLOTS + h;
    DivModIs(home + (h - home) % SLOTS, SLOTS, 0 - q, h);
  }

  /** A probe that ends at an unused slot without having met the entry proves it absent. */
  lemma {:induction false} ProbeMisses(table: seq<nat>, d: seq<Entry>, hash: Entry -> nat, e: Entry, k: nat)
    requires Holds(table, d, hash) && k < SLOTS && table[Slot(hash(e), k)] == 0
    requires forall j :: 0 <= j < k ==> table[Slot(hash(e), j)] != 0 && d[table[Slot(hash(e), j)] - 1] != e
    ensures e !in d
  {
    forall c | 0 <= c < |d|
      ensures d[c] != e
    {
      assert Met(table, hash(d[c]), c + 1);
    }
  }

  /** A new entry goes where its probe ended. */
  lemma {:induction false} InsertHolds(table: seq<nat>, d: seq<Entry>, hash: Entry -> nat, e: Entry, k: nat)
    requires Holds(table, d, hash) && k < SLOTS && table[Slot(hash(e), k)] == 0
    requires forall j :: 0 <= j < k ==> table[Slot(hash(e), j)] != 0
    ensures Holds(table[Slot(hash(e), k) := |d| + 1], d + [e], hash)
  {
    var h := Slot(hash(e), k);
    var table', d' := table[h := |d| + 1], d + [e];
    forall c | 0 <= c < |d'|
      ensures Met(table', hash(d'[c]), c + 1)
    {
      if c < |d| {
        assert Met(table, hash(d[c]), c + 1);
        var j :| MetAfter(table, hash(d[c]), c + 1, j);
        assert MetAfter(table', hash(d'[c]), c + 1, j);
      } else {
        SlotsDiffer(hash(e), k);
        assert MetAfter(table', hash(e), c + 1, k);
      }
    }
  }

  lemma {:induction false} SlotsDiffer(home: nat, k: nat)
    requires k < SLOTS
    ensures forall j :: 0 <= j < k ==> Slot(home, j) != Slot(home, k)
  {
    forall j | 0 <= j < k
      ensures Slot(home, j) != Slot(home, k)
    {
      if Slot(home, j) == Slot(home, k) {
        var q := (home + k) / SLOTS - (home + j) / SLOTS;
        assert k - j == q * SLOTS;
        Scaled(q, SLOTS);
        assert false;
      }
    }
  }

  // ---------------------------------------------------------------- entries in bytes

  lemma {:induction false} ChunksOf(v: seq<byte>, w: nat, n: nat)
    requires w > 0 && |v| == n * w
    ensures |Chunks(v, w)| == n && Flat(Chunks(v, w)) == v
  {
    if n == 0 {
    } else {
      var front, es := v[..|v| - w], Chunks(v[..|v| - w], w);
      assert |v| == (n - 1) * w + w;
      ChunksOf(front, w, n - 1);
      FlatGrows(es, v[|v| - w..]);
      assert front + v[|v| - w..] == v;
    }
  }

  lemma {:induction false} ChunkAt(v: seq<byte>, w: nat, n: nat, i: nat)
    requires w > 0 && |v| == n * w && i < n
    ensures |Chunks(v, w)| == n && i * w + w <= |v| && v[i * w..i * w + w] == Chunks(v, w)[i]
  {
    hide Chunks, Flat;
    ChunksOf(v, w, n);
    FlatAt(Chunks(v, w), w, i);
  }

  lemma {:induction false} DistinctWidths(es: seq<Entry>, w: nat)
    requires forall i :: 0 <= i < |es| ==> |es[i]| == w
    ensures forall i :: 0 <= i < |Distinct(es)| ==> |Distinct(es)[i]| == w
  {
    forall i | 0 <= i < |Distinct(es)|
      ensures |Distinct(es)[i]| == w
    {
      assert Distinct(es)[i] in es;
    }
  }

  // ---------------------------------------------------------------- the encoder

  function Occurrences(codes: seq<byte>, c: nat): nat {
    if codes == [] then 0 else
      Occurrences(codes[..|codes| - 1], c) + if codes[|codes| - 1] == c then 1 else 0
  }

  lemma {:induction false} OccurrencesStep(codes: seq<byte>, last: byte, c: nat)
    ensures Occurrences(codes + [last], c) == Occurrences(codes, c) + if last == c then 1 else 0
  {
    assert (codes + [last])[..|codes|] == codes;
  }

  lemma {:induction false} NeverOccurs(codes: seq<byte>, c: nat)
    requires forall i :: 0 <= i < |codes| ==> codes[i] < c
    ensures Occurrences(codes, c) == 0
  {
    if codes != [] {
      NeverOccurs(codes[..|codes| - 1], c);
    }
  }

  /** Dictionary, codes and counts of the elements so far. */
  ghost predicate Tallied(es: seq<Entry>, dict: seq<byte>, codes: seq<byte>, counts: seq<nat>) {
    var d := Distinct(es);
    && |d| <= DICT_MAX && dict == Flat(d) && codes == CodesIn(d, es)
    && |counts| == |d| && forall c :: 0 <= c < |d| ==> CountOk(counts, codes, c)
  }

  ghost predicate CountOk(counts: seq<nat>, codes: seq<byte>, c: nat)
    requires c < |counts|
  {
    counts[c] == Occurrences(codes, c)
  }

  lemma {:induction false} TallyKnown(es: seq<Entry>, i: nat, dict: seq<byte>, codes: seq<byte>, counts: seq<nat>, c: nat)
    requires i < |es| && Tallied(es[..i], dict, codes, counts)
    requires c < |Distinct(es[..i])| && Distinct(es[..i])[c] == es[i]
    ensures Distinct(es[..i + 1]) == Distinct(es[..i]) && c < |counts|
    ensures Tallied(es[..i + 1], dict, codes + [c as int], counts[c := counts[c] + 1])
  {
    hide Distinct, CodesIn, Flat, Occurrences;
    DistinctFacts(es[..i]);
    DistinctStep(es, i);
    CodesStep(Distinct(es[..i]), es, i, c);
    var counts', codes' := counts[c := counts[c] + 1], codes + [c as int];
    forall k | 0 <= k < |counts|
      ensures CountOk(counts', codes', k)
    {
      assert CountOk(counts, codes, k);
      OccurrencesStep(codes, c, k);
    }
  }

  lemma {:induction false} DistinctFacts(es: seq<Entry>)
    ensures |Distinct(es)| <= |es| && (forall e :: e in Distinct(es) <==> e in es)
    ensures forall i, j :: 0 <= i < j < |Distinct(es)| ==> Distinct(es)[i] != Distinct(es)[j]
  {
  }

  lemma {:induction false} TallyNew(es: seq<Entry>, i: nat, dict: seq<byte>, codes: seq<byte>, counts: seq<nat>)
    requires i < |es| && Tallied(es[..i], dict, codes, counts)
    requires es[i] !in Distinct(es[..i]) && |Distinct(es[..i])| < DICT_MAX
    ensures Distinct(es[..i + 1]) == Distinct(es[..i]) + [es[i]]
    ensures Tallied(es[..i + 1], dict + es[i], codes + [|counts| as int], counts + [1])
  {
    hide Distinct, CodesIn, Flat, Occurrences;
    var d := Distinct(es[..i]);
    DistinctFacts(es[..i]);
    DistinctFacts(es[..i + 1]);
    DistinctStep(es, i);
    FlatGrows(d, es[i]);
    CodesGrow(d, d + [es[i]], es[..i]);
    CodesStep(d + [es[i]], es, i, |d|);
    CodesBelow(d, es[..i]);
    NeverOccurs(codes, |d|);
    var counts', codes' := counts + [1], codes + [|counts| as int];
    forall k | 0 <= k < |d| + 1
      ensures CountOk(counts', codes', k)
    {
      assert k < |d| ==> CountOk(counts, codes, k);
      OccurrencesStep(codes, |d|, k);
    }
  }

  lemma {:induction false} CodesBelow(d: seq<Entry>, es: seq<Entry>)
    requires |d| <= DICT_MAX && forall e :: e in es ==> e in d
    ensures forall i :: 0 <= i < |CodesIn(d, es)| ==> CodesIn(d, es)[i] < |d|
  {
  }

  function CodesOf(narrow: seq<(nat, nat)>): (r: seq<nat>)
    ensures |r| == |narrow| && forall h :: 0 <= h < |narrow| ==> r[h] == narrow[h].1
  {
    seq(|narrow|, h requires 0 <= h < |narrow| => narrow[h].1)
  }

  /** Used slots of the narrow table hold the number that their entry spells. */
  ghost predicate KeysOk(narrow: seq<(nat, nat)>, d: seq<Entry>) {
    forall h :: 0 <= h < |narrow| && 0 < narrow[h].1 <= |d| ==> narrow[h].0 == Le(d[narrow[h].1 - 1])
  }

  class DictTable {
    const slots: array<nat>
    const narrow: array<(nat, nat)>
    const hash: Entry -> nat
    var dict: seq<byte>
    var codes: seq<byte>
    var counts: seq<nat>

    ghost predicate Valid()
      reads this
    {
      slots.Length == SLOTS && narrow.Length == SLOTS
    }

    constructor (hash: Entry -> nat)
      ensures Valid() && fresh(slots) && fresh(narrow) && this.hash == hash
    {
      slots := new nat[SLOTS];
      narrow := new (nat, nat)[SLOTS];
      this.hash := hash;
      dict, codes, counts := [], [], [];
    }

    /** The probe over the table of codes, comparing with the entries in the dictionary. */
    method FindWide(e: Entry, w: nat, ghost d: seq<Entry>) returns (h: nat, ghost k: nat)
      requires Valid() && Holds(slots[..], d, hash) && |d| <= DICT_MAX && dict == Flat(d) && |e| == w
      requires forall i :: 0 <= i < |d| ==> |d[i]| == w
      ensures k < SLOTS && h == Slot(hash(e), k) && slots[h] <= |d|
      ensures forall j :: 0 <= j < k ==> slots[Slot(hash(e), j)] != 0
      ensures if slots[h] == 0 then e !in d else d[slots[h] - 1] == e
    {
      hide Flat, Holds, Slot, Passed;
      h := hash(e) % SLOTS;
      k := 0;
      ProbeStarts(slots[..], d, hash, e);
      while slots[h] != 0
        invariant k < SLOTS && h == Slot(hash(e), k) && Passed(slots[..], d, hash(e), e, k)
        decreases SLOTS - k
      {
        var s := slots[h];
        CodeFits(slots[..], d, hash, h);
        FlatAt(d, w, s - 1);
        assert s * w == (s - 1) * w + w;
        if dict[(s - 1) * w..s * w] == e {
          PassedUsed(slots[..], d, hash(e), e, k);
          return;
        }
        ProbeStep(slots[..], d, hash, e, k);
        h := (h + 1) % SLOTS;
        k := k + 1;
      }
      PassedUsed(slots[..], d, hash(e), e, k);
      ProbeMisses(slots[..], d, hash, e, k);
    }

    /** The same over the table of keys: entries of at most eight bytes are compared as numbers. */
    method FindNarrow(e: Entry, w: nat, ghost d: seq<Entry>) returns (h: nat, ghost k: nat)
      requires Valid() && Holds(CodesOf(narrow[..]), d, hash) && KeysOk(narrow[..], d) && |d| <= DICT_MAX && |e| == w
      requires forall i :: 0 <= i < |d| ==> |d[i]| == w
      ensures k < SLOTS && h == Slot(hash(e), k) && narrow[h].1 <= |d|
      ensures forall j :: 0 <= j < k ==> narrow[Slot(hash(e), j)].1 != 0
      ensures if narrow[h].1 == 0 then e !in d else d[narrow[h].1 - 1] == e
    {
      hide Holds, Slot, Passed, Le;
      var key := Le(e);
      ghost var table := CodesOf(narrow[..]);
      h := hash(e) % SLOTS;
      k := 0;
      ProbeStarts(table, d, hash, e);
      while true
        invariant k < SLOTS && h == Slot(hash(e), k) && Passed(table, d, hash(e), e, k)
        decreases SLOTS - k
      {
        var (held, c) := narrow[h];
        CodeFits(table, d, hash, h);
        assert table[h] == c;
        if c == 0 {
          PassedUsed(table, d, hash(e), e, k);
          ProbeMisses(table, d, hash, e, k);
          return;
        }
        if held == key {
          LeDetermines(e, d[c - 1]);
          PassedUsed(table, d, hash(e), e, k);
          return;
        }
        ProbeStep(table, d, hash, e, k);
        h := (h + 1) % SLOTS;
        k := k + 1;
      }
    }

    /** One more element: known, new, or one too many. */
    method AddNarrow(ghost es: seq<Entry>, ghost i: nat, e: Entry, w: nat, max: nat) returns (ok: bool)
      requires Valid() && i < |es| && e == es[i] && (forall j :: 0 <= j < |es| ==> |es[j]| == w)
      requires Tallied(es[..i], dict, codes, counts) && |Distinct(es[..i])| <= max <= DICT_MAX
      requires Holds(CodesOf(narrow[..]), Distinct(es[..i]), hash) && KeysOk(narrow[..], Distinct(es[..i]))
      modifies this, narrow
      ensures Valid() && (!ok ==> |Distinct(es)| > max)
      ensures ok ==> Tallied(es[..i + 1], dict, codes, counts) && |Distinct(es[..i + 1])| <= max
      ensures ok ==> Holds(CodesOf(narrow[..]), Distinct(es[..i + 1]), hash) && KeysOk(narrow[..], Distinct(es[..i + 1]))
    {
      hide Distinct, Holds, Flat, Tallied, KeysOk, Slot, Le;
      ghost var d, before := Distinct(es[..i]), narrow[..];
      DistinctWidths(es[..i], w);
      TalliedFacts(es[..i], dict, codes, counts);
      var h; ghost var k;
      h, k := FindNarrow(e, w, d);
      if narrow[h].1 == 0 {
        var nd := |counts|;
        if nd == max {
          TooMany(es, i);
          return false;
        }
        TallyNew(es, i, dict, codes, counts);
        InsertHolds(CodesOf(before), d, hash, e, k);
        CodesAreFew(CodesOf(before), d, hash);
        NewKey(before, d, h, e);
        dict := dict + e;
        narrow[h] := (Le(e), nd + 1);
        assert narrow[..] == before[h := (Le(e), nd + 1)];
        assert CodesOf(narrow[..]) == CodesOf(before)[h := nd + 1];
        codes := codes + [nd];
        counts := counts + [1];
      } else {
        var c := narrow[h].1 - 1;
        TallyKnown(es, i, dict, codes, counts, c);
        codes := codes + [c];
        counts := counts[c := counts[c] + 1];
      }
      ok := true;
    }

    method AddWide(ghost es: seq<Entry>, ghost i: nat, e: Entry, w: nat, max: nat) returns (ok: bool)
      requires Valid() && i < |es| && e == es[i] && (forall j :: 0 <= j < |es| ==> |es[j]| == w)
      requires Tallied(es[..i], dict, codes, counts) && |Distinct(es[..i])| <= max <= DICT_MAX
      requires Holds(slots[..], Distinct(es[..i]), hash)
      modifies this, slots
      ensures Valid() && (!ok ==> |Distinct(es)| > max)
      ensures ok ==> Tallied(es[..i + 1], dict, codes, counts) && |Distinct(es[..i + 1])| <= max
      ensures ok ==> Holds(slots[..], Distinct(es[..i + 1]), hash)
    {
      hide Distinct, Holds, Flat, Tallied, Slot;
      ghost var d, before := Distinct(es[..i]), slots[..];
      DistinctWidths(es[..i], w);
      TalliedFacts(es[..i], dict, codes, counts);
      var h; ghost var k;
      h, k := FindWide(e, w, d);
      if slots[h] == 0 {
        var nd := |counts|;
        if nd == max {
          TooMany(es, i);
          return false;
        }
        TallyNew(es, i, dict, codes, counts);
        InsertHolds(before, d, hash, e, k);
        dict := dict + e;
        slots[h] := nd + 1;
        assert slots[..] == before[h := nd + 1];
        codes := codes + [nd];
        counts := counts + [1];
      } else {
        var c := slots[h] - 1;
        TallyKnown(es, i, dict, codes, counts, c);
        codes := codes + [c];
        counts := counts[c := counts[c] + 1];
      }
      ok := true;
    }

    /** Forgets everything; of the two tables only the one for this width is emptied. */
    method Clear(w: nat)
      requires Valid()
      modifies this, slots, narrow
      ensures Valid() && dict == [] && codes == [] && counts == []
      ensures w <= 8 ==> Holds(CodesOf(narrow[..]), [], hash) && KeysOk(narrow[..], [])
      ensures w > 8 ==> Holds(slots[..], [], hash)
    {
      dict, codes, counts := [], [], [];
      if w <= 8 {
        forall h | 0 <= h < narrow.Length {
          narrow[h] := (0, 0);
        }
      } else {
        forall h | 0 <= h < slots.Length {
          slots[h] := 0;
        }
      }
    }

    /** Nothing is written when there are more different entries than allowed; otherwise entries and codes are. */
    method Encode(w: nat, v: seq<byte>, out0: seq<byte>, max: nat) returns (out: seq<byte>, r: Option<nat>)
      requires Valid() && w > 0 && |v| % w == 0 && max <= DICT_MAX
      modifies this, slots, narrow
      ensures Valid()
      ensures var es := Chunks(v, w);
        if |Distinct(es)| > max then r == None && out == out0
        else r == Some(|Distinct(es)|) && out == out0 + Encoding(es) && Tallied(es, dict, codes, counts)
    {
      hide Distinct, Holds, Flat, Encoding, Tallied, KeysOk, Chunks;
      var n := |v| / w;
      ghost var es := Chunks(v, w);
      ChunksOf(v, w, n);
      NothingTallied(es);
      Clear(w);
      for i := 0 to n
        invariant Valid() && Tallied(es[..i], dict, codes, counts) && |Distinct(es[..i])| <= max
        invariant w <= 8 ==> Holds(CodesOf(narrow[..]), Distinct(es[..i]), hash) && KeysOk(narrow[..], Distinct(es[..i]))
        invariant w > 8 ==> Holds(slots[..], Distinct(es[..i]), hash)
      {
        ChunkAt(v, w, n, i);
        var ok: bool;
        if w <= 8 {
          ok := AddNarrow(es, i, v[i * w..i * w + w], w, max);
        } else {
          ok := AddWide(es, i, v[i * w..i * w + w], w, max);
        }
        if !ok {
          return out0, None;
        }
      }
      assert es[..n] == es;
      TalliedFacts(es, dict, codes, counts);
      TalliedEncodes(es, dict, codes, counts);
      var nd := |counts|;
      out := PutU64(out0, nd);
      assert out + dict + codes == out0 + (Leb(nd) + dict + codes);
      out := out + dict + codes;
      r := Some(nd);
    }
  }

  lemma {:induction false} CodesAreFew(table: seq<nat>, d: seq<Entry>, hash: Entry -> nat)
    requires Holds(table, d, hash)
    ensures |table| == SLOTS && forall h :: 0 <= h < SLOTS ==> table[h] <= |d|
  {
  }

  lemma {:induction false} NothingTallied(es: seq<Entry>)
    ensures Tallied(es[..0], [], [], []) && Distinct(es[..0]) == []
  {
    assert es[..0] == [];
  }

  lemma {:induction false} TalliedFacts(es: seq<Entry>, dict: seq<byte>, codes: seq<byte>, counts: seq<nat>)
    requires Tallied(es, dict, codes, counts)
    ensures |Distinct(es)| <= DICT_MAX && dict == Flat(Distinct(es)) && |counts| == |Distinct(es)|
  {
  }

  lemma {:induction false} TalliedEncodes(es: seq<Entry>, dict: seq<byte>, codes: seq<byte>, counts: seq<nat>)
    requires Tallied(es, dict, codes, counts)
    ensures |Distinct(es)| <= DICT_MAX && Leb(|Distinct(es)|) + dict + codes == Encoding(es)
  {
  }

  /** A new entry beyond the limit: then there are more different entries than allowed. */
  lemma {:induction false} TooMany(es: seq<Entry>, i: nat)
    requires i < |es| && es[i] !in Distinct(es[..i])
    ensures |Distinct(es)| > |Distinct(es[..i])|
  {
    hide Distinct;
    DistinctStep(es, i);
    DistinctGrows(es, i + 1);
  }

  lemma {:induction false} NewKey(narrow: seq<(nat, nat)>, d: seq<Entry>, h: nat, e: Entry)
    requires KeysOk(narrow, d) && h < |narrow| && forall i :: 0 <= i < |narrow| ==> narrow[i].1 <= |d|
    ensures KeysOk(narrow[h := (Le(e), |d| + 1)], d + [e])
  {
  }

  /** The first `k` slots of a probe are used by other entries. */
  ghost predicate Passed(table: seq<nat>, d: seq<Entry>, home: nat, e: Entry, k: nat)
    requires |table| == SLOTS
  {
    forall j :: 0 <= j < k ==> 0 < table[Slot(home, j)] <= |d| && d[table[Slot(home, j)] - 1] != e
  }

  lemma {:induction false} ProbeStarts(table: seq<nat>, d: seq<Entry>, hash: Entry -> nat, e: Entry)
    requires Holds(table, d, hash)
    ensures Passed(table, d, hash(e), e, 0) && hash(e) % SLOTS == Slot(hash(e), 0)
  {
  }

  lemma {:induction false} CodeFits(table: seq<nat>, d: seq<Entry>, hash: Entry -> nat, h: nat)
    requires Holds(table, d, hash) && h < SLOTS
    ensures table[h] <= |d|
  {
  }

  lemma {:induction false} PassedUsed(table: seq<nat>, d: seq<Entry>, home: nat, e: Entry, k: nat)
    requires |table| == SLOTS && Passed(table, d, home, e, k)
    ensures forall j :: 0 <= j < k ==> table[Slot(home, j)] != 0 && table[Slot(home, j)] - 1 < |d| && d[table[Slot(home, j)] - 1] != e
  {
  }

  /** One slot further; the probe cannot go round the whole table. */
  lemma {:induction false} ProbeStep(table: seq<nat>, d: seq<Entry>, hash: Entry -> nat, e: Entry, k: nat)
    requires Holds(table, d, hash) && |d| <= DICT_MAX && k < SLOTS && Passed(table, d, hash(e), e, k)
    requires 0 < table[Slot(hash(e), k)] <= |d| && d[table[Slot(hash(e), k)] - 1] != e
    ensures k + 1 < SLOTS && Passed(table, d, hash(e), e, k + 1) && (Slot(hash(e), k) + 1) % SLOTS == Slot(hash(e), k + 1)
  {
    hide Slot, Holds;
    NextSlot(hash(e), k);
    if k + 1 == SLOTS {
      HasUnused(table, d, hash, hash(e));
    }
  }

  lemma {:induction false} NextSlot(home: nat, k: nat)
    ensures (Slot(home, k) + 1) % SLOTS == Slot(home, k + 1)
  {
    var q := (home + k) / SLOTS;
    if (home + k) % SLOTS == SLOTS - 1 {
      DivModIs(home + k + 1, SLOTS, q + 1, 0);
    } else {
      DivModIs(home + k + 1, SLOTS, q, (home + k) % SLOTS + 1);
    }
  }

  // ---------------------------------------------------------------- decoding

  /** Every code stands for an entry of a dictionary of `size` bytes. */
  predicate AllInside(codes: seq<byte>, w: nat, size: nat) {
    forall i :: 0 <= i < |codes| ==> codes[i] * w + w <= size
  }

  function EntryAt(dict: seq<byte>, w: nat, c: nat): (e: Entry)
    requires c * w + w <= |dict|
  {
    dict[c * w..c * w + w]
  }

  function Expand(dict: seq<byte>, w: nat, codes: seq<byte>): seq<byte>
    requires AllInside(codes, w, |dict|)
  {
    if codes == [] then [] else Expand(dict, w, codes[..|codes| - 1]) + EntryAt(dict, w, codes[|codes| - 1])
  }

  lemma {:induction false} CodeInDict(c: nat, nd: nat, w: nat)
    requires c < nd
    ensures c * w + w <= nd * w
  {
    assert nd * w == c * w + (nd - c) * w;
    Scaled(nd - c, w);
  }

  function DictDecode(w: nat, input: seq<byte>): Option<seq<byte>> {
    match ReadVar(input)
    case None => None
    case Some((nd, rest)) =>
      if nd == 0 then Some(rest)
      else if nd > DICT_MAX || |rest| < nd * w then None
      else
        var dict, codes := rest[..nd * w], rest[nd * w..];
        if exists i :: 0 <= i < |codes| && codes[i] >= nd then None
        else
          CodesFit(codes, nd, w);
          Some(Expand(dict, w, codes))
  }

  lemma {:induction false} CodesFit(codes: seq<byte>, nd: nat, w: nat)
    requires forall i :: 0 <= i < |codes| ==> codes[i] < nd
    ensures AllInside(codes, w, nd * w)
  {
    forall i | 0 <= i < |codes|
      ensures codes[i] * w + w <= nd * w
    {
      CodeInDict(codes[i], nd, w);
    }
  }

  method Decode(w: nat, input: seq<byte>, out0: seq<byte>) returns (out: seq<byte>, ok: bool)
    ensures match DictDecode(w, input)
            case None => !ok && out == out0
            case Some(v) => ok && out == out0 + v
  {
    hide Unleb, Leb, ReadVar, Expand;
    var first := ReadVar(input);
    if first.None? {
      return out0, false;
    }
    var nd: nat, rest := first.value.0, first.value.1;
    if nd == 0 {
      return out0 + rest, true;
    }
    if nd > DICT_MAX || |rest| < nd * w {
      return out0, false;
    }
    var dict, codes := rest[..nd * w], rest[nd * w..];
    if exists i :: 0 <= i < |codes| && codes[i] >= nd {
      return out0, false;
    }
    CodesFit(codes, nd, w);
    out := ExpandAll(dict, w, codes, out0);
    ok := true;
  }

  method ExpandAll(dict: seq<byte>, w: nat, codes: seq<byte>, out0: seq<byte>) returns (out: seq<byte>)
    requires AllInside(codes, w, |dict|)
    ensures out == out0 + Expand(dict, w, codes)
  {
    hide Expand, EntryAt;
    out := out0;
    ExpandStep(dict, w, codes, 0);
    assert out0 + [] == out0;
    for i := 0 to |codes|
      invariant out == out0 + Expand(dict, w, codes[..i])
    {
      ExpandStep(dict, w, codes, i);
      var e := EntryAt(dict, w, codes[i]);
      assert out0 + Expand(dict, w, codes[..i]) + e == out0 + (Expand(dict, w, codes[..i]) + e);
      out := out + e;
    }
    assert codes[..|codes|] == codes;
  }

  lemma {:induction false} ExpandStep(dict: seq<byte>, w: nat, codes: seq<byte>, i: nat)
    requires AllInside(codes, w, |dict|)
    ensures Expand(dict, w, codes[..0]) == []
    ensures i < |codes| ==> Expand(dict, w, codes[..i + 1]) == Expand(dict, w, codes[..i]) + EntryAt(dict, w, codes[i])
  {
    hide EntryAt;
    if i < |codes| {
      assert codes[..i + 1][..i] == codes[..i] && codes[..i + 1][i] == codes[i];
    }
  }

  lemma {:induction false} ExpandsBack(d: seq<Entry>, w: nat, es: seq<Entry>)
    requires |d| <= DICT_MAX && (forall e :: e in es ==> e in d) && forall i :: 0 <= i < |d| ==> |d[i]| == w
    ensures AllInside(CodesIn(d, es), w, |Flat(d)|)
    ensures Expand(Flat(d), w, CodesIn(d, es)) == Flat(es)
  {
    hide Flat;
    FlatAt(d, w, 0);
    CodesBelow(d, es);
    CodesFit(CodesIn(d, es), |d|, w);
    if es == [] {
      assert Flat(es) == [] by {
        FlatOfNone();
      }
    } else {
      var front, last := es[..|es| - 1], es[|es| - 1];
      assert es == front + [last];
      ExpandsBack(d, w, front);
      FlatAt(d, w, IndexIn(d, last));
      FlatGrows(front, last);
      var codes := CodesIn(d, es);
      assert codes[..|codes| - 1] == CodesIn(d, front);
    }
  }

  /** Decoding what was encoded gives the elements back, for every width, also no elements at all. */
  lemma {:induction false} DecodesBack(v: seq<byte>, w: nat)
    requires w > 0 && |v| % w == 0 && |Distinct(Chunks(v, w))| <= DICT_MAX
    ensures DictDecode(w, Encoding(Chunks(v, w))) == Some(v)
  {
    hide Leb, Unleb, ReadVar, Flat, Distinct, CodesIn, Chunks, Expand;
    var es := Chunks(v, w);
    var d := Distinct(es);
    var codes := CodesIn(Distinct(es), es);
    ChunksOf(v, w, |v| / w);
    DistinctFacts(es);
    DistinctWidths(es, w);
    FlatAt(d, w, 0);
    assert Leb(|d|) + Flat(d) + codes == Leb(|d|) + (Flat(d) + codes);
    ReadVarIff(Encoding(es), |d|, Flat(d) + codes);
    assert (Flat(d) + codes)[..|d| * w] == Flat(d) && (Flat(d) + codes)[|d| * w..] == codes;
    if |d| == 0 {
      FlatOfNone();
      SomeDistinct(es);
      assert codes == [] && Flat(d) + codes == [];
    } else {
      CodesBelow(d, es);
      ExpandsBack(d, w, es);
    }
  }

  lemma {:induction false} SomeDistinct(es: seq<Entry>)
    ensures es != [] ==> |Distinct(es)| > 0
  {
    if es != [] {
      assert es[0] in Distinct(es);
    }
  }
}
