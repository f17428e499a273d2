/** The in-place value transforms: differences of neighbours, byte planes, and both; and their inverses. */
module Transforms {
  import opened Arithmetic
  import opened Limbs
  import opened Words

  // ---------------------------------------------------------------- elements of w bytes

  /** Place `j` of row `i`, in rows of `n`. */
  function At(i: nat, j: nat, n: nat): (r: nat) {
    i * n + j
  }

  /** Rows do not overlap, and `rows` of them end at `rows * n`. */
  lemma {:induction false} RowsApart(i: nat, j: nat, i': nat, j': nat, n: nat)
    requires j < n && j' < n && i < i'
    ensures At(i, j, n) < At(i', j', n)
  {
    assert i' * n == i * n + (i' - i) * n;
    Scaled(i' - i, n);
  }

  lemma {:induction false} RowFits(i: nat, j: nat, n: nat, rows: nat)
    requires j < n && i < rows
    ensures At(i, j, n) < rows * n && At(i, 0, n) + n <= rows * n
  {
    assert rows * n == i * n + (rows - i) * n;
    Scaled(rows - i, n);
  }

  /** Every place lies in a row. */
  lemma {:induction false} RowOf(k: nat, n: nat, rows: nat) returns (i: nat, j: nat)
    requires n > 0 && k < rows * n
    ensures i < rows && j < n && At(i, j, n) == k
  {
    i, j := k / n, k % n;
    assert k == i * n + j;
    assert (i - rows) * n == i * n - rows * n;
    Scaled(i - rows, n);
  }

  /** The number that element `i` spells. */
  function El(s: seq<byte>, w: nat, i: nat): (x: nat)
    requires At(i, 0, w) + w <= |s|
  {
    Le(s[At(i, 0, w)..At(i, 0, w) + w])
  }

  ghost predicate Sized(s: seq<byte>, w: nat, n: nat) {
    w > 0 && |s| == n * w
  }

  lemma {:induction false} ElBound(s: seq<byte>, w: nat, n: nat, i: nat)
    requires Sized(s, w, n) && i < n
    ensures At(i, 0, w) + w <= |s| && El(s, w, i) < Pow(w)
  {
    RowFits(i, 0, w, n);
    LeBound(s[At(i, 0, w)..At(i, 0, w) + w]);
  }

  /** Sequences whose elements spell the same numbers are the same. */
  lemma {:induction false} ElementsDetermine(s: seq<byte>, t: seq<byte>, w: nat, n: nat)
    requires Sized(s, w, n) && Sized(t, w, n) && forall i: nat :: i < n ==> SameEl(s, t, w, i)
    ensures s == t
  {
    forall k | 0 <= k < |s|
      ensures s[k] == t[k]
    {
      var i, j := RowOf(k, w, n);
      assert SameEl(s, t, w, i);
      var at := At(i, 0, w);
      RowFits(i, 0, w, n);
      LeDetermines(s[at..at + w], t[at..at + w]);
      assert s[k] == s[at..at + w][j] && t[k] == t[at..at + w][j];
    }
  }

  ghost predicate SameEl(s: seq<byte>, t: seq<byte>, w: nat, i: nat) {
    At(i, 0, w) + w <= |s| == |t| && El(s, w, i) == El(t, w, i)
  }

  // ---------------------------------------------------------------- differences

  /** Each element but the first has become its difference from the one before. */
  ghost predicate Differences(before: seq<byte>, after: seq<byte>, w: nat, n: nat) {
    && Sized(before, w, n) && Sized(after, w, n)
    && forall i: nat :: i < n ==> DifferenceAt(before, after, w, i)
  }

  ghost predicate DifferenceAt(before: seq<byte>, after: seq<byte>, w: nat, i: nat) {
    && At(i, 0, w) + w <= |before| == |after|
    && El(after, w, i) == if i == 0 then El(before, w, 0) else
         PreviousFits(before, w, i);
         (El(before, w, i) - El(before, w, i - 1)) % Pow(w)
  }

  lemma {:induction false} PreviousFits(s: seq<byte>, w: nat, i: nat)
    requires i > 0 && At(i, 0, w) + w <= |s|
    ensures At(i - 1, 0, w) + w == At(i, 0, w)
  {
    assert i * w == (i - 1) * w + w;
  }

  /** Each element but the first has become its sum with the new one before. */
  ghost predicate Sums(before: seq<byte>, after: seq<byte>, w: nat, n: nat) {
    && Sized(before, w, n) && Sized(after, w, n)
    && forall i: nat :: i < n ==> SumAt(before, after, w, i)
  }

  ghost predicate SumAt(before: seq<byte>, after: seq<byte>, w: nat, i: nat) {
    && At(i, 0, w) + w <= |before| == |after|
    && El(after, w, i) == if i == 0 then El(before, w, 0) else
         PreviousFits(before, w, i);
         (El(before, w, i) + El(after, w, i - 1)) % Pow(w)
  }

  /** Summing up differences gives the elements back. */
  lemma {:induction false} SumsUndoDifferences(s: seq<byte>, d: seq<byte>, t: seq<byte>, w: nat, n: nat)
    requires Differences(s, d, w, n) && Sums(d, t, w, n)
    ensures t == s
  {
    hide Differences, Sums, DifferenceAt, SumAt, At, El, Pow;
    SizedParts(s, d, t, w, n);
    forall i: nat | i < n
      ensures SameEl(t, s, w, i)
    {
      SumsUndoAt(s, d, t, w, n, i);
    }
    ElementsDetermine(t, s, w, n);
  }

  lemma {:induction false} SizedParts(s: seq<byte>, d: seq<byte>, t: seq<byte>, w: nat, n: nat)
    requires Differences(s, d, w, n) && (Sums(d, t, w, n) || Sums(t, s, w, n))
    ensures Sized(s, w, n) && Sized(d, w, n) && Sized(t, w, n)
  {
  }

  lemma {:induction false} SumsUndoAt(s: seq<byte>, d: seq<byte>, t: seq<byte>, w: nat, n: nat, i: nat)
    requires Differences(s, d, w, n) && Sums(d, t, w, n) && i < n
    ensures SameEl(t, s, w, i)
  {
    assert DifferenceAt(s, d, w, i) && SumAt(d, t, w, i);
    if i > 0 {
      SumsUndoAt(s, d, t, w, n, i - 1);
      PreviousFits(s, w, i);
      ElBound(s, w, n, i);
      AddBack(El(s, w, i), El(s, w, i - 1), Pow(w));
    }
  }

  lemma {:induction false} AddBack(x: nat, y: nat, m: nat)
    requires x < m
    ensures ((x - y) % m + y) % m == x
  {
    var q := (x - y) / m;
    assert x - y == q * m + (x - y) % m;
    DivModIs((x - y) % m + y, m, 0 - q, x);
  }

  /** Taking differences of sums gives the elements back. */
  lemma {:induction false} DifferencesUndoSums(d: seq<byte>, t: seq<byte>, e: seq<byte>, w: nat, n: nat)
    requires Sums(d, t, w, n) && Differences(t, e, w, n)
    ensures e == d
  {
    hide Differences, Sums, DifferenceAt, SumAt, At, El, Pow;
    SizedParts(t, e, d, w, n);
    forall i: nat | i < n
      ensures SameEl(e, d, w, i)
    {
      DifferencesUndoAt(d, t, e, w, n, i);
    }
    ElementsDetermine(e, d, w, n);
  }

  lemma {:induction false} DifferencesUndoAt(d: seq<byte>, t: seq<byte>, e: seq<byte>, w: nat, n: nat, i: nat)
    requires Sums(d, t, w, n) && Differences(t, e, w, n) && i < n
    ensures SameEl(e, d, w, i)
  {
    hide At, El, Pow;
    assert SumAt(d, t, w, i) && DifferenceAt(t, e, w, i);
    if i > 0 {
      PreviousFits(d, w, i);
      ElBound(d, w, n, i);
      SubtractBack(El(d, w, i), El(t, w, i - 1), Pow(w));
    }
  }

  lemma {:induction false} SubtractBack(x: nat, y: nat, m: nat)
    requires x < m
    ensures ((x + y) % m - y) % m == x
  {
    var q := (x + y) / m;
    assert x + y == q * m + (x + y) % m;
    DivModIs((x + y) % m - y, m, 0 - q, x);
  }

  // ---------------------------------------------------------------- byte planes

  /** Byte `b` of element `i` is at place `i` of plane `b`. */
  ghost predicate Planes(elements: seq<byte>, planes: seq<byte>, w: nat, n: nat) {
    && Sized(elements, w, n) && |planes| == |elements|
    && forall i: nat, b: nat :: i < n && b < w ==> PlaneAt(elements, planes, w, n, i, b)
  }

  ghost predicate PlaneAt(elements: seq<byte>, planes: seq<byte>, w: nat, n: nat, i: nat, b: nat) {
    At(i, b, w) < |elements| && At(b, i, n) < |planes| && planes[At(b, i, n)] == elements[At(i, b, w)]
  }

  /** The planes determine the elements, and the elements the planes. */
  lemma {:induction false} PlanesAreFaithful(s: seq<byte>, p: seq<byte>, t: seq<byte>, q: seq<byte>, w: nat, n: nat)
    requires Planes(s, p, w, n) && Planes(t, q, w, n)
    ensures s == t <==> p == q
  {
    if p == q {
      forall k | 0 <= k < |s|
        ensures s[k] == t[k]
      {
        var i, b := RowOf(k, w, n);
        assert PlaneAt(s, p, w, n, i, b) && PlaneAt(t, q, w, n, i, b);
      }
    }
    if s == t {
      forall k | 0 <= k < |p|
        ensures p[k] == q[k]
      {
        Commutes(w, n);
        var b, i := RowOf(k, n, w);
        assert PlaneAt(s, p, w, n, i, b) && PlaneAt(t, q, w, n, i, b);
      }
    }
  }

  lemma {:induction false} Commutes(w: nat, n: nat)
    ensures w * n == n * w && (w > 0 && n * w > 0 ==> n > 0)
  {
  }

  // ---------------------------------------------------------------- in place

  /** Subtraction for the widths with a machine type: one load each, one wrapping subtraction. */
  method SubTyped(v: array<byte>, dst: nat, src: nat, w: nat)
    requires src + w <= dst && dst + w <= v.Length
    modifies v
    ensures forall j :: 0 <= j < v.Length && !(dst <= j < dst + w) ==> v[j] == old(v[j])
    ensures Le(v[dst..dst + w]) == (old(Le(v[dst..dst + w])) - old(Le(v[src..src + w]))) % Pow(w)
  {
    hide Le, Pow, Bytes;
    var x := Load(v, dst, w);
    var y := Load(v, src, w);
    var d := (x - y) % Pow(w);
    Store(v, dst, w, d);
    LeOfBytes(d, w);
    ModTwice(x - y, Pow(w));
  }

  method AddTyped(v: array<byte>, dst: nat, src: nat, w: nat)
    requires src + w <= dst && dst + w <= v.Length
    modifies v
    ensures forall j :: 0 <= j < v.Length && !(dst <= j < dst + w) ==> v[j] == old(v[j])
    ensures Le(v[dst..dst + w]) == (old(Le(v[dst..dst + w])) + old(Le(v[src..src + w]))) % Pow(w)
  {
    hide Le, Pow, Bytes;
    var x := Load(v, dst, w);
    var y := Load(v, src, w);
    var s := (x + y) % Pow(w);
    Store(v, dst, w, s);
    LeOfBytes(s, w);
    ModTwice(x + y, Pow(w));
  }

  lemma {:induction false} ModTwice(x: int, m: nat)
    requires m > 0
    ensures 0 <= x % m && (x % m) % m == x % m
  {
    DivModIs(x % m, m, 0, x % m);
  }

  predicate MachineWidth(w: nat) {
    w == 1 || w == 2 || w == 4 || w == 8
  }

  /** Element `i` becomes its difference from the one before. */
  method EncodeOne(w: nat, v: array<byte>, n: nat, i: nat)
    requires w > 0 && v.Length == n * w && 0 < i < n
    modifies v
    ensures At(i, 0, w) + w <= v.Length && At(i - 1, 0, w) + w <= v.Length
    ensures forall k :: 0 <= k < v.Length && !(At(i, 0, w) <= k < At(i, 0, w) + w) ==> v[k] == old(v[k])
    ensures El(v[..], w, i) == (El(old(v[..]), w, i) - El(old(v[..]), w, i - 1)) % Pow(w)
  {
    hide At, El, Pow, Le;
    Neighbours(i, w, n);
    ElementsOf(v, w, n, i);
    if MachineWidth(w) {
      SubTyped(v, At(i, 0, w), At(i - 1, 0, w), w);
    } else {
      SubLe(v, At(i, 0, w), At(i - 1, 0, w), w);
    }
    ElementsOf(v, w, n, i);
  }

  /** Every element but the first becomes its difference from the one before, last element first. */
  method DeltaEncode(w: nat, v: array<byte>, n: nat)
    requires w > 0 && v.Length == n * w
    modifies v
    ensures Differences(old(v[..]), v[..], w, n)
  {
    hide At, El, Pow, DifferenceAt;
    ghost var was := v[..];
    var i: nat := n;
    EncodeStarts(was, w, n);
    while i > 1
      invariant i <= n && Sized(v[..], w, n) && Sized(was, w, n)
      invariant EncodedFrom(was, v[..], w, n, i)
      decreases i
    {
      i := i - 1;
      ghost var before := v[..];
      EncodeOne(w, v, n, i);
      EncodedNext(was, before, v[..], w, n, i);
    }
    EncodedAll(was, v[..], w, n, i);
  }

  /** The elements from `i` on are differences, and those before are untouched. */
  ghost predicate EncodedFrom(was: seq<byte>, now: seq<byte>, w: nat, n: nat, i: nat) {
    && Sized(was, w, n) && Sized(now, w, n)
    && (forall j: nat :: i <= j < n ==> DifferenceAt(was, now, w, j))
    && forall j: nat :: j < i && j < n ==> SameEl(was, now, w, j)
  }

  /** Where the elements `i` and `i - 1` are. */
  lemma {:induction false} Neighbours(i: nat, w: nat, n: nat)
    requires 0 < i < n && w > 0
    ensures At(i - 1, 0, w) + w == At(i, 0, w) && At(i, 0, w) + w <= n * w
  {
    assert i * w == (i - 1) * w + w;
    RowFits(i, 0, w, n);
  }

  lemma {:induction false} ElementsOf(v: array<byte>, w: nat, n: nat, i: nat)
    requires 0 < i < n && w > 0 && v.Length == n * w
    ensures At(i, 0, w) + w <= v.Length && At(i - 1, 0, w) + w <= v.Length
    ensures El(v[..], w, i) == Le(v[At(i, 0, w)..At(i, 0, w) + w])
    ensures El(v[..], w, i - 1) == Le(v[At(i - 1, 0, w)..At(i - 1, 0, w) + w])
  {
    hide Le;
    Neighbours(i, w, n);
    var a, b := At(i, 0, w), At(i - 1, 0, w);
    assert v[..][a..a + w] == v[a..a + w] && v[..][b..b + w] == v[b..b + w];
  }

  /** Elements other than the one written stay. */
  lemma {:induction false} OtherElement(before: seq<byte>, after: seq<byte>, w: nat, n: nat, i: nat, j: nat)
    requires Sized(before, w, n) && Sized(after, w, n) && i < n && j < n && i != j
    requires forall k :: 0 <= k < |before| && !(At(i, 0, w) <= k < At(i, 0, w) + w) ==> after[k] == before[k]
    ensures SameEl(before, after, w, j)
  {
    RowFits(j, 0, w, n);
    if i < j {
      RowsApart(i, w - 1, j, 0, w);
    } else {
      RowsApart(j, w - 1, i, 0, w);
    }
    assert before[At(j, 0, w)..At(j, 0, w) + w] == after[At(j, 0, w)..At(j, 0, w) + w];
  }

  lemma {:induction false} EncodeStarts(was: seq<byte>, w: nat, n: nat)
    requires Sized(was, w, n)
    ensures EncodedFrom(was, was, w, n, n)
  {
    forall j: nat | j < n
      ensures SameEl(was, was, w, j)
    {
      RowFits(j, 0, w, n);
    }
  }

  lemma {:induction false} EncodedNext(was: seq<byte>, before: seq<byte>, after: seq<byte>, w: nat, n: nat, i: nat)
    requires EncodedFrom(was, before, w, n, i + 1) && Sized(after, w, n) && 0 < i < n
    requires forall k :: 0 <= k < |before| && !(At(i, 0, w) <= k < At(i, 0, w) + w) ==> after[k] == before[k]
    requires At(i, 0, w) + w <= |before| && At(i - 1, 0, w) + w <= |before|
    requires El(after, w, i) == (El(before, w, i) - El(before, w, i - 1)) % Pow(w)
    ensures EncodedFrom(was, after, w, n, i)
  {
    hide At, El, Pow;
    assert SameEl(was, before, w, i) && SameEl(was, before, w, i - 1);
    forall j: nat | i <= j < n
      ensures DifferenceAt(was, after, w, j)
    {
      if j > i {
        OtherElement(before, after, w, n, i, j);
        assert DifferenceAt(was, before, w, j);
      }
    }
    forall j: nat | j < i && j < n
      ensures SameEl(was, after, w, j)
    {
      OtherElement(before, after, w, n, i, j);
      assert SameEl(was, before, w, j);
    }
  }

  lemma {:induction false} EncodedAll(was: seq<byte>, now: seq<byte>, w: nat, n: nat, i: nat)
    requires EncodedFrom(was, now, w, n, i) && i <= 1
    ensures Differences(was, now, w, n)
  {
    forall j: nat | j < n
      ensures DifferenceAt(was, now, w, j)
    {
      if j == 0 && i == 1 {
        assert SameEl(was, now, w, 0);
      }
    }
  }

  /** Element `i` becomes its sum with the one before. */
  method DecodeOne(w: nat, v: array<byte>, n: nat, i: nat)
    requires w > 0 && v.Length == n * w && 0 < i < n
    modifies v
    ensures At(i, 0, w) + w <= v.Length && At(i - 1, 0, w) + w <= v.Length
    ensures forall k :: 0 <= k < v.Length && !(At(i, 0, w) <= k < At(i, 0, w) + w) ==> v[k] == old(v[k])
    ensures El(v[..], w, i) == (El(old(v[..]), w, i) + El(old(v[..]), w, i - 1)) % Pow(w)
  {
    hide At, El, Pow, Le;
    Neighbours(i, w, n);
    ElementsOf(v, w, n, i);
    if MachineWidth(w) {
      AddTyped(v, At(i, 0, w), At(i - 1, 0, w), w);
    } else {
      AddLe(v, At(i, 0, w), At(i - 1, 0, w), w);
    }
    ElementsOf(v, w, n, i);
  }

  /** Every element but the first becomes its sum with the new one before, first element first. */
  method DeltaDecode(w: nat, v: array<byte>, n: nat)
    requires w > 0 && v.Length == n * w
    modifies v
    ensures Sums(old(v[..]), v[..], w, n)
  {
    hide At, El, Pow, SumAt;
    ghost var was := v[..];
    var i: nat := 1;
    DecodeStarts(was, w, n);
    while i < n
      invariant 1 <= i && Sized(v[..], w, n)
      invariant DecodedTo(was, v[..], w, n, i)
    {
      ghost var before := v[..];
      DecodeOne(w, v, n, i);
      DecodedNext(was, before, v[..], w, n, i);
      i := i + 1;
    }
  }

  /** The elements before `i` are sums, and those from `i` on are untouched. */
  ghost predicate DecodedTo(was: seq<byte>, now: seq<byte>, w: nat, n: nat, i: nat) {
    && Sized(was, w, n) && Sized(now, w, n)
    && (forall j: nat :: j < i && j < n ==> SumAt(was, now, w, j))
    && forall j: nat :: i <= j < n ==> SameEl(was, now, w, j)
  }

  lemma {:induction false} DecodeStarts(was: seq<byte>, w: nat, n: nat)
    requires Sized(was, w, n)
    ensures DecodedTo(was, was, w, n, 1)
  {
    forall j: nat | j < n
      ensures SameEl(was, was, w, j)
    {
      RowFits(j, 0, w, n);
    }
    if n > 0 {
      RowFits(0, 0, w, n);
    }
  }

  lemma {:induction false} DecodedNext(was: seq<byte>, before: seq<byte>, after: seq<byte>, w: nat, n: nat, i: nat)
    requires DecodedTo(was, before, w, n, i) && Sized(after, w, n) && 0 < i < n
    requires forall k :: 0 <= k < |before| && !(At(i, 0, w) <= k < At(i, 0, w) + w) ==> after[k] == before[k]
    requires At(i, 0, w) + w <= |before| && At(i - 1, 0, w) + w <= |before|
    requires El(after, w, i) == (El(before, w, i) + El(before, w, i - 1)) % Pow(w)
    ensures DecodedTo(was, after, w, n, i + 1)
  {
    hide At, El, Pow;
    assert SameEl(was, before, w, i);
    OtherElement(before, after, w, n, i, i - 1);
    forall j: nat | j < i + 1 && j < n
      ensures SumAt(was, after, w, j)
    {
      if j < i {
        OtherElement(before, after, w, n, i, j);
        assert SumAt(was, before, w, j);
        if j > 0 {
          OtherElement(before, after, w, n, i, j - 1);
        }
      }
    }
    forall j: nat | i + 1 <= j < n
      ensures SameEl(was, after, w, j)
    {
      OtherElement(before, after, w, n, i, j);
      assert SameEl(was, before, w, j);
    }
  }

  const BLOCK: nat := 64

  /** Which bytes a blocked copy has done: all of the rows before `i0`, of the rows up to `i1` the bytes before `b`, and byte `b` up to row `i`. */
  predicate Copied(i0: nat, i1: nat, b: nat, i: nat, row: nat, j: nat) {
    row < i0 || (row < i1 && j < b) || (row < i && j == b)
  }

  ghost predicate PlanesSoFar(elements: seq<byte>, planes: seq<byte>, w: nat, n: nat, i0: nat, i1: nat, b: nat, i: nat) {
    && Sized(elements, w, n) && |planes| == |elements|
    && forall row: nat, j: nat :: row < n && j < w && Copied(i0, i1, b, i, row, j) ==> PlaneAt(elements, planes, w, n, row, j)
  }

  /** Writing one byte of a plane. */
  lemma {:induction false} PlaneWritten(elements: seq<byte>, planes: seq<byte>, w: nat, n: nat, i0: nat, i1: nat, b: nat, i: nat)
    requires PlanesSoFar(elements, planes, w, n, i0, i1, b, i) && i0 <= i < i1 <= n && b < w
    ensures At(i, b, w) < |elements| && At(b, i, n) < |planes|
    ensures PlanesSoFar(elements, planes[At(b, i, n) := elements[At(i, b, w)]], w, n, i0, i1, b, i + 1)
  {
    hide At;
    BothFit(w, n, i, b);
    var planes' := planes[At(b, i, n) := elements[At(i, b, w)]];
    forall row: nat, j: nat | row < n && j < w && Copied(i0, i1, b, i + 1, row, j)
      ensures PlaneAt(elements, planes', w, n, row, j)
    {
      BothFit(w, n, row, j);
      if (row, j) != (i, b) {
        PlacesDiffer(n, row, j, i, b);
        assert PlaneAt(elements, planes, w, n, row, j);
      }
    }
  }

  lemma {:induction false} BothFit(w: nat, n: nat, i: nat, b: nat)
    requires i < n && b < w
    ensures At(i, b, w) < n * w && At(b, i, n) < n * w
  {
    RowFits(i, b, w, n);
    RowFits(b, i, n, w);
    Commutes(w, n);
  }

  lemma {:induction false} PlacesDiffer(n: nat, row: nat, j: nat, i: nat, b: nat)
    requires row < n && i < n && (row, j) != (i, b)
    ensures At(j, row, n) != At(b, i, n)
  {
    if j < b {
      RowsApart(j, row, b, i, n);
    } else if b < j {
      RowsApart(b, i, j, row, n);
    }
  }

  /** A plane of a block done: on to the next plane. */
  lemma {:induction false} PlaneDone(elements: seq<byte>, planes: seq<byte>, w: nat, n: nat, i0: nat, i1: nat, b: nat)
    requires PlanesSoFar(elements, planes, w, n, i0, i1, b, i1) && i0 <= i1
    ensures PlanesSoFar(elements, planes, w, n, i0, i1, b + 1, i0)
  {
    forall row: nat, j: nat | row < n && j < w && Copied(i0, i1, b + 1, i0, row, j)
      ensures PlaneAt(elements, planes, w, n, row, j)
    {
      assert Copied(i0, i1, b, i1, row, j);
    }
  }

  /** All planes of a block done: on to the next block. */
  lemma {:induction false} BlockDone(elements: seq<byte>, planes: seq<byte>, w: nat, n: nat, i0: nat, i1: nat, i2: nat)
    requires PlanesSoFar(elements, planes, w, n, i0, i1, w, i0) && i0 <= i1
    ensures PlanesSoFar(elements, planes, w, n, i1, i2, 0, i1)
  {
    forall row: nat, j: nat | row < n && j < w && Copied(i1, i2, 0, i1, row, j)
      ensures PlaneAt(elements, planes, w, n, row, j)
    {
      assert Copied(i0, i1, w, i0, row, j);
    }
  }

  /** The planes of the elements, gathered in blocks of 64 elements. */
  method Shuffle(w: nat, v: array<byte>, n: nat)
    requires w > 0 && v.Length == n * w
    modifies v
    ensures Planes(old(v[..]), v[..], w, n)
  {
    hide At, PlanesSoFar, Planes;
    if w < 2 {
      OnePlane(v[..], n);
      return;
    }
    var tmp := new byte[v.Length](_ => 0);
    GatherPlanes(w, v, n, tmp);
    ghost var elements, planes := v[..], tmp[..];
    assert elements == old(v[..]) && Planes(elements, planes, w, n);
    forall k | 0 <= k < v.Length {
      v[k] := tmp[k];
    }
    assert v[..] == planes;
  }

  lemma {:induction false} OnePlane(s: seq<byte>, n: nat)
    requires Sized(s, 1, n)
    ensures Planes(s, s, 1, n)
  {
    forall i: nat, b: nat | i < n && b < 1
      ensures PlaneAt(s, s, 1, n, i, b)
    {
      assert At(i, b, 1) == i && At(b, i, n) == i;
    }
  }

  method GatherPlanes(w: nat, v: array<byte>, n: nat, tmp: array<byte>)
    requires w > 0 && v.Length == n * w == tmp.Length && v != tmp
    modifies tmp
    ensures Planes(v[..], tmp[..], w, n)
  {
    hide At, PlanesSoFar;
    var i0: nat := 0;
    NoPlanes(v[..], tmp[..], w, n);
    while i0 < n
      invariant i0 <= n && PlanesSoFar(v[..], tmp[..], w, n, i0, i0, 0, i0)
    {
      var i1: nat := if i0 + BLOCK < n then i0 + BLOCK else n;
      WiderBlock(v[..], tmp[..], w, n, i0, i0, i1);
      for b := 0 to w
        invariant PlanesSoFar(v[..], tmp[..], w, n, i0, i1, b, i0)
      {
        for i := i0 to i1
          invariant i0 <= i && PlanesSoFar(v[..], tmp[..], w, n, i0, i1, b, i)
        {
          PlaneWritten(v[..], tmp[..], w, n, i0, i1, b, i);
          ghost var planes := tmp[..];
          tmp[At(b, i, n)] := v[At(i, b, w)];
          assert tmp[..] == planes[At(b, i, n) := v[..][At(i, b, w)]];
        }
        PlaneDone(v[..], tmp[..], w, n, i0, i1, b);
      }
      BlockDone(v[..], tmp[..], w, n, i0, i1, i1);
      i0 := i1;
    }
    AllPlanes(v[..], tmp[..], w, n, i0);
  }

  lemma {:induction false} NoPlanes(elements: seq<byte>, planes: seq<byte>, w: nat, n: nat)
    requires Sized(elements, w, n) && |planes| == |elements|
    ensures PlanesSoFar(elements, planes, w, n, 0, 0, 0, 0)
  {
  }

  lemma {:induction false} WiderBlock(elements: seq<byte>, planes: seq<byte>, w: nat, n: nat, i0: nat, i1: nat, i2: nat)
    requires PlanesSoFar(elements, planes, w, n, i0, i1, 0, i0)
    ensures PlanesSoFar(elements, planes, w, n, i0, i2, 0, i0)
  {
    forall row: nat, j: nat | row < n && j < w && Copied(i0, i2, 0, i0, row, j)
      ensures PlaneAt(elements, planes, w, n, row, j)
    {
      assert Copied(i0, i1, 0, i0, row, j);
    }
  }

  lemma {:induction false} AllPlanes(elements: seq<byte>, planes: seq<byte>, w: nat, n: nat, i0: nat)
    requires PlanesSoFar(elements, planes, w, n, i0, i0, 0, i0) && i0 >= n
    ensures Planes(elements, planes, w, n)
  {
    forall i: nat, b: nat | i < n && b < w
      ensures PlaneAt(elements, planes, w, n, i, b)
    {
      assert Copied(i0, i0, 0, i0, i, b);
    }
  }

  /** Writing one byte of an element. */
  lemma {:induction false} ElementWritten(elements: seq<byte>, planes: seq<byte>, w: nat, n: nat, i0: nat, i1: nat, b: nat, i: nat)
    requires PlanesSoFar(elements, planes, w, n, i0, i1, b, i) && i0 <= i < i1 <= n && b < w
    ensures At(i, b, w) < |elements| && At(b, i, n) < |planes|
    ensures PlanesSoFar(elements[At(i, b, w) := planes[At(b, i, n)]], planes, w, n, i0, i1, b, i + 1)
  {
    hide At;
    BothFit(w, n, i, b);
    var elements' := elements[At(i, b, w) := planes[At(b, i, n)]];
    forall row: nat, j: nat | row < n && j < w && Copied(i0, i1, b, i + 1, row, j)
      ensures PlaneAt(elements', planes, w, n, row, j)
    {
      BothFit(w, n, row, j);
      if (row, j) != (i, b) {
        PlacesDiffer(w, j, row, b, i);
        assert PlaneAt(elements, planes, w, n, row, j);
      }
    }
  }

  /** The elements from their planes; for the widths with a machine type one element after the other, else in blocks. */
  method Unshuffle(w: nat, v: array<byte>, n: nat)
    requires w > 0 && v.Length == n * w
    modifies v
    ensures Planes(v[..], old(v[..]), w, n)
  {
    hide At, PlanesSoFar;
    if w < 2 {
      OnePlane(v[..], n);
      return;
    }
    var tmp := new byte[v.Length](k requires 0 <= k < v.Length reads v => v[k]);
    assert tmp[..] == v[..];
    ScatterPlanes(w, v, n, tmp, if w == 2 || w == 4 || w == 8 || w == 16 then 1 else BLOCK);
  }

  /** The elements of `block` rows at a time. */
  method ScatterPlanes(w: nat, v: array<byte>, n: nat, tmp: array<byte>, block: nat)
    requires w > 0 && v.Length == n * w == tmp.Length && v != tmp && block > 0
    modifies v
    ensures Planes(v[..], tmp[..], w, n)
  {
    hide At, PlanesSoFar;
    var i0: nat := 0;
    NoPlanes(v[..], tmp[..], w, n);
    while i0 < n
      invariant i0 <= n && PlanesSoFar(v[..], tmp[..], w, n, i0, i0, 0, i0)
    {
      var i1: nat := if i0 + block < n then i0 + block else n;
      WiderBlock(v[..], tmp[..], w, n, i0, i0, i1);
      for b := 0 to w
        invariant PlanesSoFar(v[..], tmp[..], w, n, i0, i1, b, i0)
      {
        for i := i0 to i1
          invariant i0 <= i && PlanesSoFar(v[..], tmp[..], w, n, i0, i1, b, i)
        {
          ElementWritten(v[..], tmp[..], w, n, i0, i1, b, i);
          ghost var elements := v[..];
          v[At(i, b, w)] := tmp[At(b, i, n)];
          assert v[..] == elements[At(i, b, w) := tmp[..][At(b, i, n)]];
        }
        PlaneDone(v[..], tmp[..], w, n, i0, i1, b);
      }
      BlockDone(v[..], tmp[..], w, n, i0, i1, i1);
      i0 := i1;
    }
    AllPlanes(v[..], tmp[..], w, n, i0);
  }

  // ---------------------------------------------------------------- the transforms

  datatype Xform = Plain | Shuffled | Delta | DeltaShuffled

  /** What a transform makes of the elements. */
  ghost predicate Transformed(x: Xform, before: seq<byte>, after: seq<byte>, w: nat, n: nat) {
    match x
    case Plain => after == before
    case Shuffled => Planes(before, after, w, n)
    case Delta => Differences(before, after, w, n)
    case DeltaShuffled => exists between :: Differences(before, between, w, n) && Planes(between, after, w, n)
  }

  method Forward(x: Xform, w: nat, v: array<byte>)
    requires w > 0 && v.Length % w == 0
    modifies v
    ensures v.Length == v.Length / w * w && Transformed(x, old(v[..]), v[..], w, v.Length / w)
  {
    hide Planes, Differences;
    var n := v.Length / w;
    match x
    case Plain =>
    case Shuffled => Shuffle(w, v, n);
    case Delta => DeltaEncode(w, v, n);
    case DeltaShuffled =>
      DeltaEncode(w, v, n);
      ghost var between := v[..];
      Shuffle(w, v, n);
      assert Planes(between, v[..], w, n);
  }

  /** The inverse of a transform takes what the transform made back to what it was made from. */
  method Inverse(x: Xform, w: nat, v: array<byte>, ghost before: seq<byte>)
    requires w > 0 && v.Length % w == 0 && v.Length == v.Length / w * w
    requires Transformed(x, before, v[..], w, v.Length / w)
    modifies v
    ensures v[..] == before
  {
    hide Planes, Differences, Sums;
    var n := v.Length / w;
    ghost var coded := v[..];
    match x
    case Plain =>
    case Shuffled =>
      Unshuffle(w, v, n);
      PlanesAreFaithful(before, coded, v[..], coded, w, n);
    case Delta =>
      DeltaDecode(w, v, n);
      SumsUndoDifferences(before, coded, v[..], w, n);
    case DeltaShuffled =>
      ghost var between :| Differences(before, between, w, n) && Planes(between, coded, w, n);
      Unshuffle(w, v, n);
      PlanesAreFaithful(between, coded, v[..], coded, w, n);
      DeltaDecode(w, v, n);
      SumsUndoDifferences(before, between, v[..], w, n);
  }

  /** Forward and back leaves the bytes as they were, for every transform, width and length. */
  method ThereAndBack(x: Xform, w: nat, v: array<byte>)
    requires w > 0 && v.Length % w == 0
    modifies v
    ensures v[..] == old(v[..])
  {
    ghost var before := v[..];
    Forward(x, w, v);
    Inverse(x, w, v, before);
  }
}
