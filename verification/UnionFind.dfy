/** The union-find links of the census: every link points to a smaller scope. */
module UnionFind {
  import opened Words

  ghost predicate Links(uf: seq<u32>) {
    forall x :: 0 <= x < |uf| ==> uf[x] <= x
  }

  /** The representative at the end of `x`'s links. */
  ghost function Root(uf: seq<u32>, x: u32): (r: u32)
    requires Links(uf) && x < |uf|
    ensures r <= x && uf[r] == r
    decreases x
  {
    if uf[x] == x then x else Root(uf, uf[x])
  }

  /** Pointing `x` straight at its representative changes no scope's representative. */
  lemma {:induction false} RootAfterCompress(uf: seq<u32>, x: u32, y: u32)
    requires Links(uf) && x < |uf| && y < |uf|
    ensures Links(uf[x := Root(uf, x)])
    ensures Root(uf[x := Root(uf, x)], y) == Root(uf, y)
    decreases y
  {
    var r := Root(uf, x);
    var uf' := uf[x := r];
    assert uf'[r] == r;
    if y == x {
      assert Root(uf', r) == r;
    } else if uf[y] != y {
      RootAfterCompress(uf, x, uf[y]);
    }
  }

  /** Linking representative `b` under representative `a` moves exactly `b`'s set to `a`. */
  lemma {:induction false} RootAfterLink(uf: seq<u32>, a: u32, b: u32, y: u32)
    requires Links(uf) && a < b < |uf| && y < |uf| && uf[a] == a && uf[b] == b
    ensures Links(uf[b := a])
    ensures Root(uf[b := a], y) == if Root(uf, y) == b then a else Root(uf, y)
    decreases y
  {
    var uf' := uf[b := a];
    if y == b {
      assert Root(uf', a) == a;
    } else if uf[y] != y {
      RootAfterLink(uf, a, b, uf[y]);
    }
  }

  lemma {:induction false} RootAfterAppend(uf: seq<u32>, n: u32, y: u32)
    requires Links(uf) && n == |uf| && y < |uf|
    ensures Links(uf + [n])
    ensures Root(uf + [n], y) == Root(uf, y)
    decreases y
  {
    if uf[y] != y {
      RootAfterAppend(uf, n, uf[y]);
    }
  }

  /** Path compression may move links, never representatives. */
  ghost predicate SameRoots(uf: seq<u32>, uf': seq<u32>) {
    && |uf'| == |uf| && Links(uf) && Links(uf')
    && forall y: u32 :: y < |uf| ==> SameRootAt(uf, uf', y)
  }

  ghost predicate SameRootAt(uf: seq<u32>, uf': seq<u32>, y: u32)
    requires Links(uf) && Links(uf') && |uf'| == |uf| && y < |uf|
  {
    Root(uf', y) == Root(uf, y)
  }

  lemma {:induction false} SameRootsRefl(uf: seq<u32>)
    requires Links(uf)
    ensures SameRoots(uf, uf)
  {
    assert forall y: u32 :: y < |uf| ==> SameRootAt(uf, uf, y);
  }

  lemma {:induction false} CompressStep(uf: seq<u32>, mid: seq<u32>, x: u32)
    requires SameRoots(uf, mid) && x < |uf|
    ensures SameRoots(uf, mid[x := Root(mid, x)])
  {
    var next := mid[x := Root(mid, x)];
    RootAfterCompress(mid, x, x);
    forall y: u32 | y < |uf|
      ensures SameRootAt(uf, next, y)
    {
      assert SameRootAt(uf, mid, y);
      RootAfterCompress(mid, x, y);
    }
  }
}
