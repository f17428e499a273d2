/** Pieces of bytes laid out one after the other. */
module Slices {
  import opened Words

  type Entry = seq<byte>

  function Flat(es: seq<Entry>): seq<byte> {
    if es == [] then [] else Flat(es[..|es| - 1]) + es[|es| - 1]
  }

  lemma {:induction false} FlatOfNone()
    ensures Flat([]) == []
  {
  }

  lemma {:induction false} FlatGrows(d: seq<Entry>, e: Entry)
    ensures Flat(d + [e]) == Flat(d) + e
  {
    assert (d + [e])[..|d|] == d;
  }

  /** Where piece `i` lies. */
  lemma {:induction false} PieceAt(es: seq<Entry>, i: nat)
    requires i < |es|
    ensures |Flat(es[..i])| + |es[i]| == |Flat(es[..i + 1])| <= |Flat(es)|
    ensures Flat(es)[|Flat(es[..i])|..|Flat(es[..i + 1])|] == es[i]
  {
    var n := |es| - 1;
    var front := Flat(es[..n]);
    assert es[..|es|] == es && Flat(es) == front + es[n];
    if i < n {
      PieceAt(es[..n], i);
      assert es[..n][..i] == es[..i] && es[..n][..i + 1] == es[..i + 1];
      SliceOf(Flat(es), 0, |front|, |Flat(es[..i])|, |Flat(es[..i + 1])|);
      assert Flat(es)[0..|front|] == front;
    } else {
      assert Flat(es)[|front|..|front| + |es[n]|] == es[n];
    }
  }

  lemma {:induction false} SliceOf(b: seq<byte>, from: nat, to: nat, i: nat, j: nat)
    requires from <= to <= |b| && i <= j <= to - from
    ensures b[from..to][i..j] == b[from + i..from + j]
  {
    var left, right := b[from..to][i..j], b[from + i..from + j];
    assert |left| == |right|;
    forall k | 0 <= k < j - i
      ensures left[k] == right[k]
    {
    }
  }

  lemma {:induction false} FlatSize(d: seq<Entry>, w: nat)
    requires forall i :: 0 <= i < |d| ==> |d[i]| == w
    ensures |Flat(d)| == |d| * w
  {
    if d != [] {
      FlatSize(d[..|d| - 1], w);
      assert |d| * w == (|d| - 1) * w + w;
    }
  }

  /** Pieces of one size lie at its multiples. */
  lemma {:induction false} FlatAt(d: seq<Entry>, w: nat, c: nat)
    requires forall i :: 0 <= i < |d| ==> |d[i]| == w
    ensures |Flat(d)| == |d| * w
    ensures c < |d| ==> c * w + w <= |Flat(d)| && Flat(d)[c * w..c * w + w] == d[c]
  {
    hide Flat;
    FlatSize(d, w);
    if c < |d| {
      FlatSize(d[..c], w);
      PieceAt(d, c);
    }
  }
}
