/** Columns packed into one piece: how many, how long, and then their bytes. */
module ColumnPacking {
  import opened Options
  import opened Words
  import opened Varint
  import opened Slices

  const MAX_BLOCK_BYTES: nat := 0x4000_0000

  function Lengths(columns: seq<Entry>): seq<byte> {
    if columns == [] then [] else Lengths(columns[..|columns| - 1]) + Leb(|columns[|columns| - 1]|)
  }

  function PackedColumns(columns: seq<Entry>): seq<byte> {
    Leb(|columns|) + Lengths(columns) + Flat(columns)
  }

  /** `pack_columns`, within the limit of the format. */
  method Pack(columns: seq<Entry>) returns (r: Option<seq<byte>>)
    requires |columns| < 0x1_0000_0000
    ensures r.Some? ==> r.value == PackedColumns(columns)
    ensures r.None? <==> |columns| * 10 + 10 + |Flat(columns)| >= MAX_BLOCK_BYTES && columns != []
  {
    hide Leb, Flat, Lengths;
    var size := |columns| * 10 + 10;
    FlatOfNone();
    assert columns[..0] == [] && columns[..|columns|] == columns;
    for i := 0 to |columns|
      invariant size == |columns| * 10 + 10 + |Flat(columns[..i])|
      invariant i > 0 ==> size < MAX_BLOCK_BYTES
    {
      PieceAt(columns, i);
      size := size + |columns[i]|;
      if size >= MAX_BLOCK_BYTES {
        return None;
      }
    }
    ColumnsFit(columns);
    var out := PutU64([], |columns|);
    assert [] + Leb(|columns|) == Leb(|columns|);
    out := PutLengths(columns, out);
    out := PutColumns(columns, out);
    r := Some(out);
  }

  lemma {:induction false} ColumnsFit(columns: seq<Entry>)
    requires |Flat(columns)| < 0x1_0000_0000_0000_0000
    ensures forall i :: 0 <= i < |columns| ==> |columns[i]| < 0x1_0000_0000_0000_0000
  {
    hide Flat;
    forall i | 0 <= i < |columns|
      ensures |columns[i]| < 0x1_0000_0000_0000_0000
    {
      PieceAt(columns, i);
    }
  }

  method PutLengths(columns: seq<Entry>, out0: seq<byte>) returns (out: seq<byte>)
    requires forall i :: 0 <= i < |columns| ==> |columns[i]| < 0x1_0000_0000_0000_0000
    ensures out == out0 + Lengths(columns)
  {
    hide Leb;
    out := out0;
    assert columns[..0] == [] && columns[..|columns|] == columns && out0 + [] == out0;
    for i := 0 to |columns|
      invariant out == out0 + Lengths(columns[..i])
    {
      assert columns[..i + 1][..i] == columns[..i];
      out := PutU64(out, |columns[i]|);
      assert out0 + Lengths(columns[..i]) + Leb(|columns[i]|) == out0 + (Lengths(columns[..i]) + Leb(|columns[i]|));
    }
  }

  method PutColumns(columns: seq<Entry>, out0: seq<byte>) returns (out: seq<byte>)
    ensures out == out0 + Flat(columns)
  {
    out := out0;
    assert columns[..0] == [] && columns[..|columns|] == columns && out0 + [] == out0;
    for i := 0 to |columns|
      invariant out == out0 + Flat(columns[..i])
    {
      assert columns[..i + 1][..i] == columns[..i];
      assert out0 + Flat(columns[..i]) + columns[i] == out0 + (Flat(columns[..i]) + columns[i]);
      out := out + columns[i];
    }
  }

  // ---------------------------------------------------------------- unpacking

  /** The first `n` lengths. */
  function ReadLengths(s: seq<byte>, n: nat): (r: Option<(seq<nat>, seq<byte>)>)
    ensures r.Some? ==> |r.value.0| == n
  {
    if n == 0 then Some(([], s)) else
      match ReadLengths(s, n - 1)
      case None => None
      case Some((lengths, rest)) =>
        match ReadVar(rest)
        case None => None
        case Some((length, rest)) => Some((lengths + [length], rest))
  }

  /** The first columns, of the given lengths. */
  function TakeColumns(s: seq<byte>, lengths: seq<nat>): (r: Option<(seq<Entry>, seq<byte>)>)
    ensures r.Some? ==> |r.value.0| == |lengths|
  {
    if lengths == [] then Some(([], s)) else
      match TakeColumns(s, lengths[..|lengths| - 1])
      case None => None
      case Some((columns, rest)) =>
        var length := lengths[|lengths| - 1];
        if length > |rest| then None else Some((columns + [rest[..length]], rest[length..]))
  }

  /** `unpack_columns`: exactly so many columns and nothing else. */
  function Unpacked(s: seq<byte>, n: nat): (r: Option<seq<Entry>>)
    ensures r.Some? ==> |r.value| == n
  {
    match ReadVar(s)
    case None => None
    case Some((count, rest)) =>
      if count != n then None else
        match ReadLengths(rest, n)
        case None => None
        case Some((lengths, rest)) =>
          match TakeColumns(rest, lengths)
          case None => None
          case Some((columns, rest)) => if rest == [] then Some(columns) else None
  }

  function LengthsOf(columns: seq<Entry>): (r: seq<nat>)
    ensures |r| == |columns| && forall i :: 0 <= i < |columns| ==> r[i] == |columns[i]|
  {
    seq(|columns|, i requires 0 <= i < |columns| => |columns[i]|)
  }

  lemma {:induction false} LengthsRead(columns: seq<Entry>, rest: seq<byte>)
    requires forall i :: 0 <= i < |columns| ==> |columns[i]| < 0x1_0000_0000_0000_0000
    ensures ReadLengths(Lengths(columns) + rest, |columns|) == Some((LengthsOf(columns), rest))
  {
    hide Leb, Unleb, ReadVar;
    if columns == [] {
      assert [] + rest == rest;
    } else {
      var n := |columns| - 1;
      var front, last := columns[..n], columns[n];
      assert Lengths(columns) + rest == Lengths(front) + (Leb(|last|) + rest);
      LengthsRead(front, Leb(|last|) + rest);
      ReadVarIff(Leb(|last|) + rest, |last|, rest);
      assert LengthsOf(columns) == LengthsOf(front) + [|last|];
    }
  }

  lemma {:induction false} ColumnsTaken(columns: seq<Entry>, rest: seq<byte>)
    ensures TakeColumns(Flat(columns) + rest, LengthsOf(columns)) == Some((columns, rest))
  {
    if columns == [] {
      assert [] + rest == rest;
    } else {
      var n := |columns| - 1;
      var front, last := columns[..n], columns[n];
      assert Flat(columns) + rest == Flat(front) + (last + rest);
      ColumnsTaken(front, last + rest);
      assert LengthsOf(columns)[..n] == LengthsOf(front);
      assert (last + rest)[..|last|] == last && (last + rest)[|last|..] == rest;
      assert columns == front + [last];
    }
  }

  /** Packed columns unpack to themselves. */
  lemma {:induction false} UnpacksBack(columns: seq<Entry>)
    requires |columns| < 0x1_0000_0000
    requires forall i :: 0 <= i < |columns| ==> |columns[i]| < 0x1_0000_0000_0000_0000
    ensures Unpacked(PackedColumns(columns), |columns|) == Some(columns)
  {
    hide Leb, Unleb, ReadVar, Lengths, Flat, ReadLengths, TakeColumns;
    var rest := Lengths(columns) + Flat(columns);
    assert PackedColumns(columns) == Leb(|columns|) + rest;
    ReadVarIff(PackedColumns(columns), |columns|, rest);
    LengthsRead(columns, Flat(columns));
    assert Flat(columns) + [] == Flat(columns);
    ColumnsTaken(columns, []);
  }
}
