/** Which bytes are a payload: the payloads of the parts, one after the other. */
module DatatypeGrammar {
  import opened Options
  import opened Words
  import opened Limbs
  import opened Slices
  import opened Datatypes
  import opened DatatypeWalks
  import A = AttributeValues

  /** The bytes are one whole value of the datatype. */
  ghost predicate Payload(types: seq<Datatype>, id: nat, p: seq<byte>, c: Context)
    requires Proper(types)
  {
    Meaning(types, id, p, c).Some? && Meaning(types, id, p, c).value.rest == []
  }

  /** The bytes are payloads of these datatypes, one behind the other. */
  ghost predicate MadeOf(types: seq<Datatype>, ids: seq<nat>, p: seq<byte>, c: Context)
    requires Proper(types)
  {
    exists parts :: Parts(types, ids, parts, c) && p == Flat(parts)
  }

  ghost predicate Parts(types: seq<Datatype>, ids: seq<nat>, parts: seq<seq<byte>>, c: Context)
    requires Proper(types)
  {
    |parts| == |ids| && forall i :: 0 <= i < |ids| ==> Payload(types, ids[i], parts[i], c)
  }

  /** The bytes of one scalar. */
  predicate ScalarBytes(p: Primitive, s: seq<byte>, c: Context) {
    match p
    case Bool => s == [0] || s == [1]
    case Str => |s| == 4 && Word(s) < c.strings
    case Text => |s| >= 4 && |s| == 4 + Word(s[..4]) && c.utf8(s[4..])
    case Bytes => |s| >= 4 && |s| == 4 + Word(s[..4])
    case Bits | Logic | Logic9 =>
      && |s| >= 8 && A.PackedBytes(Packing(p), Word(s[..8])) == Some(|s| - 8) && A.PackedOk(Packing(p), s[8..], Word(s[..8]))
    case Enum => false
    case _ => |s| == Width(p).value
  }

  function Times(id: nat, n: nat): (ids: seq<nat>)
    ensures |ids| == n && forall i :: 0 <= i < n ==> ids[i] == id
  {
    seq(n, i => id)
  }

  function FieldTypes(fields: seq<Field>): (ids: seq<nat>)
    ensures |ids| == |fields| && forall i :: 0 <= i < |fields| ==> ids[i] == fields[i].datatype_
  {
    seq(|fields|, i requires 0 <= i < |fields| => fields[i].datatype_)
  }

  // ---------------------------------------------------------------- what comes behind does not matter

  lemma {:induction false} LeafMoves(p: Primitive, row: seq<byte>, c: Context, more: seq<byte>)
    requires ReadLeaf(p, row, c).Some?
    ensures var s := ReadLeaf(p, row, c).value; ReadLeaf(p, s.data + more, c) == Some(Split(s.data, more))
  {
    hide A.PackedBytes, A.PackedOk, Word;
    var d := ReadLeaf(p, row, c).value.data;
    assert (d + more)[|d|..] == more && (d + more)[..|d|] == d;
    if |d| >= 4 {
      assert (d + more)[..4] == d[..4] == row[..4];
    }
    if |d| >= 8 {
      assert (d + more)[..8] == d[..8] == row[..8];
    }
  }

  /** A value that was read is read the same in front of anything else. */
  lemma {:induction false} MeaningMoves(types: seq<Datatype>, id: nat, row: seq<byte>, c: Context, more: seq<byte>)
    requires Proper(types) && Meaning(types, id, row, c).Some?
    ensures var w := Meaning(types, id, row, c).value;
      Meaning(types, id, AllBytes(w.tokens) + more, c) == Some(Walked(w.tokens, more))
    decreases id, 2, 0
  {
    hide ReadLeaf, AllBytes;
    if types[id].kind.Scalar? {
      var p := types[id].kind.primitive;
      if p.Unit? {
        NoBytes(more);
      } else {
        LeafMoves(p, row, c, more);
        BytesOfOne(Leaf(p, ReadLeaf(p, row, c).value.data));
      }
    } else {
      KindOf(types, id);
      if types[id].kind.Sequence? {
        var element, n := types[id].kind.element, Word(row[..4]);
        FourBytes(row);
        var w := MeaningMany(types, element, n, row[4..], c).value;
        ManyMoves(types, element, n, row[4..], c, more);
        BytesOfOne(Count(n));
        BytesAdd([Count(n)], w.tokens);
        CountFirst(n, AllBytes(w.tokens) + more, AllBytes(w.tokens), more);
      } else {
        AllMoves(types, id, Children(types[id].kind), row, c, more);
      }
    }
  }

  lemma {:induction false} NoBytes(more: seq<byte>)
    ensures AllBytes([]) + more == more
  {
  }

  lemma {:induction false} CountFirst(n: u32, rest: seq<byte>, a: seq<byte>, more: seq<byte>)
    requires rest == a + more
    ensures var row := Limbs.Bytes(n, 4) + a + more; |row| >= 4 && row[..4] == Limbs.Bytes(n, 4) && Word(row[..4]) == n && row[4..] == rest
  {
    BytesBack(n, 4);
    assert Limbs.Bytes(n, 4) + a + more == Limbs.Bytes(n, 4) + rest;
  }

  lemma {:induction false} ManyMoves(types: seq<Datatype>, id: nat, n: nat, row: seq<byte>, c: Context, more: seq<byte>)
    requires Proper(types) && MeaningMany(types, id, n, row, c).Some?
    ensures var w := MeaningMany(types, id, n, row, c).value;
      MeaningMany(types, id, n, AllBytes(w.tokens) + more, c) == Some(Walked(w.tokens, more))
    decreases id, 3, n
  {
    hide Meaning, AllBytes;
    if n == 0 {
      NoBytes(more);
    } else {
      var w := MeaningMany(types, id, n - 1, row, c).value;
      var v := Meaning(types, id, w.rest, c).value;
      BytesAdd(w.tokens, v.tokens);
      MeaningMoves(types, id, w.rest, c, more);
      ManyMoves(types, id, n - 1, row, c, AllBytes(v.tokens) + more);
      assert AllBytes(w.tokens) + AllBytes(v.tokens) + more == AllBytes(w.tokens) + (AllBytes(v.tokens) + more);
    }
  }

  lemma {:induction false} AllMoves(types: seq<Datatype>, bound: nat, children: seq<Child>, row: seq<byte>, c: Context, more: seq<byte>)
    requires Proper(types) && (forall i :: 0 <= i < |children| ==> children[i].id < bound) && MeaningAll(types, bound, children, row, c).Some?
    ensures var w := MeaningAll(types, bound, children, row, c).value;
      MeaningAll(types, bound, children, AllBytes(w.tokens) + more, c) == Some(Walked(w.tokens, more))
    decreases bound, 1, |children|
  {
    hide MeaningMany, AllBytes;
    if children == [] {
      NoBytes(more);
    } else {
      var front, last := children[..|children| - 1], children[|children| - 1];
      var w := MeaningAll(types, bound, front, row, c).value;
      var v := MeaningMany(types, last.id, last.count, w.rest, c).value;
      BytesAdd(w.tokens, v.tokens);
      ManyMoves(types, last.id, last.count, w.rest, c, more);
      AllMoves(types, bound, front, row, c, AllBytes(v.tokens) + more);
      assert AllBytes(w.tokens) + AllBytes(v.tokens) + more == AllBytes(w.tokens) + (AllBytes(v.tokens) + more);
    }
  }

  // ---------------------------------------------------------------- parts

  lemma {:induction false} NothingMade(types: seq<Datatype>, p: seq<byte>, c: Context)
    requires Proper(types)
    ensures MadeOf(types, [], p, c) <==> p == []
  {
    hide Payload;
    FlatOfNone();
    if p == [] {
      assert Parts(types, [], [], c);
    }
  }

  lemma {:induction false} OneMorePart(types: seq<Datatype>, ids: seq<nat>, id: nat, p: seq<byte>, q: seq<byte>, c: Context)
    requires Proper(types) && MadeOf(types, ids, p, c) && Payload(types, id, q, c)
    ensures MadeOf(types, ids + [id], p + q, c)
  {
    hide Payload, Flat;
    var parts :| Parts(types, ids, parts, c) && p == Flat(parts);
    FlatGrows(parts, q);
    assert Parts(types, ids + [id], parts + [q], c);
  }

  lemma {:induction false} LastPart(types: seq<Datatype>, ids: seq<nat>, id: nat, p: seq<byte>, c: Context) returns (front: seq<byte>, q: seq<byte>)
    requires Proper(types) && MadeOf(types, ids + [id], p, c)
    ensures p == front + q && MadeOf(types, ids, front, c) && Payload(types, id, q, c)
  {
    hide Payload;
    var all := ids + [id];
    var parts :| Parts(types, all, parts, c) && p == Flat(parts);
    var before := parts[..|ids|];
    forall i | 0 <= i < |ids|
      ensures Payload(types, ids[i], before[i], c)
    {
      assert Payload(types, all[i], parts[i], c);
    }
    assert Payload(types, all[|ids|], parts[|ids|], c);
    assert Parts(types, ids, before, c);
    front, q := Flat(before), parts[|ids|];
  }

  /** Two walks one after the other, the first of which is whole exactly for what its parts make up. */
  lemma {:induction false} WholeMany(types: seq<Datatype>, id: nat, n: nat, p: seq<byte>, c: Context)
    requires Proper(types)
    ensures (MeaningMany(types, id, n, p, c).Some? && MeaningMany(types, id, n, p, c).value.rest == []) <==> MadeOf(types, Times(id, n), p, c)
    decreases n
  {
    hide Meaning, AllBytes, Flat, MadeOf, Payload;
    if n == 0 {
      assert Times(id, 0) == [];
      NothingMade(types, p, c);
    } else {
      assert Times(id, n) == Times(id, n - 1) + [id];
      if MeaningMany(types, id, n, p, c).Some? && MeaningMany(types, id, n, p, c).value.rest == [] {
        var w := MeaningMany(types, id, n - 1, p, c).value;
        ManyInFront(types, id, n - 1, p, c);
        WholeMany(types, id, n - 1, AllBytes(w.tokens), c);
        PayloadIsWhole(types, id, w.rest, c);
        OneMorePart(types, Times(id, n - 1), id, AllBytes(w.tokens), w.rest, c);
      }
      if MadeOf(types, Times(id, n), p, c) {
        var front, q := LastPart(types, Times(id, n - 1), id, p, c);
        WholeMany(types, id, n - 1, front, c);
        ManyThen(types, id, n - 1, front, c, q);
        PayloadIsWhole(types, id, q, c);
      }
    }
  }

  lemma {:induction false} PayloadIsWhole(types: seq<Datatype>, id: nat, p: seq<byte>, c: Context)
    requires Proper(types)
    ensures Payload(types, id, p, c) <==> Meaning(types, id, p, c).Some? && Meaning(types, id, p, c).value.rest == []
  {
  }

  lemma {:induction false} ManyInFront(types: seq<Datatype>, id: nat, n: nat, row: seq<byte>, c: Context)
    requires Proper(types) && MeaningMany(types, id, n, row, c).Some?
    ensures var w := MeaningMany(types, id, n, row, c).value;
      && row == AllBytes(w.tokens) + w.rest
      && MeaningMany(types, id, n, AllBytes(w.tokens), c) == Some(Walked(w.tokens, []))
  {
    hide MeaningMany, AllBytes;
    ManyBytes(types, id, n, row, c);
    ManyMoves(types, id, n, row, c, []);
    var b := AllBytes(MeaningMany(types, id, n, row, c).value.tokens);
    assert b + [] == b;
  }

  lemma {:induction false} ManyBytes(types: seq<Datatype>, id: nat, n: nat, row: seq<byte>, c: Context)
    requires Proper(types) && MeaningMany(types, id, n, row, c).Some?
    ensures var w := MeaningMany(types, id, n, row, c).value; row == AllBytes(w.tokens) + w.rest
  {
    hide Meaning, AllBytes;
    if n == 0 {
      NoBytes(row);
    } else {
      ManyBytes(types, id, n - 1, row, c);
      var w := MeaningMany(types, id, n - 1, row, c).value;
      var v := Meaning(types, id, w.rest, c).value;
      SizesHold(types, id, w.rest, c);
      BytesAdd(w.tokens, v.tokens);
      assert AllBytes(w.tokens) + AllBytes(v.tokens) + v.rest == AllBytes(w.tokens) + (AllBytes(v.tokens) + v.rest);
    }
  }

  lemma {:induction false} ManyThen(types: seq<Datatype>, id: nat, n: nat, p: seq<byte>, c: Context, more: seq<byte>)
    requires Proper(types) && MeaningMany(types, id, n, p, c).Some? && MeaningMany(types, id, n, p, c).value.rest == []
    ensures MeaningMany(types, id, n, p + more, c).Some? && MeaningMany(types, id, n, p + more, c).value.rest == more
  {
    hide MeaningMany, AllBytes;
    ManyBytes(types, id, n, p, c);
    ManyMoves(types, id, n, p, c, more);
    var b := AllBytes(MeaningMany(types, id, n, p, c).value.tokens);
    assert b + [] == b;
  }

  lemma {:induction false} JustOne(types: seq<Datatype>, id: nat, row: seq<byte>, c: Context)
    requires Proper(types)
    ensures MeaningMany(types, id, 1, row, c) == Meaning(types, id, row, c)
  {
    hide Meaning;
    assert MeaningMany(types, id, 0, row, c) == Some(Walked([], row));
    if Meaning(types, id, row, c).Some? {
      var w := Meaning(types, id, row, c).value;
      assert [] + w.tokens == w.tokens;
    }
  }

  /** Field by field. */
  lemma {:induction false} WholeFields(types: seq<Datatype>, bound: nat, fields: seq<Field>, p: seq<byte>, c: Context)
    requires Proper(types) && forall i :: 0 <= i < |fields| ==> fields[i].datatype_ < bound
    ensures (MeaningAll(types, bound, OneOfEach(fields), p, c).Some? && MeaningAll(types, bound, OneOfEach(fields), p, c).value.rest == [])
            <==> MadeOf(types, FieldTypes(fields), p, c)
    decreases |fields|
  {
    hide Meaning, MeaningMany, AllBytes, Flat, MadeOf, Payload;
    if fields == [] {
      assert FieldTypes(fields) == [];
      NothingMade(types, p, c);
    } else {
      var front, last := fields[..|fields| - 1], fields[|fields| - 1];
      assert FieldTypes(fields) == FieldTypes(front) + [last.datatype_];
      assert OneOfEach(fields)[..|fields| - 1] == OneOfEach(front);
      if MeaningAll(types, bound, OneOfEach(fields), p, c).Some? && MeaningAll(types, bound, OneOfEach(fields), p, c).value.rest == [] {
        var w := MeaningAll(types, bound, OneOfEach(front), p, c).value;
        JustOne(types, last.datatype_, w.rest, c);
        AllInFront(types, bound, OneOfEach(front), p, c);
        WholeFields(types, bound, front, AllBytes(w.tokens), c);
        PayloadIsWhole(types, last.datatype_, w.rest, c);
        OneMorePart(types, FieldTypes(front), last.datatype_, AllBytes(w.tokens), w.rest, c);
      }
      if MadeOf(types, FieldTypes(fields), p, c) {
        var before, q := LastPart(types, FieldTypes(front), last.datatype_, p, c);
        WholeFields(types, bound, front, before, c);
        AllThen(types, bound, OneOfEach(front), before, c, q);
        PayloadIsWhole(types, last.datatype_, q, c);
        JustOne(types, last.datatype_, q, c);
      }
    }
  }

  lemma {:induction false} AllInFront(types: seq<Datatype>, bound: nat, children: seq<Child>, row: seq<byte>, c: Context)
    requires Proper(types) && (forall i :: 0 <= i < |children| ==> children[i].id < bound) && MeaningAll(types, bound, children, row, c).Some?
    ensures var w := MeaningAll(types, bound, children, row, c).value;
      && row == AllBytes(w.tokens) + w.rest
      && MeaningAll(types, bound, children, AllBytes(w.tokens), c) == Some(Walked(w.tokens, []))
  {
    hide MeaningAll, AllBytes;
    PartsBytes(types, bound, children, row, c);
    AllMoves(types, bound, children, row, c, []);
    var b := AllBytes(MeaningAll(types, bound, children, row, c).value.tokens);
    assert b + [] == b;
  }

  lemma {:induction false} PartsBytes(types: seq<Datatype>, bound: nat, children: seq<Child>, row: seq<byte>, c: Context)
    requires Proper(types) && (forall i :: 0 <= i < |children| ==> children[i].id < bound) && MeaningAll(types, bound, children, row, c).Some?
    ensures var w := MeaningAll(types, bound, children, row, c).value; row == AllBytes(w.tokens) + w.rest
    decreases |children|
  {
    hide MeaningMany, AllBytes;
    if children == [] {
      NoBytes(row);
    } else {
      var front, last := children[..|children| - 1], children[|children| - 1];
      PartsBytes(types, bound, front, row, c);
      var w := MeaningAll(types, bound, front, row, c).value;
      var v := MeaningMany(types, last.id, last.count, w.rest, c).value;
      ManyBytes(types, last.id, last.count, w.rest, c);
      BytesAdd(w.tokens, v.tokens);
      assert AllBytes(w.tokens) + AllBytes(v.tokens) + v.rest == AllBytes(w.tokens) + (AllBytes(v.tokens) + v.rest);
    }
  }

  lemma {:induction false} AllThen(types: seq<Datatype>, bound: nat, children: seq<Child>, p: seq<byte>, c: Context, more: seq<byte>)
    requires Proper(types) && (forall i :: 0 <= i < |children| ==> children[i].id < bound)
    requires MeaningAll(types, bound, children, p, c).Some? && MeaningAll(types, bound, children, p, c).value.rest == []
    ensures MeaningAll(types, bound, children, p + more, c).Some? && MeaningAll(types, bound, children, p + more, c).value.rest == more
  {
    hide MeaningAll, AllBytes;
    PartsBytes(types, bound, children, p, c);
    AllMoves(types, bound, children, p, c, more);
    var b := AllBytes(MeaningAll(types, bound, children, p, c).value.tokens);
    assert b + [] == b;
  }

  // ---------------------------------------------------------------- what is a payload

  lemma {:induction false} LeafIs(p: Primitive, s: seq<byte>, c: Context)
    requires !p.Unit?
    ensures (ReadLeaf(p, s, c).Some? && ReadLeaf(p, s, c).value.rest == []) <==> ScalarBytes(p, s, c)
  {
    hide A.PackedBytes, A.PackedOk, Word;
    assert s[..|s|] == s;
  }

  /**
   * A structure's payload is its fields' payloads one after the other, an array's so many of its element's, a sequence's a count of four
   * bytes and so many of its element's, an enumeration's that of its integer.
   */
  lemma {:induction false} PayloadIs(types: seq<Datatype>, id: nat, p: seq<byte>, c: Context)
    requires Proper(types) && Known(types, id)
    ensures Payload(types, id, p, c) <==>
            match types[id].kind
            case Scalar(primitive) => ScalarBytes(primitive, p, c)
            case Struct(fields) => MadeOf(types, FieldTypes(fields), p, c)
            case Array(element, count) => MadeOf(types, Times(element, count), p, c)
            case Sequence(element) => |p| >= 4 && MadeOf(types, Times(element, Word(p[..4])), p[4..], c)
            case Enumeration(underlying, _) => Payload(types, underlying, p, c)
    ensures Validate(types, id, p, c) <==> |p| < 0x1_0000_0000 && Payload(types, id, p, c)
  {
    hide ReadLeaf, MadeOf, MeaningMany, MeaningAll, ScalarBytes, Times, FieldTypes, Validate;
    ValidateIff(types, id, p, c);
    match types[id].kind
    case Scalar(primitive) =>
      if primitive.Unit? {
        UnitIs(p, c);
      } else {
        LeafIs(primitive, p, c);
      }
    case Struct(fields) =>
      KindOf(types, id);
      FieldsBefore(types, id, fields);
      WholeFields(types, id, fields, p, c);
    case Array(element, count) =>
      KindOf(types, id);
      OneChild(types, id, Child(element, count), p, c);
      WholeMany(types, element, count, p, c);
    case Sequence(element) =>
      if |p| >= 4 {
        WholeMany(types, element, Word(p[..4]), p[4..], c);
      }
    case Enumeration(underlying, values) =>
      KindOf(types, id);
      OneChild(types, id, Child(underlying, 1), p, c);
      JustOne(types, underlying, p, c);
  }

  lemma {:induction false} UnitIs(p: seq<byte>, c: Context)
    ensures ScalarBytes(Unit, p, c) <==> p == []
  {
  }

  lemma {:induction false} OneChild(types: seq<Datatype>, bound: nat, child: Child, row: seq<byte>, c: Context)
    requires Proper(types) && child.id < bound
    ensures MeaningAll(types, bound, [child], row, c) == MeaningMany(types, child.id, child.count, row, c)
  {
    hide MeaningMany;
    assert [child][..0] == [];
    assert MeaningAll(types, bound, [child][..0], row, c) == Some(Walked([], row));
    if MeaningMany(types, child.id, child.count, row, c).Some? {
      var w := MeaningMany(types, child.id, child.count, row, c).value;
      assert [] + w.tokens == w.tokens;
    }
  }
}
