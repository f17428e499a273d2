/** Declaring datatypes: what is refused, and that a table that grew by declarations stays proper. */
module DatatypeTables {
  import opened Options
  import opened Limbs
  import opened Words
  import opened Datatypes
  import opened DatatypeWalks

  // ---------------------------------------------------------------- what may be declared

  predicate Names(names: seq<string>) {
    && (forall i :: 0 <= i < |names| ==> names[i] != "")
    && forall i, j :: 0 <= i < j < |names| ==> names[i] != names[j]
  }

  function NamesOf(kind: Kind): (names: seq<string>) {
    match kind
    case Struct(fields) => seq(|fields|, i requires 0 <= i < |fields| => fields[i].name)
    case Enumeration(_, values) => seq(|values|, i requires 0 <= i < |values| => values[i].name)
    case _ => []
  }

  /** A field that labels its payload is a string or a text. */
  predicate LabelOk(f: Field) {
    f.name == "vtr.label" ==> f.datatype_ == 12 || f.datatype_ == 13
  }

  predicate LabelsOk(kind: Kind) {
    kind.Struct? ==> forall i :: 0 <= i < |kind.fields| ==> LabelOk(kind.fields[i])
  }

  predicate ValuesOk(types: seq<Datatype>, kind: Kind)
    requires WellKinded(types, kind)
  {
    kind.Enumeration? ==>
      forall i :: 0 <= i < |kind.values| ==> IntegerRange(types[kind.underlying].kind.primitive, kind.values[i].value)
  }

  predicate Declarable(types: seq<Datatype>, kind: Kind) {
    && WellKinded(types, kind) && Names(NamesOf(kind)) && LabelsOk(kind) && ValuesOk(types, kind)
    && Minimum(types, Children(kind)) < TWO_32
    && Depth(types, Children(kind)) <= MAX_DEPTH
    && |types| < TWO_32 - 1
  }

  // ---------------------------------------------------------------- growing a table

  lemma {:induction false} SameLayout(types: seq<Datatype>, more: seq<Datatype>, children: seq<Child>)
    requires AllKnown(types, children) && types <= more
    ensures AllKnown(more, children)
    ensures Minimum(more, children) == Minimum(types, children) && FixedSize(more, children) == FixedSize(types, children)
    ensures Depth(more, children) == Depth(types, children) && Program(more, children) == Program(types, children)
  {
    if children != [] {
      SameLayout(types, more, children[..|children| - 1]);
    }
  }

  /** The new table is proper and keeps every datatype it had. */
  lemma {:induction false} GrowsProper(types: seq<Datatype>, kind: Kind)
    requires Proper(types) && WellKinded(types, kind)
    ensures Proper(types + [Laid(types, kind)])
  {
    hide Laid, FixedSize, Minimum, Depth, Program;
    var more := types + [Laid(types, kind)];
    forall i | FIRST_DECLARED <= i < |more|
      ensures Declared(more, i)
    {
      if i < |types| {
        assert Declared(types, i) && more[..i] == types[..i];
      } else {
        assert more[..i] == types;
        LaidKind(types, kind);
      }
    }
    forall i | 0 <= i < FIRST_DECLARED
      ensures more[i] == PrimitiveType(PRIMITIVES[i])
    {
      assert more[i] == types[i];
    }
  }

  /** Whatever is declared later, every datatype is laid out as it was: sizes, nesting and scalars over the larger table are the same. */
  lemma {:induction false} LayoutStays(types: seq<Datatype>, more: seq<Datatype>, id: nat)
    requires Proper(types) && types <= more && FIRST_DECLARED <= id < |types|
    ensures AllKnown(more, Children(types[id].kind)) && Laid(more, types[id].kind) == types[id]
  {
    hide Minimum, FixedSize, Depth, Program;
    assert Declared(types, id) && types[..id] <= more;
    SameLayout(types[..id], more, Children(types[id].kind));
  }

  /** Nor does it change what a payload means, or whether it is valid. */
  lemma {:induction false} MeaningStays(types: seq<Datatype>, more: seq<Datatype>, id: nat, row: seq<byte>, c: Context)
    requires Proper(types) && Proper(more) && types <= more && id < |types|
    ensures Meaning(types, id, row, c) == Meaning(more, id, row, c) && Validate(types, id, row, c) == Validate(more, id, row, c)
    decreases id, 2, 0
  {
    hide Proper, ReadLeaf, Validate;
    assert types[id] == more[id];
    if Known(types, id) && !types[id].kind.Scalar? {
      KindOf(types, id);
      if types[id].kind.Sequence? {
        if |row| >= 4 {
          FourBytes(row);
          ManyStay(types, more, types[id].kind.element, Word(row[..4]), row[4..], c);
        }
      } else {
        AllStay(types, more, id, Children(types[id].kind), row, c);
      }
    }
    ValidateIff(types, id, row, c);
    ValidateIff(more, id, row, c);
  }

  lemma {:induction false} ManyStay(types: seq<Datatype>, more: seq<Datatype>, id: nat, n: nat, row: seq<byte>, c: Context)
    requires Proper(types) && Proper(more) && types <= more && id < |types|
    ensures MeaningMany(types, id, n, row, c) == MeaningMany(more, id, n, row, c)
    decreases id, 3, n
  {
    hide Proper, Meaning, Validate;
    if n > 0 {
      ManyStay(types, more, id, n - 1, row, c);
      if MeaningMany(types, id, n - 1, row, c).Some? {
        MeaningStays(types, more, id, MeaningMany(types, id, n - 1, row, c).value.rest, c);
      }
    }
  }

  lemma {:induction false} AllStay(types: seq<Datatype>, more: seq<Datatype>, bound: nat, children: seq<Child>, row: seq<byte>, c: Context)
    requires Proper(types) && Proper(more) && types <= more && bound < |types| && forall i :: 0 <= i < |children| ==> children[i].id < bound
    ensures MeaningAll(types, bound, children, row, c) == MeaningAll(more, bound, children, row, c)
    decreases bound, 1, |children|
  {
    hide Proper, MeaningMany;
    if children != [] {
      var front, last := children[..|children| - 1], children[|children| - 1];
      AllStay(types, more, bound, front, row, c);
      if MeaningAll(types, bound, front, row, c).Some? {
        ManyStay(types, more, last.id, last.count, MeaningAll(types, bound, front, row, c).value.rest, c);
      }
    }
  }

  lemma {:induction false} LaidKind(types: seq<Datatype>, kind: Kind)
    requires AllKnown(types, Children(kind))
    ensures Laid(types, kind).kind == kind
  {
  }

  lemma {:induction false} MinimumGrows(types: seq<Datatype>, children: seq<Child>, n: nat)
    requires AllKnown(types, children) && n <= |children|
    ensures Minimum(types, children[..n]) <= Minimum(types, children) && Depth(types, children[..n]) <= Depth(types, children)
    decreases |children|
  {
    if n < |children| {
      var front := children[..|children| - 1];
      assert front[..n] == children[..n];
      MinimumGrows(types, front, n);
    } else {
      assert children[..n] == children;
    }
  }

  /** What the loop over the children has computed after `n` of them. */
  ghost predicate LaidUpTo(types: seq<Datatype>, children: seq<Child>, n: nat, minimum: nat, fixed: Option<nat>, depth: nat,
                           scalars: Option<seq<Primitive>>)
    requires n <= |children|
  {
    && AllKnown(types, children[..n])
    && minimum == Minimum(types, children[..n]) && minimum < TWO_32
    && fixed == FixedSize(types, children[..n])
    && depth == Depth(types, children[..n]) && depth <= MAX_DEPTH
    && scalars == Program(types, children[..n])
  }

  lemma {:induction false} OneMore(types: seq<Datatype>, children: seq<Child>, n: nat, minimum: nat, fixed: Option<nat>, depth: nat,
                                   scalars: Option<seq<Primitive>>)
    requires Proper(types) && n < |children| && LaidUpTo(types, children, n, minimum, fixed, depth, scalars)
    requires Known(types, children[n].id)
    ensures AllKnown(types, children[..n + 1])
    ensures var d, count := types[children[n].id], children[n].count;
      && Minimum(types, children[..n + 1]) == minimum + d.minimum * count
      && FixedSize(types, children[..n + 1]) == (if fixed.Some? && d.fixed.Some? then Some(fixed.value + d.fixed.value * count) else None)
      && (fixed.Some? && d.fixed.Some? ==> fixed.value + d.fixed.value * count == minimum + d.minimum * count)
      && Depth(types, children[..n + 1]) == (if depth > d.depth + 1 then depth else d.depth + 1)
      && (scalars.Some? ==> |scalars.value| <= MAX_PROGRAM)
      && Program(types, children[..n + 1]) ==
         if scalars.Some? && d.scalars.Some? && (d.scalars.value == [] || count <= (MAX_PROGRAM - |scalars.value|) / |d.scalars.value|)
         then Some(scalars.value + Repeat(d.scalars.value, count)) else None
  {
    hide Repeat, Proper, Minimum, FixedSize, Depth, Program;
    LastOfPrefix(types, children, n);
    SnocLaid(types, children[..n], children[n]);
    FixedIsMinimum(types, children[n].id);
    assert types[..|types|] == types;
    FixedAreMinimum(types, |types|, children[..n]);
  }

  lemma {:induction false} LastOfPrefix(types: seq<Datatype>, children: seq<Child>, n: nat)
    requires n < |children| && AllKnown(types, children[..n]) && Known(types, children[n].id)
    ensures AllKnown(types, children[..n + 1]) && children[..n + 1] == children[..n] + [children[n]]
  {
  }

  lemma {:induction false} SnocLaid(types: seq<Datatype>, front: seq<Child>, last: Child)
    requires AllKnown(types, front) && Known(types, last.id) && AllKnown(types, front + [last])
    ensures var d, fixed, scalars := types[last.id], FixedSize(types, front), Program(types, front);
      && Minimum(types, front + [last]) == Minimum(types, front) + d.minimum * last.count
      && FixedSize(types, front + [last]) == (if fixed.Some? && d.fixed.Some? then Some(fixed.value + d.fixed.value * last.count) else None)
      && Depth(types, front + [last]) == (if Depth(types, front) > d.depth + 1 then Depth(types, front) else d.depth + 1)
      && (scalars.Some? ==> |scalars.value| <= MAX_PROGRAM)
      && Program(types, front + [last]) ==
         if scalars.Some? && d.scalars.Some? && (d.scalars.value == [] || last.count <= (MAX_PROGRAM - |scalars.value|) / |d.scalars.value|)
         then Some(scalars.value + Repeat(d.scalars.value, last.count)) else None
  {
    hide Repeat;
    assert (front + [last])[..|front|] == front;
    NothingRepeats(last.count);
    if Program(types, front).Some? {
      assert Program(types, front).value + [] == Program(types, front).value;
    }
  }

  // ---------------------------------------------------------------- the class

  method UniqueNames(names: seq<string>) returns (ok: bool)
    ensures ok <==> Names(names)
  {
    var seen := {};
    for i := 0 to |names|
      invariant forall s :: s in seen <==> s in names[..i]
      invariant Names(names[..i])
    {
      if names[i] == "" || names[i] in seen {
        return false;
      }
      seen := seen + {names[i]};
      assert names[..i + 1] == names[..i] + [names[i]];
    }
    assert names[..|names|] == names;
    ok := true;
  }

  method ExtendMany(program0: seq<Primitive>, child: seq<Primitive>, count: nat) returns (program: seq<Primitive>)
    ensures program == program0 + Repeat(child, count)
  {
    program := program0;
    if child != [] {
      for k := 0 to count
        invariant program == program0 + Repeat(child, k)
      {
        assert program0 + (Repeat(child, k) + child) == program0 + Repeat(child, k) + child;
        program := program + child;
      }
    } else {
      NothingRepeats(count);
    }
  }

  /** One child more: sizes, nesting and scalars; an error when a size or the nesting becomes too large. */
  method AddChild(types: seq<Datatype>, ghost children: seq<Child>, ghost n: nat, child: Child,
                  minimum: nat, fixed: Option<nat>, depth: nat, scalars: Option<seq<Primitive>>)
    returns (r: Option<(nat, Option<nat>, nat, Option<seq<Primitive>>)>)
    requires Proper(types) && n < |children| && child == children[n] && LaidUpTo(types, children, n, minimum, fixed, depth, scalars)
    ensures r.Some? ==> LaidUpTo(types, children, n + 1, r.value.0, r.value.1, r.value.2, r.value.3)
    ensures r.None? ==> !Known(types, child.id) || (AllKnown(types, children[..n + 1])
                        && (Minimum(types, children[..n + 1]) >= TWO_32 || Depth(types, children[..n + 1]) > MAX_DEPTH))
  {
    hide Minimum, FixedSize, Depth, Program, Repeat;
    if !Known(types, child.id) {
      return None;
    }
    var d := types[child.id];
    OneMore(types, children, n, minimum, fixed, depth, scalars);
    var minimum' := minimum + d.minimum * child.count;
    if d.minimum * child.count >= TWO_32 || minimum' >= TWO_32 {
      return None;
    }
    var fixed' := None;
    if fixed.Some? && d.fixed.Some? {
      if d.fixed.value * child.count >= TWO_32 || fixed.value + d.fixed.value * child.count >= TWO_32 {
        return None;
      }
      fixed' := Some(fixed.value + d.fixed.value * child.count);
    }
    var depth' := if depth > d.depth + 1 then depth else d.depth + 1;
    if depth' > MAX_DEPTH {
      return None;
    }
    var scalars' := None;
    if scalars.Some? && d.scalars.Some?
       && (d.scalars.value == [] || child.count <= (MAX_PROGRAM - |scalars.value|) / |d.scalars.value|) {
      var program := ExtendMany(scalars.value, d.scalars.value, child.count);
      scalars' := Some(program);
    }
    r := Some((minimum', fixed', depth', scalars'));
  }

  class Types {
    var types: seq<Datatype>

    ghost predicate Valid()
      reads this
    {
      Proper(types)
    }

    constructor ()
      ensures Valid() && |types| == FIRST_DECLARED
    {
      types := seq(FIRST_DECLARED, i requires 0 <= i < FIRST_DECLARED => PrimitiveType(PRIMITIVES[i]));
    }

    /** A declaration is refused, and nothing changes, or laid out as it means. */
    method Declare(kind: Kind) returns (id: Option<nat>)
      requires Valid()
      modifies this
      ensures Valid()
      ensures id.Some? <==> Declarable(old(types), kind)
      ensures id.None? ==> types == old(types)
      ensures id.Some? ==> id.value == |old(types)| && types == old(types) + [Laid(old(types), kind)]
    {
      hide Minimum, FixedSize, Depth, Program, Names, IntegerRange, Proper;
      if kind.Scalar? {
        return None;
      }
      var unique := UniqueNames(NamesOf(kind));
      if !unique {
        return None;
      }
      if kind.Struct? && exists i :: 0 <= i < |kind.fields| && !LabelOk(kind.fields[i]) {
        return None;
      }
      if kind.Enumeration? {
        if !Known(types, kind.underlying) || !types[kind.underlying].kind.Scalar? || !Integer(types[kind.underlying].kind.primitive) {
          return None;
        }
        if exists i :: 0 <= i < |kind.values| && !IntegerRange(types[kind.underlying].kind.primitive, kind.values[i].value) {
          return None;
        }
      }
      var children := Children(kind);
      var minimum: nat, fixed: Option<nat>, depth: nat, scalars: Option<seq<Primitive>> := 0, Some(0), 1, Some([]);
      NothingLaid(types, children);
      for n := 0 to |children|
        invariant types == old(types) && LaidUpTo(types, children, n, minimum, fixed, depth, scalars)
      {
        var next := AddChild(types, children, n, children[n], minimum, fixed, depth, scalars);
        if next.None? {
          NotDeclarable(types, kind, n);
          return None;
        }
        minimum, fixed, depth, scalars := next.value.0, next.value.1, next.value.2, next.value.3;
      }
      assert children[..|children|] == children;
      if kind.Sequence? {
        minimum, fixed, scalars := 4, None, None;
      }
      if |types| >= TWO_32 - 1 {
        return None;
      }
      GrowsProper(types, kind);
      id := Some(|types|);
      types := types + [Datatype(kind, minimum, fixed, depth, scalars, ValidatesBySize(fixed, scalars))];
    }
  }

  lemma {:induction false} NothingLaid(types: seq<Datatype>, children: seq<Child>)
    ensures LaidUpTo(types, children, 0, 0, Some(0), 1, Some([]))
  {
    assert children[..0] == [];
  }

  lemma {:induction false} NotDeclarable(types: seq<Datatype>, kind: Kind, n: nat)
    requires n < |Children(kind)|
    requires !Known(types, Children(kind)[n].id) || (AllKnown(types, Children(kind)[..n + 1])
             && (Minimum(types, Children(kind)[..n + 1]) >= TWO_32 || Depth(types, Children(kind)[..n + 1]) > MAX_DEPTH))
    ensures !Declarable(types, kind)
  {
    hide Names, IntegerRange;
    if AllKnown(types, Children(kind)) {
      MinimumGrows(types, Children(kind), n + 1);
    }
  }
}
