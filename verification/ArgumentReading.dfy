/** Reading payload rows back from five columns, and why they come back as they were. */
module ArgumentReading {
  import opened Options
  import opened Limbs
  import opened Words
  import opened Varint
  import opened Datatypes
  import opened DatatypeWalks
  import opened ArgumentColumns
  import A = AttributeValues

  // ---------------------------------------------------------------- one scalar

  /** What a reader knows: the texts of the dictionary, the shared table, and the limit on a payload. */
  datatype Setting = Setting(c: Context, dictionary: seq<Chars>, shared: bool, sharedTexts: seq<Chars>, limit: nat)

  /** The columns left, and how many entries of the dictionary have been used. */
  datatype Place = Place(columns: Columns, next: nat)

  /** Where a reading got to, the payload bytes it gave, and how long the payload is by now. */
  datatype Out = Out(place: Place, bytes: seq<byte>, length: nat)

  /** Payload bytes within the limit, kept or only counted. */
  function Emit(retain: bool, place: Place, bytes: seq<byte>, length: nat, r: Setting): Option<Out> {
    if length + |bytes| > r.limit then None else Some(Out(place, if retain then bytes else [], length + |bytes|))
  }

  function ReadNumber(retain: bool, p: Primitive, place: Place, length: nat, r: Setting): Option<Out>
    requires Width(p).Some?
  {
    match ReadVar(place.columns.numbers)
    case None => None
    case Some((raw, rest)) =>
      var value := TwosComplement(if Signed(p) then Unzigzag(raw) else raw);
      if !IntegerRange(p, value) then None
      else Emit(retain, place.(columns := place.columns.(numbers := rest)), Limbs.Bytes(value, Width(p).value), length, r)
  }

  function ReadFixed(retain: bool, p: Primitive, place: Place, length: nat, r: Setting): Option<Out> {
    match ReadVar(place.columns.numbers)
    case None => None
    case Some((raw, rest)) =>
      match ReadVar(rest)
      case None => None
      case Some((exponent, rest)) =>
        var value := TwosComplement(if p.Fixed? then Unzigzag(raw) else raw);
        Emit(retain, place.(columns := place.columns.(numbers := rest)),
             Limbs.Bytes(value, 8) + Limbs.Bytes(TwosComplement(Unzigzag(exponent)), 8), length, r)
  }

  /** A text of the shared table, or of the dictionary in order of first use. */
  function ReadText(retain: bool, place: Place, length: nat, r: Setting): Option<Out> {
    match ReadVar(place.columns.texts)
    case None => None
    case Some((index, rest)) =>
      if r.shared && index % 2 == 1 then
        if index / 2 >= r.c.strings || index / 2 >= |r.sharedTexts| then None
        else EmitText(retain, Place(place.columns.(texts := rest), place.next), r.sharedTexts[index / 2], length, r)
      else
        var i := if r.shared then index / 2 else index;
        if i > place.next || i >= |r.dictionary| then None
        else EmitText(retain, Place(place.columns.(texts := rest), if i == place.next then i + 1 else place.next), r.dictionary[i], length, r)
  }

  function EmitText(retain: bool, place: Place, text: Chars, length: nat, r: Setting): Option<Out> {
    if |text| >= 0x1_0000_0000 then None else Emit(retain, place, Limbs.Bytes(|text|, 4) + text, length, r)
  }

  function ReadString(retain: bool, place: Place, length: nat, r: Setting): Option<Out> {
    match ReadVar(place.columns.others)
    case None => None
    case Some((id, rest)) =>
      if id >= 0x1_0000_0000 || id >= r.c.strings then None
      else Emit(retain, place.(columns := place.columns.(others := rest)), Limbs.Bytes(id, 4), length, r)
  }

  function ReadBlob(retain: bool, place: Place, length: nat, r: Setting): Option<Out> {
    match ReadVar(place.columns.others)
    case None => None
    case Some((size, rest)) =>
      match Cut(rest, size)
      case None => None
      case Some(s) => EmitText(retain, place.(columns := place.columns.(others := s.rest)), s.data, length, r)
  }

  function ReadPacked(retain: bool, p: Primitive, place: Place, length: nat, r: Setting): Option<Out>
    requires Packed(p)
  {
    match ReadVar(place.columns.others)
    case None => None
    case Some((bits, rest)) =>
      match A.PackedBytes(Packing(p), bits)
      case None => None
      case Some(n) =>
        match Cut(rest, n)
        case None => None
        case Some(s) =>
          if !A.PackedOk(Packing(p), s.data, bits) then None
          else Emit(retain, place.(columns := place.columns.(others := s.rest)), Limbs.Bytes(bits, 8) + s.data, length, r)
  }

  function ReadFloat(retain: bool, n: nat, place: Place, length: nat, r: Setting): Option<Out> {
    match Cut(place.columns.floats, n)
    case None => None
    case Some(s) => Emit(retain, place.(columns := place.columns.(floats := s.rest)), s.data, length, r)
  }

  function ReadBool(retain: bool, place: Place, length: nat, r: Setting): Option<Out> {
    match Cut(place.columns.numbers, 1)
    case None => None
    case Some(s) =>
      if s.data[0] > 1 then None else Emit(retain, place.(columns := place.columns.(numbers := s.rest)), s.data, length, r)
  }

  function ReadScalar(retain: bool, p: Primitive, place: Place, length: nat, r: Setting): Option<Out> {
    match p
    case Unit => Some(Out(place, [], length))
    case Bool => ReadBool(retain, place, length, r)
    case F32 => ReadFloat(retain, 4, place, length, r)
    case F64 => ReadFloat(retain, 8, place, length, r)
    case Str => ReadString(retain, place, length, r)
    case Text => ReadText(retain, place, length, r)
    case Bytes => ReadBlob(retain, place, length, r)
    case Bits | Logic | Logic9 => ReadPacked(retain, p, place, length, r)
    case Fixed | Ufixed => ReadFixed(retain, p, place, length, r)
    case Enum => None
    case _ => ReadNumber(retain, p, place, length, r)
  }

  // ---------------------------------------------------------------- one row

  function ThenRead(o: Out, next: Option<Out>): Option<Out> {
    match next
    case None => None
    case Some(n) => Some(Out(n.place, o.bytes + n.bytes, n.length))
  }

  function ReadProgram(retain: bool, program: seq<Primitive>, place: Place, length: nat, r: Setting): Option<Out> {
    if program == [] then Some(Out(place, [], length)) else
      match ReadProgram(retain, program[..|program| - 1], place, length, r)
      case None => None
      case Some(o) => ThenRead(o, ReadScalar(retain, program[|program| - 1], o.place, o.length, r))
  }

  /** `read_type`. */
  function ReadType(retain: bool, types: seq<Datatype>, id: nat, place: Place, length: nat, r: Setting): Option<Out>
    requires Proper(types)
    decreases id, 2, 0
  {
    if !Known(types, id) then None
    else if types[id].scalars.Some? then ReadProgram(retain, types[id].scalars.value, place, length, r)
    else if types[id].kind.Scalar? || types[id].kind.Enumeration? then None
    else
      KindOf(types, id);
      match types[id].kind
      case Struct(fields) =>
        FieldsBefore(types, id, fields);
        ReadFields(retain, types, id, fields, place, length, r)
      case Array(element, count) => ReadElements(retain, types, element, count, place, length, r)
      case Sequence(element) =>
        match ReadCount(retain, place, length, r)
        case None => None
        case Some((n, o)) => ThenRead(o, ReadElements(retain, types, element, n, o.place, o.length, r))
  }

  function ReadCount(retain: bool, place: Place, length: nat, r: Setting): Option<(u32, Out)> {
    match ReadVar(place.columns.numbers)
    case None => None
    case Some((n, rest)) =>
      if n >= 0x1_0000_0000 then None else
        match Emit(retain, place.(columns := place.columns.(numbers := rest)), Limbs.Bytes(n, 4), length, r)
        case None => None
        case Some(o) => Some((n, o))
  }

  function ReadFields(retain: bool, types: seq<Datatype>, bound: nat, fields: seq<Field>, place: Place, length: nat, r: Setting): Option<Out>
    requires Proper(types) && forall i :: 0 <= i < |fields| ==> fields[i].datatype_ < bound
    decreases bound, 1, |fields|
  {
    if fields == [] then Some(Out(place, [], length)) else
      match ReadFields(retain, types, bound, fields[..|fields| - 1], place, length, r)
      case None => None
      case Some(o) => ThenRead(o, ReadType(retain, types, fields[|fields| - 1].datatype_, o.place, o.length, r))
  }

  /** No more elements than payload bytes or column bytes are left for. */
  function ReadElements(retain: bool, types: seq<Datatype>, id: nat, n: nat, place: Place, length: nat, r: Setting): Option<Out>
    requires Proper(types) && Known(types, id)
    decreases id, 4, n
  {
    if types[id].fixed == Some(0) then Some(Out(place, [], length))
    else if length > r.limit || (types[id].minimum != 0 && n > (r.limit - length) / types[id].minimum) then None
    else if n > Size(place.columns) then None
    else ReadMany(retain, types, id, n, place, length, r)
  }

  function ReadMany(retain: bool, types: seq<Datatype>, id: nat, n: nat, place: Place, length: nat, r: Setting): Option<Out>
    requires Proper(types)
    decreases id, 3, n
  {
    if n == 0 then Some(Out(place, [], length)) else
      match ReadMany(retain, types, id, n - 1, place, length, r)
      case None => None
      case Some(o) => ThenRead(o, ReadType(retain, types, id, o.place, o.length, r))
  }

  // ---------------------------------------------------------------- skipping goes as reading

  ghost predicate Alike(a: Option<Out>, b: Option<Out>) {
    a.Some? == b.Some? && (a.Some? ==> a.value.place == b.value.place && a.value.length == b.value.length)
  }

  lemma {:induction false} ScalarSkips(p: Primitive, place: Place, length: nat, r: Setting)
    ensures Alike(ReadScalar(false, p, place, length, r), ReadScalar(true, p, place, length, r))
  {
    hide Unleb, Leb, ReadVar, IntegerRange, A.PackedOk, A.PackedBytes, TwosComplement, Limbs.Bytes, Unzigzag, Le;
  }

  lemma {:induction false} ProgramSkips(program: seq<Primitive>, place: Place, length: nat, r: Setting)
    ensures Alike(ReadProgram(false, program, place, length, r), ReadProgram(true, program, place, length, r))
  {
    hide ReadScalar;
    if program != [] {
      var front := program[..|program| - 1];
      ProgramSkips(front, place, length, r);
      if ReadProgram(true, front, place, length, r).Some? {
        var o := ReadProgram(true, front, place, length, r).value;
        ScalarSkips(program[|program| - 1], o.place, o.length, r);
      }
    }
  }

  /** Skipping a row accepts and uses up exactly what reading it does. */
  lemma {:induction false} TypeSkips(types: seq<Datatype>, id: nat, place: Place, length: nat, r: Setting)
    requires Proper(types)
    ensures Alike(ReadType(false, types, id, place, length, r), ReadType(true, types, id, place, length, r))
    decreases id, 2, 0
  {
    hide ReadProgram, ReadFields, ReadElements, ReadVar, Limbs.Bytes;
    if Known(types, id) {
      if types[id].scalars.Some? {
        ProgramSkips(types[id].scalars.value, place, length, r);
      } else if !types[id].kind.Scalar? && !types[id].kind.Enumeration? {
        KindOf(types, id);
        match types[id].kind
        case Struct(fields) =>
          FieldsBefore(types, id, fields);
          FieldsSkip(types, id, fields, place, length, r);
        case Array(element, count) => ElementsSkip(types, element, count, place, length, r);
        case Sequence(element) =>
          if ReadCount(true, place, length, r).Some? {
            var (n, o) := ReadCount(true, place, length, r).value;
            ElementsSkip(types, element, n, o.place, o.length, r);
          }
        case _ =>
      }
    }
  }

  lemma {:induction false} FieldsSkip(types: seq<Datatype>, bound: nat, fields: seq<Field>, place: Place, length: nat, r: Setting)
    requires Proper(types) && forall i :: 0 <= i < |fields| ==> fields[i].datatype_ < bound
    ensures Alike(ReadFields(false, types, bound, fields, place, length, r), ReadFields(true, types, bound, fields, place, length, r))
    decreases bound, 1, |fields|
  {
    hide ReadType;
    if fields != [] {
      var front := fields[..|fields| - 1];
      FieldsSkip(types, bound, front, place, length, r);
      if ReadFields(true, types, bound, front, place, length, r).Some? {
        var o := ReadFields(true, types, bound, front, place, length, r).value;
        TypeSkips(types, fields[|fields| - 1].datatype_, o.place, o.length, r);
      }
    }
  }

  lemma {:induction false} ElementsSkip(types: seq<Datatype>, id: nat, n: nat, place: Place, length: nat, r: Setting)
    requires Proper(types) && Known(types, id)
    ensures Alike(ReadElements(false, types, id, n, place, length, r), ReadElements(true, types, id, n, place, length, r))
    decreases id, 4, n
  {
    hide ReadMany;
    ManySkip(types, id, n, place, length, r);
  }

  lemma {:induction false} ManySkip(types: seq<Datatype>, id: nat, n: nat, place: Place, length: nat, r: Setting)
    requires Proper(types)
    ensures Alike(ReadMany(false, types, id, n, place, length, r), ReadMany(true, types, id, n, place, length, r))
    decreases id, 3, n
  {
    hide ReadType;
    if n > 0 {
      ManySkip(types, id, n - 1, place, length, r);
      if ReadMany(true, types, id, n - 1, place, length, r).Some? {
        var o := ReadMany(true, types, id, n - 1, place, length, r).value;
        TypeSkips(types, id, o.place, o.length, r);
      }
    }
  }
}
