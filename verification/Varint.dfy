/** Variable-length integers: unsigned LEB128 without overlong forms, and the zig-zag order of signed ones. */
module Varint {
  import opened Arithmetic
  import opened Options
  import opened Words

  type u64 = x: int | 0 <= x < 0x1_0000_0000_0000_0000
  type i64 = x: int | -0x8000_0000_0000_0000 <= x < 0x8000_0000_0000_0000

  // ---------------------------------------------------------------- the encoding

  /** Seven bits a byte, lowest first; all bytes but the last have the top bit set. */
  function Leb(v: nat): (s: seq<byte>)
    ensures s != []
  {
    if v < 128 then [v] else [v % 128 + 128] + Leb(v / 128)
  }

  /** Numbers that still fit once `k` bytes of a 64-bit number are gone. */
  function Cap(k: nat): nat
    requires k <= 9
    decreases 9 - k
  {
    if k == 9 then 2 else 128 * Cap(k + 1)
  }

  lemma {:induction false} CapOfAll()
    ensures Cap(0) == 0x1_0000_0000_0000_0000
  {
    assert Cap(8) == 256 && Cap(7) == 128 * Cap(8) && Cap(6) == 128 * Cap(7) && Cap(5) == 128 * Cap(6);
    assert Cap(4) == 128 * Cap(5) && Cap(3) == 128 * Cap(4) && Cap(2) == 128 * Cap(3) && Cap(1) == 128 * Cap(2);
  }

  /** Reading on after `k` bytes: the value of the rest, and how many bytes it takes. */
  function Unleb(s: seq<byte>, k: nat): (r: Option<(nat, nat)>)
    requires k <= 9
    ensures r.Some? ==> 0 < r.value.1 <= |s|
    decreases 9 - k
  {
    if s == [] || (k == 9 && s[0] > 1) then None
    else if s[0] < 128 then (if k != 0 && s[0] == 0 then None else Some((s[0], 1)))
    else
      match Unleb(s[1..], k + 1)
      case None => None
      case Some((v, n)) => Some((s[0] - 128 + 128 * v, n + 1))
  }

  /** What was written reads back, whatever follows. */
  lemma {:induction false} ReadsWritten(v: nat, rest: seq<byte>, k: nat)
    requires k <= 9 && v < Cap(k) && (k > 0 ==> v > 0)
    ensures Unleb(Leb(v) + rest, k) == Some((v, |Leb(v)|))
    decreases 9 - k
  {
    var s := Leb(v) + rest;
    if v >= 128 {
      assert s[1..] == Leb(v / 128) + rest;
      ReadsWritten(v / 128, rest, k + 1);
    }
  }

  /** Only what was written is read: no other bytes stand for the value. */
  lemma {:induction false} ReadsOnlyWritten(s: seq<byte>, k: nat)
    requires k <= 9 && Unleb(s, k).Some?
    ensures var (v, n) := Unleb(s, k).value;
      v < Cap(k) && (k > 0 ==> v > 0) && n == |Leb(v)| && s[..n] == Leb(v)
    decreases 9 - k
  {
    hide Cap, Unleb, Leb;
    CapGrows(k);
    UnlebStep(s, k);
    if s[0] >= 128 {
      ReadsOnlyWritten(s[1..], k + 1);
      var (w, m) := Unleb(s[1..], k + 1).value;
      LebOfMore(s[0] - 128, w);
      assert s[..m + 1] == [s[0]] + s[1..][..m];
    } else {
      LebOfOne(s[0]);
      assert s[..1] == [s[0]];
    }
  }

  lemma {:induction false} LebOfOne(v: nat)
    requires v < 128
    ensures Leb(v) == [v]
  {
  }

  lemma {:induction false} LebOfMore(low: nat, w: nat)
    requires low < 128 && w > 0
    ensures Leb(low + 128 * w) == [low + 128] + Leb(w)
  {
    assert (low + 128 * w) / 128 == w && (low + 128 * w) % 128 == low;
  }

  lemma {:induction false} CapGrows(k: nat)
    requires k <= 9
    ensures Cap(k) >= 2 && (k < 9 ==> Cap(k) >= 256 && Cap(k) == 128 * Cap(k + 1)) && (k == 9 ==> Cap(k) == 2)
    decreases 9 - k
  {
    if k < 9 {
      CapGrows(k + 1);
    }
  }

  // ---------------------------------------------------------------- reading from the front of a cursor

  /** `Cursor::var`: the value, and what is left; nothing is read on an error. */
  function ReadVar(s: seq<byte>): (r: Option<(u64, seq<byte>)>)
    ensures r.Some? ==> |r.value.1| < |s|
  {
    match Unleb(s, 0)
    case None => None
    case Some((v, n)) =>
      ReadsOnlyWritten(s, 0);
      CapOfAll();
      Some((v, s[n..]))
  }

  /** Reading succeeds exactly on a written number followed by anything. */
  lemma {:induction false} ReadVarIff(s: seq<byte>, v: u64, rest: seq<byte>)
    ensures ReadVar(s) == Some((v, rest)) <==> s == Leb(v) + rest
  {
    CapOfAll();
    if s == Leb(v) + rest {
      ReadsWritten(v, rest, 0);
      assert s[|Leb(v)|..] == rest;
    }
    if ReadVar(s) == Some((v, rest)) {
      ReadsOnlyWritten(s, 0);
      assert s == s[..|Leb(v)|] + s[|Leb(v)|..];
    }
  }

  lemma {:induction false} VarReads(v: u64, rest: seq<byte>)
    ensures ReadVar(Leb(v) + rest) == Some((v, rest))
  {
    ReadVarIff(Leb(v) + rest, v, rest);
  }

  // ---------------------------------------------------------------- the loops

  method PutU64(out: seq<byte>, v0: u64) returns (r: seq<byte>)
    ensures r == out + Leb(v0)
  {
    var v := v0;
    r := out;
    while v >= 0x80
      invariant v >= 0 && r + Leb(v) == out + Leb(v0)
    {
      assert r + ([v % 128 + 128] + Leb(v / 128)) == r + [v % 128 + 128] + Leb(v / 128);
      r := r + [v % 128 + 128];
      v := v / 128;
    }
    r := r + [v];
  }

  /** The weight of byte `k`. */
  function Weight(k: nat): (w: nat)
    ensures w > 0
  {
    if k == 0 then 1 else 128 * Weight(k - 1)
  }

  /** `Reader::u64`: the value and the new position, or an error that leaves the position where it was. */
  method ReadU64(buf: seq<byte>, pos0: nat) returns (r: Option<(nat, nat)>)
    requires pos0 <= |buf|
    ensures match Unleb(buf[pos0..], 0)
            case None => r == None
            case Some((v, n)) => r == Some((v, pos0 + n))
  {
    hide Unleb, ReadsOn, Weight;
    ReadStarts(buf, pos0);
    if pos0 < |buf| && buf[pos0] < 128 {
      ReadStep(buf, pos0, pos0, 0, 0);
      return Some((buf[pos0], pos0 + 1));
    }
    var value: nat, pos: nat := 0, pos0;
    for k: nat := 0 to 10
      invariant pos == pos0 + k <= |buf|
      invariant k < 10 ==> ReadsOn(buf, pos0, pos, k, value)
      invariant k == 10 ==> Unleb(buf[pos0..], 0).None?
    {
      if pos >= |buf| {
        ReadEnds(buf, pos0, pos, k, value);
        return None;
      }
      var byte := buf[pos];
      ReadStep(buf, pos0, pos, k, value);
      pos := pos + 1;
      if k == 9 && byte > 1 {
        return None;
      }
      value := value + byte % 128 * Weight(k);
      if byte < 128 {
        if k != 0 && byte == 0 {
          return None;
        }
        return Some((value, pos));
      }
    }
    r := None;
  }

  /** What was read so far plus what is to come is the whole. */
  ghost predicate ReadsOn(buf: seq<byte>, pos0: nat, pos: nat, k: nat, value: nat)
    requires pos0 <= pos <= |buf| && k <= 9
  {
    match Unleb(buf[pos..], k)
    case None => Unleb(buf[pos0..], 0).None?
    case Some((v, n)) => Unleb(buf[pos0..], 0) == Some((value + Weight(k) * v, pos - pos0 + n))
  }

  lemma {:induction false} ReadStarts(buf: seq<byte>, pos0: nat)
    requires pos0 <= |buf|
    ensures ReadsOn(buf, pos0, pos0, 0, 0) && Weight(0) == 1
  {
  }

  lemma {:induction false} ReadEnds(buf: seq<byte>, pos0: nat, pos: nat, k: nat, value: nat)
    requires pos0 <= pos == |buf| && k <= 9 && ReadsOn(buf, pos0, pos, k, value)
    ensures Unleb(buf[pos0..], 0).None?
  {
  }

  lemma {:induction false} ReadStep(buf: seq<byte>, pos0: nat, pos: nat, k: nat, value: nat)
    requires pos0 <= pos < |buf| && k <= 9 && ReadsOn(buf, pos0, pos, k, value)
    ensures k == 9 && buf[pos] > 1 ==> Unleb(buf[pos0..], 0).None?
    ensures k == 9 && buf[pos] <= 1 ==> buf[pos] < 128
    ensures !(k == 9 && buf[pos] > 1) && buf[pos] < 128 ==>
              Unleb(buf[pos0..], 0) == if k != 0 && buf[pos] == 0 then None else Some((value + buf[pos] * Weight(k), pos + 1 - pos0))
    ensures k < 9 && buf[pos] >= 128 ==> ReadsOn(buf, pos0, pos + 1, k + 1, value + buf[pos] % 128 * Weight(k))
  {
    hide Unleb, Weight;
    assert buf[pos..][1..] == buf[pos + 1..] && buf[pos..][0] == buf[pos];
    UnlebStep(buf[pos..], k);
    if k < 9 && buf[pos] >= 128 {
      ReadMore(buf, pos0, pos, k, value);
    }
  }

  lemma {:induction false} ReadMore(buf: seq<byte>, pos0: nat, pos: nat, k: nat, value: nat)
    requires pos0 <= pos < |buf| && k < 9 && buf[pos] >= 128 && ReadsOn(buf, pos0, pos, k, value)
    ensures ReadsOn(buf, pos0, pos + 1, k + 1, value + buf[pos] % 128 * Weight(k))
  {
    hide Unleb, Weight;
    assert buf[pos..][1..] == buf[pos + 1..] && buf[pos..][0] == buf[pos];
    UnlebStep(buf[pos..], k);
    if Unleb(buf[pos + 1..], k + 1).Some? {
      WeightOf(k, buf[pos] - 128, Unleb(buf[pos + 1..], k + 1).value.0);
    }
  }

  /** One byte of reading on. */
  lemma {:induction false} UnlebStep(s: seq<byte>, k: nat)
    requires k <= 9 && s != []
    ensures Unleb(s, k) ==
            if k == 9 && s[0] > 1 then None
            else if s[0] < 128 then (if k != 0 && s[0] == 0 then None else Some((s[0], 1)))
            else match Unleb(s[1..], k + 1)
                 case None => None
                 case Some((v, n)) => Some((s[0] - 128 + 128 * v, n + 1))
  {
  }

  lemma {:induction false} WeightOf(k: nat, low: nat, v: nat)
    ensures Weight(k) * (low + 128 * v) == low * Weight(k) + Weight(k + 1) * v
  {
    Distributes(Weight(k), low, 128 * v);
    Associates(Weight(k), 128, v);
  }

  // ---------------------------------------------------------------- lengths

  function BitLength(v: nat): (n: nat) {
    if v == 0 then 0 else 1 + BitLength(v / 2)
  }

  /** `len_u64`: with `64 - leading zeros` bits, `(6 + bits) / 7` bytes. */
  function LenU64(v: nat): nat {
    if v == 0 then 1 else (6 + BitLength(v)) / 7
  }

  lemma {:induction false} SevenBits(v: nat)
    requires v >= 128
    ensures BitLength(v) == 7 + BitLength(v / 128)
  {
    assert v / 2 / 2 == v / 4 && v / 4 / 2 == v / 8 && v / 8 / 2 == v / 16 && v / 16 / 2 == v / 32;
    assert v / 32 / 2 == v / 64 && v / 64 / 2 == v / 128;
    assert BitLength(v) == 1 + BitLength(v / 2) && BitLength(v / 2) == 1 + BitLength(v / 4);
    assert BitLength(v / 4) == 1 + BitLength(v / 8) && BitLength(v / 8) == 1 + BitLength(v / 16);
    assert BitLength(v / 16) == 1 + BitLength(v / 32) && BitLength(v / 32) == 1 + BitLength(v / 64);
    assert BitLength(v / 64) == 1 + BitLength(v / 128);
  }

  /** The length formula is the length. */
  lemma {:induction false} LengthIsFormula(v: nat)
    ensures |Leb(v)| == LenU64(v)
  {
    if v >= 128 {
      SevenBits(v);
      LengthIsFormula(v / 128);
    } else {
      SmallBits(v);
    }
  }

  lemma {:induction false} SmallBits(v: nat)
    requires v < 128
    ensures v > 0 ==> 1 <= BitLength(v) <= 7
  {
    assert BitLength(v / 64 / 2) == 0;
    assert BitLength(v / 64) <= 1;
    assert v / 32 / 2 == v / 64 && v / 16 / 2 == v / 32 && v / 8 / 2 == v / 16 && v / 4 / 2 == v / 8 && v / 2 / 2 == v / 4;
    assert BitLength(v / 32) <= 2;
    assert BitLength(v / 16) <= 3;
    assert BitLength(v / 8) <= 4;
    assert BitLength(v / 4) <= 5;
    assert BitLength(v / 2) <= 6;
  }

  // ---------------------------------------------------------------- signed numbers

  /** 0, -1, 1, -2, ... in this order. */
  function Zigzag(v: i64): u64 {
    if v >= 0 then 2 * v else -2 * v - 1
  }

  function Unzigzag(v: u64): i64 {
    if v % 2 == 0 then v / 2 else -(v / 2) - 1
  }

  lemma {:induction false} ZigzagInverse(v: i64, u: u64)
    ensures Unzigzag(Zigzag(v)) == v && Zigzag(Unzigzag(u)) == u
  {
  }

  function Magnitude(v: int): nat {
    if v >= 0 then v else -v
  }

  /** Smaller magnitudes come first, from zero on; of two opposite numbers the negative one comes right before the other. */
  lemma {:induction false} ZigzagOrders(a: i64, b: i64)
    ensures Zigzag(0) == 0
    ensures Magnitude(a) < Magnitude(b) ==> Zigzag(a) < Zigzag(b)
    ensures a < 0 && a + b == 0 ==> Zigzag(b) == Zigzag(a) + 1
  {
  }

  // ---------------------------------------------------------------- the bytes of a number

  /** What groups of seven bits spell, least significant first. */
  function Spelled(s: seq<byte>): nat {
    if s == [] then 0 else Spelled(s[..|s| - 1]) + Weight(|s| - 1) * (s[|s| - 1] % 128)
  }

  lemma {:induction false} SpelledAhead(first: byte, s: seq<byte>)
    ensures Spelled([first] + s) == first % 128 + 128 * Spelled(s)
  {
    hide Weight;
    var all := [first] + s;
    if s == [] {
      assert all[..0] == [];
      WeightOfNone();
    } else {
      var front, last := s[..|s| - 1], s[|s| - 1] % 128;
      SpelledAhead(first, front);
      assert all[..|all| - 1] == [first] + front;
      WeightGrows(|front|);
      Associates(128, Weight(|front|), last);
    }
  }

  lemma {:induction false} WeightOfNone()
    ensures Weight(0) == 1
  {
  }

  lemma {:induction false} WeightGrows(k: nat)
    ensures Weight(k + 1) == 128 * Weight(k)
  {
  }

  /** The bytes of a number spell it in groups of seven bits; all but the last have the high bit, and no group too many is written. */
  lemma {:induction false} LebSpells(v: nat)
    ensures var s := Leb(v);
      && Spelled(s) == v && s[|s| - 1] < 128 && (forall i :: 0 <= i < |s| - 1 ==> s[i] >= 128)
      && (|s| > 1 ==> s[|s| - 1] != 0)
  {
    hide Spelled;
    if v < 128 {
      SpelledAhead(v, []);
      assert [v] + [] == [v] && Spelled([]) == 0 by {
        SpelledNothing();
      }
    } else {
      LebSpells(v / 128);
      SpelledAhead(v % 128 + 128, Leb(v / 128));
      if |Leb(v / 128)| == 1 {
        assert v / 128 < 128;
      }
    }
  }

  lemma {:induction false} SpelledNothing()
    ensures Spelled([]) == 0
  {
  }
}
