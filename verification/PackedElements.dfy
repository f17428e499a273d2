/** Packed values state by state: what the checks on whole bytes mean for the states in them. */
module PackedElements {
  import opened Arithmetic
  import opened Options
  import opened Words
  import opened Varint
  import opened AttributeValues

  /** Two states take one bit, four take two, nine take four. */
  function StateBits(p: Packing): nat {
    match p
    case Bits => 1
    case Logic => 2
    case Logic9 => 4
  }

  /** State `j` of a byte, the lowest bits first. */
  function State(p: Packing, b: byte, j: nat): nat {
    b as int / PowTwo(j * StateBits(p)) % PowTwo(StateBits(p))
  }

  /** State `i` of a value. */
  function Element(p: Packing, data: seq<byte>, i: nat): nat
    requires i < |data| * (8 / StateBits(p))
  {
    State(p, data[i / (8 / StateBits(p))], i % (8 / StateBits(p)))
  }

  lemma {:induction false} Powers()
    ensures PowTwo(0) == 1 && PowTwo(1) == 2 && PowTwo(2) == 4 && PowTwo(3) == 8 && PowTwo(4) == 16
    ensures PowTwo(5) == 32 && PowTwo(6) == 64 && PowTwo(7) == 128 && PowTwo(8) == 256
  {
    assert PowTwo(2) == 2 * PowTwo(1) && PowTwo(3) == 2 * PowTwo(2) && PowTwo(4) == 2 * PowTwo(3);
    assert PowTwo(5) == 2 * PowTwo(4) && PowTwo(6) == 2 * PowTwo(5) && PowTwo(7) == 2 * PowTwo(6) && PowTwo(8) == 2 * PowTwo(7);
  }

  /** No fewer bytes have room for the states, and no more than 32 bits can count. */
  lemma {:induction false} BytesForStates(p: Packing, width: u64, n: nat)
    ensures PackedBytes(p, width) == Some(n) <==>
            n < 0x1_0000_0000 && width <= n * (8 / StateBits(p)) && (n > 0 ==> (n - 1) * (8 / StateBits(p)) < width)
  {
  }

  ghost predicate ZeroStates(p: Packing, b: byte, k: nat) {
    forall j :: k <= j < 8 / StateBits(p) ==> State(p, b, j) == 0
  }

  /** A byte is zero from state `k` on exactly when all these states are. */
  lemma {:induction false} ZeroFrom(p: Packing, b: byte, k: nat)
    requires k <= 8 / StateBits(p)
    ensures b as int / PowTwo(k * StateBits(p)) == 0 <==> ZeroStates(p, b, k)
    decreases 8 - k
  {
    hide PowTwo;
    Powers();
    if k < 8 / StateBits(p) {
      ZeroFrom(p, b, k + 1);
      NextState(p, b, k);
    }
  }

  /** From state `k` on a byte is that state and, shifted, what comes behind it. */
  lemma {:induction false} NextState(p: Packing, b: byte, k: nat)
    ensures b as int / PowTwo(k * StateBits(p))
            == b as int / PowTwo((k + 1) * StateBits(p)) * PowTwo(StateBits(p)) + State(p, b, k)
  {
    hide PowTwo;
    var bits := StateBits(p);
    PowersAdd(k * bits, bits);
    assert (k + 1) * bits == k * bits + bits;
    DivideTwice(b as int, PowTwo(k * bits), PowTwo(bits));
  }

  lemma {:induction false} PowersAdd(m: nat, n: nat)
    ensures PowTwo(m + n) == PowTwo(m) * PowTwo(n)
    decreases n
  {
    if n > 0 {
      PowersAdd(m, n - 1);
      Associates(2, PowTwo(m), PowTwo(n - 1));
      Associates(PowTwo(m), 2, PowTwo(n - 1));
    }
  }

  lemma {:induction false} DivideTwice(x: nat, a: nat, m: nat)
    requires a > 0 && m > 0
    ensures a * m > 0 && x / (a * m) == x / a / m
  {
    var q := x / a;
    Euclid(x, a);
    Euclid(q, m);
    Twice(x, a, m, q, x % a, q / m, q % m);
  }

  lemma {:induction false} Euclid(x: nat, d: nat)
    requires d > 0
    ensures x == x / d * d + x % d && 0 <= x % d < d && x / d >= 0
  {
  }

  lemma {:induction false} Twice(x: nat, a: nat, m: nat, q: nat, r: nat, q': nat, r': nat)
    requires x == q * a + r && r < a && q == q' * m + r' && r' < m
    ensures a * m > 0 && x / (a * m) == q'
  {
    Within(a, m, r, r');
    Shifted(q', m, r', a);
    DivModIs(x, a * m, q', r' * a + r);
  }

  lemma {:induction false} Shifted(q: nat, m: nat, r: nat, a: nat)
    ensures (q * m + r) * a == q * (a * m) + r * a
  {
    Associates(q, m, a);
    Distributes(a, q * m, r);
  }

  lemma {:induction false} Within(a: nat, m: nat, r: nat, s: nat)
    requires r < a && s < m
    ensures 0 <= s * a + r < a * m
  {
    Distributes(a, m, s);
    Scaled(m - s, a);
  }

  /** What lies behind the width is in the last byte. */
  lemma {:induction false} PaddingIs(p: Packing, data: seq<byte>, width: u64)
    requires PackedBytes(p, width) == Some(|data|)
    ensures var per := 8 / StateBits(p);
      (forall i :: width <= i < |data| * per ==> Element(p, data, i) == 0)
      <==> (width % per != 0 ==> data != [] && ZeroStates(p, data[|data| - 1], width % per))
  {
    hide State, Element, PackedBytes;
    var per, n := 8 / StateBits(p), |data|;
    LastByte(p, width, n);
    if width % per != 0 {
      forall i | width <= i < n * per
        ensures width % per <= i % per < per && Element(p, data, i) == State(p, data[n - 1], i % per)
      {
        InLastByte(p, data, width, i, i % per);
      }
      if forall i :: width <= i < n * per ==> Element(p, data, i) == 0 {
        var last := data[n - 1];
        forall j | width % per <= j < per
          ensures State(p, last, j) == 0
        {
          InLastByte(p, data, width, (n - 1) * per + j, j);
          assert Element(p, data, (n - 1) * per + j) == 0;
        }
      }
    }
  }

  lemma {:induction false} LastByte(p: Packing, width: u64, n: nat)
    requires PackedBytes(p, width) == Some(n)
    ensures var per := 8 / StateBits(p); if width % per == 0 then width == n * per else n > 0 && width / per == n - 1
  {
  }

  /** Place `i` is state `j` of the last byte. */
  lemma {:induction false} InLastByte(p: Packing, data: seq<byte>, width: nat, i: nat, j: nat)
    requires var per := 8 / StateBits(p);
      && width / per == |data| - 1 && data != [] && ((j == i % per && width <= i < |data| * per) || (i == (|data| - 1) * per + j && width % per <= j < per))
    ensures var per := 8 / StateBits(p);
      && width <= i < |data| * per && width % per <= j < per && Element(p, data, i) == State(p, data[|data| - 1], j)
  {
    hide State;
    var per, n := 8 / StateBits(p), |data|;
    Places(per, n, width, i, j);
  }

  lemma {:induction false} Places(per: nat, n: nat, width: nat, i: nat, j: nat)
    requires (per == 2 || per == 4 || per == 8) && width / per == n - 1
    requires (j == i % per && width <= i < n * per) || (i == (n - 1) * per + j && width % per <= j < per)
    ensures i / per == n - 1 && i % per == j && width <= i < n * per && width % per <= j < per
  {
  }

  /** Two nine-valued states to a byte. */
  lemma {:induction false} HalfByte(data: seq<byte>, i: nat)
    requires i < 2 * |data|
    ensures Element(Logic9, data, i) == if i % 2 == 0 then data[i / 2] as int % 16 else data[i / 2] as int / 16
  {
    Powers();
  }

  /** The nine-valued states of whole bytes. */
  lemma {:induction false} NineStates(data: seq<byte>, width: u64)
    requires PackedBytes(Logic9, width) == Some(|data|)
    ensures (forall i :: 0 <= i < |data| ==> data[i] % 16 <= 8 && (i * 2 + 1 < width ==> data[i] / 16 <= 8))
            <==> forall i :: 0 <= i < width ==> Element(Logic9, data, i) <= 8
  {
    hide Element, PackedBytes;
    BytesForStates(Logic9, width, |data|);
    if forall i :: 0 <= i < |data| ==> data[i] % 16 <= 8 && (i * 2 + 1 < width ==> data[i] / 16 <= 8) {
      forall i | 0 <= i < width
        ensures Element(Logic9, data, i) <= 8
      {
        HalfByte(data, i);
        assert i == i / 2 * 2 + i % 2;
      }
    }
    if forall i :: 0 <= i < width ==> Element(Logic9, data, i) <= 8 {
      forall i | 0 <= i < |data|
        ensures data[i] % 16 <= 8 && (i * 2 + 1 < width ==> data[i] / 16 <= 8)
      {
        HalfByte(data, 2 * i);
        HalfByte(data, 2 * i + 1);
        assert Element(Logic9, data, 2 * i) <= 8;
        assert i * 2 + 1 < width ==> Element(Logic9, data, 2 * i + 1) <= 8;
      }
    }
  }

  /** Whole bytes pass the check exactly when every state behind the width is zero and every nine-valued state is one of the nine. */
  lemma {:induction false} PackedIs(p: Packing, data: seq<byte>, width: u64)
    requires PackedBytes(p, width) == Some(|data|)
    ensures PackedOk(p, data, width) <==>
            && (forall i :: width <= i < |data| * (8 / StateBits(p)) ==> Element(p, data, i) == 0)
            && (p == Logic9 ==> forall i :: 0 <= i < width ==> Element(p, data, i) <= 8)
  {
    hide State, Element, PowTwo;
    PaddingIs(p, data, width);
    var per := 8 / StateBits(p);
    assert 8 / PerByte(p) == StateBits(p);
    if width % per != 0 && data != [] {
      ZeroFrom(p, data[|data| - 1], width % per);
    }
    if p == Logic9 {
      NineStates(data, width);
    }
  }
}
