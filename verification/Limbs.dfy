/** Little-endian numbers of any width, added and subtracted in place by 64-bit limbs. */
module Limbs {
  import opened Arithmetic
  import opened Words

  const LIMB: int := 0x1_0000_0000_0000_0000

  // ---------------------------------------------------------------- values of bytes

  function Pow(n: nat): (r: nat)
    ensures r > 0
  {
    if n == 0 then 1 else 256 * Pow(n - 1)
  }

  /** The number that bytes spell, least significant first. */
  function Le(s: seq<byte>): (r: nat) {
    if s == [] then 0 else s[0] + 256 * Le(s[1..])
  }

  lemma {:induction false} PowAdds(a: nat, b: nat)
    ensures Pow(a + b) == Pow(a) * Pow(b)
  {
    if a > 0 {
      PowAdds(a - 1, b);
      Associates(256, Pow(a - 1), Pow(b));
    }
  }

  lemma {:induction false} LeBound(s: seq<byte>)
    ensures Le(s) < Pow(|s|)
  {
    if s != [] {
      LeBound(s[1..]);
    }
  }

  lemma {:induction false} LeAppend(s: seq<byte>, t: seq<byte>)
    ensures Le(s + t) == Le(s) + Pow(|s|) * Le(t)
  {
    if s == [] {
      assert s + t == t;
    } else {
      assert (s + t)[1..] == s[1..] + t;
      LeAppend(s[1..], t);
      Associates(256, Pow(|s| - 1), Le(t));
    }
  }

  /** Bytes of the same length that spell the same number are the same. */
  lemma {:induction false} LeDetermines(s: seq<byte>, t: seq<byte>)
    requires |s| == |t| && Le(s) == Le(t)
    ensures s == t
  {
    if s != [] {
      assert s[0] == Le(s) % 256 && t[0] == Le(t) % 256;
      LeDetermines(s[1..], t[1..]);
      assert s == [s[0]] + s[1..] && t == [t[0]] + t[1..];
    }
  }

  /** The low `n` bytes of a number. */
  function Bytes(x: nat, n: nat): (s: seq<byte>)
    ensures |s| == n
  {
    if n == 0 then [] else [x % 256] + Bytes(x / 256, n - 1)
  }

  lemma {:induction false} LeOfBytes(x: nat, n: nat)
    ensures Le(Bytes(x, n)) == x % Pow(n)
  {
    if n > 0 {
      LeOfBytes(x / 256, n - 1);
      var s := Bytes(x, n);
      assert s[1..] == Bytes(x / 256, n - 1);
      LowAndHigh(x, Pow(n - 1));
    }
  }

  lemma {:induction false} LowAndHigh(x: nat, m: nat)
    requires m > 0
    ensures x % 256 + 256 * ((x / 256) % m) == x % (256 * m)
  {
    var q, r := x / 256 / m, (x / 256) % m;
    assert x / 256 == q * m + r;
    assert x == 256 * (q * m + r) + x % 256;
    assert 256 * (q * m) == q * (256 * m);
    DivModIs(x, 256 * m, q, 256 * r + x % 256);
  }

  // ---------------------------------------------------------------- in place

  /** Only the bytes from `lo` to `hi` differ. */
  ghost predicate SameOutside(s: seq<byte>, t: seq<byte>, lo: nat, hi: nat) {
    |t| == |s| && forall j :: 0 <= j < |s| && !(lo <= j < hi) ==> t[j] == s[j]
  }

  lemma {:induction false} OutsideGrows(s: seq<byte>, t: seq<byte>, u: seq<byte>, lo: nat, mid: nat, hi: nat)
    requires SameOutside(s, t, lo, mid) && SameOutside(t, u, mid, hi) && lo <= mid <= hi
    ensures SameOutside(s, u, lo, hi)
  {
  }

  /** `limb`: the number of at most eight bytes. */
  method Load(v: array<byte>, at: nat, k: nat) returns (x: nat)
    requires at + k <= v.Length
    ensures x == Le(v[at..at + k]) && x < Pow(k)
  {
    x := Le(v[at..at + k]);
    LeBound(v[at..at + k]);
  }

  /** `store_limb`: the low bytes of a number. */
  method Store(v: array<byte>, at: nat, k: nat, x: nat)
    requires at + k <= v.Length
    modifies v
    ensures v[..] == old(v[..at]) + Bytes(x, k) + old(v[at + k..])
    ensures SameOutside(old(v[..]), v[..], at, at + k)
    ensures forall j :: 0 <= j < v.Length && !(at <= j < at + k) ==> v[j] == old(v[j])
    ensures v[at..at + k] == Bytes(x, k)
  {
    var s := Bytes(x, k);
    forall j | 0 <= j < k {
      v[at + j] := s[j];
    }
    assert v[at..at + k] == s;
    assert v[..] == v[..at] + v[at..at + k] + v[at + k..];
  }

  lemma {:induction false} PowEight()
    ensures Pow(8) == LIMB
  {
    assert Pow(2) == 65536 && Pow(3) == 256 * Pow(2) && Pow(4) == 256 * Pow(3);
    assert Pow(5) == 256 * Pow(4) && Pow(6) == 256 * Pow(5) && Pow(7) == 256 * Pow(6);
  }

  /** A limb of fewer than eight bytes fits a word twice. */
  lemma {:induction false} PowFits(k: nat)
    requires k <= 8
    ensures Pow(k) <= LIMB && LIMB % Pow(k) == 0 && (k < 8 ==> 2 * Pow(k) <= LIMB)
  {
    PowEight();
    PowAdds(k, 8 - k);
    assert LIMB == Pow(8 - k) * Pow(k);
    DivModIs(LIMB, Pow(k), Pow(8 - k), 0);
    if k < 8 {
      assert Pow(8 - k) >= 256;
      AtLeast(Pow(8 - k), Pow(k));
    }
  }

  lemma {:induction false} PowFour()
    ensures Pow(4) == 0x1_0000_0000
  {
    assert Pow(2) == 65536 && Pow(3) == 256 * Pow(2);
  }

  lemma {:induction false} BytesOfLe(s: seq<byte>)
    ensures s == Bytes(Le(s), |s|)
  {
    hide Le, Bytes, Pow;
    LeOfBytes(Le(s), |s|);
    LeBound(s);
    DivModIs(Le(s), Pow(|s|), 0, Le(s));
    LeDetermines(s, Bytes(Le(s), |s|));
  }

  /** The number that at most eight bytes spell. */
  function Word(s: seq<byte>): (v: nat)
    requires |s| <= 8
    ensures v < 0x1_0000_0000_0000_0000
  {
    LeBound(s);
    PowFits(|s|);
    Le(s)
  }

  /** Numbers of four or eight bytes are read back. */
  lemma {:induction false} BytesBack(x: nat, n: nat)
    requires (n == 4 && x < 0x1_0000_0000) || (n == 8 && x < 0x1_0000_0000_0000_0000)
    ensures Word(Bytes(x, n)) == x
  {
    LeOfBytes(x, n);
    PowFour();
    PowEight();
    DivModIs(x, Pow(n), 0, x);
  }

  lemma {:induction false} AtLeast(m: nat, x: nat)
    requires m >= 2
    ensures m * x >= 2 * x && x <= m * x
  {
    assert m * x == 2 * x + (m - 2) * x;
  }

  // ---------------------------------------------------------------- subtracting

  /** One limb of a subtraction: the difference, and whether a borrow is left over. */
  function SubLimb(a: nat, b: nat, borrow: nat): (nat, nat) {
    var d := (a - b) % LIMB;
    ((d - borrow) % LIMB, if a < b || d < borrow then 1 else 0)
  }

  /** Of a limb of `k` bytes the low `k` bytes of the difference and the borrow say everything. */
  lemma {:induction false} SubLimbIs(a: nat, b: nat, borrow: nat, k: nat)
    requires k <= 8 && a < Pow(k) && b < Pow(k) && borrow <= 1
    ensures var (d, left) := SubLimb(a, b, borrow); left <= 1 && d % Pow(k) - left * Pow(k) == a - b - borrow
  {
    hide Pow;
    PowFits(k);
    var (d, left) := SubLimb(a, b, borrow);
    assert d - left * LIMB == a - b - borrow;
    var t := a - b - borrow + left * Pow(k);
    assert LIMB == (LIMB / Pow(k)) * Pow(k);
    assert d == t + left * (LIMB - Pow(k));
    var q := if left == 1 then LIMB / Pow(k) - 1 else 0;
    assert d == q * Pow(k) + t;
    DivModIs(d, Pow(k), q, t);
  }

  /** The first `i` bytes are those of the difference, up to a borrow. */
  ghost predicate SubDone(a: seq<byte>, b: seq<byte>, now: seq<byte>, i: nat, borrow: nat) {
    && i <= |a| == |b| == |now| && borrow <= 1
    && Le(now[..i]) - borrow * Pow(i) == Le(a[..i]) - Le(b[..i])
  }

  lemma {:induction false} SubStarts(a: seq<byte>, b: seq<byte>)
    requires |a| == |b|
    ensures SubDone(a, b, a, 0, 0)
  {
  }

  /** What a limb adds to a number. */
  lemma {:induction false} LimbOf(a: seq<byte>, i: nat, k: nat)
    requires i + k <= |a|
    ensures Le(a[..i + k]) == Le(a[..i]) + Pow(i) * Le(a[i..i + k])
  {
    assert a[..i + k] == a[..i] + a[i..i + k];
    LeAppend(a[..i], a[i..i + k]);
  }

  lemma {:induction false} SubStep(a: seq<byte>, b: seq<byte>, now: seq<byte>, now': seq<byte>, i: nat, k: nat, borrow: nat, d: nat, left: nat)
    requires SubDone(a, b, now, i, borrow) && i + k <= |a| && k <= 8
    requires (d, left) == SubLimb(Le(a[i..i + k]), Le(b[i..i + k]), borrow)
    requires |now'| == |now| && now'[..i] == now[..i] && now'[i..i + k] == Bytes(d, k)
    ensures SubDone(a, b, now', i + k, left)
  {
    hide Le, Pow, Bytes, SubLimb;
    var x, y := Le(a[i..i + k]), Le(b[i..i + k]);
    LeBound(a[i..i + k]);
    LeBound(b[i..i + k]);
    SubLimbIs(x, y, borrow, k);
    LeOfBytes(d, k);
    LimbOf(a, i, k);
    LimbOf(b, i, k);
    LimbOf(now', i, k);
    PowAdds(i, k);
    SubSums(Pow(i), Pow(k), d % Pow(k), left, x, y, borrow);
  }

  lemma {:induction false} SubSums(p: int, m: int, t: int, left: int, x: int, y: int, borrow: int)
    requires t - left * m == x - y - borrow
    ensures p * t - left * (p * m) == p * x - p * y - borrow * p
  {
    Distributes(p, t, left * m);
    Distributes(p, x, y);
    Distributes(p, x - y, borrow);
    Associates(p, left, m);
    Associates(left, p, m);
  }

  /** Storing a limb changes the window of a number only there. */
  lemma {:induction false} WindowAfter(whole: seq<byte>, whole': seq<byte>, dst: nat, w: nat, i: nat, k: nat)
    requires SameOutside(whole, whole', dst + i, dst + i + k) && dst + w <= |whole| && i + k <= w
    ensures whole'[dst..dst + w][..i] == whole[dst..dst + w][..i]
    ensures whole'[dst..dst + w][i..i + k] == whole'[dst + i..dst + i + k]
  {
    SliceOfSlice(whole', dst, w, i, k);
    SliceOfSlice(whole', dst, w, 0, i);
    SliceOfSlice(whole, dst, w, 0, i);
    SameSlice(whole, whole', dst, i);
  }

  lemma {:induction false} SliceOfSlice(s: seq<byte>, at: nat, w: nat, i: nat, k: nat)
    requires at + w <= |s| && i + k <= w
    ensures s[at..at + w][i..i + k] == s[at + i..at + i + k]
  {
    var x, y := s[at..at + w][i..i + k], s[at + i..at + i + k];
    forall j | 0 <= j < k
      ensures x[j] == y[j]
    {
      assert x[j] == s[at..at + w][i + j];
      assert s[at..at + w][i + j] == s[at + (i + j)];
    }
  }

  lemma {:induction false} SameSlice(s: seq<byte>, t: seq<byte>, at: nat, k: nat)
    requires |s| == |t| && at + k <= |s| && forall j :: at <= j < at + k ==> t[j] == s[j]
    ensures t[at..at + k] == s[at..at + k]
  {
  }

  /** A limb not reached yet is still what it was. */
  lemma {:induction false} WindowBefore(whole: seq<byte>, whole': seq<byte>, dst: nat, at: nat, w: nat, i: nat, k: nat)
    requires SameOutside(whole, whole', dst, dst + i) && at + w <= |whole| && i + k <= w && (at == dst || at + w <= dst)
    ensures whole'[at + i..at + i + k] == whole[at..at + w][i..i + k]
  {
    SliceOfSlice(whole, at, w, i, k);
    SameSlice(whole, whole', at + i, k);
  }

  /** The bytes of `whole` up to `dst + i` are done, all others untouched. */
  ghost predicate SubReached(whole: seq<byte>, now: seq<byte>, dst: nat, src: nat, w: nat, i: nat, borrow: nat) {
    && src + w <= dst && dst + w <= |whole| == |now| && i <= w
    && SameOutside(whole, now, dst, dst + i)
    && SubDone(whole[dst..dst + w], whole[src..src + w], now[dst..dst + w], i, borrow)
  }

  lemma {:induction false} SubReaches(whole: seq<byte>, before: seq<byte>, after: seq<byte>, dst: nat, src: nat, w: nat, i: nat, k: nat,
                                      borrow: nat, d: nat, left: nat)
    requires SubReached(whole, before, dst, src, w, i, borrow) && i + k <= w && k <= 8 && SameOutside(before, after, dst + i, dst + i + k)
    requires after[dst + i..dst + i + k] == Bytes(d, k)
    requires (d, left) == SubLimb(Le(before[dst + i..dst + i + k]), Le(before[src + i..src + i + k]), borrow)
    ensures SubReached(whole, after, dst, src, w, i + k, left)
  {
    hide Le, Pow, Bytes, SubLimb, SubDone, SameOutside;
    OutsideGrows(whole, before, after, dst, dst + i, dst + i + k);
    WindowBefore(whole, before, dst, dst, w, i, k);
    WindowBefore(whole, before, dst, src, w, i, k);
    WindowAfter(before, after, dst, w, i, k);
    SubStep(whole[dst..dst + w], whole[src..src + w], before[dst..dst + w], after[dst..dst + w], i, k, borrow, d, left);
  }

  /** One limb of `k` bytes. */
  method SubOne(v: array<byte>, dst: nat, src: nat, w: nat, i: nat, k: nat, borrow: nat, ghost whole: seq<byte>) returns (left: nat)
    requires SubReached(whole, v[..], dst, src, w, i, borrow) && i + k <= w && k <= 8
    modifies v
    ensures SubReached(whole, v[..], dst, src, w, i + k, left)
  {
    hide Le, Pow, Bytes, SubLimb, SubDone, SameOutside;
    ghost var before := v[..];
    var x := Load(v, dst + i, k);
    var y := Load(v, src + i, k);
    assert v[dst + i..dst + i + k] == before[dst + i..dst + i + k] && v[src + i..src + i + k] == before[src + i..src + i + k];
    var (d, rest) := SubLimb(x, y, borrow);
    Store(v, dst + i, k, d);
    assert v[..][dst + i..dst + i + k] == v[dst + i..dst + i + k];
    SubReaches(whole, before, v[..], dst, src, w, i, k, borrow, d, rest);
    left := rest;
  }

  /** The `w` bytes at `dst` minus the `w` bytes at `src`, modulo 256 to the `w`. */
  method SubLe(v: array<byte>, dst: nat, src: nat, w: nat)
    requires src + w <= dst && dst + w <= v.Length
    modifies v
    ensures forall j :: 0 <= j < v.Length && !(dst <= j < dst + w) ==> v[j] == old(v[j])
    ensures Le(v[dst..dst + w]) == (old(Le(v[dst..dst + w])) - old(Le(v[src..src + w]))) % Pow(w)
  {
    hide Le, Pow, SubDone;
    var borrow: nat, i: nat := 0, 0;
    ghost var whole := v[..];
    assert whole[dst..dst + w] == v[dst..dst + w] && whole[src..src + w] == v[src..src + w];
    SubStarts(whole[dst..dst + w], whole[src..src + w]);
    while i < w
      invariant i <= w && SubReached(whole, v[..], dst, src, w, i, borrow)
    {
      var k: nat := if w - i < 8 then w - i else 8;
      borrow := SubOne(v, dst, src, w, i, k, borrow, whole);
      i := i + k;
    }
    assert v[..][dst..dst + w] == v[dst..dst + w];
    SubFinished(whole[dst..dst + w], whole[src..src + w], v[dst..dst + w], borrow);
  }

  lemma {:induction false} SubFinished(a: seq<byte>, b: seq<byte>, now: seq<byte>, borrow: nat)
    requires SubDone(a, b, now, |a|, borrow)
    ensures Le(now) == (Le(a) - Le(b)) % Pow(|a|)
  {
    hide Le, Pow;
    assert now[..|a|] == now && a[..|a|] == a && b[..|a|] == b;
    LeBound(now);
    assert Le(a) - Le(b) == (0 - borrow) * Pow(|a|) + Le(now);
    DivModIs(Le(a) - Le(b), Pow(|a|), 0 - borrow, Le(now));
  }

  // ---------------------------------------------------------------- adding

  /** One limb of `k` bytes of an addition: the sum, and the carry left over. */
  function AddLimb(a: nat, b: nat, carry: nat, k: nat): (nat, int) {
    var s := (a + b) % LIMB;
    var t := (s + carry) % LIMB;
    (t, if k < 8 then t / Pow(k) else if a + b >= LIMB || s + carry >= LIMB then 1 else 0)
  }

  lemma {:induction false} AddLimbIs(a: nat, b: nat, carry: nat, k: nat)
    requires k <= 8 && a < Pow(k) && b < Pow(k) && carry <= 1
    ensures var (d, left) := AddLimb(a, b, carry, k); 0 <= left <= 1 && d % Pow(k) + left * Pow(k) == a + b + carry
  {
    hide Pow, AddLimb;
    PowFits(k);
    if k < 8 {
      AddLimbSmall(a, b, carry, k, Pow(k));
    } else {
      PowEight();
      AddLimbFull(a, b, carry);
    }
  }

  lemma {:induction false} AddLimbSmall(a: nat, b: nat, carry: nat, k: nat, m: nat)
    requires k < 8 && m == Pow(k) && a < m && b < m && carry <= 1 && 2 * m <= LIMB
    ensures var (d, left) := AddLimb(a, b, carry, k); 0 <= left <= 1 && d % m + left * m == a + b + carry
  {
    hide Pow, AddLimb;
    AddLimbPlain(a, b, carry, k, m);
    QuotientIs(a + b + carry, m);
  }

  /** Nothing overflows a word. */
  lemma {:induction false} AddLimbPlain(a: nat, b: nat, carry: nat, k: nat, m: nat)
    requires k < 8 && m == Pow(k) && a + b + carry < LIMB
    ensures AddLimb(a, b, carry, k) == (a + b + carry, (a + b + carry) / m)
  {
    hide Pow;
    assert (a + b) % LIMB == a + b && (a + b + carry) % LIMB == a + b + carry;
  }

  lemma {:induction false} AddLimbFull(a: nat, b: nat, carry: nat)
    requires a < LIMB && b < LIMB && carry <= 1
    ensures var (d, left) := AddLimb(a, b, carry, 8); 0 <= left <= 1 && d % LIMB + left * LIMB == a + b + carry
  {
    hide Pow;
  }

  lemma {:induction false} QuotientIs(x: nat, m: nat)
    requires 0 < m && x < 2 * m
    ensures x / m == (if x < m then 0 else 1) && x % m + (x / m) * m == x
  {
    var q, r := x / m, x % m;
    assert x == q * m + r;
    Scaled(q - 2, m);
    Scaled(q, m);
  }

  lemma {:induction false} AddSums(p: int, m: int, t: int, left: int, x: int, y: int, carry: int)
    requires t + left * m == x + y + carry
    ensures p * t + left * (p * m) == p * x + p * y + carry * p
  {
    Distributes(p, t, left * m);
    Distributes(p, x, y);
    Distributes(p, x + y, carry);
    Associates(p, left, m);
    Associates(left, p, m);
  }

  /** The first `i` bytes are those of the sum, up to a carry. */
  ghost predicate AddDone(a: seq<byte>, b: seq<byte>, now: seq<byte>, i: nat, carry: nat) {
    && i <= |a| == |b| == |now| && carry <= 1
    && Le(now[..i]) + carry * Pow(i) == Le(a[..i]) + Le(b[..i])
  }

  lemma {:induction false} AddStarts(a: seq<byte>, b: seq<byte>)
    requires |a| == |b|
    ensures AddDone(a, b, a, 0, 0)
  {
  }

  lemma {:induction false} AddStep(a: seq<byte>, b: seq<byte>, now: seq<byte>, now': seq<byte>, i: nat, k: nat, carry: nat, d: nat, left: int)
    requires AddDone(a, b, now, i, carry) && i + k <= |a| && k <= 8
    requires (d, left) == AddLimb(Le(a[i..i + k]), Le(b[i..i + k]), carry, k)
    requires |now'| == |now| && now'[..i] == now[..i] && now'[i..i + k] == Bytes(d, k)
    ensures 0 <= left <= 1 && AddDone(a, b, now', i + k, left)
  {
    hide Le, Pow, Bytes, AddLimb;
    var x, y := Le(a[i..i + k]), Le(b[i..i + k]);
    LeBound(a[i..i + k]);
    LeBound(b[i..i + k]);
    AddLimbIs(x, y, carry, k);
    LeOfBytes(d, k);
    LimbOf(a, i, k);
    LimbOf(b, i, k);
    LimbOf(now', i, k);
    PowAdds(i, k);
    AddSums(Pow(i), Pow(k), d % Pow(k), left, x, y, carry);
  }

  /** The bytes of `whole` up to `dst + i` are done, all others untouched. */
  ghost predicate AddReached(whole: seq<byte>, now: seq<byte>, dst: nat, src: nat, w: nat, i: nat, carry: nat) {
    && src + w <= dst && dst + w <= |whole| == |now| && i <= w
    && SameOutside(whole, now, dst, dst + i)
    && AddDone(whole[dst..dst + w], whole[src..src + w], now[dst..dst + w], i, carry)
  }

  lemma {:induction false} AddReaches(whole: seq<byte>, before: seq<byte>, after: seq<byte>, dst: nat, src: nat, w: nat, i: nat, k: nat,
                                      carry: nat, d: nat, left: int)
    requires AddReached(whole, before, dst, src, w, i, carry) && i + k <= w && k <= 8 && SameOutside(before, after, dst + i, dst + i + k)
    requires after[dst + i..dst + i + k] == Bytes(d, k)
    requires (d, left) == AddLimb(Le(before[dst + i..dst + i + k]), Le(before[src + i..src + i + k]), carry, k)
    ensures 0 <= left && AddReached(whole, after, dst, src, w, i + k, left)
  {
    hide Le, Pow, Bytes, AddLimb, AddDone, SameOutside;
    OutsideGrows(whole, before, after, dst, dst + i, dst + i + k);
    WindowBefore(whole, before, dst, dst, w, i, k);
    WindowBefore(whole, before, dst, src, w, i, k);
    WindowAfter(before, after, dst, w, i, k);
    AddStep(whole[dst..dst + w], whole[src..src + w], before[dst..dst + w], after[dst..dst + w], i, k, carry, d, left);
  }

  /** One limb of `k` bytes. */
  method AddOne(v: array<byte>, dst: nat, src: nat, w: nat, i: nat, k: nat, carry: nat, ghost whole: seq<byte>) returns (left: nat)
    requires AddReached(whole, v[..], dst, src, w, i, carry) && i + k <= w && k <= 8
    modifies v
    ensures AddReached(whole, v[..], dst, src, w, i + k, left)
  {
    hide Le, Pow, Bytes, AddLimb, AddDone, SameOutside;
    ghost var before := v[..];
    var x := Load(v, dst + i, k);
    var y := Load(v, src + i, k);
    assert v[dst + i..dst + i + k] == before[dst + i..dst + i + k] && v[src + i..src + i + k] == before[src + i..src + i + k];
    var (d, rest) := AddLimb(x, y, carry, k);
    Store(v, dst + i, k, d);
    assert v[..][dst + i..dst + i + k] == v[dst + i..dst + i + k];
    AddReaches(whole, before, v[..], dst, src, w, i, k, carry, d, rest);
    left := rest;
  }

  /** The `w` bytes at `dst` plus the `w` bytes at `src`, modulo 256 to the `w`. */
  method AddLe(v: array<byte>, dst: nat, src: nat, w: nat)
    requires src + w <= dst && dst + w <= v.Length
    modifies v
    ensures forall j :: 0 <= j < v.Length && !(dst <= j < dst + w) ==> v[j] == old(v[j])
    ensures Le(v[dst..dst + w]) == (old(Le(v[dst..dst + w])) + old(Le(v[src..src + w]))) % Pow(w)
  {
    hide Le, Pow, AddDone;
    var carry: nat, i: nat := 0, 0;
    ghost var whole := v[..];
    assert whole[dst..dst + w] == v[dst..dst + w] && whole[src..src + w] == v[src..src + w];
    AddStarts(whole[dst..dst + w], whole[src..src + w]);
    while i < w
      invariant i <= w && AddReached(whole, v[..], dst, src, w, i, carry)
    {
      var k: nat := if w - i < 8 then w - i else 8;
      carry := AddOne(v, dst, src, w, i, k, carry, whole);
      i := i + k;
    }
    assert v[..][dst..dst + w] == v[dst..dst + w];
    AddFinished(whole[dst..dst + w], whole[src..src + w], v[dst..dst + w], carry);
  }

  lemma {:induction false} AddFinished(a: seq<byte>, b: seq<byte>, now: seq<byte>, carry: nat)
    requires AddDone(a, b, now, |a|, carry)
    ensures Le(now) == (Le(a) + Le(b)) % Pow(|a|)
  {
    hide Le, Pow;
    assert now[..|a|] == now && a[..|a|] == a && b[..|a|] == b;
    LeBound(now);
    assert Le(a) + Le(b) == carry * Pow(|a|) + Le(now);
    DivModIs(Le(a) + Le(b), Pow(|a|), carry, Le(now));
  }
}
