/** Counters that wrap, positions in a power-of-two ring, and where records lie in its storage. */
module RingArithmetic {
  import opened Arithmetic

  /** `std::has_single_bit`. */
  predicate SingleBit(n: nat) {
    n == 1 || (n > 0 && n % 2 == 0 && SingleBit(n / 2))
  }

  /** The capacities `validate` accepts for a counter that wraps at `modulus`. */
  predicate Accepts(modulus: nat, capacity: nat)
    requires modulus > 0
  {
    SingleBit(capacity) && capacity >= 64 && capacity <= (modulus - 1) / 2
  }

  lemma {:induction false} SmallerDivides(a: nat, b: nat)
    requires SingleBit(a) && SingleBit(b) && a <= b
    ensures a > 0 && b % a == 0
  {
    if a > 1 {
      SmallerDivides(a / 2, b / 2);
      var q := (b / 2) / (a / 2);
      assert b / 2 == q * (a / 2);
      assert b == q * a;
      MultipleHasNoRest(q, a);
    }
  }

  lemma {:induction false} MultipleHasNoRest(q: nat, a: nat)
    requires a > 0
    ensures (q * a) % a == 0
  {
    DivModIs(q * a, a, q, 0);
  }

  /** What a counter keeps of a count. */
  function Wrapped(x: nat, modulus: nat): (r: nat)
    requires modulus > 0
  {
    x % modulus
  }

  /** A counter masked with `capacity - 1`, for a capacity that is a power of two. */
  function Place(x: nat, capacity: nat): (r: nat)
    requires capacity > 0
    ensures r < capacity
  {
    x % capacity
  }

  /** Masking a wrapped counter gives the place of the count itself. */
  lemma {:induction false} WrapKeepsPlace(x: nat, modulus: nat, capacity: nat)
    requires capacity > 0 && modulus > 0 && modulus % capacity == 0
    ensures Place(Wrapped(x, modulus), capacity) == Place(x, capacity)
  {
    var k := modulus / capacity;
    var y := x % modulus;
    assert modulus == k * capacity;
    var a, b := x / modulus, y / capacity;
    assert x == a * (k * capacity) + (b * capacity + y % capacity);
    assert a * (k * capacity) == (a * k) * capacity;
    assert x == (a * k + b) * capacity + y % capacity;
    DivModIs(x, capacity, a * k + b, y % capacity);
  }

  /** Wrapped subtraction. */
  function Minus(a: nat, b: nat, modulus: nat): (d: nat)
    requires modulus > 0
  {
    (a - b) % modulus
  }

  /** The wrapped difference of two wrapped counts is their distance, as long as that fits a counter. */
  lemma {:induction false} WrapKeepsDistance(x: nat, y: nat, modulus: nat)
    requires modulus > 0 && y <= x < y + modulus
    ensures Minus(Wrapped(x, modulus), Wrapped(y, modulus), modulus) == x - y
    ensures Wrapped(x, modulus) == Wrapped(y, modulus) <==> x == y
  {
    WrapOfDifference(x, y, modulus);
    if Wrapped(x, modulus) == Wrapped(y, modulus) {
      DivModIs(0, modulus, 0, 0);
    }
  }

  lemma {:induction false} WrapOfDifference(x: nat, y: nat, modulus: nat)
    requires modulus > 0 && y <= x < y + modulus
    ensures Minus(Wrapped(x, modulus), Wrapped(y, modulus), modulus) == x - y
  {
    var d := x % modulus - y % modulus;
    var q, p := x / modulus - y / modulus, d / modulus;
    assert x - y == (q + p) * modulus + d % modulus by {
      assert x - y == q * modulus + d;
      assert d == p * modulus + d % modulus;
    }
    DivModIs(x - y, modulus, q + p, d % modulus);
    DivModIs(x - y, modulus, 0, x - y);
  }

  /** The storage bytes of a record of `length` bytes that starts at count `start`. */
  predicate Occupies(start: nat, length: nat, capacity: nat, at: nat)
    requires capacity > 0
  {
    Place(start, capacity) <= at < Place(start, capacity) + length
  }

  /**
   * Two records with all their bytes within one capacity of counts share no byte of the storage,
   * although a record that crosses the end of the ring runs on into the scratch half.
   */
  lemma {:induction false} RecordsShareNoByte(a: nat, n: nat, b: nat, m: nat, capacity: nat, at: nat)
    requires capacity > 0 && a + n <= b && b + m <= a + capacity
    ensures !(Occupies(a, n, capacity, at) && Occupies(b, m, capacity, at))
  {
    var q := a / capacity;
    assert a == q * capacity + a % capacity;
    if m == 0 {
    } else if b < (q + 1) * capacity {
      assert (q + 1) * capacity == q * capacity + capacity;
      DivModIs(b, capacity, q, b - q * capacity);
    } else {
      assert (q + 1) * capacity == q * capacity + capacity;
      DivModIs(b, capacity, q + 1, b - (q + 1) * capacity);
    }
  }

  /** Counting on wraps the same way from the wrapped count. */
  lemma {:induction false} WrapOfNext(x: nat, n: nat, modulus: nat)
    requires modulus > 0
    ensures Wrapped(Wrapped(x, modulus) + n, modulus) == Wrapped(x + n, modulus)
  {
    var y := x % modulus + n;
    var q, p := x / modulus, y / modulus;
    assert x + n == q * modulus + y;
    assert x + n == (q + p) * modulus + y % modulus;
    DivModIs(x + n, modulus, q + p, y % modulus);
  }
}
