/**
 * The byte ring between one producer and one consumer. Each side keeps its own counter and a stale
 * copy of the other's; every method makes at most one access to a published counter, so any
 * interleaving of the two sides is a sequence of these calls.
 */
module ByteRing {
  import opened Options
  import opened RingArithmetic
  import opened Words

  // ---------------------------------------------------------------- committed records

  /** Where record `k` starts; the count after the last record when there is no record `k`. */
  ghost function StartOf(starts: seq<nat>, sent: nat, k: nat): nat
    requires k <= |starts|
  {
    if k < |starts| then starts[k] else sent
  }

  /** The records lie one after the other from count 0 to count `sent`. */
  ghost predicate Laid(starts: seq<nat>, records: seq<seq<byte>>, sent: nat) {
    && |starts| == |records|
    && StartOf(starts, sent, 0) == 0
    && forall k :: 0 <= k < |records| ==> LaidAt(starts, records, sent, k)
  }

  ghost predicate LaidAt(starts: seq<nat>, records: seq<seq<byte>>, sent: nat, k: nat)
    requires |starts| == |records| && k < |records|
  {
    |records[k]| > 0 && StartOf(starts, sent, k + 1) == starts[k] + |records[k]|
  }

  lemma {:induction false} StartsAscend(starts: seq<nat>, records: seq<seq<byte>>, sent: nat, j: nat, k: nat)
    requires Laid(starts, records, sent) && j <= k <= |starts|
    ensures StartOf(starts, sent, j) + (k - j) <= StartOf(starts, sent, k) <= sent
    decreases |starts| - j
  {
    if j < |starts| {
      assert LaidAt(starts, records, sent, j);
      StartsAscend(starts, records, sent, j + 1, if k > j then k else j + 1);
    }
  }

  /** Two records, one wholly before the other. */
  lemma {:induction false} EndsBefore(starts: seq<nat>, records: seq<seq<byte>>, sent: nat, j: nat, k: nat)
    requires Laid(starts, records, sent) && j < k <= |starts|
    ensures starts[j] + |records[j]| <= StartOf(starts, sent, k) <= sent
  {
    assert LaidAt(starts, records, sent, j);
    StartsAscend(starts, records, sent, j + 1, k);
  }

  lemma {:induction false} LaidOneMore(starts: seq<nat>, records: seq<seq<byte>>, sent: nat, record: seq<byte>)
    requires Laid(starts, records, sent) && |record| > 0
    ensures Laid(starts + [sent], records + [record], sent + |record|)
  {
    var starts', records', sent' := starts + [sent], records + [record], sent + |record|;
    forall k | 0 <= k < |records'|
      ensures LaidAt(starts', records', sent', k)
    {
      if k < |records| {
        assert LaidAt(starts, records, sent, k);
      }
    }
  }

  // ---------------------------------------------------------------- records in storage

  /** The storage holds `record` where a record that starts at count `start` lies. */
  ghost predicate Holds(storage: seq<byte>, capacity: nat, start: nat, record: seq<byte>)
    requires capacity > 0
  {
    && Place(start, capacity) + |record| <= |storage|
    && storage[Place(start, capacity)..Place(start, capacity) + |record|] == record
  }

  /** The storage holds every record from number `from` on. */
  ghost predicate HoldsFrom(storage: seq<byte>, capacity: nat, starts: seq<nat>, records: seq<seq<byte>>, from: nat)
    requires capacity > 0 && |starts| == |records|
  {
    forall k :: from <= k < |records| ==> Holds(storage, capacity, starts[k], records[k])
  }

  lemma {:induction false} HoldsOneMore(storage: seq<byte>, capacity: nat, starts: seq<nat>, records: seq<seq<byte>>,
                                        from: nat, start: nat, record: seq<byte>)
    requires capacity > 0 && |starts| == |records| && HoldsFrom(storage, capacity, starts, records, from)
    requires Holds(storage, capacity, start, record)
    ensures HoldsFrom(storage, capacity, starts + [start], records + [record], from)
  {
  }

  /** The first of the records, and the rest of them. */
  lemma {:induction false} HoldsFirst(storage: seq<byte>, capacity: nat, starts: seq<nat>, records: seq<seq<byte>>, sent: nat, from: nat)
    requires capacity > 0 && |starts| == |records| && from < |records|
    requires Laid(starts, records, sent) && HoldsFrom(storage, capacity, starts, records, from)
    ensures Holds(storage, capacity, starts[from], records[from]) && HoldsFrom(storage, capacity, starts, records, from + 1)
    ensures |records[from]| > 0 && StartOf(starts, sent, from + 1) == starts[from] + |records[from]|
  {
    assert LaidAt(starts, records, sent, from);
  }

  /** A byte written past every record, within a capacity of the first one, disturbs none of them. */
  lemma {:induction false} StoreDisturbsNothing(storage: seq<byte>, capacity: nat, starts: seq<nat>, records: seq<seq<byte>>,
                                                sent: nat, from: nat, room: nat, i: nat, b: byte)
    requires capacity > 0 && Laid(starts, records, sent) && from <= |records| && |storage| == 2 * capacity
    requires HoldsFrom(storage, capacity, starts, records, from)
    requires i < room <= capacity && sent + room <= StartOf(starts, sent, from) + capacity
    ensures HoldsFrom(storage[Place(sent, capacity) + i := b], capacity, starts, records, from)
  {
    var at := Place(sent, capacity) + i;
    StartsAscend(starts, records, sent, from, |starts|);
    var storage' := storage[at := b];
    forall k | from <= k < |records|
      ensures Holds(storage', capacity, starts[k], records[k])
    {
      assert Holds(storage, capacity, starts[k], records[k]);
      StartsAscend(starts, records, sent, from, k);
      EndsBefore(starts, records, sent, k, |starts|);
      RecordsShareNoByte(starts[k], |records[k]|, sent, room, capacity, at);
      assert Occupies(sent, room, capacity, at);
      var p := Place(starts[k], capacity);
      assert storage'[p..p + |records[k]|] == storage[p..p + |records[k]|];
    }
  }

  // ---------------------------------------------------------------- the ring

  /** The ring's counters wrap at `modulus`. */
  class SpscBytes {
    const modulus: nat
    const capacity: nat
    const storage: array<byte>
    // The producer's side.
    var written: nat
    var cachedRead: nat
    var publishedWrite: nat
    // The consumer's side.
    var read: nat
    var cachedWrite: nat
    var publishedRead: nat

    // What the counters count, without wrapping: bytes committed, known to be freed, consumed, known
    // to be committed, and freed.
    ghost var sent: nat
    ghost var seenFreed: nat
    ghost var taken: nat
    ghost var seenSent: nat
    ghost var freed: nat
    // The committed records and where they start, the consumed records' bytes as they were in the
    // storage, how many records the consumer knows of, and how much the last `Reserve` granted.
    ghost var committed: seq<seq<byte>>
    ghost var starts: seq<nat>
    ghost var received: seq<seq<byte>>
    ghost var seenRecords: nat
    ghost var room: nat

    ghost predicate ConstantsOk() {
      && capacity >= 64 && capacity <= (modulus - 1) / 2 && modulus % capacity == 0
      && storage.Length == 2 * capacity
    }

    ghost predicate CountersOk()
      reads this
      requires ConstantsOk()
    {
      && written == publishedWrite == Wrapped(sent, modulus) && cachedRead == Wrapped(seenFreed, modulus)
      && read == Wrapped(taken, modulus) && cachedWrite == Wrapped(seenSent, modulus) && publishedRead == Wrapped(freed, modulus)
      && seenFreed <= freed <= taken <= seenSent <= sent
      && sent + room <= seenFreed + capacity
      && taken - freed < capacity / 4
      && (taken == seenSent ==> freed == taken)
    }

    ghost predicate RecordsOk()
      reads this
    {
      && |starts| == |committed| && Laid(starts, committed, sent)
      && |received| <= seenRecords <= |committed|
      && taken == StartOf(starts, sent, |received|)
      && seenSent == StartOf(starts, sent, seenRecords)
    }

    /** What was received so far is a prefix of what was committed, and the rest is still in storage. */
    ghost predicate Valid()
      reads this, storage
    {
      && ConstantsOk() && CountersOk() && RecordsOk()
      && received == committed[..|received|]
      && HoldsFrom(storage[..], capacity, starts, committed, |received|)
    }

    constructor (bits: nat, size: nat)
      requires SingleBit(bits) && Accepts(bits, size)
      ensures Valid() && fresh(storage) && capacity == size && modulus == bits
      ensures committed == [] && received == [] && room == 0
    {
      modulus, capacity := bits, size;
      storage := new byte[2 * size](_ => 0);
      written, cachedRead, publishedWrite := 0, 0, 0;
      read, cachedWrite, publishedRead := 0, 0, 0;
      sent, seenFreed, taken, seenSent, freed := 0, 0, 0, 0, 0;
      committed, starts, received, seenRecords, room := [], [], [], 0, 0;
      new;
      SmallerDivides(size, bits);
    }

    /** The constructor's error path: any other size is refused. */
    static method Open(bits: nat, size: nat) returns (r: Option<SpscBytes>)
      requires SingleBit(bits)
      ensures r.Some? <==> Accepts(bits, size)
      ensures r.Some? ==> fresh(r.value) && r.value.Valid() && r.value.capacity == size && r.value.committed == []
    {
      if Accepts(bits, size) {
        var ring := new SpscBytes(bits, size);
        r := Some(ring);
      } else {
        r := None;
      }
    }

    // -------------------------------------------------------------- the producer

    /** Room for a record: granted exactly when the bytes not yet freed leave room, however stale the cached count. */
    method Reserve(bytes: nat) returns (at: Option<nat>)
      requires Valid()
      modifies this`cachedRead, this`seenFreed, this`room
      ensures Valid()
      ensures at.Some? <==> bytes <= capacity - (sent - freed)
      ensures at.Some? ==> at.value == Place(sent, capacity) && room == bytes
      ensures at.None? ==> room == 0
    {
      hide Wrapped, Place, Minus, Laid, HoldsFrom;
      room := 0;
      if bytes > capacity {
        return None;
      }
      WrapKeepsDistance(sent, seenFreed, modulus);
      if bytes > capacity - Minus(written, cachedRead, modulus) {
        cachedRead := publishedRead;
        seenFreed := freed;
        WrapKeepsDistance(sent, seenFreed, modulus);
        if bytes > capacity - Minus(written, cachedRead, modulus) {
          return None;
        }
      }
      room := bytes;
      WrapKeepsPlace(sent, modulus, capacity);
      return Some(Place(written, capacity));
    }

    /** The producer writes byte `i` of its reservation. */
    method Store(i: nat, b: byte)
      requires Valid() && i < room
      modifies storage
      ensures Valid()
      ensures Place(sent, capacity) + i < storage.Length && storage[..] == old(storage[..])[Place(sent, capacity) + i := b]
    {
      hide Wrapped, Place, Minus, Laid, HoldsFrom;
      WrapKeepsPlace(sent, modulus, capacity);
      StartsAscend(starts, committed, sent, |received|, |starts|);
      StoreDisturbsNothing(storage[..], capacity, starts, committed, sent, |received|, room, i, b);
      storage[Place(written, capacity) + i] := b;
    }

    /** The first bytes of the reservation become the next record. */
    method Commit(bytes: nat)
      requires Valid() && bytes <= room
      modifies this`written, this`publishedWrite, this`sent, this`committed, this`starts, this`room
      ensures Valid()
      ensures sent == old(sent) + bytes && room == old(room) - bytes
      ensures Place(old(sent), capacity) + bytes <= storage.Length
      ensures committed == old(committed) +
                (if bytes == 0 then [] else [storage[Place(old(sent), capacity)..Place(old(sent), capacity) + bytes]])
    {
      hide Wrapped, Place, Minus, Laid, HoldsFrom;
      ghost var record := storage[Place(sent, capacity)..Place(sent, capacity) + bytes];
      StartsAscend(starts, committed, sent, |received|, |starts|);
      if bytes > 0 {
        LaidOneMore(starts, committed, sent, record);
        HoldsOneMore(storage[..], capacity, starts, committed, |received|, sent, record);
        committed, starts := committed + [record], starts + [sent];
      }
      WrapOfNext(sent, bytes, modulus);
      room := room - bytes;
      sent := sent + bytes;
      written := Wrapped(written + bytes, modulus);
      publishedWrite := written;
    }

    // -------------------------------------------------------------- the consumer

    /** The oldest record not consumed: found exactly when there is one, whole and as it was committed. */
    method Peek() returns (at: Option<nat>)
      requires Valid()
      modifies this`cachedWrite, this`seenSent, this`seenRecords
      ensures Valid()
      ensures at.Some? <==> |received| < |committed|
      ensures at.Some? ==> |received| < seenRecords && at.value == Place(taken, capacity)
      ensures at.Some? ==> var record := committed[|received|];
                at.value + |record| <= storage.Length && storage[at.value..at.value + |record|] == record
    {
      hide Wrapped, Place, Minus, Laid, HoldsFrom;
      StartsAscend(starts, committed, sent, |received|, seenRecords);
      StartsAscend(starts, committed, sent, |received|, |starts|);
      WrapKeepsDistance(seenSent, taken, modulus);
      if read == cachedWrite {
        cachedWrite := publishedWrite;
        seenSent, seenRecords := sent, |committed|;
        WrapKeepsDistance(sent, taken, modulus);
        if read == cachedWrite {
          return None;
        }
      }
      WrapKeepsPlace(taken, modulus, capacity);
      assert |received| < |committed|;
      HoldsFirst(storage[..], capacity, starts, committed, sent, |received|);
      return Some(Place(read, capacity));
    }

    /** The consumer reads byte `i` of the record it looks at. */
    method Load(i: nat) returns (b: byte)
      requires Valid() && |received| < |committed| && i < |committed[|received|]|
      ensures b == committed[|received|][i]
    {
      hide Wrapped, Place, Minus, Laid, HoldsFrom;
      WrapKeepsPlace(taken, modulus, capacity);
      HoldsFirst(storage[..], capacity, starts, committed, sent, |received|);
      ghost var p, record := Place(taken, capacity), committed[|received|];
      assert storage[..][p..p + |record|][i] == storage[p + i];
      b := storage[Place(read, capacity) + i];
    }

    /** One whole record is consumed; what its bytes were in the storage is what was committed. */
    method Consume(bytes: nat)
      requires Valid() && |received| < seenRecords && bytes == |committed[|received|]|
      modifies this`read, this`taken, this`received, this`publishedRead, this`freed
      ensures Valid()
      ensures taken == old(taken) + bytes && received == old(received) + [committed[|old(received)|]]
      ensures freed == old(freed) || freed == taken
    {
      hide Wrapped, Place, Minus, Laid, HoldsFrom;
      HoldsFirst(storage[..], capacity, starts, committed, sent, |received|);
      StartsAscend(starts, committed, sent, |received| + 1, seenRecords);
      StartsAscend(starts, committed, sent, seenRecords, |starts|);
      WrapOfNext(taken, bytes, modulus);
      received := received + [storage[Place(taken, capacity)..Place(taken, capacity) + bytes]];
      taken := taken + bytes;
      read := Wrapped(read + bytes, modulus);
      WrapKeepsDistance(seenSent, taken, modulus);
      WrapKeepsDistance(taken, freed, modulus);
      if read == cachedWrite || Minus(read, publishedRead, modulus) >= capacity / 4 {
        publishedRead := read;
        freed := taken;
      }
    }

    /** The consumer gives back what it consumed, whenever it likes. */
    method Release()
      requires Valid()
      modifies this`publishedRead, this`freed
      ensures Valid() && freed == taken
    {
      hide Wrapped, Place, Minus, Laid, HoldsFrom;
      publishedRead := read;
      freed := taken;
    }

    /** Once everything committed is consumed, the whole capacity is free; at any time less than a quarter is held back. */
    lemma {:induction false} EmptyOffersAll()
      requires Valid()
      ensures |received| == |committed| ==> capacity - (sent - freed) == capacity
      ensures capacity - (sent - freed) > capacity - (sent - taken) - capacity / 4
    {
      StartsAscend(starts, committed, sent, |received|, |starts|);
    }
  }
}
