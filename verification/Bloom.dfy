/** Bloom filters: bits are only ever set, so an inserted key is never reported absent. */
module Blooms {
  import opened Bytes
  import opened Wrappers
  import opened Crc

  /** A filter as a value. */
  datatype Filter = Filter(bits: seq<bv8>, hashCount: nat)

  const MAX_HASHES: nat := 16

  ghost predicate Proper(f: Filter)
  {
    0 < |f.bits| < U32_LIMIT && 1 <= f.hashCount <= MAX_HASHES
  }

  /** The `i`th probe of a key with hash pair `h`: 64-bit wrap-around, then the bit count. */
  function Probe(h: (u64, u64), i: nat, bitCount: nat): (index: nat)
    requires bitCount > 0
    ensures index < bitCount
  {
    ((h.0 + i * h.1 % U64_LIMIT) % U64_LIMIT) % bitCount
  }

  /** The probes walk from the first hash in steps of the second: 64-bit wrap-around once is wrap-around throughout. */
  lemma ProbeWalks(h: (u64, u64), i: nat, bitCount: nat)
    requires bitCount > 0
    ensures Probe(h, 0, bitCount) == h.0 % bitCount
    ensures Probe(h, i, bitCount) == (h.0 + i * h.1) % 0x1_0000_0000_0000_0000 % bitCount
  {
    hide Probe, Walked;
    FirstProbe(h, bitCount);
    ProbeIs(h, i, bitCount);
    WrappedWalk(h.0, i * h.1);
  }

  lemma ProbeIs(h: (u64, u64), i: nat, bitCount: nat)
    requires bitCount > 0
    ensures Probe(h, i, bitCount) == Walked(h.0, i * h.1) % bitCount
  {
  }

  /** One step of the walk, wrapping as the code does. */
  function Walked(first: u64, distance: nat): u64
  {
    (first + distance % U64_LIMIT) % U64_LIMIT
  }

  lemma WrappedWalk(first: u64, distance: nat)
    ensures Walked(first, distance) == (first + distance) % 0x1_0000_0000_0000_0000
  {
    WrapOnce(first, distance, U64_LIMIT);
  }

  lemma FirstProbe(h: (u64, u64), bitCount: nat)
    requires bitCount > 0
    ensures Probe(h, 0, bitCount) == h.0 % bitCount
  {
    assert 0 * h.1 == 0;
    QuotientIs(0, U64_LIMIT, 0, 0);
    QuotientIs(h.0, U64_LIMIT, 0, h.0);
  }

  lemma WrapOnce(a: nat, b: nat, m: nat)
    requires m > 0
    ensures (a + b % m) % m == (a + b) % m
  {
    var q, r := Divided(b, m);
    var x, y := Divided(a + r, m);
    Distributed(m, x, q);
    QuotientIs(a + b, m, x + q, y);
  }

  lemma Divided(n: nat, m: nat) returns (q: nat, r: nat)
    requires m > 0
    ensures n == m * q + r && r < m && r == n % m
  {
    q, r := n / m, n % m;
  }

  lemma Distributed(m: nat, x: nat, q: nat)
    ensures m * (x + q) == m * x + m * q
  {
  }

  function Bit(b: bv8, k: nat): bool
    requires k < 8
  {
    b & (1 << k) != 0
  }

  function WithBit(b: bv8, k: nat): bv8
    requires k < 8
  {
    b | (1 << k)
  }

  lemma WithBitSets(b: bv8, k: nat, j: nat)
    requires k < 8 && j < 8
    ensures Bit(WithBit(b, k), j) <==> j == k || Bit(b, j)
  {
  }

  function BitAt(bits: seq<bv8>, index: nat): bool
    requires index < 8 * |bits|
  {
    Bit(bits[index / 8], index % 8)
  }

  function SetAt(bits: seq<bv8>, index: nat): (r: seq<bv8>)
    requires index < 8 * |bits|
    ensures |r| == |bits|
  {
    bits[index / 8 := WithBit(bits[index / 8], index % 8)]
  }

  lemma SetAtSets(bits: seq<bv8>, index: nat, other: nat)
    requires index < 8 * |bits| && other < 8 * |bits|
    ensures BitAt(SetAt(bits, index), other) <==> other == index || BitAt(bits, other)
  {
    hide Bit, WithBit;
    WithBitSets(bits[index / 8], index % 8, other % 8);
  }

  /** Bits are counted from the least significant one of the first byte. */
  lemma BitOrder(k: nat)
    requires k < 8
    ensures WithBit(0, k) == [1, 2, 4, 8, 16, 32, 64, 128][k]
    ensures SetAt([0, 0, 0], 0) == [1, 0, 0] && SetAt([0, 0, 0], 9) == [0, 2, 0] && SetAt([0, 0, 0], 23) == [0, 0, 128]
  {
    OneBit(0);
    OneBit(1);
    OneBit(7);
    OneBit(k);
  }

  lemma OneBit(k: nat)
    requires k < 8
    ensures WithBit(0, k) == [1, 2, 4, 8, 16, 32, 64, 128][k]
  {
    assert WithBit(0, 0) == 1 && WithBit(0, 1) == 2 && WithBit(0, 2) == 4 && WithBit(0, 3) == 8;
    assert WithBit(0, 4) == 16 && WithBit(0, 5) == 32 && WithBit(0, 6) == 64 && WithBit(0, 7) == 128;
  }

  /** The bits after the first `n` probes of a key. */
  function Probed(bits: seq<bv8>, h: (u64, u64), n: nat): (r: seq<bv8>)
    requires bits != []
    ensures |r| == |bits|
  {
    if n == 0 then bits
    else
      var r := Probed(bits, h, n - 1);
      SetAt(r, Probe(h, n - 1, 8 * |bits|))
  }

  /** Exactly the probed bits are added. */
  lemma {:induction false} ProbedSets(bits: seq<bv8>, h: (u64, u64), n: nat, index: nat)
    requires bits != [] && index < 8 * |bits|
    ensures BitAt(Probed(bits, h, n), index) <==>
              BitAt(bits, index) || exists i: nat :: i < n && index == Probe(h, i, 8 * |bits|)
  {
    hide BitAt, SetAt, Probe;
    if n == 0 {
    } else {
      ProbedSets(bits, h, n - 1, index);
      var last := Probe(h, n - 1, 8 * |bits|);
      SetAtSets(Probed(bits, h, n - 1), last, index);
      if exists i: nat :: i < n && index == Probe(h, i, 8 * |bits|) {
        var i: nat :| i < n && index == Probe(h, i, 8 * |bits|);
        assert i == n - 1 || i < n - 1;
      }
    }
  }

  function Inserted(f: Filter, h: (u64, u64)): Filter
    requires f.bits != []
  {
    f.(bits := Probed(f.bits, h, f.hashCount))
  }

  ghost predicate AllSet(bits: seq<bv8>, h: (u64, u64), n: nat)
    requires bits != []
  {
    forall i: nat :: i < n ==> BitAt(bits, Probe(h, i, 8 * |bits|))
  }

  ghost predicate MightHold(f: Filter, h: (u64, u64))
  {
    f.bits != [] && AllSet(f.bits, h, f.hashCount)
  }

  /** A key is reported after its own insertion, and stays reported after any other. */
  lemma InsertedHolds(f: Filter, h: (u64, u64), g: (u64, u64))
    requires f.bits != []
    ensures MightHold(Inserted(f, h), h)
    ensures MightHold(f, g) ==> MightHold(Inserted(f, h), g)
  {
    hide BitAt, Probe, Probed;
    var r := Inserted(f, h);
    forall i: nat, x: (u64, u64) | i < f.hashCount
      ensures BitAt(f.bits, Probe(x, i, 8 * |f.bits|)) || x == h ==> BitAt(r.bits, Probe(x, i, 8 * |r.bits|))
    {
      ProbedSets(f.bits, h, f.hashCount, Probe(x, i, 8 * |f.bits|));
    }
  }

  // ----- the stored form -----

  function Unpack(bits: seq<bv8>): (bytes: seq<byte>)
    ensures |bytes| == |bits|
  {
    seq(|bits|, i requires 0 <= i < |bits| => bits[i] as int)
  }

  function Pack(bytes: seq<byte>): (bits: seq<bv8>)
    ensures |bits| == |bytes|
  {
    seq(|bytes|, i requires 0 <= i < |bytes| => bytes[i] as bv8)
  }

  lemma PackInverse(bits: seq<bv8>, bytes: seq<byte>)
    ensures Pack(Unpack(bits)) == bits && Unpack(Pack(bytes)) == bytes
  {
    forall i | 0 <= i < |bits|
      ensures Pack(Unpack(bits))[i] == bits[i]
    {
      BitsAsByte(bits[i]);
    }
    forall i | 0 <= i < |bytes|
      ensures Unpack(Pack(bytes))[i] == bytes[i]
    {
      ByteAsBits(bytes[i]);
    }
  }

  function Body(f: Filter): (b: seq<byte>)
    requires f.hashCount < U32_LIMIT
    ensures |b| == 8 + |f.bits|
  {
    U32Bytes(f.hashCount) + U32Bytes(|f.bits| % U32_LIMIT) + Unpack(f.bits)
  }

  function Encode(f: Filter): (b: seq<byte>)
    requires f.hashCount < U32_LIMIT
    ensures |b| == 12 + |f.bits|
  {
    Body(f) + U32Bytes(Crc32(Body(f)))
  }

  function Decode(bytes: seq<byte>): Result<Filter>
  {
    if |bytes| < 12 then Err(CorruptedRecord) else
    var hashCount := ReadU32(bytes[0..4]);
    var bitLen := ReadU32(bytes[4..8]);
    if hashCount == 0 || hashCount > MAX_HASHES then Err(CorruptedRecord) else
    if |bytes| != 8 + bitLen + 4 then Err(CorruptedRecord) else
    if Crc32(bytes[..8 + bitLen]) != ReadU32(bytes[8 + bitLen..]) then Err(InvalidChecksum) else
    Ok(Filter(Pack(bytes[8..8 + bitLen]), hashCount))
  }

  /** What was stored is what is read, exactly for the filters whose length fits its 32-bit field. */
  lemma DecodeEncoded(f: Filter)
    requires 1 <= f.hashCount <= MAX_HASHES
    ensures |f.bits| < U32_LIMIT <==> Decode(Encode(f)) == Ok(f)
    ensures |f.bits| >= U32_LIMIT ==> Decode(Encode(f)) == Err(CorruptedRecord)
  {
    hide Crc32, U32Bytes, ReadU32, Pack, Unpack;
    var bytes, body := Encode(f), Body(f);
    assert bytes[0..4] == U32Bytes(f.hashCount);
    assert bytes[4..8] == U32Bytes(|f.bits| % U32_LIMIT);
    U32RoundTrip(f.hashCount);
    U32RoundTrip(|f.bits| % U32_LIMIT);
    if |f.bits| < U32_LIMIT {
      assert bytes[..8 + |f.bits|] == body;
      assert bytes[8 + |f.bits|..] == U32Bytes(Crc32(body));
      U32RoundTrip(Crc32(body));
      assert bytes[8..8 + |f.bits|] == Unpack(f.bits);
      PackInverse(f.bits, []);
    }
  }

  /** Accepted bytes are the encoding of what they decode to. */
  lemma EncodeDecoded(bytes: seq<byte>)
    requires Decode(bytes).Ok?
    ensures var f := Decode(bytes).value; f.hashCount < U32_LIMIT && Encode(f) == bytes
  {
    hide Crc32, U32Bytes, ReadU32, Pack, Unpack;
    var f := Decode(bytes).value;
    var n := |f.bits|;
    U32Canonical(bytes[0..4]);
    U32Canonical(bytes[4..8]);
    U32Canonical(bytes[8 + n..]);
    PackInverse([], bytes[8..8 + n]);
    assert bytes[..8 + n] == bytes[0..4] + bytes[4..8] + bytes[8..8 + n];
    assert bytes == bytes[..8 + n] + bytes[8 + n..];
  }

  // ----- histories -----

  datatype Event = Insertion(h: (u64, u64)) | Reload

  /** The filter after a history of insertions and trips through the file. */
  function History(f: Filter, events: seq<Event>): Result<Filter>
    requires Proper(f)
    decreases |events|
  {
    if events == [] then Ok(f)
    else match events[0]
      case Insertion(h) => History(Inserted(f, h), events[1..])
      case Reload =>
        DecodeEncoded(f);
        History(Decode(Encode(f)).value, events[1..])
  }

  /** No history loses the filter, and none makes it forget a key. */
  lemma {:induction false} NoFalseNegatives(f: Filter, events: seq<Event>, h: (u64, u64))
    requires Proper(f)
    requires MightHold(f, h) || Insertion(h) in events
    ensures History(f, events).Ok? && MightHold(History(f, events).value, h)
    decreases |events|
  {
    hide MightHold, Encode, Decode, Probed;
    if events == [] {
    } else {
      var next := if events[0].Insertion? then Inserted(f, events[0].h) else f;
      if events[0].Insertion? {
        InsertedHolds(f, events[0].h, h);
      } else {
        DecodeEncoded(f);
      }
      NoFalseNegatives(next, events[1..], h);
    }
  }

  /** The filter while it is being filled; `hash` is the given pair of 64-bit hashes. */
  class BloomFilter {
    const bits: array<bv8>
    const hashCount: nat

    ghost function View(): Filter
      reads this, bits
    {
      Filter(bits[..], hashCount)
    }

    constructor (byteCount: nat, hashCount: nat)
      ensures fresh(bits) && View() == Filter(seq(byteCount, i => 0), hashCount)
    {
      bits := new bv8[byteCount](i => 0);
      this.hashCount := hashCount;
    }

    method Insert(hash: Key -> (u64, u64), key: Key)
      requires bits.Length > 0
      modifies bits
      ensures View() == Inserted(old(View()), hash(key))
    {
      hide BitAt, Probe, WithBit;
      var bitCount := bits.Length * 8;
      var h := hash(key);
      for i := 0 to hashCount
        invariant bits[..] == Probed(old(bits[..]), h, i)
      {
        var index := Probe(h, i, bitCount);
        bits[index / 8] := WithBit(bits[index / 8], index % 8);
      }
    }
  }

  /** The lookup loop stops at the first bit that is not set. */
  method MightContain(f: Filter, hash: Key -> (u64, u64), key: Key) returns (r: bool)
    ensures r <==> MightHold(f, hash(key))
    ensures r <==> f.bits != [] && forall i: nat :: i < f.hashCount ==>
              BitAt(f.bits, Probe(hash(key), i, 8 * |f.bits|))
  {
    hide Bit, Probe;
    if f.bits == [] {
      return false;
    }
    var bitCount := |f.bits| * 8;
    var h := hash(key);
    for i := 0 to f.hashCount
      invariant AllSet(f.bits, h, i)
    {
      var index := Probe(h, i, bitCount);
      if !Bit(f.bits[index / 8], index % 8) {
        assert !BitAt(f.bits, Probe(h, i, 8 * |f.bits|));
        return false;
      }
    }
    return true;
  }
}
