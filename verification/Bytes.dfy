/** Bytes, byte strings, their order, and the little-endian integers of every on-disk format. */
module Bytes {

  type byte = x: int | 0 <= x < 256
  type Key = seq<byte>

  const U32_LIMIT: nat := 0x1_0000_0000
  const U64_LIMIT: nat := 0x1_0000_0000_0000_0000

  type u32 = x: nat | x < U32_LIMIT
  type u64 = x: nat | x < U64_LIMIT

  /** Slice comparison: the first differing byte decides, a proper prefix comes first. */
  predicate Lt(a: Key, b: Key)
  {
    b != [] && (a == [] || a[0] < b[0] || (a[0] == b[0] && Lt(a[1..], b[1..])))
  }

  predicate Le(a: Key, b: Key)
  {
    !Lt(b, a)
  }

  /** The order the code's byte slices have: a proper prefix comes first, else the first byte that differs decides. */
  lemma {:induction false} LtFirstDifference(a: Key, b: Key)
    ensures Lt(a, b) <==>
            || (|a| < |b| && a == b[..|a|])
            || exists i :: 0 <= i < |a| && i < |b| && a[..i] == b[..i] && a[i] < b[i]
  {
    if a == [] || b == [] {
    } else {
      var x, y := a[1..], b[1..];
      LtFirstDifference(x, y);
      assert a == [a[0]] + x && b == [b[0]] + y;
      if Lt(a, b) {
        if a[0] < b[0] {
          assert a[..0] == b[..0];
        } else if |x| < |y| && x == y[..|x|] {
          assert b[..|a|] == [b[0]] + y[..|x|];
        } else {
          var i :| 0 <= i < |x| && i < |y| && x[..i] == y[..i] && x[i] < y[i];
          assert a[..i + 1] == [a[0]] + x[..i] && b[..i + 1] == [b[0]] + y[..i];
          assert a[i + 1] < b[i + 1];
        }
      } else {
        PrefixTail(a, b);
      }
    }
  }

  lemma PrefixTail(a: Key, b: Key)
    requires a != [] && b != []
    ensures |a| < |b| && a == b[..|a|] ==> a[0] == b[0] && a[1..] == b[1..][..|a| - 1]
    ensures forall i :: 0 < i < |a| && i < |b| && a[..i] == b[..i] && a[i] < b[i] ==>
              a[0] == b[0] && a[1..][..i - 1] == b[1..][..i - 1] && a[1..][i - 1] < b[1..][i - 1]
  {
    if |a| < |b| && a == b[..|a|] {
      assert b[1..][..|a| - 1] == b[..|a|][1..];
    }
    forall i | 0 < i < |a| && i < |b| && a[..i] == b[..i]
      ensures a[0] == b[0] && a[1..][..i - 1] == b[1..][..i - 1]
    {
      assert a[0] == a[..i][0] && b[0] == b[..i][0];
      assert a[1..][..i - 1] == a[..i][1..] && b[1..][..i - 1] == b[..i][1..];
    }
  }

  // A byte string read as the digits of a number in [0, 1), in base 257 with a
  // missing digit counting as zero. Slice order is the order of these numbers.
  ghost function Rank(a: Key): (r: real)
    ensures 0.0 <= r < 1.0
    ensures a != [] ==> 0.0 < r
  {
    if a == [] then 0.0 else (a[0] as real + 1.0 + Rank(a[1..])) / 257.0
  }

  lemma {:induction false} LtIsRankOrder(a: Key, b: Key)
    ensures Lt(a, b) <==> Rank(a) < Rank(b)
    ensures a == b <==> Rank(a) == Rank(b)
  {
    if a != [] && b != [] {
      LtIsRankOrder(a[1..], b[1..]);
      if a[0] == b[0] {
        assert a == [a[0]] + a[1..] && b == [b[0]] + b[1..];
      } else if a[0] < b[0] {
        assert a[0] as real + 1.0 <= b[0] as real;
      } else {
        assert b[0] as real + 1.0 <= a[0] as real;
      }
    }
  }

  /** Slice order is the order of ranks. */
  lemma KeyOrder()
    ensures forall a: Key, b: Key {:trigger Lt(a, b)} :: Lt(a, b) <==> Rank(a) < Rank(b)
  {
    forall a: Key, b: Key
      ensures Lt(a, b) <==> Rank(a) < Rank(b)
    {
      LtIsRankOrder(a, b);
    }
  }

  /** Slice order is a strict total order with the empty string as least element. */
  lemma LtTrichotomy(a: Key, b: Key, c: Key)
    ensures Lt(a, b) || a == b || Lt(b, a)
    ensures !(Lt(a, b) && Lt(b, a)) && !Lt(a, a)
    ensures Lt(a, b) && Lt(b, c) ==> Lt(a, c)
    ensures a != [] ==> Lt([], a)
  {
    KeyOrder();
    LtIsRankOrder(a, b);
  }

  /** `n` as `width` little-endian bytes. */
  function LittleEndian(n: nat, width: nat): (bytes: seq<byte>)
    ensures |bytes| == width
  {
    if width == 0 then [] else [n % 256] + LittleEndian(n / 256, width - 1)
  }

  function ReadLittleEndian(bytes: seq<byte>): nat
  {
    if bytes == [] then 0 else bytes[0] + 256 * ReadLittleEndian(bytes[1..])
  }

  function Power256(width: nat): (p: nat)
    ensures p > 0
  {
    if width == 0 then 1 else 256 * Power256(width - 1)
  }

  lemma {:induction false} ReadWritten(n: nat, width: nat)
    requires n < Power256(width)
    ensures ReadLittleEndian(LittleEndian(n, width)) == n
  {
    if width == 0 {
    } else {
      ReadWritten(n / 256, width - 1);
      assert LittleEndian(n, width)[1..] == LittleEndian(n / 256, width - 1);
    }
  }

  lemma LowDigit(digit: byte, rest: nat)
    ensures (digit + 256 * rest) % 256 == digit && (digit + 256 * rest) / 256 == rest
  {
  }

  lemma {:induction false} WrittenRead(bytes: seq<byte>)
    ensures ReadLittleEndian(bytes) < Power256(|bytes|)
    ensures LittleEndian(ReadLittleEndian(bytes), |bytes|) == bytes
  {
    if bytes == [] {
    } else {
      WrittenRead(bytes[1..]);
      LowDigit(bytes[0], ReadLittleEndian(bytes[1..]));
      assert bytes == [bytes[0]] + bytes[1..];
    }
  }

  lemma Powers()
    ensures Power256(4) == U32_LIMIT && Power256(8) == U64_LIMIT
  {
    assert Power256(2) == 0x1_0000;
    assert Power256(4) == 0x1_0000 * Power256(2);
    assert Power256(6) == 0x1_0000 * Power256(4);
    assert Power256(8) == 0x1_0000 * Power256(6);
  }

  /** Byte `i` of a stored number is its digit of weight `256^i`: the least significant byte comes first. */
  lemma {:induction false} LittleEndianDigit(n: nat, width: nat, i: nat)
    requires i < width
    ensures LittleEndian(n, width)[i] == n / Power256(i) % 256
  {
    if i == 0 {
    } else {
      LittleEndianDigit(n / 256, width - 1, i - 1);
      DividedTwice(n, Power256(i - 1));
    }
  }

  lemma DividedTwice(n: nat, p: nat)
    requires p > 0
    ensures n / 256 / p == n / (256 * p)
  {
    var q, r := n / 256 / p, n / 256 % p;
    assert n / 256 == q * p + r;
    var low := n % 256;
    assert n == 256 * (q * p + r) + low;
    assert n == (256 * p) * q + (256 * r + low);
    assert 0 <= 256 * r + low < 256 * p;
    QuotientIs(n, 256 * p, q, 256 * r + low);
  }

  lemma {:induction false} StepUp(d: nat, x: nat, y: nat)
    ensures x < y ==> d * x + d <= d * y
  {
    if x < y {
      assert d * y == d * (y - 1) + d;
      StepUp(d, x, y - 1);
    }
  }

  lemma QuotientIs(n: nat, d: nat, q: nat, r: nat)
    requires d > 0 && n == d * q + r && r < d
    ensures n / d == q && n % d == r
  {
    var x := n / d;
    assert n == d * x + n % d;
    StepUp(d, x, q);
    StepUp(d, q, x);
  }

  /** `to_le_bytes` and the readers of src/crc.rs, at the two widths in use. */
  function U32Bytes(n: u32): (bytes: seq<byte>)
    ensures |bytes| == 4
  {
    LittleEndian(n, 4)
  }

  function U64Bytes(n: u64): (bytes: seq<byte>)
    ensures |bytes| == 8
  {
    LittleEndian(n, 8)
  }

  function ReadU32(bytes: seq<byte>): (n: u32)
    requires |bytes| == 4
  {
    WrittenRead(bytes);
    Powers();
    ReadLittleEndian(bytes)
  }

  function ReadU64(bytes: seq<byte>): (n: u64)
    requires |bytes| == 8
  {
    WrittenRead(bytes);
    Powers();
    ReadLittleEndian(bytes)
  }

  lemma U32RoundTrip(n: u32)
    ensures ReadU32(U32Bytes(n)) == n
  {
    Powers();
    ReadWritten(n, 4);
  }

  lemma U64RoundTrip(n: u64)
    ensures ReadU64(U64Bytes(n)) == n
  {
    Powers();
    ReadWritten(n, 8);
  }

  lemma U32Canonical(bytes: seq<byte>)
    requires |bytes| == 4
    ensures U32Bytes(ReadU32(bytes)) == bytes
  {
    WrittenRead(bytes);
  }
}
