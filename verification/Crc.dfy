/** CRC32 (IEEE 802.3, reflected) and the errors it always detects. */
module Crc {
  import opened Bytes

  const POLYNOMIAL: bv32 := 0xEDB8_8320

  /** One step of the register: `mask` is all ones when the low bit is set. */
  function Shift(crc: bv32): bv32
  {
    var mask := 0 - (crc & 1);
    (crc >> 1) ^ (POLYNOMIAL & mask)
  }

  function Xor(a: bv32, b: bv32): bv32
  {
    a ^ b
  }

  function Shifted(crc: bv32, steps: nat): bv32
  {
    if steps == 0 then crc else Shift(Shifted(crc, steps - 1))
  }

  function Widened(b: byte): bv32
  {
    (b as bv8) as bv32
  }

  /** The register after `bytes`. */
  function Register(crc: bv32, bytes: seq<byte>): bv32
  {
    if bytes == [] then crc
    else Shifted(Xor(Register(crc, bytes[..|bytes| - 1]), Widened(bytes[|bytes| - 1])), 8)
  }

  const START: bv32 := 0xFFFF_FFFF

  function Complement(x: bv32): bv32
  {
    !x
  }

  /** A register as the unsigned number it is stored as. */
  function Unsigned(x: bv32): u32
  {
    x as nat
  }

  lemma SignlessRoundTrip(x: bv32)
    ensures (x as nat) as bv32 == x
  {
  }

  lemma UnsignedInjective(x: bv32, y: bv32)
    requires Unsigned(x) == Unsigned(y)
    ensures x == y
  {
    SignlessRoundTrip(x);
    SignlessRoundTrip(y);
  }

  function Crc32(bytes: seq<byte>): u32
  {
    Unsigned(Complement(Register(START, bytes)))
  }

  method ComputeCrc32(bytes: seq<byte>) returns (crc: bv32)
    ensures Unsigned(crc) == Crc32(bytes)
  {
    hide Unsigned, Shifted, Xor, Widened;
    crc := START;
    for i := 0 to |bytes|
      invariant crc == Register(START, bytes[..i])
    {
      assert bytes[..i + 1][..i] == bytes[..i];
      crc := ComputeByte(crc, bytes[i]);
    }
    assert bytes[..|bytes|] == bytes;
    crc := !crc;
  }

  /** The inner loop: one byte into the register. */
  method ComputeByte(register: bv32, b: byte) returns (crc: bv32)
    ensures crc == Shifted(Xor(register, Widened(b)), 8)
  {
    crc := register ^ Widened(b);
    ghost var start := crc;
    for n := 0 to 8
      invariant crc == Shifted(start, n)
    {
      var mask := 0 - (crc & 1);
      crc := (crc >> 1) ^ (POLYNOMIAL & mask);
    }
  }

  // ----- the register is linear and loses nothing -----

  lemma ShiftInjective(a: bv32, b: bv32)
    requires Shift(a) == Shift(b)
    ensures a == b
  {
  }

  lemma XorShift(a: bv32, b: bv32)
    ensures (a ^ b) >> 1 == (a >> 1) ^ (b >> 1)
    ensures (a ^ b) & 1 == (a & 1) ^ (b & 1)
    ensures a & 1 == 0 || a & 1 == 1
  {
  }

  lemma XorRegroup(a: bv32, b: bv32, p: bv32)
    ensures (a ^ p) ^ (b ^ p) == a ^ b
    ensures (a ^ p) ^ b == (a ^ b) ^ p
    ensures a ^ (b ^ p) == (a ^ b) ^ p
  {
  }

  lemma ShiftLinearBits(a: bv32, b: bv32)
    ensures Shift(a ^ b) == Shift(a) ^ Shift(b)
  {
    XorShift(a, b);
    XorShift(b, a);
    XorRegroup(a >> 1, b >> 1, POLYNOMIAL);
  }

  lemma ShiftLinear(a: bv32, b: bv32)
    ensures Shift(Xor(a, b)) == Xor(Shift(a), Shift(b))
  {
    hide Shift;
    ShiftLinearBits(a, b);
  }

  lemma {:induction false} ShiftedLinear(a: bv32, b: bv32, steps: nat)
    ensures Shifted(Xor(a, b), steps) == Xor(Shifted(a, steps), Shifted(b, steps))
  {
    hide Shift, Xor;
    if steps == 0 {
    } else {
      ShiftedLinear(a, b, steps - 1);
      ShiftLinear(Shifted(a, steps - 1), Shifted(b, steps - 1));
    }
  }

  lemma {:induction false} ShiftedInjective(a: bv32, b: bv32, steps: nat)
    requires Shifted(a, steps) == Shifted(b, steps)
    ensures a == b
  {
    hide Shift;
    if steps == 0 {
    } else {
      ShiftInjective(Shifted(a, steps - 1), Shifted(b, steps - 1));
      ShiftedInjective(a, b, steps - 1);
    }
  }

  lemma {:induction false} ShiftedSum(a: bv32, m: nat, n: nat)
    ensures Shifted(Shifted(a, m), n) == Shifted(a, m + n)
  {
    hide Shift;
    if n == 0 {
    } else {
      ShiftedSum(a, m, n - 1);
    }
  }

  function Double(z: bv32): bv32
  {
    z << 1
  }

  function Doubled(y: bv32, times: nat): bv32
  {
    if times == 0 then y else Double(Doubled(y, times - 1))
  }

  lemma ShiftUndoesDouble(z: bv32)
    requires z <= 0x7FFF_FFFF
    ensures Shift(Double(z)) == z
  {
  }

  /** Steps undo doublings that lose no bits. */
  lemma {:induction false} ShiftedUndoesDoubled(y: bv32, times: nat)
    requires forall i: nat :: i < times ==> Doubled(y, i) <= 0x7FFF_FFFF
    ensures Shifted(Doubled(y, times), times) == y
  {
    hide Shift, Double;
    if times == 0 {
    } else {
      var x := Doubled(y, times);
      ShiftUndoesDouble(Doubled(y, times - 1));
      assert Shifted(x, 0) == x && Shifted(x, 1) == Doubled(y, times - 1);
      ShiftedSum(x, 1, times - 1);
      ShiftedUndoesDoubled(y, times - 1);
    }
  }

  lemma DoubledByte(y: bv32)
    requires y <= 0xFF_FFFF
    ensures Doubled(y, 8) == y << 8
    ensures forall i: nat :: i < 8 ==> Doubled(y, i) <= 0x7FFF_FFFF
  {
    assert Doubled(y, 0) == y;
    assert Doubled(y, 1) == y << 1;
    assert Doubled(y, 2) == y << 2;
    assert Doubled(y, 3) == y << 3;
    assert Doubled(y, 4) == y << 4;
    assert Doubled(y, 5) == y << 5;
    assert Doubled(y, 6) == y << 6;
    assert Doubled(y, 7) == y << 7;
  }

  /** A byte's worth of steps undoes a shift by one byte that lost no bits. */
  lemma ShiftedUp(y: bv32)
    requires y <= 0xFF_FFFF
    ensures Shifted(y << 8, 8) == y
  {
    hide Shift, Shifted, Doubled;
    DoubledByte(y);
    ShiftedUndoesDoubled(y, 8);
  }

  // ----- four bytes as one word -----

  /** A byte moved up `k` byte positions. */
  function Lane(x: bv32, k: nat): bv32
  {
    if k == 0 then x else if k == 1 then x << 8 else if k == 2 then x << 16 else x << 24
  }

  function Word(bytes: seq<byte>): bv32
  {
    if bytes == [] then 0
    else Xor(Word(bytes[..|bytes| - 1]), Lane(Widened(bytes[|bytes| - 1]), |bytes| - 1))
  }

  lemma LaneUp(x: bv32, k: nat)
    requires x <= 0xFF && 0 < k <= 3
    ensures Lane(x, k) == Lane(x, k - 1) << 8 && Lane(x, k - 1) <= 0xFF_FFFF
  {
  }

  lemma {:induction false} ShiftedLane(x: bv32, k: nat)
    requires x <= 0xFF && k <= 3
    ensures Shifted(Lane(x, k), 8 * k) == x
  {
    hide Shifted;
    if k > 0 {
      hide Lane;
      LaneUp(x, k);
      ShiftedUp(Lane(x, k - 1));
      ShiftedSum(Lane(x, k), 8, 8 * (k - 1));
      ShiftedLane(x, k - 1);
    } else {
      NoSteps(x);
    }
  }

  lemma WidenedSmall(b: byte)
    ensures Widened(b) <= 0xFF
  {
  }

  lemma XorLaws(a: bv32, b: bv32, c: bv32)
    ensures Xor(Xor(a, b), c) == Xor(a, Xor(b, c))
    ensures Xor(a, 0) == a
    ensures Xor(a, b) == Xor(a, c) ==> b == c
  {
  }

  /** Up to four bytes act on the register as one word. */
  lemma {:induction false} RegisterWord(crc: bv32, bytes: seq<byte>)
    requires |bytes| <= 4
    ensures Register(crc, bytes) == Shifted(Xor(crc, Word(bytes)), 8 * |bytes|)
  {
    hide Shifted, Xor, Widened, Lane;
    if bytes == [] {
      XorLaws(crc, 0, 0);
      NoSteps(crc);
    } else {
      var n := |bytes| - 1;
      var rest, b := bytes[..n], bytes[n];
      RegisterWord(crc, rest);
      var lane := Lane(Widened(b), n);
      WidenedSmall(b);
      ShiftedLane(Widened(b), n);
      ShiftedLinear(Xor(crc, Word(rest)), lane, 8 * n);
      ShiftedSum(Xor(Xor(crc, Word(rest)), lane), 8 * n, 8);
      XorLaws(crc, Word(rest), lane);
    }
  }

  lemma NoSteps(crc: bv32)
    ensures Shifted(crc, 0) == crc
  {
  }

  lemma WidenedInjective(a: byte, b: byte)
    requires Widened(a) == Widened(b)
    ensures a == b
  {
    SameLowByte(a as bv8, b as bv8);
    ByteAsBits(a);
    ByteAsBits(b);
  }

  /** The bit vector `a` steps above zero. */
  function Counted(a: nat): bv8
  {
    if a == 0 then 0 else Counted(a - 1) + 1
  }

  lemma NextByte(x: bv8)
    requires x != 255
    ensures (x + 1) as int == x as int + 1
  {
  }

  lemma BitsAsByte(b: bv8)
    ensures (b as int) as bv8 == b
  {
  }

  lemma {:induction false} CountedIs(a: nat)
    requires a < 256
    ensures Counted(a) as int == a && (a == 255 || Counted(a) != 255)
  {
    if a == 0 {
    } else {
      CountedIs(a - 1);
      NextByte(Counted(a - 1));
    }
  }

  lemma ByteAsBits(a: int)
    requires 0 <= a < 256
    ensures (a as bv8) as int == a
  {
    CountedIs(a);
    BitsAsByte(Counted(a));
  }

  lemma SameLowByte(p: bv8, q: bv8)
    requires p as bv32 == q as bv32
    ensures p == q
  {
  }

  ghost predicate Narrow(a: bv32, n: nat)
  {
    if n == 0 then a == 0
    else if n == 1 then a <= 0xFF
    else if n == 2 then a <= 0xFFFF
    else a <= 0xFF_FFFF
  }

  lemma LanesApart(a: bv32, x: bv32, b: bv32, y: bv32, n: nat)
    requires n <= 3 && x <= 0xFF && y <= 0xFF && Narrow(a, n) && Narrow(b, n)
    requires Xor(a, Lane(x, n)) == Xor(b, Lane(y, n))
    ensures a == b && x == y
  {
  }

  lemma LaneNarrow(a: bv32, x: bv32, n: nat)
    requires n <= 2 && x <= 0xFF && Narrow(a, n)
    ensures Narrow(Xor(a, Lane(x, n)), n + 1)
  {
  }

  lemma {:induction false} WordNarrow(bytes: seq<byte>)
    requires |bytes| <= 3
    ensures Narrow(Word(bytes), |bytes|)
  {
    hide Lane, Widened, Xor;
    if bytes == [] {
    } else {
      var n := |bytes| - 1;
      WordNarrow(bytes[..n]);
      WidenedSmall(bytes[n]);
      LaneNarrow(Word(bytes[..n]), Widened(bytes[n]), n);
    }
  }

  lemma {:induction false} WordInjective(v: seq<byte>, w: seq<byte>)
    requires |v| == |w| <= 4 && Word(v) == Word(w)
    ensures v == w
  {
    hide Xor, Lane, Widened, Narrow;
    if v == [] {
    } else {
      var n := |v| - 1;
      WordNarrow(v[..n]);
      WordNarrow(w[..n]);
      WidenedSmall(v[n]);
      WidenedSmall(w[n]);
      LanesApart(Word(v[..n]), Widened(v[n]), Word(w[..n]), Widened(w[n]), n);
      WidenedInjective(v[n], w[n]);
      WordInjective(v[..n], w[..n]);
      assert v == v[..n] + [v[n]] && w == w[..n] + [w[n]];
    }
  }

  // ----- what the checksum detects -----

  lemma {:induction false} RegisterConcat(crc: bv32, a: seq<byte>, b: seq<byte>)
    ensures Register(crc, a + b) == Register(Register(crc, a), b)
  {
    hide Shifted, Xor, Widened;
    if b == [] {
      assert a + b == a;
    } else {
      assert (a + b)[..|a + b| - 1] == a + b[..|b| - 1];
      RegisterConcat(crc, a, b[..|b| - 1]);
    }
  }

  /** A difference in the register survives any further bytes. */
  lemma {:induction false} RegisterInjective(x: bv32, y: bv32, bytes: seq<byte>)
    requires Register(x, bytes) == Register(y, bytes)
    ensures x == y
  {
    hide Shifted, Xor, Widened;
    if bytes == [] {
    } else {
      var n := |bytes| - 1;
      var p, q, b := Register(x, bytes[..n]), Register(y, bytes[..n]), Widened(bytes[n]);
      ShiftedInjective(Xor(p, b), Xor(q, b), 8);
      XorCancels(p, q, b);
      RegisterInjective(x, y, bytes[..n]);
    }
  }

  lemma XorCancels(p: bv32, q: bv32, b: bv32)
    requires Xor(p, b) == Xor(q, b)
    ensures p == q
  {
  }

  lemma ComplementInjective(x: bv32, y: bv32)
    requires Complement(x) == Complement(y)
    ensures x == y
  {
  }

  /** The register tells up to four bytes apart. */
  lemma WordShows(crc: bv32, v: seq<byte>, w: seq<byte>)
    requires |v| == |w| <= 4 && Register(crc, v) == Register(crc, w)
    ensures v == w
  {
    hide Register, Shifted, Xor, Word;
    RegisterWord(crc, v);
    RegisterWord(crc, w);
    ShiftedInjective(Xor(crc, Word(v)), Xor(crc, Word(w)), 8 * |v|);
    XorLaws(crc, Word(v), Word(w));
    WordInjective(v, w);
  }

  lemma SameRegisterSameBurst(before: seq<byte>, v: seq<byte>, w: seq<byte>, after: seq<byte>)
    requires |v| == |w| <= 4
    requires Register(START, before + v + after) == Register(START, before + w + after)
    ensures v == w
  {
    hide Register;
    RegisterConcat(START, before + v, after);
    RegisterConcat(START, before + w, after);
    RegisterInjective(Register(START, before + v), Register(START, before + w), after);
    RegisterConcat(START, before, v);
    RegisterConcat(START, before, w);
    WordShows(Register(START, before), v, w);
  }

  lemma SameCrcSameBurst(before: seq<byte>, v: seq<byte>, w: seq<byte>, after: seq<byte>)
    requires |v| == |w| <= 4
    requires Crc32(before + v + after) == Crc32(before + w + after)
    ensures v == w
  {
    hide Register, Unsigned, Complement;
    var x, y := Register(START, before + v + after), Register(START, before + w + after);
    UnsignedInjective(Complement(x), Complement(y));
    ComplementInjective(x, y);
    SameRegisterSameBurst(before, v, w, after);
  }

  /** Any change confined to four consecutive bytes changes the checksum of a message of any length. */
  lemma BurstChangesCrc(before: seq<byte>, v: seq<byte>, w: seq<byte>, after: seq<byte>)
    requires |v| == |w| <= 4 && v != w
    ensures Crc32(before + v + after) != Crc32(before + w + after)
  {
    hide Crc32;
    if Crc32(before + v + after) == Crc32(before + w + after) {
      SameCrcSameBurst(before, v, w, after);
    }
  }

  // ----- a message followed by its checksum -----

  lemma AddLane0(x: bv32)
    ensures Unsigned(Xor(0, Lane(x, 0))) == Unsigned(x)
  {
  }

  lemma Disjoint1(a: bv32, x: bv32)
    requires a <= 0xFF && x <= 0xFF
    ensures Unsigned(a ^ (x << 8)) == Unsigned(a) + 0x100 * Unsigned(x)
  {
  }

  lemma Lane1(a: bv32, x: bv32)
    ensures Xor(a, Lane(x, 1)) == a ^ (x << 8)
  {
  }

  lemma AddLane1(a: bv32, x: bv32)
    requires Narrow(a, 1) && x <= 0xFF
    ensures Unsigned(Xor(a, Lane(x, 1))) == Unsigned(a) + 0x100 * Unsigned(x)
  {
    hide Unsigned, Xor, Lane;
    Lane1(a, x);
    Disjoint1(a, x);
  }

  lemma Disjoint2(a: bv32, x: bv32)
    requires a <= 0xFFFF && x <= 0xFF
    ensures Unsigned(a ^ (x << 16)) == Unsigned(a) + 0x1_0000 * Unsigned(x)
  {
  }

  lemma Lane2(a: bv32, x: bv32)
    ensures Xor(a, Lane(x, 2)) == a ^ (x << 16)
  {
  }

  lemma AddLane2(a: bv32, x: bv32)
    requires Narrow(a, 2) && x <= 0xFF
    ensures Unsigned(Xor(a, Lane(x, 2))) == Unsigned(a) + 0x1_0000 * Unsigned(x)
  {
    hide Unsigned, Xor, Lane;
    Lane2(a, x);
    Disjoint2(a, x);
  }

  lemma Disjoint3(a: bv32, x: bv32)
    requires a <= 0xFF_FFFF && x <= 0xFF
    ensures Unsigned(a ^ (x << 24)) == Unsigned(a) + 0x100_0000 * Unsigned(x)
  {
  }

  lemma Lane3(a: bv32, x: bv32)
    ensures Xor(a, Lane(x, 3)) == a ^ (x << 24)
  {
  }

  lemma AddLane3(a: bv32, x: bv32)
    requires Narrow(a, 3) && x <= 0xFF
    ensures Unsigned(Xor(a, Lane(x, 3))) == Unsigned(a) + 0x100_0000 * Unsigned(x)
  {
    hide Unsigned, Xor, Lane;
    Lane3(a, x);
    Disjoint3(a, x);
  }

  lemma WidenedIs(b: byte)
    ensures Unsigned(Widened(b)) == b
  {
    ByteAsBits(b);
  }

  lemma WordLast(bytes: seq<byte>, n: nat)
    requires n < |bytes|
    ensures Word(bytes[..n + 1]) == Xor(Word(bytes[..n]), Lane(Widened(bytes[n]), n))
  {
    hide Xor, Lane, Widened;
    assert bytes[..n + 1][..n] == bytes[..n];
  }

  lemma NarrowWord(bytes: seq<byte>, n: nat)
    requires |bytes| == 4 && n <= 3
    ensures Narrow(Word(bytes[..n]), n)
  {
    hide Word, Narrow;
    WordNarrow(bytes[..n]);
  }

  /** Four bytes as a word are the number they are read as. */
  lemma WordReads(bytes: seq<byte>)
    requires |bytes| == 4
    ensures Unsigned(Word(bytes)) == ReadU32(bytes)
  {
    hide Word, Widened, ReadU32, Unsigned, Xor, Lane, Narrow;
    assert bytes[..0] == [] && bytes[..4] == bytes;
    NoWord();
    forall n | 0 <= n <= 3
      ensures Narrow(Word(bytes[..n]), n) && Widened(bytes[n]) <= 0xFF && Unsigned(Widened(bytes[n])) == bytes[n]
      ensures Word(bytes[..n + 1]) == Xor(Word(bytes[..n]), Lane(Widened(bytes[n]), n))
    {
      NarrowWord(bytes, n);
      WidenedSmall(bytes[n]);
      WidenedIs(bytes[n]);
      WordLast(bytes, n);
    }
    AddLane0(Widened(bytes[0]));
    AddLane1(Word(bytes[..1]), Widened(bytes[1]));
    AddLane2(Word(bytes[..2]), Widened(bytes[2]));
    AddLane3(Word(bytes[..3]), Widened(bytes[3]));
    FourDigits(bytes);
  }

  lemma NoWord()
    ensures Word([]) == 0
  {
  }

  lemma FourDigits(bytes: seq<byte>)
    requires |bytes| == 4
    ensures ReadU32(bytes) ==
            bytes[0] as int + 0x100 * (bytes[1] as int) + 0x1_0000 * (bytes[2] as int) + 0x100_0000 * (bytes[3] as int)
  {
    assert bytes[1..][1..] == bytes[2..] && bytes[2..][1..] == bytes[3..] && bytes[3..][1..] == [];
    assert ReadLittleEndian(bytes[1..]) == bytes[1] as int + 0x100 * ReadLittleEndian(bytes[2..]);
    assert ReadLittleEndian(bytes[3..]) == bytes[3] as int;
    assert ReadLittleEndian(bytes[2..]) == bytes[2] as int + 0x100 * (bytes[3] as int);
  }

  lemma XorComplement(x: bv32)
    ensures Xor(x, Complement(x)) == START
  {
  }

  /** Whatever the message, running the register over it and its checksum ends in the same state. */
  lemma SealedRegister(body: seq<byte>, checksum: seq<byte>)
    requires |checksum| == 4 && ReadU32(checksum) == Crc32(body)
    ensures Register(START, body + checksum) == Shifted(START, 32)
  {
    hide Register, Shifted, Xor, Word, Unsigned, Complement, ReadU32;
    var r := Register(START, body);
    RegisterConcat(START, body, checksum);
    RegisterWord(r, checksum);
    WordReads(checksum);
    UnsignedInjective(Word(checksum), Complement(r));
    XorComplement(r);
  }

  // ----- the published check value -----

  function EightShifts(x: bv32): bv32
  {
    Shift(Shift(Shift(Shift(Shift(Shift(Shift(Shift(x))))))))
  }

  lemma EightSteps(x: bv32)
    ensures Shifted(x, 8) == EightShifts(x)
  {
    hide Shift;
    assert Shifted(x, 0) == x && Shifted(x, 1) == Shift(x);
    assert Shifted(x, 2) == Shift(Shift(x));
    assert Shifted(x, 4) == Shift(Shift(Shifted(x, 2)));
    assert Shifted(x, 6) == Shift(Shift(Shifted(x, 4)));
    assert Shifted(x, 8) == Shift(Shift(Shifted(x, 6)));
  }

  lemma NextRegister(bytes: seq<byte>, i: nat, x: bv32, y: bv32)
    requires i < |bytes| && Register(START, bytes[..i]) == x && EightShifts(x ^ Widened(bytes[i])) == y
    ensures Register(START, bytes[..i + 1]) == y
  {
    hide Shifted, EightShifts;
    EightSteps(Xor(x, Widened(bytes[i])));
    assert bytes[..i + 1][..i] == bytes[..i];
  }

  lemma NoBytes()
    ensures Register(START, []) == START
  {
  }

  const DIGITS: seq<byte> := [0x31, 0x32, 0x33, 0x34, 0x35, 0x36, 0x37, 0x38, 0x39]

  lemma FirstDigits()
    ensures Register(START, DIGITS[..5]) == 0x340A_C5E3
  {
    hide Register;
    NoBytes();
    assert DIGITS[..0] == [];
    NextRegister(DIGITS, 0, 0xFFFF_FFFF, 0x7C23_1048);
    NextRegister(DIGITS, 1, 0x7C23_1048, 0xB0AC_BB32);
    NextRegister(DIGITS, 2, 0xB0AC_BB32, 0x77B7_9C2D);
    NextRegister(DIGITS, 3, 0x77B7_9C2D, 0x641C_1F5C);
    NextRegister(DIGITS, 4, 0x641C_1F5C, 0x340A_C5E3);
  }

  /** The checksum of the nine ASCII digits `123456789` is 0xCBF43926. */
  lemma CheckValue()
    ensures Crc32(DIGITS) == 0xCBF4_3926
  {
    hide Register;
    FirstDigits();
    assert DIGITS[..9] == DIGITS;
    NextRegister(DIGITS, 5, 0x340A_C5E3, 0xF68D_2C9E);
    NextRegister(DIGITS, 6, 0xF68D_2C9E, 0xAFFC_9660);
    NextRegister(DIGITS, 7, 0xAFFC_9660, 0x651F_2550);
    NextRegister(DIGITS, 8, 0x651F_2550, 0x340B_C6D9);
  }
}
