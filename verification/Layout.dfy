/** The stored formats byte by byte, with the numbers the code has. */
module Layouts {
  import opened Bytes
  import opened Wrappers
  import opened Crc
  import opened Runs
  import opened Records
  import opened Blocks
  import opened Indexes
  import Blooms
  import opened Manifests
  import opened TableFiles

  /** A 32-bit number is stored as its four base-256 digits, the least significant first. */
  lemma NumberLayout(n: u32)
    ensures U32Bytes(n) == [n % 256, n / 256 % 256, n / 65536 % 256, n / 16777216]
  {
    assert Power256(0) == 1 && Power256(1) == 256 && Power256(2) == 65536 && Power256(3) == 16777216;
    LittleEndianDigit(n, 4, 0);
    LittleEndianDigit(n, 4, 1);
    LittleEndianDigit(n, 4, 2);
    LittleEndianDigit(n, 4, 3);
  }

  lemma SmallNumber(n: byte)
    ensures U32Bytes(n) == [n, 0, 0, 0]
  {
    NumberLayout(n);
  }

  /** A log record: checksum of the rest, 1 for a put and 2 for a delete, key length, value length, key, value. */
  lemma RecordLayout(op: Operation)
    requires WithinLimits(op)
    ensures Encode(op).Ok?
    ensures var bytes, k := Encode(op).value, |op.key|;
            && |bytes| == 13 + k + (if op.Put? then |op.value| else 0)
            && bytes[..4] == U32Bytes(Crc32(bytes[4..]))
            && bytes[4] == (if op.Put? then 1 else 2)
            && bytes[5..9] == U32Bytes(k)
            && bytes[9..13] == U32Bytes(if op.Put? then |op.value| else 0)
            && bytes[13..13 + k] == op.key
            && bytes[13 + k..] == (if op.Put? then op.value else [])
  {
    hide U32Bytes, Crc32, Body, Sealed;
    var body, bytes := Body(op), Encode(op).value;
    BodyLayout(op);
    SealedLayout(body);
    assert bytes == bytes[..4] + body;
  }

  /** An entry of a block: 1 for a value and 2 for a tombstone, key length, value length, key, value. */
  lemma EntryInBlock(key: Key, entry: Entry)
    requires |key| < U32_LIMIT && (entry.Value? ==> |entry.value| < U32_LIMIT)
    ensures var bytes, k, v := EncodeEntry((key, entry)), |key|, if entry.Value? then |entry.value| else 0;
            && |bytes| == 9 + k + v
            && bytes[0] == (if entry.Value? then 1 else 2)
            && bytes[1..5] == U32Bytes(k) && bytes[5..9] == U32Bytes(v)
            && bytes[9..9 + k] == key && (entry.Value? ==> bytes[9 + k..] == entry.value)
  {
    hide U32Bytes;
    var bytes := EncodeEntry((key, entry));
    EntryLayout((key, entry), []);
    assert bytes + [] == bytes;
    assert bytes[9..][..|key|] == bytes[9..9 + |key|] && bytes[9..][|key|..] == bytes[9 + |key|..];
  }

  /** A block: the number of entries, the entries one after the other, the checksum of both. */
  lemma BlockLayout(run: Run)
    requires |run| < U32_LIMIT
    ensures var bytes := EncodeBlock(run); var n := |bytes| - 4;
            && n >= 4
            && bytes[..4] == U32Bytes(|run|)
            && bytes[n..] == U32Bytes(Crc32(bytes[..n]))
            && (run == [] ==> n == 4)
            && (run != [] ==> EncodeEntry(run[0]) <= bytes[4..n])
  {
    hide U32Bytes, Crc32, EncodeEntry;
    var bytes, body := EncodeBlock(run), BlockBody(run);
    assert bytes[..|body|] == body && bytes[..4] == body[..4] && bytes[4..|body|] == body[4..];
  }

  /** A row of the index: first key and last key, each behind its length, then offset and length of the block. */
  lemma RowLayout(e: IndexEntry)
    requires StorableRow(e)
    ensures var bytes, f, l := EncodeRow(e), |e.firstKey|, |e.lastKey|;
            && |bytes| == 20 + f + l
            && bytes[..4] == U32Bytes(f) && bytes[4..4 + f] == e.firstKey
            && bytes[4 + f..8 + f] == U32Bytes(l) && bytes[8 + f..8 + f + l] == e.lastKey
            && bytes[8 + f + l..16 + f + l] == U64Bytes(e.offset) && bytes[16 + f + l..] == U32Bytes(e.length)
  {
    hide U32Bytes, U64Bytes;
  }

  /** A filter: hash count, byte count, bytes, checksum. */
  lemma FilterLayout(f: Blooms.Filter)
    requires f.hashCount < U32_LIMIT && |f.bits| < U32_LIMIT
    ensures var bytes, n := Blooms.Encode(f), |f.bits|;
            && bytes[..4] == U32Bytes(f.hashCount) && bytes[4..8] == U32Bytes(n)
            && (forall i :: 0 <= i < n ==> bytes[8 + i] == f.bits[i] as int)
            && bytes[8 + n..] == U32Bytes(Crc32(bytes[..8 + n]))
  {
    hide U32Bytes, Crc32;
    assert Blooms.Encode(f)[..8 + |f.bits|] == Blooms.Body(f);
  }

  /** A manifest record: checksum, 1, 2 or 3 for its kind, id in eight bytes, level in four. */
  lemma ManifestLayout(r: ManifestRecord)
    requires Encodable(r)
    ensures var bytes := EncodeRecord(r);
            && |bytes| == 17
            && bytes[..4] == U32Bytes(Crc32(bytes[4..]))
            && bytes[4] == (match r case AddTable(_, _) => 1 case RemoveTable(_) => 2 case SetNextTableId(_) => 3)
            && bytes[5..13] == U64Bytes(r.id)
            && bytes[13..17] == U32Bytes(if r.AddTable? then r.level else 0)
  {
    hide U32Bytes, U64Bytes, Crc32;
    assert EncodeRecord(r)[4..] == RecordBody(r);
  }

  /** The footer: where index and filter are, format version 1, checksum, and the letters `1MSL`. */
  lemma FooterBytes(indexOffset: u64, indexLen: u64, bloomOffset: u64, bloomLen: u64)
    ensures var footer := Footer(indexOffset, indexLen, bloomOffset, bloomLen);
            && |footer| == 48
            && footer[..8] == U64Bytes(indexOffset) && footer[8..16] == U64Bytes(indexLen)
            && footer[16..24] == U64Bytes(bloomOffset) && footer[24..32] == U64Bytes(bloomLen)
            && footer[32..36] == [1, 0, 0, 0] && footer[36..40] == [0, 0, 0, 0]
            && footer[40..44] == U32Bytes(Crc32(footer[..40]))
            && footer[44..] == [0x31, 0x4D, 0x53, 0x4C]
  {
    hide U32Bytes, U64Bytes, Crc32;
    SmallNumber(0);
    SmallNumber(1);
    NumberLayout(MAGIC);
    assert Footer(indexOffset, indexLen, bloomOffset, bloomLen)[..40] ==
           FooterBody(indexOffset, indexLen, bloomOffset, bloomLen);
  }

  // ----- which error -----

  /** A record is refused for its checksum exactly if it is framed right and only the checksum is wrong. */
  lemma RecordErrors(bytes: seq<byte>)
    ensures Decode(bytes) == Err(InvalidChecksum) <==>
            && |bytes| >= 13
            && ReadU32(bytes[5..9]) <= 65536 && ReadU32(bytes[9..13]) <= 67108864
            && |bytes| == 13 + ReadU32(bytes[5..9]) + ReadU32(bytes[9..13])
            && ReadU32(bytes[..4]) != Crc32(bytes[4..])
    ensures Decode(bytes).Err? ==> Decode(bytes).error in {InvalidChecksum, CorruptedRecord}
  {
    hide ReadU32, Crc32;
    if |bytes| >= 13 {
      assert bytes[4..][1..5] == bytes[5..9] && bytes[4..][5..9] == bytes[9..13];
    }
  }

  /** A block is refused for its checksum exactly if it is long enough and its checksum is wrong. */
  lemma BlockErrors(bytes: seq<byte>)
    ensures DecodeBlock(bytes) == Err(InvalidChecksum) <==>
            |bytes| >= 8 && ReadU32(bytes[|bytes| - 4..]) != Crc32(bytes[..|bytes| - 4])
    ensures DecodeBlock(bytes).Err? ==> DecodeBlock(bytes).error in {InvalidChecksum, CorruptedRecord}
  {
    hide ReadU32, Crc32, DecodeEntries;
    if Checked(bytes, 8).Ok? {
      var body := Checked(bytes, 8).value;
      EntriesCorrupted(body[4..], ReadU32(body[..4]));
    }
  }

  lemma {:induction false} EntriesCorrupted(rest: seq<byte>, count: nat)
    ensures DecodeEntries(rest, count).Err? ==> DecodeEntries(rest, count).error == CorruptedRecord
  {
    hide ReadU32;
    if count == 0 {
    } else if DecodeEntry(rest).Ok? {
      EntriesCorrupted(DecodeEntry(rest).value.1, count - 1);
    }
  }

  /** A file too short for a footer, or without the magic bytes at its end, is no table. */
  lemma NotATable(file: seq<byte>)
    requires |file| < 48 || file[|file| - 4..] != [0x31, 0x4D, 0x53, 0x4C]
    ensures Opened(file) == Err(CorruptedRecord)
  {
    hide ReadU32, ReadU64, U32Bytes, Crc32, IndexOf, Blooms.Decode;
    if |file| >= 48 {
      var footer := file[|file| - 48..];
      assert footer[44..48] == file[|file| - 4..];
      NumberLayout(MAGIC);
      U32Canonical(footer[44..48]);
    }
  }

  /** A footer whose checksum is wrong is reported as such. */
  lemma FooterErrors(file: seq<byte>)
    requires |file| >= 48 && file[|file| - 4..] == [0x31, 0x4D, 0x53, 0x4C]
    requires var footer := file[|file| - 48..]; ReadU32(footer[40..44]) != Crc32(footer[..40])
    ensures Opened(file) == Err(InvalidChecksum)
  {
    hide ReadU32, ReadU64, U32Bytes, Crc32, IndexOf, Blooms.Decode;
    var footer := file[|file| - 48..];
    assert footer[44..48] == file[|file| - 4..];
    NumberLayout(MAGIC);
    U32RoundTrip(MAGIC);
  }
}
