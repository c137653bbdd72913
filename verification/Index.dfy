/** The block index of a table file: the key range of each block and where the block lies. */
module Indexes {
  import opened Bytes
  import opened Wrappers
  import opened Crc
  import opened Blocks

  datatype IndexEntry = IndexEntry(firstKey: Key, lastKey: Key, offset: u64, length: u32)

  function EncodeRow(e: IndexEntry): seq<byte>
  {
    U32Bytes(Len32(|e.firstKey|)) + e.firstKey + U32Bytes(Len32(|e.lastKey|)) + e.lastKey +
    U64Bytes(e.offset) + U32Bytes(e.length)
  }

  function EncodeRows(index: seq<IndexEntry>): seq<byte>
  {
    if index == [] then [] else EncodeRows(index[..|index| - 1]) + EncodeRow(index[|index| - 1])
  }

  function IndexBody(index: seq<IndexEntry>): seq<byte>
  {
    U32Bytes(Len32(|index|)) + EncodeRows(index)
  }

  /** The bytes the loop of `encode_index` pushes. */
  method EncodeIndex(index: seq<IndexEntry>) returns (buf: seq<byte>)
    ensures buf == Trailed(IndexBody(index))
  {
    hide U32Bytes, U64Bytes, Crc32;
    buf := U32Bytes(Len32(|index|));
    for i := 0 to |index|
      invariant buf == U32Bytes(Len32(|index|)) + EncodeRows(index[..i])
    {
      assert index[..i + 1][..i] == index[..i];
      var e := index[i];
      ghost var before := buf;
      buf := buf + U32Bytes(Len32(|e.firstKey|));
      buf := buf + e.firstKey;
      buf := buf + U32Bytes(Len32(|e.lastKey|));
      buf := buf + e.lastKey;
      buf := buf + U64Bytes(e.offset);
      buf := buf + U32Bytes(e.length);
      assert buf == before + EncodeRow(e);
    }
    assert index[..|index|] == index;
    buf := buf + U32Bytes(Crc32(buf));
  }

  function DecodeRow(rest: seq<byte>): Result<(IndexEntry, seq<byte>)>
  {
    if |rest| < 4 then Err(CorruptedRecord) else
    var firstLen := ReadU32(rest[0..4]);
    var a := rest[4..];
    if |a| < firstLen + 4 then Err(CorruptedRecord) else
    var firstKey, b := a[..firstLen], a[firstLen..];
    var lastLen := ReadU32(b[0..4]);
    var c := b[4..];
    if |c| < lastLen + 12 then Err(CorruptedRecord) else
    var lastKey, d := c[..lastLen], c[lastLen..];
    Ok((IndexEntry(firstKey, lastKey, ReadU64(d[0..8]), ReadU32(d[8..12])), d[12..]))
  }

  function DecodeRows(rest: seq<byte>, count: nat): Result<seq<IndexEntry>>
  {
    if count == 0 then Ok([]) else
    var (row, tail) :- DecodeRow(rest);
    var index :- DecodeRows(tail, count - 1);
    Ok([row] + index)
  }

  function IndexOf(bytes: seq<byte>): Result<seq<IndexEntry>>
  {
    var body :- Checked(bytes, 8);
    DecodeRows(body[4..], ReadU32(body[..4]))
  }

  predicate StorableRow(e: IndexEntry)
  {
    |e.firstKey| < U32_LIMIT && |e.lastKey| < U32_LIMIT
  }

  lemma DecodeRowEncoded(e: IndexEntry, tail: seq<byte>)
    requires StorableRow(e)
    ensures DecodeRow(EncodeRow(e) + tail) == Ok((e, tail))
  {
    hide U32Bytes, U64Bytes, ReadU32, ReadU64;
    U32RoundTrip(|e.firstKey|);
    U32RoundTrip(|e.lastKey|);
    U64RoundTrip(e.offset);
    U32RoundTrip(e.length);
    var rest, k, l := EncodeRow(e) + tail, |e.firstKey|, |e.lastKey|;
    var d := U64Bytes(e.offset) + U32Bytes(e.length) + tail;
    var c := e.lastKey + d;
    var b := U32Bytes(l) + c;
    var a := e.firstKey + b;
    assert rest == U32Bytes(k) + a;
    assert rest[0..4] == U32Bytes(k) && rest[4..] == a;
    assert a[..k] == e.firstKey && a[k..] == b;
    assert b[0..4] == U32Bytes(l) && b[4..] == c;
    assert c[..l] == e.lastKey && c[l..] == d;
    assert d[0..8] == U64Bytes(e.offset) && d[8..12] == U32Bytes(e.length) && d[12..] == tail;
  }

  lemma {:induction false} EncodeRowsHead(index: seq<IndexEntry>)
    requires index != []
    ensures EncodeRows(index) == EncodeRow(index[0]) + EncodeRows(index[1..])
  {
    hide EncodeRow;
    if |index| > 1 {
      var n := |index| - 1;
      EncodeRowsHead(index[..n]);
      assert index[..n][1..] == index[1..][..n - 1];
    } else {
      assert index[..0] == [] && index[1..] == [];
      assert EncodeRows([]) == [];
    }
  }

  lemma {:induction false} DecodeRowsEncoded(index: seq<IndexEntry>)
    requires forall i :: 0 <= i < |index| ==> StorableRow(index[i])
    ensures DecodeRows(EncodeRows(index), |index|) == Ok(index)
  {
    hide EncodeRow, DecodeRow;
    if index == [] {
    } else {
      EncodeRowsHead(index);
      DecodeRowEncoded(index[0], EncodeRows(index[1..]));
      DecodeRowsEncoded(index[1..]);
      assert index == [index[0]] + index[1..];
    }
  }

  /** An index decodes to the rows it was built from. */
  lemma IndexOfEncoded(index: seq<IndexEntry>)
    requires |index| < U32_LIMIT && forall i :: 0 <= i < |index| ==> StorableRow(index[i])
    ensures IndexOf(Trailed(IndexBody(index))) == Ok(index)
  {
    hide Crc32, U32Bytes, ReadU32, EncodeRows, DecodeRows, Checked, Trailed;
    var body := IndexBody(index);
    CheckedTrailed(body, 8);
    U32RoundTrip(|index|);
    assert body[..4] == U32Bytes(|index|) && body[4..] == EncodeRows(index);
    DecodeRowsEncoded(index);
  }

  lemma DecodeStep(out: seq<IndexEntry>, rest: seq<byte>, count: nat)
    requires count > 0
    ensures var next, r := DecodeRow(rest), Prepended(out, DecodeRows(rest, count));
            if next.Err? then r == Err(next.error)
            else r == Prepended(out + [next.value.0], DecodeRows(next.value.1, count - 1))
  {
    hide DecodeRow;
    var next := DecodeRow(rest);
    if next.Ok? {
      PrependedOne(out, next.value.0, DecodeRows(next.value.1, count - 1));
    }
  }

  method DecodeIndex(bytes: seq<byte>) returns (r: Result<seq<IndexEntry>>)
    ensures r == IndexOf(bytes)
  {
    hide Crc32, ReadU32, DecodeRow;
    if |bytes| < 8 {
      return Err(CorruptedRecord);
    }
    var checksum := ReadU32(bytes[|bytes| - 4..]);
    var body := bytes[..|bytes| - 4];
    if Crc32(body) != checksum {
      return Err(InvalidChecksum);
    }
    assert body[0..4] == body[..4];
    var count := ReadU32(body[0..4]);
    var rest, out: seq<IndexEntry> := body[4..], [];
    PrependedNothing(DecodeRows(rest, count));
    for i := 0 to count
      invariant IndexOf(bytes) == Prepended(out, DecodeRows(rest, count - i))
    {
      DecodeStep(out, rest, count - i);
      var next := DecodeRow(rest);
      if next.Err? {
        return Err(next.error);
      }
      out, rest := out + [next.value.0], next.value.1;
    }
    assert out + [] == out;
    return Ok(out);
  }
}
