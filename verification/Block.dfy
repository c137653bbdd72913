/** Checksummed byte strings, and the data blocks of a table file. */
module Blocks {
  import opened Bytes
  import opened Wrappers
  import opened Crc
  import opened Runs
  import opened Records

  // ----- a body followed by its checksum -----

  function Trailed(body: seq<byte>): (bytes: seq<byte>)
    ensures |bytes| == |body| + 4
    ensures bytes[..|body|] == body && bytes[|body|..] == U32Bytes(Crc32(body))
  {
    body + U32Bytes(Crc32(body))
  }

  /** The body of a checksummed byte string of at least `least` bytes. */
  function Checked(bytes: seq<byte>, least: nat): Result<seq<byte>>
    requires least >= 4
  {
    if |bytes| < least then Err(CorruptedRecord) else
    var body := bytes[..|bytes| - 4];
    if Crc32(body) != ReadU32(bytes[|bytes| - 4..]) then Err(InvalidChecksum) else Ok(body)
  }

  lemma CheckedTrailed(body: seq<byte>, least: nat)
    requires 4 <= least <= |body| + 4
    ensures Checked(Trailed(body), least) == Ok(body)
  {
    hide Crc32, U32Bytes, ReadU32;
    U32RoundTrip(Crc32(body));
  }

  /** A change inside four consecutive bytes, of the body, the checksum or across both, is detected. */
  lemma ChangedTrailed(body: seq<byte>, bytes: seq<byte>, from: nat, until: nat, least: nat)
    requires 4 <= least
    requires DifferWithin(Trailed(body), bytes, from, until) && bytes != Trailed(body) && until <= from + 4
    ensures Checked(bytes, least).Err?
  {
    hide Crc32, U32Bytes, ReadU32, Register, Shifted;
    var good, n := Trailed(body), |body|;
    if Checked(bytes, least).Ok? {
      U32RoundTrip(Crc32(body));
      SealedRegister(body, good[n..]);
      SealedRegister(bytes[..n], bytes[n..]);
      assert good == body + good[n..] && bytes == bytes[..n] + bytes[n..];
      var v, w := good[from..until], bytes[from..until];
      assert good == good[..from] + v + good[until..] && bytes == good[..from] + w + good[until..];
      SameRegisterSameBurst(good[..from], v, w, good[until..]);
    }
  }

  // ----- entries -----

  const TYPE_VALUE: byte := 1
  const TYPE_TOMBSTONE: byte := 2
  const ENTRY_HEADER_LEN: nat := 9

  /** `as u32`. */
  function Len32(n: nat): u32
  {
    n % U32_LIMIT
  }

  function EntryBytes(entry: Entry): seq<byte>
  {
    if entry.Value? then entry.value else []
  }

  function EncodeEntry(pair: (Key, Entry)): (bytes: seq<byte>)
    ensures |bytes| == ENTRY_HEADER_LEN + |pair.0| + |EntryBytes(pair.1)|
  {
    [if pair.1.Value? then TYPE_VALUE else TYPE_TOMBSTONE] +
    U32Bytes(Len32(|pair.0|)) + U32Bytes(Len32(|EntryBytes(pair.1)|)) + pair.0 + EntryBytes(pair.1)
  }

  function EncodeEntries(run: Run): seq<byte>
  {
    if run == [] then [] else EncodeEntry(run[0]) + EncodeEntries(run[1..])
  }

  lemma {:induction false} EncodeEntriesSnoc(run: Run, pair: (Key, Entry))
    ensures EncodeEntries(run + [pair]) == EncodeEntries(run) + EncodeEntry(pair)
  {
    hide EncodeEntry;
    if run == [] {
      assert run + [pair] == [pair];
      assert EncodeEntries([pair]) == EncodeEntry(pair) + EncodeEntries([]);
    } else {
      EncodeEntriesSnoc(run[1..], pair);
      assert (run + [pair])[1..] == run[1..] + [pair];
    }
  }

  function BlockBody(run: Run): seq<byte>
  {
    U32Bytes(Len32(|run|)) + EncodeEntries(run)
  }

  function EncodeBlock(run: Run): seq<byte>
  {
    Trailed(BlockBody(run))
  }

  function DecodeEntry(rest: seq<byte>): Result<((Key, Entry), seq<byte>)>
  {
    if |rest| < ENTRY_HEADER_LEN then Err(CorruptedRecord) else
    var keyLen, valueLen := ReadU32(rest[1..5]), ReadU32(rest[5..9]);
    var tail := rest[ENTRY_HEADER_LEN..];
    if |tail| < keyLen + valueLen then Err(CorruptedRecord) else
    var key, after := tail[..keyLen], tail[keyLen + valueLen..];
    if rest[0] == TYPE_VALUE then Ok(((key, Value(tail[keyLen..keyLen + valueLen])), after))
    else if rest[0] == TYPE_TOMBSTONE then Ok(((key, Tombstone), after))
    else Err(CorruptedRecord)
  }

  function DecodeEntries(rest: seq<byte>, count: nat): Result<Run>
  {
    if count == 0 then Ok([]) else
    var (pair, tail) :- DecodeEntry(rest);
    var run :- DecodeEntries(tail, count - 1);
    Ok([pair] + run)
  }

  function DecodeBlock(bytes: seq<byte>): Result<Run>
  {
    var body :- Checked(bytes, 8);
    DecodeEntries(body[4..], ReadU32(body[..4]))
  }

  /** Key and value lengths that fit their 32-bit fields. */
  predicate Storable(pair: (Key, Entry))
  {
    |pair.0| < U32_LIMIT && |EntryBytes(pair.1)| < U32_LIMIT
  }

  lemma EntryLayout(pair: (Key, Entry), tail: seq<byte>)
    ensures var bytes, k, v := EncodeEntry(pair) + tail, |pair.0|, |EntryBytes(pair.1)|;
            && bytes[0] == (if pair.1.Value? then TYPE_VALUE else TYPE_TOMBSTONE)
            && bytes[1..5] == U32Bytes(Len32(k)) && bytes[5..9] == U32Bytes(Len32(v))
            && bytes[9..][..k] == pair.0
            && bytes[9..][k..k + v] == EntryBytes(pair.1)
            && bytes[9..][k + v..] == tail
  {
    hide U32Bytes, Len32;
    var kind: byte := if pair.1.Value? then TYPE_VALUE else TYPE_TOMBSTONE;
    var x, y := U32Bytes(Len32(|pair.0|)), U32Bytes(Len32(|EntryBytes(pair.1)|));
    var payload := pair.0 + EntryBytes(pair.1) + tail;
    assert EncodeEntry(pair) + tail == [kind] + x + y + payload;
    assert (EncodeEntry(pair) + tail)[9..] == payload;
  }

  lemma DecodeEntryEncoded(pair: (Key, Entry), tail: seq<byte>)
    requires Storable(pair)
    ensures DecodeEntry(EncodeEntry(pair) + tail) == Ok((pair, tail))
  {
    hide U32Bytes, ReadU32, EncodeEntry;
    EntryLayout(pair, tail);
    U32RoundTrip(|pair.0|);
    U32RoundTrip(|EntryBytes(pair.1)|);
  }

  lemma {:induction false} DecodeEntriesEncoded(run: Run)
    requires forall i :: 0 <= i < |run| ==> Storable(run[i])
    ensures DecodeEntries(EncodeEntries(run), |run|) == Ok(run)
  {
    hide EncodeEntry, DecodeEntry;
    if run == [] {
    } else {
      DecodeEntryEncoded(run[0], EncodeEntries(run[1..]));
      DecodeEntriesEncoded(run[1..]);
      assert run == [run[0]] + run[1..];
    }
  }

  /** A block decodes to the entries it was built from. */
  lemma DecodeBlockEncoded(run: Run)
    requires |run| < U32_LIMIT && forall i :: 0 <= i < |run| ==> Storable(run[i])
    ensures DecodeBlock(EncodeBlock(run)) == Ok(run)
  {
    hide Crc32, U32Bytes, ReadU32, EncodeEntries, Checked, Trailed, DecodeEntries;
    var body := BlockBody(run);
    CheckedTrailed(body, 8);
    U32RoundTrip(|run|);
    assert body[..4] == U32Bytes(|run|) && body[4..] == EncodeEntries(run);
    DecodeEntriesEncoded(run);
  }

  /** A block changed inside four consecutive bytes is not read. */
  lemma ChangedBlockRejected(run: Run, bytes: seq<byte>, from: nat, until: nat)
    requires DifferWithin(EncodeBlock(run), bytes, from, until) && bytes != EncodeBlock(run) && until <= from + 4
    ensures DecodeBlock(bytes).Err?
  {
    hide Crc32, Checked, Trailed, BlockBody;
    ChangedTrailed(BlockBody(run), bytes, from, until, 8);
  }

  lemma DecodeStep(out: Run, rest: seq<byte>, count: nat)
    requires count > 0
    ensures var next, r := DecodeEntry(rest), Prepended(out, DecodeEntries(rest, count));
            if next.Err? then r == Err(next.error)
            else r == Prepended(out + [next.value.0], DecodeEntries(next.value.1, count - 1))
  {
    hide DecodeEntry;
    var next := DecodeEntry(rest);
    if next.Ok? {
      PrependedOne(out, next.value.0, DecodeEntries(next.value.1, count - 1));
    }
  }

  method ReadDataBlock(bytes: seq<byte>) returns (r: Result<Run>)
    ensures r == DecodeBlock(bytes)
  {
    hide Crc32, ReadU32, DecodeEntry, DecodeEntries;
    if |bytes| < 8 {
      return Err(CorruptedRecord);
    }
    var checksum := ReadU32(bytes[|bytes| - 4..]);
    var body := bytes[..|bytes| - 4];
    if Crc32(body) != checksum {
      return Err(InvalidChecksum);
    }
    assert body[0..4] == body[..4];
    var count := ReadU32(body[0..4]);
    var rest, out: Run := body[4..], [];
    PrependedNothing(DecodeEntries(rest, count));
    for i := 0 to count
      invariant DecodeBlock(bytes) == Prepended(out, DecodeEntries(rest, count - i))
    {
      DecodeStep(out, rest, count - i);
      var next := DecodeEntry(rest);
      if next.Err? {
        return Err(next.error);
      }
      out, rest := out + [next.value.0], next.value.1;
    }
    AfterAll(out, rest);
    return Ok(out);
  }

  lemma AfterAll(out: Run, rest: seq<byte>)
    ensures Prepended(out, DecodeEntries(rest, 0)) == Ok(out)
  {
    assert out + [] == out;
  }
}
