/** The checksummed record of one write. */
module Records {
  import opened Bytes
  import opened Wrappers
  import opened Crc

  datatype Operation = Put(key: Key, value: seq<byte>) | Delete(key: Key)

  const MAX_KEY_SIZE: nat := 64 * 1024
  const MAX_VALUE_SIZE: nat := 64 * 1024 * 1024
  const RECORD_TYPE_PUT: byte := 1
  const RECORD_TYPE_DELETE: byte := 2
  const CHECKSUM_LEN: nat := 4
  const BODY_HEADER_LEN: nat := 9
  const RECORD_HEADER_LEN: nat := 13
  const KEY_LEN_OFFSET: nat := 5
  const VALUE_LEN_OFFSET: nat := 9

  function TypeOf(op: Operation): byte
  {
    if op.Put? then RECORD_TYPE_PUT else RECORD_TYPE_DELETE
  }

  function ValueOf(op: Operation): seq<byte>
  {
    if op.Put? then op.value else []
  }

  predicate WithinLimits(op: Operation)
  {
    |op.key| <= MAX_KEY_SIZE && |ValueOf(op)| <= MAX_VALUE_SIZE
  }

  /** Everything the checksum covers. */
  function Body(op: Operation): seq<byte>
    requires WithinLimits(op)
  {
    [TypeOf(op)] + U32Bytes(|op.key|) + U32Bytes(|ValueOf(op)|) + op.key + ValueOf(op)
  }

  function Sealed(body: seq<byte>): seq<byte>
  {
    U32Bytes(Crc32(body)) + body
  }

  function Encode(op: Operation): Result<seq<byte>>
  {
    if |op.key| > MAX_KEY_SIZE then Err(KeyTooLarge)
    else if |ValueOf(op)| > MAX_VALUE_SIZE then Err(ValueTooLarge)
    else Ok(Sealed(Body(op)))
  }

  function Decode(bytes: seq<byte>): Result<Operation>
  {
    if |bytes| < RECORD_HEADER_LEN then Err(CorruptedRecord)
    else
      var checksum := ReadU32(bytes[..CHECKSUM_LEN]);
      var body := bytes[CHECKSUM_LEN..];
      var keyLen := ReadU32(body[1..5]);
      var valueLen := ReadU32(body[5..9]);
      if keyLen > MAX_KEY_SIZE || valueLen > MAX_VALUE_SIZE then Err(CorruptedRecord)
      else if |body| != BODY_HEADER_LEN + keyLen + valueLen then Err(CorruptedRecord)
      else if Crc32(body) != checksum then Err(InvalidChecksum)
      else
        var key := body[BODY_HEADER_LEN..BODY_HEADER_LEN + keyLen];
        var value := body[BODY_HEADER_LEN + keyLen..BODY_HEADER_LEN + keyLen + valueLen];
        if body[0] == RECORD_TYPE_PUT then Ok(Put(key, value))
        else if body[0] == RECORD_TYPE_DELETE then
          if valueLen != 0 then Err(CorruptedRecord) else Ok(Delete(key))
        else Err(CorruptedRecord)
  }

  // ----- layout -----

  lemma BodyLayout(op: Operation)
    requires WithinLimits(op)
    ensures var body, k := Body(op), |op.key|;
            && |body| == BODY_HEADER_LEN + k + |ValueOf(op)|
            && body[0] == TypeOf(op)
            && body[1..5] == U32Bytes(k)
            && body[5..9] == U32Bytes(|ValueOf(op)|)
            && body[BODY_HEADER_LEN..BODY_HEADER_LEN + k] == op.key
            && body[BODY_HEADER_LEN + k..] == ValueOf(op)
  {
    hide U32Bytes;
  }

  lemma SealedLayout(body: seq<byte>)
    ensures |Sealed(body)| == CHECKSUM_LEN + |body|
    ensures Sealed(body)[..CHECKSUM_LEN] == U32Bytes(Crc32(body)) && Sealed(body)[CHECKSUM_LEN..] == body
  {
    hide U32Bytes, Crc32;
  }

  /** Decoding what was encoded gives the operation back. */
  lemma DecodeEncoded(op: Operation)
    requires WithinLimits(op)
    ensures Decode(Encode(op).value) == Ok(op)
  {
    hide U32Bytes, ReadU32, Crc32, Body, Sealed;
    BodyLayout(op);
    SealedLayout(Body(op));
    U32RoundTrip(Crc32(Body(op)));
    U32RoundTrip(|op.key|);
    U32RoundTrip(|ValueOf(op)|);
    var body, k := Body(op), BODY_HEADER_LEN + |op.key|;
    assert Encode(op).value[CHECKSUM_LEN..] == body;
    assert body[k..k + |ValueOf(op)|] == body[k..];
  }

  /** What decodes is exactly what encoding its result writes. */
  lemma EncodeDecoded(bytes: seq<byte>)
    requires Decode(bytes).Ok?
    ensures Encode(Decode(bytes).value) == Ok(bytes)
  {
    hide U32Bytes, ReadU32, Crc32;
    var op, body := Decode(bytes).value, bytes[CHECKSUM_LEN..];
    U32Canonical(bytes[..CHECKSUM_LEN]);
    U32Canonical(body[1..5]);
    U32Canonical(body[5..9]);
    var k := BODY_HEADER_LEN + |op.key|;
    assert body == [body[0]] + body[1..5] + body[5..9] + body[9..k] + body[k..];
    assert body[k..k + ReadU32(body[5..9])] == body[k..] == ValueOf(op);
    assert Body(op) == body;
    assert bytes == bytes[..CHECKSUM_LEN] + body;
  }

  // ----- corruption -----

  /** Two byte strings of one length that differ only inside `[from, until)`. */
  ghost predicate DifferWithin(a: seq<byte>, b: seq<byte>, from: nat, until: nat)
  {
    && |a| == |b|
    && from <= until <= |a|
    && a[..from] == b[..from]
    && a[until..] == b[until..]
  }

  /** A position of the whole, seen from the slice `[p, q)`. */
  ghost function Clamped(x: nat, p: nat, q: nat): nat
    requires p <= q
  {
    if x < p then 0 else if x > q then q - p else x - p
  }

  lemma DifferSlice(a: seq<byte>, b: seq<byte>, from: nat, until: nat, p: nat, q: nat)
    requires DifferWithin(a, b, from, until) && p <= q <= |a|
    ensures DifferWithin(a[p..q], b[p..q], Clamped(from, p, q), Clamped(until, p, q))
    ensures Clamped(until, p, q) <= Clamped(from, p, q) + (until - from)
  {
    var f, u := Clamped(from, p, q), Clamped(until, p, q);
    forall i | 0 <= i < |a| && !(from <= i < until)
      ensures a[i] == b[i]
    {
      assert i < from ==> a[i] == a[..from][i] && b[i] == b[..from][i];
      assert i >= until ==> a[i] == a[until..][i - until] && b[i] == b[until..][i - until];
    }
    assert a[p..q][..f] == b[p..q][..f];
    assert a[p..q][u..] == b[p..q][u..];
  }

  /**
   * A record changed inside its checksum, or inside four consecutive bytes of
   * its body, does not decode: every single-byte change is such a change.
   */
  lemma ChangedRecordRejected(op: Operation, bytes: seq<byte>, from: nat, until: nat)
    requires WithinLimits(op)
    requires DifferWithin(Encode(op).value, bytes, from, until) && bytes != Encode(op).value
    requires until <= CHECKSUM_LEN || (from >= CHECKSUM_LEN && until <= from + 4)
    ensures Decode(bytes).Err?
  {
    hide U32Bytes, ReadU32, Crc32, Body, Sealed;
    var good, body := Encode(op).value, Body(op);
    SealedLayout(body);
    BodyLayout(op);
    U32RoundTrip(Crc32(body));
    if until <= CHECKSUM_LEN {
      ChangedChecksum(good, bytes, until);
    } else {
      ChangedBody(good, bytes, from, until);
    }
  }

  lemma ChangedChecksum(good: seq<byte>, bytes: seq<byte>, until: nat)
    requires |good| >= CHECKSUM_LEN && DifferWithin(good, bytes, 0, until) && bytes != good && until <= CHECKSUM_LEN
    ensures bytes[CHECKSUM_LEN..] == good[CHECKSUM_LEN..]
    ensures ReadU32(bytes[..CHECKSUM_LEN]) != ReadU32(good[..CHECKSUM_LEN])
  {
    hide U32Bytes, ReadU32;
    assert good[CHECKSUM_LEN..] == good[until..][CHECKSUM_LEN - until..];
    assert bytes[CHECKSUM_LEN..] == bytes[until..][CHECKSUM_LEN - until..];
    assert good == good[..CHECKSUM_LEN] + good[CHECKSUM_LEN..];
    assert bytes == bytes[..CHECKSUM_LEN] + bytes[CHECKSUM_LEN..];
    U32Canonical(good[..CHECKSUM_LEN]);
    U32Canonical(bytes[..CHECKSUM_LEN]);
  }

  lemma ChangedBody(good: seq<byte>, bytes: seq<byte>, from: nat, until: nat)
    requires CHECKSUM_LEN <= from && until <= from + 4 && DifferWithin(good, bytes, from, until) && bytes != good
    ensures bytes[..CHECKSUM_LEN] == good[..CHECKSUM_LEN]
    ensures Crc32(bytes[CHECKSUM_LEN..]) != Crc32(good[CHECKSUM_LEN..])
  {
    hide Crc32;
    assert good[..CHECKSUM_LEN] == good[..from][..CHECKSUM_LEN];
    assert bytes[..CHECKSUM_LEN] == bytes[..from][..CHECKSUM_LEN];
    var before, after := good[..from][CHECKSUM_LEN..], good[until..];
    var v, w := good[from..until], bytes[from..until];
    assert good == good[..from] + v + after && bytes == good[..from] + w + after;
    assert good[CHECKSUM_LEN..] == before + v + after;
    assert bytes[CHECKSUM_LEN..] == before + w + after;
    BurstChangesCrc(before, v, w, after);
  }
}
