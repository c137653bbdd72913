/** The write-ahead log: framing, replay of any prefix, and appends. */
module Wals {
  import opened Bytes
  import opened Wrappers
  import opened Crc
  import opened Records

  /** Length of the record whose header starts `data`. */
  function RecordLen(data: seq<byte>): nat
    requires |data| >= RECORD_HEADER_LEN
  {
    RECORD_HEADER_LEN +
    ReadU32(data[KEY_LEN_OFFSET..KEY_LEN_OFFSET + 4]) + ReadU32(data[VALUE_LEN_OFFSET..VALUE_LEN_OFFSET + 4])
  }

  predicate OversizedHeader(data: seq<byte>)
    requires |data| >= RECORD_HEADER_LEN
  {
    ReadU32(data[KEY_LEN_OFFSET..KEY_LEN_OFFSET + 4]) > MAX_KEY_SIZE ||
    ReadU32(data[VALUE_LEN_OFFSET..VALUE_LEN_OFFSET + 4]) > MAX_VALUE_SIZE
  }

  /** The next item of a log: nothing at its end or torn tail, else a record or an error. */
  function Item(data: seq<byte>): Option<Result<Operation>>
  {
    if |data| < RECORD_HEADER_LEN then None
    else if OversizedHeader(data) then Some(Err(CorruptedRecord))
    else if |data| < RecordLen(data) then None
    else Some(Decode(data[..RecordLen(data)]))
  }

  /** A header with a length above the limits is corruption, even if the record it announces is not all there. */
  lemma OversizedIsCorrupt(data: seq<byte>)
    requires |data| >= 13 && (ReadU32(data[5..9]) > 65536 || ReadU32(data[9..13]) > 67108864)
    ensures Item(data) == Some(Err(CorruptedRecord)) && Replay(data) == Err(CorruptedRecord)
  {
    hide ReadU32;
  }

  /** Every committed operation, or the first error. */
  function Replay(data: seq<byte>): Result<seq<Operation>>
  {
    match Item(data)
    case None => Ok([])
    case Some(Err(error)) => Err(error)
    case Some(Ok(op)) =>
      var rest := Replay(data[RecordLen(data)..]);
      if rest.Ok? then Ok([op] + rest.value) else rest
  }

  ghost predicate AllWithinLimits(ops: seq<Operation>)
  {
    forall i :: 0 <= i < |ops| ==> WithinLimits(ops[i])
  }

  ghost function RecordOf(op: Operation): (bytes: seq<byte>)
    requires WithinLimits(op)
  {
    Encode(op).value
  }

  /** The log that appending `ops` writes. */
  ghost function LogOf(ops: seq<Operation>): seq<byte>
    requires AllWithinLimits(ops)
  {
    if ops == [] then [] else RecordOf(ops[0]) + LogOf(ops[1..])
  }

  /** How many records of the log end at or before `cut`. */
  ghost function Complete(ops: seq<Operation>, cut: nat): (n: nat)
    requires AllWithinLimits(ops)
    ensures n <= |ops|
  {
    if ops == [] || |RecordOf(ops[0])| > cut then 0
    else 1 + Complete(ops[1..], cut - |RecordOf(ops[0])|)
  }

  // ----- one record -----

  /** The header of a record, read from any data that begins with it. */
  lemma HeaderRead(op: Operation, data: seq<byte>)
    requires WithinLimits(op) && |data| >= RECORD_HEADER_LEN
    requires data[..RECORD_HEADER_LEN] == RecordOf(op)[..RECORD_HEADER_LEN]
    ensures RecordLen(data) == |RecordOf(op)| && !OversizedHeader(data)
  {
    hide U32Bytes, ReadU32, Crc32, Body, Sealed;
    BodyLayout(op);
    SealedLayout(Body(op));
    var record := RecordOf(op);
    U32RoundTrip(|op.key|);
    U32RoundTrip(|ValueOf(op)|);
    assert record[5..9] == record[CHECKSUM_LEN..][1..5] && record[9..13] == record[CHECKSUM_LEN..][5..9];
    assert data[5..9] == data[..13][5..9] && data[9..13] == data[..13][9..13];
    assert record[5..9] == record[..13][5..9] && record[9..13] == record[..13][9..13];
  }

  lemma RecordLength(op: Operation)
    requires WithinLimits(op)
    ensures |RecordOf(op)| >= RECORD_HEADER_LEN
  {
    hide U32Bytes, Crc32, Body, Sealed;
    BodyLayout(op);
    SealedLayout(Body(op));
  }

  lemma WholeRecord(op: Operation, rest: seq<byte>)
    requires WithinLimits(op)
    ensures Item(RecordOf(op) + rest) == Some(Ok(op))
    ensures |RecordOf(op) + rest| >= RECORD_HEADER_LEN && RecordLen(RecordOf(op) + rest) == |RecordOf(op)|
  {
    hide Encode, Decode, RecordLen, OversizedHeader;
    var record := RecordOf(op);
    RecordLength(op);
    assert (record + rest)[..RECORD_HEADER_LEN] == record[..RECORD_HEADER_LEN];
    HeaderRead(op, record + rest);
    assert (record + rest)[..|record|] == record;
    DecodeEncoded(op);
  }

  lemma TornRecord(op: Operation, cut: nat)
    requires WithinLimits(op) && cut < |RecordOf(op)|
    ensures Item(RecordOf(op)[..cut]) == None
  {
    hide Encode, Decode, RecordLen, OversizedHeader;
    var torn := RecordOf(op)[..cut];
    if cut >= RECORD_HEADER_LEN {
      assert torn[..RECORD_HEADER_LEN] == RecordOf(op)[..RECORD_HEADER_LEN];
      HeaderRead(op, torn);
    }
  }

  // ----- the whole log -----

  /** Replay of any byte prefix of a log returns exactly the operations whose records are complete in it. */
  lemma {:induction false} PrefixReplay(ops: seq<Operation>, cut: nat)
    requires AllWithinLimits(ops) && cut <= |LogOf(ops)|
    ensures Replay(LogOf(ops)[..cut]) == Ok(ops[..Complete(ops, cut)])
  {
    hide RecordOf, Item, RecordLen;
    if ops == [] {
      EmptyLog();
    } else {
      var record, rest := RecordOf(ops[0]), LogOf(ops[1..]);
      if |record| <= cut {
        var tail := rest[..cut - |record|];
        assert LogOf(ops)[..cut] == record + tail;
        WholeRecord(ops[0], tail);
        assert (record + tail)[|record|..] == tail;
        PrefixReplay(ops[1..], cut - |record|);
        var n := Complete(ops, cut);
        assert [ops[0]] + ops[1..][..n - 1] == ops[..n];
      } else {
        assert LogOf(ops)[..cut] == record[..cut];
        TornRecord(ops[0], cut);
      }
    }
  }

  lemma EmptyLog()
    ensures Replay([]) == Ok([])
  {
  }

  lemma {:induction false} LogConcat(a: seq<Operation>, b: seq<Operation>)
    requires AllWithinLimits(a) && AllWithinLimits(b)
    ensures LogOf(a + b) == LogOf(a) + LogOf(b)
  {
    hide RecordOf;
    if a == [] {
      assert a + b == b;
    } else {
      assert (a + b)[1..] == a[1..] + b;
      LogConcat(a[1..], b);
    }
  }

  /** The complete records are the longest run of records that fits in the cut. */
  lemma {:induction false} CompleteIsLongest(ops: seq<Operation>, cut: nat)
    requires AllWithinLimits(ops)
    ensures var n := Complete(ops, cut);
            |LogOf(ops[..n])| <= cut && (n < |ops| ==> |LogOf(ops[..n + 1])| > cut)
  {
    hide RecordOf;
    if ops == [] {
    } else {
      var record, n := RecordOf(ops[0]), Complete(ops, cut);
      if |record| <= cut {
        CompleteIsLongest(ops[1..], cut - |record|);
        assert ops[..n][1..] == ops[1..][..n - 1];
        if n < |ops| {
          assert ops[..n + 1][1..] == ops[1..][..n];
        }
      } else {
        assert ops[..1][1..] == [];
      }
    }
  }

  /** A whole log replays to every operation in it. */
  lemma WholeReplay(ops: seq<Operation>)
    requires AllWithinLimits(ops)
    ensures Replay(LogOf(ops)) == Ok(ops)
  {
    hide Replay, LogOf, Complete;
    PrefixReplay(ops, |LogOf(ops)|);
    CompleteIsLongest(ops, |LogOf(ops)|);
    assert LogOf(ops)[..|LogOf(ops)|] == LogOf(ops);
    var n := Complete(ops, |LogOf(ops)|);
    if n < |ops| {
      assert ops == ops[..n + 1] + ops[n + 1..];
      LogConcat(ops[..n + 1], ops[n + 1..]);
    }
    assert ops[..n] == ops;
  }

  /**
   * A log that grew after a torn tail: when up to four bytes of the last record
   * are missing and the next record does not happen to begin with them, replay
   * reports corruption, and the record appended after the tear is lost.
   */
  lemma AppendAfterTornTail(torn: Operation, missing: nat, op: Operation)
    requires WithinLimits(torn) && WithinLimits(op) && 1 <= missing <= 4
    requires |RecordOf(torn)| - missing >= RECORD_HEADER_LEN
    requires RecordOf(op)[..missing] != RecordOf(torn)[|RecordOf(torn)| - missing..]
    ensures Replay(RecordOf(torn)[..|RecordOf(torn)| - missing] + RecordOf(op)).Err?
  {
    hide Decode, RecordLen, OversizedHeader, Encode;
    var record, next := RecordOf(torn), RecordOf(op);
    var kept := |record| - missing;
    var data := record[..kept] + next;
    RecordLength(op);
    assert data[..RECORD_HEADER_LEN] == record[..RECORD_HEADER_LEN];
    HeaderRead(torn, data);
    var patched := data[..|record|];
    assert patched == record[..kept] + next[..missing];
    assert patched[..kept] == record[..kept] && patched[kept..] == next[..missing];
    ChangedRecordRejected(torn, patched, kept, |record|);
  }

  /** Replay of a whole log followed by anything. */
  lemma {:induction false} ReplayBehind(ops: seq<Operation>, tail: seq<byte>)
    requires AllWithinLimits(ops)
    ensures Replay(LogOf(ops) + tail) == Prepended(ops, Replay(tail))
  {
    hide RecordOf, Item, RecordLen, Replay;
    if ops == [] {
      assert LogOf(ops) + tail == tail;
      PrependedNothing(Replay(tail));
    } else {
      var rest := LogOf(ops[1..]) + tail;
      assert LogOf(ops) + tail == RecordOf(ops[0]) + rest;
      ReplayNext(ops[0], rest);
      ReplayBehind(ops[1..], tail);
      PrependedRest(ops, Replay(tail));
    }
  }

  lemma ReplayNext(op: Operation, rest: seq<byte>)
    requires WithinLimits(op)
    ensures Replay(RecordOf(op) + rest) == Prepended([op], Replay(rest))
  {
    hide RecordOf, Item, RecordLen;
    WholeRecord(op, rest);
    assert (RecordOf(op) + rest)[|RecordOf(op)|..] == rest;
  }

  lemma PrependedRest(ops: seq<Operation>, rest: Result<seq<Operation>>)
    requires ops != []
    ensures Prepended([ops[0]], Prepended(ops[1..], rest)) == Prepended(ops, rest)
  {
    if rest.Ok? {
      assert [ops[0]] + (ops[1..] + rest.value) == ops + rest.value;
    }
  }

  /**
   * What an append after a tear is worth: replay returns the old operations and
   * the new one exactly when the bytes behind the whole records begin with the
   * new record itself and what is left after it replays to nothing. Without a
   * tear that is always so.
   */
  lemma AppendAfterTear(ops: seq<Operation>, torn: seq<byte>, op: Operation)
    requires AllWithinLimits(ops) && WithinLimits(op)
    ensures var behind, record := torn + RecordOf(op), RecordOf(op);
            Replay(LogOf(ops) + behind) == Ok(ops + [op]) <==>
            record <= behind && Replay(behind[|record|..]) == Ok([])
    ensures torn == [] ==>
              RecordOf(op) <= torn + RecordOf(op) && Replay((torn + RecordOf(op))[|RecordOf(op)|..]) == Ok([])
  {
    hide Encode, Item, RecordLen, LogOf;
    var behind, record := torn + RecordOf(op), RecordOf(op);
    ReplayBehind(ops, behind);
    if record <= behind {
      var rest := behind[|record|..];
      assert behind == record + rest;
      WholeRecord(op, rest);
    } else {
      FirstOfOne(behind, op);
    }
    if torn == [] {
      assert behind == record && behind[|record|..] == [];
      EmptyLog();
    }
    var rest := Replay(behind);
    if rest.Ok? && ops + rest.value == ops + [op] {
      assert (ops + rest.value)[|ops|..] == rest.value;
    }
  }

  /** Bytes that replay to one operation begin with its record. */
  lemma FirstOfOne(data: seq<byte>, op: Operation)
    requires WithinLimits(op)
    ensures Replay(data) == Ok([op]) ==> RecordOf(op) <= data
  {
    hide Decode;
    if Replay(data) == Ok([op]) {
      assert Replay(data).value[0] == Item(data).value.value;
      var record := data[..RecordLen(data)];
      assert Decode(record) == Ok(op);
      EncodeDecoded(record);
    }
  }

  // ----- the log and its iterator -----

  /** Streaming parser over a copy of the log. */
  class WalIterator {
    const data: seq<byte>
    var pos: nat

    ghost predicate Valid()
      reads this
    {
      pos <= |data|
    }

    constructor (data: seq<byte>)
      ensures Valid() && pos == 0 && this.data == data
    {
      this.data := data;
      pos := 0;
    }

    method Next() returns (item: Option<Result<Operation>>)
      requires Valid()
      modifies this
      ensures Valid()
      ensures item == Item(old(data[pos..]))
      ensures item.Some? && item.value.Ok? ==>
                |old(data[pos..])| >= RECORD_HEADER_LEN && pos == old(pos) + RecordLen(old(data[pos..])) <= |data|
      ensures item.None? ==> pos == |data|
    {
      var rest := data[pos..];
      if rest == [] {
        return None;
      }
      if |rest| < RECORD_HEADER_LEN {
        pos := |data|;
        return None;
      }
      var keyLen := ReadU32(rest[KEY_LEN_OFFSET..KEY_LEN_OFFSET + 4]);
      var valueLen := ReadU32(rest[VALUE_LEN_OFFSET..VALUE_LEN_OFFSET + 4]);
      if keyLen > MAX_KEY_SIZE || valueLen > MAX_VALUE_SIZE {
        pos := |data|;
        return Some(Err(CorruptedRecord));
      }
      var recordLen := RECORD_HEADER_LEN + keyLen + valueLen;
      if |rest| < recordLen {
        pos := |data|;
        return None;
      }
      pos := pos + recordLen;
      return Some(Decode(rest[..recordLen]));
    }
  }

  /** The log file. */
  class Wal {
    var file: seq<byte>

    constructor ()
      ensures file == []
    {
      file := [];
    }

    constructor OnFile(file: seq<byte>)
      ensures this.file == file
    {
      this.file := file;
    }

    /** Appends one record; a refused operation leaves the file as it was. */
    method Append(op: Operation) returns (offset: Result<nat>)
      modifies this
      ensures WithinLimits(op) ==> offset == Ok(|old(file)|) && file == old(file) + RecordOf(op)
      ensures offset.Ok? <==> |op.key| <= 65536 && (op.Put? ==> |op.value| <= 67108864)
      ensures |op.key| > 65536 ==> offset == Err(KeyTooLarge)
      ensures |op.key| <= 65536 && op.Put? && |op.value| > 67108864 ==> offset == Err(ValueTooLarge)
      ensures offset.Err? ==> file == old(file)
    {
      var bytes := Encode(op);
      if bytes.Err? {
        return Err(bytes.error);
      }
      offset := Ok(|file|);
      file := file + bytes.value;
    }

    method Truncate()
      modifies this
      ensures file == []
    {
      file := [];
    }

    /** Collects the iterator, stopping at its first error. */
    method ReplayAll() returns (ops: Result<seq<Operation>>)
      ensures ops == Replay(file)
    {
      hide Item, Decode;
      var iter := new WalIterator(file);
      var done: seq<Operation> := [];
      assert file[0..] == file;
      PrependedNothing(Replay(file));
      while true
        invariant iter.Valid() && iter.data == file && fresh(iter)
        invariant Replay(file) == Prepended(done, Replay(file[iter.pos..]))
        decreases |file| - iter.pos
      {
        ghost var rest := file[iter.pos..];
        var item := iter.Next();
        match item
        case None =>
          assert done + [] == done;
          return Ok(done);
        case Some(Err(error)) => return Err(error);
        case Some(Ok(op)) =>
          done := done + [op];
          assert rest[RecordLen(rest)..] == file[iter.pos..];
          PrependedOne(done[..|done| - 1], op, Replay(file[iter.pos..]));
          assert done[..|done| - 1] + [op] == done;
      }
    }
  }
}
