/** The manifest: a log of table additions and removals, and its replay. */
module Manifests {
  import opened Bytes
  import opened Wrappers
  import opened Crc

  /** Live tables as (id, level) in the order they were added, and the next id to hand out. */
  datatype Catalog = Catalog(tables: seq<(nat, nat)>, nextId: nat)

  datatype ManifestRecord =
    | AddTable(id: nat, level: nat)
    | RemoveTable(id: nat)
    | SetNextTableId(id: nat)

  const TYPE_ADD: byte := 1
  const TYPE_REMOVE: byte := 2
  const TYPE_NEXT_ID: byte := 3
  const RECORD_LEN: nat := 17

  predicate Listed(c: Catalog, id: nat)
  {
    exists i :: 0 <= i < |c.tables| && c.tables[i].0 == id
  }

  function WithNextId(c: Catalog): Catalog
  {
    c.(nextId := c.nextId + 1)
  }

  function WithTable(c: Catalog, id: nat, level: nat): Catalog
  {
    c.(tables := c.tables + [(id, level)])
  }

  function Dropped(tables: seq<(nat, nat)>, id: nat): seq<(nat, nat)>
  {
    if tables == [] then []
    else
      Dropped(tables[..|tables| - 1], id) +
      if tables[|tables| - 1].0 == id then [] else [tables[|tables| - 1]]
  }

  function WithoutTable(c: Catalog, id: nat): Catalog
  {
    c.(tables := Dropped(c.tables, id))
  }

  // ----- records -----

  /** The ids are 64-bit and the levels 32-bit. */
  predicate Encodable(r: ManifestRecord)
  {
    r.id < U64_LIMIT && (r.AddTable? ==> r.level < U32_LIMIT)
  }

  function Kind(r: ManifestRecord): byte
  {
    match r
    case AddTable(_, _) => TYPE_ADD
    case RemoveTable(_) => TYPE_REMOVE
    case SetNextTableId(_) => TYPE_NEXT_ID
  }

  function LevelOf(r: ManifestRecord): nat
  {
    if r.AddTable? then r.level else 0
  }

  function RecordBody(r: ManifestRecord): (body: seq<byte>)
    requires Encodable(r)
    ensures |body| == RECORD_LEN - 4
  {
    [Kind(r)] + U64Bytes(r.id) + U32Bytes(LevelOf(r))
  }

  function EncodeRecord(r: ManifestRecord): (bytes: seq<byte>)
    requires Encodable(r)
    ensures |bytes| == RECORD_LEN
  {
    U32Bytes(Crc32(RecordBody(r))) + RecordBody(r)
  }

  function DecodeBody(body: seq<byte>): Result<ManifestRecord>
  {
    if |body| != 13 then Err(InvalidManifest)
    else
      var id := ReadU64(body[1..9]);
      var level := ReadU32(body[9..13]);
      if body[0] == TYPE_ADD then Ok(AddTable(id, level))
      else if body[0] == TYPE_REMOVE then Ok(RemoveTable(id))
      else if body[0] == TYPE_NEXT_ID then Ok(SetNextTableId(id))
      else Err(InvalidManifest)
  }

  function DecodeRecord(bytes: seq<byte>): Result<ManifestRecord>
    requires |bytes| == RECORD_LEN
  {
    if Crc32(bytes[4..]) != ReadU32(bytes[..4]) then Err(InvalidManifest) else DecodeBody(bytes[4..])
  }

  /** One record on the in-memory state; an id may be added only once. */
  function Followed(c: Catalog, r: ManifestRecord): Result<Catalog>
  {
    match r
    case AddTable(id, level) => if Listed(c, id) then Err(InvalidManifest) else Ok(WithTable(c, id, level))
    case RemoveTable(id) => Ok(WithoutTable(c, id))
    case SetNextTableId(id) => Ok(c.(nextId := id))
  }

  const FRESH: Catalog := Catalog([], 1)

  /** The state after a list of records. */
  function CatalogAfter(records: seq<ManifestRecord>): Result<Catalog>
  {
    if records == [] then Ok(FRESH)
    else
      var before := CatalogAfter(records[..|records| - 1]);
      if before.Ok? then Followed(before.value, records[|records| - 1]) else before
  }

  // ----- the log -----

  function LogBytes(records: seq<ManifestRecord>): (bytes: seq<byte>)
    requires forall i :: 0 <= i < |records| ==> Encodable(records[i])
    ensures |bytes| == RECORD_LEN * |records|
  {
    if records == [] then []
    else LogBytes(records[..|records| - 1]) + EncodeRecord(records[|records| - 1])
  }

  lemma RecordRoundTrip(r: ManifestRecord)
    requires Encodable(r)
    ensures DecodeRecord(EncodeRecord(r)) == Ok(r)
  {
    hide U32Bytes, U64Bytes, ReadU32, ReadU64, Crc32;
    var body, bytes := RecordBody(r), EncodeRecord(r);
    assert bytes[4..] == body && bytes[..4] == U32Bytes(Crc32(body));
    assert body[1..9] == U64Bytes(r.id) && body[9..13] == U32Bytes(LevelOf(r));
    U32RoundTrip(Crc32(body));
    U64RoundTrip(r.id);
    U32RoundTrip(LevelOf(r));
  }

  /** Replaying the whole records among the first bytes of a log. */
  function Recovered(bytes: seq<byte>, whole: nat): Result<Catalog>
    requires RECORD_LEN * whole <= |bytes|
  {
    if whole == 0 then Ok(FRESH)
    else
      var before := Recovered(bytes, whole - 1);
      if before.Err? then before
      else
        var record := DecodeRecord(bytes[RECORD_LEN * (whole - 1)..RECORD_LEN * whole]);
        if record.Err? then Err(InvalidManifest) else Followed(before.value, record.value)
  }

  /** `recover`: a trailing fragment shorter than a record is ignored. */
  function RecoveredAll(bytes: seq<byte>): Result<Catalog>
  {
    Recovered(bytes, |bytes| / RECORD_LEN)
  }

  ghost predicate AllEncodable(records: seq<ManifestRecord>)
  {
    forall i :: 0 <= i < |records| ==> Encodable(records[i])
  }

  lemma {:induction false} LogPrefix(records: seq<ManifestRecord>, n: nat)
    requires AllEncodable(records) && n <= |records|
    ensures LogBytes(records)[..RECORD_LEN * n] == LogBytes(records[..n])
  {
    hide EncodeRecord;
    if n == |records| {
      assert records[..n] == records;
    } else {
      var last := |records| - 1;
      LogPrefix(records[..last], n);
      assert records[..last][..n] == records[..n];
      assert LogBytes(records)[..RECORD_LEN * n] == LogBytes(records[..last])[..RECORD_LEN * n];
    }
  }

  lemma LogSlice(records: seq<ManifestRecord>, n: nat)
    requires AllEncodable(records) && n < |records|
    ensures LogBytes(records)[RECORD_LEN * n..RECORD_LEN * (n + 1)] == EncodeRecord(records[n])
  {
    hide EncodeRecord;
    var upto := records[..n + 1];
    LogPrefix(records, n + 1);
    assert upto[..n] == records[..n];
    assert LogBytes(upto) == LogBytes(records[..n]) + EncodeRecord(records[n]);
    RecordRoundTrip(records[n]);
    assert LogBytes(records)[RECORD_LEN * n..RECORD_LEN * (n + 1)] == LogBytes(upto)[RECORD_LEN * n..];
  }

  lemma SamePrefix(x: seq<byte>, y: seq<byte>, a: nat, b: nat)
    requires a <= b <= |x| && b <= |y| && x[..b] == y[..b]
    ensures x[..a] == y[..a] && x[a..b] == y[a..b]
  {
    assert x[..a] == x[..b][..a] && y[..a] == y[..b][..a];
    assert x[a..b] == x[..b][a..] && y[a..b] == y[..b][a..];
  }

  lemma {:induction false} RecoveredPrefix(records: seq<ManifestRecord>, bytes: seq<byte>, n: nat)
    requires AllEncodable(records) && n <= |records| && RECORD_LEN * n <= |bytes|
    requires bytes[..RECORD_LEN * n] == LogBytes(records)[..RECORD_LEN * n]
    ensures Recovered(bytes, n) == CatalogAfter(records[..n])
  {
    hide EncodeRecord, DecodeRecord, LogBytes;
    if n == 0 {
    } else {
      var log, a, b := LogBytes(records), RECORD_LEN * (n - 1), RECORD_LEN * n;
      SamePrefix(bytes, log, a, b);
      RecoveredPrefix(records, bytes, n - 1);
      LogSlice(records, n - 1);
      RecordRoundTrip(records[n - 1]);
      assert records[..n][..n - 1] == records[..n - 1];
    }
  }

  lemma {:induction false} PrefixAccepted(records: seq<ManifestRecord>, n: nat)
    requires CatalogAfter(records).Ok? && n <= |records|
    ensures CatalogAfter(records[..n]).Ok?
  {
    if n == |records| {
      assert records[..n] == records;
    } else {
      var last := |records| - 1;
      PrefixAccepted(records[..last], n);
      assert records[..last][..n] == records[..n];
    }
  }

  /**
   * Replay of any byte prefix of a log the manifest wrote itself succeeds, and
   * gives the state after the records complete in it.
   */
  lemma ManifestPrefixReplay(records: seq<ManifestRecord>, cut: nat)
    requires AllEncodable(records) && CatalogAfter(records).Ok? && cut <= |LogBytes(records)|
    ensures cut / RECORD_LEN <= |records|
    ensures RecoveredAll(LogBytes(records)[..cut]) == CatalogAfter(records[..cut / RECORD_LEN])
    ensures RecoveredAll(LogBytes(records)[..cut]).Ok?
  {
    hide LogBytes, CatalogAfter, Recovered;
    var log, n := LogBytes(records), cut / RECORD_LEN;
    assert log[..cut][..RECORD_LEN * n] == log[..RECORD_LEN * n];
    RecoveredPrefix(records, log[..cut], n);
    PrefixAccepted(records, n);
  }

  lemma ManifestWhole(log: seq<ManifestRecord>)
    requires AllEncodable(log) && CatalogAfter(log).Ok?
    ensures RecoveredAll(LogBytes(log)) == CatalogAfter(log)
  {
    hide LogBytes, CatalogAfter, Recovered;
    var bytes := LogBytes(log);
    ManifestPrefixReplay(log, |bytes|);
    assert bytes[..|bytes|] == bytes && log[..|log|] == log;
  }

  // ----- growing after a tear -----

  /** The 17 bytes replay takes for the record appended behind a torn one. */
  function Window(torn: seq<byte>, r: ManifestRecord): (bytes: seq<byte>)
    requires Encodable(r) && |torn| < RECORD_LEN
    ensures |bytes| == RECORD_LEN
  {
    (torn + EncodeRecord(r))[..RECORD_LEN]
  }

  /**
   * What a record appended behind a torn tail is worth: the tail is not cut off on recovery, so replay
   * takes the tail and the first bytes of the record for one record, and ignores the rest.
   */
  lemma AppendAfterTear(log: seq<ManifestRecord>, torn: seq<byte>, r: ManifestRecord)
    requires AllEncodable(log) && CatalogAfter(log).Ok? && Encodable(r) && |torn| < RECORD_LEN
    ensures var c, got := CatalogAfter(log).value, DecodeRecord(Window(torn, r));
            var after := RecoveredAll(LogBytes(log) + torn + EncodeRecord(r));
            && after == (if got.Err? then Err(InvalidManifest) else Followed(c, got.value))
            && (torn == [] ==> got == Ok(r))
  {
    hide EncodeRecord, DecodeRecord, LogBytes, Recovered, CatalogAfter, Followed;
    var bytes, n := LogBytes(log), |log|;
    var file := bytes + torn + EncodeRecord(r);
    RecordRoundTrip(r);
    assert bytes[..RECORD_LEN * n] == bytes && log[..n] == log;
    assert file[..RECORD_LEN * n] == bytes;
    RecoveredPrefix(log, file, n);
    RecoveredNext(file, n);
    assert file[RECORD_LEN * n..RECORD_LEN * n + RECORD_LEN] == Window(torn, r);
    WholeCount(|file|, n + 1);
    assert torn == [] ==> Window(torn, r) == EncodeRecord(r);
  }

  /** A record whose last bytes, up to four, were changed is refused. */
  lemma ChangedTail(r: ManifestRecord, bytes: seq<byte>, kept: nat)
    requires Encodable(r) && RECORD_LEN - 4 <= kept <= RECORD_LEN == |bytes|
    requires bytes[..kept] == EncodeRecord(r)[..kept] && bytes != EncodeRecord(r)
    ensures DecodeRecord(bytes).Err?
  {
    hide Crc32, U32Bytes, ReadU32, ReadU64, RecordBody, DecodeBody;
    var good, body := EncodeRecord(r), RecordBody(r);
    U32RoundTrip(Crc32(body));
    assert good[..4] == good[..kept][..4] && bytes[..4] == bytes[..kept][..4];
    var before, v, w := good[..kept][4..], good[kept..], bytes[kept..];
    assert good == good[..kept] + v && bytes == good[..kept] + w;
    assert good[4..] == before + v + [] && bytes[4..] == before + w + [];
    assert good[4..] == body && good[..4] == U32Bytes(Crc32(body));
    BurstChangesCrc(before, v, w, []);
  }

  /**
   * A record appended behind a torn one of which up to four bytes are missing never takes effect: either
   * it happens to begin with the missing bytes, and the torn record takes effect in its place, or the
   * manifest is refused, and with it the database.
   */
  lemma AppendAfterTornRecord(log: seq<ManifestRecord>, torn: ManifestRecord, missing: nat, r: ManifestRecord)
    requires AllEncodable(log) && CatalogAfter(log).Ok? && Encodable(r) && Encodable(torn) && 1 <= missing <= 4
    ensures RecoveredAll(LogBytes(log) + EncodeRecord(torn)[..RECORD_LEN - missing] + EncodeRecord(r)) ==
            if EncodeRecord(r)[..missing] == EncodeRecord(torn)[RECORD_LEN - missing..]
            then Followed(CatalogAfter(log).value, torn) else Err(InvalidManifest)
  {
    hide EncodeRecord, DecodeRecord, LogBytes, Recovered, CatalogAfter, Followed;
    var kept, bytes := RECORD_LEN - missing, EncodeRecord(torn);
    AppendAfterTear(log, bytes[..kept], r);
    var window := Window(bytes[..kept], r);
    assert window[..kept] == bytes[..kept] && window[kept..] == EncodeRecord(r)[..missing];
    if window == bytes {
      RecordRoundTrip(torn);
    } else {
      assert window == window[..kept] + window[kept..] && bytes == bytes[..kept] + bytes[kept..];
      ChangedTail(torn, window, kept);
    }
  }

  // ----- ids -----

  /** Every id record continues the count: the id handed out with it is one less. */
  ghost predicate SelfCounted(records: seq<ManifestRecord>)
  {
    forall i :: 0 <= i < |records| && records[i].SetNextTableId? ==>
      CatalogAfter(records[..i]).Ok? && records[i].id == CatalogAfter(records[..i]).value.nextId + 1
  }

  lemma {:induction false} CountGrows(records: seq<ManifestRecord>, i: nat, n: nat)
    requires SelfCounted(records) && CatalogAfter(records).Ok? && i < n <= |records|
    requires records[i].SetNextTableId?
    ensures CatalogAfter(records[..n]).Ok? && CatalogAfter(records[..n]).value.nextId >= records[i].id
  {
    PrefixAccepted(records, n);
    PrefixAccepted(records, n - 1);
    assert records[..n][..n - 1] == records[..n - 1];
    if i == n - 1 {
    } else {
      CountGrows(records, i, n - 1);
    }
  }

  /** No id is handed out twice, however often the log is reopened. */
  lemma IdsNeverRepeat(records: seq<ManifestRecord>, i: nat, j: nat)
    requires SelfCounted(records) && CatalogAfter(records).Ok? && i < j < |records|
    requires records[i].SetNextTableId? && records[j].SetNextTableId?
    ensures records[i].id - 1 < records[j].id - 1
  {
    CountGrows(records, i, j);
  }

  // ----- the object -----

  class Manifest {
    var file: seq<byte>
    var nextTableId: nat
    var tables: seq<(nat, nat)>
    ghost var log: seq<ManifestRecord>

    /** The file is the log, and replaying the log gives the fields. */
    ghost predicate Valid()
      reads this
    {
      && AllEncodable(log)
      && SelfCounted(log)
      && file == LogBytes(log)
      && CatalogAfter(log) == Ok(Catalog(tables, nextTableId))
    }

    constructor ()
      ensures Valid() && tables == [] && nextTableId == 1 && log == []
    {
      file, nextTableId, tables, log := [], 1, [], [];
    }

    /** An existing file, before it is replayed; `log` is what it was written from. */
    constructor OnFile(file: seq<byte>, ghost log: seq<ManifestRecord>)
      ensures this.file == file && this.log == log
    {
      this.file, nextTableId, tables, this.log := file, 1, [], log;
    }

    /** Appends and syncs one record the state can follow. */
    method Append(r: ManifestRecord)
      requires Encodable(r)
      modifies this`file, this`log
      ensures file == old(file) + EncodeRecord(r) && log == old(log) + [r]
    {
      file := file + EncodeRecord(r);
      log := log + [r];
    }

    method AddTable(id: u64, level: u32) returns (r: Result<()>)
      requires Valid()
      modifies this
      ensures Valid() && nextTableId == old(nextTableId)
      ensures r.Ok? <==> !Listed(Catalog(old(tables), old(nextTableId)), id)
      ensures r.Ok? ==> tables == old(tables) + [(id, level)] && log == old(log) + [ManifestRecord.AddTable(id, level)]
      ensures r.Err? ==> r == Err(InvalidManifest) && tables == old(tables) && log == old(log)
    {
      if Listed(Catalog(tables, nextTableId), id) {
        return Err(InvalidManifest);
      }
      ghost var before := log;
      Append(ManifestRecord.AddTable(id, level));
      tables := tables + [(id, level)];
      LogGrows(before, ManifestRecord.AddTable(id, level));
      return Ok(());
    }

    /** One removal record per id, in order. */
    method RemoveTables(ids: seq<u64>)
      requires Valid()
      modifies this
      ensures Valid() && nextTableId == old(nextTableId)
      ensures log == old(log) + Removals(ids)
      ensures tables == DroppedAll(old(tables), ids)
    {
      hide Valid;
      for i := 0 to |ids|
        invariant Valid() && nextTableId == old(nextTableId)
        invariant log == old(log) + Removals(ids[..i])
        invariant tables == DroppedAll(old(tables), ids[..i])
      {
        RemoveOne(ids[i]);
        assert ids[..i + 1][..i] == ids[..i];
      }
      assert ids[..|ids|] == ids;
    }

    method RemoveOne(id: u64)
      requires Valid()
      modifies this
      ensures Valid() && nextTableId == old(nextTableId)
      ensures log == old(log) + [RemoveTable(id)] && tables == Dropped(old(tables), id)
    {
      ghost var before := log;
      Append(RemoveTable(id));
      tables := Dropped(tables, id);
      LogGrows(before, RemoveTable(id));
    }

    /** Hands out an id once the next one is on disk. */
    method NextTableId() returns (id: nat)
      requires Valid() && nextTableId + 1 < U64_LIMIT
      modifies this
      ensures Valid() && tables == old(tables)
      ensures id == old(nextTableId) && nextTableId == id + 1
      ensures log == old(log) + [SetNextTableId(id + 1)]
    {
      id := nextTableId;
      ghost var before := log;
      nextTableId := nextTableId + 1;
      Append(SetNextTableId(nextTableId));
      LogGrows(before, SetNextTableId(nextTableId));
    }

    /** Rebuilds the fields from the file. */
    method Recover() returns (r: Result<()>)
      modifies this`nextTableId, this`tables
      ensures r.Ok? <==> RecoveredAll(file).Ok?
      ensures r.Err? ==> r == Err(InvalidManifest)
      ensures r.Ok? ==> RecoveredAll(file) == Ok(Catalog(tables, nextTableId))
    {
      hide DecodeRecord, Recovered;
      nextTableId, tables := 1, [];
      var pos := 0;
      ghost var n := 0;
      NoneRecovered(file);
      while pos + RECORD_LEN <= |file|
        invariant pos == RECORD_LEN * n <= |file|
        invariant Recovered(file, n) == Ok(Catalog(tables, nextTableId))
      {
        var record := DecodeRecord(file[pos..pos + RECORD_LEN]);
        RecoveredNext(file, n);
        pos := pos + RECORD_LEN;
        n := n + 1;
        if record.Err? {
          RecoveredFails(file, n);
          return Err(InvalidManifest);
        }
        match record.value {
          case AddTable(id, level) =>
            if Listed(Catalog(tables, nextTableId), id) {
              RecoveredFails(file, n);
              return Err(InvalidManifest);
            }
            tables := tables + [(id, level)];
          case RemoveTable(id) =>
            tables := Dropped(tables, id);
          case SetNextTableId(id) =>
            nextTableId := id;
        }
      }
      WholeCount(|file|, n);
      return Ok(());
    }
  }

  lemma WholeCount(length: nat, n: nat)
    requires RECORD_LEN * n <= length
    ensures n <= length / RECORD_LEN && RECORD_LEN * (length / RECORD_LEN) <= length
    ensures length < RECORD_LEN * (n + 1) ==> length / RECORD_LEN == n
  {
  }

  lemma NoneRecovered(bytes: seq<byte>)
    ensures Recovered(bytes, 0) == Ok(FRESH)
  {
  }

  /** One more record of the log. */
  lemma RecoveredNext(bytes: seq<byte>, n: nat)
    requires RECORD_LEN * (n + 1) <= |bytes| && Recovered(bytes, n).Ok?
    ensures var record := DecodeRecord(bytes[RECORD_LEN * n..RECORD_LEN * n + RECORD_LEN]);
            Recovered(bytes, n + 1) ==
            if record.Err? then Err(InvalidManifest) else Followed(Recovered(bytes, n).value, record.value)
  {
    hide DecodeRecord, Followed;
  }

  lemma RecoveredFails(bytes: seq<byte>, n: nat)
    requires RECORD_LEN * n <= |bytes| && Recovered(bytes, n).Err?
    ensures RecoveredAll(bytes).Err?
  {
    hide Recovered;
    WholeCount(|bytes|, n);
    RecoveredStays(bytes, n, |bytes| / RECORD_LEN);
  }

  function Removals(ids: seq<nat>): seq<ManifestRecord>
  {
    if ids == [] then [] else Removals(ids[..|ids| - 1]) + [RemoveTable(ids[|ids| - 1])]
  }

  function DroppedAll(tables: seq<(nat, nat)>, ids: seq<nat>): seq<(nat, nat)>
  {
    if ids == [] then tables else Dropped(DroppedAll(tables, ids[..|ids| - 1]), ids[|ids| - 1])
  }

  /** A rejected log stays rejected whatever follows. */
  lemma {:induction false} RecoveredStays(bytes: seq<byte>, n: nat, m: nat)
    requires n <= m && RECORD_LEN * m <= |bytes| && Recovered(bytes, n).Err?
    ensures Recovered(bytes, m).Err?
  {
    hide DecodeRecord, Followed;
    if n == m {
    } else {
      RecoveredStays(bytes, n, m - 1);
    }
  }

  /** One more record, seen through the log's bytes, replay and count. */
  lemma LogGrows(log: seq<ManifestRecord>, r: ManifestRecord)
    requires AllEncodable(log) && Encodable(r) && SelfCounted(log) && CatalogAfter(log).Ok?
    requires r.SetNextTableId? ==> r.id == CatalogAfter(log).value.nextId + 1
    ensures AllEncodable(log + [r]) && SelfCounted(log + [r])
    ensures LogBytes(log + [r]) == LogBytes(log) + EncodeRecord(r)
    ensures CatalogAfter(log + [r]) == Followed(CatalogAfter(log).value, r)
  {
    hide EncodeRecord;
    assert (log + [r])[..|log|] == log;
    forall i | 0 <= i < |log + [r]| && (log + [r])[i].SetNextTableId?
      ensures CatalogAfter((log + [r])[..i]).Ok? && (log + [r])[i].id == CatalogAfter((log + [r])[..i]).value.nextId + 1
    {
      assert i < |log| ==> (log + [r])[..i] == log[..i];
    }
  }
}
