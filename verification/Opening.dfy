/** Opening a database from the bytes a crash left behind. */
module Opening {
  import opened Bytes
  import opened Wrappers
  import opened Records
  import opened MemTables
  import opened Picker
  import opened Install
  import opened Manifests
  import opened Wals
  import opened Machine
  import opened Invariant
  import opened Steps
  import opened TableFiles
  import opened TableLookup
  import opened Caches
  import opened SsTables
  import opened Versions
  import opened Images
  import opened DiskImages
  import opened Engines
  import Refinement

  // ----- tables -----

  predicate Opens(disk: Files, id: nat)
  {
    id in disk && Opened(disk[id]).Ok?
  }

  ghost predicate AllOpen(tables: seq<(nat, nat)>, disk: Files)
  {
    forall i :: 0 <= i < |tables| ==> Opens(disk, tables[i].0)
  }

  function LevelFor(level: nat, maxLevels: nat): nat
    requires maxLevels > 0
  {
    if level < maxLevels then level else maxLevels - 1
  }

  /** The tables of a level in the order the manifest lists them. */
  ghost function LoadedOn(tables: seq<(nat, nat)>, disk: Files, level: nat, maxLevels: nat): Tables
    requires AllOpen(tables, disk) && maxLevels > 0
  {
    if tables == [] then []
    else
      var (id, l) := tables[|tables| - 1];
      LoadedOn(tables[..|tables| - 1], disk, level, maxLevels) +
      if LevelFor(l, maxLevels) == level then [HandleOn(disk, id)] else []
  }

  lemma {:induction false} LoadedShown(tables: seq<(nat, nat)>, disk: Files, level: nat, maxLevels: nat)
    requires AllOpen(tables, disk) && maxLevels > 0
    ensures ShownAll(LoadedOn(tables, disk, level, maxLevels)) == OnLevel(tables, FilesOn(disk), level, maxLevels)
    ensures FromDisk(LoadedOn(tables, disk, level, maxLevels), disk)
  {
    hide Opened, Shown;
    if tables == [] {
    } else {
      var n := |tables| - 1;
      LoadedShown(tables[..n], disk, level, maxLevels);
      ShownSnoc(LoadedOn(tables[..n], disk, level, maxLevels), HandleOn(disk, tables[n].0));
    }
  }

  /** Opens every listed table and pushes it onto its level. */
  method LoadTables(tables: seq<(nat, nat)>, disk: Files, maxLevels: nat) returns (r: Result<seq<Tables>>)
    requires maxLevels > 0
    ensures r.Ok? <==> AllOpen(tables, disk)
    ensures r.Ok? <==> forall i :: 0 <= i < |tables| ==> tables[i].0 in disk && Opened(disk[tables[i].0]).Ok?
    ensures r.Ok? ==> |r.value| == maxLevels
    ensures r.Ok? ==> forall l :: 0 <= l < maxLevels ==> r.value[l] == LoadedOn(tables, disk, l, maxLevels)
  {
    hide Opened;
    var levels: seq<Tables> := seq(maxLevels, i => []);
    for i := 0 to |tables|
      invariant |levels| == maxLevels && AllOpen(tables[..i], disk)
      invariant forall l :: 0 <= l < maxLevels ==> levels[l] == LoadedOn(tables[..i], disk, l, maxLevels)
    {
      var (id, level) := tables[i];
      if id !in disk {
        return Err(InvalidManifest);
      }
      var t := SsTables.Open(id, disk[id]);
      if t.Err? {
        return Err(t.error);
      }
      assert tables[..i + 1][..i] == tables[..i];
      var l := LevelFor(level, maxLevels);
      levels := levels[l := levels[l] + [t.value]];
    }
    assert tables[..|tables|] == tables;
    return Ok(levels);
  }

  lemma {:induction false} ReverseShown(tables: Tables)
    ensures ShownAll(Reversed(tables)) == Reversed(ShownAll(tables))
  {
    hide Shown;
    if tables == [] {
    } else {
      ReverseShown(tables[1..]);
      ShownSnoc(Reversed(tables[1..]), tables[0]);
      assert ShownAll(tables)[1..] == ShownAll(tables[1..]);
    }
  }

  /** L0 newest first, every deeper level by smallest key. */
  method OrderLevels(levels: seq<Tables>) returns (ordered: seq<Tables>)
    ensures |ordered| == |levels|
    ensures forall i :: 0 <= i < |levels| ==>
            ordered[i] == if i == 0 then Reversed(levels[i]) else SortTables(levels[i])
  {
    ordered := levels;
    for i := 0 to |levels|
      invariant |ordered| == |levels|
      invariant forall j :: 0 <= j < i ==> ordered[j] == if j == 0 then Reversed(levels[j]) else SortTables(levels[j])
      invariant forall j :: i <= j < |levels| ==> ordered[j] == levels[j]
    {
      ordered := ordered[i := if i == 0 then Reversed(levels[i]) else SortTables(levels[i])];
    }
  }

  /** The loaded and ordered levels are the ones the machine recovers. */
  lemma LevelsRecovered(catalog: Catalog, disk: Files, hash: Hash, loaded: seq<Tables>, ordered: seq<Tables>,
                        maxLevels: nat)
    requires maxLevels > 0 && AllOpen(catalog.tables, disk) && FilesOk(disk, hash)
    requires |loaded| == |ordered| == maxLevels
    requires forall l :: 0 <= l < maxLevels ==> loaded[l] == LoadedOn(catalog.tables, disk, l, maxLevels)
    requires forall i :: 0 <= i < maxLevels ==>
             ordered[i] == if i == 0 then Reversed(loaded[i]) else SortTables(loaded[i])
    ensures ShownLevels(ordered) == RecoveredLevels(catalog, FilesOn(disk), maxLevels)
    ensures LevelsOnDisk(ordered, disk)
  {
    hide Opened, Shown, LoadedOn, FilesOk, Ranged, SortTables, SortBySmallest, OnLevel, FilesOn;
    forall i | 0 <= i < maxLevels
      ensures ShownAll(ordered[i]) == RecoveredLevels(catalog, FilesOn(disk), maxLevels)[i] &&
              FromDisk(ordered[i], disk)
    {
      LoadedShown(catalog.tables, disk, i, maxLevels);
      if i == 0 {
        ReverseShown(loaded[i]);
      } else {
        forall j | 0 <= j < |loaded[i]|
          ensures Ranged(loaded[i][j])
        {
          TableOnDisk(loaded[i], disk, hash, loaded[i][j]);
        }
        SortShown(loaded[i]);
      }
    }
  }

  // ----- the log -----

  /** Applies the operations of the log one by one. */
  method ReplayInto(ops: seq<Operation>) returns (memtable: MemTable)
    ensures fresh(memtable) && memtable.Valid() && memtable.entries == Replayed(ops)
  {
    hide Upserted;
    memtable := new MemTable();
    for i := 0 to |ops|
      invariant fresh(memtable) && memtable.Valid() && memtable.entries == Replayed(ops[..i])
    {
      assert ops[..i + 1][..i] == ops[..i];
      match ops[i]
      case Put(key, value) => memtable.Put(key, value);
      case Delete(key) => memtable.Delete(key);
    }
    assert ops[..|ops|] == ops;
  }

  lemma {:induction false} ReplayedWithinLimits(ops: seq<Operation>)
    requires AllWithinLimits(ops)
    ensures RunWithinLimits(Replayed(ops))
  {
    hide Upserted;
    if ops == [] {
    } else {
      var n := |ops| - 1;
      ReplayedWithinLimits(ops[..n]);
      UpsertedWithinLimits(Replayed(ops[..n]), ops[n].key, Effect(ops[n]));
    }
  }

  // ----- opening -----

  /** Every part of the bytes can be read. */
  ghost predicate Openable(walFile: seq<byte>, manifestFile: seq<byte>, disk: Files)
  {
    Replay(walFile).Ok? && RecoveredAll(manifestFile).Ok? && AllOpen(RecoveredAll(manifestFile).value.tables, disk)
  }

  lemma ShownOpenable(s: State, walFile: seq<byte>, manifestFile: seq<byte>, disk: Files, hash: Hash)
    requires DiskShows(s, walFile, manifestFile, disk, hash)
    ensures Openable(walFile, manifestFile, disk)
  {
    hide VersionOk, LogOk, FlushOk, LevelIdsOk, ReservedOk, JobOk, CatalogOk, Opened, Replay, RecoveredAll, TableOk,
         RunWithinLimits;
    var tables := s.catalog.tables;
    forall i | 0 <= i < |tables|
      ensures Opens(disk, tables[i].0)
    {
      assert tables[i].0 in s.files;
      assert FileOk(tables[i].0, disk[tables[i].0], hash);
    }
  }

  /** The reopened contents are the recovery of the state the process died in; where it may die they read as it did. */
  lemma ReopenedSound(s: State, walFile: seq<byte>, manifestFile: seq<byte>, disk: Files, hash: Hash,
                      levels: seq<Tables>)
    requires DiskShows(s, walFile, manifestFile, disk, hash)
    requires ShownLevels(levels) == RecoveredLevels(s.catalog, FilesOn(disk), s.options.maxLevels) &&
             LevelsOnDisk(levels, disk)
    ensures var next := StateOf(s.options, Replayed(s.wal), None, levels, s.wal, s.catalog, disk);
            && Reopened(s) == Ok(next)
            && (CrashOk(s) ==> Sound(next, levels, disk, map[], hash))
            && (CrashOk(s) ==> forall key :: Machine.Get(next, key) == Machine.Get(s, key))
  {
    hide Inv, Replay, RecoveredAll, FilesOk, LevelsOnDisk, RunWithinLimits, Machine.Get, RecoveredLevels, FilesOn,
         CrashOk, FilesPresent;
    ShownPresent(s);
    ReplayedWithinLimits(s.wal);
    if CrashOk(s) {
      CrashStep(s);
    }
  }

  lemma ShownPresent(s: State)
    requires Inv(s)
    ensures FilesPresent(s)
  {
    hide VersionOk, LogOk, FlushOk, LevelIdsOk, ReservedOk, JobOk, CatalogOk, CoherentOk;
  }

  method Open(options: Options, blockSize: nat, sizing: nat -> (nat, nat), hash: Hash, cacheBytes: nat,
              walFile: seq<byte>, manifestFile: seq<byte>, disk: Files, ghost s: State, ghost log: seq<ManifestRecord>)
    returns (r: Result<Engine>)
    requires options.maxLevels > 0
    ensures r.Ok? <==> Openable(walFile, manifestFile, disk)
    ensures r.Ok? ==> r.value.wal.file == walFile && r.value.manifest.file == manifestFile && r.value.disk == disk
    ensures DiskShows(s, walFile, manifestFile, disk, hash) && s.options == options ==>
              r.Ok? && Reopened(s) == Ok(r.value.View())
    ensures DiskShows(s, walFile, manifestFile, disk, hash) && s.options == options && CrashOk(s) ==>
              r.Ok? && r.value.Valid() && forall key :: Machine.Get(r.value.View(), key) == Machine.Get(s, key)
    ensures (&& DiskShows(s, walFile, manifestFile, disk, hash) && s.options == options && CrashOk(s)
             && LogClean(walFile) && ManifestClean(manifestFile, log) && r.value.ConfigOk()) ==> r.value.Writable()
  {
    hide Opened, Replay, RecoveredAll, FilesOk, LoadedOn, SortTables, Reversed, Inv, Sound, BlockCache.Valid,
         Machine.Get, CrashOk, ManifestClean, LogClean, Manifest.Valid;
    if DiskShows(s, walFile, manifestFile, disk, hash) {
      ShownOpenable(s, walFile, manifestFile, disk, hash);
    }
    var manifest := new Manifest.OnFile(manifestFile, log);
    var recovered := manifest.Recover();
    if recovered.Err? {
      return Err(recovered.error);
    }
    var loaded := LoadTables(manifest.tables, disk, options.maxLevels);
    if loaded.Err? {
      return Err(loaded.error);
    }
    var levels := OrderLevels(loaded.value);
    var version := new Version(levels);
    var wal := new Wal.OnFile(walFile);
    var ops := wal.ReplayAll();
    if ops.Err? {
      return Err(ops.error);
    }
    var memtable := ReplayInto(ops.value);
    var cache := new BlockCache(cacheBytes);
    var engine := new Engine(options, blockSize, sizing, hash, wal, manifest, version, cache, memtable, disk);
    if DiskShows(s, walFile, manifestFile, disk, hash) && s.options == options {
      LevelsRecovered(s.catalog, disk, hash, loaded.value, levels, options.maxLevels);
      ReopenedSound(s, walFile, manifestFile, disk, hash, levels);
    }
    if ManifestClean(manifestFile, log) {
      ManifestReplayed(manifest, log);
    }
    return Ok(engine);
  }

  /** The manifest ends at a record boundary and was written by the engine. */
  ghost predicate ManifestClean(file: seq<byte>, log: seq<ManifestRecord>)
  {
    AllEncodable(log) && SelfCounted(log) && CatalogAfter(log).Ok? && file == LogBytes(log)
  }

  lemma ManifestReplayed(manifest: Manifest, log: seq<ManifestRecord>)
    requires ManifestClean(manifest.file, log) && manifest.log == log
    requires RecoveredAll(manifest.file) == Ok(Catalog(manifest.tables, manifest.nextTableId))
    ensures manifest.Valid()
  {
    hide LogBytes, CatalogAfter, RecoveredAll;
    ManifestWhole(log);
  }

  // ----- crashes -----

  /** An empty directory shows a new engine, ready for writes. */
  lemma FreshDirectory(options: Options, hash: Hash)
    requires Usable(options)
    ensures DiskShows(Refinement.Opened(options), [], [], map[], hash)
    ensures LogClean([]) && ManifestClean([], [])
  {
    hide Inv;
    Refinement.OpenedInv(options);
    NoLog();
    EmptyLog();
    ManifestWhole([]);
  }

  /** A crash between two calls leaves bytes that show the engine's state. */
  lemma CrashBetweenCalls(e: Engine)
    requires e.Writable()
    ensures DiskShows(e.View(), e.wal.file, e.manifest.file, e.disk, e.hash) && CrashOk(e.View())
    ensures LogClean(e.wal.file) && ManifestClean(e.manifest.file, e.manifest.log)
  {
    hide Inv, LogBytes, CatalogAfter, RecoveredAll, Replay, LogOf, FilesOk, LevelsOnDisk, Faithful, RunWithinLimits,
         FilesOn;
    ManifestWhole(e.manifest.log);
  }

  /** A log cut inside its last record replays without it; a whole one replays with it. */
  lemma TornLog(file: seq<byte>, op: Operation, cut: nat)
    requires LogClean(file) && WithinLimits(op) && cut <= |RecordOf(op)|
    ensures Replay(file + RecordOf(op)[..cut]) ==
            Ok(if cut == |RecordOf(op)| then Committed(file) + [op] else Committed(file))
  {
    hide RecordOf, Item, LogOf;
    var ops, record := Committed(file), RecordOf(op);
    if cut == |record| {
      LogAppended(file, op);
      assert record[..cut] == record;
    } else {
      TornRecord(op, cut);
      ReplayBehind(ops, record[..cut]);
      assert ops + [] == ops;
    }
  }

  /**
   * A crash while a write's record goes out, whatever flush or compaction is in flight: the write
   * happened exactly when its last byte did.
   */
  lemma CrashDuringWrite(s: State, walFile: seq<byte>, manifestFile: seq<byte>, disk: Files, hash: Hash, op: Operation,
                         cut: nat)
    requires DiskShows(s, walFile, manifestFile, disk, hash) && LogClean(walFile)
    requires Ready(s, Write(op)) && WithinLimits(op) && cut <= |RecordOf(op)|
    ensures DiskShows(if cut == |RecordOf(op)| then Do(s, Write(op)).value else s,
                      walFile + RecordOf(op)[..cut], manifestFile, disk, hash)
  {
    hide Inv, RecoveredAll, Replay, FilesOk, FilesOn, Applied, RecordOf, LogClean;
    TornLog(walFile, op, cut);
    CommittedIs(walFile);
    WriteStep(s, op);
  }

  /**
   * A crash while a manifest record goes out, in the middle of a flush or a compaction as well as
   * between calls: a part of the record is as good as none.
   */
  lemma CrashDuringRecord(s: State, walFile: seq<byte>, log: seq<ManifestRecord>, disk: Files, hash: Hash,
                          r: ManifestRecord, cut: nat)
    requires AllEncodable(log) && DiskShows(s, walFile, LogBytes(log), disk, hash)
    requires Encodable(r) && cut < RECORD_LEN
    ensures DiskShows(s, walFile, LogBytes(log) + EncodeRecord(r)[..cut], disk, hash)
  {
    hide Inv, Recovered, Replay, FilesOk, FilesOn, EncodeRecord, LogBytes, CatalogAfter;
    assert LogBytes(log)[..RECORD_LEN * |log|] == LogBytes(log) && log[..|log|] == log;
    RecoveredPrefix(log, LogBytes(log), |log|);
    TornManifest(log, r, cut);
  }

  lemma TornManifest(log: seq<ManifestRecord>, r: ManifestRecord, cut: nat)
    requires AllEncodable(log) && CatalogAfter(log).Ok? && Encodable(r) && cut < RECORD_LEN
    ensures RecoveredAll(LogBytes(log) + EncodeRecord(r)[..cut]) == CatalogAfter(log)
  {
    hide EncodeRecord, Recovered, LogBytes, CatalogAfter;
    var bytes := LogBytes(log) + EncodeRecord(r)[..cut];
    var n := RECORD_LEN * |log|;
    assert bytes[..n] == LogBytes(log) == LogBytes(log)[..n];
    RecoveredPrefix(log, bytes, |log|);
    assert log[..|log|] == log;
    assert |bytes| / RECORD_LEN == |log|;
  }
}
