/** What the files of a database show, between any two writes to them. */
module DiskImages {
  import opened Bytes
  import opened Wrappers
  import opened Runs
  import opened Records
  import opened Levels
  import opened Compaction
  import opened Picker
  import opened Install
  import opened Manifests
  import opened Wals
  import opened Machine
  import opened Invariant
  import opened Calls
  import opened TableFiles
  import opened TableLookup
  import opened Caches
  import opened SsTables
  import opened Versions
  import opened Images

  // ----- the log -----

  /** The operations a log replays to. */
  ghost function Committed(file: seq<byte>): seq<Operation>
  {
    if Replay(file).Ok? then Replay(file).value else []
  }

  /** The log ends at a record boundary. */
  ghost predicate LogClean(file: seq<byte>)
  {
    Replay(file).Ok? && AllWithinLimits(Committed(file)) && file == LogOf(Committed(file))
  }

  lemma NoLog()
    ensures LogClean([]) && Committed([]) == []
  {
    EmptyLog();
  }

  lemma LogAppended(file: seq<byte>, op: Operation)
    requires LogClean(file) && WithinLimits(op)
    ensures LogClean(file + RecordOf(op)) && Committed(file + RecordOf(op)) == Committed(file) + [op]
  {
    hide RecordOf, Replay;
    var ops := Committed(file);
    LogConcat(ops, [op]);
    assert RecordOf(op) + LogOf([]) == RecordOf(op);
    assert LogOf([op]) == RecordOf(op);
    WholeReplay(ops + [op]);
  }

  lemma CommittedIs(file: seq<byte>)
    requires LogClean(file)
    ensures Replay(file) == Ok(Committed(file)) && AllWithinLimits(Committed(file))
  {
  }

  // ----- new files -----

  lemma CreatedFile(id: nat, run: Run, blockSize: nat, size: (nat, nat), hash: Hash)
    requires ProperRun(run) && RunWithinLimits(run) && Room(run, blockSize, size, hash)
    ensures var t := Created(id, run, blockSize, size, hash);
            && t.id == id && FileOk(id, t.file, hash) && Opened(t.file) == Ok(MetaIn(t))
            && Shown(t) == Table(id, run, |t.file|) && Ranged(t)
  {
    CreatedServes(id, run, blockSize, size, hash);
    hide Opened, TableOk, FileOf, RowsOf, RunWithinLimits, Content;
    var t := Created(id, run, blockSize, size, hash);
    assert TableOf(id, t.file, MetaIn(t)) == t;
  }

  lemma TableAdded(levels: seq<Tables>, disk: Files, cached: map<BlockKey, Block>, hash: Hash, nextId: nat, t: SsTable)
    requires TablesOk(levels, disk, hash, nextId) && Faithful(cached, DiskBlocks(disk))
    requires t.id == nextId && FileOk(t.id, t.file, hash) && Opened(t.file) == Ok(MetaIn(t))
    ensures var more := disk[t.id := t.file];
            && TablesOk(levels, more, hash, nextId + 1) && Faithful(cached, DiskBlocks(more))
            && FilesOn(more) == FilesOn(disk)[t.id := Shown(t)]
            && FromDisk([t], more)
  {
    hide Opened, FileOk, DiskBlocks, FilesOk, LevelsOnDisk, FilesOn, Faithful;
    FileAdded(disk, hash, t, cached, levels);
  }

  // ----- images -----

  /** The bytes on disk at one moment. */
  datatype Image = Image(wal: seq<byte>, manifest: seq<byte>, disk: Files)

  /** The bytes are what the state `s`, in the middle of anything, has on disk. */
  ghost predicate DiskShows(s: State, walFile: seq<byte>, manifestFile: seq<byte>, disk: Files, hash: Hash)
  {
    && Inv(s)
    && Replay(walFile) == Ok(s.wal) && AllWithinLimits(s.wal)
    && RecoveredAll(manifestFile) == Ok(s.catalog)
    && s.files == FilesOn(disk) && FilesOk(disk, hash) && forall id :: id in disk ==> id < s.catalog.nextId
  }

  /** A crash that leaves this image reopens to what `s` reads. */
  ghost predicate Recovers(image: Image, s: State, hash: Hash)
  {
    exists t: State ::
      && t.options == s.options
      && DiskShows(t, image.wal, image.manifest, image.disk, hash)
      && CrashOk(t)
      && forall key :: Machine.Get(t, key) == Machine.Get(s, key)
  }

  lemma RecoversSame(image: Image, s: State, t: State, hash: Hash)
    requires Recovers(image, s, hash) && s.options == t.options
    requires forall key :: Machine.Get(s, key) == Machine.Get(t, key)
    ensures Recovers(image, t, hash)
  {
    hide DiskShows, Machine.Get, CrashOk;
  }

  /** The disk of a state that has the machine's log, manifest and files. */
  lemma Shows(t: State, s: State, image: Image, hash: Hash)
    requires Unseen(s, Ok(t)) && !MidRemoval(t) && t.options == s.options
    requires Replay(image.wal) == Ok(t.wal) && AllWithinLimits(t.wal)
    requires RecoveredAll(image.manifest) == Ok(t.catalog)
    requires t.files == FilesOn(image.disk) && FilesOk(image.disk, hash)
    requires forall id :: id in image.disk ==> id < t.catalog.nextId
    ensures Recovers(image, s, hash)
  {
    hide Inv, Machine.Get, Replay, RecoveredAll, FilesOn, FilesOk;
  }

  /** Every image a flush passes through recovers to what it started from. */
  lemma FlushImages(s: State, levels: seq<Tables>, disk: Files, cached: map<BlockKey, Block>, hash: Hash,
                    t: SsTable, walFile: seq<byte>, named: seq<byte>, listed: seq<byte>)
    requires Inv(s) && Idle(s) && s.mem != [] && s.files == FilesOn(disk)
    requires TablesOk(levels, disk, hash, s.catalog.nextId) && Faithful(cached, DiskBlocks(disk))
    requires t.id == s.catalog.nextId && FileOk(t.id, t.file, hash) && Opened(t.file) == Ok(MetaIn(t))
    requires Shown(t) == Table(t.id, s.mem, |t.file|)
    requires LogClean(walFile) && Committed(walFile) == s.wal
    requires RecoveredAll(named) == Ok(WithNextId(s.catalog))
    requires RecoveredAll(listed) == Ok(WithTable(WithNextId(s.catalog), t.id, 0))
    ensures var more := disk[t.id := t.file];
            && Recovers(Image(walFile, named, disk), s, hash)
            && Recovers(Image(walFile, named, more), s, hash)
            && Recovers(Image(walFile, listed, more), s, hash)
            && Recovers(Image([], listed, more), s, hash)
  {
    hide Inv, Machine.Get, Replay, RecoveredAll, FilesOn, FilesOk, LevelsOnDisk, Faithful, FileOk, Opened, Shown,
         LogClean, Committed, WithNewest, Recovers;
    var more, size := disk[t.id := t.file], |t.file|;
    TableAdded(levels, disk, cached, hash, s.catalog.nextId, t);
    CommittedIs(walFile);
    FlushSteps(s, size);
    FlushCall(s, size);
    Shows(FlushAt(s, size, false, false), s, Image(walFile, named, disk), hash);
    Shows(FlushAt(s, size, true, false), s, Image(walFile, named, more), hash);
    Shows(FlushAt(s, size, true, true), s, Image(walFile, listed, more), hash);
    EmptyLog();
    Shows(Flushed(s, size), s, Image([], listed, more), hash);
  }

  /** Every image a compaction passes through, except between two removals, recovers to what it started from. */
  lemma CompactImages(s: State, levels: seq<Tables>, disk: Files, cached: map<BlockKey, Block>, hash: Hash,
                      spec: Job, t: SsTable, walFile: seq<byte>, named: seq<byte>, listed: seq<byte>,
                      removed: seq<byte>)
    requires Inv(s) && Idle(s) && Pick(s.levels, s.options) == Some(spec) && s.files == FilesOn(disk)
    requires TablesOk(levels, disk, hash, s.catalog.nextId) && Faithful(cached, DiskBlocks(disk))
    requires t.id == s.catalog.nextId && FileOk(t.id, t.file, hash) && Opened(t.file) == Ok(MetaIn(t))
    requires Shown(t) == OutputOf(s, spec, |t.file|)
    requires LogClean(walFile) && Committed(walFile) == s.wal
    requires RecoveredAll(named) == Ok(WithNextId(s.catalog))
    requires RecoveredAll(listed) == Ok(WithTable(WithNextId(s.catalog), t.id, spec.outputLevel))
    requires RecoveredAll(removed) == Ok(CatalogAfterJob(s.catalog, spec))
    ensures var more := disk[t.id := t.file];
            && Recovers(Image(walFile, named, disk), s, hash)
            && Recovers(Image(walFile, named, more), s, hash)
            && Recovers(Image(walFile, listed, more), s, hash)
            && Recovers(Image(walFile, removed, more), s, hash)
  {
    hide Inv, Machine.Get, Replay, RecoveredAll, FilesOn, FilesOk, LevelsOnDisk, Faithful, FileOk, Opened, Shown,
         LogClean, Committed, Pick, MergedRun, Installed, DroppedAll, Recovers;
    var more, size := disk[t.id := t.file], |t.file|;
    TableAdded(levels, disk, cached, hash, s.catalog.nextId, t);
    CommittedIs(walFile);
    CompactSteps(s, spec, size);
    CompactCall(s, spec, size);
    Shows(CompactAt(s, spec, size, false, false), s, Image(walFile, named, disk), hash);
    Shows(CompactAt(s, spec, size, true, false), s, Image(walFile, named, more), hash);
    Shows(CompactAt(s, spec, size, true, true), s, Image(walFile, listed, more), hash);
    Shows(Compacted(s, spec, size), s, Image(walFile, removed, more), hash);
  }

  /**
   * The image after the add record and `n` removals shows the machine in the middle of its removals;
   * where that does no lasting harm, it recovers to what the compaction started from.
   */
  lemma RemovalImage(s: State, levels: seq<Tables>, disk: Files, cached: map<BlockKey, Block>, hash: Hash,
                     spec: Job, t: SsTable, walFile: seq<byte>, n: nat, file: seq<byte>) returns (mid: State)
    requires Inv(s) && Idle(s) && Pick(s.levels, s.options) == Some(spec) && s.files == FilesOn(disk)
    requires TablesOk(levels, disk, hash, s.catalog.nextId) && Faithful(cached, DiskBlocks(disk))
    requires t.id == s.catalog.nextId && FileOk(t.id, t.file, hash) && Opened(t.file) == Ok(MetaIn(t))
    requires Shown(t) == OutputOf(s, spec, |t.file|)
    requires LogClean(walFile) && Committed(walFile) == s.wal && n <= |spec.inputs|
    requires var added := WithTable(WithNextId(s.catalog), t.id, spec.outputLevel);
             RecoveredAll(file) == Ok(added.(tables := DroppedAll(added.tables, InputIds(spec.inputs)[..n])))
    ensures mid.compact == CompactLogging(s.levels, spec, Shown(t), n) && mid.levels == s.levels && mid.wal == s.wal
    ensures DiskShows(mid, walFile, file, disk[t.id := t.file], hash)
    ensures forall key :: Machine.Get(mid, key) == Machine.Get(s, key)
    ensures CrashOk(mid) ==> Recovers(Image(walFile, file, disk[t.id := t.file]), s, hash)
  {
    hide Inv, Machine.Get, Replay, RecoveredAll, FilesOn, FilesOk, LevelsOnDisk, Faithful, FileOk, Opened, Shown,
         LogClean, Committed, Pick, MergedRun, DroppedAll, CrashOk;
    TableAdded(levels, disk, cached, hash, s.catalog.nextId, t);
    CommittedIs(walFile);
    CompactSteps(s, spec, |t.file|);
    mid := RemoveInputs(CompactAt(s, spec, |t.file|, true, true), n);
  }
}
