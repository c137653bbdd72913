/** The engine object: reads, scans, writes, flush and compaction, over the bytes on disk. */
module Engines {
  import opened Bytes
  import opened Wrappers
  import opened Runs
  import opened Records
  import opened MemTables
  import opened Levels
  import opened Compaction
  import opened Picker
  import opened Install
  import opened Merging
  import opened Manifests
  import opened Wals
  import opened Machine
  import opened Invariant
  import opened Calls
  import opened TableFiles
  import opened TableLookup
  import opened Blooms
  import opened Caches
  import opened SsTables
  import opened Streams
  import opened Scans
  import opened MergeLoop
  import opened Versions
  import opened Images
  import opened DiskImages

  // ----- reads -----

  function ValidateKey(key: Key): Result<()>
  {
    if key == [] then Err(EmptyKey)
    else if |key| > MAX_KEY_SIZE then Err(KeyTooLarge)
    else Ok(())
  }

  function ValidateValue(value: seq<byte>): Result<()>
  {
    if |value| > MAX_VALUE_SIZE then Err(ValueTooLarge) else Ok(())
  }

  /** A table that serves its entries, read or not. */
  ghost predicate Searchable(t: SsTable, hash: Hash, disk: Disk)
  {
    Serves(MetaIn(t), t.file, BlocksIn(t), Content(t), hash) && Stored(t.id, t.index, t.file, disk)
  }

  /** The first table, newest first, that has an entry for the key decides. */
  method GetFromTables(tables: Tables, key: Key, hash: Hash, cache: BlockCache, ghost disk: Disk)
    returns (r: Result<Option<seq<byte>>>)
    requires forall t :: t in tables ==> Searchable(t, hash, disk)
    requires cache.Valid() && Faithful(cache.blocks, disk)
    modifies cache
    ensures r.Ok? ==> r.value == Visible(FirstIn(ShownAll(tables), key))
    ensures r.Err? ==> exists t :: t in tables && !Intact(t.index, t.file)
    ensures cache.Valid() && Faithful(cache.blocks, disk)
  {
    hide Content, Lookup, Serves, Stored, Faithful, Intact, MightHold, InKeyRange;
    ghost var all := ShownAll(tables);
    assert all[0..] == all;
    for i := 0 to |tables|
      invariant cache.Valid() && Faithful(cache.blocks, disk)
      invariant FirstIn(all, key) == FirstIn(all[i..], key)
    {
      var t := tables[i];
      assert t in tables && all[i..][1..] == all[i + 1..];
      if !InKeyRange(MetaIn(t), key) {
        RuledOut(MetaIn(t), t.file, BlocksIn(t), Content(t), hash, key);
        continue;
      }
      var maybe := MightContain(t.filter, hash, key);
      if !maybe {
        RuledOut(MetaIn(t), t.file, BlocksIn(t), Content(t), hash, key);
        continue;
      }
      var found :- SsTables.Get(t, key, hash, cache, disk, BlocksIn(t), Content(t));
      match found
      case Some(Value(value)) => return Ok(Some(value));
      case Some(Tombstone) => return Ok(None);
      case None =>
    }
    return Ok(None);
  }

  lemma {:induction false} FirstInLevels(levels: seq<Tables>, key: Key)
    ensures FirstIn(ShownAll(Concat(levels)), key) == LookupFrom(ShownLevels(levels), 0, key)
  {
    hide Shown;
    ConcatFrom(levels, 0, key);
    assert levels[0..] == levels;
  }

  /** The levels from `i` on, one after the other, answer as the layered lookup does. */
  lemma {:induction false} ConcatFrom(levels: seq<Tables>, i: nat, key: Key)
    requires i <= |levels|
    ensures FirstIn(ShownAll(Concat(levels[i..])), key) == LookupFrom(ShownLevels(levels), i, key)
    decreases |levels| - i
  {
    hide Shown;
    if i == |levels| {
      assert levels[i..] == [];
    } else {
      ConcatFrom(levels, i + 1, key);
      ConcatHead(levels[i..]);
      assert levels[i..][1..] == levels[i + 1..];
      ShownConcat(levels[i], Concat(levels[i + 1..]));
      FirstInConcat(ShownAll(levels[i]), ShownAll(Concat(levels[i + 1..])), key);
    }
  }

  lemma {:induction false} ConcatHead(levels: seq<Tables>)
    requires levels != []
    ensures Concat(levels) == levels[0] + Concat(levels[1..])
  {
    var n := |levels| - 1;
    if n > 0 {
      ConcatHead(levels[..n]);
      assert levels[..n][1..] == levels[1..][..n - 1];
    } else {
      assert levels[..0] == [] && levels[1..] == [];
      assert Concat([]) == [];
    }
  }

  lemma ShownConcat(a: Tables, b: Tables)
    ensures ShownAll(a + b) == ShownAll(a) + ShownAll(b)
  {
    hide Shown;
  }

  lemma {:induction false} ConcatMembers(levels: seq<Tables>, t: SsTable)
    requires t in Concat(levels)
    ensures exists i :: 0 <= i < |levels| && t in levels[i]
  {
    var n := |levels| - 1;
    if t in levels[n] {
    } else {
      ConcatMembers(levels[..n], t);
      var i :| 0 <= i < |levels[..n]| && t in levels[..n][i];
      assert t in levels[i];
    }
  }

  lemma TablesSearchable(levels: seq<Tables>, disk: Files, hash: Hash)
    requires FilesOk(disk, hash) && LevelsOnDisk(levels, disk)
    ensures forall t :: t in Concat(levels) ==> Searchable(t, hash, DiskBlocks(disk)) && Intact(t.index, t.file)
  {
    hide FilesOk, Content, Serves, Stored, Intact, Opened, Concat;
    forall t | t in Concat(levels)
      ensures Searchable(t, hash, DiskBlocks(disk)) && Intact(t.index, t.file)
    {
      ConcatMembers(levels, t);
      var i :| 0 <= i < |levels| && t in levels[i];
      assert FromDisk(levels[i], disk);
      TableOnDisk(levels[i], disk, hash, t);
      StoredOnDisk(disk, hash, t);
    }
  }

  /** The machine state for the contents of an engine's fields and files. */
  ghost function StateOf(options: Options, entries: Run, frozen: Option<Run>, levels: seq<Tables>,
                         log: seq<Operation>, catalog: Catalog, disk: Files): State
  {
    State(options, entries, ShownLevels(levels),
          if frozen.None? then FlushIdle else Flushing(frozen.value, Frozen), CompactIdle,
          log, catalog, FilesOn(disk))
  }

  /** What those contents keep. */
  ghost predicate Sound(s: State, levels: seq<Tables>, disk: Files, cached: map<BlockKey, Block>, hash: Hash)
  {
    && Inv(s) && RunWithinLimits(s.mem)
    && TablesOk(levels, disk, hash, s.catalog.nextId)
    && Faithful(cached, DiskBlocks(disk))
  }

  class Engine {
    const options: Options
    const blockSize: nat
    const sizing: nat -> (nat, nat)
    const hash: Hash
    const wal: Wal
    const manifest: Manifest
    const version: Version
    const cache: BlockCache
    var memtable: MemTable
    var immutable: MemTable?
    var disk: Files

    /** The state of the machine that the fields and the files stand for. */
    ghost function View(): State
      reads this, wal, manifest, version, memtable, immutable
    {
      StateOf(options, memtable.entries, if immutable == null then None else Some(immutable.entries), version.levels,
              Committed(wal.file), Catalog(manifest.tables, manifest.nextTableId), disk)
    }

    /** Enough for reads. */
    ghost predicate Valid()
      reads this, wal, manifest, version, cache, memtable, immutable
    {
      memtable.Valid() && cache.Valid() && Sound(View(), version.levels, disk, cache.blocks, hash)
    }

    /** The options the file formats have room for. */
    ghost predicate ConfigOk()
    {
      && options.maxLevels < U32_LIMIT && blockSize <= MAX_BLOCK_SIZE
      && forall n :: 0 < sizing(n).0 && 1 <= sizing(n).1 <= MAX_HASHES
    }

    /** Enough for writes: no flush is pending, and both logs end at a record boundary. */
    ghost predicate Writable()
      reads this, wal, manifest, version, cache, memtable, immutable
    {
      && Valid() && immutable == null && ConfigOk()
      && manifest.Valid() && LogClean(wal.file)
    }

    constructor (options: Options, blockSize: nat, sizing: nat -> (nat, nat), hash: Hash,
                 wal: Wal, manifest: Manifest, version: Version, cache: BlockCache, memtable: MemTable, disk: Files)
      ensures this.options == options && this.blockSize == blockSize && this.sizing == sizing && this.hash == hash
      ensures this.wal == wal && this.manifest == manifest && this.version == version && this.cache == cache
      ensures this.memtable == memtable && this.immutable == null && this.disk == disk
    {
      this.options, this.blockSize, this.sizing, this.hash := options, blockSize, sizing, hash;
      this.wal, this.manifest, this.version, this.cache := wal, manifest, version, cache;
      this.memtable, this.immutable, this.disk := memtable, null, disk;
    }

    /** Memtable, then immutable memtable, then tables, newest first. */
    method Get(key: Key) returns (r: Result<Option<seq<byte>>>)
      requires Valid()
      modifies cache
      ensures Valid() && View() == old(View())
      ensures r.Ok? <==> 1 <= |key| <= 65536
      ensures r.Ok? ==> r.value == Machine.Get(View(), key)
      ensures key == [] ==> r == Err(EmptyKey)
      ensures |key| > 65536 ==> r == Err(KeyTooLarge)
    {
      hide Lookup, Inv, FilesOk, LevelsOnDisk, FirstIn, LookupFrom, Faithful, RunWithinLimits;
      var valid := ValidateKey(key);
      if valid.Err? {
        return Err(valid.error);
      }
      match Lookup(memtable.entries, key)
      case Some(Value(value)) => return Ok(Some(value));
      case Some(Tombstone) => return Ok(None);
      case None =>
      if immutable != null {
        match Lookup(immutable.entries, key)
        case Some(Value(value)) => return Ok(Some(value));
        case Some(Tombstone) => return Ok(None);
        case None =>
      }
      NoEntry(key);
      TablesSearchable(version.levels, disk, hash);
      var tables := version.TablesNewestFirst();
      FirstInLevels(version.levels, key);
      r := GetFromTables(tables, key, hash, cache, DiskBlocks(disk));
    }

    /** A scan yields, in key order, exactly the pairs in range that `Get` returns. */
    method Scan(start: Bound, end: Bound) returns (r: Result<seq<(Key, seq<byte>)>>)
      requires Valid()
      ensures r.Ok? && Scans.Increasing(r.value)
      ensures forall k, v :: (k, v) in r.value <==>
                && Machine.Get(View(), k) == Some(v)
                && (start.Unbounded? || Lt(start.key, k) || (start.Included? && k == start.key))
                && (end.Unbounded? || Lt(k, end.key) || (end.Included? && k == end.key))
    {
      AllInRange(start, end);
      hide Sound, Scanned, InRange, Machine.Get, Scans.Increasing, BlockCache.Valid, ShownAll, TableOk, Concat, Layers,
           Entries, RunsOf;
      var tables := version.TablesNewestFirst();
      ScannedTables(View(), version.levels, disk, cache.blocks, hash);
      var streams := StreamsOf(tables, hash);
      var frozen := if immutable == null then None else Some(immutable.entries);
      r := Scans.Scan(memtable.entries, frozen, streams, start, end);
      ScannedView(options, memtable.entries, frozen, version.levels, Committed(wal.file),
                  Catalog(manifest.tables, manifest.nextTableId), disk,
                  cache.blocks, hash, start, end);
    }

    /** There is room for a table of these entries, and an id for it. */
    ghost predicate RoomFor(run: Run)
      reads manifest
    {
      Room(run, blockSize, sizing(|run|), hash) && manifest.nextTableId + 1 < U64_LIMIT
    }

    /** `images` are the bytes on disk after each durable write of the call, in order. */
    method Put(key: Key, value: seq<byte>) returns (r: Result<()>, ghost images: seq<Image>)
      requires Writable()
      requires 1 <= |key| <= 65536 && |value| <= 67108864 ==>
               RoomFor(Applied(memtable.entries, Operation.Put(key, value)))
      modifies this, wal, manifest, version, memtable
      ensures Writable()
      ensures r.Ok? <==> 1 <= |key| <= 65536 && |value| <= 67108864
      ensures key == [] ==> r == Err(EmptyKey)
      ensures |key| > 65536 ==> r == Err(KeyTooLarge)
      ensures 1 <= |key| <= 65536 && |value| > 67108864 ==> r == Err(ValueTooLarge)
      ensures r.Err? ==> View() == old(View())
      ensures r.Ok? ==> forall k ::
                Machine.Get(View(), k) == if k == key then Some(value) else Machine.Get(old(View()), k)
      ensures r.Ok? ==> images != [] && AllRecover(images, View(), hash)
    {
      hide Sound, Room, StateOf, BlockCache.Valid, Manifest.Valid, Machine.Get, LogClean, Committed, Upserted,
           AllRecover;
      images := [];
      r := ValidateKey(key);
      if r.Err? {
        return;
      }
      r := ValidateValue(value);
      if r.Err? {
        return;
      }
      images := Write(Operation.Put(key, value));
    }

    method Delete(key: Key) returns (r: Result<()>, ghost images: seq<Image>)
      requires Writable() && (1 <= |key| <= 65536 ==> RoomFor(Applied(memtable.entries, Operation.Delete(key))))
      modifies this, wal, manifest, version, memtable
      ensures Writable()
      ensures r.Ok? <==> 1 <= |key| <= 65536
      ensures key == [] ==> r == Err(EmptyKey)
      ensures |key| > 65536 ==> r == Err(KeyTooLarge)
      ensures r.Err? ==> View() == old(View())
      ensures r.Ok? ==> forall k :: Machine.Get(View(), k) == if k == key then None else Machine.Get(old(View()), k)
      ensures r.Ok? ==> images != [] && AllRecover(images, View(), hash)
    {
      hide Sound, Room, StateOf, BlockCache.Valid, Manifest.Valid, Machine.Get, LogClean, Committed, Upserted,
           AllRecover;
      images := [];
      r := ValidateKey(key);
      if r.Err? {
        return;
      }
      images := Write(Operation.Delete(key));
    }

    /** Log first, then the memtable, then a flush once the memtable is full. */
    method Write(op: Operation) returns (ghost images: seq<Image>)
      requires Writable() && op.key != [] && WithinLimits(op) && RoomFor(Applied(memtable.entries, op))
      modifies this, wal, manifest, version, memtable
      ensures Writable()
      ensures forall key :: Machine.Get(View(), key) == AfterWrite(Machine.Get(old(View()), key), op, key)
      ensures AllRecover(images, View(), hash)
      ensures |images| == if Weight(Applied(old(memtable.entries), op)) >= options.memtableSizeBytes then 5 else 1
      ensures old(memtable.entries) == [] && op.Put? ==>
                |images| == if |op.key| + |op.value| >= options.memtableSizeBytes then 5 else 1
      ensures old(memtable.entries) == [] && op.Delete? ==>
                |images| == if |op.key| >= options.memtableSizeBytes then 5 else 1
    {
      hide Sound, Room, BlockCache.Valid, Manifest.Valid, Machine.Get, LogClean, Committed, Upserted, ShownLevels,
           FilesOn, Recovers;
      NeverEmpty(memtable.entries, op.key, Effect(op));
      FirstWeight(op.key, Effect(op));
      WriteKept(View(), version.levels, disk, cache.blocks, hash, op);
      LogAppended(wal.file, op);
      var appended := wal.Append(op);
      images := [Image(wal.file, manifest.file, disk)];
      match op {
        case Put(key, value) => memtable.Put(key, value);
        case Delete(key) => memtable.Delete(key);
      }
      WholeImage(View(), version.levels, disk, cache.blocks, hash, wal.file, manifest);
      assert images == [Image(wal.file, manifest.file, disk)];
      if memtable.approximateSize >= options.memtableSizeBytes {
        ghost var s := View();
        ghost var size, more := FlushMemtable();
        AllRecoverSame(images, s, View(), hash);
        AllRecoverSame(more, s, View(), hash);
        AllRecoverBoth(images, more, View(), hash);
        images := images + more;
      }
    }

    ghost function PickedJob(): Option<Job>
      reads version
    {
      Pick(ShownLevels(version.levels), options)
    }

    /** There is room for the table the next compaction writes, and an id for it. */
    ghost predicate RoomToCompact()
      reads manifest, version
    {
      manifest.nextTableId + 1 < U64_LIMIT &&
      (PickedJob().Some? ==>
        var run := MergedRun(ShownLevels(version.levels), PickedJob().value, options);
        Room(run, blockSize, sizing(|run|), hash))
    }

    /** One compaction, if one is due; no reader sees the difference. */
    method CompactOnce() returns (ghost size: nat, ghost images: seq<Image>)
      requires Writable() && RoomToCompact()
      modifies this, manifest, version
      ensures Writable()
      ensures View() == if old(PickedJob()).None? then old(View())
                        else Compacted(old(View()), old(PickedJob()).value, size)
      ensures forall key :: Machine.Get(View(), key) == Machine.Get(old(View()), key)
      ensures AllRecover(images, old(View()), hash) && (old(PickedJob()).Some? ==> |images| == 4)
    {
      hide Sound, Created, Room, Machine.Get, LogClean, Committed, BlockCache.Valid, Manifest.Valid, Pick, MergedRun,
           Installed, AllRanged, FromLevels, RunWithinLimits, ProperRun, TableOk, Compacted, FilesOn, Shown, Listed,
           ShownLevels, ShownAll, RecoveredAll, Recovers, CatalogAfterJob;
      size, images := 0, [];
      ghost var s, levels := View(), version.levels;
      SoundRanged(s, levels, disk, cache.blocks, hash);
      var picked := PickCompaction(version.levels, options);
      if picked.None? {
        return;
      }
      hide AllRecover;
      var job := picked.value;
      ghost var spec := PickedJob().value;
      JobKept(s, levels, disk, cache.blocks, hash, job, spec);
      var t, named, listed := WriteJob(job, spec, s.catalog);
      size := |t.file|;
      images := [Image(wal.file, named, old(disk)), Image(wal.file, named, disk), Image(wal.file, listed, disk),
                 Image(wal.file, manifest.file, disk)];
      OutputRanged(s.catalog.nextId, t, s, spec, blockSize, sizing, hash);
      version.ApplyCompaction(job, t, spec);
      ghost var run := MergedRun(s.levels, spec, s.options);
      CompactKept(s, levels, version.levels, old(disk), cache.blocks, hash, spec, blockSize, sizing(|run|), t);
      CompactRecovers(s, levels, old(disk), cache.blocks, hash, spec, blockSize, sizing(|run|), t,
                      wal.file, named, listed, manifest.file);
    }

    /**
     * The durable part of a compaction: id, output file, add record, removal records. `named` is the
     * manifest once the id is taken, `listed` the manifest with the output added.
     */
    method WriteJob(job: CompactionJob, ghost spec: Job, ghost before: Catalog)
      returns (t: SsTable, ghost named: seq<byte>, ghost listed: seq<byte>)
      requires ConfigOk() && LevelsRanged(version.levels) && AllRanged(job.inputs) && SameJob(Some(job), Some(spec))
      requires forall u :: u in job.inputs ==> TableOk(u, hash) && u.id < before.nextId
      requires manifest.Valid() && before == Catalog(manifest.tables, manifest.nextTableId)
      requires before.nextId + 1 < U64_LIMIT && spec.outputLevel < U32_LIMIT
      requires !Listed(WithNextId(before), before.nextId)
      modifies this`disk, manifest
      ensures var run := MergedRun(ShownLevels(version.levels), spec, options);
              t == Created(before.nextId, run, blockSize, sizing(|run|), hash)
      ensures disk == old(disk)[before.nextId := t.file]
      ensures manifest.Valid() && Catalog(manifest.tables, manifest.nextTableId) == CatalogAfterJob(before, spec)
      ensures RecoveredAll(named) == Ok(WithNextId(before))
      ensures RecoveredAll(listed) == Ok(WithTable(WithNextId(before), before.nextId, spec.outputLevel))
      ensures RecoveredAll(manifest.file) == Ok(CatalogAfterJob(before, spec))
    {
      hide Created, AllRanged, TableOk, Manifest.Valid, Listed, RecoveredAll, MergedRun, LevelsRanged, ShownLevels,
           DroppedAll;
      var id := manifest.NextTableId();
      ManifestShown(manifest);
      named := manifest.file;
      t := MergeJob(id, job, spec);
      disk := disk[id := t.file];
      listed := LogJob(id, job, spec);
      ManifestShown(manifest);
    }

    /** Decides about tombstones, merges the inputs and writes the output. */
    method MergeJob(id: nat, job: CompactionJob, ghost spec: Job) returns (t: SsTable)
      requires ConfigOk() && LevelsRanged(version.levels) && AllRanged(job.inputs) && SameJob(Some(job), Some(spec))
      requires forall u :: u in job.inputs ==> TableOk(u, hash)
      ensures var run := MergedRun(ShownLevels(version.levels), spec, options);
              t == Created(id, run, blockSize, sizing(|run|), hash)
    {
      hide Created, AllRanged, TableOk, Shown, LowerOverlap, Merged, LevelsRanged, ShownLevels;
      var lower := FindLowerOverlap(version.levels, job, spec);
      var dropTombstones := job.outputLevel + 1 >= options.maxLevels || !lower;
      t := BuildOutput(id, job.inputs, dropTombstones, blockSize, sizing, hash);
    }

    /** The output is logged, then the removal of each input, newest first; `listed` is the file in between. */
    method LogJob(id: nat, job: CompactionJob, ghost spec: Job) returns (ghost listed: seq<byte>)
      requires manifest.Valid() && id < manifest.nextTableId < U64_LIMIT && job.outputLevel < U32_LIMIT
      requires forall u :: u in job.inputs ==> u.id < manifest.nextTableId
      requires SameJob(Some(job), Some(spec)) && !Listed(Catalog(manifest.tables, manifest.nextTableId), id)
      modifies manifest
      ensures manifest.Valid() && manifest.nextTableId == old(manifest.nextTableId)
      ensures manifest.tables == DroppedAll(old(manifest.tables) + [(id, spec.outputLevel)], InputIds(spec.inputs))
      ensures RecoveredAll(listed) == Ok(Catalog(old(manifest.tables) + [(id, spec.outputLevel)], manifest.nextTableId))
    {
      hide Manifest.Valid, Shown, DroppedAll, Listed, RecoveredAll;
      var added := manifest.AddTable(id, job.outputLevel);
      ManifestShown(manifest);
      listed := manifest.file;
      var remove: seq<u64> := seq(|job.inputs|, i requires 0 <= i < |job.inputs| => job.inputs[i].id);
      SameInputIds(job, spec, remove);
      manifest.RemoveTables(remove);
    }

    /** The memtable becomes the newest table; no reader sees the difference. */
    method FlushMemtable() returns (ghost size: nat, ghost images: seq<Image>)
      requires Writable() && RoomFor(memtable.entries)
      modifies this, wal, manifest, version
      ensures Writable() && memtable.entries == []
      ensures old(memtable.entries) == [] ==> View() == old(View())
      ensures old(memtable.entries) != [] ==> fresh(memtable) && View() == Flushed(old(View()), size)
      ensures forall key :: Machine.Get(View(), key) == Machine.Get(old(View()), key)
      ensures AllRecover(images, old(View()), hash) && (old(memtable.entries) != [] ==> |images| == 4)
    {
      hide Sound, Created, Room, WithNewest, Listed, StateOf, BlockCache.Valid, Manifest.Valid, Flushed, Machine.Get,
           LogClean, Committed, ShownLevels, RecoveredAll, Recovers;
      size, images := 0, [];
      if memtable.entries == [] {
        return;
      }
      ghost var catalog := Catalog(manifest.tables, manifest.nextTableId);
      ghost var created := Created(catalog.nextId, memtable.entries, blockSize, sizing(|memtable.entries|), hash);
      FlushKept(options, memtable.entries, version.levels, Committed(wal.file), catalog, disk, cache.blocks, hash,
                blockSize, sizing(|memtable.entries|), created);
      var snapshot := Freeze();
      var id := manifest.NextTableId();
      ManifestShown(manifest);
      ghost var named := manifest.file;
      var t := SsTables.Create(id, snapshot, blockSize, sizing(|snapshot|), hash);
      size := |t.file|;
      ghost var later := InstallFlushed(id, t);
      ManifestShown(manifest);
      images := [Image(old(wal.file), named, old(disk))] + later;
      FlushRecovers(options, snapshot, old(version.levels), catalog, old(disk), cache.blocks, hash,
                    blockSize, sizing(|snapshot|), t, old(wal.file), named, manifest.file);
      assert images == [Image(old(wal.file), named, old(disk)), Image(old(wal.file), named, disk),
                        Image(old(wal.file), manifest.file, disk), Image([], manifest.file, disk)];
      NoLog();
    }

    /** The file goes into place, then its record, then the version, and only then the log goes. */
    method InstallFlushed(id: u64, t: SsTable) returns (ghost images: seq<Image>)
      requires manifest.Valid() && !Listed(Catalog(manifest.tables, manifest.nextTableId), id) && version.levels != []
      modifies this`disk, this`immutable, manifest, version, wal
      ensures disk == old(disk)[id := t.file] && immutable == null && wal.file == []
      ensures manifest.Valid() && manifest.nextTableId == old(manifest.nextTableId) &&
              manifest.tables == old(manifest.tables) + [(id, 0)]
      ensures version.levels == old(version.levels)[0 := [t] + old(version.levels[0])]
      ensures images == [Image(old(wal.file), old(manifest.file), disk), Image(old(wal.file), manifest.file, disk),
                         Image([], manifest.file, disk)]
    {
      hide Manifest.Valid, Listed, Shown;
      disk := disk[id := t.file];
      images := [Image(wal.file, manifest.file, disk)];
      var added := manifest.AddTable(id, 0);
      images := images + [Image(wal.file, manifest.file, disk)];
      version.InsertNewest(t);
      wal.Truncate();
      images := images + [Image(wal.file, manifest.file, disk)];
      immutable := null;
    }

    /** A new memtable takes over; reads go on over a copy of the old one. */
    method Freeze() returns (snapshot: Run)
      requires memtable.Valid()
      modifies this`memtable, this`immutable
      ensures fresh(memtable) && memtable.Valid() && memtable.entries == []
      ensures snapshot == old(memtable.entries)
      ensures immutable != null && fresh(immutable) && immutable.Valid() && immutable.entries == snapshot
    {
      var frozen := memtable;
      memtable := new MemTable();
      snapshot := frozen.entries;
      immutable := CopyOf(snapshot);
    }
  }

  lemma ManifestShown(m: Manifest)
    requires m.Valid()
    ensures RecoveredAll(m.file) == Ok(Catalog(m.tables, m.nextTableId))
  {
    hide LogBytes, CatalogAfter, RecoveredAll;
    ManifestWhole(m.log);
  }

  ghost predicate AllRecover(images: seq<Image>, s: State, hash: Hash)
  {
    forall i :: 0 <= i < |images| ==> Recovers(images[i], s, hash)
  }

  lemma AllRecoverSame(images: seq<Image>, s: State, t: State, hash: Hash)
    requires AllRecover(images, s, hash) && s.options == t.options
    requires forall key :: Machine.Get(s, key) == Machine.Get(t, key)
    ensures AllRecover(images, t, hash)
  {
    hide Recovers, Machine.Get;
    forall i | 0 <= i < |images|
      ensures Recovers(images[i], t, hash)
    {
      RecoversSame(images[i], s, t, hash);
    }
  }

  lemma AllRecoverBoth(a: seq<Image>, b: seq<Image>, s: State, hash: Hash)
    requires AllRecover(a, s, hash) && AllRecover(b, s, hash)
    ensures AllRecover(a + b, s, hash)
  {
    hide Recovers;
  }

  /** The bytes under sound contents show them. */
  lemma WholeImage(s: State, levels: seq<Tables>, disk: Files, cached: map<BlockKey, Block>, hash: Hash,
                   walFile: seq<byte>, manifest: Manifest)
    requires Sound(s, levels, disk, cached, hash) && Idle(s) && s.files == FilesOn(disk)
    requires LogClean(walFile) && Committed(walFile) == s.wal
    requires manifest.Valid() && s.catalog == Catalog(manifest.tables, manifest.nextTableId)
    ensures AllRecover([Image(walFile, manifest.file, disk)], s, hash)
  {
    hide Inv, FilesOk, LevelsOnDisk, Faithful, RunWithinLimits, LogClean, Committed, FilesOn, Machine.Get,
         Manifest.Valid, Replay, RecoveredAll;
    CommittedIs(walFile);
    ManifestShown(manifest);
    Shows(s, s, Image(walFile, manifest.file, disk), hash);
  }

  lemma {:induction false} UpsertedWithinLimits(run: Run, key: Key, entry: Entry)
    requires RunWithinLimits(run) && EntryWithinLimits((key, entry))
    ensures RunWithinLimits(Upserted(run, key, entry))
  {
    hide EntryWithinLimits, Lt;
    if run == [] {
    } else {
      UpsertedWithinLimits(run[1..], key, entry);
    }
  }

  lemma SoundRanged(s: State, levels: seq<Tables>, disk: Files, cached: map<BlockKey, Block>, hash: Hash)
    requires Sound(s, levels, disk, cached, hash)
    ensures LevelsRanged(levels)
  {
    hide Inv, Faithful, FilesOk, LevelsOnDisk;
    RangedOnDisk(levels, disk, hash);
  }

  lemma ScannedTables(s: State, levels: seq<Tables>, disk: Files, cached: map<BlockKey, Block>, hash: Hash)
    requires Sound(s, levels, disk, cached, hash)
    ensures forall t :: t in Concat(levels) ==> TableOk(t, hash)
  {
    hide Inv, Faithful, FilesOk, TableOk, Concat;
    forall t | t in Concat(levels)
      ensures TableOk(t, hash)
    {
      ConcatMembers(levels, t);
      var i :| 0 <= i < |levels| && t in levels[i];
      TableOnDisk(levels[i], disk, hash, t);
    }
  }

  /** The layers of a scan are the layers of a read. */
  lemma LayersFound(s: State, frozen: Option<Run>, levels: seq<Tables>, key: Key)
    requires s.levels == ShownLevels(levels) && Immutable(s) == if frozen.Some? then frozen.value else []
    ensures First(Layers(s.mem, frozen, RunsOf(ShownAll(Concat(levels)))), key) == Found(s, key)
  {
    hide Lookup, Concat, ShownAll, RunsOf;
    var runs := RunsOf(ShownAll(Concat(levels)));
    var layers := Layers(s.mem, frozen, runs);
    FirstOfTables(ShownAll(Concat(levels)), key);
    FirstInLevels(levels, key);
    NoEntry(key);
    if frozen.Some? {
      assert layers[1..][0] == frozen.value && layers[1..][1..] == runs;
    } else {
      assert layers[1..] == runs;
    }
  }

  lemma ScannedView(options: Options, entries: Run, frozen: Option<Run>, levels: seq<Tables>, log: seq<Operation>,
                    catalog: Catalog, disk: Files, cached: map<BlockKey, Block>, hash: Hash, start: Bound, end: Bound)
    requires Sound(StateOf(options, entries, frozen, levels, log, catalog, disk), levels, disk, cached, hash)
    ensures var s := StateOf(options, entries, frozen, levels, log, catalog, disk);
            var pairs := Scanned(Layers(entries, frozen, RunsOf(ShownAll(Concat(levels)))), start, end);
            && Scans.Increasing(pairs)
            && forall k, v :: (k, v) in pairs <==> InRange(k, start, end) && Machine.Get(s, k) == Some(v)
  {
    hide Scanned, InRange, Scans.Increasing, Found, Layers;
    var s := StateOf(options, entries, frozen, levels, log, catalog, disk);
    var layers := Layers(entries, frozen, RunsOf(ShownAll(Concat(levels))));
    LayersSorted(s, frozen, levels, disk, cached, hash);
    ScanIsVisible(layers, start, end);
    forall k
      ensures First(layers, k) == Found(s, k)
    {
      LayersFound(s, frozen, levels, k);
    }
  }

  lemma LayersSorted(s: State, frozen: Option<Run>, levels: seq<Tables>, disk: Files, cached: map<BlockKey, Block>,
                     hash: Hash)
    requires Sound(s, levels, disk, cached, hash) &&
             s.flush == if frozen.None? then FlushIdle else Flushing(frozen.value, Frozen)
    ensures forall run :: run in Layers(s.mem, frozen, RunsOf(ShownAll(Concat(levels)))) ==> Sorted(run)
  {
    hide Inv, Sorted, TableOk, Concat, FilesOk, Faithful, RunWithinLimits;
    var tables := Concat(levels);
    ScannedTables(s, levels, disk, cached, hash);
    MemtablesSorted(s);
    forall run | run in RunsOf(ShownAll(tables))
      ensures Sorted(run)
    {
      var i :| 0 <= i < |tables| && RunsOf(ShownAll(tables))[i] == run;
      ServedProper(tables[i], hash);
      assert ProperRun(run);
    }
  }

  lemma MemtablesSorted(s: State)
    requires Inv(s)
    ensures Sorted(s.mem) && Sorted(Immutable(s))
  {
    hide VersionOk, DiskOk, LevelIdsOk, ReservedOk, JobOk, CatalogOk, FlushOk;
    if s.flush.FlushIdle? {
      ReplayedProper(s.wal);
    }
  }

  /** A write on the contents of the fields. */
  lemma WriteKept(s: State, levels: seq<Tables>, disk: Files, cached: map<BlockKey, Block>, hash: Hash, op: Operation)
    requires Sound(s, levels, disk, cached, hash) && s.flush.FlushIdle? && op.key != [] && WithinLimits(op)
    ensures var next := s.(mem := Applied(s.mem, op), wal := s.wal + [op]);
            && Sound(next, levels, disk, cached, hash)
            && forall key :: Machine.Get(next, key) == AfterWrite(Machine.Get(s, key), op, key)
  {
    hide Inv, TablesOk, Faithful, RunWithinLimits, Machine.Get, Upserted;
    WriteStep(s, op);
    UpsertedWithinLimits(s.mem, op.key, Effect(op));
  }

  lemma IdleMemtable(s: State)
    requires Inv(s) && s.flush.FlushIdle?
    ensures ProperRun(s.mem) && s.levels != []
  {
    hide CoherentAt, Identified, WellFormed, DiskOk, LevelIdsOk, ReservedOk, JobOk, CatalogOk;
    ReplayedProper(s.wal);
  }

  lemma NewestShown(levels: seq<Tables>, t: SsTable)
    requires levels != []
    ensures ShownLevels(levels[0 := [t] + levels[0]]) == WithNewest(ShownLevels(levels), Shown(t))
  {
    hide Shown;
    assert ShownAll([t] + levels[0]) == [Shown(t)] + ShownAll(levels[0]);
  }

  lemma NewestOnDisk(levels: seq<Tables>, disk: Files, t: SsTable)
    requires levels != [] && LevelsOnDisk(levels, disk) && FromDisk([t], disk)
    ensures LevelsOnDisk(levels[0 := [t] + levels[0]], disk)
  {
    hide Opened;
  }

  lemma NoEntries()
    ensures RunWithinLimits([])
  {
  }

  /** A flush on the contents of the fields. */
  lemma FlushKept(options: Options, entries: Run, levels: seq<Tables>, log: seq<Operation>, catalog: Catalog,
                  disk: Files,
                  cached: map<BlockKey, Block>, hash: Hash, blockSize: nat, size: (nat, nat), t: SsTable)
    requires var s := StateOf(options, entries, None, levels, log, catalog, disk); Sound(s, levels, disk, cached, hash)
    requires entries != [] && Room(entries, blockSize, size, hash) &&
             t == Created(catalog.nextId, entries, blockSize, size, hash)
    ensures levels != [] && t.id == catalog.nextId && !Listed(WithNextId(catalog), t.id)
    ensures var s := StateOf(options, entries, None, levels, log, catalog, disk);
            var levels', disk' := levels[0 := [t] + levels[0]], disk[t.id := t.file];
            var next := StateOf(options, [], None, levels', [], WithTable(WithNextId(catalog), t.id, 0), disk');
            && next == Flushed(s, |t.file|)
            && Sound(next, levels', disk', cached, hash)
            && forall key :: Machine.Get(next, key) == Machine.Get(s, key)
  {
    hide Inv, Created, Room, Content, Machine.Get, Listed, RunWithinLimits;
    var s := StateOf(options, entries, None, levels, log, catalog, disk);
    IdleMemtable(s);
    CreatedFile(catalog.nextId, entries, blockSize, size, hash);
    FlushCall(s, |t.file|);
    var levels', disk' := levels[0 := [t] + levels[0]], disk[t.id := t.file];
    TableAdded(levels, disk, cached, hash, catalog.nextId, t);
    NewestShown(levels, t);
    NewestOnDisk(levels, disk', t);
    NoEntries();
  }

  /** The images of a flush, from the contents of the fields. */
  lemma FlushRecovers(options: Options, entries: Run, levels: seq<Tables>, catalog: Catalog, disk: Files,
                      cached: map<BlockKey, Block>, hash: Hash, blockSize: nat, size: (nat, nat), t: SsTable,
                      walFile: seq<byte>, named: seq<byte>, listed: seq<byte>)
    requires var s := StateOf(options, entries, None, levels, Committed(walFile), catalog, disk);
             Sound(s, levels, disk, cached, hash)
    requires entries != [] && Room(entries, blockSize, size, hash) &&
             t == Created(catalog.nextId, entries, blockSize, size, hash)
    requires LogClean(walFile) && RecoveredAll(named) == Ok(WithNextId(catalog))
    requires RecoveredAll(listed) == Ok(WithTable(WithNextId(catalog), catalog.nextId, 0))
    ensures var s := StateOf(options, entries, None, levels, Committed(walFile), catalog, disk);
            var more := disk[t.id := t.file];
            AllRecover([Image(walFile, named, disk), Image(walFile, named, more), Image(walFile, listed, more),
                        Image([], listed, more)], s, hash)
  {
    hide Inv, Created, Room, Content, Machine.Get, RunWithinLimits, RecoveredAll, LogClean, Committed, Recovers,
         FilesOk, FileOk, Opened, Faithful, LevelsOnDisk;
    var s := StateOf(options, entries, None, levels, Committed(walFile), catalog, disk);
    IdleMemtable(s);
    CreatedFile(catalog.nextId, entries, blockSize, size, hash);
    FlushImages(s, levels, disk, cached, hash, t, walFile, named, listed);
  }

  /** The images of a compaction, from the contents of the fields. */
  lemma CompactRecovers(s: State, levels: seq<Tables>, disk: Files, cached: map<BlockKey, Block>, hash: Hash,
                        spec: Job, blockSize: nat, size: (nat, nat), t: SsTable,
                        walFile: seq<byte>, named: seq<byte>, listed: seq<byte>, removed: seq<byte>)
    requires Sound(s, levels, disk, cached, hash) && Idle(s) && s.files == FilesOn(disk)
    requires Pick(s.levels, s.options) == Some(spec)
    requires var run := MergedRun(s.levels, spec, s.options);
             RunWithinLimits(run) && ProperRun(run) && Room(run, blockSize, size, hash) &&
             t == Created(s.catalog.nextId, run, blockSize, size, hash)
    requires LogClean(walFile) && Committed(walFile) == s.wal
    requires RecoveredAll(named) == Ok(WithNextId(s.catalog))
    requires RecoveredAll(listed) == Ok(WithTable(WithNextId(s.catalog), s.catalog.nextId, spec.outputLevel))
    requires RecoveredAll(removed) == Ok(CatalogAfterJob(s.catalog, spec))
    ensures var more := disk[t.id := t.file];
            AllRecover([Image(walFile, named, disk), Image(walFile, named, more), Image(walFile, listed, more),
                        Image(walFile, removed, more)], s, hash)
  {
    hide Inv, Created, Room, Content, Machine.Get, RunWithinLimits, ProperRun, MergedRun, Pick, RecoveredAll, LogClean,
         Committed, Recovers, FilesOk, FileOk, Opened, Faithful, LevelsOnDisk, CatalogAfterJob;
    CreatedFile(s.catalog.nextId, MergedRun(s.levels, spec, s.options), blockSize, size, hash);
    CompactImages(s, levels, disk, cached, hash, spec, t, walFile, named, listed, removed);
  }

  lemma MergedSorted(inputs: Tables, dropTombstones: bool, hash: Hash)
    requires forall u :: u in inputs ==> TableOk(u, hash)
    ensures Sorted(Merged(ShownAll(inputs), dropTombstones))
  {
    hide Merged, Sorted, Lookup, FirstIn;
    forall t | t in ShownAll(inputs)
      ensures Sorted(t.run)
    {
      var i :| 0 <= i < |inputs| && t == ShownAll(inputs)[i];
      assert TableOk(inputs[i], hash);
    }
    MergedAnswers(ShownAll(inputs), dropTombstones, []);
  }

  /** The output table of a job: its inputs merged, tombstones kept or dropped. */
  method BuildOutput(id: nat, inputs: Tables, dropTombstones: bool, blockSize: nat, sizing: nat -> (nat, nat),
                     hash: Hash)
    returns (t: SsTable)
    requires forall u :: u in inputs ==> TableOk(u, hash)
    requires forall n :: 0 < sizing(n).0 && 1 <= sizing(n).1 <= MAX_HASHES
    ensures var run := Merged(ShownAll(inputs), dropTombstones); t == Created(id, run, blockSize, sizing(|run|), hash)
  {
    hide Created, TableOk, Shown, MergeRuns, Keep, Sorted;
    var streams := StreamsOf(inputs, hash);
    var merged := MergeTables(streams, dropTombstones);
    MergedSorted(inputs, dropTombstones, hash);
    t := SsTables.Create(id, merged.value, blockSize, sizing(|merged.value|), hash);
  }

  /** What a picked job is made of. */
  lemma JobKept(s: State, levels: seq<Tables>, disk: Files, cached: map<BlockKey, Block>, hash: Hash,
                job: CompactionJob, spec: Job)
    requires Sound(s, levels, disk, cached, hash) && s.levels == ShownLevels(levels) && Idle(s)
    requires Pick(s.levels, s.options) == Some(spec) && SameJob(Some(job), Some(spec)) && FromLevels(job.inputs, levels)
    ensures AllRanged(job.inputs) && forall t :: t in job.inputs ==> TableOk(t, hash) && t.id < s.catalog.nextId
    ensures RunWithinLimits(MergedRun(s.levels, spec, s.options)) && ProperRun(MergedRun(s.levels, spec, s.options))
    ensures levels != [] && spec.outputLevel < s.options.maxLevels && !Listed(WithNextId(s.catalog), s.catalog.nextId)
  {
    hide Inv, Listed, Faithful, RunWithinLimits, ProperRun, TableOk, FilesOk, LevelsOnDisk, Merged, Pick, Opened;
    InputsOnDisk(job.inputs, levels, disk, hash);
    IdleMemtable(s);
    MergedWithinLimits(spec.inputs, DropsTombstones(s.levels, spec, s.options));
    JobLevel(s, spec);
    CompactCall(s, spec, 0);
  }

  lemma SameInputIds(job: CompactionJob, spec: Job, ids: seq<nat>)
    requires SameJob(Some(job), Some(spec)) && |ids| == |job.inputs|
    requires forall i :: 0 <= i < |ids| ==> ids[i] == job.inputs[i].id
    ensures ids == InputIds(spec.inputs)
  {
    hide Content;
  }

  lemma OutputRanged(id: nat, t: SsTable, s: State, spec: Job, blockSize: nat, sizing: nat -> (nat, nat), hash: Hash)
    requires var run := MergedRun(s.levels, spec, s.options);
             RunWithinLimits(run) && ProperRun(run) && Room(run, blockSize, sizing(|run|), hash) &&
             t == Created(id, run, blockSize, sizing(|run|), hash)
    ensures Ranged(t) && t.id == id
  {
    hide RunWithinLimits, ProperRun, Room, Created, MergedRun, Ranged;
    var run := MergedRun(s.levels, spec, s.options);
    CreatedFile(id, run, blockSize, sizing(|run|), hash);
  }

  lemma JobLevel(s: State, spec: Job)
    requires Inv(s) && Idle(s) && Pick(s.levels, s.options) == Some(spec)
    ensures spec.outputLevel < s.options.maxLevels
  {
    hide CoherentAt, Identified, DiskOk, LevelIdsOk, ReservedOk, JobOk, CatalogOk, Pick;
    PickIsPicked(s.levels, s.options);
  }

  /** A compaction on the contents of the fields. */
  lemma CompactKept(s: State, levels: seq<Tables>, after: seq<Tables>, disk: Files, cached: map<BlockKey, Block>,
                    hash: Hash,
                    spec: Job, blockSize: nat, size: (nat, nat), t: SsTable)
    requires Sound(s, levels, disk, cached, hash) && Idle(s) && s.levels == ShownLevels(levels) &&
             s.files == FilesOn(disk)
    requires Pick(s.levels, s.options) == Some(spec)
    requires var run := MergedRun(s.levels, spec, s.options);
             RunWithinLimits(run) && ProperRun(run) && Room(run, blockSize, size, hash) &&
             t == Created(s.catalog.nextId, run, blockSize, size, hash)
    requires |after| == |levels| && ShownLevels(after) == Installed(s.levels, spec, Shown(t))
    requires forall i, u :: 0 <= i < |after| && u in after[i] ==> u == t || u in levels[i]
    ensures var disk' := disk[t.id := t.file];
            var next := s.(levels := ShownLevels(after), catalog := CatalogAfterJob(s.catalog, spec),
                           files := FilesOn(disk'));
            && next == Compacted(s, spec, |t.file|)
            && Sound(next, after, disk', cached, hash)
            && forall key :: Machine.Get(next, key) == Machine.Get(s, key)
  {
    hide Inv, Created, Room, Content, Machine.Get, RunWithinLimits, ProperRun, MergedRun, Pick, Installed;
    CreatedFile(s.catalog.nextId, MergedRun(s.levels, spec, s.options), blockSize, size, hash);
    CompactCall(s, spec, |t.file|);
    TableAdded(levels, disk, cached, hash, s.catalog.nextId, t);
    StillOnDisk(levels, after, disk[t.id := t.file], t);
  }

  lemma StillOnDisk(levels: seq<Tables>, after: seq<Tables>, disk: Files, t: SsTable)
    requires LevelsOnDisk(levels, disk) && FromDisk([t], disk) && |after| == |levels|
    requires forall i, u :: 0 <= i < |after| && u in after[i] ==> u == t || u in levels[i]
    ensures LevelsOnDisk(after, disk)
  {
    hide Opened;
    assert t in [t];
  }

  /** The frozen table, rebuilt entry by entry. */
  method CopyOf(snapshot: Run) returns (imm: MemTable)
    requires Sorted(snapshot)
    ensures fresh(imm) && imm.Valid() && imm.entries == snapshot
  {
    hide Lt;
    imm := new MemTable();
    for i := 0 to |snapshot|
      invariant fresh(imm) && imm.Valid() && imm.entries == snapshot[..i]
    {
      var (key, entry) := snapshot[i];
      UpsertedLast(snapshot[..i], key, entry);
      match entry {
        case Value(value) => imm.Put(key, value);
        case Tombstone => imm.Delete(key);
      }
      assert snapshot[..i + 1] == snapshot[..i] + [snapshot[i]];
    }
    assert snapshot[..|snapshot|] == snapshot;
  }

  lemma {:induction false} UpsertedLast(run: Run, key: Key, entry: Entry)
    requires forall i :: 0 <= i < |run| ==> Lt(run[i].0, key)
    ensures Upserted(run, key, entry) == run + [(key, entry)]
  {
    if run == [] {
    } else {
      LtTrichotomy(run[0].0, key, key);
      UpsertedLast(run[1..], key, entry);
      assert run == [run[0]] + run[1..];
    }
  }

  lemma NeverEmpty(run: Run, key: Key, entry: Entry)
    ensures Upserted(run, key, entry) != []
  {
  }

  lemma NoEntry(key: Key)
    ensures Lookup([], key) == None
  {
  }
}
