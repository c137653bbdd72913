/** The bytes on disk, and the tables and blocks they stand for. */
module Images {
  import opened Bytes
  import opened Wrappers
  import opened Runs
  import opened Levels
  import opened Picker
  import opened Merging
  import opened Indexes
  import opened TableFiles
  import opened TableLookup
  import opened Caches
  import opened SsTables
  import opened Streams
  import opened Versions

  /** Table files by id. */
  type Files = map<nat, seq<byte>>

  /** The table a file opens to. */
  function HandleOn(disk: Files, id: nat): SsTable
    requires id in disk && Opened(disk[id]).Ok?
  {
    TableOf(id, disk[id], Opened(disk[id]).value)
  }

  /** What a file shows; a file that does not open shows nothing. */
  ghost function FileTable(id: nat, bytes: seq<byte>): Table
  {
    if Opened(bytes).Ok? then Shown(TableOf(id, bytes, Opened(bytes).value)) else Table(id, [], |bytes|)
  }

  ghost function FilesOn(disk: Files): map<nat, Table>
  {
    map id | id in disk :: FileTable(id, disk[id])
  }

  /** The file opens, every block of it reads, and its entries are within the limits. */
  ghost predicate FileOk(id: nat, bytes: seq<byte>, hash: Hash)
  {
    Opened(bytes).Ok? &&
    var t := TableOf(id, bytes, Opened(bytes).value);
    TableOk(t, hash) && RunWithinLimits(Content(t))
  }

  ghost predicate FilesOk(disk: Files, hash: Hash)
  {
    forall id :: id in disk ==> FileOk(id, disk[id], hash)
  }

  /** Every live table is the one its file opens to. */
  ghost predicate FromDisk(tables: Tables, disk: Files)
  {
    forall t :: t in tables ==> t.id in disk && Opened(disk[t.id]).Ok? && t == HandleOn(disk, t.id)
  }

  ghost predicate LevelsOnDisk(levels: seq<Tables>, disk: Files)
  {
    forall i :: 0 <= i < |levels| ==> FromDisk(levels[i], disk)
  }

  /** The files are readable, the live tables come from them, and every id is taken. */
  ghost predicate TablesOk(levels: seq<Tables>, disk: Files, hash: Hash, nextId: nat)
  {
    FilesOk(disk, hash) && LevelsOnDisk(levels, disk) && forall id :: id in disk ==> id < nextId
  }

  lemma TableOnDisk(tables: Tables, disk: Files, hash: Hash, t: SsTable)
    requires FilesOk(disk, hash) && FromDisk(tables, disk) && t in tables
    ensures TableOk(t, hash) && Ranged(t) && RunWithinLimits(Content(t))
  {
    hide Opened, Content, RunWithinLimits, RowsServe, Intact;
    assert FileOk(t.id, disk[t.id], hash);
  }

  lemma RangedOnDisk(levels: seq<Tables>, disk: Files, hash: Hash)
    requires FilesOk(disk, hash) && LevelsOnDisk(levels, disk)
    ensures LevelsRanged(levels)
  {
    hide FilesOk, FromDisk, Ranged;
    forall i, j | 0 <= i < |levels| && 0 <= j < |levels[i]|
      ensures Ranged(levels[i][j])
    {
      TableOnDisk(levels[i], disk, hash, levels[i][j]);
    }
  }

  // ----- blocks -----

  /** The block at an offset of a table file. */
  ghost function AtOffset(file: seq<byte>, index: seq<IndexEntry>, offset: nat): Option<Run>
  {
    if index == [] then None
    else if index[0].offset == offset then Readable(ReadBlock(file, index[0]))
    else AtOffset(file, index[1..], offset)
  }

  ghost function DiskBlocks(disk: Files): Disk
  {
    (k: BlockKey) =>
      if k.tableId in disk && Opened(disk[k.tableId]).Ok? then
        AtOffset(disk[k.tableId], Opened(disk[k.tableId]).value.index, k.offset)
      else None
  }

  lemma {:induction false} AtOwnOffset(file: seq<byte>, index: seq<IndexEntry>, i: nat)
    requires DistinctOffsets(index) && i < |index|
    ensures AtOffset(file, index, index[i].offset) == Readable(ReadBlock(file, index[i]))
  {
    hide ReadBlock;
    if i == 0 {
    } else {
      assert index[0].offset < index[i].offset;
      AtOwnOffset(file, index[1..], i - 1);
    }
  }

  lemma StoredOnDisk(disk: Files, hash: Hash, t: SsTable)
    requires t.id in disk && Opened(disk[t.id]).Ok? && t == HandleOn(disk, t.id) && TableOk(t, hash)
    ensures Stored(t.id, t.index, t.file, DiskBlocks(disk))
  {
    hide Opened, ReadBlock, AtOffset, Serves;
    forall i | 0 <= i < |t.index|
      ensures DiskBlocks(disk)(BlockKey(t.id, t.index[i].offset)) == Readable(ReadBlock(t.file, t.index[i]))
    {
      AtOwnOffset(t.file, t.index, i);
    }
  }

  // ----- a new file -----

  /** Adding a file under a new id leaves every other table and block as it was. */
  lemma FileAdded(disk: Files, hash: Hash, t: SsTable, cached: map<BlockKey, Block>, levels: seq<Tables>)
    requires t.id !in disk && FilesOk(disk, hash) && FileOk(t.id, t.file, hash) && Opened(t.file) == Ok(MetaIn(t))
    requires Faithful(cached, DiskBlocks(disk)) && LevelsOnDisk(levels, disk)
    ensures var more := disk[t.id := t.file];
            && FilesOk(more, hash) && Faithful(cached, DiskBlocks(more)) && LevelsOnDisk(levels, more)
            && FilesOn(more) == FilesOn(disk)[t.id := Shown(t)]
            && more[t.id] == t.file && HandleOn(more, t.id) == t
  {
    hide Opened, FileOk, AtOffset, Content;
  }

  // ----- what the tables hold -----

  ghost predicate AllWithin(tables: seq<Table>)
  {
    forall t :: t in tables ==> RunWithinLimits(t.run)
  }

  /** A merge writes no entry its inputs do not have. */
  lemma MergedWithinLimits(tables: seq<Table>, dropTombstones: bool)
    requires AllWithin(tables) && forall t :: t in tables ==> ProperRun(t.run)
    ensures RunWithinLimits(Merged(tables, dropTombstones)) && ProperRun(Merged(tables, dropTombstones))
  {
    hide Merged, EntryWithinLimits;
    var run := Merged(tables, dropTombstones);
    MergedAnswers(tables, dropTombstones, []);
    forall i | 0 <= i < |run|
      ensures EntryWithinLimits(run[i])
    {
      MergedAnswers(tables, dropTombstones, run[i].0);
      LookupAt(run, i);
      FirstInHolder(tables, run[i].0);
      var t :| t in tables && Holds(t, run[i].0) && Lookup(t.run, run[i].0) == FirstIn(tables, run[i].0);
      var j := LookupFound(t.run, run[i].0);
      assert t.run[j] == run[i];
    }
  }

  lemma InputsOnDisk(inputs: Tables, levels: seq<Tables>, disk: Files, hash: Hash)
    requires FilesOk(disk, hash) && LevelsOnDisk(levels, disk) && FromLevels(inputs, levels)
    ensures FromDisk(inputs, disk) && AllRanged(inputs)
    ensures AllWithin(ShownAll(inputs)) && forall t :: t in ShownAll(inputs) ==> ProperRun(t.run)
    ensures forall t :: t in inputs ==> TableOk(t, hash)
  {
    hide Opened, Content, RunWithinLimits, ProperRun, TableOk, FilesOk, Ranged;
    forall t | t in inputs
      ensures t.id in disk && Opened(disk[t.id]).Ok? && t == HandleOn(disk, t.id)
      ensures TableOk(t, hash) && Ranged(t) && RunWithinLimits(Content(t)) && ProperRun(Content(t))
    {
      var i :| 0 <= i < |levels| && t in levels[i];
      assert FromDisk(levels[i], disk);
      TableOnDisk(levels[i], disk, hash, t);
      ServedProper(t, hash);
    }
    forall t | t in ShownAll(inputs)
      ensures RunWithinLimits(t.run) && ProperRun(t.run)
    {
      var i :| 0 <= i < |inputs| && ShownAll(inputs)[i] == t;
      assert inputs[i] in inputs;
    }
  }

  lemma ServedProper(t: SsTable, hash: Hash)
    requires TableOk(t, hash)
    ensures ProperRun(Content(t))
  {
  }

  /** The streams of intact tables are their entries. */
  method StreamsOf(tables: Tables, ghost hash: Hash) returns (streams: seq<Stream>)
    requires forall t :: t in tables ==> TableOk(t, hash)
    ensures Entries(streams) == RunsOf(ShownAll(tables)) && !Faulty(streams)
    ensures forall s: Stream :: s in streams ==> Sorted(s.rest)
  {
    hide StreamOf, Content, TableOk;
    streams := [];
    for i := 0 to |tables|
      invariant |streams| == i
      invariant forall j :: 0 <= j < i ==> streams[j] == Stream(Content(tables[j]), None) && Sorted(streams[j].rest)
    {
      assert tables[i] in tables;
      TableStream(tables[i], hash);
      ServedProper(tables[i], hash);
      streams := streams + [StreamOf(tables[i].file, tables[i].index)];
    }
  }
}
