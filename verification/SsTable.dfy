/** Sorted string tables: writing one, opening one, and looking a key up in one. */
module SsTables {
  import opened Bytes
  import opened Wrappers
  import opened Crc
  import opened Runs
  import opened Blocks
  import opened Indexes
  import opened Blooms
  import opened TableFiles
  import opened TableLookup
  import opened Picker
  import opened Caches
  import opened Streams

  /** The filter after the keys of a run. */
  function FilterOf(filter: Filter, run: Run, hash: Hash): (f: Filter)
    requires filter.bits != []
    ensures |f.bits| == |filter.bits| && f.hashCount == filter.hashCount
  {
    if run == [] then filter
    else Inserted(FilterOf(filter, run[..|run| - 1], hash), hash(run[|run| - 1].0))
  }

  function EmptyFilter(byteCount: nat, hashCount: nat): Filter
  {
    Filter(seq(byteCount, i => 0), hashCount)
  }

  /** Every key of the run is reported. */
  lemma {:induction false} FilterHolds(filter: Filter, run: Run, hash: Hash, i: nat)
    requires filter.bits != [] && i < |run|
    ensures MightHold(FilterOf(filter, run, hash), hash(run[i].0))
  {
    hide MightHold, Inserted;
    var n := |run| - 1;
    var before := FilterOf(filter, run[..n], hash);
    InsertedHolds(before, hash(run[n].0), hash(run[i].0));
    if i == n {
    } else {
      FilterHolds(filter, run[..n], hash, i);
    }
  }

  /** The filter of a table has exactly the bits its keys probe. */
  lemma {:induction false} FilterBits(filter: Filter, run: Run, hash: Hash, index: nat)
    requires filter.bits != [] && index < 8 * |filter.bits|
    ensures BitAt(FilterOf(filter, run, hash).bits, index) <==>
            || BitAt(filter.bits, index)
            || exists j: nat, i: nat :: j < |run| && i < filter.hashCount &&
                 index == Probe(hash(run[j].0), i, 8 * |filter.bits|)
  {
    hide BitAt, Probe, Probed;
    if run == [] {
    } else {
      var n := |run| - 1;
      var before := FilterOf(filter, run[..n], hash);
      FilterBits(filter, run[..n], hash, index);
      ProbedSets(before.bits, hash(run[n].0), before.hashCount, index);
      if BitAt(before.bits, index) && !BitAt(filter.bits, index) {
        var j: nat, i: nat :| j < |run[..n]| && i < filter.hashCount &&
                              index == Probe(hash(run[..n][j].0), i, 8 * |filter.bits|);
        assert run[..n][j] == run[j];
      }
      if exists j: nat, i: nat :: j < |run| && i < filter.hashCount &&
           index == Probe(hash(run[j].0), i, 8 * |filter.bits|) {
        var j: nat, i: nat :| j < |run| && i < filter.hashCount &&
                              index == Probe(hash(run[j].0), i, 8 * |filter.bits|);
        assert j < n ==> run[..n][j] == run[j];
      }
    }
  }

  // ----- sorting the entries -----

  function InsertEntry(run: Run, e: (Key, Entry)): Run
  {
    if run == [] || !Lt(e.0, run[|run| - 1].0) then run + [e]
    else InsertEntry(run[..|run| - 1], e) + [run[|run| - 1]]
  }

  /** A stable sort by key. */
  function SortEntries(run: Run): Run
  {
    if run == [] then [] else InsertEntry(SortEntries(run[..|run| - 1]), run[|run| - 1])
  }

  ghost predicate ByKey(run: Run)
  {
    forall i, j :: 0 <= i < j < |run| ==> Le(run[i].0, run[j].0)
  }

  /** The entries of one key, in order. */
  ghost function OfKey(run: Run, key: Key): Run
  {
    if run == [] then []
    else OfKey(run[..|run| - 1], key) + if run[|run| - 1].0 == key then [run[|run| - 1]] else []
  }

  lemma OfKeySnoc(run: Run, e: (Key, Entry), key: Key)
    ensures OfKey(run + [e], key) == OfKey(run, key) + if e.0 == key then [e] else []
  {
    assert (run + [e])[..|run|] == run;
  }

  lemma {:induction false} InsertEntrySorts(run: Run, e: (Key, Entry))
    requires ByKey(run)
    ensures ByKey(InsertEntry(run, e))
    ensures forall x :: x in InsertEntry(run, e) ==> x in run || x == e
    ensures forall key :: OfKey(InsertEntry(run, e), key) == OfKey(run, key) + if e.0 == key then [e] else []
  {
    hide Lt, Rank;
    KeyOrder();
    if run == [] || !Lt(e.0, run[|run| - 1].0) {
      forall key
        ensures OfKey(run + [e], key) == OfKey(run, key) + if e.0 == key then [e] else []
      {
        OfKeySnoc(run, e, key);
      }
      LastIsLargest(run);
    } else {
      var n := |run| - 1;
      var rest, last := InsertEntry(run[..n], e), run[n];
      InsertEntrySorts(run[..n], e);
      assert run == run[..n] + [last];
      forall key
        ensures OfKey(rest + [last], key) == OfKey(run, key) + if e.0 == key then [e] else []
      {
        OfKeySnoc(rest, last, key);
        assert OfKey(run[..n], key) + [] == OfKey(run[..n], key);
      }
      InsertedBefore(rest, last);
    }
  }

  lemma LastIsLargest(run: Run)
    requires ByKey(run)
    ensures forall x :: x in run ==> Le(x.0, run[|run| - 1].0)
  {
    hide Lt, Rank;
    KeyOrder();
  }

  lemma InsertedBefore(rest: Run, last: (Key, Entry))
    requires ByKey(rest) && forall x :: x in rest ==> Le(x.0, last.0)
    ensures ByKey(rest + [last])
  {
  }

  /** Sorting orders the keys and keeps, for every key, its entries in the order they came. */
  lemma {:induction false} SortEntriesSorts(run: Run)
    ensures ByKey(SortEntries(run))
    ensures forall key :: OfKey(SortEntries(run), key) == OfKey(run, key)
  {
    hide Lt, InsertEntry;
    if run == [] {
    } else {
      var n := |run| - 1;
      SortEntriesSorts(run[..n]);
      InsertEntrySorts(SortEntries(run[..n]), run[n]);
    }
  }

  lemma {:induction false} SortedStays(run: Run)
    requires Sorted(run)
    ensures SortEntries(run) == run
  {
    hide Lt, Rank;
    KeyOrder();
    if run == [] {
    } else {
      var n := |run| - 1;
      SortedStays(run[..n]);
      assert run == run[..n] + [run[n]];
    }
  }

  // ----- writing -----

  /** Appends the block of the buffered entries, which reads back as these entries over the recorded length. */
  method FlushDataBlock(file: seq<byte>, body: seq<byte>, count: nat, ghost block: Run)
    returns (grown: seq<byte>, length: u32)
    requires body == EncodeEntries(block) && count == |block|
    ensures grown == file + EncodeBlock(block) && length == Len32(|EncodeBlock(block)|)
    ensures BlockFits(block) ==> length == |grown| - |file| && DecodeBlock(grown[|file|..]) == Ok(block)
  {
    hide U32Bytes, Crc32, EncodeEntries, DecodeEntries;
    if BlockFits(block) {
      BlockReadsBack(block);
    }
    var bytes := U32Bytes(Len32(count));
    bytes := bytes + body;
    var checksum := Crc32(bytes);
    bytes := bytes + U32Bytes(checksum);
    assert bytes == EncodeBlock(block);
    assert (file + bytes)[|file|..] == bytes;
    return file + bytes, Len32(|bytes|);
  }

  lemma BlockReadsBack(block: Run)
    requires BlockFits(block)
    ensures DecodeBlock(EncodeBlock(block)) == Ok(block)
  {
    hide EncodeBlock, DecodeBlock;
    DecodeBlockEncoded(block);
  }

  /** The data area and the index, written in one pass over the entries. */
  method WriteBlocks(entries: Run, blockSize: nat) returns (file: seq<byte>, index: seq<IndexEntry>, offset: u64)
    ensures var blocks := BlocksOf(entries, blockSize);
            file == DataOf(blocks) && index == RowsOf(blocks, 0) && offset == EndOf(blocks, 0)
  {
    hide EncodeEntry, EncodeEntries, Cut, DataOf, RowsOf, EndOf, Smallest, Largest;
    Nothing();
    file, index, offset := [], [], 0;
    var buffer: seq<byte>, first: Option<Key>, last: Key, count: nat := [], None, [], 0;
    ghost var done: seq<Run>, block: Run := [], [];
    assert entries[0..] == entries;
    for i := 0 to |entries|
      invariant Cut([], entries, blockSize) == done + Cut(block, entries[i..], blockSize)
      invariant buffer == EncodeEntries(block) && count == |block|
      invariant first == (if block == [] then None else Some(Smallest(block))) && last == Largest(block)
      invariant file == DataOf(done) && index == RowsOf(done, 0) && offset == EndOf(done, 0)
    {
      var (key, entry) := entries[i];
      if first.None? {
        first := Some(key);
      }
      EncodeEntriesSnoc(block, entries[i]);
      EndsSnoc(block, entries[i]);
      CutStep(done, block, entries, i, blockSize);
      buffer := buffer + EncodeEntry((key, entry));
      count := count + 1;
      last := key;
      block := block + [entries[i]];
      if |buffer| >= blockSize && count > 0 {
        file, index, offset := CloseBlock(file, index, offset, buffer, count, first.value, last, done, block);
        done, block := done + [block], [];
        buffer, first, last, count := [], None, [], 0;
      }
    }
    assert entries[|entries|..] == [];
    CutEnd(done, block, blockSize);
    assert BlocksOf(entries, blockSize) == if block != [] || done == [] then done + [block] else done;
    if count > 0 || index == [] {
      file, index, offset := CloseBlock(file, index, offset, buffer, count, if first.Some? then first.value else [],
                                        last, done, block);
    }
  }

  lemma Nothing()
    ensures EncodeEntries([]) == [] && DataOf([]) == [] && RowsOf([], 0) == [] && EndOf([], 0) == 0
    ensures Smallest([]) == [] && Largest([]) == []
  {
  }

  lemma EndsSnoc(block: Run, e: (Key, Entry))
    ensures Smallest(block + [e]) == if block == [] then e.0 else Smallest(block)
    ensures Largest(block + [e]) == e.0
  {
  }

  lemma CutStep(done: seq<Run>, block: Run, entries: Run, i: nat, blockSize: nat)
    requires i < |entries|
    ensures var grown := block + [entries[i]];
            done + Cut(block, entries[i..], blockSize) ==
            if |EncodeEntries(grown)| >= blockSize then (done + [grown]) + Cut([], entries[i + 1..], blockSize)
            else done + Cut(grown, entries[i + 1..], blockSize)
  {
    hide EncodeEntries;
    assert entries[i..][1..] == entries[i + 1..];
    var grown, rest := block + [entries[i]], Cut([], entries[i + 1..], blockSize);
    assert done + ([grown] + rest) == (done + [grown]) + rest;
  }

  lemma CutEnd(done: seq<Run>, block: Run, blockSize: nat)
    ensures done + Cut(block, [], blockSize) == if block == [] then done else done + [block]
  {
  }

  /** A full block goes to the file and its row to the index. */
  method CloseBlock(file0: seq<byte>, index0: seq<IndexEntry>, offset0: u64, body: seq<byte>, count: nat,
                    first: Key, last: Key,
                    ghost done: seq<Run>, ghost block: Run)
    returns (file: seq<byte>, index: seq<IndexEntry>, offset: u64)
    requires body == EncodeEntries(block) && count == |block| && first == Smallest(block) && last == Largest(block)
    requires file0 == DataOf(done) && index0 == RowsOf(done, 0) && offset0 == EndOf(done, 0)
    ensures file == DataOf(done + [block]) && index == RowsOf(done + [block], 0) && offset == EndOf(done + [block], 0)
  {
    hide U32Bytes, Crc32, EncodeEntries, Trailed;
    RowsSnoc(done, block, 0);
    DataSnoc(done, block);
    var length;
    file, length := FlushDataBlock(file0, body, count, block);
    index := index0 + [IndexEntry(first, last, offset0, length)];
    offset := (offset0 + length) % U64_LIMIT;
  }

  /** A table in memory: its bytes on disk, and what `open` keeps of them. */
  datatype SsTable = SsTable(
    id: nat,
    file: seq<byte>,
    index: seq<IndexEntry>,
    filter: Filter,
    smallest: Key,
    largest: Key)

  function MetaIn(t: SsTable): Meta
  {
    Meta(t.index, t.filter, t.smallest, t.largest)
  }

  /** The filter of a table with these entries. */
  function TableFilter(run: Run, size: (nat, nat), hash: Hash): Filter
    requires size.0 > 0
  {
    FilterOf(EmptyFilter(size.0, size.1), run, hash)
  }

  /** The table `create` leaves behind. */
  function Created(id: nat, run: Run, blockSize: nat, size: (nat, nat), hash: Hash): SsTable
    requires size.0 > 0 && size.1 < U32_LIMIT
  {
    var blocks, filter := BlocksOf(run, blockSize), TableFilter(run, size, hash);
    SsTable(id, FileOf(blocks, filter), RowsOf(blocks, 0), filter, Smallest(run), Largest(run))
  }

  /** Sorts the entries and writes them; `size` is the filter's byte count and hash count. */
  method Create(id: nat, collected: Run, blockSize: nat, size: (nat, nat), hash: Hash) returns (t: SsTable)
    requires size.0 > 0 && size.1 < U32_LIMIT
    ensures t == Created(id, SortEntries(collected), blockSize, size, hash)
    ensures Sorted(collected) ==> t == Created(id, collected, blockSize, size, hash)
  {
    hide Inserted, BlocksOf, DataOf, RowsOf, EndOf, Trailed, Footer, Blooms.Encode, U64Bytes, U32Bytes, SortEntries,
         Sorted;
    var entries := SortEntries(collected);
    if Sorted(collected) {
      SortedStays(collected);
    }
    var bloom := new BloomFilter(size.0, size.1);
    ghost var start := EmptyFilter(size.0, size.1);
    for i := 0 to |entries|
      invariant fresh(bloom.bits) && bloom.View() == FilterOf(start, entries[..i], hash)
    {
      assert entries[..i + 1][..i] == entries[..i];
      bloom.Insert(hash, entries[i].0);
    }
    assert entries[..|entries|] == entries;
    var filter := Filter(bloom.bits[..], bloom.hashCount);
    var file, index, offset := WriteBlocks(entries, blockSize);
    var indexBytes := EncodeIndex(index);
    var bloomBytes := Blooms.Encode(filter);
    var bloomOffset := Len64(offset + |indexBytes|);
    file := file + indexBytes + bloomBytes + Footer(offset, Len64(|indexBytes|), bloomOffset, Len64(|bloomBytes|));
    t := SsTable(id, file, index, filter, Smallest(entries), Largest(entries));
  }

  function TableOf(id: nat, file: seq<byte>, meta: Meta): SsTable
  {
    SsTable(id, file, meta.index, meta.filter, meta.smallest, meta.largest)
  }

  /**
   * Opens a table file: a file written within the limits gives the table its writer kept, and one
   * damaged behind its data gives none. The check of its name is left to the caller.
   */
  method Open(id: nat, file: seq<byte>) returns (r: Result<SsTable>)
    ensures r == if Opened(file).Ok? then Ok(TableOf(id, file, Opened(file).value)) else Err(Opened(file).error)
    ensures forall run, blockSize, size: (nat, nat), hash :: Written(file, run, blockSize, size, hash) ==>
              r == Ok(Created(id, run, blockSize, size, hash))
    ensures forall blocks, filter, from, until :: Damaged(blocks, filter, file, from, until) ==> r.Err?
  {
    hide Opened, Written, Created, Damaged;
    forall run, blockSize, size: (nat, nat), hash | Written(file, run, blockSize, size, hash)
      ensures size.0 > 0 && size.1 < U32_LIMIT
      ensures Opened(file).Ok? && TableOf(id, file, Opened(file).value) == Created(id, run, blockSize, size, hash)
    {
      WrittenOpens(id, file, run, blockSize, size, hash);
    }
    var meta := OpenTable(file);
    if meta.Err? {
      return Err(meta.error);
    }
    return Ok(TableOf(id, file, meta.value));
  }

  /** `file` holds the entries of `run`, written within the limits. */
  ghost predicate Written(file: seq<byte>, run: Run, blockSize: nat, size: (nat, nat), hash: Hash)
  {
    && ProperRun(run) && RunWithinLimits(run)
    && Room(run, blockSize, size, hash)
    && file == Created(0, run, blockSize, size, hash).file
  }

  lemma WrittenOpens(id: nat, file: seq<byte>, run: Run, blockSize: nat, size: (nat, nat), hash: Hash)
    requires Written(file, run, blockSize, size, hash)
    ensures size.0 > 0 && size.1 < U32_LIMIT
    ensures Opened(file).Ok? && TableOf(id, file, Opened(file).value) == Created(id, run, blockSize, size, hash)
  {
    hide Opened, ProperRun, RunWithinLimits, TableOk, Content, FileOf, RowsOf, BlocksOf, TableFilter;
    CreatedServes(id, run, blockSize, size, hash);
  }

  /** The row whose key range holds `key`, by binary search. */
  method BlockForKey(index: seq<IndexEntry>, key: Key) returns (r: Option<nat>)
    requires RowsOrdered(index)
    ensures r.Some? ==> r.value < |index| && Covers(index[r.value], key)
    ensures r.None? ==> forall i :: 0 <= i < |index| ==> !Covers(index[i], key)
  {
    hide Lt, Rank;
    KeyOrder();
    var lo, hi := 0, |index|;
    while lo < hi
      invariant 0 <= lo <= hi <= |index|
      invariant forall i :: 0 <= i < |index| && !(lo <= i < hi) ==> !Covers(index[i], key)
    {
      var mid := lo + (hi - lo) / 2;
      if Lt(key, index[mid].firstKey) {
        NotAfterRow(index, key, mid);
        hi := mid;
      } else if Lt(index[mid].lastKey, key) {
        NotBeforeRow(index, key, mid);
        lo := mid + 1;
      } else {
        return Some(mid);
      }
    }
    return None;
  }

  /** The block behind every cache key: what reading the disk there gives. */
  type Disk = BlockKey -> Option<Block>

  function Readable(r: Result<Run>): Option<Run>
  {
    if r.Ok? then Some(r.value) else None
  }

  /** `disk` knows every block of the table. */
  ghost predicate Stored(id: nat, index: seq<IndexEntry>, file: seq<byte>, disk: Disk)
  {
    forall i :: 0 <= i < |index| ==> disk(BlockKey(id, index[i].offset)) == Readable(ReadBlock(file, index[i]))
  }

  /** Every cached block is the one on disk. */
  ghost predicate Faithful(cached: map<BlockKey, Block>, disk: Disk)
  {
    forall k :: k in cached ==> disk(k) == Some(cached[k])
  }

  /** A block from the cache, or from the file and then into the cache. */
  method LoadBlock(t: SsTable, i: nat, cache: BlockCache?, ghost disk: Disk) returns (r: Result<Run>)
    requires i < |t.index| && Stored(t.id, t.index, t.file, disk)
    requires cache != null ==> cache.Valid() && Faithful(cache.blocks, disk)
    modifies cache
    ensures r == ReadBlock(t.file, t.index[i])
    ensures cache != null ==> cache.Valid() && Faithful(cache.blocks, disk)
  {
    hide ReadBlock, LeastEvicted, BlockSize, Kept, Without, Matches, ByRecency, Total;
    var row := t.index[i];
    var key := BlockKey(t.id, row.offset);
    if cache != null {
      var hit := cache.Get(key);
      if hit.Some? {
        return Ok(hit.value);
      }
    }
    r := ReadRow(t.file, row);
    if r.Ok? && cache != null {
      cache.Insert(key, r.value);
    }
  }

  /**
   * Range check, filter, index search, block load and block search together
   * answer as a search of the run does, or report a block that cannot be read.
   */
  method Get(t: SsTable, key: Key, hash: Hash, cache: BlockCache?, ghost disk: Disk, ghost blocks: seq<Run>,
             ghost run: Run)
    returns (r: Result<Option<Entry>>)
    requires Serves(MetaIn(t), t.file, blocks, run, hash) && Stored(t.id, t.index, t.file, disk)
    requires cache != null ==> cache.Valid() && Faithful(cache.blocks, disk)
    modifies cache
    ensures r.Ok? ==> r.value == Lookup(run, key)
    ensures r.Err? ==> !Intact(t.index, t.file)
    ensures cache != null ==> cache.Valid() && Faithful(cache.blocks, disk)
  {
    hide Lookup, MightHold, Lt, ReadBlock, Stored, Faithful, Sorted;
    if !InKeyRange(MetaIn(t), key) {
      RuledOut(MetaIn(t), t.file, blocks, run, hash, key);
      return Ok(None);
    }
    var maybe := MightContain(t.filter, hash, key);
    if !maybe {
      RuledOut(MetaIn(t), t.file, blocks, run, hash, key);
      return Ok(None);
    }
    FlattenSplit(blocks);
    ServedOrdered(t.index, t.file, blocks);
    var row := BlockForKey(t.index, key);
    CoveringBlockAnswers(MetaIn(t), t.file, blocks, run, hash, key, if row.Some? then row.value else |blocks|);
    if row.None? {
      return Ok(None);
    }
    var block :- LoadBlock(t, row.value, cache, disk);
    var entry := SearchBlock(block, key);
    return Ok(entry);
  }

  lemma NotAfterRow(index: seq<IndexEntry>, key: Key, mid: nat)
    requires RowsOrdered(index) && mid < |index| && Lt(key, index[mid].firstKey)
    ensures forall i :: mid <= i < |index| ==> !Covers(index[i], key)
  {
    hide Lt, Rank;
    KeyOrder();
    assert forall i :: mid < i < |index| && Covers(index[i], key) ==> Lt(index[mid].lastKey, key);
  }

  lemma NotBeforeRow(index: seq<IndexEntry>, key: Key, mid: nat)
    requires RowsOrdered(index) && mid < |index| && Lt(index[mid].lastKey, key)
    ensures forall i :: 0 <= i <= mid ==> !Covers(index[i], key)
  {
    hide Lt, Rank;
    KeyOrder();
    assert forall i :: 0 <= i < mid ==> Lt(index[i].lastKey, index[mid].firstKey);
  }

  /** In-block binary search. */
  method SearchBlock(block: Run, key: Key) returns (r: Option<Entry>)
    requires Sorted(block)
    ensures r == Lookup(block, key)
  {
    hide Lt, Rank, Lookup;
    KeyOrder();
    var lo, hi := 0, |block|;
    while lo < hi
      invariant 0 <= lo <= hi <= |block|
      invariant forall i :: 0 <= i < lo ==> Lt(block[i].0, key)
      invariant forall i :: hi <= i < |block| ==> Lt(key, block[i].0)
    {
      var mid := lo + (hi - lo) / 2;
      LtIsRankOrder(block[mid].0, key);
      if block[mid].0 == key {
        LookupAt(block, mid);
        return Some(block[mid].1);
      } else if Lt(block[mid].0, key) {
        lo := mid + 1;
      } else {
        hi := mid;
      }
    }
    if Lookup(block, key).Some? {
      var i := LookupFound(block, key);
      LtIsRankOrder(key, key);
    }
    return None;
  }

  // ----- tables that read back -----

  function BlockOr(file: seq<byte>, row: IndexEntry): Run
  {
    if ReadBlock(file, row).Ok? then ReadBlock(file, row).value else []
  }

  /** The blocks a table's rows point at. */
  ghost function BlocksIn(t: SsTable): (blocks: seq<Run>)
    ensures |blocks| == |t.index|
  {
    seq(|t.index|, i requires 0 <= i < |t.index| => BlockOr(t.file, t.index[i]))
  }

  /** The entries of a table, as its bytes give them. */
  ghost function Content(t: SsTable): Run
  {
    Flatten(BlocksIn(t))
  }

  ghost predicate DistinctOffsets(index: seq<IndexEntry>)
  {
    forall i, j :: 0 <= i < j < |index| ==> index[i].offset < index[j].offset
  }

  /** Every block reads, and the table serves its entries. */
  ghost predicate TableOk(t: SsTable, hash: Hash)
  {
    && Intact(t.index, t.file)
    && DistinctOffsets(t.index)
    && Serves(MetaIn(t), t.file, BlocksIn(t), Content(t), hash)
  }

  lemma TableStream(t: SsTable, hash: Hash)
    requires TableOk(t, hash)
    ensures StreamOf(t.file, t.index) == Stream(Content(t), None)
  {
    hide ReadBlock, StreamOf;
    assert forall i :: 0 <= i < |t.index| ==> ReadBlock(t.file, t.index[i]) == Ok(BlocksIn(t)[i]);
    IntactStream(t.index, t.file, BlocksIn(t));
  }

  lemma {:induction false} CutCount(block: Run, run: Run, blockSize: nat)
    ensures |Cut(block, run, blockSize)| <= |block| + |run|
    decreases |run|
  {
    hide EncodeEntries;
    if run == [] {
    } else {
      CutCount([], run[1..], blockSize);
      CutCount(block + [run[0]], run[1..], blockSize);
    }
  }

  /** The sizes the file format has room for. */
  ghost predicate Room(run: Run, blockSize: nat, size: (nat, nat), hash: Hash)
  {
    && |run| < U32_LIMIT && blockSize <= MAX_BLOCK_SIZE
    && 0 < size.0 < U32_LIMIT && 1 <= size.1 <= MAX_HASHES
    && |Created(0, run, blockSize, size, hash).file| < U64_LIMIT
  }

  lemma Increasing(blocks: seq<Run>, filter: Filter)
    requires FileFits(blocks, filter)
    ensures DistinctOffsets(RowsOf(blocks, 0))
  {
    hide FileOf, RowsOf, DataOf, BlockFits;
    FileStartsWithData(blocks, filter);
    forall i, j | 0 <= i < j < |blocks|
      ensures RowsOf(blocks, 0)[i].offset < RowsOf(blocks, 0)[j].offset
    {
      OffsetsIncrease(blocks, i, j);
    }
  }

  lemma FitsFile(run: Run, blockSize: nat, size: (nat, nat), hash: Hash)
    requires RunWithinLimits(run) && Room(run, blockSize, size, hash)
    ensures FileFits(BlocksOf(run, blockSize), TableFilter(run, size, hash))
    ensures forall i :: 0 <= i < |run| ==> MightHold(TableFilter(run, size, hash), hash(run[i].0))
  {
    hide FileOf, RowsOf, BlockFits, MightHold, FilterOf, RunWithinLimits;
    CutCount([], run, blockSize);
    BlocksFit(run, blockSize);
    forall i | 0 <= i < |run|
      ensures MightHold(TableFilter(run, size, hash), hash(run[i].0))
    {
      FilterHolds(EmptyFilter(size.0, size.1), run, hash, i);
    }
  }

  /**
   * A table written within the limits, reopened from its bytes, is the table
   * its writer kept, and serves exactly its entries.
   */
  lemma CreatedServes(id: nat, run: Run, blockSize: nat, size: (nat, nat), hash: Hash)
    requires ProperRun(run) && RunWithinLimits(run) && Room(run, blockSize, size, hash)
    ensures var t := Created(id, run, blockSize, size, hash);
            Opened(t.file) == Ok(MetaIn(t)) && TableOk(t, hash) && Content(t) == run
  {
    hide FileOf, RowsOf, ReadBlock, DataOf, BlockFits, MightHold, Opened, TableFilter, RunWithinLimits, BlocksOf,
         AllFit, EndOf;
    var t := Created(id, run, blockSize, size, hash);
    var blocks, filter := BlocksOf(run, blockSize), TableFilter(run, size, hash);
    FitsFile(run, blockSize, size, hash);
    OpenedFile(blocks, filter);
    WrittenServes(run, blockSize, filter, hash);
    Increasing(blocks, filter);
    SameBlocks(t, blocks);
  }

  lemma SameBlocks(t: SsTable, blocks: seq<Run>)
    requires RowsServe(t.index, t.file, blocks) && Intact(t.index, t.file)
    ensures BlocksIn(t) == blocks
  {
    hide ReadBlock;
  }
}
