/** Why searching the index and then one block finds what a search of the whole run finds. */
module TableLookup {
  import opened Bytes
  import opened Wrappers
  import opened Runs
  import opened Records
  import opened Blocks
  import opened Indexes
  import opened Blooms
  import opened TableFiles
  import opened Picker
  import opened Streams

  type Hash = Key -> (u64, u64)

  function ReadBlock(file: seq<byte>, row: IndexEntry): Result<Run>
  {
    if row.offset + row.length > |file| then Err(Io) else DecodeBlock(file[row.offset..row.offset + row.length])
  }

  /** One block of a table file. */
  method ReadRow(file: seq<byte>, row: IndexEntry) returns (r: Result<Run>)
    ensures r == ReadBlock(file, row)
  {
    hide DecodeBlock;
    if row.offset + row.length > |file| {
      return Err(Io);
    }
    r := ReadDataBlock(file[row.offset..row.offset + row.length]);
  }

  /** What reading the remaining rows yields: the entries up to the first block that cannot be read. */
  function StreamOf(file: seq<byte>, index: seq<IndexEntry>): Stream
  {
    if index == [] then Stream([], None)
    else match ReadBlock(file, index[0])
      case Err(e) => Stream([], Some(e))
      case Ok(block) => Behind(block, StreamOf(file, index[1..]))
  }

  function Behind(run: Run, s: Stream): Stream
  {
    s.(rest := run + s.rest)
  }

  /** An intact table yields exactly its entries. */
  lemma {:induction false} IntactStream(index: seq<IndexEntry>, file: seq<byte>, blocks: seq<Run>)
    requires |index| == |blocks|
    requires forall i :: 0 <= i < |index| ==> ReadBlock(file, index[i]) == Ok(blocks[i])
    ensures StreamOf(file, index) == Stream(Flatten(blocks), None)
  {
    hide ReadBlock;
    if index == [] {
    } else {
      assert ReadBlock(file, index[0]) == Ok(blocks[0]);
      IntactStream(index[1..], file, blocks[1..]);
    }
  }

  /** A table yields the entries of its blocks up to the first one that cannot be read, and then that block's error. */
  lemma {:induction false} BrokenStream(index: seq<IndexEntry>, file: seq<byte>, blocks: seq<Run>, bad: nat)
    requires bad < |index| && |blocks| == bad && ReadBlock(file, index[bad]).Err?
    requires forall i :: 0 <= i < bad ==> ReadBlock(file, index[i]) == Ok(blocks[i])
    ensures StreamOf(file, index) == Stream(Flatten(blocks), Some(ReadBlock(file, index[bad]).error))
  {
    hide ReadBlock;
    if bad == 0 {
      assert blocks == [];
    } else {
      assert ReadBlock(file, index[0]) == Ok(blocks[0]);
      BrokenStream(index[1..], file, blocks[1..], bad - 1);
    }
  }

  lemma Unshifted(s: Stream)
    ensures Behind([], s) == s
  {
    assert [] + s.rest == s.rest;
  }

  predicate Covers(row: IndexEntry, key: Key)
  {
    Le(row.firstKey, key) && Le(key, row.lastKey)
  }

  /** The rows describe `blocks`; the file gives each of them, or fails to. */
  ghost predicate RowsServe(index: seq<IndexEntry>, file: seq<byte>, blocks: seq<Run>)
  {
    && |index| == |blocks| > 0
    && forall i :: 0 <= i < |index| ==>
         (ReadBlock(file, index[i]).Ok? ==> ReadBlock(file, index[i]).value == blocks[i]) &&
         index[i].firstKey == Smallest(blocks[i]) && index[i].lastKey == Largest(blocks[i])
  }

  /** Every block can be read. */
  ghost predicate Intact(index: seq<IndexEntry>, file: seq<byte>)
  {
    forall i :: 0 <= i < |index| ==> ReadBlock(file, index[i]).Ok?
  }

  /** A table written from `run`, cut into `blocks`; its blocks may since have become unreadable. */
  ghost predicate Serves(meta: Meta, file: seq<byte>, blocks: seq<Run>, run: Run, hash: Hash)
  {
    && ProperRun(run) && Flatten(blocks) == run
    && (if run == [] then blocks == [[]] else forall i :: 0 <= i < |blocks| ==> blocks[i] != [])
    && RowsServe(meta.index, file, blocks)
    && meta.smallest == Smallest(run) && meta.largest == Largest(run)
    && forall i :: 0 <= i < |run| ==> MightHold(meta.filter, hash(run[i].0))
  }

  // ----- blocks of a sorted run -----

  ghost predicate Before(a: Run, b: Run)
  {
    forall i, j :: 0 <= i < |a| && 0 <= j < |b| ==> Lt(a[i].0, b[j].0)
  }

  /** Each block is sorted and lies before every later one. */
  ghost predicate Split(blocks: seq<Run>)
  {
    && (forall i :: 0 <= i < |blocks| ==> Sorted(blocks[i]))
    && forall i, j :: 0 <= i < j < |blocks| ==> Before(blocks[i], blocks[j])
  }

  lemma SortedParts(a: Run, b: Run)
    requires Sorted(a + b)
    ensures Sorted(a) && Sorted(b) && Before(a, b)
  {
    hide Lt;
    assert forall i :: 0 <= i < |a| ==> (a + b)[i] == a[i];
    assert forall j :: 0 <= j < |b| ==> (a + b)[|a| + j] == b[j];
  }

  lemma {:induction false} InFlatten(blocks: seq<Run>, j: nat)
    requires j < |blocks|
    ensures forall x :: x in blocks[j] ==> x in Flatten(blocks)
  {
    if j == 0 {
    } else {
      InFlatten(blocks[1..], j - 1);
    }
  }

  lemma {:induction false} FlattenSplit(blocks: seq<Run>)
    requires Sorted(Flatten(blocks))
    ensures Split(blocks)
  {
    hide Lt, Sorted;
    if blocks == [] {
    } else {
      SortedParts(blocks[0], Flatten(blocks[1..]));
      FlattenSplit(blocks[1..]);
      forall j | 0 < j < |blocks|
        ensures Before(blocks[0], blocks[j])
      {
        InFlatten(blocks[1..], j - 1);
        forall i, k | 0 <= i < |blocks[0]| && 0 <= k < |blocks[j]|
          ensures Lt(blocks[0][i].0, blocks[j][k].0)
        {
          assert blocks[j][k] in Flatten(blocks[1..]);
        }
      }
      forall i, j | 0 <= i < j < |blocks|
        ensures Before(blocks[i], blocks[j])
      {
        if i > 0 {
          assert Before(blocks[1..][i - 1], blocks[1..][j - 1]);
        }
      }
    }
  }

  lemma {:induction false} LookupConcat(a: Run, b: Run, key: Key)
    ensures Lookup(a + b, key) == if Lookup(a, key).Some? then Lookup(a, key) else Lookup(b, key)
  {
    if a == [] {
      assert a + b == b;
    } else {
      LookupConcat(a[1..], b, key);
      assert (a + b)[1..] == a[1..] + b;
    }
  }

  /** When only block `i` can hold the key, it answers for the run. */
  lemma {:induction false} OneBlockAnswers(blocks: seq<Run>, key: Key, i: nat)
    requires i <= |blocks|
    requires forall j :: 0 <= j < |blocks| && j != i ==> Lookup(blocks[j], key) == None
    ensures Lookup(Flatten(blocks), key) == if i < |blocks| then Lookup(blocks[i], key) else None
  {
    if blocks == [] {
    } else {
      LookupConcat(blocks[0], Flatten(blocks[1..]), key);
      if i == 0 {
        OneBlockAnswers(blocks[1..], key, |blocks| - 1);
      } else {
        OneBlockAnswers(blocks[1..], key, i - 1);
      }
    }
  }

  /** The rows of disjoint, increasing ranges. */
  ghost predicate RowsOrdered(index: seq<IndexEntry>)
  {
    && (forall i :: 0 <= i < |index| ==> Le(index[i].firstKey, index[i].lastKey))
    && forall i, j :: 0 <= i < j < |index| ==> Lt(index[i].lastKey, index[j].firstKey)
  }

  lemma ServedOrdered(index: seq<IndexEntry>, file: seq<byte>, blocks: seq<Run>)
    requires RowsServe(index, file, blocks) && Split(blocks)
    requires |blocks| == 1 || forall i :: 0 <= i < |blocks| ==> blocks[i] != []
    ensures RowsOrdered(index)
  {
    hide Lt, Rank, ReadBlock;
    KeyOrder();
    forall i | 0 <= i < |index|
      ensures Le(index[i].firstKey, index[i].lastKey)
    {
      var a := blocks[i];
      assert Sorted(a) && (|a| > 1 ==> Lt(a[0].0, a[|a| - 1].0));
    }
    forall i, j | 0 <= i < j < |index|
      ensures Lt(index[i].lastKey, index[j].firstKey)
    {
      var a, b := blocks[i], blocks[j];
      assert Before(a, b);
      assert Lt(a[|a| - 1].0, b[0].0);
    }
  }

  /** A key no row covers is in no block. */
  lemma UncoveredAbsent(index: seq<IndexEntry>, file: seq<byte>, blocks: seq<Run>, key: Key, i: nat)
    requires RowsServe(index, file, blocks) && Split(blocks) && i < |index|
    requires !Covers(index[i], key)
    ensures Lookup(blocks[i], key) == None
  {
    if Lookup(blocks[i], key).Some? {
      HeldInRange(blocks[i], key);
    }
  }

  /** The row that covers the key, if there is one, answers for the table. */
  lemma CoveringBlockAnswers(meta: Meta, file: seq<byte>, blocks: seq<Run>, run: Run, hash: Hash, key: Key, i: nat)
    requires Serves(meta, file, blocks, run, hash) && i <= |blocks|
    requires RowsOrdered(meta.index) && (i < |blocks| ==> Covers(meta.index[i], key))
    requires i == |blocks| ==> forall j :: 0 <= j < |blocks| ==> !Covers(meta.index[j], key)
    ensures Lookup(run, key) == if i < |blocks| then Lookup(blocks[i], key) else None
    ensures i < |blocks| ==> Sorted(blocks[i])
  {
    hide Lt, Rank, ReadBlock, Sorted, MightHold;
    FlattenSplit(blocks);
    forall j | 0 <= j < |blocks| && j != i
      ensures Lookup(blocks[j], key) == None
    {
      KeyOrder();
      assert i < |blocks| ==>
          Lt(meta.index[if i < j then i else j].lastKey, meta.index[if i < j then j else i].firstKey);
      UncoveredAbsent(meta.index, file, blocks, key, j);
    }
    OneBlockAnswers(blocks, key, i);
  }

  /** A key the filter or the range rules out is not in the run. */
  lemma RuledOut(meta: Meta, file: seq<byte>, blocks: seq<Run>, run: Run, hash: Hash, key: Key)
    requires Serves(meta, file, blocks, run, hash)
    requires !MightHold(meta.filter, hash(key)) || !InKeyRange(meta, key)
    ensures Lookup(run, key) == None
  {
    hide MightHold, RowsServe;
    if Lookup(run, key).Some? {
      var i := LookupFound(run, key);
      HeldInRange(run, key);
    }
  }

  /** `contains_range`: an empty table has nothing in range. */
  predicate InKeyRange(meta: Meta, key: Key)
  {
    !(meta.smallest == [] && meta.largest == [] && |meta.index| == 1) &&
    Le(meta.smallest, key) && Le(key, meta.largest)
  }

  // ----- what was written serves -----

  lemma FileStartsWithData(blocks: seq<Run>, filter: Filter)
    requires filter.hashCount < U32_LIMIT
    ensures DataOf(blocks) <= FileOf(blocks, filter)
  {
    hide DataOf, RowsOf, EndOf, Trailed, Footer, Blooms.Encode;
  }

  lemma BlockReads(blocks: seq<Run>, filter: Filter, i: nat)
    requires FileFits(blocks, filter) && i < |blocks|
    ensures ReadBlock(FileOf(blocks, filter), RowsOf(blocks, 0)[i]) == Ok(blocks[i])
  {
    hide DataOf, RowsOf, EncodeBlock, DecodeBlock, FileOf;
    var file := FileOf(blocks, filter);
    FileStartsWithData(blocks, filter);
    assert file[0..] == file;
    RegionHolds(blocks, file, 0, i);
    assert BlockFits(blocks[i]);
    DecodeBlockEncoded(blocks[i]);
  }

  /** The file written for a run, opened or as kept by its writer, serves exactly that run. */
  lemma WrittenServes(run: Run, blockSize: nat, filter: Filter, hash: Hash)
    requires ProperRun(run) && FileFits(BlocksOf(run, blockSize), filter)
    requires forall i :: 0 <= i < |run| ==> MightHold(filter, hash(run[i].0))
    ensures var blocks := BlocksOf(run, blockSize);
            && MetaOf(RowsOf(blocks, 0), filter) == Meta(RowsOf(blocks, 0), filter, Smallest(run), Largest(run))
            && Serves(MetaOf(RowsOf(blocks, 0), filter), FileOf(blocks, filter), blocks, run, hash)
            && Intact(RowsOf(blocks, 0), FileOf(blocks, filter))
  {
    hide FileOf, RowsOf, BlocksOf, MightHold, RowsServe, Intact, FileFits, Smallest, Largest, Sorted, Flatten;
    var blocks := BlocksOf(run, blockSize);
    RowsWritten(blocks, filter);
    BlocksFlatten(run, blockSize);
    FlattenEnds(blocks);
    RowKeys(blocks, 0, 0);
    RowKeys(blocks, 0, |blocks| - 1);
  }

  lemma RowsWritten(blocks: seq<Run>, filter: Filter)
    requires FileFits(blocks, filter) && blocks != []
    ensures RowsServe(RowsOf(blocks, 0), FileOf(blocks, filter), blocks) &&
            Intact(RowsOf(blocks, 0), FileOf(blocks, filter))
  {
    hide FileOf, RowsOf, ReadBlock, AllFit, Smallest, Largest;
    forall i | 0 <= i < |blocks|
      ensures ReadBlock(FileOf(blocks, filter), RowsOf(blocks, 0)[i]) == Ok(blocks[i])
      ensures RowsOf(blocks, 0)[i].firstKey == Smallest(blocks[i]) && RowsOf(blocks, 0)[i].lastKey == Largest(blocks[i])
    {
      BlockReads(blocks, filter, i);
      RowKeys(blocks, 0, i);
    }
  }

  lemma {:induction false} FlattenEnds(blocks: seq<Run>)
    requires blocks != []
    requires |blocks| == 1 || forall i :: 0 <= i < |blocks| ==> blocks[i] != []
    ensures Smallest(Flatten(blocks)) == Smallest(blocks[0])
    ensures Largest(Flatten(blocks)) == Largest(blocks[|blocks| - 1])
  {
    if |blocks| > 1 {
      FlattenEnds(blocks[1..]);
    } else {
      assert blocks == [blocks[0]];
      assert Flatten(blocks) == blocks[0] + Flatten([]);
    }
  }

  /** No two blocks of a file start at the same offset. */
  lemma {:induction false} OffsetsIncrease(blocks: seq<Run>, i: nat, j: nat)
    requires AllFit(blocks) && |DataOf(blocks)| < U64_LIMIT && i < j < |blocks|
    ensures RowsOf(blocks, 0)[i].offset < RowsOf(blocks, 0)[j].offset
  {
    hide EncodeBlock, Trailed;
    RowsTile(blocks, 0);
    RowLength(blocks, 0, j - 1);
    if i == j - 1 {
    } else {
      OffsetsIncrease(blocks, i, j - 1);
    }
  }

  lemma {:induction false} RowLength(blocks: seq<Run>, offset: u64, i: nat)
    requires i < |blocks| && BlockFits(blocks[i])
    ensures RowsOf(blocks, offset)[i].length >= 8
  {
    hide Plus, EncodeEntries, RunWithinLimits, Smallest, Largest, Trailed;
    if i == 0 {
    } else {
      RowLength(blocks[1..], Plus(offset, Length(blocks[0])), i - 1);
    }
  }

  // ----- damage -----

  /** Changed data shows in the region of some block. */
  lemma {:induction false} DamagedRegion(blocks: seq<Run>, file: seq<byte>, bytes: seq<byte>, offset: u64)
    returns (i: nat)
    requires AllFit(blocks) && offset <= |file| == |bytes| < U64_LIMIT && DataOf(blocks) <= file[offset..]
    requires bytes[offset..offset + |DataOf(blocks)|] != DataOf(blocks)
    ensures i < |blocks|
    ensures var row := RowsOf(blocks, offset)[i];
            row.offset + row.length <= |bytes| && bytes[row.offset..row.offset + row.length] != EncodeBlock(blocks[i])
  {
    hide EncodeBlock, Length, Plus, BlockFits, Row, RowsOf, DataOf;
    DataFirst(blocks);
    var first, rest := EncodeBlock(blocks[0]), DataOf(blocks[1..]);
    var next := offset + |first|;
    SplitPrefix(file, offset, first, rest);
    NoWrap(blocks[0], offset);
    RowsFirst(blocks, offset);
    if bytes[offset..next] != first {
      i := 0;
    } else {
      assert bytes[offset..next + |rest|] == bytes[offset..next] + bytes[next..next + |rest|];
      assert AllFit(blocks[1..]);
      i := DamagedRegion(blocks[1..], file, bytes, next);
      i := i + 1;
    }
  }

  lemma DataFirst(blocks: seq<Run>)
    ensures blocks == [] ==> DataOf(blocks) == []
    ensures blocks != [] ==> DataOf(blocks) == EncodeBlock(blocks[0]) + DataOf(blocks[1..])
  {
    hide EncodeBlock;
  }

  lemma RowsFirst(blocks: seq<Run>, offset: u64)
    requires blocks != []
    ensures RowsOf(blocks, offset)[0].offset == offset && RowsOf(blocks, offset)[0].length == Length(blocks[0])
    ensures forall i :: 0 < i < |blocks| ==>
              RowsOf(blocks, offset)[i] == RowsOf(blocks[1..], Plus(offset, Length(blocks[0])))[i - 1]
  {
    hide Length, Plus;
  }

  /** A table file changed inside four consecutive bytes, anywhere, does not open or has a block that is not read. */
  lemma ChangedFileDetected(blocks: seq<Run>, filter: Filter, bytes: seq<byte>, from: nat, until: nat)
    requires FileFits(blocks, filter) && until <= from + 4
    requires DifferWithin(FileOf(blocks, filter), bytes, from, until) && bytes != FileOf(blocks, filter)
    ensures Opened(bytes).Err? || !Intact(RowsOf(blocks, 0), bytes)
  {
    hide DataOf, RowsOf, FileOf, Opened, DifferWithin, AllFit, Intact;
    var file, data := FileOf(blocks, filter), DataOf(blocks);
    FileStartsWithData(blocks, filter);
    DifferLength(file, bytes, from, until);
    if bytes[..|data|] == data {
      var start := if from < |data| then |data| else from;
      var end := if until < start then start else until;
      DifferLater(file, bytes, from, until, |data|);
      ChangedFileRejected(blocks, filter, bytes, start, end);
    } else {
      ChangedDataDetected(blocks, filter, bytes, from, until);
    }
  }

  lemma DifferLength(a: seq<byte>, b: seq<byte>, from: nat, until: nat)
    requires DifferWithin(a, b, from, until)
    ensures |a| == |b|
  {
  }

  /** Changed data makes the block that holds it unreadable. */
  lemma ChangedDataDetected(blocks: seq<Run>, filter: Filter, bytes: seq<byte>, from: nat, until: nat)
    requires FileFits(blocks, filter) && until <= from + 4
    requires DifferWithin(FileOf(blocks, filter), bytes, from, until)
    requires |DataOf(blocks)| <= |bytes| && bytes[..|DataOf(blocks)|] != DataOf(blocks)
    ensures !Intact(RowsOf(blocks, 0), bytes)
  {
    hide DataOf, RowsOf, FileOf, EncodeBlock, DecodeBlock, AllFit, Clamped;
    var file, data := FileOf(blocks, filter), DataOf(blocks);
    FileStartsWithData(blocks, filter);
    assert bytes[..|data|] == bytes[0..|data|] && file[0..] == file;
    var i := DamagedRegion(blocks, file, bytes, 0);
    RegionHolds(blocks, file, 0, i);
    var row := RowsOf(blocks, 0)[i];
    var p, q := row.offset, row.offset + row.length;
    DifferSlice(file, bytes, from, until, p, q);
    ChangedBlockRejected(blocks[i], bytes[p..q], Clamped(from, p, q), Clamped(until, p, q));
    assert ReadBlock(bytes, row).Err?;
  }

  lemma DifferLater(a: seq<byte>, b: seq<byte>, from: nat, until: nat, n: nat)
    requires DifferWithin(a, b, from, until) && n <= |a| && a[..n] == b[..n]
    ensures var start := if from < n then n else from;
            DifferWithin(a, b, start, if until < start then start else until)
  {
    if until < n {
      assert a[n..] == a[until..][n - until..] && b[n..] == b[until..][n - until..];
    }
  }
}
