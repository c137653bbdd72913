/** The table file: block cutting, layout, writing and opening. */
module TableFiles {
  import opened Bytes
  import opened Wrappers
  import opened Crc
  import opened Runs
  import opened Records
  import opened Blocks
  import opened Indexes
  import opened Blooms

  const MAGIC: u32 := 0x4C53_4D31
  const FOOTER_LEN: nat := 48
  const FORMAT_VERSION: u32 := 1

  // ----- cutting a run into blocks -----

  /** The blocks of `run` behind an open block: a block closes once its entries fill `blockSize` bytes. */
  function Cut(block: Run, run: Run, blockSize: nat): seq<Run>
    decreases |run|
  {
    if run == [] then (if block == [] then [] else [block])
    else
      var grown := block + [run[0]];
      if |EncodeEntries(grown)| >= blockSize then [grown] + Cut([], run[1..], blockSize)
      else Cut(grown, run[1..], blockSize)
  }

  /** An empty table still has one, empty, block. */
  function BlocksOf(run: Run, blockSize: nat): (blocks: seq<Run>)
    ensures blocks != []
  {
    var blocks := Cut([], run, blockSize);
    if blocks == [] then [[]] else blocks
  }

  function Flatten(blocks: seq<Run>): Run
  {
    if blocks == [] then [] else blocks[0] + Flatten(blocks[1..])
  }

  /** Cutting loses nothing, adds nothing, and leaves no empty block. */
  lemma {:induction false} CutFlattens(block: Run, run: Run, blockSize: nat)
    ensures Flatten(Cut(block, run, blockSize)) == block + run
    ensures forall i :: 0 <= i < |Cut(block, run, blockSize)| ==> Cut(block, run, blockSize)[i] != []
    decreases |run|
  {
    hide EncodeEntries;
    if run == [] {
      assert Flatten([block]) == block + Flatten([]);
    } else {
      var grown := block + [run[0]];
      assert run == [run[0]] + run[1..];
      CutFlattens([], run[1..], blockSize);
      CutFlattens(grown, run[1..], blockSize);
      var rest := Cut([], run[1..], blockSize);
      assert ([grown] + rest)[1..] == rest;
    }
  }

  lemma BlocksFlatten(run: Run, blockSize: nat)
    ensures Flatten(BlocksOf(run, blockSize)) == run
    ensures run == [] ==> BlocksOf(run, blockSize) == [[]]
    ensures run != [] ==> forall i :: 0 <= i < |BlocksOf(run, blockSize)| ==> BlocksOf(run, blockSize)[i] != []
  {
    hide EncodeEntries;
    CutFlattens([], run, blockSize);
    assert [] + run == run;
    if Cut([], run, blockSize) == [] {
      assert Flatten([[]]) == [] + Flatten([]);
    }
  }

  /** Closed no earlier than needed: without its last entry the block is not full. */
  ghost predicate Tight(block: Run, blockSize: nat)
  {
    |block| <= 1 || |EncodeEntries(block[..|block| - 1])| < blockSize
  }

  /** All blocks but the last are full, and none was full an entry earlier. */
  ghost predicate Filled(blocks: seq<Run>, blockSize: nat)
  {
    && (forall i :: 0 <= i < |blocks| - 1 ==> |EncodeEntries(blocks[i])| >= blockSize)
    && forall i :: 0 <= i < |blocks| ==> Tight(blocks[i], blockSize)
  }

  /** A block closes as soon as its entries fill `blockSize` bytes. */
  lemma {:induction false} CutFills(block: Run, run: Run, blockSize: nat)
    requires |EncodeEntries(block)| < blockSize || block == []
    ensures Filled(Cut(block, run, blockSize), blockSize)
    decreases |run|
  {
    hide EncodeEntries, Filled;
    if run == [] {
      OneFilled(block, blockSize);
    } else {
      var grown := block + [run[0]];
      assert grown[..|grown| - 1] == block;
      if |EncodeEntries(grown)| >= blockSize {
        CutFills([], run[1..], blockSize);
        FilledCons(grown, Cut([], run[1..], blockSize), blockSize);
      } else {
        CutFills(grown, run[1..], blockSize);
      }
    }
  }

  lemma FilledCons(block: Run, rest: seq<Run>, blockSize: nat)
    requires |EncodeEntries(block)| >= blockSize && Tight(block, blockSize) && Filled(rest, blockSize)
    ensures Filled([block] + rest, blockSize)
  {
    hide EncodeEntries, Tight;
  }

  lemma OneFilled(block: Run, blockSize: nat)
    requires |EncodeEntries(block)| < blockSize || block == []
    ensures Filled([], blockSize) && Filled([block], blockSize)
  {
    hide EncodeEntries, EncodeEntry;
    if |block| > 1 {
      var n := |block| - 1;
      EncodeEntriesSnoc(block[..n], block[n]);
      assert block == block[..n] + [block[n]];
    }
  }

  /** The most bytes an entry within the limits can take. */
  const MAX_ENTRY_LEN: nat := ENTRY_HEADER_LEN + MAX_KEY_SIZE + MAX_VALUE_SIZE

  predicate EntryWithinLimits(pair: (Key, Entry))
  {
    |pair.0| <= MAX_KEY_SIZE && |EntryBytes(pair.1)| <= MAX_VALUE_SIZE
  }

  ghost predicate RunWithinLimits(run: Run)
  {
    forall i :: 0 <= i < |run| ==> EntryWithinLimits(run[i])
  }

  /** Every block is at most one entry longer than `blockSize`. */
  lemma {:induction false} CutBounded(block: Run, run: Run, blockSize: nat)
    requires RunWithinLimits(block) && RunWithinLimits(run)
    requires |EncodeEntries(block)| < blockSize || block == []
    ensures forall i :: 0 <= i < |Cut(block, run, blockSize)| ==> BlockBounded(Cut(block, run, blockSize)[i], blockSize)
    decreases |run|
  {
    if run == [] {
    } else {
      var grown := block + [run[0]];
      EncodeEntriesSnoc(block, run[0]);
      if |EncodeEntries(grown)| >= blockSize {
        CutBounded([], run[1..], blockSize);
        assert BlockBounded(grown, blockSize);
      } else {
        CutBounded(grown, run[1..], blockSize);
      }
    }
  }

  ghost predicate BlockBounded(block: Run, blockSize: nat)
  {
    RunWithinLimits(block) && |EncodeEntries(block)| <= blockSize + MAX_ENTRY_LEN
  }

  lemma {:induction false} EntriesAtLeast(run: Run)
    ensures |EncodeEntries(run)| >= ENTRY_HEADER_LEN * |run|
  {
    hide EncodeEntry;
    if run == [] {
    } else {
      EntriesAtLeast(run[1..]);
    }
  }

  /** The largest block size whose blocks are sure to fit the 32-bit length field. */
  const MAX_BLOCK_SIZE: nat := U32_LIMIT - 1 - 8 - MAX_ENTRY_LEN

  /** With a block size up to `MAX_BLOCK_SIZE`, no block length wraps, and every block reads back. */
  lemma BlocksFit(run: Run, blockSize: nat)
    requires RunWithinLimits(run) && blockSize <= MAX_BLOCK_SIZE
    ensures forall i :: 0 <= i < |BlocksOf(run, blockSize)| ==> BlockFits(BlocksOf(run, blockSize)[i])
  {
    CutBounded([], run, blockSize);
    var blocks := BlocksOf(run, blockSize);
    forall i | 0 <= i < |blocks|
      ensures BlockFits(blocks[i])
    {
      EntriesAtLeast(blocks[i]);
    }
  }

  /** The block's count and length fit 32 bits, as do the lengths in it. */
  ghost predicate BlockFits(block: Run)
  {
    && |EncodeBlock(block)| < U32_LIMIT
    && |block| < U32_LIMIT
    && RunWithinLimits(block)
  }

  // ----- layout -----

  /** The recorded length of a block. */
  function Length(block: Run): u32
  {
    Len32(|EncodeBlock(block)|)
  }

  function Row(block: Run, offset: u64): IndexEntry
  {
    IndexEntry(Smallest(block), Largest(block), offset, Length(block))
  }

  /** `offset += length`, in 64 bits. */
  function Plus(offset: u64, length: u32): u64
  {
    (offset + length) % U64_LIMIT
  }

  function RowsOf(blocks: seq<Run>, offset: u64): (rows: seq<IndexEntry>)
    ensures |rows| == |blocks|
  {
    if blocks == [] then []
    else [Row(blocks[0], offset)] + RowsOf(blocks[1..], Plus(offset, Length(blocks[0])))
  }

  function EndOf(blocks: seq<Run>, offset: u64): u64
  {
    if blocks == [] then offset else EndOf(blocks[1..], Plus(offset, Length(blocks[0])))
  }

  function DataOf(blocks: seq<Run>): seq<byte>
  {
    if blocks == [] then [] else EncodeBlock(blocks[0]) + DataOf(blocks[1..])
  }

  lemma {:induction false} RowsSnoc(blocks: seq<Run>, block: Run, offset: u64)
    ensures RowsOf(blocks + [block], offset) == RowsOf(blocks, offset) + [Row(block, EndOf(blocks, offset))]
    ensures EndOf(blocks + [block], offset) == Plus(EndOf(blocks, offset), Length(block))
  {
    hide Row, Plus, Length;
    if blocks == [] {
      assert blocks + [block] == [block];
      assert RowsOf([], Plus(offset, Length(block))) == [];
    } else {
      RowsSnoc(blocks[1..], block, Plus(offset, Length(blocks[0])));
      assert (blocks + [block])[1..] == blocks[1..] + [block];
    }
  }

  lemma {:induction false} DataSnoc(blocks: seq<Run>, block: Run)
    ensures DataOf(blocks + [block]) == DataOf(blocks) + EncodeBlock(block)
  {
    hide EncodeBlock;
    if blocks == [] {
      assert blocks + [block] == [block];
      assert DataOf([block]) == EncodeBlock(block) + DataOf([]);
    } else {
      DataSnoc(blocks[1..], block);
      assert (blocks + [block])[1..] == blocks[1..] + [block];
    }
  }

  ghost predicate AllFit(blocks: seq<Run>)
  {
    forall i :: 0 <= i < |blocks| ==> BlockFits(blocks[i])
  }

  /** The recorded regions tile the data: each row starts where the one before ends, and the last ends the data. */
  lemma {:induction false} RowsTile(blocks: seq<Run>, offset: u64)
    requires AllFit(blocks) && offset + |DataOf(blocks)| < U64_LIMIT
    ensures EndOf(blocks, offset) == offset + |DataOf(blocks)|
    ensures blocks != [] ==> RowsOf(blocks, offset)[0].offset == offset
    ensures forall i :: 0 < i < |blocks| ==>
              var before := RowsOf(blocks, offset)[i - 1];
              RowsOf(blocks, offset)[i].offset == before.offset + before.length
  {
    hide EncodeBlock, Smallest, Largest, RunWithinLimits;
    if blocks == [] {
    } else {
      RowsTile(blocks[1..], Plus(offset, Length(blocks[0])));
    }
  }

  lemma SplitPrefix(file: seq<byte>, offset: nat, a: seq<byte>, b: seq<byte>)
    requires offset <= |file| && a + b <= file[offset..]
    ensures offset + |a| <= |file| && file[offset..offset + |a|] == a && b <= file[offset + |a|..]
  {
    assert file[offset..][..|a|] == (a + b)[..|a|] == a;
    assert file[offset..][|a|..] == file[offset + |a|..];
    assert (a + b)[|a|..] == b;
  }

  /** A row's region of the file holds the bytes of the block. */
  ghost predicate RegionOk(row: IndexEntry, block: Run, file: seq<byte>)
  {
    row.offset + row.length <= |file| && file[row.offset..row.offset + row.length] == EncodeBlock(block)
  }

  lemma NoWrap(block: Run, offset: u64)
    requires BlockFits(block) && offset + |EncodeBlock(block)| < U64_LIMIT
    ensures Length(block) == |EncodeBlock(block)| && Plus(offset, Length(block)) == offset + |EncodeBlock(block)|
  {
    hide EncodeBlock, RunWithinLimits;
  }

  /** The region recorded for block `i` holds block `i`. */
  lemma {:induction false} RegionHolds(blocks: seq<Run>, file: seq<byte>, offset: u64, i: nat)
    requires AllFit(blocks) && i < |blocks|
    requires offset <= |file| < U64_LIMIT && DataOf(blocks) <= file[offset..]
    ensures RegionOk(RowsOf(blocks, offset)[i], blocks[i], file)
  {
    hide EncodeBlock, Length, Plus, BlockFits, Smallest, Largest;
    SplitPrefix(file, offset, EncodeBlock(blocks[0]), DataOf(blocks[1..]));
    NoWrap(blocks[0], offset);
    if i == 0 {
    } else {
      assert AllFit(blocks[1..]);
      RegionHolds(blocks[1..], file, Plus(offset, Length(blocks[0])), i - 1);
      assert RowsOf(blocks, offset)[i] == RowsOf(blocks[1..], Plus(offset, Length(blocks[0])))[i - 1];
    }
  }

  function FooterBody(indexOffset: u64, indexLen: u64, bloomOffset: u64, bloomLen: u64): (bytes: seq<byte>)
    ensures |bytes| == 40
  {
    U64Bytes(indexOffset) + U64Bytes(indexLen) + U64Bytes(bloomOffset) + U64Bytes(bloomLen) +
    U32Bytes(FORMAT_VERSION) + U32Bytes(0)
  }

  function Footer(indexOffset: u64, indexLen: u64, bloomOffset: u64, bloomLen: u64): (bytes: seq<byte>)
    ensures |bytes| == FOOTER_LEN
  {
    Trailed(FooterBody(indexOffset, indexLen, bloomOffset, bloomLen)) + U32Bytes(MAGIC)
  }

  function Len64(n: nat): u64
  {
    n % U64_LIMIT
  }

  /** The file for `blocks`: data, index, filter, footer. */
  function FileOf(blocks: seq<Run>, filter: Filter): seq<byte>
    requires filter.hashCount < U32_LIMIT
  {
    var index, bloom := Trailed(IndexBody(RowsOf(blocks, 0))), Blooms.Encode(filter);
    var indexOffset := EndOf(blocks, 0);
    var bloomOffset := Len64(indexOffset + |index|);
    DataOf(blocks) + index + bloom + Footer(indexOffset, Len64(|index|), bloomOffset, Len64(|bloom|))
  }

  // ----- opening -----

  /** What is held in memory of a table file. */
  datatype Meta = Meta(index: seq<IndexEntry>, filter: Filter, smallest: Key, largest: Key)

  function MetaOf(index: seq<IndexEntry>, filter: Filter): Meta
  {
    if index == [] then Meta(index, filter, [], [])
    else Meta(index, filter, index[0].firstKey, index[|index| - 1].lastKey)
  }

  /** Gives back the rows and the filter a table was written from, and refuses one damaged behind its data. */
  method OpenTable(file: seq<byte>) returns (r: Result<Meta>)
    ensures r == Opened(file)
    ensures forall blocks, filter :: FileFits(blocks, filter) && file == FileOf(blocks, filter) ==>
              r == Ok(MetaOf(RowsOf(blocks, 0), filter))
    ensures forall blocks, filter, from, until :: Damaged(blocks, filter, file, from, until) ==> r.Err?
  {
    hide ReadU32, ReadU64, Crc32, Checked, IndexOf, Blooms.Decode, FileOf, FileFits, RowsOf, Damaged;
    OpenedExactly(file);
    if |file| < FOOTER_LEN {
      return Err(CorruptedRecord);
    }
    var footer := file[|file| - FOOTER_LEN..];
    if ReadU32(footer[44..48]) != MAGIC {
      return Err(CorruptedRecord);
    }
    if Crc32(footer[..40]) != ReadU32(footer[40..44]) {
      return Err(InvalidChecksum);
    }
    if ReadU32(footer[32..36]) != FORMAT_VERSION {
      return Err(CorruptedRecord);
    }
    var indexOffset, indexLen := ReadU64(footer[0..8]), ReadU64(footer[8..16]);
    var bloomOffset, bloomLen := ReadU64(footer[16..24]), ReadU64(footer[24..32]);
    if indexOffset + indexLen > |file| || bloomOffset + bloomLen > |file| {
      return Err(CorruptedRecord);
    }
    var index :- DecodeIndex(file[indexOffset..indexOffset + indexLen]);
    var filter :- Blooms.Decode(file[bloomOffset..bloomOffset + bloomLen]);
    var smallest := if index == [] then [] else index[0].firstKey;
    var largest := if index == [] then [] else index[|index| - 1].lastKey;
    return Ok(Meta(index, filter, smallest, largest));
  }

  function Opened(file: seq<byte>): Result<Meta>
  {
    if |file| < FOOTER_LEN then Err(CorruptedRecord) else
    var footer := file[|file| - FOOTER_LEN..];
    if ReadU32(footer[44..48]) != MAGIC then Err(CorruptedRecord) else
    if Crc32(footer[..40]) != ReadU32(footer[40..44]) then Err(InvalidChecksum) else
    if ReadU32(footer[32..36]) != FORMAT_VERSION then Err(CorruptedRecord) else
    var indexOffset, indexLen := ReadU64(footer[0..8]), ReadU64(footer[8..16]);
    var bloomOffset, bloomLen := ReadU64(footer[16..24]), ReadU64(footer[24..32]);
    if indexOffset + indexLen > |file| || bloomOffset + bloomLen > |file| then Err(CorruptedRecord) else
    var index :- IndexOf(file[indexOffset..indexOffset + indexLen]);
    var filter :- Blooms.Decode(file[bloomOffset..bloomOffset + bloomLen]);
    Ok(MetaOf(index, filter))
  }

  lemma FooterLayout(a: u64, b: u64, c: u64, d: u64)
    ensures var footer := Footer(a, b, c, d);
            && ReadU32(footer[44..48]) == MAGIC
            && Crc32(footer[..40]) == ReadU32(footer[40..44])
            && ReadU32(footer[32..36]) == FORMAT_VERSION
            && ReadU64(footer[0..8]) == a && ReadU64(footer[8..16]) == b
            && ReadU64(footer[16..24]) == c && ReadU64(footer[24..32]) == d
  {
    hide U32Bytes, U64Bytes, ReadU32, ReadU64, Crc32;
    var footer, body := Footer(a, b, c, d), FooterBody(a, b, c, d);
    U64RoundTrip(a);
    U64RoundTrip(b);
    U64RoundTrip(c);
    U64RoundTrip(d);
    U32RoundTrip(FORMAT_VERSION);
    U32RoundTrip(MAGIC);
    U32RoundTrip(Crc32(body));
    assert footer[..40] == body;
    assert footer[40..44] == U32Bytes(Crc32(body)) && footer[44..48] == U32Bytes(MAGIC);
    assert footer[0..8] == U64Bytes(a) && footer[8..16] == U64Bytes(b);
    assert footer[16..24] == U64Bytes(c) && footer[24..32] == U64Bytes(d) && footer[32..36] == U32Bytes(FORMAT_VERSION);
  }

  /** Every number written into the file fits its field. */
  ghost predicate FileFits(blocks: seq<Run>, filter: Filter)
  {
    && AllFit(blocks) && |blocks| < U32_LIMIT && Blooms.Proper(filter)
    && |FileOf(blocks, filter)| < U64_LIMIT
  }

  lemma Parts(a: seq<byte>, b: seq<byte>, c: seq<byte>, d: seq<byte>)
    ensures var file := a + b + c + d;
            && file[|file| - |d|..] == d
            && file[|a|..|a| + |b|] == b
            && file[|a| + |b|..|a| + |b| + |c|] == c
  {
  }

  lemma FileParts(blocks: seq<Run>, filter: Filter)
    requires FileFits(blocks, filter)
    ensures var index, bloom := Trailed(IndexBody(RowsOf(blocks, 0))), Blooms.Encode(filter);
            var i, b := |DataOf(blocks)|, |DataOf(blocks)| + |index|;
            b + |bloom| < U64_LIMIT &&
            FileOf(blocks, filter) == DataOf(blocks) + index + bloom + Footer(i, |index|, b, |bloom|)
  {
    hide DataOf, RowsOf, EndOf, IndexBody, BlockFits, Blooms.Encode, Footer;
    RowsTile(blocks, 0);
  }

  /** Opening the file gives back the rows and the filter it was written from. */
  lemma OpenedFile(blocks: seq<Run>, filter: Filter)
    requires FileFits(blocks, filter)
    ensures Opened(FileOf(blocks, filter)) == Ok(MetaOf(RowsOf(blocks, 0), filter))
  {
    hide ReadU32, ReadU64, Crc32, DataOf, RowsOf, IndexOf, IndexBody, Trailed, BlockFits, Blooms.Encode, Blooms.Decode,
         Footer, FileOf, MetaOf;
    var rows, data := RowsOf(blocks, 0), DataOf(blocks);
    var index, bloom := Trailed(IndexBody(rows)), Blooms.Encode(filter);
    FileParts(blocks, filter);
    var footer := Footer(|data|, |index|, |data| + |index|, |bloom|);
    Parts(data, index, bloom, footer);
    FooterLayout(|data|, |index|, |data| + |index|, |bloom|);
    RowsStorable(blocks);
    IndexOfEncoded(rows);
    Blooms.DecodeEncoded(filter);
  }

  lemma RowsStorable(blocks: seq<Run>)
    requires AllFit(blocks)
    ensures forall i :: 0 <= i < |blocks| ==> StorableRow(RowsOf(blocks, 0)[i])
  {
    forall i | 0 <= i < |blocks|
      ensures StorableRow(RowsOf(blocks, 0)[i])
    {
      RowKeys(blocks, 0, i);
    }
  }

  lemma {:induction false} RowKeys(blocks: seq<Run>, offset: u64, i: nat)
    requires i < |blocks|
    ensures RowsOf(blocks, offset)[i].firstKey == Smallest(blocks[i])
    ensures RowsOf(blocks, offset)[i].lastKey == Largest(blocks[i])
  {
    hide Length, Plus;
    if i == 0 {
    } else {
      RowKeys(blocks[1..], Plus(offset, Length(blocks[0])), i - 1);
    }
  }

  // ----- damage -----

  /** A footer changed inside four consecutive bytes is refused. */
  lemma ChangedFooter(a: u64, b: u64, c: u64, d: u64, bytes: seq<byte>, from: nat, until: nat)
    requires DifferWithin(Footer(a, b, c, d), bytes, from, until) && bytes != Footer(a, b, c, d) && until <= from + 4
    ensures ReadU32(bytes[44..48]) != MAGIC || Crc32(bytes[..40]) != ReadU32(bytes[40..44])
  {
    hide Crc32, ReadU32, U32Bytes, U64Bytes, Trailed, FooterBody, Checked;
    var good, body := Footer(a, b, c, d), FooterBody(a, b, c, d);
    assert good[..44] == good[0..44] == Trailed(body) && bytes[..44] == bytes[0..44];
    if bytes[..44] == good[..44] {
      assert good == good[..44] + good[44..48] && bytes == bytes[..44] + bytes[44..48];
      assert good[44..48] == U32Bytes(MAGIC);
      U32Canonical(bytes[44..48]);
    } else {
      DifferSlice(good, bytes, from, until, 0, 44);
      ChangedTrailed(body, bytes[..44], Clamped(from, 0, 44), Clamped(until, 0, 44), 4);
      CheckedFails(bytes[..44]);
      assert bytes[..44][..40] == bytes[..40] && bytes[..44][40..] == bytes[40..44];
    }
  }

  lemma CheckedFails(bytes: seq<byte>)
    requires |bytes| == 44 && Checked(bytes, 4).Err?
    ensures Crc32(bytes[..40]) != ReadU32(bytes[40..])
  {
  }

  lemma ChangedFilter(filter: Filter, bytes: seq<byte>, from: nat, until: nat)
    requires filter.hashCount < U32_LIMIT && until <= from + 4
    requires DifferWithin(Blooms.Encode(filter), bytes, from, until) && bytes != Blooms.Encode(filter)
    ensures Blooms.Decode(bytes).Err?
  {
    hide Crc32, ReadU32, U32Bytes, Unpack, Pack, Blooms.Body;
    assert Blooms.Encode(filter) == Trailed(Blooms.Body(filter));
    ChangedTrailed(Blooms.Body(filter), bytes, from, until, 4);
  }

  lemma ChangedIndex(rows: seq<IndexEntry>, bytes: seq<byte>, from: nat, until: nat)
    requires DifferWithin(Trailed(IndexBody(rows)), bytes, from, until) && bytes != Trailed(IndexBody(rows))
    requires until <= from + 4
    ensures IndexOf(bytes).Err?
  {
    hide Checked, Trailed, IndexBody, DecodeRows, ReadU32;
    ChangedTrailed(IndexBody(rows), bytes, from, until, 8);
  }

  /** What opening looked at. */
  lemma OpenedReads(bytes: seq<byte>, a: u64, n: u64, b: u64, m: u64)
    requires Opened(bytes).Ok?
    ensures |bytes| >= FOOTER_LEN
    ensures var footer := bytes[|bytes| - FOOTER_LEN..];
            && ReadU32(footer[44..48]) == MAGIC && Crc32(footer[..40]) == ReadU32(footer[40..44])
            && (footer == Footer(a, n, b, m) && a + n <= |bytes| && b + m <= |bytes| ==>
                  IndexOf(bytes[a..a + n]).Ok? && Blooms.Decode(bytes[b..b + m]).Ok?)
  {
    hide ReadU32, ReadU64, Crc32, IndexOf, Blooms.Decode, Footer, MetaOf;
    FooterLayout(a, n, b, m);
  }

  /** A change behind the data shows in the footer, the index or the filter. */
  lemma ChangedPart(data: seq<byte>, index: seq<byte>, bloom: seq<byte>, footer: seq<byte>, bytes: seq<byte>,
                    from: nat, until: nat)
    requires var file := data + index + bloom + footer;
             DifferWithin(file, bytes, from, until) && bytes != file && |data| <= from
    ensures var i, b, f, n := |data|, |data| + |index|, |data| + |index| + |bloom|, |bytes|;
            && n == f + |footer|
            && DifferWithin(footer, bytes[f..], Clamped(from, f, n), Clamped(until, f, n))
            && DifferWithin(index, bytes[i..b], Clamped(from, i, b), Clamped(until, i, b))
            && DifferWithin(bloom, bytes[b..f], Clamped(from, b, f), Clamped(until, b, f))
            && (bytes[f..] != footer || bytes[i..b] != index || bytes[b..f] != bloom)
  {
    hide DifferWithin, Clamped;
    var file := data + index + bloom + footer;
    var i, b, f := |data|, |data| + |index|, |data| + |index| + |bloom|;
    DifferEnds(file, bytes, from, until, i);
    Parts(data, index, bloom, footer);
    PartDiffers(data, index, bloom, footer, bytes);
    assert file[f..] == file[f..|file|] && bytes[f..] == bytes[f..|bytes|];
    DifferSlice(file, bytes, from, until, f, |file|);
    DifferSlice(file, bytes, from, until, i, b);
    DifferSlice(file, bytes, from, until, b, f);
  }

  lemma PartDiffers(data: seq<byte>, index: seq<byte>, bloom: seq<byte>, footer: seq<byte>, bytes: seq<byte>)
    requires var file := data + index + bloom + footer;
             |bytes| == |file| && bytes[..|data|] == file[..|data|] && bytes != file
    ensures var i, b, f := |data|, |data| + |index|, |data| + |index| + |bloom|;
            bytes[f..] != footer || bytes[i..b] != index || bytes[b..f] != bloom
  {
    var i, b, f := |data|, |data| + |index|, |data| + |index| + |bloom|;
    assert (data + index + bloom + footer)[..i] == data;
    assert bytes == bytes[..i] + bytes[i..b] + bytes[b..f] + bytes[f..];
  }

  lemma DifferEnds(a: seq<byte>, b: seq<byte>, from: nat, until: nat, i: nat)
    requires DifferWithin(a, b, from, until) && i <= from
    ensures |a| == |b| && i <= |a| && b[..i] == a[..i]
  {
    assert b[..i] == b[..from][..i] && a[..i] == a[..from][..i];
  }

  lemma ClampedWidth(from: nat, until: nat, p: nat, q: nat)
    requires from <= until <= from + 4 && p <= q
    ensures Clamped(until, p, q) <= Clamped(from, p, q) + 4
  {
  }

  /** `bytes` is a written table with a change inside four consecutive bytes of its index, filter or footer. */
  ghost predicate Damaged(blocks: seq<Run>, filter: Filter, bytes: seq<byte>, from: nat, until: nat)
  {
    && FileFits(blocks, filter)
    && |DataOf(blocks)| <= from && until <= from + 4
    && DifferWithin(FileOf(blocks, filter), bytes, from, until)
    && bytes != FileOf(blocks, filter)
  }

  lemma OpenedExactly(file: seq<byte>)
    ensures forall blocks, filter :: FileFits(blocks, filter) && file == FileOf(blocks, filter) ==>
              Opened(file) == Ok(MetaOf(RowsOf(blocks, 0), filter))
    ensures forall blocks, filter, from, until :: Damaged(blocks, filter, file, from, until) ==> Opened(file).Err?
  {
    hide FileOf, RowsOf, MetaOf, Opened, DataOf, AllFit;
    forall blocks, filter | FileFits(blocks, filter) && file == FileOf(blocks, filter)
      ensures Opened(file) == Ok(MetaOf(RowsOf(blocks, 0), filter))
    {
      OpenedFile(blocks, filter);
    }
    forall blocks, filter, from, until | Damaged(blocks, filter, file, from, until)
      ensures Opened(file).Err?
    {
      ChangedFileRejected(blocks, filter, file, from, until);
    }
  }

  /** A table whose index, filter or footer was changed inside four consecutive bytes does not open. */
  lemma ChangedFileRejected(blocks: seq<Run>, filter: Filter, bytes: seq<byte>, from: nat, until: nat)
    requires Damaged(blocks, filter, bytes, from, until)
    ensures Opened(bytes).Err?
  {
    hide ReadU32, ReadU64, Crc32, DataOf, RowsOf, IndexOf, IndexBody, Trailed, AllFit, Blooms.Encode, Blooms.Decode,
         Footer, FileOf, Opened, Clamped;
    var rows, data := RowsOf(blocks, 0), DataOf(blocks);
    var index, bloom := Trailed(IndexBody(rows)), Blooms.Encode(filter);
    FileParts(blocks, filter);
    var i, b, f, n := |data|, |data| + |index|, |data| + |index| + |bloom|, |bytes|;
    var footer := Footer(i, |index|, b, |bloom|);
    ChangedPart(data, index, bloom, footer, bytes, from, until);
    ClampedWidth(from, until, f, n);
    ClampedWidth(from, until, i, b);
    ClampedWidth(from, until, b, f);
    if Opened(bytes).Ok? {
      OpenedReads(bytes, i, |index|, b, |bloom|);
      if bytes[f..] != footer {
        ChangedFooter(i, |index|, b, |bloom|, bytes[f..], Clamped(from, f, n), Clamped(until, f, n));
      } else if bytes[i..b] != index {
        ChangedIndex(rows, bytes[i..b], Clamped(from, i, b), Clamped(until, i, b));
      } else {
        ChangedFilter(filter, bytes[b..f], Clamped(from, b, f), Clamped(until, b, f));
      }
    }
  }
}
