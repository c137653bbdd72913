/** Reading a table from front to back, one block at a time. */
module TableIterators {
  import opened Bytes
  import opened Wrappers
  import opened Runs
  import opened Indexes
  import opened TableLookup
  import opened Streams
  import opened SsTables

  class SsTableIterator {
    const file: seq<byte>
    const index: seq<IndexEntry>
    var blockIdx: nat
    var entryIdx: nat
    var current: Run

    ghost predicate Valid()
      reads this
    {
      blockIdx <= |index| && entryIdx <= |current|
    }

    /** The entries still to come. */
    ghost function View(): Stream
      requires Valid()
      reads this
    {
      Behind(current[entryIdx..], StreamOf(file, index[blockIdx..]))
    }

    constructor (table: SsTable)
      ensures Valid() && View() == StreamOf(table.file, table.index) && entryIdx == |current|
    {
      file, index := table.file, table.index;
      blockIdx, entryIdx, current := 0, 0, [];
      new;
      assert index[0..] == index;
      Unshifted(StreamOf(file, index));
    }

    /** A new iterator with its first block loaded. */
    static method Start(table: SsTable) returns (r: Result<SsTableIterator>)
      ensures r.Ok? ==> fresh(r.value) && r.value.Valid() && r.value.View() == StreamOf(table.file, table.index)
      ensures r.Err? ==> StreamOf(table.file, table.index) == Stream([], Some(r.error))
    {
      var it := new SsTableIterator(table);
      var error := it.LoadNextBlock();
      if error.Some? {
        return Err(error.value);
      }
      return Ok(it);
    }

    method LoadNextBlock() returns (error: Option<Error>)
      requires Valid() && entryIdx == |current|
      modifies this`blockIdx, this`entryIdx, this`current
      ensures Valid() && View() == old(View())
      ensures error.None? && old(blockIdx) < |index| ==> blockIdx == old(blockIdx) + 1
      ensures old(blockIdx) == |index| ==> error.None? && blockIdx == |index|
      ensures error.Some? ==> View() == Stream([], error)
    {
      hide ReadBlock;
      ghost var rest := StreamOf(file, index[blockIdx..]);
      Unshifted(rest);
      current, entryIdx := [], 0;
      if blockIdx >= |index| {
        return None;
      }
      var block := ReadRow(file, index[blockIdx]);
      if block.Err? {
        return Some(block.error);
      }
      assert index[blockIdx..][1..] == index[blockIdx + 1..];
      current := block.value;
      blockIdx := blockIdx + 1;
      assert current[0..] == current;
      return None;
    }

    /** Yields exactly what the stream yields, errors included. */
    method Next() returns (item: Option<Result<Item>>)
      requires Valid()
      modifies this`blockIdx, this`entryIdx, this`current
      ensures Valid()
      ensures item == Streams.Next(old(View())).0 && View() == Streams.Next(old(View())).1
    {
      hide ReadBlock;
      while true
        invariant Valid() && View() == old(View())
        decreases |index| - blockIdx
      {
        if entryIdx < |current| {
          var next := current[entryIdx];
          assert View().rest[0] == next;
          assert View().rest[1..] == current[entryIdx + 1..] + StreamOf(file, index[blockIdx..]).rest;
          entryIdx := entryIdx + 1;
          return Some(Ok(next));
        }
        if blockIdx >= |index| {
          assert index[blockIdx..] == [];
          return None;
        }
        var error := LoadNextBlock();
        if error.Some? {
          return Some(Err(error.value));
        }
      }
    }
  }
}
