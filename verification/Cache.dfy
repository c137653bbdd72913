/** The block cache: bounded, and least recently used first out. */
module Caches {
  import opened Bytes
  import opened Wrappers
  import opened Runs

  datatype BlockKey = BlockKey(tableId: nat, offset: nat)

  type Block = Run

  function EntrySize(pair: (Key, Entry)): nat
  {
    |pair.0| + if pair.1.Value? then |pair.1.value| else 0
  }

  function PayloadSize(block: Block): nat
  {
    if block == [] then 0 else PayloadSize(block[..|block| - 1]) + EntrySize(block[|block| - 1])
  }

  /** Every block counts for at least one byte. */
  function BlockSize(block: Block): (n: nat)
    ensures n >= 1
  {
    var n := PayloadSize(block);
    if n > 1 then n else 1
  }

  /** A block weighs the bytes of its keys and values, or one byte if it has none. */
  lemma {:induction false} PayloadCounts(a: Block, b: Block, key: Key, value: seq<byte>)
    ensures PayloadSize([]) == 0
    ensures PayloadSize([(key, Value(value))]) == |key| + |value| && PayloadSize([(key, Tombstone)]) == |key|
    ensures PayloadSize(a + b) == PayloadSize(a) + PayloadSize(b)
    ensures BlockSize(a) == if PayloadSize(a) == 0 then 1 else PayloadSize(a)
  {
    assert [(key, Value(value))][..0] == [] && [(key, Tombstone)][..0] == [];
    if b == [] {
      assert a + b == a;
    } else {
      var n := |b| - 1;
      PayloadCounts(a, b[..n], key, value);
      assert (a + b)[..|a + b| - 1] == a + b[..n];
    }
  }

  function SaturatingSub(a: nat, b: nat): nat
  {
    if a >= b then a - b else 0
  }

  // ----- the recency queue -----

  /** The queue without the first occurrence of `key`. */
  function Without(order: seq<BlockKey>, key: BlockKey): seq<BlockKey>
  {
    if order == [] then []
    else if order[0] == key then order[1..]
    else [order[0]] + Without(order[1..], key)
  }

  ghost predicate NoRepeats(order: seq<BlockKey>)
  {
    forall i, j :: 0 <= i < j < |order| ==> order[i] != order[j]
  }

  /** The queue holds the keys of the map, each once. */
  ghost predicate Matches(order: seq<BlockKey>, blocks: map<BlockKey, Block>)
  {
    NoRepeats(order) && forall k :: k in order <==> k in blocks
  }

  /** The bytes of the queued blocks. */
  ghost function Total(order: seq<BlockKey>, blocks: map<BlockKey, Block>): nat
  {
    if order == [] then 0
    else (if order[0] in blocks then BlockSize(blocks[order[0]]) else 0) + Total(order[1..], blocks)
  }

  /** Position of the last use of a key, or -1. */
  ghost function LastUse(uses: seq<BlockKey>, key: BlockKey): int
  {
    if uses == [] then -1
    else if uses[|uses| - 1] == key then |uses| - 1
    else LastUse(uses[..|uses| - 1], key)
  }

  /** Least recently used first. */
  ghost predicate ByRecency(order: seq<BlockKey>, uses: seq<BlockKey>)
  {
    && (forall i :: 0 <= i < |order| ==> LastUse(uses, order[i]) < |uses|)
    && forall i, j :: 0 <= i < j < |order| ==> LastUse(uses, order[i]) < LastUse(uses, order[j])
  }

  lemma {:induction false} WithoutMembers(order: seq<BlockKey>, key: BlockKey)
    requires NoRepeats(order)
    ensures NoRepeats(Without(order, key))
    ensures forall k :: k in Without(order, key) <==> k in order && k != key
  {
    if order == [] {
    } else {
      WithoutMembers(order[1..], key);
      assert forall k :: k in order <==> k == order[0] || k in order[1..];
      var rest := Without(order[1..], key);
      assert forall i :: 0 <= i < |rest| ==> rest[i] in rest && rest[i] != order[0];
    }
  }

  lemma {:induction false} WithoutTotal(order: seq<BlockKey>, key: BlockKey, blocks: map<BlockKey, Block>)
    requires key in order && key in blocks
    ensures Total(order, blocks) == Total(Without(order, key), blocks) + BlockSize(blocks[key])
  {
    if order[0] != key {
      WithoutTotal(order[1..], key, blocks);
      assert ([order[0]] + Without(order[1..], key))[1..] == Without(order[1..], key);
    }
  }

  lemma {:induction false} WithoutRecency(order: seq<BlockKey>, key: BlockKey, uses: seq<BlockKey>)
    requires NoRepeats(order) && ByRecency(order, uses)
    ensures ByRecency(Without(order, key), uses)
  {
    if order == [] {
    } else {
      WithoutRecency(order[1..], key, uses);
      if order[0] != key {
        WithoutMembers(order[1..], key);
        var rest := Without(order[1..], key);
        forall i | 0 <= i < |rest|
          ensures LastUse(uses, order[0]) < LastUse(uses, rest[i])
        {
          assert rest[i] in order[1..];
        }
      }
    }
  }

  lemma {:induction false} TotalSnoc(order: seq<BlockKey>, key: BlockKey, blocks: map<BlockKey, Block>)
    ensures Total(order + [key], blocks) == Total(order, blocks) + if key in blocks then BlockSize(blocks[key]) else 0
  {
    if order != [] {
      TotalSnoc(order[1..], key, blocks);
      assert (order + [key])[1..] == order[1..] + [key];
    } else {
      assert order + [key] == [key];
    }
  }

  lemma {:induction false} TotalElsewhere(order: seq<BlockKey>, a: map<BlockKey, Block>, b: map<BlockKey, Block>)
    requires forall k :: k in order ==> (k in a <==> k in b) && (k in a ==> a[k] == b[k])
    ensures Total(order, a) == Total(order, b)
  {
    if order == [] {
    } else {
      TotalElsewhere(order[1..], a, b);
    }
  }

  /** Moving a key to the back after using it. */
  lemma TouchedQueue(order: seq<BlockKey>, key: BlockKey, uses: seq<BlockKey>)
    requires NoRepeats(order) && ByRecency(order, uses)
    ensures NoRepeats(Without(order, key) + [key])
    ensures forall k :: k in Without(order, key) + [key] <==> k in order || k == key
    ensures ByRecency(Without(order, key) + [key], uses + [key])
  {
    WithoutMembers(order, key);
    WithoutRecency(order, key, uses);
    assert (uses + [key])[..|uses|] == uses;
    var rest := Without(order, key);
    forall i | 0 <= i < |rest|
      ensures LastUse(uses + [key], rest[i]) == LastUse(uses, rest[i])
    {
      assert rest[i] in rest;
    }
  }

  lemma {:induction false} WithoutAbsent(order: seq<BlockKey>, key: BlockKey)
    requires key !in order
    ensures Without(order, key) == order
  {
    if order == [] {
    } else {
      WithoutAbsent(order[1..], key);
    }
  }

  /** Replacing or adding the block of a key moves the key to the back and its size into the total. */
  lemma QueueInserted(order: seq<BlockKey>, key: BlockKey, blocks: map<BlockKey, Block>, block: Block,
                      uses: seq<BlockKey>)
    requires Matches(order, blocks) && ByRecency(order, uses)
    ensures var queue, held := Without(order, key) + [key], blocks[key := block];
            && Matches(queue, held)
            && ByRecency(queue, uses + [key])
            && Total(queue, held) == Total(Without(order, key), blocks) + BlockSize(block)
            && Total(order, blocks) ==
               Total(Without(order, key), blocks) + if key in blocks then BlockSize(blocks[key]) else 0
  {
    TouchedQueue(order, key, uses);
    WithoutMembers(order, key);
    var rest, held := Without(order, key), blocks[key := block];
    TotalElsewhere(rest, blocks, held);
    TotalSnoc(rest, key, held);
    if key in blocks {
      WithoutTotal(order, key, blocks);
    } else {
      WithoutAbsent(order, key);
    }
  }

  /** Dropping the front key. */
  lemma QueueEvicted(order: seq<BlockKey>, blocks: map<BlockKey, Block>, uses: seq<BlockKey>)
    requires order != [] && Matches(order, blocks) && ByRecency(order, uses)
    ensures order[0] in blocks
    ensures Matches(order[1..], blocks - {order[0]}) && ByRecency(order[1..], uses)
    ensures Total(order, blocks) == BlockSize(blocks[order[0]]) + Total(order[1..], blocks - {order[0]})
  {
    assert order[0] in order;
    assert forall k :: k in order <==> k == order[0] || k in order[1..];
    TotalElsewhere(order[1..], blocks, blocks - {order[0]});
  }

  // ----- the object -----

  class BlockCache {
    var blocks: map<BlockKey, Block>
    var order: seq<BlockKey>
    var currentBytes: nat
    const maxBytes: nat
    ghost var uses: seq<BlockKey>

    ghost predicate Tracks()
      reads this
    {
      && Matches(order, blocks)
      && ByRecency(order, uses)
      && currentBytes == Total(order, blocks)
    }

    ghost predicate Valid()
      reads this
    {
      Tracks() && currentBytes <= maxBytes
    }

    constructor (maxBytes: nat)
      ensures Valid() && blocks == map[] && uses == []
      ensures this.maxBytes == if maxBytes > 1 then maxBytes else 1
    {
      blocks, order, currentBytes, uses := map[], [], 0, [];
      this.maxBytes := if maxBytes > 1 then maxBytes else 1;
    }

    /** A hit moves the block to the back of the queue. */
    method Get(key: BlockKey) returns (r: Option<Block>)
      requires Valid()
      modifies this
      ensures Valid() && blocks == old(blocks)
      ensures r == if key in blocks then Some(blocks[key]) else None
      ensures uses == if r.Some? then old(uses) + [key] else old(uses)
      ensures order == if r.Some? then Without(old(order), key) + [key] else old(order)
    {
      if key !in blocks {
        return None;
      }
      Touch(key);
      return Some(blocks[key]);
    }

    method Touch(key: BlockKey)
      requires Tracks() && key in blocks
      modifies this`order, this`uses
      ensures Tracks() && order == Without(old(order), key) + [key] && uses == old(uses) + [key]
    {
      TouchedQueue(order, key, uses);
      WithoutTotal(order, key, blocks);
      TotalSnoc(Without(order, key), key, blocks);
      order := Without(order, key) + [key];
      uses := uses + [key];
    }

    /** The new block goes to the back; blocks leave from the front until the rest fits. */
    method Insert(key: BlockKey, block: Block)
      requires Valid()
      modifies this
      ensures Valid() && uses == old(uses) + [key]
      ensures var queue, held := Without(old(order), key) + [key], old(blocks)[key := block];
              exists n: nat :: n <= |queue| && LeastEvicted(queue, held, n, maxBytes) &&
                order == queue[n..] && blocks == Kept(held, order)
      ensures forall k :: k in blocks ==>
                if k == key then blocks[k] == block else k in old(blocks) && blocks[k] == old(blocks)[k]
    {
      hide LeastEvicted, Total, ByRecency, NoRepeats, Without, BlockSize;
      var size := BlockSize(block);
      QueueInserted(order, key, blocks, block, uses);
      if key in blocks {
        currentBytes := currentBytes - BlockSize(blocks[key]);
        blocks := blocks[key := block];
        order := Without(order, key) + [key];
      } else {
        WithoutAbsent(order, key);
        blocks := blocks[key := block];
        order := order + [key];
      }
      currentBytes := currentBytes + size;
      uses := uses + [key];
      EvictToFit();
    }

    method EvictToFit()
      requires Tracks()
      modifies this`blocks, this`order, this`currentBytes
      ensures Valid()
      ensures exists n: nat :: n <= |old(order)| && LeastEvicted(old(order), old(blocks), n, maxBytes) &&
                order == old(order)[n..] && blocks == Kept(old(blocks), order)
    {
      hide Total, ByRecency, NoRepeats, BlockSize;
      ghost var n: nat := 0;
      KeptAll(order, blocks);
      while currentBytes > maxBytes
        invariant Tracks() && n <= |old(order)|
        invariant order == old(order)[n..] && blocks == Kept(old(blocks), order)
        invariant forall m :: 0 <= m < n ==> Total(old(order)[m..], old(blocks)) > maxBytes
        decreases |order|
      {
        KeptTotal(order, old(blocks));
        if order == [] {
          break;
        }
        var oldest := order[0];
        QueueEvicted(order, blocks, uses);
        KeptTail(order, old(blocks));
        if oldest in blocks {
          var size := BlockSize(blocks[oldest]);
          assert currentBytes >= size;
          currentBytes := SaturatingSub(currentBytes, size);
          blocks := blocks - {oldest};
        }
        order := order[1..];
        n := n + 1;
      }
      KeptTotal(order, old(blocks));
      EmptyTotal(blocks);
    }
  }

  /** The blocks of the queued keys. */
  ghost function Kept(blocks: map<BlockKey, Block>, order: seq<BlockKey>): map<BlockKey, Block>
  {
    map k | k in order && k in blocks :: blocks[k]
  }

  /** Nothing leaves if everything fits, and with one block more it would not. */
  lemma LeastMeans(queue: seq<BlockKey>, held: map<BlockKey, Block>, n: nat, limit: nat)
    requires n <= |queue| && LeastEvicted(queue, held, n, limit)
    ensures Total(queue[n..], held) <= limit
    ensures Total(queue, held) <= limit ==> n == 0
    ensures n > 0 ==> Total(queue[n - 1..], held) > limit
  {
    hide Total;
    assert queue[0..] == queue;
  }

  lemma KeptAll(order: seq<BlockKey>, blocks: map<BlockKey, Block>)
    requires Matches(order, blocks)
    ensures Kept(blocks, order) == blocks
  {
  }

  lemma KeptTail(order: seq<BlockKey>, blocks: map<BlockKey, Block>)
    requires NoRepeats(order) && order != []
    ensures Kept(blocks, order[1..]) == Kept(blocks, order) - {order[0]}
  {
    assert forall k :: k in order <==> k == order[0] || k in order[1..];
  }

  lemma KeptTotal(order: seq<BlockKey>, blocks: map<BlockKey, Block>)
    ensures Total(order, Kept(blocks, order)) == Total(order, blocks)
  {
    TotalElsewhere(order, Kept(blocks, order), blocks);
  }

  lemma EmptyTotal(blocks: map<BlockKey, Block>)
    ensures Total([], blocks) == 0
  {
  }

  /** `n` is the least number of front keys whose eviction makes the rest fit. */
  ghost predicate LeastEvicted(queue: seq<BlockKey>, blocks: map<BlockKey, Block>, n: nat, limit: nat)
    requires n <= |queue|
  {
    Total(queue[n..], blocks) <= limit && forall m :: 0 <= m < n ==> Total(queue[m..], blocks) > limit
  }
}
