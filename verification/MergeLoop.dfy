/** The heap-driven merge loop of a compaction. */
module MergeLoop {
  import opened Bytes
  import opened Wrappers
  import opened Runs
  import opened Merging
  import opened Streams

  /** A heap item: the key a table sits on, and the table's index. */
  type HeapItem = (Key, nat)

  predicate NotAfter(x: HeapItem, y: HeapItem)
  {
    Lt(x.0, y.0) || (x.0 == y.0 && x.1 <= y.1)
  }

  type Heads = seq<Option<Item>>

  /** What each input still has to give: its head, then its stream. */
  ghost function Rests(heads: Heads, streams: seq<Stream>): (r: seq<Run>)
    requires |heads| == |streams|
    ensures |r| == |heads|
    ensures forall i :: 0 <= i < |r| ==> r[i] == Rest(heads[i], streams[i])
  {
    seq(|heads|, i requires 0 <= i < |heads| => Rest(heads[i], streams[i]))
  }

  ghost function Rest(head: Option<Item>, s: Stream): Run
  {
    (if head.Some? then [head.value] else []) + s.rest
  }

  /** A missing head means that its stream ended well. */
  ghost predicate HeadsOk(heads: Heads, streams: seq<Stream>)
  {
    |heads| == |streams| &&
    forall i :: 0 <= i < |heads| && heads[i].None? ==> streams[i].rest == [] && streams[i].fault.None?
  }

  ghost predicate SitsOn(heads: Heads, x: HeapItem)
  {
    x.1 < |heads| && heads[x.1].Some? && heads[x.1].value.0 == x.0
  }

  /** Exactly one heap item for each live head. */
  ghost predicate HeapOk(heap: multiset<HeapItem>, heads: Heads)
  {
    forall x: HeapItem :: heap[x] == if SitsOn(heads, x) then 1 else 0
  }

  ghost predicate SameFaults(a: seq<Stream>, b: seq<Stream>)
  {
    |a| == |b| && forall i :: 0 <= i < |a| ==> a[i].fault == b[i].fault
  }

  lemma NotAfterOrder(x: HeapItem, y: HeapItem, z: HeapItem)
    ensures NotAfter(x, x) && (NotAfter(x, y) || NotAfter(y, x))
    ensures NotAfter(x, y) && NotAfter(y, z) ==> NotAfter(x, z)
  {
    hide Lt, Rank;
    LtIsRankOrder(x.0, y.0);
    LtIsRankOrder(y.0, x.0);
    LtIsRankOrder(y.0, z.0);
    LtIsRankOrder(x.0, z.0);
    LtIsRankOrder(x.0, x.0);
  }

  lemma {:induction false} LeastExists(heap: multiset<HeapItem>) returns (least: HeapItem)
    requires |heap| > 0
    ensures least in heap && forall y :: y in heap ==> NotAfter(least, y)
    decreases |heap|
  {
    hide NotAfter;
    var x :| x in heap;
    var others := heap - multiset{x};
    if |others| > 0 {
      var rest := LeastExists(others);
      least := LesserOf(x, rest, others);
    } else {
      least := x;
      NotAfterOrder(x, x, x);
    }
    assert forall y :: y in heap ==> y == x || y in others;
  }

  lemma LesserOf(x: HeapItem, rest: HeapItem, others: multiset<HeapItem>) returns (least: HeapItem)
    requires rest in others && forall y :: y in others ==> NotAfter(rest, y)
    ensures least == x || least == rest
    ensures NotAfter(least, x) && forall y :: y in others ==> NotAfter(least, y)
  {
    hide NotAfter;
    NotAfterOrder(x, rest, x);
    least := if NotAfter(x, rest) then x else rest;
    forall y | y in others
      ensures NotAfter(least, y)
    {
      NotAfterOrder(x, rest, y);
    }
  }

  method Peek(heap: multiset<HeapItem>) returns (top: Option<HeapItem>)
    ensures top.None? <==> heap == multiset{}
    ensures top.Some? ==> top.value in heap && forall y :: y in heap ==> NotAfter(top.value, y)
  {
    if |heap| == 0 {
      return None;
    }
    ghost var least := LeastExists(heap);
    var x :| x in heap && forall y :: y in heap ==> NotAfter(x, y);
    return Some(x);
  }

  method Pop(heap: multiset<HeapItem>) returns (top: Option<HeapItem>, rest: multiset<HeapItem>)
    ensures top.None? <==> heap == multiset{}
    ensures top.Some? ==> top.value in heap && (forall y :: y in heap ==> NotAfter(top.value, y)) &&
                          rest == heap - multiset{top.value}
  {
    top := Peek(heap);
    rest := if top.Some? then heap - multiset{top.value} else heap;
  }

  /** The inner loop: every further item on `key` leaves the heap. */
  method PopSame(heap: multiset<HeapItem>, key: Key) returns (rest: multiset<HeapItem>)
    requires forall x :: x in heap ==> !Lt(x.0, key)
    ensures forall x: HeapItem :: rest[x] == if x.0 == key then 0 else heap[x]
  {
    hide Lt;
    rest := heap;
    while true
      invariant forall x: HeapItem :: if x.0 == key then rest[x] <= heap[x] else rest[x] == heap[x]
      decreases |rest|
    {
      var top := Peek(rest);
      if top.None? || top.value.0 != key {
        if top.Some? {
          forall x | x in rest
            ensures x.0 != key
          {
            assert x in heap && top.value in heap;
            LtTrichotomy(top.value.0, key, key);
          }
        }
        break;
      }
      top, rest := Pop(rest);
    }
  }

  method Winner(heads: Heads, key: Key, ghost streams: seq<Stream>) returns (entry: Option<Entry>, ghost index: nat)
    requires HeadsOk(heads, streams)
    requires exists i :: 0 <= i < |heads| && heads[i].Some? && heads[i].value.0 == key
    ensures entry.Some? && Wins(Rests(heads, streams), key, index)
    ensures entry.value == Rests(heads, streams)[index][0].1
  {
    entry, index := None, 0;
    for i := 0 to |heads|
      invariant entry.None? ==> forall j :: 0 <= j < i && heads[j].Some? ==> heads[j].value.0 != key
      invariant entry.Some? ==> index < i && heads[index].Some? && heads[index].value == (key, entry.value)
      invariant entry.Some? ==> forall j :: 0 <= j < index && heads[j].Some? ==> heads[j].value.0 != key
    {
      if heads[i].Some? && heads[i].value.0 == key && entry.None? {
        entry, index := Some(heads[i].value.1), i;
      }
    }
  }

  /** The next entry of a stream as a head. */
  method Pull(s: Stream) returns (error: Option<Error>, head: Option<Item>, stream: Stream)
    ensures error.Some? ==> s.fault == error
    ensures error.None? ==> Rest(head, stream) == s.rest && stream.fault == s.fault
    ensures error.None? && head.None? ==> stream.rest == [] && stream.fault.None?
  {
    error, head := None, None;
    var (item, after) := Next(s);
    stream := after;
    match item
    case Some(Ok(next)) => head := Some(next);
    case Some(Err(e)) => error := Some(e);
    case None =>
  }

  /** The heads before `i` have been moved past `key`, the others are as they were. */
  ghost predicate MovedTo(heads: Heads, streams: seq<Stream>, heads0: Heads, streams0: seq<Stream>, key: Key, i: nat)
  {
    && |heads| == |streams| == |heads0| == |streams0|
    && (forall j :: i <= j < |heads| ==> heads[j] == heads0[j] && streams[j] == streams0[j])
    && forall j :: 0 <= j < i && j < |heads| ==> Rest(heads[j], streams[j]) == Past(Rest(heads0[j], streams0[j]), key)
  }

  lemma AllMoved(heads: Heads, streams: seq<Stream>, heads0: Heads, streams0: seq<Stream>, key: Key)
    requires MovedTo(heads, streams, heads0, streams0, key, |heads|)
    ensures Rests(heads, streams) == Advanced(Rests(heads0, streams0), key)
  {
    assert forall j :: 0 <= j < |heads| ==> Rests(heads, streams)[j] == Advanced(Rests(heads0, streams0), key)[j];
  }

  /** The heap holds the heads that are not on `key`, and of those on `key` the ones before `i`. */
  ghost predicate HeapUpTo(heap: multiset<HeapItem>, heads: Heads, key: Key, i: nat)
  {
    forall x: HeapItem :: heap[x] == if SitsOn(heads, x) && (x.1 < i || x.0 != key) then 1 else 0
  }

  /** Every head on `key` is replaced by the next entry of its stream, which enters the heap. */
  method Advance(heads0: Heads, streams0: seq<Stream>, heap0: multiset<HeapItem>, key: Key)
    returns (error: Option<Error>, heads: Heads, streams: seq<Stream>, heap: multiset<HeapItem>)
    requires HeadsOk(heads0, streams0) && HeapUpTo(heap0, heads0, key, 0)
    ensures error.Some? ==> FaultOf(streams0, error.value)
    ensures error.None? ==>
              HeadsOk(heads, streams) && HeapOk(heap, heads) && SameFaults(streams, streams0) && |heads| == |streams|
    ensures error.None? ==> Rests(heads, streams) == Advanced(Rests(heads0, streams0), key)
  {
    heads, streams, heap, error := heads0, streams0, heap0, None;
    for i := 0 to |heads|
      invariant |heads| == |heads0| && error.None?
      invariant HeadsOk(heads, streams) && SameFaults(streams, streams0)
      invariant MovedTo(heads, streams, heads0, streams0, key, i)
      invariant HeapUpTo(heap, heads, key, i)
    {
      if heads[i].Some? && heads[i].value.0 == key {
        var head, stream;
        error, head, stream := Pull(streams[i]);
        if error.Some? {
          return;
        }
        assert Rest(heads[i], streams[i])[1..] == streams[i].rest;
        HeapAdvanced(heap, heads, key, i, head);
        if head.Some? {
          heap := heap + multiset{(head.value.0, i)};
        }
        heads, streams := heads[i := head], streams[i := stream];
      } else {
        assert Past(Rest(heads[i], streams[i]), key) == Rest(heads[i], streams[i]);
      }
    }
    AllMoved(heads, streams, heads0, streams0, key);
  }

  lemma HeapAdvanced(heap: multiset<HeapItem>, heads: Heads, key: Key, i: nat, head: Option<Item>)
    requires i < |heads| && HeapUpTo(heap, heads, key, i) && heads[i].Some? && heads[i].value.0 == key
    ensures HeapUpTo(if head.Some? then heap + multiset{(head.value.0, i)} else heap, heads[i := head], key, i + 1)
  {
    var after := if head.Some? then heap + multiset{(head.value.0, i)} else heap;
    forall x: HeapItem
      ensures after[x] == if SitsOn(heads[i := head], x) && (x.1 < i + 1 || x.0 != key) then 1 else 0
    {
      assert heap[x] == if SitsOn(heads, x) && (x.1 < i || x.0 != key) then 1 else 0;
    }
  }

  /** The first entry of every stream. */
  method FillHeads(inputs: seq<Stream>) returns (error: Option<Error>, heads: Heads, streams: seq<Stream>)
    ensures error.Some? ==> FaultOf(inputs, error.value)
    ensures error.None? ==> HeadsOk(heads, streams) && SameFaults(streams, inputs) && |heads| == |streams|
    ensures error.None? ==> Rests(heads, streams) == Entries(inputs)
  {
    heads, streams, error := [], [], None;
    for i := 0 to |inputs|
      invariant |streams| == i && HeadsOk(heads, streams) && error.None?
      invariant forall j :: 0 <= j < i ==> streams[j].fault == inputs[j].fault
      invariant forall j :: 0 <= j < i ==> Rest(heads[j], streams[j]) == inputs[j].rest
    {
      var head, stream;
      error, head, stream := Pull(inputs[i]);
      if error.Some? {
        return;
      }
      heads, streams := heads + [head], streams + [stream];
    }
  }

  method FillHeap(heads: Heads) returns (heap: multiset<HeapItem>)
    ensures HeapOk(heap, heads)
  {
    heap := multiset{};
    for i := 0 to |heads|
      invariant forall x: HeapItem :: heap[x] == if SitsOn(heads, x) && x.1 < i then 1 else 0
    {
      if heads[i].Some? {
        heap := heap + multiset{(heads[i].value.0, i)};
      }
    }
  }

  /** The least heap item sits on the least head. */
  lemma LeastHead(heads: Heads, streams: seq<Stream>, heap: multiset<HeapItem>, top: HeapItem)
    requires HeadsOk(heads, streams) && HeapOk(heap, heads)
    requires top in heap && forall y :: y in heap ==> NotAfter(top, y)
    ensures NoHeadBelow(Rests(heads, streams), top.0)
    ensures top.1 < |heads| && heads[top.1].Some? && heads[top.1].value.0 == top.0
    ensures forall x :: x in heap ==> !Lt(x.0, top.0)
  {
    hide Lt, Rank;
    KeyOrder();
    assert SitsOn(heads, top);
    forall x | x in heap
      ensures !Lt(x.0, top.0)
    {
      assert NotAfter(top, x);
    }
    forall i | 0 <= i < |heads| && Rests(heads, streams)[i] != []
      ensures !Lt(Rests(heads, streams)[i][0].0, top.0)
    {
      assert SitsOn(heads, (heads[i].value.0, i));
      assert (heads[i].value.0, i) in heap;
    }
  }

  lemma SameCleared(heap: multiset<HeapItem>, rest: multiset<HeapItem>, heads: Heads, top: HeapItem)
    requires HeapOk(heap, heads) && top in heap
    requires forall x: HeapItem :: rest[x] == if x.0 == top.0 then 0 else (heap - multiset{top})[x]
    ensures HeapUpTo(rest, heads, top.0, 0)
  {
  }

  lemma KeepStep(x: Item, run: Run, dropTombstones: bool)
    ensures Keep([x] + run, dropTombstones) ==
            (if x.1.Tombstone? && dropTombstones then [] else [x]) + Keep(run, dropTombstones)
  {
    assert ([x] + run)[1..] == run;
  }

  lemma FaultsKept(a: seq<Stream>, b: seq<Stream>, error: Error)
    requires SameFaults(a, b)
    ensures Faulty(a) <==> Faulty(b)
    ensures FaultOf(a, error) <==> FaultOf(b, error)
    ensures FaultOf(a, error) ==> Faulty(a)
  {
    if i :| 0 <= i < |a| && a[i].fault.Some? {
      assert b[i].fault.Some?;
    }
  }

  lemma FaultsChain(a: seq<Stream>, b: seq<Stream>, c: seq<Stream>)
    requires SameFaults(a, b) && SameFaults(b, c)
    ensures SameFaults(a, c)
  {
  }

  /** One round: the least head leaves the heap and the heads, and its entry comes out. */
  method Round(heads0: Heads, streams0: seq<Stream>, heap0: multiset<HeapItem>, top: HeapItem)
    returns (error: Option<Error>, heads: Heads, streams: seq<Stream>, heap: multiset<HeapItem>, entry: Entry)
    requires HeadsOk(heads0, streams0) && HeapOk(heap0, heads0)
    requires top in heap0 && forall y :: y in heap0 ==> NotAfter(top, y)
    ensures error.Some? ==> FaultOf(streams0, error.value)
    ensures error.None? ==>
              HeadsOk(heads, streams) && HeapOk(heap, heads) && SameFaults(streams, streams0) && |heads| == |streams|
    ensures error.None? ==> MergeRuns(Rests(heads0, streams0)) == [(top.0, entry)] + MergeRuns(Rests(heads, streams))
  {
    hide MergeRuns, HeapOk, HeapUpTo, NotAfter, Wins, NoHeadBelow, Lt, SameFaults, FaultOf;
    var key := top.0;
    LeastHead(heads0, streams0, heap0, top);
    var others := PopSame(heap0 - multiset{top}, key);
    SameCleared(heap0, others, heads0, top);
    var winner, index := Winner(heads0, key, streams0);
    entry := winner.value;
    MergeStep(Rests(heads0, streams0), key, index);
    error, heads, streams, heap := Advance(heads0, streams0, others, key);
  }

  /** The merge fails exactly when an input cannot be read; otherwise it is the newest entry per key. */
  method MergeTables(inputs: seq<Stream>, dropTombstones: bool) returns (r: Result<Run>)
    ensures r.Err? <==> Faulty(inputs)
    ensures r.Err? ==> FaultOf(inputs, r.error)
    ensures r.Ok? ==> r.value == Keep(MergeRuns(Entries(inputs)), dropTombstones)
  {
    hide MergeRuns, HeapOk, HeadsOk, NotAfter, Keep, SameFaults, Faulty, FaultOf, Rests;
    var error, heads, streams := FillHeads(inputs);
    if error.Some? {
      FaultsKept(inputs, inputs, error.value);
      return Err(error.value);
    }
    var heap := FillHeap(heads);
    var out: Run := [];
    while true
      invariant |heads| == |streams| && HeadsOk(heads, streams) && HeapOk(heap, heads) && SameFaults(streams, inputs)
      invariant Keep(MergeRuns(Entries(inputs)), dropTombstones) ==
                out + Keep(MergeRuns(Rests(heads, streams)), dropTombstones)
      decreases |MergeRuns(Rests(heads, streams))|
    {
      var top, popped := Pop(heap);
      if top.None? {
        NothingLeft(heads, streams, dropTombstones);
        FaultsKept(streams, inputs, EmptyKey);
        return Ok(out);
      }
      var entry;
      ghost var before := streams;
      error, heads, streams, heap, entry := Round(heads, streams, heap, top.value);
      if error.Some? {
        FaultsKept(before, inputs, error.value);
        return Err(error.value);
      }
      FaultsChain(streams, before, inputs);
      KeepStep((top.value.0, entry), MergeRuns(Rests(heads, streams)), dropTombstones);
      if !(entry.Tombstone? && dropTombstones) {
        out := out + [(top.value.0, entry)];
      }
    }
  }

  lemma {:induction false} NothingLeft(heads: Heads, streams: seq<Stream>, dropTombstones: bool)
    requires HeadsOk(heads, streams) && HeapOk(multiset{}, heads)
    ensures Keep(MergeRuns(Rests(heads, streams)), dropTombstones) == [] && !Faulty(streams)
  {
    forall i | 0 <= i < |heads|
      ensures heads[i].None?
    {
      if heads[i].Some? {
        assert SitsOn(heads, (heads[i].value.0, i));
      }
    }
    EmptyRuns(Rests(heads, streams));
  }
}
