/** Range scans: the layers merged on the fly, newest first, tombstones skipped. */
module Scans {
  import opened Bytes
  import opened Wrappers
  import opened Runs
  import opened Merging
  import opened Streams

  datatype Bound = Unbounded | Included(key: Key) | Excluded(key: Key)

  predicate InRange(key: Key, start: Bound, end: Bound)
  {
    && (match start
        case Unbounded => true
        case Included(s) => Le(s, key)
        case Excluded(s) => Lt(s, key))
    && (match end
        case Unbounded => true
        case Included(e) => Le(key, e)
        case Excluded(e) => Lt(key, e))
  }

  predicate PastEnd(key: Key, end: Bound)
  {
    match end
    case Unbounded => false
    case Included(e) => Lt(e, key)
    case Excluded(e) => Le(e, key)
  }

  /** A bound lets in the keys strictly on its side, and its own key exactly if it is an included one. */
  lemma InRangeExactly(key: Key, start: Bound, end: Bound)
    ensures InRange(key, start, end) <==>
            && (start.Unbounded? || Lt(start.key, key) || (start.Included? && key == start.key))
            && (end.Unbounded? || Lt(key, end.key) || (end.Included? && key == end.key))
  {
    hide Lt;
    if !start.Unbounded? {
      LtTrichotomy(start.key, key, key);
    }
    if !end.Unbounded? {
      LtTrichotomy(key, end.key, key);
    }
  }

  lemma AllInRange(start: Bound, end: Bound)
    ensures forall key :: InRange(key, start, end) <==>
              && (start.Unbounded? || Lt(start.key, key) || (start.Included? && key == start.key))
              && (end.Unbounded? || Lt(key, end.key) || (end.Included? && key == end.key))
  {
    forall key
      ensures InRange(key, start, end) <==>
              && (start.Unbounded? || Lt(start.key, key) || (start.Included? && key == start.key))
              && (end.Unbounded? || Lt(key, end.key) || (end.Included? && key == end.key))
    {
      InRangeExactly(key, start, end);
    }
  }

  /** Past the end is out of range for every start, and stays so for every later key. */
  lemma PastEndExactly(key: Key, later: Key, start: Bound, end: Bound)
    ensures PastEnd(key, end) <==> !end.Unbounded? && (Lt(end.key, key) || (end.Excluded? && key == end.key))
    ensures PastEnd(key, end) <==> !InRange(key, Unbounded, end)
    ensures PastEnd(key, end) && Le(key, later) ==> PastEnd(later, end) && !InRange(later, start, end)
  {
    hide Lt, Rank;
    KeyOrder();
    if !end.Unbounded? {
      LtTrichotomy(key, end.key, key);
    }
  }

  /** The entries of a run inside the bounds. */
  function Selected(run: Run, start: Bound, end: Bound): Run
  {
    if run == [] then []
    else (if InRange(run[0].0, start, end) then [run[0]] else []) + Selected(run[1..], start, end)
  }

  function SelectedAll(runs: seq<Run>, start: Bound, end: Bound): (r: seq<Run>)
    ensures |r| == |runs|
    ensures forall i :: 0 <= i < |r| ==> r[i] == Selected(runs[i], start, end)
  {
    seq(|runs|, i requires 0 <= i < |runs| => Selected(runs[i], start, end))
  }

  lemma {:induction false} SelectedLookup(run: Run, start: Bound, end: Bound, key: Key)
    ensures Lookup(Selected(run, start, end), key) == if InRange(key, start, end) then Lookup(run, key) else None
  {
    hide InRange;
    if run == [] {
    } else {
      SelectedLookup(run[1..], start, end, key);
      var rest := Selected(run[1..], start, end);
      assert [] + rest == rest && ([run[0]] + rest)[1..] == rest;
    }
  }

  lemma {:induction false} SelectedSorted(run: Run, start: Bound, end: Bound)
    requires Sorted(run)
    ensures Sorted(Selected(run, start, end))
    ensures forall key :: Below(key, run) ==> Below(key, Selected(run, start, end))
  {
    hide InRange, Lt;
    if run == [] {
    } else {
      SelectedSorted(run[1..], start, end);
      assert Below(run[0].0, run[1..]);
      forall key | Below(key, run)
        ensures Below(key, Selected(run, start, end))
      {
        assert Lt(key, run[0].0) && Below(key, run[1..]);
      }
    }
  }

  /** After an entry past the end bound, nothing sorted after it is in range. */
  lemma {:induction false} NothingPastEnd(run: Run, start: Bound, end: Bound, key: Key)
    requires PastEnd(key, end) && Below(key, run)
    ensures Selected(run, start, end) == []
  {
    if run == [] {
    } else {
      LtTrichotomy(key, run[0].0, key);
      KeyOrder();
      assert !InRange(run[0].0, start, end);
      NothingPastEnd(run[1..], start, end, key);
    }
  }

  // ----- sources -----

  datatype Rest = OfVec(run: Run) | OfTable(stream: Stream)

  datatype Source = Source(next: Option<Item>, rest: Rest)

  /** What a source still has to give inside the bounds. */
  function Pending(s: Source, start: Bound, end: Bound): Run
  {
    (if s.next.Some? then [s.next.value] else []) + Behind(s.rest, start, end)
  }

  function Behind(rest: Rest, start: Bound, end: Bound): Run
  {
    match rest
    case OfVec(run) => run
    case OfTable(stream) => Selected(stream.rest, start, end)
  }

  ghost predicate SourceOk(s: Source, start: Bound, end: Bound)
  {
    && (s.rest.OfTable? ==> Sorted(s.rest.stream.rest))
    && (s.next.None? ==> Behind(s.rest, start, end) == [])
  }

  /** Reads on to the next entry in range, or past the end bound. */
  method NextInRange(stream: Stream, start: Bound, end: Bound) returns (r: Result<Option<Item>>, after: Stream)
    requires Sorted(stream.rest)
    ensures Sorted(after.rest) && after.fault == stream.fault
    ensures r.Err? ==> stream.fault == Some(r.error)
    ensures r.Ok? ==> Pending(Source(r.value, OfTable(after)), start, end) == Selected(stream.rest, start, end)
    ensures r.Ok? ==> SourceOk(Source(r.value, OfTable(after)), start, end)
  {
    hide InRange, PastEnd, Lt, Selected, Sorted;
    after := stream;
    while true
      invariant Sorted(after.rest) && after.fault == stream.fault
      invariant Selected(after.rest, start, end) == Selected(stream.rest, start, end)
      decreases |after.rest|
    {
      var (item, next) := Next(after);
      SelectedStep(after.rest, start, end);
      if item.None? {
        return Ok(None), next;
      }
      if item.value.Err? {
        return Err(item.value.error), next;
      }
      var (key, entry) := item.value.value;
      after := next;
      if InRange(key, start, end) {
        return Ok(Some((key, entry))), after;
      }
      if PastEnd(key, end) {
        NothingPastEnd(after.rest, start, end, key);
        return Ok(None), after;
      }
    }
  }

  lemma SelectedStep(run: Run, start: Bound, end: Bound)
    requires Sorted(run)
    ensures run == [] ==> Selected(run, start, end) == []
    ensures run != [] ==> Sorted(run[1..]) && Below(run[0].0, run[1..])
    ensures run != [] && InRange(run[0].0, start, end) ==>
            Selected(run, start, end) == [run[0]] + Selected(run[1..], start, end)
    ensures run != [] && !InRange(run[0].0, start, end) ==> Selected(run, start, end) == Selected(run[1..], start, end)
  {
    hide InRange, Lt;
  }

  function Pendings(sources: seq<Source>, start: Bound, end: Bound): (r: seq<Run>)
    ensures |r| == |sources|
    ensures forall i :: 0 <= i < |r| ==> r[i] == Pending(sources[i], start, end)
  {
    seq(|sources|, i requires 0 <= i < |sources| => Pending(sources[i], start, end))
  }

  ghost predicate SourcesOk(sources: seq<Source>, start: Bound, end: Bound)
  {
    forall i :: 0 <= i < |sources| ==> SourceOk(sources[i], start, end)
  }

  function FaultIn(rest: Rest): Option<Error>
  {
    if rest.OfTable? then rest.stream.fault else None
  }

  ghost predicate SourceFault(sources: seq<Source>, error: Error)
  {
    exists i :: 0 <= i < |sources| && FaultIn(sources[i].rest) == Some(error)
  }

  ghost predicate FaultsStay(a: seq<Source>, b: seq<Source>)
  {
    |a| == |b| && forall i :: 0 <= i < |a| ==> FaultIn(a[i].rest) == FaultIn(b[i].rest)
  }

  /** The next entry of one source. */
  method AdvanceSource(s: Source, start: Bound, end: Bound) returns (error: Option<Error>, after: Source)
    requires SourceOk(s, start, end)
    ensures SourceOk(after, start, end) && FaultIn(after.rest) == FaultIn(s.rest)
    ensures error.Some? ==> FaultIn(s.rest) == error
    ensures error.None? ==> Pending(after, start, end) == Behind(s.rest, start, end)
  {
    match s.rest
    case OfVec(run) =>
      after := if run == [] then s.(next := None) else Source(Some(run[0]), OfVec(run[1..]));
      error := None;
    case OfTable(stream) =>
      var item, rest := NextInRange(stream, start, end);
      if item.Ok? {
        after, error := Source(item.value, OfTable(rest)), None;
      } else {
        after, error := s, Some(item.error);
      }
  }

  /** Every source on `key` moves on; the sources before `i` have. */
  ghost predicate MovedPast(now: seq<Source>, was: seq<Source>, start: Bound, end: Bound, key: Key, i: nat)
  {
    && |now| == |was|
    && (forall j :: i <= j < |now| ==> now[j] == was[j])
    && forall j :: 0 <= j < i && j < |now| ==>
         Pending(now[j], start, end) == Past(Pending(was[j], start, end), key)
  }

  lemma OneMoved(now: seq<Source>, was: seq<Source>, start: Bound, end: Bound, key: Key, i: nat, after: Source)
    requires i < |now| && SourcesOk(now, start, end) && FaultsStay(now, was) && MovedPast(now, was, start, end, key, i)
    requires SourceOk(after, start, end) && FaultIn(after.rest) == FaultIn(now[i].rest)
    requires Pending(after, start, end) == Past(Pending(now[i], start, end), key)
    ensures var next := now[i := after];
            SourcesOk(next, start, end) && FaultsStay(next, was) && MovedPast(next, was, start, end, key, i + 1)
  {
  }

  lemma AllMoved(now: seq<Source>, was: seq<Source>, start: Bound, end: Bound, key: Key)
    requires MovedPast(now, was, start, end, key, |now|)
    ensures Pendings(now, start, end) == Advanced(Pendings(was, start, end), key)
  {
    assert forall j :: 0 <= j < |now| ==>
        Pendings(now, start, end)[j] == Advanced(Pendings(was, start, end), key)[j];
  }

  method AdvanceSources(sources0: seq<Source>, start: Bound, end: Bound, key: Key)
    returns (error: Option<Error>, sources: seq<Source>)
    requires SourcesOk(sources0, start, end)
    ensures SourcesOk(sources, start, end) && FaultsStay(sources, sources0)
    ensures error.Some? ==> SourceFault(sources0, error.value)
    ensures error.None? ==> Pendings(sources, start, end) == Advanced(Pendings(sources0, start, end), key)
  {
    hide Behind, SourceOk, Advanced, Pendings;
    sources, error := sources0, None;
    for i := 0 to |sources|
      invariant |sources| == |sources0| && error.None?
      invariant SourcesOk(sources, start, end) && FaultsStay(sources, sources0)
      invariant MovedPast(sources, sources0, start, end, key, i)
    {
      var s := sources[i];
      var after := s;
      if s.next.Some? && s.next.value.0 == key {
        error, after := AdvanceSource(s, start, end);
        assert Pending(s, start, end)[1..] == Behind(s.rest, start, end);
        if error.Some? {
          return;
        }
      } else {
        assert SourceOk(s, start, end);
        NotOn(s, start, end, key);
      }
      OneMoved(sources, sources0, start, end, key, i, after);
      sources := sources[i := after];
    }
    AllMoved(sources, sources0, start, end, key);
  }

  lemma NotOn(s: Source, start: Bound, end: Bound, key: Key)
    requires SourceOk(s, start, end) && !(s.next.Some? && s.next.value.0 == key)
    ensures Past(Pending(s, start, end), key) == Pending(s, start, end)
  {
  }

  /** The least head; of equal heads the first. */
  method Best(sources: seq<Source>, start: Bound, end: Bound) returns (best: Option<(nat, Key)>)
    requires SourcesOk(sources, start, end)
    ensures best.None? ==> forall i :: 0 <= i < |sources| ==> Pending(sources[i], start, end) == []
    ensures best.Some? ==> Wins(Pendings(sources, start, end), best.value.1, best.value.0)
    ensures best.Some? ==> NoHeadBelow(Pendings(sources, start, end), best.value.1)
    ensures best.Some? ==> best.value.0 < |sources| && sources[best.value.0].next.Some?
  {
    hide Lt, Rank, Behind;
    KeyOrder();
    best := None;
    for i := 0 to |sources|
      invariant best.None? ==> forall j :: 0 <= j < i ==> sources[j].next.None?
      invariant best.Some? ==> best.value.0 < i && sources[best.value.0].next.Some? &&
                               sources[best.value.0].next.value.0 == best.value.1
      invariant best.Some? ==> forall j :: 0 <= j < i && sources[j].next.Some? ==>
                                 !Lt(sources[j].next.value.0, best.value.1)
      invariant best.Some? ==> forall j :: 0 <= j < best.value.0 && sources[j].next.Some? ==>
                                 sources[j].next.value.0 != best.value.1
    {
      if sources[i].next.Some? {
        var key := sources[i].next.value.0;
        if best.None? || Lt(key, best.value.1) {
          best := Some((i, key));
        }
      }
    }
  }

  /** The pairs a reader sees of a merged run. */
  function Live(run: Run): seq<(Key, seq<byte>)>
  {
    if run == [] then []
    else (if run[0].1.Value? then [(run[0].0, run[0].1.value)] else []) + Live(run[1..])
  }

  lemma LiveStep(x: Item, run: Run)
    ensures Live([x] + run) == (if x.1.Value? then [(x.0, x.1.value)] else []) + Live(run)
  {
    assert ([x] + run)[1..] == run;
  }

  lemma NothingLive()
    ensures Live([]) == []
  {
  }

  class EngineIterator {
    var sources: seq<Source>
    const start: Bound
    const end: Bound

    ghost predicate Valid()
      reads this
    {
      SourcesOk(sources, start, end)
    }

    /** Everything still to come, newest entry per key. */
    ghost function Remaining(): Run
      reads this
    {
      MergeRuns(Pendings(sources, start, end))
    }

    constructor (sources: seq<Source>, start: Bound, end: Bound)
      requires SourcesOk(sources, start, end)
      ensures Valid() && this.sources == sources && this.start == start && this.end == end
    {
      this.sources, this.start, this.end := sources, start, end;
    }

    /** The next visible pair; tombstones are passed over. */
    method Next() returns (r: Option<Result<(Key, seq<byte>)>>)
      requires Valid()
      modifies this`sources
      ensures Valid() && FaultsStay(sources, old(sources))
      ensures r.None? ==> Live(old(Remaining())) == []
      ensures r.Some? && r.value.Ok? ==> Live(old(Remaining())) == [r.value.value] + Live(Remaining())
      ensures r.Some? && r.value.Err? ==> SourceFault(old(sources), r.value.error)
    {
      hide MergeRuns, Pendings, Live, Wins, NoHeadBelow, Advanced, SourceOk, Behind, Lt;
      while true
        invariant Valid() && FaultsStay(sources, old(sources))
        invariant Live(Remaining()) == Live(old(Remaining()))
        decreases |Remaining()|
      {
        var best := Best(sources, start, end);
        if best.None? {
          EmptyRuns(Pendings(sources, start, end));
          NothingLive();
          return None;
        }
        var (index, key) := best.value;
        var entry := sources[index].next.value.1;
        MergeStep(Pendings(sources, start, end), key, index);
        assert Pendings(sources, start, end)[index][0] == sources[index].next.value;
        var error, after := AdvanceSources(sources, start, end, key);
        sources := after;
        if error.Some? {
          return Some(Err(error.value));
        }
        LiveStep((key, entry), Remaining());
        if entry.Value? {
          return Some(Ok((key, entry.value)));
        }
      }
    }
  }

  /** The layers of a reader, newest first. */
  function Layers(memtable: Run, immutable: Option<Run>, tables: seq<Run>): seq<Run>
  {
    [memtable] + (if immutable.Some? then [immutable.value] else []) + tables
  }

  function FromMem(run: Run, start: Bound, end: Bound): (s: Source)
    ensures Pending(s, start, end) == Selected(run, start, end) && FaultIn(s.rest) == None
    ensures s.next.None? ==> Behind(s.rest, start, end) == []
  {
    var items := Selected(run, start, end);
    if items == [] then Source(None, OfVec([])) else Source(Some(items[0]), OfVec(items[1..]))
  }

  /** A source per table, in order. */
  method TableSources(tables: seq<Stream>, start: Bound, end: Bound)
    returns (error: Option<Error>, sources: seq<Source>)
    requires forall t: Stream :: t in tables ==> Sorted(t.rest)
    ensures error.Some? ==> FaultOf(tables, error.value)
    ensures error.None? ==> SourcesOk(sources, start, end) && |sources| == |tables|
    ensures error.None? ==> Pendings(sources, start, end) == SelectedAll(Entries(tables), start, end)
    ensures error.None? ==> forall i :: 0 <= i < |sources| ==> FaultIn(sources[i].rest) == tables[i].fault
  {
    hide Selected, Pending, Sorted, SourceOk;
    sources, error := [], None;
    for i := 0 to |tables|
      invariant |sources| == i && error.None? && SourcesOk(sources, start, end)
      invariant forall j :: 0 <= j < i ==> Pending(sources[j], start, end) == Selected(tables[j].rest, start, end)
      invariant forall j :: 0 <= j < i ==> FaultIn(sources[j].rest) == tables[j].fault
    {
      assert tables[i] in tables;
      var next, rest := NextInRange(tables[i], start, end);
      if next.Err? {
        error := Some(next.error);
        return;
      }
      sources := sources + [Source(next.value, OfTable(rest))];
    }
  }

  lemma SelectedConcat(a: seq<Run>, b: seq<Run>, start: Bound, end: Bound)
    ensures SelectedAll(a + b, start, end) == SelectedAll(a, start, end) + SelectedAll(b, start, end)
  {
    hide Selected;
    var x, y, z := SelectedAll(a + b, start, end), SelectedAll(a, start, end), SelectedAll(b, start, end);
    hide SelectedAll;
    forall i | 0 <= i < |x|
      ensures x[i] == (y + z)[i]
    {
      if i >= |a| {
        assert (a + b)[i] == b[i - |a|];
      }
    }
  }

  /** The sources of the memtables: nothing in them can fail. */
  method MemSources(memtable: Run, immutable: Option<Run>, start: Bound, end: Bound) returns (sources: seq<Source>)
    ensures SourcesOk(sources, start, end)
    ensures Pendings(sources, start, end) == SelectedAll(Layers(memtable, immutable, []), start, end)
    ensures forall i :: 0 <= i < |sources| ==> FaultIn(sources[i].rest) == None
  {
    hide Selected, Pending, Behind;
    sources := [FromMem(memtable, start, end)];
    if immutable.Some? {
      sources := sources + [FromMem(immutable.value, start, end)];
    }
  }

  lemma JoinedSources(a: seq<Source>, b: seq<Source>, tables: seq<Stream>, start: Bound, end: Bound)
    requires SourcesOk(a, start, end) && SourcesOk(b, start, end) && |b| == |tables|
    requires forall i :: 0 <= i < |a| ==> FaultIn(a[i].rest) == None
    requires forall i :: 0 <= i < |b| ==> FaultIn(b[i].rest) == tables[i].fault
    ensures SourcesOk(a + b, start, end)
    ensures Pendings(a + b, start, end) == Pendings(a, start, end) + Pendings(b, start, end)
    ensures forall e :: SourceFault(a + b, e) ==> FaultOf(tables, e)
  {
    hide SourceOk, Pending, FaultIn;
    forall e | SourceFault(a + b, e)
      ensures FaultOf(tables, e)
    {
      var j :| 0 <= j < |a + b| && FaultIn((a + b)[j].rest) == Some(e);
      assert (a + b)[j] == b[j - |a|];
    }
  }

  /** The iterator over a memtable, an immutable memtable and the tables, newest first. */
  method Open(memtable: Run, immutable: Option<Run>, tables: seq<Stream>, start: Bound, end: Bound)
    returns (r: Result<EngineIterator>)
    requires forall t: Stream :: t in tables ==> Sorted(t.rest)
    ensures r.Err? ==> FaultOf(tables, r.error)
    ensures r.Ok? ==> fresh(r.value) && r.value.Valid()
    ensures r.Ok? ==>
              r.value.Remaining() == MergeRuns(SelectedAll(Layers(memtable, immutable, Entries(tables)), start, end))
    ensures r.Ok? ==> forall e :: SourceFault(r.value.sources, e) ==> FaultOf(tables, e)
  {
    hide Selected, SelectedAll, Pendings, Layers, MergeRuns, SourcesOk, FaultOf, SourceFault;
    var mems := MemSources(memtable, immutable, start, end);
    var error, others := TableSources(tables, start, end);
    if error.Some? {
      return Err(error.value);
    }
    JoinedSources(mems, others, tables, start, end);
    SelectedConcat(Layers(memtable, immutable, []), Entries(tables), start, end);
    LayersConcat(memtable, immutable, Entries(tables));
    var it := new EngineIterator(mems + others, start, end);
    return Ok(it);
  }

  lemma LayersConcat(memtable: Run, immutable: Option<Run>, tables: seq<Run>)
    ensures Layers(memtable, immutable, tables) == Layers(memtable, immutable, []) + tables
  {
  }

  /** A whole scan: every pair until the iterator ends. */
  method Scan(memtable: Run, immutable: Option<Run>, tables: seq<Stream>, start: Bound, end: Bound)
    returns (r: Result<seq<(Key, seq<byte>)>>)
    requires forall t: Stream :: t in tables ==> Sorted(t.rest)
    ensures r.Err? ==> FaultOf(tables, r.error)
    ensures r.Ok? ==> r.value == Scanned(Layers(memtable, immutable, Entries(tables)), start, end)
  {
    hide MergeRuns, Live, SelectedAll, FaultOf, SourcesOk, Layers, Pendings;
    var handle := Open(memtable, immutable, tables, start, end);
    if handle.Err? {
      return Err(handle.error);
    }
    var it := handle.value;
    ghost var sources := it.sources;
    var out := [];
    while true
      invariant it.Valid() && FaultsStay(it.sources, sources)
      invariant Scanned(Layers(memtable, immutable, Entries(tables)), start, end) == out + Live(it.Remaining())
      decreases |Live(it.Remaining())|
    {
      var next := it.Next();
      if next.None? {
        return Ok(out);
      }
      if next.value.Err? {
        assert SourceFault(sources, next.value.error);
        return Err(next.value.error);
      }
      out := out + [next.value.value];
    }
  }

  /** What a scan of `layers` yields. */
  function Scanned(layers: seq<Run>, start: Bound, end: Bound): seq<(Key, seq<byte>)>
  {
    Live(MergeRuns(SelectedAll(layers, start, end)))
  }

  ghost predicate Increasing(pairs: seq<(Key, seq<byte>)>)
  {
    forall i, j :: 0 <= i < j < |pairs| ==> Lt(pairs[i].0, pairs[j].0)
  }

  lemma {:induction false} LiveSorted(run: Run)
    requires Sorted(run)
    ensures Increasing(Live(run))
    ensures forall key :: Below(key, run) ==> forall i :: 0 <= i < |Live(run)| ==> Lt(key, Live(run)[i].0)
  {
    hide Lt;
    if run == [] {
    } else {
      LiveSorted(run[1..]);
      assert Below(run[0].0, run[1..]);
      forall key | Below(key, run)
        ensures forall i :: 0 <= i < |Live(run)| ==> Lt(key, Live(run)[i].0)
      {
        assert Lt(key, run[0].0) && Below(key, run[1..]);
      }
    }
  }

  lemma {:induction false} LiveMembers(run: Run, key: Key, value: seq<byte>)
    requires Sorted(run)
    ensures (key, value) in Live(run) <==> Visible(Lookup(run, key)) == Some(value)
  {
    hide Lt;
    if run == [] {
    } else {
      LiveMembers(run[1..], key, value);
      if run[0].0 == key {
        assert Below(key, run[1..]);
        AbsentBelow(run[1..], key);
      }
    }
  }

  lemma {:induction false} FirstSelected(layers: seq<Run>, start: Bound, end: Bound, key: Key)
    ensures First(SelectedAll(layers, start, end), key) == if InRange(key, start, end) then First(layers, key) else None
  {
    hide InRange;
    if layers == [] {
    } else {
      SelectedLookup(layers[0], start, end, key);
      FirstSelected(layers[1..], start, end, key);
      assert SelectedAll(layers, start, end)[1..] == SelectedAll(layers[1..], start, end);
    }
  }

  /** A scan yields, in strictly increasing order, exactly the pairs in range that a read of each key returns. */
  lemma ScanIsVisible(layers: seq<Run>, start: Bound, end: Bound)
    requires forall run :: run in layers ==> Sorted(run)
    ensures Increasing(Scanned(layers, start, end))
    ensures forall key, value :: (key, value) in Scanned(layers, start, end) <==>
              InRange(key, start, end) && Visible(First(layers, key)) == Some(value)
    ensures forall key, value :: (key, value) in Scanned(layers, start, end) <==>
              && Visible(First(layers, key)) == Some(value)
              && (start.Unbounded? || Lt(start.key, key) || (start.Included? && key == start.key))
              && (end.Unbounded? || Lt(key, end.key) || (end.Included? && key == end.key))
  {
    AllInRange(start, end);
    hide InRange, Live, Increasing, MergeRuns, Lt;
    var runs := SelectedAll(layers, start, end);
    forall run | run in runs
      ensures Sorted(run)
    {
      var i :| 0 <= i < |runs| && runs[i] == run;
      assert layers[i] in layers;
      SelectedSorted(layers[i], start, end);
    }
    MergeRunsLookup(runs, []);
    LiveSorted(MergeRuns(runs));
    forall key, value
      ensures (key, value) in Scanned(layers, start, end) <==>
              InRange(key, start, end) && Visible(First(layers, key)) == Some(value)
    {
      MergeRunsLookup(runs, key);
      LiveMembers(MergeRuns(runs), key, value);
      FirstSelected(layers, start, end, key);
    }
  }

  // ----- splitting a scan -----

  ghost predicate SameMembers(a: seq<(Key, seq<byte>)>, b: seq<(Key, seq<byte>)>)
  {
    forall x :: x in a <==> x in b
  }

  /** Strictly increasing pairs are determined by which pairs they are. */
  lemma {:induction false} IncreasingUnique(a: seq<(Key, seq<byte>)>, b: seq<(Key, seq<byte>)>)
    requires Increasing(a) && Increasing(b) && SameMembers(a, b)
    ensures a == b
  {
    hide Lt, Rank;
    KeyOrder();
    BothEmpty(a, b);
    if a == [] {
    } else {
      SameFirst(a, b);
      TailMembers(a);
      TailMembers(b);
      IncreasingUnique(a[1..], b[1..]);
      assert a == [a[0]] + a[1..] && b == [b[0]] + b[1..];
    }
  }

  lemma BothEmpty(a: seq<(Key, seq<byte>)>, b: seq<(Key, seq<byte>)>)
    requires SameMembers(a, b)
    ensures a == [] <==> b == []
  {
    if a != [] {
      assert a[0] in a;
    }
    if b != [] {
      assert b[0] in b;
    }
  }

  lemma TailMembers(a: seq<(Key, seq<byte>)>)
    requires Increasing(a) && a != []
    ensures forall x :: x in a[1..] <==> x in a && x != a[0]
  {
    hide Lt, Rank;
    KeyOrder();
    forall i | 0 < i < |a|
      ensures a[i] != a[0]
    {
      assert Lt(a[0].0, a[i].0);
    }
  }

  lemma FirstIsLeast(a: seq<(Key, seq<byte>)>)
    requires Increasing(a) && a != []
    ensures forall x :: x in a ==> x == a[0] || Lt(a[0].0, x.0)
  {
    hide Lt;
  }

  lemma SameFirst(a: seq<(Key, seq<byte>)>, b: seq<(Key, seq<byte>)>)
    requires Increasing(a) && Increasing(b) && SameMembers(a, b) && a != [] && b != []
    ensures a[0] == b[0]
  {
    hide Lt, Rank, Increasing;
    KeyOrder();
    FirstIsLeast(a);
    FirstIsLeast(b);
    assert a[0] in a && b[0] in b;
  }

  /** A point at which a scan can be split: not before its start, not behind its end. */
  ghost predicate Splits(start: Bound, middle: Key, end: Bound)
  {
    && (start.Unbounded? || Lt(start.key, middle) || start == Included(middle))
    && (end.Unbounded? || Lt(middle, end.key) || middle == end.key)
  }

  /** Scanning up to a key and then from it on, the key included once, is scanning through. */
  lemma ScanSplits(layers: seq<Run>, start: Bound, middle: Key, end: Bound)
    requires (forall run :: run in layers ==> Sorted(run)) && Splits(start, middle, end)
    ensures Scanned(layers, start, Excluded(middle)) + Scanned(layers, Included(middle), end) ==
            Scanned(layers, start, end)
  {
    hide InRange, Lt, Scanned, Visible;
    var a, b := Scanned(layers, start, Excluded(middle)), Scanned(layers, Included(middle), end);
    var whole := Scanned(layers, start, end);
    ScanIsVisible(layers, start, Excluded(middle));
    ScanIsVisible(layers, Included(middle), end);
    ScanIsVisible(layers, start, end);
    forall key
      ensures InRange(key, start, end) <==> InRange(key, start, Excluded(middle)) || InRange(key, Included(middle), end)
      ensures InRange(key, start, Excluded(middle)) ==> Lt(key, middle)
      ensures InRange(key, Included(middle), end) ==> !Lt(key, middle)
    {
      RangeSplits(key, start, middle, end);
    }
    forall x
      ensures x in a + b <==> x in whole
    {
      var (key, value) := x;
    }
    SplitIncreases(a, b, middle);
    IncreasingUnique(a + b, whole);
  }

  lemma RangeSplits(key: Key, start: Bound, middle: Key, end: Bound)
    requires Splits(start, middle, end)
    ensures InRange(key, start, end) <==> InRange(key, start, Excluded(middle)) || InRange(key, Included(middle), end)
    ensures InRange(key, start, Excluded(middle)) ==> Lt(key, middle)
    ensures InRange(key, Included(middle), end) ==> !Lt(key, middle)
  {
    hide Lt, Rank;
    KeyOrder();
    LtIsRankOrder(key, middle);
  }

  lemma SplitIncreases(a: seq<(Key, seq<byte>)>, b: seq<(Key, seq<byte>)>, middle: Key)
    requires Increasing(a) && Increasing(b)
    requires forall x :: x in a ==> Lt(x.0, middle)
    requires forall x :: x in b ==> !Lt(x.0, middle)
    ensures Increasing(a + b)
  {
    hide Lt, Rank;
    KeyOrder();
    assert forall i :: 0 <= i < |a| ==> a[i] in a;
    assert forall i :: 0 <= i < |b| ==> b[i] in b;
  }
}
