/** The live tables by level: picking a compaction, installing one, and the order of lookups. */
module Versions {
  import opened Bytes
  import opened Wrappers
  import opened Runs
  import opened Levels
  import opened Compaction
  import opened Picker
  import opened Install
  import opened Machine
  import opened SsTables

  type Tables = seq<SsTable>

  /** A table as its bytes show it. */
  ghost function Shown(t: SsTable): Table
  {
    Table(t.id, Content(t), |t.file|)
  }

  ghost function ShownAll(tables: Tables): (r: seq<Table>)
    ensures |r| == |tables|
    ensures forall i :: 0 <= i < |r| ==> r[i] == Shown(tables[i])
  {
    seq(|tables|, i requires 0 <= i < |tables| => Shown(tables[i]))
  }

  ghost function ShownLevels(levels: seq<Tables>): (r: Levels)
    ensures |r| == |levels|
    ensures forall i :: 0 <= i < |r| ==> r[i] == ShownAll(levels[i])
  {
    seq(|levels|, i requires 0 <= i < |levels| => ShownAll(levels[i]))
  }

  /** The key range in memory is the one of the entries. */
  ghost predicate Ranged(t: SsTable)
  {
    t.smallest == Smallest(Content(t)) && t.largest == Largest(Content(t))
  }

  ghost predicate AllRanged(tables: Tables)
  {
    forall i :: 0 <= i < |tables| ==> Ranged(tables[i])
  }

  ghost predicate LevelsRanged(levels: seq<Tables>)
  {
    forall i :: 0 <= i < |levels| ==> AllRanged(levels[i])
  }

  predicate OverlapsRange(t: SsTable, small: Key, large: Key)
  {
    !(t.smallest == [] && t.largest == []) && Le(t.smallest, large) && Le(small, t.largest)
  }

  // ----- picking -----

  /** The hull of the key ranges, by one pass. */
  method ComputeSpan(tables: Tables) returns (small: Key, large: Key)
    requires AllRanged(tables)
    ensures (small, large) == Span(ShownAll(tables))
  {
    hide Lt, Content, Span, Smallest, Largest;
    small := if tables == [] then [] else tables[0].smallest;
    large := if tables == [] then [] else tables[0].largest;
    SpanStart(tables);
    if |tables| > 1 {
      for i := 1 to |tables|
        invariant (small, large) == Span(ShownAll(tables)[..i])
      {
        var t := tables[i];
        SpanNext(ShownAll(tables), i);
        if Lt(t.smallest, small) {
          small := t.smallest;
        }
        if Lt(large, t.largest) {
          large := t.largest;
        }
      }
      assert ShownAll(tables)[..|tables|] == ShownAll(tables);
    }
  }

  lemma SpanStart(tables: Tables)
    requires AllRanged(tables)
    ensures tables == [] ==> Span(ShownAll(tables)) == ([], [])
    ensures tables != [] ==> Span(ShownAll(tables)[..1]) == (tables[0].smallest, tables[0].largest)
    ensures |tables| == 1 ==> ShownAll(tables)[..1] == ShownAll(tables)
  {
    hide Content;
  }

  lemma SpanNext(all: seq<Table>, i: nat)
    requires 1 <= i < |all|
    ensures Span(all[..i + 1]) == Widened(Span(all[..i]), all[i])
  {
    hide Widened;
    assert all[..i + 1][..i] == all[..i];
  }

  /** Pushes the tables that overlap a range onto `inputs`. */
  method PushOverlapping(inputs0: Tables, tables: Tables, small: Key, large: Key) returns (inputs: Tables)
    requires AllRanged(tables)
    ensures ShownAll(inputs) == ShownAll(inputs0) + Overlapping(ShownAll(tables), small, large)
    ensures forall t :: t in inputs ==> t in inputs0 || t in tables
  {
    hide Lt, Content, Smallest, Largest;
    inputs := inputs0;
    for i := 0 to |tables|
      invariant ShownAll(inputs) == ShownAll(inputs0) + Overlapping(ShownAll(tables)[..i], small, large)
      invariant forall t :: t in inputs ==> t in inputs0 || t in tables
    {
      assert ShownAll(tables)[..i + 1][..i] == ShownAll(tables)[..i];
      assert OverlapsRange(tables[i], small, large) <==> Overlaps(Shown(tables[i]), small, large);
      if OverlapsRange(tables[i], small, large) {
        ShownSnoc(inputs, tables[i]);
        inputs := inputs + [tables[i]];
      }
    }
    assert ShownAll(tables)[..|tables|] == ShownAll(tables);
  }

  lemma ShownSnoc(tables: Tables, t: SsTable)
    ensures ShownAll(tables + [t]) == ShownAll(tables) + [Shown(t)]
  {
    hide Shown;
  }

  method SumSizes(tables: Tables) returns (size: nat)
    ensures size == TotalSize(ShownAll(tables))
  {
    hide Content;
    size := 0;
    for i := 0 to |tables|
      invariant size == TotalSize(ShownAll(tables)[..i])
    {
      assert ShownAll(tables)[..i + 1][..i] == ShownAll(tables)[..i];
      size := size + |tables[i].file|;
    }
    assert ShownAll(tables)[..|tables|] == ShownAll(tables);
  }

  /** The size of a level is the sum of the lengths of its files. */
  lemma FileSizes(a: Tables, b: Tables, t: SsTable)
    ensures TotalSize(ShownAll([t])) == |t.file|
    ensures TotalSize(ShownAll(a + b)) == TotalSize(ShownAll(a)) + TotalSize(ShownAll(b))
  {
    hide Content, TotalSize;
    TotalSizeSums(ShownAll(a), ShownAll(b), Shown(t));
    assert ShownAll([t]) == [Shown(t)];
    assert ShownAll(a + b) == ShownAll(a) + ShownAll(b);
  }

  datatype CompactionJob = CompactionJob(inputs: Tables, outputLevel: nat)

  /** The job the source picks, against the job of the specification. */
  ghost predicate SameJob(r: Option<CompactionJob>, job: Option<Job>)
  {
    && (r.Some? <==> job.Some?)
    && (r.Some? ==> ShownAll(r.value.inputs) == job.value.inputs && r.value.outputLevel == job.value.outputLevel)
  }

  ghost predicate FromLevels(tables: Tables, levels: seq<Tables>)
  {
    forall t :: t in tables ==> exists i :: 0 <= i < |levels| && t in levels[i]
  }

  method PickCompaction(levels: seq<Tables>, options: Options) returns (r: Option<CompactionJob>)
    requires LevelsRanged(levels)
    ensures SameJob(r, Pick(ShownLevels(levels), options))
    ensures r.Some? ==> FromLevels(r.value.inputs, levels)
  {
    hide Content, Shown, AllRanged, Span, Overlapping, TotalSize;
    if levels == [] {
      return None;
    }
    if |levels[0]| >= options.l0CompactionTrigger {
      var small, large := ComputeSpan(levels[0]);
      var inputs := levels[0];
      if |levels| > 1 {
        inputs := PushOverlapping(inputs, levels[1], small, large);
      } else {
        NoneOverlap(small, large);
        assert ShownAll(inputs) + [] == ShownAll(inputs);
      }
      return Some(CompactionJob(inputs, if options.maxLevels > 1 then 1 else 0));
    }
    var limit := WrappingMul(options.memtableSizeBytes, options.l0CompactionTrigger);
    var level := 1;
    while level + 1 < options.maxLevels
      invariant 1 <= level
      invariant Pick(ShownLevels(levels), options) == PickFrom(ShownLevels(levels), level, limit, options)
      decreases options.maxLevels - level
    {
      if level >= |levels| {
        return None;
      }
      var size := SumSizes(levels[level]);
      if size > limit {
        if levels[level] == [] {
          return None;
        }
        var victim := levels[level][0];
        var inputs := [victim];
        FirstRange(levels[level]);
        assert ShownAll([victim]) == [Shown(victim)];
        if level + 1 < |levels| {
          inputs := PushOverlapping(inputs, levels[level + 1], victim.smallest, victim.largest);
        } else {
          NoneOverlap(victim.smallest, victim.largest);
          assert ShownAll(inputs) + [] == ShownAll(inputs);
        }
        return Some(CompactionJob(inputs, level + 1));
      }
      limit := SaturatingMul(limit, options.levelSizeMultiplier);
      level := level + 1;
    }
    return None;
  }

  lemma NoneOverlap(small: Key, large: Key)
    ensures Overlapping([], small, large) == []
  {
  }

  lemma FirstRange(tables: Tables)
    requires AllRanged(tables) && tables != []
    ensures tables[0].smallest == Smallest(Shown(tables[0]).run) && tables[0].largest == Largest(Shown(tables[0]).run)
  {
  }

  // ----- dropping tombstones -----

  /** Whether some table below the output level overlaps an input. */
  method FindLowerOverlap(levels: seq<Tables>, job: CompactionJob, ghost spec: Job) returns (found: bool)
    requires LevelsRanged(levels) && AllRanged(job.inputs) && SameJob(Some(job), Some(spec))
    ensures found <==> LowerOverlap(ShownLevels(levels), spec)
  {
    hide Content, Lt, Smallest, Largest;
    var i := job.outputLevel + 1;
    while i < |levels|
      invariant i > job.outputLevel
      invariant forall l, a, b ::
                  job.outputLevel < l < i && l < |levels| && 0 <= a < |levels[l]| && 0 <= b < |job.inputs| ==>
                    !OverlapsRange(levels[l][a], job.inputs[b].smallest, job.inputs[b].largest)
    {
      var a, b := FindOverlap(levels[i], job.inputs);
      if a < |levels[i]| {
        var t, u := Shown(levels[i][a]), Shown(job.inputs[b]);
        assert ShownLevels(levels)[i][a] == t && spec.inputs[b] == u;
        assert Overlaps(ShownLevels(levels)[i][a], Smallest(spec.inputs[b].run), Largest(spec.inputs[b].run));
        return true;
      }
      i := i + 1;
    }
    return false;
  }

  /** The first overlapping pair, or the length of `tables`. */
  method FindOverlap(tables: Tables, inputs: Tables) returns (a: nat, b: nat)
    ensures a <= |tables|
    ensures a < |tables| ==> b < |inputs| && OverlapsRange(tables[a], inputs[b].smallest, inputs[b].largest)
    ensures a == |tables| ==> forall x, y :: 0 <= x < |tables| && 0 <= y < |inputs| ==>
              !OverlapsRange(tables[x], inputs[y].smallest, inputs[y].largest)
  {
    hide OverlapsRange;
    a, b := 0, 0;
    while a < |tables|
      invariant a <= |tables|
      invariant forall x, y :: 0 <= x < a && 0 <= y < |inputs| ==>
                !OverlapsRange(tables[x], inputs[y].smallest, inputs[y].largest)
    {
      b := 0;
      while b < |inputs|
        invariant b <= |inputs|
        invariant forall y :: 0 <= y < b ==> !OverlapsRange(tables[a], inputs[y].smallest, inputs[y].largest)
      {
        if OverlapsRange(tables[a], inputs[b].smallest, inputs[b].largest) {
          return;
        }
        b := b + 1;
      }
      a := a + 1;
    }
  }

  // ----- the stable sort by smallest key -----

  function InsertTable(tables: Tables, t: SsTable): Tables
  {
    if tables != [] && Lt(t.smallest, tables[|tables| - 1].smallest) then
      InsertTable(tables[..|tables| - 1], t) + [tables[|tables| - 1]]
    else tables + [t]
  }

  function SortTables(tables: Tables): Tables
  {
    if tables == [] then []
    else InsertTable(SortTables(tables[..|tables| - 1]), tables[|tables| - 1])
  }

  lemma {:induction false} InsertShown(tables: Tables, t: SsTable)
    requires AllRanged(tables) && Ranged(t)
    ensures AllRanged(InsertTable(tables, t)) &&
            ShownAll(InsertTable(tables, t)) == InsertBySmallest(ShownAll(tables), Shown(t))
    ensures forall u :: u in InsertTable(tables, t) ==> u == t || u in tables
  {
    hide Content, Lt, Smallest, Largest;
    var n := |tables| - 1;
    if n >= 0 && Lt(t.smallest, tables[n].smallest) {
      InsertShown(tables[..n], t);
      ShownSnoc(InsertTable(tables[..n], t), tables[n]);
      assert ShownAll(tables)[..n] == ShownAll(tables[..n]);
    } else {
      ShownSnoc(tables, t);
    }
  }

  lemma {:induction false} SortShown(tables: Tables)
    requires AllRanged(tables)
    ensures AllRanged(SortTables(tables)) && ShownAll(SortTables(tables)) == SortBySmallest(ShownAll(tables))
    ensures forall u :: u in SortTables(tables) ==> u in tables
  {
    hide Ranged, Shown;
    if tables == [] {
    } else {
      var n := |tables| - 1;
      SortShown(tables[..n]);
      InsertShown(SortTables(tables[..n]), tables[n]);
      assert ShownAll(tables)[..n] == ShownAll(tables[..n]);
    }
  }

  // ----- the version -----

  /** `retain`: the tables whose id is not to be removed. */
  method RetainTables(tables: Tables, remove: set<nat>) returns (kept: Tables)
    ensures ShownAll(kept) == Retain(ShownAll(tables), remove)
    ensures forall t :: t in kept ==> t in tables
  {
    hide Shown;
    kept := [];
    for i := 0 to |tables|
      invariant ShownAll(kept) == Retain(ShownAll(tables)[..i], remove)
      invariant forall t :: t in kept ==> t in tables
    {
      RetainNext(tables, kept, remove, i);
      if tables[i].id !in remove {
        kept := kept + [tables[i]];
      }
    }
    assert ShownAll(tables)[..|tables|] == ShownAll(tables);
  }

  lemma RetainNext(tables: Tables, kept: Tables, remove: set<nat>, i: nat)
    requires i < |tables| && ShownAll(kept) == Retain(ShownAll(tables)[..i], remove)
    ensures Retain(ShownAll(tables)[..i + 1], remove) ==
            ShownAll(if tables[i].id in remove then kept else kept + [tables[i]])
  {
    hide Content;
    var all := ShownAll(tables);
    assert all[..i + 1] == all[..i] + [all[i]];
    RetainConcat(all[..i], [all[i]], remove);
    ShownSnoc(kept, tables[i]);
  }

  method RetainLevels(levels: seq<Tables>, remove: set<nat>) returns (kept: seq<Tables>)
    ensures |kept| == |levels|
    ensures forall i :: 0 <= i < |levels| ==> ShownAll(kept[i]) == Retain(ShownAll(levels[i]), remove)
    ensures forall i, t :: 0 <= i < |levels| && t in kept[i] ==> t in levels[i]
  {
    hide Shown, Retain;
    kept := [];
    for i := 0 to |levels|
      invariant |kept| == i
      invariant forall j :: 0 <= j < i ==> ShownAll(kept[j]) == Retain(ShownAll(levels[j]), remove)
      invariant forall j, t :: 0 <= j < i && t in kept[j] ==> t in levels[j]
    {
      var level := RetainTables(levels[i], remove);
      kept := kept + [level];
    }
  }

  class Version {
    var levels: seq<Tables>

    constructor (levels: seq<Tables>)
      ensures this.levels == levels
    {
      this.levels := levels;
    }

    /** A flushed table goes to the front of L0. */
    method InsertNewest(t: SsTable)
      requires levels != []
      modifies this
      ensures ShownLevels(levels) == WithNewest(old(ShownLevels(levels)), Shown(t))
      ensures levels == old(levels)[0 := [t] + old(levels[0])]
    {
      hide Shown;
      assert ShownAll([t] + levels[0]) == [Shown(t)] + ShownAll(levels[0]);
      levels := levels[0 := [t] + levels[0]];
    }

    /** Drops the inputs by id from every level, adds the output, and sorts its level again. */
    method ApplyCompaction(job: CompactionJob, output: SsTable, ghost spec: Job)
      requires levels != [] && LevelsRanged(levels) && Ranged(output) && SameJob(Some(job), Some(spec))
      modifies this
      ensures ShownLevels(levels) == Installed(old(ShownLevels(levels)), spec, Shown(output))
      ensures |levels| == |old(levels)|
      ensures forall i, t :: 0 <= i < |levels| && t in levels[i] ==> t == output || t in old(levels)[i]
    {
      hide Content, Shown, Ranged, Retain, SortTables, SortBySmallest;
      var remove := set t | t in job.inputs :: t.id;
      SameIds(job, spec);
      var kept := RetainLevels(levels, remove);
      var dest := if job.outputLevel < |levels| then job.outputLevel else |levels| - 1;
      ShownSnoc(kept[dest], output);
      var grown := kept[dest] + [output];
      if dest > 0 {
        assert AllRanged(grown) by {
          assert forall i :: 0 <= i < |kept[dest]| ==> kept[dest][i] in levels[dest];
        }
        SortShown(grown);
        grown := SortTables(grown);
      }
      levels := kept[dest := grown];
    }

    method TablesNewestFirst() returns (tables: Tables)
      ensures tables == Concat(levels)
    {
      tables := [];
      for i := 0 to |levels|
        invariant tables == Concat(levels[..i])
      {
        assert levels[..i + 1][..i] == levels[..i];
        tables := tables + levels[i];
      }
      assert levels[..|levels|] == levels;
    }
  }

  lemma SameIds(job: CompactionJob, spec: Job)
    requires SameJob(Some(job), Some(spec))
    ensures (set t | t in job.inputs :: t.id) == Ids(spec.inputs)
  {
    hide Content;
    var a, b := (set t | t in job.inputs :: t.id), Ids(spec.inputs);
    forall id | id in a
      ensures id in b
    {
      var t :| t in job.inputs && t.id == id;
      var i :| 0 <= i < |job.inputs| && job.inputs[i] == t;
      assert spec.inputs[i] in spec.inputs && spec.inputs[i].id == id;
    }
    forall id | id in b
      ensures id in a
    {
      var t :| t in spec.inputs && t.id == id;
      var i :| 0 <= i < |spec.inputs| && spec.inputs[i] == t;
      assert job.inputs[i] in job.inputs;
    }
  }

  function Concat(levels: seq<Tables>): Tables
  {
    if levels == [] then [] else Concat(levels[..|levels| - 1]) + levels[|levels| - 1]
  }
}
