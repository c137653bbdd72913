/** Choosing the inputs of a compaction, and deciding whether tombstones may go. */
module Picker {
  import opened Bytes
  import opened Wrappers
  import opened Runs
  import opened Levels
  import opened Compaction

  datatype Options = Options(
    memtableSizeBytes: nat,
    l0CompactionTrigger: nat,
    levelSizeMultiplier: nat,
    maxLevels: nat)

  /** The options the engine is meant for. */
  ghost predicate Usable(options: Options)
  {
    options.maxLevels >= 2 && options.l0CompactionTrigger >= 1
  }

  /** Every table is sorted and has no empty key: the empty key marks an empty table. */
  ghost predicate WellFormed(levels: Levels)
  {
    forall i, t :: 0 <= i < |levels| && t in levels[i] ==> ProperRun(t.run)
  }

  ghost predicate ProperRun(run: Run)
  {
    Sorted(run) && forall i :: 0 <= i < |run| ==> run[i].0 != []
  }

  predicate Overlaps(t: Table, small: Key, large: Key)
  {
    !(Smallest(t.run) == [] && Largest(t.run) == []) &&
    Le(Smallest(t.run), large) && Le(small, Largest(t.run))
  }

  /** The tables of a level that overlap a key range, in order. */
  function Overlapping(tables: seq<Table>, small: Key, large: Key): seq<Table>
  {
    if tables == [] then []
    else
      var last := tables[|tables| - 1];
      Overlapping(tables[..|tables| - 1], small, large) + if Overlaps(last, small, large) then [last] else []
  }

  /** The hull of the key ranges of some tables. */
  function Span(tables: seq<Table>): (Key, Key)
  {
    if tables == [] then ([], [])
    else if |tables| == 1 then (Smallest(tables[0].run), Largest(tables[0].run))
    else Widened(Span(tables[..|tables| - 1]), tables[|tables| - 1])
  }

  function Widened(span: (Key, Key), t: Table): (Key, Key)
  {
    (if Lt(Smallest(t.run), span.0) then Smallest(t.run) else span.0,
     if Lt(span.1, Largest(t.run)) then Largest(t.run) else span.1)
  }

  function TotalSize(tables: seq<Table>): nat
  {
    if tables == [] then 0 else TotalSize(tables[..|tables| - 1]) + tables[|tables| - 1].size
  }

  /** `u64` product, wrapping, and saturating. */
  function WrappingMul(a: nat, b: nat): nat
  {
    (a * b) % U64_LIMIT
  }

  function SaturatingMul(a: nat, b: nat): nat
  {
    if a * b < U64_LIMIT then a * b else U64_LIMIT - 1
  }

  function AtLevel(levels: Levels, level: nat): seq<Table>
  {
    if level < |levels| then levels[level] else []
  }

  /** All of L0, with the L1 tables its span overlaps. */
  function L0Job(levels: Levels, options: Options): Job
  {
    var l0 := AtLevel(levels, 0);
    var (small, large) := Span(l0);
    Job(l0 + Overlapping(AtLevel(levels, 1), small, large), |l0|, if options.maxLevels > 1 then 1 else 0)
  }

  /** The first table of a level, with the tables of the next level it overlaps. */
  function VictimJob(levels: Levels, level: nat): Job
    requires level < |levels| && levels[level] != []
  {
    var victim := levels[level][0];
    Job([victim] + Overlapping(AtLevel(levels, level + 1), Smallest(victim.run), Largest(victim.run)), 1, level + 1)
  }

  /** The first level from `level` on whose tables exceed their growing limit. */
  function PickFrom(levels: Levels, level: nat, limit: nat, options: Options): Option<Job>
    decreases options.maxLevels - level
  {
    if level + 1 >= options.maxLevels || level >= |levels| then None
    else if TotalSize(levels[level]) > limit then
      if levels[level] == [] then None else Some(VictimJob(levels, level))
    else PickFrom(levels, level + 1, SaturatingMul(limit, options.levelSizeMultiplier), options)
  }

  function Pick(levels: Levels, options: Options): Option<Job>
  {
    if levels == [] then None
    else if |levels[0]| >= options.l0CompactionTrigger then Some(L0Job(levels, options))
    else PickFrom(levels, 1, FirstLimit(options), options)
  }

  function FirstLimit(options: Options): nat
  {
    WrappingMul(options.memtableSizeBytes, options.l0CompactionTrigger)
  }

  /** Some table below the output level overlaps an input. */
  predicate LowerOverlap(levels: Levels, job: Job)
  {
    exists i, a, b ::
      job.outputLevel < i < |levels| && 0 <= a < |levels[i]| && 0 <= b < |job.inputs| &&
      Overlaps(levels[i][a], Smallest(job.inputs[b].run), Largest(job.inputs[b].run))
  }

  predicate DropsTombstones(levels: Levels, job: Job, options: Options)
  {
    job.outputLevel + 1 >= options.maxLevels || !LowerOverlap(levels, job)
  }

  // ----- sizes -----

  /** The size of a level is the sum of the sizes of its tables. */
  lemma {:induction false} TotalSizeSums(a: seq<Table>, b: seq<Table>, t: Table)
    ensures TotalSize([]) == 0 && TotalSize([t]) == t.size
    ensures TotalSize(a + b) == TotalSize(a) + TotalSize(b)
  {
    assert [t][..0] == [];
    if b == [] {
      assert a + b == a;
    } else {
      var n := |b| - 1;
      TotalSizeSums(a, b[..n], t);
      assert (a + b)[..|a + b| - 1] == a + b[..n];
    }
  }

  // ----- ranges -----

  /** A table overlaps a key range exactly if it has entries and lies neither wholly before nor wholly after it. */
  lemma OverlapsExactly(t: Table, small: Key, large: Key)
    requires ProperRun(t.run)
    ensures Overlaps(t, small, large) <==>
            t.run != [] && !Lt(t.run[|t.run| - 1].0, small) && !Lt(large, t.run[0].0)
  {
    hide Lt;
  }

  /** Each end of the span is the end of some table. */
  lemma {:induction false} SpanTight(tables: seq<Table>) returns (i: nat, j: nat)
    requires tables != []
    ensures i < |tables| && Span(tables).0 == Smallest(tables[i].run)
    ensures j < |tables| && Span(tables).1 == Largest(tables[j].run)
  {
    hide Lt, Smallest, Largest;
    if |tables| == 1 {
      i, j := 0, 0;
    } else {
      var n := |tables| - 1;
      var t := tables[n];
      i, j := SpanTight(tables[..n]);
      if Lt(Smallest(t.run), Span(tables[..n]).0) {
        i := n;
      }
      if Lt(Span(tables[..n]).1, Largest(t.run)) {
        j := n;
      }
    }
  }

  /** A table with a key inside a range overlaps it. */
  lemma HoldsOverlaps(t: Table, key: Key, small: Key, large: Key)
    requires ProperRun(t.run) && Holds(t, key) && Le(small, key) && Le(key, large)
    ensures Overlaps(t, small, large)
  {
    var i := LookupFound(t.run, key);
    HeldInRange(t.run, key);
    KeyOrder();
  }

  lemma {:induction false} OverlappingMembers(tables: seq<Table>, small: Key, large: Key)
    ensures forall t :: t in Overlapping(tables, small, large) <==> t in tables && Overlaps(t, small, large)
  {
    if tables == [] {
    } else {
      var n := |tables| - 1;
      OverlappingMembers(tables[..n], small, large);
      assert tables == tables[..n] + [tables[n]];
    }
  }

  lemma {:induction false} SpanCovers(tables: seq<Table>)
    ensures forall t :: t in tables ==> Le(Span(tables).0, Smallest(t.run)) && Le(Largest(t.run), Span(tables).1)
  {
    hide Lt, Rank;
    KeyOrder();
    if |tables| <= 1 {
    } else {
      var n := |tables| - 1;
      SpanCovers(tables[..n]);
      assert tables == tables[..n] + [tables[n]];
    }
  }

  lemma HeldInSpan(tables: seq<Table>, key: Key)
    requires forall t :: t in tables ==> ProperRun(t.run)
    requires HeldIn(tables, key)
    ensures Le(Span(tables).0, key) && Le(key, Span(tables).1)
  {
    var t :| t in tables && Holds(t, key);
    SpanCovers(tables);
    HeldInRange(t.run, key);
    KeyOrder();
  }

  // ----- a picked job keeps its promises -----

  lemma {:induction false} PickFromShape(levels: Levels, level: nat, limit: nat, options: Options)
    requires 1 <= level && |levels| == options.maxLevels
    ensures var job := PickFrom(levels, level, limit, options);
            job.Some? ==>
              exists i :: 1 <= i < |levels| - 1 && levels[i] != [] && job.value == VictimJob(levels, i)
    decreases options.maxLevels - level
  {
    if level + 1 < |levels| && TotalSize(levels[level]) <= limit {
      PickFromShape(levels, level + 1, SaturatingMul(limit, options.levelSizeMultiplier), options);
    }
  }

  /** A job taken from a version: its upper tables, and the tables overlapping their span. */
  ghost predicate Picked(levels: Levels, job: Job)
  {
    && 1 <= job.outputLevel < |levels|
    && 0 < job.upper <= |job.inputs|
    && var upper := job.inputs[..job.upper];
    && (job.outputLevel == 1 ==> upper == levels[0])
    && (job.outputLevel > 1 ==> |levels[job.outputLevel - 1]| > 0 && upper == [levels[job.outputLevel - 1][0]])
    && job.inputs[job.upper..] == Overlapping(levels[job.outputLevel], Span(upper).0, Span(upper).1)
  }

  lemma L0Picked(levels: Levels, options: Options)
    requires Usable(options) && |levels| == options.maxLevels && levels[0] != []
    ensures Picked(levels, L0Job(levels, options))
  {
    hide Overlapping, Span;
    var job := L0Job(levels, options);
    assert job.inputs[..job.upper] == levels[0];
  }

  lemma VictimPicked(levels: Levels, i: nat)
    requires 1 <= i < |levels| - 1 && levels[i] != []
    ensures Picked(levels, VictimJob(levels, i))
  {
    hide Overlapping;
    assert VictimJob(levels, i).inputs[..1] == [levels[i][0]];
  }

  lemma PickIsPicked(levels: Levels, options: Options)
    requires Usable(options) && |levels| == options.maxLevels
    ensures Pick(levels, options).Some? ==> Picked(levels, Pick(levels, options).value)
  {
    hide Overlapping, Span, Picked, TotalSize, WrappingMul, SaturatingMul;
    if |levels[0]| >= options.l0CompactionTrigger {
      L0Picked(levels, options);
    } else if Pick(levels, options).Some? {
      PickFromShape(levels, 1, FirstLimit(options), options);
      var i :| 1 <= i < |levels| - 1 && levels[i] != [] && Pick(levels, options).value == VictimJob(levels, i);
      VictimPicked(levels, i);
    }
  }

  /** No other table of the output level holds a key of the upper inputs. */
  lemma PickedCovers(levels: Levels, job: Job, t: Table, key: Key)
    requires Picked(levels, job) && WellFormed(levels)
    requires t in levels[job.outputLevel] && Holds(t, key) && HeldIn(job.inputs[..job.upper], key)
    ensures t in job.inputs[job.upper..]
  {
    var upper := job.inputs[..job.upper];
    HeldInSpan(upper, key);
    HoldsOverlaps(t, key, Span(upper).0, Span(upper).1);
    OverlappingMembers(levels[job.outputLevel], Span(upper).0, Span(upper).1);
  }

  /** No deeper table holds a key whose tombstone a compaction may drop. */
  lemma DroppedHidesNothing(levels: Levels, job: Job, options: Options, i: nat, key: Key)
    requires WellFormed(levels) && DropsTombstones(levels, job, options) && |levels| == options.maxLevels
    requires forall t :: t in job.inputs ==> ProperRun(t.run)
    requires job.outputLevel < i < |levels| && HeldIn(job.inputs, key)
    ensures !HeldIn(levels[i], key)
  {
    forall a | 0 <= a < |levels[i]|
      ensures !Holds(levels[i][a], key)
    {
      var b :| 0 <= b < |job.inputs| && Holds(job.inputs[b], key);
      var input := job.inputs[b].run;
      HeldInRange(input, key);
      assert !Overlaps(levels[i][a], Smallest(input), Largest(input));
      if Holds(levels[i][a], key) {
        HoldsOverlaps(levels[i][a], key, Smallest(input), Largest(input));
      }
    }
  }

  lemma PickedFits(levels: Levels, job: Job, options: Options)
    requires Picked(levels, job) && WellFormed(levels) && |levels| == options.maxLevels
    ensures Fits(levels, job, DropsTombstones(levels, job, options))
    ensures forall t :: t in job.inputs ==> ProperRun(t.run)
  {
    var upper := job.inputs[..job.upper];
    assert job.inputs == upper + job.inputs[job.upper..];
    OverlappingMembers(levels[job.outputLevel], Span(upper).0, Span(upper).1);
    forall t, key | t in levels[job.outputLevel] && Holds(t, key) && HeldIn(upper, key)
      ensures t in job.inputs[job.upper..]
    {
      PickedCovers(levels, job, t, key);
    }
    if DropsTombstones(levels, job, options) {
      forall i, key | job.outputLevel < i < |levels| && HeldIn(job.inputs, key)
        ensures !HeldIn(levels[i], key)
      {
        DroppedHidesNothing(levels, job, options, i, key);
      }
    }
  }
}
