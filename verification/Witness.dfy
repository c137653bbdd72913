/** Runs in which a crash cuts a compaction: an overwritten value comes back, a level overlaps. */
module Witness {
  import opened Bytes
  import opened Wrappers
  import opened Runs
  import opened Levels
  import opened Compaction
  import opened Cuts
  import opened Picker
  import opened Install
  import opened MemTables
  import opened Records
  import opened Manifests
  import opened Machine
  import opened Invariant
  import opened Steps
  import Merging
  import opened Refinement
  import opened Shape
  import opened ManifestOrder
  import opened Interrupted
  import opened Calls

  function FlushActions(size: nat): seq<Action>
  {
    [Freeze, FlushAllocate, FlushWrite(size), FlushLog, FlushInstall, FlushTruncate, FlushFinish]
  }

  lemma FlushRun(options: Options, actions: seq<Action>, s: State, size: nat)
    requires Legal(options, actions) && RunOf(options, actions) == Ok(s)
    requires s.flush.FlushIdle? && s.mem != [] && ManifestFree(s) && !Listed(s.catalog, s.catalog.nextId)
    ensures Legal(options, actions + FlushActions(size))
    ensures RunOf(options, actions + FlushActions(size)) == Ok(Flushed(s, size))
  {
    hide Legal, RunOf, WithNewest;
    var a1, s1 := After(options, actions, s, Freeze);
    var a2, s2 := After(options, a1, s1, FlushAllocate);
    var a3, s3 := After(options, a2, s2, FlushWrite(size));
    var a4, s4 := After(options, a3, s3, FlushLog);
    var a5, s5 := After(options, a4, s4, FlushInstall);
    var a6, s6 := After(options, a5, s5, FlushTruncate);
    var a7, s7 := After(options, a6, s6, FlushFinish);
    assert a7 == actions + FlushActions(size);
  }

  lemma After(options: Options, actions: seq<Action>, s: State, a: Action) returns (more: seq<Action>, next: State)
    requires Legal(options, actions) && RunOf(options, actions) == Ok(s) && Ready(s, a) && Do(s, a).Ok?
    ensures more == actions + [a] && next == Do(s, a).value
    ensures Legal(options, more) && RunOf(options, more) == Ok(next)
  {
    hide Legal, RunOf, Do, Ready;
    more, next := actions + [a], Do(s, a).value;
    OneMore(options, actions, s, a);
  }

  // ----- the run -----

  const KEY: Key := [1]
  const OLD: seq<byte> := [1]
  const NEW: seq<byte> := [2]

  function SmallOptions(): Options
  {
    Options(1, 2, 2, 2)
  }

  function WriteAndFlush(value: seq<byte>): seq<Action>
  {
    [Write(Put(KEY, value))] + FlushActions(0)
  }

  lemma WriteAndFlushRun(actions: seq<Action>, s: State, value: seq<byte>)
    requires Legal(SmallOptions(), actions) && RunOf(SmallOptions(), actions) == Ok(s)
    requires s.flush.FlushIdle? && s.compact.CompactIdle? && s.mem == [] && !Listed(s.catalog, s.catalog.nextId)
    ensures Legal(SmallOptions(), actions + WriteAndFlush(value))
    ensures RunOf(SmallOptions(), actions + WriteAndFlush(value)) ==
            Ok(Flushed(s.(mem := [(KEY, Runs.Value(value))], wal := s.wal + [Put(KEY, value)]), 0))
  {
    hide Legal, RunOf, WithNewest;
    var a1, s1 := After(SmallOptions(), actions, s, Write(Put(KEY, value)));
    assert s1.mem == [(KEY, Runs.Value(value))];
    FlushRun(SmallOptions(), a1, s1, 0);
    assert a1 + FlushActions(0) == actions + WriteAndFlush(value);
  }

  function OldTable(): Table
  {
    Table(1, [(KEY, Runs.Value(OLD))], 0)
  }

  function NewTable(): Table
  {
    Table(2, [(KEY, Runs.Value(NEW))], 0)
  }

  lemma TwoFlushes() returns (actions: seq<Action>, s: State)
    ensures actions == WriteAndFlush(OLD) + WriteAndFlush(NEW)
    ensures Legal(SmallOptions(), actions) && RunOf(SmallOptions(), actions) == Ok(s)
    ensures s.levels == [[NewTable(), OldTable()], []]
    ensures s.flush.FlushIdle? && s.compact.CompactIdle? && s.wal == [] && s.mem == [] && s.options == SmallOptions()
  {
    hide Ready, Do;
    var s0 := Opened(SmallOptions());
    assert s0.levels == [[], []];
    WriteAndFlushRun([], s0, OLD);
    assert [] + WriteAndFlush(OLD) == WriteAndFlush(OLD);
    var s1 := RunOf(SmallOptions(), WriteAndFlush(OLD)).value;
    assert [OldTable()] + [] == [OldTable()] && [NewTable()] + [OldTable()] == [NewTable(), OldTable()];
    assert s1.levels == [[OldTable()], []];
    hide Legal, RunOf;
    WriteAndFlushRun(WriteAndFlush(OLD), s1, NEW);
    actions := WriteAndFlush(OLD) + WriteAndFlush(NEW);
    s := RunOf(SmallOptions(), actions).value;
  }

  lemma BothArePicked(levels: Levels)
    requires levels == [[NewTable(), OldTable()], []]
    ensures Pick(levels, SmallOptions()) == Some(Job([NewTable(), OldTable()], 2, 1))
  {
    hide Span;
    var l0 := [NewTable(), OldTable()];
    assert Overlapping([], Span(l0).0, Span(l0).1) == [];
    assert l0 + [] == l0;
  }

  lemma Compacting() returns (actions: seq<Action>, s: State)
    ensures Legal(SmallOptions(), actions) && RunOf(SmallOptions(), actions) == Ok(s)
    ensures actions == WriteAndFlush(OLD) + WriteAndFlush(NEW) + [CompactBegin] + [CompactAllocate] + [CompactBuild(0)]
    ensures s.compact.CompactBuilt? && s.compact.job == Job([NewTable(), OldTable()], 2, 1) &&
            s.options == SmallOptions()
    ensures s.levels == [[NewTable(), OldTable()], []] && s.wal == [] && s.mem == [] && s.flush.FlushIdle?
  {
    hide Legal, RunOf, Pick, OldTable, NewTable;
    var a0, s0 := TwoFlushes();
    BothArePicked(s0.levels);
    var a1, s1 := After(SmallOptions(), a0, s0, CompactBegin);
    var a2, s2 := After(SmallOptions(), a1, s1, CompactAllocate);
    actions, s := After(SmallOptions(), a2, s2, CompactBuild(0));
  }

  /**
   * The engine shows the new value, the compaction has logged its output and one
   * of its two removals, and reopening that disk shows the old value.
   */
  lemma OldValueReturns() returns (actions: seq<Action>, s: State)
    ensures Legal(SmallOptions(), actions) && RunOf(SmallOptions(), actions) == Ok(s) && MidRemoval(s)
    ensures Get(s, KEY) == Some(NEW)
    ensures Reopened(s).Ok? && Get(Reopened(s).value, KEY) == Some(OLD)
  {
    hide Legal, RunOf, Ready, Do, Inv, OrderOk, Reopened, Get, LogSteps, ShownAfter;
    var building, built := Compacting();
    LogReached(SmallOptions(), building, 1);
    actions := building + LogSteps(1);
    s := RunOf(SmallOptions(), actions).value;
    RunsMatchReference(SmallOptions(), actions);
    RunsKeepOrder(SmallOptions(), actions);
    OldIsLeft(s);
    InterruptedReads(s, KEY);
  }

  lemma OldIsLeft(s: State)
    requires s.compact.CompactLogging? && s.compact.job == Job([NewTable(), OldTable()], 2, 1) && s.compact.removed == 1
    requires s.levels == [[NewTable(), OldTable()], []] && s.flush.FlushIdle? && s.wal == []
    ensures AtStake(s, KEY)
    ensures FirstIn(s.compact.job.inputs, KEY) == Some(Runs.Value(NEW))
    ensures ShownAfter(s.compact.job, s.compact.output, 1, KEY) == Some(Runs.Value(OLD))
  {
    var inputs := s.compact.job.inputs;
    assert Lookup(inputs[0].run, KEY) == Some(Runs.Value(NEW)) && inputs[0] in inputs;
    assert Lookup(inputs[1].run, KEY) == Some(Runs.Value(OLD));
    var left := UpperLeft(s.compact.job, 1);
    assert left == [inputs[1]] && left[0] in left;
    assert Replayed(s.wal) == [];
  }

  // ----- the shape after a cut compaction -----

  predicate NoCrash(actions: seq<Action>)
  {
    forall i :: 0 <= i < |actions| ==> !actions[i].Crash? && !actions[i].CrashInWrite?
  }

  /** The run so far: legal, without a crash, and ending in `s`. */
  ghost predicate Reaches(actions: seq<Action>, s: State)
  {
    Legal(SmallOptions(), actions) && RunOf(SmallOptions(), actions) == Ok(s) && NoCrash(actions)
  }

  lemma ReachedOk(actions: seq<Action>, s: State)
    requires Reaches(actions, s)
    ensures Inv(s) && ShapeOk(s)
  {
    hide Inv, ShapeOk, Legal, RunOf;
    RunsMatchReference(SmallOptions(), actions);
    assert Uncut(SmallOptions(), actions);
    RunsAreShaped(SmallOptions(), actions);
  }

  lemma Onward(actions: seq<Action>, s: State, a: Action) returns (more: seq<Action>, next: State)
    requires Reaches(actions, s) && Ready(s, a) && !a.Crash? && !a.CrashInWrite?
    ensures Reaches(more, next) && Do(s, a) == Ok(next)
  {
    hide Legal, RunOf, Do, Ready, Inv, ShapeOk;
    ReachedOk(actions, s);
    AnyStep(s, a);
    more, next := After(SmallOptions(), actions, s, a);
  }

  ghost predicate Single(t: Table, value: seq<byte>)
  {
    t.run == [(KEY, Runs.Value(value))]
  }

  lemma WrittenAndFlushed(actions: seq<Action>, s: State, value: seq<byte>)
    returns (more: seq<Action>, next: State, t: Table)
    requires Reaches(actions, s) && s.flush.FlushIdle? && s.compact.CompactIdle? && s.mem == [] && |s.levels| == 2
    ensures Reaches(more, next) && next.flush.FlushIdle? && next.compact.CompactIdle? && next.mem == []
    ensures Single(t, value) && next.levels == [[t] + s.levels[0], s.levels[1]] && next.options == s.options
  {
    hide Legal, RunOf, Inv, ShapeOk;
    ReachedOk(actions, s);
    NextIdUnused(s);
    WriteAndFlushRun(actions, s, value);
    more := actions + WriteAndFlush(value);
    next := RunOf(SmallOptions(), more).value;
    t := Table(s.catalog.nextId, [(KEY, Runs.Value(value))], 0);
  }

  /** The first compaction runs to its end and leaves one table in L1. */
  lemma OneCompaction() returns (actions: seq<Action>, s: State, below: Table)
    ensures Reaches(actions, s) && s.levels == [[], [below]] && Single(below, NEW) && s.options == SmallOptions()
    ensures s.flush.FlushIdle? && s.compact.CompactIdle? && s.mem == []
  {
    hide Reaches, Installed, NewTable, OldTable, SmallOptions;
    var a0, s0 := Built();
    below := s0.compact.output;
    BelowRun(a0, s0);
    var a1, s1 := Added(a0, s0);
    var a2, s2 := Removed(a1, s1);
    var a3, s3 := Removed(a2, s2);
    actions, s := Onward(a3, s3, CompactInstall);
    BothMoved(below);
  }

  lemma Built() returns (actions: seq<Action>, s: State)
    ensures Reaches(actions, s) && s.options == SmallOptions()
    ensures s.compact.CompactBuilt? && s.compact.job == Job([NewTable(), OldTable()], 2, 1)
    ensures s.levels == [[NewTable(), OldTable()], []] && s.mem == [] && s.flush.FlushIdle?
  {
    hide Legal, RunOf;
    actions, s := Compacting();
  }

  ghost predicate SameMemory(s: State, t: State)
  {
    s.levels == t.levels && s.flush == t.flush && s.mem == t.mem && s.options == t.options
  }

  lemma Added(actions: seq<Action>, s: State) returns (more: seq<Action>, next: State)
    requires Reaches(actions, s) && s.compact.CompactBuilt?
    ensures Reaches(more, next) && SameMemory(next, s)
    ensures next.compact == CompactLogging(s.compact.base, s.compact.job, s.compact.output, 0)
  {
    hide Reaches, Listed;
    more, next := Onward(actions, s, CompactLogAdd);
  }

  lemma Removed(actions: seq<Action>, s: State) returns (more: seq<Action>, next: State)
    requires Reaches(actions, s) && s.compact.CompactLogging? && s.compact.removed < |s.compact.job.inputs|
    ensures Reaches(more, next) && SameMemory(next, s) && next.compact == s.compact.(removed := s.compact.removed + 1)
  {
    hide Reaches, WithoutTable;
    more, next := Onward(actions, s, CompactLogRemove);
  }

  lemma BelowRun(actions: seq<Action>, s: State)
    requires Reaches(actions, s) && s.options == SmallOptions()
    requires s.compact.CompactBuilt? && s.compact.job == Job([NewTable(), OldTable()], 2, 1)
    ensures Single(s.compact.output, NEW)
  {
    hide Legal, RunOf, VersionOk, LogOk, FlushOk, DiskOk, LevelIdsOk, ReservedOk, CatalogOk, ShapeOk, DropsTombstones,
         Extends, Picked, Merging.Merged;
    ReachedOk(actions, s);
    MergedNewest(DropsTombstones(s.compact.base, s.compact.job, s.options));
  }

  lemma MergedNewest(dropTombstones: bool)
    ensures Merging.Merged([NewTable(), OldTable()], dropTombstones) == [(KEY, Runs.Value(NEW))]
  {
    var runs: seq<Run> := Merging.RunsOf([NewTable(), OldTable()]);
    assert runs == [NewTable().run, OldTable().run];
    var older: seq<Run> := runs[1..];
    assert older == [OldTable().run] && |older[1..]| == 0;
    assert Merging.MergeRuns(older) == OldTable().run;
    assert Merging.MergeRuns(runs) == NewTable().run;
  }

  lemma BothMoved(below: Table)
    ensures Installed([[NewTable(), OldTable()], []], Job([NewTable(), OldTable()], 2, 1), below) == [[], [below]]
  {
    var tables, ids := [NewTable(), OldTable()], Ids([NewTable(), OldTable()]);
    assert tables[0] in tables && tables[1] in tables;
    RetainNothing(tables, ids);
    assert Retain([], ids) + [below] == [below];
    assert SortBySmallest([below]) == [below];
  }

  lemma AllPicked(l0: seq<Table>, below: Table)
    requires |l0| == 2 && Single(l0[0], NEW) && Single(l0[1], OLD) && Single(below, NEW)
    ensures Pick([l0, [below]], SmallOptions()) == Some(Job(l0 + [below], 2, 1))
  {
    LtTrichotomy(KEY, KEY, KEY);
    assert l0 == [l0[0], l0[1]] && l0[..1] == [l0[0]];
    assert Span(l0) == (KEY, KEY);
    assert Overlapping([], KEY, KEY) == [];
    assert Overlapping([below], KEY, KEY) == [below];
  }

  /** Both tables hold the key, so neither lies before the other. */
  lemma NotClear(s: State, below: Table)
    requires Inv(s) && s.compact.CompactLogging? && below in s.compact.job.inputs[s.compact.job.upper..]
    requires s.compact.job.upper <= |s.compact.job.inputs| && s.compact.job.inputs != [] &&
             Single(s.compact.job.inputs[0], NEW) && Single(below, NEW)
    requires s.compact.removed == 0
    ensures !ClearOfInputs(s.compact.job, s.compact.output, 0)
  {
    hide CoherentOk, VersionOk, LogOk, FlushOk, DiskOk, LevelIdsOk, ReservedOk, CatalogOk, DropsTombstones, MergedRun,
         Extends, Picked, WellFormed;
    var output := s.compact.output;
    MergedRunAnswers(s.options, s.levels, s.compact);
    assert Lookup(output.run, KEY) == Some(Runs.Value(NEW));
    HeldInRange(output.run, KEY);
    KeyOrder();
    assert !Apart(below, output) && LowerRemains(s.compact.job, 0, below);
  }

  /** The next compaction, up to its add record. */
  lemma SecondCompaction(a0: seq<Action>, s0: State, l0: seq<Table>, below: Table)
    returns (actions: seq<Action>, s: State)
    requires Reaches(a0, s0) && s0.compact.CompactIdle? && s0.levels == [l0, [below]] && s0.options == SmallOptions()
    requires |l0| == 2 && Single(l0[0], NEW) && Single(l0[1], OLD) && Single(below, NEW)
    ensures Reaches(actions, s) && s.compact.CompactLogging? && s.compact.removed == 0 &&
            s.compact.job == Job(l0 + [below], 2, 1)
  {
    hide Reaches, Pick, MergedRun, SmallOptions, Single;
    AllPicked(l0, below);
    var a1, s1 := Onward(a0, s0, CompactBegin);
    var a2, s2 := Onward(a1, s1, CompactAllocate);
    var a3, s3 := Onward(a2, s2, CompactBuild(0));
    actions, s := Added(a3, s3);
  }

  /** A crash after the add record of the next compaction leaves two overlapping tables in L1. */
  lemma OverlapRemains() returns (actions: seq<Action>, s: State)
    ensures Legal(SmallOptions(), actions) && RunOf(SmallOptions(), actions) == Ok(s)
    ensures Ready(s, Crash) && Do(s, Crash).Ok? && !Shaped(Do(s, Crash).value.levels)
  {
    hide Legal, RunOf, Inv, ShapeOk, ClearOfInputs, Shaped, SmallOptions, Single, NoCrash;
    var a0, s0, below := OneCompaction();
    var a1, s1, t := WrittenAndFlushed(a0, s0, OLD);
    var a2, s2, u := WrittenAndFlushed(a1, s1, NEW);
    assert [t] + s0.levels[0] == [t] && [u] + [t] == [u, t];
    actions, s := SecondCompaction(a2, s2, [u, t], below);
    ReachedOk(actions, s);
    assert s.compact.job.inputs[2..] == [below];
    NotClear(s, below);
    CutShape(s);
    CrashStep(s);
  }
}
