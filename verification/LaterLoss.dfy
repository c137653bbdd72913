/**
 * A crash between two removals after which every key still reads as before, and
 * the compaction after it that brings an overwritten value back.
 */
module LaterLoss {
  import opened Bytes
  import opened Wrappers
  import opened Runs
  import opened Levels
  import opened Compaction
  import opened Cuts
  import opened Picker
  import opened Install
  import opened MemTables
  import opened Records
  import opened Manifests
  import opened Machine
  import opened Invariant
  import opened Steps
  import opened Calls
  import opened Refinement
  import opened ManifestOrder
  import opened Interrupted
  import opened Witness
  import Merging

  const FIRST: Key := [1]
  const SECOND: Key := [2]

  function TinyOptions(): Options
  {
    Options(1, 1, 1, 3)
  }

  function OldRun(): Run
  {
    [(SECOND, Runs.Value(OLD))]
  }

  function NewRun(): Run
  {
    [(FIRST, Runs.Value(OLD)), (SECOND, Runs.Value(NEW))]
  }

  lemma RunLookups(key: Key)
    ensures Sorted(OldRun()) && Sorted(NewRun())
    ensures Lookup(OldRun(), key) == if key == SECOND then Some(Runs.Value(OLD)) else None
    ensures Lookup(NewRun(), key) ==
            if key == FIRST then Some(Runs.Value(OLD)) else if key == SECOND then Some(Runs.Value(NEW)) else None
  {
    var rest: Run := [(SECOND, Runs.Value(NEW))];
    assert NewRun()[1..] == rest && rest[1..] == [];
    assert Lookup(rest, key) == if key == SECOND then Some(Runs.Value(NEW)) else None;
    assert Lt(FIRST, SECOND);
  }

  /** The merge of tables whose newest answers are those of a run without tombstones is that run. */
  lemma MergedIs(tables: seq<Table>, run: Run, dropTombstones: bool)
    requires Sorted(run) && forall t :: t in tables ==> Sorted(t.run)
    requires forall key :: FirstIn(tables, key) == Lookup(run, key) && Lookup(run, key) != Some(Tombstone)
    ensures Merging.Merged(tables, dropTombstones) == run
  {
    hide Merging.Merged, Sorted, FirstIn, Lookup;
    Merging.MergedAnswers(tables, dropTombstones, []);
    forall key
      ensures Lookup(Merging.Merged(tables, dropTombstones), key) == Lookup(run, key)
    {
      Merging.MergedAnswers(tables, dropTombstones, key);
    }
    SameAnswersSameRun(Merging.Merged(tables, dropTombstones), run);
  }

  // ----- stretches of the run -----

  /** The run so far, with nothing in flight and an empty log. */
  ghost predicate Rests(actions: seq<Action>, s: State)
  {
    && Legal(TinyOptions(), actions) && RunOf(TinyOptions(), actions) == Ok(s)
    && Idle(s) && s.mem == [] && s.wal == [] && s.options == TinyOptions()
  }

  lemma Fresh(actions: seq<Action>, s: State)
    requires Rests(actions, s)
    ensures Inv(s) && !Listed(s.catalog, s.catalog.nextId)
  {
    hide Legal, RunOf, Inv, Get, Listed;
    RunsMatchReference(TinyOptions(), actions);
    NextIdUnused(s);
  }

  /** Some writes, then a flush. */
  lemma FlushWrites(actions: seq<Action>, s: State, ops: seq<Operation>, run: Run)
    returns (more: seq<Action>, next: State, t: Table)
    requires Rests(actions, s) && s.levels != [] && run != []
    requires forall i :: 0 <= i < |ops| ==> ops[i].key != []
    requires Replayed(ops) == run
    ensures Rests(more, next) && t.run == run && t.size == 0
    ensures next.levels == s.levels[0 := [t] + s.levels[0]]
  {
    hide Legal, RunOf, Replayed, Listed;
    Fresh(actions, s);
    var a1, s1 := WriteAll(actions, s, ops);
    FlushRun(TinyOptions(), a1, s1, 0);
    more, next := a1 + FlushActions(0), Flushed(s1, 0);
    t := Table(s.catalog.nextId, run, 0);
  }

  lemma {:induction false} WriteAll(actions: seq<Action>, s: State, ops: seq<Operation>)
    returns (more: seq<Action>, next: State)
    requires Rests(actions, s) && forall i :: 0 <= i < |ops| ==> ops[i].key != []
    ensures Legal(TinyOptions(), more) && RunOf(TinyOptions(), more) == Ok(next)
    ensures next == s.(wal := ops, mem := Replayed(ops))
  {
    hide Legal, RunOf;
    if ops == [] {
      more, next := actions, s;
    } else {
      var n := |ops| - 1;
      var a, t := WriteAll(actions, s, ops[..n]);
      more, next := After(TinyOptions(), a, t, Write(ops[n]));
      assert ops == ops[..n] + [ops[n]];
    }
  }

  /** A compaction up to its output file. */
  lemma Build(actions: seq<Action>, s: State, job: Job, size: nat) returns (more: seq<Action>, next: State)
    requires Rests(actions, s) && Pick(s.levels, TinyOptions()) == Some(job)
    ensures Legal(TinyOptions(), more) && RunOf(TinyOptions(), more) == Ok(next)
    ensures var output := Table(s.catalog.nextId, MergedRun(s.levels, job, TinyOptions()), size);
            next.compact == CompactBuilt(s.levels, job, output)
    ensures next.levels == s.levels && next.flush.FlushIdle? && next.mem == [] && next.wal == []
    ensures next.options == TinyOptions()
  {
    hide Legal, RunOf, Pick, MergedRun, TinyOptions;
    var a1, s1 := After(TinyOptions(), actions, s, CompactBegin);
    var a2, s2 := After(TinyOptions(), a1, s1, CompactAllocate);
    more, next := After(TinyOptions(), a2, s2, CompactBuild(size));
  }

  /** A whole compaction. */
  lemma Compact(actions: seq<Action>, s: State, job: Job) returns (more: seq<Action>, next: State, output: Table)
    requires Rests(actions, s) && Pick(s.levels, TinyOptions()) == Some(job)
    ensures Rests(more, next) && output == Table(s.catalog.nextId, MergedRun(s.levels, job, TinyOptions()), 0)
    ensures next.levels == Installed(s.levels, job, output)
  {
    hide Legal, RunOf, Pick, MergedRun, Installed, LogSteps;
    var building, built := Build(actions, s, job, 0);
    output := built.compact.output;
    LogReached(TinyOptions(), building, |job.inputs|);
    var logged := RunOf(TinyOptions(), building + LogSteps(|job.inputs|)).value;
    more, next := After(TinyOptions(), building + LogSteps(|job.inputs|), logged, CompactInstall);
  }

  // ----- the run -----

  lemma OldReplayed()
    ensures Replayed([Put(SECOND, OLD)]) == OldRun()
  {
    var ops := [Put(SECOND, OLD)];
    assert ops[..0] == [];
  }

  lemma NewReplayed()
    ensures Replayed([Put(FIRST, OLD), Put(SECOND, NEW)]) == NewRun()
  {
    var ops := [Put(FIRST, OLD), Put(SECOND, NEW)];
    assert ops[..1] == [Put(FIRST, OLD)] && ops[..1][..0] == [];
    var one: Run := [(FIRST, Runs.Value(OLD))];
    assert Replayed(ops[..1]) == one;
    assert one[1..] == [] && !Lt(SECOND, FIRST);
    assert Upserted([], SECOND, Runs.Value(NEW)) == [(SECOND, Runs.Value(NEW))];
  }

  /** One table in L0 is compacted with whatever it overlaps in L1. */
  lemma PicksL0(t: Table, below: seq<Table>)
    requires (t.run == OldRun() && below == []) || (t.run == NewRun() && |below| == 1 && below[0].run == OldRun())
    ensures Pick([[t], below, []], TinyOptions()) == Some(Job([t] + below, 1, 1))
  {
    var span := Span([t]);
    LtTrichotomy(FIRST, SECOND, SECOND);
    LtTrichotomy(SECOND, SECOND, SECOND);
    assert Overlapping([], span.0, span.1) == [];
    if below != [] {
      assert below == [below[0]];
      assert Overlaps(below[0], span.0, span.1);
      assert Overlapping(below, span.0, span.1) == [below[0]];
    }
  }

  /** The old value in L1. */
  lemma OldBelow() returns (actions: seq<Action>, s: State, below: Table)
    ensures Rests(actions, s) && s.levels == [[], [below], []] && below.run == OldRun() && below.size == 0
  {
    hide Legal, RunOf, Pick, Installed;
    var s0 := Opened(TinyOptions());
    assert s0.levels == [[], [], []];
    EmptyRun();
    OldReplayed();
    var a1, s1, t := FlushWrites([], s0, [Put(SECOND, OLD)], OldRun());
    assert [t] + [] == [t];
    assert s1.levels == [[t], [], []];
    PicksL0(t, []);
    actions, s, below := Compact(a1, s1, Job([t], 1, 1));
    OldMerged(t, DropsTombstones(s1.levels, Job([t], 1, 1), TinyOptions()));
    MovesDown(t, below);
  }

  lemma EmptyRun()
    ensures Rests([], Opened(TinyOptions()))
  {
  }

  lemma OldMerged(t: Table, dropTombstones: bool)
    requires t.run == OldRun()
    ensures Merging.Merged([t], dropTombstones) == OldRun()
  {
    hide Sorted;
    forall key
      ensures FirstIn([t], key) == Lookup(OldRun(), key) && Lookup(OldRun(), key) != Some(Tombstone)
    {
      RunLookups(key);
      assert [t][1..] == [];
    }
    RunLookups([]);
    MergedIs([t], OldRun(), dropTombstones);
  }

  lemma MovesDown(t: Table, output: Table)
    ensures Installed([[t], [], []], Job([t], 1, 1), output) == [[], [output], []]
  {
    var ids := Ids([t]);
    assert t in [t];
    RetainNothing([t], ids);
    assert Retain([], ids) == [];
    assert [] + [output] == [output];
    assert SortBySmallest([output]) == [output];
  }

  lemma NewMerged(t: Table, below: Table, dropTombstones: bool)
    requires t.run == NewRun() && below.run == OldRun()
    ensures forall key :: FirstIn([t, below], key) == Lookup(NewRun(), key)
    ensures Merging.Merged([t, below], dropTombstones) == NewRun()
  {
    hide Sorted;
    forall key
      ensures FirstIn([t, below], key) == Lookup(NewRun(), key) && Lookup(NewRun(), key) != Some(Tombstone)
    {
      RunLookups(key);
      var tables, last: seq<Table> := [t, below], [below];
      assert tables[1..] == last && last[1..] == [];
      assert FirstIn(last, key) == Lookup(below.run, key);
    }
    RunLookups([]);
    MergedIs([t, below], NewRun(), dropTombstones);
  }

  /** The new values in an L0 table, their merge with the old one built, its add record and one removal logged. */
  lemma Interrupting() returns (actions: seq<Action>, s: State, t: Table, below: Table)
    ensures Legal(TinyOptions(), actions) && RunOf(TinyOptions(), actions) == Ok(s)
    ensures s.options == TinyOptions() && s.mem == [] && s.wal == [] && s.flush.FlushIdle?
    ensures s.levels == [[t], [below], []] && t.run == NewRun() && below.run == OldRun() && below.size == 0
    ensures s.compact.CompactLogging? && s.compact.removed == 1 && s.compact.job == Job([t, below], 1, 1)
    ensures s.compact.output.run == NewRun() && s.compact.output.size == 5
  {
    hide Legal, RunOf, Pick, LogSteps;
    var a0, s0;
    a0, s0, below := OldBelow();
    NewReplayed();
    var a1, s1;
    a1, s1, t := FlushWrites(a0, s0, [Put(FIRST, OLD), Put(SECOND, NEW)], NewRun());
    assert [t] + [] == [t] && s1.levels == [[t], [below], []];
    PicksL0(t, [below]);
    var job := Job([t, below], 1, 1);
    assert [t] + [below] == [t, below];
    var a2, s2 := Build(a1, s1, job, 5);
    NewMerged(t, below, DropsTombstones(s1.levels, job, TinyOptions()));
    LogReached(TinyOptions(), a2, 1);
    actions, s := a2 + LogSteps(1), RunOf(TinyOptions(), a2 + LogSteps(1)).value;
  }

  // ----- the first read after the crash -----

  lemma FirstReads(s: State, t: Table, below: Table, key: Key)
    requires s.levels == [[t], [below], []] && t.run == NewRun() && below.run == OldRun()
    requires s.compact.CompactLogging? && s.compact.job == Job([t, below], 1, 1)
    requires s.compact.output.run == NewRun()
    ensures ShownAfter(s.compact.job, s.compact.output, 1, key) == FirstIn(s.compact.job.inputs, key)
  {
    var job, output := s.compact.job, s.compact.output;
    NewMerged(t, below, false);
    RunLookups(key);
    var left: seq<Table> := [below];
    assert UpperLeft(job, 1) == [] && LowerLeft(job, 1) == left && left[1..] == [];
    assert Smallest(output.run) == FIRST && Smallest(below.run) == SECOND;
    LtTrichotomy(FIRST, SECOND, SECOND);
  }

  lemma Harmless(actions: seq<Action>, s: State, t: Table, below: Table)
    requires Legal(TinyOptions(), actions) && RunOf(TinyOptions(), actions) == Ok(s)
    requires s.levels == [[t], [below], []] && t.run == NewRun() && below.run == OldRun()
    requires s.compact.CompactLogging? && s.compact.removed == 1 && s.compact.job == Job([t, below], 1, 1)
    requires s.compact.output.run == NewRun()
    ensures Reopened(s).Ok? && forall key :: Get(Reopened(s).value, key) == Get(s, key)
  {
    hide Legal, RunOf, Inv, OrderOk, Reopened, Get, AtStake, ShownAfter;
    RunsMatchReference(TinyOptions(), actions);
    RunsKeepOrder(TinyOptions(), actions);
    InterruptedReads(s, []);
    forall key
      ensures Get(Reopened(s).value, key) == Get(s, key)
    {
      InterruptedReads(s, key);
      FirstReads(s, t, below, key);
    }
  }

  /** Reopening finds the output in front of the old table. */
  lemma OutputInFront(actions: seq<Action>, s: State, t: Table, below: Table)
    requires Legal(TinyOptions(), actions) && RunOf(TinyOptions(), actions) == Ok(s)
    requires s.levels == [[t], [below], []] && s.flush.FlushIdle? && below.run == OldRun()
    requires s.compact.CompactLogging? && s.compact.removed == 1 && s.compact.job == Job([t, below], 1, 1)
    requires s.compact.output.run == NewRun()
    ensures RecoveredLevels(s.catalog, s.files, s.options.maxLevels) == [[], [s.compact.output, below], []]
    ensures s.compact.output.id != below.id
    ensures !Listed(s.catalog, s.catalog.nextId)
  {
    hide Legal, RunOf, Inv, OrderOk, RecoveredLevels, Get, SortBySmallest, Durable, Listed;
    RunsMatchReference(TinyOptions(), actions);
    RunsKeepOrder(TinyOptions(), actions);
    NextIdUnused(s);
    RecoveredIs(s);
    DistinctIds(s, t, below);
    DurableIs(s, t, below);
    OneSorted();
    OutputSorts(s.compact.output, below);
  }

  lemma OneSorted()
    ensures SortBySmallest([]) == []
  {
  }

  lemma OutputSorts(output: Table, below: Table)
    requires output.run == NewRun() && below.run == OldRun()
    ensures SortBySmallest([below, output]) == [output, below]
  {
    var tables, one: seq<Table> := [below, output], [below];
    assert tables[..1] == one && one[..0] == [];
    assert SortBySmallest(one) == one;
    assert Lt(Smallest(output.run), Smallest(below.run));
    assert InsertBySmallest([], output) == [output];
  }

  lemma DistinctIds(s: State, t: Table, below: Table)
    requires Inv(s) && s.levels == [[t], [below], []] && s.compact.CompactLogging?
    ensures t.id != below.id && s.compact.output.id != below.id && s.compact.output.id != t.id
  {
    hide LogOk, FlushOk, DiskOk, LevelIdsOk, JobOk, CatalogOk, CoherentOk;
    assert t in s.levels[0] && below in s.levels[1];
  }

  lemma DurableIs(s: State, t: Table, below: Table)
    requires s.levels == [[t], [below], []] && s.flush.FlushIdle?
    requires s.compact.CompactLogging? && s.compact.removed == 1 && s.compact.job == Job([t, below], 1, 1)
    requires t.id != below.id && s.compact.output.id != t.id
    ensures Durable(s.levels, s.flush, s.compact) == [[], [below, s.compact.output], []]
  {
    hide Retain;
    var output := s.compact.output;
    var gone: seq<Table> := [t];
    assert s.compact.job.inputs[..1] == gone && Ids(gone) == {t.id};
    RetainNothing([t], {t.id});
    RetainUnchanged([below, output], {t.id});
    RetainNothing([], {t.id});
    assert [below] + [output] == [below, output];
  }

  // ----- what happens next -----

  /** The steps lead from one state to the other. */
  ghost predicate Follows(s: State, actions: seq<Action>, t: State)
    decreases |actions|
  {
    if actions == [] then s == t
    else Ready(s, actions[0]) && Do(s, actions[0]).Ok? && Follows(Do(s, actions[0]).value, actions[1..], t)
  }

  lemma FollowsOne(s: State, a: Action, rest: seq<Action>, t: State)
    requires Ready(s, a) && Do(s, a).Ok? && Follows(Do(s, a).value, rest, t)
    ensures Follows(s, [a] + rest, t)
  {
    hide Ready, Do;
    assert ([a] + rest)[1..] == rest;
  }

  lemma PicksOutput(output: Table, below: Table)
    requires output.size == 5 && below.size == 0
    ensures Pick([[], [output, below], []], TinyOptions()) == Some(Job([output], 1, 2))
  {
    var tables, one: seq<Table> := [output, below], [output];
    assert tables[..|tables| - 1] == one && one[..|one| - 1] == [];
    assert TotalSize(one) == 5;
    assert TotalSize(tables) == 5;
    assert Overlapping([], Smallest(output.run), Largest(output.run)) == [];
    assert [output] + [] == [output];
  }

  const ONE_COMPACTION: seq<Action> :=
    [CompactBegin, CompactAllocate, CompactBuild(0), CompactLogAdd, CompactLogRemove, CompactInstall]

  /** The output moves down alone, and leaves the old table on top of itself. */
  lemma OutputMovesDown(r: State, output: Table, below: Table) returns (t: State)
    requires r.options == TinyOptions() && Idle(r) && r.mem == [] && r.wal == []
    requires r.levels == [[], [output, below], []] && output.size == 5 && below.size == 0 && output.id != below.id
    requires !Listed(r.catalog, r.catalog.nextId)
    ensures Follows(r, ONE_COMPACTION, t)
    ensures t.mem == [] && t.flush.FlushIdle? && |t.levels| == 3 && t.levels[0] == [] && t.levels[1] == [below]
  {
    hide Pick, MergedRun, Installed;
    var job := Job([output], 1, 2);
    PicksOutput(output, below);
    var r1 := Do(r, CompactBegin).value;
    var r2 := Do(r1, CompactAllocate).value;
    var r3 := Do(r2, CompactBuild(0)).value;
    var r4 := Do(r3, CompactLogAdd).value;
    var r5 := Do(r4, CompactLogRemove).value;
    t := Do(r5, CompactInstall).value;
    OutputInstalled(output, below, r3.compact.output);
    hide Do, Ready;
    FollowsOne(r5, CompactInstall, [], t);
    FollowsOne(r4, CompactLogRemove, [CompactInstall], t);
    FollowsOne(r3, CompactLogAdd, [CompactLogRemove, CompactInstall], t);
    FollowsOne(r2, CompactBuild(0), [CompactLogAdd, CompactLogRemove, CompactInstall], t);
    FollowsOne(r1, CompactAllocate, [CompactBuild(0), CompactLogAdd, CompactLogRemove, CompactInstall], t);
    FollowsOne(r, CompactBegin,
               [CompactAllocate, CompactBuild(0), CompactLogAdd, CompactLogRemove, CompactInstall], t);
  }

  lemma OutputInstalled(output: Table, below: Table, moved: Table)
    requires output.id != below.id
    ensures var after := Installed([[], [output, below], []], Job([output], 1, 2), moved);
            |after| == 3 && after[0] == [] && after[1] == [below]
  {
    hide Retain, SortBySmallest;
    var ids := Ids([output]);
    assert output in [output] && ids == {output.id};
    RetainNothing([], ids);
    assert [output, below] == [output] + [below];
    RetainConcat([output], [below], ids);
    RetainNothing([output], ids);
    RetainUnchanged([below], ids);
  }

  /**
   * A run that dies between two removals, and reopens with every key as it was.
   * The next compaction brings an overwritten value back: what reads right once
   * is not safe for good.
   */
  lemma HarmlessIsNotLasting() returns (actions: seq<Action>, s: State, t: State)
    ensures Legal(TinyOptions(), actions) && RunOf(TinyOptions(), actions) == Ok(s) && MidRemoval(s)
    ensures Reopened(s).Ok? && forall key :: Get(Reopened(s).value, key) == Get(s, key)
    ensures Follows(Reopened(s).value, ONE_COMPACTION, t)
    ensures Get(s, SECOND) == Some(NEW) && Get(t, SECOND) == Some(OLD)
    ensures !Lasting(s)
  {
    hide Legal, RunOf, Follows, RecoveredLevels, Listed, Lasting, Get;
    var top, below;
    actions, s, top, below := Interrupting();
    Harmless(actions, s, top, below);
    OutputInFront(actions, s, top, below);
    t := OutputMovesDown(Reopened(s).value, s.compact.output, below);
    ReadsNew(s, top, below);
    ReadsOld(t, below);
    NotLasting(s, top, below);
  }

  lemma ReadsNew(s: State, top: Table, below: Table)
    requires s.levels == [[top], [below], []] && top.run == NewRun() && s.mem == [] && s.flush.FlushIdle?
    ensures Get(s, SECOND) == Some(NEW)
  {
    RunLookups(SECOND);
    assert FirstIn([top], SECOND) == Lookup(top.run, SECOND);
  }

  lemma ReadsOld(t: State, below: Table)
    requires t.mem == [] && t.flush.FlushIdle? && |t.levels| == 3 && t.levels[0] == [] && t.levels[1] == [below]
    requires below.run == OldRun()
    ensures Get(t, SECOND) == Some(OLD)
  {
    RunLookups(SECOND);
    assert FirstIn([below], SECOND) == Lookup(below.run, SECOND);
    assert LookupFrom(t.levels, 1, SECOND) == Some(Runs.Value(OLD));
  }

  lemma NotLasting(s: State, top: Table, below: Table)
    requires s.levels == [[top], [below], []] && top.run == NewRun() && below.run == OldRun() && s.wal == []
    requires s.flush.FlushIdle? && s.compact.CompactLogging? && s.compact.removed == 1
    requires s.compact.job == Job([top, below], 1, 1) && top != below
    ensures !Lasting(s)
  {
    var job := s.compact.job;
    NewMerged(top, below, false);
    RunLookups(SECOND);
    assert top in job.inputs && HeldIn(job.inputs, SECOND);
    assert UpperLeft(job, 1) == [];
    assert job.inputs[1..] == [below] && below !in job.inputs[..1];
    assert LowerRemains(job, 1, below);
    assert Exposed(s.levels, job, SECOND);
    assert !LastingAt(s.levels, job, 1, SECOND);
    hide LastingAt;
    assert Pending(s.levels, s.flush) == s.levels;
    assert Lookup(Replayed(s.wal), SECOND).None?;
  }
}
