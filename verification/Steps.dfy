/** Every step keeps the invariant, and only a write changes what a reader sees. */
module Steps {
  import opened Bytes
  import opened Wrappers
  import opened Runs
  import opened Levels
  import opened Compaction
  import opened Cuts
  import opened Picker
  import opened Install
  import opened MemTables
  import opened Manifests
  import opened Merging
  import opened Machine
  import opened Invariant
  import opened Recovery

  // ----- ids -----

  lemma NextIdUnused(s: State)
    requires Inv(s)
    ensures Absent(s.levels, s.catalog.nextId) && !Listed(s.catalog, s.catalog.nextId)
  {
    hide VersionOk, LogOk, FlushOk, ReservedOk, JobOk, CatalogOk;
  }

  lemma FlushAllocateStep(s: State)
    requires Inv(s) && Ready(s, FlushAllocate)
    ensures Unseen(s, Do(s, FlushAllocate))
  {
    hide VersionOk, JobOk, SameTables, CatalogLevels, Rewritten, Absent;
    NextIdUnused(s);
  }

  lemma CompactAllocateStep(s: State)
    requires Inv(s) && Ready(s, CompactAllocate)
    ensures Unseen(s, Do(s, CompactAllocate))
  {
    hide VersionOk, LogOk, FlushOk, SameTables, CatalogLevels, Rewritten, Absent;
    NextIdUnused(s);
  }

  lemma CompactBeginStep(s: State)
    requires Inv(s) && Ready(s, CompactBegin)
    ensures Unseen(s, Do(s, CompactBegin))
  {
    hide LogOk, FlushOk, SameTables, CatalogLevels, Absent, DiskOk, LevelIdsOk, Pick, Picked, WellFormed, Identified;
    PickIsPicked(s.levels, s.options);
    assert s.levels[0][0..] == s.levels[0];
  }

  // ----- flush -----

  lemma FlushWriteStep(s: State, size: nat)
    requires Inv(s) && Ready(s, FlushWrite(size))
    ensures Unseen(s, Do(s, FlushWrite(size)))
  {
    hide VersionOk, JobOk, SameTables, CatalogLevels, Rewritten, Absent;
    var table := Table(s.flush.step.id, s.flush.frozen, size);
    CatalogOtherFile(s.catalog.tables, s.files, table, s.options.maxLevels);
  }

  /** The inputs of the compaction in flight are in the version. */
  lemma InputsInLevels(options: Options, levels: Levels, compact: CompactPhase, t: Table)
    requires JobOk(options, levels, compact) && !compact.CompactIdle? && t in compact.job.inputs
    ensures 1 <= compact.job.outputLevel < |levels|
    ensures t in levels[compact.job.outputLevel - 1] || t in levels[compact.job.outputLevel]
  {
    var base, job := compact.base, compact.job;
    var upper := job.inputs[..job.upper];
    assert job.inputs == upper + job.inputs[job.upper..];
    OverlappingMembers(base[job.outputLevel], Span(upper).0, Span(upper).1);
    if t in upper && job.outputLevel == 1 {
      assert t in levels[0][|levels[0]| - |base[0]|..];
    }
  }

  lemma AbsentFromInputs(options: Options, levels: Levels, compact: CompactPhase, id: nat)
    requires JobOk(options, levels, compact) && !compact.CompactIdle? && Absent(levels, id)
    ensures id !in Ids(compact.job.inputs)
  {
    hide JobOk;
    if id in Ids(compact.job.inputs) {
      var t :| t in compact.job.inputs && t.id == id;
      InputsInLevels(options, levels, compact, t);
    }
  }

  /** A flush logged beside a finished compaction log. */
  lemma DurableNewest(options: Options, levels: Levels, flush: FlushPhase, compact: CompactPhase, t: Table)
    requires JobOk(options, levels, compact) && Absent(levels, t.id) && |levels| >= 2
    requires flush.Flushing? && !flush.step.Logged?
    ensures Durable(levels, flush.(step := Logged(t)), compact) == WithNewest(Durable(levels, flush, compact), t)
  {
    hide Absent, Rewritten, WithNewest;
    if compact.CompactLogging? {
      AbsentFromInputs(options, levels, compact, t.id);
      assert t.id !in Ids(compact.job.inputs[..compact.removed]);
      RewrittenNewest(levels, compact.job.outputLevel, compact.output, Ids(compact.job.inputs[..compact.removed]), t);
    }
  }

  lemma FlushLogStep(s: State)
    requires Inv(s) && Ready(s, FlushLog)
    ensures Unseen(s, Do(s, FlushLog))
  {
    hide WellFormed, Identified, JobOk, SameTables, CatalogLevels, Durable, Absent;
    var t := s.flush.step.table;
    DurableNewest(s.options, s.levels, s.flush, s.compact, t);
    CatalogAdded(s.catalog.tables, s.files, t.id, 0, s.options.maxLevels);
    SameAdded(Durable(s.levels, s.flush, s.compact), CatalogLevels(s.catalog.tables, s.files, s.options.maxLevels),
              0, t);
  }

  // ----- a new table in L0 -----

  lemma NewestAnswer(levels: Levels, t: Table, key: Key)
    requires levels != []
    ensures LookupFrom(WithNewest(levels, t), 0, key) ==
            if Holds(t, key) then Lookup(t.run, key) else LookupFrom(levels, 0, key)
  {
    var next := WithNewest(levels, t);
    FirstInConcat([t], levels[0], key);
    SameFrom(levels, next, 1, key);
  }

  lemma NewestHeld(levels: Levels, t: Table, i: nat, key: Key)
    requires i < |levels| && HeldIn(levels[i], key)
    ensures HeldIn(WithNewest(levels, t)[i], key)
  {
    var u :| u in levels[i] && Holds(u, key);
    assert u in WithNewest(levels, t)[i];
  }

  /** A new table on top keeps a key coherent, and makes every key it holds so. */
  lemma NewestCoherent(levels: Levels, t: Table, key: Key)
    requires CoherentAt(levels, key) || Holds(t, key)
    ensures CoherentAt(WithNewest(levels, t), key)
  {
    var next := WithNewest(levels, t);
    forall i, x, y |
      1 <= i < |next| && x in next[i] && y in next[i] && Holds(x, key) && Holds(y, key)
      ensures Lookup(x.run, key) == Lookup(y.run, key) || HeldAbove(next, i, key)
    {
      if Holds(t, key) {
        assert t in next[0] && HeldIn(next[0], key);
      } else if HeldAbove(levels, i, key) {
        var j :| 0 <= j < i && HeldIn(levels[j], key);
        NewestHeld(levels, t, j, key);
      }
    }
  }

  lemma NewestVersionOk(options: Options, levels: Levels, t: Table)
    requires VersionOk(options, levels) && ProperRun(t.run) && Absent(levels, t.id)
    ensures VersionOk(options, WithNewest(levels, t))
  {
    hide ProperRun, Identified;
    NewestIdentified(levels, t);
  }

  lemma NewestIdentified(levels: Levels, t: Table)
    requires Identified(levels) && Absent(levels, t.id)
    ensures Identified(WithNewest(levels, t))
  {
    if levels != [] {
      var next: Levels := WithNewest(levels, t);
      forall i, j | 0 <= i < j < |next[0]|
        ensures next[0][i].id != next[0][j].id
      {
        assert next[0][j] == levels[0][j - 1] && levels[0][j - 1] in levels[0];
      }
      hide Identified, Absent, WithNewest;
      forall i, j, u: Table, v: Table |
        0 <= i < |next| && 0 <= j < |next| && u in next[i] && v in next[j] && u.id == v.id
        ensures i == j && u == v
      {
        NewestUnique(levels, t, i, j, u, v);
      }
      Pairwise(next);
    }
  }

  lemma Pairwise(levels: Levels)
    requires forall i, j, t, u ::
               0 <= i < |levels| && 0 <= j < |levels| && t in levels[i] && u in levels[j] && t.id == u.id ==>
                 i == j && t == u
    requires |levels| > 0 ==> forall i, j :: 0 <= i < j < |levels[0]| ==> levels[0][i].id != levels[0][j].id
    ensures Identified(levels)
  {
  }

  lemma NewestUnique(levels: Levels, t: Table, i: nat, j: nat, u: Table, v: Table)
    requires Identified(levels) && Absent(levels, t.id) && i < |levels| && j < |levels|
    requires u in WithNewest(levels, t)[i] && v in WithNewest(levels, t)[j] && u.id == v.id
    ensures i == j && u == v
  {
    hide WithNewest;
    NewestOrOld(levels, t, i, u);
    NewestOrOld(levels, t, j, v);
  }

  lemma NewestOrOld(levels: Levels, t: Table, i: nat, u: Table)
    requires i < |levels| && u in WithNewest(levels, t)[i]
    ensures u in levels[i] || (i == 0 && u == t)
  {
  }

  lemma NewestExtends(levels: Levels, base: Levels, t: Table)
    requires Extends(levels, base)
    ensures Extends(WithNewest(levels, t), base)
  {
    var next := WithNewest(levels, t);
    assert next[0][|next[0]| - |base[0]|..] == levels[0][|levels[0]| - |base[0]|..];
  }

  lemma NewestJobOk(options: Options, levels: Levels, compact: CompactPhase, t: Table)
    requires JobOk(options, levels, compact)
    ensures JobOk(options, WithNewest(levels, t), compact)
  {
    hide Extends, Picked, WellFormed, MergedRun;
    if !compact.CompactIdle? {
      NewestExtends(levels, compact.base, t);
    }
  }

  lemma FlushInstallStep(s: State)
    requires Inv(s) && Ready(s, FlushInstall)
    ensures Unseen(s, Do(s, FlushInstall))
  {
    hide VersionOk, JobOk, SameTables, CatalogLevels, Rewritten, DiskOk, Listed, CoherentAt;
    var t, next := s.flush.step.table, Do(s, FlushInstall).value;
    NewestVersionOk(s.options, s.levels, t);
    NewestJobOk(s.options, s.levels, s.compact, t);
    NotEmpty(s.options, s.levels);
    forall key
      ensures CoherentAt(next.levels, key)
    {
      NewestCoherent(s.levels, t, key);
    }
    forall key
      ensures LookupFrom(next.levels, 0, key) ==
              if Lookup(t.run, key).Some? then Lookup(t.run, key) else LookupFrom(s.levels, 0, key)
    {
      NewestAnswer(s.levels, t, key);
    }
  }

  lemma NotEmpty(options: Options, levels: Levels)
    requires VersionOk(options, levels)
    ensures |levels| == options.maxLevels >= 2
  {
  }

  // ----- building and logging a compaction -----

  lemma CompactBuildStep(s: State, size: nat)
    requires Inv(s) && Ready(s, CompactBuild(size))
    ensures Unseen(s, Do(s, CompactBuild(size)))
  {
    hide VersionOk, LogOk, FlushOk, SameTables, CatalogLevels, Absent, Picked, WellFormed, Extends, MergedRun;
    var output := Table(s.compact.id, MergedRun(s.compact.base, s.compact.job, s.options), size);
    MergedRunAnswers(s.options, s.levels, s.compact);
    CatalogOtherFile(s.catalog.tables, s.files, output, s.options.maxLevels);
  }

  /** The merge of the inputs is a proper run and answers as the newest input. */
  lemma MergedRunAnswers(options: Options, levels: Levels, compact: CompactPhase)
    requires JobOk(options, levels, compact) && !compact.CompactIdle?
    ensures ProperRun(MergedRun(compact.base, compact.job, options))
    ensures forall key :: Lookup(MergedRun(compact.base, compact.job, options), key) ==
              Surviving(FirstIn(compact.job.inputs, key), DropsTombstones(compact.base, compact.job, options))
  {
    hide Sorted, Merged, DropsTombstones;
    PickedFitsRuns(compact.base, compact.job);
    var drop := DropsTombstones(compact.base, compact.job, options);
    MergedAnswers(compact.job.inputs, drop, []);
    forall key
      ensures Lookup(Merged(compact.job.inputs, drop), key) == Surviving(FirstIn(compact.job.inputs, key), drop)
    {
      MergedAnswers(compact.job.inputs, drop, key);
    }
  }

  /** Two tables with entries, neither wholly before the other. */
  ghost predicate Meet(t: Table, u: Table)
  {
    && t.run != [] && u.run != []
    && !Lt(t.run[|t.run| - 1].0, u.run[0].0) && !Lt(u.run[|u.run| - 1].0, t.run[0].0)
  }

  /** Below the output level, no key range meets the key range of an input. */
  ghost predicate NothingBelow(levels: Levels, job: Job)
  {
    forall i, t, u :: job.outputLevel < i < |levels| && t in levels[i] && u in job.inputs ==> !Meet(t, u)
  }

  /**
   * The entries a compaction writes: the winning entry of every key, except that winning tombstones are
   * left out exactly if the output level is the last one or no range below it meets a range of an input.
   */
  lemma TombstonesGoExactly(levels: Levels, job: Job, options: Options, key: Key)
    requires WellFormed(levels) && Picked(levels, job)
    ensures var run, last := MergedRun(levels, job, options), job.outputLevel + 1 >= options.maxLevels;
            && (last || NothingBelow(levels, job) ==> forall i :: 0 <= i < |run| ==> run[i].1 != Tombstone)
            && (!last && !NothingBelow(levels, job) ==> Lookup(run, key) == FirstIn(job.inputs, key))
            && (FirstIn(job.inputs, key) != Some(Tombstone) ==> Lookup(run, key) == FirstIn(job.inputs, key))
  {
    hide Sorted, Merged, Lt, FirstIn, Lookup, Picked, LowerOverlap, NothingBelow;
    PickedFitsRuns(levels, job);
    OverlapIsRanges(levels, job);
    var drop := DropsTombstones(levels, job, options);
    var run := Merged(job.inputs, drop);
    MergedAnswers(job.inputs, drop, key);
    if drop {
      forall i | 0 <= i < |run|
        ensures run[i].1 != Tombstone
      {
        MergedAnswers(job.inputs, drop, run[i].0);
        LookupAt(run, i);
      }
    }
  }

  /** What the code tests for is that two key ranges meet. */
  lemma OverlapIsRanges(levels: Levels, job: Job)
    requires WellFormed(levels) && forall u :: u in job.inputs ==> ProperRun(u.run)
    ensures LowerOverlap(levels, job) <==> !NothingBelow(levels, job)
  {
    hide Lt, Overlaps, ProperRun, Meet, Smallest, Largest;
    forall i, a, b | job.outputLevel < i < |levels| && 0 <= a < |levels[i]| && 0 <= b < |job.inputs|
      ensures var t, u := levels[i][a], job.inputs[b];
              Overlaps(t, Smallest(u.run), Largest(u.run)) <==> Meet(t, u)
    {
      RangesMeet(levels[i][a], job.inputs[b]);
    }
    if !NothingBelow(levels, job) {
      var i, t, u :| job.outputLevel < i < |levels| && t in levels[i] && u in job.inputs && Meet(t, u);
      var a :| 0 <= a < |levels[i]| && levels[i][a] == t;
      var b :| 0 <= b < |job.inputs| && job.inputs[b] == u;
      assert Overlaps(levels[i][a], Smallest(job.inputs[b].run), Largest(job.inputs[b].run));
    }
  }

  lemma RangesMeet(t: Table, u: Table)
    requires ProperRun(t.run) && ProperRun(u.run)
    ensures Overlaps(t, Smallest(u.run), Largest(u.run)) <==> Meet(t, u)
  {
    hide Lt, Sorted, Overlaps;
    OverlapsExactly(t, Smallest(u.run), Largest(u.run));
    if t.run != [] && u.run == [] {
      LtTrichotomy(t.run[0].0, [], []);
    }
  }

  lemma OutputLevelInRange(options: Options, levels: Levels, compact: CompactPhase)
    requires JobOk(options, levels, compact) && !compact.CompactIdle?
    ensures 1 <= compact.job.outputLevel < |levels|
  {
  }

  lemma LoggingRange(s: State)
    requires Inv(s) && (s.compact.CompactBuilt? || s.compact.CompactLogging?)
    ensures 1 <= s.compact.job.outputLevel < |s.levels| && s.compact.job.upper <= |s.compact.job.inputs|
    ensures s.compact.CompactLogging? ==> s.compact.removed <= |s.compact.job.inputs|
  {
    hide VersionOk, LogOk, FlushOk, DiskOk, LevelIdsOk, ReservedOk, CatalogOk, CoherentOk;
  }

  lemma CompactLogAddStep(s: State)
    requires Inv(s) && Ready(s, CompactLogAdd)
    ensures Unseen(s, Do(s, CompactLogAdd))
  {
    hide VersionOk, WellFormed, LogOk, FlushOk, SameTables, CatalogLevels, Absent, Extends, MergedRun, Rewritten,
         Picked, Pending;
    NotEmpty(s.options, s.levels);
    OutputLevelInRange(s.options, s.levels, s.compact);
    var job, output, pending := s.compact.job, s.compact.output, Pending(s.levels, s.flush);
    RewrittenAdds(pending, job.outputLevel, output);
    assert Ids(job.inputs[..0]) == {};
    CatalogAdded(s.catalog.tables, s.files, output.id, job.outputLevel, s.options.maxLevels);
    SameAdded(pending, CatalogLevels(s.catalog.tables, s.files, s.options.maxLevels), job.outputLevel, output);
  }

  lemma {:induction false} DroppedMembers(tables: seq<(nat, nat)>, id: nat)
    ensures forall x :: x in Dropped(tables, id) <==> x in tables && x.0 != id
  {
    if tables == [] {
    } else {
      var n := |tables| - 1;
      DroppedMembers(tables[..n], id);
      assert tables == tables[..n] + [tables[n]];
    }
  }

  lemma {:induction false} DroppedOnce(tables: seq<(nat, nat)>, id: nat)
    requires forall i, j :: 0 <= i < j < |tables| ==> tables[i].0 != tables[j].0
    ensures forall i, j :: 0 <= i < j < |Dropped(tables, id)| ==> Dropped(tables, id)[i].0 != Dropped(tables, id)[j].0
  {
    if tables == [] {
    } else {
      var n := |tables| - 1;
      var rest := Dropped(tables[..n], id);
      DroppedOnce(tables[..n], id);
      DroppedMembers(tables[..n], id);
      forall i | 0 <= i < |rest|
        ensures rest[i].0 != tables[n].0
      {
        assert rest[i] in tables[..n];
      }
    }
  }

  lemma DroppedDiskOk(catalog: Catalog, files: map<nat, Table>, n: nat, id: nat)
    requires DiskOk(catalog, files, n)
    ensures DiskOk(WithoutTable(catalog, id), files, n)
    ensures forall x :: Listed(WithoutTable(catalog, id), x) ==> Listed(catalog, x)
  {
    DroppedMembers(catalog.tables, id);
    DroppedOnce(catalog.tables, id);
    var next := WithoutTable(catalog, id);
    assert forall i :: 0 <= i < |next.tables| ==> next.tables[i] in catalog.tables;
  }

  /** One removal record, on the manifest and on the version it describes. */
  lemma RemovedCatalogOk(s: State)
    requires CatalogOk(s) && s.compact.CompactLogging? && s.compact.removed < |s.compact.job.inputs|
    requires forall id :: id in s.files ==> s.files[id].id == id
    ensures CatalogOk(s.(catalog := WithoutTable(s.catalog, s.compact.job.inputs[s.compact.removed].id),
                         compact := s.compact.(removed := s.compact.removed + 1)))
  {
    hide SameTables, CatalogLevels, Rewritten, Pending;
    var job, output, j, pending := s.compact.job, s.compact.output, s.compact.removed, Pending(s.levels, s.flush);
    var id, n := job.inputs[j].id, s.options.maxLevels;
    assert job.inputs[..j + 1] == job.inputs[..j] + [job.inputs[j]];
    assert Ids(job.inputs[..j + 1]) == Ids(job.inputs[..j]) + {id};
    RewrittenRemoves(pending, job.outputLevel, output, Ids(job.inputs[..j]), id);
    CatalogDropped(s.catalog.tables, s.files, id, n);
    SameFiltered(Durable(s.levels, s.flush, s.compact), CatalogLevels(s.catalog.tables, s.files, n), {id});
  }

  lemma CompactLogRemoveStep(s: State)
    requires Inv(s) && Ready(s, CompactLogRemove)
    ensures Unseen(s, Do(s, CompactLogRemove))
  {
    hide VersionOk, LogOk, FlushOk, CatalogOk, Absent, Extends, MergedRun, Picked, WellFormed;
    RemovedCatalogOk(s);
    DroppedDiskOk(s.catalog, s.files, s.options.maxLevels, s.compact.job.inputs[s.compact.removed].id);
  }

  // ----- a version with a compaction applied to it -----

  lemma FitsExtended(levels: Levels, base: Levels, job: Job, dropTombstones: bool)
    requires Fits(base, job, dropTombstones) && Extends(levels, base)
    ensures Fits(levels, job, dropTombstones)
  {
    if job.outputLevel == 1 {
      var a, b, n := levels[0], base[0], job.upper;
      assert a[|a| - n..] == a[|a| - |b|..][|b| - n..];
    }
  }

  lemma PreparedVersion(options: Options, levels: Levels, compact: CompactPhase)
    requires VersionOk(options, levels) && JobOk(options, levels, compact)
    requires compact.CompactLogging? && Absent(levels, compact.output.id)
    ensures Prepared(levels, compact.job, compact.output, DropsTombstones(compact.base, compact.job, options))
    ensures ProperRun(compact.output.run)
  {
    hide WellFormed, Identified, Extends, Picked, Fits, MergedRun, DropsTombstones, ProperRun, Placed;
    var drop := DropsTombstones(compact.base, compact.job, options);
    ExtendsLength(levels, compact.base);
    PickedFits(compact.base, compact.job, options);
    FitsExtended(levels, compact.base, compact.job, drop);
    MergedRunAnswers(options, levels, compact);
    FitsPlaced(levels, compact.job, compact.output, drop);
    OutputLevelInRange(options, levels, compact);
    FitsUpper(levels, compact.job, drop);
  }

  lemma ExtendsLength(levels: Levels, base: Levels)
    requires Extends(levels, base)
    ensures |levels| == |base|
  {
  }

  lemma FitsUpper(levels: Levels, job: Job, dropTombstones: bool)
    requires Fits(levels, job, dropTombstones)
    ensures job.upper <= |job.inputs|
  {
  }

  lemma {:induction false} RetainDistinct(tables: seq<Table>, ids: set<nat>)
    requires forall i, j :: 0 <= i < j < |tables| ==> tables[i].id != tables[j].id
    ensures forall i, j :: 0 <= i < j < |Retain(tables, ids)| ==> Retain(tables, ids)[i].id != Retain(tables, ids)[j].id
  {
    if tables == [] {
    } else {
      RetainDistinct(tables[1..], ids);
      RetainMembers(tables[1..], ids);
      var rest := Retain(tables[1..], ids);
      forall i | 0 <= i < |rest|
        ensures rest[i].id != tables[0].id
      {
        assert rest[i] in tables[1..];
      }
    }
  }

  lemma RewrittenIdentified(levels: Levels, job: Job, output: Table, removed: seq<Table>)
    requires Placed(levels, job, output) && forall u :: u in removed ==> u in job.inputs
    ensures Identified(Rewritten(levels, job.outputLevel, output, Ids(removed)))
  {
    var after: Levels := Rewritten(levels, job.outputLevel, output, Ids(removed));
    RewrittenElsewhere(levels, job.outputLevel, output, Ids(removed), 0);
    RetainDistinct(levels[0], Ids(removed));
    hide Placed, Rewritten, Identified;
    forall i, j, t: Table, u: Table |
      0 <= i < |after| && 0 <= j < |after| && t in after[i] && u in after[j] && t.id == u.id
      ensures i == j && t == u
    {
      RewrittenUnique(levels, job, output, removed, i, j, t, u);
    }
    Pairwise(after);
  }

  lemma RewrittenUnique(levels: Levels, job: Job, output: Table, removed: seq<Table>, i: nat, j: nat, t: Table,
                        u: Table)
    requires Placed(levels, job, output) && i < |levels| && j < |levels|
    requires forall x :: x in removed ==> x in job.inputs
    requires var after := Rewritten(levels, job.outputLevel, output, Ids(removed));
             t in after[i] && u in after[j] && t.id == u.id
    ensures i == j && t == u
  {
    hide Rewritten;
    Kept(levels, job, output, removed, i);
    Kept(levels, job, output, removed, j);
  }

  /** With the output in and some of the inputs gone, the version is well formed. */
  lemma RewrittenVersionOk(options: Options, levels: Levels, compact: CompactPhase, removed: seq<Table>, nextId: nat)
    requires VersionOk(options, levels) && JobOk(options, levels, compact) && LevelIdsOk(levels, nextId)
    requires compact.CompactLogging? && Absent(levels, compact.output.id) && compact.output.id < nextId
    requires forall u :: u in removed ==> u in compact.job.inputs
    ensures var after := Rewritten(levels, compact.job.outputLevel, compact.output, Ids(removed));
            VersionOk(options, after) && LevelIdsOk(after, nextId)
  {
    hide JobOk, Fits, MergedFrom, Placed, Rewritten, ProperRun, DropsTombstones, Identified, Absent, Ids;
    var job, output := compact.job, compact.output;
    PreparedVersion(options, levels, compact);
    RewrittenIdentified(levels, job, output, removed);
    var after := Rewritten(levels, job.outputLevel, output, Ids(removed));
    forall i, t: Table | 0 <= i < |after| && t in after[i]
      ensures ProperRun(t.run) && t.id < nextId
    {
      Kept(levels, job, output, removed, i);
    }
  }

  lemma SameVersionOk(options: Options, a: Levels, b: Levels)
    requires VersionOk(options, a) && SameTables(a, b)
    ensures VersionOk(options, b)
  {
    hide ProperRun;
    forall i, t | 0 <= i < |b| && t in b[i]
      ensures t in a[i]
    {
    }
  }

  lemma SameKeeps(a: Levels, b: Levels, key: Key)
    requires SameTables(a, b)
    ensures Keeps(a, b, key)
  {
    hide SameTables, SameAt, CoherentAt;
    SameTablesAt(a, b, key);
    SameAtKeeps(a, b, key);
  }

  lemma KeepsTransitive(a: Levels, b: Levels, c: Levels, key: Key)
    requires Keeps(a, b, key) && Keeps(b, c, key)
    ensures Keeps(a, c, key)
  {
    hide CoherentAt;
  }

  // ----- installing a compaction -----

  /** What the install does to the version, whatever the flush is doing. */
  lemma InstalledVersion(options: Options, levels: Levels, compact: CompactPhase, nextId: nat)
    requires VersionOk(options, levels) && JobOk(options, levels, compact) && LevelIdsOk(levels, nextId)
    requires compact.CompactLogging? && Absent(levels, compact.output.id) && compact.output.id < nextId
    ensures var after := Installed(levels, compact.job, compact.output);
            && VersionOk(options, after)
            && LevelIdsOk(after, nextId)
            && SameTables(Partly(levels, compact.job, compact.output, 0), after)
            && forall key :: Keeps(levels, after, key)
  {
    hide VersionOk, JobOk, Absent, Installed, Rewritten, SameTables, Fits, MergedFrom, Placed, DropsTombstones,
         ProperRun, LevelIdsOk, Keeps;
    var job, output := compact.job, compact.output;
    var partly, after := Partly(levels, job, output, 0), Installed(levels, job, output);
    PreparedVersion(options, levels, compact);
    assert job.inputs[0..] == job.inputs;
    RewrittenVersionOk(options, levels, compact, job.inputs, nextId);
    InstalledIsRewritten(levels, job, output);
    SameVersionOk(options, partly, after);
    SameLevelIds(partly, after, nextId);
    forall key
      ensures Keeps(levels, after, key)
    {
      PartlyKeeps(levels, job, output, DropsTombstones(compact.base, job, options), 0, key);
      SameKeeps(partly, after, key);
      KeepsTransitive(levels, partly, after, key);
    }
  }

  /** Every table of the installed version was there or is the output. */
  lemma InstalledMembers(options: Options, levels: Levels, compact: CompactPhase, i: nat, t: Table)
    requires VersionOk(options, levels) && JobOk(options, levels, compact)
    requires compact.CompactLogging? && Absent(levels, compact.output.id)
    requires i < |levels| && t in Installed(levels, compact.job, compact.output)[i]
    ensures t in levels[i] || t == compact.output
  {
    hide VersionOk, JobOk, Absent, Installed, Rewritten, Fits, MergedFrom, Placed, DropsTombstones, ProperRun;
    var job, output := compact.job, compact.output;
    PreparedVersion(options, levels, compact);
    InstalledIsRewritten(levels, job, output);
    Kept(levels, job, output, job.inputs, i);
  }

  lemma InstalledAbsent(options: Options, levels: Levels, compact: CompactPhase)
    requires VersionOk(options, levels) && JobOk(options, levels, compact)
    requires compact.CompactLogging? && Absent(levels, compact.output.id)
    ensures forall id :: id != compact.output.id && Absent(levels, id) ==>
              Absent(Installed(levels, compact.job, compact.output), id)
  {
    hide VersionOk, JobOk, Installed;
    forall i, t: Table | 0 <= i < |levels| && t in Installed(levels, compact.job, compact.output)[i]
      ensures t in levels[i] || t == compact.output
    {
      InstalledMembers(options, levels, compact, i, t);
    }
  }

  lemma InstalledCatalog(s: State)
    requires Inv(s) && Ready(s, CompactInstall)
    ensures CatalogOk(Do(s, CompactInstall).value)
  {
    hide VersionOk, LogOk, FlushOk, JobOk, DiskOk, LevelIdsOk, Installed, Rewritten, SameTables, CatalogLevels,
         WithNewest;
    var job, output := s.compact.job, s.compact.output;
    var after := Installed(s.levels, job, output);
    var listed := CatalogLevels(s.catalog.tables, s.files, s.options.maxLevels);
    InstalledVersion(s.options, s.levels, s.compact, s.catalog.nextId);
    assert job.inputs[..|job.inputs|] == job.inputs && job.inputs[0..] == job.inputs;
    SameSymmetric(Partly(s.levels, job, output, 0), after);
    if s.flush.Flushing? && s.flush.step.Logged? {
      var t := s.flush.step.table;
      AbsentFromInputs(s.options, s.levels, s.compact, t.id);
      OutputLevelInRange(s.options, s.levels, s.compact);
      RewrittenNewest(s.levels, job.outputLevel, output, Ids(job.inputs), t);
      SameNewest(after, Partly(s.levels, job, output, 0), t);
      SameTransitive(WithNewest(after, t), WithNewest(Partly(s.levels, job, output, 0), t), listed);
    } else {
      SameTransitive(after, Partly(s.levels, job, output, 0), listed);
    }
  }

  lemma SameNewest(a: Levels, b: Levels, t: Table)
    requires SameTables(a, b)
    ensures SameTables(WithNewest(a, t), WithNewest(b, t))
  {
  }

  /** A shielded key is read from a memtable, any other from a version that keeps it. */
  lemma InstalledReads(s: State, after: Levels, key: Key)
    requires Inv(s) && Keeps(s.levels, after, key)
    ensures Get(s.(levels := after, compact := CompactIdle), key) == Get(s, key)
    ensures Shielded(s.flush, s.wal, key) || CoherentAt(after, key)
    ensures !Shielded(s.flush, s.wal, key) ==>
              Visible(LookupFrom(after, 0, key)) == Visible(LookupFrom(s.levels, 0, key))
  {
    hide VersionOk, FlushOk, DiskOk, LevelIdsOk, ReservedOk, JobOk, CatalogOk, CoherentAt, ProperRun;
  }

  lemma CompactInstallStep(s: State)
    requires Inv(s) && Ready(s, CompactInstall)
    ensures Unseen(s, Do(s, CompactInstall))
  {
    hide VersionOk, LogOk, JobOk, DiskOk, LevelIdsOk, CatalogOk, Installed, Absent, Partly, SameTables, CoherentAt,
         Get, Keeps;
    var after := Installed(s.levels, s.compact.job, s.compact.output);
    InstalledVersion(s.options, s.levels, s.compact, s.catalog.nextId);
    InstalledAbsent(s.options, s.levels, s.compact);
    InstalledCatalog(s);
    IdleJobOk(s.options, after);
    forall key
      ensures Get(s.(levels := after, compact := CompactIdle), key) == Get(s, key)
      ensures Shielded(s.flush, s.wal, key) || CoherentAt(after, key)
      ensures !Shielded(s.flush, s.wal, key) ==>
                Visible(LookupFrom(after, 0, key)) == Visible(LookupFrom(s.levels, 0, key))
    {
      InstalledReads(s, after, key);
    }
  }

  lemma IdleJobOk(options: Options, levels: Levels)
    ensures JobOk(options, levels, CompactIdle)
  {
  }

  // ----- crash and recovery -----

  lemma PendingVersionOk(s: State)
    requires Inv(s)
    ensures VersionOk(s.options, Pending(s.levels, s.flush))
    ensures JobOk(s.options, Pending(s.levels, s.flush), s.compact)
    ensures LevelIdsOk(Pending(s.levels, s.flush), s.catalog.nextId)
    ensures s.compact.CompactLogging? ==> Absent(Pending(s.levels, s.flush), s.compact.output.id)
  {
    hide VersionOk, JobOk, DiskOk, CatalogOk, Redundant;
    if s.flush.Flushing? && s.flush.step.Logged? {
      NewestVersionOk(s.options, s.levels, s.flush.step.table);
      NewestJobOk(s.options, s.levels, s.compact, s.flush.step.table);
    }
  }

  /** A key that the log does not rebuild is coherent in the pending version. */
  lemma PendingCoherent(s: State, key: Key)
    requires Inv(s) && Lookup(Replayed(s.wal), key).None?
    ensures CoherentAt(Pending(s.levels, s.flush), key)
  {
    hide VersionOk, FlushOk, DiskOk, LevelIdsOk, ReservedOk, JobOk, CatalogOk, CoherentAt;
    if s.flush.Flushing? && s.flush.step.Logged? {
      NewestCoherent(s.levels, s.flush.step.table, key);
    }
  }

  /** What the manifest describes is well formed at every moment. */
  lemma DurableVersionOk(s: State)
    requires Inv(s)
    ensures var durable := Durable(s.levels, s.flush, s.compact);
            VersionOk(s.options, durable) && LevelIdsOk(durable, s.catalog.nextId)
  {
    hide VersionOk, LogOk, FlushOk, DiskOk, CatalogOk, Pending, Rewritten, Extends, Picked, WellFormed, MergedRun, Ids,
         LevelIdsOk, CoherentOk;
    PendingVersionOk(s);
    if s.compact.CompactLogging? {
      RewrittenVersionOk(s.options, Pending(s.levels, s.flush), s.compact, s.compact.job.inputs[..s.compact.removed],
                         s.catalog.nextId);
    }
  }

  /** It keeps a key exactly when the removals so far do the key no lasting harm. */
  lemma DurableKeeps(s: State, key: Key)
    requires Inv(s) && s.compact.CompactLogging? && Lookup(Replayed(s.wal), key).None?
    ensures 1 <= s.compact.job.outputLevel < |s.levels| && s.compact.job.upper <= |s.compact.job.inputs|
    ensures s.compact.removed <= |s.compact.job.inputs|
    ensures LastingAt(Pending(s.levels, s.flush), s.compact.job, s.compact.removed, key) <==>
            Keeps(Pending(s.levels, s.flush), Durable(s.levels, s.flush, s.compact), key)
  {
    hide VersionOk, LogOk, FlushOk, DiskOk, CatalogOk, Pending, Rewritten, Extends, Picked, WellFormed, MergedRun, Ids,
         LevelIdsOk, CoherentOk, Fits, MergedFrom, Placed, Keeps, LastingAt, DropsTombstones, ProperRun, CoherentAt;
    var pending, job, output := Pending(s.levels, s.flush), s.compact.job, s.compact.output;
    var drop, j := DropsTombstones(s.compact.base, job, s.options), s.compact.removed;
    PendingVersionOk(s);
    PendingCoherent(s, key);
    PreparedVersion(s.options, pending, s.compact);
    RewrittenLists(pending, job, output, drop, j);
    LastingExactly(pending, job, output, drop, j, Durable(s.levels, s.flush, s.compact), key);
  }

  /** Before the first removal and after the last one no key is harmed. */
  lemma WholeKeeps(s: State, key: Key)
    requires Inv(s) && !MidRemoval(s)
    ensures Keeps(Pending(s.levels, s.flush), Durable(s.levels, s.flush, s.compact), key)
  {
    hide VersionOk, LogOk, FlushOk, DiskOk, CatalogOk, Pending, Rewritten, Extends, Picked, WellFormed, MergedRun,
         LevelIdsOk, CoherentOk, Fits, MergedFrom, Placed, DropsTombstones, ProperRun, CoherentAt;
    if s.compact.CompactLogging? {
      var pending, job, output := Pending(s.levels, s.flush), s.compact.job, s.compact.output;
      var keep := |job.inputs| - s.compact.removed;
      PendingVersionOk(s);
      PreparedVersion(s.options, pending, s.compact);
      PartlyKeeps(pending, job, output, DropsTombstones(s.compact.base, job, s.options), keep, key);
      assert job.inputs[keep..] == job.inputs[..s.compact.removed];
    }
  }

  /** What `open_with` builds is well formed at every moment, and has the tables the manifest describes. */
  lemma RecoveredVersion(s: State)
    requires Inv(s)
    ensures var levels := RecoveredLevels(s.catalog, s.files, s.options.maxLevels);
            && VersionOk(s.options, levels)
            && LevelIdsOk(levels, s.catalog.nextId)
            && SameTables(levels, CatalogLevels(s.catalog.tables, s.files, s.options.maxLevels))
            && SameTables(Durable(s.levels, s.flush, s.compact), levels)
  {
    hide VersionOk, LogOk, FlushOk, DiskOk, ReservedOk, JobOk, Durable, Pending, CatalogLevels, RecoveredLevels,
         LevelIdsOk, SameTables, CoherentOk;
    var durable := Durable(s.levels, s.flush, s.compact);
    var listed := CatalogLevels(s.catalog.tables, s.files, s.options.maxLevels);
    var levels := RecoveredLevels(s.catalog, s.files, s.options.maxLevels);
    RecoveredSame(s.catalog, s.files, s.options.maxLevels);
    SameTransitive(durable, listed, levels);
    SameSymmetric(listed, levels);
    DurableVersionOk(s);
    SameVersionOk(s.options, durable, levels);
    SameLevelIds(durable, levels, s.catalog.nextId);
  }

  lemma SameLevelIds(a: Levels, b: Levels, nextId: nat)
    requires SameTables(a, b) && LevelIdsOk(a, nextId)
    ensures LevelIdsOk(b, nextId)
  {
    forall i, t | 0 <= i < |b| && t in b[i]
      ensures t in a[i]
    {
    }
  }

  /** Replaying the log over what the manifest describes gives every key its value. */
  lemma RecoveredAnswer(s: State, key: Key)
    requires Inv(s)
    ensures Visible(if Lookup(Replayed(s.wal), key).Some? then Lookup(Replayed(s.wal), key)
                    else LookupFrom(Pending(s.levels, s.flush), 0, key)) == Get(s, key)
  {
    hide VersionOk, DiskOk, ReservedOk, JobOk, CatalogOk, ProperRun;
    NotEmpty(s.options, s.levels);
    if s.flush.Flushing? && s.flush.step.Logged? {
      NewestAnswer(s.levels, s.flush.step.table, key);
    }
  }

  /** What reopening makes of a key that the log does not rebuild. */
  lemma RecoveredKeeps(s: State, key: Key)
    requires Inv(s) && CrashOk(s) && Lookup(Replayed(s.wal), key).None?
    ensures var levels := RecoveredLevels(s.catalog, s.files, s.options.maxLevels);
            && CoherentAt(levels, key)
            && Visible(LookupFrom(levels, 0, key)) == Visible(LookupFrom(Pending(s.levels, s.flush), 0, key))
  {
    hide Inv, Pending, Durable, RecoveredLevels, SameTables, CoherentAt, LastingAt, VersionOk, LevelIdsOk,
         CatalogLevels;
    var pending, durable := Pending(s.levels, s.flush), Durable(s.levels, s.flush, s.compact);
    var levels := RecoveredLevels(s.catalog, s.files, s.options.maxLevels);
    PendingCoherent(s, key);
    if MidRemoval(s) {
      DurableKeeps(s, key);
    } else {
      WholeKeeps(s, key);
    }
    RecoveredVersion(s);
    SameKeeps(durable, levels, key);
  }

  /** Reopening after a crash outside the removals of a compaction, or where they do no lasting harm. */
  lemma CrashStep(s: State)
    requires Inv(s) && Ready(s, Crash)
    ensures Unseen(s, Do(s, Crash))
  {
    hide VersionOk, LevelIdsOk, JobOk, WithNewest, CatalogLevels, RecoveredLevels, SameTables, Rewritten, Redundant,
         CoherentAt, CrashOk;
    RecoveredVersion(s);
    var next := Do(s, Crash).value;
    IdleJobOk(s.options, next.levels);
    forall key
      ensures Get(next, key) == Get(s, key)
      ensures Shielded(next.flush, next.wal, key) || CoherentAt(next.levels, key)
    {
      RecoveredAnswer(s, key);
      if Lookup(Replayed(s.wal), key).None? {
        RecoveredKeeps(s, key);
      }
    }
  }
}
