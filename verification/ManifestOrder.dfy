/** The order of the tables inside each level, in memory and after reopening. */
module ManifestOrder {
  import opened Wrappers
  import opened Levels
  import opened Compaction
  import opened Picker
  import opened Install
  import opened Manifests
  import opened MemTables
  import opened Machine
  import opened Invariant
  import opened Recovery
  import opened Steps
  import opened Refinement

  // ----- L0 -----

  /** Ids are handed out in flush order, so a larger id is a newer table. */
  ghost predicate Descending(tables: seq<Table>)
  {
    forall i, j :: 0 <= i < j < |tables| ==> tables[i].id > tables[j].id
  }

  ghost predicate Below(tables: seq<Table>, id: nat)
  {
    forall t :: t in tables ==> t.id < id
  }

  /** L0 is newest first, and the flush in flight is newer than all of it. */
  ghost predicate NewestFirst(levels: Levels, flush: FlushPhase)
  {
    && levels != []
    && Descending(levels[0])
    && (FlushId(flush).Some? ==> Below(levels[0], FlushId(flush).value))
  }

  lemma {:induction false} RetainDescending(tables: seq<Table>, ids: set<nat>)
    requires Descending(tables)
    ensures Descending(Retain(tables, ids))
  {
    if tables == [] {
    } else {
      RetainDescending(tables[1..], ids);
      RetainMembers(tables[1..], ids);
    }
  }

  /** A flush in flight put in front of L0. */
  lemma NewestDescending(levels: Levels, flush: FlushPhase, t: Table)
    requires NewestFirst(levels, flush) && FlushId(flush) == Some(t.id)
    ensures Descending(WithNewest(levels, t)[0])
  {
  }

  lemma PendingDescending(levels: Levels, flush: FlushPhase)
    requires NewestFirst(levels, flush)
    ensures Descending(Pending(levels, flush)[0])
  {
    if flush.Flushing? && flush.step.Logged? {
      NewestDescending(levels, flush, flush.step.table);
    }
  }

  lemma RewrittenDescending(levels: Levels, d: nat, output: Table, ids: set<nat>)
    requires 1 <= d < |levels| && Descending(levels[0])
    ensures Descending(Rewritten(levels, d, output, ids)[0])
  {
    RetainDescending(levels[0], ids);
  }

  /** What reopening puts in L0. */
  lemma RecoveredDescending(s: State)
    requires Inv(s) && NewestFirst(s.levels, s.flush)
    ensures |RecoveredLevels(s.catalog, s.files, s.options.maxLevels)| > 0
    ensures Descending(RecoveredLevels(s.catalog, s.files, s.options.maxLevels)[0])
  {
    hide VersionOk, LogOk, FlushOk, DiskOk, LevelIdsOk, ReservedOk, Rewritten, Descending, NewestFirst,
         RecoveredLevels, CatalogLevels, JobOk;
    NotEmpty(s.options, s.levels);
    PendingDescending(s.levels, s.flush);
    if s.compact.CompactLogging? && s.compact.removed <= |s.compact.job.inputs| {
      OutputLevelInRange(s.options, s.levels, s.compact);
      RewrittenDescending(Pending(s.levels, s.flush), s.compact.job.outputLevel, s.compact.output,
                          Ids(s.compact.job.inputs[..s.compact.removed]));
    }
    RecoveredSame(s.catalog, s.files, s.options.maxLevels);
  }

  lemma InstalledDescending(levels: Levels, job: Job, output: Table, flush: FlushPhase)
    requires NewestFirst(levels, flush) && 1 <= job.outputLevel < |levels|
    ensures NewestFirst(Installed(levels, job, output), flush)
  {
    RetainDescending(levels[0], Ids(job.inputs));
    RetainMembers(levels[0], Ids(job.inputs));
  }

  lemma NewestFirstStep(s: State, a: Action)
    requires Inv(s) && NewestFirst(s.levels, s.flush) && Ready(s, a)
    ensures Do(s, a).Ok? && NewestFirst(Do(s, a).value.levels, Do(s, a).value.flush)
  {
    hide LogOk, VersionOk, FlushOk, DiskOk, JobOk, CatalogOk, Installed, RecoveredLevels, Absent, Descending, Pick,
         MergedRun;
    AnyStep(s, a);
    match a
    case FlushInstall => NewestDescending(s.levels, s.flush, s.flush.step.table);
    case CompactInstall =>
      OutputLevelInRange(s.options, s.levels, s.compact);
      InstalledDescending(s.levels, s.compact.job, s.compact.output, s.flush);
    case Crash => RecoveredDescending(s);
    case CrashInWrite(op, persisted) => RecoveredDescending(s);
    case _ =>
  }

  // ----- deeper levels -----

  /** Below L0, the same tables in the same order once each level is sorted. */
  ghost predicate Alike(a: Levels, b: Levels)
  {
    && |a| == |b|
    && forall i :: 1 <= i < |a| ==> SortBySmallest(a[i]) == SortBySmallest(b[i])
  }

  ghost predicate LevelsSorted(levels: Levels)
  {
    forall i :: 1 <= i < |levels| ==> BySmallest(levels[i])
  }

  lemma AlikeAdded(a: Levels, b: Levels, level: nat, t: Table)
    requires Alike(a, b)
    ensures Alike(WithAdded(a, level, t), WithAdded(b, level, t))
  {
    if 1 <= level < |a| {
      SortSnoc(a[level], t);
      SortSnoc(b[level], t);
    }
  }

  lemma AlikeFiltered(a: Levels, b: Levels, ids: set<nat>)
    requires Alike(a, b)
    ensures Alike(Filtered(a, ids), Filtered(b, ids))
  {
    forall i | 1 <= i < |a|
      ensures SortBySmallest(Filtered(a, ids)[i]) == SortBySmallest(Filtered(b, ids)[i])
    {
      SortRetain(a[i], ids);
      SortRetain(b[i], ids);
    }
  }

  lemma InstalledAlike(levels: Levels, job: Job, output: Table)
    requires Placed(levels, job, output)
    ensures Alike(Installed(levels, job, output), Rewritten(levels, job.outputLevel, output, Ids(job.inputs)))
  {
    var d, ids := job.outputLevel, Ids(job.inputs);
    OutputNotInput(levels, job, output);
    assert 1 <= d < |levels|;
    hide Placed, Retain, SortBySmallest, Ids;
    forall i | 1 <= i < |levels|
      ensures SortBySmallest(Installed(levels, job, output)[i]) == SortBySmallest(Rewritten(levels, d, output, ids)[i])
    {
      if i == d {
        RetainConcat(levels[d], [output], ids);
        RetainUnchanged([output], ids);
        SortTwice(Retain(levels[d], ids) + [output]);
      }
    }
  }

  lemma InstalledSorted(levels: Levels, job: Job, output: Table)
    requires LevelsSorted(levels) && 1 <= job.outputLevel < |levels|
    ensures LevelsSorted(Installed(levels, job, output))
  {
    hide BySmallest, SortBySmallest, Retain, Ids;
    forall i | 1 <= i < |levels|
      ensures BySmallest(Installed(levels, job, output)[i])
    {
      var kept := Retain(levels[i], Ids(job.inputs));
      RetainBySmallest(levels[i], Ids(job.inputs));
      SortSorts(kept + [output]);
    }
  }

  lemma RecoveredAlike(catalog: Catalog, files: map<nat, Table>, n: nat)
    ensures Alike(RecoveredLevels(catalog, files, n), CatalogLevels(catalog.tables, files, n))
    ensures LevelsSorted(RecoveredLevels(catalog, files, n))
  {
    hide BySmallest, SortBySmallest, OnLevel;
    forall i | 1 <= i < n
      ensures var t := OnLevel(catalog.tables, files, i, n);
              SortBySmallest(SortBySmallest(t)) == SortBySmallest(t) && BySmallest(SortBySmallest(t))
    {
      SortTwice(OnLevel(catalog.tables, files, i, n));
      SortSorts(OnLevel(catalog.tables, files, i, n));
    }
  }

  /** A logged flush changes L0 only. */
  lemma AlikeNewest(a: Levels, b: Levels, t: Table)
    requires Alike(a, b)
    ensures Alike(WithNewest(a, t), WithNewest(b, t))
  {
  }

  /** Below L0, the manifest lists what memory (and a compaction being logged) has, in the same order. */
  ghost predicate ManifestAlike(s: State)
  {
    Alike(Durable(s.levels, s.flush, s.compact), CatalogLevels(s.catalog.tables, s.files, s.options.maxLevels))
  }

  lemma FileAlike(s: State, a: Action)
    requires Inv(s) && ManifestAlike(s) && Ready(s, a) && (a.FlushWrite? || a.CompactBuild?)
    ensures Do(s, a).Ok? && ManifestAlike(Do(s, a).value)
  {
    hide VersionOk, LogOk, FlushOk, LevelIdsOk, JobOk, CatalogOk, Absent, Alike, CatalogLevels, WithNewest, MergedRun;
    var next := Do(s, a).value;
    var id := if a.FlushWrite? then s.flush.step.id else s.compact.id;
    CatalogOtherFile(s.catalog.tables, s.files, next.files[id], s.options.maxLevels);
  }

  lemma FlushLogAlike(s: State)
    requires Inv(s) && ManifestAlike(s) && Ready(s, FlushLog)
    ensures Do(s, FlushLog).Ok? && ManifestAlike(Do(s, FlushLog).value)
  {
    hide WellFormed, CoherentAt, Identified, JobOk, SameTables, CatalogLevels, Durable, Absent, Alike;
    var t := s.flush.step.table;
    DurableNewest(s.options, s.levels, s.flush, s.compact, t);
    CatalogAdded(s.catalog.tables, s.files, t.id, 0, s.options.maxLevels);
    AlikeAdded(Durable(s.levels, s.flush, s.compact), CatalogLevels(s.catalog.tables, s.files, s.options.maxLevels),
               0, t);
  }

  lemma LogAddAlike(s: State)
    requires Inv(s) && ManifestAlike(s) && Ready(s, CompactLogAdd)
    ensures Do(s, CompactLogAdd).Ok? && ManifestAlike(Do(s, CompactLogAdd).value)
  {
    hide VersionOk, LogOk, FlushOk, LevelIdsOk, JobOk, SameTables, CatalogLevels, Absent, Alike, Pending, Rewritten;
    var job, output, n := s.compact.job, s.compact.output, s.options.maxLevels;
    var pending := Pending(s.levels, s.flush);
    OutputLevelInRange(s.options, s.levels, s.compact);
    assert |s.levels| == n by { LengthOk(s); }
    assert Ids(job.inputs[..0]) == {};
    RewrittenAdds(pending, job.outputLevel, output);
    CatalogAdded(s.catalog.tables, s.files, output.id, job.outputLevel, n);
    AlikeAdded(pending, CatalogLevels(s.catalog.tables, s.files, n), job.outputLevel, output);
  }

  lemma LengthOk(s: State)
    requires Inv(s)
    ensures |s.levels| == s.options.maxLevels >= 2
  {
  }

  lemma LogRemoveAlike(s: State)
    requires Inv(s) && ManifestAlike(s) && Ready(s, CompactLogRemove)
    ensures Do(s, CompactLogRemove).Ok? && ManifestAlike(Do(s, CompactLogRemove).value)
  {
    hide VersionOk, LogOk, FlushOk, LevelIdsOk, JobOk, ReservedOk, SameTables, CatalogLevels, Rewritten, Pending,
         Alike;
    var job, output, j, pending := s.compact.job, s.compact.output, s.compact.removed, Pending(s.levels, s.flush);
    var id, n := job.inputs[j].id, s.options.maxLevels;
    assert job.inputs[..j + 1] == job.inputs[..j] + [job.inputs[j]];
    assert Ids(job.inputs[..j + 1]) == Ids(job.inputs[..j]) + {id};
    RewrittenRemoves(pending, job.outputLevel, output, Ids(job.inputs[..j]), id);
    CatalogDropped(s.catalog.tables, s.files, id, n);
    AlikeFiltered(Durable(s.levels, s.flush, s.compact), CatalogLevels(s.catalog.tables, s.files, n), {id});
  }

  lemma InstallAlike(s: State)
    requires Inv(s) && ManifestAlike(s) && Ready(s, CompactInstall)
    ensures Do(s, CompactInstall).Ok? && ManifestAlike(Do(s, CompactInstall).value)
  {
    hide VersionOk, LogOk, FlushOk, JobOk, DiskOk, LevelIdsOk, Installed, Rewritten, Alike, CatalogLevels, WithNewest,
         Fits, MergedFrom, CoherentAt, Placed, DropsTombstones, ProperRun;
    var job, output := s.compact.job, s.compact.output;
    PreparedVersion(s.options, s.levels, s.compact);
    InstalledAlike(s.levels, job, output);
    assert job.inputs[..|job.inputs|] == job.inputs;
    var after := Installed(s.levels, job, output);
    var rewritten := Rewritten(s.levels, job.outputLevel, output, Ids(job.inputs));
    if s.flush.Flushing? && s.flush.step.Logged? {
      var t := s.flush.step.table;
      AbsentFromInputs(s.options, s.levels, s.compact, t.id);
      OutputLevelInRange(s.options, s.levels, s.compact);
      RewrittenNewest(s.levels, job.outputLevel, output, Ids(job.inputs), t);
      AlikeNewest(after, rewritten, t);
      AlikeTransitive(WithNewest(after, t), WithNewest(rewritten, t),
                      CatalogLevels(s.catalog.tables, s.files, s.options.maxLevels));
    } else {
      AlikeTransitive(after, rewritten, CatalogLevels(s.catalog.tables, s.files, s.options.maxLevels));
    }
  }

  lemma AlikeTransitive(a: Levels, b: Levels, c: Levels)
    requires Alike(a, b) && Alike(b, c)
    ensures Alike(a, c)
  {
  }

  lemma AlikeStep(s: State, a: Action)
    requires Inv(s) && ManifestAlike(s) && Ready(s, a)
    ensures Do(s, a).Ok? && ManifestAlike(Do(s, a).value)
  {
    hide Inv, Alike, CatalogLevels, RecoveredLevels, Rewritten, Installed, Pick, MergedRun;
    AnyStep(s, a);
    match a
    case FlushWrite(_) => FileAlike(s, a);
    case CompactBuild(_) => FileAlike(s, a);
    case FlushLog => FlushLogAlike(s);
    case CompactLogAdd => LogAddAlike(s);
    case CompactLogRemove => LogRemoveAlike(s);
    case CompactInstall => InstallAlike(s);
    case Crash => RecoveredAlike(s.catalog, s.files, s.options.maxLevels);
    case CrashInWrite(_, _) => RecoveredAlike(s.catalog, s.files, s.options.maxLevels);
    case _ =>
  }

  lemma SortedStep(s: State, a: Action)
    requires Inv(s) && LevelsSorted(s.levels) && Ready(s, a)
    ensures Do(s, a).Ok? && LevelsSorted(Do(s, a).value.levels)
  {
    hide Inv, BySmallest, RecoveredLevels, Installed, Pick, MergedRun;
    AnyStep(s, a);
    match a
    case CompactInstall =>
      InputLevelInRange(s);
      InstalledSorted(s.levels, s.compact.job, s.compact.output);
    case Crash => RecoveredAlike(s.catalog, s.files, s.options.maxLevels);
    case CrashInWrite(_, _) => RecoveredAlike(s.catalog, s.files, s.options.maxLevels);
    case _ =>
  }

  lemma InputLevelInRange(s: State)
    requires Inv(s) && !s.compact.CompactIdle?
    ensures 1 <= s.compact.job.outputLevel < |s.levels|
  {
    hide VersionOk, LogOk, FlushOk, DiskOk, LevelIdsOk, ReservedOk, CatalogOk, JobOk;
    OutputLevelInRange(s.options, s.levels, s.compact);
  }

  // ----- no table twice -----

  ghost predicate LevelsDistinct(levels: Levels)
  {
    forall i :: 1 <= i < |levels| ==> Distinct(levels[i])
  }

  /** Memory below L0 is the sorted manifest while no compaction is logged, and the manifest lists an id once. */
  lemma IdleDistinct(s: State)
    requires Inv(s) && LevelsSorted(s.levels) && ManifestAlike(s) && s.compact.CompactIdle?
    ensures LevelsDistinct(s.levels)
  {
    hide VersionOk, LogOk, FlushOk, LevelIdsOk, ReservedOk, JobOk, CatalogOk, SortBySmallest, OnLevel, BySmallest,
         Distinct;
    LengthOk(s);
    forall i | 1 <= i < |s.levels|
      ensures Distinct(s.levels[i])
    {
      var listed := OnLevel(s.catalog.tables, s.files, i, s.options.maxLevels);
      OnLevelDistinct(s.catalog.tables, s.files, i, s.options.maxLevels);
      SortDistinct(listed);
      SortUnchanged(s.levels[i]);
      assert CatalogLevels(s.catalog.tables, s.files, s.options.maxLevels)[i] == listed;
      assert Durable(s.levels, s.flush, s.compact)[i] == s.levels[i];
    }
  }

  lemma DistinctStep(s: State, a: Action)
    requires Inv(s) && OrderOk(s) && Ready(s, a)
    ensures Do(s, a).Ok? && LevelsDistinct(Do(s, a).value.levels)
  {
    hide Inv, NewestFirst, LevelsSorted, ManifestAlike, Distinct, RecoveredLevels, Installed, Pick, MergedRun;
    AnyStep(s, a);
    SortedStep(s, a);
    AlikeStep(s, a);
    if a.CompactInstall? || a.Crash? || a.CrashInWrite? {
      IdleDistinct(Do(s, a).value);
    }
  }

  // ----- along a run -----

  /** How the tables of each level are ordered, in memory and on disk. */
  ghost predicate OrderOk(s: State)
  {
    NewestFirst(s.levels, s.flush) && LevelsSorted(s.levels) && LevelsDistinct(s.levels) && ManifestAlike(s)
  }

  lemma OrderStep(s: State, a: Action)
    requires Inv(s) && OrderOk(s) && Ready(s, a)
    ensures Do(s, a).Ok? && OrderOk(Do(s, a).value)
  {
    hide Inv, Ready, Do, NewestFirst, LevelsSorted, ManifestAlike, LevelsDistinct;
    NewestFirstStep(s, a);
    SortedStep(s, a);
    AlikeStep(s, a);
    DistinctStep(s, a);
  }

  lemma OpenedOrder(options: Options)
    requires Usable(options)
    ensures OrderOk(Opened(options))
  {
    assert CatalogLevels([], map[], options.maxLevels) == Opened(options).levels;
  }

  /** In every run L0 is newest first, deeper levels are sorted, and reopening would list them in the same order. */
  lemma {:induction false} RunsKeepOrder(options: Options, actions: seq<Action>)
    requires Usable(options) && Legal(options, actions)
    ensures RunOf(options, actions).Ok? && OrderOk(RunOf(options, actions).value)
  {
    hide Inv, Get, Ready, Do, OrderOk;
    if actions == [] {
      OpenedOrder(options);
    } else {
      var n := |actions| - 1;
      RunsKeepOrder(options, actions[..n]);
      RunsMatchReference(options, actions[..n]);
      OrderStep(RunOf(options, actions[..n]).value, actions[n]);
    }
  }

  // ----- what reopening builds -----

  /** The version reopening builds: L0 as the manifest lists it, deeper levels sorted. */
  lemma RecoveredIs(s: State)
    requires Inv(s) && OrderOk(s)
    ensures var after := RecoveredLevels(s.catalog, s.files, s.options.maxLevels);
            var durable := Durable(s.levels, s.flush, s.compact);
            && |after| == |durable| == s.options.maxLevels >= 2
            && after[0] == durable[0]
            && forall i :: 1 <= i < |after| ==> after[i] == SortBySmallest(durable[i])
  {
    hide VersionOk, LogOk, FlushOk, DiskOk, LevelIdsOk, ReservedOk, JobOk, Durable, SortBySmallest, OnLevel,
         BySmallest, NewestFirst, LevelsSorted;
    LengthOk(s);
    RecoveredSame(s.catalog, s.files, s.options.maxLevels);
  }

  /** An idle engine reopens to exactly the state it was in, table order included. */
  lemma ReopenIdle(s: State)
    requires Inv(s) && OrderOk(s) && s.flush.FlushIdle? && s.compact.CompactIdle?
    ensures Reopened(s) == Ok(s)
  {
    hide VersionOk, FlushOk, LevelIdsOk, JobOk, CatalogOk, ManifestAlike, NewestFirst, RecoveredLevels, Replayed,
         BySmallest, SortBySmallest;
    RecoveredIs(s);
    var after := RecoveredLevels(s.catalog, s.files, s.options.maxLevels);
    forall i | 1 <= i < |after|
      ensures after[i] == s.levels[i]
    {
      SortUnchanged(s.levels[i]);
    }
    assert after == s.levels;
  }

  /** A run with no flush or compaction in flight ends in a state that reopening does not change. */
  lemma RunsReopenSame(options: Options, actions: seq<Action>)
    requires Usable(options) && Legal(options, actions) && RunOf(options, actions).Ok?
    requires RunOf(options, actions).value.flush.FlushIdle? && RunOf(options, actions).value.compact.CompactIdle?
    ensures Reopened(RunOf(options, actions).value) == RunOf(options, actions)
  {
    hide Inv, OrderOk, Legal, RunOf, Reopened;
    RunsMatchReference(options, actions);
    RunsKeepOrder(options, actions);
    ReopenIdle(RunOf(options, actions).value);
  }

  /** Reopening at the end of any run, between two removals as well, gives an L0 that is newest first. */
  lemma RunsReopenNewestFirst(options: Options, actions: seq<Action>)
    requires Usable(options) && Legal(options, actions)
    ensures RunOf(options, actions).Ok? && Reopened(RunOf(options, actions).value).Ok?
    ensures NewestFirst(Reopened(RunOf(options, actions).value).value.levels, FlushIdle)
  {
    hide Legal, RunOf, VersionOk, LogOk, FlushOk, LevelIdsOk, ReservedOk, JobOk, CatalogOk, LevelsSorted,
         LevelsDistinct, ManifestAlike, Descending, RecoveredLevels;
    RunsMatchReference(options, actions);
    RunsKeepOrder(options, actions);
    RecoveredDescending(RunOf(options, actions).value);
  }
}
