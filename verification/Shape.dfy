/** The level shape every run keeps. */
module Shape {
  import opened Bytes
  import opened Runs
  import opened Levels
  import opened Compaction
  import opened Cuts
  import opened Picker
  import opened Install
  import opened Machine
  import opened Invariant
  import opened Recovery
  import opened Steps
  import opened Refinement
  import opened ManifestOrder

  // ----- installing keeps the shape -----

  lemma InstalledOrdered(levels: Levels, base: Levels, job: Job, output: Table, dropTombstones: bool)
    requires Extends(levels, base) && Picked(base, job) && WellFormed(base) && Shaped(base)
    requires MergedFrom(output, job, dropTombstones) && ProperRun(output.run)
    ensures Ordered(Installed(levels, job, output)[job.outputLevel])
  {
    hide Lt, Rank, MergedFrom, Overlapping, Span;
    var d := job.outputLevel;
    var kept := Retain(base[d], Ids(job.inputs));
    RetainOrdered(base[d], Ids(job.inputs));
    RetainMembers(base[d], Ids(job.inputs));
    forall t | t in kept
      ensures ProperRun(t.run) && Apart(t, output)
    {
      assert t !in job.inputs;
      OutputApart(base, job, output, dropTombstones, t);
    }
    SortUnchanged(kept);
    assert (kept + [output])[..|kept|] == kept;
    InsertOrdered(kept, output);
  }

  lemma InstalledShaped(levels: Levels, base: Levels, job: Job, output: Table, dropTombstones: bool)
    requires Extends(levels, base) && Picked(base, job) && WellFormed(base) && Shaped(base) && Shaped(levels)
    requires MergedFrom(output, job, dropTombstones) && ProperRun(output.run)
    ensures Shaped(Installed(levels, job, output))
  {
    hide Ordered, MergedFrom, WellFormed, ProperRun, SortBySmallest;
    InstalledOrdered(levels, base, job, output, dropTombstones);
    var after := Installed(levels, job, output);
    RetainMembers(levels[0], Ids(job.inputs));
    forall i | 1 <= i < |after|
      ensures Ordered(after[i])
    {
      RetainOrdered(levels[i], Ids(job.inputs));
    }
  }

  // ----- reopening keeps the shape -----

  ghost predicate AllApart(tables: seq<Table>)
  {
    forall t, u :: t in tables && u in tables && t != u ==> Apart(t, u)
  }

  lemma ApartOrdered(tables: seq<Table>)
    requires BySmallest(tables) && Distinct(tables) && AllApart(tables)
    requires forall t :: t in tables ==> ProperRun(t.run)
    ensures Ordered(tables)
  {
    forall i, j | 0 <= i < j < |tables| && tables[i].run != [] && tables[j].run != []
      ensures Lt(Largest(tables[i].run), Smallest(tables[j].run))
    {
      ApartBefore(tables[i], tables[j]);
    }
  }

  lemma OrderedApart(tables: seq<Table>)
    requires Ordered(tables)
    ensures AllApart(tables)
  {
    forall t, u | t in tables && u in tables && t != u
      ensures Apart(t, u)
    {
      var i :| 0 <= i < |tables| && tables[i] == t;
      var j :| 0 <= j < |tables| && tables[j] == u;
      assert i < j || j < i;
    }
  }

  /** A version with the tables of a shaped one, reopened, is shaped. */
  lemma ReopenedShaped(s: State, shaped: Levels)
    requires DiskOk(s.catalog, s.files, s.options.maxLevels) && Shaped(shaped) && WellFormed(shaped)
    requires SameTables(shaped, CatalogLevels(s.catalog.tables, s.files, s.options.maxLevels))
    ensures Shaped(RecoveredLevels(s.catalog, s.files, s.options.maxLevels))
  {
    hide Lt, Rank, Apart, BySmallest;
    var levels := RecoveredLevels(s.catalog, s.files, s.options.maxLevels);
    RecoveredSame(s.catalog, s.files, s.options.maxLevels);
    forall i | 1 <= i < |levels|
      ensures Ordered(levels[i])
    {
      OrderedApart(shaped[i]);
      OnLevelDistinct(s.catalog.tables, s.files, i, s.options.maxLevels);
      SortDistinct(OnLevel(s.catalog.tables, s.files, i, s.options.maxLevels));
      SortSorts(OnLevel(s.catalog.tables, s.files, i, s.options.maxLevels));
      forall t
        ensures t in levels[i] <==> t in shaped[i]
      {
      }
      ApartOrdered(levels[i]);
    }
  }

  // ----- the shape along a run -----

  ghost predicate ShapeOk(s: State)
  {
    Shaped(s.levels) && (!s.compact.CompactIdle? ==> Shaped(s.compact.base))
  }

  /** The output of the compaction keeps clear of every input of its own level still listed after `j` removals. */
  ghost predicate ClearOfInputs(job: Job, output: Table, j: nat)
    requires j <= |job.inputs| && job.upper <= |job.inputs|
  {
    forall t :: LowerRemains(job, j, t) ==> Apart(t, output)
  }

  /** A crash that leaves the output of a compaction listed beside an input it overlaps. */
  ghost predicate CutsCompaction(s: State, a: Action)
  {
    && (a.Crash? || a.CrashInWrite?)
    && s.compact.CompactLogging?
    && s.compact.job.upper <= |s.compact.job.inputs| && s.compact.removed <= |s.compact.job.inputs|
    && !ClearOfInputs(s.compact.job, s.compact.output, s.compact.removed)
  }

  lemma PendingShaped(s: State)
    requires Inv(s) && ShapeOk(s)
    ensures Shaped(Pending(s.levels, s.flush))
  {
    hide VersionOk, FlushOk, DiskOk, LevelIdsOk, ReservedOk, JobOk, CatalogOk, Ordered;
  }

  lemma PlacedRange(levels: Levels, job: Job, output: Table)
    requires Placed(levels, job, output)
    ensures 1 <= job.outputLevel < |levels| && job.upper <= |job.inputs|
    ensures forall t :: t in job.inputs[job.upper..] ==> t in levels[job.outputLevel] && t.id != output.id
  {
  }

  lemma LowerInput(levels: Levels, job: Job, output: Table, t: Table)
    requires Placed(levels, job, output) && t in job.inputs && t in levels[job.outputLevel]
    ensures t in job.inputs[job.upper..]
  {
    assert job.inputs == job.inputs[..job.upper] + job.inputs[job.upper..];
    assert t !in levels[job.outputLevel - 1];
  }

  /** The version after `j` removals, with the output at its place. */
  ghost function Arranged(levels: Levels, job: Job, output: Table, j: nat): (r: Levels)
    requires j <= |job.inputs|
    ensures |r| == |levels|
  {
    seq(|levels|, i requires 0 <= i < |levels| =>
      var kept := Retain(levels[i], Ids(job.inputs[..j]));
      if i == job.outputLevel then InsertBySmallest(kept, output) else kept)
  }

  /** The output level is still disjoint if the output is clear of the inputs left. */
  lemma ArrangedOrdered(levels: Levels, base: Levels, job: Job, output: Table, dropTombstones: bool, j: nat)
    requires Extends(levels, base) && Picked(base, job) && WellFormed(base) && Shaped(base) && Shaped(levels)
    requires MergedFrom(output, job, dropTombstones) && ProperRun(output.run) && Placed(levels, job, output)
    requires j <= |job.inputs| && ClearOfInputs(job, output, j)
    ensures Ordered(InsertBySmallest(Retain(levels[job.outputLevel], Ids(job.inputs[..j])), output))
  {
    hide Lt, Rank, MergedFrom, Picked, Ordered, ProperRun, Placed, Identified, Apart, Retain, Ids;
    var d, ids := job.outputLevel, Ids(job.inputs[..j]);
    PlacedRange(levels, job, output);
    RetainOrdered(levels[d], ids);
    RetainMembers(levels[d], ids);
    forall t | t in Retain(levels[d], ids)
      ensures ProperRun(t.run) && Apart(t, output)
    {
      RemovedById(levels, job, output, job.inputs[..j], d, t);
      if t in job.inputs {
        LowerInput(levels, job, output, t);
        assert LowerRemains(job, j, t);
      } else {
        OutputApart(base, job, output, dropTombstones, t);
      }
    }
    InsertOrdered(Retain(levels[d], ids), output);
  }

  lemma ArrangedShaped(levels: Levels, job: Job, output: Table, j: nat)
    requires Shaped(levels) && WellFormed(levels) && ProperRun(output.run) && Placed(levels, job, output)
    requires j <= |job.inputs|
    requires Ordered(InsertBySmallest(Retain(levels[job.outputLevel], Ids(job.inputs[..j])), output))
    ensures var after := Arranged(levels, job, output, j);
            && Shaped(after)
            && WellFormed(after)
            && SameTables(after, Rewritten(levels, job.outputLevel, output, Ids(job.inputs[..j])))
  {
    hide Ordered, ProperRun, Placed, Retain, Ids, InsertBySmallest;
    var d, ids, after := job.outputLevel, Ids(job.inputs[..j]), Arranged(levels, job, output, j);
    PlacedRange(levels, job, output);
    InsertKeeps(Retain(levels[d], ids), output);
    OutputNotInput(levels, job, output);
    OutputKept(job, output, j);
    RetainMembers(levels[d] + [output], ids);
    forall i | 0 <= i < |levels|
      ensures forall t :: t in Retain(levels[i], ids) <==> t in levels[i] && t.id !in ids
      ensures i > 0 ==> Ordered(Retain(levels[i], ids))
    {
      RetainMembers(levels[i], ids);
      if i > 0 {
        RetainOrdered(levels[i], ids);
      }
    }
  }

  lemma OutputKept(job: Job, output: Table, j: nat)
    requires j <= |job.inputs| && output.id !in Ids(job.inputs)
    ensures output.id !in Ids(job.inputs[..j])
  {
  }

  /**
   * A crash while a compaction is being logged, at any number of removals: the reopened version has the
   * shape exactly when the output is clear of the inputs of its own level that are still listed.
   */
  lemma CutShape(s: State)
    requires Inv(s) && ShapeOk(s) && s.compact.CompactLogging?
    ensures s.compact.job.upper <= |s.compact.job.inputs| && s.compact.removed <= |s.compact.job.inputs|
    ensures FilesPresent(s)
    ensures Shaped(Reopened(s).value.levels) <==> ClearOfInputs(s.compact.job, s.compact.output, s.compact.removed)
  {
    hide LogOk, FlushOk, DiskOk, LevelIdsOk, Extends, Picked, Shaped, SameTables, CatalogLevels, Rewritten, Pending,
         Apart, CoherentOk, Identified, WellFormed, MergedRun, DropsTombstones, ProperRun, Fits, MergedFrom, Placed,
         RecoveredLevels, ClearOfInputs, Retain, Ids, InsertBySmallest, Arranged, Ordered;
    var job, output, j, pending := s.compact.job, s.compact.output, s.compact.removed, Pending(s.levels, s.flush);
    PendingShaped(s);
    PendingVersionOk(s);
    PreparedVersion(s.options, pending, s.compact);
    PlacedRange(pending, job, output);
    InvDisk(s);
    var listed := CatalogLevels(s.catalog.tables, s.files, s.options.maxLevels);
    if ClearOfInputs(job, output, j) {
      ArrangedOrdered(pending, s.compact.base, job, output, DropsTombstones(s.compact.base, job, s.options), j);
      ArrangedShaped(pending, job, output, j);
      var after := Arranged(pending, job, output, j);
      SameTransitive(after, Rewritten(pending, job.outputLevel, output, Ids(job.inputs[..j])), listed);
      ReopenedShaped(s, after);
    }
    if Shaped(Reopened(s).value.levels) {
      ShapedClear(s, pending, job, output, j);
    }
  }

  /** Two tables of one level of a shaped version are apart. */
  lemma ShapedClear(s: State, pending: Levels, job: Job, output: Table, j: nat)
    requires Placed(pending, job, output) && |pending| == s.options.maxLevels && j <= |job.inputs|
    requires SameTables(Rewritten(pending, job.outputLevel, output, Ids(job.inputs[..j])),
                        CatalogLevels(s.catalog.tables, s.files, s.options.maxLevels))
    requires Shaped(RecoveredLevels(s.catalog, s.files, s.options.maxLevels))
    ensures job.upper <= |job.inputs| && ClearOfInputs(job, output, j)
  {
    hide Placed, Apart, Ordered, Rewritten, CatalogLevels, RecoveredLevels, Ids;
    var d, levels := job.outputLevel, RecoveredLevels(s.catalog, s.files, s.options.maxLevels);
    PlacedRange(pending, job, output);
    RecoveredSame(s.catalog, s.files, s.options.maxLevels);
    Kept(pending, job, output, job.inputs[..j], d);
    OrderedApart(levels[d]);
    forall t | LowerRemains(job, j, t)
      ensures Apart(t, output)
    {
      assert t in levels[d] && output in levels[d];
    }
  }

  lemma CrashShape(s: State)
    requires Inv(s) && ShapeOk(s) && FilesPresent(s)
    requires s.compact.CompactLogging? ==>
               && s.compact.job.upper <= |s.compact.job.inputs| && s.compact.removed <= |s.compact.job.inputs|
               && ClearOfInputs(s.compact.job, s.compact.output, s.compact.removed)
    ensures ShapeOk(Reopened(s).value)
  {
    hide Inv, Shaped, RecoveredLevels, CatalogLevels, WellFormed, ClearOfInputs;
    if s.compact.CompactLogging? {
      CutShape(s);
    } else {
      PendingShaped(s);
      PendingListed(s);
      InvDisk(s);
      ReopenedShaped(s, Pending(s.levels, s.flush));
    }
  }

  lemma PendingListed(s: State)
    requires Inv(s) && !s.compact.CompactLogging?
    ensures WellFormed(Pending(s.levels, s.flush))
    ensures SameTables(Pending(s.levels, s.flush), CatalogLevels(s.catalog.tables, s.files, s.options.maxLevels))
  {
    hide LogOk, FlushOk, DiskOk, LevelIdsOk, ReservedOk, JobOk, CoherentOk, CatalogLevels, SameTables, Pending,
         WellFormed, Identified;
    PendingVersionOk(s);
  }

  lemma InvDisk(s: State)
    requires Inv(s)
    ensures DiskOk(s.catalog, s.files, s.options.maxLevels)
    ensures FilesPresent(s)
  {
  }

  lemma InstallShape(s: State)
    requires s.compact.CompactLogging? && Inv(s) && ShapeOk(s)
    ensures Shaped(Installed(s.levels, s.compact.job, s.compact.output))
  {
    hide LogOk, FlushOk, DiskOk, LevelIdsOk, CatalogOk, Extends, Picked, Shaped, CoherentOk, Identified, WellFormed,
         MergedRun, Installed, DropsTombstones, ProperRun, Fits, MergedFrom, Placed;
    PreparedVersion(s.options, s.levels, s.compact);
    InstalledShaped(s.levels, s.compact.base, s.compact.job, s.compact.output,
                    DropsTombstones(s.compact.base, s.compact.job, s.options));
  }

  lemma FlushShape(s: State)
    requires Inv(s) && ShapeOk(s) && Ready(s, FlushInstall)
    ensures Shaped(WithNewest(s.levels, s.flush.step.table))
  {
    hide VersionOk, FlushOk, DiskOk, LevelIdsOk, ReservedOk, JobOk, CatalogOk, Ordered;
  }

  lemma ShapeStep(s: State, a: Action)
    requires Inv(s) && ShapeOk(s) && Ready(s, a) && !CutsCompaction(s, a)
    ensures Do(s, a).Ok? && ShapeOk(Do(s, a).value)
  {
    hide Inv, Shaped, Installed, RecoveredLevels, WithNewest, Pick, MergedRun, ClearOfInputs, CrashOk;
    InvDisk(s);
    if s.compact.CompactLogging? {
      LoggingRange(s);
    }
    match a
    case FlushInstall => FlushShape(s);
    case CompactInstall => InstallShape(s);
    case Crash => CrashShape(s);
    case CrashInWrite(op, persisted) => CrashShape(s);
    case FlushLog => FlushLogStep(s);
    case CompactLogAdd => CompactLogAddStep(s);
    case _ =>
  }

  /** No crash of the run leaves the output of a compaction beside an input it overlaps. */
  ghost predicate Uncut(options: Options, actions: seq<Action>)
    requires Legal(options, actions)
  {
    forall n :: 0 <= n < |actions| && Legal(options, actions[..n]) && RunOf(options, actions[..n]).Ok? ==>
      !CutsCompaction(RunOf(options, actions[..n]).value, actions[n])
  }

  /** In every such run L0 is newest first and holds no empty table, and each deeper level is sorted and disjoint. */
  lemma {:induction false} RunsAreShaped(options: Options, actions: seq<Action>)
    requires Usable(options) && Legal(options, actions) && Uncut(options, actions)
    ensures RunOf(options, actions).Ok? && ShapeOk(RunOf(options, actions).value)
    ensures NewestFirst(RunOf(options, actions).value.levels, RunOf(options, actions).value.flush)
  {
    hide Inv, Get, Ready, Do, ShapeOk, CutsCompaction, NewestFirst, LevelsSorted, LevelsDistinct, ManifestAlike;
    RunsKeepOrder(options, actions);
    if actions == [] {
      OpenedShape(options);
    } else {
      var n := |actions| - 1;
      forall m | 0 <= m < n
        ensures actions[..n][..m] == actions[..m]
      {
      }
      RunsAreShaped(options, actions[..n]);
      RunsMatchReference(options, actions[..n]);
      ShapeStep(RunOf(options, actions[..n]).value, actions[n]);
    }
  }

  lemma OpenedShape(options: Options)
    ensures ShapeOk(Opened(options))
  {
  }
}
