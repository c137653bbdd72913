/** A compaction that removed its oldest inputs from the manifest first could be cut anywhere. */
module Removal {
  import opened Bytes
  import opened Runs
  import opened Levels
  import opened Compaction
  import opened Picker
  import opened MemTables
  import opened Manifests
  import opened Machine
  import opened Invariant
  import opened Recovery
  import opened Steps

  /** The manifest after a removal record for each of `gone`, in order. */
  function Unlisted(c: Catalog, gone: seq<Table>): Catalog
  {
    if gone == [] then c
    else WithoutTable(Unlisted(c, gone[..|gone| - 1]), gone[|gone| - 1].id)
  }

  /** The disk when a compaction stops after its add record and the removals of `gone`. */
  function Cut(s: State, gone: seq<Table>): State
    requires s.compact.CompactBuilt?
  {
    s.(catalog := Unlisted(WithTable(s.catalog, s.compact.output.id, s.compact.job.outputLevel), gone))
  }

  /** The tables its manifest lists. */
  ghost function CutLevels(s: State, gone: seq<Table>): Levels
    requires s.compact.CompactBuilt?
  {
    Rewritten(Pending(s.levels, s.flush), s.compact.job.outputLevel, s.compact.output, Ids(gone))
  }

  lemma {:induction false} UnlistedLevels(s: State, gone: seq<Table>)
    requires Inv(s) && s.compact.CompactBuilt?
    ensures SameTables(CutLevels(s, gone),
                       CatalogLevels(Cut(s, gone).catalog.tables, s.files, s.options.maxLevels))
    ensures Cut(s, gone).catalog.nextId == s.catalog.nextId
    ensures DiskOk(Cut(s, gone).catalog, s.files, s.options.maxLevels)
  {
    hide VersionOk, LogOk, FlushOk, LevelIdsOk, SameTables, CatalogLevels, Rewritten, Absent, Extends, Picked,
         WellFormed, MergedRun, Pending;
    var job, output, n := s.compact.job, s.compact.output, s.options.maxLevels;
    if gone == [] {
      CompactLogAddStep(s);
      assert Ids(job.inputs[..0]) == Ids([]);
    } else {
      var rest, last := gone[..|gone| - 1], gone[|gone| - 1];
      UnlistedLevels(s, rest);
      assert gone == rest + [last];
      assert Ids(gone) == Ids(rest) + {last.id};
      RewrittenRemoves(Pending(s.levels, s.flush), job.outputLevel, output, Ids(rest), last.id);
      CatalogDropped(Cut(s, rest).catalog.tables, s.files, last.id, n);
      SameFiltered(CutLevels(s, rest), CatalogLevels(Cut(s, rest).catalog.tables, s.files, n), {last.id});
      DroppedDiskOk(Cut(s, rest).catalog, s.files, n, last.id);
    }
  }

  // ----- oldest first -----

  /** A compaction cut after removing its oldest inputs, in any number, loses nothing, now or later. */
  lemma OldestFirstIsSafe(s: State, keep: nat, gone: seq<Table>)
    requires Inv(s) && s.compact.CompactBuilt? && keep <= |s.compact.job.inputs|
    requires forall t :: t in gone <==> t in s.compact.job.inputs[keep..]
    ensures Unseen(s, Reopened(Cut(s, gone)))
  {
    hide VersionOk, LevelIdsOk, SameTables, CatalogLevels, RecoveredLevels, ReservedOk, CatalogOk, CoherentAt, Get,
         JobOk, Unlisted, DiskOk, Redundant;
    CutVersionOk(s, keep, gone);
    var next := Reopened(Cut(s, gone)).value;
    forall key
      ensures Get(next, key) == Get(s, key)
      ensures Shielded(next.flush, next.wal, key) || CoherentAt(next.levels, key)
    {
      CutReads(s, keep, gone, key);
    }
    IdleJobOk(s.options, next.levels);
    IdleCatalog(next);
  }

  /** What the cut manifest lists and what reopening makes of it. */
  lemma CutVersionOk(s: State, keep: nat, gone: seq<Table>)
    requires Inv(s) && s.compact.CompactBuilt? && keep <= |s.compact.job.inputs|
    requires forall t :: t in gone <==> t in s.compact.job.inputs[keep..]
    ensures Reopened(Cut(s, gone)).Ok?
    ensures var next := Reopened(Cut(s, gone)).value;
            && VersionOk(s.options, next.levels)
            && LevelIdsOk(next.levels, next.catalog.nextId)
            && DiskOk(next.catalog, s.files, s.options.maxLevels)
            && SameTables(next.levels, CatalogLevels(next.catalog.tables, s.files, s.options.maxLevels))
            && SameTables(Partly(Pending(s.levels, s.flush), s.compact.job, s.compact.output, keep), next.levels)
  {
    hide VersionOk, LogOk, FlushOk, LevelIdsOk, SameTables, CatalogLevels, Rewritten, Extends, Picked, WellFormed,
         MergedRun, Pending, RecoveredLevels, ProperRun, CoherentOk;
    var job, output, n := s.compact.job, s.compact.output, s.options.maxLevels;
    var pending, catalog := Pending(s.levels, s.flush), Cut(s, gone).catalog;
    var levels, partly := RecoveredLevels(catalog, s.files, n), Partly(pending, job, output, keep);
    assert Ids(gone) == Ids(job.inputs[keep..]);
    UnlistedLevels(s, gone);
    PendingVersionOk(s);
    PendingAbsent(s);
    RewrittenVersionOk(s.options, pending, CompactLogging(s.compact.base, job, output, 0), job.inputs[keep..],
                       s.catalog.nextId);
    RecoveredSame(catalog, s.files, n);
    SameSymmetric(CatalogLevels(catalog.tables, s.files, n), levels);
    SameTransitive(partly, CatalogLevels(catalog.tables, s.files, n), levels);
    SameVersionOk(s.options, partly, levels);
    SameLevelIds(partly, levels, s.catalog.nextId);
  }

  lemma CutReads(s: State, keep: nat, gone: seq<Table>, key: Key)
    requires Inv(s) && s.compact.CompactBuilt? && keep <= |s.compact.job.inputs|
    requires forall t :: t in gone <==> t in s.compact.job.inputs[keep..]
    ensures Reopened(Cut(s, gone)).Ok?
    ensures var next := Reopened(Cut(s, gone)).value;
            Get(next, key) == Get(s, key) && (Shielded(FlushIdle, s.wal, key) || CoherentAt(next.levels, key))
  {
    hide Inv, VersionOk, LevelIdsOk, SameTables, CatalogLevels, RecoveredLevels, CoherentAt, DiskOk, Pending, Partly;
    var pending := Pending(s.levels, s.flush);
    CutVersionOk(s, keep, gone);
    var next := Reopened(Cut(s, gone)).value;
    RecoveredAnswer(s, key);
    if Lookup(Replayed(s.wal), key).None? {
      PendingCoherent(s, key);
      BuiltKeeps(s, keep, key);
      SameKeeps(Partly(pending, s.compact.job, s.compact.output, keep), next.levels, key);
    }
  }

  lemma BuiltKeeps(s: State, keep: nat, key: Key)
    requires Inv(s) && s.compact.CompactBuilt? && keep <= |s.compact.job.inputs|
    ensures var pending := Pending(s.levels, s.flush);
            Keeps(pending, Partly(pending, s.compact.job, s.compact.output, keep), key)
  {
    hide VersionOk, LogOk, FlushOk, DiskOk, LevelIdsOk, CatalogOk, Pending, Partly, Extends, Picked, WellFormed,
         MergedRun, CoherentOk, Fits, MergedFrom, Placed, DropsTombstones, ProperRun, CoherentAt, Keeps;
    var job, output := s.compact.job, s.compact.output;
    PendingVersionOk(s);
    PendingAbsent(s);
    PreparedVersion(s.options, Pending(s.levels, s.flush), CompactLogging(s.compact.base, job, output, 0));
    PartlyKeeps(Pending(s.levels, s.flush), job, output, DropsTombstones(s.compact.base, job, s.options), keep, key);
  }

  lemma IdleCatalog(s: State)
    requires s.flush.FlushIdle? && s.compact.CompactIdle?
    requires SameTables(s.levels, CatalogLevels(s.catalog.tables, s.files, s.options.maxLevels))
    ensures CatalogOk(s)
    ensures ReservedOk(s)
  {
    hide SameTables, CatalogLevels;
  }

  lemma PendingAbsent(s: State)
    requires Inv(s) && s.compact.CompactBuilt?
    ensures Absent(Pending(s.levels, s.flush), s.compact.output.id)
  {
    hide VersionOk, LogOk, FlushOk, DiskOk, LevelIdsOk, JobOk, CatalogOk;
  }
}
