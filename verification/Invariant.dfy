/** What every step of the engine keeps. */
module Invariant {
  import opened Bytes
  import opened Wrappers
  import opened Runs
  import opened Levels
  import opened Compaction
  import opened Picker
  import opened MemTables
  import opened Records
  import opened Manifests
  import opened Machine

  // ----- the version -----

  ghost predicate VersionOk(options: Options, levels: Levels)
  {
    && Usable(options)
    && |levels| == options.maxLevels
    && WellFormed(levels)
    && Identified(levels)
  }

  // ----- the log and the memtables -----

  /** What is in `frozen` can also be read from the levels. */
  ghost predicate Redundant(frozen: Run, levels: Levels)
  {
    forall key :: Lookup(frozen, key).Some? ==> Visible(LookupFrom(levels, 0, key)) == Visible(Lookup(frozen, key))
  }

  ghost predicate LogOk(mem: Run, flush: FlushPhase, wal: seq<Operation>)
  {
    && (forall i :: 0 <= i < |wal| ==> wal[i].key != [])
    && match flush
       case FlushIdle => mem == Replayed(wal)
       case Flushing(frozen, step) =>
         && mem == []
         && frozen != []
         && ProperRun(frozen)
         && (if step.Truncated? then wal == [] else frozen == Replayed(wal))
         && (step.Written? || step.Logged? ==> step.table.run == frozen)
  }

  ghost predicate FlushOk(flush: FlushPhase, levels: Levels)
  {
    flush.Flushing? && (flush.step.InVersion? || flush.step.Truncated?) ==> Redundant(flush.frozen, levels)
  }

  /** A key that reads do not look for in the levels: the log still rebuilds it and no table has taken it over. */
  ghost predicate Shielded(flush: FlushPhase, wal: seq<Operation>, key: Key)
  {
    !(flush.Flushing? && (flush.step.InVersion? || flush.step.Truncated?)) && Lookup(Replayed(wal), key).Some?
  }

  /** Every other key is coherent. */
  ghost predicate CoherentOk(levels: Levels, flush: FlushPhase, wal: seq<Operation>)
  {
    forall key :: Shielded(flush, wal, key) || CoherentAt(levels, key)
  }

  // ----- ids, manifest and files -----

  ghost predicate Absent(levels: Levels, id: nat)
  {
    forall i, t :: 0 <= i < |levels| && t in levels[i] ==> t.id != id
  }

  ghost predicate DiskOk(catalog: Catalog, files: map<nat, Table>, maxLevels: nat)
  {
    && (forall i, j :: 0 <= i < j < |catalog.tables| ==> catalog.tables[i].0 != catalog.tables[j].0)
    && (forall i :: 0 <= i < |catalog.tables| ==>
          && catalog.tables[i].0 in files
          && catalog.tables[i].0 < catalog.nextId
          && catalog.tables[i].1 < maxLevels)
    && (forall id :: id in files ==> files[id].id == id && ProperRun(files[id].run))
  }

  ghost predicate LevelIdsOk(levels: Levels, nextId: nat)
  {
    forall i, t :: 0 <= i < |levels| && t in levels[i] ==> t.id < nextId
  }

  ghost predicate OnDisk(t: Table, files: map<nat, Table>)
  {
    t.id in files && files[t.id] == t
  }

  /** The id a flush has been given and the version does not show yet. */
  function FlushId(flush: FlushPhase): Option<nat>
  {
    if flush.FlushIdle? then None
    else
      match flush.step
      case Allocated(id) => Some(id)
      case Written(table) => Some(table.id)
      case Logged(table) => Some(table.id)
      case _ => None
  }

  function CompactId(compact: CompactPhase): Option<nat>
  {
    match compact
    case CompactAllocated(_, _, id) => Some(id)
    case CompactBuilt(_, _, output) => Some(output.id)
    case CompactLogging(_, _, output, _) => Some(output.id)
    case _ => None
  }

  ghost predicate Reserved(id: Option<nat>, logged: bool, levels: Levels, catalog: Catalog)
  {
    id.Some? ==>
      && id.value < catalog.nextId
      && Absent(levels, id.value)
      && (!logged ==> !Listed(catalog, id.value))
  }

  ghost predicate ReservedOk(s: State)
  {
    && Reserved(FlushId(s.flush), s.flush.Flushing? && s.flush.step.Logged?, s.levels, s.catalog)
    && Reserved(CompactId(s.compact), s.compact.CompactLogging?, s.levels, s.catalog)
    && (FlushId(s.flush).Some? ==> FlushId(s.flush) != CompactId(s.compact))
    && (s.flush.Flushing? && s.flush.step.Written? ==> OnDisk(s.flush.step.table, s.files))
    && (s.compact.CompactBuilt? ==> OnDisk(s.compact.output, s.files))
  }

  // ----- the compaction in flight -----

  /** `levels` is `base` after some flushes. */
  ghost predicate Extends(levels: Levels, base: Levels)
  {
    && |levels| == |base| > 0
    && |base[0]| <= |levels[0]|
    && levels[0][|levels[0]| - |base[0]|..] == base[0]
    && forall i :: 1 <= i < |levels| ==> levels[i] == base[i]
  }

  ghost predicate JobOk(options: Options, levels: Levels, compact: CompactPhase)
  {
    !compact.CompactIdle? ==>
      && Extends(levels, compact.base)
      && WellFormed(compact.base)
      && Picked(compact.base, compact.job)
      && (compact.CompactBuilt? || compact.CompactLogging? ==>
            compact.output.run == MergedRun(compact.base, compact.job, options))
      && (compact.CompactLogging? ==> compact.removed <= |compact.job.inputs|)
  }

  // ----- the manifest against the version -----

  /** The version the manifest describes: ahead of memory by a logged flush and a logged compaction. */
  ghost function Durable(levels: Levels, flush: FlushPhase, compact: CompactPhase): (r: Levels)
    ensures |r| == |levels|
  {
    var pending := Pending(levels, flush);
    if compact.CompactLogging? && compact.removed <= |compact.job.inputs| then
      Rewritten(pending, compact.job.outputLevel, compact.output, Ids(compact.job.inputs[..compact.removed]))
    else pending
  }

  /** The tables the manifest lists, level by level. */
  ghost function CatalogLevels(tables: seq<(nat, nat)>, files: map<nat, Table>, maxLevels: nat): (r: Levels)
    ensures |r| == maxLevels
  {
    seq(maxLevels, i requires 0 <= i < maxLevels =>
      if i == 0 then Reversed(OnLevel(tables, files, i, maxLevels)) else OnLevel(tables, files, i, maxLevels))
  }

  ghost predicate CatalogOk(s: State)
  {
    SameTables(Durable(s.levels, s.flush, s.compact), CatalogLevels(s.catalog.tables, s.files, s.options.maxLevels))
  }

  ghost predicate Inv(s: State)
  {
    && VersionOk(s.options, s.levels)
    && CoherentOk(s.levels, s.flush, s.wal)
    && LogOk(s.mem, s.flush, s.wal)
    && FlushOk(s.flush, s.levels)
    && DiskOk(s.catalog, s.files, s.options.maxLevels)
    && LevelIdsOk(s.levels, s.catalog.nextId)
    && ReservedOk(s)
    && JobOk(s.options, s.levels, s.compact)
    && CatalogOk(s)
  }

  // ----- writes -----

  lemma {:induction false} ReplayedProper(wal: seq<Operation>)
    requires forall i :: 0 <= i < |wal| ==> wal[i].key != []
    ensures ProperRun(Replayed(wal))
  {
    if wal == [] {
    } else {
      var n := |wal| - 1;
      ReplayedProper(wal[..n]);
      UpsertedSorted(Replayed(wal[..n]), wal[n].key, Effect(wal[n]));
    }
  }

  /** The value a key has once `op` is done. */
  function AfterWrite(before: Option<seq<byte>>, op: Operation, key: Key): Option<seq<byte>>
  {
    if key != op.key then before
    else match op
      case Put(_, value) => Some(value)
      case Delete(_) => None
  }

  lemma WriteStep(s: State, op: Operation)
    requires Inv(s) && Ready(s, Write(op))
    ensures Do(s, Write(op)).Ok?
    ensures var next := Do(s, Write(op)).value;
            Inv(next) && forall key :: Get(next, key) == AfterWrite(Get(s, key), op, key)
  {
    hide VersionOk, DiskOk, LevelIdsOk, JobOk, Reserved, SameTables, Durable, CatalogLevels, CoherentAt;
    var next := Do(s, Write(op)).value;
    assert (s.wal + [op])[..|s.wal|] == s.wal;
    ReplayedProper(s.wal);
    forall key
      ensures Get(next, key) == AfterWrite(Get(s, key), op, key)
      ensures Shielded(s.flush, s.wal, key) ==> Shielded(next.flush, next.wal, key)
    {
      UpsertedLookup(s.mem, op.key, Effect(op), key);
    }
  }

  /** The step succeeds, keeps the invariant, and a reader sees no difference. */
  ghost predicate Unseen(s: State, next: Result<State>)
  {
    next.Ok? && Inv(next.value) && forall key :: Get(next.value, key) == Get(s, key)
  }

  lemma FreezeStep(s: State)
    requires Inv(s) && Ready(s, Freeze)
    ensures Unseen(s, Do(s, Freeze))
  {
    hide VersionOk, DiskOk, LevelIdsOk, JobOk, SameTables, CatalogLevels, Rewritten, CoherentAt;
    ReplayedProper(s.wal);
  }

  lemma TruncateStep(s: State)
    requires Inv(s) && Ready(s, FlushTruncate)
    ensures Unseen(s, Do(s, FlushTruncate))
  {
    hide VersionOk, DiskOk, LevelIdsOk, JobOk, SameTables, CatalogLevels, Rewritten, Redundant, CoherentAt;
  }

  lemma FinishStep(s: State)
    requires Inv(s) && Ready(s, FlushFinish)
    ensures Unseen(s, Do(s, FlushFinish))
  {
    hide VersionOk, DiskOk, LevelIdsOk, JobOk, SameTables, CatalogLevels, Rewritten, CoherentAt;
  }
}
