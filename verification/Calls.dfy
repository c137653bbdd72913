/** Whole flushes and whole compactions with nothing else going on. */
module Calls {
  import opened Wrappers
  import opened Levels
  import opened Compaction
  import opened Picker
  import opened Install
  import opened Manifests
  import opened Machine
  import opened Invariant
  import opened Steps

  predicate Idle(s: State)
  {
    s.flush.FlushIdle? && s.compact.CompactIdle?
  }

  /** The state after a whole flush. */
  function Flushed(s: State, size: nat): State
  {
    var table := Table(s.catalog.nextId, s.mem, size);
    s.(mem := [], wal := [], levels := WithNewest(s.levels, table),
       catalog := WithTable(WithNextId(s.catalog), table.id, 0), files := s.files[table.id := table])
  }

  /** The states of a flush after its id, its file and its manifest record. */
  function FlushAt(s: State, size: nat, written: bool, listed: bool): State
    requires listed ==> written
  {
    var table := Table(s.catalog.nextId, s.mem, size);
    var step := if listed then Logged(table) else if written then Written(table) else Allocated(table.id);
    s.(mem := [], flush := Flushing(s.mem, step),
       files := if written then s.files[table.id := table] else s.files,
       catalog := if listed then WithTable(WithNextId(s.catalog), table.id, 0) else WithNextId(s.catalog))
  }

  /** The steps of a flush up to its manifest record. */
  lemma FlushSteps(s: State, size: nat)
    requires Inv(s) && Idle(s) && s.mem != []
    ensures !Listed(WithNextId(s.catalog), s.catalog.nextId)
    ensures Unseen(s, Ok(FlushAt(s, size, false, false)))
    ensures Unseen(s, Ok(FlushAt(s, size, true, false)))
    ensures Unseen(s, Ok(FlushAt(s, size, true, true)))
  {
    hide Inv, Get, Listed;
    FreezeStep(s);
    var s1 := Do(s, Freeze).value;
    FlushAllocateStep(s1);
    var s2 := Do(s1, FlushAllocate).value;
    FlushWriteStep(s2, size);
    var s3 := Do(s2, FlushWrite(size)).value;
    FlushLogStep(s3);
  }

  /** A flush succeeds and no reader sees it. */
  lemma FlushCall(s: State, size: nat)
    requires Inv(s) && Idle(s) && s.mem != []
    ensures !Listed(WithNextId(s.catalog), s.catalog.nextId)
    ensures Unseen(s, Ok(Flushed(s, size)))
  {
    hide Inv, Get, WithNewest, Listed;
    FlushSteps(s, size);
    var s4 := FlushAt(s, size, true, true);
    FlushInstallStep(s4);
    var s5 := Do(s4, FlushInstall).value;
    TruncateStep(s5);
    var s6 := Do(s5, FlushTruncate).value;
    FinishStep(s6);
    assert Do(s6, FlushFinish).value == Flushed(s, size);
  }

  function InputIds(tables: seq<Table>): (ids: seq<nat>)
    ensures |ids| == |tables|
    ensures forall i :: 0 <= i < |ids| ==> ids[i] == tables[i].id
  {
    seq(|tables|, i requires 0 <= i < |tables| => tables[i].id)
  }

  function OutputOf(s: State, job: Job, size: nat): Table
  {
    Table(s.catalog.nextId, MergedRun(s.levels, job, s.options), size)
  }

  /** The manifest after a compaction has logged its output and all its removals. */
  function CatalogAfterJob(c: Catalog, job: Job): Catalog
  {
    var added := WithTable(WithNextId(c), c.nextId, job.outputLevel);
    added.(tables := DroppedAll(added.tables, InputIds(job.inputs)))
  }

  /** The state after a whole compaction. */
  function Compacted(s: State, job: Job, size: nat): State
  {
    var output := OutputOf(s, job, size);
    s.(levels := Installed(s.levels, job, output), catalog := CatalogAfterJob(s.catalog, job),
      files := s.files[output.id := output])
  }

  /** The removals of a compaction, one after the other. */
  lemma {:induction false} RemoveInputs(s: State, n: nat) returns (next: State)
    requires Inv(s) && s.compact.CompactLogging? && s.compact.removed == 0 && n <= |s.compact.job.inputs|
    ensures next == s.(catalog :=
                         s.catalog.(tables := DroppedAll(s.catalog.tables, InputIds(s.compact.job.inputs)[..n])),
                       compact := s.compact.(removed := n))
    ensures Inv(next) && forall key :: Get(next, key) == Get(s, key)
  {
    hide Inv, Get;
    if n == 0 {
      next := s;
    } else {
      var before := RemoveInputs(s, n - 1);
      CompactLogRemoveStep(before);
      next := Do(before, CompactLogRemove).value;
      var ids := InputIds(s.compact.job.inputs);
      assert ids[..n][..n - 1] == ids[..n - 1];
    }
  }

  /** The states of a compaction after its id, its file and its add record. */
  function CompactAt(s: State, job: Job, size: nat, written: bool, listed: bool): State
    requires listed ==> written
  {
    var output := OutputOf(s, job, size);
    s.(compact := if listed then CompactLogging(s.levels, job, output, 0)
                  else if written then CompactBuilt(s.levels, job, output)
                  else CompactAllocated(s.levels, job, output.id),
       files := if written then s.files[output.id := output] else s.files,
       catalog := if listed then WithTable(WithNextId(s.catalog), output.id, job.outputLevel)
                  else WithNextId(s.catalog))
  }

  /** The steps of a compaction up to the record of its output. */
  lemma CompactSteps(s: State, job: Job, size: nat)
    requires Inv(s) && Idle(s) && Pick(s.levels, s.options) == Some(job)
    ensures !Listed(WithNextId(s.catalog), s.catalog.nextId)
    ensures Unseen(s, Ok(CompactAt(s, job, size, false, false)))
    ensures Unseen(s, Ok(CompactAt(s, job, size, true, false)))
    ensures Unseen(s, Ok(CompactAt(s, job, size, true, true)))
  {
    hide Inv, Get, Pick, MergedRun, Listed;
    CompactBeginStep(s);
    var s1 := Do(s, CompactBegin).value;
    CompactAllocateStep(s1);
    var s2 := Do(s1, CompactAllocate).value;
    CompactBuildStep(s2, size);
    var s3 := Do(s2, CompactBuild(size)).value;
    CompactLogAddStep(s3);
  }

  /** A compaction succeeds and no reader sees it. */
  lemma CompactCall(s: State, job: Job, size: nat)
    requires Inv(s) && Idle(s) && Pick(s.levels, s.options) == Some(job)
    ensures !Listed(WithNextId(s.catalog), s.catalog.nextId)
    ensures Unseen(s, Ok(Compacted(s, job, size)))
  {
    hide Inv, Get, Pick, Installed, MergedRun, Listed;
    CompactSteps(s, job, size);
    var half := CompactAt(s, job, size, true, true);
    var logged := RemoveInputs(half, |job.inputs|);
    CompactInstallStep(logged);
    var ids := InputIds(job.inputs);
    assert ids[..|job.inputs|] == ids;
    assert Do(logged, CompactInstall).value == Compacted(s, job, size);
  }
}
