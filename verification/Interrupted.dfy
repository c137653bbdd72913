/** A compaction that removes its newest inputs from the manifest first, cut between two removal records. */
module Interrupted {
  import opened Bytes
  import opened Wrappers
  import opened Runs
  import opened Levels
  import opened Compaction
  import opened Picker
  import opened Install
  import opened Cuts
  import opened MemTables
  import opened Machine
  import opened Invariant
  import opened Recovery
  import opened Steps
  import opened Refinement
  import opened ManifestOrder

  // ----- the first table that holds a key -----

  ghost function Holder(tables: seq<Table>, key: Key): (r: Option<Table>)
    ensures r.Some? ==> r.value in tables && Holds(r.value, key)
    ensures r.None? ==> !HeldIn(tables, key)
  {
    if tables == [] then None
    else if Holds(tables[0], key) then Some(tables[0])
    else
      var rest := Holder(tables[1..], key);
      assert tables == [tables[0]] + tables[1..];
      rest
  }

  lemma {:induction false} HolderAnswers(tables: seq<Table>, key: Key)
    ensures FirstIn(tables, key) ==
            if Holder(tables, key).None? then None else Lookup(Holder(tables, key).value.run, key)
  {
    if tables == [] {
    } else {
      HolderAnswers(tables[1..], key);
    }
  }

  lemma {:induction false} HolderConcat(a: seq<Table>, b: seq<Table>, key: Key)
    ensures Holder(a + b, key) == if Holder(a, key).Some? then Holder(a, key) else Holder(b, key)
  {
    if a == [] {
      assert a + b == b;
    } else {
      assert (a + b)[1..] == a[1..] + b;
      HolderConcat(a[1..], b, key);
    }
  }

  lemma {:induction false} HolderOverlapping(tables: seq<Table>, small: Key, large: Key, key: Key)
    requires forall t :: t in tables && Holds(t, key) ==> Overlaps(t, small, large)
    ensures Holder(Overlapping(tables, small, large), key) == Holder(tables, key)
  {
    hide Overlaps;
    if tables == [] {
    } else {
      var n := |tables| - 1;
      var rest := Overlapping(tables[..n], small, large);
      HolderOverlapping(tables[..n], small, large, key);
      assert tables == tables[..n] + [tables[n]];
      HolderConcat(tables[..n], [tables[n]], key);
      HolderConcat(rest, [tables[n]], key);
      assert rest + [] == rest;
    }
  }

  /** A table put in its place among sorted ones is read before those with a larger smallest key. */
  lemma InsertedHolder(tables: seq<Table>, output: Table, key: Key)
    requires BySmallest(tables)
    ensures var first := Holder(tables, key);
            Holder(InsertBySmallest(tables, output), key) ==
            if Holds(output, key) && (first.Some? ==> Lt(Smallest(output.run), Smallest(first.value.run)))
            then Some(output) else first
  {
    hide Lt, InsertBySmallest, Smallest;
    var p := InsertSplits(tables, output);
    var a, b := tables[..p], tables[p..];
    assert tables == a + b;
    HolderConcat(a, b, key);
    HolderConcat(a + [output], b, key);
    HolderConcat(a, [output], key);
    assert Holder([output], key) == if Holds(output, key) then Some(output) else None;
    NotBoth(output, a);
  }

  lemma NotBoth(output: Table, tables: seq<Table>)
    requires forall t :: t in tables ==> Le(Smallest(t.run), Smallest(output.run))
    ensures forall t :: t in tables ==> !Lt(Smallest(output.run), Smallest(t.run))
  {
    hide Lt, Rank;
    KeyOrder();
  }

  // ----- a version cut after `j` removals -----

  /** The lower inputs are the tables of the output level that overlap the upper ones, in its order. */
  ghost predicate LowerPicked(levels: Levels, job: Job)
    requires 1 <= job.outputLevel < |levels| && job.upper <= |job.inputs|
  {
    && BySmallest(levels[job.outputLevel])
    && Distinct(levels[job.outputLevel])
    && exists small, large :: job.inputs[job.upper..] == Overlapping(levels[job.outputLevel], small, large)
  }

  /** `after` is what reopening builds after the add record and the removal of the first `j` inputs. */
  ghost predicate CutOf(levels: Levels, job: Job, output: Table, dropTombstones: bool, j: nat, after: Levels)
  {
    && Prepared(levels, job, output, dropTombstones)
    && LowerPicked(levels, job)
    && j <= |job.inputs|
    && |after| == |levels|
    && var listed := Rewritten(levels, job.outputLevel, output, Ids(job.inputs[..j]));
    && after[0] == listed[0]
    && forall i :: 1 <= i < |after| ==> BySmallest(levels[i]) && after[i] == SortBySmallest(listed[i])
  }

  /** Outside the two levels of the job nothing moves. */
  lemma CutElsewhere(levels: Levels, job: Job, output: Table, dropTombstones: bool, j: nat, after: Levels, i: nat)
    requires CutOf(levels, job, output, dropTombstones, j, after) && i < |levels|
    requires i != job.outputLevel - 1 && i != job.outputLevel
    ensures after[i] == levels[i]
  {
    hide Fits, MergedFrom, Placed, Rewritten, BySmallest, SortBySmallest, LowerPicked;
    Untouched(levels, job, output, job.inputs[..j], i);
    if i > 0 {
      SortUnchanged(levels[i]);
    }
  }

  /** The upper level loses the removed inputs and keeps its order. */
  lemma CutUpperLevel(levels: Levels, job: Job, output: Table, dropTombstones: bool, j: nat, after: Levels)
    requires CutOf(levels, job, output, dropTombstones, j, after)
    ensures after[job.outputLevel - 1] == Retain(levels[job.outputLevel - 1], Ids(job.inputs[..j]))
  {
    hide Fits, MergedFrom, Placed, BySmallest, SortBySmallest, LowerPicked, Retain, Ids;
    var s, ids := job.outputLevel - 1, Ids(job.inputs[..j]);
    if s > 0 {
      RetainBySmallest(levels[s], ids);
      SortUnchanged(Retain(levels[s], ids));
    }
  }

  /** The output level loses the removed inputs, keeps its order, and has the output at its place. */
  lemma CutOutputLevel(levels: Levels, job: Job, output: Table, dropTombstones: bool, j: nat, after: Levels)
    requires CutOf(levels, job, output, dropTombstones, j, after)
    ensures BySmallest(Retain(levels[job.outputLevel], Ids(job.inputs[..j])))
    ensures after[job.outputLevel] ==
            InsertBySmallest(Retain(levels[job.outputLevel], Ids(job.inputs[..j])), output)
  {
    hide Fits, MergedFrom, Placed, BySmallest, SortBySmallest, LowerPicked, Retain, InsertBySmallest;
    var d, ids := job.outputLevel, Ids(job.inputs[..j]);
    var rest := Retain(levels[d], ids);
    OutputStays(levels, job, output, j);
    RetainConcat(levels[d], [output], ids);
    RetainUnchanged([output], ids);
    RetainBySmallest(levels[d], ids);
    SortUnchanged(rest);
    SortSnoc(rest, output);
  }

  lemma OutputStays(levels: Levels, job: Job, output: Table, j: nat)
    requires Placed(levels, job, output) && j <= |job.inputs|
    ensures output.id !in Ids(job.inputs[..j])
  {
    hide Placed;
    OutputNotInput(levels, job, output);
  }

  // ----- what is left of the inputs -----

  /** The lower inputs still listed, in the order of their level. */
  function LowerLeft(job: Job, j: nat): seq<Table>
    requires j <= |job.inputs| && job.upper <= |job.inputs|
  {
    if j <= job.upper then job.inputs[job.upper..] else job.inputs[j..]
  }

  lemma {:induction false} OverlappingRetain(tables: seq<Table>, small: Key, large: Key, ids: set<nat>)
    ensures Overlapping(Retain(tables, ids), small, large) == Retain(Overlapping(tables, small, large), ids)
  {
    hide Overlaps, Retain;
    if tables == [] {
      RetainNothing([], ids);
    } else {
      var n := |tables| - 1;
      var rest, found := Retain(tables[..n], ids), Overlapping(tables[..n], small, large);
      OverlappingRetain(tables[..n], small, large, ids);
      assert tables == tables[..n] + [tables[n]];
      RetainConcat(tables[..n], [tables[n]], ids);
      RetainConcat(found, [tables[n]], ids);
      RetainOne(tables[n], ids);
      OverlappingSnoc(rest, tables[n], small, large);
      assert rest + [] == rest && found + [] == found;
      assert Retain(found, ids) + [] == Retain(found, ids);
    }
  }

  lemma OverlappingSnoc(tables: seq<Table>, t: Table, small: Key, large: Key)
    ensures Overlapping(tables + [t], small, large) ==
            Overlapping(tables, small, large) + if Overlaps(t, small, large) then [t] else []
  {
    assert (tables + [t])[..|tables|] == tables;
  }

  lemma {:induction false} OverlappingDistinct(tables: seq<Table>, small: Key, large: Key)
    requires Distinct(tables)
    ensures Distinct(Overlapping(tables, small, large))
  {
    hide Overlaps;
    if tables == [] {
    } else {
      var n := |tables| - 1;
      OverlappingDistinct(tables[..n], small, large);
      OverlappingMembers(tables[..n], small, large);
      assert tables[n] !in tables[..n];
    }
  }

  /** Of the lower inputs, removing the first ones by id leaves the others. */
  lemma LowerRetained(levels: Levels, job: Job, output: Table, j: nat)
    requires Placed(levels, job, output) && LowerPicked(levels, job) && j <= |job.inputs|
    ensures Retain(job.inputs[job.upper..], Ids(job.inputs[..j])) == LowerLeft(job, j)
  {
    hide BySmallest, Distinct, Overlapping, Retain, Identified;
    var lower, removed := job.inputs[job.upper..], job.inputs[..j];
    var small, large :| lower == Overlapping(levels[job.outputLevel], small, large);
    OverlappingDistinct(levels[job.outputLevel], small, large);
    var k := if j <= job.upper then 0 else j - job.upper;
    forall i | 0 <= i < |lower|
      ensures lower[i].id in Ids(removed) <==> 0 <= i < k
    {
      LowerRemoved(levels, job, output, j, i);
    }
    RetainRange(lower, 0, k, Ids(removed));
    assert lower[..0] + lower[k..] == lower[k..] == LowerLeft(job, j);
  }

  lemma LowerRemoved(levels: Levels, job: Job, output: Table, j: nat, i: nat)
    requires Placed(levels, job, output) && Distinct(job.inputs[job.upper..]) && j <= |job.inputs|
    requires i < |job.inputs| - job.upper
    ensures job.inputs[job.upper..][i].id in Ids(job.inputs[..j]) <==> i + job.upper < j
  {
    var lower, removed := job.inputs[job.upper..], job.inputs[..j];
    RemovedById(levels, job, output, removed, job.outputLevel, lower[i]);
    if i + job.upper < j {
      assert removed[i + job.upper] == lower[i];
    } else {
      LowerNotUpper(levels, job, output, lower[i]);
      forall m | 0 <= m < j
        ensures removed[m] != lower[i]
      {
        if m < job.upper {
          assert removed[m] in job.inputs[..job.upper];
        } else {
          assert removed[m] == lower[m - job.upper];
        }
      }
    }
  }

  // ----- what a key reads as after the cut -----

  /** The output is read before a table of its level. */
  ghost predicate OutputFirst(output: Table, t: Table, key: Key)
  {
    Holds(output, key) && Lt(Smallest(output.run), Smallest(t.run))
  }

  /** The first upper input left, or the first lower one unless the output comes before it, or the winner. */
  ghost function ShownAfter(job: Job, output: Table, j: nat, key: Key): Option<Entry>
    requires j <= |job.inputs| && job.upper <= |job.inputs|
  {
    if HeldIn(UpperLeft(job, j), key) then FirstIn(UpperLeft(job, j), key)
    else
      var lower := Holder(LowerLeft(job, j), key);
      if lower.Some? && !OutputFirst(output, lower.value, key) then Lookup(lower.value.run, key)
      else FirstIn(job.inputs, key)
  }

  /** The output level, for a key the upper inputs hold: all its other holders there are lower inputs. */
  lemma CutLower(levels: Levels, job: Job, output: Table, dropTombstones: bool, j: nat, after: Levels, key: Key)
    requires CutOf(levels, job, output, dropTombstones, j, after) && HeldIn(job.inputs[..job.upper], key)
    ensures var first := Holder(LowerLeft(job, j), key);
            FirstIn(after[job.outputLevel], key) ==
            if first.Some? && !OutputFirst(output, first.value, key) then Lookup(first.value.run, key)
            else Lookup(output.run, key)
  {
    hide MergedFrom, Placed, Rewritten, BySmallest, Distinct, Overlapping, Retain, InsertBySmallest, Ids, Lt;
    var d, ids := job.outputLevel, Ids(job.inputs[..j]);
    var rest := Retain(levels[d], ids);
    CutOutputLevel(levels, job, output, dropTombstones, j, after);
    var small, large :| job.inputs[job.upper..] == Overlapping(levels[d], small, large);
    OverlappingMembers(levels[d], small, large);
    RetainMembers(levels[d], ids);
    HolderOverlapping(rest, small, large, key);
    OverlappingRetain(levels[d], small, large, ids);
    LowerRetained(levels, job, output, j);
    InsertedHolder(rest, output, key);
    HolderAnswers(after[d], key);
  }

  /** A version cut by the machine lists what the cut says it lists. */
  lemma CutOfLists(levels: Levels, job: Job, output: Table, dropTombstones: bool, j: nat, after: Levels)
    requires CutOf(levels, job, output, dropTombstones, j, after)
    ensures CutLists(levels, job, output, dropTombstones, j, after)
  {
    hide Fits, MergedFrom, Placed, Rewritten, LowerPicked, BySmallest, SortBySmallest, Retain, Ids, InsertBySmallest;
    var d, ids := job.outputLevel, Ids(job.inputs[..j]);
    CutUpperLevel(levels, job, output, dropTombstones, j, after);
    CutOutputLevel(levels, job, output, dropTombstones, j, after);
    InsertKeeps(Retain(levels[d], ids), output);
    RetainMembers(levels[d], ids);
    forall t | t in levels[d]
      ensures t.id in ids <==> t in job.inputs[..j]
    {
      RemovedById(levels, job, output, job.inputs[..j], d, t);
    }
    forall i | 0 <= i < |levels| && i != d - 1 && i != d
      ensures after[i] == levels[i]
    {
      CutElsewhere(levels, job, output, dropTombstones, j, after, i);
    }
  }

  /** What reopening shows for a key of the inputs that no table outside the job hides. */
  lemma CutAnswer(levels: Levels, job: Job, output: Table, dropTombstones: bool, j: nat, after: Levels, key: Key)
    requires CutOf(levels, job, output, dropTombstones, j, after) && CoherentAt(levels, key)
    requires Exposed(levels, job, key) && HeldIn(job.inputs, key)
    ensures Visible(LookupFrom(after, 0, key)) == Visible(ShownAfter(job, output, j, key))
  {
    hide Fits, Placed, Rewritten, LowerPicked, BySmallest, SortBySmallest, UpperLeft, LowerLeft, Lt, OutputFirst,
         FirstIn, Lookup, HeldAbove, Holder, CutLists, CoherentAt;
    CutOfLists(levels, job, output, dropTombstones, j, after);
    CutAbove(levels, job, output, dropTombstones, j, after, key);
    CutUpper(levels, job, output, dropTombstones, j, after, key);
    FirstInHolder(UpperLeft(job, j), key);
    FirstInHolder(job.inputs, key);
    if !HeldIn(UpperLeft(job, j), key) {
      if HeldIn(job.inputs[..job.upper], key) {
        CutLower(levels, job, output, dropTombstones, j, after, key);
        CutBelow(levels, job, output, dropTombstones, j, after, key);
        OutputHolds(output, Holder(LowerLeft(job, j), key), key);
      } else {
        UpperSilent(levels, job, output, key);
        WinnerAgreed(levels, job, output, dropTombstones, key);
        CutAgreed(levels, job, output, dropTombstones, j, after, key);
        LowerAgreed(levels, job, output, dropTombstones, j, key);
      }
    }
  }

  lemma OutputHolds(output: Table, first: Option<Table>, key: Key)
    ensures first.Some? && OutputFirst(output, first.value, key) ==> Holds(output, key)
  {
  }

  lemma LowerAgreed(levels: Levels, job: Job, output: Table, dropTombstones: bool, j: nat, key: Key)
    requires Prepared(levels, job, output, dropTombstones) && j <= |job.inputs|
    requires CoherentAt(levels, key) && HeldIn(job.inputs, key) && !HeldAbove(levels, job.outputLevel, key)
    ensures var first := Holder(LowerLeft(job, j), key);
            first.Some? ==> Lookup(first.value.run, key) == FirstIn(job.inputs, key)
  {
    hide Fits, MergedFrom;
    WinnerAgreed(levels, job, output, dropTombstones, key);
    forall t | t in LowerLeft(job, j)
      ensures t in levels[job.outputLevel]
    {
      assert t in job.inputs[job.upper..];
    }
  }

  // ----- on the machine -----

  /** Reopening builds the version with the output added and the first inputs gone. */
  lemma CutVersion(s: State)
    requires Inv(s) && OrderOk(s) && s.compact.CompactLogging?
    ensures CutOf(Pending(s.levels, s.flush), s.compact.job, s.compact.output,
                  DropsTombstones(s.compact.base, s.compact.job, s.options), s.compact.removed,
                  RecoveredLevels(s.catalog, s.files, s.options.maxLevels))
  {
    hide Inv, NewestFirst, ManifestAlike, Prepared, Rewritten, RecoveredLevels, BySmallest, SortBySmallest,
         LowerPicked, DropsTombstones, Distinct, Ids;
    LoggingRange(s);
    RecoveredIs(s);
    LoggedLower(s);
    LoggedPrepared(s);
  }

  lemma LoggedPrepared(s: State)
    requires Inv(s) && s.compact.CompactLogging?
    ensures Prepared(Pending(s.levels, s.flush), s.compact.job, s.compact.output,
                     DropsTombstones(s.compact.base, s.compact.job, s.options))
  {
    hide VersionOk, LogOk, FlushOk, DiskOk, LevelIdsOk, ReservedOk, CatalogOk, JobOk, Pending, Absent, Prepared,
         DropsTombstones, ProperRun;
    PendingVersionOk(s);
    PreparedVersion(s.options, Pending(s.levels, s.flush), s.compact);
  }

  lemma LoggedLower(s: State)
    requires Inv(s) && OrderOk(s) && s.compact.CompactLogging?
    requires 1 <= s.compact.job.outputLevel < |s.levels| && s.compact.job.upper <= |s.compact.job.inputs|
    ensures LowerPicked(Pending(s.levels, s.flush), s.compact.job)
  {
    hide VersionOk, LogOk, FlushOk, DiskOk, LevelIdsOk, ReservedOk, CatalogOk, NewestFirst, ManifestAlike, BySmallest,
         Distinct, Overlapping, Span, MergedRun, WellFormed;
  }

  /** A key of the inputs that the log does not rebuild and no table outside the job hides. */
  ghost predicate AtStake(s: State, key: Key)
    requires !s.compact.CompactIdle? && 1 <= s.compact.job.outputLevel < |s.levels|
  {
    && Lookup(Replayed(s.wal), key).None?
    && HeldIn(s.compact.job.inputs, key)
    && Exposed(Pending(s.levels, s.flush), s.compact.job, key)
  }

  lemma AnswerFromLog(s: State, key: Key)
    requires Inv(s) && Lookup(Replayed(s.wal), key).Some?
    ensures Get(s, key) == Visible(Lookup(Replayed(s.wal), key))
  {
    hide VersionOk, FlushOk, DiskOk, LevelIdsOk, ReservedOk, JobOk, CatalogOk, ProperRun;
  }

  lemma FilesOk(s: State)
    requires Inv(s)
    ensures FilesPresent(s)
  {
    hide VersionOk, LogOk, FlushOk, LevelIdsOk, ReservedOk, JobOk, CatalogOk;
  }

  /** What every key reads as when the engine is reopened while a compaction is being logged. */
  lemma InterruptedReads(s: State, key: Key)
    requires Inv(s) && OrderOk(s) && s.compact.CompactLogging?
    ensures 1 <= s.compact.job.outputLevel < |s.levels|
    ensures s.compact.job.upper <= |s.compact.job.inputs| && s.compact.removed <= |s.compact.job.inputs|
    ensures Reopened(s).Ok?
    ensures Get(Reopened(s).value, key) ==
            if AtStake(s, key) then Visible(ShownAfter(s.compact.job, s.compact.output, s.compact.removed, key))
            else Get(s, key)
    ensures AtStake(s, key) ==> Get(s, key) == Visible(FirstIn(s.compact.job.inputs, key))
  {
    hide Inv, OrderOk, CutOf, CutLists, Prepared, RecoveredLevels, Pending, Exposed, DropsTombstones, ShownAfter,
         FilesPresent, CoherentAt, SameAt;
    var job, output, j := s.compact.job, s.compact.output, s.compact.removed;
    var levels, drop := Pending(s.levels, s.flush), DropsTombstones(s.compact.base, s.compact.job, s.options);
    var after := RecoveredLevels(s.catalog, s.files, s.options.maxLevels);
    LoggingRange(s);
    FilesOk(s);
    CutVersion(s);
    CutOfLists(levels, job, output, drop, j, after);
    LoggedPrepared(s);
    RecoveredAnswer(s, key);
    if Lookup(Replayed(s.wal), key).Some? {
      AnswerFromLog(s, key);
    } else {
      PendingCoherent(s, key);
      if !Exposed(levels, job, key) {
        CutHidden(levels, job, output, drop, j, after, key);
      } else if HeldIn(job.inputs, key) {
        CutAnswer(levels, job, output, drop, j, after, key);
        RunningAnswer(levels, job, output, drop, key);
      } else {
        CutNotHeld(levels, job, output, drop, j, after, key);
        SameAtKeeps(levels, after, key);
      }
    }
  }

  // ----- exactly when it is safe for good -----

  /** Reopening restores the invariant and every read exactly where the machine lets the process die. */
  lemma CrashExactly(s: State)
    requires Inv(s)
    ensures CrashOk(s) <==> Unseen(s, Reopened(s))
  {
    hide Inv, Reopened, Get, Lasting;
    if CrashOk(s) {
      CrashStep(s);
    } else if Unseen(s, Reopened(s)) {
      UnseenLasting(s);
    }
  }

  lemma UnseenLasting(s: State)
    requires Inv(s) && MidRemoval(s) && Unseen(s, Reopened(s))
    ensures Lasting(s)
  {
    hide Inv, Reopened, Get, LastingAt, Pending;
    LoggingRange(s);
    forall key | Lookup(Replayed(s.wal), key).None?
      ensures LastingAt(Pending(s.levels, s.flush), s.compact.job, s.compact.removed, key)
    {
      KeptLasting(s, key);
    }
  }

  lemma KeptLasting(s: State, key: Key)
    requires Inv(s) && s.compact.CompactLogging? && Lookup(Replayed(s.wal), key).None?
    requires Unseen(s, Reopened(s))
    ensures 1 <= s.compact.job.outputLevel < |s.levels| && s.compact.job.upper <= |s.compact.job.inputs|
    ensures s.compact.removed <= |s.compact.job.inputs|
    ensures LastingAt(Pending(s.levels, s.flush), s.compact.job, s.compact.removed, key)
  {
    hide Inv, Pending, Durable, RecoveredLevels, SameTables, CoherentAt, LastingAt, VersionOk, LevelIdsOk,
         CatalogLevels, FilesPresent;
    var durable := Durable(s.levels, s.flush, s.compact);
    var levels := RecoveredLevels(s.catalog, s.files, s.options.maxLevels);
    RecoveredVersion(s);
    SameSymmetric(durable, levels);
    SameKeeps(levels, durable, key);
    ReopenedCoherent(Reopened(s).value, key);
    RecoveredAnswer(s, key);
    DurableKeeps(s, key);
  }

  lemma ReopenedCoherent(s: State, key: Key)
    requires Inv(s) && s.flush.FlushIdle? && Lookup(Replayed(s.wal), key).None?
    ensures CoherentAt(s.levels, key)
    ensures Get(s, key) == Visible(LookupFrom(s.levels, 0, key))
  {
    hide VersionOk, FlushOk, DiskOk, LevelIdsOk, ReservedOk, JobOk, CatalogOk, CoherentAt;
  }

  /**
   * Every run that ends while a compaction is being logged, at any number of
   * removals: reopening there restores the invariant and every read if and only
   * if no key at stake suffers lasting harm.
   */
  lemma RunsInterrupted(options: Options, actions: seq<Action>)
    requires Usable(options) && Legal(options, actions)
    requires RunOf(options, actions).Ok? ==> RunOf(options, actions).value.compact.CompactLogging?
    ensures RunOf(options, actions).Ok?
    ensures var s := RunOf(options, actions).value; Lasting(s) <==> Unseen(s, Reopened(s))
  {
    hide Inv, Legal, RunOf, Reopened, Get, LastingAt, Unseen;
    RunsMatchReference(options, actions);
    var s := RunOf(options, actions).value;
    CrashExactly(s);
    if MidRemoval(s) {
    } else {
      WholeLasting(s);
    }
  }

  /** Before the first removal and after the last one every key is safe for good. */
  lemma WholeLasting(s: State)
    requires Inv(s) && s.compact.CompactLogging? && !MidRemoval(s)
    ensures Lasting(s)
  {
    hide Inv, LastingAt, Pending, Durable, Keeps;
    LoggingRange(s);
    forall key | Lookup(Replayed(s.wal), key).None?
      ensures LastingAt(Pending(s.levels, s.flush), s.compact.job, s.compact.removed, key)
    {
      WholeKeeps(s, key);
      DurableKeeps(s, key);
    }
  }

  // ----- the whole log of one compaction -----

  /** The add record and `j` removals. */
  function LogSteps(j: nat): seq<Action>
  {
    if j == 0 then [CompactLogAdd] else LogSteps(j - 1) + [CompactLogRemove]
  }

  /** `t` is `s` with the output and `j` removals in the manifest. */
  ghost predicate LoggedFrom(s: State, t: State, j: nat)
    requires s.compact.CompactBuilt?
  {
    && t.compact == CompactLogging(s.compact.base, s.compact.job, s.compact.output, j)
    && t.options == s.options
    && t.mem == s.mem
    && t.levels == s.levels
    && t.flush == s.flush
    && t.wal == s.wal
  }

  lemma {:induction false} LogReached(options: Options, actions: seq<Action>, j: nat)
    requires Usable(options) && Legal(options, actions) && RunOf(options, actions).Ok?
    requires RunOf(options, actions).value.compact.CompactBuilt?
    requires j <= |RunOf(options, actions).value.compact.job.inputs|
    ensures Legal(options, actions + LogSteps(j))
    ensures RunOf(options, actions + LogSteps(j)).Ok?
    ensures LoggedFrom(RunOf(options, actions).value, RunOf(options, actions + LogSteps(j)).value, j)
  {
    hide Legal, RunOf, Ready, Do, LoggedFrom, Inv, Get;
    var s := RunOf(options, actions).value;
    if j == 0 {
      AddLogged(s);
      RunsMatchReference(options, actions);
      AnyStep(s, CompactLogAdd);
      OneMore(options, actions, s, CompactLogAdd);
    } else {
      LogReached(options, actions, j - 1);
      var run := actions + LogSteps(j - 1);
      assert actions + LogSteps(j) == run + [CompactLogRemove];
      var t := RunOf(options, run).value;
      RemovalLogged(s, t, j - 1);
      RunsMatchReference(options, run);
      AnyStep(t, CompactLogRemove);
      OneMore(options, run, t, CompactLogRemove);
    }
  }

  lemma AddLogged(s: State)
    requires s.compact.CompactBuilt?
    ensures Ready(s, CompactLogAdd)
    ensures Do(s, CompactLogAdd).Ok? ==> LoggedFrom(s, Do(s, CompactLogAdd).value, 0)
  {
  }

  lemma RemovalLogged(s: State, t: State, j: nat)
    requires s.compact.CompactBuilt? && LoggedFrom(s, t, j) && j < |s.compact.job.inputs|
    ensures Ready(t, CompactLogRemove)
    ensures Do(t, CompactLogRemove).Ok? ==> LoggedFrom(s, Do(t, CompactLogRemove).value, j + 1)
  {
  }

  /** Every input that holds the key has the entry of the newest. */
  ghost predicate InputsAgree(job: Job, key: Key)
  {
    forall t :: t in job.inputs && Holds(t, key) ==> Lookup(t.run, key) == FirstIn(job.inputs, key)
  }

  /** An exposed key of the inputs is safe after every number of removals exactly when the inputs agree on it. */
  lemma LastingThroughout(levels: Levels, job: Job, key: Key)
    requires 1 <= job.outputLevel < |levels| && job.upper <= |job.inputs|
    requires HeldIn(job.inputs, key) && Exposed(levels, job, key)
    requires forall t :: t in job.inputs[job.upper..] ==> t !in job.inputs[..job.upper]
    ensures (forall j: nat :: j <= |job.inputs| ==> LastingAt(levels, job, j, key)) <==> InputsAgree(job, key)
  {
    hide Exposed, HeldAbove;
    if InputsAgree(job, key) {
      forall j: nat | j <= |job.inputs|
        ensures LastingAt(levels, job, j, key)
      {
        AgreeLasts(levels, job, j, key);
      }
    }
    if forall j: nat :: j <= |job.inputs| ==> LastingAt(levels, job, j, key) {
      forall i | 0 <= i < |job.inputs| && Holds(job.inputs[i], key)
        ensures Lookup(job.inputs[i].run, key) == FirstIn(job.inputs, key)
      {
        if i < job.upper {
          assert LastingAt(levels, job, i, key);
          assert UpperLeft(job, i)[0] == job.inputs[i] && UpperLeft(job, i)[0] in UpperLeft(job, i);
        } else {
          assert LastingAt(levels, job, job.upper, key);
          assert UpperLeft(job, job.upper) == [];
          assert job.inputs[i] == job.inputs[job.upper..][i - job.upper];
          assert LowerRemains(job, job.upper, job.inputs[i]);
        }
      }
    }
  }

  lemma AgreeLasts(levels: Levels, job: Job, j: nat, key: Key)
    requires 1 <= job.outputLevel < |levels| && job.upper <= |job.inputs| && j <= |job.inputs|
    requires InputsAgree(job, key)
    ensures LastingAt(levels, job, j, key)
  {
    hide Exposed, HeldAbove;
    FirstInHolder(UpperLeft(job, j), key);
    forall t | t in UpperLeft(job, j) || LowerRemains(job, j, t)
      ensures t in job.inputs
    {
    }
  }

  /** After `j` removals every key that the log does not rebuild is safe for good. */
  ghost predicate LastsAfter(s: State, j: nat)
    requires !s.compact.CompactIdle? && 1 <= s.compact.job.outputLevel < |s.levels|
    requires s.compact.job.upper <= |s.compact.job.inputs| && j <= |s.compact.job.inputs|
  {
    forall key :: Lookup(Replayed(s.wal), key).None? ==>
      LastingAt(Pending(s.levels, s.flush), s.compact.job, j, key)
  }

  /** Reopening after the add record and `j` removals restores the invariant and every read. */
  ghost predicate UnseenAfter(options: Options, actions: seq<Action>, j: nat)
  {
    && Legal(options, actions + LogSteps(j))
    && RunOf(options, actions + LogSteps(j)).Ok?
    && Unseen(RunOf(options, actions + LogSteps(j)).value, Reopened(RunOf(options, actions + LogSteps(j)).value))
  }

  /**
   * In every run that has built its output, removing the inputs newest first, as the
   * engine does, is safe after every removal exactly when the inputs agree on every
   * key at stake: when the compaction overwrites nothing that could be read.
   */
  lemma NewestFirstExactly(options: Options, actions: seq<Action>)
    requires Usable(options) && Legal(options, actions) && RunOf(options, actions).Ok?
    requires RunOf(options, actions).value.compact.CompactBuilt?
    ensures var s := RunOf(options, actions).value;
            && 1 <= s.compact.job.outputLevel < |s.levels|
            && ((forall j: nat :: j <= |s.compact.job.inputs| ==> UnseenAfter(options, actions, j)) <==>
                  (forall key :: AtStake(s, key) ==> InputsAgree(s.compact.job, key)))
  {
    hide Inv, Legal, RunOf, Unseen, InputsAgree, LastingAt, Exposed, Pending;
    var s := RunOf(options, actions).value;
    RunsMatchReference(options, actions);
    LoggingRange(s);
    forall j: nat | j <= |s.compact.job.inputs|
      ensures UnseenAfter(options, actions, j) <==> LastsAfter(s, j)
    {
      LogReached(options, actions, j);
      RunsInterrupted(options, actions + LogSteps(j));
    }
    StakesAgree(s);
  }

  lemma BuiltUpper(s: State)
    requires Inv(s) && s.compact.CompactBuilt?
    requires 1 <= s.compact.job.outputLevel < |s.levels| && s.compact.job.upper <= |s.compact.job.inputs|
    ensures forall t :: t in s.compact.job.inputs[s.compact.job.upper..] ==>
              t !in s.compact.job.inputs[..s.compact.job.upper]
  {
    hide LogOk, FlushOk, DiskOk, LevelIdsOk, CatalogOk, CoherentOk, Extends, Picked, WellFormed, MergedRun, ProperRun,
         DropsTombstones, Fits, MergedFrom;
    var job, output := s.compact.job, s.compact.output;
    PreparedVersion(s.options, s.levels, CompactLogging(s.compact.base, job, output, 0));
    forall t | t in job.inputs[job.upper..]
      ensures t !in job.inputs[..job.upper]
    {
      LowerNotUpper(s.levels, job, output, t);
    }
  }

  lemma StakesAgree(s: State)
    requires Inv(s) && s.compact.CompactBuilt?
    requires 1 <= s.compact.job.outputLevel < |s.levels| && s.compact.job.upper <= |s.compact.job.inputs|
    ensures (forall j: nat :: j <= |s.compact.job.inputs| ==> LastsAfter(s, j)) <==>
            (forall key :: AtStake(s, key) ==> InputsAgree(s.compact.job, key))
  {
    hide Inv, InputsAgree, Pending, Exposed, LastingAt;
    var pending, job := Pending(s.levels, s.flush), s.compact.job;
    BuiltUpper(s);
    forall key | Lookup(Replayed(s.wal), key).None?
      ensures (forall j: nat :: j <= |job.inputs| ==> LastingAt(pending, job, j, key)) <==>
              (AtStake(s, key) ==> InputsAgree(job, key))
    {
      if AtStake(s, key) {
        LastingThroughout(pending, job, key);
      } else {
        NotAtStake(pending, job, key);
      }
    }
    if forall j: nat :: j <= |job.inputs| ==> LastsAfter(s, j) {
      forall j: nat, key | j <= |job.inputs| && Lookup(Replayed(s.wal), key).None?
        ensures LastingAt(pending, job, j, key)
      {
        assert LastsAfter(s, j);
      }
    }
  }

  lemma NotAtStake(levels: Levels, job: Job, key: Key)
    requires 1 <= job.outputLevel < |levels| && job.upper <= |job.inputs|
    requires !(HeldIn(job.inputs, key) && Exposed(levels, job, key))
    ensures forall j: nat :: j <= |job.inputs| ==> LastingAt(levels, job, j, key)
  {
    hide Exposed, HeldIn;
  }
}
