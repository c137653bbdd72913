/** Replacing the inputs of a compaction by its output keeps every key's visible value. */
module Compaction {
  import opened Bytes
  import opened Wrappers
  import opened Runs
  import opened Levels

  /**
   * The inputs newest first: the first `upper` come from the level above the
   * output level (all of L0, or one table of a deeper level), the rest from the
   * output level itself.
   */
  datatype Job = Job(inputs: seq<Table>, upper: nat, outputLevel: nat)

  /** The winning entry of a merge, after tombstones are dropped. */
  function Surviving(found: Option<Entry>, dropTombstones: bool): Option<Entry>
  {
    if dropTombstones && found == Some(Tombstone) then None else found
  }

  ghost predicate MergedFrom(output: Table, job: Job, dropTombstones: bool)
  {
    forall key :: Lookup(output.run, key) == Surviving(FirstIn(job.inputs, key), dropTombstones)
  }

  /**
   * What a job promises about a version: where its inputs are, that the output
   * level keeps no other table holding a key of the upper inputs, and that
   * tombstones are dropped only over keys no deeper table holds.
   */
  ghost predicate Fits(levels: Levels, job: Job, dropTombstones: bool)
  {
    && 1 <= job.outputLevel < |levels|
    && job.upper <= |job.inputs|
    && var above := job.outputLevel - 1;
    && var upper := job.inputs[..job.upper];
    && (above == 0 ==> job.upper <= |levels[0]| && levels[0][|levels[0]| - job.upper..] == upper)
    && (above > 0 ==> job.upper == 1 && job.inputs[0] in levels[above])
    && (forall t :: t in job.inputs[job.upper..] ==> t in levels[job.outputLevel])
    && (forall t, key :: t in levels[job.outputLevel] && Holds(t, key) && HeldIn(upper, key) ==>
          t in job.inputs[job.upper..])
    && (dropTombstones ==>
          forall i, key :: job.outputLevel < i < |levels| && HeldIn(job.inputs, key) ==>
            !HeldIn(levels[i], key))
  }

  /** The version with `output` added at its level and the tables named by `ids` removed. */
  function Rewritten(levels: Levels, outputLevel: nat, output: Table, ids: set<nat>): (r: Levels)
    ensures |r| == |levels|
  {
    seq(|levels|, i requires 0 <= i < |levels| =>
      Retain(if i == outputLevel then levels[i] + [output] else levels[i], ids))
  }

  /** Inputs sit in the two levels of the job, ids are unique, and the output's is new. */
  ghost predicate Placed(levels: Levels, job: Job, output: Table)
  {
    && 1 <= job.outputLevel < |levels|
    && job.upper <= |job.inputs|
    && (forall t :: t in job.inputs[..job.upper] ==> t in levels[job.outputLevel - 1])
    && (forall t :: t in job.inputs[job.upper..] ==> t in levels[job.outputLevel])
    && Identified(levels)
    && (forall i, t :: 0 <= i < |levels| && t in levels[i] ==> t.id != output.id)
  }

  lemma FitsPlaced(levels: Levels, job: Job, output: Table, dropTombstones: bool)
    requires Fits(levels, job, dropTombstones) && Identified(levels)
    requires forall i, t :: 0 <= i < |levels| && t in levels[i] ==> t.id != output.id
    ensures Placed(levels, job, output)
  {
    forall t | t in job.inputs[..job.upper]
      ensures t in levels[job.outputLevel - 1]
    {
      if job.outputLevel == 1 {
        assert t in levels[0][|levels[0]| - job.upper..];
      }
    }
  }

  // ----- where tables end up -----

  lemma InputLevel(levels: Levels, job: Job, output: Table, t: Table)
    requires Placed(levels, job, output) && t in job.inputs
    ensures t in levels[job.outputLevel - 1] || t in levels[job.outputLevel]
    ensures t.id != output.id
  {
    assert job.inputs == job.inputs[..job.upper] + job.inputs[job.upper..];
  }

  lemma LowerNotUpper(levels: Levels, job: Job, output: Table, t: Table)
    requires Placed(levels, job, output) && t in job.inputs[job.upper..]
    ensures t in levels[job.outputLevel] && t !in levels[job.outputLevel - 1]
  {
    var s, d := job.outputLevel - 1, job.outputLevel;
    assert t in levels[d];
    assert forall u :: u in levels[s] && u.id == t.id ==> s == d;
  }

  /** An id among the removed inputs names no other table of the version. */
  lemma RemovedById(levels: Levels, job: Job, output: Table, removed: seq<Table>, i: nat, t: Table)
    requires Placed(levels, job, output) && i < |levels| && t in levels[i]
    requires forall u :: u in removed ==> u in job.inputs
    ensures t.id in Ids(removed) <==> t in removed
    ensures output.id !in Ids(removed)
    ensures t in removed ==> i == job.outputLevel - 1 || i == job.outputLevel
  {
    if t.id in Ids(removed) {
      var u :| u in removed && u.id == t.id;
      InputLevel(levels, job, output, u);
    }
    if output.id in Ids(removed) {
      var u :| u in removed && u.id == output.id;
      InputLevel(levels, job, output, u);
    }
  }

  /** Removing some of the inputs leaves the other tables, and the output, in place. */
  lemma Kept(levels: Levels, job: Job, output: Table, removed: seq<Table>, i: nat)
    requires Placed(levels, job, output) && i < |levels|
    requires forall u :: u in removed ==> u in job.inputs
    ensures forall t :: t in Rewritten(levels, job.outputLevel, output, Ids(removed))[i] <==>
              (t in levels[i] && t !in removed) || (i == job.outputLevel && t == output)
    ensures output !in levels[i]
  {
    var ids := Ids(removed);
    RetainMembers(if i == job.outputLevel then levels[i] + [output] else levels[i], ids);
    forall t | t in levels[i]
      ensures t.id in ids <==> t in removed
    {
      RemovedById(levels, job, output, removed, i, t);
    }
    if output.id in ids {
      var u :| u in removed && u.id == output.id;
      InputLevel(levels, job, output, u);
    }
  }

  lemma Untouched(levels: Levels, job: Job, output: Table, removed: seq<Table>, i: nat)
    requires Placed(levels, job, output) && i < |levels|
    requires forall u :: u in removed ==> u in job.inputs
    requires i != job.outputLevel - 1 && i != job.outputLevel
    ensures Rewritten(levels, job.outputLevel, output, Ids(removed))[i] == levels[i]
  {
    forall t | t in levels[i]
      ensures t.id !in Ids(removed)
    {
      RemovedById(levels, job, output, removed, i, t);
    }
    RetainUnchanged(levels[i], Ids(removed));
  }

  /** The version while the inputs from position `keep` on are gone: 0 is the installed version. */
  ghost function Partly(levels: Levels, job: Job, output: Table, keep: nat): (after: Levels)
    requires keep <= |job.inputs|
    ensures |after| == |levels|
  {
    Rewritten(levels, job.outputLevel, output, Ids(job.inputs[keep..]))
  }

  lemma OtherLevels(levels: Levels, job: Job, output: Table, keep: nat)
    requires Placed(levels, job, output) && keep <= |job.inputs|
    ensures forall i :: 0 <= i < |levels| && i != job.outputLevel - 1 && i != job.outputLevel ==>
              Partly(levels, job, output, keep)[i] == levels[i]
  {
    forall i | 0 <= i < |levels| && i != job.outputLevel - 1 && i != job.outputLevel
      ensures Partly(levels, job, output, keep)[i] == levels[i]
    {
      Untouched(levels, job, output, job.inputs[keep..], i);
    }
  }

  lemma NotRemoved(levels: Levels, job: Job, output: Table, keep: nat, i: nat)
    requires Placed(levels, job, output) && keep <= |job.inputs|
    requires job.outputLevel == 1
    requires job.upper <= |levels[0]| && levels[0][|levels[0]| - job.upper..] == job.inputs[..job.upper]
    requires i < |levels[0]| - job.upper + (if keep <= job.upper then keep else job.upper)
    ensures levels[0][i] !in job.inputs[keep..]
  {
    var l0, n := levels[0], |levels[0]| - job.upper;
    forall j | keep <= j < |job.inputs|
      ensures job.inputs[j] != l0[i]
    {
      if j < job.upper {
        assert l0[n + j] == l0[n..][j] == job.inputs[j];
      } else {
        assert job.inputs[j] in job.inputs[job.upper..];
      }
    }
  }

  /** L0 under an L0 compaction: the younger tables, then the inputs still there. */
  lemma UpperRest(levels: Levels, job: Job, output: Table, keep: nat)
    requires Placed(levels, job, output) && keep <= |job.inputs|
    requires job.outputLevel == 1
    requires job.upper <= |levels[0]| && levels[0][|levels[0]| - job.upper..] == job.inputs[..job.upper]
    ensures Partly(levels, job, output, keep)[0] ==
              levels[0][..|levels[0]| - job.upper] + job.inputs[..if keep <= job.upper then keep else job.upper]
  {
    hide Retain, Identified;
    var ids, l0, n := Ids(job.inputs[keep..]), levels[0], |levels[0]| - job.upper;
    var p := if keep <= job.upper then keep else job.upper;
    forall i | 0 <= i < |l0|
      ensures l0[i].id in ids <==> n + p <= i < |l0|
    {
      RemovedById(levels, job, output, job.inputs[keep..], 0, l0[i]);
      if n + p <= i {
        assert l0[i] == l0[n..][i - n] == job.inputs[i - n];
      } else {
        NotRemoved(levels, job, output, keep, i);
      }
    }
    RetainRange(l0, n + p, |l0|, ids);
    assert l0[..n + p] == l0[..n] + l0[n..][..p];
  }

  // ----- the answer at one level -----

  /** The output level, for a key that no table above holds and its own tables agree on. */
  lemma OutputAnswer(before: seq<Table>, after: seq<Table>, inputs: seq<Table>, output: Table, gone: seq<Table>,
                     dropTombstones: bool, key: Key)
    requires forall t :: t in after <==> (t in before && t !in gone) || t == output
    requires forall t :: t in gone ==> t in inputs
    requires forall t :: t in inputs && Holds(t, key) ==> t in before
    requires forall t, u :: t in before && u in before && Holds(t, key) && Holds(u, key) ==>
               Lookup(t.run, key) == Lookup(u.run, key)
    requires Lookup(output.run, key) == Surviving(FirstIn(inputs, key), dropTombstones)
    ensures FirstIn(after, key) == FirstIn(before, key) ||
            (dropTombstones && HeldIn(inputs, key) && FirstIn(before, key) == Some(Tombstone) &&
            FirstIn(after, key) == None)
  {
    hide FirstIn, Lookup;
    FirstInHolder(inputs, key);
    FirstInHolder(before, key);
    FirstInHolder(after, key);
    if HeldIn(before, key) {
      var t :| t in before && Holds(t, key);
      var answer := Lookup(t.run, key).value;
      FirstInAgreed(before, key, answer);
      FirstInAgreed(inputs, key, answer);
      FirstInAgreed(after, key, answer);
    }
  }

  /** The output level, for a key whose every table outside the output is gone. */
  lemma OnlyOutput(after: seq<Table>, output: Table, key: Key)
    requires output in after
    requires forall t :: t in after && Holds(t, key) ==> t == output
    ensures FirstIn(after, key) == Lookup(output.run, key)
  {
    FirstInHolder(after, key);
  }

  /** L0, where the order of tables decides. */
  lemma L0Answer(younger: seq<Table>, inputs: seq<Table>, upper: nat, left: nat, key: Key)
    requires left <= upper <= |inputs|
    ensures FirstIn(younger + inputs[..left], key) == FirstIn(younger + inputs[..upper], key) ||
            (FirstIn(younger + inputs[..left], key) == None && HeldIn(inputs[..upper], key) && left < upper &&
             FirstIn(younger + inputs[..upper], key) == FirstIn(inputs, key))
  {
    assert inputs[..upper] == inputs[..left] + inputs[left..upper];
    assert inputs == inputs[..upper] + inputs[upper..];
    FirstInConcat(younger, inputs[..upper], key);
    FirstInConcat(younger, inputs[..left], key);
    FirstInConcat(inputs[..left], inputs[left..upper], key);
    FirstInConcat(inputs[..upper], inputs[upper..], key);
    FirstInHolder(inputs[..upper], key);
  }

  /** A deeper upper level, which loses at most the first input. */
  lemma VictimAnswer(before: seq<Table>, after: seq<Table>, inputs: seq<Table>, victimGone: bool, key: Key)
    requires inputs != [] && inputs[0] in before
    requires forall t :: t in after <==> t in before && !(victimGone && t == inputs[0])
    requires forall t, u :: t in before && u in before && Holds(t, key) && Holds(u, key) ==>
               Lookup(t.run, key) == Lookup(u.run, key)
    ensures FirstIn(after, key) == FirstIn(before, key) ||
            (FirstIn(after, key) == None && HeldIn(inputs[..1], key) && victimGone &&
             FirstIn(before, key) == FirstIn(inputs, key))
  {
    FirstInHolder(before, key);
    FirstInHolder(after, key);
    if HeldIn(before, key) {
      var t :| t in before && Holds(t, key);
      var answer := Lookup(t.run, key).value;
      FirstInAgreed(before, key, answer);
      FirstInAgreed(after, key, answer);
      if !HeldIn(after, key) {
        assert t == inputs[0] && t in inputs[..1];
      }
    }
  }

  // ----- the value seen through the levels -----

  /** A version, a job on it and the table its merge built. */
  ghost predicate Prepared(levels: Levels, job: Job, output: Table, dropTombstones: bool)
  {
    && 1 <= job.outputLevel < |levels|
    && job.upper <= |job.inputs|
    && Fits(levels, job, dropTombstones)
    && MergedFrom(output, job, dropTombstones)
    && Placed(levels, job, output)
  }

  lemma {:induction false} SameFrom(a: Levels, b: Levels, from: nat, key: Key)
    requires |a| == |b| && from <= |a|
    requires forall i :: from <= i < |a| ==> a[i] == b[i]
    ensures LookupFrom(a, from, key) == LookupFrom(b, from, key)
    decreases |a| - from
  {
    if from == |a| {
    } else {
      SameFrom(a, b, from + 1, key);
    }
  }

  /** Below the output level nothing changes, and a dropped tombstone hid nothing. */
  lemma Deeper(levels: Levels, job: Job, output: Table, dropTombstones: bool, keep: nat, key: Key)
    requires Prepared(levels, job, output, dropTombstones) && keep <= |job.inputs|
    ensures LookupFrom(levels, job.outputLevel + 1, key) ==
            LookupFrom(Partly(levels, job, output, keep), job.outputLevel + 1, key)
    ensures dropTombstones && HeldIn(job.inputs, key) ==> LookupFrom(levels, job.outputLevel + 1, key) == None
  {
    hide MergedFrom, Placed, Partly;
    OtherLevels(levels, job, output, keep);
    SameFrom(levels, Partly(levels, job, output, keep), job.outputLevel + 1, key);
    if dropTombstones && HeldIn(job.inputs, key) {
      NothingFrom(levels, job.outputLevel + 1, key);
    }
  }

  /** At the output level, a key held by no table above it. */
  lemma OutputLevel(levels: Levels, job: Job, output: Table, dropTombstones: bool, keep: nat, key: Key)
    requires Prepared(levels, job, output, dropTombstones) && keep <= |job.inputs|
    requires CoherentAt(levels, key)
    requires !HeldAbove(levels, job.outputLevel, key)
    ensures Visible(LookupFrom(levels, job.outputLevel, key)) ==
            Visible(LookupFrom(Partly(levels, job, output, keep), job.outputLevel, key))
  {
    hide Fits, Placed, Rewritten;
    var after, d := Partly(levels, job, output, keep), job.outputLevel;
    Kept(levels, job, output, job.inputs[keep..], d);
    forall t | t in job.inputs && Holds(t, key)
      ensures t in levels[d]
    {
      InputLevel(levels, job, output, t);
      assert t in levels[d - 1] ==> HeldIn(levels[d - 1], key);
    }
    OutputAnswer(levels[d], after[d], job.inputs, output, job.inputs[keep..], dropTombstones, key);
    Deeper(levels, job, output, dropTombstones, keep, key);
  }

  /** A key whose tables above the output level are all gone is answered by the output. */
  lemma MovedDown(levels: Levels, job: Job, output: Table, dropTombstones: bool, keep: nat, key: Key)
    requires Prepared(levels, job, output, dropTombstones) && keep < job.upper
    requires HeldIn(job.inputs[..job.upper], key)
    requires FirstIn(levels[job.outputLevel - 1], key) == FirstIn(job.inputs, key)
    requires FirstIn(Partly(levels, job, output, keep)[job.outputLevel - 1], key) == None
    ensures Visible(LookupFrom(levels, job.outputLevel - 1, key)) ==
            Visible(LookupFrom(Partly(levels, job, output, keep), job.outputLevel - 1, key))
  {
    hide Placed, Rewritten, FirstIn, Lookup;
    var after, d, n := Partly(levels, job, output, keep), job.outputLevel, job.upper;
    Kept(levels, job, output, job.inputs[keep..], d);
    assert job.inputs[n..] == job.inputs[keep..][n - keep..];
    OnlyOutput(after[d], output, key);
    FirstInHolder(job.inputs, key);
    assert HeldIn(job.inputs, key) by {
      var t :| t in job.inputs[..n] && Holds(t, key);
      assert t in job.inputs;
    }
    Deeper(levels, job, output, dropTombstones, keep, key);
  }

  /** The first answer of the upper level stays, or that level answers no more and the first input did. */
  lemma UpperAnswer(levels: Levels, job: Job, output: Table, dropTombstones: bool, keep: nat, key: Key)
    requires Prepared(levels, job, output, dropTombstones) && keep <= |job.inputs|
    requires CoherentAt(levels, key)
    requires !HeldAbove(levels, job.outputLevel - 1, key)
    ensures var s, after := job.outputLevel - 1, Partly(levels, job, output, keep);
            FirstIn(after[s], key) == FirstIn(levels[s], key) ||
            (FirstIn(after[s], key) == None && HeldIn(job.inputs[..job.upper], key) && keep < job.upper &&
             FirstIn(levels[s], key) == FirstIn(job.inputs, key))
  {
    var after, s, n := Partly(levels, job, output, keep), job.outputLevel - 1, job.upper;
    if s == 0 {
      var younger := levels[0][..|levels[0]| - n];
      UpperRest(levels, job, output, keep);
      assert levels[0] == younger + job.inputs[..n];
      L0Answer(younger, job.inputs, n, if keep <= n then keep else n, key);
    } else {
      Kept(levels, job, output, job.inputs[keep..], s);
      forall i | 0 < i < |job.inputs|
        ensures job.inputs[i] !in levels[s]
      {
        assert job.inputs[i] in job.inputs[1..];
        LowerNotUpper(levels, job, output, job.inputs[i]);
      }
      VictimAnswer(levels[s], after[s], job.inputs, keep == 0, key);
    }
  }

  /** At the upper level, a key held by no table above it. */
  lemma UpperLevel(levels: Levels, job: Job, output: Table, dropTombstones: bool, keep: nat, key: Key)
    requires Prepared(levels, job, output, dropTombstones) && keep <= |job.inputs|
    requires CoherentAt(levels, key)
    requires !HeldAbove(levels, job.outputLevel - 1, key)
    ensures Visible(LookupFrom(levels, job.outputLevel - 1, key)) ==
            Visible(LookupFrom(Partly(levels, job, output, keep), job.outputLevel - 1, key))
  {
    hide Fits, MergedFrom, Placed, Partly, CoherentAt;
    var after, s := Partly(levels, job, output, keep), job.outputLevel - 1;
    UpperAnswer(levels, job, output, dropTombstones, keep, key);
    FirstInHolder(levels[s], key);
    if FirstIn(after[s], key).None? {
      if FirstIn(levels[s], key).Some? {
        MovedDown(levels, job, output, dropTombstones, keep, key);
      } else {
        OutputLevel(levels, job, output, dropTombstones, keep, key);
      }
    }
  }

  /**
   * With the output added, and the inputs removed from the oldest up to any
   * point, every key has the value it had.
   */
  lemma VisibleKept(levels: Levels, job: Job, output: Table, dropTombstones: bool, keep: nat, key: Key)
    requires Prepared(levels, job, output, dropTombstones) && keep <= |job.inputs|
    requires CoherentAt(levels, key)
    ensures Visible(LookupFrom(levels, 0, key)) ==
            Visible(LookupFrom(Partly(levels, job, output, keep), 0, key))
  {
    hide Fits, MergedFrom, Placed, Partly, CoherentAt;
    var after, s := Partly(levels, job, output, keep), job.outputLevel - 1;
    OtherLevels(levels, job, output, keep);
    if !HeldAbove(levels, s, key) {
      UpperLevel(levels, job, output, dropTombstones, keep, key);
    }
    SameAbove(levels, after, 0, s, key);
  }

  // ----- coherence is kept -----

  lemma StillHeld(levels: Levels, job: Job, output: Table, keep: nat, i: nat, t: Table, key: Key)
    requires Placed(levels, job, output) && keep <= |job.inputs|
    requires i < |levels| && t in levels[i] && Holds(t, key) && t !in job.inputs[keep..]
    ensures HeldIn(Partly(levels, job, output, keep)[i], key)
  {
    Kept(levels, job, output, job.inputs[keep..], i);
  }

  /** An input removed from the upper level leaves no input of the output level behind. */
  lemma UpperGoneFirst(levels: Levels, job: Job, output: Table, keep: nat, t: Table)
    requires Placed(levels, job, output) && keep <= |job.inputs|
    requires t in levels[job.outputLevel - 1] && t in job.inputs[keep..]
    ensures keep < job.upper && t in job.inputs[..job.upper]
    ensures forall u :: u in job.inputs[job.upper..] ==> u in job.inputs[keep..]
  {
    var i :| keep <= i < |job.inputs| && job.inputs[i] == t;
    assert forall j :: job.upper <= j < |job.inputs| ==> job.inputs[j] in job.inputs[job.upper..];
    assert i < job.upper && t in job.inputs[..job.upper];
    assert job.inputs[job.upper..] == job.inputs[keep..][job.upper - keep..];
  }

  /** A key of the output level that was hidden from above still is. */
  lemma HiddenAtOutput(levels: Levels, job: Job, output: Table, dropTombstones: bool, keep: nat, t: Table, key: Key)
    requires Prepared(levels, job, output, dropTombstones) && keep <= |job.inputs|
    requires t in levels[job.outputLevel] && t !in job.inputs[keep..] && Holds(t, key)
    requires HeldAbove(levels, job.outputLevel, key)
    ensures HeldAbove(Partly(levels, job, output, keep), job.outputLevel, key)
  {
    hide MergedFrom, Partly;
    var s := job.outputLevel - 1;
    var j :| 0 <= j <= s && HeldIn(levels[j], key);
    var y :| y in levels[j] && Holds(y, key);
    if j == s && y in job.inputs[keep..] {
      UpperGoneFirst(levels, job, output, keep, y);
      assert false;
    }
    if j < s {
      OtherLevels(levels, job, output, keep);
    } else {
      StillHeld(levels, job, output, keep, s, y, key);
    }
  }

  /** A deeper key that was hidden from above still is, if need be by the output. */
  lemma HiddenDeeper(levels: Levels, job: Job, output: Table, dropTombstones: bool, keep: nat, i: nat, key: Key)
    requires Prepared(levels, job, output, dropTombstones) && keep <= |job.inputs|
    requires job.outputLevel < i < |levels| && HeldIn(levels[i], key) && HeldAbove(levels, i, key)
    ensures HeldAbove(Partly(levels, job, output, keep), i, key)
  {
    hide Rewritten, Placed;
    var j :| 0 <= j < i && HeldIn(levels[j], key);
    var y :| y in levels[j] && Holds(y, key);
    if y in job.inputs[keep..] {
      assert y in job.inputs;
      FirstInHolder(job.inputs, key);
      assert Holds(output, key);
      Kept(levels, job, output, job.inputs[keep..], job.outputLevel);
      assert HeldIn(Partly(levels, job, output, keep)[job.outputLevel], key);
    } else {
      StillHeld(levels, job, output, keep, j, y, key);
    }
  }

  /** The output and a table it leaves beside it agree on a key, or a higher level hides it. */
  lemma OutputCoherent(levels: Levels, job: Job, output: Table, dropTombstones: bool, keep: nat, t: Table, key: Key)
    requires Prepared(levels, job, output, dropTombstones) && keep <= |job.inputs|
    requires CoherentAt(levels, key)
    requires t in levels[job.outputLevel] && t !in job.inputs[keep..] && Holds(t, key) && Holds(output, key)
    ensures Lookup(t.run, key) == Lookup(output.run, key) ||
            HeldAbove(Partly(levels, job, output, keep), job.outputLevel, key)
  {
    hide Partly, Placed;
    var s, d := job.outputLevel - 1, job.outputLevel;
    FirstInHolder(job.inputs, key);
    var x :| x in job.inputs && Holds(x, key) && Lookup(x.run, key) == FirstIn(job.inputs, key);
    InputLevel(levels, job, output, x);
    if x in levels[s] {
      assert HeldIn(levels[s], key);
      HiddenAtOutput(levels, job, output, dropTombstones, keep, t, key);
    } else if HeldAbove(levels, d, key) {
      HiddenAtOutput(levels, job, output, dropTombstones, keep, t, key);
    }
  }

  lemma CoherentKept(levels: Levels, job: Job, output: Table, dropTombstones: bool, keep: nat, key: Key)
    requires Prepared(levels, job, output, dropTombstones) && keep <= |job.inputs|
    requires CoherentAt(levels, key)
    ensures CoherentAt(Partly(levels, job, output, keep), key)
  {
    hide Fits, MergedFrom, Placed, Rewritten;
    var after, d := Partly(levels, job, output, keep), job.outputLevel;
    forall i, t, u |
      1 <= i < |after| && t in after[i] && u in after[i] && Holds(t, key) && Holds(u, key)
      ensures Lookup(t.run, key) == Lookup(u.run, key) || HeldAbove(after, i, key)
    {
      Kept(levels, job, output, job.inputs[keep..], i);
      if t != output && u != output {
        if HeldAbove(levels, i, key) {
          if i < d {
            OtherLevels(levels, job, output, keep);
            var j :| 0 <= j < i && HeldIn(levels[j], key);
            assert HeldIn(after[j], key);
          } else if i == d {
            HiddenAtOutput(levels, job, output, dropTombstones, keep, t, key);
          } else {
            HiddenDeeper(levels, job, output, dropTombstones, keep, i, key);
          }
        }
      } else if t != u {
        OutputCoherent(levels, job, output, dropTombstones, keep, if t == output then u else t, key);
      }
    }
  }

  lemma PartlyKeeps(levels: Levels, job: Job, output: Table, dropTombstones: bool, keep: nat, key: Key)
    requires Prepared(levels, job, output, dropTombstones) && keep <= |job.inputs|
    ensures Keeps(levels, Partly(levels, job, output, keep), key)
  {
    hide Prepared, CoherentAt, Partly;
    if CoherentAt(levels, key) {
      CoherentKept(levels, job, output, dropTombstones, keep, key);
      VisibleKept(levels, job, output, dropTombstones, keep, key);
    }
  }
}
