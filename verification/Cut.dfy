/** What is left of a version when a compaction's removal records stop half way, newest input first. */
module Cuts {
  import opened Bytes
  import opened Wrappers
  import opened Runs
  import opened Levels
  import opened Compaction

  /** The upper inputs still listed after `j` removals, newest first. */
  function UpperLeft(job: Job, j: nat): seq<Table>
    requires j <= |job.inputs| && job.upper <= |job.inputs|
  {
    if j <= job.upper then job.inputs[j..job.upper] else []
  }

  /** A lower input still listed. */
  ghost predicate LowerRemains(job: Job, j: nat, t: Table)
    requires j <= |job.inputs| && job.upper <= |job.inputs|
  {
    t in job.inputs[job.upper..] && t !in job.inputs[..j]
  }

  /** No table outside the job hides the key from the job's upper level. */
  ghost predicate Exposed(levels: Levels, job: Job, key: Key)
    requires 1 <= job.outputLevel < |levels|
  {
    && !HeldAbove(levels, job.outputLevel - 1, key)
    && forall t :: t in levels[job.outputLevel - 1] && Holds(t, key) ==> t in job.inputs
  }

  /**
   * After `j` removals an exposed key of the inputs is safe for good: the first
   * upper input left that holds it has the entry of the newest input, or no upper
   * input left holds it and every lower input left that does has that entry.
   */
  ghost predicate LastingAt(levels: Levels, job: Job, j: nat, key: Key)
    requires 1 <= job.outputLevel < |levels| && j <= |job.inputs| && job.upper <= |job.inputs|
  {
    HeldIn(job.inputs, key) && Exposed(levels, job, key) ==>
      if HeldIn(UpperLeft(job, j), key) then FirstIn(UpperLeft(job, j), key) == FirstIn(job.inputs, key)
      else
        forall t :: LowerRemains(job, j, t) && Holds(t, key) ==> Lookup(t.run, key) == FirstIn(job.inputs, key)
  }

  /** `after` lists the version with the output added and the first `j` inputs gone, in some order on its level. */
  ghost predicate CutLists(levels: Levels, job: Job, output: Table, dropTombstones: bool, j: nat, after: Levels)
  {
    && Prepared(levels, job, output, dropTombstones)
    && j <= |job.inputs|
    && |after| == |levels|
    && (forall i :: 0 <= i < |levels| && i != job.outputLevel - 1 && i != job.outputLevel ==> after[i] == levels[i])
    && after[job.outputLevel - 1] == Retain(levels[job.outputLevel - 1], Ids(job.inputs[..j]))
    && forall t :: t in after[job.outputLevel] <==>
                     (t in levels[job.outputLevel] && t !in job.inputs[..j]) || t == output
  }

  lemma RewrittenElsewhere(levels: Levels, outputLevel: nat, output: Table, ids: set<nat>, i: nat)
    requires i < |levels| && i != outputLevel
    ensures Rewritten(levels, outputLevel, output, ids)[i] == Retain(levels[i], ids)
  {
    hide Retain;
  }

  lemma RewrittenLists(levels: Levels, job: Job, output: Table, dropTombstones: bool, j: nat)
    requires Prepared(levels, job, output, dropTombstones) && j <= |job.inputs|
    ensures CutLists(levels, job, output, dropTombstones, j,
                     Rewritten(levels, job.outputLevel, output, Ids(job.inputs[..j])))
  {
    hide Fits, MergedFrom, Placed, Rewritten, Retain, Ids;
    var after := Rewritten(levels, job.outputLevel, output, Ids(job.inputs[..j]));
    RewrittenElsewhere(levels, job.outputLevel, output, Ids(job.inputs[..j]), job.outputLevel - 1);
    Kept(levels, job, output, job.inputs[..j], job.outputLevel);
    forall i | 0 <= i < |levels| && i != job.outputLevel - 1 && i != job.outputLevel
      ensures after[i] == levels[i]
    {
      Untouched(levels, job, output, job.inputs[..j], i);
    }
  }

  // ----- the upper level -----

  lemma UpperLeftAnswer(levels: Levels, job: Job, output: Table, dropTombstones: bool, j: nat, key: Key)
    requires Prepared(levels, job, output, dropTombstones) && Exposed(levels, job, key) && j <= |job.inputs|
    ensures FirstIn(Retain(levels[job.outputLevel - 1], Ids(job.inputs[..j])), key) ==
            FirstIn(UpperLeft(job, j), key)
  {
    hide MergedFrom, Identified, Placed, Retain, Exposed, Ids;
    if job.outputLevel == 1 {
      L0Cut(levels, job, output, j);
      YoungerSilent(levels, job, output, key);
      FirstInConcat(levels[0][..|levels[0]| - job.upper], UpperLeft(job, j), key);
      FirstInHolder(levels[0][..|levels[0]| - job.upper], key);
    } else {
      VictimLeft(levels, job, output, dropTombstones, j, key);
    }
  }

  /** L0 after `j` removals of an L0 compaction: the younger tables, then the inputs left. */
  lemma L0Cut(levels: Levels, job: Job, output: Table, j: nat)
    requires Placed(levels, job, output) && j <= |job.inputs| && job.outputLevel == 1
    requires job.upper <= |levels[0]| && levels[0][|levels[0]| - job.upper..] == job.inputs[..job.upper]
    ensures Retain(levels[0], Ids(job.inputs[..j])) == levels[0][..|levels[0]| - job.upper] + UpperLeft(job, j)
  {
    hide Retain, Identified;
    var ids, l0, n := Ids(job.inputs[..j]), levels[0], |levels[0]| - job.upper;
    var p := if j <= job.upper then j else job.upper;
    forall i | 0 <= i < |l0|
      ensures l0[i].id in ids <==> n <= i < n + p
    {
      RemovedById(levels, job, output, job.inputs[..j], 0, l0[i]);
      if n <= i < n + p {
        assert l0[i] == l0[n..][i - n] == job.inputs[i - n];
      } else {
        L0CutKeeps(levels, job, output, j, i);
      }
    }
    RetainRange(l0, n, n + p, ids);
    assert l0[n + p..] == l0[n..][p..];
  }

  lemma L0CutKeeps(levels: Levels, job: Job, output: Table, j: nat, i: nat)
    requires Placed(levels, job, output) && j <= |job.inputs| && job.outputLevel == 1
    requires job.upper <= |levels[0]| && levels[0][|levels[0]| - job.upper..] == job.inputs[..job.upper]
    requires i < |levels[0]|
    requires var n := |levels[0]| - job.upper; !(n <= i < n + if j <= job.upper then j else job.upper)
    ensures levels[0][i] !in job.inputs[..j]
  {
    var l0, n := levels[0], |levels[0]| - job.upper;
    forall m | 0 <= m < j
      ensures job.inputs[m] != l0[i]
    {
      if m < job.upper {
        assert l0[n + m] == l0[n..][m] == job.inputs[m];
      } else {
        assert job.inputs[m] in job.inputs[job.upper..];
      }
    }
  }

  lemma YoungerSilent(levels: Levels, job: Job, output: Table, key: Key)
    requires Placed(levels, job, output) && job.outputLevel == 1 && Exposed(levels, job, key)
    requires job.upper <= |levels[0]| && levels[0][|levels[0]| - job.upper..] == job.inputs[..job.upper]
    ensures !HeldIn(levels[0][..|levels[0]| - job.upper], key)
  {
    var n := |levels[0]| - job.upper;
    forall i | 0 <= i < n
      ensures levels[0][i] !in job.inputs
    {
      NotRemoved(levels, job, output, 0, i);
      assert job.inputs[0..] == job.inputs;
    }
  }

  lemma VictimLeft(levels: Levels, job: Job, output: Table, dropTombstones: bool, j: nat, key: Key)
    requires Prepared(levels, job, output, dropTombstones) && job.outputLevel > 1 && j <= |job.inputs|
    requires Exposed(levels, job, key)
    ensures FirstIn(Retain(levels[job.outputLevel - 1], Ids(job.inputs[..j])), key) == FirstIn(UpperLeft(job, j), key)
  {
    hide MergedFrom, Retain;
    var s, victim := job.outputLevel - 1, job.inputs[0];
    var rest := Retain(levels[s], Ids(job.inputs[..j]));
    RetainMembers(levels[s], Ids(job.inputs[..j]));
    FirstInHolder(rest, key);
    forall i | 0 < i < |job.inputs|
      ensures job.inputs[i] !in levels[s]
    {
      assert job.inputs[i] in job.inputs[1..];
      LowerNotUpper(levels, job, output, job.inputs[i]);
    }
    RemovedById(levels, job, output, job.inputs[..j], s, victim);
    if j == 0 {
      assert UpperLeft(job, 0) == [victim];
      assert FirstIn([victim], key) == Lookup(victim.run, key);
    } else {
      assert victim in job.inputs[..j];
      assert UpperLeft(job, j) == [];
    }
  }

  lemma UpperSilent(levels: Levels, job: Job, output: Table, key: Key)
    requires Placed(levels, job, output) && Exposed(levels, job, key) && !HeldIn(job.inputs[..job.upper], key)
    ensures !HeldAbove(levels, job.outputLevel, key)
  {
    var s := job.outputLevel - 1;
    assert job.inputs == job.inputs[..job.upper] + job.inputs[job.upper..];
    forall t | t in job.inputs[job.upper..]
      ensures t !in levels[s]
    {
      LowerNotUpper(levels, job, output, t);
    }
    assert forall t :: t in levels[s] && Holds(t, key) ==> t in job.inputs[..job.upper];
    assert !HeldIn(levels[s], key);
  }

  /** Its holders on the output level agree with each other, so with the winner. */
  lemma WinnerAgreed(levels: Levels, job: Job, output: Table, dropTombstones: bool, key: Key)
    requires Prepared(levels, job, output, dropTombstones)
    requires CoherentAt(levels, key)
    requires HeldIn(job.inputs, key) && !HeldAbove(levels, job.outputLevel, key)
    ensures FirstIn(job.inputs, key).Some?
    ensures HeldIn(levels[job.outputLevel], key)
    ensures Agreed(levels[job.outputLevel], key, FirstIn(job.inputs, key).value)
  {
    hide Fits, MergedFrom, Placed;
    FirstInHolder(job.inputs, key);
    var t :| t in job.inputs && Holds(t, key) && Lookup(t.run, key) == FirstIn(job.inputs, key);
    InputLevel(levels, job, output, t);
    assert t in levels[job.outputLevel - 1] ==> HeldIn(levels[job.outputLevel - 1], key);
  }

  lemma {:induction false} NothingBetween(levels: Levels, from: nat, until: nat, key: Key)
    requires from <= until <= |levels|
    requires forall i :: from <= i < until ==> !HeldIn(levels[i], key)
    ensures LookupFrom(levels, from, key) == LookupFrom(levels, until, key)
    decreases until - from
  {
    if from == until {
    } else {
      FirstInHolder(levels[from], key);
      NothingBetween(levels, from + 1, until, key);
    }
  }

  /** What the running engine shows for such a key. */
  lemma RunningAnswer(levels: Levels, job: Job, output: Table, dropTombstones: bool, key: Key)
    requires Prepared(levels, job, output, dropTombstones)
    requires CoherentAt(levels, key)
    requires Exposed(levels, job, key) && HeldIn(job.inputs, key)
    ensures LookupFrom(levels, 0, key) == FirstIn(job.inputs, key)
  {
    hide Fits, MergedFrom, Placed, Retain;
    var s, upper := job.outputLevel - 1, job.inputs[..job.upper];
    NothingBetween(levels, 0, s, key);
    UpperLeftAnswer(levels, job, output, dropTombstones, 0, key);
    assert UpperLeft(job, 0) == upper;
    RetainUnchanged(levels[s], Ids(job.inputs[..0]));
    FirstInHolder(upper, key);
    assert job.inputs == upper + job.inputs[job.upper..];
    FirstInConcat(upper, job.inputs[job.upper..], key);
    if !HeldIn(upper, key) {
      UpperSilent(levels, job, output, key);
      WinnerAgreed(levels, job, output, dropTombstones, key);
      FirstInAgreed(levels[job.outputLevel], key, FirstIn(job.inputs, key).value);
    }
  }

  lemma {:induction false} RetainSilent(tables: seq<Table>, ids: set<nat>, key: Key)
    requires forall t :: t in tables && t.id in ids ==> !Holds(t, key)
    ensures FirstIn(Retain(tables, ids), key) == FirstIn(tables, key)
  {
    if tables == [] {
    } else {
      RetainSilent(tables[1..], ids, key);
      var rest := Retain(tables[1..], ids);
      assert [] + rest == rest && ([tables[0]] + rest)[1..] == rest;
    }
  }

  /** In L0, a table younger than the job answers for the key before and after. */
  lemma YoungerFirst(levels: Levels, job: Job, output: Table, dropTombstones: bool, j: nat, t: Table, key: Key)
    requires Prepared(levels, job, output, dropTombstones) && job.outputLevel == 1 && j <= |job.inputs|
    requires t in levels[0] && t !in job.inputs && Holds(t, key)
    ensures FirstIn(Retain(levels[0], Ids(job.inputs[..j])), key) == FirstIn(levels[0], key)
  {
    hide MergedFrom, Placed, Retain;
    var younger := levels[0][..|levels[0]| - job.upper];
    L0Cut(levels, job, output, j);
    assert levels[0] == younger + job.inputs[..job.upper];
    assert t in younger;
    FirstInConcat(younger, UpperLeft(job, j), key);
    FirstInConcat(younger, job.inputs[..job.upper], key);
    FirstInHolder(younger, key);
  }

  /** Deeper, a table beside the job's victim that holds the key agrees with it. */
  lemma BesideVictim(levels: Levels, job: Job, output: Table, dropTombstones: bool, j: nat, t: Table, key: Key)
    requires Prepared(levels, job, output, dropTombstones) && job.outputLevel > 1 && j <= |job.inputs|
    requires CoherentAt(levels, key)
    requires t in levels[job.outputLevel - 1] && t !in job.inputs && Holds(t, key)
    requires !HeldAbove(levels, job.outputLevel - 1, key)
    ensures FirstIn(Retain(levels[job.outputLevel - 1], Ids(job.inputs[..j])), key) ==
            FirstIn(levels[job.outputLevel - 1], key)
  {
    hide Fits, MergedFrom, Placed, Retain, HeldAbove;
    var s, ids := job.outputLevel - 1, Ids(job.inputs[..j]);
    RemovedById(levels, job, output, job.inputs[..j], s, t);
    RetainMembers(levels[s], ids);
    var answer := Lookup(t.run, key).value;
    assert Agreed(levels[s], key, answer);
    FirstInAgreed(levels[s], key, answer);
    FirstInAgreed(Retain(levels[s], ids), key, answer);
  }

  // ----- reading through the levels -----

  /** The first answer of the upper level, for an exposed key. */
  lemma CutUpper(levels: Levels, job: Job, output: Table, dropTombstones: bool, j: nat, after: Levels, key: Key)
    requires CutLists(levels, job, output, dropTombstones, j, after) && Exposed(levels, job, key)
    ensures FirstIn(after[job.outputLevel - 1], key) == FirstIn(UpperLeft(job, j), key)
  {
    hide Fits, MergedFrom, Placed, Exposed, Retain, Ids;
    UpperLeftAnswer(levels, job, output, dropTombstones, j, key);
  }

  /** Above the upper level nothing moves. */
  lemma CutAbove(levels: Levels, job: Job, output: Table, dropTombstones: bool, j: nat, after: Levels, key: Key)
    requires CutLists(levels, job, output, dropTombstones, j, after) && !HeldAbove(levels, job.outputLevel - 1, key)
    ensures LookupFrom(after, 0, key) == LookupFrom(after, job.outputLevel - 1, key)
    ensures LookupFrom(levels, 0, key) == LookupFrom(levels, job.outputLevel - 1, key)
  {
    hide Fits, MergedFrom, Placed, Retain, Ids;
    NothingBetween(after, 0, job.outputLevel - 1, key);
    NothingBetween(levels, 0, job.outputLevel - 1, key);
  }

  /** Below the output level nothing moves, and a dropped tombstone hid nothing. */
  lemma CutBelow(levels: Levels, job: Job, output: Table, dropTombstones: bool, j: nat, after: Levels, key: Key)
    requires CutLists(levels, job, output, dropTombstones, j, after)
    ensures LookupFrom(after, job.outputLevel + 1, key) == LookupFrom(levels, job.outputLevel + 1, key)
    ensures dropTombstones && HeldIn(job.inputs, key) ==> LookupFrom(after, job.outputLevel + 1, key) == None
  {
    hide Fits, MergedFrom, Placed, Retain, Ids;
    SameFrom(after, levels, job.outputLevel + 1, key);
    Deeper(levels, job, output, dropTombstones, 0, key);
  }

  /** The output level, when all its tables that hold the key have the entry of the winner. */
  lemma CutAgreed(levels: Levels, job: Job, output: Table, dropTombstones: bool, j: nat, after: Levels, key: Key)
    requires CutLists(levels, job, output, dropTombstones, j, after) && HeldIn(job.inputs, key)
    requires forall t :: t in levels[job.outputLevel] && t !in job.inputs[..j] && Holds(t, key) ==>
               Lookup(t.run, key) == FirstIn(job.inputs, key)
    ensures FirstIn(job.inputs, key).Some?
    ensures Agreed(after[job.outputLevel], key, FirstIn(job.inputs, key).value)
    ensures Visible(LookupFrom(after, job.outputLevel, key)) == Visible(FirstIn(job.inputs, key))
  {
    hide Fits, Placed, Retain, Ids, FirstIn, Lookup;
    FirstInHolder(job.inputs, key);
    FirstInAgreed(after[job.outputLevel], key, FirstIn(job.inputs, key).value);
    CutBelow(levels, job, output, dropTombstones, j, after, key);
  }

  // ----- keys the cut cannot touch -----

  /** A key no input holds has the same holders as before. */
  lemma CutNotHeld(levels: Levels, job: Job, output: Table, dropTombstones: bool, j: nat, after: Levels, key: Key)
    requires CutLists(levels, job, output, dropTombstones, j, after) && !HeldIn(job.inputs, key)
    ensures SameAt(levels, after, key)
  {
    hide Fits, Placed, Retain, FirstIn, Lookup;
    var s, ids := job.outputLevel - 1, Ids(job.inputs[..j]);
    FirstInHolder(job.inputs, key);
    RetainMembers(levels[s], ids);
    forall t | t in levels[s] && t.id in ids
      ensures !Holds(t, key)
    {
      RemovedById(levels, job, output, job.inputs[..j], s, t);
    }
    RetainSilent(levels[s], ids, key);
    assert !Holds(output, key);
  }

  /** A key that a table outside the job hides is still hidden below the upper level. */
  lemma StillHidden(levels: Levels, job: Job, output: Table, dropTombstones: bool, j: nat, after: Levels, i: nat,
                    key: Key)
    requires CutLists(levels, job, output, dropTombstones, j, after) && !Exposed(levels, job, key)
    requires job.outputLevel <= i < |levels|
    ensures HeldAbove(after, i, key)
  {
    hide Fits, MergedFrom, Placed, Retain;
    var s, ids := job.outputLevel - 1, Ids(job.inputs[..j]);
    if HeldAbove(levels, s, key) {
      var m :| 0 <= m < s && HeldIn(levels[m], key);
      assert HeldIn(after[m], key);
    } else {
      var t :| t in levels[s] && Holds(t, key) && t !in job.inputs;
      RemovedById(levels, job, output, job.inputs[..j], s, t);
      RetainMembers(levels[s], ids);
      assert HeldIn(after[s], key);
    }
  }

  lemma HiddenCoherent(levels: Levels, job: Job, output: Table, dropTombstones: bool, j: nat, after: Levels, key: Key)
    requires CutLists(levels, job, output, dropTombstones, j, after) && !Exposed(levels, job, key)
    requires CoherentAt(levels, key)
    ensures CoherentAt(after, key)
  {
    hide Fits, MergedFrom, Placed, Exposed, Retain, Ids;
    var s := job.outputLevel - 1;
    RetainMembers(levels[s], Ids(job.inputs[..j]));
    forall i, t, u |
      1 <= i < |after| && t in after[i] && u in after[i] && Holds(t, key) && Holds(u, key)
      ensures Lookup(t.run, key) == Lookup(u.run, key) || HeldAbove(after, i, key)
    {
      if i > s {
        StillHidden(levels, job, output, dropTombstones, j, after, i, key);
      } else if HeldAbove(levels, i, key) {
        var m :| 0 <= m < i && HeldIn(levels[m], key);
        assert HeldIn(after[m], key);
      }
    }
  }

  lemma CutHidden(levels: Levels, job: Job, output: Table, dropTombstones: bool, j: nat, after: Levels, key: Key)
    requires CutLists(levels, job, output, dropTombstones, j, after) && !Exposed(levels, job, key)
    requires CoherentAt(levels, key)
    ensures Visible(LookupFrom(levels, 0, key)) == Visible(LookupFrom(after, 0, key))
  {
    hide Fits, MergedFrom, Placed, Retain, Ids, CoherentAt;
    var s := job.outputLevel - 1;
    if HeldAbove(levels, s, key) {
      SameAbove(levels, after, 0, s, key);
    } else {
      var t :| t in levels[s] && Holds(t, key) && t !in job.inputs;
      if s == 0 {
        YoungerFirst(levels, job, output, dropTombstones, j, t, key);
      } else {
        BesideVictim(levels, job, output, dropTombstones, j, t, key);
      }
      assert HeldIn(levels[s], key);
      SameAbove(levels, after, 0, s + 1, key);
    }
  }

  // ----- a key at stake -----

  /** What the tables left on the output level hold, for an exposed key that is safe for good. */
  lemma LowerAgrees(levels: Levels, job: Job, output: Table, dropTombstones: bool, j: nat, t: Table, key: Key)
    requires Prepared(levels, job, output, dropTombstones) && CoherentAt(levels, key) && j <= |job.inputs|
    requires HeldIn(job.inputs, key) && Exposed(levels, job, key) && LastingAt(levels, job, j, key)
    requires !HeldIn(UpperLeft(job, j), key)
    requires t in levels[job.outputLevel] && t !in job.inputs[..j] && Holds(t, key)
    ensures Lookup(t.run, key) == FirstIn(job.inputs, key)
  {
    hide MergedFrom, Placed, FirstIn, Lookup, CoherentAt, Exposed;
    if HeldIn(job.inputs[..job.upper], key) {
      assert LowerRemains(job, j, t);
    } else {
      UpperSilent(levels, job, output, key);
      WinnerAgreed(levels, job, output, dropTombstones, key);
    }
  }

  lemma LowerAllAgree(levels: Levels, job: Job, output: Table, dropTombstones: bool, j: nat, after: Levels, key: Key)
    requires CutLists(levels, job, output, dropTombstones, j, after) && CoherentAt(levels, key)
    requires HeldIn(job.inputs, key) && Exposed(levels, job, key) && LastingAt(levels, job, j, key)
    requires !HeldIn(UpperLeft(job, j), key)
    ensures FirstIn(job.inputs, key).Some?
    ensures Agreed(after[job.outputLevel], key, FirstIn(job.inputs, key).value)
    ensures Visible(LookupFrom(after, job.outputLevel, key)) == Visible(FirstIn(job.inputs, key))
  {
    hide Fits, MergedFrom, Placed, Retain, Ids, FirstIn, Lookup, LastingAt, UpperLeft, CoherentAt, Exposed;
    forall t | t in levels[job.outputLevel] && t !in job.inputs[..j] && Holds(t, key)
      ensures Lookup(t.run, key) == FirstIn(job.inputs, key)
    {
      LowerAgrees(levels, job, output, dropTombstones, j, t, key);
    }
    CutAgreed(levels, job, output, dropTombstones, j, after, key);
  }

  /** The upper level, for an exposed key. */
  lemma UpperHeld(levels: Levels, job: Job, output: Table, dropTombstones: bool, j: nat, after: Levels, key: Key)
    requires CutLists(levels, job, output, dropTombstones, j, after) && Exposed(levels, job, key)
    ensures HeldIn(after[job.outputLevel - 1], key) <==> HeldIn(UpperLeft(job, j), key)
    ensures HeldAbove(after, job.outputLevel, key) <==> HeldIn(UpperLeft(job, j), key)
  {
    hide Fits, MergedFrom, Placed, Retain, Ids, FirstIn;
    CutUpper(levels, job, output, dropTombstones, j, after, key);
    FirstInHolder(after[job.outputLevel - 1], key);
    FirstInHolder(UpperLeft(job, j), key);
    if HeldAbove(after, job.outputLevel, key) {
      var i :| 0 <= i < job.outputLevel && HeldIn(after[i], key);
      assert i < job.outputLevel - 1 ==> after[i] == levels[i];
    }
  }

  lemma StakeCoherent(levels: Levels, job: Job, output: Table, dropTombstones: bool, j: nat, after: Levels, key: Key)
    requires CutLists(levels, job, output, dropTombstones, j, after) && CoherentAt(levels, key)
    requires HeldIn(job.inputs, key) && Exposed(levels, job, key) && LastingAt(levels, job, j, key)
    ensures CoherentAt(after, key)
  {
    hide Fits, MergedFrom, Placed, Retain, Ids, FirstIn, Lookup, LastingAt, UpperLeft;
    var s, d := job.outputLevel - 1, job.outputLevel;
    RetainMembers(levels[s], Ids(job.inputs[..j]));
    UpperHeld(levels, job, output, dropTombstones, j, after, key);
    if !HeldIn(UpperLeft(job, j), key) {
      LowerAllAgree(levels, job, output, dropTombstones, j, after, key);
    }
    forall i, t, u |
      1 <= i < |after| && t in after[i] && u in after[i] && Holds(t, key) && Holds(u, key)
      ensures Lookup(t.run, key) == Lookup(u.run, key) || HeldAbove(after, i, key)
    {
      if i > d {
        DeeperHidden(levels, job, output, dropTombstones, j, after, i, t, key);
      } else if i == s {
        OneVictim(levels, job, output, dropTombstones, t, u, key);
      }
    }
  }

  /** A deeper table that holds a key of the inputs is hidden by the output. */
  lemma DeeperHidden(levels: Levels, job: Job, output: Table, dropTombstones: bool, j: nat, after: Levels, i: nat,
                     t: Table, key: Key)
    requires CutLists(levels, job, output, dropTombstones, j, after) && HeldIn(job.inputs, key)
    requires job.outputLevel < i < |levels| && t in levels[i] && Holds(t, key)
    ensures HeldAbove(after, i, key)
  {
    hide Placed, Retain, Ids, FirstIn;
    FirstInHolder(job.inputs, key);
    assert HeldIn(levels[i], key);
    assert Holds(output, key) && output in after[job.outputLevel];
    assert HeldIn(after[job.outputLevel], key);
  }

  /** On a deeper upper level only the victim holds an exposed key. */
  lemma OneVictim(levels: Levels, job: Job, output: Table, dropTombstones: bool, t: Table, u: Table, key: Key)
    requires Prepared(levels, job, output, dropTombstones) && job.outputLevel > 1 && Exposed(levels, job, key)
    requires t in levels[job.outputLevel - 1] && u in levels[job.outputLevel - 1] && Holds(t, key) && Holds(u, key)
    ensures t == u
  {
    hide MergedFrom;
    forall i | 0 < i < |job.inputs|
      ensures job.inputs[i] !in levels[job.outputLevel - 1]
    {
      assert job.inputs[i] in job.inputs[1..];
      LowerNotUpper(levels, job, output, job.inputs[i]);
    }
  }

  lemma StakeVisible(levels: Levels, job: Job, output: Table, dropTombstones: bool, j: nat, after: Levels, key: Key)
    requires CutLists(levels, job, output, dropTombstones, j, after) && CoherentAt(levels, key)
    requires HeldIn(job.inputs, key) && Exposed(levels, job, key) && LastingAt(levels, job, j, key)
    ensures Visible(LookupFrom(levels, 0, key)) == Visible(LookupFrom(after, 0, key))
  {
    hide Fits, MergedFrom, Placed, Retain, Ids, FirstIn, Lookup, CoherentAt, UpperLeft;
    RunningAnswer(levels, job, output, dropTombstones, key);
    CutAbove(levels, job, output, dropTombstones, j, after, key);
    CutUpper(levels, job, output, dropTombstones, j, after, key);
    FirstInHolder(UpperLeft(job, j), key);
    if !HeldIn(UpperLeft(job, j), key) {
      LowerAllAgree(levels, job, output, dropTombstones, j, after, key);
    }
  }

  // ----- exactly when the cut is harmless for good -----

  /** A coherent key stays coherent and keeps its value if and only if it is safe for good. */
  lemma LastingExactly(levels: Levels, job: Job, output: Table, dropTombstones: bool, j: nat, after: Levels, key: Key)
    requires CutLists(levels, job, output, dropTombstones, j, after) && CoherentAt(levels, key)
    ensures LastingAt(levels, job, j, key) <==> Keeps(levels, after, key)
  {
    hide Fits, MergedFrom, Placed, Retain, Ids, FirstIn, Lookup, CoherentAt, Exposed, LastingAt;
    LastingKeeps(levels, job, output, dropTombstones, j, after, key);
    if Keeps(levels, after, key) {
      KeepsLasting(levels, job, output, dropTombstones, j, after, key);
    }
  }

  lemma LastingKeeps(levels: Levels, job: Job, output: Table, dropTombstones: bool, j: nat, after: Levels, key: Key)
    requires CutLists(levels, job, output, dropTombstones, j, after) && CoherentAt(levels, key)
    ensures LastingAt(levels, job, j, key) ==> Keeps(levels, after, key)
  {
    hide Fits, MergedFrom, Placed, Retain, Ids, FirstIn, Lookup, CoherentAt, Exposed, LastingAt;
    if LastingAt(levels, job, j, key) {
      if !HeldIn(job.inputs, key) {
        CutNotHeld(levels, job, output, dropTombstones, j, after, key);
        SameAtKeeps(levels, after, key);
      } else if !Exposed(levels, job, key) {
        HiddenCoherent(levels, job, output, dropTombstones, j, after, key);
        CutHidden(levels, job, output, dropTombstones, j, after, key);
      } else {
        StakeCoherent(levels, job, output, dropTombstones, j, after, key);
        StakeVisible(levels, job, output, dropTombstones, j, after, key);
      }
    }
  }

  lemma VisibleEntry(a: Option<Entry>, b: Option<Entry>)
    requires a.Some? && b.Some? && Visible(a) == Visible(b)
    ensures a == b
  {
  }

  lemma KeepsLasting(levels: Levels, job: Job, output: Table, dropTombstones: bool, j: nat, after: Levels, key: Key)
    requires CutLists(levels, job, output, dropTombstones, j, after)
    requires CoherentAt(levels, key) && CoherentAt(after, key)
    requires Visible(LookupFrom(levels, 0, key)) == Visible(LookupFrom(after, 0, key))
    ensures LastingAt(levels, job, j, key)
  {
    hide Fits, Placed, Retain, Ids, FirstIn, Lookup, UpperLeft, CoherentAt;
    if HeldIn(job.inputs, key) && Exposed(levels, job, key) {
      var d := job.outputLevel;
      RunningAnswer(levels, job, output, dropTombstones, key);
      CutAbove(levels, job, output, dropTombstones, j, after, key);
      CutUpper(levels, job, output, dropTombstones, j, after, key);
      UpperHeld(levels, job, output, dropTombstones, j, after, key);
      FirstInHolder(UpperLeft(job, j), key);
      FirstInHolder(job.inputs, key);
      if HeldIn(UpperLeft(job, j), key) {
        VisibleEntry(FirstIn(UpperLeft(job, j), key), FirstIn(job.inputs, key));
      } else {
        forall t | LowerRemains(job, j, t) && Holds(t, key)
          ensures Lookup(t.run, key) == FirstIn(job.inputs, key)
        {
          LowerListed(levels, job, output, t);
          AgreesWithAll(after, d, t, key);
          VisibleEntry(Lookup(t.run, key), FirstIn(job.inputs, key));
        }
      }
    }
  }

  lemma LowerListed(levels: Levels, job: Job, output: Table, t: Table)
    requires Placed(levels, job, output) && t in job.inputs[job.upper..]
    ensures t in levels[job.outputLevel]
  {
  }

  /** On a level that nothing above hides, a coherent key is answered by any of its holders. */
  lemma AgreesWithAll(levels: Levels, i: nat, t: Table, key: Key)
    requires CoherentAt(levels, key) && 1 <= i < |levels| && !HeldAbove(levels, i, key)
    requires t in levels[i] && Holds(t, key)
    ensures FirstIn(levels[i], key) == Lookup(t.run, key)
    ensures LookupFrom(levels, i, key) == Lookup(t.run, key)
  {
    hide FirstIn;
    assert Agreed(levels[i], key, Lookup(t.run, key).value);
    FirstInAgreed(levels[i], key, Lookup(t.run, key).value);
  }
}
