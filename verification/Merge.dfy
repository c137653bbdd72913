/** Merging sorted runs: the newest entry per key, tombstones kept or dropped. */
module Merging {
  import opened Bytes
  import opened Runs
  import opened Levels
  import opened Compaction
  import opened Picker

  /** Two sorted runs as one; the first wins on a shared key. */
  function Merge2(a: Run, b: Run): Run
  {
    if a == [] then b
    else if b == [] then a
    else if a[0].0 == b[0].0 then [a[0]] + Merge2(a[1..], b[1..])
    else if Lt(a[0].0, b[0].0) then [a[0]] + Merge2(a[1..], b)
    else [b[0]] + Merge2(a, b[1..])
  }

  /** Any number of sorted runs as one; the lowest index wins. */
  function MergeRuns(runs: seq<Run>): Run
  {
    if runs == [] then [] else Merge2(runs[0], MergeRuns(runs[1..]))
  }

  function RunsOf(tables: seq<Table>): (runs: seq<Run>)
    ensures |runs| == |tables|
    ensures forall i :: 0 <= i < |runs| ==> runs[i] == tables[i].run
  {
    if tables == [] then [] else [tables[0].run] + RunsOf(tables[1..])
  }

  function WithoutTombstones(run: Run): Run
  {
    if run == [] then []
    else (if run[0].1.Tombstone? then [] else [run[0]]) + WithoutTombstones(run[1..])
  }

  function Keep(run: Run, dropTombstones: bool): Run
  {
    if dropTombstones then WithoutTombstones(run) else run
  }

  /** The run a compaction writes: newest entry per key, tombstones kept or dropped. */
  function Merged(tables: seq<Table>, dropTombstones: bool): Run
  {
    Keep(MergeRuns(RunsOf(tables)), dropTombstones)
  }

  lemma {:induction false} Merge2Lookup(a: Run, b: Run, key: Key)
    requires Sorted(a) && Sorted(b)
    ensures Lookup(Merge2(a, b), key) == if Lookup(a, key).Some? then Lookup(a, key) else Lookup(b, key)
    decreases |a| + |b|
  {
    if a != [] && b != [] {
      LtIsRankOrder(a[0].0, b[0].0);
      if a[0].0 == b[0].0 {
        Merge2Lookup(a[1..], b[1..], key);
        if key == a[0].0 {
          AbsentBelow(b[1..], key);
        }
      } else if Lt(a[0].0, b[0].0) {
        Merge2Lookup(a[1..], b, key);
      } else {
        Merge2Lookup(a, b[1..], key);
        if key == b[0].0 {
          LtIsRankOrder(key, a[0].0);
          BelowAll(key, a);
          AbsentBelow(a, key);
        }
      }
    }
  }

  lemma BelowAll(key: Key, run: Run)
    requires Sorted(run) && (run != [] ==> Lt(key, run[0].0))
    ensures forall i :: 0 <= i < |run| ==> Lt(key, run[i].0)
  {
    KeyOrder();
    if run != [] {
      LtIsRankOrder(key, run[0].0);
      assert forall i :: 0 < i < |run| ==> Lt(run[0].0, run[i].0);
    }
  }

  lemma {:induction false} Merge2Sorted(a: Run, b: Run)
    requires Sorted(a) && Sorted(b)
    ensures Sorted(Merge2(a, b))
    ensures ProperRun(a) && ProperRun(b) ==> ProperRun(Merge2(a, b))
    ensures forall key :: Below(key, a) && Below(key, b) ==> Below(key, Merge2(a, b))
    decreases |a| + |b|
  {
    hide Lt, Rank;
    if a != [] && b != [] {
      LtIsRankOrder(a[0].0, b[0].0);
      KeyOrder();
      var (head, x, y) :=
        if a[0].0 == b[0].0 then (a[0], a[1..], b[1..])
        else if Lt(a[0].0, b[0].0) then (a[0], a[1..], b)
        else (b[0], a, b[1..]);
      Merge2Sorted(x, y);
      assert Below(head.0, x) && Below(head.0, y);
      assert Merge2(a, b) == [head] + Merge2(x, y);
      forall key | Below(key, a) && Below(key, b)
        ensures Below(key, Merge2(a, b))
      {
        assert Lt(key, a[0].0) && Lt(key, b[0].0);
        assert Below(key, x) && Below(key, y);
      }
    }
  }

  ghost predicate Below(key: Key, run: Run)
  {
    forall i :: 0 <= i < |run| ==> Lt(key, run[i].0)
  }

  lemma {:induction false} EmptyRuns(runs: seq<Run>)
    requires forall i :: 0 <= i < |runs| ==> runs[i] == []
    ensures MergeRuns(runs) == []
  {
    if runs == [] {
    } else {
      EmptyRuns(runs[1..]);
    }
  }

  lemma {:induction false} MergeRunsLookup(runs: seq<Run>, key: Key)
    requires forall run :: run in runs ==> Sorted(run)
    ensures Sorted(MergeRuns(runs))
    ensures (forall run :: run in runs ==> ProperRun(run)) ==> ProperRun(MergeRuns(runs))
    ensures Lookup(MergeRuns(runs), key) == First(runs, key)
  {
    if runs == [] {
    } else {
      MergeRunsLookup(runs[1..], key);
      Merge2Sorted(runs[0], MergeRuns(runs[1..]));
      Merge2Lookup(runs[0], MergeRuns(runs[1..]), key);
    }
  }

  lemma {:induction false} FirstOfTables(tables: seq<Table>, key: Key)
    ensures First(RunsOf(tables), key) == FirstIn(tables, key)
  {
    if tables == [] {
    } else {
      FirstOfTables(tables[1..], key);
      assert RunsOf(tables)[1..] == RunsOf(tables[1..]);
    }
  }

  lemma {:induction false} WithoutTombstonesSorted(run: Run)
    requires Sorted(run)
    ensures Sorted(WithoutTombstones(run))
    ensures ProperRun(run) ==> ProperRun(WithoutTombstones(run))
    ensures forall key :: Below(key, run) ==> Below(key, WithoutTombstones(run))
  {
    hide Lt, Rank;
    if run == [] {
    } else {
      WithoutTombstonesSorted(run[1..]);
      assert Below(run[0].0, run[1..]);
      forall key | Below(key, run)
        ensures Below(key, WithoutTombstones(run))
      {
        assert Lt(key, run[0].0) && Below(key, run[1..]);
      }
    }
  }

  lemma {:induction false} WithoutTombstonesLookup(run: Run, key: Key)
    requires Sorted(run)
    ensures Lookup(WithoutTombstones(run), key) == Surviving(Lookup(run, key), true)
  {
    hide Lt, Rank;
    if run == [] {
    } else {
      WithoutTombstonesLookup(run[1..], key);
      var rest := WithoutTombstones(run[1..]);
      assert [] + rest == rest && ([run[0]] + rest)[1..] == rest;
      if run[0].0 == key {
        WithoutTombstonesSorted(run[1..]);
        assert Below(key, run[1..]);
        AbsentBelow(WithoutTombstones(run[1..]), key);
      }
    }
  }

  /** A merge answers every key as its newest input does, tombstones aside. */
  lemma MergedAnswers(tables: seq<Table>, dropTombstones: bool, key: Key)
    requires forall t :: t in tables ==> Sorted(t.run)
    ensures Sorted(Merged(tables, dropTombstones))
    ensures (forall t :: t in tables ==> ProperRun(t.run)) ==> ProperRun(Merged(tables, dropTombstones))
    ensures Lookup(Merged(tables, dropTombstones), key) == Surviving(FirstIn(tables, key), dropTombstones)
  {
    var runs := RunsOf(tables);
    MergeRunsLookup(runs, key);
    FirstOfTables(tables, key);
    WithoutTombstonesSorted(MergeRuns(runs));
    WithoutTombstonesLookup(MergeRuns(runs), key);
  }

  // ----- one step of a merge -----

  ghost predicate NoHeadBelow(runs: seq<Run>, key: Key)
  {
    forall i :: 0 <= i < |runs| && runs[i] != [] ==> !Lt(runs[i][0].0, key)
  }

  function Past(run: Run, key: Key): Run
  {
    if run != [] && run[0].0 == key then run[1..] else run
  }

  /** Every run past `key`, if it starts with it. */
  function Advanced(runs: seq<Run>, key: Key): (r: seq<Run>)
    ensures |r| == |runs|
    ensures forall i :: 0 <= i < |runs| ==> r[i] == Past(runs[i], key)
  {
    if runs == [] then [] else [Past(runs[0], key)] + Advanced(runs[1..], key)
  }

  /** `i` is the lowest index of a run that starts with `key`. */
  ghost predicate Wins(runs: seq<Run>, key: Key, i: nat)
  {
    && i < |runs| && runs[i] != [] && runs[i][0].0 == key
    && forall j :: 0 <= j < i && runs[j] != [] ==> runs[j][0].0 != key
  }

  /** No run starts at or below `key`: nothing of the merge does. */
  lemma {:induction false} MergeAbove(runs: seq<Run>, key: Key)
    requires forall i :: 0 <= i < |runs| && runs[i] != [] ==> Lt(key, runs[i][0].0)
    ensures MergeRuns(runs) != [] ==> Lt(key, MergeRuns(runs)[0].0)
    ensures Advanced(runs, key) == runs
  {
    if runs == [] {
    } else {
      LtTrichotomy(key, key, key);
      MergeAbove(runs[1..], key);
    }
  }

  lemma {:induction false} FirstStart(runs: seq<Run>, key: Key) returns (i: nat)
    ensures i <= |runs| && (i < |runs| ==> Wins(runs, key, i))
    ensures forall j :: 0 <= j < i && runs[j] != [] ==> runs[j][0].0 != key
  {
    if runs == [] || (runs[0] != [] && runs[0][0].0 == key) {
      i := 0;
    } else {
      i := FirstStart(runs[1..], key);
      i := i + 1;
    }
  }

  /** A run that starts above `x` leaves it in front. */
  lemma StepOver(a: Run, b: Run, x: (Key, Entry))
    requires b != [] && b[0] == x && (a != [] ==> Lt(x.0, a[0].0))
    ensures Merge2(a, b) == [x] + Merge2(a, b[1..])
  {
    if a == [] {
      assert b == [x] + b[1..];
    } else {
      LtTrichotomy(x.0, a[0].0, x.0);
      if b[1..] == [] {
        assert Merge2(a, []) == a;
      }
    }
  }

  /** A run that starts with `key` goes first; an entry for the same key behind it is dropped. */
  lemma StepOn(a: Run, b: Run, after: Run, key: Key)
    requires a != [] && a[0].0 == key
    requires if b != [] && b[0].0 == key then after == b[1..] else after == b && (b != [] ==> Lt(key, b[0].0))
    ensures Merge2(a, b) == [a[0]] + Merge2(a[1..], after)
  {
    if b == [] {
      assert a == [a[0]] + a[1..] && Merge2(a[1..], []) == a[1..];
    }
  }

  /** The merge starts with the least head, taken from the lowest index, and goes on with every such head removed. */
  lemma {:induction false} MergeStep(runs: seq<Run>, key: Key, i: nat)
    requires NoHeadBelow(runs, key) && Wins(runs, key, i)
    ensures MergeRuns(runs) == [(key, runs[i][0].1)] + MergeRuns(Advanced(runs, key))
    decreases |runs|, 0
  {
    hide Lt, Merge2, Past;
    var head, rest := runs[0], runs[1..];
    PastHead(head, key);
    var after := MergeRuns(Advanced(rest, key));
    assert Advanced(runs, key)[1..] == Advanced(rest, key);
    if i > 0 {
      MergeStep(rest, key, i - 1);
      if head != [] {
        LtTrichotomy(key, head[0].0, key);
      }
      assert MergeRuns(rest)[1..] == after;
      StepOver(head, MergeRuns(rest), (key, runs[i][0].1));
    } else {
      MergeRest(rest, key);
      StepOn(head, MergeRuns(rest), after, key);
    }
  }

  lemma PastHead(run: Run, key: Key)
    ensures run != [] && run[0].0 == key ==> Past(run, key) == run[1..]
    ensures !(run != [] && run[0].0 == key) ==> Past(run, key) == run
  {
  }

  /** What a merge behind a run on `key` starts with, and what is left of it. */
  lemma {:induction false} MergeRest(rest: seq<Run>, key: Key)
    requires NoHeadBelow(rest, key)
    ensures var m, after := MergeRuns(rest), MergeRuns(Advanced(rest, key));
            if m != [] && m[0].0 == key then after == m[1..] else after == m && (m != [] ==> Lt(key, m[0].0))
    decreases |rest|, 1
  {
    hide Lt, Merge2, MergeRuns;
    var j := FirstStart(rest, key);
    if j < |rest| {
      MergeStep(rest, key, j);
    } else {
      forall j | 0 <= j < |rest| && rest[j] != []
        ensures Lt(key, rest[j][0].0)
      {
        LtTrichotomy(key, rest[j][0].0, key);
      }
      MergeAbove(rest, key);
      LtTrichotomy(key, key, key);
    }
  }
}
