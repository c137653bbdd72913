/** Sorted runs of entries: the common view of a memtable, a table file and a merge output. */
module Runs {
  import opened Bytes
  import opened Wrappers

  datatype Entry = Value(value: seq<byte>) | Tombstone

  type Run = seq<(Key, Entry)>

  ghost predicate Sorted(run: Run)
  {
    forall i, j :: 0 <= i < j < |run| ==> Lt(run[i].0, run[j].0)
  }

  /** The entry recorded for `key`, by linear search. */
  function Lookup(run: Run, key: Key): Option<Entry>
  {
    if run == [] then None
    else if run[0].0 == key then Some(run[0].1)
    else Lookup(run[1..], key)
  }

  /** What a reader sees of an entry: a tombstone and a missing entry look the same. */
  function Visible(found: Option<Entry>): Option<seq<byte>>
  {
    if found.Some? && found.value.Value? then Some(found.value.value) else None
  }

  lemma {:induction false} LookupAt(run: Run, i: nat)
    requires Sorted(run) && i < |run|
    ensures Lookup(run, run[i].0) == Some(run[i].1)
  {
    if i == 0 {
    } else {
      LtIsRankOrder(run[0].0, run[i].0);
      LookupAt(run[1..], i - 1);
    }
  }

  lemma {:induction false} LookupFound(run: Run, key: Key) returns (i: nat)
    requires Lookup(run, key).Some?
    ensures i < |run| && run[i] == (key, Lookup(run, key).value)
  {
    if run[0].0 == key {
      i := 0;
    } else {
      i := LookupFound(run[1..], key);
      i := i + 1;
    }
  }

  /** A sorted run is determined by what it answers. */
  lemma {:induction false} SameAnswersSameRun(a: Run, b: Run)
    requires Sorted(a) && Sorted(b)
    requires forall key :: Lookup(a, key) == Lookup(b, key)
    ensures a == b
  {
    KeyOrder();
    if a != [] && b != [] {
      LookupAt(a, 0);
      LookupAt(b, 0);
      var i := LookupFound(a, b[0].0);
      var j := LookupFound(b, a[0].0);
      assert a[0] == b[0];
      forall key
        ensures Lookup(a[1..], key) == Lookup(b[1..], key)
      {
        assert Lookup(a, key) == Lookup(b, key);
        if key == a[0].0 {
          AbsentBelow(a[1..], key);
          AbsentBelow(b[1..], key);
        }
      }
      SameAnswersSameRun(a[1..], b[1..]);
      assert a == [a[0]] + a[1..] && b == [b[0]] + b[1..];
    } else if a != [] {
      LookupAt(a, 0);
    } else if b != [] {
      LookupAt(b, 0);
    }
  }

  /** A key below every key of a run has no entry in it. */
  lemma AbsentBelow(run: Run, key: Key)
    requires forall i :: 0 <= i < |run| ==> Lt(key, run[i].0)
    ensures Lookup(run, key) == None
  {
    if Lookup(run, key).Some? {
      var i := LookupFound(run, key);
      LtIsRankOrder(key, key);
    }
  }

  /** The smallest and largest key of a run; the empty key for an empty run. */
  function Smallest(run: Run): Key
  {
    if run == [] then [] else run[0].0
  }

  function Largest(run: Run): Key
  {
    if run == [] then [] else run[|run| - 1].0
  }

  /** The ends of a run that is not empty are keys it holds, and no key of it lies outside them. */
  lemma EndsAreHeld(run: Run, key: Key)
    requires Sorted(run) && run != []
    ensures Lookup(run, Smallest(run)).Some? && Lookup(run, Largest(run)).Some?
    ensures Lookup(run, key).Some? ==> !Lt(key, Smallest(run)) && !Lt(Largest(run), key)
  {
    LookupAt(run, 0);
    LookupAt(run, |run| - 1);
    if Lookup(run, key).Some? {
      HeldInRange(run, key);
    }
  }

  lemma HeldInRange(run: Run, key: Key)
    requires Sorted(run) && Lookup(run, key).Some?
    ensures Le(Smallest(run), key) && Le(key, Largest(run))
  {
    var i := LookupFound(run, key);
    KeyOrder();
    assert i == 0 || Lt(run[0].0, run[i].0);
    assert i == |run| - 1 || Lt(run[i].0, run[|run| - 1].0);
  }

  /** The first answer in a list of runs, newest run first. */
  function First(runs: seq<Run>, key: Key): Option<Entry>
  {
    if runs == [] then None
    else if Lookup(runs[0], key).Some? then Lookup(runs[0], key)
    else First(runs[1..], key)
  }
}
