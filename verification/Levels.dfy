/** Layered lookup over the levels of a version, and why a compaction does not change it. */
module Levels {
  import opened Bytes
  import opened Wrappers
  import opened Runs

  /** A table file: its id, its entries, and its length on disk. */
  datatype Table = Table(id: nat, run: Run, size: nat)

  /** `levels[0]` is newest first and may overlap; deeper levels are older. */
  type Levels = seq<seq<Table>>

  ghost predicate Holds(t: Table, key: Key)
  {
    Lookup(t.run, key).Some?
  }

  ghost predicate HeldIn(tables: seq<Table>, key: Key)
  {
    exists t :: t in tables && Holds(t, key)
  }

  /** The first answer in a list of tables. */
  function FirstIn(tables: seq<Table>, key: Key): Option<Entry>
  {
    if tables == [] then None
    else if Lookup(tables[0].run, key).Some? then Lookup(tables[0].run, key)
    else FirstIn(tables[1..], key)
  }

  /** The first answer at level `from` or deeper. */
  function LookupFrom(levels: Levels, from: nat, key: Key): Option<Entry>
    requires from <= |levels|
    decreases |levels| - from
  {
    if from == |levels| then None
    else if FirstIn(levels[from], key).Some? then FirstIn(levels[from], key)
    else LookupFrom(levels, from + 1, key)
  }

  ghost predicate HeldAbove(levels: Levels, level: nat, key: Key)
    requires level <= |levels|
  {
    exists i :: 0 <= i < level && HeldIn(levels[i], key)
  }

  // ----- lists of tables -----

  lemma {:induction false} FirstInHolder(tables: seq<Table>, key: Key)
    ensures FirstIn(tables, key).Some? <==> HeldIn(tables, key)
    ensures FirstIn(tables, key).Some? ==>
              exists t :: t in tables && Holds(t, key) && Lookup(t.run, key) == FirstIn(tables, key)
  {
    if tables == [] {
    } else {
      FirstInHolder(tables[1..], key);
      if Holds(tables[0], key) {
        assert tables[0] in tables;
      } else {
        assert forall t :: t in tables <==> t == tables[0] || t in tables[1..];
      }
    }
  }

  lemma {:induction false} FirstInConcat(a: seq<Table>, b: seq<Table>, key: Key)
    ensures FirstIn(a + b, key) == if FirstIn(a, key).Some? then FirstIn(a, key) else FirstIn(b, key)
  {
    if a == [] {
      assert a + b == b;
    } else {
      assert (a + b)[1..] == a[1..] + b;
      FirstInConcat(a[1..], b, key);
    }
  }

  /** Every table that holds `key` answers the same. */
  ghost predicate Agreed(tables: seq<Table>, key: Key, answer: Entry)
  {
    forall t :: t in tables && Holds(t, key) ==> Lookup(t.run, key) == Some(answer)
  }

  lemma FirstInAgreed(tables: seq<Table>, key: Key, answer: Entry)
    requires Agreed(tables, key, answer)
    ensures FirstIn(tables, key) == if HeldIn(tables, key) then Some(answer) else None
  {
    FirstInHolder(tables, key);
  }

  /** `retain`: the tables whose id is not in `ids`, in order. */
  function Retain(tables: seq<Table>, ids: set<nat>): seq<Table>
  {
    if tables == [] then []
    else (if tables[0].id in ids then [] else [tables[0]]) + Retain(tables[1..], ids)
  }

  lemma {:induction false} RetainMembers(tables: seq<Table>, ids: set<nat>)
    ensures forall t :: t in Retain(tables, ids) <==> t in tables && t.id !in ids
  {
    if tables == [] {
    } else {
      RetainMembers(tables[1..], ids);
      assert forall t :: t in tables <==> t == tables[0] || t in tables[1..];
    }
  }

  lemma {:induction false} RetainConcat(a: seq<Table>, b: seq<Table>, ids: set<nat>)
    ensures Retain(a + b, ids) == Retain(a, ids) + Retain(b, ids)
  {
    if a == [] {
      assert a + b == b;
    } else {
      assert (a + b)[1..] == a[1..] + b;
      RetainConcat(a[1..], b, ids);
    }
  }

  lemma {:induction false} RetainUnchanged(tables: seq<Table>, ids: set<nat>)
    requires forall t :: t in tables ==> t.id !in ids
    ensures Retain(tables, ids) == tables
  {
    if tables == [] {
    } else {
      RetainUnchanged(tables[1..], ids);
    }
  }

  lemma RetainNothing(tables: seq<Table>, ids: set<nat>)
    requires forall t :: t in tables ==> t.id in ids
    ensures Retain(tables, ids) == []
  {
    RetainMembers(tables, ids);
    if Retain(tables, ids) != [] {
      assert Retain(tables, ids)[0] in Retain(tables, ids);
    }
  }

  /** Removing a contiguous stretch. */
  lemma RetainRange(tables: seq<Table>, a: nat, b: nat, ids: set<nat>)
    requires a <= b <= |tables|
    requires forall i :: 0 <= i < |tables| ==> (tables[i].id in ids <==> a <= i < b)
    ensures Retain(tables, ids) == tables[..a] + tables[b..]
  {
    hide Retain;
    assert tables == tables[..a] + tables[a..b] + tables[b..];
    RetainConcat(tables[..a] + tables[a..b], tables[b..], ids);
    RetainConcat(tables[..a], tables[a..b], ids);
    RetainUnchanged(tables[..a], ids);
    RetainNothing(tables[a..b], ids);
    RetainUnchanged(tables[b..], ids);
  }

  function Ids(tables: seq<Table>): set<nat>
  {
    set t | t in tables :: t.id
  }

  // ----- whole versions -----

  /** Two versions whose levels above `level` give the same first answers. */
  lemma {:induction false} SameAbove(a: Levels, b: Levels, from: nat, level: nat, key: Key)
    requires |a| == |b| && from <= level <= |a|
    requires forall i :: from <= i < level ==> FirstIn(a[i], key) == FirstIn(b[i], key)
    requires (exists i :: from <= i < level && HeldIn(a[i], key)) ||
             Visible(LookupFrom(a, level, key)) == Visible(LookupFrom(b, level, key))
    ensures Visible(LookupFrom(a, from, key)) == Visible(LookupFrom(b, from, key))
    decreases level - from
  {
    if from == level {
    } else {
      FirstInHolder(a[from], key);
      if FirstIn(a[from], key).None? {
        SameAbove(a, b, from + 1, level, key);
      }
    }
  }

  lemma {:induction false} NothingFrom(levels: Levels, from: nat, key: Key)
    requires from <= |levels|
    requires forall i :: from <= i < |levels| ==> !HeldIn(levels[i], key)
    ensures LookupFrom(levels, from, key) == None
    decreases |levels| - from
  {
    if from == |levels| {
    } else {
      FirstInHolder(levels[from], key);
      NothingFrom(levels, from + 1, key);
    }
  }

  /**
   * For one key the order of tables inside a level below L0 does not matter: two
   * tables that hold it agree on it, or a higher level hides both.
   */
  ghost predicate CoherentAt(levels: Levels, key: Key)
  {
    forall i, t, u ::
      1 <= i < |levels| && t in levels[i] && u in levels[i] && Holds(t, key) && Holds(u, key) ==>
        Lookup(t.run, key) == Lookup(u.run, key) || HeldAbove(levels, i, key)
  }

  /** A coherent key stays coherent and keeps its visible value. */
  ghost predicate Keeps(a: Levels, b: Levels, key: Key)
  {
    CoherentAt(a, key) ==>
      CoherentAt(b, key) && Visible(LookupFrom(a, 0, key)) == Visible(LookupFrom(b, 0, key))
  }

  /** An id names one table, in one level, and occurs once in L0. */
  ghost predicate Identified(levels: Levels)
  {
    && (forall i, j, t, u ::
          0 <= i < |levels| && 0 <= j < |levels| && t in levels[i] && u in levels[j] && t.id == u.id ==>
            i == j && t == u)
    && (|levels| > 0 ==>
          forall i, j :: 0 <= i < j < |levels[0]| ==> levels[0][i].id != levels[0][j].id)
  }

  /** The same L0 list and, below it, the same tables in any order. */
  ghost predicate SameTables(a: Levels, b: Levels)
  {
    && |a| == |b|
    && (|a| > 0 ==> a[0] == b[0])
    && forall i, t :: 1 <= i < |a| ==> (t in a[i] <==> t in b[i])
  }

  /** For one key: the same first answer in L0, and the same holders on every level. */
  ghost predicate SameAt(a: Levels, b: Levels, key: Key)
  {
    && |a| == |b|
    && (|a| > 0 ==> FirstIn(a[0], key) == FirstIn(b[0], key))
    && forall i, t :: 0 <= i < |a| && Holds(t, key) ==> (t in a[i] <==> t in b[i])
  }

  lemma SameTablesAt(a: Levels, b: Levels, key: Key)
    requires SameTables(a, b)
    ensures SameAt(a, b, key)
  {
  }

  lemma SameAtHeld(a: Levels, b: Levels, i: nat, key: Key)
    requires SameAt(a, b, key) && i < |a|
    ensures HeldIn(a[i], key) <==> HeldIn(b[i], key)
  {
  }

  lemma SameAtCoherent(a: Levels, b: Levels, key: Key)
    requires SameAt(a, b, key) && CoherentAt(a, key)
    ensures CoherentAt(b, key)
  {
    forall i, t, u |
      1 <= i < |b| && t in b[i] && u in b[i] && Holds(t, key) && Holds(u, key)
      ensures Lookup(t.run, key) == Lookup(u.run, key) || HeldAbove(b, i, key)
    {
      if HeldAbove(a, i, key) {
        var j :| 0 <= j < i && HeldIn(a[j], key);
        SameAtHeld(a, b, j, key);
      }
    }
  }

  lemma {:induction false} SameAtAnswer(a: Levels, b: Levels, from: nat, key: Key)
    requires SameAt(a, b, key) && CoherentAt(a, key) && from <= |a|
    requires !HeldAbove(a, from, key)
    ensures LookupFrom(a, from, key) == LookupFrom(b, from, key)
    decreases |a| - from
  {
    if from == |a| {
    } else {
      FirstInHolder(a[from], key);
      FirstInHolder(b[from], key);
      SameAtHeld(a, b, from, key);
      if HeldIn(a[from], key) {
        if from > 0 {
          var t :| t in a[from] && Holds(t, key);
          assert Agreed(a[from], key, Lookup(t.run, key).value);
          FirstInAgreed(a[from], key, Lookup(t.run, key).value);
          FirstInAgreed(b[from], key, Lookup(t.run, key).value);
        }
      } else {
        SameAtAnswer(a, b, from + 1, key);
      }
    }
  }

  lemma SameAtKeeps(a: Levels, b: Levels, key: Key)
    requires SameAt(a, b, key)
    ensures Keeps(a, b, key)
    ensures CoherentAt(a, key) ==> LookupFrom(a, 0, key) == LookupFrom(b, 0, key)
  {
    hide SameAt, CoherentAt;
    if CoherentAt(a, key) {
      SameAtCoherent(a, b, key);
      SameAtAnswer(a, b, 0, key);
    }
  }
}
