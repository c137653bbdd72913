/** Installing a compaction, and the shape every level keeps. */
module Install {
  import opened Bytes
  import opened Runs
  import opened Levels
  import opened Compaction
  import opened Picker

  // ----- stable sort by smallest key -----

  function InsertBySmallest(tables: seq<Table>, t: Table): seq<Table>
  {
    if tables != [] && Lt(Smallest(t.run), Smallest(tables[|tables| - 1].run)) then
      InsertBySmallest(tables[..|tables| - 1], t) + [tables[|tables| - 1]]
    else tables + [t]
  }

  function SortBySmallest(tables: seq<Table>): seq<Table>
  {
    if tables == [] then []
    else InsertBySmallest(SortBySmallest(tables[..|tables| - 1]), tables[|tables| - 1])
  }

  ghost predicate BySmallest(tables: seq<Table>)
  {
    forall i, j :: 0 <= i < j < |tables| ==> Le(Smallest(tables[i].run), Smallest(tables[j].run))
  }

  lemma {:induction false} InsertMembers(tables: seq<Table>, t: Table)
    ensures multiset(InsertBySmallest(tables, t)) == multiset(tables) + multiset{t}
  {
    if tables == [] {
    } else {
      var n := |tables| - 1;
      assert tables == tables[..n] + [tables[n]];
      InsertMembers(tables[..n], t);
    }
  }

  lemma InsertKeeps(tables: seq<Table>, output: Table)
    ensures forall t :: t in InsertBySmallest(tables, output) <==> t in tables || t == output
  {
    InsertMembers(tables, output);
    var r := InsertBySmallest(tables, output);
    assert forall t :: t in r <==> t in multiset(r);
    assert forall t :: t in tables <==> t in multiset(tables);
  }

  lemma {:induction false} SortMembers(tables: seq<Table>)
    ensures multiset(SortBySmallest(tables)) == multiset(tables)
    ensures forall t :: t in SortBySmallest(tables) <==> t in tables
  {
    if tables == [] {
    } else {
      var n := |tables| - 1;
      assert tables == tables[..n] + [tables[n]];
      SortMembers(tables[..n]);
      InsertMembers(SortBySmallest(tables[..n]), tables[n]);
    }
    assert forall t :: t in tables <==> t in multiset(tables);
    assert forall t :: t in SortBySmallest(tables) <==> t in multiset(SortBySmallest(tables));
  }

  lemma SpliceGrows(tables: seq<Table>, t: Table, p: nat)
    requires tables != [] && p < |tables|
    ensures var n := |tables| - 1;
            tables[..n][..p] + [t] + tables[..n][p..] + [tables[n]] == tables[..p] + [t] + tables[p..]
  {
    var n := |tables| - 1;
    assert tables[..n][..p] == tables[..p];
    assert tables[..n][p..] + [tables[n]] == tables[p..];
  }

  /** Where a table is inserted: after every table that is not larger, before the rest. */
  lemma {:induction false} InsertSplits(tables: seq<Table>, t: Table) returns (p: nat)
    requires BySmallest(tables)
    ensures p <= |tables| && InsertBySmallest(tables, t) == tables[..p] + [t] + tables[p..]
    ensures forall i :: 0 <= i < p ==> Le(Smallest(tables[i].run), Smallest(t.run))
    ensures forall i :: p <= i < |tables| ==> Lt(Smallest(t.run), Smallest(tables[i].run))
  {
    hide Lt, Rank;
    var n := |tables| - 1;
    if n >= 0 && Lt(Smallest(t.run), Smallest(tables[n].run)) {
      p := InsertSplits(tables[..n], t);
      SpliceGrows(tables, t, p);
    } else {
      p := |tables|;
      assert tables[p..] == [];
      forall i | 0 <= i < n
        ensures Le(Smallest(tables[i].run), Smallest(t.run))
      {
        KeyOrder();
        assert Le(Smallest(tables[i].run), Smallest(tables[n].run));
      }
    }
  }

  lemma InsertAt(tables: seq<Table>, t: Table, p: nat)
    requires p <= |tables|
    ensures var r := tables[..p] + [t] + tables[p..];
            |r| == |tables| + 1 &&
            forall i :: 0 <= i < |r| ==> r[i] == if i < p then tables[i] else if i == p then t else tables[i - 1]
  {
  }

  lemma InsertSorted(tables: seq<Table>, t: Table)
    requires BySmallest(tables)
    ensures BySmallest(InsertBySmallest(tables, t))
  {
    hide Lt, Rank;
    var p := InsertSplits(tables, t);
    InsertAt(tables, t, p);
    KeyOrder();
  }

  lemma {:induction false} SortSorts(tables: seq<Table>)
    ensures BySmallest(SortBySmallest(tables))
  {
    if tables == [] {
    } else {
      var n := |tables| - 1;
      SortSorts(tables[..n]);
      InsertSorted(SortBySmallest(tables[..n]), tables[n]);
    }
  }

  lemma {:induction false} SortUnchanged(tables: seq<Table>)
    requires BySmallest(tables)
    ensures SortBySmallest(tables) == tables
  {
    if tables == [] {
    } else {
      var n := |tables| - 1;
      SortUnchanged(tables[..n]);
      assert tables == tables[..n] + [tables[n]];
      if n > 0 {
        assert Le(Smallest(tables[n - 1].run), Smallest(tables[n].run));
      }
    }
  }

  /** Between tables that are not larger and tables that are, a table goes in the middle. */
  lemma {:induction false} InsertBetween(a: seq<Table>, b: seq<Table>, t: Table)
    requires forall u :: u in a ==> Le(Smallest(u.run), Smallest(t.run))
    requires forall u :: u in b ==> Lt(Smallest(t.run), Smallest(u.run))
    ensures InsertBySmallest(a + b, t) == a + [t] + b
  {
    hide Lt;
    if b == [] {
      assert a + b == a;
      assert a != [] ==> a[|a| - 1] in a;
    } else {
      var n := |b| - 1;
      InsertBetween(a, b[..n], t);
      assert (a + b)[..|a + b| - 1] == a + b[..n];
      assert b[n] in b && b == b[..n] + [b[n]];
    }
  }

  /** Inserting a table and removing others by id commute on a sorted list. */
  lemma InsertRetain(tables: seq<Table>, t: Table, ids: set<nat>)
    requires BySmallest(tables)
    ensures Retain(InsertBySmallest(tables, t), ids) ==
            if t.id in ids then Retain(tables, ids) else InsertBySmallest(Retain(tables, ids), t)
  {
    hide Lt, Retain, InsertBySmallest;
    var p := InsertSplits(tables, t);
    var a, b := tables[..p], tables[p..];
    assert tables == a + b;
    RetainConcat(a + [t], b, ids);
    RetainConcat(a, [t], ids);
    RetainConcat(a, b, ids);
    RetainMembers(a, ids);
    RetainMembers(b, ids);
    RetainMembers([t], ids);
    RetainOne(t, ids);
    InsertBetween(Retain(a, ids), Retain(b, ids), t);
  }

  lemma RetainOne(t: Table, ids: set<nat>)
    ensures Retain([t], ids) == if t.id in ids then [] else [t]
  {
    assert Retain([], ids) == [];
  }

  /** A stable sort commutes with removing tables by id. */
  lemma {:induction false} SortRetain(tables: seq<Table>, ids: set<nat>)
    ensures SortBySmallest(Retain(tables, ids)) == Retain(SortBySmallest(tables), ids)
  {
    hide Retain, InsertBySmallest;
    if tables == [] {
      RetainNothing([], ids);
    } else {
      var n := |tables| - 1;
      var rest := Retain(tables[..n], ids);
      SortRetain(tables[..n], ids);
      SortSorts(tables[..n]);
      InsertRetain(SortBySmallest(tables[..n]), tables[n], ids);
      assert tables == tables[..n] + [tables[n]];
      RetainConcat(tables[..n], [tables[n]], ids);
      RetainOne(tables[n], ids);
      if tables[n].id in ids {
        assert rest + [] == rest;
      } else {
        SortSnoc(rest, tables[n]);
      }
    }
  }

  lemma SortSnoc(tables: seq<Table>, t: Table)
    ensures SortBySmallest(tables + [t]) == InsertBySmallest(SortBySmallest(tables), t)
  {
    assert (tables + [t])[..|tables|] == tables;
  }

  lemma SortTwice(tables: seq<Table>)
    ensures SortBySmallest(SortBySmallest(tables)) == SortBySmallest(tables)
  {
    hide SortBySmallest;
    SortSorts(tables);
    SortUnchanged(SortBySmallest(tables));
  }

  lemma RetainBySmallest(tables: seq<Table>, ids: set<nat>)
    requires BySmallest(tables)
    ensures BySmallest(Retain(tables, ids))
  {
    hide BySmallest;
    SortUnchanged(tables);
    SortRetain(tables, ids);
    SortSorts(Retain(tables, ids));
  }

  // ----- no table twice -----

  ghost predicate Distinct(tables: seq<Table>)
  {
    forall i, j :: 0 <= i < j < |tables| ==> tables[i] != tables[j]
  }

  lemma {:induction false} DistinctOnce(tables: seq<Table>)
    requires Distinct(tables)
    ensures forall t :: t in tables ==> multiset(tables)[t] == 1
  {
    if tables == [] {
    } else {
      var n := |tables| - 1;
      DistinctOnce(tables[..n]);
      assert tables == tables[..n] + [tables[n]];
      assert tables[n] !in tables[..n];
    }
  }

  lemma {:induction false} OnceDistinct(tables: seq<Table>)
    requires forall t :: t in tables ==> multiset(tables)[t] == 1
    ensures Distinct(tables)
  {
    if tables == [] {
    } else {
      var n := |tables| - 1;
      var rest, last := tables[..n], tables[n];
      assert tables == rest + [last];
      forall t | t in rest
        ensures multiset(rest)[t] == 1 && t != last
      {
        assert t in multiset(rest) && t in tables;
        assert multiset(tables)[t] == multiset(rest)[t] + multiset{last}[t];
      }
      OnceDistinct(rest);
      forall i, j | 0 <= i < j < |tables|
        ensures tables[i] != tables[j]
      {
        assert tables[i] == rest[i] && rest[i] in rest;
        assert j < n ==> tables[j] == rest[j];
      }
    }
  }

  lemma SortDistinct(tables: seq<Table>)
    requires Distinct(tables)
    ensures Distinct(SortBySmallest(tables))
  {
    DistinctOnce(tables);
    SortMembers(tables);
    OnceDistinct(SortBySmallest(tables));
  }

  // ----- installing -----

  /** `apply_compaction`: drop the inputs by id, add the output, re-sort its level. */
  function Installed(levels: Levels, job: Job, output: Table): (r: Levels)
    ensures |r| == |levels|
  {
    var dest := if job.outputLevel < |levels| then job.outputLevel else |levels| - 1;
    seq(|levels|, i requires 0 <= i < |levels| =>
      var kept := Retain(levels[i], Ids(job.inputs));
      if i != dest then kept
      else if dest > 0 then SortBySmallest(kept + [output])
      else kept + [output])
  }

  lemma InstalledIsRewritten(levels: Levels, job: Job, output: Table)
    requires Placed(levels, job, output)
    ensures SameTables(Rewritten(levels, job.outputLevel, output, Ids(job.inputs)), Installed(levels, job, output))
  {
    var d, ids := job.outputLevel, Ids(job.inputs);
    OutputNotInput(levels, job, output);
    assert 1 <= d < |levels|;
    hide Placed, Retain, SortBySmallest, Ids;
    var kept := Retain(levels[d], ids);
    RetainConcat(levels[d], [output], ids);
    RetainUnchanged([output], ids);
    SortKeeps(kept + [output]);
    forall i | 0 <= i < |levels| && i != d
      ensures Rewritten(levels, d, output, ids)[i] == Installed(levels, job, output)[i]
    {
    }
  }

  lemma SortKeeps(tables: seq<Table>)
    ensures forall t :: t in SortBySmallest(tables) <==> t in tables
  {
    SortMembers(tables);
  }

  lemma OutputNotInput(levels: Levels, job: Job, output: Table)
    requires Placed(levels, job, output)
    ensures output.id !in Ids(job.inputs)
  {
    if output.id in Ids(job.inputs) {
      var u :| u in job.inputs && u.id == output.id;
      InputLevel(levels, job, output, u);
      assert false;
    }
  }

  // ----- the shape of a version -----

  /** Sorted by smallest key, with the non-empty tables pairwise disjoint. */
  ghost predicate Ordered(tables: seq<Table>)
  {
    && BySmallest(tables)
    && forall i, j :: 0 <= i < j < |tables| && tables[i].run != [] && tables[j].run != [] ==>
         Lt(Largest(tables[i].run), Smallest(tables[j].run))
  }

  /** L0 has no empty table; every deeper level is ordered. */
  ghost predicate Shaped(levels: Levels)
  {
    && (|levels| > 0 ==> forall t :: t in levels[0] ==> t.run != [])
    && forall i :: 1 <= i < |levels| ==> Ordered(levels[i])
  }

  /** One table lies wholly before the other. */
  ghost predicate Apart(t: Table, u: Table)
  {
    t.run != [] && u.run != [] ==>
      Lt(Largest(t.run), Smallest(u.run)) || Lt(Largest(u.run), Smallest(t.run))
  }

  lemma {:induction false} RetainOrdered(tables: seq<Table>, ids: set<nat>)
    requires Ordered(tables)
    ensures Ordered(Retain(tables, ids))
  {
    hide Lt, Rank;
    if tables == [] {
    } else {
      RetainOrdered(tables[1..], ids);
      RetainMembers(tables[1..], ids);
      var rest := Retain(tables[1..], ids);
      forall i | 0 <= i < |rest|
        ensures Le(Smallest(tables[0].run), Smallest(rest[i].run))
        ensures tables[0].run != [] && rest[i].run != [] ==> Lt(Largest(tables[0].run), Smallest(rest[i].run))
      {
        assert rest[i] in tables[1..];
      }
    }
  }

  lemma ApartBefore(t: Table, u: Table)
    requires ProperRun(t.run) && ProperRun(u.run) && Apart(t, u) && t.run != [] && u.run != []
    requires Le(Smallest(t.run), Smallest(u.run))
    ensures Lt(Largest(t.run), Smallest(u.run))
  {
    KeyOrder();
    LookupAt(u.run, 0);
    HeldInRange(u.run, u.run[0].0);
  }

  lemma InsertOrdered(tables: seq<Table>, output: Table)
    requires Ordered(tables) && ProperRun(output.run)
    requires forall t :: t in tables ==> ProperRun(t.run) && Apart(t, output)
    ensures Ordered(InsertBySmallest(tables, output))
  {
    var p := InsertSplits(tables, output);
    PairwiseOrdered(tables);
    hide Lt, Rank, Ordered, ProperRun;
    forall i | 0 <= i < |tables|
      ensures i < p ==> Precedes(tables[i], output)
      ensures i >= p ==> Precedes(output, tables[i])
    {
      KeyOrder();
      if tables[i].run != [] && output.run != [] {
        if i < p {
          ApartBefore(tables[i], output);
        } else {
          ApartBefore(output, tables[i]);
        }
      }
    }
    hide Precedes, InsertBySmallest;
    SplicedPairs(tables, output, p);
    PairwiseOrdered(InsertBySmallest(tables, output));
  }

  lemma SplicedPairs(tables: seq<Table>, t: Table, p: nat)
    requires p <= |tables| && forall i, j :: 0 <= i < j < |tables| ==> Precedes(tables[i], tables[j])
    requires forall i :: 0 <= i < |tables| ==> if i < p then Precedes(tables[i], t) else Precedes(t, tables[i])
    ensures var r := tables[..p] + [t] + tables[p..]; forall i, j :: 0 <= i < j < |r| ==> Precedes(r[i], r[j])
  {
    hide Precedes;
    InsertAt(tables, t, p);
  }

  ghost predicate Precedes(t: Table, u: Table)
  {
    Le(Smallest(t.run), Smallest(u.run)) && (t.run != [] && u.run != [] ==> Lt(Largest(t.run), Smallest(u.run)))
  }

  lemma PairwiseOrdered(tables: seq<Table>)
    ensures Ordered(tables) <==> forall i, j :: 0 <= i < j < |tables| ==> Precedes(tables[i], tables[j])
  {
    hide Lt;
  }

  /** A key of a table left behind is outside the hull of the inputs. */
  lemma LeftBehindApart(levels: Levels, job: Job, t: Table, x: Table)
    requires Picked(levels, job) && WellFormed(levels) && Shaped(levels)
    requires 1 <= job.outputLevel < |levels| && job.upper <= |job.inputs|
    requires t in levels[job.outputLevel] && t !in job.inputs && t.run != []
    requires x in job.inputs && x.run != []
    ensures var span := Span(job.inputs[..job.upper]);
            (Lt(Largest(t.run), span.0) && Lt(Largest(t.run), Smallest(x.run))) ||
            (Lt(span.1, Smallest(t.run)) && Lt(Largest(x.run), Smallest(t.run)))
  {
    hide Lt, Rank;
    var d := job.outputLevel;
    var upper := job.inputs[..job.upper];
    var span := Span(upper);
    assert job.inputs == upper + job.inputs[job.upper..];
    OverlappingMembers(levels[d], span.0, span.1);
    assert !Overlaps(t, span.0, span.1);
    LookupAt(t.run, 0);
    HeldInRange(t.run, t.run[0].0);
    SpanCovers(upper);
    KeyOrder();
    if x !in upper {
      assert x in levels[d] && Overlaps(x, span.0, span.1);
      var i :| 0 <= i < |levels[d]| && levels[d][i] == t;
      var j :| 0 <= j < |levels[d]| && levels[d][j] == x;
      assert i < j || j < i;
    }
  }

  lemma {:induction false} SpanIsRange(tables: seq<Table>)
    requires forall t :: t in tables ==> ProperRun(t.run)
    ensures Le(Span(tables).0, Span(tables).1)
  {
    hide Lt, Rank;
    KeyOrder();
    if tables == [] {
    } else {
      var t := tables[0];
      SpanCovers(tables);
      if t.run != [] {
        LookupAt(t.run, 0);
        HeldInRange(t.run, t.run[0].0);
      }
    }
  }

  lemma OutputApart(levels: Levels, job: Job, output: Table, dropTombstones: bool, t: Table)
    requires Picked(levels, job) && WellFormed(levels) && Shaped(levels)
    requires 1 <= job.outputLevel < |levels| && job.upper <= |job.inputs|
    requires MergedFrom(output, job, dropTombstones) && ProperRun(output.run)
    requires t in levels[job.outputLevel] && t !in job.inputs && ProperRun(t.run)
    ensures Apart(t, output)
  {
    hide Lt, Rank, Span, WellFormed, Shaped, Picked;
    if t.run != [] && output.run != [] {
      var first, last := output.run[0].0, output.run[|output.run| - 1].0;
      LookupAt(output.run, 0);
      LookupAt(output.run, |output.run| - 1);
      FirstInHolder(job.inputs, first);
      FirstInHolder(job.inputs, last);
      var x :| x in job.inputs && Holds(x, first);
      var y :| y in job.inputs && Holds(y, last);
      PickedFitsRuns(levels, job);
      HeldInRange(x.run, first);
      HeldInRange(y.run, last);
      LeftBehindApart(levels, job, t, x);
      LeftBehindApart(levels, job, t, y);
      LookupAt(t.run, 0);
      HeldInRange(t.run, t.run[0].0);
      SpanIsRange(job.inputs[..job.upper]);
      KeyOrder();
    }
  }

  lemma PickedFitsRuns(levels: Levels, job: Job)
    requires Picked(levels, job) && WellFormed(levels)
    ensures forall t :: t in job.inputs ==> ProperRun(t.run)
  {
    var upper := job.inputs[..job.upper];
    assert job.inputs == upper + job.inputs[job.upper..];
    OverlappingMembers(levels[job.outputLevel], Span(upper).0, Span(upper).1);
  }
}
