/** How the tables listed by the manifest follow its records. */
module Recovery {
  import opened Levels
  import opened Compaction
  import opened Install
  import opened Manifests
  import opened Machine
  import opened Invariant

  // ----- lists -----

  lemma {:induction false} ReversedSnoc(a: seq<Table>, t: Table)
    ensures Reversed(a + [t]) == [t] + Reversed(a)
  {
    if a == [] {
      assert a + [t] == [t];
    } else {
      assert (a + [t])[1..] == a[1..] + [t];
      ReversedSnoc(a[1..], t);
    }
  }

  lemma {:induction false} ReversedRetain(a: seq<Table>, ids: set<nat>)
    ensures Reversed(Retain(a, ids)) == Retain(Reversed(a), ids)
  {
    if a == [] {
    } else {
      ReversedRetain(a[1..], ids);
      RetainConcat(Reversed(a[1..]), [a[0]], ids);
      var rest := Retain(a[1..], ids);
      assert Retain([a[0]], ids) == if a[0].id in ids then [] else [a[0]];
      if a[0].id in ids {
        assert [] + rest == rest;
      } else {
        assert ([a[0]] + rest)[1..] == rest;
      }
    }
  }

  lemma {:induction false} RetainTwice(a: seq<Table>, ids: set<nat>, more: set<nat>)
    ensures Retain(Retain(a, ids), more) == Retain(a, ids + more)
  {
    if a == [] {
    } else {
      RetainTwice(a[1..], ids, more);
      var rest := Retain(a[1..], ids);
      if a[0].id in ids {
        assert [] + rest == rest;
      } else {
        assert ([a[0]] + rest)[1..] == rest;
      }
    }
  }

  // ----- one level of the manifest -----

  lemma OnLevelAdded(tables: seq<(nat, nat)>, files: map<nat, Table>, id: nat, l: nat, level: nat, n: nat)
    requires id in files && l < n
    ensures OnLevel(tables + [(id, l)], files, level, n) ==
            OnLevel(tables, files, level, n) + if l == level then [files[id]] else []
  {
    assert (tables + [(id, l)])[..|tables|] == tables;
  }

  lemma {:induction false} OnLevelOtherFile(tables: seq<(nat, nat)>, files: map<nat, Table>, t: Table, level: nat,
                                            n: nat)
    requires forall i :: 0 <= i < |tables| ==> tables[i].0 != t.id
    ensures OnLevel(tables, files[t.id := t], level, n) == OnLevel(tables, files, level, n)
  {
    if tables == [] {
    } else {
      OnLevelOtherFile(tables[..|tables| - 1], files, t, level, n);
    }
  }

  lemma {:induction false} OnLevelDropped(tables: seq<(nat, nat)>, files: map<nat, Table>, id: nat, level: nat, n: nat)
    requires forall x :: x in files ==> files[x].id == x
    ensures OnLevel(Dropped(tables, id), files, level, n) == Retain(OnLevel(tables, files, level, n), {id})
  {
    if tables == [] {
    } else {
      var last, rest := tables[|tables| - 1], tables[..|tables| - 1];
      OnLevelDropped(rest, files, id, level, n);
      var here := if last.0 in files && (if last.1 < n then last.1 else n - 1) == level then [files[last.0]] else [];
      RetainConcat(OnLevel(rest, files, level, n), here, {id});
      assert here == [] || Retain(here, {id}) == if last.0 == id then [] else here;
      if last.0 != id {
        assert (Dropped(rest, id) + [last])[..|Dropped(rest, id)|] == Dropped(rest, id);
      } else {
        assert Dropped(rest, id) + [] == Dropped(rest, id);
      }
    }
  }

  lemma {:induction false} OnLevelDistinct(tables: seq<(nat, nat)>, files: map<nat, Table>, level: nat, n: nat)
    requires forall i, j :: 0 <= i < j < |tables| ==> tables[i].0 != tables[j].0
    requires forall x :: x in files ==> files[x].id == x
    ensures Distinct(OnLevel(tables, files, level, n))
    ensures forall t :: t in OnLevel(tables, files, level, n) ==> exists i :: 0 <= i < |tables| && tables[i].0 == t.id
  {
    if tables == [] {
    } else {
      OnLevelDistinct(tables[..|tables| - 1], files, level, n);
    }
  }

  /** The entry of the manifest puts `t` on the level: its own, or the last one if it names a deeper one. */
  ghost predicate Puts(entry: (nat, nat), files: map<nat, Table>, level: nat, n: nat, t: Table)
  {
    entry.0 in files && files[entry.0] == t && (entry.1 == level || (level == n - 1 && entry.1 >= n))
  }

  /** A level gets exactly the tables listed for it, and the last one also those listed for deeper ones. */
  lemma {:induction false} OnLevelMembers(tables: seq<(nat, nat)>, files: map<nat, Table>, level: nat, n: nat, t: Table)
    requires level < n
    ensures t in OnLevel(tables, files, level, n) <==>
            exists i :: 0 <= i < |tables| && Puts(tables[i], files, level, n, t)
  {
    if tables == [] {
    } else {
      var last := |tables| - 1;
      var rest := OnLevel(tables[..last], files, level, n);
      OnLevelMembers(tables[..last], files, level, n, t);
      assert t in OnLevel(tables, files, level, n) <==> t in rest || Puts(tables[last], files, level, n, t);
      hide Puts, OnLevel;
      if t in rest {
        var i :| 0 <= i < |tables[..last]| && Puts(tables[..last][i], files, level, n, t);
        assert tables[..last][i] == tables[i];
      }
      if exists i :: 0 <= i < |tables| && Puts(tables[i], files, level, n, t) {
        var i :| 0 <= i < |tables| && Puts(tables[i], files, level, n, t);
        assert i < last ==> tables[..last][i] == tables[i];
      }
    }
  }

  // ----- all levels of the manifest -----

  ghost function Filtered(levels: Levels, ids: set<nat>): (r: Levels)
    ensures |r| == |levels|
  {
    seq(|levels|, i requires 0 <= i < |levels| => Retain(levels[i], ids))
  }

  ghost function WithAdded(levels: Levels, level: nat, t: Table): (r: Levels)
    ensures |r| == |levels|
  {
    if level >= |levels| then levels
    else if level == 0 then WithNewest(levels, t)
    else levels[level := levels[level] + [t]]
  }

  lemma CatalogAdded(tables: seq<(nat, nat)>, files: map<nat, Table>, id: nat, l: nat, n: nat)
    requires id in files && l < n
    ensures CatalogLevels(tables + [(id, l)], files, n) == WithAdded(CatalogLevels(tables, files, n), l, files[id])
  {
    forall i | 0 <= i < n
      ensures CatalogLevels(tables + [(id, l)], files, n)[i] ==
              WithAdded(CatalogLevels(tables, files, n), l, files[id])[i]
    {
      OnLevelAdded(tables, files, id, l, i, n);
      var before := OnLevel(tables, files, i, n);
      assert before + [] == before;
      ReversedSnoc(before, files[id]);
    }
  }

  lemma CatalogOtherFile(tables: seq<(nat, nat)>, files: map<nat, Table>, t: Table, n: nat)
    requires forall i :: 0 <= i < |tables| ==> tables[i].0 != t.id
    ensures CatalogLevels(tables, files[t.id := t], n) == CatalogLevels(tables, files, n)
  {
    forall i | 0 <= i < n
      ensures CatalogLevels(tables, files[t.id := t], n)[i] == CatalogLevels(tables, files, n)[i]
    {
      OnLevelOtherFile(tables, files, t, i, n);
    }
  }

  lemma CatalogDropped(tables: seq<(nat, nat)>, files: map<nat, Table>, id: nat, n: nat)
    requires forall x :: x in files ==> files[x].id == x
    ensures CatalogLevels(Dropped(tables, id), files, n) == Filtered(CatalogLevels(tables, files, n), {id})
  {
    forall i | 0 <= i < n
      ensures CatalogLevels(Dropped(tables, id), files, n)[i] == Filtered(CatalogLevels(tables, files, n), {id})[i]
    {
      OnLevelDropped(tables, files, id, i, n);
      ReversedRetain(OnLevel(tables, files, i, n), {id});
    }
  }

  /** What `open_with` builds holds the tables the manifest lists. */
  lemma RecoveredSame(catalog: Catalog, files: map<nat, Table>, n: nat)
    ensures SameTables(CatalogLevels(catalog.tables, files, n), RecoveredLevels(catalog, files, n))
  {
    forall i | 1 <= i < n
      ensures forall t :: t in CatalogLevels(catalog.tables, files, n)[i] <==>
              t in RecoveredLevels(catalog, files, n)[i]
    {
      SortMembers(OnLevel(catalog.tables, files, i, n));
    }
  }

  // ----- the same changes on both sides -----

  lemma SameFiltered(a: Levels, b: Levels, ids: set<nat>)
    requires SameTables(a, b)
    ensures SameTables(Filtered(a, ids), Filtered(b, ids))
  {
    forall i | 1 <= i < |a|
      ensures forall t :: t in Filtered(a, ids)[i] <==> t in Filtered(b, ids)[i]
    {
      RetainMembers(a[i], ids);
      RetainMembers(b[i], ids);
    }
  }

  lemma SameAdded(a: Levels, b: Levels, level: nat, t: Table)
    requires SameTables(a, b)
    ensures SameTables(WithAdded(a, level, t), WithAdded(b, level, t))
  {
  }

  lemma SameTransitive(a: Levels, b: Levels, c: Levels)
    requires SameTables(a, b) && SameTables(b, c)
    ensures SameTables(a, c)
  {
  }

  lemma SameSymmetric(a: Levels, b: Levels)
    requires SameTables(a, b)
    ensures SameTables(b, a)
  {
  }

  lemma RewrittenAdds(levels: Levels, outputLevel: nat, output: Table)
    requires 1 <= outputLevel < |levels|
    ensures Rewritten(levels, outputLevel, output, {}) == WithAdded(levels, outputLevel, output)
  {
    forall i | 0 <= i < |levels|
      ensures Rewritten(levels, outputLevel, output, {})[i] == WithAdded(levels, outputLevel, output)[i]
    {
      RetainUnchanged(if i == outputLevel then levels[i] + [output] else levels[i], {});
    }
  }

  lemma RewrittenRemoves(levels: Levels, outputLevel: nat, output: Table, ids: set<nat>, id: nat)
    ensures Rewritten(levels, outputLevel, output, ids + {id}) ==
            Filtered(Rewritten(levels, outputLevel, output, ids), {id})
  {
    forall i | 0 <= i < |levels|
      ensures Rewritten(levels, outputLevel, output, ids + {id})[i] ==
              Filtered(Rewritten(levels, outputLevel, output, ids), {id})[i]
    {
      RetainTwice(if i == outputLevel then levels[i] + [output] else levels[i], ids, {id});
    }
  }

  /** A flush and a compaction rewrite different parts of the version. */
  lemma RewrittenNewest(levels: Levels, outputLevel: nat, output: Table, ids: set<nat>, t: Table)
    requires 1 <= outputLevel < |levels| && t.id !in ids
    ensures Rewritten(WithNewest(levels, t), outputLevel, output, ids) ==
            WithNewest(Rewritten(levels, outputLevel, output, ids), t)
  {
    RetainConcat([t], levels[0], ids);
    RetainUnchanged([t], ids);
  }
}
