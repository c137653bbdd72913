/** The memtable: an ordered map, kept as a sorted run. */
module MemTables {
  import opened Bytes
  import opened Wrappers
  import opened Runs
  import opened Records

  /** The ordered map with `key` bound to `entry`. */
  function Upserted(run: Run, key: Key, entry: Entry): Run
  {
    if run == [] then [(key, entry)]
    else if run[0].0 == key then [(key, entry)] + run[1..]
    else if Lt(key, run[0].0) then [(key, entry)] + run
    else [run[0]] + Upserted(run[1..], key, entry)
  }

  lemma {:induction false} UpsertedSorted(run: Run, key: Key, entry: Entry)
    requires Sorted(run)
    ensures Sorted(Upserted(run, key, entry))
    ensures forall i :: 0 <= i < |Upserted(run, key, entry)| ==>
              Upserted(run, key, entry)[i].0 == key || Upserted(run, key, entry)[i] in run
  {
    hide Lt, Rank;
    KeyOrder();
    if run != [] && run[0].0 != key && !Lt(key, run[0].0) {
      LtIsRankOrder(key, run[0].0);
      UpsertedSorted(run[1..], key, entry);
    }
  }

  /** Binding a key changes the answer for that key alone. */
  lemma {:induction false} UpsertedLookup(run: Run, key: Key, entry: Entry, k: Key)
    requires Sorted(run)
    ensures Lookup(Upserted(run, key, entry), k) == if k == key then Some(entry) else Lookup(run, k)
  {
    if run == [] {
    } else {
      if run[0].0 != key && !Lt(key, run[0].0) {
        UpsertedLookup(run[1..], key, entry, k);
      }
    }
  }

  function Effect(op: Operation): Entry
  {
    match op
    case Put(_, value) => Value(value)
    case Delete(_) => Tombstone
  }

  /** `apply`: one operation on the memtable. */
  function Applied(run: Run, op: Operation): Run
  {
    Upserted(run, op.key, Effect(op))
  }

  /** The memtable a log rebuilds. */
  function Replayed(ops: seq<Operation>): Run
  {
    if ops == [] then [] else Applied(Replayed(ops[..|ops| - 1]), ops[|ops| - 1])
  }

  // ----- the object -----

  function ValueLen(e: Entry): nat
  {
    if e.Value? then |e.value| else 0
  }

  /** Key and value bytes of a run. */
  function Weight(run: Run): nat
  {
    if run == [] then 0 else |run[0].0| + ValueLen(run[0].1) + Weight(run[1..])
  }

  /** The weight of a run is the number of its key and value bytes; a tombstone has no value bytes. */
  lemma {:induction false} WeightCounts(a: Run, b: Run, key: Key, value: seq<byte>)
    ensures Weight([]) == 0 && Weight([(key, Value(value))]) == |key| + |value| && Weight([(key, Tombstone)]) == |key|
    ensures Weight(a + b) == Weight(a) + Weight(b)
  {
    assert [(key, Value(value))][1..] == [] && [(key, Tombstone)][1..] == [];
    if a == [] {
      assert a + b == b;
    } else {
      WeightCounts(a[1..], b, key, value);
      assert (a + b)[1..] == a[1..] + b;
    }
  }

  /** Overwriting a key trades its value bytes; a new key adds its own bytes too. */
  lemma {:induction false} UpsertedWeight(run: Run, key: Key, entry: Entry)
    requires Sorted(run)
    ensures var previous := Lookup(run, key);
            && (previous.Some? ==> ValueLen(previous.value) <= Weight(run))
            && Weight(Upserted(run, key, entry)) ==
               if previous.Some? then Weight(run) - ValueLen(previous.value) + ValueLen(entry)
               else Weight(run) + |key| + ValueLen(entry)
  {
    hide Lt, Rank;
    if run == [] {
    } else {
      if run[0].0 != key {
        if Lt(key, run[0].0) {
          KeyOrder();
          assert forall i :: 0 <= i < |run| ==> i == 0 || Lt(run[0].0, run[i].0);
          AbsentBelow(run, key);
          assert ([(key, entry)] + run)[1..] == run;
        } else {
          UpsertedWeight(run[1..], key, entry);
          assert Upserted(run, key, entry)[1..] == Upserted(run[1..], key, entry);
        }
      } else {
        assert ([(key, entry)] + run[1..])[1..] == run[1..];
      }
    }
  }

  lemma FirstWeight(key: Key, entry: Entry)
    ensures Weight(Upserted([], key, entry)) == |key| + if entry.Tombstone? then 0 else |entry.value|
  {
    WeightCounts([], [], key, if entry.Tombstone? then [] else entry.value);
  }

  class MemTable {
    var entries: Run
    var approximateSize: nat

    ghost predicate Valid()
      reads this
    {
      Sorted(entries) && approximateSize == Weight(entries)
    }

    constructor ()
      ensures Valid() && entries == []
    {
      entries, approximateSize := [], 0;
    }

    method Put(key: Key, value: seq<byte>)
      requires Valid()
      modifies this
      ensures Valid() && entries == Upserted(old(entries), key, Value(value))
    {
      Insert(key, Value(value));
    }

    method Delete(key: Key)
      requires Valid()
      modifies this
      ensures Valid() && entries == Upserted(old(entries), key, Tombstone)
    {
      Insert(key, Tombstone);
    }

    /** Keeps the size estimate exact; its subtraction never goes below zero. */
    method Insert(key: Key, entry: Entry)
      requires Valid()
      modifies this
      ensures Valid() && entries == Upserted(old(entries), key, entry)
      ensures old(entries) == [] ==> approximateSize == |key| + if entry.Tombstone? then 0 else |entry.value|
    {
      hide Weight;
      FirstWeight(key, entry);
      UpsertedWeight(entries, key, entry);
      UpsertedSorted(entries, key, entry);
      var added := |key| + ValueLen(entry);
      var previous := Lookup(entries, key);
      if previous.Some? {
        approximateSize := approximateSize - ValueLen(previous.value);
        approximateSize := approximateSize + ValueLen(entry);
      } else {
        approximateSize := approximateSize + added;
      }
      entries := Upserted(entries, key, entry);
    }

    method Clear()
      modifies this
      ensures Valid() && entries == []
    {
      entries, approximateSize := [], 0;
    }
  }
}
