/** Repeated compaction comes to rest: every round moves tables down. */
module Schedule {
  import opened Bytes
  import opened Wrappers
  import opened Levels
  import opened Compaction
  import opened Picker
  import opened Install

  /** Each table weighs the number of levels from its own to the last, plus one. */
  function Weight(levels: Levels, from: nat): nat
    requires from <= |levels|
    decreases |levels| - from
  {
    if from == |levels| then 0
    else |levels[from]| * (|levels| - from) + Weight(levels, from + 1)
  }

  /** The size a level may reach: the first limit times the multiplier per level, saturating. */
  function LimitAt(options: Options, level: nat): nat
  {
    if level <= 1 then FirstLimit(options)
    else SaturatingMul(LimitAt(options, level - 1), options.levelSizeMultiplier)
  }

  function Power(base: nat, exponent: nat): nat
  {
    if exponent == 0 then 1 else base * Power(base, exponent - 1)
  }

  /**
   * The limit of a level in closed form: memtable size times trigger times the
   * multiplier once per level below the first, or the largest 64-bit number.
   */
  lemma {:induction false} LimitClosed(options: Options, level: nat)
    requires level >= 1 && options.memtableSizeBytes * options.l0CompactionTrigger < 0x1_0000_0000_0000_0000
    ensures var limit := options.memtableSizeBytes * options.l0CompactionTrigger *
                         Power(options.levelSizeMultiplier, level - 1);
            LimitAt(options, level) == if limit < 0x1_0000_0000_0000_0000 then limit else 0xFFFF_FFFF_FFFF_FFFF
  {
    var first, m := options.memtableSizeBytes * options.l0CompactionTrigger, options.levelSizeMultiplier;
    if level == 1 {
      assert first * 1 == first;
    } else {
      LimitClosed(options, level - 1);
      var p := Power(m, level - 2);
      Regrouped(first, p, m);
      Saturated(first * p, m);
    }
  }

  lemma Regrouped(a: nat, p: nat, m: nat)
    ensures a * (m * p) == (a * p) * m
  {
  }

  /** Saturating before a product is saturating after it. */
  lemma Saturated(x: nat, m: nat)
    ensures SaturatingMul(if x < U64_LIMIT then x else U64_LIMIT - 1, m) ==
            if x * m < U64_LIMIT then x * m else U64_LIMIT - 1
  {
    if x >= U64_LIMIT {
      if m == 0 {
      } else if m == 1 {
      } else {
        MulMonotone(2, m, U64_LIMIT - 1);
        MulMonotone(U64_LIMIT, x, m);
        assert x * m >= U64_LIMIT * m >= U64_LIMIT;
      }
    }
  }

  /** L0 is below its trigger and every level but the last within its limit. */
  ghost predicate AtRest(levels: Levels, options: Options)
  {
    && (levels != [] ==> |levels[0]| < options.l0CompactionTrigger)
    && forall i :: 1 <= i < |levels| - 1 ==> TotalSize(levels[i]) <= LimitAt(options, i)
  }

  lemma {:induction false} NothingPickedFrom(levels: Levels, level: nat, options: Options)
    requires |levels| == options.maxLevels && 1 <= level
    ensures PickFrom(levels, level, LimitAt(options, level), options) == None <==>
            forall i :: level <= i < |levels| - 1 ==> TotalSize(levels[i]) <= LimitAt(options, i)
    decreases options.maxLevels - level
  {
    if level + 1 < |levels| {
      NothingPickedFrom(levels, level + 1, options);
      if levels[level] == [] {
        assert TotalSize(levels[level]) == 0;
      }
    }
  }

  /** Nothing is picked exactly when the version is at rest. */
  lemma RestIsNothingToPick(levels: Levels, options: Options)
    requires Usable(options) && |levels| == options.maxLevels
    ensures Pick(levels, options) == None <==> AtRest(levels, options)
  {
    NothingPickedFrom(levels, 1, options);
  }

  lemma {:induction false} PickedFrom(levels: Levels, level: nat, options: Options)
    requires |levels| == options.maxLevels && 1 <= level
    requires PickFrom(levels, level, LimitAt(options, level), options).Some?
    ensures var from := PickFrom(levels, level, LimitAt(options, level), options).value.outputLevel - 1;
            && level <= from < |levels| - 1
            && TotalSize(levels[from]) > LimitAt(options, from)
            && forall i :: level <= i < from ==> TotalSize(levels[i]) <= LimitAt(options, i)
    decreases options.maxLevels - level
  {
    if TotalSize(levels[level]) > LimitAt(options, level) {
    } else {
      PickedFrom(levels, level + 1, options);
    }
  }

  /** L0 goes first when it is full; otherwise the lowest level above its limit goes. */
  lemma PickTakesLowest(levels: Levels, options: Options)
    requires Usable(options) && |levels| == options.maxLevels && Pick(levels, options).Some?
    ensures var from := Pick(levels, options).value.outputLevel - 1;
            && 0 <= from < |levels| - 1
            && (from == 0 <==> |levels[0]| >= options.l0CompactionTrigger)
            && (from > 0 ==> TotalSize(levels[from]) > LimitAt(options, from))
            && (from > 0 ==> forall i :: 1 <= i < from ==> TotalSize(levels[i]) <= LimitAt(options, i))
  {
    if |levels[0]| < options.l0CompactionTrigger {
      PickedFrom(levels, 1, options);
    }
  }

  // ----- the weight -----

  lemma {:induction false} RetainShorter(tables: seq<Table>, ids: set<nat>)
    ensures |Retain(tables, ids)| <= |tables|
    ensures (exists t :: t in tables && t.id in ids) ==> |Retain(tables, ids)| < |tables|
  {
    if tables == [] {
    } else {
      RetainShorter(tables[1..], ids);
      if tables[0].id !in ids {
        assert forall t :: t in tables && t.id in ids ==> t in tables[1..];
      }
    }
  }

  lemma SortLength(tables: seq<Table>)
    ensures |SortBySmallest(tables)| == |tables|
  {
    SortMembers(tables);
    assert |multiset(tables)| == |tables|;
    assert |multiset(SortBySmallest(tables))| == |SortBySmallest(tables)|;
  }

  lemma {:induction false} WeightMonotone(a: Levels, b: Levels, from: nat)
    requires |a| == |b| && from <= |a|
    requires forall i :: from <= i < |a| ==> |a[i]| <= |b[i]|
    ensures Weight(a, from) <= Weight(b, from)
    decreases |a| - from
  {
    if from == |a| {
    } else {
      WeightMonotone(a, b, from + 1);
      MulMonotone(|a[from]|, |b[from]|, |a| - from);
    }
  }

  lemma MulMonotone(x: nat, y: nat, k: nat)
    requires x <= y
    ensures x * k <= y * k
  {
  }

  /** One table fewer on a level outweighs one more on the next. */
  lemma {:induction false} WeightMovedDown(a: Levels, b: Levels, level: nat, from: nat)
    requires |a| == |b| && from <= level < |a| - 1
    requires forall i :: from <= i < |a| && i != level && i != level + 1 ==> |a[i]| <= |b[i]|
    requires |a[level]| < |b[level]| && |a[level + 1]| <= |b[level + 1]| + 1
    ensures Weight(a, from) < Weight(b, from)
    decreases level - from
  {
    if from < level {
      WeightMovedDown(a, b, level, from + 1);
      MulMonotone(|a[from]|, |b[from]|, |a| - from);
    } else {
      var k := |a| - level;
      WeightMonotone(a, b, level + 2);
      MulMonotone(|a[level]| + 1, |b[level]|, k);
      MulMonotone(|a[level + 1]|, |b[level + 1]| + 1, k - 1);
      assert (|a[level]| + 1) * k == |a[level]| * k + k;
      assert (|b[level + 1]| + 1) * (k - 1) == |b[level + 1]| * (k - 1) + (k - 1);
    }
  }

  /** Every compaction lowers the weight, whatever its output holds. */
  lemma CompactionLowersWeight(levels: Levels, job: Job, output: Table)
    requires Picked(levels, job)
    ensures Weight(Installed(levels, job, output), 0) < Weight(levels, 0)
  {
    hide Weight, Overlapping, Span, Picked;
    var after, ids := Installed(levels, job, output), Ids(job.inputs);
    PickedFirst(levels, job);
    var s := job.outputLevel - 1;
    forall i | 0 <= i < |levels|
      ensures |after[i]| <= |levels[i]| + if i == job.outputLevel then 1 else 0
    {
      RetainShorter(levels[i], ids);
      SortLength(Retain(levels[i], ids) + [output]);
    }
    RetainShorter(levels[s], ids);
    assert job.inputs[0].id in ids;
    WeightMovedDown(after, levels, s, 0);
  }

  lemma PickedFirst(levels: Levels, job: Job)
    requires Picked(levels, job)
    ensures 1 <= job.outputLevel < |levels| && job.inputs != []
    ensures job.inputs[0] in levels[job.outputLevel - 1]
  {
    assert job.inputs[..job.upper][0] == job.inputs[0];
  }

  /** `after` is `before` with the compaction that is due installed. */
  ghost predicate Compacts(before: Levels, after: Levels, options: Options)
  {
    Pick(before, options).Some? && exists output :: after == Installed(before, Pick(before, options).value, output)
  }

  /** A run of compactions without writes has at most as many rounds as the first version weighs. */
  lemma {:induction false} CompactionEnds(rounds: seq<Levels>, options: Options)
    requires rounds != [] && Usable(options) && |rounds[0]| == options.maxLevels
    requires forall i :: 0 <= i < |rounds| - 1 ==> Compacts(rounds[i], rounds[i + 1], options)
    ensures |rounds| - 1 <= Weight(rounds[0], 0)
  {
    if |rounds| == 1 {
    } else {
      hide Weight, Pick, Picked, Installed;
      assert Compacts(rounds[0], rounds[1], options);
      var job := Pick(rounds[0], options).value;
      var output :| rounds[1] == Installed(rounds[0], job, output);
      PickIsPicked(rounds[0], options);
      CompactionLowersWeight(rounds[0], job, output);
      forall i | 0 <= i < |rounds[1..]| - 1
        ensures Compacts(rounds[1..][i], rounds[1..][i + 1], options)
      {
        assert Compacts(rounds[i + 1], rounds[i + 2], options);
      }
      CompactionEnds(rounds[1..], options);
    }
  }

  lemma RoundLowersWeight(levels: Levels, options: Options, output: Table)
    requires Usable(options) && |levels| == options.maxLevels && Pick(levels, options).Some?
    ensures Weight(Installed(levels, Pick(levels, options).value, output), 0) < Weight(levels, 0)
  {
    hide Weight, Pick, Picked, Installed;
    PickIsPicked(levels, options);
    CompactionLowersWeight(levels, Pick(levels, options).value, output);
  }

  /** The versions repeated compaction passes through; `build` is the table a round writes. */
  ghost function Settling(levels: Levels, options: Options, build: (Levels, Job) -> Table): (rounds: seq<Levels>)
    requires Usable(options) && |levels| == options.maxLevels
    ensures rounds != [] && rounds[0] == levels
    decreases Weight(levels, 0)
  {
    if Pick(levels, options).None? then [levels]
    else
      var job := Pick(levels, options).value;
      RoundLowersWeight(levels, options, build(levels, job));
      [levels] + Settling(Installed(levels, job, build(levels, job)), options, build)
  }

  /** From any version, repeated compaction comes to rest, within as many rounds as the version weighs. */
  lemma {:induction false} SettlesAtRest(levels: Levels, options: Options, build: (Levels, Job) -> Table)
    requires Usable(options) && |levels| == options.maxLevels
    ensures var rounds := Settling(levels, options, build);
            && AtRest(rounds[|rounds| - 1], options)
            && |rounds| - 1 <= Weight(levels, 0)
            && forall i :: 0 <= i < |rounds| - 1 ==> Compacts(rounds[i], rounds[i + 1], options)
    decreases Weight(levels, 0)
  {
    hide Weight, Pick, Installed, AtRest;
    RestIsNothingToPick(levels, options);
    if Pick(levels, options).Some? {
      var job := Pick(levels, options).value;
      var next := Installed(levels, job, build(levels, job));
      RoundLowersWeight(levels, options, build(levels, job));
      SettlesAtRest(next, options, build);
      assert Compacts(levels, next, options);
    }
  }
}
