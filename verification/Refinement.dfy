/** Every run of the engine, crashes included, answers like one plain map. */
module Refinement {
  import opened Bytes
  import opened Wrappers
  import opened Levels
  import opened Picker
  import opened MemTables
  import opened Records
  import opened Manifests
  import opened Machine
  import opened Invariant
  import opened Steps

  /** An engine opened on an empty directory. */
  function Opened(options: Options): State
  {
    State(options, [], seq(options.maxLevels, i => []), FlushIdle, CompactIdle, [], Catalog([], 1), map[])
  }

  /** Each action can be taken when its turn comes. */
  ghost predicate Legal(options: Options, actions: seq<Action>)
    decreases |actions|, 0
  {
    actions == [] ||
    var n := |actions| - 1;
    Legal(options, actions[..n]) &&
    (RunOf(options, actions[..n]).Ok? ==> Ready(RunOf(options, actions[..n]).value, actions[n]))
  }

  /** The state a run ends in, or the error that stopped it. */
  ghost function RunOf(options: Options, actions: seq<Action>): Result<State>
    requires Legal(options, actions)
    decreases |actions|, 1
  {
    if actions == [] then Ok(Opened(options))
    else
      var n := |actions| - 1;
      var before := RunOf(options, actions[..n]);
      if before.Ok? then Do(before.value, actions[n]) else before
  }

  /** A run goes on with any step that is ready. */
  lemma OneMore(options: Options, actions: seq<Action>, s: State, a: Action)
    requires Legal(options, actions) && RunOf(options, actions) == Ok(s) && Ready(s, a)
    ensures Legal(options, actions + [a]) && RunOf(options, actions + [a]) == Do(s, a)
  {
    assert (actions + [a])[..|actions|] == actions;
  }

  /** The plain map the run's writes build; a write cut short by a crash counts if its record survived. */
  function Reference(actions: seq<Action>): map<Key, seq<byte>>
  {
    if actions == [] then map[]
    else
      var before := Reference(actions[..|actions| - 1]);
      match actions[|actions| - 1]
      case Write(op) => Recorded(before, op)
      case CrashInWrite(op, persisted) => if persisted then Recorded(before, op) else before
      case _ => before
  }

  function Recorded(m: map<Key, seq<byte>>, op: Operation): map<Key, seq<byte>>
  {
    match op
    case Put(key, value) => m[key := value]
    case Delete(key) => m - {key}
  }

  function Value(m: map<Key, seq<byte>>, key: Key): Option<seq<byte>>
  {
    if key in m then Some(m[key]) else None
  }

  lemma OpenedVersion(options: Options)
    requires Usable(options)
    ensures VersionOk(options, Opened(options).levels)
  {
  }

  lemma OpenedCatalog(options: Options)
    ensures CatalogOk(Opened(options))
  {
    assert CatalogLevels([], map[], options.maxLevels) == Opened(options).levels;
  }

  lemma OpenedInv(options: Options)
    requires Usable(options)
    ensures Inv(Opened(options))
    ensures forall key :: Get(Opened(options), key) == None
  {
    hide VersionOk, CatalogOk;
    var s := Opened(options);
    OpenedVersion(options);
    OpenedCatalog(options);
    forall key
      ensures Get(s, key) == None
    {
      NothingFrom(s.levels, 0, key);
    }
  }

  /** A write that reached the log before the crash is a write followed by a crash. */
  lemma CrashInWriteStep(s: State, op: Operation, persisted: bool)
    requires Inv(s) && Ready(s, CrashInWrite(op, persisted))
    ensures var next := Do(s, CrashInWrite(op, persisted));
            && next.Ok?
            && Inv(next.value)
            && forall key :: Get(next.value, key) == if persisted then AfterWrite(Get(s, key), op, key) else Get(s, key)
  {
    hide Inv, Get, Applied, RecoveredLevels, Replayed;
    if persisted {
      WriteStep(s, op);
      var written := Do(s, Write(op)).value;
      CrashStep(written);
      assert Do(s, CrashInWrite(op, true)) == Do(written, Crash);
    } else {
      CrashStep(s);
    }
  }

  /** The effect of one action on the value of a key. */
  function Change(before: Option<seq<byte>>, a: Action, key: Key): Option<seq<byte>>
  {
    match a
    case Write(op) => AfterWrite(before, op, key)
    case CrashInWrite(op, persisted) => if persisted then AfterWrite(before, op, key) else before
    case _ => before
  }

  lemma AnyStep(s: State, a: Action)
    requires Inv(s) && Ready(s, a)
    ensures var next := Do(s, a);
            next.Ok? && Inv(next.value) && forall key :: Get(next.value, key) == Change(Get(s, key), a, key)
  {
    hide Inv, Get, Ready, Do;
    match a
    case Write(op) => WriteStep(s, op);
    case Freeze => FreezeStep(s);
    case FlushAllocate => FlushAllocateStep(s);
    case FlushWrite(size) => FlushWriteStep(s, size);
    case FlushLog => FlushLogStep(s);
    case FlushInstall => FlushInstallStep(s);
    case FlushTruncate => TruncateStep(s);
    case FlushFinish => FinishStep(s);
    case CompactBegin => CompactBeginStep(s);
    case CompactAllocate => CompactAllocateStep(s);
    case CompactBuild(size) => CompactBuildStep(s, size);
    case CompactLogAdd => CompactLogAddStep(s);
    case CompactLogRemove => CompactLogRemoveStep(s);
    case CompactInstall => CompactInstallStep(s);
    case Crash => CrashStep(s);
    case CrashInWrite(op, persisted) => CrashInWriteStep(s, op, persisted);
  }

  /**
   * The whole-run theorem: whatever writes, flush steps, compaction steps and
   * crashes a run interleaves, no step fails and every key reads as in the
   * plain map.
   */
  lemma {:induction false} RunsMatchReference(options: Options, actions: seq<Action>)
    requires Usable(options) && Legal(options, actions)
    ensures RunOf(options, actions).Ok?
    ensures Inv(RunOf(options, actions).value)
    ensures forall key :: Get(RunOf(options, actions).value, key) == Value(Reference(actions), key)
  {
    hide Inv, Get, Ready, Do, Opened;
    if actions == [] {
      OpenedInv(options);
    } else {
      var n := |actions| - 1;
      RunsMatchReference(options, actions[..n]);
      AnyStep(RunOf(options, actions[..n]).value, actions[n]);
    }
  }
}
