/** The engine as a state machine: writes, flush steps, compaction steps, crash and recovery. */
module Machine {
  import opened Bytes
  import opened Wrappers
  import opened Runs
  import opened Levels
  import opened Compaction
  import opened Cuts
  import opened Picker
  import opened Install
  import opened MemTables
  import opened Records
  import opened Manifests
  import opened Merging

  /** How far a flush of `frozen` has come. */
  datatype FlushStep =
    | Frozen
    | Allocated(id: nat)
    | Written(table: Table)
    | Logged(table: Table)
    | InVersion
    | Truncated

  datatype FlushPhase = FlushIdle | Flushing(frozen: Run, step: FlushStep)

  /** How far a compaction has come; `base` is the version its job was picked from. */
  datatype CompactPhase =
    | CompactIdle
    | CompactPicked(base: Levels, job: Job)
    | CompactAllocated(base: Levels, job: Job, id: nat)
    | CompactBuilt(base: Levels, job: Job, output: Table)
    | CompactLogging(base: Levels, job: Job, output: Table, removed: nat)

  /** Memory (options, memtable, version, phases) and disk (log, manifest, table files). */
  datatype State = State(
    options: Options,
    mem: Run,
    levels: Levels,
    flush: FlushPhase,
    compact: CompactPhase,
    wal: seq<Operation>,
    catalog: Catalog,
    files: map<nat, Table>)

  datatype Action =
    | Write(op: Operation)
    | Freeze
    | FlushAllocate
    | FlushWrite(size: nat)
    | FlushLog
    | FlushInstall
    | FlushTruncate
    | FlushFinish
    | CompactBegin
    | CompactAllocate
    | CompactBuild(size: nat)
    | CompactLogAdd
    | CompactLogRemove
    | CompactInstall
    | Crash
    | CrashInWrite(op: Operation, persisted: bool)

  /** The compaction holds the manifest lock from its first record to its last. */
  predicate ManifestFree(s: State)
  {
    !(s.compact.CompactLogging? && s.compact.removed < |s.compact.job.inputs|)
  }

  /** The manifest is between two removals of one compaction. */
  predicate MidRemoval(s: State)
  {
    s.compact.CompactLogging? && 0 < s.compact.removed < |s.compact.job.inputs|
  }

  /** The version with a logged flush already in it. */
  ghost function Pending(levels: Levels, flush: FlushPhase): (r: Levels)
    ensures |r| == |levels|
  {
    if flush.Flushing? && flush.step.Logged? then WithNewest(levels, flush.step.table) else levels
  }

  /** Between two removals: every key that the log does not rebuild is safe for good. */
  ghost predicate Lasting(s: State)
    requires s.compact.CompactLogging?
  {
    var job, j := s.compact.job, s.compact.removed;
    && 1 <= job.outputLevel < |s.levels| && job.upper <= |job.inputs| && j <= |job.inputs|
    && forall key :: Lookup(Replayed(s.wal), key).None? ==> LastingAt(Pending(s.levels, s.flush), job, j, key)
  }

  /** The process may die here: outside the removals of a compaction, or where they do no lasting harm. */
  ghost predicate CrashOk(s: State)
  {
    MidRemoval(s) ==> Lasting(s)
  }

  /** The state with the record of a write in the log. */
  function WithRecord(s: State, op: Operation, persisted: bool): State
  {
    if persisted then s.(wal := s.wal + [op]) else s
  }

  /** Whether a thread can take this step next. */
  ghost predicate Ready(s: State, a: Action)
  {
    match a
    case Write(op) => s.flush.FlushIdle? && op.key != []
    case Freeze => s.flush.FlushIdle? && s.mem != []
    case FlushAllocate => s.flush.Flushing? && s.flush.step.Frozen? && ManifestFree(s)
    case FlushWrite(_) => s.flush.Flushing? && s.flush.step.Allocated?
    case FlushLog => s.flush.Flushing? && s.flush.step.Written? && ManifestFree(s)
    case FlushInstall => s.flush.Flushing? && s.flush.step.Logged?
    case FlushTruncate => s.flush.Flushing? && s.flush.step.InVersion?
    case FlushFinish => s.flush.Flushing? && s.flush.step.Truncated?
    case CompactBegin => s.compact.CompactIdle? && Pick(s.levels, s.options).Some?
    case CompactAllocate => s.compact.CompactPicked? && ManifestFree(s)
    case CompactBuild(_) => s.compact.CompactAllocated?
    case CompactLogAdd => s.compact.CompactBuilt?
    case CompactLogRemove => s.compact.CompactLogging? && s.compact.removed < |s.compact.job.inputs|
    case CompactInstall => s.compact.CompactLogging? && s.compact.removed == |s.compact.job.inputs|
    case Crash => CrashOk(s)
    case CrashInWrite(op, persisted) => s.flush.FlushIdle? && op.key != [] && CrashOk(WithRecord(s, op, persisted))
  }

  /** The tables the manifest puts on a level, in the order they were added. */
  function OnLevel(tables: seq<(nat, nat)>, files: map<nat, Table>, level: nat, maxLevels: nat): seq<Table>
  {
    if tables == [] then []
    else
      var (id, l) := tables[|tables| - 1];
      OnLevel(tables[..|tables| - 1], files, level, maxLevels) +
      if id in files && (if l < maxLevels then l else maxLevels - 1) == level then [files[id]] else []
  }

  function Reversed<T(!new)>(tables: seq<T>): (r: seq<T>)
    ensures forall t :: t in r <==> t in tables
  {
    if tables == [] then [] else Reversed(tables[1..]) + [tables[0]]
  }

  /** The version `open_with` builds: L0 newest first, deeper levels sorted. */
  function RecoveredLevels(catalog: Catalog, files: map<nat, Table>, maxLevels: nat): (levels: Levels)
    ensures |levels| == maxLevels
  {
    seq(maxLevels, i requires 0 <= i < maxLevels =>
      var tables := OnLevel(catalog.tables, files, i, maxLevels);
      if i == 0 then Reversed(tables) else SortBySmallest(tables))
  }

  /** `open_with` finds a file for every table the manifest lists. */
  predicate FilesPresent(s: State)
  {
    forall i :: 0 <= i < |s.catalog.tables| ==> s.catalog.tables[i].0 in s.files
  }

  /** `open_with`: only what is on disk survives. */
  function Reopened(s: State): Result<State>
  {
    if FilesPresent(s) then
      Ok(s.(mem := Replayed(s.wal),
            levels := RecoveredLevels(s.catalog, s.files, s.options.maxLevels),
            flush := FlushIdle, compact := CompactIdle))
    else Err(InvalidManifest)
  }

  /** One step. The manifest refuses an id it already lists, and a missing file fails the open. */
  function Do(s: State, a: Action): Result<State>
    requires Ready(s, a)
  {
    match a
    case Write(op) => Ok(s.(wal := s.wal + [op], mem := Applied(s.mem, op)))
    case Freeze => Ok(s.(mem := [], flush := Flushing(s.mem, Frozen)))
    case FlushAllocate =>
      Ok(s.(catalog := WithNextId(s.catalog), flush := s.flush.(step := Allocated(s.catalog.nextId))))
    case FlushWrite(size) =>
      var table := Table(s.flush.step.id, s.flush.frozen, size);
      Ok(s.(files := s.files[table.id := table], flush := s.flush.(step := Written(table))))
    case FlushLog =>
      var table := s.flush.step.table;
      if Listed(s.catalog, table.id) then Err(InvalidManifest)
      else Ok(s.(catalog := WithTable(s.catalog, table.id, 0), flush := s.flush.(step := Logged(table))))
    case FlushInstall =>
      Ok(s.(levels := WithNewest(s.levels, s.flush.step.table), flush := s.flush.(step := InVersion)))
    case FlushTruncate => Ok(s.(wal := [], flush := s.flush.(step := Truncated)))
    case FlushFinish => Ok(s.(flush := FlushIdle))
    case CompactBegin => Ok(s.(compact := CompactPicked(s.levels, Pick(s.levels, s.options).value)))
    case CompactAllocate =>
      Ok(s.(catalog := WithNextId(s.catalog),
            compact := CompactAllocated(s.compact.base, s.compact.job, s.catalog.nextId)))
    case CompactBuild(size) =>
      var output := Table(s.compact.id, MergedRun(s.compact.base, s.compact.job, s.options), size);
      Ok(s.(files := s.files[output.id := output],
            compact := CompactBuilt(s.compact.base, s.compact.job, output)))
    case CompactLogAdd =>
      var output := s.compact.output;
      if Listed(s.catalog, output.id) then Err(InvalidManifest)
      else Ok(s.(catalog := WithTable(s.catalog, output.id, s.compact.job.outputLevel),
                 compact := CompactLogging(s.compact.base, s.compact.job, output, 0)))
    case CompactLogRemove =>
      Ok(s.(catalog := WithoutTable(s.catalog, s.compact.job.inputs[s.compact.removed].id),
            compact := s.compact.(removed := s.compact.removed + 1)))
    case CompactInstall =>
      Ok(s.(levels := Installed(s.levels, s.compact.job, s.compact.output), compact := CompactIdle))
    case Crash => Reopened(s)
    case CrashInWrite(op, persisted) => Reopened(WithRecord(s, op, persisted))
  }

  /** A flushed table goes to the front of L0. */
  function WithNewest(levels: Levels, t: Table): (r: Levels)
    ensures |r| == |levels|
  {
    if levels == [] then [] else levels[0 := [t] + levels[0]]
  }

  /** The run a compaction of `job` writes. */
  function MergedRun(base: Levels, job: Job, options: Options): Run
  {
    Merged(job.inputs, DropsTombstones(base, job, options))
  }

  // ----- what a reader sees -----

  /** The immutable memtable is there exactly while a flush runs. */
  function Immutable(s: State): Run
  {
    if s.flush.Flushing? then s.flush.frozen else []
  }

  function Found(s: State, key: Key): Option<Entry>
  {
    if Lookup(s.mem, key).Some? then Lookup(s.mem, key)
    else if Lookup(Immutable(s), key).Some? then Lookup(Immutable(s), key)
    else LookupFrom(s.levels, 0, key)
  }

  /** `Engine::get`, for a key it accepts. */
  function Get(s: State, key: Key): Option<seq<byte>>
  {
    Visible(Found(s, key))
  }
}
