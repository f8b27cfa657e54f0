/**
  Online key rotation of one scope as a step protocol: internal/rotate,
  internal/crypto/keystore.go and the writers and readers that run beside them,
  in any number of processes.

  Every database transaction or single query is one step; an in-flight call is
  a job that keeps its local variables between its steps and may be lost at any
  of them. Whole-scope deletion is not part of the protocol.
 */
module RotationProtocol {
  import opened Basics
  import opened FieldCrypto
  import opened KeyVersions
  import opened RowTables

  // --- State -----------------------------------------------------------------

  datatype Status = InProgress | Completed | Failed

  /** The scope's key_rotations row. */
  datatype Rotation = Rotation(from: nat, to: nat, status: Status, cursor: Cursor)

  datatype StartPhase =
    | Checking
    | ReadingFrom
    | ReadingNext(from: nat)
    | Inserting(from: nat, to: nat)
    | Reloading(from: nat, to: nat)
    | Upserting(from: nat, to: nat)

  datatype Turn = MigrateTurn | AdvanceTurn | CompleteTurn

  datatype PrunePhase = Counting | Deleting | Evicting

  datatype ReadPhase = Resolving | Refetching | ResolvingFresh

  /** The local variables of one in-flight call. */
  datatype Job =
    /** GetOrCreate saw no version and is about to create version 1. */
    | Creating(proc: nat)
    /** A writer that has read the current version; its key once resolved. */
    | Writing(proc: nat, version: nat, key: Option<Dek>)
    | Starting(proc: nat, phase: StartPhase)
    | Continuing(proc: nat, from: nat, to: nat, fromKey: Option<Dek>, toKey: Option<Dek>, cursor: Cursor, turn: Turn)
    | Pruning(proc: nat, from: nat, to: nat, prune: PrunePhase)
    | Reading(proc: nat, row: RowId, version: nat, cells: seq<Blob>, read: ReadPhase)
    | Answered(row: RowId, answer: Option<seq<Text>>)

  /**
    keys, rows and rotation are the database; caches and jobs are process
    memory; lock is the advisory lock Start holds. The last four fields are
    history: every key ever stored (version v is minted[v - 1]), every key ever
    generated, the oldest version Prune has kept, and what was last written to
    each row.
   */
  datatype State = State(
    keys: KeyTable,
    rows: Rows,
    rotation: Option<Rotation>,
    caches: map<nat, Cache>,
    jobs: map<nat, Job>,
    lock: Option<nat>,
    minted: seq<Dek>,
    used: set<Dek>,
    floor: nat,
    truth: map<RowId, seq<Text>>)

  const INITIAL := State(map[], map[], None, map[], map[], None, [], {}, 1, map[])

  function CacheOf(s: State, proc: nat): Cache {
    if proc in s.caches then s.caches[proc] else map[]
  }

  function Find(s: State, proc: nat, v: nat): Option<Dek> {
    Lookup(CacheOf(s, proc), s.keys, v)
  }

  function Warm(s: State, proc: nat, v: nat): State {
    s.(caches := s.caches[proc := Remember(CacheOf(s, proc), s.keys, v)])
  }

  function WithJob(s: State, id: nat, job: Job): State {
    s.(jobs := s.jobs[id := job])
  }

  /** The call ends; a Start call gives its lock back. */
  function EndJob(s: State, id: nat): State {
    s.(jobs := s.jobs - {id}, lock := if s.lock == Some(id) then None else s.lock)
  }

  // --- What a writer commits --------------------------------------------------

  /** The texts of a new row; None is a column left NULL. */
  datatype Put = Put(texts: seq<Option<Text>>, owner: nat)

  function SealText(dek: Dek, t: Option<Text>): Blob {
    match t
    case None => Null
    case Some(x) => Encrypt(dek, x)
  }

  function SealPut(version: nat, dek: Dek, put: Put): (row: Row)
    ensures row.version == version && row.owner == put.owner
    ensures SealedWith(row.cells, dek)
    ensures PlainCells(row.cells) == PutTexts(put)
  {
    Row(version, seq(|put.texts|, i requires 0 <= i < |put.texts| => SealText(dek, put.texts[i])), put.owner)
  }

  function PutTexts(put: Put): seq<Text> {
    seq(|put.texts|, i requires 0 <= i < |put.texts| =>
      if put.texts[i].None? then "" else put.texts[i].value)
  }

  /**
    One writing transaction inserts rows that did not exist, a key fact only
    together with its summary, and upserts entities.
   */
  predicate Insertable(s: State, puts: map<RowId, Put>, merges: map<RowId, Put>) {
    && (forall r :: r in puts ==> r !in s.rows)
    && (forall r :: r in puts && r.table == Facts ==> RowId(Summaries, puts[r].owner) in puts)
    && (forall r :: r in merges ==> r.table == Entities && r !in puts)
  }

  /** Before merging, upsertEntities opens the entity's stored attributes. */
  predicate CanMerge(s: State, proc: nat, r: RowId) {
    r in s.rows ==>
      var key := Find(s, proc, s.rows[r].version);
      key.Some? && SealedWith(s.rows[r].cells, key.value)
  }

  function SealedRows(puts: map<RowId, Put>, version: nat, key: Dek): Rows {
    map r | r in puts :: SealPut(version, key, puts[r])
  }

  function TextsOf(puts: map<RowId, Put>): map<RowId, seq<Text>> {
    map r | r in puts :: PutTexts(puts[r])
  }

  // --- Steps -------------------------------------------------------------------

  datatype Event =
    | BeginWrite(job: nat, proc: nat)
    | CreateFirst(job: nat, dek: Dek)
    | ResolveWrite(job: nat)
    | Commit(job: nat, puts: map<RowId, Put>, merges: map<RowId, Put>)
    | BeginStart(job: nat, proc: nat)
    | StepStart(job: nat, dek: Dek)
    | BeginContinue(job: nat, proc: nat)
    | ResolveContinue(job: nat)
    | Batch(job: nat, size: int)
    | Advance(job: nat)
    | Complete(job: nat)
    | BeginPrune(job: nat, proc: nat)
    | CountPrune(job: nat)
    | DeletePrune(job: nat)
    | EvictPrune(job: nat)
    | BeginRead(job: nat, proc: nat, row: RowId)
    | ResolveRead(job: nat)
    | Refetch(job: nat)
    | LoadKey(proc: nat, version: nat)
    | Restart(proc: nat)
    | Crash(job: nat)

  predicate SameRows(s: State, s': State) {
    s'.rows == s.rows && s'.truth == s.truth
  }

  predicate SameKeys(s: State, s': State) {
    s'.keys == s.keys && s'.minted == s.minted && s'.used == s.used && s'.floor == s.floor
  }

  /** The step changes nothing but caches, jobs and the lock. */
  predicate Local(s: State, s': State) {
    SameRows(s, s') && SameKeys(s, s') && s'.rotation == s.rotation
  }

  /** A step touches only the job it belongs to. */
  predicate OthersKeepTheirJob(s: State, s': State, job: nat) {
    s'.jobs - {job} == s.jobs - {job}
  }

  predicate IsReader(j: Job) {
    j.Reading? || j.Answered?
  }

  predicate NoWriterLeft(s: State, job: nat) {
    job in s.jobs ==> !s.jobs[job].Writing? && !s.jobs[job].Creating?
  }

  /** A step of a call that is no reader: the job is none before and none after. */
  predicate NoReaderStep(s: State, s': State, job: nat) {
    && OthersKeepTheirJob(s, s', job)
    && (job in s.jobs ==> !IsReader(s.jobs[job]))
    && (job in s'.jobs ==> !IsReader(s'.jobs[job]))
  }

  /** GetOrCreate's first query. */
  function DoBeginWrite(s: State, job: nat, proc: nat): (r: Option<State>)
    ensures r.Some? ==> r.value.caches == s.caches
    ensures r.Some? ==> Local(s, r.value)
    ensures r.Some? ==> NoReaderStep(s, r.value, job)
  {
    if job in s.jobs then None
    else
      var v := Current(s.keys);
      Some(WithJob(s, job, if v == 0 then Creating(proc) else Writing(proc, v, None)))
  }

  /** insert ... on conflict do nothing, with the history of versions kept beside it. */
  function StoreKey(s: State, v: nat, dek: Dek): State {
    s.(keys := Insert(s.keys, v, dek),
       minted := if v !in s.keys && v == |s.minted| + 1 then s.minted + [dek] else s.minted,
       used := s.used + {dek})
  }

  function DoCreateFirst(s: State, job: nat, dek: Dek): (r: Option<State>)
    ensures r.Some? ==> r.value.caches == s.caches
    ensures r.Some? ==> SameRows(s, r.value) && r.value.rotation == s.rotation && s.minted <= r.value.minted && r.value.floor == s.floor
    ensures r.Some? ==> NoReaderStep(s, r.value, job)
  {
    if job in s.jobs && s.jobs[job].Creating? && dek !in s.used
    then Some(WithJob(StoreKey(s, 1, dek), job, Writing(s.jobs[job].proc, 1, None)))
    else None
  }

  function DoResolveWrite(s: State, job: nat): (r: Option<State>)
    ensures r.Some? ==> Local(s, r.value)
    ensures r.Some? ==> NoReaderStep(s, r.value, job)
  {
    if job in s.jobs && s.jobs[job].Writing? && s.jobs[job].key.None?
    then
      var j := s.jobs[job];
      match Find(s, j.proc, j.version)
      case Some(d) => Some(WithJob(Warm(s, j.proc, j.version), job, j.(key := Some(d))))
      case None => Some(EndJob(s, job))
    else None
  }

  /**
    One writing transaction: new rows under the version the writer resolved,
    upserted entities under the version that is current inside the transaction.
    A failure rolls everything back.
   */
  function DoCommit(s: State, job: nat, puts: map<RowId, Put>, merges: map<RowId, Put>): (r: Option<State>)
    ensures r.Some? ==> r.value.caches == s.caches
    ensures r.Some? ==> SameKeys(s, r.value) && r.value.rotation == s.rotation
    ensures r.Some? ==> forall id :: id in s.rows ==>
                          id in r.value.rows && (id !in merges ==> r.value.rows[id] == s.rows[id])
    ensures r.Some? ==> NoReaderStep(s, r.value, job)
    ensures r.Some? ==> NoWriterLeft(r.value, job)
  {
    if job in s.jobs && s.jobs[job].Writing? && s.jobs[job].key.Some? && Insertable(s, puts, merges)
    then
      var j := s.jobs[job];
      var v := Current(s.keys);
      var key := Find(s, j.proc, v);
      if key.Some? && forall r :: r in merges ==> CanMerge(s, j.proc, r)
      then Some(EndJob(s, job).(
        rows := s.rows + SealedRows(puts, j.version, j.key.value) + SealedRows(merges, v, key.value),
        truth := s.truth + TextsOf(puts) + TextsOf(merges)))
      else Some(EndJob(s, job))
    else None
  }

  function DoBeginStart(s: State, job: nat, proc: nat): (r: Option<State>)
    ensures r.Some? ==> r.value.caches == s.caches
    ensures r.Some? ==> Local(s, r.value)
    ensures r.Some? ==> NoReaderStep(s, r.value, job)
    ensures r.Some? ==> NoWriterLeft(r.value, job)
  {
    if job in s.jobs || s.lock.Some? then None
    else Some(WithJob(s, job, Starting(proc, Checking)).(lock := Some(job)))
  }

  /** Start's queries, in order; the generated key matters only to the insert. */
  function DoStepStart(s: State, job: nat, dek: Dek): (r: Option<State>)
    ensures r.Some? ==> job in s.jobs && s.jobs[job].Starting? && (s.jobs[job].phase.Reloading? || r.value.caches == s.caches)
    ensures r.Some? ==> SameRows(s, r.value) && s.minted <= r.value.minted && r.value.floor == s.floor
    ensures r.Some? ==> NoReaderStep(s, r.value, job)
    ensures r.Some? ==> NoWriterLeft(r.value, job)
  {
    if job !in s.jobs || !s.jobs[job].Starting? then None
    else
      var j := s.jobs[job];
      match j.phase
      case Checking =>
        if s.rotation.Some? && s.rotation.value.status == InProgress then Some(EndJob(s, job))
        else Some(WithJob(s, job, j.(phase := ReadingFrom)))
      case ReadingFrom =>
        var from := Current(s.keys);
        if from == 0 then Some(EndJob(s, job)) else Some(WithJob(s, job, j.(phase := ReadingNext(from))))
      case ReadingNext(from) =>
        var current := Current(s.keys);
        if current == 0 then Some(EndJob(s, job))
        else Some(WithJob(s, job, j.(phase := Inserting(from, current + 1))))
      case Inserting(from, to) =>
        if dek in s.used then None
        else Some(WithJob(StoreKey(s, to, dek), job, j.(phase := Reloading(from, to))))
      case Reloading(from, to) =>
        if Find(s, j.proc, to).None? then Some(EndJob(s, job))
        else Some(WithJob(Warm(s, j.proc, to), job, j.(phase := Upserting(from, to))))
      case Upserting(from, to) =>
        Some(EndJob(s, job).(rotation := Some(Rotation(from, to, InProgress, On(Episodes)))))
  }

  /** Continue's status query; anything but a rotation in progress ends the call at once. */
  function DoBeginContinue(s: State, job: nat, proc: nat): (r: Option<State>)
    ensures r.Some? ==> r.value.caches == s.caches
    ensures r.Some? ==> Local(s, r.value)
    ensures r.Some? ==> NoReaderStep(s, r.value, job)
    ensures r.Some? ==> NoWriterLeft(r.value, job)
  {
    if job in s.jobs || s.rotation.None? || s.rotation.value.status != InProgress then None
    else
      var r := s.rotation.value;
      Some(WithJob(s, job, Continuing(proc, r.from, r.to, None, None, r.cursor,
                                      if r.cursor == Finished then CompleteTurn else MigrateTurn)))
  }

  function DoResolveContinue(s: State, job: nat): (r: Option<State>)
    ensures r.Some? ==> Local(s, r.value)
    ensures r.Some? ==> NoReaderStep(s, r.value, job)
    ensures r.Some? ==> NoWriterLeft(r.value, job)
  {
    if job !in s.jobs || !s.jobs[job].Continuing? || s.jobs[job].toKey.Some? then None
    else
      var j := s.jobs[job];
      var v := if j.fromKey.None? then j.from else j.to;
      match Find(s, j.proc, v)
      case None => Some(EndJob(s, job))
      case Some(d) =>
        Some(WithJob(Warm(s, j.proc, v), job, if j.fromKey.None? then j.(fromKey := Some(d)) else j.(toKey := Some(d))))
  }

  predicate Ready(j: Job) {
    j.Continuing? && j.fromKey.Some? && j.toKey.Some?
  }

  /** One migrate...Batch transaction; a batch that found rows ends the call. */
  function DoBatch(s: State, job: nat, size: int): (r: Option<State>)
    ensures r.Some? ==> r.value.caches == s.caches
    ensures r.Some? ==> SameKeys(s, r.value) && r.value.rotation == s.rotation && r.value.truth == s.truth
    ensures r.Some? ==> r.value.rows.Keys == s.rows.Keys
    ensures r.Some? ==> NoReaderStep(s, r.value, job)
    ensures r.Some? ==> NoWriterLeft(r.value, job)
  {
    if job in s.jobs && Ready(s.jobs[job]) && s.jobs[job].turn == MigrateTurn && s.jobs[job].cursor.On?
    then
      var j := s.jobs[job];
      var ids := BatchOf(s.rows, j.cursor.table, j.from, ClampBatchSize(size));
      if ids == {} then Some(WithJob(s, job, j.(cursor := NextCursor(j.cursor), turn := AdvanceTurn)))
      else
        match MigrateRows(s.rows, j.cursor.table, ids, j.from, j.to, j.fromKey.value, j.toKey.value)
        case Some(rows) => Some(EndJob(s, job).(rows := rows))
        case None => Some(EndJob(s, job))
    else None
  }

  /** setCursorTable: filters by scope only, whatever rotation the row is about by now. */
  function DoAdvance(s: State, job: nat): (r: Option<State>)
    ensures r.Some? ==> r.value.caches == s.caches
    ensures r.Some? ==> SameRows(s, r.value) && SameKeys(s, r.value)
    ensures r.Some? ==> NoReaderStep(s, r.value, job)
    ensures r.Some? ==> NoWriterLeft(r.value, job)
  {
    if job in s.jobs && Ready(s.jobs[job]) && s.jobs[job].turn == AdvanceTurn
    then
      var j := s.jobs[job];
      Some(WithJob(s, job, j.(turn := if j.cursor == Finished then CompleteTurn else MigrateTurn)).(
        rotation := if s.rotation.Some? then Some(s.rotation.value.(cursor := j.cursor)) else None))
    else None
  }

  /** markCompleted: filters by scope only, like setCursorTable. */
  function DoComplete(s: State, job: nat): (r: Option<State>)
    ensures r.Some? ==> r.value.caches == s.caches
    ensures r.Some? ==> SameRows(s, r.value) && SameKeys(s, r.value)
    ensures r.Some? ==> NoReaderStep(s, r.value, job)
    ensures r.Some? ==> NoWriterLeft(r.value, job)
  {
    if job in s.jobs && Ready(s.jobs[job]) && s.jobs[job].turn == CompleteTurn
    then Some(EndJob(s, job).(
      rotation := if s.rotation.Some? then Some(s.rotation.value.(status := Completed)) else None))
    else None
  }

  function DoBeginPrune(s: State, job: nat, proc: nat): (r: Option<State>)
    ensures r.Some? ==> r.value.caches == s.caches
    ensures r.Some? ==> Local(s, r.value)
    ensures r.Some? ==> NoReaderStep(s, r.value, job)
    ensures r.Some? ==> NoWriterLeft(r.value, job)
  {
    if job in s.jobs || s.rotation.None? || s.rotation.value.status != Completed then None
    else Some(WithJob(s, job, Pruning(proc, s.rotation.value.from, s.rotation.value.to, Counting)))
  }

  predicate NoRowBelow(s: State, version: nat) {
    forall r :: r in s.rows ==> version <= s.rows[r].version
  }

  function DoCountPrune(s: State, job: nat): (r: Option<State>)
    ensures r.Some? ==> r.value.caches == s.caches
    ensures r.Some? ==> Local(s, r.value)
    ensures r.Some? ==> NoReaderStep(s, r.value, job)
    ensures r.Some? ==> NoWriterLeft(r.value, job)
  {
    if job in s.jobs && s.jobs[job].Pruning? && s.jobs[job].prune == Counting
    then
      if NoRowBelow(s, s.jobs[job].to) then Some(WithJob(s, job, s.jobs[job].(prune := Deleting)))
      else Some(EndJob(s, job))
    else None
  }

  function DoDeletePrune(s: State, job: nat): (r: Option<State>)
    ensures r.Some? ==> r.value.caches == s.caches
    ensures r.Some? ==> SameRows(s, r.value) && r.value.rotation == s.rotation && r.value.minted == s.minted && s.floor <= r.value.floor
    ensures r.Some? ==> NoReaderStep(s, r.value, job)
    ensures r.Some? ==> NoWriterLeft(r.value, job)
  {
    if job in s.jobs && s.jobs[job].Pruning? && s.jobs[job].prune == Deleting
    then
      var to := s.jobs[job].to;
      Some(WithJob(s, job, s.jobs[job].(prune := Evicting)).(
        keys := map v: nat | v in s.keys && to <= v :: s.keys[v],
        floor := if s.floor < to then to else s.floor))
    else None
  }

  function DoEvictPrune(s: State, job: nat): (r: Option<State>)
    ensures r.Some? ==> Local(s, r.value)
    ensures r.Some? ==> NoReaderStep(s, r.value, job)
    ensures r.Some? ==> NoWriterLeft(r.value, job)
  {
    if job in s.jobs && s.jobs[job].Pruning? && s.jobs[job].prune == Evicting
    then
      var j := s.jobs[job];
      var kept: Cache := map v: nat | v in CacheOf(s, j.proc) && !(j.from <= v < j.to) :: CacheOf(s, j.proc)[v];
      Some(EndJob(s, job).(caches := s.caches[j.proc := kept]))
    else None
  }

  /** A re-embedding batch reads a row's version and ciphertext together. */
  function DoBeginRead(s: State, job: nat, proc: nat, row: RowId): (r: Option<State>)
    ensures r.Some? ==> r.value.caches == s.caches
    ensures r.Some? ==> Local(s, r.value)
    ensures r.Some? ==> OthersKeepTheirJob(s, r.value, job)
    ensures r.Some? ==> NoWriterLeft(r.value, job)
  {
    if job in s.jobs || row !in s.rows then None
    else Some(WithJob(s, job, Reading(proc, row, s.rows[row].version, s.rows[row].cells, Resolving)))
  }

  /** decryptWithRetry's two GetVersion calls. */
  function DoResolveRead(s: State, job: nat): (r: Option<State>)
    ensures r.Some? ==> Local(s, r.value)
    ensures r.Some? ==> OthersKeepTheirJob(s, r.value, job)
    ensures r.Some? ==> NoWriterLeft(r.value, job)
  {
    if job in s.jobs && s.jobs[job].Reading? && s.jobs[job].read != Refetching
    then
      var j := s.jobs[job];
      match Find(s, j.proc, j.version)
      case Some(d) => Some(WithJob(Warm(s, j.proc, j.version), job, Answered(j.row, DecryptEach(d, j.cells))))
      case None =>
        Some(WithJob(s, job, if j.read == Resolving then j.(read := Refetching) else Answered(j.row, None)))
    else None
  }

  /** refetchRow: version and ciphertext again, from one query. */
  function DoRefetch(s: State, job: nat): (r: Option<State>)
    ensures r.Some? ==> r.value.caches == s.caches
    ensures r.Some? ==> Local(s, r.value)
    ensures r.Some? ==> OthersKeepTheirJob(s, r.value, job)
    ensures r.Some? ==> NoWriterLeft(r.value, job)
  {
    if job in s.jobs && s.jobs[job].Reading? && s.jobs[job].read == Refetching
    then
      var j := s.jobs[job];
      if j.row !in s.rows || s.rows[j.row].version == j.version then Some(WithJob(s, job, Answered(j.row, None)))
      else Some(WithJob(s, job, j.(version := s.rows[j.row].version, cells := s.rows[j.row].cells,
                                   read := ResolvingFresh)))
    else None
  }

  /** The state after an event, or None when the event cannot happen. */
  function Step(s: State, e: Event): Option<State> {
    match e
    case BeginWrite(job, proc) => DoBeginWrite(s, job, proc)
    case CreateFirst(job, dek) => DoCreateFirst(s, job, dek)
    case ResolveWrite(job) => DoResolveWrite(s, job)
    case Commit(job, puts, merges) => DoCommit(s, job, puts, merges)
    case BeginStart(job, proc) => DoBeginStart(s, job, proc)
    case StepStart(job, dek) => DoStepStart(s, job, dek)
    case BeginContinue(job, proc) => DoBeginContinue(s, job, proc)
    case ResolveContinue(job) => DoResolveContinue(s, job)
    case Batch(job, size) => DoBatch(s, job, size)
    case Advance(job) => DoAdvance(s, job)
    case Complete(job) => DoComplete(s, job)
    case BeginPrune(job, proc) => DoBeginPrune(s, job, proc)
    case CountPrune(job) => DoCountPrune(s, job)
    case DeletePrune(job) => DoDeletePrune(s, job)
    case EvictPrune(job) => DoEvictPrune(s, job)
    case BeginRead(job, proc, row) => DoBeginRead(s, job, proc, row)
    case ResolveRead(job) => DoResolveRead(s, job)
    case Refetch(job) => DoRefetch(s, job)
    case LoadKey(proc, version) => Some(Warm(s, proc, version))
    case Restart(proc) => Some(s.(caches := s.caches[proc := map[]]))
    case Crash(job) => if job in s.jobs then Some(EndJob(s, job)) else None
  }

  // --- Runs ---------------------------------------------------------------------

  /** No in-flight writer holds, or is about to create, a version below the given one. */
  predicate NoWriterBelow(s: State, version: nat) {
    forall j :: j in s.jobs ==>
      && (s.jobs[j].Writing? ==> version <= s.jobs[j].version)
      && (s.jobs[j].Creating? ==> version <= 1)
  }

  /** The one assumption of the safety theorems: a prune does not overtake a writer on an older version. */
  predicate Careful(s: State, e: Event) {
    e.CountPrune? && e.job in s.jobs && s.jobs[e.job].Pruning? ==> NoWriterBelow(s, s.jobs[e.job].to)
  }

  /** The states a list of events goes through: |events| + 1 of them. */
  ghost predicate Path(states: seq<State>, events: seq<Event>) {
    && |states| == |events| + 1
    && forall i {:trigger Step(states[i], events[i])} :: 0 <= i < |events| ==>
         Step(states[i], events[i]) == Some(states[i + 1])
  }

  ghost predicate CarefulPath(states: seq<State>, events: seq<Event>) {
    && Path(states, events)
    && forall i {:trigger Careful(states[i], events[i])} :: 0 <= i < |events| ==> Careful(states[i], events[i])
  }

  ghost predicate Run(states: seq<State>, events: seq<Event>) {
    CarefulPath(states, events) && states[0] == INITIAL
  }

  /** The row opens under its own recorded version, to what was last written. */
  predicate Readable(s: State, r: RowId)
    requires r in s.rows
  {
    && s.rows[r].version in s.keys
    && r in s.truth
    && DecryptEach(s.keys[s.rows[r].version], s.rows[r].cells) == Some(s.truth[r])
  }

  predicate AllReadable(s: State) {
    forall r :: r in s.rows ==> Readable(s, r)
  }
}
