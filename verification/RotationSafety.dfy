/**
  What every step of the rotation protocol keeps, over every interleaving of
  writers, rotations, prunes, readers and crashes.
 */
module RotationSafety {
  import opened Basics
  import opened FieldCrypto
  import opened KeyVersions
  import opened RowTables
  import opened RotationProtocol

  // --- The invariant ---------------------------------------------------------

  ghost predicate IsVersion(minted: seq<Dek>, v: nat) {
    1 <= v <= |minted|
  }

  /** The key version v was created with. */
  ghost function Mint(minted: seq<Dek>, v: nat): Dek
    requires IsVersion(minted, v)
  {
    minted[v - 1]
  }

  /** A key that, once known, is the one its version was created with. */
  ghost predicate KeyInv(minted: seq<Dek>, v: nat, key: Option<Dek>) {
    IsVersion(minted, v) && (key.Some? ==> key.value == Mint(minted, v))
  }

  /** Versions floor..top are stored, each with the key it was created with; no two versions share a key. */
  ghost predicate KeysInv(keys: KeyTable, minted: seq<Dek>, used: set<Dek>, floor: nat) {
    && 1 <= floor
    && (if minted == [] then floor == 1 else floor <= |minted|)
    && (forall v :: v in keys ==> floor <= v && KeyInv(minted, v, Some(keys[v])))
    && (forall v :: floor <= v <= |minted| ==> v in keys)
    && (forall i, j :: 0 <= i < j < |minted| ==> minted[i] != minted[j])
    && (forall i :: 0 <= i < |minted| ==> minted[i] in used)
  }

  ghost predicate CacheInv(minted: seq<Dek>, cache: Cache) {
    forall v :: v in cache ==> KeyInv(minted, v, Some(cache[v]))
  }

  ghost predicate CachesInv(caches: map<nat, Cache>, minted: seq<Dek>) {
    forall p :: p in caches ==> CacheInv(minted, caches[p])
  }

  ghost predicate RowInv(row: Row, texts: seq<Text>, minted: seq<Dek>, floor: nat) {
    && floor <= row.version && IsVersion(minted, row.version)
    && SealedWith(row.cells, Mint(minted, row.version))
    && PlainCells(row.cells) == texts
  }

  ghost predicate RowsInv(rows: Rows, truth: map<RowId, seq<Text>>, minted: seq<Dek>, floor: nat) {
    && truth.Keys == rows.Keys
    && forall r :: r in rows ==> RowInv(rows[r], truth[r], minted, floor)
  }

  ghost predicate FactInv(rows: Rows, r: RowId)
    requires r in rows
  {
    r.table == Facts ==>
      RowId(Summaries, rows[r].owner) in rows && rows[RowId(Summaries, rows[r].owner)].version == rows[r].version
  }

  ghost predicate FactsInv(rows: Rows) {
    forall r :: r in rows ==> FactInv(rows, r)
  }

  ghost predicate NotInProgress(rotation: Option<Rotation>) {
    rotation.Some? ==> rotation.value.status != InProgress
  }

  ghost predicate PhaseInv(rotation: Option<Rotation>, minted: seq<Dek>, phase: StartPhase) {
    && (phase != Checking ==> NotInProgress(rotation))
    && match phase
       case Checking => true
       case ReadingFrom => true
       case ReadingNext(from) => 1 <= from == |minted|
       case Inserting(from, to) => 1 <= from == |minted| && to == from + 1
       case Reloading(from, to) => 1 <= from && to == from + 1 == |minted|
       case Upserting(from, to) => 1 <= from && to == from + 1 == |minted|
  }

  ghost predicate JobInv(s: State, id: nat, j: Job) {
    match j
    case Creating(_) => s.floor == 1
    case Writing(_, v, key) => s.floor <= v && KeyInv(s.minted, v, key)
    case Starting(_, phase) => s.lock == Some(id) && PhaseInv(s.rotation, s.minted, phase)
    case Continuing(_, from, to, fromKey, toKey, cursor, turn) =>
      && to == from + 1 && KeyInv(s.minted, from, fromKey) && KeyInv(s.minted, to, toKey) && cursor != On(Facts)
      && (toKey.Some? ==> fromKey.Some?) && (turn == MigrateTurn ==> cursor.On?)
    case Pruning(_, from, to, prune) =>
      && to == from + 1 && IsVersion(s.minted, from) && IsVersion(s.minted, to)
      && (prune == Deleting ==> NoRowBelow(s, to) && NoWriterBelow(s, to))
    case Reading(_, _, v, cells, _) => IsVersion(s.minted, v) && SealedWith(cells, Mint(s.minted, v))
    case Answered(_, _) => true
  }

  ghost predicate JobsInv(s: State) {
    forall id :: id in s.jobs ==> JobInv(s, id, s.jobs[id])
  }

  ghost predicate RotationInv(rotation: Option<Rotation>, minted: seq<Dek>) {
    rotation.Some? ==>
      var r := rotation.value;
      && 1 <= r.from && r.to == r.from + 1 <= |minted|
      && (r.status == InProgress ==> r.to == |minted|)
      && r.cursor != On(Facts)
  }

  ghost predicate Inv(s: State) {
    && KeysInv(s.keys, s.minted, s.used, s.floor)
    && CachesInv(s.caches, s.minted)
    && RowsInv(s.rows, s.truth, s.minted, s.floor)
    && FactsInv(s.rows)
    && JobsInv(s)
    && RotationInv(s.rotation, s.minted)
  }

  // --- Looking keys up -----------------------------------------------------------

  /** The version a write is told to use is the newest ever created. */
  lemma CurrentIsNewest(s: State)
    requires Inv(s)
    ensures Current(s.keys) == |s.minted|
    ensures s.minted != [] ==> |s.minted| in s.keys
  {
    if s.minted != [] {
      assert |s.minted| in s.keys;
    } else {
      assert forall v :: v in s.keys ==> KeyInv(s.minted, v, Some(s.keys[v]));
    }
  }

  lemma FindIsMint(s: State, proc: nat, v: nat)
    requires Inv(s)
    ensures Find(s, proc, v).Some? ==> KeyInv(s.minted, v, Find(s, proc, v))
    ensures s.floor <= v <= |s.minted| ==> Find(s, proc, v).Some?
  {
    assert CacheInv(s.minted, CacheOf(s, proc));
  }

  /** A change of job and cache that leaves the tables, keys and rotation alone. */
  lemma LocalStep(s: State, s': State, id: nat)
    requires Inv(s)
    requires s' == s.(jobs := s'.jobs, caches := s'.caches, lock := s'.lock)
    requires CachesInv(s'.caches, s.minted)
    requires forall k :: k in s'.jobs && k != id ==> k in s.jobs && s'.jobs[k] == s.jobs[k]
    requires s'.lock != s.lock ==> s.lock.None? || s.lock == Some(id)
    requires id in s'.jobs ==> JobInv(s', id, s'.jobs[id])
    requires forall v: nat :: NoWriterBelow(s, v) && v <= |s.minted| ==> NoWriterBelow(s', v)
    ensures Inv(s')
  {
    forall k | k in s'.jobs ensures JobInv(s', k, s'.jobs[k]) {
      if k != id {
        assert JobInv(s, k, s.jobs[k]);
      }
    }
  }

  lemma WarmKeepsCaches(s: State, proc: nat, v: nat)
    requires Inv(s)
    ensures CachesInv(Warm(s, proc, v).caches, s.minted)
  {
    FindIsMint(s, proc, v);
    assert CacheInv(s.minted, CacheOf(s, proc));
  }

  lemma EndJobKeepsInv(s: State, id: nat)
    requires Inv(s) && id in s.jobs
    ensures Inv(EndJob(s, id))
  {
    LocalStep(s, EndJob(s, id), id);
  }

  // --- Steps that only move a call forward -----------------------------------------

  lemma BeginWriteKeepsInv(s: State, job: nat, proc: nat, s': State)
    requires Inv(s) && DoBeginWrite(s, job, proc) == Some(s')
    ensures Inv(s')
  {
    CurrentIsNewest(s);
    LocalStep(s, s', job);
  }

  lemma ResolveWriteKeepsInv(s: State, job: nat, s': State)
    requires Inv(s) && DoResolveWrite(s, job) == Some(s')
    ensures Inv(s')
  {
    var j := s.jobs[job];
    assert JobInv(s, job, j);
    FindIsMint(s, j.proc, j.version);
    WarmKeepsCaches(s, j.proc, j.version);
    LocalStep(s, s', job);
  }

  lemma BeginStartKeepsInv(s: State, job: nat, proc: nat, s': State)
    requires Inv(s) && DoBeginStart(s, job, proc) == Some(s')
    ensures Inv(s')
  {
    LocalStep(s, s', job);
  }

  lemma BeginContinueKeepsInv(s: State, job: nat, proc: nat, s': State)
    requires Inv(s) && DoBeginContinue(s, job, proc) == Some(s')
    ensures Inv(s')
  {
    LocalStep(s, s', job);
  }

  lemma ResolveContinueKeepsInv(s: State, job: nat, s': State)
    requires Inv(s) && DoResolveContinue(s, job) == Some(s')
    ensures Inv(s')
  {
    var j := s.jobs[job];
    assert JobInv(s, job, j);
    var v := if j.fromKey.None? then j.from else j.to;
    FindIsMint(s, j.proc, v);
    if Find(s, j.proc, v).None? {
      EndJobKeepsInv(s, job);
    } else {
      WarmKeepsCaches(s, j.proc, v);
      LocalStep(s, s', job);
    }
  }

  lemma BeginPruneKeepsInv(s: State, job: nat, proc: nat, s': State)
    requires Inv(s) && DoBeginPrune(s, job, proc) == Some(s')
    ensures Inv(s')
  {
    LocalStep(s, s', job);
  }

  lemma CountPruneKeepsInv(s: State, job: nat, s': State)
    requires Inv(s) && DoCountPrune(s, job) == Some(s')
    requires NoWriterBelow(s, s.jobs[job].to)
    ensures Inv(s')
  {
    assert JobInv(s, job, s.jobs[job]);
    LocalStep(s, s', job);
  }

  lemma EvictPruneKeepsInv(s: State, job: nat, s': State)
    requires Inv(s) && DoEvictPrune(s, job) == Some(s')
    ensures Inv(s')
  {
    assert CacheInv(s.minted, CacheOf(s, s.jobs[job].proc));
    LocalStep(s, s', job);
  }

  lemma BeginReadKeepsInv(s: State, job: nat, proc: nat, row: RowId, s': State)
    requires Inv(s) && DoBeginRead(s, job, proc, row) == Some(s')
    ensures Inv(s')
  {
    assert RowInv(s.rows[row], s.truth[row], s.minted, s.floor);
    LocalStep(s, s', job);
  }

  lemma ReaderStepKeepsInv(s: State, job: nat, next: Job)
    requires Inv(s) && job in s.jobs && IsReader(s.jobs[job])
    requires IsReader(next) && JobInv(s, job, next)
    ensures Inv(WithJob(s, job, next))
  {
    LocalStep(s, WithJob(s, job, next), job);
  }

  lemma ResolveReadKeepsInv(s: State, job: nat, s': State)
    requires Inv(s) && DoResolveRead(s, job) == Some(s')
    ensures Inv(s')
  {
    var j := s.jobs[job];
    assert JobInv(s, job, j);
    LoadKeyKeepsInv(s, j.proc, j.version);
    if Find(s, j.proc, j.version).Some? {
      ReaderStepKeepsInv(Warm(s, j.proc, j.version), job, s'.jobs[job]);
    } else {
      ReaderStepKeepsInv(s, job, s'.jobs[job]);
    }
  }

  lemma RefetchKeepsInv(s: State, job: nat, s': State)
    requires Inv(s) && DoRefetch(s, job) == Some(s')
    ensures Inv(s')
  {
    var row := s.jobs[job].row;
    if row in s.rows {
      assert RowInv(s.rows[row], s.truth[row], s.minted, s.floor);
    }
    ReaderStepKeepsInv(s, job, s'.jobs[job]);
  }

  lemma LoadKeyKeepsInv(s: State, proc: nat, v: nat)
    requires Inv(s)
    ensures Inv(Warm(s, proc, v))
  {
    WarmKeepsCaches(s, proc, v);
    assert 0 in s.jobs ==> JobInv(s, 0, s.jobs[0]);
    LocalStep(s, Warm(s, proc, v), 0);
  }

  lemma RestartKeepsInv(s: State, proc: nat)
    requires Inv(s)
    ensures Inv(s.(caches := s.caches[proc := map[]]))
  {
    assert 0 in s.jobs ==> JobInv(s, 0, s.jobs[0]);
    LocalStep(s, s.(caches := s.caches[proc := map[]]), 0);
  }

  // --- Steps that create keys --------------------------------------------------------

  /** Storing version top + 1 extends the history and disturbs nothing else. */
  lemma StoreNextKey(s: State, dek: Dek)
    requires Inv(s) && dek !in s.used
    ensures var s' := StoreKey(s, |s.minted| + 1, dek);
            && s'.minted == s.minted + [dek]
            && KeysInv(s'.keys, s'.minted, s'.used, s'.floor)
            && CachesInv(s'.caches, s'.minted)
            && RowsInv(s'.rows, s'.truth, s'.minted, s'.floor)
  {
    var s' := StoreKey(s, |s.minted| + 1, dek);
    assert forall v :: v in s.keys ==> KeyInv(s.minted, v, Some(s.keys[v]));
    forall p | p in s'.caches ensures CacheInv(s'.minted, s'.caches[p]) {
      assert CacheInv(s.minted, s.caches[p]);
    }
    forall r | r in s'.rows ensures RowInv(s'.rows[r], s'.truth[r], s'.minted, s'.floor) {
      assert RowInv(s.rows[r], s.truth[r], s.minted, s.floor);
    }
  }

  lemma CreateFirstKeepsInv(s: State, job: nat, dek: Dek, s': State)
    requires Inv(s) && DoCreateFirst(s, job, dek) == Some(s')
    ensures Inv(s')
  {
    assert JobInv(s, job, s.jobs[job]);
    if s.minted == [] {
      CurrentIsNewest(s);
      StoreNextKey(s, dek);
    } else {
      assert 1 in s.keys;
    }
    forall k | k in s'.jobs ensures JobInv(s', k, s'.jobs[k]) {
      if k != job {
        assert JobInv(s, k, s.jobs[k]);
      }
    }
  }

  lemma JobSurvivesNewKey(s: State, dek: Dek, s': State, k: nat)
    requires Inv(s) && k in s.jobs && k in s'.jobs && s'.jobs[k] == s.jobs[k]
    requires s'.minted == s.minted + [dek] && s'.floor == s.floor && s'.rotation == s.rotation && s'.lock == s.lock
    requires s'.rows == s.rows && forall v: nat :: NoWriterBelow(s, v) ==> NoWriterBelow(s', v)
    requires s.jobs[k].Starting? ==> s.jobs[k].phase == Checking
    ensures JobInv(s', k, s'.jobs[k])
  {
    assert JobInv(s, k, s.jobs[k]);
  }

  lemma InsertStartKeepsInv(s: State, job: nat, dek: Dek, s': State)
    requires Inv(s) && DoStepStart(s, job, dek) == Some(s') && s.jobs[job].phase.Inserting?
    ensures Inv(s')
  {
    assert JobInv(s, job, s.jobs[job]);
    StoreNextKey(s, dek);
    forall k | k in s'.jobs ensures JobInv(s', k, s'.jobs[k]) {
      if k != job {
        assert JobInv(s, k, s.jobs[k]);
        JobSurvivesNewKey(s, dek, s', k);
      }
    }
  }

  lemma UpsertStartKeepsInv(s: State, job: nat, dek: Dek, s': State)
    requires Inv(s) && DoStepStart(s, job, dek) == Some(s') && s.jobs[job].phase.Upserting?
    ensures Inv(s')
  {
    assert JobInv(s, job, s.jobs[job]);
    forall k | k in s'.jobs ensures JobInv(s', k, s'.jobs[k]) {
      assert JobInv(s, k, s.jobs[k]);
    }
  }

  lemma PhaseStep(s: State, job: nat, phase: StartPhase)
    requires Inv(s) && job in s.jobs && s.jobs[job].Starting?
    requires PhaseInv(s.rotation, s.minted, phase)
    ensures Inv(WithJob(s, job, s.jobs[job].(phase := phase)))
  {
    assert JobInv(s, job, s.jobs[job]);
    LocalStep(s, WithJob(s, job, s.jobs[job].(phase := phase)), job);
  }

  lemma ReloadStartKeepsInv(s: State, job: nat, dek: Dek, s': State)
    requires Inv(s) && DoStepStart(s, job, dek) == Some(s') && s.jobs[job].phase.Reloading?
    ensures Inv(s')
  {
    var proc, from, to := s.jobs[job].proc, s.jobs[job].phase.from, s.jobs[job].phase.to;
    assert JobInv(s, job, s.jobs[job]);
    LoadKeyKeepsInv(s, proc, to);
    if Find(s, proc, to).Some? {
      PhaseStep(Warm(s, proc, to), job, Upserting(from, to));
    } else {
      EndJobKeepsInv(s, job);
    }
  }

  lemma QueryStartKeepsInv(s: State, job: nat, dek: Dek, s': State)
    requires Inv(s) && DoStepStart(s, job, dek) == Some(s')
    requires var phase := s.jobs[job].phase; phase.Checking? || phase.ReadingFrom? || phase.ReadingNext?
    ensures Inv(s')
  {
    assert JobInv(s, job, s.jobs[job]);
    CurrentIsNewest(s);
    if s' == EndJob(s, job) {
      EndJobKeepsInv(s, job);
    } else {
      PhaseStep(s, job, s'.jobs[job].phase);
    }
  }

  lemma StepStartKeepsInv(s: State, job: nat, dek: Dek, s': State)
    requires Inv(s) && DoStepStart(s, job, dek) == Some(s')
    ensures Inv(s')
  {
    match s.jobs[job].phase
    case Inserting(_, _) => InsertStartKeepsInv(s, job, dek, s');
    case Upserting(_, _) => UpsertStartKeepsInv(s, job, dek, s');
    case Reloading(_, _) => ReloadStartKeepsInv(s, job, dek, s');
    case _ => QueryStartKeepsInv(s, job, dek, s');
  }

  // --- Steps that write rows ------------------------------------------------------------

  /** A transaction that replaces the rows and ends its call. */
  lemma RowsStep(s: State, id: nat, rows': Rows, truth': map<RowId, seq<Text>>)
    requires Inv(s) && id in s.jobs
    requires RowsInv(rows', truth', s.minted, s.floor) && FactsInv(rows')
    requires forall v: nat :: NoRowBelow(s, v) && NoWriterBelow(s, v) && v <= |s.minted| ==>
               forall r :: r in rows' ==> v <= rows'[r].version
    ensures Inv(EndJob(s, id).(rows := rows', truth := truth'))
  {
    var s' := EndJob(s, id).(rows := rows', truth := truth');
    forall k | k in s'.jobs ensures JobInv(s', k, s'.jobs[k]) {
      assert JobInv(s, k, s.jobs[k]);
    }
  }

  /** Inserting or overwriting rows sealed with the key of their own version. */
  lemma PutsKeepRows(rows: Rows, truth: map<RowId, seq<Text>>, minted: seq<Dek>, floor: nat,
                     puts: map<RowId, Put>, v: nat, key: Dek)
    requires RowsInv(rows, truth, minted, floor)
    requires floor <= v && KeyInv(minted, v, Some(key))
    ensures RowsInv(rows + SealedRows(puts, v, key), truth + TextsOf(puts), minted, floor)
  {
    var rows' := rows + SealedRows(puts, v, key);
    forall r | r in rows' ensures RowInv(rows'[r], (truth + TextsOf(puts))[r], minted, floor) {
      if r !in puts {
        assert RowInv(rows[r], truth[r], minted, floor);
      }
    }
  }

  lemma PutsKeepFacts(s: State, puts: map<RowId, Put>, v: nat, key: Dek)
    requires FactsInv(s.rows) && Insertable(s, puts, map[])
    ensures FactsInv(s.rows + SealedRows(puts, v, key))
  {
    var rows' := s.rows + SealedRows(puts, v, key);
    forall r | r in rows' ensures FactInv(rows', r) {
      if r in s.rows {
        assert FactInv(s.rows, r);
      }
    }
  }

  lemma MergesKeepFacts(rows: Rows, merges: map<RowId, Put>, v: nat, key: Dek)
    requires FactsInv(rows) && forall r :: r in merges ==> r.table == Entities
    ensures FactsInv(rows + SealedRows(merges, v, key))
  {
    var rows' := rows + SealedRows(merges, v, key);
    forall r | r in rows' ensures FactInv(rows', r) {
      if r in rows {
        assert FactInv(rows, r);
      }
    }
  }

  lemma CommitRows(s: State, puts: map<RowId, Put>, merges: map<RowId, Put>, v: nat, key: Dek, top: nat, topKey: Dek)
    requires Inv(s) && Insertable(s, puts, merges)
    requires s.floor <= v && KeyInv(s.minted, v, Some(key))
    requires s.floor <= top == |s.minted| && KeyInv(s.minted, top, Some(topKey))
    ensures var rows' := s.rows + SealedRows(puts, v, key) + SealedRows(merges, top, topKey);
            && RowsInv(rows', s.truth + TextsOf(puts) + TextsOf(merges), s.minted, s.floor)
            && FactsInv(rows')
            && forall r :: r in rows' ==> (r in s.rows && rows'[r] == s.rows[r]) || rows'[r].version == v || rows'[r].version == top
  {
    var rows1, truth1 := s.rows + SealedRows(puts, v, key), s.truth + TextsOf(puts);
    PutsKeepRows(s.rows, s.truth, s.minted, s.floor, puts, v, key);
    PutsKeepFacts(s, puts, v, key);
    PutsKeepRows(rows1, truth1, s.minted, s.floor, merges, top, topKey);
    MergesKeepFacts(rows1, merges, top, topKey);
  }

  /** A commit either wrote everything under the resolved and the current key, or nothing. */
  lemma CommitOutcome(s: State, job: nat, puts: map<RowId, Put>, merges: map<RowId, Put>, s': State)
    requires DoCommit(s, job, puts, merges) == Some(s')
    ensures job in s.jobs && s.jobs[job].Writing? && s.jobs[job].key.Some? && Insertable(s, puts, merges)
    ensures || s' == EndJob(s, job)
            || (var j, key := s.jobs[job], Find(s, s.jobs[job].proc, Current(s.keys));
                && key.Some?
                && s' == EndJob(s, job).(
                     rows := s.rows + SealedRows(puts, j.version, j.key.value) + SealedRows(merges, Current(s.keys), key.value),
                     truth := s.truth + TextsOf(puts) + TextsOf(merges)))
  {
  }

  lemma FullCommitKeepsInv(s: State, job: nat, puts: map<RowId, Put>, merges: map<RowId, Put>, v: nat, key: Dek)
    requires Inv(s) && job in s.jobs && s.jobs[job].Writing? && s.jobs[job].key.Some? && Insertable(s, puts, merges)
    requires v == |s.minted| && s.floor <= v && KeyInv(s.minted, v, Some(key))
    ensures var j := s.jobs[job];
            Inv(EndJob(s, job).(
              rows := s.rows + SealedRows(puts, j.version, j.key.value) + SealedRows(merges, v, key),
              truth := s.truth + TextsOf(puts) + TextsOf(merges)))
  {
    var j := s.jobs[job];
    assert JobInv(s, job, j);
    CommitRows(s, puts, merges, j.version, j.key.value, v, key);
    RowsStep(s, job, s.rows + SealedRows(puts, j.version, j.key.value) + SealedRows(merges, v, key),
             s.truth + TextsOf(puts) + TextsOf(merges));
  }

  lemma CommitKeepsInv(s: State, job: nat, puts: map<RowId, Put>, merges: map<RowId, Put>, s': State)
    requires Inv(s) && DoCommit(s, job, puts, merges) == Some(s')
    ensures Inv(s')
  {
    CommitOutcome(s, job, puts, merges, s');
    EndJobKeepsInv(s, job);
    if s' != EndJob(s, job) {
      var v := Current(s.keys);
      assert JobInv(s, job, s.jobs[job]);
      CurrentIsNewest(s);
      FindIsMint(s, s.jobs[job].proc, v);
      FullCommitKeepsInv(s, job, puts, merges, v, Find(s, s.jobs[job].proc, v).value);
    }
  }

  /** A batch moves a summary and every one of its facts, or neither. */
  lemma MigrateKeepsFacts(rows: Rows, table: Table, ids: set<nat>, from: nat, to: nat, fromKey: Dek, toKey: Dek, rows': Rows)
    requires FactsInv(rows) && table != Facts && ids <= Pending(rows, table, from)
    requires MigrateRows(rows, table, ids, from, to, fromKey, toKey) == Some(rows')
    ensures FactsInv(rows')
  {
    forall r | r in rows' ensures FactInv(rows', r) {
      assert FactInv(rows, r);
      if r.table == Facts {
        var parent := RowId(Summaries, rows[r].owner);
        InPending(rows, table, from, parent.id);
      }
    }
  }

  /** A batch leaves every row sealed with its version's key and saying what it said. */
  lemma MigrateKeepsRows(s: State, table: Table, ids: set<nat>, from: nat, fromKey: Dek, toKey: Dek, rows': Rows)
    requires Inv(s) && ids <= Pending(s.rows, table, from) && ids != {}
    requires KeyInv(s.minted, from, Some(fromKey)) && KeyInv(s.minted, from + 1, Some(toKey))
    requires MigrateRows(s.rows, table, ids, from, from + 1, fromKey, toKey) == Some(rows')
    ensures RowsInv(rows', s.truth, s.minted, s.floor)
    ensures rows'.Keys == s.rows.Keys && forall r :: r in rows' ==> s.rows[r].version <= rows'[r].version
  {
    forall r | r in rows' ensures RowInv(rows'[r], s.truth[r], s.minted, s.floor) && s.rows[r].version <= rows'[r].version {
      MovedRowsAreOld(s.rows, table, ids, from, r);
      assert RowInv(s.rows[r], s.truth[r], s.minted, s.floor);
    }
  }

  lemma EmptyBatchKeepsInv(s: State, job: nat, s': State)
    requires Inv(s) && job in s.jobs && s.jobs[job].Continuing?
    requires s' == WithJob(s, job, s.jobs[job].(cursor := NextCursor(s.jobs[job].cursor), turn := AdvanceTurn))
    ensures Inv(s')
  {
    assert JobInv(s, job, s.jobs[job]);
    LocalStep(s, s', job);
  }

  lemma FullBatchKeepsInv(s: State, job: nat, ids: set<nat>, rows': Rows)
    requires Inv(s) && job in s.jobs && Ready(s.jobs[job]) && s.jobs[job].cursor.On?
    requires ids != {} && ids <= Pending(s.rows, s.jobs[job].cursor.table, s.jobs[job].from)
    requires var j := s.jobs[job];
             MigrateRows(s.rows, j.cursor.table, ids, j.from, j.to, j.fromKey.value, j.toKey.value) == Some(rows')
    ensures Inv(EndJob(s, job).(rows := rows'))
  {
    var j := s.jobs[job];
    assert JobInv(s, job, j);
    MigrateKeepsFacts(s.rows, j.cursor.table, ids, j.from, j.to, j.fromKey.value, j.toKey.value, rows');
    MigrateKeepsRows(s, j.cursor.table, ids, j.from, j.fromKey.value, j.toKey.value, rows');
    RowsStep(s, job, rows', s.truth);
  }

  lemma BatchKeepsInv(s: State, job: nat, size: int, s': State)
    requires Inv(s) && DoBatch(s, job, size) == Some(s')
    ensures Inv(s')
  {
    var j := s.jobs[job];
    var ids := BatchOf(s.rows, j.cursor.table, j.from, ClampBatchSize(size));
    var rows' := MigrateRows(s.rows, j.cursor.table, ids, j.from, j.to, j.fromKey.value, j.toKey.value);
    if ids == {} {
      EmptyBatchKeepsInv(s, job, s');
    } else if rows'.Some? {
      FullBatchKeepsInv(s, job, ids, rows'.value);
    } else {
      EndJobKeepsInv(s, job);
    }
  }

  lemma MovedRowsAreOld(rows: Rows, table: Table, ids: set<nat>, from: nat, r: RowId)
    requires r in rows && ids <= Pending(rows, table, from)
    ensures r in Moved(rows, table, ids, from) ==> rows[r].version == from
  {
    InPending(rows, table, from, r.id);
  }

  // --- Steps on the rotation row and the key table --------------------------------------------

  lemma AdvanceKeepsInv(s: State, job: nat, s': State)
    requires Inv(s) && DoAdvance(s, job) == Some(s')
    ensures Inv(s')
  {
    forall k | k in s'.jobs ensures JobInv(s', k, s'.jobs[k]) {
      assert JobInv(s, k, s.jobs[k]);
    }
  }

  lemma CompleteKeepsInv(s: State, job: nat, s': State)
    requires Inv(s) && DoComplete(s, job) == Some(s')
    ensures Inv(s')
  {
    forall k | k in s'.jobs ensures JobInv(s', k, s'.jobs[k]) {
      assert JobInv(s, k, s.jobs[k]);
    }
  }

  lemma DeletePruneKeepsInv(s: State, job: nat, s': State)
    requires Inv(s) && DoDeletePrune(s, job) == Some(s')
    ensures Inv(s')
  {
    assert JobInv(s, job, s.jobs[job]);
    forall r | r in s'.rows ensures RowInv(s'.rows[r], s'.truth[r], s'.minted, s'.floor) {
      assert RowInv(s.rows[r], s.truth[r], s.minted, s.floor);
    }
    forall k | k in s'.jobs ensures JobInv(s', k, s'.jobs[k]) {
      assert JobInv(s, k, s.jobs[k]);
    }
  }

  predicate WritesOrMigrates(e: Event) {
    || e.BeginWrite? || e.CreateFirst? || e.ResolveWrite? || e.Commit? || e.BeginStart? || e.StepStart?
    || e.BeginContinue? || e.ResolveContinue? || e.Batch? || e.Advance? || e.Complete?
  }

  lemma WriteStepKeepsInv(s: State, e: Event, s': State)
    requires Inv(s) && Step(s, e) == Some(s') && WritesOrMigrates(e)
    ensures Inv(s')
  {
    match e
    case BeginWrite(job, proc) => BeginWriteKeepsInv(s, job, proc, s');
    case CreateFirst(job, dek) => CreateFirstKeepsInv(s, job, dek, s');
    case ResolveWrite(job) => ResolveWriteKeepsInv(s, job, s');
    case Commit(job, puts, merges) => CommitKeepsInv(s, job, puts, merges, s');
    case BeginStart(job, proc) => BeginStartKeepsInv(s, job, proc, s');
    case StepStart(job, dek) => StepStartKeepsInv(s, job, dek, s');
    case BeginContinue(job, proc) => BeginContinueKeepsInv(s, job, proc, s');
    case ResolveContinue(job) => ResolveContinueKeepsInv(s, job, s');
    case Batch(job, size) => BatchKeepsInv(s, job, size, s');
    case Advance(job) => AdvanceKeepsInv(s, job, s');
    case Complete(job) => CompleteKeepsInv(s, job, s');
  }

  lemma OtherStepKeepsInv(s: State, e: Event, s': State)
    requires Inv(s) && Step(s, e) == Some(s') && Careful(s, e) && !WritesOrMigrates(e)
    ensures Inv(s')
  {
    match e
    case BeginPrune(job, proc) => BeginPruneKeepsInv(s, job, proc, s');
    case CountPrune(job) => CountPruneKeepsInv(s, job, s');
    case DeletePrune(job) => DeletePruneKeepsInv(s, job, s');
    case EvictPrune(job) => EvictPruneKeepsInv(s, job, s');
    case BeginRead(job, proc, row) => BeginReadKeepsInv(s, job, proc, row, s');
    case ResolveRead(job) => ResolveReadKeepsInv(s, job, s');
    case Refetch(job) => RefetchKeepsInv(s, job, s');
    case LoadKey(proc, version) => LoadKeyKeepsInv(s, proc, version);
    case Restart(proc) => RestartKeepsInv(s, proc);
    case Crash(job) => EndJobKeepsInv(s, job);
  }

  /** Every step keeps the invariant, given that no prune overtakes a writer on an older version. */
  lemma StepKeepsInv(s: State, e: Event, s': State)
    requires Inv(s) && Step(s, e) == Some(s') && Careful(s, e)
    ensures Inv(s')
  {
    if WritesOrMigrates(e) {
      WriteStepKeepsInv(s, e, s');
    } else {
      OtherStepKeepsInv(s, e, s');
    }
  }
}
