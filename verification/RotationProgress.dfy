/**
  Why a rotation comes to an end whatever runs beside it: no step of the protocol
  ever adds to the distance between the rows and the newest version, and every
  batch that moves rows reduces it.
 */
module RotationProgress {
  import opened Basics
  import opened FieldCrypto
  import opened KeyVersions
  import opened RowTables
  import opened RotationProtocol
  import opened RotationSafety
  import opened RotationTheorems

  function Behind(row: Row, to: nat): nat {
    if row.version < to then to - row.version else 0
  }

  /** How many versions the chosen rows are behind, in all. */
  ghost function LagOf(rows: Rows, ids: set<RowId>, to: nat): nat
    requires ids <= rows.Keys
  {
    if ids == {} then 0
    else
      var r :| r in ids;
      Behind(rows[r], to) + LagOf(rows, ids - {r}, to)
  }

  ghost function Lag(rows: Rows, to: nat): nat {
    LagOf(rows, rows.Keys, to)
  }

  lemma {:induction false} LagTakesAny(rows: Rows, ids: set<RowId>, to: nat, x: RowId)
    requires ids <= rows.Keys && x in ids
    ensures LagOf(rows, ids, to) == Behind(rows[x], to) + LagOf(rows, ids - {x}, to)
    decreases ids
  {
    var r :| r in ids && LagOf(rows, ids, to) == Behind(rows[r], to) + LagOf(rows, ids - {r}, to);
    if r != x {
      LagTakesAny(rows, ids - {r}, to, x);
      LagTakesAny(rows, ids - {x}, to, r);
      assert ids - {r} - {x} == ids - {x} - {r};
    }
  }

  /** Rows that only move forward, and new rows that are up to date, do not add to the lag. */
  lemma {:induction false} LagFalls(rows: Rows, ids: set<RowId>, rows': Rows, ids': set<RowId>, to: nat)
    requires ids <= rows.Keys && ids' <= rows'.Keys && ids <= ids'
    requires forall r :: r in ids ==> Behind(rows'[r], to) <= Behind(rows[r], to)
    requires forall r :: r in ids' - ids ==> Behind(rows'[r], to) == 0
    ensures LagOf(rows', ids', to) <= LagOf(rows, ids, to)
    decreases ids'
  {
    if ids' != {} {
      var x :| x in ids';
      LagTakesAny(rows', ids', to, x);
      if x in ids {
        LagTakesAny(rows, ids, to, x);
        LagFalls(rows, ids - {x}, rows', ids' - {x}, to);
      } else {
        LagFalls(rows, ids, rows', ids' - {x}, to);
      }
    }
  }

  lemma LagFallsStrictly(rows: Rows, rows': Rows, to: nat, x: RowId)
    requires rows'.Keys == rows.Keys && x in rows
    requires forall r :: r in rows ==> Behind(rows'[r], to) <= Behind(rows[r], to)
    requires Behind(rows'[x], to) < Behind(rows[x], to)
    ensures Lag(rows', to) < Lag(rows, to)
  {
    LagTakesAny(rows, rows.Keys, to, x);
    LagTakesAny(rows', rows'.Keys, to, x);
    LagFalls(rows, rows.Keys - {x}, rows', rows'.Keys - {x}, to);
  }

  // --- Steps ------------------------------------------------------------------------

  /** The event is a batch below the target that will move at least one row. */
  ghost predicate Moves(s: State, e: Event, target: nat) {
    && e.Batch? && e.job in s.jobs && Ready(s.jobs[e.job])
    && s.jobs[e.job].turn == MigrateTurn && s.jobs[e.job].cursor.On?
    && s.jobs[e.job].to <= target
    && BatchOf(s.rows, s.jobs[e.job].cursor.table, s.jobs[e.job].from, ClampBatchSize(e.size)) != {}
  }

  /** What one batch transaction does to the distances. */
  lemma MigrateBringsForward(rows: Rows, table: Table, ids: set<nat>, from: nat, fromKey: Dek, toKey: Dek, target: nat, rows': Rows)
    requires ids <= Pending(rows, table, from)
    requires MigrateRows(rows, table, ids, from, from + 1, fromKey, toKey) == Some(rows')
    ensures forall r :: r in rows ==> Behind(rows'[r], target) <= Behind(rows[r], target)
    ensures Lag(rows', target) <= Lag(rows, target)
    ensures ids != {} && from < target ==> Lag(rows', target) < Lag(rows, target)
  {
    forall r | r in rows ensures Behind(rows'[r], target) <= Behind(rows[r], target) {
      MovedRowsAreOld(rows, table, ids, from, r);
    }
    LagFalls(rows, rows.Keys, rows', rows'.Keys, target);
    if ids != {} && from < target {
      var id :| id in ids;
      InPending(rows, table, from, id);
      LagFallsStrictly(rows, rows', target, RowId(table, id));
    }
  }

  /** A batch never fails to open a row it found, and always brings rows forward. */
  lemma BatchReducesLag(s: State, job: nat, size: int, target: nat, s': State)
    requires Inv(s) && DoBatch(s, job, size) == Some(s')
    ensures Lag(s'.rows, target) <= Lag(s.rows, target)
    ensures Moves(s, Batch(job, size), target) ==> Lag(s'.rows, target) < Lag(s.rows, target)
  {
    var j := s.jobs[job];
    var ids := BatchOf(s.rows, j.cursor.table, j.from, ClampBatchSize(size));
    if ids != {} {
      FullBatchReducesLag(s, job, ids, target);
    }
  }

  lemma FullBatchReducesLag(s: State, job: nat, ids: set<nat>, target: nat)
    requires Inv(s) && job in s.jobs && Ready(s.jobs[job]) && s.jobs[job].cursor.On?
    requires ids != {} && ids <= Pending(s.rows, s.jobs[job].cursor.table, s.jobs[job].from)
    ensures var j := s.jobs[job];
            var m := MigrateRows(s.rows, j.cursor.table, ids, j.from, j.to, j.fromKey.value, j.toKey.value);
            && m.Some? && Lag(m.value, target) <= Lag(s.rows, target)
            && (j.to <= target ==> Lag(m.value, target) < Lag(s.rows, target))
  {
    var j := s.jobs[job];
    assert JobInv(s, job, j);
    BatchOpensItsRows(s, j.cursor.table, ids, j.from, j.fromKey.value);
    var rows' := MigrateRows(s.rows, j.cursor.table, ids, j.from, j.to, j.fromKey.value, j.toKey.value).value;
    MigrateBringsForward(s.rows, j.cursor.table, ids, j.from, j.fromKey.value, j.toKey.value, target, rows');
  }

  lemma BatchOpensItsRows(s: State, table: Table, ids: set<nat>, from: nat, fromKey: Dek)
    requires Inv(s) && ids <= Pending(s.rows, table, from) && KeyInv(s.minted, from, Some(fromKey))
    ensures forall r :: r in Moved(s.rows, table, ids, from) ==> SealedWith(s.rows[r].cells, fromKey)
  {
    forall r | r in Moved(s.rows, table, ids, from) ensures SealedWith(s.rows[r].cells, fromKey) {
      MovedRowsAreOld(s.rows, table, ids, from, r);
      assert RowInv(s.rows[r], s.truth[r], s.minted, s.floor);
    }
  }

  lemma PutsKeepLag(rows: Rows, puts: map<RowId, Put>, v: nat, key: Dek, target: nat)
    requires target <= v
    ensures Lag(rows + SealedRows(puts, v, key), target) <= Lag(rows, target)
  {
    var rows' := rows + SealedRows(puts, v, key);
    LagFalls(rows, rows.Keys, rows', rows'.Keys, target);
  }

  lemma CommitKeepsLag(s: State, job: nat, puts: map<RowId, Put>, merges: map<RowId, Put>, target: nat, s': State)
    requires Inv(s) && DoCommit(s, job, puts, merges) == Some(s')
    requires NoWriterBelow(s, target) && target <= |s.minted|
    ensures Lag(s'.rows, target) <= Lag(s.rows, target)
  {
    CommitOutcome(s, job, puts, merges, s');
    if s' != EndJob(s, job) {
      CurrentIsNewest(s);
      var j, top := s.jobs[job], Current(s.keys);
      PutsKeepLag(s.rows, puts, j.version, j.key.value, target);
      PutsKeepLag(s.rows + SealedRows(puts, j.version, j.key.value), merges, top, Find(s, j.proc, top).value, target);
    }
  }

  lemma OtherStepsMakeNoWriter(s: State, e: Event, s': State, k: nat)
    requires Step(s, e) == Some(s') && !e.BeginWrite? && !e.CreateFirst? && !e.ResolveWrite?
    requires k in s'.jobs && (s'.jobs[k].Writing? || s'.jobs[k].Creating?)
    ensures k in s.jobs && s'.jobs[k] == s.jobs[k]
  {
    if !e.LoadKey? && !e.Restart? && !e.Crash? {
      assert OthersKeepTheirJob(s, s', e.job) && NoWriterLeft(s', e.job);
      assert k in s'.jobs - {e.job};
      assert (s'.jobs - {e.job})[k] == (s.jobs - {e.job})[k];
    }
  }

  lemma WriterStepsStayHigh(s: State, job: nat, proc: nat, dek: Dek, target: nat)
    requires Inv(s) && NoWriterBelow(s, target) && 1 <= target <= |s.minted|
    ensures DoBeginWrite(s, job, proc).Some? ==> NoWriterBelow(DoBeginWrite(s, job, proc).value, target)
    ensures DoCreateFirst(s, job, dek).Some? ==> NoWriterBelow(DoCreateFirst(s, job, dek).value, target)
    ensures DoResolveWrite(s, job).Some? ==> NoWriterBelow(DoResolveWrite(s, job).value, target)
  {
    CurrentIsNewest(s);
  }

  lemma OtherStepsStayHigh(s: State, e: Event, target: nat, s': State)
    requires Step(s, e) == Some(s') && !e.BeginWrite? && !e.CreateFirst? && !e.ResolveWrite?
    requires NoWriterBelow(s, target)
    ensures NoWriterBelow(s', target)
  {
    forall k | k in s'.jobs
      ensures (s'.jobs[k].Writing? ==> target <= s'.jobs[k].version) && (s'.jobs[k].Creating? ==> target <= 1)
    {
      if s'.jobs[k].Writing? || s'.jobs[k].Creating? {
        OtherStepsMakeNoWriter(s, e, s', k);
      }
    }
  }

  /** Every new writer takes the newest version, so none ever goes below an existing one. */
  lemma LowWritersDoNotAppear(s: State, e: Event, target: nat, s': State)
    requires Inv(s) && Step(s, e) == Some(s') && NoWriterBelow(s, target) && 1 <= target <= |s.minted|
    ensures NoWriterBelow(s', target)
  {
    match e
    case BeginWrite(job, proc) => WriterStepsStayHigh(s, job, proc, 0, target);
    case CreateFirst(job, dek) => WriterStepsStayHigh(s, job, 0, dek, target);
    case ResolveWrite(job) => WriterStepsStayHigh(s, job, 0, 0, target);
    case _ => OtherStepsStayHigh(s, e, target, s');
  }

  lemma StepKeepsLag(s: State, e: Event, target: nat, s': State)
    requires Inv(s) && Step(s, e) == Some(s') && NoWriterBelow(s, target) && 1 <= target <= |s.minted|
    ensures Lag(s'.rows, target) <= Lag(s.rows, target)
    ensures Moves(s, e, target) ==> Lag(s'.rows, target) < Lag(s.rows, target)
  {
    match e
    case Commit(job, puts, merges) => CommitKeepsLag(s, job, puts, merges, target, s');
    case Batch(job, size) => BatchReducesLag(s, job, size, target, s');
    case _ => OtherStepsKeepRows(s, e, s');
  }

  // --- Whole runs -------------------------------------------------------------------

  /** How many batches below the target moved rows in the first n steps. */
  ghost function MovingBatches(states: seq<State>, events: seq<Event>, target: nat, n: nat): nat
    requires |states| == |events| + 1 && n <= |events|
  {
    if n == 0 then 0
    else MovingBatches(states, events, target, n - 1) + if Moves(states[n - 1], events[n - 1], target) then 1 else 0
  }

  lemma BoundedStep(states: seq<State>, events: seq<Event>, target: nat, n: nat)
    requires CarefulPath(states, events) && n < |events| && Inv(states[0])
    requires NoWriterBelow(states[n], target) && 1 <= target <= |states[n].minted|
    ensures Lag(states[n + 1].rows, target) + (if Moves(states[n], events[n], target) then 1 else 0)
            <= Lag(states[n].rows, target)
    ensures NoWriterBelow(states[n + 1], target) && target <= |states[n + 1].minted|
  {
    PathKeepsInv(states, events, n);
    assert Step(states[n], events[n]) == Some(states[n + 1]);
    StepKeepsLag(states[n], events[n], target, states[n + 1]);
    LowWritersDoNotAppear(states[n], events[n], target, states[n + 1]);
    StepOnlyAddsVersions(states[n], events[n], states[n + 1]);
  }

  /**
    Once no in-flight writer holds a version below the target, only so many
    batches can still move rows towards it, whatever else runs in between: each
    one uses up part of the lag and nothing ever adds to it. So a driver that
    calls Continue until a batch comes back empty comes to an end.
   */
  lemma {:induction false} MovingBatchesAreBounded(states: seq<State>, events: seq<Event>, target: nat, n: nat)
    requires CarefulPath(states, events) && n <= |events|
    requires Inv(states[0]) && NoWriterBelow(states[0], target) && 1 <= target <= |states[0].minted|
    ensures MovingBatches(states, events, target, n) + Lag(states[n].rows, target) <= Lag(states[0].rows, target)
    ensures NoWriterBelow(states[n], target) && target <= |states[n].minted|
    decreases n
  {
    if n > 0 {
      MovingBatchesAreBounded(states, events, target, n - 1);
      BoundedStep(states, events, target, n - 1);
    }
  }
}
