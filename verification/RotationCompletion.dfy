/**
  What the tables hold when an online rotation completes, whatever runs beside
  it: writers on the new version, other Continue calls, readers, prunes, crashes.
 */
module RotationCompletion {
  import opened Basics
  import opened FieldCrypto
  import opened KeyVersions
  import opened RowTables
  import opened RotationProtocol
  import opened RotationSafety
  import opened RotationTheorems
  import opened RotationProgress
  import RotateRunner

  // --- What a rotation keeps while it is in progress -----------------------------------

  ghost predicate NoneOn(rows: Rows, t: Table, v: nat) {
    forall r :: r in rows && r.table == t ==> rows[r].version != v
  }

  /** The tables a rotation walks that are not on the cursor's way any more have no row on the version. */
  ghost predicate Passed(rows: Rows, c: Cursor, v: nat) {
    forall t :: t != Facts && t !in RotateRunner.TablesFrom(c) ==> NoneOn(rows, t, v)
  }

  /** No in-flight writer holds this very version, or is about to create it. */
  ghost predicate NoWriterOn(s: State, v: nat) {
    forall j :: j in s.jobs ==>
      && (s.jobs[j].Writing? ==> s.jobs[j].version != v)
      && (s.jobs[j].Creating? ==> v != 1)
  }

  /** A deleted key that the process has not kept either. */
  ghost predicate Gone(s: State, proc: nat, v: nat) {
    v < s.floor && v !in CacheOf(s, proc)
  }

  /** A Continue call that will never have both its keys. */
  ghost predicate Stuck(s: State, j: Job) {
    j.Continuing? && ((j.fromKey.None? && Gone(s, j.proc, j.from)) || (j.toKey.None? && Gone(s, j.proc, j.to)))
  }

  /** An in-flight Continue is stuck, or of this rotation and has left nothing behind its cursor. */
  ghost predicate OwnContinue(s: State, j: nat, from: nat)
    requires j in s.jobs
  {
    s.jobs[j].Continuing? && !Stuck(s, s.jobs[j]) ==>
      && s.jobs[j].from == from && Passed(s.rows, s.jobs[j].cursor, from)
      && (s.jobs[j].turn == CompleteTurn ==> s.jobs[j].cursor == Finished)
  }

  /**
    The rotation from this version is in progress, no writer is left on it, and
    every Continue in flight that can go on is its own.
   */
  ghost predicate Clear(s: State, from: nat) {
    && Names(s, (from, from + 1)) && NoWriterOn(s, from)
    && Passed(s.rows, s.rotation.value.cursor, from)
    && forall j :: j in s.jobs ==> OwnContinue(s, j, from)
  }

  /** No row turned up on the version. */
  ghost predicate NoneAdded(rows: Rows, rows': Rows, v: nat) {
    forall r :: r in rows' && rows'[r].version == v ==> r in rows && rows[r].version == v
  }

  lemma PassedStays(rows: Rows, rows': Rows, c: Cursor, v: nat)
    requires Passed(rows, c, v) && NoneAdded(rows, rows', v)
    ensures Passed(rows', c, v)
  {
    forall t | t != Facts && t !in RotateRunner.TablesFrom(c) ensures NoneOn(rows', t, v) {
      assert NoneOn(rows, t, v);
    }
  }

  /** An empty batch is proof that its table is done. */
  lemma PassedOne(rows: Rows, t: Table, v: nat, size: nat)
    requires Passed(rows, On(t), v) && t != Facts && size >= 1 && BatchOf(rows, t, v, size) == {}
    ensures Passed(rows, NextCursor(On(t)), v)
  {
    assert |Pending(rows, t, v)| == 0;
    forall u | u != Facts && u !in RotateRunner.TablesFrom(NextCursor(On(t))) ensures NoneOn(rows, u, v) {
      if u == t {
        forall r | r in rows && r.table == t ensures rows[r].version != v {
          InPending(rows, t, v, r.id);
        }
      } else {
        assert u !in RotateRunner.TablesFrom(On(t));
        assert NoneOn(rows, u, v);
      }
    }
  }

  lemma CommitAddsNone(s: State, job: nat, puts: map<RowId, Put>, merges: map<RowId, Put>, v: nat, s': State)
    requires Inv(s) && DoCommit(s, job, puts, merges) == Some(s') && NoWriterOn(s, v) && v != |s.minted|
    ensures NoneAdded(s.rows, s'.rows, v)
  {
    CommitOutcome(s, job, puts, merges, s');
    CurrentIsNewest(s);
  }

  lemma BatchAddsNone(s: State, job: nat, size: int, v: nat, s': State)
    requires DoBatch(s, job, size) == Some(s') && s.jobs[job].to != v
    ensures NoneAdded(s.rows, s'.rows, v)
  {
  }

  /** No step puts a row on a version that is neither the newest nor held by a writer nor a rotation's goal. */
  lemma StepAddsNone(s: State, e: Event, v: nat, s': State)
    requires Inv(s) && Step(s, e) == Some(s') && NoWriterOn(s, v) && v != |s.minted|
    requires e.Batch? ==> e.job in s.jobs && s.jobs[e.job].Continuing? && s.jobs[e.job].to != v
    ensures NoneAdded(s.rows, s'.rows, v)
  {
    match e
    case Commit(job, puts, merges) => CommitAddsNone(s, job, puts, merges, v, s');
    case Batch(job, size) => BatchAddsNone(s, job, size, v, s');
    case _ => OtherStepsKeepRows(s, e, s');
  }

  lemma WriterStepsStayOff(s: State, job: nat, proc: nat, dek: Dek, v: nat)
    requires Inv(s) && NoWriterOn(s, v) && v < |s.minted|
    ensures DoBeginWrite(s, job, proc).Some? ==> NoWriterOn(DoBeginWrite(s, job, proc).value, v)
    ensures DoCreateFirst(s, job, dek).Some? ==> NoWriterOn(DoCreateFirst(s, job, dek).value, v)
    ensures DoResolveWrite(s, job).Some? ==> NoWriterOn(DoResolveWrite(s, job).value, v)
  {
    CurrentIsNewest(s);
  }

  lemma OtherStepsStayOff(s: State, e: Event, v: nat, s': State)
    requires Step(s, e) == Some(s') && !e.BeginWrite? && !e.CreateFirst? && !e.ResolveWrite? && NoWriterOn(s, v)
    ensures NoWriterOn(s', v)
  {
    forall k | k in s'.jobs ensures (s'.jobs[k].Writing? ==> s'.jobs[k].version != v) && (s'.jobs[k].Creating? ==> v != 1) {
      if s'.jobs[k].Writing? || s'.jobs[k].Creating? {
        OtherStepsMakeNoWriter(s, e, s', k);
      }
    }
  }

  /** New writers take the newest version, so none ever comes to hold an older one. */
  lemma WritersStayOff(s: State, e: Event, v: nat, s': State)
    requires Inv(s) && Step(s, e) == Some(s') && NoWriterOn(s, v) && v < |s.minted|
    ensures NoWriterOn(s', v)
  {
    match e
    case BeginWrite(job, proc) => WriterStepsStayOff(s, job, proc, 0, v);
    case CreateFirst(job, dek) => WriterStepsStayOff(s, job, 0, dek, v);
    case ResolveWrite(job) => WriterStepsStayOff(s, job, 0, 0, v);
    case _ => OtherStepsStayOff(s, e, v, s');
  }

  predicate ContinueStep(e: Event) {
    e.BeginContinue? || e.ResolveContinue? || e.Batch? || e.Advance? || e.Complete?
  }

  /** Only a Continue call's own steps make or change a Continue job. */
  lemma OtherStepsMakeNoContinue(s: State, e: Event, s': State, k: nat)
    requires Step(s, e) == Some(s') && !ContinueStep(e) && k in s'.jobs && s'.jobs[k].Continuing?
    ensures k in s.jobs && s'.jobs[k] == s.jobs[k]
  {
    if !e.LoadKey? && !e.Restart? && !e.Crash? {
      assert OthersKeepTheirJob(s, s', e.job);
      if k != e.job {
        assert k in s'.jobs - {e.job};
        assert (s'.jobs - {e.job})[k] == (s.jobs - {e.job})[k];
      } else if WritesOrMigrates(e) {
        WriterMakesNoContinue(s, e, s');
      } else {
        ReaderMakesNoContinue(s, e, s');
      }
    }
  }

  lemma WriterMakesNoContinue(s: State, e: Event, s': State)
    requires Step(s, e) == Some(s') && WritesOrMigrates(e) && !ContinueStep(e)
    ensures e.job in s'.jobs ==> !s'.jobs[e.job].Continuing?
  {
  }

  lemma ReaderMakesNoContinue(s: State, e: Event, s': State)
    requires Step(s, e) == Some(s') && !WritesOrMigrates(e) && !e.LoadKey? && !e.Restart? && !e.Crash?
    ensures e.job in s'.jobs ==> !s'.jobs[e.job].Continuing?
  {
  }

  /** What is gone stays gone. */
  ghost predicate GoneStays(s: State, s': State) {
    forall proc, v :: Gone(s, proc, v) ==> Gone(s', proc, v)
  }

  lemma WarmKeepsGone(s: State, proc: nat, v: nat)
    requires Inv(s)
    ensures GoneStays(s, Warm(s, proc, v))
  {
    var s' := Warm(s, proc, v);
    forall p, w | Gone(s, p, w) ensures Gone(s', p, w) {
      assert w !in s.keys;
    }
  }

  predicate FetchesKey(e: Event) {
    e.ResolveWrite? || e.StepStart? || e.ResolveContinue? || e.ResolveRead? || e.LoadKey?
  }

  lemma StepKeepsGone(s: State, e: Event, s': State)
    requires Inv(s) && Step(s, e) == Some(s')
    ensures GoneStays(s, s')
  {
    if FetchesKey(e) {
      FetchKeepsGone(s, e, s');
    } else if e.EvictPrune? {
      EvictKeepsGone(s, e.job, s');
    } else {
      OtherStepKeepsGone(s, e, s');
    }
  }

  lemma FetchKeepsGone(s: State, e: Event, s': State)
    requires Inv(s) && Step(s, e) == Some(s') && FetchesKey(e)
    ensures GoneStays(s, s')
  {
    match e
    case ResolveWrite(job) => ResolveWriteKeepsGone(s, job, s');
    case StepStart(job, dek) => StartKeepsGone(s, job, dek, s');
    case ResolveContinue(job) => ResolveContinueKeepsGone(s, job, s');
    case ResolveRead(job) => ResolveReadKeepsGone(s, job, s');
    case LoadKey(proc, version) => WarmKeepsGone(s, proc, version);
  }

  lemma OtherStepKeepsGone(s: State, e: Event, s': State)
    requires Step(s, e) == Some(s') && !FetchesKey(e) && !e.EvictPrune?
    ensures GoneStays(s, s')
  {
    if !e.Restart? {
      OtherStepsKeepCaches(s, e, s');
    }
  }

  lemma ResolveWriteKeepsGone(s: State, job: nat, s': State)
    requires Inv(s) && DoResolveWrite(s, job) == Some(s')
    ensures GoneStays(s, s')
  {
    WarmKeepsGone(s, s.jobs[job].proc, s.jobs[job].version);
  }

  lemma ResolveContinueKeepsGone(s: State, job: nat, s': State)
    requires Inv(s) && DoResolveContinue(s, job) == Some(s')
    ensures GoneStays(s, s')
  {
    WarmKeepsGone(s, s.jobs[job].proc, if s.jobs[job].fromKey.None? then s.jobs[job].from else s.jobs[job].to);
  }

  lemma ResolveReadKeepsGone(s: State, job: nat, s': State)
    requires Inv(s) && DoResolveRead(s, job) == Some(s')
    ensures GoneStays(s, s')
  {
    WarmKeepsGone(s, s.jobs[job].proc, s.jobs[job].version);
  }

  lemma EvictKeepsGone(s: State, job: nat, s': State)
    requires DoEvictPrune(s, job) == Some(s')
    ensures GoneStays(s, s')
  {
  }

  lemma StartKeepsGone(s: State, job: nat, dek: Dek, s': State)
    requires Inv(s) && DoStepStart(s, job, dek) == Some(s')
    ensures GoneStays(s, s')
  {
    if s.jobs[job].phase.Reloading? {
      ReloadKeepsGone(s, job, dek, s');
    }
  }

  lemma ReloadKeepsGone(s: State, job: nat, dek: Dek, s': State)
    requires Inv(s) && DoStepStart(s, job, dek) == Some(s') && s.jobs[job].phase.Reloading?
    ensures GoneStays(s, s')
  {
    WarmKeepsGone(s, s.jobs[job].proc, s.jobs[job].phase.to);
  }

  lemma OtherStepsKeepCaches(s: State, e: Event, s': State)
    requires Step(s, e) == Some(s') && !FetchesKey(e) && !e.EvictPrune? && !e.Restart?
    ensures s.floor <= s'.floor && s'.caches == s.caches
  {
  }

  /** The other jobs in front of a step of one job. */
  lemma OtherOwnContinues(s: State, s': State, job: nat, from: nat)
    requires OthersKeepTheirJob(s, s', job) && NoneAdded(s.rows, s'.rows, from) && GoneStays(s, s')
    requires forall j :: j in s.jobs ==> OwnContinue(s, j, from)
    ensures forall j :: j in s'.jobs && j != job ==> OwnContinue(s', j, from)
  {
    forall j | j in s'.jobs && j != job ensures OwnContinue(s', j, from) {
      assert j in s'.jobs - {job};
      assert (s'.jobs - {job})[j] == (s.jobs - {job})[j];
      assert OwnContinue(s, j, from);
      if s.jobs[j].Continuing? && !Stuck(s, s.jobs[j]) {
        PassedStays(s.rows, s'.rows, s.jobs[j].cursor, from);
      }
    }
  }

  lemma BeginContinueKeepsClear(s: State, job: nat, proc: nat, from: nat, s': State)
    requires Inv(s) && Clear(s, from) && DoBeginContinue(s, job, proc) == Some(s')
    ensures forall j :: j in s'.jobs ==> OwnContinue(s', j, from)
  {
    StepKeepsGone(s, BeginContinue(job, proc), s');
    OtherOwnContinues(s, s', job, from);
  }

  lemma ResolveContinueKeepsClear(s: State, job: nat, from: nat, s': State)
    requires Inv(s) && Clear(s, from) && DoResolveContinue(s, job) == Some(s')
    ensures forall j :: j in s'.jobs ==> OwnContinue(s', j, from)
  {
    assert OwnContinue(s, job, from);
    StepKeepsGone(s, ResolveContinue(job), s');
    StuckStaysStuck(s, job, s');
    OtherOwnContinues(s, s', job, from);
  }

  lemma BatchKeepsClear(s: State, job: nat, size: int, from: nat, s': State)
    requires Inv(s) && Clear(s, from) && DoBatch(s, job, size) == Some(s') && NoneAdded(s.rows, s'.rows, from)
    ensures forall j :: j in s'.jobs ==> OwnContinue(s', j, from)
  {
    var j := s.jobs[job];
    assert OwnContinue(s, job, from) && JobInv(s, job, j);
    StepKeepsGone(s, Batch(job, size), s');
    OtherOwnContinues(s, s', job, from);
    if BatchOf(s.rows, j.cursor.table, j.from, ClampBatchSize(size)) == {} {
      PassedOne(s.rows, j.cursor.table, from, ClampBatchSize(size));
    }
  }

  lemma AdvanceKeepsClear(s: State, job: nat, from: nat, s': State)
    requires Inv(s) && Clear(s, from) && DoAdvance(s, job) == Some(s')
    ensures forall j :: j in s'.jobs ==> OwnContinue(s', j, from)
    ensures s'.rotation == Some(s.rotation.value.(cursor := s.jobs[job].cursor)) && Passed(s'.rows, s.jobs[job].cursor, from)
  {
    assert OwnContinue(s, job, from);
    StepKeepsGone(s, Advance(job), s');
    OtherOwnContinues(s, s', job, from);
  }

  lemma ContinueStepKeepsClear(s: State, e: Event, from: nat, s': State)
    requires Inv(s) && Clear(s, from) && Step(s, e) == Some(s') && ContinueStep(e) && !e.Complete?
    requires NoneAdded(s.rows, s'.rows, from)
    ensures forall j :: j in s'.jobs ==> OwnContinue(s', j, from)
    ensures s'.rotation.Some? && Passed(s'.rows, s'.rotation.value.cursor, from)
  {
    match e
    case BeginContinue(job, proc) => BeginContinueKeepsClear(s, job, proc, from, s');
    case ResolveContinue(job) => ResolveContinueKeepsClear(s, job, from, s');
    case Batch(job, size) =>
      BatchKeepsClear(s, job, size, from, s');
      PassedStays(s.rows, s'.rows, s.rotation.value.cursor, from);
    case Advance(job) => AdvanceKeepsClear(s, job, from, s');
  }

  /** While the rotation is in progress no step but a Start's upsert or a Continue's touches its row. */
  lemma OtherStepsKeepRotation(s: State, e: Event, s': State)
    requires Inv(s) && Step(s, e) == Some(s') && !ContinueStep(e)
    requires s.rotation.Some? && s.rotation.value.status == InProgress
    ensures s'.rotation == s.rotation
  {
    if e.StepStart? {
      assert JobInv(s, e.job, s.jobs[e.job]);
      assert DoStepStart(s, e.job, e.dek) == Some(s');
    }
  }

  lemma OtherStepKeepsClear(s: State, e: Event, from: nat, s': State)
    requires Inv(s) && Clear(s, from) && Step(s, e) == Some(s') && !ContinueStep(e)
    requires NoneAdded(s.rows, s'.rows, from)
    ensures forall j :: j in s'.jobs ==> OwnContinue(s', j, from)
    ensures s'.rotation.Some? && Passed(s'.rows, s'.rotation.value.cursor, from)
  {
    OtherStepsKeepRotation(s, e, s');
    StepKeepsGone(s, e, s');
    PassedStays(s.rows, s'.rows, s.rotation.value.cursor, from);
    forall j | j in s'.jobs ensures OwnContinue(s', j, from) {
      if s'.jobs[j].Continuing? {
        OtherStepsMakeNoContinue(s, e, s', j);
        assert OwnContinue(s, j, from);
        if !Stuck(s, s.jobs[j]) {
          PassedStays(s.rows, s'.rows, s.jobs[j].cursor, from);
        }
      }
    }
  }

  /** A batch under way in a clear rotation is one of its own, and so seals for the version after. */
  lemma OwnBatch(s: State, e: Event, from: nat, s': State)
    requires Inv(s) && Clear(s, from) && Step(s, e) == Some(s')
    ensures from + 1 == |s.minted|
    ensures e.Batch? ==> e.job in s.jobs && s.jobs[e.job].Continuing? && s.jobs[e.job].from == from && s.jobs[e.job].to == from + 1
  {
    if e.Batch? {
      assert OwnContinue(s, e.job, from) && JobInv(s, e.job, s.jobs[e.job]);
    }
  }

  lemma StepKeepsClear(s: State, e: Event, from: nat, s': State)
    requires Inv(s) && Clear(s, from) && Step(s, e) == Some(s') && !e.Complete?
    ensures Clear(s', from) && NoneAdded(s.rows, s'.rows, from)
  {
    OwnBatch(s, e, from, s');
    StepAddsNone(s, e, from, s');
    WritersStayOff(s, e, from, s');
    ProgressStep(s, e, s', (from, from + 1));
    if ContinueStep(e) {
      ContinueStepKeepsClear(s, e, from, s');
    } else {
      OtherStepKeepsClear(s, e, from, s');
    }
  }

  ghost predicate NoRowOn(rows: Rows, v: nat) {
    forall r :: r in rows ==> rows[r].version != v
  }

  /** When a clear rotation completes no row of any table, key facts included, is on its old version. */
  lemma CompleteLeavesNone(s: State, e: Event, from: nat, s': State)
    requires Inv(s) && Clear(s, from) && Step(s, e) == Some(s') && e.Complete?
    ensures NoRowOn(s'.rows, from) && s'.rows == s.rows
  {
    assert OwnContinue(s, e.job, from);
    forall r | r in s.rows ensures s.rows[r].version != from {
      assert FactInv(s.rows, r);
      var holder := if r.table == Facts then RowId(Summaries, s.rows[r].owner) else r;
      assert NoneOn(s.rows, holder.table, from);
    }
  }

  // --- Afterwards ---------------------------------------------------------------------------

  /** Nothing is on the version, and nothing in flight can put anything there. */
  ghost predicate Vacated(s: State, v: nat) {
    && NoRowOn(s.rows, v) && NoWriterOn(s, v) && v < |s.minted|
    && (s.rotation.Some? ==> s.rotation.value.to != v)
    && forall j :: j in s.jobs ==> NoGoal(s, j, v)
  }

  /** No Continue that can go on seals rows for the version. */
  ghost predicate NoGoal(s: State, j: nat, v: nat)
    requires j in s.jobs
  {
    s.jobs[j].Continuing? && !Stuck(s, s.jobs[j]) ==> s.jobs[j].to != v
  }

  lemma CompleteVacates(s: State, e: Event, from: nat, s': State)
    requires Inv(s) && Clear(s, from) && Step(s, e) == Some(s') && e.Complete?
    ensures Vacated(s', from)
  {
    CompleteLeavesNone(s, e, from, s');
    OwnBatch(s, e, from, s');
    WritersStayOff(s, e, from, s');
    StepKeepsGone(s, e, s');
    forall j | j in s'.jobs ensures NoGoal(s', j, from) {
      assert j in s.jobs && s'.jobs[j] == s.jobs[j];
      assert OwnContinue(s, j, from) && JobInv(s, j, s.jobs[j]);
    }
  }

  /** A rotation row that is new to the step is the newest pair. */
  lemma RotationStaysOff(s: State, e: Event, v: nat, s': State)
    requires Inv(s) && Step(s, e) == Some(s') && v < |s.minted|
    requires s.rotation.Some? ==> s.rotation.value.to != v
    ensures s'.rotation.Some? ==> s'.rotation.value.to != v
  {
    if e.StepStart? {
      assert JobInv(s, e.job, s.jobs[e.job]);
      assert DoStepStart(s, e.job, e.dek) == Some(s');
    } else if WritesOrMigrates(e) {
      WriterKeepsGoal(s, e, s');
    } else {
      ReaderKeepsRotation(s, e, s');
    }
  }

  lemma WriterKeepsGoal(s: State, e: Event, s': State)
    requires Step(s, e) == Some(s') && WritesOrMigrates(e) && !e.StepStart?
    ensures s'.rotation.Some? ==> s.rotation.Some? && s'.rotation.value.to == s.rotation.value.to
  {
  }

  lemma ReaderKeepsRotation(s: State, e: Event, s': State)
    requires Step(s, e) == Some(s') && !WritesOrMigrates(e)
    ensures s'.rotation == s.rotation
  {
  }

  lemma ContinuesStayOff(s: State, e: Event, v: nat, s': State)
    requires Inv(s) && Step(s, e) == Some(s') && (s.rotation.Some? ==> s.rotation.value.to != v)
    requires forall j :: j in s.jobs ==> NoGoal(s, j, v)
    ensures forall j :: j in s'.jobs ==> NoGoal(s', j, v)
  {
    StepKeepsGone(s, e, s');
    forall j | j in s'.jobs && s'.jobs[j].Continuing? ensures NoGoal(s', j, v) {
      if !ContinueStep(e) {
        OtherStepsMakeNoContinue(s, e, s', j);
        assert NoGoal(s, j, v);
      } else {
        assert OthersKeepTheirJob(s, s', e.job);
        if j != e.job {
          assert j in s'.jobs - {e.job};
          assert (s'.jobs - {e.job})[j] == (s.jobs - {e.job})[j];
          assert NoGoal(s, j, v);
        } else {
          OwnStepStaysOff(s, e, v, s');
        }
      }
    }
  }

  lemma OwnStepStaysOff(s: State, e: Event, v: nat, s': State)
    requires Inv(s) && Step(s, e) == Some(s') && ContinueStep(e) && GoneStays(s, s')
    requires s.rotation.Some? ==> s.rotation.value.to != v
    requires e.job in s.jobs ==> NoGoal(s, e.job, v)
    ensures e.job in s'.jobs ==> NoGoal(s', e.job, v)
  {
    match e
    case ResolveContinue(job) => StuckStaysStuck(s, job, s');
    case Batch(job, size) => ReadyStaysOff(s, e, v, s');
    case Advance(job) => ReadyStaysOff(s, e, v, s');
    case _ =>
  }

  lemma ReadyStaysOff(s: State, e: Event, v: nat, s': State)
    requires Step(s, e) == Some(s') && (e.Batch? || e.Advance?) && NoGoal(s, e.job, v)
    ensures e.job in s'.jobs ==> NoGoal(s', e.job, v)
  {
  }

  lemma GoneIsNotFound(s: State, proc: nat, v: nat)
    requires Inv(s) && Gone(s, proc, v)
    ensures Find(s, proc, v).None?
  {
  }

  /** A call that is stuck may fetch its first key, and is stuck still. */
  lemma StuckStaysStuck(s: State, job: nat, s': State)
    requires Inv(s) && DoResolveContinue(s, job) == Some(s') && GoneStays(s, s')
    ensures Stuck(s, s.jobs[job]) && job in s'.jobs ==> Stuck(s', s'.jobs[job])
  {
    var j := s.jobs[job];
    if j.fromKey.None? && Gone(s, j.proc, j.from) {
      GoneIsNotFound(s, j.proc, j.from);
    } else if j.fromKey.Some? && Gone(s, j.proc, j.to) {
      GoneIsNotFound(s, j.proc, j.to);
    }
  }

  lemma StepKeepsVacated(s: State, e: Event, v: nat, s': State)
    requires Inv(s) && Vacated(s, v) && Step(s, e) == Some(s')
    ensures Vacated(s', v)
  {
    if e.Batch? {
      assert DoBatch(s, e.job, e.size) == Some(s') && NoGoal(s, e.job, v);
    }
    StepAddsNone(s, e, v, s');
    WritersStayOff(s, e, v, s');
    RotationStaysOff(s, e, v, s');
    ContinuesStayOff(s, e, v, s');
    StepOnlyAddsVersions(s, e, s');
  }

  lemma {:induction false} VacatedStays(states: seq<State>, events: seq<Event>, v: nat, i: nat, j: nat)
    requires CarefulPath(states, events) && Inv(states[0]) && i <= j < |states| && Vacated(states[i], v)
    ensures Vacated(states[j], v)
    decreases j
  {
    if i < j {
      VacatedStays(states, events, v, i, j - 1);
      VacatedNext(states, events, v, j - 1);
    }
  }

  lemma VacatedNext(states: seq<State>, events: seq<Event>, v: nat, i: nat)
    requires CarefulPath(states, events) && Inv(states[0]) && i < |events| && Vacated(states[i], v)
    ensures Vacated(states[i + 1], v)
  {
    PathKeepsInv(states, events, i);
    assert Step(states[i], events[i]) == Some(states[i + 1]);
    StepKeepsVacated(states[i], events[i], v, states[i + 1]);
  }

  // --- Whole runs --------------------------------------------------------------------------------

  lemma {:induction false} ClearStays(states: seq<State>, events: seq<Event>, from: nat, i: nat, j: nat)
    requires CarefulPath(states, events) && Inv(states[0]) && i <= j < |states| && Clear(states[i], from)
    requires forall k :: i <= k < j ==> !events[k].Complete?
    ensures Clear(states[j], from)
    decreases j
  {
    if i < j {
      ClearStays(states, events, from, i, j - 1);
      PathKeepsInv(states, events, j - 1);
      assert Step(states[j - 1], events[j - 1]) == Some(states[j]);
      StepKeepsClear(states[j - 1], events[j - 1], from, states[j]);
    }
  }

  /** No Continue in flight can go on. */
  ghost predicate NoneContinues(s: State) {
    forall j :: j in s.jobs && s.jobs[j].Continuing? ==> Stuck(s, s.jobs[j])
  }

  /** A rotation just started, with no Continue of another in flight that can go on. */
  ghost predicate JustStarted(s: State, from: nat) {
    Names(s, (from, from + 1)) && s.rotation.value.cursor == On(Episodes) && NoneContinues(s)
  }

  lemma JustStartedIsClear(s: State, from: nat)
    requires JustStarted(s, from) && NoWriterOn(s, from)
    ensures Clear(s, from)
  {
  }

  /** Start's upsert begins a rotation at its first table. */
  lemma UpsertStarts(s: State, job: nat, dek: Dek, s': State)
    requires Inv(s) && DoStepStart(s, job, dek) == Some(s') && s.jobs[job].phase.Upserting?
    requires NoneContinues(s)
    ensures JustStarted(s', s.jobs[job].phase.from)
  {
    assert JobInv(s, job, s.jobs[job]);
    StepKeepsGone(s, StepStart(job, dek), s');
    forall j | j in s'.jobs && s'.jobs[j].Continuing? ensures Stuck(s', s'.jobs[j]) {
      assert j in s.jobs && s'.jobs[j] == s.jobs[j];
    }
  }

  /**
    Whatever interleaves with a rotation, and however many Continue calls drive it:
    if no writer was left on its old version when Start stored it, and no Continue
    of another rotation was in flight that could go on, then from its completion on
    no row, in any table, is ever on that version again.
   */
  lemma CompletedLeavesNothing(states: seq<State>, events: seq<Event>, i: nat, j: nat, k: nat)
    requires Run(states, events) && i < j < |events| && j < k < |states|
    requires events[i].StepStart? && events[i].job in states[i].jobs && states[i].jobs[events[i].job].Starting?
    requires states[i].jobs[events[i].job].phase.Upserting?
    requires NoneContinues(states[i])
    requires NoWriterOn(states[i], states[i].jobs[events[i].job].phase.from)
    requires events[j].Complete? && forall m :: i < m < j ==> !events[m].Complete?
    ensures NoRowOn(states[k].rows, states[i].jobs[events[i].job].phase.from)
  {
    var from := states[i].jobs[events[i].job].phase.from;
    PathKeepsInv(states, events, i);
    assert Step(states[i], events[i]) == Some(states[i + 1]);
    UpsertStarts(states[i], events[i].job, events[i].dek, states[i + 1]);
    OtherStepsStayOff(states[i], events[i], from, states[i + 1]);
    JustStartedIsClear(states[i + 1], from);
    ClearStays(states, events, from, i + 1, j);
    PathKeepsInv(states, events, j);
    assert Step(states[j], events[j]) == Some(states[j + 1]);
    CompleteVacates(states[j], events[j], from, states[j + 1]);
    VacatedStays(states, events, from, j + 1, k);
  }

  // --- Counting -------------------------------------------------------------------------------------

  /** The rows of the tables a rotation walks that are on a version. */
  function OnVersion(rows: Rows, v: nat): set<RowId> {
    set r | r in rows && r.table != Facts && rows[r].version == v
  }

  /** What a Continue call whose batch this is reports as migrated. */
  function Reported(s: State, e: Event): nat {
    if e.Batch? && e.job in s.jobs && Ready(s.jobs[e.job]) && s.jobs[e.job].turn == MigrateTurn && s.jobs[e.job].cursor.On?
    then
      var j := s.jobs[e.job];
      var ids := BatchOf(s.rows, j.cursor.table, j.from, ClampBatchSize(e.size));
      if MigrateRows(s.rows, j.cursor.table, ids, j.from, j.to, j.fromKey.value, j.toKey.value).Some? then |ids| else 0
    else 0
  }

  /** The rows on a version that a commit takes off it by merging an entity. */
  function TakenByMerge(s: State, e: Event, s': State, v: nat): set<RowId> {
    if e.Commit? then OnVersion(s.rows, v) - OnVersion(s'.rows, v) else {}
  }

  function Merged(s: State, e: Event, s': State, v: nat): nat {
    |TakenByMerge(s, e, s', v)|
  }

  /** Only entities are merged, and only those the commit names. */
  lemma MergesTakeEntities(s: State, e: Event, s': State, v: nat, r: RowId)
    requires Step(s, e) == Some(s') && r in TakenByMerge(s, e, s', v)
    ensures e.Commit? && r in e.merges && r.table == Entities
  {
    RowsNeverDisappear(s, e, s');
    assert DoCommit(s, e.job, e.puts, e.merges) == Some(s');
  }

  lemma SameOnVersion(rows: Rows, rows': Rows, v: nat)
    requires rows' == rows
    ensures OnVersion(rows', v) == OnVersion(rows, v)
  {
  }

  function Ids(table: Table, ids: set<nat>): (r: set<RowId>)
    ensures |r| == |ids| && forall x :: x in r <==> x.table == table && x.id in ids
  {
    if ids == {} then {}
    else
      var id := Least(ids);
      Ids(table, ids - {id}) + {RowId(table, id)}
  }

  lemma MigratedOffVersion(rows: Rows, table: Table, ids: set<nat>, from: nat, to: nat, fromKey: Dek, toKey: Dek, rows': Rows)
    requires table != Facts && from != to && ids <= Pending(rows, table, from)
    requires MigrateRows(rows, table, ids, from, to, fromKey, toKey) == Some(rows')
    ensures OnVersion(rows, from) == OnVersion(rows', from) + Ids(table, ids) && OnVersion(rows', from) !! Ids(table, ids)
  {
    BatchShrinksPending(rows, table, ids, from, to, fromKey, toKey, rows');
    IdsOffVersion(rows, table, ids, from, rows');
  }

  lemma IdsOffVersion(rows: Rows, table: Table, ids: set<nat>, from: nat, rows': Rows)
    requires table != Facts && ids <= Pending(rows, table, from) && Pending(rows', table, from) == Pending(rows, table, from) - ids
    requires forall t :: t != table && t != Facts ==> Pending(rows', t, from) == Pending(rows, t, from)
    ensures OnVersion(rows, from) == OnVersion(rows', from) + Ids(table, ids) && OnVersion(rows', from) !! Ids(table, ids)
  {
    var before, after, moved := OnVersion(rows, from), OnVersion(rows', from), Ids(table, ids);
    forall r: RowId ensures (r in before <==> r in after || r in moved) && !(r in after && r in moved) {
      OneMigrated(rows, table, ids, from, rows', r);
    }
  }

  lemma OneMigrated(rows: Rows, table: Table, ids: set<nat>, from: nat, rows': Rows, r: RowId)
    requires table != Facts && ids <= Pending(rows, table, from) && Pending(rows', table, from) == Pending(rows, table, from) - ids
    requires forall t :: t != table && t != Facts ==> Pending(rows', t, from) == Pending(rows, t, from)
    ensures r in OnVersion(rows, from) <==> r in OnVersion(rows', from) || r in Ids(table, ids)
    ensures !(r in OnVersion(rows', from) && r in Ids(table, ids))
  {
    OnVersionIsPending(rows, from, r);
    OnVersionIsPending(rows', from, r);
  }

  lemma OnVersionIsPending(rows: Rows, v: nat, r: RowId)
    ensures r in OnVersion(rows, v) <==> r.table != Facts && r.id in Pending(rows, r.table, v)
  {
    InPending(rows, r.table, v, r.id);
    assert RowId(r.table, r.id) == r;
  }

  lemma BatchCounts(s: State, job: nat, size: int, from: nat, s': State)
    requires Inv(s) && Clear(s, from) && DoBatch(s, job, size) == Some(s')
    ensures |OnVersion(s.rows, from)| == |OnVersion(s'.rows, from)| + Reported(s, Batch(job, size))
  {
    var j := s.jobs[job];
    assert OwnContinue(s, job, from) && JobInv(s, job, j);
    var ids := BatchOf(s.rows, j.cursor.table, from, ClampBatchSize(size));
    BatchOpensItsRows(s, j.cursor.table, ids, from, j.fromKey.value);
    ReportedIs(s, job, size);
    if ids != {} {
      MigratedOffVersion(s.rows, j.cursor.table, ids, from, j.to, j.fromKey.value, j.toKey.value, s'.rows);
    } else {
      assert s'.rows == s.rows;
    }
  }

  lemma ReportedIs(s: State, job: nat, size: int)
    requires job in s.jobs && Ready(s.jobs[job]) && s.jobs[job].turn == MigrateTurn && s.jobs[job].cursor.On?
    requires var j := s.jobs[job];
             var ids := BatchOf(s.rows, j.cursor.table, j.from, ClampBatchSize(size));
             forall r :: r in Moved(s.rows, j.cursor.table, ids, j.from) ==> SealedWith(s.rows[r].cells, j.fromKey.value)
    ensures var j := s.jobs[job];
            Reported(s, Batch(job, size)) == |BatchOf(s.rows, j.cursor.table, j.from, ClampBatchSize(size))|
  {
  }

  lemma NotBatchReportsNothing(s: State, e: Event)
    requires !e.Batch?
    ensures Reported(s, e) == 0
  {
  }

  /** A step takes rows off the old version as a batch, which reports them, or as a merge, which nobody counts. */
  lemma StepCounts(s: State, e: Event, from: nat, s': State)
    requires Inv(s) && Clear(s, from) && Step(s, e) == Some(s') && NoneAdded(s.rows, s'.rows, from)
    ensures |OnVersion(s.rows, from)| == |OnVersion(s'.rows, from)| + Reported(s, e) + Merged(s, e, s', from)
  {
    if e.Batch? {
      assert DoBatch(s, e.job, e.size) == Some(s');
      BatchCounts(s, e.job, e.size, from, s');
    } else {
      NotBatchReportsNothing(s, e);
      if e.Commit? {
        TakenCounts(s.rows, s'.rows, from);
      } else {
        OtherStepsKeepRows(s, e, s');
      }
    }
  }

  lemma TakenCounts(rows: Rows, rows': Rows, v: nat)
    requires NoneAdded(rows, rows', v)
    ensures |OnVersion(rows, v)| == |OnVersion(rows', v)| + |OnVersion(rows, v) - OnVersion(rows', v)|
  {
    var before, after := OnVersion(rows, v), OnVersion(rows', v);
    assert after <= before;
    assert before == after + (before - after);
  }

  function Sum(xs: seq<nat>, i: nat, j: nat): nat
    requires i <= j <= |xs|
  {
    if i == j then 0 else Sum(xs, i, j - 1) + xs[j - 1]
  }

  function Reports(states: seq<State>, events: seq<Event>): (xs: seq<nat>)
    requires |states| == |events| + 1
    ensures |xs| == |events|
  {
    seq(|events|, k requires 0 <= k < |events| => Reported(states[k], events[k]))
  }

  function Merges(states: seq<State>, events: seq<Event>, v: nat): (xs: seq<nat>)
    requires |states| == |events| + 1
    ensures |xs| == |events|
  {
    seq(|events|, k requires 0 <= k < |events| => Merged(states[k], events[k], states[k + 1], v))
  }

  /** What the Continue calls of a stretch of a run report in all. */
  function Total(states: seq<State>, events: seq<Event>, i: nat, j: nat): nat
    requires |states| == |events| + 1 && i <= j <= |events|
  {
    Sum(Reports(states, events), i, j)
  }

  /** And what merges take off a version meanwhile. */
  function MergedAway(states: seq<State>, events: seq<Event>, v: nat, i: nat, j: nat): nat
    requires |states| == |events| + 1 && i <= j <= |events|
  {
    Sum(Merges(states, events, v), i, j)
  }

  lemma CountAt(states: seq<State>, events: seq<Event>, from: nat, k: nat)
    requires CarefulPath(states, events) && Inv(states[0]) && k < |events| && Clear(states[k], from) && !events[k].Complete?
    ensures |OnVersion(states[k].rows, from)|
            == |OnVersion(states[k + 1].rows, from)| + Reports(states, events)[k] + Merges(states, events, from)[k]
  {
    PathKeepsInv(states, events, k);
    assert Step(states[k], events[k]) == Some(states[k + 1]);
    ClearStepCounts(states[k], events[k], from, states[k + 1]);
    SummandAt(states, events, from, k);
  }

  lemma ClearStepCounts(s: State, e: Event, from: nat, s': State)
    requires Inv(s) && Clear(s, from) && Step(s, e) == Some(s') && !e.Complete?
    ensures |OnVersion(s.rows, from)| == |OnVersion(s'.rows, from)| + Reported(s, e) + Merged(s, e, s', from)
  {
    StepKeepsClear(s, e, from, s');
    StepCounts(s, e, from, s');
  }

  lemma SummandAt(states: seq<State>, events: seq<Event>, v: nat, k: nat)
    requires |states| == |events| + 1 && k < |events|
    ensures Reports(states, events)[k] == Reported(states[k], events[k])
    ensures Merges(states, events, v)[k] == Merged(states[k], events[k], states[k + 1], v)
  {
  }

  lemma {:induction false} CountsAddUp(states: seq<State>, events: seq<Event>, from: nat, i: nat, j: nat)
    requires CarefulPath(states, events) && Inv(states[0]) && i <= j <= |events| && Clear(states[i], from)
    requires forall k :: i <= k < j ==> !events[k].Complete?
    ensures |OnVersion(states[i].rows, from)|
            == |OnVersion(states[j].rows, from)| + Total(states, events, i, j) + MergedAway(states, events, from, i, j)
    decreases j
  {
    if i < j {
      CountsAddUp(states, events, from, i, j - 1);
      ClearStays(states, events, from, i, j - 1);
      CountAt(states, events, from, j - 1);
    }
  }

  /**
    When the rotation completes, what its Continue calls have reported and what
    merges took off the old version add up to the rows that were on it.
   */
  lemma CompletedCounts(states: seq<State>, events: seq<Event>, from: nat, i: nat, j: nat)
    requires CarefulPath(states, events) && Inv(states[0]) && i <= j < |events| && Clear(states[i], from)
    requires events[j].Complete? && forall k :: i <= k < j ==> !events[k].Complete?
    ensures Total(states, events, i, j) + MergedAway(states, events, from, i, j) == |OnVersion(states[i].rows, from)|
  {
    CountsAddUp(states, events, from, i, j);
    ClearStays(states, events, from, i, j);
    PathKeepsInv(states, events, j);
    assert Step(states[j], events[j]) == Some(states[j + 1]);
    CompleteLeavesNone(states[j], events[j], from, states[j + 1]);
    NothingOnVersion(states[j].rows, from);
  }

  lemma NothingOnVersion(rows: Rows, v: nat)
    requires NoRowOn(rows, v)
    ensures OnVersion(rows, v) == {} && |OnVersion(rows, v)| == 0
  {
  }

  /** The rows on a version, table by table: the backlog of a rotation that has just started. */
  lemma BacklogIsOnVersion(rows: Rows, v: nat)
    ensures |OnVersion(rows, v)| == RotateRunner.BacklogFrom(rows, On(Episodes), v)
  {
    var e, s, n := Pending(rows, Episodes, v), Pending(rows, Summaries, v), Pending(rows, Entities, v);
    OnVersionParts(rows, v, e, s, n);
    ThreeSizes(e, s, n);
    ThreeTables(rows, v);
  }

  lemma OnVersionParts(rows: Rows, v: nat, e: set<nat>, s: set<nat>, n: set<nat>)
    requires e == Pending(rows, Episodes, v) && s == Pending(rows, Summaries, v) && n == Pending(rows, Entities, v)
    ensures OnVersion(rows, v) == Ids(Episodes, e) + Ids(Summaries, s) + Ids(Entities, n)
  {
    var all, a, b, c := OnVersion(rows, v), Ids(Episodes, e), Ids(Summaries, s), Ids(Entities, n);
    forall r: RowId | r in all ensures r in a + b + c {
      OnVersionPart(rows, v, e, s, n, r);
    }
    forall r: RowId | r in a + b + c ensures r in all {
      OnVersionPart(rows, v, e, s, n, r);
    }
    assert all <= a + b + c && a + b + c <= all;
  }

  lemma OnVersionPart(rows: Rows, v: nat, e: set<nat>, s: set<nat>, n: set<nat>, r: RowId)
    requires e == Pending(rows, Episodes, v) && s == Pending(rows, Summaries, v) && n == Pending(rows, Entities, v)
    ensures r in OnVersion(rows, v) <==> r in Ids(Episodes, e) || r in Ids(Summaries, s) || r in Ids(Entities, n)
  {
    OnVersionIsPending(rows, v, r);
  }

  /**
    From Start's upsert to the completion: what the Continue calls report and what
    merges take off the old version add up to the backlog Start found.
   */
  lemma CompletedTotals(states: seq<State>, events: seq<Event>, i: nat, j: nat)
    requires Run(states, events) && i < j < |events|
    requires events[i].StepStart? && events[i].job in states[i].jobs && states[i].jobs[events[i].job].Starting?
    requires states[i].jobs[events[i].job].phase.Upserting?
    requires NoneContinues(states[i])
    requires NoWriterOn(states[i], states[i].jobs[events[i].job].phase.from)
    requires events[j].Complete? && forall m :: i < m < j ==> !events[m].Complete?
    ensures var from := states[i].jobs[events[i].job].phase.from;
            Total(states, events, i + 1, j) + MergedAway(states, events, from, i + 1, j)
            == RotateRunner.BacklogFrom(states[i + 1].rows, On(Episodes), from)
  {
    var from := states[i].jobs[events[i].job].phase.from;
    PathKeepsInv(states, events, i);
    assert Step(states[i], events[i]) == Some(states[i + 1]);
    UpsertStarts(states[i], events[i].job, events[i].dek, states[i + 1]);
    OtherStepsStayOff(states[i], events[i], from, states[i + 1]);
    JustStartedIsClear(states[i + 1], from);
    CompletedCounts(states, events, from, i + 1, j);
    BacklogIsOnVersion(states[i + 1].rows, from);
  }

  lemma ThreeSizes(e: set<nat>, s: set<nat>, n: set<nat>)
    ensures |Ids(Episodes, e) + Ids(Summaries, s) + Ids(Entities, n)| == |e| + |s| + |n|
  {
    assert Ids(Episodes, e) !! Ids(Summaries, s);
    assert Ids(Episodes, e) + Ids(Summaries, s) !! Ids(Entities, n);
  }

  lemma ThreeTables(rows: Rows, v: nat)
    ensures RotateRunner.BacklogFrom(rows, On(Episodes), v)
            == |Pending(rows, Episodes, v)| + |Pending(rows, Summaries, v)| + |Pending(rows, Entities, v)|
  {
    assert RotateRunner.BacklogFrom(rows, Finished, v) == 0;
    assert RotateRunner.BacklogFrom(rows, On(Entities), v) == |Pending(rows, Entities, v)|;
    assert RotateRunner.BacklogFrom(rows, On(Summaries), v)
        == |Pending(rows, Summaries, v)| + RotateRunner.BacklogFrom(rows, On(Entities), v);
  }
}
