/**
  Exactly when an online rotation can be trusted: to leave nothing on its old
  version when it completes, and to report as many rows as there were.
 */
module CompletionExact {
  import opened Basics
  import opened FieldCrypto
  import opened KeyVersions
  import opened RowTables
  import opened RotationProtocol
  import opened RotationSafety
  import opened RotationTheorems
  import opened RotationProgress
  import opened RotationCompletion
  import opened CompletionHazards
  import RotateRunner

  // --- Beside another rotation's Continue -----------------------------------------------

  /** A rotation that Start has just stored; Continue calls of older ones may be in flight. */
  ghost predicate Upserted(s: State, from: nat) {
    && Names(s, (from, from + 1)) && s.rotation.value.cursor == On(Episodes)
    && forall j :: j in s.jobs && s.jobs[j].Continuing? ==> s.jobs[j].from != from
  }

  /** The rotations before left nothing behind: no row, and no writer, is below the version. */
  ghost predicate Above(s: State, v: nat) {
    NoRowBelow(s, v) && NoWriterBelow(s, v) && 1 <= v <= |s.minted|
  }

  lemma CommitStaysAbove(s: State, job: nat, puts: map<RowId, Put>, merges: map<RowId, Put>, v: nat, s': State)
    requires Inv(s) && Above(s, v) && DoCommit(s, job, puts, merges) == Some(s')
    ensures NoRowBelow(s', v)
  {
    CommitOutcome(s, job, puts, merges, s');
    CurrentIsNewest(s);
  }

  lemma BatchStaysAbove(s: State, job: nat, size: int, v: nat, s': State)
    requires Inv(s) && Above(s, v) && DoBatch(s, job, size) == Some(s')
    ensures NoRowBelow(s', v)
  {
    var j := s.jobs[job];
    assert JobInv(s, job, j);
    var ids := BatchOf(s.rows, j.cursor.table, j.from, ClampBatchSize(size));
    if s'.rows != s.rows {
      MigratedStaysAbove(s.rows, j.cursor.table, ids, j.from, j.to, j.fromKey.value, j.toKey.value, v, s'.rows);
    }
  }

  lemma MigratedStaysAbove(rows: Rows, table: Table, ids: set<nat>, from: nat, to: nat, fromKey: Dek, toKey: Dek, v: nat, rows': Rows)
    requires ids <= Pending(rows, table, from) && from <= to && MigrateRows(rows, table, ids, from, to, fromKey, toKey) == Some(rows')
    requires forall r :: r in rows ==> v <= rows[r].version
    ensures forall r :: r in rows' ==> v <= rows'[r].version
  {
    forall r | r in rows' ensures v <= rows'[r].version {
      MovedRowsAreOld(rows, table, ids, from, r);
    }
  }

  lemma StepStaysAbove(s: State, e: Event, v: nat, s': State)
    requires Inv(s) && Above(s, v) && Step(s, e) == Some(s')
    ensures Above(s', v)
  {
    LowWritersDoNotAppear(s, e, v, s');
    StepOnlyAddsVersions(s, e, s');
    match e
    case Commit(job, puts, merges) => CommitStaysAbove(s, job, puts, merges, v, s');
    case Batch(job, size) => BatchStaysAbove(s, job, size, v, s');
    case _ => OtherStepsKeepRows(s, e, s');
  }

  lemma {:induction false} StaysAbove(states: seq<State>, events: seq<Event>, v: nat, i: nat)
    requires CarefulPath(states, events) && Inv(states[0]) && Above(states[0], v) && i < |states|
    ensures Above(states[i], v)
  {
    if i > 0 {
      StaysAbove(states, events, v, i - 1);
      PathKeepsInv(states, events, i - 1);
      assert Step(states[i - 1], events[i - 1]) == Some(states[i]);
      StepStaysAbove(states[i - 1], events[i - 1], v, states[i]);
    }
  }

  /** With no row and no writer on the old version or below there never will be one. */
  lemma AboveCompletesEmpty(s: State, from: nat)
    requires Inv(s) && Above(s, from + 1)
    ensures CompletesEmpty(s, from)
  {
    forall states, events, e, t | PathCompletes(states, events, s, e, t) ensures NoRowOn(t.rows, from) {
      StaysAbove(states, events, from + 1, |events|);
      PathKeepsInv(states, events, |events|);
      StepStaysAbove(states[|events|], e, from + 1, t);
    }
  }

  /** A stale Continue that can go on fetches its keys. */
  lemma {:induction false} FetchKeys(s0: State, s: State, j: nat) returns (t: State)
    requires Leads(s0, s) && Inv(s) && j in s.jobs && s.jobs[j].Continuing? && !Stuck(s, s.jobs[j])
    ensures Leads(s0, t) && Inv(t) && t.rows == s.rows && t.minted == s.minted && t.floor == s.floor
    ensures j in t.jobs && Ready(t.jobs[j]) && t.jobs[j].from == s.jobs[j].from
    decreases if s.jobs[j].fromKey.None? then 2 else if s.jobs[j].toKey.None? then 1 else 0
  {
    var job := s.jobs[j];
    assert JobInv(s, j, job);
    if Ready(job) {
      t := s;
    } else {
      var s1 := FetchOne(s, j);
      LeadsOn(s0, s, ResolveContinue(j), s1);
      t := FetchKeys(s0, s1, j);
    }
  }

  lemma FetchOne(s: State, j: nat) returns (t: State)
    requires Inv(s) && j in s.jobs && s.jobs[j].Continuing? && !Stuck(s, s.jobs[j]) && !Ready(s.jobs[j])
    ensures Step(s, ResolveContinue(j)) == Some(t) && t.rows == s.rows && t.minted == s.minted && t.floor == s.floor
    ensures j in t.jobs && t.jobs[j].Continuing? && !Stuck(t, t.jobs[j]) && t.jobs[j].from == s.jobs[j].from
    ensures s.jobs[j].fromKey.None? ==> t.jobs[j].fromKey.Some? && t.jobs[j].toKey.None?
    ensures s.jobs[j].fromKey.Some? ==> Ready(t.jobs[j])
  {
    var job := s.jobs[j];
    assert JobInv(s, j, job);
    FindIsMint(s, job.proc, if job.fromKey.None? then job.from else job.to);
    t := DoResolveContinue(s, j).value;
  }

  /** It finds nothing to move, and so gets to the step that completes whatever rotation there is. */
  lemma {:induction false} StaleWalk(s0: State, s: State, j: nat) returns (t: State)
    requires Leads(s0, s) && Inv(s) && j in s.jobs && Ready(s.jobs[j]) && NoRowOn(s.rows, s.jobs[j].from)
    ensures Leads(s0, t) && Inv(t) && t.rows == s.rows && DoComplete(t, j).Some?
    decreases |RotateRunner.TablesFrom(s.jobs[j].cursor)|,
              match s.jobs[j].turn case AdvanceTurn => 2 case MigrateTurn => 1 case CompleteTurn => 0
  {
    var job := s.jobs[j];
    assert JobInv(s, j, job);
    match job.turn {
      case CompleteTurn => t := s;
      case AdvanceTurn =>
        var s1 := DoAdvance(s, j).value;
        LeadsOn(s0, s, Advance(j), s1);
        t := StaleWalk(s0, s1, j);
      case MigrateTurn =>
        FewerTables(job.cursor);
        NothingInBatch(s.rows, job.cursor.table, job.from);
        var s1 := DoBatch(s, j, 1).value;
        LeadsOn(s0, s, Batch(j, 1), s1);
        t := StaleWalk(s0, s1, j);
    }
  }

  lemma NothingInBatch(rows: Rows, table: Table, v: nat)
    requires NoRowOn(rows, v)
    ensures BatchOf(rows, table, v, ClampBatchSize(1)) == {}
  {
    assert Pending(rows, table, v) == {};
  }

  lemma StaleBreaks(s: State, j: nat, from: nat)
    requires Inv(s) && Upserted(s, from) && Above(s, from) && !NoRowOn(s.rows, from)
    requires j in s.jobs && s.jobs[j].Continuing? && !Stuck(s, s.jobs[j])
    ensures !CompletesEmpty(s, from)
  {
    LeadsNowhere(s);
    assert JobInv(s, j, s.jobs[j]);
    var s1 := FetchKeys(s, s, j);
    var t := StaleWalk(s, s1, j);
    LeadsToCompletion(s, t, j, DoComplete(t, j).value, from);
  }

  /**
    A rotation that has just started is sure to leave nothing on its old version
    when it completes if and only if no writer in flight holds that version and
    either nothing is on it, or no Continue of another rotation is in flight that
    could go on. The rotations before are taken to have left nothing behind them,
    unless there is no such Continue.
   */
  lemma CompletesEmptyIff(s: State, from: nat)
    requires Inv(s) && Upserted(s, from) && (Above(s, from) || NoneContinues(s))
    ensures CompletesEmpty(s, from) <==> NoWriterOn(s, from) && (NoRowOn(s.rows, from) || NoneContinues(s))
  {
    if NoneContinues(s) {
      CompletesEmptyIffNoWriter(s, from);
    } else if !NoWriterOn(s, from) {
      SomeWriterBreaks(s, from);
    } else if NoRowOn(s.rows, from) {
      AboveOne(s, from);
      AboveCompletesEmpty(s, from);
    } else {
      var j :| j in s.jobs && s.jobs[j].Continuing? && !Stuck(s, s.jobs[j]);
      StaleBreaks(s, j, from);
    }
  }

  lemma AboveOne(s: State, from: nat)
    requires Inv(s) && Above(s, from) && NoWriterOn(s, from) && NoRowOn(s.rows, from) && from + 1 <= |s.minted|
    ensures Above(s, from + 1)
  {
  }

  // --- The driver's total -----------------------------------------------------------------------

  /** Whatever runs beside it, the Continue calls report as many rows as the rotation had to move. */
  ghost predicate ReportsAll(s: State, from: nat) {
    forall states, events, e, t ::
      PathCompletes(states, events, s, e, t) ==> Total(states, events, 0, |events|) == |OnVersion(s.rows, from)|
  }

  /** No entity comes to be on the old version, so none is merged off it. */
  lemma {:induction false} NoEntityTaken(states: seq<State>, events: seq<Event>, from: nat, n: nat)
    requires CarefulPath(states, events) && Inv(states[0]) && n <= |events| && Clear(states[0], from)
    requires forall k :: 0 <= k < n ==> !events[k].Complete?
    requires NoneOn(states[0].rows, Entities, from)
    ensures NoneOn(states[n].rows, Entities, from) && MergedAway(states, events, from, 0, n) == 0
  {
    if n > 0 {
      NoEntityTaken(states, events, from, n - 1);
      ClearStays(states, events, from, 0, n - 1);
      PathKeepsInv(states, events, n - 1);
      assert Step(states[n - 1], events[n - 1]) == Some(states[n]);
      NoEntityTakenBy(states[n - 1], events[n - 1], from, states[n]);
      SummandAt(states, events, from, n - 1);
    }
  }

  lemma NoEntityTakenBy(s: State, e: Event, from: nat, s': State)
    requires Inv(s) && Clear(s, from) && Step(s, e) == Some(s') && !e.Complete? && NoneOn(s.rows, Entities, from)
    ensures NoneOn(s'.rows, Entities, from) && Merged(s, e, s', from) == 0
  {
    StepKeepsClear(s, e, from, s');
    forall r | r in TakenByMerge(s, e, s', from) ensures false {
      MergesTakeEntities(s, e, s', from, r);
    }
    assert TakenByMerge(s, e, s', from) == {};
  }

  /**
    From any state of a rotation in which no table its cursors have passed has a
    row on the old version: what the Continue calls report is sure to be the
    backlog if and only if no entity is on the old version.
   */
  lemma ReportsAllIff(s: State, from: nat)
    requires Inv(s) && Clear(s, from)
    ensures ReportsAll(s, from) <==> NoneOn(s.rows, Entities, from)
  {
    if NoneOn(s.rows, Entities, from) {
      forall states, events, e, t | PathCompletes(states, events, s, e, t)
        ensures Total(states, events, 0, |events|) == |OnVersion(s.rows, from)|
      {
        assert forall k :: 0 <= k < |events| ==> events[k] in events;
        NoEntityTaken(states, events, from, |events|);
        CountsToEnd(states, events, s, e, t, from);
      }
    } else {
      var r :| r in s.rows && r.table == Entities && s.rows[r].version == from;
      var states, events, e, u := TotalFallsShort(s, r, from);
    }
  }
}
