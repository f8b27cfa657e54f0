/**
  The operations of RotateRunner are calls of the step protocol whose steps nothing
  comes between: each leaves the rows, the rotation and the keys its method promises.
 */
module RotationCalls {
  import opened Basics
  import opened FieldCrypto
  import opened KeyVersions
  import opened RowTables
  import opened RotationProtocol
  import opened RotateRunner

  predicate StepOf(e: Event, job: nat) {
    !e.LoadKey? && !e.Restart? && e.job == job
  }

  ghost predicate CallPath(states: seq<State>, events: seq<Event>, s: State, t: State, job: nat) {
    && Path(states, events) && states[0] == s && states[|events|] == t
    && forall e :: e in events ==> StepOf(e, job)
  }

  /** The call's own steps, and no others, lead from one state to the other. */
  ghost predicate CallLeads(s: State, t: State, job: nat) {
    exists states, events :: CallPath(states, events, s, t, job)
  }

  lemma CallBegins(s: State, job: nat)
    ensures CallLeads(s, s, job)
  {
    var states: seq<State>, events: seq<Event> := [s], [];
    assert CallPath(states, events, s, s, job);
  }

  lemma CallGoesOn(s: State, t: State, job: nat, e: Event, u: State)
    requires CallLeads(s, t, job) && Step(t, e) == Some(u) && StepOf(e, job)
    ensures CallLeads(s, u, job)
  {
    var states, events :| CallPath(states, events, s, t, job);
    var states', events' := states + [u], events + [e];
    forall i | 0 <= i < |events'| ensures Step(states'[i], events'[i]) == Some(states'[i + 1]) {
      if i < |events| {
        assert Step(states[i], events[i]) == Some(states[i + 1]);
      }
    }
    assert CallPath(states', events', s, u, job);
  }

  /** Other calls, and the lock they may hold, are as they were; the given one is over. */
  ghost predicate CallIsOver(s: State, t: State, job: nat) {
    t.jobs == s.jobs - {job} && t.lock == s.lock
  }

  // --- Continue -----------------------------------------------------------------------------

  ghost predicate Leaves(t: State, out: Turned) {
    t.rows == out.rows && t.rotation == out.rotation
  }

  /** A call that has its keys and stands before a table, or the end. */
  ghost predicate Walking(s: State, job: nat, st: Rotation) {
    && s.rotation == Some(st) && Sound(s.rotation) && s.lock != Some(job)
    && job in s.jobs && Ready(s.jobs[job]) && s.jobs[job].from == st.from && s.jobs[job].to == st.to
    && s.jobs[job].cursor == st.cursor
    && s.jobs[job].turn == if st.cursor == Finished then CompleteTurn else MigrateTurn
  }

  /** What is left to do of the call, as RotateRunner says. */
  function RestOf(s: State, job: nat, st: Rotation, size: int): Turned
    requires job in s.jobs && Ready(s.jobs[job])
  {
    OneTurn(s.rows, st, s.jobs[job].fromKey.value, s.jobs[job].toKey.value, ClampBatchSize(size))
  }

  /** A table without rows on the old version: an empty batch and the cursor. */
  lemma PassTable(s0: State, s: State, job: nat, st: Rotation, size: int) returns (t: State)
    requires CallLeads(s0, s, job) && Walking(s, job, st) && st.cursor.On?
    requires BatchOf(s.rows, st.cursor.table, st.from, ClampBatchSize(size)) == {}
    ensures CallLeads(s0, t, job) && Walking(t, job, st.(cursor := NextCursor(st.cursor)))
    ensures t.keys == s.keys && t.lock == s.lock && t.jobs - {job} == s.jobs - {job}
    ensures RestOf(t, job, st.(cursor := NextCursor(st.cursor)), size) == RestOf(s, job, st, size)
    ensures |TablesFrom(NextCursor(st.cursor))| < |TablesFrom(st.cursor)|
  {
    var j := s.jobs[job];
    EmptyBatch(s.rows, st.cursor, st.from, st.to, ClampBatchSize(size), j.fromKey.value, j.toKey.value);
    var s1 := DoBatch(s, job, size).value;
    CallGoesOn(s0, s, job, Batch(job, size), s1);
    t := DoAdvance(s1, job).value;
    CallGoesOn(s0, s1, job, Advance(job), t);
  }

  /** The table with rows: one batch, and the call returns, whether it worked or not. */
  lemma TakeBatch(s: State, job: nat, st: Rotation, size: int) returns (t: State)
    requires Walking(s, job, st) && st.cursor.On?
    requires BatchOf(s.rows, st.cursor.table, st.from, ClampBatchSize(size)) != {}
    ensures Step(s, Batch(job, size)) == Some(t)
    ensures CallIsOver(s, t, job) && t.keys == s.keys && Leaves(t, RestOf(s, job, st, size))
  {
    FirstBusyHere(s.rows, st.cursor, st.from, ClampBatchSize(size));
    t := DoBatch(s, job, size).value;
  }

  /** The loop over the tables. */
  lemma {:induction false} Walk(s0: State, s: State, job: nat, st: Rotation, size: int) returns (t: State)
    requires CallLeads(s0, s, job) && Walking(s, job, st)
    ensures CallLeads(s0, t, job) && CallIsOver(s, t, job) && t.keys == s.keys && Leaves(t, RestOf(s, job, st, size))
    decreases |TablesFrom(st.cursor)|
  {
    if st.cursor == Finished {
      t := DoComplete(s, job).value;
      CallGoesOn(s0, s, job, Complete(job), t);
    } else if BatchOf(s.rows, st.cursor.table, st.from, ClampBatchSize(size)) == {} {
      var s1 := PassTable(s0, s, job, st, size);
      t := Walk(s0, s1, job, st.(cursor := NextCursor(st.cursor)), size);
    } else {
      t := TakeBatch(s, job, st, size);
      CallGoesOn(s0, s, job, Batch(job, size), t);
    }
  }

  /** Resolving one key, found or not. */
  lemma ResolveOne(s0: State, s: State, job: nat) returns (t: State)
    requires CallLeads(s0, s, job) && job in s.jobs && s.jobs[job].Continuing? && s.jobs[job].toKey.None? && s.lock != Some(job)
    ensures var j := s.jobs[job];
            var key := Find(s, j.proc, if j.fromKey.None? then j.from else j.to);
            && CallLeads(s0, t, job) && t.keys == s.keys && t.rows == s.rows && t.rotation == s.rotation
            && (key.None? ==> CallIsOver(s, t, job))
            && (key.Some? ==>
                  && t.lock == s.lock && SameAnswers(CacheOf(s, j.proc), CacheOf(t, j.proc), s.keys)
                  && t.jobs == s.jobs[job := if j.fromKey.None? then j.(fromKey := key) else j.(toKey := key)])
  {
    var j := s.jobs[job];
    var v := if j.fromKey.None? then j.from else j.to;
    RememberChangesNoAnswer(CacheOf(s, j.proc), s.keys, v);
    t := DoResolveContinue(s, job).value;
    CallGoesOn(s0, s, job, ResolveContinue(job), t);
  }

  /** Runner.Continue; without a rotation in progress it takes no step. */
  lemma ContinueIsItsSteps(s: State, job: nat, proc: nat, size: int) returns (t: State)
    requires job !in s.jobs && s.lock != Some(job) && Sound(s.rotation)
    ensures CallLeads(s, t, job) && t.jobs == s.jobs && t.lock == s.lock && t.keys == s.keys
    ensures Leaves(t, ContinueOnce(s.rows, s.rotation, CacheOf(s, proc), s.keys, size))
  {
    CallBegins(s, job);
    if !Underway(s.rotation) {
      t := s;
    } else {
      var s1 := DoBeginContinue(s, job, proc).value;
      CallGoesOn(s, s, job, BeginContinue(job, proc), s1);
      assert s1.jobs - {job} == s.jobs;
      t := FromFirstQuery(s, s1, job, size);
    }
  }

  /** The call once it knows the rotation: two keys, then the loop. */
  lemma FromFirstQuery(s0: State, s: State, job: nat, size: int) returns (t: State)
    requires CallLeads(s0, s, job) && Underway(s.rotation) && Sound(s.rotation) && s.lock != Some(job) && job in s.jobs
    requires var st, j := s.rotation.value, s.jobs[job];
             j.Continuing? && j == Continuing(j.proc, st.from, st.to, None, None, st.cursor, if st.cursor == Finished then CompleteTurn else MigrateTurn)
    ensures CallLeads(s0, t, job) && CallIsOver(s, t, job) && t.keys == s.keys
    ensures Leaves(t, ContinueOnce(s.rows, s.rotation, CacheOf(s, s.jobs[job].proc), s.keys, size))
  {
    t := ResolveOne(s0, s, job);
    if Find(s, s.jobs[job].proc, s.rotation.value.from).Some? {
      var s1 := t;
      assert s1.jobs - {job} == s.jobs - {job};
      t := ResolveOne(s0, s1, job);
      if Find(s1, s.jobs[job].proc, s.rotation.value.to).Some? {
        assert t.jobs - {job} == s.jobs - {job};
        t := Walk(s0, t, job, s.rotation.value, size);
      }
    }
  }

  // --- Start ------------------------------------------------------------------------------------

  lemma StartStep(s0: State, s: State, job: nat, dek: Dek) returns (t: State)
    requires CallLeads(s0, s, job) && DoStepStart(s, job, dek).Some?
    ensures DoStepStart(s, job, dek) == Some(t) && CallLeads(s0, t, job)
  {
    t := DoStepStart(s, job, dek).value;
    CallGoesOn(s0, s, job, StepStart(job, dek), t);
  }

  /** Runner.Start, by a call that gets the lock. */
  lemma StartIsItsSteps(s: State, job: nat, proc: nat, generated: Dek) returns (t: State)
    requires job !in s.jobs && s.lock.None? && generated !in s.used
    ensures CallLeads(s, t, job) && t.jobs == s.jobs && t.lock.None? && t.rows == s.rows
    ensures var n := Current(s.keys);
            if Underway(s.rotation) || n == 0 then t.rotation == s.rotation && t.keys == s.keys
            else t.keys == s.keys[n + 1 := generated] && t.rotation == Some(Rotation(n, n + 1, InProgress, On(Episodes)))
  {
    CallBegins(s, job);
    var s1 := DoBeginStart(s, job, proc).value;
    CallGoesOn(s, s, job, BeginStart(job, proc), s1);
    assert s1.jobs - {job} == s.jobs;
    t := StartStep(s, s1, job, generated);
    if !Underway(s.rotation) {
      t := StartStep(s, t, job, generated);
      if Current(s.keys) > 0 {
        t := StartStep(s, t, job, generated);
        t := StartTail(s, t, job, Current(s.keys), generated);
      }
    }
  }

  lemma StartTail(s0: State, s: State, job: nat, n: nat, generated: Dek) returns (t: State)
    requires CallLeads(s0, s, job) && job in s.jobs && s.jobs[job].Starting? && s.jobs[job].phase == Inserting(n, n + 1)
    requires s.lock == Some(job) && generated !in s.used && n + 1 !in s.keys
    ensures CallLeads(s0, t, job) && t.jobs == s.jobs - {job} && t.lock.None? && t.rows == s.rows
    ensures t.keys == s.keys[n + 1 := generated] && t.rotation == Some(Rotation(n, n + 1, InProgress, On(Episodes)))
  {
    var s1 := StartStep(s0, s, job, generated);
    var s2 := StartStep(s0, s1, job, generated);
    t := StartStep(s0, s2, job, generated);
    assert t.jobs == s.jobs - {job};
  }

  // --- Prune ------------------------------------------------------------------------------------

  /** Runner.Prune: refused with nothing changed, or the keys below the new version deleted and forgotten. */
  lemma PruneIsItsSteps(s: State, job: nat, proc: nat) returns (t: State)
    requires job !in s.jobs && s.lock != Some(job)
    ensures CallLeads(s, t, job) && t.jobs == s.jobs && t.lock == s.lock && t.rows == s.rows && t.rotation == s.rotation
    ensures !MayPrune(s.rows, s.rotation) ==> t.keys == s.keys && CacheOf(t, proc) == CacheOf(s, proc)
    ensures MayPrune(s.rows, s.rotation) ==>
              var st := s.rotation.value;
              && t.keys == (map v | v in s.keys && st.to <= v :: s.keys[v])
              && CacheOf(t, proc) == map v | v in CacheOf(s, proc) && !(st.from <= v < st.to) :: CacheOf(s, proc)[v]
  {
    CallBegins(s, job);
    if s.rotation.None? || s.rotation.value.status != Completed {
      t := s;
    } else {
      var s1 := DoBeginPrune(s, job, proc).value;
      CallGoesOn(s, s, job, BeginPrune(job, proc), s1);
      assert s1.jobs - {job} == s.jobs;
      t := DoCountPrune(s1, job).value;
      CallGoesOn(s, s1, job, CountPrune(job), t);
      assert t.jobs - {job} == s.jobs;
      if MayPrune(s.rows, s.rotation) {
        t := PruneTail(s, t, job);
      }
    }
  }

  lemma PruneTail(s0: State, s: State, job: nat) returns (t: State)
    requires CallLeads(s0, s, job) && job in s.jobs && s.jobs[job].Pruning? && s.jobs[job].prune == Deleting && s.lock != Some(job)
    ensures CallLeads(s0, t, job) && CallIsOver(s, t, job) && t.rows == s.rows && t.rotation == s.rotation
    ensures var j := s.jobs[job];
            && t.keys == (map v | v in s.keys && j.to <= v :: s.keys[v])
            && CacheOf(t, j.proc) == map v | v in CacheOf(s, j.proc) && !(j.from <= v < j.to) :: CacheOf(s, j.proc)[v]
  {
    var s1 := DoDeletePrune(s, job).value;
    CallGoesOn(s0, s, job, DeletePrune(job), s1);
    t := DoEvictPrune(s1, job).value;
    CallGoesOn(s0, s1, job, EvictPrune(job), t);
    assert t.jobs == s.jobs - {job};
  }
}
