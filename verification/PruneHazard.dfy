/**
  A run that leads to an unsafe prune: two processes find a scope without a key,
  one of them is slow, and by the time it stores version 1 a whole rotation and
  its prune have come and gone.
 */
module PruneHazard {
  import opened Basics
  import opened FieldCrypto
  import opened KeyVersions
  import opened RowTables
  import opened RotationProtocol
  import opened RotationSafety
  import opened RotationTheorems
  import opened PruneSafety

  /** The state is reached by a run from the beginning. */
  ghost predicate Reached(s: State) {
    exists states: seq<State>, events: seq<Event> :: Run(states, events) && states[|events|] == s
  }

  lemma Begin()
    ensures Reached(INITIAL)
  {
    var states: seq<State>, events: seq<Event> := [INITIAL], [];
    assert Run(states, events) && states[|events|] == INITIAL;
  }

  lemma Next(s: State, e: Event, s': State)
    requires Reached(s) && Step(s, e) == Some(s') && !e.CountPrune?
    ensures Reached(s')
  {
    var states, events :| Run(states, events) && states[|events|] == s;
    var states', events' := states + [s'], events + [e];
    forall i | 0 <= i < |events'| ensures Step(states'[i], events'[i]) == Some(states'[i + 1]) && Careful(states'[i], events'[i]) {
      if i < |events| {
        assert Step(states[i], events[i]) == Some(states[i + 1]) && Careful(states[i], events[i]);
      }
    }
    assert Run(states', events') && states'[|events'|] == s';
  }

  const SLOW := 1

  /** An empty scope with a slow creator and nothing else going on. */
  ghost predicate Waiting(s: State) {
    && s.rows == map[] && s.lock == None && s.jobs == map[SLOW := Creating(SLOW)]
    && forall p :: p !in s.caches || p == 2
  }

  lemma SlowCreator() returns (s: State)
    ensures Reached(s) && Waiting(s) && s.keys == map[1 := 10] && s.used == {10} && s.rotation == None
    ensures CacheOf(s, 2) == map[]
  {
    Begin();
    var s1 := DoBeginWrite(INITIAL, SLOW, SLOW).value;
    Next(INITIAL, BeginWrite(SLOW, SLOW), s1);
    var s2 := DoBeginWrite(s1, 2, 2).value;
    Next(s1, BeginWrite(2, 2), s2);
    var s3 := DoCreateFirst(s2, 2, 10).value;
    Next(s2, CreateFirst(2, 10), s3);
    s := EndJob(s3, 2);
    Next(s3, Crash(2), s);
    assert s.jobs == map[SLOW := Creating(SLOW)];
  }

  lemma NewestOf(table: KeyTable, v: nat)
    requires v in table && forall x :: x in table ==> x <= v
    ensures Current(table) == v
  {
    assert Current(table) in table;
  }

  /** A Start call has the lock and has not created version 2 yet. */
  ghost predicate StartUnderWay(s: State, phase: StartPhase) {
    && s.rows == map[] && s.lock == Some(3) && s.keys == map[1 := 10] && s.used == {10} && s.rotation == None
    && s.jobs == map[SLOW := Creating(SLOW), 3 := Starting(2, phase)]
    && CacheOf(s, 2) == map[] && forall p :: p !in s.caches || p == 2
  }

  lemma StartOn(s: State, phase: StartPhase, next: StartPhase) returns (s': State)
    requires Reached(s) && StartUnderWay(s, phase)
    requires (phase, next) in {(Checking, ReadingFrom), (ReadingFrom, ReadingNext(1)), (ReadingNext(1), Inserting(1, 2))}
    ensures Reached(s') && StartUnderWay(s', next)
  {
    NewestOf(s.keys, 1);
    s' := DoStepStart(s, 3, 0).value;
    Next(s, StepStart(3, 0), s');
  }

  /** The rotation starts: version 2 is created. */
  lemma StartRotation(s: State) returns (s': State)
    requires Reached(s) && Waiting(s) && s.keys == map[1 := 10] && s.used == {10} && s.rotation == None && CacheOf(s, 2) == map[]
    ensures Reached(s') && Waiting(s') && s'.keys == map[1 := 10, 2 := 20]
    ensures s'.rotation == Some(Rotation(1, 2, InProgress, On(Episodes)))
  {
    var s1 := DoBeginStart(s, 3, 2).value;
    Next(s, BeginStart(3, 2), s1);
    var s2 := StartOn(s1, Checking, ReadingFrom);
    var s3 := StartOn(s2, ReadingFrom, ReadingNext(1));
    var s4 := StartOn(s3, ReadingNext(1), Inserting(1, 2));
    var s5 := CreateSecond(s4);
    s' := FinishStart(s5);
  }

  lemma CreateSecond(s: State) returns (s': State)
    requires Reached(s) && StartUnderWay(s, Inserting(1, 2))
    ensures Reached(s') && s'.rows == map[] && s'.lock == Some(3) && s'.keys == map[1 := 10, 2 := 20]
    ensures s'.jobs == map[SLOW := Creating(SLOW), 3 := Starting(2, Reloading(1, 2))]
    ensures CacheOf(s', 2) == map[] && forall p :: p !in s'.caches || p == 2
  {
    s' := DoStepStart(s, 3, 20).value;
    Next(s, StepStart(3, 20), s');
  }

  lemma FinishStart(s: State) returns (s': State)
    requires Reached(s) && s.rows == map[] && s.lock == Some(3) && s.keys == map[1 := 10, 2 := 20]
    requires s.jobs == map[SLOW := Creating(SLOW), 3 := Starting(2, Reloading(1, 2))]
    requires CacheOf(s, 2) == map[] && forall p :: p !in s.caches || p == 2
    ensures Reached(s') && Waiting(s') && s'.keys == map[1 := 10, 2 := 20]
    ensures s'.rotation == Some(Rotation(1, 2, InProgress, On(Episodes)))
  {
    var s1 := DoStepStart(s, 3, 0).value;
    Next(s, StepStart(3, 0), s1);
    s' := DoStepStart(s1, 3, 0).value;
    Next(s1, StepStart(3, 0), s');
    assert s'.jobs == map[SLOW := Creating(SLOW)];
  }

  /** A driver's one call of Continue, somewhere on its way through an empty scope. */
  ghost predicate Walking(s: State, cursor: Cursor, turn: Turn) {
    && s.rows == map[] && s.lock == None && s.keys == map[1 := 10, 2 := 20]
    && s.rotation == Some(Rotation(1, 2, InProgress, cursor))
    && s.jobs.Keys == {SLOW, 4} && s.jobs[SLOW] == Creating(SLOW)
    && s.jobs[4].Continuing? && s.jobs[4].from == 1 && s.jobs[4].to == 2
    && s.jobs[4].cursor == cursor && s.jobs[4].turn == turn && Ready(s.jobs[4])
  }

  /** The call has read the rotation row and resolves its two keys. */
  ghost predicate Entering(s: State, fromKey: Option<Dek>) {
    && s.rows == map[] && s.lock == None && s.keys == map[1 := 10, 2 := 20]
    && s.rotation == Some(Rotation(1, 2, InProgress, On(Episodes)))
    && s.jobs == map[SLOW := Creating(SLOW), 4 := Continuing(4, 1, 2, fromKey, None, On(Episodes), MigrateTurn)]
  }

  lemma EnterContinue(s: State) returns (s': State)
    requires Reached(s) && Waiting(s) && s.keys == map[1 := 10, 2 := 20]
    requires s.rotation == Some(Rotation(1, 2, InProgress, On(Episodes)))
    ensures Reached(s') && Walking(s', On(Episodes), MigrateTurn)
  {
    var s1 := DoBeginContinue(s, 4, 4).value;
    Next(s, BeginContinue(4, 4), s1);
    assert Entering(s1, None);
    var s2 := DoResolveContinue(s1, 4).value;
    Next(s1, ResolveContinue(4), s2);
    s' := ResolveSecond(s2, s2.jobs[4].fromKey);
  }

  lemma ResolveSecond(s: State, fromKey: Option<Dek>) returns (s': State)
    requires Reached(s) && Entering(s, fromKey) && fromKey.Some?
    ensures Reached(s') && Walking(s', On(Episodes), MigrateTurn)
  {
    s' := DoResolveContinue(s, 4).value;
    Next(s, ResolveContinue(4), s');
  }

  lemma WalkOn(s: State, table: Table) returns (s': State)
    requires Reached(s) && Walking(s, On(table), MigrateTurn) && table != Facts
    ensures Reached(s')
    ensures Walking(s', NextCursor(On(table)), if NextCursor(On(table)) == Finished then CompleteTurn else MigrateTurn)
  {
    assert BatchOf(s.rows, table, 1, ClampBatchSize(1)) == {};
    var s1 := DoBatch(s, 4, 1).value;
    Next(s, Batch(4, 1), s1);
    s' := DoAdvance(s1, 4).value;
    Next(s1, Advance(4), s');
  }

  lemma CompleteAndPrune(s: State) returns (s': State)
    requires Reached(s) && Walking(s, Finished, CompleteTurn)
    ensures Reached(s') && s'.rows == map[] && SLOW in s'.jobs && s'.jobs[SLOW] == Creating(SLOW)
    ensures AboutToCount(s', 5) && s'.jobs[5].to == 2
  {
    var done := DoComplete(s, 4).value;
    Next(s, Complete(4), done);
    s' := DoBeginPrune(done, 5, 5).value;
    Next(done, BeginPrune(5, 5), s');
  }

  lemma ReachedKeepsInv(s: State)
    requires Reached(s)
    ensures Inv(s)
  {
    var states, events :| Run(states, events) && states[|events|] == s;
    PathKeepsInv(states, events, |events|);
  }

  /** The rotation completes, a prune is about to count, and the slow creator is still there. */
  lemma UnsafePruneIsReachable() returns (s: State)
    ensures Reached(s) && AboutToCount(s, 5) && NoRowBelow(s, s.jobs[5].to)
    ensures SLOW in s.jobs && s.jobs[SLOW].Creating? && !PruneIsSafe(s, 5)
  {
    var s0 := SlowCreator();
    var s1 := StartRotation(s0);
    var s2 := EnterContinue(s1);
    var s3 := WalkOn(s2, Episodes);
    var s4 := WalkOn(s3, Summaries);
    var s5 := WalkOn(s4, Entities);
    s := CompleteAndPrune(s5);
    ReachedKeepsInv(s);
    LowCreatorBreaks(s, 5, SLOW);
  }
}
