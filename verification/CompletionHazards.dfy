/**
  Where "completed" is wrong, and exactly when: the runs that leave a row on the
  old version of a rotation, and those in which the driver's total falls short.
 */
module CompletionHazards {
  import opened Basics
  import opened FieldCrypto
  import opened KeyVersions
  import opened RowTables
  import opened RotationProtocol
  import opened RotationSafety
  import opened RotationTheorems
  import opened RotationProgress
  import opened RotationCompletion
  import PruneSafety
  import PruneHazard
  import RotateRunner

  // --- A driver on its way -------------------------------------------------------------

  /** A path from one state to the other on which nothing completes. */
  ghost predicate PathTo(states: seq<State>, events: seq<Event>, s: State, t: State) {
    && CarefulPath(states, events) && states[0] == s && states[|events|] == t
    && forall e :: e in events ==> !e.Complete?
  }

  ghost predicate Leads(s: State, t: State) {
    exists states, events :: PathTo(states, events, s, t)
  }

  lemma LeadsNowhere(s: State)
    ensures Leads(s, s)
  {
    var states: seq<State>, events: seq<Event> := [s], [];
    assert PathTo(states, events, s, s);
  }

  lemma OneMoreStep(states: seq<State>, events: seq<Event>, e: Event, u: State)
    requires CarefulPath(states, events) && Step(states[|events|], e) == Some(u) && !e.CountPrune?
    ensures CarefulPath(states + [u], events + [e])
  {
    var states', events' := states + [u], events + [e];
    forall i | 0 <= i < |events'| ensures Step(states'[i], events'[i]) == Some(states'[i + 1]) && Careful(states'[i], events'[i]) {
      if i < |events| {
        assert Step(states[i], events[i]) == Some(states[i + 1]) && Careful(states[i], events[i]);
      }
    }
  }

  lemma LeadsOn(s: State, t: State, e: Event, u: State)
    requires Leads(s, t) && Inv(t) && Step(t, e) == Some(u) && !e.Complete? && !e.CountPrune?
    ensures Leads(s, u) && Inv(u)
  {
    var states, events :| PathTo(states, events, s, t);
    OneMoreStep(states, events, e, u);
    assert PathTo(states + [u], events + [e], s, u);
    StepKeepsInv(t, e, u);
  }

  /** Everything but the driver's job is as it was before the driver came; only rows may have moved. */
  ghost predicate DriverOnly(s: State, t: State, d: nat) {
    && t.jobs - {d} == s.jobs - {d} && t.floor == s.floor && t.minted == s.minted && t.keys == s.keys
  }

  /** A Continue call of the driver, resolved, with the database's cursor. */
  ghost predicate AtWork(s: State, d: nat, from: nat) {
    && Inv(s) && Names(s, (from, from + 1)) && s.floor <= from
    && d in s.jobs && Ready(s.jobs[d]) && s.jobs[d].from == from && s.jobs[d].to == from + 1
    && s.jobs[d].cursor == s.rotation.value.cursor
    && s.jobs[d].turn == if s.jobs[d].cursor == Finished then CompleteTurn else MigrateTurn
  }

  lemma Resolve(s0: State, s: State, d: nat, from: nat) returns (t: State)
    requires Leads(s0, s) && Inv(s) && s.floor <= from && from + 1 == |s.minted|
    requires d in s.jobs && s.jobs[d].Continuing? && s.jobs[d].toKey.None? && s.jobs[d].from == from && s.jobs[d].to == from + 1
    ensures Leads(s0, t) && Inv(t) && DriverOnly(s, t, d) && t.rows == s.rows && t.rotation == s.rotation
    ensures d in t.jobs
    ensures s.jobs[d].fromKey.None? ==> t.jobs[d].Continuing? && t.jobs[d].fromKey.Some? && t.jobs[d] == s.jobs[d].(fromKey := t.jobs[d].fromKey)
    ensures s.jobs[d].fromKey.Some? ==> t.jobs[d].Continuing? && t.jobs[d].toKey.Some? && t.jobs[d] == s.jobs[d].(toKey := t.jobs[d].toKey)
  {
    var v := if s.jobs[d].fromKey.None? then from else from + 1;
    FindIsMint(s, s.jobs[d].proc, v);
    t := DoResolveContinue(s, d).value;
    LeadsOn(s0, s, ResolveContinue(d), t);
  }

  /** A new Continue call begins and resolves its keys. */
  lemma Enter(s0: State, s: State, d: nat, from: nat) returns (t: State)
    requires Leads(s0, s) && Inv(s) && Names(s, (from, from + 1)) && s.floor <= from && d !in s.jobs
    ensures Leads(s0, t) && AtWork(t, d, from) && DriverOnly(s, t, d) && t.rows == s.rows && t.rotation == s.rotation
  {
    var s1 := DoBeginContinue(s, d, d).value;
    LeadsOn(s0, s, BeginContinue(d, d), s1);
    var s2 := Resolve(s0, s1, d, from);
    t := Resolve(s0, s2, d, from);
  }

  /** A batch that finds nothing moves on to the next table. */
  lemma SkipTable(s0: State, s: State, d: nat, from: nat) returns (t: State)
    requires Leads(s0, s) && AtWork(s, d, from) && s.jobs[d].cursor.On?
    requires BatchOf(s.rows, s.jobs[d].cursor.table, from, 1) == {}
    ensures Leads(s0, t) && AtWork(t, d, from) && DriverOnly(s, t, d) && t.rows == s.rows
    ensures t.jobs[d].cursor == NextCursor(s.jobs[d].cursor)
  {
    assert JobInv(s, d, s.jobs[d]);
    var s1 := DoBatch(s, d, 1).value;
    LeadsOn(s0, s, Batch(d, 1), s1);
    t := DoAdvance(s1, d).value;
    LeadsOn(s0, s1, Advance(d), t);
  }

  /** A batch that finds a row moves it, and the call returns. */
  lemma MoveRow(s0: State, s: State, d: nat, from: nat) returns (t: State)
    requires Leads(s0, s) && AtWork(s, d, from) && s.jobs[d].cursor.On?
    requires BatchOf(s.rows, s.jobs[d].cursor.table, from, 1) != {}
    ensures Leads(s0, t) && Inv(t) && DriverOnly(s, t, d) && d !in t.jobs && t.rotation == s.rotation
    ensures s.jobs[d].cursor.table != Facts
    ensures |Pending(t.rows, s.jobs[d].cursor.table, from)| < |Pending(s.rows, s.jobs[d].cursor.table, from)|
    ensures t.rows.Keys == s.rows.Keys
  {
    t := MovingBatch(s, d, from);
    LeadsOn(s0, s, Batch(d, 1), t);
  }

  lemma MovingBatch(s: State, d: nat, from: nat) returns (t: State)
    requires AtWork(s, d, from) && s.jobs[d].cursor.On? && BatchOf(s.rows, s.jobs[d].cursor.table, from, 1) != {}
    ensures DoBatch(s, d, 1) == Some(t) && DriverOnly(s, t, d) && d !in t.jobs && t.rotation == s.rotation
    ensures s.jobs[d].cursor.table != Facts
    ensures |Pending(t.rows, s.jobs[d].cursor.table, from)| < |Pending(s.rows, s.jobs[d].cursor.table, from)|
    ensures t.rows.Keys == s.rows.Keys
  {
    var j := s.jobs[d];
    assert JobInv(s, d, j);
    var ids := BatchOf(s.rows, j.cursor.table, from, 1);
    BatchOpensItsRows(s, j.cursor.table, ids, from, j.fromKey.value);
    var rows' := MigrateRows(s.rows, j.cursor.table, ids, from, from + 1, j.fromKey.value, j.toKey.value).value;
    RotateRunner.PendingSizes(s.rows, j.cursor.table, ids, from, from + 1, j.fromKey.value, j.toKey.value, rows', j.cursor.table);
    t := DoBatch(s, d, 1).value;
  }

  function Left(s: State, c: Cursor, from: nat): nat {
    if c.On? then |Pending(s.rows, c.table, from)| else 0
  }

  /**
    Left to itself from any state of a rotation in progress, the driver reaches the
    step that completes it.
   */
  lemma {:induction false} Drive(s0: State, s: State, d: nat, from: nat) returns (t: State)
    requires Leads(s0, s) && Inv(s) && Names(s, (from, from + 1)) && s.floor <= from && d !in s.jobs
    ensures Leads(s0, t) && AtWork(t, d, from) && t.jobs[d].cursor == Finished && DriverOnly(s, t, d)
    ensures t.rows.Keys == s.rows.Keys
    decreases |RotateRunner.TablesFrom(s.rotation.value.cursor)|, Left(s, s.rotation.value.cursor, from), 1
  {
    var s1 := Enter(s0, s, d, from);
    assert Left(s1, s1.rotation.value.cursor, from) == Left(s, s.rotation.value.cursor, from);
    t := DriveOn(s0, s1, d, from);
  }

  lemma FewerTables(c: Cursor)
    requires c.On? && c.table != Facts
    ensures |RotateRunner.TablesFrom(NextCursor(c))| < |RotateRunner.TablesFrom(c)|
  {
    match c.table
    case Episodes => assert NextCursor(c) == On(Summaries);
    case Summaries => assert NextCursor(c) == On(Entities);
    case Entities => assert NextCursor(c) == Finished;
  }

  lemma {:induction false} DriveOn(s0: State, s: State, d: nat, from: nat) returns (t: State)
    requires Leads(s0, s) && AtWork(s, d, from)
    ensures Leads(s0, t) && AtWork(t, d, from) && t.jobs[d].cursor == Finished && DriverOnly(s, t, d)
    ensures t.rows.Keys == s.rows.Keys
    decreases |RotateRunner.TablesFrom(s.rotation.value.cursor)|, Left(s, s.rotation.value.cursor, from), 0
  {
    assert JobInv(s, d, s.jobs[d]);
    if s.jobs[d].cursor == Finished {
      t := s;
    } else if BatchOf(s.rows, s.jobs[d].cursor.table, from, 1) == {} {
      var s1 := SkipTable(s0, s, d, from);
      FewerTables(s.jobs[d].cursor);
      t := DriveOn(s0, s1, d, from);
    } else {
      var s1 := MoveRow(s0, s, d, from);
      t := Drive(s0, s1, d, from);
    }
  }

  // --- Exactly when completion can be trusted -----------------------------------------------

  /** The first completion of any careful run from here leaves no row on the version. */
  ghost predicate CompletesEmpty(s: State, from: nat) {
    forall states, events, e, t ::
      PathCompletes(states, events, s, e, t) ==> NoRowOn(t.rows, from)
  }

  ghost predicate PathCompletes(states: seq<State>, events: seq<Event>, s: State, e: Event, t: State) {
    && CarefulPath(states, events) && states[0] == s && (forall x :: x in events ==> !x.Complete?)
    && e.Complete? && Step(states[|events|], e) == Some(t)
  }

  lemma ClearCompletesEmpty(s: State, from: nat)
    requires Inv(s) && Clear(s, from)
    ensures CompletesEmpty(s, from)
  {
    forall states, events, e, t | PathCompletes(states, events, s, e, t) ensures NoRowOn(t.rows, from) {
      ClearStays(states, events, from, 0, |events|);
      PathKeepsInv(states, events, |events|);
      CompleteLeavesNone(states[|events|], e, from, t);
    }
  }

  lemma LeadsToCompletion(s: State, t: State, d: nat, u: State, from: nat)
    requires Leads(s, t) && DoComplete(t, d) == Some(u) && !NoRowOn(u.rows, from)
    ensures !CompletesEmpty(s, from)
  {
    var states, events :| PathTo(states, events, s, t);
    assert PathCompletes(states, events, s, Complete(d), u);
  }

  lemma UnusedJob(jobs: map<nat, Job>) returns (d: nat)
    ensures d !in jobs
  {
    if jobs.Keys == {} {
      d := 0;
    } else {
      MaxExists(jobs.Keys);
      var m :| m in jobs.Keys && forall x :: x in jobs.Keys ==> x <= m;
      d := m + 1;
    }
  }

  /** A writer with the old version's key in hand lets the driver pass its table, and commits. */
  lemma ResolvedWriterBreaks(s0: State, s: State, w: nat, from: nat)
    requires Leads(s0, s) && Inv(s) && Names(s, (from, from + 1)) && s.floor <= from
    requires w in s.jobs && s.jobs[w].Writing? && s.jobs[w].version == from && s.jobs[w].key.Some?
    ensures !CompletesEmpty(s0, from)
  {
    var d := UnusedJob(s.jobs);
    var s1 := Drive(s0, s, d, from);
    assert w in s1.jobs - {d} && (s1.jobs - {d})[w] == (s.jobs - {d})[w];
    var s2, r := CommitOld(s0, s1, w, d, from);
    LeadsToCompletion(s0, s2, d, DoComplete(s2, d).value, from);
  }

  /** The commit itself: a new episode on the old version, the driver's job untouched. */
  lemma CommitOld(s0: State, s: State, w: nat, d: nat, from: nat) returns (t: State, r: RowId)
    requires Leads(s0, s) && Inv(s) && s.minted != [] && d != w && d in s.jobs
    requires w in s.jobs && s.jobs[w].Writing? && s.jobs[w].version == from && s.jobs[w].key.Some?
    ensures Leads(s0, t) && r in t.rows && t.rows[r].version == from && d in t.jobs && t.jobs[d] == s.jobs[d]
  {
    var puts;
    t, r, puts := StoreSomewhere(s, w);
    LeadsOn(s0, s, Commit(w, puts, map[]), t);
    assert d in t.jobs - {w} && (t.jobs - {w})[d] == (s.jobs - {w})[d];
  }

  /** A resolved writer stores a new episode. */
  lemma StoreSomewhere(s: State, w: nat) returns (t: State, r: RowId, puts: map<RowId, Put>)
    requires Inv(s) && s.minted != [] && w in s.jobs && s.jobs[w].Writing? && s.jobs[w].key.Some?
    ensures Step(s, Commit(w, puts, map[])) == Some(t) && r in t.rows && t.rows[r].version == s.jobs[w].version
    ensures OthersKeepTheirJob(s, t, w) && t.rotation == s.rotation && (s.lock == None ==> t.lock == None) && t.minted == s.minted
  {
    PruneSafety.UnusedId(s.rows);
    var id: nat :| RowId(Episodes, id) !in s.rows;
    r := RowId(Episodes, id);
    puts := map[r := Put([Some("text")], 0)];
    t := StoreOld(s, w, r, puts);
  }

  lemma StoreOld(s: State, w: nat, r: RowId, puts: map<RowId, Put>) returns (t: State)
    requires Inv(s) && s.minted != [] && w in s.jobs && s.jobs[w].Writing? && s.jobs[w].key.Some?
    requires r.table == Episodes && r !in s.rows && puts == map[r := Put([Some("text")], 0)]
    ensures DoCommit(s, w, puts, map[]) == Some(t) && r in t.rows && t.rows[r].version == s.jobs[w].version
    ensures OthersKeepTheirJob(s, t, w) && t.rotation == s.rotation && (s.lock == None ==> t.lock == None) && t.minted == s.minted
  {
    CurrentIsNewest(s);
    assert Insertable(s, puts, map[]);
    t := DoCommit(s, w, puts, map[]).value;
    assert r in SealedRows(puts, s.jobs[w].version, s.jobs[w].key.value);
  }

  lemma WriterBreaks(s0: State, s: State, w: nat, from: nat)
    requires Leads(s0, s) && Inv(s) && Names(s, (from, from + 1))
    requires w in s.jobs && s.jobs[w].Writing? && s.jobs[w].version == from
    ensures !CompletesEmpty(s0, from)
  {
    assert JobInv(s, w, s.jobs[w]);
    if s.jobs[w].key.Some? {
      ResolvedWriterBreaks(s0, s, w, from);
    } else {
      FindIsMint(s, s.jobs[w].proc, from);
      var s1 := DoResolveWrite(s, w).value;
      LeadsOn(s0, s, ResolveWrite(w), s1);
      ResolvedWriterBreaks(s0, s1, w, from);
    }
  }

  lemma CreatorBreaks(s: State, w: nat)
    requires Inv(s) && Names(s, (1, 2)) && w in s.jobs && s.jobs[w].Creating?
    ensures !CompletesEmpty(s, 1)
  {
    LeadsNowhere(s);
    PruneSafety.UnusedDek(s.used);
    var dek: Dek :| dek !in s.used;
    var s1 := DoCreateFirst(s, w, dek).value;
    LeadsOn(s, s, CreateFirst(w, dek), s1);
    WriterBreaks(s, s1, w, 1);
  }

  lemma SomeWriterBreaks(s: State, from: nat)
    requires Inv(s) && Names(s, (from, from + 1)) && !NoWriterOn(s, from)
    ensures !CompletesEmpty(s, from)
  {
    var w :| w in s.jobs && ((s.jobs[w].Writing? && s.jobs[w].version == from) || (s.jobs[w].Creating? && from == 1));
    if s.jobs[w].Writing? {
      LeadsNowhere(s);
      WriterBreaks(s, s, w, from);
    } else {
      CreatorBreaks(s, w);
    }
  }

  /**
    A rotation that has just started, beside no other rotation's Continue that can
    go on, is sure to leave nothing on its old version when it completes if and
    only if no in-flight writer holds that version.
   */
  lemma CompletesEmptyIffNoWriter(s: State, from: nat)
    requires Inv(s) && JustStarted(s, from)
    ensures CompletesEmpty(s, from) <==> NoWriterOn(s, from)
  {
    if NoWriterOn(s, from) {
      JustStartedIsClear(s, from);
      ClearCompletesEmpty(s, from);
    } else {
      SomeWriterBreaks(s, from);
    }
  }

  // --- Rows the driver never counts ----------------------------------------------------------

  /** A new writer has read and resolved the newest version. */
  lemma NewWriter(s: State, w: nat) returns (s1: State, s2: State)
    requires Inv(s) && s.minted != [] && w !in s.jobs
    ensures Step(s, BeginWrite(w, w)) == Some(s1) && Step(s1, ResolveWrite(w)) == Some(s2) && Inv(s2)
    ensures Local(s, s2) && s2.lock == s.lock && OthersKeepTheirJob(s, s2, w)
    ensures w in s2.jobs && s2.jobs[w].Writing? && s2.jobs[w].key.Some? && s2.jobs[w].version == |s.minted|
  {
    CurrentIsNewest(s);
    s1 := DoBeginWrite(s, w, w).value;
    StepKeepsInv(s, BeginWrite(w, w), s1);
    FindIsMint(s1, w, |s.minted|);
    s2 := DoResolveWrite(s1, w).value;
    StepKeepsInv(s1, ResolveWrite(w), s2);
  }

  /** A writer on the newest version merges an entity that is still on the old one. */
  lemma MergeTakesRow(s: State, r: RowId, from: nat) returns (t: State, states: seq<State>, events: seq<Event>)
    requires Inv(s) && Names(s, (from, from + 1)) && r in s.rows && r.table == Entities && s.rows[r].version == from
    ensures PathTo(states, events, s, t) && Inv(t) && |events| == 3
    ensures MergedAway(states, events, from, 0, 3) >= 1
    ensures Names(t, (from, from + 1)) && t.floor == s.floor
  {
    var w := UnusedJob(s.jobs);
    var s1, s2 := NewWriter(s, w);
    var merges := map[r := Put([Some("text")], 0)];
    t := MergeOne(s2, w, r, merges, from);
    StepKeepsInv(s2, Commit(w, map[], merges), t);
    states, events := MergePath(s, s1, s2, t, w, merges);
    LastOneMerges(states, events, r, from);
  }

  lemma MergePath(s: State, s1: State, s2: State, t: State, w: nat, merges: map<RowId, Put>)
    returns (states: seq<State>, events: seq<Event>)
    requires Step(s, BeginWrite(w, w)) == Some(s1) && Step(s1, ResolveWrite(w)) == Some(s2)
    requires Step(s2, Commit(w, map[], merges)) == Some(t)
    ensures PathTo(states, events, s, t) && |states| == 4 && |events| == 3 && events[2].Commit?
    ensures states[2] == s2 && states[3] == t
  {
    states, events := [s, s1, s2, t], [BeginWrite(w, w), ResolveWrite(w), Commit(w, map[], merges)];
    ThreeSteps(states, events);
  }

  lemma LastOneMerges(states: seq<State>, events: seq<Event>, r: RowId, from: nat)
    requires |states| == 4 && |events| == 3 && events[2].Commit?
    requires r in states[2].rows && r.table == Entities && states[2].rows[r].version == from
    requires r in states[3].rows && states[3].rows[r].version != from
    ensures MergedAway(states, events, from, 0, 3) >= 1
  {
    assert r in TakenByMerge(states[2], events[2], states[3], from);
    assert Merged(states[2], events[2], states[3], from) >= 1;
    assert Merges(states, events, from)[2] == Merged(states[2], events[2], states[3], from);
  }

  lemma MergeOne(s: State, w: nat, r: RowId, merges: map<RowId, Put>, from: nat) returns (t: State)
    requires Inv(s) && from + 1 == |s.minted| && w in s.jobs && s.jobs[w].Writing? && s.jobs[w].key.Some?
    requires r in s.rows && r.table == Entities && s.rows[r].version == from && merges == map[r := Put([Some("text")], 0)]
    ensures Step(s, Commit(w, map[], merges)) == Some(t) && t.rotation == s.rotation && t.floor == s.floor
    ensures r in t.rows && t.rows[r].version == from + 1
  {
    t := StoreMerge(s, w, r, merges, from);
  }

  lemma StoreMerge(s: State, w: nat, r: RowId, merges: map<RowId, Put>, from: nat) returns (t: State)
    requires Inv(s) && from + 1 == |s.minted| && w in s.jobs && s.jobs[w].Writing? && s.jobs[w].key.Some?
    requires r in s.rows && r.table == Entities && s.rows[r].version == from && merges == map[r := Put([Some("text")], 0)]
    ensures DoCommit(s, w, map[], merges) == Some(t) && t.rotation == s.rotation && t.floor == s.floor
    ensures r in t.rows && t.rows[r].version == from + 1
  {
    CurrentIsNewest(s);
    assert RowInv(s.rows[r], s.truth[r], s.minted, s.floor);
    FindIsMint(s, s.jobs[w].proc, from);
    FindIsMint(s, s.jobs[w].proc, from + 1);
    assert CanMerge(s, s.jobs[w].proc, r);
    t := DoCommit(s, w, map[], merges).value;
    assert r in SealedRows(merges, from + 1, Find(s, s.jobs[w].proc, from + 1).value);
  }

  lemma ThreeSteps(states: seq<State>, events: seq<Event>)
    requires |states| == 4 && |events| == 3 && forall e :: e in events ==> !e.CountPrune?
    requires Step(states[0], events[0]) == Some(states[1]) && Step(states[1], events[1]) == Some(states[2])
    requires Step(states[2], events[2]) == Some(states[3])
    ensures CarefulPath(states, events)
  {
    forall i | 0 <= i < |events| ensures Step(states[i], events[i]) == Some(states[i + 1]) && Careful(states[i], events[i]) {
      assert events[i] in events;
      assert i == 0 || i == 1 || i == 2;
    }
  }

  lemma JoinPaths(a: seq<State>, e: seq<Event>, b: seq<State>, f: seq<Event>, s: State, t: State, u: State)
    requires PathTo(a, e, s, t) && PathTo(b, f, t, u)
    ensures PathTo(a + b[1..], e + f, s, u)
  {
    var states, events := a + b[1..], e + f;
    forall i | 0 <= i < |events| ensures Step(states[i], events[i]) == Some(states[i + 1]) && Careful(states[i], events[i]) {
      if i < |e| {
        assert Step(a[i], e[i]) == Some(a[i + 1]) && Careful(a[i], e[i]);
      } else {
        var k := i - |e|;
        assert Step(b[k], f[k]) == Some(b[k + 1]) && Careful(b[k], f[k]);
        assert states[i] == b[k] && states[i + 1] == b[k + 1] && events[i] == f[k];
      }
    }
    assert states[|events|] == u;
  }

  /** The sum over a longer sequence is no less. */
  lemma {:induction false} SumGrows(xs: seq<nat>, ys: seq<nat>, n: nat)
    requires xs <= ys && |xs| <= n <= |ys|
    ensures Sum(xs, 0, |xs|) <= Sum(ys, 0, n)
    decreases n
  {
    if |xs| < n {
      SumGrows(xs, ys, n - 1);
    } else if n > 0 {
      SumGrows(xs[..n - 1], ys, n - 1);
      SameSum(xs[..n - 1], xs, n - 1);
    }
  }

  lemma {:induction false} SameSum(xs: seq<nat>, ys: seq<nat>, n: nat)
    requires xs <= ys && n <= |xs|
    ensures Sum(xs, 0, n) == Sum(ys, 0, n)
  {
    if n > 0 {
      SameSum(xs, ys, n - 1);
    }
  }

  lemma MergesOfPrefix(a: seq<State>, e: seq<Event>, states: seq<State>, events: seq<Event>, v: nat)
    requires |a| == |e| + 1 && |states| == |events| + 1 && a <= states && e <= events
    ensures Merges(a, e, v) <= Merges(states, events, v)
  {
    forall k | 0 <= k < |e| ensures Merges(a, e, v)[k] == Merges(states, events, v)[k] {
      assert a[k] == states[k] && a[k + 1] == states[k + 1] && e[k] == events[k];
    }
  }

  /**
    Beside writers the driver's total need not be the backlog it began with: from
    any clear rotation with an entity still on the old version there is a run to its
    completion in which the Continue calls report fewer rows than there were.
   */
  lemma TotalFallsShort(s: State, r: RowId, from: nat) returns (states: seq<State>, events: seq<Event>, e: Event, u: State)
    requires Inv(s) && Clear(s, from) && r in s.rows && r.table == Entities && s.rows[r].version == from
    ensures PathCompletes(states, events, s, e, u)
    ensures Total(states, events, 0, |events|) < |OnVersion(s.rows, from)|
  {
    assert RowInv(s.rows[r], s.truth[r], s.minted, s.floor);
    var t, a, f := MergeTakesRow(s, r, from);
    LeadsNowhere(t);
    var d := UnusedJob(t.jobs);
    var w := Drive(t, t, d, from);
    var b, g :| PathTo(b, g, t, w);
    JoinPaths(a, f, b, g, s, t, w);
    states, events, e := a + b[1..], f + g, Complete(d);
    u := DoComplete(w, d).value;
    assert PathCompletes(states, events, s, e, u);
    ShortTotal(a, f, states, events, s, e, u, from);
  }

  lemma ShortTotal(a: seq<State>, f: seq<Event>, states: seq<State>, events: seq<Event>, s: State, e: Event, u: State, from: nat)
    requires Inv(s) && Clear(s, from) && PathCompletes(states, events, s, e, u)
    requires |a| == |f| + 1 && |f| == 3 && a <= states && f <= events && MergedAway(a, f, from, 0, 3) >= 1
    ensures Total(states, events, 0, |events|) < |OnVersion(s.rows, from)|
  {
    MergesOfPrefix(a, f, states, events, from);
    SumGrows(Merges(a, f, from), Merges(states, events, from), |events|);
    CountsToEnd(states, events, s, e, u, from);
  }

  lemma CountsToEnd(states: seq<State>, events: seq<Event>, s: State, e: Event, u: State, from: nat)
    requires PathCompletes(states, events, s, e, u) && Inv(s) && Clear(s, from)
    ensures Total(states, events, 0, |events|) + MergedAway(states, events, from, 0, |events|) == |OnVersion(s.rows, from)|
  {
    CountsAddUp(states, events, from, 0, |events|);
    ClearStays(states, events, from, 0, |events|);
    PathKeepsInv(states, events, |events|);
    CompleteLeavesNone(states[|events|], e, from, u);
    NothingOnVersion(states[|events|].rows, from);
  }

  // --- A stale Continue -------------------------------------------------------------------------

  lemma StartOn(s: State, j: nat, phase: StartPhase, dek: Dek) returns (t: State)
    requires PruneHazard.Reached(s) && Inv(s) && j in s.jobs && s.jobs[j] == Starting(j, phase) && NotInProgress(s.rotation)
    requires s.minted != [] && dek !in s.used && !phase.Upserting?
    ensures PruneHazard.Reached(t) && Inv(t) && t.rows == s.rows && OthersKeepTheirJob(s, t, j) && t.rotation == s.rotation
    ensures j in t.jobs && t.jobs[j].Starting? && t.jobs[j].proc == j
    ensures match phase
            case Checking => t.jobs[j].phase == ReadingFrom && t.minted == s.minted && t.used == s.used
            case ReadingFrom => t.jobs[j].phase == ReadingNext(|s.minted|) && t.minted == s.minted && t.used == s.used
            case ReadingNext(_) => t.jobs[j].phase == Inserting(|s.minted|, |s.minted| + 1) && t.minted == s.minted && t.used == s.used
            case Inserting(_, _) => t.jobs[j].phase == Reloading(|s.minted|, |s.minted| + 1) && |t.minted| == |s.minted| + 1
            case Reloading(from, to) => t.jobs[j].phase == Upserting(from, to) && t.minted == s.minted
            case _ => true
  {
    assert JobInv(s, j, s.jobs[j]);
    CurrentIsNewest(s);
    if phase.Reloading? {
      FindIsMint(s, j, phase.to);
      assert |s.minted| in s.keys;
    }
    t := DoStepStart(s, j, dek).value;
    PruneHazard.Next(s, StepStart(j, dek), t);
    StepKeepsInv(s, StepStart(j, dek), t);
  }

  /** A Start call nothing disturbs. */
  lemma StartOver(s: State, j: nat) returns (t: State)
    requires PruneHazard.Reached(s) && Inv(s) && s.lock == None && NotInProgress(s.rotation) && s.minted != [] && j !in s.jobs
    ensures PruneHazard.Reached(t) && Inv(t) && t.rows == s.rows && OthersKeepTheirJob(s, t, j)
    ensures Names(t, (|s.minted|, |s.minted| + 1))
  {
    PruneSafety.UnusedDek(s.used);
    var dek: Dek :| dek !in s.used;
    var s1 := DoBeginStart(s, j, j).value;
    PruneHazard.Next(s, BeginStart(j, j), s1);
    StepKeepsInv(s, BeginStart(j, j), s1);
    var s2 := StartOn(s1, j, Checking, dek);
    var s3 := StartOn(s2, j, ReadingFrom, dek);
    var s4 := StartOn(s3, j, s3.jobs[j].phase, dek);
    var s5 := StartOn(s4, j, s4.jobs[j].phase, dek);
    t := FinishStart(s5, j);
  }

  lemma FinishStart(s: State, j: nat) returns (t: State)
    requires PruneHazard.Reached(s) && Inv(s) && NotInProgress(s.rotation) && j in s.jobs
    requires |s.minted| >= 2 && s.jobs[j] == Starting(j, Reloading(|s.minted| - 1, |s.minted|))
    ensures PruneHazard.Reached(t) && Inv(t) && t.rows == s.rows && OthersKeepTheirJob(s, t, j)
    ensures Names(t, (|s.minted| - 1, |s.minted|))
  {
    PruneSafety.UnusedDek(s.used);
    var dek: Dek :| dek !in s.used;
    var s1 := StartOn(s, j, s.jobs[j].phase, dek);
    t := DoStepStart(s1, j, 0).value;
    PruneHazard.Next(s1, StepStart(j, 0), t);
    StepKeepsInv(s1, StepStart(j, 0), t);
  }

  /** A Continue call that has nothing left to do but to mark its rotation completed. */
  ghost predicate AboutToComplete(s: State, k: nat) {
    k in s.jobs && Ready(s.jobs[k]) && s.jobs[k].turn == CompleteTurn
  }

  /** A second Continue call beside the stalled first one, at the end of the walk. */
  ghost predicate Beside(s: State, first: Job, second: Job) {
    && s.rows == map[] && s.lock == None && s.keys == map[1 := 10, 2 := 20]
    && s.rotation == Some(Rotation(1, 2, InProgress, Finished))
    && 4 in s.jobs && s.jobs[4] == first && 6 in s.jobs && s.jobs[6] == second && 7 !in s.jobs
  }

  lemma ResolveBeside(s: State, first: Job, second: Job) returns (t: State, next: Job)
    requires PruneHazard.Reached(s) && Beside(s, first, second)
    requires second.Continuing? && second.from == 1 && second.to == 2 && second.toKey.None? && second.turn == CompleteTurn
    ensures PruneHazard.Reached(t) && Beside(t, first, next)
    ensures next.Continuing? && next.from == 1 && next.to == 2 && next.turn == CompleteTurn
    ensures if second.fromKey.None? then next.fromKey.Some? && next.toKey.None? else next.fromKey.Some? && next.toKey.Some?
  {
    t := DoResolveContinue(s, 6).value;
    PruneHazard.Next(s, ResolveContinue(6), t);
    next := t.jobs[6];
  }

  /** A second Continue call completes the rotation while the first one stalls. */
  lemma SecondCallCompletes(s: State) returns (t: State)
    requires PruneHazard.Reached(s) && PruneHazard.Walking(s, Finished, CompleteTurn)
    ensures PruneHazard.Reached(t) && t.rows == map[] && t.lock == None && t.keys == s.keys
    ensures NotInProgress(t.rotation) && 4 in t.jobs && t.jobs[4] == s.jobs[4] && 6 !in t.jobs && 7 !in t.jobs
  {
    var s1 := DoBeginContinue(s, 6, 6).value;
    PruneHazard.Next(s, BeginContinue(6, 6), s1);
    assert Beside(s1, s.jobs[4], s1.jobs[6]);
    var s2, one := ResolveBeside(s1, s.jobs[4], s1.jobs[6]);
    var s3, both := ResolveBeside(s2, s.jobs[4], one);
    t := DoComplete(s3, 6).value;
    PruneHazard.Next(s3, Complete(6), t);
  }

  /** A row is written on the newest version. */
  lemma WriteOne(s: State) returns (t: State, r: RowId)
    requires PruneHazard.Reached(s) && Inv(s) && s.minted != [] && 7 !in s.jobs
    ensures PruneHazard.Reached(t) && r in t.rows && t.rows[r].version == |s.minted|
    ensures t.rotation == s.rotation && (s.lock == None ==> t.lock == None) && OthersKeepTheirJob(s, t, 7)
    ensures t.minted == s.minted
  {
    var s1, s2 := NewWriter(s, 7);
    PruneHazard.Next(s, BeginWrite(7, 7), s1);
    PruneHazard.Next(s1, ResolveWrite(7), s2);
    var puts;
    t, r, puts := StoreSomewhere(s2, 7);
    PruneHazard.Next(s2, Commit(7, puts, map[]), t);
  }

  /**
    A run from the beginning in which a stalled Continue of one rotation marks the
    next one completed at once, with a row still on its old version.
   */
  lemma StaleContinueCompletesWrongly() returns (s: State, r: RowId, t: State)
    ensures PruneHazard.Reached(s) && Names(s, (2, 3)) && AboutToComplete(s, 4) && s.jobs[4].from == 1
    ensures DoComplete(s, 4) == Some(t) && t.rotation.Some? && t.rotation.value.status == Completed
    ensures r in t.rows && t.rows[r].version == t.rotation.value.from == 2
  {
    var s0 := PruneHazard.SlowCreator();
    var s1 := PruneHazard.StartRotation(s0);
    var s2 := PruneHazard.EnterContinue(s1);
    var s3 := PruneHazard.WalkOn(s2, Episodes);
    var s4 := PruneHazard.WalkOn(s3, Summaries);
    var s5 := PruneHazard.WalkOn(s4, Entities);
    var s6 := SecondCallCompletes(s5);
    PruneHazard.ReachedKeepsInv(s6);
    TwoVersions(s6);
    s, r := StartAgain(s6);
    t := DoComplete(s, 4).value;
  }

  lemma TwoVersions(s: State)
    requires Inv(s) && s.keys == map[1 := 10, 2 := 20]
    ensures |s.minted| == 2
  {
    CurrentIsNewest(s);
    PruneHazard.NewestOf(s.keys, 2);
  }

  lemma StartAgain(s: State) returns (t: State, r: RowId)
    requires PruneHazard.Reached(s) && Inv(s) && |s.minted| == 2 && s.lock == None && NotInProgress(s.rotation)
    requires AboutToComplete(s, 4) && 7 !in s.jobs
    ensures PruneHazard.Reached(t) && Names(t, (2, 3)) && 4 in t.jobs && t.jobs[4] == s.jobs[4]
    ensures r in t.rows && t.rows[r].version == 2
  {
    var s1;
    s1, r := WriteOne(s);
    PruneHazard.ReachedKeepsInv(s1);
    assert 4 in s1.jobs - {7} && (s1.jobs - {7})[4] == (s.jobs - {7})[4];
    var j := UnusedJob(s1.jobs);
    t := StartOver(s1, j);
    assert 4 in t.jobs - {j} && (t.jobs - {j})[4] == (s1.jobs - {j})[4];
  }
}
