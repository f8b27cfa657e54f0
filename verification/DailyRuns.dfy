/**
  What RunDaily, RunRollup and the corrections that follow leave in the summaries
  table, row by row.
 */
module DailyRuns {
  import opened Basics
  import opened SummaryChains
  import opened RollupCascade

  /** A rollup that covers the place, or one that covers a rollup that does, and so on. */
  ghost predicate Reaches(rows: Store, p: Place, q: Place)
    decreases Height(p.level)
  {
    exists i :: 0 <= i < |rows| && Covers(rows[i], p) && (rows[i].place == q || Reaches(rows, rows[i].place, q))
  }

  /** Rows are only added, and none to a row that has a successor. */
  ghost predicate Appended(rows: Store, rows': Store) {
    rows <= rows' && forall k :: |rows| <= k < |rows'| ==> OverCurrent(rows', k)
  }

  ghost predicate OverCurrent(rows: Store, k: int) {
    0 <= k < |rows| && (rows[k].supersedes.Some? ==> !Superseded(rows[..k], rows[k].supersedes.value))
  }

  /** All that was added is above the place. */
  ghost predicate AddedAbove(rows: Store, rows': Store, p: Place) {
    Appended(rows, rows') && forall k :: |rows| <= k < |rows'| ==> Reaches(rows', p, rows'[k].place)
  }

  /** One row was added, the next version of its place, and then rollups above it. */
  ghost predicate AddedWithRollups(rows: Store, rows': Store, place: Place, supersedes: Option<nat>, sources: seq<Period>, at: nat) {
    && |rows'| > |rows| && Appended(rows, rows')
    && rows'[|rows|] == Summary(place, MaxVersion(rows, place) + 1, supersedes, sources, at)
    && forall k :: |rows| < k < |rows'| ==> Reaches(rows', place, rows'[k].place)
  }

  // --- What a call may leave ---------------------------------------------------------------

  /** A summary that the model found contradicted has its turn: corrected if it is still current and the store works. */
  ghost predicate Turn(env: Env, w: World, id: nat, w': World) {
    if id < |w.rows| && forall j :: 0 <= j < |w.rows| ==> w.rows[j].supersedes != Some(id) then
      if env.works(w.calls) then AddedWithRollups(w.rows, w'.rows, w.rows[id].place, Some(id), w.rows[id].sources, env.now(w.calls))
      else w'.rows == w.rows
    else w' == w
  }

  /** Every listed summary has its turn, whatever became of those before it. */
  ghost predicate Turns(env: Env, ws: seq<World>, ids: seq<nat>) {
    |ws| == |ids| + 1 && forall k :: 0 <= k < |ids| ==> Turn(env, ws[k], ids[k], ws[k + 1])
  }

  /** ws are the tables after the day's summary and its rollups, and after every turn. */
  ghost predicate DayDone(env: Env, w: World, day: Period, episodes: nat, contradicted: Store -> seq<nat>, w': World, ok: bool,
                          ws: seq<World>) {
    if episodes == 0 then w' == w && ok
    else if !env.works(w.calls) then !ok && w'.rows == w.rows
    else
      && ok && ws != [] && ws[|ws| - 1] == w' && Turns(env, ws, contradicted(ws[0].rows))
      && AddedWithRollups(w.rows, ws[0].rows, Place(Daily, day), Current(w.rows, Place(Daily, day)), [], env.now(w.calls))
  }

  /** A current summary of one of the periods, at the level below. */
  ghost predicate IsSource(rows: Store, j: int, place: Place, sources: seq<Period>) {
    && 0 <= j < |rows| && rows[j].place.period in sources
    && match place.level
       case Daily => false
       case Weekly => rows[j].place.level == Daily
       case Monthly => rows[j].place.level == Weekly
       case Yearly => rows[j].place.level == Monthly
  }

  /** Under the reading of current that the staleness query has. */
  ghost predicate IsOutdated(rows: Store, i: nat, place: Place, sources: seq<Period>, reading: Reading)
    requires i < |rows|
  {
    exists j: nat :: IsSource(rows, j, place, sources) && rows[j].at > rows[i].at
                     && match reading case Root => rows[j].supersedes.None? case Tip => !Superseded(rows, j)
  }

  /** A rollup is stored if there is none or it is outdated, and there is something to roll up. */
  ghost predicate RollupDone(env: Env, reading: Reading, w: World, place: Place, sources: seq<Period>, w': World, ok: bool) {
    var existing := Current(w.rows, place);
    if (existing.Some? && !IsOutdated(w.rows, existing.value, place, sources, reading))
       || forall j: nat :: IsSource(w.rows, j, place, sources) ==> Superseded(w.rows, j)
    then w' == w && ok
    else if !env.works(w.calls) then !ok && w'.rows == w.rows
    else ok && AddedWithRollups(w.rows, w'.rows, place, existing, sources, env.now(w.calls))
  }

  /** The row is a rollup of the level just above that has the period among its sources. */
  ghost predicate IsOver(row: Summary, place: Place) {
    && place.period in row.sources
    && match place.level
       case Daily => row.place.level == Weekly
       case Weekly => row.place.level == Monthly
       case Monthly => row.place.level == Yearly
       case Yearly => false
  }

  /** The rollups over a place that the query finds, by where they are stored. */
  ghost predicate Found(rows: Store, place: Place, reading: Reading, at: seq<nat>) {
    && (forall k :: 0 <= k < |at| ==> at[k] < |rows|)
    && (forall j, k :: 0 <= j < k < |at| ==> at[j] < at[k])
    && forall i: nat :: i in at <==> i < |rows| && IsOver(rows[i], place)
                                     && match reading case Root => rows[i].supersedes.None? case Tip => !Superseded(rows, i)
  }

  ghost predicate RollupTurn(env: Env, reading: Reading, w: World, c: Summary, w': World) {
    exists ok :: RollupDone(env, reading, w, c.place, c.sources, w', ok)
  }

  /** Every rollup found has its turn, whether those before it worked or not. */
  ghost predicate Refreshed(env: Env, reading: Reading, rows: Store, at: seq<nat>, ws: seq<World>)
    requires forall k :: 0 <= k < |at| ==> at[k] < |rows|
  {
    |ws| == |at| + 1 && forall k :: 0 <= k < |at| ==> RollupTurn(env, reading, ws[k], rows[at[k]], ws[k + 1])
  }

  ghost predicate RefreshDone(env: Env, reading: Reading, w: World, place: Place, w': World) {
    exists at, ws ::
      Found(w.rows, place, reading, at) && Refreshed(env, reading, w.rows, at, ws) && ws[0] == w && ws[|at|] == w'
  }

  // --- The cascade adds rollups above -----------------------------------------------------------

  lemma AppendedTwice(a: Store, b: Store, c: Store)
    requires Appended(a, b) && Appended(b, c)
    ensures Appended(a, c)
  {
    forall k | |a| <= k < |c| ensures OverCurrent(c, k) {
      if k < |b| {
        assert OverCurrent(b, k) && c[..k] == b[..k] && c[k] == b[k];
      } else {
        assert OverCurrent(c, k);
      }
    }
  }

  lemma {:induction false} ReachesLater(rows: Store, rows': Store, p: Place, q: Place)
    requires rows <= rows' && Reaches(rows, p, q)
    ensures Reaches(rows', p, q)
    decreases Height(p.level)
  {
    var i :| 0 <= i < |rows| && Covers(rows[i], p) && (rows[i].place == q || Reaches(rows, rows[i].place, q));
    assert rows'[i] == rows[i];
    if rows[i].place != q {
      ReachesLater(rows, rows', rows[i].place, q);
    }
  }

  lemma InsertAppends(rows: Store, place: Place, link: Option<nat>, sources: seq<Period>, at: nat, rows': Store)
    requires Insert(rows, place, link, sources, at) == Some(rows')
    ensures Appended(rows, rows') && |rows'| == |rows| + 1
    ensures rows'[|rows|] == Summary(place, MaxVersion(rows, place) + 1, link, sources, at)
  {
    assert rows'[..|rows|] == rows;
    assert OverCurrent(rows', |rows|);
  }

  /** A store and then what a refresh adds. */
  lemma StoreThenAbove(rows: Store, place: Place, link: Option<nat>, sources: seq<Period>, at: nat, r: Store, rows': Store)
    requires Insert(rows, place, link, sources, at) == Some(r) && AddedAbove(r, rows', place)
    ensures AddedWithRollups(rows, rows', place, link, sources, at)
  {
    InsertAppends(rows, place, link, sources, at, r);
    AppendedTwice(rows, r, rows');
  }

  lemma CurrentIsNotSuperseded(rows: Store, place: Place)
    ensures Current(rows, place).Some? ==> !Superseded(rows, Current(rows, place).value)
  {
  }

  lemma RegenerateAdds(env: Env, reading: Reading, w: World, place: Place, sources: seq<Period>)
    ensures var (w', ok) := Regenerate(env, reading, w, place, sources);
            if env.works(w.calls) then ok && AddedWithRollups(w.rows, w'.rows, place, Current(w.rows, place), sources, env.now(w.calls))
            else !ok && w'.rows == w.rows
    decreases Height(place.level), 1, 0
  {
    CurrentIsNotSuperseded(w.rows, place);
    var (w1, ok) := StoreSummary(env, w, place, Current(w.rows, place), sources);
    if ok {
      RefreshAdds(env, reading, w1, place);
      StoreThenAbove(w.rows, place, Current(w.rows, place), sources, env.now(w.calls), w1.rows, Refresh(env, reading, w1, place).rows);
    }
  }

  lemma RollupAdds(env: Env, reading: Reading, w: World, place: Place, sources: seq<Period>)
    ensures var w' := RunRollup(env, reading, w, place, sources).0;
            w'.rows == w.rows
            || AddedWithRollups(w.rows, w'.rows, place, Current(w.rows, place), sources, env.now(w.calls))
    decreases Height(place.level), 2, 0
  {
    RegenerateAdds(env, reading, w, place, sources);
  }

  lemma RefreshAdds(env: Env, reading: Reading, w: World, place: Place)
    ensures AddedAbove(w.rows, Refresh(env, reading, w, place).rows, place)
    decreases Height(place.level), 0, 0
  {
    if LevelAbove(place.level).Some? {
      var list := Covering(reading, w.rows, place, |w.rows|);
      forall c | c in list ensures Covers(c, place) && c in w.rows {
        var i :| 0 <= i < |w.rows| && w.rows[i] == c && Covers(c, place) && CurrentBy(reading, w.rows, i);
      }
      EachAdds(env, reading, w, LevelAbove(place.level).value, list, place);
    }
  }

  lemma EachAdds(env: Env, reading: Reading, w: World, level: Level, list: seq<Summary>, p: Place)
    requires forall c :: c in list ==> c.place.level == level && Covers(c, p) && c in w.rows
    ensures AddedAbove(w.rows, RefreshEach(env, reading, w, level, list).rows, p)
    decreases Height(level), 3, |list|
  {
    if list != [] {
      var c := list[0];
      assert c in list;
      RollupAdds(env, reading, w, c.place, c.sources);
      var w1 := RunRollup(env, reading, w, c.place, c.sources).0;
      var w' := RefreshEach(env, reading, w1, level, list[1..]);
      forall d | d in list[1..] ensures d.place.level == level && Covers(d, p) && d in w1.rows {
        var i :| 0 <= i < |w.rows| && w.rows[i] == d;
        assert w1.rows[i] == d;
      }
      EachAdds(env, reading, w1, level, list[1..], p);
      OneThenEach(w.rows, w1.rows, w'.rows, c, p, env.now(w.calls));
    }
  }

  lemma OneThenEach(rows: Store, r: Store, rows': Store, c: Summary, p: Place, at: nat)
    requires c in rows && Covers(c, p) && AddedAbove(r, rows', p)
    requires r == rows || AddedWithRollups(rows, r, c.place, Current(rows, c.place), c.sources, at)
    ensures AddedAbove(rows, rows', p)
  {
    AppendedTwice(rows, r, rows');
    var i :| 0 <= i < |rows| && rows[i] == c;
    forall k | |rows| <= k < |rows'| ensures Reaches(rows', p, rows'[k].place) {
      if k < |r| {
        assert rows'[k] == r[k] && rows'[i] == c;
        if k > |rows| {
          ReachesLater(r, rows', c.place, r[k].place);
        }
      }
    }
  }

  // --- The calls do what they may -----------------------------------------------------------------

  lemma CorrectTakesTurn(env: Env, reading: Reading, w: World, id: nat)
    ensures Turn(env, w, id, CorrectRelated(env, reading, w, id))
  {
    if id < |w.rows| && !Superseded(w.rows, id) {
      var (w1, ok) := Correct(env, w, id, CONTRADICTION);
      if ok {
        RefreshAdds(env, reading, w1, w.rows[id].place);
        StoreThenAbove(w.rows, w.rows[id].place, Some(id), w.rows[id].sources, env.now(w.calls), w1.rows,
                       Refresh(env, reading, w1, w.rows[id].place).rows);
      }
    }
  }

  lemma {:induction false} CorrectionsTakeTurns(env: Env, reading: Reading, w: World, ids: seq<nat>) returns (ws: seq<World>)
    ensures Turns(env, ws, ids) && ws[0] == w && ws[|ids|] == CorrectEach(env, reading, w, ids)
    decreases |ids|
  {
    if ids == [] {
      ws := [w];
    } else {
      var w1 := CorrectRelated(env, reading, w, ids[0]);
      CorrectTakesTurn(env, reading, w, ids[0]);
      var rest := CorrectionsTakeTurns(env, reading, w1, ids[1..]);
      ws := [w] + rest;
      forall k | 0 <= k < |ids| ensures Turn(env, ws[k], ids[k], ws[k + 1]) {
        if k > 0 {
          assert Turn(env, rest[k - 1], ids[1..][k - 1], rest[k]);
        }
      }
    }
  }

  /** RunDaily leaves the day's summary, the corrections of those it contradicts, and rollups above them. */
  lemma RunDayIsDone(env: Env, reading: Reading, w: World, day: Period, episodes: nat, contradicted: Store -> seq<nat>)
    returns (ws: seq<World>)
    ensures var (w', ok) := RunDay(env, reading, w, day, episodes, contradicted);
            DayDone(env, w, day, episodes, contradicted, w', ok, ws)
  {
    ws := [];
    RegenerateAdds(env, reading, w, Place(Daily, day), []);
    var (w1, ok) := RunDaily(env, reading, w, day, episodes);
    if episodes > 0 && ok {
      ws := CorrectionsTakeTurns(env, reading, w1, contradicted(w1.rows));
    }
  }

  lemma RunRollupIsDone(env: Env, reading: Reading, w: World, place: Place, sources: seq<Period>)
    ensures var (w', ok) := RunRollup(env, reading, w, place, sources);
            RollupDone(env, reading, w, place, sources, w', ok)
  {
    RegenerateAdds(env, reading, w, place, sources);
    var existing := Current(w.rows, place);
    if existing.Some? {
      OutdatedIffStale(reading, w.rows, existing.value, place, sources);
    }
    SourcesIff(w.rows, place, sources);
  }

  /** The rollups among the first n rows that the query finds. */
  ghost predicate FoundUpTo(rows: Store, place: Place, reading: Reading, at: seq<nat>, n: nat)
    requires n <= |rows|
  {
    && (forall k :: 0 <= k < |at| ==> at[k] < n)
    && (forall j, k :: 0 <= j < k < |at| ==> at[j] < at[k])
    && forall i: nat :: i in at <==> i < n && Covers(rows[i], place) && CurrentBy(reading, rows, i)
  }

  lemma FoundOneMore(rows: Store, place: Place, reading: Reading, at: seq<nat>, n: nat, at': seq<nat>)
    requires 0 < n <= |rows| && FoundUpTo(rows, place, reading, at, n - 1)
    requires at' == if Covers(rows[n - 1], place) && CurrentBy(reading, rows, n - 1) then at + [n - 1] else at
    ensures FoundUpTo(rows, place, reading, at', n)
  {
  }

  function FoundAt(reading: Reading, rows: Store, place: Place, n: nat): seq<nat>
    requires n <= |rows|
  {
    if n == 0 then []
    else
      var before := FoundAt(reading, rows, place, n - 1);
      if Covers(rows[n - 1], place) && CurrentBy(reading, rows, n - 1) then before + [n - 1] else before
  }

  lemma {:induction false} FoundAtIsFound(reading: Reading, rows: Store, place: Place, n: nat)
    requires n <= |rows|
    ensures FoundUpTo(rows, place, reading, FoundAt(reading, rows, place, n), n)
  {
    if n > 0 {
      FoundAtIsFound(reading, rows, place, n - 1);
      FoundOneMore(rows, place, reading, FoundAt(reading, rows, place, n - 1), n, FoundAt(reading, rows, place, n));
    }
  }

  lemma {:induction false} CoveringIsFound(reading: Reading, rows: Store, place: Place, n: nat)
    requires n <= |rows|
    ensures var at, list := FoundAt(reading, rows, place, n), Covering(reading, rows, place, n);
            |at| == |list| && forall k :: 0 <= k < |at| ==> at[k] < |rows| && rows[at[k]] == list[k]
  {
    if n > 0 {
      CoveringIsFound(reading, rows, place, n - 1);
    }
  }

  lemma UpToIsFound(rows: Store, place: Place, reading: Reading, at: seq<nat>)
    requires FoundUpTo(rows, place, reading, at, |rows|)
    ensures Found(rows, place, reading, at)
  {
  }

  lemma {:induction false} EachIsRefreshed(env: Env, reading: Reading, w: World, level: Level, list: seq<Summary>) returns (ws: seq<World>)
    requires forall c :: c in list ==> c.place.level == level
    ensures |ws| == |list| + 1 && ws[0] == w && ws[|list|] == RefreshEach(env, reading, w, level, list)
    ensures forall k :: 0 <= k < |list| ==> RollupTurn(env, reading, ws[k], list[k], ws[k + 1])
    decreases |list|
  {
    if list == [] {
      ws := [w];
    } else {
      var c := list[0];
      assert c in list;
      RunRollupIsDone(env, reading, w, c.place, c.sources);
      var (w1, ok) := RunRollup(env, reading, w, c.place, c.sources);
      assert RollupTurn(env, reading, w, c, w1);
      var rest := EachIsRefreshed(env, reading, w1, level, list[1..]);
      ws := [w] + rest;
      forall k | 0 <= k < |list| ensures RollupTurn(env, reading, ws[k], list[k], ws[k + 1]) {
        if k > 0 {
          assert RollupTurn(env, reading, rest[k - 1], list[1..][k - 1], rest[k]);
        }
      }
    }
  }

  lemma RefreshIsDone(env: Env, reading: Reading, w: World, place: Place)
    ensures RefreshDone(env, reading, w, place, Refresh(env, reading, w, place))
  {
    var at := FoundAt(reading, w.rows, place, |w.rows|);
    FoundAtIsFound(reading, w.rows, place, |w.rows|);
    CoveringIsFound(reading, w.rows, place, |w.rows|);
    UpToIsFound(w.rows, place, reading, at);
    var ws := [w];
    if LevelAbove(place.level).Some? {
      ws := EachIsRefreshed(env, reading, w, LevelAbove(place.level).value, Covering(reading, w.rows, place, |w.rows|));
    } else {
      FoundIsAbove(w.rows, place, reading, at);
    }
    assert Refreshed(env, reading, w.rows, at, ws);
  }

  lemma FoundIsAbove(rows: Store, place: Place, reading: Reading, at: seq<nat>)
    requires FoundUpTo(rows, place, reading, at, |rows|)
    ensures at != [] ==> LevelAbove(place.level).Some?
  {
    if at != [] {
      assert at[0] in at;
    }
  }

  lemma OutdatedIffStale(reading: Reading, rows: Store, i: nat, place: Place, sources: seq<Period>)
    requires i < |rows| && rows[i].place == place
    ensures RollupIsStale(reading, rows, i, sources) <==> IsOutdated(rows, i, place, sources, reading)
  {
    if RollupIsStale(reading, rows, i, sources) {
      var j :| 0 <= j < |rows| && SourceOf(rows, rows[i].place.level, sources, j) && CurrentBy(reading, rows, j) && rows[j].at > rows[i].at;
      assert IsSource(rows, j, place, sources);
    }
    if IsOutdated(rows, i, place, sources, reading) {
      var j: nat :| IsSource(rows, j, place, sources) && rows[j].at > rows[i].at
                    && match reading case Root => rows[j].supersedes.None? case Tip => !Superseded(rows, j);
      assert SourceOf(rows, rows[i].place.level, sources, j) && CurrentBy(reading, rows, j);
    }
  }

  lemma SourcesIff(rows: Store, place: Place, sources: seq<Period>)
    ensures HasSources(rows, place.level, sources) <==> !forall j: nat :: IsSource(rows, j, place, sources) ==> Superseded(rows, j)
  {
    if HasSources(rows, place.level, sources) {
      var j :| 0 <= j < |rows| && SourceOf(rows, place.level, sources, j) && !Superseded(rows, j);
      assert IsSource(rows, j, place, sources);
    }
    if j: nat :| IsSource(rows, j, place, sources) && !Superseded(rows, j) {
      assert SourceOf(rows, place.level, sources, j);
    }
  }

  // --- What that comes to ----------------------------------------------------------------------------

  lemma {:induction false} TurnsAppend(env: Env, ws: seq<World>, ids: seq<nat>, k: nat, n: nat)
    requires Turns(env, ws, ids) && k <= n <= |ids|
    ensures Appended(ws[k].rows, ws[n].rows)
    decreases n
  {
    if k < n {
      TurnsAppend(env, ws, ids, k, n - 1);
      assert Turn(env, ws[n - 1], ids[n - 1], ws[n]);
      AppendedTwice(ws[k].rows, ws[n - 1].rows, ws[n].rows);
    }
  }

  /** Once a row has a successor it gets no other. */
  lemma NoSecondSuccessor(rows: Store, rows': Store, id: nat)
    requires Appended(rows, rows') && Superseded(rows, id)
    ensures forall k :: |rows| <= k < |rows'| ==> rows'[k].supersedes != Some(id)
  {
    var j :| 0 <= j < |rows| && rows[j].supersedes == Some(id);
    forall k | |rows| <= k < |rows'| ensures rows'[k].supersedes != Some(id) {
      assert OverCurrent(rows', k);
      assert rows'[..k][j] == rows[j];
    }
  }

  /**
    After RunDaily every listed summary that was current at its turn, and whose
    store worked, has exactly one successor, of the same level and period and with
    the same sources; one that was not current, or whose store failed, gained none
    in its turn.
   */
  lemma ContradictedAreCorrected(env: Env, w: World, day: Period, episodes: nat, contradicted: Store -> seq<nat>, w': World,
                                 ws: seq<World>, k: nat)
    requires DayDone(env, w, day, episodes, contradicted, w', true, ws) && episodes > 0
    requires k < |contradicted(ws[0].rows)|
    ensures var id, now := contradicted(ws[0].rows)[k], ws[k];
            if id < |now.rows| && !Superseded(now.rows, id) && env.works(now.calls) then
              && |now.rows| < |w'.rows| && w'.rows[|now.rows|].supersedes == Some(id)
              && w'.rows[|now.rows|].place == now.rows[id].place && w'.rows[|now.rows|].sources == now.rows[id].sources
              && forall i :: 0 <= i < |w'.rows| && w'.rows[i].supersedes == Some(id) ==> i == |now.rows|
            else ws[k + 1].rows == now.rows
  {
    var ids := contradicted(ws[0].rows);
    var id, now, after := ids[k], ws[k].rows, ws[k + 1].rows;
    assert Turn(env, ws[k], id, ws[k + 1]);
    TurnsAppend(env, ws, ids, k + 1, |ids|);
    if id < |now| && !Superseded(now, id) && env.works(ws[k].calls) {
      assert w'.rows[|now|] == after[|now|] && after[..|now| + 1] <= w'.rows;
      AppendedFrom(now, after, w'.rows);
      assert Superseded(after[..|now| + 1], id) by {
        assert after[..|now| + 1][|now|].supersedes == Some(id);
      }
      NoSecondSuccessor(after[..|now| + 1], w'.rows, id);
    }
  }

  lemma AppendedFrom(a: Store, b: Store, c: Store)
    requires Appended(a, b) && Appended(b, c) && |b| > |a|
    ensures Appended(b[..|a| + 1], c)
  {
    AppendedTwice(a, b, c);
  }
}
