/**
  internal/consolidation/runner.go: how a new summary at one level re-runs the
  rollups above it. Two of its queries ask for rows with `supersedes is null`,
  the first row of a chain, where the rest of the program means the last one;
  both readings of "current" are kept here side by side.
 */
module RollupCascade {
  import opened Basics
  import opened SummaryChains

  datatype Reading = Root | Tip

  /** Whether the n-th attempt to generate and store a summary works, and at what time. */
  datatype Env = Env(works: nat -> bool, now: nat -> nat)

  datatype World = World(rows: Store, calls: nat)

  function LevelAbove(l: Level): Option<Level> {
    match l
    case Daily => Some(Weekly)
    case Weekly => Some(Monthly)
    case Monthly => Some(Yearly)
    case Yearly => None
  }

  function LevelBelow(l: Level): Option<Level> {
    match l
    case Weekly => Some(Daily)
    case Monthly => Some(Weekly)
    case Yearly => Some(Monthly)
    case Daily => None
  }

  /** How many levels are above. */
  function Height(l: Level): nat {
    match l case Daily => 3 case Weekly => 2 case Monthly => 1 case Yearly => 0
  }

  lemma LevelsInvert(a: Level, b: Level)
    ensures LevelAbove(a) == Some(b) <==> LevelBelow(b) == Some(a)
  {
  }

  predicate CurrentBy(reading: Reading, rows: Store, i: nat)
    requires i < |rows|
  {
    match reading
    case Root => rows[i].supersedes.None?
    case Tip => !Superseded(rows, i)
  }

  /** The row is one of the given periods of the level below. */
  predicate SourceOf(rows: Store, level: Level, sources: seq<Period>, j: nat)
    requires j < |rows|
  {
    LevelBelow(level) == Some(rows[j].place.level) && rows[j].place.period in sources
  }

  /** rollupIsStale: the newest source that counts as current was created after the rollup. */
  predicate RollupIsStale(reading: Reading, rows: Store, i: nat, sources: seq<Period>)
    requires i < |rows|
  {
    exists j :: 0 <= j < |rows| && SourceOf(rows, rows[i].place.level, sources, j)
             && CurrentBy(reading, rows, j) && rows[j].at > rows[i].at
  }

  /** loadSummaries finds something. */
  predicate HasSources(rows: Store, level: Level, sources: seq<Period>) {
    exists j :: 0 <= j < |rows| && SourceOf(rows, level, sources, j) && !Superseded(rows, j)
  }

  /** The row is a rollup with the given place among its sources. */
  predicate Covers(row: Summary, place: Place) {
    LevelAbove(place.level) == Some(row.place.level) && place.period in row.sources
  }

  /** refreshRollupsCovering's query, over the first n rows. */
  function Covering(reading: Reading, rows: Store, place: Place, n: nat): (list: seq<Summary>)
    requires n <= |rows|
    ensures forall c :: c in list <==> exists i :: 0 <= i < n && rows[i] == c && Covers(c, place) && CurrentBy(reading, rows, i)
  {
    if n == 0 then []
    else
      var list := Covering(reading, rows, place, n - 1);
      if Covers(rows[n - 1], place) && CurrentBy(reading, rows, n - 1) then list + [rows[n - 1]] else list
  }

  // --- The operations --------------------------------------------------------------------

  /** storeSummary, with the generation in front of it. */
  function StoreSummary(env: Env, w: World, place: Place, supersedes: Option<nat>, sources: seq<Period>): (World, bool) {
    var stored := Insert(w.rows, place, supersedes, sources, env.now(w.calls));
    if !env.works(w.calls) || stored.None? then (World(w.rows, w.calls + 1), false)
    else (World(stored.value, w.calls + 1), true)
  }

  /** What RunDaily and RunRollup do once they know their sources. */
  function Regenerate(env: Env, reading: Reading, w: World, place: Place, sources: seq<Period>): (World, bool)
    decreases Height(place.level), 1, 0
  {
    var (w', ok) := StoreSummary(env, w, place, Current(w.rows, place), sources);
    if ok then (Refresh(env, reading, w', place), true) else (w', false)
  }

  function RunDaily(env: Env, reading: Reading, w: World, day: Period, episodes: nat): (World, bool) {
    if episodes == 0 then (w, true) else Regenerate(env, reading, w, Place(Daily, day), [])
  }

  function RunRollup(env: Env, reading: Reading, w: World, place: Place, sources: seq<Period>): (World, bool)
    decreases Height(place.level), 2, 0
  {
    var existing := Current(w.rows, place);
    if existing.Some? && !RollupIsStale(reading, w.rows, existing.value, sources) then (w, true)
    else if !HasSources(w.rows, place.level, sources) then (w, true)
    else Regenerate(env, reading, w, place, sources)
  }

  /** refreshRollupsCovering */
  function Refresh(env: Env, reading: Reading, w: World, place: Place): World
    decreases Height(place.level), 0, 0
  {
    match LevelAbove(place.level)
    case None => w
    case Some(level) => RefreshEach(env, reading, w, level, Covering(reading, w.rows, place, |w.rows|))
  }

  /** Its loop; a rollup that fails does not stop the others. */
  function RefreshEach(env: Env, reading: Reading, w: World, level: Level, list: seq<Summary>): World
    requires forall c :: c in list ==> c.place.level == level
    decreases Height(level), 3, |list|
  {
    if list == [] then w
    else
      assert list[0] in list;
      var w' := RunRollup(env, reading, w, list[0].place, list[0].sources).0;
      RefreshEach(env, reading, w', level, list[1..])
  }

  /** Only a current summary can be corrected, and only with a reason; false is an error. */
  function Correct(env: Env, w: World, id: nat, reason: string): (World, bool) {
    if reason == "" || id >= |w.rows| || Superseded(w.rows, id) then (w, false)
    else StoreSummary(env, w, w.rows[id].place, Some(id), w.rows[id].sources)
  }

  /** The reason is the program's own, and not empty. */
  const CONTRADICTION := "system-detected contradiction"

  /** One related summary that the model found contradicted: corrected if it is still current, then the rollups over it. */
  function CorrectRelated(env: Env, reading: Reading, w: World, id: nat): World {
    var (w', ok) := Correct(env, w, id, CONTRADICTION);
    if ok then Refresh(env, reading, w', w.rows[id].place) else w'
  }

  function CorrectEach(env: Env, reading: Reading, w: World, ids: seq<nat>): World
    decreases |ids|
  {
    if ids == [] then w else CorrectEach(env, reading, CorrectRelated(env, reading, w, ids[0]), ids[1..])
  }

  /**
    The whole of RunDaily: after the day's summary and its cascade, the other
    summaries it contradicts are corrected. Which they are is the language model's
    choice from the table as it then is.
   */
  function RunDay(env: Env, reading: Reading, w: World, day: Period, episodes: nat, contradicted: Store -> seq<nat>): (World, bool) {
    var (w', ok) := RunDaily(env, reading, w, day, episodes);
    if ok && episodes > 0 then (CorrectEach(env, reading, w', contradicted(w'.rows)), true) else (w', ok)
  }

  // --- Well-formed tables -------------------------------------------------------------------

  ghost predicate SamePlace(rows: Store, i: nat, j: nat) {
    i < |rows| && j < |rows| && rows[i].place == rows[j].place
  }

  /** Every version of a rollup lists the same source periods. */
  ghost predicate Uniform(rows: Store) {
    forall i: nat, j: nat {:trigger SamePlace(rows, i, j)} :: SamePlace(rows, i, j) ==> rows[i].sources == rows[j].sources
  }

  /** Later versions were created no earlier. */
  ghost predicate Chronological(rows: Store) {
    forall i: nat, j: nat {:trigger SamePlace(rows, i, j)} :: SamePlace(rows, i, j) && i < j ==> rows[i].at <= rows[j].at
  }

  ghost predicate AllLinear(rows: Store) {
    forall p :: Linear(rows, p)
  }

  ghost predicate Good(rows: Store) {
    Forest(rows) && AllLinear(rows) && Uniform(rows) && Chronological(rows)
  }

  /** The clock never runs backwards and is not behind any row. */
  ghost predicate Timed(env: Env, w: World) {
    && (forall m: nat, n: nat :: m <= n ==> env.now(m) <= env.now(n))
    && forall i :: 0 <= i < |w.rows| ==> w.rows[i].at <= env.now(w.calls)
  }

  /** Every store happens strictly after everything already there. */
  ghost predicate StrictlyTimed(env: Env, w: World) {
    && (forall m: nat, n: nat :: m < n ==> env.now(m) < env.now(n))
    && forall i :: 0 <= i < |w.rows| ==> w.rows[i].at < env.now(w.calls)
  }

  /** The table has rows for this rollup with just these sources, or none yet. */
  ghost predicate SourcesFit(rows: Store, place: Place, sources: seq<Period>) {
    forall i :: 0 <= i < |rows| && rows[i].place == place ==> rows[i].sources == sources
  }

  lemma CurrentIsTheTip(rows: Store, place: Place, i: nat)
    requires Good(rows) && i < |rows| && rows[i].place == place
    ensures Current(rows, place).Some? && rows[i].at <= rows[Current(rows, place).value].at
    ensures rows[i].sources == rows[Current(rows, place).value].sources
    ensures !Superseded(rows, i) <==> Current(rows, place) == Some(i)
  {
    assert Linear(rows, place);
    LinearHasOneTip(rows, place);
    OnlyTheNewestIsCurrent(rows, place, i);
    var t := Current(rows, place).value;
    assert SamePlace(rows, i, t);
    assert IsTip(rows, place, i) <==> i in Tips(rows, place);
    if t < i {
      OnlyTheNewestIsCurrent(rows, place, t);
      VersionsInOrder(rows, place, t, i);
    }
  }

  lemma OneMoreIsUniform(rows: Store, rows': Store)
    requires Uniform(rows) && Chronological(rows) && |rows'| == |rows| + 1 && rows <= rows'
    requires SourcesFit(rows, rows'[|rows|].place, rows'[|rows|].sources)
    requires forall i :: 0 <= i < |rows| ==> rows[i].at <= rows'[|rows|].at
    ensures Uniform(rows') && Chronological(rows')
  {
    forall i: nat, j: nat {:trigger SamePlace(rows', i, j)} | SamePlace(rows', i, j)
      ensures rows'[i].sources == rows'[j].sources && (i < j ==> rows'[i].at <= rows'[j].at)
    {
      assert i < |rows| && j < |rows| ==> SamePlace(rows, i, j);
    }
  }

  /** Storing a summary over whatever was current makes it the one current row and touches no other place. */
  lemma StoreOverCurrent(rows: Store, place: Place, sources: seq<Period>, at: nat) returns (rows': Store)
    requires Good(rows) && SourcesFit(rows, place, sources)
    requires forall i :: 0 <= i < |rows| ==> rows[i].at <= at
    ensures Insert(rows, place, Current(rows, place), sources, at) == Some(rows') && Good(rows')
    ensures |rows'| == |rows| + 1 && rows'[..|rows|] == rows && !Superseded(rows', |rows|)
    ensures rows'[|rows|].place == place && rows'[|rows|].sources == sources && rows'[|rows|].at == at
    ensures rows'[|rows|].supersedes == Current(rows, place)
    ensures forall i :: 0 <= i < |rows| ==> (Superseded(rows', i) <==> Superseded(rows, i) || rows[i].place == place)
  {
    var cur := Current(rows, place);
    rows' := Insert(rows, place, cur, sources, at).value;
    InsertKeepsForest(rows, place, cur, sources, at);
    forall p ensures Linear(rows', p) {
      assert Linear(rows, p) && Linear(rows, place);
      LinearHasOneTip(rows, place);
      InsertKeepsLinearIff(rows, place, cur, sources, at, p);
    }
    NewestRow(rows');
    OneMoreIsUniform(rows, rows');
    forall i | 0 <= i < |rows| ensures Superseded(rows', i) <==> Superseded(rows, i) || rows[i].place == place {
      SupersededOneMore(rows', i);
      assert rows'[..|rows|] == rows;
      if rows[i].place == place {
        CurrentIsTheTip(rows, place, i);
      }
    }
  }

  // --- Reading the tip ------------------------------------------------------------------------

  /** A source of the row has a current summary that is newer than the row. */
  ghost predicate StaleRow(rows: Store, i: nat)
    requires i < |rows|
  {
    RollupIsStale(Tip, rows, i, rows[i].sources)
  }

  /** Every current rollup outside the set is at least as new as all its current sources. */
  ghost predicate FreshBut(rows: Store, x: set<Place>) {
    forall i :: 0 <= i < |rows| && !Superseded(rows, i) && StaleRow(rows, i) ==> rows[i].place in x
  }

  /** The rollups that have the place among their sources. */
  function CoveringPlaces(rows: Store, place: Place): set<Place> {
    set i | 0 <= i < |rows| && Covers(rows[i], place) :: rows[i].place
  }

  /** After a store only the rollups that cover it can have become stale. */
  lemma StoreMakesStale(rows: Store, place: Place, sources: seq<Period>, at: nat, x: set<Place>, rows': Store)
    requires Good(rows) && SourcesFit(rows, place, sources)
    requires forall i :: 0 <= i < |rows| ==> rows[i].at <= at
    requires Insert(rows, place, Current(rows, place), sources, at) == Some(rows')
    requires FreshBut(rows, x + {place})
    ensures Good(rows') && FreshBut(rows', x + CoveringPlaces(rows', place))
  {
    var again := StoreOverCurrent(rows, place, sources, at);
    var n := |rows|;
    assert forall i :: 0 <= i < n ==> rows'[i] == rows[i];
    forall i | 0 <= i < |rows'| && !Superseded(rows', i) && StaleRow(rows', i)
      ensures rows'[i].place in x + CoveringPlaces(rows', place)
    {
      var j :| 0 <= j < |rows'| && SourceOf(rows', rows'[i].place.level, rows'[i].sources, j)
            && !Superseded(rows', j) && rows'[j].at > rows'[i].at;
      if j < n {
        assert SourceOf(rows, rows[i].place.level, rows[i].sources, j) && CurrentBy(Tip, rows, j);
        assert StaleRow(rows, i);
      } else {
        LevelsInvert(place.level, rows'[i].place.level);
        assert Covers(rows'[i], place);
      }
    }
  }

  // --- The cascade with the tip reading ----------------------------------------------------

  ghost predicate AllWorks(env: Env) {
    forall n: nat :: env.works(n)
  }

  /** The table still has a row of this place with these sources. */
  ghost predicate Known(rows: Store, c: Summary) {
    exists i :: 0 <= i < |rows| && rows[i].place == c.place && rows[i].sources == c.sources
  }

  ghost predicate AllKnown(rows: Store, list: seq<Summary>) {
    forall c :: c in list ==> Known(rows, c)
  }

  lemma KnownFits(rows: Store, c: Summary)
    requires Good(rows) && Known(rows, c)
    ensures SourcesFit(rows, c.place, c.sources)
  {
    var i: nat :| i < |rows| && rows[i].place == c.place && rows[i].sources == c.sources;
    forall j: nat | j < |rows| && rows[j].place == c.place ensures rows[j].sources == c.sources {
      assert SamePlace(rows, i, j);
    }
  }

  function PlacesOf(list: seq<Summary>): set<Place> {
    set c | c in list :: c.place
  }

  lemma StaleHasSources(rows: Store, i: nat, sources: seq<Period>)
    requires i < |rows| && RollupIsStale(Tip, rows, i, sources)
    ensures HasSources(rows, rows[i].place.level, sources)
  {
  }

  /** With the tip reading, the rollups found are those that cover the place. */
  lemma CoveringTips(rows: Store, place: Place)
    requires Good(rows)
    ensures AllKnown(rows, Covering(Tip, rows, place, |rows|))
    ensures PlacesOf(Covering(Tip, rows, place, |rows|)) == CoveringPlaces(rows, place)
  {
    var list := Covering(Tip, rows, place, |rows|);
    forall q | q in CoveringPlaces(rows, place) ensures q in PlacesOf(list) {
      var i :| 0 <= i < |rows| && Covers(rows[i], place) && rows[i].place == q;
      CurrentIsTheTip(rows, q, i);
      var t := Current(rows, q).value;
      assert CurrentBy(Tip, rows, t) && Covers(rows[t], place);
      assert rows[t] in list;
    }
  }

  lemma RegenerateLeavesFresh(env: Env, w: World, place: Place, sources: seq<Period>, x: set<Place>)
    requires AllWorks(env) && Good(w.rows) && Timed(env, w) && SourcesFit(w.rows, place, sources)
    requires FreshBut(w.rows, x + {place})
    ensures var (w', ok) := Regenerate(env, Tip, w, place, sources);
            ok && Good(w'.rows) && Timed(env, w') && w.rows <= w'.rows && FreshBut(w'.rows, x)
    decreases Height(place.level), 1, 0
  {
    var w1 := StoreInTime(env, w, place, sources);
    StoreMakesStale(w.rows, place, sources, env.now(w.calls), x, w1.rows);
    RefreshLeavesFresh(env, w1, place, x);
  }

  lemma StoreInTime(env: Env, w: World, place: Place, sources: seq<Period>) returns (w1: World)
    requires env.works(w.calls) && Good(w.rows) && Timed(env, w) && SourcesFit(w.rows, place, sources)
    ensures StoreSummary(env, w, place, Current(w.rows, place), sources) == (w1, true)
    ensures Insert(w.rows, place, Current(w.rows, place), sources, env.now(w.calls)) == Some(w1.rows)
    ensures Good(w1.rows) && Timed(env, w1) && w.rows <= w1.rows
  {
    var stored := StoreOverCurrent(w.rows, place, sources, env.now(w.calls));
    w1 := World(stored, w.calls + 1);
    forall i | 0 <= i < |stored| ensures stored[i].at <= env.now(w.calls + 1) {
      assert i < |w.rows| ==> stored[i] == stored[..|w.rows|][i];
      assert env.now(w.calls) <= env.now(w.calls + 1);
    }
  }

  lemma RunRollupLeavesFresh(env: Env, w: World, place: Place, sources: seq<Period>, x: set<Place>)
    requires AllWorks(env) && Good(w.rows) && Timed(env, w) && SourcesFit(w.rows, place, sources)
    requires FreshBut(w.rows, x + {place})
    ensures var w' := RunRollup(env, Tip, w, place, sources).0;
            Good(w'.rows) && Timed(env, w') && w.rows <= w'.rows && FreshBut(w'.rows, x)
    decreases Height(place.level), 2, 0
  {
    var c := Current(w.rows, place);
    if c.Some? && RollupIsStale(Tip, w.rows, c.value, sources) {
      StaleHasSources(w.rows, c.value, sources);
    } else {
      NotStaleIsFresh(w.rows, place, sources, x);
    }
    if RunRollup(env, Tip, w, place, sources) == Regenerate(env, Tip, w, place, sources) {
      RegenerateLeavesFresh(env, w, place, sources, x);
    }
  }

  /** A place with no summary, or a current one that is not stale, adds nothing to the stale places. */
  lemma NotStaleIsFresh(rows: Store, place: Place, sources: seq<Period>, x: set<Place>)
    requires Good(rows) && SourcesFit(rows, place, sources) && FreshBut(rows, x + {place})
    requires Current(rows, place).Some? ==> !RollupIsStale(Tip, rows, Current(rows, place).value, sources)
    ensures FreshBut(rows, x)
  {
    forall i | 0 <= i < |rows| && !Superseded(rows, i) && StaleRow(rows, i) ensures rows[i].place in x {
      if rows[i].place == place {
        CurrentIsTheTip(rows, place, i);
      }
    }
  }

  lemma RefreshLeavesFresh(env: Env, w: World, place: Place, x: set<Place>)
    requires AllWorks(env) && Good(w.rows) && Timed(env, w)
    requires FreshBut(w.rows, x + CoveringPlaces(w.rows, place))
    ensures var w' := Refresh(env, Tip, w, place);
            Good(w'.rows) && Timed(env, w') && w.rows <= w'.rows && FreshBut(w'.rows, x)
    decreases Height(place.level), 0, 0
  {
    CoveringTips(w.rows, place);
    match LevelAbove(place.level)
    case None => assert CoveringPlaces(w.rows, place) == {}; assert x + {} == x;
    case Some(level) => RefreshEachLeavesFresh(env, w, level, Covering(Tip, w.rows, place, |w.rows|), x);
  }

  lemma RefreshEachLeavesFresh(env: Env, w: World, level: Level, list: seq<Summary>, x: set<Place>)
    requires AllWorks(env) && Good(w.rows) && Timed(env, w)
    requires forall c :: c in list ==> c.place.level == level
    requires AllKnown(w.rows, list) && FreshBut(w.rows, x + PlacesOf(list))
    ensures var w' := RefreshEach(env, Tip, w, level, list);
            Good(w'.rows) && Timed(env, w') && w.rows <= w'.rows && FreshBut(w'.rows, x)
    decreases Height(level), 3, |list|
  {
    if list == [] {
      assert x + PlacesOf(list) == x;
    } else {
      var c, rest := list[0], list[1..];
      assert c in list && Known(w.rows, c);
      assert x + PlacesOf(list) == (x + PlacesOf(rest)) + {c.place};
      KnownFits(w.rows, c);
      RunRollupLeavesFresh(env, w, c.place, c.sources, x + PlacesOf(rest));
      var w' := RunRollup(env, Tip, w, c.place, c.sources).0;
      KnownLater(w.rows, w'.rows, rest);
      RefreshEachLeavesFresh(env, w', level, rest, x);
    }
  }

  lemma KnownLater(rows: Store, rows': Store, list: seq<Summary>)
    requires rows <= rows' && AllKnown(rows, list)
    ensures AllKnown(rows', list)
  {
    forall c | c in list ensures Known(rows', c) {
      assert Known(rows, c);
      var i :| 0 <= i < |rows| && rows[i].place == c.place && rows[i].sources == c.sources;
      assert rows'[i].place == c.place && rows'[i].sources == c.sources;
    }
  }
}
