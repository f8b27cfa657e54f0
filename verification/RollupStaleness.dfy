/**
  What the cascade leaves behind: with the reading of "current" that the rest of
  the program uses, nothing stale; with the one its two queries use, exactly the
  rollups described by CodeLeavesFreshIff.
 */
module RollupStaleness {
  import opened Basics
  import opened SummaryChains
  import opened RollupCascade

  // --- The tip reading ------------------------------------------------------------------

  /** A day's new summary, with the corrections that follow from it, leaves no rollup older than any of its current sources. */
  lemma RunDailyLeavesFresh(env: Env, w: World, day: Period, episodes: nat, contradicted: Store -> seq<nat>)
    requires AllWorks(env) && Good(w.rows) && Timed(env, w) && SourcesFit(w.rows, Place(Daily, day), [])
    requires FreshBut(w.rows, {})
    ensures var (w', ok) := RunDay(env, Tip, w, day, episodes, contradicted);
            ok && Good(w'.rows) && Timed(env, w') && FreshBut(w'.rows, {})
  {
    if episodes > 0 {
      RegenerateLeavesFresh(env, w, Place(Daily, day), [], {});
      var w' := RunDaily(env, Tip, w, day, episodes).0;
      CorrectEachLeavesFresh(env, w', contradicted(w'.rows));
    }
  }

  /** Whichever summaries are corrected, and though correcting one may regenerate another of them. */
  lemma {:induction false} CorrectEachLeavesFresh(env: Env, w: World, ids: seq<nat>)
    requires AllWorks(env) && Good(w.rows) && Timed(env, w) && FreshBut(w.rows, {})
    ensures var w' := CorrectEach(env, Tip, w, ids);
            Good(w'.rows) && Timed(env, w') && FreshBut(w'.rows, {}) && w.rows <= w'.rows
    decreases |ids|
  {
    if ids != [] {
      CorrectThenRefreshLeavesFresh(env, w, ids[0], CONTRADICTION);
      CorrectEachLeavesFresh(env, CorrectRelated(env, Tip, w, ids[0]), ids[1..]);
    }
  }

  /** So does a rollup that is due, the first time and every time after. */
  lemma RunRollupKeepsFresh(env: Env, w: World, place: Place, sources: seq<Period>)
    requires AllWorks(env) && Good(w.rows) && Timed(env, w) && SourcesFit(w.rows, place, sources)
    requires FreshBut(w.rows, {})
    ensures var w' := RunRollup(env, Tip, w, place, sources).0;
            Good(w'.rows) && Timed(env, w') && FreshBut(w'.rows, {})
  {
    RunRollupLeavesFresh(env, w, place, sources, {});
  }

  /** A correction that then refreshes the rollups above it repairs exactly what it made stale. */
  lemma CorrectThenRefreshLeavesFresh(env: Env, w: World, id: nat, reason: string)
    requires AllWorks(env) && Good(w.rows) && Timed(env, w) && FreshBut(w.rows, {})
    ensures var (w1, ok) := Correct(env, w, id, reason);
            && (ok <==> reason != "" && id < |w.rows| && !Superseded(w.rows, id))
            && (!ok ==> w1 == w)
            && (ok ==> Tips(w1.rows, w.rows[id].place) == {|w.rows|} && w1.rows[|w.rows|].supersedes == Some(id)
                       && (var w' := Refresh(env, Tip, w1, w.rows[id].place);
                           Good(w'.rows) && Timed(env, w') && w.rows <= w'.rows && FreshBut(w'.rows, {})))
  {
    if reason != "" && id < |w.rows| && !Superseded(w.rows, id) {
      var place, sources := w.rows[id].place, w.rows[id].sources;
      CurrentIsTheTip(w.rows, place, id);
      assert Known(w.rows, w.rows[id]);
      KnownFits(w.rows, w.rows[id]);
      RegenerateLeavesFresh(env, w, place, sources, {});
      var stored := StoreOverCurrent(w.rows, place, sources, env.now(w.calls));
      forall i: nat | i < |stored| ensures IsTip(stored, place, i) <==> i == |w.rows| {
        assert i < |w.rows| ==> stored[i] == stored[..|w.rows|][i];
      }
    }
  }

  // --- The root reading -----------------------------------------------------------------

  /** The two readings agree about a level and period exactly when it has at most one version. */
  lemma ReadingsAgreeIffOneVersion(rows: Store, place: Place)
    requires Good(rows)
    ensures (forall i :: 0 <= i < |rows| && rows[i].place == place ==> (CurrentBy(Root, rows, i) <==> CurrentBy(Tip, rows, i)))
            <==> Count(rows, place) <= 1
  {
    assert Linear(rows, place);
    forall i: nat | i < |rows| && rows[i].place == place
      ensures (CurrentBy(Root, rows, i) <==> rows[i].version == 1) && (CurrentBy(Tip, rows, i) <==> rows[i].version == Count(rows, place))
      ensures 1 <= rows[i].version <= Count(rows, place)
    {
      assert LinkedToPrevious(rows, i) && RowOk(rows, i);
      OnlyTheNewestIsCurrent(rows, place, i);
      assert IsTip(rows, place, i) <==> CurrentBy(Tip, rows, i);
    }
    if Count(rows, place) > 1 {
      LinearHasOneTip(rows, place);
      var t := Current(rows, place).value;
      assert rows[t].version == Count(rows, place);
    }
  }

  ghost predicate RootStale(rows: Store, i: nat)
    requires i < |rows|
  {
    RollupIsStale(Root, rows, i, rows[i].sources)
  }

  /** The code itself finds no current rollup outside the set stale. */
  ghost predicate LooksFreshBut(rows: Store, x: set<Place>) {
    forall i :: 0 <= i < |rows| && !Superseded(rows, i) && RootStale(rows, i) ==> rows[i].place in x
  }

  lemma FreshLooksFresh(rows: Store, x: set<Place>)
    requires Good(rows) && FreshBut(rows, x)
    ensures LooksFreshBut(rows, x)
  {
    forall i | 0 <= i < |rows| && !Superseded(rows, i) && RootStale(rows, i) ensures rows[i].place in x {
      var j :| 0 <= j < |rows| && SourceOf(rows, rows[i].place.level, rows[i].sources, j) && rows[j].at > rows[i].at;
      CurrentIsTheTip(rows, rows[j].place, j);
      var t := Current(rows, rows[j].place).value;
      assert SourceOf(rows, rows[i].place.level, rows[i].sources, t) && CurrentBy(Tip, rows, t);
      assert StaleRow(rows, i);
    }
  }

  /** Superseding a summary changes no root, so nothing more looks stale, and the new row does not. */
  lemma SupersedingLooksFresh(rows: Store, place: Place, sources: seq<Period>, at: nat, x: set<Place>, rows': Store)
    requires Good(rows) && SourcesFit(rows, place, sources) && Current(rows, place).Some?
    requires forall i :: 0 <= i < |rows| ==> rows[i].at <= at
    requires Insert(rows, place, Current(rows, place), sources, at) == Some(rows')
    requires LooksFreshBut(rows, x + {place})
    ensures LooksFreshBut(rows', x)
  {
    var again := StoreOverCurrent(rows, place, sources, at);
    assert forall i :: 0 <= i < |rows| ==> rows'[i] == rows[i];
    forall i | 0 <= i < |rows'| && !Superseded(rows', i) && RootStale(rows', i) ensures rows'[i].place in x {
      var j :| 0 <= j < |rows'| && SourceOf(rows', rows'[i].place.level, rows'[i].sources, j)
            && CurrentBy(Root, rows', j) && rows'[j].at > rows'[i].at;
      assert j < |rows|;
      assert SourceOf(rows, rows[i].place.level, rows[i].sources, j) && CurrentBy(Root, rows, j);
      assert RootStale(rows, i);
    }
  }

  /** The first summary of a level and period is a root, so the rollups that cover it do look stale. */
  lemma FirstSummaryLooksStale(rows: Store, place: Place, sources: seq<Period>, at: nat, rows': Store)
    requires Good(rows) && SourcesFit(rows, place, sources) && Current(rows, place).None?
    requires forall i :: 0 <= i < |rows| ==> rows[i].at < at
    requires Insert(rows, place, Current(rows, place), sources, at) == Some(rows')
    requires LooksFreshBut(rows, {})
    ensures LooksFreshBut(rows', CoveringPlaces(rows', place))
    ensures forall i :: 0 <= i < |rows| && Covers(rows[i], place) ==> RootStale(rows', i)
  {
    var n := |rows|;
    var again := StoreOverCurrent(rows, place, sources, at);
    assert forall i :: 0 <= i < n ==> rows'[i] == rows[i];
    forall i | 0 <= i < |rows'| && !Superseded(rows', i) && RootStale(rows', i)
      ensures rows'[i].place in CoveringPlaces(rows', place)
    {
      var j :| 0 <= j < |rows'| && SourceOf(rows', rows'[i].place.level, rows'[i].sources, j)
            && CurrentBy(Root, rows', j) && rows'[j].at > rows'[i].at;
      if j < n {
        assert SourceOf(rows, rows[i].place.level, rows[i].sources, j) && CurrentBy(Root, rows, j);
      } else {
        LevelsInvert(place.level, rows'[i].place.level);
        assert Covers(rows'[i], place);
      }
    }
    forall i | 0 <= i < n && Covers(rows[i], place) ensures RootStale(rows', i) {
      LevelsInvert(place.level, rows[i].place.level);
      assert SourceOf(rows', rows'[i].place.level, rows'[i].sources, n) && CurrentBy(Root, rows', n);
    }
  }

  // --- The code's cascade -----------------------------------------------------------------

  lemma PlaceHasRoot(rows: Store, i: nat) returns (r: nat)
    requires Good(rows) && i < |rows|
    ensures r < |rows| && rows[r].place == rows[i].place && rows[r].supersedes.None?
  {
    AsManyTipsAsRoots(rows, rows[i].place);
    CountGrows(rows, rows[i].place, i);
    r :| r in Roots(rows, rows[i].place);
  }

  /** The first rows of the covering rollups name the same rollups as their current rows do. */
  lemma CoveringRoots(rows: Store, place: Place)
    requires Good(rows)
    ensures AllKnown(rows, Covering(Root, rows, place, |rows|))
    ensures PlacesOf(Covering(Root, rows, place, |rows|)) == CoveringPlaces(rows, place)
  {
    var list := Covering(Root, rows, place, |rows|);
    forall q | q in CoveringPlaces(rows, place) ensures q in PlacesOf(list) {
      var i :| 0 <= i < |rows| && Covers(rows[i], place) && rows[i].place == q;
      var r := PlaceHasRoot(rows, i);
      assert SamePlace(rows, i, r);
      assert CurrentBy(Root, rows, r) && Covers(rows[r], place);
      assert rows[r] in list;
    }
  }

  /** A rollup that does not look stale is left alone. */
  lemma LooksFreshNothingDone(env: Env, w: World, c: Summary, x: set<Place>)
    requires Good(w.rows) && Known(w.rows, c) && LooksFreshBut(w.rows, x) && c.place !in x
    ensures RunRollup(env, Root, w, c.place, c.sources).0 == w
  {
    var i :| 0 <= i < |w.rows| && w.rows[i].place == c.place && w.rows[i].sources == c.sources;
    CurrentIsTheTip(w.rows, c.place, i);
  }

  lemma {:induction false} RefreshEachDoesNothing(env: Env, w: World, level: Level, list: seq<Summary>, x: set<Place>)
    requires Good(w.rows) && LooksFreshBut(w.rows, x) && AllKnown(w.rows, list)
    requires forall c :: c in list ==> c.place.level == level && c.place !in x
    ensures RefreshEach(env, Root, w, level, list) == w
    decreases |list|
  {
    if list != [] {
      assert list[0] in list;
      LooksFreshNothingDone(env, w, list[0], x);
      RefreshEachDoesNothing(env, w, level, list[1..], x);
    }
  }

  lemma RefreshDoesNothing(env: Env, w: World, place: Place, x: set<Place>)
    requires Good(w.rows) && LooksFreshBut(w.rows, x) && CoveringPlaces(w.rows, place) !! x
    ensures Refresh(env, Root, w, place) == w
  {
    CoveringRoots(w.rows, place);
    if LevelAbove(place.level).Some? {
      var level, list := LevelAbove(place.level).value, Covering(Root, w.rows, place, |w.rows|);
      forall c | c in list ensures c.place !in x {
        assert c.place in PlacesOf(list);
      }
      RefreshEachDoesNothing(env, w, level, list, x);
    }
  }

  /** Regenerating a rollup that already had a summary stops there: nothing above it looks stale. */
  lemma RegenerateStopsHere(env: Env, w: World, place: Place, sources: seq<Period>, x: set<Place>) returns (w1: World)
    requires AllWorks(env) && Good(w.rows) && Timed(env, w) && SourcesFit(w.rows, place, sources)
    requires Current(w.rows, place).Some? && LooksFreshBut(w.rows, x + {place})
    requires CoveringPlaces(w.rows, place) !! x
    ensures Regenerate(env, Root, w, place, sources) == (w1, true)
    ensures Insert(w.rows, place, Current(w.rows, place), sources, env.now(w.calls)) == Some(w1.rows) && w1.calls == w.calls + 1
    ensures Good(w1.rows) && w.rows <= w1.rows && LooksFreshBut(w1.rows, x)
  {
    w1 := StoreInTime(env, w, place, sources);
    SupersedingLooksFresh(w.rows, place, sources, env.now(w.calls), x, w1.rows);
    SameCovering(w.rows, place, sources, env.now(w.calls), w1.rows, place);
    RefreshDoesNothing(env, w1, place, x);
  }

  /** A new row at a place changes nothing about who covers that place, or a place above it. */
  lemma SameCovering(rows: Store, place: Place, sources: seq<Period>, at: nat, rows': Store, q: Place)
    requires Insert(rows, place, Current(rows, place), sources, at) == Some(rows')
    requires LevelAbove(q.level) != Some(place.level)
    ensures CoveringPlaces(rows', q) == CoveringPlaces(rows, q)
  {
    assert forall i :: 0 <= i < |rows| ==> rows'[i] == rows[i];
  }

  /** Some current row of the rollup looks stale. */
  ghost predicate PlaceLooksStale(rows: Store, q: Place) {
    exists i :: 0 <= i < |rows| && rows[i].place == q && !Superseded(rows, i) && RootStale(rows, i)
  }

  /** The second table continues the first with rows of these places only, all at least as late as the time given. */
  ghost predicate Grows(rows: Store, rows': Store, places: set<Place>, at: nat) {
    && rows <= rows'
    && forall k :: |rows| <= k < |rows'| ==> rows'[k].place in places && at <= rows'[k].at
  }

  ghost predicate HasNew(rows: Store, rows': Store, q: Place) {
    exists k :: |rows| <= k < |rows'| && rows'[k].place == q
  }

  /** One turn of the loop: a rollup that looks stale is regenerated once, nothing else happens. */
  lemma OneTurn(env: Env, w: World, c: Summary, x: set<Place>) returns (w1: World)
    requires AllWorks(env) && Good(w.rows) && Timed(env, w) && Known(w.rows, c)
    requires LooksFreshBut(w.rows, x + {c.place}) && (forall q :: q in x ==> q.level == c.place.level)
    ensures RunRollup(env, Root, w, c.place, c.sources).0 == w1
    ensures Good(w1.rows) && Timed(env, w1) && LooksFreshBut(w1.rows, x)
    ensures Turned(env, w, w1, c)
  {
    var t := LooksStaleTip(w.rows, c);
    if RootStale(w.rows, t) {
      KnownFits(w.rows, c);
      LooksStaleHasSources(w.rows, t);
      w1 := RegenerateStopsHere(env, w, c.place, c.sources, x);
      var again := StoreInTime(env, w, c.place, c.sources);
    } else {
      w1 := w;
    }
  }

  /** Whether a rollup looks stale is whether its one current row does. */
  lemma LooksStaleTip(rows: Store, c: Summary) returns (t: nat)
    requires Good(rows) && Known(rows, c)
    ensures Current(rows, c.place) == Some(t) && t < |rows| && rows[t].place == c.place && rows[t].sources == c.sources
    ensures PlaceLooksStale(rows, c.place) <==> RootStale(rows, t)
  {
    var i :| 0 <= i < |rows| && rows[i].place == c.place && rows[i].sources == c.sources;
    CurrentIsTheTip(rows, c.place, i);
    t := Current(rows, c.place).value;
    forall k | 0 <= k < |rows| && rows[k].place == c.place ensures !Superseded(rows, k) <==> k == t {
      CurrentIsTheTip(rows, c.place, k);
    }
  }

  lemma LooksStaleHasSources(rows: Store, i: nat)
    requires Good(rows) && i < |rows| && RootStale(rows, i)
    ensures HasSources(rows, rows[i].place.level, rows[i].sources)
  {
    var j :| 0 <= j < |rows| && SourceOf(rows, rows[i].place.level, rows[i].sources, j) && rows[j].at > rows[i].at;
    CurrentIsTheTip(rows, rows[j].place, j);
    assert SourceOf(rows, rows[i].place.level, rows[i].sources, Current(rows, rows[j].place).value);
  }

  /** Storing at one rollup leaves the others of its level looking as stale as they did. */
  lemma OthersStillLookStale(rows: Store, place: Place, sources: seq<Period>, at: nat, rows': Store, q: Place)
    requires Good(rows) && SourcesFit(rows, place, sources)
    requires forall i :: 0 <= i < |rows| ==> rows[i].at <= at
    requires Insert(rows, place, Current(rows, place), sources, at) == Some(rows')
    requires q != place && PlaceLooksStale(rows, q)
    ensures PlaceLooksStale(rows', q)
  {
    var again := StoreOverCurrent(rows, place, sources, at);
    assert forall i :: 0 <= i < |rows| ==> rows'[i] == rows[i];
    var i :| 0 <= i < |rows| && rows[i].place == q && !Superseded(rows, i) && RootStale(rows, i);
    var j :| 0 <= j < |rows| && SourceOf(rows, q.level, rows[i].sources, j)
          && CurrentBy(Root, rows, j) && rows[j].at > rows[i].at;
    assert SourceOf(rows', q.level, rows'[i].sources, j) && CurrentBy(Root, rows', j);
    assert RootStale(rows', i);
  }

  lemma GrowsTwice(rows: Store, mid: Store, rows': Store, p: set<Place>, p': set<Place>, at: nat, at': nat)
    requires Grows(rows, mid, p, at) && Grows(mid, rows', p', at') && at <= at'
    ensures Grows(rows, rows', p + p', at)
    ensures forall q :: HasNew(rows, mid, q) || HasNew(mid, rows', q) ==> HasNew(rows, rows', q)
  {
    forall k | |rows| <= k < |rows'| ensures rows'[k].place in p + p' && at <= rows'[k].at {
      assert k < |mid| ==> rows'[k] == mid[k];
    }
    forall q | HasNew(rows, mid, q) || HasNew(mid, rows', q) ensures HasNew(rows, rows', q) {
      if HasNew(rows, mid, q) {
        var k :| |rows| <= k < |mid| && mid[k].place == q;
        assert rows'[k].place == q;
      }
    }
  }

  /** The whole loop: every listed rollup that looks stale gets a new row, and no other place does. */
  lemma {:induction false} EachRegenerated(env: Env, w: World, level: Level, list: seq<Summary>)
    requires AllWorks(env) && Good(w.rows) && Timed(env, w) && AllKnown(w.rows, list)
    requires forall c :: c in list ==> c.place.level == level
    requires LooksFreshBut(w.rows, PlacesOf(list))
    ensures var w' := RefreshEach(env, Root, w, level, list);
            && Good(w'.rows) && Grows(w.rows, w'.rows, PlacesOf(list), env.now(w.calls))
            && forall c :: c in list && PlaceLooksStale(w.rows, c.place) ==> HasNew(w.rows, w'.rows, c.place)
    decreases |list|
  {
    if list != [] {
      var c, rest := list[0], list[1..];
      assert c in list && Known(w.rows, c);
      assert PlacesOf(list) == PlacesOf(rest) + {c.place};
      var w1 := OneTurn(env, w, c, PlacesOf(rest));
      KnownLater(w.rows, w1.rows, rest);
      EachRegenerated(env, w1, level, rest);
      var w' := RefreshEach(env, Root, w1, level, rest);
      TurnGrows(env, w, w1, c);
      GrowsTwice(w.rows, w1.rows, w'.rows, {c.place}, PlacesOf(rest), env.now(w.calls), env.now(w1.calls));
      forall d | d in list && PlaceLooksStale(w.rows, d.place) ensures HasNew(w.rows, w'.rows, d.place) {
        TurnKeepsStale(env, w, w1, c, d);
      }
    }
  }

  /** What one turn adds. */
  ghost predicate Turned(env: Env, w: World, w1: World, c: Summary) {
    if PlaceLooksStale(w.rows, c.place)
    then w1.calls == w.calls + 1 && |w1.rows| == |w.rows| + 1
         && Insert(w.rows, c.place, Current(w.rows, c.place), c.sources, env.now(w.calls)) == Some(w1.rows)
    else w1 == w
  }

  lemma TurnGrows(env: Env, w: World, w1: World, c: Summary)
    requires Timed(env, w) && Turned(env, w, w1, c)
    ensures Grows(w.rows, w1.rows, {c.place}, env.now(w.calls)) && env.now(w.calls) <= env.now(w1.calls)
    ensures PlaceLooksStale(w.rows, c.place) ==> HasNew(w.rows, w1.rows, c.place)
  {
    if PlaceLooksStale(w.rows, c.place) {
      assert w1.rows[|w.rows|].place == c.place;
    }
  }

  lemma TurnKeepsStale(env: Env, w: World, w1: World, c: Summary, d: Summary)
    requires Good(w.rows) && Timed(env, w) && Known(w.rows, c) && Turned(env, w, w1, c) && PlaceLooksStale(w.rows, d.place)
    ensures PlaceLooksStale(w1.rows, d.place) || (d.place == c.place && HasNew(w.rows, w1.rows, d.place))
  {
    if d.place == c.place {
      TurnGrows(env, w, w1, c);
    } else if PlaceLooksStale(w.rows, c.place) {
      KnownFits(w.rows, c);
      OthersStillLookStale(w.rows, c.place, c.sources, env.now(w.calls), w1.rows, d.place);
    }
  }

  /** The listed rollups that look stale. */
  ghost function StalePlaces(rows: Store, list: seq<Summary>): set<Place> {
    set c | c in list && PlaceLooksStale(rows, c.place) :: c.place
  }

  ghost predicate NothingCovers(rows: Store, list: seq<Summary>) {
    forall c :: c in list ==> CoveringPlaces(rows, c.place) == {}
  }

  /** If the stale rollups are all listed and look stale, and nothing covers them, the loop leaves nothing stale. */
  lemma {:induction false} EachRegeneratedIsFresh(env: Env, w: World, level: Level, list: seq<Summary>)
    requires AllWorks(env) && Good(w.rows) && Timed(env, w) && AllKnown(w.rows, list)
    requires forall c :: c in list ==> c.place.level == level
    requires LooksFreshBut(w.rows, PlacesOf(list))
    requires FreshBut(w.rows, StalePlaces(w.rows, list)) && NothingCovers(w.rows, list)
    ensures FreshBut(RefreshEach(env, Root, w, level, list).rows, {})
    decreases |list|
  {
    if list != [] {
      var c, rest := list[0], list[1..];
      assert c in list && Known(w.rows, c);
      assert PlacesOf(list) == PlacesOf(rest) + {c.place};
      var w1 := OneTurn(env, w, c, PlacesOf(rest));
      KnownLater(w.rows, w1.rows, rest);
      TurnIsFresh(env, w, w1, c, rest);
      EachRegeneratedIsFresh(env, w1, level, rest);
    }
  }

  lemma TurnIsFresh(env: Env, w: World, w1: World, c: Summary, rest: seq<Summary>)
    requires Good(w.rows) && Timed(env, w) && Known(w.rows, c) && Turned(env, w, w1, c)
    requires forall d :: d in rest ==> d.place.level == c.place.level
    requires FreshBut(w.rows, StalePlaces(w.rows, [c] + rest)) && NothingCovers(w.rows, [c] + rest)
    ensures FreshBut(w1.rows, StalePlaces(w1.rows, rest)) && NothingCovers(w1.rows, rest)
  {
    assert c in [c] + rest;
    if PlaceLooksStale(w.rows, c.place) {
      KnownFits(w.rows, c);
      forall d | d in rest ensures CoveringPlaces(w1.rows, d.place) == {} {
        assert d in [c] + rest;
        SameCovering(w.rows, c.place, c.sources, env.now(w.calls), w1.rows, d.place);
      }
      SameCovering(w.rows, c.place, c.sources, env.now(w.calls), w1.rows, c.place);
      forall q | q in StalePlaces(w.rows, [c] + rest) ensures q in StalePlaces(w1.rows, rest) + {c.place} {
        var d :| d in [c] + rest && PlaceLooksStale(w.rows, d.place) && d.place == q;
        TurnKeepsStale(env, w, w1, c, d);
      }
      StoreMakesStale(w.rows, c.place, c.sources, env.now(w.calls), StalePlaces(w1.rows, rest), w1.rows);
      assert StalePlaces(w1.rows, rest) + {} == StalePlaces(w1.rows, rest);
    } else {
      forall d | d in rest ensures d in [c] + rest {
      }
      assert StalePlaces(w.rows, [c] + rest) == StalePlaces(w.rows, rest);
    }
  }

  // --- Exactly when the code's cascade is complete ---------------------------------------------

  /** Some rollup covers the place. */
  ghost predicate Covered(rows: Store, place: Place) {
    CoveringPlaces(rows, place) != {}
  }

  /** Some rollup covers a rollup that covers the place. */
  ghost predicate CoveredTwice(rows: Store, place: Place) {
    exists q :: q in CoveringPlaces(rows, place) && Covered(rows, q)
  }

  /** A rollup left alone while one of its sources got a newer row is stale. */
  lemma LeftBehind(rows: Store, rows': Store, q: Place, places: set<Place>, at: nat)
    requires Good(rows) && Good(rows') && Grows(rows, rows', places, at) && HasNew(rows, rows', q)
    requires forall i :: 0 <= i < |rows| ==> rows[i].at < at
    requires exists m :: m in CoveringPlaces(rows, q) && m !in places
    ensures !FreshBut(rows', {})
  {
    var m :| m in CoveringPlaces(rows, q) && m !in places;
    var i :| 0 <= i < |rows| && Covers(rows[i], q) && rows[i].place == m;
    CurrentIsTheTip(rows, m, i);
    var t := Current(rows, m).value;
    assert rows'[t] == rows[t] && Covers(rows'[t], q);
    forall j | 0 <= j < |rows'| ensures rows'[j].supersedes != Some(t) {
      assert RowOk(rows', j);
      if j < |rows| {
        assert rows'[j] == rows[j];
      }
    }
    var k :| |rows| <= k < |rows'| && rows'[k].place == q;
    CurrentIsTheTip(rows', q, k);
    LevelsInvert(q.level, m.level);
    var s := Current(rows', q).value;
    assert SourceOf(rows', rows'[t].place.level, rows'[t].sources, s) && CurrentBy(Tip, rows', s);
    assert StaleRow(rows', t);
  }

  lemma StrictIsTimed(env: Env, w: World)
    requires StrictlyTimed(env, w)
    ensures Timed(env, w)
  {
    forall m: nat, n: nat | m <= n ensures env.now(m) <= env.now(n) {
      assert m < n || m == n;
    }
  }

  /** Superseding a summary never reaches the rollups above it. */
  lemma SupersedingIsCompleteIff(env: Env, w: World, place: Place, sources: seq<Period>)
    requires AllWorks(env) && Good(w.rows) && StrictlyTimed(env, w) && SourcesFit(w.rows, place, sources)
    requires FreshBut(w.rows, {}) && Current(w.rows, place).Some?
    ensures FreshBut(Regenerate(env, Root, w, place, sources).0.rows, {}) <==> !Covered(w.rows, place)
  {
    StrictIsTimed(env, w);
    FreshLooksFresh(w.rows, {});
    var w1 := RegenerateStopsHere(env, w, place, sources, {});
    StoreMakesStale(w.rows, place, sources, env.now(w.calls), {}, w1.rows);
    SameCovering(w.rows, place, sources, env.now(w.calls), w1.rows, place);
    assert {} + CoveringPlaces(w1.rows, place) == CoveringPlaces(w1.rows, place);
    if Covered(w.rows, place) {
      assert w1.rows[|w.rows|].place == place;
      var m :| m in CoveringPlaces(w.rows, place);
      assert m != place;
      LeftBehind(w.rows, w1.rows, place, {place}, env.now(w.calls));
    }
  }

  /**
    A correction alone, which is all that cmd/hupi-correct asks for: it refreshes
    nothing, so it leaves nothing stale exactly when no rollup covers what it corrects.
   */
  lemma CorrectionAloneLeavesFreshIff(env: Env, w: World, id: nat, reason: string)
    requires AllWorks(env) && Good(w.rows) && StrictlyTimed(env, w) && FreshBut(w.rows, {})
    requires reason != "" && id < |w.rows| && !Superseded(w.rows, id)
    ensures FreshBut(Correct(env, w, id, reason).0.rows, {}) <==> !Covered(w.rows, w.rows[id].place)
  {
    var place, sources := w.rows[id].place, w.rows[id].sources;
    CurrentIsTheTip(w.rows, place, id);
    assert Known(w.rows, w.rows[id]);
    KnownFits(w.rows, w.rows[id]);
    StrictIsTimed(env, w);
    FreshLooksFresh(w.rows, {});
    var w1 := RegenerateStopsHere(env, w, place, sources, {});
    SupersedingIsCompleteIff(env, w, place, sources);
  }

  /** The first summary of a level and period reaches the rollups that cover it, and stops there. */
  lemma FirstSummaryIsCompleteIff(env: Env, w: World, place: Place, sources: seq<Period>)
    requires AllWorks(env) && Good(w.rows) && StrictlyTimed(env, w) && SourcesFit(w.rows, place, sources)
    requires FreshBut(w.rows, {}) && Current(w.rows, place).None?
    ensures FreshBut(Regenerate(env, Root, w, place, sources).0.rows, {}) <==> !CoveredTwice(w.rows, place)
  {
    StrictIsTimed(env, w);
    FreshLooksFresh(w.rows, {});
    var w1 := StoreInTime(env, w, place, sources);
    var at := env.now(w.calls);
    StoreMakesStale(w.rows, place, sources, at, {}, w1.rows);
    assert {} + CoveringPlaces(w1.rows, place) == CoveringPlaces(w1.rows, place);
    FirstSummaryLooksStale(w.rows, place, sources, at, w1.rows);
    StrictlyBefore(env, w, w1, place, sources);
    SameCoveredTwice(w.rows, place, sources, at, w1.rows);
    if LevelAbove(place.level).Some? {
      CoveringLooksStale(w.rows, w1.rows, place);
      FirstSummaryCascade(env, w1, place);
    } else {
      assert CoveringPlaces(w1.rows, place) == {};
    }
  }

  lemma SameCoveredTwice(rows: Store, place: Place, sources: seq<Period>, at: nat, rows': Store)
    requires Insert(rows, place, Current(rows, place), sources, at) == Some(rows')
    ensures CoveredTwice(rows', place) <==> CoveredTwice(rows, place)
  {
    SameCovering(rows, place, sources, at, rows', place);
    forall q | q in CoveringPlaces(rows, place) ensures CoveringPlaces(rows', q) == CoveringPlaces(rows, q) {
      LevelsInvert(place.level, q.level);
      SameCovering(rows, place, sources, at, rows', q);
    }
  }

  /** A table in which just the rollups covering one place are stale, and look it. */
  ghost predicate JustCoveringStale(env: Env, w: World, place: Place) {
    && Good(w.rows) && Timed(env, w)
    && (forall i :: 0 <= i < |w.rows| ==> w.rows[i].at < env.now(w.calls))
    && LooksFreshBut(w.rows, CoveringPlaces(w.rows, place)) && FreshBut(w.rows, CoveringPlaces(w.rows, place))
    && forall q :: q in CoveringPlaces(w.rows, place) ==> PlaceLooksStale(w.rows, q)
  }

  /** The cascade from there. */
  lemma FirstSummaryCascade(env: Env, w: World, place: Place)
    requires AllWorks(env) && LevelAbove(place.level).Some? && JustCoveringStale(env, w, place)
    ensures FreshBut(Refresh(env, Root, w, place).rows, {}) <==> !CoveredTwice(w.rows, place)
  {
    var level, list := LevelAbove(place.level).value, Covering(Root, w.rows, place, |w.rows|);
    CoveringRoots(w.rows, place);
    if CoveredTwice(w.rows, place) {
      CascadeLeavesBehind(env, w, place, level, list);
    } else {
      CascadeLeavesFresh(env, w, place, level, list);
    }
  }

  lemma CascadeLeavesBehind(env: Env, w: World, place: Place, level: Level, list: seq<Summary>)
    requires AllWorks(env) && JustCoveringStale(env, w, place) && AllKnown(w.rows, list)
    requires PlacesOf(list) == CoveringPlaces(w.rows, place) && forall c :: c in list ==> c.place.level == level
    requires CoveredTwice(w.rows, place)
    ensures !FreshBut(RefreshEach(env, Root, w, level, list).rows, {})
  {
    assert forall c :: c in list ==> c.place in PlacesOf(list);
    EachRegenerated(env, w, level, list);
    var q :| q in CoveringPlaces(w.rows, place) && Covered(w.rows, q);
    SecondLevelLeftBehind(w.rows, RefreshEach(env, Root, w, level, list).rows, list, level, q, env.now(w.calls));
  }

  lemma CascadeLeavesFresh(env: Env, w: World, place: Place, level: Level, list: seq<Summary>)
    requires AllWorks(env) && JustCoveringStale(env, w, place) && AllKnown(w.rows, list)
    requires PlacesOf(list) == CoveringPlaces(w.rows, place) && forall c :: c in list ==> c.place.level == level
    requires !CoveredTwice(w.rows, place)
    ensures FreshBut(RefreshEach(env, Root, w, level, list).rows, {})
  {
    assert forall c :: c in list ==> c.place in PlacesOf(list);
    assert PlacesOf(list) == StalePlaces(w.rows, list);
    assert NothingCovers(w.rows, list);
    EachRegeneratedIsFresh(env, w, level, list);
  }

  lemma SecondLevelLeftBehind(rows: Store, rows': Store, list: seq<Summary>, level: Level, q: Place, at: nat)
    requires Good(rows) && Good(rows') && Grows(rows, rows', PlacesOf(list), at)
    requires forall i :: 0 <= i < |rows| ==> rows[i].at < at
    requires forall c :: c in list ==> c.place.level == level && PlaceLooksStale(rows, c.place) && HasNew(rows, rows', c.place)
    requires q in PlacesOf(list) && CoveringPlaces(rows, q) != {}
    ensures !FreshBut(rows', {})
  {
    var c :| c in list && c.place == q;
    var m :| m in CoveringPlaces(rows, q);
    LevelsInvert(level, m.level);
    assert m.level != level;
    assert m !in PlacesOf(list);
    LeftBehind(rows, rows', q, PlacesOf(list), at);
  }

  lemma StrictlyBefore(env: Env, w: World, w1: World, place: Place, sources: seq<Period>)
    requires StrictlyTimed(env, w) && StoreSummary(env, w, place, None, sources) == (w1, true)
    ensures forall i :: 0 <= i < |w1.rows| ==> w1.rows[i].at < env.now(w1.calls)
  {
    assert env.now(w.calls) < env.now(w.calls + 1);
  }

  /** Every rollup that covers a first summary looks stale. */
  lemma CoveringLooksStale(rows: Store, rows': Store, place: Place)
    requires Good(rows) && Good(rows') && |rows'| == |rows| + 1 && rows <= rows' && rows'[|rows|].place == place
    requires forall i :: 0 <= i < |rows| && Covers(rows[i], place) ==> RootStale(rows', i)
    ensures forall q :: q in CoveringPlaces(rows', place) ==> PlaceLooksStale(rows', q)
  {
    forall q | q in CoveringPlaces(rows', place) ensures PlaceLooksStale(rows', q) {
      var i :| 0 <= i < |rows'| && Covers(rows'[i], place) && rows'[i].place == q;
      CurrentIsTheTip(rows', q, i);
      var t := Current(rows', q).value;
      assert Covers(rows'[t], place);
      assert t < |rows| && rows'[t] == rows[t];
    }
  }

  /**
    What the code's cascade achieves on a table with nothing stale: a new summary
    leaves nothing stale exactly when no rollup covers it or, if it is the first
    of its level and period, when no rollup covers a rollup that covers it.
   */
  lemma CodeLeavesFreshIff(env: Env, w: World, place: Place, sources: seq<Period>)
    requires AllWorks(env) && Good(w.rows) && StrictlyTimed(env, w) && SourcesFit(w.rows, place, sources)
    requires FreshBut(w.rows, {})
    ensures FreshBut(Regenerate(env, Root, w, place, sources).0.rows, {})
            <==> (if Count(w.rows, place) > 0 then !Covered(w.rows, place) else !CoveredTwice(w.rows, place))
  {
    assert Linear(w.rows, place);
    LinearHasOneTip(w.rows, place);
    if Current(w.rows, place).Some? {
      SupersedingIsCompleteIff(env, w, place, sources);
    } else {
      FirstSummaryIsCompleteIff(env, w, place, sources);
    }
  }

  /** What does work: a day's first summary, however late, regenerates every weekly rollup that covers it. */
  lemma FirstSummaryRegeneratesCovering(env: Env, w: World, place: Place, sources: seq<Period>)
    requires AllWorks(env) && Good(w.rows) && StrictlyTimed(env, w) && SourcesFit(w.rows, place, sources)
    requires FreshBut(w.rows, {}) && Count(w.rows, place) == 0
    ensures var (w', ok) := Regenerate(env, Root, w, place, sources);
            ok && Good(w'.rows) && forall q :: q in CoveringPlaces(w.rows, place) ==> HasNew(w.rows, w'.rows, q)
  {
    StrictIsTimed(env, w);
    FreshLooksFresh(w.rows, {});
    assert Linear(w.rows, place);
    LinearHasOneTip(w.rows, place);
    var w1 := StoreInTime(env, w, place, sources);
    SameCovering(w.rows, place, sources, env.now(w.calls), w1.rows, place);
    FirstSummaryLooksStale(w.rows, place, sources, env.now(w.calls), w1.rows);
    CoveringLooksStale(w.rows, w1.rows, place);
    if LevelAbove(place.level).Some? {
      var level, list := LevelAbove(place.level).value, Covering(Root, w1.rows, place, |w1.rows|);
      CoveringRoots(w1.rows, place);
      assert forall c :: c in list ==> c.place in PlacesOf(list);
      EachRegenerated(env, w1, level, list);
      var w' := RefreshEach(env, Root, w1, level, list);
      forall q | q in CoveringPlaces(w.rows, place) ensures HasNew(w.rows, w'.rows, q) {
        var c :| c in list && c.place == q;
        var k :| |w1.rows| <= k < |w'.rows| && w'.rows[k].place == q;
        assert |w.rows| <= k;
      }
    }
  }

  /** A summary that nothing covers is stored, and that is all. */
  lemma NothingToRefresh(env: Env, w: World, place: Place, sources: seq<Period>) returns (w1: World)
    requires AllWorks(env) && Good(w.rows) && StrictlyTimed(env, w) && SourcesFit(w.rows, place, sources)
    requires FreshBut(w.rows, {}) && !Covered(w.rows, place)
    ensures Regenerate(env, Root, w, place, sources) == (w1, true)
    ensures Insert(w.rows, place, Current(w.rows, place), sources, env.now(w.calls)) == Some(w1.rows)
    ensures w1.calls == w.calls + 1 && Good(w1.rows) && FreshBut(w1.rows, {})
  {
    StrictIsTimed(env, w);
    w1 := StoreInTime(env, w, place, sources);
    SameCovering(w.rows, place, sources, env.now(w.calls), w1.rows, place);
    StoreMakesStale(w.rows, place, sources, env.now(w.calls), {}, w1.rows);
    assert {} + CoveringPlaces(w1.rows, place) == {};
    FreshLooksFresh(w1.rows, {});
    RefreshDoesNothing(env, w1, place, {});
  }

  lemma StrictlyBeforeNext(env: Env, w: World, row: Summary)
    requires StrictlyTimed(env, w) && row.at == env.now(w.calls)
    ensures StrictlyTimed(env, World(w.rows + [row], w.calls + 1))
  {
    assert env.now(w.calls) < env.now(w.calls + 1);
  }

  lemma FirstDay(env: Env, day: Period) returns (w1: World)
    requires AllWorks(env) && StrictlyTimed(env, World([], 0))
    ensures RunDaily(env, Root, World([], 0), day, 1) == (w1, true)
    ensures |w1.rows| == 1 && w1.rows[0].place == Place(Daily, day) && w1.rows[0].supersedes.None? && w1.rows[0].sources == []
    ensures Good(w1.rows) && StrictlyTimed(env, w1) && FreshBut(w1.rows, {})
  {
    forall p ensures Linear([], p) {
    }
    w1 := NothingToRefresh(env, World([], 0), Place(Daily, day), []);
    StrictlyBeforeNext(env, World([], 0), w1.rows[0]);
    assert [] + [w1.rows[0]] == w1.rows;
  }

  lemma FirstRollup(env: Env, w: World, place: Place, sources: seq<Period>)
    requires Current(w.rows, place).None? && HasSources(w.rows, place.level, sources)
    ensures RunRollup(env, Root, w, place, sources) == Regenerate(env, Root, w, place, sources)
  {
  }

  lemma FirstRollupHasSource(rows: Store, week: Place, day: Period)
    requires |rows| == 1 && rows[0].place == Place(Daily, day) && rows[0].supersedes.None? && week.level == Weekly
    ensures Current(rows, week).None? && HasSources(rows, Weekly, [day]) && !Covered(rows, week)
    ensures SourcesFit(rows, week, [day])
  {
    assert SourceOf(rows, Weekly, [day], 0) && !Superseded(rows, 0);
  }

  lemma FirstWeek(env: Env, w1: World, day: Period, week: Period) returns (rolled: World)
    requires AllWorks(env) && Good(w1.rows) && StrictlyTimed(env, w1) && FreshBut(w1.rows, {})
    requires |w1.rows| == 1 && w1.rows[0].place == Place(Daily, day) && w1.rows[0].supersedes.None?
    ensures RunRollup(env, Root, w1, Place(Weekly, week), [day]) == (rolled, true)
    ensures |rolled.rows| == 2 && rolled.rows[0] == w1.rows[0] && Covers(rolled.rows[1], Place(Daily, day))
    ensures Good(rolled.rows) && StrictlyTimed(env, rolled) && FreshBut(rolled.rows, {})
  {
    var w := Place(Weekly, week);
    FirstRollupHasSource(w1.rows, w, day);
    FirstRollup(env, w1, w, [day]);
    rolled := NothingToRefresh(env, w1, w, [day]);
    StrictlyBeforeNext(env, w1, rolled.rows[1]);
    assert w1.rows + [rolled.rows[1]] == rolled.rows;
  }

  lemma OnlyDay(rolled: World, day: Period)
    requires |rolled.rows| == 2 && Good(rolled.rows) && rolled.rows[0].place == Place(Daily, day)
    requires rolled.rows[0].sources == []
    ensures SourcesFit(rolled.rows, Place(Daily, day), [])
  {
    forall i: nat | i < |rolled.rows| && rolled.rows[i].place == Place(Daily, day) ensures rolled.rows[i].sources == [] {
      assert SamePlace(rolled.rows, 0, i);
    }
  }

  /**
    Summarise a day, roll its week up, summarise the day again: the week's rollup
    is now stale, and stays so.
   */
  lemma SecondDailyLeavesWeekStale(env: Env, day: Period, week: Period)
    requires AllWorks(env) && StrictlyTimed(env, World([], 0))
    ensures var w1 := RunDaily(env, Root, World([], 0), day, 1).0;
            var rolled := RunRollup(env, Root, w1, Place(Weekly, week), [day]).0;
            FreshBut(rolled.rows, {}) && !FreshBut(RunDaily(env, Root, rolled, day, 1).0.rows, {})
  {
    var d := Place(Daily, day);
    var w1 := FirstDay(env, day);
    var rolled := FirstWeek(env, w1, day, week);
    CurrentIsTheTip(rolled.rows, d, 0);
    assert rolled.rows[1].place in CoveringPlaces(rolled.rows, d);
    OnlyDay(rolled, day);
    SupersedingIsCompleteIff(env, rolled, d, []);
  }
}
