/**
  Whole histories of internal/consolidation with the last row read as current:
  days summarised, rollups run when they are due or again, summaries corrected, one
  call after the other.
 */
module RollupRuns {
  import opened Basics
  import opened SummaryChains
  import opened RollupCascade
  import opened RollupStaleness

  /** Fix is a correction with the refresh that follows one in the contradiction check. */
  datatype Call =
    | Day(day: Period, episodes: nat, contradicted: Store -> seq<nat>)
    | Roll(place: Place)
    | Fix(id: nat, reason: string)

  /** The calendar: what a rollup summarises. */
  type Plan = Place -> seq<Period>

  function Do(env: Env, plan: Plan, w: World, c: Call): World {
    match c
    case Day(day, episodes, contradicted) => RunDay(env, Tip, w, day, episodes, contradicted).0
    case Roll(place) => RunRollup(env, Tip, w, place, plan(place)).0
    case Fix(id, reason) =>
      var (w', ok) := Correct(env, w, id, reason);
      if ok then Refresh(env, Tip, w', w.rows[id].place) else w'
  }

  function DoAll(env: Env, plan: Plan, calls: seq<Call>): World {
    if calls == [] then World([], 0)
    else Do(env, plan, DoAll(env, plan, calls[..|calls| - 1]), calls[|calls| - 1])
  }

  /** Every summary lists the sources the calendar gives it; a day has none. */
  ghost predicate Planned(rows: Store, plan: Plan) {
    forall i :: 0 <= i < |rows| ==> rows[i].sources == plan(rows[i].place)
  }

  ghost predicate DaysHaveNoSources(plan: Plan) {
    forall day :: plan(Place(Daily, day)) == []
  }

  // --- Nothing is stored off the plan ----------------------------------------------------------

  lemma StoreKeepsPlan(env: Env, w: World, plan: Plan, place: Place, supersedes: Option<nat>)
    requires Planned(w.rows, plan)
    ensures Planned(StoreSummary(env, w, place, supersedes, plan(place)).0.rows, plan)
  {
  }

  lemma RegenerateKeepsPlan(env: Env, w: World, plan: Plan, place: Place)
    requires Planned(w.rows, plan)
    ensures Planned(Regenerate(env, Tip, w, place, plan(place)).0.rows, plan)
    decreases Height(place.level), 1, 0
  {
    StoreKeepsPlan(env, w, plan, place, Current(w.rows, place));
    var (w', ok) := StoreSummary(env, w, place, Current(w.rows, place), plan(place));
    if ok {
      RefreshKeepsPlan(env, w', plan, place);
    }
  }

  lemma RollupKeepsPlan(env: Env, w: World, plan: Plan, place: Place)
    requires Planned(w.rows, plan)
    ensures Planned(RunRollup(env, Tip, w, place, plan(place)).0.rows, plan)
    decreases Height(place.level), 2, 0
  {
    RegenerateKeepsPlan(env, w, plan, place);
  }

  lemma RefreshKeepsPlan(env: Env, w: World, plan: Plan, place: Place)
    requires Planned(w.rows, plan)
    ensures Planned(Refresh(env, Tip, w, place).rows, plan)
    decreases Height(place.level), 0, 0
  {
    if LevelAbove(place.level).Some? {
      EachKeepsPlan(env, w, plan, LevelAbove(place.level).value, Covering(Tip, w.rows, place, |w.rows|));
    }
  }

  lemma EachKeepsPlan(env: Env, w: World, plan: Plan, level: Level, list: seq<Summary>)
    requires Planned(w.rows, plan) && forall c :: c in list ==> c.place.level == level && c.sources == plan(c.place)
    ensures Planned(RefreshEach(env, Tip, w, level, list).rows, plan)
    decreases Height(level), 3, |list|
  {
    if list != [] {
      assert list[0] in list;
      RollupKeepsPlan(env, w, plan, list[0].place);
      EachKeepsPlan(env, RunRollup(env, Tip, w, list[0].place, list[0].sources).0, plan, level, list[1..]);
    }
  }

  lemma FixKeepsPlan(env: Env, w: World, plan: Plan, id: nat, reason: string)
    requires Planned(w.rows, plan)
    ensures Planned(Do(env, plan, w, Fix(id, reason)).rows, plan)
  {
    if id < |w.rows| {
      StoreKeepsPlan(env, w, plan, w.rows[id].place, Some(id));
      var (w', ok) := Correct(env, w, id, reason);
      RefreshKeepsPlan(env, w', plan, w.rows[id].place);
    }
  }

  lemma {:induction false} CorrectionsKeepPlan(env: Env, w: World, plan: Plan, ids: seq<nat>)
    requires Planned(w.rows, plan)
    ensures Planned(CorrectEach(env, Tip, w, ids).rows, plan)
    decreases |ids|
  {
    if ids != [] {
      FixKeepsPlan(env, w, plan, ids[0], CONTRADICTION);
      CorrectionsKeepPlan(env, CorrectRelated(env, Tip, w, ids[0]), plan, ids[1..]);
    }
  }

  lemma CallKeepsPlan(env: Env, plan: Plan, w: World, c: Call)
    requires Planned(w.rows, plan) && DaysHaveNoSources(plan)
    ensures Planned(Do(env, plan, w, c).rows, plan)
  {
    match c
    case Day(day, episodes, contradicted) =>
      assert plan(Place(Daily, day)) == [];
      RegenerateKeepsPlan(env, w, plan, Place(Daily, day));
      var (w', ok) := RunDaily(env, Tip, w, day, episodes);
      CorrectionsKeepPlan(env, w', plan, contradicted(w'.rows));
    case Roll(place) => RollupKeepsPlan(env, w, plan, place);
    case Fix(id, reason) => FixKeepsPlan(env, w, plan, id, reason);
  }

  // --- Nothing is left stale ------------------------------------------------------------------------

  lemma CallLeavesFresh(env: Env, plan: Plan, w: World, c: Call)
    requires AllWorks(env) && Good(w.rows) && Timed(env, w) && FreshBut(w.rows, {})
    requires Planned(w.rows, plan) && DaysHaveNoSources(plan)
    ensures var w' := Do(env, plan, w, c);
            Good(w'.rows) && Timed(env, w') && FreshBut(w'.rows, {})
  {
    match c
    case Day(day, episodes, contradicted) =>
      assert plan(Place(Daily, day)) == [];
      RunDailyLeavesFresh(env, w, day, episodes, contradicted);
    case Roll(place) => RunRollupKeepsFresh(env, w, place, plan(place));
    case Fix(id, reason) => CorrectThenRefreshLeavesFresh(env, w, id, reason);
  }

  /**
    Reading the last row as current: whatever days, rollups and corrections there
    have been since the beginning, in whatever order and however often, no current
    rollup is older than any of its current sources, and every period is one chain.
   */
  lemma {:induction false} SerialCallsLeaveNothingStale(env: Env, plan: Plan, calls: seq<Call>)
    requires AllWorks(env) && DaysHaveNoSources(plan)
    requires forall m: nat, n: nat :: m <= n ==> env.now(m) <= env.now(n)
    ensures var w := DoAll(env, plan, calls);
            && Good(w.rows) && Timed(env, w) && Planned(w.rows, plan)
            && FreshBut(w.rows, {})
  {
    if calls == [] {
      forall p ensures Linear([], p) {
      }
    } else {
      var init, last := calls[..|calls| - 1], calls[|calls| - 1];
      SerialCallsLeaveNothingStale(env, plan, init);
      CallLeavesFresh(env, plan, DoAll(env, plan, init), last);
      CallKeepsPlan(env, plan, DoAll(env, plan, init), last);
    }
  }
}
