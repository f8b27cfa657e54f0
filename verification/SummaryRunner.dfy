/**
  internal/consolidation/runner.go as the program runs it: operations that read
  and extend the summaries table, each tied to the step function of the cascade
  that specifies it.
 */
module SummaryRunner {
  import opened Basics
  import opened SummaryChains
  import opened RollupCascade
  import opened DailyRuns

  class SummaryTable {
    const env: Env
    var rows: Store
    var calls: nat

    constructor (env: Env)
      ensures this.env == env && Now() == World([], 0)
    {
      this.env := env;
      rows := [];
      calls := 0;
    }

    function Now(): World
      reads this
    {
      World(rows, calls)
    }

    method StoreSummary(place: Place, supersedes: Option<nat>, sources: seq<Period>) returns (ok: bool)
      modifies this
      ensures (Now(), ok) == old(RollupCascade.StoreSummary(env, Now(), place, supersedes, sources))
      ensures if ok then |rows| == old(|rows|) + 1 && rows[..old(|rows|)] == old(rows) else rows == old(rows)
    {
      var at := env.now(calls);
      ok := env.works(calls);
      calls := calls + 1;
      if ok {
        var stored := Insert(rows, place, supersedes, sources, at);
        ok := stored.Some?;
        if ok {
          rows := stored.value;
        }
      }
    }

    /** contradicted is the language model's choice among the summaries there are by then. */
    method RunDaily(day: Period, episodes: nat, contradicted: Store -> seq<nat>) returns (ok: bool)
      modifies this
      ensures (Now(), ok) == old(RunDay(env, Root, Now(), day, episodes, contradicted))
      ensures exists ws :: DayDone(env, old(Now()), day, episodes, contradicted, Now(), ok, ws)
    {
      ghost var ws := RunDayIsDone(env, Root, Now(), day, episodes, contradicted);
      if episodes == 0 {
        return true;
      }
      var existing := Current(rows, Place(Daily, day));
      ok := StoreSummary(Place(Daily, day), existing, []);
      if ok {
        RefreshRollupsCovering(Place(Daily, day));
        CheckContradictions(contradicted);
      }
    }

    /** checkCrossPeriodContradictions: a correction that fails does not stop the others. */
    method CheckContradictions(contradicted: Store -> seq<nat>)
      modifies this
      ensures Now() == old(CorrectEach(env, Root, Now(), contradicted(rows)))
      ensures exists ws :: Turns(env, ws, contradicted(old(rows))) && ws[0] == old(Now()) && ws[|ws| - 1] == Now()
    {
      ghost var ws := CorrectionsTakeTurns(env, Root, Now(), contradicted(rows));
      var ids := contradicted(rows);
      for i := 0 to |ids|
        invariant CorrectEach(env, Root, Now(), ids[i..]) == old(CorrectEach(env, Root, Now(), contradicted(rows)))
      {
        assert ids[i..][1..] == ids[i + 1..];
        CheckOne(ids[i]);
      }
    }

    method CheckOne(id: nat)
      modifies this
      ensures Now() == old(CorrectRelated(env, Root, Now(), id))
    {
      if id < |rows| {
        var place := rows[id].place;
        var ok := Correct(id, CONTRADICTION);
        if ok {
          RefreshRollupsCovering(place);
        }
      }
    }

    method RunRollup(place: Place, sources: seq<Period>) returns (ok: bool)
      modifies this
      ensures (Now(), ok) == old(RollupCascade.RunRollup(env, Root, Now(), place, sources))
      ensures RollupDone(env, Root, old(Now()), place, sources, Now(), ok)
      decreases Height(place.level), 1
    {
      RunRollupIsDone(env, Root, Now(), place, sources);
      var existing := Current(rows, place);
      if existing.Some? {
        var stale := IsStale(existing.value, sources);
        if !stale {
          return true;
        }
      }
      if !HasSources(rows, place.level, sources) {
        return true;
      }
      ok := StoreSummary(place, existing, sources);
      if ok {
        RefreshRollupsCovering(place);
      }
    }

    /** rollupIsStale: the maximum over the sources, then a strict comparison. */
    method IsStale(rollup: nat, sources: seq<Period>) returns (stale: bool)
      requires rollup < |rows|
      ensures stale == RollupIsStale(Root, rows, rollup, sources) == IsOutdated(rows, rollup, rows[rollup].place, sources, Root)
    {
      OutdatedIffStale(Root, rows, rollup, rows[rollup].place, sources);
      var newest: Option<nat> := None;
      for i := 0 to |rows|
        invariant newest.None? ==>
          forall j :: 0 <= j < i ==> !(SourceOf(rows, rows[rollup].place.level, sources, j) && CurrentBy(Root, rows, j))
        invariant newest.Some? ==>
          && (exists j :: 0 <= j < i && SourceOf(rows, rows[rollup].place.level, sources, j) && CurrentBy(Root, rows, j)
                       && rows[j].at == newest.value)
          && forall j :: 0 <= j < i && SourceOf(rows, rows[rollup].place.level, sources, j) && CurrentBy(Root, rows, j)
                       ==> rows[j].at <= newest.value
      {
        if SourceOf(rows, rows[rollup].place.level, sources, i) && CurrentBy(Root, rows, i) {
          if newest.None? || newest.value < rows[i].at {
            newest := Some(rows[i].at);
          }
        }
      }
      stale := newest.Some? && newest.value > rows[rollup].at;
    }

    method RefreshRollupsCovering(place: Place)
      modifies this
      ensures Now() == old(Refresh(env, Root, Now(), place))
      ensures RefreshDone(env, Root, old(Now()), place, Now())
      decreases Height(place.level), 0
    {
      RefreshIsDone(env, Root, Now(), place);
      if LevelAbove(place.level).None? {
        return;
      }
      var level := LevelAbove(place.level).value;
      var list := Covering(Root, rows, place, |rows|);
      for i := 0 to |list|
        invariant forall c :: c in list[i..] ==> c.place.level == level
        invariant RefreshEach(env, Root, Now(), level, list[i..]) == old(Refresh(env, Root, Now(), place))
      {
        assert list[i..][0] == list[i] && list[i..][1..] == list[i + 1..];
        var ok := RunRollup(list[i].place, list[i].sources);
      }
    }

    /** false is an error: no reason, no such summary, or not the current one. */
    method Correct(id: nat, reason: string) returns (ok: bool)
      modifies this
      ensures (Now(), ok) == old(RollupCascade.Correct(env, Now(), id, reason))
      ensures reason == "" || id >= old(|rows|) || old(Superseded(rows, id)) ==> !ok && Now() == old(Now())
      ensures ok <==> reason != "" && id < old(|rows|) && !old(Superseded(rows, id)) && env.works(old(calls))
      ensures rows == if ok then old(rows) + [Summary(old(rows)[id].place, old(MaxVersion(rows, rows[id].place)) + 1, Some(id),
                                                      old(rows)[id].sources, env.now(old(calls)))]
                      else old(rows)
    {
      if reason == "" || id >= |rows| || Superseded(rows, id) {
        return false;
      }
      ok := StoreSummary(rows[id].place, Some(id), rows[id].sources);
    }
  }
}
