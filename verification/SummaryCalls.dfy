/**
  The cascade of RollupCascade, and so every method of SummaryRunner, is a run of
  SummaryRuns in which nothing comes between a call's reading and its storing
  transaction: what is proved of every interleaving holds of it.
 */
module SummaryCalls {
  import opened Basics
  import opened SummaryChains
  import opened SummaryRuns
  import opened RollupCascade

  ghost predicate RunsTo(states: seq<State>, events: seq<Event>, rows: Store) {
    Run(states, events) && states[|events|] == State(rows, map[])
  }

  /** Some run ends with this table and no call in flight. */
  ghost predicate Reachable(rows: Store) {
    exists states, events :: RunsTo(states, events, rows)
  }

  lemma TwoMore(states: seq<State>, events: seq<Event>, e: Event, s: State, e': Event, s': State)
    requires Run(states, events) && Step(states[|events|], e) == Some(s) && Step(s, e') == Some(s')
    ensures Run(states + [s, s'], events + [e, e'])
  {
    var states', events' := states + [s, s'], events + [e, e'];
    forall i | 0 <= i < |events'| ensures Step(states'[i], events'[i]) == Some(states'[i + 1]) {
      if i < |events| {
        assert Step(states[i], events[i]) == Some(states[i + 1]);
      }
    }
  }

  /** Two steps of one call: it reads, then stores or is lost. */
  lemma ReadAndStore(rows: Store, e: Event, d: Draft, at: nat, works: bool) returns (rows': Store)
    requires Reachable(rows) && Step(State(rows, map[]), e) == Some(State(rows, map[1 := d]))
    ensures Reachable(rows')
    ensures var stored := Insert(rows, d.place, d.supersedes, d.sources, at);
            rows' == if works && stored.Some? then stored.value else rows
  {
    var states, events :| RunsTo(states, events, rows);
    var s := State(rows, map[1 := d]);
    var e' := if works then Finish(1, at) else Drop(1);
    var s' := Step(s, e').value;
    rows' := s'.rows;
    assert s'.drafts == map[];
    TwoMore(states, events, e, s, e', s');
    assert RunsTo(states + [s, s'], events + [e, e'], rows');
  }

  lemma RegenerateIsARun(env: Env, reading: Reading, w: World, place: Place, sources: seq<Period>)
    requires Reachable(w.rows)
    ensures Reachable(Regenerate(env, reading, w, place, sources).0.rows)
    decreases Height(place.level), 1, 0
  {
    var rows' := ReadAndStore(w.rows, BeginRun(1, place, sources), Draft(place, Current(w.rows, place), sources),
                              env.now(w.calls), env.works(w.calls));
    var (w', ok) := RollupCascade.StoreSummary(env, w, place, Current(w.rows, place), sources);
    assert w'.rows == rows';
    if ok {
      RefreshIsARun(env, reading, w', place);
    }
  }

  lemma RollupIsARun(env: Env, reading: Reading, w: World, place: Place, sources: seq<Period>)
    requires Reachable(w.rows)
    ensures Reachable(RunRollup(env, reading, w, place, sources).0.rows)
    decreases Height(place.level), 2, 0
  {
    RegenerateIsARun(env, reading, w, place, sources);
  }

  lemma RefreshIsARun(env: Env, reading: Reading, w: World, place: Place)
    requires Reachable(w.rows)
    ensures Reachable(Refresh(env, reading, w, place).rows)
    decreases Height(place.level), 0, 0
  {
    if LevelAbove(place.level).Some? {
      EachIsARun(env, reading, w, LevelAbove(place.level).value, Covering(reading, w.rows, place, |w.rows|));
    }
  }

  lemma EachIsARun(env: Env, reading: Reading, w: World, level: Level, list: seq<Summary>)
    requires Reachable(w.rows) && forall c :: c in list ==> c.place.level == level
    ensures Reachable(RefreshEach(env, reading, w, level, list).rows)
    decreases Height(level), 3, |list|
  {
    if list != [] {
      assert list[0] in list;
      RollupIsARun(env, reading, w, list[0].place, list[0].sources);
      EachIsARun(env, reading, RunRollup(env, reading, w, list[0].place, list[0].sources).0, level, list[1..]);
    }
  }

  lemma CorrectIsARun(env: Env, w: World, id: nat, reason: string)
    requires Reachable(w.rows)
    ensures Reachable(Correct(env, w, id, reason).0.rows)
  {
    if !(reason == "" || id >= |w.rows| || Superseded(w.rows, id)) {
      var d := Draft(w.rows[id].place, Some(id), w.rows[id].sources);
      var rows' := ReadAndStore(w.rows, BeginCorrect(1, id, reason), d, env.now(w.calls), env.works(w.calls));
    }
  }

  lemma {:induction false} CorrectionsAreRuns(env: Env, reading: Reading, w: World, ids: seq<nat>)
    requires Reachable(w.rows)
    ensures Reachable(CorrectEach(env, reading, w, ids).rows)
    decreases |ids|
  {
    if ids != [] {
      CorrectIsARun(env, w, ids[0], CONTRADICTION);
      var (w', ok) := Correct(env, w, ids[0], CONTRADICTION);
      if ok {
        RefreshIsARun(env, reading, w', w.rows[ids[0]].place);
      }
      CorrectionsAreRuns(env, reading, CorrectRelated(env, reading, w, ids[0]), ids[1..]);
    }
  }

  /** Whatever RunDaily and RunRollup do, with all that follows from it, is one of the interleavings of SummaryRuns. */
  lemma CallsAreRuns(env: Env, reading: Reading, w: World, day: Period, episodes: nat, contradicted: Store -> seq<nat>,
                     place: Place, sources: seq<Period>)
    requires Reachable(w.rows)
    ensures Reachable(RunDay(env, reading, w, day, episodes, contradicted).0.rows)
    ensures Reachable(RunRollup(env, reading, w, place, sources).0.rows)
  {
    RegenerateIsARun(env, reading, w, Place(Daily, day), []);
    var (w', ok) := RunDaily(env, reading, w, day, episodes);
    CorrectionsAreRuns(env, reading, w', contradicted(w'.rows));
    RollupIsARun(env, reading, w, place, sources);
  }
}
