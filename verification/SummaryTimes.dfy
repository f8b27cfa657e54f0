/**
  The creation times of summaries. created_at is the time at which the storing
  transaction began; a run's reading transaction was over before that, with the
  language model's answer in between. SummaryRuns on one clock, and what an export
  ordered by those times keeps.
 */
module SummaryTimes {
  import opened Basics
  import opened SummaryChains
  import opened SummaryRuns
  import opened BundleImport
  import opened BundleOrder

  /** begun is when each run in flight read what was current. */
  datatype Clocked = Clocked(state: State, clock: nat, begun: map<nat, nat>)

  datatype Timed = Timed(event: Event, now: nat)

  const BEGINNING := Clocked(INITIAL, 0, map[])

  /** A storing transaction begins after its run's reading one and commits now. */
  predicate InTime(c: Clocked, e: Event, now: nat) {
    c.clock <= now && (e.Finish? ==> e.job in c.begun && c.begun[e.job] < e.at <= now)
  }

  function Tick(c: Clocked, e: Event, now: nat): Option<Clocked> {
    if !InTime(c, e, now) then None
    else
      match Step(c.state, e)
      case None => None
      case Some(s) => Some(Clocked(s, now, if e.BeginRun? || e.BeginCorrect? then c.begun[e.job := now] else c.begun))
  }

  ghost predicate TimedRun(states: seq<Clocked>, events: seq<Timed>) {
    && |states| == |events| + 1 && states[0] == BEGINNING
    && forall i {:trigger Tick(states[i], events[i].event, events[i].now)} :: 0 <= i < |events| ==>
         Tick(states[i], events[i].event, events[i].now) == Some(states[i + 1])
  }

  /** The file's times are not ahead of this clock, and its versions come after those they supersede. */
  ghost predicate TimelyFile(links: seq<Link>, now: nat) {
    && (forall k :: 0 <= k < |links| ==> links[k].at <= now)
    && forall j: nat, k: nat :: j < k < |links| && links[k].supersedes == Some(j) ==> links[j].at < links[k].at
  }

  ghost predicate TimelyImports(events: seq<Timed>) {
    forall i :: 0 <= i < |events| && events[i].event.Import? ==> TimelyFile(events[i].event.links, events[i].now)
  }

  // --- Links go forward in time ------------------------------------------------------------

  ghost predicate Forward(rows: Store) {
    forall i: nat :: i < |rows| && rows[i].supersedes.Some? ==>
      rows[i].supersedes.value < |rows| && rows[rows[i].supersedes.value].at < rows[i].at
  }

  ghost predicate NotAhead(rows: Store, clock: nat) {
    forall i :: 0 <= i < |rows| ==> rows[i].at <= clock
  }

  /** What a run in flight will supersede was stored by the time it read. */
  ghost predicate DraftOk(c: Clocked, j: nat)
    requires j in c.state.drafts
  {
    && j in c.begun
    && var target := c.state.drafts[j].supersedes;
       target.Some? ==> target.value < |c.state.rows| && c.state.rows[target.value].at <= c.begun[j]
  }

  ghost predicate TimesOk(c: Clocked) {
    && SummaryRuns.Inv(c.state) && Forward(c.state.rows) && NotAhead(c.state.rows, c.clock)
    && forall j :: j in c.state.drafts ==> DraftOk(c, j)
  }

  lemma InsertKeepsForward(rows: Store, place: Place, link: Option<nat>, sources: seq<Period>, at: nat, rows': Store)
    requires Forward(rows) && Insert(rows, place, link, sources, at) == Some(rows')
    requires link.Some? ==> link.value < |rows| && rows[link.value].at < at
    ensures Forward(rows')
  {
  }

  /** The rows a file has added so far have its times. */
  ghost predicate FileTimes(rows: Store, r: Store, links: seq<Link>, n: nat)
    requires n <= |links|
  {
    |r| == |rows| + n && forall k :: 0 <= k < n ==> r[|rows| + k].at == links[k].at
  }

  lemma {:induction false} FileKeepsTimes(rows: Store, place: Place, links: seq<Link>, n: nat, now: nat)
    requires Forest(rows) && n <= |links| && InsertLinks(rows, place, links, n).Some?
    requires Forward(rows) && NotAhead(rows, now) && TimelyFile(links, now)
    ensures var r := InsertLinks(rows, place, links, n).value;
            FileTimes(rows, r, links, n) && Forward(r) && NotAhead(r, now)
  {
    if n > 0 {
      FileKeepsTimes(rows, place, links, n - 1, now);
      var r, link := LastLink(rows, place, links, n);
      RecordKeepsTimes(rows, place, links, n - 1, r, InsertLinks(rows, place, links, n).value, now);
    }
  }

  lemma RecordKeepsTimes(rows: Store, place: Place, links: seq<Link>, k: nat, r: Store, r': Store, now: nat)
    requires k < |links| && TimelyFile(links, now) && FileTimes(rows, r, links, k) && Forward(r) && NotAhead(r, now)
    requires Insert(r, place, Resolve(|rows|, links, k), links[k].sources, links[k].at) == Some(r')
    ensures FileTimes(rows, r', links, k + 1) && Forward(r') && NotAhead(r', now)
  {
    var link := Resolve(|rows|, links, k);
    if link.Some? {
      var m := link.value - |rows|;
      assert links[k].supersedes == Some(m) && links[m].at < links[k].at && r[|rows| + m].at == links[m].at;
    }
    InsertKeepsForward(r, place, link, links[k].sources, links[k].at, r');
  }

  /** More rows disturb no run in flight. */
  lemma DraftsStayOk(c: Clocked, c': Clocked)
    requires c.state.rows <= c'.state.rows && c'.begun == c.begun && forall j :: j in c.state.drafts ==> DraftOk(c, j)
    requires forall j :: j in c'.state.drafts ==> j in c.state.drafts && c'.state.drafts[j] == c.state.drafts[j]
    ensures forall j :: j in c'.state.drafts ==> DraftOk(c', j)
  {
    forall j | j in c'.state.drafts ensures DraftOk(c', j) {
      assert DraftOk(c, j);
    }
  }

  lemma StoredRows(rows: Store, d: Draft, at: nat, clock: nat, now: nat)
    requires Forward(rows) && NotAhead(rows, clock) && clock <= now && at <= now
    requires d.supersedes.Some? ==> d.supersedes.value < |rows| && rows[d.supersedes.value].at < at
    ensures var stored := Insert(rows, d.place, d.supersedes, d.sources, at);
            var rows' := if stored.Some? then stored.value else rows;
            rows <= rows' && Forward(rows') && NotAhead(rows', now)
  {
    var stored := Insert(rows, d.place, d.supersedes, d.sources, at);
    if stored.Some? {
      InsertKeepsForward(rows, d.place, d.supersedes, d.sources, at, stored.value);
    }
  }

  lemma FinishKeepsTimes(c: Clocked, job: nat, at: nat, now: nat, c': Clocked)
    requires TimesOk(c) && Tick(c, Finish(job, at), now) == Some(c')
    ensures Forward(c'.state.rows) && NotAhead(c'.state.rows, now) && forall j :: j in c'.state.drafts ==> DraftOk(c', j)
  {
    assert DraftOk(c, job);
    StoredRows(c.state.rows, c.state.drafts[job], at, c.clock, now);
    DraftsStayOk(c, c');
  }

  lemma ImportKeepsTimes(c: Clocked, place: Place, links: seq<Link>, now: nat, c': Clocked)
    requires TimesOk(c) && Tick(c, Import(place, links), now) == Some(c') && TimelyFile(links, now)
    ensures Forward(c'.state.rows) && NotAhead(c'.state.rows, now) && forall j :: j in c'.state.drafts ==> DraftOk(c', j)
  {
    if Count(c.state.rows, place) == 0 && InsertLinks(c.state.rows, place, links, |links|).Some? {
      FileKeepsTimes(c.state.rows, place, links, |links|, now);
      LinksAreAdded(c.state.rows, place, links, |links|);
    }
    DraftsStayOk(c, c');
  }

  /** A run reads rows that are stored, so none is ahead of the clock. */
  lemma ReadingKeepsTimes(c: Clocked, e: Event, now: nat, c': Clocked)
    requires TimesOk(c) && Tick(c, e, now) == Some(c') && !e.Finish? && !e.Import?
    ensures Forward(c'.state.rows) && NotAhead(c'.state.rows, now) && forall j :: j in c'.state.drafts ==> DraftOk(c', j)
  {
    forall j | j in c'.state.drafts ensures DraftOk(c', j) {
      if j in c.state.drafts {
        assert DraftOk(c, j);
      }
    }
  }

  lemma TickKeepsTimes(c: Clocked, e: Event, now: nat, c': Clocked)
    requires TimesOk(c) && Tick(c, e, now) == Some(c') && (e.Import? ==> TimelyFile(e.links, now))
    ensures TimesOk(c')
  {
    SummaryRuns.StepKeepsInv(c.state, e, c'.state);
    match e
    case Finish(job, at) => FinishKeepsTimes(c, job, at, now, c');
    case Import(place, links) => ImportKeepsTimes(c, place, links, now, c');
    case _ => ReadingKeepsTimes(c, e, now, c');
  }

  /**
    In every run on one clock a summary was created later than the one it supersedes,
    given that the files imported come from such runs and from no later time.
   */
  lemma {:induction false} LinksGoForward(states: seq<Clocked>, events: seq<Timed>, i: nat)
    requires TimedRun(states, events) && TimelyImports(events) && i < |states|
    ensures TimesOk(states[i])
  {
    if i > 0 {
      LinksGoForward(states, events, i - 1);
      assert Tick(states[i - 1], events[i - 1].event, events[i - 1].now) == Some(states[i]);
      TickKeepsTimes(states[i - 1], events[i - 1].event, events[i - 1].now, states[i]);
    }
  }

  // --- What an export by created_at keeps -----------------------------------------------------

  lemma PredecessorFirst(rows: Store, place: Place, ids: seq<nat>, j: nat, k: nat)
    requires Forward(rows) && Answer(rows, place, ids) && j < |ids| && k < |ids| && rows[ids[k]].supersedes == Some(ids[j])
    ensures j < k
  {
    assert rows[ids[j]].at < rows[ids[k]].at;
  }

  lemma NoLinkLost(rows: Store, place: Place, ids: seq<nat>)
    requires Forest(rows) && Forward(rows) && Answer(rows, place, ids)
    ensures Dangling(RecordsOf(rows, ids), |ids|) == 0
  {
    forall j: nat, k: nat | j < |ids| && k < |ids| && rows[ids[k]].supersedes == Some(ids[j]) ensures j < k {
      PredecessorFirst(rows, place, ids, j, k);
    }
    LinksKeptIff(rows, place, ids);
  }

  /** An export of such a table is a file that may be imported wherever the clock is not behind. */
  lemma ExportIsTimely(rows: Store, place: Place, ids: seq<nat>, clock: nat)
    requires Forest(rows) && Forward(rows) && NotAhead(rows, clock) && Answer(rows, place, ids)
    ensures TimelyFile(LinksOf(RecordsOf(rows, ids)), clock)
  {
    var records := RecordsOf(rows, ids);
    var links := LinksOf(records);
    forall j: nat, k: nat | j < k < |links| && links[k].supersedes == Some(j) ensures links[j].at < links[k].at {
      LinkSurvivesIff(rows, place, ids, 0, k, j);
      assert rows[ids[k]].supersedes == Some(ids[j]);
    }
  }

  /** Along one chain time goes forward with the versions. */
  lemma {:induction false} LaterVersionIsLater(rows: Store, place: Place, i: nat, j: nat)
    requires Forest(rows) && Forward(rows) && Linear(rows, place)
    requires i < j < |rows| && rows[i].place == rows[j].place == place
    ensures rows[i].at < rows[j].at
    decreases j
  {
    assert RowOk(rows, i) && RowOk(rows, j) && LinkedToPrevious(rows, j);
    VersionsInOrder(rows, place, i, j);
    var p := rows[j].supersedes.value;
    assert rows[p].version >= rows[i].version;
    if p < i {
      VersionsInOrder(rows, place, p, i);
    } else if i < p {
      LaterVersionIsLater(rows, place, i, p);
    }
  }

  lemma OneChainIsChronological(rows: Store, place: Place)
    requires Forest(rows) && Forward(rows) && Linear(rows, place)
    ensures Chronological(rows, place)
  {
    forall i, j | 0 <= i < j < |rows| && rows[i].place == rows[j].place == place ensures rows[i].at < rows[j].at {
      LaterVersionIsLater(rows, place, i, j);
    }
  }

  /** Without its clock a timed run is a run. */
  lemma {:induction false} RunOf(states: seq<Clocked>, events: seq<Timed>) returns (ss: seq<State>, es: seq<Event>)
    requires TimedRun(states, events)
    ensures Run(ss, es) && |es| == |events|
    ensures forall i :: 0 <= i < |states| ==> ss[i] == states[i].state
    ensures forall i :: 0 <= i < |events| ==> es[i] == events[i].event
  {
    ss := seq(|states|, i requires 0 <= i < |states| => states[i].state);
    es := seq(|events|, i requires 0 <= i < |events| => events[i].event);
    forall i | 0 <= i < |es| ensures Step(ss[i], es[i]) == Some(ss[i + 1]) {
      assert Tick(states[i], events[i].event, events[i].now) == Some(states[i + 1]);
    }
  }

  /**
    After any run on one clock, whatever order the query gives equal times, an
    export loses no link, and a period without a second chain is exported version
    by version: only forked periods can exchange versions.
   */
  lemma ExportsOnOneClock(states: seq<Clocked>, events: seq<Timed>, place: Place, ids: seq<nat>)
    requires TimedRun(states, events) && TimelyImports(events)
    requires Answer(states[|events|].state.rows, place, ids)
    ensures var rows := states[|events|].state.rows;
            && Dangling(RecordsOf(rows, ids), |ids|) == 0
            && TimelyFile(LinksOf(RecordsOf(rows, ids)), states[|events|].clock)
            && ((forall k :: 0 <= k < |events| ==> !StartsSecondChain(states[k].state, events[k].event, place)) ==>
                  RecordsOf(rows, ids) == Exported(rows, place, |rows|))
  {
    var rows := states[|events|].state.rows;
    LinksGoForward(states, events, |events|);
    NoLinkLost(rows, place, ids);
    ExportIsTimely(rows, place, ids, states[|events|].clock);
    if forall k :: 0 <= k < |events| ==> !StartsSecondChain(states[k].state, events[k].event, place) {
      var ss, es := RunOf(states, events);
      forall k | 0 <= k < |es| ensures !StartsSecondChain(ss[k], es[k], place) {
        assert !StartsSecondChain(states[k].state, events[k].event, place);
      }
      LinearIffNoSecondChain(ss, es, |es|, place);
      OneChainIsChronological(rows, place);
      ChronologicalExport(rows, place, ids);
    }
  }

  // --- Runs that show what is left ---------------------------------------------------------------

  lemma Start()
    ensures TimedRun([BEGINNING], [])
  {
  }

  lemma GoOn(states: seq<Clocked>, events: seq<Timed>, e: Event, now: nat, c: Clocked)
    returns (states': seq<Clocked>, events': seq<Timed>)
    requires TimedRun(states, events) && Tick(states[|events|], e, now) == Some(c)
    ensures states' == states + [c] && events' == events + [Timed(e, now)] && TimedRun(states', events')
  {
    states', events' := states + [c], events + [Timed(e, now)];
    forall i | 0 <= i < |events'| ensures Tick(states'[i], events'[i].event, events'[i].now) == Some(states'[i + 1]) {
      if i < |events| {
        assert Tick(states[i], events[i].event, events[i].now) == Some(states[i + 1]);
      }
    }
  }

  lemma TwoStored(p: Place, first: Summary, second: Summary)
    requires first == Summary(p, 1, None, [], first.at) && second.place == p && second.version == 2 && second.sources == []
    ensures Insert([], p, None, [], first.at) == Some([first])
    ensures second.supersedes.None? || second.supersedes == Some(0) ==>
              Insert([first], p, second.supersedes, [], second.at) == Some([first, second])
    ensures Current([], p) == None && !Superseded([first], 0)
  {
    assert [first][..0] == [];
    assert MaxVersion([], p) == 0 && MaxVersion([first], p) == 1;
    assert !Superseded([first], 0);
    assert [] + [first] == [first] && [first] + [second] == [first, second];
    assert second == Summary(p, 2, second.supersedes, [], second.at);
  }

  lemma SwappedAnswer(p: Place, first: Summary, second: Summary)
    requires first.place == second.place == p && second.at < first.at && first.version == 1
    ensures Answer([first, second], p, [1, 0]) && !VersionsKept([first, second], [1, 0])
  {
    var rows, ids := [first, second], [1, 0];
    assert ids[0] == 1 && ids[1] == 0;
    assert Lists(rows, p, ids, 2);
    assert second.version == 1 ==> rows[ids[1]].version != 2;
  }

  /**
    Two overlapping first runs: the one whose transaction began first commits last,
    and an export exchanges their versions.
   */
  lemma ForkedRunsExchange(p: Place) returns (states: seq<Clocked>, events: seq<Timed>)
    ensures TimedRun(states, events) && TimelyImports(events)
    ensures var rows := states[|events|].state.rows;
            && rows == [Summary(p, 1, None, [], 2), Summary(p, 2, None, [], 1)]
            && Answer(rows, p, [1, 0]) && !VersionsKept(rows, [1, 0])
  {
    var draft := Draft(p, None, []);
    var first, second := Summary(p, 1, None, [], 2), Summary(p, 2, None, [], 1);
    TwoStored(p, first, second);
    SwappedAnswer(p, first, second);
    Start();
    states, events := GoOn([BEGINNING], [], BeginRun(1, p, []), 0, Clocked(State([], map[1 := draft]), 0, map[1 := 0]));
    var begun := map[1 := 0, 2 := 0];
    states, events := GoOn(states, events, BeginRun(2, p, []), 0, Clocked(State([], map[1 := draft, 2 := draft]), 0, begun));
    assert map[1 := draft, 2 := draft] - {1} == map[2 := draft];
    states, events := GoOn(states, events, Finish(1, 2), 2, Clocked(State([first], map[2 := draft]), 2, begun));
    assert map[2 := draft] - {2} == map[];
    states, events := GoOn(states, events, Finish(2, 1), 3, Clocked(State([first, second], map[]), 3, begun));
  }

  lemma OneRecord(p: Place, at: nat)
    ensures ImportFile([], p, [Link(None, [], at)]) == Some([Summary(p, 1, None, [], at)])
  {
    var links := [Link(None, [], at)];
    assert InsertLinks([], p, links, 0) == Some([]);
    assert InsertLinks([], p, links, 1) == Insert([], p, None, [], at);
    TwoStored(p, Summary(p, 1, None, [], at), Summary(p, 2, None, [], at));
  }

  /**
    Import a summary from a machine whose clock is ahead and correct it: the
    correction was created before what it corrects. Exported and imported again it
    has lost its link, and its place.
   */
  lemma FastClockUnlinks(p: Place, late: nat) returns (states: seq<Clocked>, events: seq<Timed>)
    requires late > 3
    ensures TimedRun(states, events)
    ensures var rows := states[|events|].state.rows;
            && rows == [Summary(p, 1, None, [], late), Summary(p, 2, Some(0), [], 3)] && Answer(rows, p, [1, 0])
            && ImportFile([], p, LinksOf(RecordsOf(rows, [1, 0])))
               == Some([Summary(p, 1, None, [], 3), Summary(p, 2, None, [], late)])
  {
    var first, second := Summary(p, 1, None, [], late), Summary(p, 2, Some(0), [], 3);
    var draft := Draft(p, Some(0), []);
    OneRecord(p, late);
    TwoStored(p, first, second);
    Start();
    states, events := GoOn([BEGINNING], [], Import(p, [Link(None, [], late)]), 1, Clocked(State([first], map[]), 1, map[]));
    states, events := GoOn(states, events, BeginCorrect(1, 0, "reason"), 2, Clocked(State([first], map[1 := draft]), 2, map[1 := 2]));
    assert map[1 := draft] - {1} == map[];
    states, events := GoOn(states, events, Finish(1, 3), 3, Clocked(State([first, second], map[]), 3, map[1 := 2]));
    EarlyCorrectionIsUnlinked(p, 3, late);
  }
}
