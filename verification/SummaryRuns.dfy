/**
  Everything that adds summaries to one scope, as steps that may interleave: a
  run of internal/consolidation reads what is current, is away for as long as
  the language model takes, and stores its row in a later transaction;
  internal/hpmf imports a whole file of versions in one.
 */
module SummaryRuns {
  import opened Basics
  import opened SummaryChains

  /** A run between its reading transaction and its storing one. */
  datatype Draft = Draft(place: Place, supersedes: Option<nat>, sources: seq<Period>)

  datatype State = State(rows: Store, drafts: map<nat, Draft>)

  const INITIAL := State([], map[])

  /** One version of an imported file; its link names an earlier position in the file, or nothing found there. */
  datatype Link = Link(supersedes: Option<nat>, sources: seq<Period>, at: nat)

  datatype Event =
    | BeginRun(job: nat, place: Place, sources: seq<Period>)
    | BeginCorrect(job: nat, target: nat, reason: string)
    | Finish(job: nat, at: nat)
    | Drop(job: nat)
    | Import(place: Place, links: seq<Link>)

  /** Which row the k-th version of a file links to, when the file's rows start at base. */
  function Resolve(base: nat, links: seq<Link>, k: nat): Option<nat>
    requires k < |links|
  {
    match links[k].supersedes
    case Some(m) => if m < k then Some(base + m) else None
    case None => None
  }

  /** One file's versions, inserted in order; the first failure undoes the whole file. */
  function InsertLinks(rows: Store, place: Place, links: seq<Link>, n: nat): Option<Store>
    requires n <= |links|
  {
    if n == 0 then Some(rows)
    else
      match InsertLinks(rows, place, links, n - 1)
      case None => None
      case Some(r) =>
        Insert(r, place, Resolve(|rows|, links, n - 1), links[n - 1].sources, links[n - 1].at)
  }

  /** A file is skipped when its level and period already has a summary. */
  function ImportFile(rows: Store, place: Place, links: seq<Link>): Option<Store> {
    if Count(rows, place) > 0 then Some(rows) else InsertLinks(rows, place, links, |links|)
  }

  /** RunDaily and RunRollup supersede whatever they found current. */
  function DoBeginRun(s: State, job: nat, place: Place, sources: seq<Period>): Option<State> {
    if job in s.drafts then None
    else Some(s.(drafts := s.drafts[job := Draft(place, Current(s.rows, place), sources)]))
  }

  /** Correct refuses an empty reason, an unknown row and a row that is already superseded. */
  function DoBeginCorrect(s: State, job: nat, target: nat, reason: string): Option<State> {
    if job in s.drafts then None
    else if reason == "" || target >= |s.rows| || Superseded(s.rows, target) then Some(s)
    else Some(s.(drafts := s.drafts[job := Draft(s.rows[target].place, Some(target), s.rows[target].sources)]))
  }

  function DoFinish(s: State, job: nat, at: nat): Option<State> {
    if job !in s.drafts then None
    else
      var d := s.drafts[job];
      var inserted := Insert(s.rows, d.place, d.supersedes, d.sources, at);
      Some(State(if inserted.Some? then inserted.value else s.rows, s.drafts - {job}))
  }

  function DoImport(s: State, place: Place, links: seq<Link>): Option<State> {
    var r := ImportFile(s.rows, place, links);
    Some(s.(rows := if r.Some? then r.value else s.rows))
  }

  function Step(s: State, e: Event): Option<State> {
    match e
    case BeginRun(job, place, sources) => DoBeginRun(s, job, place, sources)
    case BeginCorrect(job, target, reason) => DoBeginCorrect(s, job, target, reason)
    case Finish(job, at) => DoFinish(s, job, at)
    case Drop(job) => if job in s.drafts then Some(s.(drafts := s.drafts - {job})) else None
    case Import(place, links) => DoImport(s, place, links)
  }

  ghost predicate Path(states: seq<State>, events: seq<Event>) {
    && |states| == |events| + 1
    && forall i {:trigger Step(states[i], events[i])} :: 0 <= i < |events| ==>
         Step(states[i], events[i]) == Some(states[i + 1])
  }

  ghost predicate Run(states: seq<State>, events: seq<Event>) {
    Path(states, events) && states[0] == INITIAL
  }

  // --- Every interleaving ---------------------------------------------------------------

  ghost predicate Inv(s: State) {
    && Forest(s.rows)
    && forall j :: j in s.drafts ==> Linkable(s.rows, s.drafts[j].place, s.drafts[j].supersedes)
  }

  /** Rows are only ever added. */
  lemma {:induction false} LinksAreAdded(rows: Store, place: Place, links: seq<Link>, n: nat)
    requires Forest(rows) && n <= |links| && InsertLinks(rows, place, links, n).Some?
    ensures var r := InsertLinks(rows, place, links, n).value;
            && |r| == |rows| + n && rows <= r && Forest(r)
            && forall k :: |rows| <= k < |r| ==> r[k].place == place
  {
    if n > 0 {
      LinksAreAdded(rows, place, links, n - 1);
      var r := InsertLinks(rows, place, links, n - 1).value;
      var link := Resolve(|rows|, links, n - 1);
      assert Linkable(r, place, link);
      InsertAdds(r, place, link, links[n - 1].sources, links[n - 1].at);
    }
  }

  lemma InsertAdds(rows: Store, place: Place, link: Option<nat>, sources: seq<Period>, at: nat)
    requires Forest(rows) && Linkable(rows, place, link) && Insert(rows, place, link, sources, at).Some?
    ensures var r := Insert(rows, place, link, sources, at).value;
            |r| == |rows| + 1 && rows <= r && Forest(r) && r[|rows|].place == place
  {
    InsertKeepsForest(rows, place, link, sources, at);
  }

  /** The last insert of a file, with what holds just before it. */
  lemma LastLink(rows: Store, place: Place, links: seq<Link>, n: nat) returns (r: Store, link: Option<nat>)
    requires Forest(rows) && 0 < n <= |links| && InsertLinks(rows, place, links, n).Some?
    ensures InsertLinks(rows, place, links, n - 1) == Some(r) && link == Resolve(|rows|, links, n - 1)
    ensures Forest(r) && Linkable(r, place, link)
    ensures InsertLinks(rows, place, links, n) == Insert(r, place, link, links[n - 1].sources, links[n - 1].at)
  {
    assert InsertLinks(rows, place, links, n - 1).Some?;
    LinksAreAdded(rows, place, links, n - 1);
    r := InsertLinks(rows, place, links, n - 1).value;
    link := Resolve(|rows|, links, n - 1);
    ResolvedIsAdded(rows, place, links, n - 1, r);
  }

  /** A link of a file leads to a row that the file has added. */
  lemma ResolvedIsAdded(rows: Store, place: Place, links: seq<Link>, k: nat, r: Store)
    requires k < |links| && |r| == |rows| + k && forall i :: |rows| <= i < |r| ==> r[i].place == place
    ensures Linkable(r, place, Resolve(|rows|, links, k))
  {
    var link := Resolve(|rows|, links, k);
    if link.Some? {
      assert |rows| <= link.value < |r| && r[link.value].place == place;
    }
  }

  lemma StepKeepsInv(s: State, e: Event, s': State)
    requires Inv(s) && Step(s, e) == Some(s')
    ensures Inv(s') && s.rows <= s'.rows
  {
    match e
    case Finish(job, at) =>
      var d := s.drafts[job];
      InsertKeepsForest(s.rows, d.place, d.supersedes, d.sources, at);
    case Import(place, links) =>
      if Count(s.rows, place) == 0 && InsertLinks(s.rows, place, links, |links|).Some? {
        LinksAreAdded(s.rows, place, links, |links|);
      }
    case _ =>
  }

  lemma {:induction false} PathKeepsInv(states: seq<State>, events: seq<Event>, i: nat)
    requires Path(states, events) && Inv(states[0]) && i < |states|
    ensures Inv(states[i])
  {
    if i > 0 {
      PathKeepsInv(states, events, i - 1);
      assert Step(states[i - 1], events[i - 1]) == Some(states[i]);
      StepKeepsInv(states[i - 1], events[i - 1], states[i]);
    }
  }

  /**
    Whatever interleaves, versions of a level and period are 1..n without a gap or
    a repeat, no row is superseded twice, and it has as many current rows as it
    has rows that supersede nothing.
   */
  lemma VersionsAndTips(states: seq<State>, events: seq<Event>, i: nat, place: Place)
    requires Run(states, events) && i < |states|
    ensures var rows := states[i].rows;
            && NoForks(rows)
            && |Tips(rows, place)| == |Roots(rows, place)|
            && (forall k: nat :: k < |rows| && rows[k].place == place ==> 1 <= rows[k].version <= Count(rows, place))
            && (forall k: nat, m: nat :: k < |rows| && m < |rows| && rows[k].place == rows[m].place == place ==>
                  (rows[k].version == rows[m].version <==> k == m))
  {
    PathKeepsInv(states, events, i);
    var rows := states[i].rows;
    AsManyTipsAsRoots(rows, place);
    forall k: nat | k < |rows| && rows[k].place == place ensures 1 <= rows[k].version <= Count(rows, place) {
      assert RowOk(rows, k);
      CountGrows(rows, place, k);
    }
    forall k: nat, m: nat | k < |rows| && m < |rows| && rows[k].place == rows[m].place == place
      ensures rows[k].version == rows[m].version <==> k == m
    {
      OldVersionsDiffer(rows, place, k, m);
    }
  }

  /**
    Only a current summary is ever corrected, and only with a reason: in any run, a
    correction that begins has its row, with its sources, as the target, or is none.
   */
  lemma OnlyCurrentIsCorrected(states: seq<State>, events: seq<Event>, i: nat)
    requires Run(states, events) && i < |events| && events[i].BeginCorrect?
    ensures var e, rows, after := events[i], states[i].rows, states[i + 1];
            && after.rows == rows
            && (e.job in after.drafts <==>
                  e.reason != "" && e.target < |rows| && forall j :: 0 <= j < |rows| ==> rows[j].supersedes != Some(e.target))
            && (e.job in after.drafts ==>
                  after.drafts[e.job] == Draft(rows[e.target].place, Some(e.target), rows[e.target].sources))
  {
    assert Step(states[i], events[i]) == Some(states[i + 1]);
    assert DoBeginCorrect(states[i], events[i].job, events[i].target, events[i].reason) == Some(states[i + 1]);
  }

  // --- When a level and period stays one chain -------------------------------------------

  /** The step stores a row that supersedes nothing although the level and period already has one. */
  ghost predicate StartsSecondChain(s: State, e: Event, p: Place) {
    match e
    case Finish(job, _) =>
      job in s.drafts && s.drafts[job].place == p && s.drafts[job].supersedes.None? && Count(s.rows, p) > 0
    case Import(place, links) =>
      && place == p && Count(s.rows, p) == 0 && InsertLinks(s.rows, place, links, |links|).Some?
      && !LinkedThrough(links, |links|)
    case _ => false
  }

  /** Every version of the file but the first links to one before it. */
  ghost predicate LinkedThrough(links: seq<Link>, n: nat)
    requires n <= |links|
  {
    forall k: nat {:trigger links[k]} :: 0 < k < n ==> links[k].supersedes.Some? && links[k].supersedes.value < k
  }

  lemma {:induction false} ImportedFileIsLinearIff(rows: Store, place: Place, links: seq<Link>, n: nat)
    requires Forest(rows) && n <= |links| && Count(rows, place) == 0 && InsertLinks(rows, place, links, n).Some?
    ensures Linear(InsertLinks(rows, place, links, n).value, place) <==> LinkedThrough(links, n)
    ensures Count(InsertLinks(rows, place, links, n).value, place) == n
  {
    if n == 0 {
      NoRowsAreLinear(rows, place);
    } else {
      ImportedFileIsLinearIff(rows, place, links, n - 1);
      var r, link := LastLink(rows, place, links, n);
      OneLinkIsLinearIff(r, place, link, links[n - 1].sources, links[n - 1].at);
      LinkedOneMore(|rows|, links, n);
    }
  }

  lemma OneLinkIsLinearIff(rows: Store, place: Place, link: Option<nat>, sources: seq<Period>, at: nat)
    requires Forest(rows) && Linkable(rows, place, link) && Insert(rows, place, link, sources, at).Some?
    ensures var r := Insert(rows, place, link, sources, at).value;
            && (Linear(r, place) <==> Linear(rows, place) && (Count(rows, place) > 0 ==> link.Some?))
            && Count(r, place) == Count(rows, place) + 1
  {
    InsertKeepsLinearIff(rows, place, link, sources, at, place);
    assert Insert(rows, place, link, sources, at).value[..|rows|] == rows;
  }

  lemma LinkedOneMore(base: nat, links: seq<Link>, n: nat)
    requires 0 < n <= |links|
    ensures LinkedThrough(links, n) <==> LinkedThrough(links, n - 1) && (n > 1 ==> Resolve(base, links, n - 1).Some?)
  {
  }

  lemma {:induction false} NoRowsAreLinear(rows: Store, place: Place)
    requires Count(rows, place) == 0
    ensures forall i :: 0 <= i < |rows| ==> rows[i].place != place
    ensures Linear(rows, place)
  {
    if rows != [] {
      NoRowsAreLinear(rows[..|rows| - 1], place);
    }
  }

  lemma {:induction false} OtherFilesKeepLinear(rows: Store, place: Place, links: seq<Link>, n: nat, p: Place)
    requires Forest(rows) && n <= |links| && p != place && InsertLinks(rows, place, links, n).Some?
    ensures Linear(InsertLinks(rows, place, links, n).value, p) <==> Linear(rows, p)
  {
    if n > 0 {
      OtherFilesKeepLinear(rows, place, links, n - 1, p);
      var r, link := LastLink(rows, place, links, n);
      InsertKeepsLinearIff(r, place, link, links[n - 1].sources, links[n - 1].at, p);
    }
  }

  lemma StepKeepsLinearIff(s: State, e: Event, s': State, p: Place)
    requires Inv(s) && Step(s, e) == Some(s')
    ensures Linear(s'.rows, p) <==> Linear(s.rows, p) && !StartsSecondChain(s, e, p)
  {
    match e
    case Finish(job, at) =>
      var d := s.drafts[job];
      if Insert(s.rows, d.place, d.supersedes, d.sources, at).Some? {
        InsertKeepsLinearIff(s.rows, d.place, d.supersedes, d.sources, at, p);
      }
    case Import(place, links) =>
      if Count(s.rows, place) == 0 && InsertLinks(s.rows, place, links, |links|).Some? {
        if p == place {
          NoRowsAreLinear(s.rows, p);
          ImportedFileIsLinearIff(s.rows, place, links, |links|);
        } else {
          OtherFilesKeepLinear(s.rows, place, links, |links|, p);
        }
      }
    case _ =>
  }

  /**
    After any run a level and period is one chain, whose only current row is its
    highest version, exactly when no step of the run started a second one.
   */
  lemma {:induction false} LinearIffNoSecondChain(states: seq<State>, events: seq<Event>, n: nat, p: Place)
    requires Run(states, events) && n <= |events|
    ensures Linear(states[n].rows, p) <==> forall k :: 0 <= k < n ==> !StartsSecondChain(states[k], events[k], p)
  {
    if n > 0 {
      LinearIffNoSecondChain(states, events, n - 1, p);
      PathKeepsInv(states, events, n - 1);
      assert Step(states[n - 1], events[n - 1]) == Some(states[n]);
      StepKeepsLinearIff(states[n - 1], events[n - 1], states[n], p);
    }
  }

  // --- Serialised runs ---------------------------------------------------------------------

  /** The runs for one level and period take turns, and files for it carry linked versions. */
  ghost predicate TakesTurns(s: State, e: Event, p: Place) {
    && (forall j, k :: j in s.drafts && k in s.drafts && s.drafts[j].place == s.drafts[k].place == p ==> j == k)
    && (e.Import? && e.place == p ==>
          LinkedThrough(e.links, |e.links|) && forall j :: j in s.drafts ==> s.drafts[j].place != p)
  }

  /** A run that found nothing still finds nothing when its turn is not over. */
  ghost predicate NothingYet(s: State, p: Place) {
    && Linear(s.rows, p)
    && forall j :: j in s.drafts && s.drafts[j].place == p && s.drafts[j].supersedes.None? ==> Count(s.rows, p) == 0
  }

  lemma TurnsKeepLinear(s: State, e: Event, s': State, p: Place)
    requires Inv(s) && Step(s, e) == Some(s') && TakesTurns(s, e, p) && NothingYet(s, p)
    ensures NothingYet(s', p)
  {
    StepKeepsLinearIff(s, e, s', p);
    match e
    case BeginRun(job, place, sources) => LinearHasOneTip(s.rows, p);
    case Finish(job, at) =>
      if s.drafts[job].place != p {
        OtherInsertKeepsCount(s.rows, s'.rows, p);
      }
    case Import(place, links) =>
      if place != p && Count(s.rows, place) == 0 && InsertLinks(s.rows, place, links, |links|).Some? {
        OtherLinksKeepCount(s.rows, place, links, |links|, p);
      }
    case _ =>
  }

  lemma OtherInsertKeepsCount(rows: Store, rows': Store, p: Place)
    requires rows' == rows || (|rows'| == |rows| + 1 && rows <= rows' && rows'[|rows|].place != p)
    ensures Count(rows', p) == Count(rows, p)
  {
    if rows' != rows {
      assert rows'[..|rows|] == rows;
    }
  }

  lemma {:induction false} OtherLinksKeepCount(rows: Store, place: Place, links: seq<Link>, n: nat, p: Place)
    requires p != place && n <= |links| && InsertLinks(rows, place, links, n).Some?
    ensures Count(InsertLinks(rows, place, links, n).value, p) == Count(rows, p)
  {
    if n > 0 {
      OtherLinksKeepCount(rows, place, links, n - 1, p);
      OtherInsertKeepsCount(InsertLinks(rows, place, links, n - 1).value, InsertLinks(rows, place, links, n).value, p);
    }
  }

  /** Serialised per level and period, every run leaves one chain with one current row: the highest version. */
  lemma {:induction false} SerialRunsStayLinear(states: seq<State>, events: seq<Event>, n: nat, p: Place)
    requires Run(states, events) && n <= |events|
    requires forall k :: 0 <= k < n ==> TakesTurns(states[k], events[k], p)
    ensures NothingYet(states[n], p)
    ensures var c := Current(states[n].rows, p);
            if Count(states[n].rows, p) == 0 then c.None?
            else c.Some? && Tips(states[n].rows, p) == {c.value} && states[n].rows[c.value].version == Count(states[n].rows, p)
  {
    PathKeepsInv(states, events, n);
    if n > 0 {
      SerialRunsStayLinear(states, events, n - 1, p);
      PathKeepsInv(states, events, n - 1);
      assert Step(states[n - 1], events[n - 1]) == Some(states[n]);
      TurnsKeepLinear(states[n - 1], events[n - 1], states[n], p);
    }
    LinearHasOneTip(states[n].rows, p);
  }

  /** Two first runs for the same level and period that overlap leave two current rows. */
  lemma OverlappingFirstRunsFork(p: Place) returns (states: seq<State>, events: seq<Event>)
    ensures Run(states, events) && |events| == 4
    ensures Tips(states[4].rows, p) == {0, 1} && !Linear(states[4].rows, p)
  {
    events := [BeginRun(1, p, []), BeginRun(2, p, []), Finish(1, 1), Finish(2, 2)];
    var draft := Draft(p, None, []);
    var s1, s2 := State([], map[1 := draft]), State([], map[1 := draft, 2 := draft]);
    var one, two := [Summary(p, 1, None, [], 1)], [Summary(p, 1, None, [], 1), Summary(p, 2, None, [], 2)];
    var s3, s4 := State(one, map[2 := draft]), State(two, map[]);
    TwoInserts(p);
    assert DoBeginRun(INITIAL, 1, p, []) == Some(s1) && DoBeginRun(s1, 2, p, []) == Some(s2);
    assert s2.drafts - {1} == s3.drafts && s3.drafts - {2} == s4.drafts;
    assert DoFinish(s2, 1, 1) == Some(s3) && DoFinish(s3, 2, 2) == Some(s4);
    states := [INITIAL, s1, s2, s3, s4];
    TwoRoots(p);
  }

  lemma TwoInserts(p: Place)
    ensures Insert([], p, None, [], 1) == Some([Summary(p, 1, None, [], 1)])
    ensures Insert([Summary(p, 1, None, [], 1)], p, None, [], 2)
            == Some([Summary(p, 1, None, [], 1), Summary(p, 2, None, [], 2)])
  {
    var none: Store := [];
    var first: Summary := Summary(p, 1, None, [], 1);
    assert MaxVersion(none, p) == 0 && none + [first] == [first];
    var one: Store := [first];
    assert one[..0] == none;
    assert MaxVersion(one, p) == 1;
    assert one + [Summary(p, 2, None, [], 2)] == [first, Summary(p, 2, None, [], 2)];
  }

  lemma TwoRoots(p: Place)
    ensures var rows := [Summary(p, 1, None, [], 1), Summary(p, 2, None, [], 2)];
            Tips(rows, p) == {0, 1} && !Linear(rows, p)
  {
    var rows := [Summary(p, 1, None, [], 1), Summary(p, 2, None, [], 2)];
    assert !LinkedToPrevious(rows, 1);
    assert !Superseded(rows, 0) && !Superseded(rows, 1);
  }

  // --- Corrections ---------------------------------------------------------------------------

  /** However late it commits, a run whose target gained a successor meanwhile changes no row. */
  lemma LateSupersederFails(s: State, job: nat, at: nat, s': State)
    requires Inv(s) && DoFinish(s, job, at) == Some(s')
    ensures var d := s.drafts[job];
            s'.rows == s.rows <==> d.supersedes.Some? && !IsTip(s.rows, d.place, d.supersedes.value)
  {
  }

  /** Of two corrections of the same row, in whatever order they commit, exactly one is stored. */
  lemma OneCorrectionWins(s: State, a: nat, b: nat, at: nat, at': nat)
    requires Inv(s) && a in s.drafts && b in s.drafts && a != b
    requires s.drafts[a].supersedes.Some? && s.drafts[b].supersedes == s.drafts[a].supersedes
    requires !Superseded(s.rows, s.drafts[a].supersedes.value)
    ensures var s1 := DoFinish(s, a, at).value;
            var s2 := DoFinish(s1, b, at').value;
            && |s1.rows| == |s.rows| + 1 && s2.rows == s1.rows
            && s1.rows[|s.rows|].supersedes == s.drafts[a].supersedes
  {
    var s1 := DoFinish(s, a, at).value;
    assert s1.rows[|s.rows|].supersedes == s.drafts[b].supersedes;
  }
}
