/**
  What internal/demo/store.go promises, said of the statements of a run and what
  they answered: the caps, whose guest a token stands for, and until when.
 */
module DemoPromises {
  import opened Basics
  import opened RateLimiter
  import opened DemoSessions

  // --- A session's life, read off the run ------------------------------------------------

  /** The k-th statement creates the session of this token. */
  ghost predicate Birth(events: seq<Timed>, n: nat, token: Token, k: nat) {
    k < n <= |events| && events[k].event.InsertCreate? && events[k].event.token == token
  }

  function ExpiryOf(events: seq<Timed>, limits: Limits, k: nat): Time
    requires k < |events| && events[k].event.InsertCreate?
  {
    events[k].event.stamp + limits.sessionTTL
  }

  /** No clean-up of rows before statement n found the session of statement k too old to count. */
  ghost predicate StillKept(events: seq<Timed>, k: nat, n: nat)
    requires k < n <= |events|
  {
    forall m :: k < m < n && events[m].event.SweepRows? ==> events[m].event.stamp - CAP_WINDOW <= events[k].now
  }

  /** Some sweep before statement n found it expired, or older than that sweep's backstop. */
  ghost predicate WasDue(events: seq<Timed>, limits: Limits, k: nat, n: nat)
    requires k < n <= |events| && events[k].event.InsertCreate?
  {
    exists m :: k < m < n && events[m].event.SweepQuery?
             && (ExpiryOf(events, limits, k) < events[m].now || events[k].now < events[m].now - events[m].event.backstop)
  }

  datatype Kind = Resolved | Failing | Consolidating

  predicate IsOne(e: Event, token: Token, kind: Kind) {
    match kind
    case Resolved => e.Resolve? && e.token == token && e.answer.Guest?
    case Failing => e.Resolve? && e.token == token && e.answer.Failed?
    case Consolidating => e.Consolidate? && e.token == token && e.counted
  }

  /** How many of the first n statements did this for the token. */
  function Tally(events: seq<Timed>, n: nat, token: Token, kind: Kind): nat
    requires n <= |events|
  {
    if n == 0 then 0 else Tally(events, n - 1, token, kind) + if IsOne(events[n - 1].event, token, kind) then 1 else 0
  }

  /** When sessions were created. */
  function CreationTimes(events: seq<Timed>, n: nat): seq<Time>
    requires n <= |events|
  {
    if n == 0 then []
    else CreationTimes(events, n - 1) + if events[n - 1].event.InsertCreate? then [events[n - 1].now] else []
  }

  // --- What the table says of it -------------------------------------------------------------

  /** The session of statement k in the state after n statements. */
  ghost predicate LifeOk(s: State, events: seq<Timed>, limits: Limits, n: nat, k: nat)
    requires k < n <= |events| && events[k].event.InsertCreate?
  {
    var e := events[k].event;
    && e.token in s.past.guests && s.past.guests[e.token] == e.guest && e.token in s.past.expiry && s.past.expiry[e.token] == ExpiryOf(events, limits, k)
    && (e.token in s.rows <==> StillKept(events, k, n))
    && (e.token in s.rows ==>
          && s.rows[e.token].created == events[k].now
          && (s.rows[e.token].guest.None? ==> WasDue(events, limits, k, n)))
  }

  /** The guests of a clean-up are those of sessions that were due. */
  ghost predicate ListOk(s: State, events: seq<Timed>, limits: Limits, n: nat, g: Guest)
    requires n <= |events|
  {
    exists k :: 0 <= k < n && events[k].event.InsertCreate? && events[k].event.guest == g && WasDue(events, limits, k, n)
  }

  ghost predicate JobListOk(s: State, events: seq<Timed>, limits: Limits, n: nat, j: nat)
    requires j in s.jobs && n <= |events|
  {
    s.jobs[j].CleaningUp? ==> forall g :: g in s.jobs[j].guests ==> ListOk(s, events, limits, n, g)
  }

  /** Everything is born, nobody's guest is another's, and the counters count statements. */
  ghost predicate NamesOk(s: State, events: seq<Timed>, n: nat)
    requires n <= |events|
  {
    && s.past.created == CreationTimes(events, n)
    && (forall t :: t in s.past.guests ==> exists k :: Birth(events, n, t, k))
    && (forall t, u :: t in s.past.guests && u in s.past.guests && s.past.guests[t] == s.past.guests[u] ==> t == u)
    && forall j, k :: 0 <= j < k < n && events[j].event.InsertCreate? && events[k].event.InsertCreate? ==>
         events[j].event.token != events[k].event.token
  }

  function Counted(count: map<Token, nat>, t: Token): nat {
    if t in count then count[t] else 0
  }

  ghost predicate TallyOk(s: State, events: seq<Timed>, n: nat, t: Token)
    requires n <= |events|
  {
    && Tally(events, n, t, Resolved) == Counted(s.past.resolved, t)
    && Tally(events, n, t, Failing) == Counted(s.past.failed, t)
    && Tally(events, n, t, Consolidating) == Counted(s.past.consolidated, t)
  }

  ghost predicate History(s: State, events: seq<Timed>, limits: Limits, n: nat)
    requires n <= |events|
  {
    && NamesOk(s, events, n)
    && (forall t :: TallyOk(s, events, n, t))
    && (forall k :: 0 <= k < n && events[k].event.InsertCreate? ==> LifeOk(s, events, limits, n, k))
    && forall j :: j in s.jobs ==> JobListOk(s, events, limits, n, j)
  }

  // --- Every statement keeps it ----------------------------------------------------------------

  /** What a statement other than an insert does to the rows. */
  ghost predicate RowFate(s: State, e: Event, s': State, t: Token)
    requires t in s.rows
  {
    && (t in s'.rows <==> (e.SweepRows? ==> e.stamp - CAP_WINDOW <= s.rows[t].created))
    && (t in s'.rows ==>
          && s'.rows[t].created == s.rows[t].created
          && (s'.rows[t].guest == s.rows[t].guest
              || (e.DeleteGuest? && e.job in s.jobs && s.jobs[e.job].CleaningUp? && s.jobs[e.job].guests != []
                  && s.rows[t].guest == Some(s.jobs[e.job].guests[0]) && s'.rows[t].guest.None?)))
  }

  lemma StatementRows(s: State, limits: Limits, e: Event, now: Time, s': State)
    requires Happen(s, limits, e, now) == Some(s') && !e.InsertCreate?
    ensures s'.past.guests == s.past.guests && s'.past.expiry == s.past.expiry && s'.past.created == s.past.created && s'.rows.Keys <= s.rows.Keys
    ensures forall t :: t in s.rows ==> RowFate(s, e, s', t)
  {
    match e
    case Resolve(token, answer) => assert DoResolve(s, limits, token, answer, now) == Some(s');
    case Consolidate(job, token, counted) => assert DoConsolidate(s, limits, job, token, counted, now) == Some(s');
    case DeleteGuest(job) => assert DoDeleteGuest(s, job) == Some(s');
    case SweepRows(job, stamp) => assert DoSweepRows(s, job, stamp, now) == Some(s');
    case _ => OtherStatementRows(s, limits, e, now, s');
  }

  lemma OtherStatementRows(s: State, limits: Limits, e: Event, now: Time, s': State)
    requires Happen(s, limits, e, now) == Some(s') && !e.InsertCreate? && !e.Resolve? && !e.Consolidate? && !e.DeleteGuest? && !e.SweepRows?
    ensures s'.past == s.past && s'.rows == s.rows
  {
  }

  lemma InsertRows(s: State, limits: Limits, e: Event, now: Time, s': State)
    requires Happen(s, limits, e, now) == Some(s') && e.InsertCreate?
    ensures e.token !in s.past.expiry && e.guest !in s.past.guests.Values
    ensures s'.past.guests == s.past.guests[e.token := e.guest] && s'.past.expiry == s.past.expiry[e.token := e.stamp + limits.sessionTTL]
    ensures s'.past.created == s.past.created + [now] && s'.jobs.Keys <= s.jobs.Keys && forall j :: j in s'.jobs ==> s'.jobs[j] == s.jobs[j]
    ensures s'.rows == s.rows[e.token := s'.rows[e.token]] && e.token in s'.rows
    ensures s'.rows[e.token].created == now && s'.rows[e.token].guest == Some(e.guest)
    ensures s'.past.resolved == s.past.resolved[e.token := 0] && s'.past.failed == s.past.failed[e.token := 0]
    ensures s'.past.consolidated == s.past.consolidated[e.token := 0]
  {
  }

  lemma KeptOneMore(events: seq<Timed>, k: nat, n: nat)
    requires k < n < |events|
    ensures StillKept(events, k, n + 1) <==>
            StillKept(events, k, n) && (events[n].event.SweepRows? ==> events[n].event.stamp - CAP_WINDOW <= events[k].now)
  {
  }

  /** An earlier session after one more statement. */
  lemma LifeGoesOn(s: State, events: seq<Timed>, limits: Limits, n: nat, k: nat, s': State)
    requires k < n < |events| && events[k].event.InsertCreate? && LifeOk(s, events, limits, n, k)
    requires var t := events[k].event.token;
             && t in s'.past.guests && s'.past.guests[t] == s.past.guests[t] && t in s'.past.expiry && s'.past.expiry[t] == s.past.expiry[t]
             && (t in s'.rows ==> t in s.rows)
             && (t in s.rows ==> RowFate(s, events[n].event, s', t))
             && (t in s.rows && t in s'.rows && s'.rows[t].guest != s.rows[t].guest ==> WasDue(events, limits, k, n))
    ensures LifeOk(s', events, limits, n + 1, k)
  {
    KeptOneMore(events, k, n);
    if WasDue(events, limits, k, n) {
      DueOneMore(events, limits, k, n);
    }
  }

  lemma DueOneMore(events: seq<Timed>, limits: Limits, k: nat, n: nat)
    requires k < n < |events| && events[k].event.InsertCreate? && WasDue(events, limits, k, n)
    ensures WasDue(events, limits, k, n + 1)
  {
    var m :| k < m < n && events[m].event.SweepQuery?
             && (ExpiryOf(events, limits, k) < events[m].now || events[k].now < events[m].now - events[m].event.backstop);
    assert k < m < n + 1;
  }

  /** Whoever's guest a clean-up deletes was due. */
  lemma DeletedWasDue(s: State, events: seq<Timed>, limits: Limits, n: nat, k: nat, j: nat)
    requires k < n <= |events| && Inv(s, limits) && History(s, events, limits, n) && events[k].event.InsertCreate?
    requires j in s.jobs && s.jobs[j].CleaningUp? && s.jobs[j].guests != []
    requires events[k].event.token in s.rows && s.rows[events[k].event.token].guest == Some(s.jobs[j].guests[0])
    ensures WasDue(events, limits, k, n)
  {
    var g := s.jobs[j].guests[0];
    assert JobListOk(s, events, limits, n, j) && ListOk(s, events, limits, n, g);
    var m :| 0 <= m < n && events[m].event.InsertCreate? && events[m].event.guest == g && WasDue(events, limits, m, n);
    assert LifeOk(s, events, limits, n, m) && LifeOk(s, events, limits, n, k);
    assert RowOk(s, limits, events[k].event.token);
    assert m == k;
  }

  lemma LivesGoOn(s: State, events: seq<Timed>, limits: Limits, n: nat, s': State)
    requires n < |events| && Inv(s, limits) && History(s, events, limits, n) && !events[n].event.InsertCreate?
    requires Happen(s, limits, events[n].event, events[n].now) == Some(s')
    ensures forall k :: 0 <= k < n + 1 && events[k].event.InsertCreate? ==> LifeOk(s', events, limits, n + 1, k)
  {
    StatementRows(s, limits, events[n].event, events[n].now, s');
    forall k | 0 <= k < n + 1 && events[k].event.InsertCreate? ensures LifeOk(s', events, limits, n + 1, k) {
      var t := events[k].event.token;
      assert LifeOk(s, events, limits, n, k);
      if t in s.rows {
        assert RowFate(s, events[n].event, s', t);
        if t in s'.rows && s'.rows[t].guest != s.rows[t].guest {
          DeletedWasDue(s, events, limits, n, k, events[n].event.job);
        }
      }
      LifeGoesOn(s, events, limits, n, k, s');
    }
  }

  lemma BirthLives(s: State, events: seq<Timed>, limits: Limits, n: nat, s': State)
    requires n < |events| && History(s, events, limits, n) && events[n].event.InsertCreate?
    requires Happen(s, limits, events[n].event, events[n].now) == Some(s')
    ensures forall k :: 0 <= k < n + 1 && events[k].event.InsertCreate? ==> LifeOk(s', events, limits, n + 1, k)
  {
    var e := events[n].event;
    InsertRows(s, limits, e, events[n].now, s');
    forall k | 0 <= k < n + 1 && events[k].event.InsertCreate? ensures LifeOk(s', events, limits, n + 1, k) {
      if k < n {
        assert LifeOk(s, events, limits, n, k);
        LifeGoesOn(s, events, limits, n, k, s');
      }
    }
  }

  lemma NamesGoOn(s: State, events: seq<Timed>, limits: Limits, n: nat, s': State)
    requires n < |events| && History(s, events, limits, n)
    requires Happen(s, limits, events[n].event, events[n].now) == Some(s')
    ensures NamesOk(s', events, n + 1)
  {
    var e := events[n].event;
    if e.InsertCreate? {
      InsertRows(s, limits, e, events[n].now, s');
      forall k | 0 <= k < n && events[k].event.InsertCreate? ensures events[k].event.token != e.token {
        assert LifeOk(s, events, limits, n, k);
      }
      assert Birth(events, n + 1, e.token, n);
    } else {
      StatementRows(s, limits, e, events[n].now, s');
    }
    var next := n + 1;
    forall t | t in s'.past.guests ensures exists k :: Birth(events, next, t, k) {
      if t in s.past.guests {
        var k :| Birth(events, n, t, k);
        assert Birth(events, next, t, k);
      }
    }
  }

  lemma ListOneMore(s: State, events: seq<Timed>, limits: Limits, n: nat, g: Guest, s': State)
    requires n < |events| && ListOk(s, events, limits, n, g)
    ensures ListOk(s', events, limits, n + 1, g)
  {
    var k :| 0 <= k < n && events[k].event.InsertCreate? && events[k].event.guest == g && WasDue(events, limits, k, n);
    DueOneMore(events, limits, k, n);
  }

  /** A session that a sweep's query finds is due. */
  lemma FoundIsDue(s: State, events: seq<Timed>, limits: Limits, n: nat, k: nat)
    requires n < |events| && Inv(s, limits) && k < n && events[k].event.InsertCreate? && LifeOk(s, events, limits, n, k)
    requires events[n].event.SweepQuery? && events[k].event.token in s.rows
    requires Sweepable(s.rows[events[k].event.token], events[n].event.backstop, events[n].now)
    ensures WasDue(events, limits, k, n + 1) && s.rows[events[k].event.token].guest == Some(events[k].event.guest)
  {
    assert RowOk(s, limits, events[k].event.token);
    assert k < n < n + 1;
  }

  lemma QueryFindsDue(s: State, events: seq<Timed>, limits: Limits, n: nat, g: Guest, s': State)
    requires n < |events| && Inv(s, limits) && History(s, events, limits, n) && events[n].event.SweepQuery?
    requires g in Listed(GuestsOf(s.rows, events[n].event.backstop, events[n].now))
    ensures ListOk(s', events, limits, n + 1, g)
  {
    var t :| t in s.rows && Sweepable(s.rows[t], events[n].event.backstop, events[n].now) && s.rows[t].guest.value == g;
    assert RowOk(s, limits, t);
    var k :| Birth(events, n, t, k);
    FoundIsDue(s, events, limits, n, k);
  }

  /** Only a sweep's query makes a list, and only its deletes shorten it. */
  lemma ListsComeFrom(s: State, limits: Limits, e: Event, now: Time, s': State, j: nat)
    requires Happen(s, limits, e, now) == Some(s') && j in s'.jobs && s'.jobs[j].CleaningUp?
    ensures || (j in s.jobs && s.jobs[j].CleaningUp? && forall g :: g in s'.jobs[j].guests ==> g in s.jobs[j].guests)
            || (e.SweepQuery? && s'.jobs[j].guests == Listed(GuestsOf(s.rows, e.backstop, now)))
  {
    match e
    case DeleteGuest(job) => assert DoDeleteGuest(s, job) == Some(s');
    case SweepQuery(job, backstop) => assert DoSweepQuery(s, job, backstop, now) == Some(s');
    case InsertCreate(_, _, _, _) => InsertRows(s, limits, e, now, s');
    case Resolve(token, answer) => assert DoResolve(s, limits, token, answer, now) == Some(s');
    case Consolidate(job, token, counted) => assert DoConsolidate(s, limits, job, token, counted, now) == Some(s');
    case _ => OtherListsStay(s, limits, e, now, s', j);
  }

  lemma OtherListsStay(s: State, limits: Limits, e: Event, now: Time, s': State, j: nat)
    requires Happen(s, limits, e, now) == Some(s') && j in s'.jobs && s'.jobs[j].CleaningUp?
    requires e.LockCreate? || e.CountCreate? || e.LookUp? || e.SweepRows? || e.Crash?
    ensures j in s.jobs && s.jobs[j] == s'.jobs[j]
  {
  }

  lemma ListsGoOn(s: State, events: seq<Timed>, limits: Limits, n: nat, s': State)
    requires n < |events| && Inv(s, limits) && History(s, events, limits, n)
    requires Happen(s, limits, events[n].event, events[n].now) == Some(s')
    ensures forall j :: j in s'.jobs ==> JobListOk(s', events, limits, n + 1, j)
  {
    forall j | j in s'.jobs && s'.jobs[j].CleaningUp? ensures JobListOk(s', events, limits, n + 1, j) {
      ListsComeFrom(s, limits, events[n].event, events[n].now, s', j);
      forall g | g in s'.jobs[j].guests ensures ListOk(s', events, limits, n + 1, g) {
        if j in s.jobs && s.jobs[j].CleaningUp? && g in s.jobs[j].guests {
          assert JobListOk(s, events, limits, n, j);
          ListOneMore(s, events, limits, n, g, s');
        } else {
          QueryFindsDue(s, events, limits, n, g, s');
        }
      }
    }
  }

  /** What one statement adds to the counters is what it adds to the tallies. */
  ghost predicate CountsOne(s: State, e: Event, s': State, t: Token) {
    && Counted(s'.past.resolved, t) == Counted(s.past.resolved, t) + (if IsOne(e, t, Resolved) then 1 else 0)
    && Counted(s'.past.failed, t) == Counted(s.past.failed, t) + (if IsOne(e, t, Failing) then 1 else 0)
    && Counted(s'.past.consolidated, t) == Counted(s.past.consolidated, t) + (if IsOne(e, t, Consolidating) then 1 else 0)
  }

  lemma TalliesGoOn(s: State, events: seq<Timed>, limits: Limits, n: nat, s': State, t: Token)
    requires n < |events| && Inv(s, limits) && History(s, events, limits, n)
    requires Happen(s, limits, events[n].event, events[n].now) == Some(s')
    ensures TallyOk(s', events, n + 1, t)
  {
    assert TallyOk(s, events, n, t);
    StatementCounts(s, limits, events[n].event, events[n].now, s', t);
  }

  lemma StatementCounts(s: State, limits: Limits, e: Event, now: Time, s': State, t: Token)
    requires Inv(s, limits) && Happen(s, limits, e, now) == Some(s')
    ensures CountsOne(s, e, s', t)
  {
    if e.InsertCreate? {
      InsertRows(s, limits, e, now, s');
      InsertCounts(s, limits, e.token, s');
    } else if e.Resolve? {
      ResolveCounts(s, limits, e.token, e.answer, now, s', t);
    } else if e.Consolidate? {
      ConsolidateCounts(s, limits, e.job, e.token, e.counted, now, s', t);
    } else {
      OtherTallies(s, limits, e, now, s');
    }
  }

  lemma InsertCounts(s: State, limits: Limits, token: Token, s': State)
    requires Inv(s, limits) && token !in s.past.expiry
    requires s'.past.resolved == s.past.resolved[token := 0] && s'.past.failed == s.past.failed[token := 0] && s'.past.consolidated == s.past.consolidated[token := 0]
    ensures forall t :: Counted(s'.past.resolved, t) == Counted(s.past.resolved, t) && Counted(s'.past.failed, t) == Counted(s.past.failed, t)
    ensures forall t :: Counted(s'.past.consolidated, t) == Counted(s.past.consolidated, t)
  {
  }

  lemma ResolveCounts(s: State, limits: Limits, token: Token, answer: Answer, now: Time, s': State, t: Token)
    requires Inv(s, limits) && DoResolve(s, limits, token, answer, now) == Some(s')
    ensures CountsOne(s, Resolve(token, answer), s', t)
  {
    assert token in s.rows ==> RowOk(s, limits, token);
  }

  lemma ConsolidateCounts(s: State, limits: Limits, job: nat, token: Token, counted: bool, now: Time, s': State, t: Token)
    requires Inv(s, limits) && DoConsolidate(s, limits, job, token, counted, now) == Some(s')
    ensures CountsOne(s, Consolidate(job, token, counted), s', t)
  {
    assert token in s.rows ==> RowOk(s, limits, token);
  }

  lemma OtherTallies(s: State, limits: Limits, e: Event, now: Time, s': State)
    requires Happen(s, limits, e, now) == Some(s') && !e.InsertCreate? && !e.Resolve? && !e.Consolidate?
    ensures s'.past.resolved == s.past.resolved && s'.past.failed == s.past.failed && s'.past.consolidated == s.past.consolidated
  {
    match e
    case DeleteGuest(job) => assert DoDeleteGuest(s, job) == Some(s');
    case SweepRows(job, stamp) => assert DoSweepRows(s, job, stamp, now) == Some(s');
    case _ => OtherStatementRows(s, limits, e, now, s');
  }

  lemma StatementKeepsHistory(s: State, events: seq<Timed>, limits: Limits, n: nat, s': State)
    requires n < |events| && Inv(s, limits) && History(s, events, limits, n)
    requires Happen(s, limits, events[n].event, events[n].now) == Some(s')
    ensures History(s', events, limits, n + 1)
  {
    NamesGoOn(s, events, limits, n, s');
    var next := n + 1;
    forall t ensures TallyOk(s', events, next, t) {
      TalliesGoOn(s, events, limits, n, s', t);
    }
    if events[n].event.InsertCreate? {
      BirthLives(s, events, limits, n, s');
    } else {
      LivesGoOn(s, events, limits, n, s');
    }
    ListsGoOn(s, events, limits, n, s');
  }

  lemma {:induction false} RunHasHistory(states: seq<State>, events: seq<Timed>, limits: Limits, n: nat)
    requires Run(states, events, limits) && n < |states|
    ensures History(states[n], events, limits, n) && Inv(states[n], limits)
  {
    RunKeepsInv(states, events, limits, n);
    if n > 0 {
      RunHasHistory(states, events, limits, n - 1);
      RunKeepsInv(states, events, limits, n - 1);
      assert Step(states[n - 1], limits, events[n - 1].event, events[n - 1].now) == Some(states[n]);
      var s := states[n - 1].(clock := events[n - 1].now);
      ClockKeepsInv(states[n - 1], limits, events[n - 1].now);
      ClockFirst(states[n - 1], limits, events[n - 1].event, events[n - 1].now);
      SameHistory(states[n - 1], s, events, limits, n - 1);
      StatementKeepsHistory(s, events, limits, n - 1, states[n]);
    }
  }

  lemma SameHistory(s: State, s': State, events: seq<Timed>, limits: Limits, n: nat)
    requires n <= |events| && History(s, events, limits, n) && s' == s.(clock := s'.clock)
    ensures History(s', events, limits, n)
  {
    forall t ensures TallyOk(s', events, n, t) {
      assert TallyOk(s, events, n, t);
    }
    forall k | 0 <= k < n && events[k].event.InsertCreate? ensures LifeOk(s', events, limits, n, k) {
      assert LifeOk(s, events, limits, n, k);
    }
    forall j | j in s'.jobs ensures JobListOk(s', events, limits, n, j) {
      assert JobListOk(s, events, limits, n, j);
      forall g | s.jobs[j].CleaningUp? && g in s.jobs[j].guests ensures ListOk(s', events, limits, n, g) {
        assert ListOk(s, events, limits, n, g);
      }
    }
  }

  // --- The promises ----------------------------------------------------------------------------

  /** Before statement i the session is there, young enough and not used up. */
  ghost predicate IsGood(events: seq<Timed>, limits: Limits, i: nat, token: Token, k: nat)
    requires i < |events|
  {
    && Birth(events, i, token, k) && StillKept(events, k, i) && events[i].now < ExpiryOf(events, limits, k)
    && Tally(events, i, token, Resolved) + Tally(events, i, token, Failing) < limits.maxMessages
  }

  /** The one session of a token, before statement i. */
  lemma LifeOf(states: seq<State>, events: seq<Timed>, limits: Limits, i: nat, token: Token) returns (born: bool, k: nat)
    requires Run(states, events, limits) && i < |events|
    ensures born <==> token in states[i].past.guests
    ensures born ==> Birth(events, i, token, k) && LifeOk(states[i], events, limits, i, k)
    ensures forall m :: Birth(events, i, token, m) ==> born && m == k
    ensures token in states[i].rows ==> born && RowOk(states[i], limits, token)
    ensures token in states[i].rows ==>
              && states[i].rows[token].messages == Tally(events, i, token, Resolved) + Tally(events, i, token, Failing)
              && states[i].rows[token].consolidates == Tally(events, i, token, Consolidating)
  {
    RunHasHistory(states, events, limits, i);
    born, k := token in states[i].past.guests, 0;
    if born {
      k :| Birth(events, i, token, k);
    }
    forall m | Birth(events, i, token, m) ensures born && m == k {
      assert LifeOk(states[i], events, limits, i, m);
    }
    assert TallyOk(states[i], events, i, token);
  }

  /**
    A token is answered with the guest its session was created with, or with a
    failure if that guest was cleaned up, and not with an error, exactly when the
    session was created, is still there, has not expired and has messages left.
   */
  lemma ResolveIff(states: seq<State>, events: seq<Timed>, limits: Limits, i: nat)
    requires Run(states, events, limits) && i < |events| && events[i].event.Resolve?
    ensures var token, answer := events[i].event.token, events[i].event.answer;
            && (answer != Invalid <==> exists k: nat :: IsGood(events, limits, i, token, k))
            && (forall k: nat :: answer != Invalid && Birth(events, i, token, k) ==>
                  answer == Guest(events[k].event.guest) || (answer == Failed && WasDue(events, limits, k, i)))
  {
    var token := events[i].event.token;
    var born, k := LifeOf(states, events, limits, i, token);
    assert Step(states[i], limits, events[i].event, events[i].now) == Some(states[i + 1]);
    assert events[i].event.answer == ResolveAnswer(states[i].rows, limits, token, events[i].now);
    if events[i].event.answer != Invalid {
      assert IsGood(events, limits, i, token, k);
    }
  }

  /** A resolve succeeds only before the expiry its session was created with, and for the guest it was created with. */
  lemma ResolvesToItsOwnGuest(states: seq<State>, events: seq<Timed>, limits: Limits, i: nat, g: Guest) returns (k: nat)
    requires Run(states, events, limits) && i < |events| && events[i].event.Resolve? && events[i].event.answer == Guest(g)
    ensures Birth(events, i, events[i].event.token, k) && events[k].event.guest == g
    ensures events[i].now < ExpiryOf(events, limits, k)
  {
    ResolveIff(states, events, limits, i);
    k :| IsGood(events, limits, i, events[i].event.token, k);
  }

  /** Two resolves answer the same guest exactly when they are of the same token. */
  lemma OneGuestEach(states: seq<State>, events: seq<Timed>, limits: Limits, i: nat, j: nat)
    requires Run(states, events, limits) && i <= j < |events| && events[i].event.Resolve? && events[j].event.Resolve?
    requires events[i].event.answer.Guest? && events[j].event.answer.Guest?
    ensures events[i].event.answer == events[j].event.answer <==> events[i].event.token == events[j].event.token
  {
    var k := ResolvesToItsOwnGuest(states, events, limits, i, events[i].event.answer.id);
    var m := ResolvesToItsOwnGuest(states, events, limits, j, events[j].event.answer.id);
    RunHasHistory(states, events, limits, j);
    assert LifeOk(states[j], events, limits, j, k) && LifeOk(states[j], events, limits, j, m);
  }

  /** No session is resolved, with success or not, more often than allowed, not even after its row was deleted. */
  lemma MessageCapHolds(states: seq<State>, events: seq<Timed>, limits: Limits, token: Token)
    requires Run(states, events, limits)
    ensures Tally(events, |events|, token, Resolved) + Tally(events, |events|, token, Failing) <= Cap(limits.maxMessages)
  {
    RunHasHistory(states, events, limits, |events|);
    assert TallyOk(states[|events|], events, |events|, token);
  }

  /**
    A session's counter is the number of resolves that found its guest and of those
    that found it good but without one: failing uses up a message.
   */
  lemma MessagesAreAttempts(states: seq<State>, events: seq<Timed>, limits: Limits, i: nat, token: Token)
    requires Run(states, events, limits) && i < |events| && token in states[i].rows
    ensures states[i].rows[token].messages == Tally(events, i, token, Resolved) + Tally(events, i, token, Failing)
  {
    var born, k := LifeOf(states, events, limits, i, token);
  }

  /** Nor consolidated. */
  lemma ConsolidationCapHolds(states: seq<State>, events: seq<Timed>, limits: Limits, token: Token)
    requires Run(states, events, limits)
    ensures Tally(events, |events|, token, Consolidating) <= Cap(limits.maxConsolidates)
  {
    RunHasHistory(states, events, limits, |events|);
    assert TallyOk(states[|events|], events, |events|, token);
  }

  /** A consolidation is let through exactly when the session was created, is still there, has not expired and has one left. */
  lemma ConsolidateIff(states: seq<State>, events: seq<Timed>, limits: Limits, i: nat)
    requires Run(states, events, limits) && i < |events| && events[i].event.Consolidate?
    ensures events[i].event.counted <==>
            && (exists k :: Birth(events, i, events[i].event.token, k) && StillKept(events, k, i)
                            && events[i].now < ExpiryOf(events, limits, k))
            && Tally(events, i, events[i].event.token, Consolidating) < limits.maxConsolidates
  {
    var token := events[i].event.token;
    var born, k := LifeOf(states, events, limits, i, token);
    assert Step(states[i], limits, events[i].event, events[i].now) == Some(states[i + 1]);
    assert events[i].event.counted == MayConsolidate(states[i].rows, limits, token, events[i].now);
    if events[i].event.counted {
      assert Birth(events, i, token, k) && StillKept(events, k, i);
    }
  }

  /** A session is created exactly when fewer than the cap were created in the last 24 hours, swept or not. */
  lemma RoomIff(states: seq<State>, events: seq<Timed>, limits: Limits, i: nat)
    requires Run(states, events, limits) && i < |events| && events[i].event.CountCreate?
    ensures events[i].event.room <==> |Recent(CreationTimes(events, i), events[i].now - CAP_WINDOW)| < limits.maxSessionsPerDay
  {
    RunHasHistory(states, events, limits, i);
    assert Step(states[i], limits, events[i].event, events[i].now) == Some(states[i + 1]);
    var cutoff := events[i].now - CAP_WINDOW;
    assert CountAt(states[i].rows, states[i].past.created, cutoff);
    assert CountedTokens(states[i].rows, events[i].now) == NewerThan(states[i].rows, cutoff);
  }

  /** How many of the first n sessions were created in [from, from + 24 hours). */
  function CreatedWithin(created: seq<Time>, n: nat, from: Time): nat
    requires n <= |created|
  {
    if n == 0 then 0
    else CreatedWithin(created, n - 1, from) + if from <= created[n - 1] < from + CAP_WINDOW then 1 else 0
  }

  lemma {:induction false} AllCreationsAreAllowed(created: seq<Time>, n: nat, from: Time, max: int)
    requires n <= |created| && forall k: nat :: k < |created| ==> Allowed(created, k, CAP_WINDOW, max)
    ensures CreatedWithin(created, n, from) == AllowedWithin(created, n, from, CAP_WINDOW, max)
  {
    if n > 0 {
      AllCreationsAreAllowed(created, n - 1, from, max);
      assert Allowed(created, n - 1, CAP_WINDOW, max);
    }
  }

  /** Whatever interleaves, no 24 hours see more than MaxSessionsPerDay creations, clean-up or not. */
  lemma DailyCapHolds(states: seq<State>, events: seq<Timed>, limits: Limits, from: Time)
    requires Run(states, events, limits)
    ensures var times := CreationTimes(events, |events|);
            CreatedWithin(times, |times|, from) <= Cap(limits.maxSessionsPerDay)
  {
    RunHasHistory(states, events, limits, |events|);
    var times := CreationTimes(events, |events|);
    AllCreationsAreAllowed(times, |times|, from, limits.maxSessionsPerDay);
    AtMostMaxPerWindow(times, |times|, from, CAP_WINDOW, limits.maxSessionsPerDay);
  }

  // --- ConsolidateNow's second look ---------------------------------------------------------------

  /** The second look says that a session is gone exactly when it is, or is past its expiry. */
  lemma VerdictIff(states: seq<State>, events: seq<Timed>, limits: Limits, i: nat, token: Token, missedAt: Time)
    requires Run(states, events, limits) && i < |events| && events[i].event.LookUp?
    requires events[i].event.job in states[i].jobs && states[i].jobs[events[i].event.job] == LookingUp(token, missedAt)
    ensures events[i].event.verdict == LimitReached <==>
            exists k :: Birth(events, i, token, k) && StillKept(events, k, i) && events[i].now <= ExpiryOf(events, limits, k)
  {
    var born, k := LifeOf(states, events, limits, i, token);
    assert Step(states[i], limits, events[i].event, events[i].now) == Some(states[i + 1]);
    assert events[i].event.verdict == LookUpVerdict(states[i].rows, token, events[i].now);
    if events[i].event.verdict == LimitReached {
      assert Birth(events, i, token, k) && StillKept(events, k, i);
    }
  }

  /**
    ConsolidateNow tells "limit reached" from "session gone" by a second look, in
    a later statement. Whatever happens in between, of a session that is below its
    limit it says "limit reached" exactly when both looks fall on the very moment
    the session expires.
   */
  lemma WrongVerdictIff(states: seq<State>, events: seq<Timed>, limits: Limits, i: nat, token: Token, missedAt: Time)
    requires Run(states, events, limits) && i < |events| && events[i].event.LookUp?
    requires events[i].event.job in states[i].jobs && states[i].jobs[events[i].event.job] == LookingUp(token, missedAt)
    requires token in states[i].rows && Tally(events, i, token, Consolidating) < limits.maxConsolidates
    ensures events[i].event.verdict == LimitReached <==> states[i].rows[token].expires == missedAt == events[i].now
  {
    var born, k := LifeOf(states, events, limits, i, token);
    RunKeepsInv(states, events, limits, i);
    assert JobOk(states[i], limits, events[i].event.job);
    assert Step(states[i], limits, events[i].event, events[i].now) == Some(states[i + 1]);
    assert events[i].event.verdict == LookUpVerdict(states[i].rows, token, events[i].now);
  }

  // --- Runs that show it ---------------------------------------------------------------------------

  /** Every sweep of the run is asked for this backstop. */
  ghost predicate SweepsUse(events: seq<Timed>, backstop: Time) {
    forall i :: 0 <= i < |events| && events[i].event.SweepQuery? ==> events[i].event.backstop == backstop
  }

  /** A run with that backstop ends here. */
  ghost predicate Reached(s: State, limits: Limits, backstop: Time) {
    exists states, events :: Run(states, events, limits) && states[|events|] == s && SweepsUse(events, backstop)
  }

  lemma Begin(limits: Limits, backstop: Time)
    ensures Reached(Initial(0), limits, backstop)
  {
    var states: seq<State>, events: seq<Timed> := [Initial(0)], [];
    assert Run(states, events, limits) && states[|events|] == Initial(0) && SweepsUse(events, backstop);
  }

  lemma Next(s: State, limits: Limits, backstop: Time, e: Event, now: Time, s': State)
    requires Reached(s, limits, backstop) && Step(s, limits, e, now) == Some(s')
    requires e.SweepQuery? ==> e.backstop == backstop
    ensures Reached(s', limits, backstop)
  {
    var states, events :| Run(states, events, limits) && states[|events|] == s && SweepsUse(events, backstop);
    RunOneMore(states, events, limits, Timed(e, now), s');
    assert SweepsUse(events + [Timed(e, now)], backstop) && (states + [s'])[|events| + 1] == s';
  }

  lemma RunOneMore(states: seq<State>, events: seq<Timed>, limits: Limits, e: Timed, s': State)
    requires Run(states, events, limits) && Step(states[|events|], limits, e.event, e.now) == Some(s')
    ensures Run(states + [s'], events + [e], limits)
  {
    var states', events' := states + [s'], events + [e];
    forall i | 0 <= i < |events'| ensures Step(states'[i], limits, events'[i].event, events'[i].now) == Some(states'[i + 1]) {
      if i < |events| {
        assert Step(states[i], limits, events[i].event, events[i].now) == Some(states[i + 1]);
      }
    }
  }

  /** A session created at time 0 on an empty table. */
  lemma FirstSession(limits: Limits, backstop: Time) returns (s: State)
    requires limits.maxSessionsPerDay >= 1
    ensures Reached(s, limits, backstop) && s.jobs == map[] && s.lock == None && s.clock == 0
    ensures s.rows == map[1 := Row(Some(7), 0, limits.sessionTTL, 0, 0)]
    ensures s.past.guests == map[1 := 7]
  {
    Begin(limits, backstop);
    var s0 := Initial(0);
    var s1 := Step(s0, limits, LockCreate(1), 0).value;
    Next(s0, limits, backstop, LockCreate(1), 0, s1);
    assert CountedTokens(s1.rows, 0) == {};
    var s2 := Step(s1, limits, CountCreate(1, true), 0).value;
    Next(s1, limits, backstop, CountCreate(1, true), 0, s2);
    s := Step(s2, limits, InsertCreate(1, 0, 1, 7), 0).value;
    Next(s2, limits, backstop, InsertCreate(1, 0, 1, 7), 0, s);
  }

  /**
    A sweep whose backstop lets it clear a session before it can expire makes one
    fail that is neither expired nor used up, and counts the message.
   */
  lemma EarlySweepFails(limits: Limits, backstop: Time, now: Time) returns (s: State, s': State)
    requires limits.maxSessionsPerDay >= 1 && limits.maxMessages >= 1
    requires now >= 0 && now > backstop && now < limits.sessionTTL
    ensures Reached(s, limits, backstop) && 1 in s.rows && s.rows[1].expires > now && s.rows[1].messages == 0
    ensures Step(s, limits, Resolve(1, Failed), now) == Some(s') && 1 in s'.rows && s'.rows[1].messages == 1
  {
    var s1 := FirstSession(limits, backstop);
    var s2 := Step(s1, limits, SweepQuery(2, backstop), now).value;
    Next(s1, limits, backstop, SweepQuery(2, backstop), now, s2);
    assert s1.rows[1].guest.value in GuestsOf(s1.rows, backstop, now) && GuestsOf(s1.rows, backstop, now) == {7};
    OneListed({7}, 7);
    s := Step(s2, limits, DeleteGuest(2), now).value;
    Next(s2, limits, backstop, DeleteGuest(2), now, s);
    s' := Step(s, limits, Resolve(1, Failed), now).value;
  }

  lemma OneListed(guests: set<Guest>, g: Guest)
    requires guests == {g}
    ensures Listed(guests) == [g]
  {
    assert guests - {g} == {};
  }

  /** A run that gets to the wrong verdict: a fresh session, asked to consolidate at the moment it expires. */
  lemma WrongVerdictIsReachable(limits: Limits, backstop: Time) returns (s: State)
    requires limits.maxSessionsPerDay >= 1 && limits.sessionTTL >= 0 && limits.maxConsolidates >= 1
    ensures Reached(s, limits, backstop) && 3 in s.jobs && 1 in s.rows && s.rows[1].consolidates == 0
    ensures Step(s, limits, LookUp(3, LimitReached), limits.sessionTTL).Some?
  {
    var s1 := FirstSession(limits, backstop);
    s := Step(s1, limits, Consolidate(3, 1, false), limits.sessionTTL).value;
    Next(s1, limits, backstop, Consolidate(3, 1, false), limits.sessionTTL, s);
  }
}
