/**
  The methods of DemoSessions.Store are calls of its step protocol whose steps
  nothing comes between.
 */
module DemoCalls {
  import opened Basics
  import opened RateLimiter
  import opened DemoSessions

  ghost predicate CallPath(states: seq<State>, events: seq<Timed>, limits: Limits, s: State, t: State) {
    && |states| == |events| + 1 && states[0] == s && states[|events|] == t
    && forall i {:trigger Step(states[i], limits, events[i].event, events[i].now)} :: 0 <= i < |events| ==>
         Step(states[i], limits, events[i].event, events[i].now) == Some(states[i + 1])
  }

  ghost predicate OwnSteps(events: seq<Timed>, job: nat) {
    forall i :: 0 <= i < |events| ==> StepOf(events[i].event, job)
  }

  /** A call's own steps lead from one state to the other. */
  ghost predicate CallLeads(s: State, t: State, limits: Limits, job: nat) {
    exists states, events :: CallPath(states, events, limits, s, t) && OwnSteps(events, job)
  }

  predicate StepOf(e: Event, job: nat) {
    !e.Resolve? && e.job == job
  }

  lemma CallBegins(s: State, limits: Limits, job: nat)
    ensures CallLeads(s, s, limits, job)
  {
    var states: seq<State>, events: seq<Timed> := [s], [];
    assert CallPath(states, events, limits, s, s);
  }

  lemma CallGoesOn(s: State, t: State, limits: Limits, job: nat, e: Event, now: Time) returns (u: State)
    requires CallLeads(s, t, limits, job) && Step(t, limits, e, now).Some? && StepOf(e, job)
    ensures Step(t, limits, e, now) == Some(u) && CallLeads(s, u, limits, job)
  {
    u := Step(t, limits, e, now).value;
    var states, events :| CallPath(states, events, limits, s, t) && OwnSteps(events, job);
    var states', events' := states + [u], events + [Timed(e, now)];
    forall i | 0 <= i < |events'| ensures Step(states'[i], limits, events'[i].event, events'[i].now) == Some(states'[i + 1]) {
      if i < |events| {
        assert Step(states[i], limits, events[i].event, events[i].now) == Some(states[i + 1]);
      }
    }
    assert CallPath(states', events', limits, s, u);
  }

  /** Store.CreateSession, by a call that gets the lock. */
  lemma CreateIsItsSteps(s: State, limits: Limits, job: nat, countedAt: Time, works: bool, stamp: Time, insertedAt: Time,
                         token: Token, guest: Guest)
    returns (t: State)
    requires job !in s.jobs && s.lock.None? && IsFresh(s, token) && IsNewGuest(s, guest)
    requires s.clock <= countedAt <= stamp <= insertedAt
    ensures CallLeads(s, t, limits, job) && t.jobs == s.jobs && t.lock.None?
    ensures t.rows == if |CountedTokens(s.rows, countedAt)| < limits.maxSessionsPerDay && works
                      then s.rows[token := Row(Some(guest), insertedAt, stamp + limits.sessionTTL, 0, 0)]
                      else s.rows
  {
    CallBegins(s, limits, job);
    var locked := CallGoesOn(s, s, limits, job, LockCreate(job), s.clock);
    assert locked.jobs - {job} == s.jobs;
    var room := |CountedTokens(s.rows, countedAt)| < limits.maxSessionsPerDay;
    t := AfterLock(s, locked, limits, job, room, countedAt);
    if room {
      assert t.jobs - {job} == s.jobs;
      if works {
        t := InsertTail(s, t, limits, job, stamp, insertedAt, token, guest);
      } else {
        t := CallGoesOn(s, t, limits, job, Crash(job), insertedAt);
      }
    }
  }

  lemma AfterLock(s0: State, s: State, limits: Limits, job: nat, room: bool, now: Time) returns (t: State)
    requires CallLeads(s0, s, limits, job) && job in s.jobs && s.jobs[job].Locked? && s.lock == Some(job) && s.clock <= now
    requires room == (|CountedTokens(s.rows, now)| < limits.maxSessionsPerDay)
    ensures CallLeads(s0, t, limits, job) && t.rows == s.rows && t.past.expiry == s.past.expiry && t.past.guests == s.past.guests && t.clock == now
    ensures room ==> t.jobs == s.jobs[job := DemoSessions.Counted(now)] && t.lock == s.lock
    ensures !room ==> t.jobs == s.jobs - {job} && t.lock.None?
  {
    t := CallGoesOn(s0, s, limits, job, CountCreate(job, room), now);
  }

  lemma InsertTail(s0: State, s: State, limits: Limits, job: nat, stamp: Time, insertedAt: Time, token: Token, guest: Guest)
    returns (t: State)
    requires CallLeads(s0, s, limits, job) && job in s.jobs && s.jobs[job].Counted? && s.lock == Some(job)
    requires IsFresh(s, token) && IsNewGuest(s, guest) && s.jobs[job].at <= stamp <= insertedAt && s.clock <= insertedAt
    ensures CallLeads(s0, t, limits, job) && t.jobs == s.jobs - {job} && t.lock.None?
    ensures t.rows == s.rows[token := Row(Some(guest), insertedAt, stamp + limits.sessionTTL, 0, 0)]
  {
    t := CallGoesOn(s0, s, limits, job, InsertCreate(job, stamp, token, guest), insertedAt);
  }

  /** Store.ConsolidateNow: one statement or, when that changes nothing, two. */
  lemma ConsolidateIsItsSteps(s: State, limits: Limits, job: nat, token: Token, now: Time, later: Time) returns (t: State)
    requires job !in s.jobs && s.lock != Some(job) && s.clock <= now <= later
    ensures CallLeads(s, t, limits, job) && t.jobs == s.jobs && t.lock == s.lock
    ensures t.rows == if MayConsolidate(s.rows, limits, token, now)
                      then s.rows[token := s.rows[token].(consolidates := s.rows[token].consolidates + 1)]
                      else s.rows
  {
    CallBegins(s, limits, job);
    t := CallGoesOn(s, s, limits, job, Consolidate(job, token, MayConsolidate(s.rows, limits, token, now)), now);
    if !MayConsolidate(s.rows, limits, token, now) {
      t := CallGoesOn(s, t, limits, job, LookUp(job, LookUpVerdict(s.rows, token, later)), later);
    }
    assert t.jobs == s.jobs;
  }

  /** The clean-up of the first n guests, one after the other. */
  lemma {:induction false} DeleteGuests(s0: State, s: State, limits: Limits, job: nat, now: Time, n: nat) returns (t: State)
    requires CallLeads(s0, s, limits, job) && job in s.jobs && s.jobs[job].CleaningUp? && s.clock <= now
    requires n <= |s.jobs[job].guests|
    ensures CallLeads(s0, t, limits, job) && t.jobs == s.jobs[job := CleaningUp(s.jobs[job].guests[n..])]
    ensures t.lock == s.lock && t.clock <= now
    ensures t.rows == map k | k in s.rows :: Cleaned(s.rows[k], s.jobs[job].guests[..n])
    decreases n
  {
    var guests := s.jobs[job].guests;
    if n == 0 {
      t := s;
    } else {
      var u := CallGoesOn(s0, s, limits, job, DeleteGuest(job), now);
      t := DeleteGuests(s0, u, limits, job, now, n - 1);
      assert guests[..n] == [guests[0]] + guests[1..][..n - 1];
    }
  }

  /** Store.Sweep: the rows are what the method leaves, whether a clean-up fails or not. */
  lemma SweepIsItsSteps(s: State, limits: Limits, job: nat, backstop: Time, now: Time, stamp: Time, working: nat)
    returns (t: State)
    requires job !in s.jobs && s.lock != Some(job) && s.clock <= now <= stamp
    ensures CallLeads(s, t, limits, job) && t.jobs == s.jobs && t.lock == s.lock
    ensures Swept(s.rows, t.rows, Listed(GuestsOf(s.rows, backstop, now)), working, stamp - CAP_WINDOW)
  {
    CallBegins(s, limits, job);
    var begun := CallGoesOn(s, s, limits, job, SweepQuery(job, backstop), now);
    assert begun.jobs - {job} == s.jobs;
    if working < |begun.jobs[job].guests| {
      t := StopSweep(s, begun, limits, job, now, working);
    } else {
      t := AfterSweepQuery(s, begun, limits, job, now, stamp);
    }
  }

  lemma StopSweep(s0: State, s: State, limits: Limits, job: nat, now: Time, working: nat) returns (t: State)
    requires CallLeads(s0, s, limits, job) && job in s.jobs && s.jobs[job].CleaningUp? && s.lock != Some(job)
    requires s.clock <= now && working < |s.jobs[job].guests|
    ensures CallLeads(s0, t, limits, job) && t.jobs == s.jobs - {job} && t.lock == s.lock
    ensures t.rows == map k | k in s.rows :: Cleaned(s.rows[k], s.jobs[job].guests[..working])
  {
    var u := DeleteGuests(s0, s, limits, job, now, working);
    t := CallGoesOn(s0, u, limits, job, Crash(job), now);
    assert t.jobs == s.jobs - {job};
  }

  lemma AfterSweepQuery(s0: State, s: State, limits: Limits, job: nat, now: Time, stamp: Time) returns (t: State)
    requires CallLeads(s0, s, limits, job) && job in s.jobs && s.jobs[job].CleaningUp? && s.lock != Some(job)
    requires s.clock <= now <= stamp
    ensures CallLeads(s0, t, limits, job) && t.jobs == s.jobs - {job} && t.lock == s.lock
    ensures forall k :: k in t.rows <==> k in s.rows && s.rows[k].created >= stamp - CAP_WINDOW
    ensures forall k :: k in t.rows ==> t.rows[k] == Cleaned(s.rows[k], s.jobs[job].guests)
  {
    var guests := s.jobs[job].guests;
    var cleaned := DeleteGuests(s0, s, limits, job, now, |guests|);
    assert guests[..|guests|] == guests && guests[|guests|..] == [];
    t := SweepTail(s0, cleaned, limits, job, stamp);
    assert t.jobs == s.jobs - {job};
  }

  lemma SweepTail(s0: State, s: State, limits: Limits, job: nat, stamp: Time) returns (t: State)
    requires CallLeads(s0, s, limits, job) && job in s.jobs && s.jobs[job] == CleaningUp([]) && s.lock != Some(job)
    requires s.clock <= stamp
    ensures CallLeads(s0, t, limits, job) && t.jobs == s.jobs - {job} && t.lock == s.lock
    ensures t.rows == WithoutOld(s.rows, stamp - CAP_WINDOW)
  {
    t := CallGoesOn(s0, s, limits, job, SweepRows(job, stamp), stamp);
  }
}
