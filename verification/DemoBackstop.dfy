/**
  The two ages of internal/demo/store.go, a session's and the one at which Sweep
  clears any guest: exactly when the second leaves every session its time.
 */
module DemoBackstop {
  import opened Basics
  import opened RateLimiter
  import opened DemoSessions
  import opened DemoPromises

  /** No session can be old enough for a sweep before it expires, or there is none that could answer at all. */
  predicate LeavesTime(limits: Limits, backstop: Time) {
    || limits.sessionTTL <= backstop + 1
    || limits.sessionTTL <= 0 || limits.maxSessionsPerDay <= 0 || limits.maxMessages <= 0
  }

  /** In a run whose sweeps use the backstop, statement i finds a session good but without its guest. */
  ghost predicate Fails(states: seq<State>, events: seq<Timed>, limits: Limits, backstop: Time, i: nat) {
    && Run(states, events, limits) && SweepsUse(events, backstop)
    && i < |events| && events[i].event.Resolve? && events[i].event.answer == Failed
  }

  ghost predicate NeverFails(limits: Limits, backstop: Time) {
    forall states, events, i :: !Fails(states, events, limits, backstop, i)
  }

  lemma {:induction false} ClockGoesOn(states: seq<State>, events: seq<Timed>, limits: Limits, i: nat, j: nat)
    requires Run(states, events, limits) && i <= j < |events|
    ensures states[i + 1].clock == events[i].now <= events[j].now
    decreases j
  {
    assert Step(states[i], limits, events[i].event, events[i].now) == Some(states[i + 1]);
    if i < j {
      ClockGoesOn(states, events, limits, i, j - 1);
      assert Step(states[j - 1], limits, events[j - 1].event, events[j - 1].now) == Some(states[j]);
      assert Step(states[j], limits, events[j].event, events[j].now) == Some(states[j + 1]);
    }
  }

  /** A session's expiry is reckoned from before its row is stored, and there is one only if there is room for any. */
  lemma BornInTime(states: seq<State>, events: seq<Timed>, limits: Limits, k: nat)
    requires Run(states, events, limits) && k < |events| && events[k].event.InsertCreate?
    ensures ExpiryOf(events, limits, k) <= events[k].now + limits.sessionTTL && limits.maxSessionsPerDay >= 1
  {
    RunKeepsInv(states, events, limits, k);
    assert Step(states[k], limits, events[k].event, events[k].now) == Some(states[k + 1]);
    assert JobOk(states[k], limits, events[k].event.job);
  }

  lemma FailingIsDue(states: seq<State>, events: seq<Timed>, limits: Limits, backstop: Time, i: nat)
    requires Fails(states, events, limits, backstop, i)
    ensures !LeavesTime(limits, backstop)
  {
    ResolveIff(states, events, limits, i);
    var k: nat :| IsGood(events, limits, i, events[i].event.token, k);
    BornInTime(states, events, limits, k);
    var m: nat :| k < m < i && events[m].event.SweepQuery?
             && (ExpiryOf(events, limits, k) < events[m].now || events[k].now < events[m].now - events[m].event.backstop);
    ClockGoesOn(states, events, limits, k, i);
    ClockGoesOn(states, events, limits, m, i);
  }

  /**
    With a backstop that every sweep is asked for, no session in good standing ever
    fails, whatever interleaves, if and only if no session can be older than the
    backstop before it expires.
   */
  lemma NeverFailsIff(limits: Limits, backstop: Time)
    ensures NeverFails(limits, backstop) <==> LeavesTime(limits, backstop)
  {
    if LeavesTime(limits, backstop) {
      forall states, events, i ensures !Fails(states, events, limits, backstop, i) {
        if Fails(states, events, limits, backstop, i) {
          FailingIsDue(states, events, limits, backstop, i);
        }
      }
    } else {
      var now := if backstop < 0 then 0 else backstop + 1;
      var s, s' := EarlySweepFails(limits, backstop, now);
      OneMoreStatement(s, limits, backstop, Resolve(1, Failed), now, s');
    }
  }

  lemma OneMoreStatement(s: State, limits: Limits, backstop: Time, e: Event, now: Time, s': State)
    requires Reached(s, limits, backstop) && Step(s, limits, e, now) == Some(s') && e.Resolve? && e.answer == Failed
    ensures !NeverFails(limits, backstop)
  {
    var states, events :| Run(states, events, limits) && states[|events|] == s && SweepsUse(events, backstop);
    RunOneMore(states, events, limits, Timed(e, now), s');
    assert Fails(states + [s'], events + [Timed(e, now)], limits, backstop, |events|);
  }
}
