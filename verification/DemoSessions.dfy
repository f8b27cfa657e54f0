/**
  internal/demo/store.go: the demo's session table under any interleaving of
  session creation, use, consolidation and clean-up, on one clock that never
  goes back. Each SQL statement is one step.
 */
module DemoSessions {
  import opened Basics
  import opened RateLimiter

  type Token = nat

  type Guest = nat

  const CAP_WINDOW: Time := 24 * 60 * 60

  datatype Limits = Limits(sessionTTL: Time, maxSessionsPerDay: int, maxMessages: int, maxConsolidates: int)

  /** A demo_sessions row; guest is NULL once the guest's data has been cleaned up. */
  datatype Row = Row(guest: Option<Guest>, created: Time, expires: Time, messages: nat, consolidates: nat)

  type Rows = map<Token, Row>

  datatype Job =
    | Locked
    | Counted(at: Time)
    | LookingUp(token: Token, missedAt: Time)
    | CleaningUp(guests: seq<Guest>)

  /**
    created lists every creation there ever was; guests and expiry are what each
    session was given; resolved and failed count every Resolve that found a guest
    and every one that found a good session without one, consolidated every
    consolidation that was let through: history that deleted rows no longer show.
   */
  datatype Past = Past(
    created: seq<Time>,
    guests: map<Token, Guest>,
    expiry: map<Token, Time>,
    resolved: map<Token, nat>,
    failed: map<Token, nat>,
    consolidated: map<Token, nat>)

  datatype State = State(rows: Rows, jobs: map<nat, Job>, lock: Option<nat>, clock: Time, past: Past)

  const NOTHING_YET := Past([], map[], map[], map[], map[], map[])

  function Initial(start: Time): State {
    State(map[], map[], None, start, NOTHING_YET)
  }

  /** Invalid is the one error Resolve admits to; a cleaned-up guest makes it fail otherwise. */
  datatype Answer = Guest(id: Guest) | Invalid | Failed

  datatype Verdict = SessionInvalid | LimitReached

  /** A statement, with what it answers: whether there is room, whose guest, whether it counted, which verdict. */
  datatype Event =
    | LockCreate(job: nat)
    | CountCreate(job: nat, room: bool)
    | InsertCreate(job: nat, stamp: Time, token: Token, guest: Guest)
    | Resolve(token: Token, answer: Answer)
    | Consolidate(job: nat, token: Token, counted: bool)
    | LookUp(job: nat, verdict: Verdict)
    | SweepQuery(job: nat, backstop: Time)
    | DeleteGuest(job: nat)
    | SweepRows(job: nat, stamp: Time)
    | Crash(job: nat)

  function WithJob(s: State, id: nat, job: Job): State {
    s.(jobs := s.jobs[id := job])
  }

  /** The call ends; a CreateSession gives its lock back. */
  function EndJob(s: State, id: nat): State {
    s.(jobs := s.jobs - {id}, lock := if s.lock == Some(id) then None else s.lock)
  }

  // --- CreateSession ------------------------------------------------------------------

  function DoLockCreate(s: State, job: nat): Option<State> {
    if job in s.jobs || s.lock.Some? then None else Some(WithJob(s, job, Locked).(lock := Some(job)))
  }

  /** select count(*) ... where created_at > now - capWindow */
  function CountedTokens(rows: Rows, now: Time): set<Token> {
    set t | t in rows && rows[t].created > now - CAP_WINDOW
  }

  function DoCountCreate(s: State, limits: Limits, job: nat, room: bool, now: Time): Option<State> {
    if job !in s.jobs || !s.jobs[job].Locked? || room != (|CountedTokens(s.rows, now)| < limits.maxSessionsPerDay) then None
    else if room then Some(WithJob(s, job, Counted(now)))
    else Some(EndJob(s, job))
  }

  /** A random token is one that no session has had and no call has named. */
  predicate IsFresh(s: State, token: Token) {
    token !in s.past.expiry && forall j :: j in s.jobs && s.jobs[j].LookingUp? ==> s.jobs[j].token != token
  }

  /** A random guest is one that no session has ever had. */
  predicate IsNewGuest(s: State, guest: Guest) {
    guest !in s.past.guests.Values
  }

  /** The expiry is reckoned from a time between the count and the insert. */
  function DoInsertCreate(s: State, limits: Limits, job: nat, stamp: Time, now: Time, token: Token, guest: Guest): Option<State> {
    if job in s.jobs && s.jobs[job].Counted? && s.jobs[job].at <= stamp <= now && IsFresh(s, token) && IsNewGuest(s, guest)
    then Some(EndJob(s, job).(
      rows := s.rows[token := Row(Some(guest), now, stamp + limits.sessionTTL, 0, 0)],
      past := Past(s.past.created + [now], s.past.guests[token := guest], s.past.expiry[token := stamp + limits.sessionTTL],
                   s.past.resolved[token := 0], s.past.failed[token := 0], s.past.consolidated[token := 0])))
    else None
  }

  // --- Resolve and ConsolidateNow ---------------------------------------------------------

  predicate MayResolve(rows: Rows, limits: Limits, token: Token, now: Time) {
    token in rows && rows[token].expires > now && rows[token].messages < limits.maxMessages
  }

  function ResolveAnswer(rows: Rows, limits: Limits, token: Token, now: Time): Answer {
    if !MayResolve(rows, limits, token, now) then Invalid
    else if rows[token].guest.None? then Failed
    else Guest(rows[token].guest.value)
  }

  /** The counter goes up even when the row's guest is gone. */
  function ResolveRows(rows: Rows, limits: Limits, token: Token, now: Time): Rows {
    if MayResolve(rows, limits, token, now) then rows[token := rows[token].(messages := rows[token].messages + 1)] else rows
  }

  function OneMore(count: map<Token, nat>, token: Token): map<Token, nat> {
    if token in count then count[token := count[token] + 1] else count
  }

  function DoResolve(s: State, limits: Limits, token: Token, answer: Answer, now: Time): Option<State> {
    if answer != ResolveAnswer(s.rows, limits, token, now) then None
    else Some(s.(
      rows := ResolveRows(s.rows, limits, token, now),
      past := s.past.(
        resolved := if answer.Guest? then OneMore(s.past.resolved, token) else s.past.resolved,
        failed := if answer.Failed? then OneMore(s.past.failed, token) else s.past.failed)))
  }

  predicate MayConsolidate(rows: Rows, limits: Limits, token: Token, now: Time) {
    token in rows && rows[token].expires > now && rows[token].consolidates < limits.maxConsolidates
  }

  /** The counter goes up before the consolidation runs. */
  function ConsolidateRows(rows: Rows, limits: Limits, token: Token, now: Time): Rows {
    if MayConsolidate(rows, limits, token, now) then rows[token := rows[token].(consolidates := rows[token].consolidates + 1)]
    else rows
  }

  function DoConsolidate(s: State, limits: Limits, job: nat, token: Token, counted: bool, now: Time): Option<State> {
    if job in s.jobs || counted != MayConsolidate(s.rows, limits, token, now) then None
    else if counted
    then Some(s.(rows := ConsolidateRows(s.rows, limits, token, now),
                 past := s.past.(consolidated := OneMore(s.past.consolidated, token))))
    else Some(WithJob(s, job, LookingUp(token, now)))
  }

  /** The second query of a ConsolidateNow that was refused; it compares the other way round. */
  function LookUpVerdict(rows: Rows, token: Token, now: Time): Verdict {
    if token !in rows || rows[token].expires < now then SessionInvalid else LimitReached
  }

  function DoLookUp(s: State, job: nat, verdict: Verdict, now: Time): Option<State> {
    if job in s.jobs && s.jobs[job].LookingUp? && verdict == LookUpVerdict(s.rows, s.jobs[job].token, now)
    then Some(EndJob(s, job))
    else None
  }

  // --- Sweep --------------------------------------------------------------------------------

  predicate Sweepable(row: Row, backstop: Time, now: Time) {
    row.guest.Some? && (row.expires < now || row.created < now - backstop)
  }

  /** Deleting the guest's user sets the session's reference to NULL and leaves the row. */
  function WithoutGuest(rows: Rows, guest: Guest): Rows {
    map t | t in rows :: if rows[t].guest == Some(guest) then rows[t].(guest := None) else rows[t]
  }

  /** A row once the listed guests are gone. */
  function Cleaned(row: Row, guests: seq<Guest>): Row {
    if row.guest.Some? && row.guest.value in guests then row.(guest := None) else row
  }

  /** What a sweep leaves: all that are due cleaned up and old rows gone, or the first few cleaned up. */
  ghost predicate Swept(before: Rows, after: Rows, due: seq<Guest>, working: nat, cutoff: Time) {
    if working < |due| then
      && after.Keys == before.Keys
      && forall t :: t in after ==> after[t] == Cleaned(before[t], due[..working])
    else
      && (forall t :: t in after <==> t in before && before[t].created >= cutoff)
      && forall t :: t in after ==> after[t] == Cleaned(before[t], due)
  }

  function WithoutOld(rows: Rows, cutoff: Time): Rows {
    map t | t in rows && rows[t].created >= cutoff :: rows[t]
  }

  /** The guests found, in any order. */
  function GuestsOf(rows: Rows, backstop: Time, now: Time): set<Guest> {
    set t | t in rows && Sweepable(rows[t], backstop, now) :: rows[t].guest.value
  }

  function Listed(guests: set<Guest>): (list: seq<Guest>)
    ensures forall g :: g in list <==> g in guests
    ensures |list| == |guests|
  {
    if guests == {} then []
    else
      var g := Least(guests);
      [g] + Listed(guests - {g})
  }

  function DoSweepQuery(s: State, job: nat, backstop: Time, now: Time): Option<State> {
    if job in s.jobs then None else Some(WithJob(s, job, CleaningUp(Listed(GuestsOf(s.rows, backstop, now)))))
  }

  function DoDeleteGuest(s: State, job: nat): Option<State> {
    if job in s.jobs && s.jobs[job].CleaningUp? && s.jobs[job].guests != []
    then
      var guests := s.jobs[job].guests;
      Some(WithJob(s, job, CleaningUp(guests[1..])).(rows := WithoutGuest(s.rows, guests[0])))
    else None
  }

  /** The cutoff is reckoned before the delete runs. */
  function DoSweepRows(s: State, job: nat, stamp: Time, now: Time): Option<State> {
    if job in s.jobs && s.jobs[job] == CleaningUp([]) && stamp <= now
    then Some(EndJob(s, job).(rows := WithoutOld(s.rows, stamp - CAP_WINDOW)))
    else None
  }

  // --- Runs ------------------------------------------------------------------------------------

  function Happen(s: State, limits: Limits, e: Event, now: Time): Option<State> {
    match e
    case LockCreate(job) => DoLockCreate(s, job)
    case CountCreate(job, room) => DoCountCreate(s, limits, job, room, now)
    case InsertCreate(job, stamp, token, guest) => DoInsertCreate(s, limits, job, stamp, now, token, guest)
    case Resolve(token, answer) => DoResolve(s, limits, token, answer, now)
    case Consolidate(job, token, counted) => DoConsolidate(s, limits, job, token, counted, now)
    case LookUp(job, verdict) => DoLookUp(s, job, verdict, now)
    case SweepQuery(job, backstop) => DoSweepQuery(s, job, backstop, now)
    case DeleteGuest(job) => DoDeleteGuest(s, job)
    case SweepRows(job, stamp) => DoSweepRows(s, job, stamp, now)
    case Crash(job) => if job in s.jobs then Some(EndJob(s, job)) else None
  }

  /** A step at a time not before the last one. */
  function Step(s: State, limits: Limits, e: Event, now: Time): Option<State> {
    if now < s.clock then None
    else
      match Happen(s, limits, e, now)
      case None => None
      case Some(s') => Some(s'.(clock := now))
  }

  datatype Timed = Timed(event: Event, now: Time)

  ghost predicate Run(states: seq<State>, events: seq<Timed>, limits: Limits) {
    && |states| == |events| + 1 && states[0] == Initial(states[0].clock)
    && forall i {:trigger Step(states[i], limits, events[i].event, events[i].now)} :: 0 <= i < |events| ==>
         Step(states[i], limits, events[i].event, events[i].now) == Some(states[i + 1])
  }

  // --- What every run keeps ------------------------------------------------------------------------

  function Cap(limit: int): nat {
    if limit < 0 then 0 else limit
  }

  /** Rows newer than the cutoff, counted in the table and in the full history. */
  ghost predicate CountAt(rows: Rows, created: seq<Time>, cutoff: Time) {
    |NewerThan(rows, cutoff)| == |Recent(created, cutoff)|
  }

  function NewerThan(rows: Rows, cutoff: Time): set<Token> {
    set t | t in rows && rows[t].created > cutoff
  }

  ghost predicate CountsFrom(rows: Rows, created: seq<Time>, from: Time) {
    forall cutoff :: from <= cutoff ==> CountAt(rows, created, cutoff)
  }

  ghost predicate RowOk(s: State, limits: Limits, t: Token)
    requires t in s.rows
  {
    && t in s.past.expiry && s.rows[t].expires == s.past.expiry[t]
    && t in s.past.resolved && t in s.past.failed && s.rows[t].messages == s.past.resolved[t] + s.past.failed[t]
    && t in s.past.consolidated && s.rows[t].consolidates == s.past.consolidated[t]
    && t in s.past.guests && (s.rows[t].guest.Some? ==> s.rows[t].guest.value == s.past.guests[t])
    && s.rows[t].messages <= Cap(limits.maxMessages)
    && s.rows[t].consolidates <= Cap(limits.maxConsolidates)
  }

  /** A session that could not consolidate at that time still cannot. */
  ghost predicate Missed(rows: Rows, limits: Limits, token: Token, at: Time) {
    token in rows ==> rows[token].expires <= at || rows[token].consolidates >= limits.maxConsolidates
  }

  ghost predicate JobOk(s: State, limits: Limits, j: nat)
    requires j in s.jobs
  {
    match s.jobs[j]
    case Locked => s.lock == Some(j)
    case Counted(at) => s.lock == Some(j) && at <= s.clock && Permits(s.past.created, at, CAP_WINDOW, limits.maxSessionsPerDay)
    case LookingUp(token, at) => at <= s.clock && Missed(s.rows, limits, token, at)
    case CleaningUp(_) => true
  }

  ghost predicate Inv(s: State, limits: Limits) {
    && s.past.expiry.Keys == s.past.resolved.Keys == s.past.failed.Keys == s.past.consolidated.Keys == s.past.guests.Keys
    && (forall t :: t in s.rows ==> RowOk(s, limits, t))
    && (forall t :: t in s.past.resolved ==>
          s.past.resolved[t] + s.past.failed[t] <= Cap(limits.maxMessages) && s.past.consolidated[t] <= Cap(limits.maxConsolidates))
    && CountsFrom(s.rows, s.past.created, s.clock - CAP_WINDOW)
    && (forall j :: j in s.jobs ==> JobOk(s, limits, j))
    && (forall k: nat :: k < |s.past.created| ==> Allowed(s.past.created, k, CAP_WINDOW, limits.maxSessionsPerDay))
  }

  /** Changing rows without touching their creation times leaves the counts alone. */
  lemma SameCreationTimes(rows: Rows, rows': Rows, created: seq<Time>, from: Time)
    requires CountsFrom(rows, created, from)
    requires rows'.Keys == rows.Keys && forall t :: t in rows ==> rows'[t].created == rows[t].created
    ensures CountsFrom(rows', created, from)
  {
    forall cutoff | from <= cutoff ensures CountAt(rows', created, cutoff) {
      assert CountAt(rows, created, cutoff);
      assert NewerThan(rows', cutoff) == NewerThan(rows, cutoff);
    }
  }

  lemma OldRowsDoNotCount(rows: Rows, created: seq<Time>, from: Time, cutoff: Time)
    requires CountsFrom(rows, created, from) && cutoff <= from
    ensures CountsFrom(WithoutOld(rows, cutoff), created, from)
  {
    forall c | from <= c ensures CountAt(WithoutOld(rows, cutoff), created, c) {
      assert CountAt(rows, created, c);
      assert NewerThan(WithoutOld(rows, cutoff), c) == NewerThan(rows, c);
    }
  }

  lemma NewRowCounts(rows: Rows, created: seq<Time>, from: Time, token: Token, row: Row)
    requires CountsFrom(rows, created, from) && token !in rows
    ensures CountsFrom(rows[token := row], created + [row.created], from)
  {
    var rows', created' := rows[token := row], created + [row.created];
    forall c | from <= c ensures CountAt(rows', created', c) {
      assert CountAt(rows, created, c);
      RecentOneMore(created, row.created, c);
      assert NewerThan(rows', c) == NewerThan(rows, c) + if row.created > c then {token} else {};
    }
  }

  lemma LaterCountsFrom(rows: Rows, created: seq<Time>, from: Time, later: Time)
    requires CountsFrom(rows, created, from) && from <= later
    ensures CountsFrom(rows, created, later)
  {
  }

  lemma {:induction false} RecentShrinks(log: seq<Time>, early: Time, late: Time)
    requires early <= late
    ensures |Recent(log, late)| <= |Recent(log, early)|
  {
    if log != [] {
      RecentShrinks(log[..|log| - 1], early, late);
    }
  }

  /** A count that left room still leaves room later, when nobody has created a session since. */
  lemma StillPermitted(created: seq<Time>, at: Time, now: Time, max: int)
    requires Permits(created, at, CAP_WINDOW, max) && at <= now
    ensures Permits(created, now, CAP_WINDOW, max)
  {
    RecentShrinks(created, at - CAP_WINDOW, now - CAP_WINDOW);
  }

  lemma AllowedOneMore(created: seq<Time>, now: Time, max: int)
    requires forall k: nat :: k < |created| ==> Allowed(created, k, CAP_WINDOW, max)
    requires Permits(created, now, CAP_WINDOW, max)
    ensures forall k: nat :: k < |created| + 1 ==> Allowed(created + [now], k, CAP_WINDOW, max)
  {
    forall k: nat | k < |created| + 1 ensures Allowed(created + [now], k, CAP_WINDOW, max) {
      assert (created + [now])[..k] == created[..k];
      assert created[..|created|] == created;
      if k < |created| {
        assert Allowed(created, k, CAP_WINDOW, max);
      }
    }
  }

  // Preservation, one kind of step at a time; s' still has the old clock.

  /** A step that leaves rows and history alone and changes one job. */
  lemma JobStep(s: State, limits: Limits, id: nat, s': State)
    requires Inv(s, limits)
    requires s' == s.(jobs := s'.jobs, lock := s'.lock)
    requires s'.jobs - {id} == s.jobs - {id} && (id in s'.jobs ==> JobOk(s', limits, id))
    requires s'.lock == s.lock || s.lock == None || s.lock == Some(id)
    ensures Inv(s', limits)
  {
    forall t | t in s'.rows ensures RowOk(s', limits, t) {
      assert RowOk(s, limits, t);
    }
    forall j | j in s'.jobs ensures JobOk(s', limits, j) {
      if j != id {
        assert j in s'.jobs - {id};
        assert j in s.jobs && s'.jobs[j] == (s'.jobs - {id})[j] == (s.jobs - {id})[j];
        assert JobOk(s, limits, j);
      }
    }
  }

  /** A step that changes rows' counters or guests only. */
  lemma RowsStep(s: State, limits: Limits, s': State)
    requires Inv(s, limits)
    requires s' == s.(rows := s'.rows, past := s'.past) && s'.past.created == s.past.created
    requires s'.past.guests == s.past.guests && s'.past.expiry == s.past.expiry
    requires s'.rows.Keys == s.rows.Keys && s'.past.resolved.Keys == s'.past.failed.Keys == s'.past.consolidated.Keys == s.past.resolved.Keys
    requires forall t :: t in s.rows ==> s'.rows[t].created == s.rows[t].created && s'.rows[t].expires == s.rows[t].expires
    requires forall t :: t in s.rows ==> s'.rows[t].consolidates >= s.rows[t].consolidates && RowOk(s', limits, t)
    requires forall t :: t in s'.past.resolved ==>
               s'.past.resolved[t] + s'.past.failed[t] <= Cap(limits.maxMessages) && s'.past.consolidated[t] <= Cap(limits.maxConsolidates)
    ensures Inv(s', limits)
  {
    SameCreationTimes(s.rows, s'.rows, s.past.created, s.clock - CAP_WINDOW);
    forall j | j in s'.jobs ensures JobOk(s', limits, j) {
      assert JobOk(s, limits, j);
    }
  }

  lemma ResolveKeepsInv(s: State, limits: Limits, token: Token, answer: Answer, now: Time, s': State)
    requires Inv(s, limits) && DoResolve(s, limits, token, answer, now) == Some(s')
    ensures Inv(s', limits)
  {
    if MayResolve(s.rows, limits, token, now) {
      assert RowOk(s, limits, token);
    }
    forall t | t in s.rows ensures RowOk(s', limits, t) {
      assert RowOk(s, limits, t);
    }
    RowsStep(s, limits, s');
  }

  lemma ConsolidateKeepsInv(s: State, limits: Limits, job: nat, token: Token, counted: bool, now: Time, s': State)
    requires Inv(s, limits) && DoConsolidate(s, limits, job, token, counted, now) == Some(s') && now == s.clock
    ensures Inv(s', limits)
  {
    if MayConsolidate(s.rows, limits, token, now) {
      forall t | t in s.rows ensures RowOk(s', limits, t) {
        assert RowOk(s, limits, t);
      }
      RowsStep(s, limits, s');
    } else {
      JobStep(s, limits, job, s');
    }
  }

  lemma DeleteGuestKeepsInv(s: State, limits: Limits, job: nat, s': State)
    requires Inv(s, limits) && DoDeleteGuest(s, job) == Some(s')
    ensures Inv(s', limits)
  {
    var guests := s.jobs[job].guests;
    var s1 := WithJob(s, job, CleaningUp(guests[1..]));
    JobStep(s, limits, job, s1);
    forall t | t in s.rows ensures RowOk(s', limits, t) {
      assert RowOk(s, limits, t);
    }
    RowsStep(s1, limits, s');
  }

  lemma CountKeepsInv(s: State, limits: Limits, job: nat, room: bool, s': State)
    requires Inv(s, limits) && DoCountCreate(s, limits, job, room, s.clock) == Some(s')
    ensures Inv(s', limits)
  {
    assert JobOk(s, limits, job);
    assert CountAt(s.rows, s.past.created, s.clock - CAP_WINDOW);
    assert CountedTokens(s.rows, s.clock) == NewerThan(s.rows, s.clock - CAP_WINDOW);
    JobStep(s, limits, job, s');
  }

  lemma InsertKeepsInv(s: State, limits: Limits, job: nat, stamp: Time, token: Token, guest: Guest, s': State)
    requires Inv(s, limits) && DoInsertCreate(s, limits, job, stamp, s.clock, token, guest) == Some(s')
    ensures Inv(s', limits)
  {
    assert JobOk(s, limits, job);
    forall t | t in s.rows ensures t in s.past.expiry && t != token {
      assert RowOk(s, limits, t);
    }
    NewRowCounts(s.rows, s.past.created, s.clock - CAP_WINDOW, token, s'.rows[token]);
    StillPermitted(s.past.created, s.jobs[job].at, s.clock, limits.maxSessionsPerDay);
    AllowedOneMore(s.past.created, s.clock, limits.maxSessionsPerDay);
    forall t | t in s'.rows ensures RowOk(s', limits, t) {
      if t != token {
        assert RowOk(s, limits, t);
      }
    }
    forall j | j in s'.jobs ensures JobOk(s', limits, j) {
      assert JobOk(s, limits, j);
    }
  }

  lemma SweepRowsKeepsInv(s: State, limits: Limits, job: nat, stamp: Time, s': State)
    requires Inv(s, limits) && DoSweepRows(s, job, stamp, s.clock) == Some(s')
    ensures Inv(s', limits)
  {
    OldRowsDoNotCount(s.rows, s.past.created, s.clock - CAP_WINDOW, stamp - CAP_WINDOW);
    forall t | t in s'.rows ensures RowOk(s', limits, t) {
      assert RowOk(s, limits, t);
    }
    forall j | j in s'.jobs ensures JobOk(s', limits, j) {
      assert JobOk(s, limits, j);
    }
  }

  /** Time passes. */
  lemma ClockKeepsInv(s: State, limits: Limits, now: Time)
    requires Inv(s, limits) && s.clock <= now
    ensures Inv(s.(clock := now), limits)
  {
    var s' := s.(clock := now);
    LaterCountsFrom(s.rows, s.past.created, s.clock - CAP_WINDOW, now - CAP_WINDOW);
    forall t | t in s'.rows ensures RowOk(s', limits, t) {
      assert RowOk(s, limits, t);
    }
    forall j | j in s'.jobs ensures JobOk(s', limits, j) {
      assert JobOk(s, limits, j);
    }
  }

  lemma StepKeepsInv(s: State, limits: Limits, e: Event, now: Time, s': State)
    requires Inv(s, limits) && Step(s, limits, e, now) == Some(s')
    ensures Inv(s', limits)
  {
    ClockKeepsInv(s, limits, now);
    ClockFirst(s, limits, e, now);
    var t := s.(clock := now);
    TimedStepKeepsInv(t, limits, e, s');
  }

  lemma TimedStepKeepsInv(s: State, limits: Limits, e: Event, s': State)
    requires Inv(s, limits) && Happen(s, limits, e, s.clock) == Some(s')
    ensures Inv(s', limits)
  {
    match e
    case CountCreate(job, room) => CountKeepsInv(s, limits, job, room, s');
    case InsertCreate(job, stamp, token, guest) => InsertKeepsInv(s, limits, job, stamp, token, guest, s');
    case Resolve(token, answer) => ResolveKeepsInv(s, limits, token, answer, s.clock, s');
    case Consolidate(job, token, counted) => ConsolidateKeepsInv(s, limits, job, token, counted, s.clock, s');
    case DeleteGuest(job) => DeleteGuestKeepsInv(s, limits, job, s');
    case SweepRows(job, stamp) => SweepRowsKeepsInv(s, limits, job, stamp, s');
    case LockCreate(job) => LockKeepsInv(s, limits, job, s');
    case SweepQuery(job, backstop) => QueryKeepsInv(s, limits, job, backstop, s');
    case LookUp(job, _) => EndKeepsInv(s, limits, job, s');
    case Crash(job) => EndKeepsInv(s, limits, job, s');
  }

  lemma LockKeepsInv(s: State, limits: Limits, job: nat, s': State)
    requires Inv(s, limits) && DoLockCreate(s, job) == Some(s')
    ensures Inv(s', limits)
  {
    JobStep(s, limits, job, s');
  }

  lemma QueryKeepsInv(s: State, limits: Limits, job: nat, backstop: Time, s': State)
    requires Inv(s, limits) && DoSweepQuery(s, job, backstop, s.clock) == Some(s')
    ensures Inv(s', limits)
  {
    JobStep(s, limits, job, s');
  }

  lemma EndKeepsInv(s: State, limits: Limits, job: nat, s': State)
    requires Inv(s, limits) && job in s.jobs && s' == EndJob(s, job)
    ensures Inv(s', limits)
  {
    JobStep(s, limits, job, s');
  }

  /** No step reads the clock of the state, so it may as well be set first. */
  lemma ClockFirst(s: State, limits: Limits, e: Event, now: Time)
    requires Step(s, limits, e, now).Some?
    ensures Happen(s.(clock := now), limits, e, now) == Step(s, limits, e, now)
  {
    if e.InsertCreate? || e.Resolve? || e.Consolidate? {
      SessionStepClockFirst(s, limits, e, now);
    } else {
      OtherStepClockFirst(s, limits, e, now);
    }
  }

  lemma SessionStepClockFirst(s: State, limits: Limits, e: Event, now: Time)
    requires Step(s, limits, e, now).Some? && (e.InsertCreate? || e.Resolve? || e.Consolidate?)
    ensures Happen(s.(clock := now), limits, e, now) == Step(s, limits, e, now)
  {
  }

  lemma OtherStepClockFirst(s: State, limits: Limits, e: Event, now: Time)
    requires Step(s, limits, e, now).Some? && !e.InsertCreate? && !e.Resolve? && !e.Consolidate?
    ensures Happen(s.(clock := now), limits, e, now) == Step(s, limits, e, now)
  {
  }

  lemma {:induction false} RunKeepsInv(states: seq<State>, events: seq<Timed>, limits: Limits, i: nat)
    requires Run(states, events, limits) && i < |states|
    ensures Inv(states[i], limits)
  {
    if i > 0 {
      RunKeepsInv(states, events, limits, i - 1);
      assert Step(states[i - 1], limits, events[i - 1].event, events[i - 1].now) == Some(states[i]);
      StepKeepsInv(states[i - 1], limits, events[i - 1].event, events[i - 1].now, states[i]);
    } else {
      NothingYet(states[0], limits);
    }
  }

  lemma NothingYet(s: State, limits: Limits)
    requires s == Initial(s.clock)
    ensures Inv(s, limits)
  {
    forall cutoff ensures CountAt(s.rows, s.past.created, cutoff) {
      assert NewerThan(s.rows, cutoff) == {};
    }
  }

  // --- The operations, one call at a time -----------------------------------------------------------

  datatype Creation = Created | CapReached | CreationFailed

  datatype Consolidation = Consolidated | ConsolidationFailed | Refused(verdict: Verdict)

  function GuestsIn(rows: Rows): set<Guest> {
    set t | t in rows && rows[t].guest.Some? :: rows[t].guest.value
  }

  function Members(guests: seq<Guest>): set<Guest> {
    set g | g in guests
  }

  lemma OneMoreGuest(rows: Rows, token: Token, row: Row)
    requires token !in rows && row.guest.Some?
    ensures GuestsIn(rows[token := row]) == GuestsIn(rows) + {row.guest.value}
  {
    var rows' := rows[token := row];
    assert rows'[token].guest.value in GuestsIn(rows');
    forall g | g in GuestsIn(rows) ensures g in GuestsIn(rows') {
      var t :| t in rows && rows[t].guest == Some(g);
      assert rows'[t].guest.value == g;
    }
  }

  lemma NoNewGuests(before: Rows, after: Rows)
    requires after.Keys <= before.Keys
    requires forall t :: t in after ==> after[t].guest == before[t].guest || after[t].guest.None?
    ensures GuestsIn(after) <= GuestsIn(before)
  {
    forall g | g in GuestsIn(after) ensures g in GuestsIn(before) {
      var t :| t in after && after[t].guest == Some(g);
      assert before[t].guest.value == g;
    }
  }

  /** Some session of the guest has expired or is older than the backstop. */
  ghost predicate IsDue(rows: Rows, guest: Option<Guest>, backstop: Time, now: Time) {
    exists t :: t in rows && rows[t].guest == guest && guest.Some? && (rows[t].expires < now || rows[t].created < now - backstop)
  }

  lemma DueIff(rows: Rows, g: Guest, backstop: Time, now: Time)
    ensures g in Listed(GuestsOf(rows, backstop, now)) <==> IsDue(rows, Some(g), backstop, now)
  {
    if g in GuestsOf(rows, backstop, now) {
      var t :| t in rows && Sweepable(rows[t], backstop, now) && rows[t].guest.value == g;
      assert rows[t].guest == Some(g);
    }
    if IsDue(rows, Some(g), backstop, now) {
      var t :| t in rows && rows[t].guest == Some(g) && (rows[t].expires < now || rows[t].created < now - backstop);
      assert Sweepable(rows[t], backstop, now);
    }
  }

  /** A row has lost its guest just when that was due. */
  ghost predicate ClearedIfDue(before: Row, after: Row, rows: Rows, backstop: Time, now: Time) {
    && after.(guest := before.guest) == before
    && (after.guest != before.guest ==> after.guest.None? && IsDue(rows, before.guest, backstop, now))
  }

  lemma SweptRow(row: Row, rows: Rows, backstop: Time, now: Time, guests: seq<Guest>)
    requires forall g :: g in guests ==> g in Listed(GuestsOf(rows, backstop, now))
    ensures ClearedIfDue(row, Cleaned(row, guests), rows, backstop, now)
    ensures guests == Listed(GuestsOf(rows, backstop, now)) && Cleaned(row, guests).guest.Some? ==>
              !IsDue(rows, row.guest, backstop, now)
  {
    if row.guest.Some? {
      DueIff(rows, row.guest.value, backstop, now);
    }
  }

  lemma SweptIsDue(before: Rows, after: Rows, backstop: Time, now: Time, working: nat, cutoff: Time)
    requires Swept(before, after, Listed(GuestsOf(before, backstop, now)), working, cutoff)
    ensures forall t :: t in after ==> t in before && ClearedIfDue(before[t], after[t], before, backstop, now)
    ensures working >= |Listed(GuestsOf(before, backstop, now))| ==>
              && (forall t :: t in after <==> t in before && cutoff <= before[t].created)
              && forall t :: t in after && after[t].guest.Some? ==> !IsDue(before, after[t].guest, backstop, now)
  {
    var due := Listed(GuestsOf(before, backstop, now));
    var done := if working < |due| then due[..working] else due;
    forall t | t in after
      ensures t in before && ClearedIfDue(before[t], after[t], before, backstop, now)
      ensures done == due && after[t].guest.Some? ==> !IsDue(before, after[t].guest, backstop, now)
    {
      SweptRow(before[t], before, backstop, now, done);
    }
  }

  lemma DueHaveRows(rows: Rows, backstop: Time, now: Time)
    ensures Members(Listed(GuestsOf(rows, backstop, now))) <= GuestsIn(rows)
  {
  }

  class Store {
    const limits: Limits
    var rows: Rows
    var users: set<Guest>

    constructor (limits: Limits)
      ensures this.limits == limits && rows == map[] && users == {}
    {
      this.limits := limits;
      rows := map[];
      users := {};
    }

    /** The users that no session leads to: no sweep ever finds them. */
    function Stranded(): set<Guest>
      reads this
    {
      users - GuestsIn(rows)
    }

    /**
      Made and inserted say whether the user store makes the guest, and then whether
      the row goes in; the new token and guest are random and so new. A guest whose
      row does not go in stays in the user store.
     */
    method CreateSession(countedAt: Time, made: bool, inserted: bool, stamp: Time, insertedAt: Time, token: Token, guest: Guest)
      returns (created: Creation)
      requires token !in rows && guest !in users && guest !in GuestsIn(rows)
      modifies this
      ensures created == CapReached <==> |CountedTokens(old(rows), countedAt)| >= limits.maxSessionsPerDay
      ensures created == Created ==>
                && made && inserted && users == old(users) + {guest} && Stranded() == old(Stranded())
                && rows == old(rows)[token := Row(Some(guest), insertedAt, stamp + limits.sessionTTL, 0, 0)]
      ensures created != Created ==> rows == old(rows)
      ensures created == CapReached ==> users == old(users)
      ensures created == CreationFailed ==>
                && !(made && inserted) && users == old(users) + (if made then {guest} else {})
                && Stranded() == old(Stranded()) + (if made then {guest} else {})
    {
      if |CountedTokens(rows, countedAt)| >= limits.maxSessionsPerDay {
        return CapReached;
      }
      created := Provision(made, inserted, token, Row(Some(guest), insertedAt, stamp + limits.sessionTTL, 0, 0));
    }

    /** The user and then the row. */
    method Provision(made: bool, inserted: bool, token: Token, row: Row) returns (created: Creation)
      requires token !in rows && row.guest.Some? && row.guest.value !in users && row.guest.value !in GuestsIn(rows)
      modifies this`rows, this`users
      ensures var added := if made then {row.guest.value} else {};
              if made && inserted then
                && created == Created && users == old(users) + added && Stranded() == old(Stranded())
                && rows == old(rows)[token := row]
              else
                && created == CreationFailed && users == old(users) + added && Stranded() == old(Stranded()) + added
                && rows == old(rows)
    {
      if !made {
        return CreationFailed;
      }
      users := users + {row.guest.value};
      if !inserted {
        return CreationFailed;
      }
      OneMoreGuest(rows, token, row);
      rows := rows[token := row];
      created := Created;
    }

    /** The row's own guest, and the message counted, exactly when the session is good; a guest that is gone is a failure. */
    method Resolve(token: Token, now: Time) returns (answer: Answer)
      modifies this`rows
      ensures answer == ResolveAnswer(old(rows), limits, token, now) && rows == ResolveRows(old(rows), limits, token, now)
      ensures var good := token in old(rows) && now < old(rows)[token].expires && old(rows)[token].messages < limits.maxMessages;
              && (answer == Invalid <==> !good)
              && (forall g: nat :: answer == Guest(g) <==> good && old(rows)[token].guest == Some(g))
              && rows == if good then old(rows)[token := old(rows)[token].(messages := old(rows)[token].messages + 1)] else old(rows)
    {
      if token !in rows || rows[token].expires <= now || rows[token].messages >= limits.maxMessages {
        return Invalid;
      }
      var row := rows[token];
      rows := rows[token := row.(messages := row.messages + 1)];
      answer := if row.guest.Some? then Guest(row.guest.value) else Failed;
    }

    /** Works says whether the day's consolidation succeeds; it is counted in either case. */
    method ConsolidateNow(token: Token, now: Time, later: Time, works: bool) returns (outcome: Consolidation)
      modifies this`rows
      ensures rows == ConsolidateRows(old(rows), limits, token, now)
      ensures var counts := token in old(rows) && now < old(rows)[token].expires && old(rows)[token].consolidates < limits.maxConsolidates;
              && (outcome == Consolidated <==> counts && works) && (outcome == ConsolidationFailed <==> counts && !works)
              && (outcome == Refused(SessionInvalid) <==> !counts && (token !in old(rows) || old(rows)[token].expires < later))
              && (outcome == Refused(LimitReached) <==> !counts && token in old(rows) && later <= old(rows)[token].expires)
              && rows == if counts then old(rows)[token := old(rows)[token].(consolidates := old(rows)[token].consolidates + 1)]
                         else old(rows)
    {
      if token in rows && rows[token].expires > now && rows[token].consolidates < limits.maxConsolidates {
        rows := rows[token := rows[token].(consolidates := rows[token].consolidates + 1)];
        return if works then Consolidated else ConsolidationFailed;
      }
      if token !in rows || rows[token].expires < later {
        return Refused(SessionInvalid);
      }
      outcome := Refused(LimitReached);
    }

    /**
      Cleans up the guests that are due, then drops the rows that no longer count.
      Working is how many clean-ups go well: the next one fails the call, and what
      was cleaned up stays so.
     */
    method Sweep(backstop: Time, now: Time, stamp: Time, working: nat) returns (cleaned: Option<nat>)
      modifies this
      ensures var due := Listed(old(GuestsOf(rows, backstop, now)));
              && cleaned == (if working < |due| then None else Some(|due|))
              && Swept(old(rows), rows, due, working, stamp - CAP_WINDOW)
              && users == old(users) - Members(if working < |due| then due[..working] else due)
      ensures old(Stranded()) <= Stranded()
      ensures forall t :: t in rows ==> t in old(rows) && ClearedIfDue(old(rows)[t], rows[t], old(rows), backstop, now)
      ensures cleaned.Some? ==>
                && (forall t :: t in rows <==> t in old(rows) && stamp - CAP_WINDOW <= old(rows)[t].created)
                && forall t :: t in rows && rows[t].guest.Some? ==> !IsDue(old(rows), rows[t].guest, backstop, now)
    {
      var guests := Listed(GuestsOf(rows, backstop, now));
      DueHaveRows(rows, backstop, now);
      CleanUp(guests, working);
      if working < |guests| {
        NoNewGuests(old(rows), rows);
        SweptIsDue(old(rows), rows, backstop, now, working, stamp - CAP_WINDOW);
        return None;
      }
      rows := WithoutOld(rows, stamp - CAP_WINDOW);
      NoNewGuests(old(rows), rows);
      SweptIsDue(old(rows), rows, backstop, now, working, stamp - CAP_WINDOW);
      cleaned := Some(|guests|);
    }

    /** The clean-ups, up to the first that fails. */
    method CleanUp(guests: seq<Guest>, working: nat)
      modifies this`rows, this`users
      ensures var done := if working < |guests| then guests[..working] else guests;
              && rows.Keys == old(rows).Keys && users == old(users) - Members(done)
              && forall t :: t in rows ==> rows[t] == Cleaned(old(rows)[t], done)
    {
      for i := 0 to |guests|
        invariant i <= working && rows.Keys == old(rows).Keys
        invariant users == old(users) - Members(guests[..i])
        invariant forall t :: t in rows ==> rows[t] == Cleaned(old(rows)[t], guests[..i])
      {
        if i == working {
          return;
        }
        assert guests[..i + 1] == guests[..i] + [guests[i]];
        rows, users := WithoutGuest(rows, guests[i]), users - {guests[i]};
      }
      assert guests[..|guests|] == guests;
    }
  }
}
