/**
  internal/reembed's decryptWithRetry among rotations and prunes: what a reader
  returns, and when it is sure to return something.
 */
module RotationReaders {
  import opened Basics
  import opened FieldCrypto
  import opened KeyVersions
  import opened RowTables
  import opened RotationProtocol
  import opened RotationSafety
  import opened RotationTheorems

  // --- A reader's own steps -----------------------------------------------------

  /** A reader's job changes only by the reader's own events. */
  lemma ReaderFrame(s: State, e: Event, s': State, id: nat)
    requires Step(s, e) == Some(s') && id in s'.jobs && IsReader(s'.jobs[id])
    ensures || (id in s.jobs && s'.jobs[id] == s.jobs[id])
            || (e.BeginRead? && e.job == id && id !in s.jobs)
            || ((e.ResolveRead? || e.Refetch?) && e.job == id && id in s.jobs && s.jobs[id].Reading?)
  {
    if !(e.BeginRead? || e.ResolveRead? || e.Refetch?) {
      NonReaderFrame(s, e, s', id);
    }
  }

  lemma NonReaderFrame(s: State, e: Event, s': State, id: nat)
    requires Step(s, e) == Some(s') && !e.BeginRead? && !e.ResolveRead? && !e.Refetch?
    requires id in s'.jobs && (IsReader(s'.jobs[id]) || (id in s.jobs && IsReader(s.jobs[id])))
    ensures id in s.jobs && s'.jobs[id] == s.jobs[id]
  {
    if !e.LoadKey? && !e.Restart? {
      var k := e.job;
      assert OthersKeepTheirJob(s, s', k);
      if id != k {
        assert id in s'.jobs - {k};
        assert id in s.jobs - {k} && (s'.jobs - {k})[id] == (s.jobs - {k})[id];
      }
    }
  }

  // --- One moment ---------------------------------------------------------------

  ghost predicate HeldAt(states: seq<State>, i: nat, j: nat, row: RowId, texts: seq<Text>) {
    exists k :: i <= k <= j < |states| && row in states[k].truth && states[k].truth[row] == texts
  }

  /** What a reader holds, or has answered, the row really said at some moment since i. */
  ghost predicate Honest(states: seq<State>, i: nat, j: nat, job: Job) {
    match job
    case Reading(_, row, _, cells, _) => HeldAt(states, i, j, row, PlainCells(cells))
    case Answered(row, answer) => answer.Some? ==> HeldAt(states, i, j, row, answer.value)
    case _ => true
  }

  lemma HonestLater(states: seq<State>, i: nat, j: nat, job: Job)
    requires j + 1 < |states| && Honest(states, i, j, job)
    ensures Honest(states, i, j + 1, job)
  {
  }

  lemma ReadIsHonest(states: seq<State>, i: nat, j: nat, row: RowId)
    requires i <= j && j + 1 < |states| && Inv(states[j]) && row in states[j].rows
    ensures HeldAt(states, i, j + 1, row, PlainCells(states[j].rows[row].cells))
  {
    assert RowInv(states[j].rows[row], states[j].truth[row], states[j].minted, states[j].floor);
  }

  lemma BeginReadIsHonest(states: seq<State>, i: nat, j: nat, id: nat, proc: nat, row: RowId)
    requires i <= j && j + 1 < |states| && Inv(states[j])
    requires DoBeginRead(states[j], id, proc, row) == Some(states[j + 1])
    ensures id in states[j + 1].jobs && Honest(states, i, j + 1, states[j + 1].jobs[id])
  {
    ReadIsHonest(states, i, j, row);
  }

  lemma RefetchIsHonest(states: seq<State>, i: nat, j: nat, id: nat)
    requires i <= j && j + 1 < |states| && Inv(states[j])
    requires DoRefetch(states[j], id) == Some(states[j + 1])
    ensures id in states[j + 1].jobs && Honest(states, i, j + 1, states[j + 1].jobs[id])
  {
    var row := states[j].jobs[id].row;
    if row in states[j].rows {
      ReadIsHonest(states, i, j, row);
    }
  }

  lemma ResolveReadIsHonest(states: seq<State>, i: nat, j: nat, id: nat)
    requires i <= j && j + 1 < |states|
    requires DoResolveRead(states[j], id) == Some(states[j + 1])
    requires Honest(states, i, j, states[j].jobs[id])
    ensures id in states[j + 1].jobs && Honest(states, i, j + 1, states[j + 1].jobs[id])
  {
    HonestLater(states, i, j, states[j].jobs[id]);
  }

  lemma HonestStep(states: seq<State>, events: seq<Event>, i: nat, j: nat, id: nat)
    requires Run(states, events) && i <= j && j + 1 < |states|
    requires id in states[j + 1].jobs
    requires id in states[j].jobs ==> Honest(states, i, j, states[j].jobs[id])
    ensures Honest(states, i, j + 1, states[j + 1].jobs[id])
  {
    var e := events[j];
    assert Step(states[j], e) == Some(states[j + 1]);
    if IsReader(states[j + 1].jobs[id]) {
      ReaderFrame(states[j], e, states[j + 1], id);
      PathKeepsInv(states, events, j);
      if id in states[j].jobs {
        HonestLater(states, i, j, states[j].jobs[id]);
      }
      if e.BeginRead? && e.job == id {
        BeginReadIsHonest(states, i, j, id, e.proc, e.row);
      } else if e.Refetch? && e.job == id {
        RefetchIsHonest(states, i, j, id);
      } else if e.ResolveRead? && e.job == id {
        ResolveReadIsHonest(states, i, j, id);
      }
    }
  }

  lemma {:induction false} ReadersAreHonest(states: seq<State>, events: seq<Event>, i: nat, j: nat, id: nat)
    requires Run(states, events) && i <= j < |states|
    requires id !in states[i].jobs && id in states[j].jobs
    ensures Honest(states, i, j, states[j].jobs[id])
    decreases j
  {
    if i < j {
      if id in states[j - 1].jobs {
        ReadersAreHonest(states, events, i, j - 1, id);
      }
      HonestStep(states, events, i, j - 1, id);
    }
  }

  /**
    decryptWithRetry returns the texts its row held at one single moment of the
    call, or an error: never a version from one moment with ciphertext from
    another.
   */
  lemma ReaderReturnsOneMoment(states: seq<State>, events: seq<Event>, i: nat, j: nat, id: nat)
    requires Run(states, events) && i <= j < |states|
    requires id !in states[i].jobs && id in states[j].jobs
    requires states[j].jobs[id].Answered? && states[j].jobs[id].answer.Some?
    ensures exists k :: i <= k <= j && states[j].jobs[id].row in states[k].truth
                     && states[k].truth[states[j].jobs[id].row] == states[j].jobs[id].answer.value
  {
    ReadersAreHonest(states, events, i, j, id);
  }

  // --- Success --------------------------------------------------------------------

  /** How many prunes deleted keys between two moments. */
  function Deletes(events: seq<Event>, i: nat, j: nat): nat
    requires i <= j <= |events|
  {
    if i == j then 0
    else Deletes(events, i, j - 1) + if events[j - 1].DeletePrune? then 1 else 0
  }

  lemma OnlyDeletesRaiseFloor(s: State, e: Event, s': State)
    requires Step(s, e) == Some(s') && !e.DeletePrune?
    ensures s'.floor == s.floor
  {
  }

  /** Where a reader can be after d deletes since its batch read. */
  ghost predicate OnCourse(s: State, job: Job, d: nat) {
    match job
    case Reading(_, _, v, _, Resolving) => d == 0 ==> s.floor <= v
    case Reading(_, _, v, _, Refetching) => d >= 1 && v < s.floor
    case Reading(_, _, v, _, ResolvingFresh) => d >= 1 && (d == 1 ==> s.floor <= v)
    case Answered(_, answer) => d <= 1 ==> answer.Some?
    case _ => true
  }

  lemma ResolveStaysOnCourse(s: State, id: nat, s': State, d: nat)
    requires Inv(s) && DoResolveRead(s, id) == Some(s') && OnCourse(s, s.jobs[id], d)
    ensures OnCourse(s', s'.jobs[id], d)
  {
    assert JobInv(s, id, s.jobs[id]);
    FindIsMint(s, s.jobs[id].proc, s.jobs[id].version);
  }

  lemma RefetchStaysOnCourse(s: State, id: nat, s': State, d: nat)
    requires Inv(s) && DoRefetch(s, id) == Some(s') && OnCourse(s, s.jobs[id], d)
    requires s.jobs[id].row in s.rows
    ensures OnCourse(s', s'.jobs[id], d)
  {
    var row := s.jobs[id].row;
    assert RowInv(s.rows[row], s.truth[row], s.minted, s.floor);
  }

  ghost predicate RowExists(s: State, job: Job) {
    job.Reading? ==> job.row in s.rows
  }

  lemma BeginReadIsOnCourse(s: State, id: nat, proc: nat, row: RowId, s': State)
    requires Inv(s) && DoBeginRead(s, id, proc, row) == Some(s')
    ensures id in s'.jobs && IsReader(s'.jobs[id]) && RowExists(s', s'.jobs[id]) && OnCourse(s', s'.jobs[id], 0)
  {
    assert RowInv(s.rows[row], s.truth[row], s.minted, s.floor);
  }

  lemma {:induction false} ReadersStayOnCourse(states: seq<State>, events: seq<Event>, b: nat, j: nat, id: nat)
    requires Run(states, events) && b < j < |states|
    requires events[b].BeginRead? && events[b].job == id
    requires forall k :: b < k <= j ==> id in states[k].jobs
    ensures IsReader(states[j].jobs[id]) && RowExists(states[j], states[j].jobs[id])
    ensures OnCourse(states[j], states[j].jobs[id], Deletes(events, b + 1, j))
    decreases j
  {
    PathKeepsInv(states, events, j - 1);
    assert Step(states[j - 1], events[j - 1]) == Some(states[j]);
    if j == b + 1 {
      BeginReadIsOnCourse(states[b], id, events[b].proc, events[b].row, states[j]);
    } else {
      ReadersStayOnCourse(states, events, b, j - 1, id);
      RowsNeverDisappear(states[j - 1], events[j - 1], states[j]);
      ReaderStep(states[j - 1], events[j - 1], states[j], id, Deletes(events, b + 1, j - 1));
    }
  }

  lemma ReaderStep(s: State, e: Event, s': State, id: nat, d: nat)
    requires Inv(s) && Step(s, e) == Some(s') && s.rows.Keys <= s'.rows.Keys
    requires id in s.jobs && id in s'.jobs && IsReader(s.jobs[id]) && RowExists(s, s.jobs[id])
    requires OnCourse(s, s.jobs[id], d)
    ensures IsReader(s'.jobs[id]) && RowExists(s', s'.jobs[id])
    ensures OnCourse(s', s'.jobs[id], d + if e.DeletePrune? then 1 else 0)
  {
    ReaderKeepsGoing(s, e, s', id);
    ReaderFrame(s, e, s', id);
    StepOnlyAddsVersions(s, e, s');
    if e.ResolveRead? && e.job == id {
      ResolveStaysOnCourse(s, id, s', d);
    } else if e.Refetch? && e.job == id {
      RefetchStaysOnCourse(s, id, s', d);
    } else if !e.DeletePrune? {
      OnlyDeletesRaiseFloor(s, e, s');
    }
  }

  lemma ReaderKeepsGoing(s: State, e: Event, s': State, id: nat)
    requires Step(s, e) == Some(s') && id in s.jobs && id in s'.jobs && IsReader(s.jobs[id])
    ensures IsReader(s'.jobs[id])
  {
    if !(e.BeginRead? || e.ResolveRead? || e.Refetch?) {
      NonReaderFrame(s, e, s', id);
    } else if e.job != id {
      assert OthersKeepTheirJob(s, s', e.job);
      assert id in s'.jobs - {e.job};
      assert (s'.jobs - {e.job})[id] == (s.jobs - {e.job})[id];
    }
  }

  /**
    decryptWithRetry succeeds whenever at most one prune deletes keys between its
    batch read and its answer.
   */
  lemma ReaderSucceeds(states: seq<State>, events: seq<Event>, b: nat, j: nat, id: nat)
    requires Run(states, events) && b < j < |states|
    requires events[b].BeginRead? && events[b].job == id
    requires forall k :: b < k <= j ==> id in states[k].jobs
    requires states[j].jobs[id].Answered? && Deletes(events, b + 1, j) <= 1
    ensures states[j].jobs[id].answer.Some?
  {
    ReadersStayOnCourse(states, events, b, j, id);
  }

  // --- Failure ------------------------------------------------------------------------

  /** At that moment the process can find no key for the version. */
  ghost predicate NotFound(s: State, proc: nat, v: nat) {
    Find(s, proc, v).None?
  }

  /** The first key was looked for in vain since the batch read. */
  ghost predicate FirstFailed(states: seq<State>, b: nat, j: nat, proc: nat, v: nat) {
    exists k: nat :: b < k < j < |states| && NotFound(states[k], proc, v)
  }

  /** At moment k the row was read again, and it had moved to another version. */
  ghost predicate ReadAgain(states: seq<State>, b: nat, k: nat, j: nat, proc: nat, row: RowId, v: nat) {
    && b < k < j < |states| && FirstFailed(states, b, k, proc, v)
    && row in states[k].rows && states[k].rows[row].version != v
  }

  /** It was read again and was gone or had not moved. */
  ghost predicate NothingNew(states: seq<State>, b: nat, k: nat, j: nat, proc: nat, row: RowId, v: nat) {
    && b < k < j < |states| && FirstFailed(states, b, k, proc, v)
    && (row in states[k].rows ==> states[k].rows[row].version == v)
  }

  /** It had moved, and the key for its new version was looked for in vain as well. */
  ghost predicate SecondFailed(states: seq<State>, b: nat, k: nat, j: nat, proc: nat, row: RowId, v: nat) {
    && ReadAgain(states, b, k, j, proc, row, v)
    && exists m: nat :: k < m < j && NotFound(states[m], proc, states[k].rows[row].version)
  }

  /** Which way a reader that began at b has come. */
  ghost predicate CameBy(states: seq<State>, b: nat, j: nat, proc: nat, row: RowId, job: Job)
    requires b < |states| && row in states[b].rows
  {
    var v := states[b].rows[row].version;
    match job
    case Reading(p, r, w, cells, Resolving) => p == proc && r == row && w == v && cells == states[b].rows[row].cells
    case Reading(p, r, w, _, Refetching) => p == proc && r == row && w == v && FirstFailed(states, b, j, proc, v)
    case Reading(p, r, w, cells, ResolvingFresh) =>
      && p == proc && r == row
      && exists k: nat :: ReadAgain(states, b, k, j, proc, row, v) && w == states[k].rows[row].version && cells == states[k].rows[row].cells
    case Answered(r, answer) =>
      && r == row
      && (answer.None? ==> exists k: nat :: NothingNew(states, b, k, j, proc, row, v) || SecondFailed(states, b, k, j, proc, row, v))
    case _ => false
  }

  lemma CameByLater(states: seq<State>, b: nat, j: nat, proc: nat, row: RowId, job: Job)
    requires b < j && j + 1 < |states| && row in states[b].rows && CameBy(states, b, j, proc, row, job)
    ensures CameBy(states, b, j + 1, proc, row, job)
  {
    var v, next := states[b].rows[row].version, j + 1;
    if job.Reading? && job.read == Refetching {
      FailedLater(states, b, j, proc, v);
    } else if job.Reading? && job.read == ResolvingFresh {
      var k: nat :| ReadAgain(states, b, k, j, proc, row, v) && job.version == states[k].rows[row].version && job.cells == states[k].rows[row].cells;
      assert ReadAgain(states, b, k, next, proc, row, v);
    } else if job.Answered? && job.answer.None? {
      var k: nat :| NothingNew(states, b, k, j, proc, row, v) || SecondFailed(states, b, k, j, proc, row, v);
      assert NothingNew(states, b, k, next, proc, row, v) || SecondFailed(states, b, k, next, proc, row, v);
    }
  }

  lemma FailedLater(states: seq<State>, b: nat, j: nat, proc: nat, v: nat)
    requires j + 1 < |states| && FirstFailed(states, b, j, proc, v)
    ensures FirstFailed(states, b, j + 1, proc, v)
  {
    var k: nat :| b < k < j && NotFound(states[k], proc, v);
    assert b < k < j + 1;
  }

  lemma ResolveCameBy(states: seq<State>, b: nat, j: nat, id: nat, proc: nat, row: RowId)
    requires b < j && j + 1 < |states| && row in states[b].rows && Inv(states[j])
    requires DoResolveRead(states[j], id) == Some(states[j + 1]) && CameBy(states, b, j, proc, row, states[j].jobs[id])
    ensures CameBy(states, b, j + 1, proc, row, states[j + 1].jobs[id])
  {
    var job, v, next := states[j].jobs[id], states[b].rows[row].version, j + 1;
    assert JobInv(states[j], id, job);
    FindIsMint(states[j], proc, job.version);
    if Find(states[j], proc, job.version).None? {
      assert NotFound(states[j], proc, job.version);
      if job.read == Resolving {
        assert FirstFailed(states, b, next, proc, v);
      } else {
        var k: nat :| ReadAgain(states, b, k, j, proc, row, v) && job.version == states[k].rows[row].version;
        assert ReadAgain(states, b, k, next, proc, row, v) && SecondFailed(states, b, k, next, proc, row, v);
      }
    }
  }

  lemma RefetchCameBy(states: seq<State>, b: nat, j: nat, id: nat, proc: nat, row: RowId)
    requires b < j && j + 1 < |states| && row in states[b].rows
    requires DoRefetch(states[j], id) == Some(states[j + 1]) && CameBy(states, b, j, proc, row, states[j].jobs[id])
    ensures CameBy(states, b, j + 1, proc, row, states[j + 1].jobs[id])
  {
    var v, next := states[b].rows[row].version, j + 1;
    if row !in states[j].rows || states[j].rows[row].version == v {
      assert NothingNew(states, b, j, next, proc, row, v);
    } else {
      assert ReadAgain(states, b, j, next, proc, row, v);
    }
  }

  lemma {:induction false} ReadersCameBy(states: seq<State>, events: seq<Event>, b: nat, j: nat, id: nat)
    requires Run(states, events) && b < j < |states|
    requires events[b].BeginRead? && events[b].job == id
    requires forall k :: b < k <= j ==> id in states[k].jobs
    ensures events[b].row in states[b].rows
    ensures IsReader(states[j].jobs[id]) && CameBy(states, b, j, events[b].proc, events[b].row, states[j].jobs[id])
    decreases j
  {
    assert Step(states[b], events[b]) == Some(states[b + 1]);
    if j > b + 1 {
      ReadersCameBy(states, events, b, j - 1, id);
      PathKeepsInv(states, events, j - 1);
      assert Step(states[j - 1], events[j - 1]) == Some(states[j]);
      StepCameBy(states, events[j - 1], b, j - 1, id, events[b].proc, events[b].row);
    }
  }

  lemma StepCameBy(states: seq<State>, e: Event, b: nat, j: nat, id: nat, proc: nat, row: RowId)
    requires b < j && j + 1 < |states| && row in states[b].rows && Inv(states[j]) && Step(states[j], e) == Some(states[j + 1])
    requires id in states[j].jobs && id in states[j + 1].jobs && IsReader(states[j].jobs[id])
    requires CameBy(states, b, j, proc, row, states[j].jobs[id])
    ensures IsReader(states[j + 1].jobs[id]) && CameBy(states, b, j + 1, proc, row, states[j + 1].jobs[id])
  {
    ReaderKeepsGoing(states[j], e, states[j + 1], id);
    if e.ResolveRead? && e.job == id {
      ResolveCameBy(states, b, j, id, proc, row);
    } else if e.Refetch? && e.job == id {
      RefetchCameBy(states, b, j, id, proc, row);
    } else {
      StaysReader(states[j], e, states[j + 1], id);
      CameByLater(states, b, j, proc, row, states[j + 1].jobs[id]);
    }
  }

  lemma StaysReader(s: State, e: Event, s': State, id: nat)
    requires Step(s, e) == Some(s') && id in s.jobs && id in s'.jobs && IsReader(s.jobs[id])
    requires !(e.ResolveRead? && e.job == id) && !(e.Refetch? && e.job == id)
    ensures s'.jobs[id] == s.jobs[id]
  {
    if e.BeginRead? || e.ResolveRead? || e.Refetch? {
      assert OthersKeepTheirJob(s, s', e.job);
      if id != e.job {
        assert (s'.jobs - {e.job})[id] == (s.jobs - {e.job})[id];
      }
    } else {
      NonReaderFrame(s, e, s', id);
    }
  }

  /**
    decryptWithRetry fails only after the key of the version it first read was not
    to be found, and the row, read again, was gone, or still on that version, or on
    another whose key was not to be found either: no version is tried twice.
   */
  lemma ReaderFails(states: seq<State>, events: seq<Event>, b: nat, j: nat, id: nat)
    requires Run(states, events) && b < j < |states|
    requires events[b].BeginRead? && events[b].job == id
    requires forall k :: b < k <= j ==> id in states[k].jobs
    requires states[j].jobs[id].Answered? && states[j].jobs[id].answer.None?
    ensures var proc, row := events[b].proc, events[b].row;
            && row in states[b].rows
            && exists k: nat :: NothingNew(states, b, k, j, proc, row, states[b].rows[row].version)
                           || SecondFailed(states, b, k, j, proc, row, states[b].rows[row].version)
  {
    ReadersCameBy(states, events, b, j, id);
  }
}
