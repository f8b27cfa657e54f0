/**
  The main results about key rotation: statements over every run of the
  protocol, and the exact condition under which Prune is safe.
 */
module RotationTheorems {
  import opened Basics
  import opened FieldCrypto
  import opened KeyVersions
  import opened RowTables
  import opened RotationProtocol
  import opened RotationSafety

  // --- Every run ---------------------------------------------------------------

  lemma {:induction false} PathKeepsInv(states: seq<State>, events: seq<Event>, i: nat)
    requires CarefulPath(states, events) && Inv(states[0]) && i < |states|
    ensures Inv(states[i])
  {
    if i > 0 {
      PathKeepsInv(states, events, i - 1);
      assert Step(states[i - 1], events[i - 1]) == Some(states[i]) && Careful(states[i - 1], events[i - 1]);
      StepKeepsInv(states[i - 1], events[i - 1], states[i]);
    }
  }

  lemma InvIsReadable(s: State)
    requires Inv(s)
    ensures AllReadable(s)
  {
    forall r | r in s.rows ensures Readable(s, r) {
      assert RowInv(s.rows[r], s.truth[r], s.minted, s.floor);
    }
  }

  /**
    In every reachable state every row opens under the version it records, to
    exactly what was last written to it.
   */
  lemma EveryRowReadable(states: seq<State>, events: seq<Event>, i: nat)
    requires Run(states, events) && i < |states|
    ensures AllReadable(states[i])
  {
    PathKeepsInv(states, events, i);
    InvIsReadable(states[i]);
  }

  lemma OtherStepsKeepRows(s: State, e: Event, s': State)
    requires Step(s, e) == Some(s') && !e.Commit? && !e.Batch?
    ensures SameRows(s, s')
  {
  }

  lemma RowsNeverDisappear(s: State, e: Event, s': State)
    requires Step(s, e) == Some(s')
    ensures s.rows.Keys <= s'.rows.Keys
    ensures !e.Commit? ==> s'.truth == s.truth
    ensures e.Commit? ==> forall r :: r in s.rows && r !in e.merges ==> s'.rows[r] == s.rows[r]
  {
    if !e.Commit? && !e.Batch? {
      OtherStepsKeepRows(s, e, s');
    }
  }

  /** Nothing but a writer's commit changes what any row says, and no row ever disappears. */
  lemma OnlyCommitsChangeText(s: State, e: Event, s': State, r: RowId)
    requires Inv(s) && Step(s, e) == Some(s') && Careful(s, e)
    requires r in s.rows
    ensures r in s'.rows
    ensures !(e.Commit? && r in e.merges) ==> PlainCells(s'.rows[r].cells) == PlainCells(s.rows[r].cells)
  {
    RowsNeverDisappear(s, e, s');
    StepKeepsInv(s, e, s');
    assert RowInv(s.rows[r], s.truth[r], s.minted, s.floor);
    assert RowInv(s'.rows[r], s'.truth[r], s'.minted, s'.floor);
  }

  /** Prune deletes no version a row still records, and never the newest. */
  lemma PruneDeletesOnlyUnreferenced(s: State, job: nat, s': State)
    requires Inv(s) && DoDeletePrune(s, job) == Some(s')
    ensures forall r :: r in s.rows ==> s.rows[r].version in s'.keys
    ensures Current(s'.keys) == Current(s.keys)
  {
    assert JobInv(s, job, s.jobs[job]);
    DeletePruneKeepsInv(s, job, s');
    CurrentIsNewest(s);
    CurrentIsNewest(s');
    forall r | r in s.rows ensures s.rows[r].version in s'.keys {
      assert RowInv(s.rows[r], s.truth[r], s.minted, s.floor);
    }
  }

  // --- Versions ------------------------------------------------------------------

  lemma StepOnlyAddsVersions(s: State, e: Event, s': State)
    requires Step(s, e) == Some(s')
    ensures s.minted <= s'.minted && s.floor <= s'.floor
  {
    match e
    case StepStart(job, dek) => assert DoStepStart(s, job, dek) == Some(s');
    case Commit(_, _, _) =>
    case ResolveContinue(_) =>
    case Batch(_, _) =>
    case _ =>
  }

  lemma {:induction false} PathOnlyAddsVersions(states: seq<State>, events: seq<Event>, i: nat, j: nat)
    requires Path(states, events) && i <= j < |states|
    ensures states[i].minted <= states[j].minted && states[i].floor <= states[j].floor
    decreases j
  {
    if i < j {
      PathOnlyAddsVersions(states, events, i, j - 1);
      assert Step(states[j - 1], events[j - 1]) == Some(states[j]);
      StepOnlyAddsVersions(states[j - 1], events[j - 1], states[j]);
    }
  }

  /** Any two processes that hold a key for the same version, at any two moments, hold the same key. */
  lemma CachesAgree(states: seq<State>, events: seq<Event>, i: nat, j: nat, p: nat, q: nat, v: nat)
    requires Run(states, events) && i <= j < |states|
    requires v in CacheOf(states[i], p) && v in CacheOf(states[j], q)
    ensures CacheOf(states[i], p)[v] == CacheOf(states[j], q)[v]
  {
    PathKeepsInv(states, events, i);
    PathKeepsInv(states, events, j);
    PathOnlyAddsVersions(states, events, i, j);
    assert CacheInv(states[i].minted, states[i].caches[p]);
    assert CacheInv(states[j].minted, states[j].caches[q]);
  }

  lemma KeysOverTime(s: State, t: State, v: nat)
    requires Inv(s) && Inv(t) && s.minted <= t.minted && s.floor <= t.floor && v in s.keys
    ensures v in t.keys <==> t.floor <= v
    ensures v in t.keys ==> t.keys[v] == s.keys[v]
  {
    assert KeyInv(s.minted, v, Some(s.keys[v]));
    if v in t.keys {
      assert KeyInv(t.minted, v, Some(t.keys[v]));
    }
  }

  /** A version that was deleted never exists again; a version that still exists still has its key. */
  lemma VersionsAreNeverReused(states: seq<State>, events: seq<Event>, i: nat, j: nat, k: nat, v: nat)
    requires Run(states, events) && i <= j <= k < |states|
    requires v in states[i].keys
    ensures v !in states[j].keys ==> v !in states[k].keys
    ensures v in states[j].keys ==> states[j].keys[v] == states[i].keys[v]
    ensures Current(states[i].keys) <= Current(states[j].keys)
  {
    PathOnlyAddsVersions(states, events, i, j);
    PathOnlyAddsVersions(states, events, j, k);
    PathKeepsInv(states, events, i);
    CurrentIsNewest(states[i]);
    PathKeepsInv(states, events, j);
    CurrentIsNewest(states[j]);
    KeysOverTime(states[i], states[j], v);
    PathKeepsInv(states, events, k);
    KeysOverTime(states[i], states[k], v);
  }

  // --- Start -----------------------------------------------------------------------

  /** The pair a Start call returns at this step, if it returns one. */
  function StartAnswer(s: State, job: nat): Option<(nat, nat)> {
    if job !in s.jobs || !s.jobs[job].Starting? then None
    else
      match s.jobs[job].phase
      case Checking =>
        if s.rotation.Some? && s.rotation.value.status == InProgress
        then Some((s.rotation.value.from, s.rotation.value.to)) else None
      case Upserting(from, to) => Some((from, to))
      case _ => None
  }

  ghost predicate Names(s: State, pair: (nat, nat)) {
    && s.rotation.Some? && s.rotation.value.status == InProgress
    && s.rotation.value.from == pair.0 && s.rotation.value.to == pair.1
  }

  /**
    Whatever a Start call returns is the rotation in progress at that moment: the
    newest version and the one just before it.
   */
  lemma StartReturnsTheNewestPair(s: State, job: nat, dek: Dek, s': State)
    requires Inv(s) && DoStepStart(s, job, dek) == Some(s') && StartAnswer(s, job).Some?
    ensures var pair := StartAnswer(s, job).value;
            Names(s', pair) && 1 <= pair.0 && pair.1 == pair.0 + 1 == Current(s'.keys)
  {
    assert JobInv(s, job, s.jobs[job]);
    StepStartKeepsInv(s, job, dek, s');
    CurrentIsNewest(s');
  }

  lemma ProgressStep(s: State, e: Event, s': State, pair: (nat, nat))
    requires Inv(s) && Step(s, e) == Some(s') && !e.Complete? && Names(s, pair)
    ensures Names(s', pair)
  {
    if e.StepStart? {
      assert JobInv(s, e.job, s.jobs[e.job]);
      assert DoStepStart(s, e.job, e.dek) == Some(s');
    }
  }

  lemma {:induction false} ProgressIsStable(states: seq<State>, events: seq<Event>, i: nat, j: nat, pair: (nat, nat))
    requires Run(states, events)
    requires i <= j < |states| && Names(states[i], pair)
    requires forall k :: i <= k < j ==> !events[k].Complete?
    ensures Names(states[j], pair)
    decreases j
  {
    if i < j {
      ProgressIsStable(states, events, i, j - 1, pair);
      PathKeepsInv(states, events, j - 1);
      assert Step(states[j - 1], events[j - 1]) == Some(states[j]);
      ProgressStep(states[j - 1], events[j - 1], states[j], pair);
    }
  }

  lemma AnswerNamesTheRow(states: seq<State>, events: seq<Event>, i: nat)
    requires Run(states, events) && i < |events|
    requires events[i].StepStart? && StartAnswer(states[i], events[i].job).Some?
    ensures Names(states[i + 1], StartAnswer(states[i], events[i].job).value)
  {
    PathKeepsInv(states, events, i);
    assert Step(states[i], events[i]) == Some(states[i + 1]);
    StartReturnsTheNewestPair(states[i], events[i].job, events[i].dek, states[i + 1]);
  }

  lemma AnswerIsTheNamedPair(states: seq<State>, events: seq<Event>, j: nat, job: nat, pair: (nat, nat))
    requires Run(states, events) && j < |states|
    requires StartAnswer(states[j], job).Some? && Names(states[j], pair)
    ensures StartAnswer(states[j], job) == Some(pair)
  {
    PathKeepsInv(states, events, j);
    assert JobInv(states[j], job, states[j].jobs[job]);
  }

  /** Start calls that overlap one rotation all return the same pair. */
  lemma OverlappingStartsAgree(states: seq<State>, events: seq<Event>, i: nat, j: nat)
    requires Run(states, events) && i < j < |events|
    requires events[i].StepStart? && StartAnswer(states[i], events[i].job).Some?
    requires events[j].StepStart? && StartAnswer(states[j], events[j].job).Some?
    requires forall k :: i < k < j ==> !events[k].Complete?
    ensures StartAnswer(states[i], events[i].job) == StartAnswer(states[j], events[j].job)
  {
    var pair := StartAnswer(states[i], events[i].job).value;
    AnswerNamesTheRow(states, events, i);
    ProgressIsStable(states, events, i + 1, j, pair);
    AnswerIsTheNamedPair(states, events, j, events[j].job, pair);
  }

  // --- Key facts ----------------------------------------------------------------------

  /** A key fact always records its summary's version, so the summary's key opens it. */
  lemma FactsOpenWithParentKey(states: seq<State>, events: seq<Event>, i: nat, f: RowId)
    requires Run(states, events) && i < |states|
    requires f in states[i].rows && f.table == Facts
    ensures var s, parent := states[i], RowId(Summaries, states[i].rows[f].owner);
            && parent in s.rows && s.rows[parent].version in s.keys
            && DecryptEach(s.keys[s.rows[parent].version], s.rows[f].cells) == Some(PlainCells(s.rows[f].cells))
  {
    PathKeepsInv(states, events, i);
    InvIsReadable(states[i]);
    assert FactInv(states[i].rows, f);
    assert Readable(states[i], f);
  }

  lemma VersionsHaveOwnKeys(s: State, v: nat, w: nat)
    requires Inv(s) && IsVersion(s.minted, v) && IsVersion(s.minted, w)
    ensures Mint(s.minted, v) == Mint(s.minted, w) <==> v == w
  {
  }

  lemma StoredKeyIsMint(states: seq<State>, events: seq<Event>, i: nat, j: nat, r: RowId)
    requires Run(states, events) && i <= j < |states| && r in states[i].rows
    ensures Inv(states[j])
    ensures var s, v := states[i], states[i].rows[r].version;
            v in s.keys && IsVersion(states[j].minted, v) && s.keys[v] == Mint(states[j].minted, v)
  {
    PathKeepsInv(states, events, i);
    PathKeepsInv(states, events, j);
    PathOnlyAddsVersions(states, events, i, j);
    InvIsReadable(states[i]);
    assert Readable(states[i], r);
    assert KeyInv(states[i].minted, states[i].rows[r].version, Some(states[i].keys[states[i].rows[r].version]));
  }

  /**
    A reader that fetched the summary's key at an earlier moment can open a fact
    read later exactly when the summary has not moved in between; otherwise it
    gets an error, never another text.
   */
  lemma StaleParentKeyOpensFactIffUnmoved(states: seq<State>, events: seq<Event>, i: nat, j: nat, f: RowId, k: nat)
    requires Run(states, events) && i <= j < |states|
    requires f in states[j].rows && f.table == Facts
    requires k < |states[j].rows[f].cells| && states[j].rows[f].cells[k].Sealed?
    requires RowId(Summaries, states[j].rows[f].owner) in states[i].rows
    ensures var parent := RowId(Summaries, states[j].rows[f].owner);
            && parent in states[j].rows
            && states[i].rows[parent].version in states[i].keys
            && (DecryptEach(states[i].keys[states[i].rows[parent].version], states[j].rows[f].cells).Some?
                <==> states[i].rows[parent].version == states[j].rows[parent].version)
  {
    var s, t := states[i], states[j];
    var parent := RowId(Summaries, t.rows[f].owner);
    StoredKeyIsMint(states, events, i, j, parent);
    assert FactInv(t.rows, f);
    assert RowInv(t.rows[f], t.truth[f], t.minted, t.floor);
    var v := s.rows[parent].version;
    SealedWithOneKey(t.rows[f].cells, k, s.keys[v]);
    VersionsHaveOwnKeys(t, v, t.rows[f].version);
  }
}
