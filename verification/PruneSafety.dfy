/**
  Exactly when Prune is safe. Its count and its delete are two transactions, and
  the count sees only committed rows: a writer that resolved an older version
  and has not committed is invisible to both.
 */
module PruneSafety {
  import opened Basics
  import opened FieldCrypto
  import opened KeyVersions
  import opened RowTables
  import opened RotationProtocol
  import opened RotationSafety
  import opened RotationTheorems

  ghost predicate AboutToCount(s: State, job: nat) {
    job in s.jobs && s.jobs[job].Pruning? && s.jobs[job].prune == Counting
  }

  /** Whatever happens after this prune counts, every row stays readable. */
  ghost predicate PruneIsSafe(s: State, job: nat) {
    forall states: seq<State>, events: seq<Event> ::
      Path(states, events) && AfterCount(s, job, states, events) ==> AllReadable(states[|events|])
  }

  /** The path starts with this prune's count, and its later counts are careful. */
  ghost predicate AfterCount(s: State, job: nat, states: seq<State>, events: seq<Event>) {
    && |states| == |events| + 1 && events != []
    && states[0] == s && events[0] == CountPrune(job)
    && forall i :: 1 <= i < |events| ==> Careful(states[i], events[i])
  }

  lemma CarefulCountIsSafe(s: State, job: nat)
    requires Inv(s) && AboutToCount(s, job)
    requires NoRowBelow(s, s.jobs[job].to) ==> NoWriterBelow(s, s.jobs[job].to)
    ensures PruneIsSafe(s, job)
  {
    forall states: seq<State>, events: seq<Event> | Path(states, events) && AfterCount(s, job, states, events)
      ensures AllReadable(states[|events|])
    {
      assert Step(states[0], events[0]) == Some(states[1]);
      if NoRowBelow(s, s.jobs[job].to) {
        StepKeepsInv(s, CountPrune(job), states[1]);
      } else {
        EndJobKeepsInv(s, job);
      }
      assert CarefulPath(states[1..], events[1..]) by {
        forall i | 0 <= i < |events[1..]|
          ensures Step(states[1..][i], events[1..][i]) == Some(states[1..][i + 1]) && Careful(states[1..][i], events[1..][i])
        {
          assert Step(states[i + 1], events[i + 1]) == Some(states[i + 2]);
        }
      }
      PathKeepsInv(states[1..], events[1..], |events| - 1);
      InvIsReadable(states[|events|]);
    }
  }

  // --- The run that breaks ---------------------------------------------------------

  lemma UnusedId(rows: Rows)
    ensures exists id: nat :: RowId(Episodes, id) !in rows
  {
    var ids := set r | r in rows :: r.id;
    assert forall r :: r in rows ==> r.id in ids;
    if ids == {} {
      assert RowId(Episodes, 0) !in rows;
    } else {
      MaxExists(ids);
      var m :| m in ids && forall x :: x in ids ==> x <= m;
      assert RowId(Episodes, m + 1) !in rows;
    }
  }

  lemma UnusedDek(used: set<Dek>)
    ensures exists d: Dek :: d !in used
  {
    if used != {} {
      MaxExists(used);
      var m :| m in used && forall x :: x in used ==> x <= m;
      assert m + 1 !in used;
    } else {
      assert 0 !in used;
    }
  }

  /** A path without another count that ends with a row nobody can read. */
  ghost predicate Breaking(s: State, states: seq<State>, events: seq<Event>) {
    && Path(states, events) && states[0] == s
    && (forall i :: 0 <= i < |events| ==> !events[i].CountPrune?)
    && !AllReadable(states[|events|])
  }

  lemma PathCons(s: State, e: Event, states: seq<State>, events: seq<Event>)
    requires Path(states, events) && Step(s, e) == Some(states[0])
    ensures Path([s] + states, [e] + events)
  {
    forall i | 0 <= i < |[e] + events|
      ensures Step(([s] + states)[i], ([e] + events)[i]) == Some(([s] + states)[i + 1])
    {
      if i > 0 {
        assert Step(states[i - 1], events[i - 1]) == Some(states[i]);
      }
    }
  }

  lemma Prepend(s: State, e: Event, states: seq<State>, events: seq<Event>)
    requires Path(states, events) && Step(s, e) == Some(states[0]) && Breaking(states[0], states, events)
    ensures Path([s] + states, [e] + events) && ([s] + states)[|events| + 1] == states[|events|]
    ensures !e.CountPrune? ==> Breaking(s, [s] + states, [e] + events)
  {
    PathCons(s, e, states, events);
  }

  /** Committing under a version that is no longer stored loses the row at once. */
  lemma CommitWithoutKey(s: State, writer: nat) returns (states: seq<State>, events: seq<Event>)
    requires writer in s.jobs && s.jobs[writer].Writing? && s.jobs[writer].key.Some?
    requires s.jobs[writer].version !in s.keys && Current(s.keys) in s.keys
    ensures Breaking(s, states, events)
  {
    UnusedId(s.rows);
    var id: nat :| RowId(Episodes, id) !in s.rows;
    var r := RowId(Episodes, id);
    var puts := map[r := Put([Some("text")], 0)];
    assert Insertable(s, puts, map[]);
    var s2 := DoCommit(s, writer, puts, map[]).value;
    assert s2.rows[r].version == s.jobs[writer].version;
    assert !Readable(s2, r);
    states, events := [s, s2], [Commit(writer, puts, map[])];
  }

  /** Deleting while a writer still holds a resolved older key, and letting it commit, loses a row. */
  lemma DeleteThenCommit(s: State, job: nat, writer: nat) returns (states: seq<State>, events: seq<Event>)
    requires job in s.jobs && s.jobs[job].Pruning? && s.jobs[job].prune == Deleting
    requires writer in s.jobs && s.jobs[writer].Writing? && s.jobs[writer].key.Some?
    requires s.jobs[writer].version < s.jobs[job].to <= Current(s.keys)
    ensures Breaking(s, states, events)
  {
    var s1 := DoDeletePrune(s, job).value;
    assert Current(s.keys) in s1.keys;
    assert s1.keys.Keys != {};
    states, events := CommitWithoutKey(s1, writer);
    Prepend(s, DeletePrune(job), states, events);
    states, events := [s] + states, [DeletePrune(job)] + events;
  }

  /** Resolving the old key first, if the writer has only read its version so far. */
  lemma ResolveDeleteCommit(s: State, job: nat, writer: nat) returns (states: seq<State>, events: seq<Event>)
    requires job in s.jobs && s.jobs[job].Pruning? && s.jobs[job].prune == Deleting
    requires writer in s.jobs && s.jobs[writer].Writing?
    requires s.jobs[writer].key.None? ==> Find(s, s.jobs[writer].proc, s.jobs[writer].version).Some?
    requires s.jobs[writer].version < s.jobs[job].to <= Current(s.keys)
    ensures Breaking(s, states, events)
  {
    if s.jobs[writer].key.Some? {
      states, events := DeleteThenCommit(s, job, writer);
    } else {
      var w := Step(s, ResolveWrite(writer)).value;
      states, events := DeleteThenCommit(w, job, writer);
      Prepend(s, ResolveWrite(writer), states, events);
      states, events := [s] + states, [ResolveWrite(writer)] + events;
    }
  }

  lemma CountThenBreak(s: State, job: nat, states: seq<State>, events: seq<Event>)
    requires AboutToCount(s, job) && NoRowBelow(s, s.jobs[job].to)
    requires Breaking(WithJob(s, job, s.jobs[job].(prune := Deleting)), states, events)
    ensures !PruneIsSafe(s, job)
  {
    Prepend(s, CountPrune(job), states, events);
    assert AfterCount(s, job, [s] + states, [CountPrune(job)] + events);
  }

  /** A writer that has only read an old version can still resolve its key before the delete. */
  lemma LowWriterBreaks(s: State, job: nat, writer: nat)
    requires Inv(s) && AboutToCount(s, job) && NoRowBelow(s, s.jobs[job].to)
    requires writer in s.jobs && s.jobs[writer].Writing? && s.jobs[writer].version < s.jobs[job].to
    ensures !PruneIsSafe(s, job)
  {
    assert JobInv(s, job, s.jobs[job]) && JobInv(s, writer, s.jobs[writer]);
    CurrentIsNewest(s);
    FindIsMint(s, s.jobs[writer].proc, s.jobs[writer].version);
    var states, events := ResolveDeleteCommit(WithJob(s, job, s.jobs[job].(prune := Deleting)), job, writer);
    CountThenBreak(s, job, states, events);
  }

  /**
    A process that saw no key yet finds version 1 already stored, however late it
    is, and goes on to write under it.
   */
  lemma LowCreatorBreaks(s: State, job: nat, creator: nat)
    requires Inv(s) && AboutToCount(s, job) && NoRowBelow(s, s.jobs[job].to)
    requires creator in s.jobs && s.jobs[creator].Creating?
    ensures !PruneIsSafe(s, job)
  {
    assert JobInv(s, job, s.jobs[job]) && JobInv(s, creator, s.jobs[creator]);
    CurrentIsNewest(s);
    assert 1 in s.keys;
    UnusedDek(s.used);
    var dek: Dek :| dek !in s.used;
    var counted := WithJob(s, job, s.jobs[job].(prune := Deleting));
    var created := Step(counted, CreateFirst(creator, dek)).value;
    var states, events := ResolveDeleteCommit(created, job, creator);
    Prepend(counted, CreateFirst(creator, dek), states, events);
    CountThenBreak(s, job, [counted] + states, [CreateFirst(creator, dek)] + events);
  }

  /**
    A prune that is about to count is safe exactly when its count will refuse, or
    no in-flight writer holds a version below the one it keeps. The completed
    status, stragglers of earlier rotations and crashes play no part.
   */
  lemma PruneSafeIffNoLowWriter(s: State, job: nat)
    requires Inv(s) && AboutToCount(s, job)
    ensures PruneIsSafe(s, job) <==> (NoRowBelow(s, s.jobs[job].to) ==> NoWriterBelow(s, s.jobs[job].to))
  {
    if NoRowBelow(s, s.jobs[job].to) ==> NoWriterBelow(s, s.jobs[job].to) {
      CarefulCountIsSafe(s, job);
    } else {
      assert JobInv(s, job, s.jobs[job]);
      var w :| w in s.jobs && ((s.jobs[w].Writing? && s.jobs[w].version < s.jobs[job].to)
                            || (s.jobs[w].Creating? && 1 < s.jobs[job].to));
      if s.jobs[w].Writing? {
        LowWriterBreaks(s, job, w);
      } else {
        LowCreatorBreaks(s, job, w);
      }
    }
  }

  lemma DeleteThenCreate(s: State, job: nat, creator: nat, dek: Dek) returns (states: seq<State>, events: seq<Event>)
    requires job in s.jobs && s.jobs[job].Pruning? && s.jobs[job].prune == Deleting && 1 < s.jobs[job].to
    requires creator in s.jobs && s.jobs[creator].Creating? && dek !in s.used
    ensures Path(states, events) && states[0] == s && |events| == 2 && forall e :: e in events ==> !e.CountPrune?
    ensures 1 in states[2].keys && states[2].keys[1] == dek
  {
    var deleted := DoDeletePrune(s, job).value;
    var created := DoCreateFirst(deleted, creator, dek).value;
    states, events := [created], [];
    PathCons(deleted, CreateFirst(creator, dek), states, events);
    states, events := [deleted] + states, [CreateFirst(creator, dek)] + events;
    PathCons(s, DeletePrune(job), states, events);
    states, events := [s] + states, [DeletePrune(job)] + events;
  }

  /**
    What the late creator does when nothing stops it: after the prune it stores
    version 1 a second time, under another key, while other processes may still
    hold the first one.
   */
  lemma LateCreatorReusesVersionOne(s: State, job: nat, creator: nat)
    requires Inv(s) && AboutToCount(s, job) && NoRowBelow(s, s.jobs[job].to)
    requires creator in s.jobs && s.jobs[creator].Creating?
    ensures exists states: seq<State>, events: seq<Event> ::
              && Path(states, events) && AfterCount(s, job, states, events)
              && 1 in s.keys && 1 in states[|events|].keys && states[|events|].keys[1] != s.keys[1]
  {
    assert JobInv(s, job, s.jobs[job]) && JobInv(s, creator, s.jobs[creator]);
    assert 1 in s.keys && s.keys[1] == s.minted[0];
    UnusedDek(s.used);
    var dek: Dek :| dek !in s.used;
    var counted := WithJob(s, job, s.jobs[job].(prune := Deleting));
    var states, events := DeleteThenCreate(counted, job, creator, dek);
    PathCons(s, CountPrune(job), states, events);
    assert AfterCount(s, job, [s] + states, [CountPrune(job)] + events);
    assert ([s] + states)[|[CountPrune(job)] + events|] == states[2];
  }
}
