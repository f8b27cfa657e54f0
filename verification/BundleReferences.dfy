/**
  internal/hpmf/import.go, importEpisodes once more: which episode a reference leads
  to after an import, and when the foreign key on refers_to lets the import through.
 */
module BundleReferences {
  import opened Basics
  import opened BundleImport
  import opened BundleMerge

  /** The last of the first n records that has the id and is stored. */
  function LastNew(table: Episodes, records: seq<EpisodeRecord>, id: Id, n: nat): (j: Option<nat>)
    requires n <= |records|
    ensures j.Some? ==> j.value < n && records[j.value].id == id && IsNew(table, records, j.value)
    ensures forall m: nat :: m < n && records[m].id == id && IsNew(table, records, m) ==> j.Some? && m <= j.value
  {
    if n == 0 then None
    else if records[n - 1].id == id && IsNew(table, records, n - 1) then Some(n - 1)
    else LastNew(table, records, id, n - 1)
  }

  /** Where record k's reference to an exported id leads. */
  function Target(table: Episodes, records: seq<EpisodeRecord>, placed: map<nat, Id>, id: Id, k: nat): Id
    requires k <= |records|
  {
    var j := LastNew(table, records, id, k);
    if j.Some? && j.value in placed then placed[j.value] else id
  }

  /** A step of the loop, in the terms of Recorded. */
  lemma LastStep(table: Episodes, records: seq<EpisodeRecord>, retry: Retry, n: nat, q: Progress) returns (p: Progress)
    requires 0 < n <= |records| && AddEpisodes(table, records, retry, n) == Some(q)
    ensures AddEpisodes(table, records, retry, n - 1) == Some(p) && AddEpisode(p, records[n - 1], n - 1, retry) == Some(q)
    ensures n - 1 !in p.placed && (n - 1 in q.placed <==> IsNew(table, records, n - 1))
    ensures forall j :: j in p.placed ==> j < n - 1 && p.placed[j] in p.table && p.placed[j] !in table
    ensures IsNew(table, records, n - 1) <==> records[n - 1].hash !in p.hashes
  {
    p := AddEpisodes(table, records, retry, n - 1).value;
    EpisodesRecorded(table, records, retry, n - 1);
    forall j | j in p.placed ensures j < n - 1 && p.placed[j] in p.table && p.placed[j] !in table {
      assert PlacedOk(table, records, p, n - 1, j);
    }
  }

  /** The id map follows an id to the last stored record that had it, and then the id is taken. */
  ghost predicate FollowsTo(q: Progress, j: Option<nat>, id: Id) {
    if j.Some? then j.value in q.placed && id in q.table && Follow(q.idMap, id) == q.placed[j.value]
    else Follow(q.idMap, id) == id
  }

  lemma {:induction false} MapFollows(table: Episodes, records: seq<EpisodeRecord>, retry: Retry, n: nat, q: Progress, id: Id)
    requires n <= |records| && AddEpisodes(table, records, retry, n) == Some(q)
    ensures FollowsTo(q, LastNew(table, records, id, n), id)
  {
    if n > 0 {
      var p := LastStep(table, records, retry, n, q);
      MapFollows(table, records, retry, n - 1, p, id);
      MapFollowsOn(p, records[n - 1], n - 1, retry, q, LastNew(table, records, id, n - 1), id);
    }
  }

  lemma MapFollowsOn(p: Progress, r: EpisodeRecord, k: nat, retry: Retry, q: Progress, j: Option<nat>, id: Id)
    requires AddEpisode(p, r, k, retry) == Some(q) && FollowsTo(p, j, id) && k !in p.placed
    ensures FollowsTo(q, if r.id == id && r.hash !in p.hashes then Some(k) else j, id)
  {
  }

  /** What every stored record refers to: the last stored record before it that had the exported id, or else that id itself. */
  lemma {:induction false} StoredReference(table: Episodes, records: seq<EpisodeRecord>, retry: Retry, n: nat, q: Progress, k: nat)
    requires n <= |records| && AddEpisodes(table, records, retry, n) == Some(q) && k in q.placed
    ensures k < n && q.placed[k] in q.table
    ensures q.table[q.placed[k]].refersTo ==
            match records[k].refersTo case None => None case Some(id) => Some(Target(table, records, q.placed, id, k))
  {
    var p := LastStep(table, records, retry, n, q);
    if k < n - 1 {
      StoredReference(table, records, retry, n - 1, p, k);
      assert q.table[q.placed[k]] == p.table[p.placed[k]];
    } else if records[k].refersTo.Some? {
      MapFollows(table, records, retry, k, p, records[k].refersTo.value);
    }
  }

  /** The state in which record k was stored. */
  lemma {:induction false} AtItsTurn(table: Episodes, records: seq<EpisodeRecord>, retry: Retry, n: nat, q: Progress, k: nat)
    returns (p: Progress)
    requires n <= |records| && AddEpisodes(table, records, retry, n) == Some(q) && k in q.placed
    ensures k < n && q.placed[k] in q.table && AddEpisodes(table, records, retry, k) == Some(p)
    ensures p.table.Keys <= q.table.Keys && FreeId(p.table, records[k].id, retry, k, 0) == Some(q.placed[k])
    ensures RefersToARow(p.table, q.placed[k], q.table[q.placed[k]].refersTo)
  {
    var before := LastStep(table, records, retry, n, q);
    if k < n - 1 {
      p := AtItsTurn(table, records, retry, n - 1, before, k);
      assert q.table[q.placed[k]] == before.table[before.placed[k]];
    } else {
      p := before;
    }
  }

  lemma PlacedIffNew(table: Episodes, records: seq<EpisodeRecord>, retry: Retry, n: nat, q: Progress, k: nat)
    requires n <= |records| && AddEpisodes(table, records, retry, n) == Some(q)
    ensures k in q.placed <==> k < n && IsNew(table, records, k)
    ensures k in q.placed ==> q.placed[k] in q.table && q.placed[k] !in table
                              && q.table[q.placed[k]].mine && q.table[q.placed[k]].hash == records[k].hash
  {
    EpisodesRecorded(table, records, retry, n);
    assert PlacedOk(table, records, q, n, k);
  }

  /** Rows stored earlier are in the table when a later one is stored. */
  lemma EarlierIsThere(table: Episodes, records: seq<EpisodeRecord>, retry: Retry, n: nat, q: Progress, i: nat, j: nat, id: Id)
    requires n <= |records| && AddEpisodes(table, records, retry, n) == Some(q) && i < j && i in q.placed && j in q.placed
    requires q.placed[i] == id || (q.placed[i] in q.table && q.table[q.placed[i]].refersTo == Some(id))
    ensures q.placed[j] != id
  {
    var p := AtItsTurn(table, records, retry, n, q, j);
    PlacedIffNew(table, records, retry, n, q, i);
    PlacedIffNew(table, records, retry, j, p, i);
    SameThen(table, records, retry, j, p, n, q, i);
    var before := AtItsTurn(table, records, retry, j, p, i);
  }

  lemma {:induction false} SameThen(table: Episodes, records: seq<EpisodeRecord>, retry: Retry, m: nat, p: Progress, n: nat, q: Progress, i: nat)
    requires m <= n <= |records| && i in p.placed
    requires AddEpisodes(table, records, retry, m) == Some(p) && AddEpisodes(table, records, retry, n) == Some(q)
    ensures i in q.placed && q.placed[i] == p.placed[i] && p.placed[i] in p.table && q.placed[i] in q.table
    ensures q.table[q.placed[i]] == p.table[p.placed[i]]
  {
    if m < n {
      var before := LastStep(table, records, retry, n, q);
      SameThen(table, records, retry, m, p, n - 1, before, i);
    } else {
      PlacedIffNew(table, records, retry, m, p, i);
    }
  }

  /**
    A stored record that names record j refers to the row of record j exactly when
    that is the last stored record before it with that id, or when it names itself
    and kept its id.
   */
  lemma ReferencesFollowIff(table: Episodes, records: seq<EpisodeRecord>, retry: Retry, q: Progress, j: nat, k: nat)
    requires AddEpisodes(table, records, retry, |records|) == Some(q) && k in q.placed
    requires j < |records| && k < |records| && records[k].refersTo == Some(records[j].id)
    ensures q.placed[k] in q.table
    ensures j in q.placed && q.table[q.placed[k]].refersTo == Some(q.placed[j])
            <==> LastNew(table, records, records[j].id, k) == Some(j) || (j == k && q.placed[k] == records[k].id)
  {
    var n, id := |records|, records[j].id;
    StoredReference(table, records, retry, n, q, k);
    PlacedIffNew(table, records, retry, n, q, j);
    match LastNew(table, records, id, k) {
      case Some(i) =>
        PlacedIffNew(table, records, retry, n, q, i);
        var p := AtItsTurn(table, records, retry, n, q, k);
        MapFollows(table, records, retry, k, p, id);
        if i < j && j in q.placed {
          EarlierIsThere(table, records, retry, n, q, i, j, q.placed[i]);
        } else if j < i && j in q.placed {
          EarlierIsThere(table, records, retry, n, q, j, i, q.placed[j]);
        }
      case None =>
        if k < j && j in q.placed {
          EarlierIsThere(table, records, retry, n, q, k, j, id);
        }
    }
  }

  // --- Under whose row the promise fails ------------------------------------------------

  ghost predicate DistinctEpisodeIds(records: seq<EpisodeRecord>) {
    forall j, k :: 0 <= j < k < |records| ==> records[j].id != records[k].id
  }

  /** Ids drawn at random are none that the bundle mentions. */
  ghost predicate DrawnIdsAreNew(records: seq<EpisodeRecord>, retry: Retry) {
    forall k: nat, a: nat, i: nat :: k < |records| && a < 6 && i < |records| ==>
      Draw(retry, k, a) != records[i].id && records[i].refersTo != Some(Draw(retry, k, a))
  }

  lemma {:induction false} OwnOrDrawn(table: Episodes, id: Id, retry: Retry, k: nat, attempt: nat)
    requires FreeId(table, id, retry, k, attempt).Some? && attempt <= 6
    ensures var r := FreeId(table, id, retry, k, attempt).value; r == id || exists a: nat :: a < 6 && r == Draw(retry, k, a)
    decreases 6 - attempt
  {
    if id in table {
      OwnOrDrawn(table, Draw(retry, k, attempt), retry, k, attempt + 1);
    }
  }

  /** A row that was not there before holds a record under its exported or a drawn id. */
  lemma RowOfRecord(table: Episodes, records: seq<EpisodeRecord>, retry: Retry, n: nat, q: Progress, id: Id) returns (i: nat)
    requires n <= |records| && AddEpisodes(table, records, retry, n) == Some(q) && id in q.table && id !in table
    ensures i in q.placed && i < n && IsNew(table, records, i) && q.placed[i] == id
    ensures id == records[i].id || exists a: nat :: a < 6 && id == Draw(retry, i, a)
  {
    EpisodesRecorded(table, records, retry, n);
    assert RowKnown(table, q, id);
    i :| i in q.placed && q.placed[i] == id;
    PlacedIffNew(table, records, retry, n, q, i);
    var p := AtItsTurn(table, records, retry, n, q, i);
    OwnOrDrawn(p.table, records[i].id, retry, i, 0);
  }

  /** The reference of record k leads to an episode of this scope with that hash. */
  ghost predicate LeadsHome(q: Progress, k: nat, hash: Hash) {
    && k in q.placed && q.placed[k] in q.table
    && var to := q.table[q.placed[k]].refersTo;
       to.Some? && to.value in q.table && q.table[to.value].mine && q.table[to.value].hash == hash
  }

  /**
    A stored record that names record j leads to that episode in this scope exactly
    when record j comes before it and is stored, or is in the scope under its
    exported id already. An episode the scope has under another id is lost sight of.
   */
  lemma ReferenceLeadsHomeIff(table: Episodes, records: seq<EpisodeRecord>, retry: Retry, q: Progress, j: nat, k: nat)
    requires AddEpisodes(table, records, retry, |records|) == Some(q) && k in q.placed
    requires j < |records| && k < |records| && records[k].refersTo == Some(records[j].id)
    requires DistinctEpisodeIds(records) && DrawnIdsAreNew(records, retry)
    ensures LeadsHome(q, k, records[j].hash)
            <==> || (j < k && IsNew(table, records, j))
                 || (j == k && records[k].id !in table)
                 || (records[j].id in table && table[records[j].id].mine && table[records[j].id].hash == records[j].hash)
  {
    OnlyOneHasId(table, records, j, k);
    if j < k && IsNew(table, records, j) {
      LeadsToTheNewOne(table, records, retry, q, j, k);
    } else {
      KeepsExportedId(table, records, retry, q, j, k);
    }
  }

  lemma OnlyOneHasId(table: Episodes, records: seq<EpisodeRecord>, j: nat, n: nat)
    requires DistinctEpisodeIds(records) && j < |records| && n <= |records|
    ensures LastNew(table, records, records[j].id, n) == if j < n && IsNew(table, records, j) then Some(j) else None
  {
    var last := LastNew(table, records, records[j].id, n);
    if last.Some? {
      assert last.value == j;
    }
  }

  lemma LeadsToTheNewOne(table: Episodes, records: seq<EpisodeRecord>, retry: Retry, q: Progress, j: nat, k: nat)
    requires AddEpisodes(table, records, retry, |records|) == Some(q) && k in q.placed
    requires j < |records| && k < |records| && records[k].refersTo == Some(records[j].id)
    requires LastNew(table, records, records[j].id, k) == Some(j)
    ensures LeadsHome(q, k, records[j].hash)
  {
    ReferencesFollowIff(table, records, retry, q, j, k);
    PlacedIffNew(table, records, retry, |records|, q, j);
  }

  lemma KeepsExportedId(table: Episodes, records: seq<EpisodeRecord>, retry: Retry, q: Progress, j: nat, k: nat)
    requires AddEpisodes(table, records, retry, |records|) == Some(q) && k in q.placed
    requires j < |records| && k < |records| && records[k].refersTo == Some(records[j].id)
    requires DistinctEpisodeIds(records) && DrawnIdsAreNew(records, retry)
    requires LastNew(table, records, records[j].id, k).None?
    ensures LeadsHome(q, k, records[j].hash)
            <==> || (j == k && records[k].id !in table)
                 || (records[j].id in table && table[records[j].id].mine && table[records[j].id].hash == records[j].hash)
  {
    var n, id := |records|, records[j].id;
    StoredReference(table, records, retry, n, q, k);
    EpisodesRecorded(table, records, retry, n);
    var p := AtItsTurn(table, records, retry, n, q, k);
    assert q.table[q.placed[k]].refersTo == Some(id) && id in q.table && RowKnown(table, q, id);
    if id !in table {
      var i := RowOfRecord(table, records, retry, n, q, id);
      assert i == j;
      PlacedIffNew(table, records, retry, n, q, j);
      ReferencesFollowIff(table, records, retry, q, j, k);
    }
  }

  /** In a table whose references lead to rows, they still do after an import. */
  lemma {:induction false} ReferencesLeadToRows(table: Episodes, records: seq<EpisodeRecord>, retry: Retry, n: nat, q: Progress)
    requires n <= |records| && AddEpisodes(table, records, retry, n) == Some(q)
    requires forall id :: id in table && table[id].refersTo.Some? ==> table[id].refersTo.value in table
    ensures forall id :: id in q.table && q.table[id].refersTo.Some? ==> q.table[id].refersTo.value in q.table
  {
    if n > 0 {
      var p := LastStep(table, records, retry, n, q);
      ReferencesLeadToRows(table, records, retry, n - 1, p);
    }
  }

  // --- When the transaction goes through ------------------------------------------------

  ghost predicate DrawsAreFree(table: Episodes, records: seq<EpisodeRecord>, retry: Retry) {
    && DrawnIdsAreNew(records, retry)
    && (forall k: nat, a: nat :: k < |records| && a < 6 ==> Draw(retry, k, a) !in table)
    && forall i: nat, k: nat, a: nat, b: nat :: i < k < |records| && a < 6 && b < 6 ==> Draw(retry, i, a) != Draw(retry, k, b)
  }

  /** The record needs no row, or one that the table has, or the bundle brings by then. */
  ghost predicate ReferenceIsThere(table: Episodes, records: seq<EpisodeRecord>, k: nat)
    requires k < |records|
  {
    records[k].refersTo.Some? ==>
      || records[k].refersTo.value in table
      || exists j: nat :: j <= k && records[j].id == records[k].refersTo.value && IsNew(table, records, j)
  }

  lemma RecordGoesInIff(table: Episodes, records: seq<EpisodeRecord>, retry: Retry, k: nat, p: Progress)
    requires k < |records| && AddEpisodes(table, records, retry, k) == Some(p) && DrawsAreFree(table, records, retry)
    requires IsNew(table, records, k)
    ensures AddEpisode(p, records[k], k, retry).Some? <==> ReferenceIsThere(table, records, k)
  {
    EpisodesRecorded(table, records, retry, k);
    var id := records[k].id;
    if id in p.table && Draw(retry, k, 0) in p.table {
      var i := RowOfRecord(table, records, retry, k, p, Draw(retry, k, 0));
      assert false;
    }
    var own := FreeId(p.table, id, retry, k, 0).value;
    OwnOrDrawn(p.table, id, retry, k, 0);
    if records[k].refersTo.Some? {
      var x := records[k].refersTo.value;
      MapFollows(table, records, retry, k, p, x);
      match LastNew(table, records, x, k) {
        case Some(j) =>
          PlacedIffNew(table, records, retry, k, p, j);
        case None =>
          if x in p.table && x !in table {
            var i := RowOfRecord(table, records, retry, k, p, x);
            assert false;
          }
      }
    }
  }

  /** The record is skipped, or what it refers to is there. */
  ghost predicate GoesIn(table: Episodes, records: seq<EpisodeRecord>, k: nat)
    requires k < |records|
  {
    IsNew(table, records, k) ==> ReferenceIsThere(table, records, k)
  }

  /** With random ids that are free, a bundle's episodes fail exactly at a stored record that refers to a row nobody has yet. */
  lemma {:induction false} EpisodesLoadIff(table: Episodes, records: seq<EpisodeRecord>, retry: Retry, n: nat)
    requires n <= |records| && DrawsAreFree(table, records, retry)
    ensures AddEpisodes(table, records, retry, n).Some? <==> forall k: nat :: k < n ==> GoesIn(table, records, k)
  {
    if n > 0 {
      EpisodesLoadIff(table, records, retry, n - 1);
      if AddEpisodes(table, records, retry, n - 1).Some? {
        LastGoesIn(table, records, retry, n - 1);
      }
    }
  }

  lemma LastGoesIn(table: Episodes, records: seq<EpisodeRecord>, retry: Retry, k: nat)
    requires k < |records| && DrawsAreFree(table, records, retry) && AddEpisodes(table, records, retry, k).Some?
    ensures AddEpisodes(table, records, retry, k + 1).Some? <==> GoesIn(table, records, k)
  {
    var p := AddEpisodes(table, records, retry, k).value;
    EpisodesRecorded(table, records, retry, k);
    if IsNew(table, records, k) {
      RecordGoesInIff(table, records, retry, k, p);
    }
  }

  // --- Bundles that show it ---------------------------------------------------------------

  lemma {:induction false} AddThree(table: Episodes, records: seq<EpisodeRecord>, retry: Retry)
    requires |records| == 3
    ensures AddEpisodes(table, records, retry, 3) ==
            match AddEpisode(Before(table), records[0], 0, retry)
            case None => None
            case Some(p) => match AddEpisode(p, records[1], 1, retry)
                            case None => None
                            case Some(q) => AddEpisode(q, records[2], 2, retry)
  {
    assert AddEpisodes(table, records, retry, 0) == Some(Before(table));
    assert AddEpisodes(table, records, retry, 1) == AddEpisode(Before(table), records[0], 0, retry);
  }

  /** An episode and two remarks on it, which have the empty hash: one remark is kept. */
  lemma OneRemarkIsKept(episode: Id, first: Id, second: Id, hash: Hash, empty: Hash)
    requires episode != first && episode != second && first != second && hash != empty
    ensures var records := [EpisodeRecord(episode, hash, None),
                            EpisodeRecord(first, empty, Some(episode)),
                            EpisodeRecord(second, empty, Some(episode))];
            var p := AddEpisodes(map[], records, [], 3);
            p.Some? && p.value.table == map[episode := Episode(true, hash, None), first := Episode(true, empty, Some(episode))]
  {
    var records := [EpisodeRecord(episode, hash, None),
                    EpisodeRecord(first, empty, Some(episode)),
                    EpisodeRecord(second, empty, Some(episode))];
    AddThree(map[], records, []);
    assert OwnHashes(map[]) == {};
  }

  lemma AddOne(table: Episodes, records: seq<EpisodeRecord>, retry: Retry)
    requires |records| == 1
    ensures AddEpisodes(table, records, retry, 1) == AddEpisode(Before(table), records[0], 0, retry)
  {
    assert AddEpisodes(table, records, retry, 0) == Some(Before(table));
  }

  lemma AddTwo(table: Episodes, records: seq<EpisodeRecord>, retry: Retry)
    requires |records| == 2
    ensures AddEpisodes(table, records, retry, 2) ==
            match AddEpisode(Before(table), records[0], 0, retry)
            case None => None
            case Some(p) => AddEpisode(p, records[1], 1, retry)
  {
    assert AddEpisodes(table, records, retry, 0) == Some(Before(table));
    assert AddEpisodes(table, records, retry, 1) == AddEpisode(Before(table), records[0], 0, retry);
  }

  /**
    An episode that is another scope's is imported and gets a new id. Imported again
    with a remark on it, the remark refers to the other scope's row or, when that
    is gone, to none, and the transaction fails.
   */
  lemma RemarkOnRenamedEpisode(episode: Id, renamed: Id, remark: Id, hash: Hash, empty: Hash)
    requires episode != renamed && episode != remark && renamed != remark && hash != empty
    ensures var others := map[episode := Episode(false, hash, None)];
            var mine := map[renamed := Episode(true, hash, None)];
            var records := [EpisodeRecord(episode, hash, None), EpisodeRecord(remark, empty, Some(episode))];
            var once := AddEpisodes(others, records[..1], [[renamed]], 1);
            && once.Some? && once.value.table == others + mine
            && var twice := AddEpisodes(others + mine, records, [], 2);
               && twice.Some? && twice.value.table == (others + mine)[remark := Episode(true, empty, Some(episode))]
               && AddEpisodes(mine, records, [], 2).None?
  {
    var others := map[episode := Episode(false, hash, None)];
    var mine := map[renamed := Episode(true, hash, None)];
    var records := [EpisodeRecord(episode, hash, None), EpisodeRecord(remark, empty, Some(episode))];
    AddOne(others, records[..1], [[renamed]]);
    assert OwnHashes(others) == {};
    NewHash(others, renamed, mine[renamed]);
    assert others[renamed := mine[renamed]] == others + mine;
    assert Draw([[renamed]], 0, 0) == renamed;
    assert FreeId(others, episode, [[renamed]], 0, 0) == FreeId(others, renamed, [[renamed]], 0, 1);
    AddTwo(others + mine, records, []);
    NewHash(map[], renamed, mine[renamed]);
    assert map[][renamed := mine[renamed]] == mine;
    AddTwo(mine, records, []);
  }
}
