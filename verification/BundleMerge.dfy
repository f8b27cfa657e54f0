/**
  internal/hpmf/import.go, the rest: entities and episodes, the three phases as a
  whole, and why loading the same bundle again changes nothing.
 */
module BundleMerge {
  import opened Basics
  import opened SummaryChains
  import opened SummaryRuns
  import opened BundleImport

  // --- Entities ---------------------------------------------------------------------

  type Entities = map<Id, string>

  datatype EntityRecord = EntityRecord(id: Id, content: string)

  /** An id the scope already has is skipped, whatever it says. */
  function AddEntities(entities: Entities, records: seq<EntityRecord>, n: nat): Entities
    requires n <= |records|
  {
    if n == 0 then entities
    else
      var e, r := AddEntities(entities, records, n - 1), records[n - 1];
      if r.id in e then e else e[r.id := r.content]
  }

  method ImportEntities(entities: Entities, records: seq<EntityRecord>) returns (result: Entities, imported: nat, skipped: nat)
    ensures result == AddEntities(entities, records, |records|)
    ensures imported == |result| - |entities| && imported + skipped == |records|
    ensures EntitiesMerged(entities, records, |records|, result)
  {
    result, imported, skipped := entities, 0, 0;
    for i := 0 to |records|
      invariant result == AddEntities(entities, records, i)
      invariant imported == |result| - |entities| && imported + skipped == i
    {
      if records[i].id in result {
        skipped := skipped + 1;
      } else {
        result := result[records[i].id := records[i].content];
        imported := imported + 1;
      }
    }
    EntitiesAdded(entities, records, |records|);
  }

  /** The record is the first with its id, which the scope does not have. */
  ghost predicate IsFirst(entities: Entities, records: seq<EntityRecord>, i: nat)
    requires i < |records|
  {
    records[i].id !in entities && forall j :: 0 <= j < i ==> records[j].id != records[i].id
  }

  ghost predicate HasRecord(records: seq<EntityRecord>, n: nat, id: Id)
    requires n <= |records|
  {
    exists i :: 0 <= i < n && records[i].id == id
  }

  /** Every entity of the bundle is there, as its first record has it, and the ones that were there before are untouched. */
  ghost predicate EntitiesMerged(entities: Entities, records: seq<EntityRecord>, n: nat, e: Entities)
    requires n <= |records|
  {
    && (forall id :: id in entities ==> id in e && e[id] == entities[id])
    && (forall id :: id in e <==> id in entities || HasRecord(records, n, id))
    && (forall i: nat :: i < n && IsFirst(entities, records, i) ==> records[i].id in e && e[records[i].id] == records[i].content)
  }

  lemma {:induction false} EntitiesAdded(entities: Entities, records: seq<EntityRecord>, n: nat)
    requires n <= |records|
    ensures EntitiesMerged(entities, records, n, AddEntities(entities, records, n))
  {
    if n == 0 {
      NoEntities(entities, records);
    } else {
      EntitiesAdded(entities, records, n - 1);
      assert EntitiesMerged(entities, records, n - 1, AddEntities(entities, records, n - 1));
      EntityAdded(entities, records, n, AddEntities(entities, records, n - 1), AddEntities(entities, records, n));
    }
  }

  lemma OneMoreRecord(records: seq<EntityRecord>, n: nat, id: Id)
    requires 0 < n <= |records|
    ensures HasRecord(records, n, id) <==> HasRecord(records, n - 1, id) || records[n - 1].id == id
  {
  }

  lemma NoEntities(entities: Entities, records: seq<EntityRecord>)
    ensures EntitiesMerged(entities, records, 0, entities)
  {
  }

  lemma EntityAdded(entities: Entities, records: seq<EntityRecord>, n: nat, e: Entities, e': Entities)
    requires 0 < n <= |records| && EntitiesMerged(entities, records, n - 1, e)
    requires e' == if records[n - 1].id in e then e else e[records[n - 1].id := records[n - 1].content]
    ensures EntitiesMerged(entities, records, n, e')
  {
    forall i: nat | i < n && IsFirst(entities, records, i) ensures records[i].id in e' && e'[records[i].id] == records[i].content {
      if i == n - 1 {
        assert !HasRecord(records, n - 1, records[i].id);
      }
    }
    forall id ensures id in e' <==> id in entities || HasRecord(records, n, id) {
      OneMoreRecord(records, n, id);
    }
  }

  lemma {:induction false} EntitiesSettled(entities: Entities, records: seq<EntityRecord>, n: nat)
    requires n <= |records| && forall i :: 0 <= i < n ==> records[i].id in entities
    ensures AddEntities(entities, records, n) == entities
  {
    if n > 0 {
      EntitiesSettled(entities, records, n - 1);
    }
  }

  // --- Episodes -----------------------------------------------------------------------

  /** Episode ids are unique across all scopes; mine marks those of the scope imported into. */
  datatype Episode = Episode(mine: bool, hash: Hash, refersTo: Option<Id>)

  type Episodes = map<Id, Episode>

  datatype EpisodeRecord = EpisodeRecord(id: Id, hash: Hash, refersTo: Option<Id>)

  /** The random replacement ids drawn, by record and attempt; nothing is known of them. */
  type Retry = seq<seq<Id>>

  function Draw(retry: Retry, k: nat, attempt: nat): Id {
    if k < |retry| && attempt < |retry[k]| then retry[k][attempt] else 0
  }

  function OwnHashes(table: Episodes): set<Hash> {
    set i | i in table && table[i].mine :: table[i].hash
  }

  /** The record's own id or, while that is taken, a new one; the seventh taken id is an error. */
  function FreeId(table: Episodes, id: Id, retry: Retry, k: nat, attempt: nat): (r: Option<Id>)
    ensures r.Some? ==> r.value !in table
    ensures id !in table ==> r == Some(id)
    decreases if attempt > 5 then 0 else 6 - attempt
  {
    if id !in table then Some(id)
    else if attempt > 5 then None
    else FreeId(table, Draw(retry, k, attempt), retry, k, attempt + 1)
  }

  /** No free id is found just when the record's own and six drawn ones are all taken. */
  lemma {:induction false} NoFreeIdIff(table: Episodes, id: Id, retry: Retry, k: nat, attempt: nat)
    requires attempt <= 6
    ensures FreeId(table, id, retry, k, attempt).None? <==> id in table && forall a :: attempt <= a < 6 ==> Draw(retry, k, a) in table
    decreases 6 - attempt
  {
    if attempt < 6 {
      NoFreeIdIff(table, Draw(retry, k, attempt), retry, k, attempt + 1);
    }
  }

  /** idMap holds the ids that changed; placed, where every imported record went. */
  datatype Progress = Progress(table: Episodes, hashes: set<Hash>, idMap: map<Id, Id>, placed: map<nat, Id>)

  function Follow(idMap: map<Id, Id>, id: Id): Id {
    if id in idMap then idMap[id] else id
  }

  function FollowRef(idMap: map<Id, Id>, refersTo: Option<Id>): Option<Id> {
    match refersTo
    case None => None
    case Some(id) => Some(Follow(idMap, id))
  }

  /** The foreign key: a row may refer to itself or to a row of any scope. */
  predicate RefersToARow(table: Episodes, id: Id, refersTo: Option<Id>) {
    refersTo.Some? ==> refersTo.value in table || refersTo.value == id
  }

  /** One record: skipped when its hash is known, an error without a free id or a row to refer to. */
  function AddEpisode(p: Progress, r: EpisodeRecord, k: nat, retry: Retry): Option<Progress> {
    if r.hash in p.hashes then Some(p)
    else
      var refersTo := FollowRef(p.idMap, r.refersTo);
      match FreeId(p.table, r.id, retry, k, 0)
      case None => None
      case Some(id) =>
        if !RefersToARow(p.table, id, refersTo) then None
        else
          Some(Progress(p.table[id := Episode(true, r.hash, refersTo)],
                        p.hashes + {r.hash},
                        if id != r.id then p.idMap[r.id := id] else p.idMap,
                        p.placed[k := id]))
  }

  function Before(table: Episodes): Progress {
    Progress(table, OwnHashes(table), map[], map[])
  }

  /** The transaction: all records, or None and nothing. */
  function AddEpisodes(table: Episodes, records: seq<EpisodeRecord>, retry: Retry, n: nat): Option<Progress>
    requires n <= |records|
  {
    if n == 0 then Some(Before(table))
    else
      match AddEpisodes(table, records, retry, n - 1)
      case None => None
      case Some(p) => AddEpisode(p, records[n - 1], n - 1, retry)
  }

  method ImportEpisodes(table: Episodes, records: seq<EpisodeRecord>, retry: Retry)
    returns (r: Option<Episodes>, imported: nat, skipped: nat)
    ensures var p := AddEpisodes(table, records, retry, |records|);
            && (r.Some? <==> p.Some?)
            && (r.Some? ==> r.value == p.value.table && imported == |p.value.placed.Keys| && imported + skipped == |records|)
  {
    imported, skipped := 0, 0;
    var now: Episodes, hashes: set<Hash>, idMap: map<Id, Id> := table, OwnHashes(table), map[];
    ghost var placed: map<nat, Id> := map[];
    for k := 0 to |records|
      invariant AddEpisodes(table, records, retry, k) == Some(Progress(now, hashes, idMap, placed))
      invariant imported == |placed.Keys| && imported + skipped == k && forall j :: j in placed ==> j < k
    {
      if records[k].hash in hashes {
        skipped := skipped + 1;
      } else {
        var ok;
        ok, now, hashes, idMap, placed := ImportOne(now, hashes, idMap, placed, records[k], k, retry);
        if !ok {
          StaysFailed(table, records, retry, k + 1, |records|);
          return None, 0, 0;
        }
        imported := imported + 1;
      }
    }
    r := Some(now);
  }

  /** The rest of the loop's body: the row, its hash, and its id if that had to change. */
  method ImportOne(table: Episodes, hashes: set<Hash>, idMap: map<Id, Id>, ghost placed: map<nat, Id>,
                   r: EpisodeRecord, k: nat, retry: Retry)
    returns (ok: bool, table': Episodes, hashes': set<Hash>, idMap': map<Id, Id>, ghost placed': map<nat, Id>)
    requires r.hash !in hashes && k !in placed
    ensures var added := AddEpisode(Progress(table, hashes, idMap, placed), r, k, retry);
            if ok then added == Some(Progress(table', hashes', idMap', placed')) else added == None
    ensures ok ==> placed'.Keys == placed.Keys + {k} && |placed'.Keys| == |placed.Keys| + 1
  {
    table', hashes', idMap', placed' := table, hashes, idMap, placed;
    var refersTo := FollowRef(idMap, r.refersTo);
    var id := InsertWithRetry(table, r, k, retry);
    ok := id.Some? && RefersToARow(table, id.value, refersTo);
    if ok {
      table' := table[id.value := Episode(true, r.hash, refersTo)];
      if id.value != r.id {
        idMap' := idMap[r.id := id.value];
      }
      hashes' := hashes + {r.hash};
      placed' := placed[k := id.value];
      assert placed'.Keys == placed.Keys + {k};
    }
  }

  /** The insert loop: on conflict do nothing, and another id, up to seven times. */
  method InsertWithRetry(table: Episodes, r: EpisodeRecord, k: nat, retry: Retry) returns (id: Option<Id>)
    ensures id == FreeId(table, r.id, retry, k, 0)
  {
    var candidate, attempt := r.id, 0;
    while candidate in table
      invariant attempt <= 6
      invariant FreeId(table, r.id, retry, k, 0) == FreeId(table, candidate, retry, k, attempt)
      decreases 7 - attempt
    {
      if attempt > 5 {
        return None;
      }
      candidate := Draw(retry, k, attempt);
      attempt := attempt + 1;
    }
    id := Some(candidate);
  }

  lemma {:induction false} StaysFailed(table: Episodes, records: seq<EpisodeRecord>, retry: Retry, k: nat, n: nat)
    requires k <= n <= |records| && AddEpisodes(table, records, retry, k).None?
    ensures AddEpisodes(table, records, retry, n).None?
  {
    if k < n {
      StaysFailed(table, records, retry, k, n - 1);
    }
  }

  /** The hashes of the first n records. */
  function RecordHashes(records: seq<EpisodeRecord>, n: nat): (hashes: set<Hash>)
    requires n <= |records|
    ensures forall k :: 0 <= k < n ==> records[k].hash in hashes
    ensures forall h :: h in hashes ==> exists k :: 0 <= k < n && records[k].hash == h
  {
    if n == 0 then {} else RecordHashes(records, n - 1) + {records[n - 1].hash}
  }

  /** The record brings a hash that neither the scope nor an earlier record has. */
  predicate IsNew(table: Episodes, records: seq<EpisodeRecord>, k: nat)
    requires k < |records|
  {
    records[k].hash !in OwnHashes(table) && records[k].hash !in RecordHashes(records, k)
  }

  /** Of the first n records exactly the new ones are placed, each in a row of its own that says so. */
  ghost predicate PlacedOk(table: Episodes, records: seq<EpisodeRecord>, p: Progress, n: nat, k: nat)
    requires n <= |records|
  {
    && (k in p.placed <==> k < n && IsNew(table, records, k))
    && (k in p.placed ==>
          && p.placed[k] !in table && p.placed[k] in p.table
          && p.table[p.placed[k]].mine && p.table[p.placed[k]].hash == records[k].hash)
  }

  /** A row is an old one, unchanged, or one that a record was placed in. */
  ghost predicate RowKnown(table: Episodes, p: Progress, id: Id)
    requires id in p.table
  {
    if id in table then p.table[id] == table[id] else exists k :: k in p.placed && p.placed[k] == id
  }

  ghost predicate Recorded(table: Episodes, records: seq<EpisodeRecord>, p: Progress, n: nat)
    requires n <= |records|
  {
    && p.hashes == OwnHashes(p.table) == OwnHashes(table) + RecordHashes(records, n)
    && table.Keys <= p.table.Keys
    && (forall k: nat :: PlacedOk(table, records, p, n, k))
    && (forall id :: id in p.table ==> RowKnown(table, p, id))
  }

  /**
    What an import of episodes leaves: nothing old is changed, one new episode is
    added for the first record of every hash the scope did not have, and no other.
   */
  lemma {:induction false} EpisodesRecorded(table: Episodes, records: seq<EpisodeRecord>, retry: Retry, n: nat)
    requires n <= |records| && AddEpisodes(table, records, retry, n).Some?
    ensures Recorded(table, records, AddEpisodes(table, records, retry, n).value, n)
  {
    if n > 0 {
      EpisodesRecorded(table, records, retry, n - 1);
      var p := AddEpisodes(table, records, retry, n - 1).value;
      EpisodeRecorded(table, records, p, n - 1, retry, AddEpisodes(table, records, retry, n).value);
    }
  }

  lemma EpisodeRecorded(table: Episodes, records: seq<EpisodeRecord>, p: Progress, k: nat, retry: Retry, q: Progress)
    requires k < |records| && Recorded(table, records, p, k) && AddEpisode(p, records[k], k, retry) == Some(q)
    ensures Recorded(table, records, q, k + 1)
  {
    var n := k + 1;
    if q != p {
      NewHash(p.table, q.placed[k], q.table[q.placed[k]]);
    }
    forall j: nat ensures PlacedOk(table, records, q, n, j) {
      assert PlacedOk(table, records, p, k, j);
    }
    assert PlacedOk(table, records, p, k, k);
    forall id | id in q.table ensures RowKnown(table, q, id) {
      RowStaysKnown(table, p, k, q, id);
    }
  }

  lemma RowStaysKnown(table: Episodes, p: Progress, k: nat, q: Progress, id: Id)
    requires table.Keys <= p.table.Keys && id in q.table && k !in p.placed
    requires q == p || (k in q.placed && q.placed == p.placed[k := q.placed[k]] && q.placed[k] !in p.table
                        && q.table.Keys == p.table.Keys + {q.placed[k]}
                        && forall i :: i in p.table ==> q.table[i] == p.table[i])
    requires id in p.table ==> RowKnown(table, p, id)
    ensures RowKnown(table, q, id)
  {
    if id in p.table && id !in table {
      var j :| j in p.placed && p.placed[j] == id;
      assert j in q.placed && q.placed[j] == id;
    }
  }

  lemma NewHash(table: Episodes, id: Id, e: Episode)
    requires id !in table && e.mine
    ensures OwnHashes(table[id := e]) == OwnHashes(table) + {e.hash}
  {
    var after := table[id := e];
    forall h | h in OwnHashes(table) + {e.hash} ensures h in OwnHashes(after) {
      if h == e.hash {
        assert after[id].hash == h;
      } else {
        var i :| i in table && table[i].mine && table[i].hash == h;
        assert after[i] == table[i];
      }
    }
  }

  /**
    Every record is kept exactly when their hashes are new to the scope and differ
    from one another. Feedback episodes all carry the same, empty hash, so of
    them an import keeps one.
   */
  lemma AllEpisodesKeptIff(table: Episodes, records: seq<EpisodeRecord>, retry: Retry)
    requires AddEpisodes(table, records, retry, |records|).Some?
    ensures |AddEpisodes(table, records, retry, |records|).value.placed.Keys| == |records|
            <==> && (forall k :: 0 <= k < |records| ==> records[k].hash !in OwnHashes(table))
                 && (forall j, k :: 0 <= j < k < |records| ==> records[j].hash != records[k].hash)
  {
    EpisodesRecorded(table, records, retry, |records|);
    AllPlacedIff(table, records, AddEpisodes(table, records, retry, |records|).value);
  }

  lemma AllPlacedIff(table: Episodes, records: seq<EpisodeRecord>, p: Progress)
    requires Recorded(table, records, p, |records|)
    ensures |p.placed.Keys| == |records|
            <==> && (forall k :: 0 <= k < |records| ==> records[k].hash !in OwnHashes(table))
                 && (forall j, k :: 0 <= j < k < |records| ==> records[j].hash != records[k].hash)
  {
    PlacedAreNew(table, records, p);
    FullIff(p.placed.Keys, |records|);
    AllNewIff(table, records);
  }

  lemma PlacedAreNew(table: Episodes, records: seq<EpisodeRecord>, p: Progress)
    requires Recorded(table, records, p, |records|)
    ensures forall k: nat :: k in p.placed.Keys <==> k < |records| && IsNew(table, records, k)
  {
    forall k: nat ensures k in p.placed.Keys <==> k < |records| && IsNew(table, records, k) {
      assert PlacedOk(table, records, p, |records|, k);
    }
  }

  lemma FullIff(s: set<nat>, n: nat)
    requires forall k :: k in s ==> k < n
    ensures |s| == n <==> forall k: nat :: k < n ==> k in s
  {
    if |s| == n {
      SameSize(s, UpTo(n));
    }
    if forall k: nat :: k < n ==> k in s {
      assert s == UpTo(n);
    }
  }

  lemma AllNewIff(table: Episodes, records: seq<EpisodeRecord>)
    ensures (forall k: nat :: k < |records| ==> IsNew(table, records, k))
            <==> && (forall k :: 0 <= k < |records| ==> records[k].hash !in OwnHashes(table))
                 && (forall j, k :: 0 <= j < k < |records| ==> records[j].hash != records[k].hash)
  {
    if forall k: nat :: k < |records| ==> IsNew(table, records, k) {
      forall k | 0 <= k < |records| ensures records[k].hash !in OwnHashes(table) {
        assert IsNew(table, records, k);
      }
      forall j, k | 0 <= j < k < |records| ensures records[j].hash != records[k].hash {
        assert IsNew(table, records, k);
      }
    }
  }

  function UpTo(n: nat): (s: set<nat>)
    ensures |s| == n && forall k: nat :: k in s <==> k < n
  {
    if n == 0 then {} else UpTo(n - 1) + {n - 1}
  }

  lemma {:induction false} SameSize(a: set<nat>, b: set<nat>)
    requires a <= b && |a| == |b|
    ensures a == b
  {
    if a == {} {
      assert |b| == 0;
      assert b == {};
    } else {
      var x :| x in a;
      SameSize(a - {x}, b - {x});
      assert a == (a - {x}) + {x};
      assert b == (b - {x}) + {x};
    }
  }

  /** A bundle whose hashes the scope already has adds nothing. */
  lemma {:induction false} EpisodesSettled(table: Episodes, records: seq<EpisodeRecord>, retry: Retry, n: nat)
    requires n <= |records| && forall k :: 0 <= k < n ==> records[k].hash in OwnHashes(table)
    ensures AddEpisodes(table, records, retry, n) == Some(Before(table))
  {
    if n > 0 {
      EpisodesSettled(table, records, retry, n - 1);
    }
  }

  // --- The whole bundle --------------------------------------------------------------------

  datatype File = File(place: Place, records: seq<SummaryRecord>)

  datatype Bundle = Bundle(entities: seq<EntityRecord>, files: seq<File>, episodes: seq<EpisodeRecord>)

  /** episodes is the table of all scopes. */
  datatype Scope = Scope(entities: Entities, summaries: Store, episodes: Episodes)

  predicate IsEmpty(s: Scope) {
    s.entities == map[] && s.summaries == [] && forall i :: i in s.episodes ==> !s.episodes[i].mine
  }

  /** Every file is a transaction of its own; the first that fails ends the import, and what was loaded stays. */
  function AddFiles(rows: Store, files: seq<File>, n: nat): (Store, bool)
    requires n <= |files|
  {
    if n == 0 then (rows, true)
    else
      var (r, ok) := AddFiles(rows, files, n - 1);
      if !ok then (r, false)
      else
        match ImportFile(r, files[n - 1].place, LinksOf(files[n - 1].records))
        case None => (r, false)
        case Some(r') => (r', true)
  }

  function ImportScope(s: Scope, b: Bundle, merge: bool, retry: Retry): (Scope, bool) {
    if !merge && !IsEmpty(s) then (s, false)
    else
      var s1 := s.(entities := AddEntities(s.entities, b.entities, |b.entities|));
      var (rows, ok) := AddFiles(s1.summaries, b.files, |b.files|);
      var s2 := s1.(summaries := rows);
      if !ok then (s2, false)
      else
        match AddEpisodes(s2.episodes, b.episodes, retry, |b.episodes|)
        case None => (s2, false)
        case Some(p) => (s2.(episodes := p.table), true)
  }

  lemma {:induction false} FilesAdded(rows: Store, files: seq<File>, n: nat)
    requires Forest(rows) && n <= |files| && AddFiles(rows, files, n).1
    ensures var r := AddFiles(rows, files, n).0;
            && Forest(r) && rows <= r
            && forall i :: 0 <= i < n && files[i].records != [] ==> Count(r, files[i].place) > 0
  {
    if n > 0 {
      FilesAdded(rows, files, n - 1);
      var before, f := AddFiles(rows, files, n - 1).0, files[n - 1];
      var r := AddFiles(rows, files, n).0;
      if Count(before, f.place) == 0 {
        InsertedRows(before, f.place, LinksOf(f.records), |f.records|, r);
      }
      assert before <= r;
      forall i | 0 <= i < n && files[i].records != [] ensures Count(r, files[i].place) > 0 {
        if i < n - 1 {
          CountsStay(before, r, files[i].place);
        }
      }
    }
  }

  lemma {:induction false} CountsStay(rows: Store, rows': Store, place: Place)
    requires rows <= rows'
    ensures Count(rows, place) <= Count(rows', place)
    decreases |rows'|
  {
    if |rows| < |rows'| {
      CountsStay(rows, rows'[..|rows'| - 1], place);
    } else {
      assert rows == rows';
    }
  }

  lemma {:induction false} FilesSettled(rows: Store, files: seq<File>, n: nat)
    requires n <= |files| && forall i :: 0 <= i < n && files[i].records != [] ==> Count(rows, files[i].place) > 0
    ensures AddFiles(rows, files, n) == (rows, true)
  {
    if n > 0 {
      FilesSettled(rows, files, n - 1);
      if files[n - 1].records == [] {
        assert LinksOf(files[n - 1].records) == [];
      }
    }
  }

  /** The file has been loaded: its period had rows already, or has the file's records as its versions. */
  ghost predicate FileLoaded(rows: Store, r: Store, f: File) {
    || f.records == [] || Count(rows, f.place) > 0
    || exists before, after :: before <= after <= r && Inserted(before, f.place, LinksOf(f.records), after, |f.records|)
  }

  lemma {:induction false} FilesLoaded(rows: Store, files: seq<File>, n: nat)
    requires Forest(rows) && n <= |files| && AddFiles(rows, files, n).1
    ensures forall i :: 0 <= i < n ==> FileLoaded(rows, AddFiles(rows, files, n).0, files[i]) || exists j :: 0 <= j < i && files[j].place == files[i].place
  {
    if n > 0 {
      FilesLoaded(rows, files, n - 1);
      FilesAdded(rows, files, n - 1);
      FilesAdded(rows, files, n);
      var before, r, f := AddFiles(rows, files, n - 1).0, AddFiles(rows, files, n).0, files[n - 1];
      if Count(before, f.place) == 0 {
        InsertedRows(before, f.place, LinksOf(f.records), |f.records|, r);
        assert FileLoaded(rows, r, f);
      } else if Count(rows, f.place) == 0 {
        LoadedByAnother(rows, files, n - 1, f.place);
      }
      assert before <= r;
      forall i | 0 <= i < n ensures FileLoaded(rows, r, files[i]) || exists j :: 0 <= j < i && files[j].place == files[i].place {
        if i < n - 1 && FileLoaded(rows, before, files[i]) && files[i].records != [] && Count(rows, files[i].place) == 0 {
          var b, a :| b <= a <= before && Inserted(b, files[i].place, LinksOf(files[i].records), a, |files[i].records|);
          assert b <= a <= r;
        }
      }
    }
  }

  lemma {:induction false} LoadedByAnother(rows: Store, files: seq<File>, n: nat, place: Place)
    requires Forest(rows) && n <= |files| && AddFiles(rows, files, n).1
    requires Count(rows, place) == 0 && Count(AddFiles(rows, files, n).0, place) > 0
    ensures exists j :: 0 <= j < n && files[j].place == place
  {
    if files[n - 1].place != place {
      var before, f := AddFiles(rows, files, n - 1).0, files[n - 1];
      FilesAdded(rows, files, n - 1);
      if Count(before, f.place) == 0 {
        OtherLinksKeepCount(before, f.place, LinksOf(f.records), |f.records|, place);
      }
      LoadedByAnother(rows, files, n - 1, place);
    }
  }

  /**
    What an import of a bundle leaves when it succeeds: all entities, every period
    that had no summaries with the versions of its first file, all episodes with a
    new hash; and nothing that was there before is changed.
   */
  lemma ImportedScope(s: Scope, b: Bundle, merge: bool, retry: Retry)
    requires Forest(s.summaries) && ImportScope(s, b, merge, retry).1
    ensures var s' := ImportScope(s, b, merge, retry).0;
            && (merge || IsEmpty(s))
            && EntitiesMerged(s.entities, b.entities, |b.entities|, s'.entities)
            && s.summaries <= s'.summaries && Forest(s'.summaries)
            && (forall i :: 0 <= i < |b.files| ==>
                  FileLoaded(s.summaries, s'.summaries, b.files[i]) || exists j :: 0 <= j < i && b.files[j].place == b.files[i].place)
            && (exists p :: Recorded(s.episodes, b.episodes, p, |b.episodes|) && s'.episodes == p.table)
  {
    EntitiesAdded(s.entities, b.entities, |b.entities|);
    FilesAdded(s.summaries, b.files, |b.files|);
    FilesLoaded(s.summaries, b.files, |b.files|);
    EpisodesRecorded(s.episodes, b.episodes, retry, |b.episodes|);
  }

  /** Without merge a scope that has anything is left alone. */
  lemma NonEmptyIsRefused(s: Scope, b: Bundle, retry: Retry)
    requires s.entities != map[] || s.summaries != [] || exists i :: i in s.episodes && s.episodes[i].mine
    ensures ImportScope(s, b, false, retry) == (s, false)
  {
  }

  /** Importing the same bundle again with merge changes nothing, whatever the bundle holds. */
  lemma ReimportChangesNothing(s: Scope, b: Bundle, merge: bool, retry: Retry, again: Retry)
    requires Forest(s.summaries) && ImportScope(s, b, merge, retry).1
    ensures var s' := ImportScope(s, b, merge, retry).0;
            ImportScope(s', b, true, again) == (s', true)
  {
    var s' := ImportScope(s, b, merge, retry).0;
    EntitiesAdded(s.entities, b.entities, |b.entities|);
    EntitiesSettled(s'.entities, b.entities, |b.entities|);
    FilesAdded(s.summaries, b.files, |b.files|);
    FilesSettled(s'.summaries, b.files, |b.files|);
    EpisodesRecorded(s.episodes, b.episodes, retry, |b.episodes|);
    forall k | 0 <= k < |b.episodes| ensures b.episodes[k].hash in OwnHashes(s'.episodes) {
      assert b.episodes[k].hash in RecordHashes(b.episodes, |b.episodes|);
    }
    EpisodesSettled(s'.episodes, b.episodes, again, |b.episodes|);
  }
}
