/**
  internal/hpmf/import.go and the grouping of export.go: what loading an exported
  bundle into a scope does to its entities, summaries and episodes. Ids and
  hashes matter only by equality.
 */
module BundleImport {
  import opened Basics
  import opened SummaryChains
  import opened SummaryRuns

  type Id = nat

  type Hash = nat

  // --- Summaries: one file per level and period ------------------------------------------

  datatype SummaryRecord = SummaryRecord(id: Id, supersedes: Option<Id>, sources: seq<Period>, at: nat)

  /** idMap: the last of the first n records with an id. */
  function LastWith(records: seq<SummaryRecord>, id: Id, n: nat): (j: Option<nat>)
    requires n <= |records|
    ensures j.Some? ==> j.value < n && records[j.value].id == id
    ensures j.Some? ==> forall m :: j.value < m < n ==> records[m].id != id
    ensures j.None? ==> forall m :: 0 <= m < n ==> records[m].id != id
  {
    if n == 0 then None
    else if records[n - 1].id == id then Some(n - 1)
    else LastWith(records, id, n - 1)
  }

  function LinkOf(records: seq<SummaryRecord>, k: nat): Link
    requires k < |records|
  {
    var target := match records[k].supersedes case None => None case Some(id) => LastWith(records, id, k);
    Link(target, records[k].sources, records[k].at)
  }

  function LinksOf(records: seq<SummaryRecord>): seq<Link> {
    seq(|records|, k requires 0 <= k < |records| => LinkOf(records, k))
  }

  /** The record names a predecessor that is not in the file before it. */
  predicate IsDangling(records: seq<SummaryRecord>, k: nat)
    requires k < |records|
  {
    records[k].supersedes.Some? && LinkOf(records, k).supersedes.None?
  }

  function Dangling(records: seq<SummaryRecord>, n: nat): nat
    requires n <= |records|
  {
    if n == 0 then 0 else Dangling(records, n - 1) + if IsDangling(records, n - 1) then 1 else 0
  }

  /** The record names a predecessor, and no record before it has that id. */
  ghost predicate IsLost(records: seq<SummaryRecord>, k: nat) {
    k < |records| && exists id :: records[k].supersedes == Some(id) && forall j :: 0 <= j < k ==> records[j].id != id
  }

  ghost function Lost(records: seq<SummaryRecord>, n: nat): set<nat> {
    set k: nat | k < n && IsLost(records, k)
  }

  lemma LostOneMore(records: seq<SummaryRecord>, n: nat)
    requires 0 < n
    ensures Lost(records, n) == Lost(records, n - 1) + if IsLost(records, n - 1) then {n - 1} else {}
  {
  }

  lemma {:induction false} DanglingAreLost(records: seq<SummaryRecord>, n: nat)
    requires n <= |records|
    ensures Dangling(records, n) == |Lost(records, n)|
  {
    if n > 0 {
      DanglingAreLost(records, n - 1);
      LostIffDangling(records, n - 1);
      LostOneMore(records, n);
    } else {
      assert Lost(records, n) == {};
    }
  }

  lemma LostIffDangling(records: seq<SummaryRecord>, k: nat)
    requires k < |records|
    ensures IsLost(records, k) <==> IsDangling(records, k)
  {
    if records[k].supersedes.Some? {
      var found := LastWith(records, records[k].supersedes.value, k);
    }
  }

  lemma {:induction false} CountedIff(rows: Store, place: Place)
    ensures Count(rows, place) > 0 <==> exists i :: 0 <= i < |rows| && rows[i].place == place
  {
    if rows != [] {
      var init := rows[..|rows| - 1];
      CountedIff(init, place);
      if i :| 0 <= i < |rows| && rows[i].place == place {
        assert i < |init| ==> init[i].place == place;
      }
      if Count(init, place) > 0 {
        var i :| 0 <= i < |init| && init[i].place == place;
        assert rows[i].place == place;
      } else if rows[|rows| - 1].place == place {
        assert rows[|init|].place == place;
      }
    }
  }

  datatype FileStats = FileStats(imported: nat, skipped: nat, dangling: nat)

  /** The map built while inserting: where each exported id went. */
  ghost predicate Maps(idMap: map<Id, nat>, records: seq<SummaryRecord>, base: nat, k: nat)
    requires k <= |records|
  {
    forall id :: MapsId(idMap, records, base, k, id)
  }

  ghost predicate MapsId(idMap: map<Id, nat>, records: seq<SummaryRecord>, base: nat, k: nat, id: Id)
    requires k <= |records|
  {
    var j := LastWith(records, id, k);
    if j.Some? then id in idMap && idMap[id] == base + j.value else id !in idMap
  }

  lemma MapsOneMore(idMap: map<Id, nat>, records: seq<SummaryRecord>, base: nat, k: nat)
    requires k < |records| && Maps(idMap, records, base, k)
    ensures Maps(idMap[records[k].id := base + k], records, base, k + 1)
  {
    var idMap' := idMap[records[k].id := base + k];
    var n := k + 1;
    forall id ensures MapsId(idMap', records, base, n, id) {
      assert MapsId(idMap, records, base, k, id);
    }
  }

  ghost predicate HasRows(rows: Store, place: Place) {
    exists i :: 0 <= i < |rows| && rows[i].place == place
  }

  /** A period with rows is left alone; into an empty one all records go, and those whose predecessor is lost are counted. */
  ghost predicate FileDone(rows: Store, place: Place, records: seq<SummaryRecord>, r: Store, stats: FileStats) {
    if HasRows(rows, place) then r == rows && stats == FileStats(0, |records|, 0)
    else
      && stats == FileStats(|records|, 0, |Lost(records, |records|)|)
      && (Forest(rows) ==> Inserted(rows, place, LinksOf(records), r, |records|))
  }

  lemma SkippedIsDone(rows: Store, place: Place, records: seq<SummaryRecord>)
    requires Count(rows, place) > 0
    ensures FileDone(rows, place, records, rows, FileStats(0, |records|, 0))
  {
    CountedIff(rows, place);
  }

  lemma LoadedIsDone(rows: Store, place: Place, records: seq<SummaryRecord>, r: Store, dangling: nat)
    requires Count(rows, place) == 0 && InsertLinks(rows, place, LinksOf(records), |records|) == Some(r)
    requires dangling == Dangling(records, |records|)
    ensures FileDone(rows, place, records, r, FileStats(|records|, 0, dangling))
  {
    CountedIff(rows, place);
    DanglingAreLost(records, |records|);
    if Forest(rows) {
      InsertedRows(rows, place, LinksOf(records), |records|, r);
    }
  }

  /** None is a failed transaction: nothing of the file stays. */
  method ImportSummaryFile(rows: Store, place: Place, records: seq<SummaryRecord>) returns (r: Option<Store>, stats: FileStats)
    ensures r == ImportFile(rows, place, LinksOf(records))
    ensures r.Some? ==> stats == if Count(rows, place) > 0 then FileStats(0, |records|, 0)
                                 else FileStats(|records|, 0, Dangling(records, |records|))
    ensures r.Some? ==> FileDone(rows, place, records, r.value, stats)
  {
    if Count(rows, place) > 0 {
      SkippedIsDone(rows, place, records);
      return Some(rows), FileStats(0, |records|, 0);
    }
    var idMap: map<Id, nat> := map[];
    var table, dangling := rows, 0;
    for k := 0 to |records|
      invariant InsertLinks(rows, place, LinksOf(records), k) == Some(table) && |table| == |rows| + k
      invariant Maps(idMap, records, |rows|, k)
      invariant dangling == Dangling(records, k)
    {
      var supersedes := Remap(idMap, records, |rows|, k);
      if records[k].supersedes.Some? && supersedes.None? {
        dangling := dangling + 1;
      }
      OneRecord(rows, place, records, k, table);
      var inserted := Insert(table, place, supersedes, records[k].sources, records[k].at);
      if inserted.None? {
        return None, FileStats(0, 0, 0);
      }
      MapsOneMore(idMap, records, |rows|, k);
      idMap := idMap[records[k].id := |table|];
      table := inserted.value;
    }
    r, stats := Some(table), FileStats(|records|, 0, dangling);
    LoadedIsDone(rows, place, records, table, dangling);
  }

  lemma OneRecord(rows: Store, place: Place, records: seq<SummaryRecord>, k: nat, table: Store)
    requires k < |records| && InsertLinks(rows, place, LinksOf(records), k) == Some(table)
    ensures var link := Resolve(|rows|, LinksOf(records), k);
            var next := InsertLinks(rows, place, LinksOf(records), k + 1);
            && next == Insert(table, place, link, records[k].sources, records[k].at)
            && (next.Some? ==> |next.value| == |table| + 1)
            && (next.None? ==> InsertLinks(rows, place, LinksOf(records), |records|).None?)
  {
    if InsertLinks(rows, place, LinksOf(records), k + 1).None? {
      NeverMind(rows, place, LinksOf(records), k + 1, |records|);
    }
  }

  /** The predecessor's new id, if the file has had it by now. */
  method Remap(idMap: map<Id, nat>, records: seq<SummaryRecord>, base: nat, k: nat) returns (supersedes: Option<nat>)
    requires k < |records| && Maps(idMap, records, base, k)
    ensures supersedes == Resolve(base, LinksOf(records), k)
    ensures records[k].supersedes.Some? && supersedes.None? <==> IsDangling(records, k)
  {
    supersedes := None;
    if records[k].supersedes.Some? {
      var id := records[k].supersedes.value;
      assert MapsId(idMap, records, base, k, id);
      if id in idMap {
        supersedes := Some(idMap[id]);
      }
    }
  }

  /** A file that failed at one record has failed. */
  lemma {:induction false} NeverMind(rows: Store, place: Place, links: seq<Link>, k: nat, n: nat)
    requires k <= n <= |links| && InsertLinks(rows, place, links, k).None?
    ensures InsertLinks(rows, place, links, n).None?
  {
    if k < n {
      NeverMind(rows, place, links, k, n - 1);
    }
  }

  /** Two records of the file name the same predecessor. */
  ghost predicate SharesPredecessor(links: seq<Link>, base: nat, j: nat, k: nat) {
    j < k < |links| && Resolve(base, links, j).Some? && Resolve(base, links, j) == Resolve(base, links, k)
  }

  /** The k-th row that a file added. */
  ghost predicate InsertedAs(rows: Store, place: Place, links: seq<Link>, r: Store, k: nat)
    requires k < |links|
  {
    && |rows| + k < |r|
    && r[|rows| + k] == Summary(place, k + 1, Resolve(|rows|, links, k), links[k].sources, links[k].at)
  }

  ghost predicate Inserted(rows: Store, place: Place, links: seq<Link>, r: Store, n: nat)
    requires n <= |links|
  {
    && Forest(r) && |r| == |rows| + n && rows <= r && Count(r, place) == n
    && forall k: nat :: k < n ==> InsertedAs(rows, place, links, r, k)
  }

  /** What the inserted rows are, one by one. */
  lemma {:induction false} InsertedRows(rows: Store, place: Place, links: seq<Link>, n: nat, r: Store)
    requires Forest(rows) && n <= |links| && Count(rows, place) == 0 && InsertLinks(rows, place, links, n) == Some(r)
    ensures Inserted(rows, place, links, r, n)
  {
    if n > 0 {
      var before, link := LastLink(rows, place, links, n);
      InsertedRows(rows, place, links, n - 1, before);
      OneMoreInserted(rows, place, links, n - 1, before, r);
    }
  }

  lemma OneMoreInserted(rows: Store, place: Place, links: seq<Link>, k: nat, before: Store, r: Store)
    requires k < |links| && Inserted(rows, place, links, before, k)
    requires var link := Resolve(|rows|, links, k);
             Linkable(before, place, link) && Insert(before, place, link, links[k].sources, links[k].at) == Some(r)
    ensures Inserted(rows, place, links, r, k + 1)
  {
    var link := Resolve(|rows|, links, k);
    MaxVersionIsCount(before, place);
    OneLinkIsLinearIff(before, place, link, links[k].sources, links[k].at);
    InsertAdds(before, place, link, links[k].sources, links[k].at);
    forall j: nat | j < k + 1 ensures InsertedAs(rows, place, links, r, j) {
      if j < k {
        assert InsertedAs(rows, place, links, before, j);
      }
    }
  }

  /** A file into an empty level and period is loaded as a whole exactly when no two of its records share a predecessor. */
  lemma {:induction false} FileLoadsIff(rows: Store, place: Place, links: seq<Link>, n: nat)
    requires Forest(rows) && n <= |links| && Count(rows, place) == 0
    ensures InsertLinks(rows, place, links, n).Some?
            <==> forall j: nat, k: nat :: k < n ==> !SharesPredecessor(links, |rows|, j, k)
  {
    if n > 0 {
      var last := n - 1;
      FileLoadsIff(rows, place, links, last);
      if InsertLinks(rows, place, links, last).Some? {
        LastRecordLoadsIff(rows, place, links, last);
      } else {
        NeverMind(rows, place, links, last, n);
      }
      assert forall j: nat, k: nat :: k < n && SharesPredecessor(links, |rows|, j, k) ==> k < last || k == last;
    }
  }

  lemma LastRecordLoadsIff(rows: Store, place: Place, links: seq<Link>, last: nat)
    requires Forest(rows) && last < |links| && Count(rows, place) == 0 && InsertLinks(rows, place, links, last).Some?
    ensures InsertLinks(rows, place, links, last + 1).Some? <==> forall j: nat :: !SharesPredecessor(links, |rows|, j, last)
  {
    var r := InsertLinks(rows, place, links, last).value;
    InsertedRows(rows, place, links, last, r);
    var target := Resolve(|rows|, links, last);
    if target.Some? && Superseded(r, target.value) {
      var i: nat :| i < |r| && r[i].supersedes == target;
      if i < |rows| {
        OldLinksAreOld(rows, r, i);
      } else {
        assert InsertedAs(rows, place, links, r, i - |rows|);
        assert SharesPredecessor(links, |rows|, i - |rows|, last);
      }
    } else {
      forall j: nat ensures !SharesPredecessor(links, |rows|, j, last) {
        if j < last {
          assert InsertedAs(rows, place, links, r, j);
        }
      }
    }
  }

  /** Old rows supersede old rows only. */
  lemma OldLinksAreOld(rows: Store, r: Store, i: nat)
    requires Forest(rows) && rows <= r && i < |rows|
    ensures r[i].supersedes.Some? ==> r[i].supersedes.value < |rows|
  {
    assert RowOk(rows, i) && r[i] == rows[i];
  }

  /** Record j comes before record k and no record between them has its id. */
  ghost predicate LastBefore(records: seq<SummaryRecord>, j: nat, k: nat) {
    j < k < |records| && forall m :: j < m < k ==> records[m].id != records[j].id
  }

  /**
    A loaded file has its supersedes links renamed onto versions 1..n: version k + 1
    supersedes version j + 1 exactly when record k names record j and that is the
    last one before it with its id; all other links are lost, and those are the ones counted.
   */
  lemma LoadedFileIsRenamed(rows: Store, place: Place, records: seq<SummaryRecord>, j: nat, k: nat, r: Store)
    requires Forest(rows) && Count(rows, place) == 0 && j < |records| && k < |records|
    requires InsertLinks(rows, place, LinksOf(records), |records|) == Some(r)
    ensures |r| == |rows| + |records| && Forest(r)
    ensures r[|rows| + k].place == place && r[|rows| + k].version == k + 1
    ensures r[|rows| + k].supersedes == Some(|rows| + j)
            <==> records[k].supersedes == Some(records[j].id) && LastBefore(records, j, k)
    ensures r[|rows| + k].supersedes.None? <==> records[k].supersedes.None? || IsDangling(records, k)
  {
    InsertedRow(rows, place, LinksOf(records), r, k);
    LinkNames(|rows|, records, j, k);
  }

  lemma InsertedRow(rows: Store, place: Place, links: seq<Link>, r: Store, k: nat)
    requires Forest(rows) && Count(rows, place) == 0 && k < |links|
    requires InsertLinks(rows, place, links, |links|) == Some(r)
    ensures |r| == |rows| + |links| && Forest(r)
    ensures r[|rows| + k].place == place && r[|rows| + k].version == k + 1
    ensures r[|rows| + k].supersedes == Resolve(|rows|, links, k)
  {
    InsertedRows(rows, place, links, |links|, r);
    assert InsertedAs(rows, place, links, r, k);
  }

  lemma LinkNames(base: nat, records: seq<SummaryRecord>, j: nat, k: nat)
    requires j < |records| && k < |records|
    ensures Resolve(base, LinksOf(records), k) == Some(base + j)
            <==> records[k].supersedes == Some(records[j].id) && LastBefore(records, j, k)
    ensures Resolve(base, LinksOf(records), k).None? <==> records[k].supersedes.None? || IsDangling(records, k)
  {
    if records[k].supersedes == Some(records[j].id) && j < k {
      assert LastWith(records, records[j].id, k).Some?;
    }
  }

  // --- Export, then import ------------------------------------------------------------------

  /** exportSummaries for one level and period: its rows in the order they were created. */
  function Exported(rows: Store, place: Place, n: nat): (records: seq<SummaryRecord>)
    requires n <= |rows|
    ensures forall k :: 0 <= k < |records| ==> records[k].id < n
  {
    if n == 0 then []
    else
      var rest := Exported(rows, place, n - 1);
      if rows[n - 1].place == place
      then rest + [SummaryRecord(n - 1, rows[n - 1].supersedes, rows[n - 1].sources, rows[n - 1].at)]
      else rest
  }

  /** Record k stands for version k + 1 and says what its row says. */
  ghost predicate Describes(rows: Store, place: Place, record: SummaryRecord, k: nat) {
    && record.id < |rows|
    && var row := rows[record.id];
       row == Summary(place, k + 1, record.supersedes, record.sources, record.at)
  }

  lemma {:induction false} ExportedRows(rows: Store, place: Place, n: nat)
    requires Forest(rows) && n <= |rows|
    ensures var records := Exported(rows, place, n);
            && |records| == Count(rows[..n], place)
            && forall k: nat :: k < |records| ==> Describes(rows, place, records[k], k)
  {
    if n > 0 {
      ExportedRows(rows, place, n - 1);
      assert rows[..n][..n - 1] == rows[..n - 1];
      assert RowOk(rows, n - 1);
    }
  }

  /** Every row of the place is in the file, at its version. */
  lemma {:induction false} EveryRowExported(rows: Store, place: Place, n: nat, i: nat)
    requires Forest(rows) && i < n <= |rows| && rows[i].place == place
    ensures 1 <= rows[i].version <= |Exported(rows, place, n)| && Exported(rows, place, n)[rows[i].version - 1].id == i
  {
    if i == n - 1 {
      ExportedRows(rows, place, n - 1);
      assert RowOk(rows, i);
    } else {
      EveryRowExported(rows, place, n - 1, i);
    }
  }

  ghost predicate DistinctIds(records: seq<SummaryRecord>) {
    forall j, k :: 0 <= j < k < |records| ==> records[j].id != records[k].id
  }

  lemma ExportedIdsDiffer(rows: Store, place: Place)
    requires Forest(rows)
    ensures DistinctIds(Exported(rows, place, |rows|))
  {
    ExportedRows(rows, place, |rows|);
    var records := Exported(rows, place, |rows|);
    forall j, k | 0 <= j < k < |records| ensures records[j].id != records[k].id {
      assert Describes(rows, place, records[j], j) && Describes(rows, place, records[k], k);
    }
  }

  /** Every link of an exported file leads to an earlier record of it. */
  lemma ExportedLinks(rows: Store, place: Place, k: nat)
    requires Forest(rows) && k < |Exported(rows, place, |rows|)|
    ensures var records := Exported(rows, place, |rows|);
            && !IsDangling(records, k)
            && (records[k].supersedes.Some? ==>
                  && records[k].supersedes.value < |rows|
                  && rows[records[k].supersedes.value].place == place
                  && 1 <= rows[records[k].supersedes.value].version <= k
                  && LinkOf(records, k).supersedes == Some(rows[records[k].supersedes.value].version - 1))
  {
    var records := Exported(rows, place, |rows|);
    ExportedRows(rows, place, |rows|);
    assert Describes(rows, place, records[k], k);
    if records[k].supersedes.Some? {
      var i, t := records[k].id, records[k].supersedes.value;
      assert RowOk(rows, i);
      VersionsInOrder(rows, place, t, i);
      EveryRowExported(rows, place, |rows|, t);
      ExportedIdsDiffer(rows, place);
      LinkNames(0, records, rows[t].version - 1, k);
    }
  }

  /** No two exported records name the same predecessor. */
  lemma ExportedTargetsDiffer(rows: Store, place: Place, base: nat, j: nat, k: nat)
    requires Forest(rows) && k < |Exported(rows, place, |rows|)|
    ensures !SharesPredecessor(LinksOf(Exported(rows, place, |rows|)), base, j, k)
  {
    var records := Exported(rows, place, |rows|);
    if j < k && records[j].supersedes.Some? && records[k].supersedes.Some? {
      ExportedRows(rows, place, |rows|);
      assert Describes(rows, place, records[j], j) && Describes(rows, place, records[k], k);
      ExportedLinks(rows, place, j);
      ExportedLinks(rows, place, k);
      var a, b := records[j].id, records[k].id;
      assert !Fork(rows, a, b) && !Fork(rows, b, a);
      OldVersionsDiffer(rows, place, rows[a].supersedes.value, rows[b].supersedes.value);
    }
  }

  lemma ExportLoads(rows: Store, target: Store, place: Place) returns (loaded: Store)
    requires Forest(rows) && Forest(target) && Count(target, place) == 0
    ensures var records := Exported(rows, place, |rows|);
            && InsertLinks(target, place, LinksOf(records), |records|) == Some(loaded)
            && Inserted(target, place, LinksOf(records), loaded, |records|)
  {
    var records := Exported(rows, place, |rows|);
    var links := LinksOf(records);
    forall j: nat, k: nat | k < |records| ensures !SharesPredecessor(links, |target|, j, k) {
      ExportedTargetsDiffer(rows, place, |target|, j, k);
    }
    FileLoadsIff(target, place, links, |records|);
    loaded := InsertLinks(target, place, links, |records|).value;
    InsertedRows(target, place, links, |records|, loaded);
  }

  /**
    Exporting a level and period and importing it where there is none gives back
    the same versions with the same links, and loses no link.
   */
  lemma ExportImportRoundTrips(rows: Store, target: Store, place: Place) returns (loaded: Store)
    requires Forest(rows) && Forest(target) && Count(target, place) == 0
    ensures var records := Exported(rows, place, |rows|);
            ImportFile(target, place, LinksOf(records)) == Some(loaded) && Dangling(records, |records|) == 0
    ensures Forest(loaded) && Count(loaded, place) == Count(rows, place)
    ensures forall i: nat :: i < |rows| && rows[i].place == place ==> SameVersion(rows, i, loaded, |target|)
  {
    loaded := ExportLoads(rows, target, place);
    ExportedRows(rows, place, |rows|);
    assert rows[..|rows|] == rows;
    NothingDangles(rows, place, |Exported(rows, place, |rows|)|);
    forall i: nat | i < |rows| && rows[i].place == place ensures SameVersion(rows, i, loaded, |target|) {
      LoadedVersion(rows, target, place, i, loaded);
    }
  }

  lemma {:induction false} NothingDangles(rows: Store, place: Place, n: nat)
    requires Forest(rows) && n <= |Exported(rows, place, |rows|)|
    ensures Dangling(Exported(rows, place, |rows|), n) == 0
  {
    if n > 0 {
      NothingDangles(rows, place, n - 1);
      ExportedLinks(rows, place, n - 1);
    }
  }

  /**
    Row i has a counterpart in the table loaded from base on: same version, same
    content, and a link to the same version.
   */
  ghost predicate SameVersion(rows: Store, i: nat, loaded: Store, base: nat) {
    && i < |rows| && 1 <= rows[i].version && base + rows[i].version - 1 < |loaded|
    && var other := loaded[base + rows[i].version - 1];
       && other.place == rows[i].place && other.version == rows[i].version
       && other.sources == rows[i].sources && other.at == rows[i].at
       && other.supersedes.Some? == rows[i].supersedes.Some?
       && (rows[i].supersedes.Some? ==>
             && rows[i].supersedes.value < |rows| && rows[rows[i].supersedes.value].version >= 1
             && other.supersedes.value == base + rows[rows[i].supersedes.value].version - 1)
  }

  lemma LoadedVersion(rows: Store, target: Store, place: Place, i: nat, loaded: Store)
    requires Forest(rows) && i < |rows| && rows[i].place == place
    requires var records := Exported(rows, place, |rows|);
             Inserted(target, place, LinksOf(records), loaded, |records|)
    ensures SameVersion(rows, i, loaded, |target|)
  {
    var records := Exported(rows, place, |rows|);
    EveryRowExported(rows, place, |rows|, i);
    var k := rows[i].version - 1;
    assert InsertedAs(target, place, LinksOf(records), loaded, k);
    ExportedRows(rows, place, |rows|);
    assert Describes(rows, place, records[k], k);
    ExportedLinks(rows, place, k);
  }
}
