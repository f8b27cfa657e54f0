/**
  internal/hpmf/export.go: exportSummaries, whose query orders a period's versions
  by created_at, the time at which a transaction began. That need not grow with the
  version: overlapping runs may commit the other way round, and an import stores
  the times it is given. What an import makes of every order the query may give.
 */
module BundleOrder {
  import opened Basics
  import opened SummaryChains
  import opened SummaryRuns
  import opened BundleImport
  import opened BundleMerge
  import opened BundleRoundTrip

  /** Each of the first n rows of the place, once. */
  ghost predicate Lists(rows: Store, place: Place, ids: seq<nat>, n: nat)
    requires n <= |rows|
  {
    && (forall k :: 0 <= k < |ids| ==> ids[k] < n && rows[ids[k]].place == place)
    && (forall j, k :: 0 <= j < k < |ids| ==> ids[j] != ids[k])
    && (forall i: nat :: i < n && rows[i].place == place ==> i in ids)
  }

  /** An answer of the query; of equal times either may come first. */
  ghost predicate Answer(rows: Store, place: Place, ids: seq<nat>) {
    && Lists(rows, place, ids, |rows|)
    && forall j, k :: 0 <= j < k < |ids| ==> rows[ids[j]].at <= rows[ids[k]].at
  }

  ghost predicate Increasing(ids: seq<nat>) {
    forall j, k :: 0 <= j < k < |ids| ==> ids[j] < ids[k]
  }

  function RecordOf(rows: Store, i: nat): SummaryRecord
    requires i < |rows|
  {
    SummaryRecord(i, rows[i].supersedes, rows[i].sources, rows[i].at)
  }

  function RecordsOf(rows: Store, ids: seq<nat>): seq<SummaryRecord>
    requires forall k :: 0 <= k < |ids| ==> ids[k] < |rows|
  {
    seq(|ids|, k requires 0 <= k < |ids| => RecordOf(rows, ids[k]))
  }

  // --- Any order loads ------------------------------------------------------------------

  /** A row's link leads to an earlier row of its place; the file has it, before or after. */
  lemma NamesAnother(rows: Store, place: Place, ids: seq<nat>, k: nat) returns (j: nat)
    requires Forest(rows) && Lists(rows, place, ids, |rows|) && k < |ids| && rows[ids[k]].supersedes.Some?
    ensures j < |ids| && j != k && ids[j] < ids[k] && rows[ids[k]].supersedes == Some(ids[j])
    ensures forall m :: 0 <= m < |ids| && rows[ids[k]].supersedes == Some(ids[m]) ==> m == j
  {
    assert RowOk(rows, ids[k]);
    j :| 0 <= j < |ids| && ids[j] == rows[ids[k]].supersedes.value;
  }

  /** The link of record k survives exactly when its predecessor comes before it. */
  lemma LinkSurvivesIff(rows: Store, place: Place, ids: seq<nat>, base: nat, k: nat, j: nat)
    requires Forest(rows) && Lists(rows, place, ids, |rows|) && k < |ids| && j < |ids|
    ensures Resolve(base, LinksOf(RecordsOf(rows, ids)), k) == Some(base + j)
            <==> j < k && rows[ids[k]].supersedes == Some(ids[j])
    ensures IsDangling(RecordsOf(rows, ids), k)
            <==> rows[ids[k]].supersedes.Some? && forall m :: 0 <= m < k ==> rows[ids[k]].supersedes != Some(ids[m])
  {
    var records := RecordsOf(rows, ids);
    LinkNames(base, records, j, k);
    if rows[ids[k]].supersedes.Some? {
      var m := NamesAnother(rows, place, ids, k);
      LinkNames(base, records, m, k);
    }
  }

  /** Whatever the order, the file loads; record k is version k + 1 with what its row says. */
  lemma AnyOrderLoads(rows: Store, target: Store, place: Place, ids: seq<nat>) returns (loaded: Store)
    requires Forest(rows) && Forest(target) && Count(target, place) == 0 && Lists(rows, place, ids, |rows|)
    ensures ImportFile(target, place, LinksOf(RecordsOf(rows, ids))) == Some(loaded)
    ensures Inserted(target, place, LinksOf(RecordsOf(rows, ids)), loaded, |ids|)
  {
    var records := RecordsOf(rows, ids);
    var links := LinksOf(records);
    forall j: nat, k: nat | k < |records| ensures !SharesPredecessor(links, |target|, j, k) {
      if SharesPredecessor(links, |target|, j, k) {
        NoSharedPredecessor(rows, place, ids, |target|, j, k);
      }
    }
    FileLoadsIff(target, place, links, |records|);
    loaded := InsertLinks(target, place, links, |records|).value;
    InsertedRows(target, place, links, |records|, loaded);
  }

  lemma NoSharedPredecessor(rows: Store, place: Place, ids: seq<nat>, base: nat, j: nat, k: nat)
    requires Forest(rows) && Lists(rows, place, ids, |rows|) && k < |ids|
    ensures !SharesPredecessor(LinksOf(RecordsOf(rows, ids)), base, j, k)
  {
    if j < k && rows[ids[j]].supersedes.Some? && rows[ids[k]].supersedes.Some? {
      var a := NamesAnother(rows, place, ids, j);
      var b := NamesAnother(rows, place, ids, k);
      LinkSurvivesIff(rows, place, ids, base, j, a);
      LinkSurvivesIff(rows, place, ids, base, k, b);
      assert !Fork(rows, ids[j], ids[k]) && !Fork(rows, ids[k], ids[j]);
    }
  }

  // --- Which orders keep the versions -----------------------------------------------------

  ghost predicate VersionsKept(rows: Store, ids: seq<nat>)
    requires forall k :: 0 <= k < |ids| ==> ids[k] < |rows|
  {
    forall k :: 0 <= k < |ids| ==> rows[ids[k]].version == k + 1
  }

  lemma {:induction false} IncreasingIsStorageOrder(rows: Store, place: Place, ids: seq<nat>, n: nat)
    requires n <= |rows| && Lists(rows, place, ids, n) && Increasing(ids)
    ensures RecordsOf(rows, ids) == Exported(rows, place, n)
    decreases n
  {
    if n > 0 {
      if rows[n - 1].place == place {
        var init := DropLast(rows, place, ids, n);
        IncreasingIsStorageOrder(rows, place, init, n - 1);
        assert RecordsOf(rows, ids) == RecordsOf(rows, init) + [RecordOf(rows, n - 1)];
      } else {
        IncreasingIsStorageOrder(rows, place, ids, n - 1);
      }
    } else {
      EmptyOrPositive(ids, n);
    }
  }

  lemma EmptyOrPositive(ids: seq<nat>, n: nat)
    requires forall k :: 0 <= k < |ids| ==> ids[k] < n
    ensures ids == [] || n > 0
  {
    if ids != [] {
      assert ids[0] < n;
    }
  }

  lemma DropLast(rows: Store, place: Place, ids: seq<nat>, n: nat) returns (init: seq<nat>)
    requires 0 < n <= |rows| && Lists(rows, place, ids, n) && Increasing(ids) && rows[n - 1].place == place
    ensures ids == init + [n - 1] && Lists(rows, place, init, n - 1) && Increasing(init)
  {
    var last := |ids| - 1;
    init := ids[..last];
    var k :| 0 <= k < |ids| && ids[k] == n - 1;
    assert ids[last] < n;
    assert !(k < last);
    forall i: nat | i < n - 1 && rows[i].place == place ensures i in init {
      assert i in ids;
    }
  }

  /** An order keeps the versions exactly when it is the order of storage. */
  lemma VersionsKeptIff(rows: Store, place: Place, ids: seq<nat>)
    requires Forest(rows) && Lists(rows, place, ids, |rows|)
    ensures VersionsKept(rows, ids) <==> Increasing(ids)
  {
    if Increasing(ids) {
      IncreasingIsStorageOrder(rows, place, ids, |rows|);
      ExportedRows(rows, place, |rows|);
      forall k: nat | k < |ids| ensures rows[ids[k]].version == k + 1 {
        assert Describes(rows, place, RecordsOf(rows, ids)[k], k);
      }
    }
    if VersionsKept(rows, ids) {
      forall j, k | 0 <= j < k < |ids| ensures ids[j] < ids[k] {
        if ids[k] < ids[j] {
          VersionsInOrder(rows, place, ids[k], ids[j]);
        }
      }
    }
  }

  /** Later versions have later times. */
  ghost predicate Chronological(rows: Store, place: Place) {
    forall i, j :: 0 <= i < j < |rows| && rows[i].place == rows[j].place == place ==> rows[i].at < rows[j].at
  }

  lemma ChronologicalIsIncreasing(rows: Store, place: Place, ids: seq<nat>)
    requires Chronological(rows, place) && Answer(rows, place, ids)
    ensures Increasing(ids)
  {
    forall j, k | 0 <= j < k < |ids| ensures ids[j] < ids[k] {
      assert ids[j] != ids[k];
    }
  }

  /** Earlier and, of equal times, stored later. */
  ghost predicate Precedes(rows: Store, i: nat, j: nat)
    requires i < |rows| && j < |rows|
  {
    rows[i].at < rows[j].at || (rows[i].at == rows[j].at && j < i)
  }

  /** Of equal times the last stored first. */
  ghost predicate LatestFirst(rows: Store, place: Place, ids: seq<nat>, n: nat)
    requires n <= |rows|
  {
    && Lists(rows, place, ids, n)
    && forall j, k :: 0 <= j < k < |ids| ==> Precedes(rows, ids[j], ids[k])
  }

  lemma {:induction false} LatestFirstExists(rows: Store, place: Place, n: nat) returns (ids: seq<nat>)
    requires n <= |rows|
    ensures LatestFirst(rows, place, ids, n)
  {
    if n == 0 {
      ids := [];
    } else {
      var rest := LatestFirstExists(rows, place, n - 1);
      if rows[n - 1].place == place {
        ids := PutBefore(rows, place, rest, n - 1);
      } else {
        ids := rest;
      }
    }
  }

  lemma PutBefore(rows: Store, place: Place, rest: seq<nat>, n: nat) returns (ids: seq<nat>)
    requires n < |rows| && LatestFirst(rows, place, rest, n) && rows[n].place == place
    ensures LatestFirst(rows, place, ids, n + 1)
  {
    var p := 0;
    while p < |rest| && rows[rest[p]].at < rows[n].at
      invariant p <= |rest| && forall k :: 0 <= k < p ==> rows[rest[k]].at < rows[n].at
    {
      p := p + 1;
    }
    ids := rest[..p] + [n] + rest[p..];
    assert PutAt(rest, p, n, ids);
    ListsOneMore(rows, place, rest, p, n, ids);
    OrderedAsBefore(rows, place, rest, p, n, ids);
  }

  ghost predicate PutAt(rest: seq<nat>, p: nat, n: nat, ids: seq<nat>) {
    && p <= |rest| && |ids| == |rest| + 1 && ids[p] == n
    && (forall k :: 0 <= k < p ==> ids[k] == rest[k])
    && (forall k :: p < k < |ids| ==> ids[k] == rest[k - 1])
  }

  lemma ListsOneMore(rows: Store, place: Place, rest: seq<nat>, p: nat, n: nat, ids: seq<nat>)
    requires n < |rows| && Lists(rows, place, rest, n) && rows[n].place == place && PutAt(rest, p, n, ids)
    ensures Lists(rows, place, ids, n + 1)
  {
    forall i: nat | i < n && rows[i].place == place ensures i in ids {
      var k :| 0 <= k < |rest| && rest[k] == i;
      assert ids[if k < p then k else k + 1] == i;
    }
    assert n in ids;
    forall j, k | 0 <= j < k < |ids| ensures ids[j] != ids[k] {
      StillDistinct(rest, p, n, ids, j, k);
    }
  }

  lemma StillDistinct(rest: seq<nat>, p: nat, n: nat, ids: seq<nat>, j: nat, k: nat)
    requires PutAt(rest, p, n, ids) && j < k < |ids|
    requires (forall m :: 0 <= m < |rest| ==> rest[m] < n) && forall m, q :: 0 <= m < q < |rest| ==> rest[m] != rest[q]
    ensures ids[j] != ids[k]
  {
    var a, b := if j < p then j else j - 1, if k < p then k else k - 1;
    assert j != p ==> ids[j] == rest[a] < n;
    assert k != p ==> ids[k] == rest[b] < n;
  }

  lemma OrderedAsBefore(rows: Store, place: Place, rest: seq<nat>, p: nat, n: nat, ids: seq<nat>)
    requires n < |rows| && LatestFirst(rows, place, rest, n) && PutAt(rest, p, n, ids) && Lists(rows, place, ids, n + 1)
    requires forall k :: 0 <= k < p ==> rows[rest[k]].at < rows[n].at
    requires p < |rest| ==> rows[n].at <= rows[rest[p]].at
    ensures LatestFirst(rows, place, ids, n + 1)
  {
    forall j, k | 0 <= j < k < |ids| ensures Precedes(rows, ids[j], ids[k]) {
      var a, b := if j < p then j else j - 1, if k < p then k else k - 1;
      if j == p {
        assert b == p || Precedes(rows, rest[p], rest[b]);
      } else if k != p {
        assert Precedes(rows, rest[a], rest[b]);
      }
    }
  }

  /**
    Exporting and importing a period keeps its versions, whatever order the query
    gives rows of equal times, exactly when later versions have later times.
   */
  lemma QueryKeepsVersionsIff(rows: Store, place: Place)
    requires Forest(rows)
    ensures (forall ids :: Answer(rows, place, ids) ==> VersionsKept(rows, ids)) <==> Chronological(rows, place)
  {
    if Chronological(rows, place) {
      forall ids | Answer(rows, place, ids) ensures VersionsKept(rows, ids) {
        ChronologicalIsIncreasing(rows, place, ids);
        VersionsKeptIff(rows, place, ids);
      }
    }
    if forall ids :: Answer(rows, place, ids) ==> VersionsKept(rows, ids) {
      var ids := LatestFirstExists(rows, place, |rows|);
      assert Answer(rows, place, ids);
      VersionsKeptIff(rows, place, ids);
      LatestFirstIncreasing(rows, place, ids);
    }
  }

  lemma LatestFirstIncreasing(rows: Store, place: Place, ids: seq<nat>)
    requires LatestFirst(rows, place, ids, |rows|) && Increasing(ids)
    ensures Chronological(rows, place)
  {
    forall i, j | 0 <= i < j < |rows| && rows[i].place == rows[j].place == place ensures rows[i].at < rows[j].at {
      var a :| 0 <= a < |ids| && ids[a] == i;
      var b :| 0 <= b < |ids| && ids[b] == j;
      assert a < b && Precedes(rows, ids[a], ids[b]);
    }
  }

  /** When later versions have later times every answer of the query is the file that ExportImportRoundTrips is about. */
  lemma ChronologicalExport(rows: Store, place: Place, ids: seq<nat>)
    requires Chronological(rows, place) && Answer(rows, place, ids)
    ensures RecordsOf(rows, ids) == Exported(rows, place, |rows|)
  {
    ChronologicalIsIncreasing(rows, place, ids);
    IncreasingIsStorageOrder(rows, place, ids, |rows|);
  }

  ghost predicate AnswersQuery(rows: Store, f: File) {
    exists ids :: Answer(rows, f.place, ids) && f.records == RecordsOf(rows, ids)
  }

  /** WholeTableRoundTrips over the query's answers: a table whose periods are in order of time survives its way into an empty scope. */
  lemma ChronologicalTableRoundTrips(rows: Store, files: seq<File>) returns (loaded: Store)
    requires Forest(rows) && Distinct(files) && forall p :: Chronological(rows, p)
    requires forall f :: f in files ==> AnswersQuery(rows, f)
    requires Covered(rows, files)
    ensures AddFiles([], files, |files|) == (loaded, true) && Forest(loaded)
    ensures forall i: nat :: i < |rows| ==> Arrived(rows, i, loaded)
  {
    forall f | f in files ensures f.records == Exported(rows, f.place, |rows|) {
      var ids :| Answer(rows, f.place, ids) && f.records == RecordsOf(rows, ids);
      ChronologicalExport(rows, f.place, ids);
    }
    loaded := WholeTableRoundTrips(rows, files);
  }

  // --- exportSummaries ----------------------------------------------------------------------

  /** All rows, each once, and within a level and period by created_at. */
  ghost predicate TableAnswer(rows: Store, answer: seq<nat>) {
    && |answer| == |rows| && InAnswer(rows, answer)
    && forall i: nat :: i < |rows| ==> i in answer
  }

  ghost predicate InAnswer(rows: Store, answer: seq<nat>) {
    && (forall k :: 0 <= k < |answer| ==> answer[k] < |rows|)
    && (forall j, k :: 0 <= j < k < |answer| ==> answer[j] != answer[k])
    && forall j, k :: 0 <= j < k < |answer| && rows[answer[j]].place == rows[answer[k]].place ==>
         rows[answer[j]].at <= rows[answer[k]].at
  }

  /** The rows of one place, in the order of the answer. */
  function OfPlace(rows: Store, answer: seq<nat>, place: Place): (ids: seq<nat>)
    requires forall k :: 0 <= k < |answer| ==> answer[k] < |rows|
    ensures forall k :: 0 <= k < |ids| ==> ids[k] < |rows| && rows[ids[k]].place == place
    ensures forall i :: i in ids <==> i in answer && rows[i].place == place
  {
    if answer == [] then []
    else
      var rest, last := OfPlace(rows, answer[..|answer| - 1], place), answer[|answer| - 1];
      if rows[last].place == place then rest + [last] else rest
  }

  ghost predicate InOrder(rows: Store, ids: seq<nat>)
    requires forall k :: 0 <= k < |ids| ==> ids[k] < |rows|
  {
    forall j, k :: 0 <= j < k < |ids| ==> ids[j] != ids[k] && rows[ids[j]].at <= rows[ids[k]].at
  }

  lemma {:induction false} OfPlaceInOrder(rows: Store, answer: seq<nat>, place: Place)
    requires InAnswer(rows, answer)
    ensures InOrder(rows, OfPlace(rows, answer, place))
  {
    if answer != [] {
      var init, last := answer[..|answer| - 1], answer[|answer| - 1];
      OfPlaceInOrder(rows, init, place);
      var rest := OfPlace(rows, init, place);
      forall j | 0 <= j < |rest| ensures rest[j] != last && (rows[last].place == place ==> rows[rest[j]].at <= rows[last].at) {
        assert rest[j] in rest;
        var k :| 0 <= k < |init| && init[k] == rest[j];
        assert answer[k] == rest[j];
      }
    }
  }

  lemma OfPlaceAnswers(rows: Store, answer: seq<nat>, place: Place)
    requires TableAnswer(rows, answer)
    ensures Answer(rows, place, OfPlace(rows, answer, place))
  {
    var ids := OfPlace(rows, answer, place);
    OfPlaceInOrder(rows, answer, place);
  }

  /** The records so far, grouped; order lists every level and period once. */
  ghost predicate Grouped(rows: Store, answer: seq<nat>, order: seq<Place>, grouped: map<Place, seq<SummaryRecord>>)
    requires forall k :: 0 <= k < |answer| ==> answer[k] < |rows|
  {
    && (forall p :: p in grouped <==> p in order)
    && (forall i, j :: 0 <= i < j < |order| ==> order[i] != order[j])
    && (forall p :: p in grouped ==> grouped[p] == RecordsOf(rows, OfPlace(rows, answer, p)))
    && (forall p :: p !in grouped ==> OfPlace(rows, answer, p) == [])
  }

  lemma GroupOneMore(rows: Store, answer: seq<nat>, i: nat, order: seq<Place>, grouped: map<Place, seq<SummaryRecord>>)
    requires (forall k :: 0 <= k < |answer| ==> answer[k] < |rows|) && i < |rows| && Grouped(rows, answer, order, grouped)
    ensures var p := rows[i].place;
            if p in grouped then Grouped(rows, answer + [i], order, grouped[p := grouped[p] + [RecordOf(rows, i)]])
            else Grouped(rows, answer + [i], order + [p], grouped[p := [RecordOf(rows, i)]])
  {
    assert (answer + [i])[..|answer|] == answer;
    forall p ensures OfPlace(rows, answer + [i], p) == OfPlace(rows, answer, p) + if rows[i].place == p then [i] else [] {
    }
    assert RecordsOf(rows, OfPlace(rows, answer + [i], rows[i].place))
        == RecordsOf(rows, OfPlace(rows, answer, rows[i].place)) + [RecordOf(rows, i)];
  }

  /** One file per level and period, with its versions in the order the query gave them. */
  method ExportSummaries(rows: Store, answer: seq<nat>) returns (files: seq<File>, count: nat)
    requires TableAnswer(rows, answer)
    ensures count == |rows| && Distinct(files) && Covered(rows, files)
    ensures forall f :: f in files ==> AnswersQuery(rows, f)
  {
    var order: seq<Place>, grouped: map<Place, seq<SummaryRecord>> := [], map[];
    count := 0;
    for n := 0 to |answer|
      invariant Grouped(rows, answer[..n], order, grouped) && count == n
    {
      assert answer[..n + 1] == answer[..n] + [answer[n]];
      order, grouped := Append(rows, answer[..n], answer[n], order, grouped);
      count := count + 1;
    }
    assert answer[..|answer|] == answer;
    files := FilesOf(order, grouped);
    FilesAnswer(rows, answer, order, grouped, files);
  }

  /** The loop's body: the record joins its group, which may be new. */
  method Append(rows: Store, ghost answer: seq<nat>, i: nat, order: seq<Place>, grouped: map<Place, seq<SummaryRecord>>)
    returns (order': seq<Place>, grouped': map<Place, seq<SummaryRecord>>)
    requires (forall k :: 0 <= k < |answer| ==> answer[k] < |rows|) && i < |rows| && Grouped(rows, answer, order, grouped)
    ensures Grouped(rows, answer + [i], order', grouped')
  {
    GroupOneMore(rows, answer, i, order, grouped);
    var place, record := rows[i].place, RecordOf(rows, i);
    if place !in grouped {
      order', grouped' := order + [place], grouped[place := [record]];
    } else {
      order', grouped' := order, grouped[place := grouped[place] + [record]];
    }
  }

  method FilesOf(order: seq<Place>, grouped: map<Place, seq<SummaryRecord>>) returns (files: seq<File>)
    requires forall p :: p in order ==> p in grouped
    ensures |files| == |order| && forall k :: 0 <= k < |order| ==> files[k] == File(order[k], grouped[order[k]])
  {
    files := [];
    for k := 0 to |order|
      invariant |files| == k
      invariant forall j :: 0 <= j < k ==> files[j] == File(order[j], grouped[order[j]])
    {
      files := files + [File(order[k], grouped[order[k]])];
    }
  }

  lemma FilesAnswer(rows: Store, answer: seq<nat>, order: seq<Place>, grouped: map<Place, seq<SummaryRecord>>, files: seq<File>)
    requires TableAnswer(rows, answer) && Grouped(rows, answer, order, grouped)
    requires |files| == |order| && forall k :: 0 <= k < |order| ==> files[k] == File(order[k], grouped[order[k]])
    ensures Distinct(files) && Covered(rows, files) && forall f :: f in files ==> AnswersQuery(rows, f)
  {
    forall i | 0 <= i < |rows| ensures HasFile(files, rows[i].place) {
      assert i in OfPlace(rows, answer, rows[i].place);
      assert rows[i].place in order;
      var k :| 0 <= k < |order| && order[k] == rows[i].place;
      assert files[k].place == rows[i].place;
    }
    forall f | f in files ensures AnswersQuery(rows, f) {
      var k :| 0 <= k < |files| && files[k] == f;
      assert order[k] in order;
      OfPlaceAnswers(rows, answer, f.place);
    }
  }

  // --- What survives --------------------------------------------------------------------------

  lemma {:induction false} DanglingIff(records: seq<SummaryRecord>, n: nat)
    requires n <= |records|
    ensures Dangling(records, n) == 0 <==> forall k :: 0 <= k < n ==> !IsDangling(records, k)
  {
    if n > 0 {
      DanglingIff(records, n - 1);
    }
  }

  /** No link is lost exactly when every row comes after the one it supersedes. */
  lemma LinksKeptIff(rows: Store, place: Place, ids: seq<nat>)
    requires Forest(rows) && Lists(rows, place, ids, |rows|)
    ensures Dangling(RecordsOf(rows, ids), |ids|) == 0
            <==> forall j, k :: 0 <= j < |ids| && 0 <= k < |ids| && rows[ids[k]].supersedes == Some(ids[j]) ==> j < k
  {
    var records := RecordsOf(rows, ids);
    DanglingIff(records, |ids|);
    forall k: nat | k < |ids| ensures IsDangling(records, k) <==>
      rows[ids[k]].supersedes.Some? && forall m :: 0 <= m < k ==> rows[ids[k]].supersedes != Some(ids[m])
    {
      LinkSurvivesIff(rows, place, ids, 0, k, k);
    }
    forall k: nat | k < |ids| && IsDangling(records, k)
      ensures exists j :: 0 <= j < |ids| && rows[ids[k]].supersedes == Some(ids[j]) && k <= j
    {
      var j := NamesAnother(rows, place, ids, k);
    }
  }

  /** A row with an earlier time than the row it supersedes loses its link and its place; SummaryTimes has a run to it. */
  lemma EarlyCorrectionIsUnlinked(place: Place, before: nat, after: nat)
    requires before < after
    ensures var rows := [Summary(place, 1, None, [], after), Summary(place, 2, Some(0), [], before)];
            && Forest(rows) && Answer(rows, place, [1, 0])
            && ImportFile([], place, LinksOf(RecordsOf(rows, [1, 0])))
               == Some([Summary(place, 1, None, [], before), Summary(place, 2, None, [], after)])
  {
    var first, second := Summary(place, 1, None, [], after), Summary(place, 2, Some(0), [], before);
    var rows := [first, second];
    TwoRows(first, second);
    var none: Store := [];
    assert Forest(none) && Count(none, place) == 0;
    var ids := [1, 0];
    assert Lists(rows, place, ids, 2);
    var loaded := AnyOrderLoads(rows, none, place, ids);
    var links := LinksOf(RecordsOf(rows, ids));
    LinkSurvivesIff(rows, place, ids, 0, 0, 0);
    assert links[0] == Link(None, [], before) && links[1] == Link(None, [], after);
    assert InsertedAs(none, place, links, loaded, 0) && InsertedAs(none, place, links, loaded, 1);
    assert loaded == [Summary(place, 1, None, [], before), Summary(place, 2, None, [], after)];
  }

  lemma TwoRows(first: Summary, second: Summary)
    requires first.place == second.place && first.version == 1 && second.version == 2
    requires first.supersedes.None? && second.supersedes == Some(0)
    ensures Forest([first, second])
  {
    var rows := [first, second];
    assert rows[..0] == [] && rows[..1] == [first] && [first][..0] == [];
    assert Count([first], first.place) == 1;
    assert RowOk(rows, 0) && RowOk(rows, 1);
    forall i: nat, j: nat ensures !Fork(rows, i, j) {
    }
  }
}
