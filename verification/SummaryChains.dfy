/**
  The summaries table of one scope: an append-only store in which a row may
  supersede one earlier row of the same level and period, and "current" means
  that no row supersedes it. internal/consolidation/store.go (storeSummary,
  nextSummaryID), runner.go (currentSummaryID, Correct) and the unique index of
  schema/0017.
 */
module SummaryChains {
  import opened Basics

  datatype Level = Daily | Weekly | Monthly | Yearly

  type Period = string

  datatype Place = Place(level: Level, period: Period)

  /** A row is known by its position; (place, version) is what its text id spells out. */
  datatype Summary = Summary(place: Place, version: nat, supersedes: Option<nat>, sources: seq<Period>, at: nat)

  type Store = seq<Summary>

  predicate Superseded(rows: Store, i: nat) {
    exists j :: 0 <= j < |rows| && rows[j].supersedes == Some(i)
  }

  predicate IsTip(rows: Store, place: Place, i: nat) {
    i < |rows| && rows[i].place == place && !Superseded(rows, i)
  }

  function Tips(rows: Store, place: Place): set<nat> {
    set i: nat | i < |rows| && IsTip(rows, place, i)
  }

  function Roots(rows: Store, place: Place): set<nat> {
    set i: nat | i < |rows| && rows[i].place == place && rows[i].supersedes.None?
  }

  /** How many rows a level and period has. */
  function Count(rows: Store, place: Place): nat {
    if rows == [] then 0
    else Count(rows[..|rows| - 1], place) + if rows[|rows| - 1].place == place then 1 else 0
  }

  /** nextSummaryID's coalesce(max(version), 0) */
  function MaxVersion(rows: Store, place: Place): (v: nat)
    ensures forall i :: 0 <= i < |rows| && rows[i].place == place ==> rows[i].version <= v
  {
    if rows == [] then 0
    else
      var rest, last := MaxVersion(rows[..|rows| - 1], place), rows[|rows| - 1];
      if last.place == place && last.version > rest then last.version else rest
  }

  /**
    storeSummary's transaction: the next version, unless the row to supersede
    already has a successor, in which case the unique index fails it.
   */
  function Insert(rows: Store, place: Place, supersedes: Option<nat>, sources: seq<Period>, at: nat): Option<Store> {
    if supersedes.Some? && Superseded(rows, supersedes.value) then None
    else Some(rows + [Summary(place, MaxVersion(rows, place) + 1, supersedes, sources, at)])
  }

  /** order by created_at desc, id desc limit 1, over the rows nothing supersedes. */
  function Current(rows: Store, place: Place): (r: Option<nat>)
    ensures r.Some? ==> IsTip(rows, place, r.value)
    ensures r.Some? ==> forall i :: 0 <= i < |rows| && IsTip(rows, place, i) ==>
              rows[i].at < rows[r.value].at || (rows[i].at == rows[r.value].at && i <= r.value)
    ensures r.None? ==> forall i :: 0 <= i < |rows| ==> !IsTip(rows, place, i)
  {
    CurrentFrom(rows, place, |rows|)
  }

  function CurrentFrom(rows: Store, place: Place, n: nat): (r: Option<nat>)
    requires n <= |rows|
    ensures r.Some? ==> r.value < n && IsTip(rows, place, r.value)
    ensures r.Some? ==> forall i :: 0 <= i < n && IsTip(rows, place, i) ==>
              rows[i].at < rows[r.value].at || (rows[i].at == rows[r.value].at && i <= r.value)
    ensures r.None? ==> forall i :: 0 <= i < n ==> !IsTip(rows, place, i)
  {
    if n == 0 then None
    else
      var best := CurrentFrom(rows, place, n - 1);
      if IsTip(rows, place, n - 1) && (best.None? || rows[best.value].at <= rows[n - 1].at) then Some(n - 1) else best
  }

  // --- What every store satisfies ----------------------------------------------------

  /** A link goes to an earlier row of the same level and period, and versions count that place's rows. */
  ghost predicate RowOk(rows: Store, i: nat)
    requires i < |rows|
  {
    && (rows[i].supersedes.Some? ==>
          rows[i].supersedes.value < i && rows[rows[i].supersedes.value].place == rows[i].place)
    && rows[i].version == Count(rows[..i], rows[i].place) + 1
  }

  /** Two rows supersede the same one. */
  ghost predicate Fork(rows: Store, i: nat, j: nat) {
    i < j < |rows| && rows[i].supersedes.Some? && rows[i].supersedes == rows[j].supersedes
  }

  ghost predicate NoForks(rows: Store) {
    forall i: nat, j: nat :: !Fork(rows, i, j)
  }

  ghost predicate Forest(rows: Store) {
    NoForks(rows) && forall i :: 0 <= i < |rows| ==> RowOk(rows, i)
  }

  lemma PrefixIsForest(rows: Store, n: nat)
    requires Forest(rows) && n <= |rows|
    ensures Forest(rows[..n])
  {
    forall i: nat, j: nat ensures !Fork(rows[..n], i, j) {
      assert !Fork(rows, i, j);
    }
    forall i | 0 <= i < n ensures RowOk(rows[..n], i) {
      assert RowOk(rows, i) && rows[..n][..i] == rows[..i];
    }
  }

  lemma {:induction false} MaxVersionIsCount(rows: Store, place: Place)
    requires Forest(rows)
    ensures MaxVersion(rows, place) == Count(rows, place)
  {
    if rows != [] {
      assert RowOk(rows, |rows| - 1);
      PrefixIsForest(rows, |rows| - 1);
      MaxVersionIsCount(rows[..|rows| - 1], place);
    }
  }

  /** A place whose link can be recorded: an existing row of the same level and period. */
  ghost predicate Linkable(rows: Store, place: Place, supersedes: Option<nat>) {
    supersedes.Some? ==> supersedes.value < |rows| && rows[supersedes.value].place == place
  }

  lemma InsertKeepsForest(rows: Store, place: Place, supersedes: Option<nat>, sources: seq<Period>, at: nat)
    requires Forest(rows) && Linkable(rows, place, supersedes)
    ensures var r := Insert(rows, place, supersedes, sources, at); r.Some? ==> Forest(r.value)
  {
    var r := Insert(rows, place, supersedes, sources, at);
    if r.Some? {
      MaxVersionIsCount(rows, place);
      forall i: nat, j: nat ensures !Fork(r.value, i, j) {
        assert !Fork(rows, i, j);
      }
      forall i | 0 <= i < |r.value| ensures RowOk(r.value, i) {
        assert r.value[..i] == rows[..i];
        assert i < |rows| ==> RowOk(rows, i);
        assert rows[..|rows|] == rows;
      }
    }
  }

  lemma SupersededOneMore(rows: Store, i: nat)
    requires rows != []
    ensures Superseded(rows, i) <==> Superseded(rows[..|rows| - 1], i) || rows[|rows| - 1].supersedes == Some(i)
  {
    var before := rows[..|rows| - 1];
    if Superseded(rows, i) {
      var j :| 0 <= j < |rows| && rows[j].supersedes == Some(i);
      assert j < |before| ==> before[j].supersedes == Some(i);
    }
    if Superseded(before, i) {
      var j :| 0 <= j < |before| && before[j].supersedes == Some(i);
      assert rows[j].supersedes == Some(i);
    }
  }

  /** The newest row supersedes nothing, or a row that was current until then; nothing supersedes it. */
  lemma NewestRow(rows: Store)
    requires rows != [] && Forest(rows)
    ensures var n := |rows| - 1;
            && Forest(rows[..n]) && !Superseded(rows, n)
            && (rows[n].supersedes.Some? ==> IsTip(rows[..n], rows[n].place, rows[n].supersedes.value))
  {
    var n := |rows| - 1;
    PrefixIsForest(rows, n);
    assert RowOk(rows, n);
    forall j | 0 <= j < |rows| ensures rows[j].supersedes != Some(n) {
      assert RowOk(rows, j);
    }
    forall j | 0 <= j < n && rows[n].supersedes.Some? ensures rows[..n][j].supersedes != rows[n].supersedes {
      assert !Fork(rows, j, n);
    }
  }

  /** What one more row does to the tips and roots of a level and period. */
  lemma OneMore(rows: Store, place: Place)
    requires rows != [] && Forest(rows)
    ensures var n := |rows| - 1;
            var before, last := rows[..n], rows[n];
            && Forest(before)
            && Roots(rows, place) == Roots(before, place) + (if last.place == place && last.supersedes.None? then {n} else {})
            && Tips(rows, place) == (if last.place != place then Tips(before, place)
                                     else Tips(before, place) - (if last.supersedes.Some? then {last.supersedes.value} else {}) + {n})
            && (last.place == place && last.supersedes.Some? ==> last.supersedes.value in Tips(before, place))
            && n !in Tips(before, place) && n !in Roots(before, place)
  {
    var n := |rows| - 1;
    NewestRow(rows);
    forall i: nat | i < n
      ensures IsTip(rows, place, i) <==> IsTip(rows[..n], place, i) && rows[n].supersedes != Some(i)
    {
      SupersededOneMore(rows, i);
    }
  }

  /** There are as many current rows as there are rows that supersede nothing. */
  lemma {:induction false} AsManyTipsAsRoots(rows: Store, place: Place)
    requires Forest(rows)
    ensures |Tips(rows, place)| == |Roots(rows, place)|
    ensures Roots(rows, place) == {} <==> Count(rows, place) == 0
  {
    if rows != [] {
      OneMore(rows, place);
      AsManyTipsAsRoots(rows[..|rows| - 1], place);
    }
  }

  // --- Linear chains -------------------------------------------------------------------

  /** Version 1 supersedes nothing, every other version the one just before it. */
  ghost predicate LinkedToPrevious(rows: Store, i: nat)
    requires i < |rows|
  {
    if rows[i].version == 1 then rows[i].supersedes.None?
    else rows[i].supersedes.Some? && rows[i].supersedes.value < i
         && rows[rows[i].supersedes.value].version == rows[i].version - 1
  }

  /** The rows of a level and period form one chain. */
  ghost predicate Linear(rows: Store, place: Place) {
    forall i :: 0 <= i < |rows| && rows[i].place == place ==> LinkedToPrevious(rows, i)
  }

  lemma LinearPrefix(rows: Store, place: Place)
    requires rows != []
    ensures var n := |rows| - 1;
            Linear(rows, place) <==> Linear(rows[..n], place) && (rows[n].place == place ==> LinkedToPrevious(rows, n))
  {
    var n := |rows| - 1;
    forall i | 0 <= i < n ensures LinkedToPrevious(rows[..n], i) <==> LinkedToPrevious(rows, i) {
    }
    if Linear(rows, place) {
      forall i | 0 <= i < n && rows[..n][i].place == place ensures LinkedToPrevious(rows[..n], i) {
        assert LinkedToPrevious(rows, i);
      }
    }
  }

  /** In a linear chain the highest version, and nothing else, is current. */
  lemma {:induction false} OnlyTheNewestIsCurrent(rows: Store, place: Place, i: nat)
    requires Forest(rows) && Linear(rows, place) && i < |rows| && rows[i].place == place
    ensures IsTip(rows, place, i) <==> rows[i].version == Count(rows, place)
    ensures 1 <= rows[i].version <= Count(rows, place)
  {
    var n := |rows| - 1;
    NewestRow(rows);
    LinearPrefix(rows, place);
    assert RowOk(rows, n);
    if i < n {
      OnlyTheNewestIsCurrent(rows[..n], place, i);
      SupersededOneMore(rows, i);
      if rows[n].place == place {
        SupersededByNewest(rows, place, i);
      }
    }
  }

  lemma SupersededByNewest(rows: Store, place: Place, i: nat)
    requires Forest(rows) && Linear(rows, place) && i < |rows| - 1 && rows[i].place == rows[|rows| - 1].place == place
    ensures rows[|rows| - 1].supersedes == Some(i) <==> rows[i].version == Count(rows[..|rows| - 1], place)
  {
    var n := |rows| - 1;
    assert RowOk(rows, n) && LinkedToPrevious(rows, n);
    CountGrows(rows[..n], place, i);
    OldVersionsDiffer(rows, place, i, rows[n].supersedes.value);
  }

  lemma {:induction false} CountGrows(rows: Store, place: Place, i: nat)
    requires i < |rows| && rows[i].place == place
    ensures Count(rows[..i], place) < Count(rows, place)
  {
    var n := |rows| - 1;
    if i < n {
      CountGrows(rows[..n], place, i);
      assert rows[..n][..i] == rows[..i];
    }
  }

  /** Versions grow with the rows. */
  lemma VersionsInOrder(rows: Store, place: Place, i: nat, j: nat)
    requires Forest(rows) && i < j < |rows| && rows[i].place == rows[j].place == place
    ensures rows[i].version < rows[j].version
  {
    assert RowOk(rows, i) && RowOk(rows, j);
    CountGrows(rows[..j], place, i);
    assert rows[..j][..i] == rows[..i];
  }

  lemma OldVersionsDiffer(rows: Store, place: Place, i: nat, j: nat)
    requires Forest(rows) && i < |rows| && j < |rows| && rows[i].place == rows[j].place == place
    ensures rows[i].version == rows[j].version <==> i == j
  {
    if i < j {
      VersionsInOrder(rows, place, i, j);
    } else if j < i {
      VersionsInOrder(rows, place, j, i);
    }
  }

  /** A level and period is one linear chain exactly when at most one of its rows supersedes nothing. */
  lemma {:induction false} LinearIffOneRoot(rows: Store, place: Place)
    requires Forest(rows)
    ensures Linear(rows, place) <==> |Roots(rows, place)| <= 1
  {
    if rows != [] {
      var n := |rows| - 1;
      var before, last := rows[..n], rows[n];
      OneMore(rows, place);
      LinearPrefix(rows, place);
      LinearIffOneRoot(before, place);
      AsManyTipsAsRoots(before, place);
      assert RowOk(rows, n);
      if last.place == place && last.supersedes.Some? && Linear(before, place) {
        OnlyTheNewestIsCurrent(before, place, last.supersedes.value);
      }
    }
  }

  /** The chain a reader sees: no current row, or exactly one, and it is the highest version. */
  lemma LinearHasOneTip(rows: Store, place: Place)
    requires Forest(rows) && Linear(rows, place)
    ensures Current(rows, place).None? <==> Count(rows, place) == 0
    ensures Current(rows, place).Some? ==>
              && Tips(rows, place) == {Current(rows, place).value}
              && rows[Current(rows, place).value].version == Count(rows, place)
  {
    AsManyTipsAsRoots(rows, place);
    LinearIffOneRoot(rows, place);
    var c := Current(rows, place);
    if c.Some? {
      OnlyTheNewestIsCurrent(rows, place, c.value);
      forall i | i in Tips(rows, place) ensures i == c.value {
        OnlyTheNewestIsCurrent(rows, place, i);
        OldVersionsDiffer(rows, place, i, c.value);
      }
      assert c.value in Tips(rows, place);
    } else {
      assert Tips(rows, place) == {};
    }
  }

  /**
    One insert leaves a level and period a linear chain exactly when it was one
    and the insert does not start a second chain beside it.
   */
  lemma InsertKeepsLinearIff(rows: Store, place: Place, supersedes: Option<nat>, sources: seq<Period>, at: nat, p: Place)
    requires Forest(rows) && Linkable(rows, place, supersedes)
    requires Insert(rows, place, supersedes, sources, at).Some?
    ensures var rows' := Insert(rows, place, supersedes, sources, at).value;
            Linear(rows', p) <==> Linear(rows, p) && !(p == place && supersedes.None? && Count(rows, place) > 0)
  {
    var rows' := Insert(rows, place, supersedes, sources, at).value;
    InsertKeepsForest(rows, place, supersedes, sources, at);
    assert rows'[..|rows|] == rows;
    OneMore(rows', p);
    LinearIffOneRoot(rows, p);
    LinearIffOneRoot(rows', p);
    AsManyTipsAsRoots(rows, p);
  }
}
