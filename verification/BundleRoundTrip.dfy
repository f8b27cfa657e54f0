/**
  internal/hpmf: a whole table of summaries on its way out of one scope and into
  another, file by file.
 */
module BundleRoundTrip {
  import opened Basics
  import opened SummaryChains
  import opened SummaryRuns
  import opened BundleImport
  import opened BundleMerge

  /** Some file is for the row's level and period. */
  ghost predicate HasFile(files: seq<File>, place: Place) {
    exists k :: 0 <= k < |files| && files[k].place == place
  }

  ghost predicate Covered(rows: Store, files: seq<File>) {
    forall i :: 0 <= i < |rows| ==> HasFile(files, rows[i].place)
  }

  ghost predicate Distinct(files: seq<File>) {
    forall i, j :: 0 <= i < j < |files| ==> files[i].place != files[j].place
  }

  /** Every row of the place has its counterpart in the loaded table, from base on. */
  ghost predicate PlaceLoaded(rows: Store, loaded: Store, place: Place, base: nat) {
    forall i: nat :: i < |rows| && rows[i].place == place ==> SameVersion(rows, i, loaded, base)
  }

  ghost predicate PlaceArrived(rows: Store, loaded: Store, place: Place) {
    exists base: nat :: PlaceLoaded(rows, loaded, place, base)
  }

  lemma LoadedStays(rows: Store, loaded: Store, more: Store, place: Place, base: nat)
    requires PlaceLoaded(rows, loaded, place, base) && loaded <= more
    ensures PlaceLoaded(rows, more, place, base)
  {
    forall i: nat | i < |rows| && rows[i].place == place ensures SameVersion(rows, i, more, base) {
      assert SameVersion(rows, i, loaded, base);
    }
  }

  lemma {:induction false} CountOfOthers(rows: Store, more: Store, place: Place)
    requires rows <= more && forall k :: |rows| <= k < |more| ==> more[k].place != place
    ensures Count(more, place) == Count(rows, place)
    decreases |more|
  {
    if |rows| < |more| {
      var init := more[..|more| - 1];
      assert rows <= init;
      CountOfOthers(rows, init, place);
    } else {
      assert rows == more;
    }
  }

  /** All that loading the first n files has done so far. */
  ghost predicate LoadedSoFar(rows: Store, files: seq<File>, n: nat, loaded: Store)
    requires n <= |files|
  {
    && Forest(loaded)
    && (forall k :: n <= k < |files| ==> Count(loaded, files[k].place) == 0)
    && forall k :: 0 <= k < n ==> PlaceArrived(rows, loaded, files[k].place)
  }

  lemma NextFile(rows: Store, files: seq<File>, n: nat, before: Store) returns (loaded: Store)
    requires Forest(rows) && Distinct(files) && n < |files| && LoadedSoFar(rows, files, n, before)
    requires files[n].records == Exported(rows, files[n].place, |rows|)
    ensures ImportFile(before, files[n].place, LinksOf(files[n].records)) == Some(loaded)
    ensures LoadedSoFar(rows, files, n + 1, loaded)
  {
    var place := files[n].place;
    loaded := ExportImportRoundTrips(rows, before, place);
    LinksAreAdded(before, place, LinksOf(files[n].records), |files[n].records|);
    var next := n + 1;
    forall k | next <= k < |files| ensures Count(loaded, files[k].place) == 0 {
      assert files[n].place != files[k].place;
      assert Count(before, files[k].place) == 0;
      CountOfOthers(before, loaded, files[k].place);
    }
    forall k | 0 <= k < next ensures PlaceArrived(rows, loaded, files[k].place) {
      if k < n {
        assert PlaceArrived(rows, before, files[k].place);
        var base: nat :| PlaceLoaded(rows, before, files[k].place, base);
        LoadedStays(rows, before, loaded, files[k].place, base);
      } else {
        assert PlaceLoaded(rows, loaded, place, |before|);
      }
    }
  }

  lemma {:induction false} FilesLoad(rows: Store, files: seq<File>, n: nat) returns (loaded: Store)
    requires Forest(rows) && Distinct(files) && n <= |files|
    requires forall f :: f in files ==> f.records == Exported(rows, f.place, |rows|)
    ensures AddFiles([], files, n) == (loaded, true) && LoadedSoFar(rows, files, n, loaded)
  {
    if n == 0 {
      loaded := [];
      NothingLoaded(rows, files);
    } else {
      var before := FilesLoad(rows, files, n - 1);
      loaded := OneMoreFile(rows, files, n - 1, before);
    }
  }

  lemma OneMoreFile(rows: Store, files: seq<File>, n: nat, before: Store) returns (loaded: Store)
    requires Forest(rows) && Distinct(files) && n < |files| && LoadedSoFar(rows, files, n, before)
    requires forall f :: f in files ==> f.records == Exported(rows, f.place, |rows|)
    requires AddFiles([], files, n) == (before, true)
    ensures AddFiles([], files, n + 1) == (loaded, true) && LoadedSoFar(rows, files, n + 1, loaded)
  {
    assert files[n] in files;
    loaded := NextFile(rows, files, n, before);
    AddOneFile([], files, n, before, loaded);
  }

  lemma NothingLoaded(rows: Store, files: seq<File>)
    ensures LoadedSoFar(rows, files, 0, [])
  {
    var none: Store := [];
    assert Forest(none);
  }

  lemma AddOneFile(start: Store, files: seq<File>, n: nat, before: Store, loaded: Store)
    requires n < |files| && AddFiles(start, files, n) == (before, true)
    requires ImportFile(before, files[n].place, LinksOf(files[n].records)) == Some(loaded)
    ensures AddFiles(start, files, n + 1) == (loaded, true)
  {
  }

  /** The row has a counterpart: same version, same content, a link to the same version. */
  ghost predicate Arrived(rows: Store, i: nat, loaded: Store) {
    exists base: nat :: SameVersion(rows, i, loaded, base)
  }

  /**
    Exporting every summary of a scope and importing the files into an empty one
    succeeds and brings over every version of every period, with its content and
    its link.
   */
  lemma WholeTableRoundTrips(rows: Store, files: seq<File>) returns (loaded: Store)
    requires Forest(rows) && Distinct(files)
    requires forall f :: f in files ==> f.records == Exported(rows, f.place, |rows|)
    requires Covered(rows, files)
    ensures AddFiles([], files, |files|) == (loaded, true) && Forest(loaded)
    ensures forall i: nat :: i < |rows| ==> Arrived(rows, i, loaded)
  {
    loaded := FilesLoad(rows, files, |files|);
    forall i: nat | i < |rows| ensures Arrived(rows, i, loaded) {
      assert HasFile(files, rows[i].place);
      var k :| 0 <= k < |files| && files[k].place == rows[i].place;
      assert PlaceArrived(rows, loaded, files[k].place);
      var base: nat :| PlaceLoaded(rows, loaded, files[k].place, base);
      assert SameVersion(rows, i, loaded, base);
    }
  }
}
