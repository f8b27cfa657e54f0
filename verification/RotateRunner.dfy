/**
  internal/rotate/rotate.go and the driver loop of cmd/hupi-rotate-key, one call
  at a time: the operations that the rotation protocol takes apart into steps.
 */
module RotateRunner {
  import opened Basics
  import opened FieldCrypto
  import opened KeyVersions
  import opened RowTables
  import opened RotationProtocol
  import RotationSafety

  // --- What one Continue call does ------------------------------------------------

  /** The tables a rotation still has to walk from its cursor on. */
  function TablesFrom(c: Cursor): seq<Table> {
    if c == On(Episodes) then [Episodes, Summaries, Entities]
    else if c == On(Summaries) then [Summaries, Entities]
    else if c == On(Entities) then [Entities]
    else []
  }

  /** The first table from the cursor on that still has rows on the old version. */
  function FirstBusy(rows: Rows, c: Cursor, from: nat): Cursor
    decreases |TablesFrom(c)|
  {
    if TablesFrom(c) == [] then Finished
    else if Pending(rows, TablesFrom(c)[0], from) != {} then c
    else FirstBusy(rows, NextCursor(c), from)
  }

  /** How many rows the tables from the cursor on still have on a version. */
  function BacklogFrom(rows: Rows, c: Cursor, from: nat): nat
    decreases |TablesFrom(c)|
  {
    if TablesFrom(c) == [] then 0
    else |Pending(rows, TablesFrom(c)[0], from)| + BacklogFrom(rows, NextCursor(c), from)
  }

  /** Every row of the backlog, and every key fact beside it, opens with the old key. */
  ghost predicate Opens(rows: Rows, from: nat, key: Dek) {
    forall r :: r in rows && rows[r].version == from ==> SealedWith(rows[r].cells, key)
  }

  lemma BatchOpens(rows: Rows, table: Table, ids: set<nat>, from: nat, to: nat, fromKey: Dek, toKey: Dek)
    requires Opens(rows, from, fromKey) && ids <= Pending(rows, table, from) && from != to
    ensures MigrateRows(rows, table, ids, from, to, fromKey, toKey).Some?
    ensures Opens(MigrateRows(rows, table, ids, from, to, fromKey, toKey).value, from, fromKey)
  {
    forall r | r in Moved(rows, table, ids, from) ensures SealedWith(rows[r].cells, fromKey) {
      RotationSafety.MovedRowsAreOld(rows, table, ids, from, r);
    }
  }

  lemma {:induction false} FirstBusyIsFirst(rows: Rows, c: Cursor, from: nat)
    ensures BacklogFrom(rows, c, from) == BacklogFrom(rows, FirstBusy(rows, c, from), from)
    ensures FirstBusy(rows, c, from) == Finished <==> BacklogFrom(rows, c, from) == 0
    ensures FirstBusy(rows, c, from) != Finished ==>
              && TablesFrom(FirstBusy(rows, c, from)) != []
              && FirstBusy(rows, c, from) == On(TablesFrom(FirstBusy(rows, c, from))[0])
              && Pending(rows, FirstBusy(rows, c, from).table, from) != {}
    decreases |TablesFrom(c)|
  {
    if TablesFrom(c) != [] && Pending(rows, TablesFrom(c)[0], from) == {} {
      FirstBusyIsFirst(rows, NextCursor(c), from);
    }
  }

  lemma PendingSizes(rows: Rows, table: Table, ids: set<nat>, from: nat, to: nat,
                     fromKey: Dek, toKey: Dek, rows': Rows, t: Table)
    requires table != Facts && t != Facts && from != to && ids <= Pending(rows, table, from)
    requires MigrateRows(rows, table, ids, from, to, fromKey, toKey) == Some(rows')
    ensures |Pending(rows', t, from)| == |Pending(rows, t, from)| - if t == table then |ids| else 0
  {
    BatchShrinksPending(rows, table, ids, from, to, fromKey, toKey, rows');
  }

  /** A batch takes exactly as many rows off the backlog as it counts. */
  lemma BatchShrinksBacklog(rows: Rows, c: Cursor, table: Table, ids: set<nat>, from: nat, to: nat,
                            fromKey: Dek, toKey: Dek, rows': Rows)
    requires table in TablesFrom(c) && table != Facts && from != to && ids <= Pending(rows, table, from)
    requires MigrateRows(rows, table, ids, from, to, fromKey, toKey) == Some(rows')
    ensures BacklogFrom(rows', c, from) == BacklogFrom(rows, c, from) - |ids|
  {
    forall t | t in TablesFrom(c)
      ensures |Pending(rows', t, from)| == |Pending(rows, t, from)| - if t == table then |ids| else 0
    {
      PendingSizes(rows, table, ids, from, to, fromKey, toKey, rows', t);
    }
    ShrunkBacklog(rows, c, table, |ids|, from, rows');
  }

  lemma {:induction false} ShrunkBacklog(rows: Rows, c: Cursor, table: Table, n: nat, from: nat, rows': Rows)
    requires table in TablesFrom(c) && |Pending(rows', table, from)| == |Pending(rows, table, from)| - n
    requires forall t :: t in TablesFrom(c) && t != table ==> |Pending(rows', t, from)| == |Pending(rows, t, from)|
    ensures BacklogFrom(rows', c, from) == BacklogFrom(rows, c, from) - n
    decreases |TablesFrom(c)|
  {
    assert TablesFrom(c)[0] in TablesFrom(c);
    if c.table == table {
      SameBacklog(rows, rows', NextCursor(c), from);
    } else {
      ShrunkBacklog(rows, NextCursor(c), table, n, from, rows');
    }
  }

  lemma {:induction false} NoBacklog(rows: Rows, c: Cursor, from: nat, t: Table)
    requires BacklogFrom(rows, c, from) == 0 && t in TablesFrom(c)
    ensures Pending(rows, t, from) == {}
    decreases |TablesFrom(c)|
  {
    if t != TablesFrom(c)[0] {
      NoBacklog(rows, NextCursor(c), from, t);
    }
  }

  lemma {:induction false} SameBacklog(rows: Rows, rows': Rows, c: Cursor, from: nat)
    requires forall t :: t in TablesFrom(c) ==> |Pending(rows', t, from)| == |Pending(rows, t, from)|
    ensures BacklogFrom(rows', c, from) == BacklogFrom(rows, c, from)
    decreases |TablesFrom(c)|
  {
    if TablesFrom(c) != [] {
      assert TablesFrom(c)[0] in TablesFrom(c);
      SameBacklog(rows, rows', NextCursor(c), from);
    }
  }

  /** A batch of a table with rows left finds some, and then that table is the first busy one. */
  lemma FirstBusyHere(rows: Rows, c: Cursor, from: nat, size: nat)
    requires c.On? && c.table != Facts && size >= 1
    ensures BatchOf(rows, c.table, from, size) != {} ==> FirstBusy(rows, c, from) == c
  {
    assert TablesFrom(c)[0] == c.table;
  }

  /** A batch that finds nothing changes nothing, and the rotation moves to the next table. */
  lemma EmptyBatch(rows: Rows, c: Cursor, from: nat, to: nat, size: nat, fromKey: Dek, toKey: Dek)
    requires c.On? && c.table != Facts && size >= 1
    requires |BatchOf(rows, c.table, from, size)| == 0
    ensures FirstBusy(rows, c, from) == FirstBusy(rows, NextCursor(c), from)
    ensures MigrateRows(rows, c.table, BatchOf(rows, c.table, from, size), from, to, fromKey, toKey) == Some(rows)
    ensures |TablesFrom(NextCursor(c))| < |TablesFrom(c)| && NextCursor(c) != On(Facts)
  {
    assert TablesFrom(c)[0] == c.table;
    assert |Pending(rows, c.table, from)| == 0;
    assert Moved(rows, c.table, {}, from) == {};
    assert Resealed(rows, {}, to, toKey) == rows;
  }

  // --- What a batch and a turn leave, row by row ------------------------------------------

  /** Sealed again: the same texts in every column; a note that was NULL, and nothing else, stays NULL. */
  ghost predicate SealedAgain(table: Table, before: Row, after: Row, to: nat, toKey: Dek) {
    && after.version == to && after.owner == before.owner && |after.cells| == |before.cells|
    && forall i :: 0 <= i < |before.cells| ==> CellAgain(table == Episodes && i == 2, before.cells[i], after.cells[i], toKey)
  }

  ghost predicate CellAgain(isNote: bool, before: Blob, after: Blob, toKey: Dek) {
    if before == Null then after == (if isNote then Null else Sealed(toKey, "")) else after == Sealed(toKey, before.text)
  }

  /** A row that a batch of these ids takes along: one of them, or a fact on the old version of a summary among them. */
  ghost predicate TakenAlong(rows: Rows, r: RowId, table: Table, ids: set<nat>, from: nat)
    requires r in rows
  {
    (r.table == table && r.id in ids) || (table == Summaries && r.table == Facts && rows[r].owner in ids && rows[r].version == from)
  }

  /** The first rows by id of those on the old version. */
  ghost predicate FirstOf(rows: Rows, table: Table, from: nat, ids: set<nat>, size: nat) {
    && (forall id :: id in ids ==> RowId(table, id) in rows && rows[RowId(table, id)].version == from)
    && |ids| <= size
    && forall r :: r in rows && r.table == table && rows[r].version == from && r.id !in ids ==>
         |ids| == size && forall id :: id in ids ==> id < r.id
  }

  /** The batch of these ids: they and their facts are sealed again, nothing else is touched; or one does not open, and nothing is. */
  ghost predicate BatchDone(rows: Rows, table: Table, ids: set<nat>, from: nat, to: nat, fromKey: Dek, toKey: Dek,
                            rows': Rows, n: Option<nat>) {
    if n.Some? then
      && n.value == |ids| && rows'.Keys == rows.Keys
      && forall r :: r in rows ==>
           if TakenAlong(rows, r, table, ids, from) then SealedWith(rows[r].cells, fromKey) && SealedAgain(r.table, rows[r], rows'[r], to, toKey)
           else rows'[r] == rows[r]
    else rows' == rows && exists r :: r in rows && TakenAlong(rows, r, table, ids, from) && !SealedWith(rows[r].cells, fromKey)
  }

  lemma ResealIsSealedAgain(table: Table, row: Row, to: nat, toKey: Dek)
    ensures SealedAgain(table, row, ResealRow(table, row, to, toKey), to, toKey)
  {
  }

  lemma BatchIsFirst(rows: Rows, table: Table, from: nat, size: nat)
    ensures FirstOf(rows, table, from, BatchOf(rows, table, from, size), size)
  {
    var ids := BatchOf(rows, table, from, size);
    forall id | id in ids ensures RowId(table, id) in rows && rows[RowId(table, id)].version == from {
      InPending(rows, table, from, id);
    }
    forall r | r in rows && r.table == table && rows[r].version == from && r.id !in ids
      ensures |ids| == size && forall id :: id in ids ==> id < r.id
    {
      assert r == RowId(table, r.id);
      InPending(rows, table, from, r.id);
      LeftOutMeansFull(Pending(rows, table, from), size, r.id);
      forall id | id in ids ensures id < r.id {
        FirstIdsAreLeast(Pending(rows, table, from), size, id, r.id);
      }
    }
  }

  lemma LeftOutMeansFull(ids: set<nat>, n: nat, x: nat)
    requires x in ids && x !in FirstIds(ids, n)
    ensures |FirstIds(ids, n)| == n
  {
    if |ids| < n {
      SubsetSize(FirstIds(ids, n) + {x}, ids);
    }
  }

  lemma MigrateIsDone(rows: Rows, table: Table, ids: set<nat>, from: nat, to: nat, fromKey: Dek, toKey: Dek)
    ensures match MigrateRows(rows, table, ids, from, to, fromKey, toKey)
            case Some(rows') => BatchDone(rows, table, ids, from, to, fromKey, toKey, rows', Some(|ids|))
            case None => BatchDone(rows, table, ids, from, to, fromKey, toKey, rows, None)
  {
    match MigrateRows(rows, table, ids, from, to, fromKey, toKey)
    case Some(rows') =>
      forall r | r in rows
        ensures if TakenAlong(rows, r, table, ids, from) then SealedWith(rows[r].cells, fromKey) && SealedAgain(r.table, rows[r], rows'[r], to, toKey)
                else rows'[r] == rows[r]
      {
        ResealIsSealedAgain(r.table, rows[r], to, toKey);
        assert r in Moved(rows, table, ids, from) <==> TakenAlong(rows, r, table, ids, from);
      }
    case None =>
      var r :| r in Moved(rows, table, ids, from) && !SealedWith(rows[r].cells, fromKey);
      assert TakenAlong(rows, r, table, ids, from);
  }

  // --- What Continue, Prune and a whole run of the driver do ------------------------

  /** answer is None when the call fails; otherwise (rows migrated, done). */
  datatype Turned = Turned(answer: Option<(nat, bool)>, rows: Rows, rotation: Option<Rotation>)

  /**
    At most one batch: the first table from the cursor on that still has rows on
    the old version or, when there is none, the end of the rotation.
   */
  function OneTurn(rows: Rows, st: Rotation, fromKey: Dek, toKey: Dek, size: nat): Turned {
    var busy := FirstBusy(rows, st.cursor, st.from);
    if busy == Finished then Turned(Some((0, true)), rows, Some(st.(cursor := Finished, status := Completed)))
    else
      var ids := BatchOf(rows, busy.table, st.from, size);
      match MigrateRows(rows, busy.table, ids, st.from, st.to, fromKey, toKey)
      case Some(migrated) => Turned(Some((|ids|, false)), migrated, Some(st.(cursor := busy)))
      case None => Turned(None, rows, Some(st.(cursor := busy)))
  }

  function ContinueOnce(rows: Rows, rotation: Option<Rotation>, cache: Cache, keys: KeyTable, batchSize: int): Turned {
    if rotation.None? then Turned(None, rows, rotation)
    else if rotation.value.status != InProgress then Turned(Some((0, true)), rows, rotation)
    else
      var fromKey, toKey := Lookup(cache, keys, rotation.value.from), Lookup(cache, keys, rotation.value.to);
      if fromKey.None? || toKey.None? then Turned(None, rows, rotation)
      else OneTurn(rows, rotation.value, fromKey.value, toKey.value, ClampBatchSize(batchSize))
  }

  /** Episodes, summaries, entities, and the end. */
  function Rank(c: Cursor): nat {
    match c
    case Finished => 3
    case On(Episodes) => 0
    case On(Summaries) => 1
    case On(Entities) => 2
    case On(Facts) => 3
  }

  /** The tables from one cursor up to another have nothing on the version. */
  ghost predicate DoneUpTo(rows: Rows, from: nat, c: Cursor, c': Cursor) {
    && Rank(c) <= Rank(c')
    && forall r :: r in rows && r.table != Facts && Rank(c) <= Rank(On(r.table)) < Rank(c') ==> rows[r].version != from
  }

  function Clamped(n: int): nat {
    if n < 1 then 1 else if n > 5000 then 5000 else n
  }

  /** At the next table with rows left: one batch of its first rows, or a failure that leaves just the cursor; or the end. */
  ghost predicate TurnAt(rows: Rows, st: Rotation, fromKey: Dek, toKey: Dek, size: nat, out: Turned, c: Cursor, ids: set<nat>) {
    && DoneUpTo(rows, st.from, st.cursor, c)
    && if c == Finished then
         out == Turned(Some((0, true)), rows, Some(st.(cursor := Finished, status := Completed)))
       else
         && c != On(Facts) && ids != {} && FirstOf(rows, c.table, st.from, ids, size) && out.rotation == Some(st.(cursor := c))
         && (out.answer.Some? ==> !out.answer.value.1)
         && BatchDone(rows, c.table, ids, st.from, st.to, fromKey, toKey, out.rows,
                      if out.answer.Some? then Some(out.answer.value.0) else None)
  }

  function KeyOf(cache: Cache, keys: KeyTable, v: nat): Option<Dek> {
    if v in cache then Some(cache[v]) else if v in keys then Some(keys[v]) else None
  }

  /** What a Continue call answers and leaves. */
  ghost predicate TurnDone(rows: Rows, rotation: Option<Rotation>, cache: Cache, keys: KeyTable, batchSize: int, out: Turned) {
    if rotation.None? then out == Turned(None, rows, rotation)
    else if rotation.value.status != InProgress then out == Turned(Some((0, true)), rows, rotation)
    else
      var st := rotation.value;
      var fromKey, toKey := KeyOf(cache, keys, st.from), KeyOf(cache, keys, st.to);
      if fromKey.None? || toKey.None? then out == Turned(None, rows, rotation)
      else exists c, ids :: TurnAt(rows, st, fromKey.value, toKey.value, Clamped(batchSize), out, c, ids)
  }

  lemma {:induction false} BusyIsNext(rows: Rows, c: Cursor, from: nat)
    requires c != On(Facts)
    ensures DoneUpTo(rows, from, c, FirstBusy(rows, c, from)) && FirstBusy(rows, c, from) != On(Facts)
    decreases |TablesFrom(c)|
  {
    if TablesFrom(c) != [] && Pending(rows, TablesFrom(c)[0], from) == {} {
      BusyIsNext(rows, NextCursor(c), from);
      forall r | r in rows && r.table == TablesFrom(c)[0] ensures rows[r].version != from {
        assert r == RowId(r.table, r.id);
        InPending(rows, r.table, from, r.id);
      }
    }
  }

  lemma TurnIsDone(rows: Rows, rotation: Option<Rotation>, cache: Cache, keys: KeyTable, batchSize: int)
    requires rotation.Some? ==> rotation.value.cursor != On(Facts)
    ensures TurnDone(rows, rotation, cache, keys, batchSize, ContinueOnce(rows, rotation, cache, keys, batchSize))
  {
    if rotation.Some? && rotation.value.status == InProgress {
      var st, size := rotation.value, ClampBatchSize(batchSize);
      var fromKey, toKey := KeyOf(cache, keys, st.from), KeyOf(cache, keys, st.to);
      if fromKey.Some? && toKey.Some? {
        OneTurnIsAt(rows, st, fromKey.value, toKey.value, size);
        assert size == Clamped(batchSize);
      }
    }
  }

  lemma OneTurnIsAt(rows: Rows, st: Rotation, fromKey: Dek, toKey: Dek, size: nat)
    requires st.cursor != On(Facts) && size >= 1
    ensures exists c, ids :: TurnAt(rows, st, fromKey, toKey, size, OneTurn(rows, st, fromKey, toKey, size), c, ids)
  {
    var c := FirstBusy(rows, st.cursor, st.from);
    BusyIsNext(rows, st.cursor, st.from);
    FirstBusyIsFirst(rows, st.cursor, st.from);
    if c == Finished {
      assert TurnAt(rows, st, fromKey, toKey, size, OneTurn(rows, st, fromKey, toKey, size), c, {});
    } else {
      var ids := BatchOf(rows, c.table, st.from, size);
      BatchIsFirst(rows, c.table, st.from, size);
      MigrateIsDone(rows, c.table, ids, st.from, st.to, fromKey, toKey);
      assert |ids| >= 1;
      assert TurnAt(rows, st, fromKey, toKey, size, OneTurn(rows, st, fromKey, toKey, size), c, ids);
    }
  }

  /** A rotation in progress, as the database holds it. */
  predicate Sound(rotation: Option<Rotation>) {
    rotation.Some? ==> rotation.value.from < rotation.value.to && rotation.value.cursor != On(Facts)
  }

  ghost predicate SameTexts(rows: Rows, rows': Rows) {
    rows'.Keys == rows.Keys && forall r :: r in rows ==> PlainCells(rows'[r].cells) == PlainCells(rows[r].cells)
  }

  /** The old key is to be had, so is the new one, and everything on the old version opens. */
  ghost predicate CanFinish(rows: Rows, st: Rotation, cache: Cache, keys: KeyTable) {
    && Lookup(cache, keys, st.from).Some? && Lookup(cache, keys, st.to).Some?
    && Opens(rows, st.from, Lookup(cache, keys, st.from).value)
  }

  /** The walk that began at the first cursor has left nothing behind the second. */
  ghost predicate Covers(rows: Rows, first: Cursor, c: Cursor, from: nat) {
    && (forall t :: t in TablesFrom(c) ==> t in TablesFrom(first))
    && BacklogFrom(rows, first, from) == BacklogFrom(rows, c, from)
  }

  /** One successful batch of the first busy table. */
  lemma BusyBatch(rows: Rows, first: Cursor, c: Cursor, ids: set<nat>, from: nat, to: nat, fromKey: Dek, toKey: Dek, rows': Rows)
    requires Covers(rows, first, c, from) && from < to && FirstBusy(rows, c, from) != Finished
    requires var busy := FirstBusy(rows, c, from);
             && ids <= Pending(rows, busy.table, from)
             && MigrateRows(rows, busy.table, ids, from, to, fromKey, toKey) == Some(rows')
    ensures Covers(rows', first, FirstBusy(rows, c, from), from)
    ensures BacklogFrom(rows', first, from) == BacklogFrom(rows, first, from) - |ids|
  {
    var busy := FirstBusy(rows, c, from);
    FirstBusyIsFirst(rows, c, from);
    assert busy.table in TablesFrom(busy);
    BatchShrinksBacklog(rows, busy, busy.table, ids, from, to, fromKey, toKey, rows');
    BatchShrinksBacklog(rows, first, busy.table, ids, from, to, fromKey, toKey, rows');
  }

  /** What a call that succeeds has done to the backlog. */
  ghost predicate Progress(rows: Rows, st: Rotation, out: Turned, first: Cursor)
    requires out.answer.Some?
  {
    var (n, done) := out.answer.value;
    var left := BacklogFrom(rows, first, st.from);
    && (done <==> left == 0)
    && (done ==> n == 0 && out.rows == rows
                 && out.rotation == Some(st.(status := Completed, cursor := Finished)))
    && (!done ==> n > 0 && out.rotation.Some? && out.rotation.value.status == InProgress
                  && BacklogFrom(out.rows, first, st.from) == left - n
                  && Covers(out.rows, first, out.rotation.value.cursor, st.from))
  }

  /** What every call leaves alone. */
  ghost predicate Kept(rows: Rows, st: Rotation, out: Turned) {
    && SameTexts(rows, out.rows)
    && (RotationSafety.FactsInv(rows) ==> RotationSafety.FactsInv(out.rows))
    && Sound(out.rotation) && out.rotation.Some?
    && out.rotation.value.from == st.from && out.rotation.value.to == st.to
  }

  lemma BatchKeeps(rows: Rows, table: Table, ids: set<nat>, from: nat, to: nat, fromKey: Dek, toKey: Dek)
    requires table != Facts && from != to && ids <= Pending(rows, table, from)
    ensures var migrated := MigrateRows(rows, table, ids, from, to, fromKey, toKey);
            && (Opens(rows, from, fromKey) ==> migrated.Some? && Opens(migrated.value, from, fromKey))
            && (migrated.Some? ==>
                  && SameTexts(rows, migrated.value)
                  && (RotationSafety.FactsInv(rows) ==> RotationSafety.FactsInv(migrated.value)))
  {
    if Opens(rows, from, fromKey) {
      BatchOpens(rows, table, ids, from, to, fromKey, toKey);
    }
    var migrated := MigrateRows(rows, table, ids, from, to, fromKey, toKey);
    if migrated.Some? && RotationSafety.FactsInv(rows) {
      RotationSafety.MigrateKeepsFacts(rows, table, ids, from, to, fromKey, toKey, migrated.value);
    }
  }

  lemma BusyTurn(rows: Rows, st: Rotation, fromKey: Dek, toKey: Dek, size: nat, first: Cursor)
    requires Sound(Some(st)) && st.status == InProgress && Covers(rows, first, st.cursor, st.from) && size >= 1
    requires FirstBusy(rows, st.cursor, st.from) != Finished
    ensures var out := OneTurn(rows, st, fromKey, toKey, size);
            && Kept(rows, st, out)
            && (Opens(rows, st.from, fromKey) ==> out.answer.Some? && Opens(out.rows, st.from, fromKey))
            && (out.answer.Some? ==> Progress(rows, st, out, first))
  {
    var busy := FirstBusy(rows, st.cursor, st.from);
    FirstBusyIsFirst(rows, st.cursor, st.from);
    var ids := BatchOf(rows, busy.table, st.from, size);
    BatchKeeps(rows, busy.table, ids, st.from, st.to, fromKey, toKey);
    var migrated := MigrateRows(rows, busy.table, ids, st.from, st.to, fromKey, toKey);
    if migrated.Some? {
      BusyBatch(rows, first, st.cursor, ids, st.from, st.to, fromKey, toKey, migrated.value);
    }
  }

  lemma LastTurn(rows: Rows, st: Rotation, fromKey: Dek, toKey: Dek, size: nat, first: Cursor)
    requires Sound(Some(st)) && Covers(rows, first, st.cursor, st.from)
    requires FirstBusy(rows, st.cursor, st.from) == Finished
    ensures var out := OneTurn(rows, st, fromKey, toKey, size);
            out.rows == rows && out.answer.Some? && Kept(rows, st, out) && Progress(rows, st, out, first)
  {
    FirstBusyIsFirst(rows, st.cursor, st.from);
  }

  /**
    Every call either fails, or takes exactly as many rows off the backlog as it
    reports, or reports that the backlog is empty; no call changes a text.
   */
  lemma ContinueMakesProgress(rows: Rows, st: Rotation, cache: Cache, keys: KeyTable, batchSize: int, first: Cursor)
    requires Sound(Some(st)) && st.status == InProgress && Covers(rows, first, st.cursor, st.from)
    ensures var out := ContinueOnce(rows, Some(st), cache, keys, batchSize);
            && Kept(rows, st, out)
            && (CanFinish(rows, st, cache, keys) ==> out.answer.Some? && CanFinish(out.rows, st, cache, keys))
            && (out.answer.Some? ==> Progress(rows, st, out, first))
  {
    var fromKey, toKey := Lookup(cache, keys, st.from), Lookup(cache, keys, st.to);
    if fromKey.Some? && toKey.Some? {
      if FirstBusy(rows, st.cursor, st.from) == Finished {
        LastTurn(rows, st, fromKey.value, toKey.value, ClampBatchSize(batchSize), first);
      } else {
        BusyTurn(rows, st, fromKey.value, toKey.value, ClampBatchSize(batchSize), first);
      }
    }
  }

  // --- One batch, row by row ----------------------------------------------------------

  function FactsOf(rows: Rows, summary: nat, version: nat): set<RowId> {
    set f | f in rows && f.table == Facts && rows[f].owner == summary && rows[f].version == version
  }

  /** The rows that go with one chosen id. */
  function Share(rows: Rows, table: Table, id: nat, version: nat): set<RowId> {
    if table == Summaries then {RowId(table, id)} + FactsOf(rows, id, version) else {RowId(table, id)}
  }

  lemma MovedGrows(rows: Rows, table: Table, done: set<nat>, id: nat, from: nat)
    requires RowId(table, id) in rows && table != Facts && id !in done
    ensures Moved(rows, table, done + {id}, from) == Moved(rows, table, done, from) + Share(rows, table, id, from)
    ensures Moved(rows, table, done, from) !! Share(rows, table, id, from)
  {
  }

  lemma ShareUntouched(rows: Rows, chosen: set<RowId>, table: Table, id: nat, from: nat, to: nat, toKey: Dek)
    requires from != to && RowId(table, id) in rows && chosen !! Share(rows, table, id, from)
    ensures var out := Resealed(rows, chosen, to, toKey);
            && Share(out, table, id, from) == Share(rows, table, id, from)
            && forall r :: r in Share(rows, table, id, from) ==> out[r] == rows[r]
  {
    if table == Summaries {
      FactsUntouched(rows, chosen, id, from, to, toKey);
    }
  }

  lemma BatchMovesShare(rows: Rows, table: Table, ids: set<nat>, id: nat, from: nat)
    requires RowId(table, id) in rows && table != Facts && id in ids
    ensures Share(rows, table, id, from) <= Moved(rows, table, ids, from)
  {
  }

  /** One more id of a batch: its share has not been touched yet, and sealing it again extends what is done. */
  lemma BatchStep(rows: Rows, table: Table, ids: set<nat>, done: set<nat>, id: nat, from: nat, to: nat, toKey: Dek)
    requires table != Facts && from != to && ids <= Pending(rows, table, from)
    requires id in ids && id !in done
    ensures RowId(table, id) in rows
    ensures var moved, share := Moved(rows, table, done, from), Share(rows, table, id, from);
            var out := Resealed(rows, moved, to, toKey);
            && Moved(rows, table, done + {id}, from) == moved + share
            && share <= Moved(rows, table, ids, from)
            && Share(out, table, id, from) == share
            && (forall r :: r in share ==> r in rows && out[r] == rows[r])
            && Resealed(out, share, to, toKey) == Resealed(rows, moved + share, to, toKey)
  {
    InPending(rows, table, from, id);
    MovedGrows(rows, table, done, id, from);
    BatchMovesShare(rows, table, ids, id, from);
    ShareUntouched(rows, Moved(rows, table, done, from), table, id, from, to, toKey);
    ResealedTwice(rows, Moved(rows, table, done, from), Share(rows, table, id, from), to, toKey);
  }

  lemma ResealedTwice(rows: Rows, a: set<RowId>, b: set<RowId>, to: nat, toKey: Dek)
    requires a !! b
    ensures Resealed(Resealed(rows, a, to, toKey), b, to, toKey) == Resealed(rows, a + b, to, toKey)
  {
  }

  lemma FactsUntouched(rows: Rows, chosen: set<RowId>, summary: nat, from: nat, to: nat, toKey: Dek)
    requires from != to && chosen !! FactsOf(rows, summary, from)
    ensures FactsOf(Resealed(rows, chosen, to, toKey), summary, from) == FactsOf(rows, summary, from)
  {
  }

  // --- The database and the operations -----------------------------------------------

  class RotationDb {
    const keyDb: KeyDb
    var rows: Rows
    var rotation: Option<Rotation>

    constructor (keyDb: KeyDb)
      ensures this.keyDb == keyDb && rows == map[] && rotation == None
    {
      this.keyDb := keyDb;
      rows := map[];
      rotation := None;
    }
  }

  class Runner {
    const db: RotationDb
    const keys: KeyStore

    ghost predicate Valid()
      reads db
    {
      keys.db == db.keyDb && Sound(db.rotation)
    }

    constructor (db: RotationDb, keys: KeyStore)
      requires keys.db == db.keyDb && Sound(db.rotation)
      ensures Valid() && this.db == db && this.keys == keys
    {
      this.db := db;
      this.keys := keys;
    }

    /** None is "nothing to rotate". */
    method Start(generated: Dek) returns (pair: Option<(nat, nat)>)
      requires Valid()
      modifies db`rotation, keys`cache, keys.db`keys
      ensures Valid()
      ensures old(db.rotation.Some? && db.rotation.value.status == InProgress) ==>
                && db.rotation == old(db.rotation) && keys.db.keys == old(keys.db.keys)
                && pair == Some((db.rotation.value.from, db.rotation.value.to)) && keys.cache == old(keys.cache)
      ensures !old(db.rotation.Some? && db.rotation.value.status == InProgress) ==>
                var n := old(Current(keys.db.keys));
                if n == 0 then pair == None && db.rotation == old(db.rotation) && keys.db.keys == old(keys.db.keys)
                else
                  && pair == Some((n, n + 1)) && Current(keys.db.keys) == n + 1
                  && keys.db.keys == old(keys.db.keys)[n + 1 := generated]
                  && db.rotation == Some(Rotation(n, n + 1, InProgress, On(Episodes)))
                  && keys.cache == Remember(old(keys.cache), keys.db.keys, n + 1)
    {
      if db.rotation.Some? && db.rotation.value.status == InProgress {
        return Some((db.rotation.value.from, db.rotation.value.to));
      }
      var from := keys.CurrentVersion();
      if from == 0 {
        return None;
      }
      var to := keys.CreateNextVersion(generated);
      db.rotation := Some(Rotation(from, to.value, InProgress, On(Episodes)));
      pair := Some((from, to.value));
    }

    /** migrateKeyFacts, on the rows as the transaction sees them: opened, sealed again, or an error. */
    method MigrateKeyFacts(rows: Rows, summary: nat, fromKey: Dek, toKey: Dek, from: nat, to: nat)
      returns (migrated: Option<Rows>)
      requires from != to
      ensures migrated.Some? <==> forall f :: f in FactsOf(rows, summary, from) ==> SealedWith(rows[f].cells, fromKey)
      ensures migrated.Some? ==> migrated.value == Resealed(rows, FactsOf(rows, summary, from), to, toKey)
    {
      var facts := FactsOf(rows, summary, from);
      var todo, out := facts, rows;
      while todo != {}
        invariant todo <= facts
        invariant forall f :: f in facts - todo ==> SealedWith(rows[f].cells, fromKey)
        invariant out == Resealed(rows, facts - todo, to, toKey)
        decreases todo
      {
        var f :| f in todo;
        if DecryptEach(fromKey, out[f].cells).None? {
          return None;
        }
        out := out[f := ResealRow(Facts, out[f], to, toKey)];
        ResealedTwice(rows, facts - todo, {f}, to, toKey);
        assert out == Resealed(Resealed(rows, facts - todo, to, toKey), {f}, to, toKey);
        assert facts - (todo - {f}) == (facts - todo) + {f};
        todo := todo - {f};
      }
      assert facts - todo == facts;
      migrated := Some(out);
    }

    /** The body of a batch's loop: one row and, with a summary, its facts. */
    method MigrateOne(rows: Rows, table: Table, id: nat, fromKey: Dek, toKey: Dek, from: nat, to: nat)
      returns (migrated: Option<Rows>)
      requires RowId(table, id) in rows && table != Facts && from != to
      ensures migrated.Some? <==> forall r :: r in Share(rows, table, id, from) ==> SealedWith(rows[r].cells, fromKey)
      ensures migrated.Some? ==> migrated.value == Resealed(rows, Share(rows, table, id, from), to, toKey)
    {
      var r := RowId(table, id);
      if DecryptEach(fromKey, rows[r].cells).None? {
        return None;
      }
      var out := rows[r := ResealRow(table, rows[r], to, toKey)];
      assert out == Resealed(rows, {r}, to, toKey);
      if table == Summaries {
        FactsUntouched(rows, {r}, id, from, to, toKey);
        migrated := MigrateKeyFacts(out, id, fromKey, toKey, from, to);
        ResealedTwice(rows, {r}, FactsOf(rows, id, from), to, toKey);
      } else {
        migrated := Some(out);
      }
    }

    /**
      The loop of a migrate...Batch transaction: every chosen row, and every key
      fact of a chosen summary that is still on the old version, is opened and
      sealed again; the first one that does not open fails the batch.
     */
    method MigrateChosen(before: Rows, table: Table, ids: set<nat>, fromKey: Dek, toKey: Dek, from: nat, to: nat)
      returns (migrated: Option<Rows>)
      requires table != Facts && from != to && ids <= Pending(before, table, from)
      ensures migrated == MigrateRows(before, table, ids, from, to, fromKey, toKey)
    {
      var rows, todo := before, ids;
      while todo != {}
        invariant todo <= ids
        invariant forall r :: r in Moved(before, table, ids - todo, from) ==> SealedWith(before[r].cells, fromKey)
        invariant rows == Resealed(before, Moved(before, table, ids - todo, from), to, toKey)
        decreases todo
      {
        var id :| id in todo;
        BatchStep(before, table, ids, ids - todo, id, from, to, toKey);
        var one := MigrateOne(rows, table, id, fromKey, toKey, from, to);
        if one.None? {
          return None;
        }
        assert ids - (todo - {id}) == (ids - todo) + {id};
        rows, todo := one.value, todo - {id};
      }
      assert ids - todo == ids;
      migrated := Some(rows);
    }

    /** One migrate...Batch transaction: it commits as a whole or rolls back as a whole. */
    method MigrateBatch(table: Table, fromKey: Dek, toKey: Dek, from: nat, to: nat, size: nat) returns (n: Option<nat>)
      requires table != Facts && from != to
      modifies db`rows
      ensures var ids := BatchOf(old(db.rows), table, from, size);
              match MigrateRows(old(db.rows), table, ids, from, to, fromKey, toKey)
              case Some(migrated) => n == Some(|ids|) && db.rows == migrated
              case None => n == None && db.rows == old(db.rows)
      ensures exists ids ::
                && FirstOf(old(db.rows), table, from, ids, size)
                && BatchDone(old(db.rows), table, ids, from, to, fromKey, toKey, db.rows, n)
    {
      BatchIsFirst(db.rows, table, from, size);
      MigrateIsDone(db.rows, table, BatchOf(db.rows, table, from, size), from, to, fromKey, toKey);
      var ids := BatchOf(db.rows, table, from, size);
      var migrated := MigrateChosen(db.rows, table, ids, fromKey, toKey, from, to);
      if migrated.None? {
        return None;
      }
      db.rows := migrated.value;
      n := Some(|ids|);
    }

    method SetCursorTable(c: Cursor)
      modifies db`rotation
      ensures db.rotation == if old(db.rotation).Some? then Some(old(db.rotation).value.(cursor := c)) else None
    {
      if db.rotation.Some? {
        db.rotation := Some(db.rotation.value.(cursor := c));
      }
    }

    method MarkCompleted()
      modifies db`rotation
      ensures db.rotation == if old(db.rotation).Some? then Some(old(db.rotation).value.(status := Completed)) else None
    {
      if db.rotation.Some? {
        db.rotation := Some(db.rotation.value.(status := Completed));
      }
    }

    method Continue(batchSize: int) returns (r: Option<(nat, bool)>)
      requires Valid()
      modifies db`rows, db`rotation, keys`cache
      ensures Valid()
      ensures SameAnswers(old(keys.cache), keys.cache, keys.db.keys)
      ensures var out := old(ContinueOnce(db.rows, db.rotation, keys.cache, keys.db.keys, batchSize));
              r == out.answer && db.rows == out.rows && db.rotation == out.rotation
      ensures TurnDone(old(db.rows), old(db.rotation), old(keys.cache), keys.db.keys, batchSize, Turned(r, db.rows, db.rotation))
    {
      TurnIsDone(db.rows, db.rotation, keys.cache, keys.db.keys, batchSize);
      var size := ClampBatchSize(batchSize);
      if db.rotation.None? {
        return None;
      }
      var st := db.rotation.value;
      if st.status != InProgress {
        return Some((0, true));
      }
      var fromKey := keys.GetVersion(st.from);
      RememberChangesNoAnswer(old(keys.cache), keys.db.keys, st.from);
      if fromKey.None? {
        return None;
      }
      RememberChangesNoAnswer(keys.cache, keys.db.keys, st.to);
      var toKey := keys.GetVersion(st.to);
      if toKey.None? {
        return None;
      }
      r := MigrateFromCursor(size, st, fromKey.value, toKey.value);
    }

    /** Continue's loop over the tables. */
    method MigrateFromCursor(size: nat, st: Rotation, fromKey: Dek, toKey: Dek) returns (r: Option<(nat, bool)>)
      requires db.rotation == Some(st) && Sound(Some(st)) && size >= 1
      modifies db`rows, db`rotation
      ensures var out := OneTurn(old(db.rows), st, fromKey, toKey, size);
              r == out.answer && db.rows == out.rows && db.rotation == out.rotation
      ensures Sound(db.rotation)
    {
      var cursor := st.cursor;
      while cursor != Finished
        invariant db.rows == old(db.rows) && db.rotation == Some(st.(cursor := cursor))
        invariant cursor != On(Facts)
        invariant FirstBusy(db.rows, cursor, st.from) == FirstBusy(db.rows, st.cursor, st.from)
        decreases |TablesFrom(cursor)|
      {
        var n := MigrateBatch(cursor.table, fromKey, toKey, st.from, st.to, size);
        if n.None? || n.value > 0 {
          FirstBusyHere(old(db.rows), cursor, st.from, size);
          return if n.None? then None else Some((n.value, false));
        }
        EmptyBatch(old(db.rows), cursor, st.from, st.to, size, fromKey, toKey);
        cursor := NextCursor(cursor);
        SetCursorTable(cursor);
      }
      MarkCompleted();
      r := Some((0, true));
    }

    /** None is a refusal; otherwise how many versions were deleted. */
    method Prune() returns (pruned: Option<nat>)
      requires Valid()
      modifies keys`cache, keys.db`keys
      ensures Valid()
      ensures pruned.Some? <==> MayPrune(db.rows, db.rotation)
      ensures pruned.None? ==> keys.db.keys == old(keys.db.keys) && keys.cache == old(keys.cache)
      ensures pruned.Some? ==>
                var st := db.rotation.value;
                && (forall v :: v in keys.db.keys <==> v in old(keys.db.keys) && st.to <= v)
                && (forall v :: v in keys.db.keys ==> keys.db.keys[v] == old(keys.db.keys)[v])
                && pruned.value == |old(keys.db.keys)| - |keys.db.keys|
                && (forall v :: v in keys.cache <==> v in old(keys.cache) && !(st.from <= v < st.to))
                && (forall v :: v in keys.cache ==> keys.cache[v] == old(keys.cache)[v])
                && (forall r :: r in db.rows && db.rows[r].version in old(keys.db.keys) ==>
                      db.rows[r].version in keys.db.keys)
    {
      if db.rotation.None? || db.rotation.value.status != Completed {
        return None;
      }
      var st := db.rotation.value;
      if exists r :: r in db.rows && db.rows[r].version < st.to {
        return None;
      }
      var before := keys.db.keys;
      keys.db.keys := map v | v in before && st.to <= v :: before[v];
      DeletedCount(before, keys.db.keys, st.to);
      EvictRange(st.from, st.to);
      pruned := Some(|before| - |keys.db.keys|);
    }

    method EvictRange(from: nat, to: nat)
      requires from <= to
      modifies keys`cache
      ensures forall v :: v in keys.cache <==> v in old(keys.cache) && !(from <= v < to)
      ensures forall v :: v in keys.cache ==> keys.cache[v] == old(keys.cache)[v]
    {
      var v := from;
      while v < to
        invariant from <= v <= to
        invariant forall w :: w in keys.cache <==> w in old(keys.cache) && !(from <= w < v)
        invariant forall w :: w in keys.cache ==> keys.cache[w] == old(keys.cache)[w]
      {
        keys.Evict(v);
        v := v + 1;
      }
    }

    /**
      The driver of cmd/hupi-rotate-key: Start, then Continue until done. It
      answers with the number of rows migrated.
     */
    method RotateToCompletion(generated: Dek, batchSize: int) returns (total: Option<nat>)
      requires Valid()
      modifies db`rows, db`rotation, keys`cache, keys.db`keys
      ensures Valid() && SameTexts(old(db.rows), db.rows)
      ensures var n, from := old(Current(keys.db.keys)), old(FromVersion(db.rotation, keys.db.keys));
              !old(Underway(db.rotation)) && n >= 1 && old(Opens(db.rows, n, Lookup(keys.cache, keys.db.keys, n).value))
              ==> total.Some?
      ensures total.Some? ==>
                var from, cursor := old(FromVersion(db.rotation, keys.db.keys)), old(FromCursor(db.rotation));
                && total.value == BacklogFrom(old(db.rows), cursor, from)
                && (forall t :: t in TablesFrom(cursor) ==> Pending(db.rows, t, from) == {})
                && db.rotation.Some? && db.rotation.value.status == Completed && db.rotation.value.from == from
      ensures total.Some? && !old(Underway(db.rotation)) && RotationSafety.FactsInv(old(db.rows)) ==>
                forall r :: r in db.rows ==> db.rows[r].version != old(Current(keys.db.keys))
    {
      ghost var rows, keysBefore := db.rows, keys.db.keys;
      var pair := Start(generated);
      if pair.None? {
        return None;
      }
      if !old(Underway(db.rotation)) {
        NextKeyIsNews(keysBefore, old(keys.cache), generated);
      }
      total := ContinueUntilDone(batchSize);
      if total.Some? {
        BacklogOver(rows, db.rows, old(FromCursor(db.rotation)), old(FromVersion(db.rotation, keys.db.keys)));
      }
    }

    /** The driver's loop. */
    method ContinueUntilDone(batchSize: int) returns (total: Option<nat>)
      requires Valid() && Underway(db.rotation)
      modifies db`rows, db`rotation, keys`cache
      ensures Valid() && SameTexts(old(db.rows), db.rows)
      ensures RotationSafety.FactsInv(old(db.rows)) ==> RotationSafety.FactsInv(db.rows)
      ensures old(CanFinish(db.rows, db.rotation.value, keys.cache, keys.db.keys)) ==> total.Some?
      ensures total.Some? ==>
                var st := old(db.rotation.value);
                && total.value == BacklogFrom(old(db.rows), st.cursor, st.from)
                && BacklogFrom(db.rows, st.cursor, st.from) == 0
                && db.rotation == Some(st.(status := Completed, cursor := Finished))
    {
      ghost var start := db.rotation.value;
      var done, sum := false, 0;
      while !done
        invariant Valid() && SameTexts(old(db.rows), db.rows)
        invariant RotationSafety.FactsInv(old(db.rows)) ==> RotationSafety.FactsInv(db.rows)
        invariant sum + BacklogFrom(db.rows, start.cursor, start.from) == BacklogFrom(old(db.rows), start.cursor, start.from)
        invariant db.rotation.Some? && db.rotation.value.from == start.from && db.rotation.value.to == start.to
        invariant !done ==> Underway(db.rotation) && Covers(db.rows, start.cursor, db.rotation.value.cursor, start.from)
        invariant !done && old(CanFinish(db.rows, db.rotation.value, keys.cache, keys.db.keys)) ==>
                    CanFinish(db.rows, db.rotation.value, keys.cache, keys.db.keys)
        invariant done ==> BacklogFrom(db.rows, start.cursor, start.from) == 0
        invariant done ==> db.rotation == Some(start.(status := Completed, cursor := Finished))
        decreases BacklogFrom(db.rows, start.cursor, start.from), if done then 0 else 1
      {
        ContinueMakesProgress(db.rows, db.rotation.value, keys.cache, keys.db.keys, batchSize, start.cursor);
        var turn := Continue(batchSize);
        if turn.None? {
          return None;
        }
        sum, done := sum + turn.value.0, turn.value.1;
      }
      total := Some(sum);
    }
  }

  /** Prune's two conditions: a completed rotation, and no row anywhere below its new version. */
  predicate MayPrune(rows: Rows, rotation: Option<Rotation>) {
    && rotation.Some? && rotation.value.status == Completed
    && forall r :: r in rows ==> rotation.value.to <= rows[r].version
  }

  predicate Underway(rotation: Option<Rotation>) {
    rotation.Some? && rotation.value.status == InProgress
  }

  /** The version a driver that starts now rotates away from, and where it begins. */
  function FromVersion(rotation: Option<Rotation>, keys: KeyTable): nat {
    if Underway(rotation) then rotation.value.from else Current(keys)
  }

  function FromCursor(rotation: Option<Rotation>): Cursor {
    if Underway(rotation) then rotation.value.cursor else On(Episodes)
  }

  ghost predicate SameAnswers(cache: Cache, cache': Cache, keys: KeyTable) {
    forall v: nat :: Lookup(cache', keys, v) == Lookup(cache, keys, v)
  }

  lemma RememberChangesNoAnswer(cache: Cache, keys: KeyTable, v: nat)
    ensures SameAnswers(cache, Remember(cache, keys, v), keys)
  {
  }

  /** A new version changes no older answer and can be looked up itself. */
  lemma NextKeyIsNews(keys: KeyTable, cache: Cache, generated: Dek)
    requires Current(keys) >= 1
    ensures var n := Current(keys);
            var keys' := keys[n + 1 := generated];
            var cache' := Remember(cache, keys', n + 1);
            Lookup(cache', keys', n) == Lookup(cache, keys, n) && Lookup(cache, keys, n).Some?
            && Lookup(cache', keys', n + 1).Some?
  {
  }

  lemma DeletedCount(before: KeyTable, after: KeyTable, to: nat)
    requires after == map v | v in before && to <= v :: before[v]
    ensures |after| <= |before|
  {
    assert after.Keys <= before.Keys;
    SubsetSize(after.Keys, before.Keys);
  }

  lemma {:induction false} SubsetSize(a: set<nat>, b: set<nat>)
    requires a <= b
    ensures |a| <= |b|
  {
    if a != {} {
      var x :| x in a;
      SubsetSize(a - {x}, b - {x});
    }
  }

  /** An empty backlog, table by table and, after a whole walk, row by row. */
  lemma BacklogOver(rows: Rows, rows': Rows, c: Cursor, from: nat)
    requires BacklogFrom(rows', c, from) == 0
    requires RotationSafety.FactsInv(rows) ==> RotationSafety.FactsInv(rows')
    ensures forall t :: t in TablesFrom(c) ==> Pending(rows', t, from) == {}
    ensures c == On(Episodes) && RotationSafety.FactsInv(rows) ==> forall r :: r in rows' ==> rows'[r].version != from
  {
    forall t | t in TablesFrom(c) ensures Pending(rows', t, from) == {} {
      NoBacklog(rows', c, from, t);
    }
    if c == On(Episodes) && RotationSafety.FactsInv(rows) {
      NoRowOnOldVersion(rows', from);
    }
  }

  lemma NoRowOnOldVersion(rows: Rows, from: nat)
    requires RotationSafety.FactsInv(rows)
    requires forall t :: t in TablesFrom(On(Episodes)) ==> Pending(rows, t, from) == {}
    ensures forall r :: r in rows ==> rows[r].version != from
  {
    forall r | r in rows ensures rows[r].version != from {
      assert RotationSafety.FactInv(rows, r);
      var holder := if r.table == Facts then RowId(Summaries, rows[r].owner) else r;
      assert holder.table in TablesFrom(On(Episodes));
      InPending(rows, holder.table, from, holder.id);
    }
  }
}
