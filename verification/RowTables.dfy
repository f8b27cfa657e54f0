/**
  The encrypted tables of one scope and what one migration transaction of
  internal/rotate/rotate.go does to them. Rows of all four tables live in one
  map; a key fact names the summary it belongs to.
 */
module RowTables {
  import opened Basics
  import opened FieldCrypto

  datatype Table = Episodes | Summaries | Entities | Facts

  datatype RowId = RowId(table: Table, id: nat)

  /** owner is the parent summary of a key fact and means nothing elsewhere. */
  datatype Row = Row(version: nat, cells: seq<Blob>, owner: nat)

  type Rows = map<RowId, Row>

  /** key_rotations.cursor_table */
  datatype Cursor = On(table: Table) | Finished

  function NextCursor(c: Cursor): Cursor {
    if c == On(Episodes) then On(Summaries)
    else if c == On(Summaries) then On(Entities)
    else Finished
  }

  const MAX_BATCH_SIZE: nat := 5000

  function ClampBatchSize(n: int): (size: nat)
    ensures 1 <= size <= MAX_BATCH_SIZE
    ensures 1 <= n <= MAX_BATCH_SIZE ==> size == n
  {
    if n <= 0 then 1 else if n > MAX_BATCH_SIZE then MAX_BATCH_SIZE else n
  }

  /** Which rows of a table are still on a version. */
  function Pending(rows: Rows, table: Table, version: nat): set<nat> {
    set r | r in rows && r.table == table && rows[r].version == version :: r.id
  }

  /** order by id limit n: the n least ids, or all of them when there are fewer. */
  function FirstIds(ids: set<nat>, n: nat): (batch: set<nat>)
    ensures batch <= ids
    ensures |batch| == if n <= |ids| then n else |ids|
  {
    if n == 0 || ids == {} then {}
    else {Least(ids)} + FirstIds(ids - {Least(ids)}, n - 1)
  }

  lemma {:induction false} FirstIdsAreLeast(ids: set<nat>, n: nat, x: nat, y: nat)
    requires x in FirstIds(ids, n) && y in ids && y !in FirstIds(ids, n)
    ensures x < y
  {
    if x != Least(ids) {
      FirstIdsAreLeast(ids - {Least(ids)}, n - 1, x, y);
    }
  }

  /** Only an episode's note is left NULL when it was NULL. */
  predicate KeepsNull(table: Table, column: nat) {
    table == Episodes && column == 2
  }

  function ResealCell(cell: Blob, toKey: Dek, keepNull: bool): Blob {
    if cell.Null? && keepNull then Null else Encrypt(toKey, Plain(cell))
  }

  function ResealRow(table: Table, row: Row, to: nat, toKey: Dek): (r: Row)
    ensures r.version == to && r.owner == row.owner
    ensures SealedWith(r.cells, toKey)
    ensures PlainCells(r.cells) == PlainCells(row.cells)
  {
    Row(to,
        seq(|row.cells|, i requires 0 <= i < |row.cells| => ResealCell(row.cells[i], toKey, KeepsNull(table, i))),
        row.owner)
  }

  /**
    The rows one batch rewrites: the chosen ids and, with a summary, those of
    its key facts that are still on the old version.
   */
  function Moved(rows: Rows, table: Table, ids: set<nat>, from: nat): set<RowId> {
    set r | r in rows && ((r.table == table && r.id in ids)
                       || (table == Summaries && r.table == Facts && rows[r].owner in ids && rows[r].version == from))
  }

  /** The rows with the chosen ones sealed again under a new version. */
  function Resealed(rows: Rows, chosen: set<RowId>, to: nat, toKey: Dek): Rows {
    map r | r in rows :: if r in chosen then ResealRow(r.table, rows[r], to, toKey) else rows[r]
  }

  /**
    One migrate...Batch transaction: every moved row is decrypted with the old
    key and sealed with the new one, or the transaction fails as a whole.
   */
  function MigrateRows(rows: Rows, table: Table, ids: set<nat>, from: nat, to: nat, fromKey: Dek, toKey: Dek)
    : (r: Option<Rows>)
    ensures r.Some? ==> r.value.Keys == rows.Keys
  {
    if forall r :: r in Moved(rows, table, ids, from) ==> SealedWith(rows[r].cells, fromKey)
    then Some(Resealed(rows, Moved(rows, table, ids, from), to, toKey))
    else None
  }

  /** The rows a batch query picks: the first n by id of those still on the old version. */
  function BatchOf(rows: Rows, table: Table, from: nat, n: nat): set<nat> {
    FirstIds(Pending(rows, table, from), n)
  }

  lemma InPending(rows: Rows, table: Table, version: nat, id: nat)
    ensures id in Pending(rows, table, version)
            <==> RowId(table, id) in rows && rows[RowId(table, id)].version == version
  {
    if RowId(table, id) in rows && rows[RowId(table, id)].version == version {
      assert RowId(table, id).id == id;
    }
  }

  /** A batch takes exactly its ids off the old version and touches no other table's backlog. */
  lemma BatchShrinksPending(rows: Rows, table: Table, ids: set<nat>, from: nat, to: nat,
                            fromKey: Dek, toKey: Dek, rows': Rows)
    requires table != Facts && from != to
    requires ids <= Pending(rows, table, from)
    requires MigrateRows(rows, table, ids, from, to, fromKey, toKey) == Some(rows')
    ensures Pending(rows', table, from) == Pending(rows, table, from) - ids
    ensures forall t :: t != table && t != Facts ==> Pending(rows', t, from) == Pending(rows, t, from)
  {
    forall x ensures x in Pending(rows', table, from) <==> x in Pending(rows, table, from) - ids {
      InPending(rows', table, from, x);
      InPending(rows, table, from, x);
    }
    forall t | t != table && t != Facts ensures Pending(rows', t, from) == Pending(rows, t, from) {
      forall x ensures x in Pending(rows', t, from) <==> x in Pending(rows, t, from) {
        InPending(rows', t, from, x);
        InPending(rows, t, from, x);
      }
    }
  }
}
