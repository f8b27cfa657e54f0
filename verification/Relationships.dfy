/**
  upsertRelationships of internal/consolidation/store.go: a small table of dated
  edges between entities, in which a dated edge closes the open edges it replaces.
 */
module Relationships {
  import opened Basics

  type Name = nat

  type Date = int

  /** None is an unknown start, or an end that has not come. */
  datatype Edge = Edge(subject: Name, relation: string, target: Name, from: Option<Date>, until: Option<Date>)

  type Table = seq<Edge>

  /** The table's check constraint (schema/0019). */
  predicate Ordered(e: Edge) {
    e.from.Some? && e.until.Some? ==> e.from.value <= e.until.value
  }

  predicate AllOrdered(t: Table) {
    forall i :: 0 <= i < |t| ==> Ordered(t[i])
  }

  predicate SameQuestion(a: Edge, b: Edge) {
    a.subject == b.subject && a.relation == b.relation
  }

  predicate SameTriple(a: Edge, b: Edge) {
    SameQuestion(a, b) && a.target == b.target
  }

  predicate Bare(e: Edge) {
    e.from.None? && e.until.None?
  }

  /** An open edge of the same subject and predicate to another object ends where the new one starts. */
  function Closed(r: Edge, e: Edge): Edge {
    if SameQuestion(r, e) && r.target != e.target && r.until.None? then r.(until := e.from) else r
  }

  function CloseAll(t: Table, e: Edge): Table {
    if e.from.None? then t else seq(|t|, i requires 0 <= i < |t| => Closed(t[i], e))
  }

  predicate HasTriple(t: Table, e: Edge) {
    exists i :: 0 <= i < |t| && SameTriple(t[i], e)
  }

  /** The edge says nothing new: it is there as it is or, without dates, with any. */
  predicate Settled(t: Table, e: Edge) {
    e in t || (Bare(e) && HasTriple(t, e))
  }

  /** One edge; None is the check constraint failing the whole transaction. */
  function Put(t: Table, e: Edge): Option<Table> {
    if Settled(t, e) then Some(t)
    else if AllOrdered(CloseAll(t, e) + [e]) then Some(CloseAll(t, e) + [e])
    else None
  }

  function PutAll(t: Table, edges: seq<Edge>): Option<Table> {
    if edges == [] then Some(t)
    else
      match PutAll(t, edges[..|edges| - 1])
      case None => None
      case Some(r) => Put(r, edges[|edges| - 1])
  }

  /** What the language model proposes; None is a name or a kind that cannot be resolved. */
  datatype Update = Update(subject: Option<Name>, relation: string, target: Option<Name>, from: Option<Date>, until: Option<Date>)

  predicate Usable(u: Update, entities: set<Name>) {
    && u.relation != "" && u.subject.Some? && u.target.Some?
    && u.subject.value in entities && u.target.value in entities
  }

  function EdgeOf(u: Update): Edge
    requires u.subject.Some? && u.target.Some?
  {
    Edge(u.subject.value, u.relation, u.target.value, u.from, u.until)
  }

  function UsableEdges(updates: seq<Update>, entities: set<Name>): seq<Edge> {
    if updates == [] then []
    else
      var rest, u := UsableEdges(updates[..|updates| - 1], entities), updates[|updates| - 1];
      if Usable(u, entities) then rest + [EdgeOf(u)] else rest
  }

  method UpsertRelationships(t: Table, updates: seq<Update>, entities: set<Name>) returns (r: Option<Table>)
    ensures r == PutAll(t, UsableEdges(updates, entities))
    ensures r.Some? ==> Stored(t, r.value, updates, entities)
  {
    var table := t;
    for k := 0 to |updates|
      invariant PutAll(t, UsableEdges(updates[..k], entities)) == Some(table)
    {
      var u := updates[k];
      NextUpdate(t, updates, entities, k, table);
      if Usable(u, entities) {
        var next := UpsertOne(table, EdgeOf(u));
        if next.None? {
          StaysFailed(t, updates, entities, k + 1, |updates|);
          assert updates[..|updates|] == updates;
          return None;
        }
        table := next.value;
      }
    }
    assert updates[..|updates|] == updates;
    UpdatesAreStored(t, updates, entities, table);
    r := Some(table);
  }

  lemma NextUpdate(t: Table, updates: seq<Update>, entities: set<Name>, k: nat, table: Table)
    requires k < |updates| && PutAll(t, UsableEdges(updates[..k], entities)) == Some(table)
    ensures PutAll(t, UsableEdges(updates[..k + 1], entities))
            == if Usable(updates[k], entities) then Put(table, EdgeOf(updates[k])) else Some(table)
  {
    assert updates[..k + 1][..k] == updates[..k];
    var edges := UsableEdges(updates[..k], entities);
    if Usable(updates[k], entities) {
      assert (edges + [EdgeOf(updates[k])])[..|edges|] == edges;
    }
  }

  /** The loop's body for a usable update: the two checks, the closing update, the insert. */
  method UpsertOne(t: Table, e: Edge) returns (r: Option<Table>)
    ensures r == Put(t, e)
  {
    if e in t {
      return Some(t);
    }
    if e.from.None? && e.until.None? && HasTriple(t, e) {
      return Some(t);
    }
    var closed := t;
    if e.from.Some? {
      for i := 0 to |t|
        invariant |closed| == |t|
        invariant closed[..i] == CloseAll(t, e)[..i] && closed[i..] == t[i..]
      {
        closed := closed[i := Closed(t[i], e)];
      }
      assert closed == CloseAll(t, e);
    }
    r := if AllOrdered(closed + [e]) then Some(closed + [e]) else None;
  }

  lemma {:induction false} StaysFailed(t: Table, updates: seq<Update>, entities: set<Name>, k: nat, n: nat)
    requires k <= n <= |updates| && PutAll(t, UsableEdges(updates[..k], entities)).None?
    ensures PutAll(t, UsableEdges(updates[..n], entities)).None?
  {
    if k < n {
      StaysFailed(t, updates, entities, k, n - 1);
      assert updates[..n][..n - 1] == updates[..n - 1];
      var rest := UsableEdges(updates[..n - 1], entities);
      var all := UsableEdges(updates[..n], entities);
      assert all == rest || all[..|all| - 1] == rest;
    }
  }

  // --- What one edge does --------------------------------------------------------------

  /** The row is the same but for an end it may have been given. */
  ghost predicate OnlyClosed(before: Edge, after: Edge) {
    after == before || (before.until.None? && after == before.(until := after.until))
  }

  ghost predicate Extends(t: Table, t': Table) {
    |t| <= |t'| && forall i :: 0 <= i < |t| ==> OnlyClosed(t[i], t'[i])
  }

  lemma PutExtends(t: Table, e: Edge)
    requires Put(t, e).Some?
    ensures Extends(t, Put(t, e).value)
  {
  }

  /** No batch ever deletes an edge or changes anything about one but an open end. */
  lemma {:induction false} NothingIsDeleted(t: Table, edges: seq<Edge>)
    requires PutAll(t, edges).Some?
    ensures Extends(t, PutAll(t, edges).value)
  {
    if edges != [] {
      NothingIsDeleted(t, edges[..|edges| - 1]);
      PutExtends(PutAll(t, edges[..|edges| - 1]).value, edges[|edges| - 1]);
    }
  }

  /** After a dated edge was added, every open edge of its subject and predicate leads to its object. */
  lemma DatedEdgeReplaces(t: Table, e: Edge)
    requires Put(t, e).Some? && e.from.Some? && e !in t
    ensures var t' := Put(t, e).value;
            && e in t'
            && forall i :: 0 <= i < |t'| && SameQuestion(t'[i], e) && t'[i].until.None? ==> t'[i].target == e.target
  {
    var t' := Put(t, e).value;
    assert t'[|t|] == e;
  }

  /** An edge fails exactly when it ends before it starts, or starts before an edge it would close. */
  lemma PutFailsIff(t: Table, e: Edge)
    requires AllOrdered(t)
    ensures Put(t, e).None?
            <==> && !Settled(t, e)
                 && (!Ordered(e)
                     || exists i :: 0 <= i < |t| && SameQuestion(t[i], e) && t[i].target != e.target && t[i].until.None?
                                 && e.from.Some? && t[i].from.Some? && e.from.value < t[i].from.value)
  {
    var closed := CloseAll(t, e);
    assert (closed + [e])[|closed|] == e;
    if !Settled(t, e) && Ordered(e) {
      forall i | 0 <= i < |t| ensures Ordered((closed + [e])[i]) <==> Ordered(if e.from.Some? then Closed(t[i], e) else t[i]) {
        assert (closed + [e])[i] == closed[i];
      }
      if Put(t, e).None? {
        var i :| 0 <= i < |closed + [e]| && !Ordered((closed + [e])[i]);
        assert i < |t| && Ordered(t[i]);
      }
    }
  }

  // --- What a batch of updates leaves, row by row -----------------------------------------

  /** The update names two entities and how the first is related to the second. */
  predicate IsSound(u: Update, entities: set<Name>) {
    && u.relation != ""
    && (exists n :: n in entities && u.subject == Some(n))
    && (exists n :: n in entities && u.target == Some(n))
  }

  /** A dated update about the same subject and predicate, but another object, ends an open row on its date. */
  ghost predicate EndsOn(row: Edge, until: Option<Date>, u: Update, entities: set<Name>) {
    && IsSound(u, entities) && u.subject == Some(row.subject) && u.relation == row.relation && u.target != Some(row.target)
    && u.from.Some? && until == u.from
  }

  /** The row says what the update says; its end may have come with one of the updates from k on. */
  ghost predicate Says(row: Edge, u: Update, updates: seq<Update>, k: nat, entities: set<Name>) {
    && u.subject == Some(row.subject) && u.relation == row.relation && u.target == Some(row.target) && u.from == row.from
    && (row.until == u.until || (u.until.None? && EndedFrom(row, updates, k, entities)))
  }

  ghost predicate EndedFrom(row: Edge, updates: seq<Update>, k: nat, entities: set<Name>) {
    exists j :: k <= j < |updates| && EndsOn(row, row.until, updates[j], entities)
  }

  /** An old row is as it was, or was open and has been ended by an update. */
  ghost predicate StillSays(before: Edge, after: Edge, updates: seq<Update>, entities: set<Name>) {
    after == before || (before.until.None? && after == before.(until := after.until) && EndedFrom(after, updates, 0, entities))
  }

  /** The update is in the table: as a row that says it or, if it has no dates, as any row about the two entities. */
  ghost predicate IsIn(r: Table, u: Update, updates: seq<Update>, k: nat, entities: set<Name>) {
    || (exists i :: 0 <= i < |r| && Says(r[i], u, updates, k, entities))
    || (u.from.None? && u.until.None?
        && exists i :: 0 <= i < |r| && u.subject == Some(r[i].subject) && u.relation == r[i].relation && u.target == Some(r[i].target))
  }

  /** src says of every new row which update it comes from: sound ones, each for one row, in order. */
  ghost predicate ComeFrom(t: Table, r: Table, updates: seq<Update>, entities: set<Name>, src: seq<nat>) {
    && |r| == |t| + |src|
    && (forall m, n :: 0 <= m < n < |src| ==> src[m] < src[n])
    && forall m :: 0 <= m < |src| ==>
         src[m] < |updates| && IsSound(updates[src[m]], entities) && Says(r[|t| + m], updates[src[m]], updates, src[m] + 1, entities)
  }

  /** What the table holds after a batch of updates. */
  ghost predicate Stored(t: Table, r: Table, updates: seq<Update>, entities: set<Name>) {
    && (exists src :: ComeFrom(t, r, updates, entities, src))
    && (forall i :: 0 <= i < |t| ==> i < |r| && StillSays(t[i], r[i], updates, entities))
    && forall k: nat :: k < |updates| && IsSound(updates[k], entities) ==> IsIn(r, updates[k], updates, k + 1, entities)
  }

  lemma SoundIffUsable(u: Update, entities: set<Name>)
    ensures IsSound(u, entities) <==> Usable(u, entities)
  {
  }

  /** One more update, and what it did to a row: nothing, or ended it while it was open. */
  ghost predicate NextRow(row: Edge, row': Edge, u: Update, entities: set<Name>) {
    row' == row || (row.until.None? && row' == row.(until := row'.until) && EndsOn(row', row'.until, u, entities))
  }

  lemma EndedLater(row: Edge, updates: seq<Update>, u: Update, k: nat, entities: set<Name>)
    requires EndedFrom(row, updates, k, entities)
    ensures EndedFrom(row, updates + [u], k, entities)
  {
    var j :| k <= j < |updates| && EndsOn(row, row.until, updates[j], entities);
    assert (updates + [u])[j] == updates[j];
  }

  lemma EndedNow(row: Edge, updates: seq<Update>, u: Update, k: nat, entities: set<Name>)
    requires k <= |updates| && EndsOn(row, row.until, u, entities)
    ensures EndedFrom(row, updates + [u], k, entities)
  {
    assert (updates + [u])[|updates|] == u;
  }

  lemma SaysOn(row: Edge, row': Edge, said: Update, updates: seq<Update>, u: Update, k: nat, entities: set<Name>)
    requires k <= |updates| && Says(row, said, updates, k, entities) && NextRow(row, row', u, entities)
    ensures Says(row', said, updates + [u], k, entities)
  {
    if row' != row {
      EndedNow(row', updates, u, k, entities);
    } else if row.until != said.until {
      EndedLater(row, updates, u, k, entities);
    }
  }

  lemma StillSaysOn(before: Edge, row: Edge, row': Edge, updates: seq<Update>, u: Update, entities: set<Name>)
    requires StillSays(before, row, updates, entities) && NextRow(row, row', u, entities)
    ensures StillSays(before, row', updates + [u], entities)
  {
    if row' != row {
      EndedNow(row', updates, u, 0, entities);
    } else if row != before {
      EndedLater(row, updates, u, 0, entities);
    }
  }

  lemma IsInOn(r: Table, r': Table, said: Update, updates: seq<Update>, u: Update, k: nat, entities: set<Name>)
    requires k <= |updates| && IsIn(r, said, updates, k, entities) && |r| <= |r'|
    requires forall i :: 0 <= i < |r| ==> NextRow(r[i], r'[i], u, entities)
    ensures IsIn(r', said, updates + [u], k, entities)
  {
    if i :| 0 <= i < |r| && Says(r[i], said, updates, k, entities) {
      SaysOn(r[i], r'[i], said, updates, u, k, entities);
    } else {
      var i :| 0 <= i < |r| && said.subject == Some(r[i].subject) && said.relation == r[i].relation && said.target == Some(r[i].target);
      assert NextRow(r[i], r'[i], u, entities);
    }
  }

  /** What one update does to the table. */
  ghost predicate OneUpdate(r: Table, r': Table, u: Update, entities: set<Name>) {
    && |r| <= |r'| <= |r| + 1 && (forall i :: 0 <= i < |r| ==> NextRow(r[i], r'[i], u, entities))
    && (|r'| > |r| ==> IsSound(u, entities) && Says(r'[|r|], u, [], 0, entities))
    && (IsSound(u, entities) ==> IsIn(r', u, [], 0, entities))
  }

  lemma PutIsOneUpdate(r: Table, r': Table, u: Update, entities: set<Name>)
    requires r' == r || Usable(u, entities)
    requires Usable(u, entities) ==> Put(r, EdgeOf(u)) == Some(r')
    ensures OneUpdate(r, r', u, entities)
  {
    if Usable(u, entities) {
      var e := EdgeOf(u);
      if Settled(r, e) {
        if e in r {
          var i :| 0 <= i < |r| && r[i] == e;
          assert Says(r'[i], u, [], 0, entities);
        } else {
          var i :| 0 <= i < |r| && SameTriple(r[i], e);
          assert u.subject == Some(r'[i].subject);
        }
      } else {
        assert r' == CloseAll(r, e) + [e] && r'[|r|] == e;
        forall i | 0 <= i < |r| ensures NextRow(r[i], r'[i], u, entities) {
          assert r'[i] == CloseAll(r, e)[i];
        }
        assert Says(r'[|r|], u, [], 0, entities);
      }
    }
  }

  lemma SaysAnywhere(row: Edge, u: Update, updates: seq<Update>, k: nat, entities: set<Name>)
    requires Says(row, u, [], 0, entities)
    ensures Says(row, u, updates, k, entities)
  {
  }

  lemma StoredOn(t: Table, r: Table, updates: seq<Update>, u: Update, entities: set<Name>, r': Table)
    requires Stored(t, r, updates, entities) && OneUpdate(r, r', u, entities)
    ensures Stored(t, r', updates + [u], entities)
  {
    var src :| ComeFrom(t, r, updates, entities, src);
    SourcesOn(t, r, updates, u, entities, r', src);
    var all := updates + [u];
    forall i | 0 <= i < |t| ensures i < |r'| && StillSays(t[i], r'[i], all, entities) {
      StillSaysOn(t[i], r[i], r'[i], updates, u, entities);
    }
    forall k: nat | k < |all| && IsSound(all[k], entities) ensures IsIn(r', all[k], all, k + 1, entities) {
      if k < |updates| {
        IsInOn(r, r', updates[k], updates, u, k + 1, entities);
      } else {
        if i :| 0 <= i < |r'| && Says(r'[i], u, [], 0, entities) {
          SaysAnywhere(r'[i], u, all, k + 1, entities);
        }
      }
    }
  }

  lemma SourcesOn(t: Table, r: Table, updates: seq<Update>, u: Update, entities: set<Name>, r': Table, src: seq<nat>)
    requires ComeFrom(t, r, updates, entities, src) && OneUpdate(r, r', u, entities)
    ensures ComeFrom(t, r', updates + [u], entities, if |r'| > |r| then src + [|updates|] else src)
  {
    var all := updates + [u];
    var src' := if |r'| > |r| then src + [|updates|] else src;
    forall m | 0 <= m < |src'|
      ensures src'[m] < |all| && IsSound(all[src'[m]], entities) && Says(r'[|t| + m], all[src'[m]], all, src'[m] + 1, entities)
    {
      if m < |src| {
        assert all[src[m]] == updates[src[m]];
        SaysOn(r[|t| + m], r'[|t| + m], updates[src[m]], updates, u, src[m] + 1, entities);
      } else {
        SaysAnywhere(r'[|r|], u, all, |updates| + 1, entities);
      }
    }
  }

  /** A batch that succeeds stores what its updates say, and nothing else. */
  lemma {:induction false} UpdatesAreStored(t: Table, updates: seq<Update>, entities: set<Name>, r: Table)
    requires PutAll(t, UsableEdges(updates, entities)) == Some(r)
    ensures Stored(t, r, updates, entities)
  {
    if updates == [] {
      assert ComeFrom(t, r, updates, entities, []);
    } else {
      var init, u := updates[..|updates| - 1], updates[|updates| - 1];
      var edges := UsableEdges(init, entities);
      SoundIffUsable(u, entities);
      if Usable(u, entities) {
        assert (edges + [EdgeOf(u)])[..|edges|] == edges;
      }
      var before := PutAll(t, edges).value;
      UpdatesAreStored(t, init, entities, before);
      PutIsOneUpdate(before, r, u, entities);
      StoredOn(t, before, init, u, entities, r);
      assert init + [u] == updates;
    }
  }

  // --- The same batch twice ---------------------------------------------------------------

  ghost predicate AllSettled(t: Table, edges: seq<Edge>) {
    forall k :: 0 <= k < |edges| ==> Settled(t, edges[k])
  }

  /** A batch changes nothing exactly when every edge of it is settled. */
  lemma {:induction false} NoChangeIffSettled(t: Table, edges: seq<Edge>)
    ensures PutAll(t, edges) == Some(t) <==> AllSettled(t, edges)
  {
    if edges != [] {
      var init, last := edges[..|edges| - 1], edges[|edges| - 1];
      NoChangeIffSettled(t, init);
      if PutAll(t, init).Some? {
        NothingIsDeleted(t, init);
        var r := PutAll(t, init).value;
        if r != t {
          Longer(t, init);
        }
      }
      assert AllSettled(t, edges) ==> AllSettled(t, init) by {
        assert forall k :: 0 <= k < |init| ==> init[k] == edges[k];
      }
      assert AllSettled(t, init) && Settled(t, last) ==> AllSettled(t, edges);
    }
  }

  /** A batch that changes the table makes it longer. */
  lemma {:induction false} Longer(t: Table, edges: seq<Edge>)
    requires PutAll(t, edges).Some? && PutAll(t, edges).value != t
    ensures |PutAll(t, edges).value| > |t|
  {
    var init := edges[..|edges| - 1];
    NothingIsDeleted(t, init);
    if PutAll(t, init).value != t {
      Longer(t, init);
    }
  }

  /** A dated open edge, and after it a dated edge that answers the same question differently. */
  ghost predicate Reversal(edges: seq<Edge>, i: nat, j: nat) {
    && i < j < |edges| && SameQuestion(edges[i], edges[j]) && edges[i].target != edges[j].target
    && edges[i].from.Some? && edges[i].until.None? && edges[j].from.Some?
  }

  ghost predicate NoReversal(edges: seq<Edge>) {
    forall i: nat, j: nat :: !Reversal(edges, i, j)
  }

  /** What is settled stays settled unless the next edge reverses it. */
  lemma SettledStays(t: Table, e: Edge, next: Edge)
    requires Settled(t, e) && Put(t, next).Some?
    requires !(SameQuestion(e, next) && e.target != next.target && e.from.Some? && e.until.None? && next.from.Some?)
    ensures Settled(Put(t, next).value, e)
  {
    var t' := Put(t, next).value;
    if e in t {
      var i :| 0 <= i < |t| && t[i] == e;
      if t' != t && Closed(e, next) != e {
        assert Bare(e) || e.from.Some?;
        assert SameTriple(t'[i], e);
      } else if t' != t {
        assert t'[i] == e;
      }
    } else {
      var i :| 0 <= i < |t| && SameTriple(t[i], e);
      assert SameTriple(t'[i], e);
    }
  }

  lemma PutSettles(t: Table, e: Edge)
    requires Put(t, e).Some?
    ensures Settled(Put(t, e).value, e)
  {
    var t' := Put(t, e).value;
    if t' != t {
      assert t'[|t|] == e;
    }
  }

  lemma {:induction false} BatchSettles(t: Table, edges: seq<Edge>)
    requires PutAll(t, edges).Some? && NoReversal(edges)
    ensures AllSettled(PutAll(t, edges).value, edges)
  {
    if edges != [] {
      var init, last := edges[..|edges| - 1], edges[|edges| - 1];
      forall i: nat, j: nat ensures !Reversal(init, i, j) {
        assert !Reversal(edges, i, j);
      }
      BatchSettles(t, init);
      var r := PutAll(t, init).value;
      forall k | 0 <= k < |edges| ensures Settled(PutAll(t, edges).value, edges[k]) {
        if k < |init| {
          assert edges[k] == init[k];
          assert !Reversal(edges, k, |init|);
          SettledStays(r, edges[k], last);
        } else {
          PutSettles(r, last);
        }
      }
    }
  }

  /** On any table, a batch without a reversal does the second time what it did the first: nothing more. */
  lemma TwiceIsOnce(t: Table, edges: seq<Edge>)
    requires PutAll(t, edges).Some? && NoReversal(edges)
    ensures PutAll(PutAll(t, edges).value, edges) == PutAll(t, edges)
  {
    BatchSettles(t, edges);
    NoChangeIffSettled(PutAll(t, edges).value, edges);
  }

  /** In particular when it names a single object for each subject and predicate. */
  lemma SingleObjectsHaveNoReversal(edges: seq<Edge>)
    requires forall i, j :: 0 <= i < |edges| && 0 <= j < |edges| && SameQuestion(edges[i], edges[j]) ==> edges[i].target == edges[j].target
    ensures NoReversal(edges)
  {
  }

  ghost predicate Distinct(edges: seq<Edge>) {
    forall i, j :: 0 <= i < j < |edges| ==> edges[i] != edges[j]
  }

  lemma PrefixHasNoReversal(edges: seq<Edge>)
    requires edges != [] && NoReversal(edges)
    ensures NoReversal(edges[..|edges| - 1])
  {
    var init := edges[..|edges| - 1];
    forall i: nat, j: nat ensures !Reversal(init, i, j) {
      assert !Reversal(edges, i, j);
    }
  }

  /** Into an empty table and without a reversal, dated edges go in as they are and stay so. */
  lemma {:induction false} DatedRowsAreInputs(edges: seq<Edge>)
    requires NoReversal(edges) && PutAll([], edges).Some?
    ensures forall e :: e in PutAll([], edges).value && e.from.Some? ==> e in edges
  {
    if edges != [] {
      var init, last := edges[..|edges| - 1], edges[|edges| - 1];
      PrefixHasNoReversal(edges);
      DatedRowsAreInputs(init);
      var r, r' := PutAll([], init).value, PutAll([], edges).value;
      forall e | e in r' && e.from.Some? ensures e in edges {
        var i :| 0 <= i < |r'| && r'[i] == e;
        if i < |r| && r[i] in init {
          var k :| 0 <= k < |init| && init[k] == r[i];
          assert edges[k] == r[i] && !Reversal(edges, k, |init|);
        }
      }
    }
  }

  /** An open edge is not among the rows of a table after an edge that differs from it unless it was before. */
  lemma OpenEdgeIsNotMade(t: Table, e: Edge, next: Edge)
    requires e !in t && e != next && e.until.None? && Put(t, next).Some?
    ensures e !in Put(t, next).value
  {
  }

  /** An edge that was open is gone once a new dated edge answers its question differently. */
  lemma OpenEdgeIsClosed(t: Table, e: Edge, next: Edge)
    requires Put(t, next).Some? && !Settled(t, next) && next.from.Some?
    requires SameQuestion(e, next) && e.target != next.target && e.until.None?
    ensures e !in Put(t, next).value
  {
  }

  /** In a batch of different edges with a reversal, some dated open edge of the batch is lost. */
  lemma {:induction false} ReversalLosesAnEdge(edges: seq<Edge>) returns (k: nat)
    requires Distinct(edges) && PutAll([], edges).Some? && !NoReversal(edges)
    ensures k < |edges| && edges[k].from.Some? && edges[k].until.None? && edges[k] !in PutAll([], edges).value
  {
    var last := |edges| - 1;
    var init := edges[..last];
    var r := PutAll([], init).value;
    if !NoReversal(init) {
      k := ReversalLosesAnEdge(init);
      assert edges[k] == init[k] && edges[k] != edges[last];
      OpenEdgeIsNotMade(r, edges[k], edges[last]);
    } else {
      var i: nat, j: nat :| Reversal(edges, i, j);
      assert j < last ==> Reversal(init, i, j);
      DatedRowsAreInputs(init);
      assert edges[last] !in init;
      k := i;
      OpenEdgeIsClosed(r, edges[i], edges[last]);
    }
  }

  /**
    Different edges put into an empty table: doing it a second time changes nothing
    exactly when no dated open edge is followed by a dated edge that answers the
    same question differently.
   */
  lemma TwiceIntoEmptyIff(edges: seq<Edge>)
    requires Distinct(edges) && PutAll([], edges).Some?
    ensures PutAll(PutAll([], edges).value, edges) == PutAll([], edges) <==> NoReversal(edges)
  {
    if NoReversal(edges) {
      TwiceIsOnce([], edges);
    } else {
      var k := ReversalLosesAnEdge(edges);
      NoChangeIffSettled(PutAll([], edges).value, edges);
      assert !Settled(PutAll([], edges).value, edges[k]);
    }
  }

  /** Edge j is added, closes edge i of the batch, and edge i is not put again after it. */
  ghost predicate Loses(t: Table, edges: seq<Edge>, i: nat, j: nat) {
    && Reversal(edges, i, j)
    && PutAll(t, edges[..j]).Some? && edges[j] !in PutAll(t, edges[..j]).value
    && forall k :: j < k < |edges| ==> edges[k] != edges[i]
  }

  lemma LosesBefore(t: Table, edges: seq<Edge>, i: nat, j: nat)
    requires edges != [] && i < |edges| - 1 && j < |edges| - 1 && edges[|edges| - 1] != edges[i]
    ensures Loses(t, edges, i, j) <==> Loses(t, edges[..|edges| - 1], i, j)
  {
    var init := edges[..|edges| - 1];
    assert init[..j] == edges[..j];
    assert forall k :: 0 <= k < |init| ==> init[k] == edges[k];
  }

  /** An edge of the batch is settled at the end exactly when no edge loses it. */
  lemma {:induction false} SettledIffNotLost(t: Table, edges: seq<Edge>, i: nat)
    requires PutAll(t, edges).Some? && i < |edges|
    ensures Settled(PutAll(t, edges).value, edges[i]) <==> forall j: nat :: !Loses(t, edges, i, j)
  {
    var n := |edges| - 1;
    var init, last, r := edges[..n], edges[n], PutAll(t, edges[..n]).value;
    PutSettles(r, last);
    if i < n && last != edges[i] {
      SettledIffNotLost(t, init, i);
      NotLostOneMore(t, edges, i, init, n);
      LastLosesIff(t, edges, i);
    }
  }

  lemma NotLostOneMore(t: Table, edges: seq<Edge>, i: nat, init: seq<Edge>, n: nat)
    requires |edges| == n + 1 && init == edges[..n] && i < n && edges[n] != edges[i]
    ensures (forall j: nat :: !Loses(t, edges, i, j)) <==> (forall j: nat :: !Loses(t, init, i, j)) && !Loses(t, edges, i, n)
  {
    forall j: nat | j < n ensures Loses(t, edges, i, j) <==> Loses(t, init, i, j) {
      LosesBefore(t, edges, i, j);
    }
  }

  lemma LastLosesIff(t: Table, edges: seq<Edge>, i: nat)
    requires PutAll(t, edges).Some? && i < |edges| - 1 && edges[|edges| - 1] != edges[i]
    requires var r := PutAll(t, edges[..|edges| - 1]).value;
             Settled(r, edges[i]) || (edges[i].from.Some? && edges[i].until.None?)
    ensures Settled(PutAll(t, edges).value, edges[i])
            <==> Settled(PutAll(t, edges[..|edges| - 1]).value, edges[i]) && !Loses(t, edges, i, |edges| - 1)
  {
    var n := |edges| - 1;
    var e, last, r := edges[i], edges[n], PutAll(t, edges[..n]).value;
    if Loses(t, edges, i, n) {
      OpenEdgeIsClosed(r, e, last);
    } else if Settled(r, e) {
      if !Settled(r, last) {
        SettledStays(r, e, last);
      }
    } else {
      OpenEdgeIsNotMade(r, e, last);
    }
  }

  /**
    On any table, putting a batch a second time changes nothing exactly when no edge
    that it adds closes another edge of the batch which is not put again after it.
   */
  lemma TwiceIsOnceIff(t: Table, edges: seq<Edge>)
    requires PutAll(t, edges).Some?
    ensures PutAll(PutAll(t, edges).value, edges) == PutAll(t, edges) <==> forall i: nat, j: nat :: !Loses(t, edges, i, j)
  {
    NoChangeIffSettled(PutAll(t, edges).value, edges);
    forall i: nat | i < |edges|
      ensures Settled(PutAll(t, edges).value, edges[i]) <==> forall j: nat :: !Loses(t, edges, i, j)
    {
      SettledIffNotLost(t, edges, i);
    }
  }

  lemma PutTwo(t: Table, x: Edge, y: Edge)
    ensures PutAll(t, [x, y]) == match Put(t, x) case None => None case Some(r) => Put(r, y)
  {
    assert [x, y][..1] == [x] && [x][..0] == [];
    assert PutAll(t, [x]) == Put(t, x);
  }

  /** Two objects from the same date on: the first run ends with one of them, the second run brings the other back. */
  lemma TwoObjectsSwap(s: Name, p: string, a: Name, b: Name, d: Date)
    requires a != b
    ensures var batch := [Edge(s, p, a, Some(d), None), Edge(s, p, b, Some(d), None)];
            var once := [Edge(s, p, a, Some(d), Some(d)), Edge(s, p, b, Some(d), None)];
            && PutAll([], batch) == Some(once)
            && PutAll(once, batch).Some? && PutAll(once, batch) != Some(once)
  {
    var x, y := Edge(s, p, a, Some(d), None), Edge(s, p, b, Some(d), None);
    var batch, once := [x, y], [x.(until := Some(d)), y];
    PutTwo([], x, y);
    PutTwo(once, x, y);
    assert CloseAll([], x) + [x] == [x] && CloseAll([x], y) + [y] == once;
    assert Put([], x) == Some([x]) && Put([x], y) == Some(once);
    var again := [once[0], y.(until := Some(d)), x];
    assert CloseAll(once, x) + [x] == again;
    assert x !in once && Put(once, x) == Some(again);
    assert CloseAll(again, y) + [y] == [again[0], again[1], x.(until := Some(d)), y];
    assert y !in again;
  }
}
