/**
  Ingestion of a fetched comment batch: dedupe, resolve parents outside the batch, sort, upsert one by
  one. After every single upsert each stored parent names a stored comment.
 */
module CommentIngest {
  import opened Options
  import opened Upsert
  import opened CommentSort

  type Table = map<string, Record>

  function ParentValue(p: Option<string>): Option<Value> {
    if p.Some? then Some(Text(p.value)) else None
  }

  /** The values a row is upserted with. */
  function Values(r: Row): Record {
    r.cols["id" := Some(Text(r.id))]["parent_id" := ParentValue(r.parent)]
  }

  /** The columns of a comment row that come from the fetched payload. */
  predicate PayloadOk(r: Row) {
    r.cols.Keys <= MB_COMMENT_COLUMNS - {FIRST_SEEN, LAST_SEEN}
  }

  function StoredParent(rec: Record): Option<Value> {
    Get(rec, "parent_id")
  }

  /** The parent column is NULL or names a comment in `ids`. */
  predicate ParentIn(rec: Record, ids: set<string>) {
    var p := StoredParent(rec);
    p.None? || (p.value.Text? && p.value.text in ids)
  }

  /** The foreign key of the comment table. */
  ghost predicate ParentsExist(t: Table) {
    forall id :: id in t ==> ParentIn(t[id], t.Keys)
  }

  /** What a statement makes of the row stored under a key. */
  type Merge = (Option<Record>, Row) -> Record

  /** The upsert of one comment at time `now`. */
  function CommentMerge(now: Value): Merge {
    (stored, r) => Upserted(MB_COMMENT_COLUMNS, MB_COMMENT_ENRICHMENT, stored, Values(r), false, now)
  }

  function Stored(t: Table, id: string): Option<Record> {
    if id in t then Some(t[id]) else None
  }

  /** The new parent is the payload's, or else the stored one (COALESCE). */
  ghost predicate ParentRule(f: Merge) {
    forall s, r :: StoredParent(f(s, r)) == if r.parent.Some? then ParentValue(r.parent) else if s.Some? then StoredParent(s.value) else None
  }

  lemma CommentParentRule(now: Value)
    ensures ParentRule(CommentMerge(now))
  {
    assert "parent_id" == MB_COMMENT_ENRICHMENT[1];
  }

  /** The table after one upsert, None when the statement breaks the foreign key. */
  function UpsertComment(t: Table, r: Row, f: Merge): Option<Table> {
    var t' := t[r.id := f(Stored(t, r.id), r)];
    if ParentIn(t'[r.id], t'.Keys) then Some(t') else None
  }

  function UpsertAll(t: Table, rows: seq<Row>, f: Merge): Option<Table> {
    if rows == [] then Some(t)
    else
      var before := UpsertAll(t, rows[..|rows| - 1], f);
      if before.None? then None else UpsertComment(before.value, rows[|rows| - 1], f)
  }

  /** Keep the first row of each id. */
  function Deduped(items: seq<Row>): seq<Row> {
    if items == [] then []
    else
      var init, last := Deduped(items[..|items| - 1]), items[|items| - 1];
      if last.id in IdSet(init) then init else init + [last]
  }

  /** Drop a parent that is neither in the batch nor stored. */
  function ResolvedRow(t: Table, batch: set<string>, r: Row): Row {
    if r.parent.Some? && r.parent.value != "" && r.parent.value !in batch && r.parent.value !in t
    then r.(parent := None) else r
  }

  function Resolved(t: Table, batch: set<string>, rows: seq<Row>): (r: seq<Row>)
    ensures |r| == |rows| && forall i :: 0 <= i < |rows| ==> r[i] == ResolvedRow(t, batch, rows[i])
  {
    seq(|rows|, i requires 0 <= i < |rows| => ResolvedRow(t, batch, rows[i]))
  }

  function Batch(t: Table, items: seq<Row>): seq<Row> {
    Resolved(t, IdSet(Deduped(items)), Deduped(items))
  }

  // ---------- Each upsert keeps the foreign key ----------

  /** An upsert whose parent is stored, or is the row itself, succeeds and keeps every parent existing. */
  lemma UpsertKeepsParents(t: Table, r: Row, f: Merge)
    requires ParentsExist(t) && ParentRule(f)
    requires r.parent.Some? ==> r.parent.value in t || r.parent.value == r.id
    ensures UpsertComment(t, r, f).Some? && ParentsExist(UpsertComment(t, r, f).value)
    ensures UpsertComment(t, r, f).value.Keys == t.Keys + {r.id}
  {
    var t' := t[r.id := f(Stored(t, r.id), r)];
    forall id | id in t' ensures ParentIn(t'[id], t'.Keys) {
      if id in t { assert ParentIn(t[id], t.Keys); }
    }
  }

  /** Every parent in the sorted batch is earlier in it or stored. */
  ghost predicate ParentsAvailable(t: Table, sorted: seq<Row>) {
    forall i :: 0 <= i < |sorted| && sorted[i].parent.Some? ==> sorted[i].parent.value in t || sorted[i].parent.value in IdSet(sorted[..i])
  }

  lemma {:induction false} PrefixKeepsParents(t: Table, sorted: seq<Row>, f: Merge, n: nat)
    requires ParentRule(f) && ParentsExist(t) && ParentsAvailable(t, sorted) && n <= |sorted|
    ensures var r := UpsertAll(t, sorted[..n], f);
            r.Some? && ParentsExist(r.value) && r.value.Keys == t.Keys + IdSet(sorted[..n])
  {
    if n == 0 {
      assert sorted[..0] == [];
    } else {
      PrefixKeepsParents(t, sorted, f, n - 1);
      UpsertAllStep(t, sorted, f, n - 1);
      SnocPrefix(sorted, n - 1);
      UpsertKeepsParents(UpsertAll(t, sorted[..n - 1], f).value, sorted[n - 1], f);
    }
  }

  lemma SnocPrefix(sorted: seq<Row>, n: nat)
    requires n < |sorted|
    ensures IdSet(sorted[..n + 1]) == IdSet(sorted[..n]) + {sorted[n].id}
  {
    assert sorted[..n + 1] == sorted[..n] + [sorted[n]];
    IdSetSnoc(sorted[..n], sorted[n]);
  }

  // ---------- The sorted batch ----------

  lemma {:induction false} DedupedSpec(items: seq<Row>)
    ensures UniqueIds(Deduped(items)) && IdSet(Deduped(items)) == IdSet(items)
    ensures forall r :: r in Deduped(items) ==> r in items
  {
    if items != [] {
      var n := |items| - 1;
      DedupedSpec(items[..n]);
      assert items == items[..n] + [items[n]];
      IdSetSnoc(items[..n], items[n]);
      var init := Deduped(items[..n]);
      if items[n].id !in IdSet(init) {
        IdSetSnoc(init, items[n]);
        forall i | 0 <= i < |init| ensures init[i].id != items[n].id { assert Ids(init)[i] in IdSet(init); }
      }
    }
  }

  lemma BatchSpec(t: Table, items: seq<Row>)
    ensures UniqueIds(Batch(t, items)) && IdSet(Batch(t, items)) == IdSet(items)
    ensures forall i :: 0 <= i < |Batch(t, items)| && Batch(t, items)[i].parent.Some? ==>
              (var p := Batch(t, items)[i].parent.value; p in t || p in IdSet(items) || p == "")
  {
    DedupedSpec(items);
    var rows := Deduped(items);
    assert Ids(Batch(t, items)) == Ids(rows);
  }

  /** No row of the batch names "" as its parent, or some stored or fetched comment has that id. */
  predicate NoBlankParent(t: Table, items: seq<Row>) {
    "" in t || "" in IdSet(items) || forall i :: 0 <= i < |Deduped(items)| ==> Deduped(items)[i].parent != Some("")
  }

  lemma TailHasNoParents(rows: seq<Row>, sorted: seq<Row>, rooted: nat, i: nat)
    requires UniqueIds(rows) && SortedBatch(rows, sorted, rooted) && rooted <= i < |sorted|
    ensures sorted[i].parent == None
  {
    OrphansSpec(Parents(rows), rows);
    assert sorted[i] == sorted[rooted..][i - rooted];
  }

  lemma BatchParentsAvailable(t: Table, items: seq<Row>, sorted: seq<Row>, rooted: nat)
    requires UniqueIds(Batch(t, items)) && SortedBatch(Batch(t, items), sorted, rooted) && NoBlankParent(t, items)
    ensures ParentsAvailable(t, sorted)
  {
    var batch := Batch(t, items);
    BatchSpec(t, items);
    OrphansSpec(Parents(batch), batch);
    forall i | 0 <= i < |sorted| && sorted[i].parent.Some? ensures sorted[i].parent.value in t || sorted[i].parent.value in IdSet(sorted[..i]) {
      if rooted <= i { TailHasNoParents(batch, sorted, rooted, i); }
      var j :| 0 <= j < |batch| && batch[j] == sorted[i];
      assert batch[j] == ResolvedRow(t, IdSet(Deduped(items)), Deduped(items)[j]);
      DedupedSpec(items);
    }
  }

  // ---------- A blank parent fails the batch ----------

  lemma {:induction false} UpsertAllKeys(t: Table, rows: seq<Row>, f: Merge)
    ensures UpsertAll(t, rows, f).Some? ==> UpsertAll(t, rows, f).value.Keys == t.Keys + IdSet(rows)
  {
    if rows != [] {
      var n := |rows| - 1;
      UpsertAllKeys(t, rows[..n], f);
      assert rows == rows[..n] + [rows[n]];
      IdSetSnoc(rows[..n], rows[n]);
    }
  }

  lemma {:induction false} FailureStays(t: Table, rows: seq<Row>, f: Merge, n: nat)
    requires n <= |rows| && UpsertAll(t, rows[..n], f).None?
    ensures UpsertAll(t, rows, f).None?
    decreases |rows|
  {
    if n < |rows| {
      assert rows[..|rows| - 1][..n] == rows[..n];
      FailureStays(t, rows[..|rows| - 1], f, n);
    } else {
      assert rows[..n] == rows;
    }
  }

  lemma PrefixIds(rows: seq<Row>, n: nat)
    requires n <= |rows|
    ensures IdSet(rows[..n]) <= IdSet(rows)
  {
    assert Ids(rows[..n]) == Ids(rows)[..n];
  }

  lemma BlankRowFails(t: Table, sorted: seq<Row>, f: Merge, i: nat)
    requires ParentRule(f) && i < |sorted| && sorted[i].parent == Some("") && "" !in t && "" !in IdSet(sorted)
    ensures UpsertAll(t, sorted, f).None?
  {
    var before, upto, r := sorted[..i], sorted[..i + 1], sorted[i];
    assert upto[..|upto| - 1] == before && upto[|upto| - 1] == r;
    UpsertAllKeys(t, before, f);
    IdSetSnoc(before, r);
    assert upto == before + [r];
    PrefixIds(sorted, i + 1);
    FailureStays(t, sorted, f, i + 1);
  }

  /** A batch row with a blank parent is a root: it is upserted as it stands. */
  lemma BlankParentSorted(t: Table, items: seq<Row>, sorted: seq<Row>, rooted: nat, j: nat) returns (i: nat)
    requires UniqueIds(Batch(t, items)) && SortedBatch(Batch(t, items), sorted, rooted)
    requires j < |Batch(t, items)| && Batch(t, items)[j].parent == Some("") && "" !in IdSet(items)
    ensures i < |sorted| && sorted[i].parent == Some("")
  {
    var batch := Batch(t, items);
    BatchSpec(t, items);
    ParentsSpec(batch);
    assert AtDepth(Parents(batch), batch[j].id, 0);
    assert Ids(batch)[j] in IdSet(sorted);
    i := IdIndex(sorted, batch[j].id);
    DroppedExactly(batch, sorted, rooted, i, j);
  }

  lemma BlankParentFails(t: Table, items: seq<Row>, sorted: seq<Row>, rooted: nat, f: Merge)
    requires UniqueIds(Batch(t, items)) && SortedBatch(Batch(t, items), sorted, rooted)
    requires ParentRule(f) && !NoBlankParent(t, items)
    ensures UpsertAll(t, sorted, f).None?
  {
    var j :| 0 <= j < |Deduped(items)| && Deduped(items)[j].parent == Some("");
    assert Batch(t, items)[j] == ResolvedRow(t, IdSet(Deduped(items)), Deduped(items)[j]);
    var i := BlankParentSorted(t, items, sorted, rooted, j);
    BatchSpec(t, items);
    BlankRowFails(t, sorted, f, i);
  }

  // ---------- The table after the batch ----------

  /** The batch row with this id as it is upserted: its parent dropped when its chain never reaches a root. */
  ghost function Settled(batch: seq<Row>, id: string): Row
    requires UniqueIds(batch) && id in IdSet(batch)
  {
    var j :| 0 <= j < |batch| && Ids(batch)[j] == id;
    if Rooted(Parents(batch), id) then batch[j] else batch[j].(parent := None)
  }

  ghost function Ingested(t: Table, items: seq<Row>, f: Merge): Table {
    BatchSpec(t, items);
    map id | id in t.Keys + IdSet(items) ::
      if id in IdSet(items) then f(Stored(t, id), Settled(Batch(t, items), id)) else t[id]
  }

  lemma {:induction false} Untouched(t: Table, rows: seq<Row>, f: Merge, id: string)
    requires UpsertAll(t, rows, f).Some? && id !in IdSet(rows)
    ensures Stored(UpsertAll(t, rows, f).value, id) == Stored(t, id)
  {
    if rows != [] {
      var n := |rows| - 1;
      IdSetSnoc(rows[..n], rows[n]);
      assert rows == rows[..n] + [rows[n]];
      Untouched(t, rows[..n], f, id);
    }
  }

  lemma {:induction false} RecordAt(t: Table, rows: seq<Row>, f: Merge, i: nat)
    requires UniqueIds(rows) && UpsertAll(t, rows, f).Some? && i < |rows|
    ensures Stored(UpsertAll(t, rows, f).value, rows[i].id) == Some(f(Stored(t, rows[i].id), rows[i]))
    decreases |rows|
  {
    var n := |rows| - 1;
    NewId(rows, n);
    if i == n {
      Untouched(t, rows[..n], f, rows[n].id);
    } else {
      assert rows[..n][i] == rows[i];
      RecordAt(t, rows[..n], f, i);
    }
  }

  lemma SettledIs(t: Table, items: seq<Row>, sorted: seq<Row>, rooted: nat, i: nat)
    requires UniqueIds(Batch(t, items)) && SortedBatch(Batch(t, items), sorted, rooted) && i < |sorted|
    ensures sorted[i].id in IdSet(Batch(t, items)) && Settled(Batch(t, items), sorted[i].id) == sorted[i]
  {
    var batch := Batch(t, items);
    assert Ids(sorted)[i] in IdSet(sorted);
    var j :| 0 <= j < |batch| && Ids(batch)[j] == sorted[i].id
             && Settled(batch, sorted[i].id) == if Rooted(Parents(batch), sorted[i].id) then batch[j] else batch[j].(parent := None);
    DroppedExactly(batch, sorted, rooted, i, j);
  }

  lemma ResultAt(t: Table, items: seq<Row>, sorted: seq<Row>, rooted: nat, f: Merge, id: string)
    requires UniqueIds(Batch(t, items)) && SortedBatch(Batch(t, items), sorted, rooted) && UpsertAll(t, sorted, f).Some?
    requires IdSet(Batch(t, items)) == IdSet(items)
    ensures Stored(UpsertAll(t, sorted, f).value, id) ==
            if id in IdSet(items) then Some(f(Stored(t, id), Settled(Batch(t, items), id))) else Stored(t, id)
  {
    if id in IdSet(items) {
      var i := IdIndex(sorted, id);
      SettledIs(t, items, sorted, rooted, i);
      SortedIsUnique(Batch(t, items), sorted, rooted);
      RecordAt(t, sorted, f, i);
    } else {
      Untouched(t, sorted, f, id);
    }
  }

  lemma SameTable(a: Table, b: Table)
    requires forall id :: Stored(a, id) == Stored(b, id)
    ensures a == b
  {
    forall id ensures (id in a <==> id in b) && (id in a && id in b ==> a[id] == b[id]) { assert Stored(a, id) == Stored(b, id); }
  }

  lemma IngestedAt(t: Table, items: seq<Row>, f: Merge, id: string)
    requires UniqueIds(Batch(t, items)) && IdSet(Batch(t, items)) == IdSet(items)
    ensures Stored(Ingested(t, items, f), id) ==
            if id in IdSet(items) then Some(f(Stored(t, id), Settled(Batch(t, items), id))) else Stored(t, id)
  {
  }

  /** In whatever order the sort leaves the batch, the table ends up the same. */
  lemma BatchResult(t: Table, items: seq<Row>, sorted: seq<Row>, rooted: nat, f: Merge)
    requires UniqueIds(Batch(t, items)) && SortedBatch(Batch(t, items), sorted, rooted) && UpsertAll(t, sorted, f).Some?
    ensures UpsertAll(t, sorted, f).value == Ingested(t, items, f)
  {
    BatchSpec(t, items);
    var t', want := UpsertAll(t, sorted, f).value, Ingested(t, items, f);
    forall id ensures Stored(t', id) == Stored(want, id) {
      ResultAt(t, items, sorted, rooted, f, id);
      IngestedAt(t, items, f, id);
    }
    SameTable(t', want);
  }

  lemma SortedIsUnique(rows: seq<Row>, sorted: seq<Row>, rooted: nat)
    requires UniqueIds(rows) && SortedBatch(rows, sorted, rooted)
    ensures UniqueIds(sorted)
  {
    forall i, j | 0 <= i < j < |sorted| ensures sorted[i].id != sorted[j].id { assert Ids(sorted)[i] != Ids(sorted)[j]; }
  }

  // ---------- Applying the batch again ----------

  lemma SameBatch(t: Table, u: Table, items: seq<Row>)
    requires u.Keys == t.Keys + IdSet(items)
    ensures Batch(u, items) == Batch(t, items)
    ensures NoBlankParent(u, items) == NoBlankParent(t, items)
  {
    DedupedSpec(items);
    var rows := Deduped(items);
    forall i | 0 <= i < |rows| ensures Batch(u, items)[i] == Batch(t, items)[i] {
      assert ResolvedRow(u, IdSet(rows), rows[i]) == ResolvedRow(t, IdSet(rows), rows[i]);
    }
  }

  lemma SettledPayload(t: Table, items: seq<Row>, id: string)
    requires UniqueIds(Batch(t, items)) && id in IdSet(Batch(t, items))
    requires forall r :: r in items ==> PayloadOk(r)
    ensures PayloadOk(Settled(Batch(t, items), id))
  {
    var batch := Batch(t, items);
    DedupedSpec(items);
    var j :| 0 <= j < |batch| && Ids(batch)[j] == id
             && Settled(batch, id) == if Rooted(Parents(batch), id) then batch[j] else batch[j].(parent := None);
    assert batch[j] == ResolvedRow(t, IdSet(Deduped(items)), Deduped(items)[j]);
    assert Deduped(items)[j] in Deduped(items);
  }

  /** Under any two upserts, the second pass works on the records the first one left. */
  lemma SecondPass(t: Table, items: seq<Row>, f: Merge, g: Merge, id: string)
    ensures var t1 := Ingested(t, items, f);
            && (NoBlankParent(t1, items) <==> NoBlankParent(t, items))
            && UniqueIds(Batch(t, items)) && IdSet(Batch(t, items)) == IdSet(items)
            && Stored(Ingested(t1, items, g), id) ==
              if id in IdSet(items) then Some(g(Some(f(Stored(t, id), Settled(Batch(t, items), id))), Settled(Batch(t, items), id)))
              else Stored(t1, id)
  {
    var t1 := Ingested(t, items, f);
    BatchSpec(t, items);
    SameBatch(t, t1, items);
    IngestedAt(t, items, f, id);
    IngestedAt(t1, items, g, id);
  }

  lemma ReplayRecord(r: Row, stored: Option<Record>, now: Value, later: Value)
    requires PayloadOk(r)
    ensures SameButSeen(CommentMerge(later)(Some(CommentMerge(now)(stored, r)), r), CommentMerge(now)(stored, r))
  {
    UpsertTwice(MB_COMMENT_COLUMNS, MB_COMMENT_ENRICHMENT, stored, Values(r), false, now, later);
  }

  ghost predicate SameRecord(a: Option<Record>, b: Option<Record>) {
    a.Some? == b.Some? && (a.Some? ==> SameButSeen(a.value, b.value))
  }

  /** Ingesting the same batch again is accepted again and changes nothing but the last-seen stamps. */
  lemma ReplayHarmless(t: Table, items: seq<Row>, now: Value, later: Value, id: string)
    requires forall r :: r in items ==> PayloadOk(r)
    ensures var t1 := Ingested(t, items, CommentMerge(now));
            && (NoBlankParent(t1, items) <==> NoBlankParent(t, items))
            && SameRecord(Stored(Ingested(t1, items, CommentMerge(later)), id), Stored(t1, id))
  {
    ReplayAt(t, items, CommentMerge(now), CommentMerge(later), id);
    if id in IdSet(items) {
      BatchSpec(t, items);
      SettledPayload(t, items, id);
      ReplayRecord(Settled(Batch(t, items), id), Stored(t, id), now, later);
    }
  }

  /** The second pass leaves each record alike as soon as the two upserts do so on its own row. */
  lemma ReplayAt(t: Table, items: seq<Row>, f: Merge, g: Merge, id: string)
    ensures var t1 := Ingested(t, items, f);
            && (NoBlankParent(t1, items) <==> NoBlankParent(t, items))
            && UniqueIds(Batch(t, items)) && IdSet(Batch(t, items)) == IdSet(items)
            && (id !in IdSet(items) ==> SameRecord(Stored(Ingested(t1, items, g), id), Stored(t1, id)))
            && (id in IdSet(items) ==>
                  var r := Settled(Batch(t, items), id);
                  SameButSeen(g(Some(f(Stored(t, id), r)), r), f(Stored(t, id), r)) ==>
                  SameRecord(Stored(Ingested(t1, items, g), id), Stored(t1, id)))
  {
    SecondPass(t, items, f, g, id);
    IngestedAt(t, items, f, id);
  }

  /** The next row either ends the batch, or leaves a table that keeps every parent existing. */
  lemma UpsertNext(t: Table, sorted: seq<Row>, f: Merge, i: nat, sofar: Table)
    requires i < |sorted| && UpsertAll(t, sorted[..i], f) == Some(sofar) && ParentsExist(sofar)
    ensures var u := UpsertComment(sofar, sorted[i], f);
            && UpsertAll(t, sorted[..i + 1], f) == u
            && (u.Some? ==> ParentsExist(u.value))
            && (u.None? ==> UpsertAll(t, sorted, f).None?)
  {
    UpsertAllStep(t, sorted, f, i);
    UpsertAcceptedKeeps(sofar, sorted[i], f);
    if UpsertAll(t, sorted[..i + 1], f).None? { FailureStays(t, sorted, f, i + 1); }
  }

  lemma UpsertAllStep(t: Table, sorted: seq<Row>, f: Merge, i: nat)
    requires i < |sorted| && UpsertAll(t, sorted[..i], f).Some?
    ensures UpsertAll(t, sorted[..i + 1], f) == UpsertComment(UpsertAll(t, sorted[..i], f).value, sorted[i], f)
  {
    assert sorted[..i + 1][..i] == sorted[..i];
  }

  /** An upsert the database accepts keeps every parent existing. */
  lemma UpsertAcceptedKeeps(t: Table, r: Row, f: Merge)
    requires ParentsExist(t)
    ensures var u := UpsertComment(t, r, f); u.Some? ==> ParentsExist(u.value)
  {
    var t' := t[r.id := f(Stored(t, r.id), r)];
    if ParentIn(t'[r.id], t'.Keys) {
      forall id | id in t' ensures ParentIn(t'[id], t'.Keys) {
        if id != r.id { assert ParentIn(t[id], t.Keys); }
      }
    }
  }

  lemma SortedOutcome(t: Table, items: seq<Row>, sorted: seq<Row>, rooted: nat, now: Value)
    requires ParentsExist(t) && UniqueIds(Batch(t, items)) && SortedBatch(Batch(t, items), sorted, rooted)
    ensures var u := UpsertAll(t, sorted, CommentMerge(now));
            && (u.Some? <==> NoBlankParent(t, items))
            && (u.Some? ==> u.value == Ingested(t, items, CommentMerge(now)))
  {
    var f := CommentMerge(now);
    CommentParentRule(now);
    if NoBlankParent(t, items) {
      BatchParentsAvailable(t, items, sorted, rooted);
      PrefixKeepsParents(t, sorted, f, |sorted|);
      assert sorted[..|sorted|] == sorted;
      BatchResult(t, items, sorted, rooted, f);
    } else {
      BlankParentFails(t, items, sorted, rooted, f);
    }
  }

  // ---------- The handler ----------

  class CommentStore {
    var rows: Table

    /** One upsert statement; a violated foreign key leaves the row as it was. */
    method UpsertRow(r: Row, now: Value) returns (ok: bool)
      modifies this
      ensures ok == UpsertComment(old(rows), r, CommentMerge(now)).Some?
      ensures rows == if ok then UpsertComment(old(rows), r, CommentMerge(now)).value else old(rows)
    {
      var stored := if r.id in rows then Some(rows[r.id]) else None;
      var record := EnrichmentUpsert(MB_COMMENT_COLUMNS, MB_COMMENT_ENRICHMENT, stored, Values(r), false, now);
      ok := ParentIn(record, rows.Keys + {r.id});
      assert rows[r.id := record].Keys == rows.Keys + {r.id};
      if ok {
        rows := rows[r.id := record];
      }
    }

    /** Keep the first row of each id. */
    method Dedupe(items: seq<Row>) returns (kept: seq<Row>)
      ensures kept == Deduped(items)
    {
      kept := [];
      var seen: set<string> := {};
      var i := 0;
      while i < |items|
        invariant 0 <= i <= |items| && kept == Deduped(items[..i]) && seen == IdSet(kept)
      {
        assert items[..i + 1][..i] == items[..i];
        if items[i].id !in seen {
          IdSetSnoc(kept, items[i]);
          kept := kept + [items[i]];
          seen := seen + {items[i].id};
        }
        i := i + 1;
      }
      assert items[..i] == items;
    }

    /** Drop, row by row, the parents that are neither in the batch nor stored. */
    method Resolve(kept: seq<Row>, batchIds: set<string>) returns (batch: seq<Row>)
      ensures batch == Resolved(rows, batchIds, kept)
    {
      batch := kept;
      var i := 0;
      while i < |kept|
        invariant 0 <= i <= |kept| == |batch|
        invariant forall j :: 0 <= j < |kept| ==> batch[j] == if j < i then ResolvedRow(rows, batchIds, kept[j]) else kept[j]
      {
        var pid := kept[i].parent;
        if pid.Some? && pid.value != "" && pid.value !in batchIds && pid.value !in rows {
          batch := batch[i := kept[i].(parent := None)];
        }
        i := i + 1;
      }
    }

    /**
      Dedupe, resolve, sort and upsert a fetched batch in one transaction. It goes through exactly when no
      row names a blank parent that does not exist; if it does not, nothing is stored.
     */
    method Ingest(items: seq<Row>, now: Value) returns (ok: bool)
      requires ParentsExist(rows)
      modifies this
      ensures ok <==> NoBlankParent(old(rows), items)
      ensures ParentsExist(rows)
      ensures rows == if ok then Ingested(old(rows), items, CommentMerge(now)) else old(rows)
    {
      var committed, kept := rows, [];
      kept := Dedupe(items);
      BatchSpec(rows, items);
      var batchIds := IdSet(kept);
      var batch := Resolve(kept, batchIds);
      assert Ids(batch) == Ids(kept);
      var sorted := TopologicalSort(batch, batchIds);
      ghost var rooted: nat :| SortedBatch(batch, sorted, rooted);
      ok := UpsertSorted(sorted, now);
      SortedOutcome(committed, items, sorted, rooted, now);
      if !ok {
        rows := committed;
      }
    }

    /** Upsert the sorted rows one by one, keeping every parent existing after each. */
    method UpsertSorted(sorted: seq<Row>, now: Value) returns (ok: bool)
      requires ParentsExist(rows)
      modifies this
      ensures ok == UpsertAll(old(rows), sorted, CommentMerge(now)).Some?
      ensures ok ==> rows == UpsertAll(old(rows), sorted, CommentMerge(now)).value
      ensures ParentsExist(rows)
    {
      var i := 0;
      ghost var f := CommentMerge(now);
      assert sorted[..0] == [];
      while i < |sorted|
        invariant 0 <= i <= |sorted| && ParentsExist(rows)
        invariant UpsertAll(old(rows), sorted[..i], f) == Some(rows)
      {
        UpsertNext(old(rows), sorted, f, i, rows);
        ok := UpsertRow(sorted[i], now);
        if !ok {
          return;
        }
        i := i + 1;
      }
      assert sorted[..i] == sorted;
      ok := true;
    }
  }

  /** A batch of one comment that names "" as its parent is refused by an empty table, however it is sorted. */
  lemma BlankParentRefused(now: Value) returns (item: Row)
    ensures PayloadOk(item) && item.parent == Some("") && ParentsExist(map[]) && !NoBlankParent(map[], [item])
    ensures UniqueIds(Batch(map[], [item]))
    ensures forall sorted, rooted: nat :: SortedBatch(Batch(map[], [item]), sorted, rooted) ==> UpsertAll(map[], sorted, CommentMerge(now)).None?
  {
    item := Row("c", Some(""), map[]);
    var items := [item];
    BatchSpec(map[], items);
    assert items[..0] == [] && Deduped(items) == [item];
    assert Deduped(items)[0].parent == Some("");
    forall sorted, rooted: nat | SortedBatch(Batch(map[], items), sorted, rooted) ensures UpsertAll(map[], sorted, CommentMerge(now)).None? {
      SortedOutcome(map[], items, sorted, rooted, now);
    }
  }
}
