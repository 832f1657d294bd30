/**
  What ingestion stores, said of the fields of the fetched rows and the stored table alone.
 */
module CommentFields {
  import opened Options
  import opened Upsert
  import opened CommentSort
  import opened CommentIngest

  /** The row at `i` is the first with its id. */
  predicate First(items: seq<Row>, i: int) {
    0 <= i < |items| && forall j :: 0 <= j < i ==> items[j].id != items[i].id
  }

  predicate Fetched(items: seq<Row>, id: string) {
    exists i :: 0 <= i < |items| && items[i].id == id
  }

  /** Following fetched parents from the row at `i` ends after `d` steps at a row whose parent is not fetched. */
  ghost predicate ChainEnds(items: seq<Row>, i: int, d: nat)
    requires First(items, i)
    decreases d
  {
    var p := items[i].parent;
    if p.Some? && Fetched(items, p.value)
    then d > 0 && exists j :: First(items, j) && items[j].id == p.value && ChainEnds(items, j, d - 1)
    else d == 0
  }

  ghost predicate Ends(items: seq<Row>, i: int)
    requires First(items, i)
  {
    exists d: nat :: ChainEnds(items, i, d)
  }

  /** The row's parent is to be kept: it is fetched and the chain of parents ends, or it is stored or blank. */
  ghost predicate Kept(t: Table, items: seq<Row>, i: int)
    requires First(items, i)
  {
    var p := items[i].parent;
    p.Some? && if Fetched(items, p.value) then Ends(items, i) else p.value in t || p.value == ""
  }

  // ---------- The batch row of a fetched id ----------

  lemma FetchedIds(items: seq<Row>, id: string)
    ensures Fetched(items, id) <==> id in IdSet(items)
  {
    if i :| 0 <= i < |items| && items[i].id == id { assert Ids(items)[i] == id; }
    if id in IdSet(items) { var i := IdIndex(items, id); }
  }

  lemma {:induction false} FirstOf(items: seq<Row>, id: string) returns (i: int)
    requires Fetched(items, id)
    ensures First(items, i) && items[i].id == id
  {
    var init := items[..|items| - 1];
    if Fetched(init, id) {
      i := FirstOf(init, id);
      assert forall j :: 0 <= j < i ==> items[j] == init[j];
    } else {
      i := |items| - 1;
      forall j | 0 <= j < i ensures items[j].id != id { assert init[j] == items[j]; }
    }
  }

  lemma {:induction false} DedupedFirst(items: seq<Row>, i: int)
    requires First(items, i)
    ensures items[i] in Deduped(items)
  {
    var n := |items| - 1;
    var init := items[..n];
    DedupedSpec(init);
    if i < n {
      assert First(init, i) by { assert forall j :: 0 <= j <= i ==> init[j] == items[j]; }
      DedupedFirst(init, i);
    } else {
      FetchedIds(init, items[n].id);
      assert !Fetched(init, items[n].id);
    }
  }

  lemma BatchRow(t: Table, items: seq<Row>, i: int) returns (k: nat)
    requires First(items, i)
    ensures k < |Batch(t, items)| && Batch(t, items)[k] == ResolvedRow(t, IdSet(items), items[i])
    ensures UniqueIds(Batch(t, items)) && IdSet(Batch(t, items)) == IdSet(items)
  {
    DedupedFirst(items, i);
    DedupedSpec(items);
    BatchSpec(t, items);
    k :| 0 <= k < |Deduped(items)| && Deduped(items)[k] == items[i];
  }

  lemma BatchParent(t: Table, items: seq<Row>, i: int)
    requires First(items, i)
    ensures var p, parents := items[i].parent, Parents(Batch(t, items));
            && (items[i].id in parents <==> p.Some? && Fetched(items, p.value))
            && (items[i].id in parents ==> parents[items[i].id] == p.value)
  {
    var k := BatchRow(t, items, i);
    ParentsSpec(Batch(t, items));
    if items[i].parent.Some? { FetchedIds(items, items[i].parent.value); }
  }

  lemma {:induction false} DepthIff(t: Table, items: seq<Row>, i: int, d: nat)
    requires First(items, i)
    ensures AtDepth(Parents(Batch(t, items)), items[i].id, d) <==> ChainEnds(items, i, d)
    decreases d
  {
    BatchParent(t, items, i);
    var p := items[i].parent;
    if p.Some? && Fetched(items, p.value) && d > 0 {
      var j := FirstOf(items, p.value);
      DepthIff(t, items, j, d - 1);
      forall k | First(items, k) && items[k].id == p.value ensures k == j { OnlyFirst(items, j, k); }
    }
  }

  lemma OnlyFirst(items: seq<Row>, j: int, k: int)
    requires First(items, j) && First(items, k) && items[j].id == items[k].id
    ensures j == k
  {
  }

  lemma RootedIff(t: Table, items: seq<Row>, i: int)
    requires First(items, i)
    ensures Rooted(Parents(Batch(t, items)), items[i].id) <==> Ends(items, i)
  {
    if d: nat :| AtDepth(Parents(Batch(t, items)), items[i].id, d) { DepthIff(t, items, i, d); }
    if d: nat :| ChainEnds(items, i, d) { DepthIff(t, items, i, d); }
  }

  lemma SettledAt(batch: seq<Row>, k: nat)
    requires UniqueIds(batch) && k < |batch|
    ensures batch[k].id in IdSet(batch)
    ensures Settled(batch, batch[k].id) == if Rooted(Parents(batch), batch[k].id) then batch[k] else batch[k].(parent := None)
  {
    var id := batch[k].id;
    assert Ids(batch)[k] == id;
    var j :| 0 <= j < |batch| && Ids(batch)[j] == id
             && Settled(batch, id) == if Rooted(Parents(batch), id) then batch[j] else batch[j].(parent := None);
    assert batch[j].id == batch[k].id && j == k;
  }

  lemma ResolvedParent(t: Table, items: seq<Row>, r: Row)
    ensures ResolvedRow(t, IdSet(items), r) == r.(parent :=
              if r.parent.Some? && (Fetched(items, r.parent.value) || r.parent.value in t || r.parent.value == "") then r.parent else None)
  {
    if r.parent.Some? { FetchedIds(items, r.parent.value); }
  }

  lemma NotHangingIsRooted(t: Table, items: seq<Row>, i: int)
    requires First(items, i) && items[i].id !in Parents(Batch(t, items))
    ensures Rooted(Parents(Batch(t, items)), items[i].id)
  {
    assert AtDepth(Parents(Batch(t, items)), items[i].id, 0);
  }

  /** Resolving and breaking cycles together drop the parents that are not kept. */
  lemma ParentSettled(t: Table, items: seq<Row>, i: int)
    requires First(items, i)
    ensures var r := ResolvedRow(t, IdSet(items), items[i]);
            (if Rooted(Parents(Batch(t, items)), items[i].id) then r else r.(parent := None))
            == items[i].(parent := if Kept(t, items, i) then items[i].parent else None)
  {
    ResolvedParent(t, items, items[i]);
    BatchParent(t, items, i);
    RootedIff(t, items, i);
    if items[i].id !in Parents(Batch(t, items)) { NotHangingIsRooted(t, items, i); }
  }

  lemma SettledRow(t: Table, items: seq<Row>, i: int)
    requires First(items, i)
    ensures UniqueIds(Batch(t, items)) && items[i].id in IdSet(Batch(t, items)) && IdSet(Batch(t, items)) == IdSet(items)
    ensures Settled(Batch(t, items), items[i].id) == items[i].(parent := if Kept(t, items, i) then items[i].parent else None)
  {
    var k := BatchRow(t, items, i);
    SettledAt(Batch(t, items), k);
    ParentSettled(t, items, i);
  }

  // ---------- What is stored ----------

  /** The record of a fetched id is the upsert of its first row, with its parent if that is kept; other records stay. */
  lemma IngestedRecord(t: Table, items: seq<Row>, f: Merge, i: int)
    requires First(items, i)
    ensures Stored(Ingested(t, items, f), items[i].id)
            == Some(f(Stored(t, items[i].id), items[i].(parent := if Kept(t, items, i) then items[i].parent else None)))
  {
    SettledRow(t, items, i);
    IngestedAt(t, items, f, items[i].id);
  }

  lemma UnfetchedStays(t: Table, items: seq<Row>, f: Merge, id: string)
    requires !Fetched(items, id)
    ensures Stored(Ingested(t, items, f), id) == Stored(t, id)
  {
    FetchedIds(items, id);
    BatchSpec(t, items);
    IngestedAt(t, items, f, id);
  }

  /**
    A fetched comment is stored with its payload's parent exactly if that is kept, stored beforehand, or fetched with
    a chain that ends; otherwise with the parent it had.
   */
  lemma ParentStored(t: Table, items: seq<Row>, now: Value, i: int)
    requires First(items, i)
    ensures var id, after := items[i].id, Ingested(t, items, CommentMerge(now));
            && id in after
            && StoredParent(after[id]) ==
              if Kept(t, items, i) then Some(Text(items[i].parent.value))
              else if id in t then StoredParent(t[id]) else None
  {
    IngestedRecord(t, items, CommentMerge(now), i);
    CommentParentRule(now);
  }

  /** Its other columns hold the first row's values, or else what was stored. */
  lemma ColumnStored(t: Table, items: seq<Row>, now: Value, i: int, col: string)
    requires First(items, i)
    requires col in ["post_id", "author_name", "author_id", "content", "created_at_src", "upvotes", "downvotes"]
    ensures var id, after := items[i].id, Ingested(t, items, CommentMerge(now));
            && id in after
            && Get(after[id], col) ==
              if Get(items[i].cols, col).Some? then Get(items[i].cols, col)
              else if id in t then Get(t[id], col) else None
  {
    IngestedRecord(t, items, CommentMerge(now), i);
    var id, r := items[i].id, items[i].(parent := if Kept(t, items, i) then items[i].parent else None);
    ColumnUpserted(Stored(t, id), r, now, col);
  }

  lemma ColumnUpserted(stored: Option<Record>, r: Row, now: Value, col: string)
    requires col in ["post_id", "author_name", "author_id", "content", "created_at_src", "upvotes", "downvotes"]
    ensures Get(CommentMerge(now)(stored, r), col) ==
            if Get(r.cols, col).Some? then Get(r.cols, col) else if stored.Some? then Get(stored.value, col) else None
  {
    if stored.Some? { CommentColumns(stored.value, Values(r), false, now, col); }
  }

  lemma DedupedIsFirst(items: seq<Row>, k: nat) returns (i: int)
    requires k < |Deduped(items)|
    ensures First(items, i) && items[i] == Deduped(items)[k]
  {
    var r := Deduped(items)[k];
    DedupedSpec(items);
    assert r in items;
    i := FirstOf(items, r.id);
    DedupedFirst(items, i);
    var j :| 0 <= j < |Deduped(items)| && Deduped(items)[j] == items[i];
    assert j == k;
  }

  /** The batch is refused exactly if the first row of some id names "" as its parent and no such comment is stored or fetched. */
  lemma RefusedIff(t: Table, items: seq<Row>)
    ensures NoBlankParent(t, items) <==> "" in t || Fetched(items, "") || forall i :: First(items, i) ==> items[i].parent != Some("")
  {
    FetchedIds(items, "");
    if forall i :: First(items, i) ==> items[i].parent != Some("") {
      forall k | 0 <= k < |Deduped(items)| ensures Deduped(items)[k].parent != Some("") { var i := DedupedIsFirst(items, k); }
    }
    if i :| First(items, i) && items[i].parent == Some("") {
      DedupedFirst(items, i);
      var k :| 0 <= k < |Deduped(items)| && Deduped(items)[k] == items[i];
    }
  }
}
