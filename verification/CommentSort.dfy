/**
  The topological sort of a comment batch (textlake/handlers/comments.py): Kahn's algorithm over
  in-batch parents, with the rows it cannot reach appended last and made roots.
 */
module CommentSort {
  import opened Options
  import opened Collections
  import opened Upsert

  /** A comment row of the batch: its id, its parent and its other columns. */
  datatype Row = Row(id: string, parent: Option<string>, cols: map<string, Option<Value>>)

  function Ids(rows: seq<Row>): (ids: seq<string>)
    ensures |ids| == |rows| && forall i :: 0 <= i < |rows| ==> ids[i] == rows[i].id
  {
    seq(|rows|, i requires 0 <= i < |rows| => rows[i].id)
  }

  function IdSet(rows: seq<Row>): set<string> {
    set x | x in Ids(rows)
  }

  predicate UniqueIds(rows: seq<Row>) {
    forall i, j :: 0 <= i < j < |rows| ==> rows[i].id != rows[j].id
  }

  /** The row hangs off a parent in the batch. */
  predicate Hangs(batch: set<string>, r: Row) {
    r.parent.Some? && r.parent.value in batch
  }

  /** Each hanging row's id with its parent's id. */
  function HangingParents(batch: set<string>, rows: seq<Row>): map<string, string> {
    if rows == [] then map[]
    else
      var init, last := HangingParents(batch, rows[..|rows| - 1]), rows[|rows| - 1];
      if Hangs(batch, last) then init[last.id := last.parent.value] else init
  }

  function Parents(rows: seq<Row>): map<string, string> {
    HangingParents(IdSet(rows), rows)
  }

  /** Following parents from `id` reaches a root in exactly `d` steps. */
  ghost predicate AtDepth(parents: map<string, string>, id: string, d: nat)
    decreases d
  {
    if id in parents then d > 0 && AtDepth(parents, parents[id], d - 1) else d == 0
  }

  /** The parent chain reaches a root: `id` is on no cycle and below none. */
  ghost predicate Rooted(parents: map<string, string>, id: string) {
    exists d: nat :: AtDepth(parents, id, d)
  }

  lemma {:induction false} DepthUnique(parents: map<string, string>, id: string, d: nat, e: nat)
    requires AtDepth(parents, id, d) && AtDepth(parents, id, e)
    ensures d == e
    decreases d
  {
    if id in parents { DepthUnique(parents, parents[id], d - 1, e - 1); }
  }

  /** The rows whose chain never reaches a root, in batch order, made roots. */
  ghost function Orphans(parents: map<string, string>, rows: seq<Row>): seq<Row> {
    if rows == [] then []
    else
      var last := rows[|rows| - 1];
      Orphans(parents, rows[..|rows| - 1]) + if Rooted(parents, last.id) then [] else [last.(parent := None)]
  }

  /** The ids in `rows` that hang off `p`, in batch order. */
  function ChildIds(batch: set<string>, rows: seq<Row>, p: string): seq<string> {
    if rows == [] then []
    else
      var last := rows[|rows| - 1];
      ChildIds(batch, rows[..|rows| - 1], p) + if Hangs(batch, last) && last.parent.value == p then [last.id] else []
  }

  function RootIds(batch: set<string>, rows: seq<Row>): seq<string> {
    if rows == [] then []
    else
      var last := rows[|rows| - 1];
      RootIds(batch, rows[..|rows| - 1]) + if Hangs(batch, last) then [] else [last.id]
  }

  lemma {:induction false} ChildIdsSpec(batch: set<string>, rows: seq<Row>, p: string)
    requires UniqueIds(rows)
    ensures NoDuplicates(ChildIds(batch, rows, p))
    ensures forall x :: x in ChildIds(batch, rows, p) <==>
              exists i :: 0 <= i < |rows| && rows[i].id == x && Hangs(batch, rows[i]) && rows[i].parent.value == p
  {
    if rows != [] {
      var n := |rows| - 1;
      var init := rows[..n];
      ChildIdsSpec(batch, init, p);
      forall i | 0 <= i < n ensures init[i].id != rows[n].id {}
      AppendNew(ChildIds(batch, init, p), rows[n].id);
      forall x ensures x in ChildIds(batch, rows, p) <==>
              exists i :: 0 <= i < |rows| && rows[i].id == x && Hangs(batch, rows[i]) && rows[i].parent.value == p {
        if x in ChildIds(batch, init, p) {
          var i :| 0 <= i < n && init[i].id == x && Hangs(batch, init[i]) && init[i].parent.value == p;
          assert rows[i].id == x;
        }
        if i :| 0 <= i < |rows| && rows[i].id == x && Hangs(batch, rows[i]) && rows[i].parent.value == p && i < n {
          assert init[i].id == x;
        }
      }
    }
  }

  lemma {:induction false} RootIdsSpec(batch: set<string>, rows: seq<Row>)
    requires UniqueIds(rows)
    ensures NoDuplicates(RootIds(batch, rows))
    ensures forall x :: x in RootIds(batch, rows) <==> exists i :: 0 <= i < |rows| && rows[i].id == x && !Hangs(batch, rows[i])
  {
    if rows != [] {
      var n := |rows| - 1;
      var init := rows[..n];
      RootIdsSpec(batch, init);
      forall i | 0 <= i < n ensures init[i].id != rows[n].id {}
      AppendNew(RootIds(batch, init), rows[n].id);
      forall x ensures x in RootIds(batch, rows) <==> exists i :: 0 <= i < |rows| && rows[i].id == x && !Hangs(batch, rows[i]) {
        if x in RootIds(batch, init) {
          var i :| 0 <= i < n && init[i].id == x && !Hangs(batch, init[i]);
          assert rows[i].id == x;
        }
        if i :| 0 <= i < |rows| && rows[i].id == x && !Hangs(batch, rows[i]) && i < n {
          assert init[i].id == x;
        }
      }
    }
  }

  // ---------- The queue ----------

  /** Ids in the order they join the queue, with their depths: non-decreasing, and within one of the head's. */
  ghost predicate DepthsOk(parents: map<string, string>, all: seq<string>, n: nat, depth: seq<nat>) {
    && n <= |all| == |depth|
    && (forall i :: 0 <= i < |all| ==> AtDepth(parents, all[i], depth[i]))
    && (forall i, j :: 0 <= i < j < |all| ==> depth[i] <= depth[j])
    && (forall i :: n <= i < |all| ==> depth[i] <= depth[n] + 1)
  }

  /** The ids that have joined are the roots and the children of the first `n`, the ones already output. */
  ghost predicate MembersOk(parents: map<string, string>, ids: set<string>, all: seq<string>, n: nat) {
    && n <= |all| && NoDuplicates(all)
    && (forall x :: x in all ==> x in ids)
    && (forall x :: x in ids ==> (x in all <==> x !in parents || parents[x] in all[..n]))
  }

  /** Every id that has joined comes after its parent. */
  ghost predicate ParentsFirst(parents: map<string, string>, all: seq<string>) {
    forall i :: 0 <= i < |all| && all[i] in parents ==> parents[all[i]] in all[..i]
  }

  ghost predicate AreKids(parents: map<string, string>, ids: set<string>, p: string, kids: seq<string>) {
    NoDuplicates(kids) && forall x :: x in kids <==> x in ids && x in parents && parents[x] == p
  }

  lemma KidsAreNew(parents: map<string, string>, ids: set<string>, all: seq<string>, n: nat, kids: seq<string>)
    requires MembersOk(parents, ids, all, n) && n < |all| && AreKids(parents, ids, all[n], kids)
    ensures forall x :: x in kids ==> x !in all
  {
    assert all[n] !in all[..n];
  }

  lemma MembersStep(parents: map<string, string>, ids: set<string>, all: seq<string>, n: nat, kids: seq<string>)
    requires MembersOk(parents, ids, all, n) && n < |all| && AreKids(parents, ids, all[n], kids)
    ensures MembersOk(parents, ids, all + kids, n + 1)
  {
    KidsAreNew(parents, ids, all, n, kids);
    assert (all + kids)[..n + 1] == all[..n] + [all[n]];
    forall i, j | 0 <= i < j < |all + kids| ensures (all + kids)[i] != (all + kids)[j] {
      if i < |all| <= j { assert kids[j - |all|] in kids; }
    }
  }

  lemma DepthsStep(parents: map<string, string>, ids: set<string>, all: seq<string>, n: nat, depth: seq<nat>, kids: seq<string>)
    returns (depth': seq<nat>)
    requires DepthsOk(parents, all, n, depth) && n < |all| && AreKids(parents, ids, all[n], kids)
    ensures DepthsOk(parents, all + kids, n + 1, depth')
  {
    depth' := depth + seq(|kids|, _ => depth[n] + 1);
    forall i | 0 <= i < |kids| ensures AtDepth(parents, kids[i], depth[n] + 1) { assert kids[i] in kids; }
  }

  lemma ParentsFirstStep(parents: map<string, string>, ids: set<string>, all: seq<string>, n: nat, kids: seq<string>)
    requires ParentsFirst(parents, all) && n < |all| && AreKids(parents, ids, all[n], kids)
    ensures ParentsFirst(parents, all + kids)
  {
    forall i | 0 <= i < |all + kids| && (all + kids)[i] in parents ensures parents[(all + kids)[i]] in (all + kids)[..i] {
      if i < |all| {
        assert (all + kids)[..i] == all[..i];
      } else {
        assert kids[i - |all|] in kids;
        assert (all + kids)[..i][n] == all[n];
      }
    }
  }

  /** When the queue is empty every rooted id has been output. */
  lemma {:induction false} RootedIsDone(parents: map<string, string>, ids: set<string>, all: seq<string>, x: string, d: nat)
    requires MembersOk(parents, ids, all, |all|) && x in ids && AtDepth(parents, x, d)
    requires forall y :: y in parents ==> parents[y] in ids
    ensures x in all
    decreases d
  {
    assert all[..|all|] == all;
    if x in parents { RootedIsDone(parents, ids, all, parents[x], d - 1); }
  }

  lemma BoundedByIds(xs: seq<string>, rows: seq<Row>)
    requires NoDuplicates(xs) && forall x :: x in xs ==> x in IdSet(rows)
    ensures |xs| <= |rows|
  {
    var s := set x | x in xs;
    EnumerationSize(xs, s);
    SubsetSize(s, IdSet(rows));
    MembersSize(Ids(rows));
  }

  // ---------- What the sort promises ----------

  /**
    `sorted` is the batch in an order safe to insert: each id once; the rooted rows first, unchanged and by
    depth; then the rest as roots, in batch order; and no row before its in-batch parent.
   */
  ghost predicate SortedBatch(rows: seq<Row>, sorted: seq<Row>, rooted: nat)
    requires UniqueIds(rows)
  {
    var parents := Parents(rows);
    && rooted <= |sorted|
    && NoDuplicates(Ids(sorted)) && IdSet(sorted) == IdSet(rows)
    && (forall i :: 0 <= i < rooted ==> sorted[i] in rows && Rooted(parents, sorted[i].id))
    && sorted[rooted..] == Orphans(parents, rows)
    && (forall i, j, d: nat, e: nat :: 0 <= i < j < rooted && AtDepth(parents, sorted[i].id, d) && AtDepth(parents, sorted[j].id, e) ==> d <= e)
    && (forall i :: 0 <= i < |sorted| && Hangs(IdSet(rows), sorted[i]) ==> sorted[i].parent.value in IdSet(sorted[..i]))
  }

  // ---------- The loops ----------

  function Children(m: map<string, seq<string>>, p: string): seq<string> {
    if p in m then m[p] else []
  }

  lemma IdSetSnoc(rows: seq<Row>, r: Row)
    ensures IdSet(rows + [r]) == IdSet(rows) + {r.id}
  {
    assert Ids(rows + [r]) == Ids(rows) + [r.id];
  }

  /** The three dictionaries built from `rows`. */
  ghost predicate RowsOk(rows: seq<Row>, rowsById: map<string, Row>) {
    rowsById.Keys == IdSet(rows) && forall j :: 0 <= j < |rows| ==> rows[j].id in rowsById && rowsById[rows[j].id] == rows[j]
  }

  ghost predicate DegreesBuilt(rows: seq<Row>, batch: set<string>, inDegree: map<string, int>) {
    inDegree.Keys == IdSet(rows)
    && forall j :: 0 <= j < |rows| ==> rows[j].id in inDegree && inDegree[rows[j].id] == if Hangs(batch, rows[j]) then 1 else 0
  }

  ghost predicate ChildrenOk(rows: seq<Row>, batch: set<string>, children: map<string, seq<string>>) {
    forall p :: Children(children, p) == ChildIds(batch, rows, p)
  }

  lemma RowsStep(rows: seq<Row>, r: Row, rowsById: map<string, Row>)
    requires r.id !in IdSet(rows) && RowsOk(rows, rowsById)
    ensures RowsOk(rows + [r], rowsById[r.id := r])
  {
    IdSetSnoc(rows, r);
    forall j | 0 <= j < |rows| ensures rows[j].id != r.id { assert Ids(rows)[j] in IdSet(rows); }
  }

  lemma DegreesStep(rows: seq<Row>, r: Row, batch: set<string>, inDegree: map<string, int>)
    requires r.id !in IdSet(rows) && DegreesBuilt(rows, batch, inDegree)
    ensures DegreesBuilt(rows + [r], batch, inDegree[r.id := if Hangs(batch, r) then 1 else 0])
  {
    IdSetSnoc(rows, r);
    forall j | 0 <= j < |rows| ensures rows[j].id != r.id { assert Ids(rows)[j] in IdSet(rows); }
  }

  lemma ChildrenStep(rows: seq<Row>, r: Row, batch: set<string>, children: map<string, seq<string>>)
    requires ChildrenOk(rows, batch, children)
    ensures ChildrenOk(rows + [r], batch,
                       if Hangs(batch, r) then children[r.parent.value := Children(children, r.parent.value) + [r.id]] else children)
  {
    var rows' := rows + [r];
    assert rows'[..|rows|] == rows && rows'[|rows|] == r;
    forall p ensures ChildIds(batch, rows', p) ==
                     if Hangs(batch, r) && r.parent.value == p then ChildIds(batch, rows, p) + [r.id] else ChildIds(batch, rows, p) {
      assert ChildIds(batch, rows, p) + [] == ChildIds(batch, rows, p);
    }
  }

  lemma NewId(rows: seq<Row>, i: nat)
    requires UniqueIds(rows) && i < |rows|
    ensures rows[..i + 1] == rows[..i] + [rows[i]] && rows[i].id !in IdSet(rows[..i])
  {
    if rows[i].id in IdSet(rows[..i]) { var j := IdIndex(rows[..i], rows[i].id); }
  }

  lemma {:induction false} HangingParentsSpec(batch: set<string>, rows: seq<Row>)
    requires UniqueIds(rows)
    ensures forall i :: 0 <= i < |rows| ==>
              (if Hangs(batch, rows[i]) then
                 rows[i].id in HangingParents(batch, rows) && HangingParents(batch, rows)[rows[i].id] == rows[i].parent.value
               else rows[i].id !in HangingParents(batch, rows))
    ensures forall x :: x in HangingParents(batch, rows) ==> x in IdSet(rows) && HangingParents(batch, rows)[x] in batch
  {
    if rows != [] {
      var n := |rows| - 1;
      HangingParentsSpec(batch, rows[..n]);
      NewId(rows, n);
      IdSetSnoc(rows[..n], rows[n]);
      assert rows[..n + 1] == rows;
      forall i | 0 <= i < n ensures rows[i].id != rows[n].id && rows[i] == rows[..n][i] {}
    }
  }

  lemma ParentsSpec(rows: seq<Row>)
    requires UniqueIds(rows)
    ensures forall i :: 0 <= i < |rows| ==>
              (if Hangs(IdSet(rows), rows[i]) then rows[i].id in Parents(rows) && Parents(rows)[rows[i].id] == rows[i].parent.value
               else rows[i].id !in Parents(rows))
    ensures forall x :: x in Parents(rows) ==> x in IdSet(rows) && Parents(rows)[x] in IdSet(rows)
  {
    HangingParentsSpec(IdSet(rows), rows);
  }

  lemma IdIndex(rows: seq<Row>, x: string) returns (i: nat)
    requires x in IdSet(rows)
    ensures i < |rows| && rows[i].id == x
  {
    i :| 0 <= i < |rows| && Ids(rows)[i] == x;
  }

  lemma KidsOf(rows: seq<Row>, p: string)
    requires UniqueIds(rows)
    ensures AreKids(Parents(rows), IdSet(rows), p, ChildIds(IdSet(rows), rows, p))
  {
    var batch, parents, kids := IdSet(rows), Parents(rows), ChildIds(IdSet(rows), rows, p);
    ParentsSpec(rows);
    ChildIdsSpec(batch, rows, p);
    forall x ensures x in kids <==> x in batch && x in parents && parents[x] == p {
      if x in kids {
        var i :| 0 <= i < |rows| && rows[i].id == x && Hangs(batch, rows[i]) && rows[i].parent.value == p;
      }
      if x in batch && x in parents && parents[x] == p { var i := IdIndex(rows, x); }
    }
  }

  lemma RootsFirst(rows: seq<Row>) returns (depth: seq<nat>)
    requires UniqueIds(rows)
    ensures var all := RootIds(IdSet(rows), rows);
            && MembersOk(Parents(rows), IdSet(rows), all, 0) && DepthsOk(Parents(rows), all, 0, depth)
            && ParentsFirst(Parents(rows), all)
  {
    var batch, parents, all := IdSet(rows), Parents(rows), RootIds(IdSet(rows), rows);
    ParentsSpec(rows);
    RootIdsSpec(batch, rows);
    depth := seq(|all|, _ => 0);
    forall x ensures x in all <==> x in batch && x !in parents {
      if x in all {
        var i :| 0 <= i < |rows| && rows[i].id == x && !Hangs(batch, rows[i]);
        assert Ids(rows)[i] == x;
      }
      if x in batch && x !in parents { var i := IdIndex(rows, x); }
    }
    forall i | 0 <= i < |all| ensures all[i] !in parents { assert all[i] in all; }
  }

  /** In-degrees once the ids in `done` have been output. */
  ghost predicate DegreesOk(parents: map<string, string>, ids: set<string>, done: seq<string>, inDegree: map<string, int>) {
    inDegree.Keys == ids && forall x :: x in ids ==> inDegree[x] == if x in parents && parents[x] !in done then 1 else 0
  }

  /** Lower the in-degree of each child of the row just output; all of them become ready. */
  method ReleaseChildren(kids: seq<string>, degrees: map<string, int>, queue: seq<string>, ghost parents: map<string, string>, ghost ids: set<string>, ghost done: seq<string>, ghost p: string)
    returns (inDegree: map<string, int>, ready: seq<string>)
    requires DegreesOk(parents, ids, done, degrees) && AreKids(parents, ids, p, kids) && p !in done
    ensures DegreesOk(parents, ids, done + [p], inDegree)
    ensures ready == queue + kids
  {
    inDegree, ready := degrees, queue;
    var j := 0;
    while j < |kids|
      invariant 0 <= j <= |kids| && inDegree.Keys == degrees.Keys == ids
      invariant forall x :: x in degrees ==> inDegree[x] == if x in kids[..j] then 0 else degrees[x]
      invariant ready == queue + kids[..j]
    {
      var child := kids[j];
      assert child in kids && child !in kids[..j];
      assert kids[..j + 1] == kids[..j] + [child];
      inDegree := inDegree[child := inDegree[child] - 1];
      if inDegree[child] == 0 {
        ready := ready + [child];
      }
      j := j + 1;
    }
    assert kids[..j] == kids;
  }

  /** The loop's view of the queue: `all` ids in joining order, the first ones output and the rest waiting. */
  ghost predicate QueueOk(parents: map<string, string>, ids: set<string>, done: seq<string>, ready: seq<string>, all: seq<string>, depth: seq<nat>) {
    && all == done + ready
    && MembersOk(parents, ids, all, |done|) && DepthsOk(parents, all, |done|, depth) && ParentsFirst(parents, all)
  }

  lemma QueueStep(parents: map<string, string>, ids: set<string>, done: seq<string>, ready: seq<string>, all: seq<string>, depth: seq<nat>, kids: seq<string>)
    returns (depth': seq<nat>)
    requires QueueOk(parents, ids, done, ready, all, depth) && ready != [] && AreKids(parents, ids, ready[0], kids)
    ensures QueueOk(parents, ids, done + [ready[0]], ready[1..] + kids, all + kids, depth')
  {
    var n := |done|;
    ShiftHead(done, ready, kids);
    MembersStep(parents, ids, all, n, kids);
    depth' := DepthsStep(parents, ids, all, n, depth, kids);
    ParentsFirstStep(parents, ids, all, n, kids);
  }

  lemma ShiftHead(done: seq<string>, ready: seq<string>, kids: seq<string>)
    requires ready != []
    ensures (done + [ready[0]]) + (ready[1..] + kids) == (done + ready) + kids
    ensures (done + ready)[|done|] == ready[0] && |done + [ready[0]]| == |done| + 1
  {
  }

  lemma QueueHead(parents: map<string, string>, rows: seq<Row>, done: seq<string>, ready: seq<string>, all: seq<string>, depth: seq<nat>)
    requires QueueOk(parents, IdSet(rows), done, ready, all, depth) && ready != []
    ensures ready[0] in IdSet(rows) && ready[0] !in done && |done| < |rows|
  {
    assert all[|done|] == ready[0] && ready[0] in all;
    BoundedByIds(all, rows);
    forall i | 0 <= i < |done| ensures done[i] != ready[0] { assert all[i] == done[i]; }
  }

  /** The loop invariant: the rows output so far, and the queue. */
  ghost predicate DrainOk(rows: seq<Row>, sorted: seq<Row>, ready: seq<string>, all: seq<string>, depth: seq<nat>) {
    && QueueOk(Parents(rows), IdSet(rows), Ids(sorted), ready, all, depth)
    && forall i :: 0 <= i < |sorted| ==> sorted[i] in rows
  }

  lemma DrainStart(rows: seq<Row>) returns (depth: seq<nat>)
    requires UniqueIds(rows)
    ensures DrainOk(rows, [], RootIds(IdSet(rows), rows), RootIds(IdSet(rows), rows), depth)
  {
    depth := RootsFirst(rows);
    assert [] + RootIds(IdSet(rows), rows) == RootIds(IdSet(rows), rows);
  }

  /** Everything one round of the loop relies on, and what it leaves. */
  lemma DrainStep(rows: seq<Row>, rowsById: map<string, Row>, children: map<string, seq<string>>, sorted: seq<Row>, ready: seq<string>, all: seq<string>, depth: seq<nat>)
    returns (depth': seq<nat>)
    requires UniqueIds(rows) && RowsOk(rows, rowsById) && ChildrenOk(rows, IdSet(rows), children)
    requires DrainOk(rows, sorted, ready, all, depth) && ready != []
    ensures ready[0] in rowsById && ready[0] !in Ids(sorted) && |sorted| < |rows|
    ensures AreKids(Parents(rows), IdSet(rows), ready[0], Children(children, ready[0]))
    ensures Ids(sorted + [rowsById[ready[0]]]) == Ids(sorted) + [ready[0]]
    ensures DrainOk(rows, sorted + [rowsById[ready[0]]], ready[1..] + Children(children, ready[0]), all + Children(children, ready[0]), depth')
  {
    var cid := ready[0];
    QueueHead(Parents(rows), rows, Ids(sorted), ready, all, depth);
    RowFound(rows, rowsById, cid);
    KidsOf(rows, cid);
    SnocIds(sorted, rowsById[cid]);
    depth' := QueueStep(Parents(rows), IdSet(rows), Ids(sorted), ready, all, depth, Children(children, cid));
  }

  /** Output the queue's head and release its children, until the queue is empty. */
  method DrainQueue(rows: seq<Row>, rowsById: map<string, Row>, children: map<string, seq<string>>, degrees: map<string, int>)
    returns (sorted: seq<Row>, ghost depth: seq<nat>)
    requires UniqueIds(rows) && RowsOk(rows, rowsById) && ChildrenOk(rows, IdSet(rows), children) && DegreesBuilt(rows, IdSet(rows), degrees)
    ensures DrainOk(rows, sorted, [], Ids(sorted), depth)
  {
    var ready := RootIds(IdSet(rows), rows);
    ghost var all := ready;
    depth := DrainStart(rows);
    sorted := [];
    var inDegree := degrees;
    DegreesAtStart(rows, degrees);
    while ready != []
      invariant DrainOk(rows, sorted, ready, all, depth)
      invariant DegreesOk(Parents(rows), IdSet(rows), Ids(sorted), inDegree)
      decreases |rows| - |sorted|
    {
      var cid := ready[0];
      depth := DrainStep(rows, rowsById, children, sorted, ready, all, depth);
      var kids := Children(children, cid);
      all := all + kids;
      inDegree, ready := ReleaseChildren(kids, inDegree, ready[1..], Parents(rows), IdSet(rows), Ids(sorted), cid);
      sorted := sorted + [rowsById[cid]];
    }
    assert Ids(sorted) + [] == Ids(sorted);
  }

  lemma SnocIds(rows: seq<Row>, r: Row)
    ensures Ids(rows + [r]) == Ids(rows) + [r.id]
  {
  }

  lemma RowFound(rows: seq<Row>, rowsById: map<string, Row>, x: string)
    requires RowsOk(rows, rowsById) && x in IdSet(rows)
    ensures x in rowsById && rowsById[x].id == x && rowsById[x] in rows
  {
    var i := IdIndex(rows, x);
  }

  lemma DegreesAtStart(rows: seq<Row>, inDegree: map<string, int>)
    requires UniqueIds(rows) && DegreesBuilt(rows, IdSet(rows), inDegree)
    ensures DegreesOk(Parents(rows), IdSet(rows), [], inDegree)
  {
    ParentsSpec(rows);
    forall x | x in IdSet(rows) ensures inDegree[x] == if x in Parents(rows) then 1 else 0 { var i := IdIndex(rows, x); }
  }

  /** Index the batch: rows by id, children by parent, and in-degrees. */
  method BuildIndex(rows: seq<Row>, batchIds: set<string>)
    returns (rowsById: map<string, Row>, childrenByParent: map<string, seq<string>>, inDegree: map<string, int>)
    requires UniqueIds(rows)
    ensures RowsOk(rows, rowsById) && ChildrenOk(rows, batchIds, childrenByParent) && DegreesBuilt(rows, batchIds, inDegree)
  {
    rowsById, childrenByParent, inDegree := map[], map[], map[];
    var i := 0;
    assert rows[..0] == [];
    while i < |rows|
      invariant 0 <= i <= |rows|
      invariant RowsOk(rows[..i], rowsById) && DegreesBuilt(rows[..i], batchIds, inDegree)
      invariant ChildrenOk(rows[..i], batchIds, childrenByParent)
    {
      var r := rows[i];
      NewId(rows, i);
      RowsStep(rows[..i], r, rowsById);
      DegreesStep(rows[..i], r, batchIds, inDegree);
      ChildrenStep(rows[..i], r, batchIds, childrenByParent);
      rowsById := rowsById[r.id := r];
      if r.parent.Some? && r.parent.value in batchIds {
        childrenByParent := childrenByParent[r.parent.value := Children(childrenByParent, r.parent.value) + [r.id]];
        inDegree := inDegree[r.id := 1];
      } else {
        inDegree := inDegree[r.id := 0];
      }
      i := i + 1;
    }
    assert rows[..i] == rows;
  }

  /** Append the rows that were not output, as roots. */
  method AppendOrphans(rows: seq<Row>, outputIds: set<string>, head: seq<Row>) returns (sorted: seq<Row>)
    requires forall x :: x in IdSet(rows) ==> (x in outputIds <==> Rooted(Parents(rows), x))
    ensures sorted == head + Orphans(Parents(rows), rows)
  {
    sorted := head;
    var i := 0;
    while i < |rows|
      invariant 0 <= i <= |rows|
      invariant sorted == head + Orphans(Parents(rows), rows[..i])
    {
      var r := rows[i];
      assert rows[..i + 1] == rows[..i] + [r];
      OrphansSnoc(Parents(rows), rows[..i], r);
      assert Ids(rows)[i] in IdSet(rows);
      if r.id !in outputIds {
        sorted := sorted + [r.(parent := None)];
      }
      i := i + 1;
    }
    assert rows[..i] == rows;
  }

  method TopologicalSort(rows: seq<Row>, batchIds: set<string>) returns (sorted: seq<Row>)
    requires UniqueIds(rows) && batchIds == IdSet(rows)
    ensures exists rooted: nat :: SortedBatch(rows, sorted, rooted)
  {
    var rowsById, childrenByParent, inDegree := BuildIndex(rows, batchIds);
    var head;
    ghost var depth;
    head, depth := DrainQueue(rows, rowsById, childrenByParent, inDegree);
    OutputIsRooted(rows, head, depth);
    sorted := AppendOrphans(rows, IdSet(head), head);
    SortFinished(rows, head, depth);
    assert SortedBatch(rows, sorted, |head|);
  }

  lemma OutputIsRooted(rows: seq<Row>, head: seq<Row>, depth: seq<nat>)
    requires UniqueIds(rows) && DrainOk(rows, head, [], Ids(head), depth)
    ensures forall x :: x in IdSet(rows) ==> (x in IdSet(head) <==> Rooted(Parents(rows), x))
  {
    ParentsSpec(rows);
    forall x | x in IdSet(rows) ensures x in IdSet(head) <==> Rooted(Parents(rows), x) {
      if x in IdSet(head) {
        var i := IdIndex(head, x);
        assert AtDepth(Parents(rows), Ids(head)[i], depth[i]);
      }
      if Rooted(Parents(rows), x) {
        var d: nat :| AtDepth(Parents(rows), x, d);
        RootedIsDone(Parents(rows), IdSet(rows), Ids(head), x, d);
      }
    }
  }

  lemma OrphansSnoc(parents: map<string, string>, rows: seq<Row>, r: Row)
    ensures Orphans(parents, rows + [r]) == Orphans(parents, rows) + if Rooted(parents, r.id) then [] else [r.(parent := None)]
  {
    assert (rows + [r])[..|rows|] == rows;
  }

  lemma {:induction false} OrphansSpec(parents: map<string, string>, rows: seq<Row>)
    requires UniqueIds(rows)
    ensures UniqueIds(Orphans(parents, rows))
    ensures forall i :: 0 <= i < |Orphans(parents, rows)| ==> Orphans(parents, rows)[i].parent == None
    ensures forall x :: x in IdSet(Orphans(parents, rows)) <==> x in IdSet(rows) && !Rooted(parents, x)
  {
    if rows != [] {
      var n := |rows| - 1;
      var init := Orphans(parents, rows[..n]);
      OrphansSpec(parents, rows[..n]);
      NewId(rows, n);
      assert rows[..n + 1] == rows;
      IdSetSnoc(rows[..n], rows[n]);
      if Rooted(parents, rows[n].id) {
        assert Orphans(parents, rows) == init;
      } else {
        var r := rows[n].(parent := None);
        IdSetSnoc(init, r);
        assert rows[n].id !in IdSet(init);
        forall i | 0 <= i < |init| ensures init[i].id != r.id { assert Ids(init)[i] in IdSet(init); }
      }
    }
  }

  lemma IdsConcat(a: seq<Row>, b: seq<Row>)
    ensures Ids(a + b) == Ids(a) + Ids(b) && IdSet(a + b) == IdSet(a) + IdSet(b)
  {
    assert Ids(a + b) == Ids(a) + Ids(b);
  }

  /** The head and the orphans together hold each id once. */
  lemma TogetherOnce(rows: seq<Row>, head: seq<Row>, depth: seq<nat>)
    requires UniqueIds(rows) && DrainOk(rows, head, [], Ids(head), depth)
    ensures var all := head + Orphans(Parents(rows), rows); NoDuplicates(Ids(all)) && IdSet(all) == IdSet(rows)
  {
    var tail := Orphans(Parents(rows), rows);
    OrphansSpec(Parents(rows), rows);
    OutputIsRooted(rows, head, depth);
    IdsConcat(head, tail);
    forall x ensures x in IdSet(head) + IdSet(tail) <==> x in IdSet(rows) {}
    forall x ensures !(x in Ids(head) && x in Ids(tail)) { assert x in Ids(head) ==> x in IdSet(head); }
    DisjointConcat(Ids(head), Ids(tail));
  }

  lemma DisjointConcat(a: seq<string>, b: seq<string>)
    requires NoDuplicates(a) && NoDuplicates(b) && forall x :: !(x in a && x in b)
    ensures NoDuplicates(a + b)
  {
    forall i, j | 0 <= i < |a| && 0 <= j < |b| ensures a[i] != b[j] { assert a[i] in a && b[j] in b; }
  }

  /** In the head the depths never decrease. */
  lemma HeadByDepth(rows: seq<Row>, head: seq<Row>, depth: seq<nat>)
    requires DrainOk(rows, head, [], Ids(head), depth)
    ensures forall i, j, d: nat, e: nat :: 0 <= i < j < |head| && AtDepth(Parents(rows), head[i].id, d) && AtDepth(Parents(rows), head[j].id, e) ==> d <= e
    ensures forall i :: 0 <= i < |head| ==> Rooted(Parents(rows), head[i].id)
  {
    var parents := Parents(rows);
    forall i | 0 <= i < |head| ensures AtDepth(parents, head[i].id, depth[i]) { assert Ids(head)[i] == head[i].id; }
    forall i, j, d: nat, e: nat | 0 <= i < j < |head| && AtDepth(parents, head[i].id, d) && AtDepth(parents, head[j].id, e) ensures d <= e {
      DepthUnique(parents, head[i].id, d, depth[i]);
      DepthUnique(parents, head[j].id, e, depth[j]);
    }
  }

  /** In the head every in-batch parent has come earlier. */
  lemma HeadParentsFirst(rows: seq<Row>, head: seq<Row>, depth: seq<nat>, i: nat)
    requires UniqueIds(rows) && DrainOk(rows, head, [], Ids(head), depth)
    requires i < |head| && Hangs(IdSet(rows), head[i])
    ensures head[i].parent.value in IdSet(head[..i])
  {
    ParentsSpec(rows);
    var r :| 0 <= r < |rows| && rows[r] == head[i];
    assert Ids(head)[i] == head[i].id;
    assert Ids(head[..i]) == Ids(head)[..i];
  }

  lemma SortFinished(rows: seq<Row>, head: seq<Row>, depth: seq<nat>)
    requires UniqueIds(rows) && DrainOk(rows, head, [], Ids(head), depth)
    ensures SortedBatch(rows, head + Orphans(Parents(rows), rows), |head|)
  {
    var tail := Orphans(Parents(rows), rows);
    var all := head + tail;
    TogetherOnce(rows, head, depth);
    HeadByDepth(rows, head, depth);
    OrphansSpec(Parents(rows), rows);
    forall i | 0 <= i < |all| && Hangs(IdSet(rows), all[i]) ensures all[i].parent.value in IdSet(all[..i]) {
      if i < |head| {
        HeadParentsFirst(rows, head, depth, i);
        assert all[..i] == head[..i];
      }
    }
    assert all[|head|..] == tail;
  }

  /** A sorted row is its batch row, its parent dropped exactly when its chain never reaches a root. */
  lemma DroppedExactly(rows: seq<Row>, sorted: seq<Row>, rooted: nat, i: nat, j: nat)
    requires UniqueIds(rows) && SortedBatch(rows, sorted, rooted)
    requires i < |sorted| && j < |rows| && rows[j].id == sorted[i].id
    ensures sorted[i] == if Rooted(Parents(rows), rows[j].id) then rows[j] else rows[j].(parent := None)
    ensures |sorted| == |rows|
  {
    EnumerationSize(Ids(sorted), IdSet(rows));
    EnumerationSize(Ids(rows), IdSet(rows));
    if i < rooted {
      var k :| 0 <= k < |rows| && rows[k] == sorted[i];
    } else {
      OrphanIs(Parents(rows), rows, i - rooted, j);
      assert sorted[rooted..][i - rooted] == sorted[i];
    }
  }

  lemma {:induction false} OrphanIs(parents: map<string, string>, rows: seq<Row>, i: nat, j: nat)
    requires UniqueIds(rows) && i < |Orphans(parents, rows)| && j < |rows| && Orphans(parents, rows)[i].id == rows[j].id
    ensures Orphans(parents, rows)[i] == rows[j].(parent := None) && !Rooted(parents, rows[j].id)
  {
    var n := |rows| - 1;
    var init := Orphans(parents, rows[..n]);
    if i < |init| {
      OrphansSpec(parents, rows[..n]);
      assert Ids(init)[i] in IdSet(init);
      var k := IdIndex(rows[..n], init[i].id);
      assert j == k;
      OrphanIs(parents, rows[..n], i, j);
    }
  }
}
