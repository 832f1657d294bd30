/**
  The database as the triggers and the rebuild functions change it, statement by statement.
  Every method is tied to the function on states that MeritRank defines for it.
 */
module MeritRankDb {
  import opened Options
  import opened Collections
  import MR = MeritRank
  import opened MeritRankProofs
  import opened MeritRankRebuild

  /** `g` is `g0` with the links in `put` overwritten by the weights the tables give them. */
  ghost predicate Overlay(g: MR.Graph, g0: MR.Graph, t: MR.Tables, put: set<MR.Link>) {
    && (forall l :: l in put ==> MR.LinkWeight(t, l).Some?)
    && (forall k :: MR.Lookup(g, k) ==
          if MR.Parse(k).Some? && MR.Parse(k).value in put then MR.Weight(t, k) else MR.Lookup(g0, k))
  }

  lemma OverlayPut(g: MR.Graph, g0: MR.Graph, t: MR.Tables, put: set<MR.Link>, l: MR.Link, w: int)
    requires Overlay(g, g0, t, put) && PlainLink(l) && MR.LinkWeight(t, l) == Some(w)
    ensures Overlay(MR.PutEdge(g, l, w), g0, t, put + {l})
  {
    forall k { EdgeIsLink(k, l); }
  }

  lemma OverlayComplete(g: MR.Graph, g0: MR.Graph, t: MR.Tables, put: set<MR.Link>)
    requires MR.WellFormed(t) && Overlay(g, g0, t, put)
    requires forall r :: IsBulkRow(t, r) ==> BulkLink(t, r) in put
    ensures forall k :: MR.Lookup(g, k) == if MR.Weight(t, k).Some? then MR.Weight(t, k) else MR.Lookup(g0, k)
  {
    forall k | MR.Weight(t, k).Some? ensures MR.Parse(k).value in put {
      var r := BulkRowExists(t, MR.Parse(k).value);
    }
  }

  /** The links `meritrank_init` puts for one comment. */
  function CommentRowsOf(t: MR.Tables, c: string): set<BulkRow>
    requires c in t.comments
  {
    {CommentToUserRow(c), UserToCommentRow(c)}
    + (if c in UpvotingComments(t) then {UpvoteGroup(t.comments[c].authorId, t.comments[c].postId)} else {})
    + (if c in UpvotingReplies(t) then {ReplyGroup(t.comments[c].authorId, t.comments[c].parentId.value)} else {})
  }

  predicate FollowPut(t: MR.Tables, put: set<MR.Link>, p: (string, string)) {
    p in t.subs ==> BulkLink(t, FollowRow(p)) in put
  }

  predicate PostPut(t: MR.Tables, put: set<MR.Link>, p: string) {
    p in t.posts ==> BulkLink(t, PostToUserRow(p)) in put && BulkLink(t, UserToPostRow(p)) in put
  }

  predicate CommentPut(t: MR.Tables, put: set<MR.Link>, c: string) {
    c in t.comments ==> forall r :: r in CommentRowsOf(t, c) ==> IsBulkRow(t, r) && BulkLink(t, r) in put
  }

  /** Putting more edges keeps every row put. */
  lemma PutMore(t: MR.Tables, put: set<MR.Link>, put': set<MR.Link>)
    requires put <= put'
    ensures forall p :: FollowPut(t, put, p) ==> FollowPut(t, put', p)
    ensures forall p :: PostPut(t, put, p) ==> PostPut(t, put', p)
    ensures forall c :: CommentPut(t, put, c) ==> CommentPut(t, put', c)
  {
  }

  lemma CommentRowsOk(t: MR.Tables, c: string, r: BulkRow)
    requires c in t.comments && t.comments[c].postId in t.posts && r in CommentRowsOf(t, c)
    ensures IsBulkRow(t, r)
  {
    match r
    case UpvoteGroup(a, p) => assert c in UpvotesOf(t, a, p);
    case ReplyGroup(a, q) => assert c in ReplyUpvotesOf(t, a, q);
    case _ =>
  }

  /** The puts `meritrank_init` makes for a set of comments. */
  function PutsFor(t: MR.Tables, cs: set<string>): nat {
    2 * |cs| + |cs * UpvotingComments(t)| + |cs * UpvotingReplies(t)|
  }

  lemma PutsForOne(t: MR.Tables, cs: set<string>, c: string)
    requires c in cs
    ensures PutsFor(t, cs) == PutsFor(t, cs - {c}) + 2 + (if c in UpvotingComments(t) then 1 else 0) + (if c in UpvotingReplies(t) then 1 else 0)
  {
    if c in UpvotingComments(t) { assert cs * UpvotingComments(t) == (cs - {c}) * UpvotingComments(t) + {c}; }
    else { assert cs * UpvotingComments(t) == (cs - {c}) * UpvotingComments(t); }
    if c in UpvotingReplies(t) { assert cs * UpvotingReplies(t) == (cs - {c}) * UpvotingReplies(t) + {c}; }
    else { assert cs * UpvotingReplies(t) == (cs - {c}) * UpvotingReplies(t); }
  }

  lemma PutsForAll(t: MR.Tables)
    ensures |t.subs| + 2 * |t.posts| + PutsFor(t, t.comments.Keys) == InitTotal(t)
  {
    assert t.comments.Keys * UpvotingComments(t) == UpvotingComments(t);
    assert t.comments.Keys * UpvotingReplies(t) == UpvotingReplies(t);
  }

  class Database {
    var submolts: map<string, string>
    var posts: map<string, MR.Post>
    var comments: map<string, MR.Comment>
    var subs: map<(string, string), MR.Subscription>
    var vsids: map<string, nat>
    var graph: MR.Graph

    function T(): MR.Tables
      reads this
    {
      MR.Tables(submolts, posts, comments, subs)
    }

    function S(): MR.State
      reads this
    {
      MR.State(T(), vsids, graph)
    }

    method PutEdge(l: MR.Link, weight: int)
      modifies `graph
      ensures graph == MR.PutEdge(old(graph), l, weight)
    {
      graph := graph[MR.Edge(l) := weight];
    }

    method DeleteEdge(l: MR.Link)
      modifies `graph
      ensures graph == MR.DeleteEdge(old(graph), l)
    {
      graph := graph - {MR.Edge(l)};
    }

    method Bump(user: string) returns (ticker: nat)
      modifies `vsids
      ensures vsids == MR.BumpVsids(old(vsids), user) && ticker == vsids[user]
    {
      if user in vsids {
        vsids := vsids[user := vsids[user] + 1];
      } else {
        vsids := vsids[user := 1];
      }
      ticker := vsids[user];
    }

    method SyncCommentUpvoteEdge(author: string, post: string, board: string, exclude: Option<string>) returns (puts: nat)
      modifies `graph
      ensures graph == MR.SyncCommentUpvote(old(graph), T(), author, post, board, exclude)
      ensures puts == if post in posts && posts[post].authorId == author then 0 else 1
    {
      if post !in posts || posts[post].authorId != author {
        var n := |MR.CommentsBy(T(), author, post, exclude)|;
        if n == 0 {
          DeleteEdge(MR.Link('U', author, 'B', post, board));
        } else {
          PutEdge(MR.Link('U', author, 'B', post, board), n);
        }
        return 1;
      }
      return 0;
    }

    method SyncReplyUpvoteEdge(author: string, parent: string, board: string, exclude: Option<string>) returns (puts: nat)
      modifies `graph
      ensures graph == MR.SyncReplyUpvote(old(graph), T(), author, parent, board, exclude)
      ensures puts == if parent in comments && comments[parent].authorId == author then 0 else 1
    {
      if parent !in comments || comments[parent].authorId != author {
        var n := |MR.RepliesBy(T(), author, parent, exclude)|;
        if n == 0 {
          DeleteEdge(MR.Link('U', author, 'C', parent, board));
        } else {
          PutEdge(MR.Link('U', author, 'C', parent, board), n);
        }
        return 1;
      }
      return 0;
    }

    method InsertPost(id: string, author: string, submolt: Option<string>)
      requires id !in posts
      modifies `posts, `vsids, `graph
      ensures S() == MR.InsertPost(old(S()), id, author, submolt)
    {
      var ticker := Bump(author);
      posts := posts[id := MR.Post(author, submolt, ticker)];
      var board := MR.GetBoard(T(), submolt);
      PutEdge(MR.Link('B', id, 'U', author, board), 1);
      PutEdge(MR.Link('U', author, 'B', id, board), 1);
    }

    method InsertComment(id: string, author: string, post: string, parent: Option<string>)
      requires id !in comments
      modifies `comments, `vsids, `graph
      ensures S() == MR.InsertComment(old(S()), id, author, post, parent)
    {
      var ticker := Bump(author);
      comments := comments[id := MR.Comment(author, post, parent, ticker)];
      var board := MR.BoardOfPost(T(), post);
      PutEdge(MR.Link('C', id, 'U', author, board), 1);
      PutEdge(MR.Link('U', author, 'C', id, board), 1);
      var _ := SyncCommentUpvoteEdge(author, post, board, None);
      if parent.Some? {
        var _ := SyncReplyUpvoteEdge(author, parent.value, board, None);
      }
    }

    method OnCommentDeleted(id: string, row: MR.Comment)
      modifies `graph
      ensures graph == MR.NotifyCommentDelete(old(graph), T(), id, row)
    {
      var board := MR.BoardOfPost(T(), row.postId);
      DeleteEdge(MR.Link('C', id, 'U', row.authorId, board));
      DeleteEdge(MR.Link('U', row.authorId, 'C', id, board));
      var _ := SyncCommentUpvoteEdge(row.authorId, row.postId, board, Some(id));
      if row.parentId.Some? {
        var _ := SyncReplyUpvoteEdge(row.authorId, row.parentId.value, board, Some(id));
      }
    }

    method DeleteComment(id: string)
      requires id in comments
      modifies `comments, `graph
      ensures S() == MR.DeleteComment(old(S()), id)
    {
      var row := comments[id];
      comments := MR.WithoutComments(comments, {id});
      OnCommentDeleted(id, row);
    }

    /** An upsert that finds the comment stored: the ticker trigger runs, then only the row changes. */
    method ReingestComment(id: string, parent: Option<string>)
      requires id in comments
      modifies `comments, `vsids
      ensures S() == MR.ReingestComment(old(S()), id, parent)
    {
      var c := comments[id];
      var ticker := Bump(c.authorId);
      if parent.Some? {
        comments := comments[id := c.(parentId := parent)];
      }
      assert comments == old(comments)[id := c.(parentId := MR.MergedParent(parent, c.parentId))];
    }

    /** The cascade removes the comments first and fires their triggers in some order, then the post's trigger fires. */
    method DeletePost(id: string) returns (ghost order: seq<string>)
      requires id in posts
      modifies `posts, `comments, `graph
      ensures MR.CascadeOrder(old(T()), id, order)
      ensures S() == MR.DeletePost(old(S()), id, order)
    {
      var was, row := T(), posts[id];
      var gone := MR.CommentsOn(was, id);
      posts := posts - {id};
      comments := MR.WithoutComments(comments, gone);
      order := [];
      var todo := gone;
      while todo != {}
        invariant todo <= gone && T() == MR.AfterPostDelete(was, id)
        invariant forall i :: 0 <= i < |order| ==> order[i] in gone
        invariant forall c :: c in gone ==> c in order || c in todo
        invariant graph == MR.NotifyCommentDeletes(old(graph), T(), was, order)
      {
        var c :| c in todo;
        OnCommentDeleted(c, was.comments[c]);
        todo := todo - {c};
        assert (order + [c])[..|order|] == order;
        order := order + [c];
      }
      var board := MR.GetBoard(T(), row.submoltId);
      DeleteEdge(MR.Link('B', id, 'U', row.authorId, board));
      DeleteEdge(MR.Link('U', row.authorId, 'B', id, board));
    }

    method PutSubscription(subject: string, target: string, amount: int)
      modifies `subs, `vsids, `graph
      ensures S() == MR.PutSubscription(old(S()), subject, target, amount)
    {
      var ticker := Bump(subject);
      subs := subs[(subject, target) := MR.Subscription(amount, ticker)];
      PutEdge(MR.Link('U', subject, 'U', target, ""), amount);
    }

    method DeleteSubscription(subject: string, target: string)
      modifies `subs, `graph
      ensures S() == MR.DeleteSubscription(old(S()), subject, target)
    {
      subs := subs - {(subject, target)};
      DeleteEdge(MR.Link('U', subject, 'U', target, ""));
    }

    // ---------- meritrank_init ----------

    /** Put one edge the tables call for. */
    method PutDue(l: MR.Link, weight: int, ghost g0: MR.Graph, ghost put: set<MR.Link>)
      requires Overlay(graph, g0, T(), put) && PlainLink(l) && MR.LinkWeight(T(), l) == Some(weight)
      modifies `graph
      ensures Overlay(graph, g0, T(), put + {l})
    {
      PutEdge(l, weight);
      OverlayPut(old(graph), g0, T(), put, l, weight);
    }

    /** The loop body for one comment: two own edges, the upvote edge and the reply edge. */
    method InitComment(c: string, ghost g0: MR.Graph, ghost put: set<MR.Link>) returns (puts: nat, ghost put': set<MR.Link>)
      requires MR.WellFormed(T()) && c in comments && Overlay(graph, g0, T(), put)
      modifies `graph
      ensures Overlay(graph, g0, T(), put') && put <= put'
      ensures CommentPut(T(), put', c)
      ensures puts == 2 + (if c in UpvotingComments(T()) then 1 else 0) + (if c in UpvotingReplies(T()) then 1 else 0)
    {
      ghost var t := T();
      var row, board := comments[c], MR.BoardOfPost(T(), comments[c].postId);
      assert MR.CommentOk(t, c) && MR.PostOk(t, row.postId);
      var l1, l2 := MR.Link('C', c, 'U', row.authorId, board), MR.Link('U', row.authorId, 'C', c, board);
      PutDue(l1, 1, g0, put);
      PutDue(l2, 1, g0, put + {l1});
      puts, put' := 2, put + {l1} + {l2};
      label synced:
      ghost var g1 := graph;
      var n := SyncCommentUpvoteEdge(row.authorId, row.postId, board, None);
      if n == 1 {
        UpvoteSync(t, c, g1, g0, put');
        put' := put' + {BulkLink(t, UpvoteGroup(row.authorId, row.postId))};
      }
      puts := puts + n;
      if row.parentId.Some? {
        ghost var g2 := graph;
        var k := SyncReplyUpvoteEdge(row.authorId, row.parentId.value, board, None);
        if k == 1 {
          ReplySync(t, c, g2, g0, put');
          put' := put' + {BulkLink(t, ReplyGroup(row.authorId, row.parentId.value))};
        }
        puts := puts + k;
      }
      forall r | r in CommentRowsOf(t, c) ensures IsBulkRow(t, r) && BulkLink(t, r) in put' { CommentRowsOk(t, c, r); }
    }

    method InitSubscriptions(ghost g0: MR.Graph, ghost put: set<MR.Link>) returns (puts: nat, ghost put': set<MR.Link>)
      requires MR.WellFormed(T()) && Overlay(graph, g0, T(), put)
      modifies `graph
      ensures Overlay(graph, g0, T(), put') && put <= put'
      ensures forall p :: FollowPut(T(), put', p)
      ensures puts == |subs|
    {
      puts, put' := 0, put;
      ghost var t := T();
      var todo := subs.Keys;
      while todo != {}
        invariant T() == t && put <= put' && Overlay(graph, g0, t, put')
        invariant todo <= t.subs.Keys && puts + |todo| == |t.subs|
        invariant forall p :: p !in todo ==> FollowPut(t, put', p)
      {
        var p :| p in todo;
        BulkRowWeight(t, FollowRow(p));
        PutDue(MR.Link('U', p.0, 'U', p.1, ""), subs[p].amount, g0, put');
        PutMore(t, put', put' + {BulkLink(t, FollowRow(p))});
        put' := put' + {BulkLink(t, FollowRow(p))};
        puts, todo := puts + 1, todo - {p};
      }
    }

    method InitPosts(ghost g0: MR.Graph, ghost put: set<MR.Link>) returns (puts: nat, ghost put': set<MR.Link>)
      requires MR.WellFormed(T()) && Overlay(graph, g0, T(), put)
      modifies `graph
      ensures Overlay(graph, g0, T(), put') && put <= put'
      ensures forall p :: PostPut(T(), put', p)
      ensures puts == 2 * |posts|
    {
      puts, put' := 0, put;
      ghost var t := T();
      var todo := posts.Keys;
      while todo != {}
        invariant T() == t && put <= put' && Overlay(graph, g0, t, put')
        invariant todo <= t.posts.Keys && puts + 2 * |todo| == 2 * |t.posts|
        invariant forall p :: p !in todo ==> PostPut(t, put', p)
      {
        var p :| p in todo;
        var author, board := posts[p].authorId, MR.GetBoard(T(), posts[p].submoltId);
        BulkRowWeight(t, PostToUserRow(p));
        BulkRowWeight(t, UserToPostRow(p));
        var l1, l2 := MR.Link('B', p, 'U', author, board), MR.Link('U', author, 'B', p, board);
        PutDue(l1, 1, g0, put');
        PutDue(l2, 1, g0, put' + {l1});
        PutMore(t, put', put' + {l1} + {l2});
        put' := put' + {l1} + {l2};
        puts, todo := puts + 2, todo - {p};
      }
    }

    method InitComments(ghost g0: MR.Graph, ghost put: set<MR.Link>) returns (puts: nat, ghost put': set<MR.Link>)
      requires MR.WellFormed(T()) && Overlay(graph, g0, T(), put)
      modifies `graph
      ensures Overlay(graph, g0, T(), put') && put <= put'
      ensures forall c :: CommentPut(T(), put', c)
      ensures puts == PutsFor(T(), comments.Keys)
    {
      puts, put' := 0, put;
      ghost var t := T();
      var todo := comments.Keys;
      while todo != {}
        invariant T() == t && put <= put' && Overlay(graph, g0, t, put')
        invariant todo <= t.comments.Keys && puts + PutsFor(t, todo) == PutsFor(t, t.comments.Keys)
        invariant forall c :: c !in todo ==> CommentPut(t, put', c)
      {
        var c :| c in todo;
        ghost var before := put';
        var n;
        n, put' := InitComment(c, g0, put');
        PutMore(t, before, put');
        PutsForOne(t, todo, c);
        puts, todo := puts + n, todo - {c};
      }
    }

    /**
      Rebuild row by row. Every edge the tables call for is set, in whatever order the rows come;
      edges they do not call for stay as they were, so from an emptied graph it builds the right one.
     */
    method MeritrankInit() returns (total: nat)
      requires MR.WellFormed(T())
      modifies `graph
      ensures forall k :: MR.Lookup(graph, k) == if MR.Weight(T(), k).Some? then MR.Weight(T(), k) else MR.Lookup(old(graph), k)
      ensures old(graph) == map[] ==> MR.Agrees(graph, T())
      ensures total == InitTotal(T())
    {
      ghost var t, g0 := T(), graph;
      ghost var put0: set<MR.Link> := {};
      var n, m, k;
      ghost var put1, put2, put3;
      n, put1 := InitSubscriptions(g0, put0);
      m, put2 := InitPosts(g0, put1);
      k, put3 := InitComments(g0, put2);
      total := n + m + k;
      PutsForAll(t);
      PutMore(t, put1, put3);
      PutMore(t, put2, put3);
      InitComplete(graph, g0, t, put3);
    }

    // ---------- meritrank_bulk_init ----------

    /** The `edges` query. */
    method QueryEdges() returns (rows: seq<BulkRow>)
      ensures BulkOrder(T(), rows)
    {
      var t := T();
      forall r | IsBulkRow(t, r) ensures r in BulkSet(t) { RowInSets(t, r); }
      rows := Listing(BulkSet(t));
    }

    /** Empty the graph and load the rows. */
    method LoadRows(rows: seq<BulkRow>)
      requires forall j :: 0 <= j < |rows| ==> IsBulkRow(T(), rows[j])
      modifies `graph
      ensures T() == old(T()) && graph == BulkLoad(T(), rows)
    {
      graph := map[];
      var i := 0;
      while i < |rows|
        invariant i <= |rows| && T() == old(T())
        invariant graph == BulkLoad(T(), rows[..i])
      {
        assert rows[..i + 1][..i] == rows[..i];
        PutEdge(BulkLink(T(), rows[i]), BulkWeight(T(), rows[i]));
        i := i + 1;
      }
      assert rows[..|rows|] == rows;
    }

    /** Run the query, then rebuild the graph from its rows. */
    method MeritrankBulkInit() returns (n: nat)
      requires MR.WellFormed(T())
      modifies `graph
      ensures MR.Agrees(graph, T())
      ensures n == |graph| <= InitTotal(T())
    {
      var rows := QueryEdges();
      BulkLoadAgrees(T(), rows);
      BulkCount(T(), rows);
      LoadRows(rows);
      n := |rows|;
    }
  }

  /** Once every row is put, the graph is the old one overwritten by everything the tables call for. */
  lemma InitComplete(g: MR.Graph, g0: MR.Graph, t: MR.Tables, put: set<MR.Link>)
    requires MR.WellFormed(t) && Overlay(g, g0, t, put)
    requires (forall p :: FollowPut(t, put, p)) && (forall p :: PostPut(t, put, p)) && (forall c :: CommentPut(t, put, c))
    ensures forall k :: MR.Lookup(g, k) == if MR.Weight(t, k).Some? then MR.Weight(t, k) else MR.Lookup(g0, k)
    ensures g0 == map[] ==> MR.Agrees(g, t)
  {
    forall r | IsBulkRow(t, r) ensures BulkLink(t, r) in put { RowIsPut(t, put, r); }
    OverlayComplete(g, g0, t, put);
  }

  lemma RowIsPut(t: MR.Tables, put: set<MR.Link>, r: BulkRow)
    requires MR.WellFormed(t) && IsBulkRow(t, r)
    requires (forall p :: FollowPut(t, put, p)) && (forall p :: PostPut(t, put, p)) && (forall c :: CommentPut(t, put, c))
    ensures BulkLink(t, r) in put
  {
    match r
    case FollowRow(p) => assert FollowPut(t, put, p);
    case PostToUserRow(p) => assert PostPut(t, put, p);
    case UserToPostRow(p) => assert PostPut(t, put, p);
    case CommentToUserRow(c) => assert CommentPut(t, put, c) && r in CommentRowsOf(t, c);
    case UserToCommentRow(c) => assert CommentPut(t, put, c) && r in CommentRowsOf(t, c);
    case UpvoteGroup(a, p) =>
      var c :| c in UpvotesOf(t, a, p);
      assert CommentPut(t, put, c) && r in CommentRowsOf(t, c);
    case ReplyGroup(a, q) =>
      var c :| c in ReplyUpvotesOf(t, a, q);
      assert CommentPut(t, put, c) && r in CommentRowsOf(t, c);
  }

  /** On a comment by someone other than the post's author, the sync puts the weight of its group. */
  lemma UpvoteSync(t: MR.Tables, c: string, g: MR.Graph, g0: MR.Graph, put: set<MR.Link>)
    requires MR.WellFormed(t) && c in UpvotingComments(t) && Overlay(g, g0, t, put)
    ensures var row := t.comments[c];
            var r := UpvoteGroup(row.authorId, row.postId);
            && IsBulkRow(t, r)
            && Overlay(MR.SyncCommentUpvote(g, t, row.authorId, row.postId, MR.BoardOfPost(t, row.postId), None), g0, t, put + {BulkLink(t, r)})
  {
    var row := t.comments[c];
    var r := UpvoteGroup(row.authorId, row.postId);
    assert c in UpvotesOf(t, row.authorId, row.postId);
    BulkRowWeight(t, r);
    assert c in MR.CommentsBy(t, row.authorId, row.postId, None);
    OverlayPut(g, g0, t, put, BulkLink(t, r), BulkWeight(t, r));
  }

  lemma ReplySync(t: MR.Tables, c: string, g: MR.Graph, g0: MR.Graph, put: set<MR.Link>)
    requires MR.WellFormed(t) && c in UpvotingReplies(t) && Overlay(g, g0, t, put)
    ensures var row := t.comments[c];
            var r := ReplyGroup(row.authorId, row.parentId.value);
            && IsBulkRow(t, r)
            && Overlay(MR.SyncReplyUpvote(g, t, row.authorId, row.parentId.value, MR.BoardOfPost(t, row.postId), None), g0, t, put + {BulkLink(t, r)})
  {
    var row := t.comments[c];
    var r := ReplyGroup(row.authorId, row.parentId.value);
    assert MR.CommentOk(t, c);
    assert c in ReplyUpvotesOf(t, row.authorId, row.parentId.value);
    BulkRowWeight(t, r);
    assert c in MR.RepliesBy(t, row.authorId, row.parentId.value, None);
    OverlayPut(g, g0, t, put, BulkLink(t, r), BulkWeight(t, r));
  }
}
