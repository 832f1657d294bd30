/**
  The one-shot bulk load: one edge per group of the `edges` query, loaded into an emptied graph.
  It builds the same graph as the triggers keep, whatever order the rows come in.
 */
module MeritRankRebuild {
  import opened Options
  import opened Collections
  import opened MeritRank
  import opened MeritRankProofs

  /** A row of the `edges` query, by the rows or the group it is made from. */
  datatype BulkRow =
    | FollowRow(pair: (string, string))
    | PostToUserRow(post: string)
    | UserToPostRow(post: string)
    | CommentToUserRow(comment: string)
    | UserToCommentRow(comment: string)
    | UpvoteGroup(author: string, onPost: string)
    | ReplyGroup(author: string, parent: string)

  /** Comments joined with a post by someone else. */
  function UpvotingComments(t: Tables): set<string> {
    set c | c in t.comments && t.comments[c].postId in t.posts
            && t.comments[c].authorId != t.posts[t.comments[c].postId].authorId
  }

  /** Comments joined with a parent comment by someone else, on a post that exists. */
  function UpvotingReplies(t: Tables): set<string> {
    set c | c in t.comments && t.comments[c].parentId.Some? && t.comments[c].parentId.value in t.comments
            && t.comments[t.comments[c].parentId.value].postId in t.posts
            && t.comments[c].authorId != t.comments[t.comments[c].parentId.value].authorId
  }

  function JoinedComments(t: Tables): set<string> {
    set c | c in t.comments && t.comments[c].postId in t.posts
  }

  /** The upvoting comments of a group. */
  function UpvotesOf(t: Tables, author: string, post: string): set<string> {
    set c | c in UpvotingComments(t) && t.comments[c].authorId == author && t.comments[c].postId == post
  }

  function ReplyUpvotesOf(t: Tables, author: string, parent: string): set<string> {
    set c | c in UpvotingReplies(t) && t.comments[c].authorId == author && t.comments[c].parentId == Some(parent)
  }

  /** The rows of the query on tables `t`. */
  predicate IsBulkRow(t: Tables, r: BulkRow) {
    match r
    case FollowRow(pair) => pair in t.subs
    case PostToUserRow(p) => p in t.posts
    case UserToPostRow(p) => p in t.posts
    case CommentToUserRow(c) => c in JoinedComments(t)
    case UserToCommentRow(c) => c in JoinedComments(t)
    case UpvoteGroup(a, p) => UpvotesOf(t, a, p) != {}
    case ReplyGroup(a, q) => ReplyUpvotesOf(t, a, q) != {}
  }

  function BulkLink(t: Tables, r: BulkRow): Link
    requires IsBulkRow(t, r)
  {
    match r
    case FollowRow(pair) => Link('U', pair.0, 'U', pair.1, "")
    case PostToUserRow(p) => Link('B', p, 'U', t.posts[p].authorId, BoardOfPost(t, p))
    case UserToPostRow(p) => Link('U', t.posts[p].authorId, 'B', p, BoardOfPost(t, p))
    case CommentToUserRow(c) => Link('C', c, 'U', t.comments[c].authorId, BoardOfPost(t, t.comments[c].postId))
    case UserToCommentRow(c) => Link('U', t.comments[c].authorId, 'C', c, BoardOfPost(t, t.comments[c].postId))
    case UpvoteGroup(a, p) => Link('U', a, 'B', p, BoardOfPost(t, p))
    case ReplyGroup(a, q) => Link('U', a, 'C', q, if q in t.comments then BoardOfPost(t, t.comments[q].postId) else "")
  }

  function BulkWeight(t: Tables, r: BulkRow): int
    requires IsBulkRow(t, r)
  {
    match r
    case FollowRow(pair) => t.subs[pair].amount
    case UpvoteGroup(a, p) => |UpvotesOf(t, a, p)|
    case ReplyGroup(a, q) => |ReplyUpvotesOf(t, a, q)|
    case _ => 1
  }

  /** Load the rows, in the order listed, into the emptied graph. */
  function BulkLoad(t: Tables, rows: seq<BulkRow>): Graph
    requires forall i :: 0 <= i < |rows| ==> IsBulkRow(t, rows[i])
  {
    if rows == [] then map[]
    else
      var last := rows[|rows| - 1];
      PutEdge(BulkLoad(t, rows[..|rows| - 1]), BulkLink(t, last), BulkWeight(t, last))
  }

  /** Each row of the query carries the weight the tables give to its edge. */
  lemma BulkRowWeight(t: Tables, r: BulkRow)
    requires WellFormed(t) && IsBulkRow(t, r)
    ensures LinkWeight(t, BulkLink(t, r)) == Some(BulkWeight(t, r)) && PlainLink(BulkLink(t, r))
  {
    match r
    case FollowRow(pair) => assert SubscriptionOk(t, pair);
    case PostToUserRow(p) => assert PostOk(t, p);
    case UserToPostRow(p) => assert PostOk(t, p);
    case CommentToUserRow(c) => assert CommentOk(t, c);
    case UserToCommentRow(c) => assert CommentOk(t, c);
    case UpvoteGroup(a, p) =>
      var c :| c in UpvotesOf(t, a, p);
      assert CommentOk(t, c) && PostOk(t, p);
      assert CommentsBy(t, a, p, None) == UpvotesOf(t, a, p);
    case ReplyGroup(a, q) =>
      var c :| c in ReplyUpvotesOf(t, a, q);
      assert CommentOk(t, c) && CommentOk(t, q);
      assert RepliesBy(t, a, q, None) == ReplyUpvotesOf(t, a, q);
  }

  /** Every edge the tables call for comes from a row of the query. */
  lemma BulkRowExists(t: Tables, l: Link) returns (r: BulkRow)
    requires WellFormed(t) && LinkWeight(t, l).Some?
    ensures IsBulkRow(t, r) && BulkLink(t, r) == l
  {
    if l.srcKind == 'B' {
      r := PostToUserRow(l.src);
    } else if l.srcKind == 'C' {
      assert CommentOk(t, l.src);
      r := CommentToUserRow(l.src);
    } else if l.dstKind == 'U' {
      r := FollowRow((l.src, l.dst));
    } else if l.dstKind == 'B' {
      r := if t.posts[l.dst].authorId == l.src then UserToPostRow(l.dst) else UpvoteGroup(l.src, l.dst);
      if t.posts[l.dst].authorId != l.src {
        var c :| c in CommentsBy(t, l.src, l.dst, None);
        assert c in UpvotesOf(t, l.src, l.dst);
      }
    } else {
      assert CommentOk(t, l.dst);
      r := if t.comments[l.dst].authorId == l.src then UserToCommentRow(l.dst) else ReplyGroup(l.src, l.dst);
      if t.comments[l.dst].authorId != l.src {
        var c :| c in RepliesBy(t, l.src, l.dst, None);
        assert c in ReplyUpvotesOf(t, l.src, l.dst);
      }
    }
  }

  /** `rows` lists the rows of the query, each once, in some order. */
  ghost predicate BulkOrder(t: Tables, rows: seq<BulkRow>) {
    NoDuplicates(rows) && forall r :: r in rows <==> IsBulkRow(t, r)
  }

  lemma BulkLinkInjective(t: Tables, r: BulkRow, q: BulkRow)
    requires IsBulkRow(t, r) && IsBulkRow(t, q) && BulkLink(t, r) == BulkLink(t, q)
    ensures r == q
  {
  }

  /** The query names each stored edge once. */
  lemma BulkEdgesDistinct(t: Tables, r: BulkRow, q: BulkRow)
    requires WellFormed(t) && IsBulkRow(t, r) && IsBulkRow(t, q)
    ensures Edge(BulkLink(t, r)) == Edge(BulkLink(t, q)) ==> r == q
  {
    BulkRowWeight(t, r);
    BulkRowWeight(t, q);
    EdgeIsLink(Edge(BulkLink(t, r)), BulkLink(t, r));
    EdgeIsLink(Edge(BulkLink(t, r)), BulkLink(t, q));
    if BulkLink(t, r) == BulkLink(t, q) { BulkLinkInjective(t, r, q); }
  }

  ghost predicate Listed(t: Tables, rows: seq<BulkRow>, l: Link)
    requires forall i :: 0 <= i < |rows| ==> IsBulkRow(t, rows[i])
  {
    exists i :: 0 <= i < |rows| && BulkLink(t, rows[i]) == l
  }

  ghost function ListedWeight(t: Tables, rows: seq<BulkRow>): Meaning
    requires forall i :: 0 <= i < |rows| ==> IsBulkRow(t, rows[i])
  {
    l => if Listed(t, rows, l) then LinkWeight(t, l) else None
  }

  lemma ListedStep(t: Tables, rows: seq<BulkRow>, x: Link)
    requires rows != [] && forall i :: 0 <= i < |rows| ==> IsBulkRow(t, rows[i])
    ensures var n := |rows| - 1; Listed(t, rows, x) <==> Listed(t, rows[..n], x) || x == BulkLink(t, rows[n])
  {
    var n := |rows| - 1;
    if Listed(t, rows[..n], x) {
      var i :| 0 <= i < n && BulkLink(t, rows[..n][i]) == x;
      assert BulkLink(t, rows[i]) == x;
    }
    if Listed(t, rows, x) && x != BulkLink(t, rows[n]) {
      var i :| 0 <= i < |rows| && BulkLink(t, rows[i]) == x;
      assert BulkLink(t, rows[..n][i]) == x;
    }
  }

  lemma ListedOnce(t: Tables, rows: seq<BulkRow>)
    requires rows != [] && NoDuplicates(rows) && forall i :: 0 <= i < |rows| ==> IsBulkRow(t, rows[i])
    ensures var n := |rows| - 1; !Listed(t, rows[..n], BulkLink(t, rows[n]))
  {
    var n := |rows| - 1;
    if Listed(t, rows[..n], BulkLink(t, rows[n])) {
      var i :| 0 <= i < n && BulkLink(t, rows[..n][i]) == BulkLink(t, rows[n]);
      BulkLinkInjective(t, rows[i], rows[n]);
    }
  }

  lemma {:induction false} BulkLoadRepresents(t: Tables, rows: seq<BulkRow>)
    requires WellFormed(t) && NoDuplicates(rows)
    requires forall i :: 0 <= i < |rows| ==> IsBulkRow(t, rows[i])
    ensures Represents(BulkLoad(t, rows), ListedWeight(t, rows))
    ensures |BulkLoad(t, rows)| == |rows|
  {
    if rows != [] {
      var n := |rows| - 1;
      BulkLoadRepresents(t, rows[..n]);
      BulkRowWeight(t, rows[n]);
      var l, w, g, m := BulkLink(t, rows[n]), BulkWeight(t, rows[n]), BulkLoad(t, rows[..n]), ListedWeight(t, rows[..n]);
      PutRepresents(g, m, l, w);
      forall x ensures Update(m, l, Some(w))(x) == ListedWeight(t, rows)(x) { ListedStep(t, rows, x); }
      RepresentsSame(PutEdge(g, l, w), Update(m, l, Some(w)), ListedWeight(t, rows));
      ListedOnce(t, rows);
      EdgeIsLink(Edge(l), l);
      assert Lookup(g, Edge(l)) == None;
    }
  }

  /** The bulk load builds the graph the tables call for, in whatever order the rows are listed. */
  lemma BulkLoadAgrees(t: Tables, rows: seq<BulkRow>)
    requires WellFormed(t) && BulkOrder(t, rows)
    ensures Agrees(BulkLoad(t, rows), t)
  {
    BulkLoadRepresents(t, rows);
    var m := (l: Link) => LinkWeight(t, l);
    forall l ensures ListedWeight(t, rows)(l) == m(l) {
      if LinkWeight(t, l).Some? {
        var r := BulkRowExists(t, l);
        assert r in rows;
        var i :| 0 <= i < |rows| && rows[i] == r;
        assert Listed(t, rows, l);
      }
    }
    RepresentsSame(BulkLoad(t, rows), ListedWeight(t, rows), m);
  }

  /** What `meritrank_init` returns: its puts, counting a pair once per comment or reply. */
  function InitTotal(t: Tables): nat {
    |t.subs| + 2 * |t.posts| + 2 * |t.comments| + |UpvotingComments(t)| + |UpvotingReplies(t)|
  }

  // The rows as sets, to count them.

  function FollowRows(t: Tables): (rows: set<BulkRow>)
    ensures |rows| <= |t.subs|
  {
    Image(t.subs.Keys, p => FollowRow(p))
  }

  function PostRows(t: Tables): (rows: set<BulkRow>)
    ensures |rows| <= 2 * |t.posts|
  {
    Image(t.posts.Keys, p => PostToUserRow(p)) + Image(t.posts.Keys, p => UserToPostRow(p))
  }

  function CommentRows(t: Tables): (rows: set<BulkRow>)
    ensures |rows| <= 2 * |t.comments|
  {
    SubsetSize(JoinedComments(t), t.comments.Keys);
    Image(JoinedComments(t), c => CommentToUserRow(c)) + Image(JoinedComments(t), c => UserToCommentRow(c))
  }

  function UpvoteGroupOf(t: Tables, c: string): BulkRow {
    if c in t.comments then UpvoteGroup(t.comments[c].authorId, t.comments[c].postId) else UpvoteGroup("", "")
  }

  function ReplyGroupOf(t: Tables, c: string): BulkRow {
    if c in t.comments && t.comments[c].parentId.Some? then ReplyGroup(t.comments[c].authorId, t.comments[c].parentId.value)
    else ReplyGroup("", "")
  }

  function GroupRows(t: Tables): (rows: set<BulkRow>)
    ensures |rows| <= |UpvotingComments(t)| + |UpvotingReplies(t)|
  {
    Image(UpvotingComments(t), c => UpvoteGroupOf(t, c)) + Image(UpvotingReplies(t), c => ReplyGroupOf(t, c))
  }

  function BulkSet(t: Tables): set<BulkRow> {
    set r | r in FollowRows(t) + PostRows(t) + CommentRows(t) + GroupRows(t) && IsBulkRow(t, r)
  }

  lemma UpvoteGroupIn(t: Tables, a: string, p: string)
    requires IsBulkRow(t, UpvoteGroup(a, p))
    ensures UpvoteGroup(a, p) in GroupRows(t)
  {
    var c :| c in UpvotesOf(t, a, p);
    assert UpvoteGroupOf(t, c) == UpvoteGroup(a, p);
  }

  lemma ReplyGroupIn(t: Tables, a: string, q: string)
    requires IsBulkRow(t, ReplyGroup(a, q))
    ensures ReplyGroup(a, q) in GroupRows(t)
  {
    var c :| c in ReplyUpvotesOf(t, a, q);
    assert ReplyGroupOf(t, c) == ReplyGroup(a, q);
  }

  lemma RowInSets(t: Tables, r: BulkRow)
    ensures r in BulkSet(t) <==> IsBulkRow(t, r)
  {
    if IsBulkRow(t, r) {
      match r
      case UpvoteGroup(a, p) => UpvoteGroupIn(t, a, p);
      case ReplyGroup(a, q) => ReplyGroupIn(t, a, q);
      case FollowRow(pair) => assert r in FollowRows(t);
      case PostToUserRow(p) => assert r in PostRows(t);
      case UserToPostRow(p) => assert r in PostRows(t);
      case CommentToUserRow(c) => assert r in CommentRows(t);
      case UserToCommentRow(c) => assert r in CommentRows(t);
    }
  }

  /** The returned count is the number of edges and is no more than the row-by-row total. */
  lemma BulkCount(t: Tables, rows: seq<BulkRow>)
    requires WellFormed(t) && BulkOrder(t, rows)
    ensures |BulkLoad(t, rows)| == |rows| <= InitTotal(t)
  {
    BulkLoadRepresents(t, rows);
    forall r ensures r in BulkSet(t) <==> IsBulkRow(t, r) { RowInSets(t, r); }
    EnumerationSize(rows, BulkSet(t));
    SubsetSize(BulkSet(t), FollowRows(t) + PostRows(t) + CommentRows(t) + GroupRows(t));
  }
}
