/**
  The MeritRank edge graph of meritmolt/schema/ddl.py: row triggers keep a weighted
  graph in step with the post, comment and subscribe tables.

  This module holds the tables, the trigger functions as functions on (graph, tables),
  and the reference meaning of the graph: `Weight`, which reads the weight of an edge
  off the tables alone.
 */
module MeritRank {
  import opened Options

  datatype Post = Post(authorId: string, submoltId: Option<string>, ticker: nat)
  datatype Comment = Comment(authorId: string, postId: string, parentId: Option<string>, ticker: nat)
  datatype Subscription = Subscription(amount: int, ticker: nat)

  datatype Tables = Tables(
    submolts: map<string, string>,
    posts: map<string, Post>,
    comments: map<string, Comment>,
    subs: map<(string, string), Subscription>)

  datatype EdgeKey = EdgeKey(src: string, dst: string, context: string)
  type Graph = map<EdgeKey, int>

  /** The tables, the per-user tickers (`user_vsids`) and the graph. */
  datatype State = State(t: Tables, vsids: map<string, nat>, g: Graph)

  /** An edge by the kinds and raw ids of its ends. */
  datatype Link = Link(srcKind: char, src: string, dstKind: char, dst: string, context: string)

  // ---------- Node names ----------

  function Prefix(kind: char, raw: string): string {
    if raw == "" then raw
    else if Kind(raw[0]) then raw
    else [kind] + raw
  }

  predicate Plain(raw: string) {
    raw != "" && !Kind(raw[0])
  }

  predicate Kind(c: char) {
    c == 'U' || c == 'B' || c == 'C'
  }

  /** Exactly when two (kind, id) pairs are given the same node name. */
  lemma PrefixCollision(k1: char, r1: string, k2: char, r2: string)
    requires Kind(k1) && Kind(k2)
    ensures Prefix(k1, r1) == Prefix(k2, r2) <==>
            || (r1 == r2 && (k1 == k2 || !Plain(r1)))
            || (Plain(r1) && r2 == [k1] + r1)
            || (Plain(r2) && r1 == [k2] + r2)
  {
    if Plain(r1) && Plain(r2) && Prefix(k1, r1) == Prefix(k2, r2) {
      assert Prefix(k1, r1)[1..] == r1 && Prefix(k2, r2)[1..] == r2;
    }
  }

  // ---------- Boards and counts ----------

  function GetBoard(t: Tables, submoltId: Option<string>): string {
    if submoltId.Some? && submoltId.value in t.submolts then t.submolts[submoltId.value] else ""
  }

  /** The board of a post; "" when the post row is gone. */
  function BoardOfPost(t: Tables, post: string): string {
    if post in t.posts then GetBoard(t, t.posts[post].submoltId) else GetBoard(t, None)
  }

  function CommentsBy(t: Tables, author: string, post: string, exclude: Option<string>): set<string> {
    set c | c in t.comments && t.comments[c].authorId == author && t.comments[c].postId == post
            && (exclude.None? || c != exclude.value)
  }

  function RepliesBy(t: Tables, author: string, parent: string, exclude: Option<string>): set<string> {
    set c | c in t.comments && t.comments[c].authorId == author && t.comments[c].parentId == Some(parent)
            && (exclude.None? || c != exclude.value)
  }

  // ---------- The reference meaning of the graph ----------

  function CountWeight(n: nat): Option<int> {
    if n == 0 then None else Some(n)
  }

  function FollowWeight(t: Tables, subject: string, target: string, context: string): Option<int> {
    if context == "" && (subject, target) in t.subs then Some(t.subs[(subject, target)].amount) else None
  }

  function PostToUserWeight(t: Tables, post: string, user: string, context: string): Option<int> {
    if post in t.posts && context == BoardOfPost(t, post) && t.posts[post].authorId == user then Some(1) else None
  }

  /** A user points at a post by writing it, or else once per comment left on it. */
  function UserToPostWeight(t: Tables, user: string, post: string, context: string): Option<int> {
    if post !in t.posts || context != BoardOfPost(t, post) then None
    else if t.posts[post].authorId == user then Some(1)
    else CountWeight(|CommentsBy(t, user, post, None)|)
  }

  function CommentToUserWeight(t: Tables, comment: string, user: string, context: string): Option<int> {
    if comment in t.comments && context == BoardOfPost(t, t.comments[comment].postId)
       && t.comments[comment].authorId == user
    then Some(1) else None
  }

  /** A user points at a comment by writing it, or else once per reply left to it. */
  function UserToCommentWeight(t: Tables, user: string, comment: string, context: string): Option<int> {
    if comment !in t.comments || context != BoardOfPost(t, t.comments[comment].postId) then None
    else if t.comments[comment].authorId == user then Some(1)
    else CountWeight(|RepliesBy(t, user, comment, None)|)
  }

  /** The weight the tables give to a link, None when they give none. */
  function LinkWeight(t: Tables, l: Link): Option<int> {
    if l.srcKind == 'U' && l.dstKind == 'U' then FollowWeight(t, l.src, l.dst, l.context)
    else if l.srcKind == 'B' && l.dstKind == 'U' then PostToUserWeight(t, l.src, l.dst, l.context)
    else if l.srcKind == 'U' && l.dstKind == 'B' then UserToPostWeight(t, l.src, l.dst, l.context)
    else if l.srcKind == 'C' && l.dstKind == 'U' then CommentToUserWeight(t, l.src, l.dst, l.context)
    else if l.srcKind == 'U' && l.dstKind == 'C' then UserToCommentWeight(t, l.src, l.dst, l.context)
    else None
  }

  /** Read a stored edge name back: the first character of a node name is its kind. */
  function Parse(k: EdgeKey): Option<Link> {
    if k.src == "" || k.dst == "" then None
    else Some(Link(k.src[0], k.src[1..], k.dst[0], k.dst[1..], k.context))
  }

  /** The weight the tables give to a stored edge. */
  function Weight(t: Tables, k: EdgeKey): Option<int> {
    if Parse(k).None? then None else LinkWeight(t, Parse(k).value)
  }

  function Lookup(g: Graph, k: EdgeKey): Option<int> {
    if k in g then Some(g[k]) else None
  }

  /** The graph holds exactly the edges that `meaning` gives a weight, with that weight. */
  ghost predicate Represents(g: Graph, meaning: Link -> Option<int>) {
    forall k :: Lookup(g, k) == if Parse(k).None? then None else meaning(Parse(k).value)
  }

  /** The graph holds exactly the edges the tables call for, with their weights. */
  ghost predicate Agrees(g: Graph, t: Tables) {
    Represents(g, l => LinkWeight(t, l))
  }

  predicate PostOk(t: Tables, id: string) {
    id in t.posts ==> Plain(id) && Plain(t.posts[id].authorId)
  }

  predicate CommentOk(t: Tables, id: string) {
    id in t.comments ==>
      && Plain(id) && Plain(t.comments[id].authorId)
      && t.comments[id].postId in t.posts
      && (t.comments[id].parentId.Some? ==> OnPost(t, t.comments[id].parentId.value, t.comments[id].postId))
  }

  predicate OnPost(t: Tables, comment: string, post: string) {
    comment in t.comments && t.comments[comment].postId == post
  }

  predicate SubscriptionOk(t: Tables, pair: (string, string)) {
    pair in t.subs ==> Plain(pair.0) && Plain(pair.1)
  }

  /** What the application keeps true of the tables: plain ids, live posts, replies on the parent's post. */
  ghost predicate WellFormed(t: Tables) {
    && (forall p {:trigger PostOk(t, p)} :: PostOk(t, p))
    && (forall c {:trigger CommentOk(t, c)} :: CommentOk(t, c))
    && (forall p {:trigger SubscriptionOk(t, p)} :: SubscriptionOk(t, p))
  }

  // ---------- Trigger functions ----------

  function Edge(l: Link): EdgeKey {
    EdgeKey(Prefix(l.srcKind, l.src), Prefix(l.dstKind, l.dst), l.context)
  }

  function PutEdge(g: Graph, l: Link, weight: int): Graph {
    g[Edge(l) := weight]
  }

  function DeleteEdge(g: Graph, l: Link): Graph {
    g - {Edge(l)}
  }

  function BumpVsids(vsids: map<string, nat>, user: string): map<string, nat> {
    vsids[user := if user in vsids then vsids[user] + 1 else 1]
  }

  function SyncCount(g: Graph, l: Link, count: nat): Graph {
    if count == 0 then DeleteEdge(g, l) else PutEdge(g, l, count)
  }

  function SyncCommentUpvote(g: Graph, t: Tables, author: string, post: string, board: string, exclude: Option<string>): Graph {
    if post in t.posts && t.posts[post].authorId == author then g
    else SyncCount(g, Link('U', author, 'B', post, board), |CommentsBy(t, author, post, exclude)|)
  }

  function SyncReplyUpvote(g: Graph, t: Tables, author: string, parent: string, board: string, exclude: Option<string>): Graph {
    if parent in t.comments && t.comments[parent].authorId == author then g
    else SyncCount(g, Link('U', author, 'C', parent, board), |RepliesBy(t, author, parent, exclude)|)
  }

  function NotifyPostInsert(g: Graph, t: Tables, id: string, p: Post): Graph {
    var board := GetBoard(t, p.submoltId);
    PutEdge(PutEdge(g, Link('B', id, 'U', p.authorId, board), 1), Link('U', p.authorId, 'B', id, board), 1)
  }

  function NotifyPostDelete(g: Graph, t: Tables, id: string, p: Post): Graph {
    var board := GetBoard(t, p.submoltId);
    DeleteEdge(DeleteEdge(g, Link('B', id, 'U', p.authorId, board)), Link('U', p.authorId, 'B', id, board))
  }

  function NotifyCommentInsert(g: Graph, t: Tables, id: string, c: Comment): Graph {
    var board := BoardOfPost(t, c.postId);
    var g1 := PutEdge(PutEdge(g, Link('C', id, 'U', c.authorId, board), 1), Link('U', c.authorId, 'C', id, board), 1);
    var g2 := SyncCommentUpvote(g1, t, c.authorId, c.postId, board, None);
    if c.parentId.Some? then SyncReplyUpvote(g2, t, c.authorId, c.parentId.value, board, None) else g2
  }

  function NotifyCommentDelete(g: Graph, t: Tables, id: string, c: Comment): Graph {
    var board := BoardOfPost(t, c.postId);
    var g1 := DeleteEdge(DeleteEdge(g, Link('C', id, 'U', c.authorId, board)), Link('U', c.authorId, 'C', id, board));
    var g2 := SyncCommentUpvote(g1, t, c.authorId, c.postId, board, Some(id));
    if c.parentId.Some? then SyncReplyUpvote(g2, t, c.authorId, c.parentId.value, board, Some(id)) else g2
  }

  // ---------- Statements on the tables, with their triggers ----------

  function InsertPost(s: State, id: string, author: string, submolt: Option<string>): State {
    var vsids := BumpVsids(s.vsids, author);
    var p := Post(author, submolt, vsids[author]);
    var t := s.t.(posts := s.t.posts[id := p]);
    State(t, vsids, NotifyPostInsert(s.g, t, id, p))
  }

  function InsertComment(s: State, id: string, author: string, post: string, parent: Option<string>): State {
    var vsids := BumpVsids(s.vsids, author);
    var c := Comment(author, post, parent, vsids[author]);
    var t := s.t.(comments := s.t.comments[id := c]);
    State(t, vsids, NotifyCommentInsert(s.g, t, id, c))
  }

  /** The comment table without `gone`; a reply to a removed comment loses its parent (ON DELETE SET NULL). */
  function WithoutComments(comments: map<string, Comment>, gone: set<string>): map<string, Comment> {
    map c | c in comments && c !in gone ::
      if comments[c].parentId.Some? && comments[c].parentId.value in gone
      then comments[c].(parentId := None) else comments[c]
  }

  function DeleteComment(s: State, id: string): State
    requires id in s.t.comments
  {
    var t := s.t.(comments := WithoutComments(s.t.comments, {id}));
    State(t, s.vsids, NotifyCommentDelete(s.g, t, id, s.t.comments[id]))
  }

  /** What COALESCE keeps of a payload's parent and the stored one. */
  function MergedParent(payload: Option<string>, stored: Option<string>): Option<string> {
    if payload.Some? then payload else stored
  }

  /**
    Upsert a stored comment with a payload of the same author and post. The ticker trigger runs before the
    conflict is found, so its author's counter moves on though the row keeps its ticker; nothing touches the graph.
   */
  function ReingestComment(s: State, id: string, parent: Option<string>): State
    requires id in s.t.comments
  {
    var c := s.t.comments[id];
    var t := s.t.(comments := s.t.comments[id := c.(parentId := MergedParent(parent, c.parentId))]);
    State(t, BumpVsids(s.vsids, c.authorId), s.g)
  }

  /** Insert a subscription or update its amount: both bump the ticker and put the edge. */
  function PutSubscription(s: State, subject: string, target: string, amount: int): State {
    var vsids := BumpVsids(s.vsids, subject);
    State(s.t.(subs := s.t.subs[(subject, target) := Subscription(amount, vsids[subject])]), vsids,
          PutEdge(s.g, Link('U', subject, 'U', target, ""), amount))
  }

  function DeleteSubscription(s: State, subject: string, target: string): State {
    State(s.t.(subs := s.t.subs - {(subject, target)}), s.vsids,
          DeleteEdge(s.g, Link('U', subject, 'U', target, "")))
  }

  // ---------- Deleting a post cascades to its comments ----------

  function CommentsOn(t: Tables, post: string): set<string> {
    set c | c in t.comments && t.comments[c].postId == post
  }

  function AfterPostDelete(t: Tables, id: string): Tables {
    t.(posts := t.posts - {id}, comments := WithoutComments(t.comments, CommentsOn(t, id)))
  }

  /** Fire the comment trigger for each cascaded row of `was`, in the order given; `t` no longer has the rows. */
  function NotifyCommentDeletes(g: Graph, t: Tables, was: Tables, ids: seq<string>): Graph
    requires forall i :: 0 <= i < |ids| ==> ids[i] in was.comments
  {
    if ids == [] then g
    else
      var last := ids[|ids| - 1];
      NotifyCommentDelete(NotifyCommentDeletes(g, t, was, ids[..|ids| - 1]), t, last, was.comments[last])
  }

  /** `order` is an order in which the cascade may visit the post's comments. */
  ghost predicate CascadeOrder(t: Tables, id: string, order: seq<string>) {
    && (forall i :: 0 <= i < |order| ==> order[i] in CommentsOn(t, id))
    && (forall c :: c in CommentsOn(t, id) ==> c in order)
  }

  function DeletePost(s: State, id: string, order: seq<string>): State
    requires id in s.t.posts
    requires forall i :: 0 <= i < |order| ==> order[i] in s.t.comments
  {
    var t := AfterPostDelete(s.t, id);
    State(t, s.vsids, NotifyPostDelete(NotifyCommentDeletes(s.g, t, s.t, order), t, id, s.t.posts[id]))
  }
}
