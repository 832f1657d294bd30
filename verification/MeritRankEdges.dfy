/**
  Which edges the graph holds, by their stored names: the ends' kinds and ids, the board's name and the weight.
 */
module MeritRankEdges {
  import opened Options
  import opened MeritRank
  import opened MeritRankProofs
  import opened MeritRankUpdates
  import opened MeritRankRuns

  /** The name of a board that exists; "" for none or an unknown one. */
  predicate IsName(t: Tables, submolt: Option<string>, name: string) {
    if submolt.Some? && submolt.value in t.submolts then name == t.submolts[submolt.value] else name == ""
  }

  /** A node's name is its kind before its id, unless the id is empty or starts with U, B or C: then it is the id. */
  lemma NodeName(kind: char, raw: string)
    ensures Prefix(kind, raw) == if raw != "" && raw[0] != 'U' && raw[0] != 'B' && raw[0] != 'C' then [kind] + raw else raw
    ensures Plain(raw) <==> raw != "" && raw[0] != 'U' && raw[0] != 'B' && raw[0] != 'C'
  {
  }

  lemma Named(k1: char, a: string, k2: char, b: string, context: string)
    requires Plain(a) && Plain(b)
    ensures Edge(Link(k1, a, k2, b, context)) == EdgeKey([k1] + a, [k2] + b, context)
  {
  }

  // ---------- What an insert puts ----------

  /** A post puts one edge each way between it and its author, on the board it names; no other edge changes. */
  lemma PostEdges(s: State, id: string, author: string, submolt: Option<string>, name: string)
    requires Plain(id) && Plain(author) && IsName(s.t, submolt, name)
    ensures var g := InsertPost(s, id, author, submolt).g;
            && Lookup(g, EdgeKey("B" + id, "U" + author, name)) == Some(1)
            && Lookup(g, EdgeKey("U" + author, "B" + id, name)) == Some(1)
            && forall k :: k != EdgeKey("B" + id, "U" + author, name) && k != EdgeKey("U" + author, "B" + id, name) ==>
                 Lookup(g, k) == Lookup(s.g, k)
  {
    Named('B', id, 'U', author, name);
    Named('U', author, 'B', id, name);
  }

  lemma Differ(a: string, b: string, k1: char, k2: char)
    ensures [k1] + a == [k2] + b ==> k1 == k2 && a == b
  {
    if [k1] + a == [k2] + b { assert ([k1] + a)[1..] == a && ([k2] + b)[1..] == b; }
  }

  lemma SyncsElsewhere(g: Graph, t: Tables, author: string, node: string, board: string, k: EdgeKey)
    requires Plain(author) && Plain(node)
    ensures k != EdgeKey("U" + author, "B" + node, board) ==> Lookup(SyncCommentUpvote(g, t, author, node, board, None), k) == Lookup(g, k)
    ensures k != EdgeKey("U" + author, "C" + node, board) ==> Lookup(SyncReplyUpvote(g, t, author, node, board, None), k) == Lookup(g, k)
  {
    Named('U', author, 'B', node, board);
    Named('U', author, 'C', node, board);
  }

  lemma OwnEdges(g: Graph, id: string, author: string, name: string)
    requires Plain(id) && Plain(author)
    ensures var g1 := PutEdge(PutEdge(g, Link('C', id, 'U', author, name), 1), Link('U', author, 'C', id, name), 1);
            && Lookup(g1, EdgeKey("C" + id, "U" + author, name)) == Some(1)
            && Lookup(g1, EdgeKey("U" + author, "C" + id, name)) == Some(1)
  {
    Named('C', id, 'U', author, name);
    Named('U', author, 'C', id, name);
  }

  lemma NotifiedEdges(g: Graph, t: Tables, id: string, c: Comment, name: string)
    requires Plain(id) && Plain(c.authorId) && Plain(c.postId) && name == BoardOfPost(t, c.postId)
    requires id in t.comments && t.comments[id] == c && (c.parentId.Some? ==> Plain(c.parentId.value))
    ensures var g' := NotifyCommentInsert(g, t, id, c);
            && Lookup(g', EdgeKey("C" + id, "U" + c.authorId, name)) == Some(1)
            && Lookup(g', EdgeKey("U" + c.authorId, "C" + id, name)) == Some(1)
  {
    var author, own, back := c.authorId, EdgeKey("C" + id, "U" + c.authorId, name), EdgeKey("U" + c.authorId, "C" + id, name);
    OwnEdges(g, id, author, name);
    var g1 := PutEdge(PutEdge(g, Link('C', id, 'U', author, name), 1), Link('U', author, 'C', id, name), 1);
    Differ(id, c.postId, 'C', 'B');
    SyncsElsewhere(g1, t, author, c.postId, name, own);
    SyncsElsewhere(g1, t, author, c.postId, name, back);
    if c.parentId.Some? && c.parentId.value != id {
      var g2 := SyncCommentUpvote(g1, t, author, c.postId, name, None);
      Differ(id, c.parentId.value, 'C', 'C');
      SyncsElsewhere(g2, t, author, c.parentId.value, name, own);
      SyncsElsewhere(g2, t, author, c.parentId.value, name, back);
    }
  }

  /** A comment puts one edge each way between it and its author, on the board of its post. */
  lemma CommentEdges(s: State, id: string, author: string, post: string, parent: Option<string>, name: string)
    requires WellFormed(s.t) && Insertable(s.t, id, author, post, parent) && IsName(s.t, s.t.posts[post].submoltId, name)
    ensures var g := InsertComment(s, id, author, post, parent).g;
            && Lookup(g, EdgeKey("C" + id, "U" + author, name)) == Some(1)
            && Lookup(g, EdgeKey("U" + author, "C" + id, name)) == Some(1)
  {
    var t := InsertComment(s, id, author, post, parent).t;
    assert PostOk(s.t, post);
    if parent.Some? { assert CommentOk(s.t, parent.value); }
    NotifiedEdges(s.g, t, id, t.comments[id], name);
  }

  lemma SyncedAt(g: Graph, l: Link, n: nat)
    ensures Lookup(SyncCount(g, l, n), Edge(l)) == if n > 0 then Some(n) else None
  {
  }

  /** A sync sets the edge of anyone but the author to their number of comments or replies, leaving out the excluded one. */
  lemma SyncedEdges(g: Graph, t: Tables, author: string, node: string, board: string, exclude: Option<string>)
    requires Plain(author) && Plain(node)
    ensures var n := |set c | c in t.comments && t.comments[c].authorId == author && t.comments[c].postId == node && Some(c) != exclude|;
            !(node in t.posts && t.posts[node].authorId == author) ==>
              Lookup(SyncCommentUpvote(g, t, author, node, board, exclude), EdgeKey("U" + author, "B" + node, board)) == if n > 0 then Some(n) else None
    ensures var n := |set c | c in t.comments && t.comments[c].authorId == author && t.comments[c].parentId == Some(node) && Some(c) != exclude|;
            !(node in t.comments && t.comments[node].authorId == author) ==>
              Lookup(SyncReplyUpvote(g, t, author, node, board, exclude), EdgeKey("U" + author, "C" + node, board)) == if n > 0 then Some(n) else None
  {
    assert CommentsBy(t, author, node, exclude)
           == set c | c in t.comments && t.comments[c].authorId == author && t.comments[c].postId == node && Some(c) != exclude;
    assert RepliesBy(t, author, node, exclude)
           == set c | c in t.comments && t.comments[c].authorId == author && t.comments[c].parentId == Some(node) && Some(c) != exclude;
    Named('U', author, 'B', node, board);
    Named('U', author, 'C', node, board);
    SyncedAt(g, Link('U', author, 'B', node, board), |CommentsBy(t, author, node, exclude)|);
    SyncedAt(g, Link('U', author, 'C', node, board), |RepliesBy(t, author, node, exclude)|);
  }

  // ---------- What an agreeing graph holds ----------

  /** The weight under a stored name. */
  lemma AgreedAt(g: Graph, t: Tables, k1: char, a: string, k2: char, b: string, context: string)
    requires Agrees(g, t)
    ensures Lookup(g, EdgeKey([k1] + a, [k2] + b, context)) == LinkWeight(t, Link(k1, a, k2, b, context))
  {
    var k := EdgeKey([k1] + a, [k2] + b, context);
    assert Parse(k) == Some(Link(k1, a, k2, b, context));
    var m := (l: Link) => LinkWeight(t, l);
    assert Lookup(g, k) == m(Parse(k).value);
  }

  /** Every subscription has an edge of its amount in the context "". */
  lemma AgreedFollows(g: Graph, t: Tables, subject: string, target: string)
    requires Agrees(g, t)
    ensures Lookup(g, EdgeKey("U" + subject, "U" + target, ""))
            == if (subject, target) in t.subs then Some(t.subs[(subject, target)].amount) else None
  {
    AgreedAt(g, t, 'U', subject, 'U', target, "");
  }

  /** A post and its author point at each other once; another user points at it once per comment of theirs on it. */
  lemma AgreedPost(g: Graph, t: Tables, p: string, user: string, name: string)
    requires Agrees(g, t) && p in t.posts && IsName(t, t.posts[p].submoltId, name)
    ensures Lookup(g, EdgeKey("B" + p, "U" + user, name)) == if t.posts[p].authorId == user then Some(1) else None
    ensures var n := |set c | c in t.comments && t.comments[c].postId == p && t.comments[c].authorId == user|;
            Lookup(g, EdgeKey("U" + user, "B" + p, name)) == if t.posts[p].authorId == user then Some(1) else if n > 0 then Some(n) else None
  {
    AgreedAt(g, t, 'B', p, 'U', user, name);
    AgreedAt(g, t, 'U', user, 'B', p, name);
    assert CommentsBy(t, user, p, None) == set c | c in t.comments && t.comments[c].postId == p && t.comments[c].authorId == user;
  }

  /** A comment and its author point at each other once; another user points at it once per reply of theirs to it. */
  lemma AgreedComment(g: Graph, t: Tables, c: string, user: string, name: string)
    requires Agrees(g, t) && WellFormed(t) && c in t.comments
    requires t.comments[c].postId in t.posts && IsName(t, t.posts[t.comments[c].postId].submoltId, name)
    ensures Lookup(g, EdgeKey("C" + c, "U" + user, name)) == if t.comments[c].authorId == user then Some(1) else None
    ensures var n := |set r | r in t.comments && t.comments[r].parentId == Some(c) && t.comments[r].authorId == user|;
            Lookup(g, EdgeKey("U" + user, "C" + c, name)) == if t.comments[c].authorId == user then Some(1) else if n > 0 then Some(n) else None
  {
    AgreedAt(g, t, 'C', c, 'U', user, name);
    AgreedAt(g, t, 'U', user, 'C', c, name);
    assert RepliesBy(t, user, c, None) == set r | r in t.comments && t.comments[r].parentId == Some(c) && t.comments[r].authorId == user;
  }

  /** There is no other edge. */
  lemma AgreedOnly(g: Graph, t: Tables, k: EdgeKey) returns (a: string, b: string)
    requires Agrees(g, t) && k in g
    ensures || (k == EdgeKey("U" + a, "U" + b, "") && (a, b) in t.subs)
            || (k.src == "B" + a && k.dst == "U" + b && a in t.posts && IsName(t, t.posts[a].submoltId, k.context))
            || (k.src == "U" + a && k.dst == "B" + b && b in t.posts && IsName(t, t.posts[b].submoltId, k.context))
            || (k.src == "C" + a && k.dst == "U" + b && a in t.comments && k.context == BoardOfPost(t, t.comments[a].postId))
            || (k.src == "U" + a && k.dst == "C" + b && b in t.comments && k.context == BoardOfPost(t, t.comments[b].postId))
  {
    assert Lookup(g, k).Some? && Parse(k).Some?;
    var l := Parse(k).value;
    a, b := l.src, l.dst;
    assert k.src == [l.srcKind] + a && k.dst == [l.dstKind] + b;
    AgreedAt(g, t, l.srcKind, a, l.dstKind, b, l.context);
  }

  // ---------- Ticks and merged parents ----------

  /** A user's first tick is 1 and each next one is one more; the new row carries it. */
  lemma TicksByOne(s: State, id: string, author: string, post: string, parent: Option<string>, submolt: Option<string>, amount: int)
    ensures var n := if author in s.vsids then s.vsids[author] + 1 else 1;
            var p, c, f := InsertPost(s, id, author, submolt), InsertComment(s, id, author, post, parent), PutSubscription(s, author, id, amount);
            && p.t.posts[id] == Post(author, submolt, n) && p.vsids == s.vsids[author := n]
            && c.t.comments[id] == Comment(author, post, parent, n) && c.vsids == s.vsids[author := n]
            && f.t.subs[(author, id)] == Subscription(amount, n) && f.vsids == s.vsids[author := n]
  {
  }

  /** An upsert of a stored comment moves its author's counter by one and takes the payload's parent if there is one. */
  lemma ReingestedRow(s: State, id: string, parent: Option<string>)
    requires id in s.t.comments
    ensures var c, s' := s.t.comments[id], ReingestComment(s, id, parent);
            && s'.t.comments == s.t.comments[id := Comment(c.authorId, c.postId, if parent.Some? then parent else c.parentId, c.ticker)]
            && s'.vsids == s.vsids[c.authorId := if c.authorId in s.vsids then s.vsids[c.authorId] + 1 else 1]
            && s'.g == s.g
  {
  }

  // ---------- Contexts over runs ----------

  /** A context is "" or the name of a board. */
  ghost predicate ContextOk(t: Tables, context: string) {
    context == "" || exists m :: m in t.submolts && t.submolts[m] == context
  }

  ghost predicate ContextsOk(t: Tables, g: Graph) {
    forall k :: k in g ==> ContextOk(t, k.context)
  }

  lemma BoardOk(t: Tables, submolt: Option<string>)
    ensures ContextOk(t, GetBoard(t, submolt))
  {
  }

  lemma SyncContexts(t: Tables, g: Graph, u: Tables, author: string, node: string, board: string, exclude: Option<string>)
    requires ContextsOk(t, g) && ContextOk(t, board)
    ensures ContextsOk(t, SyncCommentUpvote(g, u, author, node, board, exclude))
    ensures ContextsOk(t, SyncReplyUpvote(g, u, author, node, board, exclude))
  {
  }

  lemma CommentDeleteContexts(t: Tables, g: Graph, id: string, c: Comment)
    requires ContextsOk(t, g)
    ensures ContextsOk(t, NotifyCommentDelete(g, t, id, c))
  {
    var board := BoardOfPost(t, c.postId);
    BoardOk(t, if c.postId in t.posts then t.posts[c.postId].submoltId else None);
    var g1 := DeleteEdge(DeleteEdge(g, Link('C', id, 'U', c.authorId, board)), Link('U', c.authorId, 'C', id, board));
    SyncContexts(t, g1, t, c.authorId, c.postId, board, Some(id));
    if c.parentId.Some? {
      SyncContexts(t, SyncCommentUpvote(g1, t, c.authorId, c.postId, board, Some(id)), t, c.authorId, c.parentId.value, board, Some(id));
    }
  }

  lemma CommentInsertContexts(t: Tables, g: Graph, id: string, c: Comment)
    requires ContextsOk(t, g)
    ensures ContextsOk(t, NotifyCommentInsert(g, t, id, c))
  {
    var board := BoardOfPost(t, c.postId);
    BoardOk(t, if c.postId in t.posts then t.posts[c.postId].submoltId else None);
    var g1 := PutEdge(PutEdge(g, Link('C', id, 'U', c.authorId, board), 1), Link('U', c.authorId, 'C', id, board), 1);
    SyncContexts(t, g1, t, c.authorId, c.postId, board, None);
    if c.parentId.Some? {
      SyncContexts(t, SyncCommentUpvote(g1, t, c.authorId, c.postId, board, None), t, c.authorId, c.parentId.value, board, None);
    }
  }

  lemma {:induction false} CascadeContexts(t: Tables, g: Graph, was: Tables, ids: seq<string>)
    requires ContextsOk(t, g) && forall i :: 0 <= i < |ids| ==> ids[i] in was.comments
    ensures ContextsOk(t, NotifyCommentDeletes(g, t, was, ids))
  {
    if ids != [] {
      var n := |ids| - 1;
      CascadeContexts(t, g, was, ids[..n]);
      CommentDeleteContexts(t, NotifyCommentDeletes(g, t, was, ids[..n]), ids[n], was.comments[ids[n]]);
    }
  }

  lemma SameBoards(t: Tables, t': Tables, g: Graph)
    requires ContextsOk(t, g) && t'.submolts == t.submolts
    ensures ContextsOk(t', g)
  {
    forall k | k in g ensures ContextOk(t', k.context) { assert ContextOk(t, k.context); }
  }

  lemma StepContexts(s: State, step: Step)
    requires ContextsOk(s.t, s.g) && Legal(s.t, step)
    ensures ContextsOk(Apply(s, step).t, Apply(s, step).g) && Apply(s, step).t.submolts == s.t.submolts
  {
    var t' := Apply(s, step).t;
    SameBoards(s.t, t', s.g);
    match step
    case AddPost(id, author, submolt) => BoardOk(t', submolt);
    case RemovePost(id, order) => CascadeContexts(t', s.g, s.t, order);
    case AddComment(id, _, _, _) => CommentInsertContexts(t', s.g, id, t'.comments[id]);
    case RemoveComment(id) => CommentDeleteContexts(t', s.g, id, s.t.comments[id]);
    case Reingest(_, _) =>
    case Subscribe(_, _, _) =>
    case Unsubscribe(_, _) =>
  }

  /** Over every run, safe or not, every edge is on a board by its name, or on none. */
  lemma {:induction false} RunContexts(s: State, steps: seq<Step>)
    requires ContextsOk(s.t, s.g) && LegalRun(s, steps)
    ensures ContextsOk(Run(s, steps).t, Run(s, steps).g) && Run(s, steps).t.submolts == s.t.submolts
    decreases |steps|
  {
    if steps != [] {
      StepContexts(s, steps[0]);
      RunContexts(Apply(s, steps[0]), steps[1..]);
    }
  }

  lemma ContextsFromStart(submolts: map<string, string>, steps: seq<Step>, k: EdgeKey)
    requires LegalRun(Start(submolts), steps) && k in Run(Start(submolts), steps).g
    ensures k.context == "" || exists m :: m in submolts && submolts[m] == k.context
  {
    RunContexts(Start(submolts), steps);
    assert ContextOk(Run(Start(submolts), steps).t, k.context);
  }
}
