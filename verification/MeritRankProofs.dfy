/**
  Every statement on the tables keeps the graph in agreement with them, or does so
  exactly under a condition that can be checked beforehand.
 */
module MeritRankProofs {
  import opened Options
  import opened MeritRank

  type Meaning = Link -> Option<int>

  predicate PlainLink(l: Link) {
    Plain(l.src) && Plain(l.dst)
  }

  /** On plain ids a stored name and a link determine each other. */
  lemma EdgeIsLink(k: EdgeKey, l: Link)
    requires PlainLink(l)
    ensures k == Edge(l) <==> Parse(k) == Some(l)
  {
    if k.src != "" { assert k.src == [k.src[0]] + k.src[1..]; }
    if k.dst != "" { assert k.dst == [k.dst[0]] + k.dst[1..]; }
  }

  lemma AgreesUnique(g: Graph, h: Graph, t: Tables)
    requires Agrees(g, t) && Agrees(h, t)
    ensures g == h
  {
    forall k ensures (k in g <==> k in h) && (k in g && k in h ==> g[k] == h[k]) {
      assert Lookup(g, k) == Lookup(h, k);
    }
  }

  function Update(m: Meaning, l: Link, w: Option<int>): Meaning {
    x => if x == l then w else m(x)
  }

  lemma PutRepresents(g: Graph, m: Meaning, l: Link, w: int)
    requires Represents(g, m) && PlainLink(l)
    ensures Represents(PutEdge(g, l, w), Update(m, l, Some(w)))
  {
    forall k { EdgeIsLink(k, l); }
  }

  lemma DeleteRepresents(g: Graph, m: Meaning, l: Link)
    requires Represents(g, m) && PlainLink(l)
    ensures Represents(DeleteEdge(g, l), Update(m, l, None))
  {
    forall k { EdgeIsLink(k, l); }
  }

  lemma SyncRepresents(g: Graph, m: Meaning, l: Link, n: nat)
    requires Represents(g, m) && PlainLink(l)
    ensures Represents(SyncCount(g, l, n), Update(m, l, CountWeight(n)))
  {
    if n == 0 { DeleteRepresents(g, m, l); } else { PutRepresents(g, m, l, n); }
  }

  lemma RepresentsSame(g: Graph, m: Meaning, m': Meaning)
    requires Represents(g, m) && forall l :: m(l) == m'(l)
    ensures Represents(g, m')
  {
  }

  lemma CountsUnchanged(t: Tables, t': Tables, a: string, p: string)
    requires t.comments == t'.comments
    ensures CommentsBy(t', a, p, None) == CommentsBy(t, a, p, None)
    ensures RepliesBy(t', a, p, None) == RepliesBy(t, a, p, None)
  {
  }

  // ---------- Subscriptions ----------

  lemma SubscriptionsWellFormed(t: Tables, t': Tables)
    requires WellFormed(t) && t'.posts == t.posts && t'.comments == t.comments
    requires forall p :: SubscriptionOk(t', p)
    ensures WellFormed(t')
  {
    forall p ensures PostOk(t', p) { assert PostOk(t, p); }
    forall c ensures CommentOk(t', c) {
      assert CommentOk(t, c);
    }
  }

  lemma SubscriptionLinks(t: Tables, t': Tables, x: Link)
    requires t' == t.(subs := t'.subs)
    requires x.srcKind != 'U' || x.dstKind != 'U'
    ensures LinkWeight(t', x) == LinkWeight(t, x)
  {
    CountsUnchanged(t, t', x.src, x.dst);
    CountsUnchanged(t, t', x.dst, x.src);
  }

  lemma PutSubscriptionAgrees(s: State, subject: string, target: string, amount: int)
    requires WellFormed(s.t) && Agrees(s.g, s.t) && Plain(subject) && Plain(target)
    ensures var s' := PutSubscription(s, subject, target, amount); WellFormed(s'.t) && Agrees(s'.g, s'.t)
  {
    var t, t', g' := s.t, PutSubscription(s, subject, target, amount).t, PutSubscription(s, subject, target, amount).g;
    forall p ensures SubscriptionOk(t', p) { assert SubscriptionOk(t, p); }
    SubscriptionsWellFormed(t, t');
    var l, m := Link('U', subject, 'U', target, ""), (x: Link) => LinkWeight(t, x);
    PutRepresents(s.g, m, l, amount);
    forall x ensures Update(m, l, Some(amount))(x) == LinkWeight(t', x) {
      if x.srcKind != 'U' || x.dstKind != 'U' { SubscriptionLinks(t, t', x); }
    }
    RepresentsSame(g', Update(m, l, Some(amount)), x => LinkWeight(t', x));
  }

  lemma DeleteSubscriptionAgrees(s: State, subject: string, target: string)
    requires WellFormed(s.t) && Agrees(s.g, s.t) && Plain(subject) && Plain(target)
    ensures var s' := DeleteSubscription(s, subject, target); WellFormed(s'.t) && Agrees(s'.g, s'.t)
  {
    var t, t', g' := s.t, DeleteSubscription(s, subject, target).t, DeleteSubscription(s, subject, target).g;
    forall p ensures SubscriptionOk(t', p) { assert SubscriptionOk(t, p); }
    SubscriptionsWellFormed(t, t');
    var l, m := Link('U', subject, 'U', target, ""), (x: Link) => LinkWeight(t, x);
    DeleteRepresents(s.g, m, l);
    forall x ensures Update(m, l, None)(x) == LinkWeight(t', x) {
      if x.srcKind != 'U' || x.dstKind != 'U' { SubscriptionLinks(t, t', x); }
    }
    RepresentsSame(g', Update(m, l, None), x => LinkWeight(t', x));
  }

  // ---------- Posts ----------

  lemma NoComments(t: Tables, a: string, p: string)
    requires WellFormed(t) && p !in t.posts
    ensures CommentsBy(t, a, p, None) == {}
  {
    forall c | c in t.comments ensures t.comments[c].postId != p { assert CommentOk(t, c); }
  }

  lemma NoReplies(t: Tables, a: string, p: string)
    requires WellFormed(t) && p !in t.comments
    ensures RepliesBy(t, a, p, None) == {}
  {
    forall c | c in t.comments ensures t.comments[c].parentId != Some(p) { assert CommentOk(t, c); }
  }

  lemma InsertPostLinks(t: Tables, id: string, p: Post, x: Link)
    requires WellFormed(t) && id !in t.posts
    ensures var board := GetBoard(t, p.submoltId);
            LinkWeight(t.(posts := t.posts[id := p]), x) ==
            if x == Link('B', id, 'U', p.authorId, board) || x == Link('U', p.authorId, 'B', id, board) then Some(1)
            else LinkWeight(t, x)
  {
    var t' := t.(posts := t.posts[id := p]);
    CountsUnchanged(t, t', x.src, x.dst);
    if x.dstKind == 'B' { NoComments(t, x.src, id); }
    if x.srcKind == 'C' { assert CommentOk(t, x.src); }
    if x.dstKind == 'C' { assert CommentOk(t, x.dst); }
  }

  lemma InsertPostAgrees(s: State, id: string, author: string, submolt: Option<string>)
    requires WellFormed(s.t) && Agrees(s.g, s.t)
    requires Plain(id) && Plain(author) && id !in s.t.posts
    ensures var s' := InsertPost(s, id, author, submolt); WellFormed(s'.t) && Agrees(s'.g, s'.t)
  {
    var t, t', g' := s.t, InsertPost(s, id, author, submolt).t, InsertPost(s, id, author, submolt).g;
    forall p ensures PostOk(t', p) { assert PostOk(t, p); }
    forall c ensures CommentOk(t', c) { assert CommentOk(t, c); }
    forall p ensures SubscriptionOk(t', p) { assert SubscriptionOk(t, p); }
    var board := GetBoard(t, submolt);
    var m := (x: Link) => LinkWeight(t, x);
    var l1, l2 := Link('B', id, 'U', author, board), Link('U', author, 'B', id, board);
    PutRepresents(s.g, m, l1, 1);
    PutRepresents(PutEdge(s.g, l1, 1), Update(m, l1, Some(1)), l2, 1);
    var m' := Update(Update(m, l1, Some(1)), l2, Some(1));
    forall x ensures m'(x) == LinkWeight(t', x) { InsertPostLinks(t, id, t'.posts[id], x); }
    RepresentsSame(g', m', x => LinkWeight(t', x));
  }

  // ---------- Comments ----------

  function SyncCommentMeaning(m: Meaning, t: Tables, author: string, post: string, board: string, exclude: Option<string>): Meaning {
    if post in t.posts && t.posts[post].authorId == author then m
    else Update(m, Link('U', author, 'B', post, board), CountWeight(|CommentsBy(t, author, post, exclude)|))
  }

  function SyncReplyMeaning(m: Meaning, t: Tables, author: string, parent: string, board: string, exclude: Option<string>): Meaning {
    if parent in t.comments && t.comments[parent].authorId == author then m
    else Update(m, Link('U', author, 'C', parent, board), CountWeight(|RepliesBy(t, author, parent, exclude)|))
  }

  /** What firing the comment trigger does to the meaning: `own` is the new weight of the row's own two edges. */
  function CommentMeaning(m: Meaning, t: Tables, id: string, c: Comment, own: Option<int>, exclude: Option<string>): Meaning {
    var board := BoardOfPost(t, c.postId);
    var m1 := Update(Update(m, Link('C', id, 'U', c.authorId, board), own), Link('U', c.authorId, 'C', id, board), own);
    var m2 := SyncCommentMeaning(m1, t, c.authorId, c.postId, board, exclude);
    if c.parentId.Some? then SyncReplyMeaning(m2, t, c.authorId, c.parentId.value, board, exclude) else m2
  }

  lemma SyncsRepresent(g: Graph, m: Meaning, t: Tables, c: Comment, board: string, exclude: Option<string>)
    requires Represents(g, m) && Plain(c.authorId) && Plain(c.postId) && (c.parentId.Some? ==> Plain(c.parentId.value))
    ensures var g2 := SyncCommentUpvote(g, t, c.authorId, c.postId, board, exclude);
            var m2 := SyncCommentMeaning(m, t, c.authorId, c.postId, board, exclude);
            && Represents(g2, m2)
            && (c.parentId.Some? ==> Represents(SyncReplyUpvote(g2, t, c.authorId, c.parentId.value, board, exclude),
                                                SyncReplyMeaning(m2, t, c.authorId, c.parentId.value, board, exclude)))
  {
    SyncRepresents(g, m, Link('U', c.authorId, 'B', c.postId, board), |CommentsBy(t, c.authorId, c.postId, exclude)|);
    var g2 := SyncCommentUpvote(g, t, c.authorId, c.postId, board, exclude);
    var m2 := SyncCommentMeaning(m, t, c.authorId, c.postId, board, exclude);
    if c.parentId.Some? {
      SyncRepresents(g2, m2, Link('U', c.authorId, 'C', c.parentId.value, board), |RepliesBy(t, c.authorId, c.parentId.value, exclude)|);
    }
  }

  lemma MeaningOnPosts(m: Meaning, t: Tables, id: string, c: Comment, own: Option<int>, exclude: Option<string>, x: Link)
    requires x.srcKind == 'U' && x.dstKind == 'B'
    ensures CommentMeaning(m, t, id, c, own, exclude)(x) ==
            if x.src == c.authorId && x.dst == c.postId && x.context == BoardOfPost(t, c.postId)
               && !(c.postId in t.posts && t.posts[c.postId].authorId == c.authorId)
            then CountWeight(|CommentsBy(t, x.src, x.dst, exclude)|) else m(x)
  {
  }

  lemma MeaningOnComments(m: Meaning, t: Tables, id: string, c: Comment, own: Option<int>, exclude: Option<string>, x: Link)
    requires x.srcKind == 'U' && x.dstKind == 'C'
    ensures CommentMeaning(m, t, id, c, own, exclude)(x) ==
            if x.src == c.authorId && Some(x.dst) == c.parentId && x.context == BoardOfPost(t, c.postId)
               && !(x.dst in t.comments && t.comments[x.dst].authorId == c.authorId)
            then CountWeight(|RepliesBy(t, x.src, x.dst, exclude)|)
            else if x.src == c.authorId && x.dst == id && x.context == BoardOfPost(t, c.postId) then own
            else m(x)
  {
  }

  lemma MeaningElsewhere(m: Meaning, t: Tables, id: string, c: Comment, own: Option<int>, exclude: Option<string>, x: Link)
    requires x.srcKind != 'U' || (x.dstKind != 'B' && x.dstKind != 'C')
    ensures CommentMeaning(m, t, id, c, own, exclude)(x) ==
            if x == Link('C', id, 'U', c.authorId, BoardOfPost(t, c.postId)) then own else m(x)
  {
  }

  predicate PlainComment(id: string, c: Comment) {
    Plain(id) && Plain(c.authorId) && Plain(c.postId) && (c.parentId.Some? ==> Plain(c.parentId.value))
  }

  lemma NotifyInsertRepresents(g: Graph, m: Meaning, t: Tables, id: string, c: Comment)
    requires Represents(g, m) && PlainComment(id, c)
    ensures Represents(NotifyCommentInsert(g, t, id, c), CommentMeaning(m, t, id, c, Some(1), None))
  {
    var board := BoardOfPost(t, c.postId);
    var l1, l2 := Link('C', id, 'U', c.authorId, board), Link('U', c.authorId, 'C', id, board);
    PutRepresents(g, m, l1, 1);
    PutRepresents(PutEdge(g, l1, 1), Update(m, l1, Some(1)), l2, 1);
    SyncsRepresent(PutEdge(PutEdge(g, l1, 1), l2, 1), Update(Update(m, l1, Some(1)), l2, Some(1)), t, c, board, None);
  }

  lemma NotifyDeleteRepresents(g: Graph, m: Meaning, t: Tables, id: string, c: Comment)
    requires Represents(g, m) && PlainComment(id, c)
    ensures Represents(NotifyCommentDelete(g, t, id, c), CommentMeaning(m, t, id, c, None, Some(id)))
  {
    var board := BoardOfPost(t, c.postId);
    var l1, l2 := Link('C', id, 'U', c.authorId, board), Link('U', c.authorId, 'C', id, board);
    DeleteRepresents(g, m, l1);
    DeleteRepresents(DeleteEdge(g, l1), Update(m, l1, None), l2);
    SyncsRepresent(DeleteEdge(DeleteEdge(g, l1), l2), Update(Update(m, l1, None), l2, None), t, c, board, Some(id));
  }

  /** A comment may be inserted on a live post, replying to nothing, to itself, or to a comment on that post. */
  predicate Insertable(t: Tables, id: string, author: string, post: string, parent: Option<string>) {
    && Plain(id) && Plain(author) && id !in t.comments && post in t.posts
    && (parent.Some? && parent.value != id ==> OnPost(t, parent.value, post))
  }

  lemma InsertCommentWellFormed(t: Tables, id: string, c: Comment)
    requires WellFormed(t) && Insertable(t, id, c.authorId, c.postId, c.parentId)
    ensures WellFormed(t.(comments := t.comments[id := c])) && PlainComment(id, c)
  {
    var t' := t.(comments := t.comments[id := c]);
    assert PostOk(t, c.postId);
    if c.parentId.Some? { assert CommentOk(t, c.parentId.value); }
    forall p ensures PostOk(t', p) { assert PostOk(t, p); }
    forall x ensures CommentOk(t', x) { assert CommentOk(t, x); }
    forall p ensures SubscriptionOk(t', p) { assert SubscriptionOk(t, p); }
  }

  lemma InsertCommentCounts(t: Tables, id: string, c: Comment, a: string, p: string)
    requires WellFormed(t) && id !in t.comments
    ensures var t' := t.(comments := t.comments[id := c]);
            && ((a, p) != (c.authorId, c.postId) ==> CommentsBy(t', a, p, None) == CommentsBy(t, a, p, None))
            && ((a, Some(p)) != (c.authorId, c.parentId) ==> RepliesBy(t', a, p, None) == RepliesBy(t, a, p, None))
            && RepliesBy(t, a, id, None) == {}
  {
    NoReplies(t, a, id);
  }

  lemma InsertCommentOnPosts(t: Tables, id: string, c: Comment, user: string, post: string, context: string)
    requires WellFormed(t) && Insertable(t, id, c.authorId, c.postId, c.parentId)
    ensures var t' := t.(comments := t.comments[id := c]);
            UserToPostWeight(t', user, post, context) ==
            if user == c.authorId && post == c.postId && context == BoardOfPost(t', post) && t.posts[post].authorId != user
            then CountWeight(|CommentsBy(t', user, post, None)|)
            else UserToPostWeight(t, user, post, context)
  {
    InsertCommentCounts(t, id, c, user, post);
  }

  lemma InsertCommentOnComments(t: Tables, id: string, c: Comment, user: string, parent: string, context: string)
    requires WellFormed(t) && Insertable(t, id, c.authorId, c.postId, c.parentId)
    ensures var t' := t.(comments := t.comments[id := c]);
            var board := BoardOfPost(t', c.postId);
            UserToCommentWeight(t', user, parent, context) ==
            if user == c.authorId && parent == id && context == board then Some(1)
            else if user == c.authorId && Some(parent) == c.parentId && context == board && t'.comments[parent].authorId != user
            then CountWeight(|RepliesBy(t', user, parent, None)|)
            else UserToCommentWeight(t, user, parent, context)
  {
    var t' := t.(comments := t.comments[id := c]);
    InsertCommentCounts(t, id, c, user, parent);
    if parent == id && user != c.authorId { assert RepliesBy(t', user, id, None) == {}; }
  }

  lemma InsertCommentLinks(t: Tables, id: string, c: Comment, x: Link)
    requires WellFormed(t) && Insertable(t, id, c.authorId, c.postId, c.parentId)
    ensures var t' := t.(comments := t.comments[id := c]);
            CommentMeaning(l => LinkWeight(t, l), t', id, c, Some(1), None)(x) == LinkWeight(t', x)
  {
    var t', m := t.(comments := t.comments[id := c]), (l: Link) => LinkWeight(t, l);
    if x.srcKind == 'U' && x.dstKind == 'B' {
      MeaningOnPosts(m, t', id, c, Some(1), None, x);
      InsertCommentOnPosts(t, id, c, x.src, x.dst, x.context);
    } else if x.srcKind == 'U' && x.dstKind == 'C' {
      MeaningOnComments(m, t', id, c, Some(1), None, x);
      InsertCommentOnComments(t, id, c, x.src, x.dst, x.context);
    } else {
      MeaningElsewhere(m, t', id, c, Some(1), None, x);
    }
  }

  lemma InsertCommentAgrees(s: State, id: string, author: string, post: string, parent: Option<string>)
    requires WellFormed(s.t) && Agrees(s.g, s.t) && Insertable(s.t, id, author, post, parent)
    ensures var s' := InsertComment(s, id, author, post, parent); WellFormed(s'.t) && Agrees(s'.g, s'.t)
  {
    var s' := InsertComment(s, id, author, post, parent);
    var c := s'.t.comments[id];
    InsertCommentWellFormed(s.t, id, c);
    var m := (l: Link) => LinkWeight(s.t, l);
    NotifyInsertRepresents(s.g, m, s'.t, id, c);
    forall x ensures CommentMeaning(m, s'.t, id, c, Some(1), None)(x) == LinkWeight(s'.t, x) { InsertCommentLinks(s.t, id, c, x); }
    RepresentsSame(s'.g, CommentMeaning(m, s'.t, id, c, Some(1), None), x => LinkWeight(s'.t, x));
  }
}
