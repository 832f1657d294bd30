/**
  Deletes. The triggers do not see a reply losing its parent, and they look up the board of a
  cascaded comment after its post has gone; each lemma below says exactly when that is harmless.
 */
module MeritRankDeletes {
  import opened Options
  import opened MeritRank
  import opened MeritRankProofs

  lemma RepresentsOnce(g: Graph, m: Meaning, m': Meaning, l: Link)
    requires Represents(g, m) && Represents(g, m')
    ensures m(l) == m'(l)
  {
    var k := EdgeKey([l.srcKind] + l.src, [l.dstKind] + l.dst, l.context);
    assert Parse(k) == Some(l);
    assert Lookup(g, k) == m(l) && Lookup(g, k) == m'(l);
  }

  lemma WithoutWellFormed(t: Tables, gone: set<string>, t': Tables)
    requires WellFormed(t) && t'.subs == t.subs && t'.comments == WithoutComments(t.comments, gone)
    requires forall p :: p in t'.posts ==> p in t.posts && t.posts[p] == t'.posts[p]
    requires forall c :: c in t.comments && c !in gone ==> t.comments[c].postId in t'.posts
    ensures WellFormed(t')
  {
    forall p ensures PostOk(t', p) { assert PostOk(t, p); }
    forall c ensures CommentOk(t', c) { assert CommentOk(t, c); }
    forall p ensures SubscriptionOk(t', p) { assert SubscriptionOk(t, p); }
  }

  // ---------- Deleting a comment ----------

  /** Every reply to the comment was written by the comment's own author. */
  predicate OnlySelfReplies(t: Tables, id: string)
    requires id in t.comments
  {
    forall r :: r in t.comments && t.comments[r].parentId == Some(id) ==> t.comments[r].authorId == t.comments[id].authorId
  }

  function AfterCommentDelete(t: Tables, id: string): Tables {
    t.(comments := WithoutComments(t.comments, {id}))
  }

  lemma DeleteCommentCounts(t: Tables, id: string, a: string, p: string)
    requires id in t.comments
    ensures var t' := AfterCommentDelete(t, id);
            var c := t.comments[id];
            && CommentsBy(t', a, p, Some(id)) == CommentsBy(t', a, p, None)
            && RepliesBy(t', a, p, Some(id)) == RepliesBy(t', a, p, None)
            && ((a, p) != (c.authorId, c.postId) ==> CommentsBy(t', a, p, None) == CommentsBy(t, a, p, None))
            && (p != id && (a, Some(p)) != (c.authorId, c.parentId) ==> RepliesBy(t', a, p, None) == RepliesBy(t, a, p, None))
            && (p == id ==> RepliesBy(t', a, p, None) == {})
  {
  }

  lemma DeleteCommentOnPosts(t: Tables, id: string, user: string, post: string, context: string)
    requires WellFormed(t) && id in t.comments
    ensures var t' := AfterCommentDelete(t, id);
            var c := t.comments[id];
            UserToPostWeight(t', user, post, context) ==
            if user == c.authorId && post == c.postId && context == BoardOfPost(t', post) && post in t.posts && t.posts[post].authorId != user
            then CountWeight(|CommentsBy(t', user, post, Some(id))|)
            else UserToPostWeight(t, user, post, context)
  {
    DeleteCommentCounts(t, id, user, post);
  }

  lemma DeleteCommentOnComments(t: Tables, id: string, user: string, parent: string, context: string)
    requires WellFormed(t) && id in t.comments && parent != id
    ensures var t' := AfterCommentDelete(t, id);
            var c := t.comments[id];
            UserToCommentWeight(t', user, parent, context) ==
            if user == c.authorId && Some(parent) == c.parentId && context == BoardOfPost(t', c.postId)
               && parent in t.comments && t.comments[parent].authorId != user
            then CountWeight(|RepliesBy(t', user, parent, Some(id))|)
            else UserToCommentWeight(t, user, parent, context)
  {
    DeleteCommentCounts(t, id, user, parent);
    assert CommentOk(t, id);
  }

  /** The meaning the trigger leaves behind is the right one, except for edges from repliers to the deleted comment. */
  lemma DeleteCommentLinks(t: Tables, id: string, x: Link)
    requires WellFormed(t) && id in t.comments
    ensures var t' := AfterCommentDelete(t, id);
            CommentMeaning(l => LinkWeight(t, l), t', id, t.comments[id], None, Some(id))(x) ==
            if x.srcKind == 'U' && x.dstKind == 'C' && x.dst == id && x.src != t.comments[id].authorId
            then LinkWeight(t, x) else LinkWeight(t', x)
  {
    var t', m := AfterCommentDelete(t, id), (l: Link) => LinkWeight(t, l);
    assert CommentOk(t, id);
    if x.srcKind == 'U' && x.dstKind == 'B' {
      MeaningOnPosts(m, t', id, t.comments[id], None, Some(id), x);
      DeleteCommentOnPosts(t, id, x.src, x.dst, x.context);
    } else if x.srcKind == 'U' && x.dstKind == 'C' {
      MeaningOnComments(m, t', id, t.comments[id], None, Some(id), x);
      DeleteCommentCounts(t, id, x.src, id);
      if x.dst != id { DeleteCommentOnComments(t, id, x.src, x.dst, x.context); }
    } else {
      MeaningElsewhere(m, t', id, t.comments[id], None, Some(id), x);
    }
  }

  /**
    Deleting a comment keeps the graph right exactly when nobody else replied to it: the
    replies lose their parent without a trigger, so edges of other repliers are left behind.
   */
  lemma DeleteCommentAgreesIff(s: State, id: string)
    requires WellFormed(s.t) && Agrees(s.g, s.t) && id in s.t.comments
    ensures var s' := DeleteComment(s, id);
            WellFormed(s'.t) && (Agrees(s'.g, s'.t) <==> OnlySelfReplies(s.t, id))
  {
    var t, t', g' := s.t, DeleteComment(s, id).t, DeleteComment(s, id).g;
    var c := t.comments[id];
    assert CommentOk(t, id);
    assert PostOk(t, c.postId);
    if c.parentId.Some? { assert CommentOk(t, c.parentId.value); }
    forall x | x in t.comments ensures t.comments[x].postId in t.posts { assert CommentOk(t, x); }
    WithoutWellFormed(t, {id}, t');
    var m, want := (l: Link) => LinkWeight(t, l), (l: Link) => LinkWeight(t', l);
    var m' := CommentMeaning(m, t', id, c, None, Some(id));
    NotifyDeleteRepresents(s.g, m, t', id, c);
    forall x ensures m'(x) == if x.srcKind == 'U' && x.dstKind == 'C' && x.dst == id && x.src != c.authorId then m(x) else want(x) {
      DeleteCommentLinks(t, id, x);
    }
    if OnlySelfReplies(t, id) {
      forall x ensures m'(x) == want(x) {
        if x.srcKind == 'U' && x.dstKind == 'C' && x.dst == id && x.src != c.authorId {
          assert RepliesBy(t, x.src, id, None) == {};
        }
      }
      RepresentsSame(g', m', want);
    } else if Agrees(g', t') {
      var r :| r in t.comments && t.comments[r].parentId == Some(id) && t.comments[r].authorId != c.authorId;
      assert r in RepliesBy(t, t.comments[r].authorId, id, None);
      RepresentsOnce(g', m', want, Link('U', t.comments[r].authorId, 'C', id, BoardOfPost(t, c.postId)));
      assert false;
    }
  }

  // ---------- Deleting a post ----------

  /** The links the cascade removes for one comment: the board it looks up is "". */
  predicate CascadeLink(t: Tables, id: string, l: Link)
    requires id in t.comments
  {
    var c := t.comments[id];
    || l == Link('C', id, 'U', c.authorId, "")
    || l == Link('U', c.authorId, 'C', id, "")
    || l == Link('U', c.authorId, 'B', c.postId, "")
    || (c.parentId.Some? && l == Link('U', c.authorId, 'C', c.parentId.value, ""))
  }

  predicate CascadeLinks(t: Tables, ids: seq<string>, l: Link)
    requires forall i :: 0 <= i < |ids| ==> ids[i] in t.comments
  {
    exists i :: 0 <= i < |ids| && CascadeLink(t, ids[i], l)
  }

  function CascadeMeaning(t: Tables, ids: seq<string>, m: Meaning): Meaning
    requires forall i :: 0 <= i < |ids| ==> ids[i] in t.comments
  {
    l => if CascadeLinks(t, ids, l) then None else m(l)
  }

  /** With post and comments gone every count in the cascade is zero. */
  lemma CascadeCounts(t: Tables, id: string, c: string, a: string)
    requires WellFormed(t) && c in CommentsOn(t, id)
    ensures var t' := AfterPostDelete(t, id);
            && CommentsBy(t', a, id, Some(c)) == {}
            && (t.comments[c].parentId.Some? ==>
                  t.comments[c].parentId.value !in t'.comments && RepliesBy(t', a, t.comments[c].parentId.value, Some(c)) == {})
  {
    assert CommentOk(t, c);
  }

  lemma CascadeStep(t: Tables, id: string, g: Graph, m: Meaning, c: string, l: Link)
    requires WellFormed(t) && Represents(g, m) && c in CommentsOn(t, id)
    ensures var t' := AfterPostDelete(t, id);
            CommentMeaning(m, t', c, t.comments[c], None, Some(c))(l) == if CascadeLink(t, c, l) then None else m(l)
  {
    CascadeCounts(t, id, c, t.comments[c].authorId);
  }

  lemma {:induction false} CascadeRepresents(t: Tables, id: string, g: Graph, m: Meaning, ids: seq<string>)
    requires WellFormed(t) && Represents(g, m)
    requires forall i :: 0 <= i < |ids| ==> ids[i] in CommentsOn(t, id)
    ensures Represents(NotifyCommentDeletes(g, AfterPostDelete(t, id), t, ids), CascadeMeaning(t, ids, m))
  {
    if ids == [] {
      RepresentsSame(g, m, CascadeMeaning(t, ids, m));
    } else {
      var c, rest, t' := ids[|ids| - 1], ids[..|ids| - 1], AfterPostDelete(t, id);
      CascadeRepresents(t, id, g, m, rest);
      var g1, m1 := NotifyCommentDeletes(g, t', t, rest), CascadeMeaning(t, rest, m);
      assert CommentOk(t, c) && PostOk(t, t.comments[c].postId);
      if t.comments[c].parentId.Some? { assert CommentOk(t, t.comments[c].parentId.value); }
      NotifyDeleteRepresents(g1, m1, t', c, t.comments[c]);
      var m2 := CommentMeaning(m1, t', c, t.comments[c], None, Some(c));
      forall l ensures m2(l) == CascadeMeaning(t, ids, m)(l) {
        CascadeStep(t, id, g1, m1, c, l);
        if CascadeLinks(t, rest, l) {
          var i :| 0 <= i < |rest| && CascadeLink(t, rest[i], l);
          assert CascadeLink(t, ids[i], l);
        }
        if CascadeLinks(t, ids, l) && !CascadeLink(t, c, l) {
          var i :| 0 <= i < |ids| && CascadeLink(t, ids[i], l);
          assert CascadeLink(t, rest[i], l);
        }
      }
      RepresentsSame(NotifyCommentDelete(g1, t', c, t.comments[c]), m2, CascadeMeaning(t, ids, m));
    }
  }

  lemma DeletePostCounts(t: Tables, id: string, a: string, p: string)
    requires WellFormed(t)
    ensures var t' := AfterPostDelete(t, id);
            && (p != id ==> CommentsBy(t', a, p, None) == CommentsBy(t, a, p, None))
            && (p !in CommentsOn(t, id) ==> RepliesBy(t', a, p, None) == RepliesBy(t, a, p, None))
  {
    var t' := AfterPostDelete(t, id);
    if p !in CommentsOn(t, id) {
      forall r | r in t.comments && t.comments[r].parentId == Some(p) ensures r in t'.comments { assert CommentOk(t, r); }
    }
  }

  predicate PostLink(t: Tables, id: string, l: Link)
    requires id in t.posts
  {
    var author, board := t.posts[id].authorId, BoardOfPost(t, id);
    l == Link('B', id, 'U', author, board) || l == Link('U', author, 'B', id, board)
  }

  /** The links that concern the post or a comment on it. */
  predicate Touches(t: Tables, id: string, l: Link) {
    || (l.srcKind == 'B' && l.dstKind == 'U' && l.src == id)
    || (l.srcKind == 'U' && l.dstKind == 'B' && l.dst == id)
    || (l.srcKind == 'C' && l.dstKind == 'U' && l.src in CommentsOn(t, id))
    || (l.srcKind == 'U' && l.dstKind == 'C' && l.dst in CommentsOn(t, id))
  }

  lemma DeletePostLinks(t: Tables, id: string, l: Link)
    requires WellFormed(t)
    ensures LinkWeight(AfterPostDelete(t, id), l) == if Touches(t, id, l) then None else LinkWeight(t, l)
  {
    var t' := AfterPostDelete(t, id);
    if l.srcKind == 'U' && l.dstKind == 'B' {
      DeletePostCounts(t, id, l.src, l.dst);
    } else if l.srcKind == 'U' && l.dstKind == 'C' {
      DeletePostCounts(t, id, l.src, l.dst);
    }
  }

  /** On a post without a board every link that loses its meaning is removed. */
  lemma BoardlessCovered(t: Tables, id: string, order: seq<string>, l: Link)
    requires WellFormed(t) && id in t.posts && CascadeOrder(t, id, order)
    requires CommentsOn(t, id) == {} || BoardOfPost(t, id) == ""
    requires Touches(t, id, l) && LinkWeight(t, l).Some?
    ensures PostLink(t, id, l) || CascadeLinks(t, order, l)
  {
    if l.srcKind == 'C' {
      var i :| 0 <= i < |order| && order[i] == l.src;
      assert CascadeLink(t, order[i], l);
    } else if l.dstKind == 'C' && t.comments[l.dst].authorId == l.src {
      var i :| 0 <= i < |order| && order[i] == l.dst;
      assert CascadeLink(t, order[i], l);
    } else if l.dstKind == 'C' {
      var r :| r in RepliesBy(t, l.src, l.dst, None);
      assert CommentOk(t, r) && r in CommentsOn(t, id);
      var i :| 0 <= i < |order| && order[i] == r;
      assert CascadeLink(t, order[i], l);
    } else if l.srcKind == 'U' && t.posts[id].authorId != l.src {
      var r :| r in CommentsBy(t, l.src, id, None);
      assert r in CommentsOn(t, id);
      var i :| 0 <= i < |order| && order[i] == r;
      assert CascadeLink(t, order[i], l);
    }
  }

  lemma CascadeTouches(t: Tables, id: string, order: seq<string>, l: Link)
    requires WellFormed(t) && CascadeOrder(t, id, order) && CascadeLinks(t, order, l)
    ensures Touches(t, id, l)
  {
    var i :| 0 <= i < |order| && CascadeLink(t, order[i], l);
    assert CommentOk(t, order[i]);
  }

  lemma DeletePostRepresents(s: State, id: string, order: seq<string>)
    requires WellFormed(s.t) && Agrees(s.g, s.t) && id in s.t.posts && CascadeOrder(s.t, id, order)
    ensures Represents(DeletePost(s, id, order).g,
                       l => if PostLink(s.t, id, l) || CascadeLinks(s.t, order, l) then None else LinkWeight(s.t, l))
  {
    var t, t' := s.t, AfterPostDelete(s.t, id);
    var m := (l: Link) => LinkWeight(t, l);
    CascadeRepresents(t, id, s.g, m, order);
    var g1, m1 := NotifyCommentDeletes(s.g, t', t, order), CascadeMeaning(t, order, m);
    var author, board := t.posts[id].authorId, BoardOfPost(t, id);
    assert PostOk(t, id);
    var l1, l2 := Link('B', id, 'U', author, board), Link('U', author, 'B', id, board);
    DeleteRepresents(g1, m1, l1);
    DeleteRepresents(DeleteEdge(g1, l1), Update(m1, l1, None), l2);
    RepresentsSame(DeletePost(s, id, order).g, Update(Update(m1, l1, None), l2, None),
                   l => if PostLink(t, id, l) || CascadeLinks(t, order, l) then None else LinkWeight(t, l));
  }

  /**
    Deleting a post keeps the graph right exactly when it had no comments or no named board: the
    cascaded comment triggers look up the board of a post that is no longer there, and get "".
   */
  lemma DeletePostAgreesIff(s: State, id: string, order: seq<string>)
    requires WellFormed(s.t) && Agrees(s.g, s.t) && id in s.t.posts && CascadeOrder(s.t, id, order)
    ensures var s' := DeletePost(s, id, order);
            WellFormed(s'.t) && (Agrees(s'.g, s'.t) <==> CommentsOn(s.t, id) == {} || BoardOfPost(s.t, id) == "")
  {
    var t, t', g' := s.t, DeletePost(s, id, order).t, DeletePost(s, id, order).g;
    forall c | c in t.comments && c !in CommentsOn(t, id) ensures t.comments[c].postId in t'.posts { assert CommentOk(t, c); }
    WithoutWellFormed(t, CommentsOn(t, id), t');
    DeletePostRepresents(s, id, order);
    var m' := (l: Link) => if PostLink(t, id, l) || CascadeLinks(t, order, l) then None else LinkWeight(t, l);
    var want := (l: Link) => LinkWeight(t', l);
    if CommentsOn(t, id) == {} || BoardOfPost(t, id) == "" {
      forall l ensures m'(l) == want(l) {
        DeletePostLinks(t, id, l);
        if CascadeLinks(t, order, l) { CascadeTouches(t, id, order, l); }
        if Touches(t, id, l) && LinkWeight(t, l).Some? { BoardlessCovered(t, id, order, l); }
      }
      RepresentsSame(g', m', want);
    } else if Agrees(g', t') {
      var c :| c in CommentsOn(t, id);
      var l := Link('C', c, 'U', t.comments[c].authorId, BoardOfPost(t, id));
      RepresentsOnce(g', m', want, l);
      DeletePostLinks(t, id, l);
      assert false;
    }
  }
}
