/**
  Upserting a stored comment, which may give it another parent without a trigger.
 */
module MeritRankUpdates {
  import opened Options
  import opened MeritRank
  import opened MeritRankProofs
  import opened MeritRankDeletes

  function Reparented(t: Tables, id: string, parent: Option<string>): Tables
    requires id in t.comments
  {
    t.(comments := t.comments[id := t.comments[id].(parentId := parent)])
  }

  /** The payload's parent, if it has one, is a comment on the same post. */
  predicate Reingestible(t: Tables, id: string, parent: Option<string>) {
    id in t.comments && (parent.Some? ==> OnPost(t, parent.value, t.comments[id].postId))
  }

  /** No parent, or one by the comment's own author: replying to it adds no weight. */
  predicate OwnParent(t: Tables, id: string, parent: Option<string>)
    requires id in t.comments
  {
    parent.Some? ==> parent.value in t.comments && t.comments[parent.value].authorId == t.comments[id].authorId
  }

  /** The parent stays as it is, or neither the old one nor the new one is someone else's comment. */
  predicate SameReplies(t: Tables, id: string, parent: Option<string>)
    requires id in t.comments
  {
    var before := t.comments[id].parentId;
    var after := MergedParent(parent, before);
    after == before || (OwnParent(t, id, before) && OwnParent(t, id, after))
  }

  lemma ReparentedWellFormed(t: Tables, id: string, parent: Option<string>)
    requires WellFormed(t) && Reingestible(t, id, parent)
    ensures WellFormed(Reparented(t, id, parent))
  {
    var t' := Reparented(t, id, parent);
    forall p ensures PostOk(t', p) { assert PostOk(t, p); }
    forall x ensures CommentOk(t', x) { assert CommentOk(t, x); }
    forall p ensures SubscriptionOk(t', p) { assert SubscriptionOk(t, p); }
  }

  lemma ReparentedComments(t: Tables, id: string, parent: Option<string>, a: string, p: string)
    requires id in t.comments
    ensures CommentsBy(Reparented(t, id, parent), a, p, None) == CommentsBy(t, a, p, None)
  {
  }

  lemma ReparentedReplies(t: Tables, id: string, parent: Option<string>, a: string, q: string)
    requires id in t.comments && parent != t.comments[id].parentId
    ensures var c, t' := t.comments[id], Reparented(t, id, parent);
            RepliesBy(t', a, q, None) ==
            if a == c.authorId && Some(q) == parent then RepliesBy(t, a, q, None) + {id}
            else if a == c.authorId && Some(q) == c.parentId then RepliesBy(t, a, q, None) - {id}
            else RepliesBy(t, a, q, None)
  {
  }

  /** Only the edges from the comment's author to the old and the new parent can change. */
  lemma ReparentedLinks(t: Tables, id: string, parent: Option<string>, x: Link)
    requires id in t.comments && parent != t.comments[id].parentId
    requires x.srcKind == 'U' && x.dstKind == 'C' && x.src == t.comments[id].authorId ==>
               Some(x.dst) != parent && Some(x.dst) != t.comments[id].parentId
    ensures LinkWeight(Reparented(t, id, parent), x) == LinkWeight(t, x)
  {
    ReparentedComments(t, id, parent, x.src, x.dst);
    ReparentedReplies(t, id, parent, x.src, x.dst);
  }

  /** And they do not if the comment on the other end is the author's own. */
  lemma OwnLinks(t: Tables, id: string, parent: Option<string>, x: Link)
    requires id in t.comments && x.srcKind == 'U' && x.dstKind == 'C' && x.src == t.comments[id].authorId
    requires x.dst in t.comments && t.comments[x.dst].authorId == x.src
    ensures LinkWeight(Reparented(t, id, parent), x) == LinkWeight(t, x)
  {
  }

  lemma CountsDiffer(s: set<string>, id: string, a: set<string>)
    requires (id !in s && a == s + {id}) || (id in s && a == s - {id})
    ensures CountWeight(|a|) != CountWeight(|s|)
  {
  }

  /** But the edge to someone else's comment does, by one reply. */
  lemma OthersLink(t: Tables, id: string, parent: Option<string>, q: string)
    requires WellFormed(t) && id in t.comments && parent != t.comments[id].parentId
    requires q in t.comments && t.comments[q].authorId != t.comments[id].authorId
    requires Some(q) == parent || Some(q) == t.comments[id].parentId
    ensures var x := Link('U', t.comments[id].authorId, 'C', q, BoardOfPost(t, t.comments[q].postId));
            LinkWeight(Reparented(t, id, parent), x) != LinkWeight(t, x)
  {
    var a := t.comments[id].authorId;
    ReparentedReplies(t, id, parent, a, q);
    CountsDiffer(RepliesBy(t, a, q, None), id, RepliesBy(Reparented(t, id, parent), a, q, None));
  }

  lemma SameRepliesLinks(t: Tables, id: string, parent: Option<string>, x: Link)
    requires id in t.comments
    requires parent == t.comments[id].parentId || (OwnParent(t, id, t.comments[id].parentId) && OwnParent(t, id, parent))
    ensures LinkWeight(Reparented(t, id, parent), x) == LinkWeight(t, x)
  {
    if parent == t.comments[id].parentId {
      assert Reparented(t, id, parent).comments == t.comments;
    } else if x.srcKind == 'U' && x.dstKind == 'C' && x.src == t.comments[id].authorId
              && (Some(x.dst) == parent || Some(x.dst) == t.comments[id].parentId) {
      OwnLinks(t, id, parent, x);
    } else {
      ReparentedLinks(t, id, parent, x);
    }
  }

  /**
    Upserting a stored comment keeps the graph right exactly when its parent stays, or neither the parent it had nor
    the one it gets is someone else's comment: there is no trigger on updates, so a changed reply count goes unnoticed.
   */
  lemma ReingestAgreesIff(s: State, id: string, parent: Option<string>)
    requires WellFormed(s.t) && Agrees(s.g, s.t) && Reingestible(s.t, id, parent)
    ensures var s' := ReingestComment(s, id, parent);
            WellFormed(s'.t) && (Agrees(s'.g, s'.t) <==> SameReplies(s.t, id, parent))
  {
    var t, c := s.t, s.t.comments[id];
    var merged := MergedParent(parent, c.parentId);
    assert CommentOk(t, id);
    ReparentedWellFormed(t, id, merged);
    var t' := Reparented(t, id, merged);
    var m, m' := (l: Link) => LinkWeight(t, l), (l: Link) => LinkWeight(t', l);
    if SameReplies(t, id, parent) {
      forall x ensures m(x) == m'(x) { SameRepliesLinks(t, id, merged, x); }
      RepresentsSame(s.g, m, m');
    } else if Agrees(s.g, t') {
      var q := if OwnParent(t, id, merged) then c.parentId.value else merged.value;
      OthersLink(t, id, merged, q);
      RepresentsOnce(s.g, m, m', Link('U', c.authorId, 'C', q, BoardOfPost(t, t.comments[q].postId)));
      assert false;
    }
  }
}
