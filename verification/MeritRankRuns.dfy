/**
  Whole runs: after every run of safe statements the trigger-kept graph is the one a rebuild
  from the tables makes, and the per-user tickers never repeat.
 */
module MeritRankRuns {
  import opened Options
  import opened MeritRank
  import opened MeritRankProofs
  import opened MeritRankDeletes
  import opened MeritRankUpdates
  import opened MeritRankRebuild

  datatype Step =
    | AddPost(id: string, author: string, submolt: Option<string>)
    | RemovePost(id: string, order: seq<string>)
    | AddComment(id: string, author: string, post: string, parent: Option<string>)
    | RemoveComment(id: string)
    | Reingest(id: string, parent: Option<string>)
    | Subscribe(subject: string, target: string, amount: int)
    | Unsubscribe(subject: string, target: string)

  /** The statement succeeds: keys are fresh or present as it needs, and ids are plain. */
  ghost predicate Legal(t: Tables, step: Step) {
    match step
    case AddPost(id, author, _) => Plain(id) && Plain(author) && id !in t.posts
    case RemovePost(id, order) => id in t.posts && CascadeOrder(t, id, order)
    case AddComment(id, author, post, parent) => Insertable(t, id, author, post, parent)
    case RemoveComment(id) => id in t.comments
    case Reingest(id, parent) => Reingestible(t, id, parent)
    case Subscribe(subject, target, _) => Plain(subject) && Plain(target)
    case Unsubscribe(subject, target) => (subject, target) in t.subs
  }

  /** The triggers see everything the statement changes. */
  ghost predicate Safe(t: Tables, step: Step)
    requires Legal(t, step)
  {
    match step
    case RemovePost(id, _) => CommentsOn(t, id) == {} || BoardOfPost(t, id) == ""
    case RemoveComment(id) => OnlySelfReplies(t, id)
    case Reingest(id, parent) => SameReplies(t, id, parent)
    case _ => true
  }

  function Apply(s: State, step: Step): State
    requires Legal(s.t, step)
  {
    match step
    case AddPost(id, author, submolt) => InsertPost(s, id, author, submolt)
    case RemovePost(id, order) => DeletePost(s, id, order)
    case AddComment(id, author, post, parent) => InsertComment(s, id, author, post, parent)
    case RemoveComment(id) => DeleteComment(s, id)
    case Reingest(id, parent) => ReingestComment(s, id, parent)
    case Subscribe(subject, target, amount) => PutSubscription(s, subject, target, amount)
    case Unsubscribe(subject, target) => DeleteSubscription(s, subject, target)
  }

  /** One statement on an agreeing graph: it still agrees afterwards exactly when the statement is safe. */
  lemma StepAgreesIff(s: State, step: Step)
    requires WellFormed(s.t) && Agrees(s.g, s.t) && Legal(s.t, step)
    ensures WellFormed(Apply(s, step).t)
    ensures Agrees(Apply(s, step).g, Apply(s, step).t) <==> Safe(s.t, step)
  {
    match step
    case AddPost(id, author, submolt) => InsertPostAgrees(s, id, author, submolt);
    case RemovePost(id, order) => DeletePostAgreesIff(s, id, order);
    case AddComment(id, author, post, parent) => InsertCommentAgrees(s, id, author, post, parent);
    case RemoveComment(id) => DeleteCommentAgreesIff(s, id);
    case Reingest(id, parent) => ReingestAgreesIff(s, id, parent);
    case Subscribe(subject, target, amount) => PutSubscriptionAgrees(s, subject, target, amount);
    case Unsubscribe(subject, target) =>
      assert SubscriptionOk(s.t, (subject, target));
      DeleteSubscriptionAgrees(s, subject, target);
  }

  ghost predicate LegalRun(s: State, steps: seq<Step>)
    decreases |steps|
  {
    steps == [] || (Legal(s.t, steps[0]) && LegalRun(Apply(s, steps[0]), steps[1..]))
  }

  ghost predicate SafeRun(s: State, steps: seq<Step>)
    requires LegalRun(s, steps)
    decreases |steps|
  {
    steps == [] || (Safe(s.t, steps[0]) && SafeRun(Apply(s, steps[0]), steps[1..]))
  }

  ghost function Run(s: State, steps: seq<Step>): State
    requires LegalRun(s, steps)
    decreases |steps|
  {
    if steps == [] then s else Run(Apply(s, steps[0]), steps[1..])
  }

  ghost predicate AgreesThroughout(s: State, steps: seq<Step>)
    requires LegalRun(s, steps)
    decreases |steps|
  {
    Agrees(s.g, s.t) && (steps == [] || AgreesThroughout(Apply(s, steps[0]), steps[1..]))
  }

  /** Over a whole run the graph agrees with the tables after every statement exactly when every statement is safe. */
  lemma {:induction false} RunAgreesIff(s: State, steps: seq<Step>)
    requires WellFormed(s.t) && Agrees(s.g, s.t) && LegalRun(s, steps)
    ensures AgreesThroughout(s, steps) <==> SafeRun(s, steps)
    ensures SafeRun(s, steps) ==> WellFormed(Run(s, steps).t) && Agrees(Run(s, steps).g, Run(s, steps).t)
    decreases |steps|
  {
    if steps != [] {
      StepAgreesIff(s, steps[0]);
      if Safe(s.t, steps[0]) { RunAgreesIff(Apply(s, steps[0]), steps[1..]); }
    }
  }

  const Empty: State := State(Tables(map[], map[], map[], map[]), map[], map[])

  /** No posts, comments or subscriptions yet: only the boards. */
  function Start(submolts: map<string, string>): State {
    Empty.(t := Empty.t.(submolts := submolts))
  }

  lemma StartAgrees(submolts: map<string, string>)
    ensures WellFormed(Start(submolts).t) && Agrees(Start(submolts).g, Start(submolts).t)
  {
    var s := Start(submolts);
    forall k ensures Lookup(s.g, k) == Weight(s.t, k) {
      if Parse(k).Some? {
        assert CommentsBy(s.t, Parse(k).value.src, Parse(k).value.dst, None) == {};
        assert RepliesBy(s.t, Parse(k).value.src, Parse(k).value.dst, None) == {};
      }
    }
  }

  /** The incremental index is the rebuilt one. */
  lemma IncrementalEqualsRebuild(submolts: map<string, string>, steps: seq<Step>, rows: seq<BulkRow>)
    requires LegalRun(Start(submolts), steps) && SafeRun(Start(submolts), steps)
    requires BulkOrder(Run(Start(submolts), steps).t, rows)
    ensures Run(Start(submolts), steps).g == BulkLoad(Run(Start(submolts), steps).t, rows)
  {
    StartAgrees(submolts);
    RunAgreesIff(Start(submolts), steps);
    var s := Run(Start(submolts), steps);
    BulkLoadAgrees(s.t, rows);
    AgreesUnique(s.g, BulkLoad(s.t, rows), s.t);
  }

  // ---------- Runs the triggers do not cover ----------

  lemma StepFirst(s: State, step: Step, rest: seq<Step>)
    requires Legal(s.t, step) && Safe(s.t, step) && LegalRun(Apply(s, step), rest) && SafeRun(Apply(s, step), rest)
    ensures LegalRun(s, [step] + rest) && SafeRun(s, [step] + rest) && Run(s, [step] + rest) == Run(Apply(s, step), rest)
  {
    assert ([step] + rest)[1..] == rest;
  }

  /** A post and a comment on it by someone else, as two statements from the start. */
  lemma Commented(submolts: map<string, string>, board: Option<string>) returns (steps: seq<Step>)
    ensures LegalRun(Start(submolts), steps) && SafeRun(Start(submolts), steps)
    ensures var t := Run(Start(submolts), steps).t;
            && t.submolts == submolts && t.posts.Keys == {"p"} && t.posts["p"].submoltId == board
            && t.comments.Keys == {"x"} && t.comments["x"].postId == "p" && t.comments["x"].authorId == "ann"
  {
    var s, post, comment := Start(submolts), AddPost("p", "eve", board), AddComment("x", "ann", "p", None);
    var s1 := Apply(s, post);
    StepFirst(s1, comment, []);
    steps := [post] + ([comment] + []);
    StepFirst(s, post, [comment] + []);
  }

  lemma SafeRunAgrees(submolts: map<string, string>, steps: seq<Step>, last: Step)
    requires LegalRun(Start(submolts), steps) && SafeRun(Start(submolts), steps)
    requires Legal(Run(Start(submolts), steps).t, last) && !Safe(Run(Start(submolts), steps).t, last)
    ensures var s := Run(Start(submolts), steps); Agrees(s.g, s.t) && !Agrees(Apply(s, last).g, Apply(s, last).t)
  {
    StartAgrees(submolts);
    RunAgreesIff(Start(submolts), steps);
    StepAgreesIff(Run(Start(submolts), steps), last);
  }

  const OneBoard: map<string, string> := map["m" := "general"]

  /** A post on a named board, a comment on it, and the post deleted: the comment's edge stays behind. */
  lemma CascadeLeavesEdges() returns (steps: seq<Step>, last: Step)
    ensures LegalRun(Start(OneBoard), steps) && SafeRun(Start(OneBoard), steps)
    ensures last.RemovePost? && Legal(Run(Start(OneBoard), steps).t, last)
    ensures var s := Run(Start(OneBoard), steps); Agrees(s.g, s.t) && !Agrees(Apply(s, last).g, Apply(s, last).t)
  {
    steps := Commented(OneBoard, Some("m"));
    last := RemovePost("p", ["x"]);
    var t := Run(Start(OneBoard), steps).t;
    assert CommentsOn(t, "p") == {"x"};
    assert BoardOfPost(t, "p") == "general";
    SafeRunAgrees(OneBoard, steps, last);
  }

  /** A comment, someone else's reply to it, and the comment deleted: the replier's edge stays behind. */
  lemma DeletionLeavesEdges(submolts: map<string, string>) returns (steps: seq<Step>, last: Step)
    ensures LegalRun(Start(submolts), steps) && SafeRun(Start(submolts), steps)
    ensures last.RemoveComment? && Legal(Run(Start(submolts), steps).t, last)
    ensures var s := Run(Start(submolts), steps); Agrees(s.g, s.t) && !Agrees(Apply(s, last).g, Apply(s, last).t)
  {
    var first := Commented(submolts, None);
    var s := Run(Start(submolts), first);
    var reply := AddComment("y", "joe", "p", Some("x"));
    StepLast(Start(submolts), first, reply);
    steps, last := first + [reply], RemoveComment("x");
    var t := Run(Start(submolts), steps).t;
    assert t.comments["y"].parentId == Some("x") && t.comments["y"].authorId == "joe" && t.comments["x"].authorId == "ann";
    SafeRunAgrees(submolts, steps, last);
  }

  /** Two comments, and the second turns out to be a reply to the first: the reply is not counted. */
  lemma ReingestionMissesEdge(submolts: map<string, string>) returns (steps: seq<Step>, last: Step)
    ensures LegalRun(Start(submolts), steps) && SafeRun(Start(submolts), steps)
    ensures last.Reingest? && Legal(Run(Start(submolts), steps).t, last)
    ensures var s := Run(Start(submolts), steps); Agrees(s.g, s.t) && !Agrees(Apply(s, last).g, Apply(s, last).t)
  {
    var first := Commented(submolts, None);
    var s := Run(Start(submolts), first);
    var comment := AddComment("y", "joe", "p", None);
    StepLast(Start(submolts), first, comment);
    steps, last := first + [comment], Reingest("y", Some("x"));
    var t := Run(Start(submolts), steps).t;
    assert t.comments["y"].parentId == None && t.comments["y"].authorId == "joe" && t.comments["x"].authorId == "ann";
    SafeRunAgrees(submolts, steps, last);
  }

  lemma {:induction false} StepLast(s: State, steps: seq<Step>, step: Step)
    requires LegalRun(s, steps) && SafeRun(s, steps) && Legal(Run(s, steps).t, step) && Safe(Run(s, steps).t, step)
    ensures LegalRun(s, steps + [step]) && SafeRun(s, steps + [step]) && Run(s, steps + [step]) == Apply(Run(s, steps), step)
    decreases |steps|
  {
    if steps == [] {
      assert steps + [step] == [step] + [];
      StepFirst(s, step, []);
    } else {
      StepLast(Apply(s, steps[0]), steps[1..], step);
      assert steps + [step] == [steps[0]] + (steps[1..] + [step]);
      StepFirst(s, steps[0], steps[1..] + [step]);
    }
  }

  // ---------- Tickers ----------

  datatype RowRef = PostRef(id: string) | CommentRef(id: string) | SubscriptionRef(pair: (string, string))

  predicate Present(t: Tables, r: RowRef) {
    match r
    case PostRef(id) => id in t.posts
    case CommentRef(id) => id in t.comments
    case SubscriptionRef(pair) => pair in t.subs
  }

  function Owner(t: Tables, r: RowRef): string
    requires Present(t, r)
  {
    match r
    case PostRef(id) => t.posts[id].authorId
    case CommentRef(id) => t.comments[id].authorId
    case SubscriptionRef(pair) => pair.0
  }

  function Ticker(t: Tables, r: RowRef): nat
    requires Present(t, r)
  {
    match r
    case PostRef(id) => t.posts[id].ticker
    case CommentRef(id) => t.comments[id].ticker
    case SubscriptionRef(pair) => t.subs[pair].ticker
  }

  /** Every row carries a tick its owner's counter has reached, and no other row of that owner carries it. */
  ghost predicate TickersOk(s: State) {
    && (forall r :: Present(s.t, r) ==> Owner(s.t, r) in s.vsids && 0 < Ticker(s.t, r) <= s.vsids[Owner(s.t, r)])
    && (forall r, q :: Present(s.t, r) && Present(s.t, q) && r != q && Owner(s.t, r) == Owner(s.t, q) ==>
          Ticker(s.t, r) != Ticker(s.t, q))
  }

  /** `s'` keeps the rows of `s` with their ticks, loses some, and puts at most `changed` with a new tick of its owner. */
  ghost predicate TickStep(s: State, s': State, changed: Option<RowRef>) {
    && (forall r :: Present(s'.t, r) && Some(r) != changed ==>
          Present(s.t, r) && Owner(s.t, r) == Owner(s'.t, r) && Ticker(s.t, r) == Ticker(s'.t, r))
    && (changed.None? ==> forall u :: u in s.vsids ==> u in s'.vsids && s.vsids[u] <= s'.vsids[u])
    && (changed.Some? ==>
          && Present(s'.t, changed.value)
          && s'.vsids == BumpVsids(s.vsids, Owner(s'.t, changed.value))
          && Ticker(s'.t, changed.value) == s'.vsids[Owner(s'.t, changed.value)])
  }

  lemma TickStepKeeps(s: State, s': State, changed: Option<RowRef>)
    requires TickersOk(s) && TickStep(s, s', changed)
    ensures TickersOk(s')
  {
  }

  function ChangedRow(step: Step): Option<RowRef> {
    match step
    case AddPost(id, _, _) => Some(PostRef(id))
    case AddComment(id, _, _, _) => Some(CommentRef(id))
    case Subscribe(subject, target, _) => Some(SubscriptionRef((subject, target)))
    case _ => None
  }

  lemma PostTicks(s: State, id: string, author: string, submolt: Option<string>)
    requires id !in s.t.posts
    ensures TickStep(s, InsertPost(s, id, author, submolt), Some(PostRef(id)))
  {
  }

  lemma CommentTicks(s: State, id: string, author: string, post: string, parent: Option<string>)
    requires id !in s.t.comments
    ensures TickStep(s, InsertComment(s, id, author, post, parent), Some(CommentRef(id)))
  {
  }

  lemma ReingestTicks(s: State, id: string, parent: Option<string>)
    requires id in s.t.comments
    ensures TickStep(s, ReingestComment(s, id, parent), None)
  {
  }

  lemma SubscriptionTicks(s: State, subject: string, target: string, amount: int)
    ensures TickStep(s, PutSubscription(s, subject, target, amount), Some(SubscriptionRef((subject, target))))
  {
  }

  lemma StepTicks(s: State, step: Step)
    requires Legal(s.t, step)
    ensures TickStep(s, Apply(s, step), ChangedRow(step))
  {
    match step
    case AddPost(id, author, submolt) => PostTicks(s, id, author, submolt);
    case RemovePost(_, _) =>
    case AddComment(id, author, post, parent) => CommentTicks(s, id, author, post, parent);
    case RemoveComment(_) =>
    case Reingest(id, parent) => ReingestTicks(s, id, parent);
    case Subscribe(subject, target, amount) => SubscriptionTicks(s, subject, target, amount);
    case Unsubscribe(_, _) =>
  }

  /** No user's tick is ever carried by two of their rows, safe or not. */
  lemma {:induction false} RunKeepsTickers(s: State, steps: seq<Step>)
    requires TickersOk(s) && LegalRun(s, steps)
    ensures TickersOk(Run(s, steps))
    decreases |steps|
  {
    if steps != [] {
      StepTicks(s, steps[0]);
      TickStepKeeps(s, Apply(s, steps[0]), ChangedRow(steps[0]));
      RunKeepsTickers(Apply(s, steps[0]), steps[1..]);
    }
  }

  /** From the start on. */
  lemma TickersFromStart(submolts: map<string, string>, steps: seq<Step>)
    requires LegalRun(Start(submolts), steps)
    ensures TickersOk(Run(Start(submolts), steps))
  {
    RunKeepsTickers(Start(submolts), steps);
  }
}
