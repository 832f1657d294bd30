/**
  No permit is lost, duplicated or left idle, whatever the interleaving.
 */
module BackpressureProofs {
  import opened Collections
  import opened Options
  import opened RouteGroups
  import opened Backpressure

  // ---------- The invariant ----------

  /** One semaphore: free permits, held permits and the one in transit, if any, make its capacity; a free permit means nobody waits. */
  ghost predicate Balanced(s: State, p: Permit, capacity: int, loose: bool) {
    && p in s.free && s.free[p] >= 0
    && s.free[p] + |Holders(s, p)| + Bit(loose) == capacity
    && (s.free[p] > 0 ==> Waiters(s, p) == {})
  }

  ghost predicate Conserved(s: State, caps: Counts, loose: set<Permit>) {
    forall p :: p in caps ==> Balanced(s, p, caps[p], p in loose)
  }

  /** Only requests of a group with a semaphore wait for or hold its permits. */
  ghost predicate Covered(caps: Counts) {
    Global in caps && forall g: RouteGroup :: !g.Exempt? ==> Group(g) in caps
  }

  lemma Without(ids: set<Id>, r: Id)
    ensures |ids| == |ids - {r}| + Bit(r in ids)
  {
    if r !in ids { assert ids - {r} == ids; }
  }

  lemma HoldersMoved(s: State, r: Id, q: Request, p: Permit)
    ensures var s' := s.(requests := s.requests[r := q]);
            |Holders(s', p)| == |Holders(s, p)| - Bit(r in s.requests && Holds(s.requests[r], p)) + Bit(Holds(q, p))
  {
    var s' := s.(requests := s.requests[r := q]);
    assert Holders(s', p) - {r} == Holders(s, p) - {r};
    Without(Holders(s, p), r);
    Without(Holders(s', p), r);
  }

  lemma WaitersMoved(s: State, r: Id, q: Request, p: Permit)
    ensures Waiters(s.(requests := s.requests[r := q]), p) == if Waits(q, p) then Waiters(s, p) + {r} else Waiters(s, p) - {r}
  {
  }

  /** One request moves: what it lets go is in transit, what it takes was, and it waits only where nothing is free. */
  lemma MoveBalanced(s: State, r: Id, q: Request, p: Permit, capacity: int, loose: bool, loose': bool)
    requires Balanced(s, p, capacity, loose)
    requires Bit(loose) + Bit(r in s.requests && Holds(s.requests[r], p)) == Bit(loose') + Bit(Holds(q, p))
    requires Waits(q, p) ==> s.free[p] == 0
    ensures Balanced(s.(requests := s.requests[r := q]), p, capacity, loose')
  {
    HoldersMoved(s, r, q, p);
    WaitersMoved(s, r, q, p);
  }

  lemma TakeBalanced(s: State, p: Permit, x: Permit, capacity: int, loose: bool)
    requires Balanced(s, x, capacity, loose) && CanTake(s, p) && (x == p ==> !loose)
    ensures Balanced(Take(s, p), x, capacity, loose || x == p)
  {
    assert Holders(Take(s, p), x) == Holders(s, x) && Waiters(Take(s, p), x) == Waiters(s, x);
  }

  lemma FreeBalanced(s: State, p: Permit, x: Permit, capacity: int, loose: bool)
    requires Balanced(s, x, capacity, loose) && (x == p ==> loose && Waiters(s, p) == {})
    ensures Balanced(s.(free := s.free[p := Count(s, p) + 1]), x, capacity, loose && x != p)
  {
    var s' := s.(free := s.free[p := Count(s, p) + 1]);
    assert Holders(s', x) == Holders(s, x) && Waiters(s', x) == Waiters(s, x);
  }

  /** Giving back a permit in transit settles it. */
  lemma GiveConserves(s: State, caps: Counts, loose: set<Permit>, p: Permit, next: Option<Id>)
    requires Conserved(s, caps, loose) && p in loose && NextOk(s, p, next) && (p.Group? ==> !p.group.Exempt?)
    ensures Conserved(Give(s, p, next), caps, loose - {p})
  {
    forall x | x in caps ensures Balanced(Give(s, p, next), x, caps[x], x in loose - {p}) {
      assert Balanced(s, x, caps[x], x in loose);
      if next.Some? {
        var q := s.requests[next.value];
        MoveBalanced(s, next.value, q.(phase := Granted(p)), x, caps[x], x in loose, x in loose - {p});
      } else {
        FreeBalanced(s, p, x, caps[x], x in loose);
      }
    }
  }

  // ---------- Every step keeps it ----------

  lemma ArriveConserves(s: State, caps: Counts, r: Id, g: RouteGroup, now: real)
    requires Conserved(s, caps, {}) && r !in s.requests && Covered(caps)
    ensures Conserved(Arrived(s, r, g, now), caps, {})
  {
    assert Balanced(s, Global, caps[Global], false);
    forall x | x in caps ensures Balanced(Arrived(s, r, g, now), x, caps[x], false) {
      assert Balanced(s, x, caps[x], false);
      if CanTake(s, Global) {
        TakeBalanced(s, Global, x, caps[x], false);
        MoveBalanced(Take(s, Global), r, Request(g, now, GotGlobal), x, caps[x], x == Global, false);
      } else {
        MoveBalanced(s, r, Request(g, now, WaitGlobal(now)), x, caps[x], false, false);
      }
    }
  }

  lemma ProceedConserves(s: State, caps: Counts, r: Id, now: real)
    requires Conserved(s, caps, {}) && r in s.requests && s.requests[r].phase.GotGlobal? && Covered(caps)
    ensures Conserved(Proceeded(s, r, now), caps, {})
  {
    var q := s.requests[r];
    var own := Group(q.group);
    if !q.group.Exempt? { assert Balanced(s, own, caps[own], false); }
    forall x | x in caps ensures Balanced(Proceeded(s, r, now), x, caps[x], false) {
      assert Balanced(s, x, caps[x], false);
      if q.group.Exempt? {
        MoveBalanced(s, r, q.(phase := Running), x, caps[x], false, false);
      } else if CanTake(s, own) {
        TakeBalanced(s, own, x, caps[x], false);
        MoveBalanced(Take(s, own), r, q.(phase := Running), x, caps[x], x == own, false);
      } else {
        MoveBalanced(s, r, q.(phase := WaitGroup(now)), x, caps[x], false, false);
      }
    }
  }

  /** What a request holds is in transit once it ends. */
  lemma EndConserves(s: State, caps: Counts, r: Id, phase: Phase, loose: set<Permit>)
    requires Conserved(s, caps, {}) && r in s.requests && (phase.Refused? || phase.Finished?)
    requires forall p :: p in loose <==> Holds(s.requests[r], p)
    ensures Conserved(Moved(s, r, phase), caps, loose)
  {
    forall x | x in caps ensures Balanced(Moved(s, r, phase), x, caps[x], x in loose) {
      assert Balanced(s, x, caps[x], false);
      MoveBalanced(s, r, s.requests[r].(phase := phase), x, caps[x], false, x in loose);
    }
  }

  lemma ReleaseConserves(s: State, caps: Counts, r: Id, nextInGroup: Option<Id>, next: Option<Id>)
    requires Conserved(s, caps, {}) && ReleaseOk(s, r, nextInGroup, next)
    ensures Conserved(Released(s, r, nextInGroup, next), caps, {})
  {
    var g, done := s.requests[r].group, Moved(s, r, Finished);
    if g.Exempt? {
      EndConserves(s, caps, r, Finished, {Global});
      GiveConserves(done, caps, {Global}, Global, next);
    } else {
      EndConserves(s, caps, r, Finished, {Global, Group(g)});
      GiveConserves(done, caps, {Global, Group(g)}, Group(g), nextInGroup);
      assert {Global, Group(g)} - {Group(g)} == {Global};
      GiveConserves(Give(done, Group(g), nextInGroup), caps, {Global}, Global, next);
    }
    assert {Global} - {Global} == {};
  }

  lemma TimeoutsConserve(s: State, caps: Counts, step: Step)
    requires Conserved(s, caps, {}) && Enabled(s, step) && (step.TimeoutGlobal? || step.TimeoutGroup?)
    ensures Conserved(Apply(s, step), caps, {})
  {
    if step.TimeoutGlobal? {
      EndConserves(s, caps, step.r, Refused(step.now), {});
    } else {
      EndConserves(s, caps, step.r, Refused(step.now), {Global});
      GiveConserves(Moved(s, step.r, Refused(step.now)), caps, {Global}, Global, step.next);
      assert {Global} - {Global} == {};
    }
  }

  lemma StepConserves(s: State, caps: Counts, step: Step)
    requires Conserved(s, caps, {}) && Enabled(s, step) && Covered(caps)
    ensures Conserved(Apply(s, step), caps, {})
  {
    match step
    case Arrive(r, g, now) => ArriveConserves(s, caps, r, g, now);
    case Proceed(r, now) => ProceedConserves(s, caps, r, now);
    case Release(r, _, nextInGroup, next) => ReleaseConserves(s, caps, r, nextInGroup, next);
    case _ => TimeoutsConserve(s, caps, step);
  }

  /** In every state of every interleaving. */
  lemma {:induction false} RunConserves(s: State, caps: Counts, steps: seq<Step>, now: real)
    requires Conserved(s, caps, {}) && IsRun(s, steps, now) && Covered(caps)
    ensures Conserved(Run(s, steps, now), caps, {})
    decreases |steps|
  {
    if steps != [] {
      StepConserves(s, caps, steps[0]);
      RunConserves(Apply(s, steps[0]), caps, steps[1..], steps[0].now);
    }
  }

  lemma StartConserved(settings: Settings)
    ensures Conserved(Start(settings), Capacities(settings), {}) && Covered(Capacities(settings))
  {
    forall p | p in Capacities(settings) ensures Balanced(Start(settings), p, Capacities(settings)[p], false) {
      assert Holders(Start(settings), p) == {};
    }
  }

  // ---------- What it means ----------

  /** The requests of a group that are being served. */
  function RunningIn(s: State, g: RouteGroup): set<Id> {
    set r | r in s.requests && s.requests[r].group == g && s.requests[r].phase.Running?
  }

  function RunningAll(s: State): set<Id> {
    set r | r in s.requests && s.requests[r].phase.Running?
  }

  /** Never more requests are served than the global cap, nor more of a group than its cap. */
  lemma RunningWithinCaps(s: State, caps: Counts, g: RouteGroup)
    requires Conserved(s, caps, {}) && Covered(caps)
    ensures |RunningAll(s)| <= caps[Global]
    ensures !g.Exempt? ==> |RunningIn(s, g)| <= caps[Group(g)]
  {
    assert Balanced(s, Global, caps[Global], false);
    SubsetSize(RunningAll(s), Holders(s, Global));
    if !g.Exempt? {
      assert Balanced(s, Group(g), caps[Group(g)], false);
      assert RunningIn(s, g) == Holders(s, Group(g));
    }
  }

  /** Once every request has ended all permits are back. */
  lemma AllPermitsBack(s: State, caps: Counts)
    requires Conserved(s, caps, {}) && forall r :: r in s.requests ==> !InFlight(s.requests[r])
    ensures forall p :: p in caps ==> p in s.free && s.free[p] == caps[p]
  {
    forall p | p in caps ensures p in s.free && s.free[p] == caps[p] {
      assert Balanced(s, p, caps[p], false);
      assert Holders(s, p) == {};
    }
  }

  /** A request waits, and so can be refused, only while others hold every permit of that semaphore. */
  lemma RefusedOnlyWhenFull(s: State, caps: Counts, r: Id, p: Permit)
    requires Conserved(s, caps, {}) && p in caps && r in s.requests && Waits(s.requests[r], p)
    ensures |Holders(s, p)| == caps[p] && r !in Holders(s, p)
  {
    assert Balanced(s, p, caps[p], false);
    assert r in Waiters(s, p);
  }

  /** With no step of another request between, a refusal by the group leaves every count as it was before the attempt. */
  lemma RefusalRestores(s: State, r: Id, g: RouteGroup, now: real, later: real, next: Option<Id>)
    requires r !in s.requests && CanTake(s, Global) && !g.Exempt? && !CanTake(s, Group(g))
    requires NextOk(Moved(Proceeded(Arrived(s, r, g, now), r, now), r, Refused(later)), Global, next)
    ensures GroupTimedOut(Proceeded(Arrived(s, r, g, now), r, now), r, later, next).free == s.free
  {
    var taken := Arrived(s, r, g, now);
    assert Waiters(taken, Group(g)) == Waiters(s, Group(g));
    var waiting := Proceeded(taken, r, now);
    assert Waiters(Moved(waiting, r, Refused(later)), Global) == Waiters(s, Global);
    assert s.free[Global := s.free[Global] - 1][Global := s.free[Global]] == s.free;
  }

  /** And so does one that was admitted and then released. */
  lemma ReleaseRestores(s: State, r: Id, g: RouteGroup, now: real, nextInGroup: Option<Id>, next: Option<Id>)
    requires r !in s.requests && CanTake(s, Global) && (!g.Exempt? ==> CanTake(s, Group(g)))
    requires ReleaseOk(Proceeded(Arrived(s, r, g, now), r, now), r, nextInGroup, next)
    ensures Released(Proceeded(Arrived(s, r, g, now), r, now), r, nextInGroup, next).free == s.free
  {
    var taken := Arrived(s, r, g, now);
    assert Waiters(taken, Group(g)) == Waiters(s, Group(g));
    var running := Proceeded(taken, r, now);
    var done := Moved(running, r, Finished);
    assert Waiters(done, Global) == Waiters(s, Global) && Waiters(done, Group(g)) == Waiters(s, Group(g));
    var released := GroupReleased(done, g, nextInGroup);
    assert released.requests == done.requests;
    assert Waiters(released, Global) == {};
    assert Released(running, r, nextInGroup, next).free == s.free;
  }

  // ---------- An ended request leaves no trace ----------

  /** The state as if `r` had never come. */
  function Erased(s: State, r: Id): State {
    s.(requests := s.requests - {r})
  }

  ghost predicate Ended(s: State, r: Id) {
    r in s.requests && !InFlight(s.requests[r])
  }

  lemma ErasedSets(s: State, r: Id, p: Permit)
    requires Ended(s, r)
    ensures Holders(Erased(s, r), p) == Holders(s, p) && Waiters(Erased(s, r), p) == Waiters(s, p) && r !in Waiters(s, p)
  {
  }

  lemma ErasedMove(s: State, r: Id, x: Id, q: Request)
    requires x != r
    ensures Erased(s, r).(requests := Erased(s, r).requests[x := q]) == Erased(s.(requests := s.requests[x := q]), r)
  {
    assert (s.requests - {r})[x := q] == s.requests[x := q] - {r};
  }

  lemma ErasedGive(s: State, r: Id, p: Permit, next: Option<Id>)
    requires Ended(s, r)
    ensures NextOk(Erased(s, r), p, next) <==> NextOk(s, p, next)
    ensures NextOk(s, p, next) ==> Give(Erased(s, r), p, next) == Erased(Give(s, p, next), r) && Ended(Give(s, p, next), r)
  {
    ErasedSets(s, r, p);
    if NextOk(s, p, next) && next.Some? { ErasedMove(s, r, next.value, s.requests[next.value].(phase := Granted(p))); }
  }

  lemma ErasedMoved(s: State, r: Id, x: Id, phase: Phase)
    requires Ended(s, r) && x != r && x in s.requests
    ensures Moved(Erased(s, r), x, phase) == Erased(Moved(s, x, phase), r) && Ended(Moved(s, x, phase), r)
  {
    ErasedMove(s, r, x, s.requests[x].(phase := phase));
  }

  lemma ErasedArrive(s: State, r: Id, x: Id, g: RouteGroup, now: real)
    requires Ended(s, r) && x != r && x !in s.requests
    ensures Arrived(Erased(s, r), x, g, now) == Erased(Arrived(s, x, g, now), r) && Ended(Arrived(s, x, g, now), r)
  {
    ErasedSets(s, r, Global);
    ErasedMove(s, r, x, Request(g, now, GotGlobal));
    ErasedMove(s, r, x, Request(g, now, WaitGlobal(now)));
  }

  lemma ErasedProceed(s: State, r: Id, x: Id, now: real)
    requires Ended(s, r) && x != r && x in s.requests && s.requests[x].phase.GotGlobal?
    ensures Proceeded(Erased(s, r), x, now) == Erased(Proceeded(s, x, now), r) && Ended(Proceeded(s, x, now), r)
  {
    var p := Group(s.requests[x].group);
    ErasedSets(s, r, p);
    ErasedMoved(s, r, x, Running);
    ErasedMoved(s, r, x, WaitGroup(now));
    ErasedMoved(Take(s, p), r, x, Running);
    assert Take(Erased(s, r), p) == Erased(Take(s, p), r);
  }

  lemma ErasedRelease(s: State, r: Id, x: Id, nextInGroup: Option<Id>, next: Option<Id>)
    requires Ended(s, r) && x != r
    ensures ReleaseOk(Erased(s, r), x, nextInGroup, next) <==> ReleaseOk(s, x, nextInGroup, next)
    ensures ReleaseOk(s, x, nextInGroup, next) ==>
              && Released(Erased(s, r), x, nextInGroup, next) == Erased(Released(s, x, nextInGroup, next), r)
              && Ended(Released(s, x, nextInGroup, next), r)
  {
    if x in s.requests && s.requests[x].phase.Running? {
      var done, g := Moved(s, x, Finished), s.requests[x].group;
      ErasedMoved(s, r, x, Finished);
      if !g.Exempt? { ErasedGive(done, r, Group(g), nextInGroup); }
      if !g.Exempt? ==> NextOk(done, Group(g), nextInGroup) { ErasedGive(GroupReleased(done, g, nextInGroup), r, Global, next); }
    }
  }

  lemma ErasedTimeout(s: State, r: Id, x: Id, now: real, next: Option<Id>)
    requires Ended(s, r) && x != r && x in s.requests
    ensures NextOk(Moved(Erased(s, r), x, Refused(now)), Global, next) <==> NextOk(Moved(s, x, Refused(now)), Global, next)
    ensures NextOk(Moved(s, x, Refused(now)), Global, next) ==>
              GroupTimedOut(Erased(s, r), x, now, next) == Erased(GroupTimedOut(s, x, now, next), r) && Ended(GroupTimedOut(s, x, now, next), r)
  {
    ErasedMoved(s, r, x, Refused(now));
    ErasedGive(Moved(s, x, Refused(now)), r, Global, next);
  }

  lemma StepErased(s: State, r: Id, step: Step)
    requires Ended(s, r) && step.r != r
    ensures Enabled(Erased(s, r), step) <==> Enabled(s, step)
    ensures Enabled(s, step) ==> Apply(Erased(s, r), step) == Erased(Apply(s, step), r) && Ended(Apply(s, step), r)
  {
    match step
    case Arrive(x, g, now) => if x !in s.requests { ErasedArrive(s, r, x, g, now); }
    case Proceed(x, now) => if Enabled(s, step) { ErasedProceed(s, r, x, now); }
    case TimeoutGlobal(x, now) => if x in s.requests { ErasedMoved(s, r, x, Refused(now)); }
    case TimeoutGroup(x, now, next) => if x in s.requests { ErasedTimeout(s, r, x, now, next); }
    case Release(x, _, nextInGroup, next) => ErasedRelease(s, r, x, nextInGroup, next);
  }

  lemma ErasedConserved(s: State, caps: Counts, r: Id)
    requires Conserved(s, caps, {}) && Ended(s, r)
    ensures Conserved(Erased(s, r), caps, {})
  {
    forall p | p in caps ensures Balanced(Erased(s, r), p, caps[p], false) {
      assert Balanced(s, p, caps[p], false);
      ErasedSets(s, r, p);
    }
  }

  /**
    From its end on, a request that was refused or released makes no difference: without it the permits are still
    conserved, and the other requests can go on exactly as they could with it, to the same end.
   */
  lemma {:induction false} EndedLeavesNoTrace(s: State, caps: Counts, r: Id, steps: seq<Step>, now: real)
    requires Ended(s, r) && forall i :: 0 <= i < |steps| ==> steps[i].r != r
    ensures Conserved(s, caps, {}) ==> Conserved(Erased(s, r), caps, {})
    ensures IsRun(Erased(s, r), steps, now) <==> IsRun(s, steps, now)
    ensures IsRun(s, steps, now) ==> Run(Erased(s, r), steps, now) == Erased(Run(s, steps, now), r)
    decreases |steps|
  {
    if Conserved(s, caps, {}) { ErasedConserved(s, caps, r); }
    if steps != [] {
      StepErased(s, r, steps[0]);
      if Enabled(s, steps[0]) { EndedLeavesNoTrace(Apply(s, steps[0]), caps, r, steps[1..], steps[0].now); }
    }
  }

  /**
    A whole attempt, from before its arrival to its refusal or release, whatever other requests do meanwhile: it
    holds nothing afterwards, and each count has changed by exactly what others hold less or more.
   */
  lemma AttemptRestores(s: State, caps: Counts, r: Id, steps: seq<Step>, now: real, p: Permit)
    requires Conserved(s, caps, {}) && Covered(caps) && p in caps && r !in s.requests
    requires IsRun(s, steps, now) && Ended(Run(s, steps, now), r)
    ensures var e := Run(s, steps, now);
            && r !in Holders(s, p) && r !in Holders(e, p) && p in s.free && p in e.free
            && e.free[p] - s.free[p] == |Holders(s, p)| - |Holders(e, p)|
            && (Holders(e, p) == Holders(s, p) ==> e.free[p] == s.free[p])
  {
    RunConserves(s, caps, steps, now);
    assert Balanced(s, p, caps[p], false) && Balanced(Run(s, steps, now), p, caps[p], false);
  }

  // ---------- Times ----------

  /** Waiting begins no earlier than arrival; exempt requests wait for no group; nobody is refused within a second of arriving. */
  ghost predicate RequestOk(q: Request) {
    && (q.phase.WaitGlobal? ==> q.phase.since >= q.arrived)
    && (q.phase.WaitGroup? ==> q.phase.since >= q.arrived && !q.group.Exempt?)
    && (q.phase.Refused? ==> q.phase.at >= q.arrived + 1.0)
  }

  ghost predicate RequestsOk(s: State, now: real) {
    forall r :: r in s.requests ==> RequestOk(s.requests[r]) && s.requests[r].arrived <= now
  }

  lemma GiveTimes(s: State, p: Permit, next: Option<Id>, now: real)
    requires RequestsOk(s, now) && NextOk(s, p, next)
    ensures RequestsOk(Give(s, p, next), now)
  {
  }

  lemma StepTimes(s: State, step: Step, now: real)
    requires RequestsOk(s, now) && step.now >= now && Enabled(s, step)
    ensures RequestsOk(Apply(s, step), step.now)
  {
    match step
    case Arrive(_, _, _) =>
    case Proceed(_, _) =>
    case TimeoutGlobal(_, _) =>
    case TimeoutGroup(r, _, next) => GiveTimes(Moved(s, r, Refused(step.now)), Global, next, step.now);
    case Release(r, _, nextInGroup, next) =>
      var done, g := Moved(s, r, Finished), s.requests[r].group;
      assert RequestsOk(done, step.now);
      if !g.Exempt? { GiveTimes(done, Group(g), nextInGroup, step.now); }
      GiveTimes(GroupReleased(done, g, nextInGroup), Global, next, step.now);
  }

  lemma {:induction false} RunTimes(s: State, steps: seq<Step>, now: real) returns (last: real)
    requires RequestsOk(s, now) && IsRun(s, steps, now)
    ensures RequestsOk(Run(s, steps, now), last)
    decreases |steps|
  {
    last := now;
    if steps != [] {
      StepTimes(s, steps[0], now);
      last := RunTimes(Apply(s, steps[0]), steps[1..], steps[0].now);
    }
  }

  // ---------- From the start, over every interleaving ----------

  /** A request that arrives is given the global permit at once exactly if fewer are held than there are. */
  lemma ArrivalIff(s: State, caps: Counts, r: Id, g: RouteGroup, now: real)
    requires Conserved(s, caps, {}) && Covered(caps) && r !in s.requests
    ensures var q := Arrived(s, r, g, now).requests[r];
            && q.group == g && q.arrived == now
            && q.phase == if |Holders(s, Global)| < caps[Global] then GotGlobal else WaitGlobal(now)
  {
    assert Balanced(s, Global, caps[Global], false);
  }

  /** It runs at once exactly if it is exempt or fewer of its group run than may; otherwise it waits for its group. */
  lemma AdmissionIff(s: State, caps: Counts, r: Id, now: real)
    requires Conserved(s, caps, {}) && Covered(caps) && r in s.requests && s.requests[r].phase.GotGlobal?
    ensures var g, q := s.requests[r].group, Proceeded(s, r, now).requests[r];
            && q.group == g
            && q.phase == if g.Exempt? || |RunningIn(s, g)| < caps[Group(g)] then Running else WaitGroup(now)
  {
    var g := s.requests[r].group;
    if !g.Exempt? {
      assert Balanced(s, Group(g), caps[Group(g)], false);
      assert RunningIn(s, g) == Holders(s, Group(g));
    }
  }

  /** A wait can time out exactly from one second on. */
  lemma TimeoutIff(s: State, r: Id, now: real)
    requires r in s.requests
    ensures Enabled(s, TimeoutGlobal(r, now)) <==> s.requests[r].phase.WaitGlobal? && now >= s.requests[r].phase.since + 1.0
    ensures (exists next :: Enabled(s, TimeoutGroup(r, now, next))) <==> s.requests[r].phase.WaitGroup? && now >= s.requests[r].phase.since + 1.0
  {
    if s.requests[r].phase.WaitGroup? && now >= s.requests[r].phase.since + 1.0 {
      var done := Moved(s, r, Refused(now));
      if Waiters(done, Global) == {} {
        assert Enabled(s, TimeoutGroup(r, now, None));
      } else {
        var w :| w in Waiters(done, Global);
        assert Enabled(s, TimeoutGroup(r, now, Some(w)));
      }
    }
  }

  /** If anyone waits, someone can go on without a timeout: requests never block each other for good. */
  lemma NoDeadlock(s: State, caps: Counts, r: Id, p: Permit)
    requires Conserved(s, caps, {}) && Covered(caps) && (forall x :: x in caps ==> caps[x] >= 1)
    requires forall q :: q in s.requests ==> RequestOk(s.requests[q])
    requires p in caps && r in s.requests && Waits(s.requests[r], p)
    ensures exists h :: h in s.requests && (s.requests[h].phase.Running? || s.requests[h].phase.GotGlobal?)
  {
    RefusedOnlyWhenFull(s, caps, r, p);
    var h :| h in Holders(s, p);
    if s.requests[h].phase.WaitGroup? {
      assert RequestOk(s.requests[h]);
      var own := Group(s.requests[h].group);
      RefusedOnlyWhenFull(s, caps, h, own);
      var h' :| h' in Holders(s, own);
    }
  }

  /** From the moment the guard is made, permits are conserved and nobody is refused within a second. */
  lemma GuardSafe(settings: Settings, steps: seq<Step>, now: real)
    requires IsRun(Start(settings), steps, now)
    ensures var s := Run(Start(settings), steps, now);
            && Conserved(s, Capacities(settings), {})
            && (forall q :: q in s.requests ==> RequestOk(s.requests[q]))
            && |RunningAll(s)| <= settings.globalMax
            && |RunningIn(s, AuthLogin)| <= settings.authMax && |RunningIn(s, AuthRefresh)| <= settings.authMax
            && |RunningIn(s, Writes)| <= settings.writesMax && |RunningIn(s, Reads)| <= settings.readsMax
  {
    var s, caps := Run(Start(settings), steps, now), Capacities(settings);
    StartConserved(settings);
    RunConserves(Start(settings), caps, steps, now);
    var last := RunTimes(Start(settings), steps, now);
    RunningWithinCaps(s, caps, AuthLogin);
    RunningWithinCaps(s, caps, AuthRefresh);
    RunningWithinCaps(s, caps, Writes);
    RunningWithinCaps(s, caps, Reads);
  }
}
