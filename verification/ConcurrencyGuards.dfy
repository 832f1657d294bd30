/**
  The guard's object (meritmolt/backpressure.py), its counters and waiters updated in place by each
  request between two awaits. Each method is tied to its function in Backpressure and keeps the permits conserved.
 */
module ConcurrencyGuards {
  import opened Options
  import opened RouteGroups
  import opened Backpressure
  import opened BackpressureProofs

  class ConcurrencyGuard {
    ghost const caps: Counts
    var requests: map<Id, Request>
    var free: Counts

    ghost function View(): State
      reads this
    {
      State(requests, free)
    }

    ghost predicate Valid()
      reads this
    {
      Conserved(View(), caps, {}) && Covered(caps) && caps.Keys == free.Keys
    }

    constructor (settings: Settings)
      ensures Valid() && View() == Start(settings) && caps == Capacities(settings)
    {
      caps := Capacities(settings);
      requests := map[];
      free := map[Global := settings.globalMax, Group(AuthLogin) := settings.authMax, Group(AuthRefresh) := settings.authMax,
                  Group(Writes) := settings.writesMax, Group(Reads) := settings.readsMax];
      new;
      StartConserved(settings);
    }

    /** Take a permit if one is free and nobody waits for it. */
    method TryTake(p: Permit) returns (taken: bool)
      requires p in free
      modifies `free
      ensures taken == CanTake(old(View()), p)
      ensures View() == if taken then Take(old(View()), p) else old(View())
    {
      taken := free[p] > 0 && !exists r :: r in requests && Waits(requests[r], p);
      assert Waiters(View(), p) == {} <==> !exists r :: r in requests && Waits(requests[r], p) by {
        assert forall r :: r in Waiters(View(), p) <==> r in requests && Waits(requests[r], p);
      }
      if taken {
        free := free[p := free[p] - 1];
      }
    }

    /** Hand a permit to a waiter, or count it as free. */
    method GiveBack(p: Permit) returns (next: Option<Id>)
      requires p in free
      modifies this
      ensures NextOk(old(View()), p, next) && View() == Give(old(View()), p, next)
    {
      if r :| r in requests && Waits(requests[r], p) {
        next := Some(r);
        requests := requests[r := requests[r].(phase := Granted(p))];
      } else {
        next := None;
        free := free[p := free[p] + 1];
      }
    }

    method AcquireGlobal(r: Id, g: RouteGroup, now: real)
      requires Valid() && r !in requests
      modifies this
      ensures Valid() && View() == Arrived(old(View()), r, g, now)
    {
      ArriveConserves(View(), caps, r, g, now);
      var taken := TryTake(Global);
      requests := requests[r := Request(g, now, if taken then GotGlobal else WaitGlobal(now))];
    }

    method AcquireGroup(r: Id, now: real)
      requires Valid() && r in requests && requests[r].phase.GotGlobal?
      modifies this
      ensures Valid() && View() == Proceeded(old(View()), r, now)
    {
      ProceedConserves(View(), caps, r, now);
      var g := requests[r].group;
      var phase := Running;
      if !g.Exempt? {
        var taken := TryTake(Group(g));
        if !taken { phase := WaitGroup(now); }
      }
      requests := requests[r := requests[r].(phase := phase)];
    }

    /** A wait that timed out: a refusal, which gives back the global permit if it has one. */
    method TimeOut(r: Id, now: real) returns (ghost step: Step)
      requires Valid() && r in requests && (requests[r].phase.WaitGlobal? || requests[r].phase.WaitGroup?)
      requires now >= requests[r].phase.since + TIMEOUT
      modifies this
      ensures step.r == r && step.now == now && (step.TimeoutGlobal? || step.TimeoutGroup?)
      ensures Valid() && Enabled(old(View()), step) && View() == Apply(old(View()), step)
    {
      ghost var before := View();
      var holdsGlobal := requests[r].phase.WaitGroup?;
      requests := requests[r := requests[r].(phase := Refused(now))];
      step := TimeoutGlobal(r, now);
      if holdsGlobal {
        var next := GiveBack(Global);
        step := TimeoutGroup(r, now, next);
      }
      TimeoutsConserve(before, caps, step);
    }

    /** Give back the group's permit, then the global one. */
    method Release(r: Id) returns (nextInGroup: Option<Id>, next: Option<Id>)
      requires Valid() && r in requests && requests[r].phase.Running?
      modifies this
      ensures Valid() && ReleaseOk(old(View()), r, nextInGroup, next)
      ensures View() == Released(old(View()), r, nextInGroup, next)
    {
      ghost var before := View();
      var g := requests[r].group;
      requests := requests[r := requests[r].(phase := Finished)];
      nextInGroup := None;
      if !g.Exempt? {
        nextInGroup := GiveBack(Group(g));
      }
      next := GiveBack(Global);
      ReleaseConserves(before, caps, r, nextInGroup, next);
    }
  }
}
