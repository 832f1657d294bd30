/**
  The concurrency guard (meritmolt/backpressure.py): any number of requests, interleaved wherever they
  await, take a permit of the global semaphore and then one of their route group's, and give both back.
 */
module Backpressure {
  import opened Options
  import opened RouteGroups

  type Id = string

  /** The semaphores; exempt requests have none of their own. */
  datatype Permit = Global | Group(group: RouteGroup)

  type Counts = map<Permit, int>

  datatype Settings = Settings(globalMax: nat, authMax: nat, writesMax: nat, readsMax: nat)

  function Capacities(s: Settings): Counts {
    map[Global := s.globalMax, Group(AuthLogin) := s.authMax, Group(AuthRefresh) := s.authMax,
        Group(Writes) := s.writesMax, Group(Reads) := s.readsMax]
  }

  /** How far a request has come; waiting since when, refused when. */
  datatype Phase =
    | WaitGlobal(since: real)
    | GotGlobal
    | WaitGroup(since: real)
    | Running
    | Refused(at: real)
    | Finished

  datatype Request = Request(group: RouteGroup, arrived: real, phase: Phase)

  predicate Holds(q: Request, p: Permit) {
    match p
    case Global => q.phase.GotGlobal? || q.phase.WaitGroup? || q.phase.Running?
    case Group(g) => q.group == g && !g.Exempt? && q.phase.Running?
  }

  predicate Waits(q: Request, p: Permit) {
    match p
    case Global => q.phase.WaitGlobal?
    case Group(g) => q.group == g && q.phase.WaitGroup?
  }

  predicate InFlight(q: Request) {
    !q.phase.Refused? && !q.phase.Finished?
  }

  datatype State = State(requests: map<Id, Request>, free: Counts)

  function Holders(s: State, p: Permit): set<Id> {
    set r | r in s.requests && Holds(s.requests[r], p)
  }

  function Waiters(s: State, p: Permit): set<Id> {
    set r | r in s.requests && Waits(s.requests[r], p)
  }

  function Start(settings: Settings): State {
    State(map[], Capacities(settings))
  }

  // ---------- Semaphore operations ----------

  /** A permit is free and nobody is ahead in the queue. */
  predicate CanTake(s: State, p: Permit) {
    p in s.free && s.free[p] > 0 && Waiters(s, p) == {}
  }

  function Count(s: State, p: Permit): int {
    if p in s.free then s.free[p] else 0
  }

  function Take(s: State, p: Permit): State {
    s.(free := s.free[p := Count(s, p) - 1])
  }

  function Moved(s: State, r: Id, phase: Phase): State
    requires r in s.requests
  {
    s.(requests := s.requests[r := s.requests[r].(phase := phase)])
  }

  /** Where a waiting request goes when it is handed a permit. */
  function Granted(p: Permit): Phase {
    if p.Global? then GotGlobal else Running
  }

  /** The waiter served next, if there is any. */
  predicate NextOk(s: State, p: Permit, next: Option<Id>) {
    if next.Some? then next.value in Waiters(s, p) else Waiters(s, p) == {}
  }

  /** A permit given back goes to a waiter, or else is free again. */
  function Give(s: State, p: Permit, next: Option<Id>): State
    requires NextOk(s, p, next)
  {
    if next.Some? then Moved(s, next.value, Granted(p)) else s.(free := s.free[p := Count(s, p) + 1])
  }

  // ---------- What a request does between two awaits ----------

  const TIMEOUT: real := 1.0

  /** Arrive and ask for the global permit. */
  function Arrived(s: State, r: Id, g: RouteGroup, now: real): State
    requires r !in s.requests
  {
    if CanTake(s, Global) then
      var taken := Take(s, Global);
      taken.(requests := s.requests[r := Request(g, now, GotGlobal)])
    else s.(requests := s.requests[r := Request(g, now, WaitGlobal(now))])
  }

  /** With the global permit: run if exempt, otherwise ask for the group's permit. */
  function Proceeded(s: State, r: Id, now: real): State
    requires r in s.requests && s.requests[r].phase.GotGlobal?
  {
    var g := s.requests[r].group;
    if g.Exempt? then Moved(s, r, Running)
    else if CanTake(s, Group(g)) then Moved(Take(s, Group(g)), r, Running)
    else Moved(s, r, WaitGroup(now))
  }

  /** The wait for the group's permit timed out: refuse, and give the global permit back. */
  function GroupTimedOut(s: State, r: Id, now: real, next: Option<Id>): State
    requires r in s.requests && NextOk(Moved(s, r, Refused(now)), Global, next)
  {
    Give(Moved(s, r, Refused(now)), Global, next)
  }

  /** The group's permit given back, by a request that is not exempt. */
  function GroupReleased(s: State, g: RouteGroup, next: Option<Id>): State
    requires !g.Exempt? ==> NextOk(s, Group(g), next)
  {
    if g.Exempt? then s else Give(s, Group(g), next)
  }

  predicate ReleaseOk(s: State, r: Id, nextInGroup: Option<Id>, next: Option<Id>) {
    && r in s.requests && s.requests[r].phase.Running?
    && var done, g := Moved(s, r, Finished), s.requests[r].group;
       && (!g.Exempt? ==> NextOk(done, Group(g), nextInGroup))
       && NextOk(GroupReleased(done, g, nextInGroup), Global, next)
  }

  /** The application returned, raised or ran out of time: give both permits back, in reverse order. */
  function Released(s: State, r: Id, nextInGroup: Option<Id>, next: Option<Id>): State
    requires ReleaseOk(s, r, nextInGroup, next)
  {
    Give(GroupReleased(Moved(s, r, Finished), s.requests[r].group, nextInGroup), Global, next)
  }

  // ---------- Runs ----------

  datatype Step =
    | Arrive(r: Id, group: RouteGroup, now: real)
    | Proceed(r: Id, now: real)
    | TimeoutGlobal(r: Id, now: real)
    | TimeoutGroup(r: Id, now: real, next: Option<Id>)
    | Release(r: Id, now: real, nextInGroup: Option<Id>, next: Option<Id>)

  predicate Enabled(s: State, step: Step) {
    match step
    case Arrive(r, _, _) => r !in s.requests
    case Proceed(r, _) => r in s.requests && s.requests[r].phase.GotGlobal?
    case TimeoutGlobal(r, now) =>
      r in s.requests && s.requests[r].phase.WaitGlobal? && now >= s.requests[r].phase.since + TIMEOUT
    case TimeoutGroup(r, now, next) =>
      && r in s.requests && s.requests[r].phase.WaitGroup? && now >= s.requests[r].phase.since + TIMEOUT
      && NextOk(Moved(s, r, Refused(now)), Global, next)
    case Release(r, _, nextInGroup, next) => ReleaseOk(s, r, nextInGroup, next)
  }

  function Apply(s: State, step: Step): State
    requires Enabled(s, step)
  {
    match step
    case Arrive(r, g, now) => Arrived(s, r, g, now)
    case Proceed(r, now) => Proceeded(s, r, now)
    case TimeoutGlobal(r, now) => Moved(s, r, Refused(now))
    case TimeoutGroup(r, now, next) => GroupTimedOut(s, r, now, next)
    case Release(r, _, nextInGroup, next) => Released(s, r, nextInGroup, next)
  }

  predicate IsRun(s: State, steps: seq<Step>, now: real)
    decreases |steps|
  {
    steps == [] || (steps[0].now >= now && Enabled(s, steps[0]) && IsRun(Apply(s, steps[0]), steps[1..], steps[0].now))
  }

  function Run(s: State, steps: seq<Step>, now: real): State
    requires IsRun(s, steps, now)
    decreases |steps|
  {
    if steps == [] then s else Run(Apply(s, steps[0]), steps[1..], steps[0].now)
  }
}
