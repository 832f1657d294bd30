/**
  The rate-limit middleware (meritmolt/ratelimit.py): one bucket store per route group, with the group's
  burst and refill rate, and requests of all groups interleaved.
 */
module RouteLimits {
  import opened Collections
  import opened RouteGroups
  import opened RateLimit
  import opened TokenBucketProofs
  import opened BucketStoreProofs

  datatype Settings = Settings(
    loginLimit: int, refreshLimit: int,
    writesBurst: int, writesSustain: int,
    readsBurst: int, readsSustain: int,
    maxKeys: int, ttl: int)

  /** Logins are limited by the hour, everything else by the minute. */
  function BucketParams(g: RouteGroup, s: Settings): Limits {
    match g
    case AuthLogin => Limits(s.loginLimit as real, s.loginLimit as real / 3600.0)
    case AuthRefresh => Limits(s.refreshLimit as real, s.refreshLimit as real / 60.0)
    case Writes => Limits(s.writesBurst as real, s.writesSustain as real / 60.0)
    case Reads => Limits(s.readsBurst as real, s.readsSustain as real / 60.0)
    case Exempt => Limits(0.0, 0.0)
  }

  type Stores = map<RouteGroup, Store>

  function EmptyStore(s: Settings): Store {
    Store(s.maxKeys, s.ttl as real, [], map[])
  }

  function BuildStores(s: Settings): Stores {
    map[AuthLogin := EmptyStore(s), AuthRefresh := EmptyStore(s), Writes := EmptyStore(s), Reads := EmptyStore(s)]
  }

  datatype Call = Call(group: RouteGroup, request: Request)

  /** Exempt calls pass and touch no store; the others are put to their group's store. */
  function Handle(s: Settings, stores: Stores, c: Call): (Stores, bool) {
    if c.group.Exempt? || c.group !in stores then (stores, true)
    else
      var admitted := AdmitStep(BucketParams(c.group, s))(stores[c.group], c.request);
      (stores[c.group := admitted.0], admitted.1)
  }

  function RunCalls(s: Settings, stores: Stores, calls: seq<Call>): Stores
    decreases |calls|
  {
    if calls == [] then stores else RunCalls(s, Handle(s, stores, calls[0]).0, calls[1..])
  }

  /** How many calls of a group with a key are admitted. */
  function Admitted(s: Settings, stores: Stores, calls: seq<Call>, g: RouteGroup, key: string): nat
    decreases |calls|
  {
    if calls == [] then 0
    else Bit(calls[0].group == g && calls[0].request.key == key && Handle(s, stores, calls[0]).1)
         + Admitted(s, Handle(s, stores, calls[0]).0, calls[1..], g, key)
  }

  function Own(c: Call, g: RouteGroup): seq<Request> {
    if c.group == g then [c.request] else []
  }

  /** The requests of one group. */
  function Of(calls: seq<Call>, g: RouteGroup): seq<Request> {
    if calls == [] then []
    else Own(calls[0], g) + Of(calls[1..], g)
  }

  ghost predicate InOrder(clock: real, calls: seq<Call>)
    decreases |calls|
  {
    calls == [] || (clock <= calls[0].request.now && InOrder(calls[0].request.now, calls[1..]))
  }

  lemma {:induction false} OrderOf(clock: real, later: real, calls: seq<Call>, g: RouteGroup)
    requires InOrder(later, calls) && clock <= later
    ensures RequestsInOrder(clock, Of(calls, g))
    decreases |calls|
  {
    if calls != [] {
      var c := calls[0];
      if c.group == g {
        OrderOf(c.request.now, c.request.now, calls[1..], g);
        assert Of(calls, g)[1..] == Of(calls[1..], g);
      } else {
        OrderOf(clock, c.request.now, calls[1..], g);
        assert Of(calls, g) == Of(calls[1..], g);
      }
    }
  }

  /** What the first call does to a group's store and count. */
  lemma FirstCall(s: Settings, stores: Stores, c: Call, g: RouteGroup)
    requires g in stores && !g.Exempt?
    ensures var after := Handle(s, stores, c).0;
            && g in after
            && (if c.group == g then (after[g], Handle(s, stores, c).1) == AdmitStep(BucketParams(g, s))(stores[g], c.request)
                else after[g] == stores[g])
  {
  }

  /** An exempt call is always let through and touches no store. */
  lemma ExemptPasses(s: Settings, stores: Stores, c: Call)
    requires c.group.Exempt?
    ensures Handle(s, stores, c) == (stores, true)
  {
  }

  lemma AfterOne(l: Limits, store: Store, r: Request, rest: seq<Request>, key: string)
    ensures RunStore(l, store, [r] + rest) == RunStore(l, AdmitStep(l)(store, r).0, rest)
    ensures KeyAdmitted(AdmitStep(l), store, [r] + rest, key)
            == Bit(r.key == key && AdmitStep(l)(store, r).1) + KeyAdmitted(AdmitStep(l), AdmitStep(l)(store, r).0, rest, key)
  {
    assert ([r] + rest)[1..] == rest;
  }

  /** A group's store and count after some calls are those of the group's requests alone. */
  ghost predicate Alone(s: Settings, stores: Stores, calls: seq<Call>, g: RouteGroup, key: string) {
    && g in stores && g in RunCalls(s, stores, calls)
    && RunCalls(s, stores, calls)[g] == RunStore(BucketParams(g, s), stores[g], Of(calls, g))
    && Admitted(s, stores, calls, g, key) == KeyAdmitted(AdmitStep(BucketParams(g, s)), stores[g], Of(calls, g), key)
  }

  lemma AloneAfterOwn(s: Settings, stores: Stores, calls: seq<Call>, g: RouteGroup, key: string)
    requires g in stores && !g.Exempt? && calls != [] && calls[0].group == g
    requires Alone(s, Handle(s, stores, calls[0]).0, calls[1..], g, key)
    ensures Alone(s, stores, calls, g, key)
  {
    FirstCall(s, stores, calls[0], g);
    AfterOne(BucketParams(g, s), stores[g], calls[0].request, Of(calls[1..], g), key);
  }

  lemma AloneAfterOther(s: Settings, stores: Stores, calls: seq<Call>, g: RouteGroup, key: string)
    requires g in stores && !g.Exempt? && calls != [] && calls[0].group != g
    requires Alone(s, Handle(s, stores, calls[0]).0, calls[1..], g, key)
    ensures Alone(s, stores, calls, g, key)
  {
    FirstCall(s, stores, calls[0], g);
    assert Of(calls, g) == Of(calls[1..], g);
  }

  /** Route groups do not affect each other: each store and each count is as if only that group's calls had been made. */
  lemma {:induction false} GroupsIndependent(s: Settings, stores: Stores, calls: seq<Call>, g: RouteGroup, key: string)
    requires g in stores && !g.Exempt?
    ensures Alone(s, stores, calls, g, key)
    decreases |calls|
  {
    if calls != [] {
      FirstCall(s, stores, calls[0], g);
      GroupsIndependent(s, Handle(s, stores, calls[0]).0, calls[1..], g, key);
      if calls[0].group == g { AloneAfterOwn(s, stores, calls, g, key); } else { AloneAfterOther(s, stores, calls, g, key); }
    }
  }

  predicate NotNegative(s: Settings) {
    0 <= s.loginLimit && 0 <= s.refreshLimit && 0 <= s.writesBurst && 0 <= s.writesSustain && 0 <= s.readsBurst && 0 <= s.readsSustain
  }

  /** In an hour a login bucket regains its limit, in a minute a refresh bucket its limit and the others their sustained rate. */
  lemma ParamsMean(s: Settings)
    ensures var p := BucketParams(AuthLogin, s); p.burst == s.loginLimit as real && p.rate * 3600.0 == s.loginLimit as real
    ensures var p := BucketParams(AuthRefresh, s); p.burst == s.refreshLimit as real && p.rate * 60.0 == s.refreshLimit as real
    ensures var p := BucketParams(Writes, s); p.burst == s.writesBurst as real && p.rate * 60.0 == s.writesSustain as real
    ensures var p := BucketParams(Reads, s); p.burst == s.readsBurst as real && p.rate * 60.0 == s.readsSustain as real
  {
  }

  lemma ParamsNotNegative(s: Settings, g: RouteGroup)
    requires NotNegative(s)
    ensures 0.0 <= BucketParams(g, s).burst && 0.0 <= BucketParams(g, s).rate
  {
  }

  lemma EmptyOk(s: Settings, g: RouteGroup, clock: real)
    requires NotNegative(s) && !g.Exempt?
    ensures g in BuildStores(s) && BuildStores(s)[g] == EmptyStore(s) && StoreOk(EmptyStore(s), BucketParams(g, s), clock)
  {
    ParamsNotNegative(s, g);
  }

  lemma OfPrepend(c: Call, rest: seq<Call>, g: RouteGroup)
    ensures Of([c] + rest, g) == Own(c, g) + Of(rest, g)
  {
    assert ([c] + rest)[1..] == rest;
  }

  lemma Regroup<T>(x: seq<T>, y: seq<T>, z: seq<T>)
    ensures x + (y + z) == x + y + z
  {
  }

  lemma {:induction false} OfConcat(a: seq<Call>, b: seq<Call>, g: RouteGroup)
    ensures Of(a + b, g) == Of(a, g) + Of(b, g)
  {
    if a == [] {
      assert a + b == b;
    } else {
      var c, rest := a[0], a[1..];
      OfConcat(rest, b, g);
      OfPrepend(c, rest, g);
      OfPrepend(c, rest + b, g);
      assert a == [c] + rest && a + b == [c] + (rest + b);
      Regroup(Own(c, g), Of(rest, g), Of(b, g));
    }
  }

  lemma {:induction false} OrderParts(clock: real, a: seq<Request>, b: seq<Request>) returns (between: real)
    requires RequestsInOrder(clock, a + b)
    ensures RequestsInOrder(clock, a) && RequestsInOrder(between, b)
    ensures between == if a == [] then clock else a[|a| - 1].now
    decreases |a|
  {
    between := clock;
    if a == [] {
      assert a + b == b;
    } else {
      assert (a + b)[1..] == a[1..] + b && (a + b)[0] == a[0];
      between := OrderParts(a[0].now, a[1..], b);
    }
  }

  /** The state of a group's store after some calls from start-up, and a moment no later than its next request. */
  lemma StoreAfter(s: Settings, before: seq<Call>, window: seq<Call>, g: RouteGroup, start: real) returns (clock: real)
    requires NotNegative(s) && !g.Exempt? && InOrder(start, before + window)
    ensures var stores := RunCalls(s, BuildStores(s), before);
            g in stores && stores[g].ttl == s.ttl as real && StoreOk(stores[g], BucketParams(g, s), clock)
    ensures RequestsInOrder(clock, Of(window, g))
  {
    EmptyOk(s, g, start);
    OrderOf(start, start, before + window, g);
    OfConcat(before, window, g);
    clock := OrderParts(start, Of(before, g), Of(window, g));
    GroupsIndependent(s, BuildStores(s), before, g, "");
    RunStoreOk(BucketParams(g, s), EmptyStore(s), Of(before, g), start);
  }

  /**
    From start-up on, whatever calls came before and whatever the other groups do, a key that no other key
    of its group evicts is admitted in any window of length `w` at most as often as the group's settings allow.
   */
  lemma GroupWindowBound(s: Settings, before: seq<Call>, window: seq<Call>, g: RouteGroup, key: string, start: real, w: real)
    requires NotNegative(s) && s.ttl > 0 && !g.Exempt? && InOrder(start, before + window)
    requires var reqs := Of(window, g); reqs != [] && reqs[|reqs| - 1].now - reqs[0].now <= w
    requires var stores := RunCalls(s, BuildStores(s), before);
             g in stores && NeverEvicted(AdmitStep(BucketParams(g, s)), stores[g], Of(window, g), key)
    ensures Admitted(s, RunCalls(s, BuildStores(s), before), window, g, key) as real <= Most(BucketParams(g, s), s.ttl as real, w)
  {
    var clock := StoreAfter(s, before, window, g, start);
    var stores := RunCalls(s, BuildStores(s), before);
    GroupsIndependent(s, stores, window, g, key);
    KeyWindowBound(stores[g], Of(window, g), BucketParams(g, s), key, clock, w);
  }
}
