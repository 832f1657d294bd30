/**
  What the store guarantees one key over any run of requests of all keys: how much it can be admitted
  although a replaced bucket starts full, and when its bucket survives.
 */
module BucketStoreProofs {
  import opened Collections
  import opened RateLimit
  import opened TokenBucketProofs

  // ---------- One request ----------

  /** Order and items list the same keys once, and every bucket is a sound one under the limits. */
  ghost predicate StoreOk(s: Store, l: Limits, clock: real) {
    && 0.0 <= l.burst && 0.0 <= l.rate
    && NoDuplicates(s.order) && (forall k :: k in s.order <==> k in s.items)
    && (forall k :: k in s.items ==> EntryOk(s.items[k], l, clock))
  }

  ghost predicate EntryOk(e: Entry, l: Limits, clock: real) {
    BucketOk(e.bucket) && e.bucket.max == l.burst && e.bucket.rate == l.rate && e.bucket.last <= clock && e.created <= clock
  }

  lemma {:induction false} RemoveSpec(order: seq<string>, key: string)
    requires NoDuplicates(order)
    ensures NoDuplicates(Remove(order, key)) && forall k :: k in Remove(order, key) <==> k in order && k != key
    decreases |order|
  {
    if order != [] {
      var rest := order[1..];
      forall k ensures k in order <==> k == order[0] || k in rest { assert order == [order[0]] + rest; }
      forall i | 0 <= i < |rest| ensures rest[i] != order[0] {}
      RemoveSpec(rest, key);
      if order[0] != key { PrependNew(order[0], Remove(rest, key)); }
    }
  }

  lemma PrependNew(a: string, xs: seq<string>)
    requires NoDuplicates(xs) && a !in xs
    ensures NoDuplicates([a] + xs)
  {
  }

  /** Eviction drops a prefix of the order, just enough to make room. */
  lemma {:induction false} EvictSpec(s: Store) returns (n: nat)
    requires NoDuplicates(s.order) && forall k :: k in s.order <==> k in s.items
    ensures n <= |s.order| && Evict(s).order == s.order[n..] && Evict(s).maxKeys == s.maxKeys && Evict(s).ttl == s.ttl
    ensures NoDuplicates(Evict(s).order) && forall k :: k in Evict(s).order <==> k in Evict(s).items
    ensures forall k :: k in Evict(s).items ==> k in s.items && Evict(s).items[k] == s.items[k]
    ensures |Evict(s).order| < s.maxKeys || Evict(s).order == []
    ensures n > 0 ==> |s.order| - n + 1 >= s.maxKeys
    decreases |s.order|
  {
    n := 0;
    if |s.order| >= s.maxKeys && s.order != [] {
      var rest := s.order[1..];
      forall k ensures k in s.order <==> k == s.order[0] || k in rest { assert s.order == [s.order[0]] + rest; }
      var m := EvictSpec(s.(order := rest, items := s.items - {s.order[0]}));
      n := m + 1;
      assert rest[m..] == s.order[n..];
    }
  }

  /** The key's own entry after a fetch: kept with its bucket, or made new and full. */
  function FetchedEntry(s: Store, key: string, l: Limits, now: real): Entry {
    if Live(s, key, now) then s.items[key] else Entry(NewBucket(l.burst, l.rate, now), now)
  }

  /** The store just before a key is added: an expired entry of the key is gone, and there is room. */
  lemma RoomSpec(s: Store, key: string, now: real) returns (room: Store, n: nat)
    requires NoDuplicates(s.order) && (forall k :: k in s.order <==> k in s.items) && !Live(s, key, now)
    ensures forall l: Limits :: GetOrCreate(s, key, l.burst, l.rate, now) ==
              room.(order := room.order + [key], items := room.items[key := Entry(NewBucket(l.burst, l.rate, now), now)])
    ensures var without := if key in s.items then Remove(s.order, key) else s.order;
            n <= |without| && room.order == without[n..] && (n > 0 ==> |without| - n + 1 >= s.maxKeys)
    ensures NoDuplicates(room.order) && key !in room.order && (forall k :: k in room.order <==> k in room.items)
    ensures forall k :: k in room.items ==> k in s.items && room.items[k] == s.items[k]
    ensures room.maxKeys == s.maxKeys && room.ttl == s.ttl && (|room.order| < s.maxKeys || room.order == [])
  {
    RemoveSpec(s.order, key);
    var gone := if key in s.items then s.(order := Remove(s.order, key), items := s.items - {key}) else s;
    room := Evict(gone);
    n := EvictSpec(gone);
  }

  /** A fetch keeps order and items together, changes no other key's entry, and keeps within the cap. */
  lemma FetchSpec(s: Store, key: string, l: Limits, now: real)
    requires NoDuplicates(s.order) && (forall k :: k in s.order <==> k in s.items)
    ensures var f := GetOrCreate(s, key, l.burst, l.rate, now);
            && NoDuplicates(f.order) && (forall k :: k in f.order <==> k in f.items)
            && key in f.items && f.items[key] == FetchedEntry(s, key, l, now)
            && (forall k :: k != key && k in f.items ==> k in s.items && f.items[k] == s.items[k])
            && f.maxKeys == s.maxKeys && f.ttl == s.ttl
            && |f.order| <= if Live(s, key, now) then |s.order| else if s.maxKeys < 1 then 1 else s.maxKeys
  {
    if Live(s, key, now) {
      RemoveSpec(s.order, key);
      RemoveSize(s.order, key);
      AppendNew(Remove(s.order, key), key);
    } else {
      var room, n := RoomSpec(s, key, now);
      AppendNew(room.order, key);
    }
  }

  lemma {:induction false} RemoveSize(order: seq<string>, key: string)
    requires key in order
    ensures |Remove(order, key)| == |order| - 1
    decreases |order|
  {
    if order[0] != key {
      assert order == [order[0]] + order[1..];
      RemoveSize(order[1..], key);
    }
  }

  /** The entry of the requested key after a request. */
  lemma AdmitSpec(s: Store, r: Request, l: Limits)
    requires NoDuplicates(s.order) && (forall k :: k in s.order <==> k in s.items)
    ensures var e := FetchedEntry(s, r.key, l, r.now);
            var (s', allowed) := Admit(s, r, l);
            && r.key in s'.items && s'.items[r.key] == e.(bucket := Take(e.bucket, r.now).bucket) && allowed == Take(e.bucket, r.now).allowed
            && (forall k :: k != r.key && k in s'.items ==> k in s.items && s'.items[k] == s.items[k])
            && NoDuplicates(s'.order) && (forall k :: k in s'.order <==> k in s'.items)
            && s'.maxKeys == s.maxKeys && s'.ttl == s.ttl && s'.order == GetOrCreate(s, r.key, l.burst, l.rate, r.now).order
  {
    FetchSpec(s, r.key, l, r.now);
  }

  lemma AdmitOk(s: Store, r: Request, l: Limits, clock: real)
    requires StoreOk(s, l, clock) && clock <= r.now
    ensures StoreOk(Admit(s, r, l).0, l, r.now)
  {
    AdmitSpec(s, r, l);
    TakeOk(FetchedEntry(s, r.key, l, r.now).bucket, r.now);
  }

  // ---------- Runs of requests ----------

  type StoreStep = (Store, Request) -> (Store, bool)

  function AdmitStep(l: Limits): StoreStep {
    (s, r) => Admit(s, r, l)
  }

  ghost predicate RequestsInOrder(clock: real, reqs: seq<Request>)
    decreases |reqs|
  {
    reqs == [] || (clock <= reqs[0].now && RequestsInOrder(reqs[0].now, reqs[1..]))
  }

  /** How many requests of `key` are admitted. */
  function KeyAdmitted(step: StoreStep, s: Store, reqs: seq<Request>, key: string): nat
    decreases |reqs|
  {
    if reqs == [] then 0
    else Bit(reqs[0].key == key && step(s, reqs[0]).1) + KeyAdmitted(step, step(s, reqs[0]).0, reqs[1..], key)
  }

  /** How many requests of `key` make a new bucket. */
  function Creations(step: StoreStep, s: Store, reqs: seq<Request>, key: string): nat
    decreases |reqs|
  {
    if reqs == [] then 0
    else Bit(reqs[0].key == key && !Live(s, key, reqs[0].now)) + Creations(step, step(s, reqs[0]).0, reqs[1..], key)
  }

  /** No request of another key drops `key` from the store. */
  ghost predicate NeverEvicted(step: StoreStep, s: Store, reqs: seq<Request>, key: string)
    decreases |reqs|
  {
    reqs == [] || ((reqs[0].key != key && key in s.items ==> key in step(s, reqs[0]).0.items) && NeverEvicted(step, step(s, reqs[0]).0, reqs[1..], key))
  }

  /** `n` times the burst. */
  function Bursts(burst: real, n: nat): real {
    if n == 0 then 0.0 else burst + Bursts(burst, n - 1)
  }

  lemma {:induction false} BurstsIs(burst: real, n: nat)
    ensures Bursts(burst, n) == n as real * burst
  {
    if n > 0 {
      BurstsIs(burst, n - 1);
      var m := (n - 1) as real;
      assert n as real == m + 1.0;
      assert (m + 1.0) * burst == m * burst + burst;
    }
  }

  lemma {:induction false} BurstsGrow(burst: real, m: nat, n: nat)
    requires 0.0 <= burst && m <= n
    ensures Bursts(burst, m) <= Bursts(burst, n)
  {
    if m < n { BurstsGrow(burst, m, n - 1); }
  }

  type Clocked = (Store, real) -> bool

  /** Every step is paid from the key's credit, a new bucket adding `fee` to it. */
  ghost predicate CreditRule(step: StoreStep, credit: (Store, real) -> real, ok: Clocked, fee: real, key: string, end: real) {
    && (forall x: Store, r: Request, c: real {:trigger ok(x, c), step(x, r)} :: ok(x, c) && c <= r.now <= end ==>
          && ok(step(x, r).0, r.now)
          && Bit(r.key == key && step(x, r).1) as real + credit(step(x, r).0, r.now)
             <= credit(x, c) + if r.key == key && !Live(x, key, r.now) then fee else 0.0)
    && (forall x: Store, c: real :: ok(x, c) && c <= end ==> 0.0 <= credit(x, c))
  }

  /** Admissions of a key are paid from its credit, and each new bucket adds one burst. */
  lemma {:induction false} KeyCreditBound(step: StoreStep, credit: (Store, real) -> real, ok: Clocked, fee: real,
                                          s: Store, reqs: seq<Request>, key: string, clock: real, end: real)
    requires CreditRule(step, credit, ok, fee, key, end)
    requires ok(s, clock) && clock <= end && RequestsInOrder(clock, reqs) && (reqs != [] ==> reqs[|reqs| - 1].now <= end)
    ensures KeyAdmitted(step, s, reqs, key) as real <= credit(s, clock) + Bursts(fee, Creations(step, s, reqs, key))
    decreases |reqs|
  {
    if reqs != [] {
      LatestRequest(reqs[0].now, reqs[1..]);
      KeyCreditBound(step, credit, ok, fee, step(s, reqs[0]).0, reqs[1..], key, reqs[0].now, end);
    }
  }

  lemma {:induction false} LatestRequest(clock: real, reqs: seq<Request>)
    requires RequestsInOrder(clock, reqs)
    ensures reqs != [] ==> clock <= reqs[|reqs| - 1].now
    decreases |reqs|
  {
    if reqs != [] { LatestRequest(reqs[0].now, reqs[1..]); }
  }

  /** What a key can still spend by `end` without a new bucket. */
  function KeyCredit(s: Store, key: string, rate: real, clock: real, end: real): real {
    if key in s.items then Credit(Refill(s.items[key].bucket, clock), end) else Gain(rate, clock, end)
  }

  lemma CreditFalls(b: Bucket, clock: real, now: real, end: real)
    requires BucketOk(b) && b.last <= clock <= now <= end
    ensures Gain(b.rate, now, end) <= Credit(Refill(b, now), end) <= Credit(Refill(b, clock), end)
    ensures Bit(Take(b, now).allowed) as real + Credit(Refill(Take(b, now).bucket, now), end) <= Credit(Refill(b, clock), end)
  {
    var x := Refill(b, clock);
    RefillOk(b, clock);
    RefillComposes(b, clock, now);
    RefillOk(x, now);
    GainAdds(b.rate, clock, now, end);
    assert Take(b, now) == Take(x, now);
    TakeSpends(x, now, end);
    TakeOk(x, now);
    RefillNow(Take(x, now).bucket);
  }

  /** A new bucket pays for its first request out of one burst. */
  lemma NewBucketCredit(l: Limits, now: real, end: real)
    requires 0.0 <= l.burst && 0.0 <= l.rate && now <= end
    ensures var t := Take(NewBucket(l.burst, l.rate, now), now);
            Bit(t.allowed) as real + Credit(Refill(t.bucket, now), end) <= l.burst + Gain(l.rate, now, end)
  {
    CreditFalls(NewBucket(l.burst, l.rate, now), now, now, end);
    RefillNow(NewBucket(l.burst, l.rate, now));
  }

  lemma StepCredit(s: Store, r: Request, l: Limits, key: string, clock: real, end: real)
    requires StoreOk(s, l, clock) && clock <= r.now <= end
    ensures Bit(r.key == key && Admit(s, r, l).1) as real + KeyCredit(Admit(s, r, l).0, key, l.rate, r.now, end)
            <= KeyCredit(s, key, l.rate, clock, end) + if r.key == key && !Live(s, key, r.now) then l.burst else 0.0
  {
    AdmitSpec(s, r, l);
    GainAdds(l.rate, clock, r.now, end);
    if key in s.items { CreditFalls(s.items[key].bucket, clock, r.now, end); }
    if r.key == key && !Live(s, key, r.now) { NewBucketCredit(l, r.now, end); }
  }

  lemma KeyCreditNotNegative(s: Store, l: Limits, key: string, clock: real, end: real)
    requires StoreOk(s, l, clock) && clock <= end
    ensures 0.0 <= KeyCredit(s, key, l.rate, clock, end) <= l.burst + Gain(l.rate, clock, end)
  {
    if key in s.items { RefillOk(s.items[key].bucket, clock); }
  }

  /** Admissions of one key: a burst for the bucket it starts with, one for each new bucket, and the refill. */
  lemma KeySpendingBound(s: Store, reqs: seq<Request>, l: Limits, key: string, clock: real, end: real)
    requires StoreOk(s, l, clock) && clock <= end && RequestsInOrder(clock, reqs) && (reqs != [] ==> reqs[|reqs| - 1].now <= end)
    ensures KeyAdmitted(AdmitStep(l), s, reqs, key) as real
            <= l.burst + Gain(l.rate, clock, end) + Bursts(l.burst, Creations(AdmitStep(l), s, reqs, key))
  {
    var step := AdmitStep(l);
    var credit := (x: Store, c: real) => KeyCredit(x, key, l.rate, c, end);
    var ok: Clocked := (x: Store, c: real) => StoreOk(x, l, c);
    forall x: Store, r: Request, c: real {:trigger ok(x, c), step(x, r)} | ok(x, c) && c <= r.now <= end
      ensures ok(step(x, r).0, r.now)
      ensures Bit(r.key == key && step(x, r).1) as real + credit(step(x, r).0, r.now)
              <= credit(x, c) + if r.key == key && !Live(x, key, r.now) then l.burst else 0.0
    {
      AdmitOk(x, r, l, c);
      StepCredit(x, r, l, key, c, end);
    }
    forall x: Store, c: real | ok(x, c) && c <= end ensures 0.0 <= credit(x, c) { KeyCreditNotNegative(x, l, key, c, end); }
    KeyCreditBound(step, credit, ok, l.burst, s, reqs, key, clock, end);
    KeyCreditNotNegative(s, l, key, clock, end);
  }

  // ---------- How often a bucket can be replaced ----------

  /** A step makes a new bucket for `key` only for a request of it, and only when there is none or it is past its TTL. */
  ghost predicate CreationRule(step: StoreStep, ok: Clocked, key: string, ttl: real) {
    forall x: Store, r: Request, c: real {:trigger ok(x, c), step(x, r)} :: ok(x, c) && c <= r.now ==>
      && ok(step(x, r).0, r.now)
      && (key in x.items ==> x.items[key].created <= c)
      && (r.key == key ==> key in step(x, r).0.items)
      && if r.key == key && !Live(x, key, r.now)
         then && step(x, r).0.items[key].created == r.now
              && (key in x.items ==> r.now - x.items[key].created > ttl)
         else key in step(x, r).0.items ==> key in x.items && step(x, r).0.items[key].created == x.items[key].created
  }

  /** New buckets of a key that is never evicted are more than a TTL apart. */
  lemma {:induction false} CreationsSpaced(step: StoreStep, ok: Clocked, s: Store, reqs: seq<Request>, key: string, ttl: real, clock: real, end: real)
    requires CreationRule(step, ok, key, ttl) && ok(s, clock) && NeverEvicted(step, s, reqs, key)
    requires clock <= end && RequestsInOrder(clock, reqs) && (reqs != [] ==> reqs[|reqs| - 1].now <= end)
    ensures var n := Creations(step, s, reqs, key);
            n > 0 ==> Bursts(ttl, n - 1) <= end - clock && (key in s.items ==> Bursts(ttl, n) <= end - s.items[key].created)
    decreases |reqs|
  {
    if reqs != [] {
      LatestRequest(reqs[0].now, reqs[1..]);
      CreationsSpaced(step, ok, step(s, reqs[0]).0, reqs[1..], key, ttl, reqs[0].now, end);
    }
  }

  /** When new buckets are made for `key`. */
  function CreationTimes(step: StoreStep, s: Store, reqs: seq<Request>, key: string): seq<real>
    decreases |reqs|
  {
    if reqs == [] then []
    else (if reqs[0].key == key && !Live(s, key, reqs[0].now) then [reqs[0].now] else [])
         + CreationTimes(step, step(s, reqs[0]).0, reqs[1..], key)
  }

  ghost predicate Apart(times: seq<real>, gap: real) {
    forall i :: 0 < i < |times| ==> times[i] - times[i - 1] > gap
  }

  lemma ApartPrepend(t: real, times: seq<real>, gap: real)
    requires Apart(times, gap) && (times != [] ==> times[0] - t > gap)
    ensures Apart([t] + times, gap)
  {
    forall i | 0 < i < |[t] + times| ensures ([t] + times)[i] - ([t] + times)[i - 1] > gap {
      if i > 1 { assert times[i - 1] - times[i - 2] > gap; }
    }
  }

  lemma {:induction false} CreationsApartBy(step: StoreStep, ok: Clocked, s: Store, reqs: seq<Request>, key: string, ttl: real, clock: real)
    requires CreationRule(step, ok, key, ttl) && ok(s, clock) && NeverEvicted(step, s, reqs, key) && RequestsInOrder(clock, reqs)
    ensures var times := CreationTimes(step, s, reqs, key);
            && |times| == Creations(step, s, reqs, key) && Apart(times, ttl)
            && (times != [] && key in s.items ==> times[0] - s.items[key].created > ttl)
    decreases |reqs|
  {
    if reqs != [] {
      var r, s' := reqs[0], step(s, reqs[0]).0;
      CreationsApartBy(step, ok, s', reqs[1..], key, ttl, r.now);
      var later := CreationTimes(step, s', reqs[1..], key);
      if r.key == key && !Live(s, key, r.now) { ApartPrepend(r.now, later, ttl); } else { assert [] + later == later; }
    }
  }

  /** Each new bucket of a key that is not evicted comes more than the time to live after the one before. */
  lemma ReplacementsApart(s: Store, reqs: seq<Request>, l: Limits, key: string, clock: real)
    requires StoreOk(s, l, clock) && RequestsInOrder(clock, reqs) && NeverEvicted(AdmitStep(l), s, reqs, key)
    ensures var times := CreationTimes(AdmitStep(l), s, reqs, key);
            && |times| == Creations(AdmitStep(l), s, reqs, key) && Apart(times, s.ttl)
            && (times != [] && key in s.items ==> times[0] - s.items[key].created > s.ttl)
  {
    AdmitCreationRule(l, key, s.ttl);
    CreationsApartBy(AdmitStep(l), OkWithTtl(l, s.ttl), s, reqs, key, s.ttl, clock);
  }

  ghost function OkWithTtl(l: Limits, ttl: real): Clocked {
    (x, c) => StoreOk(x, l, c) && x.ttl == ttl
  }

  lemma AdmitCreationRule(l: Limits, key: string, ttl: real)
    ensures CreationRule(AdmitStep(l), OkWithTtl(l, ttl), key, ttl)
  {
    var step, ok := AdmitStep(l), OkWithTtl(l, ttl);
    forall x: Store, r: Request, c: real {:trigger ok(x, c), step(x, r)} | ok(x, c) && c <= r.now
      ensures ok(step(x, r).0, r.now)
      ensures key in x.items ==> x.items[key].created <= c
      ensures r.key == key ==> key in step(x, r).0.items
      ensures if r.key == key && !Live(x, key, r.now)
              then && step(x, r).0.items[key].created == r.now
                   && (key in x.items ==> r.now - x.items[key].created > ttl)
              else key in step(x, r).0.items ==> key in x.items && step(x, r).0.items[key].created == x.items[key].created
    {
      AdmitOk(x, r, l, c);
      AdmitSpec(x, r, l);
    }
  }

  lemma StoreOkLater(s: Store, l: Limits, clock: real, later: real)
    requires StoreOk(s, l, clock) && clock <= later
    ensures StoreOk(s, l, later)
  {
    forall k | k in s.items ensures EntryOk(s.items[k], l, later) { assert EntryOk(s.items[k], l, clock); }
  }

  lemma WholeTtls(ttl: real, w: real, n: nat)
    requires 0.0 < ttl && Bursts(ttl, n) <= w
    ensures n <= (w / ttl).Floor
  {
    BurstsIs(ttl, n);
    TtlsFit(ttl, w, n as real);
  }

  lemma TtlsFit(ttl: real, w: real, n: real)
    requires 0.0 < ttl && n * ttl <= w
    ensures n <= w / ttl
  {
    var q := w / ttl;
    assert q * ttl == w;
    if q < n { ScaleStrict(ttl, q, n); }
  }

  lemma CreationsApart(s: Store, reqs: seq<Request>, l: Limits, key: string, start: real, w: real)
    requires StoreOk(s, l, start) && RequestsInOrder(start, reqs) && s.ttl > 0.0 && 0.0 <= w
    requires reqs != [] ==> reqs[|reqs| - 1].now <= start + w
    requires NeverEvicted(AdmitStep(l), s, reqs, key)
    ensures var n := Creations(AdmitStep(l), s, reqs, key); n > 0 ==> Bursts(s.ttl, n - 1) <= w
  {
    AdmitCreationRule(l, key, s.ttl);
    CreationsSpaced(AdmitStep(l), OkWithTtl(l, s.ttl), s, reqs, key, s.ttl, start, start + w);
  }

  lemma CountFits(ttl: real, w: real, n: nat)
    requires 0.0 < ttl && 0.0 <= w && (n > 0 ==> Bursts(ttl, n - 1) <= w)
    ensures 0 <= (w / ttl).Floor && n <= (w / ttl).Floor + 1
  {
    WholeTtls(ttl, w, 0);
    if n > 0 { WholeTtls(ttl, w, n - 1); }
  }

  lemma CreationsInWindow(s: Store, reqs: seq<Request>, l: Limits, key: string, start: real, w: real)
    requires StoreOk(s, l, start) && RequestsInOrder(start, reqs) && s.ttl > 0.0 && 0.0 <= w
    requires reqs != [] ==> reqs[|reqs| - 1].now <= start + w
    requires NeverEvicted(AdmitStep(l), s, reqs, key)
    ensures 0 <= (w / s.ttl).Floor && Creations(AdmitStep(l), s, reqs, key) <= (w / s.ttl).Floor + 1
  {
    CreationsApart(s, reqs, l, key, start, w);
    CountFits(s.ttl, w, Creations(AdmitStep(l), s, reqs, key));
  }

  lemma KeyWindowBursts(s: Store, reqs: seq<Request>, l: Limits, key: string, start: real, w: real)
    requires StoreOk(s, l, start) && RequestsInOrder(start, reqs) && s.ttl > 0.0 && 0.0 <= w
    requires reqs != [] ==> reqs[|reqs| - 1].now <= start + w
    requires NeverEvicted(AdmitStep(l), s, reqs, key)
    ensures 0 <= (w / s.ttl).Floor
    ensures KeyAdmitted(AdmitStep(l), s, reqs, key) as real <= Bursts(l.burst, (w / s.ttl).Floor + 2) + Gain(l.rate, start, start + w)
  {
    CreationsInWindow(s, reqs, l, key, start, w);
    KeySpendingBound(s, reqs, l, key, start, start + w);
    BurstsGrow(l.burst, Creations(AdmitStep(l), s, reqs, key), (w / s.ttl).Floor + 1);
  }

  lemma BurstsAndGain(l: Limits, n: nat, start: real, w: real)
    ensures Bursts(l.burst, n) + Gain(l.rate, start, start + w) == n as real * l.burst + w * l.rate
  {
    BurstsIs(l.burst, n);
    assert start + w - start == w;
  }

  lemma WindowStarts(s: Store, reqs: seq<Request>, l: Limits, clock: real, w: real)
    requires StoreOk(s, l, clock) && RequestsInOrder(clock, reqs)
    requires reqs != [] && reqs[|reqs| - 1].now - reqs[0].now <= w
    ensures StoreOk(s, l, reqs[0].now) && RequestsInOrder(reqs[0].now, reqs) && 0.0 <= w && reqs[|reqs| - 1].now <= reqs[0].now + w
  {
    LatestRequest(reqs[0].now, reqs[1..]);
    StoreOkLater(s, l, clock, reqs[0].now);
  }

  lemma KeyWindowCount(s: Store, reqs: seq<Request>, l: Limits, key: string, clock: real, w: real) returns (n: nat)
    requires StoreOk(s, l, clock) && RequestsInOrder(clock, reqs) && s.ttl > 0.0
    requires reqs != [] && reqs[|reqs| - 1].now - reqs[0].now <= w
    requires NeverEvicted(AdmitStep(l), s, reqs, key)
    ensures n == (w / s.ttl).Floor + 2
    ensures KeyAdmitted(AdmitStep(l), s, reqs, key) as real <= Bursts(l.burst, n) + Gain(l.rate, reqs[0].now, reqs[0].now + w)
  {
    WindowStarts(s, reqs, l, clock, w);
    KeyWindowBursts(s, reqs, l, key, reqs[0].now, w);
    n := (w / s.ttl).Floor + 2;
  }

  /** The most that limits and a time to live let one key have in a window of length `w`. */
  function Most(l: Limits, ttl: real, w: real): real
    requires ttl > 0.0
  {
    ((w / ttl).Floor + 2) as real * l.burst + w * l.rate
  }

  lemma MostIs(l: Limits, ttl: real, w: real, n: nat, start: real)
    requires ttl > 0.0 && n == (w / ttl).Floor + 2
    ensures Bursts(l.burst, n) + Gain(l.rate, start, start + w) == Most(l, ttl, w)
  {
    BurstsAndGain(l, n, start, w);
  }

  /** A key that is never evicted is admitted at most (floor(w / ttl) + 2) bursts plus the refill in any window of length `w`. */
  lemma KeyWindowBound(s: Store, reqs: seq<Request>, l: Limits, key: string, clock: real, w: real)
    requires StoreOk(s, l, clock) && RequestsInOrder(clock, reqs) && s.ttl > 0.0
    requires reqs != [] && reqs[|reqs| - 1].now - reqs[0].now <= w
    requires NeverEvicted(AdmitStep(l), s, reqs, key)
    ensures KeyAdmitted(AdmitStep(l), s, reqs, key) as real <= Most(l, s.ttl, w)
  {
    var n := KeyWindowCount(s, reqs, l, key, clock, w);
    MostIs(l, s.ttl, w, n, reqs[0].now);
  }

  // ---------- Which keys survive ----------

  /** `key` is listed, and every key used more recently is one of `others`. */
  ghost predicate RecentAmong(order: seq<string>, key: string, others: set<string>) {
    exists i :: 0 <= i < |order| && order[i] == key && forall j :: i < j < |order| ==> order[j] in others
  }

  lemma {:induction false} RemoveKeepsRecent(order: seq<string>, gone: string, key: string, others: set<string>)
    requires NoDuplicates(order) && RecentAmong(order, key, others) && gone != key
    ensures RecentAmong(Remove(order, gone), key, others - {gone})
    decreases |order|
  {
    var i :| 0 <= i < |order| && order[i] == key && forall j :: i < j < |order| ==> order[j] in others;
    var rest := order[1..];
    if order[0] == gone {
      assert rest[i - 1] == key;
      assert forall j :: i - 1 < j < |rest| ==> rest[j] == order[j + 1] != gone;
    } else if i == 0 {
      RemoveSpec(rest, gone);
      var r := Remove(order, gone);
      assert r == [key] + Remove(rest, gone);
      forall j | 0 < j < |r| ensures r[j] in others - {gone} {
        assert r[j] in Remove(rest, gone);
        var k :| 0 <= k < |rest| && rest[k] == r[j];
        assert order[k + 1] == r[j];
      }
      assert r[0] == key;
    } else {
      assert rest[i - 1] == key && forall j :: i - 1 < j < |rest| ==> rest[j] == order[j + 1];
      RemoveKeepsRecent(rest, gone, key, others);
      var r := Remove(rest, gone);
      var k :| 0 <= k < |r| && r[k] == key && forall j :: k < j < |r| ==> r[j] in others - {gone};
      assert ([order[0]] + r)[k + 1] == key;
    }
  }

  /** Keys listed after `key` are distinct members of `others`, so there are no more of them than others. */
  lemma RecentCount(order: seq<string>, i: nat, others: set<string>)
    requires NoDuplicates(order) && i < |order| && forall j :: i < j < |order| ==> order[j] in others
    ensures |order| - i - 1 <= |others|
  {
    var tail := order[i + 1..];
    var s := set k | k in tail;
    EnumerationSize(tail, s);
    forall k | k in s ensures k in others { var j :| 0 <= j < |tail| && tail[j] == k; assert order[i + 1 + j] == k; }
    SubsetSize(s, others);
  }

  /** One request of another key cannot push `key` out while fewer than `maxKeys` others are in use. */
  lemma SurvivesRequest(s: Store, r: Request, l: Limits, key: string, others: set<string>, clock: real)
    requires StoreOk(s, l, clock) && RecentAmong(s.order, key, others)
    requires key !in others && r.key in others && |others| < s.maxKeys
    ensures var s' := Admit(s, r, l).0; RecentAmong(s'.order, key, others) && key in s'.items && s'.items[key] == s.items[key]
  {
    AdmitSpec(s, r, l);
    if Live(s, r.key, r.now) {
      RecentAfterMove(s, r.key, key, others);
    } else {
      var room, n := RoomSpec(s, r.key, r.now);
      RecentAfterEviction(s, r.key, key, others, room.order, n);
    }
    assert key in Admit(s, r, l).0.order;
  }

  /** Moving another key to the end leaves `key` with only others after it. */
  lemma RecentAfterMove(s: Store, used: string, key: string, others: set<string>)
    requires NoDuplicates(s.order) && (forall k :: k in s.order <==> k in s.items) && used in s.items
    requires RecentAmong(s.order, key, others) && key != used && used in others
    ensures RecentAmong(Remove(s.order, used) + [used], key, others)
  {
    var i := RecentIndex(s, used, key, others);
    assert (Remove(s.order, used) + [used])[i] == key;
  }

  /** Dropping `n` keys to make room stops before `key`, and then a new one is appended. */
  lemma RecentAfterDrop(without: seq<string>, i: nat, used: string, key: string, others: set<string>, n: nat)
    requires i < |without| && without[i] == key && n <= i && used in others
    requires forall j :: i < j < |without| ==> without[j] in others
    ensures RecentAmong(without[n..] + [used], key, others)
  {
    var after := without[n..] + [used];
    assert after[i - n] == key;
    forall j | i - n < j < |after| ensures after[j] in others { if j < |without| - n { assert after[j] == without[n + j]; } }
  }

  /** Evicting `n` keys for a new one stops before `key`. */
  lemma RecentAfterEviction(s: Store, used: string, key: string, others: set<string>, room: seq<string>, n: nat)
    requires NoDuplicates(s.order) && (forall k :: k in s.order <==> k in s.items)
    requires RecentAmong(s.order, key, others) && key != used && used in others && |others| < s.maxKeys
    requires var without := if used in s.items then Remove(s.order, used) else s.order;
             n <= |without| && room == without[n..] && (n > 0 ==> |without| - n + 1 >= s.maxKeys)
    ensures RecentAmong(room + [used], key, others)
  {
    var without := if used in s.items then Remove(s.order, used) else s.order;
    var i := RecentIndex(s, used, key, others);
    RemoveSpec(s.order, used);
    RecentCount(without, i, others - {used});
    RecentAfterDrop(without, i, used, key, others, n);
  }

  lemma RecentIndex(s: Store, gone: string, key: string, others: set<string>) returns (i: nat)
    requires NoDuplicates(s.order) && (forall k :: k in s.order <==> k in s.items)
    requires RecentAmong(s.order, key, others) && gone != key
    ensures var without := if gone in s.items then Remove(s.order, gone) else s.order;
            i < |without| && without[i] == key && forall j :: i < j < |without| ==> without[j] in others - {gone}
  {
    RemoveKeepsRecent(s.order, gone, key, others);
    if gone in s.items {
      i :| 0 <= i < |Remove(s.order, gone)| && Remove(s.order, gone)[i] == key
           && forall j :: i < j < |Remove(s.order, gone)| ==> Remove(s.order, gone)[j] in others - {gone};
    } else {
      i :| 0 <= i < |s.order| && s.order[i] == key && forall j :: i < j < |s.order| ==> s.order[j] in others;
      forall j | i < j < |s.order| ensures s.order[j] != gone { assert s.order[j] in s.order; }
    }
  }

  function RunStore(l: Limits, s: Store, reqs: seq<Request>): Store
    decreases |reqs|
  {
    if reqs == [] then s else RunStore(l, Admit(s, reqs[0], l).0, reqs[1..])
  }

  /** Least recently used: a key keeps its bucket while fewer than `maxKeys` distinct other keys have been requested since. */
  lemma {:induction false} RecentSurvives(s: Store, reqs: seq<Request>, l: Limits, key: string, others: set<string>, clock: real)
    requires StoreOk(s, l, clock) && RequestsInOrder(clock, reqs) && RecentAmong(s.order, key, others)
    requires key !in others && |others| < s.maxKeys && forall i :: 0 <= i < |reqs| ==> reqs[i].key in others
    ensures var e := RunStore(l, s, reqs); key in s.items && key in e.items && e.items[key] == s.items[key]
    decreases |reqs|
  {
    assert key in s.order;
    if reqs != [] {
      SurvivesRequest(s, reqs[0], l, key, others, clock);
      AdmitOk(s, reqs[0], l, clock);
      AdmitSpec(s, reqs[0], l);
      RecentSurvives(Admit(s, reqs[0], l).0, reqs[1..], l, key, others, reqs[0].now);
    }
  }

  /** With no more than `maxKeys` keys in all, no key is ever evicted. */
  lemma {:induction false} FewKeysNeverEvicted(s: Store, reqs: seq<Request>, l: Limits, key: string, others: set<string>, clock: real)
    requires StoreOk(s, l, clock) && RequestsInOrder(clock, reqs)
    requires key !in others && |others| < s.maxKeys
    requires (forall k :: k in s.items ==> k == key || k in others) && forall i :: 0 <= i < |reqs| ==> reqs[i].key == key || reqs[i].key in others
    ensures NeverEvicted(AdmitStep(l), s, reqs, key)
    decreases |reqs|
  {
    if reqs != [] {
      var r := reqs[0];
      AdmitOk(s, r, l, clock);
      AdmitSpec(s, r, l);
      if r.key != key && key in s.items {
        AllAmong(s, key, others);
        SurvivesRequest(s, r, l, key, others, clock);
      }
      FewKeysNeverEvicted(Admit(s, r, l).0, reqs[1..], l, key, others, r.now);
    }
  }

  lemma AllAmong(s: Store, key: string, others: set<string>)
    requires NoDuplicates(s.order) && (forall k :: k in s.order <==> k in s.items) && key in s.items
    requires forall k :: k in s.items ==> k == key || k in others
    ensures RecentAmong(s.order, key, others)
  {
    var i :| 0 <= i < |s.order| && s.order[i] == key;
    forall j | i < j < |s.order| ensures s.order[j] in others { assert s.order[j] in s.order; }
  }

  // ---------- Retry-After ----------

  lemma {:induction false} RunStoreOk(l: Limits, s: Store, reqs: seq<Request>, clock: real)
    requires StoreOk(s, l, clock) && RequestsInOrder(clock, reqs)
    ensures StoreOk(RunStore(l, s, reqs), l, if reqs == [] then clock else reqs[|reqs| - 1].now)
    ensures RunStore(l, s, reqs).ttl == s.ttl
    decreases |reqs|
  {
    if reqs != [] {
      AdmitOk(s, reqs[0], l, clock);
      AdmitSpec(s, reqs[0], l);
      RunStoreOk(l, Admit(s, reqs[0], l).0, reqs[1..], reqs[0].now);
    }
  }

  lemma {:induction false} OthersKeepEntry(s: Store, reqs: seq<Request>, l: Limits, key: string, clock: real)
    requires StoreOk(s, l, clock) && RequestsInOrder(clock, reqs) && forall i :: 0 <= i < |reqs| ==> reqs[i].key != key
    ensures var e := RunStore(l, s, reqs); key in e.items ==> key in s.items && e.items[key] == s.items[key]
    decreases |reqs|
  {
    if reqs != [] {
      AdmitOk(s, reqs[0], l, clock);
      AdmitSpec(s, reqs[0], l);
      OthersKeepEntry(Admit(s, reqs[0], l).0, reqs[1..], l, key, reqs[0].now);
    }
  }

  lemma OthersLeaveEntry(s: Store, reqs: seq<Request>, l: Limits, key: string, clock: real)
    requires StoreOk(s, l, clock) && RequestsInOrder(clock, reqs) && forall i :: 0 <= i < |reqs| ==> reqs[i].key != key
    ensures var e := RunStore(l, s, reqs);
            && e.ttl == s.ttl && (key in e.items ==> key in s.items && e.items[key] == s.items[key])
            && StoreOk(e, l, if reqs == [] then clock else reqs[|reqs| - 1].now)
  {
    OthersKeepEntry(s, reqs, l, key, clock);
    RunStoreOk(l, s, reqs, clock);
  }

  /**
    After a rejection, the key's next request at or after the header's delay is admitted: from the bucket
    if the store still has it, from a new full one if it expired or was evicted meanwhile.
   */
  lemma RetryAfterSuffices(s: Store, r: Request, between: seq<Request>, again: Request, l: Limits, clock: real)
    requires StoreOk(s, l, clock) && clock <= r.now && l.rate > 0.0 && l.burst >= 1.0
    requires RequestsInOrder(r.now, between) && (forall i :: 0 <= i < |between| ==> between[i].key != r.key)
    requires !Admit(s, r, l).1 && again.key == r.key
    requires again.now >= r.now + RetryAfterHeader(RetryDelay(Admit(s, r, l).0.items[r.key].bucket)) as real
    requires between != [] ==> between[|between| - 1].now <= again.now
    ensures Admit(RunStore(l, Admit(s, r, l).0, between), again, l).1
  {
    AdmitSpec(s, r, l);
    AdmitOk(s, r, l, clock);
    var s1 := Admit(s, r, l).0;
    var b := FetchedEntry(s, r.key, l, r.now).bucket;
    OthersLeaveEntry(s1, between, l, r.key, r.now);
    var s2 := RunStore(l, s1, between);
    AdmitSpec(s2, again, l);
    HeaderCovers(RetryDelay(Take(b, r.now).bucket));
    RetryAfterIff(b, r.now, again.now);
    RefillNow(NewBucket(l.burst, l.rate, again.now));
  }

  // ---------- Spaced requests ----------

  /** The key's requests come no earlier than `due`, and then at least `gap` apart. */
  ghost predicate KeySpaced(reqs: seq<Request>, key: string, gap: real, due: real)
    decreases |reqs|
  {
    reqs == [] ||
    if reqs[0].key == key then due <= reqs[0].now && KeySpaced(reqs[1..], key, gap, reqs[0].now + gap)
    else KeySpaced(reqs[1..], key, gap, due)
  }

  function KeyRequests(reqs: seq<Request>, key: string): nat {
    if reqs == [] then 0 else Bit(reqs[0].key == key) + KeyRequests(reqs[1..], key)
  }

  /** If the store has a bucket for the key, it holds a token from `due` on. */
  ghost predicate Ready(s: Store, key: string, due: real) {
    key in s.items ==> forall u :: due <= u ==> Refill(s.items[key].bucket, u).tokens >= 1.0
  }

  lemma OwnRequestReady(s: Store, r: Request, l: Limits, clock: real, due: real)
    requires StoreOk(s, l, clock) && clock <= r.now && l.rate > 0.0 && l.burst >= 1.0 && Ready(s, r.key, due) && due <= r.now
    ensures Admit(s, r, l).1 && Ready(Admit(s, r, l).0, r.key, r.now + 1.0 / l.rate)
  {
    AdmitSpec(s, r, l);
    var b := FetchedEntry(s, r.key, l, r.now).bucket;
    RefillNow(NewBucket(l.burst, l.rate, r.now));
    if Live(s, r.key, r.now) { assert EntryOk(s.items[r.key], l, clock); }
    forall u | r.now + 1.0 / l.rate <= u ensures Refill(Take(b, r.now).bucket, u).tokens >= 1.0 { FullAgain(b, r.now, u); }
  }

  lemma OtherRequestReady(s: Store, r: Request, l: Limits, clock: real, key: string, due: real)
    requires StoreOk(s, l, clock) && r.key != key && Ready(s, key, due)
    ensures Ready(Admit(s, r, l).0, key, due)
  {
    AdmitSpec(s, r, l);
  }

  lemma {:induction false} ReadyAllAdmitted(s: Store, reqs: seq<Request>, l: Limits, key: string, clock: real, due: real)
    requires StoreOk(s, l, clock) && RequestsInOrder(clock, reqs) && l.rate > 0.0 && l.burst >= 1.0
    requires Ready(s, key, due) && KeySpaced(reqs, key, 1.0 / l.rate, due)
    ensures KeyAdmitted(AdmitStep(l), s, reqs, key) == KeyRequests(reqs, key)
    decreases |reqs|
  {
    if reqs != [] {
      var r, s', due' := reqs[0], Admit(s, reqs[0], l).0, if reqs[0].key == key then reqs[0].now + 1.0 / l.rate else due;
      if r.key == key { OwnRequestReady(s, r, l, clock, due); } else { OtherRequestReady(s, r, l, clock, key, due); }
      AdmitOk(s, r, l, clock);
      ReadyAllAdmitted(s', reqs[1..], l, key, r.now, due');
    }
  }

  /**
    A key whose requests are at least 1/rate apart is never rejected after its first, whatever other keys
    do and whether its bucket expires or is evicted meanwhile.
   */
  lemma SpacedNeverRejected(s: Store, first: Request, reqs: seq<Request>, l: Limits, clock: real)
    requires StoreOk(s, l, clock) && clock <= first.now && l.rate > 0.0 && l.burst >= 1.0
    requires RequestsInOrder(first.now, reqs) && KeySpaced(reqs, first.key, 1.0 / l.rate, first.now + 1.0 / l.rate)
    ensures KeyAdmitted(AdmitStep(l), Admit(s, first, l).0, reqs, first.key) == KeyRequests(reqs, first.key)
  {
    AdmitSpec(s, first, l);
    AdmitOk(s, first, l, clock);
    var b := FetchedEntry(s, first.key, l, first.now).bucket;
    forall u | first.now + 1.0 / l.rate <= u ensures Refill(Take(b, first.now).bucket, u).tokens >= 1.0 { FullAgain(b, first.now, u); }
    ReadyAllAdmitted(Admit(s, first, l).0, reqs, l, first.key, first.now, first.now + 1.0 / l.rate);
  }

  /** A key the store does not hold, as every key at start-up, is never rejected at all if its requests are so spaced. */
  lemma SpacedNewKeyNeverRejected(s: Store, reqs: seq<Request>, l: Limits, key: string, clock: real)
    requires StoreOk(s, l, clock) && RequestsInOrder(clock, reqs) && l.rate > 0.0 && l.burst >= 1.0
    requires key !in s.items && KeySpaced(reqs, key, 1.0 / l.rate, clock)
    ensures KeyAdmitted(AdmitStep(l), s, reqs, key) == KeyRequests(reqs, key)
  {
    ReadyAllAdmitted(s, reqs, l, key, clock, clock);
  }

  // ---------- Bursts through the store ----------

  /** If the store has a bucket for the key, it holds at least `n` tokens. */
  ghost predicate Stocked(s: Store, key: string, n: int) {
    key in s.items ==> s.items[key].bucket.tokens >= n as real
  }

  lemma RefillKeeps(b: Bucket, u: real)
    requires BucketOk(b) && b.last <= u
    ensures Refill(b, u).tokens >= b.tokens
  {
  }

  lemma OwnRequestStocked(s: Store, r: Request, l: Limits, clock: real, n: int)
    requires StoreOk(s, l, clock) && clock <= r.now && 1 <= n <= l.burst.Floor && (Live(s, r.key, r.now) ==> Stocked(s, r.key, n))
    ensures Admit(s, r, l).1 && Stocked(Admit(s, r, l).0, r.key, n - 1)
  {
    AdmitSpec(s, r, l);
    if Live(s, r.key, r.now) { assert EntryOk(s.items[r.key], l, clock); }
    var b := FetchedEntry(s, r.key, l, r.now).bucket;
    RefillKeeps(b, r.now);
  }

  lemma OtherRequestStocked(s: Store, r: Request, l: Limits, clock: real, key: string, n: int)
    requires StoreOk(s, l, clock) && r.key != key && Stocked(s, key, n)
    ensures Stocked(Admit(s, r, l).0, key, n)
  {
    AdmitSpec(s, r, l);
  }

  lemma {:induction false} StockedAllAdmitted(s: Store, reqs: seq<Request>, l: Limits, key: string, clock: real, n: nat)
    requires StoreOk(s, l, clock) && RequestsInOrder(clock, reqs) && Stocked(s, key, n) && KeyRequests(reqs, key) <= n <= l.burst.Floor
    ensures KeyAdmitted(AdmitStep(l), s, reqs, key) == KeyRequests(reqs, key)
    decreases |reqs|
  {
    if reqs != [] {
      var r, s', n' := reqs[0], Admit(s, reqs[0], l).0, if reqs[0].key == key then n - 1 else n;
      if r.key == key { OwnRequestStocked(s, r, l, clock, n); } else { OtherRequestStocked(s, r, l, clock, key, n); }
      AdmitOk(s, r, l, clock);
      StockedAllAdmitted(s', reqs[1..], l, key, r.now, n');
    }
  }

  /**
    A key the store does not hold, or holds past the time to live, has its whole burst: its first floor(burst)
    requests are all admitted, however close together and whatever other keys do.
   */
  lemma FirstBurstAdmitted(s: Store, first: Request, reqs: seq<Request>, l: Limits, clock: real)
    requires StoreOk(s, l, clock) && clock <= first.now && RequestsInOrder(first.now, reqs)
    requires first.key in s.items ==> first.now - s.items[first.key].created > s.ttl
    requires 1 + KeyRequests(reqs, first.key) <= l.burst.Floor
    ensures Admit(s, first, l).1
    ensures KeyAdmitted(AdmitStep(l), Admit(s, first, l).0, reqs, first.key) == KeyRequests(reqs, first.key)
  {
    OwnRequestStocked(s, first, l, clock, l.burst.Floor);
    AdmitOk(s, first, l, clock);
    StockedAllAdmitted(Admit(s, first, l).0, reqs, l, first.key, first.now, l.burst.Floor - 1);
  }

  /** Past its time to live, counted from its creation, a bucket is replaced by a full one; until then it is kept. */
  lemma ExpiryReplaces(s: Store, r: Request, l: Limits, clock: real)
    requires StoreOk(s, l, clock) && clock <= r.now
    ensures var e := Admit(s, r, l).0.items;
            r.key in e &&
            if r.key in s.items && r.now - s.items[r.key].created <= s.ttl
            then e[r.key].created == s.items[r.key].created && e[r.key].bucket == Take(s.items[r.key].bucket, r.now).bucket
            else e[r.key].created == r.now && e[r.key].bucket.last == r.now && e[r.key].bucket.max == l.burst && e[r.key].bucket.rate == l.rate
                 && e[r.key].bucket.tokens == if l.burst >= 1.0 then l.burst - 1.0 else l.burst
  {
    AdmitSpec(s, r, l);
    RefillNow(NewBucket(l.burst, l.rate, r.now));
  }

  /** The requested key is then the most recently used, and the store is within its size. */
  lemma UsedLast(s: Store, r: Request, l: Limits, clock: real)
    requires StoreOk(s, l, clock) && clock <= r.now && s.maxKeys >= 1 && |s.order| <= s.maxKeys
    ensures var s' := Admit(s, r, l).0; s'.order != [] && s'.order[|s'.order| - 1] == r.key && |s'.order| <= s.maxKeys
  {
    FetchSpec(s, r.key, l, r.now);
    AdmitSpec(s, r, l);
  }
}
