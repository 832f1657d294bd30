/**
  Token buckets and the LRU store that holds them (meritmolt/ratelimit.py), as values. Time and tokens
  are reals; each call reads the clock once.
 */
module RateLimit {
  datatype Bucket = Bucket(max: real, rate: real, tokens: real, last: real)

  function Min(a: real, b: real): real {
    if a <= b then a else b
  }

  /** A new bucket is full. */
  function NewBucket(max: real, rate: real, now: real): Bucket {
    Bucket(max, rate, if max > 0.0 then max else 0.0, now)
  }

  /** The tokens that flow in between two moments. */
  function Gain(rate: real, from: real, to: real): (g: real)
    ensures 0.0 <= rate && from <= to ==> 0.0 <= g
  {
    (to - from) * rate
  }

  function Refill(b: Bucket, now: real): Bucket {
    b.(tokens := Min(b.max, b.tokens + Gain(b.rate, b.last, now)), last := now)
  }

  datatype Taken = Taken(bucket: Bucket, allowed: bool)

  /** Refill, then take a token if there is one. */
  function Take(b: Bucket, now: real): Taken {
    var r := Refill(b, now);
    if r.tokens >= 1.0 then Taken(r.(tokens := r.tokens - 1.0), true) else Taken(r, false)
  }

  /** The delay reported for the bucket a rejected call leaves. */
  function RetryDelay(b: Bucket): real {
    if b.rate <= 0.0 then 60.0 else (1.0 - b.tokens) / b.rate
  }

  /** What a call reports: admitted or not, and when to come back. */
  function Report(t: Taken): (bool, real) {
    (t.allowed, if t.allowed then 0.0 else RetryDelay(t.bucket))
  }

  /** The Retry-After header: whole seconds, at least one. */
  function RetryAfterHeader(retryAfter: real): int {
    var up := -((-retryAfter).Floor);
    if up < 1 then 1 else up
  }

  // ---------- The store ----------

  datatype Entry = Entry(bucket: Bucket, created: real)

  /** `order` lists the keys from least to most recently used. */
  datatype Store = Store(maxKeys: int, ttl: real, order: seq<string>, items: map<string, Entry>)

  function Remove(order: seq<string>, key: string): seq<string> {
    if order == [] then []
    else if order[0] == key then order[1..]
    else [order[0]] + Remove(order[1..], key)
  }

  /** Drop keys from the front while the store is full. */
  function Evict(s: Store): Store
    decreases |s.order|
  {
    if |s.order| >= s.maxKeys && s.order != [] then
      Evict(s.(order := s.order[1..], items := s.items - {s.order[0]}))
    else s
  }

  function Live(s: Store, key: string, now: real): bool {
    key in s.items && now - s.items[key].created <= s.ttl
  }

  function GetOrCreate(s: Store, key: string, burst: real, rate: real, now: real): Store {
    if Live(s, key, now) then s.(order := Remove(s.order, key) + [key])
    else
      var gone := if key in s.items then s.(order := Remove(s.order, key), items := s.items - {key}) else s;
      var room := Evict(gone);
      room.(order := room.order + [key], items := room.items[key := Entry(NewBucket(burst, rate, now), now)])
  }

  datatype Request = Request(key: string, now: real)
  datatype Limits = Limits(burst: real, rate: real)

  /** The admit path of the middleware: fetch the bucket, then try it. */
  function Admit(s: Store, r: Request, l: Limits): (Store, bool) {
    var s1 := GetOrCreate(s, r.key, l.burst, l.rate, r.now);
    if r.key !in s1.items then (s1, false)
    else
      var a := Take(s1.items[r.key].bucket, r.now);
      (s1.(items := s1.items[r.key := s1.items[r.key].(bucket := a.bucket)]), a.allowed)
  }
}
