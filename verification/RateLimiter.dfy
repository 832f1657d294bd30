/**
  The rate limiter's objects: buckets updated in place, shared between the store and the request that
  fetched them. Each method is tied to the value it computes in RateLimit.
 */
module RateLimiter {
  import opened Collections
  import RL = RateLimit
  import opened BucketStoreProofs

  class TokenBucket {
    var maxTokens: real
    var refillRate: real
    var tokens: real
    var lastRefill: real

    function View(): RL.Bucket
      reads this
    {
      RL.Bucket(maxTokens, refillRate, tokens, lastRefill)
    }

    constructor (burst: real, rate: real, now: real)
      ensures View() == RL.NewBucket(burst, rate, now)
    {
      maxTokens, refillRate, tokens, lastRefill := burst, rate, 0.0, now;
      new;
      if tokens == 0.0 && maxTokens > 0.0 {
        tokens := maxTokens;
      }
    }

    method TryAcquire(now: real) returns (allowed: bool, retryAfter: real)
      modifies this
      ensures View() == RL.Take(old(View()), now).bucket
      ensures (allowed, retryAfter) == RL.Report(RL.Take(old(View()), now))
    {
      tokens := RL.Min(maxTokens, tokens + RL.Gain(refillRate, lastRefill, now));
      lastRefill := now;
      if tokens >= 1.0 {
        tokens := tokens - 1.0;
        return true, 0.0;
      }
      if refillRate <= 0.0 {
        return false, 60.0;
      }
      return false, (1.0 - tokens) / refillRate;
    }
  }

  type Items = map<string, (TokenBucket, real)>

  /** Order and items list the same keys once; no two keys share a bucket. */
  ghost predicate Consistent(order: seq<string>, items: Items) {
    && NoDuplicates(order) && (forall k :: k in order <==> k in items)
    && (forall k, q :: k in items && q in items && k != q ==> items[k].0 != items[q].0)
  }

  lemma PutConsistent(order: seq<string>, items: Items, key: string, bucket: TokenBucket, now: real)
    requires Consistent(order, items) && key !in items && forall k :: k in items ==> items[k].0 != bucket
    ensures Consistent(order + [key], items[key := (bucket, now)])
  {
    AppendNew(order, key);
  }

  class BucketStore {
    const maxKeys: int
    const ttl: real
    var order: seq<string>
    var items: Items

    /** The buckets the store holds. */
    ghost function Buckets(): set<TokenBucket>
      reads this
    {
      set k | k in items :: items[k].0
    }

    ghost predicate Valid()
      reads this
    {
      Consistent(order, items)
    }

    ghost function Entries(): map<string, RL.Entry>
      reads this, Buckets()
    {
      map k | k in items :: RL.Entry(items[k].0.View(), items[k].1)
    }

    ghost function View(): RL.Store
      reads this, Buckets()
    {
      RL.Store(maxKeys, ttl, order, Entries())
    }

    constructor (maxKeys: int, ttl: real)
      ensures Valid() && View() == RL.Store(maxKeys, ttl, [], map[]) && items == map[]
    {
      this.maxKeys, this.ttl := maxKeys, ttl;
      order, items := [], map[];
    }

    /** Drop a key. */
    method Forget(key: string)
      requires Valid() && key in items
      modifies this
      ensures Valid() && order == RL.Remove(old(order), key) && items == old(items) - {key}
      ensures Entries() == old(Entries()) - {key}
    {
      RemoveSpec(order, key);
      order := RL.Remove(order, key);
      items := items - {key};
    }

    /** Make a key the most recently used. */
    method MoveToEnd(key: string)
      requires Valid() && key in items
      modifies `order
      ensures Valid() && order == RL.Remove(old(order), key) + [key]
      ensures Entries() == old(Entries())
    {
      RemoveSpec(order, key);
      AppendNew(RL.Remove(order, key), key);
      order := RL.Remove(order, key) + [key];
    }

    /** Drop the least recently used key. */
    method PopFirst()
      requires Valid() && order != []
      modifies this
      ensures Valid() && items == old(items) - {old(order)[0]}
      ensures order == old(order)[1..] && Entries() == old(Entries()) - {old(order)[0]}
    {
      var first := order[0];
      RemoveSpec(order, first);
      assert RL.Remove(order, first) == order[1..];
      Forget(first);
    }

    /** Drop keys while the store is full. */
    method MakeRoom()
      requires Valid()
      modifies this
      ensures Valid() && View() == RL.Evict(old(View()))
      ensures items.Keys <= old(items).Keys && forall k :: k in items ==> items[k] == old(items[k])
    {
      ghost var full := View();
      while |order| >= maxKeys && order != []
        invariant Valid() && RL.Evict(View()) == RL.Evict(full)
        invariant items.Keys <= old(items).Keys && forall k :: k in items ==> items[k] == old(items[k])
        decreases |order|
      {
        PopFirst();
      }
    }

    /** List a bucket of no other key as the most recently used. */
    method Put(key: string, bucket: TokenBucket, now: real)
      requires Valid() && key !in items && bucket !in Buckets()
      modifies `order, `items
      ensures Valid() && items == old(items)[key := (bucket, now)] && order == old(order) + [key]
      ensures Entries() == old(Entries())[key := RL.Entry(bucket.View(), now)]
    {
      assert forall k :: k in items ==> items[k].0 in Buckets();
      PutConsistent(order, items, key, bucket, now);
      order := order + [key];
      items := items[key := (bucket, now)];
    }

    /** Add a new full bucket as the most recently used. */
    method Add(key: string, burst: real, rate: real, now: real) returns (bucket: TokenBucket)
      requires Valid() && key !in items
      modifies this
      ensures Valid() && fresh(bucket) && items == old(items)[key := (bucket, now)]
      ensures order == old(order) + [key]
      ensures Entries() == old(Entries())[key := RL.Entry(RL.NewBucket(burst, rate, now), now)]
    {
      bucket := new TokenBucket(burst, rate, now);
      assert Entries() == old(Entries());
      Put(key, bucket, now);
    }

    method GetOrCreate(key: string, burst: real, rate: real, now: real) returns (bucket: TokenBucket)
      requires Valid()
      modifies this
      ensures Valid() && View() == RL.GetOrCreate(old(View()), key, burst, rate, now)
      ensures key in items && items[key].0 == bucket && (bucket in old(Buckets()) || fresh(bucket))
      ensures forall k :: k in items && k != key ==> k in old(items) && items[k] == old(items[k])
    {
      if key in items {
        var (b, created) := items[key];
        if now - created > ttl {
          Forget(key);
        } else {
          MoveToEnd(key);
          return b;
        }
      }
      MakeRoom();
      bucket := Add(key, burst, rate, now);
    }

    /** The admit path: fetch the bucket, then try it. */
    method Admit(r: RL.Request, l: RL.Limits) returns (allowed: bool, retryAfter: real)
      requires Valid()
      modifies this, Buckets()
      ensures Valid() && (View(), allowed) == RL.Admit(old(View()), r, l)
      ensures r.key in Entries() && retryAfter == if allowed then 0.0 else RL.RetryDelay(Entries()[r.key].bucket)
    {
      var bucket := GetOrCreate(r.key, l.burst, l.rate, r.now);
      allowed, retryAfter := TakeFrom(r.key, bucket, r.now);
    }

    /** Try the bucket of a key; no other key's bucket changes. */
    method TakeFrom(key: string, bucket: TokenBucket, now: real) returns (allowed: bool, retryAfter: real)
      requires Valid() && key in items && items[key].0 == bucket
      modifies bucket
      ensures Valid()
      ensures var t := RL.Take(old(bucket.View()), now);
              && (allowed, retryAfter) == RL.Report(t)
              && Entries() == old(Entries())[key := RL.Entry(t.bucket, items[key].1)]
    {
      allowed, retryAfter := bucket.TryAcquire(now);
    }
  }
}
