/** rateLimiter.js without Redis: fixed windows counted in an expiring in-memory store shared by all limiters. */
module RateLimiter {
  import opened Text

  // ---------- limiters ----------

  datatype Limiter = Limiter(windowMs: int, max: int)

  /** What createRateLimiter makes of its options; 0 stands for an option that is missing. */
  function SafeWindow(l: Limiter): (w: int)
    ensures w >= 1000
    ensures l.windowMs >= 1000 ==> w == l.windowMs
    ensures l.windowMs == 0 ==> w == 60 * 1000
    ensures l.windowMs < 1000 && l.windowMs != 0 ==> w == 1000
  {
    if l.windowMs == 0 then 60000 else if l.windowMs < 1000 then 1000 else l.windowMs
  }

  function SafeMax(l: Limiter): (m: int)
    ensures m >= 1
    ensures l.max >= 1 ==> m == l.max
    ensures l.max == 0 ==> m == 60
    ensures l.max < 0 ==> m == 1
  {
    if l.max == 0 then 60 else if l.max < 1 then 1 else l.max
  }

  /** ceil(window / 1000) */
  function WindowSec(l: Limiter): (s: int)
    ensures SafeWindow(l) <= s * 1000 < SafeWindow(l) + 1000
  {
    (SafeWindow(l) + 999) / 1000
  }

  function Bucket(l: Limiter, t: int): int { t / SafeWindow(l) }

  /** The first millisecond after a bucket. */
  function BucketEnd(l: Limiter, b: int): int { b * SafeWindow(l) + SafeWindow(l) }

  lemma BucketSpan(l: Limiter, t: int)
    ensures Bucket(l, t) * SafeWindow(l) <= t < BucketEnd(l, Bucket(l, t))
  {
  }

  // ---------- keys ----------

  /** rl:namespace:hash(keyPart:bucket), the hash being taken as injective. */
  datatype Key = Key(namespace: string, hashed: string)

  function KeyText(part: string, bucket: nat): string { part + ":" + Decimal(bucket) }

  lemma LastColon(part: string, bucket: nat)
    ensures var s := KeyText(part, bucket); s[|part|] == ':' && forall i :: |part| < i < |s| ==> s[i] != ':'
  {
    var s, d := KeyText(part, bucket), Decimal(bucket);
    forall i | |part| < i < |s| ensures s[i] != ':' {
      assert s[i] == d[i - |part| - 1] && IsDigit(d[i - |part| - 1]);
    }
  }

  /** The last colon separates the client from the bucket, whatever the client's key contains. */
  lemma KeyTextInjective(p: string, b: nat, q: string, c: nat)
    requires KeyText(p, b) == KeyText(q, c)
    ensures p == q && b == c
  {
    var s := KeyText(p, b);
    LastColon(p, b);
    LastColon(q, c);
    assert |p| == |q|;
    assert s[..|p|] == p && s[..|q|] == q;
    assert s[|p| + 1..] == Decimal(b) && s[|q| + 1..] == Decimal(c);
    DecimalInjective(b, c);
  }

  // ---------- the store ----------

  datatype Entry = Entry(count: int, expiresAt: int)

  type Store = map<Key, Entry>

  function Swept(store: Store, now: int): Store { map k | k in store && store[k].expiresAt > now :: store[k] }

  function Incremented(store: Store, key: Key, windowSec: int, now: int): Store {
    if key in store && store[key].expiresAt > now then store[key := store[key].(count := store[key].count + 1)]
    else store[key := Entry(1, now + windowSec * 1000)]
  }

  class LocalStore {
    var entries: Store

    constructor ()
      ensures entries == map[]
    {
      entries := map[];
    }

    method Cleanup(now: int)
      modifies this
      ensures entries == Swept(old(entries), now)
      ensures forall k :: k in entries <==> k in old(entries) && old(entries)[k].expiresAt > now
      ensures forall k :: k in entries ==> entries[k] == old(entries)[k]
    {
      var keys := entries.Keys;
      while keys != {}
        invariant keys <= old(entries.Keys)
        invariant entries ==
          map k | k in old(entries) && (k in keys || old(entries)[k].expiresAt > now) :: old(entries)[k]
      {
        var key :| key in keys;
        if entries[key].expiresAt <= now { entries := entries - {key}; }
        keys := keys - {key};
      }
    }

    /** The clock is read for the sweep and again for the entry. */
    method IncrementCount(key: Key, windowSec: int, sweepAt: int, now: int) returns (count: int)
      modifies this
      ensures entries == Incremented(Swept(old(entries), sweepAt), key, windowSec, now)
      ensures key in entries && count == entries[key].count
      ensures var live := key in old(entries) && old(entries)[key].expiresAt > sweepAt
                          && old(entries)[key].expiresAt > now;
              entries[key] == if live then Entry(old(entries)[key].count + 1, old(entries)[key].expiresAt)
                              else Entry(1, now + windowSec * 1000)
      ensures forall k :: k != key ==> (k in entries <==> k in old(entries) && old(entries)[k].expiresAt > sweepAt)
      ensures forall k :: k in entries && k != key ==> entries[k] == old(entries)[k]
    {
      Cleanup(sweepAt);
      if key !in entries || entries[key].expiresAt <= now {
        entries := entries[key := Entry(1, now + windowSec * 1000)];
        return 1;
      }
      entries := entries[key := entries[key].(count := entries[key].count + 1)];
      count := entries[key].count;
    }

    method Handle(limiters: map<string, Limiter>, r: Request) returns (admitted: bool)
      requires r.namespace in limiters && r.at >= 0
      modifies this
      ensures entries == After(limiters, old(entries), r)
      ensures admitted <==> entries[KeyOf(limiters, r)].count <= SafeMax(limiters[r.namespace])
    {
      var l := limiters[r.namespace];
      var key := Key(r.namespace, KeyText(r.client, Bucket(l, r.at)));
      var count := IncrementCount(key, WindowSec(l), r.sweepAt, r.countAt);
      admitted := !(count > SafeMax(l));
    }
  }

  // ---------- requests ----------

  /**
   * A request to a limiter, with the times at which it reads the clock: for its bucket, for the sweep, for its entry.
   */
  datatype Request = Request(namespace: string, client: string, at: int, sweepAt: int, countAt: int)

  function KeyOf(limiters: map<string, Limiter>, r: Request): Key
    requires r.namespace in limiters && r.at >= 0
  {
    Key(r.namespace, KeyText(r.client, Bucket(limiters[r.namespace], r.at)))
  }

  function After(limiters: map<string, Limiter>, store: Store, r: Request): (after: Store)
    requires r.namespace in limiters && r.at >= 0
    ensures KeyOf(limiters, r) in after
  {
    Incremented(Swept(store, r.sweepAt), KeyOf(limiters, r), WindowSec(limiters[r.namespace]), r.countAt)
  }

  /** A request whose reads of the clock do not go back, after requests that are done. */
  predicate Comes(limiters: map<string, Limiter>, rs: seq<Request>, r: Request) {
    && r.namespace in limiters && 0 <= r.at <= r.sweepAt <= r.countAt
    && forall q :: q in rs ==> q.countAt <= r.at
  }

  predicate Ordered(limiters: map<string, Limiter>, rs: seq<Request>) {
    rs == [] || (Ordered(limiters, rs[..|rs| - 1]) && Comes(limiters, rs[..|rs| - 1], rs[|rs| - 1]))
  }

  /** The store after a run of requests. */
  ghost function RunStore(limiters: map<string, Limiter>, rs: seq<Request>): Store
    requires Ordered(limiters, rs)
  {
    if rs == [] then map[] else After(limiters, RunStore(limiters, rs[..|rs| - 1]), rs[|rs| - 1])
  }

  /** How many requests of a run belong to a key. */
  ghost function Arrivals(limiters: map<string, Limiter>, rs: seq<Request>, key: Key): nat
    requires Ordered(limiters, rs)
  {
    if rs == [] then 0
    else Arrivals(limiters, rs[..|rs| - 1], key) + if KeyOf(limiters, rs[|rs| - 1]) == key then 1 else 0
  }

  /** When the first request of a key counted; 0 without any. */
  ghost function First(limiters: map<string, Limiter>, rs: seq<Request>, key: Key): int
    requires Ordered(limiters, rs)
  {
    if Arrivals(limiters, rs, key) == 0 then 0
    else
      var init := rs[..|rs| - 1];
      if Arrivals(limiters, init, key) == 0 then rs[|rs| - 1].countAt else First(limiters, init, key)
  }

  /** When the entry that the first request of a key has made expires. */
  ghost function Deadline(limiters: map<string, Limiter>, rs: seq<Request>, key: Key): int
    requires Ordered(limiters, rs) && key.namespace in limiters
  {
    First(limiters, rs, key) + WindowSec(limiters[key.namespace]) * 1000
  }

  /** The count a request sees. */
  ghost function Seen(limiters: map<string, Limiter>, rs: seq<Request>, r: Request): int
    requires Ordered(limiters, rs) && Comes(limiters, rs, r)
  {
    After(limiters, RunStore(limiters, rs), r)[KeyOf(limiters, r)].count
  }

  // ---------- when the count is exact ----------

  /** A request that comes before its key's entry expires. */
  ghost predicate InTime(limiters: map<string, Limiter>, rs: seq<Request>, r: Request)
    requires Ordered(limiters, rs) && Comes(limiters, rs, r)
  {
    Arrivals(limiters, rs, KeyOf(limiters, r)) == 0 || r.countAt < Deadline(limiters, rs, KeyOf(limiters, r))
  }

  ghost predicate AllInTime(limiters: map<string, Limiter>, rs: seq<Request>)
    requires Ordered(limiters, rs)
  {
    rs == [] || (AllInTime(limiters, rs[..|rs| - 1]) && InTime(limiters, rs[..|rs| - 1], rs[|rs| - 1]))
  }

  /** The n-th request of a key sees the count n. */
  ghost predicate Counted(limiters: map<string, Limiter>, rs: seq<Request>, r: Request)
    requires Ordered(limiters, rs) && Comes(limiters, rs, r)
  {
    Seen(limiters, rs, r) == Arrivals(limiters, rs, KeyOf(limiters, r)) + 1
  }

  ghost predicate AllCounted(limiters: map<string, Limiter>, rs: seq<Request>)
    requires Ordered(limiters, rs)
  {
    rs == [] || (AllCounted(limiters, rs[..|rs| - 1]) && Counted(limiters, rs[..|rs| - 1], rs[|rs| - 1]))
  }

  /** While all come in time a key's entry holds their number and first deadline, and is only swept after that. */
  lemma {:induction false} EntryCounts(limiters: map<string, Limiter>, rs: seq<Request>, key: Key, now: int)
    requires Ordered(limiters, rs) && AllInTime(limiters, rs) && key.namespace in limiters
    requires forall q :: q in rs ==> q.countAt <= now
    ensures var store, n := RunStore(limiters, rs), Arrivals(limiters, rs, key);
            if n == 0 then key !in store
            else if key in store then store[key] == Entry(n, Deadline(limiters, rs, key))
            else Deadline(limiters, rs, key) <= now
  {
    if rs != [] {
      var init, last := rs[..|rs| - 1], rs[|rs| - 1];
      assert last in rs && forall q :: q in init ==> q in rs;
      EntryCounts(limiters, init, key, last.at);
    }
  }

  /** Whatever other requests come in between, a request is counted right exactly when it comes in time. */
  lemma CountedIff(limiters: map<string, Limiter>, rs: seq<Request>, r: Request)
    requires Ordered(limiters, rs) && AllInTime(limiters, rs) && Comes(limiters, rs, r)
    ensures Counted(limiters, rs, r) <==> InTime(limiters, rs, r)
  {
    EntryCounts(limiters, rs, KeyOf(limiters, r), r.at);
  }

  /** A whole run is counted right exactly when all its requests come in time. */
  lemma {:induction false} AllCountedIff(limiters: map<string, Limiter>, rs: seq<Request>)
    requires Ordered(limiters, rs)
    ensures AllCounted(limiters, rs) <==> AllInTime(limiters, rs)
  {
    if rs != [] {
      var init, last := rs[..|rs| - 1], rs[|rs| - 1];
      AllCountedIff(limiters, init);
      if AllInTime(limiters, init) { CountedIff(limiters, init, last); }
    }
  }

  /** A request that ends its reads before its bucket is over. */
  predicate InOwnBucket(limiters: map<string, Limiter>, r: Request) {
    && r.namespace in limiters && r.at >= 0
    && r.countAt < BucketEnd(limiters[r.namespace], Bucket(limiters[r.namespace], r.at))
  }

  /** One read of the clock, used three times, is always within its bucket. */
  lemma SingleReadInOwnBucket(limiters: map<string, Limiter>, r: Request)
    requires r.namespace in limiters && 0 <= r.at == r.sweepAt == r.countAt
    ensures InOwnBucket(limiters, r)
  {
    BucketSpan(limiters[r.namespace], r.at);
  }

  /** No request of a key counts before the key's bucket begins. */
  lemma {:induction false} FirstInBucket(limiters: map<string, Limiter>, rs: seq<Request>, r: Request)
    requires Ordered(limiters, rs) && Comes(limiters, rs, r) && Arrivals(limiters, rs, KeyOf(limiters, r)) > 0
    ensures var l := limiters[r.namespace];
            First(limiters, rs, KeyOf(limiters, r)) >= Bucket(l, r.at) * SafeWindow(l)
  {
    var init, last := rs[..|rs| - 1], rs[|rs| - 1];
    if Arrivals(limiters, init, KeyOf(limiters, r)) > 0 {
      assert forall q :: q in init ==> q in rs;
      FirstInBucket(limiters, init, r);
    } else {
      var l := limiters[r.namespace];
      KeyTextInjective(last.client, Bucket(l, last.at), r.client, Bucket(l, r.at));
      BucketSpan(l, last.at);
    }
  }

  /** Requests within their own buckets come in time: the entry's life is the window, rounded up. */
  lemma {:induction false} OwnBucketInTime(limiters: map<string, Limiter>, rs: seq<Request>)
    requires Ordered(limiters, rs) && forall r :: r in rs ==> InOwnBucket(limiters, r)
    ensures AllInTime(limiters, rs)
  {
    if rs != [] {
      var init, last := rs[..|rs| - 1], rs[|rs| - 1];
      assert last in rs && forall q :: q in init ==> q in rs;
      OwnBucketInTime(limiters, init);
      if Arrivals(limiters, init, KeyOf(limiters, last)) > 0 { FirstInBucket(limiters, init, last); }
    }
  }

  // ---------- how many are admitted ----------

  ghost predicate Admits(limiters: map<string, Limiter>, rs: seq<Request>, r: Request)
    requires Ordered(limiters, rs) && Comes(limiters, rs, r)
  {
    Seen(limiters, rs, r) <= SafeMax(limiters[r.namespace])
  }

  /** How many requests of a key are admitted in a run. */
  ghost function Admitted(limiters: map<string, Limiter>, rs: seq<Request>, key: Key): nat
    requires Ordered(limiters, rs)
  {
    if rs == [] then 0
    else
      var init, last := rs[..|rs| - 1], rs[|rs| - 1];
      Admitted(limiters, init, key) + if KeyOf(limiters, last) == key && Admits(limiters, init, last) then 1 else 0
  }

  /** In each bucket exactly the first SafeMax requests of a client are admitted. */
  lemma {:induction false} AdmittedExactly(limiters: map<string, Limiter>, rs: seq<Request>, key: Key)
    requires Ordered(limiters, rs) && AllInTime(limiters, rs) && key.namespace in limiters
    ensures var n, max := Arrivals(limiters, rs, key), SafeMax(limiters[key.namespace]);
            Admitted(limiters, rs, key) == if n < max then n else max
  {
    if rs != [] {
      var init, last := rs[..|rs| - 1], rs[|rs| - 1];
      AdmittedExactly(limiters, init, key);
      CountedIff(limiters, init, last);
    }
  }

  /** How many requests of a client to a limiter are admitted with a time in [from, to). */
  ghost function AdmittedIn(limiters: map<string, Limiter>, rs: seq<Request>, namespace: string, client: string,
                            from: int, to: int): nat
    requires Ordered(limiters, rs)
  {
    if rs == [] then 0
    else
      var init, last := rs[..|rs| - 1], rs[|rs| - 1];
      AdmittedIn(limiters, init, namespace, client, from, to)
      + if last.namespace == namespace && last.client == client && from <= last.at < to
           && Admits(limiters, init, last) then 1 else 0
  }

  lemma {:induction false} TwoBucketsCover(limiters: map<string, Limiter>, rs: seq<Request>, namespace: string,
                                           client: string, from: int, to: int)
    requires Ordered(limiters, rs) && namespace in limiters && 0 <= from && to <= from + SafeWindow(limiters[namespace])
    ensures var b := Bucket(limiters[namespace], from);
            AdmittedIn(limiters, rs, namespace, client, from, to)
              <= Admitted(limiters, rs, Key(namespace, KeyText(client, b)))
                 + Admitted(limiters, rs, Key(namespace, KeyText(client, b + 1)))
  {
    if rs != [] {
      var last := rs[|rs| - 1];
      TwoBucketsCover(limiters, rs[..|rs| - 1], namespace, client, from, to);
      if last.namespace == namespace && from <= last.at < to {
        var l := limiters[namespace];
        NeighbourBucket(SafeWindow(l), from, last.at);
      }
    }
  }

  lemma NeighbourBucket(w: int, from: int, t: int)
    requires w > 0 && from <= t < from + w
    ensures t / w == from / w || t / w == from / w + 1
  {
    var k := t / w - from / w;
    assert k * w == t - t % w - (from - from % w);
    ZeroOrOne(k, w);
  }

  lemma ZeroOrOne(k: int, w: int)
    requires 0 < w && -w < k * w < 2 * w
    ensures k == 0 || k == 1
  {
    if k >= 2 { ScalesUp(2, k, w); }
    if k <= -1 { ScalesUp(k, -1, w); }
  }

  lemma ScalesUp(a: int, b: int, w: int)
    requires a <= b && 0 <= w
    ensures a * w <= b * w
  {
    assert (b - a) * w >= 0;
  }

  /** In any interval as long as the window at most twice the maximum is admitted. */
  lemma AtMostTwicePerWindow(limiters: map<string, Limiter>, rs: seq<Request>, namespace: string, client: string,
                             from: int, to: int)
    requires Ordered(limiters, rs) && AllInTime(limiters, rs)
    requires namespace in limiters && 0 <= from && to <= from + SafeWindow(limiters[namespace])
    ensures AdmittedIn(limiters, rs, namespace, client, from, to) <= 2 * SafeMax(limiters[namespace])
  {
    var b := Bucket(limiters[namespace], from);
    TwoBucketsCover(limiters, rs, namespace, client, from, to);
    AdmittedExactly(limiters, rs, Key(namespace, KeyText(client, b)));
    AdmittedExactly(limiters, rs, Key(namespace, KeyText(client, b + 1)));
  }

  /** A request whose last read falls after its bucket can find its entry expired and start counting anew. */
  lemma LateReadForgets()
    ensures var limiters := map["otp" := Limiter(1000, 1)];
            var first, late := Request("otp", "c", 0, 0, 0), Request("otp", "c", 999, 1000, 1000);
            && Ordered(limiters, [first]) && Comes(limiters, [first], late)
            && KeyOf(limiters, late) == KeyOf(limiters, first) && Seen(limiters, [first], late) == 1
  {
    var limiters := map["otp" := Limiter(1000, 1)];
    var first, late := Request("otp", "c", 0, 0, 0), Request("otp", "c", 999, 1000, 1000);
    assert [first][..0] == [] && Ordered(limiters, []);
    assert RunStore(limiters, [first]) == After(limiters, map[], first);
  }

  /** The bound is reached: around the end of a bucket twice the maximum comes through within two milliseconds. */
  lemma TwiceIsReached()
    ensures var limiters := map["otp" := Limiter(1000, 1)];
            var rs := [Request("otp", "c", 999, 999, 999), Request("otp", "c", 1000, 1000, 1000)];
            Ordered(limiters, rs) && AllInTime(limiters, rs) && AdmittedIn(limiters, rs, "otp", "c", 999, 1001) == 2
  {
    var limiters := map["otp" := Limiter(1000, 1)];
    var a, b := Request("otp", "c", 999, 999, 999), Request("otp", "c", 1000, 1000, 1000);
    var one, two := [a], [a, b];
    assert one[..0] == [] && two[..1] == one;
    assert Ordered(limiters, []) && Ordered(limiters, one);
    OwnBucketInTime(limiters, two);
    CountedIff(limiters, [], a);
    CountedIff(limiters, one, b);
    if KeyOf(limiters, a) == KeyOf(limiters, b) { KeyTextInjective("c", 0, "c", 1); }
    assert AdmittedIn(limiters, one, "otp", "c", 999, 1001) == 1;
  }
}
