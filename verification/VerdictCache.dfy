/** The bounded, sharded verdict cache, which refines an unbounded map. */
module VerdictCache {

  datatype Cached = Cached(verdict: nat, provider: string, expires: int)

  const SHARDS: nat := 16

  const NUL: string := "\0"

  function CacheKey(subject: string, provider: string): string {
    provider + NUL + subject
  }

  predicate Starts(key: string, provider: string) {
    provider + NUL <= key
  }

  type Entries = map<string, Cached>

  // ---------- what eviction leaves ----------

  function FreshIn(entries: Entries, now: int): Entries {
    map k | k in entries && now < entries[k].expires :: entries[k]
  }

  /** part holds some of the entries unchanged, and nothing lost expires later than anything kept. */
  ghost predicate KeepsLongest(part: Entries, entries: Entries) {
    && part.Keys <= entries.Keys && (forall k :: k in part ==> part[k] == entries[k])
    && forall lost, kept :: lost in entries && lost !in part && kept in part ==>
       entries[lost].expires <= part[kept].expires
  }

  lemma Smaller(entries: Entries, key: string)
    requires key in entries
    ensures |entries - {key}| == |entries| - 1
  {
  }

  /** Drops the expired entries. */
  method DropExpired(entries: Entries, now: int) returns (kept: Entries)
    ensures kept == FreshIn(entries, now)
  {
    kept := entries;
    var todo := entries.Keys;
    while todo != {}
      invariant todo <= entries.Keys
      invariant kept == map k | k in entries && (k in todo || now < entries[k].expires) :: entries[k]
      decreases |todo|
    {
      var k :| k in todo;
      todo := todo - {k};
      if now >= entries[k].expires { kept := kept - {k}; }
    }
  }

  /** An entry that expires no later than any other. */
  method Oldest(entries: Entries) returns (oldest: string)
    requires entries != map[]
    ensures oldest in entries && forall k :: k in entries ==> entries[oldest].expires <= entries[k].expires
  {
    oldest :| oldest in entries;
    var todo := entries.Keys - {oldest};
    while todo != {}
      invariant todo <= entries.Keys && oldest in entries
      invariant forall k :: k in entries && k !in todo ==> entries[oldest].expires <= entries[k].expires
      decreases |todo|
    {
      var k :| k in todo;
      todo := todo - {k};
      if entries[k].expires < entries[oldest].expires { oldest := k; }
    }
  }

  /** What making room leaves: all that has not expired if that is room enough, else three quarters of the shard,
      those that expire last. */
  ghost predicate Evicted(kept: Entries, entries: Entries, perShard: nat, now: int) {
    && KeepsLongest(kept, entries)
    && if |FreshIn(entries, now)| < perShard then kept == FreshIn(entries, now)
       else kept.Keys <= FreshIn(entries, now).Keys && |kept| == perShard - perShard / 4
  }

  /** Makes room in a shard: expired entries go first; if it is still full, those that expire
      soonest go until a quarter is free. */
  method Evict(entries: Entries, perShard: nat, now: int) returns (kept: Entries)
    requires perShard >= 16
    ensures Evicted(kept, entries, perShard, now) && |kept| < perShard
  {
    kept := DropExpired(entries, now);
    assert KeepsLongest(kept, entries);
    if |kept| < perShard { return; }
    var target := perShard - perShard / 4;
    while |kept| > target
      invariant KeepsLongest(kept, entries) && |kept| >= target && kept.Keys <= FreshIn(entries, now).Keys
      decreases |kept|
    {
      var oldest := Oldest(kept);
      Smaller(kept, oldest);
      kept := kept - {oldest};
    }
  }

  // ---------- the cache ----------

  /** Every entry is the last verdict put, in the shard of its key, and every shard is bounded. */
  ghost predicate Sharded(hash: string -> nat, perShard: nat, shards: seq<Entries>, all: Entries) {
    && |shards| == SHARDS && perShard >= 16
    && (forall i {:trigger shards[i]} :: 0 <= i < SHARDS ==> |shards[i]| <= perShard)
    && (forall i, k {:trigger k in shards[i]} ::
          0 <= i < SHARDS && k in shards[i] ==> i == hash(k) % SHARDS && k in all && shards[i][k] == all[k])
  }

  lemma StoringKeepsSharded(hash: string -> nat, perShard: nat, shards: seq<Entries>, all: Entries, entries: Entries,
                            key: string, v: Cached)
    requires Sharded(hash, perShard, shards, all) && |entries| < perShard
    requires forall k :: k in entries ==>
               k in shards[hash(key) % SHARDS] && entries[k] == shards[hash(key) % SHARDS][k]
    ensures Sharded(hash, perShard, shards[hash(key) % SHARDS := entries[key := v]], all[key := v])
  {
    Grown(entries, key, v);
  }

  class MemoryCache {
    const perShard: nat
    const hash: string -> nat
    var shards: seq<Entries>
    /** The unbounded map: the last verdict put under each key and not forgotten since. */
    ghost var all: Entries

    ghost predicate Valid()
      reads this
    {
      Sharded(hash, perShard, shards, all)
    }

    function ShardOf(key: string): (i: nat)
      ensures i < SHARDS
    {
      hash(key) % SHARDS
    }

    constructor (maxEntries: int, hash: string -> nat)
      ensures Valid() && all == map[] && this.hash == hash
      ensures perShard ==
              var wanted := (if maxEntries <= 0 then 4096 else maxEntries) / SHARDS; if wanted < 16 then 16 else wanted
    {
      var wanted := (if maxEntries <= 0 then 4096 else maxEntries) / SHARDS;
      perShard := if wanted < 16 then 16 else wanted;
      this.hash := hash;
      shards := seq(SHARDS, i => map[]);
      all := map[];
    }

    /** A hit is the last verdict put for this subject and provider, and has not expired. */
    method Get(subject: string, provider: string, now: int) returns (found: bool, v: Cached)
      requires Valid()
      ensures found ==> CacheKey(subject, provider) in all && v == all[CacheKey(subject, provider)] && now < v.expires
      ensures found <==>
                var key := CacheKey(subject, provider);
                key in shards[ShardOf(key)] && now < shards[ShardOf(key)][key].expires
    {
      var key := CacheKey(subject, provider);
      var shard := shards[ShardOf(key)];
      found := key in shard && now < shard[key].expires;
      v := if found then shard[key] else Cached(0, "", 0);
    }

    /** Stores a verdict; only the verdict's own shard may lose entries, and only when it is full. */
    method Put(subject: string, v: Cached, now: int)
      requires Valid()
      modifies this
      ensures Valid() && all == old(all)[CacheKey(subject, v.provider) := v]
      ensures var key := CacheKey(subject, v.provider); var i := ShardOf(key);
              && key in shards[i] && shards[i][key] == v
              && (forall j :: 0 <= j < SHARDS && j != i ==> shards[j] == old(shards)[j])
              && (|old(shards)[i]| < perShard ==> shards[i] == old(shards)[i][key := v])
              && (|old(shards)[i]| >= perShard ==>
                    exists kept :: Evicted(kept, old(shards)[i], perShard, now) && shards[i] == kept[key := v])
    {
      var key := CacheKey(subject, v.provider);
      var i := ShardOf(key);
      var entries := shards[i];
      if |entries| >= perShard { entries := Evict(entries, perShard, now); }
      StoringKeepsSharded(hash, perShard, shards, all, entries, key, v);
      shards := shards[i := entries[key := v]];
      all := all[key := v];
    }

    /** Drops every entry whose key starts with the provider, and nothing else. */
    method Forget(provider: string)
      requires Valid()
      modifies this
      ensures Valid()
      ensures all == map k | k in old(all) && !Starts(k, provider) :: old(all)[k]
      ensures forall i :: 0 <= i < SHARDS ==> shards[i] == Without(old(shards)[i], provider)
    {
      all := map k | k in all && !Starts(k, provider) :: all[k];
      ghost var before := shards;
      for i := 0 to SHARDS
        invariant |shards| == SHARDS && all == map k | k in old(all) && !Starts(k, provider) :: old(all)[k]
        invariant forall j {:trigger shards[j]} :: 0 <= j < SHARDS ==>
                    shards[j] == if j < i then Without(before[j], provider) else before[j]
      {
        var kept := ForgetIn(shards[i], provider);
        shards := shards[i := kept];
      }
      forall i | 0 <= i < SHARDS ensures |shards[i]| <= perShard { FewerThan(before[i], provider); }
    }

    method Clear()
      requires Valid()
      modifies this
      ensures Valid() && all == map[]
    {
      shards := seq(SHARDS, i => map[]);
      all := map[];
    }
  }

  function Without(entries: Entries, provider: string): Entries {
    map k | k in entries && !Starts(k, provider) :: entries[k]
  }

  method ForgetIn(entries: Entries, provider: string) returns (kept: Entries)
    ensures kept == Without(entries, provider)
  {
    kept := entries;
    var todo := entries.Keys;
    while todo != {}
      invariant todo <= entries.Keys
      invariant kept == map k | k in entries && (k in todo || !Starts(k, provider)) :: entries[k]
      decreases |todo|
    {
      var k :| k in todo;
      todo := todo - {k};
      if Starts(k, provider) { kept := kept - {k}; }
    }
  }

  lemma Grown(entries: Entries, key: string, v: Cached)
    ensures |entries[key := v]| <= |entries| + 1
  {
  }

  lemma FewerThan(entries: Entries, provider: string)
    ensures |Without(entries, provider)| <= |entries|
  {
    var part := Without(entries, provider);
    assert part.Keys <= entries.Keys;
    Subset(part.Keys, entries.Keys);
    assert |entries| == |entries.Keys| && |part| == |part.Keys|;
  }

  lemma Subset(a: set<string>, b: set<string>)
    requires a <= b
    ensures |a| <= |b|
  {
    assert b == a + (b - a);
  }

  // ---------- keys ----------

  predicate NoNul(s: string) {
    forall i :: 0 <= i < |s| ==> s[i] != NUL[0]
  }

  lemma NulInside(provider: string, other: string)
    requires provider + NUL <= other
    ensures !NoNul(other)
  {
    assert other[|provider|] == (provider + NUL)[|provider|];
  }

  /** One ID goes on, after a NUL, where the other ends. */
  predicate GoesOn(id: string, shorter: string) {
    shorter + NUL <= id
  }

  lemma GoesOnReaches(other: string, provider: string)
    requires GoesOn(provider, other)
    ensures exists subject :: Starts(CacheKey(subject, other), provider)
  {
    var subject := provider[|other| + 1..] + NUL;
    assert CacheKey(subject, other) == provider + NUL;
    assert Starts(CacheKey(subject, other), provider);
  }

  /** What an entry of another provider that is reached says about the two IDs. */
  lemma ReachedGoesOn(subject: string, other: string, provider: string)
    requires Starts(CacheKey(subject, other), provider)
    ensures other == provider || GoesOn(other, provider) || GoesOn(provider, other)
  {
    var key := CacheKey(subject, other);
    if |other| < |provider| {
      assert key[..|other| + 1] == other + NUL;
      assert (provider + NUL)[..|other| + 1] == provider[..|other| + 1];
    } else if |other| == |provider| {
      assert other == key[..|other|] == (provider + NUL)[..|other|] == provider;
    } else {
      assert key[..|provider| + 1] == other[..|provider| + 1];
    }
  }

  /** Forgetting a provider can reach another one's entries exactly if one ID goes on with a NUL
      where the other ends. */
  lemma ForgetReachesExactly(other: string, provider: string)
    ensures (exists subject :: Starts(CacheKey(subject, other), provider)) <==>
            other == provider || GoesOn(other, provider) || GoesOn(provider, other)
  {
    if subject :| Starts(CacheKey(subject, other), provider) { ReachedGoesOn(subject, other, provider); }
    if other == provider {
      assert Starts(CacheKey("", other), provider);
    } else if GoesOn(other, provider) {
      assert Starts(CacheKey("", other), provider);
    } else if GoesOn(provider, other) {
      GoesOnReaches(other, provider);
    }
  }

  lemma SubjectShows(s: string, t: string, p: string)
    requires CacheKey(s, p) == CacheKey(t, p)
    ensures s == t
  {
    assert CacheKey(s, p)[|p| + 1..] == s && CacheKey(t, p)[|p| + 1..] == t;
  }

  /** Two different pairs share a key. */
  ghost predicate Collide(p: string, q: string) {
    exists s, t :: CacheKey(s, p) == CacheKey(t, q) && (s, p) != (t, q)
  }

  /** Keys of two providers can collide exactly if one ID goes on with a NUL where the other ends. */
  lemma KeysCollideExactly(p: string, q: string)
    ensures Collide(p, q) <==> GoesOn(p, q) || GoesOn(q, p)
  {
    if Collide(p, q) {
      var s, t :| CacheKey(s, p) == CacheKey(t, q) && (s, p) != (t, q);
      if p == q {
        SubjectShows(s, t, p);
      } else {
        assert Starts(CacheKey(t, q), p);
        ReachedGoesOn(t, q, p);
      }
    }
    if GoesOn(p, q) { Shares(p, q); }
    if GoesOn(q, p) { Shares(q, p); }
  }

  lemma Shares(longer: string, shorter: string)
    requires GoesOn(longer, shorter)
    ensures Collide(longer, shorter) && Collide(shorter, longer)
  {
    var t := longer[|shorter| + 1..] + NUL;
    assert CacheKey("", longer) == CacheKey(t, shorter);
    assert |longer| > |shorter|;
  }

  /** Issued IDs have no NUL, so none goes on where another ends. */
  lemma NulFreeNeverGoesOn(id: string, shorter: string)
    requires NoNul(id)
    ensures !GoesOn(id, shorter)
  {
    if GoesOn(id, shorter) { NulInside(shorter, id); }
  }

  /** IDs without NULs are told apart: Forget removes exactly the provider's entries. */
  lemma ForgetIsExact(subject: string, other: string, provider: string)
    requires NoNul(provider) && NoNul(other)
    ensures Starts(CacheKey(subject, other), provider) <==> other == provider
  {
    NulFreeNeverGoesOn(other, provider);
    NulFreeNeverGoesOn(provider, other);
    if Starts(CacheKey(subject, other), provider) { ReachedGoesOn(subject, other, provider); }
  }

  /** Forgetting a NUL-free provider reaches an entry exactly if it is that provider's, or its
      own provider's ID goes on with a NUL. */
  lemma ForgetReaches(subject: string, other: string, provider: string)
    requires NoNul(provider)
    ensures Starts(CacheKey(subject, other), provider) <==> other == provider || GoesOn(other, provider)
  {
    NulFreeNeverGoesOn(provider, other);
    if Starts(CacheKey(subject, other), provider) { ReachedGoesOn(subject, other, provider); }
  }

  /** Issued IDs give distinct keys to distinct pairs. */
  lemma KeysAreDistinct(subject: string, provider: string, subject': string, provider': string)
    requires NoNul(provider) && NoNul(provider') && CacheKey(subject, provider) == CacheKey(subject', provider')
    ensures subject == subject' && provider == provider'
  {
    NulFreeNeverGoesOn(provider, provider');
    NulFreeNeverGoesOn(provider', provider);
    KeysCollideExactly(provider, provider');
  }

  /** The smallest case of a collision. */
  lemma NulConfuses()
    ensures Collide("a\0", "a") && exists subject :: Starts(CacheKey(subject, "a\0"), "a")
  {
    assert GoesOn("a\0", "a");
    KeysCollideExactly("a\0", "a");
    ForgetReachesExactly("a\0", "a");
  }
}
