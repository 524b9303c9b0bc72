/** The L1 cache: 256 shards, each a map and an LRU list, refining one recency list per shard. */
module LocalJournal {
  import opened Optional
  import opened Redis
  import opened Bands

  const SHARD_COUNT := 256

  datatype CacheEntry = CacheEntry(payload: Payload, version: int, expiresAt: int)

  /** An entry together with its key, as one element of a recency list. */
  datatype Item = Item(key: Key, entry: CacheEntry)

  // ── Recency lists: most recently used first ────────────────────────────────

  predicate DistinctKeys(r: seq<Item>) {
    forall i, j :: 0 <= i < j < |r| ==> r[i].key != r[j].key
  }

  function Find(r: seq<Item>, k: Key): (e: Option<CacheEntry>)
    ensures e.Some? ==> Item(k, e.value) in r
    ensures e.None? ==> forall i :: 0 <= i < |r| ==> r[i].key != k
  {
    if r == [] then None else if r[0].key == k then Some(r[0].entry) else Find(r[1..], k)
  }

  function Without(r: seq<Item>, k: Key): (s: seq<Item>)
    ensures forall x :: x in s ==> x in r
    ensures |s| <= |r|
  {
    if r == [] then [] else if r[0].key == k then r[1..] else [r[0]] + Without(r[1..], k)
  }

  function Truncated(r: seq<Item>, cap: nat): seq<Item> {
    if |r| <= cap then r else r[..cap]
  }

  /** The list after Get: an expired entry is dropped, a live one moves to the front. */
  function AfterGet(r: seq<Item>, k: Key, now: int): seq<Item> {
    var e := Find(r, k);
    if e.None? then r
    else if now > e.value.expiresAt then Without(r, k)
    else [Item(k, e.value)] + Without(r, k)
  }

  /** Put applies a strictly newer version, or any version of an absent key. */
  predicate Applies(r: seq<Item>, k: Key, version: int) {
    Find(r, k).None? || Find(r, k).value.version < version
  }

  function AfterPut(r: seq<Item>, cap: nat, k: Key, e: CacheEntry): seq<Item> {
    if !Applies(r, k, e.version) then r
    else if Find(r, k).Some? then [Item(k, e)] + Without(r, k)
    else Truncated([Item(k, e)] + r, cap)
  }

  lemma {:induction false} WithoutIsSplit(r: seq<Item>, i: nat)
    requires DistinctKeys(r) && i < |r|
    ensures Without(r, r[i].key) == r[..i] + r[i + 1..]
    ensures Find(r, r[i].key) == Some(r[i].entry)
  {
    if i > 0 {
      WithoutIsSplit(r[1..], i - 1);
      assert r[1..][..i - 1] == r[1..i] && r[1..][i..] == r[i + 1..];
      assert [r[0]] + (r[1..i] + r[i + 1..]) == r[..i] + r[i + 1..];
    }
  }

  /** Removing k leaves none of it, and every other entry as it was. */
  lemma {:induction false} WithoutFinds(r: seq<Item>, k: Key, q: Key)
    requires DistinctKeys(r)
    ensures Find(Without(r, k), q) == if q == k then None else Find(r, q)
  {
    if r != [] {
      if r[0].key != k {
        WithoutFinds(r[1..], k, q);
        assert Without(r, k)[1..] == Without(r[1..], k);
      }
    }
  }

  lemma {:induction false} WithoutIsDistinct(r: seq<Item>, k: Key)
    requires DistinctKeys(r)
    ensures DistinctKeys(Without(r, k))
  {
    if r != [] && r[0].key != k {
      WithoutIsDistinct(r[1..], k);
      var rest := Without(r[1..], k);
      forall j | 0 <= j < |rest|
        ensures rest[j].key != r[0].key
      {
        assert rest[j] in r[1..];
      }
    }
  }

  /** Dropping the last element loses at most its own key. */
  lemma {:induction false} DropLastFinds(r: seq<Item>, q: Key)
    requires r != [] && DistinctKeys(r)
    ensures Find(r[..|r| - 1], q) == if r[|r| - 1].key == q then None else Find(r, q)
  {
    if |r| > 1 {
      DropLastFinds(r[1..], q);
      assert r[..|r| - 1][1..] == r[1..][..|r| - 2];
    }
  }

  /**
    What Put promises: distinct keys, bounded size, the inserted entry in front, no resident version ever
    lowered, other entries untouched, and at most the least recently used one gone.
    */
  lemma PutKeepsVersions(r: seq<Item>, cap: nat, k: Key, e: CacheEntry, q: Key)
    requires DistinctKeys(r) && |r| <= cap && cap > 0
    ensures var r' := AfterPut(r, cap, k, e);
            && |r'| <= cap
            && (Applies(r, k, e.version) ==> r' != [] && r'[0] == Item(k, e) && Find(r', k) == Some(e))
            && (!Applies(r, k, e.version) ==> r' == r)
            && (Find(r, q).Some? && Find(r', q).Some? ==> Find(r, q).value.version <= Find(r', q).value.version)
            && (q != k && Find(r', q).Some? ==> Find(r, q) == Find(r', q))
            && (q != k && Find(r, q).Some? && Find(r', q).None? ==>
                  |r| == cap && Find(r, k).None? && r[cap - 1].key == q)
  {
    if Applies(r, k, e.version) {
      var r' := AfterPut(r, cap, k, e);
      if Find(r, k).Some? {
        WithoutFinds(r, k, q);
        WithoutShortens(r, k);
        assert r'[1..] == Without(r, k);
      } else {
        var full := [Item(k, e)] + r;
        assert full[1..] == r;
        if |full| > cap {
          DropLastFinds(r, q);
          assert r'[1..] == r[..|r| - 1];
        }
      }
    }
  }

  lemma {:induction false} WithoutShortens(r: seq<Item>, k: Key)
    requires Find(r, k).Some?
    ensures |Without(r, k)| == |r| - 1
  {
    if r[0].key != k {
      WithoutShortens(r[1..], k);
    }
  }

  // ── What Get and Put do to a list, position by position ────────────────────

  predicate Absent(r: seq<Item>, k: Key) {
    forall i :: 0 <= i < |r| ==> r[i].key != k
  }

  lemma {:induction false} FindsNothing(r: seq<Item>, k: Key)
    requires Absent(r, k)
    ensures Find(r, k).None?
  {
    if r != [] {
      assert r[0].key != k;
      FindsNothing(r[1..], k);
    }
  }

  /** A hit moves its entry to the front, an expired entry goes, and the others keep their order. */
  lemma GetOutcome(r: seq<Item>, n: nat, now: int)
    requires DistinctKeys(r) && n < |r|
    ensures AfterGet(r, r[n].key, now)
         == if now <= r[n].entry.expiresAt then [r[n]] + (r[..n] + r[n + 1..]) else r[..n] + r[n + 1..]
  {
    WithoutIsSplit(r, n);
  }

  lemma MissOutcome(r: seq<Item>, k: Key, now: int)
    requires Absent(r, k)
    ensures AfterGet(r, k, now) == r
  {
    FindsNothing(r, k);
  }

  /** An update moves its entry to the front if it is strictly newer, and is ignored otherwise. */
  lemma UpdateOutcome(r: seq<Item>, cap: nat, n: nat, e: CacheEntry)
    requires DistinctKeys(r) && n < |r|
    ensures AfterPut(r, cap, r[n].key, e)
         == if r[n].entry.version < e.version then [Item(r[n].key, e)] + (r[..n] + r[n + 1..]) else r
  {
    WithoutIsSplit(r, n);
  }

  /** An insertion goes to the front, and the last entry of a full list goes. */
  lemma InsertOutcome(r: seq<Item>, cap: nat, k: Key, e: CacheEntry)
    requires Absent(r, k) && |r| <= cap && cap > 0
    ensures AfterPut(r, cap, k, e) == if |r| < cap then [Item(k, e)] + r else [Item(k, e)] + r[..cap - 1]
  {
    FindsNothing(r, k);
  }

  /**
    Least recently used, not first in: an entry that has just been hit outlives the next insertion into a full list.
    The one that goes is the last of the others.
    */
  lemma HitOutlivesInsertion(r: seq<Item>, cap: nat, n: nat, now: int, k: Key, e: CacheEntry)
    requires DistinctKeys(r) && n < |r| == cap && cap > 1
    requires now <= r[n].entry.expiresAt && Absent(r, k)
    ensures AfterPut(AfterGet(r, r[n].key, now), cap, k, e) == [Item(k, e), r[n]] + Others(r, n)[..cap - 2]
  {
    GetOutcome(r, n, now);
    AbsentAfterHit(r, n, k);
    InsertBehind(AfterGet(r, r[n].key, now), r[n], Others(r, n), cap, k, e);
  }

  lemma InsertBehind(hit: seq<Item>, x: Item, others: seq<Item>, cap: nat, k: Key, e: CacheEntry)
    requires hit == [x] + others && |hit| == cap > 1 && Absent(hit, k)
    ensures AfterPut(hit, cap, k, e) == [Item(k, e), x] + others[..cap - 2]
  {
    InsertOutcome(hit, cap, k, e);
    TakeBehind(Item(k, e), x, others, cap - 2);
  }

  /** The list without its n-th item. */
  function Others(r: seq<Item>, n: nat): (s: seq<Item>)
    requires n < |r|
    ensures |s| == |r| - 1 && s == r[..n] + r[n + 1..]
    ensures forall i :: 0 <= i < |s| ==> s[i] == r[if i < n then i else i + 1]
  {
    r[..n] + r[n + 1..]
  }

  lemma TakeBehind(x: Item, y: Item, others: seq<Item>, n: nat)
    requires n <= |others|
    ensures [x] + ([y] + others)[..n + 1] == [x, y] + others[..n]
  {
  }

  lemma AbsentAfterHit(r: seq<Item>, n: nat, k: Key)
    requires n < |r| && Absent(r, k)
    ensures Absent([r[n]] + Others(r, n), k)
  {
    var hit := [r[n]] + Others(r, n);
    forall i | 0 <= i < |hit|
      ensures hit[i].key != k
    {
      assert i > 0 ==> hit[i] == Others(r, n)[i - 1];
    }
  }

  // ── The shards ─────────────────────────────────────────────────────────────

  /** One shard: the map, and the keys in LRU order, front first. */
  datatype Shard = Shard(m: map<Key, CacheEntry>, lru: seq<Key>)

  /** Map and list are in bijection. */
  predicate Bijection(sh: Shard) {
    && (forall i, j :: 0 <= i < j < |sh.lru| ==> sh.lru[i] != sh.lru[j])
    && (forall i :: 0 <= i < |sh.lru| ==> sh.lru[i] in sh.m)
    && (forall k :: k in sh.m ==> k in sh.lru)
  }

  /** The recency list a shard stands for. */
  function Recency(sh: Shard): (r: seq<Item>)
    requires Bijection(sh)
    ensures |r| == |sh.lru| && DistinctKeys(r)
    ensures forall i :: 0 <= i < |r| ==> r[i] == Item(sh.lru[i], sh.m[sh.lru[i]])
  {
    seq(|sh.lru|, i requires 0 <= i < |sh.lru| => Item(sh.lru[i], sh.m[sh.lru[i]]))
  }

  lemma {:induction false} FindIsLookup(sh: Shard, k: Key)
    requires Bijection(sh)
    ensures Find(Recency(sh), k) == Lookup(sh.m, k)
    decreases |sh.lru|
  {
    var r := Recency(sh);
    if k in sh.m {
      var i :| 0 <= i < |sh.lru| && sh.lru[i] == k;
      WithoutIsSplit(r, i);
    }
  }

  method IndexOf(keys: seq<Key>, k: Key) returns (i: nat)
    requires k in keys
    ensures i < |keys| && keys[i] == k
  {
    i := 0;
    while keys[i] != k
      invariant i < |keys| && k !in keys[..i]
      decreases |keys| - i
    {
      assert keys == keys[..i + 1] + keys[i + 1..];
      i := i + 1;
    }
  }

  lemma OtherKeysRemain(keys: seq<Key>, i: nat, q: Key)
    requires i < |keys| && q in keys && q != keys[i]
    ensures q in keys[..i] + keys[i + 1..]
  {
    var j :| 0 <= j < |keys| && keys[j] == q;
    assert (keys[..i] + keys[i + 1..])[if j < i then j else j - 1] == q;
  }

  /** The shard without its i-th key. */
  function Removed(sh: Shard, i: nat): Shard
    requires i < |sh.lru|
  {
    Shard(sh.m - {sh.lru[i]}, sh.lru[..i] + sh.lru[i + 1..])
  }

  lemma RemovalKeepsBijection(sh: Shard, i: nat)
    requires Bijection(sh) && i < |sh.lru|
    ensures Bijection(Removed(sh, i))
  {
    var r := Removed(sh, i);
    assert forall n :: 0 <= n < |r.lru| ==> r.lru[n] == sh.lru[if n < i then n else n + 1];
    forall q | q in r.m
      ensures q in r.lru
    {
      OtherKeysRemain(sh.lru, i, q);
    }
  }

  lemma RemovalFromRecency(sh: Shard, i: nat)
    requires Bijection(sh) && i < |sh.lru| && Bijection(Removed(sh, i))
    ensures Recency(Removed(sh, i)) == Recency(sh)[..i] + Recency(sh)[i + 1..]
  {
  }

  /** list.Remove of k's element and delete from the map. */
  method RemoveFrom(sh: Shard, k: Key) returns (r: Shard)
    requires Bijection(sh) && k in sh.m
    ensures Bijection(r) && Recency(r) == Without(Recency(sh), k)
    ensures r.m == sh.m - {k} && |r.lru| == |sh.lru| - 1
  {
    var i := IndexOf(sh.lru, k);
    r := Removed(sh, i);
    RemovalKeepsBijection(sh, i);
    RemovalFromRecency(sh, i);
    WithoutIsSplit(Recency(sh), i);
  }

  /** Back, Remove and delete: the least recently used entry goes. */
  method DropBack(sh: Shard) returns (r: Shard)
    requires Bijection(sh) && sh.lru != []
    ensures Bijection(r) && Recency(r) == Recency(sh)[..|sh.lru| - 1]
    ensures r.m == sh.m - {sh.lru[|sh.lru| - 1]} && |r.lru| == |sh.lru| - 1
  {
    var n := |sh.lru| - 1;
    r := Shard(sh.m - {sh.lru[n]}, sh.lru[..n]);
    RemovalKeepsBijection(sh, n);
    RemovalFromRecency(sh, n);
    assert r == Removed(sh, n);
  }

  /** PushFront of a new element and insertion into the map. */
  method PushFront(sh: Shard, k: Key, e: CacheEntry) returns (r: Shard)
    requires Bijection(sh) && k !in sh.m
    ensures Bijection(r) && Recency(r) == [Item(k, e)] + Recency(sh)
    ensures r.m == sh.m[k := e] && |r.lru| == |sh.lru| + 1
  {
    r := Shard(sh.m[k := e], [k] + sh.lru);
    forall q | q in r.m
      ensures q in r.lru
    {
      if q != k {
        assert q in sh.lru;
      }
    }
  }

  /** A good shard: a bijection, within its capacity, holding only keys that hash to it. */
  ghost predicate ShardOk(sh: Shard, cap: nat, i: nat) {
    && Bijection(sh) && |sh.lru| <= cap
    && forall k :: k in sh.m ==> BandForKey(k, SHARD_COUNT) == i
  }

  /** MoveToFront of a resident key. */
  method MoveToFront(sh: Shard, k: Key) returns (r: Shard)
    requires Bijection(sh) && k in sh.m
    ensures Bijection(r) && Recency(r) == [Item(k, sh.m[k])] + Without(Recency(sh), k)
    ensures r.m == sh.m && |r.lru| == |sh.lru|
  {
    r := RemoveFrom(sh, k);
    r := PushFront(r, k, sh.m[k]);
  }

  /** Get on one shard: a hit moves to the front, an expired entry goes. */
  method GetShard(sh: Shard, cap: nat, i: nat, k: Key, now: int) returns (r: Shard, hit: Option<CacheEntry>)
    requires ShardOk(sh, cap, i) && BandForKey(k, SHARD_COUNT) == i
    ensures ShardOk(r, cap, i) && Recency(r) == AfterGet(Recency(sh), k, now)
    ensures hit == if k in sh.m && now <= sh.m[k].expiresAt then Some(sh.m[k]) else None
    ensures r.m == if hit.Some? then sh.m else sh.m - {k}
  {
    FindIsLookup(sh, k);
    if k !in sh.m {
      assert sh.m - {k} == sh.m;
      return sh, None;
    }
    if now > sh.m[k].expiresAt {
      r := RemoveFrom(sh, k);
      return r, None;
    }
    r := MoveToFront(sh, k);
    return r, Some(sh.m[k]);
  }

  /** The eviction loop: the least recently used entries go until the shard fits. */
  method Evict(sh: Shard, cap: nat) returns (r: Shard, evictions: nat)
    requires Bijection(sh)
    ensures Bijection(r) && Recency(r) == Truncated(Recency(sh), cap)
    ensures |r.lru| <= cap && r.m.Keys <= sh.m.Keys
    ensures evictions == if |sh.lru| <= cap then 0 else |sh.lru| - cap
    ensures evictions == 0 ==> r == sh
  {
    r, evictions := sh, 0;
    while |r.lru| > cap
      invariant Bijection(r) && |r.lru| <= |sh.lru|
      invariant evictions == |sh.lru| - |r.lru|
      invariant evictions == 0 ==> r == sh
      invariant evictions > 0 ==> |r.lru| >= cap
      invariant Recency(r) == Recency(sh)[..|r.lru|]
      invariant r.m.Keys <= sh.m.Keys
      decreases |r.lru|
    {
      r := DropBack(r);
      evictions := evictions + 1;
    }
  }

  /** The version-gated update of a resident key. */
  method Replace(sh: Shard, k: Key, e: CacheEntry) returns (r: Shard)
    requires Bijection(sh) && k in sh.m
    ensures Bijection(r) && Recency(r) == [Item(k, e)] + Without(Recency(sh), k)
    ensures r.m == sh.m[k := e] && |r.lru| == |sh.lru|
  {
    r := RemoveFrom(sh, k);
    r := PushFront(r, k, e);
  }

  /** Put on one shard; the last result counts the evictions. */
  method PutShard(sh: Shard, cap: nat, i: nat, k: Key, e: CacheEntry) returns (r: Shard, applied: bool, evictions: nat)
    requires ShardOk(sh, cap, i) && cap > 0 && BandForKey(k, SHARD_COUNT) == i
    ensures ShardOk(r, cap, i) && Recency(r) == AfterPut(Recency(sh), cap, k, e)
    ensures applied <==> k !in sh.m || sh.m[k].version < e.version
    ensures evictions == if k !in sh.m && |sh.lru| == cap then 1 else 0
    ensures evictions == 0 ==> r.m == if applied then sh.m[k := e] else sh.m
    ensures applied ==> Lookup(r.m, k) == Some(e)
  {
    FindIsLookup(sh, k);
    if k in sh.m {
      if sh.m[k].version >= e.version {
        return sh, false, 0;
      }
      r := Replace(sh, k, e);
      return r, true, 0;
    }
    var pushed := PushFront(sh, k, e);
    r, evictions := Evict(pushed, cap);
    applied := true;
    assert Recency(r)[0] == Item(k, e);
  }

  /** Invalidate on one shard. */
  method DropShard(sh: Shard, cap: nat, i: nat, k: Key) returns (r: Shard)
    requires ShardOk(sh, cap, i)
    ensures ShardOk(r, cap, i) && r.m == sh.m - {k}
    ensures Recency(r) == if k in sh.m then Without(Recency(sh), k) else Recency(sh)
  {
    r := sh;
    if k in sh.m {
      r := RemoveFrom(sh, k);
    } else {
      assert sh.m - {k} == sh.m;
    }
  }

  /** shardFor: FNV-1a over the key; masking with 255 is the remainder by 256. */
  method ShardFor(key: Key) returns (i: nat)
    ensures i == BandForKey(key, SHARD_COUNT)
  {
    var h: bv32 := FNV_OFFSET;
    for n := 0 to |key|
      invariant h == Fnv32a(key[..n])
    {
      assert key[..n + 1][..n] == key[..n];
      h := FnvStep(h, key[n]);
    }
    assert key[..|key|] == key;
    i := (h as nat) % SHARD_COUNT;
  }

  /** The capacity of one shard: the configured cap spread evenly, rounded up. */
  function CapPerShard(maxEntries: int): (cap: nat)
    ensures maxEntries <= 0 <==> cap == 0
    ensures maxEntries > 0 ==> maxEntries <= SHARD_COUNT * cap < maxEntries + SHARD_COUNT
  {
    if maxEntries > 0 then (maxEntries + SHARD_COUNT - 1) / SHARD_COUNT else 0
  }

  /** The number of entries in the first n shards. */
  function TotalOf(shards: seq<Shard>, n: nat): nat
    requires n <= |shards|
  {
    if n == 0 then 0 else TotalOf(shards, n - 1) + |shards[n - 1].m|
  }

  lemma {:induction false} KeysAreListed(sh: Shard)
    requires Bijection(sh)
    ensures |sh.m| == |sh.lru|
    decreases |sh.lru|
  {
    if sh.lru == [] {
      assert sh.m == map[];
    } else {
      var n := |sh.lru| - 1;
      RemovalKeepsBijection(sh, n);
      var rest := Removed(sh, n);
      KeysAreListed(rest);
      assert sh.m.Keys == rest.m.Keys + {sh.lru[n]};
    }
  }

  lemma {:induction false} TotalIsBounded(shards: seq<Shard>, n: nat, cap: nat)
    requires n <= |shards| && forall i :: 0 <= i < n ==> |shards[i].m| <= cap
    ensures TotalOf(shards, n) <= n * cap
  {
    if n > 0 {
      TotalIsBounded(shards, n - 1, cap);
      assert (n - 1) * cap + cap == n * cap;
    }
  }

  lemma ShardsFit(shards: seq<Shard>, cap: nat)
    requires |shards| == SHARD_COUNT && forall i :: 0 <= i < SHARD_COUNT ==> ShardOk(shards[i], cap, i)
    ensures TotalOf(shards, SHARD_COUNT) <= SHARD_COUNT * cap
  {
    forall i | 0 <= i < SHARD_COUNT
      ensures |shards[i].m| <= cap
    {
      assert ShardOk(shards[i], cap, i);
      KeysAreListed(shards[i]);
    }
    TotalIsBounded(shards, SHARD_COUNT, cap);
  }

  class Cache {
    const cap: nat
    const localTTL: int
    const shards: array<Shard>
    var evicted: nat

    constructor (maxEntries: int, ttl: int)
      ensures Valid() && fresh(shards) && evicted == 0 && cap == CapPerShard(maxEntries)
      ensures localTTL == if ttl <= 0 then 60_000 else ttl
      ensures forall k :: Resident(k).None?
    {
      localTTL := if ttl <= 0 then 60_000 else ttl;
      cap := CapPerShard(maxEntries);
      shards := new Shard[SHARD_COUNT](_ => Shard(map[], []));
      evicted := 0;
    }

    predicate Enabled() {
      cap > 0
    }

    ghost predicate Valid()
      reads this, shards
    {
      shards.Length == SHARD_COUNT && forall i :: 0 <= i < SHARD_COUNT ==> ShardOk(shards[i], cap, i)
    }

    ghost function List(i: nat): seq<Item>
      requires Valid() && i < SHARD_COUNT
      reads this, shards
    {
      Recency(shards[i])
    }

    /** The entry the cache holds for k. */
    ghost function Resident(k: Key): Option<CacheEntry>
      requires Valid()
      reads this, shards
    {
      Lookup(shards[BandForKey(k, SHARD_COUNT)].m, k)
    }

    /** Every shard but i is as it was. */
    twostate predicate OthersKept(i: nat)
      reads this, shards
    {
      forall n :: 0 <= n < shards.Length && n != i ==> shards[n] == old(shards[n])
    }

    method SetShard(i: nat, r: Shard)
      requires Valid() && i < SHARD_COUNT && ShardOk(r, cap, i)
      modifies shards
      ensures Valid() && shards[i] == r && OthersKept(i)
    {
      shards[i] := r;
    }

    method Get(k: Key, now: int) returns (hit: Option<CacheEntry>)
      requires Valid()
      modifies shards
      ensures Valid() && OthersKept(BandForKey(k, SHARD_COUNT))
      ensures Enabled() ==>
                var i := BandForKey(k, SHARD_COUNT);
                List(i) == AfterGet(old(List(i)), k, now)
      ensures hit.Some? <==> Enabled() && old(Resident(k)).Some? && now <= old(Resident(k)).value.expiresAt
      ensures hit.Some? ==> hit == old(Resident(k))
      ensures hit.Some? ==>
                var i := BandForKey(k, SHARD_COUNT);
                List(i) != [] && List(i)[0] == Item(k, hit.value)
    {
      if !Enabled() {
        return None;
      }
      var i := ShardFor(k);
      var r;
      r, hit := GetShard(shards[i], cap, i, k, now);
      SetShard(i, r);
    }

    /**
      Put: only a strictly newer version replaces a resident entry. While nothing is evicted, no other
      key is affected.
      */
    method Put(k: Key, payload: Payload, version: int, now: int) returns (applied: bool)
      requires Valid()
      modifies this`evicted, shards
      ensures Valid() && OthersKept(BandForKey(k, SHARD_COUNT))
      ensures Enabled() ==>
                var i := BandForKey(k, SHARD_COUNT);
                List(i) == AfterPut(old(List(i)), cap, k, CacheEntry(payload, version, now + localTTL))
      ensures applied <==> Enabled() && (old(Resident(k)).None? || old(Resident(k)).value.version < version)
      ensures Resident(k) == if applied then Some(CacheEntry(payload, version, now + localTTL)) else old(Resident(k))
      ensures var full := |old(List(BandForKey(k, SHARD_COUNT)))| == cap;
              evicted == old(evicted) + (if Enabled() && old(Resident(k)).None? && full then 1 else 0)
      ensures evicted == old(evicted) ==> forall q :: q != k ==> Resident(q) == old(Resident(q))
    {
      if !Enabled() {
        return false;
      }
      var i := ShardFor(k);
      var r, evictions;
      r, applied, evictions := PutShard(shards[i], cap, i, k, CacheEntry(payload, version, now + localTTL));
      SetShard(i, r);
      evicted := evicted + evictions;
    }

    method Invalidate(k: Key)
      requires Valid()
      modifies shards
      ensures Valid() && OthersKept(BandForKey(k, SHARD_COUNT))
      ensures Enabled() ==> Resident(k).None?
      ensures forall q :: q != k ==> Resident(q) == old(Resident(q))
    {
      if !Enabled() {
        return;
      }
      var i := ShardFor(k);
      var r := DropShard(shards[i], cap, i, k);
      SetShard(i, r);
    }

    /** Len: never more than the shards can hold, which is below MaxEntries + 256. */
    method Len(maxEntries: int) returns (n: nat)
      requires Valid() && cap == CapPerShard(maxEntries)
      ensures n == TotalOf(shards[..], SHARD_COUNT)
      ensures n <= SHARD_COUNT * cap
      ensures maxEntries > 0 ==> n < maxEntries + SHARD_COUNT
    {
      n := 0;
      var all := shards[..];
      for i := 0 to SHARD_COUNT
        invariant n == TotalOf(all, i)
      {
        n := n + |all[i].m|;
      }
      ShardsFit(all, cap);
    }
  }
}
