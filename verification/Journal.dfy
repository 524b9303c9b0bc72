/**
  The Redis journal of one namespace as the Shield drives it: hashes, ZSETs and the pipelines that run
  the scripts. Every script body is written command by command and proved against its function on slots.
  */
module Journal {
  import opened Optional
  import opened Redis

  /** One EVALSHA of a pipeline. All calls of one pipeline run the same script. */
  datatype Call =
    | CommitCall(key: Key, seq_: Option<nat>, ttl: int, expiry: int)
    | DeadLetterCall(key: Key, seq_: Option<nat>, at: int, reason: string)
    | ExtendCall(key: Key, ttl: int, expiry: int)

  function RunCall(s: Slot, c: Call, now: int): Slot {
    match c
    case CommitCall(_, seq_, ttl, expiry) => Commit(s, seq_, ttl, expiry, now)
    case DeadLetterCall(_, seq_, at, reason) => DeadLetter(s, seq_, at, reason, now)
    case ExtendCall(_, ttl, expiry) => ExtendTtl(s, ttl, expiry, now)
  }

  /** The TTL refresh of hot keys, as a call of a pipeline. */
  lemma ExtendCallOutcome(s: Slot, k: Key, ttl: int, expiry: int, now: int)
    ensures var r := RunCall(s, ExtendCall(k, ttl, expiry), now);
            if DiesWithin(s, ttl, now)
            then
              && SameFields(r.entry, s.entry) && r.entry.value.expireAt == Some(now + ttl)
              && r.due == (if s.indexed then Some(expiry) else s.due) && r.dirty == s.dirty && r.dead == s.dead
            else r == s
  {
    RefreshOutcome(s, [], 0, ttl, expiry, now);
  }

  /** The slot of k after the calls that were run (ran[i]) have been run in order. */
  function AfterSome(s: Slot, calls: seq<Call>, ran: seq<bool>, k: Key, now: int): Slot
    requires |calls| == |ran|
  {
    if calls == [] then s
    else
      var i := |calls| - 1;
      var before := AfterSome(s, calls[..i], ran[..i], k, now);
      if ran[i] && calls[i].key == k then RunCall(before, calls[i], now) else before
  }

  function AllRan(n: nat): (r: seq<bool>)
    ensures |r| == n && forall i :: 0 <= i < n ==> r[i]
  {
    seq(n, _ => true)
  }

  predicate RanAll(ran: seq<bool>) {
    forall i :: 0 <= i < |ran| ==> ran[i]
  }

  /** The slot of k after every call has been run exactly once. */
  function AfterAll(s: Slot, calls: seq<Call>, k: Key, now: int): Slot {
    AfterSome(s, calls, AllRan(|calls|), k, now)
  }

  /** A key listed twice is listed with the same arguments. */
  predicate Consistent(calls: seq<Call>) {
    forall i, j :: 0 <= i < |calls| && 0 <= j < |calls| && calls[i].key == calls[j].key ==> calls[i] == calls[j]
  }

  predicate Mentions(calls: seq<Call>, ran: seq<bool>, k: Key)
    requires |calls| == |ran|
  {
    exists i :: 0 <= i < |calls| && ran[i] && calls[i].key == k
  }

  /** On a frozen clock each script is idempotent: commit, dead-letter and TTL extension alike. */
  lemma ScriptsAreIdempotent(s: Slot, c: Call, now: int)
    ensures RunCall(RunCall(s, c, now), c, now) == RunCall(s, c, now)
  {
    match c
    case CommitCall(_, seq_, ttl, expiry) =>
      var once := Commit(s, seq_, ttl, expiry, now);
      assert once.Seq() == s.Seq();
    case DeadLetterCall(_, seq_, at, reason) =>
      var once := DeadLetter(s, seq_, at, reason, now);
      assert once.Seq() == s.Seq();
    case ExtendCall(_, ttl, expiry) =>
  }

  /** A pipeline leaves a key's slot as it was, or as one run of that key's call leaves it. */
  lemma {:induction false} AfterSomeIsOneRun(s: Slot, calls: seq<Call>, ran: seq<bool>, k: Key, now: int)
    requires |calls| == |ran| && Consistent(calls)
    ensures !Mentions(calls, ran, k) ==> AfterSome(s, calls, ran, k, now) == s
    ensures forall i :: 0 <= i < |calls| && ran[i] && calls[i].key == k ==>
              AfterSome(s, calls, ran, k, now) == RunCall(s, calls[i], now)
  {
    if calls != [] {
      var n := |calls| - 1;
      AfterSomeIsOneRun(s, calls[..n], ran[..n], k, now);
      var before := AfterSome(s, calls[..n], ran[..n], k, now);
      if !Mentions(calls, ran, k) {
        assert !Mentions(calls[..n], ran[..n], k);
      }
      forall i | 0 <= i < |calls| && ran[i] && calls[i].key == k
        ensures AfterSome(s, calls, ran, k, now) == RunCall(s, calls[i], now)
      {
        if i < n {
          assert before == RunCall(s, calls[i], now);
          if ran[n] && calls[n].key == k {
            assert calls[n] == calls[i];
            ScriptsAreIdempotent(s, calls[i], now);
          }
        } else if Mentions(calls[..n], ran[..n], k) {
          var j :| 0 <= j < n && ran[..n][j] && calls[..n][j].key == k;
          assert calls[j] == calls[i] && before == RunCall(s, calls[j], now);
          ScriptsAreIdempotent(s, calls[i], now);
        }
      }
    }
  }

  /**
    Pipelined retry is harmless: whatever part of a pipeline had run before the script cache was lost,
    running the whole pipeline again gives every key the slot one clean run gives it.
    */
  lemma RetryIsHarmless(s: Slot, calls: seq<Call>, ran: seq<bool>, k: Key, now: int)
    requires |calls| == |ran| && Consistent(calls)
    ensures AfterAll(AfterSome(s, calls, ran, k, now), calls, k, now) == AfterAll(s, calls, k, now)
  {
    var all := AllRan(|calls|);
    var partial := AfterSome(s, calls, ran, k, now);
    AfterSomeIsOneRun(s, calls, ran, k, now);
    AfterSomeIsOneRun(s, calls, all, k, now);
    AfterSomeIsOneRun(partial, calls, all, k, now);
    if Mentions(calls, ran, k) {
      var i :| 0 <= i < |calls| && ran[i] && calls[i].key == k;
      ScriptsAreIdempotent(s, calls[i], now);
    } else if Mentions(calls, all, k) {
      var i :| 0 <= i < |calls| && all[i] && calls[i].key == k;
      assert partial == s;
    }
  }

  /** Calls on distinct keys commute: a pipeline's result does not depend on the order of its calls. */
  lemma PipelineOrderIsIrrelevant(s: Slot, calls: seq<Call>, shuffled: seq<Call>, k: Key, now: int)
    requires Consistent(calls)
    requires forall c :: c in calls <==> c in shuffled
    ensures AfterAll(s, shuffled, k, now) == AfterAll(s, calls, k, now)
  {
    forall i, j | 0 <= i < |shuffled| && 0 <= j < |shuffled| && shuffled[i].key == shuffled[j].key
      ensures shuffled[i] == shuffled[j]
    {
      assert shuffled[i] in calls && shuffled[j] in calls;
    }
    AfterSomeIsOneRun(s, calls, AllRan(|calls|), k, now);
    AfterSomeIsOneRun(s, shuffled, AllRan(|shuffled|), k, now);
    if Mentions(calls, AllRan(|calls|), k) {
      var i :| 0 <= i < |calls| && AllRan(|calls|)[i] && calls[i].key == k;
      assert calls[i] in shuffled;
      var j :| 0 <= j < |shuffled| && shuffled[j] == calls[i];
      assert AllRan(|shuffled|)[j];
    } else {
      forall j | 0 <= j < |shuffled|
        ensures shuffled[j].key != k
      {
        assert shuffled[j] in calls;
        var i :| 0 <= i < |calls| && calls[i] == shuffled[j];
        assert AllRan(|calls|)[i];
      }
    }
  }

  // ── The journal ────────────────────────────────────────────────────────────

  class Journal {
    var entries: map<Key, Entry>
    var dirty: map<Key, int>
    var dead: map<Key, int>
    var indexed: set<Key>
    var due: map<Key, int>
    var now: int

    constructor ()
      ensures forall k :: SlotOf(k) == EMPTY_SLOT
    {
      entries, dirty, dead, indexed, due, now := map[], map[], map[], {}, map[], 0;
    }

    function SlotOf(k: Key): Slot
      reads this
    {
      Slot(Lookup(entries, k), Lookup(dirty, k), Lookup(dead, k), k in indexed, Lookup(due, k))
    }

    /** Only k's slot may differ from the old state. */
    twostate predicate TouchesOnly(k: Key)
      reads this
    {
      now == old(now) && forall q :: q != k ==> SlotOf(q) == old(SlotOf(q))
    }

    // Single commands, as the scripts issue them.

    method HSet(k: Key, e: Entry)
      modifies this`entries
      ensures SlotOf(k) == old(SlotOf(k)).(entry := Some(e)) && TouchesOnly(k)
    {
      entries := entries[k := e];
    }

    method PExpireKey(k: Key, ttl: int)
      modifies this`entries
      ensures SlotOf(k) == PExpire(old(SlotOf(k)), ttl, now) && TouchesOnly(k)
    {
      if k in entries {
        if ttl <= 0 {
          entries := entries - {k};
        } else {
          entries := entries[k := entries[k].(expireAt := Some(now + ttl))];
        }
      }
    }

    // The scripts.

    /** atomicWriteLua: HSET, HINCRBY, PERSIST, ZADD. */
    method AtomicWrite(k: Key, payload: Payload, ts: int)
      modifies this
      ensures SlotOf(k) == Written(old(SlotOf(k)), payload, ts) && TouchesOnly(k)
    {
      HSet(k, SlotOf(k).Fields().(p := Some(payload), ts := Some(ts)));
      entries := entries[k := entries[k].(v := Some(SeqNo(entries[k].v) + 1))];
      entries := entries[k := entries[k].(expireAt := None)];
      dirty := dirty[k := ts];
    }

    /** atomicDedupWriteLua; the result is false when the write was skipped as a duplicate. */
    method AtomicDedupWrite(k: Key, payload: Payload, ts: int, ttl: int) returns (written: bool)
      modifies this
      ensures SlotOf(k) == DedupWrite(old(SlotOf(k)), payload, ts, ttl, now) && TouchesOnly(k)
      ensures written <==> !IsDuplicate(old(SlotOf(k)), payload)
    {
      var existing := SlotOf(k).Hash();
      if existing == Some(Digest(payload)) {
        var pttl := Pttl(SlotOf(k), now);
        if pttl >= 0 && pttl < ttl {
          PExpireKey(k, ttl);
        }
        return false;
      }
      HSet(k, SlotOf(k).Fields().(p := Some(payload), ts := Some(ts), h := Some(Digest(payload))));
      entries := entries[k := entries[k].(v := Some(SeqNo(entries[k].v) + 1))];
      entries := entries[k := entries[k].(expireAt := None)];
      dirty := dirty[k := ts];
      return true;
    }

    /** commitFlushedLua; the result is false when the payload changed since it was drained. */
    method CommitFlushed(k: Key, seq_: Option<nat>, ttl: int, expiry: int) returns (committed: bool)
      modifies this
      ensures SlotOf(k) == Commit(old(SlotOf(k)), seq_, ttl, expiry, now) && TouchesOnly(k)
      ensures committed <==> old(SlotOf(k)).Seq() == seq_
    {
      var cur := SlotOf(k).Seq();
      if cur != seq_ {
        return false;
      }
      dirty := dirty - {k};
      assert TouchesOnly(k);
      if ttl > 0 {
        PExpireKey(k, ttl);
        assert TouchesOnly(k);
        if k in indexed {
          due := due[k := expiry];
        }
      }
      return true;
    }

    /** deadLetterIfUnchangedLua. HSET creates the hash when the payload had gone missing. */
    method DeadLetterIfUnchanged(k: Key, seq_: Option<nat>, at: int, reason: string) returns (moved: bool)
      modifies this
      ensures SlotOf(k) == DeadLetter(old(SlotOf(k)), seq_, at, reason, now) && TouchesOnly(k)
      ensures moved <==> old(SlotOf(k)).Seq() == seq_
    {
      var cur := SlotOf(k).Seq();
      if cur != seq_ {
        return false;
      }
      dead := dead[k := at];
      assert TouchesOnly(k);
      HSet(k, SlotOf(k).Fields().(failure := Some(Failure(reason, at))));
      PExpireKey(k, DLQ_TTL_MS);
      assert TouchesOnly(k);
      dirty := dirty - {k};
      return true;
    }

    /** extendTTLLua. */
    method ExtendTTL(k: Key, ttl: int, expiry: int) returns (extended: bool)
      modifies this
      ensures SlotOf(k) == ExtendTtl(old(SlotOf(k)), ttl, expiry, now) && TouchesOnly(k)
      ensures extended <==> DiesWithin(old(SlotOf(k)), ttl, now)
    {
      var pttl := Pttl(SlotOf(k), now);
      if pttl >= 0 && pttl < ttl {
        PExpireKey(k, ttl);
        if k in indexed {
          due := due[k := expiry];
        }
        return true;
      }
      return false;
    }

    /**
      hydrateLua behind HydrateJournal: the reply says whether the Source payload was written, and
      the payload returned is then that one, otherwise the journal's own.
      */
    method HydrateJournal(k: Key, payload: Payload, ts: int, ttl: int) returns (written: bool, current: Payload)
      modifies this
      ensures SlotOf(k) == Hydrate(old(SlotOf(k)), payload, ts, ttl, now) && TouchesOnly(k)
      ensures written <==> HydrateFills(old(SlotOf(k)))
      ensures if written then current == payload else Some(current) == old(SlotOf(k)).Stored()
    {
      var cur := SlotOf(k).Stored();
      if cur.Some? {
        var pttl := Pttl(SlotOf(k), now);
        if pttl >= 0 && pttl < ttl {
          PExpireKey(k, ttl);
        }
        return false, cur.value;
      }
      HSet(k, SlotOf(k).Fields().(p := Some(payload), ts := Some(ts)));
      entries := entries[k := entries[k].(h := None)];
      PExpireKey(k, ttl);
      return true, payload;
    }

    /** CommitDLQKeys: DEL of every payload hash, then one ZREM. */
    method CommitDLQKeys(keys: seq<Key>)
      modifies this
      ensures now == old(now)
      ensures forall k :: SlotOf(k) == if k in keys then DlqDelete(old(SlotOf(k))) else old(SlotOf(k))
    {
      for i := 0 to |keys|
        invariant now == old(now)
        invariant forall k ::
                    SlotOf(k) == if k in keys[..i] then old(SlotOf(k)).(entry := None) else old(SlotOf(k))
      {
        entries := entries - {keys[i]};
        assert keys[..i + 1] == keys[..i] + [keys[i]];
      }
      assert keys[..|keys|] == keys;
      dead := map k | k in dead && k !in keys :: dead[k];
    }

    // Pipelines.

    method Run(c: Call)
      modifies this
      ensures SlotOf(c.key) == RunCall(old(SlotOf(c.key)), c, now) && TouchesOnly(c.key)
    {
      match c
      case CommitCall(k, seq_, ttl, expiry) =>
        var _ := CommitFlushed(k, seq_, ttl, expiry);
      case DeadLetterCall(k, seq_, at, reason) =>
        var _ := DeadLetterIfUnchanged(k, seq_, at, reason);
      case ExtendCall(k, ttl, expiry) =>
        var _ := ExtendTTL(k, ttl, expiry);
    }

    /** One pipeline execution in which call i reaches a cached script exactly when cached[i]. */
    method RunPipeline(calls: seq<Call>, cached: seq<bool>)
      requires |calls| == |cached|
      modifies this
      ensures now == old(now)
      ensures forall k :: SlotOf(k) == AfterSome(old(SlotOf(k)), calls, cached, k, now)
    {
      for i := 0 to |calls|
        invariant now == old(now)
        invariant forall k :: SlotOf(k) == AfterSome(old(SlotOf(k)), calls[..i], cached[..i], k, now)
      {
        assert calls[..i + 1][..i] == calls[..i] && cached[..i + 1][..i] == cached[..i];
        if cached[i] {
          Run(calls[i]);
        }
      }
      assert calls[..|calls|] == calls && cached[..|calls|] == cached;
    }

    /**
      evalShaPipelined: the script cache may be lost at any point of the first execution (cached);
      a NOSCRIPT reply reloads the script and runs the whole pipeline again. When the reload works,
      every key ends up as if each of its calls had run exactly once.
      */
    method EvalShaPipelined(calls: seq<Call>, cached: seq<bool>, reloads: bool) returns (ok: bool)
      requires |calls| == |cached|
      requires Consistent(calls)
      modifies this
      ensures now == old(now)
      ensures ok <==> reloads || RanAll(cached)
      ensures ok ==> forall k :: SlotOf(k) == AfterAll(old(SlotOf(k)), calls, k, now)
      ensures !ok ==> forall k :: SlotOf(k) == AfterSome(old(SlotOf(k)), calls, cached, k, now)
    {
      RunPipeline(calls, cached);
      if RanAll(cached) {
        assert cached == AllRan(|calls|);
        return true;
      }
      if !reloads {
        return false;
      }
      forall k
        ensures AfterSome(SlotOf(k), calls, AllRan(|calls|), k, now) == AfterAll(old(SlotOf(k)), calls, k, now)
      {
        RetryIsHarmless(old(SlotOf(k)), calls, cached, k, now);
      }
      RunPipeline(calls, AllRan(|calls|));
      return true;
    }
  }
}
