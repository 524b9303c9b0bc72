/** Dead-letter processing: what a round of each strategy does to the journal, and how long it goes on. */
module Dlq {
  import opened Optional
  import opened Redis
  import opened Bands
  import opened Journal
  import opened Sink
  import Engine

  datatype Record = Record(key: Key, payload: Payload)

  predicate DistinctKeys(records: seq<Record>) {
    forall i, j :: 0 <= i < j < |records| ==> records[i].key != records[j].key
  }

  /** How re-journaling a record ends; an error may hide a write that did run. */
  datatype Attempt = Acked | Refused | RefusedButRan

  /** One batch under one strategy, with what the contract, the sink and Redis answer. */
  datatype Round =
    | Ignore
    | Upsert(accepts: (Key, Payload) -> bool, reply: Option<seq<SinkError>>)
    | ReInsert(mutate: Key -> Key, attempts: nat -> Attempt)

  /** The i-th record of the batch is taken out of the dead-letter queue. */
  predicate Succeeds(round: Round, records: seq<Record>, i: nat)
    requires i < |records|
  {
    match round
    case Ignore => true
    case Upsert(accepts, reply) =>
      accepts(records[i].key, records[i].payload) && Engine.Usable(reply) && !Reports(reply.value, records[i].key)
    case ReInsert(_, attempts) => attempts(i) == Acked
  }

  predicate Leaves(round: Round, records: seq<Record>, n: nat, k: Key)
    requires n <= |records|
  {
    exists i :: 0 <= i < n && records[i].key == k && Succeeds(round, records, i)
  }

  /** k's slot after the writes of the first n records. */
  function Rejournaled(s: Slot, records: seq<Record>, n: nat, k: Key, round: Round, now: int): Slot
    requires n <= |records| && round.ReInsert?
  {
    if n == 0 then s
    else
      var before := Rejournaled(s, records, n - 1, k, round, now);
      if round.attempts(n - 1) != Refused && round.mutate(records[n - 1].key) == k
      then Written(before, records[n - 1].payload, now) else before
  }

  /** k's slot after a round. */
  function AfterRound(s: Slot, records: seq<Record>, k: Key, round: Round, now: int): Slot {
    var w := if round.ReInsert? then Rejournaled(s, records, |records|, k, round, now) else s;
    if Leaves(round, records, |records|, k) then DlqDelete(w) else w
  }

  // ── What a round promises ──────────────────────────────────────────────────

  lemma {:induction false} RejournalingKeepsDead(s: Slot, records: seq<Record>, n: nat, k: Key, round: Round, now: int)
    requires n <= |records| && round.ReInsert?
    ensures Rejournaled(s, records, n, k, round, now).dead == s.dead
  {
    if n > 0 {
      RejournalingKeepsDead(s, records, n - 1, k, round, now);
    }
  }

  /**
    A record leaves the dead-letter queue if and only if it is ignored, reported error-free by the sink, or
    acknowledged under its new key. Until then it keeps its place.
    */
  lemma LeavesDlqIff(s: Slot, records: seq<Record>, k: Key, round: Round, now: int)
    ensures AfterRound(s, records, k, round, now).dead == if Leaves(round, records, |records|, k) then None else s.dead
  {
    if round.ReInsert? {
      RejournalingKeepsDead(s, records, |records|, k, round, now);
    }
  }

  /** With a sink that reports what it does not apply, a record that leaves in an Upsert round was applied. */
  lemma UpsertedRecordIsApplied(s: Slot, records: seq<Record>, k: Key, round: Round, now: int, applied: set<Key>)
    requires round.Upsert? && round.reply.Some?
    requires Honest(AcceptedKeys(records, round.accepts, |records|), applied, round.reply.value)
    requires s.dead.Some? && AfterRound(s, records, k, round, now).dead.None?
    ensures k in applied
  {
    LeavesDlqIff(s, records, k, round, now);
    UpsertLeaves(records, round.accepts, round.reply, k);
  }

  /** Record i is the last one written under its new key. */
  predicate WritesLast(records: seq<Record>, round: Round, i: nat)
    requires i < |records| && round.ReInsert?
  {
    forall j :: i < j < |records| && round.attempts(j) != Refused ==>
      round.mutate(records[j].key) != round.mutate(records[i].key)
  }

  lemma {:induction false} LastWriteStands(s: Slot, records: seq<Record>, n: nat, round: Round, i: nat, now: int)
    requires i < n <= |records| && round.ReInsert? && round.attempts(i) != Refused && WritesLast(records, round, i)
    ensures var w := Rejournaled(s, records, n, round.mutate(records[i].key), round, now);
            w.Stored() == Some(records[i].payload) && w.dirty.Some? && w.Persistent()
  {
    if n > i + 1 {
      LastWriteStands(s, records, n - 1, round, i, now);
    }
  }

  /**
    A re-journaled payload survives its round if and only if its new key is not itself deleted from the
    dead-letter queue in that round. The key mutator must therefore leave the keys of the batch.
    */
  lemma ReinsertedPayloadSurvivesIff(s: Slot, records: seq<Record>, round: Round, i: nat, now: int)
    requires i < |records| && round.ReInsert? && round.attempts(i) == Acked && WritesLast(records, round, i)
    ensures var k := round.mutate(records[i].key);
            var after := AfterRound(s, records, k, round, now);
            && after.dirty.Some?
            && (after.Stored() == Some(records[i].payload) && after.Persistent() <==> !Leaves(round, records, |records|, k))
  {
    LastWriteStands(s, records, |records|, round, i, now);
  }

  /** A mutator that keeps the key loses every acknowledged record: it stays dirty without a payload. */
  lemma SameKeyIsLost(s: Slot, records: seq<Record>, attempts: nat -> Attempt, i: nat, now: int)
    requires DistinctKeys(records) && i < |records| && attempts(i) == Acked
    ensures var after := AfterRound(s, records, records[i].key, ReInsert((k: Key) => k, attempts), now);
            after.dirty.Some? && after.Stored().None? && after.dead.None?
  {
    var round := ReInsert((k: Key) => k, attempts);
    assert Succeeds(round, records, i);
    ReinsertedPayloadSurvivesIff(s, records, round, i, now);
  }

  // ── What each strategy does to a record ────────────────────────────────────

  lemma LeavesAt(round: Round, records: seq<Record>, i: nat)
    requires DistinctKeys(records) && i < |records|
    ensures Leaves(round, records, |records|, records[i].key) <==> Succeeds(round, records, i)
  {
  }

  /** Ignore deletes every record. */
  lemma IgnoredRecordIsDeleted(s: Slot, records: seq<Record>, i: nat, now: int)
    requires i < |records|
    ensures var r := AfterRound(s, records, records[i].key, Ignore, now);
            r.entry.None? && r.dead.None? && r.dirty == s.dirty
  {
    assert Succeeds(Ignore, records, i);
  }

  /**
    Upsert deletes a record if and only if the contract accepted it, BulkWrite did not fail, every error has a key, and
    none names the record. Any other record keeps its whole slot.
    */
  lemma UpsertedRecordIsDeletedIff(s: Slot, records: seq<Record>, accepts: (Key, Payload) -> bool,
                                   reply: Option<seq<SinkError>>, i: nat, now: int)
    requires DistinctKeys(records) && i < |records|
    ensures var r := AfterRound(s, records, records[i].key, Upsert(accepts, reply), now);
            if accepts(records[i].key, records[i].payload) && reply.Some?
               && (forall e :: e in reply.value ==> e.key != [] && e.key != records[i].key)
            then r.entry.None? && r.dead.None? && r.dirty == s.dirty
            else r == s
  {
    LeavesAt(Upsert(accepts, reply), records, i);
  }

  /** A re-insert takes a record out of the dead-letter queue if and only if its write was acknowledged. */
  lemma ReInsertLeavesIff(s: Slot, records: seq<Record>, mutate: Key -> Key, attempts: nat -> Attempt, i: nat, now: int)
    requires DistinctKeys(records) && i < |records| && s.dead.Some?
    ensures AfterRound(s, records, records[i].key, ReInsert(mutate, attempts), now).dead.None? <==> attempts(i) == Acked
  {
    LeavesAt(ReInsert(mutate, attempts), records, i);
    LeavesDlqIff(s, records, records[i].key, ReInsert(mutate, attempts), now);
  }

  lemma {:induction false} NothingRejournaled(s: Slot, records: seq<Record>, n: nat, k: Key, round: Round, now: int)
    requires n <= |records| && round.ReInsert?
    requires forall j :: 0 <= j < n && round.attempts(j) != Refused ==> round.mutate(records[j].key) != k
    ensures Rejournaled(s, records, n, k, round, now) == s
  {
    if n > 0 {
      NothingRejournaled(s, records, n - 1, k, round, now);
    }
  }

  /** A record whose re-insert was not acknowledged keeps its whole slot, unless another one is written onto its key. */
  lemma FailedReInsertKeepsRecord(s: Slot, records: seq<Record>, mutate: Key -> Key, attempts: nat -> Attempt, i: nat, now: int)
    requires DistinctKeys(records) && i < |records| && attempts(i) != Acked
    requires forall j :: 0 <= j < |records| && attempts(j) != Refused ==> mutate(records[j].key) != records[i].key
    ensures AfterRound(s, records, records[i].key, ReInsert(mutate, attempts), now) == s
  {
    LeavesAt(ReInsert(mutate, attempts), records, i);
    NothingRejournaled(s, records, |records|, records[i].key, ReInsert(mutate, attempts), now);
  }

  /**
    The payload of an acknowledged re-insert is dirty and persistent under its new key, if no later record is written
    under it and it is no key of the batch.
    */
  lemma AckedReInsertIsJournaled(s: Slot, records: seq<Record>, mutate: Key -> Key, attempts: nat -> Attempt, i: nat, now: int)
    requires i < |records| && attempts(i) == Acked
    requires forall j :: i < j < |records| && attempts(j) != Refused ==> mutate(records[j].key) != mutate(records[i].key)
    requires forall j :: 0 <= j < |records| ==> records[j].key != mutate(records[i].key)
    ensures var r := AfterRound(s, records, mutate(records[i].key), ReInsert(mutate, attempts), now);
            && r.dirty.Some? && r.dead == s.dead && r.entry.Some?
            && r.entry.value.p == Some(records[i].payload) && r.entry.value.expireAt.None?
  {
    ReinsertedPayloadSurvivesIff(s, records, ReInsert(mutate, attempts), i, now);
    RejournalingKeepsDead(s, records, |records|, mutate(records[i].key), ReInsert(mutate, attempts), now);
  }

  /** A key outside the batch, and outside the new keys, keeps its slot whatever the strategy. */
  lemma OtherKeysAreLeftAlone(s: Slot, records: seq<Record>, k: Key, round: Round, now: int)
    requires forall j :: 0 <= j < |records| ==> records[j].key != k
    requires round.ReInsert? ==>
               forall j :: 0 <= j < |records| && round.attempts(j) != Refused ==> round.mutate(records[j].key) != k
    ensures AfterRound(s, records, k, round, now) == s
  {
    if round.ReInsert? {
      NothingRejournaled(s, records, |records|, k, round, now);
    }
  }

  /** How many of the first n writes were acknowledged. */
  function AckedCount(attempts: nat -> Attempt, n: nat): (c: nat)
    ensures c <= n
  {
    if n == 0 then 0 else AckedCount(attempts, n - 1) + (if attempts(n - 1) == Acked then 1 else 0)
  }

  // ── Draining ───────────────────────────────────────────────────────────────

  predicate Has(records: seq<Record>, k: Key) {
    exists i :: 0 <= i < |records| && records[i].key == k
  }

  /** records holds the members of the window that have a payload, expired the others. */
  predicate Sifted(window: seq<Key>, records: seq<Record>, expired: seq<Key>, slots: Key -> Slot) {
    && DistinctKeys(records)
    && (forall i :: 0 <= i < |records| ==>
          records[i].key in window && slots(records[i].key).Visible() == Some(records[i].payload))
    && (forall k :: k in window ==> (k in expired <==> slots(k).Visible().None?))
    && (forall k :: k in expired ==> k in window)
    && (forall k :: k in window && k !in expired ==> Has(records, k))
  }

  lemma SiftAppend(window: seq<Key>, records: seq<Record>, expired: seq<Key>, slots: Key -> Slot, k: Key)
    requires Sifted(window, records, expired, slots) && k !in window
    ensures slots(k).Visible().None? ==> Sifted(window + [k], records, expired + [k], slots)
    ensures slots(k).Visible().Some? ==>
              Sifted(window + [k], records + [Record(k, slots(k).Visible().value)], expired, slots)
  {
    if slots(k).Visible().Some? {
      var more := records + [Record(k, slots(k).Visible().value)];
      forall q | q in window + [k] && q !in expired
        ensures Has(more, q)
      {
        if q == k {
          assert more[|records|].key == k;
        } else {
          assert Has(records, q);
          var i :| 0 <= i < |records| && records[i].key == q;
          assert more[i].key == q;
        }
      }
    }
  }

  /** The records of a window, in its order. */
  function Records(window: seq<Key>, slots: Key -> Slot): seq<Record> {
    if window == [] then []
    else
      var n := |window| - 1;
      var p := slots(window[n]).Visible();
      Records(window[..n], slots) + (if p.Some? then [Record(window[n], p.value)] else [])
  }

  /** The members of a window that have no payload. */
  function Expired(window: seq<Key>, slots: Key -> Slot): seq<Key> {
    if window == [] then []
    else
      var n := |window| - 1;
      Expired(window[..n], slots) + (if slots(window[n]).Visible().None? then [window[n]] else [])
  }

  predicate Distinct(keys: seq<Key>) {
    forall i, j :: 0 <= i < j < |keys| ==> keys[i] != keys[j]
  }

  lemma {:induction false} WindowIsSifted(window: seq<Key>, slots: Key -> Slot)
    requires Distinct(window)
    ensures Sifted(window, Records(window, slots), Expired(window, slots), slots)
  {
    if window != [] {
      var n := |window| - 1;
      assert window == window[..n] + [window[n]];
      assert window[n] !in window[..n];
      WindowIsSifted(window[..n], slots);
      SiftAppend(window[..n], Records(window[..n], slots), Expired(window[..n], slots), slots, window[n]);
      SiftUnfolds(window[..n], slots, window[n]);
    }
  }

  lemma SiftUnfolds(window: seq<Key>, slots: Key -> Slot, k: Key)
    ensures var p := slots(k).Visible();
            && Records(window + [k], slots) == (if p.Some? then Records(window, slots) + [Record(k, p.value)] else Records(window, slots))
            && Expired(window + [k], slots) == (if p.Some? then Expired(window, slots) else Expired(window, slots) + [k])
  {
    assert (window + [k])[..|window|] == window;
  }

  /** drainAction: the payloads of a window, and the keys that have none. */
  method Sift(j: Journal, window: seq<Key>, ghost slots: Key -> Slot) returns (records: seq<Record>, expired: seq<Key>)
    requires forall k :: slots(k) == j.SlotOf(k)
    ensures records == Records(window, slots) && expired == Expired(window, slots)
  {
    records, expired := [], [];
    for n := 0 to |window|
      invariant records == Records(window[..n], slots) && expired == Expired(window[..n], slots)
    {
      var k := window[n];
      assert window[..n + 1][..n] == window[..n];
      var p := j.SlotOf(k).Stored();
      if p.None? || p.value == [] {
        expired := expired + [k];
      } else {
        records := records + [Record(k, p.value)];
      }
    }
    assert window[..|window|] == window;
  }

  /** ZREM of the expired members. */
  method Drop(j: Journal, expired: seq<Key>)
    modifies j
    ensures j.now == old(j.now)
    ensures forall k :: Lookup(j.dead, k) == if k in expired then None else Lookup(old(j.dead), k)
    ensures forall k :: j.SlotOf(k) == if k in expired then old(j.SlotOf(k)).(dead := None) else old(j.SlotOf(k))
  {
    j.dead := map k | k in j.dead && k !in expired :: j.dead[k];
  }

  /** The window of a drain: the band's lowest dead letters, all of them if there are fewer than maxBatch. */
  predicate IsWindow(z: map<Key, int>, window: seq<Key>, maxBatch: nat) {
    LowestFirst(z, window) && |window| <= maxBatch && (|window| < maxBatch ==> forall k :: k in z ==> k in window)
  }

  /** k is in the window, but its payload is gone. */
  predicate Dropped(window: seq<Key>, slots: Key -> Slot, k: Key) {
    k in window && slots(k).Visible().None?
  }

  /** k's slot after a drain. */
  function AfterDrain(window: seq<Key>, slots: Key -> Slot, k: Key): Slot {
    if Dropped(window, slots, k) then slots(k).(dead := None) else slots(k)
  }

  /**
    DrainDLQ: the band's oldest dead letters, at most maxBatch of them. Those without a payload are dropped
    from the queue at once, the others are returned in order and stay in it.
    */
  method DrainDLQ(j: Journal, band: nat, bandCount: nat, maxBatch: nat)
    returns (records: seq<Record>, ghost window: seq<Key>, ghost slots: Key -> Slot)
    requires bandCount > 0
    modifies j
    ensures j.now == old(j.now)
    ensures forall k :: slots(k) == old(j.SlotOf(k))
    ensures IsWindow(OfBand(old(j.dead), band, bandCount), window, maxBatch)
    ensures records == Records(window, slots)
    ensures forall k :: j.SlotOf(k) == AfterDrain(window, slots, k)
    ensures forall k :: Lookup(j.dead, k) == if Dropped(window, slots, k) then None else Lookup(old(j.dead), k)
  {
    var members := RangeByScore(OfBand(j.dead, band, bandCount), maxBatch);
    window := members;
    ghost var entries, dirty, dead, indexed, due := j.entries, j.dirty, j.dead, j.indexed, j.due;
    slots := (k: Key) =>
      Slot(Lookup(entries, k), Lookup(dirty, k), Lookup(dead, k), k in indexed, Lookup(due, k));
    var expired;
    records, expired := Sift(j, members, slots);
    WindowIsSifted(members, slots);
    Drop(j, expired);
  }

  // ── Handling a batch ───────────────────────────────────────────────────────

  /** The counters of Process. */
  class Totals {
    var processed: int
    var succeeded: int
    var failed: int

    constructor ()
      ensures processed == 0 && succeeded == 0 && failed == 0
    {
      processed, succeeded, failed := 0, 0, 0;
    }

    /** How far Processed runs ahead of Succeeded + Failed. */
    function Drift(): int
      reads this
    {
      processed - succeeded - failed
    }
  }

  /** keys holds the records among the first n that leave. */
  ghost predicate Lists(keys: seq<Key>, round: Round, records: seq<Record>, n: nat)
    requires n <= |records|
  {
    forall k :: k in keys <==> Leaves(round, records, n, k)
  }

  lemma LeavesStep(round: Round, records: seq<Record>, n: nat, k: Key)
    requires n < |records|
    ensures Leaves(round, records, n + 1, k) <==>
              Leaves(round, records, n, k) || (records[n].key == k && Succeeds(round, records, n))
  {
  }

  lemma ListsAppend(keys: seq<Key>, round: Round, records: seq<Record>, n: nat)
    requires n < |records| && Lists(keys, round, records, n)
    ensures Succeeds(round, records, n) ==> Lists(keys + [records[n].key], round, records, n + 1)
    ensures !Succeeds(round, records, n) ==> Lists(keys, round, records, n + 1)
  {
    forall k
      ensures Leaves(round, records, n + 1, k) <==>
                Leaves(round, records, n, k) || (records[n].key == k && Succeeds(round, records, n))
    {
      LeavesStep(round, records, n, k);
    }
  }

  lemma {:induction false} DistinctSize(keys: seq<Key>)
    requires Distinct(keys)
    ensures |set k | k in keys| == |keys|
  {
    if keys != [] {
      var n := |keys| - 1;
      DistinctSize(keys[..n]);
      assert keys == keys[..n] + [keys[n]];
      assert (set k | k in keys) == (set k | k in keys[..n]) + {keys[n]};
    }
  }

  /** The keys a round takes out. */
  function Leaving(round: Round, records: seq<Record>): (r: set<Key>)
    ensures forall k :: k in r <==> Leaves(round, records, |records|, k)
  {
    set i | 0 <= i < |records| && Succeeds(round, records, i) :: records[i].key
  }

  lemma LeavingSize(keys: seq<Key>, round: Round, records: seq<Record>)
    requires Distinct(keys) && Lists(keys, round, records, |records|)
    ensures |keys| == |Leaving(round, records)|
  {
    DistinctSize(keys);
    assert (set k | k in keys) == Leaving(round, records);
  }

  lemma DistinctAppend(keys: seq<Key>, round: Round, records: seq<Record>, n: nat)
    requires DistinctKeys(records) && n < |records| && Lists(keys, round, records, n) && Distinct(keys)
    ensures Distinct(keys + [records[n].key])
  {
    assert records[n].key !in keys;
  }

  method KeysOf(records: seq<Record>) returns (keys: seq<Key>)
    requires DistinctKeys(records)
    ensures Lists(keys, Ignore, records, |records|) && Distinct(keys) && |keys| == |records|
  {
    keys := [];
    for i := 0 to |records|
      invariant Lists(keys, Ignore, records, i) && Distinct(keys) && |keys| == i
    {
      ListsAppend(keys, Ignore, records, i);
      DistinctAppend(keys, Ignore, records, i);
      keys := keys + [records[i].key];
    }
  }

  /** handleIgnore. */
  method HandleIgnore(j: Journal, records: seq<Record>, total: Totals)
    requires DistinctKeys(records)
    modifies j, total
    ensures j.now == old(j.now)
    ensures forall k :: j.SlotOf(k) == AfterRound(old(j.SlotOf(k)), records, k, Ignore, j.now)
    ensures total.Drift() == old(total.Drift())
    ensures total.succeeded == old(total.succeeded) + |Leaving(Ignore, records)|
    ensures total.processed == old(total.processed) + |records|
  {
    var keys := KeysOf(records);
    LeavingSize(keys, Ignore, records);
    j.CommitDLQKeys(keys);
    total.processed := total.processed + |records|;
    total.succeeded := total.succeeded + |records|;
  }

  /** The keys whose records pass the contract, in order. */
  function AcceptedKeys(records: seq<Record>, accepts: (Key, Payload) -> bool, n: nat): (r: seq<Key>)
    requires n <= |records|
    ensures forall k :: k in r <==> exists i :: 0 <= i < n && records[i].key == k && accepts(k, records[i].payload)
  {
    if n == 0 then []
    else
      AcceptedKeys(records, accepts, n - 1)
      + (if accepts(records[n - 1].key, records[n - 1].payload) then [records[n - 1].key] else [])
  }

  lemma {:induction false} AcceptedAreDistinct(records: seq<Record>, accepts: (Key, Payload) -> bool, n: nat)
    requires n <= |records| && DistinctKeys(records)
    ensures Distinct(AcceptedKeys(records, accepts, n))
  {
    if n > 0 {
      AcceptedAreDistinct(records, accepts, n - 1);
      var before := AcceptedKeys(records, accepts, n - 1);
      assert forall i :: 0 <= i < |before| ==> before[i] in before;
    }
  }

  /** Success by elimination: the keys no error names. The rest are as many as the failures inside the batch. */
  method Eliminate(corrKeys: seq<Key>, errors: seq<SinkError>) returns (success: seq<Key>, failed: set<Key>)
    requires Distinct(corrKeys)
    ensures forall k :: k in success <==> k in corrKeys && !Reports(errors, k)
    ensures Distinct(success)
    ensures |success| + |failed| == |corrKeys| <==> forall e :: e in errors ==> e.key in corrKeys
  {
    failed := {};
    for i := 0 to |errors|
      invariant forall k :: k in failed <==> Reports(errors[..i], k)
    {
      assert errors[..i + 1] == errors[..i] + [errors[i]];
      ReportsAppend(errors[..i], errors[i]);
      failed := failed + {errors[i].key};
    }
    assert errors[..|errors|] == errors;
    success := [];
    ghost var inside: set<Key> := {};
    for i := 0 to |corrKeys|
      invariant forall k :: k in success <==> k in corrKeys[..i] && k !in failed
      invariant forall k :: k in inside <==> k in corrKeys[..i] && k in failed
      invariant |success| + |inside| == i && Distinct(success)
    {
      assert corrKeys[..i + 1] == corrKeys[..i] + [corrKeys[i]];
      assert corrKeys[i] !in corrKeys[..i];
      if corrKeys[i] !in failed {
        success := success + [corrKeys[i]];
      } else {
        inside := inside + {corrKeys[i]};
      }
    }
    assert corrKeys[..|corrKeys|] == corrKeys;
    SubsetSize(inside, failed);
    AllInside(corrKeys, errors, failed, inside);
  }

  lemma ReportsAppend(errors: seq<SinkError>, e: SinkError)
    ensures forall k :: Reports(errors + [e], k) <==> Reports(errors, k) || e.key == k
  {
    forall k
      ensures Reports(errors + [e], k) <==> Reports(errors, k) || e.key == k
    {
      assert e in errors + [e];
      assert forall x :: x in errors ==> x in errors + [e];
    }
  }

  lemma SubsetSize(a: set<Key>, b: set<Key>)
    requires a <= b
    ensures |a| <= |b| && (|a| == |b| <==> a == b)
  {
    assert b == a + (b - a);
  }

  lemma AllInside(corrKeys: seq<Key>, errors: seq<SinkError>, failed: set<Key>, inside: set<Key>)
    requires forall k :: k in failed <==> Reports(errors, k)
    requires forall k :: k in inside <==> k in corrKeys && k in failed
    ensures inside == failed <==> forall e :: e in errors ==> e.key in corrKeys
  {
    if inside == failed {
      forall e | e in errors
        ensures e.key in corrKeys
      {
        assert Reports(errors, e.key);
      }
    }
  }

  lemma UpsertLeaves(records: seq<Record>, accepts: (Key, Payload) -> bool, reply: Option<seq<SinkError>>, k: Key)
    ensures Leaves(Upsert(accepts, reply), records, |records|, k)
       <==> Engine.Usable(reply) && k in AcceptedKeys(records, accepts, |records|) && !Reports(reply.value, k)
  {
    var round := Upsert(accepts, reply);
    if Engine.Usable(reply) && k in AcceptedKeys(records, accepts, |records|) && !Reports(reply.value, k) {
      var i :| 0 <= i < |records| && records[i].key == k && accepts(k, records[i].payload);
      assert Succeeds(round, records, i);
    }
  }

  /** Every error names a record of the batch, or no reply was used. */
  predicate WithinBatch(records: seq<Record>, accepts: (Key, Payload) -> bool, reply: Option<seq<SinkError>>) {
    var keys := AcceptedKeys(records, accepts, |records|);
    keys != [] && Engine.Usable(reply) ==> forall e :: e in reply.value ==> e.key in keys
  }

  /** The contract loop of handleUpsert: a violation counts as processed and failed, and stays. */
  method Accept(records: seq<Record>, accepts: (Key, Payload) -> bool, total: Totals) returns (corrKeys: seq<Key>)
    modifies total
    ensures corrKeys == AcceptedKeys(records, accepts, |records|)
    ensures total.Drift() == old(total.Drift()) && total.succeeded == old(total.succeeded)
    ensures total.processed + |corrKeys| == old(total.processed) + |records|
  {
    corrKeys := [];
    for i := 0 to |records|
      invariant corrKeys == AcceptedKeys(records, accepts, i)
      invariant total.Drift() == old(total.Drift()) && total.succeeded == old(total.succeeded)
      invariant total.processed + |corrKeys| == old(total.processed) + i
    {
      if accepts(records[i].key, records[i].payload) {
        corrKeys := corrKeys + [records[i].key];
      } else {
        total.processed := total.processed + 1;
        total.failed := total.failed + 1;
      }
    }
  }

  /**
    handleUpsert. Processed stays Succeeded + Failed if and only if every error names a record of the batch.
    The round fails, and takes nothing out, when the sink's reply cannot be used.
    */
  method HandleUpsert(j: Journal, records: seq<Record>, accepts: (Key, Payload) -> bool, reply: Option<seq<SinkError>>, total: Totals)
    returns (ok: bool)
    requires DistinctKeys(records)
    modifies j, total
    ensures j.now == old(j.now)
    ensures forall k :: j.SlotOf(k) == AfterRound(old(j.SlotOf(k)), records, k, Upsert(accepts, reply), j.now)
    ensures ok <==> AcceptedKeys(records, accepts, |records|) == [] || Engine.Usable(reply)
    ensures total.Drift() == old(total.Drift()) <==> WithinBatch(records, accepts, reply)
    ensures total.succeeded == old(total.succeeded) + |Leaving(Upsert(accepts, reply), records)|
    ensures ok ==> total.processed == old(total.processed) + |records|
    ensures !ok ==> total.processed + |AcceptedKeys(records, accepts, |records|)| == old(total.processed) + |records|
  {
    var corrKeys := Accept(records, accepts, total);
    if corrKeys == [] {
      NoneAccepted(records, accepts, reply);
      LeavingSize([], Upsert(accepts, reply), records);
      return true;
    }
    if reply.None? {
      LeavingSize([], Upsert(accepts, reply), records);
      return false;
    }
    var attributed := CheckAttribution(reply.value);
    if !attributed {
      LeavingSize([], Upsert(accepts, reply), records);
      return false;
    }
    AcceptedAreDistinct(records, accepts, |records|);
    var success, failed := Eliminate(corrKeys, reply.value);
    forall k
      ensures k in success <==> Leaves(Upsert(accepts, reply), records, |records|, k)
    {
      UpsertLeaves(records, accepts, reply, k);
    }
    LeavingSize(success, Upsert(accepts, reply), records);
    if success != [] {
      j.CommitDLQKeys(success);
    }
    total.processed := total.processed + |corrKeys|;
    total.succeeded := total.succeeded + |success|;
    total.failed := total.failed + |failed|;
    return true;
  }

  lemma NoneAccepted(records: seq<Record>, accepts: (Key, Payload) -> bool, reply: Option<seq<SinkError>>)
    requires AcceptedKeys(records, accepts, |records|) == []
    ensures forall k :: !Leaves(Upsert(accepts, reply), records, |records|, k)
  {
    forall k
      ensures !Leaves(Upsert(accepts, reply), records, |records|, k)
    {
      assert k !in AcceptedKeys(records, accepts, |records|);
    }
  }

  /** The write of one record: an error is returned whether or not the script ran. */
  method WriteOne(j: Journal, newKey: Key, payload: Payload, attempt: Attempt)
    modifies j
    ensures j.now == old(j.now)
    ensures forall k :: j.SlotOf(k) == if attempt != Refused && newKey == k then Written(old(j.SlotOf(k)), payload, j.now) else old(j.SlotOf(k))
  {
    if attempt != Refused {
      j.AtomicWrite(newKey, payload, j.now);
    }
  }

  /** handleReInsert. */
  method HandleReInsert(j: Journal, records: seq<Record>, mutate: Key -> Key, attempts: nat -> Attempt, total: Totals)
    requires DistinctKeys(records)
    modifies j, total
    ensures j.now == old(j.now)
    ensures forall k :: j.SlotOf(k) == AfterRound(old(j.SlotOf(k)), records, k, ReInsert(mutate, attempts), j.now)
    ensures total.Drift() == old(total.Drift())
    ensures total.succeeded == old(total.succeeded) + |Leaving(ReInsert(mutate, attempts), records)|
    ensures total.succeeded == old(total.succeeded) + AckedCount(attempts, |records|)
    ensures total.failed == old(total.failed) + |records| - AckedCount(attempts, |records|)
    ensures total.processed == old(total.processed) + |records|
  {
    var round := ReInsert(mutate, attempts);
    var committable := [];
    for i := 0 to |records|
      invariant j.now == old(j.now)
      invariant forall k :: j.SlotOf(k) == Rejournaled(old(j.SlotOf(k)), records, i, k, round, j.now)
      invariant Lists(committable, round, records, i) && Distinct(committable)
      invariant total.Drift() == old(total.Drift()) && total.succeeded == old(total.succeeded)
      invariant total.processed + |committable| == old(total.processed) + i && |committable| == AckedCount(attempts, i)
    {
      ListsAppend(committable, round, records, i);
      DistinctAppend(committable, round, records, i);
      WriteOne(j, mutate(records[i].key), records[i].payload, attempts(i));
      if attempts(i) == Acked {
        committable := committable + [records[i].key];
      } else {
        total.processed := total.processed + 1;
        total.failed := total.failed + 1;
      }
    }
    LeavingSize(committable, round, records);
    if committable != [] {
      j.CommitDLQKeys(committable);
    }
    total.processed := total.processed + |committable|;
    total.succeeded := total.succeeded + |committable|;
  }

  // ── The loop ───────────────────────────────────────────────────────────────

  /** A strategy, with the answers of the sink and of Redis in the n-th round. */
  datatype Strategy =
    | IgnoreAll
    | UpsertAll(accepts: (Key, Payload) -> bool, replies: (nat, seq<Record>) -> Option<seq<SinkError>>)
    | ReInsertAll(mutate: Key -> Key, attempts: nat -> nat -> Attempt)

  function RoundOf(strategy: Strategy, n: nat, records: seq<Record>): Round {
    match strategy
    case IgnoreAll => Ignore
    case UpsertAll(accepts, replies) => Upsert(accepts, replies(n, records))
    case ReInsertAll(mutate, attempts) => ReInsert(mutate, attempts(n))
  }

  /** Every error of the round names a record of its batch. */
  predicate Balanced(round: Round, records: seq<Record>) {
    round.Upsert? ==> WithinBatch(records, round.accepts, round.reply)
  }

  method Handle(j: Journal, records: seq<Record>, round: Round, total: Totals) returns (ok: bool)
    requires DistinctKeys(records)
    modifies j, total
    ensures j.now == old(j.now)
    ensures forall k :: j.SlotOf(k) == AfterRound(old(j.SlotOf(k)), records, k, round, j.now)
    ensures forall k :: Lookup(j.dead, k) == if Leaves(round, records, |records|, k) then None else Lookup(old(j.dead), k)
    ensures total.Drift() == old(total.Drift()) <==> Balanced(round, records)
    ensures total.succeeded == old(total.succeeded) + |Leaving(round, records)|
    ensures ok ==> total.processed == old(total.processed) + |records|
    ensures ok <==> (round.Upsert? ==> AcceptedKeys(records, round.accepts, |records|) == [] || Engine.Usable(round.reply))
  {
    ok := true;
    match round {
      case Ignore => HandleIgnore(j, records, total);
      case Upsert(accepts, reply) => ok := HandleUpsert(j, records, accepts, reply, total);
      case ReInsert(mutate, attempts) => HandleReInsert(j, records, mutate, attempts, total);
    }
    forall k
      ensures Lookup(j.dead, k) == if Leaves(round, records, |records|, k) then None else Lookup(old(j.dead), k)
    {
      LeavesDlqIff(old(j.SlotOf(k)), records, k, round, j.now);
      assert j.SlotOf(k).dead == Lookup(j.dead, k);
    }
  }

  /** One iteration: the band's queue and the slots before it, what was drained, and how the round went. */
  datatype Step = Step(queue: map<Key, int>, slots: Key -> Slot, window: seq<Key>, records: seq<Record>, round: Round)

  ghost predicate IsStep(step: Step, maxBatch: nat) {
    IsWindow(step.queue, step.window, maxBatch) && step.records == Records(step.window, step.slots)
  }

  /** k had no payload, or its record's round succeeded. */
  predicate Removes(step: Step, k: Key) {
    Dropped(step.window, step.slots, k) || Leaves(step.round, step.records, |step.records|, k)
  }

  /** Some iteration took k out. */
  predicate Removed(history: seq<Step>, k: Key) {
    exists i :: 0 <= i < |history| && Removes(history[i], k)
  }

  lemma RemovedAppend(history: seq<Step>, step: Step, k: Key)
    ensures Removed(history + [step], k) <==> Removed(history, k) || Removes(step, k)
  {
    var longer := history + [step];
    assert longer[|history|] == step;
    if Removed(history, k) {
      var i :| 0 <= i < |history| && Removes(history[i], k);
      assert longer[i] == history[i];
    }
  }

  /** The queue a step leaves. */
  ghost predicate LeavesQueue(step: Step, queue: map<Key, int>) {
    forall k :: Lookup(queue, k) == if Removes(step, k) then None else Lookup(step.queue, k)
  }

  /** The iteration takes somebody out of the queue. */
  predicate Shrinks(step: Step) {
    exists k :: k in step.queue && Removes(step, k)
  }

  lemma QueueShrinks(step: Step, queue: map<Key, int>)
    requires LeavesQueue(step, queue)
    ensures |queue| <= |step.queue| && (Shrinks(step) ==> |queue| < |step.queue|)
  {
    forall k
      ensures k in queue <==> k in step.queue && !Removes(step, k)
    {
      assert Lookup(queue, k) == if Removes(step, k) then None else Lookup(step.queue, k);
    }
    assert |queue| == |queue.Keys| && |step.queue| == |step.queue.Keys|;
    SubsetSize(queue.Keys, step.queue.Keys);
    if Shrinks(step) {
      var k :| k in step.queue && Removes(step, k);
      assert k in step.queue.Keys && k !in queue.Keys;
    }
  }

  /** A round that takes a record out shrinks the queue, and so does a drain that drops one. */
  lemma TakingOutShrinks(step: Step, maxBatch: nat, i: nat)
    requires IsStep(step, maxBatch) && i < |step.records| && Succeeds(step.round, step.records, i)
    ensures Shrinks(step)
  {
    WindowIsSifted(step.window, step.slots);
    assert step.records[i].key in step.window;
    assert Leaves(step.round, step.records, |step.records|, step.records[i].key);
  }

  // ── The same batch again ───────────────────────────────────────────────────

  function KeysIn(records: seq<Record>): (r: seq<Key>)
    ensures |r| == |records| && forall i :: 0 <= i < |r| ==> r[i] == records[i].key
  {
    seq(|records|, i requires 0 <= i < |records| => records[i].key)
  }

  /** The drained keys stand in the order of the queue. */
  lemma {:induction false} RecordsAreOrdered(z: map<Key, int>, window: seq<Key>, slots: Key -> Slot, i: nat, j: nat)
    requires LowestFirst(z, window) && i < j < |Records(window, slots)|
    ensures Before(z, Records(window, slots)[i].key, Records(window, slots)[j].key)
  {
    var n := |window| - 1;
    var front := Records(window[..n], slots);
    assert window == window[..n] + [window[n]];
    if j < |front| {
      RecordsAreOrdered(z, window[..n], slots, i, j);
    } else {
      WindowIsSifted(window[..n], slots);
      assert front[i].key in window[..n];
    }
  }

  /** The records of a drain head the queue that is left when its payload-less members are gone. */
  lemma RecordsHeadTheQueue(step: Step, maxBatch: nat, queue: map<Key, int>)
    requires IsStep(step, maxBatch) && LeavesQueue(step, queue)
    requires forall i :: 0 <= i < |step.records| ==> !Succeeds(step.round, step.records, i)
    ensures LowestFirst(queue, KeysIn(step.records))
  {
    WindowIsSifted(step.window, step.slots);
    var keys := KeysIn(step.records);
    forall k
      ensures k in queue <==> k in step.queue && !Removes(step, k)
      ensures k in queue ==> queue[k] == step.queue[k]
    {
      assert Lookup(queue, k) == if Removes(step, k) then None else Lookup(step.queue, k);
    }
    forall i | 0 <= i < |keys|
      ensures keys[i] in queue && keys[i] in step.window
    {
      assert step.records[i].key in step.window;
    }
    forall i, j | 0 <= i < j < |keys|
      ensures keys[i] != keys[j] && Before(queue, keys[i], keys[j])
    {
      RecordsAreOrdered(step.queue, step.window, step.slots, i, j);
    }
    forall i, k | 0 <= i < |keys| && k in queue && k !in keys
      ensures Before(queue, keys[i], k)
    {
      NotDrainedIsLater(step, maxBatch, i, k);
    }
  }

  lemma NotDrainedIsLater(step: Step, maxBatch: nat, i: nat, k: Key)
    requires IsStep(step, maxBatch) && i < |step.records|
    requires k in step.queue && k !in KeysIn(step.records) && !Removes(step, k)
    ensures Before(step.queue, step.records[i].key, k)
  {
    WindowIsSifted(step.window, step.slots);
    assert step.records[i].key in step.window;
    var n :| 0 <= n < |step.window| && step.window[n] == step.records[i].key;
    WindowIsDrained(step.window, step.slots, k);
  }

  lemma WindowIsDrained(window: seq<Key>, slots: Key -> Slot, k: Key)
    requires Distinct(window)
    ensures k in window ==> Dropped(window, slots, k) || k in KeysIn(Records(window, slots))
  {
    WindowIsSifted(window, slots);
    var records := Records(window, slots);
    if k in window && !Dropped(window, slots, k) {
      assert Has(records, k);
      var m :| 0 <= m < |records| && records[m].key == k;
      assert KeysIn(records)[m] == k;
    }
  }

  /** The payloads of the records of a drain are what the slots show. */
  lemma {:induction false} RecordsByKeys(window: seq<Key>, slots: Key -> Slot, i: nat)
    requires i < |Records(window, slots)|
    ensures var r := Records(window, slots)[i]; slots(r.key).Visible() == Some(r.payload)
  {
    var n := |window| - 1;
    if i < |Records(window[..n], slots)| {
      RecordsByKeys(window[..n], slots, i);
    }
  }

  /** Nothing went right: the contract refused the records, or the sink named every key it was given. */
  predicate NothingSucceeded(round: Round, records: seq<Record>)
    requires round.Upsert?
  {
    forall k :: k in AcceptedKeys(records, round.accepts, |records|) ==> round.reply.Some? && Reports(round.reply.value, k)
  }

  /** An Upsert round that did not end the loop succeeded for no record exactly when nothing succeeded. */
  lemma NothingSucceededIff(round: Round, records: seq<Record>)
    requires round.Upsert?
    requires AcceptedKeys(records, round.accepts, |records|) == [] || Engine.Usable(round.reply)
    ensures NothingSucceeded(round, records) <==> forall i :: 0 <= i < |records| ==> !Succeeds(round, records, i)
  {
    if NothingSucceeded(round, records) {
      forall i | 0 <= i < |records|
        ensures !Succeeds(round, records, i)
      {
        if round.accepts(records[i].key, records[i].payload) {
          assert records[i].key in AcceptedKeys(records, round.accepts, |records|);
        }
      }
    } else {
      var k :| k in AcceptedKeys(records, round.accepts, |records|) && !(round.reply.Some? && Reports(round.reply.value, k));
      var i :| 0 <= i < |records| && records[i].key == k && round.accepts(k, records[i].payload);
      assert Succeeds(round, records, i);
    }
  }

  /** next is the drain that follows step, with nothing in between. */
  ghost predicate Follows(step: Step, next: Step) {
    && LeavesQueue(step, next.queue)
    && (step.round.Upsert? ==> forall k :: !Removes(step, k) ==> next.slots(k) == step.slots(k))
  }

  lemma {:induction false} RecordsGrow(window: seq<Key>, slots: Key -> Slot, n: nat)
    requires n <= |window|
    ensures Records(window[..n], slots) <= Records(window, slots)
  {
    if n < |window| {
      RecordsGrow(window[..|window| - 1], slots, n);
      assert window[..|window| - 1][..n] == window[..n];
    } else {
      assert window[..n] == window;
    }
  }

  /** Draining the keys of a batch whose payloads are still there gives the batch. */
  lemma {:induction false} BatchIsDrained(records: seq<Record>, slots: Key -> Slot)
    requires forall i :: 0 <= i < |records| ==> slots(records[i].key).Visible() == Some(records[i].payload)
    ensures Records(KeysIn(records), slots) == records
  {
    if records != [] {
      var n := |records| - 1;
      BatchIsDrained(records[..n], slots);
      assert KeysIn(records)[..n] == KeysIn(records[..n]);
    }
  }

  /** Two listings of one queue, the first within the limit of the second. */
  lemma WindowIsLongEnough(z: map<Key, int>, keys: seq<Key>, window: seq<Key>, maxBatch: nat)
    requires LowestFirst(z, keys) && |keys| <= maxBatch && IsWindow(z, window, maxBatch)
    ensures |keys| <= |window| && keys == window[..|keys|]
  {
    if |keys| > |window| {
      ShorterIsNotAll(z, keys, window);
      assert false;
    }
    ListingIsUnique(z, keys, window);
  }

  lemma ShorterIsNotAll(z: map<Key, int>, keys: seq<Key>, window: seq<Key>)
    requires LowestFirst(z, keys) && LowestFirst(z, window) && |window| < |keys|
    ensures keys[|window|] in z && keys[|window|] !in window
  {
    ListingIsUnique(z, window, keys);
  }

  lemma {:induction false} RecordsAreFewer(window: seq<Key>, slots: Key -> Slot)
    ensures |Records(window, slots)| <= |window|
  {
    if window != [] {
      RecordsAreFewer(window[..|window| - 1], slots);
    }
  }

  lemma StuckDrainsAgain(step: Step, next: Step, maxBatch: nat)
    requires IsStep(step, maxBatch) && IsStep(next, maxBatch) && step.round.Upsert? && Follows(step, next)
    requires forall i :: 0 <= i < |step.records| ==> !Succeeds(step.round, step.records, i)
    ensures step.records <= next.records
  {
    var keys := KeysIn(step.records);
    RecordsHeadTheQueue(step, maxBatch, next.queue);
    RecordsAreFewer(step.window, step.slots);
    WindowIsLongEnough(next.queue, keys, next.window, maxBatch);
    forall i | 0 <= i < |step.records|
      ensures next.slots(step.records[i].key).Visible() == Some(step.records[i].payload)
    {
      RecordsByKeys(step.window, step.slots, i);
    }
    BatchIsDrained(step.records, next.slots);
    RecordsGrow(next.window, next.slots, |keys|);
  }

  /**
    After an Upsert round that did not end the loop, the next drain returns the same batch again (and perhaps
    more) if and only if nothing succeeded: the contract accepted no record, or a usable reply names every
    accepted one. Such a loop goes on for ever.
    */
  lemma UpsertRoundIsStuckIff(step: Step, next: Step, maxBatch: nat)
    requires IsStep(step, maxBatch) && IsStep(next, maxBatch) && step.round.Upsert? && Follows(step, next)
    requires AcceptedKeys(step.records, step.round.accepts, |step.records|) == [] || Engine.Usable(step.round.reply)
    ensures step.records <= next.records <==> NothingSucceeded(step.round, step.records)
  {
    NothingSucceededIff(step.round, step.records);
    if NothingSucceeded(step.round, step.records) {
      StuckDrainsAgain(step, next, maxBatch);
    } else {
      var i :| 0 <= i < |step.records| && Succeeds(step.round, step.records, i);
      SucceededIsNotDrained(step, next, maxBatch, i);
    }
  }

  lemma SucceededIsNotDrained(step: Step, next: Step, maxBatch: nat, i: nat)
    requires IsStep(step, maxBatch) && IsStep(next, maxBatch) && Follows(step, next)
    requires i < |step.records| && Succeeds(step.round, step.records, i)
    ensures !(step.records <= next.records)
  {
    var k := step.records[i].key;
    assert Removes(step, k);
    assert Lookup(next.queue, k) == None;
    WindowIsSifted(next.window, next.slots);
    if i < |next.records| {
      assert next.records[i].key in next.window;
    }
  }

  // ── processBand ────────────────────────────────────────────────────────────

  /** A full window of dead letters of which none had a payload left. */
  predicate AllDropped(step: Step, maxBatch: nat) {
    |step.window| == maxBatch && forall k :: k in step.window ==> Dropped(step.window, step.slots, k)
  }

  /** A drain that returns nothing found no payload in its window: the rest of the queue is out of its reach. */
  lemma EmptyDrain(step: Step, queue: map<Key, int>, maxBatch: nat)
    requires IsStep(step, maxBatch) && step.records == [] && LeavesQueue(step, queue)
    ensures queue == map[] || AllDropped(step, maxBatch)
  {
    forall k | k in step.window
      ensures Dropped(step.window, step.slots, k)
    {
      WindowIsDrained(step.window, step.slots, k);
    }
    if |step.window| < maxBatch {
      forall k
        ensures k !in queue
      {
        assert Lookup(queue, k) == if Removes(step, k) then None else Lookup(step.queue, k);
      }
    }
  }

  lemma NoRecordsNoChange(round: Round, now: int)
    ensures forall s, k :: AfterRound(s, [], k, round, now) == s
    ensures forall k :: !Leaves(round, [], 0, k)
    ensures Leaving(round, []) == {} && Balanced(round, [])
  {
  }

  /** What a drain and a round on it do to the queue. */
  lemma QueueAfterRound(step: Step, before: map<Key, int>, drained: map<Key, int>, after: map<Key, int>)
    requires forall k :: Lookup(drained, k) == if Dropped(step.window, step.slots, k) then None else Lookup(before, k)
    requires forall k :: Lookup(after, k) == if Leaves(step.round, step.records, |step.records|, k) then None else Lookup(drained, k)
    ensures forall k :: Lookup(after, k) == if Removes(step, k) then None else Lookup(before, k)
  {
  }

  /** One iteration of processBand: drain, then handle what was drained, if anything. */
  method Iterate(j: Journal, band: nat, bandCount: nat, maxBatch: nat, strategy: Strategy, n: nat, total: Totals)
    returns (empty: bool, ok: bool, ghost step: Step)
    requires bandCount > 0
    modifies j, total
    ensures j.now == old(j.now)
    ensures IsStep(step, maxBatch) && step.queue == OfBand(old(j.dead), band, bandCount)
    ensures forall k :: step.slots(k) == old(j.SlotOf(k))
    ensures step.round == RoundOf(strategy, n, step.records)
    ensures forall k :: j.SlotOf(k) == AfterRound(AfterDrain(step.window, step.slots, k), step.records, k, step.round, j.now)
    ensures forall k :: Lookup(j.dead, k) == if Removes(step, k) then None else Lookup(old(j.dead), k)
    ensures empty <==> step.records == []
    ensures total.Drift() == old(total.Drift()) <==> Balanced(step.round, step.records)
    ensures total.succeeded == old(total.succeeded) + |Leaving(step.round, step.records)|
    ensures ok ==> total.processed == old(total.processed) + |step.records|
    ensures ok <==> GoesOn(step)
  {
    var records;
    ghost var window, slots;
    records, window, slots := DrainDLQ(j, band, bandCount, maxBatch);
    WindowIsSifted(window, slots);
    ghost var drained := j.dead;
    ok, empty := true, records == [];
    var round := RoundOf(strategy, n, records);
    step := Step(OfBand(old(j.dead), band, bandCount), slots, window, records, round);
    if empty {
      NoRecordsNoChange(round, j.now);
    } else {
      ok := Handle(j, records, round, total);
    }
    QueueAfterRound(step, old(j.dead), drained, j.dead);
  }

  lemma BandIsLeft(step: Step, before: map<Key, int>, after: map<Key, int>, band: nat, bandCount: nat)
    requires bandCount > 0 && step.queue == OfBand(before, band, bandCount)
    requires forall k :: Lookup(after, k) == if Removes(step, k) then None else Lookup(before, k)
    ensures LeavesQueue(step, OfBand(after, band, bandCount))
  {
    var queue := OfBand(after, band, bandCount);
    forall k
      ensures Lookup(queue, k) == if Removes(step, k) then None else Lookup(step.queue, k)
    {
      assert Lookup(after, k) == if Removes(step, k) then None else Lookup(before, k);
      assert Lookup(queue, k) == if BandForKey(k, bandCount) == band then Lookup(after, k) else None;
      assert Lookup(step.queue, k) == if BandForKey(k, bandCount) == band then Lookup(before, k) else None;
    }
  }

  /** How processBand ends: nothing left to drain, the context cancelled, or a round's error returned. */
  datatype Ending = Finished | Cancelled | Aborted

  /** Every iteration that drained anything took somebody out. */
  predicate AlwaysShrinks(history: seq<Step>) {
    forall n :: 0 <= n < |history| ==> history[n].records == [] || Shrinks(history[n])
  }

  predicate AlwaysBalanced(history: seq<Step>) {
    forall n :: 0 <= n < |history| ==> Balanced(history[n].round, history[n].records)
  }

  /** Iteration n drained its batch once more if and only if nothing had succeeded. */
  predicate DrainsAgainIff(step: Step, next: Step) {
    step.round.Upsert? ==> (step.records <= next.records <==> NothingSucceeded(step.round, step.records))
  }

  predicate AllDrainAgainIff(history: seq<Step>) {
    forall n :: 0 <= n < |history| - 1 ==> DrainsAgainIff(history[n], history[n + 1])
  }

  lemma HistoryAppend(history: seq<Step>, step: Step)
    requires AllDrainAgainIff(history)
    requires history != [] ==> DrainsAgainIff(history[|history| - 1], step)
    ensures AllDrainAgainIff(history + [step])
    ensures AlwaysShrinks(history + [step]) <==> AlwaysShrinks(history) && (step.records == [] || Shrinks(step))
    ensures AlwaysBalanced(history + [step]) <==> AlwaysBalanced(history) && Balanced(step.round, step.records)
  {
    var longer := history + [step];
    assert longer[|history|] == step;
    assert forall n :: 0 <= n < |history| ==> longer[n] == history[n];
  }

  /** Exactly the keys some iteration took out are gone. */
  ghost predicate GoneIff(start: map<Key, int>, now: map<Key, int>, history: seq<Step>) {
    forall k :: k in now <==> k in start && !Removed(history, k)
  }

  lemma GoneAppend(start: map<Key, int>, before: map<Key, int>, after: map<Key, int>, history: seq<Step>, step: Step)
    requires GoneIff(start, before, history)
    requires forall k :: Lookup(after, k) == if Removes(step, k) then None else Lookup(before, k)
    ensures GoneIff(start, after, history + [step])
  {
    forall k
      ensures k in after <==> k in start && !Removed(history + [step], k)
    {
      RemovedAppend(history, step, k);
      assert Lookup(after, k) == if Removes(step, k) then None else Lookup(before, k);
    }
  }

  /** The loop has not been ended by the step: an Upsert reply could be used, or was not asked for. */
  predicate GoesOn(step: Step) {
    step.round.Upsert? ==>
      AcceptedKeys(step.records, step.round.accepts, |step.records|) == [] || Engine.Usable(step.round.reply)
  }

  lemma StepsDrainAgainIff(step: Step, next: Step, maxBatch: nat)
    requires IsStep(step, maxBatch) && IsStep(next, maxBatch) && GoesOn(step) && Follows(step, next)
    ensures DrainsAgainIff(step, next)
  {
    if step.round.Upsert? {
      UpsertRoundIsStuckIff(step, next, maxBatch);
    }
  }

  /** Under Ignore, whatever is drained is taken out. */
  lemma IgnoreShrinks(step: Step, maxBatch: nat)
    requires IsStep(step, maxBatch) && step.round.Ignore?
    ensures step.records == [] || Shrinks(step)
  {
    if step.records != [] {
      TakingOutShrinks(step, maxBatch, 0);
    }
  }

  /**
    processBand; the context is cancelled after the given number of rounds. A key is gone from the queue exactly
    if an iteration took it out: its payload had gone, or its round succeeded. The counters stay balanced if every
    error names a record of its batch. Under Upsert an iteration drains its batch again exactly if nothing
    succeeded. Under any strategy a loop whose iterations each take somebody out ends by itself, after at most
    one round more than the band has dead letters; under Ignore every loop does. It then leaves an empty queue,
    or stopped at a full window of dead letters without a payload.
    */
  method ProcessBand(j: Journal, band: nat, bandCount: nat, maxBatch: nat, strategy: Strategy, rounds: nat, total: Totals)
    returns (ending: Ending, ghost history: seq<Step>)
    requires bandCount > 0
    modifies j, total
    ensures j.now == old(j.now)
    ensures Ended(j, history, old(j.dead), band, bandCount, maxBatch, rounds, ending)
    ensures AlwaysBalanced(history) ==> total.Drift() == old(total.Drift())
    ensures strategy.IgnoreAll? && rounds > |OfBand(old(j.dead), band, bandCount)| ==> ending == Finished
  {
    history := [];
    NothingRunYet(j, band, bandCount, maxBatch);
    for n := 0 to rounds
      invariant j.now == old(j.now)
      invariant Running(j, history, old(j.dead), band, bandCount, maxBatch, n)
      invariant AlwaysBalanced(history) ==> total.Drift() == old(total.Drift())
      invariant strategy.IgnoreAll? ==> AlwaysShrinks(history)
    {
      ghost var earlier := history;
      var empty, ok;
      ghost var step;
      empty, ok, step := NextRound(j, band, bandCount, maxBatch, strategy, n, total, earlier, old(j.dead), rounds);
      history := earlier + [step];
      if empty {
        return Finished, history;
      }
      if !ok {
        return Aborted, history;
      }
    }
    RunOut(j, history, old(j.dead), band, bandCount, maxBatch, rounds);
    return Cancelled, history;
  }

  /** What the iterations of a band have done to a queue that was start, and why they ended. */
  ghost predicate Ended(j: Journal, history: seq<Step>, start: map<Key, int>, band: nat, bandCount: nat, maxBatch: nat,
                        rounds: nat, ending: Ending)
    requires bandCount > 0
    reads j
  {
    && GoneIff(start, j.dead, history)
    && AllDrainAgainIff(history)
    && (ending == Finished ==>
          OfBand(j.dead, band, bandCount) == map[] || (history != [] && AllDropped(history[|history| - 1], maxBatch)))
    && (ending == Aborted ==> history != [] && !GoesOn(history[|history| - 1]))
    && (AlwaysShrinks(history) && rounds > |OfBand(start, band, bandCount)| ==> ending != Cancelled)
  }

  lemma RunOut(j: Journal, history: seq<Step>, start: map<Key, int>, band: nat, bandCount: nat, maxBatch: nat, rounds: nat)
    requires bandCount > 0 && Running(j, history, start, band, bandCount, maxBatch, rounds)
    ensures Ended(j, history, start, band, bandCount, maxBatch, rounds, Cancelled)
    ensures AlwaysShrinks(history) ==> rounds <= |OfBand(start, band, bandCount)|
  {
  }

  /** The journal is as the step has left it. */
  ghost predicate Left(j: Journal, step: Step, band: nat, bandCount: nat, maxBatch: nat)
    requires bandCount > 0
    reads j
  {
    && IsStep(step, maxBatch) && GoesOn(step)
    && LeavesQueue(step, OfBand(j.dead, band, bandCount))
    && (step.round.Upsert? ==> forall k :: !Removes(step, k) ==> j.SlotOf(k) == step.slots(k))
  }

  /** What n iterations have done to a queue that was start. */
  ghost predicate Running(j: Journal, history: seq<Step>, start: map<Key, int>, band: nat, bandCount: nat, maxBatch: nat, n: nat)
    requires bandCount > 0
    reads j
  {
    && GoneIff(start, j.dead, history)
    && AllDrainAgainIff(history)
    && (history != [] ==> Left(j, history[|history| - 1], band, bandCount, maxBatch))
    && (AlwaysShrinks(history) ==> |OfBand(j.dead, band, bandCount)| + n <= |OfBand(start, band, bandCount)|)
  }

  lemma NothingRunYet(j: Journal, band: nat, bandCount: nat, maxBatch: nat)
    requires bandCount > 0
    ensures Running(j, [], j.dead, band, bandCount, maxBatch, 0) && AlwaysShrinks([])
  {
    forall k
      ensures !Removed([], k)
    {
    }
  }

  /** One iteration, as part of a run. */
  method NextRound(j: Journal, band: nat, bandCount: nat, maxBatch: nat, strategy: Strategy, n: nat, total: Totals,
                   ghost history: seq<Step>, ghost start: map<Key, int>, ghost rounds: nat)
    returns (empty: bool, ok: bool, ghost step: Step)
    requires bandCount > 0 && Running(j, history, start, band, bandCount, maxBatch, n)
    modifies j, total
    ensures j.now == old(j.now)
    ensures empty ==> Ended(j, history + [step], start, band, bandCount, maxBatch, rounds, Finished)
    ensures !ok ==> Ended(j, history + [step], start, band, bandCount, maxBatch, rounds, Aborted)
    ensures ok && !empty ==> Running(j, history + [step], start, band, bandCount, maxBatch, n + 1)
    ensures AlwaysBalanced(history + [step]) ==> AlwaysBalanced(history) && total.Drift() == old(total.Drift())
    ensures empty ==> ok
    ensures strategy.IgnoreAll? ==> ok && (AlwaysShrinks(history) ==> AlwaysShrinks(history + [step]))
  {
    ghost var before := j.dead;
    empty, ok, step := Iterate(j, band, bandCount, maxBatch, strategy, n, total);
    RoundFollows(history, step, start, before, j.dead, band, bandCount, maxBatch, n);
    if strategy.IgnoreAll? {
      IgnoreShrinks(step, maxBatch);
    }
    if empty {
      EmptyDrain(step, OfBand(j.dead, band, bandCount), maxBatch);
    }
  }

  /** What one more iteration adds to a run, as far as its queue and its history go. */
  lemma RoundFollows(history: seq<Step>, step: Step, start: map<Key, int>, before: map<Key, int>, after: map<Key, int>,
                     band: nat, bandCount: nat, maxBatch: nat, n: nat)
    requires bandCount > 0 && IsStep(step, maxBatch) && step.queue == OfBand(before, band, bandCount)
    requires GoneIff(start, before, history) && AllDrainAgainIff(history)
    requires history != [] ==>
               var last := history[|history| - 1]; IsStep(last, maxBatch) && GoesOn(last) && Follows(last, step)
    requires AlwaysShrinks(history) ==> |OfBand(before, band, bandCount)| + n <= |OfBand(start, band, bandCount)|
    requires forall k :: Lookup(after, k) == if Removes(step, k) then None else Lookup(before, k)
    ensures GoneIff(start, after, history + [step]) && AllDrainAgainIff(history + [step])
    ensures LeavesQueue(step, OfBand(after, band, bandCount))
    ensures AlwaysShrinks(history + [step]) <==> AlwaysShrinks(history) && (step.records == [] || Shrinks(step))
    ensures AlwaysBalanced(history + [step]) <==> AlwaysBalanced(history) && Balanced(step.round, step.records)
    ensures AlwaysShrinks(history + [step]) && step.records != [] ==>
              |OfBand(after, band, bandCount)| + n + 1 <= |OfBand(start, band, bandCount)|
  {
    BandIsLeft(step, before, after, band, bandCount);
    QueueShrinks(step, OfBand(after, band, bandCount));
    GoneAppend(start, before, after, history, step);
    if history != [] {
      StepsDrainAgainIff(history[|history| - 1], step, maxBatch);
    }
    HistoryAppend(history, step);
  }
}
