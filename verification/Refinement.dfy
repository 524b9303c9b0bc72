/** The code's own batches, key by key, are steps of the protocol: what is proved of runs holds of them. */
module Refinement {
  import opened Optional
  import opened Redis
  import opened Sink
  import opened World
  import Engine
  import Dlq

  /** A record drained by DrainBand is what the protocol puts in flight. */
  lemma DrainIsAStep(w: World, k: Key)
    requires w.slot.dirty.Some? && w.flight.None?
    ensures FlusherCan(w, Drain)
    ensures Carries(FlusherNext(w, Drain, 0), Engine.Drained(k, w.slot))
  {
  }

  /** The batch with the sink holds r. */
  predicate Carries(w: World, r: Engine.FlushRecord) {
    w.flight.Some? && w.flight.value.stage == InSink
    && w.flight.value.payload == r.payload && w.flight.value.seq_ == r.seq_
  }

  /** The protocol steps by which a flush gives a record its fate. */
  function Settle(w: World, fate: Fate, ttl: int, reason: string, now: int): World
    requires FlusherCan(w, Resolve(fate))
  {
    var resolved := FlusherNext(w, Resolve(fate), now);
    match fate
    case OfferCommit => FlusherNext(resolved, RunCommit(ttl, now + ttl), now)
    case OfferDeadLetter => FlusherNext(resolved, RunDeadLetter(now, reason), now)
    case LeaveDirty => resolved
  }

  /** The batch as the sink sees it. */
  function ModelKeys(records: seq<Engine.FlushRecord>, accepts: (Key, Payload) -> bool): seq<Key> {
    if records == [] then []
    else
      var r := records[|records| - 1];
      ModelKeys(records[..|records| - 1], accepts) + (if Engine.IsModel(r, accepts) then [r.key] else [])
  }

  lemma {:induction false} ModelKeysExact(records: seq<Engine.FlushRecord>, accepts: (Key, Payload) -> bool, k: Key)
    ensures k in ModelKeys(records, accepts) <==> exists r :: r in records && r.key == k && Engine.IsModel(r, accepts)
  {
    if records != [] {
      var n := |records| - 1;
      ModelKeysExact(records[..n], accepts, k);
      assert records == records[..n] + [records[n]];
    }
  }

  /** An honest sink applied what the engine offers for commit. */
  lemma FateIsAllowed(w: World, records: seq<Engine.FlushRecord>, r: Engine.FlushRecord, accepts: (Key, Payload) -> bool,
                      reply: Engine.Reply, applied: set<Key>)
    requires r in records && Carries(w, r) && (w.flight.value.applied <==> r.key in applied)
    requires Engine.Usable(reply) ==> Honest(ModelKeys(records, accepts), applied, reply.value)
    ensures FlusherCan(w, Resolve(Engine.FateOf(r, accepts, reply)))
  {
    ModelKeysExact(records, accepts, r.key);
    if Engine.FateOf(r, accepts, reply) == OfferCommit {
      Engine.CommitOffersAreApplied(r, accepts, ModelKeys(records, accepts), applied, reply.value);
    }
  }

  lemma SettlingGivesTheFate(w: World, r: Engine.FlushRecord, accepts: (Key, Payload) -> bool, reply: Engine.Reply,
                             ttl: int, now: int)
    requires Carries(w, r) && FlusherCan(w, Resolve(Engine.FateOf(r, accepts, reply)))
    ensures var after := Settle(w, Engine.FateOf(r, accepts, reply), ttl, Engine.ReasonOf(r, accepts), now);
            after.flight.None? && after.slot == Engine.Fated(w.slot, Some(r), accepts, reply, ttl, now)
  {
  }

  lemma FlushGivesTheFate(s: Slot, records: seq<Engine.FlushRecord>, r: Engine.FlushRecord,
                          accepts: (Key, Payload) -> bool, reply: Engine.Reply, ttl: int, now: int)
    requires Engine.DistinctKeys(records) && r in records
    requires Engine.Usable(reply) && ReportsPermanent(reply.value, r.key) ==> Engine.IsModel(r, accepts)
    ensures Engine.AfterFlush(s, records, r.key, accepts, reply, ttl, now)
         == Engine.Fated(s, Some(r), accepts, reply, ttl, now)
  {
    var i :| 0 <= i < |records| && records[i] == r;
    Engine.RecordOfIsUnique(records, i);
    Engine.EachRecordMeetsOneFate(s, records, r.key, accepts, reply, ttl, now);
  }

  /**
    A flush is a run of protocol steps on each of its keys, whatever has happened to the key since the
    drain and whatever the sink replied: if a usable reply reports what the sink did not apply, and no permanent
    failure of a record it never got, the record's fate is a step the protocol allows, and the flush leaves the
    key exactly as these steps do.
    */
  lemma FlushIsProtocolSteps(w: World, records: seq<Engine.FlushRecord>, r: Engine.FlushRecord,
                             accepts: (Key, Payload) -> bool, reply: Engine.Reply, applied: set<Key>, ttl: int, now: int)
    requires Engine.DistinctKeys(records) && r in records
    requires Carries(w, r) && (w.flight.value.applied <==> r.key in applied)
    requires Engine.Usable(reply) ==> Honest(ModelKeys(records, accepts), applied, reply.value)
    requires Engine.Usable(reply) && ReportsPermanent(reply.value, r.key) ==> Engine.IsModel(r, accepts)
    ensures var fate := Engine.FateOf(r, accepts, reply);
            && FlusherCan(w, Resolve(fate))
            && var after := Settle(w, fate, ttl, Engine.ReasonOf(r, accepts), now);
            && after.flight.None?
            && Engine.AfterFlush(w.slot, records, r.key, accepts, reply, ttl, now) == after.slot
  {
    FateIsAllowed(w, records, r, accepts, reply, applied);
    SettlingGivesTheFate(w, r, accepts, reply, ttl, now);
    FlushGivesTheFate(w.slot, records, r, accepts, reply, ttl, now);
  }

  /** The window of a drain holds k and finds it as w has it. */
  predicate Drains(w: World, window: seq<Key>, slots: Key -> Slot, k: Key) {
    Dlq.Distinct(window) && k in window && w.slot == slots(k) && w.slot.dead.Some? && w.replay.None?
  }

  /**
    DrainDLQ is one protocol step on each key of its window. A key with a payload is drained: the record the
    processor gets for it is what the protocol holds for replay. A key without one is purged, and gives no record.
    */
  lemma DlqDrainIsAStep(w: World, window: seq<Key>, slots: Key -> Slot, k: Key)
    requires Drains(w, window, slots, k)
    ensures var e := if w.slot.Visible().Some? then DlqDrain else DlqPurge;
            DlqCan(w, e) && DlqNext(w, e).slot == Dlq.AfterDrain(window, slots, k)
    ensures w.slot.Visible().Some? <==> exists r :: r in Dlq.Records(window, slots) && r.key == k
    ensures forall r :: r in Dlq.Records(window, slots) && r.key == k ==>
              DlqCan(w, DlqDrain) && DlqNext(w, DlqDrain).replay == Some(Replay(r.payload, false, w.jnum))
  {
    Dlq.WindowIsSifted(window, slots);
    var records := Dlq.Records(window, slots);
    if w.slot.Visible().Some? {
      assert Dlq.Has(records, k);
      var i :| 0 <= i < |records| && records[i].key == k;
      assert records[i] in records;
    }
  }

  /** No record of the round is re-journaled under k itself. */
  predicate LeavesAlone(round: Dlq.Round, records: seq<Dlq.Record>, k: Key) {
    round.ReInsert? ==> forall i :: 0 <= i < |records| && round.attempts(i) != Dlq.Refused ==> round.mutate(records[i].key) != k
  }

  lemma {:induction false} NotRejournaled(s: Slot, records: seq<Dlq.Record>, n: nat, k: Key, round: Dlq.Round, now: int)
    requires n <= |records| && round.ReInsert? && LeavesAlone(round, records, k)
    ensures Dlq.Rejournaled(s, records, n, k, round, now) == s
  {
    if n > 0 {
      NotRejournaled(s, records, n - 1, k, round, now);
    }
  }

  /**
    A DLQ round is one protocol step on each of its keys: deletion if the record succeeded, nothing if it
    did not. In an Upsert round the deletion is allowed because an honest sink applied the record.
    */
  lemma DlqRoundIsAStep(w: World, records: seq<Dlq.Record>, i: nat, round: Dlq.Round, applied: set<Key>, now: int)
    requires Dlq.DistinctKeys(records) && i < |records| && LeavesAlone(round, records, records[i].key)
    requires w.replay.Some? && w.replay.value.payload == records[i].payload
    requires w.replay.value.applied <==> records[i].key in applied
    requires round.Upsert? && round.reply.Some? ==>
               Honest(Dlq.AcceptedKeys(records, round.accepts, |records|), applied, round.reply.value)
    ensures var e := if Dlq.Succeeds(round, records, i) then DlqDelete(!round.Upsert?) else DlqAbandon;
            && DlqCan(w, e)
            && Dlq.AfterRound(w.slot, records, records[i].key, round, now) == DlqNext(w, e).slot
  {
    var k := records[i].key;
    if round.ReInsert? {
      NotRejournaled(w.slot, records, |records|, k, round, now);
    }
    if Dlq.Succeeds(round, records, i) {
      assert Dlq.Leaves(round, records, |records|, k);
      if round.Upsert? {
        Dlq.UpsertLeaves(records, round.accepts, round.reply, k);
      }
    } else {
      assert !Dlq.Leaves(round, records, |records|, k);
    }
  }

  /** Re-journaling a record is an ordinary write of its payload under the new key. */
  lemma RejournalingIsAWrite(w: World, s: Slot, records: seq<Dlq.Record>, n: nat, round: Dlq.Round, now: int)
    requires n < |records| && round.ReInsert? && round.attempts(n) != Dlq.Refused
    requires w.slot == Dlq.Rejournaled(s, records, n, round.mutate(records[n].key), round, now)
    ensures WriterNext(w, Plain(records[n].payload, now), now).slot
         == Dlq.Rejournaled(s, records, n + 1, round.mutate(records[n].key), round, now)
  {
  }
}
