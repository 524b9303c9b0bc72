/**
  Where a promise stops. Each lemma plays a short run and shows that a hypothesis of the theorems about
  runs is needed: the code takes these steps, and the promise fails.
  */
module Limits {
  import opened Optional
  import opened Redis
  import opened World
  import opened Invariant
  import opened Core
  import Protocol

  /** A run on one key in the making; stuck once an event was not enabled. */
  datatype Play = Play(world: World, now: int) | Stuck
  {
    function Then(e: Event): Play {
      if this.Play? && Enabled(world, e, now) then Play(Next(world, e, now), now) else Stuck
    }

    function Wait(ms: nat): Play {
      if this.Play? then Play(world, now + ms) else Stuck
    }

    /** Drain, a successful BulkWrite, and the commit script with the given TTL. */
    function Flush(ttl: int): Play {
      Then(Flusher(Drain)).Then(Flusher(SinkApply)).Then(Flusher(Resolve(OfferCommit))).Then(Flusher(RunCommit(ttl, 0)))
    }

    function FailForGood(): Play {
      Then(Flusher(Drain)).Then(Flusher(Resolve(OfferDeadLetter))).Then(Flusher(RunDeadLetter(0, "permanent_sink_error")))
    }
  }

  /** A key that Redis and this run have not seen. */
  function Untouched(record: Option<Payload>): World {
    World(EMPTY_SLOT, record, None, None, map[], map[], record, [], None, 0, 0, 0, 0, NO_HAZARDS)
  }

  /** Nothing left to flush or replay, in Redis or on the way. */
  predicate Idle(w: World) {
    !Pending(w.slot) && w.flight.None? && w.replay.None?
  }

  /**
    An empty payload is acknowledged and then lost, whatever the key held: the drain takes it for a
    missing one, the engine dead-letters it, and the DLQ drops it as having no payload.
    */
  lemma EmptyPayloadIsLost(w: World, now: int)
    requires w.flight.None? && w.replay.None?
    ensures var end := Play(w, now).Then(Writer(Plain([], now))).FailForGood().Then(Dlq(DlqPurge));
            && end.Play? && Idle(end.world)
            && end.world.acked == Some([]) && end.world.store == w.store && end.world.slot.Visible().None?
  {
  }

  /**
    CommitDLQKeys after an Upsert loses the key's latest write if and only if, just before, that write was in
    the journal and the store held something else. This takes a rewrite: it never happens to a key that is not
    dirty and whose journal still holds the write that was drained.
    */
  lemma DlqDeleteLosesLatestIff(w: World)
    requires Inv(w) && Clean(w) && DlqCan(w, DlqDelete(false))
    requires w.hist != [] && w.Latest() != Some([]) && w.discarded < |w.hist|
    ensures var w' := DlqNext(w, DlqDelete(false));
            && w'.slot.Stored().None? && w'.Latest() == w.Latest()
            && (w'.store != w'.Latest() <==> w.slot.Stored() == w.Latest() && w.slot.Stored() != w.store)
            && (w'.store != w'.Latest() ==> w.slot.dirty.Some? || w.jnum != w.replay.value.num)
  {
  }

  /** A rewrite between DrainDLQ and CommitDLQKeys is acknowledged and gone. */
  lemma RewriteDuringDlqUpsertIsLost(old_: Payload, latest: Payload)
    requires old_ != [] && latest != [] && old_ != latest
    ensures var end := Play(Untouched(None), 0).Then(Writer(Plain(old_, 0))).FailForGood()
                       .Then(Dlq(DlqDrain)).Then(Writer(Plain(latest, 1)))
                       .Then(Dlq(DlqApply)).Then(Dlq(DlqDelete(false)));
            && end.Play?
            && end.world.acked == Some(latest)
            && end.world.store == Some(old_) && end.world.slot.Stored().None?
  {
  }

  /** A batch holding b, drained at sequence 2, is with the sink when the key's hash is deleted. */
  predicate HashGoneInFlight(w: World, b: Payload) {
    && w.slot.entry.None? && w.slot.dead.None? && w.replay.None?
    && w.flight == Some(Flight(Some(b), Some(2), InSink, false, w.jnum))
  }

  lemma DlqDeleteLeavesFlight(a: Payload, b: Payload)
    requires a != [] && b != []
    ensures var mid := Play(Untouched(None), 0).Then(Writer(Plain(a, 0))).FailForGood().Then(Writer(Plain(b, 1)))
                       .Then(Dlq(DlqDrain)).Then(Flusher(Drain)).Then(Dlq(DlqDelete(true)));
            mid.Play? && HashGoneInFlight(mid.world, b)
  {
    var p1 := Play(Untouched(None), 0).Then(Writer(Plain(a, 0))).FailForGood();
    assert p1.Play? && p1.world.slot.Seq() == Some(1) && p1.world.slot.dead.Some? && p1.world.flight.None?;
  }

  /** Two writes later the restarted sequence equals the one drained, but d is what the journal holds. */
  predicate SequenceRestarted(w: World, b: Payload, d: Payload, num: nat) {
    && w.slot.Seq() == Some(2) && w.slot.Stored() == Some(d) && w.slot.entry.value.expireAt.None?
    && w.slot.dead.None? && w.replay.None? && w.acked == Some(d)
    && w.flight == Some(Flight(Some(b), Some(2), InSink, false, num))
  }

  lemma SequenceRestarts(w: World, b: Payload, c: Payload, d: Payload)
    requires HashGoneInFlight(w, b)
    ensures var p := Play(w, 2).Then(Writer(Plain(c, 2))).Then(Writer(Plain(d, 2)));
            p.Play? && p.now == 2 && SequenceRestarted(p.world, b, d, w.jnum)
  {
  }

  lemma RestartedSequenceCommits(w: World, b: Payload, d: Payload, num: nat, ttl: int, now: int)
    requires SequenceRestarted(w, b, d, num) && ttl > 0
    ensures var end := Play(w, now).Then(Flusher(SinkApply)).Then(Flusher(Resolve(OfferCommit))).Then(Flusher(RunCommit(ttl, 0)));
            && end.Play? && Idle(end.world)
            && end.world.acked == Some(d) && end.world.slot.Stored() == Some(d)
            && end.world.store == Some(b) && !end.world.slot.Persistent()
  {
    var applied := Play(w, now).Then(Flusher(SinkApply)).Then(Flusher(Resolve(OfferCommit)));
    assert applied.Play? && applied.world.slot == w.slot && applied.world.store == Some(b);
  }

  /**
    The sequence restarts with its hash: once the DLQ has deleted the hash of a dirty key, the batch in
    flight matches the sequence of a later payload, commits it unflushed, and gives it a TTL.
    */
  lemma SequenceRestartsAfterDlqDelete(w: World, b: Payload, c: Payload, d: Payload, ttl: int)
    requires HashGoneInFlight(w, b)
    requires d != [] && d != b && ttl > 0
    ensures var end := Play(w, 2).Then(Writer(Plain(c, 2))).Then(Writer(Plain(d, 2)))
                       .Then(Flusher(SinkApply)).Then(Flusher(Resolve(OfferCommit))).Then(Flusher(RunCommit(ttl, 0)));
            && end.Play? && Idle(end.world)
            && end.world.acked == Some(d) && end.world.slot.Stored() == Some(d)
            && end.world.store == Some(b) && !end.world.slot.Persistent()
  {
    SequenceRestarts(w, b, c, d);
    var p := Play(w, 2).Then(Writer(Plain(c, 2))).Then(Writer(Plain(d, 2)));
    RestartedSequenceCommits(p.world, b, d, w.jnum, ttl, p.now);
  }

  /** Several plain writes of a key. */
  function OnWrites(w: World, writes: seq<(Payload, int)>): World {
    if writes == [] then w
    else
      var n := |writes| - 1;
      OnWrite(OnWrites(w, writes[..n]), writes[n].0, writes[n].1)
  }

  lemma {:induction false} SequenceCountsWrites(w: World, writes: seq<(Payload, int)>)
    requires w.slot.entry.None?
    ensures var end := OnWrites(w, writes);
            && end.flight == w.flight
            && (writes != [] ==>
                  && end.slot.Seq() == Some(|writes|) && end.slot.dirty.Some?
                  && end.slot.Stored() == Some(writes[|writes| - 1].0))
  {
    if writes != [] {
      SequenceCountsWrites(w, writes[..|writes| - 1]);
    }
  }

  /**
    Once a hash has been deleted, a batch that was drained at sequence s commits what has been written since, which it
    never flushed, if and only if there were exactly s writes.
    */
  lemma RestartedSequenceMatchesIff(w: World, s: nat, writes: seq<(Payload, int)>, ttl: int, expiry: int, now: int)
    requires w.slot.entry.None? && writes != []
    requires w.flight.Some? && w.flight.value.stage == Committing && w.flight.value.seq_ == Some(s)
    ensures var written := OnWrites(w, writes);
            && FlusherCan(written, RunCommit(ttl, expiry))
            && written.slot.dirty.Some? && written.slot.Stored() == Some(writes[|writes| - 1].0)
            && (OnCommit(written, ttl, expiry, now).slot.dirty.None? <==> |writes| == s)
  {
    SequenceCountsWrites(w, writes);
  }

  /** A DLQ upsert that a flush has overtaken moves the record back, whatever was drained from the DLQ. */
  lemma StaleDlqUpsertGoesBack(w: World, b: Payload, ttl: int, now: int)
    requires w.replay.Some? && w.replay.value.num <= |w.hist| && w.flight.None? && b != []
    ensures var end := Play(w, now).Then(Writer(Plain(b, now))).Flush(ttl).Then(Dlq(DlqApply));
            && end.Play? && !Clean(end.world)
            && end.world.acked == Some(b) && end.world.slot.dirty.None?
            && end.world.store == Some(w.replay.value.payload)
  {
  }

  /** A hydration slower than the post-flush TTL puts an older record back into the journal. */
  lemma LateHydrationLies(record: Payload, b: Payload, ttl: int, id: nat)
    requires record != [] && b != [] && record != b && ttl > 0
    ensures var end := Play(Untouched(Some(record)), 0).Then(Reader(SourceRead(id)))
                       .Then(Writer(Plain(b, 1))).Flush(ttl)
                       .Wait(ttl + 1).Then(Expire).Then(Reader(RunHydrate(id, 0, ttl)));
            && end.Play? && Clean(end.world)
            && end.world.store == Some(b) && end.world.slot.Visible() == Some(record)
  {
    var p1 := Play(Untouched(Some(record)), 0).Then(Reader(SourceRead(id)));
    assert p1.Play? && id in p1.world.hydrations && p1.world.hydrations[id].payload == record;
    var p2 := p1.Then(Writer(Plain(b, 1))).Flush(ttl);
    assert p2.Play? && p2.world.store == Some(b) && p2.world.hydrations == p1.world.hydrations;
    var p3 := p2.Wait(ttl + 1).Then(Expire);
    assert p3.Play? && p3.world.slot.entry.None? && id in p3.world.hydrations;
  }

  /** A degraded write leaves the journal's older entry in place, and ReadFresh returns it; see Races for when. */
  lemma DegradedWriteIsHiddenByJournal(a: Payload, d: Payload, ttl: int, id: nat)
    requires a != [] && a != d
    ensures var end := Play(Untouched(None), 0).Then(Writer(Plain(a, 0))).Flush(ttl)
                       .Then(Degraded(Probe(id))).Then(Degraded(DirectWrite(id, d)));
            && end.Play? && Clean(end.world)
            && end.world.acked == Some(d) && end.world.store == Some(d)
            && end.world.slot.Visible() == Some(a)
  {
    var p1 := Play(Untouched(None), 0).Then(Writer(Plain(a, 0))).Flush(ttl);
    assert p1.Play? && p1.world.slot.Visible() == Some(a) && !Pending(p1.world.slot) && id !in p1.world.probes;
  }

  /**
    A hydration breaks the probe's promise for the first m writes if and only if it puts a record from among
    them, by then older than the probe, into the hash of a key that is still listed in the DLQ.
    */
  lemma HydrationRevivesIff(w: World, id: nat, ts: int, ttl: int, now: int, m: nat)
    requires Sound(w) && !w.hz.clobbered && OnlyNewerPending(w, m) && id in w.hydrations
    ensures OnlyNewerPending(OnHydrate(w, id, ts, ttl, now), m) <==>
              !(HydrateFills(w.slot) && w.slot.dead.Some? && ttl > 0
                && w.hydrations[id].payload != [] && w.hydrations[id].num <= m)
  {
    if !HydrateFills(w.slot) {
      assert OnHydrate(w, id, ts, ttl, now).slot.Stored() == w.slot.Stored();
    }
  }

  /** A key dead-lettered after a degraded write of d, whose hash has expired; hydration id still holds the old record. */
  predicate ExpiredDeadLetter(w: World, record: Payload, id: nat) {
    && Clean(w) && w.slot.dead.Some? && w.slot.entry.None? && w.slot.dirty.None? && w.flight.None? && w.replay.None?
    && id in w.hydrations && w.hydrations[id].payload == record && w.hydrations[id].num == 0
    && w.snum == 1 && |w.hist| == 2 && w.jnum == 2
  }

  /** The same key before it expires. */
  predicate FreshDeadLetter(w: World, record: Payload, d: Payload, id: nat) {
    && Clean(w) && w.slot.dead.Some? && w.slot.dirty.None? && w.flight.None? && w.replay.None?
    && w.slot.entry.Some? && w.slot.entry.value.expireAt == Some(DLQ_TTL_MS)
    && id in w.hydrations && w.hydrations[id].payload == record && w.hydrations[id].num == 0
    && w.store == Some(d) && w.snum == 1 && |w.hist| == 2 && w.jnum == 2
  }

  lemma WriteIsDeadLettered(record: Payload, d: Payload, b: Payload, id: nat, probe: nat)
    requires record != [] && d != [] && b != []
    ensures var mid := Play(Untouched(Some(record)), 0).Then(Reader(SourceRead(id)))
                       .Then(Degraded(Probe(probe))).Then(Degraded(DirectWrite(probe, d)))
                       .Then(Writer(Plain(b, 1))).FailForGood();
            mid.Play? && mid.now == 0 && FreshDeadLetter(mid.world, record, d, id)
  {
    var p1 := Play(Untouched(Some(record)), 0).Then(Reader(SourceRead(id)))
              .Then(Degraded(Probe(probe))).Then(Degraded(DirectWrite(probe, d)));
    assert p1.Play? && p1.world.store == Some(d) && p1.world.snum == 1 && |p1.world.hist| == 1 && Clean(p1.world);
    assert p1.world.slot == EMPTY_SLOT && id in p1.world.hydrations && p1.world.hydrations[id].num == 0;
  }

  lemma DeadLetterExpires(record: Payload, d: Payload, b: Payload, id: nat, probe: nat)
    requires record != [] && d != [] && b != []
    ensures var mid := Play(Untouched(Some(record)), 0).Then(Reader(SourceRead(id)))
                       .Then(Degraded(Probe(probe))).Then(Degraded(DirectWrite(probe, d)))
                       .Then(Writer(Plain(b, 1))).FailForGood().Wait(DLQ_TTL_MS + 1).Then(Expire);
            mid.Play? && ExpiredDeadLetter(mid.world, record, id) && mid.world.store == Some(d)
  {
    WriteIsDeadLettered(record, d, b, id, probe);
  }

  /**
    The old record is then hydrated into the hash, drained from the DLQ and upserted: older than the degraded
    write whose probe had found nothing pending, it overwrites it.
    */
  lemma RefilledDeadLetterOverwrites(w: World, record: Payload, id: nat, ttl: int, now: int)
    requires ExpiredDeadLetter(w, record, id) && record != [] && ttl > 0
    ensures OnlyNewerPending(w, 1)
    ensures var refilled := Play(w, now).Then(Reader(RunHydrate(id, 0, ttl)));
            && refilled.Play? && refilled.world.hz.revived && !OnlyNewerPending(refilled.world, 1)
            && var end := refilled.Then(Dlq(DlqDrain)).Then(Dlq(DlqApply));
            end.Play? && end.world.store == Some(record) && !Clean(end.world)
  {
    var refilled := Play(w, now).Then(Reader(RunHydrate(id, 0, ttl)));
    assert refilled.Play? && refilled.world.slot.Visible() == Some(record) && refilled.world.jnum == 0;
  }

  /**
    After a DLQ upsert a fresh read returns the new record if and only if the journal shows nothing, or just
    the payload that was upserted.
    */
  lemma DlqUpsertIsReadIff(w: World)
    requires DlqCan(w, DlqApply)
    ensures var w' := DlqNext(w, DlqApply); var shown := w.slot.Visible();
            && w'.store == Some(w.replay.value.payload)
            && (Protocol.FreshRead(w', w') == w'.store <==> shown.None? || shown == w'.store)
  {
  }

  /** The DLQ processor holds b, but the journal has been refilled with the old record. */
  predicate RefilledInReplay(w: World, record: Payload, b: Payload) {
    && Clean(w) && w.replay == Some(Replay(b, false, 1)) && w.flight.None? && w.slot.dirty.None?
    && w.slot.Visible() == Some(record) && w.jnum == 0 && w.snum == 0 && w.hydrations == map[]
  }

  lemma DeadLetterIsRefilled(record: Payload, b: Payload, id: nat, ttl: int)
    requires record != [] && b != [] && ttl > 0
    ensures var mid := Play(Untouched(Some(record)), 0).Then(Writer(Plain(b, 0))).FailForGood().Then(Dlq(DlqDrain))
                       .Wait(DLQ_TTL_MS + 1).Then(Expire)
                       .Then(Reader(SourceRead(id))).Then(Reader(RunHydrate(id, 0, ttl)));
            mid.Play? && RefilledInReplay(mid.world, record, b)
  {
    var p1 := Play(Untouched(Some(record)), 0).Then(Writer(Plain(b, 0))).FailForGood().Then(Dlq(DlqDrain));
    assert p1.Play? && p1.world.slot.entry.Some? && p1.world.slot.entry.value.expireAt == Some(DLQ_TTL_MS);
    assert p1.world.replay == Some(Replay(b, false, 1)) && p1.world.store == Some(record) && Clean(p1.world);
  }

  /**
    A dead letter that expires between drain and upsert, and is refilled with the old record, is outrun by its
    own upsert: the journal then shows an older payload than the store holds, and hydrations return it.
    */
  lemma DlqUpsertOutrunsJournal(w: World, record: Payload, b: Payload, id: nat, ttl: int, now: int)
    requires RefilledInReplay(w, record, b) && record != b
    ensures var end := Play(w, now).Then(Dlq(DlqApply)).Then(Reader(SourceRead(id)));
            && end.Play? && Clean(end.world) && end.world.hz.outran && end.world.store == Some(b)
            && var skipped := end.Then(Reader(RunHydrate(id, 1, ttl)));
            skipped.Play? && skipped.world.slot.Visible() == Some(record)
  {
    var end := Play(w, now).Then(Dlq(DlqApply)).Then(Reader(SourceRead(id)));
    assert end.Play? && end.world.slot == w.slot && id in end.world.hydrations;
  }

  /** With content dedup on, rewriting the journal's payload after a degraded write is skipped for good; the next lemma says when. */
  lemma DedupAfterDegradedWriteIsLost(a: Payload, d: Payload, ttl: int, id: nat)
    requires a != [] && a != d
    ensures var end := Play(Untouched(None), 0).Then(Writer(Dedup(a, 0, ttl))).Flush(ttl)
                       .Then(Degraded(Probe(id))).Then(Degraded(DirectWrite(id, d)))
                       .Then(Writer(Dedup(a, 1, ttl)));
            && end.Play? && Clean(end.world) && Idle(end.world)
            && end.world.acked == Some(a) && end.world.store == Some(d)
  {
    var p1 := Play(Untouched(None), 0).Then(Writer(Dedup(a, 0, ttl))).Flush(ttl);
    assert p1.Play? && IsDuplicate(p1.world.slot, a) && !Pending(p1.world.slot) && id !in p1.world.probes;
    assert p1.world.flight.None? && p1.world.replay.None?;
    var p2 := p1.Then(Degraded(Probe(id))).Then(Degraded(DirectWrite(id, d)));
    assert p2.Play? && p2.world.slot == p1.world.slot;
  }

  /**
    A dedup write of q after a degraded write of d, on a key with nothing pending, ends up dirty in the journal or in
    the store if and only if the stored content hash is not q's, or q is d.
    */
  lemma DedupAfterDegradedWriteIsKeptIff(w: World, id: nat, d: Payload, q: Payload, ts: int, ttl: int, now: int)
    requires DegradedCan(w, DirectWrite(id, d)) && !Pending(w.slot)
    ensures var end := OnWriteDedup(OnDirectWrite(w, id, d), q, ts, ttl, now);
            && end.acked == Some(q)
            && ((end.slot.dirty.Some? && end.slot.Stored() == Some(q)) || end.store == Some(q) <==>
                  !(IsDuplicate(w.slot, q) && q != d))
  {
    var written := OnDirectWrite(w, id, d);
    assert written.slot == w.slot && written.store == Some(d);
    if !IsDuplicate(w.slot, q) {
      assert OnWriteDedup(written, q, ts, ttl, now).slot.Stored() == Some(q);
    } else {
      assert OnWriteDedup(written, q, ts, ttl, now).slot.dirty == w.slot.dirty;
    }
  }

  /** A write accepted between the probe and the degraded write overtakes it. */
  lemma WriteAfterProbeOvertakes(b: Payload, d: Payload, ttl: int, id: nat)
    requires b != [] && b != d
    ensures var end := Play(Untouched(None), 0).Then(Degraded(Probe(id))).Then(Writer(Plain(b, 0)))
                       .Then(Degraded(DirectWrite(id, d))).Flush(ttl);
            && end.Play? && end.world.hz.overtook
            && end.world.acked == Some(d) && end.world.store == Some(b) && Idle(end.world)
  {
    var p1 := Play(Untouched(None), 0).Then(Degraded(Probe(id))).Then(Writer(Plain(b, 0)))
              .Then(Degraded(DirectWrite(id, d)));
    assert p1.Play? && p1.world.flight.None? && p1.world.replay.None? && p1.world.slot.Visible() == Some(b);
  }

  /** A plain write keeps the old content hash, and a later dedup write trusts it. */
  lemma PlainWriteFoolsDedup(a: Payload, b: Payload, ttl: int)
    requires a != b
    ensures var end := Play(Untouched(None), 0).Then(Writer(Dedup(a, 0, ttl))).Then(Writer(Plain(b, 1)))
                       .Then(Writer(Dedup(a, 2, ttl)));
            && end.Play? && Clean(end.world)
            && end.world.acked == Some(a) && end.world.slot.Stored() == Some(b) && end.world.store.None?
  {
    var p1 := Play(Untouched(None), 0).Then(Writer(Dedup(a, 0, ttl))).Then(Writer(Plain(b, 1)));
    assert p1.Play? && IsDuplicate(p1.world.slot, a) && p1.world.slot.Stored() == Some(b);
  }

  /** A dead-lettered write whose seven days run out is read as if it had never been accepted. */
  lemma DeadLetterExpiryGoesBack(record: Payload, b: Payload)
    requires b != [] && record != b
    ensures var end := Play(Untouched(Some(record)), 0).Then(Writer(Plain(b, 0))).FailForGood()
                       .Wait(DLQ_TTL_MS + 1).Then(Expire);
            && end.Play? && Clean(end.world)
            && end.world.acked == Some(b) && end.world.store == Some(record) && end.world.slot.Visible().None?
            && end.world.discarded == |end.world.hist|
  {
    var p1 := Play(Untouched(Some(record)), 0).Then(Writer(Plain(b, 0))).FailForGood();
    assert p1.Play? && p1.world.slot.entry.Some? && p1.world.slot.entry.value.expireAt == Some(DLQ_TTL_MS);
  }
}
