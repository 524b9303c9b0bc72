/**
  What holds of a key whatever races there have been. The bookkeeping is always true; and as long as the DLQ
  processor has deleted no unflushed payload, a dirty key is persistent and the sequence check is sound.
  */
module Core {
  import opened Optional
  import opened Redis
  import opened World

  /** The history variables name real writes: what is stored anywhere is what they say. */
  predicate Recorded(w: World) {
    && w.jnum <= |w.hist| && w.snum <= |w.hist| && w.parked <= |w.hist| && w.discarded <= |w.hist|
    && w.store == w.Version(w.snum)
    && (w.slot.Stored().Some? ==> w.slot.Stored() == w.Version(w.jnum))
    && (w.slot.Seq().Some? ==> w.slot.Seq().value >= 1)
    && (w.flight.Some? ==>
          w.flight.value.num <= |w.hist| && (w.flight.value.payload.Some? ==> w.flight.value.payload == w.Version(w.flight.value.num)))
    && (w.replay.Some? ==> w.replay.value.num <= |w.hist| && w.Version(w.replay.value.num) == Some(w.replay.value.payload))
  }

  /** A drained sequence is never ahead of the stored one, and equal ones mean one write. */
  predicate Matches(f: Flight, w: World) {
    && f.num <= w.jnum
    && SeqNo(f.seq_) <= SeqNo(w.slot.Seq())
    && (f.seq_.Some? ==> f.seq_.value >= 1)
    && (f.seq_ == w.slot.Seq() ==> f.num == w.jnum && f.payload == w.slot.Visible())
  }

  predicate Solid(w: World) {
    && (w.slot.dirty.Some? ==> w.slot.Persistent() && w.jnum >= 1)
    && (w.flight.Some? ==> w.slot.dirty.Some? && Matches(w.flight.value, w))
    && (w.replay.Some? ==> w.slot.dead.Some?)
  }

  predicate Sound(w: World) {
    Recorded(w) && (!w.hz.clobbered ==> Solid(w))
  }

  lemma InitialIsSound(w: World)
    requires Initial(w)
    ensures Sound(w)
  {
  }

  lemma WriteKeepsSound(w: World, payload: Payload, ts: int)
    requires Sound(w)
    ensures Sound(OnWrite(w, payload, ts))
  {
  }

  lemma DedupKeepsSound(w: World, payload: Payload, ts: int, ttl: int, now: int)
    requires Sound(w)
    ensures Sound(OnWriteDedup(w, payload, ts, ttl, now))
  {
    if !IsDuplicate(w.slot, payload) {
      assert OnWriteDedup(w, payload, ts, ttl, now).slot.dirty.Some?;
    }
  }

  lemma DrainKeepsSound(w: World)
    requires Sound(w) && FlusherCan(w, Drain)
    ensures Sound(OnDrain(w))
  {
  }

  lemma DeadLetterKeepsSound(w: World, at: int, reason: string, now: int)
    requires Sound(w) && FlusherCan(w, RunDeadLetter(at, reason))
    ensures Sound(OnDeadLetter(w, at, reason, now))
  {
  }

  lemma FlusherKeepsSound(w: World, e: FlusherStep, now: int)
    requires Sound(w) && FlusherCan(w, e)
    ensures Sound(FlusherNext(w, e, now))
  {
    match e
    case Drain => DrainKeepsSound(w);
    case SinkApply => SinkApplyKeepsSound(w);
    case Resolve(fate) => ResolveKeepsSound(w, fate);
    case RunCommit(ttl, expiry) => CommitKeepsSound(w, ttl, expiry, now);
    case RunDeadLetter(at, reason) => DeadLetterKeepsSound(w, at, reason, now);
    case Abandon =>
  }

  lemma SinkApplyKeepsSound(w: World)
    requires Sound(w) && FlusherCan(w, SinkApply)
    ensures Sound(OnSinkApply(w))
  {
  }

  lemma ResolveKeepsSound(w: World, fate: Fate)
    requires Sound(w) && FlusherCan(w, Resolve(fate))
    ensures Sound(OnResolve(w, fate))
  {
  }

  lemma CommitKeepsSound(w: World, ttl: int, expiry: int, now: int)
    requires Sound(w) && FlusherCan(w, RunCommit(ttl, expiry))
    ensures Sound(OnCommit(w, ttl, expiry, now))
  {
  }

  /** Also the payloads of Source reads, the probes and empty payloads are on record. */
  predicate ReadsRecorded(w: World) {
    && (w.hz.empty || [] !in w.hist)
    && (forall id :: id in w.probes ==> w.probes[id] <= |w.hist|)
    && forall id :: id in w.hydrations ==> w.hydrations[id].num <= |w.hist| && w.Version(w.hydrations[id].num) == Some(w.hydrations[id].payload)
  }

  lemma HydrateKeepsSound(w: World, id: nat, ts: int, ttl: int, now: int)
    requires Sound(w) && ReadsRecorded(w) && ReaderCan(w, RunHydrate(id, ts, ttl))
    ensures Sound(OnHydrate(w, id, ts, ttl, now))
  {
    if HydrateFills(w.slot) {
      FillKeepsSound(w, id, ts, ttl, now);
    }
  }

  lemma FillKeepsSound(w: World, id: nat, ts: int, ttl: int, now: int)
    requires Sound(w) && ReadsRecorded(w) && ReaderCan(w, RunHydrate(id, ts, ttl)) && HydrateFills(w.slot)
    ensures Sound(OnHydrate(w, id, ts, ttl, now))
  {
    var slot := Hydrate(w.slot, w.hydrations[id].payload, ts, ttl, now);
    assert slot.Stored().None? || slot.Stored() == Some(w.hydrations[id].payload);
    assert slot.Seq().Some? ==> slot.Seq() == w.slot.Seq();
    assert slot.dirty == w.slot.dirty && slot.dead == w.slot.dead;
  }

  lemma ReaderKeepsSound(w: World, e: ReaderStep, now: int)
    requires Sound(w) && ReadsRecorded(w) && ReaderCan(w, e)
    ensures Sound(ReaderNext(w, e, now))
  {
    match e
    case SourceRead(id) =>
    case RunHydrate(id, ts, ttl) => HydrateKeepsSound(w, id, ts, ttl, now);
    case Refresh(ttl, expiry) =>
  }

  lemma DlqKeepsSound(w: World, e: DlqStep)
    requires Sound(w) && DlqCan(w, e)
    ensures Sound(DlqNext(w, e))
  {
    match e
    case DlqDrain =>
    case DlqApply =>
    case DlqDelete(discard) =>
    case DlqAbandon =>
    case DlqPurge =>
  }

  lemma DegradedKeepsSound(w: World, e: DegradedStep)
    requires Sound(w) && DegradedCan(w, e)
    ensures Sound(DegradedNext(w, e))
  {
    match e
    case Probe(id) =>
    case DirectWrite(id, payload) =>
  }

  lemma WriterKeepsSound(w: World, e: WriterStep, now: int)
    requires Sound(w)
    ensures Sound(WriterNext(w, e, now))
  {
    match e
    case Plain(payload, ts) => WriteKeepsSound(w, payload, ts);
    case Dedup(payload, ts, ttl) => DedupKeepsSound(w, payload, ts, ttl, now);
  }

  /** Every event of every goroutine keeps it, whatever hazards it raises. */
  lemma StepKeepsSound(w: World, e: Event, now: int)
    requires Sound(w) && ReadsRecorded(w) && Enabled(w, e, now)
    ensures Sound(Next(w, e, now))
  {
    match e
    case Writer(p) => WriterKeepsSound(w, p, now);
    case Flusher(f) => FlusherKeepsSound(w, f, now);
    case Reader(r) => ReaderKeepsSound(w, r, now);
    case Dlq(d) => DlqKeepsSound(w, d);
    case Degraded(g) => DegradedKeepsSound(w, g);
    case Expire =>
  }

  lemma WriterGrows(w: World, e: WriterStep, now: int)
    ensures w.hist <= WriterNext(w, e, now).hist && w.origin == WriterNext(w, e, now).origin
    ensures WriterNext(w, e, now).hydrations == w.hydrations
  {
  }

  lemma WriterKeepsReads(w: World, e: WriterStep, now: int)
    requires ReadsRecorded(w)
    ensures ReadsRecorded(WriterNext(w, e, now))
  {
    WriterGrows(w, e, now);
    match e
    case Plain(payload, ts) =>
    case Dedup(payload, ts, ttl) =>
  }

  lemma FlusherGrows(w: World, e: FlusherStep, now: int)
    requires FlusherCan(w, e)
    ensures w.hist == FlusherNext(w, e, now).hist && w.origin == FlusherNext(w, e, now).origin
    ensures FlusherNext(w, e, now).hydrations == w.hydrations
    ensures FlusherNext(w, e, now).probes == w.probes && FlusherNext(w, e, now).hz == w.hz
  {
  }

  lemma ReaderKeepsReads(w: World, e: ReaderStep, now: int)
    requires Recorded(w) && ReadsRecorded(w) && ReaderCan(w, e)
    ensures ReadsRecorded(ReaderNext(w, e, now))
  {
  }

  lemma DlqKeepsReads(w: World, e: DlqStep)
    requires ReadsRecorded(w) && DlqCan(w, e)
    ensures ReadsRecorded(DlqNext(w, e))
  {
  }

  lemma DegradedKeepsReads(w: World, e: DegradedStep)
    requires ReadsRecorded(w) && DegradedCan(w, e)
    ensures ReadsRecorded(DegradedNext(w, e))
  {
  }

  lemma StepKeepsReads(w: World, e: Event, now: int)
    requires Recorded(w) && ReadsRecorded(w) && Enabled(w, e, now)
    ensures ReadsRecorded(Next(w, e, now))
  {
    match e
    case Writer(p) => WriterKeepsReads(w, p, now);
    case Flusher(f) => FlusherGrows(w, f, now);
    case Reader(r) => ReaderKeepsReads(w, r, now);
    case Dlq(d) => DlqKeepsReads(w, d);
    case Degraded(g) => DegradedKeepsReads(w, g);
    case Expire =>
  }

  // ── What a degraded write has to fear ──────────────────────────────────────

  /** Something that shows another payload than d can still reach the store, or is on its way there. */
  predicate OlderPending(w: World, d: Payload) {
    || (CanApply(w) && w.flight.value.payload != Some(d))
    || (w.replay.Some? && w.replay.value.payload != d)
    || (Pending(w.slot) && w.slot.Visible().Some? && w.slot.Visible() != Some(d))
  }

  /** Everything that can still reach the store shows d or comes from a write after the first m; so does the record. */
  predicate Harmless(w: World, m: nat, d: Payload) {
    && m <= |w.hist|
    && (w.snum <= m ==> w.store == Some(d))
    && (CanApply(w) ==> w.flight.value.num > m || w.flight.value.payload == Some(d))
    && (w.replay.Some? ==> w.replay.value.num > m || w.replay.value.payload == d)
    && (Pending(w.slot) && w.slot.Visible().Some? ==> w.jnum > m || w.slot.Visible() == Some(d))
  }

  lemma DirectWriteIsHarmlessIff(w: World, id: nat, d: Payload)
    requires Recorded(w) && DegradedCan(w, DirectWrite(id, d))
    ensures Harmless(OnDirectWrite(w, id, d), |w.hist| + 1, d) <==> !OlderPending(w, d)
  {
  }

  lemma WriterKeepsHarmless(w: World, e: WriterStep, now: int, m: nat, d: Payload)
    requires Harmless(w, m, d)
    ensures Harmless(WriterNext(w, e, now), m, d)
  {
    match e
    case Plain(payload, ts) =>
    case Dedup(payload, ts, ttl) =>
  }

  lemma FlusherKeepsHarmless(w: World, e: FlusherStep, now: int, m: nat, d: Payload)
    requires Solid(w) && FlusherCan(w, e) && Harmless(w, m, d)
    ensures Harmless(FlusherNext(w, e, now), m, d)
  {
    match e
    case Drain =>
    case SinkApply =>
    case Resolve(fate) =>
    case RunCommit(ttl, expiry) =>
    case RunDeadLetter(at, reason) =>
    case Abandon =>
  }

  lemma ReaderKeepsHarmless(w: World, e: ReaderStep, now: int, m: nat, d: Payload)
    requires Solid(w) && ReaderCan(w, e) && Harmless(w, m, d)
    requires !ReaderNext(w, e, now).hz.revived
    ensures Harmless(ReaderNext(w, e, now), m, d)
  {
    match e
    case SourceRead(id) =>
    case RunHydrate(id, ts, ttl) =>
    case Refresh(ttl, expiry) =>
  }

  lemma DlqKeepsHarmless(w: World, e: DlqStep, m: nat, d: Payload)
    requires DlqCan(w, e) && Harmless(w, m, d)
    ensures Harmless(DlqNext(w, e), m, d)
  {
  }

  lemma DegradedKeepsHarmless(w: World, e: DegradedStep, m: nat, d: Payload)
    requires DegradedCan(w, e) && Harmless(w, m, d)
    ensures Harmless(DegradedNext(w, e), m, d)
  {
  }

  lemma StepKeepsHarmless(w: World, e: Event, now: int, m: nat, d: Payload)
    requires Sound(w) && !w.hz.clobbered && Enabled(w, e, now) && Harmless(w, m, d)
    requires !Next(w, e, now).hz.revived
    ensures Harmless(Next(w, e, now), m, d)
  {
    match e
    case Writer(p) => WriterKeepsHarmless(w, p, now, m, d);
    case Flusher(f) => FlusherKeepsHarmless(w, f, now, m, d);
    case Reader(r) => ReaderKeepsHarmless(w, r, now, m, d);
    case Dlq(q) => DlqKeepsHarmless(w, q, m, d);
    case Degraded(g) => DegradedKeepsHarmless(w, g, m, d);
    case Expire =>
  }

  // ── What a probe rules out ─────────────────────────────────────────────────

  /** Everything that could still reach the store comes from a write after the first m. */
  predicate OnlyNewerPending(w: World, m: nat) {
    && m <= |w.hist|
    && (w.flight.Some? ==> w.flight.value.num > m)
    && (w.replay.Some? ==> w.replay.value.num > m)
    && (w.slot.dirty.Some? ==> w.jnum > m)
    && (w.slot.dead.Some? && w.slot.Visible().Some? ==> w.jnum > m)
  }

  lemma QuietMeansOnlyNewerPending(w: World)
    requires Solid(w) && !Pending(w.slot)
    ensures OnlyNewerPending(w, |w.hist|)
  {
  }

  lemma WriterKeepsOnlyNewer(w: World, e: WriterStep, now: int, m: nat)
    requires OnlyNewerPending(w, m)
    ensures OnlyNewerPending(WriterNext(w, e, now), m)
  {
    match e
    case Plain(payload, ts) =>
    case Dedup(payload, ts, ttl) =>
  }

  lemma DegradedKeepsOnlyNewer(w: World, e: DegradedStep, m: nat)
    requires DegradedCan(w, e) && OnlyNewerPending(w, m)
    ensures OnlyNewerPending(DegradedNext(w, e), m)
  {
  }

  lemma FlusherKeepsOnlyNewer(w: World, e: FlusherStep, now: int, m: nat)
    requires Solid(w) && FlusherCan(w, e) && OnlyNewerPending(w, m)
    ensures OnlyNewerPending(FlusherNext(w, e, now), m)
  {
  }

  lemma ReaderKeepsOnlyNewer(w: World, e: ReaderStep, now: int, m: nat)
    requires Solid(w) && ReaderCan(w, e) && OnlyNewerPending(w, m)
    requires !ReaderNext(w, e, now).hz.revived
    ensures OnlyNewerPending(ReaderNext(w, e, now), m)
  {
    match e
    case SourceRead(id) =>
    case RunHydrate(id, ts, ttl) =>
    case Refresh(ttl, expiry) =>
  }

  lemma DlqKeepsOnlyNewer(w: World, e: DlqStep, m: nat)
    requires DlqCan(w, e) && OnlyNewerPending(w, m)
    ensures OnlyNewerPending(DlqNext(w, e), m)
  {
  }

  lemma StepKeepsOnlyNewerPending(w: World, e: Event, now: int, m: nat)
    requires Sound(w) && !w.hz.clobbered && Enabled(w, e, now)
    requires OnlyNewerPending(w, m)
    requires !Next(w, e, now).hz.revived
    ensures OnlyNewerPending(Next(w, e, now), m)
  {
    match e
    case Writer(p) => WriterKeepsOnlyNewer(w, p, now, m);
    case Flusher(f) => FlusherKeepsOnlyNewer(w, f, now, m);
    case Reader(r) => ReaderKeepsOnlyNewer(w, r, now, m);
    case Dlq(d) => DlqKeepsOnlyNewer(w, d, m);
    case Degraded(g) => DegradedKeepsOnlyNewer(w, g, m);
    case Expire =>
  }

  // ── Continuations of one key ───────────────────────────────────────────────

  /** The world after events at given times, if each was enabled. */
  function After(w: World, es: seq<(Event, int)>): Option<World> {
    if es == [] then Some(w)
    else
      var n := |es| - 1;
      var before := After(w, es[..n]);
      if before.Some? && Enabled(before.value, es[n].0, es[n].1)
      then Some(Next(before.value, es[n].0, es[n].1)) else None
  }

  lemma AfterOne(w: World, e: Event, now: int)
    requires Enabled(w, e, now)
    ensures After(w, [(e, now)]) == Some(Next(w, e, now))
  {
    assert [(e, now)][..0] == [];
    assert After(w, [(e, now)][..0]) == Some(w);
  }

  lemma AfterMore(w: World, es: seq<(Event, int)>, e: Event, now: int)
    requires After(w, es).Some? && Enabled(After(w, es).value, e, now)
    ensures After(w, es + [(e, now)]) == Some(Next(After(w, es).value, e, now))
  {
    assert (es + [(e, now)])[..|es|] == es;
  }

  /** Flags are never taken back. */
  predicate FlagsKept(w: World, w': World) {
    (w.hz.clobbered ==> w'.hz.clobbered) && (w.hz.revived ==> w'.hz.revived)
  }

  lemma WriterKeepsFlags(w: World, e: WriterStep, now: int)
    ensures FlagsKept(w, WriterNext(w, e, now))
  {
    match e
    case Plain(payload, ts) =>
    case Dedup(payload, ts, ttl) =>
  }

  lemma FlusherKeepsFlags(w: World, e: FlusherStep, now: int)
    requires FlusherCan(w, e)
    ensures FlagsKept(w, FlusherNext(w, e, now))
  {
  }

  lemma ReaderKeepsFlags(w: World, e: ReaderStep, now: int)
    requires ReaderCan(w, e)
    ensures FlagsKept(w, ReaderNext(w, e, now))
  {
  }

  lemma DlqKeepsFlags(w: World, e: DlqStep)
    requires DlqCan(w, e)
    ensures FlagsKept(w, DlqNext(w, e))
  {
  }

  lemma DegradedKeepsFlags(w: World, e: DegradedStep)
    requires DegradedCan(w, e)
    ensures FlagsKept(w, DegradedNext(w, e))
  {
  }

  lemma FlagsStay(w: World, e: Event, now: int)
    requires Enabled(w, e, now)
    ensures FlagsKept(w, Next(w, e, now))
  {
    match e
    case Writer(p) => WriterKeepsFlags(w, p, now);
    case Flusher(f) => FlusherKeepsFlags(w, f, now);
    case Reader(r) => ReaderKeepsFlags(w, r, now);
    case Dlq(d) => DlqKeepsFlags(w, d);
    case Degraded(g) => DegradedKeepsFlags(w, g);
    case Expire =>
  }

  /** es leads to an older record than the first m writes leave, showing something else than d. */
  predicate Overtakes(w: World, es: seq<(Event, int)>, m: nat, d: Payload) {
    var end := After(w, es);
    end.Some? && end.value.snum < m && end.value.store != Some(d) && !end.value.hz.clobbered && !end.value.hz.revived
  }

  lemma {:induction false} HarmlessForEver(w: World, es: seq<(Event, int)>, m: nat, d: Payload)
    requires Sound(w) && ReadsRecorded(w) && Harmless(w, m, d)
    requires After(w, es).Some? && !After(w, es).value.hz.clobbered && !After(w, es).value.hz.revived
    ensures var end := After(w, es).value; Sound(end) && ReadsRecorded(end) && Harmless(end, m, d)
  {
    if es != [] {
      var n := |es| - 1;
      var before := After(w, es[..n]).value;
      FlagsStay(before, es[n].0, es[n].1);
      HarmlessForEver(w, es[..n], m, d);
      StepKeepsHarmless(before, es[n].0, es[n].1, m, d);
      StepKeepsSound(before, es[n].0, es[n].1);
      StepKeepsReads(before, es[n].0, es[n].1);
    }
  }

  // ── Exactly when a degraded write can be overtaken ─────────────────────────

  /** The sink applies the older record it already has. */
  lemma FlightOvertakes(w: World, m: nat, d: Payload)
    requires CanApply(w) && w.flight.value.payload != Some(d) && w.flight.value.num < m
    requires !w.hz.clobbered && !w.hz.revived
    ensures Overtakes(w, [(Flusher(SinkApply), 0)], m, d)
  {
    AfterOne(w, Flusher(SinkApply), 0);
  }

  /** The DLQ processor upserts the older payload it already has. */
  lemma ReplayOvertakes(w: World, m: nat, d: Payload)
    requires w.replay.Some? && w.replay.value.payload != d && w.replay.value.num < m
    requires !w.hz.clobbered && !w.hz.revived
    ensures Overtakes(w, [(Dlq(DlqApply), 0)], m, d)
  {
    AfterOne(w, Dlq(DlqApply), 0);
  }

  /** The older dirty payload is flushed; a batch in flight may have to be given up first. */
  lemma DirtyOvertakes(w: World, m: nat, d: Payload) returns (es: seq<(Event, int)>)
    requires w.slot.dirty.Some? && w.slot.Visible().Some? && w.slot.Visible() != Some(d) && w.jnum < m
    requires !w.hz.clobbered && !w.hz.revived
    ensures Overtakes(w, es, m, d)
  {
    es := [];
    if w.flight.Some? {
      AfterOne(w, Flusher(Abandon), 0);
      es := [(Flusher(Abandon), 0)];
    }
    AfterMore(w, es, Flusher(Drain), 0);
    AfterMore(w, es + [(Flusher(Drain), 0)], Flusher(SinkApply), 0);
    es := es + [(Flusher(Drain), 0)] + [(Flusher(SinkApply), 0)];
  }

  /** The older dead letter is drained and upserted; a replay may have to be given up first. */
  lemma DeadLetterOvertakes(w: World, m: nat, d: Payload) returns (es: seq<(Event, int)>)
    requires w.slot.dead.Some? && w.slot.Visible().Some? && w.slot.Visible() != Some(d) && w.jnum < m
    requires !w.hz.clobbered && !w.hz.revived
    ensures Overtakes(w, es, m, d)
  {
    es := [];
    if w.replay.Some? {
      AfterOne(w, Dlq(DlqAbandon), 0);
      es := [(Dlq(DlqAbandon), 0)];
    }
    AfterMore(w, es, Dlq(DlqDrain), 0);
    AfterMore(w, es + [(Dlq(DlqDrain), 0)], Dlq(DlqApply), 0);
    es := es + [(Dlq(DlqDrain), 0)] + [(Dlq(DlqApply), 0)];
  }

  lemma OlderPendingOvertakes(w: World, m: nat, d: Payload) returns (es: seq<(Event, int)>)
    requires Recorded(w) && !w.hz.clobbered && !w.hz.revived && OlderPending(w, d)
    requires CanApply(w) ==> w.flight.value.num < m
    requires w.replay.Some? ==> w.replay.value.num < m
    requires w.jnum < m
    ensures Overtakes(w, es, m, d)
  {
    if CanApply(w) && w.flight.value.payload != Some(d) {
      FlightOvertakes(w, m, d);
      es := [(Flusher(SinkApply), 0)];
    } else if w.replay.Some? && w.replay.value.payload != d {
      ReplayOvertakes(w, m, d);
      es := [(Dlq(DlqApply), 0)];
    } else if w.slot.dirty.Some? {
      es := DirtyOvertakes(w, m, d);
    } else {
      es := DeadLetterOvertakes(w, m, d);
    }
  }

  ghost predicate CanBeOvertaken(w: World, m: nat, d: Payload) {
    exists es :: Overtakes(w, es, m, d)
  }

  /**
    A degraded write of d can be overtaken by an older payload if and only if, when it is made, one that shows
    something else is dirty, dead-lettered, with the sink or in the DLQ processor's hands. All continuations
    count in which no dirty hash is deleted and no dead letter's hash is refilled.
    */
  lemma DegradedWriteIsOvertakenIff(w: World, id: nat, d: Payload)
    requires Sound(w) && ReadsRecorded(w) && !w.hz.clobbered && !w.hz.revived
    requires DegradedCan(w, DirectWrite(id, d))
    ensures CanBeOvertaken(OnDirectWrite(w, id, d), |w.hist| + 1, d) <==> OlderPending(w, d)
  {
    var w' := OnDirectWrite(w, id, d);
    var m := |w.hist| + 1;
    DirectWriteIsHarmlessIff(w, id, d);
    DegradedKeepsSound(w, DirectWrite(id, d));
    DegradedKeepsReads(w, DirectWrite(id, d));
    if OlderPending(w, d) {
      var es := OlderPendingOvertakes(w', m, d);
      assert Overtakes(w', es, m, d);
    } else if CanBeOvertaken(w', m, d) {
      var es :| Overtakes(w', es, m, d);
      HarmlessForEver(w', es, m, d);
      assert false;
    }
  }

  // ── How long a flushed entry lives ─────────────────────────────────────────

  /** A committed entry expires exactly when its post-flush TTL is over: not earlier, and not never. */
  lemma CommittedEntryLivesExactly(w: World, ttl: int, expiry: int, now: int, t: int)
    requires FlusherCan(w, RunCommit(ttl, expiry)) && ttl > 0
    requires w.slot.entry.Some? && w.slot.entry.value.v == w.flight.value.seq_
    ensures var w' := FlusherNext(w, RunCommit(ttl, expiry), now);
            && (CanExpire(w', t) <==> t > now + ttl)
            && w'.slot.Stored() == w.slot.Stored() && w'.slot.dirty.None?
            && w'.slot.due == if w.slot.indexed then Some(expiry) else w.slot.due
  {
    CommitOutcome(w.slot, w.flight.value.seq_, ttl, expiry, now);
  }

  /** A dead-lettered entry expires exactly when seven days are over. */
  lemma DeadLetterLivesExactly(w: World, at: int, reason: string, now: int, t: int)
    requires FlusherCan(w, RunDeadLetter(at, reason))
    requires w.slot.entry.Some? && w.slot.entry.value.v == w.flight.value.seq_
    ensures var w' := FlusherNext(w, RunDeadLetter(at, reason), now);
            && (CanExpire(w', t) <==> t > now + 604_800_000)
            && w'.slot.Stored() == w.slot.Stored() && w'.slot.dirty.None? && w'.slot.dead == Some(at)
  {
    DeadLetterOutcome(w.slot, w.flight.value.seq_, at, reason, now);
  }
}
