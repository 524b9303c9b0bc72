/** What every event keeps true of a key, and what follows for the key in every reachable state. */
module Invariant {
  import opened Optional
  import opened Redis
  import opened World

  /** No race has yet broken the protocol's own assumptions. */
  predicate Clean(w: World) {
    !w.hz.overtook && !w.hz.clobbered && !w.hz.misfired
  }

  /** The history variables name real writes and describe what the journal and the store hold. */
  predicate Numbered(w: World) {
    && w.jnum <= |w.hist| && w.snum <= |w.hist| && w.parked <= |w.hist| && w.discarded <= |w.hist|
    && w.store == w.Version(w.snum)
    && (w.slot.Stored().Some? ==> w.slot.Stored() == w.Version(w.jnum))
    && (w.slot.Seq().Some? ==> w.slot.Seq().value >= 1)
    && (w.hz.empty || [] !in w.hist)
  }

  /** Unflushed state never expires: a dirty key holds the latest payload, without a TTL. */
  predicate DirtyIsLatest(w: World) {
    w.slot.dirty.Some? ==> w.slot.Persistent() && w.jnum == |w.hist| && w.jnum >= 1
  }

  /**
    The sequence check is sound: a stored 'v' equal to the drained one means that the stored payload is
    the very write that was drained, however many writes share its millisecond.
    */
  predicate FlightIsSound(w: World) {
    w.flight.Some? ==>
      var f := w.flight.value;
      && w.slot.dirty.Some?
      && 1 <= f.num <= w.jnum && f.num <= |w.hist| && (CanApply(w) ==> w.snum <= f.num)
      && SeqNo(f.seq_) <= SeqNo(w.slot.Seq())
      && (f.seq_.Some? ==> f.seq_.value >= 1)
      && (f.seq_ == w.slot.Seq() ==> f.num == w.jnum)
      && f.payload == (if w.Version(f.num) == Some([]) then None else w.Version(f.num))
      && (f.applied ==> f.payload.Some? && f.num <= w.snum)
      && (f.stage == Committing ==> f.applied)
  }

  predicate ReplayIsSound(w: World) {
    w.replay.Some? ==>
      var r := w.replay.value;
      && w.slot.dead.Some?
      && r.num <= |w.hist| && w.Version(r.num) == Some(r.payload)
      && (r.applied ==> r.num <= w.snum)
  }

  /** A payload that may expire is in the store already, or is the dead-lettered one. */
  predicate SettledOrParked(w: World) {
    w.slot.Visible().Some? && w.slot.dirty.None? ==>
      w.jnum <= w.snum || (w.slot.dead.Some? && w.parked == w.jnum)
  }

  predicate JournaledDirty(w: World) {
    w.slot.dirty.Some? && w.slot.Persistent() && w.jnum == |w.hist|
  }

  predicate JournaledDead(w: World) {
    w.slot.dead.Some? && w.slot.Stored().Some? && w.jnum == |w.hist| && w.parked == |w.hist|
  }

  /** The latest accepted write is awaiting flush, dead-lettered, stored, or was given up on purpose. */
  predicate LatestIsSafe(w: World) {
    |w.hist| == 0 || w.Latest() == Some([]) || JournaledDirty(w) || JournaledDead(w)
    || w.snum == |w.hist| || w.discarded == |w.hist|
  }

  /** A hydration whose key kept its payload, and whose record only the flusher wrote, is up to date. */
  predicate HydrationIsTimely(w: World, id: nat)
    requires id in w.hydrations
  {
    var h := w.hydrations[id];
    && h.num <= w.snum && h.num <= |w.hist| && w.Version(h.num) == Some(h.payload)
    && (!h.gap && !h.foreign && w.slot.Stored().None? ==> h.num == w.snum)
  }

  /** Past a probe that found nothing pending, only a later write makes something pending. */
  predicate ProbeHolds(w: World, id: nat)
    requires id in w.probes
  {
    w.probes[id] <= |w.hist| && (w.probes[id] == |w.hist| ==> !Pending(w.slot))
  }

  predicate OperationsAreSound(w: World) {
    && (forall id :: id in w.hydrations ==> HydrationIsTimely(w, id))
    && (forall id :: id in w.probes ==> ProbeHolds(w, id))
  }

  /** The journal is never behind the store. */
  predicate JournalLeads(w: World) {
    !w.hz.late && !w.hz.hidden && !w.hz.outran && w.slot.Stored().Some? ==> w.snum <= w.jnum
  }

  /** Unless something was given up: the journal holds the latest write, or the store does. */
  predicate FreshByJournalOrStore(w: World) {
    w.discarded == 0 && !w.hz.late && !w.hz.hidden && !w.hz.empty ==>
      if w.slot.Stored().Some? then w.jnum == |w.hist| else w.snum == |w.hist|
  }

  /** The content hash, where there is one, describes the stored payload and the latest write. */
  predicate HashIsHonest(w: World) {
    !w.hz.mixed && !w.hz.hidden ==>
      && (w.slot.Hash().Some? ==>
            && w.slot.Stored().Some? && w.slot.Hash() == Some(Digest(w.slot.Stored().value))
            && w.jnum == |w.hist| >= 1)
      && (|w.hist| >= 1 ==> w.acked == w.Latest())
  }

  /** Where the accepted writes are. */
  predicate WritesAreSafe(w: World) {
    && Numbered(w)
    && DirtyIsLatest(w)
    && FlightIsSound(w)
    && ReplayIsSound(w)
    && SettledOrParked(w)
    && LatestIsSafe(w)
  }

  /** What readers, hydrations, degraded writers and the dedup script may rely on. */
  predicate ReadersAreSafe(w: World) {
    && OperationsAreSound(w)
    && JournalLeads(w)
    && FreshByJournalOrStore(w)
    && HashIsHonest(w)
  }

  predicate Inv(w: World) {
    Clean(w) ==> WritesAreSafe(w) && ReadersAreSafe(w)
  }

  lemma InitialIsInv(w: World)
    requires Initial(w)
    ensures Inv(w)
  {
  }

  // ── Every event keeps the invariant ────────────────────────────────────────

  /** A slot that holds payload as its newest write, unexpiring and dirty, is an accepted write. */
  predicate Accepts(before: Slot, after: Slot, payload: Payload) {
    && after.dirty.Some? && after.Persistent() && after.Stored() == Some(payload)
    && after.Seq() == Some(SeqNo(before.Seq()) + 1)
    && after.dead == before.dead
  }

  function Accept(w: World, slot: Slot, payload: Payload, mixed: bool): World {
    var w' := Accepted(w.(slot := slot), payload);
    w'.(hz := w'.hz.(mixed := mixed))
  }

  lemma AcceptedWritesAreSafe(w: World, slot: Slot, payload: Payload, mixed: bool)
    requires Clean(w) && WritesAreSafe(w) && Accepts(w.slot, slot, payload)
    ensures WritesAreSafe(Accept(w, slot, payload, mixed))
  {
  }

  lemma AcceptedKeepsInv(w: World, slot: Slot, payload: Payload, mixed: bool)
    requires Inv(w) && Accepts(w.slot, slot, payload)
    requires w.hz.mixed ==> mixed
    requires mixed || slot.Hash().None? || slot.Hash() == Some(Digest(payload))
    ensures Inv(Accept(w, slot, payload, mixed))
  {
    if Clean(w) {
      AcceptedWritesAreSafe(w, slot, payload, mixed);
    }
  }

  lemma WrittenIsAccepted(w: World, payload: Payload, ts: int)
    ensures Accepts(w.slot, Written(w.slot, payload, ts), payload)
    ensures OnWrite(w, payload, ts) == Accept(w, Written(w.slot, payload, ts), payload, OnWrite(w, payload, ts).hz.mixed)
  {
  }

  lemma WriteKeepsInv(w: World, payload: Payload, ts: int)
    requires Inv(w)
    ensures Inv(OnWrite(w, payload, ts))
  {
    WrittenIsAccepted(w, payload, ts);
    AcceptedKeepsInv(w, Written(w.slot, payload, ts), payload, OnWrite(w, payload, ts).hz.mixed);
  }

  /** A slot that only lives longer changes nothing the invariant speaks of. */
  lemma LongerLifeKeepsInv(w: World, slot: Slot)
    requires Inv(w) && LivesAtLeastAsLong(w.slot, slot) && slot.Hash() == w.slot.Hash()
    requires w.slot.entry.None? ==> slot.entry.None?
    ensures Inv(w.(slot := slot))
  {
  }

  /** A skipped duplicate acknowledges the payload the journal already holds. */
  lemma DuplicateKeepsInv(w: World, slot: Slot, payload: Payload)
    requires Inv(w) && IsDuplicate(w.slot, payload)
    requires LivesAtLeastAsLong(w.slot, slot) && slot.Hash() == w.slot.Hash()
    ensures Inv(w.(slot := slot, acked := Some(payload)))
  {
    LongerLifeKeepsInv(w, slot);
  }

  lemma FirstWriteDedupKeepsInv(w: World, payload: Payload, ts: int, ttl: int, now: int)
    requires Inv(w) && !IsDuplicate(w.slot, payload)
    ensures Inv(OnWriteDedup(w, payload, ts, ttl, now))
  {
    AcceptedKeepsInv(w, DedupWritten(w.slot, payload, ts), payload, w.hz.mixed);
  }

  lemma WriteDedupKeepsInv(w: World, payload: Payload, ts: int, ttl: int, now: int)
    requires Inv(w)
    ensures Inv(OnWriteDedup(w, payload, ts, ttl, now))
  {
    if IsDuplicate(w.slot, payload) {
      DuplicateKeepsInv(w, Extended(w.slot, ttl, now), payload);
    } else {
      FirstWriteDedupKeepsInv(w, payload, ts, ttl, now);
    }
  }

  lemma DrainKeepsInv(w: World)
    requires Inv(w) && FlusherCan(w, Drain)
    ensures Inv(OnDrain(w))
  {
  }

  lemma SinkApplyKeepsInv(w: World)
    requires Inv(w) && FlusherCan(w, SinkApply)
    ensures Inv(OnSinkApply(w))
  {
  }

  lemma ResolveKeepsInv(w: World, fate: Fate)
    requires Inv(w) && FlusherCan(w, Resolve(fate))
    ensures Inv(OnResolve(w, fate))
  {
  }

  lemma CommitKeepsInv(w: World, ttl: int, expiry: int, now: int)
    requires Inv(w) && FlusherCan(w, RunCommit(ttl, expiry))
    ensures Inv(OnCommit(w, ttl, expiry, now))
  {
  }

  lemma MatchingDeadLetterKeepsInv(w: World, at: int, reason: string, now: int)
    requires Clean(w) && WritesAreSafe(w) && ReadersAreSafe(w)
    requires w.flight.Some? && w.slot.Seq() == w.flight.value.seq_
    ensures WritesAreSafe(OnDeadLetter(w, at, reason, now)) && ReadersAreSafe(OnDeadLetter(w, at, reason, now))
  {
  }

  lemma DeadLetterKeepsInv(w: World, at: int, reason: string, now: int)
    requires Inv(w) && FlusherCan(w, RunDeadLetter(at, reason))
    ensures Inv(OnDeadLetter(w, at, reason, now))
  {
    if w.slot.Seq() != w.flight.value.seq_ {
      AbandonKeepsInv(w);
    } else if Clean(w) {
      MatchingDeadLetterKeepsInv(w, at, reason, now);
    }
  }

  lemma RefreshKeepsInv(w: World, ttl: int, expiry: int, now: int)
    requires Inv(w)
    ensures Inv(w.(slot := ExtendTtl(w.slot, ttl, expiry, now)))
  {
    LongerLifeKeepsInv(w, ExtendTtl(w.slot, ttl, expiry, now));
  }

  lemma AbandonKeepsInv(w: World)
    requires Inv(w)
    ensures Inv(w.(flight := None))
  {
  }

  lemma DlqAbandonKeepsInv(w: World)
    requires Inv(w)
    ensures Inv(w.(replay := None))
  {
  }

  lemma SourceReadKeepsInv(w: World, id: nat)
    requires Inv(w) && ReaderCan(w, SourceRead(id))
    ensures Inv(OnSourceRead(w, id))
  {
  }

  /** The world after hydration id has filled a journal miss, whatever became of its TTL. */
  function Filled(w: World, id: nat, slot: Slot): World
    requires id in w.hydrations
  {
    var h := w.hydrations[id];
    w.(slot := slot, hydrations := w.hydrations - {id}, jnum := h.num,
       hz := w.hz.(late := w.hz.late || h.num != w.snum, revived := w.hz.revived || w.slot.dead.Some?))
  }

  predicate Fills(before: Slot, after: Slot, payload: Payload) {
    && before.Stored().None?
    && (after.Stored().None? || after.Stored() == Some(payload))
    && (after.Seq().Some? ==> after.Seq() == before.Seq())
    && after.Hash().None?
    && after.dirty == before.dirty && after.dead == before.dead
  }

  lemma FilledWritesAreSafe(w: World, id: nat, slot: Slot)
    requires Clean(w) && WritesAreSafe(w) && OperationsAreSound(w)
    requires id in w.hydrations && Fills(w.slot, slot, w.hydrations[id].payload)
    ensures WritesAreSafe(Filled(w, id, slot))
  {
    assert HydrationIsTimely(w, id);
  }

  lemma FilledReadersAreSafe(w: World, id: nat, slot: Slot)
    requires Clean(w) && WritesAreSafe(w) && ReadersAreSafe(w)
    requires id in w.hydrations && Fills(w.slot, slot, w.hydrations[id].payload)
    ensures ReadersAreSafe(Filled(w, id, slot))
  {
    assert HydrationIsTimely(w, id);
  }

  lemma FillingKeepsInv(w: World, id: nat, ts: int, ttl: int, now: int)
    requires Inv(w) && Clean(w) && id in w.hydrations && HydrateFills(w.slot)
    ensures Inv(OnHydrate(w, id, ts, ttl, now))
  {
    var slot := Hydrate(w.slot, w.hydrations[id].payload, ts, ttl, now);
    FilledWritesAreSafe(w, id, slot);
    FilledReadersAreSafe(w, id, slot);
    assert OnHydrate(w, id, ts, ttl, now) == Filled(w, id, slot);
  }

  lemma ForgettingKeepsInv(w: World, id: nat)
    requires Inv(w)
    ensures Inv(w.(hydrations := w.hydrations - {id}))
  {
  }

  lemma SkippingKeepsInv(w: World, id: nat, ts: int, ttl: int, now: int)
    requires Inv(w) && id in w.hydrations && !HydrateFills(w.slot)
    ensures Inv(OnHydrate(w, id, ts, ttl, now))
  {
    var slot := Extended(w.slot, ttl, now);
    LongerLifeKeepsInv(w, slot);
    ForgettingKeepsInv(w.(slot := slot), id);
  }

  lemma HydrateKeepsInv(w: World, id: nat, ts: int, ttl: int, now: int)
    requires Inv(w) && ReaderCan(w, RunHydrate(id, ts, ttl))
    ensures Inv(OnHydrate(w, id, ts, ttl, now))
  {
    if !HydrateFills(w.slot) {
      SkippingKeepsInv(w, id, ts, ttl, now);
    } else if Clean(w) {
      FillingKeepsInv(w, id, ts, ttl, now);
    }
  }

  lemma ExpireKeepsInv(w: World, now: int)
    requires Inv(w) && CanExpire(w, now)
    ensures Inv(OnExpire(w))
  {
  }

  lemma DlqDrainKeepsInv(w: World)
    requires Inv(w) && DlqCan(w, DlqDrain)
    ensures Inv(OnDlqDrain(w))
  {
  }

  lemma DlqApplyKeepsInv(w: World)
    requires Inv(w) && DlqCan(w, DlqApply)
    ensures Inv(OnDlqApply(w))
  {
  }

  lemma DlqDeleteKeepsInv(w: World, discard: bool)
    requires Inv(w) && DlqCan(w, DlqDelete(discard))
    ensures Inv(OnDlqDelete(w, discard))
  {
  }

  lemma DlqPurgeKeepsInv(w: World)
    requires Inv(w) && DlqCan(w, DlqPurge)
    ensures Inv(OnDlqPurge(w))
  {
  }

  lemma ProbeKeepsInv(w: World, id: nat)
    requires Inv(w) && DegradedCan(w, Probe(id))
    ensures Inv(OnProbe(w, id))
  {
  }

  lemma DirectWriteKeepsInv(w: World, id: nat, payload: Payload)
    requires Inv(w) && DegradedCan(w, DirectWrite(id, payload))
    ensures Inv(OnDirectWrite(w, id, payload))
  {
  }

  // ── All together ───────────────────────────────────────────────────────────

  lemma WriterKeepsInv(w: World, e: WriterStep, now: int)
    requires Inv(w)
    ensures Inv(WriterNext(w, e, now))
  {
    match e
    case Plain(payload, ts) => WriteKeepsInv(w, payload, ts);
    case Dedup(payload, ts, ttl) => WriteDedupKeepsInv(w, payload, ts, ttl, now);
  }

  lemma FlusherKeepsInv(w: World, e: FlusherStep, now: int)
    requires Inv(w) && FlusherCan(w, e)
    ensures Inv(FlusherNext(w, e, now))
  {
    match e
    case Drain => DrainKeepsInv(w);
    case SinkApply => SinkApplyKeepsInv(w);
    case Resolve(fate) => ResolveKeepsInv(w, fate);
    case RunCommit(ttl, expiry) => CommitKeepsInv(w, ttl, expiry, now);
    case RunDeadLetter(at, reason) => DeadLetterKeepsInv(w, at, reason, now);
    case Abandon => AbandonKeepsInv(w);
  }

  lemma ReaderKeepsInv(w: World, e: ReaderStep, now: int)
    requires Inv(w) && ReaderCan(w, e)
    ensures Inv(ReaderNext(w, e, now))
  {
    match e
    case SourceRead(id) => SourceReadKeepsInv(w, id);
    case RunHydrate(id, ts, ttl) => HydrateKeepsInv(w, id, ts, ttl, now);
    case Refresh(ttl, expiry) => RefreshKeepsInv(w, ttl, expiry, now);
  }

  lemma DlqKeepsInv(w: World, e: DlqStep)
    requires Inv(w) && DlqCan(w, e)
    ensures Inv(DlqNext(w, e))
  {
    match e
    case DlqDrain => DlqDrainKeepsInv(w);
    case DlqApply => DlqApplyKeepsInv(w);
    case DlqDelete(discard) => DlqDeleteKeepsInv(w, discard);
    case DlqAbandon => DlqAbandonKeepsInv(w);
    case DlqPurge => DlqPurgeKeepsInv(w);
  }

  lemma DegradedKeepsInv(w: World, e: DegradedStep)
    requires Inv(w) && DegradedCan(w, e)
    ensures Inv(DegradedNext(w, e))
  {
    match e
    case Probe(id) => ProbeKeepsInv(w, id);
    case DirectWrite(id, payload) => DirectWriteKeepsInv(w, id, payload);
  }

  /** Every event of every goroutine keeps the invariant. */
  lemma StepKeepsInv(w: World, e: Event, now: int)
    requires Inv(w) && Enabled(w, e, now)
    ensures Inv(Next(w, e, now))
  {
    match e
    case Writer(p) => WriterKeepsInv(w, p, now);
    case Flusher(f) => FlusherKeepsInv(w, f, now);
    case Reader(r) => ReaderKeepsInv(w, r, now);
    case Dlq(d) => DlqKeepsInv(w, d);
    case Degraded(g) => DegradedKeepsInv(w, g);
    case Expire => ExpireKeepsInv(w, now);
  }

  // ── Progress of the history ────────────────────────────────────────────────

  /** Hazards are never forgotten. */
  predicate HazardsGrow(a: Hazards, b: Hazards) {
    && (a.overtook ==> b.overtook) && (a.clobbered ==> b.clobbered) && (a.misfired ==> b.misfired)
    && (a.late ==> b.late) && (a.hidden ==> b.hidden) && (a.outran ==> b.outran)
    && (a.revived ==> b.revived) && (a.empty ==> b.empty) && (a.mixed ==> b.mixed)
  }

  /** History only grows and, while the run is clean, the record only moves to later writes. */
  predicate Advances(w: World, w': World) {
    && w.hist <= w'.hist && w.discarded <= w'.discarded
    && w.origin == w'.origin
    && HazardsGrow(w.hz, w'.hz)
    && (Clean(w') ==> w.snum <= w'.snum)
  }

  lemma WriterAdvances(w: World, e: WriterStep, now: int)
    ensures Advances(w, WriterNext(w, e, now)) && |WriterNext(w, e, now).hist| <= |w.hist| + 1
  {
    match e
    case Plain(payload, ts) =>
    case Dedup(payload, ts, ttl) =>
  }

  lemma DeadLetterAdvances(w: World, at: int, reason: string, now: int)
    requires w.flight.Some?
    ensures Advances(w, OnDeadLetter(w, at, reason, now)) && OnDeadLetter(w, at, reason, now).hist == w.hist
  {
  }

  lemma FlusherAdvances(w: World, e: FlusherStep, now: int)
    requires FlusherCan(w, e)
    requires CanApply(w) && Clean(w) ==> w.snum <= w.flight.value.num
    ensures Advances(w, FlusherNext(w, e, now)) && FlusherNext(w, e, now).hist == w.hist
  {
    match e
    case SinkApply =>
    case RunDeadLetter(at, reason) => DeadLetterAdvances(w, at, reason, now);
    case _ => assert FlusherNext(w, e, now).hz == w.hz;
  }

  lemma ReaderAdvances(w: World, e: ReaderStep, now: int)
    requires ReaderCan(w, e)
    ensures Advances(w, ReaderNext(w, e, now)) && ReaderNext(w, e, now).hist == w.hist
  {
  }

  lemma DlqAdvances(w: World, e: DlqStep)
    requires Inv(w) && DlqCan(w, e)
    ensures Advances(w, DlqNext(w, e)) && DlqNext(w, e).hist == w.hist
  {
    match e
    case DlqDrain =>
    case DlqApply => DlqApplyAdvances(w);
    case DlqDelete(discard) =>
    case DlqAbandon =>
    case DlqPurge =>
  }

  lemma DlqApplyAdvances(w: World)
    requires Inv(w) && DlqCan(w, DlqApply)
    ensures Advances(w, OnDlqApply(w))
  {
  }

  lemma DegradedAdvances(w: World, e: DegradedStep)
    requires Inv(w) && DegradedCan(w, e)
    ensures Advances(w, DegradedNext(w, e)) && |DegradedNext(w, e).hist| <= |w.hist| + 1
  {
  }

  lemma StepAdvances(w: World, e: Event, now: int)
    requires Inv(w) && Enabled(w, e, now)
    ensures Advances(w, Next(w, e, now)) && |Next(w, e, now).hist| <= |w.hist| + 1
  {
    match e
    case Writer(p) => WriterAdvances(w, p, now);
    case Flusher(f) => FlusherAdvances(w, f, now);
    case Reader(r) => ReaderAdvances(w, r, now);
    case Dlq(d) => DlqAdvances(w, d);
    case Degraded(g) => DegradedAdvances(w, g);
    case Expire =>
  }

  lemma AdvancesIsTransitive(a: World, b: World, c: World)
    requires Advances(a, b) && Advances(b, c)
    ensures Advances(a, c)
  {
  }

  // ── What keeps a journal entry ─────────────────────────────────────────────

  /** Events after which the journal may hold nothing, or nothing of what it held. */
  predicate RemovesEntry(e: Event) {
    e.Expire? || (e.Dlq? && e.dlq.DlqDelete?)
  }

  lemma FlusherKeepsEntry(w: World, e: FlusherStep, now: int)
    requires FlusherCan(w, e) && w.slot.Stored().Some?
    ensures var w' := FlusherNext(w, e, now);
            w'.slot.Stored() == w.slot.Stored() && w'.jnum == w.jnum && w'.replay == w.replay && w'.hist == w.hist
  {
  }

  lemma ReaderKeepsEntry(w: World, e: ReaderStep, now: int)
    requires ReaderCan(w, e) && w.slot.Stored().Some?
    ensures var w' := ReaderNext(w, e, now);
            w'.slot.Stored() == w.slot.Stored() && w'.jnum == w.jnum && w'.replay == w.replay && w'.hist == w.hist
  {
  }

  /** Only a journal write, an expiry and a DLQ deletion change what the journal holds once it holds something. */
  lemma EntryStays(w: World, e: Event, now: int)
    requires Enabled(w, e, now) && w.slot.Stored().Some?
    requires !RemovesEntry(e) && !e.Writer?
    ensures Next(w, e, now).slot.Stored() == w.slot.Stored()
  {
    match e
    case Flusher(f) => FlusherKeepsEntry(w, f, now);
    case Reader(r) => ReaderKeepsEntry(w, r, now);
    case Dlq(d) =>
    case Degraded(g) =>
  }

  /** The journal holds the write the DLQ processor drained, or a later one. */
  predicate KeepsUp(w: World) {
    w.slot.Stored().Some? && w.jnum <= |w.hist| && (w.replay.Some? ==> w.replay.value.num <= w.jnum)
  }

  lemma WriterKeepsUp(w: World, e: WriterStep, now: int)
    requires KeepsUp(w)
    ensures KeepsUp(WriterNext(w, e, now))
  {
  }

  lemma StepKeepsUp(w: World, e: Event, now: int)
    requires KeepsUp(w) && Enabled(w, e, now) && !RemovesEntry(e)
    ensures KeepsUp(Next(w, e, now))
  {
    match e
    case Writer(p) => WriterKeepsUp(w, p, now);
    case Flusher(f) => FlusherKeepsEntry(w, f, now);
    case Reader(r) => ReaderKeepsEntry(w, r, now);
    case Dlq(d) =>
    case Degraded(g) =>
  }
}
