/**
  One correlation key seen by every goroutine at once: its slot in Redis, its record in the datastore,
  and the operations in progress on it. An event is one atomic step of one of them: a script, a single
  Redis read, a datastore read or write. Events interleave freely.

  The history variables number the accepted writes of the key 1, 2, 3, ... and say which of them the
  journal, the datastore and each operation in progress holds. Nothing in the real state reads them.
  */
module World {
  import opened Optional
  import opened Redis

  /** What the flush engine decides about a drained record. */
  datatype Fate = OfferCommit | OfferDeadLetter | LeaveDirty

  datatype Stage = InSink | Committing | DeadLettering

  /** A record of the batch in flight: what was drained, and how far the flush got. */
  datatype Flight = Flight(payload: Option<Payload>, seq_: Option<nat>, stage: Stage, applied: bool, num: nat)

  /** A dead-letter record the DLQ processor holds between DrainDLQ and CommitDLQKeys. */
  datatype Replay = Replay(payload: Payload, applied: bool, num: nat)

  /**
    A payload read from the Source whose hydration script has not run yet. gap: the journal's payload was
    removed since; foreign: the record was written since by something other than the flusher.
    */
  datatype Hydration = Hydration(payload: Payload, num: nat, gap: bool, foreign: bool)

  /**
    Things that have happened at least once in the run.
      overtook:   a write accepted since a degraded writer's probe was still pending when it wrote the datastore
      clobbered:  the DLQ processor deleted a hash that was dirty, or dropped from the DLQ a payload that was
                  neither the one it drained nor in the store
      misfired:   the DLQ processor upserted an older write than the store held, or a later one than the batch in
                  flight, which could then still overwrite it
      late:       a hydration wrote a payload that was no longer the record
      hidden:     a degraded write reached the datastore while the journal held another payload
      outran:     a DLQ upsert put the datastore ahead of the payload the journal held
      revived:    a hydration filled the hash of a key still listed in the DLQ
      empty:      an empty payload was written
      mixed:      a plain write replaced a payload whose content hash it did not match
    */
  datatype Hazards = Hazards(overtook: bool, clobbered: bool, misfired: bool, late: bool, hidden: bool,
                             outran: bool, revived: bool, empty: bool, mixed: bool)

  const NO_HAZARDS := Hazards(false, false, false, false, false, false, false, false, false)

  datatype World = World(
    slot: Slot,
    store: Option<Payload>,
    flight: Option<Flight>,
    replay: Option<Replay>,
    hydrations: map<nat, Hydration>,
    probes: map<nat, nat>,       // degraded writers past their probe -> writes accepted by then
    // history
    origin: Option<Payload>,     // the record before the run
    hist: seq<Payload>,          // accepted writes, oldest first
    acked: Option<Payload>,      // the last payload acknowledged to a writer
    jnum: nat,                   // the write the journal's payload comes from (0: the original record)
    snum: nat,                   // the write the record comes from
    parked: nat,                 // the write last dead-lettered
    discarded: nat,              // the last unstored write given up by the DLQ processor or the dead-letter TTL
    hz: Hazards)
  {
    /** The payload of write n; write 0 is the record before the run. */
    function Version(n: nat): Option<Payload>
      requires n <= |hist|
    {
      if n == 0 then origin else Some(hist[n - 1])
    }

    function Latest(): Option<Payload> {
      Version(|hist|)
    }
  }

  datatype WriterStep = Plain(payload: Payload, ts: int) | Dedup(payload: Payload, ts: int, ttl: int)

  datatype FlusherStep =
    | Drain
    | SinkApply                               // the sink stores the record, before BulkWrite returns
    | Resolve(fate: Fate)                     // BulkWrite has returned, or the contract failed
    | RunCommit(ttl: int, expiry: int)
    | RunDeadLetter(at: int, reason: string)
    | Abandon                                 // a failed pipeline, an aborted batch, a crash

  datatype ReaderStep =
    | SourceRead(id: nat)
    | RunHydrate(id: nat, ts: int, ttl: int)
    | Refresh(ttl: int, expiry: int)

  datatype DlqStep =
    | DlqDrain
    | DlqApply
    | DlqDelete(discard: bool)                // discard: Ignore, or ReInsert under another key
    | DlqAbandon
    | DlqPurge                                // ZREM of a key DrainDLQ found without a payload

  datatype DegradedStep = Probe(id: nat) | DirectWrite(id: nat, payload: Payload)

  datatype Event =
    | Writer(writer: WriterStep)
    | Flusher(flusher: FlusherStep)
    | Reader(reader: ReaderStep)
    | Dlq(dlq: DlqStep)
    | Degraded(direct: DegradedStep)
    | Expire

  /**
    One flusher per band: at most one record of the key is in flight. A record is committed only if the
    sink applied it, which is what success by elimination means for a sink that reports everything it
    did not do.
    */
  predicate FlusherCan(w: World, e: FlusherStep) {
    match e
    case Drain => w.slot.dirty.Some? && w.flight.None?
    case SinkApply => CanApply(w)
    case Resolve(fate) =>
      && w.flight.Some? && w.flight.value.stage == InSink
      && (fate == OfferCommit ==> w.flight.value.payload.Some? && w.flight.value.applied)
    case RunCommit(_, _) => w.flight.Some? && w.flight.value.stage == Committing
    case RunDeadLetter(_, _) => w.flight.Some? && w.flight.value.stage == DeadLettering
    case Abandon => w.flight.Some?
  }

  predicate ReaderCan(w: World, e: ReaderStep) {
    match e
    case SourceRead(id) => id !in w.hydrations && w.store.Some?
    case RunHydrate(id, _, _) => id in w.hydrations
    case Refresh(_, _) => true
  }

  /** One DLQ processor: at most one record of the key is being replayed. */
  predicate DlqCan(w: World, e: DlqStep) {
    match e
    case DlqDrain => w.slot.dead.Some? && w.replay.None? && w.slot.Visible().Some?
    case DlqApply => w.replay.Some?
    case DlqDelete(discard) => w.replay.Some? && (discard || w.replay.value.applied)
    case DlqAbandon => w.replay.Some?
    case DlqPurge => w.slot.dead.Some? && w.replay.None?
  }

  predicate DegradedCan(w: World, e: DegradedStep) {
    match e
    case Probe(id) => id !in w.probes
    case DirectWrite(id, _) => id in w.probes
  }

  predicate CanExpire(w: World, now: int) {
    w.slot.entry.Some? && w.slot.entry.value.expireAt.Some? && w.slot.entry.value.expireAt.value < now
  }

  predicate Enabled(w: World, e: Event, now: int) {
    match e
    case Writer(_) => true
    case Flusher(f) => FlusherCan(w, f)
    case Reader(r) => ReaderCan(w, r)
    case Dlq(d) => DlqCan(w, d)
    case Degraded(g) => DegradedCan(w, g)
    case Expire => CanExpire(w, now)
  }

  /**
    Which steps are possible. Writes, refreshes, probes and Source reads of a record always are. A drain needs a dirty
    key that no batch holds; the sink can apply what it has been given until BulkWrite has returned; a decision follows
    on the return, and the script on the decision. A hydration follows a read, a DLQ step a DLQ drain of a visible dead
    letter, and a hash expires after its time.
    */
  lemma PossibleSteps(w: World, now: int, id: nat, payload: Payload, n: int, reason: string)
    ensures Enabled(w, Writer(Plain(payload, n)), now) && Enabled(w, Writer(Dedup(payload, n, n)), now)
    ensures Enabled(w, Reader(Refresh(n, n)), now)
    ensures Enabled(w, Flusher(Drain), now) <==> w.slot.dirty.Some? && w.flight.None?
    ensures Enabled(w, Flusher(SinkApply), now) <==>
              w.flight.Some? && w.flight.value.stage == InSink && w.flight.value.payload.Some?
    ensures w.flight.Some? && w.flight.value.stage == InSink ==>
              Enabled(w, Flusher(Resolve(LeaveDirty)), now) && Enabled(w, Flusher(Resolve(OfferDeadLetter)), now)
    ensures Enabled(w, Flusher(Resolve(OfferCommit)), now) <==>
              w.flight.Some? && w.flight.value.stage == InSink && w.flight.value.payload.Some? && w.flight.value.applied
    ensures Enabled(w, Flusher(RunCommit(n, n)), now) <==> w.flight.Some? && w.flight.value.stage == Committing
    ensures Enabled(w, Flusher(RunDeadLetter(n, reason)), now) <==> w.flight.Some? && w.flight.value.stage == DeadLettering
    ensures Enabled(w, Flusher(Abandon), now) <==> w.flight.Some?
    ensures Enabled(w, Reader(SourceRead(id)), now) <==> id !in w.hydrations && w.store.Some?
    ensures Enabled(w, Reader(RunHydrate(id, n, n)), now) <==> id in w.hydrations
    ensures Enabled(w, Dlq(DlqDrain), now) <==>
              w.slot.dead.Some? && w.replay.None? && w.slot.Stored().Some? && w.slot.Stored() != Some([])
    ensures Enabled(w, Dlq(DlqPurge), now) <==> w.slot.dead.Some? && w.replay.None?
    ensures Enabled(w, Dlq(DlqApply), now) <==> w.replay.Some?
    ensures Enabled(w, Dlq(DlqDelete(true)), now) <==> w.replay.Some?
    ensures Enabled(w, Dlq(DlqDelete(false)), now) <==> w.replay.Some? && w.replay.value.applied
    ensures Enabled(w, Dlq(DlqAbandon), now) <==> w.replay.Some?
    ensures Enabled(w, Degraded(Probe(id)), now) <==> id !in w.probes
    ensures Enabled(w, Degraded(DirectWrite(id, payload)), now) <==> id in w.probes
    ensures Enabled(w, Expire, now) <==>
              w.slot.entry.Some? && w.slot.entry.value.expireAt.Some? && w.slot.entry.value.expireAt.value < now
  {
  }

  /** A record of the key is with the sink, which may still apply it. */
  predicate CanApply(w: World) {
    w.flight.Some? && w.flight.value.stage == InSink && w.flight.value.payload.Some?
  }

  /** HasPendingVersion. */
  predicate Pending(s: Slot) {
    s.dirty.Some? || s.dead.Some?
  }

  function Max(a: nat, b: nat): nat {
    if a < b then b else a
  }

  function WithGap(hs: map<nat, Hydration>): map<nat, Hydration> {
    map id | id in hs :: hs[id].(gap := true)
  }

  function WithForeign(hs: map<nat, Hydration>): map<nat, Hydration> {
    map id | id in hs :: hs[id].(foreign := true)
  }

  /** The bookkeeping of a payload accepted by the journal. */
  function Accepted(w: World, payload: Payload): World {
    w.(hist := w.hist + [payload], acked := Some(payload), jnum := |w.hist| + 1,
       hz := w.hz.(empty := w.hz.empty || payload == []))
  }

  function OnWrite(w: World, payload: Payload, ts: int): World {
    var w' := Accepted(w.(slot := Written(w.slot, payload, ts)), payload);
    w'.(hz := w'.hz.(mixed := w.hz.mixed || (w.slot.Hash().Some? && !IsDuplicate(w.slot, payload))))
  }

  function OnWriteDedup(w: World, payload: Payload, ts: int, ttl: int, now: int): World {
    var w' := w.(slot := DedupWrite(w.slot, payload, ts, ttl, now));
    if IsDuplicate(w.slot, payload) then w'.(acked := Some(payload)) else Accepted(w', payload)
  }

  function OnDrain(w: World): World {
    w.(flight := Some(Flight(w.slot.Visible(), w.slot.Seq(), InSink, false, w.jnum)))
  }

  function OnSinkApply(w: World): World
    requires w.flight.Some?
  {
    var f := w.flight.value;
    w.(store := f.payload, snum := f.num, flight := Some(f.(applied := true)))
  }

  function OnResolve(w: World, fate: Fate): World
    requires w.flight.Some?
  {
    match fate
    case OfferCommit => w.(flight := Some(w.flight.value.(stage := Committing)))
    case OfferDeadLetter => w.(flight := Some(w.flight.value.(stage := DeadLettering)))
    case LeaveDirty => w.(flight := None)
  }

  function OnCommit(w: World, ttl: int, expiry: int, now: int): World
    requires w.flight.Some?
  {
    w.(slot := Commit(w.slot, w.flight.value.seq_, ttl, expiry, now), flight := None)
  }

  function OnDeadLetter(w: World, at: int, reason: string, now: int): World
    requires w.flight.Some?
  {
    var w' := w.(slot := DeadLetter(w.slot, w.flight.value.seq_, at, reason, now), flight := None);
    if w.slot.Seq() == w.flight.value.seq_ then w'.(parked := w.jnum) else w'
  }

  function OnSourceRead(w: World, id: nat): World
    requires w.store.Some?
  {
    w.(hydrations := w.hydrations[id := Hydration(w.store.value, w.snum, false, false)])
  }

  function OnHydrate(w: World, id: nat, ts: int, ttl: int, now: int): World
    requires id in w.hydrations
  {
    var h := w.hydrations[id];
    var w' := w.(slot := Hydrate(w.slot, h.payload, ts, ttl, now), hydrations := w.hydrations - {id});
    if HydrateFills(w.slot)
    then w'.(jnum := h.num,
             hz := w.hz.(late := w.hz.late || h.num != w.snum,
                         revived := w.hz.revived || w.slot.dead.Some?))
    else w'
  }

  function OnExpire(w: World): World {
    w.(slot := w.slot.(entry := None),
       hydrations := WithGap(w.hydrations),
       discarded := if w.slot.dead.Some? && w.parked == w.jnum && w.snum < w.jnum then Max(w.jnum, w.discarded)
                    else w.discarded)
  }

  function OnDlqDrain(w: World): World
    requires w.slot.Visible().Some?
  {
    w.(replay := Some(Replay(w.slot.Visible().value, false, w.jnum)))
  }

  function OnDlqApply(w: World): World
    requires w.replay.Some?
  {
    var r := w.replay.value;
    w.(store := Some(r.payload), snum := r.num, replay := Some(r.(applied := true)),
       hydrations := WithForeign(w.hydrations),
       hz := w.hz.(outran := w.hz.outran || (w.slot.Stored().Some? && w.jnum < r.num),
                   misfired := w.hz.misfired || r.num < w.snum || (CanApply(w) && w.flight.value.num < r.num)))
  }

  function OnDlqDelete(w: World, discard: bool): World
    requires w.replay.Some?
  {
    w.(slot := Redis.DlqDelete(w.slot), replay := None,
       hydrations := WithGap(w.hydrations),
       discarded := if discard && w.snum < w.replay.value.num then Max(w.replay.value.num, w.discarded) else w.discarded,
       hz := w.hz.(clobbered := w.hz.clobbered || w.slot.dirty.Some?
                                || (w.slot.Stored().Some? && w.snum < w.jnum && w.jnum != w.replay.value.num)))
  }

  function OnDlqPurge(w: World): World {
    w.(slot := w.slot.(dead := None),
       hz := w.hz.(clobbered := w.hz.clobbered || (w.slot.Visible().Some? && w.slot.dirty.None? && w.snum < w.jnum)))
  }

  function OnProbe(w: World, id: nat): World {
    if Pending(w.slot) then w else w.(probes := w.probes[id := |w.hist|])
  }

  function OnDirectWrite(w: World, id: nat, payload: Payload): World
    requires id in w.probes
  {
    w.(store := Some(payload), snum := |w.hist| + 1,
       hist := w.hist + [payload], acked := Some(payload),
       jnum := if !Pending(w.slot) && w.slot.Stored() == Some(payload) then |w.hist| + 1 else w.jnum,
       probes := w.probes - {id},
       hydrations := WithForeign(w.hydrations),
       hz := w.hz.(hidden := w.hz.hidden || (w.slot.Stored().Some? && w.slot.Stored() != Some(payload)),
                   overtook := w.hz.overtook || (w.probes[id] != |w.hist| && Pending(w.slot)),
                   empty := w.hz.empty || payload == []))
  }

  function WriterNext(w: World, e: WriterStep, now: int): World {
    match e
    case Plain(payload, ts) => OnWrite(w, payload, ts)
    case Dedup(payload, ts, ttl) => OnWriteDedup(w, payload, ts, ttl, now)
  }

  function FlusherNext(w: World, e: FlusherStep, now: int): World
    requires FlusherCan(w, e)
  {
    match e
    case Drain => OnDrain(w)
    case SinkApply => OnSinkApply(w)
    case Resolve(fate) => OnResolve(w, fate)
    case RunCommit(ttl, expiry) => OnCommit(w, ttl, expiry, now)
    case RunDeadLetter(at, reason) => OnDeadLetter(w, at, reason, now)
    case Abandon => w.(flight := None)
  }

  function ReaderNext(w: World, e: ReaderStep, now: int): World
    requires ReaderCan(w, e)
  {
    match e
    case SourceRead(id) => OnSourceRead(w, id)
    case RunHydrate(id, ts, ttl) => OnHydrate(w, id, ts, ttl, now)
    case Refresh(ttl, expiry) => w.(slot := ExtendTtl(w.slot, ttl, expiry, now))
  }

  function DlqNext(w: World, e: DlqStep): World
    requires DlqCan(w, e)
  {
    match e
    case DlqDrain => OnDlqDrain(w)
    case DlqApply => OnDlqApply(w)
    case DlqDelete(discard) => OnDlqDelete(w, discard)
    case DlqAbandon => w.(replay := None)
    case DlqPurge => OnDlqPurge(w)
  }

  function DegradedNext(w: World, e: DegradedStep): World
    requires DegradedCan(w, e)
  {
    match e
    case Probe(id) => OnProbe(w, id)
    case DirectWrite(id, payload) => OnDirectWrite(w, id, payload)
  }

  function Next(w: World, e: Event, now: int): World
    requires Enabled(w, e, now)
  {
    match e
    case Writer(p) => WriterNext(w, p, now)
    case Flusher(f) => FlusherNext(w, f, now)
    case Reader(r) => ReaderNext(w, r, now)
    case Dlq(d) => DlqNext(w, d)
    case Degraded(g) => DegradedNext(w, g)
    case Expire => OnExpire(w)
  }

  /**
    A run starts with the key absent from Redis, or dirty with a payload written before sequencing
    existed (no 'v').
    */
  predicate Initial(w: World) {
    && w.store == w.origin && w.snum == 0 && w.parked == 0 && w.discarded == 0
    && w.flight.None? && w.replay.None? && w.hydrations == map[] && w.probes == map[]
    && w.slot.dead.None?
    && w.hz == NO_HAZARDS
    && if w.slot.dirty.None? then
         w.slot.entry.None? && w.hist == [] && w.acked.None? && w.jnum == 0
       else
         && w.slot.Persistent() && w.slot.Seq().None? && w.slot.Hash().None?
         && w.slot.Stored().value != []
         && w.hist == [w.slot.Stored().value] && w.acked == w.slot.Stored() && w.jnum == 1
  }

  /** What the quieter steps do: a refresh only refreshes, a probe and a Source read take note, and giving up only forgets. */
  lemma QuietSteps(w: World, id: nat, ttl: int, expiry: int, now: int)
    ensures ReaderNext(w, Refresh(ttl, expiry), now) == w.(slot := ExtendTtl(w.slot, ttl, expiry, now))
    ensures id !in w.hydrations && w.store.Some? ==>
              var w' := ReaderNext(w, SourceRead(id), now);
              && id in w'.hydrations && Some(w'.hydrations[id].payload) == w.store
              && w'.slot == w.slot && w'.store == w.store && w'.hist == w.hist
    ensures id !in w.probes ==>
              var w' := DegradedNext(w, Probe(id));
              && (id in w'.probes <==> w.slot.dirty.None? && w.slot.dead.None?)
              && w'.slot == w.slot && w'.store == w.store && w'.hist == w.hist
    ensures w.flight.Some? ==> FlusherNext(w, Abandon, now) == w.(flight := None)
    ensures w.replay.Some? ==> DlqNext(w, DlqAbandon) == w.(replay := None)
  {
  }
}
