/** One flush cycle of a band: drain, contract, BulkWrite, and the fate of every record. */
module Engine {
  import opened Optional
  import opened Redis
  import opened Bands
  import opened Journal
  import opened Sink
  import opened World

  datatype FlushRecord = FlushRecord(key: Key, payload: Option<Payload>, seq_: Option<nat>)

  const MISSING := "payload_missing_before_flush"
  const VIOLATION := "contract_violation"
  const PERMANENT := "permanent_sink_error"

  predicate DistinctKeys(records: seq<FlushRecord>) {
    forall i, j :: 0 <= i < j < |records| ==> records[i].key != records[j].key
  }

  /** The record a slot yields to DrainBand: an empty payload is reported as a missing one. */
  function Drained(k: Key, s: Slot): FlushRecord {
    FlushRecord(k, s.Visible(), s.Seq())
  }

  /** The record of k in a batch. */
  function RecordOf(records: seq<FlushRecord>, k: Key): (r: Option<FlushRecord>)
    ensures r.Some? ==> r.value in records && r.value.key == k
    ensures r.None? ==> forall i :: 0 <= i < |records| ==> records[i].key != k
  {
    if records == [] then None
    else if records[|records| - 1].key == k then Some(records[|records| - 1])
    else RecordOf(records[..|records| - 1], k)
  }

  lemma {:induction false} RecordOfIsUnique(records: seq<FlushRecord>, i: nat)
    requires DistinctKeys(records) && i < |records|
    ensures RecordOf(records, records[i].key) == Some(records[i])
  {
    if i < |records| - 1 {
      RecordOfIsUnique(records[..|records| - 1], i);
    }
  }

  lemma RecordOfAppend(records: seq<FlushRecord>, r: FlushRecord, k: Key)
    ensures RecordOf(records + [r], k) == if r.key == k then Some(r) else RecordOf(records, k)
  {
    assert (records + [r])[..|records|] == records;
  }

  /** The reply of BulkWrite: None is a top-level error. */
  type Reply = Option<seq<SinkError>>

  predicate Usable(reply: Reply) {
    reply.Some? && Attributed(reply.value)
  }

  /** A record that reaches the sink. */
  predicate IsModel(r: FlushRecord, accepts: (Key, Payload) -> bool) {
    r.payload.Some? && accepts(r.key, r.payload.value)
  }

  /** The one fate of a drained record. */
  function FateOf(r: FlushRecord, accepts: (Key, Payload) -> bool, reply: Reply): Fate {
    if !IsModel(r, accepts) then OfferDeadLetter
    else if !Usable(reply) then LeaveDirty
    else if ReportsPermanent(reply.value, r.key) then OfferDeadLetter
    else if Reports(reply.value, r.key) then LeaveDirty
    else OfferCommit
  }

  function ReasonOf(r: FlushRecord, accepts: (Key, Payload) -> bool): string {
    if r.payload.None? then MISSING else if accepts(r.key, r.payload.value) then PERMANENT else VIOLATION
  }

  /** The seqs map of flushBand: a key it does not know reads as "". */
  function SeqFor(records: seq<FlushRecord>, k: Key): Option<nat> {
    var r := RecordOf(records, k);
    if r.Some? && r.value.payload.Some? then r.value.seq_ else None
  }

  // What each phase of flushBand does to the slot of k.

  function AfterContract(s: Slot, r: Option<FlushRecord>, accepts: (Key, Payload) -> bool, now: int): Slot {
    if r.Some? && r.value.payload.Some? && !IsModel(r.value, accepts)
    then DeadLetter(s, r.value.seq_, now, VIOLATION, now) else s
  }

  function AfterMissing(s: Slot, r: Option<FlushRecord>, now: int): Slot {
    if r.Some? && r.value.payload.None? then DeadLetter(s, r.value.seq_, now, MISSING, now) else s
  }

  predicate IsSuccess(r: Option<FlushRecord>, accepts: (Key, Payload) -> bool, errors: seq<SinkError>) {
    r.Some? && IsModel(r.value, accepts) && !Reports(errors, r.value.key)
  }

  function AfterSink(s: Slot, records: seq<FlushRecord>, k: Key, accepts: (Key, Payload) -> bool,
                     errors: seq<SinkError>, ttl: int, now: int): Slot
  {
    var r := RecordOf(records, k);
    if IsSuccess(r, accepts, errors) then Commit(s, r.value.seq_, ttl, now + ttl, now)
    else if ReportsPermanent(errors, k) then DeadLetter(s, SeqFor(records, k), now, PERMANENT, now)
    else s
  }

  function AfterFlush(s: Slot, records: seq<FlushRecord>, k: Key, accepts: (Key, Payload) -> bool,
                      reply: Reply, ttl: int, now: int): Slot
  {
    var r := RecordOf(records, k);
    var s' := AfterMissing(AfterContract(s, r, accepts, now), r, now);
    if Usable(reply) && (exists m :: m in records && IsModel(m, accepts))
    then AfterSink(s', records, k, accepts, reply.value, ttl, now)
    else s'
  }

  // ── The promises ───────────────────────────────────────────────────────────

  /** What a key's one fate makes of its slot. */
  function Fated(s: Slot, r: Option<FlushRecord>, accepts: (Key, Payload) -> bool, reply: Reply, ttl: int, now: int): Slot {
    if r.None? then s
    else
      match FateOf(r.value, accepts, reply)
      case OfferCommit => Commit(s, r.value.seq_, ttl, now + ttl, now)
      case OfferDeadLetter => DeadLetter(s, r.value.seq_, now, ReasonOf(r.value, accepts), now)
      case LeaveDirty => s
  }

  /**
    Flush conservation: every drained record meets exactly its one fate, and no other key is touched, whatever
    the reply. Only a usable reply must not call a failure of k permanent unless it was given a model of k.
    */
  lemma EachRecordMeetsOneFate(s: Slot, records: seq<FlushRecord>, k: Key, accepts: (Key, Payload) -> bool,
                               reply: Reply, ttl: int, now: int)
    requires DistinctKeys(records)
    requires Usable(reply) && ReportsPermanent(reply.value, k) ==>
               exists m :: m in records && m.key == k && IsModel(m, accepts)
    ensures AfterFlush(s, records, k, accepts, reply, ttl, now)
         == Fated(s, RecordOf(records, k), accepts, reply, ttl, now)
  {
    if Usable(reply) && ReportsPermanent(reply.value, k) {
      var m :| m in records && m.key == k && IsModel(m, accepts);
      var i :| 0 <= i < |records| && records[i] == m;
      RecordOfIsUnique(records, i);
    }
  }

  /**
    A top-level error, or an error with an empty key anywhere in the reply, commits nothing and condemns
    nothing: each model's key keeps its slot, and so does each key outside the batch. Only records that never
    reached the sink are dead-lettered.
    */
  lemma UnusableReplyCommitsNothing(s: Slot, records: seq<FlushRecord>, k: Key, accepts: (Key, Payload) -> bool,
                                    reply: Reply, ttl: int, now: int)
    requires DistinctKeys(records)
    requires reply.None? || Reports(reply.value, [])
    ensures AfterFlush(s, records, k, accepts, reply, ttl, now)
         == match RecordOf(records, k)
            case Some(r) => if IsModel(r, accepts) then s else DeadLetter(s, r.seq_, now, ReasonOf(r, accepts), now)
            case None => s
  {
    if reply.Some? {
      var e :| e in reply.value && e.key == [];
      assert !Usable(reply);
    }
    EachRecordMeetsOneFate(s, records, k, accepts, reply, ttl, now);
  }

  /**
    Success by elimination is sound for an honest sink: a record offered for commit was applied. This is
    the guard the protocol puts on committing a record.
    */
  lemma CommitOffersAreApplied(r: FlushRecord, accepts: (Key, Payload) -> bool, models: seq<Key>,
                               applied: set<Key>, errors: seq<SinkError>)
    requires r.key in models && Honest(models, applied, errors)
    requires FateOf(r, accepts, Some(errors)) == OfferCommit
    ensures r.payload.Some? && r.key in applied
  {
  }

  /**
    CheckAttribution does not look whose key an error names. The dead-letter script is run on keys of
    the batch only, exactly when every permanent error names one; a foreign key gets the sequence "",
    which matches a record from before sequencing and any key without a hash.
    */
  lemma ForeignKeyIsDeadLetteredIff(s: Slot, records: seq<FlushRecord>, k: Key, accepts: (Key, Payload) -> bool,
                                    reply: Reply, ttl: int, now: int)
    requires RecordOf(records, k).None? && s.dead.None?
    requires exists m :: m in records && IsModel(m, accepts)
    ensures AfterFlush(s, records, k, accepts, reply, ttl, now).dead.Some?
       <==> Usable(reply) && ReportsPermanent(reply.value, k) && s.Seq().None?
  {
  }

  // ── What becomes of a record, by the sink's reply ──────────────────────────

  /** The batch holds a model of k: a record with this payload that the contract accepts. */
  predicate SentAs(records: seq<FlushRecord>, k: Key, payload: Payload, seq_: Option<nat>, accepts: (Key, Payload) -> bool) {
    DistinctKeys(records) && FlushRecord(k, Some(payload), seq_) in records && accepts(k, payload)
  }

  lemma SentIsRecord(records: seq<FlushRecord>, r: FlushRecord)
    requires DistinctKeys(records) && r in records
    ensures RecordOf(records, r.key) == Some(r)
  {
    var i :| 0 <= i < |records| && records[i] == r;
    RecordOfIsUnique(records, i);
  }

  /**
    A failure that is not for good leaves the key as it is, dirty and to be retried: every error that names it is
    classified as transient, or is unclassified with a code other than 11000.
    */
  lemma TransientFailureIsRetried(s: Slot, records: seq<FlushRecord>, k: Key, payload: Payload, seq_: Option<nat>,
                                  accepts: (Key, Payload) -> bool, errors: seq<SinkError>, ttl: int, now: int)
    requires SentAs(records, k, payload, seq_, accepts)
    requires forall e :: e in errors ==> e.key != []
    requires exists e :: e in errors && e.key == k
    requires forall e :: e in errors && e.key == k ==>
               e.class_ == ClassTransient || (e.class_ == ClassUnknown && e.code != 11000)
    ensures AfterFlush(s, records, k, accepts, Some(errors), ttl, now) == s
  {
    SentIsRecord(records, FlushRecord(k, Some(payload), seq_));
    PermanentByClassAndCode(errors, k);
    assert Reports(errors, k);
  }

  /**
    A failure for good moves the key to the dead-letter queue, if the drained sequence still matches: some error that
    names it is classified as permanent, or is unclassified with code 11000.
    */
  lemma PermanentFailureIsDeadLettered(s: Slot, records: seq<FlushRecord>, k: Key, payload: Payload, seq_: Option<nat>,
                                       accepts: (Key, Payload) -> bool, errors: seq<SinkError>, ttl: int, now: int)
    requires SentAs(records, k, payload, seq_, accepts)
    requires forall e :: e in errors ==> e.key != []
    requires exists e :: e in errors && e.key == k
               && (e.class_ == ClassPermanent || (e.class_ == ClassUnknown && e.code == 11000))
    requires (if s.entry.Some? then s.entry.value.v else None) == seq_
    ensures var r := AfterFlush(s, records, k, accepts, Some(errors), ttl, now);
            && r.dirty.None? && r.dead == Some(now) && r.Stored() == s.Stored()
            && r.entry.Some? && r.entry.value.failure == Some(Failure("permanent_sink_error", now))
  {
    SentIsRecord(records, FlushRecord(k, Some(payload), seq_));
    PermanentByClassAndCode(errors, k);
    assert Reports(errors, k);
    DeadLetterOutcome(s, seq_, now, "permanent_sink_error", now);
  }

  /** A model that no error names is committed, if the drained sequence still matches, and then lives for its TTL. */
  lemma UnnamedModelIsCommitted(s: Slot, records: seq<FlushRecord>, k: Key, payload: Payload, seq_: Option<nat>,
                                accepts: (Key, Payload) -> bool, errors: seq<SinkError>, ttl: int, now: int)
    requires SentAs(records, k, payload, seq_, accepts)
    requires forall e :: e in errors ==> e.key != [] && e.key != k
    requires (if s.entry.Some? then s.entry.value.v else None) == seq_ && s.entry.Some? && ttl > 0
    ensures var r := AfterFlush(s, records, k, accepts, Some(errors), ttl, now);
            && r.dirty.None? && r.dead == s.dead && r.Stored() == s.Stored()
            && r.entry.Some? && r.entry.value.expireAt == Some(now + ttl)
            && r.due == if s.indexed then Some(now + ttl) else s.due
  {
    SentIsRecord(records, FlushRecord(k, Some(payload), seq_));
    PermanentByClassAndCode(errors, k);
    CommitOutcome(s, seq_, ttl, now + ttl, now);
  }

  /** A key that was rewritten since it was drained stays as it is, whatever the reply. */
  lemma RewrittenKeyIsLeftAlone(s: Slot, records: seq<FlushRecord>, k: Key, payload: Payload, seq_: Option<nat>,
                                accepts: (Key, Payload) -> bool, reply: Reply, ttl: int, now: int)
    requires SentAs(records, k, payload, seq_, accepts)
    requires (if s.entry.Some? then s.entry.value.v else None) != seq_
    ensures AfterFlush(s, records, k, accepts, reply, ttl, now) == s
  {
    SentIsRecord(records, FlushRecord(k, Some(payload), seq_));
  }

  /**
    A record that never reaches the sink is dead-lettered, if the drained sequence still matches: one without a
    payload, or one that the write contract refuses.
    */
  lemma UnsentRecordIsDeadLettered(s: Slot, records: seq<FlushRecord>, r: FlushRecord, accepts: (Key, Payload) -> bool,
                                   reply: Reply, ttl: int, now: int)
    requires DistinctKeys(records) && r in records && (r.payload.None? || !accepts(r.key, r.payload.value))
    requires reply.Some? ==> forall e :: e in reply.value ==> e.key != r.key
    requires (if s.entry.Some? then s.entry.value.v else None) == r.seq_
    ensures var after := AfterFlush(s, records, r.key, accepts, reply, ttl, now);
            && after.dirty.None? && after.dead == Some(now) && after.Stored() == s.Stored()
            && after.entry.Some?
            && after.entry.value.failure == Some(Failure(
                 if r.payload.None? then "payload_missing_before_flush" else "contract_violation", now))
  {
    SentIsRecord(records, r);
    DeadLetterOutcome(s, r.seq_, now, if r.payload.None? then "payload_missing_before_flush" else "contract_violation", now);
  }

  /**
    The sequences that permanent failures are offered with are those of the records with a payload. A sink that calls
    a record without one failed for good changes nothing about it: it stays dead-lettered as missing.
    */
  lemma MissingStaysMissing(s: Slot, records: seq<FlushRecord>, r: FlushRecord, accepts: (Key, Payload) -> bool,
                            reply: Reply, ttl: int, now: int)
    requires DistinctKeys(records) && r in records && r.payload.None? && r.seq_.Some?
    requires s.entry.Some? && s.entry.value.v == r.seq_
    ensures var after := AfterFlush(s, records, r.key, accepts, reply, ttl, now);
            && after.dirty.None? && after.dead == Some(now)
            && after.entry.Some? && after.entry.value.failure == Some(Failure("payload_missing_before_flush", now))
  {
    SentIsRecord(records, r);
    DeadLetterOutcome(s, r.seq_, now, "payload_missing_before_flush", now);
  }

  // ── The cycle ──────────────────────────────────────────────────────────────

  /**
    DrainBand: the band's oldest dirty keys, at most maxBatch of them, each with what its hash holds.
    It has no side effects.
    */
  method DrainBand(j: Journal, band: nat, bandCount: nat, maxBatch: nat) returns (records: seq<FlushRecord>)
    requires bandCount > 0
    ensures DistinctKeys(records) && |records| <= maxBatch
    ensures forall i :: 0 <= i < |records| ==>
              && records[i].key in j.dirty && BandForKey(records[i].key, bandCount) == band
              && records[i] == Drained(records[i].key, j.SlotOf(records[i].key))
    ensures forall i, q :: 0 <= i < |records| && q in OfBand(j.dirty, band, bandCount) && RecordOf(records, q).None? ==>
              j.dirty[records[i].key] <= j.dirty[q]
    ensures |records| < maxBatch ==> forall q :: q in OfBand(j.dirty, band, bandCount) ==> RecordOf(records, q).Some?
  {
    var members := RangeByScore(OfBand(j.dirty, band, bandCount), maxBatch);
    records := [];
    for i := 0 to |members|
      invariant |records| == i
      invariant forall m :: 0 <= m < i ==> records[m] == Drained(members[m], j.SlotOf(members[m]))
    {
      var payload := None;
      if members[i] in j.entries {
        var p := j.entries[members[i]].p;
        if p.Some? && p.value != [] {
          payload := p;
        }
      }
      records := records + [FlushRecord(members[i], payload, j.SlotOf(members[i]).Seq())];
    }
    assert forall i :: 0 <= i < |members| ==> records[i].key == members[i];
    forall q | RecordOf(records, q).None?
      ensures q !in members
    {
    }
  }

  /** Run a pipeline whose keys are consistent: each listed key is served once, the others not at all. */
  lemma PipelineServes(s: Slot, calls: seq<Call>, k: Key, now: int)
    requires Consistent(calls)
    ensures (forall i :: 0 <= i < |calls| ==> calls[i].key != k) ==> AfterAll(s, calls, k, now) == s
    ensures forall i :: 0 <= i < |calls| && calls[i].key == k ==> AfterAll(s, calls, k, now) == RunCall(s, calls[i], now)
  {
    AfterSomeIsOneRun(s, calls, AllRan(|calls|), k, now);
    assert forall i :: 0 <= i < |calls| ==> AllRan(|calls|)[i];
  }

  function CallFor(r: FlushRecord, now: int): Call {
    DeadLetterCall(r.key, r.seq_, now, MISSING)
  }

  predicate CallsForMissing(records: seq<FlushRecord>, calls: seq<Call>, now: int) {
    && (forall c :: c in calls ==> exists i :: 0 <= i < |records| && records[i].payload.None? && c == CallFor(records[i], now))
    && (forall i :: 0 <= i < |records| && records[i].payload.None? ==> CallFor(records[i], now) in calls)
  }

  lemma CallsForMissingAppend(records: seq<FlushRecord>, calls: seq<Call>, r: FlushRecord, now: int)
    requires CallsForMissing(records, calls, now)
    ensures CallsForMissing(records + [r], if r.payload.None? then calls + [CallFor(r, now)] else calls, now)
  {
    var longer := records + [r];
    assert longer[|records|] == r;
    assert forall i :: 0 <= i < |records| ==> longer[i] == records[i];
  }

  /** models lists, once each, the records that reach the sink. */
  ghost predicate Models(records: seq<FlushRecord>, models: seq<FlushRecord>, accepts: (Key, Payload) -> bool) {
    DistinctKeys(models) && forall m :: m in models <==> m in records && IsModel(m, accepts)
  }

  lemma ModelsAppend(records: seq<FlushRecord>, models: seq<FlushRecord>, r: FlushRecord, accepts: (Key, Payload) -> bool)
    requires Models(records, models, accepts) && RecordOf(records, r.key).None?
    ensures Models(records + [r], if IsModel(r, accepts) then models + [r] else models, accepts)
  {
    assert forall m :: m in models ==> m.key != r.key;
  }

  /** One record through the contract: a violation is dead-lettered at once. */
  method CheckContract(j: Journal, r: FlushRecord, accepts: (Key, Payload) -> bool) returns (ok: bool)
    requires r.payload.Some?
    modifies j
    ensures j.now == old(j.now) && ok == IsModel(r, accepts)
    ensures forall k :: j.SlotOf(k) == AfterContract(old(j.SlotOf(k)), if r.key == k then Some(r) else None, accepts, j.now)
  {
    ok := accepts(r.key, r.payload.value);
    if !ok {
      var _ := j.DeadLetterIfUnchanged(r.key, r.seq_, j.now, VIOLATION);
    }
  }

  /** The contract loop of flushBand: violations are dead-lettered at once, the rest is partitioned. */
  method ApplyContract(j: Journal, records: seq<FlushRecord>, accepts: (Key, Payload) -> bool)
    returns (missing: seq<Call>, models: seq<FlushRecord>)
    requires DistinctKeys(records)
    modifies j
    ensures j.now == old(j.now)
    ensures forall k :: j.SlotOf(k) == AfterContract(old(j.SlotOf(k)), RecordOf(records, k), accepts, j.now)
    ensures CallsForMissing(records, missing, j.now)
    ensures Models(records, models, accepts)
  {
    missing, models := [], [];
    for i := 0 to |records|
      invariant j.now == old(j.now)
      invariant forall k :: j.SlotOf(k) == AfterContract(old(j.SlotOf(k)), RecordOf(records[..i], k), accepts, j.now)
      invariant CallsForMissing(records[..i], missing, j.now)
      invariant Models(records[..i], models, accepts)
    {
      var r := records[i];
      assert records[..i + 1] == records[..i] + [r];
      assert RecordOf(records[..i], r.key).None?;
      CallsForMissingAppend(records[..i], missing, r, j.now);
      ModelsAppend(records[..i], models, r, accepts);
      if r.payload.None? {
        missing := missing + [CallFor(r, j.now)];
      } else {
        var ok := CheckContract(j, r, accepts);
        if ok {
          models := models + [r];
        }
      }
      forall k
        ensures j.SlotOf(k) == AfterContract(old(j.SlotOf(k)), RecordOf(records[..i + 1], k), accepts, j.now)
      {
        OneMoreRecord(old(j.SlotOf(k)), records[..i], r, k, accepts, j.now);
      }
    }
    assert records[..|records|] == records;
  }

  lemma OneMoreRecord(s: Slot, records: seq<FlushRecord>, r: FlushRecord, k: Key, accepts: (Key, Payload) -> bool, now: int)
    requires RecordOf(records, r.key).None?
    ensures var before := AfterContract(s, RecordOf(records, k), accepts, now);
            AfterContract(s, RecordOf(records + [r], k), accepts, now) ==
            if r.payload.None? then before else AfterContract(before, if r.key == k then Some(r) else None, accepts, now)
  {
    RecordOfAppend(records, r, k);
  }

  /** The partition of flushBand: success is what no error names. */
  method PartitionResult(models: seq<FlushRecord>, errors: seq<SinkError>)
    returns (success: seq<FlushRecord>, permanent: seq<Key>)
    requires DistinctKeys(models)
    ensures forall r :: r in success <==> r in models && !Reports(errors, r.key)
    ensures DistinctKeys(success)
    ensures forall k :: k in permanent <==> ReportsPermanent(errors, k)
    ensures forall k :: k in permanent <==>
              (exists e :: e in errors && e.key == k && (e.class_ == ClassPermanent || (e.class_ == ClassUnknown && e.code == 11000)))
  {
    permanent := [];
    var failed: set<Key> := {};
    for i := 0 to |errors|
      invariant forall k :: k in failed <==> Reports(errors[..i], k)
      invariant forall k :: k in permanent <==> ReportsPermanent(errors[..i], k)
    {
      assert errors[..i + 1] == errors[..i] + [errors[i]];
      assert errors[i] in errors[..i + 1];
      assert forall e :: e in errors[..i] ==> e in errors[..i + 1];
      failed := failed + {errors[i].key};
      if IsPermanent(errors[i]) {
        permanent := permanent + [errors[i].key];
      }
    }
    assert errors[..|errors|] == errors;
    forall k {
      PermanentByClassAndCode(errors, k);
    }
    success := [];
    for i := 0 to |models|
      invariant forall r :: r in success <==> r in models[..i] && r.key !in failed
      invariant DistinctKeys(success)
    {
      assert models[..i + 1] == models[..i] + [models[i]];
      assert models[i].key !in set r | r in success :: r.key;
      if models[i].key !in failed {
        success := success + [models[i]];
      }
    }
    assert models[..|models|] == models;
  }

  function Committed(s: Slot, r: Option<FlushRecord>, ttl: int, now: int): Slot {
    if r.Some? then Commit(s, r.value.seq_, ttl, now + ttl, now) else s
  }

  /** commitFlushed: one pipeline over the records that succeeded. */
  method CommitAll(j: Journal, success: seq<FlushRecord>, ttlOf: Key -> int)
    requires DistinctKeys(success)
    modifies j
    ensures j.now == old(j.now)
    ensures forall k :: j.SlotOf(k) == Committed(old(j.SlotOf(k)), RecordOf(success, k), ttlOf(k), j.now)
  {
    var now := j.now;
    var commits := seq(|success|, i requires 0 <= i < |success| =>
      CommitCall(success[i].key, success[i].seq_, ttlOf(success[i].key), now + ttlOf(success[i].key)));
    var _ := j.EvalShaPipelined(commits, AllRan(|commits|), true);
    forall k
      ensures j.SlotOf(k) == Committed(old(j.SlotOf(k)), RecordOf(success, k), ttlOf(k), j.now)
    {
      PipelineServes(old(j.SlotOf(k)), commits, k, now);
      var r := RecordOf(success, k);
      if r.Some? {
        var i :| 0 <= i < |success| && success[i] == r.value;
        assert commits[i].key == k;
      }
    }
  }

  /** deadLetter for permanent failures: a key may be listed more than once. */
  method DeadLetterAll(j: Journal, records: seq<FlushRecord>, permanent: seq<Key>)
    modifies j
    ensures j.now == old(j.now)
    ensures forall k :: j.SlotOf(k) == if k in permanent
                          then DeadLetter(old(j.SlotOf(k)), SeqFor(records, k), j.now, PERMANENT, j.now)
                          else old(j.SlotOf(k))
  {
    var now := j.now;
    var letters := seq(|permanent|, i requires 0 <= i < |permanent| =>
      DeadLetterCall(permanent[i], SeqFor(records, permanent[i]), now, PERMANENT));
    var _ := j.EvalShaPipelined(letters, AllRan(|letters|), true);
    forall k
      ensures j.SlotOf(k) == if k in permanent
                then DeadLetter(old(j.SlotOf(k)), SeqFor(records, k), j.now, PERMANENT, j.now)
                else old(j.SlotOf(k))
    {
      PipelineServes(old(j.SlotOf(k)), letters, k, now);
      if k in permanent {
        var i :| 0 <= i < |permanent| && permanent[i] == k;
        assert letters[i].key == k;
      }
    }
  }

  /** What follows a usable reply: commit the successes, dead-letter the permanent failures. */
  method SettleResult(j: Journal, records: seq<FlushRecord>, accepts: (Key, Payload) -> bool,
                      models: seq<FlushRecord>, errors: seq<SinkError>, ttlOf: Key -> int)
    requires DistinctKeys(records) && Models(records, models, accepts)
    modifies j
    ensures j.now == old(j.now)
    ensures forall k :: j.SlotOf(k) == AfterSink(old(j.SlotOf(k)), records, k, accepts, errors, ttlOf(k), j.now)
  {
    var success, permanent := PartitionResult(models, errors);
    CommitAll(j, success, ttlOf);
    DeadLetterAll(j, records, permanent);
    forall k
      ensures j.SlotOf(k) == AfterSink(old(j.SlotOf(k)), records, k, accepts, errors, ttlOf(k), j.now)
    {
      CommitsServe(success, records, k, accepts, models, errors);
    }
  }

  lemma CommitsServe(success: seq<FlushRecord>, records: seq<FlushRecord>, k: Key, accepts: (Key, Payload) -> bool,
                     models: seq<FlushRecord>, errors: seq<SinkError>)
    requires DistinctKeys(records) && DistinctKeys(success)
    requires Models(records, models, accepts)
    requires forall r :: r in success <==> r in models && !Reports(errors, r.key)
    ensures var r := RecordOf(records, k);
            RecordOf(success, k) == if IsSuccess(r, accepts, errors) then r else None
  {
    var found, r := RecordOf(success, k), RecordOf(records, k);
    if IsSuccess(r, accepts, errors) {
      assert r.value in success;
    }
    if found.Some? {
      var n :| 0 <= n < |records| && records[n] == found.value;
      RecordOfIsUnique(records, n);
    }
  }

  /** flushBand on drained records, with the sink's reply to the models as a parameter. */
  method FlushBand(j: Journal, records: seq<FlushRecord>, accepts: (Key, Payload) -> bool, reply: Reply, ttlOf: Key -> int)
    requires DistinctKeys(records)
    modifies j
    ensures j.now == old(j.now)
    ensures forall k :: j.SlotOf(k) == AfterFlush(old(j.SlotOf(k)), records, k, accepts, reply, ttlOf(k), j.now)
  {
    var missing, models := ApplyContract(j, records, accepts);
    label Partitioned:
    MissingIsConsistent(records, missing, j.now);
    var _ := j.EvalShaPipelined(missing, AllRan(|missing|), true);
    forall k
      ensures j.SlotOf(k) == AfterMissing(old@Partitioned(j.SlotOf(k)), RecordOf(records, k), j.now)
    {
      PipelineServes(old@Partitioned(j.SlotOf(k)), missing, k, j.now);
      MissingServes(records, missing, k, j.now);
    }
    if models == [] {
      assert !exists m :: m in records && IsModel(m, accepts);
      return;
    }
    assert models[0] in records && IsModel(models[0], accepts);
    if reply.None? {
      return;
    }
    var attributed := CheckAttribution(reply.value);
    if !attributed {
      return;
    }
    SettleResult(j, records, accepts, models, reply.value, ttlOf);
  }

  lemma MissingIsConsistent(records: seq<FlushRecord>, missing: seq<Call>, now: int)
    requires DistinctKeys(records)
    requires CallsForMissing(records, missing, now)
    ensures Consistent(missing)
  {
    forall a, b | 0 <= a < |missing| && 0 <= b < |missing| && missing[a].key == missing[b].key
      ensures missing[a] == missing[b]
    {
      assert missing[a] in missing && missing[b] in missing;
    }
  }

  lemma MissingServes(records: seq<FlushRecord>, missing: seq<Call>, k: Key, now: int)
    requires DistinctKeys(records)
    requires CallsForMissing(records, missing, now)
    ensures var r := RecordOf(records, k);
            if r.Some? && r.value.payload.None?
            then exists i :: 0 <= i < |missing| && missing[i] == DeadLetterCall(k, r.value.seq_, now, MISSING)
            else forall i :: 0 <= i < |missing| ==> missing[i].key != k
  {
    forall i | 0 <= i < |missing| && missing[i].key == k
      ensures RecordOf(records, k).Some? && RecordOf(records, k).value.payload.None?
    {
      assert missing[i] in missing;
      var n :| 0 <= n < |records| && records[n].payload.None? && missing[i] == CallFor(records[n], now);
      RecordOfIsUnique(records, n);
    }
    var r := RecordOf(records, k);
    if r.Some? && r.value.payload.None? {
      var n :| 0 <= n < |records| && records[n] == r.value;
      assert CallFor(r.value, now) in missing;
    }
  }
}
