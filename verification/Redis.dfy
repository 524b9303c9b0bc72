/**
  The part of Redis that belongs to one correlation key, and the six Lua scripts as functions on it.

  Redis runs a script atomically, and every key a script names belongs to a single correlation key,
  so one script run is one application of one of these functions.
  */
module Redis {
  import opened Optional

  type Bytes = seq<bv8>
  type Key = Bytes
  type Payload = Bytes

  /** The content hash of a payload, assumed free of collisions. */
  datatype Digest = Digest(of: Payload)

  datatype Failure = Failure(reason: string, at: int)

  /**
    The payload hash. A field is None when the hash does not hold it; expireAt is the instant the
    whole hash dies, None for a persistent hash.
    */
  datatype Entry = Entry(
    p: Option<Payload>,
    ts: Option<int>,
    v: Option<nat>,
    h: Option<Digest>,
    failure: Option<Failure>,
    expireAt: Option<int>)

  const NO_FIELDS := Entry(None, None, None, None, None, None)

  /**
    Everything Redis holds for a key: its payload hash, its scores in the dirty and dead-letter sets,
    whether its idxv hash exists, and its score in the index expiry queue.
    */
  datatype Slot = Slot(entry: Option<Entry>, dirty: Option<int>, dead: Option<int>, indexed: bool, due: Option<int>)
  {
    /** HGET of 'p': None when the hash or the field is missing. */
    function Stored(): Option<Payload> {
      if entry.Some? then entry.value.p else None
    }

    /** What every Go reader sees: an empty payload counts as a missing one. */
    function Visible(): Option<Payload> {
      if Stored().Some? && Stored().value != [] then Stored() else None
    }

    /** HGET of 'v': None stands for the empty string the scripts fall back to. */
    function Seq(): Option<nat> {
      if entry.Some? then entry.value.v else None
    }

    function Hash(): Option<Digest> {
      if entry.Some? then entry.value.h else None
    }

    function Fields(): Entry {
      if entry.Some? then entry.value else NO_FIELDS
    }

    /** A persistent payload: present and without a TTL. */
    predicate Persistent() {
      Stored().Some? && entry.value.expireAt.None?
    }
  }

  const EMPTY_SLOT := Slot(None, None, None, false, None)

  /** Dead-letter payloads are kept for seven days. */
  const DLQ_TTL_MS := 604_800_000

  /** The sequence as a number; HINCRBY counts a missing field as 0. */
  function SeqNo(v: Option<nat>): nat {
    if v.Some? then v.value else 0
  }

  /** PTTL: -2 for a missing key, -1 for a persistent one, otherwise the milliseconds left. */
  function Pttl(s: Slot, now: int): int {
    if s.entry.None? then -2
    else if s.entry.value.expireAt.None? then -1
    else if s.entry.value.expireAt.value < now then 0
    else s.entry.value.expireAt.value - now
  }

  /** PEXPIRE: a non-positive TTL deletes the key. */
  function PExpire(s: Slot, ttl: int, now: int): Slot {
    if s.entry.None? then s
    else if ttl <= 0 then s.(entry := None)
    else s.(entry := Some(s.entry.value.(expireAt := Some(now + ttl))))
  }

  /** The extend-only TTL refresh shared by three scripts. */
  function Extended(s: Slot, ttl: int, now: int): Slot {
    if 0 <= Pttl(s, now) < ttl then PExpire(s, ttl, now) else s
  }

  // ── The scripts ────────────────────────────────────────────────────────────

  function Written(s: Slot, payload: Payload, ts: int): Slot {
    s.(entry := Some(s.Fields().(p := Some(payload), ts := Some(ts), v := Some(SeqNo(s.Seq()) + 1), expireAt := None)),
       dirty := Some(ts))
  }

  function DedupWritten(s: Slot, payload: Payload, ts: int): Slot {
    var w := Written(s, payload, ts);
    w.(entry := Some(w.entry.value.(h := Some(Digest(payload)))))
  }

  /** True when the dedup script takes the write for a duplicate and skips it. */
  predicate IsDuplicate(s: Slot, payload: Payload) {
    s.Hash() == Some(Digest(payload))
  }

  function DedupWrite(s: Slot, payload: Payload, ts: int, ttl: int, now: int): Slot {
    if IsDuplicate(s, payload) then Extended(s, ttl, now) else DedupWritten(s, payload, ts)
  }

  function Commit(s: Slot, seq_: Option<nat>, ttl: int, expiry: int, now: int): Slot {
    if s.Seq() != seq_ then s
    else
      var clean := s.(dirty := None);
      if ttl <= 0 then clean
      else PExpire(clean, ttl, now).(due := if s.indexed then Some(expiry) else s.due)
  }

  function DeadLetter(s: Slot, seq_: Option<nat>, at: int, reason: string, now: int): Slot {
    if s.Seq() != seq_ then s
    else
      Slot(Some(s.Fields().(failure := Some(Failure(reason, at)), expireAt := Some(now + DLQ_TTL_MS))),
           None, Some(at), s.indexed, s.due)
  }

  function ExtendTtl(s: Slot, ttl: int, expiry: int, now: int): Slot {
    if 0 <= Pttl(s, now) < ttl
    then PExpire(s, ttl, now).(due := if s.indexed then Some(expiry) else s.due)
    else s
  }

  /** hydrateLua writes only into a journal miss: an absent 'p', not merely an empty one. */
  predicate HydrateFills(s: Slot) {
    s.Stored().None?
  }

  function Hydrate(s: Slot, payload: Payload, ts: int, ttl: int, now: int): Slot {
    if HydrateFills(s)
    then PExpire(s.(entry := Some(s.Fields().(p := Some(payload), ts := Some(ts), h := None))), ttl, now)
    else Extended(s, ttl, now)
  }

  /** CommitDLQKeys: DEL of the payload hash and ZREM from the dead-letter set, with no check at all. */
  function DlqDelete(s: Slot): Slot {
    s.(entry := None, dead := None)
  }

  // ── What the scripts promise ───────────────────────────────────────────────

  /** A TTL refresh never shortens a life and never gives one to a persistent payload. */
  predicate LivesAtLeastAsLong(before: Slot, after: Slot) {
    && before.Stored() == after.Stored()
    && before.Seq() == after.Seq()
    && before.dirty == after.dirty && before.dead == after.dead
    && (before.entry.Some? ==>
          && after.entry.Some?
          && (before.entry.value.expireAt.None? ==> after.entry.value.expireAt.None?)
          && (before.entry.value.expireAt.Some? ==>
                && after.entry.value.expireAt.Some?
                && before.entry.value.expireAt.value <= after.entry.value.expireAt.value))
  }

  lemma RefreshesOnlyExtend(s: Slot, payload: Payload, ts: int, ttl: int, expiry: int, now: int)
    ensures LivesAtLeastAsLong(s, ExtendTtl(s, ttl, expiry, now))
    ensures IsDuplicate(s, payload) ==> LivesAtLeastAsLong(s, DedupWrite(s, payload, ts, ttl, now))
    ensures !HydrateFills(s) ==> LivesAtLeastAsLong(s, Hydrate(s, payload, ts, ttl, now))
  {
  }

  /**
    A skipped duplicate leaves the acknowledged payload in the journal exactly when the stored content
    hash still describes the stored payload.
    */
  lemma SkippedDuplicateIsStoredIff(s: Slot, payload: Payload, ts: int, ttl: int, now: int)
    requires IsDuplicate(s, payload)
    ensures DedupWrite(s, payload, ts, ttl, now).Stored() == Some(payload)
       <==> s.Stored().Some? && s.Hash() == Some(Digest(s.Stored().value))
  {
  }

  /**
    A plain write keeps an old content hash. From then on every duplicate the dedup script skips is still in the
    journal if and only if there was no hash, or the plain write rewrote the same content.
    */
  lemma PlainWriteKeepsHashHonestIff(s: Slot, payload: Payload, ts: int, ttl: int, now: int)
    ensures var w := Written(s, payload, ts);
            (forall q, qts :: IsDuplicate(w, q) ==> DedupWrite(w, q, qts, ttl, now).Stored() == Some(q)) <==>
              s.Hash().None? || s.Hash() == Some(Digest(payload))
  {
    var w := Written(s, payload, ts);
    if s.Hash().Some? && s.Hash() != Some(Digest(payload)) {
      var q := s.Hash().value.of;
      assert IsDuplicate(w, q);
      assert DedupWrite(w, q, 0, ttl, now).Stored() == Some(payload);
    }
  }

  // ── The scripts, field by field ────────────────────────────────────────────

  /** The fields of a payload hash other than its TTL. */
  predicate SameFields(a: Option<Entry>, b: Option<Entry>) {
    && (a.Some? <==> b.Some?)
    && (a.Some? ==>
          && a.value.p == b.value.p && a.value.ts == b.value.ts && a.value.v == b.value.v
          && a.value.h == b.value.h && a.value.failure == b.value.failure)
  }

  /** A write puts payload and time into the hash, counts the sequence up by one, and makes the key dirty for good. */
  lemma WriteOutcome(s: Slot, payload: Payload, ts: int)
    ensures var r := Written(s, payload, ts);
            && r.entry.Some? && r.entry.value.p == Some(payload) && r.entry.value.ts == Some(ts)
            && r.entry.value.v == Some(if s.entry.Some? && s.entry.value.v.Some? then s.entry.value.v.value + 1 else 1)
            && r.entry.value.h == (if s.entry.Some? then s.entry.value.h else None)
            && r.entry.value.failure == (if s.entry.Some? then s.entry.value.failure else None)
            && r.entry.value.expireAt == None
            && r.dirty == Some(ts) && r.dead == s.dead && r.indexed == s.indexed && r.due == s.due
  {
  }

  /** A dedup write of other content is such a write with its content hash; of the same content, a refresh. */
  lemma DedupOutcome(s: Slot, payload: Payload, ts: int, ttl: int, now: int)
    ensures var r := DedupWrite(s, payload, ts, ttl, now);
            if s.entry.Some? && s.entry.value.h == Some(Digest(payload))
            then SameFields(r.entry, s.entry) && r.dirty == s.dirty && r.dead == s.dead && r.due == s.due
            else
              && r.entry == Some(Written(s, payload, ts).entry.value.(h := Some(Digest(payload))))
              && r.dirty == Some(ts) && r.dead == s.dead && r.indexed == s.indexed && r.due == s.due
  {
  }

  /**
    A commit whose sequence matches takes the key out of the dirty set, keeps every field, and with a positive TTL
    gives the hash exactly that long to live; the index queue learns of it if the key is indexed.
    */
  lemma CommitOutcome(s: Slot, seq_: Option<nat>, ttl: int, expiry: int, now: int)
    ensures var r := Commit(s, seq_, ttl, expiry, now);
            if (if s.entry.Some? then s.entry.value.v else None) != seq_ then r == s
            else
              && r.dirty == None && r.dead == s.dead && r.indexed == s.indexed && SameFields(r.entry, s.entry)
              && (s.entry.Some? ==>
                    r.entry.value.expireAt == if ttl > 0 then Some(now + ttl) else s.entry.value.expireAt)
              && r.due == if ttl > 0 && s.indexed then Some(expiry) else s.due
  {
  }

  /** A dead-lettering whose sequence matches moves the key from the dirty to the dead-letter set for seven days. */
  lemma DeadLetterOutcome(s: Slot, seq_: Option<nat>, at: int, reason: string, now: int)
    ensures var r := DeadLetter(s, seq_, at, reason, now);
            if (if s.entry.Some? then s.entry.value.v else None) != seq_ then r == s
            else
              && r.dirty == None && r.dead == Some(at) && r.indexed == s.indexed && r.due == s.due
              && r.entry.Some?
              && r.entry.value.failure == Some(Failure(reason, at))
              && r.entry.value.expireAt == Some(now + 604_800_000)
              && r.entry.value.p == (if s.entry.Some? then s.entry.value.p else None)
              && r.entry.value.ts == (if s.entry.Some? then s.entry.value.ts else None)
              && r.entry.value.v == (if s.entry.Some? then s.entry.value.v else None)
              && r.entry.value.h == (if s.entry.Some? then s.entry.value.h else None)
  {
  }

  /** The hash dies within ttl from now. */
  predicate DiesWithin(s: Slot, ttl: int, now: int) {
    && s.entry.Some? && s.entry.value.expireAt.Some?
    && ttl > 0 && s.entry.value.expireAt.value < now + ttl
  }

  /**
    The three refreshes: a life shorter than ttl becomes ttl, any other stays as it is, and nothing else changes but
    that extendTTL tells the index queue.
    */
  lemma RefreshOutcome(s: Slot, payload: Payload, ts: int, ttl: int, expiry: int, now: int)
    ensures var r := ExtendTtl(s, ttl, expiry, now);
            if DiesWithin(s, ttl, now)
            then
              && SameFields(r.entry, s.entry) && r.entry.value.expireAt == Some(now + ttl)
              && r.due == (if s.indexed then Some(expiry) else s.due)
              && r.dirty == s.dirty && r.dead == s.dead && r.indexed == s.indexed
            else r == s
    ensures s.entry.Some? && s.entry.value.h == Some(Digest(payload)) ==>
              var r := DedupWrite(s, payload, ts, ttl, now);
              if DiesWithin(s, ttl, now)
              then r.entry == Some(s.entry.value.(expireAt := Some(now + ttl))) && r.dirty == s.dirty && r.due == s.due
              else r == s
    ensures s.entry.Some? && s.entry.value.p.Some? ==>
              var r := Hydrate(s, payload, ts, ttl, now);
              if DiesWithin(s, ttl, now)
              then r.entry == Some(s.entry.value.(expireAt := Some(now + ttl))) && r.dirty == s.dirty && r.due == s.due
              else r == s
  {
  }

  /** A hydration fills a missing payload, drops the content hash, and never makes the key dirty. */
  lemma HydrateOutcome(s: Slot, payload: Payload, ts: int, ttl: int, now: int)
    requires s.entry.None? || s.entry.value.p.None?
    ensures var r := Hydrate(s, payload, ts, ttl, now);
            && r.dirty == s.dirty && r.dead == s.dead && r.indexed == s.indexed && r.due == s.due
            && (r.entry.Some? <==> ttl > 0)
            && (ttl > 0 ==>
                  && r.entry.value.p == Some(payload) && r.entry.value.ts == Some(ts) && r.entry.value.h == None
                  && r.entry.value.v == (if s.entry.Some? then s.entry.value.v else None)
                  && r.entry.value.expireAt == Some(now + ttl))
  {
  }

  /** A DLQ deletion takes hash and dead-letter entry, and leaves a dirty entry behind. */
  lemma DlqDeleteOutcome(s: Slot)
    ensures var r := DlqDelete(s);
            r.entry == None && r.dead == None && r.dirty == s.dirty && r.indexed == s.indexed && r.due == s.due
  {
  }
}
