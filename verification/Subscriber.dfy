/** The broadcast subscriber: a replayable stream of versioned payloads folded into the L1 cache. */
module Subscriber {
  import opened Optional
  import opened Redis
  import opened LocalJournal

  datatype Kind = Upsert | Seed | Touch | Unknown

  datatype Mode = ModePayload | ModeInvalidation

  /** A stream entry; ts is None when the field is absent or does not parse. */
  datatype Message = Message(id: nat, crn: Key, ts: Option<int>, kind: Kind, payload: Option<Payload>)

  datatype Versioned = Versioned(payload: Payload, version: int)

  /** A message that carries a payload for some key. */
  predicate Carries(m: Message) {
    m.crn != [] && m.ts.Some? && (m.kind == Upsert || m.kind == Seed) && m.payload.Some? && m.payload.value != []
  }

  // ── The fold ───────────────────────────────────────────────────────────────

  /** What one message makes of the version a cache holds for k: Put's strict version gate. */
  function Newer(cur: Option<Versioned>, m: Message, k: Key): Option<Versioned>
    requires Carries(m)
  {
    if m.crn == k && (cur.None? || cur.value.version < m.ts.value)
    then Some(Versioned(m.payload.value, m.ts.value)) else cur
  }

  predicate AllCarry(msgs: seq<Message>) {
    forall i :: 0 <= i < |msgs| ==> Carries(msgs[i])
  }

  function Newest(cur: Option<Versioned>, msgs: seq<Message>, k: Key): Option<Versioned>
    requires AllCarry(msgs)
  {
    if msgs == [] then cur
    else Newer(Newest(cur, msgs[..|msgs| - 1], k), msgs[|msgs| - 1], k)
  }

  /** v is what some message for k says. */
  predicate SaidBy(msgs: seq<Message>, k: Key, v: Versioned)
    requires AllCarry(msgs)
  {
    exists i :: 0 <= i < |msgs| && msgs[i].crn == k && msgs[i].ts == Some(v.version) && msgs[i].payload == Some(v.payload)
  }

  /** Each version of k has one payload, in the stream and in the cache. */
  ghost predicate OnePayloadPerVersion(cur: Option<Versioned>, msgs: seq<Message>, k: Key)
    requires AllCarry(msgs)
  {
    && (forall v, w :: SaidBy(msgs, k, v) && SaidBy(msgs, k, w) && v.version == w.version ==> v == w)
    && (cur.Some? ==> forall v :: SaidBy(msgs, k, v) && v.version == cur.value.version ==> v == cur.value)
  }

  lemma SaidByAppend(msgs: seq<Message>, m: Message, k: Key, v: Versioned)
    requires AllCarry(msgs) && Carries(m)
    ensures SaidBy(msgs + [m], k, v) <==>
              SaidBy(msgs, k, v) || (m.crn == k && m.ts == Some(v.version) && m.payload == Some(v.payload))
  {
    var longer := msgs + [m];
    if SaidBy(msgs, k, v) {
      var i :| 0 <= i < |msgs| && msgs[i].crn == k && msgs[i].ts == Some(v.version) && msgs[i].payload == Some(v.payload);
      assert longer[i] == msgs[i];
    }
    if m.crn == k && m.ts == Some(v.version) && m.payload == Some(v.payload) {
      assert longer[|msgs|] == m;
    }
  }

  /** The fold keeps the highest version: it comes from the cache or the stream, and none is higher. */
  lemma {:induction false} NewestIsHighest(cur: Option<Versioned>, msgs: seq<Message>, k: Key)
    requires AllCarry(msgs)
    ensures var r := Newest(cur, msgs, k);
            && (r.Some? ==> r == cur || SaidBy(msgs, k, r.value))
            && (r.None? ==> cur.None? && forall v :: !SaidBy(msgs, k, v))
            && (cur.Some? ==> r.Some? && cur.value.version <= r.value.version)
            && (cur.Some? && r.value.version == cur.value.version ==> r == cur)
            && (forall v :: SaidBy(msgs, k, v) ==> r.Some? && v.version <= r.value.version)
  {
    if msgs != [] {
      var n := |msgs| - 1;
      var front, m := msgs[..n], msgs[n];
      assert msgs == front + [m];
      NewestIsHighest(cur, front, k);
      forall v
        ensures SaidBy(msgs, k, v) <==>
                  SaidBy(front, k, v) || (m.crn == k && m.ts == Some(v.version) && m.payload == Some(v.payload))
      {
        SaidByAppend(front, m, k, v);
      }
    }
  }

  /**
    L1 convergence is order-free: two streams with the same messages, in whatever order and however often
    repeated, leave the same payload under every key.
    */
  lemma ConvergenceIsOrderFree(cur: Option<Versioned>, a: seq<Message>, b: seq<Message>, k: Key)
    requires AllCarry(a) && AllCarry(b)
    requires forall m :: m in a <==> m in b
    requires OnePayloadPerVersion(cur, a, k)
    ensures Newest(cur, a, k) == Newest(cur, b, k)
  {
    NewestIsHighest(cur, a, k);
    NewestIsHighest(cur, b, k);
    forall v
      ensures SaidBy(a, k, v) <==> SaidBy(b, k, v)
    {
      SameMessagesSaySame(a, b, k, v);
      SameMessagesSaySame(b, a, k, v);
    }
  }

  lemma SameMessagesSaySame(a: seq<Message>, b: seq<Message>, k: Key, v: Versioned)
    requires AllCarry(a) && AllCarry(b) && forall m :: m in a ==> m in b
    ensures SaidBy(a, k, v) ==> SaidBy(b, k, v)
  {
    if SaidBy(a, k, v) {
      var i :| 0 <= i < |a| && a[i].crn == k && a[i].ts == Some(v.version) && a[i].payload == Some(v.payload);
      assert a[i] in b;
    }
  }

  /**
    Replaying is harmless: after the stream has been folded in, folding in any part of it again changes
    nothing, so a subscriber that restarts at the beginning of the retained history changes nothing.
    */
  lemma {:induction false} ReplayChangesNothing(cur: Option<Versioned>, msgs: seq<Message>, again: seq<Message>, k: Key)
    requires AllCarry(msgs) && AllCarry(again)
    requires forall m :: m in again ==> m in msgs
    ensures Newest(Newest(cur, msgs, k), again, k) == Newest(cur, msgs, k)
  {
    if again != [] {
      var n := |again| - 1;
      assert forall m :: m in again[..n] ==> m in again;
      ReplayChangesNothing(cur, msgs, again[..n], k);
      var m := again[n];
      assert m in msgs;
      NewestIsHighest(cur, msgs, k);
      if m.crn == k {
        var i :| 0 <= i < |msgs| && msgs[i] == m;
        assert SaidBy(msgs, k, Versioned(m.payload.value, m.ts.value));
      }
    }
  }

  lemma NewestOfOne(cur: Option<Versioned>, m: Message, k: Key)
    requires Carries(m)
    ensures Newest(cur, [m], k) == Newer(cur, m, k)
  {
    assert [m][..0] == [];
    assert Newest(cur, [m][..0], k) == cur;
  }

  /**
    Two messages of one version: the cache keeps the first to arrive, so their order is irrelevant if and
    only if their payloads agree (or something at least as new is resident).
    */
  lemma EqualVersionsCommuteIff(cur: Option<Versioned>, m: Message, n: Message)
    requires Carries(m) && Carries(n) && m.crn == n.crn && m.ts == n.ts
    ensures Newest(cur, [m, n], m.crn) == Newest(cur, [n, m], m.crn)
       <==> m.payload == n.payload || (cur.Some? && m.ts.value <= cur.value.version)
  {
    var k := m.crn;
    assert [m, n][..1] == [m] && [n, m][..1] == [n];
    NewestOfOne(cur, m, k);
    NewestOfOne(cur, n, k);
    assert Newest(cur, [m, n], k) == Newer(Newer(cur, m, k), n, k);
    assert Newest(cur, [n, m], k) == Newer(Newer(cur, n, k), m, k);
  }

  // ── Any message ────────────────────────────────────────────────────────────

  /** A message that apply looks at: it names a key, its timestamp parses, and it is an upsert or a seed. */
  predicate Addressed(m: Message) {
    m.crn != [] && m.ts.Some? && (m.kind == Upsert || m.kind == Seed)
  }

  /** What any message makes of the version a cache holds for k: a gated Put, an invalidation, or nothing. */
  function Applied(cur: Option<Versioned>, m: Message, k: Key, mode: Mode): Option<Versioned> {
    if !Addressed(m) || m.crn != k then cur
    else if mode == ModePayload && Carries(m) then Newer(cur, m, k)
    else None
  }

  /**
    What a message does, by its fields: without a key or a timestamp, or of another kind, nothing; for another key,
    nothing; with a payload in payload mode, a Put that only a strictly newer timestamp passes; otherwise the key goes.
    */
  lemma AppliedOutcome(cur: Option<Versioned>, m: Message, k: Key, mode: Mode)
    ensures var r := Applied(cur, m, k, mode);
            if m.crn == [] || m.ts.None? || m.kind == Touch || m.kind == Unknown || m.crn != k then r == cur
            else if mode == ModePayload && m.payload.Some? && m.payload.value != []
            then r == if cur.Some? && cur.value.version >= m.ts.value then cur
                      else Some(Versioned(m.payload.value, m.ts.value))
            else r == None
  {
  }

  function AllApplied(cur: Option<Versioned>, msgs: seq<Message>, k: Key, mode: Mode): Option<Versioned> {
    if msgs == [] then cur
    else Applied(AllApplied(cur, msgs[..|msgs| - 1], k, mode), msgs[|msgs| - 1], k, mode)
  }

  /** In payload mode a stream of payloads is folded by version alone, so the convergence results apply to it. */
  lemma {:induction false} PayloadsAreFoldedByVersion(cur: Option<Versioned>, msgs: seq<Message>, k: Key)
    requires AllCarry(msgs)
    ensures AllApplied(cur, msgs, k, ModePayload) == Newest(cur, msgs, k)
  {
    if msgs != [] {
      PayloadsAreFoldedByVersion(cur, msgs[..|msgs| - 1], k);
    }
  }

  /** In invalidation mode exactly the keys that some message addresses are gone, in whatever order. */
  lemma {:induction false} InvalidationRemovesIff(cur: Option<Versioned>, msgs: seq<Message>, k: Key)
    ensures AllApplied(cur, msgs, k, ModeInvalidation)
         == if exists m :: m in msgs && Addressed(m) && m.crn == k then None else cur
  {
    if msgs != [] {
      var n := |msgs| - 1;
      InvalidationRemovesIff(cur, msgs[..n], k);
      assert msgs == msgs[..n] + [msgs[n]];
      assert msgs[n] in msgs;
      assert forall m :: m in msgs[..n] ==> m in msgs;
    }
  }

  // ── The subscriber ─────────────────────────────────────────────────────────

  function Version(e: Option<CacheEntry>): Option<Versioned> {
    if e.Some? then Some(Versioned(e.value.payload, e.value.version)) else None
  }

  class Subscriber {
    const local: Cache
    const mode: Mode
    /** The last processed stream id; 0 reads the retained history from its beginning. */
    var cursor: nat

    constructor (local: Cache, mode: Mode)
      ensures this.local == local && this.mode == mode && cursor == 0
    {
      this.local, this.mode, cursor := local, mode, 0;
    }

    /** The Put of a payload. */
    method Store(m: Message, now: int)
      requires local.Valid() && Carries(m)
      modifies local`evicted, local.shards
      ensures local.Valid() && local.evicted >= old(local.evicted)
      ensures local.Enabled() && local.evicted == old(local.evicted) ==>
                forall k :: Version(local.Resident(k)) == Newer(old(Version(local.Resident(k))), m, k)
    {
      var _ := local.Put(m.crn, m.payload.value, m.ts.value, now);
    }

    /** apply: a version-gated Put, an Invalidate, or nothing. While nothing is evicted, other keys are untouched. */
    method Apply(m: Message, now: int)
      requires local.Valid()
      modifies local`evicted, local.shards
      ensures local.Valid() && local.evicted >= old(local.evicted)
      ensures local.Enabled() && local.evicted == old(local.evicted) ==>
                forall k :: Version(local.Resident(k)) == Applied(old(Version(local.Resident(k))), m, k, mode)
      ensures !Addressed(m) || !(mode == ModePayload && Carries(m)) ==> local.evicted == old(local.evicted)
    {
      if m.crn == [] || m.ts.None? {
        return;
      }
      if m.kind == Upsert || m.kind == Seed {
        if mode == ModePayload {
          if m.payload.None? || m.payload.value == [] {
            local.Invalidate(m.crn);
            return;
          }
          Store(m, now);
        } else {
          local.Invalidate(m.crn);
        }
      }
    }

    /**
      One XREAD reply: the messages, whatever they are, are applied in stream order and the cursor follows each
      of them. As long as nothing is evicted, the cache ends up as the fold of the messages.
      */
    method ApplyBatch(msgs: seq<Message>, now: int)
      requires local.Valid()
      modifies this`cursor, local`evicted, local.shards
      ensures local.Valid() && local.evicted >= old(local.evicted)
      ensures local.Enabled() && local.evicted == old(local.evicted) ==>
                forall k :: Version(local.Resident(k)) == AllApplied(old(Version(local.Resident(k))), msgs, k, mode)
      ensures cursor == if msgs == [] then old(cursor) else msgs[|msgs| - 1].id
    {
      for i := 0 to |msgs|
        invariant local.Valid() && local.evicted >= old(local.evicted)
        invariant local.Enabled() && local.evicted == old(local.evicted) ==>
                    forall k :: Version(local.Resident(k)) == AllApplied(old(Version(local.Resident(k))), msgs[..i], k, mode)
        invariant cursor == if i == 0 then old(cursor) else msgs[i - 1].id
      {
        assert msgs[..i + 1][..i] == msgs[..i];
        Apply(msgs[i], now);
        cursor := msgs[i].id;
      }
      assert msgs[..|msgs|] == msgs;
    }
  }
}
