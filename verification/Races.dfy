/**
  The races a run may hold: degraded writes, DLQ upserts and late flushes. Exactly when a write can be overtaken,
  exactly when the record goes back, and how a key recovers.
  */
module Races {
  import opened Optional
  import opened Redis
  import opened World
  import opened Invariant
  import opened Core
  import opened Protocol

  // ── Flags over a run ───────────────────────────────────────────────────────

  lemma {:induction false} FlagsStayOff(run: seq<State>, acts: seq<Action>, i: nat, j: nat, k: Key)
    requires IsRun(run, acts) && i <= j < |run| && k in run[0].worlds && k in run[i].worlds && k in run[j].worlds
    ensures FlagsKept(run[i].worlds[k], run[j].worlds[k])
    decreases j - i
  {
    if i < j {
      KeysStay(run, acts, j - 1);
      FlagsStayOff(run, acts, i, j - 1, k);
      ActionOnKey(run, acts, j - 1, k);
      if run[j].worlds[k] != run[j - 1].worlds[k] {
        var e :| Enabled(run[j - 1].worlds[k], e, run[j - 1].now)
                 && run[j].worlds[k] == Next(run[j - 1].worlds[k], e, run[j - 1].now);
        FlagsStay(run[j - 1].worlds[k], e, run[j - 1].now);
      }
    }
  }

  // ── Degraded writes ────────────────────────────────────────────────────────

  /**
    The probe suffices: after HasPendingVersion has found nothing, nothing that a flush or a DLQ replay could still
    write is from before the probe, as long as the DLQ processor deletes no unflushed payload and no dead letter's
    hash is refilled.
    */
  lemma {:induction false} NothingOlderIsPendingAfterProbe(run: seq<State>, acts: seq<Action>, i: nat, j: nat, k: Key)
    requires IsRun(run, acts) && i <= j < |run| && k in run[0].worlds && k in run[i].worlds && k in run[j].worlds
    requires !Pending(run[i].worlds[k].slot)
    requires !run[j].worlds[k].hz.clobbered && !run[j].worlds[k].hz.revived
    ensures OnlyNewerPending(run[j].worlds[k], |run[i].worlds[k].hist|)
    decreases j - i
  {
    FlagsStayOff(run, acts, i, j, k);
    if i == j {
      ReachableSound(run, acts, i, k);
      QuietMeansOnlyNewerPending(run[i].worlds[k]);
    } else {
      KeysStay(run, acts, j - 1);
      FlagsStayOff(run, acts, j - 1, j, k);
      NothingOlderIsPendingAfterProbe(run, acts, i, j - 1, k);
      ReachableSound(run, acts, j - 1, k);
      ActionOnKey(run, acts, j - 1, k);
      if run[j].worlds[k] != run[j - 1].worlds[k] {
        var e :| Enabled(run[j - 1].worlds[k], e, run[j - 1].now)
                 && run[j].worlds[k] == Next(run[j - 1].worlds[k], e, run[j - 1].now);
        StepKeepsOnlyNewerPending(run[j - 1].worlds[k], e, run[j - 1].now, |run[i].worlds[k].hist|);
      }
    }
  }

  lemma {:induction false} HarmlessFromThenOn(run: seq<State>, acts: seq<Action>, i: nat, j: nat, k: Key, m: nat, d: Payload)
    requires IsRun(run, acts) && i <= j < |run| && k in run[0].worlds && k in run[i].worlds && k in run[j].worlds
    requires Harmless(run[i].worlds[k], m, d)
    requires !run[j].worlds[k].hz.clobbered && !run[j].worlds[k].hz.revived
    ensures Harmless(run[j].worlds[k], m, d)
    decreases j - i
  {
    if i < j {
      KeysStay(run, acts, j - 1);
      FlagsStayOff(run, acts, j - 1, j, k);
      HarmlessFromThenOn(run, acts, i, j - 1, k, m, d);
      ReachableSound(run, acts, j - 1, k);
      ActionOnKey(run, acts, j - 1, k);
      if run[j].worlds[k] != run[j - 1].worlds[k] {
        var e :| Enabled(run[j - 1].worlds[k], e, run[j - 1].now)
                 && run[j].worlds[k] == Next(run[j - 1].worlds[k], e, run[j - 1].now);
        StepKeepsHarmless(run[j - 1].worlds[k], e, run[j - 1].now, m, d);
      }
    }
  }

  /** A degraded write reaches the store as the newest write. */
  lemma DirectWriteIsNewest(run: seq<State>, acts: seq<Action>, i: nat, k: Key, id: nat, payload: Payload)
    requires IsRun(run, acts) && i < |acts| && k in run[0].worlds
    requires acts[i] == At(k, Degraded(DirectWrite(id, payload)))
    ensures k in run[i].worlds && k in run[i + 1].worlds && DegradedCan(run[i].worlds[k], DirectWrite(id, payload))
    ensures run[i + 1].worlds[k] == OnDirectWrite(run[i].worlds[k], id, payload)
    ensures var w := run[i + 1].worlds[k];
            w.store == Some(payload) && w.snum == |w.hist| >= 1 && w.hist[|w.hist| - 1] == payload
  {
    assert run[i + 1] == Do(run[i], acts[i]);
  }

  /**
    Degraded writes are never overtaken: if nothing that shows another payload was pending or on its way when it was
    made, the record is from then on that payload or a later write, in every run in which the DLQ processor deletes
    no unflushed payload and no dead letter's hash is refilled. Other degraded writers of the key, DLQ upserts and
    flushes may interleave in any way. That nothing was pending is what the probe is for; Core proves that the
    condition is exact.
    */
  lemma DegradedWriteIsNeverOvertaken(run: seq<State>, acts: seq<Action>, i: nat, j: nat, k: Key, id: nat,
                                      payload: Payload)
    requires IsRun(run, acts) && i < j < |run| && k in run[0].worlds && k in run[i].worlds && k in run[j].worlds
    requires acts[i] == At(k, Degraded(DirectWrite(id, payload)))
    requires !OlderPending(run[i].worlds[k], payload)
    requires !run[j].worlds[k].hz.clobbered && !run[j].worlds[k].hz.revived
    ensures var n := |run[i].worlds[k].hist| + 1;
            var w := run[j].worlds[k];
            && n <= |w.hist| && w.snum <= |w.hist|
            && (w.store == Some(payload) || (n < w.snum && w.store == Some(w.hist[w.snum - 1])))
  {
    DirectWriteIsNewest(run, acts, i, k, id, payload);
    ReachableSound(run, acts, i, k);
    ReachableSound(run, acts, j, k);
    DirectWriteIsHarmlessIff(run[i].worlds[k], id, payload);
    HarmlessFromThenOn(run, acts, i + 1, j, k, |run[i].worlds[k].hist| + 1, payload);
  }

  /** A probe that finds nothing rules out everything older, as long as no write is accepted before the degraded write. */
  lemma ProbeRulesOutOlder(run: seq<State>, acts: seq<Action>, i: nat, j: nat, k: Key, d: Payload)
    requires IsRun(run, acts) && i <= j < |run| && k in run[0].worlds && k in run[i].worlds && k in run[j].worlds
    requires !Pending(run[i].worlds[k].slot) && |run[j].worlds[k].hist| == |run[i].worlds[k].hist|
    requires !run[j].worlds[k].hz.clobbered && !run[j].worlds[k].hz.revived
    ensures !OlderPending(run[j].worlds[k], d)
  {
    NothingOlderIsPendingAfterProbe(run, acts, i, j, k);
    ReachableSound(run, acts, j, k);
  }

  /** From state i to state j no step on k removes or rewrites its journal entry. */
  predicate EntryUntouched(acts: seq<Action>, i: nat, j: nat, k: Key)
    requires j <= |acts|
  {
    forall n :: i <= n < j && acts[n].At? && acts[n].key == k ==> !RemovesEntry(acts[n].event) && !acts[n].event.Writer?
  }

  lemma {:induction false} EntryLasts(run: seq<State>, acts: seq<Action>, i: nat, j: nat, k: Key)
    requires IsRun(run, acts) && i <= j < |run| && k in run[0].worlds && k in run[i].worlds && k in run[j].worlds
    requires EntryUntouched(acts, i, j, k) && run[i].worlds[k].slot.Stored().Some?
    ensures run[j].worlds[k].slot.Stored() == run[i].worlds[k].slot.Stored()
    decreases j - i
  {
    if i < j {
      var n := j - 1;
      KeysStay(run, acts, n);
      EntryLasts(run, acts, i, n, k);
      assert run[j] == Do(run[n], acts[n]);
      if acts[n].At? && acts[n].key == k {
        EntryStays(run[n].worlds[k], acts[n].event, run[n].now);
      }
    }
  }

  /**
    A degraded write is read back by ReadFresh if and only if, when it was made, the journal showed nothing or
    already that payload. Otherwise the older entry is what every fresh read returns, in every later state until
    a journal write, an expiry or a DLQ deletion of the key, whatever else happens.
    */
  lemma DegradedWriteIsReadIff(run: seq<State>, acts: seq<Action>, i: nat, j: nat, k: Key, id: nat, payload: Payload)
    requires IsRun(run, acts) && i < j < |run| && k in run[0].worlds && k in run[j].worlds
    requires acts[i] == At(k, Degraded(DirectWrite(id, payload)))
    requires EntryUntouched(acts, i + 1, j, k)
    ensures k in run[i].worlds && k in run[i + 1].worlds
    ensures var shown := run[i].worlds[k].slot.Visible();
            && (FreshRead(run[i + 1].worlds[k], run[i + 1].worlds[k]) == Some(payload) <==> shown.None? || shown == Some(payload))
            && (shown.Some? ==> FreshRead(run[j].worlds[k], run[j].worlds[k]) == shown)
  {
    DirectWriteIsNewest(run, acts, i, k, id, payload);
    if run[i].worlds[k].slot.Visible().Some? {
      EntryLasts(run, acts, i + 1, j, k);
    }
  }

  // ── DLQ upserts ────────────────────────────────────────────────────────────

  /** From state i to state j no step on k removes its journal entry. */
  predicate EntryKept(acts: seq<Action>, i: nat, j: nat, k: Key)
    requires j <= |acts|
  {
    forall n :: i <= n < j && acts[n].At? && acts[n].key == k ==> !RemovesEntry(acts[n].event)
  }

  lemma {:induction false} JournalKeepsUp(run: seq<State>, acts: seq<Action>, i: nat, j: nat, k: Key)
    requires IsRun(run, acts) && i <= j < |run| && k in run[0].worlds && k in run[i].worlds && k in run[j].worlds
    requires EntryKept(acts, i, j, k) && KeepsUp(run[i].worlds[k])
    ensures KeepsUp(run[j].worlds[k])
    decreases j - i
  {
    if i < j {
      var n := j - 1;
      KeysStay(run, acts, n);
      JournalKeepsUp(run, acts, i, n, k);
      assert run[j] == Do(run[n], acts[n]);
      if acts[n].At? && acts[n].key == k {
        StepKeepsUp(run[n].worlds[k], acts[n].event, run[n].now);
      }
    }
  }

  /**
    A DLQ upsert whose payload has not left the journal since it was drained puts nothing ahead of the journal: a
    fresh read right after it returns the upserted write or a later one. It has left only by an expiry or a
    deletion of the key between drain and upsert.
    */
  lemma PromptUpsertOutrunsNothing(run: seq<State>, acts: seq<Action>, i: nat, j: nat, k: Key)
    requires IsRun(run, acts) && i < j < |acts| && k in run[0].worlds && k in run[i].worlds && k in run[j].worlds
    requires acts[i] == At(k, Dlq(DlqDrain)) && acts[j] == At(k, Dlq(DlqApply)) && EntryKept(acts, i, j, k)
    ensures k in run[j + 1].worlds && run[j].worlds[k].replay.Some?
    ensures var w := run[j + 1].worlds[k]; AtLeast(w, run[j].worlds[k].replay.value.num, FreshRead(w, w))
  {
    ReachableSound(run, acts, i, k);
    assert run[i + 1] == Do(run[i], acts[i]);
    assert run[j + 1] == Do(run[j], acts[j]);
    assert KeepsUp(run[i + 1].worlds[k]);
    JournalKeepsUp(run, acts, i + 1, j, k);
    ReachableSound(run, acts, j + 1, k);
    var w := run[j + 1].worlds[k];
    if w.slot.Visible().Some? {
      assert FreshRead(w, w) == w.Version(w.jnum);
    } else {
      assert FreshRead(w, w) == w.Version(w.snum);
    }
  }

  // ── When the record goes back ──────────────────────────────────────────────

  /** Events that write the record. */
  predicate Stores(e: Event) {
    (e.Flusher? && e.flusher.SinkApply?) || (e.Dlq? && e.dlq.DlqApply?) || (e.Degraded? && e.direct.DirectWrite?)
  }

  lemma OnlyStoresMoveTheRecord(w: World, e: Event, now: int)
    requires Enabled(w, e, now) && !Stores(e)
    ensures Next(w, e, now).snum == w.snum && Next(w, e, now).store == w.store
  {
    match e
    case Writer(p) =>
    case Flusher(f) =>
    case Reader(r) =>
    case Dlq(d) =>
    case Degraded(g) =>
    case Expire =>
  }

  predicate StoresAt(acts: seq<Action>, n: nat, k: Key)
    requires n < |acts|
  {
    acts[n].At? && acts[n].key == k && Stores(acts[n].event)
  }

  /** Step n is the last one from i on, before j, that writes k's record. */
  predicate LastStored(acts: seq<Action>, i: nat, j: nat, k: Key, n: nat)
    requires j <= |acts|
  {
    i <= n < j && StoresAt(acts, n, k) && forall m :: n < m < j ==> !StoresAt(acts, m, k)
  }

  lemma {:induction false} RecordStays(run: seq<State>, acts: seq<Action>, i: nat, j: nat, k: Key)
    requires IsRun(run, acts) && i <= j < |run| && k in run[0].worlds && k in run[i].worlds && k in run[j].worlds
    requires forall m :: i <= m < j ==> !StoresAt(acts, m, k)
    ensures run[j].worlds[k].snum == run[i].worlds[k].snum
    decreases j - i
  {
    if i < j {
      KeysStay(run, acts, j - 1);
      RecordStays(run, acts, i, j - 1, k);
      assert run[j] == Do(run[j - 1], acts[j - 1]);
      assert !StoresAt(acts, j - 1, k);
      if acts[j - 1].At? && acts[j - 1].key == k {
        OnlyStoresMoveTheRecord(run[j - 1].worlds[k], acts[j - 1].event, run[j - 1].now);
      }
    }
  }

  /** The record before step j is what the last store before it wrote, or what it was at i. */
  lemma {:induction false} RecordComesFrom(run: seq<State>, acts: seq<Action>, i: nat, j: nat, k: Key) returns (n: Option<nat>)
    requires IsRun(run, acts) && i <= j < |run| && k in run[0].worlds && k in run[i].worlds && k in run[j].worlds
    ensures n.Some? ==> LastStored(acts, i, j, k, n.value) && k in run[n.value + 1].worlds
                        && run[j].worlds[k].snum == run[n.value + 1].worlds[k].snum
    ensures n.None? ==> (forall m :: i <= m < j ==> !StoresAt(acts, m, k)) && run[j].worlds[k].snum == run[i].worlds[k].snum
    decreases j - i
  {
    if i == j {
      n := None;
    } else if StoresAt(acts, j - 1, k) {
      n := Some(j - 1);
    } else {
      KeysStay(run, acts, j - 1);
      RecordStays(run, acts, j - 1, j, k);
      n := RecordComesFrom(run, acts, i, j - 1, k);
    }
  }

  /** The last write of k's record since i wrote a write accepted after number num. */
  ghost predicate LaterWriteStored(run: seq<State>, acts: seq<Action>, i: nat, j: nat, k: Key, num: nat)
    requires |run| == |acts| + 1 && j <= |acts|
  {
    exists n :: LastStored(acts, i, j, k, n) && k in run[n + 1].worlds && run[n + 1].worlds[k].snum > num
  }

  lemma LastStoredIsUnique(acts: seq<Action>, i: nat, j: nat, k: Key, n: nat, m: nat)
    requires j <= |acts| && LastStored(acts, i, j, k, n) && LastStored(acts, i, j, k, m)
    ensures n == m
  {
  }

  /** A number no smaller than the record at i is passed before j exactly if a later write was stored in between. */
  lemma PassedIff(run: seq<State>, acts: seq<Action>, i: nat, j: nat, k: Key, num: nat)
    requires IsRun(run, acts) && i <= j < |run| && k in run[0].worlds && k in run[i].worlds && k in run[j].worlds
    requires run[i].worlds[k].snum <= num
    ensures num < run[j].worlds[k].snum <==> LaterWriteStored(run, acts, i, j, k, num)
  {
    var n := RecordComesFrom(run, acts, i, j, k);
    if LaterWriteStored(run, acts, i, j, k, num) {
      var m :| LastStored(acts, i, j, k, m) && k in run[m + 1].worlds && run[m + 1].worlds[k].snum > num;
      if n.Some? {
        LastStoredIsUnique(acts, i, j, k, n.value, m);
      }
    } else if n.Some? {
      assert LastStored(acts, i, j, k, n.value);
    }
  }

  /** No step of the DLQ processor on k from i to j. */
  predicate NoDlqStep(acts: seq<Action>, i: nat, j: nat, k: Key)
    requires j <= |acts|
  {
    forall n :: i <= n < j && acts[n].At? && acts[n].key == k ==> !acts[n].event.Dlq?
  }

  lemma OthersKeepReplay(w: World, e: Event, now: int)
    requires Enabled(w, e, now) && !e.Dlq?
    ensures Next(w, e, now).replay == w.replay
  {
    match e
    case Writer(p) =>
    case Flusher(f) =>
    case Reader(r) =>
    case Degraded(g) =>
    case Expire =>
  }

  lemma {:induction false} ReplayIsHeld(run: seq<State>, acts: seq<Action>, i: nat, j: nat, k: Key)
    requires IsRun(run, acts) && i <= j < |run| && k in run[0].worlds && k in run[i].worlds && k in run[j].worlds
    requires NoDlqStep(acts, i, j, k)
    ensures run[j].worlds[k].replay == run[i].worlds[k].replay
    decreases j - i
  {
    if i < j {
      KeysStay(run, acts, j - 1);
      ReplayIsHeld(run, acts, i, j - 1, k);
      assert run[j] == Do(run[j - 1], acts[j - 1]);
      if acts[j - 1].At? && acts[j - 1].key == k {
        OthersKeepReplay(run[j - 1].worlds[k], acts[j - 1].event, run[j - 1].now);
      }
    }
  }

  /** The journal of k is no older than its record: no late hydration, hidden degraded write or outrunning upsert so far. */
  predicate JournalIsFirst(w: World) {
    Clean(w) && !w.hz.late && !w.hz.hidden && !w.hz.outran
  }

  /**
    A DLQ upsert moves the record back if and only if, since the payload was drained, the last thing to write the
    record was a later write: a flush of a rewritten key or a degraded write. If nothing wrote the record in between,
    it never goes back.
    */
  lemma UpsertGoesBackIff(run: seq<State>, acts: seq<Action>, i: nat, j: nat, k: Key)
    requires IsRun(run, acts) && i < j < |acts| && k in run[0].worlds && k in run[i].worlds && k in run[j].worlds && k in run[j + 1].worlds
    requires acts[i] == At(k, Dlq(DlqDrain)) && acts[j] == At(k, Dlq(DlqApply)) && NoDlqStep(acts, i + 1, j, k)
    requires JournalIsFirst(run[i].worlds[k])
    ensures var before, after := run[j].worlds[k], run[j + 1].worlds[k];
            && after.snum == run[i].worlds[k].jnum && after.store == run[i].worlds[k].slot.Visible()
            && (after.snum < before.snum <==> LaterWriteStored(run, acts, i + 1, j, k, run[i].worlds[k].jnum))
  {
    ReachableInv(run, acts, i, k);
    KeysStay(run, acts, i + 1);
    assert run[i + 1] == Do(run[i], acts[i]);
    assert run[j + 1] == Do(run[j], acts[j]);
    ReplayIsHeld(run, acts, i + 1, j, k);
    PassedIff(run, acts, i + 1, j, k, run[i].worlds[k].jnum);
  }

  /** No drain of k from i to j. */
  predicate NoDrain(acts: seq<Action>, i: nat, j: nat, k: Key)
    requires j <= |acts|
  {
    forall n :: i <= n < j && acts[n].At? && acts[n].key == k ==> acts[n].event != Flusher(Drain)
  }

  /** The batch that holds k, if any still does, holds write num of it. */
  predicate FlightHolds(w: World, num: nat, payload: Option<Payload>) {
    w.flight.Some? ==> w.flight.value.num == num && w.flight.value.payload == payload
  }

  lemma OthersKeepFlight(w: World, e: Event, now: int, num: nat, payload: Option<Payload>)
    requires Enabled(w, e, now) && e != Flusher(Drain) && FlightHolds(w, num, payload)
    ensures FlightHolds(Next(w, e, now), num, payload)
  {
    match e
    case Writer(p) =>
    case Flusher(f) =>
    case Reader(r) =>
    case Dlq(d) =>
    case Degraded(g) =>
    case Expire =>
  }

  lemma {:induction false} FlightIsHeld(run: seq<State>, acts: seq<Action>, i: nat, j: nat, k: Key, num: nat, payload: Option<Payload>)
    requires IsRun(run, acts) && i <= j < |run| && k in run[0].worlds && k in run[i].worlds && k in run[j].worlds
    requires NoDrain(acts, i, j, k) && FlightHolds(run[i].worlds[k], num, payload)
    ensures FlightHolds(run[j].worlds[k], num, payload)
    decreases j - i
  {
    if i < j {
      KeysStay(run, acts, j - 1);
      FlightIsHeld(run, acts, i, j - 1, k, num, payload);
      assert run[j] == Do(run[j - 1], acts[j - 1]);
      if acts[j - 1].At? && acts[j - 1].key == k {
        OthersKeepFlight(run[j - 1].worlds[k], acts[j - 1].event, run[j - 1].now, num, payload);
      }
    }
  }

  /**
    The same for a flush: the sink moves the record back if and only if, since the batch was drained, the last thing
    to write the record was a later write, which then was a degraded write or a DLQ upsert.
    */
  lemma FlushGoesBackIff(run: seq<State>, acts: seq<Action>, i: nat, j: nat, k: Key)
    requires IsRun(run, acts) && i < j < |acts| && k in run[0].worlds && k in run[i].worlds && k in run[j].worlds && k in run[j + 1].worlds
    requires acts[i] == At(k, Flusher(Drain)) && acts[j] == At(k, Flusher(SinkApply)) && NoDrain(acts, i + 1, j, k)
    requires Clean(run[i].worlds[k])
    ensures var before, after := run[j].worlds[k], run[j + 1].worlds[k];
            && after.snum == run[i].worlds[k].jnum && after.store == run[i].worlds[k].slot.Visible()
            && (after.snum < before.snum <==> LaterWriteStored(run, acts, i + 1, j, k, run[i].worlds[k].jnum))
  {
    ReachableInv(run, acts, i, k);
    KeysStay(run, acts, i + 1);
    assert run[i + 1] == Do(run[i], acts[i]);
    assert run[j + 1] == Do(run[j], acts[j]);
    FlightIsHeld(run, acts, i + 1, j, k, run[i].worlds[k].jnum, run[i].worlds[k].slot.Visible());
    PassedIff(run, acts, i + 1, j, k, run[i].worlds[k].jnum);
  }

  // ── Recovery ───────────────────────────────────────────────────────────────

  /** The same key, its races forgiven. No step reads the flags. */
  function Forgiven(w: World): World {
    w.(hz := w.hz.(overtook := false, clobbered := false, misfired := false, late := false, hidden := false,
                   outran := false, revived := false))
  }

  /** The step is one of the races, or would be a first one. */
  predicate Races(w: World, e: Event, now: int)
    requires Enabled(w, e, now)
  {
    Forgiven(Next(Forgiven(w), e, now)) != Next(Forgiven(w), e, now)
  }

  lemma WriteForgives(w: World, payload: Payload, ts: int)
    ensures Forgiven(OnWrite(w, payload, ts)) == Forgiven(OnWrite(Forgiven(w), payload, ts))
  {
  }

  lemma WriterForgives(w: World, e: WriterStep, now: int)
    ensures Forgiven(WriterNext(w, e, now)) == Forgiven(WriterNext(Forgiven(w), e, now))
  {
    match e
    case Plain(payload, ts) => WriteForgives(w, payload, ts);
    case Dedup(payload, ts, ttl) => DedupForgives(w, payload, ts, ttl, now);
  }

  lemma DedupForgives(w: World, payload: Payload, ts: int, ttl: int, now: int)
    ensures Forgiven(OnWriteDedup(w, payload, ts, ttl, now)) == Forgiven(OnWriteDedup(Forgiven(w), payload, ts, ttl, now))
  {
    if IsDuplicate(w.slot, payload) {
      assert IsDuplicate(Forgiven(w).slot, payload);
    }
  }

  lemma FlusherForgives(w: World, e: FlusherStep, now: int)
    requires FlusherCan(w, e)
    ensures Forgiven(FlusherNext(w, e, now)) == Forgiven(FlusherNext(Forgiven(w), e, now))
  {
    match e
    case Drain =>
    case SinkApply =>
    case Resolve(fate) =>
    case RunCommit(ttl, expiry) =>
    case RunDeadLetter(at, reason) =>
    case Abandon =>
  }

  lemma ReaderForgives(w: World, e: ReaderStep, now: int)
    requires ReaderCan(w, e)
    ensures Forgiven(ReaderNext(w, e, now)) == Forgiven(ReaderNext(Forgiven(w), e, now))
  {
    match e
    case SourceRead(id) =>
    case RunHydrate(id, ts, ttl) =>
    case Refresh(ttl, expiry) =>
  }

  lemma DlqForgives(w: World, e: DlqStep)
    requires DlqCan(w, e)
    ensures Forgiven(DlqNext(w, e)) == Forgiven(DlqNext(Forgiven(w), e))
  {
  }

  lemma DegradedForgives(w: World, e: DegradedStep)
    requires DegradedCan(w, e)
    ensures Forgiven(DegradedNext(w, e)) == Forgiven(DegradedNext(Forgiven(w), e))
  {
  }

  lemma FlagsAreNotRead(w: World, e: Event, now: int)
    requires Enabled(w, e, now)
    ensures Enabled(Forgiven(w), e, now)
    ensures Forgiven(Next(w, e, now)) == Forgiven(Next(Forgiven(w), e, now))
  {
    match e
    case Writer(p) => WriterForgives(w, p, now);
    case Flusher(f) => FlusherForgives(w, f, now);
    case Reader(r) => ReaderForgives(w, r, now);
    case Dlq(d) => DlqForgives(w, d);
    case Degraded(g) => DegradedForgives(w, g);
    case Expire =>
  }

  /** From state i to state j no step on k is a race. */
  predicate NoRace(run: seq<State>, acts: seq<Action>, i: nat, j: nat, k: Key)
    requires IsRun(run, acts) && j < |run|
  {
    forall n {:trigger acts[n]} :: i <= n < j && acts[n].At? && acts[n].key == k ==>
      CanDo(run[n], acts[n]) && !Races(run[n].worlds[k], acts[n].event, run[n].now)
  }

  lemma {:induction false} ForgivenInv(run: seq<State>, acts: seq<Action>, i: nat, j: nat, k: Key)
    requires IsRun(run, acts) && i <= j < |run| && k in run[0].worlds && k in run[i].worlds && k in run[j].worlds
    requires Inv(Forgiven(run[i].worlds[k])) && NoRace(run, acts, i, j, k)
    ensures Inv(Forgiven(run[j].worlds[k]))
    decreases j - i
  {
    if i < j {
      KeysStay(run, acts, j - 1);
      ForgivenInv(run, acts, i, j - 1, k);
      assert run[j] == Do(run[j - 1], acts[j - 1]);
      if acts[j - 1].At? && acts[j - 1].key == k {
        var w := run[j - 1].worlds[k];
        FlagsAreNotRead(w, acts[j - 1].event, run[j - 1].now);
        StepKeepsInv(Forgiven(w), acts[j - 1].event, run[j - 1].now);
      }
    }
  }

  /**
    Recovery: from a state in which the invariant holds but for the flags, and as long as no further race happens,
    the promises hold again: the latest accepted write is dirty in the journal, or dead-lettered there, or in the
    store, or was given up on purpose; and a dirty key is persistent with the latest write.
    */
  lemma PromisesAreRestored(run: seq<State>, acts: seq<Action>, i: nat, j: nat, k: Key)
    requires IsRun(run, acts) && i <= j < |run| && k in run[0].worlds && k in run[i].worlds && k in run[j].worlds
    requires Inv(Forgiven(run[i].worlds[k])) && NoRace(run, acts, i, j, k)
    requires run[j].worlds[k].hist != [] && run[j].worlds[k].Latest() != Some([])
    ensures var w := run[j].worlds[k];
            && (w.slot.dirty.Some? ==> w.slot.Persistent() && w.slot.Stored() == w.Latest())
            && (|| (w.slot.dirty.Some? && w.slot.Stored() == w.Latest())
                || (w.slot.dead.Some? && w.slot.Stored() == w.Latest())
                || w.store == w.Latest()
                || w.discarded == |w.hist|)
  {
    ForgivenInv(run, acts, i, j, k);
  }

  /** The journal and the store hold the latest write, nothing is on its way, and the content hash fits. */
  predicate Restored(w: World) {
    && w.flight.None? && w.replay.None? && w.slot.dirty.None?
    && w.slot.Stored().Some? && w.jnum == |w.hist| && w.snum == |w.hist| >= 1 && w.acked == w.Latest()
    && (w.hz.mixed || w.slot.Hash().None? || w.slot.Hash() == Some(Digest(w.slot.Stored().value)))
    && forall id :: id in w.probes ==> w.probes[id] < |w.hist|
  }

  lemma RestoredIsSafe(w: World)
    requires Sound(w) && ReadsRecorded(w) && Restored(w)
    ensures Inv(Forgiven(w))
  {
    var f := Forgiven(w);
    assert WritesAreSafe(f);
    forall id | id in f.hydrations
      ensures HydrationIsTimely(f, id)
    {
    }
    forall id | id in f.probes
      ensures ProbeHolds(f, id)
    {
    }
  }

  /** A key as an undisturbed flush of payload leaves it. */
  function Flushed(w: World, payload: Payload, ts: int, ttl: int, expiry: int, now: int): World {
    var written := OnWrite(w, payload, ts);
    var applied := OnSinkApply(OnDrain(written));
    OnCommit(OnResolve(applied, OfferCommit), ttl, expiry, now)
  }

  lemma FlushedIsRestored(w: World, payload: Payload, ts: int, ttl: int, expiry: int, now: int)
    requires Sound(w) && ReadsRecorded(w) && w.replay.None? && payload != [] && ttl > 0
    ensures Restored(Flushed(w, payload, ts, ttl, expiry, now))
  {
    var written := OnWrite(w, payload, ts);
    assert written.slot.Visible() == Some(payload) && written.slot.dirty.Some?;
  }

  lemma FlusherKeepsBoth(w: World, e: FlusherStep, now: int)
    requires Sound(w) && ReadsRecorded(w) && FlusherCan(w, e)
    ensures Sound(FlusherNext(w, e, now)) && ReadsRecorded(FlusherNext(w, e, now))
  {
    FlusherKeepsSound(w, e, now);
    FlusherGrows(w, e, now);
  }

  lemma AppliedIsSound(written: World, now: int)
    requires Sound(written) && ReadsRecorded(written)
    requires written.flight.None? && written.slot.dirty.Some? && written.slot.Visible().Some?
    ensures var applied := OnSinkApply(OnDrain(written));
            Sound(applied) && ReadsRecorded(applied) && FlusherCan(applied, Resolve(OfferCommit))
  {
    FlusherKeepsBoth(written, Drain, now);
    FlusherKeepsBoth(OnDrain(written), SinkApply, now);
  }

  lemma FlushedIsSound(w: World, payload: Payload, ts: int, ttl: int, expiry: int, now: int)
    requires Sound(w) && ReadsRecorded(w) && w.flight.None? && payload != []
    ensures var end := Flushed(w, payload, ts, ttl, expiry, now); Sound(end) && ReadsRecorded(end)
  {
    WriterKeepsSound(w, Plain(payload, ts), now);
    WriterKeepsReads(w, Plain(payload, ts), now);
    AppliedIsSound(OnWrite(w, payload, ts), now);
    var applied := OnSinkApply(OnDrain(OnWrite(w, payload, ts)));
    FlusherKeepsBoth(applied, Resolve(OfferCommit), now);
    FlusherKeepsBoth(OnResolve(applied, OfferCommit), RunCommit(ttl, expiry), now);
  }

  /**
    A later write, once flushed undisturbed, restores the promises: whatever races there have been before, the
    key satisfies the invariant of a clean run, the flags aside.
    */
  lemma FlushRestores(w: World, payload: Payload, ts: int, ttl: int, expiry: int, now: int)
    requires Sound(w) && ReadsRecorded(w) && w.flight.None? && w.replay.None? && payload != [] && ttl > 0
    ensures Inv(Forgiven(Flushed(w, payload, ts, ttl, expiry, now)))
  {
    FlushedIsRestored(w, payload, ts, ttl, expiry, now);
    FlushedIsSound(w, payload, ts, ttl, expiry, now);
    RestoredIsSafe(Flushed(w, payload, ts, ttl, expiry, now));
  }
}
