/** The whole namespace: every key's world, one clock, and the theorems over every run. */
module Protocol {
  import opened Optional
  import opened Redis
  import opened World
  import opened Invariant
  import Core

  /** log: every accepted write of every key, in the order the journal (or a degraded write) took it. */
  datatype State = State(now: int, worlds: map<Key, World>, log: seq<(Key, Payload)>)

  datatype Action = Tick(ms: nat) | At(key: Key, event: Event)

  predicate CanDo(s: State, a: Action) {
    a.At? ==> a.key in s.worlds && Enabled(s.worlds[a.key], a.event, s.now)
  }

  function Do(s: State, a: Action): State
    requires CanDo(s, a)
  {
    match a
    case Tick(ms) => s.(now := s.now + ms)
    case At(k, e) =>
      var w := s.worlds[k];
      var w' := Next(w, e, s.now);
      s.(worlds := s.worlds[k := w'],
         log := if |w'.hist| == |w.hist| then s.log else s.log + [(k, w'.hist[|w.hist|])])
  }

  /** The accepted writes of one key, in order. */
  function Select(log: seq<(Key, Payload)>, k: Key): seq<Payload> {
    if log == [] then []
    else
      var i := |log| - 1;
      Select(log[..i], k) + (if log[i].0 == k then [log[i].1] else [])
  }

  predicate Start(s: State) {
    forall k :: k in s.worlds ==> Initial(s.worlds[k]) && s.worlds[k].hist == Select(s.log, k)
  }

  /** A run: a start state and one legal action between any two neighbours. */
  predicate IsRun(run: seq<State>, acts: seq<Action>) {
    && |run| == |acts| + 1
    && Start(run[0])
    && forall i {:trigger acts[i]} :: 0 <= i < |acts| ==> CanDo(run[i], acts[i]) && run[i + 1] == Do(run[i], acts[i])
  }

  // ── Every run ──────────────────────────────────────────────────────────────

  /** The set of keys never changes. */
  lemma {:induction false} KeysStay(run: seq<State>, acts: seq<Action>, i: nat)
    requires IsRun(run, acts) && i < |run|
    ensures run[i].worlds.Keys == run[0].worlds.Keys
  {
    if i > 0 {
      KeysStay(run, acts, i - 1);
      assert run[i] == Do(run[i - 1], acts[i - 1]);
    }
  }

  lemma SelectAppend(log: seq<(Key, Payload)>, q: Key, payload: Payload, k: Key)
    ensures Select(log + [(q, payload)], k) == Select(log, k) + (if q == k then [payload] else [])
  {
    var longer := log + [(q, payload)];
    assert longer[..|log|] == log;
  }

  lemma DoKeepsInv(s: State, a: Action, k: Key)
    requires CanDo(s, a) && k in s.worlds && Inv(s.worlds[k])
    ensures k in Do(s, a).worlds && Inv(Do(s, a).worlds[k])
  {
    if a.At? && a.key == k {
      StepKeepsInv(s.worlds[k], a.event, s.now);
    }
  }

  lemma DoKeepsLog(s: State, a: Action, k: Key)
    requires CanDo(s, a) && k in s.worlds && s.worlds[k].hist == Select(s.log, k)
    requires a.At? ==> Inv(s.worlds[a.key])
    ensures k in Do(s, a).worlds && Do(s, a).worlds[k].hist == Select(Do(s, a).log, k)
  {
    if a.At? {
      var w := s.worlds[a.key];
      StepAdvances(w, a.event, s.now);
      var hist := Next(w, a.event, s.now).hist;
      if |hist| != |w.hist| {
        SelectAppend(s.log, a.key, hist[|w.hist|], k);
      }
    }
  }

  /** Every reachable state satisfies the invariant, and each key's history is its part of the log. */
  lemma {:induction false} ReachableInv(run: seq<State>, acts: seq<Action>, i: nat, k: Key)
    requires IsRun(run, acts) && i < |run| && (k in run[0].worlds || k in run[i].worlds)
    ensures k in run[0].worlds && k in run[i].worlds
    ensures Inv(run[i].worlds[k]) && run[i].worlds[k].hist == Select(run[i].log, k)
  {
    KeysStay(run, acts, i);
    if i == 0 {
      InitialIsInv(run[0].worlds[k]);
    } else {
      ReachableInv(run, acts, i - 1, k);
      assert run[i] == Do(run[i - 1], acts[i - 1]);
      DoKeepsInv(run[i - 1], acts[i - 1], k);
      if acts[i - 1].At? {
        ReachableInv(run, acts, i - 1, acts[i - 1].key);
      }
      DoKeepsLog(run[i - 1], acts[i - 1], k);
    }
  }

  /** Action j either leaves k alone or is one event on it. */
  lemma ActionOnKey(run: seq<State>, acts: seq<Action>, j: nat, k: Key)
    requires IsRun(run, acts) && j < |acts| && k in run[0].worlds
    ensures k in run[j].worlds && k in run[j + 1].worlds && Inv(run[j].worlds[k])
    ensures run[j + 1].worlds[k] == run[j].worlds[k]
            || exists e :: Enabled(run[j].worlds[k], e, run[j].now)
                           && run[j + 1].worlds[k] == Next(run[j].worlds[k], e, run[j].now)
  {
    ReachableInv(run, acts, j, k);
    assert run[j + 1] == Do(run[j], acts[j]);
  }

  lemma ActionAdvances(run: seq<State>, acts: seq<Action>, j: nat, k: Key)
    requires IsRun(run, acts) && j < |acts| && k in run[0].worlds
    ensures k in run[j].worlds && k in run[j + 1].worlds
    ensures Advances(run[j].worlds[k], run[j + 1].worlds[k])
  {
    ActionOnKey(run, acts, j, k);
    if run[j + 1].worlds[k] != run[j].worlds[k] {
      var e :| Enabled(run[j].worlds[k], e, run[j].now)
               && run[j + 1].worlds[k] == Next(run[j].worlds[k], e, run[j].now);
      StepAdvances(run[j].worlds[k], e, run[j].now);
    }
  }

  /** Between any two states of a run every key advances. */
  lemma {:induction false} RunAdvances(run: seq<State>, acts: seq<Action>, i: nat, j: nat, k: Key)
    requires IsRun(run, acts) && i <= j < |run| && k in run[0].worlds
    ensures k in run[i].worlds && k in run[j].worlds
    ensures Advances(run[i].worlds[k], run[j].worlds[k])
    decreases j - i
  {
    if i < j {
      RunAdvances(run, acts, i, j - 1, k);
      ActionAdvances(run, acts, j - 1, k);
      AdvancesIsTransitive(run[i].worlds[k], run[j - 1].worlds[k], run[j].worlds[k]);
    } else {
      ReachableInv(run, acts, i, k);
    }
  }

  /** The bookkeeping is true in every reachable state, whatever races there have been; see Core. */
  lemma {:induction false} ReachableSound(run: seq<State>, acts: seq<Action>, i: nat, k: Key)
    requires IsRun(run, acts) && i < |run| && k in run[i].worlds
    ensures Core.Sound(run[i].worlds[k]) && Core.ReadsRecorded(run[i].worlds[k])
  {
    if i == 0 {
      Core.InitialIsSound(run[0].worlds[k]);
    } else {
      KeysStay(run, acts, i);
      KeysStay(run, acts, i - 1);
      ReachableSound(run, acts, i - 1, k);
      assert run[i] == Do(run[i - 1], acts[i - 1]);
      if acts[i - 1].At? && acts[i - 1].key == k {
        Core.StepKeepsSound(run[i - 1].worlds[k], acts[i - 1].event, run[i - 1].now);
        Core.StepKeepsReads(run[i - 1].worlds[k], acts[i - 1].event, run[i - 1].now);
      }
    }
  }

  // ── The theorems ───────────────────────────────────────────────────────────

  /**
    No accepted write is lost. In every reachable state the latest accepted payload of a key is in the
    journal and dirty, or in the journal and dead-lettered, or is the record in the store; the only way
    out is to be given up on purpose (DLQ Ignore or ReInsert, or seven days in the DLQ).
    */
  lemma NoAcceptedWriteIsLost(run: seq<State>, acts: seq<Action>, i: nat, k: Key)
    requires IsRun(run, acts) && i < |run| && k in run[i].worlds
    requires Clean(run[i].worlds[k])
    requires run[i].worlds[k].hist != [] && run[i].worlds[k].Latest() != Some([])
    ensures var w := run[i].worlds[k];
            || (w.slot.dirty.Some? && w.slot.Persistent() && w.slot.Stored() == w.Latest())
            || (w.slot.dead.Some? && w.slot.Stored() == w.Latest())
            || w.store == w.Latest()
            || w.discarded == |w.hist|
  {
    ReachableInv(run, acts, i, k);
  }

  /**
    The same for acknowledgements, which the dedup script also gives to writes it skips: while no plain
    write has left a foreign content hash behind and no degraded write has bypassed the journal, the
    last acknowledged payload is the latest accepted one.
    */
  lemma NoAcknowledgedWriteIsLost(run: seq<State>, acts: seq<Action>, i: nat, k: Key)
    requires IsRun(run, acts) && i < |run| && k in run[i].worlds
    requires var w := run[i].worlds[k]; Clean(w) && !w.hz.mixed && !w.hz.hidden
    requires run[i].worlds[k].hist != [] && run[i].worlds[k].acked != Some([])
    ensures var w := run[i].worlds[k];
            || (w.slot.dirty.Some? && w.slot.Persistent() && w.slot.Stored() == w.acked)
            || (w.slot.dead.Some? && w.slot.Stored() == w.acked)
            || w.store == w.acked
            || w.discarded == |w.hist|
  {
    ReachableInv(run, acts, i, k);
  }

  /**
    Unflushed state never expires: as long as the DLQ processor has deleted no hash it should have kept, no expiry
    step can ever touch a dirty key, whose payload is persistent. In a clean run that payload is the latest.
    */
  lemma UnflushedNeverExpires(run: seq<State>, acts: seq<Action>, i: nat, k: Key)
    requires IsRun(run, acts) && i < |run| && k in run[i].worlds
    requires !run[i].worlds[k].hz.clobbered && run[i].worlds[k].slot.dirty.Some?
    ensures var w := run[i].worlds[k];
            && w.slot.Persistent() && (forall t :: !CanExpire(w, t))
            && (Clean(w) ==> w.slot.Stored() == w.Latest())
  {
    ReachableSound(run, acts, i, k);
    ReachableInv(run, acts, i, k);
  }

  /**
    The sequence check is sound: as long as the DLQ processor has deleted no hash it should have kept, equality of
    the stored 'v' and the drained one means that the visible payload is the one drained, and the write too. In a
    clean run it is the latest, and a commit then happens only when the store holds it.
    */
  lemma SequenceCheckIsSound(run: seq<State>, acts: seq<Action>, i: nat, k: Key)
    requires IsRun(run, acts) && i < |run| && k in run[i].worlds
    requires var w := run[i].worlds[k]; !w.hz.clobbered && w.flight.Some? && w.slot.Seq() == w.flight.value.seq_
    ensures var w := run[i].worlds[k];
            && w.slot.dirty.Some? && w.slot.Visible() == w.flight.value.payload && w.jnum == w.flight.value.num
            && (Clean(w) ==> w.slot.Stored() == w.Latest() && w.flight.value.num == |w.hist|)
            && (Clean(w) && w.flight.value.stage == Committing ==> w.store == w.Latest())
  {
    ReachableSound(run, acts, i, k);
    ReachableInv(run, acts, i, k);
  }

  /** In a clean run the record never goes back to an earlier write. Races says exactly when it does. */
  lemma StoreNeverGoesBack(run: seq<State>, acts: seq<Action>, i: nat, j: nat, k: Key)
    requires IsRun(run, acts) && i <= j < |run| && k in run[0].worlds && k in run[j].worlds
    requires Clean(run[j].worlds[k])
    ensures k in run[i].worlds
    ensures var a, b := run[i].worlds[k], run[j].worlds[k];
            && a.snum <= b.snum <= |b.hist|
            && a.hist <= b.hist
            && b.store == b.Version(b.snum)
  {
    RunAdvances(run, acts, i, j, k);
    ReachableInv(run, acts, j, k);
  }

  /**
    Hydration never lies. If the journal's payload was not removed between the Source read and the
    script, and only the flusher wrote the record meanwhile, then a hydration that writes writes the
    current record; and one that does not returns an entry at least as new as the record.
    */
  lemma HydrationNeverLies(run: seq<State>, acts: seq<Action>, i: nat, k: Key, id: nat, ts: int, ttl: int)
    requires IsRun(run, acts) && i < |run| && k in run[i].worlds
    requires var w := run[i].worlds[k];
             && Clean(w) && id in w.hydrations
             && !w.hydrations[id].gap && !w.hydrations[id].foreign
    ensures var w := run[i].worlds[k];
            var w' := ReaderNext(w, RunHydrate(id, ts, ttl), run[i].now);
            && (HydrateFills(w.slot) && ttl > 0 ==> w'.slot.Stored() == w.store)
            && (HydrateFills(w.slot) ==> !w'.hz.late || w.hz.late)
            && (!HydrateFills(w.slot) && !w.hz.late && !w.hz.hidden && !w.hz.outran ==>
                  w.snum <= w.jnum <= |w.hist| && w'.slot.Stored() == w.slot.Stored() == w.Version(w.jnum))
  {
    ReachableInv(run, acts, i, k);
    var w := run[i].worlds[k];
    assert HydrationIsTimely(w, id);
  }

  /** Nothing given up by the DLQ, no late hydration, no degraded write behind another journal entry, no empty payload. */
  predicate Tranquil(w: World) {
    Clean(w) && w.discarded == 0 && !w.hz.late && !w.hz.hidden && !w.hz.empty
  }

  /** What ReadFresh returns when its journal read happens in a and its Source read, after a miss, in b. */
  function FreshRead(a: World, b: World): Option<Payload> {
    if a.slot.Visible().Some? then a.slot.Visible() else b.store
  }

  /** Some write from number floor on holds this payload (write 0 is the original record). */
  predicate AtLeast(w: World, floor: nat, answer: Option<Payload>) {
    exists n: nat :: floor <= n <= |w.hist| && answer == w.Version(n)
  }

  /**
    Fresh reads never go back: a ReadFresh that starts in state i, reads the journal in state j and, on
    a miss, the Source in state l, returns a write accepted last before i, or a later one.
    */
  lemma FreshReadNeverGoesBack(run: seq<State>, acts: seq<Action>, i: nat, j: nat, l: nat, k: Key)
    requires IsRun(run, acts) && i <= j <= l < |run| && k in run[0].worlds && k in run[l].worlds
    requires Tranquil(run[l].worlds[k])
    ensures k in run[i].worlds && k in run[j].worlds
    ensures AtLeast(run[l].worlds[k], |run[i].worlds[k].hist|, FreshRead(run[j].worlds[k], run[l].worlds[k]))
  {
    RunAdvances(run, acts, i, j, k);
    RunAdvances(run, acts, j, l, k);
    ReachableInv(run, acts, j, k);
    ReachableInv(run, acts, l, k);
    var a, b := run[j].worlds[k], run[l].worlds[k];
    if a.slot.Visible().Some? {
      assert a.jnum == |a.hist|;
      assert a.slot.Visible() == b.Version(a.jnum);
    } else {
      assert |run[i].worlds[k].hist| <= a.snum <= b.snum && b.store == b.Version(b.snum);
    }
  }

  // ── Coalescing ─────────────────────────────────────────────────────────────

  /** The store as applying every accepted write one by one, in order, would leave it. */
  function ApplyAll(records: map<Key, Payload>, log: seq<(Key, Payload)>): map<Key, Payload> {
    if log == [] then records
    else
      var i := |log| - 1;
      ApplyAll(records, log[..i])[log[i].0 := log[i].1]
  }

  lemma {:induction false} ApplyAllKeepsLast(records: map<Key, Payload>, log: seq<(Key, Payload)>, k: Key)
    ensures Lookup(ApplyAll(records, log), k)
         == if Select(log, k) == [] then Lookup(records, k) else Some(Select(log, k)[|Select(log, k)| - 1])
  {
    if log != [] {
      ApplyAllKeepsLast(records, log[..|log| - 1], k);
    }
  }

  /** Nothing is waiting: not dirty, not dead-lettered, and nothing was given up or is empty. */
  predicate Settled(w: World) {
    Clean(w) && !Pending(w.slot) && (w.hist == [] || (w.Latest() != Some([]) && w.discarded < |w.hist|))
  }

  function Records(s: State): map<Key, Payload> {
    map k | k in s.worlds && s.worlds[k].store.Some? :: s.worlds[k].store.value
  }

  function Origins(s: State): map<Key, Payload> {
    map k | k in s.worlds && s.worlds[k].origin.Some? :: s.worlds[k].origin.value
  }

  /** Every log entry belongs to a key of the namespace. */
  lemma {:induction false} LogStaysInside(run: seq<State>, acts: seq<Action>, i: nat, k: Key)
    requires IsRun(run, acts) && i < |run| && k !in run[0].worlds
    requires Select(run[0].log, k) == []
    ensures Select(run[i].log, k) == []
  {
    if i > 0 {
      LogStaysInside(run, acts, i - 1, k);
      KeysStay(run, acts, i - 1);
      assert run[i] == Do(run[i - 1], acts[i - 1]);
      assert run[i].log == run[i - 1].log || run[i].log[..|run[i].log| - 1] == run[i - 1].log;
    }
  }

  lemma SettledRecordIsLatest(run: seq<State>, acts: seq<Action>, i: nat, k: Key)
    requires IsRun(run, acts) && i < |run| && k in run[i].worlds && Settled(run[i].worlds[k])
    ensures k in run[0].worlds
    ensures run[i].worlds[k].hist == Select(run[i].log, k)
    ensures run[i].worlds[k].store
         == if run[i].worlds[k].hist == [] then run[0].worlds[k].origin
            else Some(run[i].worlds[k].hist[|run[i].worlds[k].hist| - 1])
  {
    ReachableInv(run, acts, i, k);
    RunAdvances(run, acts, 0, i, k);
  }

  /**
    Coalescing preserves meaning: in every reachable state in which no key is dirty or dead-lettered, the
    store is exactly what applying every accepted write one by one in journal order would have left,
    however many intermediate versions were skipped and however often batches were flushed again.
    */
  lemma CoalescingPreservesMeaning(run: seq<State>, acts: seq<Action>, i: nat)
    requires IsRun(run, acts) && i < |run|
    requires forall k :: k !in run[0].worlds ==> Select(run[0].log, k) == []
    requires forall k :: k in run[i].worlds ==> Settled(run[i].worlds[k])
    ensures Records(run[i]) == ApplyAll(Origins(run[0]), run[i].log)
  {
    var s := run[i];
    var ideal := ApplyAll(Origins(run[0]), s.log);
    forall k
      ensures Lookup(Records(s), k) == Lookup(ideal, k)
    {
      ApplyAllKeepsLast(Origins(run[0]), s.log, k);
      if k in s.worlds {
        SettledRecordIsLatest(run, acts, i, k);
      } else {
        KeysStay(run, acts, i);
        LogStaysInside(run, acts, i, k);
      }
    }
    assert forall k :: k in ideal <==> Lookup(ideal, k).Some?;
    assert forall k :: k in Records(s) <==> Lookup(Records(s), k).Some?;
  }
}
