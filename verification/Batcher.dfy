/**
  The write batcher: senders, a bounded channel, the batcher goroutine and StopBatcher, as a transition
  system whose steps interleave freely. Every handed-over entry has an id of its own.
  */
module Batcher {
  import opened Optional

  type Id = nat

  /** How one EVALSHA of a pipeline ended. A broken reply says nothing about the script: it may have run. */
  datatype Reply = Done | NoScript | Broken(executed: bool)

  /** nil, or an error. */
  datatype Result = Nil | Failed

  // ── pipelineWrites ─────────────────────────────────────────────────────────

  function ResultOf(r: Reply): Result {
    if r == Done then Nil else Failed
  }

  function RunsOf(r: Reply): nat {
    if r == Done || r == Broken(true) then 1 else 0
  }

  /** How many of the first n replies ask for a retry. */
  function Retries(replies: seq<Reply>, n: nat): (c: nat)
    requires n <= |replies|
    ensures c <= n
  {
    if n == 0 then 0 else Retries(replies, n - 1) + (if replies[n - 1] == NoScript then 1 else 0)
  }

  /** The reply that settles entry i: the first one, or the retry's after a reload that worked. */
  function Settled(first: seq<Reply>, reloads: bool, second: seq<Reply>, i: nat): Reply
    requires i < |first|
  {
    if first[i] != NoScript || !reloads then first[i]
    else if Retries(first, i) < |second| then second[Retries(first, i)]
    else NoScript
  }

  /** The place of entry i among those that asked for a retry. */
  function RetryOf(replies: seq<Reply>, i: nat): (q: nat)
    requires i < |replies| && replies[i] == NoScript
    ensures q < Retries(replies, |replies|) && q == Retries(replies, i)
  {
    RetriesAreMonotone(replies, i, |replies|);
    Retries(replies, i)
  }

  lemma {:induction false} RetriesAreMonotone(replies: seq<Reply>, a: nat, b: nat)
    requires a <= b <= |replies|
    ensures Retries(replies, a) <= Retries(replies, b)
    ensures a < b && replies[a] == NoScript ==> Retries(replies, a) < Retries(replies, b)
  {
    if a < b {
      RetriesAreMonotone(replies, a, b - 1);
    }
  }

  /** noscript lists, in order, the entries among the first n that asked for a retry. */
  predicate ListsRetries(replies: seq<Reply>, n: nat, noscript: seq<nat>)
    requires n <= |replies|
  {
    && |noscript| == Retries(replies, n)
    && (forall q :: 0 <= q < |noscript| ==>
          noscript[q] < n && replies[noscript[q]] == NoScript && Retries(replies, noscript[q]) == q)
  }

  /** The first execution of the pipeline. */
  method RunAll(n: nat, first: seq<Reply>) returns (errs: seq<Result>, runs: seq<nat>, noscript: seq<nat>)
    requires |first| == n
    ensures |errs| == n && |runs| == n
    ensures forall m :: 0 <= m < n ==> errs[m] == ResultOf(first[m]) && runs[m] == RunsOf(first[m])
    ensures ListsRetries(first, n, noscript)
  {
    errs, runs, noscript := [], [], [];
    for i := 0 to n
      invariant |errs| == i && |runs| == i
      invariant forall m :: 0 <= m < i ==> errs[m] == ResultOf(first[m]) && runs[m] == RunsOf(first[m])
      invariant ListsRetries(first, i, noscript)
    {
      errs := errs + [ResultOf(first[i])];
      runs := runs + [RunsOf(first[i])];
      if first[i] == NoScript {
        noscript := noscript + [i];
      }
    }
  }

  /** The reply that counts for entry m once the first q retries are in. */
  function Latest(first: seq<Reply>, second: seq<Reply>, q: nat, m: nat): Reply
    requires m < |first| && q <= |second|
  {
    if first[m] == NoScript && Retries(first, m) < q then second[Retries(first, m)] else first[m]
  }

  /**
    pipelineWrites: run every entry's script in one pipeline, reload and retry the ones that met an empty
    script cache, and return each entry's own result. runs[i] counts the executions of entry i's script:
    a nil result means exactly one, and no result means more.
    */
  method PipelineWrites(n: nat, first: seq<Reply>, reloads: bool, second: seq<Reply>)
    returns (errs: seq<Result>, runs: seq<nat>)
    requires |first| == n && |second| == Retries(first, n)
    ensures |errs| == n && |runs| == n
    ensures forall i :: 0 <= i < n ==> errs[i] == ResultOf(Settled(first, reloads, second, i))
    ensures forall i :: 0 <= i < n ==> runs[i] == RunsOf(Settled(first, reloads, second, i))
    ensures forall i :: 0 <= i < n && errs[i] == Nil ==> runs[i] == 1
    ensures forall i :: 0 <= i < n ==> runs[i] <= 1
    ensures forall i :: 0 <= i < n && first[i] == Done ==> errs[i] == Nil && runs[i] == 1
    ensures forall i :: 0 <= i < n && first[i].Broken? ==>
              errs[i] == Failed && runs[i] == if first[i].executed then 1 else 0
    ensures forall i :: 0 <= i < n && first[i] == NoScript && !reloads ==> errs[i] == Failed && runs[i] == 0
    ensures forall i :: 0 <= i < n && first[i] == NoScript && reloads ==>
              && (errs[i] == Nil <==> second[RetryOf(first, i)] == Done)
              && (runs[i] == 1 <==> second[RetryOf(first, i)] == Done || second[RetryOf(first, i)] == Broken(true))
  {
    var noscript: seq<nat>;
    errs, runs, noscript := RunAll(n, first);
    if |noscript| > 0 && reloads {
      for q := 0 to |noscript|
        invariant |errs| == n && |runs| == n
        invariant forall m :: 0 <= m < n ==>
                    errs[m] == ResultOf(Latest(first, second, q, m)) && runs[m] == RunsOf(Latest(first, second, q, m))
      {
        forall m | 0 <= m < n && m != noscript[q] && first[m] == NoScript
          ensures Retries(first, m) != q
        {
          if m < noscript[q] {
            RetriesAreMonotone(first, m, noscript[q]);
          } else {
            RetriesAreMonotone(first, noscript[q], m);
          }
        }
        errs := errs[noscript[q] := ResultOf(second[q])];
        runs := runs[noscript[q] := runs[noscript[q]] + RunsOf(second[q])];
      }
    }
    forall m | 0 <= m < n && first[m] == NoScript
      ensures Retries(first, m) < Retries(first, n)
    {
      RetriesAreMonotone(first, m, n);
    }
  }

  // ── The transition system ──────────────────────────────────────────────────

  datatype Phase = NotStarted | Looping | Draining | Exited

  /**
    chan is batchCh and buf the batcher's buffer; sending holds the senders that saw batchRunning under
    the read lock and have not left it yet; stopping is set for good by StopBatcher. accepted logs the entries in the order they entered the
    channel, delivered the results in the order they were sent, executed the script runs.
    */
  datatype Batch = Batch(
    size: nat, cap: nat,
    chan: seq<Id>, buf: seq<Id>,
    sending: set<Id>,
    running: bool, stopping: bool, stopClosed: bool,
    phase: Phase,
    restarted: bool,
    seen: set<Id>,
    accepted: seq<Id>,
    delivered: seq<(Id, Result)>,
    executed: seq<Id>)

  datatype Step =
    | StartBatcher
    | EnterLock(id: Id)                       // RLock, batchRunning is true
    | HandOver(id: Id)                        // batchCh <- e, then RUnlock
    | GiveUp(id: Id)                          // ctx ended first, then RUnlock
    | Receive(replies: map<Id, Reply>)        // the batcher takes an entry; it flushes a full buffer
    | Tick(replies: map<Id, Reply>)
    | SetStopped                              // StopBatcher under the write lock
    | CloseStop
    | SeeStop
    | DrainOne(replies: map<Id, Reply>)
    | DrainLast(replies: map<Id, Reply>)

  predicate Can(s: Batch, e: Step) {
    match e
    case StartBatcher => !s.running && (s.phase == NotStarted || s.phase == Exited)
    case EnterLock(id) => s.running && id !in s.seen
    case HandOver(id) => id in s.sending && |s.chan| < s.cap
    case GiveUp(id) => id in s.sending
    case Receive(replies) => s.phase == Looping && s.chan != []
    case Tick(_) => s.phase == Looping
    case SetStopped => s.sending == {} && !s.stopping
    case CloseStop => s.stopping && !s.stopClosed
    case SeeStop => s.phase == Looping && s.stopClosed
    case DrainOne(_) => s.phase == Draining && s.chan != []
    case DrainLast(_) => s.phase == Draining && s.chan == []
  }

  function ReplyTo(replies: map<Id, Reply>, id: Id): Reply {
    if id in replies then replies[id] else Broken(false)
  }

  function Results(ids: seq<Id>, replies: map<Id, Reply>): (r: seq<(Id, Result)>)
    ensures |r| == |ids|
    ensures forall i :: 0 <= i < |ids| ==> r[i] == (ids[i], ResultOf(ReplyTo(replies, ids[i])))
  {
    seq(|ids|, i requires 0 <= i < |ids| => (ids[i], ResultOf(ReplyTo(replies, ids[i]))))
  }

  /** The entries of a batch whose script ran. */
  function Ran(ids: seq<Id>, replies: map<Id, Reply>): (r: seq<Id>)
    ensures forall id :: id in r <==> id in ids && RunsOf(ReplyTo(replies, id)) == 1
  {
    if ids == [] then []
    else
      var n := |ids| - 1;
      Ran(ids[..n], replies) + (if RunsOf(ReplyTo(replies, ids[n])) == 1 then [ids[n]] else [])
  }

  /** flushBatch: run the buffered entries in one pipeline and hand each writer its own result. */
  function Flush(s: Batch, replies: map<Id, Reply>): Batch {
    s.(buf := [], delivered := s.delivered + Results(s.buf, replies), executed := s.executed + Ran(s.buf, replies))
  }

  function Take(s: Batch, replies: map<Id, Reply>): Batch
    requires s.chan != []
  {
    var s' := s.(chan := s.chan[1..], buf := s.buf + [s.chan[0]]);
    if |s'.buf| >= s.size then Flush(s', replies) else s'
  }

  function Next(s: Batch, e: Step): Batch
    requires Can(s, e)
  {
    match e
    case StartBatcher => s.(running := true, phase := Looping, restarted := s.restarted || s.stopping)
    case EnterLock(id) => s.(sending := s.sending + {id}, seen := s.seen + {id})
    case HandOver(id) => s.(sending := s.sending - {id}, chan := s.chan + [id], accepted := s.accepted + [id])
    case GiveUp(id) => s.(sending := s.sending - {id})
    case Receive(replies) => Take(s, replies)
    case Tick(replies) => Flush(s, replies)
    case SetStopped => s.(running := false, stopping := true)
    case CloseStop => s.(stopClosed := true)
    case SeeStop => s.(phase := Draining)
    case DrainOne(replies) => Take(s, replies)
    case DrainLast(replies) => Flush(s, replies).(phase := Exited)
  }

  predicate Initial(s: Batch) {
    && s.size > 0 && s.cap > 0
    && s.chan == [] && s.buf == [] && s.sending == {} && s.seen == {}
    && !s.running && !s.stopping && !s.stopClosed && s.phase == NotStarted && !s.restarted
    && s.accepted == [] && s.delivered == [] && s.executed == []
  }

  predicate IsRun(run: seq<Batch>, steps: seq<Step>) {
    && |run| == |steps| + 1
    && Initial(run[0])
    && forall i {:trigger steps[i]} :: 0 <= i < |steps| ==> Can(run[i], steps[i]) && run[i + 1] == Next(run[i], steps[i])
  }

  // ── What the steps deliver ─────────────────────────────────────────────────

  /** A writer is told nil exactly if the reply to its own entry is that the script ran. */
  function Told(replies: map<Id, Reply>, id: Id): (r: Result)
    ensures r == Nil <==> id in replies && replies[id] == Done
  {
    if id in replies && replies[id] == Done then Nil else Failed
  }

  /** Every entry of ids, in order, got its own result, and nobody else got any. */
  ghost predicate Delivers(s: Batch, s': Batch, ids: seq<Id>, replies: map<Id, Reply>) {
    && s'.buf == [] && |s'.delivered| == |s.delivered| + |ids| && s.delivered <= s'.delivered
    && (forall i :: 0 <= i < |ids| ==> s'.delivered[|s.delivered| + i] == (ids[i], Told(replies, ids[i])))
    && (forall id :: id in s'.executed <==>
          id in s.executed || (id in ids && id in replies && (replies[id] == Done || replies[id] == Broken(true))))
  }

  lemma FlushDelivers(s: Batch, replies: map<Id, Reply>)
    ensures Delivers(s, Flush(s, replies), s.buf, replies)
  {
    forall i | 0 <= i < |s.buf|
      ensures Flush(s, replies).delivered[|s.delivered| + i] == (s.buf[i], Told(replies, s.buf[i]))
    {
      assert Results(s.buf, replies)[i] == (s.buf[i], ResultOf(ReplyTo(replies, s.buf[i])));
    }
  }

  /**
    A tick and the end of the drain deliver the whole buffer. An entry that is received fills the buffer, and once the
    buffer is full everything in it is delivered; until then nothing is.
    */
  lemma StepsDeliver(s: Batch, replies: map<Id, Reply>)
    ensures s.phase == Looping ==> Can(s, Tick(replies)) && Delivers(s, Next(s, Tick(replies)), s.buf, replies)
    ensures s.phase == Draining && s.chan == [] ==>
              && Can(s, DrainLast(replies)) && Next(s, DrainLast(replies)).phase == Exited
              && Delivers(s, Next(s, DrainLast(replies)), s.buf, replies)
    ensures s.phase == Looping && s.chan != [] ==>
              Can(s, Receive(replies)) && Takes(s, Next(s, Receive(replies)), replies)
    ensures s.phase == Draining && s.chan != [] ==>
              Can(s, DrainOne(replies)) && Takes(s, Next(s, DrainOne(replies)), replies)
  {
    FlushDelivers(s, replies);
    if s.phase == Draining && s.chan == [] {
      DrainLastDelivers(s, replies);
    }
    if s.chan != [] {
      TakeTakes(s, replies);
    }
  }

  lemma DrainLastDelivers(s: Batch, replies: map<Id, Reply>)
    requires Can(s, DrainLast(replies))
    ensures Delivers(s, Next(s, DrainLast(replies)), s.buf, replies)
  {
    FlushDelivers(s, replies);
  }

  lemma TakeTakes(s: Batch, replies: map<Id, Reply>)
    requires s.chan != []
    ensures Takes(s, Take(s, replies), replies)
  {
    var taken := s.(chan := s.chan[1..], buf := s.buf + [s.chan[0]]);
    if |taken.buf| >= s.size {
      FlushDelivers(taken, replies);
    }
  }

  /**
    Senders and the stop. A sender enters while batchRunning is true, and leaves by handing over its entry, for which
    the channel must have room, or by giving up. The stop is set once no sender is inside, and then seen by the batcher.
    */
  lemma SendersComeAndGo(s: Batch, id: Id)
    ensures Can(s, EnterLock(id)) <==> s.running && id !in s.seen
    ensures Can(s, EnterLock(id)) ==> Next(s, EnterLock(id)).sending == s.sending + {id}
    ensures Can(s, HandOver(id)) <==> id in s.sending && |s.chan| < s.cap
    ensures Can(s, HandOver(id)) ==>
              var s' := Next(s, HandOver(id));
              s'.chan == s.chan + [id] && s'.accepted == s.accepted + [id] && s'.sending == s.sending - {id}
    ensures Can(s, GiveUp(id)) <==> id in s.sending
    ensures Can(s, GiveUp(id)) ==> Next(s, GiveUp(id)) == s.(sending := s.sending - {id})
    ensures Can(s, SetStopped) <==> s.sending == {} && !s.stopping
    ensures Can(s, SetStopped) ==> !Next(s, SetStopped).running
    ensures Can(s, CloseStop) <==> s.stopping && !s.stopClosed
    ensures Can(s, CloseStop) ==> Next(s, CloseStop).stopClosed
    ensures Can(s, SeeStop) <==> s.phase == Looping && s.stopClosed
    ensures Can(s, SeeStop) ==> Next(s, SeeStop).phase == Draining
  {
  }

  /** The first entry of the channel goes into the buffer, which is delivered when full. */
  ghost predicate Takes(s: Batch, s': Batch, replies: map<Id, Reply>)
    requires s.chan != []
  {
    && s'.chan == s.chan[1..]
    && if |s.buf| + 1 >= s.size then Delivers(s, s', s.buf + [s.chan[0]], replies)
       else s'.buf == s.buf + [s.chan[0]] && s'.delivered == s.delivered && s'.executed == s.executed
  }

  // ── The invariant ──────────────────────────────────────────────────────────

  predicate Distinct(ids: seq<Id>) {
    forall i, j :: 0 <= i < j < |ids| ==> ids[i] != ids[j]
  }

  function Ids(delivered: seq<(Id, Result)>): (r: seq<Id>)
    ensures |r| == |delivered|
    ensures forall i :: 0 <= i < |r| ==> r[i] == delivered[i].0
  {
    seq(|delivered|, i requires 0 <= i < |delivered| => delivered[i].0)
  }

  /** Conservation: what was handed over has been answered, is buffered, or is in the channel, in that order. */
  predicate Conserved(s: Batch) {
    && s.accepted == Ids(s.delivered) + s.buf + s.chan
    && Distinct(s.accepted)
    && (forall id :: id in s.accepted ==> id in s.seen && id !in s.sending)
    && s.sending <= s.seen
  }

  /** A nil result was delivered for executed scripts only, and each script ran at most once. */
  predicate Truthful(s: Batch) {
    && Distinct(s.executed)
    && (forall id :: id in s.executed ==> id in Ids(s.delivered))
    && (forall i :: 0 <= i < |s.delivered| && s.delivered[i].1 == Nil ==> s.delivered[i].0 in s.executed)
  }

  predicate Bounded(s: Batch) {
    s.size > 0 && s.cap > 0 && |s.buf| < s.size && |s.chan| <= s.cap
  }

  /** Until a start after a stop, the lock and the stop channel keep senders away from an exiting batcher. */
  predicate Guarded(s: Batch) {
    !s.restarted ==>
      && (s.phase == NotStarted ==> !s.running && s.chan == [] && s.buf == [])
      && (s.running ==> s.phase == Looping && !s.stopClosed)
      && (s.stopClosed ==> s.stopping) && (s.stopping ==> !s.running)
      && (!s.running ==> s.sending == {})
      && (s.phase == Draining || s.phase == Exited ==> s.stopClosed)
      && (s.phase == Exited ==> s.chan == [] && s.buf == [])
  }

  predicate Inv(s: Batch) {
    Conserved(s) && Truthful(s) && Bounded(s) && Guarded(s)
  }

  lemma {:induction false} RanIsDistinct(ids: seq<Id>, replies: map<Id, Reply>)
    requires Distinct(ids)
    ensures Distinct(Ran(ids, replies))
  {
    if ids != [] {
      RanIsDistinct(ids[..|ids| - 1], replies);
    }
  }

  /** Everything Inv says, for a buffer that may be full. */
  predicate Almost(s: Batch) {
    Conserved(s) && Truthful(s) && s.size > 0 && s.cap > 0 && |s.chan| <= s.cap
  }

  lemma FlushIsConserved(s: Batch, replies: map<Id, Reply>)
    requires Conserved(s)
    ensures Conserved(Flush(s, replies))
  {
    var s' := Flush(s, replies);
    assert Ids(s'.delivered) == Ids(s.delivered) + s.buf;
    assert s'.accepted == Ids(s'.delivered) + s'.buf + s'.chan;
  }

  lemma BufferIsNew(s: Batch)
    requires Conserved(s)
    ensures Distinct(s.buf)
    ensures forall i, j :: 0 <= i < |s.delivered| && 0 <= j < |s.buf| ==> Ids(s.delivered)[i] != s.buf[j]
  {
    var n := |s.delivered|;
    assert forall i :: 0 <= i < |s.buf| ==> s.accepted[n + i] == s.buf[i];
    assert forall i :: 0 <= i < n ==> s.accepted[i] == Ids(s.delivered)[i];
  }

  lemma ExecutedStaysDistinct(s: Batch, replies: map<Id, Reply>)
    requires Conserved(s) && Truthful(s)
    ensures Distinct(Flush(s, replies).executed)
  {
    BufferIsNew(s);
    RanIsDistinct(s.buf, replies);
    var ran := Ran(s.buf, replies);
    forall i, j | 0 <= i < |s.executed| && 0 <= j < |ran|
      ensures s.executed[i] != ran[j]
    {
      assert s.executed[i] in s.executed && ran[j] in ran;
    }
  }

  lemma FlushIsTruthful(s: Batch, replies: map<Id, Reply>)
    requires Conserved(s) && Truthful(s)
    ensures Truthful(Flush(s, replies))
  {
    var s' := Flush(s, replies);
    var n := |s.delivered|;
    ExecutedStaysDistinct(s, replies);
    assert Ids(s'.delivered) == Ids(s.delivered) + s.buf;
    forall i | 0 <= i < |s'.delivered| && s'.delivered[i].1 == Nil
      ensures s'.delivered[i].0 in s'.executed
    {
      if i >= n {
        assert s'.delivered[i].0 in Ran(s.buf, replies);
      }
    }
  }

  lemma FlushKeepsInv(s: Batch, replies: map<Id, Reply>)
    requires Almost(s)
    ensures Almost(Flush(s, replies)) && Flush(s, replies).buf == []
  {
    FlushIsConserved(s, replies);
    FlushIsTruthful(s, replies);
  }

  lemma TakeKeepsInv(s: Batch, replies: map<Id, Reply>)
    requires Almost(s) && Bounded(s) && s.chan != []
    ensures Almost(Take(s, replies)) && Bounded(Take(s, replies))
  {
    var s' := s.(chan := s.chan[1..], buf := s.buf + [s.chan[0]]);
    assert s'.accepted == Ids(s'.delivered) + s'.buf + s'.chan;
    if |s'.buf| >= s.size {
      FlushKeepsInv(s', replies);
    }
  }

  lemma HandOverKeepsInv(s: Batch, id: Id)
    requires Inv(s) && Can(s, HandOver(id))
    ensures Inv(Next(s, HandOver(id)))
  {
    var s' := Next(s, HandOver(id));
    assert s'.accepted == Ids(s'.delivered) + s'.buf + s'.chan;
  }

  lemma StepKeepsInv(s: Batch, e: Step)
    requires Inv(s) && Can(s, e)
    ensures Inv(Next(s, e))
  {
    match e
    case HandOver(id) => HandOverKeepsInv(s, id);
    case Receive(replies) => TakeKeepsInv(s, replies);
    case DrainOne(replies) => TakeKeepsInv(s, replies);
    case Tick(replies) => FlushKeepsInv(s, replies);
    case DrainLast(replies) => FlushKeepsInv(s, replies);
    case _ =>
  }

  lemma {:induction false} ReachableInv(run: seq<Batch>, steps: seq<Step>, i: nat)
    requires IsRun(run, steps) && i < |run|
    ensures Inv(run[i])
  {
    if i > 0 {
      ReachableInv(run, steps, i - 1);
      assert run[i] == Next(run[i - 1], steps[i - 1]);
      StepKeepsInv(run[i - 1], steps[i - 1]);
    }
  }

  // ── The promises ───────────────────────────────────────────────────────────

  /** Entry id has got exactly one result. */
  predicate AnsweredOnce(s: Batch, id: Id) {
    exists i :: 0 <= i < |s.delivered| && s.delivered[i].0 == id
                && forall j :: 0 <= j < |s.delivered| && s.delivered[j].0 == id ==> j == i
  }

  /**
    The batcher strands nobody: in every state reachable by any interleaving, an entry handed over is
    waiting in the channel or the buffer or has been answered exactly once; a nil answer means that its
    script ran, and no script runs twice; and once the batcher has exited everything is answered and no
    sender can hand over anything more.
    */
  lemma StrandsNobody(run: seq<Batch>, steps: seq<Step>, i: nat, id: Id)
    requires IsRun(run, steps) && i < |run| && id in run[i].accepted
    ensures var s := run[i];
            && (id in s.chan || id in s.buf || AnsweredOnce(s, id))
            && ((id, Nil) in s.delivered ==> id in s.executed)
            && Distinct(s.executed)
    ensures var s := run[i];
            s.phase == Exited && !s.restarted ==>
              && AnsweredOnce(s, id)
              && forall q :: !Can(s, EnterLock(q)) && !Can(s, HandOver(q))
  {
    ReachableInv(run, steps, i);
    var s := run[i];
    if id !in s.chan && id !in s.buf {
      var n :| 0 <= n < |s.accepted| && s.accepted[n] == id;
      assert n < |Ids(s.delivered)|;
      forall j | 0 <= j < |s.delivered| && s.delivered[j].0 == id
        ensures j == n
      {
        assert s.accepted[j] == id;
      }
    }
  }

  /** Some step of the batcher goroutine itself is possible. */
  predicate BatcherCanMove(s: Batch) {
    s.phase == Looping || s.phase == Draining
  }

  /**
    Nobody waits for ever on the others: while an entry waits the batcher can move; a sender inside the
    lock can hand over or the batcher can make room for it; and StopBatcher's lock is free as soon as
    no sender is inside.
    */
  lemma SomebodyCanMove(run: seq<Batch>, steps: seq<Step>, i: nat)
    requires IsRun(run, steps) && i < |run| && !run[i].restarted
    ensures run[i].chan != [] || run[i].buf != [] ==> BatcherCanMove(run[i])
    ensures forall id :: id in run[i].sending ==>
              Can(run[i], HandOver(id)) || Can(run[i], Receive(map[]))
    ensures run[i].sending == {} && !run[i].stopping ==> Can(run[i], SetStopped)
  {
    ReachableInv(run, steps, i);
  }

  /** After the stop is seen, each drain step shortens the channel and nothing lengthens it again. */
  lemma DrainingTerminates(run: seq<Batch>, steps: seq<Step>, i: nat)
    requires IsRun(run, steps) && i < |steps| && run[i].phase == Draining && !run[i + 1].restarted
    ensures |run[i + 1].chan| <= |run[i].chan|
    ensures steps[i].DrainOne? ==> |run[i + 1].chan| < |run[i].chan|
    ensures steps[i].DrainLast? ==> run[i + 1].phase == Exited
  {
    ReachableInv(run, steps, i);
    assert run[i + 1] == Next(run[i], steps[i]);
  }

  /**
    StartBatcher after StopBatcher is not safe: the stop channel is closed for good, so the new batcher
    exits while batchRunning is true, and the next entry handed over is never taken.
    */
  lemma RestartStrands(s: Batch, id: Id)
    requires Inv(s) && s.phase == Exited && !s.restarted && id !in s.seen
    ensures Can(s, StartBatcher)
    ensures var s1 := Next(s, StartBatcher);
            && Can(s1, SeeStop)
            && var s2 := Next(s1, SeeStop);
            && s2.chan == [] && Can(s2, DrainLast(map[]))
            && var s3 := Next(s2, DrainLast(map[]));
            && Can(s3, EnterLock(id))
            && var s4 := Next(s3, EnterLock(id));
            && Can(s4, HandOver(id))
            && var s5 := Next(s4, HandOver(id));
            s5.chan == [id] && s5.phase == Exited && s5.running && !BatcherCanMove(s5) && !Can(s5, StartBatcher)
  {
  }
}
