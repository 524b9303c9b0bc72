/** The write side of the datastore: errors, attribution, and what a sink owes the flush engine. */
module Sink {
  import opened Redis

  datatype ErrorClass = ClassUnknown | ClassTransient | ClassPermanent

  datatype SinkError = SinkError(key: Key, code: int, class_: ErrorClass)

  /** MongoDB's duplicate-key code, permanent even for sinks that do not classify. */
  const DUPLICATE_KEY := 11000

  predicate IsPermanent(e: SinkError) {
    if e.class_ == ClassPermanent then true
    else e.class_ == ClassUnknown && e.code == DUPLICATE_KEY
  }

  /** CheckAttribution passes: no error has an empty key. Whose key it is, is not checked. */
  predicate Attributed(errors: seq<SinkError>) {
    forall e :: e in errors ==> e.key != []
  }

  predicate Reports(errors: seq<SinkError>, k: Key) {
    exists e :: e in errors && e.key == k
  }

  predicate ReportsPermanent(errors: seq<SinkError>, k: Key) {
    exists e :: e in errors && e.key == k && IsPermanent(e)
  }

  /** A failure for good, in the sink's own terms: classified as permanent, or unclassified with MongoDB's code. */
  lemma PermanentByClassAndCode(errors: seq<SinkError>, k: Key)
    ensures ReportsPermanent(errors, k) <==>
              exists e :: e in errors && e.key == k
                && (e.class_ == ClassPermanent || (e.class_ == ClassUnknown && e.code == 11000))
  {
  }

  /** Success by elimination is right for a sink that reports every model it did not apply. */
  predicate Honest(models: seq<Key>, applied: set<Key>, errors: seq<SinkError>) {
    forall k :: k in models && k !in applied ==> Reports(errors, k)
  }

  method CheckAttribution(errors: seq<SinkError>) returns (ok: bool)
    ensures ok <==> Attributed(errors)
  {
    for i := 0 to |errors|
      invariant forall m :: 0 <= m < i ==> errors[m].key != []
    {
      if errors[i].key == [] {
        return false;
      }
    }
    return true;
  }

  // ── What a sink owes ───────────────────────────────────────────────────────

  /** How often k occurs. */
  function Count(keys: seq<Key>, k: Key): nat {
    if keys == [] then 0
    else Count(keys[..|keys| - 1], k) + (if keys[|keys| - 1] == k then 1 else 0)
  }

  lemma CountAppend(keys: seq<Key>, x: Key, k: Key)
    ensures Count(keys + [x], k) == Count(keys, k) + (if x == k then 1 else 0)
  {
    assert (keys + [x])[..|keys|] == keys;
  }

  lemma {:induction false} CountConcat(a: seq<Key>, b: seq<Key>, k: Key)
    ensures Count(a + b, k) == Count(a, k) + Count(b, k)
  {
    if b == [] {
      assert a + b == a;
    } else {
      var n := |b| - 1;
      CountConcat(a, b[..n], k);
      CountAppend(a + b[..n], b[n], k);
      assert a + b == a + b[..n] + [b[n]];
    }
  }

  lemma {:induction false} CountMember(keys: seq<Key>, k: Key)
    ensures k in keys <==> Count(keys, k) > 0
  {
    if keys != [] {
      var n := |keys| - 1;
      CountMember(keys[..n], k);
      assert keys == keys[..n] + [keys[n]];
    }
  }

  /** The keys a result reports, in order. */
  function ErrorKeys(errors: seq<SinkError>): (r: seq<Key>)
    ensures |r| == |errors| && forall i :: 0 <= i < |r| ==> r[i] == errors[i].key
  {
    seq(|errors|, i requires 0 <= i < |errors| => errors[i].key)
  }

  lemma ErrorKeysConcat(a: seq<SinkError>, b: seq<SinkError>)
    ensures ErrorKeys(a + b) == ErrorKeys(a) + ErrorKeys(b)
  {
  }

  /** Every model is either done or reported, as often as it was asked for: nothing dropped, nothing told twice. */
  ghost predicate Accounts(models: seq<Key>, done: seq<Key>, errors: seq<SinkError>) {
    forall k :: Count(models, k) == Count(done, k) + Count(ErrorKeys(errors), k)
  }

  lemma AccountsDone(models: seq<Key>, done: seq<Key>, errors: seq<SinkError>, x: Key)
    requires Accounts(models, done, errors)
    ensures Accounts(models + [x], done + [x], errors)
  {
    forall k
      ensures Count(models + [x], k) == Count(done + [x], k) + Count(ErrorKeys(errors), k)
    {
      CountAppend(models, x, k);
      CountAppend(done, x, k);
    }
  }

  lemma AccountsError(models: seq<Key>, done: seq<Key>, errors: seq<SinkError>, e: SinkError)
    requires Accounts(models, done, errors)
    ensures Accounts(models + [e.key], done, errors + [e])
  {
    assert ErrorKeys(errors + [e]) == ErrorKeys(errors) + [e.key];
    forall k
      ensures Count(models + [e.key], k) == Count(done, k) + Count(ErrorKeys(errors + [e]), k)
    {
      CountAppend(models, e.key, k);
      CountAppend(ErrorKeys(errors), e.key, k);
    }
  }

  lemma AccountsConcat(m1: seq<Key>, d1: seq<Key>, e1: seq<SinkError>, m2: seq<Key>, d2: seq<Key>, e2: seq<SinkError>)
    requires Accounts(m1, d1, e1) && Accounts(m2, d2, e2)
    ensures Accounts(m1 + m2, d1 + d2, e1 + e2)
  {
    ErrorKeysConcat(e1, e2);
    forall k
      ensures Count(m1 + m2, k) == Count(d1 + d2, k) + Count(ErrorKeys(e1 + e2), k)
    {
      CountConcat(m1, m2, k);
      CountConcat(d1, d2, k);
      CountConcat(ErrorKeys(e1), ErrorKeys(e2), k);
    }
  }

  lemma ReportsByKeys(errors: seq<SinkError>, k: Key)
    ensures k in ErrorKeys(errors) <==> Reports(errors, k)
  {
    if k in ErrorKeys(errors) {
      var i :| 0 <= i < |errors| && ErrorKeys(errors)[i] == k;
      assert errors[i] in errors;
    }
    if Reports(errors, k) {
      var e :| e in errors && e.key == k;
      var i :| 0 <= i < |errors| && errors[i] == e;
      assert ErrorKeys(errors)[i] == k;
    }
  }

  lemma ReportedByCount(errors: seq<SinkError>, k: Key)
    ensures Reports(errors, k) <==> Count(ErrorKeys(errors), k) > 0
  {
    ReportsByKeys(errors, k);
    CountMember(ErrorKeys(errors), k);
  }

  /**
    A sink that accounts for its batch is honest about it: success by elimination is right. No key outside
    the batch is reported, and a key asked for once is either done or reported, never both.
    */
  lemma AccountingIsHonest(models: seq<Key>, done: seq<Key>, errors: seq<SinkError>)
    requires Accounts(models, done, errors)
    ensures Honest(models, (set k | k in done), errors)
    ensures forall k :: Reports(errors, k) ==> k in models
    ensures forall k :: k in models && Count(models, k) == 1 ==> (k in done <==> !Reports(errors, k))
  {
    forall k
      ensures Count(models, k) == Count(done, k) + Count(ErrorKeys(errors), k)
      ensures k in models <==> Count(models, k) > 0
      ensures k in done <==> Count(done, k) > 0
      ensures Reports(errors, k) <==> Count(ErrorKeys(errors), k) > 0
    {
      CountMember(models, k);
      CountMember(done, k);
      ReportedByCount(errors, k);
    }
  }

  /**
    Accounting counts what is known to be done. A call that timed out may have done more; the sink is then as
    honest about what was really applied.
    */
  lemma AccountingIsHonestAboutMore(models: seq<Key>, done: seq<Key>, errors: seq<SinkError>, applied: set<Key>)
    requires Accounts(models, done, errors) && forall k :: k in done ==> k in applied
    ensures Honest(models, applied, errors)
  {
    AccountingIsHonest(models, done, errors);
  }
}
