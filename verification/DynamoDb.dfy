/** The DynamoDB sink: one BatchWriteItem per batch, unprocessed items traced back to their keys. */
module DynamoDb {
  import opened Optional
  import opened Redis
  import opened Sink

  /** An attribute value as DynamoDB sees it; numbers travel as text. */
  datatype Wire = S(text: string) | N(text: string) | OtherWire

  /** An attribute of an item: what "%v" prints for it, and what it is marshalled to. */
  datatype Attr = Attr(printed: string, wire: Wire)

  type Item = map<string, Attr>

  datatype Update = Row(item: Item, marshals: bool) | OtherUpdate

  datatype Model = Model(key: Key, update: Update, many: bool)

  datatype Table = Table(pk: string, sk: Option<string>)

  /** How BatchWriteItem ended; unprocessed holds positions in the request. */
  datatype Batch = Answered(unprocessed: seq<nat>) | ValidationException | Cancelled | OtherFailure

  datatype Put = PutDone | PutCancelled | PutFailed

  datatype Reply = TopLevelError | Reported(upserted: int, errors: seq<SinkError>)

  function Keys(models: seq<Model>): (r: seq<Key>)
    ensures |r| == |models| && forall i :: 0 <= i < |r| ==> r[i] == models[i].key
  {
    seq(|models|, i requires 0 <= i < |models| => models[i].key)
  }

  // ── Validation ─────────────────────────────────────────────────────────────

  predicate HasKey(m: Model, t: Table) {
    m.update.Row? && t.pk in m.update.item && (t.sk.Some? ==> t.sk.value in m.update.item)
  }

  function KeyStr(m: Model, t: Table): string
    requires HasKey(m, t)
  {
    m.update.item[t.pk].printed + (if t.sk.Some? then "#" + m.update.item[t.sk.value].printed else "")
  }

  /**
    Two complete models get one key string if and only if their key attributes print alike, as long as the
    partition keys do not print the separator.
    */
  lemma KeyStrIsExactIff(a: Model, b: Model, t: Table)
    requires HasKey(a, t) && HasKey(b, t)
    requires t.sk.Some? ==> '#' !in a.update.item[t.pk].printed && '#' !in b.update.item[t.pk].printed
    ensures KeyStr(a, t) == KeyStr(b, t) <==>
              a.update.item[t.pk].printed == b.update.item[t.pk].printed
              && (t.sk.Some? ==> a.update.item[t.sk.value].printed == b.update.item[t.sk.value].printed)
  {
    if t.sk.None? {
      assert KeyStr(a, t) == a.update.item[t.pk].printed && KeyStr(b, t) == b.update.item[t.pk].printed;
    } else {
      SplitAtHash(a.update.item[t.pk].printed, a.update.item[t.sk.value].printed,
                  b.update.item[t.pk].printed, b.update.item[t.sk.value].printed);
    }
  }

  lemma {:induction false} SplitAtHash(p: string, s: string, q: string, r: string)
    requires '#' !in p && '#' !in q
    ensures p + ("#" + s) == q + ("#" + r) <==> p == q && s == r
  {
    var x, y := p + ("#" + s), q + ("#" + r);
    if p == "" || q == "" {
      if x == y {
        assert x[0] == y[0];
        assert x[1..] == y[1..];
      }
      if p == "" {
        assert x[1..] == s;
      }
      if q == "" {
        assert y[1..] == r;
      }
    } else {
      SplitAtHash(p[1..], s, q[1..], r);
      assert x[1..] == p[1..] + ("#" + s) && y[1..] == q[1..] + ("#" + r);
      assert x == [x[0]] + x[1..] && y == [y[0]] + y[1..];
      assert p == [p[0]] + p[1..] && q == [q[0]] + q[1..];
    }
  }

  /** With the separator in a key, two different items are taken for duplicates, and one is refused for good. */
  lemma SeparatorMakesFalseDuplicates(pk: string, sk: string, key0: Key, key1: Key)
    requires pk != sk
    ensures var t := Table(pk, Some(sk));
            var m0 := Model(key0, Row(map[pk := Attr("a#b", S("a#b")), sk := Attr("c", S("c"))], true), false);
            var m1 := Model(key1, Row(map[pk := Attr("a", S("a")), sk := Attr("b#c", S("b#c"))], true), false);
            && Receivable([m0, m1], t)
            && !Accepted([m0, m1], t, 1)
            && SinkError(key1, 0, ClassPermanent) in Refused([m0, m1], t, 2)
  {
    var t := Table(pk, Some(sk));
    var m0 := Model(key0, Row(map[pk := Attr("a#b", S("a#b")), sk := Attr("c", S("c"))], true), false);
    var m1 := Model(key1, Row(map[pk := Attr("a", S("a")), sk := Attr("b#c", S("b#c"))], true), false);
    assert KeyStr(m0, t) == "a#b#c" == KeyStr(m1, t);
    SeenKeysExact([m0, m1], t, 1, KeyStr(m1, t));
    assert [m0, m1][0] == m0 && [m0, m1][1] == m1;
    assert PrimaryKey(m0, t).0 == S("a#b") && PrimaryKey(m1, t).0 == S("a");
    assert S("a#b").text != S("a").text by {
      assert |"a#b"| == 3 && |"a"| == 1;
    }
  }

  predicate Reaches(m: Model, t: Table) {
    !m.many && HasKey(m, t)
  }

  /** seenKeys after n models: a model that later fails to marshal has left its key string behind. */
  function SeenKeys(models: seq<Model>, t: Table, n: nat): set<string>
    requires n <= |models|
  {
    if n == 0 then {}
    else SeenKeys(models, t, n - 1) + (if Reaches(models[n - 1], t) then {KeyStr(models[n - 1], t)} else {})
  }

  lemma {:induction false} SeenKeysExact(models: seq<Model>, t: Table, n: nat, s: string)
    requires n <= |models|
    ensures s in SeenKeys(models, t, n) <==> exists j :: 0 <= j < n && Reaches(models[j], t) && KeyStr(models[j], t) == s
  {
    if n > 0 {
      SeenKeysExact(models, t, n - 1, s);
    }
  }

  /** Model n enters the request. */
  predicate Accepted(models: seq<Model>, t: Table, n: nat)
    requires n < |models|
  {
    && Reaches(models[n], t)
    && KeyStr(models[n], t) !in SeenKeys(models, t, n)
    && models[n].update.marshals
  }

  /** The models of the request. */
  function Valid(models: seq<Model>, t: Table, n: nat): seq<Model>
    requires n <= |models|
  {
    if n == 0 then []
    else Valid(models, t, n - 1) + (if Accepted(models, t, n - 1) then [models[n - 1]] else [])
  }

  /** The permanent errors for the others. */
  function Refused(models: seq<Model>, t: Table, n: nat): seq<SinkError>
    requires n <= |models|
  {
    if n == 0 then []
    else Refused(models, t, n - 1)
         + (if Accepted(models, t, n - 1) then [] else [SinkError(models[n - 1].key, 0, ClassPermanent)])
  }

  /** Model n enters the request if and only if it is complete, marshals, and repeats no earlier key string. */
  lemma EntersRequestIff(models: seq<Model>, t: Table, n: nat)
    requires n < |models|
    ensures Valid(models, t, n + 1) == Valid(models, t, n) + [models[n]]
       <==> Reaches(models[n], t) && models[n].update.marshals
            && forall j :: 0 <= j < n && Reaches(models[j], t) ==> KeyStr(models[j], t) != KeyStr(models[n], t)
  {
    if Reaches(models[n], t) {
      SeenKeysExact(models, t, n, KeyStr(models[n], t));
    }
  }

  /** Whatever is refused is refused for good. */
  lemma {:induction false} RefusedForGood(models: seq<Model>, t: Table, n: nat, e: SinkError)
    requires n <= |models| && e in Refused(models, t, n)
    ensures e.class_ == ClassPermanent && exists i :: 0 <= i < n && models[i].key == e.key && !Accepted(models, t, i)
  {
    if e in Refused(models, t, n - 1) {
      RefusedForGood(models, t, n - 1, e);
    }
  }

  /** A model reaches the duplicate check if it is not an UpdateMany and its item has the key attributes of the table. */
  lemma ReachesOutcome(m: Model, t: Table)
    ensures Reaches(m, t) <==>
              !m.many && m.update.Row? && t.pk in m.update.item && (t.sk.None? || t.sk.value in m.update.item)
  {
  }

  /** Every model is in the request or refused. */
  lemma {:induction false} ValidOrRefused(models: seq<Model>, t: Table, n: nat)
    requires n <= |models|
    ensures |Valid(models, t, n)| + |Refused(models, t, n)| == n
    ensures Accounts(Keys(models[..n]), Keys(Valid(models, t, n)), Refused(models, t, n))
  {
    if n > 0 {
      var m := models[n - 1];
      ValidOrRefused(models, t, n - 1);
      assert Keys(models[..n]) == Keys(models[..n - 1]) + [m.key];
      if Accepted(models, t, n - 1) {
        AccountsDone(Keys(models[..n - 1]), Keys(Valid(models, t, n - 1)), Refused(models, t, n - 1), m.key);
        assert Keys(Valid(models, t, n)) == Keys(Valid(models, t, n - 1)) + [m.key];
        assert Refused(models, t, n) == Refused(models, t, n - 1);
      } else {
        AccountsError(Keys(models[..n - 1]), Keys(Valid(models, t, n - 1)), Refused(models, t, n - 1),
                      SinkError(m.key, 0, ClassPermanent));
        assert Valid(models, t, n) == Valid(models, t, n - 1);
      }
    }
  }

  /** What validation establishes of a request: complete items with pairwise different key strings. */
  predicate DistinctStrings(valid: seq<Model>, t: Table) {
    && (forall i :: 0 <= i < |valid| ==> Reaches(valid[i], t) && valid[i].update.marshals)
    && (forall i, j :: 0 <= i < j < |valid| ==> KeyStr(valid[i], t) != KeyStr(valid[j], t))
  }

  /** The primary key as DynamoDB compares it. */
  function PrimaryKey(m: Model, t: Table): (Wire, Option<Wire>)
    requires HasKey(m, t)
  {
    (m.update.item[t.pk].wire, if t.sk.Some? then Some(m.update.item[t.sk.value].wire) else None)
  }

  /** BatchWriteItem takes at most this many items. */
  const MAX_ITEMS := 25

  /**
    What DynamoDB demands of a request: not too many items, with pairwise different primary keys. It refuses any
    other one as a whole with a ValidationException, and processes no item of it.
    */
  predicate Receivable(valid: seq<Model>, t: Table) {
    && |valid| <= MAX_ITEMS
    && (forall i :: 0 <= i < |valid| ==> Reaches(valid[i], t))
    && (forall i, j :: 0 <= i < j < |valid| ==> PrimaryKey(valid[i], t) != PrimaryKey(valid[j], t))
  }

  /** A request whose key attributes all print as they are marshalled is receivable if it is not too long. */
  lemma FaithfulIsReceivable(valid: seq<Model>, t: Table)
    requires DistinctStrings(valid, t) && AllFaithful(valid, t)
    ensures Receivable(valid, t) <==> |valid| <= MAX_ITEMS
  {
    forall i, j | 0 <= i < j < |valid|
      ensures PrimaryKey(valid[i], t) != PrimaryKey(valid[j], t)
    {
      assert Faithful(valid[i], t) && Faithful(valid[j], t);
      if PrimaryKey(valid[i], t) == PrimaryKey(valid[j], t) {
        EqualAttributesEqualKeys(valid[i], valid[j], t);
      }
    }
  }

  lemma {:induction false} RequestHasDistinctStrings(models: seq<Model>, t: Table, n: nat)
    requires n <= |models|
    ensures DistinctStrings(Valid(models, t, n), t)
    ensures forall i :: 0 <= i < |Valid(models, t, n)| ==> KeyStr(Valid(models, t, n)[i], t) in SeenKeys(models, t, n)
  {
    if n > 0 {
      RequestHasDistinctStrings(models, t, n - 1);
    }
  }

  /** The validation loop, with its checks in order. */
  method Validate(models: seq<Model>, t: Table) returns (valid: seq<Model>, errors: seq<SinkError>)
    ensures valid == Valid(models, t, |models|) && errors == Refused(models, t, |models|)
  {
    valid, errors := [], [];
    var seen: set<string> := {};
    for n := 0 to |models|
      invariant valid == Valid(models, t, n) && errors == Refused(models, t, n) && seen == SeenKeys(models, t, n)
    {
      var m := models[n];
      var refusal := [SinkError(m.key, 0, ClassPermanent)];
      if m.many || !m.update.Row? || t.pk !in m.update.item || (t.sk.Some? && t.sk.value !in m.update.item) {
        errors := errors + refusal;
      } else {
        var keyStr := m.update.item[t.pk].printed;
        if t.sk.Some? {
          keyStr := keyStr + ("#" + m.update.item[t.sk.value].printed);
        }
        assert keyStr == KeyStr(m, t);
        if keyStr in seen {
          errors := errors + refusal;
        } else {
          seen := seen + {keyStr};
          if m.update.marshals {
            valid := valid + [m];
          } else {
            errors := errors + refusal;
          }
        }
      }
    }
  }

  // ── Correlation ────────────────────────────────────────────────────────────

  predicate Shows(w: Wire, printed: string) {
    (w.S? || w.N?) && w.text == printed
  }

  /** One model of the search: m's printed key attributes equal item's marshalled ones. */
  predicate Matches(m: Model, item: Item, t: Table)
    requires HasKey(m, t) && t.pk in item && (t.sk.Some? ==> t.sk.value in item)
  {
    && Shows(item[t.pk].wire, m.update.item[t.pk].printed)
    && (t.sk.Some? ==> Shows(item[t.sk.value].wire, m.update.item[t.sk.value].printed))
  }

  /** The key attributes are marshalled to what "%v" prints for them. */
  predicate Faithful(m: Model, t: Table)
    requires HasKey(m, t)
  {
    Matches(m, m.update.item, t)
  }

  /** Strings and numbers are compared as text, and no other type matches. */
  lemma FaithfulOutcome(m: Model, t: Table)
    requires HasKey(m, t)
    ensures Faithful(m, t) <==>
              && (m.update.item[t.pk].wire == S(m.update.item[t.pk].printed) || m.update.item[t.pk].wire == N(m.update.item[t.pk].printed))
              && (t.sk.Some? ==>
                    var a := m.update.item[t.sk.value]; a.wire == S(a.printed) || a.wire == N(a.printed))
  {
  }

  function FirstMatch(valid: seq<Model>, item: Item, t: Table, from: nat): (r: Option<nat>)
    requires DistinctStrings(valid, t) && from <= |valid| && t.pk in item && (t.sk.Some? ==> t.sk.value in item)
    ensures r.Some? ==> from <= r.value < |valid| && Matches(valid[r.value], item, t)
    ensures forall j :: from <= j < (if r.Some? then r.value else |valid|) ==> !Matches(valid[j], item, t)
    decreases |valid| - from
  {
    if from == |valid| then None
    else if Matches(valid[from], item, t) then Some(from)
    else FirstMatch(valid, item, t, from + 1)
  }

  lemma EqualAttributesEqualKeys(a: Model, b: Model, t: Table)
    requires HasKey(a, t) && HasKey(b, t) && Matches(a, b.update.item, t) && Faithful(b, t)
    ensures KeyStr(a, t) == KeyStr(b, t)
  {
  }

  /** Some model of the request prints its key attributes as the item of model u is marshalled. */
  predicate Mistakable(valid: seq<Model>, t: Table, u: nat)
    requires DistinctStrings(valid, t) && u < |valid|
  {
    exists j :: 0 <= j < |valid| && Matches(valid[j], valid[u].update.item, t)
  }

  /**
    An unprocessed item is traced to its own model if and only if its key attributes print as they are
    marshalled. Otherwise it is traced to another model if and only if one prints as it is marshalled, which
    loses it, and to nothing if none does, which safely aborts the call.
    */
  lemma AttributionIsExactIff(valid: seq<Model>, t: Table, u: nat)
    requires DistinctStrings(valid, t) && u < |valid|
    ensures var r := FirstMatch(valid, valid[u].update.item, t, 0);
            && (r == Some(u) <==> Faithful(valid[u], t))
            && (r.Some? && r.value != u <==> !Faithful(valid[u], t) && Mistakable(valid, t, u))
            && (r.None? <==> !Mistakable(valid, t, u))
  {
    var r := FirstMatch(valid, valid[u].update.item, t, 0);
    if Faithful(valid[u], t) && r != Some(u) {
      EqualAttributesEqualKeys(valid[r.value], valid[u], t);
      assert false;
    }
  }

  /** findCorrelationKey; an empty key means that no model matched. */
  method FindCorrelationKey(valid: seq<Model>, item: Item, t: Table) returns (k: Key)
    requires DistinctStrings(valid, t) && t.pk in item && (t.sk.Some? ==> t.sk.value in item)
    ensures var r := FirstMatch(valid, item, t, 0); k == if r.Some? then valid[r.value].key else []
  {
    for i := 0 to |valid|
      invariant FirstMatch(valid, item, t, 0) == FirstMatch(valid, item, t, i)
    {
      if Matches(valid[i], item, t) {
        return valid[i].key;
      }
    }
    return [];
  }

  /** The key an unprocessed item is reported under; empty aborts the call. */
  function TracedTo(valid: seq<Model>, t: Table, u: nat): Key
    requires DistinctStrings(valid, t) && u < |valid|
  {
    var r := FirstMatch(valid, valid[u].update.item, t, 0);
    if r.Some? then valid[r.value].key else []
  }

  // ── What DynamoDB wrote ────────────────────────────────────────────────────

  /** DynamoDB returns each unprocessed item of the request once. */
  predicate Sensible(b: Batch, n: nat) {
    b.Answered? ==>
      && (forall i :: 0 <= i < |b.unprocessed| ==> b.unprocessed[i] < n)
      && (forall i, j :: 0 <= i < j < |b.unprocessed| ==> b.unprocessed[i] != b.unprocessed[j])
  }

  function Positions(unprocessed: seq<nat>): (r: set<nat>)
    ensures forall u :: u in r <==> u in unprocessed
  {
    if unprocessed == [] then {}
    else Positions(unprocessed[..|unprocessed| - 1]) + {unprocessed[|unprocessed| - 1]}
  }

  /** The keys of the first n models, without the positions in out. */
  function Kept(valid: seq<Model>, out: set<nat>, n: nat): seq<Key>
    requires n <= |valid|
  {
    if n == 0 then [] else Kept(valid, out, n - 1) + (if n - 1 in out then [] else [valid[n - 1].key])
  }

  /** How often k occurs in Kept. */
  function KeptCount(valid: seq<Model>, out: set<nat>, n: nat, k: Key): nat
    requires n <= |valid|
  {
    if n == 0 then 0
    else KeptCount(valid, out, n - 1, k) + (if n - 1 !in out && valid[n - 1].key == k then 1 else 0)
  }

  function KeptSize(valid: seq<Model>, out: set<nat>, n: nat): nat
    requires n <= |valid|
  {
    if n == 0 then 0 else KeptSize(valid, out, n - 1) + (if n - 1 in out then 0 else 1)
  }

  lemma {:induction false} KeptCounts(valid: seq<Model>, out: set<nat>, n: nat, k: Key)
    requires n <= |valid|
    ensures |Kept(valid, out, n)| == KeptSize(valid, out, n)
    ensures Count(Kept(valid, out, n), k) == KeptCount(valid, out, n, k)
  {
    if n > 0 {
      KeptCounts(valid, out, n - 1, k);
      CountAppend(Kept(valid, out, n - 1), valid[n - 1].key, k);
      assert Kept(valid, out, n - 1) + [] == Kept(valid, out, n - 1);
    }
  }

  /** Taking position u out removes one occurrence of its key, once the prefix reaches it. */
  lemma {:induction false} KeptWithout(valid: seq<Model>, out: set<nat>, u: nat, n: nat, k: Key)
    requires n <= |valid| && u !in out && u < |valid|
    ensures KeptSize(valid, out, n) == KeptSize(valid, out + {u}, n) + (if u < n then 1 else 0)
    ensures KeptCount(valid, out, n, k) ==
            KeptCount(valid, out + {u}, n, k) + (if u < n && valid[u].key == k then 1 else 0)
  {
    if n > 0 {
      KeptWithout(valid, out, u, n - 1, k);
    }
  }

  lemma {:induction false} KeptAll(valid: seq<Model>, n: nat)
    requires n <= |valid|
    ensures Kept(valid, {}, n) == Keys(valid[..n])
  {
    if n > 0 {
      KeptAll(valid, n - 1);
      assert Keys(valid[..n]) == Keys(valid[..n - 1]) + [valid[n - 1].key];
    }
  }

  /** The keys of the first n models whose PutItem went through. */
  function PutKeys(valid: seq<Model>, put: nat -> Put, n: nat): seq<Key>
    requires n <= |valid|
  {
    if n == 0 then [] else PutKeys(valid, put, n - 1) + (if put(n - 1) == PutDone then [valid[n - 1].key] else [])
  }

  /** The keys known to be written once BulkWrite returns; a cancelled call may have written more. */
  function Stored(valid: seq<Model>, b: Batch, put: nat -> Put): seq<Key> {
    match b
    case Answered(unprocessed) => Kept(valid, Positions(unprocessed), |valid|)
    case ValidationException => PutKeys(valid, put, |valid|)
    case _ => []
  }

  // ── BulkWrite ──────────────────────────────────────────────────────────────

  /** e is the transient error of the unprocessed item u. */
  predicate TracedItem(valid: seq<Model>, t: Table, u: nat, e: SinkError)
    requires DistinctStrings(valid, t) && u < |valid|
  {
    e == SinkError(TracedTo(valid, t, u), 0, ClassTransient) && e.key != []
  }

  /** errors[m] is the transient error of the unprocessed item m. */
  predicate Traced(valid: seq<Model>, t: Table, unprocessed: seq<nat>, errors: seq<SinkError>)
    requires DistinctStrings(valid, t) && Sensible(Answered(unprocessed), |valid|)
  {
    && |errors| == |unprocessed|
    && forall m :: 0 <= m < |errors| ==> TracedItem(valid, t, unprocessed[m], errors[m])
  }

  predicate AllFaithful(valid: seq<Model>, t: Table)
    requires DistinctStrings(valid, t)
  {
    forall i :: 0 <= i < |valid| ==> Faithful(valid[i], t)
  }

  lemma OneMoreUnprocessed(valid: seq<Model>, t: Table, out: set<nat>, u: nat, errors: seq<SinkError>, e: SinkError, k: Key)
    requires DistinctStrings(valid, t) && u < |valid| && u !in out && e.key == TracedTo(valid, t, u)
    ensures |Kept(valid, out + {u}, |valid|)| + 1 == |Kept(valid, out, |valid|)|
    ensures Faithful(valid[u], t) ==>
              Count(Kept(valid, out + {u}, |valid|), k) + Count(ErrorKeys(errors + [e]), k) ==
              Count(Kept(valid, out, |valid|), k) + Count(ErrorKeys(errors), k)
  {
    KeptWithout(valid, out, u, |valid|, k);
    KeptCounts(valid, out, |valid|, k);
    KeptCounts(valid, out + {u}, |valid|, k);
    AttributionIsExactIff(valid, t, u);
    assert ErrorKeys(errors + [e]) == ErrorKeys(errors) + [e.key];
    CountAppend(ErrorKeys(errors), e.key, k);
  }

  lemma ButLast(valid: seq<Model>, t: Table, unprocessed: seq<nat>, errors: seq<SinkError>)
    requires DistinctStrings(valid, t) && Sensible(Answered(unprocessed), |valid|) && Traced(valid, t, unprocessed, errors)
    requires unprocessed != []
    ensures var n := |unprocessed| - 1;
            && Sensible(Answered(unprocessed[..n]), |valid|) && Traced(valid, t, unprocessed[..n], errors[..n])
            && unprocessed[n] !in Positions(unprocessed[..n])
            && errors == errors[..n] + [errors[n]] && errors[n].key == TracedTo(valid, t, unprocessed[n])
  {
    assert TracedItem(valid, t, unprocessed[|unprocessed| - 1], errors[|unprocessed| - 1]);
  }

  /** With faithful keys, the unprocessed items are reported under the keys of the models that were not kept. */
  lemma {:induction false} UnprocessedAreReported(valid: seq<Model>, t: Table, unprocessed: seq<nat>, errors: seq<SinkError>, k: Key)
    requires DistinctStrings(valid, t) && Sensible(Answered(unprocessed), |valid|) && Traced(valid, t, unprocessed, errors)
    ensures |Kept(valid, Positions(unprocessed), |valid|)| + |errors| == |valid|
    ensures AllFaithful(valid, t) ==>
              Count(Keys(valid), k) ==
              Count(Kept(valid, Positions(unprocessed), |valid|), k) + Count(ErrorKeys(errors), k)
  {
    if unprocessed == [] {
      KeptAll(valid, |valid|);
      assert valid[..|valid|] == valid;
    } else {
      var n := |unprocessed| - 1;
      ButLast(valid, t, unprocessed, errors);
      UnprocessedAreReported(valid, t, unprocessed[..n], errors[..n], k);
      OneMoreUnprocessed(valid, t, Positions(unprocessed[..n]), unprocessed[n], errors[..n], errors[n], k);
    }
  }

  lemma AnsweredAccounts(valid: seq<Model>, t: Table, unprocessed: seq<nat>, errors: seq<SinkError>)
    requires DistinctStrings(valid, t) && Sensible(Answered(unprocessed), |valid|) && Traced(valid, t, unprocessed, errors)
    ensures |Kept(valid, Positions(unprocessed), |valid|)| == |valid| - |unprocessed|
    ensures AllFaithful(valid, t) ==> Accounts(Keys(valid), Kept(valid, Positions(unprocessed), |valid|), errors)
  {
    UnprocessedAreReported(valid, t, unprocessed, errors, []);
    forall k
      ensures AllFaithful(valid, t) ==>
                Count(Keys(valid), k) ==
                Count(Kept(valid, Positions(unprocessed), |valid|), k) + Count(ErrorKeys(errors), k)
    {
      UnprocessedAreReported(valid, t, unprocessed, errors, k);
    }
  }

  /** The unprocessed items; ok is false when one of them cannot be traced. */
  method ReportUnprocessed(valid: seq<Model>, t: Table, unprocessed: seq<nat>) returns (ok: bool, errors: seq<SinkError>)
    requires DistinctStrings(valid, t) && Sensible(Answered(unprocessed), |valid|)
    ensures ok ==> Traced(valid, t, unprocessed, errors)
    ensures ok <==> forall m :: 0 <= m < |unprocessed| ==> TracedTo(valid, t, unprocessed[m]) != []
  {
    errors := [];
    for m := 0 to |unprocessed|
      invariant Traced(valid, t, unprocessed[..m], errors)
    {
      var k := FindCorrelationKey(valid, valid[unprocessed[m]].update.item, t);
      if k == [] {
        assert TracedTo(valid, t, unprocessed[m]) == [];
        return false, [];
      }
      errors := errors + [SinkError(k, 0, ClassTransient)];
    }
    assert unprocessed[..|unprocessed|] == unprocessed;
    return true, errors;
  }

  /** The errors of the first n PutItem calls: cancelled ones are transient, other failures are for good. */
  function PutErrors(valid: seq<Model>, put: nat -> Put, n: nat): seq<SinkError>
    requires n <= |valid|
  {
    if n == 0 then []
    else
      PutErrors(valid, put, n - 1)
      + (match put(n - 1)
         case PutDone => []
         case PutCancelled => [SinkError(valid[n - 1].key, 0, ClassTransient)]
         case PutFailed => [SinkError(valid[n - 1].key, 0, ClassPermanent)])
  }

  lemma {:induction false} PutErrorsOutcome(valid: seq<Model>, put: nat -> Put, n: nat, e: SinkError)
    requires n <= |valid|
    ensures e in PutErrors(valid, put, n) <==>
              exists i :: 0 <= i < n && put(i) != PutDone
                          && e == SinkError(valid[i].key, 0, if put(i) == PutCancelled then ClassTransient else ClassPermanent)
  {
    if n > 0 {
      PutErrorsOutcome(valid, put, n - 1, e);
    }
  }

  lemma {:induction false} PutErrorsAccount(valid: seq<Model>, put: nat -> Put, n: nat)
    requires n <= |valid|
    ensures |PutKeys(valid, put, n)| + |PutErrors(valid, put, n)| == n
    ensures Accounts(Keys(valid[..n]), PutKeys(valid, put, n), PutErrors(valid, put, n))
  {
    if n > 0 {
      var m := valid[n - 1];
      PutErrorsAccount(valid, put, n - 1);
      assert Keys(valid[..n]) == Keys(valid[..n - 1]) + [m.key];
      if put(n - 1) == PutDone {
        AccountsDone(Keys(valid[..n - 1]), PutKeys(valid, put, n - 1), PutErrors(valid, put, n - 1), m.key);
        assert PutErrors(valid, put, n) == PutErrors(valid, put, n - 1);
      } else {
        var e := SinkError(m.key, 0, if put(n - 1) == PutCancelled then ClassTransient else ClassPermanent);
        AccountsError(Keys(valid[..n - 1]), PutKeys(valid, put, n - 1), PutErrors(valid, put, n - 1), e);
        assert PutErrors(valid, put, n) == PutErrors(valid, put, n - 1) + [e];
        assert PutKeys(valid, put, n) == PutKeys(valid, put, n - 1);
      }
    }
  }

  /** fallbackPutItems: one PutItem per model, put(i) being how the i-th ends. */
  method FallbackPutItems(valid: seq<Model>, put: nat -> Put) returns (upserted: nat, errors: seq<SinkError>)
    requires forall i :: 0 <= i < |valid| ==> valid[i].update.Row? && valid[i].update.marshals
    ensures upserted == |PutKeys(valid, put, |valid|)| && upserted + |errors| == |valid|
    ensures Accounts(Keys(valid), PutKeys(valid, put, |valid|), errors)
    ensures forall e :: e in errors <==>
              exists i :: 0 <= i < |valid| && put(i) != PutDone
                          && e == SinkError(valid[i].key, 0, if put(i) == PutCancelled then ClassTransient else ClassPermanent)
  {
    upserted, errors := 0, [];
    for i := 0 to |valid|
      invariant upserted == |PutKeys(valid, put, i)| && errors == PutErrors(valid, put, i)
    {
      if put(i) == PutDone {
        upserted := upserted + 1;
      } else {
        errors := errors + [SinkError(valid[i].key, 0, if put(i) == PutCancelled then ClassTransient else ClassPermanent)];
      }
    }
    PutErrorsAccount(valid, put, |valid|);
    assert valid[..|valid|] == valid;
    forall e
      ensures e in errors <==>
                exists i :: 0 <= i < |valid| && put(i) != PutDone
                            && e == SinkError(valid[i].key, 0, if put(i) == PutCancelled then ClassTransient else ClassPermanent)
    {
      PutErrorsOutcome(valid, put, |valid|, e);
    }
  }

  /** A cancelled call: every model of the request is reported as transient. */
  method ReportAll(valid: seq<Model>) returns (errors: seq<SinkError>)
    ensures |errors| == |valid| && Accounts(Keys(valid), [], errors)
    ensures forall e :: e in errors ==> e.class_ == ClassTransient
  {
    errors := [];
    for i := 0 to |valid|
      invariant |errors| == i && Accounts(Keys(valid[..i]), [], errors)
      invariant forall e :: e in errors ==> e.class_ == ClassTransient
    {
      assert Keys(valid[..i + 1]) == Keys(valid[..i]) + [valid[i].key];
      AccountsError(Keys(valid[..i]), [], errors, SinkError(valid[i].key, 0, ClassTransient));
      errors := errors + [SinkError(valid[i].key, 0, ClassTransient)];
    }
    assert valid[..|valid|] == valid;
  }

  lemma Together(models: seq<Key>, valid: seq<Key>, refused: seq<SinkError>, done: seq<Key>, errors: seq<SinkError>)
    requires Accounts(models, valid, refused) && Accounts(valid, done, errors)
    ensures Accounts(models, done, refused + errors)
  {
    ErrorKeysConcat(refused, errors);
    forall k
      ensures Count(models, k) == Count(done, k) + Count(ErrorKeys(refused + errors), k)
    {
      CountConcat(ErrorKeys(refused), ErrorKeys(errors), k);
    }
  }

  /** Nothing traced an unprocessed item, or the call failed in a way the sink does not know. */
  predicate Aborts(valid: seq<Model>, t: Table, b: Batch)
    requires DistinctStrings(valid, t) && Sensible(b, |valid|)
  {
    && valid != []
    && (b.OtherFailure? || (b.Answered? && exists m :: 0 <= m < |b.unprocessed| && TracedTo(valid, t, b.unprocessed[m]) == []))
  }

  /**
    BulkWrite. Without a top-level error the counts add up to the batch, and, when the key attributes are
    printed as they are marshalled, every model is stored or reported exactly once under its own key.
    */
  method BulkWrite(models: seq<Model>, t: Table, batch: seq<Model> -> Batch, put: nat -> Put)
    returns (reply: Reply, valid: seq<Model>)
    requires forall ms :: Sensible(batch(ms), |ms|)
    ensures valid == Valid(models, t, |models|) && DistinctStrings(valid, t)
    ensures reply.TopLevelError? <==> Aborts(valid, t, batch(valid))
    ensures reply.Reported? ==> reply.upserted + |reply.errors| == |models|
    ensures reply.Reported? ==> reply.upserted == |Stored(valid, batch(valid), put)|
    ensures reply.Reported? && AllFaithful(valid, t) ==>
              Accounts(Keys(models), Stored(valid, batch(valid), put), reply.errors)
    ensures reply.Reported? && !batch(valid).ValidationException? ==>
              forall e :: e in reply.errors ==> e.class_ == ClassTransient || e in Refused(models, t, |models|)
  {
    var refused, errors;
    valid, refused := Validate(models, t);
    RequestHasDistinctStrings(models, t, |models|);
    ValidOrRefused(models, t, |models|);
    assert models[..|models|] == models;
    assert Sensible(batch(valid), |valid|);
    if valid == [] {
      NothingStored(batch(valid), put);
      return Reported(0, refused), valid;
    }
    var b := batch(valid);
    if b.ValidationException? {
      var upserted;
      upserted, errors := FallbackPutItems(valid, put);
      Together(Keys(models), Keys(valid), refused, PutKeys(valid, put, |valid|), errors);
      return Reported(upserted, refused + errors), valid;
    }
    if b.Cancelled? {
      errors := ReportAll(valid);
      Together(Keys(models), Keys(valid), refused, [], errors);
      return Reported(0, refused + errors), valid;
    }
    if b.OtherFailure? {
      return TopLevelError, valid;
    }
    var ok;
    ok, errors := ReportUnprocessed(valid, t, b.unprocessed);
    if !ok {
      return TopLevelError, valid;
    }
    AnsweredAccounts(valid, t, b.unprocessed, errors);
    forall e | e in errors
      ensures e.class_ == ClassTransient
    {
      var m :| 0 <= m < |errors| && errors[m] == e;
      assert TracedItem(valid, t, b.unprocessed[m], errors[m]);
    }
    if AllFaithful(valid, t) {
      Together(Keys(models), Keys(valid), refused, Stored(valid, b, put), errors);
    }
    return Reported(|valid| - |b.unprocessed|, refused + errors), valid;
  }

  lemma NothingStored(b: Batch, put: nat -> Put)
    requires Sensible(b, 0)
    ensures Stored([], b, put) == []
  {
  }

  predicate DistinctKeys(valid: seq<Model>) {
    forall i, j :: 0 <= i < j < |valid| ==> valid[i].key != valid[j].key
  }

  lemma {:induction false} KeptMember(valid: seq<Model>, out: set<nat>, n: nat, k: Key)
    requires n <= |valid|
    ensures k in Kept(valid, out, n) <==> exists i :: 0 <= i < n && i !in out && valid[i].key == k
  {
    if n > 0 {
      KeptMember(valid, out, n - 1, k);
    }
  }

  /** The keys the unprocessed items are traced to. */
  function Traces(valid: seq<Model>, t: Table, unprocessed: seq<nat>): (r: seq<Key>)
    requires DistinctStrings(valid, t) && Sensible(Answered(unprocessed), |valid|)
    ensures |r| == |unprocessed| && forall m :: 0 <= m < |r| ==> r[m] == TracedTo(valid, t, unprocessed[m])
  {
    seq(|unprocessed|, m requires 0 <= m < |unprocessed| => TracedTo(valid, t, unprocessed[m]))
  }

  lemma TracesAreReported(valid: seq<Model>, t: Table, unprocessed: seq<nat>, errors: seq<SinkError>)
    requires DistinctStrings(valid, t) && Sensible(Answered(unprocessed), |valid|) && Traced(valid, t, unprocessed, errors)
    ensures ErrorKeys(errors) == Traces(valid, t, unprocessed)
  {
    forall m | 0 <= m < |errors|
      ensures errors[m].key == TracedTo(valid, t, unprocessed[m])
    {
      assert TracedItem(valid, t, unprocessed[m], errors[m]);
    }
  }

  /** Each unprocessed item's own key is among the given ones. */
  predicate OwnKeysIn(valid: seq<Model>, unprocessed: seq<nat>, traces: seq<Key>)
    requires Sensible(Answered(unprocessed), |valid|)
  {
    forall m :: 0 <= m < |unprocessed| ==> valid[unprocessed[m]].key in traces
  }

  lemma StoredByPosition(valid: seq<Model>, unprocessed: seq<nat>, i: nat)
    requires DistinctKeys(valid) && Sensible(Answered(unprocessed), |valid|) && i < |valid|
    ensures valid[i].key in Keys(valid)
    ensures valid[i].key in Kept(valid, Positions(unprocessed), |valid|) <==> i !in unprocessed
  {
    assert Keys(valid)[i] in Keys(valid);
    var out := Positions(unprocessed);
    KeptMember(valid, out, |valid|, valid[i].key);
    if valid[i].key in Kept(valid, out, |valid|) {
      var n :| 0 <= n < |valid| && n !in out && valid[n].key == valid[i].key;
      assert n == i;
    }
  }

  /** The keys of a request that are not stored are those of the unprocessed positions. */
  lemma NotStoredIff(valid: seq<Model>, unprocessed: seq<nat>, k: Key)
    requires DistinctKeys(valid) && Sensible(Answered(unprocessed), |valid|)
    ensures k in Keys(valid) && k !in Kept(valid, Positions(unprocessed), |valid|) <==>
              exists m :: 0 <= m < |unprocessed| && valid[unprocessed[m]].key == k
  {
    if k in Keys(valid) && k !in Kept(valid, Positions(unprocessed), |valid|) {
      var i :| 0 <= i < |valid| && Keys(valid)[i] == k;
      StoredByPosition(valid, unprocessed, i);
      var m :| 0 <= m < |unprocessed| && unprocessed[m] == i;
      assert valid[unprocessed[m]].key == k;
    }
    if m :| 0 <= m < |unprocessed| && valid[unprocessed[m]].key == k {
      StoredByPosition(valid, unprocessed, unprocessed[m]);
    }
  }

  lemma HonestByKeys(valid: seq<Model>, unprocessed: seq<nat>, errors: seq<SinkError>)
    requires DistinctKeys(valid) && Sensible(Answered(unprocessed), |valid|)
    ensures var stored := Kept(valid, Positions(unprocessed), |valid|);
            Honest(Keys(valid), (set k | k in stored), errors) <==> OwnKeysIn(valid, unprocessed, ErrorKeys(errors))
  {
    var stored := Kept(valid, Positions(unprocessed), |valid|);
    forall k
      ensures k in Keys(valid) && k !in stored <==> exists m :: 0 <= m < |unprocessed| && valid[unprocessed[m]].key == k
      ensures Reports(errors, k) <==> k in ErrorKeys(errors)
    {
      NotStoredIff(valid, unprocessed, k);
      ReportsByKeys(errors, k);
    }
  }

  /**
    When an answer with unprocessed items is not turned into a top-level error, its errors are honest about
    what was stored if and only if each unprocessed item's own key is traced to by one of them.
    */
  lemma {:induction false} AnswerIsHonestIff(valid: seq<Model>, t: Table, unprocessed: seq<nat>, errors: seq<SinkError>)
    requires DistinctStrings(valid, t) && DistinctKeys(valid)
    requires Sensible(Answered(unprocessed), |valid|) && Traced(valid, t, unprocessed, errors)
    ensures var stored := Kept(valid, Positions(unprocessed), |valid|);
            Honest(Keys(valid), (set k | k in stored), errors) <==>
              OwnKeysIn(valid, unprocessed, Traces(valid, t, unprocessed))
  {
    HonestByKeys(valid, unprocessed, errors);
    TracesAreReported(valid, t, unprocessed, errors);
  }

  /**
    A single unprocessed item is reported honestly if and only if its key attributes print as they are
    marshalled. Otherwise, if it is reported at all, it is silently lost: the flush engine commits its key.
    */
  lemma {:induction false} SingleAnswerIsHonestIff(valid: seq<Model>, t: Table, u: nat, e: SinkError)
    requires DistinctStrings(valid, t) && DistinctKeys(valid) && u < |valid| && TracedItem(valid, t, u, e)
    ensures var stored := Kept(valid, Positions([u]), |valid|);
            Honest(Keys(valid), (set k | k in stored), [e]) <==> Faithful(valid[u], t)
  {
    AnswerIsHonestIff(valid, t, [u], [e]);
    SingleIsTracedIff(valid, t, u, e);
    var traces := Traces(valid, t, [u]);
    assert traces[0] == TracedTo(valid, t, u);
    assert OwnKeysIn(valid, [u], traces) <==> traces[0] == valid[u].key;
  }

  lemma SingleIsTracedIff(valid: seq<Model>, t: Table, u: nat, e: SinkError)
    requires DistinctStrings(valid, t) && DistinctKeys(valid) && u < |valid| && TracedItem(valid, t, u, e)
    ensures TracedTo(valid, t, u) == valid[u].key <==> Faithful(valid[u], t)
  {
    AttributionIsExactIff(valid, t, u);
  }

  /** Every answer that the sink does not turn into a top-level error is honest about what was stored. */
  ghost predicate AlwaysHonest(valid: seq<Model>, t: Table)
    requires DistinctStrings(valid, t)
  {
    forall unprocessed: seq<nat>, errors ::
      Sensible(Answered(unprocessed), |valid|) && Traced(valid, t, unprocessed, errors) ==>
        Honest(Keys(valid), (set k | k in Kept(valid, Positions(unprocessed), |valid|)), errors)
  }

  /** The condition on the request: whatever is not marshalled as it prints, no model prints as it is marshalled. */
  predicate NothingMistakable(valid: seq<Model>, t: Table)
    requires DistinctStrings(valid, t)
  {
    forall u :: 0 <= u < |valid| ==> Faithful(valid[u], t) || !Mistakable(valid, t, u)
  }

  lemma {:induction false} TracedIsOwn(valid: seq<Model>, t: Table, u: nat, e: SinkError)
    requires DistinctStrings(valid, t) && u < |valid| && TracedItem(valid, t, u, e) && NothingMistakable(valid, t)
    ensures e.key == valid[u].key
  {
    AttributionIsExactIff(valid, t, u);
  }

  lemma {:induction false} AnswerWithoutMistakesIsHonest(valid: seq<Model>, t: Table, unprocessed: seq<nat>, errors: seq<SinkError>)
    requires DistinctStrings(valid, t) && DistinctKeys(valid) && NothingMistakable(valid, t)
    requires Sensible(Answered(unprocessed), |valid|) && Traced(valid, t, unprocessed, errors)
    ensures Honest(Keys(valid), (set k | k in Kept(valid, Positions(unprocessed), |valid|)), errors)
  {
    forall m | 0 <= m < |unprocessed|
      ensures valid[unprocessed[m]].key in ErrorKeys(errors)
    {
      assert TracedItem(valid, t, unprocessed[m], errors[m]);
      TracedIsOwn(valid, t, unprocessed[m], errors[m]);
      assert ErrorKeys(errors)[m] == valid[unprocessed[m]].key;
    }
    HonestByKeys(valid, unprocessed, errors);
  }

  /**
    Before the call: every answer to a request is reported honestly if and only if no model of it prints as an item
    is marshalled whose own key attributes print differently.
    */
  lemma {:induction false} RequestIsAlwaysHonestIff(valid: seq<Model>, t: Table)
    requires DistinctStrings(valid, t) && DistinctKeys(valid)
    requires forall i :: 0 <= i < |valid| ==> valid[i].key != []
    ensures AlwaysHonest(valid, t) <==> NothingMistakable(valid, t)
  {
    if NothingMistakable(valid, t) {
      forall unprocessed: seq<nat>, errors |
          Sensible(Answered(unprocessed), |valid|) && Traced(valid, t, unprocessed, errors)
        ensures Honest(Keys(valid), (set k | k in Kept(valid, Positions(unprocessed), |valid|)), errors)
      {
        AnswerWithoutMistakesIsHonest(valid, t, unprocessed, errors);
      }
    } else {
      var u :| 0 <= u < |valid| && !Faithful(valid[u], t) && Mistakable(valid, t, u);
      var e := MistakeIsDishonest(valid, t, u);
    }
  }

  lemma {:induction false} MistakeIsDishonest(valid: seq<Model>, t: Table, u: nat) returns (e: SinkError)
    requires DistinctStrings(valid, t) && DistinctKeys(valid) && u < |valid|
    requires forall i :: 0 <= i < |valid| ==> valid[i].key != []
    requires !Faithful(valid[u], t) && Mistakable(valid, t, u)
    ensures Sensible(Answered([u]), |valid|) && Traced(valid, t, [u], [e])
    ensures !Honest(Keys(valid), (set k | k in Kept(valid, Positions([u]), |valid|)), [e])
  {
    AttributionIsExactIff(valid, t, u);
    e := SinkError(TracedTo(valid, t, u), 0, ClassTransient);
    assert TracedItem(valid, t, [u][0], [e][0]);
    SingleAnswerIsHonestIff(valid, t, u, e);
  }

  /**
    A request that DynamoDB receives and that loses an item: the key of m1 prints differently from what it is
    marshalled to, and m0 prints just like that. Item 1 is left unprocessed but reported under the key of
    item 0, so model 1 counts as stored although it was not.
    */
  lemma UnfaithfulKeyIsMisreported(pk: string, key0: Key, key1: Key)
    requires key0 != [] && key1 != [] && key0 != key1
    ensures var t := Table(pk, None);
            var m0 := Model(key0, Row(map[pk := Attr("a", S("b"))], true), false);
            var m1 := Model(key1, Row(map[pk := Attr("{a}", S("a"))], true), false);
            var valid := [m0, m1];
            && Valid(valid, t, 2) == valid && DistinctStrings(valid, t) && Receivable(valid, t)
            && TracedTo(valid, t, 1) == key0
            && !Honest(Keys(valid), (set k | k in Kept(valid, Positions([1]), 2)), [SinkError(key0, 0, ClassTransient)])
  {
    var t := Table(pk, None);
    var m0 := Model(key0, Row(map[pk := Attr("a", S("b"))], true), false);
    var m1 := Model(key1, Row(map[pk := Attr("{a}", S("a"))], true), false);
    var valid := [m0, m1];
    assert valid[0] == m0 && valid[1] == m1;
    assert KeyStr(m0, t) == "a" && KeyStr(m1, t) == "{a}" && "a" != "{a}";
    assert "b" != "a";
    SeenKeysExact(valid, t, 1, KeyStr(m1, t));
    SeenKeysExact(valid, t, 0, KeyStr(m0, t));
    RequestHasDistinctStrings(valid, t, 2);
    assert Valid(valid, t, 1) == [m0];
    assert Valid(valid, t, 2) == [m0] + [m1];
    SingleAnswerIsHonestIff(valid, t, 1, SinkError(key0, 0, ClassTransient));
  }
}
