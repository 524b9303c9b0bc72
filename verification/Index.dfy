/** The secondary indexes: equality sets, range sorted sets, the idxv record of each key, and Query. */
module Index {
  import opened Optional
  import opened Redis
  import opened Bands

  type Field = Bytes
  type Value = Bytes

  /** What an IndexContract may return for a field: a string, a number, or anything else (ignored). */
  datatype FieldVal = Text(value: Value) | Number(score: real) | Other

  /** An idxv entry: "s:" plus the value of an equality field, or "n" for a range field. */
  datatype Recorded = Eq(value: Value) | Range

  type Fields = map<Field, FieldVal>

  /** Index key names as tuples: the printed names carry the band as their hash tag. */
  datatype SetKey = SetKey(band: nat, field: Field, value: Value)
  datatype ZKey = ZKey(band: nat, field: Field)

  datatype Item = Item(key: Key, fields: Fields)

  const QUERY_CHUNK := 500

  /** What the indexes should record about a key whose contract returned fields. */
  function Record(fields: Fields): map<Field, Recorded> {
    map f | f in fields && !fields[f].Other? :: if fields[f].Text? then Eq(fields[f].value) else Range
  }

  predicate HasText(fields: Fields, f: Field, v: Value) {
    f in fields && fields[f] == Text(v)
  }

  function NumberAt(fields: Fields, f: Field): Option<real> {
    if f in fields && fields[f].Number? then Some(fields[f].score) else None
  }

  /** No field turns from a number into a string. */
  predicate KindsKept(before: Fields, after: Fields) {
    forall f :: f in before && before[f].Number? && f in after ==> !after[f].Text?
  }

  predicate InRange(score: Option<real>, f: Field, lo: map<Field, real>, hi: map<Field, real>) {
    && score.Some?
    && (f in lo ==> lo[f] <= score.value)
    && (f in hi ==> score.value <= hi[f])
  }

  /** The query as a filter on a key's indexed fields. */
  predicate Fits(fields: Fields, equality: map<Field, Value>, lo: map<Field, real>, hi: map<Field, real>) {
    && (forall f :: f in equality ==> HasText(fields, f, equality[f]))
    && (forall f :: f in lo.Keys + hi.Keys ==> InRange(NumberAt(fields, f), f, lo, hi))
  }

  /** What an index contract's answer stands for: texts in equality sets, numbers as scores, anything else ignored. */
  lemma RecordOutcome(fields: Fields, f: Field)
    ensures f !in fields || fields[f].Other? ==> f !in Record(fields) && NumberAt(fields, f) == None
    ensures f in fields && fields[f].Text? ==>
              f in Record(fields) && Record(fields)[f] == Eq(fields[f].value) && NumberAt(fields, f) == None
              && forall v :: HasText(fields, f, v) <==> v == fields[f].value
    ensures f in fields && fields[f].Number? ==>
              f in Record(fields) && Record(fields)[f] == Range && NumberAt(fields, f) == Some(fields[f].score)
              && forall v :: !HasText(fields, f, v)
  {
  }

  /** A query's bounds are inclusive, a bounded field must hold a number, and a compared one the very text. */
  lemma FitsOutcome(fields: Fields, equality: map<Field, Value>, lo: map<Field, real>, hi: map<Field, real>)
    ensures Fits(fields, equality, lo, hi) <==>
              && (forall f :: f in equality ==> f in fields && fields[f] == Text(equality[f]))
              && (forall f :: f in lo ==> f in fields && fields[f].Number? && fields[f].score >= lo[f])
              && (forall f :: f in hi ==> f in fields && fields[f].Number? && fields[f].score <= hi[f])
  {
    if Fits(fields, equality, lo, hi) {
      forall f | f in lo.Keys + hi.Keys
        ensures f in fields && fields[f].Number?
        ensures f in lo ==> fields[f].score >= lo[f]
        ensures f in hi ==> fields[f].score <= hi[f]
      {
        assert InRange(NumberAt(fields, f), f, lo, hi);
      }
      assert forall f :: f in lo ==> f in lo.Keys + hi.Keys;
      assert forall f :: f in hi ==> f in lo.Keys + hi.Keys;
    }
  }

  /** The equality part of a query. */
  predicate HasTexts(fields: Fields, equality: map<Field, Value>) {
    forall f :: f in equality ==> HasText(fields, f, equality[f])
  }

  predicate Live(payloads: map<Key, Payload>, k: Key) {
    k in payloads && payloads[k] != []
  }

  predicate DistinctItems(items: seq<Item>) {
    forall i, j :: 0 <= i < j < |items| ==> items[i].key != items[j].key
  }

  /** A previously recorded field whose record changes. */
  predicate Drops(previous: map<Field, Recorded>, next: map<Field, Recorded>, f: Field) {
    f in previous && !(f in next && next[f] == previous[f])
  }

  /**
    The index tables of a namespace: who is in which set, who has which score in which sorted set (Redis
    keeps no empty ones), and the idxv hash of each key.
    */
  datatype Tables = Tables(
    sets: set<(SetKey, Key)>,
    zsets: map<(ZKey, Key), real>,
    idxv: map<Key, map<Field, Recorded>>)
  {
    predicate InSet(key: SetKey, k: Key) {
      (key, k) in sets
    }

    function ScoreIn(key: ZKey, k: Key): Option<real> {
      Lookup(zsets, (key, k))
    }

    function RecordedOf(k: Key): map<Field, Recorded> {
      if k in idxv then idxv[k] else map[]
    }

    /** k, of the given band, is in exactly the sets and sorted sets its fields name, and idxv says so. */
    ghost predicate Represents(k: Key, band: nat, fields: Fields) {
      && (forall f, v :: InSet(SetKey(band, f, v), k) <==> HasText(fields, f, v))
      && (forall f :: ScoreIn(ZKey(band, f), k) == NumberAt(fields, f))
      && (forall s: SetKey :: s.band != band ==> !InSet(s, k))
      && (forall z: ZKey :: z.band != band ==> ScoreIn(z, k).None?)
      && RecordedOf(k) == Record(fields)
    }

    /** These tables and t differ at most in what they say about k in its band. */
    ghost predicate DiffersOnlyAt(t: Tables, k: Key, band: nat) {
      && (forall s: SetKey, q :: q != k || s.band != band ==> (InSet(s, q) <==> t.InSet(s, q)))
      && (forall z: ZKey, q :: q != k || z.band != band ==> ScoreIn(z, q) == t.ScoreIn(z, q))
      && (forall q :: q != k ==> RecordedOf(q) == t.RecordedOf(q))
    }
  }

  /** What queueIndexUpdate makes of k: what was there, plus the new values, minus the dropped ones. */
  ghost predicate Moved(before: Tables, after: Tables, k: Key, band: nat, fields: Fields) {
    var previous := before.RecordedOf(k);
    var next := Record(fields);
    && (forall f, v :: after.InSet(SetKey(band, f, v), k) <==>
          (before.InSet(SetKey(band, f, v), k) || HasText(fields, f, v)) && !(Drops(previous, next, f) && previous[f] == Eq(v)))
    && (forall f :: after.ScoreIn(ZKey(band, f), k) ==
          if Drops(previous, next, f) && previous[f] == Range && f !in next then None
          else if NumberAt(fields, f).Some? then NumberAt(fields, f)
          else before.ScoreIn(ZKey(band, f), k))
    && after.RecordedOf(k) == next
    && after.DiffersOnlyAt(before, k, band)
  }

  /**
    An update leaves the indexes exact if and only if no field turned from a number into a string: the
    range member of such a field is never removed, because the field is still indexed.
    */
  lemma UpdateIsExactIff(before: Tables, after: Tables, k: Key, band: nat, old_: Fields, fields: Fields)
    requires before.Represents(k, band, old_) && Moved(before, after, k, band, fields)
    ensures after.Represents(k, band, fields) <==> KindsKept(old_, fields)
  {
    if !KindsKept(old_, fields) {
      var f :| f in old_ && old_[f].Number? && f in fields && fields[f].Text?;
      assert before.ScoreIn(ZKey(band, f), k) == NumberAt(old_, f);
      assert after.ScoreIn(ZKey(band, f), k).Some? && NumberAt(fields, f).None?;
    }
  }

  /** The commands of one new value. */
  function AddValue(t: Tables, k: Key, band: nat, f: Field, val: FieldVal): (r: Tables)
    ensures r.DiffersOnlyAt(t, k, band) && r.idxv == t.idxv
    ensures forall g, v :: r.InSet(SetKey(band, g, v), k) <==> t.InSet(SetKey(band, g, v), k) || (g == f && val == Text(v))
    ensures forall g :: r.ScoreIn(ZKey(band, g), k)
                     == if g == f && val.Number? then Some(val.score) else t.ScoreIn(ZKey(band, g), k)
  {
    if val.Text? then t.(sets := t.sets + {(SetKey(band, f, val.value), k)})
    else if val.Number? then t.(zsets := t.zsets[(ZKey(band, f), k) := val.score])
    else t
  }

  /** The commands of one recorded value that may be gone. */
  function DropValue(t: Tables, k: Key, band: nat, f: Field, was: Recorded, next: map<Field, Recorded>): (r: Tables)
    ensures r.DiffersOnlyAt(t, k, band) && r.idxv == t.idxv
    ensures forall g, v :: r.InSet(SetKey(band, g, v), k) <==>
              t.InSet(SetKey(band, g, v), k) && !(g == f && !(f in next && next[f] == was) && was == Eq(v))
    ensures forall g :: r.ScoreIn(ZKey(band, g), k)
                     == if g == f && was == Range && f !in next then None else t.ScoreIn(ZKey(band, g), k)
  {
    if f in next && next[f] == was then t
    else if was.Eq? then t.(sets := t.sets - {(SetKey(band, f, was.value), k)})
    else if f !in next then t.(zsets := t.zsets - {(ZKey(band, f), k)})
    else t
  }

  /** The first half of queueIndexUpdate: add k to the indexes of its new values. */
  method AddValues(t: Tables, k: Key, band: nat, fields: Fields) returns (r: Tables, next: map<Field, Recorded>)
    ensures next == Record(fields) && r.idxv == t.idxv && r.DiffersOnlyAt(t, k, band)
    ensures forall f, v :: r.InSet(SetKey(band, f, v), k) <==> t.InSet(SetKey(band, f, v), k) || HasText(fields, f, v)
    ensures forall f :: r.ScoreIn(ZKey(band, f), k)
                     == if NumberAt(fields, f).Some? then NumberAt(fields, f) else t.ScoreIn(ZKey(band, f), k)
  {
    r, next := t, map[];
    var todo := fields.Keys;
    while todo != {}
      invariant todo <= fields.Keys && r.idxv == t.idxv && r.DiffersOnlyAt(t, k, band)
      invariant forall f :: f in next <==> f in fields && f !in todo && !fields[f].Other?
      invariant forall f :: f in next ==> next[f] == if fields[f].Text? then Eq(fields[f].value) else Range
      invariant forall f, v :: r.InSet(SetKey(band, f, v), k) <==>
                  t.InSet(SetKey(band, f, v), k) || (f !in todo && HasText(fields, f, v))
      invariant forall f :: r.ScoreIn(ZKey(band, f), k)
                         == if f !in todo && NumberAt(fields, f).Some? then NumberAt(fields, f) else t.ScoreIn(ZKey(band, f), k)
      decreases todo
    {
      var f :| f in todo;
      r := AddValue(r, k, band, f, fields[f]);
      if fields[f].Text? {
        next := next[f := Eq(fields[f].value)];
      } else if fields[f].Number? {
        next := next[f := Range];
      }
      todo := todo - {f};
    }
  }

  /** The second half: drop k from the indexes of values it no longer has. */
  method DropValues(t: Tables, k: Key, band: nat, previous: map<Field, Recorded>, next: map<Field, Recorded>)
    returns (r: Tables)
    ensures r.idxv == t.idxv && r.DiffersOnlyAt(t, k, band)
    ensures forall f, v :: r.InSet(SetKey(band, f, v), k) <==>
              t.InSet(SetKey(band, f, v), k) && !(Drops(previous, next, f) && previous[f] == Eq(v))
    ensures forall f :: r.ScoreIn(ZKey(band, f), k)
                     == if Drops(previous, next, f) && previous[f] == Range && f !in next then None
                        else t.ScoreIn(ZKey(band, f), k)
  {
    r := t;
    var todo := previous.Keys;
    while todo != {}
      invariant todo <= previous.Keys && r.idxv == t.idxv && r.DiffersOnlyAt(t, k, band)
      invariant forall f, v :: r.InSet(SetKey(band, f, v), k) <==>
                  t.InSet(SetKey(band, f, v), k) && !(f !in todo && Drops(previous, next, f) && previous[f] == Eq(v))
      invariant forall f :: r.ScoreIn(ZKey(band, f), k)
                         == if f !in todo && Drops(previous, next, f) && previous[f] == Range && f !in next then None
                            else t.ScoreIn(ZKey(band, f), k)
      decreases todo
    {
      var f :| f in todo;
      r := DropValue(r, k, band, f, previous[f], next);
      todo := todo - {f};
    }
  }

  /** queueIndexUpdate: move k from what idxv said (previous) to fields. */
  method QueueIndexUpdate(t: Tables, k: Key, band: nat, fields: Fields, previous: map<Field, Recorded>) returns (r: Tables)
    requires previous == t.RecordedOf(k)
    ensures Moved(t, r, k, band, fields)
  {
    var added, next := AddValues(t, k, band, fields);
    r := DropValues(added, k, band, previous, next);
    r := r.(idxv := r.idxv - {k});
    if next != map[] {
      r := r.(idxv := r.idxv[k := next]);
    }
  }

  // ── The namespace's indexes ────────────────────────────────────────────────

  function FieldsOf(indexed: map<Key, Fields>, k: Key): Fields {
    if k in indexed then indexed[k] else map[]
  }

  /** The tables record exactly the fields each key was last indexed with and not pruned since. */
  ghost predicate Exact(t: Tables, indexed: map<Key, Fields>, bandCount: nat) {
    bandCount > 0 && forall k :: t.Represents(k, BandForKey(k, bandCount), FieldsOf(indexed, k))
  }

  /** Exact tables are determined by what was indexed, so two ways to get there give the same tables. */
  lemma ExactIsUnique(a: Tables, b: Tables, indexed: map<Key, Fields>, bandCount: nat)
    requires Exact(a, indexed, bandCount) && Exact(b, indexed, bandCount)
    ensures a.sets == b.sets && a.zsets == b.zsets
    ensures forall k :: a.RecordedOf(k) == b.RecordedOf(k)
  {
    forall s: SetKey, k
      ensures a.InSet(s, k) <==> b.InSet(s, k)
    {
      assert a.Represents(k, BandForKey(k, bandCount), FieldsOf(indexed, k));
      assert b.Represents(k, BandForKey(k, bandCount), FieldsOf(indexed, k));
      if s.band == BandForKey(k, bandCount) {
        assert s == SetKey(s.band, s.field, s.value);
      }
    }
    forall z: ZKey, k
      ensures a.ScoreIn(z, k) == b.ScoreIn(z, k)
    {
      assert a.Represents(k, BandForKey(k, bandCount), FieldsOf(indexed, k));
      assert b.Represents(k, BandForKey(k, bandCount), FieldsOf(indexed, k));
      if z.band == BandForKey(k, bandCount) {
        assert z == ZKey(z.band, z.field);
      }
    }
    forall k
      ensures a.RecordedOf(k) == b.RecordedOf(k)
    {
      assert a.Represents(k, BandForKey(k, bandCount), FieldsOf(indexed, k));
      assert b.Represents(k, BandForKey(k, bandCount), FieldsOf(indexed, k));
    }
    forall m: (SetKey, Key)
      ensures m in a.sets <==> m in b.sets
    {
      assert a.InSet(m.0, m.1) <==> b.InSet(m.0, m.1);
    }
    forall m: (ZKey, Key)
      ensures Lookup(a.zsets, m) == Lookup(b.zsets, m)
    {
      assert a.ScoreIn(m.0, m.1) == b.ScoreIn(m.0, m.1);
    }
    assert forall m :: m in a.zsets <==> Lookup(a.zsets, m).Some?;
    assert forall m :: m in b.zsets <==> Lookup(b.zsets, m).Some?;
  }

  lemma OthersStayRepresented(before: Tables, after: Tables, k: Key, band: nat, q: Key, qband: nat, fields: Fields)
    requires after.DiffersOnlyAt(before, k, band) && q != k
    requires before.Represents(q, qband, fields)
    ensures after.Represents(q, qband, fields)
  {
  }

  /** One update keeps the tables exact if and only if it turns no number into a string. */
  lemma MoveIsExactIff(before: Tables, after: Tables, indexed: map<Key, Fields>, k: Key, fields: Fields, bandCount: nat)
    requires Exact(before, indexed, bandCount) && Moved(before, after, k, BandForKey(k, bandCount), fields)
    ensures Exact(after, indexed[k := fields], bandCount) <==> KindsKept(FieldsOf(indexed, k), fields)
  {
    var band := BandForKey(k, bandCount);
    var indexed' := indexed[k := fields];
    UpdateIsExactIff(before, after, k, band, FieldsOf(indexed, k), fields);
    if KindsKept(FieldsOf(indexed, k), fields) {
      forall q
        ensures after.Represents(q, BandForKey(q, bandCount), FieldsOf(indexed', q))
      {
        if q != k {
          OthersStayRepresented(before, after, k, band, q, BandForKey(q, bandCount), FieldsOf(indexed, q));
        }
      }
    } else {
      assert !after.Represents(k, band, FieldsOf(indexed', k));
    }
  }

  /** The tables say of k what it was indexed with. */
  ghost predicate Shown(t: Tables, indexed: map<Key, Fields>, bandCount: nat, k: Key) {
    bandCount > 0 && t.Represents(k, BandForKey(k, bandCount), FieldsOf(indexed, k))
  }

  lemma OthersStayShown(before: Tables, after: Tables, indexed: map<Key, Fields>, items: seq<Item>, i: nat, bandCount: nat)
    requires DistinctItems(items) && i < |items| && bandCount > 0
    requires after.DiffersOnlyAt(before, items[i].key, BandForKey(items[i].key, bandCount))
    requires forall m :: i <= m < |items| ==> Shown(before, indexed, bandCount, items[m].key)
    ensures forall m :: i < m < |items| ==> Shown(after, indexed[items[i].key := items[i].fields], bandCount, items[m].key)
  {
    forall m | i < m < |items|
      ensures Shown(after, indexed[items[i].key := items[i].fields], bandCount, items[m].key)
    {
      var q := items[m].key;
      assert Shown(before, indexed, bandCount, q);
      OthersStayRepresented(before, after, items[i].key, BandForKey(items[i].key, bandCount), q, BandForKey(q, bandCount), FieldsOf(indexed, q));
    }
  }

  /** An update of a key that is shown correctly does not repair another one. */
  lemma BrokenStaysBroken(before: Tables, after: Tables, indexed: map<Key, Fields>, k: Key, fields: Fields, bandCount: nat)
    requires Shown(before, indexed, bandCount, k)
    requires after.DiffersOnlyAt(before, k, BandForKey(k, bandCount))
    ensures Exact(after, indexed[k := fields], bandCount) ==> Exact(before, indexed, bandCount)
  {
    if Exact(after, indexed[k := fields], bandCount) {
      forall q
        ensures before.Represents(q, BandForKey(q, bandCount), FieldsOf(indexed, q))
      {
        if q != k {
          assert after.Represents(q, BandForKey(q, bandCount), FieldsOf(indexed[k := fields], q));
          OthersStayRepresented(after, before, k, BandForKey(k, bandCount), q, BandForKey(q, bandCount), FieldsOf(indexed, q));
        }
      }
    }
  }

  /** What indexing items one by one leaves indexed. */
  function IndexAll(indexed: map<Key, Fields>, items: seq<Item>): map<Key, Fields> {
    if items == [] then indexed
    else
      var i := |items| - 1;
      IndexAll(indexed, items[..i])[items[i].key := items[i].fields]
  }

  lemma {:induction false} IndexAllSkips(indexed: map<Key, Fields>, items: seq<Item>, k: Key)
    requires forall i :: 0 <= i < |items| ==> items[i].key != k
    ensures FieldsOf(IndexAll(indexed, items), k) == FieldsOf(indexed, k)
  {
    if items != [] {
      IndexAllSkips(indexed, items[..|items| - 1], k);
    }
  }

  /** Every item keeps the kinds of its key's fields. */
  predicate AllKindsKept(indexed: map<Key, Fields>, items: seq<Item>) {
    forall i :: 0 <= i < |items| ==> KindsKept(FieldsOf(indexed, items[i].key), items[i].fields)
  }

  lemma MovedDiffersOnlyAt(before: Tables, after: Tables, k: Key, band: nat, fields: Fields)
    requires Moved(before, after, k, band, fields)
    ensures after.DiffersOnlyAt(before, k, band)
  {
  }

  /** Progress of a bulk update: the first i items are indexed, the others still shown as before. */
  ghost predicate BulkDone(t: Tables, start: map<Key, Fields>, items: seq<Item>, i: nat, bandCount: nat)
    requires i <= |items|
  {
    var indexed := IndexAll(start, items[..i]);
    && bandCount > 0
    && (Exact(t, indexed, bandCount) <==> AllKindsKept(start, items[..i]))
    && forall m :: i <= m < |items| ==> Shown(t, indexed, bandCount, items[m].key)
  }

  lemma BulkStart(t: Tables, start: map<Key, Fields>, items: seq<Item>, bandCount: nat)
    requires Exact(t, start, bandCount)
    ensures IndexAll(start, items[..0]) == start && BulkDone(t, start, items, 0, bandCount)
  {
    assert items[..0] == [];
  }

  lemma BulkEnd(t: Tables, start: map<Key, Fields>, items: seq<Item>, bandCount: nat)
    requires BulkDone(t, start, items, |items|, bandCount)
    ensures items[..|items|] == items
    ensures Exact(t, IndexAll(start, items), bandCount) <==> AllKindsKept(start, items)
  {
    assert items[..|items|] == items;
  }

  lemma KindsStep(start: map<Key, Fields>, items: seq<Item>, i: nat)
    requires DistinctItems(items) && i < |items|
    ensures var was := IndexAll(start, items[..i]);
            && IndexAll(start, items[..i + 1]) == was[items[i].key := items[i].fields]
            && (AllKindsKept(start, items[..i + 1]) <==>
                  AllKindsKept(start, items[..i]) && KindsKept(FieldsOf(was, items[i].key), items[i].fields))
  {
    assert items[..i + 1] == items[..i] + [items[i]] && items[..i + 1][..i] == items[..i];
    IndexAllSkips(start, items[..i], items[i].key);
  }

  /** One more update, given what it does to the exactness of the tables. */
  lemma BulkStep(before: Tables, after: Tables, start: map<Key, Fields>, items: seq<Item>, i: nat, bandCount: nat)
    requires DistinctItems(items) && i < |items| && BulkDone(before, start, items, i, bandCount)
    requires after.DiffersOnlyAt(before, items[i].key, BandForKey(items[i].key, bandCount))
    requires var was := IndexAll(start, items[..i]);
             Exact(before, was, bandCount) ==>
               (Exact(after, was[items[i].key := items[i].fields], bandCount) <==>
                  KindsKept(FieldsOf(was, items[i].key), items[i].fields))
    ensures BulkDone(after, start, items, i + 1, bandCount)
  {
    var was := IndexAll(start, items[..i]);
    KindsStep(start, items, i);
    OthersStayShown(before, after, was, items, i, bandCount);
    BrokenStaysBroken(before, after, was, items[i].key, items[i].fields, bandCount);
  }

  /** SREM and ZREM of k from the caller's index keys, for keys indexed before idxv existed. */
  method RemoveFallback(t: Tables, k: Key, band: nat, fallbackSets: seq<SetKey>, fallbackZSets: seq<ZKey>) returns (r: Tables)
    requires forall s :: s in fallbackSets ==> s.band == band
    requires forall z :: z in fallbackZSets ==> z.band == band
    ensures r.DiffersOnlyAt(t, k, band) && r.idxv == t.idxv
    ensures forall s :: r.InSet(s, k) ==> t.InSet(s, k)
    ensures forall z :: r.ScoreIn(z, k).Some? ==> t.ScoreIn(z, k).Some?
  {
    r := t;
    for i := 0 to |fallbackSets|
      invariant r.DiffersOnlyAt(t, k, band) && r.idxv == t.idxv && r.zsets == t.zsets
      invariant forall s :: r.InSet(s, k) ==> t.InSet(s, k)
    {
      assert fallbackSets[i] in fallbackSets;
      r := r.(sets := r.sets - {(fallbackSets[i], k)});
    }
    for i := 0 to |fallbackZSets|
      invariant r.DiffersOnlyAt(t, k, band) && r.idxv == t.idxv
      invariant forall s :: r.InSet(s, k) ==> t.InSet(s, k)
      invariant forall z :: r.ScoreIn(z, k).Some? ==> t.ScoreIn(z, k).Some?
    {
      assert fallbackZSets[i] in fallbackZSets;
      r := r.(zsets := r.zsets - {(fallbackZSets[i], k)});
    }
  }

  /** Pruning takes nothing from a key with a payload and changes nothing of a key it leaves. */
  predicate KeepsLive(before: map<Key, Fields>, after: map<Key, Fields>, payloads: map<Key, Payload>) {
    && (forall q :: q in after ==> q in before && after[q] == before[q])
    && (forall q :: q in before && Live(payloads, q) ==> q in after)
  }

  /** matches is the scan of one band: each live key whose fields fit, exactly once, and nothing else. */
  ghost predicate AnswersBand(matches: seq<(Key, Payload)>, indexed: map<Key, Fields>, band: nat, bandCount: nat,
                              equality: map<Field, Value>, lo: map<Field, real>, hi: map<Field, real>,
                              payloads: map<Key, Payload>)
    requires bandCount > 0
  {
    && (forall i, j :: 0 <= i < j < |matches| ==> matches[i].0 != matches[j].0)
    && (forall k, p :: (k, p) in matches <==>
          && BandForKey(k, bandCount) == band
          && Live(payloads, k) && p == payloads[k] && Fits(FieldsOf(indexed, k), equality, lo, hi))
  }

  /** results is the scan of the namespace: each live key whose fields fit, exactly once, and nothing else. */
  ghost predicate AnswersScan(results: seq<(Key, Payload)>, indexed: map<Key, Fields>, equality: map<Field, Value>,
                              lo: map<Field, real>, hi: map<Field, real>, payloads: map<Key, Payload>)
  {
    && (forall i, j :: 0 <= i < j < |results| ==> results[i].0 != results[j].0)
    && (forall k, p :: (k, p) in results <==>
          Live(payloads, k) && p == payloads[k] && Fits(FieldsOf(indexed, k), equality, lo, hi))
  }

  /** The scan restricted to the bands below n. */
  ghost predicate AnswersBands(results: seq<(Key, Payload)>, indexed: map<Key, Fields>, n: nat, bandCount: nat,
                               equality: map<Field, Value>, lo: map<Field, real>, hi: map<Field, real>,
                               payloads: map<Key, Payload>)
    requires bandCount > 0
  {
    && (forall i, j :: 0 <= i < j < |results| ==> results[i].0 != results[j].0)
    && (forall k, p :: (k, p) in results <==>
          && BandForKey(k, bandCount) < n
          && Live(payloads, k) && p == payloads[k] && Fits(FieldsOf(indexed, k), equality, lo, hi))
  }

  lemma AnotherBand(results: seq<(Key, Payload)>, more: seq<(Key, Payload)>, before: map<Key, Fields>, now: map<Key, Fields>,
                    n: nat, bandCount: nat, equality: map<Field, Value>, lo: map<Field, real>, hi: map<Field, real>,
                    payloads: map<Key, Payload>)
    requires bandCount > 0 && KeepsLive(before, now, payloads)
    requires AnswersBands(results, before, n, bandCount, equality, lo, hi, payloads)
    requires AnswersBand(more, now, n, bandCount, equality, lo, hi, payloads)
    ensures AnswersBands(results + more, before, n + 1, bandCount, equality, lo, hi, payloads)
  {
    forall i, j | 0 <= i < |results| && 0 <= j < |more|
      ensures results[i].0 != more[j].0
    {
      assert (results[i].0, results[i].1) in results && (more[j].0, more[j].1) in more;
    }
    assert forall k :: Live(payloads, k) ==> FieldsOf(before, k) == FieldsOf(now, k);
  }

  lemma {:induction false} IndexedAgainIsEqual(before: map<Key, Fields>, after: map<Key, Fields>, items: seq<Item>, k: Key)
    requires FieldsOf(before, k) == FieldsOf(after, k) || exists i :: 0 <= i < |items| && items[i].key == k
    ensures FieldsOf(IndexAll(before, items), k) == FieldsOf(IndexAll(after, items), k)
  {
    if items != [] && items[|items| - 1].key != k {
      IndexedAgainIsEqual(before, after, items[..|items| - 1], k);
    }
  }

  /**
    Pruning never changes a later answer: whatever has been written and indexed since the prune (items), a list
    answers a query on the pruned indexes if and only if it answers it on the unpruned ones. A key may have come
    back to life after the prune, as long as it was indexed again.
    */
  lemma PruningKeepsAnswers(results: seq<(Key, Payload)>, before: map<Key, Fields>, after: map<Key, Fields>,
                            pruned: map<Key, Payload>, items: seq<Item>, equality: map<Field, Value>,
                            lo: map<Field, real>, hi: map<Field, real>, payloads: map<Key, Payload>)
    requires KeepsLive(before, after, pruned)
    requires forall k :: Live(payloads, k) ==> Live(pruned, k) || exists i :: 0 <= i < |items| && items[i].key == k
    ensures AnswersScan(results, IndexAll(before, items), equality, lo, hi, payloads)
       <==> AnswersScan(results, IndexAll(after, items), equality, lo, hi, payloads)
  {
    forall k | Live(payloads, k)
      ensures FieldsOf(IndexAll(before, items), k) == FieldsOf(IndexAll(after, items), k)
    {
      IndexedAgainIsEqual(before, after, items, k);
    }
  }

  /** Taking away everything idxv recorded about k leaves exact tables for the other keys. */
  lemma PruneIsExact(before: Tables, after: Tables, indexed: map<Key, Fields>, k: Key, bandCount: nat)
    requires Exact(before, indexed, bandCount)
    requires after.DiffersOnlyAt(before, k, BandForKey(k, bandCount)) && after.RecordedOf(k) == map[]
    requires forall f, v :: after.InSet(SetKey(BandForKey(k, bandCount), f, v), k) ==>
               before.InSet(SetKey(BandForKey(k, bandCount), f, v), k)
               && !(f in before.RecordedOf(k) && before.RecordedOf(k)[f] == Eq(v))
    requires forall f :: after.ScoreIn(ZKey(BandForKey(k, bandCount), f), k).Some? ==>
               before.ScoreIn(ZKey(BandForKey(k, bandCount), f), k).Some?
               && !(f in before.RecordedOf(k) && before.RecordedOf(k)[f] == Range)
    ensures Exact(after, indexed - {k}, bandCount)
  {
    var band := BandForKey(k, bandCount);
    assert before.Represents(k, band, FieldsOf(indexed, k));
    forall q
      ensures after.Represents(q, BandForKey(q, bandCount), FieldsOf(indexed - {k}, q))
    {
      if q != k {
        OthersStayRepresented(before, after, k, band, q, BandForKey(q, bandCount), FieldsOf(indexed, q));
      }
    }
  }

  /** The entries of a band's expiry queue that are due. */
  function Waiting(due: map<Key, int>, band: nat, bandCount: nat, now: int): map<Key, int>
    requires bandCount > 0
  {
    map k | k in due && due[k] <= now && BandForKey(k, bandCount) == band :: due[k]
  }

  /** An entry is due as soon as its time has come, not only after it. */
  lemma WaitingOutcome(due: map<Key, int>, band: nat, bandCount: nat, now: int, k: Key)
    requires bandCount > 0
    ensures k in Waiting(due, band, bandCount, now) <==> k in due && due[k] <= now && BandForKey(k, bandCount) == band
    ensures k in Waiting(due, band, bandCount, now) ==> Waiting(due, band, bandCount, now)[k] == due[k]
  {
  }

  /** The expiry queue's entry of q after the due members have been looked at, before the dead are pruned. */
  function Rescored(due: map<Key, int>, members: seq<Key>, q: Key, pttl: int, now: int): Option<int> {
    if q !in members || pttl == -2 then Lookup(due, q)
    else if pttl < 0 then None
    else Some(now + pttl)
  }

  class Indexes {
    const bandCount: nat
    var tables: Tables
    var due: map<Key, int>
    ghost var indexed: map<Key, Fields>

    constructor (bandCount: nat)
      requires bandCount > 0
      ensures Valid() && indexed == map[]
    {
      this.bandCount := bandCount;
      tables, due, indexed := Tables({}, map[], map[]), map[], map[];
    }

    ghost predicate Valid()
      reads this
    {
      Exact(tables, indexed, bandCount)
    }

    /** The expiry hint of the last lines of queueIndexUpdate. */
    method Hint(k: Key, fields: Fields, expiry: int)
      modifies this`due
      ensures due == if Record(fields) == map[] then old(due) - {k} else old(due)[k := expiry]
    {
      if Record(fields) != map[] {
        due := due[k := expiry];
      } else {
        due := due - {k};
      }
    }

    /** One key's share of a pipeline, given the idxv hash read before. */
    method Move(k: Key, fields: Fields, previous: map<Field, Recorded>, expiry: int)
      requires bandCount > 0 && previous == tables.RecordedOf(k)
      modifies this
      ensures indexed == old(indexed)[k := fields]
      ensures Moved(old(tables), tables, k, BandForKey(k, bandCount), fields)
      ensures due == if Record(fields) == map[] then old(due) - {k} else old(due)[k := expiry]
    {
      tables := QueueIndexUpdate(tables, k, BandForKey(k, bandCount), fields, previous);
      Hint(k, fields, expiry);
      indexed := indexed[k := fields];
    }

    /** UpdateIndexes: read the previous values, then one pipeline. */
    method UpdateIndexes(k: Key, fields: Fields, expiry: int)
      requires Valid()
      modifies this
      ensures indexed == old(indexed)[k := fields]
      ensures Valid() <==> KindsKept(FieldsOf(old(indexed), k), fields)
      ensures due == if Record(fields) == map[] then old(due) - {k} else old(due)[k := expiry]
    {
      Move(k, fields, tables.RecordedOf(k), expiry);
      MoveIsExactIff(old(tables), tables, old(indexed), k, fields, bandCount);
    }

    /** indexValues: the idxv hashes of the listed keys. */
    method IndexValues(items: seq<Item>) returns (olds: seq<map<Field, Recorded>>)
      ensures |olds| == |items|
      ensures forall m :: 0 <= m < |olds| ==> olds[m] == tables.RecordedOf(items[m].key)
    {
      olds := [];
      for i := 0 to |items|
        invariant |olds| == i
        invariant forall m :: 0 <= m < i ==> olds[m] == tables.RecordedOf(items[m].key)
      {
        olds := olds + [tables.RecordedOf(items[i].key)];
      }
    }

    /** One item's share of a bulk update. */
    method MoveItem(items: seq<Item>, i: nat, previous: map<Field, Recorded>, expiry: int, ghost start: map<Key, Fields>)
      requires DistinctItems(items) && i < |items| && previous == tables.RecordedOf(items[i].key)
      requires indexed == IndexAll(start, items[..i]) && BulkDone(tables, start, items, i, bandCount)
      modifies this
      ensures indexed == IndexAll(start, items[..i + 1]) && BulkDone(tables, start, items, i + 1, bandCount)
      ensures forall q :: q != items[i].key ==> tables.RecordedOf(q) == old(tables).RecordedOf(q)
    {
      Move(items[i].key, items[i].fields, previous, expiry);
      if Exact(old(tables), old(indexed), bandCount) {
        MoveIsExactIff(old(tables), tables, old(indexed), items[i].key, items[i].fields, bandCount);
      }
      MovedDiffersOnlyAt(old(tables), tables, items[i].key, BandForKey(items[i].key, bandCount), items[i].fields);
      KindsStep(start, items, i);
      BulkStep(old(tables), tables, start, items, i, bandCount);
    }

    /**
      BulkUpdateIndexes: all previous values are read first, then all updates are applied. On distinct
      keys this is the same as updating one key after the other.
      */
    method BulkUpdateIndexes(items: seq<Item>, expiry: int)
      requires Valid() && DistinctItems(items)
      modifies this
      ensures indexed == IndexAll(old(indexed), items)
      ensures Valid() <==> AllKindsKept(old(indexed), items)
    {
      var olds := IndexValues(items);
      BulkStart(tables, indexed, items, bandCount);
      for i := 0 to |items|
        invariant forall m :: i <= m < |items| ==> olds[m] == tables.RecordedOf(items[m].key)
        invariant indexed == IndexAll(old(indexed), items[..i])
        invariant BulkDone(tables, old(indexed), items, i, bandCount)
      {
        MoveItem(items, i, olds[i], expiry, old(indexed));
      }
      BulkEnd(tables, old(indexed), items, bandCount);
    }

    /** The share of pruneIndexMembers for one key: its recorded values and the caller's fallback keys. */
    method PruneKey(k: Key, band: nat, fallbackSets: seq<SetKey>, fallbackZSets: seq<ZKey>)
      requires Valid() && band == BandForKey(k, bandCount)
      requires forall s :: s in fallbackSets ==> s.band == band
      requires forall z :: z in fallbackZSets ==> z.band == band
      modifies this
      ensures Valid() && indexed == old(indexed) - {k}
      ensures due == old(due) - {k}
    {
      var t := RemoveFallback(tables, k, band, fallbackSets, fallbackZSets);
      t := DropValues(t, k, band, t.RecordedOf(k), map[]);
      t := t.(idxv := t.idxv - {k});
      PruneIsExact(tables, t, indexed, k, bandCount);
      tables := t;
      due := due - {k};
      indexed := indexed - {k};
    }

    /** pruneIndexMembers: only the listed keys lose their index entries, and they lose them all. */
    method PruneIndexMembers(keys: seq<Key>, band: nat, fallbackSets: seq<SetKey>, fallbackZSets: seq<ZKey>)
      requires Valid() && forall k :: k in keys ==> BandForKey(k, bandCount) == band
      requires forall s :: s in fallbackSets ==> s.band == band
      requires forall z :: z in fallbackZSets ==> z.band == band
      modifies this
      ensures Valid()
      ensures forall q :: q in indexed <==> q in old(indexed) && q !in keys
      ensures forall q :: q in indexed ==> indexed[q] == old(indexed)[q]
      ensures forall q :: Lookup(due, q) == if q in keys then None else Lookup(old(due), q)
    {
      for i := 0 to |keys|
        invariant Valid()
        invariant forall q :: Lookup(due, q) == if q in keys[..i] then None else Lookup(old(due), q)
        invariant forall q :: q in indexed <==> q in old(indexed) && q !in keys[..i]
        invariant forall q :: q in indexed ==> indexed[q] == old(indexed)[q]
      {
        PruneKey(keys[i], band, fallbackSets, fallbackZSets);
        assert keys[..i + 1] == keys[..i] + [keys[i]];
      }
      assert keys[..|keys|] == keys;
    }

    /** Whether k's score in every range field of the query lies within its bounds. */
    method ScoresFit(k: Key, band: nat, ranges: seq<Field>, lo: map<Field, real>, hi: map<Field, real>) returns (fits: bool)
      ensures fits <==> forall f :: f in ranges ==> InRange(tables.ScoreIn(ZKey(band, f), k), f, lo, hi)
    {
      for i := 0 to |ranges|
        invariant forall m :: 0 <= m < i ==> InRange(tables.ScoreIn(ZKey(band, ranges[m]), k), ranges[m], lo, hi)
      {
        var score := tables.ScoreIn(ZKey(band, ranges[i]), k);
        if score.None? {
          return false;
        }
        if ranges[i] in lo && score.value < lo[ranges[i]] {
          return false;
        }
        if ranges[i] in hi && score.value > hi[ranges[i]] {
          return false;
        }
      }
      return true;
    }

    /** The chunk loop of QueryBand: live candidates are matched, the others collected for pruning. */
    method Resolve(candidates: seq<Key>, band: nat, ranges: seq<Field>, lo: map<Field, real>, hi: map<Field, real>,
                   payloads: map<Key, Payload>) returns (matches: seq<(Key, Payload)>, dead: seq<Key>)
      requires forall f :: f in ranges <==> f in lo.Keys + hi.Keys
      requires forall i, j :: 0 <= i < j < |candidates| ==> candidates[i] != candidates[j]
      ensures Resolved(candidates, matches, dead, band, lo, hi, payloads)
    {
      matches, dead := [], [];
      var start := 0;
      while start < |candidates|
        invariant 0 <= start <= |candidates|
        invariant Resolved(candidates[..start], matches, dead, band, lo, hi, payloads)
        decreases |candidates| - start
      {
        var end := if start + QUERY_CHUNK < |candidates| then start + QUERY_CHUNK else |candidates|;
        for i := start to end
          invariant Resolved(candidates[..i], matches, dead, band, lo, hi, payloads)
        {
          var k := candidates[i];
          assert candidates[..i + 1] == candidates[..i] + [k];
          ResolvedAppend(candidates[..i], k, matches, dead, band, lo, hi, payloads);
          if !(k in payloads && payloads[k] != []) {
            dead := dead + [k];
          } else {
            var fits := ScoresFit(k, band, ranges, lo, hi);
            if fits {
              matches := matches + [(k, payloads[k])];
            }
          }
        }
        start := end;
      }
      assert candidates[..start] == candidates;
    }

    /**
      QueryBand. The candidates are resolved in chunks; payloads holds, for each key, what its HGET returns when
      its chunk is read. The ones without a payload are pruned, which takes nothing from a live key.
      */
    method QueryBand(band: nat, equality: map<Field, Value>, lo: map<Field, real>, hi: map<Field, real>,
                     payloads: map<Key, Payload>) returns (matches: seq<(Key, Payload)>)
      requires Valid() && equality != map[]
      modifies this
      ensures Valid()
      ensures KeepsLive(old(indexed), indexed, payloads)
      ensures AnswersBand(matches, old(indexed), band, bandCount, equality, lo, hi, payloads)
      ensures forall k :: BandForKey(k, bandCount) == band && HasTexts(FieldsOf(indexed, k), equality) ==> k in payloads && payloads[k] != []
    {
      var ranges := Listed(lo.Keys + hi.Keys);
      var candidates := Candidates(band, equality);
      var dead: seq<Key>;
      matches, dead := Resolve(candidates, band, ranges, lo, hi, payloads);
      forall k
        ensures (k in candidates && ScoresMatch(k, band, lo, hi)) <==>
                (BandForKey(k, bandCount) == band && Fits(FieldsOf(indexed, k), equality, lo, hi))
        ensures k in candidates ==> BandForKey(k, bandCount) == band
      {
        CandidateFitsIff(k, band, equality, lo, hi);
      }
      assert AnswersBand(matches, indexed, band, bandCount, equality, lo, hi, payloads);
      PruneDead(band, equality, lo.Keys + hi.Keys, dead);
    }

    /** The housekeeping of a query: the dead are pruned, from the query's own index keys as well. */
    method PruneDead(band: nat, equality: map<Field, Value>, ranges: set<Field>, dead: seq<Key>)
      requires Valid() && forall k :: k in dead ==> BandForKey(k, bandCount) == band
      modifies this
      ensures Valid()
      ensures forall q :: q in indexed <==> q in old(indexed) && q !in dead
      ensures forall q :: q in indexed ==> indexed[q] == old(indexed)[q]
    {
      var eqKeys := Listed(set f | f in equality :: SetKey(band, f, equality[f]));
      var rangeKeys := Listed(set f | f in ranges :: ZKey(band, f));
      PruneIndexMembers(dead, band, eqKeys, rangeKeys);
    }

    /** The intersection, as what the keys were indexed with. */
    method Candidates(band: nat, equality: map<Field, Value>) returns (candidates: seq<Key>)
      requires Valid() && equality != map[]
      ensures forall k :: k in candidates <==> forall f :: f in equality ==> tables.InSet(SetKey(band, f, equality[f]), k)
      ensures forall k :: k in candidates <==> BandForKey(k, bandCount) == band && HasTexts(FieldsOf(indexed, k), equality)
      ensures forall i, j :: 0 <= i < j < |candidates| ==> candidates[i] != candidates[j]
    {
      candidates := Intersection(band, equality);
      forall k
        ensures k in candidates <==> BandForKey(k, bandCount) == band && HasTexts(FieldsOf(indexed, k), equality)
      {
        CandidateHasTexts(k, band, equality);
      }
    }

    /**
      Query: every band in turn. Each key is read once, in the chunk of its band, and payloads holds what that read
      returns. Without an equality filter the query is refused.
      */
    method Query(equality: map<Field, Value>, lo: map<Field, real>, hi: map<Field, real>, payloads: map<Key, Payload>)
      returns (ok: bool, results: seq<(Key, Payload)>)
      requires Valid()
      modifies this
      ensures Valid()
      ensures KeepsLive(old(indexed), indexed, payloads)
      ensures ok <==> equality != map[]
      ensures !ok ==> results == []
      ensures ok ==> AnswersScan(results, old(indexed), equality, lo, hi, payloads)
    {
      results := [];
      if equality == map[] {
        return false, results;
      }
      for band := 0 to bandCount
        invariant Valid()
        invariant KeepsLive(old(indexed), indexed, payloads)
        invariant AnswersBands(results, old(indexed), band, bandCount, equality, lo, hi, payloads)
      {
        ghost var now := indexed;
        var matches := QueryBand(band, equality, lo, hi, payloads);
        AnotherBand(results, matches, old(indexed), now, band, bandCount, equality, lo, hi, payloads);
        results := results + matches;
      }
      ok := true;
    }

    /** The re-check of the due members: the dead are collected, the others dropped or re-scored. */
    method Recheck(members: seq<Key>, now: int, pttl: Key -> int) returns (dead: seq<Key>)
      modifies this`due
      ensures |dead| <= |members|
      ensures forall q :: q in dead <==> q in members && pttl(q) == -2
      ensures forall q :: Lookup(due, q) == Rescored(old(due), members, q, pttl(q), now)
    {
      dead := [];
      for i := 0 to |members|
        invariant |dead| <= i
        invariant forall q :: q in dead <==> q in members[..i] && pttl(q) == -2
        invariant forall q :: Lookup(due, q) == Rescored(old(due), members[..i], q, pttl(q), now)
      {
        var k := members[i];
        assert members[..i + 1] == members[..i] + [k];
        if pttl(k) == -2 {
          dead := dead + [k];
        } else if pttl(k) < 0 {
          due := due - {k};
        } else {
          due := due[k := now + pttl(k)];
        }
      }
      assert members[..|members|] == members;
    }

    /**
      PruneExpiredIndexes: the due entries of one band, oldest first, are re-checked against the payload's
      real TTL. Only a key whose payload is gone loses its index entries.
      */
    method PruneExpiredIndexes(band: nat, now: int, batch: nat, pttl: Key -> int) returns (processed: nat, pruned: nat)
      requires Valid()
      modifies this
      ensures Valid()
      ensures forall q :: q in indexed ==> q in old(indexed) && indexed[q] == old(indexed)[q]
      ensures forall q :: q in old(indexed) && q !in indexed ==> pttl(q) == -2 && q in Waiting(old(due), band, bandCount, now)
      ensures processed <= batch && pruned <= processed
      ensures processed < batch ==> forall q :: q in Waiting(old(due), band, bandCount, now) ==>
                Lookup(due, q) == if pttl(q) < 0 then None else Some(now + pttl(q))
      ensures processed < batch ==> forall q :: q in Waiting(old(due), band, bandCount, now) && pttl(q) == -2 ==> q !in indexed
    {
      var members := RangeByScore(Waiting(due, band, bandCount, now), batch);
      var dead := Recheck(members, now, pttl);
      PruneIndexMembers(dead, band, [], []);
      return |members|, |dead|;
    }

    ghost predicate ScoresMatch(k: Key, band: nat, lo: map<Field, real>, hi: map<Field, real>)
      reads this`tables
    {
      forall f :: f in lo.Keys + hi.Keys ==> InRange(tables.ScoreIn(ZKey(band, f), k), f, lo, hi)
    }

    /** What the chunk loop has made of the candidates seen so far. */
    ghost predicate Resolved(seen: seq<Key>, matches: seq<(Key, Payload)>, dead: seq<Key>, band: nat,
                             lo: map<Field, real>, hi: map<Field, real>, payloads: map<Key, Payload>)
      reads this`tables
    {
      && (forall k :: k in dead <==> k in seen && !Live(payloads, k))
      && (forall k, p :: (k, p) in matches <==>
            k in seen && Live(payloads, k) && p == payloads[k] && ScoresMatch(k, band, lo, hi))
      && (forall i, j :: 0 <= i < j < |matches| ==> matches[i].0 != matches[j].0)
    }

    lemma ResolvedAppend(seen: seq<Key>, k: Key, matches: seq<(Key, Payload)>, dead: seq<Key>, band: nat,
                         lo: map<Field, real>, hi: map<Field, real>, payloads: map<Key, Payload>)
      requires Resolved(seen, matches, dead, band, lo, hi, payloads) && k !in seen
      ensures !Live(payloads, k) ==> Resolved(seen + [k], matches, dead + [k], band, lo, hi, payloads)
      ensures Live(payloads, k) && ScoresMatch(k, band, lo, hi) ==>
                Resolved(seen + [k], matches + [(k, payloads[k])], dead, band, lo, hi, payloads)
      ensures Live(payloads, k) && !ScoresMatch(k, band, lo, hi) ==>
                Resolved(seen + [k], matches, dead, band, lo, hi, payloads)
    {
      assert forall n :: 0 <= n < |matches| ==> (matches[n].0, matches[n].1) in matches;
    }

    lemma CandidateFitsIff(k: Key, band: nat, equality: map<Field, Value>, lo: map<Field, real>, hi: map<Field, real>)
      requires Valid() && equality != map[]
      ensures (forall f :: f in equality ==> tables.InSet(SetKey(band, f, equality[f]), k)) && ScoresMatch(k, band, lo, hi)
         <==> BandForKey(k, bandCount) == band && Fits(FieldsOf(indexed, k), equality, lo, hi)
      ensures (forall f :: f in equality ==> tables.InSet(SetKey(band, f, equality[f]), k)) ==> BandForKey(k, bandCount) == band
    {
      var own := BandForKey(k, bandCount);
      assert tables.Represents(k, own, FieldsOf(indexed, k));
      if band != own {
        var f :| f in equality;
        assert !tables.InSet(SetKey(band, f, equality[f]), k);
      }
    }

    lemma CandidateHasTexts(k: Key, band: nat, equality: map<Field, Value>)
      requires Valid() && equality != map[]
      ensures (forall f :: f in equality ==> tables.InSet(SetKey(band, f, equality[f]), k))
         <==> BandForKey(k, bandCount) == band && HasTexts(FieldsOf(indexed, k), equality)
    {
      CandidateFitsIff(k, band, equality, map[], map[]);
      var own := BandForKey(k, bandCount);
      assert tables.Represents(k, own, FieldsOf(indexed, k));
    }

    /** SINTER of the query's equality sets, in some order. */
    method Intersection(band: nat, equality: map<Field, Value>) returns (candidates: seq<Key>)
      requires equality != map[]
      ensures forall k :: k in candidates <==> forall f :: f in equality ==> tables.InSet(SetKey(band, f, equality[f]), k)
      ensures forall i, j :: 0 <= i < j < |candidates| ==> candidates[i] != candidates[j]
    {
      var first :| first in equality;
      var common := set m | m in tables.sets && m.0 == SetKey(band, first, equality[first]) :: m.1;
      common := set k | k in common && forall f :: f in equality ==> tables.InSet(SetKey(band, f, equality[f]), k);
      candidates := Listed(common);
    }
  }

  /** The members of a set in some order. */
  method Listed<T(==)>(s: set<T>) returns (r: seq<T>)
    ensures forall x :: x in r <==> x in s
    ensures forall i, j :: 0 <= i < j < |r| ==> r[i] != r[j]
  {
    r := [];
    var left := s;
    while left != {}
      invariant left <= s
      invariant forall x :: x in r <==> x in s && x !in left
      invariant forall i, j :: 0 <= i < j < |r| ==> r[i] != r[j]
      decreases left
    {
      var x :| x in left;
      r := r + [x];
      left := left - {x};
    }
  }
}
