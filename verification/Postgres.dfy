/** The PostgreSQL sink: one multi-row upsert per batch, with every row accounted for. */
module Postgres {
  import opened Optional
  import opened Redis
  import opened Sink

  type Column = string

  /** A column value: what "%v" prints for it, and what the database compares; None is NULL. */
  datatype Cell = Cell(printed: string, value: Option<nat>)

  /** The dynamic type of a model's update; cols lists a row's columns in sorted order. */
  datatype Update = Row(row: map<Column, Cell>, cols: seq<Column>) | RawSql(sql: string) | OtherUpdate

  datatype Filter = NoFilter | Args(args: seq<Cell>) | OtherFilter

  datatype Model = Model(key: Key, update: Update, filter: Filter, many: bool)

  /** How a statement ended: done, a PostgreSQL error with its SQLSTATE, or any other error. */
  datatype Exec = Done | PgError(code: string) | OtherError

  datatype Why = NotSql | NotArgs | NotRow | ColumnMismatch | DuplicateKey

  /** A model refused before anything was sent. */
  datatype Refusal = Refusal(model: Model, why: Why)

  datatype Reply = TopLevelError | Reported(errors: seq<SinkError>)

  /** 23xxx, 42P01, 42703 and 21000 are permanent. */
  predicate IsPermanentSqlState(code: string) {
    "23" <= code || code == "42P01" || code == "42703" || code == "21000"
  }

  function ClassOf(e: Exec): ErrorClass {
    if e.PgError? && IsPermanentSqlState(e.code) then ClassPermanent else ClassTransient
  }

  /** Constraint violations, unknown tables and columns, and a row hit twice are for good; everything else is retried. */
  lemma ClassByState(e: Exec)
    ensures ClassOf(e) == ClassPermanent || ClassOf(e) == ClassTransient
    ensures ClassOf(e) == ClassPermanent <==>
              e.PgError? && ((|e.code| >= 2 && e.code[0] == '2' && e.code[1] == '3')
                             || e.code == "42P01" || e.code == "42703" || e.code == "21000")
  {
    if e.PgError? && |e.code| >= 2 {
      assert "23" <= e.code <==> e.code[..2] == "23";
    }
  }

  /** A unique violation is for good; a serialization failure, a deadlock and a lost connection are not. */
  lemma SomeStates()
    ensures ClassOf(PgError("23505")) == ClassPermanent && ClassOf(PgError("21000")) == ClassPermanent
    ensures ClassOf(PgError("40001")) == ClassTransient && ClassOf(PgError("40P01")) == ClassTransient
    ensures ClassOf(OtherError) == ClassTransient
  {
    ClassByState(PgError("23505"));
    ClassByState(PgError("21000"));
    ClassByState(PgError("40001"));
    ClassByState(PgError("40P01"));
    assert |"40001"| == 5 && "40001"[0] == '4' && "40P01"[0] == '4';
    assert "21000"[1] == '1' && "42P01"[2] == 'P' && "42703"[2] == '7' && "40001"[2] == '0' && "40P01"[1] == '0';
    assert "42P01"[1] == '2' && "42703"[1] == '2';
  }

  function Keys(models: seq<Model>): (r: seq<Key>)
    ensures |r| == |models| && forall i :: 0 <= i < |r| ==> r[i] == models[i].key
  {
    seq(|models|, i requires 0 <= i < |models| => models[i].key)
  }

  /** The permanent errors for the refused models. */
  function Errors(refusals: seq<Refusal>): (r: seq<SinkError>)
    ensures |r| == |refusals|
    ensures forall i :: 0 <= i < |r| ==> r[i] == SinkError(refusals[i].model.key, 0, ClassPermanent)
  {
    seq(|refusals|, i requires 0 <= i < |refusals| => SinkError(refusals[i].model.key, 0, ClassPermanent))
  }

  // ── Conflict keys ──────────────────────────────────────────────────────────

  function Printed(row: map<Column, Cell>, c: Column): string {
    if c in row then row[c].printed else "<nil>"
  }

  /** What the database compares in a column: an absent one is NULL. */
  function Value(row: map<Column, Cell>, c: Column): Option<nat> {
    if c in row then row[c].value else None
  }

  /** The database takes the rows for one: no conflict column is NULL, and all are equal. */
  predicate Collide(a: map<Column, Cell>, b: map<Column, Cell>, conflict: seq<Column>) {
    forall i :: 0 <= i < |conflict| ==> Value(a, conflict[i]).Some? && Value(a, conflict[i]) == Value(b, conflict[i])
  }

  function Parts(row: map<Column, Cell>, conflict: seq<Column>): (r: seq<string>)
    ensures |r| == |conflict| && forall i :: 0 <= i < |r| ==> r[i] == Printed(row, conflict[i])
  {
    seq(|conflict|, i requires 0 <= i < |conflict| => Printed(row, conflict[i]))
  }

  /** strings.Join(parts, "|"). */
  function Join(parts: seq<string>): string {
    if parts == [] then "" else if |parts| == 1 then parts[0] else parts[0] + "|" + Join(parts[1..])
  }

  /** buildConflictKeyFromMap. */
  function ConflictKey(row: map<Column, Cell>, conflict: seq<Column>): string {
    Join(Parts(row, conflict))
  }

  /** Where a string first holds the separator, or its length. */
  function FirstBar(s: string): nat {
    if s == "" || s[0] == '|' then 0 else 1 + FirstBar(s[1..])
  }

  lemma {:induction false} FirstBarAfter(part: string, rest: string)
    requires '|' !in part
    ensures FirstBar(part + "|" + rest) == |part|
  {
    var s := part + "|" + rest;
    if part != "" {
      assert part[0] in part && s[1..] == part[1..] + "|" + rest;
      FirstBarAfter(part[1..], rest);
    }
  }

  lemma {:induction false} JoinIsInjective(a: seq<string>, b: seq<string>)
    requires |a| == |b|
    requires forall i :: 0 <= i < |a| ==> '|' !in a[i] && '|' !in b[i]
    ensures Join(a) == Join(b) <==> a == b
  {
    if |a| > 1 && Join(a) == Join(b) {
      FirstBarAfter(a[0], Join(a[1..]));
      FirstBarAfter(b[0], Join(b[1..]));
      var n := |a[0]|;
      assert Join(a)[..n] == a[0] && Join(b)[..n] == b[0];
      assert Join(a)[n + 1..] == Join(a[1..]) && Join(b)[n + 1..] == Join(b[1..]);
      JoinIsInjective(a[1..], b[1..]);
      assert a == [a[0]] + a[1..] && b == [b[0]] + b[1..];
    }
  }

  predicate NoSeparator(row: map<Column, Cell>, conflict: seq<Column>) {
    forall i :: 0 <= i < |conflict| ==> '|' !in Printed(row, conflict[i])
  }

  predicate PrintAlike(a: map<Column, Cell>, b: map<Column, Cell>, conflict: seq<Column>) {
    forall i :: 0 <= i < |conflict| ==> Printed(a, conflict[i]) == Printed(b, conflict[i])
  }

  lemma AlikeMeansEqualParts(a: map<Column, Cell>, b: map<Column, Cell>, conflict: seq<Column>)
    ensures PrintAlike(a, b, conflict) <==> Parts(a, conflict) == Parts(b, conflict)
  {
    if Parts(a, conflict) == Parts(b, conflict) {
      forall i | 0 <= i < |conflict|
        ensures Printed(a, conflict[i]) == Printed(b, conflict[i])
      {
        assert Parts(a, conflict)[i] == Parts(b, conflict)[i];
      }
    }
  }

  /** As long as no conflict value prints the separator, two rows get one conflict key if and only if they print alike. */
  lemma KeyIsSharedIff(a: map<Column, Cell>, b: map<Column, Cell>, conflict: seq<Column>)
    requires NoSeparator(a, conflict) && NoSeparator(b, conflict)
    ensures ConflictKey(a, conflict) == ConflictKey(b, conflict) <==> PrintAlike(a, b, conflict)
  {
    AlikeMeansEqualParts(a, b, conflict);
    JoinIsInjective(Parts(a, conflict), Parts(b, conflict));
  }

  /** In each conflict column, equal prints are equal values and the other way round. */
  predicate PrintsAsCompared(a: map<Column, Cell>, b: map<Column, Cell>, conflict: seq<Column>) {
    forall i :: 0 <= i < |conflict| ==>
      (Printed(a, conflict[i]) == Printed(b, conflict[i]) <==>
         Value(a, conflict[i]).Some? && Value(a, conflict[i]) == Value(b, conflict[i]))
  }

  /**
    The duplicate check is then exact: two rows get one conflict key if and only if the database would take
    them for one.
    */
  lemma DuplicateCheckIsExact(a: map<Column, Cell>, b: map<Column, Cell>, conflict: seq<Column>)
    requires NoSeparator(a, conflict) && NoSeparator(b, conflict) && PrintsAsCompared(a, b, conflict)
    ensures ConflictKey(a, conflict) == ConflictKey(b, conflict) <==> Collide(a, b, conflict)
  {
    KeyIsSharedIff(a, b, conflict);
  }

  /** With any separators: rows that print alike share a key, so a row that prints like an accepted one is refused. */
  lemma AlikeShareKey(a: map<Column, Cell>, b: map<Column, Cell>, conflict: seq<Column>)
    requires PrintAlike(a, b, conflict)
    ensures ConflictKey(a, conflict) == ConflictKey(b, conflict)
  {
    AlikeMeansEqualParts(a, b, conflict);
  }

  /**
    Values that print alike make two different rows look like duplicates, and one is refused for good: here the
    number 1 and the text 1, and the text <nil> and an absent column.
    */
  lemma PrintAlikeMakesFalseDuplicates(id: Column)
    ensures var number, text := map[id := Cell("1", Some(0))], map[id := Cell("1", Some(1))];
            !Collide(number, text, [id]) && ConflictKey(number, [id]) == ConflictKey(text, [id])
    ensures var nil, absent: map<Column, Cell> := map[id := Cell("<nil>", Some(2))], map[];
            !Collide(nil, absent, [id]) && ConflictKey(nil, [id]) == ConflictKey(absent, [id])
  {
    var number, text := map[id := Cell("1", Some(0))], map[id := Cell("1", Some(1))];
    var nil, absent: map<Column, Cell> := map[id := Cell("<nil>", Some(2))], map[];
    assert Value(number, [id][0]) != Value(text, [id][0]);
    assert Value(nil, [id][0]) != Value(absent, [id][0]);
    AlikeShareKey(number, text, [id]);
    AlikeShareKey(nil, absent, [id]);
  }

  /**
    Values that the database holds equal but that print differently, such as case-insensitive text, get past the
    check: the two rows go into one statement, which the database refuses as a whole.
    */
  lemma PrintUnlikeHidesDuplicates(id: Column)
    ensures var upper, lower := map[id := Cell("A", Some(0))], map[id := Cell("a", Some(0))];
            Collide(upper, lower, [id]) && ConflictKey(upper, [id]) != ConflictKey(lower, [id])
  {
    var upper, lower := map[id := Cell("A", Some(0))], map[id := Cell("a", Some(0))];
    assert Parts(upper, [id]) == ["A"] && Parts(lower, [id]) == ["a"];
    assert Join(["A"])[0] == 'A' && Join(["a"])[0] == 'a';
  }

  /** With the separator in a value, two different rows are taken for duplicates, and one is refused for good. */
  lemma SeparatorMakesFalseDuplicates(user: Column, event: Column)
    requires user != event
    ensures var a := map[user := Cell("a|b", Some(0)), event := Cell("c", Some(1))];
            var b := map[user := Cell("a", Some(2)), event := Cell("b|c", Some(3))];
            !Collide(a, b, [user, event]) && !PrintAlike(a, b, [user, event])
            && ConflictKey(a, [user, event]) == ConflictKey(b, [user, event])
  {
    var a := map[user := Cell("a|b", Some(0)), event := Cell("c", Some(1))];
    var b := map[user := Cell("a", Some(2)), event := Cell("b|c", Some(3))];
    assert Value(a, [user, event][0]) != Value(b, [user, event][0]);
    assert |Printed(a, [user, event][0])| != |Printed(b, [user, event][0])|;
    assert Parts(a, [user, event]) == ["a|b", "c"] && Parts(b, [user, event]) == ["a", "b|c"];
    assert ["a|b", "c"][1..] == ["c"] && ["a", "b|c"][1..] == ["b|c"];
    assert Join(["c"]) == "c" && Join(["b|c"]) == "b|c";
    assert "a|b" + "|" + "c" == "a|b|c" == "a" + "|" + "b|c";
  }

  // ── Validation ─────────────────────────────────────────────────────────────

  /** The conflict keys of the accepted rows. */
  function Seen(upserts: seq<Model>, conflict: seq<Column>): set<string> {
    if upserts == [] then {}
    else
      var m := upserts[|upserts| - 1];
      Seen(upserts[..|upserts| - 1], conflict) + (if m.update.Row? then {ConflictKey(m.update.row, conflict)} else {})
  }

  /** A refusal has a reason in the model itself or in the rows accepted before it. */
  predicate Justified(r: Refusal, upserts: seq<Model>, cols: Option<seq<Column>>, conflict: seq<Column>) {
    match r.why
    case NotSql => r.model.many && !r.model.update.RawSql?
    case NotArgs => r.model.many && r.model.filter.OtherFilter?
    case NotRow => !r.model.many && !r.model.update.Row?
    case ColumnMismatch => !r.model.many && r.model.update.Row? && cols.Some? && r.model.update.cols != cols.value
    case DuplicateKey =>
      !r.model.many && r.model.update.Row? && ConflictKey(r.model.update.row, conflict) in Seen(upserts, conflict)
  }

  predicate IsRow(m: Model, cols: Option<seq<Column>>) {
    !m.many && m.update.Row? && Some(m.update.cols) == cols
  }

  /** The rows of one statement: same columns, pairwise different conflict keys. */
  predicate Batchable(upserts: seq<Model>, cols: Option<seq<Column>>, conflict: seq<Column>) {
    && (forall i :: 0 <= i < |upserts| ==> IsRow(upserts[i], cols))
    && (forall i, j :: 0 <= i < j < |upserts| ==>
          ConflictKey(upserts[i].update.row, conflict) != ConflictKey(upserts[j].update.row, conflict))
  }

  lemma {:induction false} SeenIsComplete(upserts: seq<Model>, conflict: seq<Column>, i: nat)
    requires i < |upserts| && upserts[i].update.Row?
    ensures ConflictKey(upserts[i].update.row, conflict) in Seen(upserts, conflict)
  {
    if i < |upserts| - 1 {
      SeenIsComplete(upserts[..|upserts| - 1], conflict, i);
    }
  }

  lemma SeenAppend(upserts: seq<Model>, conflict: seq<Column>, m: Model)
    requires m.update.Row?
    ensures Seen(upserts + [m], conflict) == Seen(upserts, conflict) + {ConflictKey(m.update.row, conflict)}
  {
    assert (upserts + [m])[..|upserts|] == upserts;
  }

  lemma NotSeenDiffers(upserts: seq<Model>, conflict: seq<Column>, i: nat, k: string)
    requires i < |upserts| && upserts[i].update.Row? && k !in Seen(upserts, conflict)
    ensures ConflictKey(upserts[i].update.row, conflict) != k
  {
    SeenIsComplete(upserts, conflict, i);
  }

  lemma BatchableAppend(upserts: seq<Model>, cols: Option<seq<Column>>, conflict: seq<Column>, m: Model)
    requires Batchable(upserts, cols, conflict) && IsRow(m, cols)
    requires ConflictKey(m.update.row, conflict) !in Seen(upserts, conflict)
    ensures Batchable(upserts + [m], cols, conflict)
  {
    var more := upserts + [m];
    forall i | 0 <= i < |more|
      ensures IsRow(more[i], cols)
    {
    }
    forall i, j | 0 <= i < j < |more|
      ensures ConflictKey(more[i].update.row, conflict) != ConflictKey(more[j].update.row, conflict)
    {
      assert more[i] == upserts[i];
      if j == |upserts| {
        NotSeenDiffers(upserts, conflict, i, ConflictKey(m.update.row, conflict));
      } else {
        assert more[j] == upserts[j];
      }
    }
  }

  /**
    A statement holds no two rows that the database would take for one, as long as equal conflict values print
    alike. The database would refuse it as a whole.
    */
  lemma BatchHasDistinctTuples(upserts: seq<Model>, cols: Option<seq<Column>>, conflict: seq<Column>, i: nat, j: nat)
    requires Batchable(upserts, cols, conflict) && i < j < |upserts|
    requires upserts[i].update.Row? && upserts[j].update.Row?
    requires Collide(upserts[i].update.row, upserts[j].update.row, conflict) ==>
               PrintAlike(upserts[i].update.row, upserts[j].update.row, conflict)
    ensures !Collide(upserts[i].update.row, upserts[j].update.row, conflict)
  {
    if Collide(upserts[i].update.row, upserts[j].update.row, conflict) {
      AlikeShareKey(upserts[i].update.row, upserts[j].update.row, conflict);
    }
  }

  predicate Runnable(m: Model) {
    m.many && m.update.RawSql? && !m.filter.OtherFilter?
  }

  /** The checks of one iteration, in their order. */
  function Verdict(m: Model, cols: Option<seq<Column>>, seen: set<string>, conflict: seq<Column>): Option<Why> {
    if m.many then
      if !m.update.RawSql? then Some(NotSql) else if m.filter.OtherFilter? then Some(NotArgs) else None
    else if !m.update.Row? then Some(NotRow)
    else if cols.Some? && cols.value != m.update.cols then Some(ColumnMismatch)
    else if ConflictKey(m.update.row, conflict) in seen then Some(DuplicateKey)
    else None
  }

  predicate AllJustified(refusals: seq<Refusal>, upserts: seq<Model>, cols: Option<seq<Column>>, conflict: seq<Column>) {
    forall i :: 0 <= i < |refusals| ==> Justified(refusals[i], upserts, cols, conflict)
  }

  /** Every model goes to exactly one of three places. */
  ghost predicate Sorted3(models: seq<Key>, refused: seq<SinkError>, upserts: seq<Model>, manys: seq<Model>) {
    forall k :: Count(models, k) == Count(ErrorKeys(refused), k) + Count(Keys(upserts), k) + Count(Keys(manys), k)
  }

  /** Adding one model to the models, and to one of the three places, keeps the balance. */
  lemma Sorted3Append(models: seq<Key>, refusals: seq<Refusal>, upserts: seq<Model>, manys: seq<Model>, m: Model, why: Why)
    requires Sorted3(models, Errors(refusals), upserts, manys)
    ensures Sorted3(models + [m.key], Errors(refusals + [Refusal(m, why)]), upserts, manys)
    ensures Sorted3(models + [m.key], Errors(refusals), upserts + [m], manys)
    ensures Sorted3(models + [m.key], Errors(refusals), upserts, manys + [m])
  {
    assert Errors(refusals + [Refusal(m, why)]) == Errors(refusals) + [SinkError(m.key, 0, ClassPermanent)];
    assert ErrorKeys(Errors(refusals + [Refusal(m, why)])) == ErrorKeys(Errors(refusals)) + [m.key];
    assert Keys(upserts + [m]) == Keys(upserts) + [m.key];
    assert Keys(manys + [m]) == Keys(manys) + [m.key];
    forall k
      ensures Count(models + [m.key], k) == Count(models, k) + (if m.key == k then 1 else 0)
      ensures Count(ErrorKeys(Errors(refusals)) + [m.key], k) ==
              Count(ErrorKeys(Errors(refusals)), k) + (if m.key == k then 1 else 0)
      ensures Count(Keys(upserts) + [m.key], k) == Count(Keys(upserts), k) + (if m.key == k then 1 else 0)
      ensures Count(Keys(manys) + [m.key], k) == Count(Keys(manys), k) + (if m.key == k then 1 else 0)
    {
      CountAppend(models, m.key, k);
      CountAppend(ErrorKeys(Errors(refusals)), m.key, k);
      CountAppend(Keys(upserts), m.key, k);
      CountAppend(Keys(manys), m.key, k);
    }
  }

  /** What validation promises of a prefix of the models. */
  ghost predicate Partition(models: seq<Model>, conflict: seq<Column>, refusals: seq<Refusal>, upserts: seq<Model>,
                            manys: seq<Model>, cols: Option<seq<Column>>) {
    && Sorted3(Keys(models), Errors(refusals), upserts, manys)
    && Batchable(upserts, cols, conflict)
    && (forall i :: 0 <= i < |manys| ==> Runnable(manys[i]))
    && AllJustified(refusals, upserts, cols, conflict)
  }

  lemma Refuse(models: seq<Model>, conflict: seq<Column>, refusals: seq<Refusal>, upserts: seq<Model>,
               manys: seq<Model>, cols: Option<seq<Column>>, m: Model, why: Why)
    requires Partition(models, conflict, refusals, upserts, manys, cols)
    requires Verdict(m, cols, Seen(upserts, conflict), conflict) == Some(why)
    ensures Partition(models + [m], conflict, refusals + [Refusal(m, why)], upserts, manys, cols)
  {
    assert Keys(models + [m]) == Keys(models) + [m.key];
    Sorted3Append(Keys(models), refusals, upserts, manys, m, why);
  }

  lemma KeepRaw(models: seq<Model>, conflict: seq<Column>, refusals: seq<Refusal>, upserts: seq<Model>,
                manys: seq<Model>, cols: Option<seq<Column>>, m: Model)
    requires Partition(models, conflict, refusals, upserts, manys, cols)
    requires m.many && Verdict(m, cols, Seen(upserts, conflict), conflict) == None
    ensures Partition(models + [m], conflict, refusals, upserts, manys + [m], cols)
  {
    assert Keys(models + [m]) == Keys(models) + [m.key];
    Sorted3Append(Keys(models), refusals, upserts, manys, m, NotSql);
  }

  lemma KeepRow(models: seq<Model>, conflict: seq<Column>, refusals: seq<Refusal>, upserts: seq<Model>,
                manys: seq<Model>, cols: Option<seq<Column>>, m: Model)
    requires Partition(models, conflict, refusals, upserts, manys, cols)
    requires cols.None? ==> upserts == []
    requires !m.many && Verdict(m, cols, Seen(upserts, conflict), conflict) == None
    ensures m.update.Row? && Partition(models + [m], conflict, refusals, upserts + [m], manys, Some(m.update.cols))
  {
    assert Keys(models + [m]) == Keys(models) + [m.key];
    Sorted3Append(Keys(models), refusals, upserts, manys, m, NotSql);
    BatchableAppend(upserts, Some(m.update.cols), conflict, m);
    forall i | 0 <= i < |refusals|
      ensures Justified(refusals[i], upserts + [m], Some(m.update.cols), conflict)
    {
      assert Justified(refusals[i], upserts, cols, conflict);
    }
  }

  /**
    The validation loop of BulkWrite. Every model goes to exactly one of three places, and none is
    refused without a reason.
    */
  method Validate(models: seq<Model>, conflict: seq<Column>)
    returns (refusals: seq<Refusal>, upserts: seq<Model>, manys: seq<Model>, cols: Option<seq<Column>>)
    ensures Partition(models, conflict, refusals, upserts, manys, cols)
  {
    refusals, upserts, manys, cols := [], [], [], None;
    var seen: set<string> := {};
    for n := 0 to |models|
      invariant Partition(models[..n], conflict, refusals, upserts, manys, cols)
      invariant seen == Seen(upserts, conflict) && (cols.None? ==> upserts == [])
    {
      var m := models[n];
      var why := Verdict(m, cols, seen, conflict);
      assert models[..n + 1] == models[..n] + [m];
      if why.Some? {
        Refuse(models[..n], conflict, refusals, upserts, manys, cols, m, why.value);
        refusals := refusals + [Refusal(m, why.value)];
      } else if m.many {
        KeepRaw(models[..n], conflict, refusals, upserts, manys, cols, m);
        manys := manys + [m];
      } else {
        KeepRow(models[..n], conflict, refusals, upserts, manys, cols, m);
        seen := seen + {ConflictKey(m.update.row, conflict)};
        SeenAppend(upserts, conflict, m);
        cols := Some(m.update.cols);
        upserts := upserts + [m];
      }
    }
    assert models[..|models|] == models;
  }

  // ── The statement ──────────────────────────────────────────────────────────

  /** One row of the VALUES list: its placeholders continue where the arguments stand. */
  method BuildRow(row: map<Column, Cell>, cols: seq<Column>, before: seq<Option<Cell>>)
    returns (placeholders: seq<nat>, args: seq<Option<Cell>>)
    ensures |placeholders| == |cols| && |args| == |before| + |cols| && before <= args
    ensures forall j :: 0 <= j < |cols| ==>
              placeholders[j] == |before| + j + 1 && args[|before| + j] == Lookup(row, cols[j])
  {
    placeholders, args := [], before;
    for j := 0 to |cols|
      invariant |placeholders| == j && |args| == |before| + j && before <= args
      invariant forall b :: 0 <= b < j ==>
                  placeholders[b] == |before| + b + 1 && args[|before| + b] == Lookup(row, cols[b])
    {
      placeholders := placeholders + [|args| + 1];
      args := args + [Lookup(row, cols[j])];
    }
  }

  /** In row i, column j stands placeholder $(i*m+j+1), bound to row i's value of column j. */
  predicate Bound(models: seq<Model>, cols: seq<Column>, rows: seq<seq<nat>>, args: seq<Option<Cell>>, i: nat, j: nat) {
    && i < |models| && i < |rows| && j < |cols| && j < |rows[i]| && models[i].update.Row?
    && rows[i][j] == i * |cols| + j + 1
    && 1 <= rows[i][j] <= |args|
    && args[rows[i][j] - 1] == Lookup(models[i].update.row, cols[j])
  }

  /** The VALUES list of executeBulk. */
  method BuildValues(models: seq<Model>, cols: seq<Column>) returns (rows: seq<seq<nat>>, args: seq<Option<Cell>>)
    requires forall i :: 0 <= i < |models| ==> models[i].update.Row?
    ensures |rows| == |models| && |args| == |models| * |cols|
    ensures forall i, j :: 0 <= i < |models| && 0 <= j < |cols| ==> Bound(models, cols, rows, args, i, j)
  {
    rows, args := [], [];
    for i := 0 to |models|
      invariant |rows| == i && |args| == i * |cols|
      invariant forall a, j :: 0 <= a < i && 0 <= j < |cols| ==> Bound(models, cols, rows, args, a, j)
    {
      ghost var oldRows, oldArgs := rows, args;
      var row;
      row, args := BuildRow(models[i].update.row, cols, args);
      rows := rows + [row];
      assert (i + 1) * |cols| == i * |cols| + |cols|;
      forall a, j | 0 <= a <= i && 0 <= j < |cols|
        ensures Bound(models, cols, rows, args, a, j)
      {
        if a < i {
          assert Bound(models, cols, oldRows, oldArgs, a, j);
        }
      }
    }
  }

  // ── BulkWrite ──────────────────────────────────────────────────────────────

  /**
    One statement sent to the database, and how it ended. A statement has its whole effect or none; one that
    ended in an error other than the database's own may have had it all the same.
    */
  datatype Statement = Statement(models: seq<Model>, ended: Exec)

  /** The database's answer to a statement, given everything sent before it. */
  type Database = (seq<Statement>, seq<Model>) -> Exec

  /** The statements were sent in this order, and the database answered each. */
  ghost predicate IsTrace(trace: seq<Statement>, db: Database) {
    forall i {:trigger trace[i]} :: 0 <= i < |trace| ==> trace[i].ended == db(trace[..i], trace[i].models)
  }

  /** The keys of the models whose statement is known to be executed. */
  function Executed(trace: seq<Statement>): seq<Key> {
    if trace == [] then []
    else
      var last := trace[|trace| - 1];
      Executed(trace[..|trace| - 1]) + (if last.ended == Done then Keys(last.models) else [])
  }

  lemma ExecutedAppend(trace: seq<Statement>, st: Statement)
    ensures Executed(trace + [st]) == Executed(trace) + (if st.ended == Done then Keys(st.models) else [])
  {
    assert (trace + [st])[..|trace|] == trace;
  }

  lemma {:induction false} ExecutedConcat(a: seq<Statement>, b: seq<Statement>)
    ensures Executed(a + b) == Executed(a) + Executed(b)
  {
    if b == [] {
      assert a + b == a;
    } else {
      var n := |b| - 1;
      ExecutedConcat(a, b[..n]);
      ExecutedAppend(a + b[..n], b[n]);
      assert a + b == a + b[..n] + [b[n]];
    }
  }

  /** A statement is one raw update, or rows that fit one multi-row insert. */
  predicate WellFormed(st: Statement, cols: Option<seq<Column>>, conflict: seq<Column>) {
    (|st.models| == 1 && Runnable(st.models[0])) || (st.models != [] && Batchable(st.models, cols, conflict))
  }

  predicate AllWellFormed(trace: seq<Statement>, cols: Option<seq<Column>>, conflict: seq<Column>) {
    forall i :: 0 <= i < |trace| ==> WellFormed(trace[i], cols, conflict)
  }

  /** What was sent to the database, well-formed and answered. */
  ghost predicate Sent(trace: seq<Statement>, db: Database, cols: Option<seq<Column>>, conflict: seq<Column>) {
    IsTrace(trace, db) && AllWellFormed(trace, cols, conflict)
  }

  lemma SentAssoc(a: seq<Statement>, b: seq<Statement>, c: seq<Statement>, db: Database, cols: Option<seq<Column>>, conflict: seq<Column>)
    requires Sent(a + b + c, db, cols, conflict)
    ensures Sent(a + (b + c), db, cols, conflict)
  {
    assert a + (b + c) == a + b + c;
  }

  lemma TraceAppend(trace: seq<Statement>, db: Database, cols: Option<seq<Column>>, conflict: seq<Column>, st: Statement)
    requires Sent(trace, db, cols, conflict)
    requires st.ended == db(trace, st.models) && WellFormed(st, cols, conflict)
    ensures Sent(trace + [st], db, cols, conflict)
  {
    var longer := trace + [st];
    forall i | 0 <= i < |longer|
      ensures longer[i].ended == db(longer[..i], longer[i].models)
    {
      assert longer[..i] == trace[..i];
    }
  }

  lemma OneRowIsWellFormed(rows: seq<Model>, cols: Option<seq<Column>>, conflict: seq<Column>, i: nat, ended: Exec)
    requires Batchable(rows, cols, conflict) && i < |rows|
    ensures WellFormed(Statement([rows[i]], ended), cols, conflict)
  {
    assert IsRow(rows[i], cols);
  }

  /** What a failed statement adds to the errors. */
  function Failure(m: Model, ended: Exec): seq<SinkError> {
    if ended == Done then [] else [SinkError(m.key, 0, ClassOf(ended))]
  }

  lemma OneExecuted(models: seq<Model>, trace: seq<Statement>, errors: seq<SinkError>, m: Model)
    requires Accounts(Keys(models), Executed(trace), errors)
    ensures Accounts(Keys(models + [m]), Executed(trace + [Statement([m], Done)]), errors)
  {
    ExecutedAppend(trace, Statement([m], Done));
    assert Keys([m]) == [m.key];
    assert Keys(models + [m]) == Keys(models) + [m.key];
    AccountsDone(Keys(models), Executed(trace), errors, m.key);
  }

  lemma OneFailed(models: seq<Model>, trace: seq<Statement>, errors: seq<SinkError>, m: Model, o: Exec)
    requires Accounts(Keys(models), Executed(trace), errors) && o != Done
    ensures Accounts(Keys(models + [m]), Executed(trace + [Statement([m], o)]), errors + [SinkError(m.key, 0, ClassOf(o))])
  {
    ExecutedAppend(trace, Statement([m], o));
    assert Executed(trace + [Statement([m], o)]) == Executed(trace);
    assert Keys(models + [m]) == Keys(models) + [m.key];
    AccountsError(Keys(models), Executed(trace), errors, SinkError(m.key, 0, ClassOf(o)));
  }

  /** One statement for one model: executed or reported, with the class its failure deserves. */
  lemma OneByOne(models: seq<Model>, trace: seq<Statement>, errors: seq<SinkError>, m: Model, o: Exec)
    requires Accounts(Keys(models), Executed(trace), errors)
    ensures Accounts(Keys(models + [m]), Executed(trace + [Statement([m], o)]), errors + Failure(m, o))
  {
    if o == Done {
      OneExecuted(models, trace, errors, m);
      assert errors + Failure(m, o) == errors;
    } else {
      OneFailed(models, trace, errors, m, o);
    }
  }

  /**
    e names a model of a statement that failed, with the class that failure deserves. Only a model's own
    statement condemns it for good: one bad row of an insert condemns no other.
    */
  ghost predicate FailedIn(trace: seq<Statement>, e: SinkError) {
    exists i, j :: 0 <= i < |trace| && 0 <= j < |trace[i].models| && Blames(trace[i], j, e)
  }

  predicate Blames(st: Statement, j: nat, e: SinkError)
    requires j < |st.models|
  {
    && st.ended != Done && e == SinkError(st.models[j].key, 0, ClassOf(st.ended))
    && (e.class_ == ClassPermanent ==> |st.models| == 1)
  }

  ghost predicate AllFailedIn(trace: seq<Statement>, errors: seq<SinkError>) {
    forall n :: 0 <= n < |errors| ==> FailedIn(trace, errors[n])
  }

  lemma StillFailedIn(trace: seq<Statement>, before: seq<Statement>, after: seq<Statement>, errors: seq<SinkError>)
    requires AllFailedIn(trace, errors)
    ensures AllFailedIn(before + trace + after, errors)
  {
    var whole := before + trace + after;
    forall n | 0 <= n < |errors|
      ensures FailedIn(whole, errors[n])
    {
      assert FailedIn(trace, errors[n]);
      var i, j :| 0 <= i < |trace| && 0 <= j < |trace[i].models| && Blames(trace[i], j, errors[n]);
      assert whole[|before| + i] == trace[i];
    }
  }

  lemma FailureIsBlamed(trace: seq<Statement>, errors: seq<SinkError>, m: Model, o: Exec)
    requires AllFailedIn(trace, errors)
    ensures AllFailedIn(trace + [Statement([m], o)], errors + Failure(m, o))
  {
    var st := Statement([m], o);
    var longer := trace + [st];
    StillFailedIn(trace, [], [st], errors);
    assert [] + trace + [st] == longer;
    if o != Done {
      assert longer[|trace|] == st && Blames(longer[|trace|], 0, SinkError(m.key, 0, ClassOf(o)));
      assert FailedIn(longer, SinkError(m.key, 0, ClassOf(o)));
    }
  }

  /** One statement per model, in order; the loop shared by the raw updates and the row-by-row retry. */
  method RunEach(models: seq<Model>, before: seq<Statement>, db: Database, cols: Option<seq<Column>>, conflict: seq<Column>)
    returns (ran: seq<Statement>, errors: seq<SinkError>)
    requires Sent(before, db, cols, conflict)
    requires (forall m :: m in models ==> Runnable(m)) || Batchable(models, cols, conflict)
    ensures Sent(before + ran, db, cols, conflict)
    ensures |ran| == |models| && forall i :: 0 <= i < |models| ==> ran[i].models == [models[i]]
    ensures Accounts(Keys(models), Executed(ran), errors) && AllFailedIn(ran, errors)
  {
    ran, errors := [], [];
    assert before + ran == before;
    for i := 0 to |models|
      invariant Sent(before + ran, db, cols, conflict)
      invariant |ran| == i && forall j :: 0 <= j < i ==> ran[j].models == [models[j]]
      invariant Accounts(Keys(models[..i]), Executed(ran), errors) && AllFailedIn(ran, errors)
    {
      var m := models[i];
      var st := Statement([m], db(before + ran, [m]));
      if Batchable(models, cols, conflict) {
        OneRowIsWellFormed(models, cols, conflict, i, st.ended);
      }
      assert WellFormed(st, cols, conflict);
      TraceAppend(before + ran, db, cols, conflict, st);
      OneByOne(models[..i], ran, errors, m, st.ended);
      FailureIsBlamed(ran, errors, m, st.ended);
      assert models[..i + 1] == models[..i] + [m];
      SentAssoc(before, ran, [st], db, cols, conflict);
      ran, errors := ran + [st], errors + Failure(m, st.ended);
    }
    assert models[..|models|] == models;
  }

  /** A transient failure of the whole statement: every row is reported as transient. */
  method ReportAll(rows: seq<Model>) returns (errors: seq<SinkError>)
    ensures ErrorKeys(errors) == Keys(rows)
    ensures forall i :: 0 <= i < |errors| ==> errors[i] == SinkError(rows[i].key, 0, ClassTransient)
  {
    errors := [];
    for i := 0 to |rows|
      invariant |errors| == i
      invariant forall j :: 0 <= j < i ==> errors[j] == SinkError(rows[j].key, 0, ClassTransient)
    {
      errors := errors + [SinkError(rows[i].key, 0, ClassTransient)];
    }
  }

  /** The models are accounted for once the refused ones, the raw updates and the rows are. */
  lemma AllAccountedFor(models: seq<Key>, refused: seq<SinkError>, upserts: seq<Model>, manys: seq<Model>,
                        done: seq<Key>, errors: seq<SinkError>)
    requires Sorted3(models, refused, upserts, manys)
    requires Accounts(Keys(manys) + Keys(upserts), done, errors)
    ensures Accounts(models, done, refused + errors)
  {
    ErrorKeysConcat(refused, errors);
    forall k
      ensures Count(models, k) == Count(done, k) + Count(ErrorKeys(refused + errors), k)
    {
      CountConcat(Keys(manys), Keys(upserts), k);
      CountConcat(ErrorKeys(refused), ErrorKeys(errors), k);
    }
  }

  lemma AccountsSwap(models: seq<Key>, done: seq<Key>, a: seq<SinkError>, b: seq<SinkError>, c: seq<SinkError>, d: seq<SinkError>)
    requires Accounts(models, done, a + (b + (c + d)))
    ensures Accounts(models, done, a + c + b + d)
  {
    var ka, kb, kc, kd := ErrorKeys(a), ErrorKeys(b), ErrorKeys(c), ErrorKeys(d);
    assert ErrorKeys(a + (b + (c + d))) == ka + (kb + (kc + kd));
    assert ErrorKeys(a + c + b + d) == ka + kc + kb + kd;
    forall k
      ensures Count(ka + (kb + (kc + kd)), k) == Count(ka + kc + kb + kd, k)
    {
      CountConcat(ka, kb + (kc + kd), k);
      CountConcat(kb, kc + kd, k);
      CountConcat(kc, kd, k);
      CountConcat(ka + kc + kb, kd, k);
      CountConcat(ka + kc, kb, k);
      CountConcat(ka, kc, k);
    }
  }

  /** The outcome of some models: each executed in ran or reported, and reported only for a failed statement. */
  ghost predicate Settled(models: seq<Model>, ran: seq<Statement>, errors: seq<SinkError>) {
    Accounts(Keys(models), Executed(ran), errors) && AllFailedIn(ran, errors)
  }

  lemma BulkDone(rows: seq<Model>)
    ensures Settled(rows, [Statement(rows, Done)], [])
  {
    ExecutedAppend([], Statement(rows, Done));
    assert [] + [Statement(rows, Done)] == [Statement(rows, Done)];
    assert [] + Keys(rows) == Keys(rows);
  }

  lemma BulkFailed(rows: seq<Model>, o: Exec, errors: seq<SinkError>)
    requires o != Done && ClassOf(o) == ClassTransient && ErrorKeys(errors) == Keys(rows)
    requires forall i :: 0 <= i < |errors| ==> errors[i] == SinkError(rows[i].key, 0, ClassOf(o))
    ensures Settled(rows, [Statement(rows, o)], errors)
  {
    var ran := [Statement(rows, o)];
    ExecutedAppend([], Statement(rows, o));
    assert [] + ran == ran;
    forall n | 0 <= n < |errors|
      ensures FailedIn(ran, errors[n])
    {
      assert Blames(ran[0], n, errors[n]);
    }
  }

  lemma ReportedAll(rows: seq<Model>, o: Exec, errors: seq<SinkError>)
    requires ErrorKeys(errors) == Keys(rows) && o.PgError? && !IsPermanentSqlState(o.code)
    requires forall i :: 0 <= i < |errors| ==> errors[i] == SinkError(rows[i].key, 0, ClassTransient)
    ensures Settled(rows, [Statement(rows, o)], [] + errors)
  {
    assert [] + errors == errors;
    BulkFailed(rows, o, errors);
  }

  /** A failed insert has no effect: what follows it settles the rows. */
  lemma AfterFailedBulk(rows: seq<Model>, o: Exec, ran: seq<Statement>, errors: seq<SinkError>)
    requires o != Done && Settled(rows, ran, errors)
    ensures Settled(rows, [Statement(rows, o)] + ran, errors)
  {
    ExecutedAppend([], Statement(rows, o));
    assert [] + [Statement(rows, o)] == [Statement(rows, o)];
    ExecutedConcat([Statement(rows, o)], ran);
    assert [] + Executed(ran) == Executed(ran);
    StillFailedIn(ran, [Statement(rows, o)], [], errors);
    assert [Statement(rows, o)] + ran + [] == [Statement(rows, o)] + ran;
  }

  /** Raw updates and rows together; the errors of the rows stand around those of the raw updates. */
  lemma Together(models: seq<Model>, refused: seq<Refusal>, rows: seq<Model>, manys: seq<Model>, first: seq<Statement>,
                 a: seq<SinkError>, second: seq<Statement>, b: seq<SinkError>, c: seq<SinkError>)
    requires Sorted3(Keys(models), Errors(refused), rows, manys)
    requires Settled(manys, first, a) && Settled(rows, second, b + c)
    ensures Accounts(Keys(models), Executed(first + second), Errors(refused) + b + a + c)
  {
    ExecutedConcat(first, second);
    AccountsConcat(Keys(manys), Executed(first), a, Keys(rows), Executed(second), b + c);
    AllAccountedFor(Keys(models), Errors(refused), rows, manys, Executed(first + second), a + (b + c));
    AccountsSwap(Keys(models), Executed(first + second), Errors(refused), a, b, c);
  }

  lemma NothingToSettle(errors: seq<SinkError>)
    requires errors == []
    ensures Settled([], [], errors)
  {
  }

  /** Every error was given by validation or by a failed statement. */
  ghost predicate AllBlamed(refused: seq<Refusal>, trace: seq<Statement>, errors: seq<SinkError>) {
    forall e :: e in errors ==> e in Errors(refused) || FailedIn(trace, e)
  }

  lemma BlamedTogether(refused: seq<Refusal>, first: seq<Statement>, a: seq<SinkError>, second: seq<Statement>,
                       b: seq<SinkError>, c: seq<SinkError>)
    requires AllFailedIn(first, a) && AllFailedIn(second, b + c)
    ensures AllBlamed(refused, first + second, Errors(refused) + b + a + c)
  {
    StillFailedIn(first, [], second, a);
    StillFailedIn(second, first, [], b + c);
    assert [] + first + second == first + second && first + second + [] == first + second;
    forall e | e in Errors(refused) + b + a + c
      ensures e in Errors(refused) || FailedIn(first + second, e)
    {
      if e in a {
        var n :| 0 <= n < |a| && a[n] == e;
      } else if e !in Errors(refused) {
        assert e in b + c;
        var n :| 0 <= n < |b + c| && (b + c)[n] == e;
      }
    }
  }

  /**
    The rows: one multi-row insert, retried row by row when it failed for good. The errors come in two
    parts, those placed before the raw updates' errors and those placed after them.
    */
  method WriteRows(upserts: seq<Model>, before: seq<Statement>, db: Database, cols: Option<seq<Column>>, conflict: seq<Column>)
    returns (ran: seq<Statement>, retried: seq<SinkError>, failed: seq<SinkError>, known: bool)
    requires upserts != [] && Batchable(upserts, cols, conflict)
    requires Sent(before, db, cols, conflict)
    ensures Sent(before + ran, db, cols, conflict)
    ensures known ==> Settled(upserts, ran, retried + failed)
    ensures !known ==> ran == [Statement(upserts, OtherError)]
    ensures ran != [] && ran[0].models == upserts
    ensures if ran[0].ended.PgError? && ClassOf(ran[0].ended) == ClassPermanent
            then |ran| == 1 + |upserts| && forall i :: 0 <= i < |upserts| ==> ran[1 + i].models == [upserts[i]]
            else |ran| == 1
  {
    var ended := db(before, upserts);
    TraceAppend(before, db, cols, conflict, Statement(upserts, ended));
    ran, retried, failed, known := [Statement(upserts, ended)], [], [], true;
    if ended == Done {
      BulkDone(upserts);
    } else if ended.PgError? && IsPermanentSqlState(ended.code) {
      var rows;
      rows, retried := RunEach(upserts, before + ran, db, cols, conflict);
      AfterFailedBulk(upserts, ended, rows, retried);
      SentAssoc(before, ran, rows, db, cols, conflict);
      assert retried + failed == retried;
      ran := ran + rows;
    } else if ended.PgError? {
      failed := ReportAll(upserts);
      ReportedAll(upserts, ended, failed);
    } else {
      known := false;
    }
  }

  /**
    BulkWrite. trace is what was sent, in order; refused and rows are what validation made of the models.
    Without a top-level error every model was executed or is reported, exactly once, under its own key, and
    whatever is reported was refused for a reason or failed in a statement that was sent, a permanent failure
    in a statement of its own. A top-level error
    is returned only when the multi-row insert ended in an error that PostgreSQL did not report itself.
    */
  method BulkWrite(models: seq<Model>, conflict: seq<Column>, db: Database)
    returns (reply: Reply, trace: seq<Statement>, refused: seq<Refusal>, rows: seq<Model>, cols: Option<seq<Column>>)
    ensures Sent(trace, db, cols, conflict)
    ensures AllJustified(refused, rows, cols, conflict)
    ensures reply.Reported? ==> Accounts(Keys(models), Executed(trace), reply.errors)
    ensures reply.Reported? ==> AllBlamed(refused, trace, reply.errors)
    ensures reply.TopLevelError? ==> rows != [] && trace != [] && trace[|trace| - 1] == Statement(rows, OtherError)
  {
    var manys, first, manyErrors;
    refused, rows, manys, cols := Validate(models, conflict);
    first, manyErrors := RunEach(manys, [], db, cols, conflict);
    assert [] + first == first;
    var second, retried, failed, known := [], [], [], true;
    if rows == [] {
      NothingToSettle(retried + failed);
      trace := first;
      assert first + second == trace;
    } else {
      second, retried, failed, known := WriteRows(rows, first, db, cols, conflict);
      trace := first + second;
    }
    if known {
      Together(models, refused, rows, manys, first, manyErrors, second, retried, failed);
      reply := Reported(Errors(refused) + retried + manyErrors + failed);
      BlamedTogether(refused, first, manyErrors, second, retried, failed);
    } else {
      reply := TopLevelError;
    }
  }
}
