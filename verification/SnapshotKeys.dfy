/** What the keys, the patches and the errors of `SnapshotPatch` are (`snapshot-patch.ts`), told without its
    functions. */
module SnapshotKeys {
  import opened Decimals
  import opened SnapshotPatch
  import opened Wrappers

  // ----- Keys -----

  lemma NumeralsDiffer(m: nat, n: nat)
    ensures Decimal(m) == Decimal(n) <==> m == n
  {
    NumeralReadsBack(m, "");
    NumeralReadsBack(n, "");
    assert Decimal(m) + "" == Decimal(m) && Decimal(n) + "" == Decimal(n);
  }

  /** Two strings, and two values neither of which is a string, are shown alike exactly if they are the same. */
  lemma ValuesShowApart(a: Value, b: Value)
    requires a.Str? <==> b.Str?
    ensures Show(a) == Show(b) <==> a == b
  {
    if a.Num? {
      ShownNumber(a.n);
    }
    if b.Num? {
      ShownNumber(b.n);
    }
    if a.Num? && b.Num? {
      var m, n := if a.n < 0 then -a.n else a.n, if b.n < 0 then -b.n else b.n;
      NumeralsDiffer(m, n);
      if a.n < 0 && b.n < 0 {
        assert Show(a)[1..] == Decimal(m) && Show(b)[1..] == Decimal(n);
      }
    }
  }

  lemma ShownNumber(n: int)
    ensures Show(Num(n)) != ""
    ensures n < 0 <==> Show(Num(n))[0] == '-'
    ensures n >= 0 <==> IsDigit(Show(Num(n))[0])
    ensures ':' !in Show(Num(n))
  {
    var digits := Decimal(if n < 0 then -n else n);
    DecimalHasDigits(if n < 0 then -n else n);
    assert digits[0] in digits;
  }

  /** A kind as the program's rows have it. */
  predicate PlainKind(kind: Value) {
    kind.Str? ==> ':' !in kind.s
  }

  lemma PlainKindHasNoColon(kind: Value)
    requires PlainKind(kind)
    ensures ':' !in Show(kind)
  {
    if kind.Num? {
      ShownNumber(kind.n);
    }
  }

  lemma FirstColon(x: string, u: string, y: string, v: string)
    requires ':' !in x && ':' !in y
    ensures x + ":" + u == y + ":" + v <==> x == y && u == v
  {
    var a, b := x + ":" + u, y + ":" + v;
    assert a[|x|] == ':' && b[|y|] == ':';
    assert |x| < |y| ==> b[|x|] == y[|x|] && y[|x|] in y;
    assert |y| < |x| ==> a[|y|] == x[|y|] && x[|y|] in x;
    if a == b {
      assert x == a[..|x|] && y == b[..|y|];
      assert u == a[|x| + 1..] && v == b[|y| + 1..];
    }
  }

  /** Two rows have the same key exactly if they are of the same kind, or have none, and have the same identity. */
  lemma RowsAreKnownByKindAndId(a: Row, b: Row)
    requires Field(a.fields, "id") != Undefined && Field(b.fields, "id") != Undefined
    requires Field(a.fields, "id").Str? <==> Field(b.fields, "id").Str?
    requires Field(a.fields, "kind").Str? <==> Field(b.fields, "kind").Str?
    requires Field(a.fields, "kind") == Undefined <==> Field(b.fields, "kind") == Undefined
    requires PlainKind(Field(a.fields, "kind")) && PlainKind(Field(b.fields, "kind"))
    ensures Key(a) == Key(b) <==>
              Field(a.fields, "kind") == Field(b.fields, "kind") && Field(a.fields, "id") == Field(b.fields, "id")
  {
    var kind, id := Field(a.fields, "kind"), Field(a.fields, "id");
    var kind', id' := Field(b.fields, "kind"), Field(b.fields, "id");
    ValuesShowApart(kind, kind');
    ValuesShowApart(id, id');
    PlainKindHasNoColon(kind);
    PlainKindHasNoColon(kind');
    FirstColon(Show(kind), Show(id), Show(kind'), Show(id'));
    hide Show;
  }

  // ----- What a patch sends -----

  /** The last row with a key. */
  ghost predicate IsLast(rows: seq<Row>, k: string, row: Row) {
    exists j :: 0 <= j < |rows| && rows[j] == row && Key(row) == k
                && forall m :: j < m < |rows| ==> Key(rows[m]) != k
  }

  predicate HasKeyed(rows: seq<Row>, k: string) {
    exists j :: 0 <= j < |rows| && Key(rows[j]) == k
  }

  lemma {:induction false} ByKeyIsLast(rows: seq<Row>, base: map<string, Row>, k: string)
    ensures HasKeyed(rows, k) ==> k in ByKey(rows, base) && IsLast(rows, k, ByKey(rows, base)[k])
    ensures !HasKeyed(rows, k) ==>
              (k in ByKey(rows, base) <==> k in base) && (k in base ==> ByKey(rows, base)[k] == base[k])
  {
    hide Key;
    if rows != [] {
      var front, last := rows[..|rows| - 1], rows[|rows| - 1];
      ByKeyIsLast(front, base, k);
      if Key(last) != k {
        assert HasKeyed(rows, k) ==> HasKeyed(front, k);
        assert HasKeyed(front, k) ==> HasKeyed(rows, k);
        if HasKeyed(front, k) {
          var row := ByKey(front, base)[k];
          var j :| 0 <= j < |front| && front[j] == row && Key(row) == k
                   && forall m :: j < m < |front| ==> Key(front[m]) != k;
          assert rows[j] == row && forall m :: j < m < |rows| ==> Key(rows[m]) != k;
        }
      }
    }
  }

  /** A row has to be sent unless the last earlier row with its key passes the comparison. */
  ghost predicate MustBeSent(earlier: seq<Row>, row: Row) {
    !exists known :: IsLast(earlier, Key(row), known) && Equal(known, row)
  }

  lemma NewMustBeSent(earlier: seq<Row>, row: Row)
    ensures IsNew(ByKey(earlier, map[]), row) <==> MustBeSent(earlier, row)
  {
    hide Key, Equal;
    var k := Key(row);
    ByKeyIsLast(earlier, map[], k);
    forall a, b | IsLast(earlier, k, a) && IsLast(earlier, k, b) ensures a == b {
    }
  }

  /** A table is left out of a patch exactly if no row has to be sent and the keys are the same in the same order;
      otherwise exactly the rows that must be are sent, and the keys exactly if they are not as they were. */
  lemma PatchIsMinimal(earlier: seq<Row>, rows: seq<Row>)
    ensures var change := DiffTable(earlier, rows);
            && (change.None? <==>
                  KeysOf(earlier) == KeysOf(rows) && forall row :: row in rows ==> !MustBeSent(earlier, row))
            && (change.Some? ==>
                  && (forall row :: row in change.value.upsert <==> row in rows && MustBeSent(earlier, row))
                  && change.value.order == if KeysOf(earlier) == KeysOf(rows) then None else Some(KeysOf(rows)))
  {
    hide Key, ByKey, IsNew, MustBeSent;
    var prior := ByKey(earlier, map[]);
    var upsert := Upserts(prior, rows);
    forall row ensures row in upsert <==> row in rows && MustBeSent(earlier, row) {
      UpsertsAre(prior, rows, row);
      NewMustBeSent(earlier, row);
    }
    assert upsert != [] ==> upsert[0] in upsert;
    KeysInOrder(earlier, rows);
  }

  lemma KeysInOrder(earlier: seq<Row>, rows: seq<Row>)
    ensures Reordered(earlier, rows) <==> KeysOf(earlier) != KeysOf(rows)
  {
    hide Key;
    if KeysOf(earlier) == KeysOf(rows) {
      assert |KeysOf(earlier)| == |earlier| && |KeysOf(rows)| == |rows|;
      assert forall i :: 0 <= i < |rows| ==> KeysOf(rows)[i] == Key(rows[i]) && KeysOf(earlier)[i] == Key(earlier[i]);
    }
  }

  /** Rows are sent in their order. */
  lemma {:induction false} SentInOrder(prior: map<string, Row>, rows: seq<Row>, more: seq<Row>)
    ensures Upserts(prior, rows + more) == Upserts(prior, rows) + Upserts(prior, more)
    decreases |more|
  {
    hide IsNew;
    if more == [] {
      assert rows + more == rows;
    } else {
      var front, last := more[..|more| - 1], more[|more| - 1];
      SentInOrder(prior, rows, front);
      assert (rows + more)[..|rows + more| - 1] == rows + front;
    }
  }

  // ----- What a receiver makes of any patch -----

  /** The row that the receiver has under a key: the last that was sent, or else its own last. */
  ghost predicate Chosen(prior: seq<Row>, upsert: seq<Row>, k: string, row: Row) {
    if HasKeyed(upsert, k) then IsLast(upsert, k, row) else IsLast(prior, k, row)
  }

  /** Any patch of a table, whoever made it: an error exactly if a key that is asked for is neither among the rows that
      came nor among those that were there, and else the row under each key, in the order asked for. */
  lemma AppliedTableIsExact(prior: seq<Row>, change: Change)
    ensures var order := if change.order.Some? then change.order.value else KeysOf(prior);
            var r := ApplyTable(prior, change);
            && (r == Err(RowMissing) <==>
                  exists i :: 0 <= i < |order| && !HasKeyed(change.upsert, order[i]) && !HasKeyed(prior, order[i]))
            && (r.Ok? <==> r != Err(RowMissing))
            && (r.Ok? ==>
                  && |r.value| == |order|
                  && forall i :: 0 <= i < |order| ==> Chosen(prior, change.upsert, order[i], r.value[i]))
  {
    hide Key, ByKey, IsLast, HasKeyed, KeysOf;
    var order := if change.order.Some? then change.order.value else KeysOf(prior);
    var rows := ByKey(change.upsert, ByKey(prior, map[]));
    forall k: string
      ensures k in rows <==> HasKeyed(change.upsert, k) || HasKeyed(prior, k)
      ensures k in rows ==> Chosen(prior, change.upsert, k, rows[k])
    {
      ByKeyIsLast(prior, map[], k);
      ByKeyIsLast(change.upsert, ByKey(prior, map[]), k);
    }
  }

  /** Any patch of a snapshot: refused exactly at another cursor, or if a table's patch is; and else its fields over
      those that were there, its tables in place of theirs, and the other tables as they were. */
  lemma AppliedPatchIsExact(previous: Snapshot, patch: Patch)
    ensures var r := Apply(previous, patch);
            && (r == Err(OutOfSequence) <==> previous.cursor != patch.baseCursor)
            && (r == Err(RowMissing) <==>
                  && previous.cursor == patch.baseCursor
                  && exists table :: table in patch.changes
                       && ApplyTable(RowsOf(previous, table), patch.changes[table]) == Err(RowMissing))
            && (r.Ok? ==>
                  && r.value.cursor == patch.cursor
                  && (forall name :: name in r.value.values <==> name in patch.values || name in previous.values)
                  && (forall name :: name in r.value.values ==>
                        r.value.values[name] ==
                          if name in patch.values then patch.values[name] else previous.values[name])
                  && forall table ::
                       if table in patch.changes
                       then ApplyTable(RowsOf(previous, table), patch.changes[table]) == Ok(RowsOf(r.value, table))
                       else (table in r.value.tables <==> table in previous.tables)
                            && RowsOf(r.value, table) == RowsOf(previous, table))
  {
    forall table | table in patch.changes && ApplyTable(RowsOf(previous, table), patch.changes[table]).Err?
      ensures ApplyTable(RowsOf(previous, table), patch.changes[table]) == Err(RowMissing)
    {
      AppliedTableIsExact(RowsOf(previous, table), patch.changes[table]);
    }
    hide ApplyTable;
  }
}
