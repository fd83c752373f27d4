/** Snapshot patches (`snapshot-patch.ts`): what a browser gets instead of a whole snapshot, and that
    applying it gives the snapshot. */
module SnapshotPatch {
  import opened Decimals
  import opened Wrappers

  datatype Value = Str(s: string) | Num(n: int) | Null | Undefined

  /** A row object: `ref` is its identity, `fields` its own properties, also those set to `undefined`. */
  datatype Row = Row(ref: nat, fields: map<string, Value>)

  datatype Table = Conversations | Sessions | Tasks | Turns | Events | Records | Recoveries | Questions | Inputs

  const TABLES: seq<Table> := [Conversations, Sessions, Tasks, Turns, Events, Records, Recoveries, Questions, Inputs]

  /** `values` are the other top-level fields, apart from the event cursor. */
  datatype Snapshot = Snapshot(cursor: int, values: map<string, Value>, tables: map<Table, seq<Row>>)

  datatype Change = Change(upsert: seq<Row>, order: Option<seq<string>>)

  datatype Patch = Patch(baseCursor: int, cursor: int, values: map<string, Value>, changes: map<Table, Change>)

  datatype PatchError = OutOfSequence | RowMissing

  // ----- Rows -----

  function Field(fields: map<string, Value>, name: string): Value {
    if name in fields then fields[name] else Undefined
  }

  function Show(value: Value): string {
    match value
    case Str(s) => s
    case Num(n) => if n < 0 then "-" + Decimal(-n) else Decimal(n)
    case Null => "null"
    case Undefined => "undefined"
  }

  function KeyOf(fields: map<string, Value>): string {
    var kind, id := Field(fields, "kind"), Field(fields, "id");
    if kind != Undefined && id != Undefined then Show(kind) + ":" + Show(id) else Show(id)
  }

  function Key(row: Row): string {
    KeyOf(row.fields)
  }

  /** As many fields, and every field of `a` has the same value in `b`; a missing field reads as undefined. */
  predicate EqualFields(a: map<string, Value>, b: map<string, Value>) {
    |a.Keys| == |b.Keys| && forall name :: name in a ==> a[name] == Field(b, name)
  }

  predicate Equal(a: Row, b: Row) {
    EqualFields(a.fields, b.fields)
  }

  /** The comparison passes although an undefined field of `a` is none of the fields of `b`. */
  predicate Hidden(a: Row, b: Row) {
    Equal(a, b) && exists name :: name in a.fields && a.fields[name] == Undefined && name !in b.fields
  }

  /** Rows with the same key have the same content; in particular when keys are unique. */
  predicate KeysDetermineRows(rows: seq<Row>) {
    forall i, j :: 0 <= i < |rows| && 0 <= j < |rows| && Key(rows[i]) == Key(rows[j])
        ==> rows[i].fields == rows[j].fields
  }

  predicate SameRows(a: seq<Row>, b: seq<Row>) {
    |a| == |b| && forall i :: 0 <= i < |a| ==> a[i].fields == b[i].fields
  }

  // ----- One table -----

  /** A dictionary of rows by key; the last row with a key stays. */
  function ByKey(rows: seq<Row>, base: map<string, Row>): map<string, Row> {
    if rows == [] then base
    else
      var last := rows[|rows| - 1];
      ByKey(rows[..|rows| - 1], base)[Key(last) := last]
  }

  function KeysOf(rows: seq<Row>): seq<string> {
    seq(|rows|, i requires 0 <= i < |rows| => Key(rows[i]))
  }

  predicate IsNew(prior: map<string, Row>, row: Row) {
    Key(row) !in prior || !Equal(prior[Key(row)], row)
  }

  /** The rows that the receiver does not have like this. */
  function Upserts(prior: map<string, Row>, rows: seq<Row>): seq<Row> {
    if rows == [] then []
    else
      var last := rows[|rows| - 1];
      Upserts(prior, rows[..|rows| - 1]) + if IsNew(prior, last) then [last] else []
  }

  predicate Reordered(earlier: seq<Row>, rows: seq<Row>) {
    |earlier| != |rows| || exists i :: 0 <= i < |rows| && Key(rows[i]) != Key(earlier[i])
  }

  function DiffTable(earlier: seq<Row>, rows: seq<Row>): Option<Change> {
    var upsert := Upserts(ByKey(earlier, map[]), rows);
    if upsert == [] && !Reordered(earlier, rows) then None
    else Some(Change(upsert, if Reordered(earlier, rows) then Some(KeysOf(rows)) else None))
  }

  function Lookup(rows: map<string, Row>, order: seq<string>): Result<seq<Row>, PatchError> {
    if exists i :: 0 <= i < |order| && order[i] !in rows then Err(RowMissing)
    else Ok(seq(|order|, i requires 0 <= i < |order| => rows[order[i]]))
  }

  function ApplyTable(prior: seq<Row>, change: Change): Result<seq<Row>, PatchError> {
    Lookup(ByKey(change.upsert, ByKey(prior, map[])),
           if change.order.Some? then change.order.value else KeysOf(prior))
  }

  // ----- Whole snapshots -----

  function RowsOf(s: Snapshot, table: Table): seq<Row> {
    if table in s.tables then s.tables[table] else []
  }

  function Diff(previous: Snapshot, next: Snapshot): Patch {
    Patch(previous.cursor, next.cursor, next.values,
          map table | table in TABLES && DiffTable(RowsOf(previous, table), RowsOf(next, table)).Some?
            :: DiffTable(RowsOf(previous, table), RowsOf(next, table)).value)
  }

  function Apply(previous: Snapshot, patch: Patch): Result<Snapshot, PatchError> {
    if previous.cursor != patch.baseCursor then Err(OutOfSequence)
    else if exists table ::
      table in patch.changes && ApplyTable(RowsOf(previous, table), patch.changes[table]).Err? then Err(RowMissing)
    else Ok(Snapshot(patch.cursor, previous.values + patch.values,
                     previous.tables +
                     map table | table in patch.changes ::
                       ApplyTable(RowsOf(previous, table), patch.changes[table]).value))
  }

  // ----- Dictionaries of rows -----

  lemma {:induction false} ByKeyOfOthers(rows: seq<Row>, base: map<string, Row>, k: string)
    requires forall i :: 0 <= i < |rows| ==> Key(rows[i]) != k
    ensures k in ByKey(rows, base) <==> k in base
    ensures k in base ==> ByKey(rows, base)[k] == base[k]
  {
    hide Key;
    if rows != [] {
      ByKeyOfOthers(rows[..|rows| - 1], base, k);
    }
  }

  /** Under the key of a row is some row with that key. */
  lemma {:induction false} ByKeyOfRow(rows: seq<Row>, base: map<string, Row>, i: nat) returns (j: nat)
    requires i < |rows|
    ensures j < |rows| && Key(rows[j]) == Key(rows[i])
    ensures Key(rows[i]) in ByKey(rows, base) && ByKey(rows, base)[Key(rows[i])] == rows[j]
  {
    hide Key;
    var front, last := rows[..|rows| - 1], rows[|rows| - 1];
    if Key(last) == Key(rows[i]) {
      j := |rows| - 1;
    } else {
      j := ByKeyOfRow(front, base, i);
    }
  }

  lemma {:induction false} UpsertsAre(prior: map<string, Row>, rows: seq<Row>, row: Row)
    ensures row in Upserts(prior, rows) <==> row in rows && IsNew(prior, row)
  {
    if rows != [] {
      UpsertsAre(prior, rows[..|rows| - 1], row);
      assert rows == rows[..|rows| - 1] + [rows[|rows| - 1]];
    }
  }

  /** Exactly the hidden differences pass for equality. */
  lemma EqualIsSameUnlessHidden(a: Row, b: Row)
    ensures Equal(a, b) && !Hidden(a, b) <==> a.fields == b.fields
  {
    if Equal(a, b) && !Hidden(a, b) {
      assert a.fields.Keys <= b.fields.Keys;
      SubsetOfSameSize(a.fields.Keys, b.fields.Keys);
      assert a.fields == b.fields;
    }
  }

  lemma SubsetOfSameSize<T>(a: set<T>, b: set<T>)
    requires a <= b && |a| == |b|
    ensures a == b
  {
    assert |b - a| == |b| - |a|;
  }

  lemma SameRowsSameKeys(a: seq<Row>, b: seq<Row>)
    requires SameRows(a, b)
    ensures KeysOf(a) == KeysOf(b)
    ensures KeysDetermineRows(a) <==> KeysDetermineRows(b)
  {
    hide KeyOf;
    assert forall i :: 0 <= i < |a| ==> Key(a[i]) == Key(b[i]);
  }

  lemma HasKey(rows: seq<Row>, k: string) returns (i: nat)
    requires k in ByKey(rows, map[])
    ensures i < |rows| && Key(rows[i]) == k && rows[i] == ByKey(rows, map[])[k]
  {
    hide Key;
    if forall j :: 0 <= j < |rows| ==> Key(rows[j]) != k {
      ByKeyOfOthers(rows, map[], k);
      assert false;
    } else {
      var j :| 0 <= j < |rows| && Key(rows[j]) == k;
      i := ByKeyOfRow(rows, map[], j);
    }
  }

  /** The receiver's dictionary for a patch. */
  function Received(client: seq<Row>, earlier: seq<Row>, rows: seq<Row>): map<string, Row> {
    ByKey(Upserts(ByKey(earlier, map[]), rows), ByKey(client, map[]))
  }

  lemma SentRowIsReceived(client: seq<Row>, earlier: seq<Row>, rows: seq<Row>, i: nat) returns (j: nat)
    requires i < |rows| && IsNew(ByKey(earlier, map[]), rows[i])
    ensures j < |rows| && Key(rows[j]) == Key(rows[i])
    ensures Key(rows[i]) in Received(client, earlier, rows) && Received(client, earlier, rows)[Key(rows[i])] == rows[j]
  {
    hide Key, ByKey, IsNew, Upserts;
    var prior := ByKey(earlier, map[]);
    var upsert := Upserts(prior, rows);
    UpsertsAre(prior, rows, rows[i]);
    var m :| 0 <= m < |upsert| && upsert[m] == rows[i];
    var n := ByKeyOfRow(upsert, ByKey(client, map[]), m);
    UpsertsAre(prior, rows, upsert[n]);
    j :| 0 <= j < |rows| && rows[j] == upsert[n];
  }

  /** If no row with its key is sent, the receiver looks up a row of its own. */
  lemma UnsentRowIsTheReceivers(client: seq<Row>, earlier: seq<Row>, rows: seq<Row>, k: string) returns (j: nat)
    requires SameRows(client, earlier) && k in ByKey(earlier, map[])
    requires forall i :: 0 <= i < |rows| && Key(rows[i]) == k ==> !IsNew(ByKey(earlier, map[]), rows[i])
    ensures j < |client| && Key(client[j]) == k
    ensures k in Received(client, earlier, rows) && Received(client, earlier, rows)[k] == client[j]
  {
    hide KeyOf, ByKey, IsNew, Upserts, Received;
    var prior := ByKey(earlier, map[]);
    var upsert := Upserts(prior, rows);
    forall n | 0 <= n < |upsert| ensures Key(upsert[n]) != k {
      UpsertsAre(prior, rows, upsert[n]);
      assert upsert[n] in rows;
    }
    ByKeyOfOthers(upsert, ByKey(client, map[]), k);
    var m := HasKey(earlier, k);
    assert Key(client[m]) == k;
    j := ByKeyOfRow(client, map[], m);
    ReceivedIs(client, earlier, rows);
  }

  lemma ReceivedIs(client: seq<Row>, earlier: seq<Row>, rows: seq<Row>)
    ensures Received(client, earlier, rows) == ByKey(Upserts(ByKey(earlier, map[]), rows), ByKey(client, map[]))
  {
    hide ByKey, Upserts;
  }

  /** No row that a patch names is missing at a receiver with the same rows. */
  lemma NamedRowIsThere(client: seq<Row>, earlier: seq<Row>, rows: seq<Row>, i: nat)
    requires SameRows(client, earlier) && i < |rows|
    ensures Key(rows[i]) in Received(client, earlier, rows)
    ensures Key(Received(client, earlier, rows)[Key(rows[i])]) == Key(rows[i])
  {
    hide Key, ByKey, Equal, Received;
    var k := Key(rows[i]);
    if n :| 0 <= n < |rows| && Key(rows[n]) == k && IsNew(ByKey(earlier, map[]), rows[n]) {
      var j := SentRowIsReceived(client, earlier, rows, n);
    } else {
      var j := UnsentRowIsTheReceivers(client, earlier, rows, k);
    }
  }

  /** What a receiver of the patch has in a table. */
  function Patched(client: seq<Row>, change: Option<Change>): Result<seq<Row>, PatchError> {
    if change.None? then Ok(client) else ApplyTable(client, change.value)
  }

  /** Sent along or left out, the order of a patch is that of the new rows. */
  lemma OrderIsOfTheNewRows(client: seq<Row>, earlier: seq<Row>, rows: seq<Row>)
    requires SameRows(client, earlier)
    ensures (if Reordered(earlier, rows) then KeysOf(rows) else KeysOf(client)) == KeysOf(rows)
  {
    hide Key;
    SameRowsSameKeys(client, earlier);
    if !Reordered(earlier, rows) {
      assert forall i :: 0 <= i < |rows| ==> KeysOf(earlier)[i] == KeysOf(rows)[i];
    }
  }

  lemma PatchLooksUpItsRows(client: seq<Row>, earlier: seq<Row>, rows: seq<Row>)
    requires SameRows(client, earlier) && DiffTable(earlier, rows).Some?
    ensures var received, patched := Received(client, earlier, rows), Patched(client, DiffTable(earlier, rows));
            && patched.Ok? && |patched.value| == |rows|
            && forall i :: 0 <= i < |rows| ==> Key(rows[i]) in received && patched.value[i] == received[Key(rows[i])]
  {
    hide Key, ByKey, Upserts, Reordered, SameRows;
    var received := Received(client, earlier, rows);
    OrderIsOfTheNewRows(client, earlier, rows);
    assert Patched(client, DiffTable(earlier, rows)) == Lookup(received, KeysOf(rows));
    var keys := KeysOf(rows);
    forall i | 0 <= i < |rows| ensures keys[i] == Key(rows[i]) && keys[i] in received {
      NamedRowIsThere(client, earlier, rows, i);
    }
    LookedUp(received, keys);
  }

  lemma LookedUp(rows: map<string, Row>, order: seq<string>)
    requires forall i :: 0 <= i < |order| ==> order[i] in rows
    ensures var found := Lookup(rows, order);
            && found.Ok? && |found.value| == |order|
            && forall i :: 0 <= i < |order| ==> found.value[i] == rows[order[i]]
  {
  }

  /** Patches of the program's own never name a missing row. */
  lemma OwnPatchesApply(client: seq<Row>, earlier: seq<Row>, rows: seq<Row>)
    requires SameRows(client, earlier)
    ensures Patched(client, DiffTable(earlier, rows)).Ok?
  {
    if DiffTable(earlier, rows).Some? {
      PatchLooksUpItsRows(client, earlier, rows);
    }
  }

  /** All rows with the key of an unsent row are unsent, if keys determine rows. */
  lemma UnsentTogether(earlier: seq<Row>, rows: seq<Row>, i: nat)
    requires KeysDetermineRows(rows) && i < |rows| && !IsNew(ByKey(earlier, map[]), rows[i])
    ensures forall n :: 0 <= n < |rows| && Key(rows[n]) == Key(rows[i]) ==> !IsNew(ByKey(earlier, map[]), rows[n])
  {
    hide KeyOf, ByKey, EqualFields;
  }

  /** What the receiver has in place of a new row: the new row if it is sent, else the earlier one. */
  lemma PatchedRow(client: seq<Row>, earlier: seq<Row>, rows: seq<Row>, i: nat)
    requires SameRows(client, earlier) && KeysDetermineRows(earlier) && KeysDetermineRows(rows) && i < |rows|
    ensures var patched := Patched(client, DiffTable(earlier, rows));
            && patched.Ok? && |patched.value| == |rows|
            && (IsNew(ByKey(earlier, map[]), rows[i]) ==> patched.value[i].fields == rows[i].fields)
            && (!IsNew(ByKey(earlier, map[]), rows[i]) ==>
                  && patched.value[i] in client
                  && Key(rows[i]) in ByKey(earlier, map[])
                  && patched.value[i].fields == ByKey(earlier, map[])[Key(rows[i])].fields)
  {
    hide KeyOf, ByKey, EqualFields, IsNew, Upserts, Received;
    SameRowsSameKeys(client, earlier);
    if DiffTable(earlier, rows).None? {
      UnchangedTableRow(earlier, rows, i);
      assert client[i] in client;
    } else {
      PatchLooksUpItsRows(client, earlier, rows);
      if IsNew(ByKey(earlier, map[]), rows[i]) {
        var j := SentRowIsReceived(client, earlier, rows, i);
      } else {
        UnsentTogether(earlier, rows, i);
        KnownKey(earlier, rows[i]);
        var j := UnsentRowIsTheReceivers(client, earlier, rows, Key(rows[i]));
        var m := HasKey(earlier, Key(rows[i]));
        assert Key(earlier[j]) == Key(earlier[m]);
      }
    }
  }

  lemma KnownKey(earlier: seq<Row>, row: Row)
    requires !IsNew(ByKey(earlier, map[]), row)
    ensures Key(row) in ByKey(earlier, map[])
    ensures Equal(ByKey(earlier, map[])[Key(row)], row)
  {
    hide Key, ByKey, Equal;
  }

  lemma UnchangedTableRow(earlier: seq<Row>, rows: seq<Row>, i: nat)
    requires DiffTable(earlier, rows).None? && KeysDetermineRows(earlier) && i < |rows|
    ensures |earlier| == |rows| && !IsNew(ByKey(earlier, map[]), rows[i])
    ensures Key(rows[i]) in ByKey(earlier, map[])
    ensures earlier[i].fields == ByKey(earlier, map[])[Key(rows[i])].fields
  {
    hide KeyOf, ByKey, IsNew, Upserts;
    UpsertsAre(ByKey(earlier, map[]), rows, rows[i]);
    KnownKey(earlier, rows[i]);
    var m := HasKey(earlier, Key(rows[i]));
    assert Key(earlier[i]) == Key(rows[i]);
  }

  /** No new row differs from an earlier one with its key only by what an undefined field hides. */
  predicate NothingHidden(earlier: seq<Row>, rows: seq<Row>) {
    forall m, i :: 0 <= m < |earlier| && 0 <= i < |rows| && Key(earlier[m]) == Key(rows[i]) ==>
      !Hidden(earlier[m], rows[i])
  }

  /** One row arrives exactly if no earlier row with its key hides the difference. */
  lemma RowArrivesUnlessHidden(client: seq<Row>, earlier: seq<Row>, rows: seq<Row>, i: nat)
    requires SameRows(client, earlier) && KeysDetermineRows(earlier) && KeysDetermineRows(rows) && i < |rows|
    ensures var patched := Patched(client, DiffTable(earlier, rows));
            && patched.Ok? && |patched.value| == |rows|
            && (patched.value[i].fields == rows[i].fields <==>
                forall m :: 0 <= m < |earlier| && Key(earlier[m]) == Key(rows[i]) ==> !Hidden(earlier[m], rows[i]))
  {
    hide KeyOf, ByKey, DiffTable, Patched, SameRows;
    PatchedRow(client, earlier, rows, i);
    var k := Key(rows[i]);
    if k in ByKey(earlier, map[]) {
      var m := HasKey(earlier, k);
      EqualIsSameUnlessHidden(earlier[m], rows[i]);
      forall n | 0 <= n < |earlier| && Key(earlier[n]) == k
        ensures earlier[n].fields == earlier[m].fields
        ensures Hidden(earlier[n], rows[i]) == Hidden(earlier[m], rows[i])
      {
      }
    } else {
      forall n | 0 <= n < |earlier| ensures Key(earlier[n]) != k {
        var j := ByKeyOfRow(earlier, map[], n);
      }
    }
  }

  lemma PatchedRowsAreDetermined(client: seq<Row>, earlier: seq<Row>, rows: seq<Row>)
    requires SameRows(client, earlier) && KeysDetermineRows(earlier)
    ensures Patched(client, DiffTable(earlier, rows)).Ok?
    ensures KeysDetermineRows(Patched(client, DiffTable(earlier, rows)).value)
  {
    OwnPatchesApply(client, earlier, rows);
    if DiffTable(earlier, rows).None? {
      SameRowsSameKeys(client, earlier);
    } else {
      PatchLooksUpItsRows(client, earlier, rows);
      var received := Received(client, earlier, rows);
      forall i | 0 <= i < |rows| ensures Key(rows[i]) in received && Key(received[Key(rows[i])]) == Key(rows[i]) {
        NamedRowIsThere(client, earlier, rows, i);
      }
    }
  }

  /** A patch gives the receiver the new rows exactly if their keys determine them and no difference is
      hidden by an undefined field. */
  lemma PatchIsExact(client: seq<Row>, earlier: seq<Row>, rows: seq<Row>)
    requires SameRows(client, earlier) && KeysDetermineRows(earlier)
    ensures Patched(client, DiffTable(earlier, rows)).Ok?
    ensures SameRows(Patched(client, DiffTable(earlier, rows)).value, rows) <==>
            KeysDetermineRows(rows) && NothingHidden(earlier, rows)
  {
    hide KeyOf, DiffTable, Patched, Hidden;
    PatchedRowsAreDetermined(client, earlier, rows);
    var patched := Patched(client, DiffTable(earlier, rows)).value;
    if SameRows(patched, rows) {
      SameRowsSameKeys(patched, rows);
    }
    if KeysDetermineRows(rows) {
      LengthOfPatched(client, earlier, rows);
      forall i | 0 <= i < |rows|
        ensures patched[i].fields == rows[i].fields <==>
                forall m :: 0 <= m < |earlier| && Key(earlier[m]) == Key(rows[i]) ==> !Hidden(earlier[m], rows[i])
      {
        RowArrivesUnlessHidden(client, earlier, rows, i);
      }
    }
  }

  lemma LengthOfPatched(client: seq<Row>, earlier: seq<Row>, rows: seq<Row>)
    requires SameRows(client, earlier)
    ensures Patched(client, DiffTable(earlier, rows)).Ok?
    ensures |Patched(client, DiffTable(earlier, rows)).value| == |rows|
  {
    hide Key, ByKey, Upserts;
    if DiffTable(earlier, rows).Some? {
      PatchLooksUpItsRows(client, earlier, rows);
    }
  }

  /** Without undefined fields nothing is hidden. */
  lemma NothingUndefinedNothingHidden(earlier: seq<Row>, rows: seq<Row>)
    requires forall i, name :: 0 <= i < |earlier| && name in earlier[i].fields ==> earlier[i].fields[name] != Undefined
    ensures NothingHidden(earlier, rows)
  {
    hide Key, Equal;
  }

  /** A row that has not changed is not sent again: the receiver keeps its own row object for it. */
  lemma UnchangedRowsAreKept(client: seq<Row>, earlier: seq<Row>, rows: seq<Row>, m: nat, i: nat)
    requires SameRows(client, earlier) && KeysDetermineRows(earlier) && KeysDetermineRows(rows)
    requires m < |earlier| && i < |rows| && earlier[m].fields == rows[i].fields
    ensures rows[i] !in Upserts(ByKey(earlier, map[]), rows)
    ensures Patched(client, DiffTable(earlier, rows)).Ok?
    ensures |Patched(client, DiffTable(earlier, rows)).value| == |rows|
    ensures Patched(client, DiffTable(earlier, rows)).value[i] in client
  {
    hide KeyOf, ByKey, DiffTable, Patched, Upserts;
    var prior := ByKey(earlier, map[]);
    assert !IsNew(prior, rows[i]) by {
      var j := ByKeyOfRow(earlier, map[], m);
      assert Key(earlier[m]) == Key(rows[i]);
      EqualIsSameUnlessHidden(earlier[j], rows[i]);
    }
    UpsertsAre(prior, rows, rows[i]);
    PatchedRow(client, earlier, rows, i);
  }

  /** With an undefined field in the earlier row, a changed row can be taken for the same: the receiver
      keeps the old one. */
  lemma UndefinedHidesAChange()
    ensures var before := [Row(0, map["id" := Num(1), "note" := Undefined])];
            var after := [Row(1, map["id" := Num(1), "title" := Str("new")])];
            && KeysDetermineRows(before) && KeysDetermineRows(after)
            && Hidden(before[0], after[0]) && DiffTable(before, after) == None
            && !SameRows(before, after)
  {
    var a := Row(0, map["id" := Num(1), "note" := Undefined]);
    var b := Row(1, map["id" := Num(1), "title" := Str("new")]);
    assert a.fields.Keys == {"id", "note"} && b.fields.Keys == {"id", "title"};
    assert "note" !in b.fields;
    assert Equal(a, b);
    assert ByKey([a], map[]) == map[Key(a) := a];
    assert Upserts(ByKey([a], map[]), [b]) == [];
  }

  // ----- Whole snapshots -----

  predicate DeterminedSnapshot(s: Snapshot) {
    forall table :: table in TABLES ==> KeysDetermineRows(RowsOf(s, table))
  }

  /** What a sender can see before it sends: the keys of the next rows determine them, and no difference to
      the previous rows is hidden. */
  predicate Transmits(previous: Snapshot, next: Snapshot) {
    && DeterminedSnapshot(next)
    && forall table :: table in TABLES ==> NothingHidden(RowsOf(previous, table), RowsOf(next, table))
  }

  /** The same content in all tables; a missing table counts as an empty one. */
  predicate SameTables(a: Snapshot, b: Snapshot) {
    forall table :: table in TABLES ==> SameRows(RowsOf(a, table), RowsOf(b, table))
  }

  lemma TableOfApplied(client: Snapshot, patch: Patch, table: Table)
    requires Apply(client, patch).Ok?
    ensures Patched(RowsOf(client, table), if table in patch.changes then Some(patch.changes[table]) else None) ==
              Ok(RowsOf(Apply(client, patch).value, table))
  {
    hide ApplyTable;
  }

  lemma OwnPatchIsAccepted(client: Snapshot, previous: Snapshot, next: Snapshot)
    requires client.cursor == previous.cursor && SameTables(client, previous)
    ensures Apply(client, Diff(previous, next)).Ok?
  {
    hide ApplyTable, DiffTable, SameRows;
    forall table | table in Diff(previous, next).changes
      ensures ApplyTable(RowsOf(client, table), Diff(previous, next).changes[table]).Ok?
    {
      OwnPatchesApply(RowsOf(client, table), RowsOf(previous, table), RowsOf(next, table));
    }
  }

  lemma PatchOfOneTable(client: Snapshot, previous: Snapshot, next: Snapshot, table: Table)
    requires client.cursor == previous.cursor && SameTables(client, previous) && DeterminedSnapshot(previous)
    requires table in TABLES && Apply(client, Diff(previous, next)).Ok?
    ensures SameRows(RowsOf(Apply(client, Diff(previous, next)).value, table), RowsOf(next, table)) <==>
            KeysDetermineRows(RowsOf(next, table)) && NothingHidden(RowsOf(previous, table), RowsOf(next, table))
  {
    hide ApplyTable, DiffTable, SameRows, KeysDetermineRows, NothingHidden, RowsOf, Apply;
    TableOfApplied(client, Diff(previous, next), table);
    PatchIsExact(RowsOf(client, table), RowsOf(previous, table), RowsOf(next, table));
  }

  /** Applying a patch to what it was made against: the tables are the next ones exactly if the keys of the
      next rows determine them and nothing is hidden; the top-level fields exactly if none was dropped. */
  lemma PatchGivesTheNextSnapshot(client: Snapshot, previous: Snapshot, next: Snapshot)
    requires client.cursor == previous.cursor && SameTables(client, previous) && DeterminedSnapshot(previous)
    ensures Apply(client, Diff(previous, next)).Ok?
    ensures var applied := Apply(client, Diff(previous, next)).value;
            && (SameTables(applied, next) <==> Transmits(previous, next))
            && applied.cursor == next.cursor
            && applied.values == client.values + next.values
            && (applied.values == next.values <==> client.values.Keys <= next.values.Keys)
  {
    hide ApplyTable, DiffTable, SameRows, KeysDetermineRows, NothingHidden, RowsOf;
    OwnPatchIsAccepted(client, previous, next);
    var applied := Apply(client, Diff(previous, next)).value;
    forall table | table in TABLES
      ensures SameRows(RowsOf(applied, table), RowsOf(next, table)) <==>
              KeysDetermineRows(RowsOf(next, table)) && NothingHidden(RowsOf(previous, table), RowsOf(next, table))
    {
      PatchOfOneTable(client, previous, next, table);
    }
    LaterOverEarlier(client.values, next.values);
  }

  lemma LaterOverEarlier(a: map<string, Value>, b: map<string, Value>)
    ensures a + b == b <==> a.Keys <= b.Keys
  {
    if a.Keys <= b.Keys {
      assert a + b == b;
    } else {
      var name :| name in a && name !in b;
      assert name in a + b;
    }
  }

  /** A patch is refused exactly by a receiver that is not where the patch starts. */
  lemma PatchOutOfSequence(client: Snapshot, previous: Snapshot, next: Snapshot)
    requires SameTables(client, previous)
    ensures Apply(client, Diff(previous, next)) == Err(OutOfSequence) <==> client.cursor != previous.cursor
  {
    if client.cursor == previous.cursor {
      OwnPatchIsAccepted(client, previous, next);
    }
  }

  // ----- A stream of patches -----

  /** What a receiver has after the first snapshot and `n` patches. */
  function Folded(stream: seq<Snapshot>, n: nat): Result<Snapshot, PatchError>
    requires n < |stream|
  {
    if n == 0 then Ok(stream[0])
    else match Folded(stream, n - 1)
      case Err(error) => Err(error)
      case Ok(client) => Apply(client, Diff(stream[n - 1], stream[n]))
  }

  /** After `n` patches the receiver has the tables and the cursor of the last snapshot. */
  predicate Arrived(stream: seq<Snapshot>, n: nat)
    requires n < |stream|
  {
    var client := Folded(stream, n);
    client.Ok? && client.value.cursor == stream[n].cursor && SameTables(client.value, stream[n])
  }

  lemma SnapshotArrives(stream: seq<Snapshot>, n: nat)
    requires 0 < n < |stream| && Arrived(stream, n - 1) && DeterminedSnapshot(stream[n - 1])
    ensures Folded(stream, n).Ok?
    ensures Arrived(stream, n) <==> Transmits(stream[n - 1], stream[n])
    ensures Folded(stream, n).value.values == Folded(stream, n - 1).value.values + stream[n].values
  {
    hide Apply, Diff, DeterminedSnapshot, SameTables, Transmits;
    PatchGivesTheNextSnapshot(Folded(stream, n - 1).value, stream[n - 1], stream[n]);
  }

  /** However long the stream: every snapshot arrives, table by table, exactly if each can be transmitted
      after the one before. */
  lemma {:induction false} StreamArrivesExactly(stream: seq<Snapshot>, n: nat)
    requires n < |stream| && DeterminedSnapshot(stream[0])
    ensures (forall k :: 0 <= k <= n ==> Arrived(stream, k)) <==>
            (forall k :: 0 < k <= n ==> Transmits(stream[k - 1], stream[k]))
    ensures (forall k :: 0 <= k <= n ==> Arrived(stream, k)) ==>
              forall k :: 0 <= k <= n ==> DeterminedSnapshot(stream[k])
  {
    hide Folded, DeterminedSnapshot;
    if n == 0 {
      FirstArrives(stream);
    } else {
      StreamArrivesExactly(stream, n - 1);
      if forall k :: 0 <= k <= n - 1 ==> Arrived(stream, k) {
        SnapshotArrives(stream, n);
      }
    }
  }

  lemma FirstArrives(stream: seq<Snapshot>)
    requires stream != []
    ensures Arrived(stream, 0)
  {
  }

  /** Top-level fields are never dropped: the receiver has those of the last snapshot exactly if it had
      them all along. */
  lemma {:induction false} StreamKeepsDroppedFields(stream: seq<Snapshot>, n: nat)
    requires n < |stream| && DeterminedSnapshot(stream[0])
    requires forall k :: 0 < k <= n ==> Transmits(stream[k - 1], stream[k])
    ensures Arrived(stream, n)
    ensures forall name :: name in Folded(stream, n).value.values <==>
                           exists k :: 0 <= k <= n && name in stream[k].values
    ensures Folded(stream, n).value.values == stream[n].values <==>
            forall k :: 0 <= k <= n ==> stream[k].values.Keys <= stream[n].values.Keys
  {
    hide Arrived, Transmits, DeterminedSnapshot;
    StreamArrivesExactly(stream, n);
    assert Arrived(stream, n);
    var received := FieldsReceived(stream, n);
    SameFieldsIff(stream, n, received);
  }

  lemma {:induction false} FieldsReceived(stream: seq<Snapshot>, n: nat) returns (received: map<string, Value>)
    requires n < |stream| && DeterminedSnapshot(stream[0])
    requires forall k :: 0 < k <= n ==> Transmits(stream[k - 1], stream[k])
    ensures Folded(stream, n).Ok? && Folded(stream, n).value.values == received
    ensures forall name :: name in received <==> exists k :: 0 <= k <= n && name in stream[k].values
    ensures forall name :: name in stream[n].values ==> received[name] == stream[n].values[name]
  {
    hide Transmits, DeterminedSnapshot, Apply, Diff;
    if n == 0 {
      received := stream[0].values;
    } else {
      var before := FieldsReceived(stream, n - 1);
      StreamArrivesExactly(stream, n - 1);
      SnapshotArrives(stream, n);
      received := before + stream[n].values;
    }
  }

  lemma SameFieldsIff(stream: seq<Snapshot>, n: nat, received: map<string, Value>)
    requires n < |stream|
    requires forall name :: name in received <==> exists k :: 0 <= k <= n && name in stream[k].values
    requires forall name :: name in stream[n].values ==> received[name] == stream[n].values[name]
    ensures received == stream[n].values <==> forall k :: 0 <= k <= n ==> stream[k].values.Keys <= stream[n].values.Keys
  {
    if received == stream[n].values {
      forall k | 0 <= k <= n ensures stream[k].values.Keys <= stream[n].values.Keys {
        assert forall name :: name in stream[k].values ==> name in received;
      }
    }
    if forall k :: 0 <= k <= n ==> stream[k].values.Keys <= stream[n].values.Keys {
      assert received == stream[n].values;
    }
  }

  // ----- The program's loops -----

  method ApplyTableLoop(prior: seq<Row>, change: Change) returns (r: Result<seq<Row>, PatchError>)
    ensures r == ApplyTable(prior, change)
  {
    var rows := ByKey(prior, map[]);
    for i := 0 to |change.upsert|
      invariant rows == ByKey(change.upsert[..i], ByKey(prior, map[]))
    {
      assert change.upsert[..i + 1][..i] == change.upsert[..i];
      rows := rows[Key(change.upsert[i]) := change.upsert[i]];
    }
    assert change.upsert[..|change.upsert|] == change.upsert;
    r := LookupLoop(rows, if change.order.Some? then change.order.value else KeysOf(prior));
  }

  method LookupLoop(rows: map<string, Row>, order: seq<string>) returns (r: Result<seq<Row>, PatchError>)
    ensures r == Lookup(rows, order)
  {
    var result: seq<Row> := [];
    for i := 0 to |order|
      invariant |result| == i
      invariant forall j :: 0 <= j < i ==> order[j] in rows && result[j] == rows[order[j]]
    {
      if order[i] !in rows {
        return Err(RowMissing);
      }
      result := result + [rows[order[i]]];
    }
    assert result == seq(|order|, i requires 0 <= i < |order| => rows[order[i]]);
    return Ok(result);
  }

  method SnapshotPatch(previous: Snapshot, next: Snapshot) returns (patch: Patch)
    ensures patch == Diff(previous, next)
  {
    hide DiffTable;
    var changes: map<Table, Change> := map[];
    for t := 0 to |TABLES|
      invariant forall table :: table in changes <==>
                  table in TABLES[..t] && DiffTable(RowsOf(previous, table), RowsOf(next, table)).Some?
      invariant forall table :: table in changes ==>
                  DiffTable(RowsOf(previous, table), RowsOf(next, table)) == Some(changes[table])
    {
      var table := TABLES[t];
      var change := DiffTable(RowsOf(previous, table), RowsOf(next, table));
      if change.Some? {
        changes := changes[table := change.value];
      }
    }
    return Patch(previous.cursor, next.cursor, next.values, changes);
  }

  method ApplySnapshotPatch(previous: Snapshot, patch: Patch) returns (r: Result<Snapshot, PatchError>)
    ensures r == Apply(previous, patch)
  {
    hide ApplyTable;
    if previous.cursor != patch.baseCursor {
      return Err(OutOfSequence);
    }
    var tables := previous.tables;
    for t := 0 to |TABLES|
      invariant forall table :: table in TABLES[..t] && table in patch.changes ==>
                  table in tables && ApplyTable(RowsOf(previous, table), patch.changes[table]) == Ok(tables[table])
      invariant forall table :: table !in TABLES[..t] || table !in patch.changes ==>
                  (table in tables <==> table in previous.tables)
                  && (table in tables ==> tables[table] == previous.tables[table])
    {
      var table := TABLES[t];
      if table in patch.changes {
        var rows := ApplyTableLoop(RowsOf(previous, table), patch.changes[table]);
        if rows.Err? {
          return Err(RowMissing);
        }
        tables := tables[table := rows.value];
      }
    }
    AllTables();
    assert TABLES[..|TABLES|] == TABLES;
    AppliedTables(previous, patch, tables);
    return Ok(Snapshot(patch.cursor, previous.values + patch.values, tables));
  }

  lemma AppliedTables(previous: Snapshot, patch: Patch, tables: map<Table, seq<Row>>)
    requires previous.cursor == patch.baseCursor
    requires forall table :: table in patch.changes ==>
               table in tables && ApplyTable(RowsOf(previous, table), patch.changes[table]) == Ok(tables[table])
    requires forall table :: table !in patch.changes ==>
               (table in tables <==> table in previous.tables)
               && (table in tables ==> tables[table] == previous.tables[table])
    ensures Apply(previous, patch) == Ok(Snapshot(patch.cursor, previous.values + patch.values, tables))
  {
    hide ApplyTable, RowsOf;
    assert tables == previous.tables +
      map table | table in patch.changes :: ApplyTable(RowsOf(previous, table), patch.changes[table]).value;
  }

  lemma AllTables()
    ensures forall table: Table :: table in TABLES
    ensures forall i, j :: 0 <= i < j < |TABLES| ==> TABLES[i] != TABLES[j]
  {
    forall table: Table ensures table in TABLES {
      match table
      case Conversations => assert TABLES[0] == table;
      case Sessions => assert TABLES[1] == table;
      case Tasks => assert TABLES[2] == table;
      case Turns => assert TABLES[3] == table;
      case Events => assert TABLES[4] == table;
      case Records => assert TABLES[5] == table;
      case Recoveries => assert TABLES[6] == table;
      case Questions => assert TABLES[7] == table;
      case Inputs => assert TABLES[8] == table;
    }
  }
}
