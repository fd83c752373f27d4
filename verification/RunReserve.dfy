/** How much a run record can grow (`rhino-script-execution.ts`, `resultChange` and `update`): the limits on
    its fields, counted in UTF-16 units, keep its file within the bytes reserved for it. */
module RunReserve {
  import opened Wrappers

  const RUN_RESERVE_BYTES: nat := 128_000

  /** The largest safe integer. */
  const MAX_VERSION: nat := 9_007_199_254_740_991

  type Unit = n: nat | n < 0x1_0000

  /** Text as the program has it: a sequence of UTF-16 units. */
  type Text = seq<Unit>

  predicate High(u: Unit) {
    0xD800 <= u < 0xDC00
  }

  predicate Low(u: Unit) {
    0xDC00 <= u < 0xE000
  }

  predicate Surrogate(u: Unit) {
    0xD800 <= u < 0xE000
  }

  predicate StartsWithPair(text: Text) {
    |text| >= 2 && High(text[0]) && Low(text[1])
  }

  // ----- Sizes in bytes -----

  function PlainBytes(u: Unit): nat {
    if u < 0x80 then 1 else if u < 0x800 then 2 else 3
  }

  /** A unit inside a JSON string: quotes, backslashes and control characters are escaped. */
  function EscapedUnit(u: Unit): nat {
    if u == 0x22 || u == 0x5C || u == 8 || u == 9 || u == 10 || u == 12 || u == 13 then 2
    else if u < 0x20 || Surrogate(u) then 6
    else PlainBytes(u)
  }

  /** The bytes of a text inside a JSON string; a lone surrogate is escaped. */
  function Escaped(text: Text): nat {
    if text == [] then 0
    else if StartsWithPair(text) then 4 + Escaped(text[2..])
    else EscapedUnit(text[0]) + Escaped(text[1..])
  }

  /** The bytes of a text as it is. */
  function Utf8(text: Text): nat {
    if text == [] then 0
    else if StartsWithPair(text) then 4 + Utf8(text[2..])
    else PlainBytes(text[0]) + Utf8(text[1..])
  }

  /** What JSON encoding yields: no control characters and no lone surrogates. */
  predicate WellEncoded(text: Text) {
    if text == [] then true
    else if StartsWithPair(text) then WellEncoded(text[2..])
    else text[0] >= 0x20 && !Surrogate(text[0]) && WellEncoded(text[1..])
  }

  function Take(text: Text, n: nat): Text {
    if n < |text| then text[..n] else text
  }

  lemma {:induction false} EscapedAtMostSix(text: Text)
    ensures Escaped(text) <= 6 * |text|
  {
    if text == [] {
    } else if StartsWithPair(text) {
      EscapedAtMostSix(text[2..]);
    } else {
      EscapedAtMostSix(text[1..]);
    }
  }

  lemma {:induction false} Utf8AtMostThree(text: Text)
    ensures Utf8(text) <= 3 * |text|
  {
    if text == [] {
    } else if StartsWithPair(text) {
      Utf8AtMostThree(text[2..]);
    } else {
      Utf8AtMostThree(text[1..]);
    }
  }

  /** A cut through encoded text leaves at most one lone surrogate, at its end. */
  lemma {:induction false} PreviewAtMostThree(text: Text, n: nat)
    requires WellEncoded(text) && n <= |text|
    ensures Escaped(text[..n]) <= 3 * n + 3
    decreases n
  {
    if n == 0 {
    } else if StartsWithPair(text) {
      if n >= 2 {
        PreviewAtMostThree(text[2..], n - 2);
        assert text[..n][2..] == text[2..][..n - 2];
      } else {
        assert text[..1] == [text[0]];
      }
    } else {
      PreviewAtMostThree(text[1..], n - 1);
      assert text[..n][1..] == text[1..][..n - 1];
      assert !StartsWithPair(text[..n]);
    }
  }

  // ----- The fields of a run record -----

  datatype RunState = Prepared | Dispatching | Completed | Failed | NotStarted | OutcomeUnknown | NotRun

  predicate Finished(state: RunState) {
    state.Completed? || state.Failed? || state.NotStarted? || state.NotRun?
  }

  /** The characters of a state's name in the record. */
  function StateBytes(state: RunState): nat {
    match state
    case Prepared => 8
    case Dispatching => 11
    case Completed => 9
    case Failed => 6
    case NotStarted => 10
    case OutcomeUnknown => 15
    case NotRun => 6
  }

  /** An encoded value, whole or cut to a preview. */
  datatype Value = Whole(encoded: Text) | Preview(cut: Text)

  function ValueBytes(value: Value): nat {
    match value
    case Whole(encoded) => Utf8(encoded)
    case Preview(cut) => |"{\"preview\":\"\",\"truncated\":true}"| + Escaped(cut)
  }

  /** The beginning of an output, and whether that is not all. */
  datatype Output = Output(text: Text, truncated: bool)

  /** What a run record holds beyond its inventory entry. */
  datatype Fields = Fields(state: RunState, version: nat, result: Option<Value>, output: Option<Output>,
                           error: Option<Text>, settings: Option<Value>)

  function Digits(n: nat): nat {
    if n < 10 then 1 else 1 + Digits(n / 10)
  }

  function OptionBytes(key: nat, bytes: Option<nat>): nat {
    match bytes case None => 0 case Some(n) => key + n
  }

  function Quoted(text: Option<Text>): Option<nat> {
    match text case None => None case Some(t) => Some(2 + Escaped(t))
  }

  /** A quoted output and the member that tells whether it is cut. */
  function OutputBytes(output: Option<Output>): Option<nat> {
    match output
    case None => None
    case Some(o) => Some(2 + Escaped(o.text) + |",\"outputTruncated\":"| + if o.truncated then 4 else 5)
  }

  function Valued(value: Option<Value>): Option<nat> {
    match value case None => None case Some(v) => Some(ValueBytes(v))
  }

  /** The size of the record's file, given the size of its inventory entry: state `prepared`, version 1,
      none of the other fields.  `RunRecordFiles` proves it of the JSON text. */
  function RecordBytes(inventory: nat, fields: Fields): int {
    inventory + (StateBytes(fields.state) - StateBytes(Prepared)) + (Digits(fields.version) - 1)
    + OptionBytes(|",\"result\":"|, Valued(fields.result))
    + OptionBytes(|",\"output\":"|, OutputBytes(fields.output))
    + OptionBytes(|",\"error\":"|, Quoted(fields.error))
    + OptionBytes(|",\"settings\":"|, Valued(fields.settings))
  }

  // ----- Messages -----

  const GIVEN_UP := "Original runner died before dispatch"
  const NO_BACKEND := "Original backend is unavailable; inspect geometry before another explicit run"
  const HOST_ENDED := "Original host lifecycle ended; result cannot be inferred from a new host"
  const NO_RESULT := "Retained result is unavailable or pending. Source was not resubmitted."
  const CANCELLED := "Batch cancelled before this item"
  const NOT_REACHED := "Previous item did not complete successfully"
  const NOT_SENT := "Cancelled before transport dispatch"

  /** What `ToolPolicyDenied` is thrown with. */
  const POLICY_CODES: set<string> := {
    "disabled-by-user", "parent-disabled", "api-key-required", "images-required", "backend-unavailable",
    "ui-unavailable", "settings-unavailable", "credential-store-unavailable", "available-on-demand",
    "activation-required", "active", "pending-exposure", "revoked", "cancelled", "registration-conflict",
    "plugin-tool-mismatch", "credential-changed", "activation-superseded", "unmanaged-registration",
    "profile-already-bound", "unknown-plugin-credential" }

  /** A message of the program itself, the text of a denial, or that of any exception, which is cut. */
  datatype Note =
    | RunnerDied | NoBackend | HostEnded | NoResult | BatchCancelled | ItemNotReached | ItemNotSent
    | Denied(code: string)
    | Thrown(error: Text)

  function Printable(c: char): Unit {
    if ' ' <= c <= '~' && c != '"' && c != '\\' then c as int else ' ' as int
  }

  /** A text of printable characters that JSON writes as they are. */
  function Words(s: string): Text {
    seq(|s|, i requires 0 <= i < |s| => Printable(s[i]))
  }

  function NoteText(note: Note): Text {
    match note
    case RunnerDied => Words(GIVEN_UP)
    case NoBackend => Words(NO_BACKEND)
    case HostEnded => Words(HOST_ENDED)
    case NoResult => Words(NO_RESULT)
    case BatchCancelled => Words(CANCELLED)
    case ItemNotReached => Words(NOT_REACHED)
    case ItemNotSent => Words(NOT_SENT)
    case Denied(code) => Words("Tool unavailable: ") + Words(code) + Words(". Review Agent tools settings.")
    case Thrown(error) => Take(error, 2000)
  }

  lemma {:induction false} WordsAreUnescaped(s: string)
    ensures Escaped(Words(s)) == |s|
  {
    if s != [] {
      WordsAreUnescaped(s[1..]);
      assert Words(s)[1..] == Words(s[1..]);
    }
  }

  lemma NotesAreShort(note: Note)
    requires note.Denied? ==> note.code in POLICY_CODES
    ensures |NoteText(note)| <= 2000
  {
    if note.Denied? {
      CodesAreShort(note.code);
      assert |"Tool unavailable: "| == 18 && |". Review Agent tools settings."| == 30;
    } else {
      assert |GIVEN_UP| == 36 && |NO_BACKEND| <= 100 && |HOST_ENDED| <= 100 && |NO_RESULT| <= 100;
      assert |CANCELLED| == 32 && |NOT_REACHED| == 43 && |NOT_SENT| <= 100;
    }
    hide Words;
  }

  lemma CodesAreShort(code: string)
    requires code in POLICY_CODES
    ensures |code| <= 28
  {
  }

  // ----- Changes -----

  /** The changes that the program writes: a state with a message, or a native result. */
  datatype Change =
    | ToDispatching
    | Verdict(state: RunState, note: Note)
    | NativeResult(state: RunState, encoded: Text, output: Text, error: Option<Text>, encodedSettings: Option<Text>)

  predicate ChangeOk(change: Change) {
    match change
    case ToDispatching => true
    case Verdict(state, note) => !state.Prepared? && (note.Denied? ==> note.code in POLICY_CODES)
    case NativeResult(state, encoded, _, _, encodedSettings) =>
      && !state.Prepared? && !state.Dispatching? && WellEncoded(encoded)
      && (encodedSettings.Some? ==> WellEncoded(encodedSettings.value))
  }

  function Bounded(encoded: Text): Value {
    if |encoded| > 12_000 then Preview(Take(encoded, 12_000)) else Whole(encoded)
  }

  function BoundedSettings(encoded: Text): Value {
    if Utf8(encoded) > 8000 then Preview(Take(encoded, 1000)) else Whole(encoded)
  }

  /** `update`: the change goes over the current fields, and the version goes up by one. */
  function Updated(fields: Fields, change: Change): Fields {
    var version := fields.version + 1;
    match change
    case ToDispatching => fields.(state := Dispatching, version := version)
    case Verdict(state, note) => fields.(state := state, version := version, error := Some(NoteText(note)))
    case NativeResult(state, encoded, output, error, settings) =>
      Fields(state, version, Some(Bounded(encoded)), Some(Output(Take(output, 6000), |output| > 6000)),
             (match error case None => None case Some(e) => Some(Take(e, 2000))),
             match settings case None => None case Some(e) => Some(BoundedSettings(e)))
  }

  /** The text is recorded up to a limit. */
  predicate CutTo(kept: Text, all: Text, limit: nat) {
    kept <= all && |kept| == if |all| > limit then limit else |all|
  }

  /** What a native result leaves in the record: whatever is within its limit is there as it is, and of the rest as
      much as the limit allows. */
  lemma ResultIsRecorded(fields: Fields, change: Change)
    requires change.NativeResult?
    ensures var now := Updated(fields, change);
            && now.state == change.state && now.version == fields.version + 1
            && now.result.Some? && now.output.Some?
            && (|change.encoded| <= 12_000 <==> now.result.value.Whole?)
            && (match now.result.value
                case Whole(encoded) => encoded == change.encoded
                case Preview(cut) => CutTo(cut, change.encoded, 12_000))
            && CutTo(now.output.value.text, change.output, 6000)
            && (now.output.value.truncated <==> now.output.value.text != change.output)
            && (now.error.Some? <==> change.error.Some?)
            && (now.error.Some? ==> CutTo(now.error.value, change.error.value, 2000))
            && (now.settings.Some? <==> change.encodedSettings.Some?)
            && (now.settings.Some? ==>
                  match now.settings.value
                  case Whole(encoded) => encoded == change.encodedSettings.value && Utf8(encoded) <= 8000
                  case Preview(cut) =>
                    Utf8(change.encodedSettings.value) > 8000 && CutTo(cut, change.encodedSettings.value, 1000))
  {
    hide Utf8;
  }

  /** Any other change leaves in the record its state and its message, and all else as it was. */
  lemma VerdictIsRecorded(fields: Fields, change: Change)
    requires !change.NativeResult?
    ensures var now := Updated(fields, change);
            && now.version == fields.version + 1
            && now.result == fields.result && now.output == fields.output && now.settings == fields.settings
            && (match change
                case ToDispatching => now.state.Dispatching? && now.error == fields.error
                case Verdict(state, note) =>
                  && now.state == state && now.error.Some?
                  && if note.Thrown? then CutTo(now.error.value, note.error, 2000)
                     else now.error.value == NoteText(note))
  {
    hide Words;
  }

  predicate ValueOk(value: Value) {
    match value
    case Whole(encoded) => Utf8(encoded) <= 36_000
    case Preview(cut) => Escaped(cut) <= 36_003
  }

  predicate SettingsOk(value: Value) {
    match value
    case Whole(encoded) => Utf8(encoded) <= 8000
    case Preview(cut) => Escaped(cut) <= 3003
  }

  /** The limits as the fields of a record show them. */
  predicate FieldsOk(fields: Fields) {
    && 1 <= fields.version <= MAX_VERSION
    && (fields.result.Some? ==> ValueOk(fields.result.value))
    && (fields.output.Some? ==> |fields.output.value.text| <= 6000)
    && (fields.error.Some? ==> |fields.error.value| <= 2000)
    && (fields.settings.Some? ==> SettingsOk(fields.settings.value))
  }

  const INITIAL := Fields(Prepared, 1, None, None, None, None)

  lemma PreviewOk(encoded: Text, limit: nat)
    requires WellEncoded(encoded)
    ensures Escaped(Take(encoded, limit)) <= 3 * limit + 3
  {
    var n := if limit < |encoded| then limit else |encoded|;
    assert Take(encoded, limit) == encoded[..n];
    PreviewAtMostThree(encoded, n);
  }

  /** Every change keeps the fields within their limits, whatever the native side returned. */
  lemma UpdateKeepsLimits(fields: Fields, change: Change)
    requires FieldsOk(fields) && ChangeOk(change) && fields.version < MAX_VERSION
    ensures FieldsOk(Updated(fields, change)) && !Updated(fields, change).state.Prepared?
  {
    match change
    case NativeResult(_, encoded, _, _, settings) =>
      Utf8AtMostThree(encoded);
      PreviewOk(encoded, 12_000);
      if settings.Some? {
        PreviewOk(settings.value, 1000);
      }
    case Verdict(_, note) => NotesAreShort(note);
    case ToDispatching =>
  }

  lemma {:induction false} DigitsGrow(n: nat, m: nat)
    requires n <= m
    ensures 1 <= Digits(n) <= Digits(m)
    decreases m
  {
    if n >= 10 {
      DigitsGrow(n / 10, m / 10);
    }
  }

  lemma VersionDigits(version: nat)
    requires version <= MAX_VERSION
    ensures 1 <= Digits(version) <= 16
  {
    DigitsGrow(version, MAX_VERSION);
    assert Digits(MAX_VERSION) == 16;
  }

  lemma QuotedAtMost(text: Option<Text>, limit: nat)
    requires text.Some? ==> |text.value| <= limit
    ensures Quoted(text).Some? ==> Quoted(text).value <= 2 + 6 * limit
  {
    if text.Some? {
      EscapedAtMostSix(text.value);
    }
  }

  lemma ValuesAtMost(fields: Fields)
    requires FieldsOk(fields)
    ensures OptionBytes(|",\"result\":"|, Valued(fields.result)) <= 36_044
    ensures OptionBytes(|",\"settings\":"|, Valued(fields.settings)) <= 8_012
  {
    hide Utf8, Escaped;
    assert |"{\"preview\":\"\",\"truncated\":true}"| == 31;
    assert |",\"result\":"| == 10;
    assert |",\"settings\":"| == 12;
  }

  lemma TextsAtMost(fields: Fields)
    requires FieldsOk(fields)
    ensures OptionBytes(|",\"output\":"|, OutputBytes(fields.output)) <= 36_036
    ensures OptionBytes(|",\"error\":"|, Quoted(fields.error)) <= 12_011
  {
    hide Escaped;
    QuotedAtMost(if fields.output.Some? then Some(fields.output.value.text) else None, 6000);
    QuotedAtMost(fields.error, 2000);
    assert |",\"output\":"| == 10;
    assert |",\"outputTruncated\":"| == 19;
    assert |",\"error\":"| == 9;
  }

  /** The reservation is enough: a record within the limits stays within its inventory entry and 128,000
      bytes, and one that is still unfinished is no smaller than its entry. */
  lemma RecordFitsItsReserve(inventory: nat, fields: Fields)
    requires FieldsOk(fields)
    ensures RecordBytes(inventory, fields) <= inventory + RUN_RESERVE_BYTES
    ensures !Finished(fields.state) ==> inventory <= RecordBytes(inventory, fields)
  {
    hide OptionBytes, Valued, Quoted, OutputBytes, Digits, ValueOk, SettingsOk;
    VersionDigits(fields.version);
    ValuesAtMost(fields);
    TextsAtMost(fields);
  }

  // ----- The one finished record that is written over -----

  function GiveUp(): Change {
    Verdict(NotStarted, RunnerDied)
  }

  function NotReached(): Change {
    Verdict(NotRun, ItemNotReached)
  }

  function Cancelled(): Change {
    Verdict(NotRun, BatchCancelled)
  }

  /** The record of a run that an inspector has given up before its dispatch. */
  function GivenUp(): Fields {
    Updated(INITIAL, GiveUp())
  }

  /** The runner of a batch that has stopped writes over a record that was given up over its head
      (`RunJournal.RecordsOnlyAdvance`). */
  predicate Overwrites(fields: Fields, change: Change) {
    fields == GivenUp() && (change == NotReached() || change == Cancelled())
  }

  /** Whether such a record grows is decided by the message; nothing is held back for it any more. */
  lemma OverwriteGrows(inventory: nat, change: Change)
    requires Overwrites(GivenUp(), change)
    ensures RecordBytes(inventory, GivenUp()) == inventory + 49
    ensures RecordBytes(inventory, Updated(GivenUp(), change)) == inventory + if change == NotReached() then 52 else 41
    ensures GivenUp().state.NotStarted? && Updated(GivenUp(), change).state.NotRun? && GivenUp().version == 2
  {
    WordsAreUnescaped(GIVEN_UP);
    WordsAreUnescaped(NOT_REACHED);
    WordsAreUnescaped(CANCELLED);
    hide Escaped, Words;
    assert |GIVEN_UP| == 36 && |NOT_REACHED| == 43 && |CANCELLED| == 32;
    assert |",\"error\":"| == 9;
  }
}
