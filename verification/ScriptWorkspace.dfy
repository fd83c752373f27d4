/** The retained scripts of a workspace (`rhino-script-workspace.ts`): an append-only log of revisions for
    each script, and mutations that may be repeated safely because their identity is retained. */
module ScriptWorkspace {
  import opened Wrappers
  import Patches = SourceLinePatches
  import Pages = ScriptPages

  const MAX_IDENTITY: nat := 1024
  const MAX_NAME: nat := 200
  const MAX_SOURCE: nat := 64_000

  /** `script_<workspace>_<token>`; the token of a created script is the hash of its mutation identity,
      and stands for it here. */
  datatype ScriptId = ScriptId(workspace: string, token: string) | Malformed(text: string)

  datatype Language = Python | CSharp

  /** A digest; different texts have different digests. */
  datatype Digest = Digest(of: string)

  datatype Revision = Revision(revision: nat, name: string, language: Language, source: string, hash: Digest,
                               deleted: bool, createdAt: int)

  datatype Request =
    | Create(name: string, language: Language, source: string)
    | Patch(scriptId: ScriptId, expectedRevision: int, patches: seq<Patches.SourcePatch>)
    | SetSource(scriptId: ScriptId, expectedRevision: int, source: string)
    | Rename(scriptId: ScriptId, expectedRevision: int, name: string)
    | Restore(scriptId: ScriptId, expectedRevision: int, fromRevision: int)
    | Delete(scriptId: ScriptId, expectedRevision: int)
    | Undelete(scriptId: ScriptId, expectedRevision: int)

  /** What the record keeps of a mutation, by its identity. */
  datatype Retained = Retained(payload: Request, revision: nat, changed: bool)

  datatype Record = Record(revisions: seq<Revision>, mutations: map<string, Retained>)

  type Store = map<ScriptId, Record>

  datatype Error =
    | InvalidInput
    | InvalidId
    | WorkspaceMismatch
    | NotFound
    | MutationIdConflict
    | RevisionConflict(currentRevision: nat)
    | ScriptDeleted
    | RevisionNotFound
    | SourceLimitReached
    | WorkspaceLimitReached
    | PatchFailed(error: Patches.PatchError)

  /** The answer to a mutation; its diff is the one from `before` to the source of the revision. */
  datatype MutationResult = MutationResult(scriptId: ScriptId, revision: Revision, changed: bool, before: string)

  // ----- Reading -----

  function ReadRecord(workspace: string, store: Store, id: ScriptId): Result<Record, Error> {
    if id.Malformed? then Err(InvalidId)
    else if id.workspace != workspace then Err(WorkspaceMismatch)
    else if id !in store then Err(NotFound)
    else Ok(store[id])
  }

  function ResolveRevision(revisions: seq<Revision>, revision: Option<int>, forExecution: bool): Result<Revision, Error>
    requires revisions != []
  {
    var head := revisions[|revisions| - 1];
    if forExecution && head.deleted then Err(ScriptDeleted)
    else match revision
      case None => Ok(head)
      case Some(n) =>
        if n < 1 then Err(InvalidInput)
        else if n > |revisions| then Err(RevisionNotFound)
        else Ok(revisions[n - 1])
  }

  // ----- One edit -----

  /** White space as `trim` removes it. */
  predicate Blank(c: char) {
    || '\t' <= c <= '\r' || c == ' ' || c == '\U{A0}' || c == '\U{1680}' || '\U{2000}' <= c <= '\U{200A}'
    || c == '\U{2028}' || c == '\U{2029}' || c == '\U{202F}' || c == '\U{205F}' || c == '\U{3000}' || c == '\U{FEFF}'
  }

  predicate GoodName(name: string) {
    && (exists i :: 0 <= i < |name| && !Blank(name[i]))
    && |name| <= MAX_NAME
    && forall i :: 0 <= i < |name| ==> name[i] >= ' '
  }

  /** The revision before any change: a copy of the head, or a blank one. */
  function Base(revisions: seq<Revision>, now: int): Revision {
    if revisions == [] then Revision(1, "", Python, "", Digest(""), false, now)
    else
      var previous := revisions[|revisions| - 1];
      previous.(revision := previous.revision + 1, createdAt := now)
  }

  function Changed(revisions: seq<Revision>, request: Request, now: int): Result<Revision, Error>
    requires request.Create? || revisions != []
  {
    var next := Base(revisions, now);
    match request
    case Create(name, language, source) =>
      Ok(next.(name := name, language := language, source := Patches.NormalizeSource(source)))
    case SetSource(_, _, source) => Ok(next.(source := Patches.NormalizeSource(source)))
    case Patch(_, _, patches) =>
      (match Patches.ApplySpec(next.source, patches)
       case Err(error) => Err(PatchFailed(error))
       case Ok(source) => Ok(next.(source := source)))
    case Rename(_, _, name) => Ok(next.(name := name))
    case Restore(_, _, fromRevision) =>
      (match ResolveRevision(revisions, Some(fromRevision), false)
       case Err(error) => Err(error)
       case Ok(restored) => Ok(next.(source := restored.source)))
    case Delete(_, _) => Ok(next.(deleted := true))
    case Undelete(_, _) => Ok(next.(deleted := false))
  }

  predicate HeadAccepts(revisions: seq<Revision>, request: Request)
    requires request.Create? || revisions != []
  {
    || request.Create?
    || var head := revisions[|revisions| - 1];
       && request.expectedRevision >= 1 && head.revision == request.expectedRevision
       && (head.deleted ==> request.Delete? || request.Undelete?)
  }

  /** The revision that a request makes of a script with these revisions, or why it makes none. */
  function Edited(revisions: seq<Revision>, request: Request, now: int): Result<Revision, Error>
    requires request.Create? || revisions != []
  {
    if !HeadAccepts(revisions, request) then
      var head := revisions[|revisions| - 1];
      if request.expectedRevision < 1 then Err(InvalidInput)
      else if head.revision != request.expectedRevision then Err(RevisionConflict(head.revision))
      else Err(ScriptDeleted)
    else match Changed(revisions, request, now)
      case Err(error) => Err(error)
      case Ok(next) =>
        if !GoodName(next.name) then Err(InvalidInput)
        else if |next.source| > MAX_SOURCE then Err(SourceLimitReached)
        else Ok(next.(hash := Digest(next.source)))
  }

  predicate Same(a: Revision, b: Revision) {
    a.name == b.name && a.source == b.source && a.deleted == b.deleted
  }

  /** A restore always adds a revision; other requests only when they change something. */
  predicate AddsRevision(revisions: seq<Revision>, request: Request, next: Revision) {
    request.Restore? || revisions == [] || !Same(revisions[|revisions| - 1], next)
  }

  // ----- Mutations -----

  function Target(workspace: string, request: Request, key: string): ScriptId {
    if request.Create? then ScriptId(workspace, key) else request.scriptId
  }

  predicate TakenElsewhere(store: Store, key: string, target: ScriptId) {
    exists id :: id in store && id != target && key in store[id].mutations
  }

  function Answer(id: ScriptId, record: Record, revision: nat, changed: bool): MutationResult
    requires 1 <= revision <= |record.revisions|
  {
    var r := record.revisions[revision - 1];
    var before := if !changed then r.source else if revision >= 2 then record.revisions[revision - 2].source else "";
    MutationResult(id, r, changed, before)
  }

  function Written(record: Record, key: string, request: Request, next: Revision): Record
    requires request.Create? || record.revisions != []
  {
    if AddsRevision(record.revisions, request, next) then
      Record(record.revisions + [next], record.mutations[key := Retained(request, next.revision, true)])
    else
      var head := record.revisions[|record.revisions| - 1];
      Record(record.revisions, record.mutations[key := Retained(request, head.revision, false)])
  }

  /** A mutation with an identity that the record does not know yet. */
  function MutateFresh(store: Store, id: ScriptId, record: Record, request: Request, key: string, now: int, room: bool)
    : (Store, Result<MutationResult, Error>)
    requires NumberedFromOne(record.revisions)
    requires request.Create? || record.revisions != []
  {
    match Edited(record.revisions, request, now)
    case Err(error) => (store, Err(error))
    case Ok(next) =>
      if !room then (store, Err(WorkspaceLimitReached))
      else
        var written := Written(record, key, request, next);
        var retained := written.mutations[key];
        (store[id := written], Ok(Answer(id, written, retained.revision, retained.changed)))
  }

  /** `room` says whether the quota has room for the record to be written. */
  function MutateSpec(workspace: string, store: Store, request: Request, key: string, now: int, room: bool)
    : (Store, Result<MutationResult, Error>)
    requires StoreOk(workspace, store)
  {
    var target := Target(workspace, request, key);
    if key == "" || |key| > MAX_IDENTITY then (store, Err(InvalidInput))
    else if TakenElsewhere(store, key, target) then (store, Err(MutationIdConflict))
    else
      var found := if request.Create?
          && target !in store then Ok(Record([], map[])) else ReadRecord(workspace, store, target);
      match found
      case Err(error) => (store, Err(error))
      case Ok(record) =>
        if key in record.mutations then
          var replay := record.mutations[key];
          if replay.payload != request then (store, Err(MutationIdConflict))
          else (store, Ok(Answer(target, record, replay.revision, replay.changed)))
        else MutateFresh(store, target, record, request, key, now, room)
  }

  // ----- What every stored record satisfies -----

  predicate NumberedFromOne(revisions: seq<Revision>) {
    forall i :: 0 <= i < |revisions|
        ==> revisions[i].revision == i + 1 && revisions[i].hash == Digest(revisions[i].source)
  }

  /** The retained mutation accounts for its revision: it is what the request makes of the revisions before
      it, or, without a change, it leaves the revision as it is. */
  predicate Accounts(revisions: seq<Revision>, retained: Retained) {
    var n, request := retained.revision, retained.payload;
    && 1 <= n <= |revisions|
    && if retained.changed then
         && (n == 1 ==> request.Create?)
         && Edited(revisions[..n - 1], request, revisions[n - 1].createdAt) == Ok(revisions[n - 1])
         && AddsRevision(revisions[..n - 1], request, revisions[n - 1])
       else
         var again := Edited(revisions[..n], request, 0);
         again.Ok? && !AddsRevision(revisions[..n], request, again.value)
  }

  ghost predicate RecordOk(record: Record) {
    && record.revisions != []
    && NumberedFromOne(record.revisions)
    && (forall key :: key in record.mutations ==> Accounts(record.revisions, record.mutations[key]))
    && (forall n :: 1 <= n <= |record.revisions| ==> HasCause(record, n))
    && (forall a, b :: a in record.mutations && b in record.mutations && a != b ==>
          !SameCause(record.mutations[a], record.mutations[b]))
  }

  ghost predicate HasCause(record: Record, n: nat) {
    exists key :: key in record.mutations && record.mutations[key].changed && record.mutations[key].revision == n
  }

  predicate SameCause(a: Retained, b: Retained) {
    a.changed && b.changed && a.revision == b.revision
  }

  ghost predicate StoreOk(workspace: string, store: Store) {
    && (forall id :: id in store ==> EntryOk(workspace, id, store[id]))
    && (forall a, b, key ::
          a in store && b in store && key in store[a].mutations && key in store[b].mutations ==> a == b)
  }

  ghost predicate EntryOk(workspace: string, id: ScriptId, record: Record) {
    && id.ScriptId? && id.workspace == workspace
    && RecordOk(record)
    && id.token in record.mutations && record.mutations[id.token].payload.Create?
    && record.mutations[id.token].revision == 1
    && forall key :: key in record.mutations && record.mutations[key].payload.Create? ==> key == id.token
  }

  lemma AccountsStays(revisions: seq<Revision>, more: Revision, retained: Retained)
    requires Accounts(revisions, retained)
    ensures Accounts(revisions + [more], retained)
  {
    var n := retained.revision;
    assert (revisions + [more])[..n] == revisions[..n];
    assert (revisions + [more])[..n - 1] == revisions[..n - 1];
    assert (revisions + [more])[n - 1] == revisions[n - 1];
  }

  lemma EditedAtAnyTime(revisions: seq<Revision>, request: Request, now: int, later: int)
    requires (request.Create? || revisions != []) && Edited(revisions, request, now).Ok?
    ensures Edited(revisions, request, now).value.createdAt == now
    ensures Edited(revisions, request, later) == Ok(Edited(revisions, request, now).value.(createdAt := later))
  {
  }

  lemma EditedIsNext(revisions: seq<Revision>, request: Request, now: int)
    requires NumberedFromOne(revisions) && (request.Create? || revisions != []) && Edited(revisions, request, now).Ok?
    ensures var next := Edited(revisions, request, now).value;
            next.revision == |revisions| + 1 && next.hash == Digest(next.source) && next.createdAt == now
  {
  }

  lemma NewRetainedAccounts(record: Record, request: Request, key: string, now: int)
    requires NumberedFromOne(record.revisions) && (request.Create? || record.revisions != [])
    requires Edited(record.revisions, request, now).Ok?
    ensures var written := Written(record, key, request, Edited(record.revisions, request, now).value);
            NumberedFromOne(written.revisions) && Accounts(written.revisions, written.mutations[key])
  {
    var revisions := record.revisions;
    var next := Edited(revisions, request, now).value;
    EditedIsNext(revisions, request, now);
    if AddsRevision(revisions, request, next) {
      assert (revisions + [next])[..|revisions|] == revisions;
    } else {
      EditedAtAnyTime(revisions, request, now, 0);
      assert revisions[..|revisions|] == revisions;
    }
  }

  ghost predicate FreshOrOk(record: Record, request: Request) {
    RecordOk(record) || (record == Record([], map[]) && request.Create?)
  }

  lemma WrittenAccounts(record: Record, request: Request, key: string, now: int)
    requires FreshOrOk(record, request) && Edited(record.revisions, request, now).Ok?
    ensures var written := Written(record, key, request, Edited(record.revisions, request, now).value);
            forall k :: k in written.mutations ==> Accounts(written.revisions, written.mutations[k])
  {
    var next := Edited(record.revisions, request, now).value;
    var written := Written(record, key, request, next);
    NewRetainedAccounts(record, request, key, now);
    forall k | k in written.mutations && k != key ensures Accounts(written.revisions, written.mutations[k]) {
      assert Accounts(record.revisions, record.mutations[k]);
      if written.revisions != record.revisions {
        AccountsStays(record.revisions, next, record.mutations[k]);
      }
    }
  }

  lemma WrittenHasCauses(record: Record, request: Request, key: string, now: int)
    requires FreshOrOk(record, request) && Edited(record.revisions, request, now).Ok? && key !in record.mutations
    ensures var written := Written(record, key, request, Edited(record.revisions, request, now).value);
            forall n :: 1 <= n <= |written.revisions| ==> HasCause(written, n)
  {
    var next := Edited(record.revisions, request, now).value;
    var written := Written(record, key, request, next);
    EditedIsNext(record.revisions, request, now);
    forall n | 1 <= n <= |written.revisions| ensures HasCause(written, n) {
      if n <= |record.revisions| {
        assert HasCause(record, n);
        var k :| k in record.mutations && record.mutations[k].changed && record.mutations[k].revision == n;
        assert k in written.mutations && written.mutations[k] == record.mutations[k];
      } else {
        assert key in written.mutations;
      }
    }
  }

  lemma WrittenIsOk(record: Record, request: Request, key: string, now: int)
    requires FreshOrOk(record, request) && Edited(record.revisions, request, now).Ok? && key !in record.mutations
    ensures RecordOk(Written(record, key, request, Edited(record.revisions, request, now).value))
  {
    hide Edited, Accounts, HasCause;
    var next := Edited(record.revisions, request, now).value;
    var written := Written(record, key, request, next);
    EditedIsNext(record.revisions, request, now);
    NewRetainedAccounts(record, request, key, now);
    WrittenAccounts(record, request, key, now);
    WrittenHasCauses(record, request, key, now);
    forall a, b | a in written.mutations && b in written.mutations && a != b
      ensures !SameCause(written.mutations[a], written.mutations[b])
    {
      if a != key {
        AccountsForItsRevision(record.revisions, record.mutations[a]);
      }
      if b != key {
        AccountsForItsRevision(record.revisions, record.mutations[b]);
      }
    }
  }

  /** One script grows: its revisions and its retained mutations only get more. */
  ghost predicate Grows(before: Record, after: Record) {
    && before.revisions <= after.revisions
    && forall key :: key in before.mutations ==> key in after.mutations && after.mutations[key] == before.mutations[key]
  }

  ghost predicate StoreGrows(before: Store, after: Store) {
    forall id :: id in before ==> id in after && Grows(before[id], after[id])
  }

  /** The record a mutation is about to change, if it is not a repetition. */
  ghost predicate Opens(workspace: string, store: Store, request: Request, key: string, record: Record) {
    var target := Target(workspace, request, key);
    && !TakenElsewhere(store, key, target)
    && key !in record.mutations
    && if request.Create? && target !in store then record == Record([], map[])
       else target in store && record == store[target]
  }

  lemma OpenedRecordIsOk(workspace: string, store: Store, request: Request, key: string, record: Record)
    requires StoreOk(workspace, store) && Opens(workspace, store, request, key, record)
    ensures FreshOrOk(record, request)
    ensures request.Create? ==> Target(workspace, request, key) !in store
  {
    var target := Target(workspace, request, key);
    if target in store {
      assert EntryOk(workspace, target, store[target]);
    }
  }

  /** Putting back a record that grew by one identity, which no other record has. */
  lemma WritingKeepsStoreOk(workspace: string, store: Store, target: ScriptId, written: Record, key: string)
    requires StoreOk(workspace, store) && EntryOk(workspace, target, written)
    requires !TakenElsewhere(store, key, target)
    requires target in store ==> Grows(store[target], written)
    requires forall k :: k in written.mutations ==> k == key || (target in store && k in store[target].mutations)
    ensures StoreOk(workspace, store[target := written]) && StoreGrows(store, store[target := written])
  {
    hide RecordOk;
    var after := store[target := written];
    forall id | id in after ensures EntryOk(workspace, id, after[id]) {
      assert id != target ==> EntryOk(workspace, id, store[id]);
    }
    forall a, b, k | a in after && b in after && k in after[a].mutations && k in after[b].mutations ensures a == b {
    }
  }

  lemma WrittenGrows(record: Record, key: string, request: Request, next: Revision)
    requires (request.Create? || record.revisions != []) && key !in record.mutations
    ensures Grows(record, Written(record, key, request, next))
    ensures Written(record, key, request, next).mutations.Keys == record.mutations.Keys + {key}
    ensures Written(record, key, request, next).mutations[key].payload == request
    ensures record.revisions == [] ==> Written(record, key, request, next).mutations[key].revision == next.revision
  {
  }

  lemma FreshKeepsStoreOk(workspace: string, store: Store, request: Request, key: string, record: Record, now: int,
                          room: bool)
    requires StoreOk(workspace, store) && Opens(workspace, store, request, key, record)
    requires FreshOrOk(record, request) && (request.Create? ==> Target(workspace, request, key) !in store)
    ensures var after := MutateFresh(store, Target(workspace, request, key), record, request, key, now, room).0;
            StoreOk(workspace, after) && StoreGrows(store, after)
  {
    hide Edited, Written, Accounts;
    var target := Target(workspace, request, key);
    match Edited(record.revisions, request, now)
    case Err(_) =>
    case Ok(next) =>
      var written := Written(record, key, request, next);
      WrittenIsOk(record, request, key, now);
      WrittenGrows(record, key, request, next);
      EditedIsNext(record.revisions, request, now);
      if target in store {
        assert EntryOk(workspace, target, store[target]);
      }
      assert EntryOk(workspace, target, written);
      WritingKeepsStoreOk(workspace, store, target, written, key);
  }

  lemma MutationKeepsStoreOk(workspace: string, store: Store, request: Request, key: string, now: int, room: bool)
    requires StoreOk(workspace, store)
    ensures var after := MutateSpec(workspace, store, request, key, now, room).0;
            StoreOk(workspace, after) && StoreGrows(store, after)
  {
    hide MutateFresh, Answer, RecordOk;
    var target := Target(workspace, request, key);
    if key != "" && |key| <= MAX_IDENTITY && !TakenElsewhere(store, key, target) {
      var found := if request.Create?
          && target !in store then Ok(Record([], map[])) else ReadRecord(workspace, store, target);
      if found.Ok? && key !in found.value.mutations {
        OpenedRecordIsOk(workspace, store, request, key, found.value);
        FreshKeepsStoreOk(workspace, store, request, key, found.value, now, room);
      }
    }
  }

  /** A refused mutation changes nothing. */
  lemma RefusalChangesNothing(workspace: string, store: Store, request: Request, key: string, now: int, room: bool)
    requires StoreOk(workspace, store) && MutateSpec(workspace, store, request, key, now, room).1.Err?
    ensures MutateSpec(workspace, store, request, key, now, room).0 == store
  {
    hide Edited, Answer, RecordOk, Written, TakenElsewhere;
  }

  // ----- What a retained record says -----

  /** Every change but the first named the revision it replaced, and a request without a change the one it left. */
  lemma ChangesNamedTheHead(record: Record, key: string)
    requires RecordOk(record) && key in record.mutations
    ensures var retained := record.mutations[key];
            && (retained.changed && !retained.payload.Create?
                ==> retained.payload.expectedRevision == retained.revision - 1)
            && (!retained.changed && !retained.payload.Create?
                ==> retained.payload.expectedRevision == retained.revision)
            && (retained.changed && retained.revision == 1 ==> retained.payload.Create?)
  {
    hide Changed;
    var retained := record.mutations[key];
    var n := retained.revision;
    assert Accounts(record.revisions, retained);
    if !retained.payload.Create? {
      var before := if retained.changed then record.revisions[..n - 1] else record.revisions[..n];
      assert HeadAccepts(before, retained.payload);
      assert before[|before| - 1] == record.revisions[|before| - 1];
    }
  }

  /** No update is lost: of two changes that named the same head, only one was accepted. */
  lemma NoLostUpdate(record: Record, a: string, b: string)
    requires RecordOk(record) && a in record.mutations && b in record.mutations && a != b
    requires record.mutations[a].changed && record.mutations[b].changed
    requires !record.mutations[a].payload.Create? && !record.mutations[b].payload.Create?
    ensures record.mutations[a].payload.expectedRevision != record.mutations[b].payload.expectedRevision
  {
    ChangesNamedTheHead(record, a);
    ChangesNamedTheHead(record, b);
    assert !SameCause(record.mutations[a], record.mutations[b]);
  }

  /** The request that made a revision, and what it made it from. */
  lemma RevisionHasItsRequest(record: Record, n: nat) returns (key: string)
    requires RecordOk(record) && 1 <= n <= |record.revisions|
    ensures key in record.mutations && record.mutations[key].changed && record.mutations[key].revision == n
    ensures var request := record.mutations[key].payload;
            && (n == 1 ==> request.Create?)
            && Edited(record.revisions[..n - 1], request,
                record.revisions[n - 1].createdAt) == Ok(record.revisions[n - 1])
            && AddsRevision(record.revisions[..n - 1], request, record.revisions[n - 1])
  {
    hide Edited, AddsRevision;
    assert HasCause(record, n);
    key :| key in record.mutations && record.mutations[key].changed && record.mutations[key].revision == n;
    assert Accounts(record.revisions, record.mutations[key]);
  }

  /** On a deleted head only an undelete makes a revision. */
  lemma DeletedHeadOnlyUndeletes(revisions: seq<Revision>, request: Request, now: int)
    requires revisions != [] && revisions[|revisions| - 1].deleted && !request.Create?
    requires Edited(revisions, request, now).Ok?
        && AddsRevision(revisions, request, Edited(revisions, request, now).value)
    ensures request.Undelete?
    ensures var head, next := revisions[|revisions| - 1], Edited(revisions, request, now).value;
            !next.deleted && next.name == head.name && next.source == head.source
  {
    hide Patches.ApplySpec, Patches.NormalizeSource;
    assert HeadAccepts(revisions, request);
  }

  /** A deleted script is not edited: the revision after a deletion takes it back and changes nothing else. */
  lemma DeletedIsNotEdited(workspace: string, id: ScriptId, record: Record, n: nat)
    requires EntryOk(workspace, id, record) && 1 <= n < |record.revisions| && record.revisions[n - 1].deleted
    ensures var after := record.revisions[n];
            !after.deleted && after.name == record.revisions[n - 1].name
                && after.source == record.revisions[n - 1].source
  {
    hide Edited, AddsRevision, Accounts;
    var key := RevisionHasItsRequest(record, n + 1);
    var before := record.revisions[..n];
    assert before[|before| - 1] == record.revisions[n - 1];
    DeletedHeadOnlyUndeletes(before, record.mutations[key].payload, record.revisions[n].createdAt);
  }

  predicate SourceOk(source: string) {
    |source| <= MAX_SOURCE && '\r' !in source
  }

  lemma NextSourceIsOk(revisions: seq<Revision>, request: Request, now: int)
    requires request.Create? || revisions != []
    requires forall r :: r in revisions ==> SourceOk(r.source)
    requires Edited(revisions, request, now).Ok?
    ensures SourceOk(Edited(revisions, request, now).value.source)
  {
    hide Patches.ApplySpec, Patches.NormalizeSource;
    match request
    case Create(_, _, source) => Patches.NormalizedHasNoReturns(source);
    case SetSource(_, _, source) => Patches.NormalizedHasNoReturns(source);
    case Patch(_, _, patches) => Patches.PatchingKeepsNormalized(revisions[|revisions| - 1].source, patches);
    case _ =>
  }

  /** However a script was edited, its sources stay normalized and within the limit. */
  lemma {:induction false} SourcesStayOk(record: Record, n: nat)
    requires RecordOk(record) && n <= |record.revisions|
    ensures forall r :: r in record.revisions[..n] ==> SourceOk(r.source)
  {
    hide Edited, AddsRevision, SourceOk;
    if n > 0 {
      SourcesStayOk(record, n - 1);
      var key := RevisionHasItsRequest(record, n);
      NextSourceIsOk(record.revisions[..n - 1], record.mutations[key].payload, record.revisions[n - 1].createdAt);
      assert record.revisions[..n] == record.revisions[..n - 1] + [record.revisions[n - 1]];
    }
  }

  // ----- Runs -----

  /** One call of `mutate`, with the clock and the quota as it finds them. */
  datatype Event = Event(request: Request, key: string, now: int, room: bool)

  /** Every state follows from the one before (`RunsStayOk` says that all of them are as `MutateSpec` needs). */
  ghost predicate IsRun(workspace: string, stores: seq<Store>, events: seq<Event>) {
    && |stores| == |events| + 1
    && stores[0] == map[]
    && forall i :: 0 <= i < |events| && StoreOk(workspace, stores[i]) ==>
         Leads(workspace, stores[i], events[i], stores[i + 1])
  }

  ghost predicate Leads(workspace: string, store: Store, e: Event, after: Store)
    requires StoreOk(workspace, store)
  {
    after == MutateSpec(workspace, store, e.request, e.key, e.now, e.room).0
  }

  lemma {:induction false} RunsStayOk(workspace: string, stores: seq<Store>, events: seq<Event>, i: nat)
    requires IsRun(workspace, stores, events) && i <= |events|
    ensures StoreOk(workspace, stores[i])
  {
    hide MutateSpec;
    if i > 0 {
      RunsStayOk(workspace, stores, events, i - 1);
      var e := events[i - 1];
      assert Leads(workspace, stores[i - 1], e, stores[i]);
      MutationKeepsStoreOk(workspace, stores[i - 1], e.request, e.key, e.now, e.room);
    }
  }

  lemma GrowsOn(a: Store, b: Store, c: Store)
    requires StoreGrows(a, b) && StoreGrows(b, c)
    ensures StoreGrows(a, c)
  {
    forall id | id in a ensures id in c && Grows(a[id], c[id]) {
      assert Grows(a[id], b[id]) && Grows(b[id], c[id]);
    }
  }

  /** Nothing that was ever retained is changed or dropped. */
  lemma {:induction false} HistoriesOnlyGrow(workspace: string, stores: seq<Store>, events: seq<Event>, i: nat, j: nat)
    requires IsRun(workspace, stores, events) && i <= j <= |events|
    ensures StoreGrows(stores[i], stores[j])
    decreases j - i
  {
    hide MutateSpec, StoreOk;
    if i < j {
      HistoriesOnlyGrow(workspace, stores, events, i, j - 1);
      RunsStayOk(workspace, stores, events, j - 1);
      var e := events[j - 1];
      assert Leads(workspace, stores[j - 1], e, stores[j]);
      MutationKeepsStoreOk(workspace, stores[j - 1], e.request, e.key, e.now, e.room);
      GrowsOn(stores[i], stores[j - 1], stores[j]);
    }
  }

  /** After an accepted mutation its identity is retained with what it did. */
  ghost predicate Remembers(workspace: string, store: Store, request: Request, key: string, result: MutationResult) {
    var target := Target(workspace, request, key);
    && target in store && key in store[target].mutations
    && key != "" && |key| <= MAX_IDENTITY
    && (!request.Create? ==> target.ScriptId? && target.workspace == workspace)
    && var retained := store[target].mutations[key];
       && retained.payload == request
       && 1 <= retained.revision <= |store[target].revisions|
       && result == Answer(target, store[target], retained.revision, retained.changed)
  }

  lemma FreshIsRemembered(workspace: string, store: Store, request: Request, key: string, record: Record, now: int,
                          room: bool)
    requires StoreOk(workspace, store) && Opens(workspace, store, request, key, record)
    requires FreshOrOk(record, request) && key != "" && |key| <= MAX_IDENTITY
    requires !request.Create? ==> request.scriptId.ScriptId? && request.scriptId.workspace == workspace
    ensures var (after, r) := MutateFresh(store, Target(workspace, request, key), record, request, key, now, room);
            r.Ok? ==> Remembers(workspace, after, request, key, r.value)
  {
    hide Edited, StoreOk, TakenElsewhere, Accounts, HasCause, SameCause, Same;
    if Edited(record.revisions, request, now).Ok? {
      EditedIsNext(record.revisions, request, now);
    }
  }

  lemma AcceptedIsRemembered(workspace: string, store: Store, request: Request, key: string, now: int, room: bool)
    requires StoreOk(workspace, store)
    ensures var (after, r) := MutateSpec(workspace, store, request, key, now, room);
            r.Ok? ==> Remembers(workspace, after, request, key, r.value)
  {
    hide MutateFresh, Accounts;
    var target := Target(workspace, request, key);
    if key != "" && |key| <= MAX_IDENTITY && !TakenElsewhere(store, key, target) {
      var found := if request.Create?
          && target !in store then Ok(Record([], map[])) else ReadRecord(workspace, store, target);
      if found.Ok? {
        if key !in found.value.mutations {
          OpenedRecordIsOk(workspace, store, request, key, found.value);
          FreshIsRemembered(workspace, store, request, key, found.value, now, room);
        } else {
          assert EntryOk(workspace, target, store[target]);
          assert Accounts(store[target].revisions, store[target].mutations[key]);
          AccountsForItsRevision(store[target].revisions, store[target].mutations[key]);
        }
      }
    }
  }

  lemma AccountsForItsRevision(revisions: seq<Revision>, retained: Retained)
    requires Accounts(revisions, retained)
    ensures 1 <= retained.revision <= |revisions|
  {
    hide Edited;
  }

  lemma RememberedStays(workspace: string, before: Store, after: Store, request: Request, key: string,
                        result: MutationResult)
    requires Remembers(workspace, before, request, key, result) && StoreGrows(before, after)
    ensures Remembers(workspace, after, request, key, result)
  {
    assert Grows(before[Target(workspace, request, key)], after[Target(workspace, request, key)]);
  }

  /** A remembered mutation that comes again is answered as before and writes nothing. */
  lemma RememberedIsRepeated(workspace: string, store: Store, request: Request, key: string, result: MutationResult,
                             now: int, room: bool)
    requires StoreOk(workspace, store) && Remembers(workspace, store, request, key, result)
    ensures MutateSpec(workspace, store, request, key, now, room) == (store, Ok(result))
  {
    hide MutateFresh, Accounts, EntryOk, Answer;
    assert !TakenElsewhere(store, key, Target(workspace, request, key));
  }

  /** Whatever came between, repeating an accepted mutation gives the original revision, changed flag and
      diff, and writes nothing: with another clock, on a deleted or edited script, or with a full quota. */
  lemma RepeatingIsHarmless(workspace: string, stores: seq<Store>, events: seq<Event>, i: nat, j: nat, now: int,
                            room: bool)
    requires IsRun(workspace, stores, events) && i < j <= |events|
    ensures StoreOk(workspace, stores[i]) && StoreOk(workspace, stores[j])
    ensures var e := events[i];
            var first := MutateSpec(workspace, stores[i], e.request, e.key, e.now, e.room).1;
            first.Ok? ==> MutateSpec(workspace, stores[j], e.request, e.key, now, room) == (stores[j], first)
  {
    hide MutateSpec, StoreOk, Remembers;
    RunsStayOk(workspace, stores, events, i);
    RunsStayOk(workspace, stores, events, j);
    var e := events[i];
    var first := MutateSpec(workspace, stores[i], e.request, e.key, e.now, e.room).1;
    assert Leads(workspace, stores[i], e, stores[i + 1]);
    if first.Ok? {
      AcceptedIsRemembered(workspace, stores[i], e.request, e.key, e.now, e.room);
      HistoriesOnlyGrow(workspace, stores, events, i + 1, j);
      RememberedStays(workspace, stores[i + 1], stores[j], e.request, e.key, first.value);
      RememberedIsRepeated(workspace, stores[j], e.request, e.key, first.value, now, room);
    }
  }

  /** An identity that is retained anywhere is refused for any other request, on any script. */
  lemma IdentityIsNotReused(workspace: string, store: Store, owner: ScriptId, request: Request, key: string, now: int,
                            room: bool)
    requires StoreOk(workspace, store) && owner in store && key in store[owner].mutations
    requires request != store[owner].mutations[key].payload && key != "" && |key| <= MAX_IDENTITY
    ensures MutateSpec(workspace, store, request, key, now, room) == (store, Err(MutationIdConflict))
  {
    hide MutateFresh, Accounts, Answer, RecordOk;
    assert EntryOk(workspace, owner, store[owner]);
  }

  // ----- The workspace object -----

  class RhinoScriptWorkspace {
    const workspaceId: string
    var records: Store

    ghost predicate Valid()
      reads this
    {
      StoreOk(workspaceId, records)
    }

    constructor (workspaceId: string)
      ensures this.workspaceId == workspaceId && records == map[] && Valid()
    {
      this.workspaceId := workspaceId;
      records := map[];
    }

    method Resolve(id: ScriptId, revision: Option<int>, forExecution: bool) returns (r: Result<Revision, Error>)
      requires Valid()
      ensures match ReadRecord(workspaceId, records, id)
              case Err(error) => r == Err(error)
              case Ok(record) =>
                record.revisions != [] && r == ResolveRevision(record.revisions, revision, forExecution)
    {
      var found := ReadRecord(workspaceId, records, id);
      match found
      case Err(error) => return Err(error);
      case Ok(record) =>
        assert EntryOk(workspaceId, id, record);
        return ResolveRevision(record.revisions, revision, forExecution);
    }

    /** One page of a revision. */
    method Get(id: ScriptId, revision: Option<int>, startLine: int, endLine: Option<int>, offset: int)
      returns (r: Result<(Revision, Pages.Page), Error>)
      requires Valid()
      ensures match ReadRecord(workspaceId, records, id)
              case Err(error) => r == Err(error)
              case Ok(record) =>
                && record.revisions != []
                && match ResolveRevision(record.revisions, revision, false)
                   case Err(error) => r == Err(error)
                   case Ok(resolved) =>
                     var lines := Patches.SourceLines(resolved.source);
                     if Pages.ValidRequest(lines, startLine, endLine, offset) then
                       r == Ok((resolved, Pages.PageAt(lines, startLine, offset, Pages.RequestedEnd(lines, endLine))))
                     else r == Err(InvalidInput)
    {
      var resolved := Resolve(id, revision, false);
      if resolved.Err? {
        return Err(resolved.error);
      }
      var page := Pages.Get(Patches.SourceLines(resolved.value.source), startLine, endLine, offset);
      if page.Err? {
        return Err(InvalidInput);
      }
      return Ok((resolved.value, page.value));
    }

    /** The search for the identity in every other script. */
    method ConflictElsewhere(key: string, target: ScriptId) returns (conflict: bool)
      ensures conflict <==> TakenElsewhere(records, key, target)
    {
      var todo := records.Keys;
      ghost var done: set<ScriptId> := {};
      while todo != {}
        invariant done + todo == records.Keys
        invariant forall id :: id in done ==> id == target || key !in records[id].mutations
      {
        var id :| id in todo;
        if key in records[id].mutations && id != target {
          return true;
        }
        todo, done := todo - {id}, done + {id};
      }
      return false;
    }

    method Mutate(request: Request, key: string, now: int, room: bool) returns (r: Result<MutationResult, Error>)
      requires Valid()
      modifies this
      ensures Valid()
      ensures (records, r) == MutateSpec(workspaceId, old(records), request, key, now, room)
    {
      hide MutateFresh, Answer, Accounts, HasCause, SameCause, Grows;
      MutationKeepsStoreOk(workspaceId, records, request, key, now, room);
      if key == "" || |key| > MAX_IDENTITY {
        return Err(InvalidInput);
      }
      var target := Target(workspaceId, request, key);
      var conflict := ConflictElsewhere(key, target);
      if conflict {
        return Err(MutationIdConflict);
      }
      var record: Record;
      if request.Create? && target !in records {
        record := Record([], map[]);
      } else {
        var found := ReadRecord(workspaceId, records, target);
        if found.Err? {
          return Err(found.error);
        }
        record := found.value;
        assert EntryOk(workspaceId, target, record);
      }
      if key in record.mutations {
        var replay := record.mutations[key];
        if replay.payload != request {
          return Err(MutationIdConflict);
        }
        AccountsForItsRevision(record.revisions, replay);
        return Ok(Answer(target, record, replay.revision, replay.changed));
      }
      r := MutateNew(target, record, request, key, now, room);
    }

    method MutateNew(id: ScriptId, record: Record, request: Request, key: string, now: int, room: bool)
      returns (r: Result<MutationResult, Error>)
      requires NumberedFromOne(record.revisions) && (request.Create? || record.revisions != [])
      modifies this`records
      ensures (records, r) == MutateFresh(old(records), id, record, request, key, now, room)
    {
      hide Edited;
      var edited := Edited(record.revisions, request, now);
      if edited.Err? {
        return Err(edited.error);
      }
      var next := edited.value;
      var changed := AddsRevision(record.revisions, request, next);
      var revisions := if changed then record.revisions + [next] else record.revisions;
      var retained := Retained(request, if changed then next.revision
          else record.revisions[|record.revisions| - 1].revision, changed);
      var written := Record(revisions, record.mutations[key := retained]);
      if !room {
        return Err(WorkspaceLimitReached);
      }
      EditedIsNext(record.revisions, request, now);
      records := records[id := written];
      return Ok(Answer(id, written, retained.revision, retained.changed));
    }
  }
}
