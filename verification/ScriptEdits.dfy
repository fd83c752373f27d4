/** What each accepted request makes of a script, field by field, and why a request is refused
    (`rhino-script-workspace.ts`, `mutate`). */
module ScriptEdits {
  import opened Wrappers
  import opened ScriptWorkspace
  import Patches = SourceLinePatches

  function Head(revisions: seq<Revision>): Revision
    requires revisions != []
  {
    revisions[|revisions| - 1]
  }

  /** The new revision has the fields that the request sets, and all others from the head. */
  ghost predicate IsMadeBy(revisions: seq<Revision>, request: Request, next: Revision) {
    && next.revision == |revisions| + 1
    && next.hash == Digest(next.source)
    && match request
       case Create(name, language, source) =>
         && next.name == name && next.language == language && next.source == Patches.NormalizeSource(source)
         && (revisions == [] ==> !next.deleted)
       case Patch(_, _, patches) =>
         && revisions != [] && Patches.ApplySpec(Head(revisions).source, patches) == Ok(next.source)
         && KeepsOthers(Head(revisions), next, false, true, false)
       case SetSource(_, _, source) =>
         && revisions != [] && next.source == Patches.NormalizeSource(source)
         && KeepsOthers(Head(revisions), next, false, true, false)
       case Rename(_, _, name) =>
         revisions != [] && next.name == name && KeepsOthers(Head(revisions), next, true, false, false)
       case Restore(_, _, from) =>
         && revisions != [] && 1 <= from <= |revisions| && next.source == revisions[from - 1].source
         && KeepsOthers(Head(revisions), next, false, true, false)
       case Delete(_, _) =>
         revisions != [] && next.deleted && KeepsOthers(Head(revisions), next, false, false, true)
       case Undelete(_, _) =>
         revisions != [] && !next.deleted && KeepsOthers(Head(revisions), next, false, false, true)
  }

  /** The language, and whichever of name, source and deletion is not set, are those of the head. */
  predicate KeepsOthers(head: Revision, next: Revision, name: bool, source: bool, deleted: bool) {
    && next.language == head.language
    && (!name ==> next.name == head.name)
    && (!source ==> next.source == head.source)
    && (!deleted ==> next.deleted == head.deleted)
  }

  lemma EditedIsMadeBy(revisions: seq<Revision>, request: Request, now: int)
    requires NumberedFromOne(revisions) && (request.Create? || revisions != [])
    requires Edited(revisions, request, now).Ok?
    ensures IsMadeBy(revisions, request, Edited(revisions, request, now).value)
    ensures Edited(revisions, request, now).value.createdAt == now
  {
    EditedIsNext(revisions, request, now);
    hide Patches.ApplySpec, Patches.NormalizeSource, GoodName;
  }

  function Old(store: Store, id: ScriptId): Record {
    if id in store then store[id] else Record([], map[])
  }

  /** The request adds the revision that it makes. */
  predicate Adds(was: Record, request: Request, next: Revision) {
    || request.Restore? || was.revisions == []
    || next.name != Head(was.revisions).name || next.source != Head(was.revisions).source
    || next.deleted != Head(was.revisions).deleted
  }

  /** The script afterwards: with the revision or without, and the identity retained with what came of it. */
  function Recorded(was: Record, request: Request, key: string, next: Revision): Record {
    if Adds(was, request, next)
    then Record(was.revisions + [next], was.mutations[key := Retained(request, next.revision, true)])
    else Record(was.revisions, was.mutations[key := Retained(request, |was.revisions|, false)])
  }

  /** The answer: the revision, and the source before it. */
  function Told(id: ScriptId, was: Record, request: Request, next: Revision): MutationResult {
    if Adds(was, request, next)
    then MutationResult(id, next, true, if was.revisions == [] then "" else Head(was.revisions).source)
    else MutationResult(id, Head(was.revisions), false, Head(was.revisions).source)
  }

  lemma StoredIsNumbered(workspace: string, store: Store, id: ScriptId)
    requires StoreOk(workspace, store) && id in store
    ensures id.ScriptId? && id.workspace == workspace
    ensures NumberedFromOne(store[id].revisions) && store[id].revisions != []
  {
    assert EntryOk(workspace, id, store[id]);
  }

  /** The record that a mutation opens, if it opens one. */
  lemma RecordIsFound(workspace: string, store: Store, request: Request, id: ScriptId)
    requires StoreOk(workspace, store)
    ensures id in store ==>
              && ReadRecord(workspace, store, id) == Ok(store[id])
              && NumberedFromOne(store[id].revisions) && store[id].revisions != []
    ensures id !in store ==> ReadRecord(workspace, store, id).Err? && NumberedFromOne([])
  {
    if id in store {
      StoredIsNumbered(workspace, store, id);
    }
    hide StoreOk;
  }

  lemma AcceptedIsFresh(workspace: string, store: Store, request: Request, key: string, now: int, room: bool)
    requires StoreOk(workspace, store) && MutateSpec(workspace, store, request, key, now, room).1.Ok?
    requires key !in Old(store, Target(workspace, request, key)).mutations
    ensures var id := Target(workspace, request, key);
            var was := Old(store, id);
            && NumberedFromOne(was.revisions) && (request.Create? || was.revisions != [])
            && MutateSpec(workspace, store, request, key, now, room)
               == MutateFresh(store, id, was, request, key, now, room)
  {
    hide MutateFresh, StoreOk, TakenElsewhere, NumberedFromOne, Answer, EntryOk, RecordOk, Target;
    var id := Target(workspace, request, key);
    RecordIsFound(workspace, store, request, id);
  }

  lemma FreshIsMade(store: Store, id: ScriptId, was: Record, request: Request, key: string, now: int, room: bool)
    returns (next: Revision)
    requires NumberedFromOne(was.revisions) && (request.Create? || was.revisions != [])
    requires MutateFresh(store, id, was, request, key, now, room).1.Ok?
    ensures room && Edited(was.revisions, request, now) == Ok(next)
    ensures MutateFresh(store, id, was, request, key, now, room)
         == (store[id := Recorded(was, request, key, next)], Ok(Told(id, was, request, next)))
  {
    next := Edited(was.revisions, request, now).value;
    EditedIsNext(was.revisions, request, now);
    hide Edited;
  }

  /** A request with a new identity is recorded: it adds the revision that it makes, if that differs from the head or
      restores an earlier one, and its identity is retained with the revision and with whether it added one.  No other
      script changes, and the answer is that revision with the source before it. */
  lemma AcceptedRequestIsRecorded(workspace: string, store: Store, request: Request, key: string, now: int, room: bool)
    returns (next: Revision)
    requires StoreOk(workspace, store) && MutateSpec(workspace, store, request, key, now, room).1.Ok?
    requires key !in Old(store, Target(workspace, request, key)).mutations
    ensures var (after, r) := MutateSpec(workspace, store, request, key, now, room);
            var id := Target(workspace, request, key);
            var was := Old(store, id);
            && room && IsMadeBy(was.revisions, request, next) && next.createdAt == now
            && (was.revisions == [] ==> request.Create?)
            && after == store[id := Recorded(was, request, key, next)]
            && r == Ok(Told(id, was, request, next))
  {
    var id := Target(workspace, request, key);
    var was := Old(store, id);
    AcceptedIsFresh(workspace, store, request, key, now, room);
    hide MutateFresh, MutateSpec, StoreOk, Edited, IsMadeBy;
    next := FreshIsMade(store, id, was, request, key, now, room);
    EditedIsMadeBy(was.revisions, request, now);
  }

  /** Why `Edited` makes nothing, in the order of the checks. */
  lemma EditRefusalIsExact(revisions: seq<Revision>, request: Request, now: int)
    requires NumberedFromOne(revisions) && revisions != [] && !request.Create?
    ensures var r := Edited(revisions, request, now);
            var head := Head(revisions);
            var current := request.expectedRevision >= 1 && request.expectedRevision == |revisions|;
            var open := current && (!head.deleted || request.Delete? || request.Undelete?);
            && (request.expectedRevision < 1 ==> r == Err(InvalidInput))
            && (request.expectedRevision >= 1 && !current <==> r == Err(RevisionConflict(|revisions|)))
            && (current && !open <==> r == Err(ScriptDeleted))
            && (open && request.Patch? && Patches.ApplySpec(head.source, request.patches).Err? ==>
                  r == Err(PatchFailed(Patches.ApplySpec(head.source, request.patches).error)))
            && (r.Err? && r.error.PatchFailed? ==>
                  request.Patch? && Patches.ApplySpec(head.source, request.patches) == Err(r.error.error))
            && (open && request.Restore? && request.fromRevision < 1 ==> r == Err(InvalidInput))
            && (open && request.Restore? && request.fromRevision > |revisions| <==> r == Err(RevisionNotFound))
            && (open && request.Rename? && !GoodName(request.name) ==> r == Err(InvalidInput))
  {
    hide Patches.ApplySpec, Patches.NormalizeSource, GoodName;
  }

  /** An edit that passes these checks is refused for its name, and then for its length, exactly if they are bad. */
  lemma NameAndLengthAreChecked(revisions: seq<Revision>, request: Request, now: int)
    requires NumberedFromOne(revisions) && (request.Create? || revisions != []) && HeadAccepts(revisions, request)
    requires Changed(revisions, request, now).Ok?
    ensures var next := Changed(revisions, request, now).value;
            var r := Edited(revisions, request, now);
            && (r == Err(InvalidInput) <==> !GoodName(next.name))
            && (r == Err(SourceLimitReached) <==> GoodName(next.name) && |next.source| > MAX_SOURCE)
            && (r.Ok? <==> GoodName(next.name) && |next.source| <= MAX_SOURCE)
            && IsMadeBy(revisions, request, next.(hash := Digest(next.source)))
  {
    hide Patches.ApplySpec, Patches.NormalizeSource, GoodName;
  }

  /** The identity is usable, and no other script has it. */
  predicate IsMine(store: Store, key: string, id: ScriptId) {
    && key != "" && |key| <= MAX_IDENTITY
    && !exists other :: other in store && other != id && key in store[other].mutations
  }

  /** Why a mutation is refused before its script is looked at. */
  lemma MutationRefusalIsExact(workspace: string, store: Store, request: Request, key: string, now: int, room: bool)
    requires StoreOk(workspace, store)
    ensures var r := MutateSpec(workspace, store, request, key, now, room).1;
            var id := Target(workspace, request, key);
            var missing := IsMine(store, key, id) && id !in store && !request.Create?;
            && (key == "" || |key| > MAX_IDENTITY ==> r == Err(InvalidInput))
            && (key != "" && |key| <= MAX_IDENTITY && !IsMine(store, key, id) ==> r == Err(MutationIdConflict))
            && (missing ==>
                  r == Err(if id.Malformed? then InvalidId
                           else if id.workspace != workspace then WorkspaceMismatch
                           else NotFound))
  {
    hide MutateFresh, StoreOk, Answer;
  }

  /** A repeated identity is refused exactly for another request; a new one exactly if the edit is, or for room. */
  lemma OpenedMutationDecides(workspace: string, store: Store, request: Request, key: string, now: int, room: bool)
    requires StoreOk(workspace, store) && IsMine(store, key, Target(workspace, request, key))
    requires Target(workspace, request, key) in store || request.Create?
    ensures var r := MutateSpec(workspace, store, request, key, now, room).1;
            var was := Old(store, Target(workspace, request, key));
            && (key in was.mutations ==>
                  if was.mutations[key].payload != request then r == Err(MutationIdConflict) else r.Ok?)
            && (key !in was.mutations ==>
                  && (request.Create? || was.revisions != [])
                  && var edited := Edited(was.revisions, request, now);
                     if edited.Err? then r == Err(edited.error)
                     else if room then r.Ok?
                     else r == Err(WorkspaceLimitReached))
  {
    hide Edited, StoreOk, Written, Answer, NumberedFromOne, EntryOk, RecordOk, ReadRecord, Target;
    var id := Target(workspace, request, key);
    RecordIsFound(workspace, store, request, id);
  }

  /** A revision that is asked for by number is the one of that number; without a number it is the head; the errors
      are those of a number below one, of one that does not exist, and of a deleted script that is to be run. */
  lemma ResolvedRevisionIsExact(revisions: seq<Revision>, revision: Option<int>, forExecution: bool)
    requires NumberedFromOne(revisions) && revisions != []
    ensures var r := ResolveRevision(revisions, revision, forExecution);
            var barred := forExecution && Head(revisions).deleted;
            && (r == Err(ScriptDeleted) <==> barred)
            && (r == Err(InvalidInput) <==> !barred && revision.Some? && revision.value < 1)
            && (r == Err(RevisionNotFound) <==> !barred && revision.Some? && revision.value > |revisions|)
            && (r.Ok? <==> !barred && (revision.Some? ==> 1 <= revision.value <= |revisions|))
            && (r.Ok? ==> r.value in revisions
                          && r.value.revision == if revision.Some? then revision.value else |revisions|)
  {
  }
}
