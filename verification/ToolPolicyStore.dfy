/** The settings file and the stores that share it (`tool-policy-store.ts`).  Every method is one stretch
    under the file lock.  Whatever any number of stores do, what is in the file is the last snapshot of a
    history in the sense of `ToolPolicyHistory`. */
module ToolPolicyStore {
  import opened Wrappers
  import opened ToolPolicy
  import opened ToolPolicyHistory
  import opened ToolPolicyWrites

  datatype Unavailable = Unavailable

  /** `Damaged` is a file that does not parse. */
  datatype File = Missing | Damaged | Text(value: Snapshot)

  /** Whether the marker, the settings as `load` completes them, the result of a transition, and the copy of a
      damaged file can be written. */
  datatype Disk = Disk(takesMarker: bool, takesLoad: bool, takesResult: bool, takesBackup: bool)

  predicate Intact(file: File) {
    file.Text? && Decode(file.value).Readable?
  }

  // ----- Histories grow at their end -----

  lemma {:induction false} FollowsInFront<S, E>(states: seq<S>, events: seq<E>, next: (seq<S>, E, S) -> bool,
                                                state: S, e: E, n: nat)
    requires n <= |events| < |states|
    ensures Follows(states + [state], events + [e], next, n) == Follows(states, events, next, n)
  {
    if n > 0 {
      FollowsInFront(states, events, next, state, e, n - 1);
      assert (states + [state])[..n] == states[..n];
    }
  }

  lemma HistoryGrows(h: History, e: Event, next: Snapshot)
    requires h.Valid() && Writes(h.snapshots, e, next)
    ensures History(h.snapshots + [next], h.events + [e]).Valid()
    ensures History(h.snapshots + [next], h.events + [e]).Latest() == next
  {
    hide Writes, Sound;
    FollowsInFront(h.snapshots, h.events, Writes, next, e, |h.events|);
    assert (h.snapshots + [next])[..|h.snapshots|] == h.snapshots;
  }

  lemma FillContinues(h: History, migrated: bool, catalog: Catalog, filled: Snapshot)
    requires h.Valid() && ValidCatalog(catalog)
    requires FillIn(h.Latest(), migrated, catalog) == Some(filled) && filled.revision == h.Latest().revision + 1
    ensures Sound(filled) && Stored(filled)
    ensures History(h.snapshots + [filled], h.events + [Fill(migrated, catalog)]).Valid()
    ensures History(h.snapshots + [filled], h.events + [Fill(migrated, catalog)]).Latest() == filled
  {
    hide FillIn, ValidCatalog, Sound;
    SnapshotsStaySound(h, |h.snapshots| - 1);
    FilledInIsSound(h.Latest(), migrated, catalog);
    StoredIsSound(filled);
    HistoryGrows(h, Fill(migrated, catalog), filled);
  }

  /** A history after a repair: the old one under a new epoch, or a new one. */
  ghost function Repaired(h: Option<History>, epoch: string, catalog: Catalog, next: Snapshot): History {
    if h.Some? then History(h.value.snapshots + [next], h.value.events + [Event.Repair(epoch, catalog)])
    else History([next], [])
  }

  lemma RepairContinues(h: Option<History>, epoch: string, catalog: Catalog)
    requires ValidCatalog(catalog) && 0 < |epoch| <= 128
    requires h.Some? ==>
               && h.value.Valid()
               && forall k :: 0 <= k < |h.value.snapshots| ==> h.value.snapshots[k].epoch != epoch
    ensures CreateDefaults(epoch, catalog).Some?
    ensures var next := CreateDefaults(epoch, catalog).value;
            Stored(next) && Repaired(h, epoch, catalog, next).Valid()
                && Repaired(h, epoch, catalog, next).Latest() == next
  {
    hide ValidCatalog, CreateDefaults, Sound;
    DefaultsAreSound(epoch, catalog);
    var next := CreateDefaults(epoch, catalog).value;
    StoredIsSound(next);
    HistoryBegins(next);
    if h.Some? {
      HistoryGrows(h.value, Event.Repair(epoch, catalog), next);
    }
  }

  lemma HistoryBegins(s: Snapshot)
    requires Sound(s)
    ensures History([s], []).Valid() && History([s], []).Latest() == s
  {
  }

  lemma ReadableIsSound(value: Snapshot)
    requires Decode(value).Readable?
    ensures Sound(Decode(value).snapshot)
  {
    MigratedIsStored(value);
    StoredIsSound(Decode(value).snapshot);
  }

  lemma MissingOrNot<V>(defaults: map<string, V>, known: set<string>)
    ensures defaults - known == map[] <==> defaults.Keys <= known
  {
    assert (defaults - known).Keys == defaults.Keys - known;
    if defaults.Keys <= known {
      assert (defaults - known).Keys == {};
    } else {
      var id :| id in defaults.Keys && id !in known;
      assert id in defaults - known;
    }
  }

  lemma OneMissingMore<V>(known: map<string, V>, defaults: map<string, V>, done: set<string>, id: string)
    requires id in defaults && id !in done
    ensures Completed(known, defaults, done + {id}) ==
              if id in known then Completed(known, defaults, done)
                  else Completed(known, defaults, done)[id := defaults[id]]
  {
  }

  /** The known entries, and the defaults in `done` where nothing is known. */
  function Completed<V>(known: map<string, V>, defaults: map<string, V>, done: set<string>): map<string, V> {
    known + map id | id in defaults && id in done && id !in known :: defaults[id]
  }

  lemma CompletedInFull<V>(known: map<string, V>, defaults: map<string, V>)
    ensures Completed(known, defaults, {}) == known
    ensures Completed(known, defaults, defaults.Keys) == known + (defaults - known.Keys)
  {
  }

  /** Each loop of `load` that adds what the settings lack. */
  method AddMissing<V>(known: map<string, V>, defaults: map<string, V>) returns (r: map<string, V>)
    ensures r == known + (defaults - known.Keys)
  {
    hide Completed;
    CompletedInFull(known, defaults);
    r := known;
    var todo := defaults.Keys;
    ghost var done: set<string> := {};
    while todo != {}
      invariant done + todo == defaults.Keys && done !! todo
      invariant r == Completed(known, defaults, done)
    {
      var id :| id in todo;
      OneMissingMore(known, defaults, done, id);
      if id !in known {
        r := r[id := defaults[id]];
      }
      todo, done := todo - {id}, done + {id};
    }
    assert done == defaults.Keys;
  }

  /** The directory that all stores share. */
  class Directory {
    var file: File
    var marker: bool
    /** The damaged files that repairs have put aside. */
    var backups: seq<File>
    ghost var history: Option<History>

    /** Once some store has taken the file up, what is readable there is the latest snapshot; nobody has
        used an epoch that a repair will draw. */
    ghost predicate Valid()
      reads this
    {
      history.Some? ==>
        && marker && history.value.Valid()
        && (Intact(file) ==> file == Text(history.value.Latest()) && Stored(file.value))
    }

    ghost predicate Unused(epoch: string)
      reads this
    {
      && 0 < |epoch| <= 128
      && (history.Some? ==>
            forall k :: 0 <= k < |history.value.snapshots| ==> history.value.snapshots[k].epoch != epoch)
    }

    constructor (file: File, marker: bool)
      ensures Valid() && this.file == file && this.marker == marker && history == None
    {
      this.file, this.marker, backups, history := file, marker, [], None;
    }

    /** Somebody deletes or damages the file. */
    method Lose(lost: File)
      requires Valid() && !Intact(lost)
      modifies this`file
      ensures Valid() && file == lost
    {
      file := lost;
    }
  }

  /** The latest snapshot is the one in the file. */
  twostate predicate Continues(directory: Directory)
    reads directory
  {
    && directory.history.Some?
    && (old(directory.history).Some? ==>
          && old(directory.history).value.snapshots <= directory.history.value.snapshots
          && old(directory.history).value.events <= directory.history.value.events)
  }

  class ToolPolicyStore {
    const catalog: Catalog
    const directory: Directory
    var observed: bool

    ghost predicate Valid()
      reads this, directory
    {
      ValidCatalog(catalog) && directory.Valid()
    }

    constructor (catalog: Catalog, directory: Directory)
      requires ValidCatalog(catalog) && directory.Valid()
      ensures Valid() && this.catalog == catalog && this.directory == directory && !observed
    {
      this.catalog, this.directory, observed := catalog, directory, false;
    }

    /** The snapshot with everything the catalog has, under the next revision. */
    function Filled(decoded: Snapshot): (filled: Snapshot)
      ensures filled.revision == decoded.revision + 1
    {
      Assign(decoded, DefaultParents(catalog, decoded.revision + 1) - decoded.parents.Keys,
             DefaultTools(catalog, decoded.revision + 1) - decoded.tools.Keys,
             DefaultCredentials(catalog) - decoded.credentials.Keys)
    }

    /** The three fill-ins of `load`. */
    method Fill(decoded: Snapshot) returns (filled: Snapshot)
      ensures filled == Filled(decoded)
    {
      var revision := decoded.revision + 1;
      var tools := AddMissing(decoded.tools, DefaultTools(catalog, revision));
      var parents := AddMissing(decoded.parents, DefaultParents(catalog, revision));
      var credentials := AddMissing(decoded.credentials, DefaultCredentials(catalog));
      filled := Snapshot(2, decoded.epoch, revision, parents, tools, credentials);
    }

    predicate LacksNothing(decoded: Snapshot) {
      && ToolIds(catalog.inventory) <= decoded.tools.Keys
      && ParentDefaults(catalog.plugins).Keys <= decoded.parents.Keys
      && CredentialIds(catalog.plugins) <= decoded.credentials.Keys
    }

    lemma FillInByLack(decoded: Snapshot, migrated: bool)
      ensures FillIn(decoded, migrated, catalog) ==
                if !migrated && LacksNothing(decoded) then Some(decoded)
                else if decoded.revision == MAX_SAFE_INTEGER then None
                else Some(Filled(decoded))
    {
      var revision := decoded.revision + 1;
      MissingOrNot(DefaultTools(catalog, revision), decoded.tools.Keys);
      MissingOrNot(DefaultParents(catalog, revision), decoded.parents.Keys);
      MissingOrNot(DefaultCredentials(catalog), decoded.credentials.Keys);
      assert DefaultTools(catalog, revision).Keys == ToolIds(catalog.inventory);
      assert DefaultParents(catalog, revision).Keys == ParentDefaults(catalog.plugins).Keys;
      assert DefaultCredentials(catalog).Keys == CredentialIds(catalog.plugins);
    }

    /** What `load` finds, or None for the error.  Settings that were there once are never made anew. */
    function Loaded(file: File, marker: bool, seen: bool, epoch: string, disk: Disk): Option<Snapshot> {
      match file
      case Missing =>
        if seen || marker || !disk.takesMarker || !disk.takesLoad then None else CreateDefaults(epoch, catalog)
      case Damaged => None
      case Text(value) =>
        if !Intact(file) || (!marker && !disk.takesMarker) then None
        else
          var decoded := Decode(value);
          var filled := FillIn(decoded.snapshot, decoded.migrated, catalog);
          if filled.Some? && filled.value != decoded.snapshot && !disk.takesLoad then None else filled
    }

    /** The file is complete as it is: nothing that is installed is missing, and it need not be rewritten. */
    predicate NeedsNothing(decoded: Decoded)
      requires decoded.Readable?
    {
      !decoded.migrated && LacksNothing(decoded.snapshot)
    }

    /** Exactly when `load` fails. */
    lemma LoadFailsExactly(file: File, marker: bool, seen: bool, epoch: string, disk: Disk)
      requires ValidCatalog(catalog) && 0 < |epoch| <= 128
      ensures Loaded(file, marker, seen, epoch, disk).None? <==>
                match file
                case Missing => seen || marker || !disk.takesMarker || !disk.takesLoad
                case Damaged => true
                case Text(value) =>
                  || !Decode(value).Readable?
                  || (!marker && !disk.takesMarker)
                  || (!NeedsNothing(Decode(value))
                      && (Decode(value).snapshot.revision == MAX_SAFE_INTEGER || !disk.takesLoad))
    {
      DefaultsAreSound(epoch, catalog);
      hide Decode, ValidCatalog, CreateDefaults, FillIn, LacksNothing, Filled, Sound, Stored;
      if file.Text? && Intact(file) {
        FillInByLack(Decode(file.value).snapshot, Decode(file.value).migrated);
      }
    }

    /** What `load` finds: new settings in a new epoch only where there never were any, and else those of the file, as
        they are if they are complete, and otherwise with what is missing, under the next revision. */
    lemma LoadedIsExact(file: File, marker: bool, seen: bool, epoch: string, disk: Disk)
      requires Loaded(file, marker, seen, epoch, disk).Some?
      ensures var found := Loaded(file, marker, seen, epoch, disk).value;
              && (file.Missing? <==> !file.Text?)
              && (file.Missing? ==> !seen && !marker && Some(found) == CreateDefaults(epoch, catalog))
              && (file.Text? ==>
                    && Decode(file.value).Readable?
                    && var decoded := Decode(file.value);
                       && found.epoch == decoded.snapshot.epoch
                       && if NeedsNothing(decoded) then found == decoded.snapshot
                          else found.revision == decoded.snapshot.revision + 1
                               && FillIn(decoded.snapshot, decoded.migrated, catalog) == Some(found))
    {
      hide Decode, ValidCatalog, CreateDefaults, FillIn, LacksNothing, Sound, Stored;
      if file.Text? && Intact(file) {
        FillInByLack(Decode(file.value).snapshot, Decode(file.value).migrated);
      }
    }

    method Load(epoch: string, disk: Disk) returns (r: Result<Snapshot, Unavailable>)
      requires Valid() && directory.Unused(epoch)
      modifies this`observed, directory
      ensures Valid()
      ensures r == match Loaded(old(directory.file), old(directory.marker), old(observed), epoch, disk)
                   case None => Err(Unavailable.Unavailable)
                   case Some(snapshot) => Ok(snapshot)
      ensures r.Ok? ==> directory.file == Text(r.value) && Sound(r.value) && observed
      ensures r.Ok? ==> Continues(directory) && directory.history.value.Latest() == r.value
      ensures r.Err? ==> directory.file == old(directory.file) && directory.history == old(directory.history)
    {
      if directory.file.Missing? {
        if observed || directory.marker || !disk.takesMarker {
          return Err(Unavailable.Unavailable);
        }
        directory.marker := true;
        DefaultsAreSound(epoch, catalog);
        var initial := CreateDefaults(epoch, catalog).value;
        if !disk.takesLoad {
          return Err(Unavailable.Unavailable);
        }
        directory.file, directory.history, observed := Text(initial), Some(History([initial], [])), true;
        HistoryBegins(initial);
        StoredIsSound(initial);
        return Ok(initial);
      }
      observed := true;
      if !Intact(directory.file) {
        return Err(Unavailable.Unavailable);
      }
      if !directory.marker && !disk.takesMarker {
        return Err(Unavailable.Unavailable);
      }
      directory.marker := true;
      r := Complete(disk);
    }

    /** The rest of `load`, for a readable file: what is missing is added under a new revision. */
    method Complete(disk: Disk) returns (r: Result<Snapshot, Unavailable>)
      requires Valid() && Intact(directory.file) && directory.marker
      modifies directory
      ensures Valid() && directory.marker
      ensures var decoded := Decode(old(directory.file).value);
              var filled := FillIn(decoded.snapshot, decoded.migrated, catalog);
              r == if filled.None? || (filled.value != decoded.snapshot
                  && !disk.takesLoad) then Err(Unavailable.Unavailable)
                   else Ok(filled.value)
      ensures r.Ok? ==> directory.file == Text(r.value) && Sound(r.value)
      ensures r.Ok? ==> Continues(directory) && directory.history.value.Latest() == r.value
      ensures r.Err? ==> directory.file == old(directory.file) && directory.history == old(directory.history)
    {
      hide Sound, ValidCatalog, FillIn, LacksNothing, Filled;
      var decoded := Decode(directory.file.value);
      ReadableIsSound(directory.file.value);
      FillInByLack(decoded.snapshot, decoded.migrated);
      ghost var before := if directory.history.Some? then directory.history.value else History([decoded.snapshot], []);
      HistoryBegins(decoded.snapshot);
      assert before.Valid() && before.Latest() == decoded.snapshot;
      if !decoded.migrated && LacksNothing(decoded.snapshot) {
        directory.history := Some(before);
        return Ok(decoded.snapshot);
      }
      if decoded.snapshot.revision == MAX_SAFE_INTEGER {
        return Err(Unavailable.Unavailable);
      }
      var filled := Fill(decoded.snapshot);
      if !disk.takesLoad {
        return Err(Unavailable.Unavailable);
      }
      FillContinues(before, decoded.migrated, catalog, filled);
      directory.file := Text(filled);
      directory.history := Some(History(before.snapshots + [filled], before.events +
                                             [Event.Fill(decoded.migrated, catalog)]));
      return Ok(filled);
    }

    /** `transition`: a transition of the loaded snapshot, written if it is accepted. */
    method Transact(e: Event, epoch: string, disk: Disk) returns (r: Result<Update, Unavailable>)
      requires Valid() && directory.Unused(epoch) && Versioned(e) && CatalogOk(e)
      modifies this`observed, directory
      ensures Valid()
      ensures var loaded := Loaded(old(directory.file), old(directory.marker), old(observed), epoch, disk);
              r == if loaded.None? then Err(Unavailable.Unavailable)
                   else if Transition(loaded.value, e).Accepted? && !disk.takesResult then Err(Unavailable.Unavailable)
                   else Ok(Transition(loaded.value, e))
      ensures r.Ok? && r.value.Accepted? ==>
                && directory.file == Text(r.value.snapshot) && Continues(directory)
                && directory.history.value.Latest() == r.value.snapshot
                && directory.history.value.events != [] && Last(directory.history.value.events) == e
      ensures r.Ok? && !r.value.Accepted? ==>
                directory.file ==
                  Text(Loaded(old(directory.file), old(directory.marker), old(observed), epoch, disk).value)
    {
      hide Sound, Loaded, Decode, ValidCatalog, Transition;
      var loaded := Load(epoch, disk);
      if loaded.Err? {
        return Err(Unavailable.Unavailable);
      }
      var result := Transition(loaded.value, e);
      if result.Accepted? {
        if !disk.takesResult {
          return Err(Unavailable.Unavailable);
        }
        AcceptedIsSound(loaded.value, e);
        StoredIsSound(result.snapshot);
        ghost var before := directory.history.value;
        HistoryGrows(before, e, result.snapshot);
        directory.file := Text(result.snapshot);
        directory.history := Some(History(before.snapshots + [result.snapshot], before.events + [e]));
      }
      return Ok(result);
    }

    predicate Installed(target: Target, id: string) {
      id in (if target.Parents? then ParentDefaults(catalog.plugins).Keys else ToolIds(catalog.inventory))
    }

    /** `update`: only gates of installed tools and parents can be set. */
    method Update(expected: Version, target: Target, id: string, enabled: bool, epoch: string, disk: Disk)
      returns (r: Result<ToolPolicy.Update, Unavailable>)
      requires Valid() && directory.Unused(epoch)
      modifies this`observed, directory
      ensures Valid()
      ensures var loaded := Loaded(old(directory.file), old(directory.marker), old(observed), epoch, disk);
              r == if loaded.None? then Err(Unavailable.Unavailable)
                   else if !Installed(target, id) then Ok(InvalidUpdate)
                   else if PatchPolicy(loaded.value, expected, target, id, enabled).Accepted? && !disk.takesResult
                   then Err(Unavailable.Unavailable)
                   else Ok(PatchPolicy(loaded.value, expected, target, id, enabled))
      ensures r.Ok? && r.value.Accepted? ==>
                && directory.file == Text(r.value.snapshot)
                && directory.history.Some? && directory.history.value.events != []
                && Last(directory.history.value.events) == Patch(expected, target, id, enabled)
      // the gate is now as was asked for, and nothing else has changed
      ensures r.Ok? && r.value.Accepted? ==>
                var before := Loaded(old(directory.file), old(directory.marker), old(observed), epoch, disk).value;
                && TurnedTo(before, r.value.snapshot, target, id, enabled)
                && OtherGatesStay(before, r.value.snapshot, target, id)
                && r.value.snapshot.credentials == before.credentials
    {
      hide Loaded, Sound, ValidCatalog, PatchPolicy;
      if Installed(target, id) {
        ghost var loaded := Loaded(directory.file, directory.marker, observed, epoch, disk);
        r := Transact(Patch(expected, target, id, enabled), epoch, disk);
        if r.Ok? && r.value.Accepted? {
          PatchedGate(loaded.value, expected, target, id, enabled);
        }
      } else {
        var loaded := Load(epoch, disk);
        return if loaded.Err? then Err(Unavailable.Unavailable) else Ok(InvalidUpdate);
      }
    }

    /** What cannot be read is copied before anything replaces it; what can be read is not replaced. */
    method PutAside(disk: Disk) returns (ok: bool)
      requires Valid()
      modifies directory`backups
      ensures Valid()
      ensures ok <==> directory.file.Missing? || (!Intact(directory.file) && disk.takesBackup)
      ensures directory.backups == old(directory.backups)
                                   + if ok && !directory.file.Missing? then [directory.file] else []
    {
      hide CreateDefaults, ValidCatalog, Decode, Sound, Stored;
      if directory.file.Missing? {
        return true;
      }
      if Intact(directory.file) || !disk.takesBackup {
        return false;
      }
      directory.backups := directory.backups + [directory.file];
      return true;
    }

    /** `repair`: new defaults in a new epoch, but only over a file that cannot be read. */
    method Repair(epoch: string, disk: Disk) returns (r: Result<Snapshot, Unavailable>)
      requires Valid() && directory.Unused(epoch)
      modifies this`observed, directory
      ensures Valid()
      ensures r == if Intact(old(directory.file)) || (!old(directory.file).Missing? && !disk.takesBackup)
                      || (!old(directory.marker) && !disk.takesMarker) || !disk.takesResult
                   then Err(Unavailable.Unavailable)
                   else Ok(CreateDefaults(epoch, catalog).value)
      // what could not be read is never lost
      ensures r.Ok? ==> directory.backups == old(directory.backups)
                                             + if old(directory.file).Missing? then [] else [old(directory.file)]
      ensures r.Ok? ==>
                && directory.file == Text(r.value) && Continues(directory)
                && directory.history.value.Latest() == r.value
      ensures r.Err? ==> directory.file == old(directory.file) && directory.history == old(directory.history)
    {
      hide CreateDefaults, ValidCatalog, Decode, Sound, Stored;
      var kept := PutAside(disk);
      if !kept || (!directory.marker && !disk.takesMarker) {
        return Err(Unavailable.Unavailable);
      }
      directory.marker := true;
      RepairContinues(directory.history, epoch, catalog);
      var snapshot := CreateDefaults(epoch, catalog).value;
      if !disk.takesResult {
        return Err(Unavailable.Unavailable);
      }
      ghost var grown := Repaired(directory.history, epoch, catalog, snapshot);
      directory.file, directory.history, observed := Text(snapshot), Some(grown), true;
      return Ok(snapshot);
    }
  }
}
