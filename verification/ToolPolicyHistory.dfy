/** Whole histories of the settings file: every snapshot that was ever written, in order, from the
    first one looked at, with all transitions, catalog fill-ins and repairs between them.

    A session and a manual activation remember only a revision; a credential admission remembers
    only a generation.  What that is enough to conclude is proved here. */
module ToolPolicyHistory {
  import opened Wrappers
  import opened ToolPolicy

  /** A write under the store lock.  A repair draws a fresh epoch (`randomUUID`). */
  predicate Writes(earlier: seq<Snapshot>, e: Event, next: Snapshot) {
    && earlier != []
    && CatalogOk(e)
    && match e
       case Fill(migrated, catalog) => FillIn(Last(earlier), migrated, catalog) == Some(next) && next != Last(earlier)
       case Repair(epoch, catalog) =>
         && |epoch| <= 128
         && CreateDefaults(epoch, catalog) == Some(next)
         && forall k :: 0 <= k < |earlier| ==> earlier[k].epoch != epoch
       case _ => Transition(Last(earlier), e) == Accepted(next)
  }

  /** The first `n` events each lead to the next state, given all states before it. */
  ghost predicate Follows<S, E>(states: seq<S>, events: seq<E>, next: (seq<S>, E, S) -> bool, n: nat)
    requires n <= |events| < |states|
  {
    n == 0 || (Follows(states, events, next, n - 1) && next(states[..n], events[n - 1], states[n]))
  }

  lemma {:induction false} LinkAt<S, E>(states: seq<S>, events: seq<E>, next: (seq<S>, E, S) -> bool, n: nat, k: nat)
    requires k < n <= |events| < |states| && Follows(states, events, next, n)
    ensures next(states[..k + 1], events[k], states[k + 1])
  {
    if k < n - 1 {
      LinkAt(states, events, next, n - 1, k);
    }
  }

  datatype History = History(snapshots: seq<Snapshot>, events: seq<Event>) {
    ghost predicate Valid() {
      Linked() && Sound(snapshots[0])
    }

    ghost predicate Linked() {
      |snapshots| == |events| + 1 && Follows(snapshots, events, Writes, |events|)
    }

    ghost function Latest(): Snapshot
      requires Valid()
    {
      Last(snapshots)
    }
  }

  lemma StepAt(h: History, k: nat)
    requires h.Linked() && k < |h.events|
    ensures Last(h.snapshots[..k + 1]) == h.snapshots[k]
    ensures Writes(h.snapshots[..k + 1], h.events[k], h.snapshots[k + 1])
  {
    hide FillIn, CreateDefaults, Transition, CatalogOk;
    LinkAt(h.snapshots, h.events, Writes, |h.events|, k);
  }

  lemma {:induction false} SnapshotsStaySound(h: History, k: nat)
    requires h.Valid() && k < |h.snapshots|
    ensures Sound(h.snapshots[k])
  {
    hide Sound, Writes, Follows;
    if k > 0 {
      SnapshotsStaySound(h, k - 1);
      StepAt(h, k - 1);
      WriteIsSound(h.snapshots[k - 1], h.snapshots[..k], h.events[k - 1], h.snapshots[k]);
    }
  }

  lemma WriteIsSound(s: Snapshot, earlier: seq<Snapshot>, e: Event, next: Snapshot)
    requires Sound(s) && earlier != [] && Last(earlier) == s && Writes(earlier, e, next)
    ensures Sound(next)
    ensures !e.Repair? ==> next.epoch == s.epoch && next.revision == s.revision + 1
  {
    match e
    case Fill(migrated, catalog) => FilledInIsSound(s, migrated, catalog);
    case Repair(epoch, catalog) => DefaultsAreSound(epoch, catalog);
    case _ => AcceptedIsSound(s, e); AcceptedAdvances(s, e);
  }

  lemma AcceptedAdvances(s: Snapshot, e: Event)
    requires Versioned(e) && Transition(s, e).Accepted?
    ensures Transition(s, e).snapshot.epoch == s.epoch && Transition(s, e).snapshot.revision == s.revision + 1
    ensures e.expected == Version(s.epoch, s.revision)
  {
  }

  // ----- Versions -----

  /** A repair leaves all earlier epochs behind; every other write stays in its epoch and raises
      the revision by one. */
  predicate VersionStep(h: History, k: nat)
    requires k < |h.events| && |h.snapshots| == |h.events| + 1
  {
    if h.events[k].Repair?
    then forall i :: 0 <= i <= k ==> h.snapshots[i].epoch != h.snapshots[k + 1].epoch
    else h.snapshots[k + 1].epoch == h.snapshots[k].epoch && h.snapshots[k + 1].revision == h.snapshots[k].revision + 1
  }

  predicate Versions(h: History) {
    |h.snapshots| == |h.events| + 1 && forall k :: 0 <= k < |h.events| ==> VersionStep(h, k)
  }

  lemma VersionAfterWrite(h: History, k: nat)
    requires h.Valid() && k < |h.events|
    ensures VersionStep(h, k)
  {
    StepAt(h, k);
    SnapshotsStaySound(h, k);
    WriteIsSound(h.snapshots[k], h.snapshots[..k + 1], h.events[k], h.snapshots[k + 1]);
    assert forall i :: 0 <= i <= k ==> h.snapshots[..k + 1][i] == h.snapshots[i];
  }

  lemma HistoriesHaveVersions(h: History)
    requires h.Valid()
    ensures Versions(h)
  {
    forall k | 0 <= k < |h.events| ensures VersionStep(h, k) {
      VersionAfterWrite(h, k);
    }
  }

  /** An epoch is one unbroken stretch of the history, and within it every write raises the
      revision by exactly one. */
  lemma {:induction false} EpochsAreStretches(h: History, i: nat, j: nat)
    requires Versions(h) && i <= j < |h.snapshots| && h.snapshots[i].epoch == h.snapshots[j].epoch
    ensures h.snapshots[j].revision == h.snapshots[i].revision + (j - i)
    ensures forall k :: i <= k <= j ==> h.snapshots[k].epoch == h.snapshots[i].epoch
    ensures forall k :: i <= k < j ==> !h.events[k].Repair?
  {
    if i < j {
      assert VersionStep(h, j - 1);
      EpochsAreStretches(h, i, j - 1);
    }
  }

  lemma VersionsAreDistinct(h: History, i: nat, j: nat)
    requires Versions(h) && i < j < |h.snapshots|
    ensures h.snapshots[i].epoch != h.snapshots[j].epoch || h.snapshots[i].revision < h.snapshots[j].revision
  {
    if h.snapshots[i].epoch == h.snapshots[j].epoch {
      EpochsAreStretches(h, i, j);
    }
  }

  lemma UpdateNamesItsVersion(h: History, k: nat)
    requires h.Valid() && k < |h.events| && Versioned(h.events[k])
    ensures h.events[k].expected == Version(h.snapshots[k].epoch, h.snapshots[k].revision)
  {
    StepAt(h, k);
    AcceptedAdvances(h.snapshots[k], h.events[k]);
  }

  /** Of all updates that name one version, at most one is ever accepted. */
  lemma OneUpdatePerVersion(h: History, i: nat, j: nat)
    requires h.Valid() && i < j < |h.events| && Versioned(h.events[i]) && Versioned(h.events[j])
    ensures h.events[i].expected != h.events[j].expected
  {
    UpdateNamesItsVersion(h, i);
    UpdateNamesItsVersion(h, j);
    HistoriesHaveVersions(h);
    VersionsAreDistinct(h, i, j);
  }

  // ----- Gates -----

  function Gates(s: Snapshot, target: Target): map<string, Gate> {
    if target.Parents? then s.parents else s.tools
  }

  predicate IsOn(s: Snapshot, target: Target, id: string) {
    id in Gates(s, target) && Gates(s, target)[id].enabled
  }

  /** A reset whose catalog has the gate: it is stamped anew, also if it stays on. */
  predicate Restamps(e: Event, target: Target, id: string) {
    e.Reset? && id in if target.Parents? then ParentDefaults(e.catalog.plugins).Keys else ToolIds(e.catalog.inventory)
  }

  /** A gate that is on was already on, since the same revision, or was stamped by this write; a reset that
      has it stamps it, and all writes but these and repairs leave alone a gate that stays on. */
  predicate GateChange(before: Snapshot, e: Event, after: Snapshot, target: Target, id: string)
    requires IsOn(after, target, id)
  {
    && (|| Gates(after, target)[id].enabledAt == after.revision
        || (!e.Repair? && IsOn(before, target, id) && Gates(before, target)[id] == Gates(after, target)[id]))
    && (Restamps(e, target, id) ==> Gates(after, target)[id].enabledAt == after.revision)
    && (IsOn(before, target, id) && !Restamps(e, target, id) && !e.Repair? ==>
          Gates(before, target)[id] == Gates(after, target)[id])
  }

  predicate GateStep(h: History, k: nat, target: Target, id: string)
    requires k < |h.events| && |h.snapshots| == |h.events| + 1
  {
    IsOn(h.snapshots[k + 1], target, id) ==>
      GateChange(h.snapshots[k], h.events[k], h.snapshots[k + 1], target, id)
  }

  predicate GateHistory(h: History, target: Target, id: string) {
    Versions(h) && forall k :: 0 <= k < |h.events| ==> GateStep(h, k, target, id)
  }

  lemma GateAfterCatalogWrite(before: Snapshot, earlier: seq<Snapshot>, e: Event, after: Snapshot, target: Target,
                              id: string)
    requires Writes(earlier, e, after) && Last(earlier) == before && IsOn(after, target, id)
    requires e.Reset? || e.Fill? || e.Repair?
    ensures GateChange(before, e, after, target, id)
  {
    hide ValidCatalog, ParentDefaults, ToolIds, DefaultCredentials;
    match e
    case Reset(_, _) =>
    case Fill(_, _) =>
    case Repair(_, _) =>
  }

  lemma GateAfterWrite(before: Snapshot, earlier: seq<Snapshot>, e: Event, after: Snapshot, target: Target, id: string)
    requires Writes(earlier, e, after) && Last(earlier) == before && IsOn(after, target, id)
    ensures GateChange(before, e, after, target, id)
  {
    if e.Reset? || e.Fill? || e.Repair? {
      GateAfterCatalogWrite(before, earlier, e, after, target, id);
    } else {
      hide FillIn, CreateDefaults, ResetPolicy, CatalogOk;
    }
  }

  lemma HistoriesHaveGates(h: History, target: Target, id: string)
    requires h.Valid()
    ensures GateHistory(h, target, id)
  {
    HistoriesHaveVersions(h);
    forall k | 0 <= k < |h.events| ensures GateStep(h, k, target, id) {
      if IsOn(h.snapshots[k + 1], target, id) {
        StepAt(h, k);
        GateAfterWrite(h.snapshots[k], h.snapshots[..k + 1], h.events[k], h.snapshots[k + 1], target, id);
      }
    }
  }

  /** The stamp tells the truth about the whole history: a gate that is on now was on in every
      snapshot of its epoch from the stamped revision on. */
  lemma {:induction false} StampsAreTrue(h: History, n: nat, j: nat, target: Target, id: string)
    requires GateHistory(h, target, id) && j <= n < |h.snapshots| && IsOn(h.snapshots[n], target, id)
    requires h.snapshots[j].epoch == h.snapshots[n].epoch
    requires h.snapshots[j].revision >= Gates(h.snapshots[n], target)[id].enabledAt
    ensures IsOn(h.snapshots[j], target, id)
  {
    if j < n {
      EpochsAreStretches(h, j, n);
      assert GateStep(h, n - 1, target, id);
      StampsAreTrue(h, n - 1, j, target, id);
    }
  }

  /** What a session was built from: the snapshot that was current when it was applied. */
  predicate AppliedAt(h: History, session: Session, k: nat) {
    k < |h.snapshots| && session.epoch == h.snapshots[k].epoch && session.appliedRevision == h.snapshots[k].revision
  }

  lemma SessionsAreAppliedAt(h: History, k: nat, eligible: set<Descriptor>, runtime: Runtime, progressive: bool,
                             manual: set<string>)
    requires k < |h.snapshots|
    ensures AppliedAt(h, ReconcileSession(eligible, h.snapshots[k], runtime, progressive, manual), k)
  {
  }

  /** The checks that a callable tool has passed. */
  lemma CallableChecks(tool: Descriptor, policy: Snapshot, runtime: Runtime, session: Session, discovery: bool)
    requires ResolveToolPolicy(tool, Some(policy), runtime, session, discovery).callable
    ensures IsOn(policy, Tools, tool.id) && IsOn(policy, Parents, tool.parent)
    ensures session.epoch == policy.epoch && session.appliedRevision <= policy.revision && tool.id in session.activeIds
    ensures policy.tools[tool.id].enabledAt <= session.appliedRevision
        && policy.parents[tool.parent].enabledAt <= session.appliedRevision
    ensures FirstUnmet(tool.requirements, tool.owner, policy, runtime).None?
  {
  }

  // ----- Nothing is refused for nothing -----

  lemma StampIsNotAhead(h: History, k: nat, target: Target, id: string)
    requires h.Valid() && k < |h.snapshots| && IsOn(h.snapshots[k], target, id)
    ensures Gates(h.snapshots[k], target)[id].enabledAt <= h.snapshots[k].revision
  {
    SnapshotsStaySound(h, k);
    assert GoodGate(Gates(h.snapshots[k], target)[id], h.snapshots[k].revision);
  }

  lemma {:induction false} StampStaysOld(h: History, k: nat, n: nat, target: Target, id: string)
    requires GateHistory(h, target, id) && k <= n < |h.snapshots| && h.snapshots[k].epoch == h.snapshots[n].epoch
    requires IsOn(h.snapshots[k], target, id) ==> Gates(h.snapshots[k], target)[id].enabledAt <= h.snapshots[k].revision
    requires forall j :: k <= j < n ==> !Restamps(h.events[j], target, id)
    requires forall j :: k <= j <= n ==> IsOn(h.snapshots[j], target, id)
    ensures IsOn(h.snapshots[n], target, id) && Gates(h.snapshots[n], target)[id].enabledAt <= h.snapshots[k].revision
  {
    if k < n {
      EpochsAreStretches(h, k, n);
      StampStaysOld(h, k, n - 1, target, id);
      assert GateStep(h, n - 1, target, id) && IsOn(h.snapshots[n], target, id);
    }
  }

  /** A stamp newer than a revision stays so. */
  lemma {:induction false} StampStaysNew(h: History, j: nat, n: nat, target: Target, id: string, revision: int)
    requires GateHistory(h, target, id) && j <= n < |h.snapshots| && h.snapshots[j].epoch == h.snapshots[n].epoch
    requires forall i :: j <= i <= n ==> IsOn(h.snapshots[i], target, id)
    requires IsOn(h.snapshots[j], target, id) && Gates(h.snapshots[j], target)[id].enabledAt > revision
    requires h.snapshots[j].revision > revision
    ensures IsOn(h.snapshots[n], target, id) && Gates(h.snapshots[n], target)[id].enabledAt > revision
  {
    if j < n {
      EpochsAreStretches(h, j, n);
      StampStaysNew(h, j, n - 1, target, id, revision);
      assert GateStep(h, n - 1, target, id) && IsOn(h.snapshots[n], target, id);
    }
  }

  /** A gate with an old stamp at the end was not stamped by any reset in between. */
  lemma OldStampMeansNoReset(h: History, k: nat, j: nat, n: nat, target: Target, id: string)
    requires GateHistory(h, target, id) && k <= j < n < |h.snapshots| && h.snapshots[k].epoch == h.snapshots[n].epoch
    requires forall i :: k <= i <= n ==> IsOn(h.snapshots[i], target, id)
    requires IsOn(h.snapshots[n], target, id)
    requires Gates(h.snapshots[n], target)[id].enabledAt <= h.snapshots[k].revision
    ensures !Restamps(h.events[j], target, id)
  {
    EpochsAreStretches(h, k, n);
    EpochsAreStretches(h, k, j + 1);
    if Restamps(h.events[j], target, id) {
      assert GateStep(h, j, target, id) && IsOn(h.snapshots[j + 1], target, id);
      StampStaysNew(h, j + 1, n, target, id, h.snapshots[k].revision);
    }
  }

  predicate OnThroughout(h: History, k: nat, tool: Descriptor) {
    forall j :: k <= j < |h.snapshots|
        ==> IsOn(h.snapshots[j], Tools, tool.id) && IsOn(h.snapshots[j], Parents, tool.parent)
  }

  predicate PassesGates(tool: Descriptor, policy: Snapshot, session: Session) {
    var preflight := CheckPreflight(tool, Some(policy), session);
    preflight.None? || preflight == Some(ActivationRequired)
  }

  lemma GatesPassedMeansOn(h: History, k: nat, tool: Descriptor, session: Session)
    requires GateHistory(h, Tools, tool.id) && GateHistory(h, Parents, tool.parent) && AppliedAt(h, session, k)
    requires PassesGates(tool, Last(h.snapshots), session)
    ensures OnThroughout(h, k, tool)
  {
    var n := |h.snapshots| - 1;
    EpochsAreStretches(h, k, n);
    forall j | k <= j <= n ensures IsOn(h.snapshots[j], Tools, tool.id) && IsOn(h.snapshots[j], Parents, tool.parent) {
      EpochsAreStretches(h, k, j);
      StampsAreTrue(h, n, j, Tools, tool.id);
      StampsAreTrue(h, n, j, Parents, tool.parent);
    }
  }

  /** No disable/re-enable pair is ever missed: a tool that is callable in a session was on, and so
      was its parent, in every single snapshot from the one the session was applied at to the
      latest, whatever happened in between, and no repair came between. */
  lemma CallableMeansNeverDisabled(h: History, k: nat, tool: Descriptor, runtime: Runtime, session: Session,
                                   discovery: bool)
    requires h.Valid() && AppliedAt(h, session, k)
    requires ResolveToolPolicy(tool, Some(h.Latest()), runtime, session, discovery).callable
    ensures OnThroughout(h, k, tool) && tool.id in session.activeIds
    ensures forall j :: k <= j < |h.events| ==> !h.events[j].Repair?
  {
    CallableChecks(tool, h.Latest(), runtime, session, discovery);
    HistoriesHaveGates(h, Tools, tool.id);
    HistoriesHaveGates(h, Parents, tool.parent);
    GatesPassedMeansOn(h, k, tool, session);
    EpochsAreStretches(h, k, |h.snapshots| - 1);
  }

  /** No reset since then has stamped the tool or its parent. */
  predicate NotRestamped(h: History, k: nat, tool: Descriptor) {
    forall j :: k <= j < |h.events| ==>
      !Restamps(h.events[j], Tools, tool.id) && !Restamps(h.events[j], Parents, tool.parent)
  }

  lemma PassedMeansNotRestamped(h: History, k: nat, tool: Descriptor, session: Session)
    requires GateHistory(h, Tools, tool.id) && GateHistory(h, Parents, tool.parent) && AppliedAt(h, session, k)
    requires PassesGates(tool, Last(h.snapshots), session) && OnThroughout(h, k, tool)
    ensures NotRestamped(h, k, tool)
  {
    assert IsOn(Last(h.snapshots), Tools, tool.id) && IsOn(Last(h.snapshots), Parents, tool.parent);
    hide GateHistory, Restamps;
    forall j | k <= j < |h.events|
      ensures !Restamps(h.events[j], Tools, tool.id) && !Restamps(h.events[j], Parents, tool.parent)
    {
      OldStampMeansNoReset(h, k, j, |h.snapshots| - 1, Tools, tool.id);
      OldStampMeansNoReset(h, k, j, |h.snapshots| - 1, Parents, tool.parent);
    }
  }

  lemma NotRestampedMeansPassed(h: History, k: nat, tool: Descriptor, session: Session)
    requires h.Valid() && AppliedAt(h, session, k) && h.Latest().epoch == session.epoch
    requires OnThroughout(h, k, tool) && NotRestamped(h, k, tool)
    ensures PassesGates(tool, h.Latest(), session)
  {
    var n := |h.snapshots| - 1;
    HistoriesHaveGates(h, Tools, tool.id);
    HistoriesHaveGates(h, Parents, tool.parent);
    StampIsNotAhead(h, k, Tools, tool.id);
    StampIsNotAhead(h, k, Parents, tool.parent);
    EpochsAreStretches(h, k, n);
    hide GateHistory, Restamps, Sound, Follows;
    StampStaysOld(h, k, n, Tools, tool.id);
    StampStaysOld(h, k, n, Parents, tool.parent);
  }

  /** The gates let a session through exactly when the epoch is still its own, they were on all the time since it
      was applied, and no reset has stamped them.  A repair ends the epoch, and a reset stamps every installed
      gate anew, also one that stays on; nothing else is ever refused for nothing. */
  lemma PendingExposureIsExact(h: History, k: nat, tool: Descriptor, session: Session)
    requires h.Valid() && AppliedAt(h, session, k)
    ensures PassesGates(tool, h.Latest(), session) <==>
            h.Latest().epoch == session.epoch && OnThroughout(h, k, tool) && NotRestamped(h, k, tool)
  {
    if PassesGates(tool, h.Latest(), session) {
      HistoriesHaveGates(h, Tools, tool.id);
      HistoriesHaveGates(h, Parents, tool.parent);
      assert h.Latest().epoch == session.epoch;
      hide GateHistory, PassesGates, OnThroughout, NotRestamped, Sound, Follows;
      GatesPassedMeansOn(h, k, tool, session);
      PassedMeansNotRestamped(h, k, tool, session);
    } else if h.Latest().epoch == session.epoch && OnThroughout(h, k, tool) && NotRestamped(h, k, tool) {
      NotRestampedMeansPassed(h, k, tool, session);
    }
  }

  // ----- Credentials -----

  /** The writes that change the credential of `plugin`. */
  predicate Touches(e: Event, plugin: string) {
    (e.Publish? && e.plugin == plugin) || (e.Remove? && e.plugin == plugin) || e.Reset?
  }

  predicate CredentialStep(h: History, k: nat, plugin: string)
    requires k < |h.events| && |h.snapshots| == |h.events| + 1
  {
    plugin in h.snapshots[k].credentials && !h.events[k].Repair? ==>
      && plugin in h.snapshots[k + 1].credentials
      && var before, after := h.snapshots[k].credentials[plugin], h.snapshots[k + 1].credentials[plugin];
         if Touches(h.events[k], plugin) then after.generation == before.generation + 1 else after == before
  }

  predicate CredentialHistory(h: History, plugin: string) {
    Versions(h) && forall k :: 0 <= k < |h.events| ==> CredentialStep(h, k, plugin)
  }

  lemma CredentialAfterWrite(before: Snapshot, earlier: seq<Snapshot>, e: Event, after: Snapshot, plugin: string)
    requires Writes(earlier, e, after) && Last(earlier) == before
    requires plugin in before.credentials && !e.Repair?
    ensures plugin in after.credentials
    ensures if Touches(e, plugin)
            then after.credentials[plugin].generation == before.credentials[plugin].generation + 1
            else after.credentials[plugin] == before.credentials[plugin]
  {
  }

  lemma HistoriesHaveCredentials(h: History, plugin: string)
    requires h.Valid()
    ensures CredentialHistory(h, plugin)
  {
    HistoriesHaveVersions(h);
    forall k | 0 <= k < |h.events| ensures CredentialStep(h, k, plugin) {
      if plugin in h.snapshots[k].credentials && !h.events[k].Repair? {
        StepAt(h, k);
        CredentialAfterWrite(h.snapshots[k], h.snapshots[..k + 1], h.events[k], h.snapshots[k + 1], plugin);
      }
    }
  }

  /** How many of the writes from `i` to `j` changed the credential. */
  function Changes(events: seq<Event>, i: nat, j: nat, plugin: string): nat
    requires i <= j <= |events|
  {
    if i == j then 0 else Changes(events, i, j - 1, plugin) + if Touches(events[j - 1], plugin) then 1 else 0
  }

  /** Within an epoch the generation counts the changes of the credential, exactly. */
  lemma {:induction false} GenerationCountsChanges(h: History, i: nat, j: nat, plugin: string)
    requires CredentialHistory(h, plugin) && i <= j < |h.snapshots| && h.snapshots[i].epoch == h.snapshots[j].epoch
    requires plugin in h.snapshots[i].credentials
    ensures plugin in h.snapshots[j].credentials
    ensures h.snapshots[j].credentials[plugin].generation ==
              h.snapshots[i].credentials[plugin].generation + Changes(h.events, i, j, plugin)
    ensures Changes(h.events, i, j, plugin) == 0
        ==> h.snapshots[j].credentials[plugin] == h.snapshots[i].credentials[plugin]
  {
    if i < j {
      EpochsAreStretches(h, i, j);
      GenerationCountsChanges(h, i, j - 1, plugin);
      assert CredentialStep(h, j - 1, plugin);
    }
  }

  /** The comparison that `admitPlugin` makes under the lock, between the snapshot the key was read
      under and the current one. */
  predicate SameCredential(prepared: Snapshot, policy: Snapshot, plugin: string) {
    && policy.epoch == prepared.epoch
    && plugin in policy.credentials && plugin in prepared.credentials
    && policy.credentials[plugin].generation == prepared.credentials[plugin].generation
    && policy.credentials[plugin].reference == prepared.credentials[plugin].reference
  }

  lemma {:induction false} NoChangeInside(events: seq<Event>, i: nat, j: nat, plugin: string)
    requires i <= j <= |events|
    ensures Changes(events, i, j, plugin) == 0 <==> forall k :: i <= k < j ==> !Touches(events[k], plugin)
  {
    if i < j {
      NoChangeInside(events, i, j - 1, plugin);
    }
  }

  /** The comparison succeeds exactly when the epoch is still the same and no publish, removal or
      reset touched the credential between the two snapshots, not even one that was undone. */
  lemma AdmittedKeyIsUntouched(h: History, i: nat, j: nat, plugin: string)
    requires h.Valid() && i <= j < |h.snapshots| && plugin in h.snapshots[i].credentials
    ensures SameCredential(h.snapshots[i], h.snapshots[j], plugin) <==>
              h.snapshots[i].epoch == h.snapshots[j].epoch && forall k :: i <= k < j ==> !Touches(h.events[k], plugin)
    ensures SameCredential(h.snapshots[i], h.snapshots[j], plugin) ==>
              forall k :: i <= k <= j ==> plugin in h.snapshots[k].credentials
                                          && h.snapshots[k].credentials[plugin] == h.snapshots[i].credentials[plugin]
  {
    HistoriesHaveCredentials(h, plugin);
    NoChangeInside(h.events, i, j, plugin);
    if h.snapshots[i].epoch == h.snapshots[j].epoch {
      GenerationCountsChanges(h, i, j, plugin);
      if SameCredential(h.snapshots[i], h.snapshots[j], plugin) {
        forall k | i <= k <= j
          ensures plugin in h.snapshots[k].credentials
              && h.snapshots[k].credentials[plugin] == h.snapshots[i].credentials[plugin]
        {
          EpochsAreStretches(h, i, j);
          NoChangeInside(h.events, i, k, plugin);
          GenerationCountsChanges(h, i, k, plugin);
        }
      }
    }
  }
}
