/** What each write of the settings file says, and what a tool's state says, in terms of gates, credentials and
    requirements (`tool-policy.ts`): every write of every history does what was asked for and leaves the rest. */
module ToolPolicyWrites {
  import opened Wrappers
  import opened ToolPolicy
  import opened ToolPolicyHistory

  // ----- What stays -----

  /** All gates but one are as before, and no gate comes or goes. */
  ghost predicate OtherGatesStay(before: Snapshot, after: Snapshot, target: Target, id: string) {
    forall t: Target, other :: !(t == target && other == id) ==>
      && (other in Gates(before, t) <==> other in Gates(after, t))
      && (other in Gates(before, t) ==> Gates(after, t)[other] == Gates(before, t)[other])
  }

  ghost predicate OtherCredentialsStay(before: Snapshot, after: Snapshot, plugin: string) {
    forall other :: other != plugin ==>
      && (other in before.credentials <==> other in after.credentials)
      && (other in before.credentials ==> after.credentials[other] == before.credentials[other])
  }

  /** A gate that was turned on is stamped with this revision; any other keeps its stamp. */
  predicate TurnedTo(before: Snapshot, after: Snapshot, target: Target, id: string, enabled: bool) {
    && id in Gates(before, target) && id in Gates(after, target)
    && (IsOn(after, target, id) <==> enabled)
    && Gates(after, target)[id].enabledAt ==
         if enabled && !IsOn(before, target, id) then after.revision else Gates(before, target)[id].enabledAt
  }

  // ----- Each write of a history -----

  lemma PatchedGate(before: Snapshot, expected: Version, target: Target, id: string, enabled: bool)
    requires PatchPolicy(before, expected, target, id, enabled).Accepted?
    ensures var after := PatchPolicy(before, expected, target, id, enabled).snapshot;
            && TurnedTo(before, after, target, id, enabled)
            && OtherGatesStay(before, after, target, id) && after.credentials == before.credentials
  {
  }

  /** An update of a gate: the gate is on afterwards exactly if that was asked for, and nothing else changes. */
  lemma PatchSetsItsGate(h: History, k: nat, expected: Version, target: Target, id: string, enabled: bool)
    requires h.Valid() && k < |h.events| && h.events[k] == Patch(expected, target, id, enabled)
    ensures var before, after := h.snapshots[k], h.snapshots[k + 1];
            && TurnedTo(before, after, target, id, enabled)
            && OtherGatesStay(before, after, target, id) && after.credentials == before.credentials
  {
    StepAt(h, k);
    PatchedGate(h.snapshots[k], expected, target, id, enabled);
  }

  /** A published key: its plugin has exactly the new reference, under the next generation; the plugin is turned on
      if that was asked for, and stays as it was otherwise. */
  lemma PublishSetsItsKey(h: History, k: nat, expected: Version, generation: int, reference: string, enable: bool,
                          plugin: string)
    requires h.Valid() && k < |h.events| && h.events[k] == Publish(expected, generation, reference, enable, plugin)
    ensures var before, after := h.snapshots[k], h.snapshots[k + 1];
            && plugin in before.credentials && before.credentials[plugin].generation == generation
            && before.credentials[plugin].reference != Some(reference)
            && plugin in after.credentials && after.credentials[plugin] == Credential(generation + 1, Some(reference))
            && OtherCredentialsStay(before, after, plugin)
            && TurnedTo(before, after, Parents, plugin, enable || IsOn(before, Parents, plugin))
            && OtherGatesStay(before, after, Parents, plugin)
  {
    StepAt(h, k);
    assert Accepted(h.snapshots[k + 1])
        == PublishCredential(h.snapshots[k], expected, generation, reference, enable, plugin);
  }

  /** A removed key: its plugin has none, under the next generation, and nothing else changes. */
  lemma RemoveTakesItsKey(h: History, k: nat, expected: Version, plugin: string)
    requires h.Valid() && k < |h.events| && h.events[k] == Remove(expected, plugin)
    ensures var before, after := h.snapshots[k], h.snapshots[k + 1];
            && plugin in before.credentials && plugin in after.credentials
            && after.credentials[plugin] == Credential(before.credentials[plugin].generation + 1, None)
            && OtherCredentialsStay(before, after, plugin)
            && after.parents == before.parents && after.tools == before.tools
  {
    StepAt(h, k);
    assert Accepted(h.snapshots[k + 1]) == RemoveCredential(h.snapshots[k], expected, plugin);
  }

  /** A plugin's default, and that of the built-in groups. */
  predicate IsDefault(catalog: Catalog, parent: string, enabled: bool) {
    || (exists plugin :: plugin in catalog.plugins && plugin.id == parent && plugin.defaultEnabled == enabled)
    || (parent in BUILTIN_GROUPS && enabled)
  }

  lemma {:induction false} PluginDefaultsAre(plugins: seq<Plugin>, id: string)
    requires forall i, j :: 0 <= i < j < |plugins| ==> plugins[i].id != plugins[j].id
    ensures id in PluginDefaults(plugins) <==> exists k :: 0 <= k < |plugins| && plugins[k].id == id
    ensures forall k :: 0 <= k < |plugins| && plugins[k].id == id ==>
              id in PluginDefaults(plugins) && PluginDefaults(plugins)[id] == plugins[k].defaultEnabled
  {
    if plugins != [] {
      var front := plugins[..|plugins| - 1];
      PluginDefaultsAre(front, id);
      assert forall k :: 0 <= k < |front| ==> front[k] == plugins[k];
    }
  }

  /** The parents of a valid catalog are its plugins and the built-in groups, each with its default. */
  lemma ParentDefaultsAre(catalog: Catalog, parent: string)
    requires ValidCatalog(catalog)
    ensures parent in ParentDefaults(catalog.plugins) <==>
            parent in BUILTIN_GROUPS || exists plugin :: plugin in catalog.plugins && plugin.id == parent
    ensures parent in ParentDefaults(catalog.plugins) ==>
              IsDefault(catalog, parent, ParentDefaults(catalog.plugins)[parent])
  {
    PluginDefaultsAre(catalog.plugins, parent);
    if plugin :| plugin in catalog.plugins && plugin.id == parent {
      var k :| 0 <= k < |catalog.plugins| && catalog.plugins[k] == plugin;
    }
    if k :| 0 <= k < |catalog.plugins| && catalog.plugins[k].id == parent {
      assert catalog.plugins[k] in catalog.plugins;
    }
  }

  /** A plugin with a key of its own. */
  predicate HasKey(catalog: Catalog, plugin: string) {
    exists p :: p in catalog.plugins && p.id == plugin && p.credential
  }

  lemma CredentialIdsAre(catalog: Catalog, plugin: string)
    ensures plugin in CredentialIds(catalog.plugins) <==> HasKey(catalog, plugin)
  {
  }

  lemma InstalledIs(catalog: Catalog, target: Target, id: string)
    requires ValidCatalog(catalog)
    ensures Installed(catalog, target, id) <==>
            id in if target.Tools? then ToolIds(catalog.inventory) else ParentDefaults(catalog.plugins).Keys
  {
    ParentDefaultsAre(catalog, id);
  }

  /** A gate at its default: tools are on, parents as the catalog has them; stamped with the revision. */
  predicate AtDefault(s: Snapshot, catalog: Catalog, target: Target, id: string) {
    && id in Gates(s, target) && Gates(s, target)[id].enabledAt == s.revision
    && if target.Tools? then Gates(s, target)[id].enabled else IsDefault(catalog, id, Gates(s, target)[id].enabled)
  }

  predicate Installed(catalog: Catalog, target: Target, id: string) {
    if target.Tools? then exists tool :: tool in catalog.inventory && tool.id == id
    else id in BUILTIN_GROUPS || exists plugin :: plugin in catalog.plugins && plugin.id == id
  }

  /** A reset: every installed gate is at its default, and all others are as they were. */
  lemma ResetSetsDefaults(h: History, k: nat, expected: Version, catalog: Catalog, target: Target, id: string)
    requires h.Valid() && k < |h.events| && h.events[k] == Reset(expected, catalog)
    ensures var before, after := h.snapshots[k], h.snapshots[k + 1];
            && (Installed(catalog, target, id) ==> AtDefault(after, catalog, target, id))
            && (!Installed(catalog, target, id) ==>
                  && (id in Gates(before, target) <==> id in Gates(after, target))
                  && (id in Gates(before, target) ==> Gates(after, target)[id] == Gates(before, target)[id]))
  {
    StepAt(h, k);
    ParentDefaultsAre(catalog, id);
    InstalledIs(catalog, target, id);
    ResetGates(h.snapshots[k], expected, catalog, target, id);
    hide Writes, ResetPolicy, ParentDefaults, IsDefault, Sound, Installed;
  }

  /** The same of one transition, by the catalog's own lists. */
  lemma ResetGates(before: Snapshot, expected: Version, catalog: Catalog, target: Target, id: string)
    requires ResetPolicy(before, expected, catalog).Accepted?
    ensures var after := ResetPolicy(before, expected, catalog).snapshot;
            && after.revision == before.revision + 1
            && (target.Tools? && id in ToolIds(catalog.inventory) ==>
                  id in after.tools && after.tools[id] == Gate(true, after.revision))
            && (target.Parents? && id in ParentDefaults(catalog.plugins) ==>
                  && id in after.parents
                  && after.parents[id] == Gate(ParentDefaults(catalog.plugins)[id], after.revision))
            && (id !in (if target.Tools? then ToolIds(catalog.inventory) else ParentDefaults(catalog.plugins).Keys) ==>
                  && (id in Gates(before, target) <==> id in Gates(after, target))
                  && (id in Gates(before, target) ==> Gates(after, target)[id] == Gates(before, target)[id]))
  {
    hide ValidInventory, PluginDefaults, ParentDefaults, ToolIds, CredentialIds, Tombstones;
  }

  /** A reset leaves no key, each under the next generation. */
  lemma ResetTakesAllKeys(h: History, k: nat, expected: Version, catalog: Catalog, plugin: string)
    requires h.Valid() && k < |h.events| && h.events[k] == Reset(expected, catalog)
    ensures var before, after := h.snapshots[k], h.snapshots[k + 1];
            && (plugin in after.credentials <==> plugin in before.credentials || HasKey(catalog, plugin))
            && (plugin in after.credentials ==>
                  after.credentials[plugin] ==
                    Credential(if plugin in before.credentials then before.credentials[plugin].generation + 1 else 0,
                               None))
  {
    StepAt(h, k);
    CredentialIdsAre(catalog, plugin);
    assert Accepted(h.snapshots[k + 1]) == ResetPolicy(h.snapshots[k], expected, catalog);
    hide ValidInventory, ParentDefaults, ToolIds, CredentialIds, DefaultParents, DefaultTools, HasKey, Sound, Writes;
  }

  /** A fill-in adds what the catalog has and the settings lack, at its default, and leaves alone what they have. */
  lemma FillAddsWhatIsMissing(h: History, k: nat, migrated: bool, catalog: Catalog, target: Target, id: string,
                              plugin: string)
    requires h.Valid() && k < |h.events| && h.events[k] == Fill(migrated, catalog)
    ensures var before, after := h.snapshots[k], h.snapshots[k + 1];
            && (id in Gates(before, target) ==>
                  id in Gates(after, target) && Gates(after, target)[id] == Gates(before, target)[id])
            && (id !in Gates(before, target) ==>
                  && (id in Gates(after, target) <==> Installed(catalog, target, id))
                  && (id in Gates(after, target) ==> AtDefault(after, catalog, target, id)))
            && (plugin in before.credentials ==>
                  plugin in after.credentials && after.credentials[plugin] == before.credentials[plugin])
            && (plugin !in before.credentials ==>
                  && (plugin in after.credentials <==> HasKey(catalog, plugin))
                  && (plugin in after.credentials ==> after.credentials[plugin] == Credential(0, None)))
  {
    StepAt(h, k);
    assert FillIn(h.snapshots[k], migrated, catalog) == Some(h.snapshots[k + 1]);
    ParentDefaultsAre(catalog, id);
    InstalledIs(catalog, target, id);
    CredentialIdsAre(catalog, plugin);
    hide ValidInventory, PluginDefaults, ParentDefaults, ToolIds, CredentialIds, IsDefault, ValidIds, Sound;
    hide Installed, HasKey;
  }

  /** A repair: exactly the catalog's gates at their defaults, and none of the keys. */
  lemma RepairSetsDefaults(h: History, k: nat, epoch: string, catalog: Catalog, target: Target, id: string,
                           plugin: string)
    requires h.Valid() && k < |h.events| && h.events[k] == Repair(epoch, catalog)
    ensures var after := h.snapshots[k + 1];
            && after.epoch == epoch && after.revision == 0
            && (id in Gates(after, target) <==> Installed(catalog, target, id))
            && (id in Gates(after, target) ==> AtDefault(after, catalog, target, id))
            && (plugin in after.credentials <==> HasKey(catalog, plugin))
            && (plugin in after.credentials ==> after.credentials[plugin] == Credential(0, None))
  {
    StepAt(h, k);
    ParentDefaultsAre(catalog, id);
    InstalledIs(catalog, target, id);
    CredentialIdsAre(catalog, plugin);
    hide ValidInventory, PluginDefaults, ParentDefaults, ToolIds, CredentialIds, IsDefault, ValidIds, Sound;
    hide Installed, HasKey;
  }

  // ----- Reading -----

  predicate InOrder(value: Snapshot) {
    && value.epoch != "" && |value.epoch| <= 128 && Counter(value.revision) && BUILTIN_GROUPS <= value.parents.Keys
    && GoodGates(value.parents, value.revision) && GoodGates(value.tools, value.revision)
    && GoodCredentials(value.credentials, value.revision)
  }

  /** What is read: the second version as it is; the first, with just the parents and the one key that it knew,
      migrated; another version is not supported, and everything else is invalid. */
  lemma ReadingIsExact(value: Snapshot)
    ensures var r := Decode(value);
            var first := value.schemaVersion == 1 && value.parents.Keys == BUILTIN_GROUPS + {"firecrawl"}
                        && value.credentials.Keys == {"firecrawl"};
            && (r == Readable(value, false) <==> value.schemaVersion == 2 && InOrder(value))
            && (r == Readable(value.(schemaVersion := 2), true) <==> first && InOrder(value))
            && (r.UnsupportedSchema? <==> Counter(value.schemaVersion) && !(1 <= value.schemaVersion <= 2))
            && (r.InvalidSettings? <==>
                  && !(Counter(value.schemaVersion) && !(1 <= value.schemaVersion <= 2))
                  && !(InOrder(value) && (value.schemaVersion == 2 || first)))
  {
    hide GoodGates, GoodCredentials;
  }

  // ----- Refusals -----

  predicate Current(s: Snapshot, expected: Version) {
    s.epoch == expected.epoch && s.revision == expected.revision
  }

  predicate Exhausted(n: int) {
    n == MAX_SAFE_INTEGER
  }

  /** Why an update of a gate is refused: exactly for another version, an unknown gate, or an exhausted revision. */
  lemma PatchRefusalIsExact(s: Snapshot, expected: Version, target: Target, id: string, enabled: bool)
    ensures var r := PatchPolicy(s, expected, target, id, enabled);
            && (r.Conflict? <==> !Current(s, expected))
            && (r.InvalidUpdate? <==> Current(s, expected) && (id !in Gates(s, target) || Exhausted(s.revision)))
            && !r.Throws?
  {
  }

  lemma PublishRefusalIsExact(s: Snapshot, expected: Version, generation: int, reference: string, enable: bool,
                              plugin: string)
    ensures var r := PublishCredential(s, expected, generation, reference, enable, plugin);
            var known := plugin in s.credentials && plugin in s.parents;
            var latest := known && Current(s, expected) && s.credentials[plugin].generation == generation;
            var unfit := !IsUuid(reference) || (known && s.credentials[plugin].reference == Some(reference))
                         || Exhausted(s.revision) || Exhausted(generation);
            && (r.Conflict? <==> known && !latest)
            && (r.InvalidUpdate? <==> !known || (latest && unfit))
            && !r.Throws?
  {
    hide IsUuid;
  }

  lemma RemoveRefusalIsExact(s: Snapshot, expected: Version, plugin: string)
    ensures var r := RemoveCredential(s, expected, plugin);
            var known := plugin in s.credentials;
            var exhausted := Exhausted(s.revision) || (known && Exhausted(s.credentials[plugin].generation));
            && (r.Conflict? <==> known && !Current(s, expected))
            && (r.InvalidUpdate? <==> !known || (Current(s, expected) && exhausted))
            && !r.Throws?
  {
  }

  lemma ResetRefusalIsExact(s: Snapshot, expected: Version, catalog: Catalog)
    ensures var r := ResetPolicy(s, expected, catalog);
            var exhausted := Exhausted(s.revision)
                             || exists id :: id in s.credentials && Exhausted(s.credentials[id].generation);
            && (r.Conflict? <==> !Current(s, expected))
            && (r.InvalidUpdate? <==> Current(s, expected) && exhausted)
            && (r.Throws? <==> Current(s, expected) && !exhausted && (s.epoch == "" || !ValidInventory(catalog)))
  {
    hide ValidInventory;
  }

  // ----- What a tool's state says -----

  /** A requirement is met. */
  predicate Met(requirement: Requirement, owner: string, policy: Snapshot, runtime: Runtime) {
    match requirement
    case Backend => runtime.backend
    case Images => runtime.images
    case Ui => runtime.ui
    case NeedsCredential =>
      && owner in policy.credentials && policy.credentials[owner].reference.Some?
      && owner in runtime.credentials
      && runtime.credentials[owner] == Configured(Some(policy.credentials[owner].generation))
  }

  predicate AllMet(tool: Descriptor, policy: Snapshot, runtime: Runtime) {
    forall i :: 0 <= i < |tool.requirements| ==> Met(tool.requirements[i], tool.owner, policy, runtime)
  }

  /** What is said of a requirement that is not met. */
  function Lack(requirement: Requirement, owner: string, policy: Snapshot, runtime: Runtime): Status
    requires !Met(requirement, owner, policy, runtime)
  {
    match requirement
    case Backend => BackendUnavailable
    case Images => ImagesRequired
    case Ui => UiUnavailable
    case NeedsCredential =>
      if owner in policy.credentials && policy.credentials[owner].reference.Some?
         && !(owner in runtime.credentials && runtime.credentials[owner].Missing?)
      then CredentialStoreUnavailable
      else ApiKeyRequired
  }

  lemma RequirementIsLack(requirement: Requirement, owner: string, policy: Snapshot, runtime: Runtime)
    ensures RequirementStatus(requirement, owner, policy, runtime) ==
              if Met(requirement, owner, policy, runtime) then None else Some(Lack(requirement, owner, policy, runtime))
  {
  }

  lemma {:induction false} FirstUnmetIsTheFirst(requirements: seq<Requirement>, owner: string, policy: Snapshot,
                                                runtime: Runtime)
    ensures FirstUnmet(requirements, owner, policy, runtime).None? <==>
            forall i :: 0 <= i < |requirements| ==> Met(requirements[i], owner, policy, runtime)
    ensures forall k :: 0 <= k < |requirements| && !Met(requirements[k], owner, policy, runtime)
                        && (forall i :: 0 <= i < k ==> Met(requirements[i], owner, policy, runtime)) ==>
              FirstUnmet(requirements, owner, policy, runtime) == Some(Lack(requirements[k], owner, policy, runtime))
  {
    if requirements != [] {
      FirstUnmetIsTheFirst(requirements[1..], owner, policy, runtime);
      RequirementIsLack(requirements[0], owner, policy, runtime);
      hide Met, RequirementStatus, Lack;
      assert forall k :: 0 < k < |requirements| ==> requirements[1..][k - 1] == requirements[k];
    }
  }

  predicate BothOn(tool: Descriptor, policy: Snapshot) {
    IsOn(policy, Tools, tool.id) && IsOn(policy, Parents, tool.parent)
  }

  predicate BothKnown(tool: Descriptor, policy: Snapshot) {
    tool.id in policy.tools && tool.parent in policy.parents
  }

  /** The session is of this epoch and not ahead of the settings. */
  predicate Fits(session: Session, policy: Snapshot) {
    session.epoch == policy.epoch && session.appliedRevision <= policy.revision
  }

  /** Both gates have been on since the session was applied. */
  predicate Exposed(tool: Descriptor, policy: Snapshot, session: Session)
    requires BothKnown(tool, policy)
  {
    && policy.tools[tool.id].enabledAt <= session.appliedRevision
    && policy.parents[tool.parent].enabledAt <= session.appliedRevision
  }

  /** A tool's state, part by part: enabled, available, active and callable mean what they say. */
  lemma ToolStateIsExact(tool: Descriptor, policy: Snapshot, runtime: Runtime, session: Session, discovery: bool)
    ensures var state := ResolveToolPolicy(tool, Some(policy), runtime, session, discovery);
            && (state.enabled <==> BothOn(tool, policy))
            && (state.available <==> BothKnown(tool, policy) && AllMet(tool, policy, runtime))
            && (state.active <==> tool.id in session.activeIds)
            && (state.callable <==>
                  && BothOn(tool, policy) && AllMet(tool, policy, runtime)
                  && Fits(session, policy) && Exposed(tool, policy, session) && tool.id in session.activeIds)
  {
    FirstUnmetIsTheFirst(tool.requirements, tool.owner, policy, runtime);
    hide FirstUnmet, Met;
  }

  /** The status names the first thing that stands in the way. */
  lemma StatusIsExact(tool: Descriptor, policy: Snapshot, runtime: Runtime, session: Session, discovery: bool)
    ensures var status := ResolveToolPolicy(tool, Some(policy), runtime, session, discovery).status;
            var ready := BothOn(tool, policy) && AllMet(tool, policy, runtime);
            && (!BothKnown(tool, policy) ==> status.SettingsUnavailable?)
            && (status.DisabledByUser? <==> BothKnown(tool, policy) && !IsOn(policy, Tools, tool.id))
            && (status.ParentDisabled? <==>
                  BothKnown(tool, policy) && IsOn(policy, Tools, tool.id) && !IsOn(policy, Parents, tool.parent))
            && (BothOn(tool, policy) && !AllMet(tool, policy, runtime) ==>
                  Some(status) == FirstUnmet(tool.requirements, tool.owner, policy, runtime))
            && (ready && !Fits(session, policy) ==> status.SettingsUnavailable?)
            && (status.PendingExposure? <==> ready && Fits(session, policy) && !Exposed(tool, policy, session))
            && (status.Active? <==> ResolveToolPolicy(tool, Some(policy), runtime, session, discovery).callable)
            && (ready && Fits(session, policy) && Exposed(tool, policy, session) && tool.id !in session.activeIds ==>
                  status == if discovery then AvailableOnDemand else ActivationRequired)
  {
    FirstUnmetIsTheFirst(tool.requirements, tool.owner, policy, runtime);
    FirstUnmetIsALack(tool.requirements, tool.owner, policy, runtime);
    hide FirstUnmet, Met;
  }

  lemma {:induction false} FirstUnmetIsALack(requirements: seq<Requirement>, owner: string, policy: Snapshot,
                                             runtime: Runtime)
    ensures var status := FirstUnmet(requirements, owner, policy, runtime);
            status.Some? ==>
              || status.value.BackendUnavailable? || status.value.ImagesRequired? || status.value.UiUnavailable?
              || status.value.ApiKeyRequired? || status.value.CredentialStoreUnavailable?
  {
    if requirements != [] {
      FirstUnmetIsALack(requirements[1..], owner, policy, runtime);
    }
  }

  /** Without settings nothing is enabled, available or callable. */
  lemma NoSettingsNoTool(tool: Descriptor, runtime: Runtime, session: Session, discovery: bool)
    ensures var state := ResolveToolPolicy(tool, None, runtime, session, discovery);
            !state.enabled && !state.available && !state.callable && state.status.SettingsUnavailable?
  {
  }

  /** A session made at a boundary has exactly the eligible tools that are on, with all requirements met, and are
      active by default, or by hand, or altogether. */
  lemma SessionIsExact(eligible: set<Descriptor>, policy: Snapshot, runtime: Runtime, progressive: bool,
                       manual: set<string>, id: string)
    ensures id in ReconcileSession(eligible, policy, runtime, progressive, manual).activeIds <==>
            exists tool :: tool in eligible && tool.id == id && BothOn(tool, policy) && AllMet(tool, policy, runtime)
                           && (!progressive || tool.defaultActive || id in manual)
  {
    forall tool: Descriptor
      ensures FirstUnmet(tool.requirements, tool.owner, policy, runtime).None? <==> AllMet(tool, policy, runtime)
    {
      FirstUnmetIsTheFirst(tool.requirements, tool.owner, policy, runtime);
    }
  }
}
