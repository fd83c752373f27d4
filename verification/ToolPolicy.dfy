/** The tool policy: the pure transitions of `tool-policy.ts`, the storage check of
    `tool-policy-schema.ts`, and the fill-in and repair of `tool-policy-store.ts`. */
module ToolPolicy {
  import opened Wrappers

  const MAX_SAFE_INTEGER := 9007199254740991

  datatype Gate = Gate(enabled: bool, enabledAt: int)

  datatype Credential = Credential(generation: int, reference: Option<string>)

  datatype Snapshot = Snapshot(
    schemaVersion: int,
    epoch: string,
    revision: int,
    parents: map<string, Gate>,
    tools: map<string, Gate>,
    credentials: map<string, Credential>)

  datatype Version = Version(epoch: string, revision: int)

  datatype Requirement = Backend | Images | Ui | NeedsCredential

  datatype Descriptor = Descriptor(
    id: string, name: string, owner: string, parent: string, defaultActive: bool, requirements: seq<Requirement>)

  datatype Plugin = Plugin(id: string, defaultEnabled: bool, credential: bool)

  /** The installed tools and plugins. */
  datatype Catalog = Catalog(inventory: seq<Descriptor>, plugins: seq<Plugin>)

  const BUILTIN_GROUPS := {"hopper.rhino", "hopper.grasshopper", "hopper.interaction", "hopper.skills"}

  // ----- Identifiers -----

  predicate IsLower(c: char) { 'a' <= c <= 'z' }

  predicate IsDigit(c: char) { '0' <= c <= '9' }

  predicate IdChar(c: char) { IsLower(c) || IsDigit(c) || c == '_' || c == '.' || c == '-' }

  /** `/^[a-z][a-z0-9_.-]*$/`, except the two names of object members. */
  predicate ValidId(id: string) {
    && id != "" && IsLower(id[0])
    && (forall i :: 0 <= i < |id| ==> IdChar(id[i]))
    && id != "constructor" && id != "prototype"
  }

  predicate IsHex(c: char) { IsDigit(c) || 'a' <= c <= 'f' || 'A' <= c <= 'F' }

  /** Thirty-two hexadecimal digits in groups of 8, 4, 4, 4 and 12. */
  predicate IsUuid(s: string) {
    && |s| == 36
    && forall i :: 0 <= i < 36 ==> if i in {8, 13, 18, 23} then s[i] == '-' else IsHex(s[i])
  }

  /** `/^[a-z][a-z0-9-]*$/`, except reserved names. */
  predicate ValidPluginId(id: string) {
    && id != "" && IsLower(id[0])
    && (forall i :: 0 <= i < |id| ==> IdChar(id[i]) && id[i] != '_' && id[i] != '.')
    && id != "hopper" && id != "constructor" && id != "prototype"
  }

  // ----- The catalog -----

  function PluginDefaults(plugins: seq<Plugin>): map<string, bool> {
    if plugins == [] then map[]
    else PluginDefaults(plugins[..|plugins| - 1])[Last(plugins).id := Last(plugins).defaultEnabled]
  }

  function Last<T>(s: seq<T>): T
    requires s != []
  {
    s[|s| - 1]
  }

  function ParentDefaults(plugins: seq<Plugin>): map<string, bool> {
    (map id | id in BUILTIN_GROUPS :: true) + PluginDefaults(plugins)
  }

  function ToolIds(inventory: seq<Descriptor>): set<string> {
    set tool | tool in inventory :: tool.id
  }

  function CredentialIds(plugins: seq<Plugin>): set<string> {
    set plugin | plugin in plugins && plugin.credential :: plugin.id
  }

  /** `validatePlugins` and `assertPolicyInventory`, which the constructor of the store runs. */
  predicate ValidCatalog(catalog: Catalog) {
    && (forall plugin :: plugin in catalog.plugins ==> ValidPluginId(plugin.id))
    && (forall i, j :: 0 <= i < j < |catalog.plugins| ==> catalog.plugins[i].id != catalog.plugins[j].id)
    && ValidInventory(catalog)
  }

  predicate ValidInventory(catalog: Catalog) {
    && (forall tool :: tool in catalog.inventory ==>
          ValidId(tool.id) && tool.name != "" && tool.owner != "" && tool.parent in ParentDefaults(catalog.plugins))
    && (forall i, j :: 0 <= i < j < |catalog.inventory| ==>
          catalog.inventory[i].id != catalog.inventory[j].id && catalog.inventory[i].name != catalog.inventory[j].name)
  }

  // ----- Storage -----

  predicate Counter(n: int) { 0 <= n <= MAX_SAFE_INTEGER }

  datatype Decoded = Readable(snapshot: Snapshot, migrated: bool) | InvalidSettings | UnsupportedSchema

  predicate GoodGate(gate: Gate, revision: int) {
    Counter(gate.enabledAt) && gate.enabledAt <= revision
  }

  predicate GoodCredential(credential: Credential, revision: int) {
    && Counter(credential.generation) && credential.generation <= revision
    && (credential.reference.Some? ==> credential.generation != 0 && IsUuid(credential.reference.value))
  }

  predicate ValidIds(ids: set<string>) {
    forall id :: id in ids ==> ValidId(id)
  }

  predicate GoodGates(gates: map<string, Gate>, revision: int) {
    ValidIds(gates.Keys) && forall id :: id in gates ==> GoodGate(gates[id], revision)
  }

  predicate GoodCredentials(credentials: map<string, Credential>, revision: int) {
    ValidIds(credentials.Keys) && forall id :: id in credentials ==> GoodCredential(credentials[id], revision)
  }

  /** The checks of `decodeToolPolicy` on a value of the right JSON shape. */
  function Decode(value: Snapshot): Decoded {
    if Counter(value.schemaVersion) && value.schemaVersion != 1 && value.schemaVersion != 2 then UnsupportedSchema
    else if !(value.schemaVersion == 1 || value.schemaVersion == 2) || value.epoch == "" || |value.epoch| > 128
            || !Counter(value.revision) || !(BUILTIN_GROUPS <= value.parents.Keys) then InvalidSettings
    else if !GoodGates(value.parents, value.revision) || !GoodGates(value.tools, value.revision) then InvalidSettings
    else if !GoodCredentials(value.credentials, value.revision) then InvalidSettings
    else if value.schemaVersion == 1 then
      if value.parents.Keys != BUILTIN_GROUPS + {"firecrawl"}
          || value.credentials.Keys != {"firecrawl"} then InvalidSettings
      else Readable(value.(schemaVersion := 2), true)
    else Readable(value, false)
  }

  /** A snapshot that the store would read back unchanged. */
  predicate Stored(snapshot: Snapshot) {
    Decode(snapshot) == Readable(snapshot, false)
  }

  /** The same, as a list of what holds of it. */
  predicate Sound(s: Snapshot) {
    && s.schemaVersion == 2 && s.epoch != "" && |s.epoch| <= 128 && Counter(s.revision)
        && BUILTIN_GROUPS <= s.parents.Keys
    && GoodGates(s.parents, s.revision) && GoodGates(s.tools, s.revision) && GoodCredentials(s.credentials, s.revision)
  }

  lemma StoredIsSound(s: Snapshot)
    ensures Stored(s) <==> Sound(s)
  {
  }

  // ----- The transitions -----

  datatype Target = Parents | Tools

  /** Rejections leave the snapshot as it is; Throws is the exception of `createPolicyDefaults`. */
  datatype Update = Accepted(snapshot: Snapshot) | Conflict | InvalidUpdate | Throws

  predicate Matches(current: Snapshot, expected: Version) {
    current.epoch == expected.epoch && current.revision == expected.revision
  }

  function Toggle(gate: Gate, enabled: bool, revision: int): Gate {
    Gate(enabled, if enabled && !gate.enabled then revision else gate.enabledAt)
  }

  /** The clone under the next revision, with some entries assigned anew. */
  function Assign(s: Snapshot, parents: map<string, Gate>, tools: map<string, Gate>,
                  credentials: map<string, Credential>): Snapshot {
    Snapshot(2, s.epoch, s.revision + 1, s.parents + parents, s.tools + tools, s.credentials + credentials)
  }

  function PatchPolicy(current: Snapshot, expected: Version, target: Target, id: string, enabled: bool): Update {
    if !Matches(current, expected) then Conflict
    else if id !in (if target.Parents? then current.parents else current.tools) || current.revision == MAX_SAFE_INTEGER
    then InvalidUpdate
    else if target.Parents?
    then Accepted(Assign(current, map[id := Toggle(current.parents[id], enabled, current.revision + 1)], map[], map[]))
    else Accepted(Assign(current, map[], map[id := Toggle(current.tools[id], enabled, current.revision + 1)], map[]))
  }

  function PublishCredential(current: Snapshot, expected: Version, generation: int, reference: string, enable: bool,
                             plugin: string): Update {
    if plugin !in current.credentials || plugin !in current.parents then InvalidUpdate
    else if !Matches(current, expected) || current.credentials[plugin].generation != generation then Conflict
    else if !IsUuid(reference) || Some(reference) == current.credentials[plugin].reference
            || current.revision == MAX_SAFE_INTEGER || generation == MAX_SAFE_INTEGER then InvalidUpdate
    else
      var gates :=
        if enable && !current.parents[plugin].enabled then map[plugin := Gate(true, current.revision + 1)] else map[];
      Accepted(Assign(current, gates, map[], map[plugin := Credential(generation + 1, Some(reference))]))
  }

  function RemoveCredential(current: Snapshot, expected: Version, plugin: string): Update {
    if plugin !in current.credentials then InvalidUpdate
    else if !Matches(current, expected) then Conflict
    else if current.revision == MAX_SAFE_INTEGER
        || current.credentials[plugin].generation == MAX_SAFE_INTEGER then InvalidUpdate
    else Accepted(Assign(current, map[], map[],
                         map[plugin := Credential(current.credentials[plugin].generation + 1, None)]))
  }

  /** Every installed gate as the catalog has it by default, stamped with one revision. */
  function DefaultParents(catalog: Catalog, revision: int): map<string, Gate> {
    var defaults := ParentDefaults(catalog.plugins);
    map id | id in defaults :: Gate(defaults[id], revision)
  }

  function DefaultTools(catalog: Catalog, revision: int): map<string, Gate> {
    map id | id in ToolIds(catalog.inventory) :: Gate(true, revision)
  }

  function DefaultCredentials(catalog: Catalog): map<string, Credential> {
    map id | id in CredentialIds(catalog.plugins) :: Credential(0, None)
  }

  function CreateDefaults(epoch: string, catalog: Catalog): Option<Snapshot> {
    if epoch == "" || !ValidInventory(catalog) then None
    else Some(Snapshot(2, epoch, 0, DefaultParents(catalog, 0), DefaultTools(catalog, 0), DefaultCredentials(catalog)))
  }

  function Tombstones(credentials: map<string, Credential>): map<string, Credential> {
    map id | id in credentials :: Credential(credentials[id].generation + 1, None)
  }

  function ResetPolicy(current: Snapshot, expected: Version, catalog: Catalog): Update {
    if !Matches(current, expected) then Conflict
    else if current.revision == MAX_SAFE_INTEGER
            || (exists id ::
                  id in current.credentials && current.credentials[id].generation == MAX_SAFE_INTEGER)
    then InvalidUpdate
    else if CreateDefaults(current.epoch, catalog).None? then Throws
    else
      var revision := current.revision + 1;
      Accepted(Assign(current, DefaultParents(catalog, revision), DefaultTools(catalog, revision),
                      DefaultCredentials(catalog) + Tombstones(current.credentials)))
  }

  /** What `load` does with a readable snapshot: entries that the catalog has and the snapshot
      lacks are added, under a new revision.  None is a refusal. */
  function FillIn(decoded: Snapshot, migrated: bool, catalog: Catalog): Option<Snapshot> {
    var revision := decoded.revision + 1;
    var tools := DefaultTools(catalog, revision) - decoded.tools.Keys;
    var parents := DefaultParents(catalog, revision) - decoded.parents.Keys;
    var credentials := DefaultCredentials(catalog) - decoded.credentials.Keys;
    if !migrated && tools == map[] && parents == map[] && credentials == map[] then Some(decoded)
    else if decoded.revision == MAX_SAFE_INTEGER then None
    else Some(Assign(decoded, parents, tools, credentials))
  }

  // ----- Resolution -----

  datatype Status =
    | DisabledByUser | ParentDisabled | ApiKeyRequired | ImagesRequired | BackendUnavailable | UiUnavailable
    | SettingsUnavailable | CredentialStoreUnavailable
    | AvailableOnDemand | ActivationRequired | Active | PendingExposure

  datatype KeyStatus = Configured(generation: Option<int>) | Missing | Unavailable

  datatype Runtime = Runtime(backend: bool, images: bool, ui: bool, credentials: map<string, KeyStatus>)

  datatype Session = Session(epoch: string, appliedRevision: int, activeIds: set<string>)

  datatype ToolState = ToolState(enabled: bool, available: bool, active: bool, callable: bool, status: Status)

  function Permission(tool: Descriptor, policy: Option<Snapshot>): (status: Option<Status>)
    ensures status != Some(Active)
  {
    if policy.None? || tool.id !in policy.value.tools
        || tool.parent !in policy.value.parents then Some(SettingsUnavailable)
    else if !policy.value.tools[tool.id].enabled then Some(DisabledByUser)
    else if !policy.value.parents[tool.parent].enabled then Some(ParentDisabled)
    else None
  }

  function RequirementStatus(gate: Requirement, owner: string, policy: Snapshot, runtime: Runtime)
    : (status: Option<Status>)
    ensures status != Some(Active)
  {
    match gate
    case Backend => if runtime.backend then None else Some(BackendUnavailable)
    case Images => if runtime.images then None else Some(ImagesRequired)
    case Ui => if runtime.ui then None else Some(UiUnavailable)
    case NeedsCredential =>
      if owner !in policy.credentials || policy.credentials[owner].reference.None?
         || (owner in runtime.credentials && runtime.credentials[owner].Missing?) then Some(ApiKeyRequired)
      else if owner !in runtime.credentials || !runtime.credentials[owner].Configured?
              || runtime.credentials[owner].generation != Some(policy.credentials[owner].generation)
                  then Some(CredentialStoreUnavailable)
      else None
  }

  function FirstUnmet(requirements: seq<Requirement>, owner: string, policy: Snapshot, runtime: Runtime)
    : (status: Option<Status>)
    ensures status != Some(Active)
  {
    if requirements == [] then None
    else if RequirementStatus(requirements[0], owner, policy, runtime).Some?
        then RequirementStatus(requirements[0], owner, policy, runtime)
    else FirstUnmet(requirements[1..], owner, policy, runtime)
  }

  function Max(a: int, b: int): int { if a > b then a else b }

  function CheckPreflight(tool: Descriptor, policy: Option<Snapshot>, session: Session): (status: Option<Status>)
    ensures status != Some(Active)
  {
    if Permission(tool, policy).Some? then Permission(tool, policy)
    else if session.epoch != policy.value.epoch
        || session.appliedRevision > policy.value.revision then Some(SettingsUnavailable)
    else if Max(policy.value.tools[tool.id].enabledAt,
        policy.value.parents[tool.parent].enabledAt) > session.appliedRevision
    then Some(PendingExposure)
    else if tool.id !in session.activeIds then Some(ActivationRequired)
    else None
  }

  function ResolveToolPolicy(tool: Descriptor, policy: Option<Snapshot>, runtime: Runtime, session: Session,
                             discovery: bool): ToolState {
    var denied := Permission(tool, policy);
    var missing := if denied.None? then FirstUnmet(tool.requirements, tool.owner, policy.value, runtime) else None;
    var exposure := if denied.None? && missing.None? then CheckPreflight(tool, policy, session) else None;
    var status :=
      if denied.Some? then denied.value
      else if missing.Some? then missing.value
      else if exposure == Some(ActivationRequired) then (if discovery then AvailableOnDemand else ActivationRequired)
      else if exposure.Some? then exposure.value
      else Active;
    ToolState(denied.None?,
              policy.Some? && denied != Some(SettingsUnavailable)
              && FirstUnmet(tool.requirements, tool.owner, policy.value, runtime).None?,
              tool.id in session.activeIds, status.Active?, status)
  }

  function ReconcileSession(eligible: set<Descriptor>, policy: Snapshot, runtime: Runtime, progressive: bool,
                            manual: set<string>): Session {
    Session(policy.epoch, policy.revision,
            set tool | tool in eligible
                       && Permission(tool, Some(policy)).None?
                       && FirstUnmet(tool.requirements, tool.owner, policy, runtime).None?
                       && (!progressive || tool.defaultActive || tool.id in manual) :: tool.id)
  }

  // ----- Every accepted transition can be read back -----

  lemma ParentDefaultsAreValidIds(plugins: seq<Plugin>)
    requires forall plugin :: plugin in plugins ==> ValidPluginId(plugin.id)
    ensures forall id :: id in ParentDefaults(plugins) ==> ValidId(id)
    ensures BUILTIN_GROUPS <= ParentDefaults(plugins).Keys
  {
    PluginDefaultsAreValidIds(plugins);
    assert ValidId("hopper.rhino") && ValidId("hopper.grasshopper") && ValidId("hopper.interaction")
        && ValidId("hopper.skills");
  }

  lemma {:induction false} PluginDefaultsAreValidIds(plugins: seq<Plugin>)
    requires forall plugin :: plugin in plugins ==> ValidPluginId(plugin.id)
    ensures forall id :: id in PluginDefaults(plugins) ==> ValidId(id)
  {
    if plugins != [] {
      PluginDefaultsAreValidIds(plugins[..|plugins| - 1]);
      assert Last(plugins) in plugins;
    }
  }

  datatype Event =
    | Patch(expected: Version, target: Target, id: string, enabled: bool)
    | Publish(expected: Version, generation: int, reference: string, enable: bool, plugin: string)
    | Remove(expected: Version, plugin: string)
    | Reset(expected: Version, catalog: Catalog)
    | Fill(migrated: bool, catalog: Catalog)
    | Repair(epoch: string, catalog: Catalog)

  predicate Versioned(e: Event) {
    e.Patch? || e.Publish? || e.Remove? || e.Reset?
  }

  function Transition(s: Snapshot, e: Event): Update
    requires Versioned(e)
  {
    match e
    case Patch(expected, target, id, enabled) => PatchPolicy(s, expected, target, id, enabled)
    case Publish(expected, generation, reference, enable, plugin) =>
      PublishCredential(s, expected, generation, reference, enable, plugin)
    case Remove(expected, plugin) => RemoveCredential(s, expected, plugin)
    case Reset(expected, catalog) => ResetPolicy(s, expected, catalog)
  }

  predicate CatalogOk(e: Event) {
    e.Reset? || e.Fill? || e.Repair? ==> ValidCatalog(e.catalog)
  }

  lemma GatesStayGood(gates: map<string, Gate>, more: map<string, Gate>, revision: int, later: int)
    requires GoodGates(gates, revision) && GoodGates(more, later) && revision <= later
    ensures GoodGates(gates + more, later)
  {
    forall id | id in gates + more ensures ValidId(id) && GoodGate((gates + more)[id], later) {
      assert id in more || (id in gates && GoodGate(gates[id], revision));
      assert id in more.Keys || id in gates.Keys;
    }
  }

  lemma CredentialsStayGood(credentials: map<string, Credential>, more: map<string, Credential>, revision: int,
                            later: int)
    requires GoodCredentials(credentials, revision) && GoodCredentials(more, later) && revision <= later
    ensures GoodCredentials(credentials + more, later)
  {
    forall id | id in credentials + more ensures ValidId(id) && GoodCredential((credentials + more)[id], later) {
      assert id in more || (id in credentials && GoodCredential(credentials[id], revision));
      assert id in more.Keys || id in credentials.Keys;
    }
  }

  lemma AssignedIsSound(s: Snapshot, parents: map<string, Gate>, tools: map<string, Gate>,
                        credentials: map<string, Credential>)
    requires Sound(s) && s.revision < MAX_SAFE_INTEGER
    requires GoodGates(parents, s.revision + 1) && GoodGates(tools, s.revision + 1)
        && GoodCredentials(credentials, s.revision + 1)
    ensures Sound(Assign(s, parents, tools, credentials))
  {
    GatesStayGood(s.parents, parents, s.revision, s.revision + 1);
    GatesStayGood(s.tools, tools, s.revision, s.revision + 1);
    CredentialsStayGood(s.credentials, credentials, s.revision, s.revision + 1);
  }

  lemma OneGateIsGood(gates: map<string, Gate>, id: string, enabled: bool, revision: int)
    requires GoodGates(gates, revision) && id in gates && Counter(revision + 1)
    ensures GoodGates(map[id := Toggle(gates[id], enabled, revision + 1)], revision + 1)
  {
    assert id in gates.Keys;
  }

  lemma OneCredentialIsGood(credentials: map<string, Credential>, id: string, reference: Option<string>, revision: int)
    requires GoodCredentials(credentials, revision) && id in credentials && Counter(revision + 1)
    requires reference.Some? ==> IsUuid(reference.value)
    ensures GoodCredentials(map[id := Credential(credentials[id].generation + 1, reference)], revision + 1)
  {
    assert id in credentials.Keys;
    assert GoodCredential(credentials[id], revision);
  }

  lemma TombstonesAreGood(credentials: map<string, Credential>, revision: int)
    requires GoodCredentials(credentials, revision) && Counter(revision + 1)
    ensures GoodCredentials(Tombstones(credentials), revision + 1)
  {
    forall id | id in Tombstones(credentials) ensures ValidId(id)
        && GoodCredential(Tombstones(credentials)[id], revision + 1) {
      assert id in credentials.Keys && GoodCredential(credentials[id], revision);
    }
  }

  lemma CredentialIdsAreValid(plugins: seq<Plugin>)
    requires forall plugin :: plugin in plugins ==> ValidPluginId(plugin.id)
    ensures ValidIds(CredentialIds(plugins))
  {
  }

  /** The defaults of the catalog pass the storage check under any revision, in full or in part. */
  lemma DefaultsAreGood(catalog: Catalog, revision: int, known: set<string>)
    requires ValidCatalog(catalog) && Counter(revision)
    ensures GoodGates(DefaultParents(catalog, revision) - known, revision)
    ensures GoodGates(DefaultTools(catalog, revision) - known, revision)
    ensures GoodCredentials(DefaultCredentials(catalog) - known, revision)
    ensures BUILTIN_GROUPS <= DefaultParents(catalog, revision).Keys
  {
    ParentDefaultsAreValidIds(catalog.plugins);
    CredentialIdsAreValid(catalog.plugins);
  }

  lemma AllDefaultsAreGood(catalog: Catalog, revision: int)
    requires ValidCatalog(catalog) && Counter(revision)
    ensures GoodGates(DefaultParents(catalog, revision), revision)
    ensures GoodGates(DefaultTools(catalog, revision), revision)
    ensures GoodCredentials(DefaultCredentials(catalog), revision)
    ensures BUILTIN_GROUPS <= DefaultParents(catalog, revision).Keys
  {
    hide DefaultParents, DefaultTools, DefaultCredentials, GoodGates, GoodCredentials, ValidCatalog;
    DefaultsAreGood(catalog, revision, {});
    assert DefaultParents(catalog, revision) - {} == DefaultParents(catalog, revision);
    assert DefaultTools(catalog, revision) - {} == DefaultTools(catalog, revision);
    assert DefaultCredentials(catalog) - {} == DefaultCredentials(catalog);
  }

  lemma PatchedParentIsSound(s: Snapshot, id: string, enabled: bool)
    requires Sound(s) && id in s.parents && s.revision < MAX_SAFE_INTEGER
    ensures Sound(Assign(s, map[id := Toggle(s.parents[id], enabled, s.revision + 1)], map[], map[]))
  {
    NothingIsGood(s.revision + 1);
    OneGateIsGood(s.parents, id, enabled, s.revision);
    AssignedIsSound(s, map[id := Toggle(s.parents[id], enabled, s.revision + 1)], map[], map[]);
  }

  lemma PatchedToolIsSound(s: Snapshot, id: string, enabled: bool)
    requires Sound(s) && id in s.tools && s.revision < MAX_SAFE_INTEGER
    ensures Sound(Assign(s, map[], map[id := Toggle(s.tools[id], enabled, s.revision + 1)], map[]))
  {
    NothingIsGood(s.revision + 1);
    OneGateIsGood(s.tools, id, enabled, s.revision);
    AssignedIsSound(s, map[], map[id := Toggle(s.tools[id], enabled, s.revision + 1)], map[]);
  }

  lemma PatchedIsSound(s: Snapshot, expected: Version, target: Target, id: string, enabled: bool)
    requires Sound(s) && PatchPolicy(s, expected, target, id, enabled).Accepted?
    ensures Sound(PatchPolicy(s, expected, target, id, enabled).snapshot)
  {
    hide GoodGates, GoodCredentials, Assign, Toggle;
    match target
    case Parents => PatchedParentIsSound(s, id, enabled);
    case Tools => PatchedToolIsSound(s, id, enabled);
  }

  lemma PublishedIsSound(s: Snapshot, expected: Version, generation: int, reference: string, enable: bool,
                         plugin: string)
    requires Sound(s) && PublishCredential(s, expected, generation, reference, enable, plugin).Accepted?
    ensures Sound(PublishCredential(s, expected, generation, reference, enable, plugin).snapshot)
  {
    OneCredentialIsGood(s.credentials, plugin, Some(reference), s.revision);
    NothingIsGood(s.revision + 1);
    var credentials := map[plugin := Credential(generation + 1, Some(reference))];
    if enable && !s.parents[plugin].enabled {
      OneGateIsGood(s.parents, plugin, true, s.revision);
      AssignedIsSound(s, map[plugin := Gate(true, s.revision + 1)], map[], credentials);
    } else {
      AssignedIsSound(s, map[], map[], credentials);
    }
  }

  lemma RemovedIsSound(s: Snapshot, expected: Version, plugin: string)
    requires Sound(s) && RemoveCredential(s, expected, plugin).Accepted?
    ensures Sound(RemoveCredential(s, expected, plugin).snapshot)
  {
    OneCredentialIsGood(s.credentials, plugin, None, s.revision);
    NothingIsGood(s.revision + 1);
    AssignedIsSound(s, map[], map[], map[plugin := Credential(s.credentials[plugin].generation + 1, None)]);
  }

  lemma NothingIsGood(revision: int)
    ensures GoodGates(map[], revision) && GoodCredentials(map[], revision)
  {
  }

  lemma ResetIsSound(s: Snapshot, catalog: Catalog)
    requires Sound(s) && ValidCatalog(catalog) && s.revision < MAX_SAFE_INTEGER
    ensures Sound(Assign(s, DefaultParents(catalog, s.revision + 1), DefaultTools(catalog, s.revision + 1),
                         DefaultCredentials(catalog) + Tombstones(s.credentials)))
  {
    hide GoodGates, ValidCatalog, DefaultParents, DefaultTools, DefaultCredentials, Tombstones, GoodCredential;
    var revision := s.revision + 1;
    AllDefaultsAreGood(catalog, revision);
    TombstonesAreGood(s.credentials, s.revision);
    CredentialsStayGood(DefaultCredentials(catalog), Tombstones(s.credentials), revision, revision);
    AssignedIsSound(s, DefaultParents(catalog, revision), DefaultTools(catalog, revision),
                    DefaultCredentials(catalog) + Tombstones(s.credentials));
  }

  lemma AcceptedIsSound(s: Snapshot, e: Event)
    requires Sound(s) && Versioned(e) && CatalogOk(e) && Transition(s, e).Accepted?
    ensures Sound(Transition(s, e).snapshot)
  {
    hide GoodGates, GoodCredentials, Assign, DefaultParents, DefaultTools, DefaultCredentials, Tombstones, ValidCatalog;
    match e
    case Patch(expected, target, id, enabled) => PatchedIsSound(s, expected, target, id, enabled);
    case Publish(expected, generation, reference, enable, plugin) =>
      PublishedIsSound(s, expected, generation, reference, enable, plugin);
    case Remove(expected, plugin) => RemovedIsSound(s, expected, plugin);
    case Reset(expected, catalog) => ResetIsSound(s, catalog);
  }

  /** Accepted transitions keep the stored form, keep the epoch, raise the revision by one, and
      were asked for under exactly the version they replace. */
  lemma AcceptedIsStored(s: Snapshot, e: Event)
    requires Stored(s) && Versioned(e) && CatalogOk(e) && Transition(s, e).Accepted?
    ensures Stored(Transition(s, e).snapshot)
    ensures Transition(s, e).snapshot.epoch == s.epoch == e.expected.epoch
    ensures Transition(s, e).snapshot.revision == s.revision + 1 == e.expected.revision + 1
  {
    StoredIsSound(s);
    AcceptedIsSound(s, e);
    StoredIsSound(Transition(s, e).snapshot);
  }

  lemma FilledInIsSound(s: Snapshot, migrated: bool, catalog: Catalog)
    requires Sound(s) && ValidCatalog(catalog) && FillIn(s, migrated, catalog).Some?
    ensures var next := FillIn(s, migrated, catalog).value;
            && Sound(next) && next.epoch == s.epoch
            && (next == s || next.revision == s.revision + 1)
  {
    hide GoodGates, GoodCredentials, ValidCatalog, DefaultParents, DefaultTools, DefaultCredentials;
    var revision := s.revision + 1;
    if FillIn(s, migrated, catalog).value != s {
      DefaultsAreGood(catalog, revision, s.parents.Keys);
      DefaultsAreGood(catalog, revision, s.tools.Keys);
      DefaultsAreGood(catalog, revision, s.credentials.Keys);
      AssignedIsSound(s, DefaultParents(catalog, revision) - s.parents.Keys,
                      DefaultTools(catalog, revision) - s.tools.Keys,
                       DefaultCredentials(catalog) - s.credentials.Keys);
    }
  }

  lemma DefaultsAreSound(epoch: string, catalog: Catalog)
    requires ValidCatalog(catalog) && epoch != "" && |epoch| <= 128
    ensures CreateDefaults(epoch, catalog).Some? && Sound(CreateDefaults(epoch, catalog).value)
  {
    AllDefaultsAreGood(catalog, 0);
  }

  /** A version-1 file is migrated to a snapshot that later reads accept as it is. */
  lemma MigratedIsStored(value: Snapshot)
    requires Decode(value).Readable?
    ensures Stored(Decode(value).snapshot)
  {
  }
}
