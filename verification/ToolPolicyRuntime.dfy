/** The policy part of `tool-policy-runtime.ts`: one agent session's view of the settings.

    A model turn works with the session that was applied at its boundary.  Tools that are not active
    by default get in by a manual activation, which the settings watcher re-examines; the watcher
    sees only some of the snapshots that were written. */
module ToolPolicyRuntime {
  import opened Wrappers
  import opened ToolPolicy
  import opened ToolPolicyHistory

  datatype Activation = Activation(epoch: string, revision: int, generation: nat)

  datatype Denial =
    | DisabledNow
    | Superseded
    | NotAvailable(status: Status)
    | Cancelled
    | CredentialChanged
    | RegistrationConflict
    | Unmanaged
    // any other exception under the lock, such as the look at a credential that is not there
    | SettingsUnavailable

  const NO_SESSION := Session("", -1, {})

  /** `observe` keeps an activation only if this holds. */
  predicate Survives(activation: Activation, tool: Descriptor, policy: Option<Snapshot>, generation: nat) {
    && policy.Some?
    && activation.epoch == policy.value.epoch && activation.generation == generation
    && IsOn(policy.value, Tools, tool.id) && IsOn(policy.value, Parents, tool.parent)
    && Max(policy.value.tools[tool.id].enabledAt, policy.value.parents[tool.parent].enabledAt) <= activation.revision
  }

  /** Somebody waits for the status of a plugin's credential, asked for under a version of the settings. */
  datatype Wait = Wait(plugin: string, epoch: string, revision: int)

  /** Whether a plugin has a tool in use that needs its credential. */
  predicate NeedsStatus(inventory: map<string, Descriptor>, policy: Snapshot, plugin: string) {
    && IsOn(policy, Parents, plugin)
    && exists id :: id in inventory && inventory[id].owner == plugin && NeedsCredential in inventory[id].requirements
                    && IsOn(policy, Tools, id)
  }

  /** `observe` cancels a wait unless this holds. */
  predicate MayWait(wait: Wait, inventory: map<string, Descriptor>, policy: Option<Snapshot>) {
    && policy.Some?
    && wait.epoch == policy.value.epoch && policy.value.revision <= wait.revision
    && NeedsStatus(inventory, policy.value, wait.plugin)
  }

  /** `observe` aborts a call of a plugin's tool unless this holds. */
  predicate MayGoOn(tool: Descriptor, policy: Option<Snapshot>) {
    && policy.Some?
    && IsOn(policy.value, Parents, tool.owner) && IsOn(policy.value, Tools, tool.id)
    && (NeedsCredential in tool.requirements ==>
          tool.owner in policy.value.credentials && policy.value.credentials[tool.owner].reference.Some?)
  }

  class Runtime {
    /** The installed tools by identifier. */
    const inventory: map<string, Descriptor>
    var session: Session
    var manual: map<string, Activation>
    var generation: nat
    /** The calls of plugin tools that are going on, by a number of their own, and the waits likewise. */
    var calls: map<nat, string>
    var waits: map<nat, Wait>
    /** The tools that were registered, and those whose name or plugin another extension has taken. */
    var definitions: set<string>
    var conflicts: set<string>

    /** Activations are of installed tools, under their own identifiers, and made in this conversation. */
    ghost predicate Valid()
      reads this
    {
      && (forall id :: id in manual ==> manual[id].generation == generation)
      && manual.Keys <= inventory.Keys && calls.Values <= inventory.Keys && definitions <= inventory.Keys
      && forall id :: id in inventory ==> inventory[id].id == id
    }

    constructor (inventory: map<string, Descriptor>)
      requires forall id :: id in inventory ==> inventory[id].id == id
      ensures Valid() && session == NO_SESSION && manual == map[] && this.inventory == inventory
      ensures definitions == conflicts == {} && calls == map[] && waits == map[]
    {
      this.inventory, session, manual, generation := inventory, NO_SESSION, map[], 0;
      definitions, conflicts, calls, waits := {}, {}, map[], map[];
    }

    /** A tool is registered once, unless its name is taken; only installed tools are. */
    method Register(id: string, taken: bool) returns (r: Result<bool, Denial>)
      requires Valid()
      modifies this`definitions, this`conflicts
      ensures Valid()
      ensures r == if id !in inventory then Err(Unmanaged) else Ok(id in old(definitions) || !taken)
      ensures definitions == if r == Ok(true) then old(definitions) + {id} else old(definitions)
      ensures conflicts == if r == Ok(false) then old(conflicts) + {id} else old(conflicts)
      // a conflict is for good, and for other tools nothing changes
      ensures id in Registered() <==> r == Ok(true) && id !in old(conflicts)
      ensures forall other :: other != id ==> (other in Registered() <==> other in old(Registered()))
    {
      if id !in inventory {
        return Err(Unmanaged);
      }
      if id in definitions {
        return Ok(true);
      }
      if taken {
        conflicts := conflicts + {id};
        return Ok(false);
      }
      definitions := definitions + {id};
      return Ok(true);
    }

    /** One name that is taken rejects the whole plugin. */
    method MarkPluginConflict(owner: string)
      requires Valid()
      modifies this`conflicts
      ensures Valid()
      ensures conflicts == old(conflicts) + set id | id in inventory && inventory[id].owner == owner
      ensures forall id :: id in Registered() <==>
                id in old(Registered()) && !(id in inventory && inventory[id].owner == owner)
    {
      conflicts := conflicts + set id | id in inventory && inventory[id].owner == owner;
    }

    function Registered(): set<string>
      reads this`definitions, this`conflicts
    {
      definitions - conflicts
    }

    /** The installed tools that are registered. */
    function Eligible(): set<Descriptor>
      reads this`definitions, this`conflicts
    {
      set id | id in inventory && id in Registered() :: inventory[id]
    }

    /** Binding to another conversation: whatever began in an earlier one is refused from now on. */
    method Bind()
      requires Valid()
      modifies this`session, this`manual, this`generation, this`calls, this`waits
      ensures Valid() && session == NO_SESSION && manual == map[] && generation == old(generation) + 1
      ensures calls == map[] && waits == map[]
    {
      generation := generation + 1;
      waits := map[];
      manual := map[];
      calls := map[];
      session := NO_SESSION;
    }

    /** A call of a plugin's tool begins, once it is admitted, and ends. */
    method BeginCall(c: nat, id: string)
      requires Valid() && id in inventory && c !in calls
      modifies this`calls
      ensures Valid() && calls == old(calls)[c := id]
    {
      calls := calls[c := id];
    }

    method EndCall(c: nat)
      requires Valid()
      modifies this`calls
      ensures Valid() && calls == old(calls) - {c}
    {
      calls := calls - {c};
    }

    /** The status of a plugin's credential: known at once, or to be waited for. */
    method AskStatus(w: nat, plugin: string, policy: Snapshot) returns (status: Option<KeyStatus>)
      requires Valid() && w !in waits
      modifies this`waits
      ensures Valid()
      ensures status == if plugin !in policy.credentials || policy.credentials[plugin].reference.None?
                        then Some(Missing)
                        else if !NeedsStatus(inventory, policy, plugin) then Some(Configured(None))
                        else None
      ensures waits == if status.Some? then old(waits)
                       else old(waits)[w := Wait(plugin, policy.epoch, policy.revision)]
      // a wait that begins is not one that the settings it began under would cancel
      ensures status.None? ==> MayWait(waits[w], inventory, Some(policy))
    {
      if plugin !in policy.credentials || policy.credentials[plugin].reference.None? {
        return Some(Missing);
      }
      if !NeedsStatus(inventory, policy, plugin) {
        return Some(Configured(None));
      }
      waits := waits[w := Wait(plugin, policy.epoch, policy.revision)];
      return None;
    }

    method EndWait(w: nat)
      requires Valid()
      modifies this`waits
      ensures Valid() && waits == old(waits) - {w}
    {
      waits := waits - {w};
    }

    method CancelWaits(policy: Option<Snapshot>)
      requires Valid()
      modifies this`waits
      ensures Valid()
      ensures waits == map w | w in old(waits) && MayWait(old(waits)[w], inventory, policy) :: old(waits)[w]
    {
      var todo := waits.Keys;
      ghost var before := waits;
      while todo != {}
        invariant todo <= before.Keys && waits.Keys <= before.Keys
        invariant forall w :: w in waits <==> w in before && (w in todo || MayWait(before[w], inventory, policy))
        invariant forall w :: w in waits ==> waits[w] == before[w]
      {
        var w :| w in todo;
        if !MayWait(waits[w], inventory, policy) {
          waits := waits - {w};
        }
        todo := todo - {w};
      }
    }

    method ObserveActivations(policy: Option<Snapshot>)
      requires Valid()
      modifies this`manual
      ensures Valid()
      ensures manual == map id | id in old(manual)
          && Survives(old(manual)[id], inventory[id], policy, generation) :: old(manual)[id]
    {
      var todo := manual.Keys;
      ghost var before := manual;
      while todo != {}
        invariant todo <= before.Keys && manual.Keys <= before.Keys
        invariant forall id :: id in manual <==>
                    id in before && (id in todo || Survives(before[id], inventory[id], policy, generation))
        invariant forall id :: id in manual ==> manual[id] == before[id]
      {
        var id :| id in todo;
        if !Survives(manual[id], inventory[id], policy, generation) {
          manual := manual - {id};
        }
        todo := todo - {id};
      }
    }

    method AbortCalls(policy: Option<Snapshot>)
      requires Valid()
      modifies this`calls
      ensures Valid()
      ensures calls == map c | c in old(calls) && MayGoOn(inventory[old(calls)[c]], policy) :: old(calls)[c]
    {
      var todo := calls.Keys;
      ghost var before := calls;
      while todo != {}
        invariant todo <= before.Keys && calls.Keys <= before.Keys && Valid()
        invariant forall c :: c in calls <==> c in before && (c in todo || MayGoOn(inventory[before[c]], policy))
        invariant forall c :: c in calls ==> calls[c] == before[c]
      {
        var c :| c in todo;
        if !MayGoOn(inventory[calls[c]], policy) {
          calls := calls - {c};
        }
        todo := todo - {c};
      }
    }

    /** What the settings now say decides which waits, activations and calls go on. */
    method Observe(policy: Option<Snapshot>)
      requires Valid()
      modifies this`waits, this`manual, this`calls
      ensures Valid()
      ensures waits == map w | w in old(waits) && MayWait(old(waits)[w], inventory, policy) :: old(waits)[w]
      ensures manual == map id | id in old(manual)
          && Survives(old(manual)[id], inventory[id], policy, generation) :: old(manual)[id]
      ensures calls == map c | c in old(calls) && MayGoOn(inventory[old(calls)[c]], policy) :: old(calls)[c]
    {
      CancelWaits(policy);
      ObserveActivations(policy);
      AbortCalls(policy);
    }

    /** The locked part of `activate`; `prepared` is the snapshot read before it, `bound` the conversation
        the call began in. */
    method Activate(id: string, bound: nat, prepared: Snapshot, policy: Snapshot, state: ToolPolicy.Runtime)
      returns (denied: Option<Denial>)
      requires Valid()
      modifies this`manual
      ensures Valid()
      ensures denied == if bound != generation then Some(Cancelled)
                        else ActivationDenial(inventory, Registered(), id, prepared, policy, state, session)
      ensures manual == if denied.None?
          then old(manual)[id := Activation(policy.epoch, policy.revision, generation)] else old(manual)
    {
      if bound != generation {
        return Some(Cancelled);
      }
      if id !in inventory || id in conflicts || id !in definitions || id !in policy.tools || !policy.tools[id].enabled
         || inventory[id].parent !in policy.parents || !policy.parents[inventory[id].parent].enabled {
        return Some(DisabledNow);
      }
      var entry := inventory[id];
      if prepared.epoch != policy.epoch
         || Max(policy.tools[id].enabledAt, policy.parents[entry.parent].enabledAt) > prepared.revision {
        return Some(Superseded);
      }
      var resolved := ResolveToolPolicy(entry, Some(policy), state, session, true);
      if !resolved.available {
        return Some(NotAvailable(resolved.status));
      }
      manual := manual[id := Activation(policy.epoch, policy.revision, generation)];
      return None;
    }

    /** The second locked part of `admitPlugin`, after the key was read under `prepared`; `bound` is the
        conversation the call began in. */
    method AdmitKey(tool: Descriptor, plugin: string, bound: nat, aborted: bool, prepared: Snapshot, policy: Snapshot,
                    state: ToolPolicy.Runtime)
      returns (denied: Option<Denial>)
      requires Valid()
      ensures denied == KeyDenial(tool, plugin, bound == generation && !aborted, tool.id in conflicts,
                                  prepared, policy, state, session)
    {
      if bound != generation || aborted {
        return Some(Cancelled);
      }
      if policy.epoch != prepared.epoch {
        return Some(CredentialChanged);
      }
      if plugin !in policy.credentials || plugin !in prepared.credentials {
        return Some(Denial.SettingsUnavailable);
      }
      if policy.credentials[plugin].generation != prepared.credentials[plugin].generation
         || policy.credentials[plugin].reference != prepared.credentials[plugin].reference {
        return Some(CredentialChanged);
      }
      if tool.id in conflicts {
        return Some(RegistrationConflict);
      }
      var resolved := ResolveToolPolicy(tool, Some(policy), state, session, true);
      return if resolved.callable then None else Some(NotAvailable(resolved.status));
    }

    /** The locked part of `reconcileSnapshot`. */
    method Reconcile(bound: nat, latest: Snapshot, state: ToolPolicy.Runtime, progressive: bool,
                     boundary: bool, busy: bool)
      returns (cancelled: bool)
      requires Valid()
      modifies this`waits, this`manual, this`calls, this`session
      ensures Valid() && cancelled == (bound != generation)
      ensures cancelled ==> manual == old(manual) && session == old(session) && calls == old(calls)
                            && waits == old(waits)
      ensures !cancelled ==>
                && (forall c :: c in calls <==> c in old(calls) && MayGoOn(inventory[old(calls)[c]], Some(latest)))
                && (forall w :: w in waits <==> w in old(waits) && MayWait(old(waits)[w], inventory, Some(latest)))
                && manual == (map id | id in old(manual)
                    && Survives(old(manual)[id], inventory[id], Some(latest), generation) :: old(manual)[id])
                && session == if boundary || !busy
                              then ReconcileSession(Eligible(), latest, state, progressive, manual.Keys)
                              else old(session)
    {
      hide ReconcileSession, MayWait, MayGoOn, Survives;
      if bound != generation {
        return true;
      }
      Observe(Some(latest));
      if !boundary && busy {
        return false;
      }
      var eligible := set id | id in inventory && id !in conflicts && id in definitions :: inventory[id];
      assert eligible == Eligible();
      session := ReconcileSession(eligible, latest, state, progressive, manual.Keys);
      return false;
    }
  }

  /** Why `activate` refuses, if it does. */
  function ActivationDenial(inventory: map<string, Descriptor>, registered: set<string>, id: string,
                            prepared: Snapshot, policy: Snapshot, state: ToolPolicy.Runtime, session: Session)
    : (denied: Option<Denial>)
    ensures denied.None? <==> MayActivate(inventory, registered, id, prepared, policy, state, session)
  {
    if id !in inventory || id !in registered
       || !IsOn(policy, Tools, id) || !IsOn(policy, Parents, inventory[id].parent)
    then Some(DisabledNow)
    else if prepared.epoch != policy.epoch
            || Max(policy.tools[id].enabledAt, policy.parents[inventory[id].parent].enabledAt) > prepared.revision
    then Some(Superseded)
    else
      var resolved := ResolveToolPolicy(inventory[id], Some(policy), state, session, true);
      if resolved.available then None else Some(NotAvailable(resolved.status))
  }

  /** Why `admitPlugin` refuses, if it does. */
  function KeyDenial(tool: Descriptor, plugin: string, bound: bool, conflict: bool, prepared: Snapshot,
                     policy: Snapshot, state: ToolPolicy.Runtime, session: Session)
    : (denied: Option<Denial>)
    ensures denied.None? <==> MayHaveKey(tool, plugin, bound, conflict, prepared, policy, state, session)
  {
    if !bound then Some(Cancelled)
    else if policy.epoch == prepared.epoch && !(plugin in policy.credentials && plugin in prepared.credentials)
    then Some(Denial.SettingsUnavailable)
    else if !SameCredential(prepared, policy, plugin) then Some(CredentialChanged)
    else if conflict then Some(RegistrationConflict)
    else
      var resolved := ResolveToolPolicy(tool, Some(policy), state, session, true);
      if resolved.callable then None else Some(NotAvailable(resolved.status))
  }

  /** What `admitPlugin` demands under the lock before it hands out the key. */
  predicate MayHaveKey(tool: Descriptor, plugin: string, bound: bool, conflict: bool, prepared: Snapshot,
                       policy: Snapshot, state: ToolPolicy.Runtime, session: Session) {
    && bound && !conflict
    && SameCredential(prepared, policy, plugin)
    && ResolveToolPolicy(tool, Some(policy), state, session, true).callable
  }

  /** What `activate` demands: registered, on now, on already when the request was prepared, and available. */
  predicate MayActivate(inventory: map<string, Descriptor>, registered: set<string>, id: string,
                        prepared: Snapshot, policy: Snapshot, state: ToolPolicy.Runtime, session: Session) {
    && id in inventory && id in registered
    && IsOn(policy, Tools, id) && IsOn(policy, Parents, inventory[id].parent)
    && prepared.epoch == policy.epoch
    && Max(policy.tools[id].enabledAt, policy.parents[inventory[id].parent].enabledAt) <= prepared.revision
    && ResolveToolPolicy(inventory[id], Some(policy), state, session, true).available
  }

  lemma OnSinceStamp(h: History, k: nat, n: nat, tool: Descriptor, revision: int)
    requires h.Valid() && k <= n < |h.snapshots| && h.snapshots[k].epoch == h.snapshots[n].epoch
    requires revision <= h.snapshots[k].revision
    requires IsOn(h.snapshots[n], Tools, tool.id) && IsOn(h.snapshots[n], Parents, tool.parent)
    requires h.snapshots[n].tools[tool.id].enabledAt <= revision
        && h.snapshots[n].parents[tool.parent].enabledAt <= revision
    ensures forall j :: k <= j <= n ==>
              IsOn(h.snapshots[j], Tools, tool.id) && IsOn(h.snapshots[j], Parents, tool.parent)
  {
    HistoriesHaveGates(h, Tools, tool.id);
    HistoriesHaveGates(h, Parents, tool.parent);
    EpochsAreStretches(h, k, n);
    forall j | k <= j <= n ensures IsOn(h.snapshots[j], Tools, tool.id) && IsOn(h.snapshots[j], Parents, tool.parent) {
      EpochsAreStretches(h, k, j);
      StampsAreTrue(h, n, j, Tools, tool.id);
      StampsAreTrue(h, n, j, Parents, tool.parent);
    }
  }

  /** An activation survives an observation exactly if it was made in this conversation and this epoch, tool and
      parent have been on in every snapshot since, and no reset has stamped one of them. */
  lemma ActivationSurvivesExactly(h: History, a: nat, n: nat, tool: Descriptor, generation: nat, now: nat)
    requires h.Valid() && a <= n < |h.snapshots|
    ensures Survives(Activation(h.snapshots[a].epoch, h.snapshots[a].revision, generation), tool, Some(h.snapshots[n]),
                     now)
            <==>
            && now == generation && h.snapshots[n].epoch == h.snapshots[a].epoch
            && (forall j :: a <= j <= n ==>
                  IsOn(h.snapshots[j], Tools, tool.id) && IsOn(h.snapshots[j], Parents, tool.parent))
            && (forall j :: a <= j < n ==>
                  !Restamps(h.events[j], Tools, tool.id) && !Restamps(h.events[j], Parents, tool.parent))
  {
    var activation := Activation(h.snapshots[a].epoch, h.snapshots[a].revision, generation);
    HistoriesHaveGates(h, Tools, tool.id);
    HistoriesHaveGates(h, Parents, tool.parent);
    if Survives(activation, tool, Some(h.snapshots[n]), now) {
      hide GateHistory, Restamps;
      OnSinceStamp(h, a, n, tool, h.snapshots[a].revision);
      forall j | a <= j < n
        ensures !Restamps(h.events[j], Tools, tool.id) && !Restamps(h.events[j], Parents, tool.parent)
      {
        OldStampMeansNoReset(h, a, j, n, Tools, tool.id);
        OldStampMeansNoReset(h, a, j, n, Parents, tool.parent);
      }
    } else {
      UnstampedSurvives(h, a, n, tool, generation, now);
    }
  }

  lemma UnstampedSurvives(h: History, a: nat, n: nat, tool: Descriptor, generation: nat, now: nat)
    requires h.Valid() && a <= n < |h.snapshots|
    ensures && now == generation && h.snapshots[n].epoch == h.snapshots[a].epoch
            && (forall j :: a <= j <= n ==>
                  IsOn(h.snapshots[j], Tools, tool.id) && IsOn(h.snapshots[j], Parents, tool.parent))
            && (forall j :: a <= j < n ==>
                  !Restamps(h.events[j], Tools, tool.id) && !Restamps(h.events[j], Parents, tool.parent))
            ==>
            Survives(Activation(h.snapshots[a].epoch, h.snapshots[a].revision, generation), tool, Some(h.snapshots[n]),
                     now)
  {
    if && h.snapshots[n].epoch == h.snapshots[a].epoch
       && (forall j :: a <= j <= n ==>
             IsOn(h.snapshots[j], Tools, tool.id) && IsOn(h.snapshots[j], Parents, tool.parent))
       && (forall j :: a <= j < n ==>
             !Restamps(h.events[j], Tools, tool.id) && !Restamps(h.events[j], Parents, tool.parent)) {
      HistoriesHaveGates(h, Tools, tool.id);
      HistoriesHaveGates(h, Parents, tool.parent);
      StampIsNotAhead(h, a, Tools, tool.id);
      StampIsNotAhead(h, a, Parents, tool.parent);
      hide GateHistory, Restamps, Sound;
      StampStaysOld(h, a, n, Tools, tool.id);
      StampStaysOld(h, a, n, Parents, tool.parent);
    }
  }

  /** A wait for a credential's status lasts exactly until other settings are seen, and while it is needed. */
  lemma WaitLastsExactly(h: History, i: nat, n: nat, plugin: string, inventory: map<string, Descriptor>)
    requires h.Valid() && i <= n < |h.snapshots|
    ensures MayWait(Wait(plugin, h.snapshots[i].epoch, h.snapshots[i].revision), inventory, Some(h.snapshots[n]))
            <==> i == n && NeedsStatus(inventory, h.snapshots[n], plugin)
  {
    HistoriesHaveVersions(h);
    if i < n {
      VersionsAreDistinct(h, i, n);
    }
  }

  /** A plugin's key is looked after exactly while one of its tools that need it may be used. */
  lemma StatusIsNeededExactly(inventory: map<string, Descriptor>, policy: Snapshot, plugin: string)
    requires forall id :: id in inventory ==> inventory[id].id == id
    requires forall id :: id in inventory && inventory[id].owner == plugin ==> inventory[id].parent == plugin
    ensures NeedsStatus(inventory, policy, plugin) <==>
            exists id :: id in inventory && inventory[id].owner == plugin
                         && NeedsCredential in inventory[id].requirements
                         && Permission(inventory[id], Some(policy)).None?
  {
    forall id | id in inventory && inventory[id].owner == plugin
      ensures Permission(inventory[id], Some(policy)).None?
              <==> IsOn(policy, Tools, id) && IsOn(policy, Parents, plugin)
    {
    }
    hide Permission, IsOn;
  }

  /** A call of a plugin's own tool goes on exactly while its gates are on and the key it needs is there. */
  lemma CallGoesOnExactly(tool: Descriptor, policy: Snapshot)
    requires tool.parent == tool.owner
    ensures !MayGoOn(tool, None)
    ensures MayGoOn(tool, Some(policy)) <==>
            && Permission(tool, Some(policy)).None?
            && (NeedsCredential in tool.requirements ==>
                  tool.owner in policy.credentials && policy.credentials[tool.owner].reference.Some?)
  {
  }

  /** Why an activation is refused: the tool is not there or not on; it was turned on after the request was prepared,
      or the settings began anew; or something it needs is missing, and then that is named. */
  lemma ActivationDenialIsExact(inventory: map<string, Descriptor>, registered: set<string>, id: string,
                                prepared: Snapshot, policy: Snapshot, state: ToolPolicy.Runtime, session: Session)
    ensures var denied := ActivationDenial(inventory, registered, id, prepared, policy, state, session);
            var there := id in inventory && id in registered
                         && IsOn(policy, Tools, id) && IsOn(policy, Parents, inventory[id].parent);
            var onThen := there && prepared.epoch == policy.epoch
                          && policy.tools[id].enabledAt <= prepared.revision
                          && policy.parents[inventory[id].parent].enabledAt <= prepared.revision;
            && (denied == Some(DisabledNow) <==> !there)
            && (denied == Some(Superseded) <==> there && !onThen)
            && (denied.Some? && denied.value.NotAvailable? <==>
                  onThen && !ResolveToolPolicy(inventory[id], Some(policy), state, session, true).available)
            && (denied.Some? && denied.value.NotAvailable? ==>
                  denied.value.status == ResolveToolPolicy(inventory[id], Some(policy), state, session, true).status)
            && (denied.Some? ==> denied.value.DisabledNow? || denied.value.Superseded? || denied.value.NotAvailable?)
  {
    hide ResolveToolPolicy;
  }

  /** Why a key is not handed out, in the order in which that is found out. */
  lemma KeyDenialIsExact(tool: Descriptor, plugin: string, bound: bool, conflict: bool, prepared: Snapshot,
                         policy: Snapshot, state: ToolPolicy.Runtime, session: Session)
    ensures var denied := KeyDenial(tool, plugin, bound, conflict, prepared, policy, state, session);
            var there := plugin in policy.credentials && plugin in prepared.credentials;
            var same := there && policy.epoch == prepared.epoch
                        && policy.credentials[plugin] == prepared.credentials[plugin];
            var resolved := ResolveToolPolicy(tool, Some(policy), state, session, true);
            && (denied == Some(Cancelled) <==> !bound)
            && (denied == Some(Denial.SettingsUnavailable) <==> bound && policy.epoch == prepared.epoch && !there)
            && (denied == Some(CredentialChanged) <==> bound && !same && !(policy.epoch == prepared.epoch && !there))
            && (denied == Some(RegistrationConflict) <==> bound && same && conflict)
            && (denied == Some(NotAvailable(resolved.status)) <==> bound && same && !conflict && !resolved.callable)
            && (denied.None? <==> bound && same && !conflict && resolved.callable)
  {
    hide ResolveToolPolicy;
  }

  /** A manual activation that is still there after an observation has never been overtaken by a
      disable, in any snapshot from the one its request was prepared under to the observed one,
      although the watcher may have seen none of those in between. */
  lemma SurvivingActivationWasNeverDisabled(h: History, p: nat, a: nat, n: nat, inventory: map<string, Descriptor>,
                                            registered: set<string>, id: string,
                                            state: ToolPolicy.Runtime, session: Session, generation: nat)
    requires h.Valid() && p <= a <= n < |h.snapshots|
    requires id in inventory && inventory[id].id == id
    requires MayActivate(inventory, registered, id, h.snapshots[p], h.snapshots[a], state, session)
    requires Survives(Activation(h.snapshots[a].epoch, h.snapshots[a].revision, generation), inventory[id],
        Some(h.snapshots[n]), generation)
    ensures forall j :: p <= j <= n ==>
              IsOn(h.snapshots[j], Tools, id) && IsOn(h.snapshots[j], Parents, inventory[id].parent)
  {
    OnSinceStamp(h, p, a, inventory[id], h.snapshots[p].revision);
    OnSinceStamp(h, a, n, inventory[id], h.snapshots[a].revision);
  }

  /** When `admitPlugin` hands out a key, read under snapshot `i`, with the session applied at `k`: nobody
      published, removed or reset the credential since `i`, and the tool and its parent have been on in
      every snapshot since `k`. */
  lemma AdmittedPluginCall(h: History, k: nat, i: nat, tool: Descriptor, plugin: string, bound: bool, conflict: bool,
                           state: ToolPolicy.Runtime, session: Session)
    requires h.Valid() && AppliedAt(h, session, k) && i < |h.snapshots| && plugin in h.snapshots[i].credentials
    requires MayHaveKey(tool, plugin, bound, conflict, h.snapshots[i], h.Latest(), state, session)
    ensures forall e :: i <= e < |h.events| ==> !Touches(h.events[e], plugin)
    ensures forall j :: i <= j < |h.snapshots| ==>
              plugin in h.snapshots[j].credentials
                  && h.snapshots[j].credentials[plugin] == h.snapshots[i].credentials[plugin]
    ensures OnThroughout(h, k, tool)
  {
    AdmittedKeyIsUntouched(h, i, |h.snapshots| - 1, plugin);
    CallableMeansNeverDisabled(h, k, tool, state, session, true);
  }
}
