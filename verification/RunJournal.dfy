/** The write-ahead journal of script runs: `runBatch`, `update`, `reconcileRun` and `replay`.

    The model follows one batch identity.  Any number of `runBatch` calls race for it, in any
    number of processes; one of them writes the inventory and becomes the runner, the others only
    inspect.  Inspectors read a record, decide, and write back later, from a stale copy.
    Each locked transaction is one step (its atomicity is what `WriterLock` proves); every await
    and every unlocked read ends a step.  A write may land although the call that made it throws.

    Run identifiers of different batches differ, so other batches never touch these records. */
module RunJournal {
  import opened Wrappers

  datatype RunState = Prepared | Dispatching | Completed | Failed | NotStarted | OutcomeUnknown | NotRun {
    predicate Terminal() {
      Completed? || Failed? || NotStarted? || NotRun?
    }
  }

  /** `claimId` and `processId` of a record's owner. */
  datatype Owner = Owner(claim: nat, process: nat)

  datatype Record = Record(version: nat, state: RunState, owner: Owner)

  /** How a journal write ends: done, refused before the rename, or thrown after the rename. */
  datatype WriteResult = Done | Refused | ThrownAfterRename

  // ----- `update` -----

  /** The transaction of `update`: what it returns, and what it leaves in the journal. */
  function Merge(current: Record, run: Record, change: RunState): (next: Record) {
    if current.version != run.version
       && (!change.Terminal() || current.state.Terminal() || current.owner.claim != run.owner.claim)
    then current
    else current.(state := change, version := current.version + 1)
  }

  function Written(current: Record, run: Record, change: RunState, w: WriteResult): Record {
    if w.Refused? then current else Merge(current, run, change)
  }

  // ----- The state -----

  /** The runner's place in the loop of `runBatch`; `i` is the item, `run` its local copy. */
  datatype Pc =
    | AtItem(i: nat, stop: bool)
    | HasRead(i: nat, stop: bool, run: Record)
    | Journaled(i: nat, run: Record)
    | InFlight(i: nat, run: Record)
    | HasResult(i: nat, run: Record, change: RunState)
    | Finished

  /** An inspector in process `process`: a copy of record `i`, and the change it decided on. */
  datatype Inspector = Inspector(process: nat, i: nat, run: Record, change: Option<RunState>)

  /** `runner` is None before the admission, and forever when the admission threw after its write
      had landed.  `sent` lists the items whose `backend.run` was called, in order. */
  datatype State = State(
    owner: Option<Owner>,
    records: seq<Record>,
    runner: Option<Pc>,
    dead: set<nat>,
    inspectors: map<nat, Inspector>,
    sent: seq<nat>)

  ghost predicate Initial(s: State) {
    s.owner.None? && s.records == [] && s.runner.None? && s.inspectors == map[] && s.sent == []
  }

  /** The claim is in `activeRunnerClaims` of its process. */
  predicate ActiveClaim(s: State, claim: nat) {
    s.owner.Some? && s.owner.value.claim == claim && s.runner.Some? && !s.runner.value.Finished?
  }

  /** The runner may still take steps: its call is not over and its process lives. */
  predicate RunnerLives(s: State) {
    s.owner.Some? && s.runner.Some? && !s.runner.value.Finished? && s.owner.value.process !in s.dead
  }

  /** Admit: the transaction that writes the inventory; `lands` is false when it finds one.
      AdmitThrows: the inventory is on disk but the call failed.  The rest follow the loop.
      Look, Judge or Consult, and Report are the parts of `reconcileRun`. */
  datatype Event =
    | Admit(owner: Owner, items: nat)
    | AdmitThrows(owner: Owner, items: nat)
    | ReadItem(readable: bool)
    | Skip(w: WriteResult)
    | Foreign
    | Mark(w: WriteResult)
    | Cancel(w: WriteResult)
    | NotSent(change: RunState)
    | Send
    | Reply(change: RunState)
    | Finalize(w: WriteResult, aborted: bool)
    | Finish
    | Die(process: nat)
    | Look(id: nat, process: nat, item: nat)
    | Judge(id: nat, saysDead: bool)
    | Consult(id: nat, change: RunState)
    | Report(id: nat, w: WriteResult)

  /** The two liveness checks of `reconcileRun` on a prepared record: the claim of its own process
      is no longer active, or `provenDead` says so.  The first is right by construction; the second
      is an answer about a process number, asked without comparing host names. */
  predicate Abandoned(s: State, inspector: Inspector, saysDead: bool) {
    (inspector.run.owner.process == inspector.process && !ActiveClaim(s, inspector.run.owner.claim)) || saysDead
  }

  /** `provenDead` called no live process dead. */
  predicate SoundAnswer(s: State, e: Event) {
    e.Judge? && e.saysDead && e.id in s.inspectors ==> s.inspectors[e.id].run.owner.process in s.dead
  }

  predicate Enabled(s: State, e: Event) {
    match e
    case Admit(owner, items) => s.owner.None? && 1 <= items <= 100 && owner.process !in s.dead
    case AdmitThrows(owner, items) => s.owner.None? && 1 <= items <= 100 && owner.process !in s.dead
    case ReadItem(_) => RunnerLives(s) && s.runner.value.AtItem? && s.runner.value.i < |s.records|
    // `stop`, or the abort signal
    case Skip(_) => RunnerLives(s) && s.runner.value.HasRead? && s.runner.value.i < |s.records|
    case Foreign =>
      && RunnerLives(s) && s.runner.value.HasRead? && !s.runner.value.stop
      && (!s.runner.value.run.state.Prepared? || s.runner.value.run.owner != s.owner.value)
    case Mark(_) =>
      && RunnerLives(s) && s.runner.value.HasRead? && !s.runner.value.stop && s.runner.value.i < |s.records|
      && s.runner.value.run.state.Prepared? && s.runner.value.run.owner == s.owner.value
    case Cancel(_) => RunnerLives(s) && s.runner.value.Journaled? && s.runner.value.i < |s.records|
    // policy denial, or any other failure of the admission before the call
    case NotSent(change) => RunnerLives(s) && s.runner.value.Journaled?
        && (change.NotStarted? || change.OutcomeUnknown?)
    case Send => RunnerLives(s) && s.runner.value.Journaled?
    case Reply(change) => RunnerLives(s) && s.runner.value.InFlight? && IsResult(change)
    case Finalize(_, _) => RunnerLives(s) && s.runner.value.HasResult? && s.runner.value.i < |s.records|
    case Finish => RunnerLives(s) && s.runner.value.AtItem? && s.runner.value.i == |s.records|
    case Die(_) => true
    case Look(id, process, item) =>
      id !in s.inspectors && process !in s.dead && item < |s.records| && !s.records[item].state.Terminal()
    case Judge(id, saysDead) =>
      && id in s.inspectors && s.inspectors[id].change.None? && s.inspectors[id].process !in s.dead
      && s.inspectors[id].run.state.Prepared?
    // the lookup answers with a terminal result only for an operation that was sent
    case Consult(id, change) =>
      && id in s.inspectors && s.inspectors[id].change.None? && s.inspectors[id].process !in s.dead
      && (s.inspectors[id].run.state.Dispatching? || s.inspectors[id].run.state.OutcomeUnknown?)
      && !(s.inspectors[id].run.owner.process == s.inspectors[id].process
          && ActiveClaim(s, s.inspectors[id].run.owner.claim))
      && IsResult(change) && (change.Terminal() ==> s.inspectors[id].i in s.sent)
    case Report(id, _) =>
      && id in s.inspectors && s.inspectors[id].change.Some? && s.inspectors[id].process !in s.dead
      && s.inspectors[id].i < |s.records|
  }

  /** The states `resultChange` produces. */
  predicate IsResult(change: RunState) {
    change.Completed? || change.Failed? || change.NotStarted? || change.OutcomeUnknown?
  }

  function Inventory(owner: Owner, items: nat): seq<Record> {
    seq(items, _ => Record(1, Prepared, owner))
  }

  function Put(s: State, i: nat, record: Record, pc: Pc): State
    requires i < |s.records|
  {
    s.(records := s.records[i := record], runner := Some(pc))
  }

  function Apply(s: State, e: Event): State
    requires Enabled(s, e)
  {
    match e
    case Admit(owner, items) =>
      s.(owner := Some(owner), records := Inventory(owner, items), runner := Some(AtItem(0, false)))
    case AdmitThrows(owner, items) =>
      s.(owner := Some(owner), records := Inventory(owner, items))
    case ReadItem(readable) =>
      var pc := s.runner.value;
      if readable
      then s.(runner := Some(HasRead(pc.i, pc.stop, s.records[pc.i])))
      else s.(runner := Some(AtItem(pc.i + 1, true)))
    case Skip(w) =>
      var pc := s.runner.value;
      Put(s, pc.i, Written(s.records[pc.i], pc.run, NotRun, w), AtItem(pc.i + 1, true))
    case Foreign =>
      s.(runner := Some(AtItem(s.runner.value.i + 1, true)))
    case Mark(w) =>
      var pc := s.runner.value;
      var run := Merge(s.records[pc.i], pc.run, Dispatching);
      var written := Written(s.records[pc.i], pc.run, Dispatching, w);
      if w.Done? && run.state.Dispatching? && run.owner.claim == s.owner.value.claim
      then Put(s, pc.i, written, Journaled(pc.i, run))
      else Put(s, pc.i, written, AtItem(pc.i + 1, true))
    case Cancel(w) =>
      var pc := s.runner.value;
      Put(s, pc.i, Written(s.records[pc.i], pc.run, NotStarted, w), AtItem(pc.i + 1, true))
    case NotSent(change) =>
      s.(runner := Some(HasResult(s.runner.value.i, s.runner.value.run, change)))
    case Send =>
      s.(runner := Some(InFlight(s.runner.value.i, s.runner.value.run)), sent := s.sent + [s.runner.value.i])
    case Reply(change) =>
      s.(runner := Some(HasResult(s.runner.value.i, s.runner.value.run, change)))
    case Finalize(w, aborted) =>
      var pc := s.runner.value;
      var run := Merge(s.records[pc.i], pc.run, pc.change);
      Put(s, pc.i, Written(s.records[pc.i], pc.run, pc.change, w),
          AtItem(pc.i + 1, !w.Done? || !run.state.Completed? || aborted))
    case Finish => s.(runner := Some(Finished))
    case Die(process) => s.(dead := s.dead + {process})
    case Look(id, process, item) =>
      s.(inspectors := s.inspectors[id := Inspector(process, item, s.records[item], None)])
    case Judge(id, saysDead) =>
      if Abandoned(s, s.inspectors[id], saysDead)
      then s.(inspectors := s.inspectors[id := s.inspectors[id].(change := Some(NotStarted))])
      else s.(inspectors := s.inspectors - {id})
    case Consult(id, change) =>
      s.(inspectors := s.inspectors[id := s.inspectors[id].(change := Some(change))])
    case Report(id, w) =>
      var inspector := s.inspectors[id];
      s.(records := s.records[inspector.i := Written(s.records[inspector.i], inspector.run, inspector.change.value, w)],
         // an inspector whose write failed may try again from the same copy
         inspectors := if w.Done? then s.inspectors - {id} else s.inspectors[id := inspector.(change := None)])
  }

  predicate Next(s: State, e: Event, s': State) {
    Enabled(s, e) && s' == Apply(s, e)
  }

  predicate IsRun(states: seq<State>, events: seq<Event>) {
    && |states| == |events| + 1
    && forall i :: 0 <= i < |events| ==> Next(states[i], events[i], states[i + 1])
  }

  // ----- The invariant -----

  /** `run` was once read from a record that has only been rewritten with higher versions since. */
  predicate CopyOf(run: Record, current: Record) {
    && run.owner == current.owner
    && run.version <= current.version
    && (run.version == current.version ==> run == current)
  }

  /** The runner has passed item `j`, or has journaled it as dispatching and is still at it. */
  predicate Touched(s: State, j: nat) {
    && s.runner.Some?
    && match s.runner.value
       case AtItem(i, _) => j < i
       case HasRead(i, _, _) => j < i
       case Journaled(i, _) => j <= i
       case InFlight(i, _) => j <= i
       case HasResult(i, _, _) => j <= i
       case Finished => true
  }

  predicate EarlierCompleted(s: State, i: nat) {
    forall j :: 0 <= j < i && j < |s.records| ==> s.records[j].state.Completed?
  }

  /** What the runner has not reached is as the inventory left it, or given up by an inspector;
      results come from dispatches. */
  predicate GoodRecord(s: State, j: nat)
    requires j < |s.records|
  {
    var state := s.records[j].state;
    && s.owner == Some(s.records[j].owner)
    && (!Touched(s, j) ==> j !in s.sent && (state.Prepared? || state.NotStarted?))
    && (state.Completed? || state.Failed? ==> j in s.sent)
    && (state.Prepared? || state.NotRun? ==> j !in s.sent)
  }

  predicate GoodInspector(s: State, inspector: Inspector) {
    && inspector.i < |s.records|
    && CopyOf(inspector.run, s.records[inspector.i])
    && !inspector.run.state.Terminal()
    && (!Touched(s, inspector.i) ==> inspector.run.state.Prepared?)
    && (inspector.change.Some? ==>
          var change := inspector.change.value;
          && IsResult(change)
          && (inspector.run.state.Prepared? ==> change.NotStarted?)
          && (change.Terminal() ==> change.NotStarted? || inspector.i in s.sent))
  }

  /** The runner holds item `i` journaled as dispatching under its own claim. */
  predicate Dispatches(s: State, i: nat, run: Record) {
    && i < |s.records|
    && CopyOf(run, s.records[i])
    && run.state.Dispatching?
    && !s.records[i].state.Prepared? && !s.records[i].state.NotRun?
    && EarlierCompleted(s, i)
  }

  predicate GoodRunner(s: State, pc: Pc) {
    match pc
    case AtItem(i, stop) => i <= |s.records| && (stop || EarlierCompleted(s, i))
    case HasRead(i, stop, run) => i < |s.records| && CopyOf(run, s.records[i]) && (stop || EarlierCompleted(s, i))
    case Journaled(i, run) => Dispatches(s, i, run) && i !in s.sent
    case InFlight(i, run) => Dispatches(s, i, run) && i in s.sent
    case HasResult(i, run, change) =>
      Dispatches(s, i, run) && IsResult(change) && (change.Completed? || change.Failed? ==> i in s.sent)
    case Finished => true
  }

  predicate Ascending(sent: seq<nat>) {
    forall a, b :: 0 <= a < b < |sent| ==> sent[a] < sent[b]
  }

  predicate GoodSends(s: State) {
    && Ascending(s.sent)
    && forall k :: k in s.sent ==> k < |s.records| && Touched(s, k) && EarlierCompleted(s, k)
  }

  predicate Invariant(s: State) {
    && (s.owner.None? ==> s.records == [] && s.runner.None? && s.sent == [])
    && (forall j :: 0 <= j < |s.records| ==> GoodRecord(s, j))
    && (forall id :: id in s.inspectors ==> GoodInspector(s, s.inspectors[id]))
    && (s.runner.Some? ==> GoodRunner(s, s.runner.value))
    && GoodSends(s)
  }

  // ----- The invariant is kept -----

  lemma AdmissionKeeps(s: State, e: Event)
    requires Invariant(s) && Enabled(s, e) && (e.Admit? || e.AdmitThrows?)
    ensures Invariant(Apply(s, e))
  {
  }

  lemma InspectorsKeep(s: State, inspectors: map<nat, Inspector>)
    requires Invariant(s)
    requires forall id :: id in inspectors ==> GoodInspector(s, inspectors[id])
    ensures Invariant(s.(inspectors := inspectors))
  {
    var s' := s.(inspectors := inspectors);
    assert forall j :: Touched(s', j) == Touched(s, j);
    forall id | id in s'.inspectors ensures GoodInspector(s', s'.inspectors[id]) {
      assert GoodInspector(s, s'.inspectors[id]);
    }
    forall j | 0 <= j < |s.records| ensures GoodRecord(s', j) {
      assert GoodRecord(s, j);
    }
  }

  /** The runner moves on, and nothing it had reached becomes unreached. */
  lemma MoveKeeps(s: State, pc: Pc)
    requires Invariant(s) && s.runner.Some?
    requires GoodRunner(s.(runner := Some(pc)), pc)
    requires forall j :: Touched(s, j) ==> Touched(s.(runner := Some(pc)), j)
    ensures Invariant(s.(runner := Some(pc)))
  {
    var s' := s.(runner := Some(pc));
    forall id | id in s'.inspectors ensures GoodInspector(s', s'.inspectors[id]) {
      assert GoodInspector(s, s'.inspectors[id]);
    }
    forall j | 0 <= j < |s.records| ensures GoodRecord(s', j) {
      assert GoodRecord(s, j);
    }
  }

  /** How one step may change one record. */
  predicate RecordStep(before: Record, after: Record) {
    || after == before
    || (&& after.version == before.version + 1 && after.owner == before.owner
        && (before.state.Terminal() ==> before.state.NotStarted? && after.state.NotRun?))
  }

  lemma RecordStepKeepsCopies(before: Record, after: Record, copy: Record)
    requires RecordStep(before, after) && CopyOf(copy, before)
    ensures CopyOf(copy, after)
    ensures before.state.Completed? || before.state.Failed? ==> after == before
  {
  }

  /** Item `i` is rewritten; nothing but its own record changes. */
  lemma RewriteKeeps(s: State, i: nat, record: Record)
    requires Invariant(s) && i < |s.records| && RecordStep(s.records[i], record)
    requires GoodRecord(s.(records := s.records[i := record]), i)
    requires s.runner.Some? ==> GoodRunner(s.(records := s.records[i := record]), s.runner.value)
    ensures Invariant(s.(records := s.records[i := record]))
  {
    var s' := s.(records := s.records[i := record]);
    assert forall j :: Touched(s', j) == Touched(s, j);
    forall id | id in s'.inspectors ensures GoodInspector(s', s'.inspectors[id]) {
      assert GoodInspector(s, s'.inspectors[id]);
      if s.inspectors[id].i == i {
        RecordStepKeepsCopies(s.records[i], record, s.inspectors[id].run);
      }
    }
    forall j | 0 <= j < |s.records| && j != i ensures GoodRecord(s', j) {
      assert GoodRecord(s, j);
    }
    forall k | k in s.sent ensures EarlierCompleted(s', k) {
      assert EarlierCompleted(s, k);
    }
  }

  /** The runner rewrites the item it is at, and moves on past it or onto it. */
  lemma PutKeeps(s: State, i: nat, record: Record, pc: Pc)
    requires Invariant(s) && s.runner.Some? && i < |s.records| && RecordStep(s.records[i], record)
    requires GoodRecord(Put(s, i, record, pc), i) && GoodRunner(Put(s, i, record, pc), pc)
    requires forall j :: Touched(s, j) ==> Touched(Put(s, i, record, pc), j)
    ensures Invariant(Put(s, i, record, pc))
  {
    var s' := Put(s, i, record, pc);
    forall id | id in s'.inspectors ensures GoodInspector(s', s'.inspectors[id]) {
      assert GoodInspector(s, s'.inspectors[id]);
      if s.inspectors[id].i == i {
        RecordStepKeepsCopies(s.records[i], record, s.inspectors[id].run);
      }
    }
    forall j | 0 <= j < |s.records| && j != i ensures GoodRecord(s', j) {
      assert GoodRecord(s, j);
    }
    forall k | k in s.sent ensures EarlierCompleted(s', k) {
      assert EarlierCompleted(s, k);
    }
  }

  lemma SkipKeeps(s: State, w: WriteResult)
    requires Invariant(s) && Enabled(s, Skip(w))
    ensures Invariant(Apply(s, Skip(w)))
    ensures RecordStep(s.records[s.runner.value.i], Apply(s, Skip(w)).records[s.runner.value.i])
  {
    var pc := s.runner.value;
    assert GoodRecord(s, pc.i);
    PutKeeps(s, pc.i, Written(s.records[pc.i], pc.run, NotRun, w), AtItem(pc.i + 1, true));
  }

  lemma MarkKeeps(s: State, w: WriteResult)
    requires Invariant(s) && Enabled(s, Mark(w))
    ensures Invariant(Apply(s, Mark(w)))
    ensures RecordStep(s.records[s.runner.value.i], Apply(s, Mark(w)).records[s.runner.value.i])
  {
    var pc := s.runner.value;
    assert GoodRecord(s, pc.i);
    var record := Written(s.records[pc.i], pc.run, Dispatching, w);
    if Apply(s, Mark(w)).runner.value.Journaled? {
      PutKeeps(s, pc.i, record, Journaled(pc.i, record));
    } else {
      PutKeeps(s, pc.i, record, AtItem(pc.i + 1, true));
    }
  }

  lemma CancelKeeps(s: State, w: WriteResult)
    requires Invariant(s) && Enabled(s, Cancel(w))
    ensures Invariant(Apply(s, Cancel(w)))
    ensures RecordStep(s.records[s.runner.value.i], Apply(s, Cancel(w)).records[s.runner.value.i])
  {
    var pc := s.runner.value;
    assert GoodRecord(s, pc.i);
    PutKeeps(s, pc.i, Written(s.records[pc.i], pc.run, NotStarted, w), AtItem(pc.i + 1, true));
  }

  lemma FinalizeKeeps(s: State, w: WriteResult, aborted: bool)
    requires Invariant(s) && Enabled(s, Finalize(w, aborted))
    ensures Invariant(Apply(s, Finalize(w, aborted)))
    ensures RecordStep(s.records[s.runner.value.i], Apply(s, Finalize(w, aborted)).records[s.runner.value.i])
  {
    var pc := s.runner.value;
    assert GoodRecord(s, pc.i);
    PutKeeps(s, pc.i, Written(s.records[pc.i], pc.run, pc.change, w), Apply(s, Finalize(w, aborted)).runner.value);
  }

  lemma SendKeeps(s: State)
    requires Invariant(s) && Enabled(s, Send)
    ensures Invariant(Apply(s, Send))
  {
    var s' := Apply(s, Send);
    assert forall j :: Touched(s', j) == Touched(s, j);
    forall id | id in s'.inspectors ensures GoodInspector(s', s'.inspectors[id]) {
      assert GoodInspector(s, s'.inspectors[id]);
    }
    forall j | 0 <= j < |s.records| ensures GoodRecord(s', j) {
      assert GoodRecord(s, j);
    }
    forall a | 0 <= a < |s.sent| ensures s.sent[a] < s.runner.value.i {
      assert s.sent[a] in s.sent;
    }
  }

  lemma JudgeKeeps(s: State, id: nat, saysDead: bool)
    requires Invariant(s) && Enabled(s, Judge(id, saysDead))
    ensures Invariant(Apply(s, Judge(id, saysDead)))
  {
    assert GoodInspector(s, s.inspectors[id]);
    InspectorsKeep(s, Apply(s, Judge(id, saysDead)).inspectors);
  }

  lemma LookKeeps(s: State, id: nat, process: nat, item: nat)
    requires Invariant(s) && Enabled(s, Look(id, process, item))
    ensures Invariant(Apply(s, Look(id, process, item)))
  {
    assert GoodRecord(s, item);
    InspectorsKeep(s, Apply(s, Look(id, process, item)).inspectors);
  }

  lemma ConsultKeeps(s: State, id: nat, change: RunState)
    requires Invariant(s) && Enabled(s, Consult(id, change))
    ensures Invariant(Apply(s, Consult(id, change)))
  {
    assert GoodInspector(s, s.inspectors[id]);
    InspectorsKeep(s, Apply(s, Consult(id, change)).inspectors);
  }

  function Reported(s: State, id: nat, w: WriteResult): Record
    requires Enabled(s, Report(id, w))
  {
    var inspector := s.inspectors[id];
    Written(s.records[inspector.i], inspector.run, inspector.change.value, w)
  }

  lemma ReportedRecordKeeps(s: State, id: nat, w: WriteResult)
    requires Invariant(s) && Enabled(s, Report(id, w))
    ensures Invariant(s.(records := s.records[s.inspectors[id].i := Reported(s, id, w)]))
    ensures RecordStep(s.records[s.inspectors[id].i], Reported(s, id, w))
    ensures s.records[s.inspectors[id].i].state.Terminal() ==> Reported(s, id, w) == s.records[s.inspectors[id].i]
  {
    var inspector := s.inspectors[id];
    assert GoodInspector(s, inspector) && GoodRecord(s, inspector.i);
    RewriteKeeps(s, inspector.i, Reported(s, id, w));
  }

  lemma ReportKeeps(s: State, id: nat, w: WriteResult)
    requires Invariant(s) && Enabled(s, Report(id, w))
    ensures Invariant(Apply(s, Report(id, w)))
  {
    ReportedRecordKeeps(s, id, w);
    var rewritten := s.(records := s.records[s.inspectors[id].i := Reported(s, id, w)]);
    var inspectors := Apply(s, Report(id, w)).inspectors;
    forall other | other in inspectors ensures GoodInspector(rewritten, inspectors[other]) {
      assert GoodInspector(rewritten, rewritten.inspectors[other]);
    }
    InspectorsKeep(rewritten, inspectors);
  }

  /** The runner reads, gives an item up, or has its answer; no record changes. */
  lemma RunnerMoveKeeps(s: State, e: Event)
    requires Invariant(s) && Enabled(s, e)
    requires e.ReadItem? || e.Foreign? || e.NotSent? || e.Reply? || e.Finish?
    ensures Invariant(Apply(s, e))
  {
    MoveKeeps(s, Apply(s, e).runner.value);
  }

  lemma DeathKeeps(s: State, process: nat)
    requires Invariant(s)
    ensures Invariant(s.(dead := s.dead + {process}))
  {
    var s' := s.(dead := s.dead + {process});
    assert forall j :: Touched(s', j) == Touched(s, j);
    forall id | id in s'.inspectors ensures GoodInspector(s', s'.inspectors[id]) {
      assert GoodInspector(s, s'.inspectors[id]);
    }
    forall j | 0 <= j < |s.records| ensures GoodRecord(s', j) {
      assert GoodRecord(s, j);
    }
  }

  /** Every step keeps the invariant, and changes records only as `RecordStep` allows. */
  lemma StepKeepsInvariant(s: State, e: Event)
    requires Invariant(s) && Enabled(s, e)
    ensures Invariant(Apply(s, e))
  {
    match e
    case Admit(_, _) => AdmissionKeeps(s, e);
    case AdmitThrows(_, _) => AdmissionKeeps(s, e);
    case Skip(w) => SkipKeeps(s, w);
    case Mark(w) => MarkKeeps(s, w);
    case Cancel(w) => CancelKeeps(s, w);
    case Finalize(w, aborted) => FinalizeKeeps(s, w, aborted);
    case Send => SendKeeps(s);
    case Die(process) => DeathKeeps(s, process);
    case Look(id, process, item) => LookKeeps(s, id, process, item);
    case Judge(id, saysDead) => JudgeKeeps(s, id, saysDead);
    case Consult(id, change) => ConsultKeeps(s, id, change);
    case Report(id, w) => ReportKeeps(s, id, w);
    case _ => RunnerMoveKeeps(s, e);
  }

  lemma RecordsOnlyAdvance(s: State, e: Event, i: nat)
    requires Invariant(s) && Enabled(s, e) && i < |s.records|
    ensures i < |Apply(s, e).records| && RecordStep(s.records[i], Apply(s, e).records[i])
    ensures Apply(s, e).records[i] != s.records[i] && s.records[i].state.Terminal() ==>
              e.Skip? && RunnerLives(s) && s.runner.value.i == i
  {
    match e
    case Skip(w) => SkipKeeps(s, w);
    case Mark(w) => MarkKeeps(s, w);
    case Cancel(w) => CancelKeeps(s, w);
    case Finalize(w, aborted) => FinalizeKeeps(s, w, aborted);
    case Report(id, w) => ReportedRecordKeeps(s, id, w);
    case _ =>
  }

  lemma {:induction false} RunsKeepInvariant(states: seq<State>, events: seq<Event>, n: nat)
    requires IsRun(states, events) && Initial(states[0]) && n < |states|
    ensures Invariant(states[n])
  {
    if n > 0 {
      RunsKeepInvariant(states, events, n - 1);
      StepKeepsInvariant(states[n - 1], events[n - 1]);
    }
  }

  // ----- What the journal promises, whatever the liveness checks answer -----

  /** `backend.run` is called at most once for each item, over all calls of `runBatch` with this
      identity, all replays and inspections, and all crashes; and in item order. */
  lemma AtMostOneDispatch(states: seq<State>, events: seq<Event>, n: nat, a: nat, b: nat)
    requires IsRun(states, events) && Initial(states[0]) && n < |states|
    requires a < b < |states[n].sent|
    ensures states[n].sent[a] < states[n].sent[b]
  {
    RunsKeepInvariant(states, events, n);
  }

  /** A dispatch happens only by the one runner that the inventory names, for an item that is not
      yet sent, after some earlier state in which its record was on disk as dispatching under that
      runner's claim, and only when every earlier item is recorded completed. */
  lemma DispatchIsJournaledAndInOrder(states: seq<State>, events: seq<Event>, n: nat) returns (m: nat)
    requires IsRun(states, events) && Initial(states[0]) && n < |events| && events[n].Send?
    ensures var s := states[n];
            && s.runner.Some? && s.runner.value.Journaled?
            && var i := s.runner.value.i;
            && i < |s.records| && i !in s.sent && EarlierCompleted(s, i)
            && m <= n && i < |states[m].records|
            && states[m].records[i].state.Dispatching? && s.owner == Some(states[m].records[i].owner)
  {
    assert Next(states[n], events[n], states[n + 1]);
    RunsKeepInvariant(states, events, n);
    m := JournaledCopyWasOnDisk(states, events, n);
    RunsKeepInvariant(states, events, m);
    assert GoodRecord(states[m], states[n].runner.value.i);
    OneRunner(states, events, m, n);
  }

  lemma {:induction false} JournaledCopyWasOnDisk(states: seq<State>, events: seq<Event>, n: nat) returns (m: nat)
    requires IsRun(states, events) && Initial(states[0]) && n < |states|
    requires states[n].runner.Some? && states[n].runner.value.Journaled?
    ensures m <= n && states[n].runner.value.i < |states[m].records|
    ensures states[m].records[states[n].runner.value.i] == states[n].runner.value.run
    ensures states[n].runner.value.run.state.Dispatching?
  {
    if states[n - 1].runner == states[n].runner {
      m := JournaledCopyWasOnDisk(states, events, n - 1);
    } else {
      m := n;
    }
  }

  /** The batch never changes hands. */
  lemma {:induction false} OneRunner(states: seq<State>, events: seq<Event>, m: nat, n: nat)
    requires IsRun(states, events) && m <= n < |states| && states[m].owner.Some?
    ensures states[n].owner == states[m].owner && |states[n].records| == |states[m].records|
  {
    if m < n {
      OneRunner(states, events, m, n - 1);
    }
  }

  /** An item recorded as not run was never dispatched, and a completed or failed one was; what is
      recorded completed or failed stays recorded so. */
  lemma RecordsTellTheTruth(states: seq<State>, events: seq<Event>, n: nat, i: nat)
    requires IsRun(states, events) && Initial(states[0]) && n < |states| && i < |states[n].records|
    ensures states[n].records[i].state.NotRun? || states[n].records[i].state.Prepared? ==> i !in states[n].sent
    ensures states[n].records[i].state.Completed? || states[n].records[i].state.Failed? ==> i in states[n].sent
  {
    RunsKeepInvariant(states, events, n);
    assert GoodRecord(states[n], i);
  }

  lemma RecordStepAt(states: seq<State>, events: seq<Event>, k: nat, i: nat)
    requires IsRun(states, events) && Initial(states[0]) && k < |events| && i < |states[k].records|
    ensures i < |states[k + 1].records| && RecordStep(states[k].records[i], states[k + 1].records[i])
  {
    assert Next(states[k], events[k], states[k + 1]);
    RunsKeepInvariant(states, events, k);
    RecordsOnlyAdvance(states[k], events[k], i);
  }

  /** Versions never shrink, and a version names one content. */
  lemma {:induction false} VersionsGrow(states: seq<State>, events: seq<Event>, m: nat, n: nat, i: nat)
    requires IsRun(states, events) && Initial(states[0]) && m <= n < |states| && i < |states[m].records|
    ensures i < |states[n].records|
    ensures CopyOf(states[m].records[i], states[n].records[i])
    ensures states[m].records[i].state.Completed? || states[m].records[i].state.Failed? ==>
              states[n].records[i] == states[m].records[i]
  {
    if m < n {
      VersionsGrow(states, events, m, n - 1, i);
      RecordStepAt(states, events, n - 1, i);
    }
  }

  /** A verified terminal result replaces the uncertainty that an inspector has journaled about the
      same claim meanwhile, and no uncertainty ever replaces a terminal record. */
  lemma UncertaintyIsPromoted(s: State, e: Event)
    requires Invariant(s) && Enabled(s, e) && e.Finalize? && !e.w.Refused?
    requires s.runner.value.change.Terminal()
    ensures var i := s.runner.value.i;
            Apply(s, e).records[i].state ==
              if s.records[i].state.Terminal() then s.records[i].state else s.runner.value.change
  {
  }

  // ----- What rests on the liveness checks -----

  predicate SoundRun(states: seq<State>, events: seq<Event>) {
    && IsRun(states, events)
    && forall k :: 0 <= k < |events| ==> SoundAnswer(states[k], events[k])
  }

  /** While the runner lives, no inspector has given up one of its prepared items. */
  predicate NothingGivenUp(s: State) {
    RunnerLives(s) ==>
      && (forall j :: 0 <= j < |s.records| && !Touched(s, j) ==> s.records[j].state.Prepared?)
      && (forall id :: id in s.inspectors && s.inspectors[id].run.state.Prepared? ==> s.inspectors[id].change.None?)
  }

  lemma SoundStepGivesNothingUp(s: State, e: Event)
    requires Invariant(s) && NothingGivenUp(s) && Enabled(s, e) && SoundAnswer(s, e)
    ensures NothingGivenUp(Apply(s, e))
  {
    if e.Judge? {
      assert GoodInspector(s, s.inspectors[e.id]);
      assert GoodRecord(s, s.inspectors[e.id].i);
    }
  }

  lemma {:induction false} SoundRunsGiveNothingUp(states: seq<State>, events: seq<Event>, n: nat)
    requires SoundRun(states, events) && Initial(states[0]) && n < |states|
    ensures NothingGivenUp(states[n])
  {
    if n > 0 {
      SoundRunsGiveNothingUp(states, events, n - 1);
      RunsKeepInvariant(states, events, n - 1);
      SoundStepGivesNothingUp(states[n - 1], events[n - 1]);
    }
  }

  lemma TerminalRecordStaysAt(states: seq<State>, events: seq<Event>, k: nat, i: nat)
    requires SoundRun(states, events) && Initial(states[0]) && k < |events|
    requires i < |states[k].records| && states[k].records[i].state.Terminal()
    ensures i < |states[k + 1].records| && states[k + 1].records[i] == states[k].records[i]
  {
    assert Next(states[k], events[k], states[k + 1]);
    RunsKeepInvariant(states, events, k);
    SoundRunsGiveNothingUp(states, events, k);
    RecordsOnlyAdvance(states[k], events[k], i);
  }

  /** With sound answers all four terminal states are absorbing. */
  lemma {:induction false} TerminalRecordsStay(states: seq<State>, events: seq<Event>, m: nat, n: nat, i: nat)
    requires SoundRun(states, events) && Initial(states[0]) && m <= n < |states|
    requires i < |states[m].records| && states[m].records[i].state.Terminal()
    ensures i < |states[n].records| && states[n].records[i] == states[m].records[i]
  {
    if m < n {
      TerminalRecordsStay(states, events, m, n - 1, i);
      TerminalRecordStaysAt(states, events, n - 1, i);
    }
  }

  // ----- Where a verdict about a dead runner can be wrong -----

  lemma {:induction false} DeadRunnerSendsNothing(states: seq<State>, events: seq<Event>, m: nat, n: nat)
    requires IsRun(states, events) && m <= n < |states| && states[m].owner.Some? && !RunnerLives(states[m])
    ensures states[n].owner.Some? && !RunnerLives(states[n]) && states[n].sent == states[m].sent
  {
    if m < n {
      DeadRunnerSendsNothing(states, events, m, n - 1);
    }
  }

  /** An inspector holds the verdict "the original runner died before dispatch". */
  predicate HoldsDeathVerdict(s: State, id: nat) {
    id in s.inspectors && s.inspectors[id].run.state.Prepared? && s.inspectors[id].change == Some(NotStarted)
  }

  /** The verdict is right for good when the record it is about to replace is still prepared. */
  lemma VerdictOnPreparedRecordIsRight(states: seq<State>, events: seq<Event>, m: nat, n: nat, id: nat)
    requires SoundRun(states, events) && Initial(states[0]) && m <= n < |states|
    requires HoldsDeathVerdict(states[m], id)
    requires states[m].inspectors[id].i < |states[m].records|
        && states[m].records[states[m].inspectors[id].i].state.Prepared?
    ensures states[m].inspectors[id].i !in states[n].sent
  {
    RunsKeepInvariant(states, events, m);
    SoundRunsGiveNothingUp(states, events, m);
    assert GoodRecord(states[m], states[m].inspectors[id].i);
    DeadRunnerSendsNothing(states, events, m, n);
  }

  function Fresh(): State {
    State(None, [], None, {}, map[], [])
  }

  predicate ReachedBy(states: seq<State>, events: seq<Event>, s: State) {
    IsRun(states, events) && states[0] == Fresh() && states[|events|] == s
  }

  lemma Extend(states: seq<State>, events: seq<Event>, s: State, e: Event)
    returns (longer: seq<State>, more: seq<Event>)
    requires ReachedBy(states, events, s) && Enabled(s, e)
    ensures ReachedBy(longer, more, Apply(s, e)) && more == events + [e] && longer[..|states|] == states
    ensures SoundRun(states, events) && SoundAnswer(s, e) ==> SoundRun(longer, more)
  {
    longer, more := states + [Apply(s, e)], events + [e];
  }

  lemma Begun() returns (states: seq<State>, events: seq<Event>)
    ensures ReachedBy(states, events, Fresh()) && SoundRun(states, events) && events == []
  {
    states, events := [Fresh()], [];
  }

  /** One item, dispatched by process 1 while an inspector in process 2 holds a copy of the record
      from before. */
  lemma DispatchBehindAStaleCopy() returns (states: seq<State>, events: seq<Event>)
    ensures var owner := Owner(0, 1);
            ReachedBy(states, events,
                      State(Some(owner), [Record(2, Dispatching, owner)],
                            Some(InFlight(0, Record(2, Dispatching, owner))),
                            {}, map[0 := Inspector(2, 0, Record(1, Prepared, owner), None)], [0]))
    ensures SoundRun(states, events)
  {
    var owner := Owner(0, 1);
    var prepared := Record(1, Prepared, owner);
    assert Inventory(owner, 1) == [prepared];
    hide ReachedBy, SoundRun, Inventory;
    states, events := Begun();
    states, events := Extend(states, events, Fresh(), Admit(owner, 1));
    var s1 := State(Some(owner), [prepared], Some(AtItem(0, false)), {}, map[], []);
    states, events := Extend(states, events, s1, Look(0, 2, 0));
    var s2 := s1.(inspectors := map[0 := Inspector(2, 0, prepared, None)]);
    states, events := Extend(states, events, s2, ReadItem(true));
    var s3 := s2.(runner := Some(HasRead(0, false, prepared)));
    states, events := Extend(states, events, s3, Mark(Done));
    var s4 := s3.(records := [Record(2, Dispatching, owner)],
                  runner := Some(Journaled(0, Record(2, Dispatching, owner))));
    states, events := Extend(states, events, s4, Send);
  }

  /** It can be wrong otherwise, even though every liveness answer was sound: the runner journals,
      dispatches and dies between the inspector's read and its `provenDead`, and the rule that
      promotes a terminal result over a newer record of the same claim lets the stale verdict in. */
  lemma StaleVerdictHidesADispatch() returns (states: seq<State>, events: seq<Event>)
    ensures SoundRun(states, events) && Initial(states[0])
    ensures var s := states[|events|];
            s.sent == [0] && |s.records| == 1 && s.records[0].state.NotStarted?
  {
    var owner := Owner(0, 1);
    var dispatching := Record(2, Dispatching, owner);
    states, events := DispatchBehindAStaleCopy();
    var s5 := State(Some(owner), [dispatching], Some(InFlight(0, dispatching)), {},
                    map[0 := Inspector(2, 0, Record(1, Prepared, owner), None)], [0]);
    states, events := Extend(states, events, s5, Die(1));
    var s6 := s5.(dead := {1});
    states, events := Extend(states, events, s6, Judge(0, true));
    var s7 := s6.(inspectors := map[0 := Inspector(2, 0, Record(1, Prepared, owner), Some(NotStarted))]);
    states, events := Extend(states, events, s7, Report(0, Done));
  }

  /** An inspector holds the verdict over an item whose record is in the given state. */
  predicate VerdictOver(s: State, id: nat, state: RunState) {
    && HoldsDeathVerdict(s, id)
    && s.inspectors[id].i < |s.records| && s.records[s.inspectors[id].i].state == state
  }

  /** In every run with sound answers, the verdict over a record in this state is right. */
  ghost predicate AlwaysRight(state: RunState) {
    forall states: seq<State>, events: seq<Event>, m: nat, id: nat ::
      SoundRun(states, events) && |states| > 0 && Initial(states[0]) && m < |states|
          && VerdictOver(states[m], id, state) ==>
        states[m].inspectors[id].i !in states[m].sent
  }

  lemma DeathVerdictOver(states: seq<State>, events: seq<Event>, s: State)
    returns (longer: seq<State>, more: seq<Event>)
    requires ReachedBy(states, events, s) && SoundRun(states, events) && s.owner.Some? && 2 !in s.dead
    requires 0 in s.inspectors && s.inspectors[0] == Inspector(2, 0, Record(1, Prepared, s.owner.value), None)
    requires s.owner.value == Owner(0, 1) && s.sent == [0] && |s.records| == 1 && !s.records[0].state.Terminal()
    ensures |longer| == |more| + 1 && SoundRun(longer, more) && Initial(longer[0])
    ensures VerdictOver(longer[|more|], 0, s.records[0].state)
    ensures longer[|more|].inspectors[0].i in longer[|more|].sent
  {
    hide SoundRun;
    longer, more := Extend(states, events, s, Die(1));
    var dying := s.(dead := s.dead + {1});
    longer, more := Extend(longer, more, dying, Judge(0, true));
  }

  /** The dispatched item of `DispatchBehindAStaleCopy`, about which another inspector, in process 3, has
      journaled uncertainty meanwhile. */
  lemma UncertaintyBehindAStaleCopy() returns (states: seq<State>, events: seq<Event>, s: State)
    ensures ReachedBy(states, events, s) && SoundRun(states, events)
    ensures var owner := Owner(0, 1);
            && s.owner == Some(owner) && s.records == [Record(3, OutcomeUnknown, owner)] && s.dead == {}
            && s.sent == [0]
            && s.inspectors == map[0 := Inspector(2, 0, Record(1, Prepared, owner), None)]
  {
    hide SoundRun, ReachedBy;
    var owner := Owner(0, 1);
    var stale, dispatching := Inspector(2, 0, Record(1, Prepared, owner), None), Record(2, Dispatching, owner);
    states, events := DispatchBehindAStaleCopy();
    var s5 := State(Some(owner), [dispatching], Some(InFlight(0, dispatching)), {}, map[0 := stale], [0]);
    states, events := Extend(states, events, s5, Look(1, 3, 0));
    var s6 := s5.(inspectors := map[0 := stale, 1 := Inspector(3, 0, dispatching, None)]);
    states, events := Extend(states, events, s6, Consult(1, OutcomeUnknown));
    var s7 := s6.(inspectors := map[0 := stale, 1 := Inspector(3, 0, dispatching, Some(OutcomeUnknown))]);
    states, events := Extend(states, events, s7, Report(1, Done));
    s := s7.(records := [Record(3, OutcomeUnknown, owner)], inspectors := map[0 := stale]);
    assert Apply(s7, Report(1, Done)) == s;
  }

  /** The verdict over a record that is not final is always right exactly if the record is still prepared;
      the promotion of terminal states lets it in over `dispatching` and `outcome_unknown` as well. */
  lemma VerdictIsRightExactlyOnPrepared(state: RunState)
    requires !state.Terminal()
    ensures AlwaysRight(state) <==> state.Prepared?
  {
    hide SoundRun, Initial;
    if state.Prepared? {
      forall states: seq<State>, events: seq<Event>, m: nat, id: nat
        | SoundRun(states, events) && |states| > 0 && Initial(states[0]) && m < |states|
            && VerdictOver(states[m], id, state)
        ensures states[m].inspectors[id].i !in states[m].sent
      {
        VerdictOnPreparedRecordIsRight(states, events, m, m, id);
      }
    } else {
      var states, events, s;
      if state.Dispatching? {
        states, events := DispatchBehindAStaleCopy();
        s := states[|events|];
      } else {
        states, events, s := UncertaintyBehindAStaleCopy();
      }
      var longer, more := DeathVerdictOver(states, events, s);
      assert VerdictOver(longer[|more|], 0, state);
    }
  }

  /** Without soundness a terminal record can change after all: an inspector that wrongly takes the
      runner for dead gives the item up, and the runner, cancelled, then records it as not run.
      `TerminalRecordStaysExactly` says from which states this can happen. */
  lemma UnsoundVerdictIsOverwritten() returns (states: seq<State>, events: seq<Event>)
    ensures IsRun(states, events) && Initial(states[0]) && |events| == 6
    ensures |states[4].records| == 1 && states[4].records[0].state.NotStarted?
    ensures |states[6].records| == 1 && states[6].records[0].state.NotRun?
  {
    var owner := Owner(0, 1);
    var prepared, notStarted := Record(1, Prepared, owner), Record(2, NotStarted, owner);
    assert Inventory(owner, 1) == [prepared];
    hide SoundRun, SoundAnswer, Inventory;
    states, events := Begun();
    states, events := Extend(states, events, Fresh(), Admit(owner, 1));
    var s1 := State(Some(owner), [prepared], Some(AtItem(0, false)), {}, map[], []);
    states, events := Extend(states, events, s1, Look(0, 2, 0));
    var s2 := s1.(inspectors := map[0 := Inspector(2, 0, prepared, None)]);
    states, events := Extend(states, events, s2, Judge(0, true));
    var s3 := s2.(inspectors := map[0 := Inspector(2, 0, prepared, Some(NotStarted))]);
    states, events := Extend(states, events, s3, Report(0, Done));
    var s4 := s3.(records := [notStarted], inspectors := map[]);
    states, events := ExtendByCancelledItem(states, events, s4);
  }

  lemma ExtendByCancelledItem(states: seq<State>, events: seq<Event>, s: State)
    returns (longer: seq<State>, more: seq<Event>)
    requires ReachedBy(states, events, s) && RunnerLives(s) && s.runner.value == AtItem(0, false) && |s.records| == 1
    ensures IsRun(longer, more) && |more| == |events| + 2 && longer[..|states|] == states
    ensures |longer[|more|].records| == 1
    ensures longer[|more|].records[0].state.NotRun?
  {
    longer, more := states, events;
    longer, more := Extend(longer, more, s, ReadItem(true));
    var reading := s.(runner := Some(HasRead(0, false, s.records[0])));
    longer, more := Extend(longer, more, reading, Skip(Done));
  }

  // ----- Exactly when a terminal record is final -----

  /** The runner is still to come to item `i`, or has read the record as it is and not yet moved on. */
  predicate StillToReach(s: State, i: nat)
    requires i < |s.records|
  {
    && RunnerLives(s)
    && match s.runner.value
       case AtItem(j, _) => j <= i
       case HasRead(j, _, run) => j < i || (j == i && run.version == s.records[i].version)
       case Journaled(j, _) => j < i
       case InFlight(j, _) => j < i
       case HasResult(j, _, _) => j < i
       case Finished => false
  }

  predicate Overwritable(s: State, i: nat)
    requires i < |s.records|
  {
    s.records[i].state.NotStarted? && StillToReach(s, i)
  }

  lemma NotOverwrittenByAStep(s: State, e: Event, i: nat)
    requires Invariant(s) && Enabled(s, e) && i < |s.records| && s.records[i].state.Terminal()
    requires !Overwritable(s, i)
    ensures i < |Apply(s, e).records| && Apply(s, e).records[i] == s.records[i] && !Overwritable(Apply(s, e), i)
  {
    RecordsOnlyAdvance(s, e, i);
    hide Invariant;
  }

  lemma {:induction false} NotOverwritten(states: seq<State>, events: seq<Event>, n: nat, i: nat)
    requires IsRun(states, events) && n < |states| && Invariant(states[0])
    requires i < |states[0].records| && states[0].records[i].state.Terminal() && !Overwritable(states[0], i)
    ensures Invariant(states[n]) && i < |states[n].records| && states[n].records[i] == states[0].records[i]
    ensures !Overwritable(states[n], i)
  {
    hide Invariant, Enabled, Apply, Overwritable;
    if n > 0 {
      NotOverwritten(states, events, n - 1, i);
      assert Next(states[n - 1], events[n - 1], states[n]);
      StepKeepsInvariant(states[n - 1], events[n - 1]);
      NotOverwrittenByAStep(states[n - 1], events[n - 1], i);
    }
  }

  /** A step towards item `i` that writes nothing, or the one that writes over its record. */
  function Towards(s: State, i: nat): Event
    requires i < |s.records| && StillToReach(s, i)
  {
    match s.runner.value
    case AtItem(j, _) => ReadItem(j == i)
    case HasRead(j, _, _) => Skip(if j == i then Done else Refused)
    case Journaled(_, _) => Cancel(Refused)
    case InFlight(_, _) => Reply(OutcomeUnknown)
    case HasResult(_, _, _) => Finalize(Refused, false)
    case Finished => Finish
  }

  function StepsTo(s: State, i: nat): nat
    requires i < |s.records| && StillToReach(s, i)
  {
    var pc := s.runner.value;
    4 * (i - pc.i) + if pc.HasRead? then 1 else if pc.InFlight? then 3 else 2
  }

  lemma TowardsGoesOn(s: State, i: nat)
    requires Invariant(s) && i < |s.records| && Overwritable(s, i)
    ensures Enabled(s, Towards(s, i))
    ensures var after := Apply(s, Towards(s, i));
            && i < |after.records|
            && if s.runner.value.HasRead? && s.runner.value.i == i then after.records[i] != s.records[i]
               else after.records == s.records && StillToReach(after, i) && StepsTo(after, i) < StepsTo(s, i)
  {
  }

  /** From such a state, the runner can come to the item and write over its record. */
  lemma {:induction false} OverwritingRun(s: State, i: nat) returns (states: seq<State>, events: seq<Event>)
    requires Invariant(s) && i < |s.records| && Overwritable(s, i)
    ensures IsRun(states, events) && states[0] == s
    ensures i < |states[|events|].records| && states[|events|].records[i] != s.records[i]
    decreases StepsTo(s, i)
  {
    TowardsGoesOn(s, i);
    var e := Towards(s, i);
    var after := Apply(s, e);
    StepKeepsInvariant(s, e);
    if after.records[i] != s.records[i] {
      states, events := [s, after], [e];
    } else {
      hide Invariant, Enabled, Apply, Towards, StepsTo;
      states, events := OverwritingRun(after, i);
      states, events := [s] + states, [e] + events;
    }
  }

  /** In every run from here, whatever the liveness answers, the record is what it is. */
  ghost predicate StaysForever(s: State, i: nat)
    requires i < |s.records|
  {
    forall states: seq<State>, events: seq<Event> ::
      IsRun(states, events) && |states| > 0 && states[0] == s ==>
        i < |states[|events|].records| && states[|events|].records[i] == s.records[i]
  }

  /** A terminal record is final, whatever the liveness checks will answer, exactly unless it is `notStarted`
      and a living runner has yet to come to it. */
  lemma TerminalRecordStaysExactly(s: State, i: nat)
    requires Invariant(s) && i < |s.records| && s.records[i].state.Terminal()
    ensures StaysForever(s, i) <==> !(s.records[i].state.NotStarted? && StillToReach(s, i))
  {
    if Overwritable(s, i) {
      var states, events := OverwritingRun(s, i);
    } else {
      forall states: seq<State>, events: seq<Event> | IsRun(states, events) && |states| > 0 && states[0] == s
        ensures i < |states[|events|].records| && states[|events|].records[i] == s.records[i]
      {
        NotOverwritten(states, events, |events|, i);
      }
    }
  }
}
