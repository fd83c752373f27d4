/** What each step of `RunJournal` writes and where it leaves the runner and the inspectors, told without its functions
    (`rhino-script-execution.ts`, `update`, `reconcileRun`, `runBatch`). */
module JournalSteps {
  import opened RunJournal
  import opened Wrappers

  // ----- Writing -----

  /** The copy is current, or a final state of the same claim is to replace one that is not final. */
  predicate MayWrite(current: Record, run: Record, change: RunState) {
    || current.version == run.version
    || (change.Terminal() && !current.state.Terminal() && current.owner.claim == run.owner.claim)
  }

  /** The record after an attempt to write a change to it, from a copy. */
  predicate Updates(current: Record, run: Record, change: RunState, w: WriteResult, after: Record) {
    if w.Refused? || !MayWrite(current, run, change) then after == current
    else after.state == change && after.version == current.version + 1 && after.owner == current.owner
  }

  lemma UpdateIsExact(current: Record, run: Record, change: RunState, w: WriteResult)
    ensures Updates(current, run, change, Done, Merge(current, run, change))
    ensures Updates(current, run, change, w, Written(current, run, change, w))
  {
  }

  /** The item that a step writes to, with the copy and the change that it has for it. */
  function Writing(s: State, e: Event): Option<(nat, Record, RunState, WriteResult)>
    requires Enabled(s, e)
  {
    match e
    case Skip(w) => Some((s.runner.value.i, s.runner.value.run, NotRun, w))
    case Mark(w) => Some((s.runner.value.i, s.runner.value.run, Dispatching, w))
    case Cancel(w) => Some((s.runner.value.i, s.runner.value.run, NotStarted, w))
    case Finalize(w, _) => Some((s.runner.value.i, s.runner.value.run, s.runner.value.change, w))
    case Report(id, w) => Some((s.inspectors[id].i, s.inspectors[id].run, s.inspectors[id].change.value, w))
    case _ => None
  }

  /** A step writes to one record, the way `update` does, or to none; and the admission writes the inventory. */
  lemma WritesAreExact(s: State, e: Event, s': State)
    requires Next(s, e, s')
    ensures e.Admit? || e.AdmitThrows? ==>
              && s'.owner == Some(e.owner) && |s'.records| == e.items
              && forall i :: 0 <= i < e.items ==> s'.records[i] == Record(1, Prepared, e.owner)
    ensures !e.Admit? && !e.AdmitThrows? ==>
              && s'.owner == s.owner && |s'.records| == |s.records|
              && match Writing(s, e)
                 case None => s'.records == s.records
                 case Some((i, run, change, w)) =>
                   && i < |s.records|
                   && Updates(s.records[i], run, change, w, s'.records[i])
                   && forall j :: 0 <= j < |s.records| && j != i ==> s'.records[j] == s.records[j]
  {
  }

  /** Only a dispatch sends, and it sends the item that the runner is at; only deaths make processes die. */
  lemma OnlyADispatchSends(s: State, e: Event, s': State)
    requires Next(s, e, s')
    ensures s'.sent == s.sent + if e.Send? then [s.runner.value.i] else []
    ensures s'.dead == s.dead + if e.Die? then {e.process} else {}
  {
  }

  // ----- The runner -----

  /** Where a step of the loop leaves the runner. */
  lemma RunnerGoesOn(s: State, e: Event, s': State)
    requires Next(s, e, s')
    ensures match e
            case Admit(_, _) => s'.runner == Some(AtItem(0, false))
            case ReadItem(readable) =>
              var pc := s.runner.value;
              s'.runner == Some(if readable then HasRead(pc.i, pc.stop, s.records[pc.i]) else AtItem(pc.i + 1, true))
            case Skip(_) => s'.runner == Some(AtItem(s.runner.value.i + 1, true))
            case Foreign => s'.runner == Some(AtItem(s.runner.value.i + 1, true))
            case Cancel(_) => s'.runner == Some(AtItem(s.runner.value.i + 1, true))
            case NotSent(change) => s'.runner == Some(HasResult(s.runner.value.i, s.runner.value.run, change))
            case Send => s'.runner == Some(InFlight(s.runner.value.i, s.runner.value.run))
            case Reply(change) => s'.runner == Some(HasResult(s.runner.value.i, s.runner.value.run, change))
            case Finish => s'.runner == Some(Finished)
            case Mark(_) => true
            case Finalize(_, _) => true
            // the admission that throws has no runner, and nobody else moves one
            case _ => s'.runner == s.runner
  {
  }

  /** A copy that the runner reads was current: `update` refuses it exactly if the record has been written since, and
      then the item is over; only a write that is sure to have landed leads to a dispatch. */
  lemma MarkDecides(s: State, w: WriteResult, s': State)
    requires Next(s, Mark(w), s')
    ensures var pc := s.runner.value;
            var current := s.records[pc.i];
            var mine := current.owner.claim == s.owner.value.claim
                        && (current.version == pc.run.version || current.state.Dispatching?);
            if w.Done? && mine
            then s'.runner == Some(Journaled(pc.i, s'.records[pc.i])) && s'.records[pc.i].state.Dispatching?
            else s'.runner == Some(AtItem(pc.i + 1, true))
  {
  }

  /** The batch goes on after an item exactly if it is recorded completed for certain and nobody has aborted. */
  lemma FinalizeDecides(s: State, w: WriteResult, aborted: bool, s': State)
    requires Next(s, Finalize(w, aborted), s')
    ensures var i := s.runner.value.i;
            s'.runner == Some(AtItem(i + 1, !(w.Done? && s'.records[i].state.Completed? && !aborted)))
  {
  }

  // ----- The inspectors -----

  /** Where a step of `reconcileRun` leaves its inspector; other inspectors, and all of them at steps of the runner, are
      left alone. */
  lemma InspectorGoesOn(s: State, e: Event, s': State)
    requires Next(s, e, s')
    ensures match e
            case Look(id, process, item) =>
              && s'.inspectors.Keys == s.inspectors.Keys + {id}
              && s'.inspectors[id] == Inspector(process, item, s.records[item], None)
            case Judge(id, saysDead) =>
              var inspector := s.inspectors[id];
              var owner := inspector.run.owner;
              var over := owner.process == inspector.process
                          && (s.owner.None? || s.owner.value.claim != owner.claim
                              || s.runner.None? || s.runner.value.Finished?);
              if over || saysDead
              then s'.inspectors.Keys == s.inspectors.Keys && s'.inspectors[id].change == Some(NotStarted)
                   && s'.inspectors[id].run == inspector.run && s'.inspectors[id].i == inspector.i
              else s'.inspectors.Keys == s.inspectors.Keys - {id}
            case Consult(id, change) =>
              && s'.inspectors.Keys == s.inspectors.Keys
              && s'.inspectors[id] == s.inspectors[id].(change := Some(change))
            case Report(id, w) =>
              if w.Done? then s'.inspectors.Keys == s.inspectors.Keys - {id}
              else s'.inspectors.Keys == s.inspectors.Keys
                   && s'.inspectors[id] == s.inspectors[id].(change := None)
            case _ => s'.inspectors == s.inspectors
    ensures forall other ::
              other in s.inspectors && ((e.Look? || e.Judge? || e.Consult? || e.Report?) ==> other != e.id) ==>
                other in s'.inspectors && s'.inspectors[other] == s.inspectors[other]
  {
  }
}
