/** The loop of `runBatch` and the call of `reconcileRun` as programs over the journal, with everybody
    else's steps in between.  Each is shown to take only steps of `RunJournal`, so that all it promises
    about runs holds of them. */
module RunBatch {
  import opened Wrappers
  import opened RunJournal

  /** Steps of inspectors, and deaths. */
  predicate OfOthers(e: Event) {
    e.Die? || e.Look? || e.Judge? || e.Consult? || e.Report?
  }

  /** What meets one item: what others do before each of its steps, whether the journal can be read and written,
      where the abort signal is seen, and what the admission and the native side answer. */
  datatype Turn = Turn(
    beforeRead: seq<Event>, readable: bool,
    afterRead: seq<Event>, aborted: bool, firstWrite: WriteResult,
    afterMark: seq<Event>, cancelled: bool, cancelWrite: WriteResult,
    duringAdmission: seq<Event>, refusal: Option<RunState>,
    duringRun: seq<Event>, reply: RunState,
    beforeFinal: seq<Event>, finalWrite: WriteResult, abortedAfter: bool)

  predicate GoodTurn(turn: Turn) {
    && IsResult(turn.reply)
    && (turn.refusal.Some? ==> turn.refusal.value.NotStarted? || turn.refusal.value.OutcomeUnknown?)
  }

  /** Nobody comes in between. */
  predicate Alone(turn: Turn) {
    && turn.beforeRead == turn.afterRead == turn.afterMark == []
    && turn.duringAdmission == turn.duringRun == turn.beforeFinal == []
  }

  /** Nobody comes in between, nothing fails, and nobody aborts. */
  predicate Undisturbed(turn: Turn) {
    && Alone(turn)
    && turn.readable && !turn.aborted && turn.firstWrite.Done? && !turn.cancelled && turn.refusal.None?
    && turn.finalWrite.Done? && !turn.abortedAfter
  }

  /** What becomes of a journaled item that is not cancelled: the reason why it is refused, or the native answer. */
  function AnswerTo(turn: Turn): RunState {
    if turn.refusal.Some? then turn.refusal.value else turn.reply
  }

  /** What the caller is told of an item that nobody else touches. */
  function Told(stopped: bool, turn: Turn): RunState {
    if !turn.readable || stopped || turn.aborted then NotRun
    else if !turn.firstWrite.Done? || turn.cancelled then NotStarted
    else AnswerTo(turn)
  }

  /** The item goes on to its dispatch, journaled. */
  predicate IsMarked(stopped: bool, turn: Turn) {
    turn.readable && !stopped && !turn.aborted && turn.firstWrite.Done?
  }

  /** What the journal has by then. */
  function Marked(owner: Owner, stopped: bool, turn: Turn): Record {
    if !turn.readable || turn.firstWrite.Refused? then Record(1, Prepared, owner)
    else Record(2, if stopped || turn.aborted then NotRun else Dispatching, owner)
  }

  predicate Sends(stopped: bool, turn: Turn) {
    turn.readable && !stopped && !turn.aborted && turn.firstWrite.Done? && !turn.cancelled && turn.refusal.None?
  }

  /** What the journal has of it, as far as it could be written. */
  function Recorded(owner: Owner, stopped: bool, turn: Turn): Record {
    if !turn.readable || turn.firstWrite.Refused? then Record(1, Prepared, owner)
    else if stopped || turn.aborted then Record(2, NotRun, owner)
    else if !turn.firstWrite.Done? then Record(2, Dispatching, owner)
    else if turn.cancelled then
      if turn.cancelWrite.Refused? then Record(2, Dispatching, owner) else Record(3, NotStarted, owner)
    else if turn.finalWrite.Refused? then Record(2, Dispatching, owner)
    else Record(3, AnswerTo(turn), owner)
  }

  /** Whether the batch stops here. */
  predicate Halts(stopped: bool, turn: Turn) {
    !(Sends(stopped, turn) && turn.reply.Completed? && turn.finalWrite.Done? && !turn.abortedAfter)
  }

  /** A result that the caller gets tells the truth about the dispatch. */
  predicate Truthful(result: RunState, i: nat, sent: seq<nat>) {
    && (result.Completed? || result.Failed? ==> i in sent)
    && (result.NotRun? ==> i !in sent)
  }

  class Journal {
    var now: State
    ghost var states: seq<State>
    ghost var events: seq<Event>

    /** The steps so far are a run of the journal. */
    ghost predicate Valid()
      reads this
    {
      && IsRun(states, events) && Initial(states[0]) && states[|events|] == now
      && Invariant(now)
    }

    constructor (dead: set<nat>)
      ensures Valid() && now == State(None, [], None, dead, map[], []) && events == []
    {
      now := State(None, [], None, dead, map[], []);
      states, events := [State(None, [], None, dead, map[], [])], [];
    }

    method Step(e: Event)
      requires Valid() && Enabled(now, e)
      modifies this
      ensures Valid() && now == Apply(old(now), e)
      ensures states == old(states) + [now] && events == old(events) + [e]
    {
      StepKeepsInvariant(now, e);
      hide Apply, Enabled, Invariant, Initial;
      ghost var after := Apply(now, e);
      states, events := states + [after], events + [e];
      now := Apply(now, e);
    }

    method StepOfOthers(e: Event)
      requires Valid() && OfOthers(e) && Enabled(now, e)
      modifies this
      ensures Valid() && SameBatch(old(now), now) && now == Apply(old(now), e)
      ensures states == old(states) + [now] && events == old(events) + [e]
    {
      hide Invariant, Initial, IsRun;
      Step(e);
    }

    /** Others may do anything they can; the batch stays with its runner, and nothing is sent. */
    method Meanwhile(others: seq<Event>)
      requires Valid()
      modifies this
      ensures old(states) <= states && old(events) <= events
      ensures Valid() && SameBatch(old(now), now)
      ensures others == [] ==> now == old(now)
    {
      hide Invariant, Initial, IsRun;
      for k := 0 to |others|
        invariant old(states) <= states && old(events) <= events
        invariant Valid() && SameBatch(old(now), now)
        invariant k == 0 ==> now == old(now)
      {
        if OfOthers(others[k]) && Enabled(now, others[k]) {
          StepOfOthers(others[k]);
        }
      }
    }

    /** The loop body up to the journaled dispatch.  `done` carries the result of an item that is over;
        a runner that dies leaves at once. */
    method ReadAndMark(i: nat, stopped: bool, turn: Turn) returns (done: Option<RunState>, run: Record)
      requires Valid() && RunnerLives(now) && now.runner == Some(AtItem(i, stopped)) && i < |now.records|
      modifies this
      ensures old(states) <= states && old(events) <= events
      ensures Valid() && Running(now) && now.owner == old(now.owner) && now.sent == old(now.sent)
          && |now.records| == |old(now.records)|
      ensures done.Some? && RunnerLives(now)
          ==> now.runner == Some(AtItem(i + 1, true)) && Truthful(done.value, i, now.sent)
      ensures done.None? && RunnerLives(now) ==> now.runner == Some(Journaled(i, run)) && !stopped && !turn.aborted
      ensures Alone(turn) && old(now.records[i]) == Record(1, Prepared, now.owner.value) ==>
                && RunnerLives(now)
                && done == (if IsMarked(stopped, turn) then None else Some(Told(stopped, turn)))
                && now.records == old(now.records)[i := Marked(now.owner.value, stopped, turn)]
                && (IsMarked(stopped, turn) ==> run == now.records[i])
    {
      hide Invariant, Initial, IsRun;
      Meanwhile(turn.beforeRead);
      run := now.records[i];
      if !RunnerLives(now) {
        return None, run;
      }
      NotReachedNotSent(now, i);
      Step(ReadItem(turn.readable));
      if !turn.readable {
        return Some(NotRun), run;
      }
      Meanwhile(turn.afterRead);
      if !RunnerLives(now) {
        return None, run;
      }
      done, run := JudgeItem(i, stopped, run, turn);
    }

    /** What the copy that was read is good for. */
    method JudgeItem(i: nat, stopped: bool, read: Record, turn: Turn) returns (done: Option<RunState>, run: Record)
      requires Valid() && RunnerLives(now) && now.runner == Some(HasRead(i, stopped, read)) && i < |now.records|
      requires !read.state.Completed? && !read.state.Failed?
      modifies this
      ensures old(states) <= states && old(events) <= events
      ensures Valid() && RunnerLives(now) && now.owner == old(now.owner) && now.sent == old(now.sent)
      ensures |now.records| == |old(now.records)|
      ensures done.Some? ==> now.runner == Some(AtItem(i + 1, true)) && Truthful(done.value, i, now.sent)
      ensures done.None? ==> now.runner == Some(Journaled(i, run)) && !stopped && !turn.aborted
      ensures turn.readable && old(now.records[i]) == read == Record(1, Prepared, now.owner.value) ==>
                && done == (if IsMarked(stopped, turn) then None else Some(Told(stopped, turn)))
                && now.records == old(now.records)[i := Marked(now.owner.value, stopped, turn)]
                && (IsMarked(stopped, turn) ==> run == now.records[i])
    {
      NotReachedNotSent(now, i);
      hide Invariant, Initial, IsRun;
      run := read;
      if stopped || turn.aborted {
        var merged := Merge(now.records[i], run, NotRun);
        Step(Skip(turn.firstWrite));
        return Some(if turn.firstWrite.Done? then merged.state else NotRun), run;
      }
      if !run.state.Prepared? || run.owner != now.owner.value {
        Step(Foreign);
        return Some(run.state), run;
      }
      done, run := MarkItem(i, run, turn);
    }

    /** The journaled dispatch: only if the write is certain to have landed under the runner's claim. */
    method MarkItem(i: nat, read: Record, turn: Turn) returns (done: Option<RunState>, run: Record)
      requires Valid() && RunnerLives(now) && now.runner == Some(HasRead(i, false, read)) && i < |now.records|
      requires read.state.Prepared? && read.owner == now.owner.value
      modifies this
      ensures old(states) <= states && old(events) <= events
      ensures Valid() && RunnerLives(now) && now.owner == old(now.owner) && now.sent == old(now.sent)
      ensures |now.records| == |old(now.records)|
      ensures done.Some? ==> now.runner == Some(AtItem(i + 1, true)) && Truthful(done.value, i, now.sent)
      ensures done.None? ==> now.runner == Some(Journaled(i, run)) && turn.firstWrite.Done?
      ensures old(now.records[i]) == read ==>
                var marked := Record(read.version + 1, Dispatching, read.owner);
                && done == (if turn.firstWrite.Done? then None else Some(NotStarted))
                && now.records == old(now.records)[i := if turn.firstWrite.Refused? then read else marked]
                && (done.None? ==> run == marked)
    {
      NotReachedNotSent(now, i);
      hide Invariant, Initial, IsRun;
      run := read;
      var merged := Merge(now.records[i], run, Dispatching);
      Step(Mark(turn.firstWrite));
      if !turn.firstWrite.Done? {
        return Some(NotStarted), run;
      }
      if !merged.state.Dispatching? || merged.owner.claim != now.owner.value.claim {
        return Some(merged.state), run;
      }
      return None, merged;
    }

    /** The admission of the call, the call itself, and its answer. */
    method SendItem(i: nat, run: Record, turn: Turn) returns (change: RunState)
      requires Valid() && RunnerLives(now) && now.runner == Some(Journaled(i, run)) && i < |now.records|
          && GoodTurn(turn)
      modifies this
      ensures old(states) <= states && old(events) <= events
      ensures Valid() && Running(now) && now.owner == old(now.owner) && |now.records| == |old(now.records)|
      ensures now.sent == old(now.sent) || now.sent == old(now.sent) + [i]
      ensures RunnerLives(now) ==>
                && now.runner == Some(HasResult(i, run, change)) && IsResult(change)
                && (change.Completed? || change.Failed? ==> i in now.sent)
      // refused, it is not sent, and the refusal is what is recorded; else it is sent, and the answer is
      ensures RunnerLives(now) ==> change == AnswerTo(turn)
      ensures RunnerLives(now) ==> now.sent == old(now.sent) + if turn.refusal.None? then [i] else []
      ensures turn.refusal.Some? ==> now.sent == old(now.sent)
      ensures Alone(turn) ==> RunnerLives(now) && now.records == old(now.records)
    {
      hide Invariant, Initial, IsRun;
      change := turn.reply;
      Meanwhile(turn.duringAdmission);
      if !RunnerLives(now) {
        return;
      }
      if turn.refusal.Some? {
        change := turn.refusal.value;
        Step(NotSent(change));
        return;
      }
      Step(Send);
      Meanwhile(turn.duringRun);
      if !RunnerLives(now) {
        return;
      }
      Step(Reply(change));
    }

    /** From the journaled dispatch to the native answer, or to the reason why there is none. */
    method Dispatch(i: nat, run: Record, turn: Turn) returns (done: Option<RunState>, change: RunState)
      requires Valid() && RunnerLives(now) && now.runner == Some(Journaled(i, run)) && i < |now.records|
          && GoodTurn(turn)
      modifies this
      ensures old(states) <= states && old(events) <= events
      ensures Valid() && Running(now) && now.owner == old(now.owner) && |now.records| == |old(now.records)|
      ensures now.sent == old(now.sent) || (now.sent == old(now.sent) + [i] && !turn.cancelled)
      ensures done.Some? && RunnerLives(now)
          ==> now.runner == Some(AtItem(i + 1, true)) && Truthful(done.value, i, now.sent)
      ensures done.None? && RunnerLives(now) ==>
                && now.runner == Some(HasResult(i, run, change)) && IsResult(change) && !turn.cancelled
                && (change.Completed? || change.Failed? ==> i in now.sent)
      ensures RunnerLives(now) ==> (done.Some? <==> turn.cancelled) && (done.None? ==> change == AnswerTo(turn))
      ensures RunnerLives(now) ==>
                now.sent == old(now.sent) + if !turn.cancelled && turn.refusal.None? then [i] else []
      ensures turn.cancelled || turn.refusal.Some? ==> now.sent == old(now.sent)
      ensures Alone(turn) && old(now.records[i]) == run ==>
                && RunnerLives(now) && done == (if turn.cancelled then Some(NotStarted) else None)
                && now.records == old(now.records)[i := if turn.cancelled && !turn.cancelWrite.Refused?
                                                        then Record(run.version + 1, NotStarted, run.owner) else run]
    {
      hide Invariant, Initial, IsRun;
      change := turn.reply;
      Meanwhile(turn.afterMark);
      if !RunnerLives(now) {
        return None, change;
      }
      JournaledNotSent(now, i);
      if turn.cancelled {
        var merged := Merge(now.records[i], run, NotStarted);
        Step(Cancel(turn.cancelWrite));
        return Some(if turn.cancelWrite.Done? then merged.state else NotStarted), change;
      }
      change := SendItem(i, run, turn);
      return None, change;
    }

    /** The final update, and whether the batch stops here. */
    method Finalize(i: nat, run: Record, change: RunState, turn: Turn) returns (result: RunState, stop: bool)
      requires Valid() && RunnerLives(now) && now.runner == Some(HasResult(i, run, change)) && i < |now.records|
      requires IsResult(change) && (change.Completed? || change.Failed? ==> i in now.sent)
      modifies this
      ensures old(states) <= states && old(events) <= events
      ensures Valid() && now.owner == old(now.owner) && now.sent == old(now.sent) && |now.records| == |old(now.records)|
      ensures RunnerLives(now) && now.runner == Some(AtItem(i + 1, stop))
      ensures Truthful(result, i, now.sent)
      ensures !stop ==> result.Completed?
      ensures old(now.records[i]) == run ==>
                && result == change
                && stop == (!change.Completed? || !turn.finalWrite.Done? || turn.abortedAfter)
                && now.records == old(now.records)[i := if turn.finalWrite.Refused? then run
                                                        else Record(run.version + 1, change, run.owner)]
    {
      ResultIsTrue(now, i);
      hide Invariant, Initial, IsRun;
      var merged := Merge(now.records[i], run, change);
      Step(RunJournal.Finalize(turn.finalWrite, turn.abortedAfter));
      result := if turn.finalWrite.Done? then merged.state else change;
      stop := !turn.finalWrite.Done? || !merged.state.Completed? || turn.abortedAfter;
    }

    method RunItem(i: nat, stopped: bool, turn: Turn) returns (result: RunState, stop: bool)
      requires Valid() && RunnerLives(now) && now.runner == Some(AtItem(i, stopped)) && i < |now.records|
          && GoodTurn(turn)
      modifies this
      ensures old(states) <= states && old(events) <= events
      ensures Valid() && Running(now) && now.owner == old(now.owner) && |now.records| == |old(now.records)|
      ensures now.sent == old(now.sent) ||
                (now.sent == old(now.sent) + [i] && !stopped && !turn.aborted && !turn.cancelled)
      ensures RunnerLives(now) ==> now.runner == Some(AtItem(i + 1, stop)) && Truthful(result, i, now.sent)
      ensures RunnerLives(now) && !stop ==> result.Completed?
      ensures turn.refusal.Some? ==> now.sent == old(now.sent)
      ensures Alone(turn) && old(now.records[i]) == Record(1, Prepared, now.owner.value) ==>
                && RunnerLives(now)
                && result == Told(stopped, turn) && stop == Halts(stopped, turn)
                && now.sent == (if Sends(stopped, turn) then old(now.sent) + [i] else old(now.sent))
                && now.records == old(now.records)[i := Recorded(now.owner.value, stopped, turn)]
    {
      hide Invariant, Initial, IsRun, Enabled;
      var done, run := ReadAndMark(i, stopped, turn);
      if !RunnerLives(now) || done.Some? {
        return if done.Some? then done.value else OutcomeUnknown, true;
      }
      var over, change := Dispatch(i, run, turn);
      if !RunnerLives(now) || over.Some? {
        return if over.Some? then over.value else OutcomeUnknown, true;
      }
      Meanwhile(turn.beforeFinal);
      if !RunnerLives(now) {
        return OutcomeUnknown, true;
      }
      result, stop := Finalize(i, run, change, turn);
    }

    /** The loop: what the caller gets for each item is true, an item is only dispatched while every
        result so far is `completed`, and a runner that lives gets to the end. */
    method RunItems(owner: Owner, turns: seq<Turn>) returns (results: seq<RunState>)
      requires Valid() && Enabled(now, Admit(owner, |turns|)) && forall t :: t in turns ==> GoodTurn(t)
      modifies this
      ensures old(states) <= states && old(events) <= events
      ensures Valid()
      ensures now.owner == Some(owner) && |now.records| == |turns| && |results| <= |turns|
      ensures owner.process !in now.dead ==> now.runner == Some(Finished) && |results| == |turns|
      ensures TrueAndInOrder(results, now.sent)
      // left alone, each item is sent, recorded and reported as its turn says, until one halts the batch
      ensures AllAlone(turns) ==> |results| == |turns| && AsTheTurnsSay(turns, owner, results, now)
      // and if nothing fails either, exactly the items up to the first that does not complete are sent
      ensures AllUndisturbed(turns) ==> |results| == |turns| && AsAnswered(turns, results, now)
    {
      NothingYet(now);
      hide Invariant, Initial, IsRun;
      Step(Admit(owner, |turns|));
      hide TrueAndInOrder, AsTheTurnsSay, AsAnswered, Alone, Undisturbed, Truthful, AllComplete, Enabled, Apply;
      hide Halted, Sends, Halts, Told, Recorded;
      results := [];
      var stop := false;
      NoResultsYet(turns, now, owner);
      for i := 0 to |turns|
        invariant old(states) <= states && old(events) <= events
        invariant Valid() && now.owner == Some(owner) && |now.records| == |turns|
        invariant |results| == i && RunnerLives(now) && now.runner == Some(AtItem(i, stop))
        invariant (forall k :: k in now.sent ==> k < i) && TrueAndInOrder(results, now.sent)
        invariant !stop ==> forall k :: 0 <= k < |results| ==> results[k].Completed?
        invariant AllAlone(turns) ==>
                    && Untouched(now, owner, i) && AsTheTurnsSay(turns, owner, results, now)
                    && (stop <==> Halted(turns, i))
      {
        ghost var before := now;
        assert turns[i] in turns;
        var result, stopped := RunItem(i, stop, turns[i]);
        if !RunnerLives(now) {
          InOrderSoFar(results, before.sent, now.sent, i);
          return;
        }
        InOrderStill(results, result, before.sent, now.sent, i, stop);
        if AllAlone(turns) {
          AsTheTurnsSayStill(turns, results, result, before, now, owner, i, stop);
        }
        results, stop := results + [result], stopped;
      }
      if AllUndisturbed(turns) {
        UndisturbedIsAnswered(turns, owner, results, now);
      }
      End();
    }

    method End()
      requires Valid() && RunnerLives(now) && now.runner.value.AtItem? && now.runner.value.i == |now.records|
      modifies this
      ensures old(states) <= states && old(events) <= events
      ensures Valid() && now == old(now).(runner := Some(Finished))
    {
      hide Invariant, Initial, IsRun;
      Step(Finish);
    }

    /** `reconcileRun`: read, decide, write back; others come in between. */
    method ReconcileRun(id: nat, process: nat, i: nat, afterRead: seq<Event>, saysDead: bool, answer: RunState,
                        beforeWrite: seq<Event>, w: WriteResult)
      requires Valid() && id !in now.inspectors && process !in now.dead && i < |now.records|
      requires IsResult(answer)
      modifies this
      ensures old(states) <= states && old(events) <= events
      ensures Valid() && now.owner == old(now.owner) && now.runner == old(now.runner) && now.sent == old(now.sent)
      ensures old(now.records[i]).state.Terminal() ==> events == old(events)
      ensures afterRead == beforeWrite == [] && w.Done? ==>
                now.records == old(now.records)[i := Reconciled(old(now), process, i, saysDead, answer)]
    {
      hide Invariant, Initial, IsRun;
      var run := now.records[i];
      if run.state.Terminal() {
        return;
      }
      StepOfOthers(Look(id, process, i));
      LookedCanDecide(now, id);
      Meanwhile(afterRead);
      Decide(id, saysDead, answer);
      Meanwhile(beforeWrite);
      WriteBack(id, w);
    }

    /** What the inspector makes of its copy. */
    method Decide(id: nat, saysDead: bool, answer: RunState)
      requires Valid() && IsResult(answer)
      modifies this
      ensures old(states) <= states && old(events) <= events
      ensures Valid() && SameBatch(old(now), now) && now.records == old(now.records)
      ensures Undecided(old(now), id) ==>
                match Decision(old(now), old(now).inspectors[id], saysDead, answer)
                case None => !Decided(now, id)
                case Some(change) =>
                  Decided(now, id) && now.inspectors[id] == old(now).inspectors[id].(change := Some(change))
    {
      if id in now.inspectors {
        LookedCanDecide(now, id);
      }
      hide Invariant, Initial, IsRun;
      if id in now.inspectors && now.inspectors[id].run.state.Prepared? && Enabled(now, Judge(id, saysDead)) {
        StepOfOthers(Judge(id, saysDead));
      } else if id in now.inspectors && !now.inspectors[id].run.state.Prepared? && Enabled(now, Consult(id, answer)) {
        StepOfOthers(Consult(id, answer));
      }
    }

    method WriteBack(id: nat, w: WriteResult)
      requires Valid()
      modifies this
      ensures old(states) <= states && old(events) <= events
      ensures Valid() && SameBatch(old(now), now)
      ensures Decided(old(now), id) && w.Done? ==>
                var inspector := old(now).inspectors[id];
                now.records ==
                  old(now).records[inspector.i :=
                    Merge(old(now).records[inspector.i], inspector.run, inspector.change.value)]
      ensures !Decided(old(now), id) ==> now == old(now)
    {
      hide Invariant, Initial, IsRun;
      if Enabled(now, Report(id, w)) {
        StepOfOthers(Report(id, w));
      }
    }
  }

  predicate Undecided(s: State, id: nat) {
    && id in s.inspectors && s.inspectors[id].change.None? && s.inspectors[id].process !in s.dead
    && !s.inspectors[id].run.state.Terminal()
  }

  predicate Decided(s: State, id: nat) {
    && id in s.inspectors && s.inspectors[id].change.Some? && s.inspectors[id].process !in s.dead
    && s.inspectors[id].i < |s.records|
  }

  /** The change that an inspector decides on, if any; the native side answers with a terminal result only
      for an item that was sent. */
  function Decision(s: State, inspector: Inspector, saysDead: bool, answer: RunState): Option<RunState> {
    if inspector.run.state.Prepared? then
      if Abandoned(s, inspector, saysDead) then Some(NotStarted) else None
    else if inspector.run.owner.process == inspector.process && ActiveClaim(s, inspector.run.owner.claim) then None
    else if answer.Terminal() && inspector.i !in s.sent then None
    else Some(answer)
  }

  /** The record after an inspection that nobody comes in between. */
  function Reconciled(s: State, process: nat, i: nat, saysDead: bool, answer: RunState): Record
    requires i < |s.records|
  {
    var run := s.records[i];
    if run.state.Terminal() then run
    else match Decision(s, Inspector(process, i, run, None), saysDead, answer)
      case None => run
      case Some(change) => run.(state := change, version := run.version + 1)
  }

  predicate AllUndisturbed(turns: seq<Turn>) {
    forall t :: t in turns ==> Undisturbed(t)
  }

  /** The results tell the truth, and whatever was sent came after completed items only. */
  predicate TrueAndInOrder(results: seq<RunState>, sent: seq<nat>) {
    && (forall k :: 0 <= k < |results| ==> Truthful(results[k], k, sent))
    && forall j, k :: 0 <= j < k < |results| && k in sent ==> results[j].Completed?
  }

  /** Exactly the items before which all answers were completions are sent; they are recorded and reported
      as answered, all others as not run. */
  predicate AsAnswered(turns: seq<Turn>, results: seq<RunState>, s: State) {
    && |results| <= |turns| && |results| <= |s.records|
    && forall k :: 0 <= k < |results| ==>
         && (k in s.sent <==> AllComplete(turns, k))
         && results[k] == (if AllComplete(turns, k) then turns[k].reply else NotRun)
         && s.records[k].state == results[k]
  }

  predicate AllAlone(turns: seq<Turn>) {
    forall t :: t in turns ==> Alone(t)
  }

  /** One of the first `n` items has halted the batch. */
  predicate Halted(turns: seq<Turn>, n: nat)
    requires n <= |turns|
  {
    exists k :: 0 <= k < n && Halts(false, turns[k])
  }

  /** Each item so far is sent, recorded and reported as its turn says, given whether the batch had halted. */
  predicate AsTheTurnsSay(turns: seq<Turn>, owner: Owner, results: seq<RunState>, s: State) {
    && |results| <= |turns| && |results| <= |s.records|
    && forall k :: 0 <= k < |results| ==>
         && (k in s.sent <==> Sends(Halted(turns, k), turns[k]))
         && results[k] == Told(Halted(turns, k), turns[k])
         && s.records[k] == Recorded(owner, Halted(turns, k), turns[k])
  }

  predicate Untouched(s: State, owner: Owner, i: nat) {
    forall k :: i <= k < |s.records| ==> s.records[k] == Record(1, Prepared, owner)
  }

  lemma NoResultsYet(turns: seq<Turn>, s: State, owner: Owner)
    ensures AsTheTurnsSay(turns, owner, [], s) && TrueAndInOrder([], s.sent) && !Halted(turns, 0)
  {
  }

  lemma SentOnlyOneMore(before: seq<nat>, after: seq<nat>, i: nat, k: nat)
    requires (after == before || after == before + [i]) && k != i
    ensures k in after <==> k in before
  {
  }

  lemma InOrderSoFar(results: seq<RunState>, before: seq<nat>, after: seq<nat>, i: nat)
    requires |results| == i && TrueAndInOrder(results, before) && (after == before || after == before + [i])
    ensures TrueAndInOrder(results, after)
  {
    forall k | 0 <= k < i ensures k in after <==> k in before {
      SentOnlyOneMore(before, after, i, k);
    }
  }

  lemma InOrderStill(results: seq<RunState>, result: RunState, before: seq<nat>, after: seq<nat>, i: nat, stop: bool)
    requires |results| == i && TrueAndInOrder(results, before) && (forall k :: k in before ==> k < i)
    requires after == before || (after == before + [i] && !stop)
    requires !stop ==> forall k :: 0 <= k < |results| ==> results[k].Completed?
    requires Truthful(result, i, after)
    ensures TrueAndInOrder(results + [result], after) && forall k :: k in after ==> k < i + 1
  {
    InOrderSoFar(results, before, after, i);
  }

  lemma AsTheTurnsSayStill(turns: seq<Turn>, results: seq<RunState>, result: RunState, before: State, after: State,
                           owner: Owner, i: nat, stop: bool)
    requires |results| == i < |turns| && |before.records| == |turns|
    requires Untouched(before, owner, i) && AsTheTurnsSay(turns, owner, results, before) && (stop <==> Halted(turns, i))
    requires result == Told(stop, turns[i])
    requires after.sent == (if Sends(stop, turns[i]) then before.sent + [i] else before.sent)
    requires forall k :: k in before.sent ==> k < i
    requires after.records == before.records[i := Recorded(owner, stop, turns[i])]
    ensures Untouched(after, owner, i + 1) && AsTheTurnsSay(turns, owner, results + [result], after)
    ensures Halts(stop, turns[i]) <==> Halted(turns, i + 1)
  {
    forall k | 0 <= k < i ensures k in after.sent <==> k in before.sent {
      SentOnlyOneMore(before.sent, after.sent, i, k);
    }
    HaltedOneMore(turns, i);
    hide Told, Recorded, Halts, Sends;
  }

  lemma HaltedOneMore(turns: seq<Turn>, i: nat)
    requires i < |turns|
    ensures Halted(turns, i + 1) <==> Halts(Halted(turns, i), turns[i])
  {
    hide Alone;
    if Halted(turns, i) {
      var k :| 0 <= k < i && Halts(false, turns[k]);
      assert Halted(turns, i + 1);
    } else if Halts(false, turns[i]) {
      assert Halted(turns, i + 1);
    }
  }

  /** Without failures, to halt is to be answered with anything but completion. */
  lemma UndisturbedIsAnswered(turns: seq<Turn>, owner: Owner, results: seq<RunState>, s: State)
    requires AllUndisturbed(turns) && AsTheTurnsSay(turns, owner, results, s)
    ensures AsAnswered(turns, results, s)
  {
    forall k | 0 <= k < |turns| ensures Halts(false, turns[k]) <==> !turns[k].reply.Completed? {
      assert turns[k] in turns;
    }
    forall k | 0 <= k < |results| ensures Halted(turns, k) <==> !AllComplete(turns, k) {
      hide Halts;
    }
    forall k | 0 <= k < |results|
      ensures Sends(Halted(turns, k), turns[k]) <==> AllComplete(turns, k)
      ensures Told(Halted(turns, k), turns[k]) == if AllComplete(turns, k) then turns[k].reply else NotRun
      ensures Recorded(owner, Halted(turns, k), turns[k]).state == Told(Halted(turns, k), turns[k])
    {
      assert turns[k] in turns;
      hide Halted, AllComplete;
    }
    hide Halted, Sends, Told, Recorded, AllComplete;
  }

  /** The first `n` items are answered with completion. */
  predicate AllComplete(turns: seq<Turn>, n: nat)
    requires n <= |turns|
  {
    forall k :: 0 <= k < n ==> turns[k].reply.Completed?
  }

  /** The call of the runner is not over, whether or not its process lives. */
  predicate Running(s: State) {
    s.owner.Some? && s.runner.Some? && !s.runner.value.Finished?
  }

  predicate SameBatch(before: State, after: State) {
    && after.owner == before.owner && after.runner == before.runner && after.sent == before.sent
    && |after.records| == |before.records|
  }

  lemma LookedCanDecide(s: State, id: nat)
    requires Invariant(s) && id in s.inspectors
    ensures s.inspectors[id].i < |s.records|
  {
    assert GoodInspector(s, s.inspectors[id]);
  }

  lemma NotReachedNotSent(s: State, i: nat)
    requires Invariant(s) && s.runner.Some? && i < |s.records|
    requires (s.runner.value.AtItem? || s.runner.value.HasRead?) && s.runner.value.i == i
    ensures i !in s.sent && (s.records[i].state.Prepared? || s.records[i].state.NotStarted?)
  {
    assert GoodRecord(s, i);
  }

  lemma JournaledNotSent(s: State, i: nat)
    requires Invariant(s) && s.runner.Some? && s.runner.value.Journaled? && s.runner.value.i == i && i < |s.records|
    ensures i !in s.sent && !s.records[i].state.Completed? && !s.records[i].state.Failed?
  {
    assert GoodRecord(s, i);
  }

  lemma ResultIsTrue(s: State, i: nat)
    requires Invariant(s) && s.runner.Some? && s.runner.value.HasResult? && s.runner.value.i == i && i < |s.records|
    ensures s.records[i].state.Completed? || s.records[i].state.Failed? ==> i in s.sent
    ensures !s.records[i].state.NotRun?
  {
    assert GoodRecord(s, i);
  }

  lemma NothingYet(s: State)
    requires Invariant(s) && s.owner.None?
    ensures s.sent == [] && s.records == [] && s.runner.None?
  {
  }
}
