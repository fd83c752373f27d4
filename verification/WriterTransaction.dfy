/** `transaction` as a program: one process works through its calls while all others take steps of their
    own in between.  It is shown to take only steps of `WriterLock`. */
module WriterTransaction {
  import opened Wrappers
  import opened WriterLock

  /** How a call of `transaction` ends: the callback ran, whatever came of it; the call threw before that,
      because the workspace is busy or a system call failed; or the process died. */
  datatype Outcome = Ran | Threw | Died

  /** What meets one system call: the steps of others before it, whether it throws, whether a claim has
      reached the file all the same, and whether `provenDead` notices a death. */
  datatype Turn = Turn(others: seq<Event>, throws: bool, landed: bool, notices: bool)

  predicate ByProcess(e: Event, p: nat) {
    !e.Spawn? && !e.Crash? && e.p == p
  }

  /** Nobody comes in between, nothing throws, and a death is noticed. */
  predicate Undisturbed(turns: seq<Turn>) {
    forall t :: t in turns ==> Quiet(t)
  }

  predicate Quiet(turn: Turn) {
    turn.others == [] && !turn.throws && turn.notices
  }

  predicate SamePlace(before: State, after: State, p: nat) {
    p < |before.processes| && p < |after.processes| && At(after, p) == At(before, p)
  }

  predicate InCallback(s: State, p: nat) {
    p < |s.processes| && At(s, p).Inside?
  }

  /** The process was in no callback in any state from `since` on. */
  ghost predicate NeverInside(states: seq<State>, since: nat, p: nat) {
    forall n :: since <= n < |states| ==> !InCallback(states[n], p)
  }

  /** In this state the process has just gone inside, and there was no `recovery.lock` when it did. */
  ghost predicate WentInside(states: seq<State>, entry: nat, p: nat) {
    && 0 < entry < |states| && InCallback(states[entry], p) && !InCallback(states[entry - 1], p)
    && states[entry - 1].recoveryLock.None?
  }

  lemma WentInsideStays(states: seq<State>, longer: seq<State>, entry: nat, p: nat)
    requires WentInside(states, entry, p) && states <= longer
    ensures WentInside(longer, entry, p)
  {
    assert longer[entry] == states[entry] && longer[entry - 1] == states[entry - 1];
  }

  lemma NothingNew(states: seq<State>, p: nat)
    ensures NeverInside(states, |states|, p)
  {
  }

  lemma NeverInsideJoins(a: seq<State>, b: seq<State>, c: seq<State>, d: seq<State>, p: nat)
    requires a <= b <= c <= d
    requires NeverInside(b, |a|, p) && NeverInside(c, |b|, p) && (c == d || NeverInside(d, |c|, p))
    ensures NeverInside(d, |a|, p)
  {
    forall n | |a| <= n < |d| ensures !InCallback(d[n], p) {
      if n < |b| {
        assert d[n] == b[n];
      } else if n < |c| {
        assert d[n] == c[n];
      }
    }
  }

  /** Nobody else is inside its callback, and the lock file names this process. */
  ghost predicate AloneInside(s: State, p: nat) {
    && Runs(s, p) && At(s, p).Inside?
    && ReadLock(s) == Some(Identity(s, p, At(s, p).claim))
    && forall q :: 0 <= q < |s.processes| && s.processes[q].alive && At(s, q).Inside? ==> q == p
  }

  lemma InsideIsAlone(s: State, p: nat)
    requires Invariant(s) && Runs(s, p) && At(s, p).Inside?
    ensures AloneInside(s, p)
  {
    assert GoodProcess(s, p);
    forall q | 0 <= q < |s.processes| && s.processes[q].alive && At(s, q).Inside? ensures q == p {
      assert GoodProcess(s, q);
    }
  }

  // ----- The order of the calls -----

  /** Which call comes after which, with the exceptions and the refusals. */
  predicate LeadsTo(pc: Pc, throws: bool, after: Pc) {
    match pc
    case Idle => after.Idle?
    case OpenOwner(_) => after.Idle? || (!throws && after.ReadOwner?)
    case ReadOwner(_, _) => after.Idle? || (!throws && after.AskOwner?)
    case AskOwner(_, _) => after.Idle? || after.CreateGuard?
    case CreateGuard(_, _) => after.Idle? || (!throws && after.WriteGuard?)
    case WriteGuard(_, _) => if throws then after.CloseGuard? else after.SyncGuard?
    case SyncGuard(_, _) => if throws then after.CloseGuard? else after.OpenCurrent?
    case OpenCurrent(_, _) => after.CloseGuard? || (!throws && after.ReadCurrent?)
    case ReadCurrent(_, _, _) => after.CloseGuard? || (!throws && after.AskCurrent?)
    case AskCurrent(_, _, _) => after.CloseGuard? || after.UnlinkStale?
    case UnlinkStale(_, _) => after.CloseGuard? || (!throws && after.Recreate?)
    case Recreate(_) => after.CloseGuard?
    case CloseGuard(_, _) => if throws then after.Idle? else after.DropGuard?
    case DropGuard(_, _) => after.Idle? || (!throws && after.WriteClaim?)
    case WriteClaim(_, _) => if throws then after.CloseOwn? else after.SyncClaim?
    case SyncClaim(_, _) => if throws then after.CloseOwn? else after.LookForGuard?
    case LookForGuard(_, _) => after.CloseOwn? || after.Inside?
    case Inside(_, _) => after.CloseOwn?
    case CloseOwn(_, _) => if throws then after.Idle? else after.OpenOwn?
    case OpenOwn(_, _) => after.Idle? || (!throws && after.ReadOwn?)
    case ReadOwn(_, _, _) => after.Idle? || (!throws && after.UnlinkOwn?)
    case UnlinkOwn(_, _) => after.Idle?
  }

  /** `existsSync`, `provenDead` and the way from the callback to `finally` do not throw. */
  predicate MayThrow(pc: Pc) {
    !pc.Idle? && !pc.AskOwner? && !pc.AskCurrent? && !pc.LookForGuard? && !pc.Inside?
  }

  /** The event of a call that meets this turn; only the answer of `provenDead` depends on the state. */
  function Meeting(s: State, p: nat, turn: Turn): (e: Event)
    requires p < |s.processes|
  {
    var pc := At(s, p);
    if turn.throws && MayThrow(pc) then Fault(p, turn.landed && pc.WriteClaim?)
    else if pc.AskOwner? then Ask(p, turn.notices && NobodyHas(s, s.processes[p].host, pc.owner.pid))
    else if pc.AskCurrent? then Ask(p, turn.notices && NobodyHas(s, s.processes[p].host, pc.current.pid))
    else NextCall(pc, p)
  }

  lemma CallIsEnabled(s: State, p: nat, turn: Turn)
    requires Runs(s, p) && !At(s, p).Idle?
    ensures Enabled(s, Meeting(s, p, turn))
  {
    hide NobodyHas;
  }

  lemma FaultLeads(s: State, p: nat, turn: Turn)
    requires Runs(s, p) && MayThrow(At(s, p)) && turn.throws
    ensures Enabled(s, Meeting(s, p, turn)) && Runs(Apply(s, Meeting(s, p, turn)), p)
    ensures LeadsTo(At(s, p), true, At(Apply(s, Meeting(s, p, turn)), p))
  {
    hide NobodyHas, SoundAnswer;
  }

  lemma CallLeads(s: State, p: nat, turn: Turn)
    requires Runs(s, p) && !At(s, p).Idle?
    ensures Enabled(s, Meeting(s, p, turn)) && Runs(Apply(s, Meeting(s, p, turn)), p)
    ensures LeadsTo(At(s, p), turn.throws, At(Apply(s, Meeting(s, p, turn)), p))
  {
    CallIsEnabled(s, p, turn);
    if turn.throws && MayThrow(At(s, p)) {
      FaultLeads(s, p, turn);
    } else {
      hide Enabled, NobodyHas;
      match At(s, p)
      case AskOwner(_, _) =>
      case AskCurrent(_, _, _) =>
      case _ =>
    }
  }

  /** Undisturbed, on the way in, the call is the expected one. */
  lemma QuietCallIsNext(s: State, p: nat, turn: Turn)
    requires OnTheWay(s, p) && Quiet(turn)
    ensures Meeting(s, p, turn) == NextCall(At(s, p), p)
  {
  }

  /** On the way in, and begun. */
  predicate Underway(s: State, p: nat) {
    OnTheWay(s, p) && !At(s, p).Idle?
  }

  /** Out of the callback with the own lock still there, or the lock given back. */
  predicate OnTheWayOut(s: State, p: nat) {
    && Runs(s, p)
    && match At(s, p)
       case Idle => s.writerLock.None?
       case CloseOwn(claim, _) => NamesClaim(s, claim)
       case OpenOwn(claim, _) => NamesClaim(s, claim)
       case ReadOwn(claim, _, inode) => NamesClaim(s, claim) && s.writerLock == Some(inode)
       case UnlinkOwn(_, _) => s.writerLock.Some?
       case _ => false
  }

  predicate NamesClaim(s: State, claim: nat) {
    ReadLock(s).Some? && ReadLock(s).value.claim == claim
  }

  lemma WayOutGoesOn(s: State, p: nat, turn: Turn)
    requires OnTheWayOut(s, p) && !At(s, p).Idle? && Quiet(turn)
    ensures Enabled(s, Meeting(s, p, turn)) && OnTheWayOut(Apply(s, Meeting(s, p, turn)), p)
    ensures At(s, p).ReadOwn? ==> At(Apply(s, Meeting(s, p, turn)), p).UnlinkOwn?
  {
    hide NobodyHas;
  }

  /** From the callback, and from the last look that refused it, the way out begins with the own lock there. */
  lemma TheWayOutBegins(s: State, p: nat, turn: Turn)
    requires Invariant(s) && Runs(s, p) && (At(s, p).Inside? || (At(s, p).LookForGuard? && s.recoveryLock.Some?))
    ensures Enabled(s, Meeting(s, p, turn)) && OnTheWayOut(Apply(s, Meeting(s, p, turn)), p)
  {
    assert GoodProcess(s, p);
  }

  /** The last look decides by `recovery.lock` alone. */
  lemma LookDecides(s: State, p: nat, turn: Turn)
    requires Runs(s, p) && At(s, p).LookForGuard?
    ensures Enabled(s, Meeting(s, p, turn)) && Runs(Apply(s, Meeting(s, p, turn)), p)
    ensures At(Apply(s, Meeting(s, p, turn)), p).Inside? <==> s.recoveryLock.None?
  {
  }

  /** Away from the recovery no call touches the guard. */
  lemma GuardIsLeftAlone(s: State, p: nat, turn: Turn)
    requires Runs(s, p) && !At(s, p).Idle? && !HoldsGuard(At(s, p)) && !At(s, p).CreateGuard?
    ensures Enabled(s, Meeting(s, p, turn)) && Apply(s, Meeting(s, p, turn)).recoveryLock == s.recoveryLock
  {
    CallIsEnabled(s, p, turn);
    hide Enabled, NobodyHas;
  }

  /** A call that ended before the callback. */
  predicate Refusal(ended: Outcome, s: State, p: nat) {
    !ended.Ran? && if ended.Died? then !Runs(s, p) else Runs(s, p) && At(s, p).Idle?
  }

  lemma GuardIsHeld(s: State, p: nat)
    requires Invariant(s) && Runs(s, p) && HoldsGuard(At(s, p))
    ensures s.recoveryLock == Some(p)
  {
    assert GoodProcess(s, p);
  }

  lemma ClaimIsWritten(s: State, p: nat)
    requires Invariant(s) && Runs(s, p) && At(s, p).LookForGuard?
    ensures ReadLock(s) == Some(Identity(s, p, At(s, p).claim))
  {
    assert GoodProcess(s, p);
  }

  class LockDirectory {
    var now: State
    ghost var states: seq<State>
    ghost var events: seq<Event>

    ghost predicate Valid()
      reads this
    {
      states != [] && states[|states| - 1] == now && IsRun(states, events) && Invariant(now)
    }

    /** The state before the last step. */
    ghost function Before(): (s: State)
      reads this
      requires |states| >= 2
    {
      states[|states| - 2]
    }

    constructor ()
      ensures Valid() && now == NO_PROCESSES
    {
      now := NO_PROCESSES;
      states, events := [NO_PROCESSES], [];
    }

    method Step(e: Event)
      requires Valid() && Enabled(now, e)
      modifies this
      ensures Valid() && now == Apply(old(now), e)
      ensures states == old(states) + [now] && events == old(events) + [e]
    {
      StepKeepsInvariant(now, e);
      hide Apply, Enabled, Invariant;
      ghost var after := Apply(now, e);
      states, events := states + [after], events + [e];
      now := Apply(now, e);
    }

    method StepOfOthers(p: nat, e: Event)
      requires Valid() && Enabled(now, e) && !ByProcess(e, p) && p < |now.processes|
      modifies this
      ensures Valid() && SamePlace(old(now), now, p)
      ensures states == old(states) + [now] && events == old(events) + [e]
    {
      hide Invariant, IsRun;
      Step(e);
    }

    /** Anything that others, and death, may do; says whether `p` still runs. */
    method Meanwhile(p: nat, others: seq<Event>) returns (runs: bool)
      requires Valid() && p < |now.processes|
      modifies this
      ensures Valid() && old(states) <= states && old(events) <= events
      ensures SamePlace(old(now), now, p) && runs == Runs(now, p)
      ensures others == [] ==> now == old(now) && states == old(states)
      ensures old(!At(now, p).Inside?) ==> NeverInside(states, old(|states|), p)
    {
      hide Invariant, IsRun, Enabled, Apply;
      for k := 0 to |others|
        invariant Valid() && old(states) <= states && old(events) <= events
        invariant SamePlace(old(now), now, p)
        invariant k == 0 ==> now == old(now) && states == old(states)
        invariant old(!At(now, p).Inside?) ==> NeverInside(states, old(|states|), p)
      {
        if !ByProcess(others[k], p) && Enabled(now, others[k]) {
          StepOfOthers(p, others[k]);
        }
      }
      runs := Runs(now, p);
    }

    /** One call of `p`: others move first, then the call returns or throws, in the state before the last. */
    method Call(p: nat, turn: Turn) returns (runs: bool)
      requires Valid() && Runs(now, p) && !At(now, p).Idle?
      modifies this
      ensures Valid() && old(states) <= states && old(events) <= events
      ensures p < |now.processes| && runs == Runs(now, p)
      ensures runs ==> LeadsTo(old(At(now, p)), turn.throws, At(now, p))
      ensures runs ==> old(|states|) < |states| && Invariant(Before()) && Runs(Before(), p)
      ensures runs ==> SamePlace(old(now), Before(), p)
      ensures old(!At(now, p).Inside?) && !(runs && At(now, p).Inside?) ==> NeverInside(states, old(|states|), p)
      ensures Quiet(turn) ==> runs && Before() == old(now) && Enabled(old(now), Meeting(old(now), p, turn))
      ensures Quiet(turn) ==> now == Apply(old(now), Meeting(old(now), p, turn))
      ensures Quiet(turn) && old(OnTheWay(now, p) && !At(now, p).Inside?) ==> Underway(now, p)
      ensures Quiet(turn) && old(OnTheWayOut(now, p) && !At(now, p).Idle?) ==> OnTheWayOut(now, p)
      ensures runs && old(At(now, p).LookForGuard?) ==> (At(now, p).Inside? <==> Before().recoveryLock.None?)
      ensures Quiet(turn) && old(!HoldsGuard(At(now, p)) && !At(now, p).CreateGuard?) ==>
                now.recoveryLock == old(now.recoveryLock)
    {
      hide Invariant, IsRun, Apply, Enabled, Meeting, LeadsTo, OnTheWay, OnTheWayOut;
      runs := Meanwhile(p, turn.others);
      if runs {
        CallLeads(now, p, turn);
        if At(now, p).LookForGuard? {
          LookDecides(now, p, turn);
        }
        if !HoldsGuard(At(now, p)) && !At(now, p).CreateGuard? {
          GuardIsLeftAlone(now, p, turn);
        }
        if OnTheWay(now, p) && Quiet(turn) && !At(now, p).Inside? {
          QuietCallIsNext(now, p, turn);
          WayGoesOn(now, p);
        }
        if OnTheWayOut(now, p) && Quiet(turn) && !At(now, p).Idle? {
          WayOutGoesOn(now, p, turn);
        }
        Step(Meeting(now, p, turn));
      }
    }

    /** The lock file that is in the way: who wrote it, and is that process dead? */
    method Inspect(p: nat, turns: seq<Turn>) returns (ended: Option<Outcome>)
      requires Valid() && Runs(now, p) && At(now, p).OpenOwner? && |turns| == 3
      modifies this
      ensures Valid() && old(states) <= states && old(events) <= events && p < |now.processes|
      ensures NeverInside(states, old(|states|), p)
      ensures ended.None? ==> Runs(now, p) && At(now, p).CreateGuard?
      ensures ended.Some? ==> Refusal(ended.value, now, p)
      ensures Undisturbed(turns) && old(Underway(now, p)) ==> ended.None? && Underway(now, p)
    {
      hide Invariant, IsRun, Apply, Enabled, Meeting, OnTheWay, OnTheWayOut, SamePlace, InCallback, Quiet;
      var runs := Call(p, turns[0]);
      if !runs || At(now, p).Idle? {
        return Some(if runs then Threw else Died);
      }
      runs := Call(p, turns[1]);
      if !runs || At(now, p).Idle? {
        return Some(if runs then Threw else Died);
      }
      runs := Call(p, turns[2]);
      if !runs || At(now, p).Idle? {
        return Some(if runs then Threw else Died);
      }
      ended := None;
    }

    method TakeGuard(p: nat, turn: Turn) returns (ended: Option<Outcome>)
      requires Valid() && Runs(now, p) && At(now, p).CreateGuard?
      modifies this
      ensures Valid() && old(states) <= states && old(events) <= events && p < |now.processes|
      ensures NeverInside(states, old(|states|), p)
      ensures ended.None? ==> Runs(now, p) && At(now, p).WriteGuard? && now.recoveryLock == Some(p)
      ensures ended.Some? ==> Refusal(ended.value, now, p)
      ensures Quiet(turn) && old(Underway(now, p)) ==> ended.None? && Underway(now, p)
    {
      hide Invariant, IsRun, Apply, Enabled, Meeting, OnTheWay, OnTheWayOut, SamePlace, InCallback, Quiet;
      var runs := Call(p, turn);
      if !runs || At(now, p).Idle? {
        return Some(if runs then Threw else Died);
      }
      GuardIsHeld(now, p);
      ended := None;
    }

    /** Leave a note in the guard. */
    method NoteInGuard(p: nat, turns: seq<Turn>) returns (runs: bool)
      requires Valid() && Runs(now, p) && At(now, p).WriteGuard? && |turns| == 2
      modifies this
      ensures Valid() && old(states) <= states && old(events) <= events && p < |now.processes|
      ensures NeverInside(states, old(|states|), p)
      ensures runs == Runs(now, p)
      ensures runs ==> if turns[0].throws || turns[1].throws then At(now, p).CloseGuard? else At(now, p).OpenCurrent?
      ensures Undisturbed(turns) && old(Underway(now, p)) ==> runs && Underway(now, p)
    {
      hide Invariant, IsRun, Apply, Enabled, Meeting, OnTheWay, OnTheWayOut, SamePlace, InCallback, Quiet;
      runs := Call(p, turns[0]);
      if !runs || At(now, p).CloseGuard? {
        return;
      }
      runs := Call(p, turns[1]);
    }

    /** Under the guard: read the lock file again and ask again.  Whatever is refused or fails, the guard is
        still to be closed and dropped. */
    method CheckAgain(p: nat, turns: seq<Turn>) returns (runs: bool)
      requires Valid() && Runs(now, p) && At(now, p).OpenCurrent? && |turns| == 3
      modifies this
      ensures Valid() && old(states) <= states && old(events) <= events && p < |now.processes|
      ensures NeverInside(states, old(|states|), p)
      ensures runs == Runs(now, p) && (runs ==> At(now, p).CloseGuard? || At(now, p).UnlinkStale?)
      ensures Undisturbed(turns) && old(Underway(now, p)) ==> runs && Underway(now, p)
    {
      hide Invariant, IsRun, Apply, Enabled, Meeting, OnTheWay, OnTheWayOut, SamePlace, InCallback, Quiet;
      runs := Call(p, turns[0]);
      if !runs || At(now, p).CloseGuard? {
        return;
      }
      runs := Call(p, turns[1]);
      if !runs || At(now, p).CloseGuard? {
        return;
      }
      runs := Call(p, turns[2]);
    }

    /** Unlink the stale lock, create it anew. */
    method Renew(p: nat, turns: seq<Turn>) returns (runs: bool)
      requires Valid() && Runs(now, p) && At(now, p).UnlinkStale? && |turns| == 2
      modifies this
      ensures Valid() && old(states) <= states && old(events) <= events && p < |now.processes|
      ensures NeverInside(states, old(|states|), p)
      ensures runs == Runs(now, p) && (runs ==> At(now, p).CloseGuard?)
      ensures Undisturbed(turns) && old(Underway(now, p)) ==> runs && Underway(now, p)
    {
      hide Invariant, IsRun, Apply, Enabled, Meeting, OnTheWay, OnTheWayOut, SamePlace, InCallback, Quiet;
      runs := Call(p, turns[0]);
      if !runs || At(now, p).CloseGuard? {
        return;
      }
      runs := Call(p, turns[1]);
    }

    /** The `finally` of the recovery. */
    method DropGuardAfter(p: nat, turns: seq<Turn>) returns (ended: Option<Outcome>)
      requires Valid() && Runs(now, p) && At(now, p).CloseGuard? && |turns| == 2
      modifies this
      ensures Valid() && old(states) <= states && old(events) <= events && p < |now.processes|
      ensures NeverInside(states, old(|states|), p)
      ensures ended.None? ==> Runs(now, p) && At(now, p).WriteClaim?
      ensures ended.Some? ==> Refusal(ended.value, now, p)
      ensures Undisturbed(turns) && old(Underway(now, p)) ==> ended.None? && Underway(now, p)
    {
      hide Invariant, IsRun, Apply, Enabled, Meeting, OnTheWay, OnTheWayOut, SamePlace, InCallback, Quiet;
      var runs := Call(p, turns[0]);
      if !runs || At(now, p).Idle? {
        return Some(if runs then Threw else Died);
      }
      runs := Call(p, turns[1]);
      if !runs || At(now, p).Idle? {
        return Some(if runs then Threw else Died);
      }
      ended := None;
    }

    /** The recovery of a stale lock, from the guard to the lock created anew. */
    method Recover(p: nat, turns: seq<Turn>) returns (ended: Option<Outcome>)
      requires Valid() && Runs(now, p) && At(now, p).CreateGuard? && |turns| == 10
      modifies this
      ensures Valid() && old(states) <= states && old(events) <= events && p < |now.processes|
      ensures NeverInside(states, old(|states|), p)
      ensures ended.None? ==> Runs(now, p) && At(now, p).WriteClaim?
      ensures ended.Some? ==> Refusal(ended.value, now, p)
      ensures Undisturbed(turns) && old(Underway(now, p)) ==> ended.None? && Underway(now, p)
    {
      hide Invariant, IsRun, Apply, Enabled, Meeting, OnTheWay, OnTheWayOut, SamePlace, InCallback, Quiet;
      ended := TakeGuard(p, turns[0]);
      if ended.Some? {
        return;
      }
      var runs := NoteInGuard(p, turns[1..3]);
      if runs && At(now, p).OpenCurrent? {
        runs := CheckAgain(p, turns[3..6]);
      }
      if runs && At(now, p).UnlinkStale? {
        runs := Renew(p, turns[6..8]);
      }
      if !runs {
        return Some(Died);
      }
      ended := DropGuardAfter(p, turns[8..]);
    }

    method Start(p: nat)
      requires Valid() && Runs(now, p) && At(now, p).Idle?
      modifies this
      ensures Valid() && old(states) <= states && old(events) <= events
      ensures NeverInside(states, old(|states|), p)
      ensures Runs(now, p) && if old(now.writerLock.None?) then At(now, p).WriteClaim? else At(now, p).OpenOwner?
      ensures now.recoveryLock == old(now.recoveryLock)
      ensures old(OnTheWay(now, p)) ==> Underway(now, p)
    {
      hide IsRun, Invariant;
      if OnTheWay(now, p) {
        WayGoesOn(now, p);
      }
      Step(Begin(p));
    }

    /** Up to the opened lock file: created at once, or in place of a stale one. */
    method Acquire(p: nat, turns: seq<Turn>) returns (ended: Option<Outcome>)
      requires Valid() && Runs(now, p) && At(now, p).Idle? && |turns| == 13
      modifies this
      ensures Valid() && old(states) <= states && old(events) <= events && p < |now.processes|
      ensures NeverInside(states, old(|states|), p)
      ensures ended.None? ==> Runs(now, p) && At(now, p).WriteClaim?
      ensures ended.Some? ==> Refusal(ended.value, now, p)
      ensures Undisturbed(turns) && old(OnTheWay(now, p)) ==> ended.None? && Underway(now, p)
      ensures old(now.writerLock.None?) ==> ended.None? && now.recoveryLock == old(now.recoveryLock)
    {
      Start(p);
      hide Invariant, IsRun, Apply, Enabled, Meeting, OnTheWay, OnTheWayOut, SamePlace, InCallback, Quiet;
      if At(now, p).WriteClaim? {
        return None;
      }
      ended := Inspect(p, turns[..3]);
      if ended.None? {
        ended := Recover(p, turns[3..]);
      }
    }

    /** The claim is written and synced; a call that throws leads to the way out. */
    method WriteOwn(p: nat, turns: seq<Turn>) returns (runs: bool)
      requires Valid() && Runs(now, p) && At(now, p).WriteClaim? && |turns| == 2
      modifies this
      ensures Valid() && old(states) <= states && old(events) <= events && p < |now.processes|
      ensures NeverInside(states, old(|states|), p)
      ensures runs == Runs(now, p)
      ensures runs ==> if turns[0].throws || turns[1].throws then At(now, p).CloseOwn? else At(now, p).LookForGuard?
      ensures runs && At(now, p).LookForGuard? ==> ReadLock(now) == Some(Identity(now, p, At(now, p).claim))
      ensures Undisturbed(turns) && old(Underway(now, p)) ==> runs && Underway(now, p)
      ensures Undisturbed(turns) ==> runs && now.recoveryLock == old(now.recoveryLock)
    {
      hide Invariant, IsRun, Apply, Enabled, Meeting, OnTheWay, OnTheWayOut, SamePlace, InCallback, Quiet;
      runs := Call(p, turns[0]);
      if !runs || At(now, p).CloseOwn? {
        return;
      }
      runs := Call(p, turns[1]);
      if runs && At(now, p).LookForGuard? {
        ClaimIsWritten(now, p);
      }
    }

    /** The last look for a guard, and the callback.  Of a call that ran, `entry` is the first state inside, and
        `moment` the last; of one that threw, `entry` comes directly after the look that found the guard. */
    method RunCallback(p: nat, turns: seq<Turn>) returns (ended: Outcome, ghost entry: nat, ghost moment: nat)
      requires Valid() && Runs(now, p) && At(now, p).LookForGuard? && |turns| == 2
      modifies this
      ensures Valid() && old(states) <= states && old(events) <= events && p < |now.processes|
      ensures if ended.Died? then !Runs(now, p) else Runs(now, p) && At(now, p).CloseOwn?
      ensures ended.Ran? ==> old(|states|) <= entry <= moment < |states| && AloneInside(states[moment], p)
      ensures ended.Ran? ==> WentInside(states, entry, p)
      ensures ended.Threw? ==> NeverInside(states, old(|states|), p)
      ensures ended.Threw? ==> old(|states|) <= entry < |states| && states[entry - 1].recoveryLock.Some?
      ensures Undisturbed(turns) ==>
                && ended == (if old(now.recoveryLock.None?) then Ran else Threw)
                && OnTheWayOut(now, p) && now.recoveryLock == old(now.recoveryLock)
    {
      hide Invariant, IsRun, Apply, Enabled, OnTheWay, OnTheWayOut, Meeting, NeverInside;
      entry, moment := |states|, |states|;
      var runs := Call(p, turns[0]);
      if !runs {
        return Died, entry, moment;
      }
      entry := |states| - 1;
      if At(now, p).CloseOwn? {
        if Undisturbed(turns) {
          TheWayOutBegins(Before(), p, turns[0]);
        }
        return Threw, entry, moment;
      }
      runs := Call(p, turns[1]);
      if !runs {
        return Died, entry, moment;
      }
      moment := |states| - 2;
      InsideIsAlone(Before(), p);
      if Undisturbed(turns) {
        TheWayOutBegins(Before(), p, turns[1]);
      }
      return Ran, entry, moment;
    }

    /** Is the lock file still this process's own? */
    method LookAtOwn(p: nat, turns: seq<Turn>) returns (runs: bool)
      requires Valid() && Runs(now, p) && At(now, p).OpenOwn? && |turns| == 2
      modifies this
      ensures Valid() && old(states) <= states && old(events) <= events && p < |now.processes|
      ensures NeverInside(states, old(|states|), p)
      ensures runs == Runs(now, p) && (runs ==> At(now, p).Idle? || At(now, p).UnlinkOwn?)
      ensures Undisturbed(turns) && old(OnTheWayOut(now, p)) ==>
                runs && OnTheWayOut(now, p) && now.recoveryLock == old(now.recoveryLock)
    {
      hide Invariant, IsRun, Apply, Enabled, Meeting, OnTheWay, OnTheWayOut, SamePlace, InCallback, Quiet;
      runs := Call(p, turns[0]);
      if !runs || At(now, p).Idle? {
        return;
      }
      runs := Call(p, turns[1]);
    }

    /** The last `finally`: the file is closed, and unlinked if it is still this process's own. */
    method GiveBack(p: nat, turns: seq<Turn>) returns (runs: bool)
      requires Valid() && Runs(now, p) && At(now, p).CloseOwn? && |turns| == 4
      modifies this
      ensures Valid() && old(states) <= states && old(events) <= events && p < |now.processes|
      ensures NeverInside(states, old(|states|), p)
      ensures runs == Runs(now, p) && (runs ==> At(now, p).Idle?)
      ensures Undisturbed(turns) && old(OnTheWayOut(now, p)) ==>
                runs && OnTheWayOut(now, p) && now.recoveryLock == old(now.recoveryLock)
    {
      hide Invariant, IsRun, Apply, Enabled, Meeting, OnTheWay, OnTheWayOut, SamePlace, InCallback, Quiet;
      runs := Call(p, turns[0]);
      if !runs || At(now, p).Idle? {
        return;
      }
      runs := LookAtOwn(p, turns[1..3]);
      if !runs || At(now, p).Idle? {
        return;
      }
      runs := Call(p, turns[3]);
    }

    /** From the opened lock file on: the claim, the callback, the way out. */
    method UnderLock(p: nat, turns: seq<Turn>) returns (ended: Outcome, ghost entry: nat, ghost moment: nat)
      requires Valid() && Runs(now, p) && At(now, p).WriteClaim? && |turns| == 8
      modifies this
      ensures Valid() && old(states) <= states && old(events) <= events && p < |now.processes|
      ensures if ended.Died? then !Runs(now, p) else Runs(now, p) && At(now, p).Idle?
      ensures ended.Ran? ==> old(|states|) <= entry <= moment < |states| && AloneInside(states[moment], p)
      ensures ended.Ran? ==> WentInside(states, entry, p)
      ensures ended.Threw? ==> NeverInside(states, old(|states|), p)
      ensures Undisturbed(turns) ==>
                && ended == (if old(now.recoveryLock.None?) then Ran else Threw)
                && now.writerLock.None? && now.recoveryLock == old(now.recoveryLock)
    {
      hide Invariant, IsRun, Apply, Enabled, Meeting, SamePlace, InCallback, AloneInside, ReadLock, OnTheWay;
      hide WentInside, NeverInside;
      assert turns[0] in turns && turns[1] in turns;
      entry, moment := |states|, |states|;
      ghost var first := states;
      var runs := WriteOwn(p, turns[..2]);
      if !runs {
        return Died, entry, moment;
      }
      ended := Threw;
      ghost var second := states;
      if At(now, p).LookForGuard? {
        ended, entry, moment := RunCallback(p, turns[2..4]);
        if ended.Died? {
          return;
        }
      } else {
        NothingNew(states, p);
      }
      ghost var third := states;
      runs := GiveBack(p, turns[4..]);
      if ended.Ran? {
        WentInsideStays(third, states, entry, p);
      } else {
        NeverInsideJoins(first, second, third, states, p);
      }
      if !runs {
        ended := Died;
      }
    }

    /** The whole call.  Undisturbed, with no lock there or a stale one, it gets into its callback and leaves
        no lock behind; undisturbed but for a `recovery.lock` of somebody else, it throws, and its own lock is gone.
        Whatever happens, the process is idle again when it ends, the history so far is the beginning of the later
        one, and `ended` tells whether the callback ran: after `Ran` it went inside by a look that found no
        `recovery.lock`, and there was a moment of this very call in which it was inside, with the lock file naming
        it and no other live process inside; after `Threw` there was none. */
    method Transaction(p: nat, turns: seq<Turn>) returns (ended: Outcome, ghost entry: nat, ghost moment: nat)
      requires Valid() && Runs(now, p) && At(now, p).Idle? && |turns| == 21
      modifies this
      ensures Valid() && old(states) <= states && old(events) <= events && p < |now.processes|
      ensures if ended.Died? then !Runs(now, p) else Runs(now, p) && At(now, p).Idle?
      ensures ended.Ran? ==> old(|states|) <= entry <= moment < |states| && AloneInside(states[moment], p)
      ensures ended.Ran? ==> WentInside(states, entry, p)
      ensures ended.Threw? ==> NeverInside(states, old(|states|), p)
      ensures Undisturbed(turns) && old(CanAcquire(now, p)) ==>
                ended.Ran? && now.writerLock.None? && now.recoveryLock.None?
      ensures Undisturbed(turns) && old(now.writerLock.None? && now.recoveryLock.Some?) ==>
                ended.Threw? && now.writerLock.None? && now.recoveryLock == old(now.recoveryLock)
    {
      hide Invariant, IsRun, Apply, Enabled, Meeting, SamePlace, InCallback, AloneInside, ReadLock, CanAcquire;
      hide WentInside, NeverInside, Quiet;
      entry, moment := |states|, |states|;
      ghost var first := states;
      var refused := Acquire(p, turns[..13]);
      if refused.Some? {
        return refused.value, entry, moment;
      }
      ghost var second := states;
      ended, entry, moment := UnderLock(p, turns[13..]);
      if ended.Threw? {
        NeverInsideJoins(first, second, states, states, p);
      }
    }
  }
}
