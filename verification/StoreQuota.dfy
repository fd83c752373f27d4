/** The byte quota of a workspace (`rhino-script-store.ts`, `usage` and `assertCapacity`): batches reserve
    room for their runs, so that run records can be written without asking again. */
module StoreQuota {
  import opened Wrappers
  import opened MapSums
  import opened RunReserve

  /** A run as its batch lists it, with the record it has of its own, if any. */
  datatype Run = Run(inventory: nat, record: Option<Fields>)

  /** A batch file and its runs. */
  datatype Batch = Batch(size: nat, runs: seq<Run>)

  /** `others` are the files that are neither batches nor run records nor the manifest. */
  datatype State = State(quota: nat, manifest: bool, batches: seq<Batch>, others: map<string, nat>)

  /** The manifest has 36 characters around the 32 hexadecimal digits that name the workspace. */
  const MANIFEST_BYTES: nat := 36 + 32

  // ----- Sums -----

  predicate Unfinished(run: Run) {
    run.record == None || !Finished(run.record.value.state)
  }

  /** The bytes that the run's own file takes. */
  function FileBytes(run: Run): nat {
    if run.record == None then 0 else FieldBytes(run.inventory, run.record.value)
  }

  function FieldBytes(inventory: nat, fields: Fields): nat {
    var bytes := RecordBytes(inventory, fields);
    if bytes < 0 then 0 else bytes
  }

  /** What the capacity check holds back for a run. */
  function HeldBack(run: Run): nat {
    if Unfinished(run) then RUN_RESERVE_BYTES + (if run.record == None then run.inventory else 0) else 0
  }

  /** What the run may still come to take in the end. */
  function Committed(run: Run): nat {
    if Unfinished(run) then run.inventory + RUN_RESERVE_BYTES else FileBytes(run)
  }

  /** The sum of some quantity over runs. */
  ghost function Sum(runs: seq<Run>, f: Run -> nat): nat {
    if runs == [] then 0 else Sum(runs[..|runs| - 1], f) + f(runs[|runs| - 1])
  }

  ghost function BatchSum(batches: seq<Batch>, f: Run -> nat): nat {
    if batches == [] then 0 else BatchSum(batches[..|batches| - 1], f) + Sum(batches[|batches| - 1].runs, f)
  }

  ghost function BatchFiles(batches: seq<Batch>): nat {
    if batches == [] then 0 else BatchFiles(batches[..|batches| - 1]) + batches[|batches| - 1].size
  }

  function ManifestBytes(written: bool): nat {
    if written then MANIFEST_BYTES else 0
  }

  /** The bytes in the directory. */
  ghost function Usage(s: State): nat {
    ManifestBytes(s.manifest) + Total(s.others) + BatchFiles(s.batches) + BatchSum(s.batches, FileBytes)
  }

  ghost function AllHeldBack(s: State): nat {
    BatchSum(s.batches, HeldBack)
  }

  /** The bytes taken once the manifest is written and every admitted run is finished at its largest. */
  ghost function AllCommitted(s: State): nat {
    MANIFEST_BYTES + Total(s.others) + BatchFiles(s.batches) + BatchSum(s.batches, Committed)
  }

  /** What the capacity check compares with the quota. */
  ghost function Proposed(s: State, added: int, reserve: nat): int {
    Usage(s) + reserve + added + AllHeldBack(s)
  }

  // ----- Writes -----

  function NewRuns(inventories: seq<nat>): seq<Run> {
    seq(|inventories|, i requires 0 <= i < |inventories| => Run(inventories[i], None))
  }

  ghost function ReserveFor(inventories: seq<nat>): nat {
    Sum(NewRuns(inventories), Committed)
  }

  /** A file to be written: its size now, 0 if it does not exist, and the size it is to have. */
  datatype Write = Write(was: nat, size: nat)

  ghost function Growth(writes: seq<Write>): int {
    if writes == [] then 0
    else Growth(writes[..|writes| - 1]) + writes[|writes| - 1].size - writes[|writes| - 1].was
  }

  datatype Event =
    | WriteManifest
    | AdmitBatch(size: nat, inventories: seq<nat>)
    | WriteScript(id: string, size: nat)
    | UpdateRun(batch: nat, run: nat, change: Change)

  function OldSize(others: map<string, nat>, id: string): nat {
    if id in others then others[id] else 0
  }

  function Current(run: Run): Fields {
    if run.record == None then INITIAL else run.record.value
  }

  /** A finished record is not written again, except the one that `Overwrites` tells of; the first run of a
      batch has no previous item that could have failed. */
  predicate MayUpdate(batches: seq<Batch>, batch: nat, run: nat, change: Change) {
    && batch < |batches| && run < |batches[batch].runs|
    && (Unfinished(batches[batch].runs[run]) || Overwrites(Current(batches[batch].runs[run]), change))
    && (!Unfinished(batches[batch].runs[run]) && change == NotReached() ==> run > 0)
    && ChangeOk(change)
    && Current(batches[batch].runs[run]).version < MAX_VERSION
  }

  function WithRecord(run: Run, change: Change): Run {
    run.(record := Some(Updated(Current(run), change)))
  }

  function WithRun(batches: seq<Batch>, batch: nat, run: nat, now: Run): seq<Batch>
    requires batch < |batches| && run < |batches[batch].runs|
  {
    batches[batch := batches[batch].(runs := batches[batch].runs[run := now])]
  }

  ghost function Apply(s: State, e: Event): State {
    match e
    // the one write without a capacity check; every admission asks for the workspace's identity first
    case WriteManifest => s.(manifest := true)
    case AdmitBatch(size, inventories) =>
      if !s.manifest || Proposed(s, size, ReserveFor(inventories)) > s.quota then s
      else s.(batches := s.batches + [Batch(size, NewRuns(inventories))])
    case WriteScript(id, size) =>
      if !s.manifest || Proposed(s, size - OldSize(s.others, id), 0) > s.quota then s
      else s.(others := s.others[id := size])
    case UpdateRun(batch, run, change) =>
      if !MayUpdate(s.batches, batch, run, change) then s
      else s.(batches := WithRun(s.batches, batch, run, WithRecord(s.batches[batch].runs[run], change)))
  }

  // ----- Sums under change -----

  lemma {:induction false} SumAtMost(runs: seq<Run>, f: Run -> nat, g: Run -> nat, h: Run -> nat)
    requires forall r :: r in runs ==> f(r) <= g(r) + h(r)
    ensures Sum(runs, f) <= Sum(runs, g) + Sum(runs, h)
  {
    if runs != [] {
      SumAtMost(runs[..|runs| - 1], f, g, h);
      assert runs[|runs| - 1] in runs;
    }
  }

  lemma {:induction false} BatchSumAtMost(batches: seq<Batch>, f: Run -> nat, g: Run -> nat, h: Run -> nat)
    requires forall b, r :: b in batches && r in b.runs ==> f(r) <= g(r) + h(r)
    ensures BatchSum(batches, f) <= BatchSum(batches, g) + BatchSum(batches, h)
  {
    if batches != [] {
      BatchSumAtMost(batches[..|batches| - 1], f, g, h);
      var last := batches[|batches| - 1];
      assert last in batches;
      SumAtMost(last.runs, f, g, h);
    }
  }

  lemma {:induction false} SumReplaced(runs: seq<Run>, f: Run -> nat, i: nat, now: Run)
    requires i < |runs|
    ensures Sum(runs[i := now], f) == Sum(runs, f) - f(runs[i]) + f(now)
  {
    var last := |runs| - 1;
    if i < last {
      SumReplaced(runs[..last], f, i, now);
      assert runs[i := now][..last] == runs[..last][i := now];
    } else {
      assert runs[i := now][..last] == runs[..last];
    }
  }

  lemma {:induction false} BatchSumReplaced(batches: seq<Batch>, f: Run -> nat, b: nat, i: nat, now: Run)
    requires b < |batches| && i < |batches[b].runs|
    ensures BatchSum(WithRun(batches, b, i, now), f) == BatchSum(batches, f) - f(batches[b].runs[i]) + f(now)
  {
    var last := |batches| - 1;
    var after := WithRun(batches, b, i, now);
    if b < last {
      BatchSumReplaced(batches[..last], f, b, i, now);
      assert after[..last] == WithRun(batches[..last], b, i, now);
    } else {
      assert after[..last] == batches[..last];
      SumReplaced(batches[b].runs, f, i, now);
    }
  }

  lemma {:induction false} BatchFilesReplaced(batches: seq<Batch>, b: nat, i: nat, now: Run)
    requires b < |batches| && i < |batches[b].runs|
    ensures BatchFiles(WithRun(batches, b, i, now)) == BatchFiles(batches)
  {
    var last := |batches| - 1;
    var after := WithRun(batches, b, i, now);
    if b < last {
      BatchFilesReplaced(batches[..last], b, i, now);
      assert after[..last] == WithRun(batches[..last], b, i, now);
    } else {
      assert after[..last] == batches[..last];
    }
  }

  // ----- The invariant -----

  predicate RunOk(run: Run) {
    run.record.Some? ==> FieldsOk(run.record.value)
  }

  ghost predicate RunsOk(batches: seq<Batch>) {
    forall b, r :: b in batches && r in b.runs ==> RunOk(r)
  }

  /** The commitments are within the quota, but for some excess. */
  ghost predicate WithinBut(s: State, excess: nat) {
    RunsOk(s.batches) && AllCommitted(s) <= s.quota + excess
  }

  ghost predicate WithinQuota(s: State) {
    WithinBut(s, 0)
  }

  /** What a run may come to take covers its file, and the check counts no less. */
  lemma OneRunIsCovered(run: Run)
    requires RunOk(run)
    ensures FileBytes(run) <= Committed(run) <= FileBytes(run) + HeldBack(run)
  {
    hide RecordBytes, FieldsOk;
    if run.record.Some? {
      RecordFitsItsReserve(run.inventory, run.record.value);
    }
  }

  function Nothing(run: Run): nat { 0 }

  lemma {:induction false} SumOfNothing(batches: seq<Batch>)
    ensures BatchSum(batches, Nothing) == 0
  {
    if batches != [] {
      SumOfNothing(batches[..|batches| - 1]);
      NothingInRuns(batches[|batches| - 1].runs);
    }
  }

  lemma {:induction false} NothingInRuns(runs: seq<Run>)
    ensures Sum(runs, Nothing) == 0
  {
    if runs != [] {
      NothingInRuns(runs[..|runs| - 1]);
    }
  }

  /** The commitments lie between what is stored and what the capacity check counts. */
  lemma CommitmentsAreCovered(s: State)
    requires RunsOk(s.batches)
    ensures Usage(s) <= AllCommitted(s)
    ensures s.manifest ==> AllCommitted(s) <= Usage(s) + AllHeldBack(s)
  {
    hide FileBytes, Committed, HeldBack, RunOk;
    forall b, r | b in s.batches && r in b.runs
      ensures FileBytes(r) <= Committed(r) + Nothing(r) && Committed(r) <= FileBytes(r) + HeldBack(r)
    {
      OneRunIsCovered(r);
    }
    BatchSumAtMost(s.batches, FileBytes, Committed, Nothing);
    BatchSumAtMost(s.batches, Committed, FileBytes, HeldBack);
    SumOfNothing(s.batches);
  }

  lemma AdmissionStaysWithin(s: State, excess: nat, size: nat, inventories: seq<nat>)
    requires WithinBut(s, excess)
    ensures WithinBut(Apply(s, AdmitBatch(size, inventories)), excess)
  {
    CommitmentsAreCovered(s);
    var batch := Batch(size, NewRuns(inventories));
    var batches := s.batches + [batch];
    assert batches[..|batches| - 1] == s.batches;
    forall b, r | b in batches && r in b.runs ensures RunOk(r) {
      assert b == batch || b in s.batches;
    }
  }

  lemma ScriptStaysWithin(s: State, excess: nat, id: string, size: nat)
    requires WithinBut(s, excess)
    ensures WithinBut(Apply(s, WriteScript(id, size)), excess)
  {
    CommitmentsAreCovered(s);
    TotalUpdate(s.others, id, size);
  }

  /** The update writes over a finished record, with the longer message. */
  ghost predicate Overwriting(s: State, e: Event) {
    && e.UpdateRun? && MayUpdate(s.batches, e.batch, e.run, e.change)
    && !Unfinished(s.batches[e.batch].runs[e.run])
    && e.change == NotReached()
  }

  /** By how much one update may raise what its run is committed to. */
  lemma OneUpdate(run: Run, change: Change)
    requires RunOk(run) && ChangeOk(change) && Current(run).version < MAX_VERSION
    requires Unfinished(run) || Overwrites(Current(run), change)
    ensures RunOk(WithRecord(run, change))
    ensures Committed(WithRecord(run, change)) <=
              Committed(run) + if !Unfinished(run) && change == NotReached() then 3 else 0
  {
    hide Updated, RecordBytes, ChangeOk, FieldsOk, NotReached, Cancelled, GivenUp;
    assert FieldsOk(INITIAL) by { InitialIsOk(); }
    UpdateKeepsLimits(Current(run), change);
    if Unfinished(run) {
      RecordFitsItsReserve(run.inventory, WithRecord(run, change).record.value);
    } else {
      OverwriteGrows(run.inventory, change);
    }
  }

  /** An update of a run record asks for no room, and the commitments do not grow, but by 3 bytes when a
      record that had been given up is written over. */
  lemma UpdateStaysWithin(s: State, excess: nat, batch: nat, run: nat, change: Change)
    requires WithinBut(s, excess)
    ensures var e := UpdateRun(batch, run, change);
            WithinBut(Apply(s, e), excess + if Overwriting(s, e) then 3 else 0)
  {
    if MayUpdate(s.batches, batch, run, change) {
      hide Updated, RecordBytes, ChangeOk, FieldsOk, Overwrites, Committed, Finished, RunOk;
      var before := s.batches[batch].runs[run];
      var now := WithRecord(before, change);
      var after := WithRun(s.batches, batch, run, now);
      assert RunOk(before) by {
        assert s.batches[batch] in s.batches;
        assert before in s.batches[batch].runs;
      }
      OneUpdate(before, change);
      BatchSumReplaced(s.batches, Committed, batch, run, now);
      BatchFilesReplaced(s.batches, batch, run, now);
      forall b, r | b in after && r in b.runs ensures RunOk(r) {
        if b !in s.batches {
          assert r == now || r in s.batches[batch].runs;
        }
      }
    }
  }

  lemma InitialIsOk()
    ensures FieldsOk(INITIAL)
  {
  }

  // ----- Runs -----

  ghost predicate IsRun(states: seq<State>, events: seq<Event>) {
    && |states| == |events| + 1
    && forall i :: 0 <= i < |events| ==> states[i + 1] == Apply(states[i], events[i])
  }

  /** How many of the first updates have written over a finished record. */
  ghost function Overwritten(states: seq<State>, events: seq<Event>, i: nat): nat
    requires IsRun(states, events) && i <= |events|
  {
    if i == 0 then 0
    else Overwritten(states, events, i - 1) + if Overwriting(states[i - 1], events[i - 1]) then 1 else 0
  }

  lemma {:induction false} RunsStayWithin(states: seq<State>, events: seq<Event>, i: nat)
    requires IsRun(states, events) && WithinQuota(states[0]) && i <= |events|
    ensures WithinBut(states[i], 3 * Overwritten(states, events, i)) && states[i].quota == states[0].quota
  {
    if i > 0 {
      RunsStayWithin(states, events, i - 1);
      hide WithinBut, MayUpdate;
      var excess := 3 * Overwritten(states, events, i - 1);
      match events[i - 1]
      case WriteManifest => ManifestStaysWithin(states[i - 1], excess);
      case AdmitBatch(size, inventories) => AdmissionStaysWithin(states[i - 1], excess, size, inventories);
      case WriteScript(id, size) => ScriptStaysWithin(states[i - 1], excess, id, size);
      case UpdateRun(batch, run, change) => UpdateStaysWithin(states[i - 1], excess, batch, run, change);
    }
  }

  lemma ManifestStaysWithin(s: State, excess: nat)
    requires WithinBut(s, excess)
    ensures WithinBut(Apply(s, WriteManifest), excess)
  {
  }

  /** A workspace whose commitments start within its quota stays within it, although run records and the
      manifest are written unasked: exceeding it takes a finished record that is written over, and each such
      record costs 3 bytes. */
  lemma UsageNeverExceedsTheQuota(states: seq<State>, events: seq<Event>, i: nat)
    requires IsRun(states, events) && WithinQuota(states[0]) && i <= |events|
    ensures Usage(states[i]) <= states[0].quota + 3 * Overwritten(states, events, i)
  {
    RunsStayWithin(states, events, i);
    CommitmentsAreCovered(states[i]);
  }

  // ----- New workspaces: for which quotas it holds -----

  function NewWorkspace(quota: nat): State {
    State(quota, false, [], map[])
  }

  ghost predicate NeverExceeds(states: seq<State>, quota: nat) {
    forall i :: 0 <= i < |states| ==> Usage(states[i]) <= quota
  }

  /** No finished record is written over; with sound liveness answers none is
      (`RunJournal.TerminalRecordsStay`). */
  ghost predicate FinishedStay(states: seq<State>, events: seq<Event>) {
    IsRun(states, events) && forall i :: 0 <= i < |events| ==> !Overwriting(states[i], events[i])
  }

  lemma {:induction false} NoneOverwritten(states: seq<State>, events: seq<Event>, i: nat)
    requires FinishedStay(states, events) && i <= |events|
    ensures Overwritten(states, events, i) == 0
  {
    if i > 0 {
      NoneOverwritten(states, events, i - 1);
    }
  }

  lemma ManifestAlone(quota: nat)
    ensures FinishedStay([NewWorkspace(quota), NewWorkspace(quota).(manifest := true)], [WriteManifest])
    ensures Usage(NewWorkspace(quota).(manifest := true)) == MANIFEST_BYTES
  {
  }

  /** While finished records stay, a new workspace never stores more than its quota exactly if the manifest,
      which nobody checks, fits. */
  lemma QuotaHoldsIfTheManifestFits(quota: nat)
    ensures quota >= MANIFEST_BYTES <==>
              forall states: seq<State>, events: seq<Event> ::
                FinishedStay(states, events) && states[0] == NewWorkspace(quota) ==> NeverExceeds(states, quota)
  {
    if quota >= MANIFEST_BYTES {
      forall states: seq<State>, events: seq<Event> | FinishedStay(states, events) && states[0] == NewWorkspace(quota)
        ensures NeverExceeds(states, quota)
      {
        forall i | 0 <= i < |states| ensures Usage(states[i]) <= quota {
          UsageNeverExceedsTheQuota(states, events, i);
          NoneOverwritten(states, events, i);
          RunsStayWithin(states, events, i);
        }
      }
    } else {
      ManifestAlone(quota);
      var states := [NewWorkspace(quota), NewWorkspace(quota).(manifest := true)];
      assert FinishedStay(states, [WriteManifest]) && !NeverExceeds(states, quota) by {
        assert Usage(states[1]) > quota;
      }
    }
  }

  /** The bytes of a batch file with two runs, and of the two inventory entries. */
  datatype Sizes = Sizes(batch: nat, first: nat, second: nat)

  /** A workspace with one batch of two runs in it. */
  function TwoRuns(quota: nat, z: Sizes, first: Option<Fields>, second: Option<Fields>, others: map<string, nat>)
    : State
  {
    State(quota, true, [Batch(z.batch, [Run(z.first, first), Run(z.second, second)])], others)
  }

  lemma TwoRunSum(size: nat, first: Run, second: Run, f: Run -> nat)
    ensures Sum([first, second], f) == f(first) + f(second)
    ensures BatchSum([Batch(size, [first, second])], f) == f(first) + f(second)
  {
    var runs := [first, second];
    assert runs[..1] == [first] && [first][..0] == [];
    assert Sum([first], f) == f(first);
    assert [Batch(size, runs)][..0] == [];
  }

  lemma TwoRunSums(quota: nat, z: Sizes, first: Option<Fields>, second: Option<Fields>, others: map<string, nat>)
    ensures Usage(TwoRuns(quota, z, first, second, others))
         == MANIFEST_BYTES + Total(others) + z.batch + FileBytes(Run(z.first, first)) + FileBytes(Run(z.second, second))
    ensures AllHeldBack(TwoRuns(quota, z, first, second, others))
         == HeldBack(Run(z.first, first)) + HeldBack(Run(z.second, second))
  {
    TwoRunSum(z.batch, Run(z.first, first), Run(z.second, second), FileBytes);
    TwoRunSum(z.batch, Run(z.first, first), Run(z.second, second), HeldBack);
    hide FileBytes, HeldBack;
    var batches := [Batch(z.batch, [Run(z.first, first), Run(z.second, second)])];
    assert batches[..0] == [] && BatchFiles(batches) == z.batch;
  }

  /** The bytes that the manifest, the batch and its two runs take once these are given up. */
  function GivenUpBytes(z: Sizes): nat {
    MANIFEST_BYTES + z.batch + z.first + 49 + z.second + 49
  }

  /** What the capacity check wants for a batch of two in a workspace with nothing else in it. */
  function RoomForTwo(z: Sizes): nat {
    MANIFEST_BYTES + z.batch + z.first + z.second + 2 * RUN_RESERVE_BYTES
  }

  /** Room enough for a batch of two runs: they are admitted, given up, and no longer hold anything back; a
      script fills what is left; and the record that is written over takes 3 bytes more than there are. */
  lemma OverwriteExceeds(quota: nat, z: Sizes) returns (states: seq<State>, events: seq<Event>)
    requires quota >= RoomForTwo(z)
    ensures IsRun(states, events) && states[0] == NewWorkspace(quota)
    ensures |states| == 7 && Usage(states[6]) == quota + 3
    ensures forall e :: e in events && e.AdmitBatch? ==> e == AdmitBatch(z.batch, [z.first, z.second])
  {
    var size := quota - GivenUpBytes(z);
    var full := map["script" := size];
    ScriptFills(quota, z, "script", size);
    OverwrittenIsLonger(quota, z, full);
    hide Usage, TwoRuns, Total, GivenUpBytes, RoomForTwo;
    states, events := GivenUpRun(quota, z);
    GivenUpAndOverwritten(quota, z, full);
    hide GiveUp, NotReached, Updated, GivenUp, Apply, NewWorkspace, IsRun;
    var up, over := Some(GivenUp()), Some(Updated(GivenUp(), NotReached()));
    states, events := Longer(states, events, WriteScript("script", size), TwoRuns(quota, z, up, up, full));
    states, events := Longer(states, events, UpdateRun(0, 1, NotReached()), TwoRuns(quota, z, up, over, full));
  }

  /** The first half: admission, and both runs given up. */
  lemma GivenUpRun(quota: nat, z: Sizes) returns (states: seq<State>, events: seq<Event>)
    requires quota >= RoomForTwo(z)
    ensures IsRun(states, events) && |states| == 5 && states[0] == NewWorkspace(quota)
    ensures states[4] == TwoRuns(quota, z, Some(GivenUp()), Some(GivenUp()), map[])
    ensures forall e :: e in events && e.AdmitBatch? ==> e == AdmitBatch(z.batch, [z.first, z.second])
  {
    var none: map<string, nat> := map[];
    TwoRunsAreAdmitted(quota, z);
    GivenUpAndOverwritten(quota, z, none);
    var named := Apply(NewWorkspace(quota), WriteManifest);
    assert named == NewWorkspace(quota).(manifest := true);
    assert IsRun([NewWorkspace(quota)], []);
    hide GiveUp, NotReached, Updated, GivenUp, Apply, TwoRuns, NewWorkspace, IsRun, RoomForTwo;
    var up := Some(GivenUp());
    states, events := [NewWorkspace(quota)], [];
    states, events := Longer(states, events, WriteManifest, named);
    states, events := Longer(states, events, AdmitBatch(z.batch, [z.first, z.second]),
                             TwoRuns(quota, z, None, None, none));
    states, events := Longer(states, events, UpdateRun(0, 0, GiveUp()), TwoRuns(quota, z, up, None, none));
    states, events := Longer(states, events, UpdateRun(0, 1, GiveUp()), TwoRuns(quota, z, up, up, none));
  }

  lemma Longer(states: seq<State>, events: seq<Event>, e: Event, s: State)
      returns (longer: seq<State>, more: seq<Event>)
    requires IsRun(states, events) && s == Apply(states[|events|], e)
    ensures longer == states + [s] && more == events + [e] && IsRun(longer, more)
  {
    longer, more := states + [s], events + [e];
  }

  lemma OverwrittenIsLonger(quota: nat, z: Sizes, others: map<string, nat>)
    ensures Usage(TwoRuns(quota, z, Some(GivenUp()), Some(Updated(GivenUp(), NotReached())), others))
         == GivenUpBytes(z) + Total(others) + 3
  {
    OverwriteGrows(z.first, NotReached());
    OverwriteGrows(z.second, NotReached());
    hide NotReached, Updated, GivenUp, RecordBytes;
    TwoRunSums(quota, z, Some(GivenUp()), Some(Updated(GivenUp(), NotReached())), others);
  }

  /** A script of just the size that is left. */
  lemma ScriptFills(quota: nat, z: Sizes, id: string, size: nat)
    requires quota == GivenUpBytes(z) + size
    ensures Total(map[id := size]) == size
    ensures Apply(TwoRuns(quota, z, Some(GivenUp()), Some(GivenUp()), map[]), WriteScript(id, size))
         == TwoRuns(quota, z, Some(GivenUp()), Some(GivenUp()), map[id := size])
  {
    var none: map<string, nat> := map[];
    TotalUpdate(none, id, size);
    assert none[id := size] == map[id := size];
    hide Total;
    GivenUpHoldsNothing(quota, z);
    hide Usage, AllHeldBack, GivenUp, GivenUpBytes;
    assert OldSize(none, id) == 0;
  }

  lemma GivenUpHoldsNothing(quota: nat, z: Sizes)
    ensures Usage(TwoRuns(quota, z, Some(GivenUp()), Some(GivenUp()), map[])) == GivenUpBytes(z)
    ensures AllHeldBack(TwoRuns(quota, z, Some(GivenUp()), Some(GivenUp()), map[])) == 0
  {
    OverwriteGrows(z.first, NotReached());
    OverwriteGrows(z.second, NotReached());
    hide Updated, GivenUp, RecordBytes;
    TwoRunSums(quota, z, Some(GivenUp()), Some(GivenUp()), map[]);
  }

  lemma TwoRunsAreAdmitted(quota: nat, z: Sizes)
    requires quota >= RoomForTwo(z)
    ensures Apply(NewWorkspace(quota).(manifest := true), AdmitBatch(z.batch, [z.first, z.second]))
         == TwoRuns(quota, z, None, None, map[])
  {
    assert NewRuns([z.first, z.second]) == [Run(z.first, None), Run(z.second, None)];
    TwoRunSum(z.batch, Run(z.first, None), Run(z.second, None), Committed);
  }

  lemma TwoRunsUpdated(quota: nat, z: Sizes, first: Option<Fields>, second: Option<Fields>,
                       others: map<string, nat>, run: nat, change: Change)
    requires run < 2 && ChangeOk(change)
    requires var updated := Run(0, if run == 0 then first else second);
             && Current(updated).version < MAX_VERSION
             && (Unfinished(updated) || (run == 1 && Overwrites(Current(updated), change)))
    ensures var now := Some(Updated(Current(Run(0, if run == 0 then first else second)), change));
            Apply(TwoRuns(quota, z, first, second, others), UpdateRun(0, run, change))
            == TwoRuns(quota, z, if run == 0 then now else first, if run == 0 then second else now, others)
  {
    var runs := [Run(z.first, first), Run(z.second, second)];
    assert Current(runs[run]) == Current(Run(0, if run == 0 then first else second));
    assert Unfinished(runs[run]) == Unfinished(Run(0, if run == 0 then first else second));
    hide Updated, ChangeOk, Overwrites, Unfinished, Current;
    var now := WithRecord(runs[run], change);
    assert runs[run := now] == if run == 0 then [now, runs[1]] else [runs[0], now];
    assert WithRun([Batch(z.batch, runs)], 0, run, now) == [Batch(z.batch, runs[run := now])];
  }

  /** The runs are given up, and later one is written over. */
  lemma GivenUpAndOverwritten(quota: nat, z: Sizes, others: map<string, nat>)
    ensures Apply(TwoRuns(quota, z, None, None, map[]), UpdateRun(0, 0, GiveUp()))
         == TwoRuns(quota, z, Some(GivenUp()), None, map[])
    ensures Apply(TwoRuns(quota, z, Some(GivenUp()), None, map[]), UpdateRun(0, 1, GiveUp()))
         == TwoRuns(quota, z, Some(GivenUp()), Some(GivenUp()), map[])
    ensures Apply(TwoRuns(quota, z, Some(GivenUp()), Some(GivenUp()), others), UpdateRun(0, 1, NotReached()))
         == TwoRuns(quota, z, Some(GivenUp()), Some(Updated(GivenUp(), NotReached())), others)
  {
    OverwriteGrows(0, NotReached());
    hide GiveUp, NotReached, ChangeOk, Apply, TwoRuns;
    TwoRunsUpdated(quota, z, None, None, map[], 0, GiveUp());
    TwoRunsUpdated(quota, z, Some(GivenUp()), None, map[], 1, GiveUp());
    TwoRunsUpdated(quota, z, Some(GivenUp()), Some(GivenUp()), others, 1, NotReached());
  }

  ghost predicate SingleRuns(s: State) {
    forall b :: b in s.batches ==> |b.runs| <= 1
  }

  /** The files of batches of two or more runs, and their inventory entries, have at least these sizes. */
  predicate Sized(events: seq<Event>, batch: nat, inventory: nat) {
    forall e :: e in events && e.AdmitBatch? && |e.inventories| >= 2 ==>
      e.size >= batch && forall n :: n in e.inventories ==> n >= inventory
  }

  lemma AdmissionOfTwoIsRefused(s: State, e: Event, batch: nat, inventory: nat)
    requires e.AdmitBatch? && |e.inventories| >= 2 && Sized([e], batch, inventory)
    requires s.quota < RoomForTwo(Sizes(batch, inventory, inventory))
    ensures Apply(s, e) == s
  {
    assert e in [e];
    TwoReserves(e.inventories, inventory);
    hide ReserveFor;
  }

  lemma SingleRunsStay(s: State, e: Event, batch: nat, inventory: nat)
    requires SingleRuns(s) && Sized([e], batch, inventory) && s.quota < RoomForTwo(Sizes(batch, inventory, inventory))
    ensures SingleRuns(Apply(s, e)) && Apply(s, e).quota == s.quota
  {
    hide Proposed, ReserveFor, Overwrites, ChangeOk, Unfinished, Sized, RoomForTwo;
    match e
    case AdmitBatch(_, inventories) =>
      if |inventories| >= 2 {
        AdmissionOfTwoIsRefused(s, e, batch, inventory);
      }
    case _ =>
  }

  /** A quota with no room for two runs never has a batch of two. */
  lemma {:induction false} TooSmallForTwo(states: seq<State>, events: seq<Event>, batch: nat, inventory: nat, i: nat)
    requires IsRun(states, events) && states[0] == NewWorkspace(states[0].quota) && i <= |events|
    requires Sized(events, batch, inventory)
    requires states[0].quota < RoomForTwo(Sizes(batch, inventory, inventory))
    ensures SingleRuns(states[i]) && states[i].quota == states[0].quota
  {
    hide Apply, RoomForTwo;
    if i > 0 {
      TooSmallForTwo(states, events, batch, inventory, i - 1);
      assert events[i - 1] in events;
      assert Sized([events[i - 1]], batch, inventory);
      SingleRunsStay(states[i - 1], events[i - 1], batch, inventory);
    }
  }

  lemma SingleRunsAreNotOverwritten(s: State, e: Event)
    requires SingleRuns(s)
    ensures !Overwriting(s, e)
  {
  }

  lemma TwoReserves(inventories: seq<nat>, inventory: nat)
    requires |inventories| >= 2 && forall n :: n in inventories ==> n >= inventory
    ensures ReserveFor(inventories) >= 2 * (inventory + RUN_RESERVE_BYTES)
  {
    var runs := NewRuns(inventories);
    var most := runs[..|runs| - 1];
    assert runs[|runs| - 1].inventory in inventories && most[|most| - 1].inventory in inventories;
    assert Sum(most, Committed) >= Committed(most[|most| - 1]);
  }

  /** With the overwriting that a wrong liveness answer brings about, a new workspace never stores more than
      its quota exactly if the manifest fits and the smallest batch of two runs never does; this is so for
      whatever sizes such a batch has at least. */
  lemma QuotaHoldsIfNoTwoRunsFit(quota: nat, batch: nat, inventory: nat)
    ensures MANIFEST_BYTES <= quota < RoomForTwo(Sizes(batch, inventory, inventory)) <==>
              forall states: seq<State>, events: seq<Event> ::
                IsRun(states, events) && states[0] == NewWorkspace(quota) && Sized(events, batch, inventory) ==>
                  NeverExceeds(states, quota)
  {
    var z := Sizes(batch, inventory, inventory);
    if quota >= RoomForTwo(z) {
      var states, events := OverwriteExceeds(quota, z);
      assert Sized(events, batch, inventory);
      assert !NeverExceeds(states, quota);
    } else if quota < MANIFEST_BYTES {
      ManifestAlone(quota);
      var states := [NewWorkspace(quota), NewWorkspace(quota).(manifest := true)];
      assert Sized([WriteManifest], batch, inventory);
      assert Usage(states[1]) > quota;
      assert !NeverExceeds(states, quota);
    } else {
      forall states: seq<State>, events: seq<Event>
        | IsRun(states, events) && states[0] == NewWorkspace(quota) && Sized(events, batch, inventory)
        ensures NeverExceeds(states, quota)
      {
        forall i | 0 <= i < |events| ensures !Overwriting(states[i], events[i]) {
          TooSmallForTwo(states, events, batch, inventory, i);
          SingleRunsAreNotOverwritten(states[i], events[i]);
        }
        assert FinishedStay(states, events);
        QuotaHoldsIfTheManifestFits(quota);
      }
    }
  }

  /** What an unfinished run has written beyond its inventory entry: it is stored, and still held back. */
  function Grown(run: Run): nat {
    if Unfinished(run) && run.record.Some? && FileBytes(run) > run.inventory then FileBytes(run) - run.inventory else 0
  }

  lemma {:induction false} SumsAgree(runs: seq<Run>)
    requires forall r :: r in runs ==> RunOk(r)
    ensures Sum(runs, FileBytes) + Sum(runs, HeldBack) == Sum(runs, Committed) + Sum(runs, Grown)
  {
    if runs != [] {
      SumsAgree(runs[..|runs| - 1]);
      var last := runs[|runs| - 1];
      assert last in runs;
      OneRunIsExact(last);
    }
  }

  lemma OneRunIsExact(run: Run)
    requires RunOk(run)
    ensures FileBytes(run) + HeldBack(run) == Committed(run) + Grown(run)
  {
    hide RecordBytes, FieldsOk;
    if run.record.Some? {
      RecordFitsItsReserve(run.inventory, run.record.value);
    }
  }

  lemma {:induction false} BatchSumsAgree(batches: seq<Batch>)
    requires RunsOk(batches)
    ensures BatchSum(batches, FileBytes) + BatchSum(batches, HeldBack)
         == BatchSum(batches, Committed) + BatchSum(batches, Grown)
  {
    if batches != [] {
      hide FileBytes, HeldBack, Committed, Grown, RunOk;
      BatchSumsAgree(batches[..|batches| - 1]);
      var last := batches[|batches| - 1];
      assert last in batches;
      SumsAgree(last.runs);
    }
  }

  /** What the capacity check counts is exactly what is committed, and a second time what unfinished records have
      grown; while none has been written it is what is committed and no more. */
  lemma CheckCountsExactly(s: State)
    requires s.manifest && RunsOk(s.batches)
    ensures Usage(s) + AllHeldBack(s) == AllCommitted(s) + BatchSum(s.batches, Grown)
  {
    hide FileBytes, HeldBack, Committed, Grown, RunOk;
    BatchSumsAgree(s.batches);
  }

  ghost function Entries(inventories: seq<nat>): nat {
    if inventories == [] then 0 else Entries(inventories[..|inventories| - 1]) + inventories[|inventories| - 1]
  }

  /** A batch asks for its runs' inventory entries and 128,000 bytes for each. */
  lemma {:induction false} ReserveIsExact(inventories: seq<nat>)
    ensures ReserveFor(inventories) == Entries(inventories) + RUN_RESERVE_BYTES * |inventories|
  {
    var runs := NewRuns(inventories);
    if inventories != [] {
      var front := inventories[..|inventories| - 1];
      ReserveIsExact(front);
      assert runs[..|runs| - 1] == NewRuns(front);
    }
  }

  lemma {:induction false} FinishedHoldNothing(runs: seq<Run>)
    requires forall r :: r in runs ==> !Unfinished(r)
    ensures Sum(runs, HeldBack) == 0
  {
    if runs != [] {
      FinishedHoldNothing(runs[..|runs| - 1]);
      assert runs[|runs| - 1] in runs;
    }
  }

  /** Reservations do not leak: once all runs are finished, only stored bytes count. */
  lemma {:induction false} NothingIsHeldBackWhenIdle(batches: seq<Batch>)
    requires forall b, r :: b in batches && r in b.runs ==> !Unfinished(r)
    ensures BatchSum(batches, HeldBack) == 0
  {
    if batches != [] {
      NothingIsHeldBackWhenIdle(batches[..|batches| - 1]);
      assert batches[|batches| - 1] in batches;
      FinishedHoldNothing(batches[|batches| - 1].runs);
    }
  }

  // ----- The store object -----

  class RhinoScriptStore {
    const quotaBytes: nat
    var manifest: bool
    var batches: seq<Batch>
    var others: map<string, nat>

    ghost function View(): State
      reads this
    {
      State(quotaBytes, manifest, batches, others)
    }

    constructor (quotaBytes: nat)
      ensures View() == NewWorkspace(quotaBytes)
    {
      this.quotaBytes := quotaBytes;
      manifest := false;
      batches := [];
      others := map[];
    }

    method OtherBytes() returns (sum: nat)
      ensures sum == Total(others)
    {
      sum := 0;
      var todo := others;
      while todo != map[]
        invariant sum + Total(todo) == Total(others)
        decreases |todo|
      {
        var id :| id in todo;
        TotalWithout(todo, id);
        SizeWithout(todo, id);
        sum := sum + todo[id];
        todo := todo - {id};
      }
    }

    /** `usage`: the sizes of all files in the directory. */
    method UsageBytes() returns (sum: nat)
      ensures sum == Usage(View())
    {
      sum := OtherBytes();
      if manifest {
        sum := sum + MANIFEST_BYTES;
      }
      ghost var files := sum;
      for b := 0 to |batches|
        invariant sum == files + BatchFiles(batches[..b]) + BatchSum(batches[..b], FileBytes)
      {
        var batch := batches[b];
        assert batches[..b + 1][..b] == batches[..b];
        sum := sum + batch.size;
        for i := 0 to |batch.runs|
          invariant sum == files + BatchFiles(batches[..b]) + batch.size + BatchSum(batches[..b], FileBytes)
                           + Sum(batch.runs[..i], FileBytes)
        {
          assert batch.runs[..i + 1][..i] == batch.runs[..i];
          sum := sum + FileBytes(batch.runs[i]);
        }
        assert batch.runs[..|batch.runs|] == batch.runs;
      }
      assert batches[..|batches|] == batches;
    }

    /** Would the writes fit, with what is held back for unfinished runs? */
    method AssertCapacity(writes: seq<Write>, reserve: nat) returns (ok: bool)
      ensures ok <==> Proposed(View(), Growth(writes), reserve) <= quotaBytes
    {
      var proposed: int := UsageBytes();
      proposed := proposed + reserve;
      for w := 0 to |writes|
        invariant proposed == Usage(View()) + reserve + Growth(writes[..w])
      {
        assert writes[..w + 1][..w] == writes[..w];
        proposed := proposed + writes[w].size - writes[w].was;
      }
      assert writes[..|writes|] == writes;
      ghost var asked := proposed;
      for b := 0 to |batches|
        invariant proposed == asked + BatchSum(batches[..b], HeldBack)
      {
        var batch := batches[b];
        assert batches[..b + 1][..b] == batches[..b];
        for i := 0 to |batch.runs|
          invariant proposed == asked + BatchSum(batches[..b], HeldBack) + Sum(batch.runs[..i], HeldBack)
        {
          assert batch.runs[..i + 1][..i] == batch.runs[..i];
          var run := batch.runs[i];
          if Unfinished(run) {
            proposed := proposed + RUN_RESERVE_BYTES + if run.record == None then run.inventory else 0;
          }
        }
        assert batch.runs[..|batch.runs|] == batch.runs;
      }
      assert batches[..|batches|] == batches;
      ok := proposed <= quotaBytes;
    }

    /** The workspace's identity; the first to ask for it writes the manifest, without asking for room. */
    method WorkspaceId()
      modifies this
      ensures View() == Apply(old(View()), WriteManifest)
    {
      if !manifest {
        manifest := true;
      }
    }

    method AdmitBatch(size: nat, inventories: seq<nat>) returns (ok: bool)
      modifies this
      ensures var asked := Apply(old(View()), WriteManifest);
              && View() == Apply(asked, Event.AdmitBatch(size, inventories))
              && (ok <==> Proposed(asked, size, ReserveFor(inventories)) <= quotaBytes)
      ensures manifest && others == old(others)
      ensures batches == old(batches) + if ok then [Batch(size, NewRuns(inventories))] else []
    {
      WorkspaceId();
      var reserve := 0;
      var runs := NewRuns(inventories);
      for i := 0 to |inventories|
        invariant reserve == Sum(runs[..i], Committed)
      {
        assert runs[..i + 1][..i] == runs[..i];
        reserve := reserve + inventories[i] + RUN_RESERVE_BYTES;
      }
      assert runs[..|inventories|] == runs;
      ok := AssertCapacity([Write(0, size)], reserve);
      assert Growth([Write(0, size)]) == size;
      if ok {
        batches := batches + [Batch(size, runs)];
      }
    }

    method WriteScript(id: string, size: nat) returns (ok: bool)
      modifies this
      ensures var asked := Apply(old(View()), WriteManifest);
              && View() == Apply(asked, Event.WriteScript(id, size))
              && (ok <==> Proposed(asked, size - OldSize(old(others), id), 0) <= quotaBytes)
      ensures manifest && batches == old(batches)
      ensures others == if ok then old(others)[id := size] else old(others)
    {
      WorkspaceId();
      var writes := [Write(OldSize(others, id), size)];
      assert Growth(writes) == size - OldSize(others, id);
      ok := AssertCapacity(writes, 0);
      if ok {
        others := others[id := size];
      }
    }

    /** `update` asks for no capacity. */
    method UpdateRun(batch: nat, run: nat, change: Change)
      modifies this
      ensures View() == Apply(old(View()), Event.UpdateRun(batch, run, change))
      ensures manifest == old(manifest) && others == old(others) && |batches| == |old(batches)|
      ensures MayUpdate(old(batches), batch, run, change) ==>
                batches == old(batches)[batch := old(batches)[batch].(runs :=
                  old(batches)[batch].runs[run := WithRecord(old(batches)[batch].runs[run], change)])]
      ensures !MayUpdate(old(batches), batch, run, change) ==> batches == old(batches)
    {
      if MayUpdate(batches, batch, run, change) {
        batches := WithRun(batches, batch, run, WithRecord(batches[batch].runs[run], change));
      }
    }
  }
}
