/** The request table of `HopperRpcClient`.

    JavaScript runs each stretch of code between two awaits without interruption, so each stretch
    is one step here: where `call` resumes after the connection, after the policy admission and
    after the send; the two halves of `handleDisconnect` and of `close`, which both wait for the
    socket in the middle; every payload, timer and finished recovery lookup.  Any of them may
    come in any order.  Request identifiers are fresh (`randomUUID`), and so are sockets. */
module RpcClient {
  import opened Wrappers

  datatype Kind = Query | Mutation

  /** How the promise of a call is settled.  Answered covers every response that matches the
      request, from the server or from a recovery lookup; Unknown is the client's own
      `outcome_unknown`; the others are the errors of the client. */
  datatype Outcome =
    | Answered
    | CancelledBeforeStart
    | Unknown
    | TimedOut
    | Disconnected
    | Failed
    | ProtocolError
    | Mismatched

  /** Where the suspended `call` will resume. */
  datatype Stage = Connecting | Admitting(socket: nat) | Sending(socket: nat) | Over

  /** A PendingRequest object.  It outlives its entry in the map: timers, recovery loops and the
      suspended call keep referring to it. */
  datatype Request = Request(kind: Kind, sent: bool, recovering: bool)

  /** `pending` is the key set of the map, `armed` the requests whose timer is armed, `settled` the
      promises that have an outcome, `wire` the payloads handed to a socket, in order.
      `disconnects` and `closing` count the second halves still to run. */
  datatype State = State(
    requests: map<nat, Request>,
    pending: set<nat>,
    armed: set<nat>,
    settled: map<nat, Outcome>,
    stages: map<nat, Stage>,
    wire: seq<nat>,
    socket: Option<nat>,
    closed: bool,
    disconnects: nat,
    closing: bool)

  const INITIAL := State(map[], {}, {}, map[], map[], [], None, false, 0, false)

  datatype Reply = Matching | Protocol | Foreign

  datatype Event =
    | Begin(id: nat, kind: Kind)
    | Connected(socket: nat)
    | Resume(id: nat, socket: nat, aborted: bool)
    | Admitted(id: nat)
    | SendDone(id: nat)
    | CallFails(id: nat)
    | SocketFails(socket: nat)
    | SettleDisconnect(lookups: map<nat, nat>)
    | Payload(id: nat, reply: Reply)
    | RecoveryAnswer(id: nat)
    | Timer(id: nat)
    | CloseBegin
    | SettleClose

  // ----- The steps, as functions -----

  /** `finishPending` followed by `resolve` or `reject`.  A promise keeps its first outcome. */
  function Settle(s: State, id: nat, outcome: Outcome): State {
    s.(pending := s.pending - {id},
       armed := if id in s.pending then s.armed - {id} else s.armed,
       settled := if id in s.settled then s.settled else s.settled[id := outcome])
  }

  function Advance(s: State, id: nat, stage: Stage): State {
    s.(stages := s.stages[id := stage])
  }

  predicate SentMutation(s: State, id: nat) {
    id in s.requests && s.requests[id].kind.Mutation? && s.requests[id].sent
  }

  function SentAmong(s: State, ids: set<nat>): set<nat> {
    set id | id in ids && SentMutation(s, id)
  }

  function MarkRecovering(requests: map<nat, Request>, ids: set<nat>): map<nat, Request> {
    map id | id in requests :: if id in ids then requests[id].(recovering := true) else requests[id]
  }

  function Outcomes(settled: map<nat, Outcome>, ids: set<nat>, outcome: Outcome): map<nat, Outcome> {
    map id | id in settled.Keys + ids :: if id in settled then settled[id] else outcome
  }

  /** The loop of `handleDisconnect` over the requests in `ids`: a mutation that was sent starts
      its recovery, any other request is rejected. */
  function DisconnectAll(s: State, ids: set<nat>): State {
    var rejected := ids - SentAmong(s, ids);
    s.(requests := MarkRecovering(s.requests, SentAmong(s, ids)),
       pending := s.pending - rejected,
       armed := s.armed - rejected,
       settled := Outcomes(s.settled, rejected, Disconnected))
  }

  /** The requests in `ids` whose recovery the loop starts. */
  function StartsRecovery(s: State, ids: set<nat>): set<nat> {
    set id | id in SentAmong(s, ids) && !s.requests[id].recovering
  }

  /** A recovery that begins, unless its time is over or the client is closed, calls `getOperationResult` in the
      same stretch: `lookups` has the identifiers of these new requests, by the mutation they ask about. */
  predicate GoodLookups(s: State, lookups: map<nat, nat>) {
    && lookups.Keys <= StartsRecovery(s, s.pending)
    && (s.closed ==> lookups == map[])
    && (forall id :: id in lookups ==> lookups[id] !in s.requests)
    && forall a, b :: a in lookups && b in lookups && a != b ==> lookups[a] != lookups[b]
  }

  /** Queries, registered but not sent. */
  function BeginAll(s: State, ids: set<nat>): State {
    s.(requests := s.requests + map id | id in ids :: Request(Query, false, false),
       pending := s.pending + ids,
       armed := s.armed + ids,
       stages := s.stages + map id | id in ids :: Connecting)
  }

  function LookupsOf(lookups: map<nat, nat>, ids: set<nat>): set<nat> {
    set id | id in ids && id in lookups :: lookups[id]
  }

  /** The loop of `close`. */
  function CloseAll(s: State, ids: set<nat>): State {
    s.(pending := s.pending - ids,
       armed := s.armed - ids,
       settled := Outcomes(Outcomes(s.settled, SentAmong(s, ids), Unknown), ids, Disconnected))
  }

  /** `handleDisconnect` up to its await. */
  function LoseSocket(s: State, socket: nat): State {
    if s.socket == Some(socket) then s.(socket := None, disconnects := s.disconnects + 1) else s
  }

  predicate Enabled(s: State, e: Event) {
    match e
    case Begin(id, _) => id !in s.requests
    case Connected(_) => true
    case Resume(id, _, _) => id in s.stages && s.stages[id].Connecting?
    case Admitted(id) => id in s.stages && s.stages[id].Admitting?
    case SendDone(id) => id in s.stages && s.stages[id].Sending?
    case CallFails(id) => id in s.stages && !s.stages[id].Over?
    case SocketFails(_) => true
    case SettleDisconnect(lookups) => s.disconnects > 0 && GoodLookups(s, lookups)
    case Payload(_, _) => true
    case RecoveryAnswer(id) => id in s.requests && s.requests[id].recovering
    case Timer(id) => id in s.armed
    case CloseBegin => true
    case SettleClose => s.closing
  }

  function Apply(s: State, e: Event): State
    requires Enabled(s, e)
  {
    match e
    case Begin(id, kind) =>
      if s.closed then s else
        s.(requests := s.requests[id := Request(kind, false, false)], pending := s.pending + {id},
           armed := s.armed + {id}, stages := s.stages[id := Connecting])
    case Connected(socket) => if s.closed || s.socket.Some? then s else s.(socket := Some(socket))
    case Resume(id, socket, aborted) =>
      if id !in s.pending then Advance(s, id, Over)
      else if aborted then Advance(Settle(s, id, CancelledBeforeStart), id, Over)
      else Advance(s, id, Admitting(socket))
    case Admitted(id) =>
      if id !in s.pending || id !in s.requests then Advance(s, id, Over)
      else
        Advance(s.(requests := s.requests[id := s.requests[id].(sent := true)], wire := s.wire + [id]),
                id, Sending(s.stages[id].socket))
    case SendDone(id) => Advance(s, id, Over)
    case CallFails(id) =>
      var over := Advance(s, id, Over);
      if id !in s.pending || id !in s.requests then over
      else if !s.stages[id].Connecting? && s.requests[id].sent then LoseSocket(over, s.stages[id].socket)
      else Settle(over, id, Failed)
    case SocketFails(socket) => if s.closed then s else LoseSocket(s, socket)
    case SettleDisconnect(lookups) =>
      BeginAll(DisconnectAll(s, s.pending), LookupsOf(lookups, s.pending)).(disconnects := s.disconnects - 1)
    case Payload(id, reply) =>
      if id !in s.pending then s
      else
        Settle(s, id, match reply
                      case Matching => Answered
                      case Protocol => ProtocolError
                      case Foreign => Mismatched)
    case RecoveryAnswer(id) => Settle(s, id, Answered)
    case Timer(id) =>
      if id !in s.pending then s.(armed := s.armed - {id})
      else Settle(s, id, if SentMutation(s, id) then Unknown else TimedOut)
    case CloseBegin => if s.closed then s else s.(closed := true, socket := None, closing := true)
    case SettleClose => CloseAll(s, s.pending).(closing := false)
  }

  ghost predicate IsRun(states: seq<State>, events: seq<Event>) {
    && |states| == |events| + 1
    && states[0] == INITIAL
    && forall i :: 0 <= i < |events| ==> Next(states[i], events[i], states[i + 1])
  }

  ghost predicate Next(s: State, e: Event, s': State) {
    Enabled(s, e) && s' == Apply(s, e)
  }

  // ----- The invariant -----

  /** Outcomes that tell the caller its request did not happen. */
  predicate NotHappened(outcome: Outcome) {
    outcome.CancelledBeforeStart? || outcome.TimedOut? || outcome.Disconnected? || outcome.Failed?
  }

  /** The outcomes a request may be given, by what has become of its payload. */
  predicate Allowed(request: Request, outcome: Outcome) {
    && (request.kind.Mutation? && NotHappened(outcome) ==> !request.sent)
    && (outcome.Unknown? ==> request.kind.Mutation? && request.sent)
  }

  predicate GoodRequest(s: State, id: nat)
    requires id in s.requests
  {
    var request := s.requests[id];
    && id in s.stages
    && (id in s.pending <==> id !in s.settled)
    && (request.sent <==> id in s.wire)
    && (s.stages[id].Connecting? || s.stages[id].Admitting? ==> !request.sent)
    && (s.stages[id].Sending? ==> request.sent)
    && (request.recovering ==> request.kind.Mutation? && request.sent)
    && (id in s.settled ==> Allowed(request, s.settled[id]))
  }

  predicate Invariant(s: State) {
    && s.pending <= s.requests.Keys
    && s.armed == s.pending
    && s.settled.Keys <= s.requests.Keys
    && s.stages.Keys == s.requests.Keys
    && (forall id :: id in s.requests ==> GoodRequest(s, id))
    && (forall a, b :: 0 <= a < b < |s.wire| ==> s.wire[a] != s.wire[b])
    && (forall id :: id in s.wire ==> id in s.requests)
  }

  lemma SettleKeeps(s: State, id: nat, outcome: Outcome)
    requires Invariant(s) && id in s.requests
    requires id in s.pending ==> Allowed(s.requests[id], outcome)
    ensures Invariant(Settle(s, id, outcome))
  {
    var s' := Settle(s, id, outcome);
    assert GoodRequest(s, id);
    forall other | other in s'.requests ensures GoodRequest(s', other) {
      assert GoodRequest(s, other);
    }
  }

  lemma AdvanceKeeps(s: State, id: nat, stage: Stage)
    requires Invariant(s) && id in s.requests
    requires stage.Connecting? || stage.Admitting? ==> !s.requests[id].sent
    requires stage.Sending? ==> s.requests[id].sent
    ensures Invariant(Advance(s, id, stage))
  {
    var s' := Advance(s, id, stage);
    forall other | other in s'.requests ensures GoodRequest(s', other) {
      assert GoodRequest(s, other);
    }
  }

  lemma BeginKeeps(s: State, id: nat, kind: Kind)
    requires Invariant(s) && Enabled(s, Begin(id, kind))
    ensures Invariant(Apply(s, Begin(id, kind)))
  {
    var s' := Apply(s, Begin(id, kind));
    forall other | other in s'.requests ensures GoodRequest(s', other) {
      assert other in s.requests ==> GoodRequest(s, other);
    }
  }

  lemma ResumeKeeps(s: State, id: nat, socket: nat, aborted: bool)
    requires Invariant(s) && Enabled(s, Resume(id, socket, aborted))
    ensures Invariant(Apply(s, Resume(id, socket, aborted)))
  {
    assert GoodRequest(s, id);
    if id in s.pending && aborted {
      SettleKeeps(s, id, CancelledBeforeStart);
      AdvanceKeeps(Settle(s, id, CancelledBeforeStart), id, Over);
    } else {
      AdvanceKeeps(s, id, if id in s.pending then Admitting(socket) else Over);
    }
  }

  lemma AdmittedKeeps(s: State, id: nat)
    requires Invariant(s) && Enabled(s, Admitted(id))
    ensures Invariant(Apply(s, Admitted(id)))
  {
    assert GoodRequest(s, id);
    if id in s.pending {
      var s' := Apply(s, Admitted(id));
      forall other | other in s'.requests ensures GoodRequest(s', other) {
        assert GoodRequest(s, other);
      }
    } else {
      AdvanceKeeps(s, id, Over);
    }
  }

  lemma CallFailsKeeps(s: State, id: nat)
    requires Invariant(s) && Enabled(s, CallFails(id))
    ensures Invariant(Apply(s, CallFails(id)))
  {
    assert GoodRequest(s, id);
    AdvanceKeeps(s, id, Over);
    var over := Advance(s, id, Over);
    if id in s.pending && !s.stages[id].Connecting? && s.requests[id].sent {
      SocketKeeps(over, LoseSocket(over, s.stages[id].socket));
    } else if id in s.pending {
      SettleKeeps(over, id, Failed);
    }
  }

  /** Sockets, and the halves of a disconnect or close still to run, do not matter to it. */
  lemma SocketKeeps(s: State, s': State)
    requires Invariant(s)
    requires s' == s.(socket := s'.socket, closed := s'.closed, disconnects := s'.disconnects, closing := s'.closing)
    ensures Invariant(s')
  {
    forall other | other in s'.requests ensures GoodRequest(s', other) {
      assert GoodRequest(s, other);
    }
  }

  lemma DisconnectKeeps(s: State, ids: set<nat>)
    requires Invariant(s) && ids <= s.pending
    ensures Invariant(DisconnectAll(s, ids))
  {
    var s' := DisconnectAll(s, ids);
    forall other | other in s'.requests ensures GoodRequest(s', other) {
      assert GoodRequest(s, other);
    }
  }

  lemma BeginAllKeeps(s: State, ids: set<nat>)
    requires Invariant(s) && ids !! s.requests.Keys
    ensures Invariant(BeginAll(s, ids))
  {
    var s' := BeginAll(s, ids);
    forall other | other in s'.requests ensures GoodRequest(s', other) {
      assert other in s.requests ==> GoodRequest(s, other);
    }
  }

  /** Lookups are new, also when the loop has begun. */
  lemma LookupsAreNew(s: State, lookups: map<nat, nat>, ids: set<nat>)
    requires GoodLookups(s, lookups)
    ensures LookupsOf(lookups, ids) !! DisconnectAll(s, ids).requests.Keys
    ensures DisconnectAll(s, ids).requests.Keys == s.requests.Keys
  {
  }

  lemma CloseKeeps(s: State)
    requires Invariant(s)
    ensures Invariant(CloseAll(s, s.pending))
  {
    var s' := CloseAll(s, s.pending);
    forall other | other in s'.requests ensures GoodRequest(s', other) {
      assert GoodRequest(s, other);
    }
  }

  lemma SettleDisconnectKeeps(s: State, lookups: map<nat, nat>)
    requires Invariant(s) && Enabled(s, SettleDisconnect(lookups))
    ensures Invariant(Apply(s, SettleDisconnect(lookups)))
  {
    var lost := DisconnectAll(s, s.pending);
    DisconnectKeeps(s, s.pending);
    LookupsAreNew(s, lookups, s.pending);
    BeginAllKeeps(lost, LookupsOf(lookups, s.pending));
    SocketKeeps(BeginAll(lost, LookupsOf(lookups, s.pending)), Apply(s, SettleDisconnect(lookups)));
  }

  lemma StepKeepsInvariant(s: State, e: Event)
    requires Invariant(s) && Enabled(s, e)
    ensures Invariant(Apply(s, e))
  {
    match e
    case Begin(id, kind) => BeginKeeps(s, id, kind);
    case Resume(id, socket, aborted) => ResumeKeeps(s, id, socket, aborted);
    case Admitted(id) => AdmittedKeeps(s, id);
    case SendDone(id) => AdvanceKeeps(s, id, Over);
    case CallFails(id) => CallFailsKeeps(s, id);
    case SettleDisconnect(lookups) => SettleDisconnectKeeps(s, lookups);
    case Payload(id, _) =>
      if id in s.pending { SettleKeeps(s, id, Apply(s, e).settled[id]); }
    case RecoveryAnswer(id) => SettleKeeps(s, id, Answered);
    case Timer(id) => SettleKeeps(s, id, Apply(s, e).settled[id]);
    case SettleClose =>
      CloseKeeps(s);
      SocketKeeps(CloseAll(s, s.pending), Apply(s, e));
    case _ => SocketKeeps(s, Apply(s, e));
  }

  lemma {:induction false} RunsKeepInvariant(states: seq<State>, events: seq<Event>, n: nat)
    requires IsRun(states, events) && n < |states|
    ensures Invariant(states[n])
  {
    if n > 0 {
      RunsKeepInvariant(states, events, n - 1);
      assert Next(states[n - 1], events[n - 1], states[n]);
      StepKeepsInvariant(states[n - 1], events[n - 1]);
    }
  }

  // ----- What callers may rely on, in every run -----

  lemma StepKeepsOutcome(s: State, e: Event, s': State, id: nat)
    requires Next(s, e, s') && id in s.settled
    ensures id in s'.settled && s'.settled[id] == s.settled[id]
  {
  }

  lemma StepSendsNoSettled(s: State, e: Event, s': State, id: nat)
    requires Invariant(s) && Next(s, e, s') && id in s.settled
    ensures id in s'.wire <==> id in s.wire
  {
    assert GoodRequest(s, id);
    hide Invariant;
  }

  lemma StepReopensNothing(s: State, e: Event, s': State)
    requires Next(s, e, s') && s.closed
    ensures s'.closed && s'.pending <= s.pending
  {
  }

  /** A call has at most one outcome, the first, for ever. */
  lemma {:induction false} FirstOutcomeStays(states: seq<State>, events: seq<Event>, m: nat, n: nat, id: nat)
    requires IsRun(states, events) && m <= n < |states| && id in states[m].settled
    ensures id in states[n].settled && states[n].settled[id] == states[m].settled[id]
  {
    if m < n {
      FirstOutcomeStays(states, events, m, n - 1, id);
      assert Next(states[n - 1], events[n - 1], states[n]);
      hide Next;
      StepKeepsOutcome(states[n - 1], events[n - 1], states[n], id);
    }
  }

  /** No payload is handed to a socket twice. */
  lemma EachPayloadIsSentOnce(states: seq<State>, events: seq<Event>, n: nat, a: nat, b: nat)
    requires IsRun(states, events) && n < |states| && a < b < |states[n].wire|
    ensures states[n].wire[a] != states[n].wire[b]
  {
    RunsKeepInvariant(states, events, n);
  }

  /** No payload is handed to a socket after its call is settled. */
  lemma {:induction false} NothingIsSentAfterSettlement(states: seq<State>, events: seq<Event>, m: nat, n: nat, id: nat)
    requires IsRun(states, events) && m <= n < |states| && id in states[m].settled
    ensures id in states[n].wire <==> id in states[m].wire
  {
    hide Invariant, Next;
    if m < n {
      NothingIsSentAfterSettlement(states, events, m, n - 1, id);
      FirstOutcomeStays(states, events, m, n - 1, id);
      RunsKeepInvariant(states, events, n - 1);
      assert Next(states[n - 1], events[n - 1], states[n]);
      StepSendsNoSettled(states[n - 1], events[n - 1], states[n], id);
    }
  }

  /** A mutation that was reported as cancelled, timed out, disconnected or failed was not sent
      before, and is not sent at any later time: "did not happen" is never said of a sent one. */
  lemma NotHappenedMeansNeverSent(states: seq<State>, events: seq<Event>, m: nat, n: nat, id: nat)
    requires IsRun(states, events) && m <= n < |states|
    requires id in states[m].settled && id in states[m].requests && states[m].requests[id].kind.Mutation?
    requires NotHappened(states[m].settled[id])
    ensures id !in states[n].wire
  {
    RunsKeepInvariant(states, events, m);
    assert GoodRequest(states[m], id);
    NothingIsSentAfterSettlement(states, events, m, n, id);
  }

  /** `outcome_unknown` is said only of a mutation whose send had begun. */
  lemma UnknownMeansSentMutation(states: seq<State>, events: seq<Event>, n: nat, id: nat)
    requires IsRun(states, events) && n < |states| && id in states[n].settled && states[n].settled[id].Unknown?
    ensures id in states[n].requests && states[n].requests[id].kind.Mutation? && id in states[n].wire
  {
    RunsKeepInvariant(states, events, n);
    assert GoodRequest(states[n], id);
  }

  /** A timer is armed exactly while its request is pending, which is exactly while it has no
      outcome; so no request is left without either an outcome or a timer that will give it one. */
  lemma TimerArmedExactlyWhileUnsettled(states: seq<State>, events: seq<Event>, n: nat, id: nat)
    requires IsRun(states, events) && n < |states| && id in states[n].requests
    ensures id in states[n].armed <==> id in states[n].pending
    ensures id in states[n].armed <==> id !in states[n].settled
  {
    RunsKeepInvariant(states, events, n);
    assert GoodRequest(states[n], id);
  }

  /** The timer that fires settles its request, and with the outcome its payload deserves. */
  lemma TimerSettles(states: seq<State>, events: seq<Event>, n: nat, id: nat)
    requires IsRun(states, events) && n < |events| && events[n] == Timer(id)
    ensures id !in states[n + 1].pending && id in states[n + 1].settled
    ensures states[n + 1].settled[id] == if SentMutation(states[n], id) then Unknown else TimedOut
  {
    assert Next(states[n], events[n], states[n + 1]);
    RunsKeepInvariant(states, events, n);
    assert GoodRequest(states[n], id);
  }

  /** Once a lost connection has been dealt with, what is still pending is exactly the mutations that were sent,
      every one of them being recovered, and the lookups that these recoveries have begun: new queries, not sent
      yet, one for each. */
  lemma DisconnectLeavesOnlyRecoveries(states: seq<State>, events: seq<Event>, n: nat, id: nat)
    requires IsRun(states, events) && n < |events| && events[n].SettleDisconnect?
    ensures id in states[n + 1].pending <==>
            || (id in states[n].pending && SentMutation(states[n], id))
            || id in events[n].lookups.Values
    ensures id in states[n].pending && SentMutation(states[n], id) ==>
              id in states[n + 1].requests && states[n + 1].requests[id].recovering
    ensures id in events[n].lookups.Values ==>
              && id !in states[n].requests && id !in states[n + 1].wire
              && id in states[n + 1].requests && states[n + 1].requests[id] == Request(Query, false, false)
    ensures forall m, k :: m in events[n].lookups && k in events[n].lookups && m != k ==>
              events[n].lookups[m] != events[n].lookups[k]
    ensures forall m :: m in events[n].lookups ==>
              m in states[n].pending && SentMutation(states[n], m) && !states[n].requests[m].recovering
  {
    assert Next(states[n], events[n], states[n + 1]);
    RunsKeepInvariant(states, events, n);
    LookupsAreNew(states[n], events[n].lookups, states[n].pending);
    AllLookups(states[n], events[n].lookups);
  }

  lemma AllLookups(s: State, lookups: map<nat, nat>)
    requires GoodLookups(s, lookups)
    ensures LookupsOf(lookups, s.pending) == lookups.Values
  {
  }

  /** All that the table, the timers and the promises have on one request is as before. */
  predicate SameFor(s: State, s': State, id: nat) {
    && (id in s.requests <==> id in s'.requests) && (id in s.requests ==> s'.requests[id] == s.requests[id])
    && (id in s.pending <==> id in s'.pending) && (id in s.armed <==> id in s'.armed)
    && (id in s.settled <==> id in s'.settled) && (id in s.settled ==> s'.settled[id] == s.settled[id])
    && (id in s.stages <==> id in s'.stages) && (id in s.stages ==> s'.stages[id] == s.stages[id])
    && (id in s.wire <==> id in s'.wire)
  }

  /** The request that a stretch is about. */
  function About(e: Event): Option<nat> {
    match e
    case Begin(id, _) => Some(id)
    case Resume(id, _, _) => Some(id)
    case Admitted(id) => Some(id)
    case SendDone(id) => Some(id)
    case CallFails(id) => Some(id)
    case Payload(id, _) => Some(id)
    case RecoveryAnswer(id) => Some(id)
    case Timer(id) => Some(id)
    case _ => None
  }

  lemma SettleLeavesOthers(s: State, id: nat, outcome: Outcome, other: nat)
    requires other != id
    ensures SameFor(s, Settle(s, id, outcome), other)
  {
  }

  lemma ReplyLeavesOthers(s: State, id: nat, reply: Reply, other: nat)
    requires id != other
    ensures SameFor(s, Apply(s, Payload(id, reply)), other)
  {
    if id in s.pending {
      var outcome := match reply case Matching => Answered case Protocol => ProtocolError case Foreign => Mismatched;
      assert Apply(s, Payload(id, reply)) == Settle(s, id, outcome);
      hide Apply, Settle, SameFor;
      SettleLeavesOthers(s, id, outcome, other);
    }
  }

  lemma TimerLeavesOthers(s: State, id: nat, other: nat)
    requires Enabled(s, Timer(id)) && id != other
    ensures SameFor(s, Apply(s, Timer(id)), other)
  {
    if id in s.pending {
      var outcome := if SentMutation(s, id) then Unknown else TimedOut;
      assert Apply(s, Timer(id)) == Settle(s, id, outcome);
      hide Apply, Settle, SameFor;
      SettleLeavesOthers(s, id, outcome, other);
    }
  }

  lemma CallLeavesOthers(s: State, e: Event, other: nat)
    requires Enabled(s, e) && (e.Begin? || e.Resume? || e.Admitted? || e.SendDone?) && e.id != other
    ensures SameFor(s, Apply(s, e), other)
  {
    match e
    case Begin(_, _) =>
    case Resume(_, _, _) =>
    case Admitted(_) =>
    case SendDone(_) =>
  }

  lemma FailureLeavesOthers(s: State, id: nat, other: nat)
    requires Enabled(s, CallFails(id)) && id != other
    ensures SameFor(s, Apply(s, CallFails(id)), other)
  {
  }

  lemma StretchLeavesOthers(s: State, e: Event, other: nat)
    requires Enabled(s, e) && About(e) != Some(other) && !e.SettleDisconnect? && !e.SettleClose?
    ensures SameFor(s, Apply(s, e), other)
  {
    if About(e).Some? {
      match e
      case Payload(id, reply) => ReplyLeavesOthers(s, id, reply, other);
      case RecoveryAnswer(id) => SettleLeavesOthers(s, id, Answered, other);
      case Timer(id) => TimerLeavesOthers(s, id, other);
      case CallFails(id) => FailureLeavesOthers(s, id, other);
      case _ => CallLeavesOthers(s, e, other);
    }
  }

  /** A stretch about one request leaves all others alone, and so does one about the connection. */
  lemma OthersAreLeftAlone(states: seq<State>, events: seq<Event>, n: nat, id: nat)
    requires IsRun(states, events) && n < |events| && About(events[n]) != Some(id)
    requires !events[n].SettleDisconnect? && !events[n].SettleClose?
    ensures SameFor(states[n], states[n + 1], id)
  {
    assert Next(states[n], events[n], states[n + 1]);
    hide Apply, SameFor;
    StretchLeavesOthers(states[n], events[n], id);
  }

  /** A request is no longer pending, has this outcome, and no timer. */
  predicate SettledAs(s: State, id: nat, outcome: Outcome) {
    id !in s.pending && id !in s.armed && id in s.settled && s.settled[id] == outcome
  }

  /** A reply to a pending request is its answer exactly if it matches the request; a protocol error rejects it as
      such, and a response to something else as a mismatch.  A reply to any other request changes nothing. */
  lemma ReplySettles(states: seq<State>, events: seq<Event>, n: nat, id: nat, reply: Reply)
    requires IsRun(states, events) && n < |events| && events[n] == Payload(id, reply)
    ensures id in states[n].pending ==>
              && (SettledAs(states[n + 1], id, Answered) <==> reply.Matching?)
              && (SettledAs(states[n + 1], id, ProtocolError) <==> reply.Protocol?)
              && (SettledAs(states[n + 1], id, Mismatched) <==> reply.Foreign?)
              && states[n + 1].wire == states[n].wire && states[n + 1].socket == states[n].socket
    ensures id !in states[n].pending ==> states[n + 1] == states[n]
  {
    assert Next(states[n], events[n], states[n + 1]);
    RunsKeepInvariant(states, events, n);
    assert id in states[n].pending ==> GoodRequest(states[n], id);
  }

  /** A lookup that finds the result is the answer of the mutation, unless it has an outcome already. */
  lemma RecoverySettles(states: seq<State>, events: seq<Event>, n: nat, id: nat)
    requires IsRun(states, events) && n < |events| && events[n] == RecoveryAnswer(id)
    ensures id in states[n].pending ==> SettledAs(states[n + 1], id, Answered)
    ensures id !in states[n].pending ==> SameFor(states[n], states[n + 1], id)
  {
    assert Next(states[n], events[n], states[n + 1]);
    RunsKeepInvariant(states, events, n);
    assert GoodRequest(states[n], id);
  }

  /** `call` registers its request with a timer, unsent, exactly if the client is not closed. */
  lemma CallRegisters(states: seq<State>, events: seq<Event>, n: nat, id: nat, kind: Kind)
    requires IsRun(states, events) && n < |events| && events[n] == Begin(id, kind)
    ensures states[n].closed ==> states[n + 1] == states[n]
    ensures !states[n].closed ==>
              && id in states[n + 1].pending && id in states[n + 1].armed && id !in states[n + 1].settled
              && id in states[n + 1].requests && states[n + 1].requests[id] == Request(kind, false, false)
              && id in states[n + 1].stages && states[n + 1].stages[id].Connecting? && id !in states[n + 1].wire
  {
    assert Next(states[n], events[n], states[n + 1]);
    RunsKeepInvariant(states, events, n);
    RunsKeepInvariant(states, events, n + 1);
  }

  /** Once connected, a call that is over meanwhile does nothing; one that was aborted is reported as cancelled before
      its start; any other goes on to the admission. */
  lemma ConnectedCallGoesOn(states: seq<State>, events: seq<Event>, n: nat, id: nat, socket: nat, aborted: bool)
    requires IsRun(states, events) && n < |events| && events[n] == Resume(id, socket, aborted)
    ensures id in states[n + 1].stages && states[n + 1].wire == states[n].wire
    ensures states[n + 1].stages[id] == if id in states[n].pending && !aborted then Admitting(socket) else Over
    ensures id in states[n].pending && aborted ==> SettledAs(states[n + 1], id, CancelledBeforeStart)
    ensures !(id in states[n].pending && aborted) ==>
              && states[n + 1].pending == states[n].pending && states[n + 1].armed == states[n].armed
              && states[n + 1].settled == states[n].settled
  {
    assert Next(states[n], events[n], states[n + 1]);
    RunsKeepInvariant(states, events, n);
    assert GoodRequest(states[n], id);
  }

  /** After the admission a call is sent exactly if it is still pending. */
  lemma AdmittedCallIsSent(states: seq<State>, events: seq<Event>, n: nat, id: nat)
    requires IsRun(states, events) && n < |events| && events[n] == Admitted(id)
    ensures states[n + 1].wire == states[n].wire + if id in states[n].pending then [id] else []
    ensures states[n + 1].pending == states[n].pending && states[n + 1].settled == states[n].settled
    ensures id in states[n + 1].requests && id in states[n + 1].stages
    ensures id in states[n].pending ==> states[n + 1].requests[id].sent && states[n + 1].stages[id].Sending?
    ensures id !in states[n].pending ==> states[n + 1].stages[id].Over?
  {
    assert Next(states[n], events[n], states[n + 1]);
    RunsKeepInvariant(states, events, n);
    assert GoodRequest(states[n], id);
  }

  /** Once sent, a call only waits. */
  lemma SentCallWaits(states: seq<State>, events: seq<Event>, n: nat, id: nat)
    requires IsRun(states, events) && n < |events| && events[n] == SendDone(id)
    ensures states[n + 1] == states[n].(stages := states[n].stages[id := Over])
  {
    assert Next(states[n], events[n], states[n + 1]);
  }

  /** A call that fails is rejected if it was not sent.  If it was, the connection is lost instead, and whoever
      deals with that decides; unless another connection has taken its place. */
  lemma FailingCallDecides(states: seq<State>, events: seq<Event>, n: nat, id: nat)
    requires IsRun(states, events) && n < |events| && events[n] == CallFails(id)
    ensures id in states[n].requests && id in states[n].stages
    ensures id in states[n].pending && !states[n].requests[id].sent ==>
              SettledAs(states[n + 1], id, Failed) && states[n + 1].socket == states[n].socket
    ensures !(id in states[n].pending && !states[n].requests[id].sent) ==>
              && states[n + 1].pending == states[n].pending && states[n + 1].settled == states[n].settled
    ensures id in states[n].pending && states[n].requests[id].sent && states[n].stages[id].Sending?
                && states[n].socket == Some(states[n].stages[id].socket) ==>
              states[n + 1].socket.None? && states[n + 1].disconnects == states[n].disconnects + 1
    ensures states[n + 1].socket != states[n].socket ==>
              id in states[n].pending && states[n].requests[id].sent && states[n].stages[id].Sending?
  {
    assert Next(states[n], events[n], states[n + 1]);
    RunsKeepInvariant(states, events, n);
    assert GoodRequest(states[n], id);
  }

  /** A connection is lost, and dealt with, exactly if it is the present one and the client is not closed; only one
      that is missing is set up, and only while open. */
  lemma ConnectionChanges(states: seq<State>, events: seq<Event>, n: nat, socket: nat)
    requires IsRun(states, events) && n < |events|
    ensures events[n] == SocketFails(socket) ==>
              if !states[n].closed && states[n].socket == Some(socket)
              then states[n + 1] == states[n].(socket := None, disconnects := states[n].disconnects + 1)
              else states[n + 1] == states[n]
    ensures events[n] == Connected(socket) ==>
              if !states[n].closed && states[n].socket.None? then states[n + 1] == states[n].(socket := Some(socket))
              else states[n + 1] == states[n]
    ensures events[n] == CloseBegin ==>
              if states[n].closed then states[n + 1] == states[n]
              else states[n + 1] == states[n].(closed := true, socket := None, closing := true)
  {
    assert Next(states[n], events[n], states[n + 1]);
  }

  /** A lost connection rejects every request but the mutations that were sent. */
  lemma DisconnectRejectsTheRest(states: seq<State>, events: seq<Event>, n: nat, id: nat)
    requires IsRun(states, events) && n < |events| && events[n].SettleDisconnect? && id in states[n].pending
    ensures !SentMutation(states[n], id) ==> SettledAs(states[n + 1], id, Disconnected)
    ensures SentMutation(states[n], id) ==> id in states[n + 1].pending && id !in states[n + 1].settled
  {
    assert Next(states[n], events[n], states[n + 1]);
    RunsKeepInvariant(states, events, n);
    RunsKeepInvariant(states, events, n + 1);
    LookupsAreNew(states[n], events[n].lookups, states[n].pending);
    assert GoodRequest(states[n], id);
    DisconnectLeavesOnlyRecoveries(states, events, n, id);
    assert GoodRequest(states[n + 1], id);
  }

  /** `close` says unknown of a mutation that was sent, and a disconnect of everything else that is pending. */
  lemma CloseDecides(states: seq<State>, events: seq<Event>, n: nat, id: nat)
    requires IsRun(states, events) && n < |events| && events[n].SettleClose?
    ensures id in states[n].pending ==>
              SettledAs(states[n + 1], id, if SentMutation(states[n], id) then Unknown else Disconnected)
    ensures id in states[n].settled ==>
              id in states[n + 1].settled && states[n + 1].settled[id] == states[n].settled[id]
  {
    assert Next(states[n], events[n], states[n + 1]);
    RunsKeepInvariant(states, events, n);
    assert id in states[n].pending ==> GoodRequest(states[n], id);
  }

  lemma {:induction false} ClosedStaysClosed(states: seq<State>, events: seq<Event>, m: nat, n: nat)
    requires IsRun(states, events) && m <= n < |states| && states[m].closed
    ensures states[n].closed && states[n].pending <= states[m].pending
  {
    if m < n {
      ClosedStaysClosed(states, events, m, n - 1);
      StepReopensNothing(states[n - 1], events[n - 1], states[n]);
    }
  }

  /** `close` leaves no call without an outcome, then or later. */
  lemma CloseSettlesEverything(states: seq<State>, events: seq<Event>, k: nat, n: nat, id: nat)
    requires IsRun(states, events) && k < |events| && events[k].SettleClose? && k < n < |states|
        && id in states[n].requests
    ensures id in states[n].settled && states[n].pending == {}
  {
    assert Next(states[k], events[k], states[k + 1]);
    ClosingIsClosed(states, events, k);
    ClosedStaysClosed(states, events, k + 1, n);
    RunsKeepInvariant(states, events, n);
    assert GoodRequest(states[n], id);
  }

  lemma {:induction false} ClosingIsClosed(states: seq<State>, events: seq<Event>, n: nat)
    requires IsRun(states, events) && n < |states|
    ensures states[n].closing ==> states[n].closed
  {
    if n > 0 {
      ClosingIsClosed(states, events, n - 1);
      assert Next(states[n - 1], events[n - 1], states[n]);
    }
  }

  // ----- The class -----

  /** Each method is one stretch between two awaits of the method it is named after. */
  class HopperRpcClient {
    var requests: map<nat, Request>
    var pending: set<nat>
    var armed: set<nat>
    var settled: map<nat, Outcome>
    var stages: map<nat, Stage>
    var wire: seq<nat>
    var socket: Option<nat>
    var closed: bool
    var disconnects: nat
    var closing: bool

    ghost function Now(): State
      reads this
    {
      State(requests, pending, armed, settled, stages, wire, socket, closed, disconnects, closing)
    }

    constructor ()
      ensures Now() == INITIAL && Invariant(Now())
    {
      requests, pending, armed, settled, stages := map[], {}, {}, map[], map[];
      wire, socket, closed, disconnects, closing := [], None, false, 0, false;
    }

    method FinishPending(id: nat)
      modifies this`pending, this`armed
      ensures pending == old(pending) - {id}
      ensures armed == if id in old(pending) then old(armed) - {id} else old(armed)
    {
      if id !in pending {
        return;
      }
      pending := pending - {id};
      armed := armed - {id};
    }

    /** `resolvePending`, `rejectPending` and `resolveUnknown`: a settled promise ignores it. */
    method SettlePending(id: nat, outcome: Outcome)
      modifies this
      ensures Now() == Settle(old(Now()), id, outcome)
    {
      FinishPending(id);
      if id !in settled {
        settled := settled[id := outcome];
      }
    }

    method Call(id: nat, kind: Kind) returns (accepted: bool)
      requires Invariant(Now()) && Enabled(Now(), Begin(id, kind))
      modifies this
      ensures Invariant(Now()) && Now() == Apply(old(Now()), Begin(id, kind)) && accepted == !old(closed)
    {
      StepKeepsInvariant(Now(), Begin(id, kind));
      if closed {
        return false;
      }
      requests := requests[id := Request(kind, false, false)];
      armed := armed + {id};
      pending := pending + {id};
      stages := stages[id := Connecting];
      return true;
    }

    method CallConnected(id: nat, on: nat, aborted: bool)
      requires Invariant(Now()) && Enabled(Now(), Resume(id, on, aborted))
      modifies this
      ensures Invariant(Now()) && Now() == Apply(old(Now()), Resume(id, on, aborted))
    {
      StepKeepsInvariant(Now(), Resume(id, on, aborted));
      if id !in pending {
        stages := stages[id := Over];
      } else if aborted {
        SettlePending(id, CancelledBeforeStart);
        stages := stages[id := Over];
      } else {
        stages := stages[id := Admitting(on)];
      }
    }

    method CallAdmitted(id: nat)
      requires Invariant(Now()) && Enabled(Now(), Admitted(id))
      modifies this
      ensures Invariant(Now()) && Now() == Apply(old(Now()), Admitted(id))
    {
      StepKeepsInvariant(Now(), Admitted(id));
      if id !in pending {
        stages := stages[id := Over];
        return;
      }
      requests := requests[id := requests[id].(sent := true)];
      wire := wire + [id];
      stages := stages[id := Sending(stages[id].socket)];
    }

    method CallCatch(id: nat)
      requires Invariant(Now()) && Enabled(Now(), CallFails(id))
      modifies this
      ensures Invariant(Now()) && Now() == Apply(old(Now()), CallFails(id))
    {
      StepKeepsInvariant(Now(), CallFails(id));
      var stage := stages[id];
      stages := stages[id := Over];
      if !stage.Connecting? && id in pending && requests[id].sent {
        HandleDisconnect(stage.socket);
      } else if id in pending {
        SettlePending(id, Failed);
      }
    }

    method HandleDisconnect(lost: nat)
      modifies this`socket, this`disconnects
      ensures Now() == LoseSocket(old(Now()), lost)
    {
      if socket != Some(lost) {
        return;
      }
      socket := None;
      disconnects := disconnects + 1;
    }

    /** The body of the loop in `handleDisconnect`; a recovery that begins may call for a lookup. */
    method DisconnectOne(id: nat, lookup: Option<nat>)
      requires Invariant(Now()) && id in pending
      requires lookup.Some? ==> lookup.value !in requests && SentMutation(Now(), id) && !closed
      modifies this
      ensures Now() == BeginAll(RecoverOrReject(old(Now()), id), if lookup.Some? then {lookup.value} else {})
    {
      NoneBegun(RecoverOrReject(Now(), id));
      if requests[id].kind.Mutation? && requests[id].sent {
        RecoveryKeeps(Now(), id);
        requests := requests[id := requests[id].(recovering := true)];
        if lookup.Some? {
          OneBegun(Now(), lookup.value);
          var _ := Call(lookup.value, Query);
        }
      } else {
        SettlePending(id, Disconnected);
      }
    }

    method DisconnectPending(lookups: map<nat, nat>)
      requires Invariant(Now()) && GoodLookups(Now(), lookups)
      modifies this
      ensures Now() == BeginAll(DisconnectAll(old(Now()), old(pending)), LookupsOf(lookups, old(pending)))
    {
      ghost var before, done: set<nat> := Now(), {};
      var todo := pending;
      NothingDone(before);
      NoneBegun(before);
      NoLookups(lookups);
      hide Invariant, DisconnectAll, BeginAll, RecoverOrReject, LookupsOf, GoodLookups;
      while todo != {}
        invariant done + todo == before.pending && done !! todo
        invariant Now() == BeginAll(DisconnectAll(before, done), LookupsOf(lookups, done))
      {
        var id :| id in todo;
        DisconnectOneFits(before, lookups, done, id);
        DisconnectOne(id, if id in lookups then Some(lookups[id]) else None);
        todo, done := todo - {id}, done + {id};
      }
      assert done == before.pending;
    }

    /** The rest of `handleDisconnect`, after its await. */
    method HandleDisconnectSettle(lookups: map<nat, nat>)
      requires Invariant(Now()) && Enabled(Now(), SettleDisconnect(lookups))
      modifies this
      ensures Invariant(Now()) && Now() == Apply(old(Now()), SettleDisconnect(lookups))
    {
      hide Invariant, BeginAll, DisconnectAll, LookupsOf, GoodLookups, Apply, Enabled;
      StepKeepsInvariant(Now(), SettleDisconnect(lookups));
      SettleDisconnectIs(Now(), lookups);
      DisconnectPending(lookups);
      disconnects := disconnects - 1;
    }

    method HandlePayload(id: nat, reply: Reply)
      requires Invariant(Now())
      modifies this
      ensures Invariant(Now()) && Now() == Apply(old(Now()), Payload(id, reply))
    {
      StepKeepsInvariant(Now(), Payload(id, reply));
      if id !in pending {
        return;
      }
      match reply
      case Protocol => SettlePending(id, ProtocolError);
      case Foreign => SettlePending(id, Mismatched);
      case Matching => SettlePending(id, Answered);
    }

    /** The loop of `recoverMutation` has read a terminal result; it does not look whether the
        request is still pending. */
    method RecoverMutation(id: nat)
      requires Invariant(Now()) && Enabled(Now(), RecoveryAnswer(id))
      modifies this
      ensures Invariant(Now()) && Now() == Apply(old(Now()), RecoveryAnswer(id))
    {
      StepKeepsInvariant(Now(), RecoveryAnswer(id));
      SettlePending(id, Answered);
    }

    method OnCompletionTimeout(id: nat)
      requires Invariant(Now()) && Enabled(Now(), Timer(id))
      modifies this
      ensures Invariant(Now()) && Now() == Apply(old(Now()), Timer(id))
    {
      StepKeepsInvariant(Now(), Timer(id));
      if requests[id].kind.Mutation? && requests[id].sent {
        SettlePending(id, Unknown);
      } else {
        SettlePending(id, TimedOut);
      }
    }

    method Close()
      requires Invariant(Now())
      modifies this`closed, this`socket, this`closing
      ensures Invariant(Now()) && Now() == Apply(old(Now()), CloseBegin)
    {
      StepKeepsInvariant(Now(), CloseBegin);
      if closed {
        return;
      }
      closed, socket, closing := true, None, true;
    }

    method ClosePending()
      requires Invariant(Now())
      modifies this
      ensures Now() == CloseAll(old(Now()), old(pending))
    {
      ghost var before, done: set<nat> := Now(), {};
      var todo := pending;
      NothingDone(before);
      while todo != {}
        invariant done + todo == before.pending && done !! todo
        invariant Now() == CloseAll(before, done)
      {
        var id :| id in todo;
        CloseOneMore(before, done, id);
        SettlePending(id, if requests[id].kind.Mutation? && requests[id].sent then Unknown else Disconnected);
        todo, done := todo - {id}, done + {id};
      }
      assert done == before.pending;
    }

    /** The rest of `close`, after its await. */
    method CloseSettle()
      requires Invariant(Now()) && Enabled(Now(), SettleClose)
      modifies this
      ensures Invariant(Now()) && Now() == Apply(old(Now()), SettleClose)
    {
      StepKeepsInvariant(Now(), SettleClose);
      ClosePending();
      closing := false;
    }
  }

  function RecoverOrReject(s: State, id: nat): State
    requires id in s.requests
  {
    if SentMutation(s, id)
    then s.(requests := s.requests[id := s.requests[id].(recovering := true)])
    else Settle(s, id, Disconnected)
  }

  lemma SettleDisconnectIs(s: State, lookups: map<nat, nat>)
    requires Enabled(s, SettleDisconnect(lookups))
    ensures var settled := BeginAll(DisconnectAll(s, s.pending), LookupsOf(lookups, s.pending));
            && settled.disconnects == s.disconnects > 0 && GoodLookups(s, lookups)
            && Apply(s, SettleDisconnect(lookups)) == settled.(disconnects := s.disconnects - 1)
  {
  }

  lemma NoneBegun(s: State)
    ensures BeginAll(s, {}) == s
  {
    var none: map<nat, Request>, nowhere: map<nat, Stage> := map[], map[];
    assert s.requests + none == s.requests && s.stages + nowhere == s.stages;
    assert s.pending + {} == s.pending && s.armed + {} == s.armed;
  }

  lemma NoLookups(lookups: map<nat, nat>)
    ensures LookupsOf(lookups, {}) == {}
  {
  }

  lemma OneBegun(s: State, id: nat)
    requires Enabled(s, Begin(id, Query)) && !s.closed
    ensures Apply(s, Begin(id, Query)) == BeginAll(s, {id})
  {
  }

  lemma RecoveryKeeps(s: State, id: nat)
    requires Invariant(s) && id in s.pending && SentMutation(s, id)
    ensures Invariant(RecoverOrReject(s, id))
  {
    var s' := RecoverOrReject(s, id);
    forall other | other in s'.requests ensures GoodRequest(s', other) {
      assert GoodRequest(s, other);
    }
  }

  /** What the loop meets when it comes to `id`, and what one more turn makes of it. */
  lemma DisconnectOneFits(s: State, lookups: map<nat, nat>, done: set<nat>, id: nat)
    requires Invariant(s) && GoodLookups(s, lookups) && done <= s.pending && id in s.pending - done
    ensures var now := BeginAll(DisconnectAll(s, done), LookupsOf(lookups, done));
            && Invariant(now) && id in now.pending && id in now.requests
            && (id in lookups ==> lookups[id] !in now.requests && SentMutation(now, id) && !now.closed)
            && BeginAll(RecoverOrReject(now, id), if id in lookups then {lookups[id]} else {})
               == BeginAll(DisconnectAll(s, done + {id}), LookupsOf(lookups, done + {id}))
  {
    var lost := DisconnectAll(s, done);
    DisconnectKeeps(s, done);
    LookupsAreNew(s, lookups, done);
    BeginAllKeeps(lost, LookupsOf(lookups, done));
    DisconnectOneMore(s, done, id);
    RecoverAfterBegin(lost, LookupsOf(lookups, done), id);
    BeginMore(RecoverOrReject(lost, id), LookupsOf(lookups, done), if id in lookups then {lookups[id]} else {});
    LookupsMore(lookups, done, id);
  }

  lemma LookupsMore(lookups: map<nat, nat>, done: set<nat>, id: nat)
    ensures LookupsOf(lookups, done + {id}) == LookupsOf(lookups, done) + if id in lookups then {lookups[id]} else {}
  {
  }

  lemma BeginMore(s: State, ids: set<nat>, more: set<nat>)
    ensures BeginAll(BeginAll(s, ids), more) == BeginAll(s, ids + more)
  {
    QueriesMore(s.requests, ids, more, Request(Query, false, false));
    QueriesMore(s.stages, ids, more, Connecting);
    assert s.pending + ids + more == s.pending + (ids + more) && s.armed + ids + more == s.armed + (ids + more);
  }

  lemma QueriesMore<V>(m: map<nat, V>, ids: set<nat>, more: set<nat>, value: V)
    ensures m + (map id | id in ids :: value) + (map id | id in more :: value) == m + map id | id in ids + more :: value
  {
  }

  /** Requests of others do not matter to a turn of the loop. */
  lemma RecoverAfterBegin(s: State, ids: set<nat>, id: nat)
    requires id in s.requests && id !in ids
    ensures RecoverOrReject(BeginAll(s, ids), id) == BeginAll(RecoverOrReject(s, id), ids)
  {
    assert s.pending + ids - {id} == s.pending - {id} + ids && s.armed + ids - {id} == s.armed - {id} + ids;
    var queries := map other | other in ids :: Request(Query, false, false);
    if SentMutation(s, id) {
      var request := s.requests[id].(recovering := true);
      assert (s.requests + queries)[id := request] == s.requests[id := request] + queries;
    }
  }

  lemma NothingDone(s: State)
    ensures DisconnectAll(s, {}) == s && CloseAll(s, {}) == s
  {
    assert SentAmong(s, {}) == {};
    assert Outcomes(s.settled, {}, Disconnected) == s.settled == Outcomes(s.settled, {}, Unknown);
    assert MarkRecovering(s.requests, {}) == s.requests;
  }

  lemma SentAmongMore(s: State, done: set<nat>, id: nat)
    ensures SentAmong(s, done + {id}) == if SentMutation(s, id) then SentAmong(s, done) + {id} else SentAmong(s, done)
  {
  }

  lemma OutcomesMore(settled: map<nat, Outcome>, ids: set<nat>, id: nat, outcome: Outcome)
    requires id !in settled && id !in ids
    ensures Outcomes(settled, ids + {id}, outcome) == Outcomes(settled, ids, outcome)[id := outcome]
  {
  }

  lemma OutcomesAgain(settled: map<nat, Outcome>, ids: set<nat>, id: nat, outcome: Outcome)
    requires id in settled
    ensures Outcomes(settled, ids + {id}, outcome) == Outcomes(settled, ids, outcome)
  {
  }

  lemma OutcomesOver(settled: map<nat, Outcome>, ids: set<nat>, id: nat, first: Outcome, outcome: Outcome)
    requires id !in settled && id !in ids
    ensures Outcomes(settled[id := first], ids, outcome) == Outcomes(settled, ids, outcome)[id := first]
  {
  }

  /** One more turn of the loop of `handleDisconnect`. */
  lemma DisconnectOneMore(s: State, done: set<nat>, id: nat)
    requires Invariant(s) && done <= s.pending && id in s.pending - done
    ensures id in DisconnectAll(s, done).requests
    ensures DisconnectAll(s, done + {id}) == RecoverOrReject(DisconnectAll(s, done), id)
  {
    var sent := SentAmong(s, done);
    assert GoodRequest(s, id);
    SentAmongMore(s, done, id);
    if SentMutation(s, id) {
      assert done + {id} - (sent + {id}) == done - sent;
      assert MarkRecovering(s.requests, sent + {id}) ==
             MarkRecovering(s.requests, sent)[id := s.requests[id].(recovering := true)];
    } else {
      assert done + {id} - sent == done - sent + {id};
      OutcomesMore(s.settled, done - sent, id, Disconnected);
    }
  }

  /** One more turn of the loop of `close`. */
  lemma CloseOneMore(s: State, done: set<nat>, id: nat)
    requires Invariant(s) && done <= s.pending && id in s.pending - done
    ensures CloseAll(s, done + {id}) ==
              Settle(CloseAll(s, done), id, if SentMutation(s, id) then Unknown else Disconnected)
  {
    assert GoodRequest(s, id);
    hide Outcomes, SentAmong, GoodRequest, Invariant;
    assert s.pending - (done + {id}) == s.pending - done - {id} && s.armed - (done + {id}) == s.armed - done - {id};
    var sent := SentAmong(s, done);
    var unknown := Outcomes(s.settled, sent, Unknown);
    SentAmongMore(s, done, id);
    if SentMutation(s, id) {
      OutcomesMore(s.settled, sent, id, Unknown);
      OutcomesAgain(unknown[id := Unknown], done, id, Disconnected);
      OutcomesOver(unknown, done, id, Unknown, Disconnected);
    } else {
      OutcomesMore(unknown, done, id, Disconnected);
    }
  }
}
