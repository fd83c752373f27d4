/** The retained-result store behind mutations (`MutationResultStore.cs`).

    Every locked section is one operation, at the clock reading `now` it takes under the lock.
    `Complete` has two of them, with the serializer running in between, so any other operation
    may come between `CompleteBegin` and `CompleteEnd`. */
module MutationResultStore {
  import opened Wrappers
  import opened MapSums

  /** C#'s `int` and `long`: Dafny checks that no expression of these types leaves its range. */
  newtype Int32 = x: int | -0x8000_0000 <= x < 0x8000_0000
  newtype Int64 = x: int | -0x8000_0000_0000_0000 <= x < 0x8000_0000_0000_0000

  /** The largest `DateTimeOffset`, in ticks. */
  const MAX_TICKS: nat := 3155378975999999999

  datatype Options = Options(
    maximumCount: Int32,
    maximumBytes: Int64,
    reservationBytes: Int32,
    maximumTerminalResultBytes: Int32,
    timeToLive: Int64)
  {
    /** `Validate` throws for exactly the other combinations. */
    predicate Valid() {
      && maximumCount > 0
      && maximumBytes > 0
      && 0 < reservationBytes && reservationBytes as Int64 <= maximumBytes
      && 0 < maximumTerminalResultBytes <= reservationBytes
      && timeToLive > 0
    }
  }

  /** What the constructor accepts. */
  type StoreOptions = o: Options | o.Valid() witness Options(1, 1, 1, 1, 1)

  /** A count of bytes, as `GetByteCount` returns it. */
  type Length = x: Int32 | 0 <= x witness 0

  /** A body with its UTF-8 length. */
  datatype Serialized = Serialized(body: string, byteCount: Length)

  datatype Retained = Retained(body: string, byteCount: Length, completedAt: nat, expiresAt: nat)

  datatype Entry = Pending | Terminal(result: Retained)

  type Entries = map<string, Entry>

  datatype AdmissionState = Admitted | ExistingPending | ExistingTerminal | Busy | QueryNotRetained | InvalidOperationId

  datatype Operation =
    | Admit(query: bool, operationId: Option<string>)
    | Lookup(operationId: Option<string>)
    | CompleteBegin(operationId: Option<string>)
    | CompleteEnd(completedId: string, serialized: Serialized)
    | ReleaseInFlight(operationId: Option<string>)
    | ReleaseAllInFlight
    | RemoveExpired

  datatype Reply =
    | Admission(state: AdmissionState, terminal: Option<Retained>)
    | LookupPending
    | LookupTerminal(found: Retained)
    | NotFound
    | MayComplete
    | AlreadyTerminal(existing: Retained)
    | Completed(stored: Retained)
    | ResultTooLarge(stored: Retained)
    | Released(done: bool)
    | Removed(count: int)
    | Throws

  /** `char.IsWhiteSpace`. */
  predicate IsWhiteSpace(c: char) {
    || c == ' ' || '\t' <= c <= '\r' || c == '\U{85}' || c == '\U{A0}' || c == '\U{1680}'
    || '\U{2000}' <= c <= '\U{200A}' || c == '\U{2028}' || c == '\U{2029}' || c == '\U{202F}' || c == '\U{205F}'
    || c == '\U{3000}'
  }

  /** `!string.IsNullOrWhiteSpace(id)`. */
  predicate Usable(id: Option<string>) {
    id.Some? && exists i :: 0 <= i < |id.value| && !IsWhiteSpace(id.value[i])
  }

  // ----- What each operation does, on the dictionary alone -----

  predicate Expired(entry: Entry, now: nat) {
    entry.Terminal? && entry.result.expiresAt <= now
  }

  function Live(entries: Entries, now: nat): Entries {
    map id | id in entries && !Expired(entries[id], now) :: entries[id]
  }

  function Weight(o: StoreOptions, entry: Entry): Length {
    match entry
    case Pending => o.reservationBytes
    case Terminal(result) => result.byteCount
  }

  ghost function Weights(o: StoreOptions, entries: Entries): map<string, nat> {
    map id | id in entries :: Weight(o, entries[id]) as int
  }

  ghost function Used(o: StoreOptions, entries: Entries): nat {
    Total(Weights(o, entries))
  }

  ghost function Apply(o: StoreOptions, tooLarge: Serialized, entries: Entries, now: nat, op: Operation)
    : (Entries, Reply)
  {
    var live := Live(entries, now);
    match op
    case Admit(query, id) =>
      if query then (live, Admission(QueryNotRetained, None))
      else if !Usable(id) then (live, Admission(InvalidOperationId, None))
      else if id.value in live then
        match live[id.value]
        case Pending => (live, Admission(ExistingPending, None))
        case Terminal(result) => (live, Admission(ExistingTerminal, Some(result)))
      else if |live| >= o.maximumCount as int || Used(o, live) + o.reservationBytes as int > o.maximumBytes as int
      then (live, Admission(Busy, None))
      else (live[id.value := Pending], Admission(Admitted, None))
    case Lookup(id) =>
      if !Usable(id) then (entries, Throws)
      else if id.value !in live then (live, NotFound)
      else
        (match live[id.value]
         case Pending => (live, LookupPending)
         case Terminal(result) => (live, LookupTerminal(result)))
    case CompleteBegin(id) =>
      if !Usable(id) then (entries, Throws)
      else if id.value !in live then (live, NotFound)
      else
        (match live[id.value]
         case Pending => (live, MayComplete)
         case Terminal(result) => (live, AlreadyTerminal(result)))
    case CompleteEnd(id, serialized) =>
      if id !in live then (live, NotFound)
      else if live[id].Terminal? then (live, AlreadyTerminal(live[id].result))
      else if now + o.timeToLive as int > MAX_TICKS then (live, Throws)
      else
        var fits := serialized.byteCount <= o.maximumTerminalResultBytes;
        var kept := if fits then serialized else tooLarge;
        var result := Retained(kept.body, kept.byteCount, now, now + o.timeToLive as int);
        (live[id := Terminal(result)], if fits then Completed(result) else ResultTooLarge(result))
    case ReleaseInFlight(id) =>
      if !Usable(id) then (entries, Throws)
      else if id.value !in live || live[id.value].Terminal? then (live, Released(false))
      else (live - {id.value}, Released(true))
    case ReleaseAllInFlight =>
      var kept := map id | id in live && live[id].Terminal? :: live[id];
      (kept, Removed(|live| - |kept|))
    case RemoveExpired => (live, Removed(|entries| - |live|))
  }

  /** What each reply reports about the store. */
  datatype Counters = Counters(inFlight: nat, terminal: nat, usedBytes: nat, maximumCount: nat, maximumBytes: nat)

  ghost function CountersOf(o: StoreOptions, entries: Entries): Counters {
    Counters(|set id | id in entries && entries[id].Pending?|, |set id | id in entries && entries[id].Terminal?|,
             Used(o, entries), o.maximumCount as int, o.maximumBytes as int)
  }

  // ----- The accounting -----

  /** What every operation keeps. */
  ghost predicate Sound(o: StoreOptions, entries: Entries) {
    && |entries| <= o.maximumCount as int
    && Used(o, entries) <= o.maximumBytes as int
    && forall id :: id in entries && entries[id].Terminal? ==>
         && entries[id].result.byteCount <= o.maximumTerminalResultBytes
         && entries[id].result.expiresAt == entries[id].result.completedAt + o.timeToLive as int
  }

  lemma UsedWithout(o: StoreOptions, entries: Entries, id: string)
    requires id in entries
    ensures Used(o, entries - {id}) == Used(o, entries) - Weight(o, entries[id]) as int
  {
    TotalWithout(Weights(o, entries), id);
    assert Weights(o, entries - {id}) == Weights(o, entries) - {id};
  }

  lemma UsedWith(o: StoreOptions, entries: Entries, id: string, entry: Entry)
    ensures Used(o, entries[id := entry]) ==
              Used(o, entries) + Weight(o, entry) as int - (if id in entries then Weight(o, entries[id]) as int else 0)
  {
    TotalUpdate(Weights(o, entries), id, Weight(o, entry) as int);
    assert Weights(o, entries[id := entry]) == Weights(o, entries)[id := Weight(o, entry) as int];
  }

  /** Removing entries never adds bytes. */
  lemma {:induction false} UsedShrinks(o: StoreOptions, entries: Entries, kept: Entries)
    requires forall id :: id in kept ==> id in entries && kept[id] == entries[id]
    ensures Used(o, kept) <= Used(o, entries) && |kept| <= |entries|
    decreases |entries|
  {
    assert kept.Keys <= entries.Keys;
    if kept == entries {
    } else {
      var id :| id in entries && id !in kept;
      UsedWithout(o, entries, id);
      assert (entries - {id}).Keys == entries.Keys - {id};
      UsedShrinks(o, entries - {id}, kept);
    }
  }

  /** The byte count stays far below the range of `long`, whatever `MaximumBytes` is: there are at
      most `int.MaxValue` entries of at most `int.MaxValue` bytes each. */
  lemma UsedFitsLong(o: StoreOptions, entries: Entries)
    requires Sound(o, entries)
    ensures Used(o, entries) + o.reservationBytes as int < 0x8000_0000_0000_0000
  {
    var weights := Weights(o, entries);
    assert weights.Keys == entries.Keys;
    assert |weights| == |entries|;
    TotalBounded(weights, 0x7FFF_FFFF);
    assert |weights| * 0x7FFF_FFFF <= 0x7FFF_FFFF * 0x7FFF_FFFF;
  }

  lemma LiveIsSound(o: StoreOptions, entries: Entries, now: nat)
    requires Sound(o, entries)
    ensures Sound(o, Live(entries, now))
  {
    UsedShrinks(o, entries, Live(entries, now));
  }

  predicate FittingNotice(o: StoreOptions, tooLarge: Serialized) {
    tooLarge.byteCount <= o.maximumTerminalResultBytes
  }

  lemma AdmitKeepsSound(o: StoreOptions, live: Entries, id: string)
    requires Sound(o, live) && id !in live
    requires |live| < o.maximumCount as int && Used(o, live) + o.reservationBytes as int <= o.maximumBytes as int
    ensures Sound(o, live[id := Pending])
  {
    UsedWith(o, live, id, Pending);
  }

  lemma CompleteKeepsSound(o: StoreOptions, live: Entries, id: string, result: Retained)
    requires Sound(o, live) && id in live && live[id].Pending?
    requires result.byteCount <= o.maximumTerminalResultBytes
    requires result.expiresAt == result.completedAt + o.timeToLive as int
    ensures Sound(o, live[id := Terminal(result)])
  {
    UsedWith(o, live, id, Terminal(result));
    assert live[id := Terminal(result)].Keys == live.Keys;
  }

  lemma KeptIsSound(o: StoreOptions, entries: Entries, kept: Entries)
    requires Sound(o, entries)
    requires forall id :: id in kept ==> id in entries && kept[id] == entries[id]
    ensures Sound(o, kept)
  {
    UsedShrinks(o, entries, kept);
  }

  lemma AdmitOperationKeepsSound(o: StoreOptions, tooLarge: Serialized, entries: Entries, now: nat, op: Operation)
    requires Sound(o, entries) && op.Admit?
    ensures Sound(o, Apply(o, tooLarge, entries, now, op).0)
  {
    LiveIsSound(o, entries, now);
    if Apply(o, tooLarge, entries, now, op).1 == Admission(Admitted, None) {
      AdmitKeepsSound(o, Live(entries, now), op.operationId.value);
    }
  }

  lemma CompleteOperationKeepsSound(o: StoreOptions, tooLarge: Serialized, entries: Entries, now: nat, op: Operation)
    requires Sound(o, entries) && FittingNotice(o, tooLarge) && op.CompleteEnd?
    ensures Sound(o, Apply(o, tooLarge, entries, now, op).0)
  {
    LiveIsSound(o, entries, now);
    var reply := Apply(o, tooLarge, entries, now, op).1;
    if reply.Completed? || reply.ResultTooLarge? {
      CompleteKeepsSound(o, Live(entries, now), op.completedId, reply.stored);
    }
  }

  lemma OtherOperationKeepsSound(o: StoreOptions, tooLarge: Serialized, entries: Entries, now: nat, op: Operation)
    requires Sound(o, entries) && !op.Admit? && !op.CompleteEnd?
    ensures Sound(o, Apply(o, tooLarge, entries, now, op).0)
  {
    hide Sound, Usable, Expired;
    KeptIsSound(o, entries, Apply(o, tooLarge, entries, now, op).0);
  }

  /** Count, bytes and the size of every retained body stay within the limits. */
  lemma OperationsKeepSound(o: StoreOptions, tooLarge: Serialized, entries: Entries, now: nat, op: Operation)
    requires Sound(o, entries) && FittingNotice(o, tooLarge)
    ensures Sound(o, Apply(o, tooLarge, entries, now, op).0)
  {
    hide Sound, Apply, FittingNotice;
    if op.Admit? {
      AdmitOperationKeepsSound(o, tooLarge, entries, now, op);
    } else if op.CompleteEnd? {
      CompleteOperationKeepsSound(o, tooLarge, entries, now, op);
    } else {
      OtherOperationKeepsSound(o, tooLarge, entries, now, op);
    }
  }

  // ----- The class -----

  class MutationResultStore {
    const options: StoreOptions
    const tooLarge: Serialized
    var entries: Entries
    var usedBytes: Int64

    /** `_usedBytes` is the sum of pending reservations and terminal byte counts. */
    ghost predicate Valid()
      reads this
    {
      && FittingNotice(options, tooLarge)
      && Sound(options, entries)
      && usedBytes as int == Used(options, entries)
    }

    constructor (options: StoreOptions, tooLarge: Serialized)
      requires FittingNotice(options, tooLarge)
      ensures Valid() && entries == map[] && this.options == options && this.tooLarge == tooLarge
    {
      this.options := options;
      this.tooLarge := tooLarge;
      entries := map[];
      usedBytes := 0;
      new;
      assert Weights(options, map[]) == map[];
    }

    method RemoveExpiredLocked(now: nat) returns (count: nat)
      requires Valid()
      modifies this
      ensures Valid() && entries == Live(old(entries), now) && count == |old(entries)| - |entries|
    {
      var expired := set id | id in entries && Expired(entries[id], now);
      var todo := expired;
      ghost var before := entries;
      while todo != {}
        invariant todo <= expired
        invariant forall id :: id in entries <==> id in before && (id in todo || id !in expired)
        invariant forall id :: id in entries ==> entries[id] == before[id]
        invariant |entries| == |before| - |expired| + |todo|
        invariant usedBytes as int == Used(options, entries)
      {
        var id :| id in todo;
        UsedWithout(options, entries, id);
        SizeOfRest(entries, id);
        usedBytes := usedBytes - entries[id].result.byteCount as Int64;
        entries := entries - {id};
        todo := todo - {id};
      }
      KeptIsSound(options, before, entries);
      assert entries == Live(before, now);
      count := |expired|;
    }

    method SnapshotLocked() returns (counters: Counters)
      requires Valid()
      ensures counters == CountersOf(options, entries)
    {
      var terminals := set id | id in entries && entries[id].Terminal?;
      PendingAndTerminal(entries);
      counters := Counters(|entries| - |terminals|, |terminals|, usedBytes as int, options.maximumCount as int,
                           options.maximumBytes as int);
    }

    method GetSnapshot(now: nat) returns (counters: Counters)
      requires Valid()
      modifies this
      ensures Valid()
      ensures entries == Live(old(entries), now) && counters == CountersOf(options, entries)
    {
      var _ := RemoveExpiredLocked(now);
      counters := SnapshotLocked();
    }

    method Admit(now: nat, query: bool, operationId: Option<string>)
      returns (state: AdmissionState, terminal: Option<Retained>, counters: Counters)
      requires Valid()
      modifies this
      ensures Valid()
      ensures (entries, Admission(state, terminal)) ==
                Apply(options, tooLarge, old(entries), now, Operation.Admit(query, operationId))
      ensures counters == CountersOf(options, entries)
    {
      state, terminal := AdmitLocked(now, query, operationId);
      counters := SnapshotLocked();
    }

    method AdmitLocked(now: nat, query: bool, operationId: Option<string>)
      returns (state: AdmissionState, terminal: Option<Retained>)
      requires Valid()
      modifies this
      ensures Valid()
      ensures (entries, Admission(state, terminal)) ==
                Apply(options, tooLarge, old(entries), now, Operation.Admit(query, operationId))
    {
      var _ := RemoveExpiredLocked(now);
      if query {
        return QueryNotRetained, None;
      }
      if !Usable(operationId) {
        return InvalidOperationId, None;
      }
      var id := operationId.value;
      if id in entries {
        match entries[id]
        case Pending => return ExistingPending, None;
        case Terminal(result) => return ExistingTerminal, Some(result);
      }
      UsedFitsLong(options, entries);
      if |entries| >= options.maximumCount as int
         || usedBytes + options.reservationBytes as Int64 > options.maximumBytes {
        return Busy, None;
      }
      AdmitKeepsSound(options, entries, id);
      UsedWith(options, entries, id, Pending);
      entries := entries[id := Pending];
      usedBytes := usedBytes + options.reservationBytes as Int64;
      return Admitted, None;
    }

    method Lookup(now: nat, operationId: Option<string>) returns (reply: Reply)
      requires Valid()
      modifies this
      ensures Valid()
      ensures (entries, reply) == Apply(options, tooLarge, old(entries), now, Operation.Lookup(operationId))
    {
      if !Usable(operationId) {
        return Throws;
      }
      var _ := RemoveExpiredLocked(now);
      if operationId.value !in entries {
        return NotFound;
      }
      match entries[operationId.value]
      case Pending => return LookupPending;
      case Terminal(result) => return LookupTerminal(result);
    }

    /** The first locked section of `Complete`; only MayComplete goes on to the serializer. */
    method CompleteBegin(now: nat, operationId: Option<string>) returns (reply: Reply, counters: Counters)
      requires Valid()
      modifies this
      ensures Valid()
      ensures (entries, reply) == Apply(options, tooLarge, old(entries), now, Operation.CompleteBegin(operationId))
      ensures counters == CountersOf(options, entries)
    {
      reply := CompleteBeginLocked(now, operationId);
      counters := SnapshotLocked();
    }

    method CompleteBeginLocked(now: nat, operationId: Option<string>) returns (reply: Reply)
      requires Valid()
      modifies this
      ensures Valid()
      ensures (entries, reply) == Apply(options, tooLarge, old(entries), now, Operation.CompleteBegin(operationId))
    {
      if !Usable(operationId) {
        return Throws;
      }
      var _ := RemoveExpiredLocked(now);
      if operationId.value !in entries {
        return NotFound;
      }
      match entries[operationId.value]
      case Pending => return MayComplete;
      case Terminal(result) => return AlreadyTerminal(result);
    }

    /** The choice of the body, and the second locked section. */
    method CompleteEnd(now: nat, id: string, serialized: Serialized) returns (reply: Reply, counters: Counters)
      requires Valid()
      modifies this
      ensures Valid()
      ensures (entries, reply) == Apply(options, tooLarge, old(entries), now, Operation.CompleteEnd(id, serialized))
      ensures counters == CountersOf(options, entries)
    {
      reply := CompleteEndLocked(now, id, serialized);
      counters := SnapshotLocked();
    }

    method CompleteEndLocked(now: nat, id: string, serialized: Serialized) returns (reply: Reply)
      requires Valid()
      modifies this
      ensures Valid()
      ensures (entries, reply) == Apply(options, tooLarge, old(entries), now, Operation.CompleteEnd(id, serialized))
    {
      var fits := serialized.byteCount <= options.maximumTerminalResultBytes;
      var kept := if fits then serialized else tooLarge;
      var _ := RemoveExpiredLocked(now);
      if id !in entries {
        return NotFound;
      }
      if entries[id].Terminal? {
        return AlreadyTerminal(entries[id].result);
      }
      if now + options.timeToLive as int > MAX_TICKS {
        return Throws;
      }
      var terminal := Retained(kept.body, kept.byteCount, now, now + options.timeToLive as int);
      CompleteKeepsSound(options, entries, id, terminal);
      UsedWith(options, entries, id, Terminal(terminal));
      entries := entries[id := Terminal(terminal)];
      usedBytes := usedBytes - (options.reservationBytes - kept.byteCount) as Int64;
      return if fits then Completed(terminal) else ResultTooLarge(terminal);
    }

    method ReleaseInFlight(now: nat, operationId: Option<string>) returns (reply: Reply)
      requires Valid()
      modifies this
      ensures Valid()
      ensures (entries, reply) == Apply(options, tooLarge, old(entries), now, Operation.ReleaseInFlight(operationId))
    {
      if !Usable(operationId) {
        return Throws;
      }
      var _ := RemoveExpiredLocked(now);
      var id := operationId.value;
      if id !in entries || entries[id].Terminal? {
        return Released(false);
      }
      UsedWithout(options, entries, id);
      KeptIsSound(options, entries, entries - {id});
      entries := entries - {id};
      usedBytes := usedBytes - options.reservationBytes as Int64;
      return Released(true);
    }

    method RemoveEntries(ids: set<string>)
      requires ids <= entries.Keys
      modifies this`entries
      ensures entries == old(entries) - ids
    {
      var todo := ids;
      ghost var before := entries;
      while todo != {}
        invariant todo <= ids
        invariant entries == before - (ids - todo)
      {
        var id :| id in todo;
        entries := entries - {id};
        todo := todo - {id};
      }
    }

    method ReleaseAllInFlight(now: nat) returns (count: nat)
      requires Valid()
      modifies this
      ensures Valid()
      ensures (entries, Removed(count)) == Apply(options, tooLarge, old(entries), now, Operation.ReleaseAllInFlight)
    {
      var _ := RemoveExpiredLocked(now);
      var pending := set id | id in entries && entries[id].Pending?;
      UsedWithoutPending(options, entries, pending);
      PendingFitInt(options, entries, pending);
      KeptIsSound(options, entries, entries - pending);
      TerminalsRemain(entries, pending);
      RemoveEntries(pending);
      var reserved := |pending| as Int64 * options.reservationBytes as Int64;
      usedBytes := usedBytes - reserved;
      count := |pending|;
    }

    method RemoveExpired(now: nat) returns (count: nat)
      requires Valid()
      modifies this
      ensures Valid()
      ensures (entries, Removed(count)) == Apply(options, tooLarge, old(entries), now, Operation.RemoveExpired)
    {
      count := RemoveExpiredLocked(now);
    }
  }

  lemma PendingAndTerminal(entries: Entries)
    ensures |set id | id in entries && entries[id].Pending?| + |set id | id in entries && entries[id].Terminal?|
         == |entries|
  {
    var pending, terminals := set id | id in entries && entries[id].Pending?,
                              set id | id in entries && entries[id].Terminal?;
    assert pending + terminals == entries.Keys && pending !! terminals;
  }

  /** What is reported adds up: every entry is counted once, within the maximum, and the bytes in use cover the
      reservations and stay within theirs. */
  lemma CountersAddUp(o: StoreOptions, entries: Entries)
    requires Sound(o, entries)
    ensures var c := CountersOf(o, entries);
            && c.inFlight + c.terminal == |entries| <= c.maximumCount
            && c.inFlight * o.reservationBytes as int <= c.usedBytes <= c.maximumBytes
  {
    PendingAndTerminal(entries);
    UsedWithoutPending(o, entries, set id | id in entries && entries[id].Pending?);
  }

  lemma SizeOfRest(entries: Entries, id: string)
    requires id in entries
    ensures |entries - {id}| == |entries| - 1
  {
    assert (entries - {id}).Keys == entries.Keys - {id};
  }

  lemma {:induction false} UsedWithoutPending(o: StoreOptions, entries: Entries, pending: set<string>)
    requires pending <= entries.Keys && forall id :: id in pending ==> entries[id].Pending?
    ensures Used(o, entries) == Used(o, entries - pending) + |pending| * o.reservationBytes as int
    decreases |pending|
  {
    if pending == {} {
      assert entries - pending == entries;
    } else {
      var id :| id in pending;
      UsedWithout(o, entries, id);
      UsedWithoutPending(o, entries - {id}, pending - {id});
      assert entries - {id} - (pending - {id}) == entries - pending;
      OneMore(|pending|, o.reservationBytes as int);
    }
  }

  lemma TerminalsRemain(entries: Entries, pending: set<string>)
    requires pending == set id | id in entries && entries[id].Pending?
    ensures entries - pending == map id | id in entries && entries[id].Terminal? :: entries[id]
    ensures |entries - pending| == |entries| - |pending|
  {
    assert (entries - pending).Keys == entries.Keys - pending;
  }

  lemma PendingFitInt(o: StoreOptions, entries: Entries, pending: set<string>)
    requires Sound(o, entries) && pending <= entries.Keys
    ensures |pending| <= 0x7FFF_FFFF
    ensures 0 <= |pending| * o.reservationBytes as int <= 0x7FFF_FFFF * 0x7FFF_FFFF
  {
    SubsetSize(pending, entries.Keys);
    ProductBound(|pending|, o.reservationBytes as int, 0x7FFF_FFFF);
  }

  lemma ProductBound(a: nat, b: nat, bound: nat)
    requires a <= bound && b <= bound
    ensures a * b <= bound * bound
  {
    assert a * b <= a * bound <= bound * bound;
  }

  lemma SubsetSize(small: set<string>, large: set<string>)
    requires small <= large
    ensures |small| <= |large|
  {
    assert large == small + (large - small);
  }

  // ----- Retention over whole runs -----

  /** Any interleaving of operations of any callers, under a clock that never runs backwards. */
  datatype Run = Run(o: StoreOptions, tooLarge: Serialized, states: seq<Entries>, ops: seq<Operation>,
      times: seq<nat>) {
    ghost predicate Valid() {
      && |states| == |ops| + 1 && |times| == |ops|
      && states[0] == map[]
      && FittingNotice(o, tooLarge)
      && (forall i :: 0 <= i < |ops| ==> states[i + 1] == Apply(o, tooLarge, states[i], times[i], ops[i]).0)
      && (forall i, j :: 0 <= i <= j < |times| ==> times[i] <= times[j])
    }

    ghost function Reply(n: nat): Reply
      requires n < |ops| && n < |states| && n < |times|
    {
      Apply(o, tooLarge, states[n], times[n], ops[n]).1
    }

    /** Operation `k` was the completion that retained a body for `id`. */
    ghost predicate Stores(k: nat, id: string) {
      && Valid() && k < |ops|
      && ops[k].CompleteEnd? && ops[k].completedId == id
      && (Reply(k).Completed? || Reply(k).ResultTooLarge?)
    }
  }

  /** At every moment of every run the limits hold. */
  lemma {:induction false} RunsStaySound(run: Run, n: nat)
    requires run.Valid() && n < |run.states|
    ensures Sound(run.o, run.states[n])
  {
    if n == 0 {
      assert Weights(run.o, map[]) == map[];
    } else {
      RunsStaySound(run, n - 1);
      OperationsKeepSound(run.o, run.tooLarge, run.states[n - 1], run.times[n - 1], run.ops[n - 1]);
    }
  }

  // ----- What each reply says -----

  /** An entry that is there: reserved, or retained and not yet expired. */
  predicate IsThere(entries: Entries, id: string, now: nat) {
    id in entries && (entries[id].Terminal? ==> now < entries[id].result.expiresAt)
  }

  /** Whatever is there stays as it is, and nothing comes to be there, apart from one entry. */
  ghost predicate OthersStay(before: Entries, after: Entries, now: nat, id: string) {
    forall other :: other != id ==>
      && (other in after <==> IsThere(before, other, now))
      && (other in after ==> after[other] == before[other])
  }

  lemma BlankIsUnusable(id: string)
    ensures !Usable(None)
    ensures Usable(Some(id)) <==> !forall c :: c in id ==> IsWhiteSpace(c)
  {
    if c :| c in id && !IsWhiteSpace(c) {
      var i :| 0 <= i < |id| && id[i] == c;
    }
  }

  /** An admission: of a query nothing is retained; an operation without an identifier is refused; one that is there
      is answered from its entry; and a new one gets a reservation exactly if there is room for it, in the count and
      in the bytes. */
  lemma AdmissionIsExact(run: Run, n: nat, query: bool, id: Option<string>)
    requires run.Valid() && n < |run.ops| && run.ops[n] == Admit(query, id)
    ensures run.Reply(n).Admission?
    ensures var before, after, now, state := run.states[n], run.states[n + 1], run.times[n], run.Reply(n).state;
            var live := Live(before, now);
            var asked := !query && Usable(id);
            var room := |live| < run.o.maximumCount as int
                        && Used(run.o, live) + run.o.reservationBytes as int <= run.o.maximumBytes as int;
            && (forall other :: other in live <==> IsThere(before, other, now))
            && (state.QueryNotRetained? <==> query)
            && (state.InvalidOperationId? <==> !query && !Usable(id))
            && (state.ExistingPending? <==> asked && IsThere(before, id.value, now) && before[id.value].Pending?)
            && (state.ExistingTerminal? <==> asked && IsThere(before, id.value, now) && before[id.value].Terminal?)
            && (state.Admitted? <==> asked && !IsThere(before, id.value, now) && room)
            && (state.Busy? <==> asked && !IsThere(before, id.value, now) && !room)
            && run.Reply(n).terminal == (if state.ExistingTerminal? then Some(before[id.value].result) else None)
            && (state.Admitted? ==>
                  id.value in after && after[id.value].Pending? && OthersStay(before, after, now, id.value))
            && (!state.Admitted? ==> after == live)
  {
    hide Used, Usable;
  }

  /** A lookup and the first section of a completion tell of an entry what it is, and change nothing. */
  lemma LookupIsExact(run: Run, n: nat, id: Option<string>)
    requires run.Valid() && n < |run.ops| && (run.ops[n] == Lookup(id) || run.ops[n] == CompleteBegin(id))
    ensures var before, now, reply := run.states[n], run.times[n], run.Reply(n);
            var there := Usable(id) && IsThere(before, id.value, now);
            && (reply.Throws? <==> !Usable(id))
            && (reply.NotFound? <==> Usable(id) && !there)
            && (there && before[id.value].Pending? ==>
                  reply == if run.ops[n].Lookup? then LookupPending else MayComplete)
            && (there && before[id.value].Terminal? ==>
                  reply == if run.ops[n].Lookup? then LookupTerminal(before[id.value].result)
                           else AlreadyTerminal(before[id.value].result))
            && run.states[n + 1] == if Usable(id) then Live(before, now) else before
  {
    hide Usable;
  }

  /** The second section of a completion: it completes a reservation that is there, with the body that was handed in
      if that is within the limit and else with the notice, for just the time to live. */
  lemma CompletionIsExact(run: Run, n: nat, id: string, serialized: Serialized)
    requires run.Valid() && n < |run.ops| && run.ops[n] == CompleteEnd(id, serialized)
    ensures var before, after, now, reply := run.states[n], run.states[n + 1], run.times[n], run.Reply(n);
            var fits := serialized.byteCount <= run.o.maximumTerminalResultBytes;
            var kept := if fits then serialized else run.tooLarge;
            var late := now + run.o.timeToLive as int > MAX_TICKS;
            && (!IsThere(before, id, now) ==> reply.NotFound? && after == Live(before, now))
            && (IsThere(before, id, now) && before[id].Terminal? ==>
                  reply == AlreadyTerminal(before[id].result) && after == Live(before, now))
            && (IsThere(before, id, now) && before[id].Pending? && late ==> reply.Throws? && after == Live(before, now))
            && (IsThere(before, id, now) && before[id].Pending? && !late ==>
                  && (reply.Completed? <==> fits) && (reply.ResultTooLarge? <==> !fits)
                  && reply.stored == Retained(kept.body, kept.byteCount, now, now + run.o.timeToLive as int)
                  && id in after && after[id] == Terminal(reply.stored) && OthersStay(before, after, now, id))
  {
  }

  /** A release gives back a reservation, exactly that, and never a result. */
  lemma ReleaseIsExact(run: Run, n: nat, id: Option<string>)
    requires run.Valid() && n < |run.ops| && run.ops[n] == ReleaseInFlight(id)
    ensures var before, after, now, reply := run.states[n], run.states[n + 1], run.times[n], run.Reply(n);
            var reserved := Usable(id) && id.value in before && before[id.value].Pending?;
            && (reply.Throws? <==> !Usable(id))
            && (reply == Released(true) <==> reserved)
            && (reply == Released(false) <==> Usable(id) && !reserved)
            && (reserved ==> id.value !in after && OthersStay(before, after, now, id.value))
            && (Usable(id) && !reserved ==> after == Live(before, now)) && (!Usable(id) ==> after == before)
  {
    hide Usable;
  }

  /** Releasing all leaves exactly the retained results. */
  lemma ReleaseAllIsExact(run: Run, n: nat, id: string)
    requires run.Valid() && n < |run.ops| && (run.ops[n].ReleaseAllInFlight? || run.ops[n].RemoveExpired?)
    ensures id in run.states[n + 1] <==>
              IsThere(run.states[n], id, run.times[n]) && (run.ops[n].RemoveExpired? || run.states[n][id].Terminal?)
    ensures id in run.states[n + 1] ==> run.states[n + 1][id] == run.states[n][id]
    ensures run.Reply(n).Removed?
    ensures run.ops[n].RemoveExpired? ==> run.Reply(n).count == |run.states[n]| - |run.states[n + 1]|
    ensures run.ops[n].ReleaseAllInFlight? ==>
              run.Reply(n).count == |Live(run.states[n], run.times[n])| - |run.states[n + 1]|
  {
  }

  lemma CompletedBytes(run: Run, n: nat, id: string, serialized: Serialized)
    requires run.Valid() && n < |run.ops| && run.ops[n] == CompleteEnd(id, serialized)
    requires run.Reply(n).Completed? || run.Reply(n).ResultTooLarge?
    ensures Used(run.o, run.states[n + 1]) == Used(run.o, Live(run.states[n], run.times[n]))
                                              - run.o.reservationBytes as int + run.Reply(n).stored.byteCount as int
  {
    UsedWith(run.o, Live(run.states[n], run.times[n]), id, Terminal(run.Reply(n).stored));
    hide Used;
  }

  lemma ReleasedBytes(run: Run, n: nat, id: Option<string>)
    requires run.Valid() && n < |run.ops| && run.ops[n] == ReleaseInFlight(id) && run.Reply(n).Released?
    ensures Used(run.o, run.states[n + 1]) == Used(run.o, Live(run.states[n], run.times[n]))
                                              - if run.Reply(n).done then run.o.reservationBytes as int else 0
  {
    var live := Live(run.states[n], run.times[n]);
    if run.Reply(n).done {
      UsedWithout(run.o, live, id.value);
    }
    hide Used;
  }

  /** The bytes in use change by exactly what an operation reserves, gives back, or finds smaller in the end. */
  lemma BytesAreExact(run: Run, n: nat)
    requires run.Valid() && n < |run.ops|
    ensures var used := Used(run.o, Live(run.states[n], run.times[n]));
            var later := Used(run.o, run.states[n + 1]);
            match run.Reply(n)
            case Admission(state, _) => later == used + if state.Admitted? then run.o.reservationBytes as int else 0
            case Completed(stored) => later == used - run.o.reservationBytes as int + stored.byteCount as int
            case ResultTooLarge(stored) => later == used - run.o.reservationBytes as int + stored.byteCount as int
            case Released(done) => later == used - if done then run.o.reservationBytes as int else 0
            case _ => true
    ensures Used(run.o, map[]) == 0
  {
    var live := Live(run.states[n], run.times[n]);
    assert Weights(run.o, map[]) == map[];
    hide Used, Weight, Usable;
    match run.ops[n]
    case Admit(_, id) =>
      if id.Some? {
        UsedWith(run.o, live, id.value, Pending);
      }
    case CompleteEnd(id, serialized) =>
      if run.Reply(n).Completed? || run.Reply(n).ResultTooLarge? {
        CompletedBytes(run, n, id, serialized);
      }
    case ReleaseInFlight(id) =>
      if run.Reply(n).Released? {
        ReleasedBytes(run, n, id);
      }
    case _ =>
  }

  function Retains(reply: Reply): Option<Retained> {
    match reply
    case Admission(_, terminal) => terminal
    case LookupTerminal(found) => Some(found)
    case AlreadyTerminal(existing) => Some(existing)
    case Completed(stored) => Some(stored)
    case ResultTooLarge(stored) => Some(stored)
    case _ => None
  }

  /** No entry was completed later than `now`. */
  predicate CompletedBy(entries: Entries, now: nat) {
    forall id :: id in entries && entries[id].Terminal? ==> entries[id].result.completedAt <= now
  }

  lemma {:induction false} CompletionsAreInThePast(run: Run, n: nat)
    requires run.Valid() && n < |run.ops|
    ensures CompletedBy(run.states[n], run.times[n])
  {
    if n > 0 {
      CompletionsAreInThePast(run, n - 1);
    }
  }

  lemma AnswerIsWithinItsWindow(o: StoreOptions, tooLarge: Serialized, entries: Entries, now: nat, op: Operation)
    requires Sound(o, entries) && FittingNotice(o, tooLarge) && CompletedBy(entries, now)
    requires Retains(Apply(o, tooLarge, entries, now, op).1).Some?
    ensures var result := Retains(Apply(o, tooLarge, entries, now, op).1).value;
            && result.expiresAt == result.completedAt + o.timeToLive as int
            && result.completedAt <= now < result.expiresAt
            && result.byteCount <= o.maximumTerminalResultBytes
  {
    hide Used, IsWhiteSpace;
  }

  /** Every result that any operation returns is within its retention window: completed, and not
      yet `TimeToLive` old.  In particular nothing is returned at its expiry or after. */
  lemma AnswersAreWithinTheirWindow(run: Run, n: nat)
    requires run.Valid() && n < |run.ops|
    requires Retains(run.Reply(n)).Some?
    ensures var result := Retains(run.Reply(n)).value;
            && result.expiresAt == result.completedAt + run.o.timeToLive as int
            && result.completedAt <= run.times[n] < result.expiresAt
            && result.byteCount <= run.o.maximumTerminalResultBytes
  {
    RunsStaySound(run, n);
    CompletionsAreInThePast(run, n);
    AnswerIsWithinItsWindow(run.o, run.tooLarge, run.states[n], run.times[n], run.ops[n]);
  }

  /** What any operation answers about a retained `id`, and that it leaves the result in place. */
  lemma RetainedAnswer(o: StoreOptions, tooLarge: Serialized, entries: Entries, now: nat, op: Operation, id: string,
                       result: Retained)
    requires id in entries && entries[id] == Terminal(result) && now < result.expiresAt
    ensures var (next, reply) := Apply(o, tooLarge, entries, now, op);
            && id in next && next[id] == Terminal(result)
            && (op == Admit(false, Some(id)) && Usable(Some(id)) ==> reply == Admission(ExistingTerminal, Some(result)))
            && (op == Lookup(Some(id)) && Usable(Some(id)) ==> reply == LookupTerminal(result))
            && (op == CompleteBegin(Some(id)) && Usable(Some(id)) ==> reply == AlreadyTerminal(result))
            && (op.CompleteEnd? && op.completedId == id ==> reply == AlreadyTerminal(result))
            && (op == ReleaseInFlight(Some(id)) && Usable(Some(id)) ==> reply == Released(false))
  {
  }

  lemma {:induction false} FirstTerminalBodyIsKept(run: Run, k: nat, n: nat, id: string)
    requires run.Stores(k, id) && k < n < |run.states|
    requires n - 1 > k ==> run.times[n - 1] < run.Reply(k).stored.expiresAt
    ensures id in run.states[n] && run.states[n][id] == Terminal(run.Reply(k).stored)
  {
    if n - 1 > k {
      FirstTerminalBodyIsKept(run, k, n - 1, id);
      RetainedAnswer(run.o, run.tooLarge, run.states[n - 1], run.times[n - 1], run.ops[n - 1], id, run.Reply(k).stored);
    }
  }

  /** The first terminal body that `Complete` retains for an operation, the one handed in if it is within the
      limit and else the notice, is what every mutation admission, every lookup and every completion of that
      operation returns until exactly `TimeToLive` after it was stored, whatever was done in between and however
      the critical sections of concurrent completions interleave; and no release removes it. */
  lemma FirstTerminalBodyIsTheAnswer(run: Run, k: nat, n: nat, id: string)
    requires run.Stores(k, id) && k < n < |run.ops| && Usable(Some(id))
    ensures var result := run.Reply(k).stored;
            var reply := run.Reply(n);
            && (if run.ops[k].serialized.byteCount <= run.o.maximumTerminalResultBytes
                then run.Reply(k).Completed? && Serialized(result.body, result.byteCount) == run.ops[k].serialized
                else run.Reply(k).ResultTooLarge? && Serialized(result.body, result.byteCount) == run.tooLarge)
            && result.completedAt == run.times[k]
            && result.expiresAt == run.times[k] + run.o.timeToLive as int
            && (run.times[n] < result.expiresAt ==>
                  && (run.ops[n] == Admit(false, Some(id)) ==> reply == Admission(ExistingTerminal, Some(result)))
                  && (run.ops[n] == Lookup(Some(id)) ==> reply == LookupTerminal(result))
                  && (run.ops[n] == CompleteBegin(Some(id)) ==> reply == AlreadyTerminal(result))
                  && (run.ops[n].CompleteEnd? && run.ops[n].completedId == id ==> reply == AlreadyTerminal(result))
                  && (run.ops[n] == ReleaseInFlight(Some(id)) ==> reply == Released(false)))
            && (run.times[n] >= result.expiresAt ==> Retains(reply) != Some(result))
  {
    var result := run.Reply(k).stored;
    CompletionIsExact(run, k, id, run.ops[k].serialized);
    if run.times[n] < result.expiresAt {
      FirstTerminalBodyIsKept(run, k, n, id);
      RetainedAnswer(run.o, run.tooLarge, run.states[n], run.times[n], run.ops[n], id, result);
    } else if Retains(run.Reply(n)) == Some(result) {
      AnswersAreWithinTheirWindow(run, n);
    }
  }

  /** The operations that end a reservation: its completion, its release, or the release of all. */
  predicate EndsReservation(op: Operation, id: string) {
    || (op.CompleteEnd? && op.completedId == id)
    || op == ReleaseInFlight(Some(id))
    || op.ReleaseAllInFlight?
  }

  /** A reservation never expires, however much time passes. */
  lemma {:induction false} ReservationsNeverExpire(run: Run, m: nat, n: nat, id: string)
    requires run.Valid() && m <= n < |run.states|
    requires id in run.states[m] && run.states[m][id].Pending?
    requires forall i :: m <= i < n ==> !EndsReservation(run.ops[i], id)
    ensures id in run.states[n] && run.states[n][id].Pending?
  {
    if m < n {
      ReservationsNeverExpire(run, m, n - 1, id);
      assert !EndsReservation(run.ops[n - 1], id);
    }
  }
}
