/** The writer and recovery lock files of `RhinoScriptStore.transaction`.

    Any number of processes, on any number of hosts that share one directory, run transactions.
    Every file-system call and every liveness question is one step, reading a file even two, so calls
    of different processes interleave freely; any call may fail, and a process may die between any
    two of its calls.

    `writer.lock` is a directory entry that names an inode.  A process reads and writes through the
    descriptor it opened, that is the inode, whether or not the entry still names it. */
module WriterLock {
  import opened Wrappers

  /** What a process writes into `writer.lock`. */
  datatype Owner = Owner(host: string, pid: nat, claim: nat)

  /** Blank stands for every content `JSON.parse` refuses: nothing written yet, or half of it. */
  datatype Content = Blank | Text(owner: Owner)

  datatype Inode = Inode(creator: nat, content: Content)

  /** Where a process stands in `transaction`; each name says what its next call will be. */
  datatype Pc =
    | Idle
    | OpenOwner(claim: nat)
    | ReadOwner(claim: nat, inode: nat)
    | AskOwner(claim: nat, owner: Owner)
    | CreateGuard(claim: nat, owner: Owner)
    | WriteGuard(claim: nat, owner: Owner)
    | SyncGuard(claim: nat, owner: Owner)
    | OpenCurrent(claim: nat, owner: Owner)
    | ReadCurrent(claim: nat, owner: Owner, inode: nat)
    | AskCurrent(claim: nat, owner: Owner, current: Owner)
    | UnlinkStale(claim: nat, owner: Owner)
    | Recreate(claim: nat)
    | CloseGuard(claim: nat, got: Option<nat>)
    | DropGuard(claim: nat, got: Option<nat>)
    | WriteClaim(claim: nat, fd: nat)
    | SyncClaim(claim: nat, fd: nat)
    | LookForGuard(claim: nat, fd: nat)
    | Inside(claim: nat, fd: nat)
    | CloseOwn(claim: nat, fd: nat)
    | OpenOwn(claim: nat, fd: nat)
    | ReadOwn(claim: nat, fd: nat, inode: nat)
    | UnlinkOwn(claim: nat, fd: nat)

  /** A process of some host.  Its number in the list is never reused; its `pid` may be. */
  datatype Process = Process(host: string, pid: nat, alive: bool, pc: Pc)

  /** `claimants` is a history variable: the process that drew each claim.  Claims and inode
      numbers are positions in the two lists, hence never drawn twice. */
  datatype State = State(
    processes: seq<Process>,
    claimants: seq<nat>,
    inodes: seq<Inode>,
    writerLock: Option<nat>,
    recoveryLock: Option<nat>)

  /** `dead` is the answer of `provenDead`; Fault is a call that throws, where `landed` says whether a
      claim has reached the file all the same. */
  datatype Event =
    | Spawn(host: string, pid: nat)
    | Crash(p: nat)
    | Begin(p: nat)
    | OpenLockFile(p: nat)
    | ReadLockFile(p: nat)
    | Ask(p: nat, dead: bool)
    | Guard(p: nat)
    | NoteGuard(p: nat)
    | RemoveStale(p: nat)
    | OpenAgain(p: nat)
    | CloseFile(p: nat)
    | Unguard(p: nat)
    | Write(p: nat)
    | Sync(p: nat)
    | Enter(p: nat)
    | Leave(p: nat)
    | Release(p: nat)
    | Fault(p: nat, landed: bool)

  const NO_PROCESSES := State([], [], [], None, None)

  // ----- The steps -----

  predicate Runs(s: State, p: nat) {
    p < |s.processes| && s.processes[p].alive
  }

  function At(s: State, p: nat): Pc
    requires p < |s.processes|
  {
    s.processes[p].pc
  }

  function Goto(s: State, p: nat, pc: Pc): State
    requires p < |s.processes|
  {
    s.(processes := s.processes[p := s.processes[p].(pc := pc)])
  }

  function Identity(s: State, p: nat, claim: nat): Owner
    requires p < |s.processes|
  {
    Owner(s.processes[p].host, s.processes[p].pid, claim)
  }

  /** Nobody alive on the host carries the number. */
  predicate NobodyHas(s: State, host: string, pid: nat) {
    forall q :: 0 <= q < |s.processes| && s.processes[q].host == host && s.processes[q].pid == pid
                ==> !s.processes[q].alive
  }

  /** `provenDead` asks the host it runs on.  It may fail to notice a death, but it never calls a
      number dead that a live process of that host carries. */
  predicate SoundAnswer(s: State, p: nat, dead: bool)
    requires p < |s.processes|
  {
    dead ==>
      match At(s, p)
      case AskOwner(_, owner) => NobodyHas(s, s.processes[p].host, owner.pid)
      case AskCurrent(_, _, current) => NobodyHas(s, s.processes[p].host, current.pid)
      case _ => false
  }

  /** What a process that opened the inode would parse. */
  function Parsed(s: State, inode: nat): Option<Owner> {
    if inode < |s.inodes| && s.inodes[inode].content.Text? then Some(s.inodes[inode].content.owner) else None
  }

  function ReadLock(s: State): Option<Owner> {
    if s.writerLock.Some? then Parsed(s, s.writerLock.value) else None
  }

  /** `openSync(lockPath, "wx")` when the entry is free. */
  function CreateLock(s: State, p: nat): State {
    s.(inodes := s.inodes + [Inode(p, Blank)], writerLock := Some(|s.inodes|))
  }

  function WriteInode(s: State, p: nat, fd: nat, claim: nat): State
    requires p < |s.processes|
  {
    if fd < |s.inodes| then
      s.(inodes := s.inodes[fd := s.inodes[fd].(content := Text(Identity(s, p, claim)))])
    else s
  }

  predicate Enabled(s: State, e: Event) {
    match e
    // the operating system gives no number twice among live processes
    case Spawn(host, pid) => NobodyHas(s, host, pid)
    case Crash(p) => Runs(s, p)
    case Begin(p) => Runs(s, p) && At(s, p).Idle?
    case OpenLockFile(p) => Runs(s, p) && (At(s, p).OpenOwner? || At(s, p).OpenCurrent? || At(s, p).OpenOwn?)
    case ReadLockFile(p) => Runs(s, p) && (At(s, p).ReadOwner? || At(s, p).ReadCurrent? || At(s, p).ReadOwn?)
    case Ask(p, dead) => Runs(s, p) && (At(s, p).AskOwner? || At(s, p).AskCurrent?) && SoundAnswer(s, p, dead)
    case Guard(p) => Runs(s, p) && At(s, p).CreateGuard?
    case NoteGuard(p) => Runs(s, p) && (At(s, p).WriteGuard? || At(s, p).SyncGuard?)
    case RemoveStale(p) => Runs(s, p) && At(s, p).UnlinkStale?
    case OpenAgain(p) => Runs(s, p) && At(s, p).Recreate?
    case CloseFile(p) => Runs(s, p) && (At(s, p).CloseGuard? || At(s, p).CloseOwn?)
    case Unguard(p) => Runs(s, p) && At(s, p).DropGuard?
    case Write(p) => Runs(s, p) && At(s, p).WriteClaim?
    case Sync(p) => Runs(s, p) && At(s, p).SyncClaim?
    case Enter(p) => Runs(s, p) && At(s, p).LookForGuard?
    case Leave(p) => Runs(s, p) && At(s, p).Inside?
    case Release(p) => Runs(s, p) && At(s, p).UnlinkOwn?
    // `existsSync` and `provenDead` do not throw
    case Fault(p, landed) =>
      && Runs(s, p) && !At(s, p).Idle? && !At(s, p).LookForGuard? && !At(s, p).Inside?
      && !At(s, p).AskOwner? && !At(s, p).AskCurrent?
      && (landed ==> At(s, p).WriteClaim?)
  }

  function Apply(s: State, e: Event): State
    requires Enabled(s, e)
  {
    match e
    case Spawn(host, pid) => s.(processes := s.processes + [Process(host, pid, true, Idle)])
    case Crash(p) => s.(processes := s.processes[p := s.processes[p].(alive := false)])
    case Begin(p) =>
      var claim := |s.claimants|;
      var drawn := s.(claimants := s.claimants + [p]);
      if s.writerLock.None? then Goto(CreateLock(drawn, p), p, WriteClaim(claim, |s.inodes|))
      else Goto(drawn, p, OpenOwner(claim))
    case OpenLockFile(p) => Goto(s, p, AfterOpen(s, At(s, p)))
    case ReadLockFile(p) => Goto(s, p, AfterRead(s, s.processes[p].host, At(s, p)))
    case Ask(p, dead) =>
      (match At(s, p)
       case AskOwner(claim, owner) => Goto(s, p, if dead then CreateGuard(claim, owner) else Idle)
       case AskCurrent(claim, owner, _) =>
         Goto(s, p, if dead then UnlinkStale(claim, owner) else CloseGuard(claim, None))
       case _ => s)
    case Guard(p) =>
      if s.recoveryLock.None? then Goto(s.(recoveryLock := Some(p)), p, WriteGuard(At(s, p).claim, At(s, p).owner))
      else Goto(s, p, Idle)
    case NoteGuard(p) =>
      var pc := At(s, p);
      Goto(s, p, if pc.WriteGuard? then SyncGuard(pc.claim, pc.owner) else OpenCurrent(pc.claim, pc.owner))
    case RemoveStale(p) =>
      if s.writerLock.Some? then Goto(s.(writerLock := None), p, Recreate(At(s, p).claim))
      else Goto(s, p, CloseGuard(At(s, p).claim, None))
    case OpenAgain(p) =>
      if s.writerLock.None? then Goto(CreateLock(s, p), p, CloseGuard(At(s, p).claim, Some(|s.inodes|)))
      else Goto(s, p, CloseGuard(At(s, p).claim, None))
    case CloseFile(p) =>
      var pc := At(s, p);
      Goto(s, p, if pc.CloseGuard? then DropGuard(pc.claim, pc.got) else OpenOwn(pc.claim, pc.fd))
    case Unguard(p) =>
      var pc := At(s, p);
      Goto(s.(recoveryLock := None), p, if pc.got.Some? then WriteClaim(pc.claim, pc.got.value) else Idle)
    case Write(p) =>
      Goto(WriteInode(s, p, At(s, p).fd, At(s, p).claim), p, SyncClaim(At(s, p).claim, At(s, p).fd))
    case Sync(p) => Goto(s, p, LookForGuard(At(s, p).claim, At(s, p).fd))
    case Enter(p) =>
      var pc := At(s, p);
      Goto(s, p, if s.recoveryLock.Some? then CloseOwn(pc.claim, pc.fd) else Inside(pc.claim, pc.fd))
    case Leave(p) => Goto(s, p, CloseOwn(At(s, p).claim, At(s, p).fd))
    case Release(p) => Goto(s.(writerLock := None), p, Idle)
    case Fault(p, landed) =>
      Goto(if landed then WriteInode(s, p, At(s, p).fd, At(s, p).claim) else s, p, AfterFault(At(s, p)))
  }

  /** `readFileSync` opens the file first. */
  function AfterOpen(s: State, pc: Pc): Pc
    requires pc.OpenOwner? || pc.OpenCurrent? || pc.OpenOwn?
  {
    match pc
    case OpenOwner(claim) => if s.writerLock.Some? then ReadOwner(claim, s.writerLock.value) else Idle
    case OpenCurrent(claim, owner) =>
      if s.writerLock.Some? then ReadCurrent(claim, owner, s.writerLock.value) else CloseGuard(claim, None)
    case OpenOwn(claim, fd) => if s.writerLock.Some? then ReadOwn(claim, fd, s.writerLock.value) else Idle
  }

  /** What was read decides what is asked next. */
  function AfterRead(s: State, host: string, pc: Pc): Pc
    requires pc.ReadOwner? || pc.ReadCurrent? || pc.ReadOwn?
  {
    match pc
    case ReadOwner(claim, inode) =>
      var owner := Parsed(s, inode);
      if owner.Some? && owner.value.host == host && owner.value.pid > 0 then AskOwner(claim, owner.value) else Idle
    case ReadCurrent(claim, owner, inode) =>
      var current := Parsed(s, inode);
      if current.Some? && current.value.claim == owner.claim then AskCurrent(claim, owner, current.value)
      else CloseGuard(claim, None)
    case ReadOwn(claim, fd, inode) =>
      var own := Parsed(s, inode);
      if own.Some? && own.value.claim == claim then UnlinkOwn(claim, fd) else Idle
  }

  /** Where an exception leads: out, or into the `finally` blocks. */
  function AfterFault(pc: Pc): Pc {
    match pc
    case WriteGuard(claim, _) => CloseGuard(claim, None)
    case SyncGuard(claim, _) => CloseGuard(claim, None)
    case OpenCurrent(claim, _) => CloseGuard(claim, None)
    case ReadCurrent(claim, _, _) => CloseGuard(claim, None)
    case UnlinkStale(claim, _) => CloseGuard(claim, None)
    case Recreate(claim) => CloseGuard(claim, None)
    case WriteClaim(claim, fd) => CloseOwn(claim, fd)
    case SyncClaim(claim, fd) => CloseOwn(claim, fd)
    case _ => Idle
  }

  /** A run: every state follows from the one before by an enabled event. */
  ghost predicate IsRun(states: seq<State>, events: seq<Event>) {
    && |states| == |events| + 1
    && states[0] == NO_PROCESSES
    && forall i :: 0 <= i < |events| ==> Next(states[i], events[i], states[i + 1])
  }

  ghost predicate Next(s: State, e: Event, s': State) {
    Enabled(s, e) && s' == Apply(s, e)
  }

  // ----- The invariant -----

  /** The file of a process that has created `writer.lock` and not yet given it up. */
  function OpenLock(pc: Pc): Option<nat> {
    match pc
    case CloseGuard(_, got) => got
    case DropGuard(_, got) => got
    case WriteClaim(_, fd) => Some(fd)
    case SyncClaim(_, fd) => Some(fd)
    case LookForGuard(_, fd) => Some(fd)
    case Inside(_, fd) => Some(fd)
    case CloseOwn(_, fd) => Some(fd)
    case OpenOwn(_, fd) => Some(fd)
    case ReadOwn(_, fd, _) => Some(fd)
    case UnlinkOwn(_, fd) => Some(fd)
    case _ => None
  }

  predicate HoldsGuard(pc: Pc) {
    || pc.WriteGuard? || pc.SyncGuard? || pc.OpenCurrent? || pc.ReadCurrent? || pc.AskCurrent?
    || pc.UnlinkStale? || pc.Recreate? || pc.CloseGuard? || pc.DropGuard?
  }

  function PcClaim(pc: Pc): Option<nat> {
    if pc.Idle? then None else Some(pc.claim)
  }

  function SeenOwner(pc: Pc): Option<Owner> {
    match pc
    case AskOwner(_, owner) => Some(owner)
    case CreateGuard(_, owner) => Some(owner)
    case WriteGuard(_, owner) => Some(owner)
    case SyncGuard(_, owner) => Some(owner)
    case OpenCurrent(_, owner) => Some(owner)
    case ReadCurrent(_, owner, _) => Some(owner)
    case AskCurrent(_, owner, _) => Some(owner)
    case UnlinkStale(_, owner) => Some(owner)
    case _ => None
  }

  /** An owner record tells the truth about the process that drew its claim. */
  predicate Truthful(s: State, owner: Owner) {
    && owner.claim < |s.claimants|
    && s.claimants[owner.claim] < |s.processes|
    && owner == Identity(s, s.claimants[owner.claim], owner.claim)
  }

  /** The process that wrote the record is dead. */
  predicate WriterDied(s: State, owner: Owner) {
    Truthful(s, owner) && !s.processes[s.claimants[owner.claim]].alive
  }

  predicate GoodInode(s: State, inode: Inode) {
    && inode.creator < |s.processes|
    && (inode.content.Text? ==>
          Truthful(s, inode.content.owner) && s.claimants[inode.content.owner.claim] == inode.creator)
  }

  predicate ClaimWritten(s: State, p: nat, fd: nat, claim: nat)
    requires p < |s.processes| && fd < |s.inodes|
  {
    s.inodes[fd].content == Text(Identity(s, p, claim))
  }

  /** The record of a dead owner, once opened under the guard, is that of the lock file. */
  predicate StillThere(s: State, inode: nat, owner: Owner) {
    && inode < |s.inodes|
    && (Parsed(s, inode).Some? && Parsed(s, inode).value.claim == owner.claim ==> s.writerLock == Some(inode))
  }

  predicate LockIs(s: State, owner: Owner) {
    ReadLock(s) == Some(owner)
  }

  /** What holds of one live process. */
  predicate GoodProcess(s: State, p: nat)
    requires p < |s.processes|
  {
    var pc := At(s, p);
    && (PcClaim(pc).Some? ==> PcClaim(pc).value < |s.claimants| && s.claimants[PcClaim(pc).value] == p)
    && GoodSight(s, p, pc)
    && (HoldsGuard(pc) ==> s.recoveryLock == Some(p))
    && (OpenLock(pc).Some? ==> GoodLock(s, p, pc, OpenLock(pc).value))
  }

  /** What a process has seen of the lock file. */
  predicate GoodSight(s: State, p: nat, pc: Pc)
    requires p < |s.processes|
  {
    && (SeenOwner(pc).Some? ==> Truthful(s, SeenOwner(pc).value) && SeenOwner(pc).value.host == s.processes[p].host)
    && (SeenOwner(pc).Some? && !pc.AskOwner? ==> WriterDied(s, SeenOwner(pc).value))
    && (pc.ReadOwner? ==> pc.inode < |s.inodes|)
    && (pc.ReadCurrent? ==> StillThere(s, pc.inode, pc.owner))
    && (pc.AskCurrent? ==> LockIs(s, pc.owner) && pc.current == pc.owner)
    && (pc.UnlinkStale? ==> LockIs(s, pc.owner))
  }

  /** The lock that a process has is its own, and says so once it says anything. */
  predicate GoodLock(s: State, p: nat, pc: Pc, fd: nat)
    requires p < |s.processes| && !pc.Idle?
  {
    && s.writerLock == Some(fd) && fd < |s.inodes| && s.inodes[fd].creator == p
    && (pc.SyncClaim? || pc.LookForGuard? || pc.Inside? || pc.UnlinkOwn? ==> ClaimWritten(s, p, fd, pc.claim))
    && (s.inodes[fd].content.Text? ==> ClaimWritten(s, p, fd, pc.claim))
    && (pc.ReadOwn? ==> pc.inode == fd)
  }

  ghost predicate Invariant(s: State) {
    && (s.writerLock.Some? ==> s.writerLock.value < |s.inodes|)
    && (forall c :: 0 <= c < |s.claimants| ==> s.claimants[c] < |s.processes|)
    && (forall i :: 0 <= i < |s.inodes| ==> GoodInode(s, s.inodes[i]))
    && (forall p :: 0 <= p < |s.processes| && s.processes[p].alive ==> GoodProcess(s, p))
  }

  // ----- The invariant is kept, one kind of step at a time -----

  /** A step that only moves `p` on is safe when `p` is fit for the place it moves to. */
  lemma MoveKeeps(s: State, p: nat, pc: Pc)
    requires Invariant(s) && Runs(s, p) && GoodProcess(Goto(s, p, pc), p)
    ensures Invariant(Goto(s, p, pc))
  {
    var s' := Goto(s, p, pc);
    forall i | 0 <= i < |s'.inodes| ensures GoodInode(s', s'.inodes[i]) {
      assert GoodInode(s, s.inodes[i]);
    }
    forall q | 0 <= q < |s'.processes| && s'.processes[q].alive && q != p ensures GoodProcess(s', q) {
      assert GoodProcess(s, q);
    }
  }

  lemma GuardChangeKeeps(s: State, p: nat, guard: Option<nat>, pc: Pc)
    requires Invariant(s) && Runs(s, p)
    requires s.recoveryLock.None? || s.recoveryLock == Some(p)
    requires GoodProcess(Goto(s.(recoveryLock := guard), p, pc), p)
    ensures Invariant(Goto(s.(recoveryLock := guard), p, pc))
  {
    var s' := Goto(s.(recoveryLock := guard), p, pc);
    forall i | 0 <= i < |s'.inodes| ensures GoodInode(s', s'.inodes[i]) {
      assert GoodInode(s, s.inodes[i]);
    }
    forall q | 0 <= q < |s'.processes| && s'.processes[q].alive && q != p ensures GoodProcess(s', q) {
      assert GoodProcess(s, q);
    }
  }

  /** The lock file that `p` may unlink names no other live process, and nobody else is about to. */
  lemma OthersDoNotMind(s: State, p: nat, q: nat)
    requires Invariant(s) && Runs(s, p) && Runs(s, q) && q != p && s.writerLock.Some?
    requires At(s, p).UnlinkStale? || At(s, p).UnlinkOwn?
    ensures OpenLock(At(s, q)).None? && !At(s, q).AskCurrent? && !At(s, q).UnlinkStale?
    ensures At(s, q).ReadCurrent? ==> !(Parsed(s, At(s, q).inode).Some? &&
                                        Parsed(s, At(s, q).inode).value.claim == At(s, q).owner.claim)
  {
    assert GoodProcess(s, p) && GoodProcess(s, q);
    assert GoodInode(s, s.inodes[s.writerLock.value]);
  }

  lemma UnlinkKeeps(s: State, p: nat, pc: Pc)
    requires Invariant(s) && Runs(s, p) && s.writerLock.Some?
    requires At(s, p).UnlinkStale? || At(s, p).UnlinkOwn?
    requires GoodProcess(Goto(s.(writerLock := None), p, pc), p)
    ensures Invariant(Goto(s.(writerLock := None), p, pc))
  {
    var s' := Goto(s.(writerLock := None), p, pc);
    forall i | 0 <= i < |s'.inodes| ensures GoodInode(s', s'.inodes[i]) {
      assert GoodInode(s, s.inodes[i]);
    }
    forall q | 0 <= q < |s'.processes| && s'.processes[q].alive && q != p ensures GoodProcess(s', q) {
      assert GoodProcess(s, q);
      OthersDoNotMind(s, p, q);
    }
  }

  lemma CreateKeeps(s: State, p: nat, pc: Pc)
    requires Invariant(s) && Runs(s, p) && s.writerLock.None?
    requires GoodProcess(Goto(CreateLock(s, p), p, pc), p)
    ensures Invariant(Goto(CreateLock(s, p), p, pc))
  {
    var s' := Goto(CreateLock(s, p), p, pc);
    forall i | 0 <= i < |s'.inodes| ensures GoodInode(s', s'.inodes[i]) {
      assert i < |s.inodes| ==> GoodInode(s, s.inodes[i]);
    }
    forall q | 0 <= q < |s'.processes| && s'.processes[q].alive && q != p ensures GoodProcess(s', q) {
      assert GoodProcess(s, q);
    }
  }

  lemma DrawClaimKeeps(s: State, p: nat)
    requires Invariant(s) && Runs(s, p)
    ensures Invariant(s.(claimants := s.claimants + [p]))
  {
    var s' := s.(claimants := s.claimants + [p]);
    forall i | 0 <= i < |s'.inodes| ensures GoodInode(s', s'.inodes[i]) {
      assert GoodInode(s, s.inodes[i]);
    }
    forall q | 0 <= q < |s'.processes| && s'.processes[q].alive ensures GoodProcess(s', q) {
      assert GoodProcess(s, q);
    }
  }

  /** Writing a claim: into the lock file that the process has created. */
  lemma WriteKeeps(s: State, p: nat, pc: Pc)
    requires Invariant(s) && Runs(s, p) && At(s, p).WriteClaim?
    requires pc == SyncClaim(At(s, p).claim, At(s, p).fd) || pc == CloseOwn(At(s, p).claim, At(s, p).fd)
    ensures Invariant(Goto(WriteInode(s, p, At(s, p).fd, At(s, p).claim), p, pc))
  {
    var s' := Goto(WriteInode(s, p, At(s, p).fd, At(s, p).claim), p, pc);
    assert GoodProcess(s, p);
    forall i | 0 <= i < |s'.inodes| ensures GoodInode(s', s'.inodes[i]) {
      assert GoodInode(s, s.inodes[i]);
    }
    forall q | 0 <= q < |s'.processes| && s'.processes[q].alive ensures GoodProcess(s', q) {
      assert GoodProcess(s, q);
    }
  }

  lemma SpawnKeeps(s: State, host: string, pid: nat)
    requires Invariant(s) && Enabled(s, Spawn(host, pid))
    ensures Invariant(Apply(s, Spawn(host, pid)))
  {
    var s' := Apply(s, Spawn(host, pid));
    forall i | 0 <= i < |s'.inodes| ensures GoodInode(s', s'.inodes[i]) {
      assert GoodInode(s, s.inodes[i]);
    }
    forall q | 0 <= q < |s'.processes| && s'.processes[q].alive ensures GoodProcess(s', q) {
      assert q < |s.processes| ==> GoodProcess(s, q);
    }
  }

  lemma CrashKeeps(s: State, p: nat)
    requires Invariant(s) && Enabled(s, Crash(p))
    ensures Invariant(Apply(s, Crash(p)))
  {
    var s' := Apply(s, Crash(p));
    forall i | 0 <= i < |s'.inodes| ensures GoodInode(s', s'.inodes[i]) {
      assert GoodInode(s, s.inodes[i]);
    }
    forall q | 0 <= q < |s'.processes| && s'.processes[q].alive ensures GoodProcess(s', q) {
      assert GoodProcess(s, q);
    }
  }

  lemma BeginKeeps(s: State, p: nat)
    requires Invariant(s) && Enabled(s, Begin(p))
    ensures Invariant(Apply(s, Begin(p)))
  {
    assert GoodProcess(s, p);
    var drawn := s.(claimants := s.claimants + [p]);
    DrawClaimKeeps(s, p);
    if s.writerLock.None? {
      CreateKeeps(drawn, p, WriteClaim(|s.claimants|, |s.inodes|));
    } else {
      MoveKeeps(drawn, p, OpenOwner(|s.claimants|));
    }
  }

  lemma OpenKeeps(s: State, p: nat)
    requires Invariant(s) && Enabled(s, OpenLockFile(p))
    ensures Invariant(Apply(s, OpenLockFile(p)))
  {
    assert GoodProcess(s, p);
    MoveKeeps(s, p, AfterOpen(s, At(s, p)));
  }

  lemma ReadFits(s: State, p: nat)
    requires Enabled(s, ReadLockFile(p)) && GoodProcess(s, p)
    requires At(s, p).inode < |s.inodes| ==> GoodInode(s, s.inodes[At(s, p).inode])
    ensures var after := Apply(s, ReadLockFile(p));
            after == Goto(s, p, AfterRead(s, s.processes[p].host, At(s, p))) && GoodProcess(after, p)
  {
    match At(s, p)
    case ReadOwner(_, _) =>
    case ReadCurrent(_, _, _) =>
    case _ =>
  }

  lemma ReadKeeps(s: State, p: nat)
    requires Invariant(s) && Enabled(s, ReadLockFile(p))
    ensures Invariant(Apply(s, ReadLockFile(p)))
  {
    assert GoodProcess(s, p);
    var pc := At(s, p);
    if pc.inode < |s.inodes| {
      assert GoodInode(s, s.inodes[pc.inode]);
    }
    ReadFits(s, p);
    hide Apply, GoodProcess, Invariant;
    MoveKeeps(s, p, AfterRead(s, s.processes[p].host, pc));
  }

  /** A host's answer about a number is about the process that wrote it there. */
  lemma AnswerFindsTheDead(s: State, p: nat, dead: bool)
    requires Invariant(s) && Enabled(s, Ask(p, dead)) && dead
    ensures WriterDied(s, At(s, p).owner)
  {
    assert GoodProcess(s, p);
  }

  lemma AskKeeps(s: State, p: nat, dead: bool)
    requires Invariant(s) && Enabled(s, Ask(p, dead))
    ensures Invariant(Apply(s, Ask(p, dead)))
  {
    assert GoodProcess(s, p);
    if dead {
      AnswerFindsTheDead(s, p, dead);
    }
    assert GoodProcess(Apply(s, Ask(p, dead)), p);
    hide GoodProcess, Invariant;
    MoveKeeps(s, p, At(Apply(s, Ask(p, dead)), p));
  }

  lemma GuardKeeps(s: State, p: nat)
    requires Invariant(s) && Enabled(s, Guard(p))
    ensures Invariant(Apply(s, Guard(p)))
  {
    assert GoodProcess(s, p);
    if s.recoveryLock.None? {
      GuardChangeKeeps(s, p, Some(p), WriteGuard(At(s, p).claim, At(s, p).owner));
    } else {
      MoveKeeps(s, p, Idle);
    }
  }

  /** Steps that move their process on and change nothing else. */
  lemma PlainMoveFits(s: State, e: Event)
    requires Enabled(s, e) && (e.NoteGuard? || e.CloseFile? || e.Sync? || e.Enter? || e.Leave?)
    requires GoodProcess(s, e.p)
    ensures Apply(s, e) == Goto(s, e.p, At(Apply(s, e), e.p)) && GoodProcess(Apply(s, e), e.p)
  {
    hide StillThere, LockIs;
    match e
    case NoteGuard(p) =>
    case CloseFile(p) =>
    case _ =>
  }

  lemma PlainMoveKeeps(s: State, e: Event)
    requires Invariant(s) && Enabled(s, e)
    requires e.NoteGuard? || e.CloseFile? || e.Sync? || e.Enter? || e.Leave?
    ensures Invariant(Apply(s, e))
  {
    assert GoodProcess(s, e.p);
    PlainMoveFits(s, e);
    hide Apply, GoodProcess, Invariant;
    MoveKeeps(s, e.p, At(Apply(s, e), e.p));
  }

  lemma FaultKeeps(s: State, p: nat)
    requires Invariant(s) && Enabled(s, Fault(p, false))
    ensures Invariant(Apply(s, Fault(p, false)))
  {
    assert GoodProcess(s, p);
    var pc := AfterFault(At(s, p));
    assert Apply(s, Fault(p, false)) == Goto(s, p, pc);
    hide Apply, Enabled, Truthful, WriterDied, ClaimWritten;
    MoveKeeps(s, p, pc);
  }

  lemma RemoveStaleKeeps(s: State, p: nat)
    requires Invariant(s) && Enabled(s, RemoveStale(p))
    ensures Invariant(Apply(s, RemoveStale(p)))
  {
    assert GoodProcess(s, p);
    UnlinkKeeps(s, p, Recreate(At(s, p).claim));
  }

  lemma OpenAgainKeeps(s: State, p: nat)
    requires Invariant(s) && Enabled(s, OpenAgain(p))
    ensures Invariant(Apply(s, OpenAgain(p)))
  {
    assert GoodProcess(s, p);
    if s.writerLock.None? {
      CreateKeeps(s, p, CloseGuard(At(s, p).claim, Some(|s.inodes|)));
    } else {
      MoveKeeps(s, p, CloseGuard(At(s, p).claim, None));
    }
  }

  lemma UnguardKeeps(s: State, p: nat)
    requires Invariant(s) && Enabled(s, Unguard(p))
    ensures Invariant(Apply(s, Unguard(p)))
  {
    assert GoodProcess(s, p);
    GuardChangeKeeps(s, p, None, At(Apply(s, Unguard(p)), p));
  }

  lemma ReleaseKeeps(s: State, p: nat)
    requires Invariant(s) && Enabled(s, Release(p))
    ensures Invariant(Apply(s, Release(p)))
  {
    assert GoodProcess(s, p);
    UnlinkKeeps(s, p, Idle);
  }

  lemma StepKeepsInvariant(s: State, e: Event)
    requires Invariant(s) && Enabled(s, e)
    ensures Invariant(Apply(s, e))
  {
    hide Invariant;
    match e
    case Spawn(host, pid) => SpawnKeeps(s, host, pid);
    case Crash(p) => CrashKeeps(s, p);
    case Begin(p) => BeginKeeps(s, p);
    case OpenLockFile(p) => OpenKeeps(s, p);
    case ReadLockFile(p) => ReadKeeps(s, p);
    case Ask(p, dead) => AskKeeps(s, p, dead);
    case Guard(p) => GuardKeeps(s, p);
    case RemoveStale(p) => RemoveStaleKeeps(s, p);
    case OpenAgain(p) => OpenAgainKeeps(s, p);
    case Unguard(p) => UnguardKeeps(s, p);
    case Write(p) => WriteKeeps(s, p, SyncClaim(At(s, p).claim, At(s, p).fd));
    case Release(p) => ReleaseKeeps(s, p);
    case Fault(p, landed) =>
      if landed { WriteKeeps(s, p, CloseOwn(At(s, p).claim, At(s, p).fd)); } else { FaultKeeps(s, p); }
    case _ => PlainMoveKeeps(s, e);
  }

  lemma {:induction false} RunsKeepInvariant(states: seq<State>, events: seq<Event>, n: nat)
    requires IsRun(states, events) && n < |states|
    ensures Invariant(states[n])
  {
    if n > 0 {
      RunsKeepInvariant(states, events, n - 1);
      assert Next(states[n - 1], events[n - 1], states[n]);
      StepKeepsInvariant(states[n - 1], events[n - 1]);
    }
  }

  // ----- What the lock promises -----

  ghost predicate Owns(s: State, p: nat, fd: nat) {
    Runs(s, p) && OpenLock(At(s, p)) == Some(fd)
  }

  /** Mutual exclusion: at every moment of every run, at most one live process has
      `writer.lock` as its own, so at most one is inside the callback. */
  lemma AtMostOneWriter(states: seq<State>, events: seq<Event>, n: nat, p: nat, q: nat)
    requires IsRun(states, events) && n < |states|
    requires Runs(states[n], p) && Runs(states[n], q)
    requires OpenLock(At(states[n], p)).Some? && OpenLock(At(states[n], q)).Some?
    ensures p == q
  {
    RunsKeepInvariant(states, events, n);
    assert GoodProcess(states[n], p) && GoodProcess(states[n], q);
  }

  lemma AtMostOneInsideCallback(states: seq<State>, events: seq<Event>, n: nat, p: nat, q: nat)
    requires IsRun(states, events) && n < |states|
    requires Runs(states[n], p) && Runs(states[n], q)
    requires At(states[n], p).Inside? && At(states[n], q).Inside?
    ensures p == q
    // and it is the process whose claim the lock file names
    ensures ReadLock(states[n]) == Some(Identity(states[n], p, At(states[n], p).claim))
  {
    RunsKeepInvariant(states, events, n);
    assert GoodProcess(states[n], p) && GoodProcess(states[n], q);
  }

  /** No step unlinks the lock of a live process other than the one that takes the step, and a
      live process unlinks a lock of its own only after its transaction is over. */
  lemma OnlyDeadOrOwnLocksAreUnlinked(states: seq<State>, events: seq<Event>, n: nat)
    requires IsRun(states, events) && n < |events|
    requires states[n].writerLock.Some? && states[n + 1].writerLock != states[n].writerLock
    ensures states[n + 1].writerLock.None?
    ensures states[n].writerLock.value < |states[n].inodes|
    ensures var creator := states[n].inodes[states[n].writerLock.value].creator;
            creator < |states[n].processes| &&
            (|| !states[n].processes[creator].alive
             || (events[n] == Release(creator) && At(states[n], creator).UnlinkOwn?))
  {
    assert Next(states[n], events[n], states[n + 1]);
    RunsKeepInvariant(states, events, n);
    var s := states[n];
    assert GoodInode(s, s.inodes[s.writerLock.value]);
    match events[n]
    case RemoveStale(p) => assert GoodProcess(s, p);
    case Release(p) => assert GoodProcess(s, p);
    case _ =>
  }

  /** While a process is between creating `writer.lock` and giving it up, nobody else's step takes
      the directory entry away from it. */
  lemma LockStaysWhileOwned(states: seq<State>, events: seq<Event>, n: nat, p: nat, fd: nat)
    requires IsRun(states, events) && n < |events|
    requires Owns(states[n], p, fd) && Owns(states[n + 1], p, fd)
    ensures states[n].writerLock == states[n + 1].writerLock == Some(fd)
  {
    RunsKeepInvariant(states, events, n);
    RunsKeepInvariant(states, events, n + 1);
    assert GoodProcess(states[n], p) && GoodProcess(states[n + 1], p);
  }

  /** `recovery.lock` disappears only by the hand of the process that created it. */
  lemma GuardIsDroppedByItsCreator(states: seq<State>, events: seq<Event>, n: nat)
    requires IsRun(states, events) && n < |events|
    requires states[n].recoveryLock.Some? && states[n + 1].recoveryLock != states[n].recoveryLock
    ensures events[n] == Unguard(states[n].recoveryLock.value) && states[n + 1].recoveryLock.None?
  {
    assert Next(states[n], events[n], states[n + 1]);
    RunsKeepInvariant(states, events, n);
    match events[n]
    case Unguard(p) => assert GoodProcess(states[n], p);
    case _ =>
  }

  /** What a recovery is about to unlink is the very file that it inspected, still the lock, and its
      writer died before the guard was taken. */
  lemma RecheckedLockIsTheDeadOnes(states: seq<State>, events: seq<Event>, n: nat, p: nat)
    requires IsRun(states, events) && n < |states| && Runs(states[n], p) && At(states[n], p).UnlinkStale?
    ensures ReadLock(states[n]) == Some(At(states[n], p).owner)
    ensures WriterDied(states[n], At(states[n], p).owner)
    ensures states[n].recoveryLock == Some(p)
  {
    RunsKeepInvariant(states, events, n);
    assert GoodProcess(states[n], p);
  }

  /** From the guard on, the owner that was read is known to be dead: whoever asks a second time
      asks about the same process. */
  lemma GuardComesAfterTheDeath(states: seq<State>, events: seq<Event>, n: nat, p: nat)
    requires IsRun(states, events) && n < |states| && Runs(states[n], p)
    requires SeenOwner(At(states[n], p)).Some? && !At(states[n], p).AskOwner?
    ensures WriterDied(states[n], SeenOwner(At(states[n], p)).value)
  {
    RunsKeepInvariant(states, events, n);
    assert GoodProcess(states[n], p);
  }

  /** A transaction whose claim reached the file never leaves without unlinking its own lock, unless a
      system call fails or the process dies; also when it was the sync, or the write itself, that failed. */
  lemma FinishedTransactionRemovesItsLock(states: seq<State>, events: seq<Event>, n: nat, p: nat)
    requires IsRun(states, events) && n < |events| && events[n] == ReadLockFile(p)
    requires Runs(states[n], p) && At(states[n], p).ReadOwn?
    requires At(states[n], p).fd < |states[n].inodes| && states[n].inodes[At(states[n], p).fd].content.Text?
    ensures p < |states[n + 1].processes| && At(states[n + 1], p).UnlinkOwn?
  {
    assert Next(states[n], events[n], states[n + 1]);
    RunsKeepInvariant(states, events, n);
    assert GoodProcess(states[n], p);
  }

  // ----- What each call decides -----

  /** The last look: a process goes into its callback exactly if there is no `recovery.lock`; else its way out
      begins.  Nothing else changes. */
  lemma CallbackIsEnteredExactly(states: seq<State>, events: seq<Event>, n: nat, p: nat)
    requires IsRun(states, events) && n < |events| && events[n] == Enter(p)
    ensures p < |states[n].processes| && At(states[n], p).LookForGuard?
    ensures states[n + 1] == Goto(states[n], p, At(states[n + 1], p))
    ensures At(states[n + 1], p).Inside? <==> states[n].recoveryLock.None?
    ensures At(states[n + 1], p).CloseOwn? <==> states[n].recoveryLock.Some?
    ensures At(states[n + 1], p).claim == At(states[n], p).claim && At(states[n + 1], p).fd == At(states[n], p).fd
  {
    assert Next(states[n], events[n], states[n + 1]);
  }

  lemma WhoIsInside(states: seq<State>, events: seq<Event>, n: nat, p: nat)
    requires IsRun(states, events) && n < |events|
    requires p < |states[n + 1].processes| && At(states[n + 1], p).Inside?
    ensures p < |states[n].processes|
    ensures events[n] == Enter(p) || At(states[n], p) == At(states[n + 1], p)
  {
    assert Next(states[n], events[n], states[n + 1]);
  }

  /** Whoever is inside went in by a look that found no guard, and has been there since. */
  lemma {:induction false} InsideWasEntered(states: seq<State>, events: seq<Event>, n: nat, p: nat) returns (m: nat)
    requires IsRun(states, events) && n < |states| && p < |states[n].processes| && At(states[n], p).Inside?
    ensures m < n && events[m] == Enter(p) && states[m].recoveryLock.None?
    ensures forall k :: m < k <= n ==> p < |states[k].processes| && At(states[k], p) == At(states[n], p)
  {
    assert Next(states[n - 1], events[n - 1], states[n]);
    WhoIsInside(states, events, n - 1, p);
    hide Next;
    if p < |states[n - 1].processes| && At(states[n - 1], p).Inside? {
      m := InsideWasEntered(states, events, n - 1, p);
    } else {
      m := n - 1;
      CallbackIsEnteredExactly(states, events, m, p);
    }
  }

  /** A call of one process moves no other, and nobody else's directory entry appears: the lock is created by
      `Begin` and `OpenAgain`, each only where there is none, and the guard by `Guard` alone. */
  lemma OnlyTheCallerMoves(states: seq<State>, events: seq<Event>, n: nat, q: nat)
    requires IsRun(states, events) && n < |events| && q < |states[n].processes|
    ensures q < |states[n + 1].processes|
    ensures events[n].Spawn? || events[n].p != q ==> states[n + 1].processes[q] == states[n].processes[q]
    ensures events[n].Spawn? ==>
              states[n + 1].processes == states[n].processes + [Process(events[n].host, events[n].pid, true, Idle)]
    ensures events[n] == Crash(q) ==> states[n + 1].processes[q] == states[n].processes[q].(alive := false)
    ensures states[n].writerLock.None? && states[n + 1].writerLock.Some? ==> events[n].Begin? || events[n].OpenAgain?
    ensures states[n].recoveryLock != states[n + 1].recoveryLock ==> events[n].Guard? || events[n].Unguard?
  {
    assert Next(states[n], events[n], states[n + 1]);
  }

  /** `openSync(lockPath, "wx")` at the start: the lock is created exactly if there was none, and is then the
      caller's; else the caller looks who has it. */
  lemma BeginDecides(states: seq<State>, events: seq<Event>, n: nat, p: nat)
    requires IsRun(states, events) && n < |events| && events[n] == Begin(p)
    ensures p < |states[n].processes| && p < |states[n + 1].processes|
    ensures var s, s' := states[n], states[n + 1];
            && s'.claimants == s.claimants + [p] && s'.recoveryLock == s.recoveryLock
            && if s.writerLock.None? then
                 && At(s', p) == WriteClaim(|s.claimants|, |s.inodes|)
                 && s'.writerLock == Some(|s.inodes|) && s'.inodes == s.inodes + [Inode(p, Blank)]
               else
                 At(s', p) == OpenOwner(|s.claimants|) && s'.writerLock == s.writerLock && s'.inodes == s.inodes
  {
    assert Next(states[n], events[n], states[n + 1]);
  }

  /** A lock is inspected further exactly if it names a process of the caller's own host by a positive number; it
      is recovered exactly if that process is said to be dead, and if nobody else is recovering. */
  lemma InspectionDecides(states: seq<State>, events: seq<Event>, n: nat, p: nat)
    requires IsRun(states, events) && n < |events| && p < |states[n].processes|
    ensures p < |states[n + 1].processes|
    ensures events[n] == OpenLockFile(p) && At(states[n], p).OpenOwner? ==>
              At(states[n + 1], p) ==
                if states[n].writerLock.None? then Idle
                else ReadOwner(At(states[n], p).claim, states[n].writerLock.value)
    ensures events[n] == ReadLockFile(p) && At(states[n], p).ReadOwner? ==>
              var owner := Parsed(states[n], At(states[n], p).inode);
              var mine := owner.Some? && owner.value.host == states[n].processes[p].host && owner.value.pid > 0;
              At(states[n + 1], p) == if mine then AskOwner(At(states[n], p).claim, owner.value) else Idle
    ensures events[n].Ask? && events[n].p == p && At(states[n], p).AskOwner? ==>
              At(states[n + 1], p) ==
                if events[n].dead then CreateGuard(At(states[n], p).claim, At(states[n], p).owner) else Idle
    ensures events[n] == Guard(p) ==>
              && (At(states[n + 1], p).WriteGuard? <==> states[n].recoveryLock.None?)
              && (At(states[n + 1], p).Idle? <==> states[n].recoveryLock.Some?)
              && states[n + 1].recoveryLock == if states[n].recoveryLock.None? then Some(p) else states[n].recoveryLock
  {
    assert Next(states[n], events[n], states[n + 1]);
  }

  /** Under the guard first a note is written and synced, then the lock file is opened again if it is still there. */
  lemma NoteComesFirst(states: seq<State>, events: seq<Event>, n: nat, p: nat)
    requires IsRun(states, events) && n < |events| && p < |states[n].processes|
    ensures p < |states[n + 1].processes|
    ensures events[n] == NoteGuard(p) ==>
              At(states[n + 1], p) ==
                if At(states[n], p).WriteGuard? then SyncGuard(At(states[n], p).claim, At(states[n], p).owner)
                else OpenCurrent(At(states[n], p).claim, At(states[n], p).owner)
    ensures events[n] == OpenLockFile(p) && At(states[n], p).OpenCurrent? ==>
              At(states[n + 1], p) ==
                if states[n].writerLock.None? then CloseGuard(At(states[n], p).claim, None)
                else ReadCurrent(At(states[n], p).claim, At(states[n], p).owner, states[n].writerLock.value)
  {
    assert Next(states[n], events[n], states[n + 1]);
  }

  /** Under the guard the stale lock is unlinked exactly if a second look finds the same claim and the process is
      again said to be dead; it is created anew exactly if it was there to unlink and nobody was faster. */
  lemma SecondLookDecides(states: seq<State>, events: seq<Event>, n: nat, p: nat)
    requires IsRun(states, events) && n < |events| && p < |states[n].processes|
    ensures p < |states[n + 1].processes|
    ensures events[n] == ReadLockFile(p) && At(states[n], p).ReadCurrent? ==>
              var current := Parsed(states[n], At(states[n], p).inode);
              && (At(states[n + 1], p).AskCurrent? <==>
                    current.Some? && current.value.claim == At(states[n], p).owner.claim)
              && (At(states[n + 1], p).AskCurrent? ==> At(states[n + 1], p).current == current.value)
              && (At(states[n + 1], p).AskCurrent? || At(states[n + 1], p) == CloseGuard(At(states[n], p).claim, None))
    ensures events[n].Ask? && events[n].p == p && At(states[n], p).AskCurrent? ==>
              && (At(states[n + 1], p).UnlinkStale? <==> events[n].dead)
              && (!events[n].dead ==> At(states[n + 1], p) == CloseGuard(At(states[n], p).claim, None))
    ensures events[n] == RemoveStale(p) ==>
              && states[n + 1].writerLock.None?
              && (At(states[n + 1], p).Recreate? <==> states[n].writerLock.Some?)
              && (states[n].writerLock.None? ==> At(states[n + 1], p) == CloseGuard(At(states[n], p).claim, None))
    ensures events[n] == OpenAgain(p) ==>
              At(states[n + 1], p) ==
                CloseGuard(At(states[n], p).claim,
                           if states[n].writerLock.None? then states[n + 1].writerLock else None)
    ensures events[n] == Unguard(p) ==>
              && states[n + 1].recoveryLock.None?
              && (At(states[n + 1], p).WriteClaim? <==> At(states[n], p).got.Some?)
              && (At(states[n + 1], p).Idle? <==> At(states[n], p).got.None?)
  {
    assert Next(states[n], events[n], states[n + 1]);
  }

  /** The way out, from a closed file on: the own lock is unlinked exactly if it is read to carry the own claim. */
  lemma WayOutDecides(states: seq<State>, events: seq<Event>, n: nat, p: nat)
    requires IsRun(states, events) && n < |events| && p < |states[n].processes|
    ensures p < |states[n + 1].processes|
    ensures events[n] == CloseFile(p) ==>
              At(states[n + 1], p) ==
                if At(states[n], p).CloseGuard? then DropGuard(At(states[n], p).claim, At(states[n], p).got)
                else OpenOwn(At(states[n], p).claim, At(states[n], p).fd)
    ensures events[n] == Leave(p) ==> At(states[n + 1], p) == CloseOwn(At(states[n], p).claim, At(states[n], p).fd)
    ensures events[n] == OpenLockFile(p) && At(states[n], p).OpenOwn? ==>
              (At(states[n + 1], p).ReadOwn? <==> states[n].writerLock.Some?)
    ensures events[n] == ReadLockFile(p) && At(states[n], p).ReadOwn? ==>
              var own := Parsed(states[n], At(states[n], p).inode);
              && (At(states[n + 1], p).UnlinkOwn? <==> own.Some? && own.value.claim == At(states[n], p).claim)
              && (At(states[n + 1], p).Idle? <==> !At(states[n + 1], p).UnlinkOwn?)
    ensures events[n] == Release(p) ==> states[n + 1].writerLock.None? && At(states[n + 1], p).Idle?
  {
    assert Next(states[n], events[n], states[n + 1]);
  }

  /** A call that throws leaves the directory as it was, but for a claim that reached the file; and it leads out,
      under the guard to where that is dropped, after the lock was opened to where it is closed. */
  lemma FaultDecides(states: seq<State>, events: seq<Event>, n: nat, p: nat, landed: bool)
    requires IsRun(states, events) && n < |events| && events[n] == Fault(p, landed)
    ensures p < |states[n].processes| && p < |states[n + 1].processes|
    ensures states[n + 1].writerLock == states[n].writerLock && states[n + 1].recoveryLock == states[n].recoveryLock
    ensures !landed ==> states[n + 1].inodes == states[n].inodes
    ensures landed ==> ReadLock(states[n + 1]) == Some(Identity(states[n], p, At(states[n], p).claim))
    ensures var before, after := At(states[n], p), At(states[n + 1], p);
            if HoldsGuard(before) && !before.CloseGuard? && !before.DropGuard?
            then after == CloseGuard(before.claim, None)
            else if before.WriteClaim? || before.SyncClaim? then after == CloseOwn(before.claim, before.fd)
            else after.Idle?
  {
    assert Next(states[n], events[n], states[n + 1]);
    RunsKeepInvariant(states, events, n);
    assert GoodProcess(states[n], p);
  }

  /** A claim is written into the file that the process has open, and nowhere else. */
  lemma WriteDecides(states: seq<State>, events: seq<Event>, n: nat, p: nat)
    requires IsRun(states, events) && n < |events| && events[n] == Write(p)
    ensures ReadLock(states[n + 1]) == Some(Identity(states[n], p, At(states[n], p).claim))
    ensures At(states[n + 1], p) == SyncClaim(At(states[n], p).claim, At(states[n], p).fd)
    ensures forall i :: 0 <= i < |states[n].inodes| && i != At(states[n], p).fd ==>
              i < |states[n + 1].inodes| && states[n + 1].inodes[i] == states[n].inodes[i]
  {
    assert Next(states[n], events[n], states[n + 1]);
    RunsKeepInvariant(states, events, n);
    assert GoodProcess(states[n], p);
  }

  // ----- Recovery does succeed -----

  /** The lock was left by a dead process of `p`'s own host. */
  predicate StaleFor(s: State, p: nat) {
    && p < |s.processes| && ReadLock(s).Some?
    && ReadLock(s).value.host == s.processes[p].host && ReadLock(s).value.pid > 0
    && NobodyHas(s, s.processes[p].host, ReadLock(s).value.pid)
  }

  /** A lock that nobody has, and nobody is recovering. */
  predicate CanAcquire(s: State, p: nat) {
    (s.writerLock.None? || StaleFor(s, p)) && s.recoveryLock.None?
  }

  predicate StaleAndSeen(s: State, p: nat, owner: Owner) {
    StaleFor(s, p) && ReadLock(s) == Some(owner)
  }

  /** An undisturbed process is on its way into the callback. */
  predicate OnTheWay(s: State, p: nat) {
    && Runs(s, p)
    && match At(s, p)
       case Idle => CanAcquire(s, p)
       case OpenOwner(_) => StaleFor(s, p) && s.recoveryLock.None?
       case ReadOwner(_, inode) => StaleFor(s, p) && s.recoveryLock.None? && s.writerLock == Some(inode)
       case AskOwner(_, owner) => StaleAndSeen(s, p, owner) && s.recoveryLock.None?
       case CreateGuard(_, owner) => StaleAndSeen(s, p, owner) && s.recoveryLock.None?
       case WriteGuard(_, owner) => StaleAndSeen(s, p, owner) && s.recoveryLock == Some(p)
       case SyncGuard(_, owner) => StaleAndSeen(s, p, owner) && s.recoveryLock == Some(p)
       case OpenCurrent(_, owner) => StaleAndSeen(s, p, owner) && s.recoveryLock == Some(p)
       case ReadCurrent(_, owner, inode) =>
         StaleAndSeen(s, p, owner) && s.recoveryLock == Some(p) && s.writerLock == Some(inode)
       case AskCurrent(_, owner, current) =>
         StaleAndSeen(s, p, owner) && s.recoveryLock == Some(p) && current == owner
       case UnlinkStale(_, _) => s.writerLock.Some? && s.recoveryLock == Some(p)
       case Recreate(_) => s.writerLock.None? && s.recoveryLock == Some(p)
       case CloseGuard(_, got) => got.Some? && s.recoveryLock == Some(p)
       case DropGuard(_, got) => got.Some? && s.recoveryLock == Some(p)
       case WriteClaim(_, _) => s.recoveryLock.None?
       case SyncClaim(_, _) => s.recoveryLock.None?
       case LookForGuard(_, _) => s.recoveryLock.None?
       case Inside(_, _) => s.recoveryLock.None?
       case _ => false
  }

  /** Its next call, with a death noticed. */
  function NextCall(pc: Pc, p: nat): Event {
    match pc
    case Idle => Begin(p)
    case OpenOwner(_) => OpenLockFile(p)
    case ReadOwner(_, _) => ReadLockFile(p)
    case AskOwner(_, _) => Ask(p, true)
    case CreateGuard(_, _) => Guard(p)
    case WriteGuard(_, _) => NoteGuard(p)
    case SyncGuard(_, _) => NoteGuard(p)
    case OpenCurrent(_, _) => OpenLockFile(p)
    case ReadCurrent(_, _, _) => ReadLockFile(p)
    case AskCurrent(_, _, _) => Ask(p, true)
    case UnlinkStale(_, _) => RemoveStale(p)
    case Recreate(_) => OpenAgain(p)
    case CloseGuard(_, _) => CloseFile(p)
    case DropGuard(_, _) => Unguard(p)
    case WriteClaim(_, _) => Write(p)
    case SyncClaim(_, _) => Sync(p)
    case LookForGuard(_, _) => Enter(p)
    case Inside(_, _) => Leave(p)
    case CloseOwn(_, _) => CloseFile(p)
    case OpenOwn(_, _) => OpenLockFile(p)
    case ReadOwn(_, _, _) => ReadLockFile(p)
    case UnlinkOwn(_, _) => Release(p)
  }

  /** How many calls it still has to make at most. */
  function CallsLeft(pc: Pc): nat {
    match pc
    case Idle => 17
    case OpenOwner(_) => 16
    case ReadOwner(_, _) => 15
    case AskOwner(_, _) => 14
    case CreateGuard(_, _) => 13
    case WriteGuard(_, _) => 12
    case SyncGuard(_, _) => 11
    case OpenCurrent(_, _) => 10
    case ReadCurrent(_, _, _) => 9
    case AskCurrent(_, _, _) => 8
    case UnlinkStale(_, _) => 7
    case Recreate(_) => 6
    case CloseGuard(_, _) => 5
    case DropGuard(_, _) => 4
    case WriteClaim(_, _) => 3
    case SyncClaim(_, _) => 2
    case LookForGuard(_, _) => 1
    case _ => 0
  }

  lemma WayGoesOnOutside(s: State, p: nat)
    requires OnTheWay(s, p) && !HoldsGuard(At(s, p)) && !At(s, p).Inside?
    ensures Enabled(s, NextCall(At(s, p), p))
    ensures var after := Apply(s, NextCall(At(s, p), p));
            OnTheWay(after, p) && CallsLeft(At(after, p)) < CallsLeft(At(s, p))
  {
    match At(s, p)
    case Idle =>
    case ReadOwner(_, _) =>
    case AskOwner(_, _) =>
    case _ =>
  }

  /** A lock stays stale while nobody but `p` moves. */
  lemma StaleStays(s: State, p: nat, guard: Option<nat>, pc: Pc)
    requires StaleFor(s, p)
    ensures StaleFor(Goto(s.(recoveryLock := guard), p, pc), p)
  {
  }

  lemma WayGoesOnUnderGuard(s: State, p: nat)
    requires OnTheWay(s, p) && HoldsGuard(At(s, p))
    ensures Enabled(s, NextCall(At(s, p), p))
    ensures var after := Apply(s, NextCall(At(s, p), p));
            OnTheWay(after, p) && CallsLeft(At(after, p)) < CallsLeft(At(s, p))
  {
    hide NobodyHas;
    if StaleFor(s, p) {
      StaleStays(s, p, s.recoveryLock, At(Apply(s, NextCall(At(s, p), p)), p));
    }
  }

  lemma WayGoesOn(s: State, p: nat)
    requires OnTheWay(s, p) && !At(s, p).Inside?
    ensures Enabled(s, NextCall(At(s, p), p))
    ensures var after := Apply(s, NextCall(At(s, p), p));
            OnTheWay(after, p) && CallsLeft(At(after, p)) < CallsLeft(At(s, p))
  {
    hide Apply, Enabled, CallsLeft, NextCall;
    if HoldsGuard(At(s, p)) {
      WayGoesOnUnderGuard(s, p);
    } else {
      WayGoesOnOutside(s, p);
    }
  }

  ghost predicate Executable(s: State, events: seq<Event>)
    decreases |events|
  {
    events == [] || (Enabled(s, events[0]) && Executable(Apply(s, events[0]), events[1..]))
  }

  ghost function Execute(s: State, events: seq<Event>): State
    requires Executable(s, events)
    decreases |events|
  {
    if events == [] then s else Execute(Apply(s, events[0]), events[1..])
  }

  /** Whatever the state a dead writer left, an idle process of its host that nobody interrupts
      gets past the stale lock and into its own callback, in at most seventeen calls of its own,
      provided no `recovery.lock` is left over and no live process has inherited the number. */
  lemma {:induction false} StaleLockIsRecovered(s: State, p: nat) returns (path: seq<Event>)
    requires OnTheWay(s, p)
    ensures Executable(s, path) && |path| <= CallsLeft(At(s, p))
    ensures Runs(Execute(s, path), p) && At(Execute(s, path), p).Inside?
    ensures forall e :: e in path ==> !e.Spawn? && !e.Crash? && !e.Fault? && e.p == p
    decreases CallsLeft(At(s, p))
  {
    if At(s, p).Inside? {
      path := [];
    } else {
      WayGoesOn(s, p);
      hide OnTheWay, Apply, Enabled;
      var e := NextCall(At(s, p), p);
      var rest := StaleLockIsRecovered(Apply(s, e), p);
      path := [e] + rest;
      assert path[1..] == rest;
    }
  }
}
