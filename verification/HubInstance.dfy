/** One hub per socket path: a kernel-held lock on a file that is never unlinked guards the probe,
    the unlink and the bind of the socket. Every system call is one step, steps of different hubs
    interleave freely, any hub may crash between two of them, and a daemon from before the lock
    may already be listening. */
module HubInstance {
  import opened Ordering

  type HubId = nat
  type Inode = nat
  type SocketId = nat

  /* ---- the lock file's name ---- */

  const SOCK := ".sock"

  predicate EndsWith(s: string, suffix: string) {
    |suffix| <= |s| && s[|s| - |suffix|..] == suffix
  }

  function TrimSuffix(s: string, suffix: string): string {
    if EndsWith(s, suffix) then s[..|s| - |suffix|] else s
  }

  function InstanceLockPath(socketPath: string): string {
    TrimSuffix(socketPath, SOCK) + ".pid"
  }

  /** Two socket paths share a lock file only when one is the other with `.sock` added. */
  lemma SharedLockPath(a: string, b: string)
    ensures InstanceLockPath(a) == InstanceLockPath(b)
      <==> a == b || (a == b + SOCK && !EndsWith(b, SOCK)) || (b == a + SOCK && !EndsWith(a, SOCK))
  {
    var s, t := TrimSuffix(a, SOCK), TrimSuffix(b, SOCK);
    SuffixCancels(s, t, ".pid");
    TrimInverse(a);
    TrimInverse(b);
    assert forall u: string {:trigger u + SOCK} :: (u + SOCK)[|u|..] == SOCK && (u + SOCK)[..|u|] == u;
  }

  lemma TrimInverse(a: string)
    ensures a == TrimSuffix(a, SOCK) + if EndsWith(a, SOCK) then SOCK else ""
  {
  }

  lemma SuffixCancels(s: string, t: string, suffix: string)
    ensures s + suffix == t + suffix <==> s == t
  {
    assert (s + suffix)[..|s|] == s && (t + suffix)[..|t|] == t;
    if s + suffix == t + suffix {
      assert |s + suffix| == |t + suffix|;
    }
  }

  /* ---- the machine ---- */

  /** `owner` is None for a daemon that predates the lock. */
  datatype Socket = Socket(owner: Option<HubId>, accepting: bool)

  /** Where a hub is. From `Locked` to `Swept` it holds the kernel lock. `Answered` and `NotListening` are
      starts about to give up. `missed` records that the probe got no answer from a daemon that was in
      fact accepting. */
  datatype Phase =
    | Idle
    | Opened(ino: Inode)
    | Refused
    | Told(report: Option<nat>)
    | Locked(ino: Inode)
    | Emptied(ino: Inode)
    | Written(ino: Inode)
    | Acquired(ino: Inode)
    | Answered(ino: Inode)
    | Clear(ino: Inode, missed: bool)
    | Removed(ino: Inode)
    | NotListening(ino: Inode)
    | Bound(ino: Inode, sock: SocketId)
    | Serving(ino: Inode, sock: SocketId)
    | Unlinked(ino: Inode, sock: SocketId)
    | Stopped(ino: Inode)
    | Swept(ino: Inode)
    | Closed
    | Dead
  {
    predicate Holding() {
      !Idle? && !Opened? && !Refused? && !Told? && !Closed? && !Dead?
    }

    predicate Recorded() {
      Holding() && !Locked? && !Emptied?
    }

    predicate HasSocket() {
      Bound? || Serving? || Unlinked?
    }

    /** About to close the lock file. */
    predicate Finished() {
      Swept? || Answered? || NotListening?
    }

    /** Not between the beginning of a start and the end of a close. */
    predicate AtRest() {
      Idle? || Told?
    }
  }

  /** The lock file's name and contents, the kernel's lock table, the socket path and the sockets. */
  datatype World = World(
    lockName: Option<Inode>,
    contents: map<Inode, Option<nat>>,
    flock: map<Inode, HubId>,
    sockName: Option<SocketId>,
    sockets: map<SocketId, Socket>,
    hubs: map<HubId, Phase>)

  datatype Step =
    | Open(h: HubId, created: Inode)
    | LockBusy(h: HubId)
    | LockFails(h: HubId)
    | ReadPid(h: HubId)
    | Lock(h: HubId)
    | Truncate(h: HubId)
    | Write(h: HubId)
    | WriteFails(h: HubId, left: Option<nat>)
    | Sync(h: HubId)
    | GiveUp(h: HubId)
    | Probe(h: HubId, answered: bool)
    | RemoveOld(h: HubId, removed: bool)
    | Bind(h: HubId, sock: SocketId)
    | Listen(h: HubId)
    | ListenFails(h: HubId)
    | CloseUnlink(h: HubId)
    | CloseListener(h: HubId)
    | CloseRemove(h: HubId)
    | Release(h: HubId)
    | StrayRemove(h: HubId)
    | Crash(h: HubId)
    | Reborn(h: HubId)
    | LegacyDies(sock: SocketId)

  function PhaseOf(w: World, h: HubId): Phase {
    if h in w.hubs then w.hubs[h] else Idle
  }

  /** Somebody is accepting connections at the socket path. */
  predicate Responsive(w: World) {
    w.sockName.Some? && w.sockName.value in w.sockets && w.sockets[w.sockName.value].accepting
  }

  /** Some hub has bound the path or serves it. */
  predicate InUse(w: World) {
    exists h | h in w.hubs :: w.hubs[h].Bound? || w.hubs[h].Serving?
  }

  /** A hub that never started may be closed as well, which removes whatever the path names. Runs are those
      in which that happens only while the path is not in use; see `StrayCloseExact`. */
  predicate Enabled(w: World, step: Step) {
    match step
    case Open(h, created) => PhaseOf(w, h).Idle? && created !in w.contents
    case LockBusy(h) => PhaseOf(w, h).Opened? && PhaseOf(w, h).ino in w.flock
    case LockFails(h) => PhaseOf(w, h).Opened?
    case ReadPid(h) => PhaseOf(w, h).Refused?
    case Lock(h) => PhaseOf(w, h).Opened? && PhaseOf(w, h).ino !in w.flock
    case Truncate(h) => PhaseOf(w, h).Locked?
    case Write(h) => PhaseOf(w, h).Emptied?
    case WriteFails(h, _) => PhaseOf(w, h).Emptied?
    case Sync(h) => PhaseOf(w, h).Written?
    case GiveUp(h) => PhaseOf(w, h).Locked? || PhaseOf(w, h).Written?
    case Probe(h, answered) => PhaseOf(w, h).Acquired? && (answered ==> Responsive(w))
    case RemoveOld(h, _) => PhaseOf(w, h).Clear?
    case Bind(h, sock) => PhaseOf(w, h).Removed? && w.sockName.None? && sock !in w.sockets
    case Listen(h) => PhaseOf(w, h).Bound? && PhaseOf(w, h).sock in w.sockets
    case ListenFails(h) => PhaseOf(w, h).Removed? || PhaseOf(w, h).Bound?
    case CloseUnlink(h) => PhaseOf(w, h).Serving?
    case CloseListener(h) => PhaseOf(w, h).Unlinked?
    case CloseRemove(h) => PhaseOf(w, h).Stopped?
    case Release(h) => PhaseOf(w, h).Finished()
    case StrayRemove(h) => PhaseOf(w, h).AtRest() && !InUse(w)
    case Crash(h) => !PhaseOf(w, h).Dead?
    case Reborn(h) => PhaseOf(w, h).Dead? || PhaseOf(w, h).Closed? || PhaseOf(w, h).Told?
    case LegacyDies(sock) => sock in w.sockets && w.sockets[sock].owner.None?
  }

  function Unlock(flock: map<Inode, HubId>, h: HubId): map<Inode, HubId> {
    map i | i in flock && flock[i] != h :: flock[i]
  }

  /** A process that ends takes its listening socket with it; the name in the file system stays. */
  function Silence(sockets: map<SocketId, Socket>, h: HubId): map<SocketId, Socket> {
    map s | s in sockets :: if sockets[s].owner == Some(h) then sockets[s].(accepting := false) else sockets[s]
  }

  function Go(w: World, h: HubId, p: Phase): World {
    w.(hubs := w.hubs[h := p])
  }

  /** Closing the lock file drops the kernel lock. */
  function Drop(w: World, h: HubId, p: Phase): World {
    w.(hubs := w.hubs[h := p], flock := Unlock(w.flock, h))
  }

  function Apply(w: World, step: Step): World
    requires Enabled(w, step)
  {
    match step
    case Open(h, created) =>
      if w.lockName.Some? then Go(w, h, Opened(w.lockName.value))
      else Go(w.(lockName := Some(created), contents := w.contents[created := None]), h, Opened(created))
    case LockBusy(h) => Go(w, h, Refused)
    case LockFails(h) => Go(w, h, Idle)
    case ReadPid(h) => Go(w, h, Told(PidFile(w)))
    case Lock(h) => Go(w.(flock := w.flock[PhaseOf(w, h).ino := h]), h, Locked(PhaseOf(w, h).ino))
    case Truncate(h) => Go(w.(contents := w.contents[PhaseOf(w, h).ino := None]), h, Emptied(PhaseOf(w, h).ino))
    case Write(h) => Go(w.(contents := w.contents[PhaseOf(w, h).ino := Some(h)]), h, Written(PhaseOf(w, h).ino))
    case WriteFails(h, left) => Drop(w.(contents := w.contents[PhaseOf(w, h).ino := left]), h, Idle)
    case Sync(h) => Go(w, h, Acquired(PhaseOf(w, h).ino))
    case GiveUp(h) => Drop(w, h, Idle)
    case Probe(h, answered) =>
      if answered then Go(w, h, Answered(PhaseOf(w, h).ino)) else Go(w, h, Clear(PhaseOf(w, h).ino, Responsive(w)))
    case RemoveOld(h, removed) => Go(if removed then w.(sockName := None) else w, h, Removed(PhaseOf(w, h).ino))
    case Bind(h, sock) =>
      Go(w.(sockName := Some(sock), sockets := w.sockets[sock := Socket(Some(h), false)]), h,
        Bound(PhaseOf(w, h).ino, sock))
    case Listen(h) =>
      var p := PhaseOf(w, h);
      Go(w.(sockets := w.sockets[p.sock := w.sockets[p.sock].(accepting := true)]), h, Serving(p.ino, p.sock))
    case ListenFails(h) => Go(w.(sockets := Silence(w.sockets, h)), h, NotListening(PhaseOf(w, h).ino))
    case CloseUnlink(h) => Go(w.(sockName := None), h, Unlinked(PhaseOf(w, h).ino, PhaseOf(w, h).sock))
    case CloseListener(h) => Go(w.(sockets := Silence(w.sockets, h)), h, Stopped(PhaseOf(w, h).ino))
    case CloseRemove(h) => Go(w.(sockName := None), h, Swept(PhaseOf(w, h).ino))
    case Release(h) => Drop(w, h, if PhaseOf(w, h).Swept? then Closed else Idle)
    case StrayRemove(h) => w.(sockName := None)
    case Crash(h) => Drop(w.(sockets := Silence(w.sockets, h)), h, Dead)
    case Reborn(h) => Go(w, h, Idle)
    case LegacyDies(sock) => w.(sockets := w.sockets[sock := w.sockets[sock].(accepting := false)])
  }

  /** The pid a reader of the lock file finds; None for an empty or unreadable one. */
  function PidFile(w: World): Option<nat> {
    if w.lockName.Some? && w.lockName.value in w.contents then w.contents[w.lockName.value] else None
  }

  /** Whatever earlier daemons left behind, and perhaps a live one that knows no lock. */
  ghost predicate Initial(w: World) {
    && w.hubs == map[] && w.flock == map[]
    && (w.lockName.Some? ==> w.lockName.value in w.contents)
    && (forall s | s in w.sockets :: w.sockets[s].owner.None?)
  }

  ghost predicate IsRun(w: World, steps: seq<Step>)
    decreases |steps|
  {
    steps == [] || (Enabled(w, steps[0]) && IsRun(Apply(w, steps[0]), steps[1..]))
  }

  ghost function Final(w: World, steps: seq<Step>): World
    requires IsRun(w, steps)
    decreases |steps|
  {
    if steps == [] then w else Final(Apply(w, steps[0]), steps[1..])
  }

  /* ---- the invariant ---- */

  /** There is one lock inode, because its name is never unlinked. */
  ghost predicate OneInode(w: World) {
    && (w.lockName.Some? ==> w.lockName.value in w.contents)
    && (forall h | h in w.hubs && (w.hubs[h].Opened? || w.hubs[h].Holding()) :: w.lockName == Some(w.hubs[h].ino))
  }

  /** The kernel's table and the hubs agree on who holds the lock. */
  ghost predicate LockAgrees(w: World) {
    && (forall h | h in w.hubs && w.hubs[h].Holding() :: w.hubs[h].ino in w.flock && w.flock[w.hubs[h].ino] == h)
    && (forall i | i in w.flock :: w.lockName == Some(i) && w.flock[i] in w.hubs && w.hubs[w.flock[i]].Holding())
  }

  ghost predicate SocketsSound(w: World) {
    && (forall s | s in w.sockets && w.sockets[s].accepting && w.sockets[s].owner.Some? ::
          PhaseOf(w, w.sockets[s].owner.value).HasSocket() && PhaseOf(w, w.sockets[s].owner.value).sock == s)
    && (forall h | h in w.hubs && w.hubs[h].HasSocket() ::
          && w.hubs[h].sock in w.sockets && w.sockets[w.hubs[h].sock].owner == Some(h)
          && w.sockets[w.hubs[h].sock].accepting == !w.hubs[h].Bound?)
  }

  ghost predicate PathSound(w: World) {
    forall h | h in w.hubs ::
      && (w.hubs[h].Bound? || w.hubs[h].Serving? ==> w.sockName == Some(w.hubs[h].sock))
      && (w.hubs[h].Unlinked? || w.hubs[h].Stopped? || w.hubs[h].Swept? ==> w.sockName == None)
      && (w.hubs[h].Clear? && !w.hubs[h].missed ==> !Responsive(w))
  }

  ghost predicate PidSound(w: World) {
    forall h | h in w.hubs ::
      && (w.hubs[h].Emptied? ==> PidFile(w) == None)
      && (w.hubs[h].Recorded() ==> PidFile(w) == Some(h))
  }

  ghost predicate Inv(w: World) {
    OneInode(w) && LockAgrees(w) && SocketsSound(w) && PathSound(w) && PidSound(w)
  }

  /** At most one hub is between taking and releasing the lock. */
  lemma OneHolder(w: World, g: HubId, h: HubId)
    requires OneInode(w) && LockAgrees(w)
    requires PhaseOf(w, g).Holding() && PhaseOf(w, h).Holding()
    ensures g == h
  {
  }

  /** Up to the attempt to lock. */
  predicate Opens(step: Step) {
    step.Open? || step.LockBusy? || step.LockFails? || step.ReadPid? || step.Lock?
  }

  /** Up to the return of acquire. */
  predicate Records(step: Step) {
    step.Truncate? || step.Write? || step.WriteFails? || step.Sync? || step.GiveUp?
  }

  predicate Probes(step: Step) {
    step.Probe? || step.RemoveOld?
  }

  predicate Binds(step: Step) {
    step.Bind? || step.Listen? || step.ListenFails?
  }

  /** Closing, dying and coming back. */
  predicate Ends(step: Step) {
    !Opens(step) && !Records(step) && !Probes(step) && !Binds(step)
  }

  lemma LockKeptWhenOpens(w: World, step: Step)
    requires OneInode(w) && LockAgrees(w) && Enabled(w, step) && Opens(step)
    ensures OneInode(Apply(w, step)) && LockAgrees(Apply(w, step))
  {
  }

  lemma LockKeptWhenRecords(w: World, step: Step)
    requires OneInode(w) && LockAgrees(w) && Enabled(w, step) && Records(step)
    ensures OneInode(Apply(w, step)) && LockAgrees(Apply(w, step))
  {
  }

  lemma LockKeptWhenProbes(w: World, step: Step)
    requires OneInode(w) && LockAgrees(w) && Enabled(w, step) && Probes(step)
    ensures OneInode(Apply(w, step)) && LockAgrees(Apply(w, step))
  {
  }

  lemma LockKeptWhenBinds(w: World, step: Step)
    requires OneInode(w) && LockAgrees(w) && Enabled(w, step) && Binds(step)
    ensures OneInode(Apply(w, step)) && LockAgrees(Apply(w, step))
  {
  }

  lemma LockKeptWhenEnds(w: World, step: Step)
    requires OneInode(w) && LockAgrees(w) && Enabled(w, step) && Ends(step)
    ensures OneInode(Apply(w, step)) && LockAgrees(Apply(w, step))
  {
  }

  lemma LockKept(w: World, step: Step)
    requires OneInode(w) && LockAgrees(w) && Enabled(w, step)
    ensures OneInode(Apply(w, step)) && LockAgrees(Apply(w, step))
  {
    if Opens(step) {
      LockKeptWhenOpens(w, step);
    } else if Records(step) {
      LockKeptWhenRecords(w, step);
    } else if Probes(step) {
      LockKeptWhenProbes(w, step);
    } else if Binds(step) {
      LockKeptWhenBinds(w, step);
    } else {
      LockKeptWhenEnds(w, step);
    }
  }

  lemma SocketsKeptWhenOpens(w: World, step: Step)
    requires Inv(w) && Enabled(w, step) && Opens(step)
    ensures SocketsSound(Apply(w, step))
  {
  }

  lemma SocketsKeptWhenRecords(w: World, step: Step)
    requires Inv(w) && Enabled(w, step) && Records(step)
    ensures SocketsSound(Apply(w, step))
  {
  }

  lemma SocketsKeptWhenProbes(w: World, step: Step)
    requires Inv(w) && Enabled(w, step) && Probes(step)
    ensures SocketsSound(Apply(w, step))
  {
  }

  lemma SocketsKeptWhenBinds(w: World, step: Step)
    requires Inv(w) && Enabled(w, step) && Binds(step)
    ensures SocketsSound(Apply(w, step))
  {
  }

  lemma SocketsKeptWhenEnds(w: World, step: Step)
    requires Inv(w) && Enabled(w, step) && Ends(step)
    ensures SocketsSound(Apply(w, step))
  {
  }

  lemma SocketsKept(w: World, step: Step)
    requires Inv(w) && Enabled(w, step)
    ensures SocketsSound(Apply(w, step))
  {
    if Opens(step) {
      SocketsKeptWhenOpens(w, step);
    } else if Records(step) {
      SocketsKeptWhenRecords(w, step);
    } else if Probes(step) {
      SocketsKeptWhenProbes(w, step);
    } else if Binds(step) {
      SocketsKeptWhenBinds(w, step);
    } else {
      SocketsKeptWhenEnds(w, step);
    }
  }

  lemma PathKeptWhenOpens(w: World, step: Step)
    requires Inv(w) && Enabled(w, step) && Opens(step)
    ensures PathSound(Apply(w, step))
  {
  }

  lemma PathKeptWhenRecords(w: World, step: Step)
    requires Inv(w) && Enabled(w, step) && Records(step)
    ensures PathSound(Apply(w, step))
  {
  }

  lemma PathKeptWhenProbes(w: World, step: Step)
    requires Inv(w) && Enabled(w, step) && Probes(step)
    ensures PathSound(Apply(w, step))
  {
  }

  lemma PathKeptWhenBinds(w: World, step: Step)
    requires Inv(w) && Enabled(w, step) && Binds(step)
    ensures PathSound(Apply(w, step))
  {
  }

  lemma PathKeptWhenEnds(w: World, step: Step)
    requires Inv(w) && Enabled(w, step) && Ends(step)
    ensures PathSound(Apply(w, step))
  {
  }

  lemma PathKept(w: World, step: Step)
    requires Inv(w) && Enabled(w, step)
    ensures PathSound(Apply(w, step))
  {
    if Opens(step) {
      PathKeptWhenOpens(w, step);
    } else if Records(step) {
      PathKeptWhenRecords(w, step);
    } else if Probes(step) {
      PathKeptWhenProbes(w, step);
    } else if Binds(step) {
      PathKeptWhenBinds(w, step);
    } else {
      PathKeptWhenEnds(w, step);
    }
  }

  lemma PidKeptWhenOpens(w: World, step: Step)
    requires Inv(w) && Enabled(w, step) && Opens(step)
    ensures PidSound(Apply(w, step))
  {
  }

  lemma PidKeptWhenRecords(w: World, step: Step)
    requires Inv(w) && Enabled(w, step) && Records(step)
    ensures PidSound(Apply(w, step))
  {
  }

  lemma PidKeptWhenProbes(w: World, step: Step)
    requires Inv(w) && Enabled(w, step) && Probes(step)
    ensures PidSound(Apply(w, step))
  {
  }

  lemma PidKeptWhenBinds(w: World, step: Step)
    requires Inv(w) && Enabled(w, step) && Binds(step)
    ensures PidSound(Apply(w, step))
  {
  }

  lemma PidKeptWhenEnds(w: World, step: Step)
    requires Inv(w) && Enabled(w, step) && Ends(step)
    ensures PidSound(Apply(w, step))
  {
  }

  lemma PidKept(w: World, step: Step)
    requires Inv(w) && Enabled(w, step)
    ensures PidSound(Apply(w, step))
  {
    if Opens(step) {
      PidKeptWhenOpens(w, step);
    } else if Records(step) {
      PidKeptWhenRecords(w, step);
    } else if Probes(step) {
      PidKeptWhenProbes(w, step);
    } else if Binds(step) {
      PidKeptWhenBinds(w, step);
    } else {
      PidKeptWhenEnds(w, step);
    }
  }

  lemma StepKeepsInv(w: World, step: Step)
    requires Inv(w) && Enabled(w, step)
    ensures Inv(Apply(w, step))
  {
    LockKept(w, step);
    SocketsKept(w, step);
    PathKept(w, step);
    PidKept(w, step);
  }

  /* ---- theorems over every run ---- */

  ghost predicate Reachable(w: World) {
    exists start: World, steps: seq<Step> :: Initial(start) && IsRun(start, steps) && Final(start, steps) == w
  }

  lemma {:induction false} RunKeepsInv(w: World, steps: seq<Step>)
    requires Inv(w) && IsRun(w, steps)
    ensures Inv(Final(w, steps))
    decreases |steps|
  {
    if steps != [] {
      StepKeepsInv(w, steps[0]);
      RunKeepsInv(Apply(w, steps[0]), steps[1..]);
    }
  }

  lemma ReachableInv(w: World)
    requires Reachable(w)
    ensures Inv(w)
  {
    var start: World, steps: seq<Step> :| Initial(start) && IsRun(start, steps) && Final(start, steps) == w;
    RunKeepsInv(start, steps);
  }

  lemma {:induction false} RunSnoc(w: World, steps: seq<Step>, step: Step)
    requires IsRun(w, steps) && Enabled(Final(w, steps), step)
    ensures IsRun(w, steps + [step]) && Final(w, steps + [step]) == Apply(Final(w, steps), step)
    decreases |steps|
  {
    var all := steps + [step];
    if steps == [] {
      assert all[0] == step && all[1..] == [];
    } else {
      assert all[0] == steps[0] && all[1..] == steps[1..] + [step];
      RunSnoc(Apply(w, steps[0]), steps[1..], step);
    }
  }

  lemma ReachableStep(w: World, step: Step)
    requires Reachable(w) && Enabled(w, step)
    ensures Reachable(Apply(w, step))
  {
    var start: World, steps: seq<Step> :| Initial(start) && IsRun(start, steps) && Final(start, steps) == w;
    RunSnoc(start, steps, step);
    assert IsRun(start, steps + [step]);
  }

  lemma MutualExclusion(w: World, g: HubId, h: HubId)
    requires Reachable(w) && PhaseOf(w, g).Holding() && PhaseOf(w, h).Holding()
    ensures g == h
  {
    ReachableInv(w);
    OneHolder(w, g, h);
  }

  /** While a hub serves, the socket path names its own accepting socket and the pid file its pid. */
  lemma ServingOwnsPath(w: World, h: HubId)
    requires Reachable(w) && PhaseOf(w, h).Serving?
    ensures w.sockName == Some(PhaseOf(w, h).sock) && Responsive(w)
    ensures w.sockets[w.sockName.value].owner == Some(h)
    ensures PidFile(w) == Some(h)
  {
    ReachableInv(w);
  }

  /** Once acquire has returned, and until release, the lock file names the holder; just before that
      it is empty. */
  lemma PidFileNamesHolder(w: World, h: HubId)
    requires Reachable(w) && PhaseOf(w, h).Holding()
    ensures PhaseOf(w, h).Recorded() ==> PidFile(w) == Some(h)
    ensures PhaseOf(w, h).Emptied? ==> PidFile(w) == None
  {
    ReachableInv(w);
  }

  function Actor(step: Step): Option<HubId> {
    if step.LegacyDies? then None else Some(step.h)
  }

  /** Nothing another hub does takes a serving hub's lock, socket or name away. */
  lemma OthersCannotDisturb(w: World, h: HubId, step: Step)
    requires Reachable(w) && PhaseOf(w, h).Serving? && Enabled(w, step) && Actor(step) != Some(h)
    ensures PhaseOf(w, h).sock in w.sockets
    ensures var t := Apply(w, step);
            && PhaseOf(t, h) == PhaseOf(w, h) && t.sockName == w.sockName && PidFile(t) == PidFile(w)
            && Responsive(t) && t.sockets[t.sockName.value] == w.sockets[PhaseOf(w, h).sock]
  {
    ReachableInv(w);
    StepKeepsInv(w, step);
    PhaseKept(w, h, step);
    Serves(w, h);
    Serves(Apply(w, step), h);
  }

  lemma Serves(w: World, h: HubId)
    requires Inv(w) && PhaseOf(w, h).Serving?
    ensures var s := PhaseOf(w, h).sock;
            w.sockName == Some(s) && s in w.sockets && w.sockets[s] == Socket(Some(h), true) && PidFile(w) == Some(h)
  {
  }

  lemma PhaseKept(w: World, me: HubId, step: Step)
    requires Enabled(w, step) && Actor(step) != Some(me)
    ensures PhaseOf(Apply(w, step), me) == PhaseOf(w, me)
  {
  }

  predicate Unlinks(step: Step) {
    step.RemoveOld? || step.CloseUnlink? || step.CloseRemove? || step.StrayRemove?
  }

  /** An unlink only ever hits an accepting socket that is the hub's own, or one of a lock-less
      daemon that failed to answer the probe or was hit by the close of a hub that never started. */
  lemma UnlinksHarmNobody(w: World, step: Step)
    requires Reachable(w) && Enabled(w, step) && Unlinks(step) && Responsive(w)
    ensures var s := w.sockets[w.sockName.value];
            || (step.CloseUnlink? && s.owner == Some(step.h))
            || (step.RemoveOld? && s.owner == None && PhaseOf(w, step.h).missed)
            || (step.StrayRemove? && s.owner == None)
  {
    ReachableInv(w);
    if w.sockets[w.sockName.value].owner.Some? {
      var owner := w.sockets[w.sockName.value].owner.value;
      if step.StrayRemove? {
        NamedInUse(w, owner);
      } else {
        OneHolder(w, owner, step.h);
      }
    }
  }

  lemma NamedInUse(w: World, owner: HubId)
    requires Inv(w) && Responsive(w) && w.sockets[w.sockName.value].owner == Some(owner)
    ensures InUse(w)
  {
    assert owner in w.hubs && w.hubs[owner].HasSocket();
  }

  /** Closing a hub that never started is harmless exactly while nobody has the path in use. */
  lemma StrayCloseExact(w: World)
    requires Inv(w)
    ensures Inv(w.(sockName := None)) <==> !InUse(w)
  {
    if InUse(w) {
      var h :| h in w.hubs && (w.hubs[h].Bound? || w.hubs[h].Serving?);
    }
  }

  /** Otherwise it leaves a serving hub accepting on a socket that no path names. */
  lemma StrayCloseOrphans(w: World, h: HubId)
    requires Reachable(w) && PhaseOf(w, h).Serving?
    ensures var t := w.(sockName := None);
            && !Responsive(t) && PhaseOf(t, h).Serving?
            && PhaseOf(t, h).sock in t.sockets && t.sockets[PhaseOf(t, h).sock].accepting
  {
    ReachableInv(w);
  }

  /** Only a daemon without the lock can answer the probe of a hub that holds it. */
  lemma ProbeFindsOnlyLegacy(w: World, h: HubId)
    requires Reachable(w) && PhaseOf(w, h).Acquired? && Responsive(w)
    ensures w.sockets[w.sockName.value].owner == None
  {
    ReachableInv(w);
    if w.sockets[w.sockName.value].owner.Some? {
      OneHolder(w, w.sockets[w.sockName.value].owner.value, h);
    }
  }

  /** A holder that dies, at whatever point, leaves the lock free for whoever has the file open. */
  lemma CrashFreesLock(w: World, h: HubId, g: HubId)
    requires Reachable(w) && PhaseOf(w, h).Holding() && PhaseOf(w, g).Opened?
    ensures Enabled(w, Crash(h)) && Enabled(Apply(w, Crash(h)), Lock(g))
    ensures !Enabled(w, Lock(g))
  {
    ReachableInv(w);
  }

  /* ---- what the pid in the refusal is worth ---- */

  /** A refused hub is told the holder's pid exactly when the holder has recorded it by the time the
      file is read, or when the leftover in a file not yet truncated happens to be that number. */
  lemma ReportNamesHolder(w: World, g: HubId, h: HubId)
    requires Reachable(w) && PhaseOf(w, g).Refused? && PhaseOf(w, h).Holding()
    ensures PhaseOf(Apply(w, ReadPid(g)), g) == Told(Some(h))
       <==> PhaseOf(w, h).Recorded() || (PhaseOf(w, h).Locked? && PidFile(w) == Some(h))
  {
    ReachableInv(w);
  }

  /** One hub alone, holding the lock. */
  function Alone(h: HubId, i: Inode, pid: Option<nat>, p: Phase): World {
    World(Some(i), map[i := pid], map[i := h], None, map[], map[h := p])
  }

  lemma AloneRecords(h: HubId, i: Inode)
    ensures Enabled(Alone(h, i, None, Locked(i)), Truncate(h))
    ensures Apply(Alone(h, i, None, Locked(i)), Truncate(h)) == Alone(h, i, None, Emptied(i))
    ensures Enabled(Alone(h, i, None, Emptied(i)), Write(h))
    ensures Apply(Alone(h, i, None, Emptied(i)), Write(h)) == Alone(h, i, Some(h), Written(i))
    ensures Enabled(Alone(h, i, Some(h), Written(i)), Sync(h))
    ensures Apply(Alone(h, i, Some(h), Written(i)), Sync(h)) == Alone(h, i, Some(h), Acquired(i))
  {
  }

  lemma AloneClears(h: HubId, i: Inode)
    ensures Enabled(Alone(h, i, Some(h), Acquired(i)), Probe(h, false))
    ensures Apply(Alone(h, i, Some(h), Acquired(i)), Probe(h, false)) == Alone(h, i, Some(h), Clear(i, false))
    ensures Enabled(Alone(h, i, Some(h), Clear(i, false)), RemoveOld(h, false))
    ensures Apply(Alone(h, i, Some(h), Clear(i, false)), RemoveOld(h, false)) == Alone(h, i, Some(h), Removed(i))
  {
  }

  lemma FirstLocked(h: HubId, i: Inode)
    ensures Reachable(Alone(h, i, None, Locked(i)))
  {
    var w := NothingYet();
    w := TakeStep(w, Open(h, i));
    assert w == World(Some(i), map[i := None], map[], None, map[], map[h := Opened(i)]);
    w := TakeStep(w, Lock(h));
    assert w == Alone(h, i, None, Locked(i));
  }

  lemma FirstRecorded(h: HubId, i: Inode)
    ensures Reachable(Alone(h, i, Some(h), Acquired(i)))
  {
    FirstLocked(h, i);
    AloneRecords(h, i);
    ReachableStep(Alone(h, i, None, Locked(i)), Truncate(h));
    ReachableStep(Alone(h, i, None, Emptied(i)), Write(h));
    ReachableStep(Alone(h, i, Some(h), Written(i)), Sync(h));
  }

  /** There are runs to such worlds: of any three hubs one has recorded its pid and the others have the
      lock file open. */
  lemma OneRecordedTwoWaiting(h: HubId, next: HubId, late: HubId, i: Inode) returns (w: World)
    requires h != next && h != late && next != late
    ensures Reachable(w)
              && w.hubs == map[h := Acquired(i), next := Opened(i), late := Opened(i)]
              && w == Alone(h, i, Some(h), Acquired(i)).(hubs := w.hubs)
  {
    FirstRecorded(h, i);
    var v := Alone(h, i, Some(h), Acquired(i));
    AlsoOpens(v, next, i + 1);
    AlsoOpens(v.(hubs := v.hubs[next := Opened(i)]), late, i + 1);
    w := v.(hubs := v.hubs[next := Opened(i)][late := Opened(i)]);
  }

  lemma AlsoOpens(w: World, g: HubId, unused: Inode)
    requires Reachable(w) && w.lockName.Some? && g !in w.hubs && unused !in w.contents
    ensures Reachable(w.(hubs := w.hubs[g := Opened(w.lockName.value)]))
  {
    ReachableStep(w, Open(g, unused));
  }

  /** And such a hub can go on to serve. */
  lemma OneServing(h: HubId, i: Inode, sock: SocketId)
    ensures Reachable(AloneBound(h, i, sock, true, Serving(i, sock)))
  {
    FirstRecorded(h, i);
    AloneClears(h, i);
    ReachableStep(Alone(h, i, Some(h), Acquired(i)), Probe(h, false));
    ReachableStep(Alone(h, i, Some(h), Clear(i, false)), RemoveOld(h, false));
    AloneServes(h, i, sock);
    ReachableStep(Alone(h, i, Some(h), Removed(i)), Bind(h, sock));
    ReachableStep(AloneBound(h, i, sock, false, Bound(i, sock)), Listen(h));
  }

  function AloneBound(h: HubId, i: Inode, sock: SocketId, accepting: bool, p: Phase): World {
    Alone(h, i, Some(h), p).(sockName := Some(sock), sockets := map[sock := Socket(Some(h), accepting)])
  }

  lemma AloneServes(h: HubId, i: Inode, sock: SocketId)
    ensures Enabled(Alone(h, i, Some(h), Removed(i)), Bind(h, sock))
    ensures Apply(Alone(h, i, Some(h), Removed(i)), Bind(h, sock)) == AloneBound(h, i, sock, false, Bound(i, sock))
    ensures Enabled(AloneBound(h, i, sock, false, Bound(i, sock)), Listen(h))
    ensures Apply(AloneBound(h, i, sock, false, Bound(i, sock)), Listen(h))
              == AloneBound(h, i, sock, true, Serving(i, sock))
  {
  }

  lemma NothingYet() returns (w: World)
    ensures Reachable(w) && w == World(None, map[], map[], None, map[], map[])
  {
    w := World(None, map[], map[], None, map[], map[]);
    assert Initial(w) && IsRun(w, []) && Final(w, []) == w;
  }

  lemma TakeStep(w: World, step: Step) returns (t: World)
    requires Reachable(w) && Enabled(w, step)
    ensures Reachable(t) && t == Apply(w, step)
  {
    ReachableStep(w, step);
    t := Apply(w, step);
  }

  /** The pid in a refusal can belong to a dead hub: the next holder has the lock but has not yet
      truncated the file, and the refused hub reads what the dead one left. */
  lemma RefusalCanNameADeadHub(w: World, dead: HubId, next: HubId, late: HubId)
    requires Reachable(w) && PhaseOf(w, dead).Recorded() && PhaseOf(w, next).Opened? && PhaseOf(w, late).Opened?
    requires next != late
    ensures var a := Apply(w, Crash(dead));
            && Enabled(a, Lock(next)) && var b := Apply(a, Lock(next));
            && Enabled(b, LockBusy(late)) && var c := Apply(b, LockBusy(late));
            && Enabled(c, ReadPid(late)) && var d := Apply(c, ReadPid(late));
            && PhaseOf(d, dead) == Dead && PhaseOf(d, next).Holding() && PhaseOf(d, late) == Told(Some(dead))
  {
    ReachableInv(w);
  }

  /** It can also be read after the only holder has died, when nobody holds the lock at all. */
  lemma RefusalCanOutliveTheHolder(w: World, dead: HubId, late: HubId)
    requires Reachable(w) && PhaseOf(w, dead).Recorded() && PhaseOf(w, late).Opened?
    ensures && Enabled(w, LockBusy(late)) && var a := Apply(w, LockBusy(late));
            && Enabled(a, Crash(dead)) && var b := Apply(a, Crash(dead));
            && Enabled(b, ReadPid(late)) && var c := Apply(b, ReadPid(late));
            && c.flock == map[] && PhaseOf(c, late) == Told(Some(dead))
  {
    ReachableInv(w);
  }

  /** Why the lock file is never unlinked: were its name removed while a hub holds it, the next hub
      would lock a new inode and both would hold. */
  lemma UnlinkingWouldBreakExclusion(w: World, h: HubId, g: HubId, created: Inode)
    requires Reachable(w) && PhaseOf(w, h).Holding() && PhaseOf(w, g).Idle? && created !in w.contents
    ensures var a := w.(lockName := None);
            && Enabled(a, Open(g, created)) && var b := Apply(a, Open(g, created));
            && Enabled(b, Lock(g)) && var c := Apply(b, Lock(g));
            && g != h && PhaseOf(c, g).Holding() && PhaseOf(c, h).Holding()
  {
    ReachableInv(w);
  }

  /* ---- the methods, between whose system calls other hubs run ---- */

  datatype Result<+T> = Ok(value: T) | Err(error: StartError)

  datatype StartError =
    | OpenFailed | LockFailed | Held(pid: nat) | TruncateFailed | WriteFailed | SyncFailed
    | AlreadyRunning | ListenFailed

  /** What the operating system decides: which calls fail, and whether an accepting socket answers
      the probe in time. */
  datatype Env = Env(
    openFails: bool, lockFails: bool, truncateFails: bool, writeFails: bool, left: Option<nat>, syncFails: bool,
    answers: bool, removes: bool, bindFails: bool, listenFails: bool)

  method FreshNumber(used: set<nat>) returns (n: nat)
    ensures n !in used
  {
    n := 0;
    var rest := used;
    while rest != {}
      invariant rest <= used
      invariant forall k | k in used && k !in rest :: k < n
      decreases rest
    {
      var k :| k in rest;
      rest := rest - {k};
      n := if k < n then n else k + 1;
    }
  }

  lemma OwnersKept(w: World, step: Step)
    requires Enabled(w, step)
    ensures SameOwners(w, Apply(w, step))
  {
  }

  ghost predicate SameOwners(w: World, t: World) {
    forall s | s in w.sockets :: s in t.sockets && t.sockets[s].owner == w.sockets[s].owner
  }

  /** The machine that all hubs share. */
  class Host {
    var world: World

    ghost predicate Valid()
      reads this
    {
      Reachable(world)
    }

    method Do(step: Step)
      requires Valid() && Enabled(world, step)
      modifies this
      ensures Valid() && world == Apply(old(world), step)
    {
      ReachableStep(world, step);
      world := Apply(world, step);
    }

    /** Whatever the others do meanwhile; of `steps`, those that are not `me`'s and can happen. */
    method Others(me: HubId, steps: seq<Step>)
      requires Valid()
      modifies this
      ensures Valid() && PhaseOf(world, me) == old(PhaseOf(world, me)) && SameOwners(old(world), world)
    {
      for i := 0 to |steps|
        invariant Valid() && PhaseOf(world, me) == old(PhaseOf(world, me)) && SameOwners(old(world), world)
      {
        if Actor(steps[i]) != Some(me) && Enabled(world, steps[i]) {
          PhaseKept(world, me, steps[i]);
          OwnersKept(world, steps[i]);
          Do(steps[i]);
        }
      }
    }
  }

  class InstanceLock {
    const path: string
    var file: Option<Inode>

    constructor (path: string, ino: Inode)
      ensures this.path == path && file == Some(ino)
    {
      this.path, file := path, Some(ino);
    }

    /** Safe to call again: only the first call closes the file. */
    method Release(host: Host, me: HubId)
      requires host.Valid() && (file.Some? ==> PhaseOf(host.world, me).Finished())
      modifies this, host
      ensures host.Valid() && file == None
      ensures if old(file).None? then host.world == old(host.world)
              else Enabled(old(host.world), Step.Release(me)) && host.world == Apply(old(host.world), Step.Release(me))
    {
      if file.None? {
        return;
      }
      file := None;
      host.Do(Step.Release(me));
    }
  }

  /** Opens the file and takes the kernel lock without blocking. */
  method TakeLock(host: Host, me: HubId, env: Env, sched: nat -> seq<Step>) returns (error: Option<StartError>)
    requires host.Valid() && PhaseOf(host.world, me).Idle?
    modifies host
    ensures host.Valid()
    ensures error.None? ==> PhaseOf(host.world, me).Locked? && !env.openFails && !env.lockFails
    ensures error.Some? ==> Refuses(PhaseOf(host.world, me), error.value)
    ensures error.Some? ==> if env.openFails then error.value.OpenFailed?
                            else if env.lockFails then error.value.LockFailed? else error.value.Held?
  {
    if env.openFails {
      return Some(OpenFailed);
    }
    var created := FreshNumber(host.world.contents.Keys);
    host.Do(Open(me, created));
    host.Others(me, sched(0));
    if env.lockFails {
      host.Do(LockFails(me));
      return Some(LockFailed);
    }
    if PhaseOf(host.world, me).ino in host.world.flock {
      var pid := ReadHolder(host, me, sched);
      return Some(Held(pid));
    }
    host.Do(Lock(me));
    host.Others(me, sched(1));
    return None;
  }

  /** The refused hub closes the file and then reads it; an unreadable pid counts as 0. */
  method ReadHolder(host: Host, me: HubId, sched: nat -> seq<Step>) returns (pid: nat)
    requires host.Valid() && Enabled(host.world, LockBusy(me))
    modifies host
    ensures host.Valid() && Refuses(PhaseOf(host.world, me), Held(pid))
  {
    host.Do(LockBusy(me));
    host.Others(me, sched(1));
    host.Do(ReadPid(me));
    var report := PhaseOf(host.world, me).report;
    return if report.Some? then report.value else 0;
  }

  /** Replaces whatever pid an earlier holder left. */
  method RecordPid(host: Host, me: HubId, env: Env, sched: nat -> seq<Step>) returns (error: Option<StartError>)
    requires host.Valid() && PhaseOf(host.world, me).Locked?
    modifies host
    ensures host.Valid()
    ensures error.None? ==> PhaseOf(host.world, me).Acquired?
    ensures error.Some? ==> PhaseOf(host.world, me).Idle?
    ensures error == if env.truncateFails then Some(TruncateFailed)
                     else if env.writeFails then Some(WriteFailed)
                     else if env.syncFails then Some(SyncFailed) else None
  {
    if env.truncateFails {
      host.Do(GiveUp(me));
      return Some(TruncateFailed);
    }
    host.Do(Truncate(me));
    host.Others(me, sched(2));
    if env.writeFails {
      host.Do(WriteFails(me, env.left));
      return Some(WriteFailed);
    }
    host.Do(Write(me));
    host.Others(me, sched(3));
    if env.syncFails {
      host.Do(GiveUp(me));
      return Some(SyncFailed);
    }
    host.Do(Sync(me));
    host.Others(me, sched(4));
    return None;
  }

  /** A failed acquire holds nothing, and a refusal carries the pid that was read. */
  ghost predicate Refuses(p: Phase, e: StartError) {
    match e
    case Held(pid) => p.Told? && pid == (if p.report.Some? then p.report.value else 0)
    case _ => p.Idle?
  }

  /** Every failure closes the file again; success holds the lock with the pid recorded. */
  method AcquireInstanceLock(host: Host, path: string, me: HubId, env: Env, sched: nat -> seq<Step>)
    returns (r: Result<InstanceLock>)
    requires host.Valid() && PhaseOf(host.world, me).Idle?
    modifies host
    ensures host.Valid()
    ensures r.Ok? ==> fresh(r.value) && r.value.file.Some? && PhaseOf(host.world, me) == Acquired(r.value.file.value)
    ensures r.Ok? ==> PidFile(host.world) == Some(me)
    ensures r.Ok? ==> !env.openFails && !env.lockFails && !env.truncateFails && !env.writeFails && !env.syncFails
    ensures r.Err? ==> Refuses(PhaseOf(host.world, me), r.error)
    ensures r.Err? ==> !r.error.AlreadyRunning? && !r.error.ListenFailed?
    ensures env.lockFails ==> r.Err? && (r.error.OpenFailed? || r.error.LockFailed?)
  {
    var error := TakeLock(host, me, env, sched);
    if error.None? {
      error := RecordPid(host, me, env, sched);
    }
    if error.Some? {
      return Err(error.value);
    }
    PidFileNamesHolder(host.world, me);
    var lock := new InstanceLock(path, PhaseOf(host.world, me).ino);
    r := Ok(lock);
  }

  class Hub {
    const pid: HubId
    const socketPath: string
    var lock: InstanceLock?
    var listener: Option<SocketId>

    constructor (pid: HubId, socketPath: string)
      ensures this.pid == pid && this.socketPath == socketPath && lock == null && listener == None
    {
      this.pid, this.socketPath, lock, listener := pid, socketPath, null, None;
    }

    /** A started hub holds the lock of its path and the path names the socket it accepts on. */
    ghost predicate Started(host: Host)
      reads this, host, lock
    {
      && lock != null && lock.file.Some? && listener.Some?
      && PhaseOf(host.world, pid) == Serving(lock.file.value, listener.value)
    }

    /** Lock, probe, unlink, listen, in that order, whatever others do in between. Success leaves the
        path naming this hub's accepting socket and the pid file naming this hub; failure leaves
        nothing held. */
    method Start(host: Host, env: Env, sched: nat -> seq<Step>) returns (error: Option<StartError>)
      requires host.Valid() && PhaseOf(host.world, pid).Idle? && lock == null && listener == None
      modifies this, host
      ensures host.Valid()
      ensures error.None? ==> Started(host) && fresh(lock)
      ensures error.None? ==>
                host.world.sockName == listener && Responsive(host.world) && PidFile(host.world) == Some(pid)
      ensures error.Some? ==> lock == null && listener == None && pid !in host.world.flock.Values
      ensures error == Some(AlreadyRunning) ==> env.answers
      ensures env.lockFails ==> error == Some(OpenFailed) || error == Some(LockFailed)
    {
      var acquired := AcquireInstanceLock(host, InstanceLockPath(socketPath), pid, env, sched);
      if acquired.Err? {
        NotHolding(host.world, pid);
        return Some(acquired.error);
      }
      lock := acquired.value;
      var answered := env.answers && Responsive(host.world);
      host.Do(Probe(pid, answered));
      if answered {
        host.Others(pid, sched(9));
        GiveBack(host);
        return Some(AlreadyRunning);
      }
      var sock := ReplaceSocket(host, env, sched);
      if sock.None? {
        host.Others(pid, sched(9));
        GiveBack(host);
        return Some(ListenFailed);
      }
      listener := sock;
      ServingOwnsPath(host.world, pid);
      return None;
    }

    /** A start that fails after acquiring does not keep the lock. */
    method GiveBack(host: Host)
      requires host.Valid() && lock != null && lock.file.Some?
      requires PhaseOf(host.world, pid).Answered? || PhaseOf(host.world, pid).NotListening?
      modifies this`lock, host, lock
      ensures host.Valid() && lock == null && PhaseOf(host.world, pid).Idle? && pid !in host.world.flock.Values
    {
      lock.Release(host, pid);
      lock := null;
      NotHolding(host.world, pid);
    }

    /** Removes what is left at the path and listens there. */
    method ReplaceSocket(host: Host, env: Env, sched: nat -> seq<Step>) returns (r: Option<SocketId>)
      requires host.Valid() && PhaseOf(host.world, pid).Clear?
      modifies host
      ensures host.Valid()
      ensures r.None? ==> PhaseOf(host.world, pid).NotListening?
      ensures r.Some? ==> PhaseOf(host.world, pid) == Serving(old(PhaseOf(host.world, pid).ino), r.value)
      ensures env.bindFails || env.listenFails ==> r.None?
    {
      host.Others(pid, sched(5));
      host.Do(RemoveOld(pid, env.removes));
      host.Others(pid, sched(6));
      if env.bindFails || host.world.sockName.Some? {
        host.Do(ListenFails(pid));
        return None;
      }
      var sock := FreshNumber(host.world.sockets.Keys);
      host.Do(Bind(pid, sock));
      host.Others(pid, sched(7));
      if env.listenFails {
        host.Do(ListenFails(pid));
        return None;
      }
      BoundSocketExists(host.world, pid);
      host.Do(Listen(pid));
      host.Others(pid, sched(8));
      return Some(sock);
    }

    /** Before a start, or after one that failed. */
    ghost predicate Unstarted(host: Host)
      reads this, host
    {
      lock == null && listener == None && PhaseOf(host.world, pid).AtRest()
    }

    /** Unlinks, closes the listener, unlinks again and releases last. A hub that did not start has only the
        path to remove, whoever's it is. */
    method Close(host: Host, sched: nat -> seq<Step>)
      requires host.Valid() && (Started(host) || Unstarted(host))
      modifies this, host, lock
      ensures old(Started(host)) ==>
                && host.Valid() && lock == null && PhaseOf(host.world, pid) == Closed
                && host.world.flock == map[] && host.world.sockName == None
                && old(listener.value) in host.world.sockets && !host.world.sockets[old(listener.value)].accepting
      ensures old(Unstarted(host)) ==> host.world == old(host.world).(sockName := None)
      ensures old(Unstarted(host)) && !InUse(old(host.world)) ==> host.Valid()
    {
      if listener.None? {
        RemoveStray(host);
        return;
      }
      var sock := listener.value;
      StopListening(host, sock, sched);
      host.Do(CloseRemove(pid));
      host.Others(pid, sched(2));
      AtRelease(host.world, pid);
      lock.Release(host, pid);
      lock := null;
    }

    method RemoveStray(host: Host)
      requires host.Valid() && Unstarted(host)
      modifies host
      ensures host.world == old(host.world).(sockName := None)
      ensures !InUse(old(host.world)) ==> host.Valid()
    {
      if !InUse(host.world) {
        ReachableStep(host.world, StrayRemove(pid));
      }
      host.world := host.world.(sockName := None);
    }

    /** Closing a listening socket unlinks its path first. */
    method StopListening(host: Host, sock: SocketId, sched: nat -> seq<Step>)
      requires host.Valid() && PhaseOf(host.world, pid).Serving? && PhaseOf(host.world, pid).sock == sock
      modifies host
      ensures host.Valid() && PhaseOf(host.world, pid).Stopped?
      ensures sock in host.world.sockets && host.world.sockets[sock].owner == Some(pid)
    {
      ServingOwnsPath(host.world, pid);
      ServingSocket(host.world, pid);
      host.Do(CloseUnlink(pid));
      host.Others(pid, sched(0));
      host.Do(CloseListener(pid));
      host.Others(pid, sched(1));
    }
  }

  lemma BoundSocketExists(w: World, h: HubId)
    requires Reachable(w) && PhaseOf(w, h).Bound?
    ensures Enabled(w, Listen(h))
  {
    ReachableInv(w);
  }

  lemma ServingSocket(w: World, h: HubId)
    requires Reachable(w) && PhaseOf(w, h).Serving?
    ensures PhaseOf(w, h).sock in w.sockets && w.sockets[PhaseOf(w, h).sock].owner == Some(h)
  {
    ReachableInv(w);
  }

  /** What the last step of closing leaves: no lock, no name, no accepting socket of this hub. */
  lemma AtRelease(w: World, h: HubId)
    requires Reachable(w) && PhaseOf(w, h).Swept?
    ensures Enabled(w, Step.Release(h))
    ensures var t := Apply(w, Step.Release(h));
            && PhaseOf(t, h) == Closed && t.flock == map[] && t.sockName == None
            && forall s | s in t.sockets && t.sockets[s].owner == Some(h) :: !t.sockets[s].accepting
    ensures Apply(w, Step.Release(h)).sockets == w.sockets
  {
    ReachableInv(w);
  }

  lemma NotHolding(w: World, h: HubId)
    requires Reachable(w) && !PhaseOf(w, h).Holding()
    ensures h !in w.flock.Values
  {
    ReachableInv(w);
  }
}
