/**
 * The command lock of `src/worthless/cli/bootstrap.py` and the key provisioning that runs under it,
 * as a step machine: every step is one system call of one process, or the passing of time.
 * Any number of processes may run, in any interleaving, and any of them may die before any step.
 * Inode numbers are reused as soon as nothing names or holds the old inode.
 */
module LockProtocol {
  import opened Common
  import opened Keystore

  type Pid = nat
  type Ino = nat

  const STALE_LOCK_SECONDS := 300
  const STAMP_READ_BYTES := 256

  /** Why a process takes the lock. `Update` is any command that writes enrollment rows under it. */
  datatype Purpose = FirstRun | StaleMarker | Update

  /** How far the holder is in what it does under the lock. */
  datatype Task = Entered | CheckingKeyless | DroppingMarker | Probing | Migrating | Minting

  datatype Pc =
    | Idle
    // ensure_home, before it takes the lock
    | CheckingMarker
    | JudgingKeyless
    | JudgingRows
    // check_stale_lock: a read descriptor on `ino`
    | Acquiring
    | Opened(ino: Ino)
    | ReadingStamp(ino: Ino)
    | Aging(ino: Ino)
    | Comparing(ino: Ino)
    | Unlinking(ino: Ino)
    | CheckDone(ino: Ino, proceed: bool)
    // acquire_lock: a write descriptor on `ino`
    | Ready
    | Created(ino: Ino)
    | Flocked(ino: Ino)
    | Critical(ino: Ino, flocked: bool, task: Task)
    | Releasing(ino: Ino, flocked: bool, done: bool)
    | Closing(ino: Ino, done: bool)
    // ensure_home, after the lock
    | WritingMarker
    | Dead

  datatype Proc = Proc(pc: Pc, purpose: Purpose)

  datatype Inode = Inode(content: string, mtime: int, flock: Option<Pid>)

  /** `minted` records, for each fresh key, how many enrollments existed when it was stored. */
  datatype Mint = Mint(key: Key, rowsThen: nat)

  datatype State = State(
    host: string,
    path: Option<Ino>,
    inodes: map<Ino, Inode>,
    procs: map<Pid, Proc>,
    now: int,
    store: Store,
    rows: nat,
    marker: bool,
    minted: seq<Mint>
  )

  datatype Act =
    | EnsureHome | ReadMarker | JudgeKeyless | JudgeRows | UpdateCommand
    | OpenLock | FlockProbe | ReadStamp | AgeTest | StatPath | UnlinkStale | CloseCheck
    | Create(ino: Ino) | FlockOwn | GiveUpFlock | WriteStamp(bytes: nat) | WriteRaises
    | CheckRows | CheckKeyless | DropMarker
    | ProbeKey(faults: ReadFaults) | Migrate(wfaults: WriteFaults, fileInvalid: bool, readRaises: bool)
    | MintKey(key: Key, mfaults: WriteFaults) | WriteRows(rows: nat)
    | Leave | UnlinkOwn | UnlinkOwnRaises | CloseOwn | WriteMarker
    | Crash

  datatype Label = By(pid: Pid, act: Act) | Tick(seconds: nat)

  predicate IsOutsideAct(a: Act) {
    a.EnsureHome? || a.ReadMarker? || a.JudgeKeyless? || a.JudgeRows? || a.UpdateCommand? || a.WriteMarker?
  }

  predicate IsCheckAct(a: Act) {
    a.OpenLock? || a.FlockProbe? || a.ReadStamp? || a.AgeTest? || a.StatPath? || a.UnlinkStale? || a.CloseCheck?
  }

  predicate IsAcquireAct(a: Act) {
    || a.Create? || a.FlockOwn? || a.GiveUpFlock? || a.WriteStamp? || a.WriteRaises?
    || a.Leave? || a.UnlinkOwn? || a.UnlinkOwnRaises? || a.CloseOwn?
  }

  predicate IsTaskAct(a: Act) {
    a.CheckRows? || a.CheckKeyless? || a.DropMarker? || a.ProbeKey? || a.Migrate? || a.MintKey? || a.WriteRows?
  }

  // ----- Small pieces of the source ------------------------------------------------------------

  predicate IsSpace(c: char) { c in " \t\n\r\U{000B}\U{000C}" }

  function SkipSpace(s: string): string {
    if s != "" && IsSpace(s[0]) then SkipSpace(s[1..]) else s
  }

  function TakeWord(s: string): string {
    if s != "" && !IsSpace(s[0]) then [s[0]] + TakeWord(s[1..]) else ""
  }

  /** `content.split(maxsplit=1)[:1] == [host]`. */
  predicate StampedBy(content: string, host: string) {
    var word := TakeWord(SkipSpace(if |content| > STAMP_READ_BYTES then content[..STAMP_READ_BYTES] else content));
    word != "" && word == host
  }

  function Decimal(n: nat): string {
    (if n < 10 then "" else Decimal(n / 10)) + ["0123456789"[n % 10]]
  }

  /** "<hostname> <pid>\n". */
  function Stamp(host: string, p: Pid): string {
    host + " " + Decimal(p) + "\n"
  }

  /** A write may store only a prefix of its bytes. */
  function Written(s: string, bytes: nat): string {
    if bytes < |s| then s[..bytes] else s
  }

  // ----- State helpers -------------------------------------------------------------------------

  function ProcOf(s: State, p: Pid): Proc {
    if p in s.procs then s.procs[p] else Proc(Idle, Update)
  }

  function PcOf(s: State, p: Pid): Pc {
    ProcOf(s, p).pc
  }

  function Goto(s: State, p: Pid, pc: Pc): State {
    s.(procs := s.procs[p := ProcOf(s, p).(pc := pc)])
  }

  /** The inode a process has open. */
  function Fd(pc: Pc): Option<Ino> {
    match pc
    case Opened(i) => Some(i)
    case ReadingStamp(i) => Some(i)
    case Aging(i) => Some(i)
    case Comparing(i) => Some(i)
    case Unlinking(i) => Some(i)
    case CheckDone(i, _) => Some(i)
    case Created(i) => Some(i)
    case Flocked(i) => Some(i)
    case Critical(i, _, _) => Some(i)
    case Releasing(i, _, _) => Some(i)
    case Closing(i, _) => Some(i)
    case _ => None
  }

  /** Between create and release. */
  predicate Owner(pc: Pc) {
    pc.Created? || pc.Flocked? || pc.Critical? || pc.Releasing?
  }

  predicate HoldsFlock(pc: Pc) {
    || pc.ReadingStamp? || pc.Aging? || pc.Comparing? || pc.Unlinking?
    || pc.Flocked? || (pc.Critical? && pc.flocked) || (pc.Releasing? && pc.flocked)
  }

  predicate InUse(s: State, i: Ino) {
    s.path == Some(i) || exists p :: p in s.procs && Fd(PcOf(s, p)) == Some(i)
  }

  function SetFlock(s: State, i: Ino, holder: Option<Pid>): State {
    if i in s.inodes then s.(inodes := s.inodes[i := s.inodes[i].(flock := holder)]) else s
  }

  /** close(2), or the kernel closing the descriptors of a dead process: a flock goes with it. */
  function CloseFd(s: State, p: Pid): State {
    match Fd(PcOf(s, p))
    case None => s
    case Some(i) => if i in s.inodes && s.inodes[i].flock == Some(p) then SetFlock(s, i, None) else s
  }

  // ----- Steps ---------------------------------------------------------------------------------

  /** ensure_home up to the lock; `_guard_and_provision_keystore`'s unlocked checks. */
  function ApplyOutside(s: State, p: Pid, a: Act): State
    requires IsOutsideAct(a)
  {
    var pc := PcOf(s, p);
    match a
    case EnsureHome => if pc.Idle? then Goto(s, p, CheckingMarker) else s
    case ReadMarker =>
      if !pc.CheckingMarker? then s
      else if s.marker then Goto(s, p, JudgingKeyless)
      else s.(procs := s.procs[p := Proc(Acquiring, FirstRun)])
    case JudgeKeyless =>
      if !pc.JudgingKeyless? then s
      else Goto(s, p, if ProvablyKeyless(s.store) then JudgingRows else Idle)
    case JudgeRows =>
      if !pc.JudgingRows? then s
      else if s.rows > 0 then Goto(s, p, Idle)
      else s.(procs := s.procs[p := Proc(Acquiring, StaleMarker)])
    case UpdateCommand =>
      if pc.Idle? then s.(procs := s.procs[p := Proc(Acquiring, Update)]) else s
    case WriteMarker =>
      if pc.WritingMarker? then Goto(s, p, Idle).(marker := true) else s
  }

  /** check_stale_lock. */
  function ApplyCheck(s: State, p: Pid, a: Act): State
    requires IsCheckAct(a)
  {
    var pc := PcOf(s, p);
    match a
    case OpenLock =>
      if !pc.Acquiring? then s
      else Goto(s, p, if s.path.Some? then Opened(s.path.value) else Ready)
    case FlockProbe =>
      if !(pc.Opened? && pc.ino in s.inodes) then s
      else if s.inodes[pc.ino].flock.Some? then Goto(s, p, CheckDone(pc.ino, false))
      else Goto(SetFlock(s, pc.ino, Some(p)), p, ReadingStamp(pc.ino))
    case ReadStamp =>
      if !(pc.ReadingStamp? && pc.ino in s.inodes) then s
      else Goto(s, p, if StampedBy(s.inodes[pc.ino].content, s.host) then Comparing(pc.ino) else Aging(pc.ino))
    case AgeTest =>
      if !(pc.Aging? && pc.ino in s.inodes) then s
      else Goto(s, p, if s.now - s.inodes[pc.ino].mtime > STALE_LOCK_SECONDS then Comparing(pc.ino)
                      else CheckDone(pc.ino, false))
    case StatPath =>
      if !pc.Comparing? then s
      else Goto(s, p, if s.path == Some(pc.ino) then Unlinking(pc.ino) else CheckDone(pc.ino, true))
    case UnlinkStale =>
      if !pc.Unlinking? then s
      else Goto(s, p, CheckDone(pc.ino, true)).(path := None)
    case CloseCheck =>
      if !pc.CheckDone? then s
      else Goto(CloseFd(s, p), p, if pc.proceed then Ready else Idle)
  }

  /** acquire_lock: create, flock, stamp, and the release in its `finally`. */
  function ApplyAcquire(s: State, p: Pid, a: Act): State
    requires IsAcquireAct(a)
  {
    var pc := PcOf(s, p);
    match a
    case Create(i) =>
      if !pc.Ready? then s
      else if s.path.Some? then Goto(s, p, Idle)  // O_EXCL: somebody else's lock
      else if InUse(s, i) then s
      else Goto(s, p, Created(i)).(path := Some(i), inodes := s.inodes[i := Inode("", s.now, None)])
    case FlockOwn =>
      if !(pc.Created? && pc.ino in s.inodes && s.inodes[pc.ino].flock.None?) then s
      else Goto(SetFlock(s, pc.ino, Some(p)), p, Flocked(pc.ino))
    case GiveUpFlock =>
      if !pc.Created? then s else Goto(s, p, Critical(pc.ino, false, Entered))
    case WriteStamp(n) =>
      if !(pc.Flocked? && pc.ino in s.inodes) then s
      else
        var f := s.inodes[pc.ino].(content := Written(Stamp(s.host, p), n), mtime := s.now);
        Goto(s.(inodes := s.inodes[pc.ino := f]), p, Critical(pc.ino, true, Entered))
    case WriteRaises =>
      if !pc.Flocked? then s else Goto(s, p, Releasing(pc.ino, true, false))
    case Leave =>
      if !pc.Critical? then s else Goto(s, p, Releasing(pc.ino, pc.flocked, false))
    case UnlinkOwn =>
      if !pc.Releasing? then s else Goto(s, p, Closing(pc.ino, pc.done)).(path := None)
    case UnlinkOwnRaises =>
      if !pc.Releasing? then s else Goto(s, p, Closing(pc.ino, false))
    case CloseOwn =>
      if !pc.Closing? then s else Goto(CloseFd(s, p), p, if pc.done then WritingMarker else Idle)
  }

  /** What is done under the lock: `_guard_and_provision_keystore` and the commands that write rows. */
  function ApplyTask(s: State, p: Pid, a: Act): State
    requires IsTaskAct(a)
  {
    var pc := PcOf(s, p);
    if !pc.Critical? then s else
      var purpose := ProcOf(s, p).purpose;
      var bail := Goto(s, p, Releasing(pc.ino, pc.flocked, false));
      var finished := Goto(s, p, Releasing(pc.ino, pc.flocked, true));
      match a
      case CheckRows =>
        if !pc.task.Entered? || purpose.Update? then s
        else if s.rows > 0 then bail
        else Goto(s, p, pc.(task := if purpose.FirstRun? then Probing else CheckingKeyless))
      case CheckKeyless =>
        if !pc.task.CheckingKeyless? then s
        else if !ProvablyKeyless(s.store) then bail
        else Goto(s, p, pc.(task := DroppingMarker))
      case DropMarker =>
        if !pc.task.DroppingMarker? then s
        else Goto(s, p, pc.(task := Probing)).(marker := false)
      case ProbeKey(f) =>
        if !pc.task.Probing? then s
        else (match Read(s.store, f)
              case Found(_) => Goto(s, p, pc.(task := Migrating))
              case Refused => bail
              case NotFound => if s.rows > 0 then bail else Goto(s, p, pc.(task := Minting)))
      case Migrate(f, fileInvalid, readRaises) =>
        if !pc.task.Migrating? then s
        else finished.(store := Keystore.Migrate(s.store, f, fileInvalid, readRaises))
      case MintKey(k, f) =>
        if !pc.task.Minting? then s
        else finished.(store := Write(s.store, k, f), minted := s.minted + [Mint(k, s.rows)])
      case WriteRows(n) =>
        if !purpose.Update? then s else s.(rows := n)
  }

  function Apply(s: State, l: Label): State {
    match l
    case Tick(d) => s.(now := s.now + d)
    case By(p, a) =>
      if PcOf(s, p).Dead? then s
      else if a.Crash? then Goto(CloseFd(s, p), p, Dead)
      else if IsOutsideAct(a) then ApplyOutside(s, p, a)
      else if IsCheckAct(a) then ApplyCheck(s, p, a)
      else if IsAcquireAct(a) then ApplyAcquire(s, p, a)
      else ApplyTask(s, p, a)
  }

  function Run(s: State, ls: seq<Label>): State
    decreases |ls|
  {
    if ls == [] then s else Run(Apply(s, ls[0]), ls[1..])
  }

  /** A home nobody is using yet; a lock file left over from any earlier crash may be lying there. */
  predicate Init(s: State) {
    && s.procs == map[]
    && (forall i :: i in s.inodes ==> s.inodes[i].flock.None?)
    && (s.path.Some? ==> s.path.value in s.inodes)
    && s.minted == []
  }

  // ----- Mutual exclusion ----------------------------------------------------------------------

  /** A process that the 5-minute rule may mistake for a dead one: it owns the file without its flock. */
  predicate UnflockedOwner(s: State, p: Pid) {
    Owner(PcOf(s, p)) && !HoldsFlock(PcOf(s, p))
  }

  /** The age test is about to condemn a file that a live process still owns. */
  ghost predicate CondemnsLiveFile(s: State, l: Label) {
    && l.By? && l.act.AgeTest?
    && PcOf(s, l.pid).Aging? && PcOf(s, l.pid).ino in s.inodes
    && s.now - s.inodes[PcOf(s, l.pid).ino].mtime > STALE_LOCK_SECONDS
    && exists q :: UnflockedOwner(s, q) && Fd(PcOf(s, q)) == Fd(PcOf(s, l.pid))
  }

  /** No step of the run is such an age test. */
  ghost predicate Safe(s: State, ls: seq<Label>)
    decreases |ls|
  {
    ls == [] || (!CondemnsLiveFile(s, ls[0]) && Safe(Apply(s, ls[0]), ls[1..]))
  }

  /** The timing assumption of the design: without its flock, a holder is done before its file is 300 s old. */
  ghost predicate Timely(s: State) {
    forall p :: UnflockedOwner(s, p) && PcOf(s, p).ino in s.inodes ==>
                  s.now - s.inodes[PcOf(s, p).ino].mtime <= STALE_LOCK_SECONDS
  }

  ghost predicate TimelyRun(s: State, ls: seq<Label>)
    decreases |ls|
  {
    Timely(s) && (ls != [] ==> TimelyRun(Apply(s, ls[0]), ls[1..]))
  }

  predicate HasFd(pc: Pc) { Fd(pc).Some? }

  ghost predicate MutualExclusion(s: State) {
    forall p, q :: Owner(PcOf(s, p)) && Owner(PcOf(s, q)) ==> p == q
  }

  /** What one process's program counter says about the shared state. */
  predicate ProcInv(s: State, p: Pid, pc: Pc) {
    && (HasFd(pc) ==> pc.ino in s.inodes)
    && (HoldsFlock(pc) ==> s.inodes[pc.ino].flock == Some(p))
    && (Owner(pc) || pc.Unlinking? ==> s.path == Some(pc.ino))
    && (Owner(pc) && !HoldsFlock(pc) ==> s.inodes[pc.ino].content == "")
  }

  predicate Condemned(pc: Pc) { pc.Comparing? || pc.Unlinking? }

  /** Two processes never both own the lock, and a condemned file has no owner. */
  predicate PairInv(pc: Pc, qc: Pc) {
    && !(Owner(pc) && Owner(qc))
    && (Condemned(pc) && Owner(qc) ==> pc.ino != qc.ino)
    && (Owner(pc) && Condemned(qc) ==> pc.ino != qc.ino)
  }

  /** A held flock belongs to a process that has the file open. */
  predicate FlockInv(s: State, i: Ino) {
    i in s.inodes && s.inodes[i].flock.Some? ==> Fd(PcOf(s, s.inodes[i].flock.value)) == Some(i)
  }

  /** The inductive invariant: a live owner's inode is the one the path names, and is never condemned. */
  ghost predicate Inv(s: State) {
    && (s.path.Some? ==> s.path.value in s.inodes)
    && (forall p :: ProcInv(s, p, PcOf(s, p)))
    && (forall p, q :: p != q ==> PairInv(PcOf(s, p), PcOf(s, q)))
    && (forall i :: FlockInv(s, i))
  }

  /** What a step of `p` must leave alone for everybody else's part of the invariant to survive. */
  ghost predicate KeepsOthers(s: State, t: State, p: Pid) {
    && (forall q :: q != p ==> PcOf(t, q) == PcOf(s, q))
    && (forall q :: q != p ==> ProcInv(t, q, PcOf(s, q)))
    && (forall q :: q != p ==> PairInv(PcOf(t, p), PcOf(s, q)))
  }

  lemma FromParts(s: State, t: State, p: Pid)
    requires Inv(s) && KeepsOthers(s, t, p)
    requires t.path.Some? ==> t.path.value in t.inodes
    requires ProcInv(t, p, PcOf(t, p))
    requires forall i :: FlockInv(t, i)
    ensures Inv(t)
  {
  }

  lemma GotoOthers(s: State, p: Pid, pc: Pc)
    ensures PcOf(Goto(s, p, pc), p) == pc
    ensures forall q :: q != p ==> PcOf(Goto(s, p, pc), q) == PcOf(s, q)
  {
  }

  /** close(2) frees at most the flock of the closing process; nothing else moves. */
  lemma CloseKeepsOthers(s: State, p: Pid, pc: Pc)
    requires Inv(s) && !HasFd(pc)
    ensures Inv(Goto(CloseFd(s, p), p, pc))
  {
    var t := Goto(CloseFd(s, p), p, pc);
    GotoOthers(CloseFd(s, p), p, pc);
    forall i ensures FlockInv(t, i) { assert FlockInv(s, i); }
    FromParts(s, t, p);
  }

  lemma StepKeepsInvOutside(s: State, p: Pid, a: Act)
    requires Inv(s) && IsOutsideAct(a)
    ensures Inv(ApplyOutside(s, p, a))
  {
    var t := ApplyOutside(s, p, a);
    assert ProcInv(s, p, PcOf(s, p));
    if t != s {
      assert forall q :: q != p ==> PcOf(t, q) == PcOf(s, q);
      assert !HasFd(PcOf(s, p)) && !HasFd(PcOf(t, p));
      forall i ensures FlockInv(t, i) { assert FlockInv(s, i); }
      FromParts(s, t, p);
    }
  }

  /** What a step of check_stale_lock means for one other process. */
  lemma CheckAndOther(s: State, p: Pid, a: Act, q: Pid)
    requires Inv(s) && IsCheckAct(a) && !a.CloseCheck? && p != q
    requires !CondemnsLiveFile(s, By(p, a))
    ensures var t := ApplyCheck(s, p, a);
            PcOf(t, q) == PcOf(s, q) && ProcInv(t, q, PcOf(s, q)) && PairInv(PcOf(t, p), PcOf(s, q))
  {
    var t, pc := ApplyCheck(s, p, a), PcOf(s, p);
    assert ProcInv(s, p, pc) && ProcInv(s, q, PcOf(s, q)) && PairInv(pc, PcOf(s, q));
    EmptyIsUnstamped(s.host);
    if a.AgeTest? { assert UnflockedOwner(s, q) ==> !Condemned(PcOf(t, p)) || PcOf(s, q).ino != pc.ino; }
  }

  lemma CheckKeepsFlocks(s: State, p: Pid, a: Act)
    requires Inv(s) && IsCheckAct(a) && !a.CloseCheck? && !CondemnsLiveFile(s, By(p, a))
    ensures forall i :: FlockInv(ApplyCheck(s, p, a), i)
  {
    assert ProcInv(s, p, PcOf(s, p));
    forall i ensures FlockInv(ApplyCheck(s, p, a), i) { assert FlockInv(s, i); }
  }

  lemma StepKeepsInvCheck(s: State, p: Pid, a: Act)
    requires Inv(s) && IsCheckAct(a)
    requires !CondemnsLiveFile(s, By(p, a))
    ensures Inv(ApplyCheck(s, p, a))
  {
    var t := ApplyCheck(s, p, a);
    var pc := PcOf(s, p);
    assert ProcInv(s, p, pc);
    if a.CloseCheck? {
      CloseKeepsOthers(s, p, if pc.CheckDone? && pc.proceed then Ready else Idle);
    } else if t != s {
      forall q | q != p ensures PcOf(t, q) == PcOf(s, q) && ProcInv(t, q, PcOf(s, q)) && PairInv(PcOf(t, p), PcOf(s, q)) {
        CheckAndOther(s, p, a, q);
      }
      CheckKeepsFlocks(s, p, a);
      FromParts(s, t, p);
    }
  }

  /** The new file is nobody else's: the path was free, so nobody owns a lock, and nobody has it open. */
  lemma CreateKeepsFlocks(s: State, p: Pid, a: Act)
    requires Inv(s) && a.Create?
    ensures forall i :: FlockInv(ApplyAcquire(s, p, a), i)
  {
    forall i ensures FlockInv(ApplyAcquire(s, p, a), i) { assert FlockInv(s, i); }
  }

  lemma CreateKeepsInv(s: State, p: Pid, a: Act)
    requires Inv(s) && a.Create?
    ensures Inv(ApplyAcquire(s, p, a))
  {
    var t := ApplyAcquire(s, p, a);
    var pc := PcOf(s, p);
    if t != s {
      assert forall q :: q != p ==> PcOf(t, q) == PcOf(s, q);
      forall q | q != p ensures ProcInv(t, q, PcOf(s, q)) && PairInv(PcOf(t, p), PcOf(s, q)) {
        assert ProcInv(s, q, PcOf(s, q)) && PairInv(pc, PcOf(s, q));
        assert HasFd(PcOf(s, q)) ==> q in s.procs;
      }
      CreateKeepsFlocks(s, p, a);
      FromParts(s, t, p);
    }
  }

  /** A release unlinks by path, and the path still names the releasing owner's own file. */
  lemma UnlinkKeepsInv(s: State, p: Pid, a: Act)
    requires Inv(s) && (a.UnlinkOwn? || a.UnlinkOwnRaises?)
    ensures Inv(ApplyAcquire(s, p, a))
  {
    var t := ApplyAcquire(s, p, a);
    var pc := PcOf(s, p);
    assert ProcInv(s, p, pc);
    if t != s {
      assert forall q :: q != p ==> PcOf(t, q) == PcOf(s, q);
      forall q | q != p ensures ProcInv(t, q, PcOf(s, q)) && PairInv(PcOf(t, p), PcOf(s, q)) {
        assert ProcInv(s, q, PcOf(s, q)) && PairInv(pc, PcOf(s, q));
      }
      forall i ensures FlockInv(t, i) { assert FlockInv(s, i); }
      FromParts(s, t, p);
    }
  }

  lemma StampKeepsInv(s: State, p: Pid, a: Act)
    requires Inv(s) && IsAcquireAct(a) && !a.Create? && !a.UnlinkOwn? && !a.UnlinkOwnRaises? && !a.CloseOwn?
    ensures Inv(ApplyAcquire(s, p, a))
  {
    var t := ApplyAcquire(s, p, a);
    var pc := PcOf(s, p);
    assert ProcInv(s, p, pc);
    if t != s {
      assert forall q :: q != p ==> PcOf(t, q) == PcOf(s, q);
      assert pc.ino in s.inodes && pc.ino in t.inodes;
      assert t.path == s.path && Owner(pc) && Owner(PcOf(t, p));
      forall q | q != p ensures ProcInv(t, q, PcOf(s, q)) && PairInv(PcOf(t, p), PcOf(s, q)) {
        assert ProcInv(s, q, PcOf(s, q)) && PairInv(pc, PcOf(s, q));
      }
      forall i ensures FlockInv(t, i) { assert FlockInv(s, i); }
      FromParts(s, t, p);
    }
  }

  lemma StepKeepsInvAcquire(s: State, p: Pid, a: Act)
    requires Inv(s) && IsAcquireAct(a)
    ensures Inv(ApplyAcquire(s, p, a))
  {
    if a.CloseOwn? {
      var pc := PcOf(s, p);
      CloseKeepsOthers(s, p, if pc.Closing? && pc.done then WritingMarker else Idle);
    } else if a.Create? {
      CreateKeepsInv(s, p, a);
    } else if a.UnlinkOwn? || a.UnlinkOwnRaises? {
      UnlinkKeepsInv(s, p, a);
    } else {
      StampKeepsInv(s, p, a);
    }
  }

  /** Work under the lock moves neither the lock file nor anybody else. */
  lemma TaskShape(s: State, p: Pid, a: Act)
    requires IsTaskAct(a)
    ensures var t := ApplyTask(s, p, a);
            && t.inodes == s.inodes && t.path == s.path
            && (forall q :: q != p ==> PcOf(t, q) == PcOf(s, q))
            && (PcOf(t, p) == PcOf(s, p) ||
                (PcOf(s, p).Critical? && Owner(PcOf(t, p)) && !Condemned(PcOf(t, p)) &&
                 HoldsFlock(PcOf(t, p)) == HoldsFlock(PcOf(s, p)) && PcOf(t, p).ino == PcOf(s, p).ino))
  {
  }

  lemma StepKeepsInvTask(s: State, p: Pid, a: Act)
    requires Inv(s) && IsTaskAct(a)
    ensures Inv(ApplyTask(s, p, a))
  {
    TaskShape(s, p, a);
    SameOwnerKeepsInv(s, ApplyTask(s, p, a), p);
  }

  lemma SameOwnerKeepsInv(s: State, t: State, p: Pid)
    requires Inv(s) && t.inodes == s.inodes && t.path == s.path
    requires forall q :: q != p ==> PcOf(t, q) == PcOf(s, q)
    requires PcOf(t, p) == PcOf(s, p) ||
             (PcOf(s, p).Critical? && Owner(PcOf(t, p)) && !Condemned(PcOf(t, p)) &&
              HoldsFlock(PcOf(t, p)) == HoldsFlock(PcOf(s, p)) && PcOf(t, p).ino == PcOf(s, p).ino)
    ensures Inv(t)
  {
    var pc := PcOf(s, p);
    assert ProcInv(s, p, pc);
    forall q | q != p ensures ProcInv(t, q, PcOf(s, q)) && PairInv(PcOf(t, p), PcOf(s, q)) {
      assert ProcInv(s, q, PcOf(s, q)) && PairInv(pc, PcOf(s, q));
    }
    forall i ensures FlockInv(t, i) { assert FlockInv(s, i); }
    FromParts(s, t, p);
  }

  lemma EmptyIsUnstamped(host: string)
    ensures !StampedBy("", host)
  {
  }

  // ----- What the helpers' callers rely on ------------------------------------------------------

  predicate NoSpace(w: string) { forall c :: c in w ==> !IsSpace(c) }

  lemma {:induction false} TakeWordOf(w: string, rest: string)
    requires NoSpace(w) && (rest == "" || IsSpace(rest[0]))
    ensures TakeWord(w + rest) == w
    decreases |w|
  {
    if w == "" {
      assert w + rest == rest;
    } else {
      assert w[0] in w && forall c :: c in w[1..] ==> c in w;
      assert (w + rest)[1..] == w[1..] + rest;
      TakeWordOf(w[1..], rest);
    }
  }

  /** The first 256 bytes of what a write of the stamp leaves: the host's name and what is behind it, or a part of it. */
  lemma StampFront(host: string, p: Pid, bytes: nat)
    ensures var text := Written(Stamp(host, p), bytes);
            var read := if |text| > STAMP_READ_BYTES then text[..STAMP_READ_BYTES] else text;
            if |host| <= bytes && |host| <= STAMP_READ_BYTES
            then |host| <= |read| && read == host + read[|host|..] && (|read| == |host| || read[|host|] == ' ')
            else |read| < |host| && read == host[..|read|]
  {
    var stamp := Stamp(host, p);
    var text := Written(stamp, bytes);
    var read := if |text| > STAMP_READ_BYTES then text[..STAMP_READ_BYTES] else text;
    assert stamp[..|host|] == host && stamp[|host|] == ' ';
    assert read == stamp[..|read|];
    if |host| <= |read| {
      assert read[..|host|] == stamp[..|host|];
    } else {
      assert stamp[..|read|] == host[..|read|];
    }
  }

  /**
   * A stamp is recognised on its own host, and even a stamp that was written only in part, if and only if
   * the host's whole name got into the first 256 bytes.
   */
  lemma StampReadsBack(host: string, p: Pid, bytes: nat)
    requires host != "" && NoSpace(host)
    ensures StampedBy(Written(Stamp(host, p), bytes), host) <==> |host| <= bytes && |host| <= STAMP_READ_BYTES
  {
    var text := Written(Stamp(host, p), bytes);
    var read := if |text| > STAMP_READ_BYTES then text[..STAMP_READ_BYTES] else text;
    StampFront(host, p, bytes);
    assert read != "" ==> read[0] == host[0] && host[0] in host;
    assert SkipSpace(read) == read;
    if |host| <= bytes && |host| <= STAMP_READ_BYTES {
      TakeWordOf(host, read[|host|..]);
    } else {
      TakeWordOf(read, "");
      assert read + "" == read;
    }
  }

  /** Nobody alive is between creating this file and releasing it. */
  ghost predicate Ownerless(s: State, i: Ino) {
    forall q :: Owner(PcOf(s, q)) ==> Fd(PcOf(s, q)) != Some(i)
  }

  /** A process that could take the flock of a stamped file may be sure that its holder is dead. */
  lemma StampedMeansDead(s: State, p: Pid, i: Ino)
    requires Inv(s) && PcOf(s, p) == ReadingStamp(i) && StampedBy(s.inodes[i].content, s.host)
    ensures Ownerless(s, i)
  {
    assert ProcInv(s, p, PcOf(s, p));
    EmptyIsUnstamped(s.host);
    forall q | Owner(PcOf(s, q)) ensures Fd(PcOf(s, q)) != Some(i) { assert ProcInv(s, q, PcOf(s, q)); }
  }

  /** Unlinking the path only if it names an ownerless file leaves every live owner's path alone. */
  lemma OwnersKeepThePath(s: State, q: Pid, i: Ino)
    requires Inv(s) && Ownerless(s, i) && Owner(PcOf(s, q))
    ensures s.path.Some? && s.path != Some(i) && s.path == Some(PcOf(s, q).ino)
  {
    assert ProcInv(s, q, PcOf(s, q));
  }

  lemma StepKeepsInv(s: State, l: Label)
    requires Inv(s)
    requires !CondemnsLiveFile(s, l)
    ensures Inv(Apply(s, l))
  {
    match l
    case Tick(d) =>
      var t := Apply(s, l);
      forall i ensures FlockInv(t, i) { assert FlockInv(s, i); }
      assert forall q :: PcOf(t, q) == PcOf(s, q);
      assert forall q :: ProcInv(s, q, PcOf(s, q)) ==> ProcInv(t, q, PcOf(s, q));
    case By(p, a) =>
      if PcOf(s, p).Dead? {
      } else if a.Crash? {
        CloseKeepsOthers(s, p, Dead);
      } else if IsOutsideAct(a) {
        StepKeepsInvOutside(s, p, a);
      } else if IsCheckAct(a) {
        StepKeepsInvCheck(s, p, a);
      } else if IsAcquireAct(a) {
        StepKeepsInvAcquire(s, p, a);
      } else {
        StepKeepsInvTask(s, p, a);
      }
  }

  // ----- Results over whole runs ---------------------------------------------------------------

  lemma InitInv(s: State)
    requires Init(s)
    ensures Inv(s)
  {
    assert forall p :: PcOf(s, p) == Idle;
  }

  lemma {:induction false} SafeRunKeepsInv(s: State, ls: seq<Label>)
    requires Inv(s) && Safe(s, ls)
    ensures Inv(Run(s, ls))
    decreases |ls|
  {
    if ls != [] {
      StepKeepsInv(s, ls[0]);
      SafeRunKeepsInv(Apply(s, ls[0]), ls[1..]);
    }
  }

  /** The 300-second assumption rules out the one unsafe step. */
  lemma {:induction false} TimelyRunIsSafe(s: State, ls: seq<Label>)
    requires Inv(s) && TimelyRun(s, ls)
    ensures Safe(s, ls)
    decreases |ls|
  {
    if ls != [] {
      StepKeepsInv(s, ls[0]);
      TimelyRunIsSafe(Apply(s, ls[0]), ls[1..]);
    }
  }

  /**
   * Mutual exclusion, for any number of processes in any interleaving with crashes anywhere: at most
   * one live process is between create and release, and the path names the very file it created,
   * despite the unlink by path and the gap between a reclaimer's stat and its unlink.
   */
  lemma AtMostOneHolder(s: State, ls: seq<Label>)
    requires Init(s) && TimelyRun(s, ls)
    ensures MutualExclusion(Run(s, ls))
    ensures forall p :: Owner(PcOf(Run(s, ls), p)) ==> Run(s, ls).path == Some(PcOf(Run(s, ls), p).ino)
  {
    InitInv(s);
    TimelyRunIsSafe(s, ls);
    SafeRunKeepsInv(s, ls);
    InvExcludes(Run(s, ls));
  }

  /** What a reclaimer does after its age test, up to the end of check_stale_lock. */
  function Reclaimed(s: State, r: Pid): State {
    Apply(Apply(Apply(Apply(s, By(r, AgeTest)), By(r, StatPath)), By(r, UnlinkStale)), By(r, CloseCheck))
  }

  /** ... and on to owning a lock of its own on inode `i`. */
  function TakeOver(s: State, r: Pid, i: Ino): State {
    Apply(Reclaimed(s, r), By(r, Create(i)))
  }

  lemma CondemnedIsCompared(s: State, r: Pid)
    requires PcOf(s, r).Aging? && PcOf(s, r).ino in s.inodes
    requires s.now - s.inodes[PcOf(s, r).ino].mtime > STALE_LOCK_SECONDS
    requires s.path == Some(PcOf(s, r).ino)
    ensures var stale := PcOf(s, r).ino;
            Apply(Apply(s, By(r, AgeTest)), By(r, StatPath)) == Goto(Goto(s, r, Comparing(stale)), r, Unlinking(stale))
  {
    assert Apply(s, By(r, AgeTest)) == Goto(s, r, Comparing(PcOf(s, r).ino));
  }

  lemma UnlinkAndClose(b: State, r: Pid, stale: Ino)
    requires PcOf(b, r) == Unlinking(stale)
    ensures var c := Goto(b, r, CheckDone(stale, true)).(path := None);
            Apply(Apply(b, By(r, UnlinkStale)), By(r, CloseCheck)) == Goto(CloseFd(c, r), r, Ready)
  {
    assert Apply(b, By(r, UnlinkStale)) == Goto(b, r, CheckDone(stale, true)).(path := None);
  }

  lemma ReclaimedIs(s: State, r: Pid)
    requires PcOf(s, r).Aging? && PcOf(s, r).ino in s.inodes
    requires s.now - s.inodes[PcOf(s, r).ino].mtime > STALE_LOCK_SECONDS
    requires s.path == Some(PcOf(s, r).ino)
    ensures var stale := PcOf(s, r).ino;
            var b := Goto(Goto(s, r, Comparing(stale)), r, Unlinking(stale));
            Reclaimed(s, r) == Goto(CloseFd(Goto(b, r, CheckDone(stale, true)).(path := None), r), r, Ready)
  {
    var stale := PcOf(s, r).ino;
    CondemnedIsCompared(s, r);
    UnlinkAndClose(Goto(Goto(s, r, Comparing(stale)), r, Unlinking(stale)), r, stale);
  }

  /** A condemned file that the path names is gone after the reclaim, whoever still uses it. */
  lemma CondemnedFileIsReclaimed(s: State, r: Pid)
    requires PcOf(s, r).Aging? && PcOf(s, r).ino in s.inodes
    requires s.now - s.inodes[PcOf(s, r).ino].mtime > STALE_LOCK_SECONDS
    requires s.path == Some(PcOf(s, r).ino)
    ensures PcOf(Reclaimed(s, r), r) == Ready && Reclaimed(s, r).path.None?
    ensures forall p :: p != r ==> PcOf(Reclaimed(s, r), p) == PcOf(s, p)
    ensures forall p :: p in Reclaimed(s, r).procs ==> p == r || p in s.procs
  {
    ReclaimedIs(s, r);
  }

  lemma FreePathIsCreated(s: State, r: Pid, i: Ino)
    requires PcOf(s, r) == Ready && s.path.None? && !InUse(s, i)
    ensures PcOf(Apply(s, By(r, Create(i))), r) == Created(i)
    ensures forall p :: p != r ==> PcOf(Apply(s, By(r, Create(i))), p) == PcOf(s, p)
  {
  }

  lemma StillUnused(s: State, t: State, r: Pid, i: Ino)
    requires !InUse(s, i) && t.path.None? && !HasFd(PcOf(t, r))
    requires forall p :: p != r ==> PcOf(t, p) == PcOf(s, p)
    requires forall p :: p in t.procs ==> p == r || p in s.procs
    ensures !InUse(t, i)
  {
  }

  /** Condemning a file that `q` still owns ends with both `q` and the reclaimer owning a lock. */
  lemma CondemningTakesOver(s: State, r: Pid, q: Pid, i: Ino)
    requires Inv(s) && PcOf(s, r).Aging? && PcOf(s, r).ino in s.inodes && !InUse(s, i) && r != q
    requires s.now - s.inodes[PcOf(s, r).ino].mtime > STALE_LOCK_SECONDS
    requires UnflockedOwner(s, q) && Fd(PcOf(s, q)) == Fd(PcOf(s, r))
    ensures Owner(PcOf(TakeOver(s, r, i), r)) && Owner(PcOf(TakeOver(s, r, i), q))
  {
    assert s.path == Some(PcOf(s, r).ino) by {
      assert ProcInv(s, q, PcOf(s, q));
    }
    CondemnedFileIsReclaimed(s, r);
    StillUnused(s, Reclaimed(s, r), r, i);
    FreePathIsCreated(Reclaimed(s, r), r, i);
  }

  lemma HarmlessTakeOver(s: State, r: Pid, i: Ino)
    requires Inv(s) && !CondemnsLiveFile(s, By(r, AgeTest))
    ensures Inv(TakeOver(s, r, i))
  {
    var a := Apply(s, By(r, AgeTest));
    StepKeepsInv(s, By(r, AgeTest));
    var b := Apply(a, By(r, StatPath));
    StepKeepsInv(a, By(r, StatPath));
    var c := Apply(b, By(r, UnlinkStale));
    StepKeepsInv(b, By(r, UnlinkStale));
    var d := Apply(c, By(r, CloseCheck));
    StepKeepsInv(c, By(r, CloseCheck));
    StepKeepsInv(d, By(r, Create(i)));
  }

  lemma InvExcludes(s: State)
    requires Inv(s)
    ensures MutualExclusion(s)
    ensures forall p :: Owner(PcOf(s, p)) ==> s.path == Some(PcOf(s, p).ino)
  {
    assert forall p :: ProcInv(s, p, PcOf(s, p));
    assert forall p, q :: p != q ==> PairInv(PcOf(s, p), PcOf(s, q));
  }

  /**
   * The assumption is exact. At an age test, the reclaimer's next steps end with two live processes
   * owning a lock if and only if the test condemns a file whose live owner has no flock on it.
   */
  lemma ExactlyWhenTwoHolders(s: State, r: Pid, i: Ino)
    requires Inv(s) && PcOf(s, r).Aging? && !InUse(s, i)
    ensures !MutualExclusion(TakeOver(s, r, i)) <==> CondemnsLiveFile(s, By(r, AgeTest))
  {
    if CondemnsLiveFile(s, By(r, AgeTest)) {
      var q :| UnflockedOwner(s, q) && Fd(PcOf(s, q)) == Fd(PcOf(s, r));
      CondemningTakesOver(s, r, q, i);
    } else {
      HarmlessTakeOver(s, r, i);
      InvExcludes(TakeOver(s, r, i));
    }
  }

  // ----- Key provisioning under the lock -------------------------------------------------------

  /** Every read of the key store in the run tells the truth. */
  ghost predicate TruthfulRun(s: State, ls: seq<Label>)
    decreases |ls|
  {
    ls == [] || (
      (ls[0].By? && ls[0].act.ProbeKey? ==> Truthful(s.store, ls[0].act.faults)) &&
      TruthfulRun(Apply(s, ls[0]), ls[1..]))
  }

  /** What the holder has established so far is still true, because nobody else can touch it. */
  predicate TaskInv(s: State, proc: Proc) {
    proc.pc.Critical? && !proc.pc.task.Entered? ==>
      && !proc.purpose.Update?
      && s.rows == 0
      && (proc.pc.task.Minting? ==> !Keyed(s.store))
  }

  ghost predicate MintInv(s: State) {
    && (forall p :: TaskInv(s, ProcOf(s, p)))
    && |s.minted| <= 1
    && (forall m :: m in s.minted ==> m.rowsThen == 0)
    && (s.minted != [] ==> Keyed(s.store) && Read(s.store, NO_READ_FAULTS) == Found(s.minted[0].key))
  }

  lemma OutsideMovesOnlyItself(s: State, p: Pid, a: Act)
    requires IsOutsideAct(a)
    ensures var t := ApplyOutside(s, p, a);
            && t.store == s.store && t.rows == s.rows && t.minted == s.minted
            && (forall q :: q != p ==> ProcOf(t, q) == ProcOf(s, q))
            && !(PcOf(t, p).Critical? && t != s)
  {
  }

  lemma CheckMovesOnlyItself(s: State, p: Pid, a: Act)
    requires IsCheckAct(a)
    ensures var t := ApplyCheck(s, p, a);
            && t.store == s.store && t.rows == s.rows && t.minted == s.minted
            && (forall q :: q != p ==> ProcOf(t, q) == ProcOf(s, q))
            && !(PcOf(t, p).Critical? && t != s)
  {
  }

  lemma AcquireMovesOnlyItself(s: State, p: Pid, a: Act)
    requires IsAcquireAct(a)
    ensures var t := ApplyAcquire(s, p, a);
            && t.store == s.store && t.rows == s.rows && t.minted == s.minted
            && (forall q :: q != p ==> ProcOf(t, q) == ProcOf(s, q))
            && (PcOf(t, p).Critical? && t != s ==> PcOf(t, p).task.Entered?)
  {
  }

  /** Outside the lock's work, no step touches the key store, the rows or anybody's progress. */
  lemma OutsiderKeepsMintInv(s: State, p: Pid, a: Act)
    requires MintInv(s) && !IsTaskAct(a)
    ensures MintInv(Apply(s, By(p, a)))
  {
    var t := Apply(s, By(p, a));
    if PcOf(s, p).Dead? {
    } else {
      if IsOutsideAct(a) {
        OutsideMovesOnlyItself(s, p, a);
      } else if IsCheckAct(a) {
        CheckMovesOnlyItself(s, p, a);
      } else if IsAcquireAct(a) {
        AcquireMovesOnlyItself(s, p, a);
      }
      forall q ensures TaskInv(t, ProcOf(t, q)) { assert TaskInv(s, ProcOf(s, q)); }
    }
  }

  /** The holder's own step: what it knows stays true, and only it can act on the store and the rows. */
  lemma HolderKeepsMintInv(s: State, p: Pid, a: Act)
    requires Inv(s) && MintInv(s) && IsTaskAct(a) && PcOf(s, p).Critical?
    requires a.ProbeKey? ==> Truthful(s.store, a.faults)
    ensures MintInv(ApplyTask(s, p, a))
  {
    var t := ApplyTask(s, p, a);
    assert TaskInv(s, ProcOf(s, p));
    TaskShape(s, p, a);
    if a.ProbeKey? {
      NotFoundIsHonest(s.store, a.faults);
    } else if a.Migrate? {
      MigrationPreservesKey(s.store, a.wfaults, a.fileInvalid, a.readRaises, false);
    }
    forall q ensures TaskInv(t, ProcOf(t, q)) {
      assert TaskInv(s, ProcOf(s, q));
      if q != p { assert PairInv(PcOf(s, p), PcOf(s, q)) && PcOf(t, q) == PcOf(s, q); }
    }
  }

  lemma StepKeepsMintInv(s: State, l: Label)
    requires Inv(s) && MintInv(s)
    requires l.By? && l.act.ProbeKey? ==> Truthful(s.store, l.act.faults)
    ensures MintInv(Apply(s, l))
  {
    match l
    case Tick(d) =>
      var t := Apply(s, l);
      forall q ensures TaskInv(t, ProcOf(t, q)) { assert TaskInv(s, ProcOf(s, q)); }
    case By(p, a) =>
      if !IsTaskAct(a) {
        OutsiderKeepsMintInv(s, p, a);
      } else if PcOf(s, p).Critical? {
        HolderKeepsMintInv(s, p, a);
      }
  }

  lemma {:induction false} RunKeepsMintInv(s: State, ls: seq<Label>)
    requires Inv(s) && MintInv(s) && Safe(s, ls) && TruthfulRun(s, ls)
    ensures MintInv(Run(s, ls))
    decreases |ls|
  {
    if ls != [] {
      StepKeepsInv(s, ls[0]);
      StepKeepsMintInv(s, ls[0]);
      RunKeepsMintInv(Apply(s, ls[0]), ls[1..]);
    }
  }

  /**
   * Over every interleaving of first runs, stale-marker repairs and commands that write enrollments,
   * at most one fresh key is ever stored, never while an enrollment exists, and that key is the one
   * the store answers with from then on.
   */
  lemma AtMostOneMint(s: State, ls: seq<Label>)
    requires Init(s) && TimelyRun(s, ls) && TruthfulRun(s, ls)
    ensures var t := Run(s, ls);
            && |t.minted| <= 1
            && (t.minted != [] ==> t.minted[0].rowsThen == 0 &&
                                   Read(t.store, NO_READ_FAULTS) == Found(t.minted[0].key))
  {
    InitInv(s);
    TimelyRunIsSafe(s, ls);
    assert forall p :: ProcOf(s, p) == Proc(Idle, Update);
    RunKeepsMintInv(s, ls);
  }

  /** Truthfulness is exact: once a key was minted, a probe followed by a mint stores a second one iff it lied. */
  lemma ExactlyWhenSecondMint(s: State, p: Pid, f: ReadFaults, k: Key, g: WriteFaults)
    requires Inv(s) && MintInv(s) && s.minted != []
    requires PcOf(s, p).Critical? && PcOf(s, p).task.Probing?
    ensures |Apply(Apply(s, By(p, ProbeKey(f))), By(p, MintKey(k, g))).minted| == 2 <==> !Truthful(s.store, f)
  {
    assert TaskInv(s, ProcOf(s, p));
    NotFoundIsHonest(s.store, f);
    var t := Apply(s, By(p, ProbeKey(f)));
    assert t.minted == s.minted;
    assert Read(s.store, f).NotFound? <==> (PcOf(t, p).Critical? && PcOf(t, p).task.Minting?);
  }
}
