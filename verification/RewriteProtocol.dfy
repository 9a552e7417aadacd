/**
 * Any number of concurrent writers of one `.env` file, each going through `rewrite_env_keys`
 * (`src/worthless/cli/dotenv_rewriter.py`) and `safe_rewrite` (`src/worthless/cli/safe_rewrite.py`),
 * as a step machine over directory entries, inodes and open descriptors. Every call may fail, every
 * writer may die before any step, and inode numbers are reused once nothing names or holds them.
 * The flock is taken on an inode that the writer's own rename then replaces.
 */
module RewriteProtocol {
  import opened Common

  type Pid = nat
  type Ino = nat
  type Bytes = string
  type EditId = nat

  /** The target, and the random names a writer uses next to it. */
  datatype Name = Target | Tmp(token: nat) | Staging(token: nat)

  datatype Inode = Inode(content: Bytes, flock: Option<Pid>)

  datatype Pc =
    | Idle
    // _safe_read_existing_bytes
    | StatedRead(seen: Ino)
    | OpenRead(seen: Ino, fd: Ino)
    | Baseline  // the caller holds the bytes it read; nothing is open
    // _safe_rewrite_core
    | Derived
    | Stated(seen: Ino)
    | Opened(seen: Ino, fd: Ino)
    | Matched(fd: Ino)
    | Locked(fd: Ino)
    | Checked(fd: Ino)
    | Writing(fd: Ino, name: Name, tmp: Ino, offset: nat)
    | Written(fd: Ino, name: Name, tmp: Ino)
    | Rechecked(fd: Ino, name: Name, tmp: Ino)
    | Staged(fd: Ino, name: Name, tmp: Ino)
    | Fallback(fd: Ino, name: Name, tmp: Ino)
    | FallbackReady(fd: Ino, name: Name, tmp: Ino)
    | Committed(fd: Ino)
    // the except/finally clauses
    | CleaningName(fd: Ino, name: Name, tmp: Ino)
    | Cleaning(fd: Ino)
    | Dead

  /** `base` is what the caller read, `next` the content it derived from it, `edit` names its update. */
  datatype Proc = Proc(pc: Pc, edit: EditId, base: Bytes, next: Bytes)

  /** One successful rename: what the target held just before it, and what the caller believed. */
  datatype Commit = Commit(edit: EditId, replaced: Bytes, base: Bytes, content: Bytes)

  datatype State = State(
    dir: map<Name, Ino>,
    inodes: map<Ino, Inode>,
    procs: map<Pid, Proc>,
    commits: seq<Commit>
  )

  datatype Act =
    | StatForRead | OpenForRead | ReadBaseline | Derive(edit: EditId, next: Bytes)
    | StatTarget | OpenTarget | MatchFstat | TakeFlock | CheckBaseline
    | CreateTmp(token: nat, ino: Ino) | WriteChunk(bytes: nat) | CloseTmp
    | Recheck | Stage(stoken: nat) | Rename | RenameUnsupported | RecheckAgain | Replace
    | Fail | UnlinkName | UnlinkNameFails | CloseAll | Crash

  datatype Label = By(pid: Pid, act: Act)

  // ----- State helpers -------------------------------------------------------------------------

  function ProcOf(s: State, p: Pid): Proc {
    if p in s.procs then s.procs[p] else Proc(Idle, 0, "", "")
  }

  function PcOf(s: State, p: Pid): Pc {
    ProcOf(s, p).pc
  }

  function Goto(s: State, p: Pid, pc: Pc): State {
    s.(procs := s.procs[p := ProcOf(s, p).(pc := pc)])
  }

  /** The writer holds a descriptor on the (then) target inode. */
  predicate HasFd(pc: Pc) {
    !(pc.Idle? || pc.StatedRead? || pc.Baseline? || pc.Derived? || pc.Stated? || pc.Dead?)
  }

  /** The writer has a temporary file of its own. */
  predicate HasTmp(pc: Pc) {
    || pc.Writing? || pc.Written? || pc.Rechecked? || pc.Staged? || pc.Fallback? || pc.FallbackReady?
    || pc.CleaningName?
  }

  /** From the successful flock to the release. */
  predicate HoldsFlock(pc: Pc) {
    || pc.Locked? || pc.Checked? || pc.Writing? || pc.Written? || pc.Rechecked? || pc.Staged?
    || pc.Fallback? || pc.FallbackReady? || pc.Committed?
  }

  predicate BaselineChecked(pc: Pc) {
    HoldsFlock(pc) && !pc.Locked? && !pc.Committed?
  }

  /** The last look at the target has been taken, and it was still the locked inode. */
  predicate Cleared(pc: Pc) {
    pc.Rechecked? || pc.Staged? || pc.Fallback? || pc.FallbackReady?
  }

  predicate InUse(s: State, i: Ino) {
    || (exists n :: n in s.dir && s.dir[n] == i)
    || (exists p :: p in s.procs && HasFd(PcOf(s, p)) && PcOf(s, p).fd == i)
    || (exists p :: p in s.procs && HasTmp(PcOf(s, p)) && PcOf(s, p).tmp == i)
  }

  function SetFlock(s: State, i: Ino, holder: Option<Pid>): State {
    if i in s.inodes then s.(inodes := s.inodes[i := s.inodes[i].(flock := holder)]) else s
  }

  /** Closing the descriptors, by the writer or by the kernel: the flock goes with them. */
  function CloseFds(s: State, p: Pid): State {
    var pc := PcOf(s, p);
    if HasFd(pc) && pc.fd in s.inodes && s.inodes[pc.fd].flock == Some(p) then SetFlock(s, pc.fd, None) else s
  }

  function TargetContent(s: State): Bytes {
    if Target in s.dir && s.dir[Target] in s.inodes then s.inodes[s.dir[Target]].content else ""
  }

  function Failed(pc: Pc): Pc {
    if HasTmp(pc) && !pc.CleaningName? then CleaningName(pc.fd, pc.name, pc.tmp)
    else if HasFd(pc) then Cleaning(pc.fd)
    else Idle
  }

  // ----- Steps ---------------------------------------------------------------------------------

  /** Reading the baseline and deriving the new content. */
  function ApplyRead(s: State, p: Pid, a: Act): State
    requires IsReadAct(a)
  {
    var pc := PcOf(s, p);
    match a
    case StatForRead =>
      if pc.Idle? && Target in s.dir then Goto(s, p, StatedRead(s.dir[Target])) else s
    case OpenForRead =>
      if pc.StatedRead? && Target in s.dir then Goto(s, p, OpenRead(pc.seen, s.dir[Target])) else s
    case ReadBaseline =>
      if !(pc.OpenRead? && pc.fd in s.inodes) then s
      else if pc.seen != pc.fd then Goto(s, p, Idle)  // swapped between lstat and open: refused
      else s.(procs := s.procs[p := Proc(Baseline, 0, s.inodes[pc.fd].content, "")])
    case Derive(e, next) =>
      if !pc.Baseline? then s
      else s.(procs := s.procs[p := ProcOf(s, p).(pc := Derived, edit := e, next := next)])
  }

  /** The gates, up to and including the baseline comparison under the flock. */
  function ApplyGate(s: State, p: Pid, a: Act): State
    requires IsGateAct(a)
  {
    var pc := PcOf(s, p);
    match a
    case StatTarget =>
      if pc.Derived? && Target in s.dir then Goto(s, p, Stated(s.dir[Target])) else s
    case OpenTarget =>
      if pc.Stated? && Target in s.dir then Goto(s, p, Opened(pc.seen, s.dir[Target])) else s
    case MatchFstat =>
      if !pc.Opened? then s
      else Goto(s, p, if pc.seen == pc.fd then Matched(pc.fd) else Cleaning(pc.fd))
    case TakeFlock =>
      if !(pc.Matched? && pc.fd in s.inodes) then s
      else if s.inodes[pc.fd].flock.Some? then Goto(s, p, Cleaning(pc.fd))
      else Goto(SetFlock(s, pc.fd, Some(p)), p, Locked(pc.fd))
    case CheckBaseline =>
      if !(pc.Locked? && pc.fd in s.inodes) then s
      else Goto(s, p, if s.inodes[pc.fd].content == ProcOf(s, p).base then Checked(pc.fd) else Cleaning(pc.fd))
  }

  /** Writing the temporary file. */
  function ApplyWrite(s: State, p: Pid, a: Act): State
    requires IsWriteAct(a)
  {
    var pc := PcOf(s, p);
    var next := ProcOf(s, p).next;
    match a
    case CreateTmp(token, i) =>
      if !pc.Checked? then s
      else if Tmp(token) in s.dir || InUse(s, i) then s  // O_EXCL; the caller retries with another token
      else Goto(s, p, Writing(pc.fd, Tmp(token), i, 0)).(
             dir := s.dir[Tmp(token) := i], inodes := s.inodes[i := Inode("", None)])
    case WriteChunk(n) =>
      if !(pc.Writing? && pc.tmp in s.inodes && pc.offset + n <= |next|) then s
      else
        var f := s.inodes[pc.tmp].(content := next[..pc.offset + n]);
        Goto(s.(inodes := s.inodes[pc.tmp := f]), p, pc.(offset := pc.offset + n))
    case CloseTmp =>
      if pc.Writing? && pc.offset == |next| then Goto(s, p, Written(pc.fd, pc.name, pc.tmp)) else s
  }

  function CommitOf(s: State, p: Pid): Commit {
    Commit(ProcOf(s, p).edit, TargetContent(s), ProcOf(s, p).base, ProcOf(s, p).next)
  }

  /** rename(2) of the staged file over the target. */
  function Renamed(s: State, p: Pid): State
    requires PcOf(s, p).Staged? || PcOf(s, p).FallbackReady?
  {
    var pc := PcOf(s, p);
    if pc.name !in s.dir then s
    else Goto(s, p, Committed(pc.fd)).(
           dir := (s.dir - {pc.name})[Target := s.dir[pc.name]], commits := s.commits + [CommitOf(s, p)])
  }

  /** Recheck, stage, rename. */
  function ApplyCommit(s: State, p: Pid, a: Act): State
    requires IsCommitAct(a)
  {
    var pc := PcOf(s, p);
    match a
    case Recheck =>
      if !pc.Written? then s
      else if Target in s.dir && s.dir[Target] == pc.fd then Goto(s, p, Rechecked(pc.fd, pc.name, pc.tmp))
      else Goto(s, p, Failed(pc))
    case Stage(token) =>
      if !(pc.Rechecked? && pc.name in s.dir) then s
      else if Staging(token) in s.dir then s  // 128 random bits: never a name in use
      else Goto(s, p, Staged(pc.fd, Staging(token), pc.tmp)).(
             dir := (s.dir - {pc.name})[Staging(token) := s.dir[pc.name]])
    case Rename => if pc.Staged? then Renamed(s, p) else s
    case RenameUnsupported =>
      if pc.Staged? then Goto(s, p, Fallback(pc.fd, pc.name, pc.tmp)) else s
    case RecheckAgain =>
      if !pc.Fallback? then s
      else if Target in s.dir && s.dir[Target] == pc.fd then Goto(s, p, FallbackReady(pc.fd, pc.name, pc.tmp))
      else Goto(s, p, Failed(pc))
    case Replace => if pc.FallbackReady? then Renamed(s, p) else s
  }

  /** A failing call, gate or hook; the clean-up; the death of the process. */
  function ApplyExit(s: State, p: Pid, a: Act): State
    requires IsExitAct(a)
  {
    var pc := PcOf(s, p);
    match a
    case Fail => if pc.Committed? || pc.CleaningName? || pc.Dead? then s else Goto(s, p, Failed(pc))
    case UnlinkName =>
      if pc.CleaningName? then Goto(s, p, Cleaning(pc.fd)).(dir := s.dir - {pc.name}) else s
    case UnlinkNameFails =>
      if pc.CleaningName? then Goto(s, p, Cleaning(pc.fd)) else s
    case CloseAll =>
      if pc.Cleaning? || pc.Committed? then Goto(CloseFds(s, p), p, Idle) else s
    case Crash => Goto(CloseFds(s, p), p, Dead)
  }

  predicate IsReadAct(a: Act) { a.StatForRead? || a.OpenForRead? || a.ReadBaseline? || a.Derive? }
  predicate IsGateAct(a: Act) {
    a.StatTarget? || a.OpenTarget? || a.MatchFstat? || a.TakeFlock? || a.CheckBaseline?
  }
  predicate IsWriteAct(a: Act) { a.CreateTmp? || a.WriteChunk? || a.CloseTmp? }
  predicate IsCommitAct(a: Act) {
    a.Recheck? || a.Stage? || a.Rename? || a.RenameUnsupported? || a.RecheckAgain? || a.Replace?
  }
  predicate IsExitAct(a: Act) {
    a.Fail? || a.UnlinkName? || a.UnlinkNameFails? || a.CloseAll? || a.Crash?
  }

  function Apply(s: State, l: Label): State {
    var (p, a) := (l.pid, l.act);
    if PcOf(s, p).Dead? then s
    else if IsReadAct(a) then ApplyRead(s, p, a)
    else if IsGateAct(a) then ApplyGate(s, p, a)
    else if IsWriteAct(a) then ApplyWrite(s, p, a)
    else if IsCommitAct(a) then ApplyCommit(s, p, a)
    else ApplyExit(s, p, a)
  }

  function Run(s: State, ls: seq<Label>): State
    decreases |ls|
  {
    if ls == [] then s else Run(Apply(s, ls[0]), ls[1..])
  }

  /** A directory nobody is writing to; left-over temporary files of earlier crashes may lie around. */
  predicate Init(s: State) {
    && s.procs == map[] && s.commits == []
    && Target in s.dir
    && (forall n :: n in s.dir ==> s.dir[n] in s.inodes)
    && (forall n, m :: n in s.dir && m in s.dir && s.dir[n] == s.dir[m] ==> n == m)
    && (forall i :: i in s.inodes ==> s.inodes[i].flock.None?)
  }

  // ----- The invariant -------------------------------------------------------------------------

  /** What one writer's program counter says about the file system. */
  predicate ProcInv(s: State, p: Pid, proc: Proc) {
    var pc := proc.pc;
    && (HasFd(pc) ==> pc.fd in s.inodes)
    && (HoldsFlock(pc) ==> s.inodes[pc.fd].flock == Some(p))
    && (HasTmp(pc) ==> pc.tmp in s.inodes && pc.name != Target && pc.name in s.dir && s.dir[pc.name] == pc.tmp)
    && (HasTmp(pc) ==> pc.tmp != pc.fd)
    && (pc.Writing? ==> pc.offset <= |proc.next| && s.inodes[pc.tmp].content == proc.next[..pc.offset])
    && (HasTmp(pc) && !pc.Writing? && !pc.CleaningName? ==> s.inodes[pc.tmp].content == proc.next)
    && (BaselineChecked(pc) ==> s.inodes[pc.fd].content == proc.base)
    && (Cleared(pc) ==> Target in s.dir && s.dir[Target] == pc.fd)
  }

  /** No writer's temporary file is anybody's target or anybody else's temporary file. */
  predicate PairInv(pc: Pc, qc: Pc) {
    && (HasTmp(pc) && HasFd(qc) ==> pc.tmp != qc.fd)
    && (HasFd(pc) && HasTmp(qc) ==> pc.fd != qc.tmp)
    && (HasTmp(pc) && HasTmp(qc) ==> pc.tmp != qc.tmp && pc.name != qc.name)
  }

  ghost predicate DirInv(s: State) {
    && Target in s.dir
    && (forall n :: n in s.dir ==> s.dir[n] in s.inodes)
    && (forall n, m :: n in s.dir && m in s.dir && s.dir[n] == s.dir[m] ==> n == m)
  }

  /** A held flock belongs to a writer that took it and has not closed the file yet. */
  predicate FlockInv(s: State, i: Ino) {
    i in s.inodes && s.inodes[i].flock.Some? ==>
      var pc := PcOf(s, s.inodes[i].flock.value);
      (HoldsFlock(pc) || pc.Cleaning? || pc.CleaningName?) && pc.fd == i
  }

  ghost predicate Inv(s: State) {
    && DirInv(s)
    && (forall p :: ProcInv(s, p, ProcOf(s, p)))
    && (forall p, q :: p != q ==> PairInv(PcOf(s, p), PcOf(s, q)))
    && (forall i :: FlockInv(s, i))
  }

  lemma FromParts(s: State, t: State, p: Pid)
    requires Inv(s) && DirInv(t)
    requires forall q :: q != p ==> ProcOf(t, q) == ProcOf(s, q)
    requires forall q :: q != p ==> ProcInv(t, q, ProcOf(s, q)) && PairInv(PcOf(t, p), PcOf(s, q))
    requires ProcInv(t, p, ProcOf(t, p))
    requires forall i :: FlockInv(t, i)
    ensures Inv(t)
  {
  }

  lemma ReadKeepsInv(s: State, p: Pid, a: Act)
    requires Inv(s) && IsReadAct(a)
    ensures Inv(ApplyRead(s, p, a))
  {
    var t := ApplyRead(s, p, a);
    assert ProcInv(s, p, ProcOf(s, p));
    if t != s {
      forall q | q != p ensures ProcInv(t, q, ProcOf(s, q)) && PairInv(PcOf(t, p), PcOf(s, q)) {
        assert ProcInv(s, q, ProcOf(s, q)) && PairInv(PcOf(s, p), PcOf(s, q));
      }
      forall i ensures FlockInv(t, i) { assert FlockInv(s, i); }
      FromParts(s, t, p);
    }
  }

  lemma OpenKeepsInv(s: State, p: Pid, a: Act)
    requires Inv(s) && (a.StatTarget? || a.OpenTarget? || a.MatchFstat?)
    ensures Inv(ApplyGate(s, p, a))
  {
    var t := ApplyGate(s, p, a);
    assert ProcInv(s, p, ProcOf(s, p));
    if t != s {
      forall q | q != p ensures ProcInv(t, q, ProcOf(s, q)) && PairInv(PcOf(t, p), PcOf(s, q)) {
        assert ProcInv(s, q, ProcOf(s, q)) && PairInv(PcOf(s, p), PcOf(s, q));
      }
      forall i ensures FlockInv(t, i) { assert FlockInv(s, i); }
      FromParts(s, t, p);
    }
  }

  lemma FlockKeepsInv(s: State, p: Pid, a: Act)
    requires Inv(s) && a.TakeFlock?
    ensures Inv(ApplyGate(s, p, a))
  {
    var t := ApplyGate(s, p, a);
    assert ProcInv(s, p, ProcOf(s, p));
    if t != s {
      forall q | q != p ensures ProcInv(t, q, ProcOf(s, q)) && PairInv(PcOf(t, p), PcOf(s, q)) {
        assert ProcInv(s, q, ProcOf(s, q)) && PairInv(PcOf(s, p), PcOf(s, q));
      }
      forall i ensures FlockInv(t, i) { assert FlockInv(s, i); }
      FromParts(s, t, p);
    }
  }

  lemma CheckKeepsInv(s: State, p: Pid, a: Act)
    requires Inv(s) && a.CheckBaseline?
    ensures Inv(ApplyGate(s, p, a))
  {
    var t := ApplyGate(s, p, a);
    assert ProcInv(s, p, ProcOf(s, p));
    if t != s {
      forall q | q != p ensures ProcInv(t, q, ProcOf(s, q)) && PairInv(PcOf(t, p), PcOf(s, q)) {
        assert ProcInv(s, q, ProcOf(s, q)) && PairInv(PcOf(s, p), PcOf(s, q));
      }
      forall i ensures FlockInv(t, i) { assert FlockInv(s, i); }
      FromParts(s, t, p);
    }
  }

  lemma CreateKeepsInv(s: State, p: Pid, a: Act)
    requires Inv(s) && a.CreateTmp?
    ensures Inv(ApplyWrite(s, p, a))
  {
    var t := ApplyWrite(s, p, a);
    assert ProcInv(s, p, ProcOf(s, p));
    if t != s {
      forall q | q != p ensures ProcInv(t, q, ProcOf(s, q)) && PairInv(PcOf(t, p), PcOf(s, q)) {
        assert ProcInv(s, q, ProcOf(s, q)) && PairInv(PcOf(s, p), PcOf(s, q));
      }
      forall i ensures FlockInv(t, i) { assert FlockInv(s, i); }
      FromParts(s, t, p);
    }
  }

  lemma WriteKeepsInv(s: State, p: Pid, a: Act)
    requires Inv(s) && (a.WriteChunk? || a.CloseTmp?)
    ensures Inv(ApplyWrite(s, p, a))
  {
    var t := ApplyWrite(s, p, a);
    assert ProcInv(s, p, ProcOf(s, p));
    if t != s {
      forall q | q != p ensures ProcInv(t, q, ProcOf(s, q)) && PairInv(PcOf(t, p), PcOf(s, q)) {
        assert ProcInv(s, q, ProcOf(s, q)) && PairInv(PcOf(s, p), PcOf(s, q));
      }
      forall i ensures FlockInv(t, i) { assert FlockInv(s, i); }
      FromParts(s, t, p);
    }
  }

  lemma RecheckKeepsInv(s: State, p: Pid, a: Act)
    requires Inv(s) && (a.Recheck? || a.RecheckAgain? || a.RenameUnsupported?)
    ensures Inv(ApplyCommit(s, p, a))
  {
    var t := ApplyCommit(s, p, a);
    assert ProcInv(s, p, ProcOf(s, p));
    if t != s {
      forall q | q != p ensures ProcInv(t, q, ProcOf(s, q)) && PairInv(PcOf(t, p), PcOf(s, q)) {
        assert ProcInv(s, q, ProcOf(s, q)) && PairInv(PcOf(s, p), PcOf(s, q));
      }
      forall i ensures FlockInv(t, i) { assert FlockInv(s, i); }
      FromParts(s, t, p);
    }
  }

  lemma RenameKeepsInv(s: State, p: Pid, a: Act)
    requires Inv(s) && (a.Stage? || a.Rename? || a.Replace?)
    ensures Inv(ApplyCommit(s, p, a))
  {
    var t := ApplyCommit(s, p, a);
    assert ProcInv(s, p, ProcOf(s, p));
    if t != s {
      forall q | q != p ensures ProcInv(t, q, ProcOf(s, q)) && PairInv(PcOf(t, p), PcOf(s, q)) {
        assert ProcInv(s, q, ProcOf(s, q)) && PairInv(PcOf(s, p), PcOf(s, q));
      }
      forall i ensures FlockInv(t, i) { assert FlockInv(s, i); }
      FromParts(s, t, p);
    }
  }

  lemma FailKeepsInv(s: State, p: Pid, a: Act)
    requires Inv(s) && a.Fail?
    ensures Inv(ApplyExit(s, p, a))
  {
    var t := ApplyExit(s, p, a);
    assert ProcInv(s, p, ProcOf(s, p));
    if t != s {
      forall q | q != p ensures ProcInv(t, q, ProcOf(s, q)) && PairInv(PcOf(t, p), PcOf(s, q)) {
        assert ProcInv(s, q, ProcOf(s, q)) && PairInv(PcOf(s, p), PcOf(s, q));
      }
      forall i ensures FlockInv(t, i) { assert FlockInv(s, i); }
      FromParts(s, t, p);
    }
  }

  lemma UnlinkKeepsInv(s: State, p: Pid, a: Act)
    requires Inv(s) && (a.UnlinkName? || a.UnlinkNameFails?)
    ensures Inv(ApplyExit(s, p, a))
  {
    var t := ApplyExit(s, p, a);
    assert ProcInv(s, p, ProcOf(s, p));
    if t != s {
      forall q | q != p ensures ProcInv(t, q, ProcOf(s, q)) && PairInv(PcOf(t, p), PcOf(s, q)) {
        assert ProcInv(s, q, ProcOf(s, q)) && PairInv(PcOf(s, p), PcOf(s, q));
      }
      forall i ensures FlockInv(t, i) { assert FlockInv(s, i); }
      FromParts(s, t, p);
    }
  }

  /** The flock goes with the descriptor; no other writer's flock is on that inode. */
  lemma CloseKeepsFlocks(s: State, p: Pid, pc: Pc)
    requires Inv(s)
    ensures forall i :: FlockInv(Goto(CloseFds(s, p), p, pc), i)
  {
    forall i ensures FlockInv(Goto(CloseFds(s, p), p, pc), i) { assert FlockInv(s, i); }
  }

  lemma CloseKeepsInv(s: State, p: Pid, pc: Pc)
    requires Inv(s) && (pc.Idle? || pc.Dead?)
    ensures Inv(Goto(CloseFds(s, p), p, pc))
  {
    var t := Goto(CloseFds(s, p), p, pc);
    assert ProcInv(s, p, ProcOf(s, p));
    forall q | q != p ensures ProcInv(t, q, ProcOf(s, q)) && PairInv(PcOf(t, p), PcOf(s, q)) {
      assert ProcInv(s, q, ProcOf(s, q)) && PairInv(PcOf(s, p), PcOf(s, q));
    }
    CloseKeepsFlocks(s, p, pc);
    FromParts(s, t, p);
  }

  lemma ExitKeepsInv(s: State, p: Pid, a: Act)
    requires Inv(s) && IsExitAct(a)
    ensures Inv(ApplyExit(s, p, a))
  {
    if a.CloseAll? {
      CloseKeepsInv(s, p, Idle);
    } else if a.Crash? {
      CloseKeepsInv(s, p, Dead);
    } else if a.UnlinkName? || a.UnlinkNameFails? {
      UnlinkKeepsInv(s, p, a);
    } else {
      FailKeepsInv(s, p, a);
    }
  }

  lemma StepKeepsInv(s: State, l: Label)
    requires Inv(s)
    ensures Inv(Apply(s, l))
  {
    var (p, a) := (l.pid, l.act);
    if PcOf(s, p).Dead? {
    } else if IsReadAct(a) {
      ReadKeepsInv(s, p, a);
    } else if a.TakeFlock? {
      FlockKeepsInv(s, p, a);
    } else if a.CheckBaseline? {
      CheckKeepsInv(s, p, a);
    } else if IsGateAct(a) {
      OpenKeepsInv(s, p, a);
    } else if a.CreateTmp? {
      CreateKeepsInv(s, p, a);
    } else if IsWriteAct(a) {
      WriteKeepsInv(s, p, a);
    } else if a.Stage? || a.Rename? || a.Replace? {
      RenameKeepsInv(s, p, a);
    } else if IsCommitAct(a) {
      RecheckKeepsInv(s, p, a);
    } else {
      ExitKeepsInv(s, p, a);
    }
  }

  // ----- No lost update ------------------------------------------------------------------------

  /** The target's content after the first `k` commits of a history. */
  function After(initial: Bytes, commits: seq<Commit>, k: nat): Bytes
    requires k <= |commits|
  {
    if k == 0 then initial else commits[k - 1].content
  }

  /** Commit `k` replaced exactly what its caller had read, and that was the previous commit's content. */
  predicate Link(initial: Bytes, commits: seq<Commit>, k: nat)
    requires k < |commits|
  {
    commits[k].base == commits[k].replaced == After(initial, commits, k)
  }

  predicate Chain(initial: Bytes, commits: seq<Commit>) {
    forall k :: 0 <= k < |commits| ==> Link(initial, commits, k)
  }

  ghost predicate ChainInv(initial: Bytes, s: State) {
    Chain(initial, s.commits) && TargetContent(s) == After(initial, s.commits, |s.commits|)
  }

  predicate SameTarget(s: State, t: State) {
    TargetContent(t) == TargetContent(s) && t.commits == s.commits
  }

  lemma ReadKeepsTarget(s: State, p: Pid, a: Act)
    requires Inv(s) && IsReadAct(a)
    ensures SameTarget(s, ApplyRead(s, p, a))
  {
  }

  lemma GateKeepsTarget(s: State, p: Pid, a: Act)
    requires Inv(s) && IsGateAct(a)
    ensures SameTarget(s, ApplyGate(s, p, a))
  {
  }

  /** A temporary file is a new inode, so writing it never shows through the target's name. */
  lemma WriteKeepsTarget(s: State, p: Pid, a: Act)
    requires Inv(s) && IsWriteAct(a)
    ensures SameTarget(s, ApplyWrite(s, p, a))
  {
    assert ProcInv(s, p, ProcOf(s, p));
  }

  lemma CommitKeepsTarget(s: State, p: Pid, a: Act)
    requires Inv(s) && IsCommitAct(a) && !a.Rename? && !a.Replace?
    ensures SameTarget(s, ApplyCommit(s, p, a))
  {
    assert ProcInv(s, p, ProcOf(s, p));
  }

  lemma ExitKeepsTarget(s: State, p: Pid, a: Act)
    requires Inv(s) && IsExitAct(a)
    ensures SameTarget(s, ApplyExit(s, p, a))
  {
    assert ProcInv(s, p, ProcOf(s, p));
  }

  /** Only a rename changes what the target shows. */
  lemma StepKeepsTarget(s: State, l: Label)
    requires Inv(s) && !l.act.Rename? && !l.act.Replace?
    ensures SameTarget(s, Apply(s, l))
  {
    var (p, a) := (l.pid, l.act);
    if PcOf(s, p).Dead? {
    } else if IsReadAct(a) {
      ReadKeepsTarget(s, p, a);
    } else if IsGateAct(a) {
      GateKeepsTarget(s, p, a);
    } else if IsWriteAct(a) {
      WriteKeepsTarget(s, p, a);
    } else if IsCommitAct(a) {
      CommitKeepsTarget(s, p, a);
    } else {
      ExitKeepsTarget(s, p, a);
    }
  }

  /** A rename puts the complete new content in place of exactly what the caller derived it from. */
  lemma RenameExtendsChain(s: State, l: Label)
    requires Inv(s) && (l.act.Rename? || l.act.Replace?)
    ensures var t := Apply(s, l);
            || (t.commits == s.commits && TargetContent(t) == TargetContent(s))
            || (t.commits == s.commits + [Commit(ProcOf(s, l.pid).edit, TargetContent(s), TargetContent(s), TargetContent(t))]
                && ProcOf(s, l.pid).base == TargetContent(s) && TargetContent(t) == ProcOf(s, l.pid).next)
  {
    assert ProcInv(s, l.pid, ProcOf(s, l.pid));
  }

  lemma ChainExtends(initial: Bytes, commits: seq<Commit>, c: Commit)
    requires Chain(initial, commits)
    requires c.base == c.replaced == After(initial, commits, |commits|)
    ensures Chain(initial, commits + [c])
    ensures After(initial, commits + [c], |commits| + 1) == c.content
  {
    forall k | 0 <= k < |commits| + 1 ensures Link(initial, commits + [c], k) {
      assert k < |commits| ==> Link(initial, commits, k);
    }
  }

  lemma StepKeepsChain(initial: Bytes, s: State, l: Label)
    requires Inv(s) && ChainInv(initial, s)
    ensures ChainInv(initial, Apply(s, l))
  {
    if l.act.Rename? || l.act.Replace? {
      RenameExtendsChain(s, l);
      var c := Commit(ProcOf(s, l.pid).edit, TargetContent(s), TargetContent(s), TargetContent(Apply(s, l)));
      if Apply(s, l).commits != s.commits {
        ChainExtends(initial, s.commits, c);
      }
    } else {
      StepKeepsTarget(s, l);
    }
  }

  lemma {:induction false} RunKeepsChain(initial: Bytes, s: State, ls: seq<Label>)
    requires Inv(s) && ChainInv(initial, s)
    ensures Inv(Run(s, ls)) && ChainInv(initial, Run(s, ls))
    decreases |ls|
  {
    if ls != [] {
      StepKeepsInv(s, ls[0]);
      StepKeepsChain(initial, s, ls[0]);
      RunKeepsChain(initial, Apply(s, ls[0]), ls[1..]);
    }
  }

  lemma InitInv(s: State)
    requires Init(s)
    ensures Inv(s) && ChainInv(TargetContent(s), s)
  {
    assert forall p :: ProcOf(s, p) == Proc(Idle, 0, "", "");
  }

  /**
   * In every interleaving of any number of writers, with calls failing and writers dying anywhere,
   * the committed contents form a chain: each commit replaces exactly the content its caller read.
   */
  lemma CommitsFormAChain(s: State, ls: seq<Label>)
    requires Init(s)
    ensures Chain(TargetContent(s), Run(s, ls).commits)
    ensures TargetContent(Run(s, ls)) == After(TargetContent(s), Run(s, ls).commits, |Run(s, ls).commits|)
  {
    InitInv(s);
    RunKeepsChain(TargetContent(s), s, ls);
  }

  /** The updates of a history, applied one after the other. */
  function Replay(update: (EditId, Bytes) -> Bytes, initial: Bytes, commits: seq<Commit>): Bytes {
    if commits == [] then initial
    else
      var last := |commits| - 1;
      update(commits[last].edit, Replay(update, initial, commits[..last]))
  }

  /** Every content that a writer committed is its update applied to what it had read. */
  predicate DerivedBy(update: (EditId, Bytes) -> Bytes, commits: seq<Commit>) {
    forall k :: 0 <= k < |commits| ==> commits[k].content == update(commits[k].edit, commits[k].base)
  }

  lemma {:induction false} ChainReplays(update: (EditId, Bytes) -> Bytes, initial: Bytes, commits: seq<Commit>)
    requires Chain(initial, commits) && DerivedBy(update, commits)
    ensures Replay(update, initial, commits) == After(initial, commits, |commits|)
    decreases |commits|
  {
    if commits != [] {
      var last := |commits| - 1;
      var earlier := commits[..last];
      forall k | 0 <= k < last ensures Link(initial, earlier, k) { assert Link(initial, commits, k); }
      assert Link(initial, commits, last);
      ChainReplays(update, initial, earlier);
    }
  }

  // ... and that is what every caller's own step makes of it

  /** From the derivation on, until the call is over or cleaning up. */
  predicate HasNext(pc: Pc) {
    !(pc.Idle? || pc.StatedRead? || pc.OpenRead? || pc.Baseline? || pc.Cleaning? || pc.Dead?)
  }

  predicate ProcDerived(update: (EditId, Bytes) -> Bytes, proc: Proc) {
    HasNext(proc.pc) ==> proc.next == update(proc.edit, proc.base)
  }

  ghost predicate DerivedInv(update: (EditId, Bytes) -> Bytes, s: State) {
    (forall p :: ProcDerived(update, ProcOf(s, p))) && DerivedBy(update, s.commits)
  }

  /** A caller derives its new content from the bytes it read, and from nothing else. */
  predicate StepDerives(update: (EditId, Bytes) -> Bytes, s: State, l: Label) {
    l.act.Derive? && PcOf(s, l.pid).Baseline? ==> l.act.next == update(l.act.edit, ProcOf(s, l.pid).base)
  }

  predicate RunDerives(update: (EditId, Bytes) -> Bytes, s: State, ls: seq<Label>)
    decreases |ls|
  {
    ls == [] || (StepDerives(update, s, ls[0]) && RunDerives(update, Apply(s, ls[0]), ls[1..]))
  }

  /** A step moves one writer, and only reading and deriving change what it believes. */
  predicate Carries(s: State, t: State, p: Pid) {
    && ProcOf(t, p) == ProcOf(s, p).(pc := PcOf(t, p)) && (HasNext(PcOf(t, p)) ==> HasNext(PcOf(s, p)))
    && (t.commits == s.commits || (HasNext(PcOf(s, p)) && t.commits == s.commits + [CommitOf(s, p)]))
  }

  predicate MovesOnly(s: State, t: State, p: Pid) {
    t.procs == s.procs || t.procs == s.procs[p := ProcOf(t, p)]
  }

  lemma GateCarries(s: State, p: Pid, a: Act)
    requires IsGateAct(a)
    ensures MovesOnly(s, ApplyGate(s, p, a), p) && Carries(s, ApplyGate(s, p, a), p)
  {
  }

  lemma WriteCarries(s: State, p: Pid, a: Act)
    requires IsWriteAct(a)
    ensures MovesOnly(s, ApplyWrite(s, p, a), p) && Carries(s, ApplyWrite(s, p, a), p)
  {
  }

  lemma CommitCarries(s: State, p: Pid, a: Act)
    requires IsCommitAct(a)
    ensures MovesOnly(s, ApplyCommit(s, p, a), p) && Carries(s, ApplyCommit(s, p, a), p)
  {
  }

  lemma ExitCarries(s: State, p: Pid, a: Act)
    requires IsExitAct(a)
    ensures MovesOnly(s, ApplyExit(s, p, a), p) && Carries(s, ApplyExit(s, p, a), p)
  {
  }

  lemma ReadDerives(update: (EditId, Bytes) -> Bytes, s: State, p: Pid, a: Act)
    requires IsReadAct(a) && StepDerives(update, s, By(p, a)) && ProcDerived(update, ProcOf(s, p))
    ensures var t := ApplyRead(s, p, a);
            MovesOnly(s, t, p) && ProcDerived(update, ProcOf(t, p)) && t.commits == s.commits
  {
  }

  lemma CarriedDerived(update: (EditId, Bytes) -> Bytes, s: State, t: State, p: Pid)
    requires DerivedInv(update, s) && MovesOnly(s, t, p) && Carries(s, t, p)
    ensures DerivedInv(update, t)
  {
    assert ProcDerived(update, ProcOf(s, p));
    forall q ensures ProcDerived(update, ProcOf(t, q)) {
      assert ProcDerived(update, ProcOf(s, q));
    }
  }

  lemma StepKeepsDerived(update: (EditId, Bytes) -> Bytes, s: State, l: Label)
    requires DerivedInv(update, s) && StepDerives(update, s, l)
    ensures DerivedInv(update, Apply(s, l))
  {
    var (p, a) := (l.pid, l.act);
    if PcOf(s, p).Dead? {
    } else if IsReadAct(a) {
      assert ProcDerived(update, ProcOf(s, p));
      ReadDerives(update, s, p, a);
      forall q ensures ProcDerived(update, ProcOf(ApplyRead(s, p, a), q)) { assert ProcDerived(update, ProcOf(s, q)); }
    } else if IsGateAct(a) {
      GateCarries(s, p, a);
      CarriedDerived(update, s, ApplyGate(s, p, a), p);
    } else if IsWriteAct(a) {
      WriteCarries(s, p, a);
      CarriedDerived(update, s, ApplyWrite(s, p, a), p);
    } else if IsCommitAct(a) {
      CommitCarries(s, p, a);
      CarriedDerived(update, s, ApplyCommit(s, p, a), p);
    } else {
      ExitCarries(s, p, a);
      CarriedDerived(update, s, ApplyExit(s, p, a), p);
    }
  }

  lemma {:induction false} RunKeepsDerived(update: (EditId, Bytes) -> Bytes, s: State, ls: seq<Label>)
    requires DerivedInv(update, s) && RunDerives(update, s, ls)
    ensures DerivedInv(update, Run(s, ls))
    decreases |ls|
  {
    if ls != [] {
      StepKeepsDerived(update, s, ls[0]);
      RunKeepsDerived(update, Apply(s, ls[0]), ls[1..]);
    }
  }

  /**
   * No lost update: in every run in which each caller derives its content from what it read, the file is
   * at any moment the initial file with every successful update applied, in the order of the renames.
   */
  lemma NoLostUpdate(update: (EditId, Bytes) -> Bytes, s: State, ls: seq<Label>)
    requires Init(s) && RunDerives(update, s, ls)
    ensures TargetContent(Run(s, ls)) == Replay(update, TargetContent(s), Run(s, ls).commits)
  {
    assert forall p :: ProcOf(s, p) == Proc(Idle, 0, "", "");
    RunKeepsDerived(update, s, ls);
    CommitsFormAChain(s, ls);
    ChainReplays(update, TargetContent(s), Run(s, ls).commits);
  }
}
