/**
 * `check_stale_lock` and `acquire_lock` as the source writes them: one process, its system calls in
 * order, on the directory entry and the inodes it changes. Each method is proved to do exactly what
 * the step machine of LockProtocol does when that process runs alone for a while, whatever state
 * other processes have left behind.
 */
module LockFile {
  import opened Common
  import opened LockProtocol

  /** Code 105; or an `OSError` of the stamp's write or of the unlink that follows it. */
  datatype LockError = LockInProgress(clearsBySelf: bool) | WriteRaised(unlinked: bool)

  /** Whom a would-be holder may take over from: nobody, a dead holder of this host, or an old unflocked file. */
  predicate Reclaimable(path: Option<Ino>, inodes: map<Ino, Inode>, host: string, now: int) {
    path.Some? && path.value in inodes ==>
      var f := inodes[path.value];
      f.flock.None? && (StampedBy(f.content, host) || now - f.mtime > STALE_LOCK_SECONDS)
  }

  /** Process `p` takes these steps with nobody in between; a step that does not apply does nothing. */
  function Alone(s: State, p: Pid, acts: seq<Act>): State
    decreases |acts|
  {
    if acts == [] then s else Alone(Apply(s, By(p, acts[0])), p, acts[1..])
  }

  const PROBE: seq<Act> := [OpenLock, FlockProbe]
  const JUDGE: seq<Act> := [ReadStamp, AgeTest]
  const RECLAIM: seq<Act> := [StatPath, UnlinkStale]
  const CLOSE_CHECK: seq<Act> := [CloseCheck]

  /** check_stale_lock. */
  function CheckAlone(s: State, p: Pid): State {
    Alone(Alone(Alone(Alone(s, p, PROBE), p, JUDGE), p, RECLAIM), p, CLOSE_CHECK)
  }

  /** From the O_EXCL create to the critical section, with its flock and stamp or without. */
  function Entering(i: Ino, flocked: bool, bytes: nat): seq<Act> {
    if flocked then [Create(i), FlockOwn, WriteStamp(bytes)] else [Create(i), GiveUpFlock]
  }

  /** ... or to the way out, when the stamp cannot be written. */
  function Failing(i: Ino, unlinked: bool): seq<Act> { [Create(i), FlockOwn, WriteRaises] + Leaving(unlinked) }

  /** The `finally`. */
  function Leaving(unlinked: bool): seq<Act> { [if unlinked then UnlinkOwn else UnlinkOwnRaises, CloseOwn] }

  /** What one process does alone is a run of the machine, so every result about runs covers it. */
  lemma {:induction false} AloneIsRun(s: State, p: Pid, acts: seq<Act>)
    ensures Alone(s, p, acts) == Run(s, seq(|acts|, i requires 0 <= i < |acts| => By(p, acts[i])))
    decreases |acts|
  {
    if acts != [] {
      var ls := seq(|acts|, i requires 0 <= i < |acts| => By(p, acts[i]));
      AloneIsRun(Apply(s, By(p, acts[0])), p, acts[1..]);
      assert ls[1..] == seq(|acts[1..]|, i requires 0 <= i < |acts[1..]| => By(p, acts[1..][i]));
    }
  }

  lemma AloneTwo(s: State, p: Pid, a: Act, b: Act)
    ensures Alone(s, p, [a, b]) == Apply(Apply(s, By(p, a)), By(p, b))
  {
    assert [a, b][1..] == [b] && [b][1..] == [];
    assert Alone(s, p, [a, b]) == Alone(Apply(s, By(p, a)), p, [b]);
    var t := Apply(s, By(p, a));
    assert Alone(t, p, [b]) == Alone(Apply(t, By(p, b)), p, []);
  }

  lemma {:induction false} AloneJoin(s: State, p: Pid, a: seq<Act>, b: seq<Act>)
    ensures Alone(s, p, a + b) == Alone(Alone(s, p, a), p, b)
    decreases |a|
  {
    if a == [] {
      assert a + b == b;
    } else {
      assert (a + b)[1..] == a[1..] + b;
      AloneJoin(Apply(s, By(p, a[0])), p, a[1..], b);
    }
  }

  const OWN_FLOCK_WAIT_MS := 2000

  datatype FlockEnd = Taken | Busy | Missing

  class LockFile {
    const host: string
    var path: Option<Ino>
    var inodes: map<Ino, Inode>
    var now: int
    /** The monotonic clock, in milliseconds. */
    var clock: nat
    /** How often flock(2) was not there, a write of the stamp raised, and an unlink(2) raised. */
    ghost var unsupported: nat
    ghost var writeErrors: nat
    ghost var unlinkErrors: nat

    /** This object shows the lock file of machine state `s`. */
    predicate Shows(s: State)
      reads this
    {
      s.host == host && s.path == path && s.inodes == inodes && s.now == now
    }

    constructor (s: State)
      ensures Shows(s)
    {
      host, path, inodes, now := s.host, s.path, s.inodes, s.now;
      clock, unsupported, writeErrors, unlinkErrors := 0, 0, 0, 0;
    }

    /** `_holder_is_dead`, the flock already taken by the caller: if so, nobody alive owns the file. */
    method HolderIsDead(i: Ino) returns (dead: bool)
      requires i in inodes
      ensures dead == StampedBy(inodes[i].content, host)
      ensures dead ==> forall s: State, p :: Shows(s) && Inv(s) && PcOf(s, p) == ReadingStamp(i) ==> Ownerless(s, i)
    {
      dead := StampedBy(inodes[i].content, host);
      if dead {
        forall s: State, p | Shows(s) && Inv(s) && PcOf(s, p) == ReadingStamp(i) ensures Ownerless(s, i) {
          StampedMeansDead(s, p, i);
        }
      }
    }

    /** `_unlink_if_same_file`: stat the path, compare, unlink. A live owner's path is never freed. */
    method UnlinkIfSameFile(i: Ino)
      modifies this`path
      ensures path == if old(path) == Some(i) then None else old(path)
      ensures forall s: State, q :: old(Shows(s)) && Inv(s) && Ownerless(s, i) && Owner(PcOf(s, q)) ==>
                path == Some(PcOf(s, q).ino)
    {
      forall s: State, q | Shows(s) && Inv(s) && Ownerless(s, i) && Owner(PcOf(s, q))
        ensures path.Some? && path != Some(i) && path == Some(PcOf(s, q).ino)
      {
        OwnersKeepThePath(s, q, i);
      }
      if path == Some(i) {
        path := None;
      }
    }

    /**
     * Succeeds exactly when the file is reclaimable, and then it is gone; otherwise nothing changed.
     * A flock taken on the way is always given back.
     */
    method CheckStaleLock(p: Pid) returns (r: Result<(), LockError>)
      requires path.Some? ==> path.value in inodes && inodes[path.value].flock != Some(p)
      modifies this`path, this`inodes
      ensures r.Ok? <==> Reclaimable(old(path), old(inodes), host, now)
      ensures r.Err? ==> r.error.LockInProgress?
      ensures path == if r.Ok? then None else old(path)
      ensures inodes == old(inodes)
      ensures forall s: State :: old(Shows(s)) && PcOf(s, p).Acquiring? ==>
                Shows(CheckAlone(s, p)) && PcOf(CheckAlone(s, p), p) == if r.Ok? then Ready else Idle
    {
      forall s: State | Shows(s) && PcOf(s, p).Acquiring?
        ensures CheckAloneIs(s, p)
      {
        CheckAloneComputes(s, p);
      }
      if path.None? {
        return Ok(());
      }
      var i := path.value;
      if inodes[i].flock.Some? {
        return Err(LockInProgress(false));
      }
      inodes := inodes[i := inodes[i].(flock := Some(p))];
      var dead := HolderIsDead(i);
      if dead {
        UnlinkIfSameFile(i);
        r := Ok(());
      } else if now - inodes[i].mtime > STALE_LOCK_SECONDS {
        UnlinkIfSameFile(i);
        r := Ok(());
      } else {
        r := Err(LockInProgress(true));
      }
      inodes := inodes[i := inodes[i].(flock := None)];
      assert inodes == old(inodes);
    }

    /** flock(2) with LOCK_EX | LOCK_NB: somebody has it for an instant, or there is no flock here. */
    method Flock(p: Pid, i: Ino) returns (r: FlockEnd)
      requires i in inodes && inodes[i].flock.None?
      modifies this`inodes, this`unsupported
      ensures inodes == if r.Taken? then old(inodes)[i := old(inodes)[i].(flock := Some(p))] else old(inodes)
      ensures unsupported == old(unsupported) + if r.Missing? then 1 else 0
    {
      r := *;
      if r.Taken? { inodes := inodes[i := inodes[i].(flock := Some(p))]; }
      if r.Missing? { unsupported := unsupported + 1; }
    }

    /** `time.sleep(0.01)`, or longer. */
    method Sleep()
      modifies this`clock
      ensures clock >= old(clock) + 10
    {
      var more: int := *;
      clock := clock + 10 + if more > 0 then more else 0;
    }

    /** `_take_own_flock`: it gives up only after two seconds, or where there is no flock. */
    method TakeOwnFlock(p: Pid, i: Ino) returns (ok: bool)
      requires i in inodes && inodes[i].flock.None?
      modifies this`inodes, this`clock, this`unsupported
      ensures inodes == if ok then old(inodes)[i := old(inodes)[i].(flock := Some(p))] else old(inodes)
      ensures clock >= old(clock) && unsupported >= old(unsupported)
      ensures if ok then unsupported == old(unsupported)
              else clock > old(clock) + OWN_FLOCK_WAIT_MS || unsupported > old(unsupported)
    {
      var deadline := clock + OWN_FLOCK_WAIT_MS;
      while true
        invariant inodes == old(inodes) && clock >= old(clock) && unsupported == old(unsupported)
        decreases deadline + 10 - clock
      {
        var r := Flock(p, i);
        if r.Taken? { return true; }
        if r.Missing? || clock > deadline { return false; }
        Sleep();
      }
    }

    /**
     * `acquire_lock` up to its `yield`. When it returns, the path names a file of this process's own: flocked
     * by it and stamped with this host, or empty if the flock could not be had. When it raises, either
     * nothing changed, or the stamp could not be written and its own file is gone, unless that failed too.
     */
    method AcquireLock(p: Pid, newIno: Ino, bytes: nat) returns (r: Result<bool, LockError>)
      requires path.Some? ==> path.value in inodes && inodes[path.value].flock != Some(p)
      requires path != Some(newIno)
      modifies this`path, this`inodes, this`clock, this`unsupported, this`writeErrors, this`unlinkErrors
      ensures r.Err? && r.error.LockInProgress? <==> !Reclaimable(old(path), old(inodes), host, now)
      ensures r.Err? && r.error.LockInProgress? ==> path == old(path) && inodes == old(inodes)
      ensures r.Ok? ==>
                && path == Some(newIno)
                && inodes == old(inodes)[newIno := if r.value then Inode(Written(Stamp(host, p), bytes), now, Some(p))
                                                   else Inode("", now, None)]
      ensures r == Ok(false) ==> clock > old(clock) + OWN_FLOCK_WAIT_MS || unsupported > old(unsupported)
      ensures r.Err? && r.error.WriteRaised? <==> writeErrors > old(writeErrors)
      ensures r == Err(WriteRaised(false)) <==> unlinkErrors > old(unlinkErrors)
      ensures r.Err? && r.error.WriteRaised? ==>
                && path == (if r.error.unlinked then None else Some(newIno))
                && inodes == old(inodes)[newIno := Inode("", now, None)]
      ensures forall s: State :: old(Shows(s)) && PcOf(s, p).Acquiring? && !InUse(s, newIno) && r.Ok? ==>
                var t := Alone(CheckAlone(s, p), p, Entering(newIno, r.value, bytes));
                Shows(t) && PcOf(t, p) == Critical(newIno, r.value, Entered)
      ensures forall s: State :: old(Shows(s)) && PcOf(s, p).Acquiring? && !InUse(s, newIno)
                                 && r.Err? && r.error.WriteRaised? ==>
                var t := Alone(CheckAlone(s, p), p, Failing(newIno, r.error.unlinked));
                Shows(t) && PcOf(t, p) == Idle
    {
      var check := CheckStaleLock(p);
      if check.Err? { return Err(check.error); }
      forall s: State | old(Shows(s)) && PcOf(s, p).Acquiring? && !InUse(s, newIno)
        ensures ReadyIs(CheckAlone(s, p), p, newIno, old(inodes), host, now)
      {
        CheckLeavesUnused(s, p, newIno);
      }
      path, inodes := Some(newIno), inodes[newIno := Inode("", now, None)];
      var flocked := TakeOwnFlock(p, newIno);
      if flocked {
        var raised: bool := *;
        if raised {
          writeErrors := writeErrors + 1;
          var unlinked := ReleaseOwn(p, newIno, true);
          FailingIs(p, newIno, unlinked, old(inodes), host, now);
          return Err(WriteRaised(unlinked));
        }
        inodes := inodes[newIno := inodes[newIno].(content := Written(Stamp(host, p), bytes), mtime := now)];
      }
      EnteringIs(p, newIno, flocked, bytes, old(inodes), host, now);
      return Ok(flocked);
    }

    /** unlink(2) of the path; what is not there need not be unlinked. */
    method Unlink() returns (ok: bool)
      modifies this`path, this`unlinkErrors
      ensures path == if ok then None else old(path)
      ensures unlinkErrors == old(unlinkErrors) + if ok then 0 else 1
    {
      ok := *;
      if path.None? { ok := true; }
      if ok { path := None; } else { unlinkErrors := unlinkErrors + 1; }
    }

    /** unlink(2), and close(2) in any case. */
    method ReleaseOwn(p: Pid, i: Ino, flocked: bool) returns (unlinked: bool)
      requires i in inodes && (flocked ==> inodes[i].flock == Some(p))
      modifies this`path, this`inodes, this`unlinkErrors
      ensures path == if unlinked then None else old(path)
      ensures unlinkErrors == old(unlinkErrors) + if unlinked then 0 else 1
      ensures inodes == if flocked then old(inodes)[i := old(inodes)[i].(flock := None)] else old(inodes)
    {
      unlinked := Unlink();
      if flocked { inodes := inodes[i := inodes[i].(flock := None)]; }
    }

    /** The `finally` of `acquire_lock`, for a holder with its flock or without: the flock is free in any case. */
    method ReleaseLock(p: Pid, i: Ino, flocked: bool) returns (unlinked: bool)
      requires i in inodes && (flocked <==> inodes[i].flock == Some(p))
      modifies this`path, this`inodes, this`unlinkErrors
      ensures path == if unlinked then None else old(path)
      ensures unlinkErrors == old(unlinkErrors) + if unlinked then 0 else 1
      ensures inodes == if flocked then old(inodes)[i := old(inodes)[i].(flock := None)] else old(inodes)
      ensures i in inodes && inodes[i].flock != Some(p)
      ensures forall s: State, done :: old(Shows(s)) && PcOf(s, p) == Releasing(i, flocked, done) ==>
                Shows(Alone(s, p, Leaving(unlinked))) && !HasFd(PcOf(Alone(s, p, Leaving(unlinked)), p))
    {
      unlinked := ReleaseOwn(p, i, flocked);
      forall s: State, done | old(Shows(s)) && PcOf(s, p) == Releasing(i, flocked, done)
        ensures Shows(Alone(s, p, Leaving(unlinked))) && !HasFd(PcOf(Alone(s, p, Leaving(unlinked)), p))
      {
        LeavingComputes(s, p, i, flocked, done, unlinked);
      }
    }
  }

  /** Where check_stale_lock leaves the lock file and the process, said in one line. */
  predicate CheckAloneIs(s: State, p: Pid) {
    var ok := Reclaimable(s.path, s.inodes, s.host, s.now);
    var t := CheckAlone(s, p);
    && t.path == (if ok then None else s.path)
    && t.inodes == s.inodes && t.host == s.host && t.now == s.now
    && PcOf(t, p) == (if ok then Ready else Idle)
  }

  /** Where the first two steps lead: nothing there, a busy flock, or the flock taken. */
  function Probed(s: State, p: Pid): State
    requires s.path.Some? ==> s.path.value in s.inodes
  {
    if s.path.None? then Goto(s, p, Ready)
    else
      var i := s.path.value;
      if s.inodes[i].flock.Some? then Goto(Goto(s, p, Opened(i)), p, CheckDone(i, false))
      else Goto(SetFlock(Goto(s, p, Opened(i)), i, Some(p)), p, ReadingStamp(i))
  }

  lemma OpenLockStep(s: State, p: Pid)
    requires PcOf(s, p).Acquiring?
    ensures Apply(s, By(p, OpenLock)) == Goto(s, p, if s.path.Some? then Opened(s.path.value) else Ready)
  {
  }

  lemma FlockProbeStep(s: State, p: Pid, i: Ino)
    requires i in s.inodes && PcOf(s, p) == Opened(i)
    ensures Apply(s, By(p, FlockProbe))
            == if s.inodes[i].flock.Some? then Goto(s, p, CheckDone(i, false))
               else Goto(SetFlock(s, i, Some(p)), p, ReadingStamp(i))
  {
  }

  lemma ProbeAlone(s: State, p: Pid)
    requires s.path.Some? ==> s.path.value in s.inodes
    requires PcOf(s, p).Acquiring?
    ensures Alone(s, p, PROBE) == Probed(s, p)
  {
    AloneTwo(s, p, OpenLock, FlockProbe);
    OpenLockStep(s, p);
    if s.path.Some? { FlockProbeStep(Goto(s, p, Opened(s.path.value)), p, s.path.value); }
  }

  function Judged(s: State, p: Pid, i: Ino): State
    requires i in s.inodes
  {
    var f := s.inodes[i];
    if StampedBy(f.content, s.host) then Goto(s, p, Comparing(i))
    else Goto(Goto(s, p, Aging(i)), p, if s.now - f.mtime > STALE_LOCK_SECONDS then Comparing(i) else CheckDone(i, false))
  }

  lemma ReadStampStep(s: State, p: Pid, i: Ino)
    requires i in s.inodes && PcOf(s, p) == ReadingStamp(i)
    ensures Apply(s, By(p, ReadStamp)) == Goto(s, p, if StampedBy(s.inodes[i].content, s.host) then Comparing(i) else Aging(i))
  {
  }

  lemma AgeTestStep(s: State, p: Pid, i: Ino)
    requires i in s.inodes && (PcOf(s, p) == Aging(i) || PcOf(s, p) == Comparing(i))
    ensures Apply(s, By(p, AgeTest))
            == if PcOf(s, p).Comparing? then s
               else Goto(s, p, if s.now - s.inodes[i].mtime > STALE_LOCK_SECONDS then Comparing(i) else CheckDone(i, false))
  {
  }

  lemma JudgeAlone(s: State, p: Pid, i: Ino)
    requires i in s.inodes && PcOf(s, p) == ReadingStamp(i)
    ensures Alone(s, p, JUDGE) == Judged(s, p, i)
  {
    AloneTwo(s, p, ReadStamp, AgeTest);
    ReadStampStep(s, p, i);
    AgeTestStep(Goto(s, p, if StampedBy(s.inodes[i].content, s.host) then Comparing(i) else Aging(i)), p, i);
  }

  lemma StatStep(s: State, p: Pid, i: Ino)
    requires s.path == Some(i) && PcOf(s, p) == Comparing(i)
    ensures Apply(s, By(p, StatPath)) == Goto(s, p, Unlinking(i))
  {
  }

  lemma UnlinkStaleStep(s: State, p: Pid, i: Ino)
    requires PcOf(s, p) == Unlinking(i)
    ensures Apply(s, By(p, UnlinkStale)) == Goto(s, p, CheckDone(i, true)).(path := None)
  {
  }

  lemma ReclaimAlone(s: State, p: Pid, i: Ino)
    requires s.path == Some(i) && PcOf(s, p) == Comparing(i)
    ensures Alone(s, p, RECLAIM) == Goto(Goto(s, p, Unlinking(i)), p, CheckDone(i, true)).(path := None)
  {
    AloneTwo(s, p, StatPath, UnlinkStale);
    StatStep(s, p, i);
    UnlinkStaleStep(Goto(s, p, Unlinking(i)), p, i);
  }

  lemma IdleStep(s: State, p: Pid, a: Act)
    requires PcOf(s, p).CheckDone? || PcOf(s, p).Ready?
    requires a.ReadStamp? || a.AgeTest? || a.StatPath? || a.UnlinkStale?
    ensures Apply(s, By(p, a)) == s
  {
  }

  /** Once the verdict is "leave it" (or there is no file), the remaining steps do nothing. */
  lemma NothingAlone(s: State, p: Pid)
    requires PcOf(s, p).CheckDone? || PcOf(s, p).Ready?
    ensures Alone(s, p, JUDGE) == s && Alone(s, p, RECLAIM) == s
  {
    AloneTwo(s, p, ReadStamp, AgeTest);
    AloneTwo(s, p, StatPath, UnlinkStale);
    IdleStep(s, p, ReadStamp);
    IdleStep(s, p, AgeTest);
    IdleStep(s, p, StatPath);
    IdleStep(s, p, UnlinkStale);
  }

  lemma CloseAlone(s: State, p: Pid)
    requires PcOf(s, p).CheckDone? || PcOf(s, p).Ready?
    ensures Alone(s, p, CLOSE_CHECK) ==
            if PcOf(s, p).Ready? then s
            else Goto(CloseFd(s, p), p, if PcOf(s, p).proceed then Ready else Idle)
  {
    assert Alone(s, p, CLOSE_CHECK) == Alone(Apply(s, By(p, CloseCheck)), p, []);
  }

  lemma FlockGivenBack(s: State, t: State, p: Pid, i: Ino)
    requires i in s.inodes && s.inodes[i].flock.None?
    requires t.inodes == SetFlock(s, i, Some(p)).inodes && Fd(PcOf(t, p)) == Some(i)
    ensures CloseFd(t, p).inodes == s.inodes
  {
    assert s.inodes[i].(flock := Some(p)).(flock := None) == s.inodes[i];
    assert t.inodes[i := t.inodes[i].(flock := None)] == s.inodes;
  }

  lemma DeadFileAlone(s: State, b: State, p: Pid, i: Ino)
    requires i in s.inodes && s.inodes[i].flock.None?
    requires b.path == Some(i) && PcOf(b, p) == Comparing(i) && b.inodes == SetFlock(s, i, Some(p)).inodes
    ensures var t := Alone(Alone(b, p, RECLAIM), p, CLOSE_CHECK);
            && t.path.None? && t.inodes == s.inodes && t.host == b.host && t.now == b.now && PcOf(t, p) == Ready
  {
    ReclaimAlone(b, p, i);
    var c := Goto(Goto(b, p, Unlinking(i)), p, CheckDone(i, true)).(path := None);
    CloseAlone(c, p);
    FlockGivenBack(s, c, p, i);
  }

  lemma LiveFileAlone(s: State, b: State, p: Pid, i: Ino)
    requires i in s.inodes && s.inodes[i].flock.None?
    requires PcOf(b, p) == CheckDone(i, false) && b.inodes == SetFlock(s, i, Some(p)).inodes
    ensures var t := Alone(Alone(b, p, RECLAIM), p, CLOSE_CHECK);
            && t.path == b.path && t.inodes == s.inodes && t.host == b.host && t.now == b.now && PcOf(t, p) == Idle
  {
    NothingAlone(b, p);
    CloseAlone(b, p);
    FlockGivenBack(s, b, p, i);
  }

  lemma FreeFileAlone(s: State, p: Pid, i: Ino)
    requires s.path == Some(i) && i in s.inodes && s.inodes[i].flock.None? && PcOf(s, p).Acquiring?
    ensures CheckAloneIs(s, p)
  {
    ProbeAlone(s, p);
    var a := Probed(s, p);
    JudgeAlone(a, p, i);
    var b := Judged(a, p, i);
    if PcOf(b, p).Comparing? {
      DeadFileAlone(s, b, p, i);
    } else {
      LiveFileAlone(s, b, p, i);
    }
  }

  lemma BusyFileAlone(s: State, p: Pid, i: Ino)
    requires s.path == Some(i) && i in s.inodes && s.inodes[i].flock.Some? && s.inodes[i].flock != Some(p)
    requires PcOf(s, p).Acquiring?
    ensures CheckAloneIs(s, p)
  {
    ProbeAlone(s, p);
    var a := Probed(s, p);
    NothingAlone(a, p);
    CloseAlone(a, p);
  }

  lemma AbsentFileAlone(s: State, p: Pid)
    requires s.path.None? && PcOf(s, p).Acquiring?
    ensures CheckAloneIs(s, p)
  {
    ProbeAlone(s, p);
    NothingAlone(Probed(s, p), p);
    CloseAlone(Probed(s, p), p);
  }

  lemma CheckAloneComputes(s: State, p: Pid)
    requires s.path.Some? ==> s.path.value in s.inodes && s.inodes[s.path.value].flock != Some(p)
    requires PcOf(s, p).Acquiring?
    ensures CheckAloneIs(s, p)
  {
    if s.path.None? {
      AbsentFileAlone(s, p);
    } else if s.inodes[s.path.value].flock.Some? {
      BusyFileAlone(s, p, s.path.value);
    } else {
      FreeFileAlone(s, p, s.path.value);
    }
  }

  /** A process about to create the file, with the path free and the inode number unused. */
  predicate ReadyIs(t: State, p: Pid, i: Ino, inodes: map<Ino, Inode>, host: string, now: int) {
    t.path.None? && t.inodes == inodes && t.host == host && t.now == now && PcOf(t, p) == Ready && !InUse(t, i)
  }

  lemma CreateStep(s: State, p: Pid, i: Ino)
    requires PcOf(s, p).Ready? && s.path.None? && !InUse(s, i)
    ensures Apply(s, By(p, Create(i))) ==
            Goto(s, p, Created(i)).(path := Some(i), inodes := s.inodes[i := Inode("", s.now, None)])
  {
  }

  lemma OwnFlockStep(s: State, p: Pid, i: Ino)
    requires PcOf(s, p) == Created(i) && i in s.inodes && s.inodes[i].flock.None?
    ensures Apply(s, By(p, FlockOwn)) == Goto(SetFlock(s, i, Some(p)), p, Flocked(i))
  {
  }

  lemma StampStep(s: State, p: Pid, i: Ino, bytes: nat)
    requires PcOf(s, p) == Flocked(i) && i in s.inodes
    ensures var f := s.inodes[i].(content := Written(Stamp(s.host, p), bytes), mtime := s.now);
            Apply(s, By(p, WriteStamp(bytes))) ==
            Goto(s.(inodes := s.inodes[i := f]), p, Critical(i, true, Entered))
  {
  }

  /** The file as `p` has created and flocked it. */
  lemma OwnFlocked(s: State, p: Pid, i: Ino)
    requires PcOf(s, p).Ready? && s.path.None? && !InUse(s, i)
    ensures var a := Apply(s, By(p, Create(i)));
            var b := Apply(a, By(p, FlockOwn));
            && b.inodes == s.inodes[i := Inode("", s.now, Some(p))] && b.path == Some(i)
            && b.host == s.host && b.now == s.now && PcOf(b, p) == Flocked(i)
  {
    CreateStep(s, p, i);
    OwnFlockStep(Apply(s, By(p, Create(i))), p, i);
  }

  lemma EnterFlocked(s: State, p: Pid, i: Ino, bytes: nat)
    requires PcOf(s, p).Ready? && s.path.None? && !InUse(s, i)
    ensures var t := Alone(s, p, Entering(i, true, bytes));
            && t.path == Some(i) && t.host == s.host && t.now == s.now && PcOf(t, p) == Critical(i, true, Entered)
            && t.inodes == s.inodes[i := Inode(Written(Stamp(s.host, p), bytes), s.now, Some(p))]
  {
    var a := Apply(s, By(p, Create(i)));
    assert Entering(i, true, bytes)[1..] == [FlockOwn, WriteStamp(bytes)];
    AloneTwo(a, p, FlockOwn, WriteStamp(bytes));
    OwnFlocked(s, p, i);
    var b := Apply(a, By(p, FlockOwn));
    StampStep(b, p, i, bytes);
    assert b.inodes[i := Inode(Written(Stamp(s.host, p), bytes), s.now, Some(p))] ==
           s.inodes[i := Inode(Written(Stamp(s.host, p), bytes), s.now, Some(p))];
  }

  lemma GiveUpStep(a: State, p: Pid, i: Ino)
    requires PcOf(a, p) == Created(i)
    ensures Apply(a, By(p, GiveUpFlock)) == Goto(a, p, Critical(i, false, Entered))
  {
  }

  lemma EnterUnflocked(s: State, p: Pid, i: Ino, bytes: nat)
    requires PcOf(s, p).Ready? && s.path.None? && !InUse(s, i)
    ensures var t := Alone(s, p, Entering(i, false, bytes));
            && t.path == Some(i) && t.host == s.host && t.now == s.now && PcOf(t, p) == Critical(i, false, Entered)
            && t.inodes == s.inodes[i := Inode("", s.now, None)]
  {
    AloneTwo(s, p, Create(i), GiveUpFlock);
    CreateStep(s, p, i);
    GiveUpStep(Apply(s, By(p, Create(i))), p, i);
  }

  lemma RaiseStep(a: State, p: Pid, i: Ino)
    requires PcOf(a, p) == Flocked(i)
    ensures Apply(a, By(p, WriteRaises)) == Goto(a, p, Releasing(i, true, false))
  {
  }

  /** Created and flocked, and then the write raises. */
  lemma RaisesAlone(s: State, p: Pid, i: Ino)
    requires PcOf(s, p).Ready? && s.path.None? && !InUse(s, i)
    ensures var c := Alone(s, p, [Create(i), FlockOwn, WriteRaises]);
            && c.path == Some(i) && c.host == s.host && c.now == s.now
            && c.inodes == s.inodes[i := Inode("", s.now, Some(p))] && PcOf(c, p) == Releasing(i, true, false)
  {
    var a := Apply(s, By(p, Create(i)));
    assert [Create(i), FlockOwn, WriteRaises][1..] == [FlockOwn, WriteRaises];
    AloneTwo(a, p, FlockOwn, WriteRaises);
    OwnFlocked(s, p, i);
    RaiseStep(Apply(a, By(p, FlockOwn)), p, i);
  }

  lemma FlockOnAndOff(inodes: map<Ino, Inode>, p: Pid, i: Ino, now: int)
    ensures var c := inodes[i := Inode("", now, Some(p))];
            c[i := c[i].(flock := None)] == inodes[i := Inode("", now, None)]
  {
  }

  lemma FailingComputes(s: State, p: Pid, i: Ino, unlinked: bool)
    requires PcOf(s, p).Ready? && s.path.None? && !InUse(s, i)
    ensures var t := Alone(s, p, Failing(i, unlinked));
            && t.path == (if unlinked then None else Some(i)) && t.host == s.host && t.now == s.now
            && t.inodes == s.inodes[i := Inode("", s.now, None)] && PcOf(t, p) == Idle
  {
    var acts := [Create(i), FlockOwn, WriteRaises];
    AloneJoin(s, p, acts, Leaving(unlinked));
    RaisesAlone(s, p, i);
    LeavingComputes(Alone(s, p, acts), p, i, true, false, unlinked);
    FlockOnAndOff(s.inodes, p, i, s.now);
  }

  lemma EnteringIs(p: Pid, i: Ino, flocked: bool, bytes: nat, inodes: map<Ino, Inode>, host: string, now: int)
    ensures forall t: State :: ReadyIs(t, p, i, inodes, host, now) ==>
              var z := Alone(t, p, Entering(i, flocked, bytes));
              && z.path == Some(i) && z.host == host && z.now == now && PcOf(z, p) == Critical(i, flocked, Entered)
              && z.inodes == inodes[i := if flocked then Inode(Written(Stamp(host, p), bytes), now, Some(p))
                                         else Inode("", now, None)]
  {
    forall t: State | ReadyIs(t, p, i, inodes, host, now)
      ensures var z := Alone(t, p, Entering(i, flocked, bytes));
              && z.path == Some(i) && z.host == host && z.now == now && PcOf(z, p) == Critical(i, flocked, Entered)
              && z.inodes == inodes[i := if flocked then Inode(Written(Stamp(host, p), bytes), now, Some(p))
                                         else Inode("", now, None)]
    {
      if flocked { EnterFlocked(t, p, i, bytes); } else { EnterUnflocked(t, p, i, bytes); }
    }
  }

  lemma FailingIs(p: Pid, i: Ino, unlinked: bool, inodes: map<Ino, Inode>, host: string, now: int)
    ensures forall t: State :: ReadyIs(t, p, i, inodes, host, now) ==>
              var z := Alone(t, p, Failing(i, unlinked));
              && z.path == (if unlinked then None else Some(i)) && z.host == host && z.now == now
              && z.inodes == inodes[i := Inode("", now, None)] && PcOf(z, p) == Idle
  {
    forall t: State | ReadyIs(t, p, i, inodes, host, now)
      ensures var z := Alone(t, p, Failing(i, unlinked));
              && z.path == (if unlinked then None else Some(i)) && z.host == host && z.now == now
              && z.inodes == inodes[i := Inode("", now, None)] && PcOf(z, p) == Idle
    {
      FailingComputes(t, p, i, unlinked);
    }
  }

  /** Nobody but `p` holds inode `i`. */
  ghost predicate UnheldByOthers(s: State, p: Pid, i: Ino) {
    forall q :: q != p && q in s.procs ==> Fd(PcOf(s, q)) != Some(i)
  }

  lemma {:induction false} AloneLeavesUnheld(s: State, p: Pid, acts: seq<Act>, i: Ino)
    requires forall a :: a in acts ==> IsCheckAct(a)
    requires UnheldByOthers(s, p, i)
    ensures UnheldByOthers(Alone(s, p, acts), p, i)
    decreases |acts|
  {
    if acts != [] {
      CheckMovesOnlyItself(s, p, acts[0]);
      CheckAddsNobody(s, p, acts[0]);
      AloneLeavesUnheld(Apply(s, By(p, acts[0])), p, acts[1..], i);
    }
  }

  lemma CheckAddsNobody(s: State, p: Pid, a: Act)
    requires IsCheckAct(a)
    ensures forall q :: q in Apply(s, By(p, a)).procs && q != p ==> q in s.procs
  {
  }

  lemma CheckLeavesUnheld(s: State, p: Pid, i: Ino)
    requires UnheldByOthers(s, p, i)
    ensures UnheldByOthers(CheckAlone(s, p), p, i)
  {
    AloneLeavesUnheld(s, p, PROBE, i);
    var a := Alone(s, p, PROBE);
    AloneLeavesUnheld(a, p, JUDGE, i);
    var b := Alone(a, p, JUDGE);
    AloneLeavesUnheld(b, p, RECLAIM, i);
    AloneLeavesUnheld(Alone(b, p, RECLAIM), p, CLOSE_CHECK, i);
  }

  lemma CheckLeavesUnused(s: State, p: Pid, i: Ino)
    requires CheckAloneIs(s, p) && !InUse(s, i)
    ensures CheckAlone(s, p).path.None? ==> !InUse(CheckAlone(s, p), i)
  {
    assert UnheldByOthers(s, p, i);
    CheckLeavesUnheld(s, p, i);
    CheckClosesFile(s, p);
    if CheckAlone(s, p).path.None? {
      UnheldIsUnused(CheckAlone(s, p), p, i);
    }
  }

  lemma CheckClosesFile(s: State, p: Pid)
    requires CheckAloneIs(s, p)
    ensures !HasFd(PcOf(CheckAlone(s, p), p))
  {
  }

  lemma UnheldIsUnused(s: State, p: Pid, i: Ino)
    requires UnheldByOthers(s, p, i) && !HasFd(PcOf(s, p)) && s.path.None?
    ensures !InUse(s, i)
  {
  }

  /** The state after the `finally`: path, flock, and where the process goes. */
  function Left(s: State, p: Pid, i: Ino, flocked: bool, done: bool, unlinked: bool): State {
    var u := Goto(s, p, Closing(i, done && unlinked)).(path := if unlinked then None else s.path);
    Goto(if flocked then SetFlock(u, i, None) else u, p, if done && unlinked then WritingMarker else Idle)
  }

  lemma LeavingIs(s: State, p: Pid, i: Ino, flocked: bool, done: bool, unlinked: bool)
    requires i in s.inodes && (flocked <==> s.inodes[i].flock == Some(p)) && PcOf(s, p) == Releasing(i, flocked, done)
    ensures Alone(s, p, Leaving(unlinked)) == Left(s, p, i, flocked, done, unlinked)
  {
    AloneTwo(s, p, if unlinked then UnlinkOwn else UnlinkOwnRaises, CloseOwn);
    UnlinkStep(s, p, i, flocked, done, unlinked);
    CloseStep(Apply(s, By(p, if unlinked then UnlinkOwn else UnlinkOwnRaises)), p, i, done && unlinked, flocked);
  }

  lemma LeavingComputes(s: State, p: Pid, i: Ino, flocked: bool, done: bool, unlinked: bool)
    requires i in s.inodes && (flocked <==> s.inodes[i].flock == Some(p)) && PcOf(s, p) == Releasing(i, flocked, done)
    ensures var t := Alone(s, p, Leaving(unlinked));
            && t.path == (if unlinked then None else s.path) && t.host == s.host && t.now == s.now
            && t.inodes == (if flocked then s.inodes[i := s.inodes[i].(flock := None)] else s.inodes)
            && PcOf(t, p) == if done && unlinked then WritingMarker else Idle
  {
    LeavingIs(s, p, i, flocked, done, unlinked);
  }

  lemma UnlinkStep(s: State, p: Pid, i: Ino, flocked: bool, done: bool, unlinked: bool)
    requires PcOf(s, p) == Releasing(i, flocked, done)
    ensures Apply(s, By(p, if unlinked then UnlinkOwn else UnlinkOwnRaises))
            == Goto(s, p, Closing(i, done && unlinked)).(path := if unlinked then None else s.path)
  {
  }

  lemma CloseStep(a: State, p: Pid, i: Ino, done: bool, flocked: bool)
    requires PcOf(a, p) == Closing(i, done) && i in a.inodes && (flocked <==> a.inodes[i].flock == Some(p))
    ensures Apply(a, By(p, CloseOwn))
            == Goto(if flocked then SetFlock(a, i, None) else a, p, if done then WritingMarker else Idle)
  {
  }
}
