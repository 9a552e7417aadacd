/**
 * One call of `_safe_rewrite_core` (`src/worthless/cli/safe_rewrite.py`): descriptors, the names of the
 * temporary file, and the clean-up that follows a failure. Every system call may fail, and between any
 * two of them other processes may do what they like to everything but this call's own temporary file.
 */
module SafeRewrite {
  import opened Common
  import opened Text
  import opened RewriteGates

  type Ino = nat
  type Fd = nat

  /** The file to rewrite, this call's random names next to it, and every other name. */
  datatype Name = Target | Tmp(token: nat) | Staging(token: nat) | Other(path: nat)

  datatype Kind = Regular | Link | Directory | Special

  datatype File = File(kind: Kind, bytes: Bytes, mode: nat)

  datatype Stat = Stat(ino: Ino, kind: Kind, mode: nat, size: nat, links: nat)

  /** `OSError`: the errors the code tells apart. */
  datatype Errno = WouldBlock | Exists | Unsupported | OtherError

  /** What the target's name shows. */
  datatype View = View(ino: Ino, file: File)

  /** One rename over the target: what it shows now, what it showed just before, and how many steps others had taken. */
  datatype Rename = Rename(shows: View, replaced: Option<View>, at: nat)

  /**
   * What this call's system calls and hook gave it, in order: the inodes it locked, what fstat(2) answered, the
   * moments its hook ended (counted in steps of others), and the bytes read(2) returned.
   */
  datatype Trace = Trace(flocks: seq<Ino>, fstats: seq<Stat>, hooks: seq<nat>, got: Bytes)

  // ----- The file system, as one process sees it ------------------------------------------------

  class Disk {
    var entry: map<Name, Ino>
    var files: map<Ino, File>
    var open: map<Fd, Ino>
    var locks: set<Fd>
    var nextFd: Fd
    var nextIno: Ino
    /** The names this call created and has not given away. */
    var own: set<Name>
    /** What this call made the target show, in order; and how many steps others have taken. */
    ghost var mine: seq<Rename>
    ghost var foreign: nat
    /** When rename(2) over the target was refused as unsupported, counted in steps of others. */
    ghost var unsupported: seq<nat>
    ghost var trace: Trace
    /** How many calls of unlink(2) failed. */
    ghost var unlinkFails: nat

    ghost function Shown(): Option<View>
      reads this
    {
      if Target in entry && entry[Target] in files then Some(View(entry[Target], files[entry[Target]])) else None
    }

    ghost predicate Valid()
      reads this
    {
      && (forall n :: n in entry ==> entry[n] in files)
      && (forall i :: i in files ==> i < nextIno)
      && (forall f :: f in open ==> f < nextFd && open[f] in files)
      && locks <= open.Keys
      && own <= entry.Keys && Target !in own
      && (forall n, m :: n in own && m in entry && entry[m] == entry[n] ==> m == n)
    }

    /** This call did not touch the target: what it shows changed only if others took a step. */
    twostate predicate Untouched()
      reads this
    {
      && mine == old(mine) && foreign >= old(foreign) && unlinkFails >= old(unlinkFails)
      && (foreign == old(foreign) ==> Shown() == old(Shown()))
    }

    /** ... and its temporary file kept its names and content. */
    twostate predicate Undisturbed()
      reads this
    {
      && Valid() && Untouched()
      && (forall n :: n in old(own) && n in own ==>
            n in entry && n in old(entry) && entry[n] == old(entry)[n]
            && entry[n] in files && entry[n] in old(files) && files[entry[n]] == old(files)[entry[n]])
    }

    /** ... and it holds the same names, descriptors and locks. */
    twostate predicate Quiet()
      reads this
    {
      Undisturbed() && own == old(own) && open == old(open) && locks == old(locks)
    }

    predicate Foreign(n: Name, i: Ino)
      reads this
      requires own <= entry.Keys
    {
      n !in own && forall o :: o in own ==> entry[o] != i
    }

    method ForeignWrite(i: Ino, f: File)
      requires Valid() && Foreign(Target, i) && i in files
      modifies this`files, this`foreign
      ensures Quiet()
    {
      files := files[i := f];
      foreign := foreign + 1;
    }

    method ForeignUnlink(n: Name)
      requires Valid() && n !in own
      modifies this`entry, this`foreign
      ensures Quiet()
    {
      entry := entry - {n};
      foreign := foreign + 1;
    }

    method ForeignLink(n: Name, i: Ino)
      requires Valid() && Foreign(n, i) && i in files
      modifies this`entry, this`foreign
      ensures Quiet()
    {
      entry := entry[n := i];
      foreign := foreign + 1;
    }

    method ForeignFile(f: File) returns (i: Ino)
      requires Valid()
      modifies this`files, this`nextIno
      ensures Quiet() && entry == old(entry) && i in files && Foreign(Target, i)
    {
      i := nextIno;
      files := files[i := f];
      nextIno := nextIno + 1;
    }

    /** One thing another process may do: to anything but this call's temporary file. */
    method OneForeignStep()
      requires Valid()
      modifies this`entry, this`files, this`nextIno, this`foreign
      ensures Quiet()
    {
      var n: Name := *;
      var i: Ino := *;
      var f: File := *;
      if * {
        if Foreign(Target, i) && i in files { ForeignWrite(i, f); }
      } else if * {
        if n !in own { ForeignUnlink(n); }
      } else if * {
        if Foreign(n, i) && i in files { ForeignLink(n, i); }
      } else {
        i := ForeignFile(f);
        if n !in own { ForeignLink(n, i); }
      }
    }

    method Others()
      requires Valid()
      modifies this`entry, this`files, this`nextIno, this`foreign
      ensures Quiet()
    {
      var k: nat := *;
      while k > 0
        invariant Quiet()
      {
        OneForeignStep();
        k := k - 1;
      }
    }

    // ----- System calls: each may fail, and then has done nothing -------------------------------

    function StatOf(i: Ino): Stat
      reads this
      requires i in files
    {
      Stat(i, files[i].kind, files[i].mode, |files[i].bytes|, |set n | n in entry && entry[n] == i|)
    }

    /** lstat(2). */
    method Lstat(n: Name) returns (r: Result<Stat, Errno>)
      requires Valid()
      modifies this
      ensures Quiet() && trace == old(trace)
      ensures r.Ok? ==> n in entry && r.value == StatOf(entry[n])
    {
      Others();
      var broken: bool := *;
      if broken || n !in entry { return Err(OtherError); }
      return Ok(StatOf(entry[n]));
    }

    /** stat(2): what a symbolic link leads to may be anything. */
    method StatFollow(n: Name) returns (r: Result<Stat, Errno>)
      requires Valid()
      modifies this
      ensures Quiet() && unsupported == old(unsupported) && trace == old(trace)
      ensures r.Ok? ==> n in entry && (files[entry[n]].kind != Link ==> r.value == StatOf(entry[n]))
    {
      Others();
      var broken: bool := *;
      if broken || n !in entry { return Err(OtherError); }
      var elsewhere: Stat := *;
      return Ok(if files[entry[n]].kind == Link then elsewhere else StatOf(entry[n]));
    }

    /** open(2) with O_NOFOLLOW. */
    method OpenName(n: Name) returns (r: Result<Fd, Errno>)
      requires Valid()
      modifies this
      ensures Undisturbed() && own == old(own) && locks == old(locks) && trace == old(trace)
      ensures r.Err? ==> open == old(open)
      ensures r.Ok? ==> r.value !in old(open) && n in entry && open == old(open)[r.value := entry[n]]
    {
      Others();
      var broken: bool := *;
      if broken || n !in entry || files[entry[n]].kind == Link { return Err(OtherError); }
      var fd := nextFd;
      open := open[fd := entry[n]];
      nextFd := nextFd + 1;
      return Ok(fd);
    }

    method Fstat(fd: Fd) returns (r: Result<Stat, Errno>)
      requires Valid() && fd in open
      modifies this
      ensures Quiet()
      ensures r.Ok? ==> r.value == StatOf(open[fd])
      ensures trace == if r.Ok? then old(trace).(fstats := old(trace).fstats + [r.value]) else old(trace)
    {
      Others();
      var broken: bool := *;
      if broken { return Err(OtherError); }
      trace := trace.(fstats := trace.fstats + [StatOf(open[fd])]);
      return Ok(StatOf(open[fd]));
    }

    /** flock(2) with LOCK_EX | LOCK_NB. */
    method Flock(fd: Fd) returns (r: Result<(), Errno>)
      requires Valid() && fd in open
      modifies this
      ensures Undisturbed() && own == old(own) && open == old(open)
      ensures locks == if r.Ok? then old(locks) + {fd} else old(locks)
      ensures trace == if r.Ok? then old(trace).(flocks := old(trace).flocks + [open[fd]]) else old(trace)
    {
      Others();
      var held: bool := *;
      var broken: bool := *;
      if held { return Err(WouldBlock); }
      if broken { return Err(OtherError); }
      locks := locks + {fd};
      trace := trace.(flocks := trace.flocks + [open[fd]]);
      return Ok(());
    }

    /** read(2): from `at` on, at most `want` bytes, and less at will; nothing at the end. */
    method Read(fd: Fd, at: nat, want: nat) returns (r: Result<Bytes, Errno>)
      requires Valid() && fd in open && want > 0
      modifies this
      ensures Quiet()
      ensures r.Ok? ==> |r.value| <= want
      ensures r.Ok? ==> var b := files[open[fd]].bytes;
                        if at < |b| then at + |r.value| <= |b| && 0 < |r.value| && r.value == b[at..at + |r.value|]
                        else r.value == ""
      ensures trace == if r.Ok? then old(trace).(got := old(trace).got + r.value) else old(trace)
    {
      Others();
      var broken: bool := *;
      if broken { return Err(OtherError); }
      var b := files[open[fd]].bytes;
      if at >= |b| { return Ok(""); }
      var k: nat := *;
      var n := if 0 < k <= want && at + k <= |b| then k else 1;
      trace := trace.(got := trace.got + b[at..at + n]);
      return Ok(b[at..at + n]);
    }

    method NewOwnFile(n: Name)
      requires Valid() && n.Tmp? && n !in entry
      modifies this`files, this`entry, this`own, this`nextIno
      ensures Undisturbed() && own == old(own) + {n} && n in entry && files[entry[n]] == File(Regular, "", 384)
    {
      files := files[nextIno := File(Regular, "", 384)];
      entry := entry[n := nextIno];
      own := own + {n};
      nextIno := nextIno + 1;
    }

    /** open(2) with O_CREAT | O_EXCL of one of this call's names. */
    method Create(n: Name) returns (r: Result<Fd, Errno>)
      requires Valid() && n.Tmp? && n !in own
      modifies this
      ensures Undisturbed() && locks == old(locks) && trace == old(trace)
      ensures r.Err? ==> open == old(open) && own == old(own)
      ensures r.Ok? ==> r.value !in old(open) && own == old(own) + {n} && open == old(open)[r.value := entry[n]]
                        && files[entry[n]] == File(Regular, "", 384)
    {
      Others();
      var broken: bool := *;
      if broken { return Err(OtherError); }
      if n in entry { return Err(Exists); }
      NewOwnFile(n);
      var fd := nextFd;
      open := open[fd := entry[n]];
      nextFd := nextFd + 1;
      return Ok(fd);
    }

    /** write(2) to this call's own file: some front part of `chunk`, possibly none of it. */
    method Write(n: Name, fd: Fd, chunk: Bytes) returns (r: Result<nat, Errno>)
      requires Valid() && n in own && fd in open && open[fd] == entry[n]
      modifies this
      ensures Valid() && Untouched() && trace == old(trace)
      ensures own == old(own) && open == old(open) && locks == old(locks) && entry[n] == old(entry[n])
      ensures r.Ok? ==> r.value <= |chunk|
      ensures var was := old(files[entry[n]]);
              files[entry[n]] == was.(bytes := if r.Ok? then was.bytes + chunk[..r.value] else was.bytes)
    {
      Others();
      var broken: bool := *;
      if broken { return Err(OtherError); }
      var k: int := *;
      if k < 0 || k > |chunk| { k := |chunk|; }
      var i := entry[n];
      files := files[i := files[i].(bytes := files[i].bytes + chunk[..k])];
      return Ok(k);
    }

    /** fsync(2), fchmod(2) and the like: nothing but success or failure. */
    method Sync(fd: Fd) returns (ok: bool)
      requires Valid() && fd in open
      modifies this
      ensures Quiet() && trace == old(trace)
    {
      Others();
      ok := *;
    }

    /** The caller's hook: it may raise, and anything may happen meanwhile. */
    method RunHook() returns (ok: bool)
      requires Valid()
      modifies this
      ensures Quiet() && trace == old(trace).(hooks := old(trace).hooks + [foreign])
    {
      Others();
      trace := trace.(hooks := trace.hooks + [foreign]);
      ok := *;
    }

    /** close(2): the descriptor is gone, and its lock with it, whatever the call returns. */
    method Close(fd: Fd) returns (ok: bool)
      requires Valid() && fd in open
      modifies this
      ensures Undisturbed() && own == old(own)
      ensures open == old(open) - {fd} && locks == old(locks) - {fd} && trace == old(trace)
    {
      Others();
      open := open - {fd};
      locks := locks - {fd};
      ok := *;
    }

    /** flock(2) with LOCK_UN. */
    method Unlock(fd: Fd)
      requires Valid() && fd in open
      modifies this
      ensures Undisturbed() && own == old(own) && open == old(open)
      ensures old(locks) - {fd} <= locks <= old(locks) && trace == old(trace)
    {
      Others();
      var broken: bool := *;
      if !broken { locks := locks - {fd}; }
    }

    /** unlink(2) of one of this call's names. */
    method Unlink(n: Name) returns (ok: bool)
      requires Valid() && n in own
      modifies this
      ensures Undisturbed() && open == old(open) && locks == old(locks) && trace == old(trace)
      ensures own == if ok then old(own) - {n} else old(own)
      ensures unlinkFails == old(unlinkFails) + if ok then 0 else 1
    {
      Others();
      ok := *;
      if ok {
        entry := entry - {n};
        own := own - {n};
      } else {
        unlinkFails := unlinkFails + 1;
      }
    }

    /** rename(2) of this call's file to another of its names. */
    method RenameOwn(n: Name, m: Name) returns (ok: bool)
      requires Valid() && n in own && m.Staging? && m !in own
      modifies this
      ensures Valid() && Untouched() && open == old(open) && locks == old(locks) && trace == old(trace)
      ensures own == if ok then old(own) - {n} + {m} else old(own)
      ensures var k := if ok then m else n;
              entry[k] == old(entry[n]) && files[entry[k]] == old(files[entry[n]])
    {
      Others();
      ok := *;
      if m in entry { ok := false; }
      if ok {
        entry := (entry - {n})[m := entry[n]];
        own := own - {n} + {m};
      }
    }

    /** The last rename put `v` in place of what the target showed before, unless others acted in between. */
    twostate predicate NewRename(v: View)
      reads this
      requires mine != []
    {
      var c := mine[|mine| - 1];
      && c.shows == v && Shown() == Some(v)
      && old(foreign) <= c.at == foreign && (c.at == old(foreign) ==> c.replaced == old(Shown()))
    }

    /** rename(2) of this call's file over the target: all of it, or nothing. */
    method Replace(n: Name) returns (r: Result<(), Errno>)
      requires Valid() && n in own
      modifies this
      ensures Valid() && open == old(open) && locks == old(locks) && trace == old(trace) && unlinkFails == old(unlinkFails)
      ensures own == if r.Ok? then old(own) - {n} else old(own)
      ensures r.Ok? ==> |mine| == |old(mine)| + 1 && old(mine) <= mine && NewRename(View(old(entry[n]), old(files[entry[n]])))
      ensures r.Err? ==> Untouched() && entry[n] == old(entry[n]) && files[entry[n]] == old(files[entry[n]])
      ensures unsupported == if r == Err(Unsupported) then old(unsupported) + [foreign] else old(unsupported)
    {
      Others();
      var known: bool := *;
      var broken: bool := *;
      if !known {
        unsupported := unsupported + [foreign];
        return Err(Unsupported);
      }
      if broken { return Err(OtherError); }
      ghost var before := Shown();
      entry := (entry - {n})[Target := entry[n]];
      own := own - {n};
      mine := mine + [Rename(Shown().value, before, foreign)];
      return Ok(());
    }
  }

  // ----- One call --------------------------------------------------------------------------------

  /** What the call ended with; `Raised` is any other exception, from the hook or from close(2). */
  datatype Outcome = Done | Refused(reason: Reason) | Raised

  /** A step either goes on or ends the call. */
  datatype Step<T> = Go(value: T) | Stop(why: Outcome)

  /** What the gates before the first open(2) look at besides the file system. */
  datatype Host = Host(platformOk: bool, atomicFs: bool, contained: bool, userPath: Name)

  /** The variables the clean-up reads. */
  class Handles {
    var targetFd: Option<Fd>
    var dirFd: Option<Fd>
    var tmpFd: Option<Fd>
    var tmpPath: Option<Name>
    var stagingPath: Option<Name>
    var flockHeld: bool

    constructor ()
      ensures targetFd.None? && dirFd.None? && tmpFd.None? && tmpPath.None? && stagingPath.None? && !flockHeld
    {
      targetFd, dirFd, tmpFd, tmpPath, stagingPath, flockHeld := None, None, None, None, None, false;
    }

    function Fds(): set<Fd>
      reads this
    {
      Opt(targetFd) + Opt(dirFd) + Opt(tmpFd)
    }

    function Names(): set<Name>
      reads this
    {
      Opt(tmpPath) + Opt(stagingPath)
    }
  }

  function Opt<T>(o: Option<T>): set<T> { if o.Some? then {o.value} else {} }

  /** What was open and locked before the call. */
  datatype Before = Before(open: map<Fd, Ino>, locks: set<Fd>)

  /** The handles account for every descriptor and lock the call holds. */
  ghost predicate HoldsFds(d: Disk, h: Handles, b: Before)
    reads d, h
  {
    && d.Valid()
    && b.locks <= b.open.Keys && h.Fds() !! b.open.Keys
    && d.open.Keys == b.open.Keys + h.Fds()
    && (forall f :: f in b.open ==> d.open[f] == b.open[f])
    && (h.targetFd.Some? ==> h.targetFd != h.dirFd && h.targetFd != h.tmpFd)
    && (h.dirFd.Some? ==> h.dirFd != h.tmpFd)
    && (h.flockHeld ==> h.targetFd.Some?)
    && d.locks == b.locks + (if h.flockHeld then Opt(h.targetFd) else {})
  }

  /** ... and for every name it created. */
  ghost predicate Holds(d: Disk, h: Handles, b: Before)
    reads d, h
  {
    HoldsFds(d, h, b) && d.own == h.Names() && (h.tmpPath.Some? ==> h.tmpPath.value.Tmp?)
  }

  /** The call has not touched the target since. */
  twostate predicate Held(d: Disk, h: Handles, b: Before)
    reads d, h
  {
    Holds(d, h, b) && d.Untouched()
  }

  method CloseOne(d: Disk, fd: Option<Fd>)
    requires d.Valid() && (fd.Some? ==> fd.value in d.open)
    modifies d
    ensures d.Valid() && d.Untouched() && d.own == old(d.own) && d.trace == old(d.trace)
    ensures d.open == old(d.open) - Opt(fd) && d.locks == old(d.locks) - Opt(fd)
  {
    if fd.Some? { var _ := d.Close(fd.value); }
  }

  /** Release the flock first, then close. */
  method CloseTarget(d: Disk, fd: Option<Fd>, flockHeld: bool)
    requires d.Valid() && (fd.Some? ==> fd.value in d.open)
    modifies d
    ensures d.Valid() && d.Untouched() && d.own == old(d.own) && d.trace == old(d.trace)
    ensures d.open == old(d.open) - Opt(fd) && d.locks == old(d.locks) - Opt(fd)
  {
    if fd.Some? && flockHeld { d.Unlock(fd.value); }
    CloseOne(d, fd);
  }

  lemma AllClosed(start: map<Fd, Ino>, locks: set<Fd>, b: Before, t: Option<Fd>, dir: Option<Fd>, tmp: Option<Fd>)
    requires start.Keys == b.open.Keys + (Opt(t) + Opt(dir) + Opt(tmp))
    requires Opt(t) + Opt(dir) + Opt(tmp) !! b.open.Keys && b.locks <= b.open.Keys
    requires forall f :: f in b.open ==> start[f] == b.open[f]
    requires b.locks <= locks <= b.locks + Opt(t)
    ensures start - Opt(tmp) - Opt(dir) - Opt(t) == b.open
    ensures locks - Opt(tmp) - Opt(dir) - Opt(t) == b.locks
  {
    assert (start - Opt(tmp) - Opt(dir) - Opt(t)).Keys == b.open.Keys;
  }

  /** `_close_fds`. */
  method CloseFds(d: Disk, h: Handles, ghost b: Before)
    requires HoldsFds(d, h, b)
    modifies d
    ensures d.Valid() && d.Untouched() && d.own == old(d.own) && d.trace == old(d.trace)
    ensures d.open == b.open && d.locks == b.locks
  {
    AllClosed(d.open, d.locks, b, h.targetFd, h.dirFd, h.tmpFd);
    CloseOne(d, h.tmpFd);
    CloseOne(d, h.dirFd);
    CloseTarget(d, h.targetFd, h.flockHeld);
  }

  /** The `except` clauses: unlink the temporary file under whichever name it has. */
  method DropNames(d: Disk, h: Handles, ghost b: Before)
    requires Holds(d, h, b)
    modifies d
    ensures d.Valid() && d.Untouched() && d.trace == old(d.trace)
    ensures HoldsFds(d, h, b)
    ensures d.own == {} || d.unlinkFails > old(d.unlinkFails)
  {
    if h.tmpPath.Some? { var _ := d.Unlink(h.tmpPath.value); }
    if h.stagingPath.Some? && h.stagingPath.value in d.own { var _ := d.Unlink(h.stagingPath.value); }
  }

  // ----- The gates before the first open(2) -------------------------------------------------------

  function KindRefusal(kind: Kind): Option<Reason> {
    match kind
    case Regular => None
    case Link => Some(Symlink)
    case Directory => Some(SpecialFile)
    case Special => Some(SpecialFile)
  }

  /** The gates on names alone. */
  function NameVerdict(r: Request, host: Host): Option<Reason> {
    if !host.platformOk then Some(Platform)
    else if !host.atomicFs then Some(Filesystem)
    else if r.name !in ALLOWED then Some(Basename)
    else if r.userName != r.name then Some(PathIdentity)
    else None
  }

  /** The target's name leads to inode `i`. */
  ghost predicate Shows(d: Disk, i: Ino)
    reads d
  {
    d.Shown().Some? && d.Shown().value.ino == i
  }

  /** The gates on the target's inode: no link, no special file, inside the repository, one name only. */
  method PreOpenGates(d: Disk, r: Request, host: Host) returns (s: Step<Stat>)
    requires d.Valid()
    modifies d
    ensures d.Quiet() && d.trace == old(d.trace)
    ensures NameVerdict(r, host).Some? ==> s == Stop(Refused(NameVerdict(r, host).value))
    ensures s.Go? ==> NameVerdict(r, host).None? && host.contained && s.value.kind == Regular && s.value.links <= 1
    ensures s.Go? && d.foreign == old(d.foreign) ==> Shows(d, s.value.ino)
    ensures s.Stop? ==> s.why.Refused?
  {
    if NameVerdict(r, host).Some? { return Stop(Refused(NameVerdict(r, host).value)); }
    var lst := d.Lstat(Target);
    if lst.Err? { return Stop(Refused(IoError)); }
    if KindRefusal(lst.value.kind).Some? { return Stop(Refused(KindRefusal(lst.value.kind).value)); }
    if !host.contained { return Stop(Refused(Containment)); }
    var user := d.StatFollow(host.userPath);
    if user.Err? || user.value.ino != lst.value.ino || lst.value.links > 1 { return Stop(Refused(PathIdentity)); }
    return Go(lst.value);
  }

  // ----- Open, lock, read -------------------------------------------------------------------------

  /** No handle is in use. */
  predicate Fresh(h: Handles)
    reads h
  {
    h.targetFd.None? && h.dirFd.None? && h.tmpFd.None? && h.tmpPath.None? && h.stagingPath.None? && !h.flockHeld
  }

  /** The target is open and locked; there is no temporary file yet. */
  predicate TargetLocked(h: Handles)
    reads h
  {
    h.targetFd.Some? && h.flockHeld && h.dirFd.None? && h.tmpFd.None? && h.tmpPath.None? && h.stagingPath.None?
  }

  method OpenTarget(d: Disk, h: Handles, ghost b: Before) returns (ok: bool)
    requires Holds(d, h, b) && Fresh(h)
    modifies d, h
    ensures Held(d, h, b) && h.dirFd.None? && h.tmpFd.None? && h.tmpPath.None? && h.stagingPath.None? && !h.flockHeld
    ensures ok == h.targetFd.Some? && d.trace == old(d.trace)
  {
    var fd := d.OpenName(Target);
    if fd.Err? { return false; }
    h.targetFd := Some(fd.value);
    return true;
  }

  /** `_fstat_baseline`. */
  method FstatBaseline(d: Disk, h: Handles, lst: Stat, ghost b: Before) returns (s: Step<Stat>)
    requires Holds(d, h, b) && h.targetFd.Some?
    modifies d
    ensures Held(d, h, b) && d.open == old(d.open)
    ensures s.Go? ==> d.trace == old(d.trace).(fstats := old(d.trace).fstats + [s.value])
    ensures s.Go? ==> s.value.kind == Regular && s.value.ino == lst.ino == d.open[h.targetFd.value]
    ensures s.Go? && d.foreign == old(d.foreign) && old(Shows(d, lst.ino))
            ==> s.value.size == |old(d.Shown()).value.file.bytes|
    ensures s.Stop? ==> s.why.Refused?
  {
    var st := d.Fstat(h.targetFd.value);
    if st.Err? { return Stop(Refused(IoError)); }
    if st.value.kind != Regular { return Stop(Refused(SpecialFile)); }
    if st.value.ino != lst.ino { return Stop(Refused(Toctou)); }
    return Go(st.value);
  }

  method TakeFlock(d: Disk, h: Handles, ghost b: Before) returns (e: Option<Reason>)
    requires Holds(d, h, b) && h.targetFd.Some? && !h.flockHeld
    modifies d, h`flockHeld
    ensures Held(d, h, b) && h.flockHeld == e.None? && d.open == old(d.open)
    ensures e.None? ==> d.trace == old(d.trace).(flocks := old(d.trace).flocks + [d.open[h.targetFd.value]])
  {
    var locked := d.Flock(h.targetFd.value);
    if locked.Err? { return Some(if locked.error == WouldBlock then Locked else IoError); }
    h.flockHeld := true;
    return None;
  }

  /** The inode that fstat(2) showed as `s` was locked. */
  function LockedNow(t: Trace, s: Stat): Trace { t.(flocks := t.flocks + [s.ino], fstats := t.fstats + [s]) }

  /** Open, compare with what lstat(2) saw, take the flock. */
  method OpenAndLock(d: Disk, h: Handles, lst: Stat, ghost b: Before) returns (s: Step<Stat>)
    requires Holds(d, h, b) && Fresh(h)
    modifies d, h
    ensures Held(d, h, b) && h.dirFd.None? && h.tmpFd.None? && h.tmpPath.None? && h.stagingPath.None?
    ensures s.Go? ==> TargetLocked(h) && s.value.kind == Regular && s.value.ino == lst.ino == d.open[h.targetFd.value]
    ensures s.Go? ==> d.trace == LockedNow(old(d.trace), s.value)
    ensures s.Go? && d.foreign == old(d.foreign) && old(Shows(d, lst.ino))
            ==> s.value.size == |old(d.Shown()).value.file.bytes|
    ensures s.Stop? ==> s.why.Refused?
  {
    var ok := OpenTarget(d, h, b);
    if !ok { return Stop(Refused(IoError)); }
    s := FstatBaseline(d, h, lst, b);
    if s.Go? {
      var refusal := TakeFlock(d, h, b);
      if refusal.Some? { return Stop(Refused(refusal.value)); }
    }
  }

  /** As much of the file as `size` says. */
  function Front(bytes: Bytes, size: nat): Bytes { if size < |bytes| then bytes[..size] else bytes }

  /** `_read_existing`: read until `size` bytes are there or the file ends. */
  method ReadExisting(d: Disk, fd: Fd, size: nat) returns (r: Result<Bytes, Errno>)
    requires d.Valid() && fd in d.open
    modifies d
    ensures d.Quiet()
    ensures r.Ok? ==> d.trace == old(d.trace).(got := old(d.trace).got + r.value)
    ensures r.Ok? && d.foreign == old(d.foreign) && old(d.Shown()).Some? && old(d.Shown()).value.ino == old(d.open)[fd]
            ==> r.value == Front(old(d.Shown()).value.file.bytes, size)
  {
    var buf := "";
    var sought := d.Sync(fd);  // lseek(2)
    if !sought { return Err(OtherError); }
    ghost var v := old(d.Shown());
    while |buf| < size
      invariant d.Quiet() && |buf| <= size && d.trace == old(d.trace).(got := old(d.trace).got + buf)
      invariant d.foreign == old(d.foreign) && v.Some? && v.value.ino == old(d.open)[fd]
                ==> buf <= v.value.file.bytes
      decreases size - |buf|
    {
      var chunk := d.Read(fd, |buf|, size - |buf|);
      if chunk.Err? { return chunk; }
      if chunk.value == "" { return Ok(buf); }
      assert old(d.trace).got + (buf + chunk.value) == (old(d.trace).got + buf) + chunk.value;
      buf := buf + chunk.value;
    }
    return Ok(buf);
  }

  // ----- The temporary file ------------------------------------------------------------------------

  method TryTmp(d: Disk, h: Handles, ghost b: Before) returns (r: Result<(), Errno>)
    requires Holds(d, h, b) && h.tmpFd.None? && h.tmpPath.None? && h.stagingPath.None?
    modifies d, h`tmpFd, h`tmpPath
    ensures Held(d, h, b) && d.trace == old(d.trace)
    ensures r.Ok? ==> TmpReady(d, h, "") && h.tmpFd.Some? && d.open[h.tmpFd.value] == d.entry[h.tmpPath.value]
    ensures r.Err? ==> h.tmpFd.None? && h.tmpPath.None?
  {
    var token: nat := *;
    var created := d.Create(Tmp(token));
    if created.Err? { return Err(created.error); }
    assert created.value !in h.Fds();
    h.tmpFd, h.tmpPath := Some(created.value), Some(Tmp(token));
    return Ok(());
  }

  /** The temporary file holds exactly `content`. */
  ghost predicate TmpReady(d: Disk, h: Handles, content: Bytes)
    reads d, h
  {
    && h.tmpPath.Some? && h.tmpPath.value in d.entry && d.entry[h.tmpPath.value] in d.files
    && d.files[d.entry[h.tmpPath.value]] == File(Regular, content, 384)
  }

  /** `_create_tmp_excl`: up to three random names. */
  method CreateTmp(d: Disk, h: Handles, ghost b: Before) returns (e: Option<Reason>)
    requires Holds(d, h, b) && h.tmpFd.None? && h.tmpPath.None? && h.stagingPath.None?
    modifies d, h`tmpFd, h`tmpPath
    ensures Held(d, h, b) && d.trace == old(d.trace)
    ensures e.None? ==> TmpReady(d, h, "") && h.tmpFd.Some? && d.open[h.tmpFd.value] == d.entry[h.tmpPath.value]
    ensures e.Some? ==> h.tmpFd.None? && h.tmpPath.None?
  {
    var attempt := 0;
    while attempt < 3
      invariant Held(d, h, b) && d.trace == old(d.trace) && h.tmpFd.None? && h.tmpPath.None?
    {
      var created := TryTmp(d, h, b);
      if created.Ok? { return None; }
      if created.error != Exists { return Some(IoError); }
      attempt := attempt + 1;
    }
    return Some(TmpCollision);
  }

  /** `_write_all`: write until nothing is left; a write of nothing is an error. */
  method WriteAll(d: Disk, n: Name, fd: Fd, content: Bytes) returns (ok: bool)
    requires d.Valid() && n in d.own && fd in d.open && d.open[fd] == d.entry[n] && d.files[d.entry[n]].bytes == ""
    modifies d
    ensures d.Valid() && d.Untouched() && d.own == old(d.own) && d.open == old(d.open) && d.locks == old(d.locks)
    ensures d.entry[n] == old(d.entry[n]) && d.trace == old(d.trace)
    ensures ok ==> d.files[d.entry[n]] == old(d.files[d.entry[n]]).(bytes := content)
  {
    var offset := 0;
    while offset < |content|
      invariant d.Valid() && d.Untouched() && d.own == old(d.own) && d.open == old(d.open) && d.locks == old(d.locks)
      invariant offset <= |content| && d.entry[n] == old(d.entry[n]) && d.trace == old(d.trace)
      invariant d.files[d.entry[n]] == old(d.files[d.entry[n]]).(bytes := content[..offset])
      decreases |content| - offset
    {
      var written := d.Write(n, fd, content[offset..]);
      if written.Err? || written.value == 0 { return false; }
      assert content[..offset] + content[offset..][..written.value] == content[..offset + written.value];
      offset := offset + written.value;
    }
    assert content[..|content|] == content;
    return true;
  }

  /** The parent directory, opened for fsync(2). */
  const PARENT := Other(0)

  method OpenDir(d: Disk, h: Handles, ghost b: Before) returns (ok: bool)
    requires Holds(d, h, b) && TargetLocked(h)
    modifies d, h`dirFd
    ensures Held(d, h, b) && ok == h.dirFd.Some? && d.trace == old(d.trace)
  {
    var fd := d.OpenName(PARENT);
    if fd.Err? { return false; }
    h.dirFd := Some(fd.value);
    return true;
  }

  method FillTmp(d: Disk, h: Handles, content: Bytes, ghost b: Before) returns (ok: bool)
    requires Holds(d, h, b) && TmpReady(d, h, "") && h.tmpFd.Some? && d.open[h.tmpFd.value] == d.entry[h.tmpPath.value]
    modifies d
    ensures Held(d, h, b) && (ok ==> TmpReady(d, h, content)) && d.trace == old(d.trace)
  {
    ok := WriteAll(d, h.tmpPath.value, h.tmpFd.value, content);
  }

  /** fsync(2) on one of the call's descriptors. */
  method SyncFd(d: Disk, h: Handles, fd: Fd, ghost content: Bytes, ghost b: Before) returns (ok: bool)
    requires Holds(d, h, b) && TmpReady(d, h, content) && fd in h.Fds()
    modifies d
    ensures Held(d, h, b) && TmpReady(d, h, content) && d.trace == old(d.trace)
  {
    ok := d.Sync(fd);
  }

  method CloseTmp(d: Disk, h: Handles, ghost content: Bytes, ghost b: Before) returns (ok: bool)
    requires Holds(d, h, b) && TmpReady(d, h, content) && h.tmpFd.Some?
    modifies d, h`tmpFd
    ensures Held(d, h, b) && TmpReady(d, h, content) && h.tmpFd.None? && d.trace == old(d.trace)
  {
    ok := d.Close(h.tmpFd.value);
    h.tmpFd := None;
    assert h.Fds() == old(h.Fds() - Opt(h.tmpFd));
  }

  /** The new content goes, durably, into a file of its own next to the target. */
  method WriteTemp(d: Disk, h: Handles, content: Bytes, ghost b: Before) returns (why: Option<Outcome>)
    requires Holds(d, h, b) && TargetLocked(h)
    modifies d, h`dirFd, h`tmpFd, h`tmpPath
    ensures Held(d, h, b) && d.trace == old(d.trace)
    ensures why.None? ==> TmpReady(d, h, content) && h.tmpFd.None? && h.dirFd.Some?
    ensures why != Some(Done)
  {
    var ok := OpenDir(d, h, b);
    if !ok { return Some(Refused(IoError)); }
    var refusal := CreateTmp(d, h, b);
    if refusal.Some? { return Some(Refused(refusal.value)); }
    ok := FillTmp(d, h, content, b);
    if !ok { return Some(Refused(IoError)); }
    ok := SyncFd(d, h, h.tmpFd.value, content, b);
    if !ok { return Some(Refused(IoError)); }
    var _ := SyncFd(d, h, h.tmpFd.value, content, b);  // fchmod(2), best effort
    ok := CloseTmp(d, h, content, b);
    if !ok { return Some(Raised); }
    ok := SyncFd(d, h, h.dirFd.value, content, b);
    if !ok { return Some(Refused(IoError)); }
    return None;
  }

  // ----- The commit --------------------------------------------------------------------------------

  method Hook(d: Disk, h: Handles, ghost content: Bytes, ghost b: Before) returns (ok: bool)
    requires Holds(d, h, b) && TmpReady(d, h, content)
    modifies d
    ensures Held(d, h, b) && TmpReady(d, h, content)
    ensures d.trace == old(d.trace).(hooks := old(d.trace).hooks + [d.foreign])
  {
    ok := d.RunHook();
  }

  /** A file with that inode and, if asked for, mode; or a link (which stat(2) cannot tell from it). */
  predicate Same(v: Option<View>, s: Stat, withMode: bool) {
    && v.Some?
    && (v.value.file.kind == Link
        || (v.value.ino == s.ino && (withMode ==> v.value.file.kind == Regular && v.value.file.mode == s.mode)))
  }

  /** `_recheck_target`: the name still leads to the inode that was opened and locked. */
  method Recheck(d: Disk, h: Handles, baseline: Stat, withMode: bool, ghost content: Bytes, ghost b: Before) returns (ok: bool)
    requires Holds(d, h, b)
    modifies d
    ensures Held(d, h, b) && d.own == old(d.own)
    ensures old(TmpReady(d, h, content)) ==> TmpReady(d, h, content)
    ensures old(Staged(d, h, content)) ==> Staged(d, h, content)
    ensures d.unsupported == old(d.unsupported) && d.trace == old(d.trace)
    ensures ok ==> Same(d.Shown(), baseline, withMode)
  {
    var st := d.StatFollow(Target);
    ok := st.Ok? && st.value.ino == baseline.ino
          && (withMode ==> st.value.kind == Regular && st.value.mode == baseline.mode);
  }

  /** The complete new content, under its second name. */
  ghost predicate Staged(d: Disk, h: Handles, content: Bytes)
    reads d, h
  {
    && h.tmpPath.None? && h.stagingPath.Some?
    && h.stagingPath.value in d.entry && d.entry[h.stagingPath.value] in d.files
    && d.files[d.entry[h.stagingPath.value]] == File(Regular, content, 384)
  }

  method Stage(d: Disk, h: Handles, ghost content: Bytes, ghost b: Before) returns (ok: bool)
    requires Holds(d, h, b) && TmpReady(d, h, content) && h.stagingPath.None?
    modifies d, h`tmpPath, h`stagingPath
    ensures Held(d, h, b) && (ok ==> Staged(d, h, content)) && d.trace == old(d.trace)
  {
    var token: nat := *;
    ok := d.RenameOwn(h.tmpPath.value, Staging(token));
    if ok { h.tmpPath, h.stagingPath := None, Some(Staging(token)); }
  }

  /**
   * The target has become the complete new content, through this call, in one step. What it replaced is
   * what was there at the beginning, unless others acted before that step; what it shows now is the new
   * content, unless they acted since.
   */
  twostate predicate Committed(d: Disk, content: Bytes)
    reads d
  {
    && |d.mine| == |old(d.mine)| + 1 && old(d.mine) <= d.mine
    && var c := d.mine[|old(d.mine)|];
       && c.shows.file == File(Regular, content, 384)
       && old(d.foreign) <= c.at <= d.foreign
       && (c.at == old(d.foreign) ==> c.replaced == old(d.Shown()))
       && (c.at == d.foreign ==> d.Shown() == Some(c.shows))
  }

  /** Rename `k` came at or after moment `since`, and if nobody acted in between it replaced the file `s`. */
  ghost predicate Noticed(d: Disk, k: nat, since: nat, s: Stat, withMode: bool)
    reads d
  {
    k < |d.mine| && d.mine[k].at >= since && (d.mine[k].at == since ==> Same(d.mine[k].replaced, s, withMode))
  }

  method RenameOver(d: Disk, h: Handles, ghost content: Bytes, ghost b: Before) returns (r: Result<(), Errno>)
    requires Holds(d, h, b) && Staged(d, h, content)
    modifies d, h`stagingPath
    ensures Holds(d, h, b) && d.trace == old(d.trace)
    ensures r.Ok? ==> Committed(d, content) && h.stagingPath.None? && h.tmpPath.None?
    ensures r.Err? ==> Held(d, h, b) && Staged(d, h, content)
    ensures d.unsupported == if r == Err(Unsupported) then old(d.unsupported) + [d.foreign] else old(d.unsupported)
  {
    r := d.Replace(h.stagingPath.value);
    if r.Ok? { h.stagingPath := None; }
  }

  /**
   * `_atomic_replace_with_fallback`. If the rename is first refused as unsupported, the target is compared
   * again before the second try.
   */
  method AtomicReplace(d: Disk, h: Handles, baseline: Stat, ghost content: Bytes, ghost b: Before) returns (e: Option<Reason>)
    requires Holds(d, h, b) && Staged(d, h, content)
    modifies d, h`stagingPath
    ensures Holds(d, h, b) && d.trace == old(d.trace)
    ensures e.None? ==> Committed(d, content) && h.stagingPath.None? && h.tmpPath.None?
    ensures e.None? && d.unsupported != old(d.unsupported)
            ==> |d.unsupported| == |old(d.unsupported)| + 1
                && Noticed(d, |old(d.mine)|, d.unsupported[|old(d.unsupported)|], baseline, false)
    ensures e.Some? ==> Held(d, h, b)
  {
    var r := RenameOver(d, h, content, b);
    if r.Ok? { return None; }
    if r.error != Unsupported { return Some(IoError); }
    var same := Recheck(d, h, baseline, false, content, b);
    if !same { return Some(Toctou); }
    r := RenameOver(d, h, content, b);
    return if r.Ok? then None else Some(IoError);
  }

  /** The last fsync(2) of the directory: a failure is logged, for the rename has happened. */
  method FinalSync(d: Disk, h: Handles, ghost b: Before)
    requires Holds(d, h, b) && h.dirFd.Some?
    modifies d
    ensures Held(d, h, b) && d.trace == old(d.trace)
  {
    var _ := d.Sync(h.dirFd.value);
  }

  method StageAndReplace(d: Disk, h: Handles, baseline: Stat, ghost content: Bytes, ghost b: Before) returns (o: Outcome)
    requires Holds(d, h, b) && TmpReady(d, h, content) && h.stagingPath.None? && h.dirFd.Some?
    modifies d, h`tmpPath, h`stagingPath
    ensures Holds(d, h, b) && d.trace == old(d.trace)
    ensures o.Done? ==> Committed(d, content) && h.stagingPath.None? && h.tmpPath.None?
    ensures !o.Done? ==> Held(d, h, b)
  {
    var ok := Stage(d, h, content, b);
    if !ok { return Refused(IoError); }
    var refusal := AtomicReplace(d, h, baseline, content, b);
    return if refusal.Some? then Refused(refusal.value) else Done;
  }

  /**
   * Hook, recheck, stage, rename. Whatever changed the target up to the end of the hook is noticed: unless
   * others act between then and the rename, what is replaced is the inode that was opened and locked.
   */
  method Commit(d: Disk, h: Handles, baseline: Stat, ghost content: Bytes, ghost b: Before)
    returns (o: Outcome, ghost hookEnd: nat)
    requires Holds(d, h, b) && TmpReady(d, h, content) && h.stagingPath.None? && h.dirFd.Some?
    modifies d, h`tmpPath, h`stagingPath
    ensures Holds(d, h, b)
    ensures o.Done? ==> Committed(d, content) && h.stagingPath.None? && h.tmpPath.None?
    ensures d.trace == old(d.trace).(hooks := old(d.trace).hooks + [hookEnd])
    ensures o.Done? ==> Noticed(d, |old(d.mine)|, hookEnd, baseline, true) && old(d.foreign) <= hookEnd
    ensures !o.Done? ==> Held(d, h, b)
  {
    var ok := Hook(d, h, content, b);
    hookEnd := d.foreign;
    if !ok { return Raised, hookEnd; }
    ok := Recheck(d, h, baseline, true, content, b);
    if !ok { return Refused(Toctou), hookEnd; }
    o := StageAndReplace(d, h, baseline, content, b);
    if o.Done? { FinalSync(d, h, b); }
  }

  // ----- The whole call ----------------------------------------------------------------------------

  /** The content gates, on what is read under the flock. */
  method ContentGates(d: Disk, h: Handles, baseline: Stat, r: Request, sniff: Bytes -> bool, ghost b: Before)
    returns (why: Option<Outcome>, ghost seen: Bytes)
    requires Holds(d, h, b) && TargetLocked(h)
    modifies d
    ensures Held(d, h, b)
    ensures why.None? ==> Verdict(seen, baseline.size, r, sniff).None?
                          && d.trace == old(d.trace).(got := old(d.trace).got + seen)
    ensures why.Some? ==> why.value == Refused(IoError)
                          || (Verdict(seen, baseline.size, r, sniff).Some?
                              && why.value == Refused(Verdict(seen, baseline.size, r, sniff).value))
    ensures why.None? && d.foreign == old(d.foreign) && old(Shows(d, d.open[h.targetFd.value]))
            ==> seen == Front(old(d.Shown()).value.file.bytes, baseline.size)
  {
    seen := "";
    if baseline.size > MAX_BYTES { return Some(Refused(Size)), seen; }
    var existing := ReadExisting(d, h.targetFd.value, baseline.size);
    if existing.Err? { return Some(Refused(IoError)), seen; }
    var verdict := Verdict(existing.value, baseline.size, r, sniff);
    seen := existing.value;
    why := if verdict.Some? then Some(Refused(verdict.value)) else None;
  }

  /**
   * The history of a call that succeeded: it locked the inode fstat(2) showed, read this from it, and the hook
   * ended at this moment.
   */
  function Went(t: Trace, locked: Stat, seen: Bytes, hookEnd: nat): Trace {
    Trace(t.flocks + [locked.ino], t.fstats + [locked], t.hooks + [hookEnd], t.got + seen)
  }

  /** The `try` block. */
  method Attempt(d: Disk, h: Handles, lst: Stat, r: Request, sniff: Bytes -> bool, ghost b: Before)
    returns (o: Outcome, ghost locked: Stat, ghost seen: Bytes, ghost hookEnd: nat)
    requires Holds(d, h, b) && Fresh(h)
    modifies d, h
    ensures Holds(d, h, b)
    ensures o.Done? ==> d.trace == Went(old(d.trace), locked, seen, hookEnd) && locked.ino == lst.ino
    ensures o.Done? ==> Committed(d, r.content) && h.stagingPath.None? && h.tmpPath.None?
    ensures o.Done? ==> Verdict(seen, locked.size, r, sniff).None?
    ensures o.Done? && d.foreign == old(d.foreign) && old(Shows(d, lst.ino))
            ==> seen == old(d.Shown()).value.file.bytes && locked.size == |seen|
    ensures o.Done? ==> Noticed(d, |old(d.mine)|, hookEnd, locked, true) && old(d.foreign) <= hookEnd
    ensures !o.Done? ==> Held(d, h, b)
  {
    locked, seen, hookEnd := lst, "", 0;
    var baseline := OpenAndLock(d, h, lst, b);
    if baseline.Stop? { return baseline.why, locked, seen, hookEnd; }
    locked := baseline.value;
    var why: Option<Outcome>;
    why, seen := ContentGates(d, h, baseline.value, r, sniff, b);
    if why.Some? { return why.value, locked, seen, hookEnd; }
    why := WriteTemp(d, h, r.content, b);
    if why.Some? { return why.value, locked, seen, hookEnd; }
    o, hookEnd := Commit(d, h, baseline.value, r.content, b);
  }

  /** `try`, `except`, `finally`. */
  method TryAndClean(d: Disk, lst: Stat, r: Request, sniff: Bytes -> bool)
    returns (o: Outcome, ghost locked: Stat, ghost seen: Bytes, ghost hookEnd: nat)
    requires d.Valid() && d.own == {}
    modifies d
    ensures d.Valid() && d.open == old(d.open) && d.locks == old(d.locks)
    ensures o.Done? ==> d.trace == Went(old(d.trace), locked, seen, hookEnd) && locked.ino == lst.ino
    ensures o.Done? ==> Committed(d, r.content) && d.own == {}
    ensures o.Done? ==> Noticed(d, |old(d.mine)|, hookEnd, locked, true) && old(d.foreign) <= hookEnd
    ensures !o.Done? ==> d.Untouched() && (d.own == {} || d.unlinkFails > old(d.unlinkFails))
    ensures o.Done? ==> Verdict(seen, locked.size, r, sniff).None?
    ensures o.Done? && d.foreign == old(d.foreign) && old(Shows(d, lst.ino))
            ==> seen == old(d.Shown()).value.file.bytes && locked.size == |seen|
  {
    var h := new Handles();
    ghost var b := Before(d.open, d.locks);
    o, locked, seen, hookEnd := Attempt(d, h, lst, r, sniff, b);
    if !o.Done? { DropNames(d, h, b); }
    CloseFds(d, h, b);
  }

  /**
   * `_safe_rewrite_core`. Whatever fails, and whatever others do meanwhile: this call makes the target
   * show nothing but the complete new content, once, and only if it reports success; after any refusal
   * the target shows what it showed, unless others changed it. What it replaces is the inode it locked and
   * read, unless others acted after the hook had ended. No descriptor, no flock and, unless unlink failed, no
   * name is left behind.
   */
  method SafeRewriteCore(d: Disk, r: Request, host: Host, sniff: Bytes -> bool)
    returns (o: Outcome, ghost locked: Stat, ghost seen: Bytes, ghost hookEnd: nat)
    requires d.Valid() && d.own == {}
    modifies d
    ensures d.Valid() && d.open == old(d.open) && d.locks == old(d.locks)
    ensures o.Done? ==> d.trace == Went(old(d.trace), locked, seen, hookEnd)
    ensures o.Done? ==> Committed(d, r.content) && d.own == {}
    ensures o.Done? ==> Noticed(d, |old(d.mine)|, hookEnd, locked, true) && old(d.foreign) <= hookEnd
    ensures !o.Done? ==> d.Untouched() && (d.own == {} || d.unlinkFails > old(d.unlinkFails))
    ensures o.Done? ==> NameVerdict(r, host).None? && host.contained && Verdict(seen, locked.size, r, sniff).None?
    ensures o.Done? && d.foreign == old(d.foreign) && old(d.Shown()).Some?
            ==> seen == old(d.Shown()).value.file.bytes && locked.size == |seen|
    ensures NameVerdict(r, host).Some? ==> o == Refused(NameVerdict(r, host).value)
  {
    locked, seen, hookEnd := Stat(0, Regular, 0, 0, 0), "", 0;
    var lst := PreOpenGates(d, r, host);
    if lst.Stop? { return lst.why, locked, seen, hookEnd; }
    o, locked, seen, hookEnd := TryAndClean(d, lst.value, r, sniff);
  }
}
