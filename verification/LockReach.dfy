/**
 * The bad states that the exactness results of LockProtocol speak of are reached: runs from a fresh home
 * that end with two owners of the lock, and with two minted keys.
 */
module LockReach {
  import opened Common
  import opened Keystore
  import opened LockProtocol
  import opened LockFile

  ghost predicate Reached(s: State, z: State) { exists ls :: z == Run(s, ls) }

  lemma {:induction false} RunJoin(s: State, a: seq<Label>, b: seq<Label>)
    ensures Run(s, a + b) == Run(Run(s, a), b)
    decreases |a|
  {
    if a == [] {
      assert a + b == b;
    } else {
      assert (a + b)[1..] == a[1..] + b;
      RunJoin(Apply(s, a[0]), a[1..], b);
    }
  }

  lemma ReachedMore(s: State, m: State, ls: seq<Label>)
    requires Reached(s, m)
    ensures Reached(s, Run(m, ls))
  {
    var first :| m == Run(s, first);
    RunJoin(s, first, ls);
  }

  lemma ReachedAlone(s: State, m: State, p: Pid, acts: seq<Act>)
    requires Reached(s, m)
    ensures Reached(s, Alone(m, p, acts))
  {
    AloneIsRun(m, p, acts);
    ReachedMore(s, m, seq(|acts|, i requires 0 <= i < |acts| => By(p, acts[i])));
  }

  lemma ReachedOne(s: State, m: State, l: Label)
    requires Reached(s, m)
    ensures Reached(s, Apply(m, l))
  {
    ReachedMore(s, m, [l]);
    assert Run(m, [l]) == Run(Apply(m, l), [l][1..]);
  }

  lemma ReachedSelf(s: State)
    ensures Reached(s, s)
  {
    assert s == Run(s, []);
  }

  predicate NoAgeTest(acts: seq<Act>) { forall a :: a in acts ==> !a.AgeTest? }

  lemma {:induction false} AloneKeepsInv(s: State, p: Pid, acts: seq<Act>)
    requires Inv(s) && NoAgeTest(acts)
    ensures Inv(Alone(s, p, acts))
    decreases |acts|
  {
    if acts != [] {
      assert acts[0] in acts && forall a :: a in acts[1..] ==> a in acts;
      StepKeepsInv(s, By(p, acts[0]));
      AloneKeepsInv(Apply(s, By(p, acts[0])), p, acts[1..]);
    }
  }

  predicate TruthfulProbes(acts: seq<Act>) { forall a :: a in acts && a.ProbeKey? ==> !a.faults.ringRaises }

  lemma {:induction false} AloneKeepsMintInv(s: State, p: Pid, acts: seq<Act>)
    requires Inv(s) && MintInv(s) && NoAgeTest(acts) && TruthfulProbes(acts)
    ensures MintInv(Alone(s, p, acts))
    decreases |acts|
  {
    if acts != [] {
      assert acts[0] in acts && forall a :: a in acts[1..] ==> a in acts;
      StepKeepsInv(s, By(p, acts[0]));
      StepKeepsMintInv(s, By(p, acts[0]));
      AloneKeepsMintInv(Apply(s, By(p, acts[0])), p, acts[1..]);
    }
  }

  // ----- Two owners ---------------------------------------------------------------------------------

  /** A command that creates the file and cannot get its flock. */
  function Unflocked(s: State, q: Pid, i: Ino): State {
    Alone(Alone(s, q, [UpdateCommand, OpenLock]), q, Entering(i, false, 0))
  }

  lemma FindsNothing(s: State, q: Pid, i: Ino)
    requires Init(s) && s.path.None?
    ensures var z := Alone(s, q, [UpdateCommand, OpenLock]);
            && PcOf(z, q) == Ready && z.path.None? && z.now == s.now && !InUse(z, i)
            && forall p :: p != q ==> PcOf(z, p) == Idle
  {
    AloneTwo(s, q, UpdateCommand, OpenLock);
    var a := Apply(s, By(q, UpdateCommand));
    assert PcOf(a, q) == Acquiring && a.path.None? && a.now == s.now;
  }

  lemma UnflockedOwns(s: State, q: Pid, i: Ino)
    requires Init(s) && s.path.None?
    ensures var z := Unflocked(s, q, i);
            && z.path == Some(i) && i in z.inodes && z.inodes[i] == Inode("", s.now, None) && z.now == s.now
            && PcOf(z, q) == Critical(i, false, Entered) && forall p :: p != q ==> PcOf(z, p) == Idle
  {
    FindsNothing(s, q, i);
    var b := Alone(s, q, [UpdateCommand, OpenLock]);
    EnterUnflocked(b, q, i, 0);
    AcquiringMovesLittle(b, q, Entering(i, false, 0));
  }

  /** Another command finds the file, takes its flock, and reads no stamp. */
  function Judging(s: State, r: Pid): State { Alone(Alone(s, r, [UpdateCommand, OpenLock]), r, [FlockProbe, ReadStamp]) }

  lemma FindsTheFile(s: State, r: Pid, i: Ino)
    requires PcOf(s, r) == Idle && s.path == Some(i)
    ensures var z := Alone(s, r, [UpdateCommand, OpenLock]);
            && PcOf(z, r) == Opened(i) && z.inodes == s.inodes && z.now == s.now && z.host == s.host
            && forall p :: p != r ==> PcOf(z, p) == PcOf(s, p)
  {
    AloneTwo(s, r, UpdateCommand, OpenLock);
    assert PcOf(Apply(s, By(r, UpdateCommand)), r) == Acquiring;
  }

  lemma ReadsNoStamp(s: State, r: Pid, i: Ino)
    requires PcOf(s, r) == Opened(i) && i in s.inodes && s.inodes[i].content == "" && s.inodes[i].flock.None?
    ensures var z := Alone(s, r, [FlockProbe, ReadStamp]);
            && PcOf(z, r) == Aging(i) && i in z.inodes && z.inodes[i].mtime == s.inodes[i].mtime && z.now == s.now
            && forall p :: p != r ==> PcOf(z, p) == PcOf(s, p)
  {
    AloneTwo(s, r, FlockProbe, ReadStamp);
    var c := Apply(s, By(r, FlockProbe));
    assert c == Goto(SetFlock(s, i, Some(r)), r, ReadingStamp(i));
    EmptyIsUnstamped(s.host);
  }

  lemma JudgingAges(s: State, r: Pid, i: Ino)
    requires PcOf(s, r) == Idle && s.path == Some(i) && i in s.inodes && s.inodes[i].content == "" && s.inodes[i].flock.None?
    ensures var z := Judging(s, r);
            && PcOf(z, r) == Aging(i) && i in z.inodes && z.inodes[i].mtime == s.inodes[i].mtime && z.now == s.now
            && forall p :: p != r ==> PcOf(z, p) == PcOf(s, p)
  {
    FindsTheFile(s, r, i);
    ReadsNoStamp(Alone(s, r, [UpdateCommand, OpenLock]), r, i);
  }

  lemma TimePasses(s: State, d: nat)
    ensures var z := Apply(s, Tick(d));
            z.path == s.path && z.inodes == s.inodes && z.now == s.now + d && forall p :: PcOf(z, p) == PcOf(s, p)
  {
  }

  function SlowHolderJudged(s: State, q: Pid, r: Pid, i: Ino): State { Judging(Apply(Unflocked(s, q, i), Tick(301)), r) }

  lemma SlowHolderInv(s: State, q: Pid, r: Pid, i: Ino)
    requires Inv(s)
    ensures Inv(SlowHolderJudged(s, q, r, i))
  {
    var held := Unflocked(s, q, i);
    var later := Apply(held, Tick(301));
    AloneKeepsInv(s, q, [UpdateCommand, OpenLock]);
    AloneKeepsInv(Alone(s, q, [UpdateCommand, OpenLock]), q, Entering(i, false, 0));
    StepKeepsInv(held, Tick(301));
    AloneKeepsInv(later, r, [UpdateCommand, OpenLock]);
    AloneKeepsInv(Alone(later, r, [UpdateCommand, OpenLock]), r, [FlockProbe, ReadStamp]);
  }

  lemma SlowHolderState(s: State, q: Pid, r: Pid, i: Ino)
    requires Init(s) && s.path.None? && q != r
    ensures var z := SlowHolderJudged(s, q, r, i);
            && PcOf(z, q) == Critical(i, false, Entered) && PcOf(z, r) == Aging(i)
            && i in z.inodes && z.now - z.inodes[i].mtime == 301
            && forall p :: p != q && p != r ==> PcOf(z, p) == Idle
  {
    UnflockedOwns(s, q, i);
    var held := Unflocked(s, q, i);
    var later := Apply(held, Tick(301));
    TimePasses(held, 301);
    JudgingAges(later, r, i);
  }

  lemma SlowHolderCondemned(z: State, q: Pid, r: Pid, i: Ino, j: Ino)
    requires Inv(z) && PcOf(z, q) == Critical(i, false, Entered) && PcOf(z, r) == Aging(i) && i != j && q != r
    requires i in z.inodes && z.now - z.inodes[i].mtime == 301
    requires forall p :: p != q && p != r ==> PcOf(z, p) == Idle
    ensures CondemnsLiveFile(z, By(r, AgeTest)) && !InUse(z, j)
  {
    assert UnflockedOwner(z, q) && Fd(PcOf(z, q)) == Fd(PcOf(z, r));
    assert ProcInv(z, q, PcOf(z, q));
  }

  /**
   * From a fresh home: a command that could not get its flock works for more than 300 s, and another one
   * comes to the age test; from there on there are two owners.
   */
  lemma TwoHoldersAreReached(s: State, q: Pid, r: Pid, i: Ino, j: Ino)
    requires Init(s) && s.path.None? && q != r && i != j
    ensures exists z :: Reached(s, z) && !MutualExclusion(z)
  {
    var z := SlowHolderJudged(s, q, r, i);
    InitInv(s);
    SlowHolderInv(s, q, r, i);
    SlowHolderState(s, q, r, i);
    SlowHolderCondemned(z, q, r, i, j);
    ExactlyWhenTwoHolders(z, r, j);
    TakeOverIsReached(s, q, r, i, j);
  }

  lemma TakeOverIsReached(s: State, q: Pid, r: Pid, i: Ino, j: Ino)
    ensures Reached(s, TakeOver(SlowHolderJudged(s, q, r, i), r, j))
  {
    ReachedSelf(s);
    ReachedAlone(s, s, q, [UpdateCommand, OpenLock]);
    ReachedAlone(s, Alone(s, q, [UpdateCommand, OpenLock]), q, Entering(i, false, 0));
    ReachedOne(s, Unflocked(s, q, i), Tick(301));
    var later := Apply(Unflocked(s, q, i), Tick(301));
    ReachedAlone(s, later, r, [UpdateCommand, OpenLock]);
    ReachedAlone(s, Alone(later, r, [UpdateCommand, OpenLock]), r, [FlockProbe, ReadStamp]);
    var z := Judging(later, r);
    ReachedOne(s, z, By(r, AgeTest));
    ReachedOne(s, Apply(z, By(r, AgeTest)), By(r, StatPath));
    ReachedOne(s, Apply(Apply(z, By(r, AgeTest)), By(r, StatPath)), By(r, UnlinkStale));
    ReachedOne(s, Apply(Apply(Apply(z, By(r, AgeTest)), By(r, StatPath)), By(r, UnlinkStale)), By(r, CloseCheck));
    ReachedOne(s, Reclaimed(z, r), By(r, Create(j)));
  }

  // ----- Two mints ----------------------------------------------------------------------------------

  /** A first run, up to its probe of the key store. */
  function FirstRunProbing(s: State, p: Pid, i: Ino): State {
    Alone(Alone(FirstRunReady(s, p), p, Entering(i, true, 1000)), p, [CheckRows])
  }

  function FirstRunReady(s: State, p: Pid): State { Alone(Alone(s, p, [EnsureHome, ReadMarker]), p, [OpenLock]) }

  /** A home without marker and enrollments, and nobody in the way. */
  ghost predicate Quiet(s: State, p: Pid) {
    s.path.None? && !s.marker && s.rows == 0 && PcOf(s, p) == Idle && forall q :: Fd(PcOf(s, q)).None?
  }

  /** The same but for where process `p` is, and for the lock file. */
  ghost predicate SameBut(s: State, z: State, p: Pid) {
    && z.store == s.store && z.rows == s.rows && z.marker == s.marker && z.minted == s.minted
    && forall q :: q != p ==> PcOf(z, q) == PcOf(s, q)
  }

  lemma FirstRunIsReady(s: State, p: Pid, i: Ino)
    requires Quiet(s, p)
    ensures var z := FirstRunReady(s, p);
            ProcOf(z, p) == Proc(Ready, FirstRun) && z.path.None? && !InUse(z, i) && SameBut(s, z, p)
  {
    AloneTwo(s, p, EnsureHome, ReadMarker);
    var a := Apply(Apply(s, By(p, EnsureHome)), By(p, ReadMarker));
    assert ProcOf(a, p) == Proc(Acquiring, FirstRun) && a.path.None?;
    assert Alone(a, p, [OpenLock]) == Alone(Apply(a, By(p, OpenLock)), p, [OpenLock][1..]);
    var b := FirstRunReady(s, p);
    assert forall q :: q != p ==> PcOf(b, q) == PcOf(s, q);
  }

  lemma FirstRunProbes(s: State, p: Pid, i: Ino)
    requires Quiet(s, p)
    ensures var z := FirstRunProbing(s, p, i);
            && PcOf(z, p) == Critical(i, true, Probing) && SameBut(s, z, p)
            && i in z.inodes && z.inodes[i].flock == Some(p)
  {
    FirstRunIsReady(s, p, i);
    var b := FirstRunReady(s, p);
    EnterFlocked(b, p, i, 1000);
    AcquiringMovesLittle(b, p, Entering(i, true, 1000));
    ChecksRows(Alone(b, p, Entering(i, true, 1000)), p, i);
  }

  lemma ChecksRows(s: State, p: Pid, i: Ino)
    requires ProcOf(s, p) == Proc(Critical(i, true, Entered), FirstRun) && s.rows == 0
    ensures var z := Alone(s, p, [CheckRows]);
            PcOf(z, p) == Critical(i, true, Probing) && SameBut(s, z, p) && z.inodes == s.inodes
  {
    assert Alone(s, p, [CheckRows]) == Alone(Apply(s, By(p, CheckRows)), p, [CheckRows][1..]);
  }

  lemma {:induction false} AcquiringMovesLittle(s: State, p: Pid, acts: seq<Act>)
    requires forall a :: a in acts ==> IsAcquireAct(a)
    ensures var t := Alone(s, p, acts); SameBut(s, t, p) && ProcOf(t, p).purpose == ProcOf(s, p).purpose
    decreases |acts|
  {
    if acts != [] {
      assert acts[0] in acts && forall a :: a in acts[1..] ==> a in acts;
      AcquireStepMovesLittle(s, p, acts[0]);
      AcquiringMovesLittle(Apply(s, By(p, acts[0])), p, acts[1..]);
    }
  }

  lemma AcquireStepMovesLittle(s: State, p: Pid, a: Act)
    requires IsAcquireAct(a)
    ensures var t := Apply(s, By(p, a)); SameBut(s, t, p) && ProcOf(t, p).purpose == ProcOf(s, p).purpose
  {
  }

  function Minted(s: State, p: Pid, k: Key): State { Alone(s, p, [ProbeKey(NO_READ_FAULTS), MintKey(k, WriteFaults(false, false))]) }

  /** It mints and leaves, and dies before it writes the marker. */
  function MintsAndDies(s: State, p: Pid, k: Key): State { Apply(Alone(Minted(s, p, k), p, Leaving(true)), By(p, Crash)) }

  lemma ProbesFirst(s: State, p: Pid, i: Ino)
    requires PcOf(s, p) == Critical(i, true, Probing) && s.rows == 0 && s.minted == [] && s.store == Store(None, None, None, true)
    ensures Apply(s, By(p, ProbeKey(NO_READ_FAULTS))) == Goto(s, p, Critical(i, true, Minting))
  {
  }

  lemma MintsOnce(s: State, p: Pid, i: Ino, k: Key)
    requires PcOf(s, p) == Critical(i, true, Probing) && s.rows == 0 && s.minted == [] && s.store == Store(None, None, None, true)
    ensures var z := Minted(s, p, k);
            && PcOf(z, p) == Releasing(i, true, true) && z.inodes == s.inodes && z.marker == s.marker && z.rows == 0
            && |z.minted| == 1 && z.store == Store(None, None, Some(k), true)
            && forall q :: q != p ==> PcOf(z, q) == PcOf(s, q)
  {
    AloneTwo(s, p, ProbeKey(NO_READ_FAULTS), MintKey(k, WriteFaults(false, false)));
    ProbesFirst(s, p, i);
  }

  lemma LeavesAndDies(s: State, p: Pid, i: Ino)
    requires PcOf(s, p) == Releasing(i, true, true) && i in s.inodes && s.inodes[i].flock == Some(p)
    ensures var z := Apply(Alone(s, p, Leaving(true)), By(p, Crash));
            PcOf(z, p) == Dead && z.path.None? && SameBut(s, z, p)
  {
    LeavingComputes(s, p, i, true, true, true);
    AcquiringMovesLittle(s, p, Leaving(true));
  }

  lemma NobodyElse(s: State, a: State, b: State, z: State, p: Pid, q: Pid)
    requires Init(s) && p != q && PcOf(z, p) == Dead
    requires forall u :: u != p ==> PcOf(a, u) == PcOf(s, u)
    requires forall u :: u != p ==> PcOf(b, u) == PcOf(a, u)
    requires forall u :: u != p ==> PcOf(z, u) == PcOf(b, u)
    ensures PcOf(z, q) == Idle && forall u :: Fd(PcOf(z, u)).None?
  {
    assert forall u :: PcOf(s, u) == Idle;
  }

  lemma DiesQuietly(s: State, p: Pid, q: Pid, i: Ino, k: Key)
    requires Init(s) && s.path.None? && !s.marker && s.rows == 0 && s.store == Store(None, None, None, true) && p != q
    ensures var z := MintsAndDies(FirstRunProbing(s, p, i), p, k);
            Quiet(z, q) && |z.minted| == 1 && z.store == Store(None, None, Some(k), true)
  {
    FreshIsQuiet(s, p);
    var a := FirstRunProbing(s, p, i);
    FirstRunProbes(s, p, i);
    MintsOnce(a, p, i, k);
    var b := Minted(a, p, k);
    LeavesAndDies(b, p, i);
    NobodyElse(s, a, b, MintsAndDies(a, p, k), p, q);
  }

  lemma FreshIsQuiet(s: State, p: Pid)
    requires Init(s) && s.path.None? && !s.marker && s.rows == 0
    ensures Quiet(s, p)
  {
    assert forall u :: PcOf(s, u) == Idle;
  }

  /** The second of two first runs, at its probe. */
  function SecondProbing(s: State, p: Pid, q: Pid, i: Ino, k: Key): State {
    FirstRunProbing(MintsAndDies(FirstRunProbing(s, p, i), p, k), q, i)
  }

  lemma SecondProbingKeeps(s: State, p: Pid, q: Pid, i: Ino, k: Key)
    requires Init(s)
    ensures Inv(SecondProbing(s, p, q, i, k)) && MintInv(SecondProbing(s, p, q, i, k))
  {
    InitInv(s);
    assert forall u :: ProcOf(s, u) == Proc(Idle, Update);
    FirstRunKeeps(s, p, i);
    MintKeeps(FirstRunProbing(s, p, i), p, k);
    FirstRunKeeps(MintsAndDies(FirstRunProbing(s, p, i), p, k), q, i);
  }

  lemma SecondProbingIsReached(s: State, p: Pid, q: Pid, i: Ino, k: Key)
    ensures Reached(s, SecondProbing(s, p, q, i, k))
  {
    FirstRunIsReached(s, s, p, i);
    MintIsReached(s, FirstRunProbing(s, p, i), p, k);
    FirstRunIsReached(s, MintsAndDies(FirstRunProbing(s, p, i), p, k), q, i);
  }

  /**
   * From a fresh home whose keyring works: a first run mints and dies before it writes the marker, the next
   * one's keyring read fails, and a second key is minted.
   */
  lemma SecondMintIsReached(s: State, p: Pid, q: Pid, i: Ino, k: Key, l: Key)
    requires Init(s) && s.path.None? && !s.marker && s.rows == 0 && s.store == Store(None, None, None, true) && p != q
    ensures exists z :: Reached(s, z) && |z.minted| == 2
  {
    var z := SecondProbing(s, p, q, i, k);
    DiesQuietly(s, p, q, i, k);
    FirstRunProbes(MintsAndDies(FirstRunProbing(s, p, i), p, k), q, i);
    SecondProbingKeeps(s, p, q, i, k);
    var f, g := ReadFaults(true, false, false), WriteFaults(false, false);
    ExactlyWhenSecondMint(z, q, f, l, g);
    SecondProbingIsReached(s, p, q, i, k);
    ReachedOne(s, z, By(q, ProbeKey(f)));
    ReachedOne(s, Apply(z, By(q, ProbeKey(f))), By(q, MintKey(l, g)));
  }

  lemma FirstRunKeeps(s: State, p: Pid, i: Ino)
    requires Inv(s) && MintInv(s)
    ensures Inv(FirstRunProbing(s, p, i)) && MintInv(FirstRunProbing(s, p, i))
  {
    var acts := Entering(i, true, 1000);
    AloneKeepsInv(s, p, [EnsureHome, ReadMarker]);
    AloneKeepsMintInv(s, p, [EnsureHome, ReadMarker]);
    var a := Alone(s, p, [EnsureHome, ReadMarker]);
    AloneKeepsInv(a, p, [OpenLock]);
    AloneKeepsMintInv(a, p, [OpenLock]);
    var b := FirstRunReady(s, p);
    AloneKeepsInv(b, p, acts);
    AloneKeepsMintInv(b, p, acts);
    AloneKeepsInv(Alone(b, p, acts), p, [CheckRows]);
    AloneKeepsMintInv(Alone(b, p, acts), p, [CheckRows]);
  }

  lemma MintKeeps(s: State, p: Pid, k: Key)
    requires Inv(s) && MintInv(s)
    ensures Inv(MintsAndDies(s, p, k)) && MintInv(MintsAndDies(s, p, k))
  {
    var acts := [ProbeKey(NO_READ_FAULTS), MintKey(k, WriteFaults(false, false))];
    AloneKeepsInv(s, p, acts);
    AloneKeepsMintInv(s, p, acts);
    var a := Alone(s, p, acts);
    AloneKeepsInv(a, p, Leaving(true));
    AloneKeepsMintInv(a, p, Leaving(true));
    StepKeepsInv(Alone(a, p, Leaving(true)), By(p, Crash));
    StepKeepsMintInv(Alone(a, p, Leaving(true)), By(p, Crash));
  }

  lemma FirstRunIsReached(s: State, m: State, p: Pid, i: Ino)
    requires m == s || Reached(s, m)
    ensures Reached(s, FirstRunProbing(m, p, i))
  {
    ReachedSelf(s);
    ReachedAlone(s, m, p, [EnsureHome, ReadMarker]);
    ReachedAlone(s, Alone(m, p, [EnsureHome, ReadMarker]), p, [OpenLock]);
    ReachedAlone(s, FirstRunReady(m, p), p, Entering(i, true, 1000));
    ReachedAlone(s, Alone(FirstRunReady(m, p), p, Entering(i, true, 1000)), p, [CheckRows]);
  }

  lemma MintIsReached(s: State, m: State, p: Pid, k: Key)
    requires Reached(s, m)
    ensures Reached(s, MintsAndDies(m, p, k))
  {
    var acts := [ProbeKey(NO_READ_FAULTS), MintKey(k, WriteFaults(false, false))];
    ReachedAlone(s, m, p, acts);
    ReachedAlone(s, Alone(m, p, acts), p, Leaving(true));
    ReachedOne(s, Alone(Alone(m, p, acts), p, Leaving(true)), By(p, Crash));
  }
}
