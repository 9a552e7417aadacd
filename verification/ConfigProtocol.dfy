/**
 * Any number of processes working on openclaw.json through `src/worthless/openclaw/config.py`: each
 * operation takes the flock on the sentinel file, reads, writes a temporary file, renames it over the
 * document and releases. A process may die before any step.
 */
module ConfigProtocol {
  import opened Common
  import opened Json
  import opened OpenclawConfig

  type Pid = nat

  datatype Pc =
    | Idle
    | Waiting(op: Op)
    | Locked(op: Op)
    | HasRead(op: Op, seen: Disk)
    | Committed(op: Op, reply: Reply)
    | Answered(op: Op, reply: Reply)
    | Dead

  /** An operation that has had its effect. */
  datatype Done = Done(pid: Pid, op: Op, reply: Reply)

  datatype State = State(disk: Disk, flock: Option<Pid>, procs: map<Pid, Pc>, log: seq<Done>)

  datatype Act = Begin(op: Op) | Acquire | GiveUp | Read | Rename | WriteFails | Release | Crash

  datatype Label = By(pid: Pid, act: Act)

  function PcOf(s: State, p: Pid): Pc { if p in s.procs then s.procs[p] else Idle }

  function Goto(s: State, p: Pid, pc: Pc): State { s.(procs := s.procs[p := pc]) }

  function Unlock(s: State, p: Pid): State { if s.flock == Some(p) then s.(flock := None) else s }

  /** The rename puts in place what was computed from what was read, whatever is there by now. */
  function ApplyRename(s: State, p: Pid, op: Op, seen: Disk): State {
    var (disk, reply) := Effect(op, seen);
    Goto(s, p, Committed(op, reply)).(disk := if disk == seen then s.disk else disk, log := s.log + [Done(p, op, reply)])
  }

  function Apply(s: State, l: Label): State {
    var (p, a) := (l.pid, l.act);
    var pc := PcOf(s, p);
    if pc.Dead? then s
    else
      match a
      case Begin(op) => if pc.Idle? || pc.Answered? then Goto(s, p, Waiting(op)) else s
      case Acquire => if pc.Waiting? && s.flock.None? then Goto(s, p, Locked(pc.op)).(flock := Some(p)) else s
      case GiveUp => if pc.Waiting? then Goto(s, p, Answered(pc.op, Failed(TimedOut))) else s
      case Read => if pc.Locked? then Goto(s, p, HasRead(pc.op, s.disk)) else s
      case Rename => if pc.HasRead? then ApplyRename(s, p, pc.op, pc.seen) else s
      case WriteFails => if pc.HasRead? then Goto(s, p, Committed(pc.op, Failed(WriteFailed))) else s
      case Release => if pc.Committed? then Unlock(Goto(s, p, Answered(pc.op, pc.reply)), p) else s
      case Crash => Unlock(Goto(s, p, Dead), p)
  }

  function Run(s: State, ls: seq<Label>): State
    decreases |ls|
  {
    if ls == [] then s else Run(Apply(s, ls[0]), ls[1..])
  }

  predicate Init(s: State) { s.procs == map[] && s.flock.None? && s.log == [] }

  /** The operations of a history, one after the other. */
  function Replay(d: Disk, log: seq<Done>): Disk {
    if log == [] then d else Effect(log[|log| - 1].op, Replay(d, log[..|log| - 1])).0
  }

  /** Operation `k` answered what it would have answered alone, after the ones before it. */
  predicate AnswersInOrder(d: Disk, log: seq<Done>, k: nat)
    requires k < |log|
  {
    log[k].reply == Effect(log[k].op, Replay(d, log[..k])).1
  }

  ghost predicate Serial(d: Disk, log: seq<Done>) {
    forall k :: 0 <= k < |log| ==> AnswersInOrder(d, log, k)
  }

  predicate InLog(log: seq<Done>, p: Pid, op: Op, reply: Reply) { Done(p, op, reply) in log }

  predicate ProcInv(s: State, p: Pid) {
    var pc := PcOf(s, p);
    && (pc.Locked? || pc.HasRead? || pc.Committed? ==> s.flock == Some(p))
    && (pc.HasRead? ==> pc.seen == s.disk)
    && (pc.Committed? || pc.Answered? ==>
          InLog(s.log, p, pc.op, pc.reply) || pc.reply == Failed(WriteFailed) || pc.reply == Failed(TimedOut))
  }

  ghost predicate Inv(d: Disk, s: State) {
    && s.disk == Replay(d, s.log) && Serial(d, s.log)
    && forall p :: ProcInv(s, p)
  }

  lemma SerialMore(d: Disk, log: seq<Done>, e: Done)
    requires Serial(d, log) && e.reply == Effect(e.op, Replay(d, log)).1
    ensures Serial(d, log + [e]) && Replay(d, log + [e]) == Effect(e.op, Replay(d, log)).0
  {
    var more := log + [e];
    assert more[..|log|] == log;
    forall k | 0 <= k < |more| ensures AnswersInOrder(d, more, k) {
      if k < |log| {
        assert AnswersInOrder(d, log, k);
        assert more[..k] == log[..k];
      }
    }
  }

  lemma CommitKeepsProc(s: State, t: State, p: Pid, e: Done, q: Pid)
    requires ProcInv(s, q) && s.flock == Some(p) && t.flock == s.flock
    requires e.pid == p && t.procs == s.procs[p := Committed(e.op, e.reply)] && t.log == s.log + [e]
    ensures ProcInv(t, q)
  {
    if q != p {
      var pc := PcOf(s, q);
      if pc.Committed? || pc.Answered? {
        assert InLog(s.log, q, pc.op, pc.reply) ==> InLog(t.log, q, pc.op, pc.reply);
      }
    } else {
      assert e in t.log;
    }
  }

  lemma RenameKeepsInv(d: Disk, s: State, p: Pid)
    requires Inv(d, s) && PcOf(s, p).HasRead?
    ensures Inv(d, Apply(s, By(p, Rename)))
  {
    var t, pc := Apply(s, By(p, Rename)), PcOf(s, p);
    assert ProcInv(s, p);
    var e := Done(p, pc.op, Effect(pc.op, pc.seen).1);
    SerialMore(d, s.log, e);
    forall q ensures ProcInv(t, q) {
      assert ProcInv(s, q);
      CommitKeepsProc(s, t, p, e, q);
    }
  }

  lemma OtherStepKeepsInv(d: Disk, s: State, l: Label)
    requires Inv(d, s) && !l.act.Rename?
    ensures Inv(d, Apply(s, l))
  {
    var t := Apply(s, l);
    assert ProcInv(s, l.pid);
    assert t.disk == s.disk && t.log == s.log;
    forall q ensures ProcInv(t, q) {
      assert ProcInv(s, q);
      assert q != l.pid ==> PcOf(t, q) == PcOf(s, q);
    }
  }

  lemma StepKeepsInv(d: Disk, s: State, l: Label)
    requires Inv(d, s)
    ensures Inv(d, Apply(s, l))
  {
    if l.act.Rename? && PcOf(s, l.pid).HasRead? {
      RenameKeepsInv(d, s, l.pid);
    } else if !l.act.Rename? {
      OtherStepKeepsInv(d, s, l);
    }
  }

  lemma {:induction false} RunKeepsInv(d: Disk, s: State, ls: seq<Label>)
    requires Inv(d, s)
    ensures Inv(d, Run(s, ls))
    decreases |ls|
  {
    if ls != [] {
      StepKeepsInv(d, s, ls[0]);
      RunKeepsInv(d, Apply(s, ls[0]), ls[1..]);
    }
  }

  /**
   * Whatever the interleaving and whoever dies: the document is the initial one with the logged
   * operations applied one after the other, and each of them answered as it would have in that order.
   * An answered operation is in the log unless it reports that it did not happen.
   */
  lemma Linearizable(s: State, ls: seq<Label>, p: Pid)
    requires Init(s)
    ensures var t := Run(s, ls);
            && t.disk == Replay(s.disk, t.log) && Serial(s.disk, t.log)
            && (PcOf(t, p).Answered? ==>
                  InLog(t.log, p, PcOf(t, p).op, PcOf(t, p).reply) || PcOf(t, p).reply == Failed(WriteFailed)
                  || PcOf(t, p).reply == Failed(TimedOut))
  {
    forall q ensures ProcInv(s, q) { assert PcOf(s, q) == Idle; }
    RunKeepsInv(s.disk, s, ls);
    assert ProcInv(Run(s, ls), p);
  }

  /** A step leaves the old document or puts a complete operation's document in its place. */
  lemma OldOrNew(d: Disk, s: State, l: Label)
    requires Inv(d, s)
    ensures var t := Apply(s, l);
            (t.disk == s.disk && (t.log == s.log || |t.log| == |s.log| + 1))
            || (|t.log| == |s.log| + 1 && t.disk == Effect(t.log[|s.log|].op, s.disk).0)
    ensures l.act.Crash? ==> Apply(s, l).disk == s.disk && Apply(s, l).log == s.log
  {
    assert ProcInv(s, l.pid);
  }

  /** A log seen through one provider. */
  function ReplaySlot(slot: Option<Json>, log: seq<Done>, p: string): Option<Json> {
    if log == [] then slot
    else
      var before, op := ReplaySlot(slot, log[..|log| - 1], p), log[|log| - 1].op;
      if TargetOf(op) == Some(p) then SlotStep(op, before) else before
  }

  /** Each provider's entry depends on the operations on that provider alone. */
  lemma {:induction false} ProvidersAreIndependent(d: Disk, log: seq<Done>, p: string)
    requires Readable(d)
    ensures Readable(Replay(d, log)) && Slot(Replay(d, log), p) == ReplaySlot(Slot(d, p), log, p)
    decreases |log|
  {
    if log != [] {
      var before := log[..|log| - 1];
      ProvidersAreIndependent(d, before, p);
      OnlyItsOwnProvider(log[|log| - 1].op, Replay(d, before), p);
      EffectOnSlot(log[|log| - 1].op, Replay(d, before), p);
    }
  }
}
