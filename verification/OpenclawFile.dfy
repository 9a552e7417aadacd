/**
 * The operations of `src/worthless/openclaw/config.py` as code: read under the flock, change the
 * dictionary in place, replace the file. Between any two of this process's operations other processes
 * may run any operations of their own.
 */
module OpenclawFile {
  import opened Common
  import opened Json
  import opened OpenclawConfig
  import opened ConfigProtocol

  /** This process, and everybody else. */
  const ME: Pid := 0
  const OTHERS: Pid := 1

  class ConfigFile {
    var disk: Disk
    /** The document at the beginning, and every operation since. */
    ghost const start: Disk
    ghost var log: seq<Done>
    /** The snapshots that were to be put back without the flock. */
    ghost var rollbacks: seq<Fields>
    /** How many locks and writes of this process failed. */
    ghost var misses: nat

    ghost predicate Valid()
      reads this
    {
      disk == Replay(start, log)
    }

    constructor (d: Disk)
      ensures Valid() && start == d && log == [] && disk == d && rollbacks == [] && misses == 0
    {
      disk, start, log, rollbacks, misses := d, d, [], [], 0;
    }

    /** Others have run, and nothing of this process's has. */
    twostate predicate OthersRan()
      reads this
    {
      && Valid() && old(log) <= log && rollbacks == old(rollbacks) && misses == old(misses)
      && forall k :: |old(log)| <= k < |log| ==> log[k].pid == OTHERS
    }

    /** Others have run, and then this operation. */
    twostate predicate Did(op: Op, reply: Reply)
      reads this
    {
      && Valid() && old(log) <= log && |log| > |old(log)| && rollbacks == old(rollbacks) && misses == old(misses)
      && (forall k :: |old(log)| <= k < |log| - 1 ==> log[k].pid == OTHERS)
      && log[|log| - 1] == Done(ME, op, reply)
      && reply == Effect(op, Replay(start, log[..|log| - 1])).1
    }

    /** ... or it failed and had no effect. */
    twostate predicate Missed(op: Op, reply: Reply)
      reads this
    {
      && Valid() && old(log) <= log && rollbacks == old(rollbacks) && misses == old(misses) + 1
      && (forall k :: |old(log)| <= k < |log| ==> log[k].pid == OTHERS)
      && (reply == Failed(WriteFailed) || (op.RevertIfOurs? && reply == Failed(TimedOut)))
    }

    twostate predicate Tried(op: Op, reply: Reply)
      reads this
    {
      Did(op, reply) || Missed(op, reply)
    }

    lemma ReplayMore(d: Disk, earlier: seq<Done>, e: Done)
      ensures Replay(d, earlier + [e]) == Effect(e.op, Replay(d, earlier)).0
    {
      assert (earlier + [e])[..|earlier|] == earlier;
    }

    method Others()
      requires Valid()
      modifies this
      ensures OthersRan()
    {
      var k: nat := *;
      while k > 0
        invariant OthersRan()
      {
        var op: Op := *;
        var (after, reply) := Effect(op, disk);
        ReplayMore(start, log, Done(OTHERS, op, reply));
        log := log + [Done(OTHERS, op, reply)];
        disk := after;
        k := k - 1;
      }
    }

    /** The operation is over: what it did to the file and answered is what its effect says. */
    ghost method Note(op: Op, reply: Reply, before: Disk)
      requires before == Replay(start, log) && (disk, reply) == Effect(op, before)
      modifies this`log
      ensures Valid() && log == old(log) + [Done(ME, op, reply)]
      ensures reply == Effect(op, Replay(start, log[..|log| - 1])).1
    {
      ReplayMore(start, log, Done(ME, op, reply));
      assert (log + [Done(ME, op, reply)])[..|log|] == log;
      log := log + [Done(ME, op, reply)];
    }

    /** ... or its write failed before it had any. */
    ghost method Record(op: Op, reply: Reply, before: Disk)
      requires before == Replay(start, log)
      requires (reply == Failed(WriteFailed) && disk == before) || (disk, reply) == Effect(op, before)
      modifies this`log
      ensures Valid()
      ensures reply == Failed(WriteFailed) ==> log == old(log)
      ensures reply != Failed(WriteFailed) ==> log == old(log) + [Done(ME, op, reply)]
                                               && reply == Effect(op, Replay(start, log[..|log| - 1])).1
    {
      if reply != Failed(WriteFailed) { Note(op, reply, before); }
    }

    /** `_atomic_write_json`: the whole new document, or the old one. */
    method AtomicWrite(data: Fields) returns (ok: bool)
      modifies this`disk, this`misses
      ensures disk == if ok then Plain(data) else old(disk)
      ensures misses == old(misses) + if ok then 0 else 1
    {
      ok := *;
      if ok { disk := Plain(data); } else { misses := misses + 1; }
    }

    /** `_file_lock` may fail: no directory, or no sentinel file; with a deadline, also because others hold it. */
    method Lock() returns (ok: bool)
      modifies this`misses
      ensures misses == old(misses) + if ok then 0 else 1
    {
      ok := *;
      if !ok { misses := misses + 1; }
    }

    method SetProvider(p: string, c: Change) returns (reply: Reply)
      requires Valid()
      modifies this
      ensures Tried(Op.SetProvider(p, c), reply)
    {
      Others();
      var locked := Lock();
      if !locked { return Failed(WriteFailed); }
      ghost var before := disk;
      reply := SetUnderLock(p, c);
      Record(Op.SetProvider(p, c), reply, before);
    }

    /** The body of `with _file_lock(path)`. */
    method SetUnderLock(p: string, c: Change) returns (reply: Reply)
      modifies this`disk, this`misses
      ensures (reply == Failed(WriteFailed) && disk == old(disk)) || (disk, reply) == EffectOfSet(old(disk), p, c)
      ensures misses == old(misses) + if reply == Failed(WriteFailed) then 1 else 0
    {
      if disk.Link? { return Failed(ConfigError); }
      var data := ReadConfig(disk, true);
      if data.Err? { return Failed(data.error); }
      var providers := EnsureProviders(data.value);
      if providers.Err? { return Failed(providers.error); }
      var existing := Get(providers.value, p);
      if existing.Some? && !existing.value.Obj? { return Failed(ConfigError); }
      var entry := if existing.Some? then existing.value.fields else map[];
      entry := entry["baseUrl" := Str(c.baseUrl)];
      if c.apiKey.Some? { entry := entry["apiKey" := Str(c.apiKey.value)]; }
      if c.api.Some? { entry := entry["api" := Str(c.api.value)]; }
      if c.models.Some? { entry := entry["models" := Arr(c.models.value)]; }
      else if "models" !in entry { entry := entry["models" := Arr([])]; }
      var ok := AtomicWrite(WithProviders(data.value, providers.value[p := Obj(entry)]));
      return if ok then Entry(entry) else Failed(WriteFailed);
    }

    method UnsetProvider(p: string) returns (reply: Reply)
      requires Valid()
      modifies this
      ensures Tried(Op.UnsetProvider(p), reply)
    {
      Others();
      var locked := Lock();
      if !locked { return Failed(WriteFailed); }
      ghost var before := disk;
      reply := UnsetUnderLock(p);
      Record(Op.UnsetProvider(p), reply, before);
    }

    method UnsetUnderLock(p: string) returns (reply: Reply)
      modifies this`disk, this`misses
      ensures (reply == Failed(WriteFailed) && disk == old(disk)) || (disk, reply) == EffectOfUnset(old(disk), p)
      ensures misses == old(misses) + if reply == Failed(WriteFailed) then 1 else 0
    {
      if disk.Link? { return Failed(ConfigError); }
      var data := ReadConfig(disk, false);
      if data.Err? { return Failed(data.error); }
      var view := LooseView(data.value);
      if view.None? || p !in view.value { return Entry(map[]); }
      var removed := view.value[p];
      var ok := AtomicWrite(WithProviders(data.value, view.value - {p}));
      if !ok { return Failed(WriteFailed); }
      return Entry(if removed.Obj? then removed.fields else map[]);
    }

    method ReplaceProvider(p: string, e: Fields) returns (reply: Reply)
      requires Valid()
      modifies this
      ensures Tried(Op.ReplaceProvider(p, e), reply)
    {
      Others();
      var locked := Lock();
      if !locked { return Failed(WriteFailed); }
      ghost var before := disk;
      reply := ReplaceUnderLock(p, e);
      Record(Op.ReplaceProvider(p, e), reply, before);
    }

    method ReplaceUnderLock(p: string, e: Fields) returns (reply: Reply)
      modifies this`disk, this`misses
      ensures (reply == Failed(WriteFailed) && disk == old(disk)) || (disk, reply) == EffectOfReplace(old(disk), p, e)
      ensures misses == old(misses) + if reply == Failed(WriteFailed) then 1 else 0
    {
      if disk.Link? { return Failed(ConfigError); }
      var data := ReadConfig(disk, true);
      if data.Err? { return Failed(data.error); }
      var providers := EnsureProviders(data.value);
      if providers.Err? { return Failed(providers.error); }
      var ok := AtomicWrite(WithProviders(data.value, providers.value[p := Obj(e)]));
      return if ok then Entry(e) else Failed(WriteFailed);
    }

    method RepointPrimary(oldRef: string, newRef: string) returns (reply: Reply)
      requires Valid()
      modifies this
      ensures Tried(Op.RepointPrimary(oldRef, newRef), reply)
    {
      Others();
      var locked := Lock();
      if !locked { return Failed(WriteFailed); }
      ghost var before := disk;
      reply := RepointUnderLock(oldRef, newRef);
      Record(Op.RepointPrimary(oldRef, newRef), reply, before);
    }

    method RepointUnderLock(oldRef: string, newRef: string) returns (reply: Reply)
      modifies this`disk, this`misses
      ensures (reply == Failed(WriteFailed) && disk == old(disk)) || (disk, reply) == EffectOfRepoint(old(disk), oldRef, newRef)
      ensures misses == old(misses) + if reply == Failed(WriteFailed) then 1 else 0
    {
      if disk.Link? { return Failed(ConfigError); }
      var data := ReadConfig(disk, false);
      if data.Err? { return Failed(data.error); }
      var model := ModelOf(data.value);
      if model.None? || Get(model.value, "primary") != Some(Str(oldRef)) { return Changed(false); }
      var ok := AtomicWrite(WithModel(data.value, model.value["primary" := Str(newRef)]));
      return if ok then Changed(true) else Failed(WriteFailed);
    }

    method RevertIfOurs(p: string, ours: string, prior: Option<Fields>) returns (reply: Reply)
      requires Valid()
      modifies this
      ensures Tried(Op.RevertIfOurs(p, ours, prior), reply)
    {
      Others();
      var locked := Lock();
      if !locked { return Failed(WriteFailed); }
      var inTime := Lock();
      if !inTime { return Failed(TimedOut); }
      ghost var before := disk;
      reply := RevertUnderLock(p, ours, prior);
      Record(Op.RevertIfOurs(p, ours, prior), reply, before);
    }

    method RevertUnderLock(p: string, ours: string, prior: Option<Fields>) returns (reply: Reply)
      modifies this`disk, this`misses
      ensures (reply == Failed(WriteFailed) && disk == old(disk)) || (disk, reply) == EffectOfRevert(old(disk), p, ours, prior)
      ensures misses == old(misses) + if reply == Failed(WriteFailed) then 1 else 0
    {
      if disk.Link? { return Failed(ConfigError); }
      var data := ReadConfig(disk, false);
      if data.Err? { return Failed(data.error); }
      var view := LooseView(data.value);
      var providers := if view.Some? then view.value else map[];
      if !PointsAt(Get(providers, p), ours) { return Changed(true); }
      providers := if prior.Some? then providers[p := Obj(prior.value)] else providers - {p};
      var ok := AtomicWrite(WithProviders(data.value, providers));
      return if ok then Changed(true) else Failed(WriteFailed);
    }
  }
}
