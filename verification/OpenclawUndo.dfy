/**
 * An interrupted lock in `src/worthless/openclaw/integration.py`: the provider loop is cut anywhere,
 * `_undo_own_provider_writes` puts back the entries this lock wrote, and others work on the file all along.
 */
module OpenclawUndo {
  import opened Common
  import opened Json
  import opened OpenclawConfig
  import opened ConfigProtocol
  import opened OpenclawFile

  /** A provider to be locked, the alias its proxy URL gets, and the key half that replaces the key. */
  datatype Plan = Plan(provider: string, alias: string, shardA: string, api: Option<string>)

  function RStripSlash(s: string): string {
    if s != "" && s[|s| - 1] == '/' then RStripSlash(s[..|s| - 1]) else s
  }

  function AliasPath(alias: string): string { "/" + alias + "/v1" }

  /** The base URL a lock gives a provider. */
  function OursUrl(base: string, alias: string): string { RStripSlash(base) + AliasPath(alias) }

  predicate EndsWith(s: string, t: string) { |s| >= |t| && s[|s| - |t|..] == t }

  function SetOf(base: string, plan: Plan): Op {
    SetProvider(plan.provider, Change(OursUrl(base, plan.alias), Some(plan.shardA), plan.api, None))
  }

  function RevertOf(base: string, plan: Plan, before: Option<Json>): Op {
    RevertIfOurs(plan.provider, OursUrl(base, plan.alias), PriorOf(before))
  }

  /** The entry pointed at this alias before the lock, on whatever proxy host. */
  predicate OursBefore(before: Option<Json>, alias: string, isProxy: string -> bool) {
    && before.Some? && before.value.Obj?
    && "baseUrl" in before.value.fields && before.value.fields["baseUrl"].Str?
    && var url := before.value.fields["baseUrl"].s;
       isProxy(url) && EndsWith(RStripSlash(url), AliasPath(alias))
  }

  // ----- One entry over a history ----------------------------------------------------------------

  predicate MineOn(e: Done, p: string) { e.pid == ME && TargetOf(e.op) == Some(p) }

  function At(s: Option<Json>, log: seq<Done>, p: string, k: nat): Option<Json>
    requires k <= |log|
  {
    ReplaySlot(s, log[..k], p)
  }

  lemma AtNext(s: Option<Json>, log: seq<Done>, p: string, k: nat)
    requires k < |log|
    ensures At(s, log, p, k + 1) == if TargetOf(log[k].op) == Some(p) then SlotStep(log[k].op, At(s, log, p, k)) else At(s, log, p, k)
  {
    assert log[..k + 1][..k] == log[..k];
  }

  /** Somebody else's operation `j` made this of the entry, which had been something else. */
  predicate LeftBy(s: Option<Json>, log: seq<Done>, p: string, j: nat, now: Option<Json>) {
    && j < |log| && log[j].pid != ME && TargetOf(log[j].op) == Some(p)
    && At(s, log, p, j) != now && At(s, log, p, j + 1) == now
  }

  ghost predicate LeftByOther(s: Option<Json>, log: seq<Done>, p: string, now: Option<Json>) {
    exists j :: LeftBy(s, log, p, j, now)
  }

  /** The entry as this lock writes it, on top of whatever was there. */
  predicate WrittenByLock(now: Option<Json>, op: Op) {
    && op.SetProvider? && PointsAt(now, op.change.baseUrl)
    && (op.change.apiKey.Some? ==> Get(now.value.fields, "apiKey") == Some(Str(op.change.apiKey.value)))
  }

  /** Up to operation `k`, this process only set the entry. */
  predicate OnlySets(log: seq<Done>, p: string, put: Op, k: nat) {
    forall j :: 0 <= j < k && j < |log| && MineOn(log[j], p) ==> log[j].op == put
  }

  /** From operation `k` on, this process only reverted it. */
  predicate OnlyReverts(log: seq<Done>, p: string, revert: Op, k: nat) {
    forall j :: k <= j < |log| && MineOn(log[j], p) ==> log[j].op == revert
  }

  lemma OthersStep(s: Option<Json>, log: seq<Done>, p: string, k: nat)
    requires k < |log| && !MineOn(log[k], p)
    ensures At(s, log, p, k + 1) == At(s, log, p, k) || LeftByOther(s, log, p, At(s, log, p, k + 1))
  {
    AtNext(s, log, p, k);
    if At(s, log, p, k + 1) != At(s, log, p, k) { assert LeftBy(s, log, p, k, At(s, log, p, k + 1)); }
  }

  /** While the loop runs, the entry is the old one, ours, or somebody else's. */
  lemma {:induction false} WhileSetting(s: Option<Json>, log: seq<Done>, p: string, put: Op, k: nat)
    requires k <= |log| && OnlySets(log, p, put, k) && put.SetProvider? && put.provider == p
    ensures At(s, log, p, k) == s || WrittenByLock(At(s, log, p, k), put) || LeftByOther(s, log, p, At(s, log, p, k))
    decreases k
  {
    if k > 0 {
      WhileSetting(s, log, p, put, k - 1);
      AtNext(s, log, p, k - 1);
      if !MineOn(log[k - 1], p) { OthersStep(s, log, p, k - 1); }
    } else {
      assert log[..0] == [];
    }
  }

  /** What a revert leaves: the old entry, or what it found if that was not ours. */
  lemma RevertStep(s: Option<Json>, now: Option<Json>, p: string, ours: string)
    requires s.None? || s.value.Obj?
    ensures var after := SlotStep(RevertIfOurs(p, ours, PriorOf(s)), now);
            after == s || (after == now && !PointsAt(now, ours))
  {
  }

  lemma {:induction false} WhileReverting(s: Option<Json>, log: seq<Done>, p: string, put: Op, revert: Op, a: nat, k: nat)
    requires a <= k <= |log| && (s.None? || s.value.Obj?)
    requires OnlySets(log, p, put, a) && OnlyReverts(log, p, revert, a)
    requires put.SetProvider? && put.provider == p && revert == RevertIfOurs(p, put.change.baseUrl, PriorOf(s))
    ensures var now := At(s, log, p, k);
            now == s || PointsAt(now, put.change.baseUrl) || LeftByOther(s, log, p, now)
    decreases k
  {
    if k == a {
      WhileSetting(s, log, p, put, a);
    } else {
      WhileReverting(s, log, p, put, revert, a, k - 1);
      AtNext(s, log, p, k - 1);
      if MineOn(log[k - 1], p) {
        RevertStep(s, At(s, log, p, k - 1), p, put.change.baseUrl);
      } else {
        OthersStep(s, log, p, k - 1);
      }
    }
  }

  lemma {:induction false} AfterRevert(s: Option<Json>, log: seq<Done>, p: string, put: Op, revert: Op, a: nat, r: nat, k: nat)
    requires a <= r < k <= |log| && (s.None? || s.value.Obj?) && MineOn(log[r], p)
    requires OnlySets(log, p, put, a) && OnlyReverts(log, p, revert, a)
    requires put.SetProvider? && put.provider == p && revert == RevertIfOurs(p, put.change.baseUrl, PriorOf(s))
    ensures var now := At(s, log, p, k); now == s || LeftByOther(s, log, p, now)
    decreases k
  {
    AtNext(s, log, p, k - 1);
    if k == r + 1 {
      WhileReverting(s, log, p, put, revert, a, r);
      RevertStep(s, At(s, log, p, r), p, put.change.baseUrl);
    } else {
      AfterRevert(s, log, p, put, revert, a, r, k - 1);
      if MineOn(log[k - 1], p) {
        RevertStep(s, At(s, log, p, k - 1), p, put.change.baseUrl);
      } else {
        OthersStep(s, log, p, k - 1);
      }
    }
  }

  /** A provider this process never touched shows what it showed, or what somebody else left. */
  lemma {:induction false} Untouched(s: Option<Json>, log: seq<Done>, p: string, k: nat)
    requires k <= |log| && forall j :: 0 <= j < |log| ==> !MineOn(log[j], p)
    ensures At(s, log, p, k) == s || LeftByOther(s, log, p, At(s, log, p, k))
    decreases k
  {
    if k > 0 {
      Untouched(s, log, p, k - 1);
      OthersStep(s, log, p, k - 1);
    } else {
      assert log[..0] == [];
    }
  }

  // ----- All providers of an interrupted lock ----------------------------------------------------

  predicate Distinct(planned: seq<Plan>) {
    forall i, j :: 0 <= i < j < |planned| ==> planned[i].provider != planned[j].provider
  }

  predicate IsSet(op: Op, base: string, planned: seq<Plan>) {
    exists i :: 0 <= i < |planned| && op == SetOf(base, planned[i])
  }

  predicate ToRevert(d: Disk, plan: Plan, isProxy: string -> bool) {
    !OursBefore(Slot(d, plan.provider), plan.alias, isProxy)
  }

  predicate IsRevert(op: Op, d: Disk, base: string, planned: seq<Plan>, isProxy: string -> bool) {
    exists i :: 0 <= i < |planned| && ToRevert(d, planned[i], isProxy)
                && op == RevertOf(base, planned[i], Slot(d, planned[i].provider))
  }

  predicate RevertedAt(log: seq<Done>, r: nat, op: Op) {
    r < |log| && log[r].pid == ME && log[r].op == op
  }

  ghost predicate Reverted(log: seq<Done>, a: nat, d: Disk, base: string, plan: Plan) {
    exists r :: a <= r && RevertedAt(log, r, RevertOf(base, plan, Slot(d, plan.provider)))
  }

  /** The operations of a cut loop, and from `a` on those of a complete undo. */
  ghost predicate CutAndUndone(log: seq<Done>, a: nat, d: Disk, base: string, planned: seq<Plan>, isProxy: string -> bool) {
    && a <= |log|
    && (forall j :: 0 <= j < a && log[j].pid == ME ==> IsSet(log[j].op, base, planned))
    && (forall j :: a <= j < |log| && log[j].pid == ME ==> IsRevert(log[j].op, d, base, planned, isProxy))
    && (forall i :: 0 <= i < |planned| && ToRevert(d, planned[i], isProxy) ==> Reverted(log, a, d, base, planned[i]))
  }

  /** The entry from before the lock; or the new one, if the old one was ours already; or somebody else's. */
  ghost predicate OneOfThree(d: Disk, log: seq<Done>, base: string, plan: Plan, isProxy: string -> bool) {
    var s, now := Slot(d, plan.provider), Slot(Replay(d, log), plan.provider);
    || now == s
    || LeftByOther(s, log, plan.provider, now)
    || (!ToRevert(d, plan, isProxy) && WrittenByLock(now, SetOf(base, plan)))
  }

  /** An entry the undo can put back. */
  predicate CanBePutBack(before: Option<Json>) { before.None? || before.value.Obj? }

  lemma OnePlan(log: seq<Done>, a: nat, d: Disk, base: string, planned: seq<Plan>, isProxy: string -> bool, i: nat)
    requires Readable(d) && Distinct(planned) && CutAndUndone(log, a, d, base, planned, isProxy) && i < |planned|
    requires CanBePutBack(Slot(d, planned[i].provider))
    ensures OneOfThree(d, log, base, planned[i], isProxy)
  {
    var plan := planned[i];
    var (p, s) := (plan.provider, Slot(d, plan.provider));
    var put, revert := SetOf(base, plan), RevertOf(base, plan, s);
    ProvidersAreIndependent(d, log, p);
    assert log[..|log|] == log;
    MyOpsOn(log, a, d, base, planned, isProxy, i);
    if ToRevert(d, plan, isProxy) {
      assert Reverted(log, a, d, base, plan);
      var r :| a <= r && RevertedAt(log, r, revert);
      AfterRevert(s, log, p, put, revert, a, r, |log|);
    } else {
      WhileSetting(s, log, p, put, |log|);
    }
  }

  // ----- Files in which there is no providers object -----------------------------------------------

  /** An object, but not with objects where providers are looked for: no operation gets anything in there. */
  lemma {:induction false} NoProvidersStay(d: Disk, log: seq<Done>, p: string)
    requires d.Plain? && EnsureProviders(d.doc).Err?
    ensures var t := Replay(d, log); t.Plain? && EnsureProviders(t.doc).Err? && Slot(t, p).None?
    decreases |log|
  {
    if log != [] {
      NoProvidersStay(d, log[..|log| - 1], p);
      var (op, t) := (log[|log| - 1].op, Replay(d, log[..|log| - 1]));
      if op.RepointPrimary? && ModelOf(t.doc).Some? {
        var model := ModelOf(t.doc).value;
        assert model["primary" := Str(op.newRef)] - {"primary"} == model - {"primary"};
        ModelWritten(t.doc, model["primary" := Str(op.newRef)]);
      }
    }
  }

  /** A snapshot that could be read: no file, or a JSON object of any shape. */
  predicate Snapshot(d: Disk) { d.Absent? || d.Plain? }

  /** Providers are distinct, so what this process did to one of them it did for its plan. */
  lemma MyOpsOn(log: seq<Done>, a: nat, d: Disk, base: string, planned: seq<Plan>, isProxy: string -> bool, i: nat)
    requires Distinct(planned) && CutAndUndone(log, a, d, base, planned, isProxy) && i < |planned|
    ensures var plan := planned[i];
            && OnlySets(log, plan.provider, SetOf(base, plan), a)
            && OnlyReverts(log, plan.provider, RevertOf(base, plan, Slot(d, plan.provider)), a)
            && (!ToRevert(d, plan, isProxy) ==> OnlySets(log, plan.provider, SetOf(base, plan), |log|))
  {
    var p := planned[i].provider;
    forall j | 0 <= j < |log| && MineOn(log[j], p)
      ensures j < a ==> log[j].op == SetOf(base, planned[i])
      ensures j >= a ==> ToRevert(d, planned[i], isProxy) && log[j].op == RevertOf(base, planned[i], Slot(d, p))
    {
      if j < a {
        assert IsSet(log[j].op, base, planned);
      } else {
        assert IsRevert(log[j].op, d, base, planned, isProxy);
      }
    }
  }

  /**
   * Wherever the loop was cut, once the undo is through every planned provider whose entry was absent or
   * an object shows that entry, or the new one if the old one was ours already, or what somebody else has
   * put there; and no other provider was changed by this process.
   */
  lemma InterruptIsUndone(log: seq<Done>, a: nat, d: Disk, base: string, planned: seq<Plan>, isProxy: string -> bool, q: string)
    requires Snapshot(d) && Distinct(planned) && CutAndUndone(log, a, d, base, planned, isProxy)
    ensures forall i :: 0 <= i < |planned| && CanBePutBack(Slot(d, planned[i].provider)) ==>
              OneOfThree(d, log, base, planned[i], isProxy)
    ensures (forall i :: 0 <= i < |planned| ==> planned[i].provider != q) ==>
              Slot(Replay(d, log), q) == Slot(d, q) || LeftByOther(Slot(d, q), log, q, Slot(Replay(d, log), q))
  {
    if !Readable(d) {
      NoProvidersStay(d, log, q);
      forall i | 0 <= i < |planned| ensures Slot(Replay(d, log), planned[i].provider) == Slot(d, planned[i].provider) {
        NoProvidersStay(d, log, planned[i].provider);
      }
    } else {
      forall i | 0 <= i < |planned| && CanBePutBack(Slot(d, planned[i].provider))
        ensures OneOfThree(d, log, base, planned[i], isProxy)
      {
        OnePlan(log, a, d, base, planned, isProxy, i);
      }
      if forall i :: 0 <= i < |planned| ==> planned[i].provider != q {
        NotPlanned(log, a, d, base, planned, isProxy, q);
        ProvidersAreIndependent(d, log, q);
        assert log[..|log|] == log;
        Untouched(Slot(d, q), log, q, |log|);
      }
    }
  }

  lemma NotPlanned(log: seq<Done>, a: nat, d: Disk, base: string, planned: seq<Plan>, isProxy: string -> bool, q: string)
    requires CutAndUndone(log, a, d, base, planned, isProxy)
    requires forall i :: 0 <= i < |planned| ==> planned[i].provider != q
    ensures forall j :: 0 <= j < |log| ==> !MineOn(log[j], q)
  {
    forall j | 0 <= j < |log| ensures !MineOn(log[j], q) {
      if log[j].pid == ME {
        assert j < a ==> IsSet(log[j].op, base, planned);
        assert j >= a ==> IsRevert(log[j].op, d, base, planned, isProxy);
      }
    }
  }

  // ----- Entries that cannot be put back -----------------------------------------------------------

  /** A history can go on with any operation. */
  lemma GoOn(d: Disk, log: seq<Done>, pid: Pid, op: Op) returns (more: seq<Done>)
    requires Serial(d, log)
    ensures log <= more && |more| == |log| + 1 && more[|log|].pid == pid && more[|log|].op == op && Serial(d, more)
  {
    var e := Done(pid, op, Effect(op, Replay(d, log)).1);
    more := log + [e];
    SerialMore(d, log, e);
  }

  /** `out` goes on from `log` with these operations of this process, and nobody in between. */
  predicate GoesOn(log: seq<Done>, out: seq<Done>, ops: seq<Op>) {
    && log <= out && |out| == |log| + |ops|
    && forall k :: |log| <= k < |out| ==> out[k].pid == ME && out[k].op == ops[k - |log|]
  }

  lemma {:induction false} GoOnWith(d: Disk, log: seq<Done>, ops: seq<Op>) returns (out: seq<Done>)
    requires Serial(d, log)
    ensures Serial(d, out) && GoesOn(log, out, ops)
    decreases |ops|
  {
    if ops == [] { return log; }
    var so := GoOnWith(d, log, ops[..|ops| - 1]);
    out := GoOn(d, so, ME, ops[|ops| - 1]);
    forall k | |log| <= k < |out| ensures out[k].pid == ME && out[k].op == ops[k - |log|] {
      assert k < |so| ==> out[k] == so[k];
    }
  }

  /** These operations on one entry, each doing to it what `step` says. */
  function Steps(step: (Op, Option<Json>) -> Option<Json>, ops: seq<Op>, now: Option<Json>, p: string): Option<Json> {
    if ops == [] then now
    else
      var before, op := Steps(step, ops[..|ops| - 1], now, p), ops[|ops| - 1];
      if TargetOf(op) == Some(p) then step(op, before) else before
  }

  lemma {:induction false} SlotAfter(s: Option<Json>, log: seq<Done>, out: seq<Done>, ops: seq<Op>, p: string)
    requires GoesOn(log, out, ops)
    ensures ReplaySlot(s, out, p) == Steps(SlotStep, ops, ReplaySlot(s, log, p), p)
    decreases |ops|
  {
    if ops == [] {
      assert out == log;
    } else {
      var so := out[..|out| - 1];
      assert so[..|log|] == log;
      SlotAfter(s, log, so, ops[..|ops| - 1], p);
    }
  }

  function Flat(parts: seq<seq<Op>>): seq<Op> {
    if parts == [] then [] else Flat(parts[..|parts| - 1]) + parts[|parts| - 1]
  }

  lemma {:induction false} InFlat(parts: seq<seq<Op>>, op: Op)
    ensures op in Flat(parts) <==> exists i :: 0 <= i < |parts| && op in parts[i]
    decreases |parts|
  {
    if parts != [] {
      var before := parts[..|parts| - 1];
      InFlat(before, op);
      assert forall i :: 0 <= i < |parts| ==> parts[i] == if i < |before| then before[i] else parts[|parts| - 1];
    }
  }

  /** Each part is at most one operation, on its own provider. */
  predicate OneEach(parts: seq<seq<Op>>, names: seq<string>) {
    && |parts| <= |names| && (forall i, j :: 0 <= i < j < |names| ==> names[i] != names[j])
    && forall i :: 0 <= i < |parts| ==> |parts[i]| <= 1 && (parts[i] != [] ==> TargetOf(parts[i][0]) == Some(names[i]))
  }

  lemma StepsMore(step: (Op, Option<Json>) -> Option<Json>, ops: seq<Op>, more: seq<Op>, now: Option<Json>, p: string)
    requires |more| <= 1
    ensures Steps(step, ops + more, now, p) == Steps(step, more, Steps(step, ops, now, p), p)
  {
    if more == [] {
      assert ops + more == ops;
    } else {
      assert (ops + more)[..|ops|] == ops;
      assert more[..0] == [];
    }
  }

  /** Then an entry is reached by its own part only. */
  lemma {:induction false} FlatOnSlot(step: (Op, Option<Json>) -> Option<Json>, parts: seq<seq<Op>>, names: seq<string>, i: nat, now: Option<Json>)
    requires OneEach(parts, names) && i < |names|
    ensures Steps(step, Flat(parts), now, names[i]) == if i < |parts| then Steps(step, parts[i], now, names[i]) else now
    decreases |parts|
  {
    if parts != [] {
      var m := |parts| - 1;
      FlatOnSlot(step, parts[..m], names, i, now);
      StepsMore(step, Flat(parts[..m]), parts[m], now, names[i]);
      if i != m { OtherPart(step, parts[m], Steps(step, Flat(parts[..m]), now, names[i]), names[i]); }
    }
  }

  lemma OtherPart(step: (Op, Option<Json>) -> Option<Json>, part: seq<Op>, now: Option<Json>, p: string)
    requires |part| <= 1 && (part != [] ==> TargetOf(part[0]) != Some(p))
    ensures Steps(step, part, now, p) == now
  {
    if part != [] { assert part[..0] == []; }
  }

  /** What the undo does about each plan. */
  function RevertFor(d: Disk, base: string, plan: Plan, isProxy: string -> bool): (ops: seq<Op>)
    ensures |ops| <= 1 && (ops != [] ==> TargetOf(ops[0]) == Some(plan.provider))
  {
    if ToRevert(d, plan, isProxy) then [RevertOf(base, plan, Slot(d, plan.provider))] else []
  }

  function Reverts(d: Disk, base: string, planned: seq<Plan>, isProxy: string -> bool): (parts: seq<seq<Op>>)
    ensures |parts| == |planned|
    ensures forall i :: 0 <= i < |planned| ==> parts[i] == RevertFor(d, base, planned[i], isProxy)
  {
    seq(|planned|, i requires 0 <= i < |planned| => RevertFor(d, base, planned[i], isProxy))
  }

  lemma RevertsOnSlot(d: Disk, base: string, planned: seq<Plan>, isProxy: string -> bool, i: nat, now: Option<Json>)
    requires Distinct(planned) && i < |planned|
    ensures var p := planned[i].provider;
            Steps(SlotStep, Flat(Reverts(d, base, planned, isProxy)), now, p)
            == Steps(SlotStep, RevertFor(d, base, planned[i], isProxy), now, p)
  {
    var names := seq(|planned|, j requires 0 <= j < |planned| => planned[j].provider);
    FlatOnSlot(SlotStep, Reverts(d, base, planned, isProxy), names, i, now);
  }

  /** A lock that wrote this one entry and was cut then, with `before` done by others before it, and the undo. */
  lemma CutAfter(d: Disk, before: seq<Done>, base: string, planned: seq<Plan>, isProxy: string -> bool, i: nat)
    returns (put: seq<Done>, log: seq<Done>)
    requires Serial(d, before) && i < |planned| && forall j :: 0 <= j < |before| ==> before[j].pid != ME
    ensures Serial(d, log) && CutAndUndone(log, |before| + 1, d, base, planned, isProxy)
    ensures GoesOn(before, put, [SetOf(base, planned[i])]) && GoesOn(put, log, Flat(Reverts(d, base, planned, isProxy)))
  {
    put := GoOn(d, before, ME, SetOf(base, planned[i]));
    log := GoOnWith(d, put, Flat(Reverts(d, base, planned, isProxy)));
    OneSet(put, log, |before|, base, planned, i);
    RevertsAreDone(d, put, log, base, planned, isProxy);
  }

  /** What it makes of the entry. */
  lemma CutSlot(d: Disk, before: seq<Done>, put: seq<Done>, log: seq<Done>, base: string, planned: seq<Plan>, isProxy: string -> bool, i: nat)
    requires Distinct(planned) && i < |planned|
    requires GoesOn(before, put, [SetOf(base, planned[i])]) && GoesOn(put, log, Flat(Reverts(d, base, planned, isProxy)))
    ensures var p := planned[i].provider;
            var s := Slot(d, p);
            ReplaySlot(s, log, p)
            == Steps(SlotStep, RevertFor(d, base, planned[i], isProxy), SlotStep(SetOf(base, planned[i]), ReplaySlot(s, before, p)), p)
  {
    var (p, s) := (planned[i].provider, Slot(d, planned[i].provider));
    assert put[..|before|] == before;
    SlotAfter(s, put, log, Flat(Reverts(d, base, planned, isProxy)), p);
    RevertsOnSlot(d, base, planned, isProxy, i, ReplaySlot(s, put, p));
  }

  lemma OneSet(put: seq<Done>, log: seq<Done>, k: nat, base: string, planned: seq<Plan>, i: nat)
    requires i < |planned| && |put| == k + 1 && put <= log
    requires put[k].pid == ME && put[k].op == SetOf(base, planned[i]) && forall j :: 0 <= j < k ==> put[j].pid != ME
    ensures log[k].pid == ME && forall j :: 0 <= j < k + 1 && log[j].pid == ME ==> IsSet(log[j].op, base, planned)
  {
    assert IsSet(put[k].op, base, planned);
    forall j | 0 <= j < k + 1 ensures log[j] == put[j] {}
  }

  lemma RevertsAreDone(d: Disk, put: seq<Done>, log: seq<Done>, base: string, planned: seq<Plan>, isProxy: string -> bool)
    requires GoesOn(put, log, Flat(Reverts(d, base, planned, isProxy)))
    ensures forall j :: |put| <= j < |log| ==> log[j].pid == ME && IsRevert(log[j].op, d, base, planned, isProxy)
    ensures forall i :: 0 <= i < |planned| && ToRevert(d, planned[i], isProxy) ==> Reverted(log, |put|, d, base, planned[i])
  {
    var parts := Reverts(d, base, planned, isProxy);
    forall j | |put| <= j < |log| ensures log[j].pid == ME && IsRevert(log[j].op, d, base, planned, isProxy) {
      InFlat(parts, log[j].op);
    }
    forall i | 0 <= i < |planned| && ToRevert(d, planned[i], isProxy) ensures Reverted(log, |put|, d, base, planned[i]) {
      var op := RevertOf(base, planned[i], Slot(d, planned[i].provider));
      assert op in parts[i];
      InFlat(parts, op);
      var k :| 0 <= k < |Flat(parts)| && Flat(parts)[k] == op;
      assert RevertedAt(log, |put| + k, op);
    }
  }

  lemma SetThenGone(d: Disk, now: Option<Json>, base: string, plan: Plan, isProxy: string -> bool)
    requires !CanBePutBack(Slot(d, plan.provider)) && now.Some? && (now.value == Null || now.value.Obj?)
    ensures Steps(SlotStep, RevertFor(d, base, plan, isProxy), SlotStep(SetOf(base, plan), now), plan.provider).None?
  {
    assert RevertFor(d, base, plan, isProxy)[..0] == [];
  }

  predicate Alone(log: seq<Done>) { forall j :: 0 <= j < |log| ==> log[j].pid == ME }

  /** A run of the cut lock and its undo that goes wrong for provider `i`. */
  ghost predicate Loses(log: seq<Done>, a: nat, d: Disk, base: string, planned: seq<Plan>, isProxy: string -> bool, i: nat)
    requires i < |planned|
  {
    Serial(d, log) && CutAndUndone(log, a, d, base, planned, isProxy) && !OneOfThree(d, log, base, planned[i], isProxy)
  }

  lemma NothingLeft(log: seq<Done>, a: nat, d: Disk, base: string, planned: seq<Plan>, isProxy: string -> bool, i: nat)
    requires Readable(d) && i < |planned| && Serial(d, log) && CutAndUndone(log, a, d, base, planned, isProxy)
    requires var p := planned[i].provider;
             !CanBePutBack(Slot(d, p)) && ReplaySlot(Slot(d, p), log, p).None? && !LeftByOther(Slot(d, p), log, p, None)
    ensures Loses(log, a, d, base, planned, isProxy, i)
  {
    ProvidersAreIndependent(d, log, planned[i].provider);
  }

  /** A JSON null is lost with nobody else around: the lock overwrites it and the undo removes the entry. */
  lemma NullEntryIsLost(d: Disk, base: string, planned: seq<Plan>, isProxy: string -> bool, i: nat)
    requires Readable(d) && Distinct(planned) && i < |planned| && Slot(d, planned[i].provider) == Some(Null)
    ensures exists log :: Alone(log) && Loses(log, 1, d, base, planned, isProxy, i)
  {
    var put, log := CutAfter(d, [], base, planned, isProxy, i);
    CutSlot(d, [], put, log, base, planned, isProxy, i);
    SetThenGone(d, Some(Null), base, planned[i], isProxy);
    NothingLeft(log, 1, d, base, planned, isProxy, i);
    assert Alone(log) && Loses(log, 1, d, base, planned, isProxy, i);
  }

  /** If others only replaced the entry once, in the beginning, nobody but this process can have removed it. */
  lemma NotTheirDoing(s: Option<Json>, log: seq<Done>, p: string)
    requires |log| > 0 && log[0].op == ReplaceProvider(p, map[]) && forall j :: 1 <= j < |log| ==> log[j].pid == ME
    ensures !LeftByOther(s, log, p, None)
  {
    AtNext(s, log, p, 0);
    forall j: nat ensures !LeftBy(s, log, p, j, None) { assert 1 <= j < |log| ==> log[j].pid == ME; }
  }

  /** Any entry that is no object is lost when somebody replaced it by an object before the lock wrote. */
  lemma OddEntryIsLost(d: Disk, base: string, planned: seq<Plan>, isProxy: string -> bool, i: nat)
    requires Readable(d) && Distinct(planned) && i < |planned| && !CanBePutBack(Slot(d, planned[i].provider))
    ensures exists log :: Loses(log, 2, d, base, planned, isProxy, i)
  {
    var (p, s) := (planned[i].provider, Slot(d, planned[i].provider));
    var theirs := GoOn(d, [], OTHERS, ReplaceProvider(p, map[]));
    assert theirs[..0] == [];
    var put, log := CutAfter(d, theirs, base, planned, isProxy, i);
    CutSlot(d, theirs, put, log, base, planned, isProxy, i);
    SetThenGone(d, Some(Obj(map[])), base, planned[i], isProxy);
    assert log[0] == theirs[0];
    NotTheirDoing(s, log, p);
    NothingLeft(log, 2, d, base, planned, isProxy, i);
  }

  /** The undo is right for a provider in every run if and only if its entry was absent or an object. */
  lemma UndoneExactly(d: Disk, base: string, planned: seq<Plan>, isProxy: string -> bool, i: nat)
    requires Readable(d) && Distinct(planned) && i < |planned|
    ensures (forall log, a :: !Loses(log, a, d, base, planned, isProxy, i)) <==> CanBePutBack(Slot(d, planned[i].provider))
  {
    if CanBePutBack(Slot(d, planned[i].provider)) {
      forall log, a: nat ensures !Loses(log, a, d, base, planned, isProxy, i) {
        if CutAndUndone(log, a, d, base, planned, isProxy) { OnePlan(log, a, d, base, planned, isProxy, i); }
      }
    } else {
      OddEntryIsLost(d, base, planned, isProxy, i);
    }
  }

  /** An entry that is neither an object nor a null refuses both the lock's write and the undo's. */
  lemma {:induction false} OddEntryStays(s: Json, log: seq<Done>, p: string, put: Op, revert: Op, a: nat, k: nat)
    requires !s.Obj? && s != Null && k <= |log| && Alone(log)
    requires OnlySets(log, p, put, a) && OnlyReverts(log, p, revert, a) && put.SetProvider? && revert.RevertIfOurs?
    ensures At(Some(s), log, p, k) == Some(s)
    decreases k
  {
    if k > 0 {
      OddEntryStays(s, log, p, put, revert, a, k - 1);
      AtNext(Some(s), log, p, k - 1);
    } else {
      assert log[..0] == [];
    }
  }

  lemma AloneIsRight(log: seq<Done>, a: nat, d: Disk, base: string, planned: seq<Plan>, isProxy: string -> bool, i: nat)
    requires Readable(d) && Distinct(planned) && i < |planned| && Slot(d, planned[i].provider) != Some(Null)
    requires Alone(log) && CutAndUndone(log, a, d, base, planned, isProxy)
    ensures OneOfThree(d, log, base, planned[i], isProxy)
  {
    var (p, s) := (planned[i].provider, Slot(d, planned[i].provider));
    if CanBePutBack(s) {
      OnePlan(log, a, d, base, planned, isProxy, i);
    } else {
      MyOpsOn(log, a, d, base, planned, isProxy, i);
      OddEntryStays(s.value, log, p, SetOf(base, planned[i]), RevertOf(base, planned[i], s), a, |log|);
      ProvidersAreIndependent(d, log, p);
      assert log[..|log|] == log;
    }
  }

  /** With nobody else around, only a null is lost. */
  lemma UndoneAloneExactly(d: Disk, base: string, planned: seq<Plan>, isProxy: string -> bool, i: nat)
    requires Readable(d) && Distinct(planned) && i < |planned|
    ensures (forall log, a :: Alone(log) ==> !Loses(log, a, d, base, planned, isProxy, i))
            <==> Slot(d, planned[i].provider) != Some(Null)
  {
    if Slot(d, planned[i].provider) == Some(Null) {
      NullEntryIsLost(d, base, planned, isProxy, i);
    } else {
      forall log, a: nat | Alone(log) ensures !Loses(log, a, d, base, planned, isProxy, i) {
        if CutAndUndone(log, a, d, base, planned, isProxy) { AloneIsRight(log, a, d, base, planned, isProxy, i); }
      }
    }
  }

  // ----- The loops ---------------------------------------------------------------------------------

  datatype LoopEnd = Finished | Interrupted | WriteFailure

  /** The file has changed only through others and through operations `mine` allows. */
  twostate predicate Ran(f: ConfigFile, mine: Op -> bool)
    reads f
  {
    && f.Valid() && old(f.log) <= f.log
    && forall j :: |old(f.log)| <= j < |f.log| && f.log[j].pid == ME ==> mine(f.log[j].op)
  }

  /** No revert of this process was refused. */
  predicate NoneRefused(log: seq<Done>, from: nat) {
    forall j :: from <= j < |log| && log[j].pid == ME && log[j].op.RevertIfOurs? ==> !log[j].reply.Failed?
  }

  /** No write of this process met a JSON null on the way to the providers. */
  predicate NoneCrashed(log: seq<Done>, from: nat) {
    forall j :: from <= j < |log| && log[j].pid == ME ==> log[j].reply != Failed(NullCrash)
  }

  /** The body of the lock's loop: it may skip the provider; a JSON null in the file raises what nobody expects. */
  method LockOne(f: ConfigFile, base: string, planned: seq<Plan>, i: nat) returns (end: LoopEnd)
    requires f.Valid() && i < |planned|
    modifies f
    ensures Ran(f, op => IsSet(op, base, planned))
    ensures f.misses == old(f.misses) + if end == WriteFailure then 1 else 0
    ensures end == Interrupted <==> !NoneCrashed(f.log, |old(f.log)|)
  {
    var plan := planned[i];
    var skip: bool := *;  // unreadable, or an entry that is not to be adopted
    if skip { return Finished; }
    var reply := f.SetProvider(plan.provider, Change(OursUrl(base, plan.alias), Some(plan.shardA), plan.api, None));
    assert IsSet(SetOf(base, plan), base, planned);
    return if reply == Failed(WriteFailed) then WriteFailure else if reply == Failed(NullCrash) then Interrupted else Finished;
  }

  /** `_apply_lock_write_providers`: an interrupt may cut it before or after any write, and so may an exception. */
  method LockProviders(f: ConfigFile, base: string, planned: seq<Plan>) returns (end: LoopEnd)
    requires f.Valid()
    modifies f
    ensures Ran(f, op => IsSet(op, base, planned))
    ensures f.misses == old(f.misses) + if end == WriteFailure then 1 else 0
    ensures end != Interrupted ==> NoneCrashed(f.log, |old(f.log)|)
  {
    var i := 0;
    while i < |planned|
      invariant i <= |planned| && Ran(f, op => IsSet(op, base, planned))
      invariant f.misses == old(f.misses) && NoneCrashed(f.log, |old(f.log)|)
    {
      var cut: bool := *;
      if cut { return Interrupted; }
      end := LockOne(f, base, planned, i);
      if end != Finished { return end; }
      i := i + 1;
    }
    var cut: bool := *;
    return if cut then Interrupted else Finished;
  }

  /** Others, and then this operation, unless a lock or a write failed before it had any effect. */
  predicate OneTry(was: seq<Done>, now: seq<Done>, op: Op, reply: Reply, missed: bool) {
    && was <= now
    && if missed then reply.Failed? && forall k :: |was| <= k < |now| ==> now[k].pid != ME
       else
         && |now| > |was| && now[|now| - 1] == Done(ME, op, reply)
         && forall k :: |was| <= k < |now| - 1 ==> now[k].pid != ME
  }

  /** The undo after `m` plans: reverts only, and if none was refused all of them. */
  ghost predicate UndoSo(log: seq<Done>, a: nat, d: Disk, base: string, planned: seq<Plan>, isProxy: string -> bool, m: nat, missed: bool)
    requires m <= |planned|
  {
    && a <= |log|
    && (forall j :: a <= j < |log| && log[j].pid == ME ==> IsRevert(log[j].op, d, base, planned, isProxy))
    && (!missed && NoneRefused(log, a) ==>
          forall i :: 0 <= i < m && ToRevert(d, planned[i], isProxy) ==> Reverted(log, a, d, base, planned[i]))
  }

  lemma RefusedSince(was: seq<Done>, now: seq<Done>, a: nat, op: Op, reply: Reply, missed: bool)
    requires a <= |was| && op.RevertIfOurs? && OneTry(was, now, op, reply, missed)
    ensures NoneRefused(now, a) <==> NoneRefused(was, a) && (missed || !reply.Failed?)
  {
    assert forall j :: 0 <= j < |was| ==> now[j] == was[j];
  }

  lemma StillReverted(was: seq<Done>, now: seq<Done>, a: nat, d: Disk, base: string, planned: seq<Plan>, isProxy: string -> bool, i: nat)
    requires was <= now && i <= |planned|
    ensures forall k :: 0 <= k < i && Reverted(was, a, d, base, planned[k]) ==> Reverted(now, a, d, base, planned[k])
  {
    forall k | 0 <= k < i && Reverted(was, a, d, base, planned[k]) ensures Reverted(now, a, d, base, planned[k]) {
      var op := RevertOf(base, planned[k], Slot(d, planned[k].provider));
      var r :| a <= r && RevertedAt(was, r, op);
      assert RevertedAt(now, r, op);
    }
  }

  lemma UndoNext(was: seq<Done>, now: seq<Done>, a: nat, d: Disk, base: string, planned: seq<Plan>, isProxy: string -> bool,
                 i: nat, op: Op, reply: Reply, missed: bool, missedNow: bool)
    requires i < |planned| && UndoSo(was, a, d, base, planned, isProxy, i, missed) && ToRevert(d, planned[i], isProxy)
    requires op == RevertOf(base, planned[i], Slot(d, planned[i].provider)) && OneTry(was, now, op, reply, missedNow)
    ensures UndoSo(now, a, d, base, planned, isProxy, i + 1, missed || missedNow)
    ensures NoneRefused(now, a) <==> NoneRefused(was, a) && (missedNow || !reply.Failed?)
  {
    RefusedSince(was, now, a, op, reply, missedNow);
    StillReverted(was, now, a, d, base, planned, isProxy, i);
    assert IsRevert(op, d, base, planned, isProxy);
    assert !missedNow ==> RevertedAt(now, |now| - 1, op);
  }

  method RevertOne(f: ConfigFile, base: string, plan: Plan, before: Option<Json>) returns (reply: Reply)
    requires f.Valid()
    modifies f
    ensures f.Valid() && old(f.misses) <= f.misses
    ensures OneTry(old(f.log), f.log, RevertOf(base, plan, before), reply, f.misses > old(f.misses))
  {
    reply := f.RevertIfOurs(plan.provider, OursUrl(base, plan.alias), PriorOf(before));
  }

  /** The body of the undo's loop; `missed` says whether an earlier round had no effect. */
  method UndoOne(f: ConfigFile, d: Disk, base: string, planned: seq<Plan>, isProxy: string -> bool, i: nat, ghost a: nat, ghost missed: bool)
    returns (reply: Reply)
    requires f.Valid() && i < |planned| && UndoSo(f.log, a, d, base, planned, isProxy, i, missed)
    modifies f
    ensures f.Valid() && old(f.log) <= f.log && old(f.misses) <= f.misses
    ensures UndoSo(f.log, a, d, base, planned, isProxy, i + 1, missed || f.misses > old(f.misses))
    ensures f.misses == old(f.misses) && NoneRefused(f.log, a) <==> NoneRefused(old(f.log), a) && !reply.Failed?
  {
    var before := Slot(d, planned[i].provider);
    if OursBefore(before, planned[i].alias, isProxy) { return Changed(true); }
    reply := RevertOne(f, base, planned[i], before);
    UndoNext(old(f.log), f.log, a, d, base, planned, isProxy, i, RevertOf(base, planned[i], before), reply,
             missed, f.misses > old(f.misses));
  }

  /** `_undo_own_provider_writes` with a readable snapshot `d`. */
  method UndoOwnProviderWrites(f: ConfigFile, d: Disk, base: string, planned: seq<Plan>, isProxy: string -> bool)
    returns (done: bool)
    requires f.Valid()
    modifies f
    ensures Ran(f, op => IsRevert(op, d, base, planned, isProxy))
    ensures done <==> f.misses == old(f.misses) && NoneRefused(f.log, |old(f.log)|)
    ensures done ==> forall i :: 0 <= i < |planned| && ToRevert(d, planned[i], isProxy) ==>
                       Reverted(f.log, |old(f.log)|, d, base, planned[i])
  {
    done := true;
    ghost var a := |f.log|;
    var i := 0;
    while i < |planned|
      invariant f.Valid() && i <= |planned| && old(f.log) <= f.log && old(f.misses) <= f.misses
      invariant UndoSo(f.log, a, d, base, planned, isProxy, i, f.misses > old(f.misses))
      invariant done <==> f.misses == old(f.misses) && NoneRefused(f.log, a)
    {
      var reply := UndoOne(f, d, base, planned, isProxy, i, a, f.misses > old(f.misses));
      if reply.Failed? { done := false; }
      if reply == Failed(TimedOut) { return; }
      i := i + 1;
    }
  }

  /** `_apply_lock_stage_a`: if the loop is cut, and only then, the undo. */
  method InterruptedLock(f: ConfigFile, base: string, planned: seq<Plan>, isProxy: string -> bool) returns (end: LoopEnd)
    requires f.Valid() && f.log == [] && Snapshot(f.disk) && Distinct(planned)
    modifies f
    ensures f.Valid()
    ensures end == WriteFailure ==> f.misses > old(f.misses)
    ensures end != Interrupted ==> Ran(f, op => IsSet(op, base, planned)) && NoneCrashed(f.log, 0)
    ensures end == Interrupted && f.misses == old(f.misses) && NoneRefused(f.log, 0) ==>
              forall i :: 0 <= i < |planned| && CanBePutBack(Slot(old(f.disk), planned[i].provider)) ==>
                OneOfThree(old(f.disk), f.log, base, planned[i], isProxy)
  {
    var d := f.disk;
    end := LockProviders(f, base, planned);
    if end != Interrupted { return; }
    ghost var a := |f.log|;
    ghost var cutLog := f.log;
    var done := UndoOwnProviderWrites(f, d, base, planned, isProxy);
    assert forall j :: 0 <= j < a ==> f.log[j] == cutLog[j];
    if done {
      assert CutAndUndone(f.log, a, d, base, planned, isProxy);
      InterruptIsUndone(f.log, a, d, base, planned, isProxy, "");
    }
  }
}
