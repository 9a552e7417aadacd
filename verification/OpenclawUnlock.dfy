/**
 * `apply_unlock` of `src/worthless/openclaw/integration.py`: every provider's original entry is put back
 * first, a failed write takes all of them back, and only then may plaintext reach the agent caches.
 */
module OpenclawUnlock {
  import opened Common
  import opened Json
  import opened OpenclawConfig
  import opened ConfigProtocol
  import opened OpenclawFile
  import opened OpenclawRollback

  type Byte = x: int | 0 <= x < 256

  /** One provider to restore; the key buffer is zeroed in place once it has been used. */
  datatype OcRestore = OcRestore(
    provider: string,
    record: Option<Json>,
    key: Option<array<Byte>>,
    expectedMac: Option<Tag>,
    recomputedMac: Option<Tag>,
    varName: string
  )

  /** What Stage A is to do for one provider. */
  datatype Verdict = NothingCaptured | Refuse | Write(entry: Fields)

  /** The key as text; None if there is no key, or the bytes are no UTF-8. */
  function KeyText(r: OcRestore, decode: seq<Byte> -> Option<string>): Option<string>
    reads if r.key.Some? then {r.key.value} else {}
  {
    if r.key.Some? then decode(r.key.value[..]) else None
  }

  /** The part of Stage A before the write: it fails closed. */
  function Judge(r: OcRestore, decode: seq<Byte> -> Option<string>): Verdict
    reads if r.key.Some? then {r.key.value} else {}
  {
    match r.record
    case None => if r.expectedMac.None? then NothingCaptured else Refuse
    case Some(record) =>
      var entry := RestoreRecord(record, r.expectedMac, r.recomputedMac, KeyText(r, decode));
      if entry.Ok? then Write(entry.value) else Refuse
  }

  // ----- The agent caches ------------------------------------------------------------------------

  /** The agents' own stores: the providers whose key has been written back to them in plaintext. */
  class AgentCaches {
    var plain: set<string>
    /** Every key that was to be written, in order. */
    ghost var tried: seq<(string, string)>

    /** `restore_agent_auth_stores`: best effort. */
    method Restore(provider: string, text: string)
      modifies this
      ensures old(plain) <= plain <= old(plain) + {provider}
      ensures tried == old(tried) + [(provider, text)]
    {
      var ok: bool := *;
      if ok { plain := plain + {provider}; }
      tried := tried + [(provider, text)];
    }
  }

  predicate AllZero(a: array<Byte>)
    reads a
  {
    forall i :: 0 <= i < a.Length ==> a[i] == 0
  }

  function Buffers(rs: seq<OcRestore>): set<array<Byte>> {
    set i | 0 <= i < |rs| && rs[i].key.Some? :: rs[i].key.value
  }

  predicate KeyZero(r: OcRestore)
    reads if r.key.Some? then {r.key.value} else {}
  {
    r.key.Some? ==> AllZero(r.key.value)
  }

  /** `zero_buf`. */
  method ZeroBuf(a: array<Byte>)
    modifies a
    ensures AllZero(a)
  {
    for i := 0 to a.Length
      invariant forall j :: 0 <= j < i ==> a[j] == 0
    {
      a[i] := 0;
    }
  }

  method ZeroAll(rs: seq<OcRestore>)
    modifies Buffers(rs)
    ensures forall i :: 0 <= i < |rs| ==> KeyZero(rs[i])
  {
    for i := 0 to |rs|
      invariant forall j :: 0 <= j < i ==> KeyZero(rs[j])
    {
      if rs[i].key.Some? {
        assert rs[i].key.value in Buffers(rs);
        ZeroBuf(rs[i].key.value);
      }
    }
  }

  predicate Eligible(provider: string, eligible: Option<set<string>>) {
    eligible.None? || provider in eligible.value
  }

  /** A key that was there, and may go, for this provider. */
  predicate MayBePlain(provider: string, rs: seq<OcRestore>, eligible: Option<set<string>>) {
    Eligible(provider, eligible) && exists i :: 0 <= i < |rs| && rs[i].provider == provider && rs[i].key.Some?
  }

  /** The keys the first `m` records put into caches. */
  function CacheWrites(rs: seq<OcRestore>, eligible: Option<set<string>>, decode: seq<Byte> -> Option<string>, m: nat): seq<(string, string)>
    requires m <= |rs|
    reads set i | 0 <= i < m && rs[i].key.Some? :: rs[i].key.value
  {
    if m == 0 then []
    else
      var r := rs[m - 1];
      var text := KeyText(r, decode);
      CacheWrites(rs, eligible, decode, m - 1)
      + if Eligible(r.provider, eligible) && r.varName != "" && text.Some? then [(r.provider, text.value)] else []
  }

  /** The loop of `_restore_agent_auth_stores_after_unlock`. */
  method RestoreCaches(caches: AgentCaches, rs: seq<OcRestore>, hasHome: bool, eligible: Option<set<string>>,
                       decode: seq<Byte> -> Option<string>)
    modifies caches
    ensures old(caches.plain) <= caches.plain
    ensures forall p :: p in caches.plain - old(caches.plain) ==> MayBePlain(p, rs, eligible)
    ensures caches.tried == old(caches.tried) + if hasHome then CacheWrites(rs, eligible, decode, |rs|) else []
  {
    if !hasHome { return; }
    for i := 0 to |rs|
      invariant old(caches.plain) <= caches.plain
      invariant forall p :: p in caches.plain - old(caches.plain) ==> MayBePlain(p, rs, eligible)
      invariant caches.tried == old(caches.tried) + CacheWrites(rs, eligible, decode, i)
    {
      var r := rs[i];
      if Eligible(r.provider, eligible) && r.varName != "" && r.key.Some? {
        var text := KeyText(r, decode);
        if text.Some? {
          assert MayBePlain(r.provider, rs, eligible);
          caches.Restore(r.provider, text.value);
        }
      }
    }
  }

  /** `_agent_cache_eligible_providers`. */
  function EligibleProviders(rs: seq<OcRestore>, stageARan: bool, rollback: bool, blocked: set<string>): Option<set<string>> {
    if !stageARan then None
    else if rollback then Some({})
    else Some((set i | 0 <= i < |rs| :: rs[i].provider) - blocked)
  }

  // ----- What this process did, read off the history -----------------------------------------------

  /** How one provider ended; `Raised` is an exception that nothing in `apply_unlock` catches. */
  datatype End = Nothing | Written | Blocked | Failure | Raised

  /** `except OpenclawConfigError`, `except OSError`, and what neither catches. */
  function EndOf(reply: Reply): End {
    match reply
    case Failed(ConfigError) => Blocked
    case Failed(NullCrash) => Raised
    case Failed(_) => Failure
    case _ => Written
  }

  /** This process's operations from `from` on. */
  function MyDone(log: seq<Done>, from: nat): (mine: seq<Done>)
    ensures forall k :: 0 <= k < |mine| ==> mine[k].pid == ME && mine[k] in log
  {
    if |log| <= from then []
    else
      var e := log[|log| - 1];
      MyDone(log[..|log| - 1], from) + if e.pid == ME then [e] else []
  }

  /** The providers whose operations ended like that, in order. */
  function Names(mine: seq<Done>, end: End): seq<string> {
    if mine == [] then []
    else
      var e := mine[|mine| - 1];
      Names(mine[..|mine| - 1], end)
      + if e.op.ReplaceProvider? && EndOf(e.reply) == end then [e.op.provider] else []
  }

  function ToSet(names: seq<string>): set<string> { set p | p in names }

  /** The writes the first `m` records ask for. */
  function Writes(rs: seq<OcRestore>, verdicts: seq<Verdict>, m: nat): (ops: seq<Op>)
    requires m <= |rs| == |verdicts|
    ensures forall k :: 0 <= k < |ops| ==> ops[k].ReplaceProvider?
    ensures ops == [] <==> forall k :: 0 <= k < m ==> !verdicts[k].Write?
  {
    if m == 0 then []
    else
      Writes(rs, verdicts, m - 1)
      + if verdicts[m - 1].Write? then [ReplaceProvider(rs[m - 1].provider, verdicts[m - 1].entry)] else []
  }

  /** The providers whose record is refused, among the first `m`. */
  function Refused(rs: seq<OcRestore>, verdicts: seq<Verdict>, m: nat): set<string>
    requires m <= |rs| == |verdicts|
  {
    set k | 0 <= k < m && verdicts[k].Refuse? :: rs[k].provider
  }

  predicate Did(mine: seq<Done>, ops: seq<Op>) {
    |mine| == |ops| && forall k :: 0 <= k < |ops| ==> mine[k].op == ops[k]
  }

  /** Only others between `from` and `to`. */
  predicate OthersOnly(log: seq<Done>, from: nat, to: nat) {
    from <= to <= |log| && forall k :: from <= k < to ==> log[k].pid == OTHERS
  }

  ghost predicate Answered(d: Disk, log: seq<Done>, from: nat) {
    forall k :: from <= k < |log| && log[k].pid == ME ==> AnswersInOrder(d, log, k)
  }

  lemma {:induction false} OthersAddNothing(was: seq<Done>, now: seq<Done>, from: nat)
    requires was <= now && from <= |was| && OthersOnly(now, |was|, |now|)
    ensures MyDone(now, from) == MyDone(was, from)
    decreases |now|
  {
    if |was| == |now| {
      assert was == now;
    } else {
      assert now[..|now| - 1][..|was|] == was;
      OthersAddNothing(was, now[..|now| - 1], from);
    }
  }

  lemma OneMore(was: seq<Done>, now: seq<Done>, from: nat)
    requires was <= now && from <= |was| < |now| && OthersOnly(now, |was|, |now| - 1) && now[|now| - 1].pid == ME
    ensures MyDone(now, from) == MyDone(was, from) + [now[|now| - 1]]
  {
    var before := now[..|now| - 1];
    assert before[..|was|] == was;
    OthersAddNothing(was, before, from);
  }

  lemma {:induction false} NothingYet(log: seq<Done>, from: nat)
    requires OthersOnly(log, from, |log|)
    ensures MyDone(log, from) == []
    decreases |log|
  {
    if |log| > from { NothingYet(log[..|log| - 1], from); }
  }

  /** Where this process starts counting does not matter as long as only others have run. */
  lemma {:induction false} CountLater(log: seq<Done>, from: nat, to: nat)
    requires OthersOnly(log, from, to)
    ensures MyDone(log, from) == MyDone(log, to)
    decreases |log|
  {
    if |log| > to {
      CountLater(log[..|log| - 1], from, to);
    } else {
      NothingYet(log, from);
    }
  }

  lemma AnsweredMore(d: Disk, was: seq<Done>, now: seq<Done>, from: nat)
    requires was <= now && from <= |was| && Answered(d, was, from) && Answered(d, now, |was|)
    ensures Answered(d, now, from)
  {
    forall k | from <= k < |now| && now[k].pid == ME ensures AnswersInOrder(d, now, k) {
      if k < |was| {
        assert AnswersInOrder(d, was, k);
        assert now[..k] == was[..k];
      }
    }
  }

  lemma NamesMore(mine: seq<Done>, e: Done, end: End)
    ensures Names(mine + [e], end)
            == Names(mine, end) + if e.op.ReplaceProvider? && EndOf(e.reply) == end then [e.op.provider] else []
  {
    assert (mine + [e])[..|mine|] == mine;
  }

  // ----- Where a restore crashes ----------------------------------------------------------------

  /** A file that a write of an entry crashes on. */
  predicate NullFile(d: Disk) { d.Plain? && NullOnTheWay(d.doc) }

  lemma CrashExactly(d: Disk, p: string, entry: Fields)
    ensures EffectOfReplace(d, p, entry).1 == Failed(NullCrash) <==> NullFile(d)
    ensures NullFile(EffectOfReplace(d, p, entry).0) <==> NullFile(d)
  {
    if d.Plain? {
      CrashesOnNull(d.doc);
      var out := WithProviders(d.doc, Providers(d)[p := Obj(entry)]);
      ProvidersWritten(d.doc, Providers(d)[p := Obj(entry)]);
      CrashesOnNull(out);
    }
    ProvidersWritten(map[], map[p := Obj(entry)]);
    CrashesOnNull(WithProviders(map[], map[p := Obj(entry)]));
  }

  /** Files a user may well have: `{"models": null}` and `{"models": {"providers": null}}`. */
  lemma NullFilesCrash(p: string, entry: Fields)
    ensures EffectOfReplace(Plain(map["models" := Null]), p, entry).1 == Failed(NullCrash)
    ensures EffectOfReplace(Plain(map["models" := Obj(map["providers" := Null])]), p, entry).1 == Failed(NullCrash)
  {
    CrashExactly(Plain(map["models" := Null]), p, entry);
    CrashExactly(Plain(map["models" := Obj(map["providers" := Null])]), p, entry);
  }

  /** This process's operation `k` found a null on the way to the providers. */
  predicate MetNull(d: Disk, log: seq<Done>, k: nat) {
    k < |log| && log[k].pid == ME && NullFile(Replay(d, log[..k]))
  }

  ghost predicate MeetsNull(d: Disk, log: seq<Done>, from: nat) { exists k :: from <= k && MetNull(d, log, k) }

  predicate Replaces(log: seq<Done>, from: nat) {
    forall k :: from <= k < |log| && log[k].pid == ME ==> log[k].op.ReplaceProvider?
  }

  lemma AnsweredBefore(d: Disk, log: seq<Done>, from: nat)
    requires Answered(d, log, from) && log != []
    ensures Answered(d, log[..|log| - 1], from)
  {
    var before := log[..|log| - 1];
    forall k | from <= k < |before| && before[k].pid == ME ensures AnswersInOrder(d, before, k) {
      assert AnswersInOrder(d, log, k);
      assert before[..k] == log[..k];
    }
  }

  lemma MeetsNullStep(d: Disk, log: seq<Done>, from: nat)
    requires |log| > from
    ensures MeetsNull(d, log, from) <==> MeetsNull(d, log[..|log| - 1], from) || MetNull(d, log, |log| - 1)
  {
    var before := log[..|log| - 1];
    forall k | from <= k < |before| ensures MetNull(d, before, k) <==> MetNull(d, log, k) {
      assert before[..k] == log[..k];
    }
  }

  lemma RaisedExactly(d: Disk, log: seq<Done>, k: nat)
    requires k < |log| && log[k].op.ReplaceProvider? && AnswersInOrder(d, log, k)
    ensures EndOf(log[k].reply) == Raised <==> NullFile(Replay(d, log[..k]))
  {
    CrashExactly(Replay(d, log[..k]), log[k].op.provider, log[k].op.entry);
  }

  lemma RaisedLast(d: Disk, log: seq<Done>, from: nat)
    requires |log| > from && Answered(d, log, from) && Replaces(log, from)
    ensures var mine, before := MyDone(log, from), MyDone(log[..|log| - 1], from);
            Names(mine, Raised) != [] <==> Names(before, Raised) != [] || MetNull(d, log, |log| - 1)
  {
    var before, e := log[..|log| - 1], log[|log| - 1];
    assert e.pid == ME ==> AnswersInOrder(d, log, |log| - 1);
    if e.pid == ME {
      RaisedExactly(d, log, |log| - 1);
      NamesMore(MyDone(before, from), e, Raised);
      assert MyDone(log, from) == MyDone(before, from) + [e];
    } else {
      assert MyDone(log, from) == MyDone(before, from);
    }
  }

  /** The exception is raised if and only if a write reaches such a file. */
  lemma {:induction false} CrashIsMet(d: Disk, log: seq<Done>, from: nat)
    requires Answered(d, log, from) && Replaces(log, from)
    ensures Names(MyDone(log, from), Raised) != [] <==> MeetsNull(d, log, from)
    decreases |log|
  {
    if |log| > from {
      AnsweredBefore(d, log, from);
      CrashIsMet(d, log[..|log| - 1], from);
      MeetsNullStep(d, log, from);
      RaisedLast(d, log, from);
    }
  }

  lemma {:induction false} StaysSound(d: Disk, log: seq<Done>, from: nat, k: nat)
    requires from <= k <= |log| && Replaces(log, from) && forall j :: from <= j < |log| ==> log[j].pid == ME
    ensures NullFile(Replay(d, log[..k])) <==> NullFile(Replay(d, log[..from]))
    decreases k
  {
    if k > from {
      StaysSound(d, log, from, k - 1);
      var op := log[k - 1].op;
      assert log[..k][..k - 1] == log[..k - 1];
      CrashExactly(Replay(d, log[..k - 1]), op.provider, op.entry);
    }
  }

  /** If nobody interferes, the file before decides: it meets a null if and only if there is one and a write. */
  lemma AloneMeetsNull(d: Disk, log: seq<Done>, from: nat)
    requires from <= |log| && Replaces(log, from) && forall j :: from <= j < |log| ==> log[j].pid == ME
    ensures MeetsNull(d, log, from) <==> |log| > from && NullFile(Replay(d, log[..from]))
  {
    forall k | from <= k < |log| ensures MetNull(d, log, k) <==> NullFile(Replay(d, log[..from])) {
      StaysSound(d, log, from, k);
    }
    if |log| > from && NullFile(Replay(d, log[..from])) { assert MetNull(d, log, from); }
  }

  // ----- Stage A ---------------------------------------------------------------------------------

  ghost predicate Judged(rs: seq<OcRestore>, verdicts: seq<Verdict>, decode: seq<Byte> -> Option<string>)
    reads Buffers(rs)
  {
    |verdicts| == |rs| &&
    forall i :: 0 <= i < |rs| ==> (rs[i].key.Some? ==> rs[i].key.value in Buffers(rs)) && SameVerdict(rs, verdicts, i, decode)
  }

  ghost predicate SameVerdict(rs: seq<OcRestore>, verdicts: seq<Verdict>, i: nat, decode: seq<Byte> -> Option<string>)
    requires i < |rs| == |verdicts|
    reads if rs[i].key.Some? then {rs[i].key.value} else {}
  {
    verdicts[i] == Judge(rs[i], decode)
  }

  /** The history has grown, and this process's new operations answered what the file then made them answer. */
  twostate predicate Grown(f: ConfigFile)
    reads f
  {
    old(f.log) <= f.log && Answered(f.start, f.log, |old(f.log)|)
  }

  /** What one record leads to: one write if it asks for one, which may fail before it has any effect. */
  predicate OneDone(was: seq<Done>, now: seq<Done>, provider: string, verdict: Verdict, end: End) {
    && was <= now
    && match verdict
       case NothingCaptured => end == Nothing && now == was
       case Refuse => end == Blocked && now == was
       case Write(entry) =>
         if end == Failure then OthersOnly(now, |was|, |now|)
         else
           && |now| > |was| && OthersOnly(now, |was|, |now| - 1)
           && var e := now[|now| - 1]; e.pid == ME && e.op == ReplaceProvider(provider, entry) && end == EndOf(e.reply)
  }

  method RestoreOne(f: ConfigFile, rs: seq<OcRestore>, decode: seq<Byte> -> Option<string>, ghost verdicts: seq<Verdict>, i: nat)
    returns (end: End)
    requires f.Valid() && i < |rs| && Judged(rs, verdicts, decode)
    modifies f
    ensures f.Valid() && Grown(f) && f.rollbacks == old(f.rollbacks)
    ensures OneDone(old(f.log), f.log, rs[i].provider, verdicts[i], end)
    ensures f.misses == old(f.misses) + if end == Failure then 1 else 0
  {
    assert SameVerdict(rs, verdicts, i, decode);
    var verdict := Judge(rs[i], decode);
    match verdict
    case NothingCaptured => return Nothing;
    case Refuse => return Blocked;
    case Write(entry) =>
      var reply := f.ReplaceProvider(rs[i].provider, entry);
      return EndOf(reply);
  }

  datatype StageEnd = Completed | NeedsRollback | Crashed

  /** What Stage A did and reported, after `m` records: the writes of those records, in order, and nothing else. */
  ghost predicate Account(mine: seq<Done>, rs: seq<OcRestore>, verdicts: seq<Verdict>, m: nat, restored: seq<string>, blocked: set<string>)
    requires m <= |rs| == |verdicts|
  {
    && Did(mine, Writes(rs, verdicts, m))
    && restored == Names(mine, Written)
    && blocked == Refused(rs, verdicts, m) + ToSet(Names(mine, Blocked))
  }

  lemma RefusedMore(rs: seq<OcRestore>, verdicts: seq<Verdict>, i: nat)
    requires i < |rs| == |verdicts|
    ensures Refused(rs, verdicts, i + 1)
            == Refused(rs, verdicts, i) + (if verdicts[i].Refuse? then {rs[i].provider} else {})
  {
  }

  lemma ToSetMore(names: seq<string>, p: string)
    ensures ToSet(names + [p]) == ToSet(names) + {p}
  {
  }

  /** Nothing was done for record `i`. */
  lemma AccountSame(mine: seq<Done>, rs: seq<OcRestore>, verdicts: seq<Verdict>, i: nat, restored: seq<string>, blocked: set<string>)
    requires i < |rs| == |verdicts| && Account(mine, rs, verdicts, i, restored, blocked) && !verdicts[i].Write?
    ensures Account(mine, rs, verdicts, i + 1, restored,
                    if verdicts[i].Refuse? then blocked + {rs[i].provider} else blocked)
  {
    RefusedMore(rs, verdicts, i);
  }

  /** Its write was tried. */
  lemma AccountMore(mine: seq<Done>, e: Done, rs: seq<OcRestore>, verdicts: seq<Verdict>, i: nat,
                    restored: seq<string>, blocked: set<string>)
    requires i < |rs| == |verdicts| && Account(mine, rs, verdicts, i, restored, blocked) && verdicts[i].Write?
    requires e.op == ReplaceProvider(rs[i].provider, verdicts[i].entry)
    ensures Account(mine + [e], rs, verdicts, i + 1,
                    if EndOf(e.reply) == Written then restored + [rs[i].provider] else restored,
                    if EndOf(e.reply) == Blocked then blocked + {rs[i].provider} else blocked)
  {
    RefusedMore(rs, verdicts, i);
    NamesMore(mine, e, Written);
    NamesMore(mine, e, Blocked);
    ToSetMore(Names(mine, Blocked), rs[i].provider);
  }

  function Restored(before: seq<string>, p: string, end: End): seq<string> { if end == Written then before + [p] else before }

  function BlockedToo(before: set<string>, p: string, end: End): set<string> { if end == Blocked then before + {p} else before }

  lemma AccountNext(was: seq<Done>, now: seq<Done>, from: nat, rs: seq<OcRestore>, verdicts: seq<Verdict>, i: nat,
                    restored: seq<string>, blocked: set<string>, end: End)
    requires i < |rs| == |verdicts| && from <= |was| && OneDone(was, now, rs[i].provider, verdicts[i], end)
    requires Account(MyDone(was, from), rs, verdicts, i, restored, blocked) && Names(MyDone(was, from), Raised) == []
    ensures end == Failure ==> verdicts[i].Write? && Account(MyDone(now, from), rs, verdicts, i, restored, blocked)
    ensures end != Failure ==> Account(MyDone(now, from), rs, verdicts, i + 1, Restored(restored, rs[i].provider, end),
                                       BlockedToo(blocked, rs[i].provider, end))
    ensures end == Raised <==> Names(MyDone(now, from), Raised) != []
  {
    if end == Failure {
      OthersAddNothing(was, now, from);
    } else if verdicts[i].Write? {
      OneMore(was, now, from);
      AccountMore(MyDone(was, from), now[|now| - 1], rs, verdicts, i, restored, blocked);
      NamesMore(MyDone(was, from), now[|now| - 1], Raised);
    } else {
      AccountSame(MyDone(was, from), rs, verdicts, i, restored, blocked);
    }
  }

  /** `_apply_unlock_stage_a`. */
  method StageA(f: ConfigFile, rs: seq<OcRestore>, decode: seq<Byte> -> Option<string>, ghost verdicts: seq<Verdict>)
    returns (end: StageEnd, restored: seq<string>, blocked: set<string>, m: nat)
    requires f.Valid() && Judged(rs, verdicts, decode)
    modifies f
    ensures f.Valid() && Grown(f) && f.rollbacks == old(f.rollbacks)
    ensures m <= |rs| && Account(MyDone(f.log, |old(f.log)|), rs, verdicts, m, restored, blocked)
    ensures end == Completed ==> m == |rs|
    ensures end == NeedsRollback ==> m < |rs| && verdicts[m].Write?
    ensures f.misses == old(f.misses) + if end == NeedsRollback then 1 else 0
    ensures end == Crashed <==> Names(MyDone(f.log, |old(f.log)|), Raised) != []
  {
    restored, blocked, m := [], {}, 0;
    ghost var from := |f.log|;
    NothingYet(f.log, from);
    while m < |rs|
      invariant m <= |rs| && f.Valid() && Grown(f) && Judged(rs, verdicts, decode)
      invariant f.rollbacks == old(f.rollbacks) && f.misses == old(f.misses)
      invariant Account(MyDone(f.log, from), rs, verdicts, m, restored, blocked)
      invariant Names(MyDone(f.log, from), Raised) == []
    {
      ghost var was := f.log;
      var one := RestoreOne(f, rs, decode, verdicts, m);
      AnsweredMore(f.start, was, f.log, from);
      AccountNext(was, f.log, from, rs, verdicts, m, restored, blocked, one);
      if one == Failure { return NeedsRollback, restored, blocked, m; }
      restored, blocked := Restored(restored, rs[m].provider, one), BlockedToo(blocked, rs[m].provider, one);
      m := m + 1;
      if one == Raised { return Crashed, restored, blocked, m; }
    }
    return Completed, restored, blocked, m;
  }

  // ----- The whole unlock --------------------------------------------------------------------------

  /** `_classify_config_state`. */
  datatype ConfigState = Missing | OtherOwner | Present

  /** What unlock finds before it reads the file. */
  datatype Surroundings = Surroundings(openclawPresent: bool, isLink: bool, config: ConfigState, hasHome: bool)

  /** What happened: whether Stage A ran, and how it ended. */
  datatype Report = Report(stageARan: bool, end: StageEnd, rolledBack: bool, snapshot: Option<Fields>, blocked: set<string>)

  const NOT_RUN := Report(false, Completed, false, None, {})

  function SnapshotOf(d: Disk): Option<Fields> {
    var data := ReadConfig(d, false);
    if data.Ok? then Some(data.value) else None
  }

  /** `_unlock_snapshot`: a file this user may not read skips Stage A. */
  method TakeSnapshot(f: ConfigFile) returns (snapshot: Option<Fields>, skip: bool)
    requires f.Valid()
    modifies f
    ensures f.OthersRan()
    ensures snapshot == SnapshotOf(f.disk)
    ensures skip <==> f.disk.Hidden?
  {
    f.Others();
    var data := ReadConfig(f.disk, false);
    if data.Ok? { return Some(data.value), false; }
    return None, f.disk.Hidden?;
  }

  /** `rollback_config`: the whole snapshot in place of whatever is there by then, without the flock; or nothing. */
  method Rollback(f: ConfigFile, snapshot: Fields) returns (ok: bool)
    requires f.Valid()
    modifies f
    ensures old(f.log) <= f.log && OthersOnly(f.log, |old(f.log)|, |f.log|)
    ensures if ok then f.disk == Plain(snapshot) else f.Valid()
    ensures f.rollbacks == old(f.rollbacks) + [snapshot] && f.misses == old(f.misses) + if ok then 0 else 1
  {
    f.Others();
    f.rollbacks := f.rollbacks + [snapshot];
    ok := f.AtomicWrite(snapshot);
  }

  /** The file was read when only others had run, and that decides whether Stage A runs. */
  predicate ReadAt(start: Disk, log: seq<Done>, from: nat, seen: nat, report: Report) {
    && OthersOnly(log, from, seen)
    && report.snapshot == SnapshotOf(Replay(start, log[..seen]))
    && (report.stageARan <==> !Replay(start, log[..seen]).Hidden?)
  }

  /** A rollback is tried exactly after a failed write, if there is something to put back. */
  function Rollbacks(report: Report): seq<Fields> {
    if report.end == NeedsRollback && report.snapshot.Some? then [report.snapshot.value] else []
  }

  /** The locks and writes that failed: one ended Stage A, and one the rollback. */
  function Misses(report: Report): nat {
    (if report.end == NeedsRollback then 1 else 0)
    + if report.end == NeedsRollback && report.snapshot.Some? && !report.rolledBack then 1 else 0
  }

  /** The report is true of what this process did. */
  ghost predicate TrueReport(mine: seq<Done>, rs: seq<OcRestore>, verdicts: seq<Verdict>, m: nat, report: Report, restored: seq<string>)
    requires m <= |rs| == |verdicts|
  {
    && (!report.stageARan ==> mine == [] && restored == [] && report.end == Completed && report.blocked == {})
    && (report.stageARan ==>
          && Account(mine, rs, verdicts, m, Names(mine, Written), report.blocked)
          && restored == (if report.end == NeedsRollback && report.snapshot.Some? then [] else Names(mine, Written))
          && (report.end == Completed ==> m == |rs|)
          && (report.end == NeedsRollback ==> m < |rs| && verdicts[m].Write?))
    && (report.end == Crashed <==> Names(mine, Raised) != [])
    && (report.rolledBack ==> report.end == NeedsRollback && report.snapshot.Some?)
  }

  /** Counting from before the read of the snapshot or from after it is the same. */
  lemma SinceTheRead(d: Disk, read: seq<Done>, log: seq<Done>, from: nat)
    requires read <= log && OthersOnly(read, from, |read|) && Answered(d, log, |read|)
    ensures MyDone(log, from) == MyDone(log, |read|) && Answered(d, log, from)
    ensures log[..|read|] == read && OthersOnly(log, from, |read|)
  {
    CountLater(log, from, |read|);
  }

  /** Stage A, and its rollback. */
  method RestoreOrRollback(f: ConfigFile, rs: seq<OcRestore>, decode: seq<Byte> -> Option<string>, ghost verdicts: seq<Verdict>,
                           snapshot: Option<Fields>)
    returns (report: Report, restored: seq<string>, m: nat)
    requires f.Valid() && Judged(rs, verdicts, decode)
    modifies f
    ensures Grown(f) && report.stageARan && report.snapshot == snapshot
    ensures m <= |rs| && TrueReport(MyDone(f.log, |old(f.log)|), rs, verdicts, m, report, restored)
    ensures if report.rolledBack then f.disk == Plain(report.snapshot.value) else f.Valid()
    ensures f.rollbacks == old(f.rollbacks) + Rollbacks(report)
    ensures f.misses == old(f.misses) + Misses(report)
  {
    var end, blocked;
    end, restored, blocked, m := StageA(f, rs, decode, verdicts);
    report := Report(true, end, false, snapshot, blocked);
    if end == NeedsRollback && snapshot.Some? {
      ghost var was := f.log;
      var ok := Rollback(f, snapshot.value);
      OthersAddNothing(was, f.log, |old(f.log)|);
      AnsweredMore(f.start, was, f.log, |old(f.log)|);
      report, restored := report.(rolledBack := ok), [];
    }
  }

  /** Snapshot, Stage A and its rollback. */
  method RestoreProviders(f: ConfigFile, rs: seq<OcRestore>, decode: seq<Byte> -> Option<string>, ghost verdicts: seq<Verdict>)
    returns (report: Report, restored: seq<string>, ghost seen: nat, ghost m: nat)
    requires f.Valid() && Judged(rs, verdicts, decode)
    modifies f
    ensures Grown(f) && ReadAt(f.start, f.log, |old(f.log)|, seen, report)
    ensures m <= |rs| && TrueReport(MyDone(f.log, |old(f.log)|), rs, verdicts, m, report, restored)
    ensures if report.rolledBack then f.disk == Plain(report.snapshot.value) else f.Valid()
    ensures f.rollbacks == old(f.rollbacks) + Rollbacks(report)
    ensures f.misses == old(f.misses) + Misses(report)
  {
    var snapshot, skip := TakeSnapshot(f);
    seen, m := |f.log|, 0;
    ghost var from, read := |old(f.log)|, f.log;
    if skip {
      NothingYet(read, from);
      assert read[..seen] == read;
      return NOT_RUN, [], seen, m;
    }
    report, restored, m := RestoreOrRollback(f, rs, decode, verdicts, snapshot);
    SinceTheRead(f.start, read, f.log, from);
  }

  function EligibleAfter(rs: seq<OcRestore>, report: Report): Option<set<string>> {
    EligibleProviders(rs, report.stageARan, report.end == NeedsRollback, report.blocked)
  }

  /** A provider whose cache may hold plaintext after an unlock. */
  predicate FinallyPlain(p: string, rs: seq<OcRestore>, report: Report) {
    && (report.stageARan ==> report.end == Completed && p !in report.blocked)
    && exists i :: 0 <= i < |rs| && rs[i].provider == p && rs[i].key.Some?
  }

  predicate AllKeysZero(rs: seq<OcRestore>)
    reads Buffers(rs)
  {
    forall i :: 0 <= i < |rs| ==> (rs[i].key.Some? ==> rs[i].key.value in Buffers(rs)) && KeyZero(rs[i])
  }

  /**
   * `rollback_config` takes no flock: whoever has written since the snapshot is overwritten. Every provider
   * shows what it showed when the snapshot was read, so what was done since survives if and only if it made
   * no difference to the provider; what nobody has worked on since is as it was.
   */
  lemma RollbackOverwrites(start: Disk, log: seq<Done>, from: nat, seen: nat, report: Report, q: string)
    requires Readable(start) && ReadAt(start, log, from, seen, report)
    ensures report.snapshot.Some?
    ensures Slot(Plain(report.snapshot.value), q) == ReplaySlot(Slot(start, q), log[..seen], q)
    ensures Slot(Plain(report.snapshot.value), q) == Slot(Replay(start, log), q)
            <==> ReplaySlot(Slot(start, q), log, q) == ReplaySlot(Slot(start, q), log[..seen], q)
    ensures (forall k :: seen <= k < |log| ==> TargetOf(log[k].op) != Some(q)) ==>
              Slot(Plain(report.snapshot.value), q) == Slot(Replay(start, log), q)
  {
    ProvidersAreIndependent(start, log[..seen], q);
    ProvidersAreIndependent(start, log, q);
    if forall k :: seen <= k < |log| ==> TargetOf(log[k].op) != Some(q) { NobodySince(Slot(start, q), log, seen, q); }
  }

  lemma {:induction false} NobodySince(s: Option<Json>, log: seq<Done>, seen: nat, q: string)
    requires seen <= |log| && forall k :: seen <= k < |log| ==> TargetOf(log[k].op) != Some(q)
    ensures ReplaySlot(s, log, q) == ReplaySlot(s, log[..seen], q)
    decreases |log|
  {
    if |log| > seen {
      var before := log[..|log| - 1];
      NobodySince(s, before, seen, q);
      assert before[..seen] == log[..seen];
    } else {
      assert log[..seen] == log;
    }
  }

  /**
   * Somebody's new entry is lost: it is written after the snapshot was read, then the first write of the
   * records fails, and the rollback puts the snapshot back.
   */
  lemma OthersAreLost(d: Disk, q: string, theirs: Fields, rs: seq<OcRestore>, verdicts: seq<Verdict>)
    requires Readable(d) && Slot(d, q) != Some(Obj(theirs))
    requires |rs| == |verdicts| && |rs| > 0 && verdicts[0].Write?
    ensures exists log, report :: Lost(d, log, report, q, theirs, rs, verdicts)
  {
    var op := ReplaceProvider(q, theirs);
    var log := [Done(OTHERS, op, Effect(op, d).1)];
    var report := Report(true, NeedsRollback, true, SnapshotOf(d), {});
    assert log[..0] == [] && Replay(d, log) == Effect(op, d).0;
    NothingYet(log, 0);
    assert Account([], rs, verdicts, 0, [], {});
    EffectOnSlot(op, d, q);
    RollbackOverwrites(d, log, 0, 0, report, q);
    assert Lost(d, log, report, q, theirs, rs, verdicts);
  }

  /** What others wrote is there before the rollback and not after it. */
  ghost predicate Lost(d: Disk, log: seq<Done>, report: Report, q: string, theirs: Fields, rs: seq<OcRestore>, verdicts: seq<Verdict>)
    requires |rs| == |verdicts|
  {
    && ReadAt(d, log, 0, 0, report) && Answered(d, log, 0) && TrueReport(MyDone(log, 0), rs, verdicts, 0, report, [])
    && report.rolledBack && Slot(Replay(d, log), q) == Some(Obj(theirs)) && Slot(Plain(report.snapshot.value), q) != Some(Obj(theirs))
  }

  lemma WritesAreReplaces(log: seq<Done>, from: nat, ops: seq<Op>)
    requires Did(MyDone(log, from), ops) && forall k :: 0 <= k < |ops| ==> ops[k].ReplaceProvider?
    ensures Replaces(log, from)
  {
    forall k | from <= k < |log| && log[k].pid == ME ensures log[k].op.ReplaceProvider? {
      MineIsListed(log, from, k);
    }
  }

  lemma {:induction false} MineIsListed(log: seq<Done>, from: nat, k: nat)
    requires from <= k < |log| && log[k].pid == ME
    ensures log[k] in MyDone(log, from)
    decreases |log|
  {
    if k < |log| - 1 { MineIsListed(log[..|log| - 1], from, k); }
  }

  /** The two ways to tell a crash: from the history, and if nobody interferes from the file and the records. */
  lemma WhenItCrashes(d: Disk, log: seq<Done>, from: nat, seen: nat, rs: seq<OcRestore>, verdicts: seq<Verdict>, m: nat,
                      report: Report, restored: seq<string>)
    requires m <= |rs| == |verdicts| && from <= |log| && Answered(d, log, from)
    requires TrueReport(MyDone(log, from), rs, verdicts, m, report, restored)
    ensures report.end == Crashed <==> MeetsNull(d, log, from)
    ensures (forall j :: from <= j < |log| ==> log[j].pid == ME) && ReadAt(d, log, from, seen, report) && Misses(report) == 0 ==>
              (report.end == Crashed
               <==> NullFile(Replay(d, log[..from])) && exists i :: 0 <= i < |rs| && verdicts[i].Write?)
  {
    var ops := if report.stageARan then Writes(rs, verdicts, m) else [];
    WritesAreReplaces(log, from, ops);
    CrashIsMet(d, log, from);
    if (forall j :: from <= j < |log| ==> log[j].pid == ME) && ReadAt(d, log, from, seen, report) && Misses(report) == 0 {
      assert seen == from;
      if report.stageARan { CrashesAlone(d, log, from, rs, verdicts, m, report, restored); }
    }
  }

  lemma CrashesAlone(d: Disk, log: seq<Done>, from: nat, rs: seq<OcRestore>, verdicts: seq<Verdict>, m: nat,
                     report: Report, restored: seq<string>)
    requires m <= |rs| == |verdicts| && from <= |log| && Answered(d, log, from) && Replaces(log, from)
    requires TrueReport(MyDone(log, from), rs, verdicts, m, report, restored)
    requires (forall j :: from <= j < |log| ==> log[j].pid == ME) && report.stageARan && report.end != NeedsRollback
    ensures report.end == Crashed
            <==> NullFile(Replay(d, log[..from])) && exists i :: 0 <= i < |rs| && verdicts[i].Write?
  {
    CrashIsMet(d, log, from);
    AloneMeetsNull(d, log, from);
    if |log| > from { MineIsListed(log, from, from); }
    assert Writes(rs, verdicts, m) != [] ==> exists i :: 0 <= i < |rs| && verdicts[i].Write?;
    assert |log| > from <==> MyDone(log, from) != [];
  }

  /** What unlock does to openclaw.json. */
  method RestoreFile(f: ConfigFile, rs: seq<OcRestore>, config: ConfigState, decode: seq<Byte> -> Option<string>,
                     ghost verdicts: seq<Verdict>)
    returns (report: Report, restored: seq<string>, ghost seen: nat, ghost m: nat)
    requires f.Valid() && Judged(rs, verdicts, decode)
    modifies f
    ensures config != Present ==> f.disk == old(f.disk) && f.log == old(f.log) && report == NOT_RUN
    ensures config == Present ==> ReadAt(f.start, f.log, |old(f.log)|, seen, report)
    ensures Grown(f) && m <= |rs| && TrueReport(MyDone(f.log, |old(f.log)|), rs, verdicts, m, report, restored)
    ensures if report.rolledBack then f.disk == Plain(report.snapshot.value) else f.Valid()
    ensures f.rollbacks == old(f.rollbacks) + Rollbacks(report)
    ensures f.misses == old(f.misses) + Misses(report)
  {
    report, restored, seen, m := NOT_RUN, [], |f.log|, 0;
    if config == Present {
      report, restored, seen, m := RestoreProviders(f, rs, decode, verdicts);
    } else {
      NothingYet(f.log, |f.log|);
    }
  }

  /** `_restore_agent_auth_stores_after_unlock`. */
  method RestoreCachesAndZero(caches: AgentCaches, rs: seq<OcRestore>, hasHome: bool, report: Report,
                              decode: seq<Byte> -> Option<string>)
    requires report.end != Crashed
    modifies caches, Buffers(rs)
    ensures old(caches.plain) <= caches.plain && AllKeysZero(rs)
    ensures forall p :: p in caches.plain - old(caches.plain) ==> FinallyPlain(p, rs, report)
    ensures caches.tried == old(caches.tried)
            + if hasHome then old(CacheWrites(rs, EligibleAfter(rs, report), decode, |rs|)) else []
  {
    var eligible := EligibleAfter(rs, report);
    RestoreCaches(caches, rs, hasHome, eligible, decode);
    assert forall p :: MayBePlain(p, rs, eligible) ==> FinallyPlain(p, rs, report);
    ZeroAll(rs);
  }

  /**
   * `apply_unlock`. The report is true of what this process did to the file: the writes of the records, in
   * order, and nothing else. If a write failure was rolled back, the file is what the snapshot was read
   * from, whatever anybody has done to it since; no cache was touched and nothing is reported restored. A
   * cache gets plaintext only for a provider Stage A did not block, or if Stage A never ran. Past the first
   * two gates every key buffer ends zero, unless a write met a null on the way to the providers: then the
   * exception leaves caches and buffers as they were.
   */
  method ApplyUnlock(f: ConfigFile, caches: AgentCaches, rs: seq<OcRestore>, env: Surroundings,
                     decode: seq<Byte> -> Option<string>, ghost verdicts: seq<Verdict>)
    returns (report: Report, restored: seq<string>, ghost seen: nat, ghost m: nat)
    requires f.Valid() && Judged(rs, verdicts, decode)
    modifies f, caches, Buffers(rs)
    ensures !env.openclawPresent || env.isLink || env.config != Present ==>
              f.disk == old(f.disk) && f.log == old(f.log) && report == NOT_RUN
    ensures env.openclawPresent && !env.isLink && env.config == Present ==>
              ReadAt(f.start, f.log, |old(f.log)|, seen, report)
    ensures Grown(f) && m <= |rs| && TrueReport(MyDone(f.log, |old(f.log)|), rs, verdicts, m, report, restored)
    ensures if report.rolledBack then f.disk == Plain(report.snapshot.value) else f.Valid()
    ensures f.rollbacks == old(f.rollbacks) + Rollbacks(report)
    ensures f.misses == old(f.misses) + Misses(report)
    ensures report.end == Crashed <==> MeetsNull(f.start, f.log, |old(f.log)|)
    ensures (forall j :: |old(f.log)| <= j < |f.log| ==> f.log[j].pid == ME) && f.misses == old(f.misses)
            && env.openclawPresent && !env.isLink && env.config == Present ==>
              (report.end == Crashed <==> NullFile(old(f.disk)) && exists i :: 0 <= i < |rs| && verdicts[i].Write?)
    ensures old(caches.plain) <= caches.plain
    ensures caches.tried == old(caches.tried)
            + if env.openclawPresent && !env.isLink && report.end != Crashed && env.hasHome
              then old(CacheWrites(rs, EligibleAfter(rs, report), decode, |rs|)) else []
    ensures forall p :: p in caches.plain - old(caches.plain) ==>
              env.openclawPresent && !env.isLink && FinallyPlain(p, rs, report)
    ensures env.openclawPresent && !env.isLink && report.end != Crashed ==> AllKeysZero(rs)
    ensures !env.openclawPresent || env.isLink || report.end == Crashed ==>
              forall a :: a in Buffers(rs) ==> a[..] == old(a[..])
  {
    report, restored, seen, m := NOT_RUN, [], |f.log|, 0;
    ghost var from := |f.log|;
    assert f.log[..from] == f.log;
    if !env.openclawPresent || env.isLink {
      NothingYet(f.log, from);
      WhenItCrashes(f.start, f.log, from, seen, rs, verdicts, m, report, restored);
      return;
    }
    report, restored, seen, m := RestoreFile(f, rs, env.config, decode, verdicts);
    assert f.log[..from] == old(f.log);
    WhenItCrashes(f.start, f.log, from, seen, rs, verdicts, m, report, restored);
    if report.end == Crashed { return; }  // raised
    RestoreCachesAndZero(caches, rs, env.hasHome, report, decode);
  }
}
