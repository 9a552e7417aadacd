/**
 * `src/worthless/openclaw/config.py`: the flocked read-modify-write operations on openclaw.json, what
 * each does to the document, and that any interleaving of them is some serial order.
 */
module OpenclawConfig {
  import opened Common
  import opened Json

  /** What is at the path: nothing, a symbolic link, a file this user may not read, no JSON object, or one. */
  datatype Disk = Absent | Link | Hidden | Broken | Plain(doc: Fields)

  /** `OpenclawConfigError`; an `AttributeError` on a JSON null; a failed write; no lock in time. */
  datatype Failure = ConfigError | NullCrash | WriteFailed | TimedOut

  /** What is written over a provider entry's fields. */
  datatype Change = Change(baseUrl: string, apiKey: Option<string>, api: Option<string>, models: Option<seq<Json>>)

  datatype Op =
    | SetProvider(provider: string, change: Change)
    | UnsetProvider(provider: string)
    | ReplaceProvider(provider: string, entry: Fields)
    | RepointPrimary(oldRef: string, newRef: string)
    | RevertIfOurs(provider: string, ours: string, prior: Option<Fields>)

  datatype Reply = Entry(entry: Fields) | Changed(yes: bool) | Failed(why: Failure)

  // ----- Reading --------------------------------------------------------------------------------

  /** `read_config`. */
  function ReadConfig(d: Disk, permissionAsMissing: bool): Result<Fields, Failure> {
    match d
    case Absent => Ok(map[])
    case Plain(doc) => Ok(doc)
    case Hidden => if permissionAsMissing then Ok(map[]) else Err(ConfigError)
    case Link => Err(ConfigError)
    case Broken => Err(ConfigError)
  }

  /** `_providers_view` with `strict=True`. */
  function StrictView(doc: Fields): Result<Option<Fields>, Failure> {
    match Get(doc, "models")
    case None => Ok(None)
    case Some(models) =>
      if !models.Obj? then Err(ConfigError)
      else
        match Get(models.fields, "providers")
        case None => Ok(None)
        case Some(providers) => if providers.Obj? then Ok(Some(providers.fields)) else Err(ConfigError)
  }

  /** ... with `strict=False`. */
  function LooseView(doc: Fields): Option<Fields> {
    var v := StrictView(doc);
    if v.Ok? then v.value else None
  }

  /** The document with another providers map. */
  function WithProviders(doc: Fields, providers: Fields): Fields {
    var models := if "models" in doc && doc["models"].Obj? then doc["models"].fields else map[];
    doc["models" := Obj(models["providers" := Obj(providers)])]
  }

  /** `_ensure_providers`: a null on the way is not replaced, and crashes the caller. */
  function EnsureProviders(doc: Fields): Result<Fields, Failure> {
    var v := StrictView(doc);
    if v.Err? then Err(v.error)
    else if v.value.Some? then Ok(v.value.value)
    else if "models" in doc && doc["models"] == Null then Err(NullCrash)
    else if "models" in doc && doc["models"].Obj? && "providers" in doc["models"].fields then Err(NullCrash)
    else Ok(map[])
  }

  /** "models", or "providers" in it, is there as a JSON null. */
  predicate NullOnTheWay(doc: Fields) {
    "models" in doc && (doc["models"] == Null
                        || (doc["models"].Obj? && "providers" in doc["models"].fields
                            && doc["models"].fields["providers"] == Null))
  }

  /** The documents on which a write crashes can be told from the file alone. */
  lemma CrashesOnNull(doc: Fields)
    ensures EnsureProviders(doc) == Err(NullCrash) <==> NullOnTheWay(doc)
  {
    if "models" in doc && doc["models"].Obj? {
      assert StrictView(doc) == match Get(doc["models"].fields, "providers")
                                case None => Ok(None)
                                case Some(p) => if p.Obj? then Ok(Some(p.fields)) else Err(ConfigError);
    }
  }

  // ----- What each operation does ---------------------------------------------------------------

  function Overlay(was: Fields, c: Change): Fields {
    var e := was["baseUrl" := Str(c.baseUrl)];
    var e := if c.apiKey.Some? then e["apiKey" := Str(c.apiKey.value)] else e;
    var e := if c.api.Some? then e["api" := Str(c.api.value)] else e;
    if c.models.Some? then e["models" := Arr(c.models.value)]
    else if "models" !in e then e["models" := Arr([])] else e
  }

  function EffectOfSet(d: Disk, p: string, c: Change): (Disk, Reply) {
    if d.Link? then (d, Failed(ConfigError))
    else
      match ReadConfig(d, true)
      case Err(e) => (d, Failed(e))
      case Ok(doc) =>
        match EnsureProviders(doc)
        case Err(e) => (d, Failed(e))
        case Ok(providers) =>
          var existing := Get(providers, p);
          if existing.Some? && !existing.value.Obj? then (d, Failed(ConfigError))
          else
            var entry := Overlay(if existing.Some? then existing.value.fields else map[], c);
            (Plain(WithProviders(doc, providers[p := Obj(entry)])), Entry(entry))
  }

  function EffectOfReplace(d: Disk, p: string, entry: Fields): (Disk, Reply) {
    if d.Link? then (d, Failed(ConfigError))
    else
      match ReadConfig(d, true)
      case Err(e) => (d, Failed(e))
      case Ok(doc) =>
        match EnsureProviders(doc)
        case Err(e) => (d, Failed(e))
        case Ok(providers) => (Plain(WithProviders(doc, providers[p := Obj(entry)])), Entry(entry))
  }

  function EffectOfUnset(d: Disk, p: string): (Disk, Reply) {
    match ReadConfig(d, false)
    case Err(e) => (d, Failed(e))
    case Ok(doc) =>
      match LooseView(doc)
      case None => (d, Entry(map[]))
      case Some(providers) =>
        if p !in providers then (d, Entry(map[]))
        else (Plain(WithProviders(doc, providers - {p})),
              Entry(if providers[p].Obj? then providers[p].fields else map[]))
  }

  /** The path from the document to the default agent's model, where every step is an object. */
  function ModelOf(doc: Fields): Option<Fields> {
    if "agents" in doc && doc["agents"].Obj? then
      var agents := doc["agents"].fields;
      if "defaults" in agents && agents["defaults"].Obj? then
        var defaults := agents["defaults"].fields;
        if "model" in defaults && defaults["model"].Obj? then Some(defaults["model"].fields) else None
      else None
    else None
  }

  function WithModel(doc: Fields, model: Fields): Fields
    requires ModelOf(doc).Some?
  {
    var agents := doc["agents"].fields;
    var defaults := agents["defaults"].fields;
    doc["agents" := Obj(agents["defaults" := Obj(defaults["model" := Obj(model)])])]
  }

  function EffectOfRepoint(d: Disk, oldRef: string, newRef: string): (Disk, Reply) {
    match ReadConfig(d, false)
    case Err(e) => (d, Failed(e))
    case Ok(doc) =>
      var model := ModelOf(doc);
      if model.None? || Get(model.value, "primary") != Some(Str(oldRef)) then (d, Changed(false))
      else (Plain(WithModel(doc, model.value["primary" := Str(newRef)])), Changed(true))
  }

  predicate PointsAt(entry: Option<Json>, url: string) {
    entry.Some? && entry.value.Obj? && Get(entry.value.fields, "baseUrl") == Some(Str(url))
  }

  /** `revert_provider_if_ours`, once it has the lock. */
  function EffectOfRevert(d: Disk, p: string, ours: string, prior: Option<Fields>): (Disk, Reply) {
    match ReadConfig(d, false)
    case Err(e) => (d, Failed(e))
    case Ok(doc) =>
      var providers := LooseView(doc).GetOr(map[]);
      if !PointsAt(Get(providers, p), ours) then (d, Changed(true))
      else
        var now := if prior.Some? then providers[p := Obj(prior.value)] else providers - {p};
        (Plain(WithProviders(doc, now)), Changed(true))
  }

  function Effect(op: Op, d: Disk): (Disk, Reply) {
    match op
    case SetProvider(p, c) => EffectOfSet(d, p, c)
    case UnsetProvider(p) => EffectOfUnset(d, p)
    case ReplaceProvider(p, e) => EffectOfReplace(d, p, e)
    case RepointPrimary(o, n) => EffectOfRepoint(d, o, n)
    case RevertIfOurs(p, ours, prior) => EffectOfRevert(d, p, ours, prior)
  }

  // ----- Slots ----------------------------------------------------------------------------------

  /** A document the operations can work on: readable, and with objects where providers are looked for. */
  predicate Readable(d: Disk) {
    d.Absent? || (d.Plain? && EnsureProviders(d.doc).Ok?)
  }

  function Providers(d: Disk): Fields {
    if d.Plain? then LooseView(d.doc).GetOr(map[]) else map[]
  }

  /** A provider's entry. */
  function Slot(d: Disk, p: string): Option<Json> {
    if p in Providers(d) then Some(Providers(d)[p]) else None
  }

  /** The provider an operation may change. */
  function TargetOf(op: Op): Option<string> {
    if op.RepointPrimary? then None else Some(op.provider)
  }

  /** Everything but the providers and the default agent's primary model: at the top, in "models", in "agents". */
  datatype Elsewhere = Elsewhere(top: Fields, models: Fields, agents: Option<Json>)

  function Field(doc: Fields, key: string): Option<Json> { if key in doc then Some(doc[key]) else None }

  function Document(d: Disk): Fields { if d.Plain? then d.doc else map[] }

  function Rest(d: Disk): Elsewhere {
    var doc := Document(d);
    Elsewhere(doc - {"models", "agents"},
              if "models" in doc && doc["models"].Obj? then doc["models"].fields - {"providers"} else map[],
              if ModelOf(doc).Some? then Field(WithModel(doc, ModelOf(doc).value - {"primary"}), "agents")
              else Field(doc, "agents"))
  }

  lemma ProvidersWritten(doc: Fields, providers: Fields)
    ensures EnsureProviders(WithProviders(doc, providers)) == Ok(providers)
    ensures Providers(Plain(WithProviders(doc, providers))) == providers
    ensures Rest(Plain(WithProviders(doc, providers))) == Rest(Plain(doc))
    ensures Field(WithProviders(doc, providers), "agents") == Field(doc, "agents")
  {
    var out := WithProviders(doc, providers);
    assert Get(out, "models") == Some(out["models"]);
    assert Get(out["models"].fields, "providers") == Some(Obj(providers));
    assert out - {"models", "agents"} == doc - {"models", "agents"};
    assert ModelOf(out) == ModelOf(doc);
  }

  lemma ModelWritten(doc: Fields, model: Fields)
    requires ModelOf(doc).Some? && model - {"primary"} == ModelOf(doc).value - {"primary"}
    ensures EnsureProviders(WithModel(doc, model)) == EnsureProviders(doc)
    ensures LooseView(WithModel(doc, model)) == LooseView(doc)
    ensures Rest(Plain(WithModel(doc, model))) == Rest(Plain(doc))
  {
    var out := WithModel(doc, model);
    assert Get(out, "models") == Get(doc, "models");
    assert out - {"models", "agents"} == doc - {"models", "agents"};
    assert ModelOf(out) == Some(model);
    ModelTwice(doc, model, model - {"primary"});
  }

  lemma ModelTwice(doc: Fields, a: Fields, b: Fields)
    requires ModelOf(doc).Some?
    ensures ModelOf(WithModel(doc, a)) == Some(a) && WithModel(WithModel(doc, a), b) == WithModel(doc, b)
  {
    var agents := doc["agents"].fields;
    var defaults := agents["defaults"].fields;
    var inner, outer := defaults["model" := Obj(a)], agents["defaults" := Obj(defaults["model" := Obj(a)])];
    assert inner["model" := Obj(b)] == defaults["model" := Obj(b)];
    assert outer["defaults" := Obj(inner["model" := Obj(b)])] == agents["defaults" := Obj(defaults["model" := Obj(b)])];
  }

  lemma ReadableProviders(d: Disk)
    requires Readable(d)
    ensures ReadConfig(d, true) == ReadConfig(d, false) && ReadConfig(d, true).Ok?
    ensures EnsureProviders(ReadConfig(d, true).value) == Ok(Providers(d))
  {
  }

  /** From `d` to `t` nothing changed but provider `p`, and the providers object around it. */
  predicate OnlyChanges(d: Disk, t: Disk, p: string, q: string) {
    && Readable(t) && (p != q ==> Slot(t, q) == Slot(d, q))
    && Rest(t) == Rest(d) && Field(Document(t), "agents") == Field(Document(d), "agents")
  }

  lemma ProviderWritten(d: Disk, providers: Fields, p: string, q: string)
    requires Readable(d) && providers - {p} == Providers(d) - {p}
    ensures OnlyChanges(d, Plain(WithProviders(ReadConfig(d, true).value, providers)), p, q)
  {
    ReadableProviders(d);
    ProvidersWritten(ReadConfig(d, true).value, providers);
    assert q in providers - {p} <==> q in Providers(d) - {p};
    assert q in providers - {p} ==> (providers - {p})[q] == (Providers(d) - {p})[q];
  }

  lemma ProviderPut(d: Disk, p: string, v: Json, q: string)
    requires Readable(d)
    ensures OnlyChanges(d, Plain(WithProviders(ReadConfig(d, true).value, Providers(d)[p := v])), p, q)
  {
    assert Providers(d)[p := v] - {p} == Providers(d) - {p};
    ProviderWritten(d, Providers(d)[p := v], p, q);
  }

  lemma ProviderDropped(d: Disk, p: string, q: string)
    requires Readable(d)
    ensures OnlyChanges(d, Plain(WithProviders(ReadConfig(d, true).value, Providers(d) - {p})), p, q)
  {
    assert Providers(d) - {p} - {p} == Providers(d) - {p};
    ProviderWritten(d, Providers(d) - {p}, p, q);
  }

  lemma RepointKeeps(d: Disk, o: string, n: string, q: string)
    requires Readable(d)
    ensures var t := EffectOfRepoint(d, o, n).0; Readable(t) && Slot(t, q) == Slot(d, q) && Rest(t) == Rest(d)
  {
    ReadableProviders(d);
    var doc := ReadConfig(d, true).value;
    if ModelOf(doc).Some? {
      var model := ModelOf(doc).value;
      assert model["primary" := Str(n)] - {"primary"} == model - {"primary"};
      ModelWritten(doc, model["primary" := Str(n)]);
    }
  }

  /**
   * On a readable file no operation on one provider changes another's entry, none changes anything but the
   * providers and the default agent's primary model, only one of them changes that, and the file stays readable.
   */
  lemma OnlyItsOwnProvider(op: Op, d: Disk, q: string)
    requires Readable(d)
    ensures Readable(Effect(op, d).0)
    ensures TargetOf(op) != Some(q) ==> Slot(Effect(op, d).0, q) == Slot(d, q)
    ensures Rest(Effect(op, d).0) == Rest(d)
    ensures !op.RepointPrimary? ==> Field(Document(Effect(op, d).0), "agents") == Field(Document(d), "agents")
  {
    ReadableProviders(d);
    match op
    case SetProvider(p, c) =>
      var existing := Get(Providers(d), p);
      ProviderPut(d, p, Obj(Overlay(if existing.Some? && existing.value.Obj? then existing.value.fields else map[], c)), q);
    case UnsetProvider(p) => ProviderDropped(d, p, q);
    case ReplaceProvider(p, e) => ProviderPut(d, p, Obj(e), q);
    case RepointPrimary(o, n) => RepointKeeps(d, o, n, q);
    case RevertIfOurs(p, ours, prior) =>
      if prior.Some? { ProviderPut(d, p, Obj(prior.value), q); } else { ProviderDropped(d, p, q); }
  }

  // ----- One entry at a time --------------------------------------------------------------------

  /** What an operation makes of the entry it works on, seen alone. */
  function SlotStep(op: Op, s: Option<Json>): Option<Json> {
    match op
    case SetProvider(p, c) =>
      if s.Some? && s.value != Null && !s.value.Obj? then s
      else Some(Obj(Overlay(if s.Some? && s.value.Obj? then s.value.fields else map[], c)))
    case UnsetProvider(p) => None
    case ReplaceProvider(p, e) => Some(Obj(e))
    case RepointPrimary(_, _) => s
    case RevertIfOurs(p, ours, prior) =>
      if !PointsAt(s, ours) then s else if prior.Some? then Some(Obj(prior.value)) else None
  }

  /** The whole-file operation does exactly that to its own entry. */
  lemma EffectOnSlot(op: Op, d: Disk, p: string)
    requires Readable(d)
    ensures Slot(Effect(op, d).0, p) == if TargetOf(op) == Some(p) then SlotStep(op, Slot(d, p)) else Slot(d, p)
  {
    OnlyItsOwnProvider(op, d, p);
    if TargetOf(op) == Some(p) {
      ReadableProviders(d);
      var doc := ReadConfig(d, true).value;
      match op
      case SetProvider(_, c) =>
        var existing := Get(Providers(d), p);
        var entry := Overlay(if existing.Some? && existing.value.Obj? then existing.value.fields else map[], c);
        ProvidersWritten(doc, Providers(d)[p := Obj(entry)]);
      case UnsetProvider(_) => ProvidersWritten(doc, Providers(d) - {p});
      case ReplaceProvider(_, e) => ProvidersWritten(doc, Providers(d)[p := Obj(e)]);
      case RevertIfOurs(_, ours, prior) =>
        if prior.Some? { ProvidersWritten(doc, Providers(d)[p := Obj(prior.value)]); }
        ProvidersWritten(doc, Providers(d) - {p});
    }
  }

  /** The entry as the undo puts it back: only an object can be. */
  function PriorOf(s: Option<Json>): Option<Fields> {
    if s.Some? && s.value.Obj? then Some(s.value.fields) else None
  }

  lemma WrittenTwice(doc: Fields, a: Fields, b: Fields)
    ensures WithProviders(WithProviders(doc, a), b) == WithProviders(doc, b)
  {
    var one := WithProviders(doc, a);
    assert one["models"].fields["providers" := Obj(b)] == WithProviders(doc, b)["models"].fields;
  }

  lemma WrittenSame(doc: Fields)
    ensures WithProviders(doc, LooseView(doc).GetOr(map[])) == doc <==> LooseView(doc).Some?
  {
    if LooseView(doc).Some? {
      var models := doc["models"].fields;
      assert models["providers" := Obj(LooseView(doc).value)] == models;
      assert doc["models" := Obj(models)] == doc;
    } else {
      ProvidersWritten(doc, map[]);
    }
  }

  lemma RevertWritten(doc: Fields, providers: Fields, p: string, ours: string, prior: Option<Fields>)
    requires PointsAt(Get(providers, p), ours)
    ensures EffectOfRevert(Plain(WithProviders(doc, providers)), p, ours, prior).0
            == Plain(WithProviders(doc, if prior.Some? then providers[p := Obj(prior.value)] else providers - {p}))
  {
    ProvidersWritten(doc, providers);
    WrittenTwice(doc, providers, if prior.Some? then providers[p := Obj(prior.value)] else providers - {p});
  }

  /** The providers after an entry was set and reverted. */
  function RevertedProviders(providers: Fields, p: string, entry: Json): Fields {
    var after, prior := providers[p := entry], PriorOf(if p in providers then Some(providers[p]) else None);
    if prior.Some? then after[p := Obj(prior.value)] else after - {p}
  }

  lemma PutBack(providers: Fields, p: string, entry: Json)
    ensures RevertedProviders(providers, p, entry) == providers <==> p !in providers || providers[p].Obj?
  {
    if p !in providers { assert providers[p := entry] - {p} == providers; }
  }

  lemma WrittenBack(d: Disk, p: string, c: Change)
    requires Readable(d) && EffectOfSet(d, p, c).1.Entry?
    ensures var entry := EffectOfSet(d, p, c).1.entry;
            EffectOfRevert(EffectOfSet(d, p, c).0, p, c.baseUrl, PriorOf(Slot(d, p))).0
            == Plain(WithProviders(ReadConfig(d, true).value, RevertedProviders(Providers(d), p, Obj(entry))))
  {
    ReadableProviders(d);
    var entry := EffectOfSet(d, p, c).1.entry;
    RevertWritten(ReadConfig(d, true).value, Providers(d)[p := Obj(entry)], p, c.baseUrl, PriorOf(Slot(d, p)));
  }

  /**
   * Setting an entry and reverting it gives the very same document back, if and only if the file and its
   * providers object were there before and the entry was not a JSON null (or the set was refused).
   */
  lemma SetThenRevert(d: Disk, p: string, c: Change)
    requires Readable(d)
    ensures var revert := RevertIfOurs(p, c.baseUrl, PriorOf(Slot(d, p)));
            Effect(revert, EffectOfSet(d, p, c).0).0 == d
            <==> EffectOfSet(d, p, c).1.Failed? || (d.Plain? && LooseView(d.doc).Some? && Slot(d, p) != Some(Null))
  {
    ReadableProviders(d);
    if EffectOfSet(d, p, c).1.Entry? {
      var entry := Obj(EffectOfSet(d, p, c).1.entry);
      WrittenBack(d, p, c);
      PutBack(Providers(d), p, entry);
      WrittenSame(ReadConfig(d, true).value);
      ProvidersWritten(ReadConfig(d, true).value, RevertedProviders(Providers(d), p, entry));
    }
  }
}
