/**
 * Rollback records of `src/worthless/openclaw/integration.py`: the original provider entry without its
 * key and without anything that looks like one, kept over any number of locks.
 */
module OpenclawRollback {
  import opened Common
  import opened Json
  import opened OpenclawConfig

  // ----- Redaction ------------------------------------------------------------------------------

  const PLACEHOLDER := "<redacted-deep-key>"

  const SENTINEL := Obj(map["kind" := Str("redacted-deep")])

  /** The words the records themselves are made of look like no secret. */
  predicate Sane(secret: string -> bool) {
    && !secret(PLACEHOLDER) && !secret("kind") && !secret("redacted-deep")
    && !secret("apiKey") && !secret("ref") && !secret("plaintext") && !secret("secretref") && !secret("baseUrl")
  }

  function RedactedKey(k: string, secret: string -> bool): string {
    if secret(k) then PLACEHOLDER else k
  }

  function RedactedKeys(m: Fields, secret: string -> bool): set<string> {
    set k | k in m :: RedactedKey(k, secret)
  }

  /** `_deep_redact_key_strings`; of several keys that become the same one, some keeps its value. */
  ghost function Redact(v: Json, secret: string -> bool): Json {
    match v
    case Str(s) => if secret(s) then SENTINEL else v
    case Arr(xs) => Arr(seq(|xs|, i requires 0 <= i < |xs| => Redact(xs[i], secret)))
    case Obj(m) =>
      Obj(map j | j in RedactedKeys(m, secret) ::
            var k :| k in m && RedactedKey(k, secret) == j;
            Redact(m[k], secret))
    case Null => v
    case Bool(_) => v
    case Num(_) => v
  }

  /** No string in it, and no key, looks like a secret. */
  predicate Clean(v: Json, secret: string -> bool) {
    match v
    case Str(s) => !secret(s)
    case Arr(xs) => forall i :: 0 <= i < |xs| ==> Clean(xs[i], secret)
    case Obj(m) => forall k :: k in m ==> !secret(k) && Clean(m[k], secret)
    case Null => true
    case Bool(_) => true
    case Num(_) => true
  }

  lemma SentinelClean(secret: string -> bool)
    requires Sane(secret)
    ensures Clean(SENTINEL, secret)
  {
    assert Clean(Str("redacted-deep"), secret);
  }

  /** Nothing that looks like a secret survives, at any depth, in values or in keys. */
  lemma {:induction false} RedactIsComplete(v: Json, secret: string -> bool)
    requires Sane(secret)
    ensures Clean(Redact(v, secret), secret)
  {
    match v
    case Str(s) => SentinelClean(secret);
    case Arr(xs) =>
      forall i | 0 <= i < |xs| ensures Clean(Redact(xs[i], secret), secret) { RedactIsComplete(xs[i], secret); }
    case Obj(m) =>
      var out := Redact(v, secret).fields;
      forall j | j in out ensures !secret(j) && Clean(out[j], secret) {
        var k :| k in m && RedactedKey(k, secret) == j && out[j] == Redact(m[k], secret);
        RedactIsComplete(m[k], secret);
      }
    case _ =>
  }

  lemma FieldsKept(m: Fields, secret: string -> bool)
    requires forall k :: k in m ==> !secret(k)
    ensures Redact(Obj(m), secret).fields.Keys == m.Keys
    ensures forall k :: k in m ==> Redact(Obj(m), secret).fields[k] == Redact(m[k], secret)
  {
    var out := Redact(Obj(m), secret).fields;
    forall k | k in m ensures k in out && out[k] == Redact(m[k], secret) {
      assert RedactedKey(k, secret) == k && k in RedactedKeys(m, secret);
    }
    forall j | j in out ensures j in m {
      var k :| k in m && RedactedKey(k, secret) == j;
    }
  }

  /** Redaction changes nothing exactly when there is nothing to redact. */
  lemma {:induction false} RedactKeepsClean(v: Json, secret: string -> bool)
    requires Sane(secret)
    ensures Redact(v, secret) == v <==> Clean(v, secret)
  {
    match v
    case Arr(xs) =>
      forall i | 0 <= i < |xs| ensures Redact(xs[i], secret) == xs[i] <==> Clean(xs[i], secret) {
        RedactKeepsClean(xs[i], secret);
      }
      var out := Redact(v, secret).items;
      assert |out| == |xs| && forall i :: 0 <= i < |xs| ==> out[i] == Redact(xs[i], secret);
      assert out == xs <==> forall i :: 0 <= i < |xs| ==> out[i] == xs[i];
    case Obj(m) =>
      RedactIsComplete(v, secret);
      if forall k :: k in m ==> !secret(k) {
        FieldsKept(m, secret);
        forall k | k in m ensures Redact(m[k], secret) == m[k] <==> Clean(m[k], secret) { RedactKeepsClean(m[k], secret); }
        var out := Redact(v, secret).fields;
        assert out == m <==> forall k :: k in m ==> out[k] == m[k];
      }
    case _ =>
  }

  // ----- Records --------------------------------------------------------------------------------

  const PLAINTEXT := Obj(map["kind" := Str("plaintext")])

  function SecretRef(pointer: Json): Json { Obj(map["kind" := Str("secretref"), "ref" := pointer]) }

  /** Only the shape of the key is recorded: that it was inline (or absent), or where it is kept. */
  function KeyShape(entry: Fields): Json {
    if "apiKey" in entry && entry["apiKey"].Obj? then SecretRef(entry["apiKey"]) else PLAINTEXT
  }

  /** `build_oc_rollback_entry_record`. */
  ghost function BuildRecord(entry: Fields, secret: string -> bool): (r: Json)
    ensures r.Obj?
  {
    Redact(Obj(entry["apiKey" := KeyShape(entry)]), secret)
  }

  /** What `_parse_oc_rollback_entry_record` accepts as the key's shape. */
  predicate WellShaped(shape: Json) {
    && shape.Obj? && "kind" in shape.fields
    && (|| (shape.fields["kind"] == Str("plaintext") && shape.fields.Keys == {"kind"})
        || (shape.fields["kind"] == Str("secretref") && "ref" in shape.fields && shape.fields["ref"].Obj?
            && shape.fields.Keys == {"kind", "ref"}))
  }

  /** A keyed hash of a record. */
  type Tag = string

  datatype BadRecord = Malformed | Tampered | MissingKey

  /** `_parse_oc_rollback_entry_record`; without both tags only the shape is checked. */
  function ParseRecord(record: Json, expected: Option<Tag>, recomputed: Option<Tag>): Result<Fields, BadRecord> {
    if !record.Obj? || "apiKey" !in record.fields || !WellShaped(record.fields["apiKey"]) then Err(Malformed)
    else if expected.Some? && recomputed.Some? && expected != recomputed then Err(Tampered)
    else Ok(record.fields)
  }

  /** The key put back where the record has only its shape. */
  function Substitute(entry: Fields, key: Option<string>): Result<Fields, BadRecord>
    requires "apiKey" in entry && WellShaped(entry["apiKey"])
  {
    var shape := entry["apiKey"].fields;
    if shape["kind"] == Str("secretref") then Ok(entry["apiKey" := shape["ref"]])
    else if key.None? then Err(MissingKey)
    else Ok(entry["apiKey" := Str(key.value)])
  }

  function RestoreRecord(record: Json, expected: Option<Tag>, recomputed: Option<Tag>, key: Option<string>)
    : Result<Fields, BadRecord>
  {
    var parsed := ParseRecord(record, expected, recomputed);
    if parsed.Err? then Err(parsed.error) else Substitute(parsed.value, key)
  }

  predicate CleanField(entry: Fields, k: string, secret: string -> bool)
    requires k in entry
  {
    !secret(k) && ((k == "apiKey" && !entry[k].Obj?) || Clean(entry[k], secret))
  }

  /** Nothing in the entry looks like a secret, apart from an inline key. */
  predicate CleanButForKey(entry: Fields, secret: string -> bool) {
    forall k :: k in entry ==> CleanField(entry, k, secret)
  }

  lemma ShapeClean(entry: Fields, secret: string -> bool)
    requires Sane(secret)
    ensures Clean(KeyShape(entry), secret)
            <==> !("apiKey" in entry && entry["apiKey"].Obj?) || Clean(entry["apiKey"], secret)
  {
    var shape := KeyShape(entry);
    assert forall k :: k in shape.fields ==> k == "kind" || k == "ref";
    assert Clean(shape.fields["kind"], secret);
    if "apiKey" in entry && entry["apiKey"].Obj? { assert shape.fields["ref"] == entry["apiKey"]; }
  }

  lemma ShapedField(entry: Fields, k: string, secret: string -> bool)
    requires Sane(secret) && k in entry
    ensures var shaped := entry["apiKey" := KeyShape(entry)];
            CleanField(entry, k, secret) <==> !secret(k) && Clean(shaped[k], secret)
  {
    ShapeClean(entry, secret);
  }

  lemma ShapedClean(entry: Fields, secret: string -> bool)
    requires Sane(secret)
    ensures Clean(Obj(entry["apiKey" := KeyShape(entry)]), secret) <==> CleanButForKey(entry, secret)
  {
    var shaped := entry["apiKey" := KeyShape(entry)];
    ShapeClean(entry, secret);
    forall k | k in entry ensures CleanField(entry, k, secret) <==> !secret(k) && Clean(shaped[k], secret) {
      ShapedField(entry, k, secret);
    }
    assert forall k :: k in shaped ==> k in entry || k == "apiKey";
    assert forall k :: k in entry ==> k in shaped;
  }

  lemma RecordKeepsClean(entry: Fields, secret: string -> bool)
    requires Sane(secret)
    ensures BuildRecord(entry, secret) == Obj(entry["apiKey" := KeyShape(entry)]) <==> CleanButForKey(entry, secret)
  {
    RedactKeepsClean(Obj(entry["apiKey" := KeyShape(entry)]), secret);
    ShapedClean(entry, secret);
  }

  lemma RedactedShape(entry: Fields, secret: string -> bool)
    requires Sane(secret)
    ensures "apiKey" in BuildRecord(entry, secret).fields
    ensures BuildRecord(entry, secret).fields["apiKey"] == Redact(KeyShape(entry), secret)
  {
    var shaped := entry["apiKey" := KeyShape(entry)];
    assert RedactedKey("apiKey", secret) == "apiKey" && "apiKey" in RedactedKeys(shaped, secret);
    assert forall k :: k in shaped && RedactedKey(k, secret) == "apiKey" ==> k == "apiKey";
  }

  lemma PlaintextKept(secret: string -> bool)
    requires Sane(secret)
    ensures var shape := Redact(PLAINTEXT, secret);
            shape.Obj? && shape.fields.Keys == {"kind"} && shape.fields["kind"] == Str("plaintext")
  {
    var fields := PLAINTEXT.fields;
    assert fields.Keys == {"kind"};
    FieldsKept(fields, secret);
  }

  lemma PointerKept(ref: Json, secret: string -> bool)
    requires Sane(secret)
    ensures var shape := Redact(SecretRef(ref), secret);
            && shape.Obj? && shape.fields.Keys == {"kind", "ref"}
            && shape.fields["kind"] == Str("secretref") && shape.fields["ref"] == Redact(ref, secret)
  {
    var fields := SecretRef(ref).fields;
    assert fields.Keys == {"kind", "ref"};
    FieldsKept(fields, secret);
  }

  /** Every record built is well-formed, and its pointer, if it has one, is the redacted pointer. */
  lemma RecordIsWellShaped(entry: Fields, secret: string -> bool)
    requires Sane(secret)
    ensures var shape := Redact(KeyShape(entry), secret);
            WellShaped(shape)
            && (shape.fields["kind"] == Str("secretref") <==> "apiKey" in entry && entry["apiKey"].Obj?)
            && (shape.fields["kind"] == Str("secretref") ==> shape.fields["ref"] == Redact(entry["apiKey"], secret))
  {
    if "apiKey" in entry && entry["apiKey"].Obj? { PointerKept(entry["apiKey"], secret); } else { PlaintextKept(secret); }
  }

  /** What a record gives back, spelled out. */
  lemma RestoredIs(entry: Fields, secret: string -> bool, tag: Option<Tag>, key: string)
    requires Sane(secret)
    ensures var record := BuildRecord(entry, secret);
            RestoreRecord(record, tag, tag, Some(key))
            == Ok(record.fields["apiKey" := if "apiKey" in entry && entry["apiKey"].Obj?
                                            then Redact(entry["apiKey"], secret) else Str(key)])
  {
    RedactedShape(entry, secret);
    RecordIsWellShaped(entry, secret);
  }

  /** The key the entry had is a pointer, or the one that is put back. */
  predicate HadKey(entry: Fields, key: string) {
    "apiKey" in entry && (entry["apiKey"].Obj? || entry["apiKey"] == Str(key))
  }

  lemma CleanRestores(entry: Fields, secret: string -> bool, key: string)
    requires Sane(secret) && CleanButForKey(entry, secret) && HadKey(entry, key)
    ensures RestoreRecord(BuildRecord(entry, secret), None, None, Some(key)) == Ok(entry)
  {
    RestoredIs(entry, secret, None, key);
    RecordKeepsClean(entry, secret);
    var back := if entry["apiKey"].Obj? then Redact(entry["apiKey"], secret) else Str(key);
    assert back == entry["apiKey"] by {
      assert CleanField(entry, "apiKey", secret);
      if entry["apiKey"].Obj? { RedactKeepsClean(entry["apiKey"], secret); }
    }
    PutKeyBack(entry, KeyShape(entry));
  }

  lemma PutKeyBack(entry: Fields, shape: Json)
    requires "apiKey" in entry
    ensures entry["apiKey" := shape]["apiKey" := entry["apiKey"]] == entry
  {
  }

  lemma RestoredIsClean(entry: Fields, secret: string -> bool, key: string)
    requires Sane(secret) && RestoreRecord(BuildRecord(entry, secret), None, None, Some(key)) == Ok(entry)
    ensures CleanButForKey(entry, secret) && HadKey(entry, key)
  {
    RestoredIs(entry, secret, None, key);
    var record := BuildRecord(entry, secret).fields;
    RedactIsComplete(Obj(entry["apiKey" := KeyShape(entry)]), secret);
    forall k | k in entry ensures CleanField(entry, k, secret) {
      if k != "apiKey" {
        assert k in record && entry[k] == record[k];
      } else if entry[k].Obj? {
        RedactIsComplete(entry["apiKey"], secret);
      }
    }
  }

  /**
   * A record with a matching tag, parsed and with the key put back, is the original entry if and only if
   * the entry had that key (or a pointer) and nothing else in it looked like a secret.
   */
  lemma RecordRoundTrip(entry: Fields, secret: string -> bool, tag: Option<Tag>, key: string)
    requires Sane(secret)
    ensures RestoreRecord(BuildRecord(entry, secret), tag, tag, Some(key)) == Ok(entry)
            <==> CleanButForKey(entry, secret) && HadKey(entry, key)
  {
    RestoredIs(entry, secret, tag, key);
    RestoredIs(entry, secret, None, key);
    if CleanButForKey(entry, secret) && HadKey(entry, key) {
      CleanRestores(entry, secret, key);
    }
    if RestoreRecord(BuildRecord(entry, secret), tag, tag, Some(key)) == Ok(entry) {
      RestoredIsClean(entry, secret, key);
    }
  }

  /** A record under somebody else's tag is refused, and whatever is kept shows no secret. */
  lemma RecordIsSafe(entry: Fields, other: Json, secret: string -> bool, tagOf: Json -> Tag, key: Option<string>)
    requires Sane(secret) && forall a, b :: tagOf(a) == tagOf(b) ==> a == b
    requires other != BuildRecord(entry, secret)
    ensures RestoreRecord(other, Some(tagOf(BuildRecord(entry, secret))), Some(tagOf(other)), key).Err?
    ensures Clean(BuildRecord(entry, secret), secret)
    ensures forall a, b :: BuildRecord(entry["apiKey" := Str(a)], secret) == BuildRecord(entry["apiKey" := Str(b)], secret)
  {
    RedactIsComplete(Obj(entry["apiKey" := KeyShape(entry)]), secret);
    forall a, b ensures BuildRecord(entry["apiKey" := Str(a)], secret) == BuildRecord(entry["apiKey" := Str(b)], secret) {
      assert entry["apiKey" := Str(a)]["apiKey" := PLAINTEXT] == entry["apiKey" := Str(b)]["apiKey" := PLAINTEXT];
    }
  }

  // ----- Any number of locks ----------------------------------------------------------------------

  predicate ProxyShaped(entry: Fields, isProxy: string -> bool) {
    "baseUrl" in entry && entry["baseUrl"].Str? && entry["baseUrl"].s != "" && isProxy(entry["baseUrl"].s)
  }

  datatype Capture = New(record: Json) | ReusePrior(record: Json) | RelockNoPrior | NoEntry

  /** `classify_oc_entry_for_capture`. */
  ghost function Classify(current: Option<Fields>, prior: Option<Json>, isProxy: string -> bool, secret: string -> bool): Capture {
    if current.None? then
      if prior.Some? then ReusePrior(prior.value) else NoEntry
    else if ProxyShaped(current.value, isProxy) then
      if prior.Some? then ReusePrior(prior.value) else RelockNoPrior
    else New(BuildRecord(current.value, secret))
  }

  /** What the row holds after the lock's upsert. */
  function Stored(c: Capture): Option<Json> {
    match c
    case New(r) => Some(r)
    case ReusePrior(r) => Some(r)
    case RelockNoPrior => None
    case NoEntry => None
  }

  /** The user, or another tool, changes or removes the entry; or a lock runs and writes its own. */
  datatype Event = Edit(entry: Option<Fields>) | Lock(change: Change)

  /** `seen` is the last entry that was not proxy-shaped when a lock looked. */
  datatype History = History(entry: Option<Fields>, stored: Option<Json>, seen: Option<Fields>)

  ghost function Step(h: History, e: Event, isProxy: string -> bool, secret: string -> bool): History {
    match e
    case Edit(entry) => h.(entry := entry)
    case Lock(c) =>
      var seen := if h.entry.Some? && !ProxyShaped(h.entry.value, isProxy) then h.entry else h.seen;
      History(Some(Overlay(h.entry.GetOr(map[]), c)), Stored(Classify(h.entry, h.stored, isProxy, secret)), seen)
  }

  ghost function Replayed(es: seq<Event>, isProxy: string -> bool, secret: string -> bool, first: Option<Fields>): History {
    if es == [] then History(first, None, None)
    else Step(Replayed(es[..|es| - 1], isProxy, secret, first), es[|es| - 1], isProxy, secret)
  }

  lemma NeverProxyShaped(entry: Fields, isProxy: string -> bool, secret: string -> bool)
    requires Sane(secret) && !ProxyShaped(entry, isProxy)
    ensures !ProxyShaped(BuildRecord(entry, secret).fields, isProxy)
  {
    var shaped := entry["apiKey" := KeyShape(entry)];
    var record := BuildRecord(entry, secret).fields;
    if "baseUrl" in record {
      var k :| k in shaped && RedactedKey(k, secret) == "baseUrl" && record["baseUrl"] == Redact(shaped[k], secret);
      assert k == "baseUrl" && shaped[k] == entry[k];
    }
  }

  /**
   * Over any history of locks, edits and deletions the row holds the record of the last entry that was
   * not proxy-shaped when a lock saw it, or nothing if there was none; never a proxy-shaped one.
   */
  lemma {:induction false} RelocksKeepTheOriginal(es: seq<Event>, isProxy: string -> bool, secret: string -> bool, first: Option<Fields>)
    requires Sane(secret)
    ensures var h := Replayed(es, isProxy, secret, first);
            && h.stored == (if h.seen.Some? then Some(BuildRecord(h.seen.value, secret)) else None)
            && (h.seen.Some? ==> !ProxyShaped(h.seen.value, isProxy))
            && (h.stored.Some? ==> h.stored.value.Obj? && !ProxyShaped(h.stored.value.fields, isProxy))
    decreases |es|
  {
    if es != [] { RelocksKeepTheOriginal(es[..|es| - 1], isProxy, secret, first); }
    var h := Replayed(es, isProxy, secret, first);
    if h.seen.Some? { NeverProxyShaped(h.seen.value, isProxy, secret); }
  }
}
