/**
 * Splitting a key into two shards and putting it together again: `src/worthless/crypto/splitter.py`,
 * `src/worthless/crypto/reconstruction.py` and `src/worthless/crypto/charsets.py`. Randomness is an
 * arbitrary mask, and the HMAC commitment an abstract function of key and nonce.
 */
module KeySplitting {
  import opened Common

  // ----- Charsets -------------------------------------------------------------------------------

  datatype Charset = Alphanumeric | Base64Url | Printable

  function Size(cs: Charset): (n: nat)
    ensures n > 0
  {
    match cs
    case Alphanumeric => 62
    case Base64Url => 64
    case Printable => 94
  }

  /** Letters, digits, then `_-`; or the printable ASCII characters in their order. */
  function CharAt(cs: Charset, i: nat): char
    requires i < Size(cs)
  {
    if cs.Printable? then 33 as char + i as char
    else if i < 26 then 'a' + i as char
    else if i < 52 then 'A' + (i - 26) as char
    else if i < 62 then '0' + (i - 52) as char
    else if i == 62 then '_' else '-'
  }

  predicate InCharset(cs: Charset, c: char) {
    match cs
    case Alphanumeric => 'a' <= c <= 'z' || 'A' <= c <= 'Z' || '0' <= c <= '9'
    case Base64Url => 'a' <= c <= 'z' || 'A' <= c <= 'Z' || '0' <= c <= '9' || c == '_' || c == '-'
    case Printable => '!' <= c <= '~'
  }

  function IndexOf(cs: Charset, c: char): (i: nat)
    requires InCharset(cs, c)
    ensures i < Size(cs) && CharAt(cs, i) == c
  {
    if cs.Printable? then (c - 33 as char) as nat
    else if 'a' <= c <= 'z' then (c - 'a') as nat
    else if 'A' <= c <= 'Z' then 26 + (c - 'A') as nat
    else if '0' <= c <= '9' then 52 + (c - '0') as nat
    else if c == '_' then 62 else 63
  }

  lemma IndexOfChar(cs: Charset, i: nat)
    requires i < Size(cs)
    ensures InCharset(cs, CharAt(cs, i)) && IndexOf(cs, CharAt(cs, i)) == i
  {
  }

  predicate AllIn(cs: Charset, s: string) { forall i :: 0 <= i < |s| ==> InCharset(cs, s[i]) }

  function ProviderCharset(provider: string): Option<Charset> {
    if provider == "openai" || provider == "anthropic" || provider == "google" then Some(Base64Url)
    else if provider == "xai" then Some(Alphanumeric)
    else None
  }

  function OwnCharset(provider: Option<string>): Option<Charset> {
    if provider.Some? then ProviderCharset(provider.value) else None
  }

  /** `_detect_charset`: the provider's own if it fits, else the smallest that does. */
  function DetectCharset(body: string, provider: Option<string>): Option<Charset> {
    var own := OwnCharset(provider);
    if own.Some? && AllIn(own.value, body) then own
    else if AllIn(Alphanumeric, body) then Some(Alphanumeric)
    else if AllIn(Base64Url, body) then Some(Base64Url)
    else if AllIn(Printable, body) then Some(Printable)
    else None
  }

  /** It covers the text, and no smaller one does. */
  predicate Smallest(cs: Charset, body: string) {
    AllIn(cs, body) && forall other :: AllIn(other, body) ==> Size(cs) <= Size(other)
  }

  /**
   * A charset is found if and only if all is printable; it covers the body; and it is the smallest that does,
   * unless the provider's own covers the body and is not.
   */
  lemma DetectCovers(body: string, provider: Option<string>)
    ensures DetectCharset(body, provider).Some? <==> AllIn(Printable, body)
    ensures DetectCharset(body, provider).Some? ==> AllIn(DetectCharset(body, provider).value, body)
    ensures DetectCharset(body, provider).Some? ==>
              var own := OwnCharset(provider);
              (Smallest(DetectCharset(body, provider).value, body)
               <==> (own.Some? && AllIn(own.value, body) ==> Smallest(own.value, body)))
  {
    forall cs | AllIn(cs, body) ensures AllIn(Printable, body) {
      forall i | 0 <= i < |body| ensures InCharset(Printable, body[i]) { assert InCharset(cs, body[i]); }
    }
  }

  // ----- One character, then all of them ----------------------------------------------------------

  /** One wrap around the charset, in either direction. */
  lemma ModNear(cs: Charset, x: int)
    requires 0 - Size(cs) <= x < 2 * Size(cs)
    ensures x % Size(cs) == if x < 0 then x + Size(cs) else if x < Size(cs) then x else x - Size(cs)
  {
    match cs
    case Alphanumeric => assert x % 62 == if x < 0 then x + 62 else if x < 62 then x else x - 62;
    case Base64Url => assert x % 64 == if x < 0 then x + 64 else if x < 64 then x else x - 64;
    case Printable => assert x % 94 == if x < 0 then x + 94 else if x < 94 then x else x - 94;
  }

  /** Index arithmetic modulo the size of the charset. */
  function Down(cs: Charset, i: nat, j: nat): (k: nat)
    requires i < Size(cs) && j < Size(cs)
    ensures k < Size(cs)
  {
    (i - j) % Size(cs)
  }

  function Up(cs: Charset, i: nat, j: nat): (k: nat)
    requires i < Size(cs) && j < Size(cs)
    ensures k < Size(cs)
  {
    (i + j) % Size(cs)
  }

  lemma UpDown(cs: Charset, i: nat, j: nat)
    requires i < Size(cs) && j < Size(cs)
    ensures Up(cs, Down(cs, i, j), j) == i && Down(cs, Up(cs, i, j), j) == i && Up(cs, i, j) == Up(cs, j, i)
  {
    ModNear(cs, i - j);
    ModNear(cs, i + j);
    ModNear(cs, Down(cs, i, j) + j);
    ModNear(cs, Up(cs, i, j) - j);
  }

  /** The shard-A character for a key character and a shard-B character. */
  function Minus(cs: Charset, k: char, b: char): (a: char)
    requires InCharset(cs, k) && InCharset(cs, b)
  {
    CharAt(cs, Down(cs, IndexOf(cs, k), IndexOf(cs, b)))
  }

  function Plus(cs: Charset, a: char, b: char): (k: char)
    requires InCharset(cs, a) && InCharset(cs, b)
  {
    CharAt(cs, Up(cs, IndexOf(cs, a), IndexOf(cs, b)))
  }

  lemma PlusMinus(cs: Charset, x: char, y: char)
    requires InCharset(cs, x) && InCharset(cs, y)
    ensures InCharset(cs, Minus(cs, x, y)) && Plus(cs, Minus(cs, x, y), y) == x
    ensures InCharset(cs, Plus(cs, x, y)) && Minus(cs, Plus(cs, x, y), y) == x
    ensures Plus(cs, x, y) == Plus(cs, y, x)
  {
    var (i, j) := (IndexOf(cs, x), IndexOf(cs, y));
    UpDown(cs, i, j);
    IndexOfChar(cs, Down(cs, i, j));
    IndexOfChar(cs, Up(cs, i, j));
  }

  /** Shard-A of a body, for a given shard-B. */
  function ShardA(cs: Charset, body: string, b: string): (a: string)
    requires |body| == |b| && AllIn(cs, body) && AllIn(cs, b)
    ensures |a| == |body|
  {
    seq(|body|, i requires 0 <= i < |body| => Minus(cs, body[i], b[i]))
  }

  /** The body two shards stand for. */
  function Body(cs: Charset, a: string, b: string): (body: string)
    requires |a| == |b| && AllIn(cs, a) && AllIn(cs, b)
    ensures |body| == |a|
  {
    seq(|a|, i requires 0 <= i < |a| => Plus(cs, a[i], b[i]))
  }

  /** Shard-A stays in the charset, keeps the length, and with shard-B gives the body back. */
  lemma ShardsGiveBody(cs: Charset, body: string, b: string)
    requires |body| == |b| && AllIn(cs, body) && AllIn(cs, b)
    ensures AllIn(cs, ShardA(cs, body, b)) && Body(cs, ShardA(cs, body, b), b) == body
  {
    forall i | 0 <= i < |body|
      ensures InCharset(cs, Minus(cs, body[i], b[i])) && Plus(cs, Minus(cs, body[i], b[i]), b[i]) == body[i]
    {
      PlusMinus(cs, body[i], b[i]);
    }
  }

  /** Shard-B with one shard-A stands for one body, and every body of the length for one shard-B. */
  lemma ShardBIsOneToOne(cs: Charset, a: string, body: string)
    requires |a| == |body| && AllIn(cs, a) && AllIn(cs, body)
    ensures var b := ShardA(cs, body, a); AllIn(cs, b) && Body(cs, a, b) == body
    ensures forall b :: |b| == |a| && AllIn(cs, b) && Body(cs, a, b) == body ==> b == ShardA(cs, body, a)
  {
    var own := ShardA(cs, body, a);
    forall i | 0 <= i < |a| ensures InCharset(cs, own[i]) && Plus(cs, a[i], own[i]) == body[i] {
      PlusMinus(cs, body[i], a[i]);
      PlusMinus(cs, own[i], a[i]);
    }
    forall b | |b| == |a| && AllIn(cs, b) && Body(cs, a, b) == body ensures b == own {
      forall i | 0 <= i < |a| ensures b[i] == own[i] {
        assert Body(cs, a, b)[i] == Plus(cs, a[i], b[i]);
        PlusMinus(cs, b[i], a[i]);
      }
    }
  }

  // ----- Whole keys -------------------------------------------------------------------------------

  datatype KeyError =
    | EmptyKey | WrongPrefix | EmptyBody | OutsidePrintable | UnknownCharset | LengthMismatch | OutsideCharset | Tampered

  /** `derive_shard_a_fp`: a stored charset may be none we know. */
  function DeriveShardA(key: string, b: string, prefix: string, charset: Option<Charset>): Result<string, KeyError> {
    if !(prefix <= key) then Err(WrongPrefix)
    else if charset.None? then Err(UnknownCharset)
    else
      var body := key[|prefix|..];
      if |body| != |b| then Err(LengthMismatch)
      else if !AllIn(charset.value, body) || !AllIn(charset.value, b) then Err(OutsideCharset)
      else Ok(prefix + ShardA(charset.value, body, b))
  }

  /** What `reconstruct_key_fp` computes before it verifies the commitment. */
  function Combine(shardA: string, shardB: string, prefix: string, charset: Option<Charset>): Result<string, KeyError> {
    if !(prefix <= shardA) then Err(WrongPrefix)
    else if |shardA| - |prefix| != |shardB| then Err(LengthMismatch)
    else if charset.None? then Err(UnknownCharset)
    else
      var a := shardA[|prefix|..];
      if !AllIn(charset.value, a) || !AllIn(charset.value, shardB) then Err(OutsideCharset)
      else Ok(prefix + Body(charset.value, a, shardB))
  }

  /** Deriving shard-A and combining are inverses of each other, whatever the key and the mask. */
  lemma DeriveCombine(key: string, shardA: string, b: string, prefix: string, charset: Option<Charset>)
    ensures DeriveShardA(key, b, prefix, charset) == Ok(shardA) <==> Combine(shardA, b, prefix, charset) == Ok(key)
  {
    if DeriveShardA(key, b, prefix, charset) == Ok(shardA) {
      ShardsGiveBody(charset.value, key[|prefix|..], b);
      assert shardA[|prefix|..] == ShardA(charset.value, key[|prefix|..], b);
      assert key == prefix + key[|prefix|..];
    }
    if Combine(shardA, b, prefix, charset) == Ok(key) {
      var a := shardA[|prefix|..];
      forall i | 0 <= i < |a|
        ensures InCharset(charset.value, Plus(charset.value, a[i], b[i]))
        ensures Minus(charset.value, Plus(charset.value, a[i], b[i]), b[i]) == a[i]
      {
        PlusMinus(charset.value, a[i], b[i]);
      }
      assert key[|prefix|..] == Body(charset.value, a, b);
      assert ShardA(charset.value, key[|prefix|..], b) == a;
      assert shardA == prefix + a;
    }
  }

  /** The checks of `split_key_fp`. */
  function Splittable(key: string, prefix: string, provider: Option<string>): Result<Charset, KeyError> {
    if key == "" then Err(EmptyKey)
    else if !(prefix <= key) then Err(WrongPrefix)
    else if |key| == |prefix| then Err(EmptyBody)
    else
      var cs := DetectCharset(key[|prefix|..], provider);
      if cs.None? then Err(OutsidePrintable) else Ok(cs.value)
  }

  // ----- The loops ----------------------------------------------------------------------------------

  /** `secrets.randbelow`. */
  method RandBelow(n: nat) returns (mask: nat)
    requires n > 0
    ensures mask < n
  {
    var any: int := *;
    mask := if 0 <= any < n then any else 0;
  }

  /**
   * `split_key_fp`: whatever the masks, shard-A has the key's prefix, length and charset, and the two
   * shards combine to the key.
   */
  method SplitKeyFp(key: string, prefix: string, provider: Option<string>)
    returns (r: Result<(string, string, Charset), KeyError>)
    ensures r.Err? <==> Splittable(key, prefix, provider).Err?
    ensures r.Err? ==> r.error == Splittable(key, prefix, provider).error
    ensures r.Ok? ==>
              var (shardA, shardB, cs) := r.value;
              && Splittable(key, prefix, provider) == Ok(cs)
              && |shardA| == |key| && prefix <= shardA && AllIn(cs, shardA[|prefix|..])
              && |shardB| == |key| - |prefix| && AllIn(cs, shardB)
              && Combine(shardA, shardB, prefix, Some(cs)) == Ok(key)
  {
    var checked := Splittable(key, prefix, provider);
    if checked.Err? { return Err(checked.error); }
    var (cs, body) := (checked.value, key[|prefix|..]);
    DetectCovers(body, provider);
    var (a, b) := ("", "");
    for i := 0 to |body|
      invariant |a| == |b| == i && AllIn(cs, b)
      invariant forall j :: 0 <= j < i ==> a[j] == Minus(cs, body[j], b[j])
    {
      var mask := RandBelow(Size(cs));
      IndexOfChar(cs, mask);
      a := a + [CharAt(cs, Down(cs, IndexOf(cs, body[i]), mask))];
      b := b + [CharAt(cs, mask)];
    }
    assert a == ShardA(cs, body, b);
    ShardsGiveBody(cs, body, b);
    assert (prefix + a)[|prefix|..] == a && prefix + body == key;
    return Ok((prefix + a, b, cs));
  }

  predicate Zeroed(a: array<char>)
    reads a
  {
    forall i :: 0 <= i < a.Length ==> a[i] == '\0'
  }

  /** `zero_buf`. */
  method ZeroBuf(a: array<char>)
    modifies a
    ensures Zeroed(a)
  {
    for i := 0 to a.Length
      invariant forall j :: 0 <= j < i ==> a[j] == '\0'
    {
      a[i] := '\0';
    }
  }

  /** The guarded loop of `reconstruct_key_fp`. */
  method FillBody(key: array<char>, prefix: string, a: string, b: string, cs: Charset) returns (ok: bool)
    requires key.Length == |prefix| + |a| && |a| == |b| && key[..|prefix|] == prefix
    modifies key
    ensures ok <==> AllIn(cs, a) && AllIn(cs, b)
    ensures if ok then key[..] == prefix + Body(cs, a, b) else Zeroed(key)
  {
    for i := 0 to |a|
      invariant key[..|prefix|] == prefix
      invariant forall j :: 0 <= j < i ==> InCharset(cs, a[j]) && InCharset(cs, b[j])
      invariant forall j :: 0 <= j < i ==> key[|prefix| + j] == Plus(cs, a[j], b[j])
    {
      if !InCharset(cs, a[i]) || !InCharset(cs, b[i]) {
        ZeroBuf(key);
        return false;
      }
      key[|prefix| + i] := CharAt(cs, Up(cs, IndexOf(cs, a[i]), IndexOf(cs, b[i])));
    }
    assert key[..] == key[..|prefix|] + key[|prefix|..];
    assert key[|prefix|..] == Body(cs, a, b);
    return true;
  }

  /**
   * `reconstruct_key_fp`: fills a fresh buffer character by character; a character outside the charset or
   * a commitment that does not match leaves the buffer all zero.
   */
  method ReconstructKeyFp(shardA: string, shardB: string, commitment: string, nonce: string, prefix: string,
                          charset: Option<Charset>, hmac: (string, string) -> string)
    returns (r: Result<(), KeyError>, key: array<char>)
    ensures fresh(key)
    ensures r.Ok? <==> Combine(shardA, shardB, prefix, charset).Ok?
                       && hmac(nonce, Combine(shardA, shardB, prefix, charset).value) == commitment
    ensures r.Ok? ==> Combine(shardA, shardB, prefix, charset) == Ok(key[..])
    ensures r.Err? ==> Zeroed(key)
    ensures r.Err? && Combine(shardA, shardB, prefix, charset).Err? ==>
              r.error == Combine(shardA, shardB, prefix, charset).error
  {
    if !(prefix <= shardA) { key := new char[0]; return Err(WrongPrefix), key; }
    var a := shardA[|prefix|..];
    if |a| != |shardB| { key := new char[0]; return Err(LengthMismatch), key; }
    if charset.None? { key := new char[0]; return Err(UnknownCharset), key; }
    var cs := charset.value;
    key := new char[|shardA|](i => '\0');
    for i := 0 to |prefix|
      invariant key[..i] == prefix[..i]
    {
      key[i] := prefix[i];
    }
    var ok := FillBody(key, prefix, a, shardB, cs);
    if !ok { return Err(OutsideCharset), key; }
    if hmac(nonce, key[..]) != commitment {
      ZeroBuf(key);
      return Err(Tampered), key;
    }
    return Ok(()), key;
  }

  // ----- The byte-level split ---------------------------------------------------------------------

  function Xor(a: seq<bv8>, b: seq<bv8>): (c: seq<bv8>)
    requires |a| == |b|
    ensures |c| == |a|
  {
    seq(|a|, i requires 0 <= i < |a| => a[i] ^ b[i])
  }

  /** `split_key` then `reconstruct_key`: with any mask the key comes back; one shard and the key fix the other. */
  lemma XorIsOneToOne(key: seq<bv8>, mask: seq<bv8>)
    requires |key| == |mask|
    ensures Xor(Xor(key, mask), mask) == key
    ensures forall other :: |other| == |key| && Xor(other, mask) == Xor(key, mask) ==> other == key
  {
    forall i | 0 <= i < |key| ensures (key[i] ^ mask[i]) ^ mask[i] == key[i] {
    }
    forall other | |other| == |key| && Xor(other, mask) == Xor(key, mask) ensures other == key {
      forall i | 0 <= i < |key| ensures other[i] == key[i] {
        assert Xor(other, mask)[i] == Xor(key, mask)[i];
        assert (other[i] ^ mask[i]) ^ mask[i] == other[i];
      }
    }
  }

  /** `reconstruct_key`: the legacy form of the above. */
  method ReconstructKey(shardA: seq<bv8>, shardB: seq<bv8>, commitment: string, nonce: string,
                        hmac: (string, seq<bv8>) -> string)
    returns (r: Result<(), KeyError>, key: array<bv8>)
    ensures fresh(key)
    ensures r.Ok? <==> |shardA| == |shardB| && hmac(nonce, Xor(shardA, shardB)) == commitment
    ensures r.Ok? ==> key[..] == Xor(shardA, shardB)
    ensures r.Err? ==> forall i :: 0 <= i < key.Length ==> key[i] == 0
  {
    if |shardA| != |shardB| { key := new bv8[0]; return Err(LengthMismatch), key; }
    key := new bv8[|shardA|](i requires 0 <= i < |shardA| => shardA[i] ^ shardB[i]);
    assert key[..] == Xor(shardA, shardB);
    if hmac(nonce, key[..]) != commitment {
      for i := 0 to key.Length
        invariant forall j :: 0 <= j < i ==> key[j] == 0
      {
        key[i] := 0;
      }
      return Err(Tampered), key;
    }
    return Ok(()), key;
  }
}
