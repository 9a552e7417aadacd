/**
 * Where the Fernet key lives: an environment variable, the OS keyring and a key file.
 * The class follows `src/worthless/cli/keystore.py` step by step; the functions above it are
 * its specification, and what the bootstrap protocol runs on.
 */
module Keystore {
  import opened Common

  type Key = string

  /** `ringOk` is the backend type check of `keyring_available`, not a keyring read. */
  datatype Store = Store(env: Option<Key>, file: Option<Key>, ring: Option<Key>, ringOk: bool)

  datatype Lookup = Found(key: Key) | NotFound | Refused

  /** What a single read of the store met: a keyring call that raised, a file of the wrong mode or owner. */
  datatype ReadFaults = ReadFaults(ringRaises: bool, fileInvalid: bool, serviceManaged: bool)

  /** What a single write met. */
  datatype WriteFaults = WriteFaults(ringRaises: bool, unlinkRaises: bool)

  const NO_READ_FAULTS := ReadFaults(false, false, false)

  /** Some backend that this process can consult holds a key. */
  predicate Keyed(s: Store) {
    s.env.Some? || s.file.Some? || (s.ringOk && s.ring.Some?)
  }

  /** `_provably_keyless`: decided without touching the keyring. */
  predicate ProvablyKeyless(s: Store) {
    s.env.None? && s.file.None? && !s.ringOk
  }

  function FromFile(key: Key, f: ReadFaults): Lookup {
    if f.fileInvalid then Refused else Found(key)
  }

  /** `read_fernet_key`: env, then (file first when service-managed) keyring, then file. */
  function Read(s: Store, f: ReadFaults): Lookup {
    if s.env.Some? then Found(s.env.value)
    else if f.serviceManaged && s.file.Some? then FromFile(s.file.value, f)
    else if s.ringOk && !f.ringRaises && s.ring.Some? then Found(s.ring.value)
    else if s.file.Some? then
      if s.ringOk && f.ringRaises && !f.serviceManaged then Refused else FromFile(s.file.value, f)
    else NotFound
  }

  /** `store_fernet_key`: the keyring, else the file; a keyring write removes the stale file. */
  function Write(s: Store, key: Key, f: WriteFaults): Store {
    if s.ringOk && !f.ringRaises then
      s.(ring := Some(key), file := if f.unlinkRaises then s.file else None)
    else
      s.(file := Some(key))
  }

  /** A read is truthful unless the keyring raised while it alone held the key. */
  predicate Truthful(s: Store, f: ReadFaults) {
    f.ringRaises && s.env.None? && s.file.None? && s.ringOk ==> s.ring.None?
  }

  /** "No key" is answered falsely exactly when the keyring raised while it alone held the key. */
  lemma NotFoundIsHonest(s: Store, f: ReadFaults)
    ensures (Read(s, f) == NotFound ==> !Keyed(s)) <==> Truthful(s, f)
    ensures !Keyed(s) ==> Read(s, f) == NotFound
  {
  }

  class KeyStore {
    var env: Option<Key>
    var file: Option<Key>
    var ring: Option<Key>
    var ringOk: bool

    function Abs(): Store
      reads this
    {
      Store(env, file, ring, ringOk)
    }

    constructor (s: Store)
      ensures Abs() == s
    {
      env, file, ring, ringOk := s.env, s.file, s.ring, s.ringOk;
    }

    method ReadFernetKey(f: ReadFaults) returns (r: Lookup)
      ensures r == Read(Abs(), f)
    {
      if env.Some? {
        return Found(env.value);
      }
      if f.serviceManaged && file.Some? {
        return FromFile(file.value, f);
      }
      var keyringReadFailed := false;
      if ringOk {
        if f.ringRaises {
          keyringReadFailed := true;
        } else if ring.Some? {
          return Found(ring.value);
        }
      }
      if file.Some? {
        if keyringReadFailed && !f.serviceManaged {
          return Refused;
        }
        return FromFile(file.value, f);
      }
      return NotFound;
    }

    method StoreFernetKey(key: Key, f: WriteFaults)
      modifies this
      ensures Abs() == Write(old(Abs()), key, f)
    {
      if ringOk && !f.ringRaises {
        ring := Some(key);
        if file.Some? && !f.unlinkRaises {
          file := None;
        }
        return;
      }
      file := Some(key);
    }

    /**
     * `migrate_file_to_keyring`. Whatever goes wrong, every later honest read answers as before;
     * `true` is returned exactly when the keyring took the key over from the file.
     */
    method MigrateFileToKeyring(f: WriteFaults, fileInvalid: bool, readRaises: bool) returns (migrated: bool)
      modifies this
      ensures Abs() == Migrate(old(Abs()), f, fileInvalid, readRaises)
      ensures migrated <==> old(file.Some?) && file.None?
    {
      if !ringOk {
        return false;
      }
      if file.None? {
        return false;
      }
      if readRaises {
        return false;  // keyring.get_password raised: swallowed
      }
      if ring.Some? {
        return false;
      }
      if fileInvalid {
        return false;  // KEY_REFUSED, swallowed
      }
      var key := file.value;
      StoreFernetKey(key, f);
      migrated := file.None?;
    }
  }

  function Migrate(s: Store, f: WriteFaults, fileInvalid: bool, readRaises: bool): Store {
    if s.ringOk && s.file.Some? && !readRaises && s.ring.None? && !fileInvalid
    then Write(s, s.file.value, f)
    else s
  }

  /** Migration never changes which key the store answers with, in either read order. */
  lemma MigrationPreservesKey(s: Store, f: WriteFaults, fileInvalid: bool, readRaises: bool, managed: bool)
    ensures var read := ReadFaults(false, false, managed);
            Read(Migrate(s, f, fileInvalid, readRaises), read) == Read(s, read)
  {
  }

  /** What was stored is what an interactive read returns, unless an environment variable overrides it. */
  lemma StoredKeyIsRead(s: Store, key: Key, f: WriteFaults)
    ensures Keyed(Write(s, key, f))
    ensures Read(Write(s, key, f), NO_READ_FAULTS) == Found(key) <==>
            (s.env == None || s.env == Some(key)) &&
            (s.ringOk && f.ringRaises ==> s.env.Some? || s.ring == None || s.ring == Some(key))
  {
  }
}
