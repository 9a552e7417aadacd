/**
 * `install` of `src/worthless/openclaw/skill.py`: copy to a staging folder, move the previous install
 * aside, rename the staging folder into place. Any call may fail, an interrupt may come after any of
 * them, the process may be killed after any of them, and another installer may put its folder in place
 * while the previous one is aside.
 */
module SkillInstall {
  import opened Common

  type Files = map<string, string>

  datatype Name = Final | Staging(token: nat) | Retired(token: nat)

  type Dir = map<Name, Files>

  const SKILL_FILE := "SKILL.md"

  /** A file next to the module. */
  datatype Asset = Asset(name: string, content: string, isFile: bool)

  predicate StartsWith(s: string, p: string) { p <= s }
  predicate EndsWith(s: string, p: string) { |s| >= |p| && s[|s| - |p|..] == p }

  /** Package noise, dotfiles and bytecode are not shipped. */
  predicate Ships(a: Asset) {
    && !StartsWith(a.name, ".") && !StartsWith(a.name, "__")
    && !EndsWith(a.name, ".py") && !EndsWith(a.name, ".pyc") && a.isFile
  }

  /** The complete new folder. */
  function Shipped(assets: seq<Asset>): Files {
    if assets == [] then map[]
    else
      var a, before := assets[|assets| - 1], Shipped(assets[..|assets| - 1]);
      if Ships(a) then before[a.name := a.content] else before
  }

  // ----- What must never be lost --------------------------------------------------------------------

  /** What an install starts from and works towards; `others` is what racing installers put in place. */
  datatype Plan = Plan(token: nat, previous: Option<Files>, wanted: Files)

  /** The skill in place is the new one. */
  predicate NewInPlace(dir: Dir, p: Plan) {
    Final in dir && SKILL_FILE in dir[Final] && SKILL_FILE in p.wanted && dir[Final][SKILL_FILE] == p.wanted[SKILL_FILE]
  }

  /** The previous install is in place or aside, whole; or the new one is in place. */
  predicate NotLost(dir: Dir, p: Plan) {
    p.previous.Some? ==>
      || (Final in dir && dir[Final] == p.previous.value)
      || (Retired(p.token) in dir && dir[Retired(p.token)] == p.previous.value)
      || NewInPlace(dir, p)
  }

  /** What is in place is one of three whole folders, never a staging copy that failed. */
  predicate Whole(dir: Dir, p: Plan, others: set<Files>) {
    Final in dir ==> p.previous == Some(dir[Final]) || dir[Final] == p.wanted || dir[Final] in others
  }

  /** ... and what is aside can be put back. */
  predicate Safe(dir: Dir, p: Plan, others: set<Files>) {
    && NotLost(dir, p) && Whole(dir, p, others)
    && (Retired(p.token) in dir && Final !in dir ==> p.previous == Some(dir[Retired(p.token)]))
    && (p.previous.None? ==> Retired(p.token) !in dir)
  }

  /** Everything but one name is as it was. */
  ghost predicate SameBut(was: Dir, now: Dir, n: Name) {
    forall m :: m != n ==> (m in was <==> m in now) && (m in was ==> was[m] == now[m])
  }

  // ----- The skills folder --------------------------------------------------------------------------

  datatype Failure = NotFound | NotEmpty | OtherError

  class SkillsDir {
    var dir: Dir
    /** Every state the folder has been in: a kill leaves one of them. */
    ghost var trace: seq<Dir>
    ghost var others: set<Files>
    /** Calls that failed and interrupts; and of these, folders not removed whole and installs not put back. */
    ghost var faults: nat
    ghost var leftovers: nat
    ghost var stuck: nat
    const racing: bool

    constructor (d: Dir, racing: bool)
      ensures dir == d && trace == [] && others == {} && this.racing == racing
    {
      dir, trace, others, faults, leftovers, stuck, this.racing := d, [], {}, 0, 0, 0, racing;
    }

    /** Every state since has been safe, and this one is. */
    twostate predicate Kept(p: Plan)
      reads this
    {
      && old(trace) <= trace && old(others) <= others && (!racing ==> others == old(others))
      && old(faults) <= faults && old(leftovers) <= leftovers && old(stuck) <= stuck
      && Safe(dir, p, others)
      && forall k :: |old(trace)| <= k < |trace| ==> Safe(trace[k], p, others)
    }

    /** A failing call, or an interrupt after it. */
    method Fault() returns (now: bool)
      modifies this`faults
      ensures faults == old(faults) + if now then 1 else 0
    {
      now := *;
      if now { faults := faults + 1; }
    }

    /** Another installer finds the place empty. */
    method Race(ghost p: Plan)
      requires Safe(dir, p, others)
      modifies this
      ensures Kept(p)
      ensures forall n :: n != Final ==> (n in dir <==> n in old(dir)) && (n in dir ==> dir[n] == old(dir)[n])
      ensures Final in old(dir) || !racing ==> dir == old(dir)
      ensures faults == old(faults) && leftovers == old(leftovers) && stuck == old(stuck)
    {
      var now: bool := *;
      if racing && now && Final !in dir {
        var theirs: Files := *;
        others := others + {theirs};
        dir := dir[Final := theirs];
        trace := trace + [dir];
      }
    }

    /** mkdir of the staging folder. */
    method Mkdtemp(t: nat, ghost p: Plan) returns (ok: bool)
      requires Safe(dir, p, others) && p.token == t && Staging(t) !in dir
      modifies this
      ensures Kept(p)
      ensures ok ==> Staging(t) in dir && dir[Staging(t)] == map[]
      ensures dir == if ok then old(dir)[Staging(t) := map[]] else old(dir)
      ensures !ok ==> faults > old(faults)
    {
      var broken := Fault();
      ok := !broken;
      if ok {
        dir := dir[Staging(t) := map[]];
        trace := trace + [dir];
      }
    }

    /** Writing one file: all of it, or some front part and an error. */
    method WriteFile(t: nat, name: string, content: string, ghost p: Plan) returns (ok: bool)
      requires Safe(dir, p, others) && Staging(t) in dir
      modifies this
      ensures Kept(p) && Staging(t) in dir && dir == old(dir)[Staging(t) := dir[Staging(t)]]
      ensures ok ==> dir[Staging(t)] == old(dir[Staging(t)])[name := content]
      ensures !ok ==> faults > old(faults)
    {
      var broken := Fault();
      ok := !broken;
      var some: int := *;
      var written := if ok then content else if 0 <= some <= |content| then content[..some] else "";
      dir := dir[Staging(t) := dir[Staging(t)][name := written]];
      trace := trace + [dir];
    }

    /** Move the previous install aside. */
    method Retire(t: nat, ghost p: Plan) returns (r: Result<(), Failure>)
      requires Safe(dir, p, others) && p.token == t && Retired(t) !in dir && (Final in dir ==> p.previous == Some(dir[Final]))
      modifies this
      ensures Kept(p) && (Staging(t) in old(dir) ==> Staging(t) in dir && dir[Staging(t)] == old(dir)[Staging(t)])
      ensures r.Ok? ==> Final in old(dir) && dir == (old(dir) - {Final})[Retired(t) := old(dir)[Final]]
      ensures r.Err? ==> dir == old(dir)
      ensures r == Err(NotFound) <==> Final !in old(dir) && faults == old(faults)
      ensures r == Err(OtherError) <==> faults > old(faults)
      ensures r.Err? ==> r.error == NotFound || r.error == OtherError
    {
      var broken := Fault();
      if broken { return Err(OtherError); }
      if Final !in dir { return Err(NotFound); }
      dir := (dir - {Final})[Retired(t) := dir[Final]];
      trace := trace + [dir];
      return Ok(());
    }

    /** rename(2) of the complete staging folder into place; a folder with files in it is not replaced. */
    method Replace(t: nat, ghost p: Plan) returns (r: Result<(), Failure>)
      requires Safe(dir, p, others) && p.token == t && Staging(t) in dir && dir[Staging(t)] == p.wanted
      requires SKILL_FILE in p.wanted
      modifies this
      ensures Kept(p)
      ensures r.Ok? ==> NewInPlace(dir, p) && dir[Final] == p.wanted && Staging(t) !in dir
      ensures !racing && r.Err? ==> dir == old(dir)
      ensures !racing && Final !in dir && r.Err? ==> faults > old(faults)
      ensures r == Err(NotEmpty) ==> Final in dir
      ensures forall n :: n != Final && n != Staging(t) ==> (n in dir <==> n in old(dir)) && (n in dir ==> dir[n] == old(dir)[n])
      ensures leftovers == old(leftovers)
    {
      Race(p);
      var broken := Fault();
      if broken { return Err(OtherError); }
      if Final in dir && dir[Final] != map[] { return Err(NotEmpty); }
      dir := (dir - {Staging(t)})[Final := dir[Staging(t)]];
      trace := trace + [dir];
      return Ok(());
    }

    /** Is the winner's skill the one that was to be installed? Reading may fail. */
    method SameSkill(skill: string, ghost p: Plan) returns (r: Option<bool>)
      requires Safe(dir, p, others) && SKILL_FILE in p.wanted && p.wanted[SKILL_FILE] == skill
      modifies this
      ensures Kept(p) && dir == old(dir) && leftovers == old(leftovers)
      ensures r == Some(true) ==> NewInPlace(dir, p)
      ensures r == Some(false) ==> !NewInPlace(dir, p)
      ensures r.None? ==> faults > old(faults)
    {
      var broken := Fault();
      if broken { return None; }
      return Some(Final in dir && SKILL_FILE in dir[Final] && dir[Final][SKILL_FILE] == skill);
    }

    /** `rmtree` with errors ignored: some of the files, or all of them and the folder. */
    method RemoveTree(n: Name, ghost p: Plan)
      requires Safe(dir, p, others) && n != Final && (n == Retired(p.token) ==> NewInPlace(dir, p))
      modifies this
      ensures Kept(p) && SameBut(old(dir), dir, n) && faults == old(faults) && stuck == old(stuck)
      ensures n !in dir || (n in old(dir) && leftovers > old(leftovers))
    {
      if n !in dir { return; }
      var all: bool := *;
      var left: set<string> := *;
      if all {
        dir := dir - {n};
      } else {
        dir := dir[n := map f | f in dir[n] && f in left :: dir[n][f]];
        leftovers := leftovers + 1;
      }
      trace := trace + [dir];
    }

    /** Put the previous install back, if nothing has taken its place. */
    method PutBack(t: nat, ghost p: Plan)
      requires Safe(dir, p, others) && p.token == t
      modifies this
      ensures Kept(p) && faults >= old(faults) && leftovers == old(leftovers)
      ensures !racing && Final !in old(dir) && Retired(t) in old(dir) ==>
                if stuck > old(stuck) then dir == old(dir) else Final in dir && dir[Final] == old(dir)[Retired(t)]
      ensures !racing && (Final in old(dir) || Retired(t) !in old(dir)) ==> dir == old(dir)
      ensures forall n :: n != Final && n != Retired(t) ==> (n in dir <==> n in old(dir))
    {
      Race(p);
      if Final in dir || Retired(t) !in dir { return; }
      var broken := Fault();
      if broken {
        stuck := stuck + 1;
        return;
      }
      dir := (dir - {Retired(t)})[Final := dir[Retired(t)]];
      trace := trace + [dir];
    }
  }

  // ----- One install ---------------------------------------------------------------------------------

  /** The variables the clean-up reads. */
  class Progress {
    var staging: Option<nat>
    var retired: Option<nat>

    constructor ()
      ensures staging.None? && retired.None?
    {
      staging, retired := None, None;
    }
  }

  datatype End = Installed | Raised

  lemma ShippedMore(assets: seq<Asset>, i: nat)
    requires i < |assets|
    ensures Shipped(assets[..i + 1]) == if Ships(assets[i]) then Shipped(assets[..i])[assets[i].name := assets[i].content]
                                        else Shipped(assets[..i])
  {
    assert assets[..i + 1][..i] == assets[..i];
  }

  method CopyAssets(d: SkillsDir, t: nat, assets: seq<Asset>, ghost p: Plan) returns (ok: bool)
    requires Safe(d.dir, p, d.others) && Staging(t) in d.dir && d.dir[Staging(t)] == map[]
    modifies d
    ensures d.Kept(p) && Staging(t) in d.dir && d.dir == old(d.dir)[Staging(t) := d.dir[Staging(t)]]
    ensures ok ==> d.dir[Staging(t)] == Shipped(assets)
    ensures !ok ==> d.faults > old(d.faults)
  {
    for i := 0 to |assets|
      invariant d.Kept(p) && Staging(t) in d.dir && d.dir == old(d.dir)[Staging(t) := d.dir[Staging(t)]]
      invariant d.dir[Staging(t)] == Shipped(assets[..i])
    {
      ShippedMore(assets, i);
      var interrupt := d.Fault();
      if interrupt { return false; }
      if Ships(assets[i]) {
        var written := d.WriteFile(t, assets[i].name, assets[i].content, p);
        if !written { return false; }
      }
    }
    assert assets[..|assets|] == assets;
    return true;
  }

  /** A new install begins: nothing has its names yet, and the previous one is what is in place. */
  predicate Begins(dir: Dir, p: Plan, assets: seq<Asset>) {
    && Staging(p.token) !in dir && Retired(p.token) !in dir
    && p.previous == (if Final in dir then Some(dir[Final]) else None)
    && p.wanted == Shipped(assets) && SKILL_FILE in p.wanted
  }

  lemma BeginsSafe(dir: Dir, p: Plan, assets: seq<Asset>, others: set<Files>)
    requires Begins(dir, p, assets)
    ensures Safe(dir, p, others)
  {
  }

  /** What is in place is what was there at the beginning. */
  predicate AsBegun(dir: Dir, p: Plan) {
    p.previous == (if Final in dir then Some(dir[Final]) else None) && Retired(p.token) !in dir
  }

  predicate Staged(dir: Dir, p: Plan) {
    Staging(p.token) in dir && dir[Staging(p.token)] == p.wanted && SKILL_FILE in p.wanted
  }

  /** Staging: create the folder and copy everything. */
  method StageAll(d: SkillsDir, v: Progress, t: nat, assets: seq<Asset>, ghost p: Plan) returns (ok: bool)
    requires Begins(d.dir, p, assets) && p.token == t && v.retired.None? && v.staging.None?
    modifies d, v
    ensures d.Kept(p) && AsBegun(d.dir, p) && v.retired.None? && (v.staging.Some? ==> v.staging == Some(t))
    ensures v.staging.None? ==> Staging(t) !in d.dir
    ensures ok ==> Staged(d.dir, p) && v.staging.Some?
    ensures !ok ==> d.faults > old(d.faults)
  {
    BeginsSafe(d.dir, p, assets, d.others);
    var made := d.Mkdtemp(t, p);
    if !made { return false; }
    v.staging := Some(t);
    ok := CopyAssets(d, t, assets, p);
  }

  /**
   * The clean-up can rely on its variables: a staging folder that is there whole is known to it, and so is
   * the previous install when nothing is in place.
   */
  predicate Knows(v: Progress, dir: Dir, p: Plan, leftovers: bool)
    reads v
  {
    && (v.staging.Some? ==> v.staging == Some(p.token)) && (v.retired.Some? ==> v.retired == Some(p.token))
    && (v.staging.None? ==> Staging(p.token) !in dir || leftovers)
    && (Final !in dir && p.previous.Some? ==> v.retired.Some?)
  }

  /** The previous install goes aside; that there is none is no error. */
  method MoveAside(d: SkillsDir, v: Progress, t: nat, ghost p: Plan) returns (ok: bool)
    requires Safe(d.dir, p, d.others) && p.token == t && v.staging == Some(t) && v.retired.None?
    requires Staged(d.dir, p) && AsBegun(d.dir, p)
    modifies d, v
    ensures d.Kept(p) && Knows(v, d.dir, p, false) && Staged(d.dir, p) && v.staging == Some(t)
    ensures ok ==> Final !in d.dir && (v.retired.None? ==> Retired(t) !in d.dir)
    ensures !ok <==> d.faults > old(d.faults)
  {
    v.retired := Some(t);
    var aside := d.Retire(t, p);
    if aside == Err(NotFound) { v.retired := None; }
    return aside.Ok? || aside == Err(NotFound);
  }

  /** The staging folder goes in, unless a winner with the same skill already did. */
  method PutInPlace(d: SkillsDir, t: nat, skill: string, ghost p: Plan) returns (ok: bool)
    requires Safe(d.dir, p, d.others) && p.token == t && Staged(d.dir, p) && p.wanted[SKILL_FILE] == skill
    requires Final !in d.dir
    modifies d
    ensures d.Kept(p) && (ok ==> NewInPlace(d.dir, p) && (Staging(t) !in d.dir || d.leftovers > old(d.leftovers)))
    ensures !d.racing ==> if ok then d.dir[Final] == p.wanted else Final !in d.dir && d.faults > old(d.faults)
    ensures Retired(t) in d.dir <==> Retired(t) in old(d.dir)
  {
    var placed := d.Replace(t, p);
    if placed.Ok? { return true; }
    if placed.error != NotEmpty { return false; }
    var same := d.SameSkill(skill, p);
    if same != Some(true) { return false; }
    d.RemoveTree(Staging(t), p);
    return true;
  }

  /** The new skill is in: drop the old one. */
  method DropOld(d: SkillsDir, v: Progress, t: nat, ghost p: Plan) returns (end: End)
    requires Safe(d.dir, p, d.others) && p.token == t && NewInPlace(d.dir, p)
    requires v.staging.None? && (v.retired.Some? ==> v.retired == Some(t)) && (v.retired.None? ==> Retired(t) !in d.dir)
    modifies d, v
    ensures d.Kept(p) && SameBut(old(d.dir), d.dir, Retired(t))
    ensures v.staging.None? && (v.retired.Some? ==> v.retired == Some(t))
    ensures end == Installed ==> Retired(t) !in d.dir || d.leftovers > old(d.leftovers)
    ensures end == Raised <==> d.faults > old(d.faults)
  {
    if v.retired.Some? {
      d.RemoveTree(Retired(t), p);
      var interrupt := d.Fault();
      if interrupt { return Raised; }
      v.retired := None;
    }
    return Installed;
  }

  /** The renames; an error or an interrupt may come between any two of them. */
  method SwapIn(d: SkillsDir, v: Progress, t: nat, skill: string, ghost p: Plan) returns (end: End)
    requires Safe(d.dir, p, d.others) && p.token == t && v.staging == Some(t) && v.retired.None?
    requires Staged(d.dir, p) && p.wanted[SKILL_FILE] == skill && AsBegun(d.dir, p)
    modifies d, v
    ensures d.Kept(p) && Knows(v, d.dir, p, d.leftovers > old(d.leftovers))
    ensures end == Installed ==> NewInPlace(d.dir, p) && (!d.racing ==> d.dir[Final] == p.wanted)
    ensures end == Installed ==> (Staging(t) !in d.dir && Retired(t) !in d.dir) || d.leftovers > old(d.leftovers)
    ensures end == Raised && !d.racing ==> d.faults > old(d.faults)
  {
    var ok := MoveAside(d, v, t, p);
    var interrupt := d.Fault();
    if interrupt || !ok { return Raised; }
    ok := PutInPlace(d, t, skill, p);
    interrupt := d.Fault();
    if interrupt || !ok { return Raised; }
    v.staging := None;
    end := DropOld(d, v, t, p);
  }

  /** `_cleanup_failed_install`: staging goes, and the previous install comes back if nothing took its place. */
  method CleanUp(d: SkillsDir, v: Progress, ghost p: Plan)
    requires Safe(d.dir, p, d.others)
    requires (v.staging.Some? ==> v.staging == Some(p.token)) && (v.retired.Some? ==> v.retired == Some(p.token))
    modifies d
    ensures d.Kept(p)
    ensures v.staging.Some? ==> Staging(p.token) !in d.dir || d.leftovers > old(d.leftovers)
    ensures Staging(p.token) in d.dir ==> Staging(p.token) in old(d.dir)
    ensures Final in old(d.dir) ==> Final in d.dir && d.dir[Final] == old(d.dir)[Final]
    ensures !d.racing && Final !in old(d.dir) ==>
              if v.retired.Some? && Retired(p.token) in old(d.dir) && d.stuck == old(d.stuck)
              then Final in d.dir && d.dir[Final] == old(d.dir)[Retired(p.token)]
              else Final !in d.dir
  {
    if v.staging.Some? { d.RemoveTree(Staging(v.staging.value), p); }
    if v.retired.Some? && Final !in d.dir { d.PutBack(v.retired.value, p); }
  }

  /** The previous install is in place, or the new one; if there was none, the new one or nothing. */
  predicate Settled(dir: Dir, p: Plan) {
    if Final in dir then p.previous == Some(dir[Final]) || dir[Final] == p.wanted else p.previous.None?
  }

  /**
   * `install`. After every step of it, whatever fails and wherever it is cut, the previous install is in
   * place or aside, whole, or the new one is in place; and nothing but a whole folder is ever in place. With
   * no other installer around it succeeds unless something failed, and success means the new folder is in
   * place; after a failure the previous one is back, unless putting it back failed too.
   */
  method Install(d: SkillsDir, t: nat, assets: seq<Asset>, ghost p: Plan) returns (end: End)
    requires Begins(d.dir, p, assets) && p.token == t && d.others == {}
    modifies d
    ensures d.Kept(p)
    ensures end == Installed ==> NewInPlace(d.dir, p) && (!d.racing ==> d.dir[Final] == p.wanted)
    ensures end == Installed ==> Retired(t) !in d.dir || d.leftovers > old(d.leftovers)
    ensures Staging(t) !in d.dir || d.leftovers > old(d.leftovers)
    ensures end == Raised && !d.racing ==> d.faults > old(d.faults)
    ensures end == Raised && !d.racing && d.stuck == old(d.stuck) ==> Settled(d.dir, p)
  {
    BeginsSafe(d.dir, p, assets, d.others);
    var v := new Progress();
    var staged := StageAll(d, v, t, assets, p);
    end := Raised;
    if staged { end := SwapIn(d, v, t, Shipped(assets)[SKILL_FILE], p); }
    if end == Raised { CleanUp(d, v, p); }
  }
}
