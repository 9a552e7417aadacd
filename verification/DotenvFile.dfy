/**
 * `rewrite_env_keys` of `src/worthless/cli/dotenv_rewriter.py` as a whole, up to the call of
 * `safe_rewrite`: byte order mark, refusals, and the lists it changes in place.
 */
module DotenvFile {
  import opened Common
  import opened Text
  import opened DotenvLines
  import opened DotenvAssignment
  import opened DotenvStructure
  import opened DotenvRewrite

  // ----- The byte order mark, and the whole call -------------------------------------------------

  const BOM: char := '\U{FEFF}'

  predicate StartsWithBom(s: string) { s != "" && s[0] == BOM }

  /** `_strip_bom`. */
  function StripBom(s: string): (string, bool) {
    if StartsWithBom(s) then (s[1..], true) else (s, false)
  }

  /** `_restore_bom`. */
  function RestoreBom(s: string, hadBom: bool): string {
    if hadBom then [BOM] + s else s
  }

  /** Reading gives back what was written, unless a mark from inside the file has come to its front. */
  lemma BomRoundTrip(s: string, hadBom: bool)
    ensures StripBom(RestoreBom(s, hadBom)) == (s, hadBom) <==> hadBom || !StartsWithBom(s)
  {
    if hadBom { assert ([BOM] + s)[1..] == s; }
  }

  function KeysOf(ls: seq<LogicalLine>): set<string> { set l | l in ls && l.key.Some? :: l.key.value }

  predicate OccursAt(needle: string, text: string, i: nat) {
    i + |needle| <= |text| && text[i..i + |needle|] == needle
  }

  predicate Occurs(needle: string, text: string) {
    exists i :: 0 <= i <= |text| && OccursAt(needle, text, i)
  }

  /** The names whose value is still in the text. */
  function Surviving(mustRemove: map<string, string>, text: string): set<string> {
    set n | n in mustRemove && mustRemove[n] != "" && Occurs(mustRemove[n], text)
  }

  function ReadLines(content: string): seq<LogicalLine> { LogicalLines(StripBom(content).0) }

  function NewContent(existing: string, r: Request): string {
    RestoreBom(RewriteText(StripBom(existing).0, r), StripBom(existing).1)
  }

  predicate NothingAsked(r: Request) { r.updates == map[] && r.additions == [] && r.removals == {} }

  /** `rewrite_env_keys` up to the call of `safe_rewrite`: the content to write, or None for no write. */
  function Rewrite(existing: string, r: Request, mustRemove: map<string, string>): Result<Option<string>, Refusal> {
    if !ArgsOk(r) then Err(BadArguments)
    else if NothingAsked(r) then Ok(None)
    else
      var missing := r.updates.Keys - KeysOf(ReadLines(existing));
      if missing != {} then Err(NotFound(missing))
      else
        var content := NewContent(existing, r);
        var survived := Surviving(mustRemove, content);
        if survived != {} then Err(WouldSurvive(survived))
        else if content == existing then Ok(None)
        else Ok(Some(content))
  }

  lemma {:induction false} UpdatedNothing(ls: seq<LogicalLine>)
    ensures Updated(ls, map[]) == ls && Kept(ls, {}) == ls
  {
    if ls != [] { UpdatedNothing(ls[1..]); }
  }

  lemma FirstChar(ls: seq<LogicalLine>)
    requires ls != [] && ls[0].raw != ""
    ensures StartsWithBom(Serialize(ls)) <==> StartsWithBom(ls[0].raw)
  {
    assert Serialize(ls)[0] == ls[0].raw[0];
  }

  /** The first line of the file that stays. */
  function FirstKept(ls: seq<LogicalLine>, removals: set<string>): Option<LogicalLine> {
    if ls == [] then None else if KeyIn(ls[0], removals) then FirstKept(ls[1..], removals) else Some(ls[0])
  }

  lemma {:induction false} FirstKeptIsFirst(ls: seq<LogicalLine>, removals: set<string>)
    ensures FirstKept(ls, removals) == if Kept(ls, removals) == [] then None else Some(Kept(ls, removals)[0])
    decreases |ls|
  {
    if ls != [] { FirstKeptIsFirst(ls[1..], removals); }
  }

  /** What is written begins with a mark if and only if the first line that stays does. */
  lemma MarkComesFirst(buf: string, r: Request)
    requires Rewritable(buf, r)
    ensures StartsWithBom(RewriteText(buf, r))
            <==> var first := FirstKept(LogicalLines(buf), r.removals); first.Some? && StartsWithBom(first.value.raw)
  {
    var ls, eol := LogicalLines(buf), DetectEol(buf);
    var before := Kept(ls, r.removals);
    FirstKeptIsFirst(ls, r.removals);
    CountOfResult(ls, r, eol);
    if before != [] {
      KeptMembers(ls, r.removals);
      assert before[0] in before;
      var k :| 0 <= k < |ls| && ls[k] == before[0];
      ParseWellFormed(buf);
      assert LineOk(ls, k);
      LineOfResult(ls, r, eol, 0);
      UpdatedFirstChar(before[0], r.updates, EndFor(before, r, eol, 0));
      FirstChar(NewLines(ls, r, eol));
    } else if r.additions != [] {
      assert r.additions[0] in r.additions;
      LineAddedOfResult(ls, r, eol, 0);
      FirstChar(NewLines(ls, r, eol));
    }
  }

  /** The request uncovers a mark: there was none in front, and the first line that stays begins with one. */
  predicate UncoversMark(existing: string, r: Request) {
    && !StartsWithBom(existing)
    && var first := FirstKept(ReadLines(existing), r.removals); first.Some? && StartsWithBom(first.value.raw)
  }

  /** No addition lands behind an open quote, no lone CR gets in the way, and no mark is uncovered. */
  predicate KeepsLines(existing: string, r: Request) {
    var buf := StripBom(existing).0;
    RoomForAdditions(LogicalLines(buf), r) && CrsStay(LogicalLines(buf), r, DetectEol(buf)) && !UncoversMark(existing, r)
  }

  /** What is written is read back as what was meant exactly then. */
  lemma ContentIsReadBack(existing: string, r: Request)
    requires Rewritable(StripBom(existing).0, r)
    ensures ReadLines(NewContent(existing, r)) == NewLines(ReadLines(existing), r, DetectEol(StripBom(existing).0))
            <==> KeepsLines(existing, r)
  {
    var (buf, hadBom) := StripBom(existing);
    var text := RewriteText(buf, r);
    ReparsesExactly(buf, r);
    MarkComesFirst(buf, r);
    BomRoundTrip(text, hadBom);
    if UncoversMark(existing, r) {
      SplitIsLossless(text[1..]);
      assert Serialize(ReadLines(NewContent(existing, r))) == text[1..];
    }
  }

  lemma MissingMeans(asked: set<string>, found: set<string>)
    requires asked - found == {}
    ensures asked <= found
  {
    forall k | k in asked ensures k in found {
      assert k !in asked - found;
    }
  }

  lemma NothingHappens(existing: string)
    ensures KeepsLines(existing, Request(map[], [], {}))
  {
    var buf := StripBom(existing).0;
    ParseWellFormed(buf);
    KeepAll(LogicalLines(buf));
    forall i | 0 <= i < |LogicalLines(buf)| - 1 ensures CrStays(LogicalLines(buf), map[], i) {
      assert LineOk(LogicalLines(buf), i);
    }
    var ls := LogicalLines(existing);
    if !StartsWithBom(existing) && ls != [] {
      SplitIsLossless(existing);
      if ls[0].raw != "" { FirstChar(ls); }
    }
  }

  /**
   * Whenever a rewrite is not refused, the file it leaves holds none of the values that had to go, and is
   * parsed into the lines that were meant if and only if no addition lands behind an open quote, no lone
   * CR gets in the way and no mark is uncovered.
   */
  lemma RewriteIsReadBack(existing: string, r: Request, mustRemove: map<string, string>, after: string)
    requires var o := Rewrite(existing, r, mustRemove);
             o.Ok? && after == (if o.value.Some? then o.value.value else existing)
    requires Rewritable(StripBom(existing).0, r)
    ensures ReadLines(after) == NewLines(ReadLines(existing), r, DetectEol(StripBom(existing).0))
            <==> KeepsLines(existing, r)
    ensures r.updates.Keys <= KeysOf(ReadLines(existing))
    ensures NothingAsked(r) || forall n :: n in mustRemove && mustRemove[n] != "" ==> !Occurs(mustRemove[n], after)
  {
    if NothingAsked(r) {
      UpdatedNothing(ReadLines(existing));
      NothingHappens(existing);
    } else {
      ContentIsReadBack(existing, r);
      assert after == NewContent(existing, r);
      forall n | n in mustRemove && mustRemove[n] != "" ensures !Occurs(mustRemove[n], after) {
        assert n !in Surviving(mustRemove, after);
      }
      MissingMeans(r.updates.Keys, KeysOf(ReadLines(existing)));
    }
  }

  // ----- A mark that is uncovered ----------------------------------------------------------------

  lemma MarkHasNoKey(rest: string)
    requires StartsWithBom(rest)
    ensures var ls := LogicalLines(rest); ls != [] && ls[0].key.None? && StartsWithBom(ls[0].raw)
  {
    var ps := SplitLines(rest);
    SplitLinesLossless(rest);
    GroupStep(ps);
    assert ps[0][0] == BOM by { FirstPiece(ps, rest); }
    assert StrippedKey(ps[0]).0.None?;
    assert Concat(ps[..1]) == ps[0];
  }

  lemma FirstPiece(ps: seq<string>, rest: string)
    requires ps != [] && ps[0] != "" && Concat(ps) == rest && rest != ""
    ensures ps[0][0] == rest[0]
  {
  }

  function Covered(n: string, v: string, rest: string): string { AddedLine((n, v), "\n").raw + rest }

  lemma CoveredLines(n: string, v: string, rest: string)
    requires ValidName(n) && ValidValue(v)
    ensures var existing := Covered(n, v, rest);
            && !StartsWithBom(existing)
            && LogicalLines(existing) == [AddedLine((n, v), "\n")] + LogicalLines(rest)
  {
    var line := AddedLine((n, v), "\n");
    AddedAlone((n, v), "\n");
    ClosedSingle(line);
    ParseJoin(line.raw, rest);
    assert Covered(n, v, rest)[0] == n[0];
  }

  /** Removing the line in front of a mark uncovers it, and the file is no longer read as it was meant. */
  lemma RemovalUncovers(n: string, v: string, rest: string)
    requires ValidName(n) && ValidValue(v) && StartsWithBom(rest)
    ensures var existing, r := Covered(n, v, rest), Request(map[], [], {n});
            UncoversMark(existing, r) && Rewritable(existing, r)
            && ReadLines(NewContent(existing, r)) != NewLines(ReadLines(existing), r, DetectEol(existing))
  {
    var existing, r, behind := Covered(n, v, rest), Request(map[], [], {n}), LogicalLines(rest);
    CoveredLines(n, v, rest);
    MarkHasNoKey(rest);
    assert FirstKept(behind, {n}) == Some(behind[0]);
    assert ([AddedLine((n, v), "\n")] + behind)[1..] == behind;
    assert UncoversMark(existing, r);
    ContentIsReadBack(existing, r);
  }

  /** For one: `A=1`, and behind it a line that begins with a mark. */
  function Example(): string { "A=1\n" + ([BOM] + "B=2\n") }

  lemma ExampleIsCovered()
    ensures Example() == Covered("A", "1", [BOM] + "B=2\n")
  {
    assert AddedLine(("A", "1"), "\n").raw == "A=1\n";
  }

  lemma UncoveredExample()
    ensures var r := Request(map[], [], {"A"});
            && UncoversMark(Example(), r) && Rewritable(Example(), r)
            && ReadLines(NewContent(Example(), r)) != NewLines(ReadLines(Example()), r, DetectEol(Example()))
  {
    ExampleIsCovered();
    RemovalUncovers("A", "1", [BOM] + "B=2\n");
  }

  // ----- The lists it changes in place -----------------------------------------------------------

  /** The keys of the first `i` lines that are among `names`. */
  function Matched(ls: seq<LogicalLine>, i: nat, names: set<string>): set<string>
    requires i <= |ls|
  {
    KeysOf(ls[..i]) * names
  }

  lemma MatchedMore(ls: seq<LogicalLine>, i: nat, names: set<string>)
    requires i < |ls|
    ensures Matched(ls, i + 1, names) == Matched(ls, i, names) + (if KeyIn(ls[i], names) then {ls[i].key.value} else {})
  {
    assert ls[..i + 1] == ls[..i] + [ls[i]];
  }

  lemma MatchedAll(ls: seq<LogicalLine>, names: set<string>)
    ensures Matched(ls, 0, names) == {} && names - Matched(ls, |ls|, names) == names - KeysOf(ls)
  {
    assert ls[..|ls|] == ls && ls[..0] == [];
  }

  lemma UpdatedIs(was: seq<LogicalLine>, now: seq<LogicalLine>, updates: map<string, string>)
    requires |now| == |was| && forall k :: 0 <= k < |was| ==> now[k] == UpdatedLine(was[k], updates)
    ensures now == Updated(was, updates)
  {
    forall k | 0 <= k < |was| ensures now[k] == Updated(was, updates)[k] { UpdatedAt(was, updates, k); }
  }

  /** The list of logical lines while a rewrite works on it. */
  class LineList {
    var lines: seq<LogicalLine>

    constructor (start: seq<LogicalLine>)
      ensures lines == start
    {
      lines := start;
    }

    /** `_apply_updates`: the names that were not found, which the source raises as a `KeyError`. */
    method ApplyUpdates(updates: map<string, string>) returns (missing: set<string>)
      modifies this
      ensures lines == Updated(old(lines), updates)
      ensures missing == updates.Keys - KeysOf(old(lines))
    {
      var matched: set<string> := {};
      ghost var was := lines;
      MatchedAll(was, updates.Keys);
      var i := 0;
      while i < |lines|
        invariant i <= |lines| == |was|
        invariant forall k :: 0 <= k < i ==> lines[k] == UpdatedLine(was[k], updates)
        invariant forall k :: i <= k < |was| ==> lines[k] == was[k]
        invariant matched == Matched(was, i, updates.Keys)
      {
        MatchedMore(was, i, updates.Keys);
        var l := lines[i];
        if l.key.Some? && l.key.value in updates {
          lines := lines[i := LogicalLine(Rebuild(l.raw, updates[l.key.value]), l.key, l.hasExport)];
          matched := matched + {l.key.value};
        }
        i := i + 1;
      }
      missing := updates.Keys - matched;
      UpdatedIs(was, lines, updates);
    }

    /** Drop the lines of removed names. */
    method Remove(removals: set<string>)
      modifies this
      ensures lines == Kept(old(lines), removals)
    {
      lines := Kept(lines, removals);
    }

    /** `_append_additions`. */
    method AppendAdditions(additions: seq<(string, string)>, eol: string)
      modifies this
      ensures lines == Appended(old(lines), additions, eol)
    {
      if lines != [] && !EndsWithLf(lines[|lines| - 1].raw) {
        var last := lines[|lines| - 1];
        lines := lines[|lines| - 1 := LogicalLine(last.raw + eol, last.key, last.hasExport)];
      }
      ghost var first := lines;
      assert first == WithEol(old(lines), eol);
      var i := 0;
      while i < |additions|
        invariant i <= |additions|
        invariant Appended(old(lines), additions, eol) == lines + Added(additions[i..], eol)
      {
        var a := additions[i];
        lines := lines + [AddedLine(a, eol)];
        assert additions[i..][1..] == additions[i + 1..];
        i := i + 1;
      }
    }
  }

  /** `rewrite_env_keys`, step by step: content to write, no write, or a refusal. */
  method RewriteEnvKeys(existing: string, r: Request, mustRemove: map<string, string>)
    returns (o: Result<Option<string>, Refusal>)
    ensures o == Rewrite(existing, r, mustRemove)
  {
    if !ArgsOk(r) { return Err(BadArguments); }
    if NothingAsked(r) { return Ok(None); }
    var (stripped, hadBom) := StripBom(existing);
    var eol := DetectEol(stripped);
    var parsed := SplitLogicalLines(stripped);
    var list := new LineList(parsed);
    var missing := list.ApplyUpdates(r.updates);
    if missing != {} { return Err(NotFound(missing)); }
    list.Remove(r.removals);
    if r.additions != [] { list.AppendAdditions(r.additions, eol); }
    var content := RestoreBom(Serialize(list.lines), hadBom);
    var survived := Surviving(mustRemove, content);
    if survived != {} { return Err(WouldSurvive(survived)); }
    return Ok(if content == existing then None else Some(content));
  }
}
