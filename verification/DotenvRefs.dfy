/**
 * Which names a value reaches through the references between `.env` lines: `read_env_snapshot` and
 * `EnvSnapshot.names_reached` of `src/worthless/cli/dotenv_rewriter.py`.
 */
module DotenvRefs {
  import opened Common
  import opened Text
  import opened DotenvLines
  import opened DotenvAssignment
  import opened DotenvRewrite
  import opened DotenvSnapshot

  type Refs = map<string, set<string>>

  /** `refs`: the last line that assigns a name decides; `names` extracts the names of a value. */
  function RefsOf(ls: seq<LogicalLine>, names: string -> set<string>): Refs {
    if ls == [] then map[]
    else
      var l, before := ls[|ls| - 1], RefsOf(ls[..|ls| - 1], names);
      if l.key.None? then before else before[l.key.value := names(SplitAssignment(l.raw).value)]
  }

  /** What the loop does with the value of a `*_BASE_URL` line. */
  method NoteBaseUrl(raw: map<string, string>, l: LogicalLine, p: Parts) returns (now: map<string, string>)
    requires l.key.Some? && IsBaseUrl(l.key.value) && SplitAssignment(l.raw) == p
    ensures now == Noted(raw, l)
  {
    var v := AsWritten(p);
    now := if ValidValue(v) then raw[l.key.value := v] else raw - {l.key.value};
  }

  lemma OneMore(ls: seq<LogicalLine>, i: nat, names: string -> set<string>)
    requires i < |ls|
    ensures BaseUrls(ls[..i + 1]) == Noted(BaseUrls(ls[..i]), ls[i])
    ensures RefsOf(ls[..i + 1], names) == if ls[i].key.None? then RefsOf(ls[..i], names)
                                          else RefsOf(ls[..i], names)[ls[i].key.value := names(SplitAssignment(ls[i].raw).value)]
  {
    assert ls[..i + 1][..i] == ls[..i];
  }

  /** The loop of `read_env_snapshot` over the lines. */
  method ReadEnvSnapshot(buf: string, names: string -> set<string>) returns (raw: map<string, string>, refs: Refs)
    ensures raw == BaseUrls(LogicalLines(buf)) && refs == RefsOf(LogicalLines(buf), names)
  {
    var lines := SplitLogicalLines(buf);
    raw, refs := map[], map[];
    var i := 0;
    while i < |lines|
      invariant i <= |lines| && raw == BaseUrls(lines[..i]) && refs == RefsOf(lines[..i], names)
    {
      var l := lines[i];
      OneMore(lines, i, names);
      if l.key.Some? {
        var head, value, tail := CutAssignment(l.raw);
        refs := refs[l.key.value := names(value)];
        if IsBaseUrl(l.key.value) { raw := NoteBaseUrl(raw, l, Parts(head, value, tail)); }
      }
      i := i + 1;
    }
    assert lines[..|lines|] == lines;
  }

  /** What a name's line refers to; nothing if no line assigns it. */
  function Next(refs: Refs, name: string): set<string> { if name in refs then refs[name] else {} }

  /** With every name it also holds what the name's line refers to. */
  predicate ClosedUnder(refs: Refs, s: set<string>) { forall n :: n in s ==> Next(refs, n) <= s }

  /** The names that can turn up at all. */
  function Mentioned(refs: Refs, start: set<string>): set<string> {
    start + set k, n | k in refs && n in refs[k] :: n
  }

  /** A set as a list, in some order. */
  method Listed(s: set<string>) returns (q: seq<string>)
    ensures forall x :: x in q <==> x in s
  {
    q := [];
    var left := s;
    while left != {}
      invariant left <= s && forall x :: x in q <==> x in s && x !in left
    {
      var x :| x in left;
      q := q + [x];
      left := left - {x};
    }
  }

  /**
   * `EnvSnapshot.names_reached`: ends on every reference graph, cycles included, with the least set that
   * holds the value's own names and is closed under references.
   */
  method NamesReached(refs: Refs, start: set<string>) returns (reached: set<string>)
    ensures start <= reached && ClosedUnder(refs, reached)
    ensures forall s: set<string> :: start <= s && ClosedUnder(refs, s) ==> reached <= s
  {
    ghost var all := Mentioned(refs, start);
    var todo := Listed(start);
    reached := {};
    while todo != []
      invariant reached <= all && forall n :: n in todo ==> n in all
      invariant forall n :: n in start ==> n in reached || n in todo
      invariant forall n, m :: n in reached && m in Next(refs, n) ==> m in reached || m in todo
      invariant forall s: set<string> :: start <= s && ClosedUnder(refs, s) ==>
                  reached <= s && forall n :: n in todo ==> n in s
      decreases all - reached, |todo|
    {
      var name := todo[|todo| - 1];
      var left := todo[..|todo| - 1];
      assert forall n :: n in todo <==> n in left || n == name;
      todo := left;
      if name !in reached {
        reached := reached + {name};
        var more := Listed(Next(refs, name));
        todo := todo + more;
      }
    }
  }
}
