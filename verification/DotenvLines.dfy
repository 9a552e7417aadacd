/**
 * The reading half of `src/worthless/cli/dotenv_rewriter.py`: which key a line sets, whether its
 * value leaves a quote open, and how physical lines are grouped into logical ones.
 */
module DotenvLines {
  import opened Common
  import opened Text

  /** `key` is None for a blank line, a comment or anything that is not an assignment. */
  datatype LogicalLine = LogicalLine(raw: string, key: Option<string>, hasExport: bool)

  // ----- Keys ----------------------------------------------------------------------------------

  predicate IdentStart(c: char) { 'a' <= c <= 'z' || 'A' <= c <= 'Z' || c == '_' }

  predicate IdentChar(c: char) { IdentStart(c) || '0' <= c <= '9' }

  function IdentLen(s: string): (n: nat)
    ensures n <= |s|
  {
    if s != "" && IdentChar(s[0]) then 1 + IdentLen(s[1..]) else 0
  }

  /** `_KEY_RE.match`. */
  function MatchKey(s: string): Option<string> {
    var n := IdentLen(s);
    var rest := LStrip(s[n..]);
    if n > 0 && IdentStart(s[0]) && rest != "" && rest[0] == '=' then Some(s[..n]) else None
  }

  const EXPORT := "export"

  /** The line after an `export` prefix, if it has one. */
  function AfterExport(stripped: string): Option<string> {
    if EXPORT <= stripped && |stripped| > |EXPORT| && IsBlank(stripped[|EXPORT|])
    then Some(LStrip(stripped[|EXPORT|..])) else None
  }

  function StrippedKey(stripped: string): (Option<string>, bool) {
    if stripped == "" || stripped[0] == '#' then (None, false)
    else
      match AfterExport(stripped)
      case Some(after) => (MatchKey(after), true)
      case None => (MatchKey(stripped), false)
  }

  /** `_parse_key`. */
  function ParseKey(line: string): (Option<string>, bool) {
    StrippedKey(LStrip(line))
  }

  /** A name POSIX would export: `_validate_var_name`. */
  predicate ValidName(name: string) {
    name != "" && IdentStart(name[0]) && forall c :: c in name ==> IdentChar(c)
  }

  lemma {:induction false} LStripHead(h: string, r: string)
    ensures LStrip(h + ['='] + r) == LStrip(h) + ['='] + r
    decreases |h|
  {
    if h != "" && IsSpace(h[0]) {
      assert (h + ['='] + r)[1..] == h[1..] + ['='] + r;
      LStripHead(h[1..], r);
    } else {
      assert h + ['='] + r != "" && !IsSpace((h + ['='] + r)[0]);
    }
  }

  lemma {:induction false} IdentLenHead(h: string, r: string)
    ensures IdentLen(h + ['='] + r) == IdentLen(h)
    decreases |h|
  {
    if h != "" && IdentChar(h[0]) {
      assert (h + ['='] + r)[1..] == h[1..] + ['='] + r;
      IdentLenHead(h[1..], r);
    }
  }

  /** The key of a text whose first `=` comes after `h`, read off `h` alone. */
  function HeadMatch(h: string): Option<string> {
    var n := IdentLen(h);
    if n > 0 && IdentStart(h[0]) && LStrip(h[n..]) == "" then Some(h[..n]) else None
  }

  function StrippedHeadKey(stripped: string): (Option<string>, bool) {
    if stripped == "" || stripped[0] == '#' then (None, false)
    else
      match AfterExport(stripped)
      case Some(after) => (HeadMatch(after), true)
      case None => (HeadMatch(stripped), false)
  }

  function HeadKey(h: string): (Option<string>, bool) {
    StrippedHeadKey(LStrip(h))
  }

  lemma MatchKeyHead(h: string, r: string)
    requires '=' !in h
    ensures MatchKey(h + ['='] + r) == HeadMatch(h)
  {
    var s := h + ['='] + r;
    IdentLenHead(h, r);
    var n := IdentLen(h);
    assert s[n..] == h[n..] + ['='] + r;
    LStripHead(h[n..], r);
    assert s[..n] == h[..n];
    var rest := LStrip(h[n..]);
    LStripMembers(h[n..]);
    assert rest != "" ==> rest[0] in rest && rest[0] in h;
  }

  lemma ExportHead(h: string, r: string)
    requires '=' !in h && h != ""
    ensures AfterExport(h + ['='] + r) ==
            match AfterExport(h) case None => None case Some(after) => Some(after + ['='] + r)
  {
    var s := h + ['='] + r;
    if |h| > |EXPORT| {
      assert s[..|EXPORT|] == h[..|EXPORT|];
      assert s[|EXPORT|..] == h[|EXPORT|..] + ['='] + r;
      LStripHead(h[|EXPORT|..], r);
    } else {
      assert s[|h|] == '=';
      assert |s| > |EXPORT| ==> s[..|EXPORT|] == EXPORT ==> forall i :: 0 <= i < |EXPORT| ==> s[i] != '=';
    }
  }

  lemma StrippedKeyFromHead(h: string, r: string)
    requires '=' !in h
    ensures StrippedKey(h + ['='] + r) == StrippedHeadKey(h)
  {
    var s := h + ['='] + r;
    if h == "" {
      assert s[0] == '=';
      assert IdentLen(s) == 0;
      assert AfterExport(s).None?;
    } else {
      assert s[0] == h[0];
      ExportHead(h, r);
      if AfterExport(h).Some? {
        LStripMembers(h[|EXPORT|..]);
        MatchKeyHead(AfterExport(h).value, r);
      } else {
        MatchKeyHead(h, r);
      }
    }
  }

  /** Only what comes before the first `=` decides the key. */
  lemma KeyFromHead(h: string, r: string)
    requires '=' !in h
    ensures ParseKey(h + ['='] + r) == HeadKey(h)
  {
    LStripHead(h, r);
    LStripMembers(h);
    StrippedKeyFromHead(LStrip(h), r);
  }

  lemma MatchKeyHasEquals(s: string)
    requires MatchKey(s).Some?
    ensures '=' in s
  {
    var tail := s[IdentLen(s)..];
    var rest := LStrip(tail);
    LStripMembers(tail);
    assert rest[0] == '=' && rest[0] in rest;
  }

  lemma StrippedKeyHasEquals(stripped: string)
    requires StrippedKey(stripped).0.Some?
    ensures '=' in stripped
  {
    match AfterExport(stripped)
    case Some(after) =>
      LStripMembers(stripped[|EXPORT|..]);
      MatchKeyHasEquals(after);
    case None =>
      MatchKeyHasEquals(stripped);
  }

  /** Where there is no `=` there is no key. */
  lemma KeyNeedsEquals(line: string)
    requires ParseKey(line).0.Some?
    ensures Find(line, '=') < |line|
  {
    StrippedKeyHasEquals(LStrip(line));
    LStripMembers(line);
    FindIn(line, '=');
  }

  /** Two texts that agree up to and including the first `=` set the same key. */
  lemma SameHeadSameKey(line: string, rest: string)
    requires Find(line, '=') < |line|
    ensures ParseKey(line[..Find(line, '=') + 1] + rest) == ParseKey(line)
    ensures Find(line[..Find(line, '=') + 1] + rest, '=') == Find(line, '=')
  {
    var e := Find(line, '=');
    var h := line[..e];
    FindFirst(line, '=');
    assert line == h + ['='] + line[e + 1..];
    assert line[..e + 1] + rest == h + ['='] + rest;
    KeyFromHead(h, line[e + 1..]);
    KeyFromHead(h, rest);
    FindPrefix(h, '=', rest);
  }

  // ----- Quotes --------------------------------------------------------------------------------

  /** Index of the closing quote from `i` on, or the length; a backslash escapes the next character. */
  function Scan(s: string, i: nat, q: char): (k: nat)
    requires i <= |s|
    ensures i <= k <= |s|
    ensures k < |s| ==> s[k] == q
    decreases |s| - i
  {
    if i >= |s| then |s|
    else if s[i] == '\\' && i + 1 < |s| then Scan(s, i + 2, q)
    else if s[i] == q then i
    else Scan(s, i + 1, q)
  }

  /** The text after the first `=`. */
  function Rest(text: string): string
    requires Find(text, '=') < |text|
  {
    text[Find(text, '=') + 1..]
  }

  /** If a value starting like this opens a quote and does not close it, that quote. */
  function OpenQuote(value: string): Option<char> {
    if value == "" || !IsQuote(value[0]) then None
    else if Scan(value, 1, value[0]) < |value| then None
    else Some(value[0])
  }

  /** `_value_opens_unclosed_quote`. */
  function OpensUnclosedQuote(text: string): Option<char> {
    if Find(text, '=') == |text| then None else OpenQuote(DropBlanks(RTrimEol(Rest(text))))
  }

  predicate Closed(text: string) { OpensUnclosedQuote(text).None? }

  // ----- Logical lines -------------------------------------------------------------------------

  /** How many physical lines the value that starts in `merged` takes, from line `j` on. */
  function Gather(merged: string, ps: seq<string>, j: nat): (n: nat)
    requires j <= |ps|
    ensures j <= n <= |ps|
    decreases |ps| - j
  {
    if j == |ps| then j
    else if Closed(merged + ps[j]) then j + 1
    else Gather(merged + ps[j], ps, j + 1)
  }

  /** How many physical lines the first logical line takes. */
  function GroupLen(ps: seq<string>): (n: nat)
    requires ps != []
    ensures 1 <= n <= |ps|
  {
    if ParseKey(ps[0]).0.None? || Closed(ps[0]) then 1 else Gather(ps[0], ps, 1)
  }

  function FirstGroup(ps: seq<string>): LogicalLine
    requires ps != []
  {
    var (key, hasExport) := ParseKey(ps[0]);
    LogicalLine(Concat(ps[..GroupLen(ps)]), key, key.Some? && hasExport)
  }

  function Group(ps: seq<string>): seq<LogicalLine>
    decreases |ps|
  {
    if ps == [] then [] else [FirstGroup(ps)] + Group(ps[GroupLen(ps)..])
  }

  /** `_split_logical_lines`. */
  function LogicalLines(buf: string): seq<LogicalLine> {
    Group(SplitLines(buf))
  }

  /** `_serialize_lines`. */
  function Serialize(lines: seq<LogicalLine>): string {
    if lines == [] then "" else lines[0].raw + Serialize(lines[1..])
  }

  lemma GroupStep(ps: seq<string>)
    requires ps != []
    ensures Group(ps) == [FirstGroup(ps)] + Group(ps[GroupLen(ps)..])
  {
  }

  lemma SerializeCons(g: LogicalLine, gs: seq<LogicalLine>)
    ensures Serialize([g] + gs) == g.raw + Serialize(gs)
  {
    assert ([g] + gs)[1..] == gs;
  }

  lemma ConcatSplit(ps: seq<string>, n: nat)
    requires n <= |ps|
    ensures Concat(ps) == Concat(ps[..n]) + Concat(ps[n..])
  {
    ConcatAppend(ps[..n], ps[n..]);
    assert ps[..n] + ps[n..] == ps;
  }

  lemma {:induction false} GroupLossless(ps: seq<string>)
    ensures Serialize(Group(ps)) == Concat(ps)
    decreases |ps|
  {
    if ps != [] {
      var n := GroupLen(ps);
      var g, rest := FirstGroup(ps), Group(ps[n..]);
      GroupStep(ps);
      GroupLossless(ps[n..]);
      SerializeCons(g, rest);
      ConcatSplit(ps, n);
    }
  }

  /** Splitting a buffer and serializing the lines gives the buffer back, whatever is in it. */
  lemma SplitIsLossless(buf: string)
    ensures Serialize(LogicalLines(buf)) == buf
  {
    GroupLossless(SplitLines(buf));
    SplitLinesLossless(buf);
  }

  lemma {:induction false} SerializeAppend(a: seq<LogicalLine>, b: seq<LogicalLine>)
    ensures Serialize(a + b) == Serialize(a) + Serialize(b)
    decreases |a|
  {
    if a == [] {
      assert a + b == b;
    } else {
      SerializeAppend(a[1..], b);
      assert (a + b)[1..] == a[1..] + b;
    }
  }

  predicate LineClosed(l: LogicalLine) { l.key.Some? ==> Closed(l.raw) }

  /** Every quoted value is closed. */
  predicate AllClosed(lines: seq<LogicalLine>) { forall l :: l in lines ==> LineClosed(l) }

  /** The text merged so far, with lines `j` to `n` added. */
  function Merged(merged: string, ps: seq<string>, j: nat, n: nat): string
    requires j <= n <= |ps|
    decreases n - j
  {
    if j == n then merged else Merged(merged + ps[j], ps, j + 1, n)
  }

  lemma {:induction false} MergedIsConcat(merged: string, ps: seq<string>, j: nat, n: nat)
    requires j <= n <= |ps|
    ensures Merged(merged, ps, j, n) == merged + Concat(ps[j..n])
    decreases n - j
  {
    if j < n {
      MergedIsConcat(merged + ps[j], ps, j + 1, n);
      assert ps[j..n][1..] == ps[j + 1..n];
      assert Concat(ps[j..n]) == ps[j] + Concat(ps[j + 1..n]);
      assert merged + (ps[j] + Concat(ps[j + 1..n])) == merged + ps[j] + Concat(ps[j + 1..n]);
    }
  }

  /** A group whose value is closed does not look beyond its own lines. */
  lemma {:induction false} GatherInside(merged: string, ps: seq<string>, qs: seq<string>, j: nat)
    requires j <= |ps| && !Closed(merged)
    requires Closed(Merged(merged, ps, j, Gather(merged, ps, j)))
    ensures Gather(merged, ps + qs, j) == Gather(merged, ps, j)
    decreases |ps| - j
  {
    assert j < |ps|;
    assert (ps + qs)[j] == ps[j];
    if !Closed(merged + ps[j]) {
      GatherInside(merged + ps[j], ps, qs, j + 1);
    }
  }

  /** The text of the first group, as the splitter merges it. */
  lemma FirstGroupMerged(ps: seq<string>)
    requires ps != []
    ensures FirstGroup(ps).raw == Merged(ps[0], ps, 1, GroupLen(ps))
  {
    var n := GroupLen(ps);
    MergedIsConcat(ps[0], ps, 1, n);
    assert ps[..n][1..] == ps[1..n];
  }

  lemma FirstGroupInside(ps: seq<string>, qs: seq<string>)
    requires ps != [] && LineClosed(FirstGroup(ps))
    ensures GroupLen(ps + qs) == GroupLen(ps) && FirstGroup(ps + qs) == FirstGroup(ps)
  {
    assert (ps + qs)[0] == ps[0];
    FirstGroupMerged(ps);
    if ParseKey(ps[0]).0.Some? && !Closed(ps[0]) {
      GatherInside(ps[0], ps, qs, 1);
    }
    assert (ps + qs)[..GroupLen(ps)] == ps[..GroupLen(ps)];
  }

  lemma ClosedParts(g: LogicalLine, gs: seq<LogicalLine>)
    requires AllClosed([g] + gs)
    ensures LineClosed(g) && AllClosed(gs)
  {
    assert g in [g] + gs;
    assert forall l :: l in gs ==> l in [g] + gs;
  }

  /** The first group of a longer text is the same, and what follows it is what followed it before. */
  lemma GroupJoinStep(ps: seq<string>, qs: seq<string>)
    requires ps != [] && LineClosed(FirstGroup(ps))
    ensures Group(ps + qs) == [FirstGroup(ps)] + Group(ps[GroupLen(ps)..] + qs)
  {
    FirstGroupInside(ps, qs);
    GroupStep(ps + qs);
    assert (ps + qs)[GroupLen(ps)..] == ps[GroupLen(ps)..] + qs;
  }

  lemma ConsAppend<T>(g: T, a: seq<T>, b: seq<T>)
    ensures [g] + (a + b) == ([g] + a) + b
  {
  }

  lemma GroupParts(ps: seq<string>)
    requires ps != [] && AllClosed(Group(ps))
    ensures LineClosed(FirstGroup(ps)) && AllClosed(Group(ps[GroupLen(ps)..]))
  {
    GroupStep(ps);
    ClosedParts(FirstGroup(ps), Group(ps[GroupLen(ps)..]));
  }

  /** Grouping goes line by line as long as every value is closed. */
  lemma {:induction false} GroupJoin(ps: seq<string>, qs: seq<string>)
    requires AllClosed(Group(ps))
    ensures Group(ps + qs) == Group(ps) + Group(qs)
    decreases |ps|
  {
    if ps == [] {
      assert ps + qs == qs;
    } else {
      GroupParts(ps);
      GroupJoinStep(ps, qs);
      GroupStep(ps);
      GroupJoin(ps[GroupLen(ps)..], qs);
      ConsAppend(FirstGroup(ps), Group(ps[GroupLen(ps)..]), Group(qs));
    }
  }

  /** A text that ends with a line end and leaves no quote open is parsed on its own. */
  lemma ParseJoin(a: string, b: string)
    requires a == "" || Apart(a, b)
    requires AllClosed(LogicalLines(a))
    ensures LogicalLines(a + b) == LogicalLines(a) + LogicalLines(b)
  {
    SplitLinesJoin(a, b);
    GroupJoin(SplitLines(a), SplitLines(b));
  }

  // ----- The loops ------------------------------------------------------------------------------

  lemma {:induction false} ScanShift(a: string, s: string, i: nat, q: char)
    requires i <= |s|
    ensures Scan(a + s, |a| + i, q) == |a| + Scan(s, i, q)
    decreases |s| - i
  {
    if i < |s| {
      assert (a + s)[|a| + i] == s[i];
      if s[i] == '\\' && i + 1 < |s| { ScanShift(a, s, i + 2, q); }
      else if s[i] != q { ScanShift(a, s, i + 1, q); }
    }
  }

  lemma ScanBehindBlanks(value: string, q: char)
    requires DropBlanks(value) != ""
    ensures Scan(value, Lead(value) + 1, q) == Lead(value) + Scan(DropBlanks(value), 1, q)
  {
    DropBlanksSplit(value);
    ScanShift(value[..Lead(value)], DropBlanks(value), 1, q);
    assert value[..Lead(value)] + value[Lead(value)..] == value;
  }

  /** `_value_opens_unclosed_quote`, as the loop that computes it. */
  method ValueOpensUnclosedQuote(text: string) returns (open: Option<char>)
    ensures open == OpensUnclosedQuote(text)
  {
    if Find(text, '=') == |text| { return None; }
    var value := RTrimEol(Rest(text));
    var stripped := DropBlanks(value);
    if stripped == "" || !IsQuote(stripped[0]) { return None; }
    var quote := stripped[0];
    var lead := |value| - |stripped|;
    ScanBehindBlanks(value, quote);
    var i := lead + 1;
    while i < |value|
      invariant lead < i <= |value|
      invariant Scan(value, i, quote) == Scan(value, lead + 1, quote)
    {
      if value[i] == '\\' && i + 1 < |value| {
        i := i + 2;
      } else if value[i] == quote {
        return None;
      } else {
        i := i + 1;
      }
    }
    return Some(quote);
  }

  lemma ConcatOne(ps: seq<string>, j: nat)
    requires j < |ps|
    ensures Concat(ps[..j + 1]) == Concat(ps[..j]) + ps[j]
  {
    ConcatAppend(ps[..j], [ps[j]]);
    assert ps[..j + 1] == ps[..j] + [ps[j]];
    assert Concat([ps[j]]) == ps[j];
  }

  /** The inner loop of `_split_logical_lines`: physical lines are merged until the quote closes. */
  method GatherLines(pieces: seq<string>) returns (merged: string, j: nat)
    requires pieces != [] && !Closed(pieces[0])
    ensures j == Gather(pieces[0], pieces, 1) && merged == Concat(pieces[..j])
  {
    merged := pieces[0];
    j := 1;
    assert Concat(pieces[..1]) == pieces[0] by { ConcatOne(pieces, 0); }
    while j < |pieces|
      invariant 1 <= j <= |pieces| && merged == Concat(pieces[..j])
      invariant Gather(merged, pieces, j) == Gather(pieces[0], pieces, 1)
    {
      ConcatOne(pieces, j);
      merged := merged + pieces[j];
      var open := ValueOpensUnclosedQuote(merged);
      j := j + 1;
      if open.None? { return; }
    }
  }

  /** One turn of `_split_logical_lines`: the first logical line, and how many physical lines it takes. */
  method NextLogicalLine(pieces: seq<string>) returns (l: LogicalLine, taken: nat)
    requires pieces != []
    ensures l == FirstGroup(pieces) && taken == GroupLen(pieces)
  {
    var (key, hasExport) := ParseKey(pieces[0]);
    assert Concat(pieces[..1]) == pieces[0] by { ConcatOne(pieces, 0); }
    if key.None? { return LogicalLine(pieces[0], None, false), 1; }
    var open := ValueOpensUnclosedQuote(pieces[0]);
    if open.None? { return LogicalLine(pieces[0], key, hasExport), 1; }
    var merged, j := GatherLines(pieces);
    return LogicalLine(merged, key, hasExport), j;
  }

  lemma GroupAdvance(pieces: seq<string>, i: nat)
    requires i < |pieces|
    ensures i + GroupLen(pieces[i..]) <= |pieces|
    ensures Group(pieces[i..]) == [FirstGroup(pieces[i..])] + Group(pieces[i + GroupLen(pieces[i..])..])
  {
    var n := GroupLen(pieces[i..]);
    GroupStep(pieces[i..]);
    assert pieces[i..][n..] == pieces[i + n..];
  }

  /** `_split_logical_lines`, as the loop that computes it. */
  method SplitLogicalLines(buf: string) returns (logical: seq<LogicalLine>)
    ensures logical == LogicalLines(buf)
  {
    var pieces := SplitLines(buf);
    logical := [];
    var i := 0;
    while i < |pieces|
      invariant i <= |pieces| && Group(pieces) == logical + Group(pieces[i..])
    {
      var l, taken := NextLogicalLine(pieces[i..]);
      GroupAdvance(pieces, i);
      ConsAppend(l, [], Group(pieces[i + taken..]));
      logical := logical + [l];
      i := i + taken;
    }
  }
}
