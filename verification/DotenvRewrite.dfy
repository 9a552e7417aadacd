/**
 * The writing half of `src/worthless/cli/dotenv_rewriter.py`: `rewrite_env_keys` up to the call of
 * `safe_rewrite`, and what reading the written text gives back.
 */
module DotenvRewrite {
  import opened Common
  import opened Text
  import opened DotenvLines
  import opened DotenvAssignment
  import opened DotenvStructure

  // ----- What is asked for, and what is written -------------------------------------------------

  /** The arguments of one `rewrite_env_keys` call; additions are in insertion order. */
  datatype Request = Request(updates: map<string, string>, additions: seq<(string, string)>, removals: set<string>)

  /** `ValueError`, `KeyError` and `KeyWouldSurvive`. */
  datatype Refusal = BadArguments | NotFound(missing: set<string>) | WouldSurvive(names: set<string>)

  function AddedNames(additions: seq<(string, string)>): set<string> { set a | a in additions :: a.0 }

  /** `_validate_rewrite_args`. */
  predicate ArgsOk(r: Request) {
    && (forall k :: k in r.updates ==> ValidName(k) && ValidValue(r.updates[k]))
    && (forall a :: a in r.additions ==> ValidName(a.0) && ValidValue(a.1))
    && (forall k :: k in r.removals ==> ValidName(k))
    && r.updates.Keys !! r.removals
    && AddedNames(r.additions) !! r.removals
    && r.updates.Keys !! AddedNames(r.additions)
  }

  function UpdatedLine(l: LogicalLine, updates: map<string, string>): LogicalLine {
    if l.key.Some? && l.key.value in updates then l.(raw := Rebuild(l.raw, updates[l.key.value])) else l
  }

  function Updated(ls: seq<LogicalLine>, updates: map<string, string>): (r: seq<LogicalLine>)
    ensures |r| == |ls|
  {
    if ls == [] then [] else [UpdatedLine(ls[0], updates)] + Updated(ls[1..], updates)
  }

  predicate KeyIn(l: LogicalLine, names: set<string>) { l.key.Some? && l.key.value in names }

  function Kept(ls: seq<LogicalLine>, removals: set<string>): seq<LogicalLine> {
    if ls == [] then []
    else if KeyIn(ls[0], removals) then Kept(ls[1..], removals)
    else [ls[0]] + Kept(ls[1..], removals)
  }

  /** The end of the last line, made sure of before lines are appended. */
  function WithEol(ls: seq<LogicalLine>, eol: string): seq<LogicalLine> {
    if ls == [] || EndsWithLf(ls[|ls| - 1].raw) then ls
    else ls[..|ls| - 1] + [ls[|ls| - 1].(raw := ls[|ls| - 1].raw + eol)]
  }

  /** `_format_assignment` of an added name. */
  function AddedLine(a: (string, string), eol: string): LogicalLine {
    LogicalLine(a.0 + ['='] + (a.1 + eol), Some(a.0), false)
  }

  function Added(additions: seq<(string, string)>, eol: string): (r: seq<LogicalLine>)
    ensures |r| == |additions|
  {
    if additions == [] then [] else [AddedLine(additions[0], eol)] + Added(additions[1..], eol)
  }

  function Appended(ls: seq<LogicalLine>, additions: seq<(string, string)>, eol: string): seq<LogicalLine> {
    WithEol(ls, eol) + Added(additions, eol)
  }

  function Survivors(ls: seq<LogicalLine>, r: Request): seq<LogicalLine> {
    Kept(Updated(ls, r.updates), r.removals)
  }

  /** The lines `rewrite_env_keys` serializes. */
  function NewLines(ls: seq<LogicalLine>, r: Request, eol: string): seq<LogicalLine> {
    if r.additions == [] then Survivors(ls, r) else Appended(Survivors(ls, r), r.additions, eol)
  }

  function FindCrLf(s: string): (i: nat)
    ensures i <= |s|
  {
    if |s| < 2 then |s| else if s[..2] == "\r\n" then 0 else 1 + FindCrLf(s[1..])
  }

  /** `_detect_eol`: CRLF if the first line end is one. */
  function DetectEol(s: string): (eol: string)
    ensures eol in {"\n", "\r\n"}
  {
    var crlf, lf := FindCrLf(s), Find(s, '\n');
    if crlf < |s| && (lf == |s| || crlf <= lf) then "\r\n" else "\n"
  }

  lemma {:induction false} FindCrLfFirst(s: string)
    ensures var i := FindCrLf(s);
            && (i < |s| ==> i + 1 < |s| && s[i] == '\r' && s[i + 1] == '\n')
            && forall k :: 0 <= k < i && k + 1 < |s| ==> !(s[k] == '\r' && s[k + 1] == '\n')
  {
    if |s| >= 2 {
      if s[..2] == "\r\n" {
        assert s[..2][0] == s[0] && s[..2][1] == s[1];
      } else {
        FindCrLfFirst(s[1..]);
        assert s[..2] == [s[0], s[1]];
        assert forall k :: 0 < k < |s| ==> s[1..][k - 1] == s[k];
      }
    }
  }

  /** The two searches together look at one place only: the character before the first newline. */
  lemma {:induction false} FirstLineEndDecides(s: string)
    ensures var lf := Find(s, '\n');
            DetectEol(s) == "\r\n" <==> 0 < lf < |s| && s[lf - 1] == '\r'
  {
    var crlf, lf := FindCrLf(s), Find(s, '\n');
    FindCrLfFirst(s);
    FindFirst(s, '\n');
    assert forall k :: 0 <= k < lf ==> s[..lf][k] == s[k];
  }

  /** The text a rewrite produces from the text behind the byte order mark. */
  function RewriteText(buf: string, r: Request): string {
    Serialize(NewLines(LogicalLines(buf), r, DetectEol(buf)))
  }

  // ----- Updates, removals and additions keep the lines in shape ---------------------------------

  /** Every value written can be read back from the line it is written to. */
  predicate UpdatesReadBack(ls: seq<LogicalLine>, updates: map<string, string>) {
    forall l :: l in ls && KeyIn(l, updates.Keys) ==> ReadsBack(l.raw, updates[l.key.value])
  }

  predicate ValuesOk(updates: map<string, string>) {
    forall k :: k in updates ==> ValidValue(updates[k])
  }

  /** An update loses the line's end: a lone CR that counts to the value. */
  predicate LosesEnd(l: LogicalLine, updates: map<string, string>) {
    KeyIn(l, updates.Keys) && CrInValue(l.raw)
  }

  lemma UpdatedLineOk(l: LogicalLine, updates: map<string, string>)
    requires Alone(l) && ValuesOk(updates)
    requires KeyIn(l, updates.Keys) ==> ReadsBack(l.raw, updates[l.key.value])
    ensures Alone(UpdatedLine(l, updates))
    ensures EndsWithLf(UpdatedLine(l, updates).raw) <==> EndsWithLf(l.raw)
    ensures EndsWithCr(UpdatedLine(l, updates).raw) <==> EndsWithCr(l.raw) && !LosesEnd(l, updates)
    ensures LineClosed(l) ==> LineClosed(UpdatedLine(l, updates))
    ensures KeyIn(l, updates.Keys) ==> LineClosed(UpdatedLine(l, updates))
  {
    if KeyIn(l, updates.Keys) {
      UpdatedAlone(l, updates[l.key.value]);
      EndIsLostExactly(l, updates[l.key.value]);
    }
  }

  /** An update never touches a line's first character. */
  lemma UpdatedFirstChar(l: LogicalLine, updates: map<string, string>, end: string)
    requires Alone(l)
    ensures var raw := UpdatedLine(l, updates).raw + end; l.raw != "" && raw != "" && raw[0] == l.raw[0]
  {
    AloneNonEmpty(l);
    if KeyIn(l, updates.Keys) {
      KeptOnOneLine(l);
      RebuildPrints(l.raw, updates[l.key.value]);
    }
  }

  /** Lines that are each parsed as themselves, with every quote closed but perhaps in the last: what removals leave. */
  predicate Loose(ls: seq<LogicalLine>) {
    forall i :: 0 <= i < |ls| ==> LooseAt(ls, i)
  }

  predicate LooseAt(ls: seq<LogicalLine>, i: nat)
    requires i < |ls|
  {
    Alone(ls[i]) && (i + 1 < |ls| ==> LineClosed(ls[i]))
  }

  lemma LooseCons(l: LogicalLine, ls: seq<LogicalLine>)
    requires Alone(l) && Loose(ls) && (ls != [] ==> LineClosed(l))
    ensures Loose([l] + ls)
  {
    forall i | 0 <= i < |[l] + ls| ensures LooseAt([l] + ls, i) {
      if i > 0 { assert LooseAt(ls, i - 1); }
    }
  }

  lemma {:induction false} KeptLoose(ls: seq<LogicalLine>, removals: set<string>)
    requires WellFormed(ls)
    ensures Loose(Kept(ls, removals))
    decreases |ls|
  {
    if ls != [] {
      WellFormedTail(ls);
      KeptLoose(ls[1..], removals);
      if !KeyIn(ls[0], removals) { LooseCons(ls[0], Kept(ls[1..], removals)); }
    }
  }

  // ... the line end that is added before additions

  lemma {:induction false} RTrimEolMore(s: string, eol: string)
    requires AllEol(eol)
    ensures RTrimEol(s + eol) == RTrimEol(s)
    decreases |eol|
  {
    if eol == "" {
      assert s + eol == s;
    } else {
      var t := s + eol;
      assert t[|t| - 1] == eol[|eol| - 1] && eol[|eol| - 1] in eol;
      assert t[..|t| - 1] == s + eol[..|eol| - 1];
      assert forall c :: c in eol[..|eol| - 1] ==> c in eol;
      RTrimEolMore(s, eol[..|eol| - 1]);
    }
  }

  /** A line end opens or closes no quote. */
  lemma ClosedMore(text: string, eol: string)
    requires eol in {"\n", "\r\n"}
    ensures Closed(text + eol) == Closed(text)
  {
    if Find(text, '=') < |text| {
      FindAppend(text, '=', eol);
      assert Rest(text + eol) == Rest(text) + eol;
      RTrimEolMore(Rest(text), eol);
    } else {
      FindIn(text, '=');
      FindIn(text + eol, '=');
    }
  }

  /** ... and changes no key. */
  lemma KeyMore(p: string, eol: string)
    requires eol in {"\n", "\r\n"}
    ensures ParseKey(p + eol).0 == ParseKey(p).0
    ensures ParseKey(p).0.Some? ==> ParseKey(p + eol) == ParseKey(p)
  {
    FindIn(p, '=');
    FindIn(p + eol, '=');
    if Find(p, '=') < |p| {
      SameHeadSameKey(p, p[Find(p, '=') + 1..] + eol);
      CutAt(p, Find(p, '=') + 1);
      Associate(p[..Find(p, '=') + 1], p[Find(p, '=') + 1..], eol);
    } else {
      if ParseKey(p).0.Some? { KeyNeedsEquals(p); }
      if ParseKey(p + eol).0.Some? { KeyNeedsEquals(p + eol); }
    }
  }

  function LastLonger(ps: seq<string>, eol: string): seq<string>
    requires ps != []
  {
    ps[..|ps| - 1] + [ps[|ps| - 1] + eol]
  }

  lemma {:induction false} GatherMore(merged: string, ps: seq<string>, j: nat, eol: string)
    requires j < |ps| && eol in {"\n", "\r\n"}
    ensures Gather(merged, LastLonger(ps, eol), j) == Gather(merged, ps, j)
    decreases |ps| - j
  {
    var qs := LastLonger(ps, eol);
    if j + 1 < |ps| {
      assert qs[j] == ps[j];
      if !Closed(merged + ps[j]) { GatherMore(merged + ps[j], ps, j + 1, eol); }
    }
  }

  lemma GroupLenMore(ps: seq<string>, eol: string)
    requires ps != [] && eol in {"\n", "\r\n"}
    ensures GroupLen(LastLonger(ps, eol)) == GroupLen(ps)
    ensures ParseKey(LastLonger(ps, eol)[0]).0 == ParseKey(ps[0]).0
    ensures ParseKey(ps[0]).0.Some? ==> ParseKey(LastLonger(ps, eol)[0]) == ParseKey(ps[0])
  {
    var qs := LastLonger(ps, eol);
    if |ps| == 1 {
      KeyMore(ps[0], eol);
      assert qs[0] == ps[0] + eol;
    } else {
      assert qs[0] == ps[0];
      GatherMore(ps[0], ps, 1, eol);
    }
  }

  lemma ConcatMore(ps: seq<string>, eol: string)
    requires ps != []
    ensures Concat(LastLonger(ps, eol)) == Concat(ps) + eol
  {
    var qs := LastLonger(ps, eol);
    LastConcat(ps);
    LastConcat(qs);
    assert ps[..|ps|] == ps && qs[..|qs|] == qs && qs[..|qs| - 1] == ps[..|ps| - 1];
    Associate(Concat(ps[..|ps| - 1]), ps[|ps| - 1], eol);
  }

  lemma LastLine(p: string, eol: string)
    requires IsLine(p) && !EndsWithLf(p) && eol in {"\n", "\r\n"} && (EndsWithCr(p) ==> eol == "\n")
    ensures IsLine(p + eol)
  {
    var body, e := LineShape(p);
    if e == "\r" {
      assert (body + "\r") + "\n" == body + "\r\n";
      PlainLine(body, "\r\n");
    } else {
      assert body + "" == body;
      PlainLine(body, eol);
    }
  }

  lemma LastLongerLines(ps: seq<string>, eol: string)
    requires ps != [] && PhysicalLines(ps) && eol in {"\n", "\r\n"} && !EndsWithLf(ps[|ps| - 1])
    requires EndsWithCr(ps[|ps| - 1]) ==> eol == "\n"
    ensures PhysicalLines(LastLonger(ps, eol))
  {
    var qs, n := LastLonger(ps, eol), |ps| - 1;
    assert PieceOk(ps, n);
    LastLine(ps[n], eol);
    forall i | 0 <= i < |qs| ensures PieceOk(qs, i) {
      if i < n { assert PieceOk(ps, i) && qs[i] == ps[i]; }
    }
  }

  /** A line without a line end stays the same line when it gets one, and so does one with a lone CR that gets an LF. */
  lemma AloneWithEol(l: LogicalLine, eol: string)
    requires Alone(l) && !EndsWithLf(l.raw) && eol in {"\n", "\r\n"} && (EndsWithCr(l.raw) ==> eol == "\n")
    ensures Alone(l.(raw := l.raw + eol))
  {
    var ps := AlonePieces(l);
    assert ps[..|ps|] == ps;
    assert PieceOk(ps, |ps| - 1);
    LastOfConcat(ps);
    var qs := LastLonger(ps, eol);
    LastLongerLines(ps, eol);
    ConcatMore(ps, eol);
    PiecesSplitBack(qs);
    GroupLenMore(ps, eol);
    WholeGroup(qs, l.raw + eol);
  }

  /** A lone CR with CRLF behind it is an empty line behind it. */
  lemma CrThenCrLf(l: LogicalLine)
    requires Alone(l) && EndsWithCr(l.raw) && LineClosed(l)
    ensures !Alone(l.(raw := l.raw + "\r\n"))
  {
    var longer := l.(raw := l.raw + "\r\n");
    ClosedSingle(l);
    ParseJoin(l.raw, "\r\n");
    SplitIsLossless("\r\n");
    assert LogicalLines(longer.raw) == [l] + LogicalLines("\r\n");
    assert LogicalLines("\r\n") != [];
    assert |LogicalLines(longer.raw)| > 1;
  }

  lemma WholeGroup(qs: seq<string>, raw: string)
    requires qs != [] && GroupLen(qs) == |qs| && Concat(qs) == raw
    ensures Group(qs) == [LogicalLine(raw, ParseKey(qs[0]).0, ParseKey(qs[0]).0.Some? && ParseKey(qs[0]).1)]
  {
    assert qs[..|qs|] == qs && qs[|qs|..] == [];
    GroupStep(qs);
    assert Group(qs[|qs|..]) == [];
  }

  // ... the lines that are added

  lemma {:induction false} NameIdentLen(n: string)
    requires forall c :: c in n ==> IdentChar(c)
    ensures IdentLen(n) == |n|
    decreases |n|
  {
    if n != "" {
      assert n[0] in n;
      assert forall c :: c in n[1..] ==> c in n;
      NameIdentLen(n[1..]);
    }
  }

  lemma NameHeadKey(n: string)
    requires ValidName(n)
    ensures HeadKey(n) == (Some(n), false)
  {
    NameIdentLen(n);
    assert n[0] in n;
    assert LStrip(n) == n;
    assert AfterExport(n).None? by {
      if |n| > |EXPORT| { assert n[|EXPORT|] in n; }
    }
    assert n[|n|..] == "" && n[..|n|] == n;
  }

  lemma PlainNoEol(n: string, v: string)
    requires ValidName(n) && ValidValue(v)
    ensures NoEol(n + ['='] + v)
  {
    NoEolJoin(n, ['=']);
    NoEolJoin(n + ['='], v);
  }

  /** A valid name, `=` and a valid value: read back as that name. */
  lemma AddedAlone(a: (string, string), eol: string)
    requires ValidName(a.0) && ValidValue(a.1) && eol in {"\n", "\r\n"}
    ensures Alone(AddedLine(a, eol)) && EndsWithLf(AddedLine(a, eol).raw) && LineClosed(AddedLine(a, eol))
  {
    var n, v := a.0, a.1;
    var body := n + ['='] + v;
    Associate(n + ['='], v, eol);
    assert '=' !in n;
    NameHeadKey(n);
    KeyFromHead(n, v + eol);
    ValueClosed(n, v, eol);
    PlainNoEol(n, v);
    PlainAlone(body, eol);
    EndsLike(body, eol);
  }

  lemma ValueClosed(n: string, v: string, eol: string)
    requires '=' !in n && ValidValue(v) && eol in {"\n", "\r\n"}
    ensures Closed(n + ['='] + (v + eol))
  {
    var text := n + ['='] + (v + eol);
    FindPrefix(n, '=', v + eol);
    assert Rest(text) == v + eol;
    RTrimEolMore(v, eol);
    assert v != "" ==> v[|v| - 1] in v && v[0] in v;
    assert RTrimEol(v) == v;
    assert DropBlanks(v) == v;
  }

  lemma AdditionsTail(additions: seq<(string, string)>)
    requires additions != [] && forall a :: a in additions ==> ValidName(a.0) && ValidValue(a.1)
    ensures ValidName(additions[0].0) && ValidValue(additions[0].1)
    ensures forall a :: a in additions[1..] ==> ValidName(a.0) && ValidValue(a.1)
  {
    assert additions[0] in additions;
    assert forall a :: a in additions[1..] ==> a in additions;
  }

  lemma {:induction false} AddedWellFormed(additions: seq<(string, string)>, eol: string)
    requires forall a :: a in additions ==> ValidName(a.0) && ValidValue(a.1)
    requires eol in {"\n", "\r\n"}
    ensures WellFormed(Added(additions, eol))
    decreases |additions|
  {
    if additions != [] {
      AdditionsTail(additions);
      AddedWellFormed(additions[1..], eol);
      AddedAlone(additions[0], eol);
      WellFormedCons(AddedLine(additions[0], eol), Added(additions[1..], eol));
    }
  }

  lemma WellFormedJoin(a: seq<LogicalLine>, b: seq<LogicalLine>)
    requires WellFormed(b)
    requires a != [] && b != [] ==> Apart(a[|a| - 1].raw, b[0].raw) && LineClosed(a[|a| - 1])
    ensures WellFormed(a + b) <==> WellFormed(a)
  {
    if WellFormed(a) {
      forall i | 0 <= i < |a + b| ensures LineOk(a + b, i) {
        if i < |a| { assert LineOk(a, i) && (a + b)[i] == a[i]; } else { assert LineOk(b, i - |a|); }
      }
    }
    if WellFormed(a + b) {
      forall i | 0 <= i < |a| ensures LineOk(a, i) { assert LineOk(a + b, i); }
    }
  }

  // ----- Re-parsing what was written -------------------------------------------------------------

  /** Arguments the code accepts, with values that can be read back from the lines they are written to. */
  predicate Rewritable(buf: string, r: Request) {
    ArgsOk(r) && UpdatesReadBack(LogicalLines(buf), r.updates)
  }

  /** No quote is left open in front of an added line. */
  predicate RoomForAdditions(ls: seq<LogicalLine>, r: Request) {
    var s := Survivors(ls, r);
    r.additions == [] || s == [] || LineClosed(s[|s| - 1])
  }

  /** Line `i` keeps its end, and what comes behind it does not begin with the LF that makes CRLF of a CR. */
  predicate CrStays(before: seq<LogicalLine>, updates: map<string, string>, i: nat)
    requires i + 1 < |before|
  {
    Apart(before[i].raw, before[i + 1].raw) && !LosesEnd(before[i], updates)
  }

  predicate AllStay(before: seq<LogicalLine>, updates: map<string, string>) {
    forall i :: 0 <= i < |before| - 1 ==> CrStays(before, updates, i)
  }

  /** No CRLF comes behind a lone CR. */
  predicate TakesEnd(l: LogicalLine, updates: map<string, string>, eol: string) {
    eol == "\r\n" && EndsWithCr(l.raw) ==> LosesEnd(l, updates)
  }

  /**
   * No lone CR gets in the way: every line that stays and has another behind it keeps its end, apart from
   * that line; and no CRLF is added behind a CR.
   */
  predicate CrsStay(ls: seq<LogicalLine>, r: Request, eol: string) {
    var before := Kept(ls, r.removals);
    && AllStay(before, r.updates)
    && (r.additions != [] && before != [] ==> TakesEnd(before[|before| - 1], r.updates, eol))
  }

  predicate Sound(before: seq<LogicalLine>, updates: map<string, string>) {
    Loose(before) && ValuesOk(updates) && UpdatesReadBack(before, updates)
  }

  lemma SurvivorsSound(buf: string, r: Request)
    requires Rewritable(buf, r)
    ensures Sound(Kept(LogicalLines(buf), r.removals), r.updates)
    ensures Survivors(LogicalLines(buf), r) == Updated(Kept(LogicalLines(buf), r.removals), r.updates)
  {
    ParseWellFormed(buf);
    KeptLoose(LogicalLines(buf), r.removals);
    KeptMembers(LogicalLines(buf), r.removals);
    KeptUpdated(LogicalLines(buf), r);
  }

  lemma SoundAt(before: seq<LogicalLine>, updates: map<string, string>, i: nat)
    requires Sound(before, updates) && i < |before|
    ensures Updated(before, updates)[i] == UpdatedLine(before[i], updates)
    ensures Alone(before[i]) && (KeyIn(before[i], updates.Keys) ==> ReadsBack(before[i].raw, updates[before[i].key.value]))
    ensures i + 1 < |before| ==> LineClosed(before[i])
  {
    UpdatedAt(before, updates, i);
    assert LooseAt(before, i) && before[i] in before;
  }

  /** Two lines are apart after the update exactly if they were before and the first kept its end. */
  lemma PairStays(a: LogicalLine, b: LogicalLine, updates: map<string, string>, end: string)
    requires Alone(a) && Alone(b) && ValuesOk(updates)
    requires KeyIn(a, updates.Keys) ==> ReadsBack(a.raw, updates[a.key.value])
    ensures Apart(UpdatedLine(a, updates).raw, UpdatedLine(b, updates).raw + end)
            <==> Apart(a.raw, b.raw) && !LosesEnd(a, updates)
  {
    UpdatedLineOk(a, updates);
    UpdatedFirstChar(b, updates, end);
  }

  lemma LineStays(before: seq<LogicalLine>, updates: map<string, string>, i: nat, end: string)
    requires Sound(before, updates) && i + 1 < |before|
    ensures var after := Updated(before, updates);
            && Alone(after[i]) && LineClosed(after[i])
            && (Apart(after[i].raw, after[i + 1].raw + end) <==> CrStays(before, updates, i))
  {
    SoundAt(before, updates, i);
    SoundAt(before, updates, i + 1);
    UpdatedLineOk(before[i], updates);
    PairStays(before[i], before[i + 1], updates, end);
  }

  /** Without additions: the survivors are in shape exactly if every CR stays. */
  lemma SurvivorsExactly(before: seq<LogicalLine>, updates: map<string, string>)
    requires Sound(before, updates)
    ensures WellFormed(Updated(before, updates)) <==> AllStay(before, updates)
  {
    var after := Updated(before, updates);
    forall i | 0 <= i < |before| ensures LineOk(after, i) <==> i + 1 == |before| || CrStays(before, updates, i) {
      if i + 1 < |before| {
        LineStays(before, updates, i, "");
        assert after[i + 1].raw + "" == after[i + 1].raw;
      } else {
        SoundAt(before, updates, i);
        UpdatedLineOk(before[i], updates);
      }
    }
  }

  /** The last survivor takes its new line end exactly if no CRLF comes behind a CR. */
  lemma LastTakesEnd(l: LogicalLine, eol: string)
    requires Alone(l) && LineClosed(l) && eol in {"\n", "\r\n"}
    ensures var end := if EndsWithLf(l.raw) then "" else eol;
            var k := l.(raw := l.raw + end);
            && EndsWithLf(k.raw) && LineClosed(k)
            && (Alone(k) <==> EndsWithCr(l.raw) ==> eol == "\n")
  {
    assert l.raw + "" == l.raw;
    if !EndsWithLf(l.raw) {
      ClosedMore(l.raw, eol);
      if EndsWithCr(l.raw) && eol == "\r\n" { CrThenCrLf(l); } else { AloneWithEol(l, eol); }
    }
  }

  lemma FrontEnded(before: seq<LogicalLine>, updates: map<string, string>, eol: string, i: nat)
    requires Sound(before, updates) && i + 1 < |before|
    ensures var s := WithEol(Updated(before, updates), eol);
            |s| == |before| && (LineOk(s, i) <==> CrStays(before, updates, i))
  {
    var after, n := Updated(before, updates), |before| - 1;
    WithEolAt(after, eol, i);
    WithEolAt(after, eol, i + 1);
    assert after[i].raw + "" == after[i].raw;
    LineStays(before, updates, i, if i + 1 == n && !EndsWithLf(after[n].raw) then eol else "");
  }

  lemma LastEnded(before: seq<LogicalLine>, updates: map<string, string>, eol: string)
    requires Sound(before, updates) && before != [] && eol in {"\n", "\r\n"}
    requires LineClosed(Updated(before, updates)[|before| - 1])
    ensures var s, n := WithEol(Updated(before, updates), eol), |before| - 1;
            && |s| == |before| && EndsWithLf(s[n].raw) && LineClosed(s[n])
            && (LineOk(s, n) <==> TakesEnd(before[n], updates, eol))
  {
    var after, n := Updated(before, updates), |before| - 1;
    WithEolAt(after, eol, n);
    SoundAt(before, updates, n);
    UpdatedLineOk(before[n], updates);
    LastTakesEnd(after[n], eol);
  }

  /** The survivors with the line end for additions: in shape exactly if every CR stays. */
  lemma EndedExactly(before: seq<LogicalLine>, updates: map<string, string>, eol: string)
    requires Sound(before, updates) && before != [] && eol in {"\n", "\r\n"}
    requires LineClosed(Updated(before, updates)[|before| - 1])
    ensures var s := WithEol(Updated(before, updates), eol);
            && |s| == |before| && EndsWithLf(s[|s| - 1].raw) && LineClosed(s[|s| - 1])
            && (WellFormed(s) <==> AllStay(before, updates) && TakesEnd(before[|before| - 1], updates, eol))
  {
    var s := WithEol(Updated(before, updates), eol);
    LastEnded(before, updates, eol);
    forall i | 0 <= i < |before| - 1 ensures LineOk(s, i) <==> CrStays(before, updates, i) {
      FrontEnded(before, updates, eol, i);
    }
  }

  lemma WellFormedFront(a: seq<LogicalLine>, b: seq<LogicalLine>)
    requires WellFormed(a + b) && a != [] && b != []
    ensures WellFormed(a) && LineClosed(a[|a| - 1])
  {
    forall i | 0 <= i < |a| ensures LineOk(a, i) { assert LineOk(a + b, i); }
    assert LineOk(a + b, |a| - 1);
  }

  lemma LastKeepsQuote(ls: seq<LogicalLine>, eol: string)
    requires ls != [] && eol in {"\n", "\r\n"}
    ensures var s := WithEol(ls, eol); |s| == |ls| && LineClosed(s[|s| - 1]) == LineClosed(ls[|ls| - 1])
  {
    ClosedMore(ls[|ls| - 1].raw, eol);
  }

  lemma WithAdditionsExactly(before: seq<LogicalLine>, r: Request, eol: string)
    requires Sound(before, r.updates) && ArgsOk(r) && r.additions != [] && before != [] && eol in {"\n", "\r\n"}
    ensures var s := Updated(before, r.updates);
            WellFormed(Appended(s, r.additions, eol))
            <==> LineClosed(s[|before| - 1]) && AllStay(before, r.updates) && TakesEnd(before[|before| - 1], r.updates, eol)
  {
    var s, added := Updated(before, r.updates), Added(r.additions, eol);
    AddedWellFormed(r.additions, eol);
    LastKeepsQuote(s, eol);
    if LineClosed(s[|before| - 1]) {
      EndedExactly(before, r.updates, eol);
      WellFormedJoin(WithEol(s, eol), added);
    } else if WellFormed(Appended(s, r.additions, eol)) {
      WellFormedFront(WithEol(s, eol), added);
    }
  }

  lemma OnlyAdditions(additions: seq<(string, string)>, eol: string)
    requires (forall a :: a in additions ==> ValidName(a.0) && ValidValue(a.1)) && eol in {"\n", "\r\n"}
    ensures WellFormed(Appended([], additions, eol))
  {
    AddedWellFormed(additions, eol);
    assert Appended([], additions, eol) == Added(additions, eol);
  }

  /**
   * What `rewrite_env_keys` writes is parsed into exactly the lines it meant to write, if and only if no
   * line with an open quote comes before an added one and no lone CR gets in the way.
   */
  lemma ReparsesExactly(buf: string, r: Request)
    requires Rewritable(buf, r)
    ensures var ls, eol := LogicalLines(buf), DetectEol(buf);
            LogicalLines(RewriteText(buf, r)) == NewLines(ls, r, eol)
            <==> RoomForAdditions(ls, r) && CrsStay(ls, r, eol)
  {
    var ls, eol := LogicalLines(buf), DetectEol(buf);
    var before := Kept(ls, r.removals);
    SurvivorsSound(buf, r);
    ReparseIffWellFormed(NewLines(ls, r, eol));
    if r.additions == [] {
      SurvivorsExactly(before, r.updates);
    } else if before == [] {
      OnlyAdditions(r.additions, eol);
    } else {
      WithAdditionsExactly(before, r, eol);
    }
  }

  /** In a file whose line ends are LF and CRLF no line ends in a CR. */
  lemma {:induction false} NoCrEnds(ls: seq<LogicalLine>, i: nat)
    requires WellFormed(ls) && NoLoneCr(Serialize(ls)) && i < |ls|
    ensures !EndsWithCr(ls[i].raw)
    decreases |ls|
  {
    var x, rest := ls[0].raw, Serialize(ls[1..]);
    var text := x + rest;
    WellFormedTail(ls);
    AloneNonEmpty(ls[0]);
    if i == 0 {
      assert text[|x| - 1] == x[|x| - 1];
      if |ls| > 1 {
        assert LineOk(ls, 1);
        AloneNonEmpty(ls[1]);
        FirstOfSerialize(ls[1..]);
        assert text[|x|] == rest[0];
      } else {
        assert rest == "";
      }
    } else {
      assert forall k :: 0 <= k < |rest| ==> rest[k] == text[|x| + k];
      NoCrEnds(ls[1..], i - 1);
    }
  }

  /** There the condition on CRs always holds. */
  lemma NoLoneCrsStay(buf: string, r: Request)
    requires NoLoneCr(buf)
    ensures CrsStay(LogicalLines(buf), r, DetectEol(buf))
    ensures forall l :: l in LogicalLines(buf) ==> !EndsWithCr(l.raw)
  {
    var ls := LogicalLines(buf);
    ParseWellFormed(buf);
    SplitIsLossless(buf);
    forall l | l in ls ensures !EndsWithCr(l.raw) {
      var i :| 0 <= i < |ls| && ls[i] == l;
      NoCrEnds(ls, i);
    }
    LfLinesStayApart(ls, r);
    KeptMembers(ls, r.removals);
  }

  lemma StayCons(l: LogicalLine, rest: seq<LogicalLine>, updates: map<string, string>)
    requires AllStay(rest, updates) && (rest != [] ==> EndsWithLf(l.raw))
    ensures AllStay([l] + rest, updates)
  {
    var before := [l] + rest;
    forall i | 0 <= i < |before| - 1 ensures CrStays(before, updates, i) {
      if i > 0 { assert CrStays(rest, updates, i - 1); }
    }
  }

  lemma {:induction false} LfLinesStayApart(ls: seq<LogicalLine>, r: Request)
    requires WellFormed(ls) && forall l :: l in ls ==> !EndsWithCr(l.raw)
    ensures AllStay(Kept(ls, r.removals), r.updates)
    decreases |ls|
  {
    if ls != [] {
      WellFormedTail(ls);
      assert ls[0] in ls && forall l :: l in ls[1..] ==> l in ls;
      LfLinesStayApart(ls[1..], r);
      if !KeyIn(ls[0], r.removals) { StayCons(ls[0], Kept(ls[1..], r.removals), r.updates); }
    }
  }

  // ----- What became of each line ----------------------------------------------------------------

  lemma {:induction false} UpdatedAt(ls: seq<LogicalLine>, updates: map<string, string>, i: nat)
    requires i < |ls|
    ensures Updated(ls, updates)[i] == UpdatedLine(ls[i], updates)
  {
    if i > 0 { UpdatedAt(ls[1..], updates, i - 1); }
  }

  lemma {:induction false} AddedAt(additions: seq<(string, string)>, eol: string, j: nat)
    requires j < |additions|
    ensures Added(additions, eol)[j] == AddedLine(additions[j], eol)
  {
    if j > 0 { AddedAt(additions[1..], eol, j - 1); }
  }

  lemma {:induction false} KeptUpdated(ls: seq<LogicalLine>, r: Request)
    ensures Kept(Updated(ls, r.updates), r.removals) == Updated(Kept(ls, r.removals), r.updates)
    decreases |ls|
  {
    if ls != [] {
      KeptUpdated(ls[1..], r);
      var l, rest := UpdatedLine(ls[0], r.updates), Updated(ls[1..], r.updates);
      assert ([l] + rest)[1..] == rest;
      assert ([ls[0]] + Kept(ls[1..], r.removals))[1..] == Kept(ls[1..], r.removals);
    }
  }

  lemma {:induction false} KeptMembers(ls: seq<LogicalLine>, removals: set<string>)
    ensures forall l :: l in Kept(ls, removals) <==> l in ls && !KeyIn(l, removals)
    decreases |ls|
  {
    if ls != [] {
      KeptMembers(ls[1..], removals);
      assert forall l :: l in ls <==> l == ls[0] || l in ls[1..];
    }
  }

  /**
   * Line `b` came through the rewrite as `a`: same key, and either the very same text or the same head
   * and tail around the new value; `end` is the line end it got if lines were added behind it.
   */
  predicate Carried(b: LogicalLine, a: LogicalLine, updates: map<string, string>, end: string) {
    && a.key == b.key && a.hasExport == b.hasExport
    && if KeyIn(b, updates.Keys)
       then
         var parts := SplitAssignment(b.raw).(value := updates[b.key.value]);
         a.raw == Join(parts) + end && SplitAssignment(Join(parts)) == parts
       else
         a.raw == b.raw + end
  }

  /** The line end the last survivor gets. */
  function EndFor(ls: seq<LogicalLine>, r: Request, eol: string, i: nat): string
    requires i < |ls|
  {
    if r.additions != [] && i == |ls| - 1 && !EndsWithLf(Updated(ls, r.updates)[i].raw) then eol else ""
  }

  lemma UpdatedCarried(l: LogicalLine, updates: map<string, string>)
    requires Alone(l) && ValuesOk(updates)
    requires KeyIn(l, updates.Keys) ==> ReadsBack(l.raw, updates[l.key.value])
    ensures Carried(l, UpdatedLine(l, updates), updates, "")
  {
    if KeyIn(l, updates.Keys) {
      KeptOnOneLine(l);
      ReadsBackExactly(l.raw, updates[l.key.value]);
    }
    assert UpdatedLine(l, updates).raw + "" == UpdatedLine(l, updates).raw;
  }

  lemma CarriedEnd(b: LogicalLine, a: LogicalLine, updates: map<string, string>, end: string)
    requires Carried(b, a, updates, "")
    ensures Carried(b, a.(raw := a.raw + end), updates, end)
  {
    if KeyIn(b, updates.Keys) {
      var x := Join(SplitAssignment(b.raw).(value := updates[b.key.value]));
      assert x + "" == x;
    } else {
      assert b.raw + "" == b.raw;
    }
  }

  lemma WithEolAt(ls: seq<LogicalLine>, eol: string, i: nat)
    requires i < |ls|
    ensures |WithEol(ls, eol)| == |ls|
    ensures var end := if i == |ls| - 1 && !EndsWithLf(ls[i].raw) then eol else "";
            WithEol(ls, eol)[i] == ls[i].(raw := ls[i].raw + end)
  {
    assert ls[i].raw + "" == ls[i].raw;
  }

  /** Line `i` of the result, when it comes from the file. */
  lemma LineOfResult(ls: seq<LogicalLine>, r: Request, eol: string, i: nat)
    requires i < |Kept(ls, r.removals)|
    ensures var before := Kept(ls, r.removals);
            var a := UpdatedLine(before[i], r.updates);
            i < |NewLines(ls, r, eol)| && NewLines(ls, r, eol)[i] == a.(raw := a.raw + EndFor(before, r, eol, i))
  {
    KeptUpdated(ls, r);
    var before := Kept(ls, r.removals);
    UpdatedAt(before, r.updates, i);
    WithEolAt(Updated(before, r.updates), eol, i);
  }

  lemma LineAddedOfResult(ls: seq<LogicalLine>, r: Request, eol: string, j: nat)
    requires j < |r.additions|
    ensures var n := |Kept(ls, r.removals)|;
            n + j < |NewLines(ls, r, eol)| && NewLines(ls, r, eol)[n + j] == AddedLine(r.additions[j], eol)
  {
    KeptUpdated(ls, r);
    AddedAt(r.additions, eol, j);
  }

  lemma CountOfResult(ls: seq<LogicalLine>, r: Request, eol: string)
    ensures |NewLines(ls, r, eol)| == |Kept(ls, r.removals)| + |r.additions|
  {
    KeptUpdated(ls, r);
  }

  lemma SurvivorCarried(buf: string, r: Request, i: nat)
    requires Rewritable(buf, r) && i < |Kept(LogicalLines(buf), r.removals)|
    ensures var ls, eol := LogicalLines(buf), DetectEol(buf);
            var before := Kept(ls, r.removals);
            i < |NewLines(ls, r, eol)| &&
            Carried(before[i], NewLines(ls, r, eol)[i], r.updates, EndFor(before, r, eol, i))
  {
    var ls, eol := LogicalLines(buf), DetectEol(buf);
    var b := Kept(ls, r.removals)[i];
    KeptMembers(ls, r.removals);
    assert b in Kept(ls, r.removals);
    var k :| 0 <= k < |ls| && ls[k] == b;
    ParseWellFormed(buf);
    assert LineOk(ls, k);
    UpdatedCarried(b, r.updates);
    LineOfResult(ls, r, eol, i);
    CarriedEnd(b, UpdatedLine(b, r.updates), r.updates, EndFor(Kept(ls, r.removals), r, eol, i));
  }

  /**
   * The written text is parsed into the lines of the file minus the removed ones, in their order, each
   * carried through, and then the added ones in theirs.
   */
  lemma RewriteKeepsStructure(buf: string, r: Request)
    requires Rewritable(buf, r) && RoomForAdditions(LogicalLines(buf), r) && CrsStay(LogicalLines(buf), r, DetectEol(buf))
    ensures var before, after, eol := Kept(LogicalLines(buf), r.removals), LogicalLines(RewriteText(buf, r)), DetectEol(buf);
            && |after| == |before| + |r.additions|
            && (forall i :: 0 <= i < |before| ==> Carried(before[i], after[i], r.updates, EndFor(before, r, eol, i)))
            && (forall j :: 0 <= j < |r.additions| ==> after[|before| + j] == AddedLine(r.additions[j], eol))
  {
    var ls, eol := LogicalLines(buf), DetectEol(buf);
    var before := Kept(ls, r.removals);
    ReparsesExactly(buf, r);
    CountOfResult(ls, r, eol);
    forall i | 0 <= i < |before| ensures Carried(before[i], NewLines(ls, r, eol)[i], r.updates, EndFor(before, r, eol, i)) {
      SurvivorCarried(buf, r, i);
    }
    forall j | 0 <= j < |r.additions| ensures NewLines(ls, r, eol)[|before| + j] == AddedLine(r.additions[j], eol) {
      LineAddedOfResult(ls, r, eol, j);
    }
  }

  // ----- A lone CR, for one -------------------------------------------------------------------------

  lemma CrLineWell(n: string, w: string)
    requires ValidName(n) && ValidValue(w) && w != ""
    ensures WellCut(Pieces(n + ['='], "", w + "\r", ""))
  {
    assert (n + ['='])[..|n|] == n && '=' !in n;
    assert "" + (w + "\r") == w + "\r";
    assert (w + "\r")[0] == w[0];
  }

  lemma CrLineCut(n: string, w: string)
    requires ValidName(n) && ValidValue(w) && w != ""
    ensures var raw := n + ['='] + (w + "\r");
            Find(raw, '=') < |raw| && Cut(raw) == Pieces(n + ['='], "", w + "\r", "")
  {
    var p := Pieces(n + ['='], "", w + "\r", "");
    CrLineWell(n, w);
    CutOfPrint(p);
    assert p.prefix + "" + p.body + "" == p.prefix + p.body;
  }

  lemma CrKeptTail(w: string)
    requires ValidValue(w) && w != ""
    ensures KeptTail(w + "\r") == "" && !QuotedBody(w + "\r")
  {
    var body := w + "\r";
    NoHashAtAll(body, 0);
    assert body[0] == w[0] && w[0] in w;
    assert body[|body|..] == "";
  }

  function CrLine(n: string, w: string): LogicalLine { LogicalLine(n + ['='] + (w + "\r"), Some(n), false) }

  lemma CrLineInValue(n: string, w: string)
    requires ValidName(n) && ValidValue(w) && w != ""
    ensures var raw := CrLine(n, w).raw;
            Closed(raw) && CrInValue(raw) && forall v :: v != "" ==> ReadsBack(raw, v)
  {
    var raw := CrLine(n, w).raw;
    CrLineCut(n, w);
    CrKeptTail(w);
    SameOpenQuote(raw);
    CommentIsKept(raw);
  }

  lemma CrLineAlone(n: string, w: string)
    requires ValidName(n) && ValidValue(w) && w != ""
    ensures Alone(CrLine(n, w))
  {
    CrLineInValue(n, w);
    Associate(n + ['='], w, "\r");
    PlainNoEol(n, w);
    PlainAlone(n + ['='] + w, "\r");
    assert '=' !in n;
    NameHeadKey(n);
    KeyFromHead(n, w + "\r");
  }

  predicate NoKey(ls: seq<LogicalLine>, n: string) { forall l :: l in ls ==> l.key != Some(n) }

  lemma CrBufLines(n: string, w: string, more: string)
    requires ValidName(n) && ValidValue(w) && w != "" && more != "" && more[0] != '\n'
    ensures LogicalLines(CrLine(n, w).raw + more) == [CrLine(n, w)] + LogicalLines(more) && LogicalLines(more) != []
  {
    CrLineAlone(n, w);
    CrLineInValue(n, w);
    ClosedSingle(CrLine(n, w));
    ParseJoin(CrLine(n, w).raw, more);
    SplitIsLossless(more);
  }

  lemma {:induction false} KeepAll(ls: seq<LogicalLine>)
    ensures Kept(ls, {}) == ls
    decreases |ls|
  {
    if ls != [] { KeepAll(ls[1..]); }
  }

  /**
   * Any unquoted line without a comment that ends in a lone CR and has text behind it: an update takes the
   * CR for part of the old value, the next line is joined on, and the file is not read as it was meant.
   */
  lemma LoneCrIsLost(n: string, w: string, v: string, more: string)
    requires ValidName(n) && ValidValue(w) && w != "" && ValidValue(v) && v != "" && more != "" && more[0] != '\n'
    requires NoKey(LogicalLines(more), n)
    ensures var buf, r := CrLine(n, w).raw + more, Request(map[n := v], [], {});
            Rewritable(buf, r) && LogicalLines(RewriteText(buf, r)) != NewLines(LogicalLines(buf), r, DetectEol(buf))
  {
    var buf, r := CrLine(n, w).raw + more, Request(map[n := v], [], {});
    var ls := LogicalLines(buf);
    CrBufLines(n, w, more);
    CrLineInValue(n, w);
    KeepAll(ls);
    assert !CrStays(ls, r.updates, 0);
    ReparsesExactly(buf, r);
  }
}
