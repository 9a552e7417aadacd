/**
 * `EnvSnapshot` of `src/worthless/cli/dotenv_rewriter.py`: the `*_BASE_URL` values as written, the
 * names a value reaches, and what a lock followed by an unlock leaves of the file.
 */
module DotenvSnapshot {
  import opened Common
  import opened Text
  import opened DotenvLines
  import opened DotenvAssignment
  import opened DotenvStructure
  import opened DotenvRewrite

  // ----- Writing one value over another, behind an added line end ------------------------------

  lemma CutMore(raw: string, eol: string)
    requires Find(raw, '=') < |raw| && !EndsWithCr(raw) && !EndsWithLf(raw) && eol in {"\n", "\r\n"}
    ensures Find(raw + eol, '=') < |raw + eol|
    ensures Cut(raw).eol == "" && Cut(raw + eol) == Cut(raw).(eol := eol)
  {
    EndOfCut(raw);
    PrintOfCut(raw);
    var p := Cut(raw);
    LastOfBlanksAnd(p.blanks, p.body);
    CutOfPrint(p.(eol := eol));
    assert p.prefix + p.blanks + p.body + "" == p.prefix + p.blanks + p.body;
  }

  lemma RebuildMore(raw: string, eol: string, w: string)
    requires Find(raw, '=') < |raw| && !EndsWithCr(raw) && !EndsWithLf(raw) && eol in {"\n", "\r\n"}
    ensures Rebuild(raw + eol, w) == Rebuild(raw, w) + eol
  {
    CutMore(raw, eol);
    RebuildPrints(raw, w);
    RebuildPrints(raw + eol, w);
    var p := NewPieces(Cut(raw), w);
    assert p.prefix + p.blanks + p.body + "" == p.prefix + p.blanks + p.body;
  }

  /** A line updated with `u` and given a line end, then updated with `w`. */
  lemma UpdateTwice(l: LogicalLine, u: map<string, string>, w: map<string, string>)
    requires Alone(l) && ValuesOk(u) && u.Keys == w.Keys
    requires KeyIn(l, u.Keys) ==> ReadsBack(l.raw, u[l.key.value])
    ensures UpdatedLine(UpdatedLine(l, u), w) == UpdatedLine(l, w)
  {
    if KeyIn(l, u.Keys) {
      KeptOnOneLine(l);
      RebuildTwice(l.raw, u[l.key.value], w[l.key.value]);
    }
  }

  lemma UpdateBehindEol(l: LogicalLine, eol: string, w: map<string, string>)
    requires Alone(l) && !EndsWithLf(l.raw) && !EndsWithCr(l.raw) && eol in {"\n", "\r\n"}
    ensures UpdatedLine(l.(raw := l.raw + eol), w) == UpdatedLine(l, w).(raw := UpdatedLine(l, w).raw + eol)
  {
    if KeyIn(l, w.Keys) {
      KeptOnOneLine(l);
      RebuildMore(l.raw, eol, w[l.key.value]);
    }
  }

  // ----- Lists of lines -------------------------------------------------------------------------

  lemma {:induction false} UpdatedJoin(a: seq<LogicalLine>, b: seq<LogicalLine>, w: map<string, string>)
    ensures Updated(a + b, w) == Updated(a, w) + Updated(b, w)
    decreases |a|
  {
    if a == [] {
      assert a + b == b;
    } else {
      UpdatedJoin(a[1..], b, w);
      assert (a + b)[1..] == a[1..] + b;
    }
  }

  lemma {:induction false} KeptJoin(a: seq<LogicalLine>, b: seq<LogicalLine>, removals: set<string>)
    ensures Kept(a + b, removals) == Kept(a, removals) + Kept(b, removals)
    decreases |a|
  {
    if a == [] {
      assert a + b == b;
    } else {
      KeptJoin(a[1..], b, removals);
      assert (a + b)[1..] == a[1..] + b;
    }
  }

  predicate NoKeyIn(ls: seq<LogicalLine>, names: set<string>) { forall l :: l in ls ==> !KeyIn(l, names) }

  lemma {:induction false} KeptAll(ls: seq<LogicalLine>, removals: set<string>)
    requires NoKeyIn(ls, removals)
    ensures Kept(ls, removals) == ls
    decreases |ls|
  {
    if ls != [] {
      assert ls[0] in ls;
      assert forall l :: l in ls[1..] ==> l in ls;
      KeptAll(ls[1..], removals);
    }
  }

  lemma {:induction false} AddedVanish(additions: seq<(string, string)>, eol: string, w: map<string, string>, removals: set<string>)
    requires AddedNames(additions) <= removals && w.Keys !! removals
    ensures Kept(Updated(Added(additions, eol), w), removals) == []
    decreases |additions|
  {
    if additions != [] {
      var a, rest := AddedLine(additions[0], eol), Added(additions[1..], eol);
      assert additions[0] in additions;
      assert additions[0].0 in AddedNames(additions);
      forall n | n in AddedNames(additions[1..]) ensures n in removals {
        var x :| x in additions[1..] && x.0 == n;
        assert x in additions;
        assert n in AddedNames(additions);
      }
      AddedVanish(additions[1..], eol, w, removals);
      assert ([a] + rest)[1..] == rest;
      assert UpdatedLine(a, w) == a;
      assert ([a] + Updated(rest, w))[1..] == Updated(rest, w);
    }
  }

  lemma {:induction false} UpdatedKeys(ls: seq<LogicalLine>, w: map<string, string>, names: set<string>)
    requires NoKeyIn(ls, names)
    ensures NoKeyIn(Updated(ls, w), names)
    decreases |ls|
  {
    if ls != [] {
      assert ls[0] in ls;
      assert forall l :: l in ls[1..] ==> l in ls;
      UpdatedKeys(ls[1..], w, names);
    }
  }

  lemma WithEolKeys(ls: seq<LogicalLine>, eol: string, names: set<string>)
    requires NoKeyIn(ls, names)
    ensures NoKeyIn(WithEol(ls, eol), names)
  {
    var r := WithEol(ls, eol);
    forall l | l in r ensures !KeyIn(l, names) {
      var i :| 0 <= i < |r| && r[i] == l;
      WithEolAt(ls, eol, i);
      assert ls[i] in ls;
    }
  }

  /** Two lists of lines are equal when they agree at every index. */
  lemma SameLines(a: seq<LogicalLine>, b: seq<LogicalLine>)
    requires |a| == |b| && forall i :: 0 <= i < |a| ==> a[i] == b[i]
    ensures a == b
  {
  }

  predicate NoCrs(ls: seq<LogicalLine>) { forall l :: l in ls ==> !EndsWithCr(l.raw) }

  predicate AllReadBack(ls: seq<LogicalLine>, u: map<string, string>) {
    WellFormed(ls) && NoCrs(ls) && ValuesOk(u) && UpdatesReadBack(ls, u)
  }

  lemma UpdatedTwice(ls: seq<LogicalLine>, u: map<string, string>, w: map<string, string>)
    requires AllReadBack(ls, u) && u.Keys == w.Keys
    ensures Updated(Updated(ls, u), w) == Updated(ls, w)
  {
    forall i | 0 <= i < |ls| ensures Updated(Updated(ls, u), w)[i] == Updated(ls, w)[i] {
      assert LineOk(ls, i) && ls[i] in ls;
      UpdatedAt(ls, u, i);
      UpdatedAt(Updated(ls, u), w, i);
      UpdatedAt(ls, w, i);
      UpdateTwice(ls[i], u, w);
    }
    SameLines(Updated(Updated(ls, u), w), Updated(ls, w));
  }

  /** An update never adds or takes away a line end that is no lone CR. */
  lemma UpdateKeepsEnd(l: LogicalLine, u: map<string, string>)
    requires Alone(l) && ValuesOk(u) && !EndsWithCr(l.raw)
    requires KeyIn(l, u.Keys) ==> ReadsBack(l.raw, u[l.key.value])
    ensures EndsWithLf(UpdatedLine(l, u).raw) == EndsWithLf(l.raw) && !EndsWithCr(UpdatedLine(l, u).raw)
  {
    UpdatedLineOk(l, u);
  }

  /** Updating commutes with giving the last line its line end. */
  lemma UpdatedWithEolAt(ls: seq<LogicalLine>, u: map<string, string>, w: map<string, string>, eol: string, i: nat)
    requires AllReadBack(ls, u) && AllReadBack(ls, w) && u.Keys == w.Keys && eol in {"\n", "\r\n"} && i < |ls|
    ensures |WithEol(Updated(ls, u), eol)| == |ls| == |WithEol(Updated(ls, w), eol)|
    ensures Updated(WithEol(Updated(ls, u), eol), w)[i] == WithEol(Updated(ls, w), eol)[i]
  {
    assert LineOk(ls, i) && ls[i] in ls;
    UpdatedAt(ls, u, i);
    UpdatedAt(ls, w, i);
    WithEolAt(Updated(ls, u), eol, i);
    WithEolAt(Updated(ls, w), eol, i);
    UpdatedAt(WithEol(Updated(ls, u), eol), w, i);
    var l := ls[i];
    UpdateKeepsEnd(l, u);
    UpdateKeepsEnd(l, w);
    UpdateTwice(l, u, w);
    var x := UpdatedLine(l, u);
    assert x.raw + "" == x.raw && UpdatedLine(l, w).raw + "" == UpdatedLine(l, w).raw;
    if i == |ls| - 1 && !EndsWithLf(l.raw) {
      UpdatedLineOk(l, u);
      UpdateBehindEol(x, eol, w);
    }
  }

  lemma UpdatedWithEol(ls: seq<LogicalLine>, u: map<string, string>, w: map<string, string>, eol: string)
    requires AllReadBack(ls, u) && AllReadBack(ls, w) && u.Keys == w.Keys && eol in {"\n", "\r\n"}
    ensures Updated(WithEol(Updated(ls, u), eol), w) == WithEol(Updated(ls, w), eol)
  {
    forall i | 0 <= i < |ls| ensures |WithEol(Updated(ls, u), eol)| == |ls| == |WithEol(Updated(ls, w), eol)|
                                     && Updated(WithEol(Updated(ls, u), eol), w)[i] == WithEol(Updated(ls, w), eol)[i] {
      UpdatedWithEolAt(ls, u, w, eol, i);
    }
    if ls == [] { assert Updated(ls, u) == []; }
    SameLines(Updated(WithEol(Updated(ls, u), eol), w), WithEol(Updated(ls, w), eol));
  }

  // ----- Lock, then unlock ----------------------------------------------------------------------

  /** Lock: replace values, append lines. */
  function Lock(u: map<string, string>, additions: seq<(string, string)>): Request { Request(u, additions, {}) }

  /** Unlock: write values back, drop the appended lines. */
  function Unlock(w: map<string, string>, additions: seq<(string, string)>): Request {
    Request(w, [], AddedNames(additions))
  }

  /** The file can be locked: every line ends in LF or CRLF, no quote is left open, the added names are new. */
  predicate Lockable(buf: string, lock: Request) {
    && Rewritable(buf, lock) && NoLoneCr(buf)
    && AllClosed(LogicalLines(buf))
    && NoKeyIn(LogicalLines(buf), AddedNames(lock.additions))
  }

  function Ended(ls: seq<LogicalLine>, additions: seq<(string, string)>, eol: string): seq<LogicalLine> {
    if additions == [] then ls else WithEol(ls, eol)
  }

  lemma {:induction false} UpdatedClosed(ls: seq<LogicalLine>, u: map<string, string>)
    requires WellFormed(ls) && ValuesOk(u) && UpdatesReadBack(ls, u) && AllClosed(ls)
    ensures AllClosed(Updated(ls, u))
  {
    forall l | l in Updated(ls, u) ensures LineClosed(l) {
      var i :| 0 <= i < |Updated(ls, u)| && Updated(ls, u)[i] == l;
      UpdatedAt(ls, u, i);
      assert LineOk(ls, i) && ls[i] in ls;
      UpdatedLineOk(ls[i], u);
    }
  }

  lemma LockedLines(buf: string, u: map<string, string>, additions: seq<(string, string)>)
    requires Lockable(buf, Lock(u, additions))
    ensures LogicalLines(RewriteText(buf, Lock(u, additions)))
            == Ended(Updated(LogicalLines(buf), u), additions, DetectEol(buf)) + Added(additions, DetectEol(buf))
  {
    var ls, r := LogicalLines(buf), Lock(u, additions);
    KeepAll(Updated(ls, u));
    ParseWellFormed(buf);
    UpdatedClosed(ls, u);
    var s := Updated(ls, u);
    assert s != [] ==> s[|s| - 1] in s;
    NoLoneCrsStay(buf, r);
    ReparsesExactly(buf, r);
    if additions == [] { assert s + Added(additions, DetectEol(buf)) == s; }
  }

  lemma AddedDropOut(first: seq<LogicalLine>, additions: seq<(string, string)>, eol: string, w: map<string, string>)
    requires NoKeyIn(first, AddedNames(additions)) && w.Keys !! AddedNames(additions)
    ensures Kept(Updated(first + Added(additions, eol), w), AddedNames(additions)) == Updated(first, w)
  {
    var more, names := Added(additions, eol), AddedNames(additions);
    UpdatedJoin(first, more, w);
    KeptJoin(Updated(first, w), Updated(more, w), names);
    AddedVanish(additions, eol, w, names);
    UpdatedKeys(first, w, names);
    KeptAll(Updated(first, w), names);
  }

  lemma EndedTwice(ls: seq<LogicalLine>, u: map<string, string>, w: map<string, string>,
                   additions: seq<(string, string)>, eol: string)
    requires AllReadBack(ls, u) && AllReadBack(ls, w) && u.Keys == w.Keys && eol in {"\n", "\r\n"}
    ensures Updated(Ended(Updated(ls, u), additions, eol), w) == Ended(Updated(ls, w), additions, eol)
  {
    UpdatedTwice(ls, u, w);
    UpdatedWithEol(ls, u, w, eol);
  }

  lemma EndedKeys(ls: seq<LogicalLine>, u: map<string, string>, additions: seq<(string, string)>, eol: string)
    requires NoKeyIn(ls, AddedNames(additions))
    ensures NoKeyIn(Ended(Updated(ls, u), additions, eol), AddedNames(additions))
  {
    UpdatedKeys(ls, u, AddedNames(additions));
    WithEolKeys(Updated(ls, u), eol, AddedNames(additions));
  }

  /** Unlocking what was locked leaves the lines of the original file with the values written back. */
  lemma UnlockedText(buf: string, u: map<string, string>, w: map<string, string>, additions: seq<(string, string)>)
    requires Lockable(buf, Lock(u, additions))
    requires ValuesOk(w) && UpdatesReadBack(LogicalLines(buf), w) && w.Keys == u.Keys
    ensures RewriteText(RewriteText(buf, Lock(u, additions)), Unlock(w, additions))
            == Serialize(Ended(Updated(LogicalLines(buf), w), additions, DetectEol(buf)))
  {
    var ls, eol := LogicalLines(buf), DetectEol(buf);
    ParseWellFormed(buf);
    NoLoneCrsStay(buf, Lock(u, additions));
    LockedLines(buf, u, additions);
    EndedKeys(ls, u, additions, eol);
    AddedDropOut(Ended(Updated(ls, u), additions, eol), additions, eol, w);
    EndedTwice(ls, u, w, additions, eol);
  }

  // ----- ... exactly when that is the original file, byte for byte --------------------------------

  lemma JoinCancels(p: Parts, v: string)
    ensures Join(p.(value := v)) == Join(p) <==> v == p.value
  {
    if Join(p.(value := v)) == Join(p) {
      var n := |p.head|;
      assert Join(p)[n..n + |p.value|] == p.value;
      assert Join(p.(value := v))[n..n + |v|] == v;
      assert |v| == |p.value|;
    }
  }

  /** The value a line has, as an update would replace it. */
  predicate Restores(l: LogicalLine, w: map<string, string>) {
    KeyIn(l, w.Keys) ==> w[l.key.value] == SplitAssignment(l.raw).value
  }

  lemma RestoredLine(l: LogicalLine, w: map<string, string>)
    requires Alone(l) && LineClosed(l)
    ensures UpdatedLine(l, w) == l <==> Restores(l, w)
  {
    if KeyIn(l, w.Keys) {
      KeptOnOneLine(l);
      ScannersAgree(l.raw);
      JoinCancels(SplitAssignment(l.raw), w[l.key.value]);
    }
  }

  lemma LastLineEnds(ls: seq<LogicalLine>)
    requires WellFormed(ls) && ls != []
    ensures EndsWithLf(Serialize(ls)) == EndsWithLf(ls[|ls| - 1].raw) && Serialize(ls) != ""
  {
    var k := ls[|ls| - 1];
    assert LineOk(ls, |ls| - 1);
    AloneNonEmpty(k);
    SerializeAppend(ls[..|ls| - 1], [k]);
    assert ls == ls[..|ls| - 1] + [k] && Serialize([k]) == k.raw + "" == k.raw;
    TailDecides(Serialize(ls[..|ls| - 1]), k.raw);
  }

  lemma TailDecides(a: string, b: string)
    requires b != ""
    ensures EndsWithLf(a + b) == EndsWithLf(b)
  {
  }

  /** The original ends with a line end, or nothing was appended to it. */
  predicate EndKept(buf: string, additions: seq<(string, string)>) {
    additions == [] || buf == "" || EndsWithLf(buf)
  }

  lemma EndedIsSame(buf: string, additions: seq<(string, string)>, eol: string)
    requires NoLoneCr(buf) && eol in {"\n", "\r\n"}
    ensures Ended(LogicalLines(buf), additions, eol) == LogicalLines(buf) <==> EndKept(buf, additions)
  {
    var ls := LogicalLines(buf);
    ParseWellFormed(buf);
    SplitIsLossless(buf);
    if ls != [] {
      LastLineEnds(ls);
      var k, e := ls[|ls| - 1], WithEol(ls, eol);
      if !EndsWithLf(k.raw) { assert e[|ls| - 1].raw == k.raw + eol; }
    }
  }

  lemma EndedAt(ls: seq<LogicalLine>, additions: seq<(string, string)>, eol: string, i: nat)
    requires i < |ls| && eol in {"\n", "\r\n"}
    ensures var e := Ended(ls, additions, eol);
            |e| == |ls| && (e[i] == ls[i] || (!EndsWithLf(ls[i].raw) && EndsWithLf(e[i].raw)))
  {
    WithEolAt(ls, eol, i);
    assert ls[i].raw + "" == ls[i].raw;
  }

  /** The lines come out as they were exactly if each does and the last keeps its end. */
  lemma SameLinesExactly(buf: string, w: map<string, string>, additions: seq<(string, string)>, eol: string)
    requires NoLoneCr(buf) && AllClosed(LogicalLines(buf)) && AllReadBack(LogicalLines(buf), w) && eol in {"\n", "\r\n"}
    ensures var ls := LogicalLines(buf);
            Ended(Updated(ls, w), additions, eol) == ls
            <==> EndKept(buf, additions) && forall l :: l in ls ==> Restores(l, w)
  {
    var ls := LogicalLines(buf);
    var x := Updated(ls, w);
    forall i | 0 <= i < |ls| ensures ls[i] in ls && x[i] == UpdatedLine(ls[i], w) && (x[i] == ls[i] <==> Restores(ls[i], w))
                                     && EndsWithLf(x[i].raw) == EndsWithLf(ls[i].raw) {
      assert LineOk(ls, i) && ls[i] in ls;
      UpdatedAt(ls, w, i);
      RestoredLine(ls[i], w);
      UpdateKeepsEnd(ls[i], w);
    }
    if Ended(x, additions, eol) == ls {
      forall i | 0 <= i < |ls| ensures x[i] == ls[i] {
        EndedAt(x, additions, eol, i);
      }
      SameLines(x, ls);
    } else if forall l :: l in ls ==> Restores(l, w) {
      SameLines(x, ls);
    }
    if x == ls { EndedIsSame(buf, additions, eol); }
  }

  lemma EndedWellFormed(ls: seq<LogicalLine>, w: map<string, string>, additions: seq<(string, string)>, eol: string)
    requires AllReadBack(ls, w) && AllClosed(ls) && eol in {"\n", "\r\n"}
    ensures WellFormed(Ended(Updated(ls, w), additions, eol))
  {
    forall i | 0 <= i < |ls| ensures LooseAt(ls, i) { assert LineOk(ls, i); }
    LfLinesStayApart(ls, Request(w, [], {}));
    KeepAll(ls);
    SurvivorsExactly(ls, w);
    if ls != [] {
      UpdatedClosed(ls, w);
      assert Updated(ls, w)[|ls| - 1] in Updated(ls, w);
      assert ls[|ls| - 1] in ls;
      EndedExactly(ls, w, eol);
    }
  }

  /**
   * Lock, then unlock with values `w`: the file is back byte for byte if and only if each value written
   * back is the one the line had, and the file ended with a line end if lines had been appended.
   */
  lemma UnlockRestoresExactly(buf: string, u: map<string, string>, w: map<string, string>, additions: seq<(string, string)>)
    requires Lockable(buf, Lock(u, additions))
    requires ValuesOk(w) && UpdatesReadBack(LogicalLines(buf), w) && w.Keys == u.Keys
    ensures RewriteText(RewriteText(buf, Lock(u, additions)), Unlock(w, additions)) == buf
            <==> EndKept(buf, additions) && forall l :: l in LogicalLines(buf) ==> Restores(l, w)
  {
    var ls, eol := LogicalLines(buf), DetectEol(buf);
    UnlockedText(buf, u, w, additions);
    ParseWellFormed(buf);
    NoLoneCrsStay(buf, Lock(u, additions));
    SplitIsLossless(buf);
    SameLinesExactly(buf, w, additions, eol);
    EndedWellFormed(ls, w, additions, eol);
    WellFormedReparses(Ended(Updated(ls, w), additions, eol));
  }

  // ----- The values a snapshot keeps --------------------------------------------------------------

  const BASE_URL := "_BASE_URL"

  predicate IsBaseUrl(name: string) {
    |name| >= |BASE_URL| && name[|name| - |BASE_URL|..] == BASE_URL
  }

  /** What the snapshot keeps of a line's value: all of it between quotes, else without trailing blanks. */
  function AsWritten(p: Parts): string {
    if p.head != "" && IsQuote(p.head[|p.head| - 1]) then p.value else RTrimBlanks(p.value)
  }

  function WrittenValue(l: LogicalLine): string { AsWritten(SplitAssignment(l.raw)) }

  function Noted(m: map<string, string>, l: LogicalLine): map<string, string> {
    if l.key.None? || !IsBaseUrl(l.key.value) then m
    else if ValidValue(WrittenValue(l)) then m[l.key.value := WrittenValue(l)]
    else m - {l.key.value}
  }

  /** `EnvSnapshot.raw`. */
  function BaseUrls(ls: seq<LogicalLine>): map<string, string> {
    if ls == [] then map[] else Noted(BaseUrls(ls[..|ls| - 1]), ls[|ls| - 1])
  }

  /** The last line that assigns a name decides, as it does for python-dotenv. */
  lemma {:induction false} LastLineDecides(ls: seq<LogicalLine>, i: nat)
    requires i < |ls| && ls[i].key.Some? && IsBaseUrl(ls[i].key.value)
    requires forall j :: i < j < |ls| ==> ls[j].key != ls[i].key
    ensures ls[i].key.value in BaseUrls(ls) <==> ValidValue(WrittenValue(ls[i]))
    ensures ls[i].key.value in BaseUrls(ls) ==> BaseUrls(ls)[ls[i].key.value] == WrittenValue(ls[i])
    decreases |ls|
  {
    if i < |ls| - 1 { LastLineDecides(ls[..|ls| - 1], i); }
  }

  lemma {:induction false} BaseUrlsAreValid(ls: seq<LogicalLine>)
    ensures forall k :: k in BaseUrls(ls) ==> ValidValue(BaseUrls(ls)[k]) && IsBaseUrl(k)
    decreases |ls|
  {
    if ls != [] { BaseUrlsAreValid(ls[..|ls| - 1]); }
  }

  lemma {:induction false} TrimmedFirst(s: string)
    requires s != "" && !IsBlank(s[0])
    ensures RTrimBlanks(s) != ""
    decreases |s|
  {
    if IsBlank(s[|s| - 1]) { TrimmedFirst(s[..|s| - 1]); }
  }

  lemma HeadEndsLikeBody(raw: string)
    requires Find(raw, '=') < |raw|
    ensures var h := SplitAssignment(raw).head; h != "" && (IsQuote(h[|h| - 1]) <==> Quoted(raw))
  {
    CutWell(raw);
    var p := Cut(raw);
    PiecesHead(p);
    if QuotedBody(p.body) {
      assert SplitAssignment(raw).head == p.prefix + p.blanks + [p.body[0]];
    } else {
      BlanksAreNoQuote(p.prefix, p.blanks);
    }
  }

  lemma BlanksAreNoQuote(prefix: string, blanks: string)
    requires PrefixOk(prefix) && AllBlank(blanks)
    ensures var h := prefix + blanks + ""; h != "" && !IsQuote(h[|h| - 1])
  {
    assert prefix + blanks + "" == prefix + blanks;
    if blanks != "" { assert blanks[|blanks| - 1] in blanks; }
  }

  lemma PlainValueStart(raw: string)
    requires Find(raw, '=') < |raw| && !Quoted(raw)
    ensures var v := SplitAssignment(raw).value;
            (v == "" ==> Cut(raw).body == "") && (v != "" ==> !IsBlank(v[0]))
  {
    CutWell(raw);
    var body := Cut(raw).body;
    if body != "" {
      CommentStartShape(body);
      assert SplitAssignment(raw).value == body[..CommentStart(body)];
    }
  }

  /** What a line holds can be written back to it. */
  lemma OwnValueReadsBack(l: LogicalLine)
    requires Alone(l) && l.key.Some? && LineClosed(l) && ValidValue(WrittenValue(l))
    ensures ReadsBack(l.raw, WrittenValue(l))
  {
    KeptOnOneLine(l);
    var p := SplitAssignment(l.raw);
    HeadEndsLikeBody(l.raw);
    if Quoted(l.raw) {
      ScannersAgree(l.raw);
      ReadsBackExactly(l.raw, p.value);
    } else {
      PlainValueStart(l.raw);
      if p.value == "" {
        CommentIsKept(l.raw);
      } else {
        TrimmedFirst(p.value);
      }
    }
  }

  // ----- Byte round trip of lock, then unlock ------------------------------------------------------

  /** Every name of `u` is assigned on one line. */
  predicate AssignedOnce(ls: seq<LogicalLine>, names: set<string>) {
    forall i, j :: 0 <= i < j < |ls| && KeyIn(ls[i], names) ==> ls[j].key != ls[i].key
  }

  /** What unlock writes back. */
  function FromSnapshot(names: set<string>, raw: map<string, string>): map<string, string>
    requires names <= raw.Keys
  {
    map k | k in names :: raw[k]
  }

  /** The value is between quotes, or has no blanks behind it. */
  predicate NoTrailingBlanks(l: LogicalLine) {
    Quoted(l.raw) || RTrimBlanks(SplitAssignment(l.raw).value) == SplitAssignment(l.raw).value
  }

  lemma WrittenIsValue(l: LogicalLine)
    requires Alone(l) && l.key.Some?
    ensures WrittenValue(l) == SplitAssignment(l.raw).value <==> NoTrailingBlanks(l)
  {
    KeptOnOneLine(l);
    HeadEndsLikeBody(l.raw);
  }

  lemma SnapshotOfLine(ls: seq<LogicalLine>, names: set<string>, i: nat)
    requires WellFormed(ls) && AllClosed(ls) && AssignedOnce(ls, names) && names <= BaseUrls(ls).Keys
    requires i < |ls| && KeyIn(ls[i], names)
    ensures var v := FromSnapshot(names, BaseUrls(ls))[ls[i].key.value];
            ValidValue(v) && ReadsBack(ls[i].raw, v)
    ensures Restores(ls[i], FromSnapshot(names, BaseUrls(ls))) <==> NoTrailingBlanks(ls[i])
  {
    var l := ls[i];
    assert LineOk(ls, i) && l in ls;
    BaseUrlsAreValid(ls);
    LastLineDecides(ls, i);
    OwnValueReadsBack(l);
    WrittenIsValue(l);
  }

  lemma SnapshotReadsBack(ls: seq<LogicalLine>, names: set<string>)
    requires WellFormed(ls) && AllClosed(ls) && AssignedOnce(ls, names) && names <= BaseUrls(ls).Keys
    ensures ValuesOk(FromSnapshot(names, BaseUrls(ls)))
    ensures UpdatesReadBack(ls, FromSnapshot(names, BaseUrls(ls)))
    ensures forall l :: l in ls && KeyIn(l, names) ==>
              (Restores(l, FromSnapshot(names, BaseUrls(ls))) <==> NoTrailingBlanks(l))
  {
    BaseUrlsAreValid(ls);
    forall l | l in ls && KeyIn(l, names)
      ensures ReadsBack(l.raw, FromSnapshot(names, BaseUrls(ls))[l.key.value])
      ensures Restores(l, FromSnapshot(names, BaseUrls(ls))) <==> NoTrailingBlanks(l)
    {
      var i :| 0 <= i < |ls| && ls[i] == l;
      SnapshotOfLine(ls, names, i);
    }
  }

  /**
   * Overwriting `*_BASE_URL` values that are assigned once and appending lines, then writing the
   * snapshot's values back and dropping the lines, restores the file byte for byte, if and only if no
   * overwritten value had blanks behind it outside quotes (and the last line had its line end, if lines
   * were appended).
   */
  lemma LockUnlockRoundTrip(buf: string, u: map<string, string>, additions: seq<(string, string)>)
    requires Lockable(buf, Lock(u, additions))
    requires AssignedOnce(LogicalLines(buf), u.Keys) && u.Keys <= BaseUrls(LogicalLines(buf)).Keys
    ensures var w := FromSnapshot(u.Keys, BaseUrls(LogicalLines(buf)));
            RewriteText(RewriteText(buf, Lock(u, additions)), Unlock(w, additions)) == buf
            <==> EndKept(buf, additions) && forall l :: l in LogicalLines(buf) && KeyIn(l, u.Keys) ==> NoTrailingBlanks(l)
  {
    var ls := LogicalLines(buf);
    var w := FromSnapshot(u.Keys, BaseUrls(ls));
    ParseWellFormed(buf);
    SnapshotReadsBack(ls, u.Keys);
    UnlockRestoresExactly(buf, u, w, additions);
    assert forall l :: l in ls && !KeyIn(l, u.Keys) ==> Restores(l, w);
  }
}
