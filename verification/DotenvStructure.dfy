/**
 * Where line ends sit in the logical lines of `src/worthless/cli/dotenv_rewriter.py`, and why a line
 * that was updated is still one logical line.
 */
module DotenvStructure {
  import opened Common
  import opened Text
  import opened DotenvLines
  import opened DotenvAssignment

  /** Parsed on its own, the line is exactly itself. */
  predicate Alone(l: LogicalLine) { LogicalLines(l.raw) == [l] }

  // ----- A parsed buffer consists of such lines -------------------------------------------------

  /** A group's length does not depend on what follows the group. */
  lemma {:induction false} GatherPrefix(merged: string, ps: seq<string>, j: nat)
    requires j <= |ps|
    ensures Gather(merged, ps[..Gather(merged, ps, j)], j) == Gather(merged, ps, j)
    decreases |ps| - j
  {
    if j < |ps| {
      var n := Gather(merged, ps, j);
      assert ps[..n][j] == ps[j];
      if !Closed(merged + ps[j]) { GatherPrefix(merged + ps[j], ps, j + 1); }
    }
  }

  lemma GroupOfFirst(ps: seq<string>)
    requires ps != []
    ensures Group(ps[..GroupLen(ps)]) == [FirstGroup(ps)]
  {
    var n := GroupLen(ps);
    var qs := ps[..n];
    assert qs[0] == ps[0];
    if ParseKey(ps[0]).0.Some? && !Closed(ps[0]) { GatherPrefix(ps[0], ps, 1); }
    assert GroupLen(qs) == n && qs[..n] == qs && qs[n..] == [];
    GroupStep(qs);
    assert Group(qs[n..]) == [];
  }

  lemma PiecesPart(ps: seq<string>, i: nat, j: nat)
    requires PhysicalLines(ps) && i <= j <= |ps|
    ensures PhysicalLines(ps[i..j])
  {
    forall k | 0 <= k < j - i ensures PieceOk(ps[i..j], k) { assert PieceOk(ps, i + k); }
  }

  lemma {:induction false} LastOfConcat(ps: seq<string>)
    requires ps != [] && ps[|ps| - 1] != ""
    ensures Concat(ps) != "" && Concat(ps)[|Concat(ps)| - 1] == ps[|ps| - 1][|ps[|ps| - 1]| - 1]
    decreases |ps|
  {
    if |ps| == 1 {
      assert Concat(ps) == ps[0];
    } else {
      LastOfConcat(ps[1..]);
    }
  }

  /** Where physical lines meet, so do the texts before and after. */
  lemma PartsApart(ps: seq<string>, n: nat)
    requires PhysicalLines(ps) && 0 < n < |ps|
    ensures Apart(Concat(ps[..n]), Concat(ps[n..]))
  {
    assert PieceOk(ps, n - 1) && PieceOk(ps, n);
    LastOfConcat(ps[..n]);
    FirstOfConcat(ps[n..]);
  }

  lemma FirstGroupAlone(ps: seq<string>)
    requires ps != [] && PhysicalLines(ps)
    ensures Alone(FirstGroup(ps))
  {
    var n := GroupLen(ps);
    PiecesPart(ps, 0, n);
    assert ps[0..n] == ps[..n];
    PiecesSplitBack(ps[..n]);
    GroupOfFirst(ps);
  }

  /** Line `i` is parsed as itself; a line with others behind it ends there and leaves no quote open. */
  predicate LineOk(ls: seq<LogicalLine>, i: nat)
    requires i < |ls|
  {
    Alone(ls[i]) && (i + 1 < |ls| ==> Apart(ls[i].raw, ls[i + 1].raw) && LineClosed(ls[i]))
  }

  predicate WellFormed(ls: seq<LogicalLine>) {
    forall i :: 0 <= i < |ls| ==> LineOk(ls, i)
  }

  lemma AloneNonEmpty(l: LogicalLine)
    requires Alone(l)
    ensures l.raw != ""
  {
    assert LogicalLines("") == [];
  }

  /** A quote that is left open swallows the rest of the file. */
  lemma {:induction false} GatherOpenReachesEnd(merged: string, ps: seq<string>, j: nat)
    requires j <= |ps| && Gather(merged, ps, j) < |ps|
    ensures Closed(Merged(merged, ps, j, Gather(merged, ps, j)))
    decreases |ps| - j
  {
    if !Closed(merged + ps[j]) {
      GatherOpenReachesEnd(merged + ps[j], ps, j + 1);
    } else {
      assert Merged(merged, ps, j, j + 1) == Merged(merged + ps[j], ps, j + 1, j + 1);
    }
  }

  lemma OnlyLastMayBeOpen(ps: seq<string>)
    requires ps != [] && GroupLen(ps) < |ps|
    ensures LineClosed(FirstGroup(ps))
  {
    FirstGroupMerged(ps);
    if ParseKey(ps[0]).0.Some? && !Closed(ps[0]) { GatherOpenReachesEnd(ps[0], ps, 1); }
  }

  lemma WellFormedCons(l: LogicalLine, ls: seq<LogicalLine>)
    requires Alone(l) && WellFormed(ls)
    requires ls != [] ==> Apart(l.raw, ls[0].raw) && LineClosed(l)
    ensures WellFormed([l] + ls)
  {
    forall i | 0 <= i < |[l] + ls| ensures LineOk([l] + ls, i) {
      if i > 0 { assert LineOk(ls, i - 1); }
    }
  }

  lemma WellFormedTail(ls: seq<LogicalLine>)
    requires WellFormed(ls) && ls != []
    ensures Alone(ls[0]) && WellFormed(ls[1..])
    ensures |ls| > 1 ==> Apart(ls[0].raw, ls[1].raw) && LineClosed(ls[0])
  {
    assert LineOk(ls, 0);
    forall i | 0 <= i < |ls[1..]| ensures LineOk(ls[1..], i) { assert LineOk(ls, i + 1); }
  }

  lemma {:induction false} GroupWellFormed(ps: seq<string>)
    requires PhysicalLines(ps)
    ensures WellFormed(Group(ps))
    decreases |ps|
  {
    if ps != [] {
      var n := GroupLen(ps);
      FirstGroupAlone(ps);
      PiecesPart(ps, n, |ps|);
      assert ps[n..|ps|] == ps[n..];
      GroupWellFormed(ps[n..]);
      if n < |ps| { NextGroupApart(ps); }
      GroupStep(ps);
      WellFormedCons(FirstGroup(ps), Group(ps[n..]));
    }
  }

  lemma NextGroupApart(ps: seq<string>)
    requires PhysicalLines(ps) && ps != [] && GroupLen(ps) < |ps|
    ensures LineClosed(FirstGroup(ps)) && Apart(FirstGroup(ps).raw, FirstGroup(ps[GroupLen(ps)..]).raw)
  {
    var n := GroupLen(ps);
    OnlyLastMayBeOpen(ps);
    PartsApart(ps, n);
    assert PieceOk(ps, n);
    FirstOfConcat(ps[n..]);
    FirstOfConcat(ps[n..][..GroupLen(ps[n..])]);
  }

  /** Every buffer is parsed into such lines. */
  lemma ParseWellFormed(buf: string)
    ensures WellFormed(LogicalLines(buf))
  {
    SplitGivesPieces(buf);
    GroupWellFormed(SplitLines(buf));
  }

  lemma ClosedSingle(l: LogicalLine)
    requires LineClosed(l)
    ensures AllClosed([l])
  {
  }

  lemma FirstOfSerialize(ls: seq<LogicalLine>)
    requires ls != [] && ls[0].raw != ""
    ensures Serialize(ls) != "" && Serialize(ls)[0] == ls[0].raw[0]
  {
  }

  /** And such lines, written out, are parsed into themselves. */
  lemma {:induction false} WellFormedReparses(ls: seq<LogicalLine>)
    requires WellFormed(ls)
    ensures LogicalLines(Serialize(ls)) == ls
    decreases |ls|
  {
    if ls != [] {
      WellFormedTail(ls);
      WellFormedReparses(ls[1..]);
      if |ls| == 1 {
        assert Serialize(ls[1..]) == "" && Serialize(ls) == ls[0].raw + "" == ls[0].raw;
      } else {
        ClosedSingle(ls[0]);
        assert LineOk(ls, 1);
        AloneNonEmpty(ls[1]);
        FirstOfSerialize(ls[1..]);
        ParseJoin(ls[0].raw, Serialize(ls[1..]));
        assert ls == [ls[0]] + ls[1..];
      }
    }
  }

  /** So being such lines is exactly what it takes. */
  lemma ReparseIffWellFormed(ls: seq<LogicalLine>)
    ensures LogicalLines(Serialize(ls)) == ls <==> WellFormed(ls)
  {
    if WellFormed(ls) { WellFormedReparses(ls); }
    ParseWellFormed(Serialize(ls));
  }

  // ----- Head and tail of an assignment hold no line end but the last --------------------------

  /** What `Alone` says about the physical lines. */
  lemma AlonePieces(l: LogicalLine) returns (ps: seq<string>)
    requires Alone(l)
    ensures ps == SplitLines(l.raw) && ps != [] && PhysicalLines(ps) && FirstGroup(ps) == l && GroupLen(ps) == |ps|
  {
    ps := SplitLines(l.raw);
    SplitGivesPieces(l.raw);
    assert ps != [];
    GroupStep(ps);
    var rest := Group(ps[GroupLen(ps)..]);
    assert rest == [] by { assert |[FirstGroup(ps)] + rest| == 1; }
    assert ([FirstGroup(ps)] + rest)[0] == FirstGroup(ps);
  }

  lemma {:induction false} FindAppend(s: string, c: char, more: string)
    requires Find(s, c) < |s|
    ensures Find(s + more, c) == Find(s, c)
    decreases |s|
  {
    if s[0] != c {
      assert (s + more)[1..] == s[1..] + more;
      FindAppend(s[1..], c, more);
    }
  }

  /** The first `=` is on the first physical line, before its line end. */
  lemma FirstEquals(p: string, more: string)
    requires IsLine(p) && ParseKey(p).0.Some?
    ensures Find(p, '=') < |p| && Find(p + more, '=') == Find(p, '=')
    ensures NoEol(p[..Find(p, '=') + 1])
  {
    KeyNeedsEquals(p);
    FindAppend(p, '=', more);
    var e := Find(p, '=');
    var body, eol := LineShape(p);
    assert p[e] == '=' && e < |body|;
    assert p[..e + 1] == body[..e + 1];
  }

  lemma NoEolJoin(a: string, b: string)
    requires NoEol(a) && NoEol(b)
    ensures NoEol(a + b)
  {
  }

  lemma HeadNoEol(prefix: string, blanks: string, quote: string)
    requires NoEol(prefix) && AllBlank(blanks) && (quote == "" || (|quote| == 1 && IsQuote(quote[0])))
    ensures NoEol(prefix + blanks + quote)
  {
    NoEolJoin(prefix, blanks);
    NoEolJoin(prefix + blanks, quote);
  }

  lemma HeadOnOneLine(raw: string)
    requires Find(raw, '=') < |raw| && NoEol(raw[..Find(raw, '=') + 1])
    ensures NoEol(SplitAssignment(raw).head)
  {
    CutWell(raw);
    var p := Cut(raw);
    PiecesHead(p);
    HeadNoEol(p.prefix, p.blanks, if QuotedBody(p.body) then [p.body[0]] else "");
  }

  /**
   * What stands before a line end as `_split_assignment` sees it: a text without line ends, which may have
   * a lone CR behind it, for that is no line end there.
   */
  predicate OneLine(text: string, eol: string) {
    NoEol(text) || (eol == "" && EndsWithCr(text) && NoEol(text[..|text| - 1]))
  }

  /** A physical line as `_split_assignment` sees it. */
  lemma LineAsCut(p: string) returns (body: string, eol: string)
    requires IsLine(p)
    ensures p == body + eol && OneLine(body, eol) && eol in {"", "\n", "\r\n"}
  {
    body, eol := LineShape(p);
    if eol == "\r" {
      assert (body + eol)[..|body + eol| - 1] == body;
      body, eol := body + eol, "";
    }
    assert p == body + eol;
  }

  /** A text whose quote is still open, one physical line later. */
  predicate OpenBefore(before: string, body: string, eol: string) {
    && Find(before, '=') < |before| && !Closed(before) && Apart(before, body + eol)
    && OneLine(body, eol) && eol in {"", "\n", "\r\n"} && body + eol != ""
  }

  function Longer(before: string, body: string, eol: string): Pieces
    requires Find(before, '=') < |before|
  {
    var p := Cut(before);
    Pieces(p.prefix, p.blanks, p.body + p.eol + body, eol)
  }

  lemma OpenIsQuoted(before: string)
    requires Find(before, '=') < |before| && !Closed(before)
    ensures QuotedBody(Cut(before).body)
    ensures var b := Cut(before).body; Scan(b, 1, b[0]) == |b|
  {
    SameOpenQuote(before);
  }

  lemma Unnest(a: string, b: string, c: string, d: string, e: string)
    ensures a + (b + c + d) + e == a + b + c + (d + e)
  {
  }

  lemma LongerPrints(before: string, body: string, eol: string)
    requires Find(before, '=') < |before|
    ensures Print(Longer(before, body, eol)) == before + (body + eol)
  {
    PrintOfCut(before);
    var p := Cut(before);
    Unnest(p.prefix + p.blanks, p.body, p.eol, body, eol);
  }

  lemma LongerEnds(y: string, body: string, eol: string)
    requires Apart(y, body + eol) && OneLine(body, eol) && eol in {"", "\n", "\r\n"} && body + eol != ""
    ensures EndOk(y + body, eol)
  {
    if body != "" {
      assert (y + body)[|y + body| - 1] == body[|body| - 1] && body[|body| - 1] in body;
    } else {
      assert y + body == y && body + eol == eol;
    }
  }

  lemma ApartInTail(a: string, rest: string, b: string)
    requires Apart(a + rest, b) && a != "" && !IsEol(a[|a| - 1])
    ensures Apart(rest, b)
  {
    assert a + "" == a;
    if rest != "" { assert (a + rest)[|a + rest| - 1] == rest[|rest| - 1]; }
  }

  lemma OpenEndsApart(before: string, b: string)
    requires Find(before, '=') < |before| && Apart(before, b)
    ensures var p := Cut(before); Apart(p.blanks + p.body + p.eol, b)
  {
    CutParts(before);
    CutWell(before);
    var p := Cut(before);
    ApartInTail(p.prefix, p.blanks + p.body + p.eol, b);
  }

  lemma Associate4(a: string, b: string, c: string, d: string)
    ensures a + (b + c + d) == a + b + c + d
  {
  }

  lemma LongerWell(before: string, body: string, eol: string)
    requires OpenBefore(before, body, eol)
    ensures WellCut(Longer(before, body, eol))
  {
    PrintOfCut(before);
    OpenIsQuoted(before);
    var p := Cut(before);
    OpenEndsApart(before, body + eol);
    LongerEnds(p.blanks + p.body + p.eol, body, eol);
    Associate4(p.blanks, p.body, p.eol, body);
    assert (p.body + p.eol + body)[0] == p.body[0];
  }

  lemma QuoteStaysOpen(p: Pieces, body: string)
    requires QuotedBody(p.body) && Scan(p.body, 1, p.body[0]) == |p.body| && p.eol in {"", "\n", "\r\n"}
    ensures Scan(p.body + p.eol + body, 1, p.body[0]) >= |p.body + p.eol|
    ensures |KeptTail(p.body + p.eol + body)| <= (if OpenQuote(p.body + p.eol + body).Some? then 1 else |body|)
  {
    ScanEolTail(p.body, p.eol, 1, p.body[0]);
    ScanExtend(p.body + p.eol, body, 1, p.body[0]);
    assert (p.body + p.eol + body)[0] == p.body[0];
  }

  /** Until the last physical line of a group, the quote stays open. */
  lemma {:induction false} GatherOpenBefore(merged: string, ps: seq<string>, j: nat)
    requires j < |ps| && !Closed(merged)
    ensures Gather(merged, ps, j) > j && !Closed(Merged(merged, ps, j, Gather(merged, ps, j) - 1))
    decreases |ps| - j
  {
    if !Closed(merged + ps[j]) && j + 1 < |ps| {
      GatherOpenBefore(merged + ps[j], ps, j + 1);
    }
  }

  /** All the lines of a group but the last. */
  lemma StillOpen(ps: seq<string>) returns (before: string)
    requires PhysicalLines(ps) && |ps| > 1 && GroupLen(ps) == |ps|
    ensures before == Concat(ps[..|ps| - 1])
    ensures Find(before, '=') < |before| && !Closed(before) && Apart(before, ps[|ps| - 1])
  {
    var n := |ps|;
    GatherOpenBefore(ps[0], ps, 1);
    before := Concat(ps[..n - 1]);
    MergedIsConcat(ps[0], ps, 1, n - 1);
    assert ps[..n - 1][1..] == ps[1..n - 1] && ps[..n - 1][0] == ps[0];
    PartsApart(ps, n - 1);
    assert ps[n - 1..] == [ps[n - 1]] && Concat([ps[n - 1]]) == ps[n - 1];
    OpenHasEquals(before);
  }

  lemma OpenHasEquals(text: string)
    requires !Closed(text)
    ensures Find(text, '=') < |text|
  {
  }

  /** The lines of a group that takes more than one: the text before the last, and the last. */
  lemma ManyLines(l: LogicalLine, ps: seq<string>) returns (before: string, body: string, eol: string)
    requires PhysicalLines(ps) && |ps| > 1 && FirstGroup(ps) == l && GroupLen(ps) == |ps|
    ensures l.raw == before + (body + eol) && OpenBefore(before, body, eol)
  {
    before := StillOpen(ps);
    assert PieceOk(ps, |ps| - 1);
    body, eol := LineAsCut(ps[|ps| - 1]);
    LastConcat(ps);
  }

  lemma LastConcat(ps: seq<string>)
    requires ps != []
    ensures Concat(ps[..|ps|]) == Concat(ps[..|ps| - 1]) + ps[|ps| - 1]
  {
    ConcatAppend(ps[..|ps| - 1], [ps[|ps| - 1]]);
    assert ps[..|ps|] == ps[..|ps| - 1] + [ps[|ps| - 1]];
    assert Concat([ps[|ps| - 1]]) == ps[|ps| - 1];
  }

  lemma KeptTailIsSuffix(body: string)
    ensures QuotedBody(body) && OpenQuote(body).Some? ==> KeptTail(body) == [body[0]]
    ensures OpenQuote(body).None? ==> |KeptTail(body)| <= |body| && KeptTail(body) == body[|body| - |KeptTail(body)|..]
  {
  }

  lemma DropOneLine(t: string, k: nat, eol: string)
    requires OneLine(t, eol) && k <= |t|
    ensures OneLine(t[k..], eol)
  {
    var u := t[k..];
    if u != "" && !NoEol(t) {
      assert u[|u| - 1] == t[|t| - 1];
      forall c | c in u[..|u| - 1] ensures !IsEol(c) { assert c in t[..|t| - 1]; }
    }
  }

  lemma SuffixOneLine(s: string, t: string, k: nat, eol: string)
    requires OneLine(t, eol) && k <= |t|
    ensures OneLine((s + t)[|s + t| - k..], eol)
  {
    assert (s + t)[|s + t| - k..] == t[|t| - k..];
    DropOneLine(t, |t| - k, eol);
  }

  lemma TailOfMany(before: string, body: string, eol: string)
    requires OpenBefore(before, body, eol)
    ensures Find(before + (body + eol), '=') < |before + (body + eol)|
    ensures Cut(before + (body + eol)).eol == eol && OneLine(KeptTail(Cut(before + (body + eol)).body), eol)
  {
    var m, p := Longer(before, body, eol), Cut(before);
    LongerWell(before, body, eol);
    LongerPrints(before, body, eol);
    CutOfPrint(m);
    OpenIsQuoted(before);
    QuoteStaysOpen(p, body);
    KeptTailIsSuffix(m.body);
    if OpenQuote(m.body).None? { SuffixOneLine(p.body + p.eol, body, |KeptTail(m.body)|, eol); }
  }

  lemma BodyOfOne(body: string, eol: string)
    requires OneLine(body, eol) && eol in {"", "\n", "\r\n"} && Find(body + eol, '=') < |body|
    ensures Cut(body + eol).eol == eol && OneLine(Cut(body + eol).body, eol)
  {
    var e := Find(body + eol, '=');
    var rest := body[e + 1..];
    assert Rest(body + eol) == rest + eol;
    DropOneLine(body, e + 1, eol);
    OneLineEndOk(rest, eol);
    EndOkCuts(rest, eol);
    DropBlanksSplit(rest);
    DropOneLine(rest, Lead(rest), eol);
  }

  lemma OneLineEndOk(y: string, eol: string)
    requires OneLine(y, eol) && eol in {"", "\n", "\r\n"}
    ensures EndOk(y, eol)
  {
    if y != "" { assert y[|y| - 1] in y; }
  }

  lemma KeptTailOneLine(body: string, eol: string)
    requires OneLine(body, eol)
    ensures OneLine(KeptTail(body), eol)
  {
    KeptTailIsSuffix(body);
    if OpenQuote(body).None? { DropOneLine(body, |body| - |KeptTail(body)|, eol); }
  }

  lemma TailOfOne(p: string)
    requires IsLine(p) && ParseKey(p).0.Some?
    ensures Find(p, '=') < |p| && OneLine(KeptTail(Cut(p).body), Cut(p).eol)
  {
    FirstEquals(p, "");
    var body, eol := LineAsCut(p);
    assert p[Find(p, '=')] == '=';
    BodyOfOne(body, eol);
    KeptTailOneLine(Cut(p).body, eol);
  }

  lemma FirstPieceEquals(l: LogicalLine, ps: seq<string>)
    requires PhysicalLines(ps) && ps != [] && FirstGroup(ps) == l && GroupLen(ps) == |ps| && l.key.Some?
    ensures Find(ps[0], '=') < |ps[0]| <= |l.raw| && Find(l.raw, '=') == Find(ps[0], '=')
    ensures l.raw[..Find(l.raw, '=') + 1] == ps[0][..Find(l.raw, '=') + 1]
    ensures NoEol(l.raw[..Find(l.raw, '=') + 1])
    ensures |ps| == 1 ==> l.raw == ps[0]
  {
    assert PieceOk(ps, 0);
    assert ps[..|ps|] == ps;
    FirstEquals(ps[0], Concat(ps[1..]));
    if |ps| == 1 {
      assert Concat(ps[1..]) == "";
      assert ps[0] + "" == ps[0];
    }
  }

  lemma KeptTailOnOneLine(l: LogicalLine, ps: seq<string>)
    requires PhysicalLines(ps) && ps != [] && FirstGroup(ps) == l && GroupLen(ps) == |ps| && l.key.Some?
    requires Find(l.raw, '=') < |l.raw| && (|ps| == 1 ==> l.raw == ps[0])
    ensures OneLine(KeptTail(Cut(l.raw).body), Cut(l.raw).eol)
  {
    if |ps| == 1 {
      assert PieceOk(ps, 0);
      TailOfOne(ps[0]);
    } else {
      var before, body, eol := ManyLines(l, ps);
      TailOfMany(before, body, eol);
    }
  }

  /** What an update keeps of a line holds no line end, except one at its very end. */
  lemma KeptOnOneLine(l: LogicalLine)
    requires Alone(l) && l.key.Some?
    ensures Find(l.raw, '=') < |l.raw| && '=' in l.raw
    ensures NoEol(SplitAssignment(l.raw).head)
    ensures OneLine(KeptTail(Cut(l.raw).body), Cut(l.raw).eol)
    ensures SplitAssignment(l.raw).tail == KeptTail(Cut(l.raw).body) + Cut(l.raw).eol
  {
    var ps := AlonePieces(l);
    FirstPieceEquals(l, ps);
    HeadOnOneLine(l.raw);
    KeptTailOnOneLine(l, ps);
    PiecesTail(Cut(l.raw));
    FindIn(l.raw, '=');
  }

  // ----- An updated line is one physical, and one logical, line ---------------------------------

  lemma ValidNoEol(v: string)
    requires ValidValue(v)
    ensures NoEol(v)
  {
  }

  /** The lone CR behind the line, if an update keeps it. */
  function KeptCr(raw: string): string
    requires Find(raw, '=') < |raw|
  {
    if EndsWithCr(KeptTail(Cut(raw).body)) then "\r" else ""
  }

  /** The line end of an updated line. */
  function NewEnd(raw: string): string
    requires Find(raw, '=') < |raw|
  {
    KeptCr(raw) + Cut(raw).eol
  }

  lemma SplitCr(tb: string, eol: string)
    requires OneLine(tb, eol) && eol in {"", "\n", "\r\n"}
    ensures var cr := if EndsWithCr(tb) then "\r" else "";
            && tb == tb[..|tb| - |cr|] + cr && NoEol(tb[..|tb| - |cr|])
            && cr + eol in {"", "\n", "\r\n", "\r"}
            && (cr + eol == "\r" <==> cr != "") && (cr + eol in {"\n", "\r\n"} <==> eol != "")
  {
    assert tb[..|tb|] == tb && "" + eol == eol && "\r" + "" == "\r";
    if EndsWithCr(tb) { assert tb[|tb| - 1] in tb; }
  }

  lemma RebuiltShape(l: LogicalLine, v: string) returns (body: string)
    requires Alone(l) && l.key.Some? && ValidValue(v)
    ensures Find(l.raw, '=') < |l.raw| && NewEnd(l.raw) in {"", "\n", "\r\n", "\r"}
    ensures (NewEnd(l.raw) == "\r" <==> KeptCr(l.raw) != "") && (NewEnd(l.raw) in {"\n", "\r\n"} <==> Cut(l.raw).eol != "")
    ensures Rebuild(l.raw, v) == body + NewEnd(l.raw) && NoEol(body) && body != ""
  {
    KeptOnOneLine(l);
    CutWell(l.raw);
    var head, tb, eol := SplitAssignment(l.raw).head, KeptTail(Cut(l.raw).body), Cut(l.raw).eol;
    SplitCr(tb, eol);
    var text := tb[..|tb| - |KeptCr(l.raw)|];
    body := head + v + text;
    ShapeNoEol(head, v, text);
    ShapeJoin(head + v, text, KeptCr(l.raw), eol);
    PiecesHead(Cut(l.raw));
  }

  lemma ShapeNoEol(head: string, v: string, text: string)
    requires NoEol(head) && ValidValue(v) && NoEol(text)
    ensures NoEol(head + v + text)
  {
    ValidNoEol(v);
    NoEolJoin(head, v);
    NoEolJoin(head + v, text);
  }

  lemma ShapeJoin(a: string, text: string, cr: string, eol: string)
    ensures a + ((text + cr) + eol) == (a + text) + (cr + eol)
  {
  }

  lemma OneLineAlone(raw: string)
    requires IsLine(raw) && Closed(raw)
    ensures var (key, exported) := ParseKey(raw);
            LogicalLines(raw) == [LogicalLine(raw, key, key.Some? && exported)]
  {
    LineIsOneLine(raw);
    GroupStep([raw]);
    assert [raw][1..] == [] && [raw][..1] == [raw];
    assert Concat([raw]) == raw;
    assert Group([]) == [];
  }

  lemma RebuiltHead(raw: string, v: string) returns (more: string)
    requires Find(raw, '=') < |raw|
    ensures Rebuild(raw, v) == raw[..Find(raw, '=') + 1] + more
  {
    var c := Cut(raw);
    PiecesHead(c);
    var q, t := if QuotedBody(c.body) then [c.body[0]] else "", SplitAssignment(raw).tail;
    more := (c.blanks + q + v) + t;
    Associate4(c.prefix, c.blanks, q, v);
    Associate(c.prefix, c.blanks + q + v, t);
  }

  lemma RebuiltKey(l: LogicalLine, v: string)
    requires Alone(l) && l.key.Some?
    ensures var (key, exported) := ParseKey(Rebuild(l.raw, v)); key == l.key && (key.Some? && exported) == l.hasExport
  {
    var ps := AlonePieces(l);
    FirstPieceEquals(l, ps);
    var more := RebuiltHead(l.raw, v);
    SameHeadSameKey(ps[0], more);
  }

  lemma PlainAlone(body: string, eol: string)
    requires NoEol(body) && body != "" && eol in {"", "\n", "\r\n", "\r"} && Closed(body + eol)
    ensures var (key, exported) := ParseKey(body + eol);
            LogicalLines(body + eol) == [LogicalLine(body + eol, key, key.Some? && exported)]
  {
    PlainLine(body, eol);
    OneLineAlone(body + eol);
  }

  lemma EndsLike(body: string, eol: string)
    requires NoEol(body) && body != "" && eol in {"", "\n", "\r\n", "\r"}
    ensures EndsWithLf(body + eol) <==> eol in {"\n", "\r\n"}
    ensures EndsWithCr(body + eol) <==> eol == "\r"
  {
    if eol == "" { assert body + eol == body && body[|body| - 1] in body; }
  }

  /** An updated line is parsed, alone, as the same line with the new value in it. */
  lemma UpdatedAlone(l: LogicalLine, v: string)
    requires Alone(l) && l.key.Some? && ValidValue(v) && ReadsBack(l.raw, v)
    ensures '=' in l.raw && Find(l.raw, '=') < |l.raw|
    ensures Alone(l.(raw := Rebuild(l.raw, v))) && Closed(Rebuild(l.raw, v))
    ensures EndsWithLf(Rebuild(l.raw, v)) <==> Cut(l.raw).eol != ""
    ensures EndsWithCr(Rebuild(l.raw, v)) <==> KeptCr(l.raw) != ""
  {
    KeptOnOneLine(l);
    var body := RebuiltShape(l, v);
    ReadsBackCloses(l.raw, v);
    PlainAlone(body, NewEnd(l.raw));
    EndsLike(body, NewEnd(l.raw));
    RebuiltKey(l, v);
  }

  // ----- What becomes of a lone CR ------------------------------------------------------------------

  /** The line ends in a lone CR that `_split_assignment` counts to the value. */
  predicate CrInValue(raw: string) {
    EndsWithCr(raw) && (!Closed(raw) || (!Quoted(raw) && !HasComment(raw)))
  }

  lemma LastBehind(prefix: string, y: string, eol: string)
    requires PrefixOk(prefix) && eol in {"", "\n", "\r\n"}
    ensures EndsWithCr(prefix + (y + eol)) <==> eol == "" && EndsWithCr(y)
    ensures EndsWithLf(prefix + (y + eol)) <==> eol != "" || EndsWithLf(y)
  {
    if eol == "" {
      assert y + eol == y;
      if y == "" { assert prefix + "" == prefix; }
    } else {
      assert (prefix + (y + eol))[|prefix + (y + eol)| - 1] == eol[|eol| - 1];
    }
  }

  lemma LastOfBlanksAnd(blanks: string, body: string)
    requires AllBlank(blanks)
    ensures EndsWithCr(blanks + body) <==> EndsWithCr(body)
  {
    if body == "" {
      assert blanks + body == blanks;
      assert blanks != "" ==> blanks[|blanks| - 1] in blanks;
    }
  }

  /** The end of a line, seen through its pieces. */
  lemma EndOfCut(raw: string)
    requires Find(raw, '=') < |raw|
    ensures EndsWithLf(raw) <==> Cut(raw).eol != ""
    ensures EndsWithCr(raw) <==> Cut(raw).eol == "" && EndsWithCr(Cut(raw).body)
  {
    CutWell(raw);
    CutParts(raw);
    var p := Cut(raw);
    LastBehind(p.prefix, p.blanks + p.body, p.eol);
    LastOfBlanksAnd(p.blanks, p.body);
  }

  /** A CR is kept if and only if the line ends in one and it does not count to the value. */
  lemma KeptCrExactly(raw: string)
    requires Find(raw, '=') < |raw| && OneLine(KeptTail(Cut(raw).body), Cut(raw).eol)
    ensures KeptCr(raw) != "" <==> EndsWithCr(raw) && !CrInValue(raw)
  {
    var body := Cut(raw).body;
    EndOfCut(raw);
    SameOpenQuote(raw);
    KeptTailIsSuffix(body);
    if Quoted(raw) {
      QuotedTailCr(body);
      if KeptCr(raw) != "" { assert KeptTail(body)[|KeptTail(body)| - 1] in KeptTail(body); }
    } else {
      CommentIsKept(raw);
      PlainTailCr(body);
      if KeptCr(raw) != "" { assert KeptTail(body)[|KeptTail(body)| - 1] in KeptTail(body); }
    }
  }

  lemma QuotedTailCr(body: string)
    requires QuotedBody(body)
    ensures EndsWithCr(KeptTail(body)) <==> EndsWithCr(body) && OpenQuote(body).None?
  {
    KeptTailIsSuffix(body);
    if OpenQuote(body).None? { assert KeptTail(body)[|KeptTail(body)| - 1] == body[|body| - 1]; }
  }

  lemma PlainTailCr(body: string)
    requires !QuotedBody(body)
    ensures EndsWithCr(KeptTail(body)) <==> EndsWithCr(body) && KeptTail(body) != ""
  {
    KeptTailIsSuffix(body);
    if KeptTail(body) != "" { assert KeptTail(body)[|KeptTail(body)| - 1] == body[|body| - 1]; }
  }

  /** An update loses a line's end if and only if that is a lone CR which counts to the value. */
  lemma EndIsLostExactly(l: LogicalLine, v: string)
    requires Alone(l) && l.key.Some? && ValidValue(v) && ReadsBack(l.raw, v)
    ensures EndsWithLf(Rebuild(l.raw, v)) <==> EndsWithLf(l.raw)
    ensures EndsWithCr(Rebuild(l.raw, v)) <==> EndsWithCr(l.raw) && !CrInValue(l.raw)
  {
    KeptOnOneLine(l);
    UpdatedAlone(l, v);
    EndOfCut(l.raw);
    KeptCrExactly(l.raw);
  }
}
