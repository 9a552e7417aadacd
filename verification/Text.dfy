/**
 * The string operations the `.env` rewriter is built on. A file is its decoded text: one character
 * type, with the line ends of `bytes.splitlines` (LF, CR, CRLF).
 */
module Text {

  predicate IsEol(c: char) { c == '\n' || c == '\r' }

  predicate IsBlank(c: char) { c == ' ' || c == '\t' }

  /** `str.isspace` on the Latin-1 range, and `\s`. */
  predicate IsSpace(c: char) {
    c == ' ' || '\t' <= c <= '\r' || '\U{001C}' <= c <= '\U{001F}' || c == '\U{0085}' || c == '\U{00A0}'
  }

  predicate IsQuote(c: char) { c == '"' || c == '\'' }

  predicate EndsWithLf(s: string) { s != "" && s[|s| - 1] == '\n' }

  predicate NoEol(s: string) { forall c :: c in s ==> !IsEol(c) }

  /** Index of the first `c`, or the length. */
  function Find(s: string, c: char): (i: nat)
    ensures i <= |s|
    ensures i < |s| ==> s[i] == c
  {
    if s == "" || s[0] == c then 0 else 1 + Find(s[1..], c)
  }

  lemma {:induction false} FindFirst(s: string, c: char)
    ensures c !in s[..Find(s, c)]
  {
    if s != "" && s[0] != c {
      FindFirst(s[1..], c);
      assert s[..Find(s, c)] == [s[0]] + s[1..][..Find(s[1..], c)];
    }
  }

  lemma FindIn(s: string, c: char)
    ensures c in s <==> Find(s, c) < |s|
  {
    FindFirst(s, c);
    if Find(s, c) == |s| { assert s[..|s|] == s; }
  }

  /** Only what comes before the first `c` decides where it is. */
  lemma {:induction false} FindPrefix(h: string, c: char, r: string)
    requires c !in h
    ensures Find(h + [c] + r, c) == |h|
    decreases |h|
  {
    if h != "" {
      assert h[0] in h;
      assert (h + [c] + r)[1..] == h[1..] + [c] + r;
      FindPrefix(h[1..], c, r);
    }
  }

  /** `s.lstrip()`. */
  function LStrip(s: string): (r: string)
    ensures |r| <= |s|
    ensures r != "" ==> !IsSpace(r[0])
  {
    if s != "" && IsSpace(s[0]) then LStrip(s[1..]) else s
  }

  lemma {:induction false} LStripMembers(s: string)
    ensures forall c :: c in LStrip(s) ==> c in s
  {
    if s != "" && IsSpace(s[0]) { LStripMembers(s[1..]); }
  }

  /** `s.lstrip(" \t")`. */
  function DropBlanks(s: string): (r: string)
    ensures |r| <= |s|
    ensures r != "" ==> !IsBlank(r[0])
  {
    if s != "" && IsBlank(s[0]) then DropBlanks(s[1..]) else s
  }

  /** How many blanks are at the front. */
  function Lead(s: string): (n: nat)
    ensures n <= |s|
  {
    |s| - |DropBlanks(s)|
  }

  predicate AllBlank(s: string) { forall c :: c in s ==> IsBlank(c) }

  lemma {:induction false} DropBlanksSplit(s: string)
    ensures s[Lead(s)..] == DropBlanks(s) && AllBlank(s[..Lead(s)])
  {
    if s != "" && IsBlank(s[0]) {
      DropBlanksSplit(s[1..]);
      assert s[..Lead(s)] == [s[0]] + s[1..][..Lead(s[1..])];
    }
  }

  lemma {:induction false} LeadOf(blanks: string, r: string)
    requires AllBlank(blanks)
    requires r != "" ==> !IsBlank(r[0])
    ensures DropBlanks(blanks + r) == r && Lead(blanks + r) == |blanks|
    decreases |blanks|
  {
    if blanks == "" {
      assert blanks + r == r;
    } else {
      assert blanks[0] in blanks;
      assert (blanks + r)[1..] == blanks[1..] + r;
      LeadOf(blanks[1..], r);
    }
  }

  /** `s.rstrip(" \t")`. */
  function RTrimBlanks(s: string): (r: string)
    ensures |r| <= |s|
  {
    if s != "" && IsBlank(s[|s| - 1]) then RTrimBlanks(s[..|s| - 1]) else s
  }

  /** `s.rstrip("\r\n")`. */
  function RTrimEol(s: string): (r: string)
    ensures |r| <= |s|
  {
    if s != "" && IsEol(s[|s| - 1]) then RTrimEol(s[..|s| - 1]) else s
  }

  predicate AllEol(s: string) { forall c :: c in s ==> IsEol(c) }

  lemma {:induction false} RTrimEolSplit(s: string)
    ensures s[..|RTrimEol(s)|] == RTrimEol(s) && AllEol(s[|RTrimEol(s)|..])
    ensures RTrimEol(s) != "" ==> !IsEol(RTrimEol(s)[|RTrimEol(s)| - 1])
  {
    if s != "" && IsEol(s[|s| - 1]) {
      RTrimEolSplit(s[..|s| - 1]);
      var n := |RTrimEol(s)|;
      assert s[n..] == s[..|s| - 1][n..] + [s[|s| - 1]];
      assert s[..n] == s[..|s| - 1][..n];
    } else {
      assert s[..|s|] == s && s[|s|..] == "";
    }
  }

  // ----- Physical lines ------------------------------------------------------------------------

  /** Length of the first line, its line end included. */
  function LineEnd(s: string): (n: nat)
    requires s != ""
    ensures 1 <= n <= |s|
  {
    if s[0] == '\n' then 1
    else if s[0] == '\r' then if |s| > 1 && s[1] == '\n' then 2 else 1
    else if |s| == 1 then 1
    else 1 + LineEnd(s[1..])
  }

  /** `buf.splitlines(keepends=True)`. */
  function SplitLines(s: string): seq<string>
    decreases |s|
  {
    if s == "" then [] else [s[..LineEnd(s)]] + SplitLines(s[LineEnd(s)..])
  }

  function Concat(ps: seq<string>): string {
    if ps == [] then "" else ps[0] + Concat(ps[1..])
  }

  /** A single physical line. */
  predicate IsLine(p: string) { p != "" && LineEnd(p) == |p| }

  lemma {:induction false} ConcatAppend(ps: seq<string>, qs: seq<string>)
    ensures Concat(ps + qs) == Concat(ps) + Concat(qs)
    decreases |ps|
  {
    if ps == [] {
      assert ps + qs == qs;
    } else {
      ConcatAppend(ps[1..], qs);
      assert (ps + qs)[1..] == ps[1..] + qs;
    }
  }

  /** No byte is lost by splitting. */
  lemma {:induction false} SplitLinesLossless(s: string)
    ensures Concat(SplitLines(s)) == s
    decreases |s|
  {
    if s != "" {
      SplitLinesLossless(s[LineEnd(s)..]);
      assert s == s[..LineEnd(s)] + s[LineEnd(s)..];
    }
  }

  predicate EndsWithCr(s: string) { s != "" && s[|s| - 1] == '\r' }

  /** `a` ends with a line end that does not go on in `b`. */
  predicate Apart(a: string, b: string) {
    EndsWithLf(a) || (EndsWithCr(a) && (b == "" || b[0] != '\n'))
  }

  lemma {:induction false} LineEndInside(s: string, r: string)
    requires s != "" && (LineEnd(s) < |s| || Apart(s, r))
    ensures LineEnd(s + r) == LineEnd(s)
    decreases |s|
  {
    if IsEol(s[0]) || |s| == 1 {
    } else {
      assert (s + r)[1..] == s[1..] + r;
      LineEndInside(s[1..], r);
    }
  }

  /** A text that ends with a line end can be split on its own. */
  lemma {:induction false} SplitLinesJoin(a: string, b: string)
    requires a == "" || Apart(a, b)
    ensures SplitLines(a + b) == SplitLines(a) + SplitLines(b)
    decreases |a|
  {
    if a == "" {
      assert a + b == b;
    } else {
      var n := LineEnd(a);
      LineEndInside(a, b);
      assert (a + b)[..n] == a[..n] && (a + b)[n..] == a[n..] + b;
      assert a[n..] != "" ==> a[n..][|a[n..]| - 1] == a[|a| - 1];
      SplitLinesJoin(a[n..], b);
      calc {
        SplitLines(a + b);
        [a[..n]] + SplitLines(a[n..] + b);
        [a[..n]] + (SplitLines(a[n..]) + SplitLines(b));
        ([a[..n]] + SplitLines(a[n..])) + SplitLines(b);
      }
    }
  }

  lemma {:induction false} LineIsOneLine(p: string)
    requires IsLine(p)
    ensures SplitLines(p) == [p]
  {
    assert p[|p|..] == "" && p[..|p|] == p;
    assert SplitLines(p) == [p[..|p|]] + SplitLines("");
  }

  lemma {:induction false} FirstLineIsLine(s: string)
    requires s != ""
    ensures IsLine(s[..LineEnd(s)])
    decreases |s|
  {
    if !IsEol(s[0]) && |s| > 1 {
      FirstLineIsLine(s[1..]);
      assert s[..LineEnd(s)][1..] == s[1..][..LineEnd(s) - 1];
    }
  }

  /** A text without line ends, followed by one line end or none, is one physical line. */
  lemma {:induction false} PlainLine(body: string, eol: string)
    requires NoEol(body) && eol in {"", "\n", "\r\n", "\r"} && body + eol != ""
    ensures IsLine(body + eol)
    decreases |body|
  {
    if body != "" && |body + eol| > 1 {
      assert body[0] in body;
      assert (body + eol)[1..] == body[1..] + eol;
      PlainLine(body[1..], eol);
    } else if body != "" {
      assert body[0] in body;
      assert body + eol == body;
    } else {
      assert body + eol == eol;
    }
  }

  /** A physical line is text without line ends, followed by one line end or none. */
  lemma {:induction false} LineShape(p: string) returns (body: string, eol: string)
    requires IsLine(p)
    ensures p == body + eol && NoEol(body) && eol in {"", "\n", "\r\n", "\r"}
    decreases |p|
  {
    if p[0] == '\n' {
      return "", "\n";
    } else if p[0] == '\r' {
      if |p| > 1 { return "", "\r\n"; }
      return "", "\r";
    } else if |p| == 1 {
      return p, "";
    } else {
      var b, e := LineShape(p[1..]);
      body, eol := [p[0]] + b, e;
    }
  }

  predicate PieceOk(ps: seq<string>, i: nat)
    requires i < |ps|
  {
    IsLine(ps[i]) && (i + 1 < |ps| ==> Apart(ps[i], ps[i + 1]))
  }

  /** Consecutive physical lines of some text. */
  predicate PhysicalLines(ps: seq<string>) {
    forall i :: 0 <= i < |ps| ==> PieceOk(ps, i)
  }

  lemma {:induction false} LineEndAfter(s: string)
    requires s != ""
    ensures LineEnd(s) < |s| ==> Apart(s[..LineEnd(s)], s[LineEnd(s)..])
    decreases |s|
  {
    if !IsEol(s[0]) && |s| > 1 {
      LineEndAfter(s[1..]);
      var n := LineEnd(s[1..]);
      if n < |s| - 1 { assert s[..n + 1][n] == s[1..][..n][n - 1] && s[n + 1..] == s[1..][n..]; }
    }
  }

  lemma {:induction false} SplitGivesPieces(s: string)
    ensures PhysicalLines(SplitLines(s))
    decreases |s|
  {
    if s != "" {
      var n := LineEnd(s);
      FirstLineIsLine(s);
      LineEndAfter(s);
      var rest := s[n..];
      SplitGivesPieces(rest);
      var ps, qs := SplitLines(s), SplitLines(rest);
      assert ps == [s[..n]] + qs;
      assert rest != "" ==> qs[0] == rest[..LineEnd(rest)] && qs[0][0] == rest[0];
      forall i | 0 <= i < |ps| ensures PieceOk(ps, i) {
        if i > 0 { assert PieceOk(qs, i - 1); }
      }
    }
  }

  lemma FirstOfConcat(ps: seq<string>)
    requires ps != [] && ps[0] != ""
    ensures Concat(ps) != "" && Concat(ps)[0] == ps[0][0]
  {
  }

  /** Such lines, put together, are split into exactly themselves. */
  lemma {:induction false} PiecesSplitBack(ps: seq<string>)
    requires PhysicalLines(ps)
    ensures SplitLines(Concat(ps)) == ps
    decreases |ps|
  {
    if ps != [] {
      assert PieceOk(ps, 0);
      LineIsOneLine(ps[0]);
      forall i | 0 <= i < |ps[1..]| ensures PieceOk(ps[1..], i) { assert PieceOk(ps, i + 1); }
      PiecesSplitBack(ps[1..]);
      if |ps| == 1 {
        assert Concat(ps) == ps[0];
      } else {
        assert PieceOk(ps, 1);
        FirstOfConcat(ps[1..]);
        SplitLinesJoin(ps[0], Concat(ps[1..]));
        assert ps == [ps[0]] + ps[1..];
      }
    }
  }

  // ----- Texts whose only line ends are LF and CRLF ------------------------------------------------

  /** Every CR is followed by LF. */
  predicate NoLoneCr(s: string) {
    forall i :: 0 <= i < |s| && s[i] == '\r' ==> i + 1 < |s| && s[i + 1] == '\n'
  }
}
