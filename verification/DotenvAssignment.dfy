/**
 * The value span of a `KEY=VALUE` line in `src/worthless/cli/dotenv_rewriter.py`: the second quote
 * scanner, its agreement with the first, and exactly when a replaced value can be read back.
 */
module DotenvAssignment {
  import opened Common
  import opened Text
  import opened DotenvLines

  /** *value* is what an update replaces; *head* and *tail* are what it keeps. */
  datatype Parts = Parts(head: string, value: string, tail: string)

  /** The line end `_split_assignment` recognises: CRLF, LF, or none (a lone CR is none). */
  function EolSuffix(s: string): (eol: string)
    ensures |eol| <= |s|
  {
    if |s| >= 2 && s[|s| - 2..] == "\r\n" then "\r\n"
    else if EndsWithLf(s) then "\n"
    else ""
  }

  function BodyOf(s: string): string { s[..|s| - |EolSuffix(s)|] }

  /** The first `#` from `i` on that a blank precedes, or the length. */
  function HashAfterBlank(s: string, i: nat): (k: nat)
    requires i <= |s|
    ensures i <= k <= |s|
    decreases |s| - i
  {
    if i == |s| then i
    else if s[i] == '#' && i > 0 && IsBlank(s[i - 1]) then i
    else HashAfterBlank(s, i + 1)
  }

  /** Back over the blanks before `j`, but never past the first character. */
  function BackOverBlanks(s: string, j: nat): (k: nat)
    requires j <= |s|
    ensures k <= j
    decreases j
  {
    if j > 0 && IsBlank(s[j - 1]) then BackOverBlanks(s, j - 1) else j
  }

  /** Where the inline comment of an unquoted value starts, or the length. */
  function CommentStart(s: string): (k: nat)
    ensures k <= |s|
  {
    var h := HashAfterBlank(s, 0);
    if h == |s| then h else BackOverBlanks(s, h - 1)
  }

  predicate QuotedBody(body: string) { body != "" && IsQuote(body[0]) }

  /** `_split_assignment`, from the stripped body on. */
  function SplitBody(head: string, body: string, eol: string): Parts {
    if body == "" then Parts(head, "", eol)
    else if IsQuote(body[0]) then
      var k := Scan(body, 1, body[0]);
      if k < |body| then Parts(head + [body[0]], body[1..k], body[k..] + eol)
      else Parts(head + [body[0]], body[1..], [body[0]] + eol)
    else
      var c := CommentStart(body);
      Parts(head, body[..c], body[c..] + eol)
  }

  /** An assignment cut at the first `=`, after the blanks that follow it, and before its line end. */
  datatype Pieces = Pieces(prefix: string, blanks: string, body: string, eol: string)

  function Cut(raw: string): Pieces
    requires Find(raw, '=') < |raw|
  {
    var body := BodyOf(Rest(raw));
    Pieces(raw[..Find(raw, '=') + 1], body[..Lead(body)], DropBlanks(body), EolSuffix(Rest(raw)))
  }

  function Print(p: Pieces): string { p.prefix + p.blanks + p.body + p.eol }

  function SplitPieces(p: Pieces): Parts { SplitBody(p.prefix + p.blanks, p.body, p.eol) }

  /** `_split_assignment`. */
  function SplitAssignment(raw: string): Parts {
    if Find(raw, '=') == |raw| then Parts(raw, "", "") else SplitPieces(Cut(raw))
  }

  function Join(p: Parts): string { p.head + p.value + p.tail }

  /** `_rebuild_assignment_preserving_format`. */
  function Rebuild(raw: string, value: string): string {
    Join(SplitAssignment(raw).(value := value))
  }

  // ----- The two scanners ----------------------------------------------------------------------

  lemma {:induction false} ScanPastEol(s: string, i: nat, q: char)
    requires i <= |s| && AllEol(s[i..]) && IsQuote(q)
    ensures Scan(s, i, q) == |s|
    decreases |s| - i
  {
    if i < |s| {
      assert s[i] in s[i..];
      assert s[i + 1..] == s[i..][1..];
      ScanPastEol(s, i + 1, q);
    }
  }

  /** Line ends after a value never change whether, or where, its quote closes. */
  lemma {:induction false} ScanEolTail(s: string, w: string, i: nat, q: char)
    requires i <= |s| && AllEol(w) && IsQuote(q)
    ensures Scan(s, i, q) < |s| ==> Scan(s + w, i, q) == Scan(s, i, q)
    ensures Scan(s, i, q) == |s| ==> Scan(s + w, i, q) == |s + w|
    decreases |s| - i
  {
    if i == |s| {
      assert (s + w)[i..] == w;
      ScanPastEol(s + w, i, q);
    } else if s[i] == '\\' && i + 1 < |s| {
      ScanEolTail(s, w, i + 2, q);
    } else if s[i] == '\\' && w != "" {
      assert (s + w)[i + 2..] == w[1..];
      ScanPastEol(s + w, i + 2, q);
    } else if s[i] != q {
      ScanEolTail(s, w, i + 1, q);
    }
  }

  /** Where no quote closes, none closes earlier once more text follows. */
  lemma {:induction false} ScanExtend(s: string, t: string, i: nat, q: char)
    requires i <= |s| && Scan(s, i, q) == |s| && q != '\\'
    ensures Scan(s + t, i, q) >= |s|
    decreases |s| - i
  {
    if i < |s| {
      if s[i] == '\\' && i + 1 < |s| {
        ScanExtend(s, t, i + 2, q);
      } else {
        ScanExtend(s, t, i + 1, q);
      }
    }
  }

  lemma {:induction false} DropBlanksAppend(a: string, w: string)
    ensures DropBlanks(a) != "" ==> DropBlanks(a + w) == DropBlanks(a) + w
    ensures DropBlanks(a) == "" ==> DropBlanks(a + w) == DropBlanks(w)
    decreases |a|
  {
    if a == "" {
      assert a + w == w;
    } else {
      assert (a + w)[1..] == a[1..] + w;
      if IsBlank(a[0]) { DropBlanksAppend(a[1..], w); }
    }
  }

  /** What both scanners look at, and the line ends that only one of them sees. */
  lemma BodyIsTrimmedPlusEols(rest: string)
    ensures var v := RTrimEol(rest);
            |v| <= |BodyOf(rest)| && BodyOf(rest) == v + BodyOf(rest)[|v|..] && AllEol(BodyOf(rest)[|v|..])
  {
    RTrimEolSplit(rest);
    var v, body, eol := RTrimEol(rest), BodyOf(rest), EolSuffix(rest);
    if v != "" && eol != "" {
      assert rest[|v| - 1] == v[|v| - 1];
      assert eol == "\r\n" ==> rest[|rest| - 2] == '\r' && rest[|rest| - 1] == '\n';
    }
    assert |v| <= |body|;
    assert body[..|v|] == rest[..|v|] == v;
    forall c | c in body[|v|..] ensures IsEol(c) {
      assert c in rest[|v|..];
    }
  }

  lemma DropBlanksOfEols(w: string)
    requires AllEol(w)
    ensures DropBlanks(w) == w && (w != "" ==> !IsQuote(w[0]))
  {
    assert w != "" ==> w[0] in w;
  }

  /** One scanner stops at the last character that is no line end, the other at the last line end: no matter. */
  lemma ScannersAgreeOnBody(v: string, w: string)
    requires AllEol(w)
    ensures OpenQuote(DropBlanks(v + w)) == OpenQuote(DropBlanks(v))
  {
    DropBlanksAppend(v, w);
    DropBlanksOfEols(w);
    var s := DropBlanks(v);
    if s != "" && IsQuote(s[0]) {
      ScanEolTail(s, w, 1, s[0]);
    }
  }

  lemma CutAt(s: string, i: nat)
    requires i <= |s|
    ensures s == s[..i] + s[i..]
  {
  }

  lemma Associate(a: string, b: string, c: string)
    ensures (a + b) + c == a + (b + c)
  {
  }

  lemma Regroup(a: string, b: string, c: string, d: string)
    ensures a + ((b + c) + d) == a + b + c + d
  {
  }

  lemma Spread(a: string, b: string, c: string, d: string, e: string)
    ensures (a + b) + c + (d + e) == a + ((b + c) + d) + e
  {
  }

  lemma SplitBodyLossless(head: string, body: string, eol: string)
    ensures Join(SplitBody(head, body, eol)) == head + body + eol <==> OpenQuote(body).None?
  {
    if QuotedBody(body) {
      var k := Scan(body, 1, body[0]);
      if k < |body| {
        CutAt(body, k);
        assert body[..k] == [body[0]] + body[1..k];
        Spread(head, [body[0]], body[1..k], body[k..], eol);
      } else {
        assert |Join(SplitBody(head, body, eol))| == |head + body + eol| + 1;
      }
    } else if body != "" {
      var c := CommentStart(body);
      CutAt(body, c);
      Regroup(head, body[..c], body[c..], eol);
      Associate(head + body[..c], body[c..], eol);
      Associate(head, body, eol);
    }
  }

  lemma EolSuffixSplit(s: string)
    ensures s == BodyOf(s) + EolSuffix(s)
  {
    var n := |s| - |EolSuffix(s)|;
    assert s == s[..n] + s[n..];
    if EolSuffix(s) == "\n" { assert s[n..] == [s[|s| - 1]]; }
  }

  /** `y` is not cut differently when `eol` follows it. */
  predicate EndOk(y: string, eol: string) {
    && eol in {"", "\n", "\r\n"}
    && (eol == "" ==> !EndsWithLf(y))
    && (eol == "\n" ==> y == "" || y[|y| - 1] != '\r')
  }

  lemma EndOkCuts(y: string, eol: string)
    requires EndOk(y, eol)
    ensures BodyOf(y + eol) == y && EolSuffix(y + eol) == eol
  {
    var s := y + eol;
    if eol == "\n" && |s| >= 2 {
      assert s[|s| - 2..] == [y[|y| - 1], '\n'];
    } else if eol == "\r\n" {
      assert s[|s| - 2..] == eol;
    } else if eol == "" {
      assert s == y;
      assert |s| >= 2 ==> s[|s| - 2..][1] == s[|s| - 1];
    }
  }

  lemma EndOkOfRest(rest: string)
    ensures EndOk(BodyOf(rest), EolSuffix(rest))
  {
    EolSuffixSplit(rest);
    var body := BodyOf(rest);
    if EolSuffix(rest) == "\n" && body != "" {
      assert rest[|rest| - 2..] == [body[|body| - 1], '\n'];
    }
  }

  /** Ends with its only `=`. */
  predicate PrefixOk(h: string) {
    h != "" && h[|h| - 1] == '=' && '=' !in h[..|h| - 1]
  }

  /** Pieces that, printed, are cut into themselves. */
  predicate WellCut(p: Pieces) {
    && PrefixOk(p.prefix)
    && AllBlank(p.blanks) && (p.body != "" ==> !IsBlank(p.body[0]))
    && EndOk(p.blanks + p.body, p.eol)
  }

  lemma PrefixOfCut(raw: string)
    requires Find(raw, '=') < |raw|
    ensures PrefixOk(raw[..Find(raw, '=') + 1])
  {
    FindFirst(raw, '=');
    assert raw[..Find(raw, '=') + 1][..Find(raw, '=')] == raw[..Find(raw, '=')];
  }

  lemma BodyOfCut(body: string)
    ensures body[..Lead(body)] + DropBlanks(body) == body && AllBlank(body[..Lead(body)])
  {
    DropBlanksSplit(body);
    assert body == body[..Lead(body)] + body[Lead(body)..];
  }

  lemma CutWell(raw: string)
    requires Find(raw, '=') < |raw|
    ensures WellCut(Cut(raw))
  {
    PrefixOfCut(raw);
    BodyOfCut(BodyOf(Rest(raw)));
    EndOkOfRest(Rest(raw));
  }

  lemma CutParts(raw: string)
    requires Find(raw, '=') < |raw|
    ensures var p := Cut(raw); raw == p.prefix + ((p.blanks + p.body) + p.eol)
  {
    BodyOfCut(BodyOf(Rest(raw)));
    EolSuffixSplit(Rest(raw));
    CutAt(raw, Find(raw, '=') + 1);
  }

  lemma PrintOfCut(raw: string)
    requires Find(raw, '=') < |raw|
    ensures Print(Cut(raw)) == raw && WellCut(Cut(raw))
  {
    CutWell(raw);
    CutParts(raw);
    var p := Cut(raw);
    Regroup(p.prefix, p.blanks, p.body, p.eol);
  }

  lemma PrintedHead(p: Pieces, tail: string)
    requires WellCut(p)
    ensures Find(p.prefix + tail, '=') == |p.prefix| - 1
  {
    var h := p.prefix[..|p.prefix| - 1];
    assert p.prefix + tail == h + ['='] + tail;
    FindPrefix(h, '=', tail);
  }

  lemma CutOfPrint(p: Pieces)
    requires WellCut(p)
    ensures Find(Print(p), '=') < |Print(p)| && Cut(Print(p)) == p
  {
    var tail := p.blanks + p.body + p.eol;
    var raw := Print(p);
    assert raw == p.prefix + tail;
    PrintedHead(p, tail);
    assert Rest(raw) == tail && raw[..|p.prefix|] == p.prefix;
    EndOkCuts(p.blanks + p.body, p.eol);
    LeadOf(p.blanks, p.body);
    assert (p.blanks + p.body)[..|p.blanks|] == p.blanks;
  }

  /** One scanner reads the trimmed text, the other the body: they see the same quotes. */
  lemma SameOpenQuote(raw: string)
    requires Find(raw, '=') < |raw|
    ensures OpensUnclosedQuote(raw) == OpenQuote(Cut(raw).body)
  {
    var rest := Rest(raw);
    BodyIsTrimmedPlusEols(rest);
    ScannersAgreeOnBody(RTrimEol(rest), BodyOf(rest)[|RTrimEol(rest)|..]);
  }

  /**
   * The two quote scanners agree on every assignment: `_split_assignment` cuts the line without
   * inventing a closing quote exactly when `_value_opens_unclosed_quote` reports the value closed.
   */
  lemma ScannersAgree(raw: string)
    requires '=' in raw
    ensures Join(SplitAssignment(raw)) == raw <==> Closed(raw)
  {
    FindIn(raw, '=');
    SameOpenQuote(raw);
    PrintOfCut(raw);
    var p := Cut(raw);
    SplitBodyLossless(p.prefix + p.blanks, p.body, p.eol);
  }

  // ----- Replacing a value ---------------------------------------------------------------------

  /** `_validate_value`: what may be written at all. */
  predicate ValidValue(v: string) {
    && (forall c :: c in v ==> c != '\n' && c != '\r' && c != '\0' && !IsQuote(c))
    && (forall i :: 0 < i < |v| && v[i] == '#' ==> !IsBlank(v[i - 1]))
    && (v != "" ==> !IsSpace(v[0]) && !IsSpace(v[|v| - 1]))
  }

  /** How many backslashes a value ends with. */
  function TrailingBackslashes(v: string): (n: nat)
    ensures n <= |v|
  {
    if v != "" && v[|v| - 1] == '\\' then 1 + TrailingBackslashes(v[..|v| - 1]) else 0
  }

  predicate Quoted(raw: string) { Find(raw, '=') < |raw| && QuotedBody(Cut(raw).body) }

  /** The line has an inline comment after an unquoted value. */
  predicate HasComment(raw: string) {
    Find(raw, '=') < |raw| && |SplitAssignment(raw).tail| > |Cut(raw).eol|
  }

  /**
   * The condition under which a validated value can be read back from the line it was written to:
   * between quotes it must not end in an odd number of backslashes (the last would escape the closing
   * quote), and without quotes it must not be empty in front of an inline comment.
   */
  predicate ReadsBack(raw: string, v: string) {
    if Quoted(raw) then TrailingBackslashes(v) % 2 == 0
    else v != "" || !HasComment(raw)
  }

  /** No escape is pending after scanning `v`. */
  predicate Settled(v: string)
    decreases |v|
  {
    v == "" || (if v[0] == '\\' then |v| > 1 && Settled(v[2..]) else Settled(v[1..]))
  }

  lemma {:induction false} TrailingAfterFirst(c: char, w: string)
    ensures TrailingBackslashes([c] + w) ==
            if c == '\\' && TrailingBackslashes(w) == |w| then |w| + 1 else TrailingBackslashes(w)
    decreases |w|
  {
    if w == "" {
      assert [c] + w == [c];
      assert [c][..0] == "";
    } else {
      var s := [c] + w;
      assert s[..|s| - 1] == [c] + w[..|w| - 1];
      if w[|w| - 1] == '\\' { TrailingAfterFirst(c, w[..|w| - 1]); }
    }
  }

  lemma TrailingFromFront(v: string)
    requires v != ""
    ensures TrailingBackslashes(v) ==
            if v[0] == '\\' && TrailingBackslashes(v[1..]) == |v| - 1 then |v| else TrailingBackslashes(v[1..])
  {
    TrailingAfterFirst(v[0], v[1..]);
    assert v == [v[0]] + v[1..];
  }

  /** Scanning pairs of backslashes from the front amounts to counting them at the end. */
  lemma {:induction false} SettledIffEven(v: string)
    ensures Settled(v) <==> TrailingBackslashes(v) % 2 == 0
    decreases |v|
  {
    if v != "" {
      TrailingFromFront(v);
      if v[0] != '\\' {
        SettledIffEven(v[1..]);
      } else if |v| > 1 {
        TrailingFromFront(v[1..]);
        assert v[1..][1..] == v[2..];
        SettledIffEven(v[2..]);
      } else {
        assert v[1..] == "";
      }
    }
  }

  /** A value without quotes is scanned through; the quote after it closes iff no escape is pending. */
  lemma {:induction false} ScanThroughValue(pre: string, v: string, t: string, q: char)
    requires (forall c :: c in v ==> c != q) && q != '\\' && t != "" && t[0] == q
    ensures Settled(v) ==> Scan(pre + v + t, |pre|, q) == |pre| + |v|
    ensures !Settled(v) ==> Scan(pre + v + t, |pre|, q) > |pre| + |v|
    decreases |v|
  {
    var s := pre + v + t;
    if v == "" {
      assert s[|pre|] == q;
    } else {
      assert s[|pre|] == v[0] && v[0] in v;
      if v[0] != '\\' {
        assert s == (pre + [v[0]]) + v[1..] + t;
        assert forall c :: c in v[1..] ==> c in v;
        ScanThroughValue(pre + [v[0]], v[1..], t, q);
      } else if |v| > 1 {
        assert s == (pre + v[..2]) + v[2..] + t;
        assert forall c :: c in v[2..] ==> c in v;
        ScanThroughValue(pre + v[..2], v[2..], t, q);
      }
    }
  }

  /** What of the value body an update keeps: from the closing quote, or from the comment on. */
  function KeptTail(body: string): string {
    if body == "" then ""
    else if IsQuote(body[0]) then
      var k := Scan(body, 1, body[0]);
      if k < |body| then body[k..] else [body[0]]
    else body[CommentStart(body)..]
  }

  /** The value body after an update. */
  function NewBody(body: string, v: string): string {
    (if QuotedBody(body) then [body[0]] else "") + v + KeptTail(body)
  }

  lemma JoinNewBody(before: string, body: string, eol: string, v: string)
    ensures Join(SplitBody(before, body, eol).(value := v)) == before + NewBody(body, v) + eol
  {
    if QuotedBody(body) {
      var q, t := [body[0]], KeptTail(body);
      assert before + q + v + (t + eol) == before + (q + v + t) + eol;
    } else {
      assert before + v + (KeptTail(body) + eol) == before + ("" + v + KeptTail(body)) + eol;
    }
  }

  /** Between quotes: read back exactly when no escape is pending. */
  lemma QuotedReadsBack(before: string, body: string, eol: string, v: string)
    requires QuotedBody(body) && (forall c :: c in v ==> !IsQuote(c))
    ensures SplitBody(before, NewBody(body, v), eol) == SplitBody(before, body, eol).(value := v) <==> Settled(v)
  {
    var q, tb := body[0], KeptTail(body);
    var x := [q] + v + tb;
    assert tb[0] == q;
    ScanThroughValue([q], v, tb, q);
    var k' := Scan(x, 1, q);
    if Settled(v) {
      assert x[1..k'] == v && x[k'..] == tb;
    } else {
      assert |SplitBody(before, x, eol).value| > |v|;
    }
  }

  // ----- ... without quotes --------------------------------------------------------------------

  /** One or more blanks, then `#`. */
  predicate CommentTail(t: string) {
    var n := Lead(t);
    0 < n < |t| && t[n] == '#'
  }

  lemma {:induction false} HashIsAfterBlank(s: string, i: nat)
    requires i <= |s|
    ensures var h := HashAfterBlank(s, i);
            h < |s| ==> s[h] == '#' && h > 0 && IsBlank(s[h - 1])
    decreases |s| - i
  {
    if i < |s| && !(s[i] == '#' && i > 0 && IsBlank(s[i - 1])) { HashIsAfterBlank(s, i + 1); }
  }

  lemma {:induction false} BlanksBehind(s: string, j: nat)
    requires j <= |s|
    ensures var k := BackOverBlanks(s, j);
            AllBlank(s[k..j]) && (k > 0 ==> !IsBlank(s[k - 1]))
    decreases j
  {
    var k := BackOverBlanks(s, j);
    if j > 0 && IsBlank(s[j - 1]) {
      BlanksBehind(s, j - 1);
      assert s[k..j] == s[k..j - 1] + [s[j - 1]];
    }
  }

  lemma CommentStartShape(s: string)
    requires s != "" ==> !IsBlank(s[0])
    ensures var c := CommentStart(s);
            c == |s| || (0 < c && CommentTail(s[c..]))
  {
    var h := HashAfterBlank(s, 0);
    if h < |s| {
      HashIsAfterBlank(s, 0);
      var c := BackOverBlanks(s, h - 1);
      BlanksBehind(s, h - 1);
      assert s[c..] == (s[c..h - 1] + [s[h - 1]]) + s[h..];
      LeadOf(s[c..h - 1] + [s[h - 1]], s[h..]);
      assert s[c] == (s[c..h - 1] + [s[h - 1]])[0];
    }
  }

  lemma {:induction false} HashAt(s: string, i: nat, h: nat)
    requires i <= h < |s| && s[h] == '#' && h > 0 && IsBlank(s[h - 1])
    requires forall j :: i <= j < h ==> s[j] != '#' || j == 0 || !IsBlank(s[j - 1])
    ensures HashAfterBlank(s, i) == h
    decreases h - i
  {
    if i < h { HashAt(s, i + 1, h); }
  }

  lemma {:induction false} NoHashAtAll(s: string, i: nat)
    requires i <= |s|
    requires forall j :: 0 < j < |s| && s[j] == '#' ==> !IsBlank(s[j - 1])
    ensures HashAfterBlank(s, i) == |s|
    decreases |s| - i
  {
    if i < |s| { NoHashAtAll(s, i + 1); }
  }

  lemma {:induction false} BackTo(s: string, c: nat, j: nat)
    requires c <= j <= |s| && AllBlank(s[c..j]) && c > 0 && !IsBlank(s[c - 1])
    ensures BackOverBlanks(s, j) == c
    decreases j
  {
    if j > c {
      var w := s[c..j];
      assert s[j - 1] == w[j - 1 - c] && w[j - 1 - c] in w;
      forall x | x in s[c..j - 1] ensures IsBlank(x) { assert x in w; }
      BackTo(s, c, j - 1);
    }
  }

  /** The comment that follows a written value starts right behind it. */
  lemma CommentAfterValue(v: string, tb: string)
    requires ValidValue(v) && v != "" && (tb == "" || CommentTail(tb))
    ensures CommentStart(v + tb) == |v|
  {
    var s := v + tb;
    if tb == "" {
      assert s == v;
      NoHashAtAll(v, 0);
    } else {
      var n := Lead(tb);
      DropBlanksSplit(tb);
      assert tb[n - 1] == tb[..n][n - 1] && tb[n - 1] in tb[..n];
      assert s[|v| + n] == tb[n] && s[|v| + n - 1] == tb[n - 1];
      forall j | 0 <= j < |v| + n ensures s[j] != '#' || j == 0 || !IsBlank(s[j - 1]) {
        if j >= |v| { assert s[j] == tb[..n][j - |v|] && s[j] in tb[..n]; }
      }
      HashAt(s, 0, |v| + n);
      assert s[|v|..|v| + n - 1] == tb[..n - 1] && tb[..n - 1] == tb[..n][..n - 1];
      assert !IsBlank(v[|v| - 1]);
      BackTo(s, |v|, |v| + n - 1);
    }
  }

  lemma PlainKeptTail(body: string)
    requires !QuotedBody(body) && (body != "" ==> !IsBlank(body[0]))
    ensures KeptTail(body) == "" || CommentTail(KeptTail(body))
  {
    if body != "" { CommentStartShape(body); }
  }

  lemma PlainParts(before: string, body: string, eol: string)
    requires !QuotedBody(body)
    ensures SplitBody(before, body, eol).head == before && SplitBody(before, body, eol).tail == KeptTail(body) + eol
  {
  }

  lemma PlainSplit(before: string, v: string, tb: string, eol: string)
    requires ValidValue(v) && v != "" && (tb == "" || CommentTail(tb))
    ensures SplitBody(before, v + tb, eol) == Parts(before, v, tb + eol)
  {
    var x := v + tb;
    CommentAfterValue(v, tb);
    assert x[0] == v[0] && v[0] in v;
    assert x[..|v|] == v && x[|v|..] == tb;
  }

  lemma PlainReadsBack(before: string, body: string, eol: string, v: string)
    requires !QuotedBody(body) && (body != "" ==> !IsBlank(body[0])) && ValidValue(v) && v != ""
    ensures SplitBody(before, NewBody(body, v), eol) == SplitBody(before, body, eol).(value := v)
  {
    PlainKeptTail(body);
    PlainParts(before, body, eol);
    PlainSplit(before, v, KeptTail(body), eol);
    assert NewBody(body, v) == v + KeptTail(body);
  }

  /** The pieces of an updated line. */
  function NewPieces(p: Pieces, v: string): Pieces { p.(body := NewBody(p.body, v)) }

  lemma RebuildPrints(raw: string, v: string)
    requires Find(raw, '=') < |raw|
    ensures Rebuild(raw, v) == Print(NewPieces(Cut(raw), v))
  {
    var p := Cut(raw);
    JoinNewBody(p.prefix + p.blanks, p.body, p.eol, v);
  }

  /** Whether a line end may follow a text depends on the text's last character only. */
  lemma EndOkLast(y: string, before: string, t: string, eol: string)
    requires EndOk(y, eol) && t != ""
    requires (y != "" && t[|t| - 1] == y[|y| - 1]) || !IsEol(t[|t| - 1])
    ensures EndOk(before + t, eol)
  {
    assert (before + t)[|before + t| - 1] == t[|t| - 1];
  }

  lemma KeptTailLast(body: string)
    requires KeptTail(body) != ""
    ensures var t := KeptTail(body); body != "" && (t[|t| - 1] == body[|body| - 1] || IsQuote(t[|t| - 1]))
  {
    if QuotedBody(body) && Scan(body, 1, body[0]) < |body| {
      assert KeptTail(body) == body[Scan(body, 1, body[0])..];
    }
  }

  lemma TailEnds(p: Pieces, a: string)
    requires EndOk(p.blanks + p.body, p.eol) && KeptTail(p.body) != ""
    ensures EndOk(p.blanks + (a + KeptTail(p.body)), p.eol)
  {
    var tb, y := KeptTail(p.body), p.blanks + p.body;
    KeptTailLast(p.body);
    assert y[|y| - 1] == p.body[|p.body| - 1];
    EndOkLast(y, p.blanks + a, tb, p.eol);
    Associate(p.blanks, a, tb);
  }

  /** The last character of a new line's body is one that may stand before the line end. */
  lemma NewBodyEnds(p: Pieces, v: string)
    requires EndOk(p.blanks + p.body, p.eol) && AllBlank(p.blanks) && ValidValue(v)
    ensures EndOk(p.blanks + NewBody(p.body, v), p.eol)
  {
    if KeptTail(p.body) != "" {
      TailEnds(p, (if QuotedBody(p.body) then [p.body[0]] else "") + v);
    } else if v != "" {
      assert NewBody(p.body, v) == v;
      EndOkLast(p.blanks + p.body, p.blanks, v, p.eol);
    } else {
      assert p.blanks + NewBody(p.body, v) == p.blanks;
      BlanksEnd(p.blanks, p.blanks + p.body, p.eol);
    }
  }

  lemma BlanksEnd(blanks: string, y: string, eol: string)
    requires AllBlank(blanks) && EndOk(y, eol)
    ensures EndOk(blanks, eol)
  {
    if blanks != "" { assert blanks[|blanks| - 1] in blanks; }
  }

  /** An updated line is cut into the same pieces around its new value body. */
  lemma CutRebuilt(raw: string, v: string)
    requires Find(raw, '=') < |raw| && ValidValue(v)
    requires Quoted(raw) || v != "" || KeptTail(Cut(raw).body) == ""
    ensures Find(Rebuild(raw, v), '=') < |Rebuild(raw, v)|
    ensures Cut(Rebuild(raw, v)) == NewPieces(Cut(raw), v)
  {
    PrintOfCut(raw);
    var p := Cut(raw);
    NewBodyEnds(p, v);
    assert !Quoted(raw) && v != "" ==> NewBody(p.body, v)[0] == v[0];
    RebuildPrints(raw, v);
    CutOfPrint(NewPieces(p, v));
  }

  lemma PiecesTail(p: Pieces)
    ensures SplitPieces(p).tail == KeptTail(p.body) + p.eol
  {
    if QuotedBody(p.body) && Scan(p.body, 1, p.body[0]) < |p.body| {
      assert KeptTail(p.body) == p.body[Scan(p.body, 1, p.body[0])..];
    }
  }

  lemma CommentIsKept(raw: string)
    requires Find(raw, '=') < |raw| && !Quoted(raw)
    ensures HasComment(raw) <==> KeptTail(Cut(raw).body) != ""
  {
    var p := Cut(raw);
    PiecesTail(p);
    assert |KeptTail(p.body) + p.eol| == |KeptTail(p.body)| + |p.eol|;
  }

  lemma PiecesHead(p: Pieces)
    ensures SplitPieces(p).head == p.prefix + p.blanks + (if QuotedBody(p.body) then [p.body[0]] else "")
  {
  }

  /** How a line with an emptied value is really cut: the blanks before the comment follow the `=`. */
  function Moved(p: Pieces): Pieces {
    var tb := KeptTail(p.body);
    Pieces(p.prefix, p.blanks + tb[..Lead(tb)], DropBlanks(tb), p.eol)
  }

  lemma BlanksJoin(a: string, b: string)
    requires AllBlank(a) && AllBlank(b)
    ensures AllBlank(a + b)
  {
    forall c | c in a + b ensures IsBlank(c) {
      assert c in a || c in b;
    }
  }

  /** Blanks in front of a comment may as well be counted to the blanks before it. */
  lemma MoveBlanks(p: Pieces, tb: string)
    requires WellCut(p) && CommentTail(tb) && EndOk(p.blanks + tb, p.eol)
    ensures var m := Pieces(p.prefix, p.blanks + tb[..Lead(tb)], DropBlanks(tb), p.eol);
            WellCut(m) && Print(m) == Print(p.(body := tb)) && |m.blanks| > |p.blanks| && !QuotedBody(m.body)
  {
    var l, r := tb[..Lead(tb)], DropBlanks(tb);
    BodyOfCut(tb);
    DropBlanksSplit(tb);
    BlanksJoin(p.blanks, l);
    Associate(p.blanks, l, r);
    Regroup(p.prefix, p.blanks + l, r, p.eol);
    Regroup(p.prefix, p.blanks, tb, p.eol);
    assert r[0] == tb[Lead(tb)];
  }

  lemma MovedWell(p: Pieces)
    requires WellCut(p) && !QuotedBody(p.body) && KeptTail(p.body) != ""
    ensures WellCut(Moved(p)) && Print(Moved(p)) == Print(NewPieces(p, ""))
    ensures |Moved(p).blanks| > |p.blanks| && !QuotedBody(Moved(p).body)
  {
    var tb := KeptTail(p.body);
    PlainKeptTail(p.body);
    NewBodyEnds(p, "");
    assert NewBody(p.body, "") == tb;
    MoveBlanks(p, tb);
  }

  /** An empty value leaves nothing between `=` and the comment, so the comment becomes the value. */
  lemma CommentSwallowed(raw: string)
    requires Find(raw, '=') < |raw| && !Quoted(raw) && KeptTail(Cut(raw).body) != ""
    ensures SplitAssignment(Rebuild(raw, "")).head != SplitAssignment(raw).head
  {
    PrintOfCut(raw);
    var p := Cut(raw);
    var moved := Moved(p);
    MovedWell(p);
    RebuildPrints(raw, "");
    CutOfPrint(moved);
    PiecesHead(p);
    PiecesHead(moved);
    assert |moved.prefix + moved.blanks| > |p.prefix + p.blanks|;
  }

  lemma QuotedExactly(raw: string, v: string)
    requires Quoted(raw) && ValidValue(v)
    ensures SplitAssignment(Rebuild(raw, v)) == SplitAssignment(raw).(value := v) <==> Settled(v)
  {
    var p := Cut(raw);
    CutRebuilt(raw, v);
    QuotedReadsBack(p.prefix + p.blanks, p.body, p.eol, v);
  }

  lemma PlainValueReadsBack(raw: string, v: string)
    requires Find(raw, '=') < |raw| && !Quoted(raw) && ValidValue(v) && v != ""
    ensures SplitAssignment(Rebuild(raw, v)) == SplitAssignment(raw).(value := v)
  {
    var p := Cut(raw);
    CutRebuilt(raw, v);
    PlainReadsBack(p.prefix + p.blanks, p.body, p.eol, v);
  }

  lemma EmptyValueReadsBack(raw: string)
    requires Find(raw, '=') < |raw| && !Quoted(raw) && KeptTail(Cut(raw).body) == ""
    ensures SplitAssignment(Rebuild(raw, "")) == SplitAssignment(raw).(value := "")
  {
    CutRebuilt(raw, "");
    PrintOfCut(raw);
    assert NewBody(Cut(raw).body, "") == "";
  }

  lemma PlainExactly(raw: string, v: string)
    requires Find(raw, '=') < |raw| && !Quoted(raw) && ValidValue(v)
    ensures SplitAssignment(Rebuild(raw, v)) == SplitAssignment(raw).(value := v)
            <==> v != "" || KeptTail(Cut(raw).body) == ""
  {
    if v != "" {
      PlainValueReadsBack(raw, v);
    } else if KeptTail(Cut(raw).body) == "" {
      EmptyValueReadsBack(raw);
    } else {
      CommentSwallowed(raw);
    }
  }

  /**
   * Writing a validated value into a line and splitting the line again gives the same head and tail
   * with the new value between them, if and only if the value reads back from that line.
   */
  lemma ReadsBackExactly(raw: string, v: string)
    requires '=' in raw && ValidValue(v)
    ensures SplitAssignment(Rebuild(raw, v)) == SplitAssignment(raw).(value := v) <==> ReadsBack(raw, v)
  {
    FindIn(raw, '=');
    if Quoted(raw) {
      QuotedExactly(raw, v);
      SettledIffEven(v);
    } else {
      CommentIsKept(raw);
      PlainExactly(raw, v);
    }
  }

  /** ... and then the new line leaves no quote open. */
  lemma ReadsBackCloses(raw: string, v: string)
    requires '=' in raw && ValidValue(v) && ReadsBack(raw, v)
    ensures '=' in Rebuild(raw, v) && Closed(Rebuild(raw, v))
  {
    ReadsBackExactly(raw, v);
    FindIn(raw, '=');
    var line := Rebuild(raw, v);
    var p := SplitAssignment(raw);
    assert p.head[Find(raw, '=')] == '=';
    assert line[Find(raw, '=')] == '=';
    ScannersAgree(line);
  }

  /** Writing one value over another loses nothing of the first write's line. */
  lemma RebuildTwice(raw: string, v: string, w: string)
    requires '=' in raw && ValidValue(v) && ReadsBack(raw, v)
    ensures Rebuild(Rebuild(raw, v), w) == Rebuild(raw, w)
  {
    ReadsBackExactly(raw, v);
  }

  // ----- The loops ------------------------------------------------------------------------------

  /** The comment loop of `_split_assignment`. */
  method FindComment(body: string) returns (start: nat)
    ensures start == CommentStart(body)
  {
    var i := 0;
    while i < |body|
      invariant i <= |body| && HashAfterBlank(body, 0) == HashAfterBlank(body, i)
    {
      if body[i] == '#' && i > 0 && IsBlank(body[i - 1]) {
        var j := i - 1;
        while j > 0 && IsBlank(body[j - 1])
          invariant j <= i - 1 && BackOverBlanks(body, j) == BackOverBlanks(body, i - 1)
        {
          j := j - 1;
        }
        return j;
      }
      i := i + 1;
    }
    return |body|;
  }

  /** The quote loop of `_split_assignment`. */
  method FindClosingQuote(body: string) returns (i: nat)
    requires QuotedBody(body)
    ensures i == Scan(body, 1, body[0])
  {
    i := 1;
    while i < |body|
      invariant 1 <= i <= |body| && Scan(body, i, body[0]) == Scan(body, 1, body[0])
    {
      if body[i] == '\\' && i + 1 < |body| {
        i := i + 2;
      } else if body[i] == body[0] {
        return;
      } else {
        i := i + 1;
      }
    }
  }

  method CutBody(before: string, stripped: string, eol: string) returns (head: string, value: string, tail: string)
    ensures Parts(head, value, tail) == SplitBody(before, stripped, eol)
  {
    if stripped == "" {
      return before, "", eol;
    } else if IsQuote(stripped[0]) {
      var quote := [stripped[0]];
      var i := FindClosingQuote(stripped);
      if i < |stripped| { return before + quote, stripped[1..i], stripped[i..] + eol; }
      return before + quote, stripped[1..], quote + eol;
    } else {
      var c := FindComment(stripped);
      return before, stripped[..c], stripped[c..] + eol;
    }
  }

  /** `_split_assignment`, as the code computes it. */
  method CutAssignment(raw: string) returns (head: string, value: string, tail: string)
    ensures Parts(head, value, tail) == SplitAssignment(raw)
  {
    if Find(raw, '=') == |raw| { return raw, "", ""; }
    var rest := Rest(raw);
    var eol := EolSuffix(rest);
    var body := rest[..|rest| - |eol|];
    var stripped := DropBlanks(body);
    head, value, tail := CutBody(raw[..Find(raw, '=') + 1] + body[..|body| - |stripped|], stripped, eol);
  }
}
