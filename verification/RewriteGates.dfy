/**
 * The content gates of `src/worthless/cli/safe_rewrite.py`: size, line count, dotenv shape, baseline
 * and blow-up ratio, on the existing and the new content.
 */
module RewriteGates {
  import opened Common
  import opened Text

  type Bytes = string

  datatype Reason =
    | Platform | Basename | Symlink | SpecialFile | Containment | PathIdentity
    | Toctou | Locked | Size | Sniff | Delta | TmpCollision | IoError | Filesystem

  const MAX_BYTES := 1048576
  const MAX_LINES := 500

  function Count(s: Bytes, c: char): (n: nat)
    ensures n <= |s|
  {
    if s == "" then 0 else (if s[|s| - 1] == c then 1 else 0) + Count(s[..|s| - 1], c)
  }

  /** `_line_count`: a last line without LF counts. */
  function LineCount(buf: Bytes): nat {
    if buf == "" then 0
    else if EndsWithLf(buf) then Count(buf, '\n') else Count(buf, '\n') + 1
  }

  /** What `bytes.strip` strips. */
  predicate AsciiSpace(c: char) { c == ' ' || '\t' <= c <= '\r' }

  predicate BlankLine(l: Bytes) { forall c :: c in l ==> AsciiSpace(c) }

  function DataLines(ls: seq<Bytes>): (n: nat)
    ensures n <= |ls|
  {
    if ls == [] then 0 else (if BlankLine(ls[0]) then 0 else 1) + DataLines(ls[1..])
  }

  /** `_data_line_count`. */
  function DataLineCount(buf: Bytes): nat { DataLines(SplitLines(buf)) }

  /** `_check_delta`: a file with one entry may not grow more than four times. */
  predicate BlowsUp(newSize: nat, oldSize: nat, dataLines: nat) {
    0 < oldSize < MAX_BYTES && dataLines <= 1 && oldSize >= 5 && newSize > 4 * oldSize
  }

  /** What the caller asks for; the baseline's hash stands for the baseline itself. */
  datatype Request = Request(
    name: string,
    userName: string,
    content: Bytes,
    baseline: Option<Bytes>,
    skipDelta: bool
  )

  /** `_check_size_sniff_delta`: the first gate that refuses. `sniff` accepts what looks like dotenv. */
  function Verdict(existing: Bytes, oldSize: nat, r: Request, sniff: Bytes -> bool): Option<Reason> {
    if oldSize > MAX_BYTES then Some(Size)
    else if r.baseline.Some? && r.baseline.value != existing then Some(Toctou)
    else if LineCount(existing) > MAX_LINES then Some(Size)
    else if existing != "" && !sniff(existing) then Some(Sniff)
    else if |r.content| > MAX_BYTES then Some(Size)
    else if LineCount(r.content) > MAX_LINES then Some(Size)
    else if r.content != "" && !sniff(r.content) then Some(Sniff)
    else if !r.skipDelta && BlowsUp(|r.content|, oldSize, DataLineCount(existing)) then Some(Delta)
    else None
  }

  const ALLOWED: set<string> := {
    ".env", ".env.local", ".env.development", ".env.development.local", ".env.production",
    ".env.production.local", ".env.test", ".env.staging", ".env.testing"
  }

  // ----- What the counts mean -------------------------------------------------------------------

  lemma {:induction false} CountSplit(a: Bytes, b: Bytes, c: char)
    ensures Count(a + b, c) == Count(a, c) + Count(b, c)
    decreases |b|
  {
    if b == "" {
      assert a + b == a;
    } else {
      assert (a + b)[..|a + b| - 1] == a + b[..|b| - 1];
      CountSplit(a, b[..|b| - 1], c);
    }
  }

  lemma {:induction false} CountNone(s: Bytes, c: char)
    requires c !in s
    ensures Count(s, c) == 0
    decreases |s|
  {
    if s != "" {
      assert s[|s| - 1] in s;
      CountNone(s[..|s| - 1], c);
    }
  }

  lemma LineCountOfLine(p: Bytes, rest: Bytes)
    requires IsLine(p) && NoLoneCr(p) && (rest == "" || EndsWithLf(p))
    ensures LineCount(p + rest) == 1 + LineCount(rest)
  {
    var body, eol := LineShape(p);
    assert eol != "" ==> p[|p| - 1] == eol[|eol| - 1];
    CountNone(body, '\n');
    CountSplit(body, eol, '\n');
    CountSplit(p, rest, '\n');
    if rest == "" {
      assert p + rest == p;
      assert Count("\r", '\n') == 0 by { CountNone("\r", '\n'); }
      assert "\r\n"[..1] == "\r";
    } else {
      assert (p + rest)[|p + rest| - 1] == rest[|rest| - 1];
      assert Count("\r", '\n') == 0 by { CountNone("\r", '\n'); }
      assert "\r\n"[..1] == "\r";
    }
  }

  lemma FirstLineLf(buf: Bytes)
    requires buf != "" && NoLoneCr(buf)
    ensures var p, rest := buf[..LineEnd(buf)], buf[LineEnd(buf)..];
            IsLine(p) && NoLoneCr(p) && NoLoneCr(rest) && (rest == "" || EndsWithLf(p))
  {
    var n := LineEnd(buf);
    FirstLineIsLine(buf);
    LineEndAfter(buf);
    var p, rest := buf[..n], buf[n..];
    assert p[n - 1] == buf[n - 1] && (rest != "" ==> rest[0] == buf[n]);
    assert forall i :: 0 <= i < |p| ==> p[i] == buf[i];
    assert forall i :: 0 <= i < |rest| ==> rest[i] == buf[n + i];
  }

  /** Counting LFs gives the number of physical lines, on a text whose line ends are LF and CRLF. */
  lemma {:induction false} LineCountIsLines(buf: Bytes)
    requires NoLoneCr(buf)
    ensures LineCount(buf) == |SplitLines(buf)|
    decreases |buf|
  {
    if buf != "" {
      var n := LineEnd(buf);
      FirstLineLf(buf);
      LineCountIsLines(buf[n..]);
      LineCountOfLine(buf[..n], buf[n..]);
      assert buf == buf[..n] + buf[n..];
    }
  }

  lemma {:induction false} DataLinesJoin(a: seq<Bytes>, b: seq<Bytes>)
    ensures DataLines(a + b) == DataLines(a) + DataLines(b)
    decreases |a|
  {
    if a == [] {
      assert a + b == b;
    } else {
      assert (a + b)[1..] == a[1..] + b;
      DataLinesJoin(a[1..], b);
    }
  }

  lemma {:induction false} PaddingIsBlank(pad: Bytes)
    requires BlankLine(pad)
    ensures DataLines(SplitLines(pad)) == 0
    decreases |pad|
  {
    if pad != "" {
      var n := LineEnd(pad);
      assert forall c :: c in pad[..n] ==> c in pad;
      assert forall c :: c in pad[n..] ==> c in pad;
      PaddingIsBlank(pad[n..]);
      assert SplitLines(pad)[1..] == SplitLines(pad[n..]);
    }
  }

  /** Blank padding behind a file does not get it past the blow-up gate. */
  lemma PaddingDoesNotCount(buf: Bytes, pad: Bytes)
    requires EndsWithLf(buf) && BlankLine(pad)
    ensures DataLineCount(buf + pad) == DataLineCount(buf)
  {
    SplitLinesJoin(buf, pad);
    DataLinesJoin(SplitLines(buf), SplitLines(pad));
    PaddingIsBlank(pad);
  }

  /**
   * What passing every gate means: neither content is too large or looks like anything but dotenv, the
   * file still is the baseline, and outside recovery a single entry of five bytes or more, however
   * padded with blank lines, grows at most four times.
   */
  lemma PassedMeans(entry: Bytes, pad: Bytes, r: Request, sniff: Bytes -> bool)
    requires EndsWithLf(entry) && BlankLine(pad) && DataLineCount(entry) <= 1
    requires Verdict(entry + pad, |entry + pad|, r, sniff).None?
    ensures |r.content| <= MAX_BYTES && LineCount(r.content) <= MAX_LINES && (r.content == "" || sniff(r.content))
    ensures r.baseline.Some? ==> r.baseline.value == entry + pad
    ensures r.skipDelta || 4 * |entry + pad| >= |r.content| || |entry + pad| < 5
  {
    PaddingDoesNotCount(entry, pad);
  }
}
