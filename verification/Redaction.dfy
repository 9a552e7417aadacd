/**
 * `_redact` and `RedactingFilter.filter` of `src/worthless/cli/log_redaction.py`, with the prefixes of
 * `src/worthless/cli/key_patterns.py`. Which characters are word characters is a parameter.
 */
module Redaction {
  import opened Common
  import opened Text

  type WordTest = char -> bool

  const LITERAL := "[REDACTED]"

  /** Longest first, as the pattern lists them. */
  const PREFIXES := [
    "sk-ant-api03-", "anthropic-", "sk-or-v1-", "sk-proj-", "sk-ant-", "sk-or-", "AIza", "xai-", "sk-"
  ]

  const MIN_TAIL := 10

  /** Letters and digits are word characters, brackets are not. */
  predicate Sensible(isWord: WordTest) {
    && !isWord('[') && !isWord(']')
    && forall c :: 'a' <= c <= 'z' || 'A' <= c <= 'Z' || '0' <= c <= '9' ==> isWord(c)
  }

  /** `[\w\-]`. */
  predicate Tok(c: char, isWord: WordTest) { isWord(c) || c == '-' }

  /** How many such characters are at the front. */
  function RunLen(s: string, isWord: WordTest): (n: nat)
    ensures n <= |s|
  {
    if s != "" && Tok(s[0], isWord) then 1 + RunLen(s[1..], isWord) else 0
  }

  // ----- The key pattern -----------------------------------------------------------------------------

  predicate Fits(p: string, s: string, isWord: WordTest) {
    p <= s && RunLen(s[|p|..], isWord) >= MIN_TAIL
  }

  /** Length of a match at the front: the first prefix that fits, then all the characters it can take. */
  function KeyAt(ps: seq<string>, s: string, isWord: WordTest): (n: Option<nat>)
    ensures n.Some? ==> MIN_TAIL <= n.value <= |s|
  {
    if ps == [] then None
    else if Fits(ps[0], s, isWord) then Some(|ps[0]| + RunLen(s[|ps[0]|..], isWord))
    else KeyAt(ps[1..], s, isWord)
  }

  /** No match anywhere. */
  predicate Clean(ps: seq<string>, s: string, isWord: WordTest) {
    KeyAt(ps, s, isWord).None? && (s != "" ==> Clean(ps, s[1..], isWord))
  }

  predicate TokWord(p: string, isWord: WordTest) { p != "" && forall c :: c in p ==> Tok(c, isWord) }

  predicate TokWords(ps: seq<string>, isWord: WordTest) { forall p :: p in ps ==> TokWord(p, isWord) }

  lemma {:induction false} AllTok(a: string, b: string, isWord: WordTest)
    requires forall c :: c in a ==> Tok(c, isWord)
    ensures RunLen(a + b, isWord) == |a| + RunLen(b, isWord)
    decreases |a|
  {
    if a == "" {
      assert a + b == b;
    } else {
      assert a[0] in a;
      assert (a + b)[1..] == a[1..] + b;
      AllTok(a[1..], b, isWord);
    }
  }

  /** Whichever prefix fits, the match is the whole run of word characters and dashes. */
  lemma {:induction false} MatchIsWholeRun(ps: seq<string>, s: string, isWord: WordTest)
    requires TokWords(ps, isWord)
    ensures KeyAt(ps, s, isWord).Some? ==> KeyAt(ps, s, isWord).value == RunLen(s, isWord)
    decreases |ps|
  {
    if ps != [] {
      if Fits(ps[0], s, isWord) {
        assert ps[0] in ps;
        AllTok(ps[0], s[|ps[0]|..], isWord);
        assert ps[0] + s[|ps[0]|..] == s;
      } else {
        assert forall p :: p in ps[1..] ==> p in ps;
        MatchIsWholeRun(ps[1..], s, isWord);
      }
    }
  }

  lemma {:induction false} RunGrows(s: string, t: string, isWord: WordTest)
    ensures RunLen(s + t, isWord) >= RunLen(s, isWord)
    decreases |s|
  {
    if s != "" && Tok(s[0], isWord) {
      assert (s + t)[1..] == s[1..] + t;
      RunGrows(s[1..], t, isWord);
    }
  }

  /** A match is still one when text follows. */
  lemma {:induction false} MatchGrows(ps: seq<string>, s: string, t: string, isWord: WordTest)
    ensures KeyAt(ps, s, isWord).Some? ==> KeyAt(ps, s + t, isWord).Some?
    decreases |ps|
  {
    if ps != [] {
      if Fits(ps[0], s, isWord) {
        assert (s + t)[|ps[0]|..] == s[|ps[0]|..] + t;
        RunGrows(s[|ps[0]|..], t, isWord);
      } else {
        MatchGrows(ps[1..], s, t, isWord);
      }
    }
  }

  /** What is in front of a clean text's end is clean. */
  lemma {:induction false} CleanFront(ps: seq<string>, s: string, t: string, isWord: WordTest)
    requires Clean(ps, s + t, isWord)
    ensures Clean(ps, s, isWord)
    decreases |s|
  {
    MatchGrows(ps, s, t, isWord);
    if s != "" {
      assert (s + t)[1..] == s[1..] + t;
      CleanFront(ps, s[1..], t, isWord);
    }
  }

  lemma {:induction false} CleanBack(ps: seq<string>, s: string, i: nat, isWord: WordTest)
    requires Clean(ps, s, isWord) && i <= |s|
    ensures Clean(ps, s[i..], isWord)
    decreases i
  {
    if i > 0 {
      CleanBack(ps, s[1..], i - 1, isWord);
      assert s[1..][i - 1..] == s[i..];
    } else {
      assert s[0..] == s;
    }
  }

  /** No run of word characters and dashes goes over the border. */
  predicate Border(u: string, v: string, isWord: WordTest) {
    u == "" || v == "" || !Tok(u[|u| - 1], isWord) || !Tok(v[0], isWord)
  }

  lemma {:induction false} RunStops(u: string, v: string, isWord: WordTest)
    requires u != "" && Border(u, v, isWord)
    ensures RunLen(u + v, isWord) == RunLen(u, isWord)
    decreases |u|
  {
    assert (u + v)[1..] == u[1..] + v;
    if |u| > 1 {
      if Tok(u[0], isWord) { RunStops(u[1..], v, isWord); }
    } else {
      assert u[1..] + v == v;
    }
  }

  /** A prefix at least as long as `u` reaches the border, and beyond it if it is longer. */
  lemma PrefixAtBorder(p: string, u: string, v: string, isWord: WordTest)
    requires TokWord(p, isWord) && u != "" && p <= u + v && |p| >= |u|
    ensures Tok(u[|u| - 1], isWord)
    ensures if |p| == |u| then (u + v)[|p|..] == v else v != "" && Tok(v[0], isWord)
  {
    assert (u + v)[|u| - 1] == p[|u| - 1] && p[|u| - 1] in p;
    if |p| > |u| { assert (u + v)[|u|] == p[|u|] && p[|u|] in p; }
  }

  lemma FitsNotOverBorder(p: string, u: string, v: string, isWord: WordTest)
    requires TokWord(p, isWord) && Border(u, v, isWord) && u != "" && Fits(p, u + v, isWord)
    ensures Fits(p, u, isWord)
  {
    if |p| >= |u| {
      PrefixAtBorder(p, u, v, isWord);
    } else {
      assert p == (u + v)[..|p|] == u[..|p|];
      assert (u + v)[|p|..] == u[|p|..] + v;
      RunStops(u[|p|..], v, isWord);
    }
  }

  lemma {:induction false} NoMatchOverBorder(ps: seq<string>, u: string, v: string, isWord: WordTest)
    requires TokWords(ps, isWord) && Border(u, v, isWord) && u != ""
    ensures KeyAt(ps, u + v, isWord).Some? ==> KeyAt(ps, u, isWord).Some?
    decreases |ps|
  {
    if ps != [] {
      assert ps[0] in ps;
      assert forall p :: p in ps[1..] ==> p in ps;
      if Fits(ps[0], u + v, isWord) {
        FitsNotOverBorder(ps[0], u, v, isWord);
      } else {
        NoMatchOverBorder(ps[1..], u, v, isWord);
      }
    }
  }

  /** Clean texts stay clean side by side. */
  lemma {:induction false} CleanJoin(ps: seq<string>, u: string, v: string, isWord: WordTest)
    requires TokWords(ps, isWord) && Clean(ps, u, isWord) && Clean(ps, v, isWord) && Border(u, v, isWord)
    ensures Clean(ps, u + v, isWord)
    decreases |u|
  {
    if u == "" {
      assert u + v == v;
    } else {
      NoMatchOverBorder(ps, u, v, isWord);
      assert (u + v)[1..] == u[1..] + v;
      CleanJoin(ps, u[1..], v, isWord);
    }
  }

  lemma {:induction false} ShortIsClean(ps: seq<string>, s: string, isWord: WordTest)
    requires TokWords(ps, isWord) && |s| <= MIN_TAIL
    ensures Clean(ps, s, isWord)
    decreases |s|
  {
    ShortHasNoKey(ps, s, isWord);
    if s != "" { ShortIsClean(ps, s[1..], isWord); }
  }

  lemma {:induction false} ShortHasNoKey(ps: seq<string>, s: string, isWord: WordTest)
    requires TokWords(ps, isWord) && |s| <= MIN_TAIL
    ensures KeyAt(ps, s, isWord).None?
    decreases |ps|
  {
    if ps != [] {
      assert ps[0] in ps && TokWord(ps[0], isWord);
      assert forall p :: p in ps[1..] ==> p in ps;
      ShortHasNoKey(ps[1..], s, isWord);
    }
  }

  // ----- Substitution ----------------------------------------------------------------------------------

  /** Where in a text something is to be replaced first: a non-empty span, or nowhere. */
  type Finder = string -> Option<(nat, nat)>

  ghost predicate Finds(find: Finder) {
    forall s :: SpanOk(find, s)
  }

  predicate SpanOk(find: Finder, s: string) {
    match find(s)
    case None => true
    case Some((a, b)) => a < b <= |s|
  }

  /** `pattern.sub`: from left to right, each search going on behind the last match. */
  function Replace(s: string, find: Finder): string
    requires Finds(find)
    decreases |s|
  {
    assert SpanOk(find, s);
    match find(s)
    case None => s
    case Some((a, b)) => s[..a] + LITERAL + Replace(s[b..], find)
  }

  lemma AroundLiteral(ps: seq<string>, u: string, v: string, isWord: WordTest)
    requires TokWords(ps, isWord) && Sensible(isWord) && Clean(ps, u, isWord) && Clean(ps, v, isWord)
    ensures Clean(ps, u + LITERAL + v, isWord)
  {
    ShortIsClean(ps, LITERAL, isWord);
    CleanJoin(ps, u, LITERAL, isWord);
    assert (u + LITERAL)[|u + LITERAL| - 1] == ']';
    CleanJoin(ps, u + LITERAL, v, isWord);
  }

  /** Replacing whatever parts of a clean text by the literal keeps it clean. */
  lemma {:induction false} ReplaceKeepsClean(ps: seq<string>, s: string, find: Finder, isWord: WordTest)
    requires TokWords(ps, isWord) && Sensible(isWord) && Finds(find) && Clean(ps, s, isWord)
    ensures Clean(ps, Replace(s, find), isWord)
    decreases |s|
  {
    assert SpanOk(find, s);
    match find(s)
    case None =>
    case Some((a, b)) =>
      assert s[..a] + s[a..] == s;
      CleanFront(ps, s[..a], s[a..], isWord);
      CleanBack(ps, s, b, isWord);
      ReplaceKeepsClean(ps, s[b..], find, isWord);
      AroundLiteral(ps, s[..a], Replace(s[b..], find), isWord);
  }

  /** The leftmost key in a text. */
  function FindKey(ps: seq<string>, s: string, isWord: WordTest): Option<(nat, nat)> {
    match KeyAt(ps, s, isWord)
    case Some(n) => Some((0, n))
    case None =>
      if s == "" then None
      else
        match FindKey(ps, s[1..], isWord)
        case None => None
        case Some((a, b)) => Some((a + 1, b + 1))
  }

  lemma OneEarlier(ps: seq<string>, s: string, a: nat, isWord: WordTest)
    requires s != "" && a <= |s[1..]| && KeyAt(ps, s, isWord).None? && Clean(ps, s[1..][..a], isWord)
    ensures Clean(ps, s[..a + 1], isWord) && s[1..][a..] == s[a + 1..]
  {
    assert s[..a + 1] + s[a + 1..] == s;
    MatchGrows(ps, s[..a + 1], s[a + 1..], isWord);
    assert s[..a + 1][1..] == s[1..][..a];
  }

  /** What comes before the leftmost key is clean, and if there is none everything is. */
  lemma {:induction false} FoundKey(ps: seq<string>, s: string, isWord: WordTest)
    ensures match FindKey(ps, s, isWord)
            case None => Clean(ps, s, isWord)
            case Some((a, b)) => a < b <= |s| && Clean(ps, s[..a], isWord) && KeyAt(ps, s[a..], isWord) == Some(b - a)
    decreases |s|
  {
    if KeyAt(ps, s, isWord).Some? {
      assert s[0..] == s && s[..0] == "";
    } else if s != "" {
      FoundKey(ps, s[1..], isWord);
      match FindKey(ps, s[1..], isWord)
      case None =>
      case Some((a, b)) =>
        OneEarlier(ps, s, a, isWord);
        assert FindKey(ps, s, isWord) == Some((a + 1, b + 1));
    }
  }

  /** The key that is cut out goes to the end of its run: nothing of it is left behind. */
  lemma WholeKeyIsFound(ps: seq<string>, s: string, isWord: WordTest)
    requires TokWords(ps, isWord) && FindKey(ps, s, isWord).Some?
    ensures var (a, b) := FindKey(ps, s, isWord).value;
            a < b <= |s| && b - a == RunLen(s[a..], isWord) && (b < |s| ==> !Tok(s[b], isWord))
  {
    FoundKey(ps, s, isWord);
    var (a, b) := FindKey(ps, s, isWord).value;
    MatchIsWholeRun(ps, s[a..], isWord);
    RunEnds(s[a..], isWord);
    if b < |s| { assert s[a..][b - a] == s[b]; }
  }

  lemma {:induction false} RunEnds(s: string, isWord: WordTest)
    ensures var n := RunLen(s, isWord); n < |s| ==> !Tok(s[n], isWord)
    decreases |s|
  {
    if s != "" && Tok(s[0], isWord) { RunEnds(s[1..], isWord); }
  }

  /** `KEY_PATTERN.sub` on a text: no match is left. */
  lemma {:induction false} ReplacingKeysCleans(ps: seq<string>, s: string, find: Finder, isWord: WordTest)
    requires TokWords(ps, isWord) && Sensible(isWord) && Finds(find)
    requires forall t :: find(t) == FindKey(ps, t, isWord)
    ensures Clean(ps, Replace(s, find), isWord)
    decreases |s|
  {
    assert SpanOk(find, s);
    FoundKey(ps, s, isWord);
    match find(s)
    case None =>
    case Some((a, b)) =>
      ReplacingKeysCleans(ps, s[b..], find, isWord);
      AroundLiteral(ps, s[..a], Replace(s[b..], find), isWord);
  }

  // ----- The three other patterns ----------------------------------------------------------------------

  function Lower(c: char): char { if 'A' <= c <= 'Z' then c + 32 as char else c }

  /** `(?i)` on a lower-case word. */
  predicate StartsNoCase(s: string, w: string) {
    |s| >= |w| && forall i :: 0 <= i < |w| ==> Lower(s[i]) == w[i]
  }

  function SpaceLen(s: string): (n: nat)
    ensures n <= |s|
  {
    if s != "" && IsSpace(s[0]) then 1 + SpaceLen(s[1..]) else 0
  }

  function QuoteLen(s: string): (n: nat)
    ensures n <= |s|
  {
    if s != "" && IsQuote(s[0]) then 1 else 0
  }

  /** `[^\s"']+`, for a query also without `&`. */
  function ValueLen(s: string, inQuery: bool): (n: nat)
    ensures n <= |s|
  {
    if s == "" || IsSpace(s[0]) || IsQuote(s[0]) || (inQuery && s[0] == '&') then 0
    else 1 + ValueLen(s[1..], inQuery)
  }

  /** `["']?\s*[:=]\s*["']?`: how much of it is at the front. */
  function AssignLen(s: string): (n: Option<nat>)
    ensures n.Some? ==> n.value <= |s|
  {
    var a := QuoteLen(s);
    var b := a + SpaceLen(s[a..]);
    if b == |s| || (s[b] != ':' && s[b] != '=') then None
    else
      var c := b + 1 + SpaceLen(s[b + 1..]);
      Some(c + QuoteLen(s[c..]))
  }

  /** The span of the value, if a head of length `head` is followed by one. */
  function ValueSpan(s: string, head: nat, inQuery: bool): (span: Option<(nat, nat)>)
    requires head <= |s|
    ensures span.Some? ==> span.value.0 < span.value.1 <= |s|
  {
    var n := ValueLen(s[head..], inQuery);
    if n == 0 then None else Some((head, head + n))
  }

  /** `_AUTH_HEADER_RE` at the front of a text: the span of the token. */
  function AuthAt(s: string): (span: Option<(nat, nat)>)
    ensures span.Some? ==> span.value.0 < span.value.1 <= |s|
  {
    if !StartsNoCase(s, "authorization") then None
    else
      var a := AssignLen(s[|"authorization"|..]);
      if a.None? then None
      else
        var b := |"authorization"| + a.value;
        if !StartsNoCase(s[b..], "bearer") then None
        else
          var c := b + |"bearer"|;
          var spaces := SpaceLen(s[c..]);
          if spaces == 0 then None else ValueSpan(s, c + spaces, false)
  }

  /** `_API_KEY_HEADER_RE`. */
  function ApiKeyAt(s: string): (span: Option<(nat, nat)>)
    ensures span.Some? ==> span.value.0 < span.value.1 <= |s|
  {
    if !StartsNoCase(s, "x-api-key") then None
    else
      var a := AssignLen(s[|"x-api-key"|..]);
      if a.None? then None else ValueSpan(s, |"x-api-key"| + a.value, false)
  }

  /** `(?:api[-_]?key|key)`. */
  function ParamLen(s: string): (n: nat)
    ensures n <= |s|
  {
    if StartsNoCase(s, "apikey") then 6
    else if StartsNoCase(s, "api-key") || StartsNoCase(s, "api_key") then 7
    else if StartsNoCase(s, "key") then 3
    else 0
  }

  /** `_QUERY_PARAM_RE`. */
  function QueryAt(s: string): (span: Option<(nat, nat)>)
    ensures span.Some? ==> span.value.0 < span.value.1 <= |s|
  {
    if s == "" || (s[0] != '?' && s[0] != '&') then None
    else
      var n := ParamLen(s[1..]);
      if n == 0 || 1 + n == |s| || s[1 + n] != '=' then None else ValueSpan(s, 2 + n, true)
  }

  datatype Pattern = Auth | ApiKey | Query

  function SpanAt(p: Pattern, s: string): (span: Option<(nat, nat)>)
    ensures span.Some? ==> span.value.0 < span.value.1 <= |s|
  {
    match p
    case Auth => AuthAt(s)
    case ApiKey => ApiKeyAt(s)
    case Query => QueryAt(s)
  }

  /** The leftmost match of a pattern. */
  function FindSpan(p: Pattern, s: string): (span: Option<(nat, nat)>)
    ensures span.Some? ==> span.value.0 < span.value.1 <= |s|
    decreases |s|
  {
    if SpanAt(p, s).Some? then SpanAt(p, s)
    else if s == "" then None
    else
      match FindSpan(p, s[1..])
      case None => None
      case Some((a, b)) => Some((a + 1, b + 1))
  }

  // ----- The whole redaction -----------------------------------------------------------------------------

  function KeyFinder(isWord: WordTest): (find: Finder)
    ensures Finds(find)
  {
    KeysAreSpans(isWord);
    (s: string) => FindKey(PREFIXES, s, isWord)
  }

  lemma KeysAreSpans(isWord: WordTest)
    ensures Finds((s: string) => FindKey(PREFIXES, s, isWord))
  {
    var find := (s: string) => FindKey(PREFIXES, s, isWord);
    forall s ensures SpanOk(find, s) { FoundKey(PREFIXES, s, isWord); }
  }

  function PatternFinder(p: Pattern): (find: Finder)
    ensures Finds(find)
  {
    (s: string) => FindSpan(p, s)
  }

  /** `_redact`. */
  function Redact(text: string, isWord: WordTest): string {
    var keys := Replace(text, KeyFinder(isWord));
    var auth := Replace(keys, PatternFinder(Auth));
    var header := Replace(auth, PatternFinder(ApiKey));
    Replace(header, PatternFinder(Query))
  }

  lemma PrefixesAreTok(isWord: WordTest)
    requires Sensible(isWord)
    ensures TokWords(PREFIXES, isWord)
  {
    forall p | p in PREFIXES ensures TokWord(p, isWord) {
      assert forall c :: c in p ==> 'a' <= c <= 'z' || 'A' <= c <= 'Z' || '0' <= c <= '9' || c == '-';
    }
  }

  /** Whatever the text, no key is left in what is logged, the three other substitutions included. */
  lemma RedactionIsComplete(text: string, isWord: WordTest)
    requires Sensible(isWord)
    ensures Clean(PREFIXES, Redact(text, isWord), isWord)
  {
    PrefixesAreTok(isWord);
    var keys := Replace(text, KeyFinder(isWord));
    ReplacingKeysCleans(PREFIXES, text, KeyFinder(isWord), isWord);
    var auth := Replace(keys, PatternFinder(Auth));
    ReplaceKeepsClean(PREFIXES, keys, PatternFinder(Auth), isWord);
    var header := Replace(auth, PatternFinder(ApiKey));
    ReplaceKeepsClean(PREFIXES, auth, PatternFinder(ApiKey), isWord);
    ReplaceKeepsClean(PREFIXES, header, PatternFinder(Query), isWord);
  }

  /** A text in which nothing matches is logged as it is. */
  predicate Innocent(text: string, isWord: WordTest) {
    Clean(PREFIXES, text, isWord) && FindSpan(Auth, text).None? && FindSpan(ApiKey, text).None? && FindSpan(Query, text).None?
  }

  lemma {:induction false} CleanHasNoKey(ps: seq<string>, s: string, isWord: WordTest)
    ensures Clean(ps, s, isWord) <==> FindKey(ps, s, isWord).None?
    decreases |s|
  {
    if s != "" { CleanHasNoKey(ps, s[1..], isWord); }
  }

  lemma InnocentIsKept(text: string, isWord: WordTest)
    requires Innocent(text, isWord)
    ensures Redact(text, isWord) == text
  {
    CleanHasNoKey(PREFIXES, text, isWord);
  }

  // ----- Log records -----------------------------------------------------------------------------------

  /** What a record may hold: a string, or anything else. */
  datatype Value = Text(text: string) | Other(id: int)

  datatype Args = NoArgs | Dict(entries: map<string, Value>) | Tuple(items: seq<Value>) | Opaque

  function RedactValue(v: Value, isWord: WordTest): Value {
    if v.Text? then Text(Redact(v.text, isWord)) else v
  }

  function RedactArgs(args: Args, isWord: WordTest): Args {
    match args
    case Dict(entries) => Dict(map k | k in entries :: RedactValue(entries[k], isWord))
    case Tuple(items) => Tuple(seq(|items|, i requires 0 <= i < |items| => RedactValue(items[i], isWord)))
    case NoArgs => NoArgs
    case Opaque => Opaque
  }

  predicate ValueClean(v: Value, isWord: WordTest) { v.Text? ==> Clean(PREFIXES, v.text, isWord) }

  lemma ValueIsCleaned(v: Value, isWord: WordTest)
    requires Sensible(isWord)
    ensures ValueClean(RedactValue(v, isWord), isWord)
  {
    if v.Text? { RedactionIsComplete(v.text, isWord); }
  }

  predicate ArgsClean(args: Args, isWord: WordTest) {
    match args
    case Dict(entries) => forall k :: k in entries ==> ValueClean(entries[k], isWord)
    case Tuple(items) => forall i :: 0 <= i < |items| ==> ValueClean(items[i], isWord)
    case NoArgs => true
    case Opaque => true
  }

  /** The shape of the arguments: the same keys, or the same number of items. */
  predicate SameShape(a: Args, b: Args) {
    match a
    case Dict(entries) => b.Dict? && b.entries.Keys == entries.Keys
    case Tuple(items) => b.Tuple? && |b.items| == |items|
    case NoArgs => b.NoArgs?
    case Opaque => b.Opaque?
  }

  lemma LiteralIsClean(isWord: WordTest)
    requires Sensible(isWord)
    ensures Clean(PREFIXES, LITERAL, isWord)
  {
    PrefixesAreTok(isWord);
    ShortIsClean(PREFIXES, LITERAL, isWord);
  }

  // ----- The rendered message: template and arguments, put together after the filter ---------------------

  predicate AllToks(s: string, isWord: WordTest) { forall c :: c in s ==> Tok(c, isWord) }

  /** A key has begun in `u`: it is the front of a prefix, or a prefix and nothing but more of the key. */
  predicate Begun(p: string, u: string, isWord: WordTest) {
    u <= p || (p <= u && AllToks(u[|p|..], isWord))
  }

  /** Some non-empty end of the text is the beginning of a key. */
  predicate Invites(ps: seq<string>, u: string, isWord: WordTest) {
    u != "" && ((exists p :: p in ps && Begun(p, u, isWord)) || Invites(ps, u[1..], isWord))
  }

  lemma {:induction false} StopsInside(u: string, v: string, isWord: WordTest)
    requires !AllToks(u, isWord)
    ensures RunLen(u + v, isWord) == RunLen(u, isWord)
    decreases |u|
  {
    assert (u + v)[1..] == u[1..] + v;
    if Tok(u[0], isWord) { StopsInside(u[1..], v, isWord); }
  }

  /** A prefix that fits across the border had begun in front of it. */
  lemma FitsOnlyIfBegun(p: string, u: string, v: string, isWord: WordTest)
    requires Fits(p, u + v, isWord)
    ensures Begun(p, u, isWord) || Fits(p, u, isWord)
  {
    if |p| >= |u| {
      assert u == (u + v)[..|u|] == p[..|u|];
    } else {
      assert p == (u + v)[..|p|] == u[..|p|];
      assert (u + v)[|p|..] == u[|p|..] + v;
      if !AllToks(u[|p|..], isWord) { StopsInside(u[|p|..], v, isWord); }
    }
  }

  lemma {:induction false} NoKeyUnlessBegun(ps: seq<string>, u: string, v: string, isWord: WordTest)
    requires forall p :: p in ps ==> !Begun(p, u, isWord)
    ensures KeyAt(ps, u + v, isWord).Some? ==> KeyAt(ps, u, isWord).Some?
    decreases |ps|
  {
    if ps != [] {
      assert ps[0] in ps;
      if Fits(ps[0], u + v, isWord) {
        FitsOnlyIfBegun(ps[0], u, v, isWord);
      } else {
        NoKeyUnlessBegun(ps[1..], u, v, isWord);
      }
    }
  }

  /** Behind a text in which no key has begun, any clean text is clean. */
  lemma {:induction false} UninvitedIsClean(ps: seq<string>, u: string, v: string, isWord: WordTest)
    requires Clean(ps, u, isWord) && Clean(ps, v, isWord) && !Invites(ps, u, isWord)
    ensures Clean(ps, u + v, isWord)
    decreases |u|
  {
    if u == "" {
      assert u + v == v;
    } else {
      NoKeyUnlessBegun(ps, u, v, isWord);
      assert (u + v)[1..] == u[1..] + v;
      UninvitedIsClean(ps, u[1..], v, isWord);
    }
  }

  lemma {:induction false} FitsIsFound(ps: seq<string>, p: string, s: string, isWord: WordTest)
    requires p in ps && Fits(p, s, isWord)
    ensures KeyAt(ps, s, isWord).Some?
    decreases |ps|
  {
    if !Fits(ps[0], s, isWord) { FitsIsFound(ps[1..], p, s, isWord); }
  }

  /** A letter that is in no prefix. */
  const FILLER := 'q'
  const FILL := "qqqqqqqqqq"

  /** No prefix begins inside another one, and none has the filler or a sign of the other patterns in it. */
  predicate Apart(ps: seq<string>) {
    && (forall p, r, k :: p in ps && r in ps && 1 <= k < |p| ==> !(r <= p[k..]))
    && forall p :: p in ps ==> p != "" && FILLER !in p && NoSigns(p)
  }

  predicate NoSigns(s: string) { ':' !in s && '=' !in s && '?' !in s && '&' !in s }

  /** Where a prefix could begin: at one of three letters, or at an `a` with an `h` three further on. */
  predicate Starts(p: string, k: nat)
    requires k < |p|
  {
    p[k] == 's' || p[k] == 'A' || p[k] == 'x' || (p[k] == 'a' && k + 3 < |p| && p[k + 3] == 'h')
  }

  predicate StartsOnce(p: string) { p != "" && Starts(p, 0) && forall k :: 1 <= k < |p| ==> !Starts(p, k) }

  predicate Ordinary(p: string) { StartsOnce(p) && FILLER !in p && NoSigns(p) }

  lemma LongestPrefix()
    ensures Ordinary("sk-ant-api03-")
  {
  }

  lemma LongPrefix()
    ensures Ordinary("anthropic-")
  {
  }

  lemma MiddlePrefixes()
    ensures Ordinary("sk-or-v1-") && Ordinary("sk-proj-") && Ordinary("sk-ant-")
  {
  }

  lemma ShortPrefixes()
    ensures Ordinary("sk-or-") && Ordinary("AIza") && Ordinary("xai-") && Ordinary("sk-")
  {
  }

  lemma PrefixesAreOrdinary(p: string)
    requires p in PREFIXES
    ensures Ordinary(p)
  {
    LongestPrefix();
    LongPrefix();
    MiddlePrefixes();
    ShortPrefixes();
  }

  lemma OrdinaryAreApart(ps: seq<string>)
    requires forall p :: p in ps ==> Ordinary(p)
    ensures Apart(ps)
  {
    forall p, r, k | p in ps && r in ps && 1 <= k < |p| ensures !(r <= p[k..]) { NotInside(p, r, k); }
  }

  lemma NotInside(p: string, r: string, k: nat)
    requires StartsOnce(p) && StartsOnce(r) && 1 <= k < |p|
    ensures !(r <= p[k..])
  {
    assert !Starts(p, k) && p[k..][0] == p[k];
    if |r| <= |p| - k && r[0] == 'a' { assert p[k..][3] == p[k + 3]; }
  }

  lemma SkIsAPrefix()
    ensures "sk-" in PREFIXES && Shortest(PREFIXES, "sk-")
  {
    assert PREFIXES[8] == "sk-";
  }

  /** The prefixes, and what the proofs use of them. */
  lemma PrefixesAreGood(isWord: WordTest)
    requires Sensible(isWord)
    ensures TokWords(PREFIXES, isWord) && Apart(PREFIXES) && "sk-" in PREFIXES && Shortest(PREFIXES, "sk-")
  {
    PrefixesAreTok(isWord);
    forall p | p in PREFIXES ensures Ordinary(p) { PrefixesAreOrdinary(p); }
    OrdinaryAreApart(PREFIXES);
    SkIsAPrefix();
  }

  lemma {:induction false} NoFitNoKey(ps: seq<string>, s: string, isWord: WordTest)
    requires forall p :: p in ps ==> !Fits(p, s, isWord)
    ensures KeyAt(ps, s, isWord).None?
    decreases |ps|
  {
    if ps != [] {
      assert ps[0] in ps;
      NoFitNoKey(ps[1..], s, isWord);
    }
  }

  lemma NotInFilled(r: string, s: string, fill: string)
    requires FILLER !in r && (fill != "" ==> fill[0] == FILLER)
    ensures r <= s + fill ==> r <= s
  {
    if |s| < |r| <= |s + fill| { assert (s + fill)[|s|] == FILLER && r[|s|] in r; }
  }

  /** The rest of a prefix with letters behind it is clean: only the whole prefix makes a key. */
  lemma {:induction false} RestIsClean(ps: seq<string>, p: string, k: nat, isWord: WordTest)
    requires TokWords(ps, isWord) && Apart(ps) && p in ps && 1 <= k <= |p|
    ensures Clean(ps, p[k..] + FILL, isWord)
    decreases |p| - k
  {
    if k == |p| {
      assert p[k..] + FILL == FILL;
      ShortIsClean(ps, FILL, isWord);
    } else {
      forall r | r in ps ensures !Fits(r, p[k..] + FILL, isWord) {
        NotInFilled(r, p[k..], FILL);
      }
      NoFitNoKey(ps, p[k..] + FILL, isWord);
      assert (p[k..] + FILL)[1..] == p[k + 1..] + FILL;
      RestIsClean(ps, p, k + 1, isWord);
    }
  }

  lemma FilledIsKey(ps: seq<string>, p: string, u: string, isWord: WordTest)
    requires p in ps && p <= u && AllToks(u[|p|..], isWord) && Sensible(isWord)
    ensures !Clean(ps, u + FILL, isWord)
  {
    KeyOf(ps, p, u[|p|..] + FILL, isWord);
    assert p + (u[|p|..] + FILL) == u + FILL;
  }

  /** What completes a key that has begun, clean in itself. */
  lemma {:induction false} Completion(ps: seq<string>, u: string, isWord: WordTest) returns (v: string)
    requires TokWords(ps, isWord) && Apart(ps) && Sensible(isWord) && Invites(ps, u, isWord)
    ensures Clean(ps, v, isWord) && NoSigns(v) && !Clean(ps, u + v, isWord)
    decreases |u|
  {
    if p :| p in ps && Begun(p, u, isWord) {
      if u <= p {
        v := p[|u|..] + FILL;
        RestIsClean(ps, p, |u|, isWord);
        assert u + v == p + FILL;
        FilledIsKey(ps, p, p, isWord);
      } else {
        v := FILL;
        ShortIsClean(ps, FILL, isWord);
        FilledIsKey(ps, p, u, isWord);
      }
    } else {
      v := Completion(ps, u[1..], isWord);
      assert (u + v)[1..] == u[1..] + v;
    }
  }

  /** The other patterns need one of these signs. */
  lemma {:induction false} NoSignsNoSpan(p: Pattern, s: string)
    requires NoSigns(s)
    ensures FindSpan(p, s).None?
    decreases |s|
  {
    assert SpanAt(p, s).None?;
    if s != "" { NoSignsNoSpan(p, s[1..]); }
  }

  /** A filter that leaves no key, and keeps what has none and no sign of the other patterns. */
  ghost predicate Filters(ps: seq<string>, filter: string -> string, isWord: WordTest) {
    forall s :: Passed(ps, filter, s, isWord)
  }

  predicate Passed(ps: seq<string>, filter: string -> string, s: string, isWord: WordTest) {
    Clean(ps, filter(s), isWord) && (Clean(ps, s, isWord) && NoSigns(s) ==> filter(s) == s)
  }

  function TextFilter(isWord: WordTest): string -> string { (s: string) => Redact(s, isWord) }

  lemma RedactFilters(isWord: WordTest)
    requires Sensible(isWord)
    ensures Filters(PREFIXES, TextFilter(isWord), isWord)
  {
    forall s ensures Passed(PREFIXES, TextFilter(isWord), s, isWord) {
      RedactionIsComplete(s, isWord);
      if Clean(PREFIXES, s, isWord) && NoSigns(s) {
        NoSignsNoSpan(Auth, s);
        NoSignsNoSpan(ApiKey, s);
        NoSignsNoSpan(Query, s);
        InnocentIsKept(s, isWord);
      }
    }
  }

  /** `getMessage` after the filter: the pieces of the template, and the filtered arguments between them. */
  function Rendered(pieces: seq<string>, args: seq<string>, filter: string -> string): (text: string)
    requires |pieces| == |args| + 1
    ensures pieces[0] <= text
  {
    if args == [] then pieces[0]
    else pieces[0] + (filter(args[0]) + Rendered(pieces[1..], args[1..], filter))
  }

  /** The template as it is logged: the pieces with `%s` between them. */
  function Template(pieces: seq<string>): string
    requires pieces != []
  {
    if |pieces| == 1 then pieces[0] else pieces[0] + ("%s" + Template(pieces[1..]))
  }

  /** Behind an argument a word ends, or the message. */
  predicate Parted(t: string, last: bool, isWord: WordTest) {
    if t == "" then last else !Tok(t[0], isWord)
  }

  /** In front of no argument a key has begun, and behind each one a word ends. */
  predicate Separates(ps: seq<string>, pieces: seq<string>, isWord: WordTest)
    requires pieces != []
  {
    |pieces| > 1 ==>
      && !Invites(ps, pieces[0], isWord) && Parted(pieces[1], |pieces| == 2, isWord)
      && Separates(ps, pieces[1..], isWord)
  }

  predicate PiecesClean(ps: seq<string>, pieces: seq<string>, isWord: WordTest) {
    forall i :: 0 <= i < |pieces| ==> Clean(ps, pieces[i], isWord)
  }

  lemma {:induction false} CleanPieces(ps: seq<string>, pieces: seq<string>, isWord: WordTest)
    requires pieces != [] && Clean(ps, Template(pieces), isWord)
    ensures PiecesClean(ps, pieces, isWord)
    decreases |pieces|
  {
    if |pieces| > 1 {
      CleanFront(ps, pieces[0], "%s" + Template(pieces[1..]), isWord);
      CleanBack(ps, Template(pieces), |pieces[0]| + 2, isWord);
      assert Template(pieces)[|pieces[0]| + 2..] == Template(pieces[1..]);
      CleanPieces(ps, pieces[1..], isWord);
      assert forall i :: 1 <= i < |pieces| ==> pieces[i] == pieces[1..][i - 1];
    }
  }

  lemma {:induction false} SeparatedIsClean(ps: seq<string>, pieces: seq<string>, args: seq<string>, filter: string -> string, isWord: WordTest)
    requires TokWords(ps, isWord) && Filters(ps, filter, isWord)
    requires |pieces| == |args| + 1 && PiecesClean(ps, pieces, isWord) && Separates(ps, pieces, isWord)
    ensures Clean(ps, Rendered(pieces, args, filter), isWord)
    decreases |args|
  {
    if args != [] {
      var v, rest := filter(args[0]), Rendered(pieces[1..], args[1..], filter);
      SeparatedIsClean(ps, pieces[1..], args[1..], filter, isWord);
      assert Passed(ps, filter, args[0], isWord);
      assert pieces[1] != "" ==> rest[0] == pieces[1][0];
      CleanJoin(ps, v, rest, isWord);
      UninvitedIsClean(ps, pieces[0], v + rest, isWord);
    }
  }

  /** A dirty part makes the whole dirty. */
  lemma DirtyInside(ps: seq<string>, a: string, b: string, c: string, isWord: WordTest)
    requires !Clean(ps, b, isWord)
    ensures !Clean(ps, a + (b + c), isWord)
  {
    if Clean(ps, a + (b + c), isWord) {
      CleanBack(ps, a + (b + c), |a|, isWord);
      assert (a + (b + c))[|a|..] == b + c;
      CleanFront(ps, b, c, isWord);
    }
  }

  /** One character too few for a key. */
  const ALMOST := "qqqqqqqqq"

  predicate Shortest(ps: seq<string>, p: string) { forall r :: r in ps && r <= p ==> r == p }

  lemma AlmostNoKey(ps: seq<string>, p: string, isWord: WordTest)
    requires Apart(ps) && p in ps && Shortest(ps, p)
    ensures KeyAt(ps, p + ALMOST, isWord).None?
  {
    forall r | r in ps ensures !Fits(r, p + ALMOST, isWord) {
      NotInFilled(r, p, ALMOST);
      assert (p + ALMOST)[|p|..] == ALMOST;
    }
    NoFitNoKey(ps, p + ALMOST, isWord);
  }

  lemma AlmostIsClean(ps: seq<string>, p: string, isWord: WordTest)
    requires TokWords(ps, isWord) && Apart(ps) && p in ps && Shortest(ps, p)
    ensures Clean(ps, p + ALMOST, isWord) && NoSigns(p + ALMOST)
  {
    AlmostNoKey(ps, p, isWord);
    RestIsClean(ps, p, 1, isWord);
    assert (p + ALMOST)[1..] == p[1..] + ALMOST;
    assert (p[1..] + ALMOST) + "q" == p[1..] + FILL;
    CleanFront(ps, p[1..] + ALMOST, "q", isWord);
  }

  lemma AlmostAndMore(ps: seq<string>, p: string, t: string, isWord: WordTest)
    requires Sensible(isWord) && p in ps && t != "" && Tok(t[0], isWord)
    ensures !Clean(ps, p + ALMOST + t, isWord)
  {
    assert (p + ALMOST + t)[|p|..] == ALMOST + t;
    AllTok(ALMOST, t, isWord);
    FitsIsFound(ps, p, p + ALMOST + t, isWord);
  }

  function Blanks(n: nat): seq<string> { seq(n, _ => "") }

  /** Arguments that get a key past the filter where the template allows it. */
  lemma {:induction false} Leak(ps: seq<string>, pieces: seq<string>, filter: string -> string, isWord: WordTest, sk: string) returns (args: seq<string>)
    requires TokWords(ps, isWord) && Apart(ps) && Sensible(isWord) && Filters(ps, filter, isWord) && sk in ps && Shortest(ps, sk)
    requires pieces != [] && !Separates(ps, pieces, isWord)
    ensures |pieces| == |args| + 1 && !Clean(ps, Rendered(pieces, args, filter), isWord)
    decreases |pieces|
  {
    if Invites(ps, pieces[0], isWord) {
      args := LeakInFront(ps, pieces, filter, isWord);
    } else if !Parted(pieces[1], |pieces| == 2, isWord) {
      args := LeakBehind(ps, pieces, filter, isWord, sk);
    } else {
      var more := Leak(ps, pieces[1..], filter, isWord, sk);
      args := [""] + more;
      assert args[1..] == more;
      DirtyInside(ps, pieces[0] + filter(""), Rendered(pieces[1..], more, filter), "", isWord);
      assert Rendered(pieces, args, filter) == (pieces[0] + filter("")) + (Rendered(pieces[1..], more, filter) + "");
    }
  }

  lemma LeakInFront(ps: seq<string>, pieces: seq<string>, filter: string -> string, isWord: WordTest) returns (args: seq<string>)
    requires TokWords(ps, isWord) && Apart(ps) && Sensible(isWord) && Filters(ps, filter, isWord)
    requires |pieces| > 1 && Invites(ps, pieces[0], isWord)
    ensures |pieces| == |args| + 1 && !Clean(ps, Rendered(pieces, args, filter), isWord)
  {
    var v := Completion(ps, pieces[0], isWord);
    assert Passed(ps, filter, v, isWord);
    args := [v] + Blanks(|pieces| - 2);
    assert args[1..] == Blanks(|pieces| - 2);
    var rest := Rendered(pieces[1..], args[1..], filter);
    DirtyInside(ps, "", pieces[0] + v, rest, isWord);
    assert Rendered(pieces, args, filter) == "" + ((pieces[0] + v) + rest);
  }

  lemma LeakBehind(ps: seq<string>, pieces: seq<string>, filter: string -> string, isWord: WordTest, sk: string) returns (args: seq<string>)
    requires TokWords(ps, isWord) && Apart(ps) && Sensible(isWord) && Filters(ps, filter, isWord) && sk in ps && Shortest(ps, sk)
    requires |pieces| > 1 && !Parted(pieces[1], |pieces| == 2, isWord)
    ensures |pieces| == |args| + 1 && !Clean(ps, Rendered(pieces, args, filter), isWord)
  {
    var next := if pieces[1] == "" then [FILL] + Blanks(|pieces| - 3) else Blanks(|pieces| - 2);
    args := [sk + ALMOST] + next;
    assert args[1..] == next;
    AlmostIsClean(ps, sk, isWord);
    assert Passed(ps, filter, sk + ALMOST, isWord);
    var rest := Rendered(pieces[1..], next, filter);
    if pieces[1] == "" { FillFollows(ps, pieces[1..], next, filter, isWord); }
    AlmostAndMore(ps, sk, rest, isWord);
    DirtyInside(ps, pieces[0], (sk + ALMOST) + rest, "", isWord);
    assert Rendered(pieces, args, filter) == pieces[0] + (((sk + ALMOST) + rest) + "");
  }

  lemma ShortPasses(ps: seq<string>, filter: string -> string, s: string, isWord: WordTest)
    requires TokWords(ps, isWord) && Filters(ps, filter, isWord) && |s| <= MIN_TAIL && NoSigns(s)
    ensures filter(s) == s
  {
    ShortIsClean(ps, s, isWord);
    assert Passed(ps, filter, s, isWord);
  }

  lemma FillFollows(ps: seq<string>, pieces: seq<string>, args: seq<string>, filter: string -> string, isWord: WordTest)
    requires TokWords(ps, isWord) && Sensible(isWord) && Filters(ps, filter, isWord)
    requires |pieces| == |args| + 1 && args != [] && args[0] == FILL && pieces[0] == ""
    ensures var text := Rendered(pieces, args, filter); text != "" && Tok(text[0], isWord)
  {
    ShortPasses(ps, filter, FILL, isWord);
    var more := Rendered(pieces[1..], args[1..], filter);
    assert Rendered(pieces, args, filter) == FILL + more;
    assert (FILL + more)[0] == FILL[0] == FILLER;
  }

  /** The message is clean whatever the arguments are. */
  ghost predicate AlwaysClean(ps: seq<string>, pieces: seq<string>, filter: string -> string, isWord: WordTest) {
    forall args: seq<string> :: |pieces| == |args| + 1 ==> Clean(ps, Rendered(pieces, args, filter), isWord)
  }

  lemma AlwaysCleanExactly(ps: seq<string>, pieces: seq<string>, filter: string -> string, isWord: WordTest, sk: string)
    requires TokWords(ps, isWord) && Apart(ps) && Sensible(isWord) && Filters(ps, filter, isWord) && sk in ps && Shortest(ps, sk)
    requires pieces != [] && PiecesClean(ps, pieces, isWord)
    ensures AlwaysClean(ps, pieces, filter, isWord) <==> Separates(ps, pieces, isWord)
  {
    if Separates(ps, pieces, isWord) {
      forall args: seq<string> | |pieces| == |args| + 1 ensures Clean(ps, Rendered(pieces, args, filter), isWord) {
        SeparatedIsClean(ps, pieces, args, filter, isWord);
      }
    } else {
      var args := Leak(ps, pieces, filter, isWord, sk);
    }
  }

  /**
   * A template that passes the filter is safe with every argument if and only if in front of no `%s` a key has
   * begun, and behind each of them the message ends or a character that is not part of a key follows.
   */
  lemma RenderedExactly(pieces: seq<string>, isWord: WordTest)
    requires Sensible(isWord) && pieces != [] && Innocent(Template(pieces), isWord)
    ensures Redact(Template(pieces), isWord) == Template(pieces)
    ensures AlwaysClean(PREFIXES, pieces, TextFilter(isWord), isWord) <==> Separates(PREFIXES, pieces, isWord)
  {
    InnocentIsKept(Template(pieces), isWord);
    CleanPieces(PREFIXES, pieces, isWord);
    PrefixesAreGood(isWord);
    RedactFilters(isWord);
    AlwaysCleanExactly(PREFIXES, pieces, TextFilter(isWord), isWord, "sk-");
  }

  /** For one: the template `sk-%s`, and the rest of the key as its argument. Each passes, together they are a key. */
  lemma SplitKeyIsJoined(tail: string, isWord: WordTest)
    requires Sensible(isWord) && |tail| >= MIN_TAIL && AllToks(tail, isWord) && Innocent(tail, isWord)
    ensures Redact("sk-", isWord) == "sk-" && Redact(tail, isWord) == tail
    ensures !Clean(PREFIXES, "sk-" + tail, isWord)
  {
    PrefixesAreGood(isWord);
    RedactFilters(isWord);
    ShortPasses(PREFIXES, TextFilter(isWord), "sk-", isWord);
    InnocentIsKept(tail, isWord);
    KeyOf(PREFIXES, "sk-", tail, isWord);
  }

  lemma KeyOf(ps: seq<string>, p: string, tail: string, isWord: WordTest)
    requires p in ps && |tail| >= MIN_TAIL && AllToks(tail, isWord)
    ensures !Clean(ps, p + tail, isWord)
  {
    AllTok(tail, "", isWord);
    assert tail + "" == tail && (p + tail)[|p|..] == tail;
    FitsIsFound(ps, p, p + tail, isWord);
  }

  class LogRecord {
    var msg: Value
    var args: Args
    /** A pending exception, as it would be rendered, or None; rendering may fail. */
    var excInfo: Option<string>
    var excText: Option<string>
    var stackInfo: Option<string>

    /** `RedactingFilter.filter`: in place, and the shape of the arguments is kept. */
    method Filter(isWord: WordTest)
      requires Sensible(isWord)
      modifies this
      ensures msg == RedactValue(old(msg), isWord) && args == RedactArgs(old(args), isWord)
      ensures ValueClean(msg, isWord) && ArgsClean(args, isWord) && SameShape(old(args), args)
      ensures excInfo.None?
      ensures old(excInfo).Some? ==>
                excText.Some? && (excText.value == Redact(old(excInfo).value, isWord) || excText.value == LITERAL)
      ensures old(excInfo).None? ==> excText == old(excText)
      ensures (excText.Some? ==> Clean(PREFIXES, excText.value, isWord))
              <==> old(excInfo).Some? || (old(excText).Some? ==> Clean(PREFIXES, old(excText).value, isWord))
      ensures stackInfo.Some? ==> Clean(PREFIXES, stackInfo.value, isWord)
      ensures stackInfo == if old(stackInfo).Some? then Some(Redact(old(stackInfo).value, isWord)) else None
    {
      FilterMsg(isWord);
      FilterArgs(isWord);
      FilterException(isWord);
      FilterStack(isWord);
    }

    method FilterMsg(isWord: WordTest)
      requires Sensible(isWord)
      modifies this`msg
      ensures msg == RedactValue(old(msg), isWord) && ValueClean(msg, isWord)
    {
      ValueIsCleaned(msg, isWord);
      msg := RedactValue(msg, isWord);
    }

    /** Rendered early, redacted and cached, so that nobody renders it again. */
    method FilterException(isWord: WordTest)
      requires Sensible(isWord)
      modifies this`excInfo, this`excText
      ensures excInfo.None?
      ensures old(excInfo).Some? ==>
                excText.Some? && (excText.value == Redact(old(excInfo).value, isWord) || excText.value == LITERAL)
      ensures old(excInfo).None? ==> excText == old(excText)
      ensures (excText.Some? ==> Clean(PREFIXES, excText.value, isWord))
              <==> old(excInfo).Some? || (old(excText).Some? ==> Clean(PREFIXES, old(excText).value, isWord))
    {
      if excInfo.None? { return; }
      var rendered: bool := *;
      if rendered {
        RedactionIsComplete(excInfo.value, isWord);
        excText := Some(Redact(excInfo.value, isWord));
      } else {
        LiteralIsClean(isWord);
        excText := Some(LITERAL);
      }
      excInfo := None;
    }

    method FilterStack(isWord: WordTest)
      requires Sensible(isWord)
      modifies this`stackInfo
      ensures stackInfo.Some? ==> Clean(PREFIXES, stackInfo.value, isWord)
      ensures stackInfo == if old(stackInfo).Some? then Some(Redact(old(stackInfo).value, isWord)) else None
    {
      if stackInfo.None? { return; }
      RedactionIsComplete(stackInfo.value, isWord);
      stackInfo := Some(Redact(stackInfo.value, isWord));
    }

    method FilterArgs(isWord: WordTest)
      requires Sensible(isWord)
      modifies this`args
      ensures args == RedactArgs(old(args), isWord)
      ensures ArgsClean(args, isWord) && SameShape(old(args), args)
    {
      match args
      case Dict(entries) =>
        forall k | k in entries ensures ValueClean(RedactValue(entries[k], isWord), isWord) {
          ValueIsCleaned(entries[k], isWord);
        }
        args := Dict(map k | k in entries :: RedactValue(entries[k], isWord));
      case Tuple(items) =>
        forall i | 0 <= i < |items| ensures ValueClean(RedactValue(items[i], isWord), isWord) {
          ValueIsCleaned(items[i], isWord);
        }
        args := Tuple(seq(|items|, i requires 0 <= i < |items| => RedactValue(items[i], isWord)));
      case NoArgs =>
      case Opaque =>
    }
  }
}
