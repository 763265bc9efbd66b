/** transport.Redact: the four value patterns, their replacement in strings, and the
    recursion through attribute values. */
module Redaction {
  import opened Go
  import opened Collections
  import opened Keypair

  const PLACEHOLDER: string := "<redacted>"
  const BYTES_PLACEHOLDER: string := "<redacted-bytes>"

  const SENSITIVE_HEADER_KEYS: set<string> := {
    "authorization", "x-zeam-auth", "set-cookie", "cookie", "x-idempotency-key",
    "x-zeam-otp-token"
  }

  const SENSITIVE_BODY_KEYS: set<string> := {
    "idtoken", "refreshtoken", "accesstoken", "customtoken", "otp", "code", "secret",
    "stellarsecret", "connectsecret", "apikey", "apikeysecret", "webhooksecret",
    "password", "pin", "otp_session_id", "otpsessionid", "requestid", "bearer", "seed",
    "privatekey"
  }

  // ---- The patterns ----

  /** A pattern: the language between its two word boundaries. */
  type Pattern = string -> bool

  const PATTERNS: seq<Pattern> := [IsSeed, IsPublicKey, IsJwt, IsApiKey]

  predicate IsAlnum(c: char) {
    '0' <= c <= '9' || 'A' <= c <= 'Z' || 'a' <= c <= 'z'
  }

  /** A word character in the sense of \b, which is ASCII only. */
  predicate IsWord(c: char) {
    IsAlnum(c) || c == '_'
  }

  predicate IsTokenChar(c: char) {
    IsWord(c) || c == '-'
  }

  predicate AllTokenChars(s: string) {
    forall i :: 0 <= i < |s| ==> IsTokenChar(s[i])
  }

  /** \b at position i of s */
  predicate Boundary(s: string, i: nat)
    requires i <= |s|
  {
    (i > 0 && IsWord(s[i - 1])) != (i < |s| && IsWord(s[i]))
  }

  predicate IsJwt(t: string) {
    && |t| >= 8 && t[..3] == "eyJ"
    && exists a, b ::
         && 4 <= a < b - 1 && b < |t| - 1
         && t[a] == '.' && t[b] == '.'
         && AllTokenChars(t[3..a]) && AllTokenChars(t[a + 1..b]) && AllTokenChars(t[b + 1..])
  }

  predicate IsApiKey(t: string) {
    |t| >= 18 && t[..2] == "1_" && AllTokenChars(t[2..])
  }

  /** The pattern matches s between i and j. */
  predicate Matches(p: Pattern, s: string, i: nat, j: nat) {
    i <= j <= |s| && Boundary(s, i) && Boundary(s, j) && p(s[i..j])
  }

  ghost predicate NoMatch(p: Pattern, s: string) {
    forall i: nat, j: nat :: !Matches(p, s, i, j)
  }

  ghost predicate Clean(s: string) {
    forall p :: p in PATTERNS ==> NoMatch(p, s)
  }

  // ---- ReplaceAllString ----

  datatype Span = Span(start: nat, end: nat)

  /** The longest match starting at i and ending at or before j. */
  function LongestAt(p: Pattern, s: string, i: nat, j: nat): (r: Option<nat>)
    ensures r.Some? ==> Matches(p, s, i, r.value)
  {
    if Matches(p, s, i, j) then Some(j) else if j == 0 then None else LongestAt(p, s, i, j - 1)
  }

  lemma {:induction false} LongestAtIsLongest(p: Pattern, s: string, i: nat, j: nat, k: nat)
    requires k <= j && Matches(p, s, i, k)
    ensures LongestAt(p, s, i, j).Some? && k <= LongestAt(p, s, i, j).value
  {
    if !Matches(p, s, i, j) {
      LongestAtIsLongest(p, s, i, j - 1, k);
    }
  }

  /** The leftmost match at or after `from`, as long as possible. The patterns are greedy
      without alternatives, so this is the match Go's leftmost-first rule picks. */
  function NextMatch(p: Pattern, s: string, from: nat): (r: Option<Span>)
    requires from <= |s| && WellShaped(p)
    ensures r.Some? ==>
              from <= r.value.start < r.value.end <= |s| && Matches(p, s, r.value.start, r.value.end)
    decreases |s| - from
  {
    var end := LongestAt(p, s, from, |s|);
    if end.Some? then
      MatchIsLong(p, s, from, end.value);
      Some(Span(from, end.value))
    else if from == |s| then None
    else NextMatch(p, s, from + 1)
  }

  /** No match starts earlier than the next one, and none that starts there is longer. */
  lemma {:induction false} NextMatchIsNext(p: Pattern, s: string, from: nat, a: nat, b: nat)
    requires WellShaped(p) && from <= a && from <= |s| && Matches(p, s, a, b)
    ensures var r := NextMatch(p, s, from);
            r.Some? && (r.value.start < a || (r.value.start == a && b <= r.value.end))
    decreases |s| - from
  {
    if a == from {
      LongestAtIsLongest(p, s, a, |s|, b);
    } else if LongestAt(p, s, from, |s|).None? {
      NextMatchIsNext(p, s, from + 1, a, b);
    }
  }

  /** The matches that ReplaceAllString replaces, from `from` on. */
  function Spans(p: Pattern, s: string, from: nat): seq<Span>
    requires from <= |s| && WellShaped(p)
    decreases |s| - from
  {
    var m := NextMatch(p, s, from);
    if m.None? then [] else [m.value] + Spans(p, s, m.value.end)
  }

  /** The spans lie in s one after the other, from `from` on. */
  predicate InOrder(s: string, from: nat, spans: seq<Span>): (r: bool)
    ensures r ==> from <= |s|
    decreases |spans|
  {
    if spans == [] then from <= |s|
    else from <= spans[0].start < spans[0].end <= |s| && InOrder(s, spans[0].end, spans[1..])
  }

  /** s from `from` on, each span replaced by the placeholder. */
  function Replaced(s: string, from: nat, spans: seq<Span>): string
    requires InOrder(s, from, spans)
    decreases |spans|
  {
    if spans == [] then s[from..]
    else s[from..spans[0].start] + PLACEHOLDER + Replaced(s, spans[0].end, spans[1..])
  }

  ghost predicate NoMatchStartsIn(p: Pattern, s: string, from: nat, to: nat) {
    forall a: nat, b: nat :: from <= a < to ==> !Matches(p, s, a, b)
  }

  /** The spans are the leftmost longest matches of p from `from` on, and all of them:
      no match starts in a gap between them. */
  ghost predicate Covers(p: Pattern, s: string, from: nat, spans: seq<Span>)
    decreases |spans|
  {
    if spans == [] then from <= |s| && NoMatchStartsIn(p, s, from, |s|)
    else
      var m := spans[0];
      && from <= m.start < m.end <= |s|
      && Matches(p, s, m.start, m.end)
      && NoMatchStartsIn(p, s, from, m.start)
      && (forall b: nat :: Matches(p, s, m.start, b) ==> b <= m.end)
      && Covers(p, s, m.end, spans[1..])
  }

  /** regexp.ReplaceAllString */
  function ReplaceAll(p: Pattern, s: string): string
    requires WellShaped(p)
  {
    SpansCover(p, s, 0);
    CoversInOrder(p, s, 0, Spans(p, s, 0));
    Replaced(s, 0, Spans(p, s, 0))
  }

  lemma {:induction false} SpansCover(p: Pattern, s: string, from: nat)
    requires from <= |s| && WellShaped(p)
    ensures Covers(p, s, from, Spans(p, s, from))
    decreases |s| - from
  {
    var next := NextMatch(p, s, from);
    forall a: nat, b: nat | from <= a && Matches(p, s, a, b)
      ensures next.Some? && (next.value.start < a || (next.value.start == a && b <= next.value.end))
    {
      NextMatchIsNext(p, s, from, a, b);
    }
    if next.Some? {
      SpansCover(p, s, next.value.end);
      TailOfCons(next.value, Spans(p, s, next.value.end));
    }
  }

  lemma {:induction false} CoversInOrder(p: Pattern, s: string, from: nat, spans: seq<Span>)
    requires Covers(p, s, from, spans)
    ensures InOrder(s, from, spans)
    decreases |spans|
  {
    if spans != [] {
      CoversInOrder(p, s, spans[0].end, spans[1..]);
    }
  }

  /** There is only one way to cover: the spans are determined by the pattern's matches. */
  lemma {:induction false} CoverIsUnique(p: Pattern, s: string, from: nat, x: seq<Span>, y: seq<Span>)
    requires Covers(p, s, from, x) && Covers(p, s, from, y)
    ensures x == y
    decreases |x|
  {
    if x != [] && y != [] {
      assert x[0].start == y[0].start;
      assert x[0].end == y[0].end;
      CoverIsUnique(p, s, x[0].end, x[1..], y[1..]);
      HeadTail(x);
      HeadTail(y);
    }
  }

  // ---- Facts about single matches ----

  predicate IsMatchChar(c: char) {
    IsTokenChar(c) || c == '.'
  }

  predicate AllMatchChars(t: string) {
    forall k :: 0 <= k < |t| ==> IsMatchChar(t[k])
  }

  /** What the replacement relies on: every text of the pattern is long enough not to fit
      into the placeholder, begins with a word character and has none of its brackets. */
  predicate IsSecretShape(t: string) {
    |t| >= 8 && IsWord(t[0]) && t[0] != 'r' && AllMatchChars(t)
  }

  ghost predicate WellShaped(p: Pattern) {
    forall t :: p(t) ==> IsSecretShape(t)
  }

  lemma SliceChars(t: string, lo: nat, hi: nat)
    requires lo <= hi <= |t| && AllTokenChars(t[lo..hi])
    ensures forall k :: lo <= k < hi ==> IsMatchChar(t[k])
  {
    assert forall k :: lo <= k < hi ==> t[k] == t[lo..hi][k - lo];
  }

  lemma JwtShapeAt(t: string, a: nat, b: nat)
    requires 4 <= a < b - 1 && b < |t| - 1 && t[..3] == "eyJ" && t[a] == '.' && t[b] == '.'
    requires AllTokenChars(t[3..a]) && AllTokenChars(t[a + 1..b]) && AllTokenChars(t[b + 1..])
    ensures IsSecretShape(t)
  {
    assert t[0] == t[..3][0] && t[1] == t[..3][1] && t[2] == t[..3][2];
    SliceChars(t, 3, a);
    SliceChars(t, a + 1, b);
    SliceChars(t, b + 1, |t|);
  }

  lemma JwtShape(t: string)
    requires IsJwt(t)
    ensures IsSecretShape(t)
  {
    var a, b :|
      && 4 <= a < b - 1 && b < |t| - 1
      && t[a] == '.' && t[b] == '.'
      && AllTokenChars(t[3..a]) && AllTokenChars(t[a + 1..b]) && AllTokenChars(t[b + 1..]);
    JwtShapeAt(t, a, b);
  }

  lemma KeyShape(t: string)
    requires IsSeed(t) || IsPublicKey(t) || IsApiKey(t)
    ensures IsSecretShape(t)
  {
    if IsApiKey(t) {
      assert t[0] == t[..2][0] && t[1] == t[..2][1];
      assert forall k :: 2 <= k < |t| ==> t[k] == t[2..][k - 2];
    }
  }

  lemma PatternsAreWellShaped()
    ensures forall p :: p in PATTERNS ==> WellShaped(p)
  {
    forall t | IsJwt(t)
      ensures IsSecretShape(t)
    {
      JwtShape(t);
    }
    forall t | IsSeed(t) || IsPublicKey(t) || IsApiKey(t)
      ensures IsSecretShape(t)
    {
      KeyShape(t);
    }
  }

  lemma MatchIsLong(p: Pattern, s: string, i: nat, j: nat)
    requires WellShaped(p) && Matches(p, s, i, j)
    ensures i + 8 <= j && IsWord(s[i]) && s[i] != 'r'
    ensures forall k :: i <= k < j ==> IsMatchChar(s[k])
  {
    var t := s[i..j];
    assert IsSecretShape(t);
    assert t[0] == s[i];
    assert forall k :: i <= k < j ==> s[k] == t[k - i];
  }

  const WIDTH: nat := 10  // of the placeholder

  /** u with its text between i and j replaced by the placeholder. */
  function Splice(u: string, i: nat, j: nat): string
    requires i <= j <= |u|
  {
    u[..i] + PLACEHOLDER + u[j..]
  }

  lemma SpliceAt(u: string, i: nat, j: nat)
    requires i < j <= |u|
    ensures var v := Splice(u, i, j);
            var d := i + WIDTH;
            && v[..i] == u[..i] && v[d..] == u[j..]
            && v[i] == '<' && v[i + 1] == 'r' && v[d - 1] == '>'
  {
    var v := Splice(u, i, j);
    assert v[i..i + WIDTH] == PLACEHOLDER;
    assert v[i] == PLACEHOLDER[0] && v[i + 1] == PLACEHOLDER[1];
    assert v[i + WIDTH - 1] == PLACEHOLDER[WIDTH - 1];
  }

  /** A match that lies in a common prefix, short of its end, is common. */
  lemma MatchInPrefix(p: Pattern, s: string, u: string, n: nat, a: nat, b: nat)
    requires n <= |s| && n <= |u| && u[..n] == s[..n]
    requires b < n && Matches(p, u, a, b)
    ensures Matches(p, s, a, b)
  {
    assert forall k :: 0 <= k < n ==> u[k] == u[..n][k] == s[..n][k] == s[k];
    assert u[a..b] == s[a..b];
  }

  /** A match that lies in a common suffix is common, if a boundary at the start of one
      is a boundary at the start of the other. */
  lemma MatchInSuffix(p: Pattern, s: string, n: nat, u: string, d: nat, a: nat, b: nat)
    requires n <= |s| && d <= |u| && u[d..] == s[n..]
    requires WellShaped(p) && d <= a && Matches(p, u, a, b)
    requires n < |s| && IsWord(s[n]) ==> Boundary(s, n)
    ensures Matches(p, s, a - d + n, b - d + n)
  {
    MatchIsLong(p, u, a, b);
    assert |u| - d == |s| - n;
    assert forall k :: d <= k < |u| ==> u[k] == u[d..][k - d] == s[n..][k - d] == s[k - d + n];
    assert u[a..b] == s[a - d + n..b - d + n];
  }

  /** Replacing a stretch that begins like a match and ends like one creates no match:
      each match of the result, of any pattern, is a match of u before or after it. */
  lemma SpliceMakesNoMatch(u: string, i: nat, j: nat, q: Pattern, a: nat, b: nat)
    requires WellShaped(q) && i < j <= |u| && Boundary(u, i) && IsWord(u[i])
    requires j < |u| && IsWord(u[j]) ==> Boundary(u, j)
    requires Matches(q, Splice(u, i, j), a, b)
    ensures var d := i + WIDTH;
            || (b < i && Matches(q, u, a, b))
            || (d <= a && Matches(q, u, a - d + j, b - d + j))
  {
    var v := Splice(u, i, j);
    SpliceAt(u, i, j);
    MatchAvoids(q, v, i, a, b);
    if b <= i {
      MatchEndsBefore(q, u, v, i, a, b);
      MatchInPrefix(q, u, v, i, a, b);
    } else {
      MatchInSuffix(q, u, j, v, i + WIDTH, a, b);
    }
  }

  /** No match touches the placeholder. */
  lemma MatchAvoids(q: Pattern, v: string, i: nat, a: nat, b: nat)
    requires WellShaped(q) && Matches(q, v, a, b)
    requires i + WIDTH <= |v| && v[i] == '<' && v[i + 1] == 'r' && v[i + WIDTH - 1] == '>'
    ensures b <= i || i + WIDTH <= a
  {
    MatchIsLong(q, v, a, b);
  }

  /** A match before the placeholder does not reach up to it. */
  lemma MatchEndsBefore(q: Pattern, u: string, v: string, i: nat, a: nat, b: nat)
    requires WellShaped(q) && Matches(q, v, a, b) && b <= i
    requires i < |u| && i < |v| && v[..i] == u[..i] && v[i] == '<'
    requires Boundary(u, i) && IsWord(u[i])
    ensures b < i
  {
    MatchIsLong(q, v, a, b);
    assert v[b - 1] == v[..i][b - 1] == u[..i][b - 1] == u[b - 1];
  }

  // ---- Replacement leaves nothing to replace ----

  /** s with the spans replaced, the last one first. */
  function Partial(s: string, from: nat, spans: seq<Span>): (v: string)
    requires InOrder(s, from, spans)
    ensures from <= |s| && from <= |v|
    decreases |spans|
  {
    if spans == [] then s
    else Splice(Partial(s, spans[0].end, spans[1..]), spans[0].start, spans[0].end)
  }

  lemma {:induction false} PartialKeepsPrefix(s: string, from: nat, spans: seq<Span>)
    requires InOrder(s, from, spans)
    ensures Partial(s, from, spans)[..from] == s[..from]
    decreases |spans|
  {
    if spans != [] {
      var m := spans[0];
      var u := Partial(s, m.end, spans[1..]);
      PartialKeepsPrefix(s, m.end, spans[1..]);
      assert u[..m.end][..m.start] == s[..m.end][..m.start];
      assert u[..m.start][..from] == s[..m.start][..from];
    }
  }

  lemma PrefixOfConcat<T>(a: seq<T>, b: seq<T>, n: nat)
    requires n <= |a|
    ensures (a + b)[..n] == a[..n] && (a + b)[|a|..] == b
  {
  }

  lemma {:induction false} PartialIsReplaced(s: string, from: nat, spans: seq<Span>)
    requires InOrder(s, from, spans)
    ensures Partial(s, from, spans) == s[..from] + Replaced(s, from, spans)
    decreases |spans|
  {
    if spans != [] {
      var m := spans[0];
      var rest := Replaced(s, m.end, spans[1..]);
      PartialIsReplaced(s, m.end, spans[1..]);
      PrefixOfConcat(s[..m.end], rest, m.start);
      assert s[..m.end][..m.start] == s[..m.start];
      assert s[..from] + s[from..m.start] == s[..m.start];
      Assoc(s[..from], s[from..m.start], PLACEHOLDER);
      Assoc(s[..from], s[from..m.start] + PLACEHOLDER, rest);
    }
  }

  /** Where the text after a replaced match begins with a word character, it is the
      original text, so the boundary that ended the match is still there. */
  lemma BoundaryAfter(s: string, j: nat, later: seq<Span>)
    requires InOrder(s, j, later) && Boundary(s, j)
    ensures var u := Partial(s, j, later); j < |u| && IsWord(u[j]) ==> Boundary(u, j)
  {
    var u := Partial(s, j, later);
    PartialKeepsPrefix(s, j, later);
    assert j > 0 ==> u[j - 1] == u[..j][j - 1] == s[j - 1];
    if later != [] {
      var m := later[0];
      var next := Partial(s, m.end, later[1..]);
      PartialKeepsPrefix(s, m.end, later[1..]);
      SpliceAt(next, m.start, m.end);
      if j < m.start {
        assert u[j] == u[..m.start][j] == next[..m.end][j] == s[j];
      }
    }
  }

  lemma BoundaryInPrefix(s: string, u: string, n: nat, i: nat)
    requires n <= |s| && n <= |u| && u[..n] == s[..n] && i < n
    ensures Boundary(u, i) == Boundary(s, i) && u[i] == s[i]
  {
    assert u[i] == u[..n][i] == s[..n][i] == s[i];
    assert i > 0 ==> u[i - 1] == u[..n][i - 1] == s[..n][i - 1] == s[i - 1];
  }

  /** The first span still begins and ends at boundaries once the later ones are replaced. */
  lemma PartialBoundaries(p: Pattern, s: string, i: nat, j: nat, later: seq<Span>)
    requires WellShaped(p) && InOrder(s, j, later) && Matches(p, s, i, j)
    ensures var u := Partial(s, j, later);
            && i < j <= |u| && u[..j] == s[..j]
            && Boundary(u, i) && IsWord(u[i])
            && (j < |u| && IsWord(u[j]) ==> Boundary(u, j))
  {
    MatchIsLong(p, s, i, j);
    PartialKeepsPrefix(s, j, later);
    BoundaryAfter(s, j, later);
    BoundaryInPrefix(s, Partial(s, j, later), j, i);
  }

  lemma SplicedMatch(s: string, u: string, v: string, i: nat, j: nat, q: Pattern, a: nat, b: nat)
    returns (moved: bool, a': nat, b': nat)
    requires WellShaped(q) && i < j <= |u| && j <= |s| && u[..j] == s[..j]
    requires Boundary(u, i) && IsWord(u[i])
    requires j < |u| && IsWord(u[j]) ==> Boundary(u, j)
    requires v == Splice(u, i, j) && Matches(q, v, a, b)
    ensures !moved ==> a < i && Matches(q, s, a, b)
    ensures moved ==> Matches(q, u, a', b') && j <= a'
  {
    SpliceMakesNoMatch(u, i, j, q, a, b);
    moved := i + WIDTH <= a;
    if moved {
      a', b' := a - (i + WIDTH) + j, b - (i + WIDTH) + j;
    } else {
      MatchInPrefix(q, s, u, j, a, b);
      a', b' := 0, 0;
    }
  }

  /** A match in the replaced text is either a match of s before the first span, or moves
      to a match in u, the text as it is when only the later spans are replaced. */
  lemma PartialMatchOrigin(
    p: Pattern, s: string, m: Span, later: seq<Span>, u: string, q: Pattern, v: string, a: nat, b: nat)
    returns (moved: bool, a': nat, b': nat)
    requires WellShaped(p) && WellShaped(q) && InOrder(s, m.end, later)
    requires Matches(p, s, m.start, m.end)
    requires u == Partial(s, m.end, later) && m.start <= m.end <= |u| && v == Splice(u, m.start, m.end)
    requires Matches(q, v, a, b)
    ensures !moved ==> a < m.start && Matches(q, s, a, b)
    ensures moved ==> Matches(q, u, a', b') && m.end <= a'
  {
    PartialBoundaries(p, s, m.start, m.end, later);
    moved, a', b' := SplicedMatch(s, u, v, m.start, m.end, q, a, b);
  }

  /** After replacement a pattern with a match had one before, and the replaced pattern has
      none where it was replaced. */
  lemma {:induction false} MatchWasThere(p: Pattern, s: string, from: nat, spans: seq<Span>, q: Pattern, a: nat, b: nat)
    returns (i: nat, j: nat)
    requires WellShaped(p) && WellShaped(q) && Covers(p, s, from, spans) && InOrder(s, from, spans)
    requires Matches(q, Partial(s, from, spans), a, b)
    ensures Matches(q, s, i, j)
    ensures q == p ==> a < from
    decreases |spans|
  {
    i, j := a, b;
    if spans == [] {
      MatchIsLong(q, s, a, b);
    } else {
      var u, v := Partial(s, spans[0].end, spans[1..]), Partial(s, from, spans);
      var moved, a', b' := PartialMatchOrigin(p, s, spans[0], spans[1..], u, q, v, a, b);
      if moved {
        i, j := MatchWasThere(p, s, spans[0].end, spans[1..], q, a', b');
      }
    }
  }

  lemma NoMatchAfter(p: Pattern, s: string, spans: seq<Span>, v: string, q: Pattern)
    requires WellShaped(p) && WellShaped(q) && Covers(p, s, 0, spans) && InOrder(s, 0, spans)
    requires v == Partial(s, 0, spans)
    requires q == p || NoMatch(q, s)
    ensures NoMatch(q, v)
  {
    forall a: nat, b: nat | Matches(q, v, a, b)
      ensures false
    {
      var i, j := MatchWasThere(p, s, 0, spans, q, a, b);
    }
  }

  /** Replacing one pattern removes all its matches and makes none of another's. */
  lemma ReplaceAllCleans(p: Pattern, s: string, q: Pattern)
    requires WellShaped(p) && WellShaped(q)
    requires q == p || NoMatch(q, s)
    ensures NoMatch(q, ReplaceAll(p, s))
  {
    var spans := Spans(p, s, 0);
    SpansCover(p, s, 0);
    CoversInOrder(p, s, 0, spans);
    PartialIsReplaced(s, 0, spans);
    assert s[..0] + Replaced(s, 0, spans) == ReplaceAll(p, s);
    NoMatchAfter(p, s, spans, Partial(s, 0, spans), q);
  }

  lemma NothingToReplace(p: Pattern, s: string)
    requires WellShaped(p) && NoMatch(p, s)
    ensures ReplaceAll(p, s) == s
  {
  }

  /** A text that is one match from end to end becomes the placeholder. */
  lemma WholeMatchIsReplaced(p: Pattern, s: string)
    requires WellShaped(p) && Matches(p, s, 0, |s|)
    ensures ReplaceAll(p, s) == PLACEHOLDER
  {
    NextMatchIsNext(p, s, 0, 0, |s|);
    var m := Span(0, |s|);
    assert NextMatch(p, s, 0) == Some(m);
    assert NextMatch(p, s, |s|).None?;
    assert Spans(p, s, 0) == [m];
    assert Replaced(s, |s|, []) == "";
    assert Replaced(s, 0, [m]) == PLACEHOLDER;
  }

  // ---- redactString ----

  ghost predicate AllWellShaped(ps: seq<Pattern>) {
    forall p :: p in ps ==> WellShaped(p)
  }

  /** The patterns applied one after the other. */
  function ReplaceEach(ps: seq<Pattern>, s: string): string
    requires AllWellShaped(ps)
  {
    if ps == [] then s
    else
      var n := |ps| - 1;
      ReplaceAll(ps[n], ReplaceEach(ps[..n], s))
  }

  function Redacted(s: string): string {
    PatternsAreWellShaped();
    ReplaceEach(PATTERNS, s)
  }

  lemma {:induction false} ReplaceEachCleans(ps: seq<Pattern>, s: string, q: Pattern)
    requires AllWellShaped(ps) && WellShaped(q)
    requires q in ps || NoMatch(q, s)
    ensures NoMatch(q, ReplaceEach(ps, s))
  {
    if ps != [] {
      var n := |ps| - 1;
      InitLast(ps);
      if q in ps[..n] || NoMatch(q, s) {
        ReplaceEachCleans(ps[..n], s, q);
      }
      ReplaceAllCleans(ps[n], ReplaceEach(ps[..n], s), q);
    }
  }

  lemma {:induction false} NothingToReplaceEach(ps: seq<Pattern>, s: string)
    requires AllWellShaped(ps) && forall p :: p in ps ==> NoMatch(p, s)
    ensures ReplaceEach(ps, s) == s
  {
    if ps != [] {
      NothingToReplaceEach(ps[..|ps| - 1], s);
      NothingToReplace(ps[|ps| - 1], s);
    }
  }

  /** The output matches none of the patterns, whatever the input. */
  lemma RedactedIsClean(s: string)
    ensures Clean(Redacted(s))
  {
    PatternsAreWellShaped();
    forall p | p in PATTERNS
      ensures NoMatch(p, Redacted(s))
    {
      ReplaceEachCleans(PATTERNS, s, p);
    }
  }

  /** A string is left alone exactly when it matches none of the patterns. */
  lemma UnchangedIffClean(s: string)
    ensures Redacted(s) == s <==> Clean(s)
  {
    RedactedIsClean(s);
    PatternsAreWellShaped();
    if Clean(s) {
      NothingToReplaceEach(PATTERNS, s);
    }
  }

  lemma RedactedIsIdempotent(s: string)
    ensures Redacted(Redacted(s)) == Redacted(s)
  {
    RedactedIsClean(s);
    UnchangedIffClean(Redacted(s));
  }

  method RedactString(s: string) returns (r: string)
    ensures r == Redacted(s)
    ensures Clean(r)
    ensures r == s <==> Clean(s)
  {
    PatternsAreWellShaped();
    UnchangedIffClean(s);
    RedactedIsClean(s);
    r := s;
    for n := 0 to |PATTERNS|
      invariant r == ReplaceEach(PATTERNS[..n], s)
    {
      assert PATTERNS[..n + 1][..n] == PATTERNS[..n];
      r := ReplaceAll(PATTERNS[n], r);
    }
    assert PATTERNS[..|PATTERNS|] == PATTERNS;
  }

  // ---- Redact ----

  /** An attribute value; Other stands for every type the redactor does not look into. */
  datatype Value =
    | Str(text: string)
    | Bytes(bytes: seq<byte>)
    | Dict(entries: map<string, Value>)
    | NilDict
    | List(items: seq<Value>)
    | Other(id: int)

  predicate Sensitive(key: string) {
    ToLower(key) in SENSITIVE_BODY_KEYS || ToLower(key) in SENSITIVE_HEADER_KEYS
  }

  function RedactedValue(key: string, v: Value): Value
    decreases v
  {
    if Sensitive(key) then Str(PLACEHOLDER)
    else
      match v
      case Str(text) => Str(Redacted(text))
      case Bytes(_) => Str(BYTES_PLACEHOLDER)
      case Dict(entries) => Dict(map k | k in entries :: RedactedValue(k, entries[k]))
      case NilDict => NilDict
      case List(items) => List(seq(|items|, i requires 0 <= i < |items| => RedactedValue(key, items[i])))
      case Other(_) => v
  }

  method Redact(attrs: Value) returns (r: Value)
    requires attrs.Dict? || attrs.NilDict?
    ensures forall key :: !Sensitive(key) ==> r == RedactedValue(key, attrs)
    decreases attrs, 0
  {
    if attrs.NilDict? {
      return NilDict;
    }
    var out: map<string, Value> := map[];
    var todo := attrs.entries.Keys;
    while todo != {}
      invariant todo <= attrs.entries.Keys && out.Keys == attrs.entries.Keys - todo
      invariant forall k :: k in out ==> out[k] == RedactedValue(k, attrs.entries[k])
    {
      var k :| k in todo;
      var v := RedactValue(k, attrs.entries[k]);
      out := out[k := v];
      todo := todo - {k};
    }
    r := Dict(out);
    assert out == map k | k in attrs.entries :: RedactedValue(k, attrs.entries[k]);
  }

  method RedactValue(key: string, v: Value) returns (r: Value)
    ensures r == RedactedValue(key, v)
    ensures ToLower(key) in SENSITIVE_BODY_KEYS || ToLower(key) in SENSITIVE_HEADER_KEYS ==> r == Str("<redacted>")
    ensures ToLower(key) !in SENSITIVE_BODY_KEYS && ToLower(key) !in SENSITIVE_HEADER_KEYS ==>
              && (v.Str? ==> r == Str(Redacted(v.text)))
              && (v.Bytes? ==> r == Str("<redacted-bytes>"))
              && (v.Dict? ==> r.Dict? && r.entries.Keys == v.entries.Keys)
              && (v.List? ==> r.List? && |r.items| == |v.items|)
    decreases v, 1
  {
    var lk := ToLower(key);
    if lk in SENSITIVE_BODY_KEYS {
      return Str(PLACEHOLDER);
    }
    if lk in SENSITIVE_HEADER_KEYS {
      return Str(PLACEHOLDER);
    }
    match v
    case Str(text) =>
      var s := RedactString(text);
      r := Str(s);
    case Bytes(_) => r := Str(BYTES_PLACEHOLDER);
    case Dict(_) => r := Redact(v);
    case NilDict => r := Redact(v);
    case List(items) =>
      var out: seq<Value> := [];
      for i := 0 to |items|
        invariant |out| == i && forall j :: 0 <= j < i ==> out[j] == RedactedValue(key, items[j])
      {
        var item := RedactValue(key, items[i]);
        out := out + [item];
      }
      r := List(out);
    case Other(_) => r := v;
  }

  // ---- What redaction does along every path of a value ----

  datatype Step = Key(name: string) | Index(place: nat)

  /** The value that a path leads to, if any. */
  function At(v: Value, path: seq<Step>): Option<Value>
    decreases |path|
  {
    if path == [] then Some(v)
    else
      match (v, path[0])
      case (Dict(entries), Key(k)) => if k in entries then At(entries[k], path[1..]) else None
      case (List(items), Index(i)) => if i < |items| then At(items[i], path[1..]) else None
      case _ => None
  }

  predicate PlainPath(path: seq<Step>) {
    forall i :: 0 <= i < |path| && path[i].Key? ==> !Sensitive(path[i].name)
  }

  /** What stands at a place of the output for what stood there in the input. */
  predicate Corresponds(x: Value, y: Value) {
    match x
    case Str(text) => y == Str(Redacted(text))
    case Bytes(_) => y == Str(BYTES_PLACEHOLDER)
    case Dict(entries) =>
      && y.Dict? && y.entries.Keys == entries.Keys
      && forall k :: k in entries && Sensitive(k) ==> y.entries[k] == Str(PLACEHOLDER)
    case List(items) => y.List? && |y.items| == |items|
    case _ => y == x
  }

  /** Off sensitive keys nothing is added, lost or moved: the same paths lead somewhere,
      maps keep their keys, lists their lengths, and every string is redacted. */
  lemma {:induction false} RedactAlongPath(key: string, v: Value, path: seq<Step>)
    requires !Sensitive(key) && PlainPath(path)
    ensures At(v, path).Some? <==> At(RedactedValue(key, v), path).Some?
    ensures At(v, path).Some? ==> Corresponds(At(v, path).value, At(RedactedValue(key, v), path).value)
    decreases |path|
  {
    if path != [] {
      var rest := path[1..];
      assert PlainPath(rest);
      match (v, path[0])
      case (Dict(entries), Key(k)) =>
        if k in entries {
          RedactAlongPath(k, entries[k], rest);
        }
      case (List(items), Index(i)) =>
        if i < |items| {
          RedactAlongPath(key, items[i], rest);
        }
      case _ =>
    }
  }

  lemma {:induction false} AtSplits(v: Value, path: seq<Step>, more: seq<Step>)
    ensures At(v, path + more) == if At(v, path).Some? then At(At(v, path).value, more) else None
    decreases |path|
  {
    if path == [] {
      assert path + more == more;
    } else {
      assert (path + more)[1..] == path[1..] + more;
      match (v, path[0])
      case (Dict(entries), Key(k)) =>
        if k in entries {
          AtSplits(entries[k], path[1..], more);
        }
      case (List(items), Index(i)) =>
        if i < |items| {
          AtSplits(items[i], path[1..], more);
        }
      case _ =>
    }
  }

  /** Under a sensitive key, at any depth, stands the placeholder and nothing else. */
  lemma SensitiveIsHidden(key: string, v: Value, path: seq<Step>, k: string, more: seq<Step>)
    requires !Sensitive(key) && PlainPath(path) && Sensitive(k)
    ensures var r := RedactedValue(key, v);
            && (At(v, path + [Key(k)]).Some? <==> At(r, path + [Key(k)]).Some?)
            && (At(r, path + [Key(k)] + more).Some? ==>
                  more == [] && At(r, path + [Key(k)]) == Some(Str(PLACEHOLDER)))
  {
    var r := RedactedValue(key, v);
    var last := [Key(k)];
    RedactAlongPath(key, v, path);
    AtSplits(v, path, last);
    AtSplits(r, path, last);
    AtSplits(r, path + last, more);
    assert last[1..] == [];
    assert more != [] ==> At(Str(PLACEHOLDER), more) == None;
  }

  /** d is a character in lower case, and c the same or its upper case. */
  predicate InEitherCase(c: char, d: char) {
    d < '\U{80}' && !('A' <= d <= 'Z') && (c == d || ('a' <= d <= 'z' && c as int == d as int - 32))
  }

  /** Sensitive keys are known in whatever case they are written. */
  lemma KeysIgnoreCase(key: string, k: string, v: Value)
    requires k in SENSITIVE_BODY_KEYS || k in SENSITIVE_HEADER_KEYS
    requires |key| == |k| && forall i :: 0 <= i < |k| ==> InEitherCase(key[i], k[i])
    ensures RedactedValue(key, v) == Str("<redacted>")
  {
    assert forall i :: 0 <= i < |k| ==> LowerChar(key[i]) == k[i];
    assert ToLower(key) == k;
  }

  lemma PlaceholdersAreClean(s: string)
    requires s == PLACEHOLDER || s == BYTES_PLACEHOLDER
    ensures Clean(s)
  {
    PatternsAreWellShaped();
    forall p, i: nat, j: nat | p in PATTERNS && Matches(p, s, i, j)
      ensures false
    {
      MatchIsLong(p, s, i, j);
    }
  }

  /** No string anywhere in the output, under whatever keys, matches a pattern. */
  lemma {:induction false} LeavesAreClean(key: string, v: Value, path: seq<Step>)
    ensures var leaf := At(RedactedValue(key, v), path);
      leaf.Some? && leaf.value.Str? ==> Clean(leaf.value.text)
    decreases |path|
  {
    if Sensitive(key) {
      PlaceholdersAreClean(PLACEHOLDER);
    } else if path == [] {
      match v
      case Str(text) => RedactedIsClean(text);
      case Bytes(_) => PlaceholdersAreClean(BYTES_PLACEHOLDER);
      case _ =>
    } else {
      match (v, path[0])
      case (Dict(entries), Key(k)) =>
        if k in entries {
          LeavesAreClean(k, entries[k], path[1..]);
        }
      case (List(items), Index(i)) =>
        if i < |items| {
          LeavesAreClean(key, items[i], path[1..]);
        }
      case _ =>
    }
  }

  /** Redacting what is redacted changes nothing. */
  lemma {:induction false} RedactIsIdempotent(key: string, v: Value)
    ensures RedactedValue(key, RedactedValue(key, v)) == RedactedValue(key, v)
    decreases v
  {
    if !Sensitive(key) {
      match v
      case Str(text) => RedactedIsIdempotent(text);
      case Bytes(_) =>
        PlaceholdersAreClean(BYTES_PLACEHOLDER);
        UnchangedIffClean(BYTES_PLACEHOLDER);
      case Dict(entries) =>
        forall k | k in entries
          ensures RedactedValue(k, RedactedValue(k, entries[k])) == RedactedValue(k, entries[k])
        {
          RedactIsIdempotent(k, entries[k]);
        }
        var once := RedactedValue(key, v);
        assert RedactedValue(key, once).entries == once.entries;
      case List(items) =>
        forall i | 0 <= i < |items|
          ensures RedactedValue(key, RedactedValue(key, items[i])) == RedactedValue(key, items[i])
        {
          RedactIsIdempotent(key, items[i]);
        }
        var once := RedactedValue(key, v);
        assert RedactedValue(key, once).items == once.items;
      case _ =>
    }
  }

  // ---- RedactHeaders ----

  method RedactHeaders(h: map<string, seq<string>>) returns (out: map<string, seq<string>>)
    ensures out.Keys == h.Keys
    ensures forall k :: k in h ==>
              if ToLower(k) in SENSITIVE_HEADER_KEYS then out[k] == ["<redacted>"]
              else |out[k]| == |h[k]|
                   && forall i :: 0 <= i < |h[k]| ==> out[k][i] == Redacted(h[k][i]) && Clean(out[k][i])
  {
    out := map[];
    var todo := h.Keys;
    while todo != {}
      invariant todo <= h.Keys && out.Keys == h.Keys - todo
      invariant forall k :: k in out ==> RedactedHeader(k, h[k], out[k])
    {
      var k :| k in todo;
      todo := todo - {k};
      if ToLower(k) in SENSITIVE_HEADER_KEYS {
        out := out[k := [PLACEHOLDER]];
        continue;
      }
      var clean := RedactAll(h[k]);
      out := out[k := clean];
    }
  }

  ghost predicate RedactedHeader(k: string, vs: seq<string>, out: seq<string>) {
    if ToLower(k) in SENSITIVE_HEADER_KEYS then out == [PLACEHOLDER]
    else |out| == |vs| && forall i :: 0 <= i < |vs| ==> out[i] == Redacted(vs[i]) && Clean(out[i])
  }

  method RedactAll(vs: seq<string>) returns (clean: seq<string>)
    ensures |clean| == |vs|
    ensures forall i :: 0 <= i < |vs| ==> clean[i] == Redacted(vs[i]) && Clean(clean[i])
  {
    clean := [];
    for i := 0 to |vs|
      invariant |clean| == i
      invariant forall j :: 0 <= j < i ==> clean[j] == Redacted(vs[j]) && Clean(clean[j])
    {
      var c := RedactString(vs[i]);
      clean := clean + [c];
    }
  }
}
