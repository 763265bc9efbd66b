/** Redaction leaves the text around a secret alone. */
module RedactionContext {
  import opened Collections
  import opened Keypair
  import opened Redaction

  // ---- The gaps survive ----

  /** The gaps with the separators between them. */
  function Interleave(gaps: seq<string>, separators: seq<string>): string
    requires |gaps| == |separators| + 1
  {
    if separators == [] then gaps[0] else gaps[0] + separators[0] + Interleave(gaps[1..], separators[1..])
  }

  function Copies(n: nat): (r: seq<string>)
    ensures |r| == n && forall i :: 0 <= i < n ==> r[i] == "<redacted>"
  {
    seq(n, i requires 0 <= i < n => "<redacted>")
  }

  /** s from `from` on is the gaps with matches of p between them, and Replaced the same gaps
      with a placeholder for each match. */
  lemma {:induction false} GapsFrom(p: Pattern, s: string, from: nat, spans: seq<Span>)
    returns (gaps: seq<string>, secrets: seq<string>)
    requires Covers(p, s, from, spans) && InOrder(s, from, spans)
    ensures |secrets| == |spans| && |gaps| == |spans| + 1
    ensures forall t :: t in secrets ==> p(t)
    ensures s[from..] == Interleave(gaps, secrets)
    ensures Replaced(s, from, spans) == Interleave(gaps, Copies(|spans|))
    decreases |spans|
  {
    if spans == [] {
      gaps, secrets := [s[from..]], [];
    } else {
      var m, rest := spans[0], spans[1..];
      var g, t := GapsFrom(p, s, m.end, rest);
      gaps, secrets := [s[from..m.start]] + g, [s[m.start..m.end]] + t;
      assert gaps[1..] == g && secrets[1..] == t;
      assert Copies(|spans|)[1..] == Copies(|rest|);
      assert s[from..] == s[from..m.start] + s[m.start..m.end] + s[m.end..];
    }
  }

  /** Replacing a pattern keeps every gap between its leftmost longest matches, in order, and
      puts one placeholder for each of the matches. */
  lemma GapsSurvive(p: Pattern, s: string, spans: seq<Span>) returns (gaps: seq<string>, secrets: seq<string>)
    requires WellShaped(p) && Covers(p, s, 0, spans)
    ensures |secrets| == |spans| && |gaps| == |spans| + 1
    ensures forall t :: t in secrets ==> p(t)
    ensures s == Interleave(gaps, secrets)
    ensures ReplaceAll(p, s) == Interleave(gaps, Copies(|spans|))
  {
    CoversInOrder(p, s, 0, spans);
    SpansCover(p, s, 0);
    CoverIsUnique(p, s, 0, spans, Spans(p, s, 0));
    gaps, secrets := GapsFrom(p, s, 0, spans);
    assert s[0..] == s;
  }

  // ---- Text on the two sides of a separator is redacted apart ----

  /** w is u, a character that no match contains, and v. */
  predicate Split(w: string, u: string, c: char, v: string) {
    w == u + [c] + v && !IsMatchChar(c)
  }

  lemma CharsOf(w: string, u: string, c: char, v: string)
    requires Split(w, u, c, v)
    ensures |w| == |u| + 1 + |v| && w[|u|] == c
    ensures forall k :: 0 <= k < |u| ==> w[k] == u[k]
    ensures forall k :: 0 <= k < |v| ==> w[|u| + 1 + k] == v[k]
  {
  }

  lemma MatchLeft(p: Pattern, w: string, u: string, c: char, v: string, i: nat, j: nat)
    requires Split(w, u, c, v) && i <= j <= |u|
    ensures Matches(p, w, i, j) <==> Matches(p, u, i, j)
  {
    CharsOf(w, u, c, v);
    assert w[i..j] == u[i..j];
  }

  /** i and j are places in v, and i' and j' the same places in w. */
  lemma MatchRight(p: Pattern, w: string, u: string, c: char, v: string, i: nat, j: nat, i': nat, j': nat)
    requires Split(w, u, c, v) && i <= j <= |v| && i' == |u| + 1 + i && j' == |u| + 1 + j
    ensures Matches(p, w, i', j') <==> Matches(p, v, i, j)
  {
    CharsOf(w, u, c, v);
    assert w[i'..j'] == v[i..j];
  }

  lemma MatchSide(p: Pattern, w: string, u: string, c: char, v: string, i: nat, j: nat)
    requires Split(w, u, c, v) && WellShaped(p) && Matches(p, w, i, j)
    ensures i < j && (j <= |u| || |u| + 1 <= i)
  {
    CharsOf(w, u, c, v);
    MatchIsLong(p, w, i, j);
  }

  function Shift(spans: seq<Span>, d: nat): (r: seq<Span>)
    ensures |r| == |spans|
  {
    if spans == [] then [] else [Span(spans[0].start + d, spans[0].end + d)] + Shift(spans[1..], d)
  }

  lemma NoneInRight(p: Pattern, w: string, u: string, c: char, v: string, from: nat, to: nat, from': nat, to': nat)
    requires Split(w, u, c, v) && WellShaped(p) && NoMatchStartsIn(p, v, from, to)
    requires from' == |u| + 1 + from && to' == |u| + 1 + to
    ensures NoMatchStartsIn(p, w, from', to')
  {
    forall a: nat, b: nat | from' <= a < to'
      ensures !Matches(p, w, a, b)
    {
      if Matches(p, w, a, b) {
        MatchRight(p, w, u, c, v, a - |u| - 1, b - |u| - 1, a, b);
      }
    }
  }

  lemma NoneInLeft(p: Pattern, w: string, u: string, c: char, v: string, from: nat, to: nat)
    requires Split(w, u, c, v) && WellShaped(p) && NoMatchStartsIn(p, u, from, to) && to <= |u|
    ensures NoMatchStartsIn(p, w, from, to)
    ensures to == |u| ==> NoMatchStartsIn(p, w, from, |u| + 1)
  {
    forall a: nat, b: nat | from <= a <= to && (a < to || to == |u|)
      ensures !Matches(p, w, a, b)
    {
      if Matches(p, w, a, b) {
        MatchSide(p, w, u, c, v, a, b);
        MatchLeft(p, w, u, c, v, a, b);
      }
    }
  }

  lemma LongestRight(p: Pattern, w: string, u: string, c: char, v: string, m: Span, start: nat, end: nat)
    requires Split(w, u, c, v) && m.start <= |v| && forall b: nat :: Matches(p, v, m.start, b) ==> b <= m.end
    requires start == |u| + 1 + m.start && end == |u| + 1 + m.end
    ensures forall b: nat :: Matches(p, w, start, b) ==> b <= end
  {
    forall b: nat | Matches(p, w, start, b)
      ensures b <= end
    {
      MatchRight(p, w, u, c, v, m.start, b - |u| - 1, start, b);
    }
  }

  lemma LongestLeft(p: Pattern, w: string, u: string, c: char, v: string, m: Span)
    requires Split(w, u, c, v) && WellShaped(p) && m.start <= |u|
    requires forall b: nat :: Matches(p, u, m.start, b) ==> b <= m.end
    ensures forall b: nat :: Matches(p, w, m.start, b) ==> b <= m.end
  {
    forall b: nat | Matches(p, w, m.start, b)
      ensures b <= m.end
    {
      MatchSide(p, w, u, c, v, m.start, b);
      MatchLeft(p, w, u, c, v, m.start, b);
    }
  }

  /** Covers on a list of spans of which the first is known. */
  lemma CoversFirst(p: Pattern, s: string, from: nat, m: Span, rest: seq<Span>)
    requires from <= m.start < m.end <= |s| && Matches(p, s, m.start, m.end) && NoMatchStartsIn(p, s, from, m.start)
    requires (forall b: nat :: Matches(p, s, m.start, b) ==> b <= m.end) && Covers(p, s, m.end, rest)
    ensures Covers(p, s, from, [m] + rest)
  {
    TailOfCons(m, rest);
  }

  lemma ShiftFirst(m: Span, rest: seq<Span>, d: nat)
    ensures Shift([m] + rest, d) == [Span(m.start + d, m.end + d)] + Shift(rest, d)
  {
    TailOfCons(m, rest);
  }

  lemma CoversFirstOnly(p: Pattern, s: string, from: nat, m: Span, rest: seq<Span>)
    requires Covers(p, s, from, [m] + rest)
    ensures from <= m.start < m.end <= |s| && Matches(p, s, m.start, m.end) && NoMatchStartsIn(p, s, from, m.start)
    ensures (forall b: nat :: Matches(p, s, m.start, b) ==> b <= m.end) && Covers(p, s, m.end, rest)
  {
    TailOfCons(m, rest);
  }

  lemma RightFacts(p: Pattern, w: string, u: string, c: char, v: string, from: nat, m: Span,
                   there: nat, start: nat, end: nat)
    requires Split(w, u, c, v) && WellShaped(p) && from <= m.start < m.end <= |v|
    requires Matches(p, v, m.start, m.end) && NoMatchStartsIn(p, v, from, m.start)
    requires there == |u| + 1 + from && start == |u| + 1 + m.start && end == |u| + 1 + m.end
    ensures end <= |w| && Matches(p, w, start, end) && NoMatchStartsIn(p, w, there, start)
  {
    CharsOf(w, u, c, v);
    NoneInRight(p, w, u, c, v, from, m.start, there, start);
    MatchRight(p, w, u, c, v, m.start, m.end, start, end);
  }

  lemma CoverRight(p: Pattern, w: string, u: string, c: char, v: string, from: nat, m: Span, rest: seq<Span>,
                   there: nat, moved: Span, shifted: seq<Span>)
    requires Split(w, u, c, v) && WellShaped(p) && Covers(p, v, from, [m] + rest) && there == |u| + 1 + from
    requires moved.start == |u| + 1 + m.start && moved.end == |u| + 1 + m.end && Covers(p, w, moved.end, shifted)
    ensures Covers(p, w, there, [moved] + shifted)
  {
    CoversFirstOnly(p, v, from, m, rest);
    RightFacts(p, w, u, c, v, from, m, there, moved.start, moved.end);
    LongestRight(p, w, u, c, v, m, moved.start, moved.end);
    CoversFirst(p, w, there, moved, shifted);
  }

  lemma {:induction false} CoversRight(p: Pattern, w: string, u: string, c: char, v: string, from: nat,
                                       spans: seq<Span>)
    requires Split(w, u, c, v) && WellShaped(p) && Covers(p, v, from, spans)
    ensures Covers(p, w, |u| + 1 + from, Shift(spans, |u| + 1))
    decreases |spans|
  {
    var d := |u| + 1;
    if spans == [] {
      NoneInRight(p, w, u, c, v, from, |v|, d + from, |w|);
    } else {
      var m, rest := spans[0], spans[1..];
      HeadTail(spans);
      ShiftFirst(m, rest, d);
      CoversRight(p, w, u, c, v, m.end, rest);
      CoverRight(p, w, u, c, v, from, m, rest, d + from, Span(m.start + d, m.end + d), Shift(rest, d));
    }
  }

  lemma CoversEarlier(p: Pattern, s: string, from: nat, later: nat, spans: seq<Span>)
    requires Covers(p, s, later, spans) && from <= later && NoMatchStartsIn(p, s, from, later)
    ensures Covers(p, s, from, spans)
  {
  }

  lemma {:induction false} CoversBoth(p: Pattern, w: string, u: string, c: char, v: string, from: nat,
                                      left: seq<Span>, right: seq<Span>)
    requires Split(w, u, c, v) && WellShaped(p) && Covers(p, u, from, left) && Covers(p, v, 0, right)
    ensures Covers(p, w, from, left + Shift(right, |u| + 1))
    decreases |left|
  {
    var shifted := Shift(right, |u| + 1);
    if left == [] {
      CoversRight(p, w, u, c, v, 0, right);
      NoneInLeft(p, w, u, c, v, from, |u|);
      CoversEarlier(p, w, from, |u| + 1, shifted);
      assert left + shifted == shifted;
    } else {
      var m, rest := left[0], left[1..];
      CoversBoth(p, w, u, c, v, m.end, rest, right);
      CharsOf(w, u, c, v);
      NoneInLeft(p, w, u, c, v, from, m.start);
      MatchLeft(p, w, u, c, v, m.start, m.end);
      LongestLeft(p, w, u, c, v, m);
      CoversFirst(p, w, from, m, rest + shifted);
      HeadTail(left);
      Assoc([m], rest, shifted);
    }
  }

  lemma SliceLeft(w: string, u: string, c: char, v: string, i: nat, j: nat)
    requires Split(w, u, c, v) && i <= j <= |u|
    ensures |w| == |u| + 1 + |v| && w[i..j] == u[i..j] && w[i..|u| + 1] == u[i..] + [c]
  {
    CharsOf(w, u, c, v);
  }

  lemma SliceRight(w: string, d: nat, v: string, i: nat, j: nat, i': nat, j': nat)
    requires d <= |w| && w[d..] == v && i <= j <= |v| && i' == d + i && j' == d + j
    ensures w[i'..j'] == v[i..j]
  {
  }

  /** Replaced on a list of spans of which the first is known. */
  lemma ReplacedFirst(s: string, from: nat, m: Span, rest: seq<Span>)
    requires from <= m.start < m.end <= |s| && InOrder(s, m.end, rest)
    ensures InOrder(s, from, [m] + rest)
    ensures Replaced(s, from, [m] + rest) == s[from..m.start] + PLACEHOLDER + Replaced(s, m.end, rest)
  {
    TailOfCons(m, rest);
  }

  lemma ReplacedNone(s: string, from: nat)
    requires from <= |s|
    ensures InOrder(s, from, []) && Replaced(s, from, []) == s[from..|s|]
  {
  }

  lemma ReplacedSame(v: string, from: nat, m: Span, rest: seq<Span>, w: string, there: nat, moved: Span,
                     shifted: seq<Span>)
    requires from <= m.start < m.end <= |v| && InOrder(v, m.end, rest)
    requires there <= moved.start < moved.end <= |w| && InOrder(w, moved.end, shifted)
    requires w[there..moved.start] == v[from..m.start] && Replaced(w, moved.end, shifted) == Replaced(v, m.end, rest)
    ensures InOrder(v, from, [m] + rest) && InOrder(w, there, [moved] + shifted)
    ensures Replaced(w, there, [moved] + shifted) == Replaced(v, from, [m] + rest)
  {
    ReplacedFirst(v, from, m, rest);
    ReplacedFirst(w, there, moved, shifted);
  }

  lemma {:induction false} ReplacedRight(w: string, d: nat, v: string, from: nat, there: nat, spans: seq<Span>)
    requires d <= |w| && w[d..] == v && InOrder(v, from, spans) && there == d + from
    ensures InOrder(w, there, Shift(spans, d))
    ensures Replaced(w, there, Shift(spans, d)) == Replaced(v, from, spans)
    decreases |spans|
  {
    if spans == [] {
      SliceRight(w, d, v, from, |v|, there, |w|);
      ReplacedNone(w, there);
    } else {
      var m, rest, moved := spans[0], spans[1..], Span(spans[0].start + d, spans[0].end + d);
      HeadTail(spans);
      ShiftFirst(m, rest, d);
      ReplacedRight(w, d, v, m.end, moved.end, rest);
      SliceRight(w, d, v, from, m.start, there, moved.start);
      ReplacedSame(v, from, m, rest, w, there, moved, Shift(rest, d));
    }
  }

  lemma {:induction false} ReplacedBoth(w: string, u: string, c: char, v: string, from: nat,
                                        left: seq<Span>, right: seq<Span>)
    requires Split(w, u, c, v) && InOrder(u, from, left) && InOrder(v, 0, right)
    ensures InOrder(w, from, left + Shift(right, |u| + 1))
    ensures Replaced(w, from, left + Shift(right, |u| + 1)) == Replaced(u, from, left) + [c] + Replaced(v, 0, right)
    decreases |left|
  {
    var shifted := Shift(right, |u| + 1);
    if left == [] {
      CharsOf(w, u, c, v);
      ReplacedRight(w, |u| + 1, v, 0, |u| + 1, right);
      SliceLeft(w, u, c, v, from, |u|);
      ReplacedEarlier(w, from, |u| + 1, shifted);
      ReplacedNone(u, from);
      assert left + shifted == shifted;
    } else {
      var m, rest := left[0], left[1..];
      HeadTail(left);
      ReplacedBoth(w, u, c, v, m.end, rest, right);
      SliceLeft(w, u, c, v, from, m.start);
      ReplacedFirst(u, from, m, rest);
      ReplacedFirst(w, from, m, rest + shifted);
      Assoc([m], rest, shifted);
      Assoc(u[from..m.start] + PLACEHOLDER, Replaced(u, m.end, rest), [c]);
      Assoc(u[from..m.start] + PLACEHOLDER, Replaced(u, m.end, rest) + [c], Replaced(v, 0, right));
    }
  }

  lemma SliceSplit(s: string, from: nat, mid: nat, to: nat)
    requires from <= mid <= to <= |s|
    ensures s[from..to] == s[from..mid] + s[mid..to]
  {
  }

  lemma ReplacedEarlier(s: string, from: nat, later: nat, spans: seq<Span>)
    requires InOrder(s, later, spans) && from <= later
    ensures InOrder(s, from, spans) && Replaced(s, from, spans) == s[from..later] + Replaced(s, later, spans)
  {
    if spans == [] {
      SliceSplit(s, from, later, |s|);
      ReplacedNone(s, from);
      ReplacedNone(s, later);
    } else {
      var m, rest := spans[0], spans[1..];
      HeadTail(spans);
      ReplacedFirst(s, from, m, rest);
      ReplacedFirst(s, later, m, rest);
      SliceSplit(s, from, later, m.start);
      Assoc(s[from..later], s[later..m.start], PLACEHOLDER);
      Assoc(s[from..later], s[later..m.start] + PLACEHOLDER, Replaced(s, m.end, rest));
    }
  }

  lemma ReplaceAllApart(p: Pattern, u: string, c: char, v: string)
    requires WellShaped(p) && !IsMatchChar(c)
    ensures ReplaceAll(p, u + [c] + v) == ReplaceAll(p, u) + [c] + ReplaceAll(p, v)
  {
    var w, left, right := u + [c] + v, Spans(p, u, 0), Spans(p, v, 0);
    SpansCover(p, u, 0);
    SpansCover(p, v, 0);
    SpansCover(p, w, 0);
    CoversInOrder(p, u, 0, left);
    CoversInOrder(p, v, 0, right);
    CoversBoth(p, w, u, c, v, 0, left, right);
    CoverIsUnique(p, w, 0, Spans(p, w, 0), left + Shift(right, |u| + 1));
    ReplacedBoth(w, u, c, v, 0, left, right);
  }

  lemma {:induction false} ReplaceEachApart(ps: seq<Pattern>, u: string, c: char, v: string)
    requires AllWellShaped(ps) && !IsMatchChar(c)
    ensures ReplaceEach(ps, u + [c] + v) == ReplaceEach(ps, u) + [c] + ReplaceEach(ps, v)
  {
    if ps != [] {
      var n := |ps| - 1;
      ReplaceEachApart(ps[..n], u, c, v);
      ReplaceAllApart(ps[n], ReplaceEach(ps[..n], u), c, ReplaceEach(ps[..n], v));
    }
  }

  // ---- All of the text outside the secrets survives ----

  lemma {:induction false} InterleaveJoin(ga: seq<string>, ta: seq<string>, t: string, gb: seq<string>, tb: seq<string>)
    requires |ga| == |ta| + 1 && |gb| == |tb| + 1
    ensures Interleave(ga + gb, ta + [t] + tb) == Interleave(ga, ta) + t + Interleave(gb, tb)
    decreases |ta|
  {
    var gaps, secrets := ga + gb, ta + [t] + tb;
    if ta == [] {
      assert gaps[1..] == gb && secrets[1..] == tb;
    } else {
      InterleaveJoin(ga[1..], ta[1..], t, gb, tb);
      assert gaps[1..] == ga[1..] + gb && secrets[1..] == ta[1..] + [t] + tb;
      JoinStep(ga[0] + ta[0], Interleave(ga[1..], ta[1..]), t, Interleave(gb, tb));
    }
  }

  lemma JoinStep(a: string, b: string, c: string, d: string)
    ensures a + (b + c + d) == (a + b) + c + d
  {
  }

  lemma CopiesJoin(a: nat, b: nat)
    ensures Copies(a) + ["<redacted>"] + Copies(b) == Copies(a + 1 + b)
  {
  }

  lemma NothingInWord(p: Pattern)
    requires WellShaped(p)
    ensures ReplaceAll(p, "redacted") == "redacted"
  {
    var word := "redacted";
    assert word[0] == 'r';
    forall i: nat, j: nat | Matches(p, word, i, j)
      ensures false
    {
      MatchIsLong(p, word, i, j);
    }
    NothingToReplace(p, word);
  }

  /** A placeholder in the text stays, and the text on its two sides is replaced apart. */
  lemma ReplaceAround(p: Pattern, u: string, v: string)
    requires WellShaped(p)
    ensures ReplaceAll(p, u + "<redacted>" + v) == ReplaceAll(p, u) + "<redacted>" + ReplaceAll(p, v)
  {
    var word := "redacted";
    NothingInWord(p);
    ReplaceAllApart(p, u, '<', word + ['>'] + v);
    ReplaceAllApart(p, word, '>', v);
    Bracketed(u, v);
    Bracketed(ReplaceAll(p, u), ReplaceAll(p, v));
  }

  lemma Bracketed(u: string, v: string)
    ensures u + ['<'] + ("redacted" + ['>'] + v) == u + "<redacted>" + v
  {
    assert ['<'] + "redacted" + ['>'] == "<redacted>";
  }

  lemma InterleaveFirst(gaps: seq<string>, separators: seq<string>)
    requires separators != [] && |gaps| == |separators| + 1
    ensures Interleave(gaps, separators) == gaps[0] + separators[0] + Interleave(gaps[1..], separators[1..])
  {
  }

  lemma MaskedFirst(gaps: seq<string>, n: nat)
    requires n > 0 && |gaps| == n + 1
    ensures Interleave(gaps, Copies(n)) == gaps[0] + "<redacted>" + Interleave(gaps[1..], Copies(n - 1))
  {
    assert Copies(n)[1..] == Copies(n - 1);
    InterleaveFirst(gaps, Copies(n));
  }

  lemma MaskedJoin(ga: seq<string>, a: nat, gb: seq<string>, b: nat, count: nat)
    requires |ga| == a + 1 && |gb| == b + 1 && count == a + 1 + b
    ensures Interleave(ga, Copies(a)) + "<redacted>" + Interleave(gb, Copies(b)) == Interleave(ga + gb, Copies(count))
  {
    InterleaveJoin(ga, Copies(a), "<redacted>", gb, Copies(b));
    CopiesJoin(a, b);
  }

  lemma ReplaceJoined(p: Pattern, text: string, gap: string, rest: string, x: string, y: string)
    requires WellShaped(p) && text == gap + "<redacted>" + rest
    requires ReplaceAll(p, gap) == x && ReplaceAll(p, rest) == y
    ensures ReplaceAll(p, text) == x + "<redacted>" + y
  {
    ReplaceAround(p, gap, rest);
  }

  /** One more pattern: its matches lie in the gaps that are left. */
  lemma {:induction false} ReplaceInGaps(p: Pattern, gaps: seq<string>, secrets: seq<string>)
    returns (g: seq<string>, t: seq<string>)
    requires WellShaped(p) && |gaps| == |secrets| + 1
    ensures |g| == |t| + 1 && Interleave(g, t) == Interleave(gaps, secrets)
    ensures ReplaceAll(p, Interleave(gaps, Copies(|secrets|))) == Interleave(g, Copies(|t|))
    ensures forall x :: x in t ==> p(x) || x in secrets
    decreases |secrets|
  {
    SpansCover(p, gaps[0], 0);
    var ga, ta := GapsSurvive(p, gaps[0], Spans(p, gaps[0], 0));
    if secrets == [] {
      g, t := ga, ta;
    } else {
      var rest := secrets[1..];
      var gb, tb := ReplaceInGaps(p, gaps[1..], rest);
      g, t := ga + gb, ta + [secrets[0]] + tb;
      InterleaveJoin(ga, ta, secrets[0], gb, tb);
      InterleaveFirst(gaps, secrets);
      var text, after := Interleave(gaps, Copies(|secrets|)), Interleave(gaps[1..], Copies(|rest|));
      MaskedFirst(gaps, |secrets|);
      ReplaceJoined(p, text, gaps[0], after, Interleave(ga, Copies(|ta|)), Interleave(gb, Copies(|tb|)));
      MaskedJoin(ga, |ta|, gb, |tb|, |t|);
    }
  }

  lemma {:induction false} EachInGaps(ps: seq<Pattern>, s: string) returns (gaps: seq<string>, secrets: seq<string>)
    requires AllWellShaped(ps)
    ensures |gaps| == |secrets| + 1 && s == Interleave(gaps, secrets)
    ensures ReplaceEach(ps, s) == Interleave(gaps, Copies(|secrets|))
    ensures forall t :: t in secrets ==> exists p :: p in ps && p(t)
    decreases |ps|
  {
    if ps == [] {
      gaps, secrets := [s], [];
    } else {
      var n := |ps| - 1;
      var g, t := EachInGaps(ps[..n], s);
      gaps, secrets := ReplaceInGaps(ps[n], g, t);
    }
  }

  /** Redaction of any string: secrets in it, each a text of one of the four patterns, give
      way to one placeholder each, and all the text between them stays, in order. */
  lemma RedactedKeepsGaps(s: string) returns (gaps: seq<string>, secrets: seq<string>)
    ensures |gaps| == |secrets| + 1 && s == Interleave(gaps, secrets)
    ensures Redacted(s) == Interleave(gaps, Copies(|secrets|))
    ensures forall t :: t in secrets ==> IsSeed(t) || IsPublicKey(t) || IsJwt(t) || IsApiKey(t)
  {
    PatternsAreWellShaped();
    gaps, secrets := EachInGaps(PATTERNS, s);
  }

  /** Redaction is local: what stands on one side of a character that no secret contains has
      no influence on the other, and the character stays. */
  lemma RedactedApart(u: string, c: char, v: string)
    requires !IsMatchChar(c)
    ensures Redacted(u + [c] + v) == Redacted(u) + [c] + Redacted(v)
  {
    PatternsAreWellShaped();
    ReplaceEachApart(PATTERNS, u, c, v);
  }

  // ---- A secret in its context ----

  /** t is a secret of pattern number n, in which no pattern before it matches. */
  ghost predicate IsSecret(n: nat, t: string) {
    && n < |PATTERNS| && PATTERNS[n](t) && Matches(PATTERNS[n], t, 0, |t|)
    && forall q :: q in PATTERNS[..n] ==> NoMatch(q, t)
  }

  lemma {:induction false} PlaceholderStays(ps: seq<Pattern>, n: nat, t: string)
    requires AllWellShaped(ps) && n <= |ps| && ReplaceEach(ps[..n], t) == PLACEHOLDER
    requires forall q :: q in ps ==> NoMatch(q, PLACEHOLDER)
    ensures ReplaceEach(ps, t) == PLACEHOLDER
    decreases |ps|
  {
    if n == |ps| {
      assert ps[..n] == ps;
    } else {
      var init := ps[..|ps| - 1];
      assert init[..n] == ps[..n];
      PlaceholderStays(init, n, t);
      NothingToReplace(ps[|ps| - 1], PLACEHOLDER);
    }
  }

  /** A secret becomes the placeholder. */
  lemma SecretIsReplaced(n: nat, t: string)
    requires IsSecret(n, t)
    ensures Redacted(t) == "<redacted>"
  {
    PatternsAreWellShaped();
    NothingToReplaceEach(PATTERNS[..n], t);
    WholeMatchIsReplaced(PATTERNS[n], t);
    assert PATTERNS[..n + 1][..n] == PATTERNS[..n];
    assert ReplaceEach(PATTERNS[..n + 1], t) == PLACEHOLDER;
    PlaceholdersAreClean(PLACEHOLDER);
    PlaceholderStays(PATTERNS, n + 1, t);
  }

  lemma EmptyIsKept()
    ensures Redacted("") == ""
  {
    PatternsAreWellShaped();
    forall p, i: nat, j: nat | p in PATTERNS && Matches(p, "", i, j)
      ensures false
    {
      MatchIsLong(p, "", i, j);
    }
    UnchangedIffClean("");
  }

  /** Text that ends, or begins, with a character that no secret contains. */
  predicate EndsApart(u: string) {
    u == "" || !IsMatchChar(u[|u| - 1])
  }

  predicate BeginsApart(v: string) {
    v == "" || !IsMatchChar(v[0])
  }

  lemma AfterApart(u: string, t: string)
    requires EndsApart(u)
    ensures Redacted(u + t) == Redacted(u) + Redacted(t)
  {
    EmptyIsKept();
    if u == "" {
      assert u + t == t;
    } else {
      var init, c := u[..|u| - 1], u[|u| - 1];
      assert u == init + [c] + "" && u + t == init + [c] + t;
      RedactedApart(init, c, t);
      RedactedApart(init, c, "");
    }
  }

  lemma BeforeApart(t: string, v: string)
    requires BeginsApart(v)
    ensures Redacted(t + v) == Redacted(t) + Redacted(v)
  {
    EmptyIsKept();
    if v == "" {
      assert t + v == t;
    } else {
      var c, rest := v[0], v[1..];
      assert v == "" + [c] + rest && t + v == t + [c] + rest;
      RedactedApart(t, c, rest);
      RedactedApart("", c, rest);
    }
  }

  /** A secret among other text becomes the placeholder, and the other text is redacted as if
      it stood alone. */
  lemma SecretInContext(n: nat, u: string, secret: string, v: string)
    requires IsSecret(n, secret) && EndsApart(u) && BeginsApart(v)
    ensures Redacted(u + secret + v) == Redacted(u) + "<redacted>" + Redacted(v)
    ensures Clean(u) && Clean(v) ==> Redacted(u + secret + v) == u + "<redacted>" + v
  {
    SecretIsReplaced(n, secret);
    BeforeApart(u + secret, v);
    AfterApart(u, secret);
    UnchangedIffClean(u);
    UnchangedIffClean(v);
  }

  lemma NoSeedInPublicKey(t: string)
    requires IsPublicKey(t)
    ensures NoMatch(IsSeed, t)
  {
    forall i: nat, j: nat | i <= j <= |t| && |t[i..j]| == 56
      ensures t[i..j] == t
    {
    }
  }

  /** Seeds and public keys are secrets whatever else they look like. */
  lemma KeysAreSecrets(t: string)
    requires IsSeed(t) || IsPublicKey(t)
    ensures Redacted(t) == "<redacted>"
  {
    var n := if IsSeed(t) then 0 else 1;
    assert forall k :: 0 <= k < |t| ==> IsWord(t[k]);
    assert t[0..|t|] == t;
    if IsPublicKey(t) {
      NoSeedInPublicKey(t);
    }
    SecretIsReplaced(n, t);
  }
}
