/** The few pieces of the Go language and its standard library that the SDK leans on:
    two's-complement int64 arithmetic, trimming and case folding of strings, and decimal
    integers. Strings are sequences of code points. */
module Go {
  import opened Collections

  datatype Option<+T> = None | Some(value: T)

  newtype byte = x: int | 0 <= x < 256

  const MIN_INT64: int := -0x8000_0000_0000_0000
  const MAX_INT64: int := 0x7fff_ffff_ffff_ffff
  const TWO_TO_THE_64: int := 0x1_0000_0000_0000_0000

  /** Durations are nanoseconds. */
  const MILLISECOND: int := 1_000_000
  const SECOND: int := 1_000_000_000

  predicate IsInt64(x: int) {
    MIN_INT64 <= x <= MAX_INT64
  }

  /** The int64 that x denotes after wrap-around. */
  function Wrap64(x: int): (r: int)
    ensures IsInt64(r)
    ensures IsInt64(x) ==> r == x
    ensures (x - r) % TWO_TO_THE_64 == 0
  {
    var u := x % TWO_TO_THE_64;
    if u <= MAX_INT64 then u else u - TWO_TO_THE_64
  }

  /** unicode.IsSpace */
  predicate IsSpace(c: char) {
    || '\t' <= c <= '\r' || c == ' ' || c == '\U{85}' || c == '\U{A0}' || c == '\U{1680}'
    || '\U{2000}' <= c <= '\U{200A}' || c == '\U{2028}' || c == '\U{2029}' || c == '\U{202F}'
    || c == '\U{205F}' || c == '\U{3000}'
  }

  function TrimLeft(s: string): (t: string)
    ensures |t| <= |s| && t == s[|s| - |t|..]
    ensures t != "" ==> !IsSpace(t[0])
    ensures forall i :: 0 <= i < |s| - |t| ==> IsSpace(s[i])
  {
    if s != "" && IsSpace(s[0]) then TrimLeft(s[1..]) else s
  }

  function TrimRight(s: string): (t: string)
    ensures |t| <= |s| && t == s[..|t|]
    ensures t != "" ==> !IsSpace(t[|t| - 1])
    ensures forall i :: |t| <= i < |s| ==> IsSpace(s[i])
  {
    if s != "" && IsSpace(s[|s| - 1]) then TrimRight(s[..|s| - 1]) else s
  }

  function TrimSpace(s: string): string {
    TrimRight(TrimLeft(s))
  }

  predicate AllSpaces(s: string) {
    forall i :: 0 <= i < |s| ==> IsSpace(s[i])
  }

  lemma TrimLeftTrims(s: string) returns (l: string)
    ensures AllSpaces(l) && s == l + TrimLeft(s)
  {
    l := s[..|s| - |TrimLeft(s)|];
  }

  lemma TrimRightTrims(s: string) returns (r: string)
    ensures AllSpaces(r) && s == TrimRight(s) + r
    ensures TrimRight(s) != "" ==> TrimRight(s)[0] == s[0]
  {
    r := s[|TrimRight(s)|..];
  }

  /** Trimming takes nothing but white space, and takes all of it at both ends. */
  lemma TrimSpaceTrims(s: string) returns (l: string, r: string)
    ensures AllSpaces(l) && AllSpaces(r) && s == l + TrimSpace(s) + r
    ensures TrimSpace(s) != "" ==> !IsSpace(TrimSpace(s)[0]) && !IsSpace(TrimSpace(s)[|TrimSpace(s)| - 1])
  {
    var left := TrimLeft(s);
    l := TrimLeftTrims(s);
    r := TrimRightTrims(left);
    Assoc(l, TrimRight(left), r);
  }

  lemma TrimLeftFirst(s: string, rest: string)
    requires s != "" && IsSpace(s[0]) && s[1..] == rest
    ensures TrimLeft(s) == TrimLeft(rest)
  {
  }

  lemma {:induction false} TrimLeftDrops(l: string, t: string)
    requires AllSpaces(l)
    ensures TrimLeft(l + t) == TrimLeft(t)
  {
    if l == "" {
      assert l + t == t;
    } else {
      HeadTail(l);
      Assoc([l[0]], l[1..], t);
      TailOfCons(l[0], l[1..] + t);
      TrimLeftFirst(l + t, l[1..] + t);
      TrimLeftDrops(l[1..], t);
    }
  }

  lemma {:induction false} TrimRightDrops(t: string, r: string)
    requires AllSpaces(r)
    ensures TrimRight(t + r) == TrimRight(t)
  {
    if r == "" {
      assert t + r == t;
    } else {
      TrimRightDrops(t, r[..|r| - 1]);
      assert (t + r)[..|t + r| - 1] == t + r[..|r| - 1];
    }
  }

  lemma TrimLeftStops(s: string)
    requires s != "" && !IsSpace(s[0])
    ensures TrimLeft(s) == s
  {
  }

  lemma TrimRightStops(s: string)
    requires s != "" && !IsSpace(s[|s| - 1])
    ensures TrimRight(s) == s
  {
  }

  /** White space around a text is all that trimming takes. */
  lemma TrimSpaceOf(l: string, t: string, r: string)
    requires AllSpaces(l) && AllSpaces(r) && t != "" && !IsSpace(t[0]) && !IsSpace(t[|t| - 1])
    ensures TrimSpace(l + t + r) == t
  {
    Assoc(l, t, r);
    TrimLeftDrops(l, t + r);
    TrimLeftStops(t + r);
    TrimRightDrops(t, r);
    TrimRightStops(t);
  }

  /** A string whose ends are not spaces is left alone. */
  lemma TrimSpaceFixes(s: string)
    requires s != "" ==> !IsSpace(s[0]) && !IsSpace(s[|s| - 1])
    ensures TrimSpace(s) == s
  {
  }

  /** unicode.ToLower, exact for every code point whose lower case is ASCII; any other
      code point keeps a non-ASCII image, here itself. */
  function LowerChar(c: char): char {
    if 'A' <= c <= 'Z' then c - 'A' + 'a'
    else if c == '\U{130}' then 'i'
    else if c == '\U{212A}' then 'k'
    else c
  }

  /** unicode.ToUpper, with the same precision. */
  function UpperChar(c: char): char {
    if 'a' <= c <= 'z' then c - 'a' + 'A'
    else if c == '\U{131}' then 'I'
    else if c == '\U{17F}' then 'S'
    else c
  }

  function ToLower(s: string): (r: string)
    ensures |r| == |s| && forall i :: 0 <= i < |s| ==> r[i] == LowerChar(s[i])
  {
    seq(|s|, i requires 0 <= i < |s| => LowerChar(s[i]))
  }

  function ToUpper(s: string): (r: string)
    ensures |r| == |s| && forall i :: 0 <= i < |s| ==> r[i] == UpperChar(s[i])
  {
    seq(|s|, i requires 0 <= i < |s| => UpperChar(s[i]))
  }

  predicate IsDigit(c: char) {
    '0' <= c <= '9'
  }

  predicate AllDigits(s: string) {
    forall i :: 0 <= i < |s| ==> IsDigit(s[i])
  }

  function DigitsToNat(s: string): nat
    requires AllDigits(s)
  {
    if s == "" then 0
    else DigitsToNat(s[..|s| - 1]) * 10 + (s[|s| - 1] as int - '0' as int)
  }

  function NatToDigits(n: nat): (s: string)
    ensures s != "" && AllDigits(s)
    ensures |s| > 1 ==> s[0] != '0'
  {
    var last := ['0' + (n % 10) as char];
    if n < 10 then last else NatToDigits(n / 10) + last
  }

  /** strconv.ParseInt(s, 10, 64) */
  function ParseInt(s: string): Option<int> {
    var signed := s != "" && (s[0] == '+' || s[0] == '-');
    var digits := if signed then s[1..] else s;
    if digits == "" || !AllDigits(digits) then None
    else
      var magnitude: int := DigitsToNat(digits);
      var n := if s[0] == '-' then -magnitude else magnitude;
      if IsInt64(n) then Some(n) else None
  }

  /** fmt's %d */
  function FormatInt(n: int): string {
    if n < 0 then "-" + NatToDigits(-n) else NatToDigits(n)
  }

  lemma {:induction false} DigitsRoundTrip(n: nat)
    ensures DigitsToNat(NatToDigits(n)) == n
  {
    var s := NatToDigits(n);
    if n >= 10 {
      DigitsRoundTrip(n / 10);
      assert s[..|s| - 1] == NatToDigits(n / 10);
    } else {
      assert s[..|s| - 1] == "";
    }
  }

  /** Printing and reading back an int64 is the identity. */
  lemma ParseFormat(n: int)
    requires IsInt64(n)
    ensures ParseInt(FormatInt(n)) == Some(n)
  {
    DigitsRoundTrip(if n < 0 then -n else n);
    if n < 0 {
      assert FormatInt(n)[1..] == NatToDigits(-n);
    }
  }

  lemma FormatIsInjective(m: int, n: int)
    requires FormatInt(m) == FormatInt(n)
    ensures m == n
  {
    DigitsRoundTrip(if m < 0 then -m else m);
    DigitsRoundTrip(if n < 0 then -n else n);
    assert FormatInt(m)[0] == FormatInt(n)[0];
    assert m >= 0 ==> IsDigit(FormatInt(m)[0]);
    assert n >= 0 ==> IsDigit(FormatInt(n)[0]);
    if m < 0 {
      assert FormatInt(m)[1..] == NatToDigits(-m);
    }
    if n < 0 {
      assert FormatInt(n)[1..] == NatToDigits(-n);
    }
  }

  /** Decimal text uses only the sign and the digits. */
  lemma FormatAlphabet(n: int)
    ensures forall i :: 0 <= i < |FormatInt(n)| ==> IsDigit(FormatInt(n)[i]) || FormatInt(n)[i] == '-'
  {
  }
}
