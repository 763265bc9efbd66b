/** webhook.Verifier: the signed message, the check cascade and replay protection end to
    end. Instants are nanoseconds since 1 January of year 1, Go's internal epoch. */
module Webhook {
  import opened Go
  import opened Collections
  import ReplayCache

  const UNIX_TO_INTERNAL: int := 62135596800
  const DEFAULT_MAX_SKEW: int := 300 * SECOND
  const MAX_BODY_SIZE: nat := 2 * 1024 * 1024

  datatype VerifyError =
    | MissingSignature
    | MissingTimestamp
    | InvalidTimestamp
    | StaleTimestamp
    | BodyTooLarge
    | ReadFailed
    | BadSignature
    | Replay

  datatype Result<+T> = Ok(value: T) | Err(error: VerifyError)

  /** What Verify reads of a request. Absent headers read as the empty string; a
      contentLength of -1 means unknown; `broken` says that reading the body fails once
      its bytes are delivered. */
  datatype Request = Request(
    signature: string, timestamp: string, eventId: string,
    contentLength: int, body: seq<byte>, broken: bool)

  /** The verifier's secret and skew, and the keyed hash it uses (HMAC-SHA256). */
  datatype Config = Config(
    secret: seq<byte>, maxSkew: int, mac: (seq<byte>, seq<byte>) -> seq<byte>)
  {
    function Skew(): (d: int)
      ensures d > 0
    {
      if maxSkew <= 0 then DEFAULT_MAX_SKEW else maxSkew
    }

    /** skew * 2 in int64 arithmetic */
    function Ttl(): int {
      Wrap64(Skew() * 2)
    }
  }

  // ---- Time ----

  /** time.Unix(sec, 0): the offset to the internal epoch is added in int64. */
  function UnixTime(sec: int): int {
    Wrap64(sec + UNIX_TO_INTERNAL) * SECOND
  }

  /** Time.Sub: differences beyond int64 saturate. */
  function Sub(t: int, u: int): int {
    if t - u < MIN_INT64 then MIN_INT64 else if t - u > MAX_INT64 then MAX_INT64 else t - u
  }

  /** absDuration; negating the least int64 gives it back. */
  function AbsDuration(d: int): int {
    if d < 0 then Wrap64(-d) else d
  }

  predicate Fresh(skew: int, now: int, sec: int) {
    !(AbsDuration(Sub(now, UnixTime(sec))) > skew)
  }

  predicate Within(skew: int, now: int, sec: int) {
    -skew <= now - UnixTime(sec) <= skew
  }

  /** The skew check is the intended window, except that a timestamp at least 2^63 ns
      ahead of the clock also passes, and that the greatest skew admits everything. */
  lemma FreshIff(skew: int, now: int, sec: int)
    requires 0 < skew <= MAX_INT64
    ensures Fresh(skew, now, sec) <==>
            Within(skew, now, sec) || now - UnixTime(sec) <= MIN_INT64 || skew == MAX_INT64
  {
  }

  /** Seconds since 1970 are read exactly unless the shift to Go's epoch wraps. */
  lemma UnixTimeIsExactIff(sec: int)
    requires IsInt64(sec)
    ensures UnixTime(sec) == (sec + 62_135_596_800) * 1_000_000_000 <==> sec <= MAX_INT64 - 62_135_596_800
  {
  }

  /** A timestamp some 292 years ahead is not found stale. */
  lemma FarFutureIsFresh()
    ensures var sec, now := 11_000_000_000, (UNIX_TO_INTERNAL + 1_700_000_000) * SECOND;
            Fresh(DEFAULT_MAX_SKEW, now, sec) && !Within(DEFAULT_MAX_SKEW, now, sec)
  {
  }

  // ---- The signature ----

  function Ascii(s: string): (b: seq<byte>)
    requires forall i :: 0 <= i < |s| ==> s[i] < '\U{80}'
    ensures |b| == |s| && forall i :: 0 <= i < |s| ==> b[i] as int == s[i] as int
  {
    seq(|s|, i requires 0 <= i < |s| => s[i] as byte)
  }

  /** The bytes the MAC covers: the timestamp in decimal, a dot, the body. */
  function SignedMessage(ts: int, body: seq<byte>): seq<byte> {
    FormatAlphabet(ts);
    Ascii(FormatInt(ts)) + [46] + body
  }

  /** Two requests checked against the same message have the same timestamp and body. */
  lemma SignedMessageIsInjective(ts: int, body: seq<byte>, ts': int, body': seq<byte>)
    requires SignedMessage(ts, body) == SignedMessage(ts', body')
    ensures ts == ts' && body == body'
  {
    FormatAlphabet(ts);
    FormatAlphabet(ts');
    var s, s' := FormatInt(ts), FormatInt(ts');
    var m, m' := SignedMessage(ts, body), SignedMessage(ts', body');
    assert m[|s|] == 46 && m'[|s'|] == 46;
    assert forall i :: 0 <= i < |s| ==> m[i] == Ascii(s)[i] && m[i] != 46;
    assert forall i :: 0 <= i < |s'| ==> m'[i] == Ascii(s')[i] && m'[i] != 46;
    assert |s| == |s'|;
    assert forall i :: 0 <= i < |s| ==> s[i] as int == m[i] as int == m'[i] as int == s'[i] as int;
    assert s == s';
    FormatIsInjective(ts, ts');
    assert body == m[|s| + 1..];
    assert body' == m'[|s| + 1..];
  }

  /** The signed message is the decimal timestamp, a dot and the body, byte by byte. */
  lemma SignedMessageIs(ts: int, body: seq<byte>)
    ensures var m, s := SignedMessage(ts, body), FormatInt(ts);
      && |m| == |s| + 1 + |body| && m[|s|] == 46 && m[|s| + 1..] == body
      && forall i :: 0 <= i < |s| ==> m[i] as int == s[i] as int
  {
    FormatAlphabet(ts);
    var m, s := SignedMessage(ts, body), FormatInt(ts);
    assert forall i :: 0 <= i < |s| ==> m[i] == Ascii(s)[i];
  }

  function HexValue(c: char): (r: Option<int>)
    ensures r.Some? ==> 0 <= r.value < 16
  {
    if '0' <= c <= '9' then Some(c as int - '0' as int)
    else if 'a' <= c <= 'f' then Some(c as int - 'a' as int + 10)
    else if 'A' <= c <= 'F' then Some(c as int - 'A' as int + 10)
    else None
  }

  /** hex.DecodeString */
  function HexDecode(s: string): Option<seq<byte>> {
    if s == "" then Some([])
    else if |s| == 1 then None
    else
      var hi, lo, rest := HexValue(s[0]), HexValue(s[1]), HexDecode(s[2..]);
      if hi.Some? && lo.Some? && rest.Some? then Some([(16 * hi.value + lo.value) as byte] + rest.value)
      else None
  }

  /** A character is the digit v exactly if it is that digit in one of the two cases. */
  lemma HexValueIff(c: char, v: int)
    ensures HexValue(c) == Some(v) <==>
            0 <= v < 16 && (c == "0123456789abcdef"[v] || c == "0123456789ABCDEF"[v])
  {
  }

  /** s has two digits for each byte of b, the high one first. */
  predicate IsHexText(s: string, b: seq<byte>) {
    && |s| == 2 * |b|
    && forall i :: 0 <= i < |b| ==>
         HexValue(s[2 * i]) == Some(b[i] as int / 16) && HexValue(s[2 * i + 1]) == Some(b[i] as int % 16)
  }

  lemma HexTextTail(s: string, b: seq<byte>)
    requires |s| >= 2 && b != []
    ensures IsHexText(s, b) <==>
            && HexValue(s[0]) == Some(b[0] as int / 16) && HexValue(s[1]) == Some(b[0] as int % 16)
            && IsHexText(s[2..], b[1..])
  {
    var t, c := s[2..], b[1..];
    assert forall i :: 1 <= i < |b| ==> b[i] == c[i - 1];
    assert forall i :: 0 <= i < |c| ==> c[i] == b[i + 1];
    if |s| == 2 * |b| {
      assert forall i :: 0 <= i < |c| ==>
        c[i] == b[i + 1] && t[2 * i] == s[2 * (i + 1)] && t[2 * i + 1] == s[2 * (i + 1) + 1];
      assert forall i :: 1 <= i < |b| ==>
        b[i] == c[i - 1] && s[2 * i] == t[2 * (i - 1)] && s[2 * i + 1] == t[2 * (i - 1) + 1];
    }
  }

  lemma Nibbles(hi: int, lo: int, x: byte)
    requires 0 <= hi < 16 && 0 <= lo < 16
    ensures (16 * hi + lo) as byte == x <==> hi == x as int / 16 && lo == x as int % 16
  {
  }

  lemma SameCons<T>(x: T, s: seq<T>, b: seq<T>)
    requires b != []
    ensures [x] + s == b <==> x == b[0] && s == b[1..]
  {
    TailOfCons(x, s);
    HeadTail(b);
  }

  lemma HexDecodeTail(s: string, b: seq<byte>)
    requires |s| >= 2 && b != []
    ensures HexDecode(s) == Some(b) <==>
            && HexValue(s[0]) == Some(b[0] as int / 16) && HexValue(s[1]) == Some(b[0] as int % 16)
            && HexDecode(s[2..]) == Some(b[1..])
  {
    var hi, lo, rest := HexValue(s[0]), HexValue(s[1]), HexDecode(s[2..]);
    if hi.Some? && lo.Some? && rest.Some? {
      Nibbles(hi.value, lo.value, b[0]);
      SameCons((16 * hi.value + lo.value) as byte, rest.value, b);
    }
  }

  /** Decoding succeeds exactly on the texts that spell bytes, in either case. */
  lemma {:induction false} HexIff(s: string, b: seq<byte>)
    ensures HexDecode(s) == Some(b) <==> IsHexText(s, b)
    decreases |s|
  {
    if |s| >= 2 && b != [] {
      HexTextTail(s, b);
      HexDecodeTail(s, b);
      HexIff(s[2..], b[1..]);
    }
  }

  predicate VerifySignature(cfg: Config, body: seq<byte>, ts: int, hexSig: string) {
    var sig := HexDecode(hexSig);
    sig.Some? && sig.value == cfg.mac(cfg.secret, SignedMessage(ts, body))
  }

  // ---- The cascade ----

  /** io.ReadAll over a reader limited to one byte more than the cap. */
  function ReadBody(req: Request): Result<seq<byte>> {
    if |req.body| > MAX_BODY_SIZE then Ok(req.body[..MAX_BODY_SIZE + 1])
    else if req.broken then Err(ReadFailed)
    else Ok(req.body)
  }

  /** Everything Verify checks before it consults the replay cache. */
  function Screen(cfg: Config, req: Request, now: int): Result<seq<byte>> {
    if req.signature == "" then Err(MissingSignature)
    else if req.timestamp == "" then Err(MissingTimestamp)
    else
      var ts := ParseInt(TrimSpace(req.timestamp));
      if ts.None? then Err(InvalidTimestamp) else ScreenAt(cfg, req, now, ts.value)
  }

  function ScreenAt(cfg: Config, req: Request, now: int, ts: int): Result<seq<byte>> {
    if !Fresh(cfg.Skew(), now, ts) then Err(StaleTimestamp)
    else if req.contentLength > MAX_BODY_SIZE then Err(BodyTooLarge)
    else
      var body := ReadBody(req);
      if body.Err? then body
      else if |body.value| > MAX_BODY_SIZE then Err(BodyTooLarge)
      else if !VerifySignature(cfg, body.value, ts, req.signature) then Err(BadSignature)
      else body
  }

  predicate Whole(req: Request) {
    req.contentLength <= MAX_BODY_SIZE && |req.body| <= MAX_BODY_SIZE && !req.broken
  }

  predicate Signed(cfg: Config, req: Request, ts: int) {
    HexDecode(req.signature) == Some(cfg.mac(cfg.secret, SignedMessage(ts, req.body)))
  }

  lemma BodyIsWhole(req: Request)
    ensures Whole(req) <==>
            && req.contentLength <= MAX_BODY_SIZE
            && ReadBody(req).Ok? && |ReadBody(req).value| <= MAX_BODY_SIZE
    ensures Whole(req) ==> ReadBody(req) == Ok(req.body)
  {
  }

  lemma ScreenedAt(cfg: Config, req: Request, now: int, ts: int)
    ensures ScreenAt(cfg, req, now, ts).Ok? <==>
            Whole(req) && Fresh(cfg.Skew(), now, ts) && Signed(cfg, req, ts)
    ensures ScreenAt(cfg, req, now, ts).Ok? ==> ScreenAt(cfg, req, now, ts).value == req.body
  {
    BodyIsWhole(req);
    assert Signed(cfg, req, ts) <==> VerifySignature(cfg, req.body, ts, req.signature);
  }

  /** A request passes exactly when it carries a signature, its timestamp is an int64
      that the clock finds fresh, its body is whole, and the signature is the MAC of
      timestamp and body; what Verify then hands on is that body. */
  lemma ScreenedIsAuthentic(cfg: Config, req: Request, now: int)
    ensures Screen(cfg, req, now).Ok? <==>
            && req.signature != "" && Whole(req)
            && var ts := ParseInt(TrimSpace(req.timestamp));
               ts.Some? && Fresh(cfg.Skew(), now, ts.value) && Signed(cfg, req, ts.value)
    ensures Screen(cfg, req, now).Ok? ==> Screen(cfg, req, now).value == req.body
  {
    var ts := ParseInt(TrimSpace(req.timestamp));
    if req.timestamp == "" {
      assert TrimSpace("") == "" && ParseInt("") == None;
    } else if ts.Some? {
      ScreenedAt(cfg, req, now, ts.value);
    }
  }

  /** A request whose timestamp can be read, and lies less than 2^63 ns ahead, is found stale
      exactly if it carries a signature and the two instants are further apart than the skew;
      a skew that is not positive means five minutes. */
  lemma StaleIff(cfg: Config, req: Request, now: int, ts: int, skew: int, gap: int)
    requires req.timestamp != "" && ParseInt(TrimSpace(req.timestamp)) == Some(ts)
    requires cfg.maxSkew < MAX_INT64 && skew == if cfg.maxSkew > 0 then cfg.maxSkew else 300_000_000_000
    requires ts <= MAX_INT64 - 62_135_596_800 && gap == now - (ts + 62_135_596_800) * 1_000_000_000 > MIN_INT64
    ensures Screen(cfg, req, now) == Err(StaleTimestamp) <==> req.signature != "" && (gap < -skew || skew < gap)
    ensures Screen(cfg, req, now).Ok? ==> -skew <= gap <= skew
  {
    UnixTimeIsExactIff(ts);
    FreshIff(cfg.Skew(), now, ts);
  }

  /** StaleIff for whatever timestamp the request carries. */
  lemma SkewIsKept(cfg: Config, req: Request, now: int)
    ensures var ts := ParseInt(TrimSpace(req.timestamp));
            ts.Some? && req.timestamp != "" && ts.value <= MAX_INT64 - 62_135_596_800 && cfg.maxSkew < MAX_INT64 ==>
              var gap := now - (ts.value + 62_135_596_800) * 1_000_000_000;
              var skew := if cfg.maxSkew > 0 then cfg.maxSkew else 300_000_000_000;
              gap > MIN_INT64 ==>
                && (Screen(cfg, req, now).Ok? ==> -skew <= gap <= skew)
                && (Screen(cfg, req, now) == Err(StaleTimestamp) <==>
                      req.signature != "" && (gap < -skew || skew < gap))
  {
    var ts := ParseInt(TrimSpace(req.timestamp));
    if ts.Some? && req.timestamp != "" && ts.value <= MAX_INT64 - 62_135_596_800 && cfg.maxSkew < MAX_INT64 {
      var gap := now - (ts.value + 62_135_596_800) * 1_000_000_000;
      if gap > MIN_INT64 {
        StaleIff(cfg, req, now, ts.value, if cfg.maxSkew > 0 then cfg.maxSkew else 300_000_000_000, gap);
      }
    }
  }

  lemma ErrorAt(cfg: Config, req: Request, now: int, ts: int)
    ensures var r := ScreenAt(cfg, req, now, ts);
            r.Ok? || r.error in {StaleTimestamp, BodyTooLarge, ReadFailed, BadSignature}
  {
  }

  /** What each error says of the request; StaleTimestamp is what StaleIff says. */
  lemma ErrorIff(cfg: Config, req: Request, now: int, ts: Option<int>)
    requires ts == ParseInt(TrimSpace(req.timestamp))
    ensures Screen(cfg, req, now) == Err(MissingSignature) <==> req.signature == ""
    ensures Screen(cfg, req, now) == Err(MissingTimestamp) <==> req.signature != "" && req.timestamp == ""
    ensures Screen(cfg, req, now) == Err(InvalidTimestamp) <==>
            req.signature != "" && req.timestamp != "" && ts == None
    ensures Screen(cfg, req, now) != Err(Replay)
  {
    if req.signature == "" {
      assert Screen(cfg, req, now) == Err(MissingSignature);
    } else if req.timestamp == "" {
      assert Screen(cfg, req, now) == Err(MissingTimestamp);
    } else if ts.Some? {
      assert Screen(cfg, req, now) == ScreenAt(cfg, req, now, ts.value);
      ErrorAt(cfg, req, now, ts.value);
    } else {
      assert Screen(cfg, req, now) == Err(InvalidTimestamp);
    }
  }

  lemma LaterErrorIff(cfg: Config, req: Request, now: int, ts: int)
    requires req.signature != "" && req.timestamp != "" && ParseInt(TrimSpace(req.timestamp)) == Some(ts)
    requires Screen(cfg, req, now) != Err(StaleTimestamp)
    ensures Screen(cfg, req, now) == Err(BodyTooLarge) <==> req.contentLength > 0x20_0000 || |req.body| > 0x20_0000
    ensures Screen(cfg, req, now) == Err(ReadFailed) <==>
            req.contentLength <= 0x20_0000 && |req.body| <= 0x20_0000 && req.broken
    ensures Screen(cfg, req, now) == Err(BadSignature) <==>
            && req.contentLength <= 0x20_0000 && |req.body| <= 0x20_0000 && !req.broken
            && HexDecode(req.signature) != Some(cfg.mac(cfg.secret, SignedMessage(ts, req.body)))
  {
  }

  class Verifier {
    const cfg: Config
    const replay: ReplayCache.LRU?

    constructor (cfg: Config, replay: ReplayCache.LRU?)
      ensures this.cfg == cfg && this.replay == replay
    {
      this.cfg := cfg;
      this.replay := replay;
    }

    /** The checks before the replay cache, in their order. */
    method Check(req: Request, now: int) returns (r: Result<seq<byte>>)
      ensures r == Screen(cfg, req, now)
    {
      var sig := req.signature;
      if sig == "" {
        return Err(MissingSignature);
      }
      var tsHeader := req.timestamp;
      if tsHeader == "" {
        return Err(MissingTimestamp);
      }
      var ts := ParseInt(TrimSpace(tsHeader));
      if ts.None? {
        return Err(InvalidTimestamp);
      }
      var skew := cfg.maxSkew;
      if skew <= 0 {
        skew := DEFAULT_MAX_SKEW;
      }
      if AbsDuration(Sub(now, UnixTime(ts.value))) > skew {
        return Err(StaleTimestamp);
      }
      if req.contentLength > MAX_BODY_SIZE {
        return Err(BodyTooLarge);
      }
      var body := ReadBody(req);
      if body.Err? {
        return body;
      }
      if |body.value| > MAX_BODY_SIZE {
        return Err(BodyTooLarge);
      }
      if !VerifySignature(cfg, body.value, ts.value, sig) {
        return Err(BadSignature);
      }
      return body;
    }

    /** Verify, on one clock reading. Only a request that passes every other check and
        names an event reaches the cache, and it is accepted unless it is a replay. */
    method Verify(req: Request, now: int) returns (r: Result<seq<byte>>)
      requires replay != null ==> replay.Valid()
      modifies replay
      ensures replay != null ==> replay.Valid()
      ensures Screen(cfg, req, now).Err? ==> r == Screen(cfg, req, now)
      ensures replay != null && !ReachesCache(cfg, req, now) ==>
                unchanged(replay) && r == Screen(cfg, req, now)
      ensures replay == null ==> r == Screen(cfg, req, now)
      ensures var ts := ParseInt(TrimSpace(req.timestamp));
              ts.Some? && req.timestamp != "" && ts.value <= MAX_INT64 - 62_135_596_800 && cfg.maxSkew < MAX_INT64 ==>
                var gap := now - (ts.value + 62_135_596_800) * 1_000_000_000;
                var skew := if cfg.maxSkew > 0 then cfg.maxSkew else 300_000_000_000;
                gap > MIN_INT64 ==>
                  && (r.Ok? ==> -skew <= gap <= skew)
                  && (r == Err(StaleTimestamp) <==> req.signature != "" && (gap < -skew || skew < gap))
      ensures replay != null && ReachesCache(cfg, req, now) ==>
                var c := CallFor(cfg, Delivery(req, now));
                && replay.history == old(replay.history) + [c]
                && r == if ReplayCache.Replayed(replay.cap, old(replay.history), c)
                        then Err(Replay) else Ok(req.body)
      ensures replay != null ==>
                forall ds :: Calls(cfg, ds) == old(replay.history) ==>
                  var run := ds + [Delivery(req, now)];
                  && replay.history == Calls(cfg, run)
                  && (r.Ok? <==> Accepted(cfg, replay.cap, run, |ds|))
    {
      forall ds: seq<Delivery>
        ensures (ds + [Delivery(req, now)])[..|ds|] == ds
      {
      }
      ScreenedIsAuthentic(cfg, req, now);
      SkewIsKept(cfg, req, now);
      r := Check(req, now);
      if r.Err? {
        return;
      }
      var skew := if cfg.maxSkew <= 0 then DEFAULT_MAX_SKEW else cfg.maxSkew;
      if replay != null {
        var eid := req.eventId;
        if eid != "" {
          var seen := replay.Seen(eid, Wrap64(skew * 2), now);
          if seen {
            return Err(Replay);
          }
        }
      }
    }
  }

  // ---- Replay protection over a run of deliveries ----

  /** A request and the one clock reading of its Verify. */
  datatype Delivery = Delivery(req: Request, now: int)

  predicate ReachesCache(cfg: Config, req: Request, now: int) {
    Screen(cfg, req, now).Ok? && req.eventId != ""
  }

  function CallFor(cfg: Config, d: Delivery): ReplayCache.Call {
    ReplayCache.Call(d.req.eventId, d.now, cfg.Ttl())
  }

  /** The cache calls a run of deliveries makes. */
  function Calls(cfg: Config, ds: seq<Delivery>): (h: ReplayCache.History)
    ensures |h| <= |ds|
  {
    if ds == [] then []
    else
      var n := |ds| - 1;
      Calls(cfg, ds[..n]) +
      if ReachesCache(cfg, ds[n].req, ds[n].now) then [CallFor(cfg, ds[n])] else []
  }

  /** Delivery i of a run passes a verifier with a cache of the given capacity. */
  predicate Accepted(cfg: Config, cap: nat, ds: seq<Delivery>, i: nat)
    requires i < |ds|
  {
    && Screen(cfg, ds[i].req, ds[i].now).Ok?
    && (ds[i].req.eventId != "" ==>
          !ReplayCache.Replayed(cap, Calls(cfg, ds[..i]), CallFor(cfg, ds[i])))
  }

  /** The event ids other than k that reached the cache strictly between i and j. */
  function OtherEvents(cfg: Config, ds: seq<Delivery>, i: nat, j: nat, k: string): set<string>
    requires i < j <= |ds|
  {
    ReplayCache.OtherIds(Calls(cfg, ds[i + 1..j]), k)
  }

  lemma CallsSnoc(cfg: Config, ds: seq<Delivery>, d: Delivery)
    ensures Calls(cfg, ds + [d]) ==
            Calls(cfg, ds) + if ReachesCache(cfg, d.req, d.now) then [CallFor(cfg, d)] else []
  {
    assert (ds + [d])[..|ds|] == ds;
  }

  lemma {:induction false} CallsSplit(cfg: Config, a: seq<Delivery>, b: seq<Delivery>)
    ensures Calls(cfg, a + b) == Calls(cfg, a) + Calls(cfg, b)
  {
    if b == [] {
      assert a + b == a;
    } else {
      var init, last := b[..|b| - 1], b[|b| - 1];
      CallsSplit(cfg, a, init);
      ConcatLast(a, b);
      CallsSnoc(cfg, a + init, last);
      InitLast(b);
      CallsSnoc(cfg, init, last);
      Assoc(Calls(cfg, a), Calls(cfg, init), Calls(cfg, b)[|Calls(cfg, init)|..]);
    }
  }

  lemma CallsAround(cfg: Config, a: seq<Delivery>, d: Delivery, b: seq<Delivery>)
    requires ReachesCache(cfg, d.req, d.now)
    ensures Calls(cfg, a + [d] + b) == Calls(cfg, a) + [CallFor(cfg, d)] + Calls(cfg, b)
  {
    CallsSplit(cfg, a + [d], b);
    CallsSnoc(cfg, a, d);
  }

  lemma CallsAt(cfg: Config, ds: seq<Delivery>, i: nat, j: nat)
    requires i < j <= |ds| && ReachesCache(cfg, ds[i].req, ds[i].now)
    ensures Calls(cfg, ds[..j]) == Calls(cfg, ds[..i]) + [CallFor(cfg, ds[i])] + Calls(cfg, ds[i + 1..j])
  {
    SplitAt(ds, i, j);
    CallsAround(cfg, ds[..i], ds[i], ds[i + 1..j]);
  }

  /** Every cache call is made by some delivery of the run. */
  lemma {:induction false} CallOrigin(cfg: Config, ds: seq<Delivery>, f: nat)
    requires f < |Calls(cfg, ds)|
    ensures exists i :: 0 <= i < |ds| && Calls(cfg, ds)[f] == CallFor(cfg, ds[i]) && ds[i].req.eventId != ""
  {
    var n := |ds| - 1;
    if f < |Calls(cfg, ds[..n])| {
      CallOrigin(cfg, ds[..n], f);
      var i :| 0 <= i < n && Calls(cfg, ds[..n])[f] == CallFor(cfg, ds[..n][i]) && ds[..n][i].req.eventId != "";
      assert ds[..n][i] == ds[i];
    } else {
      assert Calls(cfg, ds)[f] == CallFor(cfg, ds[n]);
    }
  }

  ghost predicate ClockIsMonotone(ds: seq<Delivery>) {
    forall i, j :: 0 <= i <= j < |ds| ==> ds[i].now <= ds[j].now
  }

  function Timestamp(d: Delivery): Option<int> {
    ParseInt(TrimSpace(d.req.timestamp))
  }

  /** Two fresh readings against one timestamp are at most twice the skew apart. */
  lemma FreshReadings(skew: int, first: int, second: int, ts: int)
    requires 0 < skew < MAX_INT64 && first <= second
    requires Fresh(skew, first, ts) && Fresh(skew, second, ts)
    requires UnixTime(ts) - first < -MIN_INT64
    ensures second - first <= 2 * skew
  {
    FreshIff(skew, first, ts);
    FreshIff(skew, second, ts);
  }

  /** The two places where int64 gives out: doubling the skew, and subtracting a timestamp
      2^63 ns or more ahead of the clock. */
  predicate WithinInt64(skew: int, now: int, ts: int) {
    skew * 2 <= MAX_INT64 && UnixTime(ts) - now < -MIN_INT64
  }

  /** Delivery i is followed, on a monotone clock, by a second delivery of its event with
      its timestamp, and both are accepted. */
  ghost predicate Twice(cfg: Config, cap: nat, ds: seq<Delivery>, i: nat, j: nat, ts: int, first: int) {
    && i < j < |ds| && ClockIsMonotone(ds)
    && ds[i].req.eventId == ds[j].req.eventId != ""
    && Accepted(cfg, cap, ds, i) && Accepted(cfg, cap, ds, j)
    && Timestamp(ds[i]) == Timestamp(ds[j]) == Some(ts)
    && ds[i].now == first
  }

  /** What a second acceptance takes: cap other events reached the cache in between, or the
      two readings lie exactly twice the skew apart. */
  predicate Excused(cfg: Config, cap: nat, ds: seq<Delivery>, i: nat, j: nat)
    requires i < j < |ds|
  {
    || |OtherEvents(cfg, ds, i, j, ds[i].req.eventId)| >= cap
    || ds[j].now - ds[i].now == 2 * cfg.Skew()
  }

  /** The calls made between two deliveries carry the verifier's ttl and later readings. */
  lemma CallsBetween(cfg: Config, ds: seq<Delivery>, i: nat, j: nat)
    requires i < j < |ds| && ClockIsMonotone(ds)
    ensures forall c :: c in Calls(cfg, ds[i + 1..j]) ==> c.ttl == cfg.Ttl() && c.now >= ds[i].now
  {
    var later := ds[i + 1..j];
    forall c | c in Calls(cfg, later)
      ensures c.ttl == cfg.Ttl() && c.now >= ds[i].now
    {
      var f :| 0 <= f < |Calls(cfg, later)| && Calls(cfg, later)[f] == c;
      CallOrigin(cfg, later, f);
      var d :| 0 <= d < |later| && c == CallFor(cfg, later[d]);
      assert later[d] == ds[i + 1 + d];
    }
  }

  /** Two unanswered calls of one id, where all calls have one ttl and later readings. */
  lemma MissedTwice(cap: nat, h: ReplayCache.History, c: ReplayCache.Call, between: ReplayCache.History,
                    d: ReplayCache.Call)
    requires c.id == d.id && !ReplayCache.Replayed(cap, h, c)
    requires !ReplayCache.Replayed(cap, h + [c] + between, d)
    requires forall b :: b in between ==> b.ttl == c.ttl && b.now >= c.now
    ensures |ReplayCache.OtherIds(between, c.id)| >= cap || c.now + c.ttl <= d.now
  {
    ReplayCache.TwoMisses(cap, h, c, between, d);
  }

  /** Two acceptances of an event: the cache was flushed in between, or an entry written
      by then had run out. */
  lemma TwiceIsMissed(cfg: Config, cap: nat, ds: seq<Delivery>, i: nat, j: nat, ts: int, first: int)
    requires Twice(cfg, cap, ds, i, j, ts, first)
    ensures || |OtherEvents(cfg, ds, i, j, ds[i].req.eventId)| >= cap
            || ds[i].now + cfg.Ttl() <= ds[j].now
  {
    CallsAt(cfg, ds, i, j);
    CallsBetween(cfg, ds, i, j);
    MissedTwice(cap, Calls(cfg, ds[..i]), CallFor(cfg, ds[i]), Calls(cfg, ds[i + 1..j]), CallFor(cfg, ds[j]));
  }

  lemma FreshBoth(cfg: Config, cap: nat, ds: seq<Delivery>, i: nat, j: nat, ts: int, first: int)
    requires Twice(cfg, cap, ds, i, j, ts, first)
    ensures Fresh(cfg.Skew(), first, ts) && Fresh(cfg.Skew(), ds[j].now, ts)
  {
    ScreenedIsAuthentic(cfg, ds[i].req, ds[i].now);
    ScreenedIsAuthentic(cfg, ds[j].req, ds[j].now);
  }

  /** Where int64 does not give out, no event is accepted twice without an excuse. */
  lemma AcceptedTwice(cfg: Config, cap: nat, ds: seq<Delivery>, i: nat, j: nat, ts: int, first: int)
    requires Twice(cfg, cap, ds, i, j, ts, first)
    ensures Excused(cfg, cap, ds, i, j) || !WithinInt64(cfg.Skew(), first, ts)
  {
    if WithinInt64(cfg.Skew(), first, ts) {
      FreshBoth(cfg, cap, ds, i, j, ts, first);
      FreshReadings(cfg.Skew(), first, ds[j].now, ts);
      TwiceIsMissed(cfg, cap, ds, i, j, ts, first);
    }
  }

  /** The doubled skew is right exactly up to half of int64. */
  lemma TtlIsExactIff(cfg: Config)
    requires IsInt64(cfg.maxSkew)
    ensures cfg.Ttl() == 2 * cfg.Skew() <==> 2 * cfg.Skew() <= MAX_INT64
    ensures 2 * cfg.Skew() > MAX_INT64 ==> cfg.Ttl() < 0
  {
  }

  /** When the event does not recur in between, a second authentic delivery is accepted
      exactly if the cache was flushed by other events or the entry ran out. */
  lemma RedeliveryIff(cfg: Config, cap: nat, ds: seq<Delivery>, i: nat, j: nat)
    requires i < j < |ds|
    requires ds[i].req.eventId == ds[j].req.eventId != ""
    requires forall d :: i < d < j ==> ds[d].req.eventId != ds[i].req.eventId
    requires Accepted(cfg, cap, ds, i) && Screen(cfg, ds[j].req, ds[j].now).Ok?
    ensures Accepted(cfg, cap, ds, j) <==>
            || |OtherEvents(cfg, ds, i, j, ds[i].req.eventId)| >= cap
            || ds[i].now + cfg.Ttl() <= ds[j].now
  {
    CallsAt(cfg, ds, i, j);
    var between := Calls(cfg, ds[i + 1..j]);
    forall f | 0 <= f < |between|
      ensures between[f].id != ds[i].req.eventId
    {
      CallOrigin(cfg, ds[i + 1..j], f);
      var d :| 0 <= d < |ds[i + 1..j]| && between[f] == CallFor(cfg, ds[i + 1..j][d]);
      assert ds[i + 1..j][d] == ds[i + 1 + d];
    }
    ReplayCache.NextCallIff(cap, Calls(cfg, ds[..i]), CallFor(cfg, ds[i]), between, CallFor(cfg, ds[j]));
  }

  // ---- Exactly when an event may be accepted twice ----

  function HexDigit(n: nat): (c: char)
    requires n < 16
    ensures HexValue(c) == Some(n)
  {
    if n < 10 then '0' + n as char else 'a' + (n - 10) as char
  }

  /** hex.EncodeToString, as a sender would use it */
  function HexEncode(b: seq<byte>): (s: string)
    ensures s == "" <==> b == []
  {
    if b == [] then "" else [HexDigit(b[0] as nat / 16), HexDigit(b[0] as nat % 16)] + HexEncode(b[1..])
  }

  lemma HexPair(x: byte)
    ensures var n := x as nat; (16 * (n / 16) + n % 16) as byte == x
  {
  }

  lemma HexStep(s: string, hi: nat, lo: nat, rest: string, b: seq<byte>)
    requires hi < 16 && lo < 16 && s == [HexDigit(hi), HexDigit(lo)] + rest && HexDecode(rest) == Some(b)
    ensures HexDecode(s) == Some([(16 * hi + lo) as byte] + b)
  {
    assert s[0] == HexDigit(hi) && s[1] == HexDigit(lo) && s[2..] == rest;
  }

  lemma {:induction false} HexRoundTrip(b: seq<byte>)
    ensures HexDecode(HexEncode(b)) == Some(b)
  {
    if b != [] {
      var n := b[0] as nat;
      HexRoundTrip(b[1..]);
      HexStep(HexEncode(b), n / 16, n % 16, HexEncode(b[1..]), b[1..]);
      HexPair(b[0]);
      HeadTail(b);
    }
  }

  /** A request as its sender makes it: an empty body, signed at ts. */
  function SentAt(cfg: Config, ts: int): Request {
    Request(HexEncode(cfg.mac(cfg.secret, SignedMessage(ts, []))), FormatInt(ts), "evt-1", 0, [], false)
  }

  /** The hash of the message is not empty; that of HMAC-SHA256 has 32 bytes. */
  predicate Hashes(cfg: Config, ts: int) {
    cfg.mac(cfg.secret, SignedMessage(ts, [])) != []
  }

  lemma PrintedTimestamp(ts: int)
    requires IsInt64(ts)
    ensures ParseInt(TrimSpace(FormatInt(ts))) == Some(ts)
  {
    FormatAlphabet(ts);
    TrimSpaceFixes(FormatInt(ts));
    ParseFormat(ts);
  }

  lemma SentIsSigned(cfg: Config, ts: int)
    requires IsInt64(ts) && Hashes(cfg, ts)
    ensures var req := SentAt(cfg, ts);
      && req.signature != "" && Whole(req) && Signed(cfg, req, ts) && req.eventId != ""
      && ParseInt(TrimSpace(req.timestamp)) == Some(ts)
  {
    PrintedTimestamp(ts);
    HexRoundTrip(cfg.mac(cfg.secret, SignedMessage(ts, [])));
  }

  /** A request delivered twice in a row is accepted twice if it passes both times and its
      entry has run out by the second. */
  lemma AcceptedAgain(cfg: Config, cap: nat, ds: seq<Delivery>)
    requires |ds| == 2 && ds[0].req == ds[1].req && ds[0].req.eventId != ""
    requires Screen(cfg, ds[0].req, ds[0].now).Ok? && Screen(cfg, ds[1].req, ds[1].now).Ok?
    requires ds[0].now + cfg.Ttl() <= ds[1].now
    ensures Accepted(cfg, cap, ds, 0) && Accepted(cfg, cap, ds, 1)
  {
    FirstIsAccepted(cfg, cap, ds);
    RedeliveryIff(cfg, cap, ds, 0, 1);
  }

  lemma FirstIsAccepted(cfg: Config, cap: nat, ds: seq<Delivery>)
    requires ds != [] && Screen(cfg, ds[0].req, ds[0].now).Ok?
    ensures Accepted(cfg, cap, ds, 0)
  {
    assert Calls(cfg, ds[..0]) == [];
  }

  lemma PassesAt(cfg: Config, req: Request, ts: int, now: int)
    requires req.signature != "" && Whole(req) && Signed(cfg, req, ts)
    requires ParseInt(TrimSpace(req.timestamp)) == Some(ts) && Fresh(cfg.Skew(), now, ts)
    ensures Screen(cfg, req, now).Ok?
  {
    ScreenedIsAuthentic(cfg, req, now);
  }

  lemma PairIsMonotone(ds: seq<Delivery>)
    requires |ds| == 2 && ds[0].now <= ds[1].now
    ensures ClockIsMonotone(ds)
  {
  }

  lemma SameTimestamp(d: Delivery, e: Delivery)
    requires d.req == e.req
    ensures Timestamp(d) == Timestamp(e)
  {
  }

  lemma NothingBetween(cfg: Config, ds: seq<Delivery>, k: string)
    requires |ds| == 2
    ensures OtherEvents(cfg, ds, 0, 1, k) == {}
  {
    assert ds[1..1] == [];
  }

  lemma SentTwice(cfg: Config, cap: nat, ts: int, first: int, second: int) returns (ds: seq<Delivery>)
    requires IsInt64(ts) && Hashes(cfg, ts) && first <= second
    requires Fresh(cfg.Skew(), first, ts) && Fresh(cfg.Skew(), second, ts)
    requires first + cfg.Ttl() <= second
    ensures Twice(cfg, cap, ds, 0, 1, ts, first) && ds[0].now == first && ds[1].now == second
    ensures OtherEvents(cfg, ds, 0, 1, ds[0].req.eventId) == {}
  {
    var req := SentAt(cfg, ts);
    SentIsSigned(cfg, ts);
    ds := [Delivery(req, first), Delivery(req, second)];
    PassesAt(cfg, req, ts, first);
    PassesAt(cfg, req, ts, second);
    AcceptedAgain(cfg, cap, ds);
    PairIsMonotone(ds);
    SameTimestamp(ds[0], ds[1]);
    NothingBetween(cfg, ds, req.eventId);
  }

  /** A skew above half of int64 wraps when doubled, and no entry outlives its own instant:
      whatever passes is accepted again at once. */
  lemma WrappedSkewAcceptsReplay(cfg: Config, cap: nat, ts: int, now: int) returns (ds: seq<Delivery>)
    requires IsInt64(cfg.maxSkew) && 2 * cfg.Skew() > MAX_INT64
    requires IsInt64(ts) && Hashes(cfg, ts) && Fresh(cfg.Skew(), now, ts)
    ensures Twice(cfg, cap, ds, 0, 1, ts, now) && ds[1].now == now
    ensures OtherEvents(cfg, ds, 0, 1, ds[0].req.eventId) == {}
  {
    TtlIsExactIff(cfg);
    ds := SentTwice(cfg, cap, ts, now, now);
  }

  /** A timestamp 2^63 ns or more ahead passes, and passes again at the end of its window,
      long after its entry has run out. */
  lemma FarFutureAcceptsReplay(cfg: Config, cap: nat, ts: int, now: int) returns (ds: seq<Delivery>)
    requires 2 * cfg.Skew() <= MAX_INT64 && UnixTime(ts) - now >= -MIN_INT64
    requires IsInt64(ts) && Hashes(cfg, ts)
    ensures Twice(cfg, cap, ds, 0, 1, ts, now) && ds[1].now - now > 2 * cfg.Skew()
    ensures OtherEvents(cfg, ds, 0, 1, ds[0].req.eventId) == {}
  {
    var end := UnixTime(ts) + cfg.Skew();
    FreshIff(cfg.Skew(), now, ts);
    FreshIff(cfg.Skew(), end, ts);
    ds := SentTwice(cfg, cap, ts, now, end);
  }

  /** No run, from a first acceptance at the given reading on, accepts an event of that
      timestamp a second time without an excuse. */
  ghost predicate NeverTwice(cfg: Config, cap: nat, ts: int, first: int) {
    forall ds: seq<Delivery>, i: nat, j: nat :: Twice(cfg, cap, ds, i, j, ts, first) ==> Excused(cfg, cap, ds, i, j)
  }

  /** Replay protection holds over all runs exactly where int64 does not give out, or where
      nothing is accepted in the first place. */
  lemma NeverTwiceIff(cfg: Config, cap: nat, ts: int, first: int)
    requires cap >= 1 && IsInt64(cfg.maxSkew) && IsInt64(ts) && Hashes(cfg, ts)
    ensures NeverTwice(cfg, cap, ts, first) <==>
            WithinInt64(cfg.Skew(), first, ts) || !Fresh(cfg.Skew(), first, ts)
  {
    if WithinInt64(cfg.Skew(), first, ts) || !Fresh(cfg.Skew(), first, ts) {
      forall ds: seq<Delivery>, i: nat, j: nat | Twice(cfg, cap, ds, i, j, ts, first)
        ensures Excused(cfg, cap, ds, i, j)
      {
        FreshBoth(cfg, cap, ds, i, j, ts, first);
        AcceptedTwice(cfg, cap, ds, i, j, ts, first);
      }
    } else if 2 * cfg.Skew() > MAX_INT64 {
      var ds := WrappedSkewAcceptsReplay(cfg, cap, ts, first);
      RefutedBy(cfg, cap, ts, first, ds);
    } else {
      var ds := FarFutureAcceptsReplay(cfg, cap, ts, first);
      RefutedBy(cfg, cap, ts, first, ds);
    }
  }

  lemma RefutedBy(cfg: Config, cap: nat, ts: int, first: int, ds: seq<Delivery>)
    requires cap >= 1 && Twice(cfg, cap, ds, 0, 1, ts, first)
    requires OtherEvents(cfg, ds, 0, 1, ds[0].req.eventId) == {}
    requires ds[1].now - ds[0].now != 2 * cfg.Skew()
    ensures !NeverTwice(cfg, cap, ts, first)
  {
    assert !Excused(cfg, cap, ds, 0, 1);
  }

  /** The other excuse is met: a request is accepted at both ends of its window. */
  lemma AcceptedAtBothEnds(cfg: Config, cap: nat, ts: int) returns (ds: seq<Delivery>)
    requires 2 * cfg.Skew() <= MAX_INT64 && IsInt64(ts) && Hashes(cfg, ts)
    ensures Twice(cfg, cap, ds, 0, 1, ts, UnixTime(ts) - cfg.Skew())
    ensures ds[1].now - ds[0].now == 2 * cfg.Skew()
    ensures OtherEvents(cfg, ds, 0, 1, ds[0].req.eventId) == {}
  {
    var first, second := UnixTime(ts) - cfg.Skew(), UnixTime(ts) + cfg.Skew();
    FreshIff(cfg.Skew(), first, ts);
    FreshIff(cfg.Skew(), second, ts);
    ds := SentTwice(cfg, cap, ts, first, second);
  }
}
