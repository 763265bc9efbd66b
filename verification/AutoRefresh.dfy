/** One call of Ensure, uncontended: what it sends, what it changes, and what it returns.
    RefreshProtocol has the same steps under concurrency. */
module AutoRefresh {
  import opened Go
  import opened Tracks
  import opened TokenStore

  const DEFAULT_THRESHOLD: int := 5 * 60 * SECOND

  /** expiryFromExpiresIn. Multiplying the seconds into a Duration wraps. */
  function ExpiryFromExpiresIn(s: string, now: int): Option<int> {
    if s == "" then None
    else
      match ParseInt(TrimSpace(s))
      case None => None
      case Some(n) => if n <= 0 then None else Some(now + Wrap64(n * SECOND))
  }

  /** The longest lifetime, in seconds, that a Duration holds: some 292 years. */
  const MAX_SECONDS: int := MAX_INT64 / SECOND

  lemma PrintedLifetime(n: int, now: int)
    requires IsInt64(n)
    ensures ExpiryFromExpiresIn(FormatInt(n), now) == if n > 0 then Some(now + Wrap64(n * SECOND)) else None
  {
    FormatAlphabet(n);
    TrimSpaceFixes(FormatInt(n));
    ParseFormat(n);
  }

  lemma WrapIsExact(x: int)
    ensures Wrap64(x) == x <==> IsInt64(x)
  {
  }

  /** The expiry is that many seconds ahead exactly when the lifetime fits a Duration; a
      longer one is accepted and wraps, and one that is not positive is refused. */
  lemma ExpiryIsExactIff(n: int, now: int)
    requires IsInt64(n)
    ensures ExpiryFromExpiresIn(FormatInt(n), now).Some? <==> n > 0
    ensures ExpiryFromExpiresIn(FormatInt(n), now) == Some(now + n * SECOND) <==> 0 < n <= MAX_SECONDS
  {
    PrintedLifetime(n, now);
    WrapIsExact(n * SECOND);
  }

  /** The expiry of a lifetime printed as a number of seconds that fits. */
  ghost predicate LastsAsSaid(seconds: string, now: int, expiresAt: int) {
    forall n :: 0 < n <= 9_223_372_036 && seconds == FormatInt(n) ==> expiresAt == now + n * 1_000_000_000
  }

  lemma ExpiryAsSaid(seconds: string, now: int)
    requires ExpiryFromExpiresIn(seconds, now).Some?
    ensures LastsAsSaid(seconds, now, ExpiryFromExpiresIn(seconds, now).value)
  {
    forall n | 0 < n <= MAX_SECONDS && seconds == FormatInt(n)
      ensures ExpiryFromExpiresIn(seconds, now) == Some(now + n * SECOND)
    {
      ExpiryIsExactIff(n, now);
    }
  }

  lemma PositiveIsDigits(t: string)
    requires ParseInt(t).Some? && ParseInt(t).value > 0
    ensures t != "" && IsDigit(t[|t| - 1]) && forall i :: 0 <= i < |t| ==> IsDigit(t[i]) || t[i] == '+'
  {
    if t[0] == '+' {
      assert forall i :: 1 <= i < |t| ==> t[i] == t[1..][i - 1];
    }
  }

  lemma DigitsAndSpaces(l: string, t: string, r: string)
    requires AllSpaces(l) && AllSpaces(r) && t != "" && IsDigit(t[|t| - 1])
    requires forall i :: 0 <= i < |t| ==> IsDigit(t[i]) || t[i] == '+'
    ensures var s := l + t + r;
            && (exists i :: 0 <= i < |s| && IsDigit(s[i]))
            && forall i :: 0 <= i < |s| ==> IsSpace(s[i]) || IsDigit(s[i]) || s[i] == '+'
  {
    assert (l + t + r)[|l| + |t| - 1] == t[|t| - 1];
  }

  /** Only digits after an optional plus sign, with white space around, are a lifetime. */
  lemma LifetimeIsANumber(s: string, now: int)
    requires ExpiryFromExpiresIn(s, now).Some?
    ensures exists i :: 0 <= i < |s| && IsDigit(s[i])
    ensures forall i :: 0 <= i < |s| ==> IsSpace(s[i]) || IsDigit(s[i]) || s[i] == '+'
  {
    var l, r := TrimSpaceTrims(s);
    var t := TrimSpace(s);
    PositiveIsDigits(t);
    DigitsAndSpaces(l, t, r);
  }

  /** Upstream's answer to a refresh request. */
  datatype Reply = Tokens(idToken: Bytes, refreshToken: Bytes, expiresIn: string) | PostFailed

  datatype EnsureError = Store(e: StoreError) | WrongTrack | Upstream | BadExpiry

  /** What the session holds after a reply that was accepted. */
  ghost predicate Brought(track: Track, reply: Reply, arrival: int, now: Fields) {
    && Accepted(reply, arrival)
    && now.track == track && now.idToken == reply.idToken && now.refreshToken == reply.refreshToken
    && LastsAsSaid(reply.expiresIn, arrival, now.expiresAt)
  }

  predicate Accepted(reply: Reply, now: int) {
    reply.Tokens? && ExpiryFromExpiresIn(reply.expiresIn, now).Some?
  }

  /** The track of a flow. */
  type RealTrack = t: Track | t != Unknown witness Business

  class AutoRefresher {
    const store: MemoryStore
    const flow: RealTrack
    const threshold: int

    constructor (store: MemoryStore, flow: RealTrack, threshold: int)
      ensures this.store == store && this.flow == flow
      ensures this.threshold == if threshold > 0 then threshold else 300_000_000_000
      ensures this.threshold > 0
    {
      this.store, this.flow := store, flow;
      this.threshold := if threshold <= 0 then DEFAULT_THRESHOLD else threshold;
    }

    /** Refresh submits the refresh token only of a session of its own track, stored or not,
        and a failure leaves the session as it was. */
    method Refresh(s: Session?, now: int, reply: Reply) returns (err: Option<EnsureError>, sent: Option<Bytes>)
      requires store.Valid() && (s != null ==> s.Valid() && store.Apart(s))
      modifies s, if s != null then {s.idToken, s.refreshToken} else {}
      ensures store.Valid() && unchanged(store)
      ensures err == Some(Store(NilSession)) <==> s == null
      ensures err.Some? && err.value.Store? ==> s == null
      ensures sent == if s != null && old(s.track) == flow then Some(old(s.refreshToken[..])) else None
      ensures err == Some(WrongTrack) <==> s != null && old(s.track) != flow
      ensures err == Some(Upstream) <==> s != null && old(s.track) == flow && reply.PostFailed?
      ensures err == None <==> s != null && old(s.track) == flow && Accepted(reply, now)
      ensures err == None ==> s.track == old(s.track)
      ensures err == None ==> s.idToken[..] == reply.idToken && s.refreshToken[..] == reply.refreshToken
      ensures err == None ==> Some(s.expiresAt) == ExpiryFromExpiresIn(reply.expiresIn, now)
      ensures err == None ==> LastsAsSaid(reply.expiresIn, now, s.expiresAt)
      ensures err == None ==> fresh(s.idToken) && fresh(s.refreshToken)
      ensures s != null && err != None ==> unchanged(s) && s.Contents() == old(s.Contents())
    {
      if s == null {
        return Some(Store(NilSession)), None;
      }
      if s.track != flow {
        return Some(WrongTrack), None;
      }
      sent := Some(s.refreshToken[..]);
      if reply.PostFailed? {
        return Some(Upstream), sent;
      }
      var expiry := ExpiryFromExpiresIn(reply.expiresIn, now);
      if expiry.None? {
        return Some(BadExpiry), sent;
      }
      ExpiryAsSaid(reply.expiresIn, now);
      store.UpdateSession(s, reply.idToken, reply.refreshToken, expiry.value);
      err := None;
    }

    /** The session under a key has less than the threshold left. */
    predicate Due(t: Track, now: int)
      reads store, if t in store.sessions then {store.sessions[t]} else {}
    {
      t in store.sessions && store.sessions[t].expiresAt < now + threshold
    }

    /** Putting back a session that is still in the map succeeds and changes nothing. */
    method Persist(s: Session) returns (err: Option<EnsureError>)
      requires store.Valid() && s in store.ever && store.Stored(s) && s.track != Unknown
      modifies store, s, s.idToken, s.refreshToken
      ensures err == None && store.Valid() && store.sessions == old(store.sessions) && store.ever == old(store.ever)
      ensures unchanged(s) && s.Contents() == old(s.Contents())
    {
      var e := store.Put(s);
      err := match e case None => None case Some(x) => Some(Store(x));
    }

    /** The end of the function under singleflight. */
    method RefreshAndPersist(s: Session, arrival: int, reply: Reply)
      returns (r: Session?, err: Option<EnsureError>, sent: Option<Bytes>)
      requires store.Valid() && s in store.ever && store.Stored(s) && s.track != Unknown
      modifies store, s, s.idToken, s.refreshToken
      ensures store.Valid() && store.sessions == old(store.sessions) && store.ever == old(store.ever)
      ensures sent != None <==> old(s.track) == flow
      ensures err == Some(WrongTrack) <==> old(s.track) != flow
      ensures err != Some(Store(NoSession))
      ensures Outcome(s, old(s.Contents()), r, err, sent, arrival, reply)
      ensures r == null <==> err != None
    {
      err, sent := Refresh(s, arrival, reply);
      if err.Some? {
        return null, err, sent;
      }
      err := Persist(s);
      r := if err == None then s else null;
    }

    /** The function under singleflight. */
    method RecheckAndRefresh(t: Track, recheck: int, arrival: int, reply: Reply)
      returns (r: Session?, err: Option<EnsureError>, sent: Option<Bytes>)
      requires store.Valid()
      modifies store, store.Held(t)
      ensures store.Valid() && store.sessions == old(store.sessions) && store.ever == old(store.ever)
      ensures t !in store.sessions <==> err == Some(Store(NoSession))
      ensures sent != None <==> old(Due(t, recheck)) && t == flow
      ensures err == Some(WrongTrack) <==> old(Due(t, recheck)) && t != flow
      ensures t in store.sessions ==>
                Outcome(old(store.sessions[t]), old(store.sessions[t].Contents()), r, err, sent, arrival, reply)
      ensures r == null <==> err != None
      ensures t in store.sessions && old(!Due(t, recheck)) ==> err == None
    {
      var s, e := store.Get(t);
      if e.Some? {
        return null, Some(Store(e.value)), None;
      }
      if !s.NeedsRefresh(recheck, threshold) {
        return s, None, None;
      }
      r, err, sent := RefreshAndPersist(s, arrival, reply);
    }

    /** The session is returned with what the reply brings if its token was submitted, and
        otherwise, as after any failure, it is as before. */
    ghost predicate Outcome(s: Session, was: Fields, r: Session?, err: Option<EnsureError>, sent: Option<Bytes>,
                            arrival: int, reply: Reply)
      reads s, s.idToken, s.refreshToken
    {
      && (err == None ==> r == s)
      && (sent != None ==> sent == Some(was.refreshToken))
      && (sent != None && err == None ==> Brought(was.track, reply, arrival, s.Contents()))
      && (sent != None && err != None ==> !Accepted(reply, arrival))
      && (sent == None || err != None ==> s.Contents() == was)
    }

    /** The clock is read for the fast check, for the check inside the singleflight, and for
        the new expiry. */
    method Ensure(t: Track, fast: int, recheck: int, arrival: int, reply: Reply)
      returns (r: Session?, err: Option<EnsureError>, sent: Option<Bytes>)
      requires store.Valid()
      modifies store, store.Held(t)
      ensures store.Valid() && store.sessions == old(store.sessions) && store.ever == old(store.ever)
      ensures t !in store.sessions <==> err == Some(Store(NoSession))
      ensures t in store.sessions ==>
                (sent != None || err == Some(WrongTrack) <==>
                   old(store.sessions[t].expiresAt) < fast + threshold
                   && old(store.sessions[t].expiresAt) < recheck + threshold)
      ensures sent != None ==> t in store.sessions && t == flow && sent == Some(old(store.sessions[t].refreshToken[..]))
      ensures err == Some(WrongTrack) ==> t != flow
      ensures err == None ==> r == store.sessions[t] && r.track == t
      ensures sent != None && err == None ==>
                && reply.Tokens? && r.idToken[..] == reply.idToken && r.refreshToken[..] == reply.refreshToken
                && LastsAsSaid(reply.expiresIn, arrival, r.expiresAt)
      ensures t in store.sessions ==>
                Outcome(old(store.sessions[t]), old(store.sessions[t].Contents()), r, err, sent, arrival, reply)
      ensures r == null <==> err != None
      ensures t in store.sessions && old(!Due(t, fast) || !Due(t, recheck)) ==> err == None
    {
      var s, e := store.Get(t);
      if e.Some? {
        return null, Some(Store(e.value)), None;
      }
      if !s.NeedsRefresh(fast, threshold) {
        return s, None, None;
      }
      r, err, sent := RecheckAndRefresh(t, recheck, arrival, reply);
    }
  }
}
