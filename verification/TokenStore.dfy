/** Sessions and the memory store as they sit in memory, one call at a time: which buffers
    hold tokens, and what Put, Delete and Close erase. RefreshProtocol treats the same
    operations as steps of a concurrent protocol. */
module TokenStore {
  import opened Go
  import opened Tracks

  type Bytes = seq<byte>
  type Buffer = array<byte>

  const ZERO_TIME: int := 0

  predicate AllZero(s: Bytes) {
    forall i :: 0 <= i < |s| ==> s[i] == 0
  }

  method Zero(b: Buffer)
    modifies b
    ensures AllZero(b[..])
  {
    var i := 0;
    while i < b.Length
      invariant 0 <= i <= b.Length
      invariant forall j :: 0 <= j < i ==> b[j] == 0
    {
      b[i] := 0;
      i := i + 1;
    }
  }

  method NewBuffer(text: Bytes) returns (b: Buffer)
    ensures fresh(b) && b[..] == text
  {
    b := new byte[|text|](i requires 0 <= i < |text| => text[i]);
  }

  /** What a session holds. */
  datatype Fields = Fields(track: Track, idToken: Bytes, refreshToken: Bytes, expiresAt: int)

  class Session {
    var track: Track
    var idToken: Buffer
    var refreshToken: Buffer
    var expiresAt: int
    const subject: string
    ghost var released: set<Buffer>      // the buffers let go of so far

    /** Every buffer the session has let go of is all zeros. */
    ghost predicate Valid()
      reads this, released
    {
      && idToken != refreshToken && idToken !in released && refreshToken !in released
      && forall b :: b in released ==> AllZero(b[..])
    }

    ghost function Buffers(): set<Buffer>
      reads this
    {
      {idToken, refreshToken} + released
    }

    ghost function Contents(): Fields
      reads this, idToken, refreshToken
    {
      Fields(track, idToken[..], refreshToken[..], expiresAt)
    }

    ghost predicate IsErased()
      reads this, idToken, refreshToken
    {
      Contents() == Fields(Unknown, [], [], ZERO_TIME)
    }

    constructor (track: Track, idToken: Bytes, refreshToken: Bytes, expiresAt: int, subject: string)
      ensures Valid() && released == {} && fresh(Buffers())
      ensures Contents() == Fields(track, idToken, refreshToken, expiresAt) && this.subject == subject
      ensures this.track == track && this.idToken[..] == idToken && this.refreshToken[..] == refreshToken
      ensures this.expiresAt == expiresAt
    {
      var id := NewBuffer(idToken);
      var refresh := NewBuffer(refreshToken);
      this.track, this.idToken, this.refreshToken := track, id, refresh;
      this.expiresAt, this.subject, this.released := expiresAt, subject, {};
    }

    /** Zeros both buffers, then takes new ones. */
    method Swap(idToken: Bytes, refreshToken: Bytes)
      requires Valid()
      modifies this`idToken, this`refreshToken, this`released, this.idToken, this.refreshToken
      ensures Valid() && released == old(Buffers())
      ensures fresh(this.idToken) && fresh(this.refreshToken)
      ensures this.idToken[..] == idToken && this.refreshToken[..] == refreshToken
    {
      Zero(this.idToken);
      Zero(this.refreshToken);
      released := released + {this.idToken, this.refreshToken};
      this.idToken := NewBuffer(idToken);
      this.refreshToken := NewBuffer(refreshToken);
    }

    method Update(idToken: Bytes, refreshToken: Bytes, expiresAt: int)
      requires Valid()
      modifies this, this.idToken, this.refreshToken
      ensures Valid() && released == old(Buffers())
      ensures fresh(this.idToken) && fresh(this.refreshToken)
      ensures Contents() == Fields(old(track), idToken, refreshToken, expiresAt)
      ensures track == old(track) && this.idToken[..] == idToken && this.refreshToken[..] == refreshToken
      ensures this.expiresAt == expiresAt
      ensures AllZero(old(this.idToken)[..]) && AllZero(old(this.refreshToken)[..])
    {
      Swap(idToken, refreshToken);
      this.expiresAt := expiresAt;
    }

    method Erase()
      requires Valid()
      modifies this, idToken, refreshToken
      ensures Valid() && released == old(Buffers())
      ensures fresh(idToken) && fresh(refreshToken)
      ensures IsErased()
      ensures track == Unknown && idToken.Length == refreshToken.Length == 0 && expiresAt == 0
      ensures AllZero(old(idToken)[..]) && AllZero(old(refreshToken)[..])
    {
      Swap([], []);
      track := Unknown;
      expiresAt := ZERO_TIME;
    }

    predicate NeedsRefresh(now: int, threshold: int)
      reads this
    {
      now + threshold > expiresAt
    }
  }

  datatype StoreError = NilSession | UnknownTrack | NoSession

  class MemoryStore {
    var sessions: map<Track, Session>
    ghost var ever: set<Session>         // the sessions stored at some point

    /** No two sessions share a buffer. */
    ghost predicate Apart(s: Session)
      reads this, ever, s
    {
      forall other :: other in ever && other != s ==> other.Buffers() !! s.Buffers()
    }

    ghost function Heap(): (heap: set<object>)
      reads this, ever
      ensures forall s :: s in ever ==> s in heap && s.idToken in heap && s.refreshToken in heap
      ensures forall s, b :: s in ever && b in s.released ==> b in heap
    {
      {this} + ever + (set s | s in ever :: s.idToken) + (set s | s in ever :: s.refreshToken)
      + (set s, b | s in ever && b in s.released :: b)
    }

    ghost predicate Sound()
      reads this, Heap()
    {
      forall s :: s in ever ==> s.Valid() && Apart(s)
    }

    predicate Stored(s: Session)
      reads this, s
    {
      s.track in sessions && sessions[s.track] == s
    }

    /** Every stored session has its key as its track, and the sessions ever stored are
        those in the map and those fully erased. */
    ghost predicate Valid()
      reads this, Heap()
    {
      && (forall t :: t in sessions ==> sessions[t] in ever && sessions[t].track == t != Unknown)
      && Sound()
      && (forall s :: s in ever ==> Stored(s) || s.IsErased())
    }

    constructor ()
      ensures Valid() && sessions == map[] && ever == {}
    {
      sessions, ever := map[], {};
    }

    /** The session is empty, and the two buffers that held its tokens are all zeros. */
    static predicate Wiped(s: Session, id: Buffer, refresh: Buffer)
      reads s, s.idToken, s.refreshToken, id, refresh
    {
      && s.track == Unknown && s.idToken.Length == s.refreshToken.Length == 0 && s.expiresAt == 0
      && AllZero(id[..]) && AllZero(refresh[..])
    }

    method EraseOne(s: Session)
      requires Sound() && s in ever
      modifies s, s.idToken, s.refreshToken
      ensures Sound() && s.IsErased() && Wiped(s, old(s.idToken), old(s.refreshToken))
      ensures fresh(s.idToken) && fresh(s.refreshToken) && s.released == old(s.Buffers())
      ensures forall other :: other in ever && other != s ==> unchanged(other)
      ensures forall other, b :: other in ever && other != s && b in other.Buffers() ==> unchanged(b)
    {
      assert Apart(s);
      s.Erase();
      assert Apart(s);
      forall other | other in ever && other != s
        ensures other.Valid() && Apart(other)
      {
        assert old(Apart(other));
      }
    }

    /** What erasing the session under a key writes to. */
    ghost function Held(t: Track): set<object>
      reads this, if t in sessions then {sessions[t]} else {}
    {
      if t in sessions then {sessions[t], sessions[t].idToken, sessions[t].refreshToken} else {}
    }

    method Get(t: Track) returns (r: Session?, err: Option<StoreError>)
      ensures t in sessions ==> r == sessions[t] && err == None
      ensures t !in sessions ==> r == null && err == Some(NoSession)
    {
      if t !in sessions {
        return null, Some(NoSession);
      }
      return sessions[t], None;
    }

    /** Valid, but for the key t, whose session may have been erased. */
    ghost predicate Vacated(t: Track)
      reads this, Heap()
    {
      && (forall u :: u in sessions && u != t ==> sessions[u] in ever && sessions[u].track == u != Unknown)
      && Sound()
      && (forall s :: s in ever ==> Stored(s) || s.IsErased())
    }

    /** The first half of the locked section of Put. */
    method Vacate(s: Session)
      requires Valid() && s.Valid() && Apart(s) && s.track != Unknown
      modifies Held(s.track)
      ensures Vacated(s.track) && s.Valid() && Apart(s) && unchanged(s)
      ensures s.Contents() == old(s.Contents())
      ensures forall x :: x in ever && x.track == s.track ==> x == s
      ensures s.track in sessions && sessions[s.track] != s ==>
                Wiped(sessions[s.track], old(sessions[s.track].idToken), old(sessions[s.track].refreshToken))
    {
      if s.track in sessions && sessions[s.track] != s {
        EraseOne(sessions[s.track]);
      }
    }

    /** The second half. */
    method Admit(s: Session)
      requires Vacated(s.track) && s.Valid() && Apart(s) && s.track != Unknown
      requires forall x :: x in ever && x.track == s.track ==> x == s
      modifies this
      ensures Valid() && sessions == old(sessions)[s.track := s] && ever == old(ever) + {s}
    {
      sessions := sessions[s.track := s];
      ever := ever + {s};
      forall x | x in ever
        ensures Apart(x)
      {
        assert x != s ==> old(Apart(x));
      }
    }

    /** A nil or erased session is refused. Any other takes the place of the session under
        its track, which is then erased, being no longer in the map. */
    method Put(s: Session?) returns (err: Option<StoreError>)
      requires Valid() && (s != null ==> s.Valid() && Apart(s))
      modifies this, if s != null then Held(s.track) else {}
      ensures Valid()
      ensures err == Some(NilSession) <==> s == null
      ensures err == Some(UnknownTrack) <==> s != null && old(s.track) == Unknown
      ensures err == None <==> s != null && old(s.track) != Unknown
      ensures err != None ==> sessions == old(sessions) && ever == old(ever)
      ensures err == None ==> sessions == old(sessions)[old(s.track) := s] && ever == old(ever) + {s}
      ensures s != null ==> unchanged(s) && s.Contents() == old(s.Contents())
      ensures err == None && old(s.track) in old(sessions) && old(sessions[s.track]) != s ==>
                old(sessions[s.track]) in ever
                && Wiped(old(sessions[s.track]), old(sessions[s.track].idToken), old(sessions[s.track].refreshToken))
    {
      if s == null {
        return Some(NilSession);
      }
      if s.track == Unknown {
        return Some(UnknownTrack);
      }
      Vacate(s);
      Admit(s);
      return None;
    }

    method Forget(t: Track)
      requires Vacated(t) && forall s :: s in ever ==> s.track != t
      modifies this`sessions
      ensures Valid() && sessions == old(sessions) - {t}
    {
      sessions := sessions - {t};
    }

    method Delete(t: Track)
      requires Valid()
      modifies this, Held(t)
      ensures Valid() && sessions == old(sessions) - {t} && ever == old(ever)
      ensures t in old(sessions) ==>
                Wiped(old(sessions[t]), old(sessions[t].idToken), old(sessions[t].refreshToken))
    {
      if t in sessions {
        EraseOne(sessions[t]);
        assert Vacated(t);
        Forget(t);
      }
    }

    /** Updating a session that is in the map, or was never stored, keeps the store valid. */
    method UpdateSession(s: Session, idToken: Bytes, refreshToken: Bytes, expiresAt: int)
      requires Valid() && s.Valid() && Apart(s) && (s in ever ==> Stored(s))
      modifies s, s.idToken, s.refreshToken
      ensures Valid() && unchanged(this)
      ensures s.Contents() == Fields(old(s.track), idToken, refreshToken, expiresAt)
      ensures s.track == old(s.track) && s.idToken[..] == idToken && s.refreshToken[..] == refreshToken
      ensures s.expiresAt == expiresAt
      ensures fresh(s.idToken) && fresh(s.refreshToken)
      ensures s.released == old(s.Buffers())
    {
      assert Apart(s);
      s.Update(idToken, refreshToken, expiresAt);
      assert Apart(s);
      forall other | other in ever && other != s
        ensures other.Valid() && Apart(other)
      {
        assert old(Apart(other));
      }
    }

    /** All that is left to erase is stored under the keys in todo. */
    ghost predicate Left(todo: set<Track>)
      reads this, Heap()
    {
      && (forall t :: t in todo ==> t in sessions && sessions[t] in ever && sessions[t].track == t)
      && forall s :: s in ever ==> (s.track in todo && sessions[s.track] == s) || s.IsErased()
    }

    method EraseNext(todo: set<Track>, t: Track)
      requires Sound() && Left(todo) && t in todo && t != Unknown
      modifies Held(t)
      ensures Sound() && Left(todo - {t})
      ensures forall u :: u in todo - {t} ==> Held(u) == old(Held(u))
      ensures forall s :: s in ever ==> old(s.Buffers()) <= s.Buffers()
    {
      EraseOne(sessions[t]);
    }

    lemma HeldIsInHeap(t: Track)
      requires t in sessions && sessions[t] in ever
      ensures Held(t) <= Heap() - {this}
    {
    }

    method EraseStored()
      requires Valid()
      modifies Heap() - {this}
      ensures Sound() && forall s :: s in ever ==> s.IsErased()
      ensures forall s :: s in ever ==> old(s.Buffers()) <= s.Buffers()
    {
      var todo := sessions.Keys;
      forall t | t in todo
        ensures Held(t) <= Heap() - {this}
      {
        HeldIsInHeap(t);
      }
      while todo != {}
        invariant todo <= sessions.Keys && Sound() && Left(todo)
        invariant forall t :: t in todo ==> Held(t) == old(Held(t))
        invariant forall s :: s in ever ==> old(s.Buffers()) <= s.Buffers()
        decreases todo
      {
        var t :| t in todo;
        EraseNext(todo, t);
        todo := todo - {t};
      }
    }

    /** Closing the store leaves every session it ever held erased. */
    method Close()
      requires Valid()
      modifies Heap()
      ensures Valid() && sessions == map[] && ever == old(ever)
      ensures forall s :: s in ever ==> s.IsErased()
      ensures forall s, b :: s in ever && b in old(s.Buffers()) ==> AllZero(b[..])
    {
      EraseStored();
      forall s, b | s in ever && b in old(s.Buffers())
        ensures AllZero(b[..])
      {
        assert b in s.Buffers() && s.Valid() && s.IsErased();
      }
      sessions := map[];
    }
  }
}
