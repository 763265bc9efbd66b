/** webhook.LRU: the bounded replay cache, and what its answers mean in terms of the
    calls made to it so far. Instants and durations are nanoseconds. */
module ReplayCache {
  import opened Collections

  datatype Entry = Entry(key: string, expiresAt: int)

  /** One call of Seen, with the clock reading it took. */
  datatype Call = Call(id: string, now: int, ttl: int)

  type History = seq<Call>

  function Keys(s: seq<Entry>): (r: seq<string>)
    ensures |r| == |s| && forall i :: 0 <= i < |s| ==> r[i] == s[i].key
  {
    seq(|s|, i requires 0 <= i < |s| => s[i].key)
  }

  predicate NoDuplicates(s: seq<string>) {
    s == [] || (s[0] !in s[1..] && NoDuplicates(s[1..]))
  }

  lemma {:induction false} NoDuplicatesAt(s: seq<string>, i: nat, j: nat)
    requires NoDuplicates(s) && i < j < |s|
    ensures s[i] != s[j]
  {
    if i == 0 {
      assert s[j] == s[1..][j - 1];
    } else {
      NoDuplicatesAt(s[1..], i - 1, j - 1);
    }
  }

  lemma {:induction false} NoDuplicatesPrefix(s: seq<string>, n: nat)
    requires NoDuplicates(s) && n <= |s|
    ensures NoDuplicates(s[..n])
  {
    if n > 0 {
      NoDuplicatesPrefix(s[1..], n - 1);
      assert s[..n][1..] == s[1..][..n - 1];
    }
  }

  // ---- The recency list as a value ----

  function Position(s: seq<Entry>, k: string): (i: nat)
    ensures i <= |s|
    ensures i < |s| ==> s[i].key == k
    ensures forall j :: 0 <= j < i ==> s[j].key != k
  {
    if s == [] || s[0].key == k then 0 else 1 + Position(s[1..], k)
  }

  /** s without the element at i; s itself when there is none. */
  function Without<T>(s: seq<T>, i: nat): seq<T>
    requires i <= |s|
  {
    if i < |s| then s[..i] + s[i + 1..] else s
  }

  function Take<T>(s: seq<T>, n: nat): seq<T> {
    s[..Min(|s|, n)]
  }

  /** The list after one call, most recent first, and the answer. */
  function Touch(cap: nat, s: seq<Entry>, c: Call): (seq<Entry>, bool)
    requires cap >= 1
  {
    var i := Position(s, c.id);
    var rest := Without(s, i);
    if i < |s| && s[i].expiresAt > c.now then ([s[i]] + rest, true)
    else ([Entry(c.id, c.now + c.ttl)] + Take(rest, cap - 1), false)
  }

  function Min(a: nat, b: nat): nat {
    if a < b then a else b
  }

  function Run(cap: nat, h: History): seq<Entry>
    requires cap >= 1
  {
    if h == [] then [] else Touch(cap, Run(cap, h[..|h| - 1]), h[|h| - 1]).0
  }

  function Answer(cap: nat, h: History, c: Call): bool
    requires cap >= 1
  {
    Touch(cap, Run(cap, h), c).1
  }

  // ---- Reference notions over the call history alone ----

  function LatestFirst(h: History): (ids: seq<string>)
    ensures |ids| == |h| && forall i :: 0 <= i < |h| ==> ids[i] == h[|h| - 1 - i].id
  {
    seq(|h|, i requires 0 <= i < |h| => h[|h| - 1 - i].id)
  }

  function Erase(s: seq<string>, k: string): seq<string> {
    if s == [] then []
    else if s[0] == k then Erase(s[1..], k)
    else [s[0]] + Erase(s[1..], k)
  }

  /** s without repetitions: every id at the place of its first occurrence. */
  function Distinct(s: seq<string>): seq<string> {
    if s == [] then [] else [s[0]] + Erase(Distinct(s[1..]), s[0])
  }

  /** The ids called so far, most recent first, each once. */
  function Recency(h: History): seq<string> {
    Distinct(LatestFirst(h))
  }

  /** Index of the last call for k, or -1. */
  function LastCall(h: History, k: string): (l: int)
    ensures -1 <= l < |h|
    ensures l >= 0 ==> h[l].id == k
    ensures forall i :: l < i < |h| ==> h[i].id != k
  {
    if h == [] then -1
    else if h[|h| - 1].id == k then |h| - 1
    else LastCall(h[..|h| - 1], k)
  }

  /** The calls after the last call for k. */
  function Since(h: History, k: string): History {
    h[LastCall(h, k) + 1..]
  }

  /** The distinct ids called in h, other than k. */
  function OtherIds(h: History, k: string): set<string> {
    set i | 0 <= i < |h| && h[i].id != k :: h[i].id
  }

  /** The answer a replay cache owes, from the history alone: c.id was called before,
      fewer than cap distinct other ids were called since its last call, and the entry
      written by its last unanswered call has not run out. */
  function Replayed(cap: nat, h: History, c: Call): bool
    decreases |h|, 1
  {
    var last := LastCall(h, c.id);
    var written := LastWritten(cap, h, c.id);
    && last >= 0
    && |OtherIds(Since(h, c.id), c.id)| < cap
    && written >= 0
    && c.now < h[written].now + h[written].ttl
  }

  /** Index of the last call for k that was not a replay, or -1. */
  function LastWritten(cap: nat, h: History, k: string): (j: int)
    ensures -1 <= j < |h|
    ensures j >= 0 ==> h[j].id == k
    decreases |h|, 0
  {
    if h == [] then -1
    else
      var n := |h| - 1;
      if h[n].id == k && !Replayed(cap, h[..n], h[n]) then n else LastWritten(cap, h[..n], k)
  }

  // ---- Properties of the reference notions ----

  lemma {:induction false} EraseMeaning(s: seq<string>, k: string)
    requires NoDuplicates(s)
    ensures NoDuplicates(Erase(s, k))
    ensures forall x :: x in Erase(s, k) <==> x in s && x != k
    ensures k !in s ==> Erase(s, k) == s
    ensures k in s ==> |Erase(s, k)| == |s| - 1
  {
    if s != [] {
      HeadTail(s);
      EraseMeaning(s[1..], k);
      TailOfCons(s[0], Erase(s[1..], k));
    }
  }

  lemma {:induction false} EraseSplits(a: seq<string>, b: seq<string>, k: string)
    ensures Erase(a + b, k) == Erase(a, k) + Erase(b, k)
  {
    if a == [] {
      assert a + b == b;
    } else {
      EraseSplits(a[1..], b, k);
      assert (a + b)[1..] == a[1..] + b;
      Assoc([a[0]], Erase(a[1..], k), Erase(b, k));
    }
  }

  /** Distinct keeps exactly the ids of s, each once. */
  lemma {:induction false} DistinctMeaning(s: seq<string>)
    ensures NoDuplicates(Distinct(s))
    ensures forall x :: x in Distinct(s) <==> x in s
  {
    if s != [] {
      DistinctMeaning(s[1..]);
      EraseMeaning(Distinct(s[1..]), s[0]);
      assert s == [s[0]] + s[1..];
    }
  }

  lemma RecencyStep(h: History, c: Call)
    ensures Recency(h + [c]) == [c.id] + Erase(Recency(h), c.id)
  {
    assert LatestFirst(h + [c])[1..] == LatestFirst(h);
  }

  /** The ids before the first k in s; all of s when k is absent. */
  function Before(s: seq<string>, k: string): (r: seq<string>)
    ensures |r| <= |s| && r == s[..|r|]
    ensures k !in r
    ensures k in s ==> |r| < |s| && s[|r|] == k
  {
    if s == [] || s[0] == k then [] else [s[0]] + Before(s[1..], k)
  }

  lemma {:induction false} BeforeErase(s: seq<string>, x: string, k: string)
    requires x != k
    ensures Before(Erase(s, x), k) == Erase(Before(s, k), x)
  {
    if s != [] {
      BeforeErase(s[1..], x, k);
      if s[0] == x {
        assert Erase(s, x) == Erase(s[1..], x);
        assert s[0] != k ==> Before(s, k)[1..] == Before(s[1..], k);
      } else if s[0] != k {
        assert Erase(s, x)[1..] == Erase(s[1..], x);
        assert Before(s, k)[1..] == Before(s[1..], k);
      } else {
        assert Before(s, k) == [];
        assert Erase(s, x)[0] == k;
      }
    }
  }

  function Elements(s: seq<string>): set<string> {
    set x | x in s
  }

  lemma BeforeRecencyStep(h: History, c: Call, k: string)
    requires c.id != k
    ensures Before(Recency(h + [c]), k) == [c.id] + Erase(Before(Recency(h), k), c.id)
  {
    RecencyStep(h, c);
    var r := Erase(Recency(h), c.id);
    BeforeErase(Recency(h), c.id, k);
    assert ([c.id] + r)[1..] == r;
  }

  lemma BeforeCons(x: string, s: seq<string>, k: string)
    requires x != k
    ensures Before([x] + s, k) == [x] + Before(s, k)
  {
    assert ([x] + s)[1..] == s;
  }

  /** Distinct keeps the order of first occurrences: k is preceded by the same ids. */
  lemma {:induction false} DistinctOrder(s: seq<string>, k: string)
    ensures Elements(Before(Distinct(s), k)) == Elements(Before(s, k))
  {
    if s != [] && s[0] != k {
      var x, rest := s[0], s[1..];
      var b := Before(Distinct(rest), k);
      DistinctOrder(rest, k);
      DistinctMeaning(rest);
      NoDuplicatesPrefix(Distinct(rest), |b|);
      BeforeErase(Distinct(rest), x, k);
      EraseMeaning(b, x);
      BeforeCons(x, Erase(Distinct(rest), x), k);
      BeforeCons(x, rest, k);
      assert s == [x] + rest;
      assert Elements([x] + Erase(b, x)) == Elements(b) + {x};
      assert Elements([x] + Before(rest, k)) == Elements(Before(rest, k)) + {x};
    }
  }

  lemma SinceStep(h: History, c: Call, k: string)
    ensures LastCall(h + [c], k) == if c.id == k then |h| else LastCall(h, k)
    ensures Since(h + [c], k) == if c.id == k then [] else Since(h, k) + [c]
  {
    assert (h + [c])[..|h|] == h;
  }

  /** The ids more recent than k are exactly the other ids called since k's last call. */
  lemma {:induction false} MoreRecentThan(h: History, k: string)
    requires LastCall(h, k) >= 0
    ensures Elements(Before(Recency(h), k)) == OtherIds(Since(h, k), k)
  {
    var prev, c := h[..|h| - 1], h[|h| - 1];
    assert h == prev + [c];
    SinceStep(prev, c, k);
    if c.id == k {
      RecencyStep(prev, c);
    } else {
      MoreRecentThan(prev, k);
      MoreRecentStep(prev, c, k);
    }
  }

  lemma ElementsMoved(x: string, s: seq<string>)
    requires NoDuplicates(s)
    ensures Elements([x] + Erase(s, x)) == Elements(s) + {x}
  {
    EraseMeaning(s, x);
  }

  lemma MoreRecentStep(h: History, c: Call, k: string)
    requires c.id != k
    requires Elements(Before(Recency(h), k)) == OtherIds(Since(h, k), k)
    ensures Elements(Before(Recency(h + [c]), k)) == OtherIds(Since(h + [c], k), k)
  {
    SinceStep(h, c, k);
    OtherIdsStep(Since(h, k), c, k);
    BeforeRecencyStep(h, c, k);
    BeforeHasNoDuplicates(h, k);
    ElementsMoved(c.id, Before(Recency(h), k));
  }

  lemma BeforeHasNoDuplicates(h: History, k: string)
    ensures NoDuplicates(Before(Recency(h), k))
  {
    RecencyHasNoDuplicates(h);
    NoDuplicatesPrefix(Recency(h), |Before(Recency(h), k)|);
  }

  lemma RecencyHasNoDuplicates(h: History)
    ensures NoDuplicates(Recency(h))
  {
    DistinctMeaning(LatestFirst(h));
  }

  lemma CalledIffRecent(h: History, k: string)
    ensures k in Recency(h) <==> LastCall(h, k) >= 0
  {
    DistinctMeaning(LatestFirst(h));
    if LastCall(h, k) >= 0 {
      assert LatestFirst(h)[|h| - 1 - LastCall(h, k)] == k;
    }
  }

  /** The place of k in the recency list counts the other ids since its last call. */
  lemma PlaceIsCount(h: History, k: string)
    requires LastCall(h, k) >= 0
    ensures |Before(Recency(h), k)| == |OtherIds(Since(h, k), k)|
  {
    MoreRecentThan(h, k);
    BeforeHasNoDuplicates(h, k);
    DistinctCount(Before(Recency(h), k));
  }

  lemma OtherIdsStep(h: History, c: Call, k: string)
    requires c.id != k
    ensures OtherIds(h + [c], k) == OtherIds(h, k) + {c.id}
  {
    var h' := h + [c];
    assert h'[|h|] == c;
    forall x | x in OtherIds(h, k)
      ensures x in OtherIds(h', k)
    {
      var i :| 0 <= i < |h| && h[i].id != k && h[i].id == x;
      assert h'[i].id == x;
    }
  }

  lemma {:induction false} DistinctCount(s: seq<string>)
    requires NoDuplicates(s)
    ensures |Elements(s)| == |s|
  {
    if s != [] {
      assert s == [s[0]] + s[1..];
      DistinctCount(s[1..]);
      assert Elements(s) == Elements(s[1..]) + {s[0]};
    }
  }

  // ---- The cache against the reference ----

  lemma KeysCons(s: seq<Entry>)
    requires s != []
    ensures Keys(s) == [s[0].key] + Keys(s[1..])
  {
  }

  lemma KeysTake(s: seq<Entry>, n: nat)
    ensures Keys(Take(s, n)) == Take(Keys(s), n)
  {
  }

  lemma KeysWithout(s: seq<Entry>, i: nat)
    requires i <= |s|
    ensures Keys(Without(s, i)) == Without(Keys(s), i)
  {
  }

  lemma {:induction false} TouchShape(cap: nat, s: seq<Entry>, c: Call)
    requires cap >= 1 && |s| <= cap
    ensures var t := Touch(cap, s, c).0;
            t != [] && t[0].key == c.id && t[1..] == Take(Without(s, Position(s, c.id)), cap - 1)
  {
    var i := Position(s, c.id);
    if i < |s| {
      assert Take(Without(s, i), cap - 1) == Without(s, i);
    }
  }

  /** A call puts its id in front and pushes out what no longer fits. */
  lemma TouchKeys(cap: nat, s: seq<Entry>, c: Call)
    requires cap >= 1 && |s| <= cap
    ensures Keys(Touch(cap, s, c).0) == [c.id] + Take(Without(Keys(s), Position(s, c.id)), cap - 1)
  {
    TouchShape(cap, s, c);
    KeysWithout(s, Position(s, c.id));
    KeysTake(Without(s, Position(s, c.id)), cap - 1);
    KeysCons(Touch(cap, s, c).0);
  }

  lemma TakeCons(k: string, s: seq<string>, cap: nat)
    requires cap >= 1
    ensures Take([k] + s, cap) == [k] + Take(s, cap - 1)
  {
  }

  lemma WithoutAt<T>(s: seq<T>, i: nat, j: nat)
    requires i < |s| && j < |s| - 1
    ensures |Without(s, i)| == |s| - 1
    ensures Without(s, i)[j] == if j < i then s[j] else s[j + 1]
  {
  }

  lemma TakeWithout(r: seq<string>, i: nat, cap: nat)
    requires i < |r| && i < cap
    ensures Take(Without(r, i), cap - 1) == Take(Without(Take(r, cap), i), cap - 1)
  {
    if |r| > cap {
      var t := Take(r, cap);
      var a, b := Take(Without(r, i), cap - 1), Take(Without(t, i), cap - 1);
      forall j | 0 <= j < cap - 1
        ensures a[j] == b[j]
      {
        WithoutAt(r, i, j);
        WithoutAt(t, i, j);
      }
    }
  }

  /** Calling k on the first cap recent ids or on all of them gives the same first cap. */
  lemma TakeTouched(cap: nat, r: seq<string>, i: nat)
    requires cap >= 1 && NoDuplicates(r) && i < |r| && i < cap
    ensures Take([r[i]] + Erase(r, r[i]), cap) == [r[i]] + Take(Without(Take(r, cap), i), cap - 1)
  {
    EraseAt(r, i);
    TakeCons(r[i], Without(r, i), cap);
    TakeWithout(r, i, cap);
  }

  lemma TakePushed(cap: nat, r: seq<string>, k: string)
    requires cap >= 1 && NoDuplicates(r) && k !in Take(r, cap)
    ensures Take([k] + Erase(r, k), cap) == [k] + Take(Take(r, cap), cap - 1)
  {
    var t := Take(r, cap);
    var tail := r[|t|..];
    assert r == t + tail;
    NoDuplicatesPrefix(r, |t|);
    EraseMeaning(t, k);
    EraseSplits(t, tail, k);
    TakeCons(k, Erase(r, k), cap);
    if |r| <= cap {
      assert tail == [];
    }
  }

  /** The cache's keys are the first cap distinct ids of the reversed history. */
  lemma {:induction false} KeysAreRecency(cap: nat, h: History)
    requires cap >= 1
    ensures Keys(Run(cap, h)) == Take(Recency(h), cap)
  {
    if h != [] {
      var n := |h| - 1;
      var prev, c := h[..n], h[n];
      assert h == prev + [c];
      KeysAreRecency(cap, prev);
      RecencyStep(prev, c);
      RecencyHasNoDuplicates(prev);
      var s, r := Run(cap, prev), Recency(prev);
      TouchKeys(cap, s, c);
      var i := Position(s, c.id);
      if i < |s| {
        assert r[i] == Keys(s)[i] == c.id;
        TakeTouched(cap, r, i);
      } else {
        HeldIffKey(s, c.id);
        TakePushed(cap, r, c.id);
      }
    }
  }

  lemma {:induction false} EraseAt(r: seq<string>, i: nat)
    requires i < |r| && NoDuplicates(r)
    ensures Erase(r, r[i]) == r[..i] + r[i + 1..]
  {
    if i == 0 {
      EraseMeaning(r[1..], r[0]);
    } else {
      EraseAt(r[1..], i - 1);
      assert r[1..][..i - 1] == r[1..i];
      assert r[1..][i - 1 + 1..] == r[i + 1..];
    }
  }

  /** Inclusion: on the same calls, a smaller cache holds a prefix of a larger one. */
  lemma SmallerCacheIsPrefix(small: nat, large: nat, h: History)
    requires 1 <= small <= large
    ensures Keys(Run(small, h)) <= Keys(Run(large, h))
  {
    KeysAreRecency(small, h);
    KeysAreRecency(large, h);
  }

  lemma HeldIffKey(s: seq<Entry>, k: string)
    ensures Position(s, k) < |s| <==> k in Keys(s)
  {
    if k in Keys(s) {
      var i :| 0 <= i < |s| && Keys(s)[i] == k;
      assert s[i].key == k;
    }
    assert Position(s, k) < |s| ==> Keys(s)[Position(s, k)] == k;
  }

  lemma InTakeIffEarly(r: seq<string>, n: nat, k: string)
    ensures k in Take(r, n) <==> k in r && |Before(r, k)| < n
  {
    var b := Before(r, k);
    if k in r && |b| < n {
      assert Take(r, n)[|b|] == k;
    }
    if n <= |b| {
      assert Take(r, n) == b[..n];
    }
  }

  /** Being held is being among the cap most recent ids. */
  lemma HeldIff(cap: nat, h: History, k: string)
    requires cap >= 1
    ensures Position(Run(cap, h), k) < |Run(cap, h)|
       <==> LastCall(h, k) >= 0 && |OtherIds(Since(h, k), k)| < cap
  {
    KeysAreRecency(cap, h);
    HeldIffKey(Run(cap, h), k);
    InTakeIffEarly(Recency(h), cap, k);
    CalledIffRecent(h, k);
    if LastCall(h, k) >= 0 {
      PlaceIsCount(h, k);
    }
  }

  lemma RunShape(cap: nat, h: History)
    requires cap >= 1
    ensures NoDuplicates(Keys(Run(cap, h)))
    ensures |Run(cap, h)| <= cap
  {
    KeysAreRecency(cap, h);
    RecencyHasNoDuplicates(h);
    NoDuplicatesPrefix(Recency(h), Min(|Recency(h)|, cap));
  }

  ghost predicate ExpiryWritten(cap: nat, h: History, e: Entry) {
    var j := LastWritten(cap, h, e.key);
    j >= 0 && e.expiresAt == h[j].now + h[j].ttl
  }

  /** Where the entries of the touched list come from. */
  lemma TouchEntries(cap: nat, s: seq<Entry>, c: Call, e: Entry)
    requires cap >= 1 && NoDuplicates(Keys(s))
    requires e in Touch(cap, s, c).0
    ensures e.key != c.id ==> e in s
    ensures e.key == c.id && Touch(cap, s, c).1 ==> e in s
    ensures e.key == c.id && !Touch(cap, s, c).1 ==> e.expiresAt == c.now + c.ttl
  {
    var i := Position(s, c.id);
    if e.key == c.id && i < |s| && s[i].expiresAt <= c.now && e in Without(s, i) {
      var j :| 0 <= j < |s| && j != i && s[j] == e;
      NoDuplicatesAt(Keys(s), i, j);
    }
  }

  /** Every held entry carries the expiry of its key's last unanswered call. */
  lemma {:induction false} ExpiriesAreWritten(cap: nat, h: History)
    requires cap >= 1
    ensures forall e :: e in Run(cap, h) ==> ExpiryWritten(cap, h, e)
    decreases |h|, 0
  {
    if h != [] {
      var n := |h| - 1;
      var prev, c := h[..n], h[n];
      ExpiriesAreWritten(cap, prev);
      AnswerIsReplayed(cap, prev, c);
      RunShape(cap, prev);
      forall e | e in Run(cap, h)
        ensures ExpiryWritten(cap, h, e)
      {
        TouchEntries(cap, Run(cap, prev), c, e);
      }
    }
  }

  /** The cache answers exactly as the history demands. */
  lemma {:induction false} AnswerIsReplayed(cap: nat, h: History, c: Call)
    requires cap >= 1
    ensures Answer(cap, h, c) == Replayed(cap, h, c)
    decreases |h|, 1
  {
    HeldIff(cap, h, c.id);
    ExpiriesAreWritten(cap, h);
    var s := Run(cap, h);
    var i := Position(s, c.id);
    if i < |s| {
      assert s[i] in s;
    }
  }

  lemma LastWrittenStep(cap: nat, h: History, c: Call, k: string)
    ensures LastWritten(cap, h + [c], k) ==
            if c.id == k && !Replayed(cap, h, c) then |h| else LastWritten(cap, h, k)
  {
    assert (h + [c])[..|h|] == h;
  }

  /** LastWritten is the latest of the calls for its id that were not replays. */
  lemma {:induction false} LastWrittenIsLatest(cap: nat, h: History, c: Call, later: History)
    requires !Replayed(cap, h, c)
    ensures LastWritten(cap, h + [c] + later, c.id) >= |h|
  {
    LastWrittenStep(cap, h, c, c.id);
    if later == [] {
      assert h + [c] + later == h + [c];
    } else {
      var n := |later| - 1;
      LastWrittenIsLatest(cap, h, c, later[..n]);
      LastWrittenStep(cap, h + [c] + later[..n], later[n], c.id);
      assert h + [c] + later == h + [c] + later[..n] + [later[n]];
    }
  }

  lemma {:induction false} LastCallIsLatest(h: History, c: Call, later: History)
    ensures var l := LastCall(h + [c] + later, c.id);
            l >= |h| && exists n :: 0 <= n <= |later| && Since(h + [c] + later, c.id) == later[n..]
  {
    var all := h + [c] + later;
    var l := LastCall(all, c.id);
    assert all[|h|] == c;
    assert all[l + 1..] == later[l - |h|..];
  }

  /** Two calls for one id that both went unanswered: either cap other ids came in
      between, or an entry written at or after the first call had run out by the second. */
  lemma TwoMisses(cap: nat, h: History, c: Call, between: History, d: Call)
    requires c.id == d.id
    requires !Replayed(cap, h, c) && !Replayed(cap, h + [c] + between, d)
    ensures || |OtherIds(between, c.id)| >= cap
            || c.now + c.ttl <= d.now
            || exists f :: 0 <= f < |between| && between[f].now + between[f].ttl <= d.now
  {
    var all := h + [c] + between;
    LastCallIsLatest(h, c, between);
    var n :| 0 <= n <= |between| && Since(all, c.id) == between[n..];
    OtherIdsSuffix(between, n, c.id);
    WrittenEntry(cap, h, c, between);
  }

  /** The entry for c.id after c was written by c or later. */
  lemma WrittenEntry(cap: nat, h: History, c: Call, later: History)
    requires !Replayed(cap, h, c)
    ensures var all := h + [c] + later;
            var f := LastWritten(cap, all, c.id);
            f >= |h| && (all[f] == c || (f > |h| && all[f] == later[f - |h| - 1]))
  {
    LastWrittenIsLatest(cap, h, c, later);
  }

  /** If the id is not called in between, its second call is answered exactly by the
      count of other ids and by the clock. */
  lemma NextCallIff(cap: nat, h: History, c: Call, between: History, d: Call)
    requires c.id == d.id
    requires !Replayed(cap, h, c)
    requires forall f :: 0 <= f < |between| ==> between[f].id != c.id
    ensures !Replayed(cap, h + [c] + between, d) <==>
            |OtherIds(between, c.id)| >= cap || c.now + c.ttl <= d.now
  {
    var all := h + [c] + between;
    LastWrittenIsLatest(cap, h, c, between);
    assert forall f :: |h| < f < |all| ==> all[f] == between[f - |h| - 1];
    assert LastCall(all, c.id) == |h| == LastWritten(cap, all, c.id);
    assert Since(all, c.id) == between;
  }

  lemma OtherIdsSuffix(h: History, n: nat, k: string)
    requires n <= |h|
    ensures |OtherIds(h[n..], k)| <= |OtherIds(h, k)|
  {
    var a, b := OtherIds(h[n..], k), OtherIds(h, k);
    forall x | x in a
      ensures x in b
    {
      var i :| 0 <= i < |h[n..]| && h[n..][i].id != k && h[n..][i].id == x;
      assert h[n + i].id == x;
    }
    SubsetSize(a, b);
  }

  lemma {:induction false} SubsetSize<T>(a: set<T>, b: set<T>)
    requires a <= b
    ensures |a| <= |b|
  {
    if a != {} {
      var x :| x in a;
      SubsetSize(a - {x}, b - {x});
    }
  }

  // ---- The cache itself ----

  /** The index of a list: each key to its entry. */
  function IndexOf(s: seq<Entry>): map<string, Entry> {
    if s == [] then map[] else IndexOf(s[1..])[s[0].key := s[0]]
  }

  lemma {:induction false} IndexKeys(s: seq<Entry>, k: string)
    ensures k in IndexOf(s) <==> Position(s, k) < |s|
    ensures k in IndexOf(s) ==> IndexOf(s)[k] == s[Position(s, k)]
  {
    if s != [] {
      IndexKeys(s[1..], k);
    }
  }

  lemma PositionOf(s: seq<Entry>, i: nat)
    requires i < |s| && NoDuplicates(Keys(s))
    ensures Position(s, s[i].key) == i
  {
    var p := Position(s, s[i].key);
    if p < i {
      NoDuplicatesAt(Keys(s), p, i);
    }
  }

  lemma IndexOfCons(e: Entry, s: seq<Entry>)
    ensures IndexOf([e] + s) == IndexOf(s)[e.key := e]
  {
    TailOfCons(e, s);
  }

  lemma {:induction false} IndexWithout(s: seq<Entry>, i: nat)
    requires i < |s| && NoDuplicates(Keys(s))
    ensures IndexOf(Without(s, i)) == IndexOf(s) - {s[i].key}
  {
    var rest := s[1..];
    KeysCons(s);
    TailOfCons(s[0].key, Keys(rest));
    if i == 0 {
      IndexKeys(rest, s[0].key);
      HeldIffKey(rest, s[0].key);
      PutRemoved(IndexOf(rest), s[0].key, s[0]);
      assert Without(s, 0) == rest;
    } else {
      IndexWithout(rest, i - 1);
      WithoutTail(s, i);
      IndexOfCons(s[0], Without(rest, i - 1));
      NoDuplicatesAt(Keys(s), 0, i);
      PutApart(IndexOf(rest), s[0].key, s[0], s[i].key);
    }
  }

  lemma WithoutTail<T>(s: seq<T>, i: nat)
    requires 0 < i < |s|
    ensures Without(s, i) == [s[0]] + Without(s[1..], i - 1)
  {
  }

  lemma IndexWithoutLast(s: seq<Entry>, n: nat)
    requires 0 < n <= |s| && NoDuplicates(Keys(s))
    ensures s[..n][..n - 1] == s[..n - 1]
    ensures IndexOf(s[..n - 1]) == IndexOf(s[..n]) - {s[n - 1].key}
  {
    var t := s[..n];
    assert Keys(t) == Keys(s)[..n];
    NoDuplicatesPrefix(Keys(s), n);
    IndexWithout(t, n - 1);
    assert Without(t, n - 1) == s[..n - 1];
  }

  lemma IndexMoved(s: seq<Entry>, i: nat)
    requires i < |s| && NoDuplicates(Keys(s))
    ensures IndexOf([s[i]] + Without(s, i)) == IndexOf(s)
  {
    IndexWithout(s, i);
    IndexOfCons(s[i], Without(s, i));
    PositionOf(s, i);
    IndexKeys(s, s[i].key);
    PutBack(IndexOf(s), s[i].key);
  }

  lemma NoDuplicatesWithout(s: seq<Entry>, i: nat)
    requires i <= |s| && NoDuplicates(Keys(s))
    ensures NoDuplicates(Keys(Without(s, i)))
  {
    KeysWithout(s, i);
    if i < |s| {
      EraseAt(Keys(s), i);
      EraseMeaning(Keys(s), s[i].key);
    }
  }

  /** One more call: the list, the answer and the keys. */
  lemma AfterCall(cap: nat, h: History, c: Call)
    requires cap >= 1
    ensures Touch(cap, Run(cap, h), c) == (Run(cap, h + [c]), Replayed(cap, h, c))
    ensures Keys(Run(cap, h + [c])) == Take(Recency(h + [c]), cap)
  {
    InitOfSnoc(h, c);
    AnswerIsReplayed(cap, h, c);
    KeysAreRecency(cap, h + [c]);
  }

  class LRU {
    const cap: nat
    var list: seq<Entry>         // front first
    var m: map<string, Entry>
    ghost var history: History   // the calls made so far

    ghost predicate Valid()
      reads this
    {
      && cap >= 1
      && list == Run(cap, history)
      && m == IndexOf(list)
    }

    constructor (capacity: int)
      ensures Valid() && history == []
      ensures cap == if capacity <= 0 then 1024 else capacity
    {
      cap := if capacity <= 0 then 1024 else capacity;
      list := [];
      m := map[];
      history := [];
    }

    /** Seen, on the clock reading it takes before locking. */
    method Seen(id: string, ttl: int, now: int) returns (seen: bool)
      requires Valid()
      modifies this
      ensures Valid()
      ensures history == old(history) + [Call(id, now, ttl)]
      ensures seen == Replayed(cap, old(history), Call(id, now, ttl))
      ensures Keys(list) == Take(Recency(history), cap)
    {
      ghost var c := Call(id, now, ttl);
      AfterCall(cap, history, c);
      RunShape(cap, history);
      seen := Record(id, ttl, now);
      history := history + [c];
    }

    /** The locked section of Seen. */
    method Record(id: string, ttl: int, now: int) returns (seen: bool)
      requires cap >= 1 && m == IndexOf(list) && NoDuplicates(Keys(list))
      modifies this`list, this`m
      ensures (list, seen) == Touch(cap, old(list), Call(id, now, ttl))
      ensures m == IndexOf(list)
    {
      ghost var place := Position(list, id);
      IndexKeys(list, id);
      if id in m {
        var el := m[id];
        if el.expiresAt > now {
          IndexMoved(list, place);
          list := [el] + Without(list, Position(list, el.key));
          return true;
        }
        IndexWithout(list, place);
        list := Without(list, Position(list, el.key));
        m := m - {id};
      }
      NoDuplicatesWithout(old(list), place);

      MakeRoom();

      var el := Entry(id, now + ttl);
      TailOfCons(el, list);
      list := [el] + list;
      m := m[id := el];
      seen := false;
    }

    /** The eviction loop of Seen. */
    method MakeRoom()
      requires cap >= 1 && m == IndexOf(list) && NoDuplicates(Keys(list))
      modifies this`list, this`m
      ensures list == Take(old(list), cap - 1) && m == IndexOf(list)
    {
      ghost var all := list;
      assert all[..|list|] == list;
      while |list| >= cap
        invariant |list| <= |all| && list == all[..|list|] && m == IndexOf(list)
        invariant Min(|all|, cap - 1) <= |list|
        decreases |list|
      {
        var oldest := list[|list| - 1];
        IndexWithoutLast(all, |list|);
        list := list[..|list| - 1];
        m := m - {oldest.key};
      }
    }
  }
}
