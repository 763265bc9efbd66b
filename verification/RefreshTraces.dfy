/** What holds over whole runs of the refresh protocol: a refresh token is spent once, an
    erased session stays out of the store, one refresh is enough for the herd, and every
    result a caller of Ensure gets can be traced to the check or the refresh that earned it. */
module RefreshTraces {
  import opened Tracks
  import opened RefreshProtocol

  // ---- What each kind of step leaves alone ----

  lemma CallersLeave(cfg: Config, st: State, c: CallerId, l: Slot)
    requires c in st.callers
    ensures var next := StepCaller(cfg, st, c);
      && next.heap == st.heap && next.store == st.store && next.used == st.used && next.now == st.now
      && (l in st.slots ==> l in next.slots && next.slots[l] == st.slots[l])
      && (l !in st.slots && l in next.slots ==> next.slots[l].phase == Getting)
  {
  }

  lemma RunsLeave(cfg: Config, st: State, k: Slot)
    requires k in st.slots
    ensures var next := StepRun(cfg, st, k);
      && next.used == st.used && next.now == st.now
      && (!st.slots[k].phase.PutLocking? ==> next.store == st.store)
      && (!st.slots[k].phase.PutLocking? && !st.slots[k].phase.Updating? ==> next.heap == st.heap)
  {
    match st.slots[k].phase
    case Updating(_, _, _) =>
    case PutLocking(_) =>
    case Finished(_) =>
    case _ =>
  }

  // ---- A spent token is never submitted again ----

  /** The action is a refresh request carrying the token. */
  predicate Submits(st: State, a: Action, token: Token) {
    a.Reply? && a.k in st.slots && st.slots[a.k].phase.Posting? && st.slots[a.k].phase.token == token
  }

  predicate Succeeds(st: State, a: Action) {
    a.Reply? && a.outcome.PostOk? && CanIssue(st.owner, a.outcome.newToken)
  }

  lemma StepKeepsUsed(cfg: Config, st: State, a: Action)
    ensures st.used <= Step(cfg, st, a).used
    ensures st.now <= Step(cfg, st, a).now
  {
    match a
    case CallerStep(c) =>
      if c in st.callers {
        CallersLeave(cfg, st, c, Home(Unknown));
      }
    case RunStep(k) =>
      if k in st.slots {
        RunsLeave(cfg, st, k);
      }
    case _ =>
  }

  lemma {:induction false} UsedGrows(tr: Trace, i: nat, j: nat)
    requires tr.Valid()
    requires i <= j
    ensures tr.at(i).used <= tr.at(j).used
  {
    if i == j {
    } else {
      UsedGrows(tr, i, j - 1);
      assert tr.Steps(j - 1);
      StepKeepsUsed(tr.cfg, tr.at(j - 1), tr.acts(j - 1));
    }
  }

  lemma SuccessSpends(cfg: Config, st: State, a: Action, token: Token)
    requires Submits(st, a, token) && Succeeds(st, a) && token != ""
    ensures token in Step(cfg, st, a).used
  {
  }

  lemma SubmittedIsUnspent(st: State, a: Action, token: Token)
    requires Inv(st) && Submits(st, a, token)
    ensures token !in st.used
  {
    assert RunOk(a.k, st.slots[a.k].phase, st.heap, st.owner, st.used);
  }

  /** No later refresh, in any slot, submits a token whose refresh returned no error. */
  lemma SpentOnce(tr: Trace, i: nat, j: nat, token: Token)
    requires tr.Valid()
    requires i < j && token != ""
    requires Submits(tr.at(i), tr.acts(i), token) && Succeeds(tr.at(i), tr.acts(i))
    ensures !Submits(tr.at(j), tr.acts(j), token)
  {
    assert tr.Steps(i);
    SuccessSpends(tr.cfg, tr.at(i), tr.acts(i), token);
    UsedGrows(tr, i + 1, j);
    AlwaysInv(tr, j);
    if Submits(tr.at(j), tr.acts(j), token) {
      SubmittedIsUnspent(tr.at(j), tr.acts(j), token);
      assert false;
    }
  }

  /** At most one exchange of a session is in flight, whichever refresher runs it, and it
      runs in the slot of the session's own track. */
  lemma OneExchange(tr: Trace, n: nat, k: Slot)
    requires tr.Valid()
    requires k in tr.at(n).slots && Exchanging(tr.at(n).slots[k].phase)
    ensures var st := tr.at(n);
      var s := st.slots[k].phase.s;
      && s in st.heap && k == Home(st.heap[s].origin)
      && forall l :: l in st.slots && Exchanging(st.slots[l].phase) && st.slots[l].phase.s == s ==> l == k
  {
    AlwaysInv(tr, n);
    var st := tr.at(n);
    assert RunOk(k, st.slots[k].phase, st.heap, st.owner, st.used);
    forall l | l in st.slots && Exchanging(st.slots[l].phase) && st.slots[l].phase.s == st.slots[k].phase.s
      ensures l == k
    {
      OneExchangePerSession(st, k, l);
    }
  }

  // ---- An erased session stays out of the store ----

  predicate SameOrErased(x: Session, y: Session) {
    y.origin == x.origin && (y.track == x.track || y.track == Unknown)
  }

  lemma PutKeepsTrack(st: State, p: SessionId, s: SessionId)
    requires s in st.heap
    ensures s in PutLocked(st, p).heap && SameOrErased(st.heap[s], PutLocked(st, p).heap[s])
  {
  }

  lemma RunKeepsTrack(cfg: Config, st: State, k: Slot, s: SessionId)
    requires s in st.heap && k in st.slots
    ensures s in StepRun(cfg, st, k).heap && SameOrErased(st.heap[s], StepRun(cfg, st, k).heap[s])
  {
    match st.slots[k].phase
    case Updating(_, _, _) =>
    case PutLocking(p) => PutKeepsTrack(st, p, s);
    case _ => RunsLeave(cfg, st, k);
  }

  lemma StepKeepsTrack(cfg: Config, st: State, a: Action, s: SessionId)
    requires s in st.heap
    ensures s in Step(cfg, st, a).heap && SameOrErased(st.heap[s], Step(cfg, st, a).heap[s])
  {
    match a
    case CallerStep(c) =>
      if c in st.callers {
        CallersLeave(cfg, st, c, Home(Unknown));
      }
    case RunStep(k) =>
      if k in st.slots {
        RunKeepsTrack(cfg, st, k, s);
      }
    case PutLock(p) => PutKeepsTrack(st, p, s);
    case _ =>
  }

  lemma {:induction false} TrackKept(tr: Trace, i: nat, j: nat, s: SessionId)
    requires tr.Valid()
    requires i <= j && s in tr.at(i).heap
    ensures s in tr.at(j).heap
    ensures SameOrErased(tr.at(i).heap[s], tr.at(j).heap[s])
  {
    if i == j {
    } else {
      TrackKept(tr, i, j - 1, s);
      assert tr.Steps(j - 1);
      StepKeepsTrack(tr.cfg, tr.at(j - 1), tr.acts(j - 1), s);
    }
  }

  /** In every reachable state the store is isolated by track, and a session erased at some
      point is under neither of the two real tracks from then on. */
  lemma ErasedStaysOut(tr: Trace, i: nat, j: nat, s: SessionId, t: Track)
    requires tr.Valid()
    requires i <= j && s in tr.at(i).heap && tr.at(i).heap[s].track == Unknown
    ensures StoreIsolated(tr.at(j).store, tr.at(j).heap)
    ensures t != Unknown && t in tr.at(j).store ==> tr.at(j).store[t] != s
  {
    AlwaysInv(tr, j);
    TrackKept(tr, i, j, s);
  }

  // ---- One refresh is enough ----

  predicate Past(p: Phase, s: SessionId) {
    p.Getting? || p.Finished? || ((p.Rechecking? || p.PutChecking? || p.PutLocking?) && p.s == s)
  }

  predicate Persisting(slots: Slots, t: Track, s: SessionId) {
    Home(t) in slots && (slots[Home(t)].phase == PutChecking(s) || slots[Home(t)].phase == PutLocking(s))
  }

  predicate Stored(store: map<Track, SessionId>, slots: Slots, t: Track, s: SessionId) {
    t in store && store[t] == s && (Home(t) in slots ==> Past(slots[Home(t)].phase, s))
  }

  /** The session carries the expiry of its last refresh, and the run that refreshed it is
      persisting it or has done so. */
  predicate Settled(st: State, t: Track, s: SessionId, expiry: int) {
    && s in st.heap && st.heap[s].track == t && st.heap[s].expiresAt == expiry
    && (Stored(st.store, st.slots, t, s) || Persisting(st.slots, t, s))
  }

  /** Only the home slot updates a session. */
  lemma StepKeepsExpiry(cfg: Config, st: State, a: Action, t: Track, s: SessionId)
    requires Inv(st) && s in st.heap && t != Unknown && st.heap[s].track == t
    requires Home(t) in st.slots ==> !st.slots[Home(t)].phase.Updating?
    requires Of(Step(cfg, st, a).heap, s).track == t
    ensures Step(cfg, st, a).heap[s].expiresAt == st.heap[s].expiresAt
  {
    match a
    case CallerStep(c) =>
      if c in st.callers {
        CallersLeave(cfg, st, c, Home(Unknown));
      }
    case RunStep(k) =>
      if k in st.slots {
        if st.slots[k].phase.Updating? {
          UpdateElsewhere(st, k, t, s);
        }
        RunKeepsExpiry(cfg, st, k, t, s);
      }
    case PutLock(p) =>
      if p in st.putting {
        PutKeepsExpiry(st, p, t, s);
      }
    case _ =>
  }

  lemma PutKeepsExpiry(st: State, p: SessionId, t: Track, s: SessionId)
    requires s in st.heap && t != Unknown && Of(PutLocked(st, p).heap, s).track == t
    ensures PutLocked(st, p).heap[s].expiresAt == st.heap[s].expiresAt
  {
  }

  lemma UpdateElsewhere(st: State, k: Slot, t: Track, s: SessionId)
    requires Inv(st) && s in st.heap && t != Unknown && st.heap[s].track == t
    requires Home(t) in st.slots ==> !st.slots[Home(t)].phase.Updating?
    requires k in st.slots && st.slots[k].phase.Updating?
    ensures st.slots[k].phase.s != s
  {
    UpdatedIsKnown(st, k);
    assert SessionOk(s, st.heap[s], st.owner);
  }

  lemma RunKeepsExpiry(cfg: Config, st: State, k: Slot, t: Track, s: SessionId)
    requires s in st.heap && t != Unknown && k in st.slots
    requires st.slots[k].phase.Updating? ==> st.slots[k].phase.s != s
    requires Of(StepRun(cfg, st, k).heap, s).track == t
    ensures StepRun(cfg, st, k).heap[s].expiresAt == st.heap[s].expiresAt
  {
    match st.slots[k].phase
    case Updating(_, _, _) =>
    case PutLocking(p) => PutKeepsExpiry(st, p, t, s);
    case _ => RunsLeave(cfg, st, k);
  }

  /** Nobody takes a session's place in the store without erasing it. */
  lemma PutKeepsPlace(st: State, p: SessionId, t: Track, s: SessionId)
    requires t in st.store && st.store[t] == s
    requires Of(PutLocked(st, p).heap, s).track == t != Unknown
    ensures t in PutLocked(st, p).store && PutLocked(st, p).store[t] == s
  {
  }

  lemma RunKeepsPlace(cfg: Config, st: State, k: Slot, t: Track, s: SessionId)
    requires k in st.slots && t in st.store && st.store[t] == s
    requires Of(StepRun(cfg, st, k).heap, s).track == t != Unknown
    ensures t in StepRun(cfg, st, k).store && StepRun(cfg, st, k).store[t] == s
  {
    match st.slots[k].phase
    case PutLocking(p) => PutKeepsPlace(st, p, t, s);
    case _ => RunsLeave(cfg, st, k);
  }

  lemma StepKeepsPlace(cfg: Config, st: State, a: Action, t: Track, s: SessionId)
    requires t in st.store && st.store[t] == s
    requires Of(Step(cfg, st, a).heap, s).track == t != Unknown
    ensures t in Step(cfg, st, a).store && Step(cfg, st, a).store[t] == s
  {
    match a
    case CallerStep(c) =>
      if c in st.callers {
        CallersLeave(cfg, st, c, Home(Unknown));
      }
    case RunStep(k) =>
      if k in st.slots {
        RunKeepsPlace(cfg, st, k, t, s);
      }
    case PutLock(p) =>
      if p in st.putting {
        PutKeepsPlace(st, p, t, s);
      }
    case _ =>
  }

  lemma RunStaysPast(cfg: Config, st: State, t: Track, s: SessionId)
    requires Stored(st.store, st.slots, t, s) && Home(t) in st.slots
    requires !NeedsRefresh(cfg, st, t, s)
    ensures var next := StepRun(cfg, st, Home(t));
      Home(t) in next.slots ==> Past(next.slots[Home(t)].phase, s)
  {
    match st.slots[Home(t)].phase
    case PutLocking(_) =>
    case Finished(_) =>
    case _ =>
  }

  lemma OtherRunsLeave(cfg: Config, st: State, k: Slot, l: Slot)
    requires k in st.slots && l != k
    ensures var next := StepRun(cfg, st, k);
      (l in next.slots <==> l in st.slots) && (l in st.slots ==> next.slots[l] == st.slots[l])
  {
    match st.slots[k].phase
    case Updating(_, _, _) =>
    case PutLocking(_) =>
    case Finished(_) =>
    case _ =>
  }

  lemma ReplyLeaves(st: State, k: Slot, outcome: PostOutcome, l: Slot)
    requires k in st.slots && st.slots[k].phase.Posting? && l != k
    ensures var next := StepReply(st, k, outcome);
      && next.store == st.store && next.heap == st.heap
      && (l in next.slots <==> l in st.slots) && (l in st.slots ==> next.slots[l] == st.slots[l])
  {
  }

  lemma StepKeepsPast(cfg: Config, st: State, a: Action, t: Track, s: SessionId)
    requires Stored(st.store, st.slots, t, s)
    requires !NeedsRefresh(cfg, st, t, s)
    ensures Home(t) in Step(cfg, st, a).slots ==> Past(Step(cfg, st, a).slots[Home(t)].phase, s)
  {
    match a
    case CallerStep(c) =>
      if c in st.callers {
        CallersLeave(cfg, st, c, Home(t));
      }
    case RunStep(k) =>
      if k == Home(t) && k in st.slots {
        RunStaysPast(cfg, st, t, s);
      } else if k in st.slots {
        OtherRunsLeave(cfg, st, k, Home(t));
      }
    case Reply(k, outcome) =>
      if k in st.slots && st.slots[k].phase.Posting? {
        ReplyLeaves(st, k, outcome, Home(t));
      }
    case _ =>
  }

  lemma RunPersists(cfg: Config, st: State, t: Track, s: SessionId)
    requires s in st.heap && t != Unknown && st.heap[s].track == t && Persisting(st.slots, t, s)
    ensures var next := StepRun(cfg, st, Home(t));
      Stored(next.store, next.slots, t, s) || Persisting(next.slots, t, s)
  {
    match st.slots[Home(t)].phase
    case PutChecking(_) =>
    case PutLocking(_) =>
  }

  lemma StepPersists(cfg: Config, st: State, a: Action, t: Track, s: SessionId)
    requires s in st.heap && t != Unknown && st.heap[s].track == t && Persisting(st.slots, t, s)
    ensures var next := Step(cfg, st, a);
      Stored(next.store, next.slots, t, s) || Persisting(next.slots, t, s)
  {
    match a
    case CallerStep(c) =>
      if c in st.callers {
        CallersLeave(cfg, st, c, Home(t));
      }
    case RunStep(k) =>
      if k == Home(t) {
        RunPersists(cfg, st, t, s);
      } else if k in st.slots {
        OtherRunsLeave(cfg, st, k, Home(t));
      }
    case Reply(k, outcome) =>
      if k in st.slots && st.slots[k].phase.Posting? {
        ReplyLeaves(st, k, outcome, Home(t));
      }
    case _ =>
  }

  lemma StaysSettled(cfg: Config, st: State, a: Action, next: State, t: Track, s: SessionId, expiry: int)
    requires next == Step(cfg, st, a)
    requires Inv(st) && t != Unknown && Settled(st, t, s, expiry)
    requires st.now + cfg(t) <= expiry
    requires Of(next.heap, s).track == t
    ensures Settled(next, t, s, expiry)
  {
    StepKeepsExpiry(cfg, st, a, t, s);
    if Stored(st.store, st.slots, t, s) {
      StepKeepsPlace(cfg, st, a, t, s);
      StepKeepsPast(cfg, st, a, t, s);
    } else {
      StepPersists(cfg, st, a, t, s);
    }
  }

  /** Action i updates session s of track t after a successful refresh. */
  predicate Updates(tr: Trace, i: nat, k: Slot, s: SessionId, expiry: int) {
    var st := tr.at(i);
    && tr.acts(i) == RunStep(k) && k in st.slots && st.slots[k].phase.Updating?
    && st.slots[k].phase.s == s && st.slots[k].phase.newExpiry == expiry
  }

  lemma UpdateSettles(cfg: Config, st: State, t: Track, s: SessionId, next: State)
    requires Inv(st) && t != Unknown && Home(t) in st.slots && st.slots[Home(t)].phase.Updating?
    requires st.slots[Home(t)].phase.s == s
    requires next == Step(cfg, st, RunStep(Home(t))) && Of(next.heap, s).track == t
    ensures Settled(next, t, s, st.slots[Home(t)].phase.newExpiry)
  {
    assert RunOk(Home(t), st.slots[Home(t)].phase, st.heap, st.owner, st.used);
  }

  lemma UpdatedIsKnown(st: State, k: Slot)
    requires Inv(st) && k in st.slots && Exchanging(st.slots[k].phase)
    ensures st.slots[k].phase.s in st.heap && st.heap[st.slots[k].phase.s].origin == k.flow != Unknown
    ensures st.heap[st.slots[k].phase.s].track == k.flow || st.heap[st.slots[k].phase.s].track == Unknown
    ensures k == Home(k.flow)
  {
    assert RunOk(k, st.slots[k].phase, st.heap, st.owner, st.used);
  }

  lemma UpdatedStaysKnown(tr: Trace, i: nat, j: nat, k: Slot, s: SessionId, expiry: int)
    requires tr.Valid()
    requires i <= j && Updates(tr, i, k, s, expiry)
    ensures s in tr.at(j).heap && tr.at(j).heap[s].origin == k.flow != Unknown && k == Home(k.flow)
    ensures tr.at(j).heap[s].track in {k.flow, Unknown}
  {
    AlwaysInv(tr, i);
    UpdatedIsKnown(tr.at(i), k);
    TrackKept(tr, i, j, s);
  }

  lemma EarlierTrack(cfg: Config, st: State, a: Action, next: State, t: Track, s: SessionId)
    requires next == Step(cfg, st, a)
    requires s in st.heap && t != Unknown && Of(next.heap, s).track == t
    ensures Of(st.heap, s).track == t && st.now <= next.now
  {
    StepKeepsTrack(cfg, st, a, s);
    StepKeepsUsed(cfg, st, a);
  }

  lemma SettledStep(cfg: Config, st: State, a: Action, next: State, t: Track, s: SessionId, expiry: int)
    requires next == Step(cfg, st, a)
    requires Inv(st) && s in st.heap && t != Unknown
    requires st.heap[s].track == t && st.now + cfg(t) <= expiry ==> Settled(st, t, s, expiry)
    requires Of(next.heap, s).track == t && next.now + cfg(t) <= expiry
    ensures Settled(next, t, s, expiry)
  {
    EarlierTrack(cfg, st, a, next, t, s);
    StaysSettled(cfg, st, a, next, t, s, expiry);
  }

  lemma {:induction false} SettledAfter(tr: Trace, i: nat, j: nat, t: Track, s: SessionId, expiry: int)
    requires tr.Valid()
    requires i < j && t != Unknown && Updates(tr, i, Home(t), s, expiry)
    requires Of(tr.at(j).heap, s).track == t
    requires tr.at(j).now + tr.cfg(t) <= expiry
    ensures Settled(tr.at(j), t, s, expiry)
    decreases j
  {
    AlwaysInv(tr, j - 1);
    if i == j - 1 {
      assert tr.Steps(i);
      UpdateSettles(tr.cfg, tr.at(i), t, s, tr.at(j));
    } else {
      UpdatedStaysKnown(tr, i, j - 1, Home(t), s, expiry);
      if Of(tr.at(j - 1).heap, s).track == t && tr.at(j - 1).now + tr.cfg(t) <= expiry {
        SettledAfter(tr, i, j - 1, t, s, expiry);
      }
      assert tr.Steps(j - 1);
      SettledStep(tr.cfg, tr.at(j - 1), tr.acts(j - 1), tr.at(j), t, s, expiry);
    }
  }

  /** The action makes the flow's refresher call Refresh for its own track. */
  predicate CallsRefresh(cfg: Config, st: State, a: Action, t: Track) {
    && a == RunStep(Home(t)) && Home(t) in st.slots && st.slots[Home(t)].phase.Rechecking?
    && Of(st.heap, st.slots[Home(t)].phase.s).expiresAt < st.now + cfg(t)
  }

  lemma SettledIsQuiet(cfg: Config, st: State, a: Action, t: Track, s: SessionId, expiry: int)
    requires Inv(st) && t != Unknown && Settled(st, t, s, expiry) && st.now + cfg(t) <= expiry
    ensures !CallsRefresh(cfg, st, a, t)
    ensures a.Reply? && a.k.flow == t ==> a.k !in st.slots || !st.slots[a.k].phase.Posting?
  {
    if a.Reply? && a.k in st.slots && st.slots[a.k].phase.Posting? {
      UpdatedIsKnown(st, a.k);
    }
  }

  /** Once a refresh has updated a session, and for as long as the session is not erased and
      its new expiry is at least the threshold away, the refresher calls Refresh no more for
      that track, on any session, and submits no token at all. */
  lemma OneRefreshIsEnough(tr: Trace, i: nat, j: nat, k: Slot, s: SessionId, expiry: int)
    requires tr.Valid()
    requires i < j && Updates(tr, i, k, s, expiry)
    requires Of(tr.at(j).heap, s).track != Unknown
    requires tr.at(j).now + tr.cfg(k.flow) <= expiry
    ensures k == Home(k.flow)
    ensures !CallsRefresh(tr.cfg, tr.at(j), tr.acts(j), k.flow)
    ensures tr.acts(j).Reply? && tr.acts(j).k.flow == k.flow ==> forall token :: !Submits(tr.at(j), tr.acts(j), token)
  {
    UpdatedStaysKnown(tr, i, j, k, s, expiry);
    SettledAfter(tr, i, j, k.flow, s, expiry);
    AlwaysInv(tr, j);
    SettledIsQuiet(tr.cfg, tr.at(j), tr.acts(j), k.flow, s, expiry);
  }

  // ---- Where a caller's result comes from ----

  /** Action m is caller c's fast check, and the session has the threshold left. */
  predicate FastChecks(tr: Trace, m: nat, c: CallerId, s: SessionId) {
    && tr.acts(m) == CallerStep(c) && c in tr.at(m).callers
    && tr.at(m).callers[c].stage == FastChecking(s)
    && tr.at(m).now + tr.cfg(tr.at(m).callers[c].slot.flow) <= Of(tr.at(m).heap, s).expiresAt
  }

  /** Action m is caller c's first, and finds no session. */
  predicate FindsNothing(tr: Trace, m: nat, c: CallerId) {
    && tr.acts(m) == CallerStep(c) && c in tr.at(m).callers
    && tr.at(m).callers[c].stage.Entering? && tr.at(m).callers[c].slot.key !in tr.at(m).store
  }

  predicate WaitsAt(tr: Trace, m: nat, c: CallerId, id: RunId) {
    c in tr.at(m).callers && tr.at(m).callers[c] == Caller(id.slot, Waiting(id.number))
  }

  /** Action m is the re-check of the run, and the session has the threshold left. */
  predicate RunChecks(tr: Trace, m: nat, id: RunId, s: SessionId) {
    && tr.acts(m) == RunStep(id.slot) && id.slot in tr.at(m).slots
    && tr.at(m).slots[id.slot] == Run(id.number, Rechecking(s))
    && tr.at(m).now + tr.cfg(id.slot.flow) <= Of(tr.at(m).heap, s).expiresAt
  }

  /** Action m is the update of the session by the run, after a successful post. */
  predicate RunUpdates(tr: Trace, m: nat, id: RunId, s: SessionId) {
    && tr.acts(m) == RunStep(id.slot) && id.slot in tr.at(m).slots
    && tr.at(m).slots[id.slot].number == id.number
    && tr.at(m).slots[id.slot].phase.Updating? && tr.at(m).slots[id.slot].phase.s == s
  }

  /** Action m ends the run with an error: no session, one of another track, a failed post,
      or one erased before it could be put back. */
  predicate RunFails(tr: Trace, m: nat, id: RunId) {
    var st, k := tr.at(m), id.slot;
    && k in st.slots && st.slots[k].number == id.number
    && match st.slots[k].phase
       case Getting => tr.acts(m) == RunStep(k) && k.key !in st.store
       case CheckingTrack(s) => tr.acts(m) == RunStep(k) && Of(st.heap, s).track != k.flow
       case Posting(_, _) => tr.acts(m) == Reply(k, PostFailed)
       case PutChecking(s) => tr.acts(m) == RunStep(k) && Of(st.heap, s).track == Unknown
       case _ => false
  }

  ghost predicate RunUpdated(tr: Trace, n: nat, id: RunId, s: SessionId) {
    exists m: nat :: m < n && RunUpdates(tr, m, id, s)
  }

  /** Before n the run itself did what its result says. */
  ghost predicate RunEarned(tr: Trace, n: nat, id: RunId, result: Result) {
    match result
    case Unrefreshed(s) => exists m: nat :: m < n && RunChecks(tr, m, id, s)
    case Refreshed(s) => RunUpdated(tr, n, id, s)
    case Failed => exists m: nat :: m < n && RunFails(tr, m, id)
  }

  /** Before n the caller found what it returns by itself, or waited for a run that did. */
  ghost predicate Earned(tr: Trace, n: nat, c: CallerId, slot: Slot, result: Result) {
    || (result.Unrefreshed? && exists m: nat :: m < n && FastChecks(tr, m, c, result.s))
    || (result.Failed? && exists m: nat :: m < n && FindsNothing(tr, m, c))
    || exists m: nat, id: RunId ::
         m < n && id.slot == slot && WaitsAt(tr, m, c, id) && RunEarned(tr, n, id, result)
  }

  ghost predicate PhaseEarned(tr: Trace, n: nat, id: RunId, p: Phase) {
    && (p.Finished? ==> RunEarned(tr, n, id, p.result))
    && (p.PutChecking? || p.PutLocking? ==> RunUpdated(tr, n, id, p.s))
  }

  ghost predicate SlotsEarned(tr: Trace, n: nat, slots: Slots) {
    forall k :: k in slots ==> PhaseEarned(tr, n, RunId(k, slots[k].number), slots[k].phase)
  }

  ghost predicate ResultsEarned(tr: Trace, n: nat, results: map<RunId, Result>) {
    forall id :: id in results ==> RunEarned(tr, n, id, results[id])
  }

  ghost predicate CallerEarned(tr: Trace, n: nat, c: CallerId, caller: Caller) {
    caller.stage.Done? ==> Earned(tr, n, c, caller.slot, caller.stage.result)
  }

  ghost predicate CallersEarned(tr: Trace, n: nat, callers: map<CallerId, Caller>) {
    forall c :: c in callers ==> CallerEarned(tr, n, c, callers[c])
  }

  ghost predicate AllEarned(tr: Trace, n: nat, st: State) {
    SlotsEarned(tr, n, st.slots) && ResultsEarned(tr, n, st.results) && CallersEarned(tr, n, st.callers)
  }

  lemma RunStillEarned(tr: Trace, n: nat, id: RunId, result: Result)
    requires RunEarned(tr, n, id, result)
    ensures RunEarned(tr, n + 1, id, result)
  {
  }

  lemma StillEarned(tr: Trace, n: nat, c: CallerId, slot: Slot, result: Result)
    requires Earned(tr, n, c, slot, result)
    ensures Earned(tr, n + 1, c, slot, result)
  {
    if m: nat, id: RunId :|
         m < n && id.slot == slot && WaitsAt(tr, m, c, id) && RunEarned(tr, n, id, result) {
      RunStillEarned(tr, n, id, result);
    }
  }

  lemma PhaseStillEarned(tr: Trace, n: nat, id: RunId, p: Phase)
    requires PhaseEarned(tr, n, id, p)
    ensures PhaseEarned(tr, n + 1, id, p)
  {
    if p.Finished? {
      RunStillEarned(tr, n, id, p.result);
    }
  }

  lemma AllStillEarned(tr: Trace, n: nat, st: State)
    requires AllEarned(tr, n, st)
    ensures AllEarned(tr, n + 1, st)
  {
    forall k | k in st.slots
      ensures PhaseEarned(tr, n + 1, RunId(k, st.slots[k].number), st.slots[k].phase)
    {
      PhaseStillEarned(tr, n, RunId(k, st.slots[k].number), st.slots[k].phase);
    }
    forall id | id in st.results
      ensures RunEarned(tr, n + 1, id, st.results[id])
    {
      RunStillEarned(tr, n, id, st.results[id]);
    }
    forall c | c in st.callers
      ensures CallerEarned(tr, n + 1, c, st.callers[c])
    {
      if st.callers[c].stage.Done? {
        StillEarned(tr, n, c, st.callers[c].slot, st.callers[c].stage.result);
      }
    }
  }

  lemma CallerEarns(tr: Trace, n: nat, st: State, c: CallerId)
    requires st == tr.at(n) && tr.acts(n) == CallerStep(c) && c in st.callers
    requires ResultsEarned(tr, n + 1, st.results) && CallerEarned(tr, n + 1, c, st.callers[c])
    ensures var Caller(slot, stage) := st.callers[c];
      CallerEarned(tr, n + 1, c, Caller(slot, NextStage(tr.cfg, st, slot, stage)))
  {
    var Caller(slot, stage) := st.callers[c];
    match stage
    case Entering =>
      if slot.key !in st.store {
        assert FindsNothing(tr, n, c);
      }
    case FastChecking(s) =>
      if !NeedsRefresh(tr.cfg, st, slot.flow, s) {
        assert FastChecks(tr, n, c, s);
      }
    case AtSlot =>
    case Waiting(number) =>
      assert WaitsAt(tr, n, c, RunId(slot, number));
    case Done(_) =>
  }

  lemma PhaseEarns(tr: Trace, n: nat, st: State, k: Slot)
    requires st == tr.at(n) && tr.acts(n) == RunStep(k) && k in st.slots
    requires PhaseEarned(tr, n + 1, RunId(k, st.slots[k].number), st.slots[k].phase)
    ensures PhaseEarned(tr, n + 1, RunId(k, st.slots[k].number), NextPhase(tr.cfg, st, k, st.slots[k].phase))
  {
    var Run(number, p) := st.slots[k];
    if p.Rechecking? && !NeedsRefresh(tr.cfg, st, k.flow, p.s) {
      assert RunChecks(tr, n, RunId(k, number), p.s);
    } else if NextPhase(tr.cfg, st, k, p) == Finished(Failed) != p {
      assert RunFails(tr, n, RunId(k, number));
    }
  }

  lemma SlotEarned(tr: Trace, n: nat, slots: Slots, k: Slot, run: Run)
    requires SlotsEarned(tr, n, slots) && PhaseEarned(tr, n, RunId(k, run.number), run.phase)
    ensures SlotsEarned(tr, n, slots[k := run])
  {
  }

  lemma RunEarns(tr: Trace, n: nat, st: State, k: Slot)
    requires st == tr.at(n) && tr.acts(n) == RunStep(k) && k in st.slots
    requires AllEarned(tr, n + 1, st)
    ensures AllEarned(tr, n + 1, StepRun(tr.cfg, st, k))
  {
    var Run(number, p) := st.slots[k];
    assert PhaseEarned(tr, n + 1, RunId(k, number), p);
    match p
    case Updating(s, _, _) =>
      assert RunUpdates(tr, n, RunId(k, number), s);
      SlotEarned(tr, n + 1, st.slots, k, Run(number, PutChecking(s)));
    case PutLocking(s) => SlotEarned(tr, n + 1, st.slots, k, Run(number, Finished(Refreshed(s))));
    case Finished(_) =>
    case _ =>
      PhaseEarns(tr, n, st, k);
      SlotEarned(tr, n + 1, st.slots, k, Run(number, NextPhase(tr.cfg, st, k, p)));
  }

  lemma ReplyEarns(tr: Trace, n: nat, st: State, k: Slot, outcome: PostOutcome)
    requires st == tr.at(n) && tr.acts(n) == Reply(k, outcome) && k in st.slots && st.slots[k].phase.Posting?
    requires AllEarned(tr, n + 1, st)
    ensures AllEarned(tr, n + 1, StepReply(st, k, outcome))
  {
    var next := StepReply(st, k, outcome);
    if outcome.PostFailed? {
      assert RunFails(tr, n, RunId(k, st.slots[k].number));
    }
    if next.slots != st.slots {
      SlotEarned(tr, n + 1, st.slots, k, next.slots[k]);
    }
  }

  lemma CallerStepEarns(tr: Trace, n: nat, st: State, c: CallerId)
    requires st == tr.at(n) && tr.acts(n) == CallerStep(c) && c in st.callers
    requires AllEarned(tr, n + 1, st)
    ensures AllEarned(tr, n + 1, StepCaller(tr.cfg, st, c))
  {
    assert CallerEarned(tr, n + 1, c, st.callers[c]);
    CallerEarns(tr, n, st, c);
    SlotEarned(tr, n + 1, st.slots, st.callers[c].slot, Run(st.runs, Getting));
  }

  lemma StepEarns(tr: Trace, n: nat, st: State)
    requires st == tr.at(n) && AllEarned(tr, n + 1, st)
    ensures AllEarned(tr, n + 1, Step(tr.cfg, st, tr.acts(n)))
  {
    match tr.acts(n)
    case CallerStep(c) =>
      if c in st.callers {
        CallerStepEarns(tr, n, st, c);
      }
    case RunStep(k) =>
      if k in st.slots {
        RunEarns(tr, n, st, k);
      }
    case Reply(k, outcome) =>
      if k in st.slots && st.slots[k].phase.Posting? {
        ReplyEarns(tr, n, st, k, outcome);
      }
    case _ =>
  }

  lemma {:induction false} AlwaysEarned(tr: Trace, n: nat)
    requires tr.Valid()
    ensures AllEarned(tr, n, tr.at(n))
  {
    if n == 0 {
    } else {
      AlwaysEarned(tr, n - 1);
      AllStillEarned(tr, n - 1, tr.at(n - 1));
      StepEarns(tr, n - 1, tr.at(n - 1));
      assert tr.Steps(n - 1);
    }
  }

  /** A session that Ensure returns unrefreshed passed the caller's own fast check, or the
      re-check of a run that the caller waited for; one that it returns refreshed was updated
      by a run that the caller waited for. An error is that of such a run, which then failed,
      or there was no session. */
  lemma ReturnedIsEarned(tr: Trace, n: nat, c: CallerId)
    requires tr.Valid() && c in tr.at(n).callers && tr.at(n).callers[c].stage.Done?
    ensures Earned(tr, n, c, tr.at(n).callers[c].slot, tr.at(n).callers[c].stage.result)
  {
    AlwaysEarned(tr, n);
    assert CallerEarned(tr, n, c, tr.at(n).callers[c]);
  }

  // ---- Waiters get the result of the run they joined ----

  /** A caller's run is still in its slot, or its result is there to take. */
  predicate WaitsFor(slots: Slots, results: map<RunId, Result>, k: Slot, number: nat) {
    (k in slots && slots[k].number == number) || RunId(k, number) in results
  }

  /** Run numbers are not reused, and no waiter is stranded. */
  ghost predicate Numbered(slots: Slots, results: map<RunId, Result>, runs: nat) {
    && (forall k :: k in slots ==> slots[k].number < runs && RunId(k, slots[k].number) !in results)
    && forall id :: id in results ==> id.number < runs
  }

  ghost predicate NoneStranded(slots: Slots, results: map<RunId, Result>, callers: map<CallerId, Caller>) {
    forall c :: c in callers && callers[c].stage.Waiting? ==>
      WaitsFor(slots, results, callers[c].slot, callers[c].stage.number)
  }

  ghost predicate Orderly(st: State) {
    Numbered(st.slots, st.results, st.runs) && NoneStranded(st.slots, st.results, st.callers)
  }

  lemma GotoOrderly(st: State, k: Slot, p: Phase)
    requires Orderly(st) && k in st.slots
    ensures Orderly(st.(slots := Goto(st.slots, k, p)))
  {
  }

  lemma RunOrderly(cfg: Config, st: State, k: Slot)
    requires Orderly(st) && k in st.slots
    ensures Orderly(StepRun(cfg, st, k))
  {
    match st.slots[k].phase
    case Updating(s, _, _) => GotoOrderly(st, k, PutChecking(s));
    case PutLocking(s) => GotoOrderly(st, k, Finished(Refreshed(s)));
    case Finished(_) =>
    case p => GotoOrderly(st, k, NextPhase(cfg, st, k, p));
  }

  lemma ReplyOrderly(st: State, k: Slot, outcome: PostOutcome)
    requires Orderly(st) && k in st.slots && st.slots[k].phase.Posting?
    ensures Orderly(StepReply(st, k, outcome))
  {
    var next := StepReply(st, k, outcome);
    if next != st {
      GotoOrderly(st, k, next.slots[k].phase);
    }
  }

  lemma CallerOrderly(cfg: Config, st: State, c: CallerId)
    requires Orderly(st) && c in st.callers
    ensures Orderly(StepCaller(cfg, st, c))
  {
  }

  lemma StepOrderly(cfg: Config, st: State, a: Action)
    requires Orderly(st)
    ensures Orderly(Step(cfg, st, a))
  {
    match a
    case CallerStep(c) =>
      if c in st.callers {
        CallerOrderly(cfg, st, c);
      }
    case RunStep(k) =>
      if k in st.slots {
        RunOrderly(cfg, st, k);
      }
    case Reply(k, outcome) =>
      if k in st.slots && st.slots[k].phase.Posting? {
        ReplyOrderly(st, k, outcome);
      }
    case _ =>
  }

  /** In every reachable state each waiter's run is running or has left its result. */
  lemma {:induction false} AlwaysOrderly(tr: Trace, n: nat)
    requires tr.Valid()
    ensures Orderly(tr.at(n))
  {
    if n == 0 {
    } else {
      AlwaysOrderly(tr, n - 1);
      StepOrderly(tr.cfg, tr.at(n - 1), tr.acts(n - 1));
      assert tr.Steps(n - 1);
    }
  }

  lemma StepKeepsResult(cfg: Config, st: State, a: Action, id: RunId)
    requires Orderly(st)
    ensures var next := Step(cfg, st, a);
      && (id in st.results ==> id in next.results && next.results[id] == st.results[id])
      && (id !in st.results && id in next.results ==>
            id.slot in st.slots && st.slots[id.slot] == Run(id.number, Finished(next.results[id])))
  {
    match a
    case CallerStep(c) =>
    case RunStep(k) =>
      if k in st.slots {
        RunKeepsResult(cfg, st, k, id);
      }
    case _ =>
  }

  lemma RunKeepsResult(cfg: Config, st: State, k: Slot, id: RunId)
    requires Orderly(st) && k in st.slots
    ensures var next := StepRun(cfg, st, k);
      && (id in st.results ==> id in next.results && next.results[id] == st.results[id])
      && (id !in st.results && id in next.results ==>
            id.slot in st.slots && st.slots[id.slot] == Run(id.number, Finished(next.results[id])))
  {
    match st.slots[k].phase
    case Updating(_, _, _) =>
    case PutLocking(_) =>
    case Finished(_) =>
    case _ =>
  }

  /** The run had finished with that result before n. */
  ghost predicate FinishedWith(tr: Trace, n: nat, id: RunId, result: Result) {
    exists m: nat :: m < n && id.slot in tr.at(m).slots && tr.at(m).slots[id.slot] == Run(id.number, Finished(result))
  }

  lemma {:induction false} ResultIsOfRun(tr: Trace, n: nat, id: RunId)
    requires tr.Valid() && id in tr.at(n).results
    ensures FinishedWith(tr, n, id, tr.at(n).results[id])
  {
    if n > 0 {
      AlwaysOrderly(tr, n - 1);
      assert tr.Steps(n - 1);
      StepKeepsResult(tr.cfg, tr.at(n - 1), tr.acts(n - 1), id);
      if id in tr.at(n - 1).results {
        ResultIsOfRun(tr, n - 1, id);
      }
    }
  }

  lemma {:induction false} ResultStays(tr: Trace, i: nat, j: nat, id: RunId)
    requires tr.Valid() && i <= j && id in tr.at(i).results
    ensures id in tr.at(j).results && tr.at(j).results[id] == tr.at(i).results[id]
  {
    if i == j {
    } else {
      ResultStays(tr, i, j - 1, id);
      AlwaysOrderly(tr, j - 1);
      assert tr.Steps(j - 1);
      StepKeepsResult(tr.cfg, tr.at(j - 1), tr.acts(j - 1), id);
    }
  }

  /** Action i ends caller c's wait for the run. */
  predicate Wakes(tr: Trace, i: nat, c: CallerId, id: RunId) {
    && tr.acts(i) == CallerStep(c) && c in tr.at(i).callers
    && tr.at(i).callers[c] == Caller(id.slot, Waiting(id.number))
    && c in tr.at(i + 1).callers && tr.at(i + 1).callers[c].stage.Done?
  }

  lemma WokenWithResult(tr: Trace, i: nat, c: CallerId, id: RunId)
    requires tr.Valid() && Wakes(tr, i, c, id)
    ensures id in tr.at(i).results && tr.at(i + 1).callers[c].stage.result == tr.at(i).results[id]
  {
    assert tr.Steps(i);
  }

  /** All who waited for one run return one result: the one that the run finished with. */
  lemma WaitersShare(tr: Trace, i: nat, j: nat, c: CallerId, d: CallerId, id: RunId)
    requires tr.Valid() && i <= j && Wakes(tr, i, c, id) && Wakes(tr, j, d, id)
    ensures tr.at(j + 1).callers[d].stage.result == tr.at(i + 1).callers[c].stage.result
    ensures FinishedWith(tr, i, id, tr.at(i + 1).callers[c].stage.result)
  {
    WokenWithResult(tr, i, c, id);
    WokenWithResult(tr, j, d, id);
    ResultIsOfRun(tr, i, id);
    ResultStays(tr, i, j, id);
  }

  // ---- What does not hold ----

  function Script(acts: seq<Action>): nat -> Action {
    (n: nat) => if n < |acts| then acts[n] else Tick(0)
  }

  lemma Scripted(cfg: Config, acts: seq<Action>) returns (tr: Trace)
    ensures tr.Valid() && tr.cfg == cfg
    ensures forall n: nat :: n < |acts| ==> tr.acts(n) == acts[n]
  {
    tr := Trace(cfg, Script(acts), (n: nat) => At(cfg, Script(acts), n));
    TraceOf(cfg, Script(acts));
  }

  /** A session erased between the two halves of Put lands under the unknown track: the key
      that the first half refuses is used after all. */
  lemma UnknownKeyIsUsed(cfg: Config) returns (tr: Trace)
    ensures tr.Valid() && Unknown in tr.at(4).store
  {
    var acts := [Login(0, Business, "r", 9), PutCheck(0), EraseUnstored(0), PutLock(0)];
    tr := Scripted(cfg, acts);
    assert tr.Steps(0) && tr.Steps(1) && tr.Steps(2) && tr.Steps(3);
  }

  /** The action is the locked half of a Put and finds its session erased. */
  predicate LandsErased(st: State, a: Action) {
    || (a.PutLock? && a.s in st.putting && Of(st.heap, a.s).track == Unknown)
    || (a.RunStep? && a.k in st.slots && st.slots[a.k].phase.PutLocking?
        && Of(st.heap, st.slots[a.k].phase.s).track == Unknown)
  }

  predicate ClearsUnknown(a: Action) {
    a == Close || a == Delete(Unknown)
  }

  /** A step leaves something under the unknown track exactly if it lands an erased session
      there, or leaves there what was. */
  lemma UnknownKeyStep(cfg: Config, st: State, a: Action)
    ensures Unknown in Step(cfg, st, a).store <==>
            LandsErased(st, a) || (Unknown in st.store && !ClearsUnknown(a))
  {
    match a
    case CallerStep(c) =>
      if c in st.callers {
        CallersLeave(cfg, st, c, Home(Unknown));
      }
    case RunStep(k) =>
      if k in st.slots {
        RunUnknownKey(cfg, st, k);
      }
    case _ =>
  }

  lemma RunUnknownKey(cfg: Config, st: State, k: Slot)
    requires k in st.slots
    ensures Unknown in StepRun(cfg, st, k).store <==> LandsErased(st, RunStep(k)) || Unknown in st.store
  {
    match st.slots[k].phase
    case PutLocking(_) =>
    case _ => RunsLeave(cfg, st, k);
  }

  /** An erased session landed at m, and nothing has cleared the unknown track since. */
  ghost predicate LandedAt(tr: Trace, m: nat, n: nat) {
    && m < n && LandsErased(tr.at(m), tr.acts(m))
    && forall l: nat :: m < l < n ==> !ClearsUnknown(tr.acts(l))
  }

  /** The unknown track is a key of the store exactly then. */
  lemma {:induction false} UnknownKeyIff(tr: Trace, n: nat)
    requires tr.Valid()
    ensures Unknown in tr.at(n).store <==> exists m: nat :: LandedAt(tr, m, n)
  {
    if n > 0 {
      UnknownKeyIff(tr, n - 1);
      UnknownKeyStep(tr.cfg, tr.at(n - 1), tr.acts(n - 1));
      assert tr.Steps(n - 1);
      if LandsErased(tr.at(n - 1), tr.acts(n - 1)) {
        assert LandedAt(tr, n - 1, n);
      } else if Unknown in tr.at(n).store {
        var m: nat :| LandedAt(tr, m, n - 1);
        assert LandedAt(tr, m, n);
      }
      if m: nat :| LandedAt(tr, m, n) && m < n - 1 {
        assert LandedAt(tr, m, n - 1);
      }
    }
  }

  /** The action gives the session the tokens of a refresh. */
  predicate Refreshes(st: State, a: Action, s: SessionId) {
    a.RunStep? && a.k in st.slots && st.slots[a.k].phase.Updating? && st.slots[a.k].phase.s == s
  }

  /** The locked half of a Put of p replaces s. */
  predicate Replaces(st: State, p: SessionId, s: SessionId) {
    var t := Of(st.heap, p).track;
    t in st.store && st.store[t] == s && s != p
  }

  predicate Erases(st: State, a: Action, s: SessionId) {
    match a
    case Delete(t) => t in st.store && st.store[t] == s
    case Close => s in st.store.Values
    case EraseUnstored(x) => x == s && s !in st.store.Values
    case PutLock(p) => p in st.putting && Replaces(st, p, s)
    case RunStep(k) => k in st.slots && st.slots[k].phase.PutLocking? && Replaces(st, st.slots[k].phase.s, s)
    case _ => false
  }

  lemma RunChangesSession(cfg: Config, st: State, k: Slot, s: SessionId)
    requires s in st.heap && k in st.slots
    ensures s in StepRun(cfg, st, k).heap
    ensures !Refreshes(st, RunStep(k), s) ==>
              StepRun(cfg, st, k).heap[s] ==
              if Erases(st, RunStep(k), s) then Erased(st.heap[s]) else st.heap[s]
  {
    match st.slots[k].phase
    case Updating(_, _, _) =>
    case PutLocking(_) =>
    case _ => RunsLeave(cfg, st, k);
  }

  /** All that a step can do to a session but refresh it: an erased one has no track, token
      or expiry left. */
  lemma StepChangesSession(cfg: Config, st: State, a: Action, s: SessionId)
    requires s in st.heap
    ensures s in Step(cfg, st, a).heap
    ensures !Refreshes(st, a, s) ==>
              Step(cfg, st, a).heap[s] ==
              if Erases(st, a, s) then Session(st.heap[s].origin, Unknown, "", 0) else st.heap[s]
  {
    match a
    case CallerStep(c) =>
      if c in st.callers {
        CallersLeave(cfg, st, c, Home(Unknown));
      }
    case RunStep(k) =>
      if k in st.slots {
        RunChangesSession(cfg, st, k, s);
      }
    case _ =>
  }

  lemma RefreshChangesSession(cfg: Config, st: State, a: Action, s: SessionId)
    requires s in st.heap && Refreshes(st, a, s)
    ensures var p := st.slots[a.k].phase;
      s in Step(cfg, st, a).heap
      && Step(cfg, st, a).heap[s] == st.heap[s].(refreshToken := p.newToken, expiresAt := p.newExpiry)
  {
  }

  lemma RunsCreateNothing(cfg: Config, st: State, k: Slot)
    requires k in st.slots
    ensures StepRun(cfg, st, k).heap.Keys == st.heap.Keys
  {
    match st.slots[k].phase
    case Updating(_, _, _) =>
    case PutLocking(_) =>
    case _ => RunsLeave(cfg, st, k);
  }

  lemma NewSessionIsNotErased(cfg: Config, st: State, a: Action, s: SessionId)
    requires s !in st.heap && s in Step(cfg, st, a).heap
    ensures Step(cfg, st, a).heap[s].track != Unknown
  {
    match a
    case CallerStep(_) =>
    case RunStep(k) =>
      if k in st.slots {
        RunsCreateNothing(cfg, st, k);
      }
    case _ =>
  }

  predicate HoldsErased(heap: Heap, s: SessionId) {
    s in heap && heap[s].track == Unknown && heap[s].refreshToken != ""
  }

  /** At m a refresh that returned a token reached the session after its erasure. */
  predicate RegainsAt(st: State, a: Action, s: SessionId) {
    && s in st.heap && st.heap[s].track == Unknown
    && Refreshes(st, a, s) && st.slots[a.k].phase.newToken != ""
  }

  /** An erased session holds a token after a step exactly if it regained one in it, or held
      one and was neither refreshed nor erased again. */
  lemma HoldsErasedStep(cfg: Config, st: State, a: Action, s: SessionId)
    requires Inv(st)
    ensures HoldsErased(Step(cfg, st, a).heap, s) <==>
            || RegainsAt(st, a, s)
            || (HoldsErased(st.heap, s) && !Refreshes(st, a, s) && !Erases(st, a, s))
  {
    if s in st.heap {
      if Refreshes(st, a, s) {
        RefreshChangesSession(cfg, st, a, s);
      } else {
        StepChangesSession(cfg, st, a, s);
      }
    } else if s in Step(cfg, st, a).heap {
      NewSessionIsNotErased(cfg, st, a, s);
    }
  }

  /** The session regained a token at m and has been left alone since. */
  ghost predicate Regained(tr: Trace, m: nat, n: nat, s: SessionId) {
    && m < n && RegainsAt(tr.at(m), tr.acts(m), s)
    && forall l: nat :: m < l < n ==> !Refreshes(tr.at(l), tr.acts(l), s) && !Erases(tr.at(l), tr.acts(l), s)
  }

  /** An erased session holds a token exactly if a refresh that was in flight when it was
      erased has given it one, and neither a refresh nor an erasure has reached it since. */
  lemma {:induction false} ErasedHoldsToken(tr: Trace, n: nat, s: SessionId)
    requires tr.Valid()
    ensures HoldsErased(tr.at(n).heap, s) <==> exists m: nat :: Regained(tr, m, n, s)
  {
    if n > 0 {
      ErasedHoldsToken(tr, n - 1, s);
      AlwaysInv(tr, n - 1);
      HoldsErasedStep(tr.cfg, tr.at(n - 1), tr.acts(n - 1), s);
      assert tr.Steps(n - 1);
      RegainedStep(tr, n - 1, n, s);
    }
  }

  lemma RegainedStep(tr: Trace, before: nat, n: nat, s: SessionId)
    requires n == before + 1
    ensures (exists m: nat :: Regained(tr, m, n, s)) <==>
            || RegainsAt(tr.at(before), tr.acts(before), s)
            || ((exists m: nat :: Regained(tr, m, before, s))
                && !Refreshes(tr.at(before), tr.acts(before), s) && !Erases(tr.at(before), tr.acts(before), s))
  {
    if m: nat :| Regained(tr, m, n, s) && m < before {
      assert Regained(tr, m, before, s);
    }
    if RegainsAt(tr.at(before), tr.acts(before), s) {
      assert Regained(tr, before, n, s);
    } else if m: nat :| Regained(tr, m, before, s) {
      if !Refreshes(tr.at(before), tr.acts(before), s) && !Erases(tr.at(before), tr.acts(before), s) {
        assert Regained(tr, m, n, s);
      }
    }
  }

  /** Session 0 logged in and stored, due for a refresh. */
  function LoggedIn(due: int): State {
    INIT.(heap := map[0 := Session(Business, Business, "r", due)], store := map[Business := 0],
          putting := {0}, owner := map["r" := 0])
  }

  /** Caller 0 of Ensure waits for the run it leads. */
  function Refreshing(due: int, phase: Phase): State {
    LoggedIn(due).(
      callers := map[0 := Caller(Home(Business), Waiting(0))],
      slots := map[Home(Business) := Run(0, phase)],
      runs := 1)
  }

  lemma LogsIn(tr: Trace, due: int)
    requires tr.Valid()
    requires tr.acts(0) == Login(0, Business, "r", due) && tr.acts(1) == PutCheck(0) && tr.acts(2) == PutLock(0)
    ensures tr.at(3) == LoggedIn(due)
  {
    assert tr.Steps(0) && tr.Steps(1) && tr.Steps(2);
    assert tr.at(3).store == map[Business := 0];
  }

  lemma Leads(tr: Trace, n: nat, due: int)
    requires tr.Valid() && tr.at(n) == LoggedIn(due) && tr.cfg(Business) > due
    requires tr.acts(n) == Call(0, Home(Business))
    requires tr.acts(n + 1) == tr.acts(n + 2) == tr.acts(n + 3) == CallerStep(0)
    ensures tr.at(n + 4) == Refreshing(due, Getting)
  {
    assert tr.Steps(n);
    assert tr.at(n + 1) == LoggedIn(due).(callers := map[0 := Caller(Home(Business), Entering)]);
    assert tr.Steps(n + 1);
    assert tr.at(n + 2) == LoggedIn(due).(callers := map[0 := Caller(Home(Business), FastChecking(0))]);
    assert tr.Steps(n + 2);
    assert tr.at(n + 3) == LoggedIn(due).(callers := map[0 := Caller(Home(Business), AtSlot)]);
    assert tr.Steps(n + 3);
  }

  lemma Posts(tr: Trace, n: nat, due: int)
    requires tr.Valid() && tr.at(n) == Refreshing(due, Getting) && tr.cfg(Business) > due
    requires tr.acts(n) == tr.acts(n + 1) == tr.acts(n + 2) == tr.acts(n + 3) == RunStep(Home(Business))
    ensures tr.at(n + 4) == Refreshing(due, Posting(0, "r"))
  {
    assert tr.Steps(n);
    assert tr.at(n + 1) == Refreshing(due, Rechecking(0));
    assert tr.Steps(n + 1);
    assert tr.at(n + 2) == Refreshing(due, CheckingTrack(0));
    assert tr.Steps(n + 2);
    assert tr.at(n + 3) == Refreshing(due, ReadingToken(0));
    assert tr.Steps(n + 3);
  }

  /** The session as Delete leaves it while its refresh is in flight. */
  function Deleted(due: int): State {
    Refreshing(due, Posting(0, "r")).(heap := map[0 := Session(Business, Unknown, "", ZERO_TIME)], store := map[])
  }

  lemma Deletes(st: State, cfg: Config, due: int)
    requires st == Refreshing(due, Posting(0, "r"))
    ensures Step(cfg, st, Delete(Business)) == Deleted(due)
  {
    assert st.store - {Business} == map[];
    assert Erase(st.heap, 0) == map[0 := Session(Business, Unknown, "", ZERO_TIME)];
  }

  lemma Replies(st: State, cfg: Config, due: int)
    requires st == Deleted(due)
    ensures var next := Step(cfg, st, Reply(Home(Business), PostOk("s", 0)));
      next.heap == st.heap && next.slots == map[Home(Business) := Run(0, Updating(0, "s", 0))]
  {
  }

  lemma Regains(tr: Trace, n: nat, due: int)
    requires tr.Valid() && tr.at(n) == Refreshing(due, Posting(0, "r"))
    requires tr.acts(n) == Delete(Business) && tr.acts(n + 1) == Reply(Home(Business), PostOk("s", 0))
    requires tr.acts(n + 2) == RunStep(Home(Business))
    ensures tr.at(n + 3).heap == map[0 := Session(Business, Unknown, "s", 0)]
  {
    Deletes(tr.at(n), tr.cfg, due);
    assert tr.Steps(n);
    Replies(tr.at(n + 1), tr.cfg, due);
    assert tr.Steps(n + 1);
    assert tr.Steps(n + 2);
  }

  /** And such an update happens: erasing a session does not keep tokens out of it. */
  lemma ErasedRegainsToken(cfg: Config) returns (tr: Trace)
    ensures tr.Valid() && 0 in tr.at(14).heap
    ensures tr.at(14).heap[0].track == Unknown && tr.at(14).heap[0].refreshToken == "s"
  {
    var due, home := cfg(Business) - 1, Home(Business);
    var acts := [Login(0, Business, "r", due), PutCheck(0), PutLock(0),
      Call(0, home), CallerStep(0), CallerStep(0), CallerStep(0),
      RunStep(home), RunStep(home), RunStep(home), RunStep(home),
      Delete(Business), Reply(home, PostOk("s", 0)), RunStep(home)];
    tr := Scripted(cfg, acts);
    LogsIn(tr, due);
    Leads(tr, 3, due);
    Posts(tr, 7, due);
    Regains(tr, 11, due);
  }
}
