/** Exactly when a refresh token can be submitted twice: its first refresh failed, and the
    session had not been erased. */
module Resubmission {
  import opened Tracks
  import opened RefreshProtocol
  import opened RefreshTraces

  // ---- The token in flight is the one the session holds ----

  /** From the track check to the reply the session holds the token read, or it has been
      erased and holds none. */
  predicate ExchangeOk(p: Phase, heap: Heap) {
    && (p.ReadingToken? || p.Posting? ==>
          p.s in heap && (heap[p.s].track == Unknown ==> heap[p.s].refreshToken == ""))
    && (p.Posting? && heap[p.s].track != Unknown ==> heap[p.s].refreshToken == p.token)
  }

  ghost predicate ExchangesOk(slots: Slots, heap: Heap) {
    forall k :: k in slots ==> ExchangeOk(slots[k].phase, heap)
  }

  lemma ErasingKeepsExchanges(slots: Slots, heap: Heap, after: Heap)
    requires ExchangesOk(slots, heap) && SomeErased(heap, after)
    ensures ExchangesOk(slots, after)
  {
    forall k | k in slots
      ensures ExchangeOk(slots[k].phase, after)
    {
      assert ExchangeOk(slots[k].phase, heap);
    }
  }

  lemma PutKeepsExchanges(st: State, s: SessionId)
    requires ExchangesOk(st.slots, st.heap)
    ensures ExchangesOk(st.slots, PutLocked(st, s).heap)
  {
    var t := Of(st.heap, s).track;
    if t in st.store && st.store[t] != s {
      EraseErases(st.heap, st.store[t]);
      ErasingKeepsExchanges(st.slots, st.heap, PutLocked(st, s).heap);
    }
  }

  lemma MovingKeepsExchanges(slots: Slots, heap: Heap, k: Slot, p: Phase)
    requires ExchangesOk(slots, heap) && k in slots && ExchangeOk(p, heap)
    ensures ExchangesOk(Goto(slots, k, p), heap)
  {
  }

  lemma NextPhaseExchange(cfg: Config, st: State, k: Slot)
    requires Inv(st) && k in st.slots && ExchangeOk(st.slots[k].phase, st.heap)
    ensures ExchangeOk(NextPhase(cfg, st, k, st.slots[k].phase), st.heap)
  {
    assert RunOk(k, st.slots[k].phase, st.heap, st.owner, st.used);
  }

  /** An update leaves other exchanges alone: they are of other sessions. */
  lemma UpdateKeepsExchanges(st: State, k: Slot)
    requires Inv(st) && ExchangesOk(st.slots, st.heap) && k in st.slots && st.slots[k].phase.Updating?
    ensures var p := st.slots[k].phase;
      ExchangesOk(Goto(st.slots, k, PutChecking(p.s)), Update(st.heap, p.s, p.newToken, p.newExpiry))
  {
    var p := st.slots[k].phase;
    var slots := Goto(st.slots, k, PutChecking(p.s));
    forall l | l in slots
      ensures ExchangeOk(slots[l].phase, Update(st.heap, p.s, p.newToken, p.newExpiry))
    {
      assert ExchangeOk(st.slots[l].phase, st.heap);
      if l != k && Exchanging(st.slots[l].phase) && st.slots[l].phase.s == p.s {
        OneExchangePerSession(st, k, l);
        assert false;
      }
    }
  }

  lemma RunKeepsExchanges(cfg: Config, st: State, k: Slot)
    requires Inv(st) && ExchangesOk(st.slots, st.heap) && k in st.slots
    ensures ExchangesOk(StepRun(cfg, st, k).slots, StepRun(cfg, st, k).heap)
  {
    match st.slots[k].phase
    case Updating(_, _, _) => UpdateKeepsExchanges(st, k);
    case PutLocking(s) =>
      PutKeepsExchanges(st, s);
      MovingKeepsExchanges(st.slots, PutLocked(st, s).heap, k, Finished(Refreshed(s)));
    case Finished(_) =>
    case p =>
      NextPhaseExchange(cfg, st, k);
      MovingKeepsExchanges(st.slots, st.heap, k, NextPhase(cfg, st, k, p));
  }

  lemma ReplyKeepsExchanges(st: State, k: Slot, outcome: PostOutcome)
    requires ExchangesOk(st.slots, st.heap) && k in st.slots && st.slots[k].phase.Posting?
    ensures ExchangesOk(StepReply(st, k, outcome).slots, StepReply(st, k, outcome).heap)
  {
    var next := StepReply(st, k, outcome);
    if next.slots != st.slots {
      MovingKeepsExchanges(st.slots, st.heap, k, next.slots[k].phase);
    }
  }

  lemma StepKeepsExchanges(cfg: Config, st: State, a: Action)
    requires Inv(st) && ExchangesOk(st.slots, st.heap)
    ensures ExchangesOk(Step(cfg, st, a).slots, Step(cfg, st, a).heap)
  {
    match a
    case CallerStep(c) =>
    case RunStep(k) =>
      if k in st.slots {
        RunKeepsExchanges(cfg, st, k);
      }
    case Reply(k, outcome) =>
      if k in st.slots && st.slots[k].phase.Posting? {
        ReplyKeepsExchanges(st, k, outcome);
      }
    case PutLock(s) => PutKeepsExchanges(st, s);
    case Delete(t) =>
      if t in st.store {
        EraseErases(st.heap, st.store[t]);
        ErasingKeepsExchanges(st.slots, st.heap, Erase(st.heap, st.store[t]));
      }
    case Close => ErasingKeepsExchanges(st.slots, st.heap, CloseLocked(st).heap);
    case EraseUnstored(s) =>
      EraseErases(st.heap, s);
      ErasingKeepsExchanges(st.slots, st.heap, Erase(st.heap, s));
    case _ =>
  }

  lemma {:induction false} AlwaysExchanges(tr: Trace, n: nat)
    requires tr.Valid()
    ensures ExchangesOk(tr.at(n).slots, tr.at(n).heap)
  {
    if n == 0 {
    } else {
      AlwaysExchanges(tr, n - 1);
      AlwaysInv(tr, n - 1);
      StepKeepsExchanges(tr.cfg, tr.at(n - 1), tr.acts(n - 1));
      assert tr.Steps(n - 1);
    }
  }

  // ---- A token that nobody holds is never submitted ----

  predicate Carries(p: Phase, token: Token) {
    (p.Posting? && p.token == token) || (p.Updating? && p.newToken == token)
  }

  /** The token was issued, and neither a session nor a run has it. */
  ghost predicate Dead(heap: Heap, slots: Slots, owner: Owners, token: Token) {
    && token != "" && token in owner
    && (forall s :: s in heap ==> heap[s].refreshToken != token)
    && forall k :: k in slots ==> !Carries(slots[k].phase, token)
  }

  lemma RunStaysDead(cfg: Config, st: State, k: Slot, token: Token)
    requires Dead(st.heap, st.slots, st.owner, token) && k in st.slots
    ensures var next := StepRun(cfg, st, k); Dead(next.heap, next.slots, next.owner, token)
  {
    assert !Carries(st.slots[k].phase, token);
    match st.slots[k].phase
    case Updating(_, _, _) =>
    case PutLocking(_) =>
    case Finished(_) =>
    case _ =>
  }

  lemma ReplyStaysDead(st: State, k: Slot, outcome: PostOutcome, token: Token)
    requires Dead(st.heap, st.slots, st.owner, token) && k in st.slots && st.slots[k].phase.Posting?
    ensures var next := StepReply(st, k, outcome); Dead(next.heap, next.slots, next.owner, token)
  {
  }

  lemma StepStaysDead(cfg: Config, st: State, a: Action, token: Token)
    requires Dead(st.heap, st.slots, st.owner, token)
    ensures var next := Step(cfg, st, a); Dead(next.heap, next.slots, next.owner, token)
  {
    match a
    case CallerStep(c) =>
    case RunStep(k) =>
      if k in st.slots {
        RunStaysDead(cfg, st, k, token);
      }
    case Reply(k, outcome) =>
      if k in st.slots && st.slots[k].phase.Posting? {
        ReplyStaysDead(st, k, outcome, token);
      }
    case _ =>
  }

  lemma {:induction false} StaysDead(tr: Trace, i: nat, j: nat, token: Token)
    requires tr.Valid() && i <= j
    requires Dead(tr.at(i).heap, tr.at(i).slots, tr.at(i).owner, token)
    ensures Dead(tr.at(j).heap, tr.at(j).slots, tr.at(j).owner, token)
  {
    if i == j {
    } else {
      StaysDead(tr, i, j - 1, token);
      StepStaysDead(tr.cfg, tr.at(j - 1), tr.acts(j - 1), token);
      assert tr.Steps(j - 1);
    }
  }

  /** A refresh of an erased session that fails leaves its token with nobody. */
  lemma FailureOfErasedIsDead(st: State, k: Slot)
    requires Inv(st) && ExchangesOk(st.slots, st.heap)
    requires k in st.slots && st.slots[k].phase.Posting? && st.slots[k].phase.token != ""
    requires Of(st.heap, st.slots[k].phase.s).track == Unknown
    ensures var next := StepReply(st, k, PostFailed);
      Dead(next.heap, next.slots, next.owner, st.slots[k].phase.token)
  {
    var Posting(s, token) := st.slots[k].phase;
    assert RunOk(k, st.slots[k].phase, st.heap, st.owner, st.used);
    assert ExchangeOk(st.slots[k].phase, st.heap);
    forall x | x in st.heap
      ensures st.heap[x].refreshToken != token
    {
      assert SessionOk(x, st.heap[x], st.owner);
    }
    forall l | l in st.slots && l != k
      ensures !Carries(st.slots[l].phase, token)
    {
      assert RunOk(l, st.slots[l].phase, st.heap, st.owner, st.used);
      if Carries(st.slots[l].phase, token) {
        OneExchangePerSession(st, k, l);
      }
    }
  }

  // ---- A token that its session still holds can be submitted again ----

  /** The session is unerased and holds the token. */
  predicate Held(st: State, t: Track, s: SessionId, token: Token) {
    t != Unknown && s in st.heap && st.heap[s].track == t && st.heap[s].refreshToken == token
  }

  /** It is stored and due as well. */
  predicate Ready(cfg: Config, st: State, t: Track, s: SessionId, token: Token) {
    Held(st, t, s, token) && t in st.store && st.store[t] == s && NeedsRefresh(cfg, st, t, s)
  }

  lemma Releases(cfg: Config, st: State, t: Track, s: SessionId, token: Token, c: CallerId)
    requires Held(st, t, s, token) && c !in st.callers
    requires Home(t) in st.slots && st.slots[Home(t)].phase.Finished?
    ensures var next := Step(cfg, st, RunStep(Home(t)));
      Held(next, t, s, token) && c !in next.callers && Home(t) !in next.slots
  {
  }

  lemma PutsBack(cfg: Config, st: State, t: Track, s: SessionId, token: Token, c: CallerId)
    requires Held(st, t, s, token) && c !in st.callers && Home(t) !in st.slots
    ensures var next := Step(cfg, Step(cfg, st, PutCheck(s)), PutLock(s));
      && Held(next, t, s, token) && c !in next.callers && Home(t) !in next.slots
      && t in next.store && next.store[t] == s
  {
    var checked := Step(cfg, st, PutCheck(s));
    assert s in checked.putting && checked.heap == st.heap;
  }

  lemma ComesDue(cfg: Config, st: State, t: Track, s: SessionId, token: Token, c: CallerId) returns (duration: nat)
    requires Held(st, t, s, token) && c !in st.callers && Home(t) !in st.slots
    requires t in st.store && st.store[t] == s
    ensures var next := Step(cfg, st, Tick(duration));
      Ready(cfg, next, t, s, token) && c !in next.callers && Home(t) !in next.slots
  {
    var late := st.heap[s].expiresAt - cfg(t) - st.now + 1;
    duration := if late > 0 then late else 0;
  }

  predicate Stands(cfg: Config, st: State, t: Track, s: SessionId, token: Token, c: CallerId, stage: Stage) {
    && Ready(cfg, st, t, s, token) && c in st.callers && st.callers[c] == Caller(Home(t), stage)
    && Home(t) !in st.slots
  }

  predicate Runs(cfg: Config, st: State, t: Track, s: SessionId, token: Token, p: Phase) {
    Ready(cfg, st, t, s, token) && Home(t) in st.slots && st.slots[Home(t)].phase == p
  }

  lemma Enters(cfg: Config, st: State, t: Track, s: SessionId, token: Token, c: CallerId)
    requires Ready(cfg, st, t, s, token) && c !in st.callers && Home(t) !in st.slots
    ensures Stands(cfg, Step(cfg, st, Call(c, Home(t))), t, s, token, c, Entering)
  {
  }

  lemma Walks(cfg: Config, st: State, t: Track, s: SessionId, token: Token, c: CallerId, stage: Stage)
    requires Stands(cfg, st, t, s, token, c, stage) && (stage.Entering? || stage == FastChecking(s))
    ensures Stands(cfg, Step(cfg, st, CallerStep(c)), t, s, token, c,
                   if stage.Entering? then FastChecking(s) else AtSlot)
  {
  }

  lemma Leads(cfg: Config, st: State, t: Track, s: SessionId, token: Token, c: CallerId)
    requires Stands(cfg, st, t, s, token, c, AtSlot)
    ensures Runs(cfg, Step(cfg, st, CallerStep(c)), t, s, token, Getting)
  {
  }

  function After(p: Phase, s: SessionId, token: Token): Phase {
    match p
    case Getting => Rechecking(s)
    case Rechecking(_) => CheckingTrack(s)
    case CheckingTrack(_) => ReadingToken(s)
    case _ => Posting(s, token)
  }

  lemma RunsOn(cfg: Config, st: State, t: Track, s: SessionId, token: Token, p: Phase)
    requires Runs(cfg, st, t, s, token, p)
    requires p in {Getting, Rechecking(s), CheckingTrack(s), ReadingToken(s)}
    ensures Runs(cfg, Step(cfg, st, RunStep(Home(t))), t, s, token, After(p, s, token))
  {
  }

  function PlayFrom(cfg: Config, st: State, acts: seq<Action>): State {
    if acts == [] then st else Step(cfg, PlayFrom(cfg, st, acts[..|acts| - 1]), acts[|acts| - 1])
  }

  lemma PlayOne(cfg: Config, st: State, acts: seq<Action>, a: Action)
    ensures PlayFrom(cfg, st, acts + [a]) == Step(cfg, PlayFrom(cfg, st, acts), a)
  {
    assert (acts + [a])[..|acts|] == acts;
  }

  lemma PlayTwo(cfg: Config, st: State, acts: seq<Action>, a: Action, b: Action)
    ensures PlayFrom(cfg, st, acts + [a] + [b]) == Step(cfg, Step(cfg, PlayFrom(cfg, st, acts), a), b)
  {
    PlayOne(cfg, st, acts, a);
    PlayOne(cfg, st, acts + [a], b);
  }

  /** From the failed run to a session that is stored and due. */
  lemma ReachesReady(cfg: Config, st: State, t: Track, s: SessionId, token: Token, c: CallerId)
    returns (acts: seq<Action>)
    requires Held(st, t, s, token) && c !in st.callers
    requires Home(t) in st.slots && st.slots[Home(t)].phase.Finished?
    ensures var next := PlayFrom(cfg, st, acts);
      Ready(cfg, next, t, s, token) && c !in next.callers && Home(t) !in next.slots
  {
    acts := [];
    PlayOne(cfg, st, acts, RunStep(Home(t)));
    Releases(cfg, st, t, s, token, c);
    acts := acts + [RunStep(Home(t))];
    PlayTwo(cfg, st, acts, PutCheck(s), PutLock(s));
    PutsBack(cfg, PlayFrom(cfg, st, acts), t, s, token, c);
    acts := acts + [PutCheck(s)] + [PutLock(s)];
    var duration := ComesDue(cfg, PlayFrom(cfg, st, acts), t, s, token, c);
    PlayOne(cfg, st, acts, Tick(duration));
    acts := acts + [Tick(duration)];
  }

  /** From there to a new run. */
  lemma ReachesRun(cfg: Config, st: State, t: Track, s: SessionId, token: Token, c: CallerId, before: seq<Action>)
    returns (acts: seq<Action>)
    requires var now := PlayFrom(cfg, st, before);
      Ready(cfg, now, t, s, token) && c !in now.callers && Home(t) !in now.slots
    ensures Runs(cfg, PlayFrom(cfg, st, acts), t, s, token, Getting)
  {
    acts := before;
    PlayOne(cfg, st, acts, Call(c, Home(t)));
    Enters(cfg, PlayFrom(cfg, st, acts), t, s, token, c);
    acts := acts + [Call(c, Home(t))];
    PlayOne(cfg, st, acts, CallerStep(c));
    Walks(cfg, PlayFrom(cfg, st, acts), t, s, token, c, Entering);
    acts := acts + [CallerStep(c)];
    PlayOne(cfg, st, acts, CallerStep(c));
    Walks(cfg, PlayFrom(cfg, st, acts), t, s, token, c, FastChecking(s));
    acts := acts + [CallerStep(c)];
    PlayOne(cfg, st, acts, CallerStep(c));
    Leads(cfg, PlayFrom(cfg, st, acts), t, s, token, c);
    acts := acts + [CallerStep(c)];
  }

  /** And on to the post. */
  lemma {:induction false} ReachesPost(cfg: Config, st: State, t: Track, s: SessionId, token: Token, p: Phase,
                                       before: seq<Action>, steps: nat)
    returns (acts: seq<Action>)
    requires Runs(cfg, PlayFrom(cfg, st, before), t, s, token, p)
    requires (steps, p) in {(4, Getting), (3, Rechecking(s)), (2, CheckingTrack(s)), (1, ReadingToken(s)),
                            (0, Posting(s, token))}
    ensures Runs(cfg, PlayFrom(cfg, st, acts), t, s, token, Posting(s, token))
    decreases steps
  {
    if steps == 0 {
      acts := before;
    } else {
      PlayOne(cfg, st, before, RunStep(Home(t)));
      RunsOn(cfg, PlayFrom(cfg, st, before), t, s, token, p);
      acts := ReachesPost(cfg, st, t, s, token, After(p, s, token), before + [RunStep(Home(t))], steps - 1);
    }
  }

  lemma {:induction false} FreshCaller(callers: map<CallerId, Caller>, keys: set<CallerId>) returns (c: CallerId)
    requires keys <= callers.Keys
    ensures forall x :: x in keys ==> x < c
  {
    if keys == {} {
      c := 0;
    } else {
      var x :| x in keys;
      var d := FreshCaller(callers, keys - {x});
      c := if x < d then d else x + 1;
      assert keys == keys - {x} + {x};
    }
  }

  // ---- Continuing a trace ----

  /** The same up to and including action i. */
  ghost predicate Continues(tr: Trace, next: Trace, i: nat) {
    next.Valid() && next.cfg == tr.cfg && next.at(i) == tr.at(i) && next.acts(i) == tr.acts(i)
  }

  function Then(acts: nat -> Action, i: nat, more: seq<Action>): nat -> Action {
    (n: nat) => if n <= i then acts(n) else if n - i - 1 < |more| then more[n - i - 1] else Tick(0)
  }

  lemma {:induction false} SamePast(tr: Trace, acts: nat -> Action, i: nat, n: nat)
    requires tr.Valid() && n <= i + 1 && forall m: nat :: m <= i ==> acts(m) == tr.acts(m)
    ensures At(tr.cfg, acts, n) == tr.at(n)
  {
    if n > 0 {
      SamePast(tr, acts, i, n - 1);
      assert tr.Steps(n - 1);
    }
  }

  /** From action i on the trace follows the list. */
  ghost predicate Follows(tr: Trace, i: nat, acts: seq<Action>) {
    forall n: nat {:trigger acts[n]} :: n < |acts| ==> tr.acts(i + n) == acts[n]
  }

  lemma FollowsInit(tr: Trace, i: nat, acts: seq<Action>, a: Action)
    requires Follows(tr, i, acts + [a])
    ensures Follows(tr, i, acts) && tr.acts(i + |acts|) == a
  {
    assert (acts + [a])[|acts|] == a;
    forall n: nat | n < |acts|
      ensures tr.acts(i + n) == acts[n]
    {
      assert (acts + [a])[n] == acts[n];
    }
  }

  lemma Continued(tr: Trace, i: nat, more: seq<Action>) returns (next: Trace)
    requires tr.Valid()
    ensures Continues(tr, next, i) && next.at(i + 1) == tr.at(i + 1)
    ensures Follows(next, i + 1, more)
  {
    var acts := Then(tr.acts, i, more);
    next := Trace(tr.cfg, acts, (n: nat) => At(tr.cfg, acts, n));
    TraceOf(tr.cfg, acts);
    SamePast(tr, acts, i, i);
    SamePast(tr, acts, i, i + 1);
  }

  lemma {:induction false} Plays(tr: Trace, i: nat, acts: seq<Action>)
    requires tr.Valid() && Follows(tr, i, acts)
    ensures tr.at(i + |acts|) == PlayFrom(tr.cfg, tr.at(i), acts)
  {
    if acts != [] {
      var init, last := acts[..|acts| - 1], acts[|acts| - 1];
      assert acts == init + [last];
      FollowsInit(tr, i, init, last);
      Plays(tr, i, init);
      assert tr.Steps(i + |acts| - 1);
    }
  }

  // ---- Exactly when ----

  /** Some continuation of the trace after action i submits the token once more. */
  ghost predicate SubmittedAgain(tr: Trace, i: nat, token: Token) {
    exists next: Trace, j: nat :: Again(tr, next, i, j, token)
  }

  ghost predicate Again(tr: Trace, next: Trace, i: nat, j: nat, token: Token) {
    Continues(tr, next, i) && i < j && Submits(next.at(j), next.acts(j), token)
  }

  /** Action i is a refresh request with the token and its answer. */
  predicate Answered(tr: Trace, i: nat, token: Token) {
    Submits(tr.at(i), tr.acts(i), token) && (tr.acts(i).outcome.PostOk? ==> Succeeds(tr.at(i), tr.acts(i)))
  }

  /** The refresh failed, and its session had not been erased. */
  predicate FailedUnerased(tr: Trace, i: nat)
    requires tr.acts(i).Reply? && tr.acts(i).k in tr.at(i).slots && tr.at(i).slots[tr.acts(i).k].phase.Posting?
  {
    tr.acts(i).outcome.PostFailed? && Of(tr.at(i).heap, tr.at(i).slots[tr.acts(i).k].phase.s).track != Unknown
  }

  lemma AfterFailure(cfg: Config, st: State, k: Slot, next: State)
    requires Inv(st) && ExchangesOk(st.slots, st.heap) && k in st.slots && st.slots[k].phase.Posting?
    requires Of(st.heap, st.slots[k].phase.s).track != Unknown
    requires next == Step(cfg, st, Reply(k, PostFailed))
    ensures k == Home(k.flow) && Held(next, k.flow, st.slots[k].phase.s, st.slots[k].phase.token)
    ensures k in next.slots && next.slots[k].phase.Finished?
  {
    UpdatedIsKnown(st, k);
    assert ExchangeOk(st.slots[k].phase, st.heap);
  }

  lemma ReachesSubmission(cfg: Config, st: State, t: Track, s: SessionId, token: Token) returns (acts: seq<Action>)
    requires Held(st, t, s, token) && Home(t) in st.slots && st.slots[Home(t)].phase.Finished?
    ensures Runs(cfg, PlayFrom(cfg, st, acts), t, s, token, Posting(s, token))
  {
    var c := FreshCaller(st.callers, st.callers.Keys);
    acts := ReachesReady(cfg, st, t, s, token, c);
    acts := ReachesRun(cfg, st, t, s, token, c, acts);
    acts := ReachesPost(cfg, st, t, s, token, Getting, acts, 4);
  }

  lemma PlaysThen(tr: Trace, i: nat, acts: seq<Action>, a: Action)
    requires tr.Valid() && Follows(tr, i, acts + [a])
    ensures tr.at(i + |acts|) == PlayFrom(tr.cfg, tr.at(i), acts) && tr.acts(i + |acts|) == a
  {
    FollowsInit(tr, i, acts, a);
    Plays(tr, i, acts);
  }

  lemma FailedCanResubmit(tr: Trace, i: nat, token: Token) returns (next: Trace, j: nat)
    requires tr.Valid() && Answered(tr, i, token) && FailedUnerased(tr, i)
    ensures Again(tr, next, i, j, token)
  {
    var k, s := tr.acts(i).k, tr.at(i).slots[tr.acts(i).k].phase.s;
    AlwaysInv(tr, i);
    AlwaysExchanges(tr, i);
    assert tr.Steps(i);
    AfterFailure(tr.cfg, tr.at(i), k, tr.at(i + 1));
    var more := ReachesSubmission(tr.cfg, tr.at(i + 1), k.flow, s, token);
    next := Continued(tr, i, more + [Reply(k, PostFailed)]);
    j := i + 1 + |more|;
    PlaysThen(next, i + 1, more, Reply(k, PostFailed));
  }

  lemma OtherwiseNot(tr: Trace, i: nat, token: Token, next: Trace, j: nat)
    requires tr.Valid() && Answered(tr, i, token) && token != "" && !FailedUnerased(tr, i)
    ensures !Again(tr, next, i, j, token)
  {
    if Again(tr, next, i, j, token) {
      if tr.acts(i).outcome.PostOk? {
        SpentOnce(next, i, j, token);
      } else {
        AlwaysInv(next, i);
        AlwaysExchanges(next, i);
        FailureOfErasedIsDead(next.at(i), next.acts(i).k);
        assert next.Steps(i);
        StaysDead(next, i + 1, j, token);
        assert Carries(next.at(j).slots[next.acts(j).k].phase, token);
      }
      assert false;
    }
  }

  /** A non-empty token can be submitted again exactly if its refresh failed and the session
      had not been erased by then. */
  lemma SubmittedAgainIff(tr: Trace, i: nat, token: Token)
    requires tr.Valid() && Answered(tr, i, token) && token != ""
    ensures SubmittedAgain(tr, i, token) <==> FailedUnerased(tr, i)
  {
    if FailedUnerased(tr, i) {
      var next, j := FailedCanResubmit(tr, i, token);
    } else {
      forall next: Trace, j: nat
        ensures !Again(tr, next, i, j, token)
      {
        OtherwiseNot(tr, i, token, next, j);
      }
    }
  }

  /** So a failed refresh of a stored session does leave its token to be submitted again. */
  lemma FailedTokenIsResubmitted(cfg: Config) returns (tr: Trace)
    ensures tr.Valid() && Answered(tr, 11, "r") && SubmittedAgain(tr, 11, "r")
  {
    var due, home := cfg(Business) - 1, Home(Business);
    var acts := [Login(0, Business, "r", due), PutCheck(0), PutLock(0),
      Call(0, home), CallerStep(0), CallerStep(0), CallerStep(0),
      RunStep(home), RunStep(home), RunStep(home), RunStep(home), Reply(home, PostFailed)];
    tr := Scripted(cfg, acts);
    LogsIn(tr, due);
    RefreshTraces.Leads(tr, 3, due);
    Posts(tr, 7, due);
    SubmittedAgainIff(tr, 11, "r");
  }
}
