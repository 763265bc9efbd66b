/** auth.Track: which authentication track issued a session. */
module Tracks {
  datatype Track = Unknown | Business | Connect
}

/** The refresh protocol under concurrency: any number of Ensure callers, one AutoRefresher
    per flow over one MemoryStore, logins, deletions and the clock, interleaved at every
    lock and every remote call.

    A session is shared by pointer, so it has an identity and the heap holds its fields.
    Each locked section is one action. An action that is not enabled does nothing. */
module RefreshProtocol {
  import opened Tracks

  type SessionId = nat
  type CallerId = nat
  type Token = string      // "" when there is none

  const ZERO_TIME: int := 0

  /** The fields of a session that the protocol uses, and the track it was created with. */
  datatype Session = Session(origin: Track, track: Track, refreshToken: Token, expiresAt: int)

  type Heap = map<SessionId, Session>

  const NO_SESSION: Session := Session(Unknown, Unknown, "", ZERO_TIME)

  function Of(heap: Heap, s: SessionId): Session {
    if s in heap then heap[s] else NO_SESSION
  }

  /** A singleflight slot: the refresher it belongs to, by the track of its flow, and the
      track asked for. */
  datatype Slot = Slot(flow: Track, key: Track)

  /** One execution of the function under singleflight. */
  datatype RunId = RunId(slot: Slot, number: nat)

  datatype Result = Unrefreshed(s: SessionId) | Refreshed(s: SessionId) | Failed

  /** Where a run stands. */
  datatype Phase =
    | Getting
    | Rechecking(s: SessionId)
    | CheckingTrack(s: SessionId)                     // Refresh has been called
    | ReadingToken(s: SessionId)
    | Posting(s: SessionId, token: Token)
    | Updating(s: SessionId, newToken: Token, newExpiry: int)
    | PutChecking(s: SessionId)
    | PutLocking(s: SessionId)
    | Finished(result: Result)

  datatype Run = Run(number: nat, phase: Phase)

  type Slots = map<Slot, Run>

  /** Where a caller of Ensure stands. */
  datatype Stage =
    | Entering
    | FastChecking(s: SessionId)
    | AtSlot
    | Waiting(number: nat)
    | Done(result: Result)

  datatype Caller = Caller(slot: Slot, stage: Stage)

  type Owners = map<Token, SessionId>

  /** `owner` and `used` are history: the session each refresh token was issued to, and
      the non-empty tokens whose Refresh returned no error. */
  datatype State = State(
    now: int,
    heap: Heap,
    store: map<Track, SessionId>,
    putting: set<SessionId>,          // sessions of external Puts past their first check
    slots: Slots,
    runs: nat,
    results: map<RunId, Result>,
    callers: map<CallerId, Caller>,
    owner: Owners,
    used: set<Token>)

  /** The refreshers' thresholds, by flow. */
  type Config = Track -> int

  const INIT: State := State(ZERO_TIME, map[], map[], {}, map[], 0, map[], map[], map[], {})

  /** What upstream and the parsing of its reply make of a post. */
  datatype PostOutcome = PostOk(newToken: Token, newExpiry: int) | PostFailed

  /** Where a caller or a run stands fixes its next step, but for the reply to a post. */
  datatype Action =
    | Call(c: CallerId, slot: Slot)
    | CallerStep(c: CallerId)
    | RunStep(k: Slot)
    | Reply(k: Slot, outcome: PostOutcome)
    | Login(s: SessionId, track: Track, token: Token, expiry: int)
    | PutCheck(s: SessionId)
    | PutLock(s: SessionId)
    | Delete(track: Track)
    | Close
    | EraseUnstored(s: SessionId)
    | Tick(duration: nat)

  predicate NeedsRefresh(cfg: Config, st: State, flow: Track, s: SessionId) {
    st.now + cfg(flow) > Of(st.heap, s).expiresAt
  }

  // ---- The locked sections ----

  function Erased(x: Session): Session {
    x.(track := Unknown, refreshToken := "", expiresAt := ZERO_TIME)
  }

  function Erase(heap: Heap, s: SessionId): Heap {
    if s in heap then heap[s := Erased(heap[s])] else heap
  }

  /** The locked part of MemoryStore.Put; the track is read again inside. */
  function PutLocked(st: State, s: SessionId): State {
    var t := Of(st.heap, s).track;
    var heap := if t in st.store && st.store[t] != s then Erase(st.heap, st.store[t]) else st.heap;
    st.(heap := heap, store := st.store[t := s])
  }

  function DeleteLocked(st: State, t: Track): State {
    if t in st.store then st.(heap := Erase(st.heap, st.store[t]), store := st.store - {t}) else st
  }

  function EraseAll(heap: Heap, erased: set<SessionId>): Heap {
    map s | s in heap :: if s in erased then Erased(heap[s]) else heap[s]
  }

  function CloseLocked(st: State): State {
    st.(heap := EraseAll(st.heap, st.store.Values), store := map[])
  }

  // ---- The steps ----

  function Goto(slots: Slots, k: Slot, phase: Phase): Slots
    requires k in slots
  {
    slots[k := Run(slots[k].number, phase)]
  }

  /** Ensure: Get, the fast check, join or lead, and the wait for the run's result. */
  function NextStage(cfg: Config, st: State, slot: Slot, stage: Stage): Stage {
    match stage
    case Entering => if slot.key in st.store then FastChecking(st.store[slot.key]) else Done(Failed)
    case FastChecking(s) => if NeedsRefresh(cfg, st, slot.flow, s) then AtSlot else Done(Unrefreshed(s))
    case AtSlot => Waiting(if slot in st.slots then st.slots[slot].number else st.runs)
    case Waiting(number) =>
      var id := RunId(slot, number);
      if id in st.results then Done(st.results[id]) else stage
    case Done(_) => stage
  }

  /** The caller who finds the slot free leads: it starts a run. */
  function StepCaller(cfg: Config, st: State, c: CallerId): State
    requires c in st.callers
  {
    var Caller(slot, stage) := st.callers[c];
    var leads := stage.AtSlot? && slot !in st.slots;
    st.(callers := st.callers[c := Caller(slot, NextStage(cfg, st, slot, stage))],
        slots := if leads then st.slots[slot := Run(st.runs, Getting)] else st.slots,
        runs := if leads then st.runs + 1 else st.runs)
  }

  /** The steps of a run that read shared state and change only where the run stands. */
  function NextPhase(cfg: Config, st: State, k: Slot, p: Phase): Phase {
    match p
    case Getting => if k.key in st.store then Rechecking(st.store[k.key]) else Finished(Failed)
    case Rechecking(s) =>
      if NeedsRefresh(cfg, st, k.flow, s) then CheckingTrack(s) else Finished(Unrefreshed(s))
    case CheckingTrack(s) => if Of(st.heap, s).track != k.flow then Finished(Failed) else ReadingToken(s)
    case ReadingToken(s) => Posting(s, Of(st.heap, s).refreshToken)
    case PutChecking(s) => if Of(st.heap, s).track == Unknown then Finished(Failed) else PutLocking(s)
    case _ => p
  }

  /** The function under singleflight, Refresh and Put included; the slot is freed last. */
  function StepRun(cfg: Config, st: State, k: Slot): State
    requires k in st.slots
  {
    match st.slots[k].phase
    case Updating(s, newToken, newExpiry) =>
      st.(slots := Goto(st.slots, k, PutChecking(s)), heap := Update(st.heap, s, newToken, newExpiry))
    case PutLocking(s) => PutLocked(st, s).(slots := Goto(st.slots, k, Finished(Refreshed(s))))
    case Finished(result) =>
      st.(slots := st.slots - {k}, results := st.results[RunId(k, st.slots[k].number) := result])
    case p => st.(slots := Goto(st.slots, k, NextPhase(cfg, st, k, p)))
  }

  /** Refresh submits the token it read, and upstream answers. */
  function StepReply(st: State, k: Slot, outcome: PostOutcome): State
    requires k in st.slots && st.slots[k].phase.Posting?
  {
    var Posting(s, token) := st.slots[k].phase;
    match outcome
    case PostFailed => st.(slots := Goto(st.slots, k, Finished(Failed)))
    case PostOk(newToken, newExpiry) =>
      if !CanIssue(st.owner, newToken) then st
      else
        st.(slots := Goto(st.slots, k, Updating(s, newToken, newExpiry)),
            owner := Issue(st.owner, newToken, s),
            used := Spend(st.used, token))
  }

  function Update(heap: Heap, s: SessionId, newToken: Token, newExpiry: int): Heap {
    if s in heap then heap[s := heap[s].(refreshToken := newToken, expiresAt := newExpiry)] else heap
  }

  /** Upstream never issues a token twice. */
  predicate CanIssue(owner: Owners, token: Token) {
    token == "" || token !in owner
  }

  function Issue(owner: Owners, token: Token, s: SessionId): Owners {
    if token == "" then owner else owner[token := s]
  }

  function Spend(used: set<Token>, token: Token): set<Token> {
    if token == "" then used else used + {token}
  }

  function Step(cfg: Config, st: State, a: Action): State {
    match a
    case Call(c, slot) =>
      if c in st.callers || slot.flow == Unknown then st
      else st.(callers := st.callers[c := Caller(slot, Entering)])
    case CallerStep(c) => if c in st.callers then StepCaller(cfg, st, c) else st
    case RunStep(k) => if k in st.slots then StepRun(cfg, st, k) else st
    case Reply(k, outcome) =>
      if k in st.slots && st.slots[k].phase.Posting? then StepReply(st, k, outcome) else st
    case Login(s, track, token, expiry) =>
      if s in st.heap || track == Unknown || !CanIssue(st.owner, token) then st
      else
        st.(heap := st.heap[s := Session(track, track, token, expiry)], owner := Issue(st.owner, token, s))
    case PutCheck(s) =>
      if Of(st.heap, s).track == Unknown then st else st.(putting := st.putting + {s})
    case PutLock(s) => if s in st.putting then PutLocked(st, s) else st
    case Delete(track) => DeleteLocked(st, track)
    case Close => CloseLocked(st)
    case EraseUnstored(s) => if s in st.store.Values then st else st.(heap := Erase(st.heap, s))
    case Tick(duration) => st.(now := st.now + duration)
  }

  /** Who does what in which order, and the state before each action. A finite run is one
      whose later actions do nothing. */
  datatype Trace = Trace(cfg: Config, acts: nat -> Action, at: nat -> State) {
    predicate Steps(n: nat) {
      at(n + 1) == Step(cfg, at(n), acts(n))
    }

    ghost predicate Valid() {
      at(0) == INIT && forall n: nat :: Steps(n)
    }
  }

  /** The state before action number n. */
  function At(cfg: Config, acts: nat -> Action, n: nat): State {
    if n == 0 then INIT else Step(cfg, At(cfg, acts, n - 1), acts(n - 1))
  }

  /** Every schedule has its trace. */
  lemma TraceOf(cfg: Config, acts: nat -> Action)
    ensures Trace(cfg, acts, (n: nat) => At(cfg, acts, n)).Valid()
  {
    var tr := Trace(cfg, acts, (n: nat) => At(cfg, acts, n));
    forall n: nat
      ensures tr.Steps(n)
    {
    }
  }

  // ---- The invariant ----

  /** Every map entry's session has its key as its track. */
  ghost predicate StoreIsolated(store: map<Track, SessionId>, heap: Heap) {
    forall t :: t in store ==> store[t] in heap && heap[store[t]].track == t
  }

  /** A session keeps its track until it is erased, and holds only a token issued to it. */
  predicate SessionOk(s: SessionId, x: Session, owner: Owners) {
    && x.origin != Unknown
    && (x.track == x.origin || x.track == Unknown)
    && (x.refreshToken != "" ==> x.refreshToken in owner && owner[x.refreshToken] == s)
  }

  ghost predicate HeapOk(heap: Heap, owner: Owners) {
    forall s :: s in heap ==> SessionOk(s, heap[s], owner)
  }

  predicate HoldsSession(p: Phase) {
    !p.Getting? && !p.Finished?
  }

  /** Refresh has found the session on its own track and has not updated it yet. */
  predicate Exchanging(p: Phase) {
    p.ReadingToken? || p.Posting? || p.Updating?
  }

  predicate Unspent(owner: Owners, used: set<Token>, token: Token, s: SessionId) {
    token == "" || (token in owner && owner[token] == s && token !in used)
  }

  predicate RunOk(k: Slot, p: Phase, heap: Heap, owner: Owners, used: set<Token>) {
    && k.flow != Unknown
    && (HoldsSession(p) ==> p.s in heap && (heap[p.s].track == k.key || heap[p.s].track == Unknown))
    && (Exchanging(p) ==> k.flow == k.key == heap[p.s].origin)
    && (p.Posting? ==> Unspent(owner, used, p.token, p.s))
    && (p.Updating? ==> Unspent(owner, used, p.newToken, p.s))
  }

  ghost predicate RunsOk(slots: Slots, heap: Heap, owner: Owners, used: set<Token>) {
    forall k :: k in slots ==> RunOk(k, slots[k].phase, heap, owner, used)
  }

  /** The slot in which sessions of a track are exchanged. */
  function Home(track: Track): Slot {
    Slot(track, track)
  }

  predicate BeingUpdated(slots: Slots, track: Track, s: SessionId) {
    Home(track) in slots && slots[Home(track)].phase.Updating? && slots[Home(track)].phase.s == s
  }

  /** A session still holding a spent token is about to be updated. */
  ghost predicate SpentOk(heap: Heap, slots: Slots, owner: Owners, used: set<Token>) {
    && "" !in used
    && (forall token :: token in used ==> token in owner)
    && forall s :: s in heap && heap[s].refreshToken in used ==> BeingUpdated(slots, heap[s].origin, s)
  }

  ghost predicate PeopleOk(putting: set<SessionId>, heap: Heap, callers: map<CallerId, Caller>) {
    && (forall s :: s in putting ==> s in heap)
    && (forall c :: c in callers ==> callers[c].slot.flow != Unknown)
  }

  ghost predicate Inv(st: State) {
    && StoreIsolated(st.store, st.heap)
    && HeapOk(st.heap, st.owner)
    && RunsOk(st.slots, st.heap, st.owner, st.used)
    && SpentOk(st.heap, st.slots, st.owner, st.used)
    && PeopleOk(st.putting, st.heap, st.callers)
  }

  // ---- Erasing keeps the invariant ----

  /** The second heap is the first with some sessions erased. */
  ghost predicate SomeErased(heap: Heap, after: Heap) {
    && after.Keys == heap.Keys
    && forall s :: s in heap ==> after[s] == heap[s] || after[s] == Erased(heap[s])
  }

  lemma EraseErases(heap: Heap, s: SessionId)
    ensures SomeErased(heap, Erase(heap, s))
  {
  }

  lemma ErasingKeepsRuns(heap: Heap, after: Heap, slots: Slots, owner: Owners, used: set<Token>)
    requires SomeErased(heap, after) && RunsOk(slots, heap, owner, used)
    ensures RunsOk(slots, after, owner, used)
  {
    forall k | k in slots
      ensures RunOk(k, slots[k].phase, after, owner, used)
    {
      assert RunOk(k, slots[k].phase, heap, owner, used);
    }
  }

  lemma ErasingKeeps(st: State, next: State)
    requires Inv(st) && SomeErased(st.heap, next.heap)
    requires StoreIsolated(next.store, next.heap)
    requires next == st.(heap := next.heap, store := next.store)
    ensures Inv(next)
  {
    ErasingKeepsRuns(st.heap, next.heap, st.slots, st.owner, st.used);
  }

  lemma PutIsolates(store: map<Track, SessionId>, heap: Heap, s: SessionId, t: Track)
    requires StoreIsolated(store, heap) && s in heap && heap[s].track == t
    ensures var after := if t in store && store[t] != s then Erase(heap, store[t]) else heap;
      SomeErased(heap, after) && StoreIsolated(store[t := s], after)
  {
  }

  lemma PutKeeps(st: State, s: SessionId)
    requires Inv(st) && s in st.heap
    ensures Inv(PutLocked(st, s))
  {
    PutIsolates(st.store, st.heap, s, st.heap[s].track);
    ErasingKeeps(st, PutLocked(st, s));
  }

  lemma DeleteKeeps(st: State, t: Track)
    requires Inv(st)
    ensures Inv(DeleteLocked(st, t))
  {
    if t in st.store {
      EraseErases(st.heap, st.store[t]);
      ErasingKeeps(st, DeleteLocked(st, t));
    }
  }

  lemma CloseKeeps(st: State)
    requires Inv(st)
    ensures Inv(CloseLocked(st))
  {
    ErasingKeeps(st, CloseLocked(st));
  }

  lemma EraseUnstoredKeeps(st: State, s: SessionId)
    requires Inv(st) && s !in st.store.Values
    ensures Inv(st.(heap := Erase(st.heap, s)))
  {
    EraseErases(st.heap, s);
    ErasingKeeps(st, st.(heap := Erase(st.heap, s)));
  }

  // ---- A run's own steps keep the invariant ----

  lemma MovingKeeps(st: State, k: Slot, p: Phase)
    requires Inv(st) && k in st.slots && !st.slots[k].phase.Updating?
    requires RunOk(k, p, st.heap, st.owner, st.used)
    ensures Inv(st.(slots := Goto(st.slots, k, p)))
  {
  }

  /** A session read from the heap for the exchange has not spent its token: only the run
      in its home slot could, and that run has yet to read it. */
  lemma TokenReadIsUnspent(st: State, k: Slot)
    requires Inv(st) && k in st.slots && st.slots[k].phase.ReadingToken?
    ensures var s := st.slots[k].phase.s;
      s in st.heap && Unspent(st.owner, st.used, st.heap[s].refreshToken, s)
  {
    var s := st.slots[k].phase.s;
    assert RunOk(k, st.slots[k].phase, st.heap, st.owner, st.used);
    assert SessionOk(s, st.heap[s], st.owner);
    assert k == Home(st.heap[s].origin);
  }

  lemma NextPhaseIsOk(cfg: Config, st: State, k: Slot)
    requires Inv(st) && k in st.slots
    ensures RunOk(k, NextPhase(cfg, st, k, st.slots[k].phase), st.heap, st.owner, st.used)
  {
    var p := st.slots[k].phase;
    assert RunOk(k, p, st.heap, st.owner, st.used);
    if p.ReadingToken? {
      TokenReadIsUnspent(st, k);
    } else if p.CheckingTrack? {
      assert SessionOk(p.s, st.heap[p.s], st.owner);
    }
  }

  // ---- The exchange keeps the invariant ----

  /** Mutual exclusion: one session is exchanged in at most one slot. */
  lemma OneExchangePerSession(st: State, k: Slot, l: Slot)
    requires Inv(st) && k in st.slots && l in st.slots
    requires Exchanging(st.slots[k].phase) && Exchanging(st.slots[l].phase)
    requires st.slots[k].phase.s == st.slots[l].phase.s
    ensures k == l
  {
    assert RunOk(k, st.slots[k].phase, st.heap, st.owner, st.used);
    assert RunOk(l, st.slots[l].phase, st.heap, st.owner, st.used);
  }

  /** Spending one session's token leaves another session's tokens unspent. */
  lemma OthersStayOk(l: Slot, p: Phase, st: State, s: SessionId, token: Token, newToken: Token)
    requires RunOk(l, p, st.heap, st.owner, st.used)
    requires Exchanging(p) ==> p.s != s
    requires Unspent(st.owner, st.used, token, s) && CanIssue(st.owner, newToken)
    ensures RunOk(l, p, st.heap, Issue(st.owner, newToken, s), Spend(st.used, token))
  {
  }

  lemma PostKeepsRuns(st: State, k: Slot, newToken: Token, newExpiry: int)
    requires Inv(st) && k in st.slots && st.slots[k].phase.Posting? && CanIssue(st.owner, newToken)
    ensures var p := st.slots[k].phase;
      RunsOk(Goto(st.slots, k, Updating(p.s, newToken, newExpiry)), st.heap,
             Issue(st.owner, newToken, p.s), Spend(st.used, p.token))
  {
    var Posting(s, token) := st.slots[k].phase;
    assert RunOk(k, st.slots[k].phase, st.heap, st.owner, st.used);
    var slots := Goto(st.slots, k, Updating(s, newToken, newExpiry));
    forall l | l in slots
      ensures RunOk(l, slots[l].phase, st.heap, Issue(st.owner, newToken, s), Spend(st.used, token))
    {
      if l != k {
        if Exchanging(st.slots[l].phase) && st.slots[l].phase.s == s {
          OneExchangePerSession(st, k, l);
        }
        OthersStayOk(l, st.slots[l].phase, st, s, token, newToken);
      }
    }
  }

  lemma IssuingKeepsHeap(heap: Heap, owner: Owners, newToken: Token, s: SessionId)
    requires HeapOk(heap, owner) && CanIssue(owner, newToken)
    ensures HeapOk(heap, Issue(owner, newToken, s))
  {
    forall x | x in heap
      ensures SessionOk(x, heap[x], Issue(owner, newToken, s))
    {
      assert SessionOk(x, heap[x], owner);
    }
  }

  lemma PostKeepsSpent(st: State, k: Slot, newToken: Token, newExpiry: int)
    requires Inv(st) && k in st.slots && st.slots[k].phase.Posting? && CanIssue(st.owner, newToken)
    ensures var p := st.slots[k].phase;
      SpentOk(st.heap, Goto(st.slots, k, Updating(p.s, newToken, newExpiry)),
              Issue(st.owner, newToken, p.s), Spend(st.used, p.token))
  {
    var Posting(s, token) := st.slots[k].phase;
    assert RunOk(k, st.slots[k].phase, st.heap, st.owner, st.used);
    var slots := Goto(st.slots, k, Updating(s, newToken, newExpiry));
    var used := Spend(st.used, token);
    forall x | x in st.heap && st.heap[x].refreshToken in used
      ensures BeingUpdated(slots, st.heap[x].origin, x)
    {
      assert SessionOk(x, st.heap[x], st.owner);
      if st.heap[x].refreshToken in st.used {
        assert BeingUpdated(st.slots, st.heap[x].origin, x);
      }
    }
  }

  lemma ReplyKeeps(st: State, k: Slot, outcome: PostOutcome)
    requires Inv(st) && k in st.slots && st.slots[k].phase.Posting?
    ensures Inv(StepReply(st, k, outcome))
  {
    match outcome
    case PostFailed =>
      assert RunOk(k, st.slots[k].phase, st.heap, st.owner, st.used);
      MovingKeeps(st, k, Finished(Failed));
    case PostOk(newToken, newExpiry) =>
      if CanIssue(st.owner, newToken) {
        PostKeepsRuns(st, k, newToken, newExpiry);
        IssuingKeepsHeap(st.heap, st.owner, newToken, st.slots[k].phase.s);
        PostKeepsSpent(st, k, newToken, newExpiry);
      }
  }

  lemma UpdateKeepsRuns(st: State, k: Slot)
    requires Inv(st) && k in st.slots && st.slots[k].phase.Updating?
    ensures var p := st.slots[k].phase;
      RunsOk(Goto(st.slots, k, PutChecking(p.s)), Update(st.heap, p.s, p.newToken, p.newExpiry), st.owner, st.used)
  {
    var p := st.slots[k].phase;
    var slots := Goto(st.slots, k, PutChecking(p.s));
    assert RunOk(k, p, st.heap, st.owner, st.used);
    forall l | l in slots
      ensures RunOk(l, slots[l].phase, Update(st.heap, p.s, p.newToken, p.newExpiry), st.owner, st.used)
    {
      assert RunOk(l, st.slots[l].phase, st.heap, st.owner, st.used);
    }
  }

  lemma UpdateKeepsHeap(st: State, k: Slot)
    requires Inv(st) && k in st.slots && st.slots[k].phase.Updating?
    ensures var p := st.slots[k].phase;
      var heap := Update(st.heap, p.s, p.newToken, p.newExpiry);
      HeapOk(heap, st.owner) && SpentOk(heap, Goto(st.slots, k, PutChecking(p.s)), st.owner, st.used)
  {
    var p := st.slots[k].phase;
    assert RunOk(k, p, st.heap, st.owner, st.used);
    var heap := Update(st.heap, p.s, p.newToken, p.newExpiry);
    assert SessionOk(p.s, st.heap[p.s], st.owner);
    assert SessionOk(p.s, heap[p.s], st.owner);
  }

  lemma UpdateKeeps(cfg: Config, st: State, k: Slot)
    requires Inv(st) && k in st.slots && st.slots[k].phase.Updating?
    ensures Inv(StepRun(cfg, st, k))
  {
    UpdateKeepsRuns(st, k);
    UpdateKeepsHeap(st, k);
  }

  // ---- Every action keeps the invariant ----

  lemma ReleaseKeeps(cfg: Config, st: State, k: Slot)
    requires Inv(st) && k in st.slots && st.slots[k].phase.Finished?
    ensures Inv(StepRun(cfg, st, k))
  {
  }

  lemma PutLockKeeps(cfg: Config, st: State, k: Slot)
    requires Inv(st) && k in st.slots && st.slots[k].phase.PutLocking?
    ensures Inv(StepRun(cfg, st, k))
  {
    var s := st.slots[k].phase.s;
    assert RunOk(k, st.slots[k].phase, st.heap, st.owner, st.used);
    PutKeeps(st, s);
    MovingKeeps(PutLocked(st, s), k, Finished(Refreshed(s)));
  }

  lemma RunKeeps(cfg: Config, st: State, k: Slot)
    requires Inv(st) && k in st.slots
    ensures Inv(StepRun(cfg, st, k))
  {
    match st.slots[k].phase
    case Updating(_, _, _) => UpdateKeeps(cfg, st, k);
    case PutLocking(_) => PutLockKeeps(cfg, st, k);
    case Finished(_) => ReleaseKeeps(cfg, st, k);
    case p =>
      NextPhaseIsOk(cfg, st, k);
      MovingKeeps(st, k, NextPhase(cfg, st, k, p));
  }

  lemma LeadKeeps(slots: Slots, k: Slot, number: nat, heap: Heap, owner: Owners, used: set<Token>)
    requires RunsOk(slots, heap, owner, used) && SpentOk(heap, slots, owner, used)
    requires k !in slots && k.flow != Unknown
    ensures var led := slots[k := Run(number, Getting)];
      RunsOk(led, heap, owner, used) && SpentOk(heap, led, owner, used)
  {
  }

  lemma CallerKeeps(cfg: Config, st: State, c: CallerId)
    requires Inv(st) && c in st.callers
    ensures Inv(StepCaller(cfg, st, c))
  {
    var slot := st.callers[c].slot;
    if st.callers[c].stage.AtSlot? && slot !in st.slots {
      LeadKeeps(st.slots, slot, st.runs, st.heap, st.owner, st.used);
    }
  }

  lemma LoginKeepsRuns(st: State, s: SessionId, x: Session)
    requires RunsOk(st.slots, st.heap, st.owner, st.used) && s !in st.heap && CanIssue(st.owner, x.refreshToken)
    requires forall token :: token in st.used ==> token in st.owner
    ensures RunsOk(st.slots, st.heap[s := x], Issue(st.owner, x.refreshToken, s), st.used)
  {
    forall k | k in st.slots
      ensures RunOk(k, st.slots[k].phase, st.heap[s := x], Issue(st.owner, x.refreshToken, s), st.used)
    {
      assert RunOk(k, st.slots[k].phase, st.heap, st.owner, st.used);
    }
  }

  lemma LoginKeepsHeap(heap: Heap, owner: Owners, s: SessionId, x: Session)
    requires HeapOk(heap, owner) && s !in heap && CanIssue(owner, x.refreshToken)
    requires x.track == x.origin != Unknown
    ensures HeapOk(heap[s := x], Issue(owner, x.refreshToken, s))
  {
    IssuingKeepsHeap(heap, owner, x.refreshToken, s);
  }

  lemma LoginKeeps(cfg: Config, st: State, s: SessionId, track: Track, token: Token, expiry: int)
    requires Inv(st) && s !in st.heap && track != Unknown && CanIssue(st.owner, token)
    ensures Inv(Step(cfg, st, Login(s, track, token, expiry)))
  {
    var x := Session(track, track, token, expiry);
    LoginKeepsRuns(st, s, x);
    LoginKeepsHeap(st.heap, st.owner, s, x);
  }

  lemma StepKeeps(cfg: Config, st: State, a: Action)
    requires Inv(st)
    ensures Inv(Step(cfg, st, a))
  {
    match a
    case Call(_, _) =>
    case CallerStep(c) =>
      if c in st.callers {
        CallerKeeps(cfg, st, c);
      }
    case RunStep(k) =>
      if k in st.slots {
        RunKeeps(cfg, st, k);
      }
    case Reply(k, outcome) =>
      if k in st.slots && st.slots[k].phase.Posting? {
        ReplyKeeps(st, k, outcome);
      }
    case Login(s, track, token, expiry) =>
      if s !in st.heap && track != Unknown && CanIssue(st.owner, token) {
        LoginKeeps(cfg, st, s, track, token, expiry);
      }
    case PutCheck(_) =>
    case PutLock(s) =>
      if s in st.putting {
        PutKeeps(st, s);
      }
    case Delete(track) => DeleteKeeps(st, track);
    case Close => CloseKeeps(st);
    case EraseUnstored(s) =>
      if s !in st.store.Values {
        EraseUnstoredKeeps(st, s);
      }
    case Tick(_) =>
  }

  /** The invariant holds in every reachable state. */
  lemma {:induction false} AlwaysInv(tr: Trace, n: nat)
    requires tr.Valid()
    ensures Inv(tr.at(n))
  {
    if n == 0 {
    } else {
      AlwaysInv(tr, n - 1);
      StepKeeps(tr.cfg, tr.at(n - 1), tr.acts(n - 1));
      assert tr.Steps(n - 1);
    }
  }
}
