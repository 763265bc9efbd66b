/** Where the things that a step of the refresh protocol uses come from, over whole runs. */
module RefreshOrigins {
  import opened Tracks
  import opened RefreshProtocol
  import opened RefreshTraces

  // ---- The tokens of an update are upstream's reply ----

  /** Action i is upstream's reply to the run's post for session s. */
  predicate Answers(tr: Trace, i: nat, id: RunId, s: SessionId, token: Token, expiry: int) {
    && tr.acts(i) == Reply(id.slot, PostOk(token, expiry)) && id.slot in tr.at(i).slots
    && tr.at(i).slots[id.slot].number == id.number
    && tr.at(i).slots[id.slot].phase.Posting? && tr.at(i).slots[id.slot].phase.s == s
  }

  predicate IsUpdating(slots: Slots, id: RunId, s: SessionId, token: Token, expiry: int) {
    id.slot in slots && slots[id.slot] == Run(id.number, Updating(s, token, expiry))
  }

  /** What happens outside Ensure leaves the slots alone. */
  lemma OthersLeave(cfg: Config, st: State, a: Action)
    requires !a.CallerStep? && !a.RunStep? && !a.Reply?
    ensures Step(cfg, st, a).slots == st.slots
    ensures forall s :: s in Step(cfg, st, a).putting && s !in st.putting ==>
              a == PutCheck(s) && Of(st.heap, s).track != Unknown
  {
  }

  lemma NoRunStartsUpdating(cfg: Config, st: State, k: Slot)
    requires k in st.slots
    ensures k in StepRun(cfg, st, k).slots ==> !StepRun(cfg, st, k).slots[k].phase.Updating?
  {
    match st.slots[k].phase
    case Updating(_, _, _) =>
    case PutLocking(_) =>
    case Finished(_) =>
    case _ =>
  }

  lemma ReplyUpdating(st: State, k: Slot, outcome: PostOutcome, s: SessionId, token: Token, expiry: int)
    requires k in st.slots && st.slots[k].phase.Posting?
    ensures var next := StepReply(st, k, outcome);
      && k in next.slots && next.slots[k].number == st.slots[k].number
      && (next.slots[k].phase == Updating(s, token, expiry) ==>
            outcome == PostOk(token, expiry) && st.slots[k].phase.s == s)
  {
  }

  lemma StepUpdating(tr: Trace, n: nat, st: State, id: RunId, s: SessionId, token: Token, expiry: int)
    requires st == tr.at(n) && IsUpdating(Step(tr.cfg, st, tr.acts(n)).slots, id, s, token, expiry)
    ensures IsUpdating(st.slots, id, s, token, expiry) || Answers(tr, n, id, s, token, expiry)
  {
    match tr.acts(n)
    case CallerStep(c) =>
      if c in st.callers {
        CallersLeave(tr.cfg, st, c, id.slot);
      }
    case RunStep(k) =>
      if k in st.slots {
        if k == id.slot {
          NoRunStartsUpdating(tr.cfg, st, k);
        } else {
          OtherRunsLeave(tr.cfg, st, k, id.slot);
        }
      }
    case Reply(k, outcome) =>
      if k in st.slots && st.slots[k].phase.Posting? {
        if k == id.slot {
          ReplyUpdating(st, k, outcome, s, token, expiry);
        } else {
          ReplyLeaves(st, k, outcome, id.slot);
        }
      }
    case a => OthersLeave(tr.cfg, st, a);
  }

  lemma {:induction false} UpdatingIsAnswered(tr: Trace, n: nat, id: RunId, s: SessionId, token: Token, expiry: int)
    returns (i: nat)
    requires tr.Valid() && IsUpdating(tr.at(n).slots, id, s, token, expiry)
    ensures i < n && Answers(tr, i, id, s, token, expiry)
  {
    assert n > 0;
    assert tr.Steps(n - 1);
    StepUpdating(tr, n - 1, tr.at(n - 1), id, s, token, expiry);
    if IsUpdating(tr.at(n - 1).slots, id, s, token, expiry) {
      i := UpdatingIsAnswered(tr, n - 1, id, s, token, expiry);
    } else {
      i := n - 1;
    }
  }

  /** A run's update leaves the session with the token and the expiry that upstream answered
      to the post of that run, and with the track it had. */
  lemma UpdateIsAnswered(tr: Trace, n: nat, id: RunId, s: SessionId) returns (i: nat, token: Token, expiry: int)
    requires tr.Valid() && RunUpdates(tr, n, id, s)
    ensures i < n && Answers(tr, i, id, s, token, expiry)
    ensures s in tr.at(n).heap && s in tr.at(n + 1).heap
    ensures tr.at(n + 1).heap[s].refreshToken == token && tr.at(n + 1).heap[s].expiresAt == expiry
    ensures tr.at(n + 1).heap[s].track == tr.at(n).heap[s].track
  {
    token, expiry := tr.at(n).slots[id.slot].phase.newToken, tr.at(n).slots[id.slot].phase.newExpiry;
    i := UpdatingIsAnswered(tr, n, id, s, token, expiry);
    AlwaysInv(tr, n);
    UpdatedIsKnown(tr.at(n), id.slot);
    assert tr.Steps(n);
    RefreshChangesSession(tr.cfg, tr.at(n), tr.acts(n), s);
  }

  // ---- What lands erased was erased between the halves of its Put ----

  /** The session whose Put is about to take its locked half: of an external Put, or of the
      run in a slot. */
  datatype Putter = External | OfRun(k: Slot)

  /** Action n is the locked half of a Put of session s. */
  predicate PutsLocked(tr: Trace, n: nat, p: Putter, s: SessionId) {
    match p
    case External => tr.acts(n) == PutLock(s) && s in tr.at(n).putting
    case OfRun(k) => tr.acts(n) == RunStep(k) && k in tr.at(n).slots && tr.at(n).slots[k].phase == PutLocking(s)
  }

  /** Action m is the first half, and the session has a track there. */
  predicate PutsChecked(tr: Trace, m: nat, p: Putter, s: SessionId) {
    && Of(tr.at(m).heap, s).track != Unknown
    && match p
       case External => tr.acts(m) == PutCheck(s)
       case OfRun(k) => tr.acts(m) == RunStep(k) && k in tr.at(m).slots && tr.at(m).slots[k].phase == PutChecking(s)
  }

  predicate IsPutting(st: State, p: Putter, s: SessionId) {
    match p
    case External => s in st.putting
    case OfRun(k) => k in st.slots && st.slots[k].phase == PutLocking(s)
  }

  lemma RunLocking(cfg: Config, st: State, k: Slot, s: SessionId)
    requires k in st.slots && IsPutting(StepRun(cfg, st, k), OfRun(k), s)
    ensures st.slots[k].phase == PutChecking(s) && Of(st.heap, s).track != Unknown
  {
    match st.slots[k].phase
    case Updating(_, _, _) =>
    case PutLocking(_) =>
    case Finished(_) =>
    case _ =>
  }

  lemma StepPutting(tr: Trace, n: nat, st: State, p: Putter, s: SessionId)
    requires st == tr.at(n) && IsPutting(Step(tr.cfg, st, tr.acts(n)), p, s)
    ensures IsPutting(st, p, s) || PutsChecked(tr, n, p, s)
  {
    var k := if p.OfRun? then p.k else Home(Unknown);
    match tr.acts(n)
    case CallerStep(c) =>
      if c in st.callers {
        CallersLeave(tr.cfg, st, c, k);
      }
    case RunStep(l) =>
      if l in st.slots {
        RunPutting(tr.cfg, st, l);
        if p.OfRun? {
          if l == k {
            RunLocking(tr.cfg, st, k, s);
          } else {
            OtherRunsLeave(tr.cfg, st, l, k);
          }
        }
      }
    case Reply(l, outcome) =>
      if l in st.slots && st.slots[l].phase.Posting? {
        ReplyPutting(st, l, outcome, k);
      }
    case a => OthersLeave(tr.cfg, st, a);
  }

  lemma RunPutting(cfg: Config, st: State, l: Slot)
    requires l in st.slots
    ensures StepRun(cfg, st, l).putting == st.putting
  {
    match st.slots[l].phase
    case Updating(_, _, _) =>
    case PutLocking(_) =>
    case Finished(_) =>
    case _ =>
  }

  lemma ReplyPutting(st: State, l: Slot, outcome: PostOutcome, k: Slot)
    requires l in st.slots && st.slots[l].phase.Posting?
    ensures var next := StepReply(st, l, outcome);
      && next.putting == st.putting
      && (k in next.slots && next.slots[k].phase.PutLocking? ==> k in st.slots && next.slots[k] == st.slots[k])
  {
  }

  lemma {:induction false} PuttingIsChecked(tr: Trace, n: nat, p: Putter, s: SessionId) returns (m: nat)
    requires tr.Valid() && IsPutting(tr.at(n), p, s)
    ensures m < n && PutsChecked(tr, m, p, s)
  {
    assert n > 0;
    assert tr.Steps(n - 1);
    StepPutting(tr, n - 1, tr.at(n - 1), p, s);
    if IsPutting(tr.at(n - 1), p, s) {
      m := PuttingIsChecked(tr, n - 1, p, s);
    } else {
      m := n - 1;
    }
  }

  lemma {:induction false} ErasedBetween(tr: Trace, m: nat, n: nat, s: SessionId) returns (l: nat)
    requires tr.Valid() && m <= n
    requires Of(tr.at(m).heap, s).track != Unknown && Of(tr.at(n).heap, s).track == Unknown
    ensures m <= l < n && Erases(tr.at(l), tr.acts(l), s)
    decreases n
  {
    assert tr.Steps(n - 1);
    if Of(tr.at(n - 1).heap, s).track == Unknown {
      l := ErasedBetween(tr, m, n - 1, s);
    } else {
      StepErases(tr.cfg, tr.at(n - 1), tr.acts(n - 1), s);
      l := n - 1;
    }
  }

  lemma StepErases(cfg: Config, st: State, a: Action, s: SessionId)
    requires Of(st.heap, s).track != Unknown && Of(Step(cfg, st, a).heap, s).track == Unknown
    ensures Erases(st, a, s)
  {
    StepChangesSession(cfg, st, a, s);
    if Refreshes(st, a, s) {
      RefreshChangesSession(cfg, st, a, s);
      assert false;
    }
  }

  /** A Put that finds its session erased in its locked half had found it with a track in
      its first half, and the session was erased in between. */
  lemma LandsErasedOnlyIf(tr: Trace, n: nat, p: Putter, s: SessionId) returns (m: nat, l: nat)
    requires tr.Valid() && PutsLocked(tr, n, p, s) && Of(tr.at(n).heap, s).track == Unknown
    ensures m < l < n && PutsChecked(tr, m, p, s) && Erases(tr.at(l), tr.acts(l), s)
  {
    m := PuttingIsChecked(tr, n, p, s);
    l := ErasedBetween(tr, m, n, s);
    assert p.OfRun? ==> !tr.at(m).slots[p.k].phase.PutLocking?;
  }

  // ---- The two checks ----

  /** A caller whose session has the threshold left returns it without joining a run, and a
      run whose session has it left ends without calling Refresh; otherwise both go on. */
  lemma ChecksDecide(cfg: Config, st: State, c: CallerId, k: Slot, s: SessionId)
    ensures c in st.callers && st.callers[c].stage == FastChecking(s) ==>
              var next := Step(cfg, st, CallerStep(c));
              && next.slots == st.slots
              && next.callers[c].stage ==
                 if st.now + cfg(st.callers[c].slot.flow) <= Of(st.heap, s).expiresAt
                 then Done(Unrefreshed(s)) else AtSlot
    ensures k in st.slots && st.slots[k].phase == Rechecking(s) ==>
              var next := Step(cfg, st, RunStep(k));
              && next.heap == st.heap
              && next.slots[k].phase ==
                 if st.now + cfg(k.flow) <= Of(st.heap, s).expiresAt then Finished(Unrefreshed(s)) else CheckingTrack(s)
  {
  }
}
