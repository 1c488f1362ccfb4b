/** What every run of the presence coordinator keeps. */
module PresenceSafety {
  import opened Crypto
  import opened OpEncoding
  import opened PresenceGate
  import opened Presence

  // ---- the slot --------------------------------------------------------------------

  predicate TaskHoldsSlot(s: State, c: CallId) {
    c in s.tasks && (s.tasks[c].InFlight? || s.tasks[c].Returned?)
  }

  predicate CallHoldsSlot(s: State, c: CallId) {
    && c in s.calls
    && (s.calls[c].phase == Vacating(Admitted) || s.calls[c].phase.Admitted? || s.calls[c].phase.Uncancelled?)
  }

  predicate VacatesTo(phase: Phase) {
    phase.Admitted? || phase.Dropped? || (phase.Over? && phase.verdict.Denial?)
  }

  /** A task exists from the moment its call prompts, and a call that was told
  `Verified` has a task that delivered the backend's approval. */
  predicate PhaseOk(s: State, c: CallId) {
    && (c in s.tasks ==> c in s.calls && (s.calls[c].phase.Prompting? || !Alive(s.calls[c])))
    && (c in s.calls ==>
          && (s.calls[c].phase.Prompting? ==> c in s.tasks)
          && (s.calls[c].phase.Vacating? ==> VacatesTo(s.calls[c].phase.next))
          && (s.calls[c].phase.Over? && s.calls[c].phase.verdict.Verified? ==>
                c in s.tasks && s.tasks[c] == Delivered(Some(Approved(s.calls[c].phase.verdict.modality)))))
  }

  /** The slot is held by exactly the call that is between acquiring it and
  spawning its task, or whose task has not released it. */
  ghost predicate SlotInv(s: State) {
    && (forall c: CallId :: PhaseOk(s, c))
    && (forall c: CallId :: s.slot == Some(c) <==> HoldsSlot(s, c))
  }

  /** The call whose phase or task a step changes. */
  function CallOf(e: Event): Option<CallId> {
    match e
    case StartVerify(c, _, _, _) => Some(c)
    case TryAcquire(c) => Some(c)
    case TakePlace(c) => Some(c)
    case Decide(c) => Some(c)
    case QueueCancelled(c) => Some(c)
    case QueueExpired(c) => Some(c)
    case Acquire(c) => Some(c)
    case ReturnPlace(c) => Some(c)
    case CheckCancel(c) => Some(c)
    case CheckDeadline(c) => Some(c)
    case BackendEnds(c, _) => Some(c)
    case ReleaseSlot(c) => Some(c)
    case Deliver(c) => Some(c)
    case PromptCancelled(c) => Some(c)
    case PromptExpired(c) => Some(c)
    case Receive(c) => Some(c)
    case AbortCall(c) => Some(c)
    case _ => None
  }

  predicate HoldsSlot(s: State, c: CallId) {
    CallHoldsSlot(s, c) || TaskHoldsSlot(s, c)
  }

  ghost predicate SameCall(s: State, t: State, c: CallId) {
    && (c in t.calls <==> c in s.calls) && (c in s.calls ==> t.calls[c] == s.calls[c])
    && (c in t.tasks <==> c in s.tasks) && (c in s.tasks ==> t.tasks[c] == s.tasks[c])
  }

  /** A step leaves every other call and task as they are. */
  lemma StepIsLocal(s: State, e: Event, c: CallId)
    requires Enabled(s, e) && CallOf(e) != Some(c)
    ensures SameCall(s, Apply(s, e), c)
  {
    if CallOf(e).Some? {
      OthersStay(s, e, c);
    }
  }

  lemma OthersStay(s: State, e: Event, c: CallId)
    requires Enabled(s, e) && CallOf(e).Some? && CallOf(e).value != c
    ensures SameCall(s, Apply(s, e), c)
  {
  }

  /** What a step does to the slot. */
  lemma StepOnOwnSlot(s: State, e: Event, c: CallId)
    requires PhaseOk(s, c) && (s.slot == Some(c) <==> HoldsSlot(s, c)) && Enabled(s, e) && CallOf(e) == Some(c)
    ensures
      var t := Apply(s, e);
      || (HoldsSlot(t, c) && t.slot == Some(c) && (s.slot == Some(c) || s.slot.None?))
      || (!HoldsSlot(t, c) && t.slot == (if s.slot == Some(c) then None else s.slot))
  {
  }

  lemma StepOnOwnPhase(s: State, e: Event, c: CallId)
    requires PhaseOk(s, c) && Enabled(s, e) && CallOf(e) == Some(c)
    ensures PhaseOk(Apply(s, e), c)
  {
  }

  lemma SlotStep(s: State, e: Event)
    requires SlotInv(s) && Enabled(s, e)
    ensures SlotInv(Apply(s, e))
  {
    var t := Apply(s, e);
    if CallOf(e).Some? {
      assert PhaseOk(s, CallOf(e).value) && (s.slot == Some(CallOf(e).value) <==> HoldsSlot(s, CallOf(e).value));
      StepOnOwnSlot(s, e, CallOf(e).value);
      StepOnOwnPhase(s, e, CallOf(e).value);
    } else {
      assert t.slot == s.slot;
    }
    forall c: CallId
      ensures PhaseOk(t, c)
      ensures t.slot == Some(c) <==> HoldsSlot(t, c)
    {
      assert PhaseOk(s, c);
      assert s.slot == Some(c) <==> HoldsSlot(s, c);
      if CallOf(e) != Some(c) {
        StepIsLocal(s, e, c);
      }
    }
  }

  // ---- the queue ---------------------------------------------------------------------

  predicate HoldsPlace(phase: Phase) {
    phase.Counted? || phase.Queued? || phase.Vacating?
  }

  /** Places taken by calls that were, or will be, admitted to wait. */
  predicate WithinLimit(phase: Phase) {
    || (phase.Counted? && phase.before < MAX_WAITING)
    || phase.Queued?
    || (phase.Vacating? && phase.next != Over(Denial(QueueFull)))
  }

  ghost function Places(s: State): set<CallId> {
    set c | c in s.calls && HoldsPlace(s.calls[c].phase)
  }

  ghost function Limited(s: State): set<CallId> {
    set c | c in s.calls && WithinLimit(s.calls[c].phase)
  }

  ghost function Waiters(s: State): set<CallId> {
    set c | c in s.calls && s.calls[c].phase.Queued?
  }

  ghost predicate QueueInv(s: State) {
    s.waiting == |Places(s)| && |Limited(s)| <= MAX_WAITING
  }

  lemma SmallerSet<T>(a: set<T>, b: set<T>)
    requires a <= b
    ensures |a| <= |b|
  {
    assert b == a + (b - a);
  }

  lemma QueueStep(s: State, e: Event)
    requires SlotInv(s) && QueueInv(s) && Enabled(s, e)
    ensures QueueInv(Apply(s, e))
  {
    if e.TakePlace? {
      PlaceIsTaken(s, e.call);
    } else if e.ReturnPlace? {
      PlaceIsReturned(s, e.call);
    } else {
      PlacesAreKept(s, e);
    }
  }

  lemma PlaceIsTaken(s: State, c: CallId)
    requires QueueInv(s) && Enabled(s, TakePlace(c))
    ensures QueueInv(Apply(s, TakePlace(c)))
  {
    var t := Apply(s, TakePlace(c));
    TakenPlace(s, c);
    SmallerSet(Limited(s), Places(s));
    assert c !in Places(s) && c !in Limited(s);
  }

  lemma TakenPlace(s: State, c: CallId)
    requires Enabled(s, TakePlace(c))
    ensures
      var t := Apply(s, TakePlace(c));
      && Places(t) == Places(s) + {c}
      && Limited(t) == (if s.waiting < MAX_WAITING then Limited(s) + {c} else Limited(s))
  {
  }

  lemma PlaceIsReturned(s: State, c: CallId)
    requires SlotInv(s) && QueueInv(s) && Enabled(s, ReturnPlace(c))
    ensures QueueInv(Apply(s, ReturnPlace(c)))
  {
    var t := Apply(s, ReturnPlace(c));
    assert c in Places(s) && PhaseOk(s, c);
    assert Places(t) == Places(s) - {c};
    SmallerSet(Limited(t), Limited(s));
  }

  lemma PlacesAreKept(s: State, e: Event)
    requires QueueInv(s) && Enabled(s, e) && !e.TakePlace? && !e.ReturnPlace?
    ensures QueueInv(Apply(s, e))
  {
    var t := Apply(s, e);
    assert Places(t) == Places(s) && Limited(t) <= Limited(s) by {
      forall c: CallId
        ensures c in Places(t) <==> c in Places(s)
        ensures c in Limited(t) ==> c in Limited(s)
      {
        PlaceIsKept(s, e, c);
      }
    }
    SmallerSet(Limited(t), Limited(s));
    assert t.waiting == s.waiting;
  }

  lemma PlaceIsKept(s: State, e: Event, c: CallId)
    requires Enabled(s, e) && !e.TakePlace? && !e.ReturnPlace?
    ensures c in Places(Apply(s, e)) <==> c in Places(s)
    ensures c in Limited(Apply(s, e)) ==> c in Limited(s)
  {
    if CallOf(e) != Some(c) {
      StepIsLocal(s, e, c);
    } else {
      OwnPlaceIsKept(s, e, c);
    }
  }

  lemma OwnPlaceIsKept(s: State, e: Event, c: CallId)
    requires Enabled(s, e) && !e.TakePlace? && !e.ReturnPlace? && CallOf(e) == Some(c)
    ensures c in Places(Apply(s, e)) <==> c in Places(s)
    ensures c in Limited(Apply(s, e)) ==> c in Limited(s)
  {
  }

  // ---- attempts and gates ----------------------------------------------------------------

  /** Attempts are numbered as they are begun, and a call only ever uses one that
  was begun. */
  ghost predicate AttemptInv(s: State) {
    && (forall a :: a in s.registry ==> a <= s.lastAttempt)
    && (forall a :: a in s.fired ==> a <= s.lastAttempt)
    && (forall a :: a in s.begun ==> a <= s.lastAttempt)
    && (forall c :: c in s.calls ==> s.calls[c].attempt <= s.lastAttempt)
  }

  lemma AttemptStep(s: State, e: Event)
    requires AttemptInv(s) && Enabled(s, e)
    ensures AttemptInv(Apply(s, e))
  {
    var t := Apply(s, e);
    AttemptSetsStep(s, e);
    forall c | c in t.calls ensures t.calls[c].attempt <= t.lastAttempt {
      if CallOf(e) != Some(c) {
        StepIsLocal(s, e, c);
      } else {
        OwnAttemptIsKept(s, e, c);
      }
    }
  }

  lemma AttemptSetsStep(s: State, e: Event)
    requires AttemptInv(s) && Enabled(s, e)
    ensures
      var t := Apply(s, e);
      && s.lastAttempt <= t.lastAttempt
      && (forall a :: a in t.registry ==> a <= t.lastAttempt)
      && (forall a :: a in t.fired ==> a <= t.lastAttempt)
      && (forall a :: a in t.begun ==> a <= t.lastAttempt)
  {
  }

  lemma OwnAttemptIsKept(s: State, e: Event, c: CallId)
    requires Enabled(s, e) && CallOf(e) == Some(c)
    ensures c in Apply(s, e).calls ==>
              var a := Apply(s, e).calls[c].attempt;
              if c in s.calls then a == s.calls[c].attempt else a in s.registry
  {
  }

  /** The number a new attempt gets has never been used. */
  lemma AttemptsAreFresh(states: seq<State>, events: seq<Event>, i: nat)
    requires IsFullRun(states, events) && i < |states|
    ensures
      var s := states[i];
      var a := s.lastAttempt + 1;
      && a !in s.registry && a !in s.fired && a !in s.begun && Apply(s, BeginAttempt).registry == s.registry + {a}
      && forall c :: c in s.calls ==> s.calls[c].attempt != a
  {
    InvHolds(states, events, i);
  }

  predicate VerifiesFor(s: State, g: GateId, a: AttemptId) {
    GateAt(s, g).Verifying? && GateAt(s, g).attempt == a
  }

  predicate CommitOk(s: State, commit: Commit) {
    && commit.attempt in s.begun
    && commit.call in s.calls
    && var call := s.calls[commit.call];
    && call.attempt == commit.attempt && call.digest == commit.digest
    && call.phase.Over? && call.phase.verdict.Verified?
  }

  /** An attempt is active in at most one gate, and in none once it has
  committed; no two commits share an attempt. */
  ghost predicate GateInv(s: State) {
    && (forall g: GateId, a: AttemptId :: VerifiesFor(s, g, a) ==> a in s.begun)
    && (forall g: GateId, h: GateId, a: AttemptId :: VerifiesFor(s, g, a) && VerifiesFor(s, h, a) ==> g == h)
    && (forall i :: 0 <= i < |s.commits| ==> CommitOk(s, s.commits[i]))
    && (forall i, g: GateId :: 0 <= i < |s.commits| ==> !VerifiesFor(s, g, s.commits[i].attempt))
    && (forall i, j :: 0 <= i < j < |s.commits| ==> s.commits[i].attempt != s.commits[j].attempt)
  }

  /** What one step can do to one gate. */
  lemma GateSteps(s: State, e: Event, g: GateId)
    requires Enabled(s, e)
    ensures
      var t := Apply(s, e);
      || GateAt(t, g) == GateAt(s, g)
      || GateAt(t, g) == Pending
      || (e.GateBegin? && e.gate == g && GateAt(s, g).Pending? && GateAt(t, g) == Verifying(e.attempt, e.digest))
      || (&& e.GateFinish? && e.gate == g
          && var call := s.calls[e.call];
          && GateAt(s, g) == Verifying(call.attempt, call.digest) && GateAt(t, g) == Authenticated(call.digest)
          && e.current == call.digest && s.now <= e.deadline
          && t.commits == s.commits + [Commit(g, call.attempt, call.digest, e.call)])
    ensures
      var t := Apply(s, e);
      || t.commits == s.commits
      || (&& e.GateFinish?
          && var call := s.calls[e.call];
          && t.commits == s.commits + [Commit(e.gate, call.attempt, call.digest, e.call)]
          && VerifiesFor(s, e.gate, call.attempt) && !GateAt(t, e.gate).Verifying?)
    ensures s.begun <= Apply(s, e).begun
  {
  }

  lemma CommitStaysOk(s: State, e: Event, commit: Commit)
    requires Enabled(s, e) && CommitOk(s, commit)
    ensures CommitOk(Apply(s, e), commit)
  {
    if CallOf(e) != Some(commit.call) {
      StepIsLocal(s, e, commit.call);
    } else {
      VerdictIsFinal(s, e, commit.call);
    }
    GateSteps(s, e, 0);
  }

  /** A call that is over stays as it is. */
  lemma VerdictIsFinal(s: State, e: Event, c: CallId)
    requires Enabled(s, e) && CallOf(e) == Some(c) && c in s.calls && !Alive(s.calls[c])
    ensures c in Apply(s, e).calls && Apply(s, e).calls[c] == s.calls[c]
  {
  }

  lemma GateStep(s: State, e: Event)
    requires GateInv(s) && Enabled(s, e)
    ensures GateInv(Apply(s, e))
  {
    var t := Apply(s, e);
    forall g: GateId, a: AttemptId | VerifiesFor(t, g, a)
      ensures
        || VerifiesFor(s, g, a)
        || (e.GateBegin? && e.gate == g && e.attempt == a && a !in s.begun && GateAt(s, g).Pending?)
      ensures a in t.begun
    {
      GateSteps(s, e, g);
    }
    GateSteps(s, e, 0);
    CommitStep(s, e);
  }

  lemma CommitStep(s: State, e: Event)
    requires GateInv(s) && Enabled(s, e)
    ensures
      var t := Apply(s, e);
      && (forall i :: 0 <= i < |t.commits| ==> CommitOk(t, t.commits[i]))
      && (forall i, g: GateId :: 0 <= i < |t.commits| ==> !VerifiesFor(t, g, t.commits[i].attempt))
      && (forall i, j :: 0 <= i < j < |t.commits| ==> t.commits[i].attempt != t.commits[j].attempt)
  {
    var t := Apply(s, e);
    GateSteps(s, e, 0);
    forall i | 0 <= i < |t.commits| ensures CommitOk(t, t.commits[i]) {
      if i < |s.commits| {
        CommitStaysOk(s, e, s.commits[i]);
      }
    }
    forall i, g: GateId | 0 <= i < |t.commits| ensures !VerifiesFor(t, g, t.commits[i].attempt) {
      GateSteps(s, e, g);
      if i < |s.commits| {
        assert !VerifiesFor(s, g, s.commits[i].attempt) && CommitOk(s, s.commits[i]);
      } else {
        var a := s.calls[e.call].attempt;
        assert VerifiesFor(s, e.gate, a) && t.commits[i].attempt == a;
        if VerifiesFor(s, g, a) {
          assert g == e.gate;
        }
      }
    }
  }

  // ---- every run -------------------------------------------------------------------------

  ghost predicate Inv(s: State) {
    SlotInv(s) && QueueInv(s) && AttemptInv(s) && GateInv(s)
  }

  ghost predicate IsFullRun(states: seq<State>, events: seq<Event>) {
    IsRun(states, events) && states[0] == INITIAL
  }

  lemma {:induction false} InvHolds(states: seq<State>, events: seq<Event>, i: nat)
    requires IsFullRun(states, events) && i < |states|
    ensures Inv(states[i])
  {
    if i == 0 {
      assert Places(INITIAL) == {} && Limited(INITIAL) == {};
    } else {
      InvHolds(states, events, i - 1);
      SlotStep(states[i - 1], events[i - 1]);
      QueueStep(states[i - 1], events[i - 1]);
      AttemptStep(states[i - 1], events[i - 1]);
      GateStep(states[i - 1], events[i - 1]);
    }
  }

  /** In every reachable state at most one backend verification is in flight,
  whatever happened to the call that started it. */
  lemma SinglePrompt(states: seq<State>, events: seq<Event>, i: nat, c: CallId, d: CallId)
    requires IsFullRun(states, events) && i < |states|
    requires c in states[i].tasks && states[i].tasks[c].InFlight? && d in states[i].tasks
    requires states[i].tasks[d].InFlight?
    ensures c == d && states[i].slot == Some(c)
  {
    InvHolds(states, events, i);
    assert HoldsSlot(states[i], c) && HoldsSlot(states[i], d);
  }

  /** In every reachable state at most eight calls wait, and the counter is the
  number of queue places in use. */
  lemma BoundedQueue(states: seq<State>, events: seq<Event>, i: nat)
    requires IsFullRun(states, events) && i < |states|
    ensures |Waiters(states[i])| <= MAX_WAITING && states[i].waiting == |Places(states[i])|
  {
    InvHolds(states, events, i);
    SmallerSet(Waiters(states[i]), Limited(states[i]));
  }

  /** The slot is never leaked: whoever it is marked for is still using it. */
  lemma SlotIsNotLeaked(states: seq<State>, events: seq<Event>, i: nat)
    requires IsFullRun(states, events) && i < |states|
    ensures states[i].slot.Some? ==> HoldsSlot(states[i], states[i].slot.value)
  {
    InvHolds(states, events, i);
  }

  /** The phases before the cancellation check that follows admission. */
  predicate BeforeCheck(phase: Phase) {
    phase.Arriving? || HoldsPlace(phase) || phase.Admitted?
  }

  predicate NeverPrompts(s: State, c: CallId) {
    && c in s.calls && c !in s.tasks
    && ((BeforeCheck(s.calls[c].phase) && IsFired(s, c)) || !Alive(s.calls[c]))
  }

  lemma NeverPromptsStep(s: State, e: Event, c: CallId)
    requires PhaseOk(s, c) && Enabled(s, e) && NeverPrompts(s, c)
    ensures NeverPrompts(Apply(s, e), c)
  {
    FiredStaysFired(s, e);
    if CallOf(e) != Some(c) {
      StepIsLocal(s, e, c);
    } else if !Alive(s.calls[c]) {
      VerdictIsFinal(s, e, c);
    } else {
      CancelledStep(s, e, c);
    }
  }

  lemma FiredStaysFired(s: State, e: Event)
    requires Enabled(s, e)
    ensures s.fired <= Apply(s, e).fired
  {
  }

  lemma CancelledStep(s: State, e: Event, c: CallId)
    requires PhaseOk(s, c) && Enabled(s, e) && CallOf(e) == Some(c)
    requires c in s.calls && c !in s.tasks && BeforeCheck(s.calls[c].phase) && IsFired(s, c)
    ensures NeverPrompts(Apply(s, e), c)
  {
  }

  lemma PhasesHold(states: seq<State>, events: seq<Event>, i: nat, c: CallId)
    requires IsFullRun(states, events) && i < |states|
    ensures PhaseOk(states[i], c)
  {
    InvHolds(states, events, i);
  }

  /** A call whose attempt is cancelled before that check never reaches the
  backend, however the run goes on. */
  lemma {:induction false} CancelledNeverPrompts(states: seq<State>, events: seq<Event>, i: nat, j: nat, c: CallId)
    requires IsFullRun(states, events) && i <= j < |states|
    requires c in states[i].calls && BeforeCheck(states[i].calls[c].phase) && IsFired(states[i], c)
    ensures c !in states[j].tasks && NeverPrompts(states[j], c)
  {
    if i < j {
      CancelledNeverPrompts(states, events, i, j - 1, c);
      PhasesHold(states, events, j - 1, c);
      NeverPromptsStep(states[j - 1], events[j - 1], c);
    } else {
      PhasesHold(states, events, i, c);
    }
  }

  /** The step fires the signal of `a`: the attempt is invalidated while it is registered,
  it is dropped, or a prompt of its own expires. */
  predicate Fires(s: State, e: Event, a: AttemptId) {
    || (e == Invalidate(a) && a in s.registry)
    || e == DropAttempt(a)
    || (e.PromptExpired? && e.call in s.calls && s.calls[e.call].attempt == a)
  }

  lemma FiresExactly(s: State, e: Event, a: AttemptId)
    requires Enabled(s, e)
    ensures a in Apply(s, e).fired <==> a in s.fired || Fires(s, e, a)
  {
  }

  /** Over any run, a signal is fired if and only if a step on its own attempt fired it. */
  lemma {:induction false} OnlyOwnSignalFires(states: seq<State>, events: seq<Event>, j: nat, a: AttemptId)
    requires IsFullRun(states, events) && j < |states|
    ensures a in states[j].fired <==> exists i :: 0 <= i < j && Fires(states[i], events[i], a)
  {
    if j > 0 {
      OnlyOwnSignalFires(states, events, j - 1, a);
      FiresExactly(states[j - 1], events[j - 1], a);
    }
  }

  /** A gate that is verifying was begun by one step and has stayed so since. */
  lemma {:induction false} VerifyingSinceBegin(states: seq<State>, events: seq<Event>, k: nat, g: GateId)
    returns (j: nat)
    requires IsFullRun(states, events) && k < |states| && GateAt(states[k], g).Verifying?
    ensures j < k && events[j] == GateBegin(g, GateAt(states[k], g).attempt, GateAt(states[k], g).digest)
    ensures forall i :: j < i <= k ==> GateAt(states[i], g) == GateAt(states[k], g)
  {
    GateSteps(states[k - 1], events[k - 1], g);
    if GateAt(states[k - 1], g) == GateAt(states[k], g) {
      j := VerifyingSinceBegin(states, events, k - 1, g);
    } else {
      j := k - 1;
    }
  }

  /** One approval, one commit: a gate becomes authenticated for a digest only by
  a finish that is not past its deadline, for an attempt that was active in that
  gate ever since its begin, with a backend approval of that digest for that
  attempt; and no attempt commits twice. */
  lemma CommitNeedsApproval(states: seq<State>, events: seq<Event>, k: nat, g: GateId) returns (j: nat)
    requires IsFullRun(states, events) && k < |events|
    requires !GateAt(states[k], g).Authenticated? && GateAt(states[k + 1], g).Authenticated?
    ensures events[k].GateFinish? && events[k].gate == g && events[k].call in states[k].calls
    ensures
      var c := events[k].call;
      var call := states[k].calls[c];
      && GateAt(states[k + 1], g) == Authenticated(call.digest) && states[k].now <= events[k].deadline
      && events[k].current == call.digest
      && c in states[k].tasks && states[k].tasks[c].Delivered?
      && states[k].tasks[c].result.Some? && states[k].tasks[c].result.value.Approved?
      && j < k && events[j] == GateBegin(g, call.attempt, call.digest)
      && (forall i :: j < i <= k ==> GateAt(states[i], g) == Verifying(call.attempt, call.digest))
      && states[k + 1].commits == states[k].commits + [Commit(g, call.attempt, call.digest, c)]
      && (forall i :: 0 <= i < |states[k].commits| ==> states[k].commits[i].attempt != call.attempt)
  {
    InvHolds(states, events, k);
    GateSteps(states[k], events[k], g);
    j := VerifyingSinceBegin(states, events, k, g);
    var c := events[k].call;
    assert PhaseOk(states[k], c);
    forall i | 0 <= i < |states[k].commits| ensures states[k].commits[i].attempt != states[k].calls[c].attempt {
      assert VerifiesFor(states[k], g, states[k].calls[c].attempt);
    }
  }

  /** What is committed is the operation whose prompt was approved. */
  lemma CommitBindsOperation(states: seq<State>, events: seq<Event>, k: nat, g: GateId, approved: OpDescriptor,
                             current: OpDescriptor)
    requires IsFullRun(states, events) && k < |events| && events[k].GateFinish? && events[k].call in states[k].calls
    requires !GateAt(states[k], g).Authenticated? && GateAt(states[k + 1], g).Authenticated?
    requires Fits(approved) && states[k].calls[events[k].call].digest == OpDigest(Encode(approved))
    requires Fits(current) && events[k].current == OpDigest(Encode(current))
    ensures approved == current && GateAt(states[k + 1], g) == Authenticated(OpDigest(Encode(current)))
  {
    var j := CommitNeedsApproval(states, events, k, g);
    DigestInjective(approved, current);
  }

  lemma NoSecondCommit(states: seq<State>, events: seq<Event>, n: nat)
    requires IsFullRun(states, events) && n < |states|
    ensures forall i, j :: 0 <= i < j < |states[n].commits| ==>
                             states[n].commits[i].attempt != states[n].commits[j].attempt
  {
    InvHolds(states, events, n);
  }

  /** A request is classified as protected if and only if it is, or one before it was. */
  lemma {:induction false} ClassificationSticks(states: seq<State>, events: seq<Event>, j: nat, isProtected: bool)
    requires IsFullRun(states, events) && j < |states|
    ensures Classification(states[j], isProtected) <==>
              isProtected || exists i :: 0 <= i < j && events[i] == Classify(true)
  {
    if j > 0 {
      ClassificationSticks(states, events, j - 1, false);
      SeenExactly(states[j - 1], events[j - 1]);
    }
  }

  lemma SeenExactly(s: State, e: Event)
    requires Enabled(s, e)
    ensures Apply(s, e).seenProtected <==> s.seenProtected || e == Classify(true)
  {
  }
}
