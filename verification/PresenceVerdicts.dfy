/** What becomes of each call of the presence coordinator, over every run. */
module PresenceVerdicts {
  import opened Crypto
  import opened OpEncoding
  import opened PresenceGate
  import opened Presence
  import opened PresenceSafety

  // ---- every verdict has its cause ---------------------------------------------------------

  /** What a call is told when the backend task ends with `result`. */
  predicate Reads(result: Option<BackendResult>, verdict: Verdict) {
    match result
    case None => verdict == Denial(Denied(Failed))
    case Some(Approved(modality)) => verdict == Verified(modality)
    case Some(Rejected(error)) =>
      match error
      case Timeout => verdict == Denial(Expired)
      case Cancelled => verdict == Denial(Retryable(Cancelled))
      case Failed => verdict == Denial(Retryable(Failed))
      case Busy => verdict == Denial(Retryable(Busy))
      case Exhausted => verdict == Denial(Retryable(Exhausted))
      case DisabledByPolicy => verdict == Denial(Denied(DisabledByPolicy))
      case NotConfigured => verdict == Denial(Denied(NotConfigured))
      case Unavailable => verdict == Denial(Denied(Unavailable))
  }

  /** The verdict of the call is known; it may still have to give its queue place back. */
  predicate Decided(s: State, c: CallId, v: Verdict) {
    c in s.calls && (s.calls[c].phase == Over(v) || s.calls[c].phase == Vacating(Over(v)))
  }

  /** The step decides the call: the queue was full when it came, its signal has fired, its
  deadline has passed, or its task has delivered. */
  predicate Decides(s: State, e: Event, c: CallId, v: Verdict) {
    && c in s.calls
    && match e {
         case Decide(d) => d == c && s.calls[c].phase.Counted? && s.calls[c].phase.before >= 8 && v == Denial(QueueFull)
         case QueueCancelled(d) => d == c && IsFired(s, c) && v == Denial(Invalidated)
         case PromptCancelled(d) => d == c && IsFired(s, c) && v == Denial(Invalidated)
         case CheckCancel(d) => d == c && IsFired(s, c) && v == Denial(Invalidated)
         case QueueExpired(d) => d == c && !IsFired(s, c) && s.now >= s.calls[c].deadline && v == Denial(Expired)
         case PromptExpired(d) => d == c && !IsFired(s, c) && s.now >= s.calls[c].deadline && v == Denial(Expired)
         case CheckDeadline(d) => d == c && s.now >= s.calls[c].deadline && v == Denial(Expired)
         case Receive(d) =>
           d == c && !IsFired(s, c) && c in s.tasks && s.tasks[c].Delivered? && Reads(s.tasks[c].result, v)
         case _ => false
       }
  }

  lemma DecidesExactly(s: State, e: Event, c: CallId, v: Verdict)
    requires PhaseOk(s, c) && Enabled(s, e)
    ensures Decided(Apply(s, e), c, v) <==> Decided(s, c, v) || Decides(s, e, c, v)
  {
    if CallOf(e) != Some(c) {
      StepIsLocal(s, e, c);
    } else {
      OwnStepDecides(s, e, c, v);
    }
  }

  lemma OwnStepDecides(s: State, e: Event, c: CallId, v: Verdict)
    requires PhaseOk(s, c) && Enabled(s, e) && CallOf(e) == Some(c)
    ensures Decided(Apply(s, e), c, v) <==> Decided(s, c, v) || Decides(s, e, c, v)
  {
  }

  /** Over every run: a call has a verdict if and only if a step decided it so. */
  lemma {:induction false} VerdictsAreDecided(states: seq<State>, events: seq<Event>, j: nat, c: CallId, v: Verdict)
    requires IsFullRun(states, events) && j < |states|
    ensures Decided(states[j], c, v) <==> exists i :: 0 <= i < j && Decides(states[i], events[i], c, v)
  {
    if j > 0 {
      VerdictsAreDecided(states, events, j - 1, c, v);
      PhasesHold(states, events, j - 1, c);
      assert Enabled(states[j - 1], events[j - 1]) && states[j] == Apply(states[j - 1], events[j - 1]);
      DecidesExactly(states[j - 1], events[j - 1], c, v);
      if Decides(states[j - 1], events[j - 1], c, v) {
        assert Decided(states[j], c, v);
      } else if Decided(states[j], c, v) {
        var i :| 0 <= i < j - 1 && Decides(states[i], events[i], c, v);
      }
    }
  }

  // ---- the queue --------------------------------------------------------------------------

  /** Told, or about to be told, that the queue is full. */
  predicate TurnedAway(phase: Phase) {
    || (phase.Counted? && phase.before >= 8)
    || phase == Vacating(Over(Denial(QueueFull)))
    || phase == Over(Denial(QueueFull))
  }

  lemma TurnedAwayStep(s: State, e: Event, c: CallId)
    requires PhaseOk(s, c) && Enabled(s, e) && c in s.calls && !s.calls[c].phase.Arriving?
    ensures c in Apply(s, e).calls && !Apply(s, e).calls[c].phase.Arriving?
    ensures TurnedAway(Apply(s, e).calls[c].phase) <==> TurnedAway(s.calls[c].phase)
  {
    if CallOf(e) != Some(c) {
      StepIsLocal(s, e, c);
    } else {
      OwnTurnedAwayStep(s, e, c);
    }
  }

  lemma OwnTurnedAwayStep(s: State, e: Event, c: CallId)
    requires PhaseOk(s, c) && Enabled(s, e) && c in s.calls && !s.calls[c].phase.Arriving? && CallOf(e) == Some(c)
    ensures c in Apply(s, e).calls && !Apply(s, e).calls[c].phase.Arriving?
    ensures TurnedAway(Apply(s, e).calls[c].phase) <==> TurnedAway(s.calls[c].phase)
  {
  }

  /** A call that takes a queue place is turned away if and only if eight places were in
  use; that never changes afterwards. */
  lemma {:induction false} TurnedAwayExactly(states: seq<State>, events: seq<Event>, i: nat, j: nat, c: CallId)
    requires IsFullRun(states, events) && i < j < |states| && events[i] == TakePlace(c)
    ensures c in states[j].calls && !states[j].calls[c].phase.Arriving?
    ensures TurnedAway(states[j].calls[c].phase) <==> |Places(states[i])| >= 8
  {
    if j == i + 1 {
      InvHolds(states, events, i);
    } else {
      TurnedAwayExactly(states, events, i, j - 1, c);
      PhasesHold(states, events, j - 1, c);
      TurnedAwayStep(states[j - 1], events[j - 1], c);
    }
  }

  // ---- invalidation -----------------------------------------------------------------------

  /** An attempt that is invalidated before the check after admission: its call never
  reaches the backend. */
  lemma InvalidatedNeverPrompts(states: seq<State>, events: seq<Event>, i: nat, j: nat, c: CallId)
    requires IsFullRun(states, events) && i < j < |states| && c in states[i].calls
    requires events[i] == Invalidate(states[i].calls[c].attempt) && states[i].calls[c].attempt in states[i].registry
    requires BeforeCheck(states[i].calls[c].phase)
    ensures c !in states[j].tasks
  {
    StepIsLocal(states[i], events[i], c);
    FiresExactly(states[i], events[i], states[i].calls[c].attempt);
    CancelledNeverPrompts(states, events, i + 1, j, c);
  }

  /** The call was not told that it is verified, and its signal has fired. */
  predicate Barred(s: State, c: CallId) {
    c in s.calls && IsFired(s, c) && !(s.calls[c].phase.Over? && s.calls[c].phase.verdict.Verified?)
  }

  lemma BarredStep(s: State, e: Event, c: CallId)
    requires PhaseOk(s, c) && Enabled(s, e) && Barred(s, c)
    ensures Barred(Apply(s, e), c)
  {
    FiredStaysFired(s, e);
    if CallOf(e) != Some(c) {
      StepIsLocal(s, e, c);
    } else {
      OwnBarredStep(s, e, c);
    }
  }

  lemma OwnBarredStep(s: State, e: Event, c: CallId)
    requires PhaseOk(s, c) && Enabled(s, e) && Barred(s, c) && CallOf(e) == Some(c)
    ensures Barred(Apply(s, e), c)
  {
  }

  lemma {:induction false} BarredForGood(states: seq<State>, events: seq<Event>, i: nat, j: nat, c: CallId)
    requires IsFullRun(states, events) && i <= j < |states| && Barred(states[i], c)
    ensures Barred(states[j], c)
    decreases j - i
  {
    if i < j {
      BarredForGood(states, events, i, j - 1, c);
      PhasesHold(states, events, j - 1, c);
      BarredStep(states[j - 1], events[j - 1], c);
    }
  }

  /** Whenever an attempt is invalidated, a call of it that was not told so before is never
  told that it is verified, and commits nothing. */
  lemma InvalidatedIsNeverVerified(states: seq<State>, events: seq<Event>, i: nat, j: nat, c: CallId)
    requires IsFullRun(states, events) && i < j < |states| && c in states[i].calls
    requires events[i] == Invalidate(states[i].calls[c].attempt) && states[i].calls[c].attempt in states[i].registry
    requires !(states[i].calls[c].phase.Over? && states[i].calls[c].phase.verdict.Verified?)
    ensures c in states[j].calls && !(states[j].calls[c].phase.Over? && states[j].calls[c].phase.verdict.Verified?)
    ensures forall k :: 0 <= k < |states[j].commits| ==> states[j].commits[k].call != c
  {
    StepIsLocal(states[i], events[i], c);
    FiresExactly(states[i], events[i], states[i].calls[c].attempt);
    BarredForGood(states, events, i + 1, j, c);
    InvHolds(states, events, j);
    forall k | 0 <= k < |states[j].commits| ensures states[j].commits[k].call != c {
      assert CommitOk(states[j], states[j].commits[k]);
    }
  }

  /** The owner of the call has given it up. */
  predicate GivenUp(s: State, c: CallId) {
    c in s.calls && (s.calls[c].phase == Vacating(Dropped) || s.calls[c].phase.Dropped?)
  }

  /** Waiting, admitted or prompting with a fired signal, or what comes of it. */
  predicate Expelled(s: State, c: CallId) {
    && c in s.calls
    && (|| (&& IsFired(s, c)
            && (|| s.calls[c].phase.Queued? || s.calls[c].phase == Vacating(Admitted) || s.calls[c].phase.Admitted?
                || s.calls[c].phase.Prompting?))
        || Decided(s, c, Denial(Invalidated))
        || GivenUp(s, c))
  }

  lemma ExpelledStep(s: State, e: Event, c: CallId)
    requires PhaseOk(s, c) && Enabled(s, e) && Expelled(s, c)
    ensures Expelled(Apply(s, e), c)
  {
    FiredStaysFired(s, e);
    if CallOf(e) != Some(c) {
      StepIsLocal(s, e, c);
    } else {
      OwnExpelledStep(s, e, c);
    }
  }

  lemma OwnExpelledStep(s: State, e: Event, c: CallId)
    requires PhaseOk(s, c) && Enabled(s, e) && Expelled(s, c) && CallOf(e) == Some(c)
    ensures Expelled(Apply(s, e), c)
  {
  }

  lemma ExpelledAtOnce(s: State, c: CallId)
    requires c in s.calls && s.calls[c].attempt in s.registry
    requires
      var phase := s.calls[c].phase;
      phase.Queued? || phase == Vacating(Admitted) || phase.Admitted? || phase.Prompting?
    ensures Expelled(Apply(s, Invalidate(s.calls[c].attempt)), c)
  {
  }

  lemma {:induction false} ExpelledForGood(states: seq<State>, events: seq<Event>, i: nat, j: nat, c: CallId)
    requires IsFullRun(states, events) && i <= j < |states| && Expelled(states[i], c)
    ensures Expelled(states[j], c)
    decreases j - i
  {
    if i < j {
      ExpelledForGood(states, events, i, j - 1, c);
      PhasesHold(states, events, j - 1, c);
      ExpelledStep(states[j - 1], events[j - 1], c);
    }
  }

  /** A call that waits, is admitted or prompts when its attempt is invalidated can only end
  as invalidated, or be dropped by its owner. */
  lemma InvalidatedEndsSo(states: seq<State>, events: seq<Event>, i: nat, j: nat, c: CallId)
    requires IsFullRun(states, events) && i < j < |states| && c in states[i].calls
    requires events[i] == Invalidate(states[i].calls[c].attempt) && states[i].calls[c].attempt in states[i].registry
    requires
      var phase := states[i].calls[c].phase;
      phase.Queued? || phase == Vacating(Admitted) || phase.Admitted? || phase.Prompting?
    ensures Expelled(states[j], c)
    ensures states[j].calls[c].phase.Over? ==> states[j].calls[c].phase.verdict == Denial(Invalidated)
  {
    ExpelledAtOnce(states[i], c);
    ExpelledForGood(states, events, i + 1, j, c);
  }

  lemma GivenUpStep(s: State, e: Event, c: CallId)
    requires PhaseOk(s, c) && Enabled(s, e) && GivenUp(s, c)
    ensures GivenUp(Apply(s, e), c)
  {
    if CallOf(e) != Some(c) { StepIsLocal(s, e, c); }
  }

  lemma GivenUpAtOnce(s: State, c: CallId)
    requires Enabled(s, Event.AbortCall(c))
    ensures GivenUp(Apply(s, Event.AbortCall(c)), c)
  {
  }

  /** A call whose future is aborted never gets a verdict. */
  lemma {:induction false} AbortedGetsNothing(states: seq<State>, events: seq<Event>, i: nat, j: nat, c: CallId)
    requires IsFullRun(states, events) && i < j < |states| && events[i] == Event.AbortCall(c)
    ensures GivenUp(states[j], c)
  {
    if j == i + 1 {
      GivenUpAtOnce(states[i], c);
    } else {
      AbortedGetsNothing(states, events, i, j - 1, c);
      PhasesHold(states, events, j - 1, c);
      GivenUpStep(states[j - 1], events[j - 1], c);
    }
  }

  // ---- the registry and the clock -------------------------------------------------------------

  lemma RegistryStep(s: State, e: Event, a: AttemptId)
    requires AttemptInv(s) && Enabled(s, e)
    ensures
      var t := Apply(s, e);
      && t.lastAttempt == (if e.BeginAttempt? then s.lastAttempt + 1 else s.lastAttempt)
      && (a in t.registry <==>
            (a in s.registry && e != DropAttempt(a)) || (e.BeginAttempt? && a == s.lastAttempt + 1))
      && (e == DropAttempt(a) ==> a in s.registry && a <= s.lastAttempt)
  {
  }

  /** An attempt is registered if and only if it was begun and not dropped since. */
  lemma {:induction false} RegisteredExactly(states: seq<State>, events: seq<Event>, j: nat, a: AttemptId)
    requires IsFullRun(states, events) && j < |states|
    ensures a in states[j].registry <==>
              1 <= a <= states[j].lastAttempt && forall i :: 0 <= i < j ==> events[i] != DropAttempt(a)
    ensures forall i :: 0 <= i < j && events[i] == DropAttempt(a) ==> a <= states[j].lastAttempt
  {
    if j > 0 {
      RegisteredExactly(states, events, j - 1, a);
      InvHolds(states, events, j - 1);
      RegistryStep(states[j - 1], events[j - 1], a);
    }
  }

  lemma BorrowStep(s: State, e: Event, c: CallId)
    requires PhaseOk(s, c) && Enabled(s, e)
    requires c in s.calls && Alive(s.calls[c]) ==> s.calls[c].attempt in s.registry
    ensures
      var t := Apply(s, e);
      c in t.calls && Alive(t.calls[c]) ==> t.calls[c].attempt in t.registry
  {
    if CallOf(e) != Some(c) {
      StepIsLocal(s, e, c);
      if e.DropAttempt? && c in s.calls && Alive(s.calls[c]) { assert s.calls[c].attempt != e.attempt; }
    } else {
      OwnAttemptIsKept(s, e, c);
    }
  }

  /** An attempt stays registered as long as a call of it is not over. */
  lemma {:induction false} AttemptOutlivesCalls(states: seq<State>, events: seq<Event>, j: nat, c: CallId)
    requires IsFullRun(states, events) && j < |states| && c in states[j].calls && Alive(states[j].calls[c])
    ensures states[j].calls[c].attempt in states[j].registry
  {
    if j > 0 {
      PhasesHold(states, events, j - 1, c);
      if c in states[j - 1].calls && Alive(states[j - 1].calls[c]) { AttemptOutlivesCalls(states, events, j - 1, c); }
      BorrowStep(states[j - 1], events[j - 1], c);
    }
  }

  function Elapsed(events: seq<Event>): nat {
    if events == [] then 0
    else
      var last := events[|events| - 1];
      Elapsed(events[..|events| - 1]) + if last.Tick? then last.elapsed else 0
  }

  lemma {:induction false} ClockAddsUp(states: seq<State>, events: seq<Event>, j: nat)
    requires IsFullRun(states, events) && j < |states|
    ensures states[j].now == Elapsed(events[..j])
  {
    if j > 0 {
      ClockAddsUp(states, events, j - 1);
      ClockStep(states[j - 1], events[j - 1]);
      assert events[..j][..j - 1] == events[..j - 1];
    }
  }

  lemma ClockStep(s: State, e: Event)
    requires Enabled(s, e)
    ensures Apply(s, e).now == s.now + if e.Tick? then e.elapsed else 0
  {
  }

  // ---- gates ----------------------------------------------------------------------------------

  /** What a step asks of gate `g`. */
  function AskedOf(s: State, e: Event, g: GateId): Option<GateCall> {
    match e
    case GateBegin(h, a, digest) => if h == g then Some(BeginCall(a, digest)) else None
    case GateFinish(h, c, current, deadline) =>
      if h == g && c in s.calls
      then Some(FinishCall(s.calls[c].attempt, s.calls[c].digest, current, deadline, s.now)) else None
    case GateAbort(h, a) => if h == g then Some(GateCall.AbortCall(a)) else None
    case GateReset(h) => if h == g then Some(ResetCall) else None
    case _ => None
  }

  ghost function AllAsked(states: seq<State>, events: seq<Event>, j: nat, g: GateId): seq<GateCall>
    requires j <= |events| && j <= |states|
  {
    if j == 0 then []
    else
      var before, asked := AllAsked(states, events, j - 1, g), AskedOf(states[j - 1], events[j - 1], g);
      if asked.Some? then before + [asked.value] else before
  }

  lemma GateAnswers(s: State, e: Event, g: GateId)
    requires Enabled(s, e)
    ensures
      var asked := AskedOf(s, e, g);
      GateAt(Apply(s, e), g) == if asked.Some? then Respond(GateAt(s, g), asked.value) else GateAt(s, g)
  {
  }

  /** In every run each gate is in the state that its own calls lead to. */
  lemma {:induction false} GatesFollowTheirCalls(states: seq<State>, events: seq<Event>, j: nat, g: GateId)
    requires IsFullRun(states, events) && j < |states|
    ensures GateAt(states[j], g) == GateAfter(AllAsked(states, events, j, g))
  {
    if j > 0 {
      GatesFollowTheirCalls(states, events, j - 1, g);
      GateAnswers(states[j - 1], events[j - 1], g);
      var before, asked := AllAsked(states, events, j - 1, g), AskedOf(states[j - 1], events[j - 1], g);
      if asked.Some? { assert (before + [asked.value])[..|before|] == before; }
    }
  }

  // ---- no call is stuck ---------------------------------------------------------------------------

  /** A step of the call, or of its task, other than being given up. */
  predicate OwnStep(e: Event, c: CallId) {
    CallOf(e) == Some(c) && !e.AbortCall?
  }

  /** In every reachable state, a call that is not over can make a step of its own, at once
  or when its deadline has come. */
  lemma NoCallIsStuck(states: seq<State>, events: seq<Event>, i: nat, c: CallId) returns (wait: nat, e: Event)
    requires IsFullRun(states, events) && i < |states| && c in states[i].calls && Alive(states[i].calls[c])
    ensures OwnStep(e, c) && Enabled(Apply(states[i], Tick(wait)), e)
    ensures wait > 0 ==> states[i].calls[c].phase.Queued? && states[i].slot.Some?
  {
    PhasesHold(states, events, i, c);
    wait, e := NextStep(states[i], c);
  }

  lemma NextStep(s: State, c: CallId) returns (wait: nat, e: Event)
    requires PhaseOk(s, c) && c in s.calls && Alive(s.calls[c])
    ensures OwnStep(e, c) && Enabled(Apply(s, Tick(wait)), e)
    ensures wait > 0 ==> s.calls[c].phase.Queued? && s.slot.Some?
  {
    wait := 0;
    match s.calls[c].phase
    case Arriving => e := if s.slot.None? then TryAcquire(c) else TakePlace(c);
    case Counted(_) => e := Decide(c);
    case Queued =>
      if IsFired(s, c) {
        e := QueueCancelled(c);
      } else if s.slot.None? {
        e := Acquire(c);
      } else {
        wait, e := if s.now < s.calls[c].deadline then s.calls[c].deadline - s.now else 0, QueueExpired(c);
      }
    case Vacating(_) => e := ReturnPlace(c);
    case Admitted => e := CheckCancel(c);
    case Uncancelled => e := CheckDeadline(c);
    case Prompting =>
      if IsFired(s, c) {
        e := PromptCancelled(c);
      } else {
        match s.tasks[c]
        case InFlight => e := BackendEnds(c, None);
        case Returned(_) => e := ReleaseSlot(c);
        case Released(_) => e := Deliver(c);
        case Delivered(_) => e := Receive(c);
      }
  }

  // ---- an ordinary call is served ---------------------------------------------------------------

  /** The state after a list of steps, if each of them is enabled in its turn. */
  function Play(s: State, events: seq<Event>): Option<State>
    decreases |events|
  {
    if events == [] then Some(s)
    else if Enabled(s, events[0]) then Play(Apply(s, events[0]), events[1..]) else None
  }

  lemma {:induction false} PlayJoins(s: State, m: State, a: seq<Event>, b: seq<Event>)
    requires Play(s, a) == Some(m)
    ensures Play(s, a + b) == Play(m, b)
    decreases |a|
  {
    if a == [] {
      assert a + b == b;
    } else {
      assert (a + b)[1..] == a[1..] + b;
      PlayJoins(Apply(s, a[0]), m, a[1..], b);
    }
  }

  lemma PlayOne(s: State, e: Event)
    requires Enabled(s, e)
    ensures Play(s, [e]) == Some(Apply(s, e))
  {
    assert [e][1..] == [];
  }

  lemma PlayThen(s: State, m: State, a: seq<Event>, e: Event)
    requires Play(s, a) == Some(m) && Enabled(m, e)
    ensures Play(s, a + [e]) == Some(Apply(m, e))
  {
    PlayJoins(s, m, a, [e]);
    PlayOne(m, e);
  }

  lemma PlayTwo(s: State, e: Event, f: Event)
    requires Enabled(s, e) && Enabled(Apply(s, e), f)
    ensures Play(s, [e, f]) == Some(Apply(Apply(s, e), f))
  {
    PlayOne(s, e);
    PlayThen(s, Apply(s, e), [e], f);
    assert [e, f] == [e] + [f];
  }

  /** A new call takes the slot if it is free. */
  lemma FreshCallIsAdmitted(s: State, c: CallId, a: AttemptId, digest: Digest, deadline: Instant)
    requires c !in s.calls && a in s.registry && s.slot.None?
    ensures Play(s, [StartVerify(c, a, digest, deadline), TryAcquire(c)])
            == Some(s.(calls := s.calls[c := Call(a, digest, deadline, Admitted)], slot := Some(c)))
  {
    var e, f := StartVerify(c, a, digest, deadline), TryAcquire(c);
    PlayTwo(s, e, f);
    assert Apply(Apply(s, e), f).calls == s.calls[c := Call(a, digest, deadline, Admitted)];
  }

  /** An admitted call that was not cancelled, with its deadline ahead, prompts. */
  lemma AdmittedCallPrompts(s: State, c: CallId)
    requires In(s, c, Admitted) && !IsFired(s, c) && s.now < s.calls[c].deadline
    ensures Play(s, [CheckCancel(c), CheckDeadline(c)])
            == Some(s.(calls := s.calls[c := s.calls[c].(phase := Prompting)], tasks := s.tasks[c := InFlight]))
  {
    var e, f := CheckCancel(c), CheckDeadline(c);
    PlayTwo(s, e, f);
    assert Apply(Apply(s, e), f).calls == s.calls[c := s.calls[c].(phase := Prompting)];
  }

  /** Its task gives the slot back when the backend ends. */
  lemma TaskReleases(s: State, c: CallId, result: Option<BackendResult>)
    requires c in s.tasks && s.tasks[c].InFlight?
    ensures Play(s, [BackendEnds(c, result), ReleaseSlot(c)])
            == Some(s.(tasks := s.tasks[c := Released(result)], slot := None))
  {
    var e, f := BackendEnds(c, result), ReleaseSlot(c);
    PlayTwo(s, e, f);
    assert Apply(Apply(s, e), f).tasks == s.tasks[c := Released(result)];
  }

  /** And the call is told what the backend ended with. */
  lemma CallIsTold(s: State, c: CallId, v: Verdict)
    requires In(s, c, Prompting) && !IsFired(s, c)
    requires c in s.tasks && s.tasks[c].Released? && Reads(s.tasks[c].result, v)
    ensures Play(s, [Deliver(c), Receive(c)])
            == Some(s.(calls := s.calls[c := s.calls[c].(phase := Over(v))],
                       tasks := s.tasks[c := Delivered(s.tasks[c].result)]))
  {
    PlayTwo(s, Deliver(c), Receive(c));
  }

  lemma Overwritten<K, V>(m: map<K, V>, k: K, x: V, y: V)
    ensures m[k := x][k := y] == m[k := y]
  {
  }

  function Ask(c: CallId, a: AttemptId, digest: Digest, deadline: Instant): seq<Event> {
    [StartVerify(c, a, digest, deadline), TryAcquire(c)] + [CheckCancel(c), CheckDeadline(c)]
  }

  function Answer(c: CallId, result: Option<BackendResult>): seq<Event> {
    [BackendEnds(c, result), ReleaseSlot(c)] + [Deliver(c), Receive(c)]
  }

  /** A new call of an attempt that was not cancelled, with the slot free and the deadline
  ahead, prompts. */
  lemma FreshCallPrompts(s: State, c: CallId, a: AttemptId, digest: Digest, deadline: Instant)
    requires c !in s.calls && a in s.registry && a !in s.fired && s.slot.None? && s.now < deadline
    ensures Play(s, Ask(c, a, digest, deadline))
            == Some(s.(calls := s.calls[c := Call(a, digest, deadline, Prompting)], tasks := s.tasks[c := InFlight],
                       slot := Some(c)))
  {
    var start, check := [StartVerify(c, a, digest, deadline), TryAcquire(c)], [CheckCancel(c), CheckDeadline(c)];
    FreshCallIsAdmitted(s, c, a, digest, deadline);
    var m := Play(s, start).value;
    AdmittedCallPrompts(m, c);
    PlayJoins(s, m, start, check);
    Overwritten(s.calls, c, m.calls[c], Call(a, digest, deadline, Prompting));
  }

  lemma PromptIsAnswered(s: State, c: CallId, result: Option<BackendResult>, v: Verdict)
    requires In(s, c, Prompting) && !IsFired(s, c) && c in s.tasks && s.tasks[c].InFlight? && Reads(result, v)
    ensures Play(s, Answer(c, result))
            == Some(s.(calls := s.calls[c := s.calls[c].(phase := Over(v))], tasks := s.tasks[c := Delivered(result)],
                       slot := None))
  {
    var work, tell := [BackendEnds(c, result), ReleaseSlot(c)], [Deliver(c), Receive(c)];
    TaskReleases(s, c, result);
    var m := Play(s, work).value;
    CallIsTold(m, c, v);
    PlayJoins(s, m, work, tell);
    Overwritten(s.tasks, c, m.tasks[c], Delivered(result));
  }

  /** So an ordinary call, from every state, gets the verdict of its backend and leaves
  everything else as it was. */
  lemma FreshCallIsServed(s: State, c: CallId, a: AttemptId, digest: Digest, deadline: Instant,
                          result: Option<BackendResult>, v: Verdict)
    requires c !in s.calls && a in s.registry && a !in s.fired && s.slot.None? && s.now < deadline && Reads(result, v)
    ensures Play(s, Ask(c, a, digest, deadline) + Answer(c, result))
            == Some(s.(calls := s.calls[c := Call(a, digest, deadline, Over(v))],
                       tasks := s.tasks[c := Delivered(result)]))
  {
    var ask, answer := Ask(c, a, digest, deadline), Answer(c, result);
    FreshCallPrompts(s, c, a, digest, deadline);
    var m := Play(s, ask).value;
    PromptIsAnswered(m, c, result, v);
    PlayJoins(s, m, ask, answer);
    Overwritten(s.calls, c, m.calls[c], Call(a, digest, deadline, Over(v)));
    Overwritten(s.tasks, c, InFlight, Delivered(result));
  }

  /** An approved operation that is still current is committed in time: begin, the call, and
  finish leave the gate authenticated for exactly it. */
  lemma ApprovalCommits(s: State, g: GateId, c: CallId, a: AttemptId, digest: Digest, deadline: Instant, modality: nat,
                        until: Instant) returns (t: State)
    requires c !in s.calls && a in s.registry && a !in s.fired && a !in s.begun && s.slot.None?
    requires s.now < deadline && s.now <= until && GateAt(s, g).Pending?
    ensures
      Play(s, [GateBegin(g, a, digest)] + (Ask(c, a, digest, deadline) + Answer(c, Some(Approved(modality))))
              + [GateFinish(g, c, digest, until)])
      == Some(t)
    ensures GateAt(t, g) == Authenticated(digest) && t.commits == s.commits + [Commit(g, a, digest, c)]
  {
    var begin, finish := GateBegin(g, a, digest), GateFinish(g, c, digest, until);
    var serve := Ask(c, a, digest, deadline) + Answer(c, Some(Approved(modality)));
    var s1 := Apply(s, begin);
    FreshCallIsServed(s1, c, a, digest, deadline, Some(Approved(modality)), Verified(modality));
    var s2 := Play(s1, serve).value;
    PlayOne(s, begin);
    PlayJoins(s, s1, [begin], serve);
    PlayThen(s, s2, [begin] + serve, finish);
    t := Apply(s2, finish);
  }

  /** While the slot is taken a new call waits, if fewer than eight places are in use. */
  lemma FreshCallWaits(s: State, c: CallId, a: AttemptId, digest: Digest, deadline: Instant)
    requires c !in s.calls && a in s.registry && s.slot.Some? && QueueInv(s) && |Places(s)| < 8
    ensures
      Play(s, [StartVerify(c, a, digest, deadline), TakePlace(c), Decide(c)])
      == Some(s.(calls := s.calls[c := Call(a, digest, deadline, Queued)], waiting := s.waiting + 1))
  {
    var e, f, g := StartVerify(c, a, digest, deadline), TakePlace(c), Decide(c);
    var m := Apply(Apply(s, e), f);
    PlayTwo(s, e, f);
    PlayThen(s, m, [e, f], g);
    assert [e, f, g] == [e, f] + [g];
    assert Apply(m, g).calls == s.calls[c := Call(a, digest, deadline, Queued)];
  }

  /** A waiting call that was not cancelled is admitted once the slot is free, and gives its
  place back. */
  lemma WaitingCallIsAdmitted(s: State, c: CallId)
    requires In(s, c, Queued) && !IsFired(s, c) && s.slot.None?
    ensures
      Play(s, [Acquire(c), ReturnPlace(c)])
      == Some(s.(calls := s.calls[c := s.calls[c].(phase := Admitted)], slot := Some(c), waiting := s.waiting - 1))
  {
    var e, f := Acquire(c), ReturnPlace(c);
    PlayTwo(s, e, f);
    assert Apply(Apply(s, e), f).calls == s.calls[c := s.calls[c].(phase := Admitted)];
  }
}
