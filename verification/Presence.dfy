/** The presence coordinator as a transition system
(crates/sv-presence/src/coordinator.rs).

Every call of `verify`, every spawned backend task, every drop handler and
every gate operation is cut into the steps that touch shared state; a run is
any interleaving of them. `begun` and `commits` record history. */
module Presence {
  import opened Crypto
  import opened OpEncoding
  import opened PresenceGate

  /** Requests allowed to wait while one prompt is active. */
  const MAX_WAITING: nat := 8

  type CallId = nat
  type GateId = nat

  datatype PresenceError =
    | Cancelled | Failed | Busy | Exhausted | DisabledByPolicy | NotConfigured | Unavailable | Timeout

  datatype BackendResult = Approved(modality: nat) | Rejected(error: PresenceError)

  datatype Denial = Retryable(error: PresenceError) | Denied(error: PresenceError) | Expired | QueueFull | Invalidated

  datatype Verdict = Verified(modality: nat) | Denial(denial: Denial)

  /** Where one call of `verify` stands. */
  datatype Phase =
    | Arriving
    | Counted(before: int)      // holds a queue place, not yet admitted or refused
    | Queued                    // admitted to wait
    | Vacating(next: Phase)     // about to give its queue place back
    | Admitted                  // holds the slot
    | Uncancelled               // holds the slot, cancellation checked
    | Prompting                 // a task runs the backend
    | Over(verdict: Verdict)
    | Dropped                   // its future was aborted

  datatype Call = Call(attempt: AttemptId, digest: Digest, deadline: Instant, phase: Phase)

  /** The task spawned for a call; it holds the slot until it releases it.
  `None` is a backend that panicked. */
  datatype Task =
    | InFlight
    | Returned(result: Option<BackendResult>)
    | Released(result: Option<BackendResult>)
    | Delivered(result: Option<BackendResult>)

  datatype Commit = Commit(gate: GateId, attempt: AttemptId, digest: Digest, call: CallId)

  datatype State = State(
    now: Instant,
    slot: Option<CallId>,
    waiting: int,
    lastAttempt: AttemptId,
    registry: set<AttemptId>,
    fired: set<AttemptId>,
    seenProtected: bool,
    calls: map<CallId, Call>,
    tasks: map<CallId, Task>,
    gates: map<GateId, GateState>,
    begun: set<AttemptId>,
    commits: seq<Commit>)

  datatype Event =
    | Tick(elapsed: nat)
    | Classify(isProtected: bool)
    | BeginAttempt
    | DropAttempt(attempt: AttemptId)
    | Invalidate(attempt: AttemptId)
    | StartVerify(call: CallId, attempt: AttemptId, digest: Digest, deadline: Instant)
    | TryAcquire(call: CallId)
    | TakePlace(call: CallId)
    | Decide(call: CallId)
    | QueueCancelled(call: CallId)
    | QueueExpired(call: CallId)
    | Acquire(call: CallId)
    | ReturnPlace(call: CallId)
    | CheckCancel(call: CallId)
    | CheckDeadline(call: CallId)
    | BackendEnds(call: CallId, result: Option<BackendResult>)
    | ReleaseSlot(call: CallId)
    | Deliver(call: CallId)
    | PromptCancelled(call: CallId)
    | PromptExpired(call: CallId)
    | Receive(call: CallId)
    | AbortCall(call: CallId)
    | GateBegin(gate: GateId, attempt: AttemptId, digest: Digest)
    | GateFinish(gate: GateId, call: CallId, current: Digest, deadline: Instant)
    | GateAbort(gate: GateId, attempt: AttemptId)
    | GateReset(gate: GateId)

  const INITIAL := State(0, None, 0, 0, {}, {}, false, map[], map[], map[], {}, [])

  predicate IsRetryable(error: PresenceError) {
    error.Cancelled? || error.Failed? || error.Busy? || error.Exhausted?
  }

  /** How `verify` reads what the backend task sent. */
  function VerdictOf(result: Option<BackendResult>): Verdict {
    match result
    case None => Denial(Denied(Failed))
    case Some(Approved(modality)) => Verified(modality)
    case Some(Rejected(error)) =>
      if error.Timeout? then Denial(Expired)
      else if IsRetryable(error) then Denial(Retryable(error))
      else Denial(Denied(error))
  }

  function GateAt(s: State, g: GateId): GateState {
    if g in s.gates then s.gates[g] else Pending
  }

  predicate In(s: State, c: CallId, phase: Phase) {
    c in s.calls && s.calls[c].phase == phase
  }

  predicate IsFired(s: State, c: CallId)
    requires c in s.calls
  {
    s.calls[c].attempt in s.fired
  }

  predicate Alive(call: Call) {
    !call.phase.Over? && !call.phase.Dropped?
  }

  /** The attempt outlives every call that borrows it. */
  predicate Borrowed(s: State, a: AttemptId) {
    exists c :: c in s.calls && Alive(s.calls[c]) && s.calls[c].attempt == a
  }

  predicate Enabled(s: State, e: Event) {
    match e
    case Tick(_) => true
    case Classify(_) => true
    case BeginAttempt => true
    case DropAttempt(a) => a in s.registry && !Borrowed(s, a)
    case Invalidate(_) => true
    case StartVerify(c, a, _, _) => c !in s.calls && a in s.registry
    case TryAcquire(c) => In(s, c, Arriving) && s.slot.None?
    case TakePlace(c) => In(s, c, Arriving) && (s.slot.Some? || exists q :: q in s.calls && s.calls[q].phase.Queued?)
    case Decide(c) => c in s.calls && s.calls[c].phase.Counted?
    case QueueCancelled(c) => In(s, c, Queued) && IsFired(s, c)
    case QueueExpired(c) => In(s, c, Queued) && !IsFired(s, c) && s.now >= s.calls[c].deadline
    case Acquire(c) => In(s, c, Queued) && !IsFired(s, c) && s.slot.None?
    case ReturnPlace(c) => c in s.calls && s.calls[c].phase.Vacating?
    case CheckCancel(c) => In(s, c, Admitted)
    case CheckDeadline(c) => In(s, c, Uncancelled)
    case BackendEnds(c, _) => c in s.tasks && s.tasks[c].InFlight?
    case ReleaseSlot(c) => c in s.tasks && s.tasks[c].Returned?
    case Deliver(c) => c in s.tasks && s.tasks[c].Released?
    case PromptCancelled(c) => In(s, c, Prompting) && IsFired(s, c)
    case PromptExpired(c) => In(s, c, Prompting) && !IsFired(s, c) && s.now >= s.calls[c].deadline
    case Receive(c) => In(s, c, Prompting) && !IsFired(s, c) && c in s.tasks && s.tasks[c].Delivered?
    case AbortCall(c) => In(s, c, Arriving) || In(s, c, Queued) || In(s, c, Prompting)
    case GateBegin(_, a, _) => a in s.registry && a !in s.begun
    case GateFinish(_, c, _, _) => c in s.calls && s.calls[c].phase.Over? && s.calls[c].phase.verdict.Verified?
    case GateAbort(_, _) => true
    case GateReset(_) => true
  }

  function Move(s: State, c: CallId, phase: Phase): State
    requires c in s.calls
  {
    s.(calls := s.calls[c := s.calls[c].(phase := phase)])
  }

  function Apply(s: State, e: Event): State
    requires Enabled(s, e)
  {
    match e
    case Tick(elapsed) => s.(now := s.now + elapsed)
    case Classify(isProtected) => s.(seenProtected := s.seenProtected || isProtected)
    case BeginAttempt => s.(lastAttempt := s.lastAttempt + 1, registry := s.registry + {s.lastAttempt + 1})
    case DropAttempt(a) => s.(fired := s.fired + {a}, registry := s.registry - {a})
    case Invalidate(a) => if a in s.registry then s.(fired := s.fired + {a}) else s
    case StartVerify(c, a, digest, deadline) => s.(calls := s.calls[c := Call(a, digest, deadline, Arriving)])
    case TryAcquire(c) => Move(s, c, Admitted).(slot := Some(c))
    case TakePlace(c) => Move(s, c, Counted(s.waiting)).(waiting := s.waiting + 1)
    case Decide(c) =>
      Move(s, c, if s.calls[c].phase.before >= MAX_WAITING then Vacating(Over(Denial(QueueFull))) else Queued)
    case QueueCancelled(c) => Move(s, c, Vacating(Over(Denial(Invalidated))))
    case QueueExpired(c) => Move(s, c, Vacating(Over(Denial(Expired))))
    case Acquire(c) => Move(s, c, Vacating(Admitted)).(slot := Some(c))
    case ReturnPlace(c) => Move(s, c, s.calls[c].phase.next).(waiting := s.waiting - 1)
    case CheckCancel(c) =>
      if IsFired(s, c) then Move(s, c, Over(Denial(Invalidated))).(slot := None) else Move(s, c, Uncancelled)
    case CheckDeadline(c) =>
      if s.now >= s.calls[c].deadline then Move(s, c, Over(Denial(Expired))).(slot := None)
      else Move(s, c, Prompting).(tasks := s.tasks[c := InFlight])
    case BackendEnds(c, result) => s.(tasks := s.tasks[c := Returned(result)])
    case ReleaseSlot(c) => s.(tasks := s.tasks[c := Released(s.tasks[c].result)], slot := None)
    case Deliver(c) => s.(tasks := s.tasks[c := Delivered(s.tasks[c].result)])
    case PromptCancelled(c) => Move(s, c, Over(Denial(Invalidated)))
    case PromptExpired(c) => Move(s, c, Over(Denial(Expired))).(fired := s.fired + {s.calls[c].attempt})
    case Receive(c) => Move(s, c, Over(VerdictOf(s.tasks[c].result)))
    case AbortCall(c) => Move(s, c, if s.calls[c].phase.Queued? then Vacating(Dropped) else Dropped)
    case GateBegin(g, a, digest) =>
      s.(gates := s.gates[g := Begin(GateAt(s, g), a, digest).0], begun := s.begun + {a})
    case GateFinish(g, c, current, deadline) =>
      var call := s.calls[c];
      var done := Finish(GateAt(s, g), call.attempt, call.digest, current, deadline, s.now);
      s.(gates := s.gates[g := done.0],
         commits := if done.1.Accepted? then s.commits + [Commit(g, call.attempt, call.digest, c)] else s.commits)
    case GateAbort(g, a) => s.(gates := s.gates[g := Abort(GateAt(s, g), a)])
    case GateReset(g) => s.(gates := s.gates[g := Pending])
  }

  /** What a request is told when it is created. */
  function Classification(s: State, isProtected: bool): bool {
    isProtected || s.seenProtected
  }

  // ---- runs ------------------------------------------------------------------------

  ghost predicate IsRun(states: seq<State>, events: seq<Event>) {
    && |states| == |events| + 1
    && forall i :: 0 <= i < |events| ==> Enabled(states[i], events[i]) && states[i + 1] == Apply(states[i], events[i])
  }
}
