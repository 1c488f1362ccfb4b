/** The state of one request that waits for a presence verification
(crates/sv-presence/src/gate.rs). */
module PresenceGate {
  import opened OpEncoding

  type AttemptId = nat
  type Digest = OpDigest
  type Instant = nat

  datatype GateState =
    | Pending
    | Verifying(attempt: AttemptId, digest: Digest)
    | Authenticated(digest: Digest)

  datatype GateError = AlreadyVerifying | NotPending | StaleAttempt | DigestMismatch | PastDeadline

  datatype GateResult = Accepted | Refused(error: GateError)

  function Begin(state: GateState, attempt: AttemptId, digest: Digest): (GateState, GateResult) {
    match state
    case Pending => (Verifying(attempt, digest), Accepted)
    case Verifying(_, _) => (state, Refused(AlreadyVerifying))
    case Authenticated(_) => (state, Refused(NotPending))
  }

  function Finish(state: GateState, attempt: AttemptId, granted: Digest, current: Digest, deadline: Instant,
                  now: Instant)
    : (GateState, GateResult)
  {
    if !state.Verifying? || state.attempt != attempt then (state, Refused(StaleAttempt))
    else if state.digest != granted || state.digest != current then (Pending, Refused(DigestMismatch))
    else if now > deadline then (Pending, Refused(PastDeadline))
    else (Authenticated(state.digest), Accepted)
  }

  function Abort(state: GateState, attempt: AttemptId): GateState {
    if state.Verifying? && state.attempt == attempt then Pending else state
  }

  /** A gate as its owner mutates it. */
  class Gate {
    var state: GateState

    constructor ()
      ensures state == Pending
    {
      state := Pending;
    }

    method BeginVerification(attempt: AttemptId, digest: Digest) returns (r: GateResult)
      modifies this
      ensures (state, r) == Begin(old(state), attempt, digest)
      ensures r.Accepted? <==> old(state).Pending?
      ensures r.Accepted? ==> state == Verifying(attempt, digest)
      ensures !r.Accepted? ==> state == old(state)
      ensures r == Refused(AlreadyVerifying) <==> old(state).Verifying?
    {
      match state
      case Pending =>
        state := Verifying(attempt, digest);
        r := Accepted;
      case Verifying(_, _) =>
        r := Refused(AlreadyVerifying);
      case Authenticated(_) =>
        r := Refused(NotPending);
    }

    method FinishVerification(attempt: AttemptId, granted: Digest, current: Digest, deadline: Instant, now: Instant)
      returns (r: GateResult)
      modifies this
      ensures (state, r) == Finish(old(state), attempt, granted, current, deadline, now)
      ensures r.Accepted? <==>
              old(state) == Verifying(attempt, granted) && granted == current && now <= deadline
      ensures state.Authenticated? && state != old(state) ==> r.Accepted? && state.digest == granted
    {
      if !state.Verifying? {
        return Refused(StaleAttempt);
      }
      var active, digest := state.attempt, state.digest;
      if active != attempt {
        return Refused(StaleAttempt);
      }
      if digest != granted || digest != current {
        state := Pending;
        return Refused(DigestMismatch);
      }
      if now > deadline {
        state := Pending;
        return Refused(PastDeadline);
      }
      state := Authenticated(digest);
      return Accepted;
    }

    method AbortVerification(attempt: AttemptId)
      modifies this
      ensures state == Abort(old(state), attempt)
      ensures (exists digest :: old(state) == Verifying(attempt, digest)) ==> state == Pending
      ensures (forall digest :: old(state) != Verifying(attempt, digest)) ==> state == old(state)
    {
      if state.Verifying? && state.attempt == attempt {
        state := Pending;
      }
    }

    method Reset()
      modifies this
      ensures state == Pending
    {
      state := Pending;
    }
  }

  // ---- every history of one gate -------------------------------------------------------

  datatype GateCall =
    | BeginCall(attempt: AttemptId, digest: Digest)
    | FinishCall(attempt: AttemptId, granted: Digest, current: Digest, deadline: Instant, now: Instant)
    | AbortCall(attempt: AttemptId)
    | ResetCall

  function Respond(state: GateState, call: GateCall): GateState {
    match call
    case BeginCall(attempt, digest) => Begin(state, attempt, digest).0
    case FinishCall(attempt, granted, current, deadline, now) =>
      Finish(state, attempt, granted, current, deadline, now).0
    case AbortCall(attempt) => Abort(state, attempt)
    case ResetCall => Pending
  }

  /** A new gate after a list of calls. */
  function GateAfter(calls: seq<GateCall>): GateState {
    if calls == [] then Pending else Respond(GateAfter(calls[..|calls| - 1]), calls[|calls| - 1])
  }

  method PlayGate(calls: seq<GateCall>) returns (gate: Gate)
    ensures fresh(gate) && gate.state == GateAfter(calls)
  {
    gate := new Gate();
    for n := 0 to |calls|
      invariant fresh(gate) && gate.state == GateAfter(calls[..n])
    {
      assert calls[..n + 1][..n] == calls[..n];
      match calls[n]
      case BeginCall(attempt, digest) =>
        var r := gate.BeginVerification(attempt, digest);
      case FinishCall(attempt, granted, current, deadline, now) =>
        var r := gate.FinishVerification(attempt, granted, current, deadline, now);
      case AbortCall(attempt) =>
        gate.AbortVerification(attempt);
      case ResetCall =>
        gate.Reset();
    }
    assert calls[..|calls|] == calls;
  }

  /** The call ends a verification by that attempt. */
  predicate Concludes(call: GateCall, attempt: AttemptId) {
    call.ResetCall? || (!call.BeginCall? && call.attempt == attempt)
  }

  /** Call `i` began this verification, and nothing has ended it since. */
  ghost predicate OpenSince(calls: seq<GateCall>, i: nat, attempt: AttemptId, digest: Digest) {
    && i < |calls| && calls[i] == BeginCall(attempt, digest) && GateAfter(calls[..i]).Pending?
    && forall j :: i < j < |calls| ==> !Concludes(calls[j], attempt)
  }

  /** A gate verifies an attempt and a digest if and only if a call found it pending
  and began exactly that, and no finish or abort by that attempt and no reset came
  later. */
  lemma {:induction false} VerifyingMeansBegun(calls: seq<GateCall>, attempt: AttemptId, digest: Digest)
    ensures GateAfter(calls) == Verifying(attempt, digest) <==> exists i: nat :: OpenSince(calls, i, attempt, digest)
    decreases |calls|
  {
    if calls == [] {
    } else {
      var n := |calls| - 1;
      var init := calls[..n];
      VerifyingMeansBegun(init, attempt, digest);
      forall i: nat | i < n ensures init[..i] == calls[..i] {}
      if calls[n] == BeginCall(attempt, digest) && GateAfter(init).Pending? {
        assert OpenSince(calls, n, attempt, digest);
      } else if !Concludes(calls[n], attempt) {
        forall i: nat ensures OpenSince(calls, i, attempt, digest) <==> OpenSince(init, i, attempt, digest) {
          SameOpening(calls, i, attempt, digest);
        }
      }
    }
  }

  /** A later call that does not conclude the attempt leaves its opening alone. */
  lemma SameOpening(calls: seq<GateCall>, i: nat, attempt: AttemptId, digest: Digest)
    requires calls != [] && !Concludes(calls[|calls| - 1], attempt)
    requires !(calls[|calls| - 1] == BeginCall(attempt, digest) && GateAfter(calls[..|calls| - 1]).Pending?)
    ensures OpenSince(calls, i, attempt, digest) <==> OpenSince(calls[..|calls| - 1], i, attempt, digest)
  {
    var init := calls[..|calls| - 1];
    if i < |init| { assert init[..i] == calls[..i]; }
  }

  /** Call `k` finished a verification of this digest in time, and no reset came
  later. */
  ghost predicate PassedAt(calls: seq<GateCall>, k: nat, digest: Digest) {
    && k < |calls| && calls[k].FinishCall? && calls[k].granted == calls[k].current == digest
    && calls[k].now <= calls[k].deadline && GateAfter(calls[..k]) == Verifying(calls[k].attempt, digest)
    && forall j :: k < j < |calls| ==> !calls[j].ResetCall?
  }

  /** A gate is authenticated for a digest if and only if an attempt that it was
  verifying for that digest finished in time, for the granted and the current
  operation alike, and it was not reset since. */
  lemma {:induction false} AuthenticatedMeansFinished(calls: seq<GateCall>, digest: Digest)
    ensures GateAfter(calls) == Authenticated(digest) <==> exists k: nat :: PassedAt(calls, k, digest)
    decreases |calls|
  {
    if calls == [] {
    } else {
      var n := |calls| - 1;
      var init := calls[..n];
      AuthenticatedMeansFinished(init, digest);
      forall k: nat | k < n ensures init[..k] == calls[..k] {}
      if GateAfter(init).Verifying? && GateAfter(calls) == Authenticated(digest) {
        assert PassedAt(calls, n, digest);
      }
      forall k: nat | k < n
        ensures PassedAt(calls, k, digest) <==> PassedAt(init, k, digest) && !calls[n].ResetCall?
      {
        assert init[..k] == calls[..k];
      }
    }
  }
}
