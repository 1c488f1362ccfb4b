/** Durable steps that may fail or be cut short, and what an operation made of
such steps reports. */
module Effects {

  /** What happens to one durable step: it succeeds, it reports an error, or the
  machine stops; `late` says that it took effect all the same. */
  datatype Fate = Good | Fail(late: bool) | Crash(late: bool)

  datatype Io = Done | Failed | Crashed

  datatype Outcome<+T> = Ok(value: T) | Err | Stopped

  /** How the environment's list of fates evolves over any operation: once it is
  used up it stays so. */
  ghost predicate Onward(before: seq<Fate>, after: seq<Fate>) {
    before == [] ==> after == []
  }

  function FromIo(io: Io): Outcome<()> {
    match io
    case Done => Ok(())
    case Failed => Err
    case Crashed => Stopped
  }

  // ---- counting the steps ---------------------------------------------------------

  /** The fate of the next step. */
  function NextFate(fates: seq<Fate>): Fate {
    if fates == [] then Good else fates[0]
  }

  predicate TakesEffect(fate: Fate) {
    fate.Good? || fate.late
  }

  function Reports(fate: Fate): Io {
    match fate
    case Good => Done
    case Fail(_) => Failed
    case Crash(_) => Crashed
  }

  /** The fates that are left after `n` steps. */
  function After(fates: seq<Fate>, n: nat): seq<Fate> {
    if n <= |fates| then fates[n..] else []
  }

  /** The next `n` steps succeed. */
  ghost predicate Smooth(fates: seq<Fate>, n: nat) {
    forall i :: 0 <= i < n && i < |fates| ==> fates[i].Good?
  }

  /** An operation of exactly `n` durable steps: it succeeds if and only if all
  of them do. */
  ghost predicate Takes(n: nat, before: seq<Fate>, after: seq<Fate>, ok: bool) {
    (ok <==> Smooth(before, n)) && (ok ==> after == After(before, n))
  }

  lemma SmoothAdds(fates: seq<Fate>, m: nat, n: nat)
    ensures Smooth(fates, m + n) <==> Smooth(fates, m) && Smooth(After(fates, m), n)
    ensures After(After(fates, m), n) == After(fates, m + n)
  {
    var rest := After(fates, m);
    forall i | 0 <= i < |rest| ensures rest[i] == fates[m + i] {}
    if Smooth(fates, m) && Smooth(rest, n) {
      forall i | 0 <= i < m + n && i < |fates| ensures fates[i].Good? {
        if i >= m { assert rest[i - m] == fates[i]; }
      }
    }
  }

  lemma TakesBoth(m: nat, n: nat, before: seq<Fate>, middle: seq<Fate>, after: seq<Fate>, ok: bool)
    requires Takes(m, before, middle, true) && Takes(n, middle, after, ok)
    ensures Takes(m + n, before, after, ok)
  {
    SmoothAdds(before, m, n);
  }

  lemma TakesNeither(m: nat, n: nat, before: seq<Fate>, middle: seq<Fate>)
    requires Takes(m, before, middle, false)
    ensures Takes(m + n, before, middle, false)
  {
    SmoothAdds(before, m, n);
  }

  /** One step more, of `total`. */
  lemma OneStepMore(fates: seq<Fate>, n: nat, total: nat, after: seq<Fate>, ok: bool)
    requires Smooth(fates, n) && n < total && Takes(1, After(fates, n), after, ok)
    ensures ok ==> Smooth(fates, n + 1) && after == After(fates, n + 1)
    ensures !ok ==> !Smooth(fates, total)
  {
    SmoothAdds(fates, n, 1);
    SmoothAdds(fates, n + 1, total - n - 1);
  }

  /** The step after `n` successful ones reports an error although it took
  effect. */
  ghost predicate LateErrorAt(fates: seq<Fate>, n: nat) {
    n < |fates| && Smooth(fates, n) && fates[n] == Fail(true)
  }

  // ---- the step that fails ------------------------------------------------------------

  /** How many steps succeed before one does not; all of the list if none. */
  function Lead(fates: seq<Fate>): nat {
    if fates == [] || !fates[0].Good? then 0 else 1 + Lead(fates[1..])
  }

  lemma {:induction false} LeadIsSmooth(fates: seq<Fate>, n: nat)
    ensures Lead(fates) <= |fates| && (Lead(fates) < |fates| ==> !fates[Lead(fates)].Good?)
    ensures Smooth(fates, n) <==> n <= Lead(fates) || Lead(fates) == |fates|
    decreases |fates|
  {
    if fates == [] || !fates[0].Good? {
    } else {
      LeadIsSmooth(fates[1..], if n == 0 then 0 else n - 1);
      assert After(fates, 1) == fates[1..];
      if n > 0 { SmoothAdds(fates, 1, n - 1); }
    }
  }

  lemma {:induction false} LeadLater(fates: seq<Fate>, m: nat)
    requires Smooth(fates, m)
    ensures m <= |fates| ==> Lead(fates) == m + Lead(After(fates, m))
    ensures m > |fates| ==> Lead(fates) == |fates|
    decreases m
  {
    if m == 0 || fates == [] {
    } else {
      SmoothAdds(fates, 1, m - 1);
      assert fates[0].Good? && After(fates, 1) == fates[1..];
      LeadLater(fates[1..], m - 1);
    }
  }

  /** The first step that does not succeed is one of those from `lo` to before
  `hi`, and it reports an error. */
  ghost predicate FailsBetween(fates: seq<Fate>, lo: nat, hi: nat) {
    var t := Lead(fates);
    lo <= t < hi && t < |fates| && fates[t].Fail?
  }

  lemma FailsLater(fates: seq<Fate>, m: nat, lo: nat, hi: nat)
    requires Smooth(fates, m)
    ensures FailsBetween(fates, m + lo, m + hi) <==> FailsBetween(After(fates, m), lo, hi)
    ensures FailsBetween(fates, 0, m + hi) <==> FailsBetween(fates, m, m + hi)
    ensures Lead(After(fates, m)) < |After(fates, m)| ==>
              After(fates, Lead(fates) + 1) == After(After(fates, m), Lead(After(fates, m)) + 1)
  {
    LeadLater(fates, m);
    LeadIsSmooth(fates, m);
    LeadIsSmooth(After(fates, m), 0);
    SmoothAdds(fates, m, Lead(After(fates, m)) + 1);
  }

  /** An operation of exactly `n` durable steps: it succeeds if all of them do, and
  otherwise ends with the first that does not. */
  ghost predicate Counts<T>(n: nat, before: seq<Fate>, after: seq<Fate>, r: Outcome<T>) {
    && Takes(n, before, after, r.Ok?)
    && (r.Err? <==> FailsBetween(before, 0, n))
    && (!r.Ok? ==> after == After(before, Lead(before) + 1))
  }

  lemma CountsOne(before: seq<Fate>)
    ensures Counts(1, before, After(before, 1), FromIo(Reports(NextFate(before))))
  {
    LeadIsSmooth(before, 1);
  }

  lemma CountsBoth<S, T>(m: nat, n: nat, before: seq<Fate>, middle: seq<Fate>, after: seq<Fate>,
                         s: Outcome<S>, r: Outcome<T>)
    requires s.Ok? && Counts(m, before, middle, s) && Counts(n, middle, after, r)
    ensures Counts(m + n, before, after, r)
  {
    TakesBoth(m, n, before, middle, after, r.Ok?);
    FailsLater(before, m, 0, n);
    LeadIsSmooth(before, m);
    LeadIsSmooth(middle, n);
  }

  lemma CountsFirst<S, T>(m: nat, n: nat, before: seq<Fate>, middle: seq<Fate>, s: Outcome<S>, r: Outcome<T>)
    requires !s.Ok? && Counts(m, before, middle, s) && (r.Err? <==> s.Err?) && !r.Ok?
    ensures Counts(m + n, before, middle, r)
  {
    TakesNeither(m, n, before, middle);
    LeadIsSmooth(before, m);
  }

  /** An operation whose first `lo` of `hi` steps succeeded reports an error exactly
  if one of the others does, and ends with it. */
  ghost predicate Quits<T>(lo: nat, hi: nat, before: seq<Fate>, after: seq<Fate>, r: Outcome<T>) {
    && (r.Err? && Smooth(before, lo) <==> FailsBetween(before, lo, hi))
    && (r.Err? && Smooth(before, lo) ==> after == After(before, Lead(before) + 1))
  }

  lemma QuitsAtEnd<T>(lo: nat, k: nat, n: nat, before: seq<Fate>, middle: seq<Fate>, after: seq<Fate>, r: Outcome<T>)
    requires lo <= k && Takes(k, before, middle, true) && Counts(n, middle, after, r)
    ensures Quits(lo, k + n, before, after, r) && Takes(k + n, before, after, r.Ok?)
  {
    TakesBoth(k, n, before, middle, after, r.Ok?);
    FailsLater(before, k, 0, n);
    LeadIsSmooth(before, k);
    LeadIsSmooth(before, lo);
    LeadIsSmooth(middle, n);
  }

  lemma QuitsStill<T>(lo: nat, k: nat, n: nat, before: seq<Fate>, middle: seq<Fate>, r: Outcome<T>)
    requires Takes(k, before, middle, false) && Quits(lo, k, before, middle, r)
    ensures Quits(lo, k + n, before, middle, r)
  {
    LeadIsSmooth(before, k);
  }

  lemma QuitsLater<T>(m: nat, lo: nat, hi: nat, before: seq<Fate>, middle: seq<Fate>, after: seq<Fate>, r: Outcome<T>)
    requires Takes(m, before, middle, true) && Quits(lo, hi, middle, after, r)
    ensures Quits(m + lo, m + hi, before, after, r)
  {
    FailsLater(before, m, lo, hi);
    SmoothAdds(before, m, lo);
    LeadIsSmooth(middle, 0);
  }

  lemma QuitsBefore<T>(m: nat, lo: nat, hi: nat, before: seq<Fate>, middle: seq<Fate>, r: Outcome<T>)
    requires m <= lo && Takes(m, before, middle, false)
    ensures Quits(lo, hi, before, middle, r) && !Smooth(before, lo)
  {
    LeadIsSmooth(before, m);
    LeadIsSmooth(before, lo);
  }

  /** How many of the next `n` steps, each taken only if the one before succeeded,
  take effect. */
  function Progress(fates: seq<Fate>, n: nat): (k: nat)
    ensures k <= n
  {
    if n == 0 then 0
    else if NextFate(fates).Good? then 1 + Progress(After(fates, 1), n - 1)
    else if NextFate(fates).late then 1 else 0
  }

  lemma {:induction false} ProgressLater(fates: seq<Fate>, m: nat, n: nat)
    requires Smooth(fates, m)
    ensures Progress(fates, m + n) == m + Progress(After(fates, m), n)
    decreases m
  {
    if m == 0 {
    } else {
      SmoothAdds(fates, 1, m - 1);
      assert NextFate(fates).Good?;
      ProgressLater(After(fates, 1), m - 1, n);
    }
  }

  /** One step more, of `total`, with its effect. */
  lemma StepForward(fates: seq<Fate>, n: nat, total: nat)
    requires Smooth(fates, n) && n < total
    ensures
      var fate := NextFate(After(fates, n));
      && (fate.Good? ==> Smooth(fates, n + 1) && Progress(fates, total) >= n + 1)
      && (fate.Good? && n + 1 == total ==> Progress(fates, total) == total)
      && (!fate.Good? ==> !Smooth(fates, total) && Progress(fates, total) == if fate.late then n + 1 else n)
    ensures After(After(fates, n), 1) == After(fates, n + 1)
  {
    ProgressLater(fates, n, total - n);
    SmoothAdds(fates, n, 1);
    SmoothAdds(fates, n + 1, total - n - 1);
  }

  // ---- getting to the end -----------------------------------------------------------

  /** A sequence of `n` steps begins to take effect and does not get to the end of
  it. */
  ghost predicate CutShort(fates: seq<Fate>, n: nat)
    requires n > 0
  {
    TakesEffect(NextFate(fates)) && !Reaches(fates, n)
  }

  /** The last of the next `n` steps takes effect. */
  ghost predicate Reaches(fates: seq<Fate>, n: nat)
    requires n > 0
  {
    Smooth(fates, n - 1) && TakesEffect(NextFate(After(fates, n - 1)))
  }

  lemma ReachesLater(m: nat, n: nat, before: seq<Fate>, middle: seq<Fate>, ok: bool)
    requires n > 0 && Takes(m, before, middle, ok)
    ensures Reaches(before, m + n) <==> ok && Reaches(middle, n)
  {
    SmoothAdds(before, m, n - 1);
  }

  /** Getting to the `k`th of `n` steps is progress of at least `k`. */
  lemma {:induction false} ReachesProgress(fates: seq<Fate>, n: nat, k: nat)
    requires 0 < k <= n
    ensures Progress(fates, n) <= n && (Progress(fates, n) >= k <==> Reaches(fates, k))
    decreases k
  {
    if k == 1 {
    } else {
      ReachesProgress(After(fates, 1), n - 1, k - 1);
      SmoothAdds(fates, 1, k - 2);
    }
  }

  /** `k` steps take effect and an error is reported all the same: by the last of
  them, or by one more step if there is one. */
  ghost predicate GivesUp(fates: seq<Fate>, k: nat, more: bool)
    requires k > 0
  {
    LateErrorAt(fates, k - 1) || (more && k < |fates| && Smooth(fates, k) && fates[k].Fail?)
  }

  lemma GivesUpLater(m: nat, k: nat, before: seq<Fate>, middle: seq<Fate>, ok: bool, more: bool)
    requires k > 0 && Takes(m, before, middle, ok)
    ensures GivesUp(before, m + k, more) <==> ok && GivesUp(middle, k, more)
  {
    LateErrorLater(before, m, k - 1);
    SmoothAdds(before, m, k);
  }

  /** The first step that does not succeed is one of those from `lo` to before `hi` and
  reports an error, and undoing, in `k` steps, gives up; after a late error at the
  last step undoing has one step less. */
  ghost predicate Collapses(fates: seq<Fate>, lo: nat, hi: nat, k: nat)
    requires k > 0 && hi > 0
  {
    FailsBetween(fates, lo, hi) && GivesUp(After(fates, Lead(fates) + 1), k, !LateErrorAt(fates, hi - 1))
  }

  lemma CollapsesLater(m: nat, lo: nat, hi: nat, k: nat, before: seq<Fate>, middle: seq<Fate>)
    requires k > 0 && hi > 0 && Takes(m, before, middle, true)
    ensures Collapses(before, m + lo, m + hi, k) <==> Collapses(middle, lo, hi, k)
  {
    FailsLater(before, m, lo, hi);
    LateErrorLater(before, m, hi - 1);
    if FailsBetween(middle, lo, hi) {
      assert After(before, Lead(before) + 1) == After(middle, Lead(middle) + 1);
    }
  }

  /** The step after `n` successful ones takes effect and does not report success. */
  ghost predicate Unreported(fates: seq<Fate>, n: nat) {
    n < |fates| && Smooth(fates, n) && !fates[n].Good? && fates[n].late
  }

  lemma UnreportedLater(fates: seq<Fate>, m: nat, n: nat)
    ensures Unreported(fates, m + n) <==> Smooth(fates, m) && Unreported(After(fates, m), n)
  {
    SmoothAdds(fates, m, n);
  }

  lemma LateErrorLater(fates: seq<Fate>, m: nat, n: nat)
    ensures LateErrorAt(fates, m + n) <==> Smooth(fates, m) && LateErrorAt(After(fates, m), n)
  {
    SmoothAdds(fates, m, n);
  }
}
