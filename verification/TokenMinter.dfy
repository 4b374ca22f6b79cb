/**
 The access-token cache of the two Google Chat minters: one mutex, held across the exchange, around a
 token and the time to refresh it. Every action between two waits is one step; a run is any interleaving
 of the callers' steps, failures, cancellations and the clock.
 */
module TokenMinter {
  import opened Text

  const REFRESH_LEAD_MS := 60_000

  /** A token as received: when, and how long it is said to live. Tokens are numbered as they come. */
  datatype Mint = Mint(at: nat, lifetimeSecs: nat) {
    /** What is left of its life. */
    function Left(now: nat): int {
      at + lifetimeSecs * 1000 - now
    }
  }

  /** How long a token is kept: its life less the lead, but never under a second. */
  function KeptMs(lifetimeSecs: nat): nat {
    if lifetimeSecs > 61 then (lifetimeSecs - 60) * 1000 else 1000
  }

  datatype Cached = Cached(token: nat, refreshAt: nat)

  /** From `Checking` to `Exchanging` a caller has the mutex. `Got` says when, and whether from the cache. */
  datatype Pc = Waiting | Checking | Exchanging | Got(token: nat, at: nat, cached: bool) | Failed

  /** `mints` is the history of tokens received. */
  datatype State = State(now: nat, mints: seq<Mint>, cache: Option<Cached>, lock: Option<nat>, callers: map<nat, Pc>,
                         exchanges: nat)

  datatype Step =
    | Call(tid: nat)
    | Lock(tid: nat)
    | Check(tid: nat)
    | Succeed(tid: nat, lifetimeSecs: nat)
    | Fail(tid: nat)
    | Cancel(tid: nat)
    | Tick

  function Start(): State {
    State(0, [], None, None, map[], 0)
  }

  predicate IsFresh(s: State) {
    s.cache.Some? && s.now < s.cache.value.refreshAt
  }

  predicate IsAt(s: State, tid: nat, pc: Pc) {
    tid in s.callers && s.callers[tid] == pc
  }

  predicate Enabled(s: State, step: Step) {
    match step
    case Call(tid) => tid !in s.callers
    case Lock(tid) => IsAt(s, tid, Waiting) && s.lock == None
    case Check(tid) => IsAt(s, tid, Checking)
    case Succeed(tid, _) => IsAt(s, tid, Exchanging)
    case Fail(tid) => IsAt(s, tid, Exchanging)
    case Cancel(tid) => tid in s.callers && !s.callers[tid].Got? && !s.callers[tid].Failed?
    case Tick => true
  }

  function Go(s: State, tid: nat, pc: Pc, lock: Option<nat>): State {
    s.(callers := s.callers[tid := pc], lock := lock)
  }

  /** A failed exchange leaves the cache as it is. */
  function Apply(s: State, step: Step): State
    requires Enabled(s, step)
  {
    match step
    case Call(tid) => Go(s, tid, Waiting, s.lock)
    case Lock(tid) => Go(s, tid, Checking, Some(tid))
    case Check(tid) =>
      if IsFresh(s) then Go(s, tid, Got(s.cache.value.token, s.now, true), None)
      else Go(s, tid, Exchanging, s.lock).(exchanges := s.exchanges + 1)
    case Succeed(tid, lifetime) =>
      Go(s, tid, Got(|s.mints|, s.now, false), None).(
        mints := s.mints + [Mint(s.now, lifetime)], cache := Some(Cached(|s.mints|, s.now + KeptMs(lifetime))))
    case Fail(tid) => Go(s, tid, Failed, None)
    case Cancel(tid) => s.(callers := s.callers - {tid}, lock := if s.lock == Some(tid) then None else s.lock)
    case Tick => s.(now := s.now + 1)
  }

  ghost predicate Run(s: State, steps: seq<Step>, u: State)
    decreases |steps|
  {
    if steps == [] then s == u
    else Enabled(s, steps[0]) && Run(Apply(s, steps[0]), steps[1..], u)
  }

  // ----- Mutual exclusion, and where a token comes from -----

  predicate InLock(pc: Pc) {
    pc.Checking? || pc.Exchanging?
  }

  ghost predicate Locked(s: State) {
    && (forall t :: t in s.callers ==> (InLock(s.callers[t]) <==> s.lock == Some(t)))
    && (s.lock.Some? ==> s.lock.value in s.callers)
  }

  /** A token given out was received, and was still to be kept at the time. */
  predicate Good(mints: seq<Mint>, pc: Pc) {
    pc.Got? ==> pc.token < |mints| && mints[pc.token].at <= pc.at
                && (if pc.cached then pc.at - mints[pc.token].at < KeptMs(mints[pc.token].lifetimeSecs)
                    else pc.at == mints[pc.token].at)
  }

  ghost predicate Sound(s: State) {
    && Locked(s)
    && (forall t :: t in s.callers ==> Good(s.mints, s.callers[t]))
    && (s.cache.Some? ==>
          && s.cache.value.token < |s.mints| && s.mints[s.cache.value.token].at <= s.now
          && s.cache.value.refreshAt == s.mints[s.cache.value.token].at + KeptMs(s.mints[s.cache.value.token].lifetimeSecs))
  }

  lemma StepKeepsLocked(s: State, step: Step)
    requires Locked(s) && Enabled(s, step)
    ensures Locked(Apply(s, step))
  {
  }

  lemma StepKeepsSound(s: State, step: Step)
    requires Sound(s) && Enabled(s, step)
    ensures Sound(Apply(s, step))
  {
    StepKeepsLocked(s, step);
  }

  lemma {:induction false} RunKeepsSound(s: State, steps: seq<Step>, u: State)
    requires Sound(s) && Run(s, steps, u)
    ensures Sound(u)
    decreases |steps|
  {
    if steps != [] {
      StepKeepsSound(s, steps[0]);
      RunKeepsSound(Apply(s, steps[0]), steps[1..], u);
    }
  }

  /** However many callers there are, and whichever are cancelled, at most one exchange is out. */
  lemma OneExchangeAtATime(steps: seq<Step>, u: State, a: nat, b: nat)
    requires Run(Start(), steps, u) && IsAt(u, a, Exchanging) && IsAt(u, b, Exchanging)
    ensures a == b
  {
    RunKeepsSound(Start(), steps, u);
  }

  /**
   A token from the cache has more than the lead left exactly if it was said to live longer than the
   lead. A shorter one is given out for a second all the same.
   */
  lemma CachedTokenHasLead(steps: seq<Step>, u: State, t: nat)
    requires Run(Start(), steps, u) && t in u.callers && u.callers[t].Got? && u.callers[t].cached
    ensures var k, at := u.callers[t].token, u.callers[t].at;
            && k < |u.mints| && (u.mints[k].Left(at) > REFRESH_LEAD_MS <==> u.mints[k].lifetimeSecs > 60)
            && (u.mints[k].lifetimeSecs <= 60 ==> at - u.mints[k].at < 1000)
  {
    RunKeepsSound(Start(), steps, u);
    assert Good(u.mints, u.callers[t]);
  }

  // ----- A token that is served when it has expired -----

  lemma RunCons(s: State, step: Step, rest: seq<Step>, u: State)
    requires Enabled(s, step) && Run(Apply(s, step), rest, u)
    ensures Run(s, [step] + rest, u)
  {
    assert ([step] + rest)[1..] == rest;
  }

  lemma {:induction false} RunThen(s: State, a: seq<Step>, u: State, step: Step)
    requires Run(s, a, u) && Enabled(u, step)
    ensures Run(s, a + [step], Apply(u, step))
    decreases |a|
  {
    if a == [] {
      assert a + [step] == [step] + [];
      RunCons(s, step, [], Apply(u, step));
    } else {
      RunThen(Apply(s, a[0]), a[1..], u, step);
      assert a + [step] == [a[0]] + (a[1..] + [step]);
      RunCons(s, a[0], a[1..] + [step], Apply(u, step));
    }
  }

  /** A token that lives no time at all is received by one caller, and a millisecond later served to another. */
  lemma ExpiredTokenIsServed() returns (steps: seq<Step>, u: State)
    ensures Run(Start(), steps, u) && 1 in u.callers && u.callers[1] == Got(0, 1, true)
    ensures |u.mints| == 1 && u.mints[0].Left(1) < 0
  {
    steps, u := [], Start();
    steps, u := Then(steps, u, Call(0));
    steps, u := Then(steps, u, Lock(0));
    steps, u := Then(steps, u, Check(0));
    steps, u := Then(steps, u, Succeed(0, 0));
    steps, u := Then(steps, u, Tick);
    steps, u := Then(steps, u, Call(1));
    steps, u := Then(steps, u, Lock(1));
    steps, u := Then(steps, u, Check(1));
  }

  lemma Then(steps: seq<Step>, s: State, step: Step) returns (more: seq<Step>, u: State)
    requires Run(Start(), steps, s) && Enabled(s, step)
    ensures more == steps + [step] && u == Apply(s, step) && Run(Start(), more, u)
  {
    RunThen(Start(), steps, s, step);
    more, u := steps + [step], Apply(s, step);
  }

  // ----- One exchange for a whole stampede -----

  /** A step where exchanges succeed, nobody is cancelled and a fresh token stays fresh. */
  predicate Calm(s: State, step: Step)
    requires Enabled(s, step)
  {
    !step.Fail? && !step.Cancel? && (IsFresh(s) ==> IsFresh(Apply(s, step)))
  }

  ghost predicate CalmRun(s: State, steps: seq<Step>, u: State)
    decreases |steps|
  {
    if steps == [] then s == u
    else Enabled(s, steps[0]) && Calm(s, steps[0]) && CalmRun(Apply(s, steps[0]), steps[1..], u)
  }

  /** Nobody has a token yet, and the cache is stale. */
  ghost predicate Before(s: State) {
    !IsFresh(s) && forall t :: t in s.callers ==> s.callers[t].Waiting? || s.callers[t].Checking?
  }

  /** The exchange is out, and everybody else waits for the mutex. */
  ghost predicate During(s: State) {
    && !IsFresh(s) && s.lock.Some? && IsAt(s, s.lock.value, Exchanging)
    && forall t :: t in s.callers && s.lock != Some(t) ==> s.callers[t].Waiting?
  }

  /** Token `k` is in, and nobody gets another. */
  ghost predicate After(s: State, k: nat) {
    && IsFresh(s) && s.cache.value.token == k
    && forall t :: t in s.callers ==>
         s.callers[t].Waiting? || s.callers[t].Checking? || (s.callers[t].Got? && s.callers[t].token == k)
  }

  ghost predicate Herd(s: State, before: nat, k: nat) {
    && Locked(s)
    && (if s.exchanges == before then Before(s) && |s.mints| == k
        else s.exchanges == before + 1 && ((During(s) && |s.mints| == k) || After(s, k)))
  }

  lemma StepKeepsHerd(s: State, step: Step, before: nat, k: nat)
    requires Herd(s, before, k) && Enabled(s, step) && Calm(s, step)
    ensures Herd(Apply(s, step), before, k)
  {
    StepKeepsLocked(s, step);
  }

  lemma {:induction false} CalmRunKeepsHerd(s: State, steps: seq<Step>, u: State, before: nat, k: nat)
    requires Herd(s, before, k) && CalmRun(s, steps, u)
    ensures Herd(u, before, k)
    decreases |steps|
  {
    if steps != [] {
      StepKeepsHerd(s, steps[0], before, k);
      CalmRunKeepsHerd(Apply(s, steps[0]), steps[1..], u, before, k);
    }
  }

  /**
   From a stale cache any number of concurrent callers cause at most one exchange, exactly one by the
   time any of them has a token, and all of them get that same token.
   */
  lemma OneExchangeForTheStampede(s: State, steps: seq<Step>, u: State)
    requires s.callers == map[] && s.lock == None && !IsFresh(s) && CalmRun(s, steps, u)
    ensures s.exchanges <= u.exchanges <= s.exchanges + 1
    ensures forall t :: t in u.callers ==> !u.callers[t].Failed?
    ensures forall t :: t in u.callers && u.callers[t].Got? ==>
              u.exchanges == s.exchanges + 1 && u.callers[t].token == |s.mints|
  {
    CalmRunKeepsHerd(s, steps, u, s.exchanges, |s.mints|);
  }
}
