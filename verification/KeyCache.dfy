/**
 The signing-key cache of the Google Chat verifier: double-checked locking with separate reads of
 the refresh time and of the key map, for any number of concurrent lookups. Every access to a shared
 cell is one step; a run is any interleaving of the lookups' steps, cancellations and the clock.
 */
module KeyCache {
  import opened Text

  /** A keyset as fetched: the key ids it serves. Keysets are numbered in the order they are installed. */
  type Keyset = set<string>

  /** One staleness check that passed: the keyset last stamped as refreshed, and the time of the check. */
  datatype Check = Check(version: nat, at: nat)

  /** What a lookup relied on: a passed check without the lock, one under it, or a keyset it fetched. */
  datatype Basis = FastPath(check: Check) | UnderLock(check: Check) | OwnFetch(fetched: nat) | NoKeyset

  datatype Result = Found(version: nat) | UnknownKid | FetchFailed

  /**
   Where a lookup is. From `Holding` to `Refreshed` it has the refresh lock: `Fetching` its request is
   out, `Installed` the new map is in place, `Stamping` it has read the clock but not yet stored it.
   */
  datatype Pc =
    | Begin(kid: string)
    | Fast(kid: string, check: Check)
    | Queued(kid: string)
    | Holding(kid: string)
    | HoldingFresh(kid: string, check: Check)
    | Fetching(kid: string)
    | Installed(kid: string, mine: nat)
    | Stamping(kid: string, mine: nat, readAt: nat)
    | Refreshed(kid: string, mine: nat)
    | Finished(kid: string, result: Result, basis: Basis)

  /**
   `keysets` and `stamps` are the history: every keyset installed, and when each was stamped. The code
   keeps only the last of each, which are `Current` and `lastRefresh`.
   */
  datatype State = State(ttl: nat, now: nat, keysets: seq<Keyset>, stamps: map<nat, nat>, stamped: nat,
                         lastRefresh: Option<nat>, lock: Option<nat>, threads: map<nat, Pc>, fetches: nat)

  datatype Step =
    | Spawn(tid: nat, kid: string)
    | Advance(tid: nat)
    | FetchSucceeds(tid: nat, keys: Keyset)
    | FetchFails(tid: nat)
    | Cancel(tid: nat)
    | Tick

  /** A verifier just built: no keys, never refreshed, nobody looking anything up. */
  function Start(ttl: nat): State {
    State(ttl, 0, [{}], map[], 0, None, None, map[], 0)
  }

  predicate IsStale(s: State) {
    s.lastRefresh == None || s.now - s.lastRefresh.value >= s.ttl
  }

  function Current(s: State): Keyset
    requires s.keysets != []
  {
    s.keysets[|s.keysets| - 1]
  }

  function Go(s: State, tid: nat, pc: Pc): State {
    s.(threads := s.threads[tid := pc])
  }

  /** Return a result and drop the guard. */
  function Release(s: State, tid: nat, pc: Pc): State {
    s.(threads := s.threads[tid := pc], lock := None)
  }

  predicate CanAdvance(s: State, pc: Pc) {
    !pc.Fetching? && !pc.Finished? && (pc.Queued? ==> s.lock == None)
  }

  predicate Enabled(s: State, step: Step) {
    s.keysets != [] &&
    match step
    case Spawn(tid, _) => tid !in s.threads
    case Advance(tid) => tid in s.threads && CanAdvance(s, s.threads[tid])
    case FetchSucceeds(tid, _) => tid in s.threads && s.threads[tid].Fetching?
    case FetchFails(tid) => tid in s.threads && s.threads[tid].Fetching?
    case Cancel(tid) => tid in s.threads && !s.threads[tid].Finished?
    case Tick => true
  }

  /** The next step of one lookup. */
  function AdvanceThread(s: State, tid: nat): State
    requires tid in s.threads && s.keysets != []
  {
    var last := |s.keysets| - 1;
    match s.threads[tid]
    case Begin(kid) =>
      Go(s, tid, if IsStale(s) then Queued(kid) else Fast(kid, Check(s.stamped, s.now)))
    case Fast(kid, check) =>
      Go(s, tid, if kid in Current(s) then Finished(kid, Found(last), FastPath(check)) else Queued(kid))
    case Queued(kid) => Go(s, tid, Holding(kid)).(lock := Some(tid))
    case Holding(kid) =>
      if IsStale(s) then Go(s, tid, Fetching(kid)).(fetches := s.fetches + 1)
      else Go(s, tid, HoldingFresh(kid, Check(s.stamped, s.now)))
    case HoldingFresh(kid, check) =>
      if kid in Current(s) then Release(s, tid, Finished(kid, Found(last), UnderLock(check)))
      else Go(s, tid, Fetching(kid)).(fetches := s.fetches + 1)
    case Installed(kid, mine) => Go(s, tid, Stamping(kid, mine, s.now))
    case Stamping(kid, mine, readAt) =>
      Go(s, tid, Refreshed(kid, mine)).(lastRefresh := Some(readAt), stamped := mine, stamps := s.stamps[mine := readAt])
    case Refreshed(kid, mine) =>
      Release(s, tid, Finished(kid, if kid in Current(s) then Found(last) else UnknownKid, OwnFetch(mine)))
    case Fetching(_) => s
    case Finished(_, _, _) => s
  }

  function Apply(s: State, step: Step): State
    requires Enabled(s, step)
  {
    match step
    case Spawn(tid, kid) => Go(s, tid, Begin(kid))
    case Advance(tid) => AdvanceThread(s, tid)
    case FetchSucceeds(tid, keys) =>
      Go(s, tid, Installed(s.threads[tid].kid, |s.keysets|)).(keysets := s.keysets + [keys])
    case FetchFails(tid) => Release(s, tid, Finished(s.threads[tid].kid, FetchFailed, NoKeyset))
    case Cancel(tid) =>
      s.(threads := s.threads - {tid}, lock := if s.lock == Some(tid) then None else s.lock)
    case Tick => s.(now := s.now + 1)
  }

  ghost predicate Run(s: State, steps: seq<Step>, u: State)
    decreases |steps|
  {
    if steps == [] then s == u
    else Enabled(s, steps[0]) && Run(Apply(s, steps[0]), steps[1..], u)
  }

  // ----- Mutual exclusion -----

  predicate InLock(pc: Pc) {
    pc.Holding? || pc.HoldingFresh? || pc.Fetching? || pc.Installed? || pc.Stamping? || pc.Refreshed?
  }

  ghost predicate Locked(s: State) {
    && (forall t :: t in s.threads ==> (InLock(s.threads[t]) <==> s.lock == Some(t)))
    && (s.lock.Some? ==> s.lock.value in s.threads)
  }

  lemma AdvanceKeepsLocked(s: State, tid: nat)
    requires Locked(s) && Enabled(s, Advance(tid))
    ensures Locked(AdvanceThread(s, tid))
  {
  }

  lemma StepKeepsLocked(s: State, step: Step)
    requires Locked(s) && Enabled(s, step)
    ensures Locked(Apply(s, step))
  {
    if step.Advance? {
      AdvanceKeepsLocked(s, step.tid);
    }
  }

  lemma {:induction false} RunKeepsLocked(s: State, steps: seq<Step>, u: State)
    requires Locked(s) && Run(s, steps, u)
    ensures Locked(u)
    decreases |steps|
  {
    if steps != [] {
      StepKeepsLocked(s, steps[0]);
      RunKeepsLocked(Apply(s, steps[0]), steps[1..], u);
    }
  }

  /** However many lookups run, and whichever are cancelled, at most one fetch is in flight. */
  lemma OneFetchInFlight(ttl: nat, steps: seq<Step>, u: State, a: nat, b: nat)
    requires Run(Start(ttl), steps, u)
    requires a in u.threads && u.threads[a].Fetching? && b in u.threads && u.threads[b].Fetching?
    ensures a == b
  {
    RunKeepsLocked(Start(ttl), steps, u);
  }

  // ----- Where an answer comes from -----

  /** At the time of the check, the keyset it names had been stamped less than a TTL ago. */
  predicate Good(s: State, c: Check) {
    && c.version in s.stamps && c.version < |s.keysets|
    && c.at <= s.now && c.at - s.stamps[c.version] < s.ttl
  }

  ghost predicate Justified(s: State, kid: string, r: Result, b: Basis) {
    match r
    case Found(v) =>
      && v < |s.keysets| && kid in s.keysets[v]
      && (match b
          case FastPath(c) => Good(s, c) && c.version <= v
          case UnderLock(c) => Good(s, c) && c.version <= v
          case OwnFetch(mine) => v == mine
          case NoKeyset => false)
    case UnknownKid => b.OwnFetch? && b.fetched < |s.keysets| && kid !in s.keysets[b.fetched]
    case FetchFailed => b == NoKeyset
  }

  ghost predicate ThreadOk(s: State, pc: Pc) {
    match pc
    case Fast(_, c) => Good(s, c)
    case HoldingFresh(_, c) => Good(s, c)
    case Installed(_, mine) => mine == |s.keysets| - 1 && mine !in s.stamps
    case Stamping(_, mine, _) => mine == |s.keysets| - 1 && mine !in s.stamps
    case Refreshed(_, mine) => mine == |s.keysets| - 1
    case Finished(kid, r, b) => Justified(s, kid, r, b)
    case _ => true
  }

  /** The refresh time is always the stamp of the keyset it names. */
  ghost predicate StampsOk(s: State) {
    && s.keysets != []
    && (forall v :: v in s.stamps ==> v < |s.keysets|)
    && (s.lastRefresh.Some? ==> s.stamped in s.stamps && s.stamps[s.stamped] == s.lastRefresh.value)
  }

  ghost predicate Sound(s: State) {
    && StampsOk(s)
    && (forall t :: t in s.threads ==> ThreadOk(s, s.threads[t]))
  }

  /** History only grows. */
  ghost predicate Extends(s: State, u: State) {
    && s.ttl == u.ttl && s.now <= u.now && s.keysets <= u.keysets
    && (forall v :: v in s.stamps ==> v in u.stamps && u.stamps[v] == s.stamps[v])
  }

  lemma StepExtends(s: State, step: Step)
    requires Sound(s) && Enabled(s, step)
    ensures Extends(s, Apply(s, step))
  {
  }

  /** What an unlocked lookup knows stays in force as history grows. */
  lemma ThreadOkLasts(s: State, u: State, pc: Pc)
    requires Extends(s, u) && ThreadOk(s, pc)
    requires !InLock(pc) || (s.keysets == u.keysets && s.stamps == u.stamps)
    ensures ThreadOk(u, pc)
  {
  }

  /** Only the lock holder writes the shared history. */
  lemma OthersDoNotWrite(s: State, step: Step, t: nat)
    requires Locked(s) && Enabled(s, step)
    requires t in s.threads && InLock(s.threads[t]) && (step.Tick? || step.tid != t)
    ensures s.keysets == Apply(s, step).keysets && s.stamps == Apply(s, step).stamps
  {
  }

  lemma AdvanceStaysOk(s: State, t: nat)
    requires StampsOk(s) && t in s.threads && CanAdvance(s, s.threads[t]) && ThreadOk(s, s.threads[t])
    ensures ThreadOk(AdvanceThread(s, t), AdvanceThread(s, t).threads[t])
  {
    var pc := s.threads[t];
    if pc.Begin? || pc.Holding? {
      assert !IsStale(s) ==> Good(s, Check(s.stamped, s.now));
    }
  }

  lemma MoverStaysOk(s: State, step: Step)
    requires Sound(s) && Enabled(s, step) && !step.Tick? && !step.Cancel?
    ensures ThreadOk(Apply(s, step), Apply(s, step).threads[step.tid])
  {
    if step.Advance? {
      AdvanceStaysOk(s, step.tid);
    }
  }

  lemma StepKeepsStamps(s: State, step: Step)
    requires Sound(s) && Enabled(s, step)
    ensures StampsOk(Apply(s, step))
  {
  }

  lemma OtherStaysOk(s: State, step: Step, t: nat)
    requires Locked(s) && Sound(s) && Enabled(s, step) && (step.Tick? || step.tid != t) && t in Apply(s, step).threads
    ensures ThreadOk(Apply(s, step), Apply(s, step).threads[t])
  {
    var u := Apply(s, step);
    OthersKeepTheirPlace(s, step, t);
    StepExtends(s, step);
    if InLock(s.threads[t]) {
      OthersDoNotWrite(s, step, t);
    }
    ThreadOkLasts(s, u, s.threads[t]);
  }

  lemma OthersKeepTheirPlace(s: State, step: Step, t: nat)
    requires Enabled(s, step) && (step.Tick? || step.tid != t) && t in Apply(s, step).threads
    ensures t in s.threads && Apply(s, step).threads[t] == s.threads[t]
  {
  }

  lemma StepKeepsSound(s: State, step: Step)
    requires Locked(s) && Sound(s) && Enabled(s, step)
    ensures Sound(Apply(s, step))
  {
    var u := Apply(s, step);
    StepKeepsStamps(s, step);
    forall t | t in u.threads ensures ThreadOk(u, u.threads[t]) {
      if step.Tick? || step.tid != t {
        OtherStaysOk(s, step, t);
      } else {
        MoverStaysOk(s, step);
      }
    }
  }

  lemma {:induction false} RunKeepsSound(s: State, steps: seq<Step>, u: State)
    requires Locked(s) && Sound(s) && Run(s, steps, u)
    ensures Sound(u)
    decreases |steps|
  {
    if steps != [] {
      StepKeepsLocked(s, steps[0]);
      StepKeepsSound(s, steps[0]);
      RunKeepsSound(Apply(s, steps[0]), steps[1..], u);
    }
  }

  /**
   Every key returned without the lock is served by a keyset that had been refreshed less than a TTL
   before the staleness check, or by a newer one.
   */
  lemma FastKeyIsFresh(ttl: nat, steps: seq<Step>, u: State, t: nat)
    requires Run(Start(ttl), steps, u) && t in u.threads && u.threads[t].Finished?
    requires u.threads[t].result.Found? && u.threads[t].basis.FastPath?
    ensures var c := u.threads[t].basis.check;
            && c.version <= u.threads[t].result.version < |u.keysets|
            && u.threads[t].kid in u.keysets[u.threads[t].result.version]
            && c.version in u.stamps && c.at - u.stamps[c.version] < ttl
  {
    RunKeepsSound(Start(ttl), steps, u);
    TtlIsFixed(Start(ttl), steps, u);
  }

  /** A lookup says "unknown key" only about a keyset it fetched itself, which lacks the key. */
  lemma UnknownOnlyAfterOwnFetch(ttl: nat, steps: seq<Step>, u: State, t: nat)
    requires Run(Start(ttl), steps, u) && t in u.threads && u.threads[t].Finished?
    requires u.threads[t].result == UnknownKid
    ensures u.threads[t].basis.OwnFetch? && u.threads[t].basis.fetched < |u.keysets|
    ensures u.threads[t].kid !in u.keysets[u.threads[t].basis.fetched]
  {
    RunKeepsSound(Start(ttl), steps, u);
  }

  lemma {:induction false} TtlIsFixed(s: State, steps: seq<Step>, u: State)
    requires Run(s, steps, u)
    ensures u.ttl == s.ttl
    decreases |steps|
  {
    if steps != [] {
      TtlIsFixed(Apply(s, steps[0]), steps[1..], u);
    }
  }

  // ----- One fetch for a whole herd -----

  /** Nothing expires: a fresh cache stays fresh, and a clock reading is stored within its TTL. */
  ghost predicate NoExpiry(s: State, u: State) {
    && (IsStale(s) || !IsStale(u))
    && (forall t :: t in u.threads && u.threads[t].Stamping? ==> u.now - u.threads[t].readAt < u.ttl)
  }

  /** A step of a run of lookups of keys in `want`, where fetches succeed and serve them all. */
  ghost predicate Calm(s: State, step: Step, want: Keyset)
    requires Enabled(s, step)
  {
    && NoExpiry(s, Apply(s, step))
    && (match step
        case Spawn(_, kid) => kid in want
        case Advance(_) => true
        case FetchSucceeds(_, keys) => want <= keys
        case FetchFails(_) => false
        case Cancel(_) => false
        case Tick => true)
  }

  ghost predicate CalmRun(s: State, steps: seq<Step>, want: Keyset, u: State)
    decreases |steps|
  {
    if steps == [] then s == u
    else Enabled(s, steps[0]) && Calm(s, steps[0], want) && CalmRun(Apply(s, steps[0]), steps[1..], want, u)
  }

  /** Before the fetch everyone is on the way to the lock. */
  predicate Waiting(pc: Pc) {
    pc.Begin? || pc.Queued?
  }

  /** After it, everyone is answered from the new map. */
  predicate Served(pc: Pc) {
    !pc.Fetching? && !pc.Installed? && !pc.Stamping? && (pc.Finished? ==> pc.result.Found?)
  }

  ghost predicate Before(s: State) {
    IsStale(s) && forall t :: t in s.threads ==> Waiting(s.threads[t]) || s.threads[t].Holding?
  }

  ghost predicate During(s: State, want: Keyset) {
    && IsStale(s) && s.lock.Some? && s.lock.value in s.threads && s.keysets != []
    && (var pc := s.threads[s.lock.value];
        || pc.Fetching?
        || (pc.Installed? && want <= Current(s))
        || (pc.Stamping? && want <= Current(s) && s.now - pc.readAt < s.ttl))
    && (forall t :: t in s.threads && s.lock != Some(t) ==> Waiting(s.threads[t]))
  }

  ghost predicate After(s: State, want: Keyset) {
    && !IsStale(s) && s.keysets != [] && want <= Current(s)
    && (forall t :: t in s.threads ==> Served(s.threads[t]))
  }

  ghost predicate Herd(s: State, want: Keyset, before: nat) {
    && Locked(s)
    && (forall t :: t in s.threads ==> s.threads[t].kid in want)
    && (if s.fetches == before then Before(s)
        else s.fetches == before + 1 && (During(s, want) || After(s, want)))
  }

  lemma BeforeStep(s: State, step: Step, want: Keyset, before: nat)
    requires Herd(s, want, before) && s.fetches == before && Enabled(s, step) && Calm(s, step, want)
    ensures Herd(Apply(s, step), want, before)
  {
    StepKeepsLocked(s, step);
  }

  lemma DuringAdvance(s: State, tid: nat, want: Keyset, before: nat)
    requires Herd(s, want, before) && s.fetches == before + 1 && During(s, want)
    requires Enabled(s, Advance(tid)) && Calm(s, Advance(tid), want)
    ensures Herd(AdvanceThread(s, tid), want, before)
  {
    AdvanceKeepsLocked(s, tid);
  }

  lemma DuringStep(s: State, step: Step, want: Keyset, before: nat)
    requires Herd(s, want, before) && s.fetches == before + 1 && During(s, want)
    requires Enabled(s, step) && Calm(s, step, want)
    ensures Herd(Apply(s, step), want, before)
  {
    if step.Advance? {
      DuringAdvance(s, step.tid, want, before);
    } else {
      StepKeepsLocked(s, step);
    }
  }

  lemma AdvanceServed(s: State, t: nat, want: Keyset)
    requires After(s, want) && t in s.threads && s.threads[t].kid in want && CanAdvance(s, s.threads[t])
    ensures var u := AdvanceThread(s, t);
            && u == s.(threads := u.threads, lock := u.lock) && t in u.threads
            && Served(u.threads[t]) && u.threads[t].kid == s.threads[t].kid
  {
  }

  lemma ServedStep(s: State, step: Step, want: Keyset, t: nat)
    requires After(s, want) && (forall k :: k in s.threads ==> s.threads[k].kid in want)
    requires Enabled(s, step) && Calm(s, step, want) && t in Apply(s, step).threads
    ensures Served(Apply(s, step).threads[t]) && Apply(s, step).threads[t].kid in want
  {
    if step.Tick? || step.tid != t {
      OthersKeepTheirPlace(s, step, t);
    } else if step.Advance? {
      AdvanceServed(s, t, want);
    }
  }

  lemma AfterKeeps(s: State, step: Step, want: Keyset)
    requires After(s, want) && (forall k :: k in s.threads ==> s.threads[k].kid in want)
    requires Enabled(s, step) && Calm(s, step, want)
    ensures var u := Apply(s, step); u.fetches == s.fetches && !IsStale(u) && u.keysets == s.keysets
  {
    if step.Advance? {
      AdvanceServed(s, step.tid, want);
    }
  }

  lemma AfterStep(s: State, step: Step, want: Keyset, before: nat)
    requires Herd(s, want, before) && s.fetches == before + 1 && After(s, want)
    requires Enabled(s, step) && Calm(s, step, want)
    ensures Herd(Apply(s, step), want, before)
  {
    var u := Apply(s, step);
    StepKeepsLocked(s, step);
    AfterKeeps(s, step, want);
    forall t | t in u.threads ensures Served(u.threads[t]) && u.threads[t].kid in want {
      ServedStep(s, step, want, t);
    }
  }

  lemma {:induction false} CalmRunKeepsHerd(s: State, steps: seq<Step>, want: Keyset, u: State, before: nat)
    requires Herd(s, want, before) && CalmRun(s, steps, want, u)
    ensures Herd(u, want, before)
    decreases |steps|
  {
    if steps != [] {
      if s.fetches == before {
        BeforeStep(s, steps[0], want, before);
      } else if During(s, want) {
        DuringStep(s, steps[0], want, before);
      } else {
        AfterStep(s, steps[0], want, before);
      }
      CalmRunKeepsHerd(Apply(s, steps[0]), steps[1..], want, u, before);
    }
  }

  /**
   From a stale cache, any number of concurrent lookups of served keys cause at most one fetch, and
   exactly one by the time any of them answers. Every answer is a key.
   */
  lemma OneFetchForTheHerd(s: State, steps: seq<Step>, want: Keyset, u: State)
    requires s.threads == map[] && s.lock == None && IsStale(s) && s.keysets != []
    requires CalmRun(s, steps, want, u)
    ensures s.fetches <= u.fetches <= s.fetches + 1
    ensures forall t :: t in u.threads && u.threads[t].Finished? ==>
              u.fetches == s.fetches + 1 && u.threads[t].result.Found?
  {
    CalmRunKeepsHerd(s, steps, want, u, s.fetches);
  }
}
