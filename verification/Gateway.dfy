/**
 The Discord Gateway worker over whole runs: dialling, HELLO, IDENTIFY or RESUME, frames, close
 codes, backoff, and the heartbeat task that shares two atomics with the reader. A run is a log of
 events in any order the phases allow; reader and timer events interleave freely while connected.
 */
module Gateway {
  import opened Text

  const BACKOFF_INITIAL: nat := 500
  const BACKOFF_MAX: nat := 30_000

  /** `hostOf` is the URL parser: the lower-case host of a `ws`/`wss` URL. */
  datatype Config = Config(gatewayUrl: string, hostOf: string -> Option<string>)

  datatype Session = Session(id: string, resumeUrl: string)

  // ----- What the server sends -----

  datatype Op =
    | Ready(sessionId: Option<string>, resumeUrl: Option<string>)
    | OtherDispatch
    | HeartbeatRequest
    | HeartbeatAck
    | Reconnect
    | InvalidSession(resumable: bool)
    | OtherOp

  datatype Frame =
    | Payload(s: Option<int>, op: Op)
    | Close(code: Option<nat>)
    | Ignored

  /** `Load`, `Store` and `SendBeat` are the heartbeat task's atomic steps on a tick. */
  datatype Event =
    | DialFails
    | Dialled
    | NoHello
    | Hello
    | Handshake(ok: bool)
    | Receive(frame: Frame)
    | StreamEnds
    | SeesDead
    | Load
    | Store
    | SendBeat(ok: bool)
    | Slept
    | Shutdown

  // ----- The worker -----

  datatype Timer = Resting | Checked | Sending | Stopped

  datatype Phase =
    | Dialling
    | AwaitingHello
    | Greeted(seq0: int)
    | Connected(seq0: int, awaitingAck: bool, dead: bool, timer: Timer)
    | Backing
    | Down

  datatype Worker = Worker(backoff: nat, session: Option<Session>, lastSeq: int, phase: Phase)

  function Boot(): Worker {
    Worker(BACKOFF_INITIAL, None, -1, Dialling)
  }

  predicate IsNonResumable(code: nat) {
    code == 4004 || 4010 <= code <= 4014
  }

  predicate IsTrusted(cfg: Config, url: string) {
    match cfg.hostOf(url)
    case None => false
    case Some(host) =>
      || host == "discord.gg" || host == "discord.com"
      || EndsWith(host, ".discord.gg") || EndsWith(host, ".discord.com")
      || cfg.hostOf(cfg.gatewayUrl) == Some(host)
  }

  function WithQuery(base: string): string {
    if '?' in base then base else base + "?v=10&encoding=json"
  }

  function DialUrl(cfg: Config, w: Worker): string {
    WithQuery(if w.session.Some? then w.session.value.resumeUrl else cfg.gatewayUrl)
  }

  datatype Greeting = Identify | Resume(sessionId: string, seq0: int)

  /** What the worker sends after HELLO. */
  function GreetingOf(w: Worker): Greeting
    requires w.phase.Greeted?
  {
    if w.session.Some? then Resume(w.session.value.id, w.phase.seq0) else Identify
  }

  /** The `d` of a heartbeat. */
  function HeartbeatSeq(w: Worker): Option<int>
    requires w.phase.Connected?
  {
    if w.phase.seq0 < 0 then None else Some(w.phase.seq0)
  }

  predicate Enabled(w: Worker, e: Event) {
    match e
    case DialFails => w.phase.Dialling?
    case Dialled => w.phase.Dialling?
    case NoHello => w.phase.AwaitingHello?
    case Hello => w.phase.AwaitingHello?
    case Handshake(_) => w.phase.Greeted?
    case Receive(_) => w.phase.Connected?
    case StreamEnds => w.phase.Connected?
    case SeesDead => w.phase.Connected? && w.phase.dead
    case Load => w.phase.Connected? && w.phase.timer.Resting?
    case Store => w.phase.Connected? && w.phase.timer.Checked?
    case SendBeat(_) => w.phase.Connected? && w.phase.timer.Sending?
    case Slept => w.phase.Backing?
    case Shutdown => !w.phase.Down?
  }

  function ResumeUrlOf(cfg: Config, offered: Option<string>): string {
    if offered.Some? && IsTrusted(cfg, offered.value) then offered.value else cfg.gatewayUrl
  }

  function ReIdentify(w: Worker): Worker {
    Worker(w.backoff, None, -1, Backing)
  }

  /** One pass of the reader loop over a parsed text frame. */
  function OnPayload(cfg: Config, w: Worker, s: Option<int>, op: Op): Worker
    requires w.phase.Connected?
  {
    var v := if s.Some? then w.(lastSeq := s.value, phase := w.phase.(seq0 := s.value)) else w;
    match op
    case Ready(sessionId, resumeUrl) =>
      if sessionId.Some? then v.(session := Some(Session(sessionId.value, ResumeUrlOf(cfg, resumeUrl)))) else v
    case HeartbeatRequest => v.(phase := v.phase.(awaitingAck := true))
    case HeartbeatAck => v.(phase := v.phase.(awaitingAck := false))
    case Reconnect => v.(phase := Backing)
    case InvalidSession(resumable) => if resumable then v.(phase := Backing) else ReIdentify(v)
    case OtherDispatch => v
    case OtherOp => v
  }

  function OnFrame(cfg: Config, w: Worker, f: Frame): Worker
    requires w.phase.Connected?
  {
    match f
    case Payload(s, op) => OnPayload(cfg, w, s, op)
    case Close(code) =>
      if IsNonResumable(if code.Some? then code.value else 0) then ReIdentify(w) else w.(phase := Backing)
    case Ignored => w
  }

  function Doubled(backoff: nat): nat {
    if 2 * backoff <= BACKOFF_MAX then 2 * backoff else BACKOFF_MAX
  }

  function Next(cfg: Config, w: Worker, e: Event): Worker
    requires Enabled(w, e)
  {
    match e
    case DialFails => w.(phase := Backing)
    case Dialled => w.(phase := AwaitingHello)
    case NoHello => w.(phase := Backing)
    case Hello => w.(backoff := BACKOFF_INITIAL, phase := Greeted(w.lastSeq))
    case Handshake(ok) =>
      w.(phase := if ok then Connected(w.phase.seq0, false, false, Resting) else Backing)
    case Receive(f) => OnFrame(cfg, w, f)
    case StreamEnds => w.(phase := Backing)
    case SeesDead => w.(phase := Backing)
    case Load =>
      w.(phase := if w.phase.awaitingAck then w.phase.(dead := true, timer := Stopped)
                  else w.phase.(timer := Checked))
    case Store => w.(phase := w.phase.(awaitingAck := true, timer := Sending))
    case SendBeat(ok) =>
      w.(phase := if ok then w.phase.(timer := Resting) else w.phase.(dead := true, timer := Stopped))
    case Slept => w.(backoff := Doubled(w.backoff), phase := Dialling)
    case Shutdown => w.(phase := Down)
  }

  /** The worker after a log of events; `None` when an event does not fit the phase it met. */
  function Play(cfg: Config, log: seq<Event>): Option<Worker>
    decreases |log|
  {
    if log == [] then Some(Boot())
    else match Play(cfg, log[..|log| - 1])
      case None => None
      case Some(w) =>
        if Enabled(w, log[|log| - 1]) then Some(Next(cfg, w, log[|log| - 1])) else None
  }

  // ----- What a log says, by position -----

  /** Index of the last event that satisfies `p`, or -1. */
  function LastIndex(log: seq<Event>, p: Event -> bool): (i: int)
    ensures -1 <= i < |log| && (i >= 0 ==> p(log[i]))
    ensures forall j :: i < j < |log| ==> !p(log[j])
  {
    if log == [] then -1
    else if p(log[|log| - 1]) then |log| - 1
    else LastIndex(log[..|log| - 1], p)
  }

  predicate OpensSession(e: Event) {
    e.Receive? && e.frame.Payload? && e.frame.op.Ready? && e.frame.op.sessionId.Some?
  }

  predicate CarriesSeq(e: Event) {
    e.Receive? && e.frame.Payload? && e.frame.s.Some?
  }

  /** An INVALID_SESSION that is not resumable, or a close code that is not. */
  predicate ForcesReIdentify(e: Event) {
    e.Receive? && match e.frame
      case Payload(_, op) => op == InvalidSession(false)
      case Close(code) => code.Some? && IsNonResumable(code.value)
      case Ignored => false
  }

  predicate IsAck(e: Event) {
    e.Receive? && e.frame.Payload? && e.frame.op.HeartbeatAck?
  }

  /** The flag is raised: by the timer, or because the server asked for a heartbeat. */
  predicate BeginsHeartbeat(e: Event) {
    e.Store? || (e.Receive? && e.frame.Payload? && e.frame.op.HeartbeatRequest?)
  }

  predicate OpensConnection(e: Event) {
    e == Handshake(true)
  }

  /** The session the log leaves: the latest READY's, if no re-identify came after it. */
  function SessionBy(cfg: Config, log: seq<Event>): Option<Session> {
    var ready := LastIndex(log, OpensSession);
    if ready > LastIndex(log, ForcesReIdentify)
    then Some(Session(log[ready].frame.op.sessionId.value, ResumeUrlOf(cfg, log[ready].frame.op.resumeUrl)))
    else None
  }

  /** The last sequence number seen since the start or the last re-identify. */
  function LastSeqBy(log: seq<Event>): int {
    var seen := LastIndex(log, CarriesSeq);
    if seen > LastIndex(log, ForcesReIdentify) then log[seen].frame.s.value else -1
  }

  /** A heartbeat was begun on this connection and no ACK has been processed since. */
  predicate UnackedBy(log: seq<Event>) {
    var begun := LastIndex(log, BeginsHeartbeat);
    begun > LastIndex(log, IsAck) && begun > LastIndex(log, OpensConnection)
  }

  /** Waits since the last HELLO, or since the start. */
  function WaitsBy(log: seq<Event>): nat {
    if log == [] || log[|log| - 1].Hello? then 0
    else WaitsBy(log[..|log| - 1]) + if log[|log| - 1].Slept? then 1 else 0
  }

  /** The `n`-th wait since progress: 500 ms, doubled each time, at most 30 s. */
  function WaitMs(n: nat): nat
    requires n >= 1
  {
    var ms := BACKOFF_INITIAL * Pow2(n - 1);
    if ms <= BACKOFF_MAX then ms else BACKOFF_MAX
  }

  // ----- The worker's state is what the log says -----

  predicate SeqShared(w: Worker) {
    w.phase.Greeted? || w.phase.Connected? ==> w.phase.seq0 == w.lastSeq
  }

  predicate FlagMatches(log: seq<Event>, w: Worker) {
    w.phase.Connected? ==> (w.phase.awaitingAck <==> UnackedBy(log))
  }

  lemma AppendedIndex(log: seq<Event>, e: Event, p: Event -> bool)
    ensures LastIndex(log + [e], p) == if p(e) then |log| else LastIndex(log, p)
  {
    assert (log + [e])[..|log|] == log;
  }

  /** The session held after one more event. */
  function SessionAfter(cfg: Config, held: Option<Session>, e: Event): Option<Session> {
    if ForcesReIdentify(e) then None
    else if OpensSession(e) then Some(Session(e.frame.op.sessionId.value, ResumeUrlOf(cfg, e.frame.op.resumeUrl)))
    else held
  }

  lemma AppendedSession(cfg: Config, log: seq<Event>, e: Event)
    ensures SessionBy(cfg, log + [e]) == SessionAfter(cfg, SessionBy(cfg, log), e)
  {
    AppendedIndex(log, e, OpensSession);
    AppendedIndex(log, e, ForcesReIdentify);
    assert forall i :: 0 <= i < |log| ==> (log + [e])[i] == log[i];
  }

  lemma NextSession(cfg: Config, w: Worker, e: Event)
    requires Enabled(w, e)
    ensures Next(cfg, w, e).session == SessionAfter(cfg, w.session, e)
  {
  }

  /** The last sequence number after one more event. */
  function SeqAfter(last: int, e: Event): int {
    if ForcesReIdentify(e) then -1 else if CarriesSeq(e) then e.frame.s.value else last
  }

  lemma AppendedSeq(log: seq<Event>, e: Event)
    ensures LastSeqBy(log + [e]) == SeqAfter(LastSeqBy(log), e)
  {
    AppendedIndex(log, e, CarriesSeq);
    AppendedIndex(log, e, ForcesReIdentify);
    assert forall i :: 0 <= i < |log| ==> (log + [e])[i] == log[i];
  }

  lemma NextSeq(cfg: Config, w: Worker, e: Event)
    requires Enabled(w, e)
    ensures Next(cfg, w, e).lastSeq == SeqAfter(w.lastSeq, e)
    ensures SeqShared(w) ==> SeqShared(Next(cfg, w, e))
  {
  }

  lemma FlagFollows(cfg: Config, log: seq<Event>, w: Worker, e: Event)
    requires Enabled(w, e) && FlagMatches(log, w)
    ensures FlagMatches(log + [e], Next(cfg, w, e))
  {
    AppendedIndex(log, e, BeginsHeartbeat);
    AppendedIndex(log, e, IsAck);
    AppendedIndex(log, e, OpensConnection);
  }

  lemma BackoffFollows(cfg: Config, log: seq<Event>, w: Worker, e: Event)
    requires Enabled(w, e) && w.backoff == WaitMs(WaitsBy(log) + 1)
    ensures Next(cfg, w, e).backoff == WaitMs(WaitsBy(log + [e]) + 1)
  {
    assert (log + [e])[..|log|] == log;
  }

  // ----- Main results -----

  lemma LastStep(cfg: Config, log: seq<Event>)
    requires log != [] && Play(cfg, log).Some?
    ensures Play(cfg, log[..|log| - 1]).Some?
    ensures
      var w := Play(cfg, log[..|log| - 1]).value;
      Enabled(w, log[|log| - 1]) && Play(cfg, log).value == Next(cfg, w, log[|log| - 1])
    ensures log == log[..|log| - 1] + [log[|log| - 1]]
  {
  }

  /** Over all runs and reconnects the session held is the one the log leaves. */
  lemma {:induction false} SessionOfLog(cfg: Config, log: seq<Event>)
    requires Play(cfg, log).Some?
    ensures Play(cfg, log).value.session == SessionBy(cfg, log)
    decreases |log|
  {
    if log != [] {
      LastStep(cfg, log);
      var before := log[..|log| - 1];
      SessionOfLog(cfg, before);
      AppendedSession(cfg, before, log[|log| - 1]);
      NextSession(cfg, Play(cfg, before).value, log[|log| - 1]);
    }
  }

  /** ... and the sequence number, in the worker and in the atomic the heartbeat reads, the last one. */
  lemma {:induction false} SeqOfLog(cfg: Config, log: seq<Event>)
    requires Play(cfg, log).Some?
    ensures Play(cfg, log).value.lastSeq == LastSeqBy(log) && SeqShared(Play(cfg, log).value)
    decreases |log|
  {
    if log != [] {
      LastStep(cfg, log);
      var before := log[..|log| - 1];
      SeqOfLog(cfg, before);
      AppendedSeq(before, log[|log| - 1]);
      NextSeq(cfg, Play(cfg, before).value, log[|log| - 1]);
    }
  }

  /** A heartbeat carries the last sequence number, or none before the first. */
  lemma HeartbeatCarriesSeq(cfg: Config, log: seq<Event>)
    requires Play(cfg, log).Some? && Play(cfg, log).value.phase.Connected?
    ensures HeartbeatSeq(Play(cfg, log).value) == if LastSeqBy(log) < 0 then None else Some(LastSeqBy(log))
  {
    SeqOfLog(cfg, log);
  }

  /**
   RESUME is sent exactly when a session is held, with the latest READY's session id and the last
   sequence number since the start or the last re-identify; IDENTIFY otherwise.
   */
  lemma GreetingOfLog(cfg: Config, log: seq<Event>)
    requires Play(cfg, log).Some? && Play(cfg, log).value.phase.Greeted?
    ensures GreetingOf(Play(cfg, log).value)
         == var session := SessionBy(cfg, log);
            if session.Some? then Resume(session.value.id, LastSeqBy(log)) else Identify
  {
    SessionOfLog(cfg, log);
    SeqOfLog(cfg, log);
  }

  lemma {:induction false} NoSessionUntilHandshake(cfg: Config, log: seq<Event>, k: nat)
    requires k < |log| && Play(cfg, log).Some? && ForcesReIdentify(log[k])
    requires forall i :: k < i < |log| ==> !log[i].Handshake?
    ensures
      var w := Play(cfg, log).value;
      w.session == None && w.lastSeq == -1 && !w.phase.Connected?
    decreases |log|
  {
    LastStep(cfg, log);
    if k < |log| - 1 { NoSessionUntilHandshake(cfg, log[..|log| - 1], k); }
  }

  /** After any re-identify outcome the next handshake is IDENTIFY. */
  lemma IdentifyAfterReIdentify(cfg: Config, log: seq<Event>, k: nat)
    requires k < |log| && Play(cfg, log).Some? && Play(cfg, log).value.phase.Greeted?
    requires ForcesReIdentify(log[k]) && forall i :: k < i < |log| ==> !log[i].Handshake?
    ensures GreetingOf(Play(cfg, log).value) == Identify
  {
    NoSessionUntilHandshake(cfg, log, k);
  }

  /** Every URL dialled is built from the configured one or from one that passed the trust check. */
  lemma DialsTrustedUrls(cfg: Config, log: seq<Event>)
    requires Play(cfg, log).Some?
    ensures exists base :: DialUrl(cfg, Play(cfg, log).value) == WithQuery(base)
                        && (base == cfg.gatewayUrl || IsTrusted(cfg, base))
  {
    SessionOfLog(cfg, log);
    var w := Play(cfg, log).value;
    var base := if w.session.Some? then w.session.value.resumeUrl else cfg.gatewayUrl;
    assert DialUrl(cfg, w) == WithQuery(base);
  }

  lemma Extend(cfg: Config, log: seq<Event>, w: Worker, e: Event)
    requires Play(cfg, log) == Some(w) && Enabled(w, e)
    ensures Play(cfg, log + [e]) == Some(Next(cfg, w, e))
  {
    assert (log + [e])[..|log|] == log;
  }

  /** A first connection, up to the handshake. */
  lemma FirstConnection(cfg: Config)
    ensures Play(cfg, [] + [Dialled] + [Hello] + [Handshake(true)])
         == Some(Boot().(phase := Connected(-1, false, false, Resting)))
  {
    Extend(cfg, [], Boot(), Dialled);
    Extend(cfg, [] + [Dialled], Boot().(phase := AwaitingHello), Hello);
    Extend(cfg, [] + [Dialled] + [Hello], Boot().(phase := Greeted(-1)), Handshake(true));
  }

  /** "No session, no sequence number" is false: a sequence number may come before any READY. */
  lemma SeqWithoutSession(cfg: Config) returns (log: seq<Event>)
    ensures Play(cfg, log).Some? && Play(cfg, log).value.session == None && Play(cfg, log).value.lastSeq == 7
  {
    FirstConnection(cfg);
    log := [] + [Dialled] + [Hello] + [Handshake(true)];
    var e := Receive(Payload(Some(7), OtherDispatch));
    Extend(cfg, log, Play(cfg, log).value, e);
    log := log + [e];
  }

  // ----- Heartbeat -----

  /** In every interleaving the flag is up exactly while the latest heartbeat begun is not acknowledged. */
  lemma {:induction false} FlagOfLog(cfg: Config, log: seq<Event>)
    requires Play(cfg, log).Some?
    ensures FlagMatches(log, Play(cfg, log).value)
    decreases |log|
  {
    if log != [] {
      LastStep(cfg, log);
      var before := log[..|log| - 1];
      FlagOfLog(cfg, before);
      FlagFollows(cfg, before, Play(cfg, before).value, log[|log| - 1]);
    }
  }

  predicate IsDead(w: Worker) {
    w.phase.Connected? && w.phase.dead
  }

  /** Only a tick that finds the latest heartbeat unacknowledged, or a failed send, cuts a connection. */
  lemma WhatKills(cfg: Config, w: Worker, e: Event)
    requires Enabled(w, e) && !IsDead(w)
    ensures IsDead(Next(cfg, w, e)) <==> (e.Load? && w.phase.awaitingAck) || e == SendBeat(false)
  {
  }

  lemma WhatCutsAConnection(cfg: Config, log: seq<Event>, e: Event)
    requires Play(cfg, log).Some? && Enabled(Play(cfg, log).value, e) && !IsDead(Play(cfg, log).value)
    ensures IsDead(Next(cfg, Play(cfg, log).value, e)) <==> (e.Load? && UnackedBy(log)) || e == SendBeat(false)
  {
    FlagOfLog(cfg, log);
    WhatKills(cfg, Play(cfg, log).value, e);
  }

  function AskForHeartbeat(): Event {
    Receive(Payload(None, HeartbeatRequest))
  }

  /**
   From any healthy moment: a heartbeat the server asks for raises the flag too, so a tick that comes
   before the peer's answer to it cuts the connection.
   */
  lemma RequestThenTickCuts(cfg: Config, log: seq<Event>)
    requires Play(cfg, log).Some? && Play(cfg, log).value.phase.Connected?
    requires !IsDead(Play(cfg, log).value) && Play(cfg, log).value.phase.timer.Resting?
    ensures Play(cfg, log + [AskForHeartbeat()] + [Load]).Some?
    ensures IsDead(Play(cfg, log + [AskForHeartbeat()] + [Load]).value)
  {
    var w := Play(cfg, log).value;
    Extend(cfg, log, w, AskForHeartbeat());
    Extend(cfg, log + [AskForHeartbeat()], Next(cfg, w, AskForHeartbeat()), Load);
  }

  /** Every heartbeat the timer sent has been acknowledged. */
  ghost predicate PeerAnswers(log: seq<Event>) {
    forall i :: 0 <= i < |log| && log[i].Store? ==> exists j :: i < j < |log| && IsAck(log[j])
  }

  /** A connection whose peer answered every heartbeat the timer sent is cut. */
  lemma RequestedHeartbeatCuts(cfg: Config) returns (log: seq<Event>)
    ensures PeerAnswers(log) && exists i :: 0 <= i < |log| && log[i].Store?
    ensures Play(cfg, log + [AskForHeartbeat()] + [Load]).Some?
    ensures IsDead(Play(cfg, log + [AskForHeartbeat()] + [Load]).value)
  {
    FirstConnection(cfg);
    log := [] + [Dialled] + [Hello] + [Handshake(true)];
    var ack := Receive(Payload(None, HeartbeatAck));
    Extend(cfg, log, Play(cfg, log).value, Load);
    log := log + [Load];
    Extend(cfg, log, Play(cfg, log).value, Store);
    log := log + [Store];
    Extend(cfg, log, Play(cfg, log).value, SendBeat(true));
    log := log + [SendBeat(true)];
    Extend(cfg, log, Play(cfg, log).value, ack);
    log := log + [ack];
    assert log[4] == Store && IsAck(log[6]);
    RequestThenTickCuts(cfg, log);
  }

  /** A tick after a tick, with no ACK processed between them, always cuts the connection. */
  lemma {:induction false} SilentTicksCut(cfg: Config, log: seq<Event>, i: nat)
    requires i < |log| && log[i].Load? && Play(cfg, log).Some?
    requires forall j :: i < j < |log| ==> !IsAck(log[j]) && !log[j].Load? && !OpensConnection(log[j])
    ensures
      var p := Play(cfg, log).value.phase;
      p.Connected? ==> p.timer.Checked? || ((p.timer.Sending? || p.timer.Resting?) && p.awaitingAck) || p.dead
    decreases |log|
  {
    LastStep(cfg, log);
    if i < |log| - 1 { SilentTicksCut(cfg, log[..|log| - 1], i); }
  }

  lemma SecondTickCuts(cfg: Config, log: seq<Event>, i: nat)
    requires i < |log| && log[i].Load?
    requires forall j :: i < j < |log| ==> !IsAck(log[j]) && !log[j].Load? && !OpensConnection(log[j])
    requires Play(cfg, log).Some? && Enabled(Play(cfg, log).value, Load)
    ensures IsDead(Next(cfg, Play(cfg, log).value, Load))
  {
    SilentTicksCut(cfg, log, i);
  }

  // ----- Backoff -----

  /** The wait about to be taken is the `n`-th since the last HELLO: min(500 * 2^(n-1), 30000) ms. */
  lemma {:induction false} BackoffOfLog(cfg: Config, log: seq<Event>)
    requires Play(cfg, log).Some?
    ensures Play(cfg, log).value.backoff == WaitMs(WaitsBy(log) + 1)
    ensures BACKOFF_INITIAL <= Play(cfg, log).value.backoff <= BACKOFF_MAX
    decreases |log|
  {
    if log != [] {
      LastStep(cfg, log);
      var before := log[..|log| - 1];
      BackoffOfLog(cfg, before);
      BackoffFollows(cfg, before, Play(cfg, before).value, log[|log| - 1]);
    }
  }

  // ----- The worker as it runs -----

  /** The worker's mutable state; each event handler assigns the fields the event changes. */
  class GatewayWorker {
    const cfg: Config
    var backoff: nat
    var session: Option<Session>
    var lastSeq: int
    var phase: Phase

    function State(): Worker
      reads this
    {
      Worker(backoff, session, lastSeq, phase)
    }

    constructor (cfg: Config)
      ensures State() == Boot() && this.cfg == cfg
    {
      this.cfg := cfg;
      backoff, session, lastSeq, phase := BACKOFF_INITIAL, None, -1, Dialling;
    }

    method ReceivePayload(s: Option<int>, op: Op)
      requires phase.Connected?
      modifies this
      ensures State() == OnPayload(cfg, old(State()), s, op)
    {
      if s.Some? {
        phase := phase.(seq0 := s.value);
        lastSeq := s.value;
      }
      match op
      case Ready(sessionId, resumeUrl) =>
        if sessionId.Some? {
          session := Some(Session(sessionId.value, ResumeUrlOf(cfg, resumeUrl)));
        }
      case HeartbeatRequest => phase := phase.(awaitingAck := true);
      case HeartbeatAck => phase := phase.(awaitingAck := false);
      case Reconnect => phase := Backing;
      case InvalidSession(resumable) =>
        if !resumable { session, lastSeq := None, -1; }
        phase := Backing;
      case _ =>
    }

    method ReceiveFrame(f: Frame)
      requires phase.Connected?
      modifies this
      ensures State() == OnFrame(cfg, old(State()), f)
    {
      match f
      case Payload(s, op) => ReceivePayload(s, op);
      case Close(code) =>
        if code.Some? && IsNonResumable(code.value) { session, lastSeq := None, -1; }
        phase := Backing;
      case Ignored =>
    }

    method Tick(e: Event)
      requires Enabled(State(), e) && (e.Load? || e.Store? || e.SendBeat?)
      modifies this`phase
      ensures State() == Next(cfg, old(State()), e)
    {
      if e.Load? {
        if phase.awaitingAck {
          phase := phase.(dead := true, timer := Stopped);
        } else {
          phase := phase.(timer := Checked);
        }
      } else if e.Store? {
        phase := phase.(awaitingAck := true, timer := Sending);
      } else if e.ok {
        phase := phase.(timer := Resting);
      } else {
        phase := phase.(dead := true, timer := Stopped);
      }
    }

    method Handle(e: Event)
      requires Enabled(State(), e)
      modifies this
      ensures State() == Next(cfg, old(State()), e)
    {
      match e
      case Receive(f) => ReceiveFrame(f);
      case Load => Tick(e);
      case Store => Tick(e);
      case SendBeat(_) => Tick(e);
      case Dialled => phase := AwaitingHello;
      case Hello => backoff, phase := BACKOFF_INITIAL, Greeted(lastSeq);
      case Handshake(ok) => phase := if ok then Connected(phase.seq0, false, false, Resting) else Backing;
      case Slept =>
        backoff := if backoff * 2 <= BACKOFF_MAX then backoff * 2 else BACKOFF_MAX;
        phase := Dialling;
      case Shutdown => phase := Down;
      case _ => phase := Backing;
    }

    /** Runs a whole log; stops at the first event that does not fit. */
    method RunLog(log: seq<Event>) returns (fits: bool)
      requires State() == Boot()
      modifies this
      ensures fits <==> Play(cfg, log).Some?
      ensures fits ==> Play(cfg, log) == Some(State())
    {
      var i := 0;
      assert log[..0] == [];
      while i < |log|
        invariant 0 <= i <= |log|
        invariant Play(cfg, log[..i]) == Some(State())
      {
        assert log[..i + 1] == log[..i] + [log[i]];
        if !Enabled(State(), log[i]) {
          PlayStops(cfg, log, i);
          return false;
        }
        Extend(cfg, log[..i], State(), log[i]);
        Handle(log[i]);
        i := i + 1;
      }
      assert log[..i] == log;
      fits := true;
    }
  }

  lemma {:induction false} PlayStops(cfg: Config, log: seq<Event>, i: nat)
    requires i < |log| && Play(cfg, log[..i]).Some? && !Enabled(Play(cfg, log[..i]).value, log[i])
    ensures Play(cfg, log) == None
    decreases |log|
  {
    var before := log[..|log| - 1];
    if i < |before| {
      assert before[..i] == log[..i];
      PlayStops(cfg, before, i);
    } else {
      assert before == log[..i];
    }
  }
}
