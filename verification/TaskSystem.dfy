/**
 One task: its stored record, its hub entry, the runners that drive it across process restarts, and
 one owner's event stream. Every lock-protected or otherwise atomic action is a step; a run is any
 interleaving of steps.
 */
module TaskSystem {
  import opened Text
  import opened Broadcast

  // ----- What is stored and sent -----

  datatype Outcome = Answer(text: string) | Failure(cls: string, message: string)

  datatype Record = Running(upstream: Option<string>) | Finished(outcome: Outcome)

  /** A published event; `Note` is one that does not end the task: a token (no frame), or progress. */
  datatype Event = Note(shown: bool) | Terminal(outcome: Outcome)

  /** A request to the upstream: the turn itself, or a question about the upstream's own task. */
  datatype Request = Dispatch | Resume(upstream: string)

  /**
   Where a channel's driver is. `Claimed`: taken over after a restart, not yet decided. `Opening`:
   about to send the request. `Recorded`: outcome stored, event not yet sent. `Announced`: event
   sent, hub entry still there. `Abandoned`: the claimant failed the task without an event.
   `Gone`: hub entry and all senders dropped; `early` if no outcome was recorded first.
   */
  datatype Phase =
    | Claimed
    | Opening(request: Request)
    | Streaming
    | Recorded(outcome: Outcome)
    | Announced
    | Abandoned
    | Gone(early: bool)

  datatype Channel = Channel(sent: seq<Event>, phase: Phase, upstream: Option<string>)

  // ----- The stream -----

  /** `First` is the task itself; an answer ends in its artifact and `Completed`, a failure in `Failed`. */
  datatype Frame = First(record: Record) | Working | Artifact(text: string) | Completed | Failed(cls: string, message: string)

  /**
   An owner's resubscription, or the stream of a turn the owner has just started. `Asked`: the
   record was read. `Deciding`: this caller claimed channel `on`. `Subscribed`: a subscription was
   taken, or there is none. `Refused`: a resubscription answered "the task is finished".
   `Following`: the first frame is out. `Cut`: deadline, hang-up, restart.
   */
  datatype Reader =
    | Idle
    | Asked(record: Record)
    | Deciding(on: nat)
    | Subscribed(started: bool, seen: Record, rx: Option<(nat, nat)>)
    | Refused(record: Record)
    | Following(on: nat, at: nat, frames: seq<Frame>)
    | Ended(source: Option<nat>, frames: seq<Frame>)
    | Cut

  datatype System = System(store: Option<Record>, live: Option<nat>, channels: seq<Channel>,
                           requests: seq<Request>, given: set<string>, reader: Reader)

  datatype Step =
    // A caller's.
    | StartTask(byReader: bool)
    | ClaimTask
    | ResumeClaimed
    | FailClaimed(cls: string, message: string)
    // The runner's.
    | Open
    | Notify(shown: bool)
    | GoAsync(id: string)
    | Retry
    | Record(outcome: Outcome)
    | Announce
    | CloseHub
    | Panic
    // The reader's.
    | Ask
    | Subscribe
    | Snapshot
    | Read
    // The environment's.
    | CutStream
    | Restart

  function Init(): System {
    System(None, None, [], [], {}, Idle)
  }

  // ----- Shared pieces -----

  /** `update_running`: never touches a finished record, nor one that is not there. */
  function UpdateRunning(store: Option<Record>, r: Record): Option<Record> {
    if store.Some? && store.value.Running? then Some(r) else store
  }

  function DriverPhase(s: System): Option<Phase> {
    if s.live.Some? && s.live.value < |s.channels| then Some(s.channels[s.live.value].phase) else None
  }

  /** Put the live channel into phase `p`. */
  function Advance(s: System, p: Phase): System
    requires s.live.Some? && s.live.value < |s.channels|
  {
    s.(channels := s.channels[s.live.value := s.channels[s.live.value].(phase := p)])
  }

  function Send(s: System, e: Event): System
    requires s.live.Some? && s.live.value < |s.channels|
  {
    var c := s.channels[s.live.value];
    s.(channels := s.channels[s.live.value := c.(sent := c.sent + [e])])
  }

  /** A new channel in the hub. */
  function OpenChannel(s: System, p: Phase, upstream: Option<string>): System {
    s.(live := Some(|s.channels|), channels := s.channels + [Channel([], p, upstream)])
  }

  /** The hub guard's drop: the entry goes, and with it the last sender. */
  function Close(s: System): System
    requires s.live.Some? && s.live.value < |s.channels|
  {
    var early := match s.channels[s.live.value].phase
      case Claimed => true case Opening(_) => true case Streaming => true case _ => false;
    Advance(s, Gone(early)).(live := None)
  }

  /** The frames of an outcome: an answer's artifact comes before its status. */
  function EndFrames(o: Outcome): seq<Frame> {
    match o
    case Answer(text) => [Artifact(text), Completed]
    case Failure(cls, message) => [Failed(cls, message)]
  }

  /** The artifact of an answer carries the stored text; a failure carries its own. */
  function FinalFrames(store: Option<Record>, o: Outcome): seq<Frame> {
    if o.Failure? then EndFrames(o)
    else if store.Some? && store.value.Finished? && store.value.outcome.Answer? then EndFrames(store.value.outcome)
    else EndFrames(Answer(""))
  }

  /** One turn of the stream's receive loop, on channel `c`. */
  function ReadFrom(capacity: nat, store: Option<Record>, c: Channel, r: Reader): Reader
    requires capacity >= 1 && r.Following? && r.at <= |c.sent|
  {
    match Receive(c.sent, !c.phase.Gone?, capacity, r.at)
    case Got(e, next) =>
      if e.Note? then Following(r.on, next, if e.shown then r.frames + [Working] else r.frames)
      else Ended(Some(r.on), r.frames + FinalFrames(store, e.outcome))
    case Lagged(next) => r.(at := next)
    case Closed =>
      if store.Some? && store.value.Finished?
      then Ended(Some(r.on), r.frames + FinalFrames(store, store.value.outcome))
      else Ended(Some(r.on), r.frames)
    case Pending => r
  }

  function ReadStep(capacity: nat, s: System): Reader
    requires capacity >= 1 && s.reader.Following?
    requires s.reader.on < |s.channels| && s.reader.at <= |s.channels[s.reader.on].sent|
  {
    ReadFrom(capacity, s.store, s.channels[s.reader.on], s.reader)
  }

  // ----- Steps -----

  predicate Enabled(capacity: nat, s: System, step: Step)
    requires capacity >= 1
  {
    var phase := DriverPhase(s);
    match step
    // The task id is the turn's own trace id: no record, no hub entry, no earlier channel.
    case StartTask(byReader) => s.store == None && s.live == None && s.channels == [] && (byReader ==> s.reader.Idle?)
    case ClaimTask => s.live == None && s.store.Some? && s.store.value.Running?
    case ResumeClaimed => phase == Some(Claimed) && s.channels[s.live.value].upstream.Some?
    case FailClaimed(_, _) => phase == Some(Claimed)
    case Open => phase.Some? && phase.value.Opening?
    case Notify(_) => phase == Some(Streaming)
    case GoAsync(_) => phase == Some(Streaming)
    case Retry => phase == Some(Streaming) && s.channels[s.live.value].upstream.Some?
    case Record(_) => phase == Some(Streaming)
    case Announce => phase.Some? && phase.value.Recorded?
    case CloseHub => phase == Some(Announced) || phase == Some(Abandoned)
    case Panic => phase.Some? && !phase.value.Gone?
    case Ask => s.reader.Idle? && s.store.Some?
    case Subscribe => s.reader.Asked?
    case Snapshot => s.reader.Subscribed?
    case Read =>
      && s.reader.Following? && s.reader.on < |s.channels|
      && s.reader.at <= |s.channels[s.reader.on].sent|
      && !Receive(s.channels[s.reader.on].sent, !s.channels[s.reader.on].phase.Gone?, capacity, s.reader.at).Pending?
    case CutStream => s.reader.Asked? || s.reader.Subscribed? || s.reader.Following?
    case Restart => true
  }

  /** `subscribe_or_claim`, under the hub lock. */
  function SubscribeStep(s: System): System
    requires s.reader.Asked?
  {
    var seen := s.reader.record;
    if seen.Finished? then s.(reader := Subscribed(false, seen, None))
    else if s.live.Some? && s.live.value < |s.channels|
    then s.(reader := Subscribed(false, seen, Some((s.live.value, |s.channels[s.live.value].sent|))))
    else if s.live == None && s.store.Some? && s.store.value.Running?
    then OpenChannel(s, Claimed, s.store.value.upstream).(reader := Deciding(|s.channels|))
    else s.(reader := Subscribed(false, seen, None))
  }

  /** The record is read again after the subscription was taken; the first frame shows it. */
  function SnapshotStep(s: System): Reader
    requires s.reader.Subscribed?
  {
    var first := if s.store.Some? then s.store.value else s.reader.seen;
    match s.reader.rx
    case Some((on, at)) =>
      if first.Running? then Following(on, at, [First(first)])
      else if s.reader.started then Ended(Some(on), [First(first)])
      else Refused(first)
    case None => if first.Running? then Ended(None, [First(first)]) else Refused(first)
  }

  function Apply(capacity: nat, s: System, step: Step): System
    requires capacity >= 1 && Enabled(capacity, s, step)
  {
    match step
    case StartTask(byReader) =>
      var t := OpenChannel(s, Opening(Dispatch), None).(store := Some(Running(None)));
      if byReader then t.(reader := Subscribed(true, Running(None), Some((0, 0)))) else t
    case ClaimTask => OpenChannel(s, Claimed, s.store.value.upstream)
    case ResumeClaimed =>
      var t := Advance(s, Opening(Resume(s.channels[s.live.value].upstream.value)));
      if s.reader == Deciding(s.live.value)
      then t.(reader := Subscribed(false, Running(s.channels[s.live.value].upstream), Some((s.live.value, 0)))) else t
    case FailClaimed(cls, message) =>
      var t := Advance(s, Abandoned).(store := UpdateRunning(s.store, Finished(Failure(cls, message))));
      if s.reader == Deciding(s.live.value)
      then t.(reader := Subscribed(false, Running(s.channels[s.live.value].upstream), None)) else t
    case Open =>
      Advance(s, Streaming).(requests := s.requests + [s.channels[s.live.value].phase.request])
    case Notify(shown) => Send(s, Note(shown))
    case GoAsync(id) =>
      var c := s.channels[s.live.value];
      Send(s.(store := UpdateRunning(s.store, Running(Some(id))), given := s.given + {id},
              channels := s.channels[s.live.value := c.(upstream := Some(id))]), Note(true))
    case Retry => Advance(s, Opening(Resume(s.channels[s.live.value].upstream.value)))
    case Record(o) => Advance(s, Recorded(o)).(store := UpdateRunning(s.store, Finished(o)))
    case Announce =>
      Advance(Send(s, Terminal(s.channels[s.live.value].phase.outcome)), Announced)
    case CloseHub => Close(s)
    case Panic => Close(s).(reader := if s.reader.Deciding? then Cut else s.reader)
    case Ask => s.(reader := Asked(s.store.value))
    case Subscribe => SubscribeStep(s)
    case Snapshot => s.(reader := SnapshotStep(s))
    case Read => s.(reader := ReadStep(capacity, s))
    case CutStream => s.(reader := Cut)
    case Restart =>
      var t := if DriverPhase(s).Some? then Close(s) else s.(live := None);
      t.(reader := if s.reader.Idle? || s.reader.Ended? || s.reader.Refused? then s.reader else Cut)
  }

  ghost predicate Run(capacity: nat, s: System, steps: seq<Step>, u: System)
    requires capacity >= 1
    decreases |steps|
  {
    if steps == [] then s == u
    else Enabled(capacity, s, steps[0]) && Run(capacity, Apply(capacity, s, steps[0]), steps[1..], u)
  }

  // ----- Invariant -----

  /** The outcome a channel's events end with. */
  function EndOf(sent: seq<Event>): Option<Outcome> {
    if sent != [] && sent[|sent| - 1].Terminal? then Some(sent[|sent| - 1].outcome) else None
  }

  predicate IsRunning(store: Option<Record>) {
    store.Some? && store.value.Running?
  }

  predicate IsFinished(store: Option<Record>) {
    store.Some? && store.value.Finished?
  }

  predicate ChannelOk(store: Option<Record>, given: set<string>, c: Channel) {
    && (forall i :: 0 <= i < |c.sent| - 1 ==> c.sent[i].Note?)
    && (EndOf(c.sent).Some? ==> store == Some(Finished(EndOf(c.sent).value)) && (c.phase.Announced? || c.phase == Gone(false)))
    && (c.upstream.Some? ==> c.upstream.value in given)
    && match c.phase
       case Claimed => IsRunning(store)
       case Opening(request) => IsRunning(store) && (request.Resume? ==> request.upstream in given)
       case Streaming => IsRunning(store)
       case Recorded(o) => store == Some(Finished(o))
       case Announced => EndOf(c.sent).Some?
       case Abandoned => IsFinished(store)
       case Gone(early) => early || IsFinished(store)
  }

  predicate HubOk(s: System) {
    && (s.live.Some? ==> s.live.value == |s.channels| - 1 && !s.channels[|s.channels| - 1].phase.Gone?)
    && (forall i :: 0 <= i < |s.channels| && s.live != Some(i) ==> s.channels[i].phase.Gone?)
    && (s.store == None <==> s.channels == [])
    && (s.store.Some? && s.store.value.Running? && s.store.value.upstream.Some? ==> s.store.value.upstream.value in s.given)
  }

  predicate RequestsOk(s: System) {
    && (forall i :: 0 <= i < |s.requests| ==>
          if i == 0 then s.requests[i].Dispatch? else s.requests[i].Resume? && s.requests[i].upstream in s.given)
    && (s.channels == [] ==> s.requests == [])
    && (s.requests == [] ==> s.given == {})
    && (forall i :: 0 <= i < |s.channels| && s.channels[i].phase == Opening(Dispatch) ==> s.requests == [])
    && (forall i :: 0 <= i < |s.channels| && s.channels[i].phase.Streaming? ==> s.requests != [])
  }

  /** One first frame, then only frames of a working task. */
  predicate Continuing(frames: seq<Frame>) {
    |frames| >= 1 && frames[0].First? && frames[0].record.Running?
    && forall i :: 1 <= i < |frames| ==> frames[i].Working?
  }

  /** The stream's last frames show outcome `o`, and no earlier frame shows any. */
  predicate Shows(frames: seq<Frame>, o: Outcome) {
    var end := EndFrames(o);
    || frames == [First(Finished(o))]
    || (|frames| > |end| && Continuing(frames[..|frames| - |end|]) && frames[|frames| - |end|..] == end)
  }

  predicate ReaderOk(s: System) {
    match s.reader
    case Idle => true
    case Asked(record) => s.store.Some? && (record.Finished? ==> s.store == Some(record))
    case Deciding(on) => s.live == Some(on) && on < |s.channels| && s.channels[on].phase.Claimed?
    case Subscribed(_, seen, None) => IsFinished(s.store)
    case Subscribed(_, seen, Some((on, at))) => on < |s.channels| && at <= |s.channels[on].sent|
    case Refused(record) => record.Finished? && s.store == Some(record)
    case Following(on, at, frames) =>
      && on < |s.channels| && at <= |s.channels[on].sent| && Continuing(frames)
      && (at == |s.channels[on].sent| ==> EndOf(s.channels[on].sent) == None)
    case Ended(on, frames) =>
      || (IsFinished(s.store) && Shows(frames, s.store.value.outcome))
      || (Continuing(frames) && on.Some? && on.value < |s.channels| && s.channels[on.value].phase == Gone(true))
    case Cut => true
  }

  predicate CoreOk(s: System) {
    && HubOk(s)
    && (forall i :: 0 <= i < |s.channels| ==> ChannelOk(s.store, s.given, s.channels[i]))
    && RequestsOk(s)
  }

  predicate Inv(s: System) {
    CoreOk(s) && ReaderOk(s)
  }

  predicate ChannelGrows(c: Channel, d: Channel) {
    c.sent <= d.sent && (c.phase.Gone? ==> d == c)
  }

  /** What no step takes back: sent events, closed channels, a finished record. */
  predicate Extends(s: System, t: System) {
    && |s.channels| <= |t.channels|
    && (forall i :: 0 <= i < |s.channels| ==> ChannelGrows(s.channels[i], t.channels[i]))
    && (IsFinished(s.store) ==> t.store == s.store)
    && (s.store.Some? ==> t.store.Some?)
  }

  // ----- Each step keeps the invariant -----

  predicate KeepsCore(capacity: nat, s: System, step: Step)
    requires capacity >= 1 && Enabled(capacity, s, step)
  {
    var t := Apply(capacity, s, step);
    CoreOk(t) && Extends(s, t)
  }

  /** A step of the live channel's driver that sends no request. */
  predicate DriverStep(s: System, t: System, i: nat)
    requires s.live == Some(i) && i == |s.channels| - 1 == |t.channels| - 1
  {
    var d := t.channels[i];
    && t.channels[..i] == s.channels[..i] && ChannelGrows(s.channels[i], d)
    && t.live == (if d.phase.Gone? then None else s.live)
    && s.store.Some? && t.store.Some? && (IsFinished(s.store) ==> t.store == s.store)
    && (t.store.value.Running? && t.store.value.upstream.Some? ==> t.store.value.upstream.value in t.given)
    && t.requests == s.requests && s.given <= t.given && (t.requests == [] ==> t.given == {})
    && ChannelOk(t.store, t.given, d)
    && (d.phase == Opening(Dispatch) ==> t.requests == []) && (d.phase.Streaming? ==> t.requests != [])
  }

  lemma ClosedChannelsStayOk(s: System, t: System, i: nat, k: nat)
    requires CoreOk(s) && s.live == Some(i) && i == |t.channels| - 1 && DriverStep(s, t, i) && k < i
    ensures t.channels[k] == s.channels[k] && t.channels[k].phase.Gone? && ChannelOk(t.store, t.given, t.channels[k])
  {
    assert s.channels[..i][k] == t.channels[..i][k];
    assert ChannelOk(s.store, s.given, s.channels[k]);
  }

  /** All channels but the last are as they were, closed and in order. */
  predicate ClosedBefore(s: System, t: System, i: nat)
    requires i <= |s.channels| && i <= |t.channels|
  {
    forall k :: 0 <= k < i ==>
      t.channels[k] == s.channels[k] && t.channels[k].phase.Gone? && ChannelOk(t.store, t.given, t.channels[k])
  }

  lemma DriverRequests(s: System, t: System, i: nat)
    requires RequestsOk(s) && s.live == Some(i) && i == |s.channels| - 1 == |t.channels| - 1
    requires DriverStep(s, t, i) && ClosedBefore(s, t, i)
    ensures RequestsOk(t)
  {
  }

  lemma DriverStepKeeps(s: System, t: System, i: nat)
    requires CoreOk(s) && s.live == Some(i) && i == |t.channels| - 1 && DriverStep(s, t, i)
    ensures CoreOk(t) && Extends(s, t)
  {
    forall k | 0 <= k < i
      ensures t.channels[k] == s.channels[k] && t.channels[k].phase.Gone? && ChannelOk(t.store, t.given, t.channels[k])
    {
      ClosedChannelsStayOk(s, t, i, k);
    }
    DriverRequests(s, t, i);
    assert HubOk(t);
  }

  lemma StartTaskCore(capacity: nat, s: System, byReader: bool)
    requires capacity >= 1 && CoreOk(s) && Enabled(capacity, s, Step.StartTask(byReader))
    ensures KeepsCore(capacity, s, Step.StartTask(byReader))
  {
  }

  lemma ClaimTaskCore(capacity: nat, s: System)
    requires capacity >= 1 && CoreOk(s) && Enabled(capacity, s, Step.ClaimTask)
    ensures KeepsCore(capacity, s, Step.ClaimTask)
  {
  }

  lemma ResumeClaimedCore(capacity: nat, s: System)
    requires capacity >= 1 && CoreOk(s) && Enabled(capacity, s, Step.ResumeClaimed)
    ensures KeepsCore(capacity, s, Step.ResumeClaimed)
  {
    DriverStepKeeps(s, Apply(capacity, s, Step.ResumeClaimed), s.live.value);
  }

  lemma FailClaimedCore(capacity: nat, s: System, cls: string, message: string)
    requires capacity >= 1 && CoreOk(s) && Enabled(capacity, s, Step.FailClaimed(cls, message))
    ensures KeepsCore(capacity, s, Step.FailClaimed(cls, message))
  {
    DriverStepKeeps(s, Apply(capacity, s, Step.FailClaimed(cls, message)), s.live.value);
  }

  lemma OpenCore(capacity: nat, s: System)
    requires capacity >= 1 && CoreOk(s) && Enabled(capacity, s, Step.Open)
    ensures KeepsCore(capacity, s, Step.Open)
  {
  }

  lemma NotifyCore(capacity: nat, s: System, shown: bool)
    requires capacity >= 1 && CoreOk(s) && Enabled(capacity, s, Step.Notify(shown))
    ensures KeepsCore(capacity, s, Step.Notify(shown))
  {
    DriverStepKeeps(s, Apply(capacity, s, Step.Notify(shown)), s.live.value);
  }

  lemma GoAsyncCore(capacity: nat, s: System, id: string)
    requires capacity >= 1 && CoreOk(s) && Enabled(capacity, s, Step.GoAsync(id))
    ensures KeepsCore(capacity, s, Step.GoAsync(id))
  {
    DriverStepKeeps(s, Apply(capacity, s, Step.GoAsync(id)), s.live.value);
  }

  lemma RetryCore(capacity: nat, s: System)
    requires capacity >= 1 && CoreOk(s) && Enabled(capacity, s, Step.Retry)
    ensures KeepsCore(capacity, s, Step.Retry)
  {
    DriverStepKeeps(s, Apply(capacity, s, Step.Retry), s.live.value);
  }

  lemma RecordCore(capacity: nat, s: System, outcome: Outcome)
    requires capacity >= 1 && CoreOk(s) && Enabled(capacity, s, Step.Record(outcome))
    ensures KeepsCore(capacity, s, Step.Record(outcome))
  {
    DriverStepKeeps(s, Apply(capacity, s, Step.Record(outcome)), s.live.value);
  }

  lemma AnnounceCore(capacity: nat, s: System)
    requires capacity >= 1 && CoreOk(s) && Enabled(capacity, s, Step.Announce)
    ensures KeepsCore(capacity, s, Step.Announce)
  {
    DriverStepKeeps(s, Apply(capacity, s, Step.Announce), s.live.value);
  }

  lemma CloseHubCore(capacity: nat, s: System)
    requires capacity >= 1 && CoreOk(s) && Enabled(capacity, s, Step.CloseHub)
    ensures KeepsCore(capacity, s, Step.CloseHub)
  {
    DriverStepKeeps(s, Apply(capacity, s, Step.CloseHub), s.live.value);
  }

  lemma PanicCore(capacity: nat, s: System)
    requires capacity >= 1 && CoreOk(s) && Enabled(capacity, s, Step.Panic)
    ensures KeepsCore(capacity, s, Step.Panic)
  {
    DriverStepKeeps(s, Apply(capacity, s, Step.Panic), s.live.value);
  }

  lemma SubscribeCore(capacity: nat, s: System)
    requires capacity >= 1 && CoreOk(s) && Enabled(capacity, s, Step.Subscribe)
    ensures KeepsCore(capacity, s, Step.Subscribe)
  {
    var t := Apply(capacity, s, Step.Subscribe);
    if t.channels == s.channels {
      assert t == s.(reader := t.reader);
    } else {
      ClaimTaskCore(capacity, s);
      assert t == Apply(capacity, s, Step.ClaimTask).(reader := t.reader);
    }
  }

  lemma RestartCore(capacity: nat, s: System)
    requires capacity >= 1 && CoreOk(s) && Enabled(capacity, s, Step.Restart)
    ensures KeepsCore(capacity, s, Step.Restart)
  {
    if s.live.Some? {
      DriverStepKeeps(s, Apply(capacity, s, Step.Restart), s.live.value);
    }
  }

  predicate IsRunners(step: Step) {
    step.Open? || step.Notify? || step.GoAsync? || step.Retry? || step.Record? || step.Announce? || step.CloseHub?
    || step.Panic?
  }

  lemma RunnerStepCore(capacity: nat, s: System, step: Step)
    requires capacity >= 1 && CoreOk(s) && Enabled(capacity, s, step) && IsRunners(step)
    ensures KeepsCore(capacity, s, step)
  {
    match step
    case Open => OpenCore(capacity, s);
    case Notify(shown) => NotifyCore(capacity, s, shown);
    case GoAsync(id) => GoAsyncCore(capacity, s, id);
    case Retry => RetryCore(capacity, s);
    case Record(outcome) => RecordCore(capacity, s, outcome);
    case Announce => AnnounceCore(capacity, s);
    case CloseHub => CloseHubCore(capacity, s);
    case Panic => PanicCore(capacity, s);
  }

  lemma StepKeepsCore(capacity: nat, s: System, step: Step)
    requires capacity >= 1 && CoreOk(s) && Enabled(capacity, s, step)
    ensures KeepsCore(capacity, s, step)
  {
    if IsRunners(step) {
      RunnerStepCore(capacity, s, step);
    } else {
      match step
      case StartTask(byReader) => StartTaskCore(capacity, s, byReader);
      case ClaimTask => ClaimTaskCore(capacity, s);
      case ResumeClaimed => ResumeClaimedCore(capacity, s);
      case FailClaimed(cls, message) => FailClaimedCore(capacity, s, cls, message);
      case Subscribe => SubscribeCore(capacity, s);
      case Restart => RestartCore(capacity, s);
      case _ =>
    }
  }

  lemma ReaderStable(s: System, t: System)
    requires CoreOk(s) && ReaderOk(s) && Extends(s, t) && t.reader == s.reader && !s.reader.Deciding?
    ensures ReaderOk(t)
  {
  }

  lemma FinalShows(frames: seq<Frame>, o: Outcome)
    requires Continuing(frames)
    ensures Shows(frames + EndFrames(o), o)
  {
    var end := EndFrames(o);
    assert (frames + end)[..|frames|] == frames && (frames + end)[|frames|..] == end;
  }

  /** Frames of a working task show no outcome. */
  lemma ContinuingShowsNothing(frames: seq<Frame>, o: Outcome)
    requires Continuing(frames)
    ensures !Shows(frames, o)
  {
    var end := EndFrames(o);
    if |frames| > |end| {
      assert frames[|frames| - |end|..][0] == frames[|frames| - |end|];
    }
  }

  /** What reading channel `c` may leave a stream as. */
  predicate ReadsTo(store: Option<Record>, c: Channel, r: Reader, n: Reader)
    requires r.Following?
  {
    || (n.Following? && n.on == r.on && r.at < n.at <= |c.sent| && Continuing(n.frames)
        && (n.at == |c.sent| ==> EndOf(c.sent) == None))
    || (n.Ended? && n.source == Some(r.on)
        && if IsFinished(store) then Shows(n.frames, store.value.outcome)
           else Continuing(n.frames) && c.phase == Gone(true))
  }

  lemma ReadTerminal(store: Option<Record>, given: set<string>, c: Channel, r: Reader)
    requires r.Following? && r.at < |c.sent| && Continuing(r.frames) && ChannelOk(store, given, c) && c.sent[r.at].Terminal?
    ensures ReadsTo(store, c, r, Ended(Some(r.on), r.frames + FinalFrames(store, c.sent[r.at].outcome)))
  {
    var o := c.sent[r.at].outcome;
    assert r.at == |c.sent| - 1 && EndOf(c.sent) == Some(o);
    FinalShows(r.frames, o);
  }

  lemma ReadNote(store: Option<Record>, given: set<string>, c: Channel, r: Reader)
    requires r.Following? && r.at < |c.sent| && Continuing(r.frames) && ChannelOk(store, given, c) && c.sent[r.at].Note?
    ensures ReadsTo(store, c, r, Following(r.on, r.at + 1, if c.sent[r.at].shown then r.frames + [Working] else r.frames))
  {
    assert r.at == |c.sent| - 1 ==> EndOf(c.sent) == None;
    assert Continuing(r.frames + [Working]);
  }

  lemma ReadClosed(store: Option<Record>, given: set<string>, c: Channel, r: Reader)
    requires r.Following? && r.at == |c.sent| && Continuing(r.frames) && ChannelOk(store, given, c) && c.phase.Gone?
    ensures ReadsTo(store, c, r, Ended(Some(r.on), if IsFinished(store) then r.frames + FinalFrames(store, store.value.outcome)
                                                   else r.frames))
  {
    if IsFinished(store) {
      FinalShows(r.frames, store.value.outcome);
    }
  }

  lemma ReadFromOk(capacity: nat, store: Option<Record>, given: set<string>, c: Channel, r: Reader)
    requires capacity >= 1 && r.Following? && r.at <= |c.sent| && Continuing(r.frames)
    requires ChannelOk(store, given, c) && (r.at == |c.sent| ==> EndOf(c.sent) == None && c.phase.Gone?)
    ensures ReadsTo(store, c, r, ReadFrom(capacity, store, c, r))
  {
    match Receive(c.sent, !c.phase.Gone?, capacity, r.at)
    case Got(e, next) =>
      if e.Terminal? {
        ReadTerminal(store, given, c, r);
      } else {
        ReadNote(store, given, c, r);
      }
    case Lagged(next) =>
    case Closed => ReadClosed(store, given, c, r);
    case Pending =>
  }

  lemma ReadKeepsReader(capacity: nat, s: System)
    requires capacity >= 1 && Inv(s) && Enabled(capacity, s, Step.Read)
    ensures ReaderOk(s.(reader := ReadStep(capacity, s)))
    ensures
      var n := ReadStep(capacity, s);
      n.Ended? ==> if IsFinished(s.store) then Shows(n.frames, s.store.value.outcome) else Continuing(n.frames)
  {
    ReadFromOk(capacity, s.store, s.given, s.channels[s.reader.on], s.reader);
  }

  /** What a step leaves the reader as is in order, if it changed the reader. */
  predicate ReaderFollows(capacity: nat, s: System, step: Step)
    requires capacity >= 1 && Enabled(capacity, s, step)
  {
    Apply(capacity, s, step).reader != s.reader ==> ReaderOk(Apply(capacity, s, step))
  }

  lemma CallerStep(capacity: nat, s: System, step: Step)
    requires capacity >= 1 && Inv(s) && Enabled(capacity, s, step)
    requires step.StartTask? || step.ResumeClaimed? || step.FailClaimed? || step.Panic? || step.Restart?
    ensures ReaderFollows(capacity, s, step)
  {
  }

  lemma OwnStep(capacity: nat, s: System, step: Step)
    requires capacity >= 1 && Inv(s) && Enabled(capacity, s, step)
    requires step.Ask? || step.Snapshot? || step.CutStream?
    ensures ReaderFollows(capacity, s, step)
  {
  }

  lemma SubscribeReader(capacity: nat, s: System)
    requires capacity >= 1 && Inv(s) && Enabled(capacity, s, Step.Subscribe)
    ensures ReaderFollows(capacity, s, Step.Subscribe)
  {
  }

  lemma ReaderStep(capacity: nat, s: System, step: Step)
    requires capacity >= 1 && Inv(s) && Enabled(capacity, s, step)
    requires step.StartTask? || step.ResumeClaimed? || step.FailClaimed? || step.Panic? || step.Restart?
          || step.Ask? || step.Subscribe? || step.Snapshot? || step.CutStream?
    ensures ReaderFollows(capacity, s, step)
  {
    if step.Subscribe? {
      SubscribeReader(capacity, s);
    } else if step.Ask? || step.Snapshot? || step.CutStream? {
      OwnStep(capacity, s, step);
    } else {
      CallerStep(capacity, s, step);
    }
  }

  lemma StepKeepsInv(capacity: nat, s: System, step: Step)
    requires capacity >= 1 && Inv(s) && Enabled(capacity, s, step)
    ensures Inv(Apply(capacity, s, step))
  {
    var t := Apply(capacity, s, step);
    StepKeepsCore(capacity, s, step);
    if step.Read? {
      ReadKeepsReader(capacity, s);
    } else if t.reader == s.reader {
      assert !s.reader.Deciding?;
      ReaderStable(s, t);
    } else {
      ReaderStep(capacity, s, step);
    }
  }

  lemma {:induction false} RunKeepsInv(capacity: nat, s: System, steps: seq<Step>, u: System)
    requires capacity >= 1 && Inv(s) && Run(capacity, s, steps, u)
    ensures Inv(u)
    decreases |steps|
  {
    if steps != [] {
      StepKeepsInv(capacity, s, steps[0]);
      RunKeepsInv(capacity, Apply(capacity, s, steps[0]), steps[1..], u);
    }
  }

  // ----- Main results -----

  /** At most one driver at a time, across restarts, takeovers and panics. */
  lemma OneDriver(capacity: nat, steps: seq<Step>, u: System, i: nat, j: nat)
    requires capacity >= 1 && Run(capacity, Init(), steps, u)
    requires i < |u.channels| && !u.channels[i].phase.Gone?
    requires j < |u.channels| && !u.channels[j].phase.Gone?
    ensures i == j && u.live == Some(i)
  {
    RunKeepsInv(capacity, Init(), steps, u);
  }

  /**
   The turn is dispatched at most once, whatever breaks or restarts; every later request asks about
   a task id the upstream itself gave.
   */
  lemma OneDispatch(capacity: nat, steps: seq<Step>, u: System, i: nat)
    requires capacity >= 1 && Run(capacity, Init(), steps, u)
    requires i < |u.requests|
    ensures u.requests[i].Dispatch? <==> i == 0
    ensures u.requests[i].Resume? ==> u.requests[i].upstream in u.given
  {
    RunKeepsInv(capacity, Init(), steps, u);
  }

  lemma StepKeepsOutcome(capacity: nat, s: System, step: Step)
    requires capacity >= 1 && Inv(s) && Enabled(capacity, s, step) && IsFinished(s.store)
    ensures Apply(capacity, s, step).store == s.store
  {
  }

  /** A finished task stays finished, with the outcome it finished with. */
  lemma {:induction false} FinishedIsFinal(capacity: nat, s: System, steps: seq<Step>, u: System)
    requires capacity >= 1 && Inv(s) && Run(capacity, s, steps, u) && IsFinished(s.store)
    ensures u.store == s.store
    decreases |steps|
  {
    if steps != [] {
      StepKeepsInv(capacity, s, steps[0]);
      StepKeepsOutcome(capacity, s, steps[0]);
      FinishedIsFinal(capacity, Apply(capacity, s, steps[0]), steps[1..], u);
    }
  }

  /** A terminal event is in a channel only after the same outcome is in the store. */
  lemma StoredBeforeSent(capacity: nat, steps: seq<Step>, u: System, i: nat, k: nat)
    requires capacity >= 1 && Run(capacity, Init(), steps, u)
    requires i < |u.channels| && k < |u.channels[i].sent| && u.channels[i].sent[k].Terminal?
    ensures u.store == Some(Finished(u.channels[i].sent[k].outcome)) && k == |u.channels[i].sent| - 1
  {
    RunKeepsInv(capacity, Init(), steps, u);
    assert ChannelOk(u.store, u.given, u.channels[i]);
  }

  /**
   No lost completion: a stream that ended uncut showed the stored outcome, in its first frame or as
   its last one, unless its runner died before it had recorded any; a refused resubscription names a
   task that is finished.
   */
  lemma NoLostCompletion(capacity: nat, steps: seq<Step>, u: System)
    requires capacity >= 1 && Run(capacity, Init(), steps, u)
    ensures u.reader.Refused? ==> u.store == Some(u.reader.record) && u.reader.record.Finished?
    ensures u.reader.Ended? ==>
      || (IsFinished(u.store) && Shows(u.reader.frames, u.store.value.outcome))
      || (Continuing(u.reader.frames) && u.reader.source.Some? && u.reader.source.value < |u.channels|
          && u.channels[u.reader.source.value].phase == Gone(true))
  {
    RunKeepsInv(capacity, Init(), steps, u);
  }

  /** The read that ends a stream shows the outcome exactly when the store has one. */
  lemma LastReadShowsStore(capacity: nat, s: System)
    requires capacity >= 1 && Inv(s) && Enabled(capacity, s, Step.Read) && ReadStep(capacity, s).Ended?
    ensures IsFinished(s.store) <==> exists o :: Shows(ReadStep(capacity, s).frames, o)
    ensures IsFinished(s.store) || s.channels[s.reader.on].phase == Gone(true)
  {
    ReadKeepsReader(capacity, s);
    var frames := ReadStep(capacity, s).frames;
    if !IsFinished(s.store) {
      forall o ensures !Shows(frames, o) {
        ContinuingShowsNothing(frames, o);
      }
    }
  }

  /**
   The frames of a stream, in every run: the task as it runs, then frames of a working task while it
   goes on. A stream that ended adds nothing, or an outcome: the artifact and the completed status, or
   the failure.
   */
  lemma StreamFrames(capacity: nat, steps: seq<Step>, u: System)
    requires capacity >= 1 && Run(capacity, Init(), steps, u)
    ensures u.reader.Following? ==> Continuing(u.reader.frames)
    ensures u.reader.Ended? ==> Continuing(u.reader.frames) || exists o :: Shows(u.reader.frames, o)
  {
    RunKeepsInv(capacity, Init(), steps, u);
  }

  lemma RunCons(capacity: nat, s: System, step: Step, rest: seq<Step>, u: System)
    requires capacity >= 1 && Enabled(capacity, s, step) && Run(capacity, Apply(capacity, s, step), rest, u)
    ensures Run(capacity, s, [step] + rest, u)
  {
    assert ([step] + rest)[1..] == rest;
  }

  function JustFollowing(): System {
    System(Some(Running(None)), Some(0), [Channel([], Opening(Dispatch), None)], [], {},
           Following(0, 0, [First(Running(None))]))
  }

  /** After its runner has died. */
  function Orphaned(): System {
    JustFollowing().(live := None, channels := [Channel([], Gone(true), None)])
  }

  /** After a caller has claimed the task as well. */
  function Adopted(): System {
    Orphaned().(live := Some(1), channels := Orphaned().channels + [Channel([], Claimed, None)])
  }

  /** After that caller has failed it. */
  function GivenUp(): System {
    Adopted().(store := Some(Finished(Failure("upstream", "lost"))),
               channels := Orphaned().channels + [Channel([], Abandoned, None)])
  }

  lemma StartFollows(capacity: nat, rest: seq<Step>, u: System)
    requires capacity >= 1 && Run(capacity, JustFollowing(), rest, u)
    ensures Run(capacity, Init(), [StartTask(true)] + ([Snapshot] + rest), u)
  {
    var s := Apply(capacity, Init(), StartTask(true));
    assert s.channels == [Channel([], Opening(Dispatch), None)];
    assert Apply(capacity, s, Snapshot) == JustFollowing();
    RunCons(capacity, s, Snapshot, rest, u);
    RunCons(capacity, Init(), StartTask(true), [Snapshot] + rest, u);
  }

  /** A turn whose owner follows it from the start, and whose runner dies at once. */
  lemma StartedStream(capacity: nat, rest: seq<Step>, u: System) returns (steps: seq<Step>)
    requires capacity >= 1 && Run(capacity, Orphaned(), rest, u)
    ensures Run(capacity, Init(), steps, u) && Panic in steps
  {
    assert Apply(capacity, JustFollowing(), Panic).channels == Orphaned().channels;
    RunCons(capacity, JustFollowing(), Panic, rest, u);
    StartFollows(capacity, [Panic] + rest, u);
    steps := [StartTask(true)] + ([Snapshot] + ([Panic] + rest));
    assert steps[2] == Panic;
  }

  /** If nobody stores an outcome before the next read, the stream ends without one. */
  lemma PanicEndsStreamSilently(capacity: nat) returns (steps: seq<Step>, u: System)
    requires capacity >= 1
    ensures Run(capacity, Init(), steps, u) && Panic in steps
    ensures u.reader == Ended(Some(0), [First(Running(None))]) && IsRunning(u.store)
  {
    u := Apply(capacity, Orphaned(), Step.Read);
    RunCons(capacity, Orphaned(), Step.Read, [], u);
    steps := StartedStream(capacity, [Step.Read] + [], u);
  }

  lemma ReadGivenUp(capacity: nat) returns (u: System)
    requires capacity >= 1
    ensures Run(capacity, GivenUp(), [Step.Read] + [], u)
    ensures u.reader == Ended(Some(0), [First(Running(None)), Failed("upstream", "lost")])
  {
    u := Apply(capacity, GivenUp(), Step.Read);
    assert u.reader.frames == [First(Running(None))] + [Failed("upstream", "lost")];
    RunCons(capacity, GivenUp(), Step.Read, [], u);
  }

  lemma ClaimThenFail(capacity: nat, rest: seq<Step>, u: System)
    requires capacity >= 1 && Run(capacity, GivenUp(), rest, u)
    ensures Run(capacity, Orphaned(), [ClaimTask] + ([FailClaimed("upstream", "lost")] + rest), u)
  {
    var fail := FailClaimed("upstream", "lost");
    assert Apply(capacity, Adopted(), fail).channels == GivenUp().channels;
    RunCons(capacity, Adopted(), fail, rest, u);
    RunCons(capacity, Orphaned(), ClaimTask, [fail] + rest, u);
  }

  /** If a caller claims the task and fails it before the read, the stream of the dead runner shows that outcome. */
  lemma ClaimantEndsStream(capacity: nat) returns (steps: seq<Step>, u: System)
    requires capacity >= 1
    ensures Run(capacity, Init(), steps, u) && Panic in steps
    ensures u.reader == Ended(Some(0), [First(Running(None)), Failed("upstream", "lost")])
  {
    u := ReadGivenUp(capacity);
    ClaimThenFail(capacity, [Step.Read] + [], u);
    steps := StartedStream(capacity, [ClaimTask] + ([FailClaimed("upstream", "lost")] + ([Step.Read] + [])), u);
  }

  /** Progress: once its channel is closed, a stream ends by itself, after the events still unread. */
  lemma {:induction false} ClosedChannelEndsStream(capacity: nat, s: System) returns (path: seq<Step>, u: System)
    requires capacity >= 1 && Inv(s) && s.reader.Following? && s.channels[s.reader.on].phase.Gone?
    ensures Run(capacity, s, path, u) && u.reader.Ended?
    ensures |path| <= |s.channels[s.reader.on].sent| - s.reader.at + 1
    decreases |s.channels[s.reader.on].sent| - s.reader.at
  {
    var next := Apply(capacity, s, Step.Read);
    StepKeepsInv(capacity, s, Step.Read);
    if next.reader.Ended? {
      path, u := [], next;
    } else {
      path, u := ClosedChannelEndsStream(capacity, next);
    }
    RunCons(capacity, s, Step.Read, path, u);
    path := [Step.Read] + path;
  }
}
