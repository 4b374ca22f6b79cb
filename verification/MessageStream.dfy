/**
 `message/stream`: a turn's events, published into a bounded broadcast ring, read by a stream that
 may fall behind, turned into frames, and folded into text by the client. A run is any interleaving
 of the producer's and the reader's steps.
 */
module MessageStream {
  import opened Text
  import opened Broadcast

  // ----- What travels -----

  /** The parts of an upstream result the frames carry. */
  datatype Answer = Answer(reply: string, sources: Option<string>, ui: Option<string>)

  datatype TaskEvent =
    | Token(text: string)
    | Progress(text: string)
    | Async
    | Done(answer: Answer)
    | Failed(notice: string)

  predicate IsTerminal(e: TaskEvent) {
    e.Done? || e.Failed?
  }

  datatype Frame =
    | Task
    | Prose(text: string, append: bool, lastChunk: bool)
    | Ui(messages: string)
    | Working(text: string)
    | Final(completed: bool, text: string)

  // ----- The turn -----

  datatype Reader = Reader(at: nat, lagged: bool, streamed: bool, frames: seq<Frame>, ended: bool,
                           seen: seq<TaskEvent>)

  datatype Turn = Turn(sent: seq<TaskEvent>, open: bool, reader: Reader)

  /** `Publish` and `Close` are the runner's; `Read` and `Deadline` are the stream's. */
  datatype Step = Publish(event: TaskEvent) | Close | Read | Deadline

  /** The subscription is taken before the runner starts, and the first frame is the task itself. */
  function Start(): Turn {
    Turn([], true, Reader(0, false, false, [Task], false, []))
  }

  ghost predicate TerminalSent(t: Turn) {
    exists i :: 0 <= i < |t.sent| && IsTerminal(t.sent[i])
  }

  ghost predicate Enabled(capacity: nat, t: Turn, step: Step)
    requires capacity >= 1
  {
    match step
    case Publish(_) => t.open && !TerminalSent(t)
    case Close => t.open
    case Deadline => !t.reader.ended
    case Read => !t.reader.ended && t.reader.at <= |t.sent|
                 && !Receive(t.sent, t.open, capacity, t.reader.at).Pending?
  }

  function SourcesLine(answer: Answer): string {
    if answer.sources.Some? then "\n\n" + answer.sources.value else ""
  }

  function PushSources(frames: seq<Frame>, answer: Answer): seq<Frame> {
    if answer.sources.Some? then frames + [Prose(SourcesLine(answer), true, false)] else frames
  }

  function PushUi(frames: seq<Frame>, ui: Option<string>): seq<Frame> {
    if ui.Some? then frames + [Ui(ui.value)] else frames
  }

  /** The frames that end an answered turn, pushed after `frames`. */
  function PushDone(frames: seq<Frame>, answer: Answer, didStream: bool): seq<Frame> {
    var closed := if didStream
      then PushSources(frames, answer) + [Prose("", true, true)]
      else frames + [Prose(answer.reply, false, true)];
    PushUi(closed, answer.ui) + [Final(true, "")]
  }

  function PushEvent(frames: seq<Frame>, e: TaskEvent, streamed: bool, lagged: bool): seq<Frame> {
    match e
    case Token(text) => frames + [Prose(text, true, false)]
    case Progress(text) => frames + [Working(text)]
    case Async => frames
    case Done(answer) => PushDone(frames, answer, streamed && !lagged)
    case Failed(notice) => frames + [Final(false, notice)]
  }

  function ReadEvent(r: Reader, e: TaskEvent, next: nat): Reader {
    Reader(next, r.lagged, r.streamed || e.Token?, PushEvent(r.frames, e, r.streamed, r.lagged),
           IsTerminal(e), r.seen + [e])
  }

  function Lag(r: Reader, next: nat): Reader {
    r.(at := next, lagged := true)
  }

  function End(r: Reader): Reader {
    r.(ended := true)
  }

  function Apply(capacity: nat, t: Turn, step: Step): Turn
    requires capacity >= 1 && t.reader.at <= |t.sent|
  {
    match step
    case Publish(e) => t.(sent := t.sent + [e])
    case Close => t.(open := false)
    case Deadline => t.(reader := End(t.reader))
    case Read =>
      match Receive(t.sent, t.open, capacity, t.reader.at)
      case Got(e, next) => t.(reader := ReadEvent(t.reader, e, next))
      case Lagged(next) => t.(reader := Lag(t.reader, next))
      case Closed => t.(reader := End(t.reader))
      case Pending => t
  }

  /** `steps` leads from `t` to `u`. */
  ghost predicate Run(capacity: nat, t: Turn, steps: seq<Step>, u: Turn)
    requires capacity >= 1
    decreases |steps|
  {
    if steps == [] then t == u
    else
      && t.reader.at <= |t.sent|
      && Enabled(capacity, t, steps[0])
      && Run(capacity, Apply(capacity, t, steps[0]), steps[1..], u)
  }

  // ----- The client -----

  /** The prose artifact a client holds: appended chunks, or a chunk that replaces them. */
  function ClientText(frames: seq<Frame>): string {
    if frames == [] then ""
    else WithFrame(ClientText(frames[..|frames| - 1]), frames[|frames| - 1])
  }

  function WithFrame(text: string, f: Frame): string {
    if !f.Prose? then text
    else if f.append then text + f.text
    else f.text
  }

  function Tokens(events: seq<TaskEvent>): string {
    if events == [] then ""
    else Tokens(events[..|events| - 1]) + TokenText(events[|events| - 1])
  }

  function TokenText(e: TaskEvent): string {
    if e.Token? then e.text else ""
  }

  predicate HasToken(events: seq<TaskEvent>) {
    events != [] && (events[|events| - 1].Token? || HasToken(events[..|events| - 1]))
  }

  /** What a whole turn is meant to leave with the client. */
  function Delivered(sent: seq<TaskEvent>, dropped: bool, answer: Answer): string {
    if HasToken(sent) && !dropped
    then Tokens(sent) + SourcesLine(answer)
    else answer.reply
  }

  // ----- Invariant -----

  /** Only the last event of a turn is terminal. */
  predicate TerminalLast(events: seq<TaskEvent>) {
    forall i :: 0 <= i < |events| - 1 ==> !IsTerminal(events[i])
  }

  /** One task frame, then only frames that do not end the stream. */
  predicate Continuing(frames: seq<Frame>) {
    |frames| >= 1 && frames[0] == Task
    && forall i :: 1 <= i < |frames| ==> frames[i] != Task && !frames[i].Final?
  }

  /** One task frame, then frames that do not end the stream, then one that does. */
  predicate Ending(frames: seq<Frame>) {
    |frames| >= 2 && Continuing(frames[..|frames| - 1]) && frames[|frames| - 1].Final?
  }

  /** The reader has delivered the turn's terminal event. */
  predicate Complete(r: Reader) {
    r.seen != [] && IsTerminal(r.seen[|r.seen| - 1])
  }

  /** What was read, against what was sent. */
  ghost predicate ReadInOrder(t: Turn) {
    var r := t.reader;
    && r.at <= |t.sent|
    && TerminalLast(t.sent)
    && (if r.lagged then |r.seen| < r.at else r.seen == t.sent[..r.at])
    && (r.at == |t.sent| > 0 ==> r.seen != [] && r.seen[|r.seen| - 1] == t.sent[r.at - 1])
    && TerminalLast(r.seen)
    && (Complete(r) ==> r.ended && r.at == |t.sent| && t.sent != [])
  }

  /** What was read, against what the client was sent. */
  ghost predicate FramesMatch(r: Reader) {
    && (r.streamed <==> HasToken(r.seen))
    && (if !Complete(r) then Continuing(r.frames) && ClientText(r.frames) == Tokens(r.seen)
        else
          && Ending(r.frames)
          && (r.seen[|r.seen| - 1].Done? ==>
                ClientText(r.frames) == Delivered(r.seen, r.lagged, r.seen[|r.seen| - 1].answer)))
  }

  ghost predicate Inv(t: Turn) {
    ReadInOrder(t) && FramesMatch(t.reader)
  }

  // ----- Each step keeps the invariant -----

  lemma TextOfAppended(frames: seq<Frame>, f: Frame)
    ensures ClientText(frames + [f]) == WithFrame(ClientText(frames), f)
    ensures Continuing(frames) && f != Task && !f.Final? ==> Continuing(frames + [f])
  {
    assert (frames + [f])[..|frames|] == frames;
  }

  lemma TokensOfAppended(events: seq<TaskEvent>, e: TaskEvent)
    ensures Tokens(events + [e]) == Tokens(events) + TokenText(e)
    ensures HasToken(events + [e]) <==> HasToken(events) || e.Token?
  {
    var all := events + [e];
    assert all[..|events|] == events;
    assert all[|events|] == e;
  }

  lemma TextOfSources(frames: seq<Frame>, answer: Answer)
    requires Continuing(frames)
    ensures Continuing(PushSources(frames, answer))
    ensures ClientText(PushSources(frames, answer)) == ClientText(frames) + SourcesLine(answer)
  {
    TextOfAppended(frames, Prose(SourcesLine(answer), true, false));
    assert ClientText(frames) + "" == ClientText(frames);
  }

  lemma TextOfEnding(closed: seq<Frame>, ui: Option<string>)
    requires Continuing(closed)
    ensures Ending(PushUi(closed, ui) + [Final(true, "")])
    ensures ClientText(PushUi(closed, ui) + [Final(true, "")]) == ClientText(closed)
  {
    if ui.Some? { TextOfAppended(closed, Ui(ui.value)); }
    TextOfAppended(PushUi(closed, ui), Final(true, ""));
    EndingOf(PushUi(closed, ui), Final(true, ""));
  }

  lemma EndingOf(frames: seq<Frame>, f: Frame)
    requires Continuing(frames) && f.Final?
    ensures Ending(frames + [f])
  {
    assert (frames + [f])[..|frames|] == frames;
  }

  /** The final frames leave the client with the streamed text closed, or with the whole reply. */
  lemma TextOfDone(frames: seq<Frame>, answer: Answer, didStream: bool)
    requires Continuing(frames)
    ensures Ending(PushDone(frames, answer, didStream))
    ensures ClientText(PushDone(frames, answer, didStream))
         == if didStream then ClientText(frames) + SourcesLine(answer) else answer.reply
  {
    if didStream {
      TextOfSources(frames, answer);
      var body := PushSources(frames, answer);
      TextOfAppended(body, Prose("", true, true));
      assert ClientText(body) + "" == ClientText(body);
      TextOfEnding(body + [Prose("", true, true)], answer.ui);
    } else {
      TextOfAppended(frames, Prose(answer.reply, false, true));
      TextOfEnding(frames + [Prose(answer.reply, false, true)], answer.ui);
    }
  }

  lemma FramesFollowDone(r: Reader, answer: Answer, next: nat)
    requires FramesMatch(r) && !Complete(r)
    ensures FramesMatch(ReadEvent(r, Done(answer), next))
  {
    TokensOfAppended(r.seen, Done(answer));
    assert Tokens(r.seen + [Done(answer)]) == Tokens(r.seen);
    TextOfDone(r.frames, answer, r.streamed && !r.lagged);
  }

  lemma FramesFollowFailed(r: Reader, notice: string, next: nat)
    requires FramesMatch(r) && !Complete(r)
    ensures FramesMatch(ReadEvent(r, Failed(notice), next))
  {
    TokensOfAppended(r.seen, Failed(notice));
    EndingOf(r.frames, Final(false, notice));
  }

  lemma FramesFollow(r: Reader, e: TaskEvent, next: nat)
    requires FramesMatch(r) && !Complete(r) && !IsTerminal(e)
    ensures FramesMatch(ReadEvent(r, e, next))
  {
    var r' := ReadEvent(r, e, next);
    assert !Complete(r') by { assert r'.seen[|r'.seen| - 1] == e; }
    assert r'.streamed <==> HasToken(r'.seen) by { TokensOfAppended(r.seen, e); }
    assert Continuing(r'.frames) && ClientText(r'.frames) == Tokens(r'.seen) by {
      TokensOfAppended(r.seen, e);
      TextOfNonTerminal(r.frames, e, r.streamed, r.lagged);
    }
  }

  lemma TextOfNonTerminal(frames: seq<Frame>, e: TaskEvent, streamed: bool, lagged: bool)
    requires Continuing(frames) && !IsTerminal(e)
    ensures Continuing(PushEvent(frames, e, streamed, lagged))
    ensures ClientText(PushEvent(frames, e, streamed, lagged)) == ClientText(frames) + TokenText(e)
  {
    assert ClientText(frames) + "" == ClientText(frames);
    if e.Token? { TextOfAppended(frames, Prose(e.text, true, false)); }
    if e.Progress? { TextOfAppended(frames, Working(e.text)); }
  }

  lemma ReadKeepsOrder(t: Turn)
    requires ReadInOrder(t) && !t.reader.ended && t.reader.at < |t.sent|
    ensures ReadInOrder(t.(reader := ReadEvent(t.reader, t.sent[t.reader.at], t.reader.at + 1)))
  {
  }

  lemma FramesFollowAny(r: Reader, e: TaskEvent, next: nat)
    requires FramesMatch(r) && !Complete(r)
    ensures FramesMatch(ReadEvent(r, e, next))
  {
    match e
    case Done(answer) => FramesFollowDone(r, answer, next);
    case Failed(notice) => FramesFollowFailed(r, notice, next);
    case _ => FramesFollow(r, e, next);
  }

  lemma PublishKeepsOrder(t: Turn, e: TaskEvent)
    requires ReadInOrder(t) && !TerminalSent(t)
    ensures ReadInOrder(t.(sent := t.sent + [e]))
  {
    assert !Complete(t.reader);
  }

  lemma LagKeepsOrder(t: Turn, next: nat)
    requires ReadInOrder(t) && !t.reader.ended && t.reader.at < next < |t.sent|
    ensures ReadInOrder(t.(reader := Lag(t.reader, next)))
  {
  }

  /** A property of readers that every way of reading keeps. */
  ghost predicate KeptByReading(holds: Reader -> bool) {
    && (forall r, e, next :: holds(r) && !Complete(r) ==> holds(ReadEvent(r, e, next)))
    && (forall r, next :: holds(r) && !Complete(r) ==> holds(Lag(r, next)))
    && (forall r :: holds(r) ==> holds(End(r)))
  }

  lemma FramesMatchKept()
    ensures KeptByReading(r => FramesMatch(r))
  {
    forall r, e, next | FramesMatch(r) && !Complete(r) ensures FramesMatch(ReadEvent(r, e, next)) {
      FramesFollowAny(r, e, next);
    }
  }

  lemma StepKeeps(holds: Reader -> bool, capacity: nat, t: Turn, step: Step)
    requires capacity >= 1 && KeptByReading(holds) && Enabled(capacity, t, step)
    requires ReadInOrder(t) && holds(t.reader)
    ensures ReadInOrder(Apply(capacity, t, step)) && holds(Apply(capacity, t, step).reader)
  {
    match step
    case Publish(e) => PublishKeepsOrder(t, e);
    case Read =>
      match Receive(t.sent, t.open, capacity, t.reader.at) {
        case Got(_, _) => ReadKeepsOrder(t);
        case Lagged(next) => LagKeepsOrder(t, next);
        case _ =>
      }
    case _ =>
  }

  lemma StepKeepsInv(capacity: nat, t: Turn, step: Step)
    requires capacity >= 1 && Inv(t) && Enabled(capacity, t, step)
    ensures Inv(Apply(capacity, t, step))
  {
    FramesMatchKept();
    StepKeeps(r => FramesMatch(r), capacity, t, step);
  }

  lemma {:induction false} RunKeepsInv(capacity: nat, t: Turn, steps: seq<Step>, u: Turn)
    requires capacity >= 1 && Inv(t) && Run(capacity, t, steps, u)
    ensures Inv(u)
    decreases |steps|
  {
    if steps != [] {
      StepKeepsInv(capacity, t, steps[0]);
      RunKeepsInv(capacity, Apply(capacity, t, steps[0]), steps[1..], u);
    }
  }

  // ----- Which streams reach the terminal event -----

  /** A stream the deadline did not cut ends by reading the terminal event, or because none will come. */
  ghost predicate EndsForAReason(t: Turn) {
    t.reader.ended ==> Complete(t.reader) || (!t.open && !TerminalSent(t))
  }

  lemma ReadEndsForAReason(capacity: nat, t: Turn)
    requires capacity >= 1 && ReadInOrder(t) && EndsForAReason(t) && Enabled(capacity, t, Read)
    ensures EndsForAReason(Apply(capacity, t, Read))
  {
    var r := t.reader;
    match Receive(t.sent, t.open, capacity, r.at)
    case Got(e, next) =>
      var n := ReadEvent(r, e, next);
      assert n.seen[|n.seen| - 1] == e;
    case Closed => assert r.at == |t.sent| && !Complete(r);
    case _ =>
  }

  lemma StepEndsForAReason(capacity: nat, t: Turn, step: Step)
    requires capacity >= 1 && ReadInOrder(t) && EndsForAReason(t) && Enabled(capacity, t, step) && step != Deadline
    ensures EndsForAReason(Apply(capacity, t, step))
  {
    match step
    case Read => ReadEndsForAReason(capacity, t);
    case _ =>
  }

  lemma {:induction false} UncutEndsForAReason(capacity: nat, t: Turn, steps: seq<Step>, u: Turn)
    requires capacity >= 1 && Inv(t) && EndsForAReason(t) && Run(capacity, t, steps, u) && Deadline !in steps
    ensures EndsForAReason(u)
    decreases |steps|
  {
    if steps != [] {
      StepEndsForAReason(capacity, t, steps[0]);
      StepKeepsInv(capacity, t, steps[0]);
      UncutEndsForAReason(capacity, Apply(capacity, t, steps[0]), steps[1..], u);
    }
  }

  /** Nothing is read after the end, and the deadline cannot cut what has ended. */
  lemma {:induction false} EndedStays(capacity: nat, t: Turn, steps: seq<Step>, u: Turn)
    requires capacity >= 1 && t.reader.ended && Run(capacity, t, steps, u)
    ensures u.reader == t.reader && Deadline !in steps
    decreases |steps|
  {
    if steps != [] {
      EndedStays(capacity, Apply(capacity, t, steps[0]), steps[1..], u);
      assert steps == [steps[0]] + steps[1..];
    }
  }

  lemma {:induction false} CutStaysIncomplete(capacity: nat, t: Turn, steps: seq<Step>, u: Turn)
    requires capacity >= 1 && Inv(t) && Run(capacity, t, steps, u) && Deadline in steps
    ensures !Complete(u.reader)
    decreases |steps|
  {
    var next := Apply(capacity, t, steps[0]);
    if steps[0] == Deadline {
      EndedStays(capacity, next, steps[1..], u);
    } else {
      assert steps == [steps[0]] + steps[1..];
      StepKeepsInv(capacity, t, steps[0]);
      CutStaysIncomplete(capacity, next, steps[1..], u);
    }
  }

  lemma LastIsRead(t: Turn)
    requires ReadInOrder(t) && Complete(t.reader)
    ensures t.sent != [] && t.reader.seen[|t.reader.seen| - 1] == t.sent[|t.sent| - 1] && TerminalSent(t)
  {
  }

  // ----- Main results -----

  /** A stream that ended has delivered a terminal event exactly if one was sent and the deadline did not cut it. */
  lemma WhatIsDelivered(capacity: nat, steps: seq<Step>, u: Turn)
    requires capacity >= 1 && Run(capacity, Start(), steps, u) && u.reader.ended
    ensures Complete(u.reader) <==> TerminalSent(u) && Deadline !in steps
    ensures Complete(u.reader) ==> u.sent != [] && u.reader.seen[|u.reader.seen| - 1] == u.sent[|u.sent| - 1]
  {
    RunKeepsInv(capacity, Start(), steps, u);
    if Deadline in steps {
      CutStaysIncomplete(capacity, Start(), steps, u);
    } else {
      UncutEndsForAReason(capacity, Start(), steps, u);
    }
    if Complete(u.reader) {
      LastIsRead(u);
    }
  }

  /** What ended uncut after the answer was sent has read the answer last. */
  lemma AnswerIsRead(capacity: nat, steps: seq<Step>, u: Turn, answer: Answer)
    requires capacity >= 1 && Run(capacity, Start(), steps, u)
    requires Deadline !in steps && u.reader.ended && Done(answer) in u.sent
    ensures Complete(u.reader) && u.reader.seen[|u.reader.seen| - 1] == Done(answer)
  {
    WhatIsDelivered(capacity, steps, u);
    RunKeepsInv(capacity, Start(), steps, u);
    var i :| 0 <= i < |u.sent| && u.sent[i] == Done(answer);
    assert IsTerminal(u.sent[i]);
  }

  /**
   Whatever the ring's capacity and the interleaving, once the answer is sent a stream that ends uncut
   leaves its client with every token in order and the sources line, if there was a token and no event
   was dropped, and with the whole reply otherwise.
   */
  lemma ClientGetsAnswer(capacity: nat, steps: seq<Step>, u: Turn, answer: Answer)
    requires capacity >= 1 && Run(capacity, Start(), steps, u)
    requires Deadline !in steps && u.reader.ended && Done(answer) in u.sent
    ensures ClientText(u.reader.frames) == Delivered(u.sent, u.reader.seen != u.sent, answer)
  {
    AnswerIsRead(capacity, steps, u, answer);
    RunKeepsInv(capacity, Start(), steps, u);
  }

  /** Every stream is one task frame, then frames that do not end it, then at most one that does. */
  lemma StreamGrammar(capacity: nat, steps: seq<Step>, u: Turn)
    requires capacity >= 1 && Run(capacity, Start(), steps, u)
    ensures
      var frames := u.reader.frames;
      if Complete(u.reader)
      then Ending(frames) else Continuing(frames)
  {
    RunKeepsInv(capacity, Start(), steps, u);
  }

  // ----- The order of the artifacts -----

  /** The prose artifact is still open and no A2UI artifact has been sent. */
  predicate StillOpen(frames: seq<Frame>) {
    forall i :: 0 <= i < |frames| ==> !frames[i].Ui? && !(frames[i].Prose? && frames[i].lastChunk)
  }

  function UiFrames(answer: Answer): seq<Frame> {
    if answer.ui.Some? then [Ui(answer.ui.value)] else []
  }

  /** Frame `k` closes the prose artifact; only the A2UI artifact and the completed status follow it. */
  predicate ClosesAt(frames: seq<Frame>, answer: Answer, k: nat) {
    && k < |frames| && frames[k].Prose? && frames[k].lastChunk
    && StillOpen(frames[..k])
    && frames[k + 1..] == UiFrames(answer) + [Final(true, "")]
  }

  ghost predicate InOrder(r: Reader) {
    if !Complete(r) then StillOpen(r.frames)
    else
      match r.seen[|r.seen| - 1]
      case Done(answer) => exists k :: ClosesAt(r.frames, answer, k)
      case _ => r.frames != [] && StillOpen(r.frames[..|r.frames| - 1])
  }

  lemma DoneCloses(frames: seq<Frame>, answer: Answer, didStream: bool) returns (k: nat)
    requires StillOpen(frames)
    ensures ClosesAt(PushDone(frames, answer, didStream), answer, k)
  {
    var all := PushDone(frames, answer, didStream);
    var body := if didStream then PushSources(frames, answer) else frames;
    k := |body|;
    assert all[..k] == body;
    assert all[k + 1..] == UiFrames(answer) + [Final(true, "")];
  }

  lemma OrderFollows(r: Reader, e: TaskEvent, next: nat)
    requires InOrder(r) && !Complete(r)
    ensures InOrder(ReadEvent(r, e, next))
  {
    var n := ReadEvent(r, e, next);
    assert n.seen[|n.seen| - 1] == e;
    match e
    case Done(answer) => var k := DoneCloses(r.frames, answer, r.streamed && !r.lagged);
    case Failed(notice) => assert n.frames[..|n.frames| - 1] == r.frames;
    case _ =>
  }

  lemma InOrderKept()
    ensures KeptByReading(r => InOrder(r))
  {
    forall r, e, next | InOrder(r) && !Complete(r) ensures InOrder(ReadEvent(r, e, next)) {
      OrderFollows(r, e, next);
    }
  }

  lemma {:induction false} RunKeeps(holds: Reader -> bool, capacity: nat, t: Turn, steps: seq<Step>, u: Turn)
    requires capacity >= 1 && KeptByReading(holds) && Run(capacity, t, steps, u)
    requires ReadInOrder(t) && holds(t.reader)
    ensures holds(u.reader)
    decreases |steps|
  {
    if steps != [] {
      StepKeeps(holds, capacity, t, steps[0]);
      RunKeeps(holds, capacity, Apply(capacity, t, steps[0]), steps[1..], u);
    }
  }

  /**
   Once the answer is sent, exactly one frame of a stream that ends uncut closes the prose artifact:
   none before it does, no A2UI artifact comes before it, and after it come the A2UI artifact, if there
   is one, and the completed status.
   */
  lemma DoneOrder(capacity: nat, steps: seq<Step>, u: Turn, answer: Answer)
    requires capacity >= 1 && Run(capacity, Start(), steps, u)
    requires Deadline !in steps && u.reader.ended && Done(answer) in u.sent
    ensures exists k :: ClosesAt(u.reader.frames, answer, k)
  {
    AnswerIsRead(capacity, steps, u, answer);
    InOrderKept();
    RunKeeps(r => InOrder(r), capacity, Start(), steps, u);
  }

  /** A stream that has not reached an answer has closed nothing and sent no A2UI artifact. */
  lemma OpenUntilDone(capacity: nat, steps: seq<Step>, u: Turn)
    requires capacity >= 1 && Run(capacity, Start(), steps, u)
    requires !Complete(u.reader) || u.reader.seen[|u.reader.seen| - 1].Failed?
    ensures StillOpen(u.reader.frames)
  {
    InOrderKept();
    RunKeeps(r => InOrder(r), capacity, Start(), steps, u);
    RunKeepsInv(capacity, Start(), steps, u);
    if Complete(u.reader) {
      assert Ending(u.reader.frames);
    }
  }

  lemma NextRead(capacity: nat, t: Turn, next: Turn)
    requires capacity >= 1 && Inv(t) && !t.reader.ended && TerminalSent(t)
    requires next == Apply(capacity, t, Read)
    ensures Enabled(capacity, t, Read)
    ensures next.sent == t.sent && t.reader.at < next.reader.at <= |t.sent|
    ensures next.reader.ended <==> Complete(next.reader)
  {
    assert t.reader.at < |t.sent|;
  }

  /**
   Progress: while the terminal event is unread, an uncut stream can always read, and each read
   brings it nearer; so at most `|sent| - at` reads deliver the terminal event.
   */
  lemma {:induction false} ReadsReachTheEnd(capacity: nat, t: Turn) returns (path: seq<Step>, u: Turn)
    requires capacity >= 1 && Inv(t) && !t.reader.ended && TerminalSent(t)
    ensures Run(capacity, t, path, u) && Complete(u.reader) && |path| <= |t.sent| - t.reader.at
    ensures u.sent == t.sent
    decreases |t.sent| - t.reader.at
  {
    var next := Apply(capacity, t, Read);
    StepEnabled(capacity, t, next);
    if Complete(next.reader) {
      path, u := [], next;
    } else {
      path, u := ReadsReachTheEnd(capacity, next);
    }
    RunCons(capacity, t, Read, path, u);
    path := [Read] + path;
  }

  lemma StepEnabled(capacity: nat, t: Turn, next: Turn)
    requires capacity >= 1 && Inv(t) && !t.reader.ended && TerminalSent(t)
    requires next == Apply(capacity, t, Read)
    ensures Enabled(capacity, t, Read) && Inv(next) && next.sent == t.sent && TerminalSent(next)
    ensures t.reader.at < next.reader.at <= |t.sent|
    ensures next.reader.ended <==> Complete(next.reader)
  {
    NextRead(capacity, t, next);
    StepKeepsInv(capacity, t, Read);
  }

  lemma RunCons(capacity: nat, t: Turn, step: Step, rest: seq<Step>, u: Turn)
    requires capacity >= 1 && t.reader.at <= |t.sent| && Enabled(capacity, t, step)
    requires Run(capacity, Apply(capacity, t, step), rest, u)
    ensures Run(capacity, t, [step] + rest, u)
  {
    assert ([step] + rest)[1..] == rest;
  }
}
