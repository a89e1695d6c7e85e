/** The stdin worker and its two bounded channels, as a state machine that interleaves freely with
    the session. */
module WriterLink {
  import opened Basics
  import opened Messages

  datatype Command = FrameCommand(frame: Frame) | CloseCommand

  datatype Event = Written(bytes: nat) | WriterClosed | WriterFailed

  /** Where `writer_worker` stands. A frame stays in hand from the moment it is received until its
      acknowledgement is sent; a failed frame stays in hand for good. */
  datatype Worker =
    | Idle
    | Writing(frame: Frame)
    | Acknowledging(bytes: nat)
    | Closing
    | Failing(failedFrame: Frame)
    | Gone(failed: Option<Frame>, commandsOpen: bool, eventsOpen: bool)

  /** `written` and `stdin` record what the worker has put on the child's standard input. */
  datatype Link = Link(
    capacity: nat,
    commands: seq<Command>,
    senderOpen: bool,
    worker: Worker,
    events: seq<Event>,
    written: seq<Frame>,
    stdin: Bytes)

  function NewLink(capacity: nat): Link {
    Link(capacity, [], true, Idle, [], [], [])
  }

  /** One scheduling step of the worker: it goes on, its write fails part way, or a finished worker
      drops one of its channel ends. */
  datatype Tick = Proceed | WriteFails(accepted: nat) | DropReceiver | DropSender

  /** A `send` on a full event channel waits: the step changes nothing. */
  function Send(l: Link, e: Event, next: Worker): Link {
    if |l.events| >= l.capacity then l else l.(events := l.events + [e], worker := next)
  }

  function WorkerStep(l: Link, tick: Tick): Link {
    match l.worker
    case Idle =>
      if !tick.Proceed? then l
      else if l.commands != [] then
        l.(commands := l.commands[1..],
           worker := if l.commands[0].FrameCommand? then Writing(l.commands[0].frame) else Closing)
      else if l.senderOpen then l
      else l.(worker := Gone(None, true, true))
    case Writing(f) =>
      var line := f.bytes + [NEWLINE];
      if tick.WriteFails? then
        l.(stdin := l.stdin + line[..if tick.accepted < |line| then tick.accepted else |line|], worker := Failing(f))
      else if tick.Proceed? then
        l.(stdin := l.stdin + line, written := l.written + [f], worker := Acknowledging(|f.bytes|))
      else l
    case Acknowledging(n) => if tick.Proceed? then Send(l, Written(n), Idle) else l
    case Closing => if tick.Proceed? then Send(l, WriterClosed, Gone(None, true, true)) else l
    case Failing(f) => if tick.Proceed? then Send(l, WriterFailed, Gone(Some(f), true, true)) else l
    case Gone(f, commandsOpen, eventsOpen) =>
      if tick.DropReceiver? then l.(worker := Gone(f, false, eventsOpen))
      else if tick.DropSender? then l.(worker := Gone(f, commandsOpen, false))
      else l
  }

  function WorkerSteps(l: Link, ticks: seq<Tick>): Link {
    if ticks == [] then l else WorkerStep(WorkerSteps(l, ticks[..|ticks| - 1]), ticks[|ticks| - 1])
  }

  // ---- The session's side ------------------------------------------------------------------

  datatype SendError = Full | Disconnected

  /** The worker still holds the receiving end of the command channel. */
  predicate Listening(l: Link) {
    l.worker.Gone? ==> l.worker.commandsOpen
  }

  function TrySend(l: Link, c: Command): Result<Link, SendError> {
    if !Listening(l) then Err(Disconnected)
    else if |l.commands| >= l.capacity then Err(Full)
    else Ok(l.(commands := l.commands + [c]))
  }

  datatype Recv<T> = Received(value: T) | Empty | Hangup

  function TryRecv(l: Link): Recv<Event> {
    if l.events != [] then Received(l.events[0])
    else if l.worker.Gone? && !l.worker.eventsOpen then Hangup
    else Empty
  }

  function Drop(l: Link): Link {
    l.(senderOpen := false)
  }

  // ---- Invariant ---------------------------------------------------------------------------

  function InHand(w: Worker): seq<Frame> {
    match w
    case Writing(f) => [f]
    case Failing(f) => [f]
    case Gone(f, _, _) => if f.Some? then [f.value] else []
    case _ => []
  }

  function FramesOf(commands: seq<Command>): (frames: seq<Frame>)
    ensures |frames| <= |commands|
  {
    if commands == [] then []
    else FramesOf(commands[..|commands| - 1])
         + if commands[|commands| - 1].FrameCommand? then [commands[|commands| - 1].frame] else []
  }

  function Acknowledged(events: seq<Event>): (lengths: seq<nat>)
    ensures |lengths| <= |events|
  {
    if events == [] then []
    else Acknowledged(events[..|events| - 1])
         + if events[|events| - 1].Written? then [events[|events| - 1].bytes] else []
  }

  function Owed(w: Worker): seq<nat> {
    if w.Acknowledging? then [w.bytes] else []
  }

  /** Acknowledgements on their way: in the event channel, or about to be sent. */
  function Reports(l: Link): seq<nat> {
    Acknowledged(l.events) + Owed(l.worker)
  }

  function Render(frames: seq<Frame>): Bytes {
    if frames == [] then [] else Render(frames[..|frames| - 1]) + (frames[|frames| - 1].bytes + [NEWLINE])
  }

  /** Lines as they are written: each followed by a newline. */
  function Joined(lines: seq<Bytes>): Bytes {
    if lines == [] then [] else Joined(lines[..|lines| - 1]) + (lines[|lines| - 1] + [NEWLINE])
  }

  function LinesOf(frames: seq<Frame>): seq<Bytes> {
    if frames == [] then [] else LinesOf(frames[..|frames| - 1]) + [frames[|frames| - 1].bytes]
  }

  lemma {:induction false} LinesGrow(frames: seq<Frame>, f: Frame)
    ensures LinesOf(frames + [f]) == LinesOf(frames) + [f.bytes]
  {
    assert (frames + [f])[..|frames|] == frames;
  }

  lemma {:induction false} RenderJoins(frames: seq<Frame>)
    ensures Render(frames) == Joined(LinesOf(frames))
  {
    if frames != [] {
      RenderJoins(frames[..|frames| - 1]);
      assert LinesOf(frames)[..|LinesOf(frames)| - 1] == LinesOf(frames[..|frames| - 1]);
    }
  }

  predicate AllFrames(commands: seq<Command>) {
    |FramesOf(commands)| == |commands|
  }

  predicate AllWritten(events: seq<Event>) {
    |Acknowledged(events)| == |events|
  }

  /** What stands in for a failed write: some prefix of the failed line. */
  predicate Partial(stdin: Bytes, written: seq<Frame>, failed: seq<Frame>) {
    if failed == [] then stdin == Render(written)
    else Render(written) <= stdin <= Render(written) + (failed[0].bytes + [NEWLINE])
  }

  /** The worker failed, and the failed frame is still counted as outstanding. */
  predicate HasFailed(w: Worker) {
    w.Failing? || (w.Gone? && w.failed.Some?)
  }

  /** Frames sent, in order: written, in hand, still queued. */
  predicate Fifo(l: Link, handed: seq<Frame>) {
    handed == l.written + InHand(l.worker) + FramesOf(l.commands)
  }

  /** `reports` are the lengths of the last frames written. */
  predicate Tail(reports: seq<nat>, written: seq<Frame>) {
    reports == []
    || (&& written != [] && reports[|reports| - 1] == |written[|written| - 1].bytes|
        && Tail(reports[..|reports| - 1], written[..|written| - 1]))
  }

  /** Acknowledgements under way answer the written frames not acknowledged yet. */
  predicate Answered(l: Link, acked: nat) {
    |l.written| == acked + |Reports(l)| && Tail(Reports(l), l.written)
  }

  /** The child's standard input holds the written frames, one a line, and what a failed write left. */
  predicate StdinExact(l: Link) {
    Partial(l.stdin, l.written, if HasFailed(l.worker) then InHand(l.worker) else [])
  }

  /** `Close` is sent last, with nothing outstanding, and a worker stops early only by failing. */
  predicate Orderly(l: Link, outstanding: nat) {
    && (l.worker.Gone? || AllWritten(l.events))
    && (AllFrames(l.commands) || (l.commands == [CloseCommand] && !l.senderOpen && outstanding == 0))
    && (l.worker.Closing? ==> l.commands == [] && !l.senderOpen && outstanding == 0)
    && (l.worker.Gone? && l.worker.failed.None? ==> !l.senderOpen)
  }

  /** Until the session starts closing, a worker that is gone has an unread failure to report. */
  predicate Reported(l: Link, closing: bool) {
    closing || (l.senderOpen && (l.worker.Gone? ==> l.events != [] && l.events[|l.events| - 1].WriterFailed?))
  }

  /** `handed` are the frames the session sent; `acked` of them have had their acknowledgement read. */
  predicate LinkInv(l: Link, handed: seq<Frame>, acked: nat) {
    && 0 < l.capacity && acked <= |handed| <= acked + l.capacity
    && Fifo(l, handed) && Answered(l, acked) && StdinExact(l)
    && Orderly(l, |handed| - acked)
  }

  lemma {:induction false} TailPush(reports: seq<nat>, written: seq<Frame>, f: Frame)
    requires Tail(reports, written)
    ensures Tail(reports + [|f.bytes|], written + [f])
  {
    assert (reports + [|f.bytes|])[..|reports|] == reports && (written + [f])[..|written|] == written;
  }

  lemma {:induction false} TailPop(reports: seq<nat>, written: seq<Frame>)
    requires reports != [] && |reports| <= |written| && Tail(reports, written)
    ensures Tail(reports[1..], written) && reports[0] == |written[|written| - |reports|].bytes|
  {
    var r, w := reports[..|reports| - 1], written[..|written| - 1];
    if r != [] {
      TailPop(r, w);
      assert reports[1..][..|r| - 1] == r[1..];
    }
  }

  lemma {:induction false} FramesOfConcat(a: seq<Command>, b: seq<Command>)
    ensures FramesOf(a + b) == FramesOf(a) + FramesOf(b)
  {
    if b == [] {
      assert a + b == a;
    } else {
      assert (a + b)[..|a + b| - 1] == a + b[..|b| - 1];
      FramesOfConcat(a, b[..|b| - 1]);
    }
  }

  lemma {:induction false} AcknowledgedConcat(a: seq<Event>, b: seq<Event>)
    ensures Acknowledged(a + b) == Acknowledged(a) + Acknowledged(b)
  {
    if b == [] {
      assert a + b == a;
    } else {
      assert (a + b)[..|a + b| - 1] == a + b[..|b| - 1];
      AcknowledgedConcat(a, b[..|b| - 1]);
    }
  }

  // ---- No interleaving breaks it -----------------------------------------------------------

  /** The worker never waits to report: its event channel has room whenever it sends. */
  lemma {:induction false} WorkerNeverBlocks(l: Link, handed: seq<Frame>, acked: nat)
    requires LinkInv(l, handed, acked) && (l.worker.Acknowledging? || l.worker.Closing? || l.worker.Failing?)
    ensures |l.events| < l.capacity
  {
  }

  lemma {:induction false} TakeFront(commands: seq<Command>)
    requires commands != []
    ensures FramesOf(commands)
            == (if commands[0].FrameCommand? then [commands[0].frame] else []) + FramesOf(commands[1..])
  {
    var c := commands[0];
    assert commands == [c] + commands[1..];
    FramesOfConcat([c], commands[1..]);
    assert [c][..0] == [];
  }

  lemma {:induction false} FifoStep(l: Link, tick: Tick, handed: seq<Frame>)
    requires Fifo(l, handed)
    ensures Fifo(WorkerStep(l, tick), handed)
  {
    if l.worker.Idle? && l.commands != [] { TakeFront(l.commands); }
  }

  lemma {:induction false} RenderOne(written: seq<Frame>, f: Frame)
    ensures Render(written + [f]) == Render(written) + (f.bytes + [NEWLINE])
  {
    assert (written + [f])[..|written|] == written;
  }

  lemma {:induction false} PartialLine(stdin: Bytes, written: seq<Frame>, f: Frame, n: nat)
    requires stdin == Render(written) && n <= |f.bytes| + 1
    ensures Partial(stdin + (f.bytes + [NEWLINE])[..n], written, [f])
  {
  }

  lemma {:induction false} ReportOne(events: seq<Event>, e: Event)
    ensures Acknowledged(events + [e]) == Acknowledged(events) + if e.Written? then [e.bytes] else []
  {
    assert (events + [e])[..|events|] == events;
  }

  lemma {:induction false} ReportsStep(l: Link, tick: Tick)
    ensures var next := WorkerStep(l, tick);
            if l.worker.Writing? && tick.Proceed? then
              next.written == l.written + [l.worker.frame] && Reports(next) == Reports(l) + [|l.worker.frame.bytes|]
            else next.written == l.written && Reports(next) == Reports(l)
  {
    var next := WorkerStep(l, tick);
    if next.events != l.events {
      ReportOne(l.events, next.events[|l.events|]);
    }
  }

  lemma {:induction false} AnsweredStep(l: Link, tick: Tick, acked: nat)
    requires Answered(l, acked)
    ensures Answered(WorkerStep(l, tick), acked)
  {
    ReportsStep(l, tick);
    if l.worker.Writing? { TailPush(Reports(l), l.written, l.worker.frame); }
  }

  lemma {:induction false} StdinStep(l: Link, tick: Tick)
    requires StdinExact(l)
    ensures StdinExact(WorkerStep(l, tick))
  {
    if l.worker.Writing? {
      var f := l.worker.frame;
      if tick.Proceed? {
        RenderOne(l.written, f);
      } else if tick.WriteFails? {
        PartialLine(l.stdin, l.written, f, if tick.accepted < |f.bytes| + 1 then tick.accepted else |f.bytes| + 1);
      }
    }
  }

  lemma {:induction false} OrderlyStep(l: Link, tick: Tick, outstanding: nat)
    requires Orderly(l, outstanding)
    ensures Orderly(WorkerStep(l, tick), outstanding)
  {
    match l.worker
    case Idle => if l.commands != [] { TakeFront(l.commands); }
    case Acknowledging(n) => ReportOne(l.events, Written(n));
    case _ =>
  }

  lemma {:induction false} StepParts(l: Link, handed: seq<Frame>, acked: nat, tick: Tick) returns (next: Link)
    requires LinkInv(l, handed, acked)
    ensures next == WorkerStep(l, tick) && next.capacity == l.capacity
    ensures Fifo(next, handed) && Answered(next, acked) && StdinExact(next) && Orderly(next, |handed| - acked)
  {
    next := WorkerStep(l, tick);
    FifoStep(l, tick, handed);
    AnsweredStep(l, tick, acked);
    StdinStep(l, tick);
    OrderlyStep(l, tick, |handed| - acked);
  }

  lemma {:induction false} WorkerKeepsInv(l: Link, handed: seq<Frame>, acked: nat, tick: Tick)
    requires LinkInv(l, handed, acked)
    ensures LinkInv(WorkerStep(l, tick), handed, acked)
  {
    var next := StepParts(l, handed, acked, tick);
    assert LinkInv(next, handed, acked);
  }

  lemma {:induction false} ReportedStep(l: Link, tick: Tick, outstanding: nat, closing: bool)
    requires Orderly(l, outstanding) && Reported(l, closing)
    ensures var next := WorkerStep(l, tick);
            Reported(next, closing) && next.capacity == l.capacity && next.senderOpen == l.senderOpen
  {
  }

  /** What the session may rely on about its link at any moment. */
  predicate Sound(l: Link, handed: seq<Frame>, acked: nat, closing: bool, capacity: nat, senderOpen: bool) {
    LinkInv(l, handed, acked) && Reported(l, closing) && l.capacity == capacity && l.senderOpen == senderOpen
  }

  lemma {:induction false} WorkerKeepsSound(l: Link, handed: seq<Frame>, acked: nat, closing: bool, capacity: nat,
          senderOpen: bool, tick: Tick)
    requires Sound(l, handed, acked, closing, capacity, senderOpen)
    ensures Sound(WorkerStep(l, tick), handed, acked, closing, capacity, senderOpen)
  {
    WorkerKeepsInv(l, handed, acked, tick);
    ReportedStep(l, tick, |handed| - acked, closing);
  }

  lemma {:induction false} WorkersKeepSound(l: Link, handed: seq<Frame>, acked: nat, closing: bool, capacity: nat,
          senderOpen: bool, ticks: seq<Tick>)
    requires Sound(l, handed, acked, closing, capacity, senderOpen)
    ensures Sound(WorkerSteps(l, ticks), handed, acked, closing, capacity, senderOpen)
  {
    if ticks != [] {
      WorkersKeepSound(l, handed, acked, closing, capacity, senderOpen, ticks[..|ticks| - 1]);
      WorkerKeepsSound(WorkerSteps(l, ticks[..|ticks| - 1]), handed, acked, closing, capacity, senderOpen,
                       ticks[|ticks| - 1]);
    }
  }

  /** The link is sound now and whatever the worker does next. */
  ghost predicate Steady(l: Link, handed: seq<Frame>, acked: nat, closing: bool, capacity: nat, senderOpen: bool) {
    forall ticks :: Sound(WorkerSteps(l, ticks), handed, acked, closing, capacity, senderOpen)
  }

  lemma {:induction false} SoundMeansSteady(l: Link, handed: seq<Frame>, acked: nat, closing: bool, capacity: nat,
          senderOpen: bool)
    ensures Sound(l, handed, acked, closing, capacity, senderOpen)
            <==> Steady(l, handed, acked, closing, capacity, senderOpen)
  {
    if Sound(l, handed, acked, closing, capacity, senderOpen) {
      forall ticks ensures Sound(WorkerSteps(l, ticks), handed, acked, closing, capacity, senderOpen) {
        WorkersKeepSound(l, handed, acked, closing, capacity, senderOpen, ticks);
      }
    }
    assert WorkerSteps(l, []) == l;
  }

  /** Below the session's own bound, a frame never finds the command channel full. */
  lemma {:induction false} FrameSendKeepsInv(l: Link, handed: seq<Frame>, acked: nat, f: Frame)
    requires LinkInv(l, handed, acked) && l.senderOpen && |handed| - acked < l.capacity
    ensures TrySend(l, FrameCommand(f)) != Err(Full)
    ensures TrySend(l, FrameCommand(f)).Ok? ==> LinkInv(TrySend(l, FrameCommand(f)).value, handed + [f], acked)
  {
    FramesOfConcat(l.commands, [FrameCommand(f)]);
    assert [FrameCommand(f)][..0] == [];
  }

  /** With nothing outstanding, `Close` is always delivered. */
  lemma {:induction false} CloseSendKeepsInv(l: Link, handed: seq<Frame>, acked: nat)
    requires LinkInv(l, handed, acked) && l.senderOpen && |handed| == acked
    ensures TrySend(l, CloseCommand).Ok? && LinkInv(Drop(TrySend(l, CloseCommand).value), handed, acked)
  {
    FramesOfConcat(l.commands, [CloseCommand]);
    assert [CloseCommand][..0] == [];
    assert l.commands == [];
  }

  lemma {:induction false} PopEvent(events: seq<Event>)
    requires events != []
    ensures Acknowledged(events)
            == (if events[0].Written? then [events[0].bytes] else []) + Acknowledged(events[1..])
  {
    var e := events[0];
    assert events == [e] + events[1..];
    AcknowledgedConcat([e], events[1..]);
    assert [e][..0] == [];
  }

  lemma {:induction false} OldestReport(bytes: nat, rest: seq<nat>, reports: seq<nat>, written: seq<Frame>, acked: nat)
    requires reports == [bytes] + rest && |written| == acked + |reports| && Tail(reports, written)
    ensures acked < |written| && bytes == |written[acked].bytes|
    ensures |written| == acked + 1 + |rest| && Tail(rest, written)
  {
    TailPop(reports, written);
    assert reports[1..] == rest;
  }

  /** The oldest unread acknowledgement is that of the oldest unacknowledged frame. */
  lemma {:induction false} OldestAcknowledged(l: Link, acked: nat)
    requires Answered(l, acked) && l.events != [] && l.events[0].Written?
    ensures acked < |l.written| && l.events[0].bytes == |l.written[acked].bytes|
    ensures Answered(l.(events := l.events[1..]), acked + 1)
    ensures AllWritten(l.events) ==> AllWritten(l.events[1..])
  {
    var rest := Reports(l.(events := l.events[1..]));
    PopEvent(l.events);
    assert Reports(l) == [l.events[0].bytes] + rest;
    OldestReport(l.events[0].bytes, rest, Reports(l), l.written, acked);
  }

  /** Frames in the command channel, in hand, and with an unread acknowledgement or failure are all
      outstanding, and nothing else is. */
  lemma {:induction false} OutstandingIsExact(l: Link, handed: seq<Frame>, acked: nat)
    requires LinkInv(l, handed, acked)
    ensures |handed| - acked == |FramesOf(l.commands)| + |InHand(l.worker)| + |Reports(l)| <= l.capacity
    ensures |l.commands| <= l.capacity && (!l.worker.Gone? ==> |l.events| <= l.capacity)
  {
  }

  /** The child reads the handed frames, in order, each on its own line, and nothing else. */
  lemma {:induction false} StdinIsPrefix(l: Link, handed: seq<Frame>, acked: nat)
    requires LinkInv(l, handed, acked)
    ensures Render(handed[..acked]) <= l.stdin <= Render(handed)
  {
    var n := |l.written|;
    assert handed[..acked] == l.written[..acked] && handed[..n] == l.written;
    RenderPrefix(l.written, acked);
    RenderPrefix(handed, n);
    if HasFailed(l.worker) {
      var f := InHand(l.worker)[0];
      assert handed[..n + 1] == l.written + [f];
      RenderOne(l.written, f);
      RenderPrefix(handed, n + 1);
    }
  }

  lemma {:induction false} RenderPrefix(frames: seq<Frame>, n: nat)
    requires n <= |frames|
    ensures Render(frames[..n]) <= Render(frames)
  {
    if n < |frames| {
      RenderPrefix(frames[..|frames| - 1], n);
      assert frames[..|frames| - 1][..n] == frames[..n];
    } else {
      assert frames[..n] == frames;
    }
  }

  lemma {:induction false} ReceiveKeepsInv(l: Link, handed: seq<Frame>, acked: nat)
    requires LinkInv(l, handed, acked) && l.events != []
    ensures var next := l.(events := l.events[1..]);
            if l.events[0].Written? then
              && acked < |handed| && l.events[0].bytes == |handed[acked].bytes| && LinkInv(next, handed, acked + 1)
            else LinkInv(next, handed, acked) && l.worker.Gone?
  {
    if l.events[0].Written? {
      OldestAcknowledged(l, acked);
    } else {
      PopEvent(l.events);
      assert Reports(l.(events := l.events[1..])) == Reports(l);
    }
  }
}
