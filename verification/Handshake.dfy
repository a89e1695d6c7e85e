/** The initialization automaton of the session and what it guarantees about the frames around it. */
module Handshake {
  import opened Basics
  import opened Messages

  const INITIALIZE: Text := Ascii("initialize")
  const INITIALIZED: Text := Ascii("initialized")

  datatype Initialization =
    | AwaitingInitialize
    | InitializeQueued(queuedId: RequestId)
    | AwaitingInitializeResponse(awaitedId: RequestId)
    | InitializeResponseQueued(responseId: RequestId)
    | AwaitingInitialized
    | InitializedQueued
    | Ready

  predicate IsInitialize(f: Frame, id: RequestId) {
    IsRequestFor(f, id) && f.observation.name == Some(INITIALIZE)
  }

  predicate IsInitialized(f: Frame) {
    f.observation.kind.Notification? && f.observation.name == Some(INITIALIZED)
  }

  /** Not part of the handshake. */
  predicate IsOrdinary(f: Frame) {
    f.observation.name != Some(INITIALIZE) && f.observation.name != Some(INITIALIZED)
  }

  predicate IsSuccessFor(f: Frame, id: RequestId) {
    f.observation.kind.SuccessResponse? && f.observation.id == Some(id)
  }

  predicate IsNotification(f: Frame) {
    f.observation.kind.Notification?
  }

  /** One `initialize` request, one `initialized` notification, then neither again. */
  predicate Fits(f: Frame, position: nat) {
    match position
    case 0 => f.observation.kind.Request? && f.observation.name == Some(INITIALIZE)
    case 1 => IsInitialized(f)
    case _ => IsOrdinary(f)
  }

  /** `frames` are the handshake script, and what follows it, from a position on. */
  predicate Script(frames: seq<Frame>, from: nat) {
    forall i :: 0 <= i < |frames| ==> Fits(frames[i], from + i)
  }

  // ---- Transitions -------------------------------------------------------------------------

  /** `send_client`: the state after admitting a client message, if it is in order. */
  function ClientNext(state: Initialization, o: Observation): Option<Initialization> {
    match state
    case AwaitingInitialize =>
      if o.kind.Request? && o.name == Some(INITIALIZE) && o.id.Some? then Some(InitializeQueued(o.id.value)) else None
    case AwaitingInitialized =>
      if o.kind.Notification? && o.name == Some(INITIALIZED) then Some(InitializedQueued) else None
    case Ready => if o.name == Some(INITIALIZE) || o.name == Some(INITIALIZED) then None else Some(Ready)
    case _ => None
  }

  datatype ServerError = UnexpectedMessage | Rejected

  /** `server_initialization_after`: the state after admitting a server message. */
  function ServerNext(state: Initialization, terminating: bool, o: Observation): Result<Initialization, ServerError> {
    if state.Ready? || terminating || o.kind.Notification? then Ok(state)
    else if !state.AwaitingInitializeResponse? then Err(UnexpectedMessage)
    else if o.id != Some(state.awaitedId) then Err(UnexpectedMessage)
    else if o.kind.SuccessResponse? then Ok(InitializeResponseQueued(state.awaitedId))
    else if o.kind.ErrorResponse? then Err(Rejected)
    else Err(UnexpectedMessage)
  }

  /** `observe_dispatched_frame`: the state after a frame leaves for the server. */
  function DispatchNext(state: Initialization, f: Frame): Option<Initialization> {
    match state
    case InitializeQueued(id) => if IsInitialize(f, id) then Some(AwaitingInitializeResponse(id)) else None
    case InitializedQueued => if IsInitialized(f) then Some(Ready) else None
    case Ready => Some(Ready)
    case _ => None
  }

  /** `observe_client_delivery`: the state after a frame leaves for the client. */
  function DeliveryNext(state: Initialization, f: Frame): Option<Initialization> {
    if !state.InitializeResponseQueued? then Some(state)
    else if IsSuccessFor(f, state.responseId) then Some(AwaitingInitialized)
    else if IsNotification(f) then Some(state)
    else None
  }

  // ---- Invariants --------------------------------------------------------------------------

  /** What the server-bound frames say about the state of a live session. */
  predicate ServerSide(state: Initialization, released: seq<Frame>, queue: seq<Frame>) {
    match state
    case AwaitingInitialize => released == [] && queue == []
    case InitializeQueued(id) => released == [] && |queue| == 1 && IsInitialize(queue[0], id)
    case AwaitingInitializeResponse(id) => |released| == 1 && IsInitialize(released[0], id) && queue == []
    case InitializeResponseQueued(id) => |released| == 1 && IsInitialize(released[0], id) && queue == []
    case AwaitingInitialized => |released| == 1 && queue == []
    case InitializedQueued => |released| == 1 && |queue| == 1 && IsInitialized(queue[0])
    case Ready => |released| >= 2
  }

  /** Only notifications stand between the front of the queue and the awaited response. */
  predicate ResponseAhead(queue: seq<Frame>, id: RequestId) {
    && queue != []
    && (IsSuccessFor(queue[0], id) || (IsNotification(queue[0]) && ResponseAhead(queue[1..], id)))
  }

  predicate AllNotifications(queue: seq<Frame>) {
    queue == [] || (IsNotification(queue[0]) && AllNotifications(queue[1..]))
  }

  predicate BeforeResponse(state: Initialization) {
    state.AwaitingInitialize? || state.InitializeQueued? || state.AwaitingInitializeResponse?
  }

  /** What the client-bound queue says about the state. */
  predicate ClientSide(state: Initialization, live: bool, queue: seq<Frame>) {
    && (state.InitializeResponseQueued? ==> ResponseAhead(queue, state.responseId))
    && (live && BeforeResponse(state) ==> AllNotifications(queue))
  }

  /** The client holds the success response to that very request. */
  ghost predicate Answered(delivered: seq<Frame>, request: Frame) {
    exists f :: f in delivered && f.observation.kind.SuccessResponse? && f.observation.id == request.observation.id
  }

  /** The first frame ever admitted toward the server. */
  function Opening(released: seq<Frame>, queue: seq<Frame>): Frame
    requires |released| + |queue| > 0
  {
    if released != [] then released[0] else queue[0]
  }

  /** `initialized` is admitted only after the success response to the opening request was delivered. */
  ghost predicate ResponseFirst(state: Initialization, live: bool, released: seq<Frame>, queue: seq<Frame>,
          delivered: seq<Frame>)
  {
    && (|released| + |queue| >= 2 ==> Answered(delivered, Opening(released, queue)))
    && (live && released != [] && (state.AwaitingInitialized? || state.InitializedQueued? || state.Ready?) ==>
          Answered(delivered, released[0]))
  }

  /** `live`: the session still dispatches. `recording`: the journal still accepts events. */
  ghost predicate HandshakeInv(state: Initialization, live: bool, recording: bool, released: seq<Frame>,
          toServer: seq<Frame>, toClient: seq<Frame>, delivered: seq<Frame>)
  {
    && Script(released, 0) && Script(toServer, |released|)
    && (live ==> ServerSide(state, released, toServer))
    && (recording ==> ClientSide(state, live, toClient))
    && ResponseFirst(state, live, released, toServer, delivered)
  }

  // ---- Preservation ------------------------------------------------------------------------

  lemma {:induction false} ClientAdmission(state: Initialization, recording: bool, released: seq<Frame>,
          toServer: seq<Frame>, toClient: seq<Frame>, delivered: seq<Frame>, f: Frame)
    requires HandshakeInv(state, true, recording, released, toServer, toClient, delivered)
    requires ClientNext(state, f.observation).Some?
    ensures HandshakeInv(ClientNext(state, f.observation).value, true, recording, released, toServer + [f],
                         toClient, delivered)
    ensures HandshakeInv(state, false, recording, released, toServer + [f], toClient, delivered)
  {
    assert Fits(f, |released| + |toServer|);
    assert Script(toServer + [f], |released|);
  }

  /** The handshake is at a point where the client may speak. */
  predicate ClientsTurn(state: Initialization) {
    state.AwaitingInitialize? || state.AwaitingInitialized? || state.Ready?
  }

  /** The client gate admits exactly the frames that fit the script at the next position, when it is the
      client's turn. */
  lemma {:induction false} ClientGateIsExact(state: Initialization, released: seq<Frame>, toServer: seq<Frame>,
          f: Frame)
    requires ServerSide(state, released, toServer) && WellFormed(f.observation)
    ensures ClientNext(state, f.observation).Some? <==>
              ClientsTurn(state) && Fits(f, |released| + |toServer|)
  {
    assert |INITIALIZE| != |INITIALIZED|;
  }

  /** A live session never dispatches a frame out of order. */
  lemma {:induction false} DispatchIsExpected(state: Initialization, recording: bool, released: seq<Frame>,
          toServer: seq<Frame>, toClient: seq<Frame>, delivered: seq<Frame>)
    requires HandshakeInv(state, true, recording, released, toServer, toClient, delivered) && toServer != []
    ensures DispatchNext(state, toServer[0]).Some?
    ensures HandshakeInv(DispatchNext(state, toServer[0]).value, true, recording, released + [toServer[0]],
                         toServer[1..], toClient, delivered)
    ensures HandshakeInv(state, false, recording, released + [toServer[0]], toServer[1..], toClient, delivered)
  {
    ScriptMoves(released, toServer);
  }

  lemma {:induction false} ScriptMoves(released: seq<Frame>, toServer: seq<Frame>)
    requires Script(released, 0) && Script(toServer, |released|) && toServer != []
    ensures Script(released + [toServer[0]], 0) && Script(toServer[1..], |released| + 1)
  {
    assert Fits(toServer[0], |released| + 0);
    var rest := toServer[1..];
    forall i | 0 <= i < |rest| ensures Fits(rest[i], |released| + 1 + i) {
      assert Fits(toServer[i + 1], |released| + (i + 1));
    }
  }

  lemma {:induction false} ResponseAheadGrows(queue: seq<Frame>, id: RequestId, f: Frame)
    requires ResponseAhead(queue, id)
    ensures ResponseAhead(queue + [f], id)
  {
    assert (queue + [f])[1..] == queue[1..] + [f];
    if !IsSuccessFor(queue[0], id) { ResponseAheadGrows(queue[1..], id, f); }
  }

  lemma {:induction false} NotificationsGrow(queue: seq<Frame>, f: Frame)
    requires AllNotifications(queue)
    ensures IsNotification(f) ==> AllNotifications(queue + [f])
    ensures forall id :: IsSuccessFor(f, id) ==> ResponseAhead(queue + [f], id)
  {
    if queue != [] {
      assert (queue + [f])[1..] == queue[1..] + [f];
      NotificationsGrow(queue[1..], f);
    }
  }

  lemma {:induction false} ServerAdmission(state: Initialization, live: bool, recording: bool, released: seq<Frame>,
          toServer: seq<Frame>, toClient: seq<Frame>, delivered: seq<Frame>, f: Frame)
    requires HandshakeInv(state, live, recording, released, toServer, toClient, delivered)
    requires ServerNext(state, !live, f.observation).Ok?
    ensures HandshakeInv(ServerNext(state, !live, f.observation).value, live, recording, released, toServer,
                         toClient + [f], delivered)
  {
    if recording {
      if state.InitializeResponseQueued? { ResponseAheadGrows(toClient, state.responseId, f); }
      if live && BeforeResponse(state) { NotificationsGrow(toClient, f); }
    }
  }

  /** While the journal records, delivering to the client never meets an unexpected frame. */
  lemma {:induction false} DeliveryIsExpected(state: Initialization, live: bool, released: seq<Frame>,
          toServer: seq<Frame>, toClient: seq<Frame>, delivered: seq<Frame>)
    requires HandshakeInv(state, live, true, released, toServer, toClient, delivered) && toClient != []
    ensures DeliveryNext(state, toClient[0]).Some?
    ensures HandshakeInv(DeliveryNext(state, toClient[0]).value, live, true, released, toServer, toClient[1..],
                         delivered + [toClient[0]])
  {
    var f := toClient[0];
    var next := DeliveryNext(state, f).value;
    AnsweredGrows(delivered, f);
    if live && state.InitializeResponseQueued? && next.AwaitingInitialized? {
      assert f in delivered + [f];
      assert Answered(delivered + [f], released[0]);
    }
  }

  lemma {:induction false} AnsweredGrows(delivered: seq<Frame>, f: Frame)
    ensures forall r :: Answered(delivered, r) ==> Answered(delivered + [f], r)
  {
    forall r | Answered(delivered, r) ensures Answered(delivered + [f], r) {
      var g :| g in delivered && g.observation.kind.SuccessResponse? && g.observation.id == r.observation.id;
      assert g in delivered + [f];
    }
  }

  /** Once the journal is full, or the session is ending, the remaining promises only weaken. */
  lemma {:induction false} HandshakeWeakens(state: Initialization, live: bool, recording: bool, released: seq<Frame>,
          toServer: seq<Frame>, toClient: seq<Frame>, delivered: seq<Frame>)
    requires HandshakeInv(state, live, recording, released, toServer, toClient, delivered)
    ensures HandshakeInv(state, false, recording, released, toServer, toClient, delivered)
    ensures forall queue :: HandshakeInv(state, live, false, released, toServer, queue, delivered)
    ensures HandshakeInv(AwaitingInitialize, false, recording, released, [], [], delivered)
  {
  }

  lemma {:induction false} ScriptPrefix(frames: seq<Frame>, part: seq<Frame>, from: nat)
    requires Script(frames, from) && part <= frames
    ensures Script(part, from)
  {
    forall i | 0 <= i < |part| ensures Fits(part[i], from + i) { assert part[i] == frames[i]; }
  }
}
