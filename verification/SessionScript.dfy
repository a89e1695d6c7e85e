/** The environment of one particular run: three JSON lines, and a stdin worker whose write fails late. */
module SessionScript {
  import opened Basics
  import opened Messages
  import opened Json
  import opened Classification
  import opened Handshake
  import opened SessionModel
  import W = WriterLink

  const ID: RequestId := Unsigned(1)

  const ASK: Bytes := Ascii("{\"id\":1,\"method\":\"initialize\"}")
  const ANSWER: Bytes := Ascii("{\"id\":1,\"result\":{}}")
  const READY: Bytes := Ascii("{\"method\":\"initialized\"}")

  function AskTree(): RawJson {
    RawObject([Member(Ascii("id"), RawUnsigned(1)), Member(Ascii("method"), RawString(INITIALIZE))])
  }

  function AnswerTree(): RawJson {
    RawObject([Member(Ascii("id"), RawUnsigned(1)), Member(Ascii("result"), RawObject([]))])
  }

  function ReadyTree(): RawJson {
    RawObject([Member(Ascii("method"), RawString(INITIALIZED))])
  }

  function Decode(line: Bytes): Option<RawJson> {
    if line == ASK then Some(AskTree())
    else if line == ANSWER then Some(AnswerTree())
    else if line == READY then Some(ReadyTree())
    else None
  }

  function AskFrame(): Frame {
    Frame(Observation(ClientToServer, Request, Some(INITIALIZE), Some(ID), |ASK|), ASK)
  }

  function AnswerFrame(): Frame {
    Frame(Observation(ServerToClient, SuccessResponse, None, Some(ID), |ANSWER|), ANSWER)
  }

  function ReadyFrame(): Frame {
    Frame(Observation(ClientToServer, Notification, Some(INITIALIZED), None, |READY|), READY)
  }

  // ---- The environment -----------------------------------------------------------------------

  /** The process exits when it is asked for the fourth time, and its streams end with it. */
  function FromProcess(n: nat): W.Recv<ProcessEvent> {
    if n < 3 then W.Empty else W.Received(ProcessExited(ProcessExit(true, Some(0))))
  }

  function FromStdout(n: nat): W.Recv<ReaderEvent> {
    if n == 1 then W.Received(Line(ANSWER)) else if n < 3 then W.Empty else W.Received(Eof)
  }

  function FromStderr(n: nat): W.Recv<StderrEvent> {
    if n < 3 then W.Empty else W.Received(StderrEof)
  }

  /** The worker writes the first line and fails to write the newline after it; it reports that and lets go of its
      channel only once the second poll is over. */
  function Schedule(n: nat): seq<W.Tick> {
    if n == 3 then [W.Proceed, W.WriteFails(|ASK|)]
    else if n == 7 then [W.Proceed, W.DropReceiver]
    else []
  }

  function Allow(o: Observation): Option<nat> {
    None
  }

  function Surroundings(): Environment {
    Environment(FromProcess, FromStdout, FromStderr, Schedule, Decode, Allow)
  }

  /** Limits under which the three lines fit. */
  predicate Roomy(l: ProxyLimits) {
    && ValidProxyLimits(l) && l.lineBytes >= 64 && l.json.depth >= 2 && l.json.nodes >= 3
    && l.toServer.bytes >= 64 && l.toClient.bytes >= 64
  }

  lemma {:induction false} Printable(t: Text)
    requires forall i :: 0 <= i < |t| ==> 0x20 <= t[i] < 0x7F
    ensures !HasControl(t)
  {
    if t != [] { Printable(t[1..]); }
  }

  lemma {:induction false} NamesFit()
    ensures ValidMethod(INITIALIZE) && ValidMethod(INITIALIZED)
  {
    Printable(INITIALIZE);
    Printable(INITIALIZED);
  }

  lemma {:induction false} Lines()
    ensures |ASK| == 30 && |ANSWER| == 20 && |READY| == 24
    ensures forall i :: 0 <= i < |ASK| ==> 0x20 < ASK[i] < 0x7F
    ensures forall i :: 0 <= i < |ANSWER| ==> 0x20 < ANSWER[i] < 0x7F
    ensures forall i :: 0 <= i < |READY| ==> 0x20 < READY[i] < 0x7F
  {
  }

  lemma {:induction false} FramesFit()
    ensures ValidFrame(AskFrame()) && ValidFrame(AnswerFrame()) && ValidFrame(ReadyFrame())
    ensures |AskFrame().bytes| <= 30 && |AnswerFrame().bytes| <= 30 && |ReadyFrame().bytes| <= 30
  {
    NamesFit();
    Lines();
  }

  lemma {:induction false} KeysDiffer()
    ensures Ascii("id") != Ascii("method") && Ascii("id") != Ascii("result") && Ascii("id") != Ascii("error")
    ensures Ascii("method") != Ascii("result") && Ascii("method") != Ascii("error")
    ensures Ascii("result") != Ascii("error")
  {
    assert Ascii("method")[0] == 109 && Ascii("result")[0] == 114;
    assert |Ascii("id")| == 2 && |Ascii("error")| == 5;
  }

  lemma {:induction false} OneMember(a: Member)
    ensures Depth(RawObject([a])) == 1 + Depth(a.value) && Nodes(RawObject([a])) == 1 + Nodes(a.value)
    ensures Unambiguous(RawObject([a])) <==> Unambiguous(a.value)
    ensures ToValue(RawObject([a])) == Object(map[a.key := ToValue(a.value)])
  {
    var members := [a];
    assert members[..0] == [];
    assert MembersDepth(members) == Max(MembersDepth([]), Depth(a.value));
    assert MembersNodes(members) == MembersNodes([]) + Nodes(a.value);
    assert MembersUnambiguous(members) == (MembersUnambiguous([]) && a.key !in Keys([]) && Unambiguous(a.value));
    assert MembersValue(members) == MembersValue([])[a.key := ToValue(a.value)];
  }

  lemma {:induction false} TwoMembers(a: Member, b: Member)
    requires a.key != b.key
    ensures Depth(RawObject([a, b])) == 1 + Max(Depth(a.value), Depth(b.value))
    ensures Nodes(RawObject([a, b])) == 1 + Nodes(a.value) + Nodes(b.value)
    ensures Unambiguous(RawObject([a, b])) <==> Unambiguous(a.value) && Unambiguous(b.value)
    ensures ToValue(RawObject([a, b])) == Object(map[a.key := ToValue(a.value), b.key := ToValue(b.value)])
  {
    var members := [a, b];
    OneMember(a);
    assert members[..1] == [a] && [a][..0] == [];
    assert Keys([a]) == {a.key};
  }

  lemma {:induction false} NamedShapes(name: Text)
    requires ValidMethod(name)
    ensures ClassifyObject(map[Ascii("id") := UnsignedNumber(1), Ascii("method") := String(name)])
            == Ok(Classified(Request, Some(name), Some(ID)))
    ensures ClassifyObject(map[Ascii("method") := String(name)]) == Ok(Classified(Notification, Some(name), None))
  {
    KeysDiffer();
  }

  lemma {:induction false} AskTaken(l: ProxyLimits)
    requires Roomy(l)
    ensures Acceptable(ASK, l, Decode) && Framed(ASK, ClientToServer, l, Decode) == AskFrame()
  {
    Lines();
    KeysDiffer();
    NamesFit();
    NamedShapes(INITIALIZE);
    TwoMembers(Member(Ascii("id"), RawUnsigned(1)), Member(Ascii("method"), RawString(INITIALIZE)));
    assert !IsAsciiWhitespace(ASK[0]);
  }

  lemma {:induction false} AnswerTaken(l: ProxyLimits)
    requires Roomy(l)
    ensures Acceptable(ANSWER, l, Decode) && Framed(ANSWER, ServerToClient, l, Decode) == AnswerFrame()
  {
    Lines();
    KeysDiffer();
    TwoMembers(Member(Ascii("id"), RawUnsigned(1)), Member(Ascii("result"), RawObject([])));
    assert !IsAsciiWhitespace(ANSWER[0]) && ANSWER != ASK;
  }

  lemma {:induction false} ReadyTaken(l: ProxyLimits)
    requires Roomy(l)
    ensures Acceptable(READY, l, Decode) && Framed(READY, ClientToServer, l, Decode) == ReadyFrame()
  {
    Lines();
    NamesFit();
    NamedShapes(INITIALIZED);
    OneMember(Member(Ascii("method"), RawString(INITIALIZED)));
    assert !IsAsciiWhitespace(READY[0]) && READY != ASK && READY != ANSWER;
  }
}
