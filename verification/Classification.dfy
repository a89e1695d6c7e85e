/** From one delimiter-free line to a validated frame. */
module Classification {
  import opened Basics
  import opened Messages
  import opened Json

  datatype Classified = Classified(kind: Kind, name: Option<Text>, id: Option<RequestId>)

  function ParseRequestId(v: Value): Result<RequestId, ProxyError> {
    match v
    case UnsignedNumber(n) => Ok(Unsigned(n))
    case SignedNumber(n) => Ok(Signed(n))
    case String(t) =>
      if 0 < |t| <= MAX_REQUEST_ID_BYTES && !HasControl(t) then Ok(TextId(t)) else Err(InvalidRequestId)
    case _ => Err(InvalidRequestId)
  }

  /** A number, or a short text free of control characters. */
  predicate Identifies(v: Value) {
    v.UnsignedNumber? || v.SignedNumber? || (v.String? && 0 < |v.text| <= MAX_REQUEST_ID_BYTES && !HasControl(v.text))
  }

  /** A request or notification names its method and carries no outcome; a response carries one outcome and the
      identity it answers, or null. */
  predicate HasShape(message: map<Text, Value>) {
    var named, identified := Ascii("method") in message, Ascii("id") in message;
    var outcomes := (if Ascii("result") in message then 1 else 0) + (if Ascii("error") in message then 1 else 0);
    && (named ==> message[Ascii("method")].String? && ValidMethod(message[Ascii("method")].text))
    && outcomes == (if named then 0 else 1) && (!named ==> identified)
    && (identified ==> Identifies(message[Ascii("id")]) || (!named && message[Ascii("id")].Null?))
  }

  function ClassifyObject(message: map<Text, Value>): (r: Result<Classified, ProxyError>)
    ensures r.Ok? <==> HasShape(message)
    ensures r.Ok? ==> (r.value.kind.IsResponse() <==> Ascii("method") !in message)
    ensures r.Ok? ==> (r.value.id.None? <==> Ascii("id") !in message || message[Ascii("id")].Null?)
    ensures r.Ok? ==>
              forall d: Direction, n: nat :: WellFormed(Observation(d, r.value.kind, r.value.name, r.value.id, n))
  {
    var hasResult, hasError, hasId := Ascii("result") in message, Ascii("error") in message, Ascii("id") in message;
    if Ascii("method") in message then
      var m := message[Ascii("method")];
      if hasResult || hasError then Err(AmbiguousMessageShape)
      else if !m.String? || !ValidMethod(m.text) then Err(InvalidMethod)
      else if !hasId then Ok(Classified(Notification, Some(m.text), None))
      else match ParseRequestId(message[Ascii("id")])
        case Err(e) => Err(e)
        case Ok(id) => Ok(Classified(Request, Some(m.text), Some(id)))
    else if !hasId || hasResult == hasError then Err(AmbiguousMessageShape)
    else
      var kind := if hasResult then SuccessResponse else ErrorResponse;
      if message[Ascii("id")].Null? then Ok(Classified(kind, None, None))
      else match ParseRequestId(message[Ascii("id")])
        case Err(e) => Err(e)
        case Ok(id) => Ok(Classified(kind, None, Some(id)))
  }

  predicate IsAsciiWhitespace(b: byte) {
    b == 0x20 || b == 0x09 || b == 0x0A || b == 0x0C || b == 0x0D
  }

  method OnlyWhitespace(line: Bytes) returns (only: bool)
    ensures only <==> forall i :: 0 <= i < |line| ==> IsAsciiWhitespace(line[i])
  {
    for i := 0 to |line|
      invariant forall k :: 0 <= k < i ==> IsAsciiWhitespace(line[k])
    {
      if !IsAsciiWhitespace(line[i]) {
        return false;
      }
    }
    return true;
  }

  method HasLineBreak(line: Bytes) returns (found: bool)
    ensures found <==> exists i :: 0 <= i < |line| && (line[i] == 0x0D || line[i] == 0x0A)
  {
    for i := 0 to |line|
      invariant forall k :: 0 <= k < i ==> line[k] != 0x0D && line[k] != 0x0A
    {
      if line[i] == 0x0D || line[i] == 0x0A {
        return true;
      }
    }
    return false;
  }

  /** What a proxy with these limits accepts as one line. */
  ghost predicate Acceptable(line: Bytes, limits: ProxyLimits, decode: Bytes -> Option<RawJson>) {
    && (exists i :: 0 <= i < |line| && !IsAsciiWhitespace(line[i]))
    && (forall i :: 0 <= i < |line| ==> line[i] != 0x0D && line[i] != 0x0A)
    && |line| <= limits.lineBytes
    && decode(line).Some?
    && Depth(decode(line).value) <= limits.json.depth
    && Nodes(decode(line).value) <= limits.json.nodes
    && Unambiguous(decode(line).value)
    && ToValue(decode(line).value).Object?
    && ClassifyObject(ToValue(decode(line).value).members).Ok?
  }

  /** The frame an acceptable line becomes. */
  ghost function Framed(line: Bytes, d: Direction, limits: ProxyLimits, decode: Bytes -> Option<RawJson>): (f: Frame)
    requires Acceptable(line, limits, decode)
    ensures ValidFrame(f) && f.bytes == line && f.observation.direction == d
  {
    var c := ClassifyObject(ToValue(decode(line).value).members).value;
    Frame(Observation(d, c.kind, c.name, c.id, |line|), line)
  }

  /** Accepts exactly the acceptable lines and keeps their exact bytes. */
  method ParseAndClassify(line: Bytes, d: Direction, limits: ProxyLimits, decode: Bytes -> Option<RawJson>)
      returns (r: Result<Frame, ProxyError>)
    ensures r.Ok? <==> Acceptable(line, limits, decode)
    ensures r.Ok? ==> r.value == Framed(line, d, limits, decode)
    ensures r.Err? ==> r.error != InconsistentCorrelationState && r.error != NonMonotonicClock
  {
    var blank := OnlyWhitespace(line);
    if blank {
      return Err(EmptyLine);
    }
    var broken := HasLineBreak(line);
    if broken {
      return Err(EmbeddedLineBreak);
    }
    if |line| > limits.lineBytes {
      return Err(LineTooLarge);
    }
    var tree := decode(line);
    if tree.None? {
      return Err(InvalidJson);
    }
    var value := ParseBounded(tree.value, limits.json);
    if value.Err? {
      return Err(value.error);
    }
    if !value.value.Object? {
      return Err(TopLevelNotObject);
    }
    var c := ClassifyObject(value.value.members);
    if c.Err? {
      return Err(c.error);
    }
    return Ok(Frame(Observation(d, c.value.kind, c.value.name, c.value.id, |line|), line));
  }
}
