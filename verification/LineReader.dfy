/** Newline framing of a byte stream that arrives in arbitrary pieces. */
module LineReader {
  import opened Basics
  import opened SessionModel

  const CARRIAGE_RETURN: byte := 13

  /** No newline among the first `n` bytes. */
  predicate Clear(b: Bytes, n: nat)
    requires n <= |b|
  {
    forall i :: 0 <= i < n ==> b[i] != NEWLINE
  }

  predicate Unbroken(b: Bytes) {
    Clear(b, |b|)
  }

  /** Position of the first newline, or the length if there is none. */
  function FirstNewline(b: Bytes): (n: nat)
    ensures n <= |b| && (n < |b| ==> b[n] == NEWLINE) && Clear(b, n)
  {
    if b == [] || b[0] == NEWLINE then 0 else 1 + FirstNewline(b[1..])
  }

  /** How a stream ends once its complete lines are gone: some bytes, then end of file or an error. */
  function End(rest: Bytes, broken: bool, limit: nat): ReaderEvent {
    if FirstNewline(rest) > limit then LineTooLarge
    else if broken then ReaderFailed
    else if rest != [] then UnterminatedLine
    else Eof
  }

  /** The events a whole stream amounts to, independent of how it arrives. */
  function Events(content: Bytes, broken: bool, limit: nat): seq<ReaderEvent> {
    var n := FirstNewline(content);
    if n <= limit && n < |content| then [Line(content[..n])] + Events(content[n + 1..], broken, limit)
    else [End(content, broken, limit)]
  }

  // ---- Effect of one buffer fill -------------------------------------------------------------

  lemma {:induction false} LineCompletes(line: Bytes, rest: Bytes, n: nat, broken: bool, limit: nat)
    requires n < |rest| && rest[n] == NEWLINE && Unbroken(line) && Clear(rest, n) && |line| + n <= limit
    ensures Events(line + rest, broken, limit) == [Line(line + rest[..n])] + Events(rest[n + 1..], broken, limit)
  {
    var all, m := line + rest, |line| + n;
    assert all[m] == NEWLINE && Clear(all, m) && FirstNewline(all) == m;
    assert all[..m] == line + rest[..n] && all[m + 1..] == rest[n + 1..];
  }

  lemma {:induction false} LineOverflows(line: Bytes, rest: Bytes, n: nat, broken: bool, limit: nat)
    requires n <= |rest| && Unbroken(line) && Clear(rest, n) && |line| + n > limit
    ensures FirstNewline(line + rest) > limit && Events(line + rest, broken, limit) == [LineTooLarge]
  {
    assert Clear(line + rest, |line| + n);
  }

  lemma {:induction false} LineEnds(line: Bytes, broken: bool, limit: nat)
    requires Unbroken(line) && |line| <= limit
    ensures Events(line, broken, limit) == [End(line, broken, limit)] && FirstNewline(line) == |line|
  {
  }

  /** One buffer fill of any size; `content` is the part before a newline, if there is one. */
  method Fill(rest: Bytes) returns (content: nat, consumed: nat)
    requires rest != []
    ensures content <= consumed <= |rest| && 0 < consumed && Clear(rest, content)
    ensures content < consumed ==> consumed == content + 1 && rest[content] == NEWLINE
  {
    var size :| 0 < size <= |rest|;
    var available := rest[..size];
    content := FirstNewline(available);
    consumed := if content < size then content + 1 else size;
  }

  /** `pending` is what a partial line and the bytes still to come amount to. */
  ghost predicate Pending(line: Bytes, rest: Bytes, broken: bool, limit: nat, pending: seq<ReaderEvent>) {
    Unbroken(line) && |line| <= limit && pending == Events(line + rest, broken, limit)
  }

  /** One round of the reader loop. */
  method ReadFill(line0: Bytes, rest0: Bytes, broken: bool, limit: nat, ghost pending0: seq<ReaderEvent>)
    returns (line: Bytes, rest: Bytes, consumed: nat, event: Option<ReaderEvent>, ghost pending: seq<ReaderEvent>)
    requires rest0 != [] && Pending(line0, rest0, broken, limit, pending0)
    ensures 0 < consumed <= |rest0| && rest == rest0[consumed..]
    ensures event == Some(LineTooLarge) ==> pending0 == [LineTooLarge]
    ensures event != Some(LineTooLarge) ==>
              && Pending(line, rest, broken, limit, pending)
              && pending0 == (if event.Some? then [event.value] else []) + pending
  {
    var content;
    content, consumed := Fill(rest0);
    rest, event, pending := rest0[consumed..], None, pending0;
    if |line0| + content > limit {
      LineOverflows(line0, rest0, content, broken, limit);
      return line0, rest, consumed, Some(LineTooLarge), pending;
    }
    line := line0 + rest0[..content];
    if content < consumed {
      LineCompletes(line0, rest0, content, broken, limit);
      event, pending := Some(Line(line)), Events(rest, broken, limit);
      line := [];
      assert line + rest == rest;
    } else {
      assert line + rest == line0 + rest0;
    }
  }

  /** The reader loop, from any point on. */
  method ReadOn(stream: Bytes, broken: bool, limit: nat, ghost target: seq<ReaderEvent>)
    returns (events: seq<ReaderEvent>, observed: nat)
    requires Pending([], stream, broken, limit, target)
    ensures events == target
    ensures LineTooLarge !in events ==> observed == if |stream| <= U64_MAX then |stream| else U64_MAX
  {
    events, observed := [], 0;
    var line: Bytes, rest := [], stream;
    ghost var pending := target;
    while rest != []
      invariant |rest| <= |stream| && Pending(line, rest, broken, limit, pending)
      invariant observed == if |stream| - |rest| <= U64_MAX then |stream| - |rest| else U64_MAX
      invariant events + pending == target
    {
      var consumed, event;
      line, rest, consumed, event, pending := ReadFill(line, rest, broken, limit, pending);
      observed := SaturatingAdd(observed, consumed);
      if event.Some? {
        events := events + [event.value];
        if event.value.LineTooLarge? {
          return;
        }
      }
    }
    LineEnds(line, broken, limit);
    assert line + rest == line;
    events := events + [if broken then ReaderFailed else if line == [] then Eof else UnterminatedLine];
  }

  /** `reader_worker`: however the stream is cut into buffer fills, the events are those of the stream. */
  method ReaderWorker(stream: Bytes, broken: bool, limit: nat) returns (events: seq<ReaderEvent>, observed: nat)
    ensures events == Events(stream, broken, limit)
    ensures LineTooLarge !in events ==> observed == if |stream| <= U64_MAX then |stream| else U64_MAX
  {
    assert [] + stream == stream;
    events, observed := ReadOn(stream, broken, limit, Events(stream, broken, limit));
  }

  // ---- What the events mean ----------------------------------------------------------------

  /** The bytes a list of lines came from. */
  function Joined(events: seq<ReaderEvent>): Bytes {
    if events == [] then [] else
      (if events[0].Line? then events[0].bytes + [NEWLINE] else []) + Joined(events[1..])
  }

  lemma {:induction false} JoinedCons(line: Bytes, tail: seq<ReaderEvent>)
    ensures Joined([Line(line)] + tail) == line + [NEWLINE] + Joined(tail)
  {
    assert ([Line(line)] + tail)[1..] == tail;
  }

  lemma {:induction false} EndIsLast(e: ReaderEvent)
    requires !e.Line?
    ensures Joined([e]) == []
  {
    assert [e][1..] == [];
  }

  predicate Fits(e: ReaderEvent, limit: nat) {
    e.Line? && |e.bytes| <= limit && Unbroken(e.bytes)
  }

  lemma {:induction false} LinesFit(content: Bytes, broken: bool, limit: nat)
    ensures var e := Events(content, broken, limit);
            e != [] && !e[|e| - 1].Line? && forall i :: 0 <= i < |e| - 1 ==> Fits(e[i], limit)
    decreases |content|
  {
    var n := FirstNewline(content);
    if n <= limit && n < |content| {
      var head, tail := Line(content[..n]), Events(content[n + 1..], broken, limit);
      LinesFit(content[n + 1..], broken, limit);
      assert Fits(head, limit);
      forall i | 0 <= i < |[head] + tail| - 1 ensures Fits(([head] + tail)[i], limit) {
        if i > 0 { assert ([head] + tail)[i] == tail[i - 1]; }
      }
    }
  }

  /** What the complete lines leave over. */
  function Leftover(content: Bytes, limit: nat): Bytes {
    var n := FirstNewline(content);
    if n <= limit && n < |content| then Leftover(content[n + 1..], limit) else content
  }

  lemma {:induction false} Glue(head: Bytes, joined: Bytes, left: Bytes)
    ensures head + [NEWLINE] + (joined + left) == (head + [NEWLINE] + joined) + left
  {
  }

  lemma {:induction false} SplitAtNewline(content: Bytes, n: nat)
    requires n < |content| && content[n] == NEWLINE
    ensures content == content[..n] + [NEWLINE] + content[n + 1..]
  {
  }

  /** The equations that define events and leftover when a line is complete. */
  lemma {:induction false} FirstLine(content: Bytes, broken: bool, limit: nat) returns (head: Bytes, after: Bytes)
    requires FirstNewline(content) <= limit && FirstNewline(content) < |content|
    ensures |after| < |content| && content == head + [NEWLINE] + after
    ensures Events(content, broken, limit) == [Line(head)] + Events(after, broken, limit)
    ensures Leftover(content, limit) == Leftover(after, limit)
  {
    var n := FirstNewline(content);
    head, after := content[..n], content[n + 1..];
    SplitAtNewline(content, n);
  }

  lemma {:induction false} LineJoins(content: Bytes, events: seq<ReaderEvent>, head: Bytes, after: Bytes,
          tail: seq<ReaderEvent>, left: Bytes)
    requires content == head + [NEWLINE] + after && after == Joined(tail) + left
    requires events == [Line(head)] + tail && tail != []
    ensures content == Joined(events) + left && events[|events| - 1] == tail[|tail| - 1]
  {
    JoinedCons(head, tail);
    Glue(head, Joined(tail), left);
  }

  lemma {:induction false} LinesJoin(content: Bytes, broken: bool, limit: nat)
    ensures var e := Events(content, broken, limit);
            && content == Joined(e) + Leftover(content, limit)
            && e != [] && e[|e| - 1] == End(Leftover(content, limit), broken, limit)
    decreases |content|
  {
    if FirstNewline(content) <= limit && FirstNewline(content) < |content| {
      var head, after := FirstLine(content, broken, limit);
      LinesJoin(after, broken, limit);
      LineJoins(content, Events(content, broken, limit), head, after, Events(after, broken, limit),
                Leftover(after, limit));
    } else {
      EndIsLast(End(content, broken, limit));
      assert [] + content == content;
    }
  }

  /** Complete lines, each within the limit and free of newlines, then exactly one ending that describes
      the bytes the lines leave over; lines and leftover are the stream. */
  lemma {:induction false} EventsAreTheStream(content: Bytes, broken: bool, limit: nat)
    ensures var e, rest := Events(content, broken, limit), Leftover(content, limit);
            && e != [] && (forall i :: 0 <= i < |e| - 1 ==> Fits(e[i], limit))
            && content == Joined(e) + rest && e[|e| - 1] == End(rest, broken, limit)
            && (FirstNewline(rest) > limit || Unbroken(rest))
  {
    LinesFit(content, broken, limit);
    LinesJoin(content, broken, limit);
    LeftoverEnds(content, limit);
  }

  lemma {:induction false} LeftoverEnds(content: Bytes, limit: nat)
    ensures FirstNewline(Leftover(content, limit)) > limit || Unbroken(Leftover(content, limit))
    decreases |content|
  {
    var n := FirstNewline(content);
    if n <= limit && n < |content| { LeftoverEnds(content[n + 1..], limit); }
  }

  // ---- One bounded line --------------------------------------------------------------------

  datatype LineError = UnexpectedEof | ReadFailed | InboundLineTooLarge | EmptyLine

  function Stripped(line: Bytes): Bytes {
    if line != [] && line[|line| - 1] == CARRIAGE_RETURN then line[..|line| - 1] else line
  }

  /** The result a stream alone determines. */
  function BoundedLine(content: Bytes, broken: bool, limit: nat): Result<Bytes, LineError> {
    var n := FirstNewline(content);
    if n > limit then Err(InboundLineTooLarge)
    else if n == |content| then Err(if broken then ReadFailed else UnexpectedEof)
    else if Stripped(content[..n]) == [] then Err(EmptyLine)
    else Ok(Stripped(content[..n]))
  }

  /** `read_bounded_line`: the result and, for a complete line, what is consumed do not depend on how the
      stream arrives. */
  method ReadBoundedLine(stream: Bytes, broken: bool, limit: nat) returns (r: Result<Bytes, LineError>, rest: Bytes)
    ensures r == BoundedLine(stream, broken, limit)
    ensures r.Ok? || r == Err(EmptyLine) ==>
              FirstNewline(stream) < |stream| && rest == stream[FirstNewline(stream) + 1..]
  {
    var line: Bytes, position := [], 0;
    rest := stream;
    while true
      invariant position <= |stream| && rest == stream[position..] && Clear(stream, position) && position <= limit
      invariant line == stream[..position]
      decreases |rest|
    {
      if rest == [] {
        return Err(if broken then ReadFailed else UnexpectedEof), rest;
      }
      var newline, consumed := Fill(rest);
      Advance(stream, position, newline, consumed);
      if |line| + newline > limit {
        return Err(InboundLineTooLarge), rest;
      }
      line, rest := line + rest[..newline], rest[consumed..];
      if newline < consumed {
        position := position + newline;
        break;
      }
      position := position + consumed;
    }
    line := Stripped(line);
    if line == [] {
      return Err(EmptyLine), rest;
    }
    return Ok(line), rest;
  }

  /** What one fill adds to a stream that is clear up to `position`. */
  lemma {:induction false} Advance(stream: Bytes, position: nat, n: nat, consumed: nat)
    requires position <= |stream| && Clear(stream, position) && n <= consumed <= |stream| - position
    requires Clear(stream[position..], n)
    ensures Clear(stream, position + n) && stream[..position] + stream[position..][..n] == stream[..position + n]
    ensures stream[position..][consumed..] == stream[position + consumed..]
    ensures FirstNewline(stream) >= position + n
    ensures n < consumed && stream[position..][n] == NEWLINE ==> FirstNewline(stream) == position + n
  {
    PrefixClear(stream, position, n);
    var first := FirstNewline(stream);
    assert first == |stream| || stream[first] == NEWLINE;
    if n < consumed && stream[position..][n] == NEWLINE { assert stream[position + n] == NEWLINE; }
  }

  lemma {:induction false} PrefixClear(stream: Bytes, position: nat, n: nat)
    requires position + n <= |stream| && Clear(stream, position) && Clear(stream[position..], n)
    ensures Clear(stream, position + n)
  {
    forall i | position <= i < position + n ensures stream[i] != NEWLINE {
      assert stream[i] == stream[position..][i - position];
    }
  }
}
