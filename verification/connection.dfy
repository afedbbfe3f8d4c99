/** One relay session (connection.go): the frame classifier of the receive
    pump, the two pump loops as functions from what their blocking calls
    return to what they emit, and `connect`, which dials, opens the line
    editor and starts the pumps.

    A pump's environment is a finite sequence of results of its blocking
    calls. A trace whose `stop` is `None` is one where that sequence ran out
    while the pump was still looping, i.e. it had not failed yet. */
module Connection {
  import opened GoValues
  import opened Hex

  /** gorilla/websocket message type codes. */
  const TextMessage: int := 1
  const BinaryMessage: int := 2

  /** A WebSocket message as `ReadMessage` returns it and `WriteMessage` takes it. */
  datatype Message = Message(kind: int, data: seq<Byte>)

  /** What the receive pump does with one message: show a line, or log the
      unknown type and go on reading. */
  datatype Rendering = Show(text: GoString) | Skip(kind: int)

  /** Result of one `ws.ReadMessage` call. */
  datatype ReadResult = Received(msg: Message) | ReadFailed(err: Error)

  /** Result of one `rl.Readline` call. */
  datatype LineResult = Line(text: GoString) | LineFailed(err: Error)

  /** Result of one `ws.WriteMessage` call. */
  datatype WriteResult = Written | WriteFailed(err: Error)

  /** What a pump emitted, and the error it reported on the session's error
      channel, if it has reported one. */
  datatype PumpTrace<T> = PumpTrace(out: seq<T>, stop: Option<Error>)

  /** The `switch msgType` of `readWebsocket` (connection.go:92-101). */
  function Render(m: Message): (r: Rendering)
    ensures m.kind == TextMessage ==> r.Show? && BytesOfString(r.text) == m.data
    ensures m.kind == BinaryMessage ==>
              r.Show? && r.text == FormattedHex(m.data) && ParseFormattedHex(r.text) == Some(m.data)
    ensures r.Skip? <==> m.kind != TextMessage && m.kind != BinaryMessage
    ensures r.Skip? ==> r.kind == m.kind
  {
    if m.kind == TextMessage then
      BytesOfStringOfBytes(m.data);
      Show(StringOfBytes(m.data))
    else if m.kind == BinaryMessage then
      ParseFormattedHexRoundTrip(m.data);
      Show(FormattedHex(m.data))
    else Skip(m.kind)
  }

  /** The read at index `k` is the first one that failed. */
  ghost predicate FirstReadFailure(inbox: seq<ReadResult>, k: int) {
    0 <= k < |inbox| && inbox[k].ReadFailed? &&
    forall j :: 0 <= j < k ==> inbox[j].Received?
  }

  /** `readWebsocket` (connection.go:81-105): read, stop on the first read
      error, otherwise render and print, skipping unknown message types. */
  function ReceivePump(inbox: seq<ReadResult>): (t: PumpTrace<GoString>)
    ensures |t.out| <= |inbox|
    ensures t.stop.Some? <==> exists k :: 0 <= k < |inbox| && inbox[k].ReadFailed?
    ensures t.stop.Some? ==> exists k :: FirstReadFailure(inbox, k) && t.stop.value == inbox[k].err
  {
    if |inbox| == 0 then PumpTrace([], None)
    else match inbox[0]
      case ReadFailed(e) =>
        assert FirstReadFailure(inbox, 0);
        PumpTrace([], Some(e))
      case Received(m) =>
        var rest := ReceivePump(inbox[1..]);
        assert forall k :: 0 <= k < |inbox| - 1 ==> inbox[1..][k] == inbox[k + 1];
        assert forall k :: FirstReadFailure(inbox[1..], k) ==> FirstReadFailure(inbox, k + 1);
        match Render(m)
        case Show(text) => PumpTrace([text] + rest.out, rest.stop)
        case Skip(_) => rest
  }

  /** The lines a sequence of received messages shows, in arrival order. */
  function Shown(msgs: seq<Message>): (lines: seq<GoString>)
    ensures |lines| <= |msgs|
  {
    if |msgs| == 0 then []
    else match Render(msgs[0])
      case Show(text) => [text] + Shown(msgs[1..])
      case Skip(_) => Shown(msgs[1..])
  }

  /** The lines shown for a concatenation are those of each part, in order. */
  lemma {:induction false} ShownAppend(a: seq<Message>, b: seq<Message>)
    ensures Shown(a + b) == Shown(a) + Shown(b)
  {
    if |a| == 0 {
      assert a + b == b;
    } else {
      assert (a + b)[0] == a[0];
      assert (a + b)[1..] == a[1..] + b;
      ShownAppend(a[1..], b);
      match Render(a[0])
      case Show(text) =>
        assert Shown(a + b) == [text] + (Shown(a[1..]) + Shown(b));
      case Skip(_) =>
    }
  }

  /** One message shows one line if it is text or binary, and none otherwise. */
  lemma ShownSingle(m: Message)
    ensures Render(m).Show? ==> Shown([m]) == [Render(m).text]
    ensures Render(m).Skip? ==> Shown([m]) == []
  {
    assert [m][1..] == [];
  }

  function Deliveries(msgs: seq<Message>): (inbox: seq<ReadResult>)
    ensures |inbox| == |msgs|
    ensures forall i :: 0 <= i < |msgs| ==> inbox[i] == Received(msgs[i])
  {
    seq(|msgs|, i requires 0 <= i < |msgs| => Received(msgs[i]))
  }

  /** Every received message is shown in arrival order, except those of an
      unknown type, and the loop goes on reading after all of them. */
  lemma {:induction false} ReceivePumpShowsInOrder(msgs: seq<Message>)
    ensures ReceivePump(Deliveries(msgs)) == PumpTrace(Shown(msgs), None)
  {
    if |msgs| > 0 {
      assert Deliveries(msgs)[1..] == Deliveries(msgs[1..]);
      ReceivePumpShowsInOrder(msgs[1..]);
    }
  }

  /** The pump stops at the first failed read, reports exactly its error, and
      shows everything received before it. */
  lemma {:induction false} ReceivePumpStopsAtFirstFailure(msgs: seq<Message>, e: Error, later: seq<ReadResult>)
    ensures ReceivePump(Deliveries(msgs) + [ReadFailed(e)] + later) == PumpTrace(Shown(msgs), Some(e))
  {
    if |msgs| == 0 {
      assert (Deliveries(msgs) + [ReadFailed(e)] + later)[0] == ReadFailed(e);
    } else {
      assert (Deliveries(msgs) + [ReadFailed(e)] + later)[1..] == Deliveries(msgs[1..]) + [ReadFailed(e)] + later;
      ReceivePumpStopsAtFirstFailure(msgs[1..], e, later);
    }
  }

  /** A message of an unknown type produces no output and does not end the
      loop: the pump behaves as if it had never arrived. */
  lemma {:induction false} ReceivePumpSkipsUnknown(before: seq<Message>, m: Message, after: seq<ReadResult>)
    requires m.kind != TextMessage && m.kind != BinaryMessage
    ensures ReceivePump(Deliveries(before) + [Received(m)] + after) == ReceivePump(Deliveries(before) + after)
  {
    if |before| == 0 {
      assert (Deliveries(before) + [Received(m)] + after)[1..] == after;
      assert Deliveries(before) + after == after;
    } else {
      assert (Deliveries(before) + [Received(m)] + after)[1..] == Deliveries(before[1..]) + [Received(m)] + after;
      assert (Deliveries(before) + after)[1..] == Deliveries(before[1..]) + after;
      ReceivePumpSkipsUnknown(before[1..], m, after);
    }
  }

  /** The text message `readConsole` writes for one line (connection.go:67). */
  function LineMessage(line: GoString): (m: Message)
    ensures m.kind == TextMessage && StringOfBytes(m.data) == line
  {
    StringOfBytesOfString(line);
    Message(TextMessage, BytesOfString(line))
  }

  /** `readConsole` (connection.go:58-74): the i-th line read is written as the
      i-th text message, whose outcome is `writes[i]`; the first failed read
      or write ends the loop and is the reported error. */
  function ConsolePump(lines: seq<LineResult>, writes: seq<WriteResult>): (t: PumpTrace<Message>)
    ensures |t.out| <= |lines| && |t.out| <= |writes|
    ensures forall i :: 0 <= i < |t.out| ==>
              lines[i].Line? && writes[i].Written? && t.out[i] == LineMessage(lines[i].text)
    ensures t.stop.Some? ==>
              var k := |t.out|;
              k < |lines| &&
              ((lines[k].LineFailed? && t.stop.value == lines[k].err) ||
               (lines[k].Line? && k < |writes| && writes[k].WriteFailed? && t.stop.value == writes[k].err))
    ensures t.stop.None? ==>
              |t.out| == |lines| || (|t.out| == |writes| && lines[|t.out|].Line?)
  {
    if |lines| == 0 then PumpTrace([], None)
    else match lines[0]
      case LineFailed(e) => PumpTrace([], Some(e))
      case Line(text) =>
        if |writes| == 0 then PumpTrace([], None)
        else match writes[0]
          case WriteFailed(e) => PumpTrace([], Some(e))
          case Written =>
            var rest := ConsolePump(lines[1..], writes[1..]);
            PumpTrace([LineMessage(text)] + rest.out, rest.stop)
  }

  function TypedLines(texts: seq<GoString>): (lines: seq<LineResult>)
    ensures |lines| == |texts|
    ensures forall i :: 0 <= i < |texts| ==> lines[i] == Line(texts[i])
  {
    seq(|texts|, i requires 0 <= i < |texts| => Line(texts[i]))
  }

  /** The text messages for a sequence of lines, in order. */
  function LineMessages(texts: seq<GoString>): (msgs: seq<Message>)
    ensures |msgs| == |texts|
    ensures forall i :: 0 <= i < |texts| ==> msgs[i] == LineMessage(texts[i])
  {
    if |texts| == 0 then [] else [LineMessage(texts[0])] + LineMessages(texts[1..])
  }

  /** Lines l1..lk read without error and written successfully become exactly
      k text messages with the same bytes, in order; the read error that
      follows them ends the loop and is the reported error. */
  lemma {:induction false} ConsolePumpOneMessagePerLine(texts: seq<GoString>, e: Error, later: seq<LineResult>,
                                                        writes: seq<WriteResult>)
    requires |writes| >= |texts|
    requires forall i :: 0 <= i < |texts| ==> writes[i] == Written
    ensures ConsolePump(TypedLines(texts) + [LineFailed(e)] + later, writes) ==
            PumpTrace(LineMessages(texts), Some(e))
  {
    var lines := TypedLines(texts) + [LineFailed(e)] + later;
    if |texts| == 0 {
      assert lines[0] == LineFailed(e);
    } else {
      assert lines[0] == Line(texts[0]);
      assert writes[0] == Written;
      assert lines[1..] == TypedLines(texts[1..]) + [LineFailed(e)] + later;
      ConsolePumpOneMessagePerLine(texts[1..], e, later, writes[1..]);
    }
  }

  /** Example: the bytes 0xAB 0xCD in a binary frame show as "ab cd ",
      trailing space included. */
  lemma BinaryFrameExample()
    ensures Render(Message(BinaryMessage, [0xAB, 0xCD])) == Show("ab cd ")
  {
    assert FormattedHex([0xAB, 0xCD]) == ByteChunk(0xAB) + FormattedHex([0xCD]);
    assert FormattedHex([0xCD]) == ByteChunk(0xCD) + FormattedHex([]);
  }

  /** What happens to one session's connection and terminal. */
  datatype SessionEnv = SessionEnv(
    dialError: Option<Error>,       // result of `dialer.Dial` for this target
    readlineError: Option<Error>,   // result of `readline.NewEx`
    lines: seq<LineResult>,         // successive `rl.Readline` results
    writes: seq<WriteResult>,       // successive `ws.WriteMessage` results
    inbox: seq<ReadResult>,         // successive `ws.ReadMessage` results
    consoleFirst: bool)             // which pump's error reaches the channel first when both fail

  /** What one session did: messages written, lines shown, and the error
      `connect` returned, if it has returned. */
  datatype SessionRun = SessionRun(sent: seq<Message>, shown: seq<GoString>, result: Option<Error>)

  /** `connect` (connection.go:23-56) for a session whose `readOnly` flag is
      given. A failed dial or line-editor setup returns before any pump
      starts; otherwise the receive pump always runs, the console pump runs
      unless read-only, and the first error on the channel is returned. */
  function Connect(readOnly: bool, env: SessionEnv): (s: SessionRun)
    ensures env.dialError.Some? ==> s == SessionRun([], [], env.dialError)
    ensures env.dialError.None? && env.readlineError.Some? ==> s == SessionRun([], [], env.readlineError)
    ensures readOnly ==> s.sent == []
    ensures env.dialError.None? && env.readlineError.None? ==>
              && s.shown == ReceivePump(env.inbox).out
              && (!readOnly ==> s.sent == ConsolePump(env.lines, env.writes).out)
              && (readOnly ==> s.result == ReceivePump(env.inbox).stop)
              && (s.result.Some? <==>
                    ReceivePump(env.inbox).stop.Some? ||
                    (!readOnly && ConsolePump(env.lines, env.writes).stop.Some?))
              && (s.result.Some? ==>
                    s.result == ReceivePump(env.inbox).stop ||
                    (!readOnly && s.result == ConsolePump(env.lines, env.writes).stop))
  {
    if env.dialError.Some? then SessionRun([], [], env.dialError)
    else if env.readlineError.Some? then SessionRun([], [], env.readlineError)
    else
      var rx := ReceivePump(env.inbox);
      if readOnly then SessionRun([], rx.out, rx.stop)
      else
        var tx := ConsolePump(env.lines, env.writes);
        var first :=
          if tx.stop.Some? && (env.consoleFirst || rx.stop.None?) then tx.stop else rx.stop;
        SessionRun(tx.out, rx.out, first)
  }
}
