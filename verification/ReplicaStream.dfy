/** The replica's side of the replication connection: a byte buffer drained by a handshake, an RDB
    skipper and a command reader. */
module ReplicaStream {
  import opened Text
  import opened Resp

  /** The handler's fields, except its buffer. */
  datatype Control = Control(port: nat, step: nat, rdbExpected: bool, offset: int)

  /** What the handler does to the outside: write to the master, or emit a command. */
  datatype Event = Send(parts: seq<string>) | Emit(payload: seq<string>)

  /** One pass of the drain loop: the number the step returned (None is NaN) and its effects. */
  datatype Turn = Turn(bytes: Option<int>, control: Control, events: seq<Event>)

  // ---- one pass of the loop ------------------------------------------------------------------

  const WAITING: Option<int> := Some(0)

  function HandshakeTurn(c: Control, buf: string): Turn {
    var end := IndexOfCRLF(buf, 0);
    if end == -1 then Turn(WAITING, c, [])
    else
      var response := buf[..end];
      var consumed := Some(end + 2);
      if response == "+PONG" && c.step == 0 then
        Turn(consumed, c.(step := 1), [Send(["REPLCONF", "listening-port", Dec(c.port)])])
      else if response == "+OK" && c.step == 1 then
        Turn(consumed, c.(step := 2), [Send(["REPLCONF", "capa", "psync2"])])
      else if response == "+OK" && c.step == 2 then
        Turn(consumed, c.(step := 3), [Send(["PSYNC", "?", "-1"])])
      else if "+FULLRESYNC" <= response && c.step == 3 then
        Turn(consumed, c.(step := 4, rdbExpected := true), [])
      else Turn(consumed, c, [])
  }

  function RdbTurn(c: Control, buf: string): Turn {
    var end := IndexOfCRLF(buf, 0);
    if end == -1 then Turn(WAITING, c, [])
    else if end == 0 || buf[0] != '$' then Turn(Some(|buf|), c, [])
    else
      match ParseInt(buf[1..end])
      case None => Turn(None, c.(rdbExpected := false), [])
      case Some(length) =>
        var total := end + 2 + length;
        if |buf| < total then Turn(WAITING, c, []) else Turn(Some(total), c.(rdbExpected := false), [])
  }

  predicate IsGetAck(payload: seq<string>) {
    |payload| >= 2 && Lower(payload[0]) == "replconf" && Lower(payload[1]) == "getack"
  }

  function CommandEvent(offset: int, payload: seq<string>): Event {
    if IsGetAck(payload) then Send(["REPLCONF", "ACK", DecInt(offset)]) else Emit(payload)
  }

  function CommandTurn(c: Control, buf: string): Turn {
    match NextCommand(buf)
    case None => Turn(WAITING, c, [])
    case Some(p) =>
      Turn(Some(p.bytesConsumed), c.(offset := c.offset + p.bytesConsumed), [CommandEvent(c.offset, p.payload)])
  }

  function TakeTurn(c: Control, buf: string): Turn {
    if c.step < 4 then HandshakeTurn(c, buf)
    else if c.rdbExpected then RdbTurn(c, buf)
    else CommandTurn(c, buf)
  }

  /** Buffer.slice(bytesConsumed); slice(NaN) keeps everything. */
  function Rest(buf: string, bytes: Option<int>): string {
    if bytes.Some? then SliceFrom(buf, bytes.value) else buf
  }

  // ---- the loop --------------------------------------------------------------------------------

  datatype Drained = Drained(control: Control, rest: string, events: seq<Event>, turns: nat)

  function Flag(c: Control): nat { if c.step >= 4 && c.rdbExpected then 1 else 0 }

  /** The pass leaves a shorter buffer, or the same one with the RDB behind it. */
  predicate Progresses(c: Control, buf: string) {
    var t := TakeTurn(c, buf);
    var rest := Rest(buf, t.bytes);
    |rest| < |buf| || (|rest| == |buf| && Flag(t.control) < Flag(c))
  }

  /** The loop reaches a pass that returns 0. */
  predicate Terminates(c: Control, buf: string)
    decreases |buf|, Flag(c)
  {
    var t := TakeTurn(c, buf);
    t.bytes == WAITING || (Progresses(c, buf) && Terminates(t.control, Rest(buf, t.bytes)))
  }

  function Drain(c: Control, buf: string): Drained
    requires Terminates(c, buf)
    decreases |buf|, Flag(c)
  {
    var t := TakeTurn(c, buf);
    if t.bytes == WAITING then Drained(t.control, buf, t.events, 0)
    else
      var d := Drain(t.control, Rest(buf, t.bytes));
      Drained(d.control, d.rest, t.events + d.events, 1 + d.turns)
  }

  /** Exactly when a pass is repeated for ever: the command it cut ends at or before the front of the
      buffer as slice() counts it from the back. Only a negative bulk length can do that. */
  lemma StuckExactly(c: Control, buf: string)
    ensures TakeTurn(c, buf).bytes != WAITING && !Progresses(c, buf) <==>
            c.step >= 4 && !c.rdbExpected && FrameEnd(buf).Some? && FrameEnd(buf).value <= -|buf|
  {
    hide ParseInt, IndexOfCRLF, PayloadOf, BulksEnd, Lower, DecInt, Dec, IsGetAck;
    if c.step >= 4 && !c.rdbExpected && NextCommand(buf).Some? {
      CompleteFrameIsStable(buf, "");
      assert buf != "";
    }
  }

  /** A pass that consumes nothing and makes no progress is repeated for ever: the very same buffer
      and the very same pass, up to the byte counter. So Terminates is exactly termination. */
  lemma NoProgressRepeats(c: Control, buf: string)
    requires TakeTurn(c, buf).bytes != WAITING && !Progresses(c, buf)
    ensures var t := TakeTurn(c, buf);
            && Rest(buf, t.bytes) == buf
            && t.control == c.(offset := t.control.offset)
            && TakeTurn(t.control, buf).bytes == t.bytes
            && !Progresses(t.control, buf)
  {
    hide HandshakeTurn, RdbTurn, FrameEnd, PayloadOf, CommandEvent, Progresses;
    var t := TakeTurn(c, buf);
    StuckExactly(c, buf);
    assert Rest(buf, t.bytes) == buf;
    assert CommandTurn(t.control, buf).bytes == t.bytes;
    StuckExactly(t.control, buf);
  }

  lemma {:induction false} BulksEndForward(buf: string, cursor: nat, n: int)
    requires '-' !in buf
    ensures BulksEnd(buf, cursor, n).Some? ==> BulksEnd(buf, cursor, n).value >= cursor
    decreases if n < 0 then 0 else n
  {
    if n > 0 && cursor < |buf| {
      var header := IndexOfCRLF(buf, cursor);
      if header > cursor && ParseInt(buf[cursor + 1..header]).Some? {
        var end := header + 4 + ParseInt(buf[cursor + 1..header]).value;
        BulksEndForward(buf, end, n - 1);
      }
    }
  }

  /** Bytes without a minus sign declare no negative length, and the loop ends on them. */
  lemma {:induction false} NonNegativeLengthsTerminate(c: Control, buf: string)
    requires '-' !in buf
    ensures Terminates(c, buf)
    decreases |buf|, Flag(c)
  {
    hide ParseInt, IndexOfCRLF, PayloadOf, BulksEnd, Lower, DecInt, Dec, IsGetAck, HandshakeTurn;
    var t := TakeTurn(c, buf);
    StuckExactly(c, buf);
    if c.step >= 4 && !c.rdbExpected && FrameEnd(buf).Some? {
      BulksEndForward(buf, IndexOfCRLF(buf, 0) + 2, ParseInt(buf[1..IndexOfCRLF(buf, 0)]).value);
    }
    if t.bytes != WAITING {
      assert forall x :: x in Rest(buf, t.bytes) ==> x in buf;
      NonNegativeLengthsTerminate(t.control, Rest(buf, t.bytes));
    }
  }

  /** In the handshake a line that is not the awaited one is skipped without effect: each step waits for a line of its
      own. */
  lemma OtherLinesAreSkipped(c: Control, line: string, rest: string)
    requires c.step < 4 && OneLine(line)
    requires c.step == 0 ==> line != "+PONG"
    requires c.step == 1 || c.step == 2 ==> line != "+OK"
    requires c.step == 3 ==> !("+FULLRESYNC" <= line)
    ensures TakeTurn(c, line + CRLF + rest) == Turn(Some(|line| + 2), c, [])
  {
    hide RdbTurn, CommandTurn, IndexOfCRLF;
    LineEnd(line + CRLF + rest, 0, line);
    assert (line + CRLF + rest)[..|line|] == line;
  }

  lemma DecOfSmall()
    ensures Dec(1) == "1" && Dec(99) == "99"
  {
    assert Dec(99) == Dec(9) + [DigitChar(9)];
  }

  lemma NegativeFrame(buf: string)
    requires buf == "*1\r\n$-99\r\n"
    ensures FrameEnd(buf) == Some(-87)
  {
    hide ParseInt, IndexOfCRLF, Dec;
    IndexIs(buf, 0, 2);
    IndexIs(buf, 4, 8);
    assert Dec(1) == "1" && Dec(99) == "99" by { DecOfSmall(); }
    assert buf[1..2] == Dec(1) && buf[5..8] == DecInt(-99);
    ParseDec(1);
    ParseDecInt(-99);
    assert BulksEnd(buf, 4, 1) == BulksEnd(buf, -87, 0);
  }

  /** A negative bulk length does this: the loop of the source never ends on these bytes. */
  lemma NegativeLengthNeverEnds(c: Control)
    requires c.step >= 4 && !c.rdbExpected
    ensures !Terminates(c, "*1\r\n$-99\r\n")
  {
    hide FrameEnd, PayloadOf, ParseInt, IndexOfCRLF, Lower, DecInt, Dec, IsGetAck;
    var buf := "*1\r\n$-99\r\n";
    NegativeFrame(buf);
    assert Rest(buf, TakeTurn(c, buf).bytes) == buf;
  }

  // ---- the handler -----------------------------------------------------------------------------

  class MasterConnectionHandler {
    const replicaPort: nat
    var handshakeStep: nat
    var rdbFileExpected: bool
    var receivedDataBuffer: string
    var processingOffset: int
    var log: seq<Event>  // everything written to the master or emitted so far

    constructor (replicaPort: nat)
      ensures this.replicaPort == replicaPort && receivedDataBuffer == ""
      ensures View() == Control(replicaPort, 0, false, 0) && log == [Send(["PING"])]
    {
      this.replicaPort := replicaPort;
      handshakeStep, rdbFileExpected, receivedDataBuffer, processingOffset := 0, false, "", 0;
      log := [Send(["PING"])];
    }

    function View(): Control
      reads this
    {
      Control(replicaPort, handshakeStep, rdbFileExpected, processingOffset)
    }

    method ProcessHandshakeMessage() returns (bytesConsumed: Option<int>)
      modifies this`handshakeStep, this`rdbFileExpected, this`log
      ensures var t := HandshakeTurn(old(View()), receivedDataBuffer);
              t.bytes == bytesConsumed && t.control == View() && log == old(log) + t.events
    {
      var endOfLine := IndexOfCRLF(receivedDataBuffer, 0);
      if endOfLine == -1 { return WAITING; }
      var response := receivedDataBuffer[..endOfLine];
      if response == "+PONG" && handshakeStep == 0 {
        handshakeStep := 1;
        log := log + [Send(["REPLCONF", "listening-port", Dec(replicaPort)])];
      } else if response == "+OK" && handshakeStep == 1 {
        handshakeStep := 2;
        log := log + [Send(["REPLCONF", "capa", "psync2"])];
      } else if response == "+OK" && handshakeStep == 2 {
        handshakeStep := 3;
        log := log + [Send(["PSYNC", "?", "-1"])];
      } else if "+FULLRESYNC" <= response && handshakeStep == 3 {
        handshakeStep := 4;
        rdbFileExpected := true;
      }
      bytesConsumed := Some(endOfLine + 2);
    }

    method ProcessRdbFile() returns (bytesConsumed: Option<int>)
      modifies this`rdbFileExpected
      ensures Turn(bytesConsumed, View(), []) == RdbTurn(old(View()), receivedDataBuffer)
    {
      var endOfHeader := IndexOfCRLF(receivedDataBuffer, 0);
      if endOfHeader == -1 { return WAITING; }
      var header := receivedDataBuffer[..endOfHeader];
      if header == "" || header[0] != '$' { return Some(|receivedDataBuffer|); }
      assert header[1..] == receivedDataBuffer[1..endOfHeader];
      var length := ParseInt(header[1..]);
      if length.Some? && |receivedDataBuffer| < endOfHeader + 2 + length.value { return WAITING; }
      rdbFileExpected := false;
      bytesConsumed := if length.Some? then Some(endOfHeader + 2 + length.value) else None;
    }

    /** The second framer. It returns what the first one, DataParser.ParseNextCommand, returns. */
    method ProcessPropagatedCommand() returns (bytesConsumed: Option<int>)
      modifies this`processingOffset, this`log
      ensures var t := CommandTurn(old(View()), receivedDataBuffer);
              t.bytes == bytesConsumed && t.control == View() && log == old(log) + t.events
    {
      hide ParseInt, PayloadOf, SliceTo, Lower, DecInt;
      var buf := receivedDataBuffer;
      if buf == "" || buf[0] != '*' { return WAITING; }
      var endOfFirstLine := IndexOfCRLF(buf, 0);
      if endOfFirstLine == -1 { return WAITING; }
      var arrayLength := ParseInt(buf[1..endOfFirstLine]);
      if arrayLength == None { return WAITING; }

      var currentIndex := endOfFirstLine + 2;
      var i := 0;
      while i < arrayLength.value
        invariant currentIndex <= |buf|
        invariant BulksEnd(buf, currentIndex, arrayLength.value - i) == FrameEnd(buf)
      {
        if currentIndex < 0 || currentIndex >= |buf| || buf[currentIndex] != '$' { return WAITING; }
        var endOfBulkStringHeader := IndexOfCRLF(buf, currentIndex);
        if endOfBulkStringHeader == -1 { return WAITING; }
        var bulkStringLength := ParseInt(buf[currentIndex + 1..endOfBulkStringHeader]);
        if bulkStringLength == None { return WAITING; }
        var endOfBulkString := endOfBulkStringHeader + 2 + bulkStringLength.value + 2;
        if |buf| < endOfBulkString { return WAITING; }
        currentIndex := endOfBulkString;
        i := i + 1;
      }

      var payload := PayloadOf(SliceTo(buf, currentIndex));
      if IsGetAck(payload) {
        log := log + [Send(["REPLCONF", "ACK", DecInt(processingOffset)])];
      } else {
        log := log + [Emit(payload)];
      }
      processingOffset := processingOffset + currentIndex;
      bytesConsumed := Some(currentIndex);
    }

    /** onData: append the chunk, then take passes until one of them returns 0. The result tells that the loop of the
        source never ends: a pass was reached that repeats itself. */
    method OnData(data: string) returns (diverges: bool)
      modifies this
      ensures diverges <==> !Terminates(old(View()), old(receivedDataBuffer) + data)
      ensures !diverges ==>
                var d := Drain(old(View()), old(receivedDataBuffer) + data);
                View() == d.control && receivedDataBuffer == d.rest && log == old(log) + d.events
    {
      hide HandshakeTurn, RdbTurn, CommandTurn, SliceFrom;
      receivedDataBuffer := receivedDataBuffer + data;
      ghost var ends := Terminates(View(), receivedDataBuffer);
      ghost var d := if ends then Drain(View(), receivedDataBuffer) else Drained(View(), "", [], 0);
      while true
        invariant Terminates(View(), receivedDataBuffer) <==> ends
        invariant ends ==>
                    var e := Drain(View(), receivedDataBuffer);
                    e.control == d.control && e.rest == d.rest && log + e.events == old(log) + d.events
        decreases |receivedDataBuffer|, Flag(View())
      {
        var bytesConsumed: Option<int>;
        ghost var t := TakeTurn(View(), receivedDataBuffer);
        ghost var before := log;
        var size, rdbExpected := |receivedDataBuffer|, handshakeStep >= 4 && rdbFileExpected;
        if handshakeStep < 4 {
          bytesConsumed := ProcessHandshakeMessage();
        } else if rdbFileExpected {
          bytesConsumed := ProcessRdbFile();
        } else {
          bytesConsumed := ProcessPropagatedCommand();
        }
        assert t == Turn(bytesConsumed, View(), t.events) && log == before + t.events;
        if bytesConsumed == WAITING { return false; }
        receivedDataBuffer := Rest(receivedDataBuffer, bytesConsumed);
        var shrunk := |receivedDataBuffer| < size || (|receivedDataBuffer| == size && rdbExpected && !(handshakeStep >= 4 && rdbFileExpected));
        if !shrunk { return true; }
        if ends {
          ghost var f := Drain(View(), receivedDataBuffer);
          assert before + (t.events + f.events) == log + f.events;
        }
      }
    }
  }
}
