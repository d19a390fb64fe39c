/** However the master's bytes are cut into data events, the replica does the same things. */
module Chunking {
  import opened Text
  import opened Resp
  import opened ReplicaStream

  // ---- one pass ------------------------------------------------------------------------------

  /** The pass finds no complete message and touches nothing. */
  predicate Waits(c: Control, buf: string) { TakeTurn(c, buf) == Turn(WAITING, c, []) }

  /** Where the RDB file is expected, the line that arrived is not `$...`: the handler then throws
      away whatever happens to be in its buffer. */
  predicate BadRdbHeader(c: Control, buf: string) {
    c.step >= 4 && c.rdbExpected && IndexOfCRLF(buf, 0) != -1 && buf[0] != '$'
  }

  /** A pass that has seen a whole message is not changed by later bytes. */
  lemma TurnIsStable(c: Control, buf: string, more: string)
    requires !Waits(c, buf)
    ensures BadRdbHeader(c, buf) ==> BadRdbHeader(c, buf + more)
    ensures !BadRdbHeader(c, buf) ==> TakeTurn(c, buf + more).bytes == TakeTurn(c, buf).bytes
    ensures !BadRdbHeader(c, buf) && (TakeTurn(c, buf).bytes.Some? ==> TakeTurn(c, buf).bytes.value >= 0)
            ==> TakeTurn(c, buf + more) == TakeTurn(c, buf)
    ensures !Waits(c, buf + more)
  {
    hide ParseInt, NextCommand, CommandEvent, FrameEnd;
    if c.step < 4 || c.rdbExpected {
      IndexStable(buf, more, 0);
      var end := IndexOfCRLF(buf, 0);
      assert (buf + more)[..end] == buf[..end];
      assert end > 0 ==> (buf + more)[1..end] == buf[1..end];
    } else {
      CommandTurnIsStable(c, buf, more);
    }
  }

  lemma CommandTurnIsStable(c: Control, buf: string, more: string)
    requires NextCommand(buf).Some?
    ensures CommandTurn(c, buf + more).bytes == CommandTurn(c, buf).bytes != None
    ensures CommandTurn(c, buf).bytes.value >= 0 ==> CommandTurn(c, buf + more) == CommandTurn(c, buf)
    ensures CommandTurn(c, buf).bytes.value <= |buf|
    ensures CommandTurn(c, buf + more).events != []
  {
    hide FrameEnd, CommandEvent;
    CompleteFrameIsStable(buf, more);
  }

  /** Exactly when a pass that consumed bytes does not depend on what arrives later. */
  lemma StableExactlyUnlessBadRdbHeader(c: Control, buf: string)
    requires TakeTurn(c, buf).bytes.Some? && TakeTurn(c, buf).bytes.value > 0
    ensures (forall more :: TakeTurn(c, buf + more) == TakeTurn(c, buf)) <==> !BadRdbHeader(c, buf)
  {
    if BadRdbHeader(c, buf) {
      TurnIsStable(c, buf, "x");
      assert TakeTurn(c, buf + "x") != TakeTurn(c, buf);
    } else {
      forall more ensures TakeTurn(c, buf + more) == TakeTurn(c, buf) { TurnIsStable(c, buf, more); }
    }
  }

  // ---- whole runs of the loop ------------------------------------------------------------------

  /** Every pass over these bytes either waits, or consumes a message that is not a bad RDB header. */
  predicate Orderly(c: Control, buf: string)
    decreases |buf|
  {
    var t := TakeTurn(c, buf);
    Waits(c, buf)
    || (!BadRdbHeader(c, buf) && t.bytes.Some? && 0 < t.bytes.value <= |buf|
        && Orderly(t.control, buf[t.bytes.value..]))
  }

  lemma {:induction false} OrderlyTerminates(c: Control, buf: string)
    requires Orderly(c, buf)
    ensures Terminates(c, buf)
    decreases |buf|
  {
    hide TakeTurn, BadRdbHeader;
    if !Waits(c, buf) {
      var t := TakeTurn(c, buf);
      OrderlyTerminates(t.control, buf[t.bytes.value..]);
    }
  }

  /** The loop on bytes known to be orderly. */
  function Run(c: Control, buf: string): (d: Drained)
    requires Orderly(c, buf)
  {
    OrderlyTerminates(c, buf);
    Drain(c, buf)
  }

  function Then(d: Drained, e: Drained): Drained {
    Drained(e.control, e.rest, d.events + e.events, d.turns + e.turns)
  }

  /** One step of the recursion of Run. */
  lemma RunUnfolds(c: Control, buf: string)
    requires Orderly(c, buf)
    ensures Waits(c, buf) ==> Run(c, buf) == Drained(c, buf, [], 0)
    ensures !Waits(c, buf) ==>
              var t := TakeTurn(c, buf);
              Run(c, buf) == Then(Drained(t.control, "", t.events, 1), Run(t.control, buf[t.bytes.value..]))
  {
    hide TakeTurn, BadRdbHeader;
    OrderlyTerminates(c, buf);
    if !Waits(c, buf) {
      var t := TakeTurn(c, buf);
      OrderlyTerminates(t.control, buf[t.bytes.value..]);
    }
  }

  /** Draining a prefix first and the rest later is draining everything at once. */
  lemma {:induction false} RunSplits(c: Control, buf: string, more: string)
    requires Orderly(c, buf + more)
    ensures Orderly(c, buf)
    ensures var d := Run(c, buf);
            && Waits(d.control, d.rest)
            && Orderly(d.control, d.rest + more)
            && Run(c, buf + more) == Then(d, Run(d.control, d.rest + more))
    decreases |buf|
  {
    hide TakeTurn, BadRdbHeader;
    if Waits(c, buf) {
      RunUnfolds(c, buf);
    } else {
      TurnIsStable(c, buf, more);
      var t := TakeTurn(c, buf);
      assert TakeTurn(c, buf + more) == t && t.bytes.value <= |buf| by { TurnFits(c, buf); }
      var n := t.bytes.value;
      assert (buf + more)[n..] == buf[n..] + more;
      RunSplits(t.control, buf[n..], more);
      RunUnfolds(c, buf);
      RunUnfolds(c, buf + more);
    }
  }

  lemma TurnFits(c: Control, buf: string)
    requires TakeTurn(c, buf).bytes.Some?
    ensures TakeTurn(c, buf).bytes.value <= |buf|
  {
    if c.step >= 4 && !c.rdbExpected && NextCommand(buf).Some? {
      CompleteFrameIsStable(buf, "");
    }
  }

  // ---- chunks ------------------------------------------------------------------------------------

  function Concat(chunks: seq<string>): string {
    if chunks == [] then "" else chunks[0] + Concat(chunks[1..])
  }

  /** One data event after the other: append the chunk to what the last drain left, drain again. */
  function Feed(c: Control, buf: string, chunks: seq<string>): Drained
    requires Orderly(c, buf + Concat(chunks))
    decreases chunks
  {
    if chunks == [] then Drained(c, buf, [], 0)
    else
      assert buf + Concat(chunks) == (buf + chunks[0]) + Concat(chunks[1..]);
      RunSplits(c, buf + chunks[0], Concat(chunks[1..]));
      var d := Run(c, buf + chunks[0]);
      Then(d, Feed(d.control, d.rest, chunks[1..]))
  }

  /** Chunking independence: same events in the same order, same final state, same leftover bytes. */
  lemma {:induction false} ChunkingDoesNotMatter(c: Control, buf: string, chunks: seq<string>)
    requires Waits(c, buf) && Orderly(c, buf + Concat(chunks))
    ensures Feed(c, buf, chunks) == Run(c, buf + Concat(chunks))
    decreases chunks
  {
    hide TakeTurn, BadRdbHeader;
    if chunks == [] {
      assert buf + Concat(chunks) == buf;
      RunUnfolds(c, buf);
    } else {
      var more := Concat(chunks[1..]);
      assert buf + Concat(chunks) == (buf + chunks[0]) + more;
      RunSplits(c, buf + chunks[0], more);
      var d := Run(c, buf + chunks[0]);
      ChunkingDoesNotMatter(d.control, d.rest, chunks[1..]);
    }
  }

  /** Behind a bad RDB header chunking does matter: the same seven bytes, cut in two ways. */
  lemma ChunkingMattersAfterBadHeader(port: nat)
    ensures var c := Control(port, 4, true, 0);
            && TakeTurn(c, "x\r\n$0\r\n") == Turn(Some(7), c, [])
            && TakeTurn(c, "x\r\n") == Turn(Some(3), c, [])
            && TakeTurn(c, "$0\r\n") == Turn(Some(4), c.(rdbExpected := false), [])
  {
    IndexIs("x\r\n$0\r\n", 0, 1);
    IndexIs("x\r\n", 0, 1);
    IndexIs("$0\r\n", 0, 2);
    assert "$0\r\n"[1..2] == Dec(0);
    ParseDec(0);
  }
}
