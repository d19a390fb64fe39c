/** The byte stream from master to replica, as the messages it is made of. */
module Messages {
  import opened Text
  import opened Resp
  import opened ReplicaStream
  import opened Chunking

  /** Everything the master ever writes to a replica. The RDB content is arbitrary bytes. */
  datatype Message = Pong | Okay | FullResync(replid: string) | Rdb(content: string) | Command(payload: seq<string>)

  function ResyncLine(replid: string): string { "+FULLRESYNC " + replid + " 0" }

  function Wire(m: Message): string {
    match m
    case Pong => "+PONG" + CRLF
    case Okay => "+OK" + CRLF
    case FullResync(replid) => ResyncLine(replid) + CRLF
    case Rdb(content) => Header('$', |content|) + CRLF + content
    case Command(payload) => ToRESP(payload)
  }

  function Wires(ms: seq<Message>): string {
    if ms == [] then "" else Wire(ms[0]) + Wires(ms[1..])
  }

  // ---- one message -------------------------------------------------------------------------------

  /** The message the replica is waiting for in this state. */
  ghost predicate Fits(c: Control, m: Message) {
    match m
    case Pong => c.step == 0
    case Okay => c.step == 1 || c.step == 2
    case FullResync(replid) => c.step == 3 && OneLine(ResyncLine(replid))
    case Rdb(_) => c.step == 4 && c.rdbExpected
    case Command(payload) => c.step == 4 && !c.rdbExpected && AllPlain(payload)
  }

  function Next(c: Control, m: Message): Control {
    match m
    case Pong => c.(step := 1)
    case Okay => c.(step := c.step + 1)
    case FullResync(_) => c.(step := 4, rdbExpected := true)
    case Rdb(_) => c.(rdbExpected := false)
    case Command(payload) => c.(offset := c.offset + |ToRESP(payload)|)
  }

  function Effects(c: Control, m: Message): seq<Event> {
    match m
    case Pong => [Send(["REPLCONF", "listening-port", Dec(c.port)])]
    case Okay => if c.step == 1 then [Send(["REPLCONF", "capa", "psync2"])] else [Send(["PSYNC", "?", "-1"])]
    case FullResync(_) => []
    case Rdb(_) => []
    case Command(payload) => [CommandEvent(c.offset, payload)]
  }

  lemma LineTurn(c: Control, line: string, more: string)
    requires OneLine(line) && c.step < 4
    ensures IndexOfCRLF(line + CRLF + more, 0) == |line|
    ensures (line + CRLF + more)[..|line|] == line
  {
    var buf := line + CRLF + more;
    assert At(buf, 0, line + CRLF) by { assert forall k :: 0 <= k < |line + CRLF| ==> buf[0 + k] == (line + CRLF)[k]; }
    LineEnd(buf, 0, line);
  }

  lemma GreetingTurn(c: Control, m: Message, more: string)
    requires Fits(c, m) && c.step < 4
    ensures TakeTurn(c, Wire(m) + more) == Turn(Some(|Wire(m)|), Next(c, m), Effects(c, m))
  {
    hide IndexOfCRLF, Dec;
    var line := match m case Pong => "+PONG" case Okay => "+OK" case FullResync(id) => ResyncLine(id) case _ => "";
    assert OneLine("+PONG") && OneLine("+OK");
    LineTurn(c, line, more);
    if m.FullResync? {
      assert "+FULLRESYNC" <= line;
      assert line[1] == 'F';
    }
  }

  lemma RdbTurnSkips(c: Control, content: string, more: string)
    requires c.step == 4 && c.rdbExpected
    ensures var w := Wire(Rdb(content));
            && TakeTurn(c, w + more) == Turn(Some(|w|), c.(rdbExpected := false), [])
            && (w + more)[0] == '$'
  {
    hide ParseInt, IndexOfCRLF, Dec;
    var head := Header('$', |content|) + CRLF;
    var buf := Wire(Rdb(content)) + more;
    assert At(buf, 0, head) by { assert forall k :: 0 <= k < |head| ==> buf[0 + k] == head[k]; }
    HeaderLine(buf, 0, '$', |content|);
  }

  /** Faced with the message it waits for, the replica consumes exactly that message, whatever
      follows: an RDB file full of line ends is skipped by its length. */
  lemma MessageTurn(c: Control, m: Message, more: string)
    requires Fits(c, m)
    ensures TakeTurn(c, Wire(m) + more) == Turn(Some(|Wire(m)|), Next(c, m), Effects(c, m))
    ensures |Wire(m)| > 0
  {
    hide CommandEvent, NextCommand, HandshakeTurn, RdbTurn;
    match m
    case Rdb(content) => RdbTurnSkips(c, content, more);
    case Command(payload) => PrintThenParse(payload, more);
    case _ => GreetingTurn(c, m, more);
  }

  /** With only a part of that message it waits. */
  lemma PartialMessageWaits(c: Control, m: Message, k: nat)
    requires Fits(c, m) && k < |Wire(m)|
    ensures Waits(c, Wire(m)[..k])
  {
    hide TakeTurn, Wire, Next, Effects;
    var part, missing := Wire(m)[..k], Wire(m)[k..];
    assert part + missing == Wire(m) == Wire(m) + "";
    MessageTurn(c, m, "");
    if !Waits(c, part) {
      TurnIsStable(c, part, missing);
      if m.Rdb? { RdbTurnSkips(c, m.content, ""); }
      assert !BadRdbHeader(c, Wire(m));
      TurnFits(c, part);
    }
  }

  // ---- many messages -----------------------------------------------------------------------------

  ghost predicate FitsAll(c: Control, ms: seq<Message>)
    decreases ms
  {
    ms == [] || (Fits(c, ms[0]) && FitsAll(Next(c, ms[0]), ms[1..]))
  }

  function After(c: Control, ms: seq<Message>): Control
    decreases ms
  {
    if ms == [] then c else After(Next(c, ms[0]), ms[1..])
  }

  function AllEffects(c: Control, ms: seq<Message>): seq<Event>
    decreases ms
  {
    if ms == [] then [] else Effects(c, ms[0]) + AllEffects(Next(c, ms[0]), ms[1..])
  }

  /** Given any prefix `part` of the bytes of the messages it waits for, the replica has consumed a
      whole number of messages, with their effects, and keeps exactly the rest. */
  lemma {:induction false} RunStopsAtBoundary(c: Control, ms: seq<Message>, part: string, missing: string)
    requires FitsAll(c, ms) && part + missing == Wires(ms)
    ensures Orderly(c, part)
    ensures var d := Run(c, part);
            && d.turns <= |ms|
            && d.rest + missing == Wires(ms[d.turns..])
            && (d.turns < |ms| ==> |d.rest| < |Wire(ms[d.turns])|)
            && d.control == After(c, ms[..d.turns])
            && d.events == AllEffects(c, ms[..d.turns])
    decreases ms
  {
    hide TakeTurn, Wire, Next, Effects, Fits;
    if ms == [] {
      NothingWaits(c);
      assert part == "";
      RunUnfolds(c, part);
    } else if |part| < |Wire(ms[0])| {
      assert part == Wire(ms[0])[..|part|] by { PrefixOf(part, missing, Wire(ms[0]), Wires(ms[1..])); }
      PartialMessageWaits(c, ms[0], |part|);
      RunUnfolds(c, part);
    } else {
      var n, next := |Wire(ms[0])|, Next(c, ms[0]);
      assert part[..n] == Wire(ms[0]) && part[n..] + missing == Wires(ms[1..]) by {
        SuffixOf(part, missing, Wire(ms[0]), Wires(ms[1..]));
      }
      assert part == Wire(ms[0]) + part[n..];
      MessageTurn(c, ms[0], part[n..]);
      RunStopsAtBoundary(next, ms[1..], part[n..], missing);
      NotBadRdbHeader(c, ms[0], part[n..]);
      assert Orderly(c, part);
      RunUnfolds(c, part);
      var d := Run(next, part[n..]);
      BoundaryUnfolds(c, ms, d.turns);
    }
  }

  lemma NothingWaits(c: Control)
    ensures Waits(c, "")
  {
  }

  lemma NotBadRdbHeader(c: Control, m: Message, more: string)
    requires Fits(c, m)
    ensures !BadRdbHeader(c, Wire(m) + more)
  {
    hide IndexOfCRLF;
    if m.Rdb? { RdbTurnSkips(c, m.content, more); }
  }

  lemma PrefixOf(a: string, b: string, x: string, y: string)
    requires a + b == x + y && |a| < |x|
    ensures a == x[..|a|]
  {
    assert a == (a + b)[..|a|] == (x + y)[..|a|];
  }

  lemma SuffixOf(a: string, b: string, x: string, y: string)
    requires a + b == x + y && |a| >= |x|
    ensures a[..|x|] == x && a[|x|..] + b == y
  {
    assert a[..|x|] == (a + b)[..|x|] == (x + y)[..|x|];
    assert a[|x|..] + b == (a + b)[|x|..] == (x + y)[|x|..];
  }

  lemma BoundaryUnfolds(c: Control, ms: seq<Message>, k: nat)
    requires ms != [] && k <= |ms| - 1
    ensures ms[1 + k..] == ms[1..][k..]
    ensures After(c, ms[..1 + k]) == After(Next(c, ms[0]), ms[1..][..k])
    ensures AllEffects(c, ms[..1 + k]) == Effects(c, ms[0]) + AllEffects(Next(c, ms[0]), ms[1..][..k])
  {
    assert ms[..1 + k][1..] == ms[1..][..k];
  }

  /** All the bytes of the messages it waits for: all of them are consumed, with all their effects. */
  lemma RunConsumesAll(c: Control, ms: seq<Message>)
    requires FitsAll(c, ms)
    ensures Orderly(c, Wires(ms))
    ensures Run(c, Wires(ms)) == Drained(After(c, ms), "", AllEffects(c, ms), |ms|)
  {
    hide TakeTurn, Wire, After, AllEffects, FitsAll, BadRdbHeader;
    var all := Wires(ms);
    assert all + "" == all;
    RunStopsAtBoundary(c, ms, all, "");
    var d := Run(c, all);
    assert d.rest + "" == d.rest;
    assert d.turns == |ms|;
    assert ms[..|ms|] == ms;
  }

  /** A master stream cut into data events anywhere gives the same events, in the same order, and ends in the
      same state with an empty buffer. */
  lemma MasterStreamInAnyChunks(c: Control, ms: seq<Message>, chunks: seq<string>)
    requires FitsAll(c, ms) && Concat(chunks) == Wires(ms)
    ensures Orderly(c, "" + Concat(chunks))
    ensures Feed(c, "", chunks) == Drained(After(c, ms), "", AllEffects(c, ms), |ms|)
  {
    hide TakeTurn, Wires, After, AllEffects, FitsAll, Feed, Concat, Orderly, Waits;
    assert "" + Concat(chunks) == Concat(chunks);
    RunConsumesAll(c, ms);
    NothingWaits(c);
    ChunkingDoesNotMatter(c, "", chunks);
  }
}
