/** One replica and its connection to the master: what has been written, delivered and consumed. */
module ReplicaLink {
  import opened Text
  import opened Resp
  import opened ReplicaStream
  import opened Chunking
  import opened Messages
  import opened Store
  import opened Commands
  import opened Dispatcher
  import opened Propagation
  import Blocking
  import Persistence = Rdb

  /** What PSYNC answers with, and the dump file that the master loads when it starts. */
  datatype World = World(replid: string, rdb: string, file: string, loadedAt: int) {
    ghost predicate Valid() { OneLine(ResyncLine(replid)) }
  }

  const GETACK: Payload := ["REPLCONF", "GETACK", "*"]

  datatype Replica = Replica(
    // the replica process
    port: nat, control: Control, buf: string, store: Store, sent: seq<Payload>,
    // bytes the master has written and the network has not delivered
    down: string,
    // how many of the replica's messages the master has read
    read: nat,
    // history: greeting messages and commands written so far, messages consumed so far
    greeted: nat, cmds: seq<Payload>, consumed: nat,
    // history: the master's offset when it registered this replica; whether the master's store was this one then, up to
    // propagations still pending, and every command since has been lossless
    baseOffset: nat, intact: bool)

  predicate Attached(r: Replica) { r.greeted == 5 }

  function Greeting(w: World): (ms: seq<Message>)
    ensures |ms| == 5
  { 
    [Pong, Okay, Okay, FullResync(w.replid), Rdb(w.rdb)]
  }

  function Requests(port: nat): (ps: seq<Payload>)
    ensures |ps| == 4
  {
    [["PING"], ["REPLCONF", "listening-port", Dec(port)], ["REPLCONF", "capa", "psync2"], ["PSYNC", "?", "-1"]]
  }

  // ---- the script: message k, and the replica's state after k messages -------------------------------

  function MessageAt(w: World, cmds: seq<Payload>, k: nat): Message
    requires k < 5 + |cmds|
  {
    if k < 5 then Greeting(w)[k] else Command(cmds[k - 5])
  }

  /** greeting and commands fit together: commands are written only after the whole greeting. */
  predicate InOrder(greeted: nat, cmds: seq<Payload>) { greeted <= 5 && (greeted < 5 ==> cmds == []) }

  function Pending(w: World, greeted: nat, cmds: seq<Payload>, from: nat): (ms: seq<Message>)
    requires InOrder(greeted, cmds) && from <= greeted + |cmds|
    ensures |ms| == greeted + |cmds| - from
    ensures forall i :: 0 <= i < |ms| ==> ms[i] == MessageAt(w, cmds, from + i)
  {
    seq(greeted + |cmds| - from, i requires 0 <= i < greeted + |cmds| - from => MessageAt(w, cmds, from + i))
  }

  function CommandBytes(ps: seq<Payload>): nat {
    if ps == [] then 0 else CommandBytes(ps[..|ps| - 1]) + |ToRESP(ps[|ps| - 1])|
  }

  /** The answers to the GETACKs among these commands: each tells the bytes that precede it. */
  function Acks(ps: seq<Payload>): seq<Payload> {
    if ps == [] then []
    else
      var before, last := ps[..|ps| - 1], ps[|ps| - 1];
      Acks(before) + if IsGetAck(last) then [["REPLCONF", "ACK", DecInt(CommandBytes(before))]] else []
  }

  function CommandsIn(consumed: nat): nat { if consumed < 5 then 0 else consumed - 5 }

  function ControlAt(port: nat, cmds: seq<Payload>, k: nat): Control
    requires k <= 5 + |cmds|
  {
    if k < 5 then Control(port, k, k == 4, 0) else Control(port, 4, false, CommandBytes(cmds[..k - 5]))
  }

  function SentAt(port: nat, cmds: seq<Payload>, k: nat): seq<Payload>
    requires k <= 5 + |cmds|
  {
    if k < 3 then Requests(port)[..k + 1] else Requests(port) + Acks(cmds[..CommandsIn(k)])
  }

  function Sends(events: seq<Event>): seq<Payload> {
    if events == [] then []
    else (if events[0].Send? then [events[0].parts] else []) + Sends(events[1..])
  }

  function Emitted(events: seq<Event>): seq<Payload> {
    if events == [] then []
    else (if events[0].Emit? then [events[0].payload] else []) + Emitted(events[1..])
  }

  /** The commands that are not GETACK. */
  function Writes(ps: seq<Payload>): seq<Payload> {
    if ps == [] then []
    else (if IsGetAck(ps[0]) then [] else [ps[0]]) + Writes(ps[1..])
  }

  ghost predicate Sendable(p: Payload) { AllPlain(p) && (p == GETACK || IsWrite(NameOf(p))) }

  ghost predicate AllSendable(ps: seq<Payload>) { forall i :: 0 <= i < |ps| ==> Sendable(ps[i]) }

  lemma OneOfScript(w: World, port: nat, cmds: seq<Payload>, k: nat)
    requires w.Valid() && AllSendable(cmds) && k < 5 + |cmds|
    ensures var c, m := ControlAt(port, cmds, k), MessageAt(w, cmds, k);
            && Fits(c, m)
            && Next(c, m) == ControlAt(port, cmds, k + 1)
            && SentAt(port, cmds, k) + Sends(Effects(c, m)) == SentAt(port, cmds, k + 1)
            && Emitted(Effects(c, m)) == if k < 5 then [] else Writes([cmds[k - 5]])
  {
    hide ToRESP, Dec, DecInt, ResyncLine, IsGetAck, IsWrite, NameOf, AllPlain, OneLine;
    if k >= 5 {
      var done := cmds[..k - 4];
      assert done[..|done| - 1] == cmds[..k - 5] && done[|done| - 1] == cmds[k - 5];
      assert Sendable(cmds[k - 5]);
      assert [cmds[k - 5]][1..] == [];
    } else if k == 4 {
      assert cmds[..0] == [];
    } else if k == 3 {
      assert Acks(cmds[..CommandsIn(4)]) == [] == Acks(cmds[..CommandsIn(3)]);
    } else {
      var requests := Requests(port);
      assert requests[..k + 2] == requests[..k + 1] + [requests[k + 1]];
      assert requests[..4] == requests;
    }
  }

  lemma PendingUnfolds(w: World, greeted: nat, cmds: seq<Payload>, from: nat)
    requires InOrder(greeted, cmds) && from < greeted + |cmds|
    ensures var ms := Pending(w, greeted, cmds, from);
            ms != [] && ms[0] == MessageAt(w, cmds, from) && ms[1..] == Pending(w, greeted, cmds, from + 1)
  {
    hide MessageAt;
  }

  lemma {:induction false} ScriptFits(w: World, port: nat, greeted: nat, cmds: seq<Payload>, from: nat)
    requires w.Valid() && AllSendable(cmds) && InOrder(greeted, cmds) && from <= greeted + |cmds|
    ensures FitsAll(ControlAt(port, cmds, from), Pending(w, greeted, cmds, from))
    decreases greeted + |cmds| - from
  {
    hide Fits, Next, MessageAt, ControlAt, Pending;
    if from < greeted + |cmds| {
      PendingUnfolds(w, greeted, cmds, from);
      OneOfScript(w, port, cmds, from);
      ScriptFits(w, port, greeted, cmds, from + 1);
    } else {
      NothingPending(w, greeted, cmds);
    }
  }

  lemma NothingPending(w: World, greeted: nat, cmds: seq<Payload>)
    requires InOrder(greeted, cmds)
    ensures Pending(w, greeted, cmds, greeted + |cmds|) == []
  {
  }

  lemma {:induction false} SendsAppend(a: seq<Event>, b: seq<Event>)
    ensures Sends(a + b) == Sends(a) + Sends(b)
    decreases a
  {
    if a == [] {
      assert a + b == b;
    } else {
      SendsAppend(a[1..], b);
      assert (a + b)[1..] == a[1..] + b;
    }
  }

  lemma {:induction false} EmittedAppend(a: seq<Event>, b: seq<Event>)
    ensures Emitted(a + b) == Emitted(a) + Emitted(b)
    decreases a
  {
    if a == [] {
      assert a + b == b;
    } else {
      EmittedAppend(a[1..], b);
      assert (a + b)[1..] == a[1..] + b;
    }
  }

  lemma {:induction false} WritesAppend(a: seq<Payload>, b: seq<Payload>)
    ensures Writes(a + b) == Writes(a) + Writes(b)
    decreases a
  {
    hide IsGetAck;
    if a == [] {
      assert a + b == b;
    } else {
      WritesAppend(a[1..], b);
      assert (a + b)[1..] == a[1..] + b;
    }
  }

  lemma EffectsUnfold(c: Control, ms: seq<Message>)
    requires ms != []
    ensures var next := Next(c, ms[0]);
            && After(c, ms) == After(next, ms[1..])
            && Sends(AllEffects(c, ms)) == Sends(Effects(c, ms[0])) + Sends(AllEffects(next, ms[1..]))
            && Emitted(AllEffects(c, ms)) == Emitted(Effects(c, ms[0])) + Emitted(AllEffects(next, ms[1..]))
  {
    hide Effects, Next, Sends, Emitted;
    SendsAppend(Effects(c, ms[0]), AllEffects(Next(c, ms[0]), ms[1..]));
    EmittedAppend(Effects(c, ms[0]), AllEffects(Next(c, ms[0]), ms[1..]));
  }

  lemma Associate(a: seq<Payload>, b: seq<Payload>, c: seq<Payload>)
    ensures (a + b) + c == a + (b + c)
  {
  }

  /** After `t` more messages of the script: control, everything sent, and the commands emitted. */
  ghost predicate Plays(w: World, port: nat, greeted: nat, cmds: seq<Payload>, from: nat, t: nat)
    requires InOrder(greeted, cmds) && from + t <= greeted + |cmds|
  {
    var c, ms := ControlAt(port, cmds, from), Pending(w, greeted, cmds, from)[..t];
    && After(c, ms) == ControlAt(port, cmds, from + t)
    && SentAt(port, cmds, from) + Sends(AllEffects(c, ms)) == SentAt(port, cmds, from + t)
    && Emitted(AllEffects(c, ms)) == Writes(cmds[CommandsIn(from)..CommandsIn(from + t)])
  }

  lemma PlaysStep(w: World, port: nat, greeted: nat, cmds: seq<Payload>, from: nat, t: nat)
    requires w.Valid() && AllSendable(cmds) && InOrder(greeted, cmds) && t > 0 && from + t <= greeted + |cmds|
    requires Plays(w, port, greeted, cmds, from + 1, t - 1)
    ensures Plays(w, port, greeted, cmds, from, t)
  {
    hide Fits, Next, MessageAt, ControlAt, Pending, SentAt, Effects, Writes, AllSendable, After, AllEffects, Sends, Emitted;
    var c, ms := ControlAt(port, cmds, from), Pending(w, greeted, cmds, from)[..t];
    PendingUnfolds(w, greeted, cmds, from);
    OneOfScript(w, port, cmds, from);
    EffectsUnfold(c, ms);
    var rest := Pending(w, greeted, cmds, from + 1)[..t - 1];
    assert ms[1..] == rest;
    var m := MessageAt(w, cmds, from);
    assert ms[0] == m;
    Associate(SentAt(port, cmds, from), Sends(Effects(c, m)), Sends(AllEffects(Next(c, m), rest)));
    EmittedStep(cmds, from, t);
  }

  lemma {:induction false} ScriptEffects(w: World, port: nat, greeted: nat, cmds: seq<Payload>, from: nat, t: nat)
    requires w.Valid() && AllSendable(cmds) && InOrder(greeted, cmds) && from + t <= greeted + |cmds|
    ensures Plays(w, port, greeted, cmds, from, t)
    decreases t
  {
    hide ControlAt, Pending, SentAt, AllSendable;
    if t > 0 {
      ScriptEffects(w, port, greeted, cmds, from + 1, t - 1);
      PlaysStep(w, port, greeted, cmds, from, t);
    } else {
      assert SentAt(port, cmds, from) + [] == SentAt(port, cmds, from);
      assert cmds[CommandsIn(from)..CommandsIn(from)] == [];
    }
  }

  lemma EmittedStep(cmds: seq<Payload>, from: nat, t: nat)
    requires t > 0 && CommandsIn(from + t) <= |cmds|
    ensures Writes(cmds[CommandsIn(from)..CommandsIn(from + t)])
         == (if from < 5 then [] else Writes([cmds[from - 5]])) + Writes(cmds[CommandsIn(from + 1)..CommandsIn(from + t)])
  {
    hide IsGetAck, Writes;
    if from >= 5 {
      assert cmds[from - 5..from + t - 5] == [cmds[from - 5]] + cmds[from - 4..from + t - 5];
      WritesAppend([cmds[from - 5]], cmds[from - 4..from + t - 5]);
    }
  }

  // ---- the invariant of one connection ---------------------------------------------------------------

  /** Handshake alignment: what is buffered or under way is exactly the unconsumed messages of the script,
      so the replica always stands at a message boundary; and its state is that of the script. */
  ghost predicate Aligned(w: World, r: Replica) {
    && InOrder(r.greeted, r.cmds) && AllSendable(r.cmds)
    && r.consumed <= r.greeted + |r.cmds|
    && r.buf + r.down == Wires(Pending(w, r.greeted, r.cmds, r.consumed))
    && r.control == ControlAt(r.port, r.cmds, r.consumed)
    && r.sent == SentAt(r.port, r.cmds, r.consumed)
    && r.read <= |r.sent|
    && r.greeted == (if r.read < 4 then r.read else 5)
  }

  /** A replica that has loaded its own dump file, connected, and sent PING. */
  function Fresh(port: nat, file: string, now: int): Replica {
    Replica(port, Control(port, 0, false, 0), "", Persistence.Load(file, now), [["PING"]], "", 0, 0, [], 0, 0, false)
  }

  /** k bytes arrive: the handler drains its buffer; replies go to the master, commands to the dispatcher. */
  function Deliver(r: Replica, k: nat, env: Env): Replica
    requires k <= |r.down|
  {
    var bytes := r.buf + r.down[..k];
    if !Terminates(r.control, bytes) then r
    else
      var d := Drain(r.control, bytes);
      r.(control := d.control, buf := d.rest, down := r.down[k..], sent := r.sent + Sends(d.events),
         store := Replay(env, r.store, Emitted(d.events)), consumed := r.consumed + d.turns)
  }

  /** The master writes these commands to the replica. */
  function Write(r: Replica, ps: seq<Payload>): Replica {
    r.(down := r.down + Printed(ps), cmds := r.cmds + ps)
  }

  function Printed(ps: seq<Payload>): string {
    if ps == [] then "" else ToRESP(ps[0]) + Printed(ps[1..])
  }

  lemma FreshIsAligned(w: World, port: nat, file: string, now: int)
    ensures Aligned(w, Fresh(port, file, now))
  {
    hide Persistence.Load;
    NothingPending(w, 0, []);
    assert Requests(port)[..1] == [["PING"]];
  }

  lemma DeliverDrains(w: World, r: Replica, k: nat)
    requires w.Valid() && Aligned(w, r) && k <= |r.down|
    ensures var bytes := r.buf + r.down[..k];
            && Orderly(r.control, bytes) && Terminates(r.control, bytes)
            && var d := Drain(r.control, bytes);
               var ms := Pending(w, r.greeted, r.cmds, r.consumed);
               && d.turns <= |ms| && d.rest + r.down[k..] == Wires(ms[d.turns..])
               && (d.turns < |ms| ==> |d.rest| < |Wire(ms[d.turns])|)
               && d.control == After(r.control, ms[..d.turns]) && d.events == AllEffects(r.control, ms[..d.turns])
  {
    hide ControlAt, SentAt, Pending, Wires, FitsAll, After, AllEffects, Terminates;
    var ms := Pending(w, r.greeted, r.cmds, r.consumed);
    ScriptFits(w, r.port, r.greeted, r.cmds, r.consumed);
    assert r.down == r.down[..k] + r.down[k..];
    assert (r.buf + r.down[..k]) + r.down[k..] == r.buf + r.down;
    RunStopsAtBoundary(r.control, ms, r.buf + r.down[..k], r.down[k..]);
    OrderlyTerminates(r.control, r.buf + r.down[..k]);
  }

  /** Delivering any number of bytes keeps the alignment; exactly the commands of the messages consumed
      reach the replica's dispatcher. */
  lemma DeliverKeepsAligned(w: World, r: Replica, k: nat, env: Env)
    requires w.Valid() && Aligned(w, r) && k <= |r.down|
    ensures var n := Deliver(r, k, env);
            && Aligned(w, n)
            && r.consumed <= n.consumed && r.sent <= n.sent
            && n.store == Replay(env, r.store, Writes(r.cmds[CommandsIn(r.consumed)..CommandsIn(n.consumed)]))
  {
    hide ControlAt, SentAt, Wires, After, AllEffects, Terminates, Drain, Replay, Writes, MessageAt;
    DeliverDrains(w, r, k);
    var ms := Pending(w, r.greeted, r.cmds, r.consumed);
    var t := Drain(r.control, r.buf + r.down[..k]).turns;
    ScriptEffects(w, r.port, r.greeted, r.cmds, r.consumed, t);
    assert ms[t..] == Pending(w, r.greeted, r.cmds, r.consumed + t);
    NoWritesYet(env, r.store);
  }

  lemma NoWritesYet(env: Env, s: Store)
    ensures Writes([]) == [] && Replay(env, s, []) == s
  {
  }

  // ---- the master writes commands ----------------------------------------------------------------------

  lemma {:induction false} WiresAppend(a: seq<Message>, b: seq<Message>)
    ensures Wires(a + b) == Wires(a) + Wires(b)
    decreases a
  {
    hide Wire;
    if a == [] {
      assert a + b == b;
    } else {
      WiresAppend(a[1..], b);
      assert (a + b)[1..] == a[1..] + b;
      assert Wire(a[0]) + (Wires(a[1..]) + Wires(b)) == (Wire(a[0]) + Wires(a[1..])) + Wires(b);
    }
  }

  function AsMessages(ps: seq<Payload>): seq<Message> { seq(|ps|, i requires 0 <= i < |ps| => Command(ps[i])) }

  lemma {:induction false} PrintedIsWires(ps: seq<Payload>)
    ensures Printed(ps) == Wires(AsMessages(ps))
    decreases ps
  {
    hide ToRESP;
    if ps != [] {
      PrintedIsWires(ps[1..]);
      assert AsMessages(ps)[1..] == AsMessages(ps[1..]);
    }
  }

  lemma PendingGrows(w: World, cmds: seq<Payload>, ps: seq<Payload>, from: nat)
    requires from <= 5 + |cmds|
    ensures Pending(w, 5, cmds + ps, from) == Pending(w, 5, cmds, from) + AsMessages(ps)
  {
    hide Greeting, Pending;
    var longer, pieces := Pending(w, 5, cmds + ps, from), Pending(w, 5, cmds, from) + AsMessages(ps);
    forall i | 0 <= i < |longer| ensures longer[i] == pieces[i] {
      var k := from + i;
      if k < 5 + |cmds| {
        assert pieces[i] == Pending(w, 5, cmds, from)[i] == MessageAt(w, cmds, k);
      } else {
        assert pieces[i] == AsMessages(ps)[k - 5 - |cmds|];
      }
    }
  }

  lemma WriteKeepsAligned(w: World, r: Replica, ps: seq<Payload>)
    requires Aligned(w, r) && Attached(r) && AllSendable(ps)
    ensures Aligned(w, Write(r, ps))
  {
    hide Sendable, Wires, Printed, MessageAt, Requests, Acks, CommandBytes, Pending, AsMessages;
    var cmds := r.cmds + ps;
    PendingGrows(w, r.cmds, ps, r.consumed);
    WiresAppend(Pending(w, 5, r.cmds, r.consumed), AsMessages(ps));
    PrintedIsWires(ps);
    assert cmds[..CommandsIn(r.consumed)] == r.cmds[..CommandsIn(r.consumed)];
    assert r.buf + (r.down + Printed(ps)) == (r.buf + r.down) + Printed(ps);
  }

  // ---- the master reads one message of the replica --------------------------------------------------------

  /** A request is answered by the dispatcher, PSYNC by the greeting's last two messages and registration. */
  ghost function Answer(w: World, s: Store, pending: seq<Payload>, offset: nat, r: Replica): Replica
    requires r.read < |r.sent|
  {
    var p := r.sent[r.read];
    if IsAck(p) then r.(read := r.read + 1)
    else if NameOf(p) == "psync" then
      r.(read := r.read + 1, greeted := 5, baseOffset := offset, intact := Lockstep(r.store, pending, s),
         down := r.down + (Wire(FullResync(w.replid)) + Wire(Rdb(w.rdb))))
    else
      match Dispatch(ENV0, FRESH, Blocking.OPEN.(store := s), p).reply
      case None => r.(read := r.read + 1)
      case Some(reply) => r.(read := r.read + 1, greeted := r.greeted + 1, down := r.down + reply)
  }

  lemma PingReply(d: Blocking.Desk)
    ensures NameOf(["PING"]) == "ping" && Dispatch(ENV0, FRESH, d, ["PING"]).reply == Some("+PONG\r\n")
  {
    assert Lower("PING") == "ping" && ["PING"][1..] == [];
  }

  lemma ReplconfReply(d: Blocking.Desk, option: string, value: string)
    requires |option| != 3
    ensures var p := ["REPLCONF", option, value];
            !IsAck(p) && NameOf(p) == "replconf" && Dispatch(ENV0, FRESH, d, p).reply == Some("+OK\r\n")
  {
    hide Commands.Set, Commands.Get, Incr, Del, Expire, Commands.RPush, Commands.LPush, Commands.LPop, XAdd, Read, Blocking.PushAndServe;
    assert Lower("REPLCONF") == "replconf";
  }

  lemma HandshakeReplies(s: Store, port: nat, k: nat)
    requires k < 3
    ensures var p := Requests(port)[k];
            && !IsAck(p) && NameOf(p) != "psync"
            && Dispatch(ENV0, FRESH, Blocking.OPEN.(store := s), p).reply == Some(if k == 0 then "+PONG\r\n" else "+OK\r\n")
  {
    hide Dispatch, NameOf;
    var d := Blocking.OPEN.(store := s);
    PingReply(d);
    ReplconfReply(d, "listening-port", Dec(port));
    ReplconfReply(d, "capa", "psync2");
  }

  lemma PsyncIsPsync(port: nat)
    ensures var p := Requests(port)[3]; !IsAck(p) && NameOf(p) == "psync"
  {
    assert Lower("PSYNC") == "psync" && |Lower("?")| == 1;
  }

  /** Everything the replica sends after PSYNC is an ACK. */
  lemma {:induction false} AcksAreAcks(ps: seq<Payload>)
    ensures forall i :: 0 <= i < |Acks(ps)| ==> IsAck(Acks(ps)[i])
  {
    hide DecInt, IsGetAck, CommandBytes;
    if ps != [] {
      AcksAreAcks(ps[..|ps| - 1]);
      assert Lower("REPLCONF") == "replconf" && Lower("ACK") == "ack";
    }
  }

  lemma PendingGreets(w: World, greeted: nat, more: nat, from: nat)
    requires from <= greeted && greeted + more <= 5
    ensures Pending(w, greeted + more, [], from) == Pending(w, greeted, [], from) + Greeting(w)[greeted..greeted + more]
  {
    hide Greeting, Pending;
    var longer, pieces := Pending(w, greeted + more, [], from), Pending(w, greeted, [], from) + Greeting(w)[greeted..greeted + more];
    assert |longer| == |pieces|;
    forall i | 0 <= i < |longer| ensures longer[i] == pieces[i] {
      assert i < greeted - from ==> pieces[i] == Pending(w, greeted, [], from)[i] == MessageAt(w, [], from + i);
    }
  }

  lemma GreetKeepsAligned(w: World, r: Replica, more: nat, text: string)
    requires Aligned(w, r) && r.read < |r.sent| && r.read < 4 && r.greeted + more == (if r.read + 1 < 4 then r.read + 1 else 5)
    requires text == Wires(Greeting(w)[r.greeted..r.greeted + more])
    ensures Aligned(w, r.(read := r.read + 1, greeted := r.greeted + more, down := r.down + text))
  {
    hide Wires, MessageAt, Requests, Acks, CommandBytes, Pending, Greeting;
    PendingGreets(w, r.greeted, more, r.consumed);
    WiresAppend(Pending(w, r.greeted, [], r.consumed), Greeting(w)[r.greeted..r.greeted + more]);
    assert r.buf + (r.down + text) == (r.buf + r.down) + text;
  }

  lemma WiresOfOne(m: Message)
    ensures Wires([m]) == Wire(m)
  {
    hide Wire;
    assert [m][1..] == [];
    assert Wire(m) + "" == Wire(m);
  }

  lemma GreetingText(w: World)
    ensures var g := Greeting(w);
            && Wires(g[0..1]) == "+PONG\r\n" && Wires(g[1..2]) == "+OK\r\n" && Wires(g[2..3]) == "+OK\r\n"
            && Wires(g[3..5]) == Wire(FullResync(w.replid)) + Wire(Rdb(w.rdb))
  {
    hide ResyncLine, Header, Dec, Wires;
    var g := Greeting(w);
    assert g[0..1] == [Pong] && g[1..2] == [Okay] && g[2..3] == [Okay];
    WiresOfOne(Pong);
    WiresOfOne(Okay);
    var resync, rdb := FullResync(w.replid), Rdb(w.rdb);
    assert g[3..5] == [resync] + [rdb];
    WiresAppend([resync], [rdb]);
    WiresOfOne(resync);
    WiresOfOne(rdb);
  }

  lemma AnswerKeepsAligned(w: World, s: Store, pending: seq<Payload>, offset: nat, r: Replica)
    requires Aligned(w, r) && r.read < |r.sent|
    ensures var n := Answer(w, s, pending, offset, r);
            && Aligned(w, n) && n.cmds == r.cmds && n.consumed == r.consumed && n.read == r.read + 1
            && (Attached(r) ==> n == r.(read := r.read + 1))
            && (Attached(n) && !Attached(r) ==> n.baseOffset == offset && n.intact == Lockstep(r.store, pending, s) && n.cmds == [])
            && n.store == r.store && (!Attached(n) ==> n.intact == r.intact)
  {
    hide Dispatch, Wire, Wires, IsAck, NameOf, Pending, Greeting, ControlAt, Acks, AllSendable, Lockstep;
    var k := r.read;
    GreetingText(w);
    if k >= 4 {
      AcksAreAcks(r.cmds[..CommandsIn(r.consumed)]);
      assert r.sent[k] == Acks(r.cmds[..CommandsIn(r.consumed)])[k - 4];
    } else {
      assert r.sent[k] == Requests(r.port)[k];
      if k < 3 {
        HandshakeReplies(s, r.port, k);
        GreetKeepsAligned(w, r, 1, if k == 0 then "+PONG\r\n" else "+OK\r\n");
      } else {
        PsyncIsPsync(r.port);
        GreetKeepsAligned(w, r, 2, Wire(FullResync(w.replid)) + Wire(Rdb(w.rdb)));
      }
    }
  }

  // ---- all bytes delivered --------------------------------------------------------------------------------

  /** Draining everything that is buffered or under way leaves nothing over and emits exactly the
      unconsumed commands. */
  lemma DrainingAllEmits(w: World, r: Replica)
    requires w.Valid() && Aligned(w, r) && Attached(r)
    ensures Terminates(r.control, r.buf + r.down)
    ensures var d := Drain(r.control, r.buf + r.down);
            && d.rest == "" && Emitted(d.events) == Writes(r.cmds[CommandsIn(r.consumed)..])
            && d.control == Control(r.port, 4, false, CommandBytes(r.cmds))
  {
    hide ControlAt, SentAt, Wires, After, AllEffects, Terminates, Drain, Writes, Pending, CommandBytes, Sends, Emitted, AllSendable, Orderly, FitsAll;
    var ms := Pending(w, r.greeted, r.cmds, r.consumed);
    ScriptFits(w, r.port, r.greeted, r.cmds, r.consumed);
    RunConsumesAll(r.control, ms);
    OrderlyTerminates(r.control, r.buf + r.down);
    ScriptEffects(w, r.port, r.greeted, r.cmds, r.consumed, |ms|);
    assert ms[..|ms|] == ms;
    assert r.cmds[CommandsIn(r.consumed)..|r.cmds|] == r.cmds[CommandsIn(r.consumed)..];
    EndOfScript(r.port, r.cmds);
  }

  lemma EndOfScript(port: nat, cmds: seq<Payload>)
    ensures ControlAt(port, cmds, 5 + |cmds|) == Control(port, 4, false, CommandBytes(cmds))
  {
    assert cmds[..|cmds|] == cmds;
  }
}
